// UTF-8 as section 4 of RFC 3629 defines it, over byte strings.
module Utf8 {
  import opened Text

  predicate IsTail(c: char) {
    '\U{80}' <= c <= '\U{BF}'
  }

  predicate IsLead3(a: char, b: char) {
    || (a == '\U{E0}' && '\U{A0}' <= b <= '\U{BF}')
    || ('\U{E1}' <= a <= '\U{EC}' && IsTail(b))
    || (a == '\U{ED}' && '\U{80}' <= b <= '\U{9F}')
    || ('\U{EE}' <= a <= '\U{EF}' && IsTail(b))
  }

  predicate IsLead4(a: char, b: char) {
    || (a == '\U{F0}' && '\U{90}' <= b <= '\U{BF}')
    || ('\U{F1}' <= a <= '\U{F3}' && IsTail(b))
    || (a == '\U{F4}' && '\U{80}' <= b <= '\U{8F}')
  }

  // Length of the encoded rune that s begins with, 0 if s begins with none.
  function RuneLen(s: string): (n: nat)
    ensures n <= 4 && n <= |s|
    ensures n > 0 ==> !IsTail(s[0]) && forall i :: 1 <= i < n ==> IsTail(s[i])
  {
    if s == "" then 0
    else if s[0] <= '\U{7F}' then 1
    else if |s| >= 2 && '\U{C2}' <= s[0] <= '\U{DF}' && IsTail(s[1]) then 2
    else if |s| >= 3 && IsLead3(s[0], s[1]) && IsTail(s[2]) then 3
    else if |s| >= 4 && IsLead4(s[0], s[1]) && IsTail(s[2]) && IsTail(s[3]) then 4
    else 0
  }

  // utf8.ValidString
  predicate Valid(s: string)
    decreases |s|
  {
    s == "" || (RuneLen(s) > 0 && Valid(s[RuneLen(s)..]))
  }

  const REPLACEMENT := "\U{EF}\U{BF}\U{BD}"

  // utf8.EncodeRune
  function EncodeRune(r: nat): string
    requires r < 0x110000
  {
    if r < 0x80 then [r as char]
    else if r < 0x800 then [(0xC0 + r / 0x40) as char, (0x80 + r % 0x40) as char]
    else if 0xD800 <= r < 0xE000 then REPLACEMENT
    else if r < 0x10000 then [(0xE0 + r / 0x1000) as char, (0x80 + r / 0x40 % 0x40) as char, (0x80 + r % 0x40) as char]
    else [(0xF0 + r / 0x40000) as char, (0x80 + r / 0x1000 % 0x40) as char,
          (0x80 + r / 0x40 % 0x40) as char, (0x80 + r % 0x40) as char]
  }

  // What follows a rune does not change how it is read.
  lemma RuneLenExtends(s: string, t: string)
    requires RuneLen(s) > 0
    ensures RuneLen(s + t) == RuneLen(s)
    ensures (s + t)[..RuneLen(s)] == s[..RuneLen(s)]
    ensures (s + t)[RuneLen(s)..] == s[RuneLen(s)..] + t
  {
  }

  lemma {:induction false} ValidConcat(a: string, b: string)
    requires Valid(a) && Valid(b)
    ensures Valid(a + b)
    decreases |a|
  {
    if a == "" {
      assert a + b == b;
    } else {
      RuneLenExtends(a, b);
      ValidConcat(a[RuneLen(a)..], b);
    }
  }

  lemma RuneLenOfPrefix(s: string, k: nat)
    requires RuneLen(s) <= k <= |s|
    requires RuneLen(s) > 0
    ensures RuneLen(s[..k]) == RuneLen(s)
  {
  }

  // A valid string may be cut wherever the next byte starts a rune.
  lemma {:induction false} ValidCut(s: string, k: nat)
    requires Valid(s) && k <= |s|
    requires k < |s| ==> !IsTail(s[k])
    ensures Valid(s[..k]) && Valid(s[k..])
    decreases |s|
  {
    if k == 0 {
      assert s[0..] == s;
    } else {
      var n := RuneLen(s);
      var rest := s[n..];
      assert k >= n;
      assert k < |s| ==> rest[k - n] == s[k];
      ValidCut(rest, k - n);
      assert rest[k - n..] == s[k..];
      RuneLenOfPrefix(s, k);
      assert s[..k][n..] == rest[..k - n];
    }
  }

  // At most three bytes below any cut there is a cut between runes.
  lemma {:induction false} ValidCutNearby(s: string, max: nat) returns (k: nat)
    requires Valid(s) && max <= |s|
    ensures k <= max <= k + 3
    ensures Valid(s[..k])
    decreases |s|
  {
    var n := RuneLen(s);
    if max < n || s == "" {
      k := 0;
    } else {
      var j := ValidCutNearby(s[n..], max - n);
      k := n + j;
      assert s[..k] == s[..n] + s[n..][..j];
      assert Valid(s[..n]) by {
        assert s[..n][n..] == "";
      }
      ValidConcat(s[..n], s[n..][..j]);
    }
  }

  lemma {:induction false} TrimLeftValid(s: string)
    requires Valid(s)
    ensures Valid(TrimLeft(s))
    decreases |s|
  {
    var n := SpaceHead(s);
    if n == 0 {
    } else {
      assert RuneLen(s) == n;
      TrimLeftValid(s[n..]);
    }
  }

  lemma {:induction false} TrimRightValid(s: string)
    requires Valid(s)
    ensures Valid(TrimRight(s))
    decreases |s|
  {
    var n := SpaceTail(s);
    if n == 0 {
    } else {
      ValidCut(s, |s| - n);
      TrimRightValid(s[..|s| - n]);
    }
  }

  lemma TrimSpaceValid(s: string)
    requires Valid(s)
    ensures Valid(TrimSpace(s))
  {
    TrimLeftValid(s);
    TrimRightValid(TrimLeft(s));
  }
}
