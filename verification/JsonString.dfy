// JSON string literals as Go's encoding/json writes and reads them
// (section 7 of RFC 8259, with Go's HTML escaping).
module JsonString {
  import opened Utf8

  // ---------- hexadecimal digits and runes ----------

  predicate IsHex(c: char) {
    '0' <= c <= '9' || 'a' <= c <= 'f' || 'A' <= c <= 'F'
  }

  function HexValue(c: char): (n: nat)
    requires IsHex(c)
    ensures n < 16
  {
    if '0' <= c <= '9' then c as int - '0' as int
    else if 'a' <= c <= 'f' then c as int - 'a' as int + 10
    else c as int - 'A' as int + 10
  }

  function HexDigit(n: nat): (c: char)
    requires n < 16
    ensures IsHex(c) && HexValue(c) == n
  {
    if n < 10 then ('0' as int + n) as char else ('a' as int + n - 10) as char
  }

  predicate IsHex4(s: string, i: nat) {
    |s| >= i + 4 && IsHex(s[i]) && IsHex(s[i + 1]) && IsHex(s[i + 2]) && IsHex(s[i + 3])
  }

  function Hex4(s: string, i: nat): (n: nat)
    requires IsHex4(s, i)
    ensures n < 0x10000
  {
    ((HexValue(s[i]) * 16 + HexValue(s[i + 1])) * 16 + HexValue(s[i + 2])) * 16 + HexValue(s[i + 3])
  }

  // ---------- writing ----------

  predicate IsSafeAscii(c: char) {
    ' ' <= c <= '\U{7F}' && c != '"' && c != '\\' && c != '<' && c != '>' && c != '&'
  }

  function EscapeAscii(c: char): string
    requires c <= '\U{7F}'
  {
    if IsSafeAscii(c) then [c]
    else if c == '"' || c == '\\' then ['\\', c]
    else if c == '\U{8}' then "\\b"
    else if c == '\U{C}' then "\\f"
    else if c == '\n' then "\\n"
    else if c == '\r' then "\\r"
    else if c == '\t' then "\\t"
    else UnicodeEscape(c)
  }

  function UnicodeEscape(c: char): string
    requires c <= '\U{7F}'
  {
    ['\\', 'u', '0', '0', HexDigit(c as int / 16), HexDigit(c as int % 16)]
  }

  // U+2028 and U+2029 in UTF-8
  predicate IsLineSeparator(s: string) {
    |s| >= 3 && s[0] == '\U{E2}' && s[1] == '\U{80}' && (s[2] == '\U{A8}' || s[2] == '\U{A9}')
  }

  function EscapeSeparator(c: char): string {
    ['\\', 'u', '2', '0', '2', if c == '\U{A8}' then '8' else '9']
  }

  // How many bytes of s the first step of reading or writing takes: a rune, or one bad byte.
  function Head(s: string): (n: nat)
    requires s != ""
    ensures 1 <= n <= |s| && n <= 4
  {
    if RuneLen(s) == 0 then 1 else RuneLen(s)
  }

  function QuoteHead(s: string): string
    requires s != ""
  {
    if s[0] <= '\U{7F}' then EscapeAscii(s[0])
    else if RuneLen(s) == 0 then "\\ufffd"
    else if IsLineSeparator(s) then EscapeSeparator(s[2])
    else s[..RuneLen(s)]
  }

  // The body of the literal that json.Marshal writes for s.
  function Quote(s: string): string
    decreases |s|
  {
    if s == "" then "" else QuoteHead(s) + Quote(s[Head(s)..])
  }

  // s with every byte that starts no rune replaced by U+FFFD.
  function Coerce(s: string): string
    decreases |s|
  {
    if s == "" then ""
    else (if RuneLen(s) == 0 then REPLACEMENT else s[..RuneLen(s)]) + Coerce(s[Head(s)..])
  }

  // ---------- reading ----------

  predicate IsSimpleEscape(c: char) {
    c in "bfnrt\\/\""
  }

  function SimpleEscape(c: char): char {
    match c
    case 'b' => '\U{8}'
    case 'f' => '\U{C}'
    case 'n' => '\n'
    case 'r' => '\r'
    case 't' => '\t'
    case _ => c
  }

  // Length of the escape sequence or byte that a literal's body begins with; 0 if it
  // begins with none (the end of the literal, a control character, a broken escape).
  function UnitLen(s: string): (n: nat)
    ensures n <= |s| && n <= 6
  {
    if s == "" || s[0] == '"' || s[0] < ' ' then 0
    else if s[0] != '\\' then 1
    else if |s| >= 2 && IsSimpleEscape(s[1]) then 2
    else if |s| >= 6 && s[1] == 'u' && IsHex4(s, 2) then 6
    else 0
  }

  // Length of the body of the literal whose opening quote has been read.
  function BodyLen(s: string): (n: nat)
    ensures n <= |s|
    decreases |s|
  {
    if UnitLen(s) == 0 then 0 else UnitLen(s) + BodyLen(s[UnitLen(s)..])
  }

  predicate IsBody(b: string) {
    BodyLen(b) == |b|
  }

  predicate IsHighSurrogate(r: int) { 0xD800 <= r < 0xDC00 }

  predicate IsLowSurrogate(r: int) { 0xDC00 <= r < 0xE000 }

  // The escaped second half of a surrogate pair stands at i.
  predicate HasLowHalf(b: string, i: nat) {
    |b| >= i + 6 && b[i] == '\\' && b[i + 1] == 'u' && IsHex4(b, i + 2) && IsLowSurrogate(Hex4(b, i + 2))
  }

  // What the first step of reading a body takes, and what it stands for.
  function ReadLen(b: string): (n: nat)
    requires b != ""
    ensures 1 <= n <= |b|
  {
    if UnitLen(b) >= 2 then
      if UnitLen(b) == 6 && IsHighSurrogate(Hex4(b, 2)) && HasLowHalf(b, 6) then 12 else UnitLen(b)
    else Head(b)
  }

  function ReadHead(b: string): string
    requires b != ""
  {
    if UnitLen(b) == 6 then
      var r := Hex4(b, 2);
      if IsHighSurrogate(r) && HasLowHalf(b, 6) then
        EncodeRune(0x10000 + (r - 0xD800) * 0x400 + (Hex4(b, 8) - 0xDC00))
      else EncodeRune(r)
    else if UnitLen(b) == 2 then [SimpleEscape(b[1])]
    else if RuneLen(b) == 0 then REPLACEMENT
    else b[..RuneLen(b)]
  }

  // The string that a literal's body stands for.
  function Unquote(b: string): string
    decreases |b|
  {
    if b == "" then "" else ReadHead(b) + Unquote(b[ReadLen(b)..])
  }

  // ---------- writing, then reading ----------

  // Each written step is read back as one step, whatever follows it.
  lemma QuoteHeadReads(s: string, tail: string)
    requires s != ""
    ensures var q := QuoteHead(s);
            && q != "" && ReadLen(q + tail) == |q|
            && ReadHead(q + tail) == if RuneLen(s) == 0 then REPLACEMENT else s[..RuneLen(s)]
  {
    hide ReadLen, ReadHead, EscapeAscii;
    if s[0] <= '\U{7F}' {
      EscapeAsciiReads(s[0], tail);
      assert s[..1] == [s[0]];
    } else if RuneLen(s) == 0 {
      ReplacementReads(tail);
    } else if IsLineSeparator(s) {
      SeparatorReads(s[2], tail);
      assert RuneLen(s) == 3 && s[..3] == [s[0], s[1], s[2]];
    } else {
      RuneReadsBack(s, tail);
    }
  }

  lemma ReplacementReads(tail: string)
    ensures ReadLen("\\ufffd" + tail) == 6 && ReadHead("\\ufffd" + tail) == REPLACEMENT
  {
    var b := "\\ufffd" + tail;
    assert b[2] == 'f' && b[3] == 'f' && b[4] == 'f' && b[5] == 'd';
  }

  lemma SeparatorReads(c: char, tail: string)
    requires c == '\U{A8}' || c == '\U{A9}'
    ensures ReadLen(EscapeSeparator(c) + tail) == 6
    ensures ReadHead(EscapeSeparator(c) + tail) == ['\U{E2}', '\U{80}', c]
  {
    var q := EscapeSeparator(c);
    var b := q + tail;
    assert b[2] == '2' && b[3] == '0' && b[4] == '2' && b[5] == q[5];
  }

  lemma RuneReadsBack(s: string, tail: string)
    requires RuneLen(s) > 0 && s[0] > '\U{7F}'
    ensures var r := s[..RuneLen(s)]; ReadLen(r + tail) == |r| && ReadHead(r + tail) == r
  {
    var n := RuneLen(s);
    RuneLenOfPrefix(s, n);
    RuneLenExtends(s[..n], tail);
  }

  lemma EscapeAsciiReads(c: char, tail: string)
    requires c <= '\U{7F}'
    ensures var q := EscapeAscii(c); ReadLen(q + tail) == |q| && ReadHead(q + tail) == [c]
  {
    var q := EscapeAscii(c);
    var b := q + tail;
    assert |q| == 6 ==> b[2] == q[2] && b[3] == q[3] && b[4] == q[4] && b[5] == q[5];
  }

  // Reading what was written gives the string back with its bad bytes replaced.
  lemma {:induction false} UnquoteQuote(s: string)
    ensures Unquote(Quote(s)) == Coerce(s)
    decreases |s|
  {
    hide QuoteHead, ReadHead, ReadLen;
    if s == "" {
    } else {
      var q, rest := QuoteHead(s), Quote(s[Head(s)..]);
      QuoteHeadReads(s, rest);
      UnquoteQuote(s[Head(s)..]);
      assert (q + rest)[|q|..] == rest;
    }
  }

  // ---------- what coercion changes ----------

  lemma ReplacementValid()
    ensures Valid(REPLACEMENT)
  {
    assert RuneLen(REPLACEMENT) == 3 && REPLACEMENT[3..] == "";
  }

  lemma {:induction false} CoerceValid(s: string)
    ensures Valid(Coerce(s)) && |Coerce(s)| >= |s|
    ensures Coerce(s) == s <==> Valid(s)
    decreases |s|
  {
    if s == "" {
    } else {
      var rest := s[Head(s)..];
      CoerceValid(rest);
      if RuneLen(s) == 0 {
        ReplacementValid();
        ValidConcat(REPLACEMENT, Coerce(rest));
        assert Coerce(s) == REPLACEMENT + Coerce(rest) && |Coerce(s)| > |s|;
      } else {
        CoerceRune(s);
      }
    }
  }

  lemma CoerceRune(s: string)
    requires RuneLen(s) > 0
    requires Valid(Coerce(s[Head(s)..])) && (Coerce(s[Head(s)..]) == s[Head(s)..] <==> Valid(s[Head(s)..]))
    ensures Valid(Coerce(s)) && (Coerce(s) == s <==> Valid(s))
  {
    hide Coerce, RuneLen, Valid;
    var n := RuneLen(s);
    FirstRuneValid(s);
    CoerceStep(s);
    ValidConcat(s[..n], Coerce(s[n..]));
    SameAfter(s[..n], Coerce(s[n..]), s[n..]);
    assert s == s[..n] + s[n..];
  }

  lemma CoerceStep(s: string)
    requires RuneLen(s) > 0
    ensures Coerce(s) == s[..RuneLen(s)] + Coerce(s[RuneLen(s)..])
    ensures Valid(s) <==> Valid(s[RuneLen(s)..])
  {
  }

  lemma SameAfter(front: string, a: string, b: string)
    ensures front + a == front + b <==> a == b
  {
    assert (front + a)[|front|..] == a && (front + b)[|front|..] == b;
  }

  lemma FirstRuneValid(s: string)
    requires RuneLen(s) > 0
    ensures Valid(s[..RuneLen(s)])
  {
    var n := RuneLen(s);
    RuneLenOfPrefix(s, n);
    assert s[..n][n..] == "";
  }

  // Every bad byte turns into three.
  lemma {:induction false} CoerceBadBytes(s: string)
    requires forall i :: 0 <= i < |s| ==> s[i] == '\U{FF}'
    ensures |Coerce(s)| == 3 * |s|
    decreases |s|
  {
    if s == "" {
    } else {
      CoerceBadBytes(s[1..]);
    }
  }

  lemma {:induction false} QuoteBound(s: string)
    ensures |Quote(s)| <= 6 * |s|
    decreases |s|
  {
    if s == "" {
    } else {
      QuoteBound(s[Head(s)..]);
    }
  }

  // ---------- scanning ----------

  predicate IsPlain(c: char) {
    c >= ' ' && c != '"' && c != '\\'
  }

  lemma {:induction false} PlainScans(p: string, tail: string)
    requires forall i :: 0 <= i < |p| ==> IsPlain(p[i])
    ensures BodyLen(p + tail) == |p| + BodyLen(tail)
    decreases |p|
  {
    if p == "" {
      assert p + tail == tail;
    } else {
      assert (p + tail)[1..] == p[1..] + tail;
      PlainScans(p[1..], tail);
    }
  }

  lemma EscapeScans(q: string, tail: string)
    requires UnitLen(q) == |q| >= 2
    ensures UnitLen(q + tail) == |q| && BodyLen(q + tail) == |q| + BodyLen(tail)
  {
    assert (q + tail)[|q|..] == tail;
  }

  lemma QuoteHeadScans(s: string, tail: string)
    requires s != ""
    ensures BodyLen(QuoteHead(s) + tail) == |QuoteHead(s)| + BodyLen(tail)
  {
    hide BodyLen;
    var q := QuoteHead(s);
    if s[0] <= '\U{7F}' {
      if |q| >= 2 { EscapeScans(q, tail); } else { PlainScans(q, tail); }
    } else if RuneLen(s) == 0 || IsLineSeparator(s) {
      EscapeScans(q, tail);
    } else {
      PlainScans(q, tail);
    }
  }

  // The closing quote ends exactly the body that was written.
  lemma {:induction false} QuoteScans(s: string, tail: string)
    ensures BodyLen(Quote(s) + "\"" + tail) == |Quote(s)|
    ensures IsBody(Quote(s))
    decreases |s|
  {
    hide QuoteHead, UnitLen;
    if s == "" {
      assert "" + "\"" + tail == "\"" + tail;
      ClosingQuote(tail);
    } else {
      var q, rest := QuoteHead(s), Quote(s[Head(s)..]);
      QuoteScans(s[Head(s)..], tail);
      QuoteHeadScans(s, rest + "\"" + tail);
      QuoteHeadScans(s, rest);
      assert q + rest + "\"" + tail == q + (rest + "\"" + tail);
    }
  }

  lemma ClosingQuote(tail: string)
    ensures BodyLen("\"" + tail) == 0
  {
  }

  // ---------- escaping the body of a literal that is already JSON ----------

  // What json.Marshal makes of one step of a raw literal: HTML characters and the two line
  // separators are escaped, all else is kept as written.
  function EscapeHead(b: string): string
    requires b != ""
  {
    if b[0] == '<' || b[0] == '>' || b[0] == '&' then UnicodeEscape(b[0])
    else if IsLineSeparator(b) then EscapeSeparator(b[2])
    else b[..ReadLen(b)]
  }

  function EscapeBody(b: string): string
    decreases |b|
  {
    if b == "" then "" else EscapeHead(b) + EscapeBody(b[ReadLen(b)..])
  }

  lemma BodySplits(b: string)
    requires b != "" && IsBody(b)
    ensures UnitLen(b) > 0 && IsBody(b[ReadLen(b)..])
  {
    hide BodyLen;
    BodyStep(b);
    if ReadLen(b) == 12 {
      var rest := b[6..];
      assert UnitLen(rest) == 6;
      BodyStep(rest);
      assert rest[6..] == b[12..];
    } else if UnitLen(b) == 1 {
      var h := Head(b);
      PlainScans(b[..h], b[h..]);
      assert b == b[..h] + b[h..];
    }
  }

  lemma BodyStep(b: string)
    requires b != "" && IsBody(b)
    ensures UnitLen(b) > 0 && IsBody(b[UnitLen(b)..])
  {
  }

  // Escaping never makes the second half of a surrogate pair.
  lemma EscapeBodyLowHalf(b: string)
    requires b == "" || UnitLen(b) > 0
    ensures HasLowHalf(EscapeBody(b), 0) ==> HasLowHalf(b, 0)
  {
    hide EscapeBody;
    EscapeBodyEmpty();
    if b != "" {
      var e, rest := EscapeHead(b), EscapeBody(b[ReadLen(b)..]);
      EscapeBodyStep(b);
      assert forall i :: 0 <= i < |e| ==> (e + rest)[i] == e[i];
    }
  }

  lemma EscapeBodyStep(b: string)
    requires b != ""
    ensures EscapeBody(b) == EscapeHead(b) + EscapeBody(b[ReadLen(b)..])
  {
  }

  // A step that escapes to a continuation byte is that byte.
  lemma TailHead(b: string)
    requires b != "" && EscapeHead(b) != "" && IsTail(EscapeHead(b)[0])
    ensures ReadLen(b) == 1 && EscapeHead(b) == b[..1]
  {
  }

  lemma EscapeHeadNotEmpty(b: string)
    requires b != ""
    ensures EscapeHead(b) != ""
  {
    hide ReadLen;
  }

  // Continuation bytes at the front of an escaped body are those of the body itself.
  lemma {:induction false} EscapeBodyTails(b: string, k: nat)
    requires k <= |EscapeBody(b)| && forall i :: 0 <= i < k ==> IsTail(EscapeBody(b)[i])
    ensures k <= |b| && EscapeBody(b)[..k] == b[..k]
    decreases k
  {
    hide EscapeBody, EscapeHead, ReadLen;
    if k == 0 {
    } else {
      EscapeBodyEmpty();
      EscapeBodyStep(b);
      var e, rest := EscapeHead(b), EscapeBody(b[ReadLen(b)..]);
      EscapeHeadNotEmpty(b);
      assert e[0] == EscapeBody(b)[0];
      TailHead(b);
      assert EscapeBody(b)[1..] == rest;
      assert forall i :: 0 <= i < k - 1 ==> rest[i] == EscapeBody(b)[i + 1];
      EscapeBodyTails(b[1..], k - 1);
      assert b[..k] == b[..1] + b[1..][..k - 1];
      assert EscapeBody(b)[..k] == e + rest[..k - 1];
    }
  }

  lemma EscapeBodyEmpty()
    ensures EscapeBody("") == ""
  {
  }

  lemma BadByteStays(b: string)
    requires b != "" && RuneLen(b) == 0
    ensures RuneLen(b[..1] + EscapeBody(b[1..])) == 0
  {
    hide EscapeBody;
    if RuneLen(b[..1] + EscapeBody(b[1..])) > 1 {
      RuneWasThere(b);
    }
  }

  // A rune of several bytes after escaping was one before.
  lemma RuneWasThere(b: string)
    requires b != "" && RuneLen(b[..1] + EscapeBody(b[1..])) > 1
    ensures RuneLen(b) == RuneLen(b[..1] + EscapeBody(b[1..]))
  {
    hide EscapeBody;
    var y := EscapeBody(b[1..]);
    var x := b[..1] + y;
    var n := RuneLen(x);
    assert forall i :: 0 <= i < n - 1 ==> y[i] == x[i + 1];
    EscapeBodyTails(b[1..], n - 1);
    assert b[..n] == b[..1] + b[1..][..n - 1];
    assert x[..n] == b[..1] + y[..n - 1];
    RuneLenOfPrefix(x, n);
    RuneLenExtends(x[..n], b[n..]);
    assert b == x[..n] + b[n..];
  }

  // One step of a raw literal reads the same before and after escaping.
  lemma EscapeHeadReads(b: string)
    requires b != "" && UnitLen(b) > 0
    requires b[ReadLen(b)..] == "" || UnitLen(b[ReadLen(b)..]) > 0
    ensures var e, x := EscapeHead(b), EscapeBody(b);
            e != "" && x != "" && ReadLen(x) == |e| && ReadHead(x) == ReadHead(b)
  {
    hide EscapeBody, ReadLen, ReadHead;
    EscapeBodyStep(b);
    var tail := EscapeBody(b[ReadLen(b)..]);
    if UnitLen(b) == 1 {
      RawHeadReads(b, tail);
    } else {
      EscapeBodyLowHalf(b[ReadLen(b)..]);
      EscapedUnitReads(b, tail);
    }
  }

  lemma EscapedUnitReads(b: string, tail: string)
    requires b != "" && UnitLen(b) >= 2
    requires HasLowHalf(tail, 0) ==> HasLowHalf(b[ReadLen(b)..], 0)
    ensures var e := EscapeHead(b); ReadLen(e + tail) == |e| && ReadHead(e + tail) == ReadHead(b)
  {
    hide EncodeRune, ReadHead, ReadLen, HasLowHalf, Hex4, IsHex4;
    UnitKept(b);
    if UnitLen(b) == 2 {
      ShortKept(b, tail);
    } else {
      LongKept(b, tail);
    }
  }

  lemma UnitKept(b: string)
    requires b != "" && UnitLen(b) >= 2
    ensures EscapeHead(b) == b[..ReadLen(b)] && (UnitLen(b) == 2 || UnitLen(b) == 6)
  {
    hide HasLowHalf, Hex4;
  }

  lemma ShortKept(b: string, tail: string)
    requires UnitLen(b) == 2
    ensures ReadLen(b) == 2 && ReadLen(b[..2] + tail) == 2 && ReadHead(b[..2] + tail) == ReadHead(b)
  {
    var x := b[..2] + tail;
    assert x[0] == b[0] && x[1] == b[1];
  }

  lemma LongKept(b: string, tail: string)
    requires UnitLen(b) == 6
    requires HasLowHalf(tail, 0) ==> HasLowHalf(b[ReadLen(b)..], 0)
    ensures var n := ReadLen(b); ReadLen(b[..n] + tail) == n && ReadHead(b[..n] + tail) == ReadHead(b)
  {
    hide EncodeRune, IsHex;
    var n := ReadLen(b);
    var x := b[..n] + tail;
    assert forall i :: 0 <= i < n ==> x[i] == b[i];
    if n == 6 {
      LowHalfShift(b[..6], tail);
      LowHalfShift(b[..6], b[6..]);
      assert b == b[..6] + b[6..];
    }
  }

  lemma LowHalfShift(front: string, tail: string)
    requires |front| == 6
    ensures HasLowHalf(front + tail, 6) <==> HasLowHalf(tail, 0)
  {
    var x := front + tail;
    assert forall i :: 0 <= i < |tail| ==> x[6 + i] == tail[i];
    assert |tail| >= 6 ==> x[6] == tail[0] && x[7] == tail[1] && x[8] == tail[2];
    assert |tail| >= 6 ==> x[9] == tail[3] && x[10] == tail[4] && x[11] == tail[5];
  }

  lemma RawHeadReads(b: string, tail: string)
    requires b != "" && UnitLen(b) == 1 && tail == EscapeBody(b[ReadLen(b)..])
    ensures var e := EscapeHead(b); ReadLen(e + tail) == |e| && ReadHead(e + tail) == ReadHead(b)
  {
    hide EscapeBody;
    var e, n := EscapeHead(b), ReadLen(b);
    var x := e + tail;
    if b[0] == '<' || b[0] == '>' || b[0] == '&' {
      assert x[2] == e[2] && x[3] == e[3] && x[4] == e[4] && x[5] == e[5];
      assert b[..1] == [b[0]];
    } else if IsLineSeparator(b) {
      assert RuneLen(b) == 3;
      assert x[2] == '2' && x[3] == '0' && x[4] == '2' && x[5] == e[5];
      assert b[..3] == [b[0], b[1], b[2]];
    } else if RuneLen(b) > 0 {
      RuneLenOfPrefix(b, n);
      RuneLenExtends(b[..n], tail);
    } else {
      BadByteStays(b);
    }
  }

  // Escaping a raw literal does not change the string it stands for.
  lemma {:induction false} EscapeBodyMeans(b: string)
    requires IsBody(b)
    ensures Unquote(EscapeBody(b)) == Unquote(b)
    decreases |b|
  {
    hide EscapeBody, EscapeHead, ReadHead, ReadLen, UnitLen;
    EscapeBodyEmpty();
    if b == "" {
    } else {
      BodySplits(b);
      var rest := b[ReadLen(b)..];
      if rest != "" { BodySplits(rest); }
      EscapeHeadReads(b);
      EscapeBodyStep(b);
      EscapeBodyMeans(rest);
      assert EscapeBody(b)[|EscapeHead(b)|..] == EscapeBody(rest);
    }
  }

  lemma PlainHead(b: string)
    requires UnitLen(b) == 1
    ensures var e := EscapeHead(b);
            || (e != "" && UnitLen(e) == |e| == 6)
            || (forall i :: 0 <= i < |e| ==> IsPlain(e[i]))
  {
  }

  lemma PairHead(b: string)
    requires b != "" && ReadLen(b) == 12
    ensures UnitLen(b[..6]) == 6 && UnitLen(b[6..12]) == 6 && EscapeHead(b) == b[..12]
  {
    hide Hex4;
  }

  lemma EscapeHeadScans(b: string, tail: string)
    requires b != "" && UnitLen(b) > 0
    ensures BodyLen(EscapeHead(b) + tail) == |EscapeHead(b)| + BodyLen(tail)
  {
    hide BodyLen, ReadLen, EscapeHead, UnitLen, HasLowHalf, Hex4, RuneLen;
    var e := EscapeHead(b);
    if UnitLen(b) == 1 {
      PlainHead(b);
      if e != "" && UnitLen(e) == |e| == 6 { EscapeScans(e, tail); } else { PlainScans(e, tail); }
    } else if ReadLen(b) == 12 {
      PairHead(b);
      var first, second := b[..6], b[6..12];
      EscapeScans(first, second + tail);
      EscapeScans(second, tail);
      assert e + tail == first + (second + tail);
    } else {
      UnitHead(b);
      EscapeScans(e, tail);
    }
  }

  lemma UnitHead(b: string)
    requires b != "" && UnitLen(b) >= 2 && ReadLen(b) != 12
    ensures var e := EscapeHead(b); UnitLen(e) == |e| >= 2
  {
  }

  lemma {:induction false} EscapeBodyScans(b: string, tail: string)
    requires IsBody(b)
    ensures BodyLen(EscapeBody(b) + "\"" + tail) == |EscapeBody(b)|
    ensures IsBody(EscapeBody(b))
    decreases |b|
  {
    hide EscapeBody, EscapeHead, ReadLen, UnitLen;
    EscapeBodyEmpty();
    if b == "" {
      assert "" + "\"" + tail == "\"" + tail;
      ClosingQuote(tail);
    } else {
      BodySplits(b);
      var e, rest := EscapeHead(b), EscapeBody(b[ReadLen(b)..]);
      EscapeBodyStep(b);
      EscapeBodyScans(b[ReadLen(b)..], tail);
      EscapeHeadScans(b, rest + "\"" + tail);
      EscapeHeadScans(b, rest);
      assert e + rest + "\"" + tail == e + (rest + "\"" + tail);
    }
  }

  // The closing quote ends exactly a body that scans to its end.
  lemma {:induction false} BodyScans(b: string, tail: string)
    requires IsBody(b)
    ensures BodyLen(b + "\"" + tail) == |b|
    decreases |b|
  {
    hide UnitLen;
    var end := "\"" + tail;
    assert b + "\"" + tail == b + end;
    if b == "" {
      ClosingQuote(tail);
      assert b + end == end;
    } else {
      var n := UnitLen(b);
      BodyStep(b);
      UnitExtends(b, end);
      BodyScans(b[n..], tail);
      assert b[n..] + "\"" + tail == b[n..] + end;
      assert (b + end)[n..] == b[n..] + end;
    }
  }

  lemma UnitExtends(b: string, tail: string)
    requires UnitLen(b) > 0
    ensures UnitLen(b + tail) == UnitLen(b)
  {
  }
}
