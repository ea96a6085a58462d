// What lower-casing a text and searching it finds: the ways in which a text can write a
// word in any letter case.
module Letters {
  import opened Text

  const SMALL := "abcdefghijklmnopqrstuvwxyz"
  const CAPITAL := "ABCDEFGHIJKLMNOPQRSTUVWXYZ"

  // The character is the letter in either case; what is no letter stands for itself.
  predicate IsCaseOf(c: char, d: char) {
    c == d || exists i :: 0 <= i < 26 && CAPITAL[i] == c && SMALL[i] == d
  }

  // The text is the word, each letter in some case. Outside ASCII, U+0130 is a capital "i"
  // and U+212A a capital "k".
  predicate Spells(s: string, word: string)
    decreases |word|
  {
    if word == "" then s == ""
    else
      || (s != "" && IsCaseOf(s[0], word[0]) && Spells(s[1..], word[1..]))
      || (word[0] == 'i' && HasPrefix(s, "\U{C4}\U{B0}") && Spells(s[2..], word[1..]))
      || (word[0] == 'k' && HasPrefix(s, "\U{E2}\U{84}\U{AA}") && Spells(s[3..], word[1..]))
  }

  predicate Mentions(text: string, word: string) {
    exists i, j :: 0 <= i <= j <= |text| && Spells(text[i..j], word)
  }

  predicate IsPlain(c: char) {
    ' ' <= c <= '~' && !('A' <= c <= 'Z')
  }

  // Visible ASCII text without capitals; spaces only inside.
  predicate IsMark(word: string) {
    && word != "" && (forall i :: 0 <= i < |word| ==> IsPlain(word[i]))
    && word[0] != ' ' && word[|word| - 1] != ' '
  }

  lemma CaseLowers(c: char, d: char)
    requires IsPlain(d)
    ensures IsCaseOf(c, d) <==> LowerChar(c) == d
  {
    LettersInOrder();
    if 'A' <= c <= 'Z' {
      var i := c as int - 'A' as int;
      assert CAPITAL[i] == c && SMALL[i] == LowerChar(c);
    }
  }

  lemma LettersInOrder()
    ensures forall i :: 0 <= i < 26 ==> CAPITAL[i] as int == 65 + i && SMALL[i] as int == 97 + i
  {
  }

  // ---------- lower-casing a word ----------

  lemma {:induction false} SpelledLowers(s: string, word: string, rest: string)
    requires Spells(s, word) && forall i :: 0 <= i < |word| ==> IsPlain(word[i])
    ensures ToLower(s + rest) == word + ToLower(rest)
    decreases |word|
  {
    hide ToLower, Spells, Writes, LowerWidth, LowerFirst, IsPlain;
    SpellsNothing(s);
    if word == "" {
      assert s + rest == rest;
    } else {
      var n := SpelledFirst(s, word);
      LowerStep(s + rest);
      assert (s + rest)[n..] == s[n..] + rest;
      assert word == [word[0]] + word[1..];
      FirstLowers(s, word[0], n, rest);
      SpelledLowers(s[n..], word[1..], rest);
    }
  }

  lemma SpellsNothing(s: string)
    ensures Spells(s, "") <==> s == ""
  {
  }

  lemma SpelledFirst(s: string, word: string) returns (n: nat)
    requires word != "" && Spells(s, word)
    ensures 1 <= n <= |s| && Writes(s[..n], word[0]) && Spells(s[n..], word[1..])
  {
    if s != "" && IsCaseOf(s[0], word[0]) && Spells(s[1..], word[1..]) {
      n := 1;
    } else if word[0] == 'i' && HasPrefix(s, "\U{C4}\U{B0}") && Spells(s[2..], word[1..]) {
      n := 2;
    } else {
      n := 3;
    }
  }

  // The text is one letter of a word.
  predicate Writes(u: string, d: char) {
    || (|u| == 1 && IsCaseOf(u[0], d))
    || (d == 'i' && u == "\U{C4}\U{B0}")
    || (d == 'k' && u == "\U{E2}\U{84}\U{AA}")
  }

  lemma FirstLowers(s: string, d: char, n: nat, rest: string)
    requires 1 <= n <= |s| && Writes(s[..n], d) && IsPlain(d)
    ensures LowerWidth(s + rest) == n && LowerFirst(s + rest) == d
  {
    var u := s[..n];
    if n == 1 { CaseLowers(u[0], d); }
    assert forall i :: 0 <= i < n ==> (s + rest)[i] == u[i];
  }

  lemma {:induction false} LoweredSpells(s: string, word: string)
    requires ToLower(s) == word && forall i :: 0 <= i < |word| ==> IsPlain(word[i])
    ensures Spells(s, word)
    decreases |s|
  {
    hide ToLower;
    LowerStep(s);
    if s == "" {
    } else {
      var n := LowerWidth(s);
      LoweredSpells(s[n..], word[1..]);
      LowerLetter(s, word[0]);
    }
  }

  lemma LowerLetter(s: string, d: char)
    requires s != "" && LowerFirst(s) == d && IsPlain(d)
    ensures LowerWidth(s) == 1 ==> IsCaseOf(s[0], d)
    ensures LowerWidth(s) == 2 ==> d == 'i' && HasPrefix(s, "\U{C4}\U{B0}")
    ensures LowerWidth(s) == 3 ==> d == 'k' && HasPrefix(s, "\U{E2}\U{84}\U{AA}")
    ensures LowerWidth(s) <= 3
  {
    CaseLowers(s[0], d);
  }

  // A text lowers to a word exactly if it spells it.
  lemma LowerSpells(s: string, word: string)
    requires IsMark(word)
    ensures ToLower(s) == word <==> Spells(s, word)
  {
    hide ToLower, Spells;
    if ToLower(s) == word { LoweredSpells(s, word); }
    if Spells(s, word) {
      SpelledLowers(s, word, "");
      LowerStep("");
      assert s + "" == s && word + "" == word;
    }
  }

  // ---------- lower-casing a text around a word ----------

  // Every cut in a lowered text comes from a cut in the text.
  lemma {:induction false} LowerCut(s: string, i: nat) returns (k: nat)
    requires i <= |ToLower(s)|
    ensures k <= |s| && ToLower(s[..k]) == ToLower(s)[..i] && ToLower(s[k..]) == ToLower(s)[i..]
    decreases i
  {
    hide ToLower, LowerWidth, LowerFirst;
    LowerStep(s);
    if i == 0 {
      k := 0;
      LowerStep("");
      assert s[0..] == s && s[..0] == "";
    } else {
      var n := LowerWidth(s);
      var j := LowerCut(s[n..], i - 1);
      k := n + j;
      assert s[k..] == s[n..][j..];
      assert s[..k][n..] == s[n..][..j];
      LowerStep(s[..k]);
      PrefixFirst(s, k);
    }
  }

  lemma PrefixFirst(s: string, k: nat)
    requires s != "" && LowerWidth(s) <= k <= |s|
    ensures LowerWidth(s[..k]) == LowerWidth(s) && LowerFirst(s[..k]) == LowerFirst(s)
  {
  }

  lemma SpelledStarts(s: string, word: string)
    requires Spells(s, word) && word != "" && IsPlain(word[0])
    ensures s != "" && !InsideLetter(s[0])
  {
    var n := SpelledFirst(s, word);
    assert s[..n][0] == s[0];
    if n == 1 { CaseLowers(s[0], word[0]); }
  }

  // Searching the lowered text finds a word exactly if the text spells it somewhere.
  lemma LowerMentions(text: string, word: string)
    requires IsMark(word)
    ensures Contains(ToLower(text), word) <==> Mentions(text, word)
  {
    hide ToLower, Spells, Contains;
    if Mentions(text, word) {
      var i, j :| 0 <= i <= j <= |text| && Spells(text[i..j], word);
      MentionFound(text, word, i, j);
    }
    if Contains(ToLower(text), word) {
      var i := FindMatch(ToLower(text), word);
      FoundMentioned(text, word, i);
    }
  }

  lemma MentionFound(text: string, word: string, i: nat, j: nat)
    requires IsMark(word) && i <= j <= |text| && Spells(text[i..j], word)
    ensures Contains(ToLower(text), word)
  {
    hide ToLower, Spells, Contains;
    var a, u, b := text[..i], text[i..j], text[j..];
    SpelledStarts(u, word);
    assert text == a + (u + b);
    LowerConcat(a, u + b);
    SpelledLowers(u, word, b);
    ContainsItself(word);
    ContainsIn(ToLower(a), word, ToLower(b), word);
    assert ToLower(a) + word + ToLower(b) == ToLower(a) + (word + ToLower(b));
  }

  lemma FoundMentioned(text: string, word: string, i: nat)
    requires IsMark(word) && MatchAt(ToLower(text), word, i)
    ensures Mentions(text, word)
  {
    hide ToLower, Spells;
    var low := ToLower(text);
    var a := LowerCut(text, i);
    var b := LowerCut(text[a..], |word|);
    assert low[i..][..|word|] == low[i..i + |word|] == word;
    LoweredSpells(text[a..][..b], word);
    assert text[a..][..b] == text[a..a + b];
  }

  // ---------- lower-casing twice, and trimming in between ----------

  // Nothing in the text is changed by lower-casing.
  predicate IsLowered(s: string) {
    forall i :: 0 <= i < |s| ==>
      && !('A' <= s[i] <= 'Z')
      && !(i + 1 < |s| && s[i] == '\U{C4}' && s[i + 1] == '\U{B0}')
      && !(i + 2 < |s| && s[i] == '\U{E2}' && s[i + 1] == '\U{84}' && s[i + 2] == '\U{AA}')
  }

  // Such a byte at the front of a lowered text was there before.
  lemma LowerHead(s: string)
    requires ToLower(s) != "" && InsideLetter(ToLower(s)[0])
    ensures s != "" && s[0] == ToLower(s)[0] && ToLower(s)[1..] == ToLower(s[1..])
  {
    hide ToLower;
    LowerStep(s);
    assert ToLower(s)[0] == LowerFirst(s);
  }

  // The first character of a lowered text does not begin a rune that could be lowered.
  lemma LowerFirstStays(s: string)
    requires s != ""
    ensures var low := ToLower(s);
            && low != "" && !('A' <= low[0] <= 'Z')
            && !(|low| > 1 && low[0] == '\U{C4}' && low[1] == '\U{B0}')
            && !(|low| > 2 && low[0] == '\U{E2}' && low[1] == '\U{84}' && low[2] == '\U{AA}')
  {
    hide ToLower;
    LowerStep(s);
    var n := LowerWidth(s);
    var low, rest := ToLower(s), ToLower(s[n..]);
    assert low[1..] == rest && (rest != "" ==> low[1] == rest[0]) && (|rest| > 1 ==> low[2] == rest[1]);
    if rest != "" && InsideLetter(rest[0]) {
      LowerHead(s[n..]);
      if |rest| >= 2 && InsideLetter(rest[1]) { LowerHead(s[n + 1..]); }
    }
  }

  lemma {:induction false} LowerIsLowered(s: string)
    ensures IsLowered(ToLower(s))
    decreases |s|
  {
    hide ToLower, LowerWidth, LowerFirst;
    LowerStep(s);
    if s == "" {
    } else {
      LowerFirstStays(s);
      LowerIsLowered(s[LowerWidth(s)..]);
      LoweredWith(ToLower(s));
      assert ToLower(s)[1..] == ToLower(s[LowerWidth(s)..]);
    }
  }

  lemma LoweredWith(low: string)
    requires low != "" && IsLowered(low[1..]) && !('A' <= low[0] <= 'Z')
    requires !(|low| > 1 && low[0] == '\U{C4}' && low[1] == '\U{B0}')
    requires !(|low| > 2 && low[0] == '\U{E2}' && low[1] == '\U{84}' && low[2] == '\U{AA}')
    ensures IsLowered(low)
  {
    var rest := low[1..];
    assert forall i :: 0 <= i < |rest| ==> rest[i] == low[i + 1];
    forall i | 0 <= i < |low|
      ensures !('A' <= low[i] <= 'Z') && !(i + 1 < |low| && low[i] == '\U{C4}' && low[i + 1] == '\U{B0}')
      ensures !(i + 2 < |low| && low[i] == '\U{E2}' && low[i + 1] == '\U{84}' && low[i + 2] == '\U{AA}')
    {
      if i > 0 {
        assert low[i] == rest[i - 1];
      }
    }
  }

  lemma LoweredHead(s: string)
    requires s != "" && IsLowered(s)
    ensures LowerWidth(s) == 1 && LowerFirst(s) == s[0] && IsLowered(s[1..])
  {
    var t := s[1..];
    assert forall i :: 0 <= i < |t| ==> t[i] == s[i + 1];
  }

  lemma {:induction false} LoweredKept(s: string)
    requires IsLowered(s)
    ensures ToLower(s) == s
    decreases |s|
  {
    hide ToLower, LowerWidth, LowerFirst, IsLowered;
    LowerStep(s);
    if s == "" {
    } else {
      LoweredHead(s);
      LoweredKept(s[1..]);
      assert s == [s[0]] + s[1..];
    }
  }

  lemma TrimPart(s: string) returns (a: nat, b: nat)
    ensures a <= b <= |s| && TrimSpace(s) == s[a..b]
  {
    hide SpaceHead, SpaceTail;
    var t := TrimLeft(s);
    TrimLeftMeaning(s);
    TrimRightMeaning(t);
    a := |s| - |t|;
    b := a + |TrimRight(t)|;
    assert t[..|TrimRight(t)|] == s[a..b];
  }

  // Trimming goes round what is no white space.
  lemma {:induction false} TrimLeftStops(s: string, i: nat)
    requires i < |s| && s[i] <= '\U{7F}' && !IsAsciiSpace(s[i])
    ensures |s| - |TrimLeft(s)| <= i
    decreases |s|
  {
    var n := SpaceHead(s);
    if n == 0 {
    } else {
      assert n <= i && s[n..][i - n] == s[i];
      TrimLeftStops(s[n..], i - n);
    }
  }

  lemma MarkEnds(word: string)
    requires IsMark(word)
    ensures word != ""
    ensures var last := word[|word| - 1];
            word[0] <= '\U{7F}' && !IsAsciiSpace(word[0]) && last <= '\U{7F}' && !IsAsciiSpace(last)
  {
  }

  lemma TrimKeepsMark(s: string, word: string)
    requires IsMark(word)
    ensures Contains(TrimSpace(s), word) <==> Contains(s, word)
  {
    hide Contains, TrimSpace, IsMark;
    var a, b := TrimPart(s);
    if Contains(TrimSpace(s), word) {
      ContainsIn(s[..a], s[a..b], s[b..], word);
      assert s == s[..a] + s[a..b] + s[b..];
    }
    if Contains(s, word) {
      var i := FindMatch(s, word);
      MatchSurvives(s, word, i);
    }
  }

  lemma MatchSurvives(s: string, word: string, i: nat)
    requires IsMark(word) && MatchAt(s, word, i)
    ensures Contains(TrimSpace(s), word)
  {
    hide SpaceHead, SpaceTail, Contains, IsMark, TrimLeft, TrimRight, IsAsciiSpace;
    MarkEnds(word);
    var t, last := TrimLeft(s), |word| - 1;
    TrimLeftMeaning(s);
    TrimRightMeaning(t);
    var c := |s| - |t|;
    SubMatch(s, word, i, 0, |word|);
    TrimLeftStops(s, i);
    assert t[i - c + last] == s[i + last] == word[last];
    TrimRightKeeps(t, i - c + last);
    MatchWithin(s, word, i, c, c + |TrimRight(t)|);
    assert s[c..c + |TrimRight(t)|] == TrimRight(t);
  }

  // Lowering and trimming again changes nothing about what a lowered text mentions.
  lemma LowerTrimLower(text: string, word: string)
    requires IsMark(word)
    ensures Contains(ToLower(TrimSpace(ToLower(text))), word) <==> Mentions(text, word)
  {
    hide ToLower, TrimSpace, Contains, Mentions;
    var low := ToLower(text);
    LowerIsLowered(text);
    var a, b := TrimPart(low);
    LoweredKept(low[a..b]);
    TrimKeepsMark(low, word);
    LowerMentions(text, word);
  }
}
