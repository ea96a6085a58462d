// Every legal way of writing a string as a JSON literal (section 7 of RFC 8259), and that
// reading it gives the string.
module JsonLiterals {
  import opened CodePoints
  import opened JsonString
  import opened Utf8

  // ---------- one rune ----------

  const HEX := "0123456789abcdef"
  const CAPITAL_HEX := "0123456789ABCDEF"

  // A hexadecimal digit in either case.
  predicate IsDigitFor(c: char, n: int)
    requires 0 <= n < 16
  {
    c == HEX[n] || c == CAPITAL_HEX[n]
  }

  // \u and the four digits of a 16-bit number.
  predicate IsEscapeOf(u: string, p: int) {
    && 0 <= p < 0x10000 && |u| == 6 && u[0] == '\\' && u[1] == 'u'
    && IsDigitFor(u[2], p / 0x1000) && IsDigitFor(u[3], p / 0x100 % 16)
    && IsDigitFor(u[4], p / 16 % 16) && IsDigitFor(u[5], p % 16)
  }

  // The escapes of one letter, with the characters they stand for.
  predicate IsShortFor(c: char, d: char) {
    || (c == '"' && d == '"') || (c == '\\' && d == '\\') || (c == '/' && d == '/')
    || (c == 'b' && d == '\U{8}') || (c == 'f' && d == '\U{C}') || (c == 'n' && d == '\U{A}')
    || (c == 'r' && d == '\U{D}') || (c == 't' && d == '\U{9}')
  }

  // The two halves of a code point above U+FFFF.
  function HighHalf(p: int): int {
    0xD800 + (p - 0x10000) / 0x400
  }

  function LowHalf(p: int): int {
    0xDC00 + (p - 0x10000) % 0x400
  }

  // A half that is not part of a pair, given what follows it.
  ghost predicate IsLoneHalf(u: string, after: string) {
    exists h ::
      && 0xD800 <= h <= 0xDFFF && IsEscapeOf(u, h)
      && (h >= 0xDC00 || forall l :: 0xDC00 <= l <= 0xDFFF ==> |after| < 6 || !IsEscapeOf(after[..6], l))
  }

  // In front of the rest of a literal, the text u is written for the rune r: the rune
  // itself, an escape, or for U+FFFD also half a pair or a byte that is no UTF-8.
  ghost predicate WritesRune(u: string, r: string, after: string)
    requires RuneLen(r) == |r| > 0
  {
    || (u == r && IsPlain(r[0]))
    || IsEscapeOf(u, Point(r))
    || (Point(r) >= 0x10000 && |u| == 12
        && IsEscapeOf(u[..6], HighHalf(Point(r))) && IsEscapeOf(u[6..], LowHalf(Point(r))))
    || (|u| == 2 && |r| == 1 && u[0] == '\\' && IsShortFor(u[1], r[0]))
    || (Point(r) == 0xFFFD && IsLoneHalf(u, after))
    || (Point(r) == 0xFFFD && |u| == 1 && IsPlain(u[0]) && RuneLen(u + after) == 0)
  }

  // The body of a literal writes a string, rune by rune.
  ghost predicate Writes(b: string, s: string)
    decreases |s|
  {
    if s == "" then b == ""
    else
      && RuneLen(s) > 0
      && exists k :: 0 < k <= |b| && WritesRune(b[..k], First(s), b[k..]) && Writes(b[k..], s[RuneLen(s)..])
  }

  // ---------- digits ----------

  lemma DigitValue(c: char, n: int)
    requires 0 <= n < 16
    ensures IsDigitFor(c, n) <==> IsHex(c) && HexValue(c) == n
  {
    var i := c as int;
    assert forall k :: 0 <= k < 10 ==> HEX[k] as int == 48 + k && CAPITAL_HEX[k] as int == 48 + k;
    assert forall k :: 10 <= k < 16 ==> HEX[k] as int == 87 + k && CAPITAL_HEX[k] as int == 55 + k;
  }

  lemma Hex4Digits(a: nat, b: nat, c: nat, d: nat, p: int)
    requires a < 16 && b < 16 && c < 16 && d < 16 && 0 <= p < 0x10000
    ensures p == ((a * 16 + b) * 16 + c) * 16 + d <==>
            a == p / 0x1000 && b == p / 0x100 % 16 && c == p / 16 % 16 && d == p % 16
  {
    var q, r := p / 16, p / 16 / 16;
    assert p / 0x100 == r && p / 0x1000 == r / 16;
    assert p == q * 16 + p % 16 && q == r * 16 + q % 16 && r == r / 16 * 16 + r % 16;
  }

  // Reading the four digits gives the number, in either direction.
  lemma EscapeReads(u: string, p: int)
    requires |u| >= 6 && 0 <= p < 0x10000
    ensures IsEscapeOf(u[..6], p) <==> u[0] == '\\' && u[1] == 'u' && IsHex4(u, 2) && Hex4(u, 2) == p
  {
    hide IsDigitFor, IsHex, HexValue;
    var e := u[..6];
    DigitValue(u[2], p / 0x1000);
    DigitValue(u[3], p / 0x100 % 16);
    DigitValue(u[4], p / 16 % 16);
    DigitValue(u[5], p % 16);
    if IsHex4(u, 2) {
      Hex4Digits(HexValue(u[2]), HexValue(u[3]), HexValue(u[4]), HexValue(u[5]), p);
    }
  }

  lemma HalvesMeet(p: int)
    requires 0x10000 <= p <= 0x10FFFF
    ensures 0xD800 <= HighHalf(p) < 0xDC00 <= LowHalf(p) < 0xE000
    ensures p == 0x10000 + (HighHalf(p) - 0xD800) * 0x400 + (LowHalf(p) - 0xDC00)
  {
  }

  lemma ReplacementPoint(r: string)
    requires RuneLen(r) == |r| > 0
    ensures Point(r) == 0xFFFD <==> r == REPLACEMENT
  {
    hide EncodeRune;
    RuneEncoded(r);
    RuneEncoded(REPLACEMENT);
  }

  // A low half at i, by its value.
  lemma LowHalfAt(b: string, i: nat, l: int)
    requires i <= |b| && 0xDC00 <= l <= 0xDFFF
    ensures |b| >= i + 6 && IsEscapeOf(b[i..][..6], l) <==> HasLowHalf(b, i) && Hex4(b, i + 2) == l
  {
    hide IsEscapeOf, HexValue, IsHex;
    if |b| >= i + 6 {
      var t := b[i..];
      EscapeReads(t, l);
      assert t[0] == b[i] && t[1] == b[i + 1] && t[2] == b[i + 2] && t[3] == b[i + 3] && t[4] == b[i + 4]
             && t[5] == b[i + 5];
    }
  }

  lemma NoLowHalf(b: string, i: nat)
    requires i <= |b|
    ensures HasLowHalf(b, i) <==> exists l :: 0xDC00 <= l <= 0xDFFF && |b| >= i + 6 && IsEscapeOf(b[i..][..6], l)
  {
    hide IsEscapeOf, HasLowHalf, IsHex4, Hex4;
    LowHalfValue(b, i);
    if HasLowHalf(b, i) { LowHalfAt(b, i, Hex4(b, i + 2)); }
    if exists l :: 0xDC00 <= l <= 0xDFFF && |b| >= i + 6 && IsEscapeOf(b[i..][..6], l) {
      var l :| 0xDC00 <= l <= 0xDFFF && |b| >= i + 6 && IsEscapeOf(b[i..][..6], l);
      LowHalfAt(b, i, l);
    }
  }

  lemma LowHalfValue(b: string, i: nat)
    ensures HasLowHalf(b, i) ==> |b| >= i + 6 && IsHex4(b, i + 2) && 0xDC00 <= Hex4(b, i + 2) <= 0xDFFF
  {
  }

  // ---------- one step of reading ----------

  lemma EscapeIsUnit(b: string, p: int)
    requires |b| >= 6 && 0 <= p < 0x10000 && IsEscapeOf(b[..6], p)
    ensures UnitLen(b) == 6 && Hex4(b, 2) == p && UnitLen(b[..6]) == 6
  {
    hide IsEscapeOf, Hex4;
    EscapeReads(b, p);
    assert forall i :: 0 <= i < 6 ==> b[..6][i] == b[i];
  }

  lemma EscapeRead(u: string, r: string, after: string)
    requires RuneLen(r) == |r| > 0 && IsEscapeOf(u, Point(r))
    ensures ReadLen(u + after) == |u| == 6 && ReadHead(u + after) == r && UnitLen(u) == 6
  {
    hide IsEscapeOf, Hex4, HasLowHalf, EncodeRune;
    var b := u + after;
    EscapeLength(u, Point(r));
    assert b[..6] == u;
    EscapeIsUnit(b, Point(r));
    RuneEncoded(r);
  }

  lemma EscapeLength(u: string, p: int)
    requires IsEscapeOf(u, p)
    ensures |u| == 6 && 0 <= p < 0x10000
  {
  }

  lemma PairRead(u: string, r: string, after: string)
    requires RuneLen(r) == |r| > 0 && Point(r) >= 0x10000 && |u| == 12
    requires IsEscapeOf(u[..6], HighHalf(Point(r))) && IsEscapeOf(u[6..], LowHalf(Point(r)))
    ensures ReadLen(u + after) == 12 && ReadHead(u + after) == r
    ensures UnitLen(u[..6]) == 6 && UnitLen(u[6..]) == 6
  {
    hide IsEscapeOf, Hex4, EncodeRune, HasLowHalf;
    var b := u + after;
    RuneEncoded(r);
    HalvesMeet(Point(r));
    assert b[..6] == u[..6] && b[6..][..6] == u[6..] && u[6..][..6] == u[6..];
    EscapeIsUnit(b, HighHalf(Point(r)));
    EscapeIsUnit(u[6..], LowHalf(Point(r)));
    LowHalfAt(b, 6, LowHalf(Point(r)));
  }

  lemma LoneRead(u: string, r: string, after: string)
    requires RuneLen(r) == |r| > 0 && Point(r) == 0xFFFD && IsLoneHalf(u, after)
    ensures ReadLen(u + after) == |u| == 6 && ReadHead(u + after) == r && UnitLen(u) == 6
  {
    hide IsEscapeOf, Hex4, HasLowHalf;
    var b := u + after;
    var h :| 0xD800 <= h <= 0xDFFF && IsEscapeOf(u, h)
             && (h >= 0xDC00 || forall l :: 0xDC00 <= l <= 0xDFFF ==> |after| < 6 || !IsEscapeOf(after[..6], l));
    EscapeLength(u, h);
    assert b[..6] == u && b[6..] == after;
    EscapeIsUnit(b, h);
    NoLowHalf(b, 6);
    ReplacementPoint(r);
  }

  lemma PlainRead(u: string, after: string)
    requires RuneLen(u) == |u| > 0 && IsPlain(u[0])
    ensures ReadLen(u + after) == |u| && ReadHead(u + after) == u
    ensures forall i :: 0 <= i < |u| ==> IsPlain(u[i])
  {
    RuneLenExtends(u, after);
    assert (u + after)[..|u|] == u;
  }

  lemma ShortRead(u: string, r: string, after: string)
    requires |u| == 2 && |r| == 1 && u[0] == '\\' && IsShortFor(u[1], r[0])
    ensures ReadLen(u + after) == 2 && ReadHead(u + after) == r && UnitLen(u) == 2
  {
  }

  lemma BadRead(u: string, r: string, after: string)
    requires RuneLen(r) == |r| > 0 && Point(r) == 0xFFFD
    requires |u| == 1 && IsPlain(u[0]) && RuneLen(u + after) == 0
    ensures ReadLen(u + after) == 1 && ReadHead(u + after) == r
  {
    ReplacementPoint(r);
  }

  // What is written for a rune is read back as that rune, in one step.
  lemma RuneReads(u: string, r: string, after: string)
    requires RuneLen(r) == |r| > 0 && WritesRune(u, r, after)
    ensures u != "" && ReadLen(u + after) == |u| && ReadHead(u + after) == r
    ensures BodyLen(u + after) == |u| + BodyLen(after)
  {
    hide IsEscapeOf, IsLoneHalf, BodyLen, ReadLen, ReadHead, UnitLen, RuneLen, Point;
    if u == r && IsPlain(r[0]) {
      PlainRead(u, after);
      PlainScans(u, after);
    } else if IsEscapeOf(u, Point(r)) {
      EscapeRead(u, r, after);
      EscapeScans(u, after);
    } else if |u| == 12 && Point(r) >= 0x10000 && IsEscapeOf(u[..6], HighHalf(Point(r))) {
      PairRead(u, r, after);
      EscapeScans(u[..6], u[6..] + after);
      EscapeScans(u[6..], after);
      assert u + after == u[..6] + (u[6..] + after);
    } else if |u| == 2 && |r| == 1 && u[0] == '\\' && IsShortFor(u[1], r[0]) {
      ShortRead(u, r, after);
      EscapeScans(u, after);
    } else if IsLoneHalf(u, after) {
      LoneRead(u, r, after);
      EscapeScans(u, after);
    } else {
      BadRead(u, r, after);
      PlainScans(u, after);
    }
  }

  // ---------- and the other way round ----------

  lemma EncodedIsRune(p: int) returns (r: string)
    requires IsScalar(p)
    ensures r == EncodeRune(p) && RuneLen(r) == |r| > 0 && Point(r) == p
  {
    hide EncodeRune;
    r := EncodeRune(p);
    EncodedCarries(p, "");
    assert r + "" == r;
  }

  lemma UnitIsEscape(b: string)
    requires UnitLen(b) == 6
    ensures Hex4(b, 2) < 0x10000 && IsEscapeOf(b[..6], Hex4(b, 2))
  {
    hide IsEscapeOf, Hex4;
    EscapeReads(b, Hex4(b, 2));
  }

  lemma WrittenPair(b: string)
    requires UnitLen(b) == 6 && IsHighSurrogate(Hex4(b, 2)) && HasLowHalf(b, 6)
    ensures var r := ReadHead(b);
            ReadLen(b) == 12 && RuneLen(r) == |r| > 0 && WritesRune(b[..12], r, b[12..])
  {
    hide IsEscapeOf, Hex4, EncodeRune, HasLowHalf, IsLoneHalf;
    LowHalfValue(b, 6);
    var h, l := Hex4(b, 2), Hex4(b, 8);
    var p := 0x10000 + (h - 0xD800) * 0x400 + (l - 0xDC00);
    PairHalves(h, l);
    var r := EncodedIsRune(p);
    UnitIsEscape(b);
    LowHalfAt(b, 6, l);
    assert b[..12][..6] == b[..6] && b[..12][6..] == b[6..][..6];
  }

  lemma PairHalves(h: int, l: int)
    requires 0xD800 <= h < 0xDC00 <= l < 0xE000
    ensures var p := 0x10000 + (h - 0xD800) * 0x400 + (l - 0xDC00);
            0x10000 <= p <= 0x10FFFF && HighHalf(p) == h && LowHalf(p) == l
  {
  }

  lemma WrittenEscape(b: string)
    requires UnitLen(b) == 6 && !(IsHighSurrogate(Hex4(b, 2)) && HasLowHalf(b, 6))
    ensures var r := ReadHead(b);
            ReadLen(b) == 6 && RuneLen(r) == |r| > 0 && WritesRune(b[..6], r, b[6..])
  {
    hide IsEscapeOf, Hex4, HasLowHalf, EncodeRune;
    var h := Hex4(b, 2);
    UnitIsEscape(b);
    if IsScalar(h) {
      var r := EncodedIsRune(h);
    } else {
      NoLowHalf(b, 6);
      SurrogateReplaced(h);
      RuneLenReplacement();
      ReplacementPoint(REPLACEMENT);
      assert IsLoneHalf(b[..6], b[6..]);
    }
  }

  lemma SurrogateReplaced(h: int)
    requires 0xD800 <= h <= 0xDFFF
    ensures EncodeRune(h) == REPLACEMENT
  {
  }

  lemma RuneLenReplacement()
    ensures RuneLen(REPLACEMENT) == |REPLACEMENT| > 0
  {
  }

  lemma WrittenShort(b: string)
    requires UnitLen(b) == 2
    ensures var r := ReadHead(b);
            ReadLen(b) == 2 && RuneLen(r) == |r| > 0 && WritesRune(b[..2], r, b[2..])
  {
    hide IsEscapeOf, IsLoneHalf;
  }

  lemma WrittenPlain(b: string)
    requires UnitLen(b) == 1
    ensures var r := ReadHead(b);
            RuneLen(r) == |r| > 0 && WritesRune(b[..ReadLen(b)], r, b[ReadLen(b)..])
  {
    hide IsEscapeOf, IsLoneHalf, Point;
    if RuneLen(b) > 0 {
      RuneLenOfPrefix(b, RuneLen(b));
    } else {
      RuneLenReplacement();
      ReplacementPoint(REPLACEMENT);
      assert b[..1] + b[1..] == b;
    }
  }

  // Whatever one step reads was written for what it yields.
  lemma ReadIsWritten(b: string)
    requires b != "" && UnitLen(b) > 0
    ensures var r := ReadHead(b);
            RuneLen(r) == |r| > 0 && WritesRune(b[..ReadLen(b)], r, b[ReadLen(b)..])
  {
    hide WritesRune, HasLowHalf, Hex4, IsHex4, RuneLen, ReadHead, ReadLen;
    UnitLengths(b);
    if UnitLen(b) == 6 {
      if IsHighSurrogate(Hex4(b, 2)) && HasLowHalf(b, 6) { WrittenPair(b); } else { WrittenEscape(b); }
    } else if UnitLen(b) == 2 {
      WrittenShort(b);
    } else {
      WrittenPlain(b);
    }
  }

  lemma UnitLengths(b: string)
    ensures UnitLen(b) in {0, 1, 2, 6}
    ensures UnitLen(b) == 6 ==> IsHex4(b, 2)
  {
  }

  // ---------- whole literals ----------

  lemma WrittenStep(b: string, s: string) returns (k: nat)
    requires s != "" && Writes(b, s)
    ensures RuneLen(s) > 0 && RuneLen(First(s)) == |First(s)| > 0 && 0 < k <= |b|
    ensures WritesRune(b[..k], First(s), b[k..]) && Writes(b[k..], s[RuneLen(s)..])
  {
    hide WritesRune, RuneLen;
    FirstIsRune(s);
    k :| 0 < k <= |b| && WritesRune(b[..k], First(s), b[k..]) && Writes(b[k..], s[RuneLen(s)..]);
  }

  lemma UnquoteStep(b: string)
    requires b != ""
    ensures Unquote(b) == ReadHead(b) + Unquote(b[ReadLen(b)..])
    ensures BodyLen(b) == |b| <==> IsBody(b)
  {
    hide ReadHead, ReadLen, BodyLen;
  }

  lemma ValidStep(s: string)
    requires RuneLen(s) > 0 && Valid(s[RuneLen(s)..])
    ensures Valid(s)
  {
  }

  lemma NothingWritten()
    ensures IsBody("") && Unquote("") == "" && Valid("")
  {
  }

  lemma {:induction false} WrittenReads(b: string, s: string)
    requires Writes(b, s)
    ensures IsBody(b) && Unquote(b) == s && Valid(s)
    decreases |s|
  {
    hide WritesRune, ReadHead, ReadLen, RuneLen, Unquote, BodyLen, Valid;
    NothingWritten();
    if s == "" {
    } else {
      var k := WrittenStep(b, s);
      var rest := s[RuneLen(s)..];
      assert b == b[..k] + b[k..] && s == First(s) + rest;
      RuneReads(b[..k], First(s), b[k..]);
      WrittenReads(b[k..], rest);
      UnquoteStep(b);
      ValidStep(s);
    }
  }

  lemma FirstIsRune(s: string)
    requires RuneLen(s) > 0
    ensures RuneLen(First(s)) == |First(s)| > 0 && |First(s)| == RuneLen(s)
  {
    RuneLenOfPrefix(s, RuneLen(s));
  }

  lemma {:induction false} ReadsWritten(b: string)
    requires IsBody(b)
    ensures Writes(b, Unquote(b))
    decreases |b|
  {
    hide WritesRune, ReadHead, ReadLen, RuneLen, UnitLen;
    if b == "" {
    } else {
      BodySplits(b);
      var k, r := ReadLen(b), ReadHead(b);
      ReadIsWritten(b);
      ReadsWritten(b[k..]);
      var s := Unquote(b);
      assert s == r + Unquote(b[k..]);
      RuneLenExtends(r, Unquote(b[k..]));
      assert First(s) == r && s[RuneLen(s)..] == Unquote(b[k..]);
    }
  }

  // The literals that are read as a string are exactly the ways of writing it, and what is
  // read is always UTF-8.
  lemma LiteralsExactly(b: string, s: string)
    ensures IsBody(b) && Unquote(b) == s <==> Writes(b, s)
    ensures Writes(b, s) ==> Valid(s)
  {
    hide Unquote, IsBody, Writes, Valid;
    if Writes(b, s) { WrittenReads(b, s); }
    if IsBody(b) && Unquote(b) == s { ReadsWritten(b); }
  }
}
