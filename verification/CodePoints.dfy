// The code points that encoded runes stand for (section 3 of RFC 3629), and white space by
// code point.
module CodePoints {
  import opened Text
  import opened Utf8

  // The number a rune of n bytes carries: what its first byte has beside the length, and
  // six bits of every further byte.
  function Point(r: string): (p: int)
    requires 1 <= |r| <= 4
  {
    if |r| == 1 then r[0] as int
    else if |r| == 2 then (r[0] as int - 0xC0) * 64 + Low(r[1])
    else if |r| == 3 then ((r[0] as int - 0xE0) * 64 + Low(r[1])) * 64 + Low(r[2])
    else (((r[0] as int - 0xF0) * 64 + Low(r[1])) * 64 + Low(r[2])) * 64 + Low(r[3])
  }

  function Low(c: char): int {
    c as int - 0x80
  }

  // A code point that may be encoded: no surrogate.
  predicate IsScalar(p: int) {
    0 <= p < 0xD800 || 0xE000 <= p <= 0x10FFFF
  }

  // The number of bytes that section 3 gives to a code point.
  function Width(p: int): nat {
    if p <= 0x7F then 1 else if p <= 0x7FF then 2 else if p <= 0xFFFF then 3 else 4
  }

  function First(s: string): (r: string)
    requires RuneLen(s) > 0
    ensures 1 <= |r| <= 4
  {
    s[..RuneLen(s)]
  }

  // A rune that is recognised carries a code point in its shortest form.
  lemma RuneCarries(s: string)
    requires RuneLen(s) > 0
    ensures IsScalar(Point(First(s))) && RuneLen(s) == Width(Point(First(s)))
  {
  }

  lemma TwoBytes(p: int)
    requires 0x80 <= p <= 0x7FF
    ensures p / 0x40 <= 0x1F && p == p / 0x40 * 64 + p % 0x40
  {
  }

  lemma ThreeBytes(p: int)
    requires 0x800 <= p <= 0xFFFF
    ensures p / 0x1000 <= 0xF && p == (p / 0x1000 * 64 + p / 0x40 % 0x40) * 64 + p % 0x40
  {
    assert p / 0x40 == p / 0x1000 * 64 + p / 0x40 % 0x40;
  }

  lemma FourBytes(p: int)
    requires 0x10000 <= p <= 0x10FFFF
    ensures p / 0x40000 <= 4
    ensures p == ((p / 0x40000 * 64 + p / 0x1000 % 0x40) * 64 + p / 0x40 % 0x40) * 64 + p % 0x40
  {
    assert p / 0x40 == p / 0x1000 * 64 + p / 0x40 % 0x40;
    assert p / 0x1000 == p / 0x40000 * 64 + p / 0x1000 % 0x40;
  }

  // Every code point is encoded as a rune that carries it, whatever follows.
  lemma EncodedCarries(p: int, tail: string)
    requires IsScalar(p)
    ensures var r := EncodeRune(p);
            |r| == Width(p) && RuneLen(r + tail) == |r| && Point(r) == p && First(r + tail) == r
  {
    if 0x80 <= p <= 0x7FF { TwoBytes(p); }
    if 0x800 <= p <= 0xFFFF { ThreeBytes(p); }
    if 0x10000 <= p { FourBytes(p); }
  }

  // Runes are told apart by their code points, so encoding is the way back.
  lemma PointDetermines(a: string, b: string)
    requires RuneLen(a) == |a| > 0 && RuneLen(b) == |b| > 0 && Point(a) == Point(b)
    ensures a == b
  {
    assert a[..|a|] == a && b[..|b|] == b;
    RuneCarries(a);
    RuneCarries(b);
    LowBits(a, b);
  }

  lemma LowBits(a: string, b: string)
    requires |a| == |b| && RuneLen(a) == |a| > 0 && RuneLen(b) == |b| && Point(a) == Point(b)
    ensures a == b
  {
    assert forall i :: 1 <= i < |a| ==> 0 <= Low(a[i]) < 64;
    assert forall i :: 1 <= i < |b| ==> 0 <= Low(b[i]) < 64;
  }

  lemma RuneEncoded(r: string)
    requires RuneLen(r) == |r| > 0
    ensures IsScalar(Point(r)) && EncodeRune(Point(r)) == r
  {
    hide EncodeRune;
    assert r[..|r|] == r;
    RuneCarries(r);
    EncodedCarries(Point(r), "");
    assert EncodeRune(Point(r)) + "" == EncodeRune(Point(r));
    PointDetermines(r, EncodeRune(Point(r)));
  }

  // ---------- white space ----------

  // The code points with the property White_Space.
  predicate IsSpacePoint(p: int) {
    || 0x9 <= p <= 0xD || p == 0x20 || p == 0x85 || p == 0xA0 || p == 0x1680
    || 0x2000 <= p <= 0x200A || p == 0x2028 || p == 0x2029 || p == 0x202F || p == 0x205F || p == 0x3000
  }

  predicate StartsBlank(s: string) {
    RuneLen(s) > 0 && IsSpacePoint(Point(First(s)))
  }

  // Nothing but runes of white space.
  predicate AllBlank(s: string)
    decreases |s|
  {
    s == "" || (StartsBlank(s) && AllBlank(s[RuneLen(s)..]))
  }

  // Trimming looks for white space by its bytes; it finds it by its code points.
  lemma SpaceExactly(s: string)
    ensures SpaceHead(s) == if StartsBlank(s) then RuneLen(s) else 0
    ensures SpaceHead(s) > 0 <==> StartsBlank(s)
  {
  }

  // Some rune of white space ends the text.
  predicate EndsBlank(s: string) {
    exists k :: 0 <= k < |s| && StartsBlank(s[k..]) && RuneLen(s[k..]) == |s| - k
  }

  lemma SpaceTailExactly(s: string)
    ensures SpaceTail(s) > 0 <==> EndsBlank(s)
    ensures SpaceTail(s) > 0 ==>
              var r := s[|s| - SpaceTail(s)..]; StartsBlank(r) && RuneLen(r) == |r|
  {
    hide StartsBlank, RuneLen;
    var n := SpaceTail(s);
    if n > 0 {
      SpaceExactly(s[|s| - n..]);
    }
    if EndsBlank(s) {
      var k :| 0 <= k < |s| && StartsBlank(s[k..]) && RuneLen(s[k..]) == |s| - k;
      SpaceExactly(s[k..]);
    }
  }

  lemma BlankStep(s: string)
    ensures AllBlank(s) <==> s == "" || (SpaceHead(s) > 0 && AllBlank(s[SpaceHead(s)..]))
  {
    SpaceExactly(s);
  }

  // What begins with white space goes on doing so, and no other text comes to.
  lemma SpaceHeadBefore(a: string, b: string)
    requires a != "" && (b == "" || SpaceHead(b) > 0)
    ensures SpaceHead(a + b) == SpaceHead(a)
  {
  }

  lemma {:induction false} TrimLeftBlank(a: string, t: string)
    requires AllBlank(a)
    ensures TrimLeft(a + t) == TrimLeft(t)
    decreases |a|
  {
    hide SpaceHead, AllBlank, TrimLeft;
    BlankStep(a);
    if a == "" {
      assert a + t == t;
    } else {
      var n := SpaceHead(a);
      HeadStays(a, t);
      TrimLeftStep(a + t);
      assert (a + t)[n..] == a[n..] + t;
      TrimLeftBlank(a[n..], t);
    }
  }

  lemma HeadStays(a: string, t: string)
    requires SpaceHead(a) > 0
    ensures SpaceHead(a + t) == SpaceHead(a)
  {
  }

  lemma TrimLeftStep(s: string)
    ensures TrimLeft(s) == if SpaceHead(s) == 0 then s else TrimLeft(s[SpaceHead(s)..])
  {
  }

  lemma TrimRightStep(s: string)
    ensures TrimRight(s) == if SpaceTail(s) == 0 then s else TrimRight(s[..|s| - SpaceTail(s)])
  {
  }

  // Taken from its end, a blank text comes apart into the same runes.
  lemma {:induction false} BlankFromEnd(x: string, b: string)
    requires AllBlank(b) && b != ""
    ensures 0 < SpaceTail(x + b) <= |b| && AllBlank(b[..|b| - SpaceTail(x + b)])
    decreases |b|
  {
    hide SpaceHead, SpaceTail, AllBlank;
    BlankStep(b);
    var n := SpaceHead(b);
    var r, rest := b[..n], b[n..];
    BlankStep("");
    if rest == "" {
      assert r == b;
      TailRune(x, b);
      assert b[..|b| - n] == "";
    } else {
      BlankFromEnd(x + r, rest);
      assert (x + r) + rest == x + b;
      var k := SpaceTail(x + b);
      assert b[..|b| - k] == r + rest[..|rest| - k];
      BlankStep(r + rest[..|rest| - k]);
      HeadOfRune(b, rest[..|rest| - k]);
      assert (r + rest[..|rest| - k])[n..] == rest[..|rest| - k];
    }
  }

  lemma TailRune(x: string, b: string)
    requires SpaceHead(b) == |b| > 0
    ensures SpaceTail(x + b) == |b|
  {
  }

  lemma HeadOfRune(b: string, t: string)
    requires SpaceHead(b) > 0
    ensures SpaceHead(b[..SpaceHead(b)] + t) == SpaceHead(b)
  {
  }

  lemma {:induction false} TrimRightBlank(t: string, b: string)
    requires AllBlank(b)
    ensures TrimRight(t + b) == TrimRight(t)
    decreases |b|
  {
    hide SpaceTail, AllBlank, TrimRight;
    if b == "" {
      assert t + b == t;
    } else {
      BlankFromEnd(t, b);
      TrimRightStep(t + b);
      var k := SpaceTail(t + b);
      assert (t + b)[..|t + b| - k] == t + b[..|b| - k];
      TrimRightBlank(t, b[..|b| - k]);
    }
  }

  // Trimming takes away white space, at both ends, and nothing else: a text between white
  // space that neither begins nor ends with it is what is left.
  lemma TrimExactly(a: string, t: string, b: string)
    requires AllBlank(a) && AllBlank(b) && !StartsBlank(t) && !EndsBlank(t)
    ensures TrimSpace(a + t + b) == t
  {
    hide SpaceHead, SpaceTail, AllBlank, TrimRight, TrimLeft, StartsBlank, EndsBlank;
    assert a + t + b == a + (t + b);
    TrimLeftBlank(a, t + b);
    SpaceExactly(t);
    SpaceTailExactly(t);
    TrimRightStep(t);
    TrimRightStep("");
    BlankStep(b);
    if t == "" {
      TrimLeftBlank(b, "");
      assert t + b == b && b + "" == b;
      TrimLeftStep("");
      EmptyIsPlain();
    } else {
      SpaceHeadBefore(t, b);
      TrimLeftStep(t + b);
      TrimRightBlank(t, b);
    }
  }

  lemma EmptyIsPlain()
    ensures SpaceHead("") == 0 && SpaceTail("") == 0
  {
  }

  // So every text is taken apart.
  lemma TrimSplits(s: string) returns (a: string, b: string)
    ensures s == a + TrimSpace(s) + b && AllBlank(a) && AllBlank(b)
    ensures !StartsBlank(TrimSpace(s)) && !EndsBlank(TrimSpace(s))
  {
    hide SpaceHead, SpaceTail, AllBlank, TrimRight, TrimLeft, StartsBlank, EndsBlank;
    a := LeftBlank(s);
    b := RightBlank(TrimLeft(s));
    TrimSpaceMeaning(s);
    SpaceExactly(TrimSpace(s));
    SpaceTailExactly(TrimSpace(s));
  }

  lemma {:induction false} LeftBlank(s: string) returns (a: string)
    ensures s == a + TrimLeft(s) && AllBlank(a)
    decreases |s|
  {
    hide SpaceHead, AllBlank, TrimLeft;
    TrimLeftStep(s);
    BlankStep("");
    var n := SpaceHead(s);
    if n == 0 {
      a := "";
    } else {
      var rest := LeftBlank(s[n..]);
      a := s[..n] + rest;
      HeadOfRune(s, rest);
      BlankStep(a);
      assert a[n..] == rest && s == s[..n] + s[n..];
    }
  }

  lemma {:induction false} RightBlank(s: string) returns (b: string)
    ensures s == TrimRight(s) + b && AllBlank(b)
    decreases |s|
  {
    hide SpaceTail, AllBlank, TrimRight, SpaceHead;
    TrimRightStep(s);
    BlankStep("");
    var n := SpaceTail(s);
    if n == 0 {
      b := "";
    } else {
      var front := RightBlank(s[..|s| - n]);
      var r := s[|s| - n..];
      SpaceTailExactly(s);
      BlankRune(r);
      b := front + r;
      BlankConcat(front, r);
      assert s == s[..|s| - n] + r;
    }
  }

  lemma BlankRune(r: string)
    requires StartsBlank(r) && RuneLen(r) == |r|
    ensures AllBlank(r)
  {
    assert r[RuneLen(r)..] == "";
  }

  lemma {:induction false} BlankConcat(a: string, b: string)
    requires AllBlank(a) && AllBlank(b)
    ensures AllBlank(a + b)
    decreases |a|
  {
    hide SpaceHead, AllBlank;
    BlankStep(a);
    if a == "" {
      assert a + b == b;
    } else {
      var n := SpaceHead(a);
      HeadStays(a, b);
      BlankConcat(a[n..], b);
      assert (a + b)[n..] == a[n..] + b;
      BlankStep(a + b);
    }
  }
}
