// Byte strings and the functions of Go's `strings` package that the programs use.
// A Go string is modelled as a `string` whose characters stand for its bytes.
module Text {

  predicate IsAsciiSpace(c: char) {
    c == ' ' || '\t' <= c <= '\r'
  }

  // The UTF-8 encodings, in two and three bytes, of the white space outside ASCII.
  predicate IsWideSpace2(a: char, b: char) {
    a == '\U{C2}' && (b == '\U{85}' || b == '\U{A0}')
  }

  predicate IsWideSpace3(a: char, b: char, c: char) {
    || (a == '\U{E1}' && b == '\U{9A}' && c == '\U{80}')
    || (a == '\U{E2}' && b == '\U{80}' && ('\U{80}' <= c <= '\U{8A}' || c in ['\U{A8}', '\U{A9}', '\U{AF}']))
    || (a == '\U{E2}' && b == '\U{81}' && c == '\U{9F}')
    || (a == '\U{E3}' && b == '\U{80}' && c == '\U{80}')
  }

  // Number of bytes of the white-space rune that s begins with, 0 if it begins with none.
  function SpaceHead(s: string): (n: nat)
    ensures n <= 3 && n <= |s|
  {
    if |s| >= 1 && IsAsciiSpace(s[0]) then 1
    else if |s| >= 2 && IsWideSpace2(s[0], s[1]) then 2
    else if |s| >= 3 && IsWideSpace3(s[0], s[1], s[2]) then 3
    else 0
  }

  // Number of bytes of the white-space rune that s ends with, 0 if it ends with none.
  function SpaceTail(s: string): (n: nat)
    ensures n <= 3 && n <= |s|
  {
    var k := |s|;
    if k >= 1 && IsAsciiSpace(s[k - 1]) then 1
    else if k >= 2 && IsWideSpace2(s[k - 2], s[k - 1]) then 2
    else if k >= 3 && IsWideSpace3(s[k - 3], s[k - 2], s[k - 1]) then 3
    else 0
  }

  function TrimLeft(s: string): (t: string)
    ensures |t| <= |s|
    decreases |s|
  {
    var n := SpaceHead(s);
    if n == 0 then s else TrimLeft(s[n..])
  }

  function TrimRight(s: string): (t: string)
    ensures |t| <= |s|
    decreases |s|
  {
    var n := SpaceTail(s);
    if n == 0 then s else TrimRight(s[..|s| - n])
  }

  // strings.TrimSpace
  function TrimSpace(s: string): (t: string)
    ensures |t| <= |s|
  {
    TrimRight(TrimLeft(s))
  }

  // No white space at either end.
  predicate Trimmed(s: string) {
    SpaceHead(s) == 0 && SpaceTail(s) == 0
  }

  lemma {:induction false} TrimLeftMeaning(s: string)
    ensures SpaceHead(TrimLeft(s)) == 0 && TrimLeft(s) == s[|s| - |TrimLeft(s)|..]
    decreases |s|
  {
    var n := SpaceHead(s);
    if n == 0 {
    } else {
      TrimLeftMeaning(s[n..]);
    }
  }

  lemma {:induction false} TrimRightMeaning(s: string)
    ensures SpaceTail(TrimRight(s)) == 0 && TrimRight(s) <= s
    decreases |s|
  {
    var n := SpaceTail(s);
    if n == 0 {
    } else {
      TrimRightMeaning(s[..|s| - n]);
    }
  }

  lemma TrimSpaceMeaning(s: string)
    ensures Trimmed(TrimSpace(s))
  {
    TrimLeftMeaning(s);
    TrimRightMeaning(TrimLeft(s));
    PrefixStartsPlain(TrimLeft(s), |TrimRight(TrimLeft(s))|);
  }

  // Cutting the end off a string cannot make it start with white space.
  lemma PrefixStartsPlain(s: string, k: nat)
    requires SpaceHead(s) == 0 && k <= |s|
    ensures SpaceHead(s[..k]) == 0
  {
  }

  // A string without white space at either end is left alone.
  lemma TrimSpaceKeeps(s: string)
    requires Trimmed(s)
    ensures TrimSpace(s) == s
  {
  }

  lemma TrimSpaceIdempotent(s: string)
    ensures TrimSpace(TrimSpace(s)) == TrimSpace(s)
  {
    TrimSpaceMeaning(s);
    TrimSpaceKeeps(TrimSpace(s));
  }

  predicate HasPrefix(s: string, p: string) {
    p <= s
  }

  predicate HasSuffix(s: string, p: string) {
    |p| <= |s| && s[|s| - |p|..] == p
  }

  predicate MatchAt(s: string, p: string, i: int) {
    0 <= i && i + |p| <= |s| && s[i..i + |p|] == p
  }

  // strings.Contains
  predicate Contains(s: string, p: string) {
    exists i :: 0 <= i <= |s| && MatchAt(s, p, i)
  }

  function LowerChar(c: char): char {
    if 'A' <= c <= 'Z' then (c as int + 32) as char else c
  }

  predicate AllAscii(s: string) {
    forall i :: 0 <= i < |s| ==> s[i] <= '\U{7F}'
  }

  // Number of bytes that lower-casing takes from the front at a time: one, or a rune
  // outside ASCII with an ASCII lower case, U+0130 or U+212A.
  function LowerWidth(s: string): (n: nat)
    requires s != ""
    ensures 1 <= n <= |s|
  {
    if |s| >= 2 && s[0] == '\U{C4}' && s[1] == '\U{B0}' then 2
    else if |s| >= 3 && s[0] == '\U{E2}' && s[1] == '\U{84}' && s[2] == '\U{AA}' then 3
    else 1
  }

  function LowerFirst(s: string): char
    requires s != ""
  {
    if LowerWidth(s) == 2 then 'i' else if LowerWidth(s) == 3 then 'k' else LowerChar(s[0])
  }

  // strings.ToLower, as far as ASCII text can tell: runes whose lower case is outside ASCII
  // stay as they are.
  function ToLower(s: string): (t: string)
    ensures |t| <= |s|
    decreases |s|
  {
    if s == "" then "" else [LowerFirst(s)] + ToLower(s[LowerWidth(s)..])
  }

  lemma {:induction false} LowerAscii(s: string)
    requires AllAscii(s)
    ensures |ToLower(s)| == |s| && forall i :: 0 <= i < |s| ==> ToLower(s)[i] == LowerChar(s[i])
    decreases |s|
  {
    if s == "" {
    } else {
      LowerAscii(s[1..]);
    }
  }

  // The second and third bytes of the runes that lower-casing takes whole.
  predicate InsideLetter(c: char) {
    c == '\U{B0}' || c == '\U{84}' || c == '\U{AA}'
  }

  lemma LowerWidthAcross(a: string, b: string)
    requires a != "" && (AllAscii(a) || b == "" || !InsideLetter(b[0]))
    ensures LowerWidth(a + b) == LowerWidth(a) && LowerFirst(a + b) == LowerFirst(a)
  {
  }

  lemma LowerStep(s: string)
    ensures ToLower(s) == if s == "" then "" else [LowerFirst(s)] + ToLower(s[LowerWidth(s)..])
  {
    hide LowerWidth, LowerFirst;
  }

  // Text is lowered piece by piece where no rune lies across the cut.
  lemma {:induction false} LowerConcat(a: string, b: string)
    requires AllAscii(a) || b == "" || !InsideLetter(b[0])
    ensures ToLower(a + b) == ToLower(a) + ToLower(b)
    decreases |a|
  {
    hide LowerWidth, LowerFirst, ToLower;
    LowerStep(a);
    if a == "" {
      assert a + b == b;
    } else {
      LowerStep(a + b);
      LowerWidthAcross(a, b);
      var n := LowerWidth(a);
      LowerConcat(a[n..], b);
      assert (a + b)[n..] == a[n..] + b;
    }
  }

  // strings.Split on a one-character separator: always at least one piece.
  function Split(s: string, sep: char): (pieces: seq<string>)
    ensures |pieces| >= 1
    decreases |s|
  {
    if s == "" then [""]
    else if s[0] == sep then [""] + Split(s[1..], sep)
    else
      var rest := Split(s[1..], sep);
      [[s[0]] + rest[0]] + rest[1..]
  }

  function Join(pieces: seq<string>, sep: string): string {
    if pieces == [] then ""
    else if |pieces| == 1 then pieces[0]
    else pieces[0] + sep + Join(pieces[1..], sep)
  }

  // Splitting a joined list of separator-free pieces returns the pieces.
  lemma {:induction false} SplitJoin(pieces: seq<string>, sep: char)
    requires pieces != []
    requires forall p :: p in pieces ==> sep !in p
    ensures Split(Join(pieces, [sep]), sep) == pieces
    decreases |pieces|
  {
    if |pieces| == 1 {
      SplitPlain(pieces[0], "", sep);
      assert pieces[0] + "" == pieces[0];
    } else {
      var rest := Join(pieces[1..], [sep]);
      SplitJoin(pieces[1..], sep);
      var tail := [sep] + rest;
      assert tail[1..] == rest;
      assert Split(tail, sep) == [""] + pieces[1..];
      SplitPlain(pieces[0], tail, sep);
      assert pieces[0] + [sep] + rest == pieces[0] + tail;
      assert pieces[0] + "" == pieces[0];
      assert pieces == [pieces[0]] + pieces[1..];
    }
  }

  // A separator-free front ends up whole in the first piece.
  lemma {:induction false} SplitPlain(front: string, tail: string, sep: char)
    requires sep !in front
    ensures Split(front + tail, sep) == [front + Split(tail, sep)[0]] + Split(tail, sep)[1..]
    decreases |front|
  {
    if front == "" {
      assert front + tail == tail;
      assert "" + Split(tail, sep)[0] == Split(tail, sep)[0];
    } else {
      var s := front + tail;
      assert s[1..] == front[1..] + tail;
      SplitPlain(front[1..], tail, sep);
      assert [front[0]] + (front[1..] + Split(tail, sep)[0]) == front + Split(tail, sep)[0];
    }
  }

  lemma JoinConsEmpty(pieces: seq<string>, sep: string)
    requires pieces != []
    ensures Join([""] + pieces, sep) == sep + Join(pieces, sep)
  {
    assert ([""] + pieces)[1..] == pieces;
  }

  lemma JoinConsChar(c: char, pieces: seq<string>, sep: string)
    requires pieces != []
    ensures Join([[c] + pieces[0]] + pieces[1..], sep) == [c] + Join(pieces, sep)
  {
    var all := [[c] + pieces[0]] + pieces[1..];
    assert all[1..] == pieces[1..];
    if |pieces| > 1 {
      assert [c] + pieces[0] + sep + Join(pieces[1..], sep) == [c] + (pieces[0] + sep + Join(pieces[1..], sep));
    }
  }

  // Joining the pieces of a split gives the string back, and no piece holds the separator.
  lemma {:induction false} JoinSplit(s: string, sep: char)
    ensures Join(Split(s, sep), [sep]) == s
    ensures forall p :: p in Split(s, sep) ==> sep !in p
    decreases |s|
  {
    hide Join;
    if s == "" {
      JoinOne("", [sep]);
    } else {
      JoinSplit(s[1..], sep);
      var rest := Split(s[1..], sep);
      assert s == [s[0]] + s[1..];
      if s[0] == sep {
        JoinConsEmpty(rest, [sep]);
      } else {
        JoinConsChar(s[0], rest, [sep]);
        assert forall p :: p in rest[1..] ==> p in rest;
      }
    }
  }

  lemma SplitStep(c: char, s: string, sep: char)
    ensures c == sep ==> Split([c] + s, sep) == [""] + Split(s, sep)
    ensures c != sep ==> Split([c] + s, sep) == [[c] + Split(s, sep)[0]] + Split(s, sep)[1..]
  {
    assert ([c] + s)[1..] == s;
  }

  // A separator between two strings separates their pieces.
  lemma {:induction false} SplitAcross(a: string, b: string, sep: char)
    ensures Split(a + [sep] + b, sep) == Split(a, sep) + Split(b, sep)
    decreases |a|
  {
    if a == "" {
      SplitStep(sep, b, sep);
      assert a + [sep] + b == [sep] + b;
    } else {
      var rest := a[1..] + [sep] + b;
      assert a + [sep] + b == [a[0]] + rest;
      assert a == [a[0]] + a[1..];
      SplitAcross(a[1..], b, sep);
      SplitStep(a[0], rest, sep);
      SplitStep(a[0], a[1..], sep);
      SplitAppendTail(a[0], Split(a[1..], sep), Split(b, sep));
    }
  }

  lemma SplitAppendTail(c: char, x: seq<string>, y: seq<string>)
    requires x != []
    ensures [[c] + (x + y)[0]] + (x + y)[1..] == [[c] + x[0]] + x[1..] + y
    ensures [""] + (x + y) == [""] + x + y
  {
    assert (x + y)[1..] == x[1..] + y;
  }

  lemma SliceOfSlice(s: string, a: int, b: int, c: int, d: int)
    requires 0 <= a <= b <= |s| && 0 <= c <= d <= b - a
    ensures s[a..b][c..d] == s[a + c..a + d]
  {
    var t := s[a..b];
    var u := t[c..d];
    assert forall k :: 0 <= k < |u| ==> u[k] == t[c + k] == s[a + c + k];
  }

  // A part of a match is a match of that part.
  lemma SubMatch(s: string, p: string, i: int, a: int, b: int)
    requires MatchAt(s, p, i) && 0 <= a <= b <= |p|
    ensures s[i + a..i + b] == p[a..b]
    ensures forall k :: a <= k < b ==> s[i + k] == p[k]
  {
    var m := s[i..i + |p|];
    assert forall k :: 0 <= k < |p| ==> m[k] == s[i + k];
  }

  lemma FindMatch(s: string, p: string) returns (i: int)
    requires Contains(s, p)
    ensures MatchAt(s, p, i)
  {
    i :| 0 <= i <= |s| && MatchAt(s, p, i);
  }

  // A match that lies within a part of s is a match in that part.
  lemma MatchWithin(s: string, p: string, i: int, a: int, b: int)
    requires MatchAt(s, p, i) && 0 <= a <= i && i + |p| <= b <= |s|
    ensures MatchAt(s[a..b], p, i - a) && Contains(s[a..b], p)
  {
    SliceOfSlice(s, a, b, i - a, i - a + |p|);
    assert MatchAt(s[a..b], p, i - a);
  }

  lemma ContainsItself(p: string)
    ensures Contains(p, p)
  {
    assert MatchAt(p, p, 0);
  }

  // What a part of a string contains, the string contains.
  lemma ContainsIn(front: string, t: string, back: string, p: string)
    requires Contains(t, p)
    ensures Contains(front + t + back, p)
  {
    hide Contains;
    var i := FindMatch(t, p);
    MatchIn(front, t, back, p, i);
  }

  lemma MatchIn(front: string, t: string, back: string, p: string, i: int)
    requires MatchAt(t, p, i)
    ensures MatchAt(front + t + back, p, |front| + i) && Contains(front + t + back, p)
  {
    var s := front + t + back;
    assert s[|front|..|front| + |t|] == t;
    SliceOfSlice(s, |front|, |front| + |t|, i, i + |p|);
    var at := |front| + i;
    assert s[at..at + |p|] == t[i..i + |p|] == p;
    assert MatchAt(s, p, at);
  }

  // A pattern without spaces that matches in two words does so left or right of the space.
  lemma MatchOffSpace(u: string, t: string, p: string, i: int)
    requires ' ' !in p && MatchAt(u + " " + t, p, i)
    ensures i + |p| <= |u| || |u| < i
  {
    var s := u + " " + t;
    SubMatch(s, p, i, 0, |p|);
    assert forall k :: i <= k < i + |p| ==> s[k] == p[k - i] && p[k - i] in p;
    assert s[|u|] == ' ';
  }

  lemma MatchLeft(u: string, back: string, p: string, i: int)
    requires MatchAt(u + back, p, i) && i + |p| <= |u|
    ensures Contains(u, p)
  {
    var s := u + back;
    MatchWithin(s, p, i, 0, |u|);
    assert s[0..|u|] == u;
  }

  lemma MatchRight(front: string, t: string, p: string, i: int)
    requires MatchAt(front + t, p, i) && |front| <= i
    ensures Contains(t, p)
  {
    var s := front + t;
    MatchWithin(s, p, i, |front|, |s|);
    assert s[|front|..|s|] == t;
  }

  // Without spaces, a pattern is in two words exactly when it is in one of them.
  lemma ContainsAcross(u: string, t: string, p: string)
    requires ' ' !in p
    ensures Contains(u + " " + t, p) <==> Contains(u, p) || Contains(t, p)
  {
    hide Contains, MatchAt;
    var s := u + " " + t;
    if Contains(s, p) {
      var i := FindMatch(s, p);
      MatchOffSpace(u, t, p, i);
      if i + |p| <= |u| {
        assert s == u + (" " + t);
        MatchLeft(u, " " + t, p, i);
      } else {
        MatchRight(u + " ", t, p, i);
      }
    }
    if Contains(u, p) {
      ContainsIn("", u, " " + t, p);
      assert "" + u + (" " + t) == s;
    }
    if Contains(t, p) {
      ContainsIn(u + " ", t, "", p);
      assert u + " " + t + "" == s;
    }
  }

  // ---------- lines and trimming ----------

  lemma SpaceTailAcross(a: string, b: string)
    requires b != "" && (a == "" || a[|a| - 1] <= '\U{7F}')
    ensures SpaceTail(a + b) == SpaceTail(b)
  {
  }

  // Trimming reaches into the front only when all of the back is white space.
  lemma {:induction false} TrimRightAcross(a: string, b: string)
    requires a == "" || a[|a| - 1] <= '\U{7F}'
    ensures TrimRight(a + b) == if TrimRight(b) == "" then TrimRight(a) else a + TrimRight(b)
    decreases |b|
  {
    hide SpaceTail;
    if b == "" {
      assert a + b == a;
    } else {
      SpaceTailAcross(a, b);
      var n := SpaceTail(b);
      if n > 0 {
        assert (a + b)[..|a + b| - n] == a + b[..|b| - n];
        TrimRightAcross(a, b[..|b| - n]);
      }
    }
  }

  lemma {:induction false} TrimRightKeeps(s: string, i: nat)
    requires i < |s| && s[i] <= '\U{7F}' && !IsAsciiSpace(s[i])
    ensures i < |TrimRight(s)| && TrimRight(s) <= s
    decreases |s|
  {
    var n := SpaceTail(s);
    if n == 0 {
    } else {
      assert i < |s| - n;
      TrimRightKeeps(s[..|s| - n], i);
    }
  }

  lemma {:induction false} JoinLast(front: seq<string>, last: string, sep: string)
    requires front != []
    ensures Join(front + [last], sep) == Join(front, sep) + sep + last
    decreases |front|
  {
    if |front| == 1 {
      assert (front + [last])[1..] == [last];
    } else {
      JoinLast(front[1..], last, sep);
      assert (front + [last])[1..] == front[1..] + [last];
      assert front[0] + sep + (Join(front[1..], sep) + sep + last) ==
          front[0] + sep + Join(front[1..], sep) + sep + last;
    }
  }

  lemma TrimSpaceAfter(s: string)
    ensures TrimRight(s + " ") == TrimRight(s) && TrimRight(s + "\n") == TrimRight(s)
  {
    assert (s + " ")[..|s|] == s && (s + "\n")[..|s|] == s;
  }

  lemma JoinFirst(lines: seq<string>, sep: string)
    requires lines != [] && lines[0] != ""
    ensures Join(lines, sep) != "" && Join(lines, sep)[0] == lines[0][0]
  {
  }

  lemma {:induction false} JoinAvoids(words: seq<string>, sep: string, c: char)
    requires c !in sep && forall u :: u in words ==> c !in u
    ensures c !in Join(words, sep)
    decreases |words|
  {
    if |words| <= 1 {
    } else {
      JoinAvoids(words[1..], sep, c);
    }
  }

  // Trimming lines that each end in a newline trims only the last of them.
  lemma LinesTrim(lines: seq<string>)
    requires lines != [] && lines[0] != "" && SpaceHead(lines[0]) == 0 && lines[0][0] <= '\U{7F}'
    requires TrimRight(lines[|lines| - 1]) != ""
    ensures TrimSpace(Join(lines, "\n") + "\n") == Join(lines[..|lines| - 1] + [TrimRight(lines[|lines| - 1])], "\n")
  {
    hide TrimRight, TrimLeft, Join, SpaceHead;
    var text, front, last := Join(lines, "\n"), lines[..|lines| - 1], lines[|lines| - 1];
    TrimSpaceAfter(text);
    JoinFirst(lines, "\n");
    PlainStart(lines[0], text + "\n");
    assert lines == front + [last];
    if front == [] {
      JoinOne(last, "\n");
      JoinOne(TrimRight(last), "\n");
      assert front + [TrimRight(last)] == [TrimRight(last)] && lines == [last];
    } else {
      JoinLast(front, last, "\n");
      TrimRightAcross(Join(front, "\n") + "\n", last);
      JoinLast(front, TrimRight(last), "\n");
    }
  }

  lemma JoinOne(line: string, sep: string)
    ensures Join([line], sep) == line
  {
  }

  lemma PlainStart(a: string, b: string)
    requires a != "" && b != "" && a[0] == b[0] <= '\U{7F}' && SpaceHead(a) == 0
    ensures TrimLeft(b) == b
  {
  }
}
