// The whole text of `git ls-files --stage`, and the gitlinks detectNestedGit finds in it.
module StageText {
  import opened Text
  import opened Sorting
  import opened NestedGit

  datatype Staged = Staged(mode: string, hash: string, stage: string, path: string)

  predicate Legal(e: Staged) {
    IsWord(e.mode) && IsWord(e.hash) && IsWord(e.stage) && '\n' !in e.path
  }

  function Line(e: Staged): string {
    StageLine(e.mode, e.hash, e.stage, e.path)
  }

  function Lines(entries: seq<Staged>): (lines: seq<string>)
    ensures |lines| == |entries|
  {
    seq(|entries|, i requires 0 <= i < |entries| => Line(entries[i]))
  }

  // Every line ends in a newline; an empty index prints nothing.
  function StageText(entries: seq<Staged>): string {
    if entries == [] then "" else Join(Lines(entries), "\n") + "\n"
  }

  // The gitlink an entry is found as, if it is one that is found.
  function Found(e: Staged): seq<string> {
    if e.mode == "160000" && TrimSpace(e.path) != "" && Fields(e.path) != [] then
      [Fields(e.path)[|Fields(e.path)| - 1]]
    else []
  }

  function FoundIn(entries: seq<Staged>): seq<string>
    decreases |entries|
  {
    if entries == [] then [] else FoundIn(entries[..|entries| - 1]) + Found(entries[|entries| - 1])
  }

  // ---------- fields do not see white space at the end ----------

  // One rune of white space.
  predicate IsSpaceRune(r: string) {
    r != "" && SpaceHead(r) == |r|
  }

  lemma SpaceHeadBefore(q: string, r: string)
    requires q != "" && IsSpaceRune(r)
    ensures SpaceHead(q + r) == SpaceHead(q)
  {
  }

  lemma RuneGone(r: string)
    requires IsSpaceRune(r)
    ensures TrimLeft(r) == "" && WordLen(r) == 0
  {
  }

  lemma {:induction false} WordLenBefore(q: string, r: string)
    requires IsSpaceRune(r)
    ensures WordLen(q + r) == WordLen(q)
    decreases |q|
  {
    hide SpaceHead;
    if q == "" {
      RuneGone(r);
      assert q + r == r;
    } else {
      SpaceHeadBefore(q, r);
      assert (q + r)[1..] == q[1..] + r;
      WordLenBefore(q[1..], r);
    }
  }

  lemma {:induction false} TrimLeftBefore(q: string, r: string)
    requires IsSpaceRune(r)
    ensures TrimLeft(q + r) == if TrimLeft(q) == "" then "" else TrimLeft(q) + r
    decreases |q|
  {
    hide SpaceHead;
    if q == "" {
      RuneGone(r);
      assert q + r == r;
    } else {
      SpaceHeadBefore(q, r);
      var n := SpaceHead(q);
      if n > 0 {
        assert (q + r)[n..] == q[n..] + r;
        TrimLeftBefore(q[n..], r);
      }
    }
  }

  lemma {:induction false} FieldsBefore(q: string, r: string)
    requires IsSpaceRune(r)
    ensures Fields(q + r) == Fields(q)
    decreases |q|
  {
    hide SpaceHead, TrimLeft, WordLen;
    TrimLeftBefore(q, r);
    TrimLeftMeaning(q);
    var t := TrimLeft(q);
    if t == "" {
    } else {
      var n := WordLen(t);
      WordLenBefore(t, r);
      assert (t + r)[..n] == t[..n] && (t + r)[n..] == t[n..] + r;
      FieldsBefore(t[n..], r);
    }
  }

  lemma SpaceTailRune(s: string)
    requires SpaceTail(s) > 0
    ensures IsSpaceRune(s[|s| - SpaceTail(s)..])
  {
  }

  lemma {:induction false} FieldsTrimmed(s: string)
    ensures Fields(TrimRight(s)) == Fields(s)
    decreases |s|
  {
    hide SpaceTail, Fields, IsSpaceRune;
    var n := SpaceTail(s);
    if n == 0 {
    } else {
      var q, r := s[..|s| - n], s[|s| - n..];
      SpaceTailRune(s);
      FieldsBefore(q, r);
      assert s == q + r;
      FieldsTrimmed(q);
    }
  }

  // ---------- the lines ----------

  lemma LineMeans(e: Staged)
    requires Legal(e)
    ensures GitlinkOf(Line(e)) == Found(e) && GitlinkOf(TrimRight(Line(e))) == Found(e)
    ensures Found(e) != [] <==> e.mode == "160000" && TrimSpace(e.path) != ""
  {
    hide Fields, TrimSpace, TrimRight, IsWord, StageLine;
    StageLineReads(e.mode, e.hash, e.stage, e.path);
    BlankHasNoFields(e.path);
    FieldsTrimmed(Line(e));
  }

  lemma WordStart(w: string)
    requires IsWord(w)
    ensures w != "" && w[0] <= '\U{7F}' && !IsAsciiSpace(w[0])
  {
    assert w[0] in w;
  }

  lemma LineStart(e: Staged)
    requires Legal(e)
    ensures Line(e) != "" && Line(e)[0] <= '\U{7F}' && SpaceHead(Line(e)) == 0 && TrimRight(Line(e)) != ""
    ensures '\n' !in Line(e) && '\n' !in TrimRight(Line(e))
  {
    hide TrimRight, IsAsciiSpace, IsWord, SpaceHead;
    WordStart(e.mode);
    assert Line(e)[0] == e.mode[0];
    TrimRightKeeps(Line(e), 0);
    TrimRightMeaning(Line(e));
    PlainHead(Line(e));
    LineWhole(e);
  }

  lemma LineWhole(e: Staged)
    requires Legal(e)
    ensures '\n' !in Line(e)
  {
    WordWhole(e.mode);
    WordWhole(e.hash);
    WordWhole(e.stage);
  }

  lemma WordWhole(w: string)
    requires IsWord(w)
    ensures '\n' !in w
  {
  }

  lemma PlainHead(s: string)
    requires s != "" && s[0] <= '\U{7F}' && !IsAsciiSpace(s[0])
    ensures SpaceHead(s) == 0
  {
  }

  // The pieces between newlines once the text is trimmed.
  function Pieces(entries: seq<Staged>): (pieces: seq<string>)
    requires entries != []
    ensures |pieces| == |entries|
  {
    var n := |entries| - 1;
    Lines(entries)[..n] + [TrimRight(Line(entries[n]))]
  }

  lemma TextSplits(entries: seq<Staged>)
    requires entries != [] && forall e :: e in entries ==> Legal(e)
    ensures Split(TrimSpace(StageText(entries)), '\n') == Pieces(entries)
  {
    hide TrimRight, TrimSpace, Join, Split, Line, Legal, SpaceHead;
    var lines, n := Lines(entries), |entries| - 1;
    forall i | 0 <= i <= n
      ensures '\n' !in lines[i] && '\n' !in TrimRight(lines[i])
    {
      assert entries[i] in entries;
      LineStart(entries[i]);
    }
    assert entries[0] in entries && entries[n] in entries;
    LineStart(entries[0]);
    LineStart(entries[n]);
    LinesTrim(lines);
    forall p | p in Pieces(entries) ensures '\n' !in p {
      var i :| 0 <= i <= n && Pieces(entries)[i] == p;
    }
    SplitJoin(Pieces(entries), '\n');
  }

  lemma {:induction false} LinesMean(lines: seq<string>, entries: seq<Staged>)
    requires |lines| == |entries| && forall i :: 0 <= i < |lines| ==> GitlinkOf(lines[i]) == Found(entries[i])
    ensures GitlinksIn(lines) == FoundIn(entries)
    decreases |lines|
  {
    hide GitlinkOf, Found;
    if lines == [] {
    } else {
      LinesMean(lines[..|lines| - 1], entries[..|lines| - 1]);
    }
  }

  lemma NothingStaged()
    ensures GitlinksIn(Split(TrimSpace(""), '\n')) == []
  {
    assert Split("", '\n') == [""];
    assert Fields("") == [];
    assert [""][..0] == [];
  }

  // Printing any index, trimming as runGit does, splitting and collecting gives, sorted,
  // the last word of the path of every gitlink whose path is not blank, and nothing else.
  lemma StageTextReads(entries: seq<Staged>)
    requires forall e :: e in entries ==> Legal(e)
    ensures Gitlinks(TrimSpace(StageText(entries))) == SortStrings(FoundIn(entries))
  {
    hide TrimRight, TrimSpace, Join, Split, Line, Legal, Found, GitlinkOf, Fields, SortStrings, StageText;
    if entries == [] {
      NothingStaged();
      EmptyText();
    } else {
      TextSplits(entries);
      forall i | 0 <= i < |entries| ensures GitlinkOf(Pieces(entries)[i]) == Found(entries[i]) {
        assert entries[i] in entries;
        LineMeans(entries[i]);
      }
      LinesMean(Pieces(entries), entries);
    }
  }

  lemma EmptyText()
    ensures StageText([]) == ""
  {
  }

  // So some gitlink is found exactly if one is staged at a path that is not blank.
  lemma GitlinksFound(entries: seq<Staged>)
    requires forall e :: e in entries ==> Legal(e)
    ensures Gitlinks(TrimSpace(StageText(entries))) != [] <==>
              exists e :: e in entries && e.mode == "160000" && TrimSpace(e.path) != ""
  {
    hide TrimSpace, Legal, Found, SortStrings, StageText, Gitlinks, FoundIn;
    StageTextReads(entries);
    SomeFound(entries);
    var found := FoundIn(entries);
    assert found != [] ==> found[0] in SortStrings(found);
  }

  lemma {:induction false} SomeFound(entries: seq<Staged>)
    requires forall e :: e in entries ==> Legal(e)
    ensures FoundIn(entries) != [] <==> exists e :: e in entries && e.mode == "160000" && TrimSpace(e.path) != ""
    decreases |entries|
  {
    hide TrimSpace, Legal, Found;
    if entries == [] {
    } else {
      var front, last := entries[..|entries| - 1], entries[|entries| - 1];
      assert last in entries && entries == front + [last];
      SomeFound(front);
      LineMeans(last);
    }
  }
}
