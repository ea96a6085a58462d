// Git's short status text with a branch line (`git status --porcelain=v1 --branch`), and
// how the Cloud Sync helper reads it: runGit's trimming, gitStatus and applyStatus.
module Porcelain {
  import opened Text
  import opened JsonNumber

  // ---------- reading ----------

  // strings.TrimRight(line, "\r")
  function TrimReturns(s: string): (t: string)
    ensures t <= s
    decreases |s|
  {
    if s != "" && s[|s| - 1] == '\r' then TrimReturns(s[..|s| - 1]) else s
  }

  // A line keeps everything in front of the carriage returns it ends in.
  lemma {:induction false} TrimsReturns(line: string, n: nat)
    requires line == "" || line[|line| - 1] != '\r'
    ensures TrimReturns(line + seq(n, i => '\r')) == line
    decreases n
  {
    var s := line + seq(n, i => '\r');
    if n == 0 {
      assert s == line;
    } else {
      assert s[..|s| - 1] == line + seq(n - 1, i => '\r');
      TrimsReturns(line, n - 1);
    }
  }

  predicate Blank(s: string) {
    TrimSpace(s) == ""
  }

  // The lines gitStatus keeps of the pieces between newlines.
  function KeptLines(pieces: seq<string>): (lines: seq<string>)
    decreases |pieces|
  {
    if pieces == [] then []
    else
      var n := |pieces| - 1;
      var line := TrimReturns(pieces[n]);
      KeptLines(pieces[..n]) + if Blank(line) then [] else [line]
  }

  function StatusLines(text: string): seq<string> {
    KeptLines(Split(text, '\n'))
  }

  method GitStatus(text: string) returns (lines: seq<string>)
    ensures lines == StatusLines(text)
  {
    hide TrimSpace, TrimReturns;
    var pieces := Split(text, '\n');
    lines := [];
    for i := 0 to |pieces|
      invariant lines == KeptLines(pieces[..i])
    {
      assert pieces[..i + 1][..i] == pieces[..i];
      var line := TrimReturns(pieces[i]);
      if TrimSpace(line) != "" {
        lines := lines + [line];
      }
    }
    assert pieces[..|pieces|] == pieces;
  }

  datatype Flags = Flags(dirty: bool, ahead: bool, behind: bool, unmerged: bool)

  const NO_FLAGS := Flags(false, false, false, false)

  predicate IsUnmergedCode(code: string) {
    'U' in code || code == "AA" || code == "DD"
  }

  function ApplyLine(f: Flags, line: string): Flags {
    if HasPrefix(line, "## ") then f.(ahead := Contains(line, "ahead "), behind := Contains(line, "behind "))
    else f.(dirty := true, unmerged := f.unmerged || IsUnmergedCode(if |line| > 2 then line[..2] else line))
  }

  // The flags after applyStatus has gone over the lines.
  function FlagsOf(lines: seq<string>): Flags
    decreases |lines|
  {
    if lines == [] then NO_FLAGS
    else ApplyLine(FlagsOf(lines[..|lines| - 1]), lines[|lines| - 1])
  }

  // ---------- writing ----------

  datatype Marker = NoMarker | Gone | Different | AheadBy(n: nat) | BehindBy(m: nat) | AheadAndBehind(n: nat, m: nat)

  datatype Tracking = Untracked | Tracks(upstream: string, marker: Marker)

  datatype Header = Detached | Branch(unborn: bool, name: string, tracking: Tracking)

  function MarkerWords(marker: Marker): seq<string> {
    match marker
    case NoMarker => []
    case Gone => ["[gone]"]
    case Different => ["[different]"]
    case AheadBy(n) => ["[ahead", Decimal(n) + "]"]
    case BehindBy(m) => ["[behind", Decimal(m) + "]"]
    case AheadAndBehind(n, m) => ["[ahead", Decimal(n) + ",", "behind", Decimal(m) + "]"]
  }

  function HeaderStart(h: Header): seq<string> {
    match h
    case Detached => ["##", "HEAD", "(no"]
    case Branch(unborn, _, _) => if unborn then ["##", "No", "commits", "yet", "on"] else ["##"]
  }

  function HeaderEnd(h: Header): seq<string> {
    match h
    case Detached => ["branch)"]
    case Branch(_, name, Untracked) => [name]
    case Branch(_, name, Tracks(upstream, marker)) => [name + "..." + upstream] + MarkerWords(marker)
  }

  function HeaderWords(h: Header): seq<string> {
    HeaderStart(h) + HeaderEnd(h)
  }

  function HeaderText(h: Header): string {
    Join(HeaderWords(h), " ")
  }

  datatype Entry = Entry(x: char, y: char, path: string)

  function EntryText(e: Entry): string {
    [e.x, e.y, ' '] + e.path
  }

  function EntryTexts(entries: seq<Entry>): (texts: seq<string>)
    ensures |texts| == |entries|
  {
    seq(|entries|, i requires 0 <= i < |entries| => EntryText(entries[i]))
  }

  // Every line ends in a newline.
  function StatusText(h: Header, entries: seq<Entry>): string {
    Join([HeaderText(h)] + EntryTexts(entries), "\n") + "\n"
  }

  // Git allows no control character and no space in a reference name.
  predicate IsRefName(s: string) {
    s != "" && forall c :: c in s ==> c > ' ' && c != '\U{7F}'
  }

  predicate LegalHeader(h: Header) {
    h.Branch? ==> IsRefName(h.name) && (h.tracking.Tracks? ==> IsRefName(h.tracking.upstream))
  }

  predicate IsUnmerged(e: Entry) {
    [e.x, e.y] in ["DD", "AU", "UD", "UA", "DU", "AA", "UU"]
  }

  predicate LegalEntry(e: Entry) {
    && '\n' !in e.path
    && (IsUnmerged(e)
        || (e.x == e.y && (e.x == '?' || e.x == '!'))
        || (e.x in " MTADRC" && e.y in " MTADRC" && !(e.x == e.y == ' ')))
  }

  // ---------- what the branch line shows ----------

  predicate TellsAhead(h: Header) {
    && h.Branch? && h.tracking.Tracks?
    && var t := h.tracking;
       t.marker.AheadBy? || t.marker.AheadAndBehind? || (t.marker != NoMarker && HasSuffix(t.upstream, "ahead"))
  }

  predicate TellsBehind(h: Header) {
    && h.Branch? && h.tracking.Tracks?
    && var t := h.tracking;
       t.marker.BehindBy? || t.marker.AheadAndBehind? || (t.marker != NoMarker && HasSuffix(t.upstream, "behind"))
  }

  // A lone branch line whose whole name is white space (outside ASCII) loses it to runGit.
  predicate LosesBranch(h: Header) {
    h.Branch? && !h.unborn && h.tracking.Untracked? && TrimRight(h.name) == ""
  }

  // Some word but the last ends in w.
  predicate WordEnds(words: seq<string>, w: string) {
    exists i :: 0 <= i < |words| - 1 && HasSuffix(words[i], w)
  }

  // Where a word and the space after it can stand in the text of a word and more words.
  lemma MatchPlaces(u: string, t: string, w: string, i: int)
    requires ' ' !in u && ' ' !in w && MatchAt(u + " " + t, w + " ", i)
    ensures i > |u| || (i + |w| == |u| && HasSuffix(u, w))
  {
    var s, p := u + " " + t, w + " ";
    SubMatch(s, p, i, 0, |p|);
    assert s[i + |w|] == p[|w|] == ' ';
    assert forall k :: 0 <= k < |u| ==> s[k] == u[k] && u[k] in u;
    assert i + |w| >= |u|;
    assert forall k :: i <= k < i + |w| ==> s[k] == p[k - i] == w[k - i] && w[k - i] in w;
    assert s[|u|] == ' ';
    SubMatch(s, p, i, 0, |w|);
    assert p[..|w|] == w;
    assert i + |w| == |u| ==> s[i..i + |w|] == u[i..];
  }

  lemma SuffixThenSpace(u: string, t: string, w: string)
    requires HasSuffix(u, w)
    ensures Contains(u + " " + t, w + " ")
  {
    var s, p, i := u + " " + t, w + " ", |u| - |w|;
    assert s[i..i + |p|] == u[i..] + " ";
    assert MatchAt(s, p, i);
  }

  lemma WordThenSpace(u: string, t: string, w: string)
    requires ' ' !in u && ' ' !in w
    ensures Contains(u + " " + t, w + " ") <==> HasSuffix(u, w) || Contains(t, w + " ")
  {
    hide Contains, MatchAt, HasSuffix;
    var s, p := u + " " + t, w + " ";
    if Contains(s, p) {
      var i := FindMatch(s, p);
      MatchPlaces(u, t, w, i);
      if i > |u| { MatchRight(u + " ", t, p, i); }
    }
    if HasSuffix(u, w) { SuffixThenSpace(u, t, w); }
    if Contains(t, p) {
      ContainsIn(u + " ", t, "", p);
      assert u + " " + t + "" == s;
    }
  }

  lemma WordAlone(u: string, w: string)
    requires ' ' !in u
    ensures !Contains(u, w + " ")
  {
    var p := w + " ";
    assert forall k :: 0 <= k < |u| ==> u[k] in u;
    forall i | 0 <= i && i + |p| <= |u| ensures !MatchAt(u, p, i) {
      assert u[i..i + |p|][|w|] != p[|w|];
    }
  }

  lemma {:induction false} WordsContain(words: seq<string>, w: string)
    requires words != [] && ' ' !in w && forall u :: u in words ==> ' ' !in u
    ensures Contains(Join(words, " "), w + " ") <==> WordEnds(words, w)
    decreases |words|
  {
    hide Contains, HasSuffix;
    if |words| == 1 {
      WordAlone(words[0], w);
    } else {
      var rest := words[1..];
      WordsContain(rest, w);
      WordThenSpace(words[0], Join(rest, " "), w);
      assert WordEnds(rest, w) ==> WordEnds(words, w) by {
        if WordEnds(rest, w) {
          var i :| 0 <= i < |rest| - 1 && HasSuffix(rest[i], w);
          assert HasSuffix(words[i + 1], w);
        }
      }
      assert WordEnds(words, w) ==> HasSuffix(words[0], w) || WordEnds(rest, w) by {
        if WordEnds(words, w) {
          var i :| 0 <= i < |words| - 1 && HasSuffix(words[i], w);
          if i > 0 { assert HasSuffix(rest[i - 1], w); }
        }
      }
      assert HasSuffix(words[0], w) ==> WordEnds(words, w);
    }
  }

  lemma HeaderWordsPlain(h: Header)
    requires LegalHeader(h)
    ensures HeaderWords(h) != [] && forall u :: u in HeaderWords(h) ==> ' ' !in u
  {
    hide Decimal;
    var words := HeaderWords(h);
    if h.Branch? && h.tracking.Tracks? {
      MarkerPlain(h.tracking.marker);
    }
  }

  lemma MarkerPlain(marker: Marker)
    ensures forall u :: u in MarkerWords(marker) ==> ' ' !in u
  {
    hide Decimal;
    match marker
    case AheadBy(n) => DecimalReads(n);
    case BehindBy(m) => DecimalReads(m);
    case AheadAndBehind(n, m) => DecimalReads(n); DecimalReads(m);
    case _ =>
  }

  // A name ends in w exactly when the part after "..." does.
  lemma UpstreamEnds(name: string, upstream: string, w: string)
    requires '.' !in w
    ensures HasSuffix(name + "..." + upstream, w) <==> HasSuffix(upstream, w)
  {
    var s := name + "..." + upstream;
    if |w| <= |upstream| {
      assert s[|s| - |w|..] == upstream[|upstream| - |w|..];
    } else if |w| <= |s| {
      var k := |w| - |upstream| - 1;
      assert s[|s| - |w|..][k] == '.';
    }
  }

  lemma LastDiffers(u: string, w: string)
    requires u != "" && w != "" && u[|u| - 1] != w[|w| - 1]
    ensures !HasSuffix(u, w)
  {
    assert |w| <= |u| ==> u[|u| - |w|..][|w| - 1] == u[|u| - 1];
  }

  lemma StartEnds(u: string, w: string)
    requires u in ["##", "No", "commits", "yet", "on", "HEAD", "(no"] && (w == "ahead" || w == "behind")
    ensures !HasSuffix(u, w)
  {
    LastDiffers(u, w);
  }

  lemma AheadEnds(w: string)
    requires w == "ahead" || w == "behind"
    ensures HasSuffix("[ahead", w) <==> w == "ahead"
    ensures HasSuffix("[behind", w) <==> w == "behind"
    ensures HasSuffix("behind", w) <==> w == "behind"
  {
    assert "behind"[1..] == "ehind" && "[ahead"[1..] == "ahead" && "[behind"[1..] == "behind"
        && "[behind"[2..] == "ehind";
  }

  predicate AnyEnds(words: seq<string>, w: string) {
    exists u :: u in words && HasSuffix(u, w)
  }

  lemma WordEndsSplit(a: seq<string>, b: seq<string>, w: string)
    requires b != []
    ensures WordEnds(a + b, w) <==> AnyEnds(a, w) || WordEnds(b, w)
  {
    hide HasSuffix;
    var words := a + b;
    if WordEnds(words, w) {
      var i :| 0 <= i < |words| - 1 && HasSuffix(words[i], w);
      if i < |a| { assert words[i] in a; } else { assert HasSuffix(b[i - |a|], w); }
    }
    if AnyEnds(a, w) {
      var u :| u in a && HasSuffix(u, w);
      var i :| 0 <= i < |a| && a[i] == u;
      assert HasSuffix(words[i], w);
    }
    if WordEnds(b, w) {
      var i :| 0 <= i < |b| - 1 && HasSuffix(b[i], w);
      assert HasSuffix(words[|a| + i], w);
    }
  }

  lemma MarkerEnds(marker: Marker, w: string)
    requires w == "ahead" || w == "behind"
    ensures WordEnds(MarkerWords(marker), w) <==>
              marker.AheadAndBehind? || (if w == "ahead" then marker.AheadBy? else marker.BehindBy?)
  {
    hide HasSuffix, Decimal;
    AheadEnds(w);
    var words := MarkerWords(marker);
    match marker
    case AheadBy(n) => assert HasSuffix(words[0], w) <==> w == "ahead";
    case BehindBy(m) => assert HasSuffix(words[0], w) <==> w == "behind";
    case AheadAndBehind(n, m) => assert HasSuffix(words[if w == "ahead" then 0 else 2], w);
    case _ =>
  }

  lemma HeaderStartEnds(h: Header, w: string)
    requires w == "ahead" || w == "behind"
    ensures !AnyEnds(HeaderStart(h), w)
  {
    hide HasSuffix;
    forall u | u in HeaderStart(h) ensures !HasSuffix(u, w) {
      StartEnds(u, w);
    }
  }

  lemma HeaderWordEnds(h: Header, w: string)
    requires LegalHeader(h) && (w == "ahead" || w == "behind")
    ensures WordEnds(HeaderWords(h), w) <==> if w == "ahead" then TellsAhead(h) else TellsBehind(h)
  {
    hide HasSuffix, Decimal, WordEnds, AnyEnds, HeaderStart, MarkerWords;
    HeaderStartEnds(h, w);
    WordEndsSplit(HeaderStart(h), HeaderEnd(h), w);
    if h.Branch? && h.tracking.Tracks? {
      var name, marker := h.name + "..." + h.tracking.upstream, MarkerWords(h.tracking.marker);
      UpstreamEnds(h.name, h.tracking.upstream, w);
      MarkerEnds(h.tracking.marker, w);
      MarkerIsWords(h.tracking.marker);
      if marker == [] {
        assert HeaderEnd(h) == [name];
        LoneWord(name, w);
      } else {
        WordEndsSplit([name], marker, w);
        OneEnds(name, w);
      }
    } else {
      LoneWord(HeaderEnd(h)[0], w);
    }
  }

  lemma MarkerIsWords(marker: Marker)
    ensures MarkerWords(marker) == [] <==> marker == NoMarker
  {
  }

  lemma LoneWord(u: string, w: string)
    ensures !WordEnds([u], w)
  {
  }

  lemma OneEnds(u: string, w: string)
    ensures AnyEnds([u], w) <==> HasSuffix(u, w)
  {
    hide HasSuffix;
    assert [u][0] in [u];
  }

  // ---------- what trimming leaves ----------

  lemma {:induction false} TrimLeftKeeps(s: string, i: nat)
    requires i < |s| && s[i] <= '\U{7F}' && !IsAsciiSpace(s[i])
    ensures TrimLeft(s) != "" && s[i] in TrimLeft(s)
    decreases |s|
  {
    var n := SpaceHead(s);
    if n == 0 {
    } else {
      assert n <= i;
      TrimLeftKeeps(s[n..], i - n);
    }
  }

  lemma NotBlank(s: string, i: nat)
    requires i < |s| && s[i] <= '\U{7F}' && !IsAsciiSpace(s[i])
    ensures !Blank(s)
  {
    hide TrimLeft, TrimRight, IsAsciiSpace;
    TrimLeftKeeps(s, i);
    var t := TrimLeft(s);
    var j :| 0 <= j < |t| && t[j] == s[i];
    TrimRightKeeps(t, j);
  }

  lemma {:induction false} TrimReturnsKeeps(s: string, i: nat)
    requires i < |s| && s[i] != '\r'
    ensures i < |TrimReturns(s)|
    decreases |s|
  {
    if s[|s| - 1] == '\r' {
      TrimReturnsKeeps(s[..|s| - 1], i);
    }
  }

  // ---------- single lines ----------

  // The line still begins with the entry's two letters, the second perhaps lost if a space.
  predicate Shows(line: string, e: Entry) {
    || (|line| >= 2 && line[0] == e.x && line[1] == e.y)
    || (|line| == 1 && line[0] == e.x && e.y == ' ')
  }

  lemma EntryLetters(e: Entry)
    requires LegalEntry(e)
    ensures e.x in " MTADRCU?!" && e.y in " MTADRCU?!" && !(e.x == e.y == ' ')
    ensures IsUnmerged(e) <==> IsUnmergedCode([e.x, e.y])
  {
  }

  lemma LetterPlain(c: char)
    requires c in " MTADRCU?!"
    ensures c <= '\U{7F}' && (IsAsciiSpace(c) <==> c == ' ') && c != '\r' && c != '#' && c != '\n'
  {
  }

  // What runGit and gitStatus leave of an entry's line, the last line of the text or not.
  lemma EntryLine(e: Entry, last: bool)
    requires LegalEntry(e)
    ensures var line := TrimReturns(if last then TrimRight(EntryText(e)) else EntryText(e));
            Shows(line, e) && !Blank(line)
  {
    hide Blank, IsAsciiSpace, LegalEntry, TrimRight, TrimReturns;
    var s := EntryText(e);
    EntryLetters(e);
    LetterPlain(e.x);
    LetterPlain(e.y);
    var i := if e.y == ' ' then 0 else 1;
    TrimRightKeeps(s, i);
    var t := if last then TrimRight(s) else s;
    TrimReturnsKeeps(t, i);
    var line := TrimReturns(t);
    assert line <= t <= s;
    NotBlank(line, i);
  }

  // An entry's line raises the tree flag, and the conflict flag for the seven codes.
  lemma EntryApplies(f: Flags, line: string, e: Entry)
    requires LegalEntry(e) && Shows(line, e)
    ensures ApplyLine(f, line) == f.(dirty := true, unmerged := f.unmerged || IsUnmerged(e))
  {
    hide LegalEntry, IsUnmerged;
    EntryLetters(e);
    LetterPlain(e.x);
    if |line| >= 2 {
      assert (if |line| > 2 then line[..2] else line) == [e.x, e.y];
    } else {
      assert 'U' in [e.x, e.y] <==> 'U' in line;
    }
  }

  // The branch line as gitStatus keeps it.
  function HeaderLine(h: Header, alone: bool): string {
    if alone then TrimRight(HeaderText(h)) else HeaderText(h)
  }

  lemma BareLast(h: Header)
    requires LegalHeader(h) && h.Branch? && h.tracking.Untracked?
    ensures var words := HeaderWords(h); words[|words| - 1] == h.name
    ensures h.name != "" && h.name[|h.name| - 1] > ' '
  {
    hide TrimRight;
    assert h.name[|h.name| - 1] in h.name;
  }

  lemma TrackedLast(h: Header)
    requires LegalHeader(h) && h.Branch? && h.tracking.Tracks? && h.tracking.marker == NoMarker
    ensures var words := HeaderWords(h); var last := words[|words| - 1];
            last != "" && last[|last| - 1] > ' ' && TrimRight(last) != ""
  {
    hide TrimRight, IsAsciiSpace;
    var name, upstream := h.name, h.tracking.upstream;
    var last := name + "..." + upstream;
    assert last[|name|] == '.' && upstream[|upstream| - 1] in upstream;
    PlainMarks();
    TrimRightKeeps(last, |name|);
  }

  lemma MarkedLast(h: Header)
    requires LegalHeader(h) && (h.Branch? ==> h.tracking.Tracks? && h.tracking.marker != NoMarker)
    ensures var words := HeaderWords(h); var last := words[|words| - 1];
            last != "" && last[|last| - 1] > ' ' && TrimRight(last) != ""
  {
    hide TrimRight, IsAsciiSpace, Decimal;
    var words := HeaderWords(h);
    var last := words[|words| - 1];
    assert last != "" && last[|last| - 1] == if h.Detached? then ')' else ']';
    PlainMarks();
    TrimRightKeeps(last, |last| - 1);
  }

  // The branch line's last word keeps something unless it is a bare name of white space.
  lemma LastWordStays(h: Header)
    requires LegalHeader(h)
    ensures var words := HeaderWords(h); var last := words[|words| - 1];
            && last != "" && last[|last| - 1] > ' '
            && (TrimRight(last) == "" <==> h.Branch? && h.tracking.Untracked? && TrimRight(h.name) == "")
  {
    hide TrimRight, HeaderWords, LegalHeader;
    if h.Branch? && h.tracking.Untracked? {
      BareLast(h);
    } else if h.Branch? && h.tracking.marker == NoMarker {
      TrackedLast(h);
    } else {
      MarkedLast(h);
    }
  }

  lemma PlainMarks()
    ensures !IsAsciiSpace('.') && !IsAsciiSpace(']') && !IsAsciiSpace(')')
  {
  }

  lemma StartTrims(h: Header)
    requires h.Branch?
    ensures TrimRight(Join(HeaderStart(h), " ")) == if h.unborn then "## No commits yet on" else "##"
  {
    if h.unborn {
      UnbornText();
    }
  }

  lemma UnbornText()
    ensures Join(["##", "No", "commits", "yet", "on"], " ") == "## No commits yet on"
  {
    assert Join(["yet", "on"], " ") == "yet on";
    assert ["commits", "yet", "on"][1..] == ["yet", "on"];
    assert ["No", "commits", "yet", "on"][1..] == ["commits", "yet", "on"];
    assert ["##", "No", "commits", "yet", "on"][1..] == ["No", "commits", "yet", "on"];
  }

  lemma HeaderLineTrims(h: Header)
    requires LegalHeader(h)
    ensures var words := HeaderWords(h); var last := TrimRight(words[|words| - 1]);
            HeaderLine(h, true) == if last == "" then if h.unborn then "## No commits yet on" else "##"
                                   else Join(words[..|words| - 1] + [last], " ")
  {
    hide TrimRight, HeaderWords, Join;
    LastWordStays(h);
    HeaderWordsPlain(h);
    var words := HeaderWords(h);
    var front, last := words[..|words| - 1], words[|words| - 1];
    assert words == front + [last];
    HeaderFront(h);
    JoinLast(front, last, " ");
    TrimRightAcross(Join(front, " ") + " ", last);
    if TrimRight(last) == "" {
      TrimSpaceAfter(Join(front, " "));
      StartTrims(h);
    } else {
      JoinLast(front, TrimRight(last), " ");
    }
  }

  lemma HeaderFront(h: Header)
    ensures |HeaderWords(h)| >= 2 && HeaderWords(h)[0] == "##"
    ensures h.Branch? && h.tracking.Untracked? ==> HeaderWords(h)[..|HeaderWords(h)| - 1] == HeaderStart(h)
  {
  }

  lemma JoinStarts(words: seq<string>)
    requires |words| >= 2 && words[0] == "##"
    ensures HasPrefix(Join(words, " "), "## ")
  {
  }

  lemma SameEnds(words: seq<string>, last: string, w: string)
    requires words != []
    ensures WordEnds(words[..|words| - 1] + [last], w) <==> WordEnds(words, w)
  {
    hide HasSuffix;
    var other := words[..|words| - 1] + [last];
    assert forall i :: 0 <= i < |words| - 1 ==> other[i] == words[i];
  }

  // What the branch line shows once trimmed.
  lemma HeaderReads(h: Header, alone: bool)
    requires LegalHeader(h)
    ensures var line := HeaderLine(h, alone);
            if alone && LosesBranch(h) then line == "##"
            else
              && HasPrefix(line, "## ")
              && (Contains(line, "ahead ") <==> TellsAhead(h)) && (Contains(line, "behind ") <==> TellsBehind(h))
  {
    hide TrimRight, HeaderWords, Join, Contains, WordEnds, HeaderLine, HasPrefix;
    var words := HeaderWords(h);
    HeaderWordsPlain(h);
    HeaderFront(h);
    HeaderLineTrims(h);
    LastWordStays(h);
    var last := words[|words| - 1];
    if alone && TrimRight(last) == "" {
      assert h.Branch?;
      if h.unborn { UnbornReads(); }
    } else {
      var shown := if alone then words[..|words| - 1] + [TrimRight(last)] else words;
      TrimRightMeaning(last);
      assert HeaderLine(h, alone) == Join(shown, " ") by { HeaderLineWhole(h); }
      assert last in words && ' ' !in TrimRight(last);
      assert forall u :: u in shown ==> u in words || u == TrimRight(last);
      JoinStarts(shown);
      assert "ahead" + " " == "ahead " && "behind" + " " == "behind ";
      WordsContain(shown, "ahead");
      WordsContain(shown, "behind");
      SameEnds(words, TrimRight(last), "ahead");
      SameEnds(words, TrimRight(last), "behind");
      HeaderWordEnds(h, "ahead");
      HeaderWordEnds(h, "behind");
    }
  }

  lemma HeaderLineWhole(h: Header)
    ensures HeaderLine(h, false) == Join(HeaderWords(h), " ")
  {
  }

  lemma UnbornReads()
    ensures var line := "## No commits yet on";
            HasPrefix(line, "## ") && !Contains(line, "ahead ") && !Contains(line, "behind ")
  {
    hide Contains, WordEnds;
    var words := ["##", "No", "commits", "yet", "on"];
    UnbornText();
    assert "ahead" + " " == "ahead " && "behind" + " " == "behind ";
    UnbornEnds("ahead");
    UnbornEnds("behind");
    WordsContain(words, "ahead");
    WordsContain(words, "behind");
  }

  lemma UnbornEnds(w: string)
    requires w == "ahead" || w == "behind"
    ensures !WordEnds(["##", "No", "commits", "yet", "on"], w)
  {
    hide HasSuffix;
    forall u | u in ["##", "No", "commits", "yet", "on"] ensures !HasSuffix(u, w) {
      StartEnds(u, w);
    }
  }

  // ---------- the whole text ----------

  lemma {:induction false} KeptAll(pieces: seq<string>)
    requires forall p :: p in pieces ==> !Blank(TrimReturns(p))
    ensures |KeptLines(pieces)| == |pieces|
    ensures forall i :: 0 <= i < |pieces| ==> KeptLines(pieces)[i] == TrimReturns(pieces[i])
    decreases |pieces|
  {
    hide Blank, TrimReturns;
    if pieces == [] {
    } else {
      KeptAll(pieces[..|pieces| - 1]);
    }
  }

  predicate HasUnmerged(entries: seq<Entry>) {
    exists e :: e in entries && IsUnmerged(e)
  }

  lemma {:induction false} FlagsOfEntries(lines: seq<string>, entries: seq<Entry>)
    requires |lines| == 1 + |entries|
    requires forall i :: 0 <= i < |entries| ==> LegalEntry(entries[i]) && Shows(lines[i + 1], entries[i])
    ensures var f := ApplyLine(NO_FLAGS, lines[0]);
            FlagsOf(lines) == f.(dirty := f.dirty || entries != [], unmerged := f.unmerged || HasUnmerged(entries))
    decreases |entries|
  {
    hide LegalEntry, Shows, IsUnmerged, ApplyLine;
    if entries == [] {
      assert lines[..0] == [];
    } else {
      var n := |entries|;
      FlagsOfEntries(lines[..n], entries[..n - 1]);
      EntryApplies(FlagsOf(lines[..n]), lines[n], entries[n - 1]);
      assert entries == entries[..n - 1] + [entries[n - 1]];
      assert HasUnmerged(entries) <==> HasUnmerged(entries[..n - 1]) || IsUnmerged(entries[n - 1]);
    }
  }

  // The pieces of the status text after runGit's trimming.
  function TrimmedPieces(h: Header, entries: seq<Entry>): (pieces: seq<string>)
    ensures |pieces| == 1 + |entries|
  {
    var n := |entries|;
    if n == 0 then [HeaderLine(h, true)]
    else [HeaderLine(h, false)] + EntryTexts(entries)[..n - 1] + [TrimRight(EntryText(entries[n - 1]))]
  }

  lemma HeaderLast(h: Header)
    requires LegalHeader(h)
    ensures HeaderText(h) != "" && HeaderText(h)[0] == '#' && HeaderText(h)[|HeaderText(h)| - 1] > ' '
  {
    hide HeaderWords, Join, HasPrefix;
    LastWordStays(h);
    HeaderFront(h);
    var words := HeaderWords(h);
    JoinLast(words[..|words| - 1], words[|words| - 1], " ");
    assert words == words[..|words| - 1] + [words[|words| - 1]];
    HeaderReads(h, false);
    assert HasPrefix(HeaderText(h), "## ");
    PrefixFirst(HeaderText(h));
  }

  lemma PrefixFirst(s: string)
    requires HasPrefix(s, "## ")
    ensures s != "" && s[0] == '#'
  {
  }

  lemma TextTrims(h: Header, entries: seq<Entry>)
    requires LegalHeader(h) && forall e :: e in entries ==> LegalEntry(e)
    ensures TrimSpace(StatusText(h, entries)) == Join(TrimmedPieces(h, entries), "\n")
  {
    hide TrimRight, TrimLeft, HeaderText, EntryText, LegalEntry, LegalHeader, Blank, TrimReturns;
    HeaderLast(h);
    HashIsPlain(HeaderText(h));
    var n := |entries|;
    var lines := [HeaderText(h)] + EntryTexts(entries);
    if n > 0 {
      assert entries[n - 1] in entries;
      EntryLine(entries[n - 1], true);
      BlankIfEmpty(TrimRight(lines[n]));
    }
    LinesTrim(lines);
    assert lines[..n] + [TrimRight(lines[n])] == TrimmedPieces(h, entries);
  }

  lemma HashIsPlain(s: string)
    requires s != "" && s[0] == '#'
    ensures SpaceHead(s) == 0 && TrimRight(s) != ""
  {
    hide TrimRight;
    TrimRightKeeps(s, 0);
  }

  lemma BlankIfEmpty(s: string)
    ensures s == "" ==> Blank(TrimReturns(s))
  {
  }

  lemma PiecesWhole(h: Header, entries: seq<Entry>)
    requires LegalHeader(h) && forall e :: e in entries ==> LegalEntry(e)
    ensures forall p :: p in TrimmedPieces(h, entries) ==> '\n' !in p
  {
    hide TrimRight, LegalHeader, HeaderWords, Join;
    HeaderNoBreak(h);
    TrimRightMeaning(HeaderText(h));
    forall e | e in entries ensures '\n' !in EntryText(e) && '\n' !in TrimRight(EntryText(e)) {
      EntryLetters(e);
      LetterPlain(e.x);
      LetterPlain(e.y);
      TrimRightMeaning(EntryText(e));
    }
    forall p | p in TrimmedPieces(h, entries) ensures '\n' !in p {
      var i :| 0 <= i <= |entries| && TrimmedPieces(h, entries)[i] == p;
      if i > 0 { assert entries[i - 1] in entries; }
    }
  }

  lemma HeaderNoBreak(h: Header)
    requires LegalHeader(h)
    ensures '\n' !in HeaderText(h)
  {
    hide Decimal;
    var words := HeaderWords(h);
    if h.Branch? && h.tracking.Tracks? {
      MarkerNoBreak(h.tracking.marker);
    }
    JoinAvoids(words, " ", '\n');
  }

  lemma MarkerNoBreak(marker: Marker)
    ensures forall u :: u in MarkerWords(marker) ==> '\n' !in u
  {
    hide Decimal;
    match marker
    case AheadBy(n) => DecimalReads(n);
    case BehindBy(m) => DecimalReads(m);
    case AheadAndBehind(n, m) => DecimalReads(n); DecimalReads(m);
    case _ =>
  }

  // The line gitStatus keeps of each piece.
  lemma PiecesKept(h: Header, entries: seq<Entry>)
    requires LegalHeader(h) && forall e :: e in entries ==> LegalEntry(e)
    ensures var pieces := TrimmedPieces(h, entries);
            && TrimReturns(pieces[0]) == HeaderLine(h, entries == []) && !Blank(pieces[0])
            && forall i :: 0 <= i < |entries| ==>
                 Shows(TrimReturns(pieces[i + 1]), entries[i]) && !Blank(TrimReturns(pieces[i + 1]))
  {
    hide TrimRight, LegalHeader, LegalEntry, HeaderText, EntryText, TrimReturns, Blank, Shows;
    var pieces := TrimmedPieces(h, entries);
    HeaderKept(h, entries == []);
    forall i | 0 <= i < |entries|
      ensures Shows(TrimReturns(pieces[i + 1]), entries[i]) && !Blank(TrimReturns(pieces[i + 1]))
    {
      assert entries[i] in entries;
      EntryLine(entries[i], i == |entries| - 1);
    }
  }

  lemma HeaderKept(h: Header, alone: bool)
    requires LegalHeader(h)
    ensures var line := HeaderLine(h, alone); TrimReturns(line) == line && !Blank(line)
  {
    hide TrimRight, HeaderText, Blank, LegalHeader;
    HeaderLast(h);
    TrimRightMeaning(HeaderText(h));
    TrimRightKeeps(HeaderText(h), 0);
    var line := HeaderLine(h, alone);
    NotBlank(line, 0);
  }

  // The lines gitStatus gives applyStatus.
  lemma LinesKept(h: Header, entries: seq<Entry>)
    requires LegalHeader(h) && forall e :: e in entries ==> LegalEntry(e)
    ensures var lines := KeptLines(TrimmedPieces(h, entries));
            && |lines| == 1 + |entries| && lines[0] == HeaderLine(h, entries == [])
            && forall i :: 0 <= i < |entries| ==> Shows(lines[i + 1], entries[i])
  {
    hide LegalHeader, LegalEntry, HeaderLine, TrimmedPieces, TrimReturns, Blank, Shows, KeptLines;
    var pieces := TrimmedPieces(h, entries);
    PiecesKept(h, entries);
    HeaderKept(h, entries == []);
    PieceHead(h, entries);
    forall p | p in pieces ensures !Blank(TrimReturns(p)) {
      var i :| 0 <= i < |pieces| && pieces[i] == p;
      if i > 0 { assert Shows(TrimReturns(pieces[(i - 1) + 1]), entries[i - 1]); }
    }
    KeptAll(pieces);
  }

  lemma PieceHead(h: Header, entries: seq<Entry>)
    ensures TrimmedPieces(h, entries)[0] == HeaderLine(h, entries == [])
  {
    hide HeaderLine;
  }

  lemma LinesOfText(h: Header, entries: seq<Entry>)
    requires LegalHeader(h) && forall e :: e in entries ==> LegalEntry(e)
    ensures StatusLines(TrimSpace(StatusText(h, entries))) == KeptLines(TrimmedPieces(h, entries))
  {
    hide TrimSpace, LegalHeader, LegalEntry, TrimmedPieces, Join, Split, StatusText, KeptLines;
    TextTrims(h, entries);
    PiecesWhole(h, entries);
    SplitJoin(TrimmedPieces(h, entries), '\n');
  }

  // What applyStatus makes of a status text: the tree flag is raised exactly by entries,
  // the conflict flag exactly by one of the seven codes, and the branch flags exactly by
  // what the branch line tells, which may be an upstream name that ends in the word.
  lemma StatusReads(h: Header, entries: seq<Entry>)
    requires LegalHeader(h) && forall e :: e in entries ==> LegalEntry(e)
    ensures FlagsOf(StatusLines(TrimSpace(StatusText(h, entries)))) ==
            Flags(entries != [] || LosesBranch(h), TellsAhead(h), TellsBehind(h), HasUnmerged(entries))
  {
    hide TrimSpace, LegalHeader, LegalEntry, HeaderLine, Shows, StatusText, StatusLines, KeptLines, TrimmedPieces,
      LosesBranch, TellsAhead, TellsBehind, Contains, HasUnmerged, FlagsOf;
    LinesOfText(h, entries);
    LinesKept(h, entries);
    var lines := KeptLines(TrimmedPieces(h, entries));
    forall i | 0 <= i < |entries| ensures LegalEntry(entries[i]) && Shows(lines[i + 1], entries[i]) {
      assert entries[i] in entries;
    }
    FlagsOfEntries(lines, entries);
    HeaderReads(h, entries == []);
    LostBranchTells(h);
  }

  lemma LostBranchTells(h: Header)
    ensures LosesBranch(h) ==> !TellsAhead(h) && !TellsBehind(h)
    ensures ApplyLine(NO_FLAGS, "##") == NO_FLAGS.(dirty := true)
  {
    assert !HasPrefix("##", "## ");
  }
}
