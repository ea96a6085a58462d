// What the Cloud Sync helper may rely on git for: small contracts, one for each command it
// runs, over an abstract repository. A command may always fail; the contracts say what
// state it then leaves.
module GitModel {
  import opened Options
  import opened Text
  import opened JsonNumber
  import opened Porcelain
  import opened SyncErrors
  import opened SyncProgram
  import Search = NestedGit

  // An edit, a commit as the edits it records, and a branch as its commits in order.
  type Change = nat

  type History = seq<set<Change>>

  function Changes(h: History): set<Change>
    decreases |h|
  {
    if h == [] then {} else Changes(h[..|h| - 1]) + h[|h| - 1]
  }

  // A clone. In an interrupted rebase saved is the branch as it was before; upstream is the
  // tracking reference of its remote.
  datatype Repo = Repo(
    head: History, staged: set<Change>, unstaged: set<Change>, unmerged: bool,
    fetchHead: Maybe<History>, upstream: Maybe<History>, saved: Maybe<History>,
    nested: seq<string>, gitlinks: seq<string>)

  function Pending(r: Repo): set<Change> {
    r.staged + r.unstaged
  }

  // Changes in commits; also those in the index; also those in the working tree.
  function Committed(r: Repo): set<Change> {
    Changes(r.head)
  }

  function Staged(r: Repo): set<Change> {
    Committed(r) + r.staged
  }

  function Local(r: Repo): set<Change> {
    Staged(r) + r.unstaged
  }

  // Everything the clone still holds, the branch an interrupted rebase started from included.
  function Held(r: Repo): set<Change> {
    Local(r) + if r.saved.Present? then Changes(r.saved.value) else {}
  }

  lemma {:induction false} ChangesGrow(a: History, b: History)
    requires a <= b
    ensures Changes(a) <= Changes(b)
    decreases |b|
  {
    if |a| < |b| {
      ChangesGrow(a, b[..|b| - 1]);
    } else {
      assert a == b;
    }
  }

  lemma ChangesSnoc(h: History, c: set<Change>)
    ensures Changes(h + [c]) == Changes(h) + c
  {
    assert (h + [c])[..|h|] == h;
  }

  // ---------- status ----------

  // The branch line tells how HEAD stands to the tracking reference; porcelain output always
  // counts, so it never says just "different".
  predicate MarkerFits(marker: Marker, head: History, upstream: Maybe<History>) {
    match marker
    case Gone => upstream.Absent?
    case NoMarker => upstream.Present? && upstream.value == head
    case Different => false
    case AheadBy(n) => upstream.Present? && upstream.value < head
    case BehindBy(m) => upstream.Present? && head < upstream.value
    case AheadAndBehind(n, m) => upstream.Present? && !(upstream.value <= head) && !(head <= upstream.value)
  }

  // A branch without commits is unborn, and says so.
  predicate HeaderFits(h: Header, r: Repo) {
    && LegalHeader(h)
    && (r.head == [] <==> h.Branch? && h.unborn)
    && (r.upstream.Present? ==> h.Branch? && h.tracking.Tracks?)
    && (h.Branch? && h.tracking.Tracks? ==> MarkerFits(h.tracking.marker, r.head, r.upstream))
  }

  predicate EntriesFit(entries: seq<Entry>, r: Repo) {
    && (forall e :: e in entries ==> LegalEntry(e))
    && (entries != [] <==> Pending(r) != {} || r.unmerged)
    && (HasUnmerged(entries) <==> r.unmerged)
  }

  ghost predicate Describes(text: string, h: Header, entries: seq<Entry>, r: Repo) {
    HeaderFits(h, r) && EntriesFit(entries, r) && text == TrimSpace(StatusText(h, entries))
  }

  ghost predicate StatusFits(text: string, r: Repo) {
    exists h, entries :: Describes(text, h, entries, r)
  }

  // ---------- counting ----------

  // How many commits of x are not in y.
  function Missing(x: History, y: History): nat
    decreases |x|
  {
    if x <= y then 0 else 1 + Missing(x[..|x| - 1], y)
  }

  // Both ends of a range must name a commit.
  predicate CountFits(text: string, x: History, y: Maybe<History>) {
    && x != [] && y.Present? && y.value != []
    && Missing(x, y.value) < 0x8000_0000_0000_0000 && text == Decimal(Missing(x, y.value))
  }

  // ---------- commands that change something ----------

  predicate Added(r: Repo, s: Repo) {
    s == r.(staged := Pending(r), unstaged := {}, unmerged := false, gitlinks := s.gitlinks)
  }

  predicate PartlyAdded(r: Repo, s: Repo) {
    && s == r.(staged := s.staged, unstaged := s.unstaged, unmerged := s.unmerged, gitlinks := s.gitlinks)
    && r.staged <= s.staged && Pending(r) == Pending(s)
  }

  predicate CommitDone(r: Repo, s: Repo) {
    r.staged != {} && s == r.(head := r.head + [r.staged], staged := {})
  }

  // A finished rebase, onto a branch that exists: HEAD extends the remote branch, has lost no
  // change and invented none; it does not move if it had all of the remote branch already.
  ghost predicate Rebased(r: Repo, remote: History, s: Repo) {
    && remote != [] && r.saved.Absent? && !r.unmerged
    && remote <= s.head && (remote <= r.head ==> s.head == r.head && s.gitlinks == r.gitlinks)
    && Committed(r) <= Committed(s) <= Committed(r) + Changes(remote)
    && Pending(s) == Pending(r) && (s.unmerged ==> Pending(r) != {})
    && s == r.(head := s.head, staged := s.staged, unstaged := s.unstaged, unmerged := s.unmerged,
               fetchHead := Present(remote), gitlinks := s.gitlinks)
  }

  // A rebase that stopped, on a conflict or otherwise; there was none under way before, and
  // the old head is kept.
  predicate RebaseStopped(r: Repo, s: Repo) {
    && r.saved.Absent? && !r.unmerged && s.saved == Present(r.head) && Pending(r) <= Pending(s)
    && s.upstream == r.upstream
  }

  // A push that reached the remote branch.
  predicate Landed(r: Repo, remote: History, after: History) {
    r.head != [] && remote <= r.head && after == r.head
  }

  predicate Refused(r: Repo, s: Repo) {
    s == r.(fetchHead := s.fetchHead)
  }

  // ---------- one command ----------

  // From clone r and the remote branch, the command may give answer a and leave s and the
  // remote branch as after.
  ghost predicate Step(command: Command, r: Repo, remote: History, a: Answer, s: Repo, after: History) {
    && Fits(command, a)
    && (!command.Push? ==> after == remote)
    && match command
       case ShowTopLevel => s == r
       case WalkTree => s == r && a == Listed(r.nested)
       case ListStage => s == r && (a.Output? ==> Search.Gitlinks(a.text) == r.gitlinks)
       case GetToken => s == r
       case Fetch(_) => Refused(r, s) && (a.Output? ==> remote != [] && s.fetchHead == Present(remote))
       case Status => s == r && (a.Output? ==> StatusFits(a.text, r))
       case CountBehind =>
         s == r && (a.Output? ==> r.fetchHead.Present? && CountFits(a.text, r.fetchHead.value, Present(r.head)))
       case CountAhead => s == r && (a.Output? ==> CountFits(a.text, r.head, r.fetchHead))
       case AddAll => if a.Output? then Added(r, s) else PartlyAdded(r, s)
       case Commit =>
         if a.Output? then CommitDone(r, s) else s == r && (a.Failed? && IsNothingToCommit(a.error) ==> r.staged == {})
       case PullRebase(_) =>
         if a.Output? then Rebased(r, remote, s)
         else Refused(r, s) || Rebased(r, remote, s) || (remote != [] && RebaseStopped(r, s))
       case Push(_) => s == r && (Landed(r, remote, after) || (!a.Output? && after == remote))
       case TriggerSync => s == r
  }

  // Anything else that happens in a clone meanwhile: edits, staging, commits, but nothing
  // that takes a change back out of the tree, the index or the branch.
  predicate KeepsChanges(r: Repo, s: Repo) {
    && Committed(r) <= Committed(s) && Staged(r) <= Staged(s) && Local(r) <= Local(s)
    && s.saved == r.saved && s.fetchHead == r.fetchHead
  }

  // ---------- what the contracts give ----------

  // The remote branch only ever grows at its end.
  lemma StepGrowsRemote(command: Command, r: Repo, remote: History, a: Answer, s: Repo, after: History)
    requires Step(command, r, remote, a, s, after)
    ensures remote <= after
  {
    hide StatusFits, CountFits, Rebased, Search.Gitlinks, IsNothingToCommit;
  }

  // No command loses a change the clone holds.
  lemma StepHolds(command: Command, r: Repo, remote: History, a: Answer, s: Repo, after: History)
    requires Step(command, r, remote, a, s, after)
    ensures Held(r) <= Held(s)
  {
    hide StatusFits, CountFits, Search.Gitlinks, IsNothingToCommit, Changes;
    ChangesSnoc(r.head, r.staged);
  }

  // What the flags say of the clone that was listed.
  lemma StatusFlags(text: string, r: Repo) returns (h: Header)
    requires StatusFits(text, r)
    ensures HeaderFits(h, r)
    ensures var f := FlagsOf(StatusLines(text));
            && (f.dirty <==> Pending(r) != {} || r.unmerged || LosesBranch(h))
            && (f.unmerged <==> r.unmerged)
            && (f.ahead <==> TellsAhead(h)) && (f.behind <==> TellsBehind(h))
  {
    hide LegalHeader, LegalEntry, StatusText, TrimSpace, StatusLines, FlagsOf, TellsAhead, TellsBehind, LosesBranch,
      HasUnmerged, MarkerFits;
    var header, entries :| Describes(text, header, entries, r);
    h := header;
    StatusReads(h, entries);
  }

  lemma CountReads(n: nat)
    requires n < 0x8000_0000_0000_0000
    ensures CountOf(Output(Decimal(n))) == n
  {
    hide Decimal, Undecimal, TrimSpace, SpaceHead, SpaceTail;
    DecimalReads(n);
    var s := Decimal(n);
    AllDigitsCount(s);
    DigitsTrimmed(s);
    TrimSpaceKeeps(s);
    assert s[..|s|] == s;
    assert s[0] != '+';
  }

  lemma DigitsTrimmed(s: string)
    requires AllDigits(s)
    ensures Trimmed(s)
  {
  }

  lemma MissingNone(x: History, y: History)
    ensures Missing(x, y) == 0 <==> x <= y
  {
  }
}
