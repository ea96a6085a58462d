// A single clone whose commands all work while nobody else touches it or the remote branch.
module Solo {
  import opened Options
  import opened Text
  import opened JsonNumber
  import opened Porcelain
  import opened SyncErrors
  import opened SyncProgram
  import opened GitModel
  import Search = NestedGit

  datatype State = State(run: Run, repo: Repo, remote: History)

  // A commit may find nothing to commit; a token always comes with a remote URL.
  predicate Works(phase: Phase, a: Answer) {
    && (a.Failed? ==> (phase == AskCommit2 || phase == AskCommit3) && IsNothingToCommit(a.error))
    && (phase == AskToken || phase == AskToken2 ==> a.Output? && a.text != "")
  }

  ghost predicate SoloStep(x: State, a: Answer, y: State) {
    && x.run.phase != Done
    && Step(CommandOf(x.run), x.repo, x.remote, a, y.repo, y.remote)
    && y.run == Advance(x.run, a)
  }

  ghost predicate QuietStep(x: State, a: Answer, y: State) {
    SoloStep(x, a, y) && Works(x.run.phase, a)
  }

  ghost predicate QuietRun(states: seq<State>, answers: seq<Answer>) {
    && |states| == |answers| + 1 && states[0].run == START
    && (forall i :: 0 <= i < |answers| ==> QuietStep(states[i], answers[i], states[i + 1]))
    && states[|answers|].run.phase == Done
  }

  // A clone the helper is willing to work on.
  predicate Ready(r: Repo) {
    r.saved.Absent? && !r.unmerged && r.nested == [] && r.gitlinks == []
  }

  predicate InStep(r: Repo, remote: History) {
    Pending(r) == {} && r.head == remote
  }

  // ---------- a quiet run ----------

  predicate Untouched(phase: Phase) {
    Left(phase) >= Left(AskStatus2)
  }

  // What holds between the commands of a quiet run that began at start.
  ghost predicate Calm(x: State, start: State) {
    var r, out := x.repo, x.run.out;
    && r.saved.Absent? && !r.unmerged && Local(start.repo) <= Local(r)
    && (Untouched(x.run.phase) ==> r == start.repo.(fetchHead := r.fetchHead) && x.remote == start.remote)
    && match x.run.phase
       case AskStage => out.nestedGit == []
       case AskFetch => x.run.url != ""
       case AskStatus => x.run.url != "" && r.fetchHead == Present(x.remote)
       case AskBehind => r.fetchHead == Present(x.remote) && !out.unmerged && (!out.dirty ==> Pending(r) == {})
       case AskAhead =>
         && r.fetchHead == Present(x.remote) && !out.unmerged && (!out.dirty ==> Pending(r) == {})
         && (!out.behind ==> x.remote <= r.head)
       case AskCommit2 => r.unstaged == {}
       case AskPull => Pending(r) == {}
       case AskStatus3 => Pending(r) == {} && x.remote <= r.head
       case AskAdd3 => Pending(r) == {} && x.remote <= r.head
       case AskCommit3 => Pending(r) == {} && x.remote <= r.head
       case AskPush => Pending(r) == {} && x.remote <= r.head
       case AskTrigger => InStep(r, x.remote)
       case Done => out.status in {Clean, Synced} && InStep(r, x.remote)
       case _ => true
  }

  lemma QuietFlags(out: Report, text: string, r: Repo)
    requires StatusFits(text, r)
    ensures var o := WithStatus(out, text);
            && o.unmerged == r.unmerged && (!o.dirty ==> Pending(r) == {})
            && Flags(o.dirty, o.ahead, o.behind, o.unmerged) == FlagsOf(StatusLines(text))
  {
    hide StatusFits, FlagsOf, StatusLines, LosesBranch, TellsAhead, TellsBehind, LegalHeader, HeaderFits;
    var h := StatusFlags(text, r);
  }

  lemma NoneCounted(text: string, x: History, y: History)
    requires CountFits(text, x, Present(y))
    ensures CountOf(Output(text)) == 0 <==> x <= y
  {
    hide Decimal, CountOf, Missing;
    CountReads(Missing(x, y));
    MissingNone(x, y);
  }

  lemma CalmLooks(x: State, a: Answer, y: State, start: State)
    requires Ready(start.repo) && Calm(x, start) && QuietStep(x, a, y)
    requires Left(x.run.phase) > Left(AskStatus)
    ensures Calm(y, start)
  {
    hide Changes, StatusFits, CountFits, CountOf, WithStatus, Search.Gitlinks, ClassifyError, ClassifyGitError,
      TrimSpace, Explain, RecoveryFor, Retryable, IsNothingToCommit, Rebased;
  }

  lemma CalmLists(x: State, a: Answer, y: State, start: State)
    requires Ready(start.repo) && Calm(x, start) && QuietStep(x, a, y)
    requires x.run.phase == AskStatus
    ensures Calm(y, start)
  {
    hide Changes, StatusFits, CountFits, CountOf, WithStatus, Search.Gitlinks, ClassifyError, ClassifyGitError,
      TrimSpace, Explain, RecoveryFor, Retryable, IsNothingToCommit, Rebased, Local, FlagsOf,
      StatusLines;
    QuietFlags(x.run.out, a.text, x.repo);
  }

  lemma CalmCounts(x: State, a: Answer, y: State, start: State)
    requires Ready(start.repo) && Calm(x, start) && QuietStep(x, a, y)
    requires x.run.phase == AskBehind || x.run.phase == AskAhead
    ensures Calm(y, start)
  {
    hide Changes, StatusFits, CountFits, CountOf, WithStatus, Search.Gitlinks, ClassifyError, ClassifyGitError,
      TrimSpace, Explain, RecoveryFor, Retryable, IsNothingToCommit, Rebased;
    if x.run.phase == AskBehind { NoneCounted(a.text, x.remote, x.repo.head); }
    if x.run.phase == AskAhead { NoneCounted(a.text, x.repo.head, x.remote); }
  }

  lemma CalmAsksAgain(x: State, a: Answer, y: State, start: State)
    requires Ready(start.repo) && Calm(x, start) && QuietStep(x, a, y)
    requires x.run.phase == AskToken2
    ensures Calm(y, start)
  {
    hide Changes, StatusFits, CountFits, CountOf, WithStatus, Search.Gitlinks, ClassifyError, ClassifyGitError,
      TrimSpace, Explain, RecoveryFor, Retryable, IsNothingToCommit, Rebased, Local;
  }

  lemma CalmLooksAgain(x: State, a: Answer, y: State, start: State)
    requires Ready(start.repo) && Calm(x, start) && QuietStep(x, a, y)
    requires x.run.phase == AskStatus2
    ensures Calm(y, start)
  {
    hide Changes, StatusFits, CountFits, CountOf, WithStatus, Search.Gitlinks, ClassifyError, ClassifyGitError,
      TrimSpace, Explain, RecoveryFor, Retryable, IsNothingToCommit, Rebased, Local, FlagsOf, StatusLines;
    QuietFlags(x.run.out, a.text, x.repo);
  }

  lemma CalmStages(x: State, a: Answer, y: State, start: State)
    requires Ready(start.repo) && Calm(x, start) && QuietStep(x, a, y)
    requires x.run.phase == AskAdd2 || x.run.phase == AskCommit2
    ensures Calm(y, start)
  {
    hide Changes, StatusFits, CountFits, CountOf, WithStatus, Search.Gitlinks, ClassifyError, ClassifyGitError,
      TrimSpace, Explain, RecoveryFor, Retryable, IsNothingToCommit, Rebased;
    ChangesSnoc(x.repo.head, x.repo.staged);
  }

  lemma CalmPulls(x: State, a: Answer, y: State, start: State)
    requires Ready(start.repo) && Calm(x, start) && QuietStep(x, a, y)
    requires x.run.phase == AskPull
    ensures Calm(y, start)
  {
    hide Changes, StatusFits, CountFits, CountOf, WithStatus, Search.Gitlinks, ClassifyError, ClassifyGitError,
      TrimSpace, Explain, RecoveryFor, Retryable, IsNothingToCommit;
  }

  lemma CalmListsAgain(x: State, a: Answer, y: State, start: State)
    requires Ready(start.repo) && Calm(x, start) && QuietStep(x, a, y)
    requires x.run.phase == AskStatus3
    ensures Calm(y, start)
  {
    hide Changes, StatusFits, CountFits, CountOf, WithStatus, Search.Gitlinks, ClassifyError, ClassifyGitError,
      TrimSpace, Explain, RecoveryFor, Retryable, IsNothingToCommit, Rebased, Local, FlagsOf, StatusLines;
    QuietFlags(x.run.out, a.text, x.repo);
  }

  lemma CalmCommitsAgain(x: State, a: Answer, y: State, start: State)
    requires Ready(start.repo) && Calm(x, start) && QuietStep(x, a, y)
    requires x.run.phase == AskAdd3 || x.run.phase == AskCommit3
    ensures Calm(y, start)
  {
    hide Changes, StatusFits, CountFits, CountOf, WithStatus, Search.Gitlinks, ClassifyError, ClassifyGitError,
      TrimSpace, Explain, RecoveryFor, Retryable, IsNothingToCommit, Rebased;
  }

  lemma CalmPushes(x: State, a: Answer, y: State, start: State)
    requires Ready(start.repo) && Calm(x, start) && QuietStep(x, a, y)
    requires x.run.phase == AskPush || x.run.phase == AskTrigger
    ensures Calm(y, start)
  {
    hide Changes, StatusFits, CountFits, CountOf, WithStatus, Search.Gitlinks, ClassifyError, ClassifyGitError,
      TrimSpace, Explain, RecoveryFor, Retryable, IsNothingToCommit, Rebased;
    assert Local(x.repo) == Committed(x.repo) || x.run.phase == AskTrigger;
  }

  lemma CalmStep(x: State, a: Answer, y: State, start: State)
    requires Ready(start.repo) && Calm(x, start) && QuietStep(x, a, y)
    ensures Calm(y, start)
  {
    hide Calm, Step, Works, Advance, CommandOf;
    var n := Left(x.run.phase);
    if n > Left(AskStatus) {
      CalmLooks(x, a, y, start);
    } else if n == Left(AskStatus) {
      CalmLists(x, a, y, start);
    } else if n > Left(AskToken2) {
      CalmCounts(x, a, y, start);
    } else if n == Left(AskToken2) {
      CalmAsksAgain(x, a, y, start);
    } else if n == Left(AskStatus2) {
      CalmLooksAgain(x, a, y, start);
    } else if n > Left(AskPull) {
      CalmStages(x, a, y, start);
    } else if n == Left(AskPull) {
      CalmPulls(x, a, y, start);
    } else if n > Left(AskAdd3) {
      CalmListsAgain(x, a, y, start);
    } else if n >= Left(AskCommit3) {
      CalmCommitsAgain(x, a, y, start);
    } else {
      CalmPushes(x, a, y, start);
    }
  }

  lemma {:induction false} CalmThroughout(states: seq<State>, answers: seq<Answer>, n: nat)
    requires QuietRun(states, answers) && Ready(states[0].repo) && n < |states|
    ensures Calm(states[n], states[0])
    decreases n
  {
    hide QuietStep, Calm, Local;
    if n == 0 {
      CalmAtStart(states[0]);
    } else {
      CalmThroughout(states, answers, n - 1);
      var x, y := states[n - 1], states[n];
      assert QuietStep(x, answers[n - 1], y);
      CalmStep(x, answers[n - 1], y, states[0]);
    }
  }

  lemma CalmAtStart(start: State)
    requires start.run == START && Ready(start.repo)
    ensures Calm(start, start)
  {
  }

  // When nothing fails and nobody interferes, a run on a clone it may work on ends clean or
  // synced, with nothing pending, the remote branch at HEAD, and all the clone had in it.
  lemma QuietRunSyncs(states: seq<State>, answers: seq<Answer>)
    requires QuietRun(states, answers) && Ready(states[0].repo)
    ensures var last := states[|answers|];
            && last.run.out.status in {Clean, Synced}
            && InStep(last.repo, last.remote)
            && Local(states[0].repo) <= Changes(last.remote)
            && last.repo.saved.Absent? && !last.repo.unmerged
  {
    hide QuietStep, Changes;
    CalmThroughout(states, answers, |answers|);
  }

  // ---------- running again ----------

  // The branch and the tree are as they were, and so is the remote branch.
  predicate Settled(x: State, start: State) {
    x.repo.head == start.repo.head && Pending(x.repo) == {} && x.remote == start.remote
  }

  lemma SettledStep(x: State, a: Answer, y: State, start: State)
    requires InStep(start.repo, start.remote) && Settled(x, start) && QuietStep(x, a, y)
    requires x.run.phase == AskCommit2 || x.run.phase == AskCommit3 ==> a.Failed?
    ensures Settled(y, start)
  {
    hide Changes, StatusFits, CountFits, CountOf, Advance, IsNothingToCommit, Search.Gitlinks;
  }

  // With nothing staged no commit is made.
  lemma NoCommit(x: State, a: Answer, y: State)
    requires QuietStep(x, a, y) && Pending(x.repo) == {}
    requires x.run.phase == AskCommit2 || x.run.phase == AskCommit3
    ensures a.Failed?
  {
    hide Advance, Works, IsNothingToCommit, Changes, StatusFits, CountFits, Rebased, Search.Gitlinks;
  }

  function FlagsIn(out: Report): Flags {
    Flags(out.dirty, out.ahead, out.behind, out.unmerged)
  }

  // The first listing of the run raised the flags f.
  predicate Told(run: Run, f: Flags) {
    if Left(run.phase) >= Left(AskStatus) then true
    else if run.phase == AskBehind || run.phase == AskAhead then FlagsIn(run.out) == f
    else if run.phase == Done then run.out.status == Clean <==> f == NO_FLAGS
    else f != NO_FLAGS
  }

  lemma ToldStep(x: State, a: Answer, y: State, start: State, f: Flags)
    requires Ready(start.repo) && InStep(start.repo, start.remote) && Calm(x, start) && Settled(x, start)
    requires Told(x.run, f) && QuietStep(x, a, y)
    requires x.run.phase == AskStatus ==> f == FlagsOf(StatusLines(TextOf(a)))
    requires y.run.phase == Done ==> y.run.out.status in {Clean, Synced}
    ensures Told(y.run, f)
  {
    hide Changes, StatusFits, CountFits, CountOf, WithStatus, FlagsOf, StatusLines, Search.Gitlinks, ClassifyError,
      ClassifyGitError, TrimSpace, Explain, RecoveryFor, Retryable, IsNothingToCommit, Rebased;
    if x.run.phase == AskStatus { QuietFlags(x.run.out, a.text, x.repo); }
    if x.run.phase == AskBehind { NoneCounted(a.text, x.remote, x.repo.head); }
    if x.run.phase == AskAhead { NoneCounted(a.text, x.repo.head, x.remote); }
  }

  lemma {:induction false} RerunThroughout(states: seq<State>, answers: seq<Answer>, n: nat, f: Flags)
    requires QuietRun(states, answers) && Ready(states[0].repo) && InStep(states[0].repo, states[0].remote)
             && n < |states|
    requires forall i :: 0 <= i < n && states[i].run.phase == AskStatus ==>
             f == FlagsOf(StatusLines(TextOf(answers[i])))
    ensures Settled(states[n], states[0]) && Told(states[n].run, f)
    decreases n
  {
    hide QuietStep, Calm, InStep, Told, FlagsOf, StatusLines;
    if n == 0 {
      ToldAtStart(f);
      SettledAtStart(states[0]);
    } else {
      RerunThroughout(states, answers, n - 1, f);
      CalmThroughout(states, answers, n - 1);
      CalmThroughout(states, answers, n);
      var x, y, a := states[n - 1], states[n], answers[n - 1];
      assert QuietStep(x, a, y);
      if x.run.phase == AskCommit2 || x.run.phase == AskCommit3 { NoCommit(x, a, y); }
      SettledStep(x, a, y, states[0]);
      CalmEnds(y, states[0]);
      ToldStep(x, a, y, states[0], f);
    }
  }

  lemma CalmEnds(x: State, start: State)
    requires Calm(x, start)
    ensures x.run.phase == Done ==> x.run.out.status in {Clean, Synced}
  {
  }

  lemma ToldAtStart(f: Flags)
    ensures Told(START, f)
  {
  }

  lemma SettledAtStart(start: State)
    requires InStep(start.repo, start.remote)
    ensures Settled(start, start)
  {
  }

  // Every quiet run lists in its sixth command, after the token and the fetch.
  const LISTING := 5

  lemma NextPhase(x: State, a: Answer, y: State, start: State)
    requires Ready(start.repo) && Calm(x, start) && QuietStep(x, a, y) && Left(x.run.phase) > Left(AskStatus)
    ensures Left(y.run.phase) == Left(x.run.phase) - 1
  {
    hide Changes, Local, Search.Gitlinks, ClassifyError, ClassifyGitError, Explain, IsNothingToCommit, StatusFits;
  }

  lemma {:induction false} OnTheWay(states: seq<State>, answers: seq<Answer>, n: nat)
    requires QuietRun(states, answers) && Ready(states[0].repo) && n <= LISTING
    ensures n < |answers| && Left(states[n].run.phase) == Left(AskTopLevel) - n
    decreases n
  {
    hide QuietStep, Calm;
    if n == 0 {
    } else {
      OnTheWay(states, answers, n - 1);
      CalmThroughout(states, answers, n - 1);
      assert QuietStep(states[n - 1], answers[n - 1], states[n]);
      NextPhase(states[n - 1], answers[n - 1], states[n], states[0]);
    }
  }

  lemma PreflightLists(states: seq<State>, answers: seq<Answer>)
    requires QuietRun(states, answers) && Ready(states[0].repo)
    ensures |answers| > LISTING && states[LISTING].run.phase == AskStatus
  {
    hide QuietStep;
    OnTheWay(states, answers, LISTING);
  }

  // Running again where nothing is pending and the remote branch is at HEAD changes neither
  // branch nor tree; the run ends clean or synced, and clean exactly when the first status
  // listing raised no flag.
  lemma RerunStable(states: seq<State>, answers: seq<Answer>)
    requires QuietRun(states, answers) && Ready(states[0].repo) && InStep(states[0].repo, states[0].remote)
    ensures |answers| > LISTING && states[LISTING].run.phase == AskStatus
    ensures var first, last := states[0], states[|answers|];
            && last.repo.head == first.repo.head && Pending(last.repo) == {} && last.remote == first.remote
            && last.run.out.status in {Clean, Synced}
            && (last.run.out.status == Clean <==> FlagsOf(StatusLines(TextOf(answers[LISTING]))) == NO_FLAGS)
  {
    hide QuietStep, FlagsOf, StatusLines, Calm, InStep;
    PreflightLists(states, answers);
    forall i | 0 <= i < |answers| && states[i].run.phase == AskStatus ensures i == LISTING {
      ListsOnce(states, answers, i, LISTING);
    }
    RerunThroughout(states, answers, |answers|, FlagsOf(StatusLines(TextOf(answers[LISTING]))));
    CalmThroughout(states, answers, |answers|);
    CalmEnds(states[|answers|], states[0]);
  }

  // In terms of the branch line: the run ends clean exactly when the line tells neither
  // ahead nor behind and does not lose its branch to trimming.
  lemma RerunCleanByHeader(states: seq<State>, answers: seq<Answer>) returns (h: Header)
    requires QuietRun(states, answers) && Ready(states[0].repo) && InStep(states[0].repo, states[0].remote)
    ensures HeaderFits(h, states[0].repo)
    ensures states[|answers|].run.out.status == Clean <==> !TellsAhead(h) && !TellsBehind(h) && !LosesBranch(h)
  {
    hide QuietStep, FlagsOf, StatusLines, StatusFits, LegalHeader, LosesBranch, TellsAhead, TellsBehind, Calm;
    RerunStable(states, answers);
    StatusAnswered(states, answers);
    h := StatusFlags(TextOf(answers[LISTING]), states[0].repo);
  }

  // The phases of a run never come back.
  lemma {:induction false} PhasesGoOn(states: seq<State>, answers: seq<Answer>, i: nat, j: nat)
    requires QuietRun(states, answers) && i <= j < |states|
    ensures Left(states[j].run.phase) + (j - i) <= Left(states[i].run.phase)
    decreases j - i
  {
    hide Advance, Left, Step, Works;
    if i < j {
      PhasesGoOn(states, answers, i, j - 1);
      assert QuietStep(states[j - 1], answers[j - 1], states[j]);
      AdvanceGoesOn(states[j - 1].run, answers[j - 1]);
    }
  }

  lemma ListsOnce(states: seq<State>, answers: seq<Answer>, i: nat, j: nat)
    requires QuietRun(states, answers) && i < |answers| && j < |answers|
    requires states[i].run.phase == states[j].run.phase
    ensures i == j
  {
    hide QuietStep, Left;
    if i <= j { PhasesGoOn(states, answers, i, j); } else { PhasesGoOn(states, answers, j, i); }
  }

  // A tracking reference that the push by URL left behind keeps the workspace from ever
  // being found clean: every further quiet run goes through to the end.
  lemma StaleUpstreamNeverClean(states: seq<State>, answers: seq<Answer>)
    requires QuietRun(states, answers) && Ready(states[0].repo) && InStep(states[0].repo, states[0].remote)
    requires states[0].repo.upstream.Present? && states[0].repo.upstream.value != states[0].repo.head
    ensures states[|answers|].run.out.status == Synced
  {
    hide QuietStep, InStep, FlagsOf, StatusLines, StatusFits, LegalHeader, LosesBranch, Calm;
    RerunStable(states, answers);
    StatusAnswered(states, answers);
    var h := StatusFlags(TextOf(answers[LISTING]), states[0].repo);
  }

  lemma StatusAnswered(states: seq<State>, answers: seq<Answer>)
    requires QuietRun(states, answers) && Ready(states[0].repo)
    ensures |answers| > LISTING && answers[LISTING].Output? && StatusFits(TextOf(answers[LISTING]), states[0].repo)
  {
    hide StatusFits, Changes, QuietStep, Calm;
    PreflightLists(states, answers);
    CalmThroughout(states, answers, LISTING);
    ListingAnswered(states[LISTING], answers[LISTING], states[LISTING + 1], states[0]);
    FetchHeadUnlisted(TextOf(answers[LISTING]), states[LISTING].repo, states[0].repo);
  }

  lemma ListingAnswered(x: State, a: Answer, y: State, start: State)
    requires Calm(x, start) && QuietStep(x, a, y) && x.run.phase == AskStatus
    ensures a.Output? && StatusFits(a.text, x.repo) && x.repo == start.repo.(fetchHead := x.repo.fetchHead)
  {
    hide StatusFits, Changes, IsNothingToCommit, Advance;
  }

  // A listing does not depend on FETCH_HEAD.
  lemma FetchHeadUnlisted(text: string, r: Repo, s: Repo)
    requires s == r.(fetchHead := s.fetchHead) && StatusFits(text, r)
    ensures StatusFits(text, s)
  {
    hide LegalHeader, LegalEntry, TrimSpace, StatusText, HasUnmerged;
    var h, entries :| Describes(text, h, entries, r);
    assert Describes(text, h, entries, s);
  }

  // A quiet run, and then another from where it ended, if it has brought in no gitlink.
  lemma RunTwice(states: seq<State>, answers: seq<Answer>, again: seq<State>, answers2: seq<Answer>)
    requires QuietRun(states, answers) && Ready(states[0].repo) && QuietRun(again, answers2)
    requires again[0].repo == states[|answers|].repo && again[0].remote == states[|answers|].remote
    requires again[0].repo.nested == [] && again[0].repo.gitlinks == []
    ensures var before, last := states[|answers|], again[|answers2|];
            && last.repo.head == before.repo.head && Pending(last.repo) == Pending(before.repo) == {}
            && last.remote == before.remote == before.repo.head
            && last.run.out.status in {Clean, Synced}
            && |answers2| > LISTING && again[LISTING].run.phase == AskStatus
            && (last.run.out.status == Clean <==> FlagsOf(StatusLines(TextOf(answers2[LISTING]))) == NO_FLAGS)
  {
    hide QuietStep, FlagsOf, StatusLines, Changes;
    QuietRunSyncs(states, answers);
    RerunStable(again, answers2);
  }

  // ---------- a count that fails ----------

  // An empty index lists no gitlink.
  lemma NothingStagedNoGitlinks()
    ensures Search.Gitlinks("") == []
  {
    assert Split("", '\n') == [""];
    assert Search.Fields("") == [];
    assert Search.GitlinkOf("") == [];
    assert [""][..0] == [];
    assert Search.GitlinksIn([""]) == [];
    Search.SortsShort([]);
  }

  // No tracking reference, or one at HEAD.
  predicate CaughtUp(r: Repo) {
    r.upstream.Present? ==> r.upstream.value == r.head
  }

  function QuietHeader(r: Repo): Header {
    var unborn := r.head == [];
    if r.upstream.Present? then Branch(unborn, "main", Tracks("origin/main", NoMarker))
    else if unborn then Branch(true, "main", Untracked)
    else Detached
  }

  lemma NothingListed(r: Repo)
    requires CaughtUp(r)
    ensures var h := QuietHeader(r); HeaderFits(h, r) && !TellsAhead(h) && !TellsBehind(h) && !LosesBranch(h)
    ensures !HasUnmerged([])
  {
  }

  lemma CleanText(r: Repo) returns (text: string)
    requires Pending(r) == {} && !r.unmerged && CaughtUp(r)
    ensures StatusFits(text, r) && FlagsOf(StatusLines(text)) == NO_FLAGS
  {
    hide LegalHeader, LegalEntry, TellsAhead, TellsBehind, LosesBranch, HasUnmerged, StatusText, TrimSpace, FlagsOf,
      StatusLines, QuietHeader;
    NothingListed(r);
    var h := QuietHeader(r);
    text := TrimSpace(StatusText(h, []));
    StatusReads(h, []);
    assert Describes(text, h, [], r);
  }

  // Counting errors are taken for none: whatever a clone has committed and the remote branch
  // holds, a run whose only failures are the counts can end clean.
  lemma UncountedClean(r: Repo, remote: History, url: string) returns (states: seq<State>, answers: seq<Answer>)
    requires Ready(r) && Pending(r) == {} && CaughtUp(r) && url != "" && remote != []
    ensures |answers| == 8 && |states| == 9 && states[0] == State(START, r, remote)
    ensures forall i :: 0 <= i < 8 ==> SoloStep(states[i], answers[i], states[i + 1])
    ensures forall i :: 0 <= i < 8 && answers[i].Failed? ==>
            states[i].run.phase == AskBehind || states[i].run.phase == AskAhead
    ensures states[8].run.phase == Done && states[8].run.out.status == Clean
    ensures states[8].repo.head == r.head && states[8].remote == remote
  {
    hide StatusFits, FlagsOf, StatusLines, Search.Gitlinks, Changes, ClassifyError, ClassifyGitError, TrimSpace,
      RecoveryFor, Retryable, Explain, IsNothingToCommit, SoloStep;
    NothingStagedNoGitlinks();
    var text := CleanText(r);
    var s := r.(fetchHead := Present(remote));
    FetchHeadUnlisted(text, r, s);
    answers := [Output(""), Listed([]), Output(""), Output(url), Output(""), Output(text), Failed(""), Failed("")];
    var clean := EMPTY_REPORT;
    var x0 := State(START, r, remote);
    var x1 := State(Run(AskWalk, clean, ""), r, remote);
    var x2 := State(Run(AskStage, clean, ""), r, remote);
    var x3 := State(Run(AskToken, clean, ""), r, remote);
    var x4 := State(Run(AskFetch, clean, url), r, remote);
    var x5 := State(Run(AskStatus, clean, url), s, remote);
    var x6 := State(Run(AskBehind, clean, url), s, remote);
    var x7 := State(Run(AskAhead, clean, url), s, remote);
    var x8 := State(Run(Done, clean.(status := Clean), url), s, remote);
    states := [x0, x1, x2, x3, x4, x5, x6, x7, x8];
    LookSteps(r, remote);
    FetchSteps(r, remote, url);
    CleanListing(s, remote, url, text);
    CleanCounts(s, remote, url);
    assert SoloStep(states[0], answers[0], states[1]) && SoloStep(states[1], answers[1], states[2])
           && SoloStep(states[2], answers[2], states[3]) && SoloStep(states[3], answers[3], states[4])
           && SoloStep(states[4], answers[4], states[5]) && SoloStep(states[5], answers[5], states[6])
           && SoloStep(states[6], answers[6], states[7]) && SoloStep(states[7], answers[7], states[8]);
  }

  lemma LookSteps(r: Repo, remote: History)
    requires Ready(r)
    ensures var clean := EMPTY_REPORT;
            var x0, x1 := State(START, r, remote), State(Run(AskWalk, clean, ""), r, remote);
            var x2, x3 := State(Run(AskStage, clean, ""), r, remote), State(Run(AskToken, clean, ""), r, remote);
            SoloStep(x0, Output(""), x1) && SoloStep(x1, Listed([]), x2) && SoloStep(x2, Output(""), x3)
  {
    hide Search.Gitlinks, Changes, Explain, StatusFits, CountFits, Rebased, IsNothingToCommit;
    NothingStagedNoGitlinks();
  }

  lemma FetchSteps(r: Repo, remote: History, url: string)
    requires url != "" && remote != []
    ensures var clean := EMPTY_REPORT;
            var x3, x4 := State(Run(AskToken, clean, ""), r, remote), State(Run(AskFetch, clean, url), r, remote);
            var x5 := State(Run(AskStatus, clean, url), r.(fetchHead := Present(remote)), remote);
            SoloStep(x3, Output(url), x4) && SoloStep(x4, Output(""), x5)
  {
    hide Changes, Explain, ClassifyError, ClassifyGitError, StatusFits, CountFits, Rebased, Search.Gitlinks;
  }

  lemma CleanListing(s: Repo, remote: History, url: string, text: string)
    requires StatusFits(text, s) && FlagsOf(StatusLines(text)) == NO_FLAGS
    ensures SoloStep(State(Run(AskStatus, EMPTY_REPORT, url), s, remote), Output(text),
                     State(Run(AskBehind, EMPTY_REPORT, url), s, remote))
  {
    hide StatusFits, FlagsOf, StatusLines, Changes, Explain;
  }

  lemma FailedCountsNone()
    ensures CountOf(Failed("")) == 0
  {
  }

  lemma CleanCounts(s: Repo, remote: History, url: string)
    ensures var x6 := State(Run(AskBehind, EMPTY_REPORT, url), s, remote);
            var x7 := State(Run(AskAhead, EMPTY_REPORT, url), s, remote);
            var x8 := State(Run(Done, EMPTY_REPORT.(status := Clean), url), s, remote);
            SoloStep(x6, Failed(""), x7) && SoloStep(x7, Failed(""), x8)
  {
    hide CountFits, CountOf, Changes, Explain, Search.Gitlinks, StatusFits, IsNothingToCommit;
    FailedCountsNone();
  }

  // Without a remote URL there is no fetch, and the counts are taken against whatever
  // FETCH_HEAD was left: a run in which nothing fails can end clean all the same.
  lemma UnfetchedClean(r: Repo, remote: History) returns (states: seq<State>, answers: seq<Answer>)
    requires Ready(r) && Pending(r) == {} && CaughtUp(r) && r.fetchHead == Present(r.head) && r.head != []
    ensures |answers| == 7 && |states| == 8 && states[0] == State(START, r, remote)
    ensures forall i :: 0 <= i < 7 ==> SoloStep(states[i], answers[i], states[i + 1]) && !answers[i].Failed?
    ensures states[7].run.phase == Done && states[7].run.out.status == Clean
    ensures states[7].repo == r && states[7].remote == remote
  {
    hide StatusFits, FlagsOf, StatusLines, Search.Gitlinks, Changes, ClassifyError, ClassifyGitError, TrimSpace,
      RecoveryFor, Retryable, Explain, IsNothingToCommit, SoloStep, Decimal;
    var text := CleanText(r);
    answers := [Output(""), Listed([]), Output(""), Output(""), Output(text), Output(Decimal(0)), Output(Decimal(0))];
    var clean := EMPTY_REPORT;
    var x0 := State(START, r, remote);
    var x1 := State(Run(AskWalk, clean, ""), r, remote);
    var x2 := State(Run(AskStage, clean, ""), r, remote);
    var x3 := State(Run(AskToken, clean, ""), r, remote);
    var x4 := State(Run(AskStatus, clean, ""), r, remote);
    var x5 := State(Run(AskBehind, clean, ""), r, remote);
    var x6 := State(Run(AskAhead, clean, ""), r, remote);
    var x7 := State(Run(Done, clean.(status := Clean), ""), r, remote);
    states := [x0, x1, x2, x3, x4, x5, x6, x7];
    LookSteps(r, remote);
    NoUrlStep(r, remote);
    CleanListing(r, remote, "", text);
    CleanZeroCounts(r, remote);
    assert SoloStep(states[0], answers[0], states[1]) && SoloStep(states[1], answers[1], states[2])
           && SoloStep(states[2], answers[2], states[3]) && SoloStep(states[3], answers[3], states[4])
           && SoloStep(states[4], answers[4], states[5]) && SoloStep(states[5], answers[5], states[6])
           && SoloStep(states[6], answers[6], states[7]);
  }

  lemma NoUrlStep(r: Repo, remote: History)
    ensures SoloStep(State(Run(AskToken, EMPTY_REPORT, ""), r, remote), Output(""),
                     State(Run(AskStatus, EMPTY_REPORT, ""), r, remote))
  {
    hide Changes, Explain, ClassifyError, StatusFits, CountFits, Rebased, Search.Gitlinks;
  }

  lemma CleanZeroCounts(r: Repo, remote: History)
    requires r.fetchHead == Present(r.head) && r.head != []
    ensures var x5 := State(Run(AskBehind, EMPTY_REPORT, ""), r, remote);
            var x6 := State(Run(AskAhead, EMPTY_REPORT, ""), r, remote);
            var x7 := State(Run(Done, EMPTY_REPORT.(status := Clean), ""), r, remote);
            SoloStep(x5, Output(Decimal(0)), x6) && SoloStep(x6, Output(Decimal(0)), x7)
  {
    hide CountOf, Changes, Explain, Search.Gitlinks, StatusFits, IsNothingToCommit, Decimal;
    MissingNone(r.head, r.head);
    CountReads(0);
  }
}
