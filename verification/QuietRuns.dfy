// The contracts on git leave the helper a way through: every clone it may work on has a
// quiet run.
module QuietRuns {
  import opened Options
  import opened Text
  import opened JsonNumber
  import opened Porcelain
  import opened SyncErrors
  import opened SyncProgram
  import opened GitModel
  import opened Solo
  import Search = NestedGit

  function MarkerFor(head: History, upstream: History): Marker {
    if upstream == head then NoMarker
    else if upstream <= head then AheadBy(1)
    else if head <= upstream then BehindBy(1)
    else AheadAndBehind(1, 1)
  }

  function HeaderFor(r: Repo): Header {
    var unborn := r.head == [];
    if r.upstream.Present? then Branch(unborn, "m", Tracks("o", MarkerFor(r.head, r.upstream.value)))
    else if unborn then Branch(true, "m", Untracked)
    else Detached
  }

  function EntriesFor(r: Repo): seq<Entry> {
    if r.unmerged then [Entry('U', 'U', "f")]
    else if Pending(r) != {} then [Entry('?', '?', "f")]
    else []
  }

  lemma EntriesForFit(r: Repo)
    ensures EntriesFit(EntriesFor(r), r)
  {
    var e := EntriesFor(r);
    assert r.unmerged ==> e[0] in e && IsUnmerged(e[0]);
  }

  lemma HeaderForFits(r: Repo)
    ensures HeaderFits(HeaderFor(r), r)
  {
  }

  // Every state of a clone has a listing.
  lemma Listing(r: Repo) returns (text: string)
    ensures StatusFits(text, r)
  {
    hide EntriesFit, HeaderFits, StatusText, TrimSpace, EntriesFor, HeaderFor;
    EntriesForFit(r);
    HeaderForFits(r);
    text := TrimSpace(StatusText(HeaderFor(r), EntriesFor(r)));
    assert Describes(text, HeaderFor(r), EntriesFor(r), r);
  }

  lemma {:induction false} MissingBounded(x: History, y: History)
    ensures Missing(x, y) <= |x|
    decreases |x|
  {
    if !(x <= y) {
      MissingBounded(x[..|x| - 1], y);
    }
  }

  lemma NothingToCommitTold()
    ensures IsNothingToCommit("nothing to commit")
  {
    hide ToLower, Contains;
    var m := "nothing to commit";
    LowerAscii(m);
    assert ToLower(m) == m;
    ContainsItself(m);
  }

  // A rebase onto the remote branch that brings in all the clone's commits as one.
  function Replayed(r: Repo, remote: History): Repo {
    r.(head := if remote <= r.head then r.head else remote + [Changes(r.head)], fetchHead := Present(remote))
  }

  lemma ReplayedIsRebased(r: Repo, remote: History)
    requires r.saved.Absent? && !r.unmerged && remote != []
    ensures Rebased(r, remote, Replayed(r, remote))
  {
    hide Changes;
    ChangesSnoc(remote, Changes(r.head));
    if remote <= r.head { ChangesGrow(remote, r.head); }
  }

  const LIMIT := 0x8000_0000_0000_0000

  // The step brings in no nested repository, and a clone that has all of the remote branch
  // gains at most a commit and still has it all.
  predicate Modest(x: State, y: State) {
    && y.repo.nested == x.repo.nested && y.repo.gitlinks == x.repo.gitlinks
    && (x.remote <= x.repo.head ==> y.remote <= y.repo.head && |y.repo.head| <= |x.repo.head| + 1)
  }

  // Answers that let the run go on from a calm state.
  lemma QuietNext(x: State, start: State) returns (a: Answer, y: State)
    requires Ready(start.repo) && Calm(x, start) && x.run.phase != Done
    requires 1 <= |start.repo.head| < LIMIT && 1 <= |start.remote| < LIMIT && x.remote != []
    ensures QuietStep(x, a, y) && Modest(x, y) && y.remote != []
  {
    hide Advance, StatusFits, Changes, Rebased, Missing, Decimal, IsNothingToCommit, Local, Search.Gitlinks;
    var r, after := x.repo, x.remote;
    a := Output("");
    match x.run.phase {
      case AskWalk => a := Listed(r.nested);
      case AskStage => NothingStagedNoGitlinks();
      case AskToken => a := Output("u");
      case AskToken2 => a := Output("u");
      case AskFetch => r := r.(fetchHead := Present(x.remote));
      case AskStatus => var text := Listing(r); a := Output(text);
      case AskStatus2 => var text := Listing(r); a := Output(text);
      case AskStatus3 => var text := Listing(r); a := Output(text);
      case AskBehind =>
        MissingBounded(x.remote, r.head);
        a := Output(Decimal(Missing(x.remote, r.head)));
      case AskAhead =>
        MissingBounded(r.head, x.remote);
        a := Output(Decimal(Missing(r.head, x.remote)));
      case AskAdd2 => r := r.(staged := Pending(r), unstaged := {}, unmerged := false);
      case AskAdd3 => r := r.(staged := Pending(r), unstaged := {}, unmerged := false);
      case AskCommit2 => a, r := QuietCommit(r);
      case AskCommit3 => a, r := QuietCommit(r);
      case AskPull =>
        ReplayedIsRebased(r, x.remote);
        r := Replayed(r, x.remote);
      case AskPush => after := r.head;
      case _ =>
    }
    y := State(Advance(x.run, a), r, after);
  }

  lemma QuietCommit(r: Repo) returns (a: Answer, s: Repo)
    ensures a.Output? || (a.Failed? && IsNothingToCommit(a.error))
    ensures if a.Output? then CommitDone(r, s) else s == r && r.staged == {}
    ensures r.head <= s.head && |s.head| <= |r.head| + 1
  {
    hide IsNothingToCommit;
    NothingToCommitTold();
    if r.staged == {} {
      a, s := Failed("nothing to commit"), r;
    } else {
      a, s := Output(""), r.(head := r.head + [r.staged], staged := {});
    }
  }

  // A quiet run begun can be carried to its end.
  lemma {:induction false} QuietRest(states: seq<State>, answers: seq<Answer>)
    returns (all: seq<State>, taken: seq<Answer>)
    requires |states| == |answers| + 1 && states[0].run == START && Ready(states[0].repo)
    requires 1 <= |states[0].repo.head| < LIMIT && 1 <= |states[0].remote| < LIMIT
    requires states[|answers|].remote != []
    requires forall i :: 0 <= i < |answers| ==> QuietStep(states[i], answers[i], states[i + 1])
    requires forall i :: 0 <= i < |answers| ==> Modest(states[i], states[i + 1])
    requires Calm(states[|answers|], states[0])
    ensures QuietRun(all, taken) && all[0] == states[0]
    ensures forall i :: 0 <= i < |taken| ==> Modest(all[i], all[i + 1])
    decreases Left(states[|answers|].run.phase)
  {
    hide QuietStep, Calm, Left, Modest;
    var x := states[|answers|];
    if x.run.phase == Done {
      all, taken := states, answers;
    } else {
      var a, y := QuietNext(x, states[0]);
      CalmStep(x, a, y, states[0]);
      StepGoesOn(x, a, y);
      var more, given := states + [y], answers + [a];
      forall i | 0 <= i < |given| ensures QuietStep(more[i], given[i], more[i + 1]) && Modest(more[i], more[i + 1]) {
        if i < |answers| { assert QuietStep(states[i], answers[i], states[i + 1]) && Modest(states[i], states[i + 1]); }
      }
      all, taken := QuietRest(more, given);
    }
  }

  lemma StepGoesOn(x: State, a: Answer, y: State)
    requires QuietStep(x, a, y)
    ensures Left(y.run.phase) < Left(x.run.phase)
  {
    hide Advance, Left, Step, Works;
    AdvanceGoesOn(x.run, a);
  }

  // Every clone the helper may work on has a quiet run, whatever is pending and whatever
  // the remote branch holds, if both branches have a commit.
  lemma QuietRunExists(r: Repo, remote: History) returns (states: seq<State>, answers: seq<Answer>)
    requires Ready(r) && 1 <= |r.head| < LIMIT && 1 <= |remote| < LIMIT
    ensures QuietRun(states, answers) && states[0] == State(START, r, remote)
    ensures forall i :: 0 <= i < |answers| ==> Modest(states[i], states[i + 1])
  {
    hide QuietStep, Calm, Modest;
    CalmAtStart(State(START, r, remote));
    states, answers := QuietRest([State(START, r, remote)], []);
  }

  // Without a commit on either branch there is none: the fetch or a count fails.
  lemma QuietRunNeedsCommits(states: seq<State>, answers: seq<Answer>)
    requires QuietRun(states, answers) && Ready(states[0].repo)
    ensures states[0].repo.head != [] && states[0].remote != []
  {
    hide QuietStep, Calm;
    PreflightLists(states, answers);
    OnTheWay(states, answers, 4);
    CalmThroughout(states, answers, 4);
    CalmThroughout(states, answers, LISTING);
    assert QuietStep(states[4], answers[4], states[5]) && QuietStep(states[5], answers[5], states[6]);
    SamePhase(states[4].run.phase, AskFetch);
    FetchNeedsRemote(states[4], answers[4], states[5], states[0]);
    ListingThenCount(states[5], answers[5], states[6]);
    CalmThroughout(states, answers, 6);
    assert QuietStep(states[6], answers[6], states[7]);
    CountNeedsHead(states[6], answers[6], states[7], states[0]);
  }

  lemma FetchNeedsRemote(x: State, a: Answer, y: State, start: State)
    requires Calm(x, start) && QuietStep(x, a, y) && x.run.phase == AskFetch
    ensures start.remote != []
  {
    hide Changes, Advance, IsNothingToCommit, Local, StatusFits, CountFits, Rebased, Search.Gitlinks;
  }

  lemma ListingThenCount(x: State, a: Answer, y: State)
    requires QuietStep(x, a, y) && x.run.phase == AskStatus
    ensures y.run.phase == AskBehind
  {
    hide Changes, StatusFits, CountFits, WithStatus, IsNothingToCommit, Rebased, Search.Gitlinks;
  }

  lemma CountNeedsHead(x: State, a: Answer, y: State, start: State)
    requires Calm(x, start) && QuietStep(x, a, y) && x.run.phase == AskBehind
    ensures start.repo.head != []
  {
    hide Changes, Advance, IsNothingToCommit, Local, Decimal, Missing, StatusFits, Rebased, Search.Gitlinks;
  }
}
