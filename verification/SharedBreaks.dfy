// Why the promise of a synced run needs the clone to be in no interrupted rebase as it
// pushes: two runs in one clone, and a trace in which what the first saw never reaches the
// remote branch.
module SharedBreaks {
  import opened Options
  import opened SyncProgram
  import opened GitModel
  import opened Solo
  import opened Shared
  import Fleet
  import QuietRuns
  import SyncErrors
  import Text
  import Search = NestedGit

  // ---------- three events that break a promise ----------

  // The clone once a pull has stopped before replaying anything.
  function Stopped(r: Repo, remote: History): Repo {
    r.(head := remote, saved := Present(r.head), unmerged := true)
  }

  function PullStopped(run: SyncProgram.Run): SyncProgram.Run
    requires run.phase == AskPull
  {
    Advance(run, Failed("conflict"))
  }

  lemma StoppingPull(run: SyncProgram.Run, r: Repo, remote: History)
    requires remote != [] && run.phase == AskPull && r.saved.Absent? && !r.unmerged && r.staged == {}
    ensures Allowed(CommandOf(run), r, remote, Failed("conflict"), Stopped(r, remote), remote)
    ensures PullStopped(run).phase == Done
  {
    hide Changes, SyncErrors.ClassifyGitError, Text.TrimSpace, StatusFits, CountFits, Rebased, Search.Gitlinks,
      SyncErrors.IsNothingToCommit;
  }

  lemma PushLands(run: SyncProgram.Run, s: Repo, remote: History)
    requires run.phase == AskPush && s.head == remote != []
    ensures Allowed(CommandOf(run), s, remote, Output(""), s, remote)
    ensures Advance(run, Output("")) == run.(phase := AskTrigger)
  {
    hide Changes, StatusFits, CountFits, Rebased, Search.Gitlinks, SyncErrors.IsNothingToCommit,
      SyncErrors.ClassifyError, SyncErrors.ClassifyGitError, Text.TrimSpace, Explain, WithStatus;
  }

  lemma TriggerWorks(run: SyncProgram.Run, s: Repo, remote: History)
    requires run.phase == AskTrigger
    ensures Allowed(CommandOf(run), s, remote, Output(""), s, remote)
    ensures Advance(run, Output("")).phase == Done && Advance(run, Output("")).out.status == Synced
  {
    hide Changes, StatusFits, CountFits, Rebased, Search.Gitlinks, SyncErrors.IsNothingToCommit,
      SyncErrors.ClassifyError, SyncErrors.ClassifyGitError, Text.TrimSpace, Explain, WithStatus;
  }

  // From every state in which one run is about to push and another to pull, with no rebase
  // interrupted, no conflict and nothing staged: the pull may stop, the push then succeed
  // without the first run's commits, and that run end synced. What it saw and the remote
  // lacked, the remote still lacks.
  lemma StoppedPullBreaks(w: Clone, i: nat, j: nat) returns (events: seq<Event>, clones: seq<Clone>)
    requires i < |w.sessions| && j < |w.sessions| && i != j
    requires w.sessions[i].run.phase == AskPush && w.sessions[j].run.phase == AskPull
    requires w.repo.saved.Absent? && !w.repo.unmerged && w.repo.staged == {} && w.remote != []
    ensures |events| == 3 && Steps(events, clones) && clones[0] == w
    ensures var last := clones[3];
            && last.remote == w.remote && |last.sessions| == |w.sessions|
            && Idle(last.sessions[i]) && last.sessions[i].run.out.status == Synced
            && last.sessions[i].seen == w.sessions[i].seen && !last.sessions[i].safe
            && (!(w.sessions[i].seen <= Changes(w.remote)) ==> !(last.sessions[i].seen <= Changes(last.remote)))
  {
    hide Changes, Advance, CommandOf, Allowed, PullStopped, Stopped;
    var s := Stopped(w.repo, w.remote);
    StoppedMeans(w.repo, w.remote);
    var x, y := w.sessions[i], w.sessions[j];
    StoppingPull(y.run, w.repo, w.remote);
    PushLands(x.run, s, w.remote);
    TriggerWorks(Advance(x.run, Output("")), s, w.remote);
    var y1 := Ran(y, Failed("conflict"), w.repo);
    var x1 := Ran(x, Output(""), s);
    var x2 := Ran(x1, Output(""), s);
    NoListing(x.run, Output(""));
    NoListing(x1.run, Output(""));
    var w1 := Clone(w.remote, s, w.sessions[j := y1]);
    var w2 := Clone(w.remote, s, w1.sessions[i := x1]);
    var w3 := Clone(w.remote, s, w2.sessions[i := x2]);
    events := [Event.Run(j, Failed("conflict")), Event.Run(i, Output("")), Event.Run(i, Output(""))];
    clones := [w, w1, w2, w3];
    assert Next(w, events[0], w1) && Next(w1, events[1], w2) && Next(w2, events[2], w3);
  }

  lemma StoppedMeans(r: Repo, remote: History)
    ensures Stopped(r, remote).head == remote && Stopped(r, remote).saved.Present?
  {
  }

  lemma NoListing(run: SyncProgram.Run, a: Answer)
    requires run.phase == AskPush || run.phase == AskTrigger
    ensures CommandOf(run) != Status
  {
  }

  // ---------- a run inside a shared clone ----------

  ghost function SeenBy(states: seq<State>, answers: seq<Answer>, n: nat): set<Change>
    requires n <= |answers| < |states|
  {
    if n == 0 then {}
    else
      var x := states[n - 1];
      SeenBy(states, answers, n - 1)
      + if x.run.phase != Done && CommandOf(x.run) == Status && answers[n - 1].Output? then Local(x.repo) else {}
  }

  // A quiet run on its own is a possible run of a session of the clone.
  lemma {:induction false} RunInside(w: Clone, i: nat, states: seq<State>, answers: seq<Answer>, n: nat)
    returns (events: seq<Event>, clones: seq<Clone>)
    requires QuietRun(states, answers) && Ready(states[0].repo) && n <= |answers|
    requires i < |w.sessions| && w.sessions[i] == Session(START, {}, false)
    requires w.repo == states[0].repo && w.remote == states[0].remote
    ensures Steps(events, clones) && clones[0] == w
    ensures var last, session := clones[|events|], w.sessions[i];
            && last.repo == states[n].repo && last.remote == states[n].remote
            && |last.sessions| == |w.sessions|
            && (forall j :: 0 <= j < |w.sessions| && j != i ==> last.sessions[j] == w.sessions[j])
            && last.sessions[i].run == states[n].run && last.sessions[i].seen == SeenBy(states, answers, n)
    decreases n
  {
    hide QuietStep, Changes, Calm, Next, Ran;
    if n == 0 {
      events, clones := [], [w];
    } else {
      events, clones := RunInside(w, i, states, answers, n - 1);
      var before := clones[|events|];
      var x, a, y := states[n - 1], answers[n - 1], states[n];
      assert QuietStep(x, a, y);
      CalmThroughout(states, answers, n - 1);
      QuietIsAllowed(x, a, y, states[0]);
      var after := Clone(y.remote, y.repo, before.sessions[i := Ran(before.sessions[i], a, before.repo)]);
      SessionRuns(before, i, a, after);
      SessionSees(before.sessions[i], a, before.repo);
      StepsExtend(events, clones, Event.Run(i, a), after);
      events, clones := events + [Event.Run(i, a)], clones + [after];
    }
  }

  lemma QuietIsAllowed(x: State, a: Answer, y: State, start: State)
    requires QuietStep(x, a, y) && Calm(x, start)
    ensures x.run.phase != Done && y.run == Advance(x.run, a)
    ensures Allowed(CommandOf(x.run), x.repo, x.remote, a, y.repo, y.remote)
  {
    hide Changes, Step, Advance, Works, Local;
  }

  lemma SessionRuns(w: Clone, i: nat, a: Answer, v: Clone)
    requires i < |w.sessions| && !Idle(w.sessions[i])
    requires Allowed(CommandOf(w.sessions[i].run), w.repo, w.remote, a, v.repo, v.remote)
    requires v.sessions == w.sessions[i := Ran(w.sessions[i], a, w.repo)]
    ensures Next(w, Event.Run(i, a), v)
  {
    hide Allowed, Ran;
  }

  lemma SessionSees(x: Session, a: Answer, r: Repo)
    requires !Idle(x)
    ensures Ran(x, a, r).run == Advance(x.run, a)
    ensures Ran(x, a, r).seen == x.seen + if CommandOf(x.run) == Status && a.Output? then Local(r) else {}
  {
    hide Advance, CommandOf, Local;
  }

  lemma StepsExtend(events: seq<Event>, clones: seq<Clone>, e: Event, w: Clone)
    requires Steps(events, clones) && Next(clones[|events|], e, w)
    ensures Steps(events + [e], clones + [w])
  {
    hide Next;
  }

  lemma StepsJoin(a: seq<Event>, x: seq<Clone>, b: seq<Event>, y: seq<Clone>)
    requires Steps(a, x) && Steps(b, y) && x[|a|] == y[0]
    ensures Steps(a + b, x + y[1..])
  {
    hide Next;
    var events, clones := a + b, x + y[1..];
    forall i | 0 <= i < |events| ensures Next(clones[i], events[i], clones[i + 1]) {
      if i < |a| {
        assert Next(x[i], a[i], x[i + 1]);
      } else {
        assert Next(y[i - |a|], b[i - |a|], y[i - |a| + 1]);
      }
    }
  }

  // ---------- how far a quiet run comes ----------

  lemma {:induction false} FindGate(states: seq<State>, answers: seq<Answer>, gate: Phase, n: nat) returns (k: nat)
    requires QuietRun(states, answers) && states[|answers|].run.out.status == Synced
    requires IsGate(gate) && n < |answers| && Left(states[n].run.phase) >= Left(gate)
    ensures n <= k < |answers| && states[k].run.phase == gate
    decreases |answers| - n
  {
    hide Step, Works, Advance, Left;
    var x, a, y := states[n], answers[n], states[n + 1];
    assert QuietStep(x, a, y);
    if Left(x.run.phase) == Left(gate) {
      SamePhase(x.run.phase, gate);
      k := n;
    } else {
      if y.run.phase == Done {
        EndsAtLast(states, answers, n + 1);
        Fleet.SyncedByTrigger(x.run, a);
        TriggerIsLast(gate);
      }
      NoSkip(x.run, a, gate);
      k := FindGate(states, answers, gate, n + 1);
    }
  }

  lemma EndsAtLast(states: seq<State>, answers: seq<Answer>, n: nat)
    requires QuietRun(states, answers) && n < |states| && states[n].run.phase == Done
    ensures n == |answers|
  {
    hide Step, Works, Advance;
    assert n < |answers| ==> QuietStep(states[n], answers[n], states[n + 1]);
  }

  lemma {:induction false} RemoteBeforePush(states: seq<State>, answers: seq<Answer>, n: nat)
    requires QuietRun(states, answers) && n <= |answers| && Left(states[n].run.phase) >= Left(AskPush)
    ensures states[n].remote == states[0].remote
    decreases n
  {
    hide QuietStep, Advance, Left;
    if n == 0 {
    } else {
      var x, a, y := states[n - 1], answers[n - 1], states[n];
      assert QuietStep(x, a, y);
      QuietRuns.StepGoesOn(x, a, y);
      RemoteBeforePush(states, answers, n - 1);
      OnlyPushMoves(x, a, y);
    }
  }

  lemma OnlyPushMoves(x: State, a: Answer, y: State)
    requires QuietStep(x, a, y) && x.run.phase != AskPush
    ensures y.remote == x.remote
  {
    hide Advance, Works, Changes, StatusFits, CountFits, Rebased;
  }

  // A quiet run of a clone that holds something the remote branch lacks ends synced.
  lemma WorkIsSynced(states: seq<State>, answers: seq<Answer>, c: Change)
    requires QuietRun(states, answers) && Ready(states[0].repo)
    requires c in Local(states[0].repo) && c !in Changes(states[0].remote)
    ensures states[|answers|].run.out.status == Synced
  {
    hide Step, Works, Advance, Local, CommandOf, Changes;
    QuietRunSyncs(states, answers);
    PreflightLists(states, answers);
    var n := |answers| - 1;
    assert QuietStep(states[n], answers[n], states[n + 1]);
    if states[n + 1].run.out.status == Clean {
      Fleet.CleanByCount(states[n].run, answers[n]);
      CountIsEarly();
      RemoteBeforePush(states, answers, n);
      OnlyPushMoves(states[n], answers[n], states[n + 1]);
    }
  }

  lemma CountIsEarly()
    ensures Left(AskAhead) >= Left(AskPush)
  {
  }

  lemma SeenStays(states: seq<State>, answers: seq<Answer>, n: nat)
    requires 0 < n <= |answers| < |states|
    ensures SeenBy(states, answers, n - 1) <= SeenBy(states, answers, n)
  {
    hide Local, CommandOf;
  }

  lemma ListingSeen(states: seq<State>, answers: seq<Answer>, n: nat)
    requires n < |answers| < |states| && states[n].run.phase == AskStatus && answers[n].Output?
    ensures Local(states[n].repo) <= SeenBy(states, answers, n + 1)
  {
    hide Local;
  }

  // What the clone held as the run began is seen by the time of its first listing.
  lemma {:induction false} SeenAfterListing(states: seq<State>, answers: seq<Answer>, n: nat)
    requires QuietRun(states, answers) && Ready(states[0].repo) && LISTING < n <= |answers|
    ensures Local(states[0].repo) <= SeenBy(states, answers, n)
    decreases n
  {
    hide QuietStep, Calm, Local, SeenBy, StatusFits;
    if n == LISTING + 1 {
      PreflightLists(states, answers);
      StatusAnswered(states, answers);
      ListingSeen(states, answers, LISTING);
      CalmThroughout(states, answers, LISTING);
      ListedUntouched(states[LISTING], states[0]);
    } else {
      SeenAfterListing(states, answers, n - 1);
      SeenStays(states, answers, n);
    }
  }

  lemma ListedUntouched(x: State, start: State)
    requires Calm(x, start) && x.run.phase == AskStatus
    ensures Local(x.repo) == Local(start.repo)
  {
    hide Changes;
  }

  // ---------- how long its branch gets ----------

  lemma {:induction false} BranchShort(states: seq<State>, answers: seq<Answer>, n: nat)
    requires QuietRun(states, answers) && n <= |answers|
    requires forall i :: 0 <= i < |answers| ==> QuietRuns.Modest(states[i], states[i + 1])
    requires states[0].remote <= states[0].repo.head
    ensures states[n].remote <= states[n].repo.head && |states[n].repo.head| <= |states[0].repo.head| + n
    ensures states[n].repo.nested == states[0].repo.nested && states[n].repo.gitlinks == states[0].repo.gitlinks
    decreases n
  {
    hide QuietStep;
    if n == 0 {
    } else {
      BranchShort(states, answers, n - 1);
      assert QuietRuns.Modest(states[n - 1], states[n]);
    }
  }

  // ---------- the trace ----------

  const FINISHED := Session(SyncProgram.Run(Done, EMPTY_REPORT, ""), {}, false)

  // A quiet run of a clone that holds c, taken to a gate.
  lemma QuietPrefix(r: Repo, remote: History, c: Change, gate: Phase)
    returns (states: seq<State>, answers: seq<Answer>, k: nat)
    requires Ready(r) && c in Local(r) && c !in Changes(remote) && IsGate(gate)
    requires 1 <= |r.head| < QuietRuns.LIMIT && 1 <= |remote| < QuietRuns.LIMIT
    ensures QuietRun(states, answers) && states[0] == State(START, r, remote)
    ensures forall i :: 0 <= i < |answers| ==> QuietRuns.Modest(states[i], states[i + 1])
    ensures LISTING < k < |answers| && states[k].run.phase == gate && Calm(states[k], states[0])
    ensures states[k].remote == remote && c in SeenBy(states, answers, k)
  {
    hide QuietStep, Calm, Local, Left, QuietRuns.Modest, SeenBy, Changes;
    states, answers := QuietRuns.QuietRunExists(r, remote);
    WorkIsSynced(states, answers, c);
    PreflightLists(states, answers);
    GatesAreLate(gate);
    k := FindGate(states, answers, gate, LISTING);
    CalmThroughout(states, answers, k);
    RemoteBeforePush(states, answers, k);
    SeenAfterListing(states, answers, k);
  }

  lemma GatesAreLate(gate: Phase)
    requires IsGate(gate)
    ensures Left(AskStatus) >= Left(gate) >= Left(AskPush) && gate != AskStatus
  {
  }

  // A run begun in an idle session and taken quietly to a gate.
  lemma RunToGate(w: Clone, i: nat, c: Change, gate: Phase) returns (events: seq<Event>, clones: seq<Clone>)
    requires i < |w.sessions| && Idle(w.sessions[i]) && IsGate(gate)
    requires Ready(w.repo) && c in Local(w.repo) && c !in Changes(w.remote)
    requires w.remote <= w.repo.head && 1 <= |w.remote| && |w.repo.head| < QuietRuns.LIMIT
    ensures Steps(events, clones) && clones[0] == w
    ensures var last := clones[|events|];
            && last.remote == w.remote && |last.sessions| == |w.sessions|
            && (forall j :: 0 <= j < |w.sessions| && j != i ==> last.sessions[j] == w.sessions[j])
            && last.sessions[i].run.phase == gate && c in last.sessions[i].seen
            && Ready(last.repo) && last.repo.staged == {} && c in Local(last.repo)
            && last.remote <= last.repo.head && |last.repo.head| <= |w.repo.head| + 18
  {
    hide Next, QuietStep, Calm, Changes, Local, QuietRuns.Modest, SeenBy, Left;
    var states, answers, k := QuietPrefix(w.repo, w.remote, c, gate);
    BranchShort(states, answers, k);
    StopsEarly(states, answers, k);
    AtGate(states[k], states[0], gate, c);
    var w1 := w.(sessions := w.sessions[i := Session(START, {}, false)]);
    Begins(w, i, w1);
    var e2, x2 := RunInside(w1, i, states, answers, k);
    StepsJoin([Event.Begin(i)], [w, w1], e2, x2);
    EndOfJoin([w, w1], x2);
    events, clones := [Event.Begin(i)] + e2, [w, w1] + x2[1..];
  }

  // A clone in step with its remote branch, and one new edit: two runs in the clone, the
  // first ends synced, and the edit it saw is not on the remote branch.
  lemma SharedPromiseBreaks(base: History, c: Change) returns (events: seq<Event>, clones: seq<Clone>)
    requires base != [] && c !in Changes(base) && |base| + 18 < QuietRuns.LIMIT
    ensures Trace(events, clones)
    ensures clones[0].remote == clones[0].repo.head == base && Pending(clones[0].repo) == {c}
    ensures var last := clones[|events|];
            && |last.sessions| == 2 && Idle(last.sessions[0]) && last.sessions[0].run.out.status == Synced
            && c in last.sessions[0].seen && c !in Changes(last.remote) && !last.sessions[0].safe
  {
    hide Next, Changes, Local;
    var r := Repo(base, {}, {c}, false, Absent, Present(base), Absent, [], []);
    EditHeld(r, c);
    var w := Clone(base, r, [FINISHED, FINISHED]);
    var e1, x1 := RunToGate(w, 0, c, AskPush);
    var e2, x2 := RunToGate(x1[|e1|], 1, c, AskPull);
    var e3, x3 := StoppedPullBreaks(x2[|e2|], 0, 1);
    StepsJoin(e1, x1, e2, x2);
    EndOfJoin(x1, x2);
    StepsJoin(e1 + e2, x1 + x2[1..], e3, x3);
    EndOfJoin(x1 + x2[1..], x3);
    events, clones := e1 + e2 + e3, x1 + x2[1..] + x3[1..];
  }

  lemma EndOfJoin(x: seq<Clone>, y: seq<Clone>)
    requires x != [] && y != [] && x[|x| - 1] == y[0]
    ensures (x + y[1..])[|x| + |y| - 2] == y[|y| - 1] && (x + y[1..])[0] == x[0]
  {
  }

  lemma Begins(w: Clone, i: nat, v: Clone)
    requires i < |w.sessions| && Idle(w.sessions[i])
    requires v == w.(sessions := w.sessions[i := Session(START, {}, false)])
    ensures Next(w, Event.Begin(i), v) && Steps([Event.Begin(i)], [w, v])
  {
    hide Allowed, Ran;
  }

  lemma EditHeld(r: Repo, c: Change)
    requires c in r.unstaged
    ensures c in Local(r)
  {
    hide Changes;
  }

  lemma StopsEarly(states: seq<State>, answers: seq<Answer>, k: nat)
    requires QuietRun(states, answers) && k < |states|
    ensures k <= 18
  {
    hide QuietStep;
    PhasesGoOn(states, answers, 0, k);
  }

  lemma AtGate(x: State, start: State, gate: Phase, c: Change)
    requires Calm(x, start) && x.run.phase == gate && IsGate(gate) && c in Local(start.repo)
    ensures c in Local(x.repo) && x.repo.saved.Absent? && !x.repo.unmerged && x.repo.staged == {}
  {
    hide Changes, Local;
  }
}
