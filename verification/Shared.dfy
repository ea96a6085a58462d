// Several runs of the helper in one clone at the same time.
module Shared {
  import opened SyncProgram
  import opened GitModel
  import Fleet
  import SyncErrors
  import Text
  import Search = NestedGit

  // A run in the shared clone, what it has seen, and whether the clone was in no
  // interrupted rebase when the run pushed.
  datatype Session = Session(run: Run, seen: set<Change>, safe: bool)

  datatype Clone = Clone(remote: History, repo: Repo, sessions: seq<Session>)

  datatype Event =
    | Begin(i: nat)
    | Run(i: nat, answer: Answer)
    | LocalActivity
    | TakeOver
    | OtherPush

  predicate Idle(x: Session) {
    x.run.phase == Done
  }

  // The session as a host that has the clone to itself.
  function HostOf(x: Session, repo: Repo): Fleet.Host {
    Fleet.Host(repo, x.run, x.seen, {})
  }

  function Ran(x: Session, a: Answer, r: Repo): Session
    requires !Idle(x)
  {
    var h := Fleet.Ran(HostOf(x, r), a, r);
    Session(h.run, h.seen, if x.run.phase == AskPush then r.saved.Absent? else x.safe)
  }

  // A rebase is refused while changes are staged, so it never takes them out of the index.
  ghost predicate Allowed(command: Command, r: Repo, remote: History, a: Answer, s: Repo, after: History) {
    Step(command, r, remote, a, s, after) && (command.PullRebase? && !Refused(r, s) ==> r.staged == {})
  }

  ghost predicate Next(w: Clone, e: Event, v: Clone) {
    match e
    case Begin(i) =>
      && i < |w.sessions| && Idle(w.sessions[i])
      && v == w.(sessions := w.sessions[i := Session(START, {}, false)])
    case Run(i, a) =>
      && i < |w.sessions| && !Idle(w.sessions[i])
      && Allowed(CommandOf(w.sessions[i].run), w.repo, w.remote, a, v.repo, v.remote)
      && v.sessions == w.sessions[i := Ran(w.sessions[i], a, w.repo)]
    case LocalActivity => KeepsChanges(w.repo, v.repo) && v == w.(repo := v.repo)
    case TakeOver => (forall x :: x in w.sessions ==> Idle(x)) && v == w.(repo := v.repo)
    case OtherPush => w.remote <= v.remote && v == w.(remote := v.remote)
  }

  ghost predicate Initial(w: Clone) {
    forall x :: x in w.sessions ==> Idle(x) && !x.safe
  }

  // Consecutive states, from any state.
  ghost predicate Steps(events: seq<Event>, clones: seq<Clone>) {
    |clones| == |events| + 1 && forall i :: 0 <= i < |events| ==> Next(clones[i], events[i], clones[i + 1])
  }

  ghost predicate Trace(events: seq<Event>, clones: seq<Clone>) {
    Steps(events, clones) && Initial(clones[0])
  }

  // ---------- the invariant ----------

  // While no rebase is interrupted, what a run has seen is where it would be in a clone of
  // its own; what it pushed safely is on the remote.
  ghost predicate SessionFine(x: Session, repo: Repo, remote: History) {
    && (repo.saved.Absent? && !Idle(x) && x.run.phase != AskTrigger ==> Fleet.SeenPlaced(HostOf(x, repo), remote))
    && (x.run.phase == AskTrigger && x.safe ==> x.seen <= Changes(remote))
    && (Idle(x) && x.run.out.status == Synced && x.safe ==> x.seen <= Changes(remote))
  }

  ghost predicate Fine(w: Clone) {
    forall i :: 0 <= i < |w.sessions| ==> SessionFine(w.sessions[i], w.repo, w.remote)
  }

  // No change is taken back out of the tree, the index or the branch.
  ghost predicate KeepsLevels(r: Repo, s: Repo) {
    Committed(r) <= Committed(s) && Staged(r) <= Staged(s) && Local(r) <= Local(s)
  }

  lemma StillFine(x: Session, r: Repo, remote: History, s: Repo, after: History)
    requires SessionFine(x, r, remote) && remote <= after
    requires s.saved.Absent? ==> r.saved.Absent? && KeepsLevels(r, s)
    ensures SessionFine(x, s, after)
  {
    hide Changes, Left;
    ChangesGrow(remote, after);
  }

  // Of all commands, only a rebase that stops takes changes back.
  lemma StepKeepsLevels(command: Command, r: Repo, remote: History, a: Answer, s: Repo, after: History)
    requires Allowed(command, r, remote, a, s, after) && s.saved.Absent?
    ensures r.saved.Absent? && KeepsLevels(r, s)
  {
    hide StatusFits, CountFits, Search.Gitlinks, SyncErrors.IsNothingToCommit, Changes;
    ChangesSnoc(r.head, r.staged);
  }

  lemma OwnStepFine(x: Session, r: Repo, remote: History, a: Answer, s: Repo, after: History)
    requires SessionFine(x, r, remote) && !Idle(x)
    requires Allowed(CommandOf(x.run), r, remote, a, s, after)
    ensures SessionFine(Ran(x, a, r), s, after)
  {
    hide Changes, Step, Advance, CommandOf, Fleet.SeenPlaced, Fleet.Vouches, KeepsLevels;
    var h := HostOf(x, r);
    var run := Advance(x.run, a);
    AdvanceGoesOn(x.run, a);
    if s.saved.Absent? { StepKeepsLevels(CommandOf(x.run), r, remote, a, s, after); }
    if run.phase == Done {
      OwnEndFine(x, r, remote, a, s, after);
    } else if s.saved.Absent? && x.run.phase != AskTrigger {
      if x.run.phase == AskAhead {
        Fleet.RanAheadOn(h, remote, a, s, after);
      } else if InPreflight(x.run.phase) {
        Fleet.RanPreflight(h, remote, a, s, after);
      } else {
        Fleet.RanSync(h, remote, a, s, after);
      }
    }
    if run.phase == AskTrigger { OwnPushFine(x, r, remote, a, s, after); }
  }

  // The push itself: whether it was safe is known as it is made.
  lemma OwnPushFine(x: Session, r: Repo, remote: History, a: Answer, s: Repo, after: History)
    requires SessionFine(x, r, remote) && !Idle(x) && Advance(x.run, a).phase == AskTrigger
    requires Allowed(CommandOf(x.run), r, remote, a, s, after)
    ensures Ran(x, a, r).safe ==> Ran(x, a, r).seen <= Changes(after)
  {
    hide Changes, StatusFits, CountFits, Rebased, Search.Gitlinks, SyncErrors.IsNothingToCommit;
    PushBeforeTrigger(x.run, a);
  }

  lemma PushBeforeTrigger(run: Run, a: Answer)
    requires run.phase != Done && Advance(run, a).phase == AskTrigger
    ensures run.phase == AskPush && !a.Failed?
  {
    hide CountOf, WithStatus, Search.Gitlinks, SyncErrors.ClassifyError, SyncErrors.ClassifyGitError, Text.TrimSpace,
      Explain, SyncErrors.RecoveryFor, SyncErrors.Retryable, SyncErrors.IsNothingToCommit;
  }

  lemma OwnEndFine(x: Session, r: Repo, remote: History, a: Answer, s: Repo, after: History)
    requires SessionFine(x, r, remote) && !Idle(x) && Advance(x.run, a).phase == Done
    requires Allowed(CommandOf(x.run), r, remote, a, s, after)
    ensures SessionFine(Ran(x, a, r), s, after)
  {
    hide Changes, Step, Advance, CommandOf, Fleet.SeenPlaced;
    if Advance(x.run, a).out.status == Synced {
      Fleet.SyncedByTrigger(x.run, a);
      Fleet.TriggerKeeps(HostOf(x, r), remote, a, s, after);
    }
  }

  lemma NextFine(w: Clone, e: Event, v: Clone)
    requires Fine(w) && Next(w, e, v)
    ensures Fine(v) && w.remote <= v.remote && |v.sessions| == |w.sessions|
  {
    hide SessionFine, Step, Changes, Advance, CommandOf, KeepsLevels, Ran;
    match e
    case Begin(i) =>
      forall j | 0 <= j < |w.sessions| ensures SessionFine(v.sessions[j], v.repo, v.remote) {
        if j == i { BeginFine(w.repo, w.remote); }
      }
    case Run(i, a) =>
      var command := CommandOf(w.sessions[i].run);
      StepGrowsRemote(command, w.repo, w.remote, a, v.repo, v.remote);
      if v.repo.saved.Absent? { StepKeepsLevels(command, w.repo, w.remote, a, v.repo, v.remote); }
      forall j | 0 <= j < |w.sessions| ensures SessionFine(v.sessions[j], v.repo, v.remote) {
        if j == i {
          OwnStepFine(w.sessions[i], w.repo, w.remote, a, v.repo, v.remote);
        } else {
          StillFine(w.sessions[j], w.repo, w.remote, v.repo, v.remote);
        }
      }
    case LocalActivity =>
      ActivityKeepsLevels(w.repo, v.repo);
      forall j | 0 <= j < |w.sessions| ensures SessionFine(v.sessions[j], v.repo, v.remote) {
        StillFine(w.sessions[j], w.repo, w.remote, v.repo, v.remote);
      }
    case TakeOver =>
      forall j | 0 <= j < |w.sessions| ensures SessionFine(v.sessions[j], v.repo, v.remote) {
        assert w.sessions[j] in w.sessions;
        IdleStaysFine(w.sessions[j], w.repo, w.remote, v.repo);
      }
    case OtherPush =>
      LevelsStay(w.repo);
      forall j | 0 <= j < |w.sessions| ensures SessionFine(v.sessions[j], v.repo, v.remote) {
        StillFine(w.sessions[j], w.repo, w.remote, v.repo, v.remote);
      }
  }

  lemma IdleStaysFine(x: Session, r: Repo, remote: History, s: Repo)
    requires SessionFine(x, r, remote) && Idle(x)
    ensures SessionFine(x, s, remote)
  {
    hide Changes, Fleet.SeenPlaced;
  }

  lemma ActivityKeepsLevels(r: Repo, s: Repo)
    requires KeepsChanges(r, s)
    ensures s.saved == r.saved && KeepsLevels(r, s)
  {
  }

  lemma LevelsStay(r: Repo)
    ensures KeepsLevels(r, r)
  {
  }

  lemma BeginFine(repo: Repo, remote: History)
    ensures SessionFine(Session(START, {}, false), repo, remote)
  {
    hide Changes;
  }

  lemma {:induction false} TraceFine(events: seq<Event>, clones: seq<Clone>, n: nat)
    requires Trace(events, clones) && n < |clones|
    ensures Fine(clones[n])
    decreases n
  {
    hide Fine, Next;
    if n == 0 {
      InitialFine(clones[0]);
    } else {
      TraceFine(events, clones, n - 1);
      NextFine(clones[n - 1], events[n - 1], clones[n]);
    }
  }

  lemma InitialFine(w: Clone)
    requires Initial(w)
    ensures Fine(w)
  {
    hide Changes, Fleet.SeenPlaced;
    forall i | 0 <= i < |w.sessions| ensures SessionFine(w.sessions[i], w.repo, w.remote) {
      assert w.sessions[i] in w.sessions;
    }
  }

  lemma {:induction false} TraceGrows(events: seq<Event>, clones: seq<Clone>, m: nat, n: nat)
    requires Trace(events, clones) && m <= n < |clones|
    ensures clones[m].remote <= clones[n].remote
    decreases n - m
  {
    hide Fine, Next;
    if m == n {
    } else {
      TraceGrows(events, clones, m, n - 1);
      TraceFine(events, clones, n - 1);
      NextFine(clones[n - 1], events[n - 1], clones[n]);
    }
  }

  // A synced run that pushed while no rebase was interrupted keeps its promise, however
  // many other runs share the clone.
  lemma SafePushKeepsPromise(events: seq<Event>, clones: seq<Clone>, m: nat, n: nat, i: nat)
    requires Trace(events, clones) && m <= n < |clones| && i < |clones[m].sessions|
    requires var x := clones[m].sessions[i]; Idle(x) && x.run.out.status == Synced && x.safe
    ensures clones[m].sessions[i].seen <= Changes(clones[n].remote)
  {
    hide Trace, Changes, Next, Fleet.SeenPlaced;
    TraceGrows(events, clones, m, n);
    TraceFine(events, clones, m);
    ChangesGrow(clones[m].remote, clones[n].remote);
    assert SessionFine(clones[m].sessions[i], clones[m].repo, clones[m].remote);
  }

  // ---------- in terms of events ----------

  // The event is a pull that stops in the middle of its rebase.
  ghost predicate PullStops(w: Clone, e: Event, v: Clone) {
    && e.Run? && e.i < |w.sessions| && w.sessions[e.i].run.phase == AskPull
    && RebaseStopped(w.repo, v.repo)
  }

  // While a run is under way nothing but a run's pull that stops interrupts a rebase, and
  // that run is blocked.
  lemma InterruptedByPull(w: Clone, e: Event, v: Clone)
    requires Next(w, e, v) && !e.TakeOver? && w.repo.saved.Absent? && v.repo.saved.Present?
    ensures PullStops(w, e, v)
    ensures v.sessions[e.i].run.phase == Done && v.sessions[e.i].run.out.status == Blocked
  {
    hide Changes, StatusFits, CountFits, Search.Gitlinks, SyncErrors.IsNothingToCommit, CountOf, WithStatus,
      SyncErrors.ClassifyError, SyncErrors.ClassifyGitError, Text.TrimSpace, Explain, SyncErrors.RecoveryFor,
      SyncErrors.Retryable;
  }

  // A run that goes on after its pull leaves no rebase interrupted.
  lemma OwnPullLeavesNoRebase(w: Clone, i: nat, a: Answer, v: Clone)
    requires Next(w, Event.Run(i, a), v) && w.sessions[i].run.phase == AskPull && v.sessions[i].run.phase != Done
    ensures v.repo.saved.Absent?
  {
    hide Changes, StatusFits, CountFits, Search.Gitlinks, SyncErrors.IsNothingToCommit, SyncErrors.ClassifyError,
      SyncErrors.ClassifyGitError, Text.TrimSpace;
  }

  // The session is under way from one moment to another.
  predicate UnderWay(clones: seq<Clone>, i: nat, m: nat, n: nat) {
    n < |clones| && forall k :: m <= k <= n ==> i < |clones[k].sessions| && !Idle(clones[k].sessions[i])
  }

  ghost predicate NoPullStops(events: seq<Event>, clones: seq<Clone>, m: nat, n: nat) {
    n <= |events| < |clones| && forall k :: m <= k < n ==> !PullStops(clones[k], events[k], clones[k + 1])
  }

  // While a run is under way and no pull stops, no rebase comes to be interrupted.
  lemma {:induction false} StaysUninterrupted(events: seq<Event>, clones: seq<Clone>, i: nat, m: nat, n: nat)
    requires Steps(events, clones) && m <= n < |clones| && clones[m].repo.saved.Absent?
    requires UnderWay(clones, i, m, n) && NoPullStops(events, clones, m, n)
    ensures clones[n].repo.saved.Absent?
    decreases n - m
  {
    hide Next, PullStops;
    if m == n {
    } else {
      StaysUninterrupted(events, clones, i, m, n - 1);
      var w, e, v := clones[n - 1], events[n - 1], clones[n];
      assert Next(w, e, v) && !PullStops(w, e, v);
      NotTakenOver(w, i, e, v);
      if v.repo.saved.Present? { InterruptedByPull(w, e, v); }
    }
  }

  lemma NotTakenOver(w: Clone, i: nat, e: Event, v: Clone)
    requires Next(w, e, v) && i < |w.sessions| && !Idle(w.sessions[i])
    ensures !e.TakeOver?
  {
    hide Allowed, Ran;
    assert w.sessions[i] in w.sessions;
  }

  // What a run has seen by its push is on the remote from then on, unless between its pull
  // and its push the pull of another run has stopped in its rebase.
  lemma PromiseKeptUnlessPullStops(events: seq<Event>, clones: seq<Clone>, i: nat, p: nat, q: nat, n: nat)
    requires Trace(events, clones) && p < q < n < |clones| && UnderWay(clones, i, p, q)
    requires events[p].Run? && events[p].i == i && clones[p].sessions[i].run.phase == AskPull
    requires events[q].Run? && events[q].i == i && clones[q].sessions[i].run.phase == AskPush
    requires i < |clones[q + 1].sessions| && !Idle(clones[q + 1].sessions[i])
    requires NoPullStops(events, clones, p + 1, q)
    ensures clones[q].sessions[i].seen <= Changes(clones[n].remote)
  {
    hide Next, Changes, Fine, PullStops, Initial;
    assert Next(clones[p], events[p], clones[p + 1]) && Next(clones[q], events[q], clones[q + 1]);
    OwnPullLeavesNoRebase(clones[p], i, events[p].answer, clones[p + 1]);
    StaysUninterrupted(events, clones, i, p + 1, q);
    TraceFine(events, clones, q);
    PushPlaces(clones[q], i, events[q].answer, clones[q + 1]);
    TraceGrows(events, clones, q + 1, n);
    ChangesGrow(clones[q + 1].remote, clones[n].remote);
  }

  // A push that is not refused, made while no rebase is interrupted.
  lemma PushPlaces(w: Clone, i: nat, a: Answer, v: Clone)
    requires Fine(w) && Next(w, Event.Run(i, a), v) && w.sessions[i].run.phase == AskPush
    requires !Idle(v.sessions[i]) && w.repo.saved.Absent?
    ensures w.sessions[i].seen <= Changes(v.remote)
  {
    hide Changes, SyncErrors.ClassifyGitError, Text.TrimSpace, StatusFits, CountFits, Rebased, Search.Gitlinks,
      SyncErrors.IsNothingToCommit;
    assert SessionFine(w.sessions[i], w.repo, w.remote);
  }

  // ---------- every synced run has pulled and pushed ----------

  predicate IsGate(phase: Phase) {
    phase == AskPull || phase == AskPush
  }

  // No run goes past its pull or its push without asking for it.
  lemma NoSkip(run: SyncProgram.Run, a: Answer, gate: Phase)
    requires IsGate(gate) && run.phase != Done && Left(run.phase) > Left(gate) && Advance(run, a).phase != Done
    ensures Left(Advance(run, a).phase) >= Left(gate)
  {
    hide SyncErrors.ClassifyError, SyncErrors.ClassifyGitError, Text.TrimSpace, Explain, WithStatus, CountOf,
      Search.Gitlinks, SyncErrors.IsNothingToCommit, SyncErrors.RecoveryFor, SyncErrors.Retryable;
  }

  lemma TriggerIsLast(gate: Phase)
    requires IsGate(gate)
    ensures Left(AskTrigger) < Left(gate)
  {
  }

  // Only its own events move a run that is under way.
  lemma OthersLeave(w: Clone, i: nat, e: Event, v: Clone)
    requires Next(w, e, v) && i < |w.sessions| && !Idle(w.sessions[i]) && e != Event.Begin(i)
    requires e.Run? ==> e.i != i
    ensures i < |v.sessions| && v.sessions[i] == w.sessions[i]
  {
    hide Allowed, Ran;
  }

  lemma OwnMoves(w: Clone, i: nat, a: Answer, v: Clone)
    requires Next(w, Event.Run(i, a), v)
    ensures i < |w.sessions| == |v.sessions| && !Idle(w.sessions[i])
    ensures v.sessions[i] == Ran(w.sessions[i], a, w.repo) && v.sessions[i].run == Advance(w.sessions[i].run, a)
  {
    hide Allowed, Advance, CommandOf;
  }

  ghost predicate EndsSynced(clones: seq<Clone>, i: nat, k: nat, m: nat) {
    && k < m < |clones| && UnderWay(clones, i, k, m - 1)
    && i < |clones[m].sessions| && Idle(clones[m].sessions[i]) && clones[m].sessions[i].run.out.status == Synced
  }

  // The moment at which a run that ends synced asks for its pull or its push.
  lemma {:induction false} FindAsk(events: seq<Event>, clones: seq<Clone>, i: nat, gate: Phase, k: nat, m: nat)
    returns (p: nat)
    requires Steps(events, clones) && EndsSynced(clones, i, k, m) && IsGate(gate)
    requires Left(clones[k].sessions[i].run.phase) >= Left(gate)
    ensures k <= p < m - 1 && events[p].Run? && events[p].i == i
    ensures clones[p].sessions[i].run.phase == gate && !Idle(clones[p + 1].sessions[i])
    decreases m - k
  {
    hide Next, Ran, Advance, Left;
    var w, e, v := clones[k], events[k], clones[k + 1];
    assert Next(w, e, v);
    BeginNeedsIdle(w, i, e, v);
    if e.Run? && e.i == i {
      OwnMoves(w, i, e.answer, v);
      var run := w.sessions[i].run;
      if Idle(v.sessions[i]) {
        assert k + 1 == m;
        Fleet.SyncedByTrigger(run, e.answer);
        TriggerIsLast(gate);
      }
      if Left(run.phase) == Left(gate) {
        SamePhase(run.phase, gate);
        p := k;
      } else {
        NoSkip(run, e.answer, gate);
        p := FindAsk(events, clones, i, gate, k + 1, m);
      }
    } else {
      OthersLeave(w, i, e, v);
      p := FindAsk(events, clones, i, gate, k + 1, m);
    }
  }

  lemma BeginNeedsIdle(w: Clone, i: nat, e: Event, v: Clone)
    requires Next(w, e, v) && i < |w.sessions| && !Idle(w.sessions[i])
    ensures e != Event.Begin(i)
  {
    hide Allowed, Ran;
  }

  // After its push a run sees no more.
  lemma {:induction false} NothingSeenAfterPush(events: seq<Event>, clones: seq<Clone>, i: nat, q: nat, k: nat, m: nat)
    requires Steps(events, clones) && EndsSynced(clones, i, q, m) && q < k <= m
    requires events[q].Run? && events[q].i == i && clones[q].sessions[i].run.phase == AskPush
    requires !Idle(clones[q + 1].sessions[i])
    ensures i < |clones[k].sessions| && clones[k].sessions[i].seen == clones[q].sessions[i].seen
    ensures Idle(clones[k].sessions[i]) || clones[k].sessions[i].run.phase == AskTrigger
    decreases k
  {
    hide Next, Ran, Advance;
    var w, e, v := clones[k - 1], events[k - 1], clones[k];
    assert Next(w, e, v);
    if k == q + 1 {
      OwnMoves(w, i, e.answer, v);
      PushedSees(w.sessions[i], e.answer, w.repo);
    } else {
      NothingSeenAfterPush(events, clones, i, q, k - 1, m);
      BeginNeedsIdle(w, i, e, v);
      if e.Run? && e.i == i {
        OwnMoves(w, i, e.answer, v);
        PushedSees(w.sessions[i], e.answer, w.repo);
      } else {
        OthersLeave(w, i, e, v);
      }
    }
  }

  lemma PushedSees(x: Session, a: Answer, r: Repo)
    requires x.run.phase == AskPush || x.run.phase == AskTrigger
    ensures Ran(x, a, r).seen == x.seen
    ensures Idle(Ran(x, a, r)) || Ran(x, a, r).run.phase == AskTrigger
  {
    hide Changes, SyncErrors.ClassifyError, SyncErrors.ClassifyGitError, Text.TrimSpace;
  }

  // Every run that begins and ends synced has a pull and then a push of its own; what it
  // saw is on the remote from its end on unless between the two another run's pull stops.
  lemma SyncedUnlessPullStops(events: seq<Event>, clones: seq<Clone>, i: nat, b: nat, m: nat, n: nat)
    returns (p: nat, q: nat)
    requires Trace(events, clones) && b < m <= n < |clones|
    requires events[b] == Event.Begin(i) && EndsSynced(clones, i, b + 1, m)
    ensures b < p < q < m && events[p].Run? && events[p].i == i && events[q].Run? && events[q].i == i
    ensures clones[p].sessions[i].run.phase == AskPull && clones[q].sessions[i].run.phase == AskPush
    ensures NoPullStops(events, clones, p + 1, q) ==> clones[m].sessions[i].seen <= Changes(clones[n].remote)
  {
    hide Next, Changes, PullStops, Initial, Left;
    assert Next(clones[b], events[b], clones[b + 1]);
    Begun(clones[b], i, clones[b + 1]);
    PullBeforePush();
    p := FindAsk(events, clones, i, AskPull, b + 1, m);
    q := FindAsk(events, clones, i, AskPush, p, m);
    NothingSeenAfterPush(events, clones, i, q, m, m);
    if NoPullStops(events, clones, p + 1, q) {
      PromiseKeptUnlessPullStops(events, clones, i, p, q, n);
    }
  }

  lemma PullBeforePush()
    ensures Left(AskTopLevel) >= Left(AskPull) > Left(AskPush)
  {
  }

  lemma Begun(w: Clone, i: nat, v: Clone)
    requires Next(w, Event.Begin(i), v)
    ensures i < |v.sessions| && v.sessions[i].run == START
  {
    hide Allowed, Ran;
  }

  // ---------- conservation ----------

  // Whatever the runs and everyone else do while the clone is not taken over, it goes on
  // holding what it held.
  lemma {:induction false} SharedNothingLost(events: seq<Event>, clones: seq<Clone>, m: nat, n: nat)
    requires Steps(events, clones) && m <= n < |clones|
    requires forall k :: m <= k < n ==> !events[k].TakeOver?
    ensures Held(clones[m].repo) <= Held(clones[n].repo)
    decreases n - m
  {
    hide Next, Held;
    if m == n {
    } else {
      SharedNothingLost(events, clones, m, n - 1);
      assert Next(clones[n - 1], events[n - 1], clones[n]);
      NextHolds(clones[n - 1], events[n - 1], clones[n]);
    }
  }

  lemma NextHolds(w: Clone, e: Event, v: Clone)
    requires Next(w, e, v) && !e.TakeOver?
    ensures Held(w.repo) <= Held(v.repo)
  {
    hide Changes, Step, Ran;
    if e.Run? {
      StepHolds(CommandOf(w.sessions[e.i].run), w.repo, w.remote, e.answer, v.repo, v.remote);
    }
  }
}
