// Any number of clones, each running the helper again and again against one remote branch,
// one command at a time, while others push to the branch and work in the clones.
module Fleet {
  import opened Options
  import opened SyncErrors
  import opened SyncProgram
  import opened GitModel
  import opened Porcelain
  import opened JsonNumber
  import opened Text
  import Search = NestedGit

  // A clone with its current run. seen is what the run saw in its commits and status
  // listings; owed is what the clone held when the run started.
  datatype Host = Host(repo: Repo, run: Run, seen: set<Change>, owed: set<Change>)

  // promised is what runs had seen that told their caller all is on the remote branch.
  datatype World = World(remote: History, hosts: seq<Host>, promised: set<Change>)

  datatype Event =
    | StartRun(i: nat)
    | RunCommand(i: nat, answer: Answer)
    | LocalActivity(i: nat)
    | TakeOver(i: nat)
    | OtherPush

  predicate Idle(h: Host) {
    h.run.phase == Done
  }

  function Started(h: Host): Host {
    Host(h.repo, START, {}, Held(h.repo))
  }

  // Between runs someone may do anything to the clone: resolve a conflict, end a rebase,
  // throw work away. What the last run owed is then settled.
  function TakenOver(h: Host, repo: Repo): Host {
    h.(repo := repo, owed := {})
  }

  // The command's answer is what the run sees; the clone is as the command left it.
  function Ran(h: Host, a: Answer, repo: Repo): Host
    requires !Idle(h)
  {
    var sees := CommandOf(h.run) == Status && a.Output?;
    Host(repo, Advance(h.run, a), if sees then h.seen + Local(h.repo) else h.seen, h.owed)
  }

  // A run vouches for what it saw when it ends synced, or ends clean after fetching from a
  // remote and counting the commits the remote lacks.
  predicate Vouches(h: Host, a: Answer)
    requires !Idle(h)
  {
    var run := Advance(h.run, a);
    run.phase == Done && (run.out.status == Synced || (run.out.status == Clean && h.run.url != "" && a.Output?))
  }

  ghost predicate Next(w: World, e: Event, v: World) {
    match e
    case StartRun(i) =>
      i < |w.hosts| && Idle(w.hosts[i]) && v == w.(hosts := w.hosts[i := Started(w.hosts[i])])
    case RunCommand(i, a) =>
      && i < |w.hosts| == |v.hosts| && !Idle(w.hosts[i])
      && var h, g := w.hosts[i], v.hosts[i];
         && Step(CommandOf(h.run), h.repo, w.remote, a, g.repo, v.remote)
         && g == Ran(h, a, g.repo)
         && v.hosts == w.hosts[i := g]
         && v.promised == if Vouches(h, a) then w.promised + g.seen else w.promised
    case LocalActivity(i) =>
      && i < |w.hosts| == |v.hosts|
      && KeepsChanges(w.hosts[i].repo, v.hosts[i].repo)
      && v == w.(hosts := w.hosts[i := w.hosts[i].(repo := v.hosts[i].repo)])
    case TakeOver(i) =>
      && i < |w.hosts| == |v.hosts| && Idle(w.hosts[i])
      && v == w.(hosts := w.hosts[i := TakenOver(w.hosts[i], v.hosts[i].repo)])
    case OtherPush => w.remote <= v.remote && v == w.(remote := v.remote)
  }

  // At first no run has been made; clones and remote branch may be anything.
  ghost predicate Initial(w: World) {
    && w.promised == {}
    && forall h :: h in w.hosts ==> Idle(h) && h.run.out.status != Synced && h.seen == {} && h.owed == {}
  }

  ghost predicate Trace(events: seq<Event>, worlds: seq<World>) {
    && |worlds| == |events| + 1 && Initial(worlds[0])
    && forall i :: 0 <= i < |events| ==> Next(worlds[i], events[i], worlds[i + 1])
  }

  // ---------- the invariant ----------

  // Where the changes a run has seen are, by how far the run has come.
  ghost predicate SeenPlaced(h: Host, remote: History) {
    match h.run.phase
    case AskCommit2 => h.seen <= Staged(h.repo)
    case AskPull => h.seen <= Committed(h.repo)
    case AskStatus3 => h.seen <= Committed(h.repo)
    case AskCommit3 => h.seen <= Staged(h.repo)
    case AskPush => h.seen <= Committed(h.repo)
    case AskTrigger => h.seen <= Changes(remote)
    case AskBehind => h.seen <= Local(h.repo) && (!h.run.out.dirty ==> h.seen <= Committed(h.repo))
    case AskAhead => h.seen <= Local(h.repo) && (!h.run.out.dirty ==> h.seen <= Committed(h.repo))
    case Done => h.run.out.status == Synced ==> h.seen <= Changes(remote) && h.owed <= h.seen
    case _ => h.seen <= Local(h.repo)
  }

  // After a fetch, FETCH_HEAD is a part of the remote branch.
  ghost predicate Fetched(h: Host, remote: History) {
    h.run.url != "" && (h.run.phase == AskStatus || h.run.phase == AskBehind || h.run.phase == AskAhead) ==>
      h.repo.fetchHead.Present? && h.repo.fetchHead.value <= remote
  }

  predicate PastListing(phase: Phase) {
    phase != Done && Left(phase) < Left(AskStatus)
  }

  predicate PastPull(phase: Phase) {
    phase != Done && Left(phase) < Left(AskPull)
  }

  // What the clone held at the start of the run is still held. Once listed it has been
  // seen, but for what an interrupted rebase had set aside.
  ghost predicate OwedPlaced(h: Host) {
    && h.owed <= Held(h.repo)
    && (PastListing(h.run.phase) && h.repo.saved.Absent? ==> h.owed <= h.seen)
    && (PastPull(h.run.phase) ==> h.repo.saved.Absent?)
  }

  ghost predicate HostFine(h: Host, remote: History) {
    SeenPlaced(h, remote) && Fetched(h, remote) && OwedPlaced(h)
  }

  ghost predicate Fine(w: World) {
    && w.promised <= Changes(w.remote)
    && forall i :: 0 <= i < |w.hosts| ==> HostFine(w.hosts[i], w.remote)
  }

  // ---------- it is kept by everyone else ----------

  lemma RemoteGrowthFine(h: Host, remote: History, after: History)
    requires HostFine(h, remote) && remote <= after
    ensures HostFine(h, after)
  {
    hide Changes, OwedPlaced;
    ChangesGrow(remote, after);
  }

  lemma LocalActivityFine(h: Host, remote: History, repo: Repo)
    requires HostFine(h, remote) && KeepsChanges(h.repo, repo)
    ensures HostFine(h.(repo := repo), remote)
  {
    hide Changes, Left;
  }

  lemma StartFine(h: Host, remote: History)
    requires HostFine(h, remote) && Idle(h)
    ensures HostFine(Started(h), remote)
  {
    hide Changes;
  }

  lemma TakeOverFine(h: Host, remote: History, repo: Repo)
    requires HostFine(h, remote) && Idle(h)
    ensures HostFine(TakenOver(h, repo), remote)
  {
    hide Changes;
  }

  // ---------- it is kept by the helper's commands ----------

  lemma WithStatusFlags(out: Report, text: string, r: Repo)
    requires StatusFits(text, r)
    ensures WithStatus(out, text).status == out.status
    ensures !WithStatus(out, text).dirty ==> Pending(r) == {} && Local(r) == Committed(r)
  {
    hide StatusFits, FlagsOf, StatusLines, LosesBranch, TellsAhead, TellsBehind, LegalHeader, HeaderFits, Changes;
    var h := StatusFlags(text, r);
  }

  // The remote has every commit of a clone when none was counted that it lacks.
  lemma NoneMissing(r: Repo, remote: History, a: Answer)
    requires r.fetchHead.Present? && r.fetchHead.value <= remote
    requires a.Output? && CountFits(a.text, r.head, r.fetchHead) && CountOf(a) == 0
    ensures Committed(r) <= Changes(remote)
  {
    hide Decimal, CountOf, Changes, Missing;
    var n := Missing(r.head, r.fetchHead.value);
    CountReads(n);
    MissingNone(r.head, r.fetchHead.value);
    assert r.head <= remote;
    ChangesGrow(r.head, remote);
  }

  lemma RanPreflight(h: Host, remote: History, a: Answer, repo: Repo, after: History)
    requires SeenPlaced(h, remote) && InPreflight(h.run.phase)
    requires Step(CommandOf(h.run), h.repo, remote, a, repo, after)
    requires h.run.phase != AskAhead
    ensures SeenPlaced(Ran(h, a, repo), after) && !Vouches(h, a)
  {
    hide Changes, StatusFits, CountFits, CountOf, WithStatus, Search.Gitlinks, ClassifyError,
      ClassifyGitError, TrimSpace, Explain, RecoveryFor, Retryable, IsNothingToCommit, Rebased;
    if h.run.phase == AskStatus && a.Output? {
      WithStatusFlags(h.run.out, a.text, h.repo);
    }
  }

  lemma RanFetched(h: Host, remote: History, a: Answer, repo: Repo, after: History)
    requires Fetched(h, remote) && InPreflight(h.run.phase) && h.run.phase != AskAhead
    requires Step(CommandOf(h.run), h.repo, remote, a, repo, after)
    ensures Fetched(Ran(h, a, repo), after)
  {
    hide Changes, StatusFits, CountFits, CountOf, WithStatus, Search.Gitlinks, ClassifyError, ClassifyGitError,
      TrimSpace, Explain, RecoveryFor, Retryable, IsNothingToCommit, Rebased, Local;
  }

  // The last count, if the run goes on or is blocked.
  lemma RanAheadOn(h: Host, remote: History, a: Answer, repo: Repo, after: History)
    requires SeenPlaced(h, remote) && h.run.phase == AskAhead
    requires Step(CommandOf(h.run), h.repo, remote, a, repo, after)
    requires Advance(h.run, a).phase != Done || Advance(h.run, a).out.status != Clean
    ensures SeenPlaced(Ran(h, a, repo), after) && Fetched(Ran(h, a, repo), after) && !Vouches(h, a)
  {
    hide Changes, StatusFits, CountFits, CountOf, Explain, Committed, Local;
  }

  // The last count, if the run is found clean.
  lemma RanAheadClean(h: Host, remote: History, a: Answer, repo: Repo, after: History)
    requires HostFine(h, remote) && h.run.phase == AskAhead
    requires Step(CommandOf(h.run), h.repo, remote, a, repo, after)
    requires Advance(h.run, a).phase == Done && Advance(h.run, a).out.status == Clean
    ensures SeenPlaced(Ran(h, a, repo), after) && Fetched(Ran(h, a, repo), after)
    ensures Vouches(h, a) ==> Ran(h, a, repo).seen <= Changes(after)
  {
    hide Changes, StatusFits, CountFits, CountOf, Explain, OwedPlaced, Committed, Local;
    if h.run.url != "" && a.Output? {
      CleanCountsNone(h.run, a);
      NoneMissing(h.repo, remote, a);
    }
  }

  lemma CleanCountsNone(run: Run, a: Answer)
    requires run.phase == AskAhead && Advance(run, a).phase == Done && Advance(run, a).out.status == Clean
    ensures CountOf(a) == 0 && !run.out.dirty
  {
    hide CountOf, Explain;
  }

  lemma RanAhead(h: Host, remote: History, a: Answer, repo: Repo, after: History)
    requires HostFine(h, remote) && h.run.phase == AskAhead
    requires Step(CommandOf(h.run), h.repo, remote, a, repo, after)
    ensures SeenPlaced(Ran(h, a, repo), after) && Fetched(Ran(h, a, repo), after)
    ensures Vouches(h, a) ==> Ran(h, a, repo).seen <= Changes(after)
  {
    hide Changes, Step, SeenPlaced, Fetched, OwedPlaced, Advance, CommandOf, Vouches;
    var run := Advance(h.run, a);
    if run.phase == Done && run.out.status == Clean {
      RanAheadClean(h, remote, a, repo, after);
    } else {
      RanAheadOn(h, remote, a, repo, after);
    }
  }

  lemma RanSync(h: Host, remote: History, a: Answer, repo: Repo, after: History)
    requires SeenPlaced(h, remote) && !InPreflight(h.run.phase) && !Idle(h)
    requires Step(CommandOf(h.run), h.repo, remote, a, repo, after)
    requires Advance(h.run, a).phase != Done
    ensures SeenPlaced(Ran(h, a, repo), after)
  {
    hide Changes, StatusFits, CountFits, CountOf, WithStatus, Search.Gitlinks, ClassifyError, ClassifyGitError,
      TrimSpace, Explain, RecoveryFor, Retryable, IsNothingToCommit;
    if (h.run.phase == AskStatus2 || h.run.phase == AskStatus3) && a.Output? {
      WithStatusFlags(h.run.out, a.text, h.repo);
    }
    ChangesSnoc(h.repo.head, h.repo.staged);
  }

  // What the clone owes stays placed, whatever the command.
  lemma RanOwed(h: Host, remote: History, a: Answer, repo: Repo, after: History)
    requires HostFine(h, remote) && !Idle(h)
    requires Step(CommandOf(h.run), h.repo, remote, a, repo, after)
    ensures OwedPlaced(Ran(h, a, repo))
  {
    hide Changes, StatusFits, CountFits, CountOf, WithStatus, Search.Gitlinks, ClassifyError, ClassifyGitError,
      TrimSpace, Explain, RecoveryFor, Retryable, IsNothingToCommit, SeenPlaced, Fetched;
    StepHolds(CommandOf(h.run), h.repo, remote, a, repo, after);
  }

  lemma SyncedByTrigger(run: Run, a: Answer)
    requires run.phase != Done && Advance(run, a).phase == Done && Advance(run, a).out.status == Synced
    ensures run.phase == AskTrigger
  {
    hide CountOf, WithStatus, Search.Gitlinks, ClassifyError, ClassifyGitError, TrimSpace, Explain, RecoveryFor,
      Retryable, IsNothingToCommit;
  }

  lemma CleanByCount(run: Run, a: Answer)
    requires run.phase != Done && Advance(run, a).phase == Done && Advance(run, a).out.status == Clean
    ensures run.phase == AskAhead
  {
    hide CountOf, WithStatus, Search.Gitlinks, ClassifyError, ClassifyGitError, TrimSpace, Explain, RecoveryFor,
      Retryable, IsNothingToCommit;
  }

  lemma RanFine(h: Host, remote: History, a: Answer, repo: Repo, after: History)
    requires HostFine(h, remote) && !Idle(h)
    requires Step(CommandOf(h.run), h.repo, remote, a, repo, after)
    ensures HostFine(Ran(h, a, repo), after)
    ensures Vouches(h, a) ==> Ran(h, a, repo).seen <= Changes(after)
  {
    hide Changes, Step, Advance, CommandOf, Fetched;
    RanOwed(h, remote, a, repo, after);
    var run := Advance(h.run, a);
    AdvanceGoesOn(h.run, a);
    if h.run.phase == AskAhead {
      RanAhead(h, remote, a, repo, after);
    } else if InPreflight(h.run.phase) {
      RanPreflight(h, remote, a, repo, after);
      RanFetched(h, remote, a, repo, after);
    } else {
      NotFetching(Ran(h, a, repo), after);
      if run.phase != Done {
        RanSync(h, remote, a, repo, after);
      } else {
        if run.out.status == Clean { CleanByCount(h.run, a); }
        if run.out.status == Synced {
          SyncedByTrigger(h.run, a);
          TriggerKeeps(h, remote, a, repo, after);
        }
      }
    }
  }

  lemma NotFetching(h: Host, remote: History)
    requires h.run.phase == Done || Left(h.run.phase) < Left(AskAhead)
    ensures Fetched(h, remote)
  {
  }

  lemma TriggerKeeps(h: Host, remote: History, a: Answer, repo: Repo, after: History)
    requires h.run.phase == AskTrigger && Step(CommandOf(h.run), h.repo, remote, a, repo, after)
    ensures repo == h.repo && after == remote && CommandOf(h.run) == TriggerSync
  {
    hide Changes, StatusFits, CountFits, Rebased, Search.Gitlinks, IsNothingToCommit;
  }

  // ---------- every run of the fleet ----------

  lemma NextFine(w: World, e: Event, v: World)
    requires Fine(w) && Next(w, e, v)
    ensures Fine(v) && w.remote <= v.remote && w.promised <= v.promised && |v.hosts| == |w.hosts|
  {
    hide HostFine, Step, Changes, Vouches, Advance, CommandOf, KeepsChanges;
    match e
    case StartRun(i) => StartFine(w.hosts[i], w.remote);
    case RunCommand(i, a) =>
      var h, g := w.hosts[i], v.hosts[i];
      StepGrowsRemote(CommandOf(h.run), h.repo, w.remote, a, g.repo, v.remote);
      RanFine(h, w.remote, a, g.repo, v.remote);
      ChangesGrow(w.remote, v.remote);
      forall j | 0 <= j < |w.hosts| && j != i ensures HostFine(v.hosts[j], v.remote) {
        RemoteGrowthFine(w.hosts[j], w.remote, v.remote);
      }
    case LocalActivity(i) => LocalActivityFine(w.hosts[i], w.remote, v.hosts[i].repo);
    case TakeOver(i) => TakeOverFine(w.hosts[i], w.remote, v.hosts[i].repo);
    case OtherPush =>
      ChangesGrow(w.remote, v.remote);
      forall j | 0 <= j < |w.hosts| ensures HostFine(v.hosts[j], v.remote) {
        RemoteGrowthFine(w.hosts[j], w.remote, v.remote);
      }
  }

  lemma InitialFine(w: World)
    requires Initial(w)
    ensures Fine(w)
  {
    hide Changes;
    forall i | 0 <= i < |w.hosts| ensures HostFine(w.hosts[i], w.remote) {
      assert w.hosts[i] in w.hosts;
    }
  }

  lemma {:induction false} TraceFine(events: seq<Event>, worlds: seq<World>, n: nat)
    requires Trace(events, worlds) && n < |worlds|
    ensures Fine(worlds[n])
    decreases n
  {
    hide Fine, Next, Initial;
    if n == 0 {
      InitialFine(worlds[0]);
    } else {
      TraceFine(events, worlds, n - 1);
      NextFine(worlds[n - 1], events[n - 1], worlds[n]);
    }
  }

  lemma {:induction false} TraceGrows(events: seq<Event>, worlds: seq<World>, m: nat, n: nat)
    requires Trace(events, worlds) && m <= n < |worlds|
    ensures worlds[m].remote <= worlds[n].remote && worlds[m].promised <= worlds[n].promised
    decreases n - m
  {
    hide Fine, Next, Initial;
    if m < n {
      TraceGrows(events, worlds, m, n - 1);
      TraceFine(events, worlds, n - 1);
      NextFine(worlds[n - 1], events[n - 1], worlds[n]);
    }
  }

  // In every interleaving the remote branch only grows at its end, and what a run has
  // vouched for by some moment is in the remote branch at every later one.
  lemma PromisesKept(events: seq<Event>, worlds: seq<World>, m: nat, n: nat)
    requires Trace(events, worlds) && m <= n < |worlds|
    ensures worlds[m].remote <= worlds[n].remote
    ensures worlds[m].promised <= Changes(worlds[n].remote)
  {
    hide Trace, Changes, HostFine;
    TraceGrows(events, worlds, m, n);
    TraceFine(events, worlds, n);
  }

  // When a run ends synced, everything the clone held as it began and everything the run
  // saw since is in the remote branch from then on.
  lemma SyncedIsDurable(events: seq<Event>, worlds: seq<World>, m: nat, n: nat, i: nat)
    requires Trace(events, worlds) && m <= n < |worlds| && i < |worlds[m].hosts|
    requires var h := worlds[m].hosts[i]; Idle(h) && h.run.out.status == Synced
    ensures var h := worlds[m].hosts[i]; h.owed + h.seen <= Changes(worlds[n].remote)
  {
    hide Trace, Changes, Fetched, OwedPlaced;
    TraceGrows(events, worlds, m, n);
    TraceFine(events, worlds, m);
    ChangesGrow(worlds[m].remote, worlds[n].remote);
    assert HostFine(worlds[m].hosts[i], worlds[m].remote);
  }

  // At every moment, whichever command failed and however the run ended, and until someone
  // takes the idle clone over: it still holds, in its tree, its index, its branch or the
  // branch set aside by an interrupted rebase, everything it held when its run began.
  lemma NothingLost(events: seq<Event>, worlds: seq<World>, n: nat, i: nat)
    requires Trace(events, worlds) && n < |worlds| && i < |worlds[n].hosts|
    ensures worlds[n].hosts[i].owed <= Held(worlds[n].hosts[i].repo)
  {
    hide Trace, Changes, SeenPlaced, Fetched, Held;
    TraceFine(events, worlds, n);
    assert HostFine(worlds[n].hosts[i], worlds[n].remote);
  }

  // A run that is blocked because the brain was not told has pushed all it saw.
  lemma PushedBeforeTrigger(events: seq<Event>, worlds: seq<World>, n: nat, i: nat)
    requires Trace(events, worlds) && n < |worlds| && i < |worlds[n].hosts|
    requires worlds[n].hosts[i].run.phase == AskTrigger
    ensures worlds[n].hosts[i].seen <= Changes(worlds[n].remote)
    ensures forall error :: Advance(worlds[n].hosts[i].run, Failed(error)).out.status == Blocked
  {
    hide Trace, Changes, OwedPlaced, Fetched, ClassifyError, TrimSpace;
    TraceFine(events, worlds, n);
    assert HostFine(worlds[n].hosts[i], worlds[n].remote);
  }

  // ---------- what a command may touch ----------

  // Until it knows that there is work, the helper moves nothing but FETCH_HEAD.
  lemma PreflightOnlyLooks(w: World, i: nat, a: Answer, v: World)
    requires Next(w, RunCommand(i, a), v) && InPreflight(w.hosts[i].run.phase)
    ensures v.remote == w.remote && v.hosts[i].repo == w.hosts[i].repo.(fetchHead := v.hosts[i].repo.fetchHead)
  {
    hide Changes, StatusFits, CountFits, Search.Gitlinks, Advance, Vouches;
  }

  // Unless someone has taken the idle clone over, it is left in the middle of a rebase only
  // by a pull that failed; the branch as it was is set aside, the remote is as it was, and
  // the run is blocked.
  lemma RebaseLeftByPull(w: World, e: Event, v: World, i: nat)
    requires Next(w, e, v) && i < |w.hosts| == |v.hosts|
    requires w.hosts[i].repo.saved.Absent? && v.hosts[i].repo.saved.Present?
    ensures e == TakeOver(i) ||
            (e.RunCommand? && e.i == i && w.hosts[i].run.phase == AskPull && e.answer.Failed?
             && v.hosts[i].repo.saved == Present(w.hosts[i].repo.head) && v.remote == w.remote
             && v.hosts[i].run.phase == Done && v.hosts[i].run.out.status == Blocked)
  {
    hide Changes, StatusFits, CountFits, Search.Gitlinks, Vouches, IsNothingToCommit, CountOf, WithStatus,
      ClassifyError, ClassifyGitError, TrimSpace, Explain, RecoveryFor, Retryable;
  }
}
