// The Cloud Sync helper as a machine that asks for one command at a time
// (preflightWorkspace and syncWorkspace).
module SyncProgram {
  import opened Text
  import opened JsonNumber
  import opened Porcelain
  import opened SyncErrors
  import Search = NestedGit

  // ---------- what is asked, what is answered ----------

  datatype Command =
    | ShowTopLevel
    | WalkTree
    | ListStage
    | GetToken
    | Fetch(url: string)
    | Status
    | CountBehind
    | CountAhead
    | AddAll
    | Commit
    | PullRebase(url: string)
    | Push(url: string)
    | TriggerSync

  // A token request is answered with the remote URL, the walk with the nested repositories.
  datatype Answer = Output(text: string) | Failed(error: string) | Listed(paths: seq<string>)

  datatype Outcome = Undecided | Blocked | NeedsSync | Clean | Synced

  datatype Report = Report(
    status: Outcome, code: Code, message: string, recovery: Recovery, retryable: bool,
    dirty: bool, ahead: bool, behind: bool, unmerged: bool, nestedGit: seq<string>, gitlinks: seq<string>)

  const EMPTY_REPORT := Report(Undecided, NoCode, "", NoRecovery, false, false, false, false, false, [], [])

  // ---------- parts of the helper ----------

  function BlockedReport(out: Report, code: Code, error: string): Report {
    out.(status := Blocked, code := code, message := TrimSpace(error), recovery := RecoveryFor(code),
         retryable := Retryable(code))
  }

  // The helper's own messages.
  function Explain(code: Code, rebased: bool): string {
    match code
    case NotGitRepository => "workspace is not a git repository"
    case NestedGit => "workspace contains nested git repositories or gitlinks"
    case MissingRemote => "workspace git remote URL is missing"
    case GitConflict =>
      if rebased then "workspace has unresolved git conflicts after rebase"
      else "workspace has unresolved git conflicts"
    case _ => ""
  }

  // A block that leaves the advice as it was.
  function Stopped(out: Report, code: Code, message: string): Report {
    out.(status := Blocked, code := code, message := message)
  }

  function WithStatus(out: Report, text: string): Report {
    var f := FlagsOf(StatusLines(text));
    out.(dirty := f.dirty, ahead := f.ahead, behind := f.behind, unmerged := f.unmerged)
  }

  // countGitRevisions: an error and a text that is not a number count as none.
  function CountOf(a: Answer): nat {
    if !a.Output? then 0
    else
      var t := TrimSpace(a.text);
      var digits := if t != "" && t[0] == '+' then t[1..] else t;
      var n := UndecimalPrefix(digits);
      if n < 0x8000_0000_0000_0000 then n else 0
  }

  function UndecimalPrefix(s: string): nat {
    DigitsAreDigits(s);
    Undecimal(s[..Digits(s)])
  }

  // ---------- the machine ----------

  datatype Phase =
    | AskTopLevel | AskWalk | AskStage | AskToken | AskFetch | AskStatus | AskBehind | AskAhead
    | AskToken2 | AskStatus2 | AskAdd2 | AskCommit2 | AskPull | AskStatus3 | AskAdd3 | AskCommit3 | AskPush | AskTrigger
    | Done

  datatype Run = Run(phase: Phase, out: Report, url: string)

  const START := Run(AskTopLevel, EMPTY_REPORT, "")

  function CommandOf(run: Run): Command
    requires run.phase != Done
  {
    match run.phase
    case AskTopLevel => ShowTopLevel
    case AskWalk => WalkTree
    case AskStage => ListStage
    case AskToken => GetToken
    case AskToken2 => GetToken
    case AskFetch => Fetch(run.url)
    case AskStatus => Status
    case AskStatus2 => Status
    case AskStatus3 => Status
    case AskBehind => CountBehind
    case AskAhead => CountAhead
    case AskAdd2 => AddAll
    case AskAdd3 => AddAll
    case AskCommit2 => Commit
    case AskCommit3 => Commit
    case AskPull => PullRebase(run.url)
    case AskPush => Push(run.url)
    case AskTrigger => TriggerSync
  }

  // An answer has the shape its command calls for.
  predicate Fits(command: Command, a: Answer) {
    if command == WalkTree then a.Listed? else !a.Listed?
  }

  function Finish(run: Run, out: Report): Run {
    run.(phase := Done, out := out)
  }

  function Go(run: Run, phase: Phase): Run {
    run.(phase := phase)
  }

  function AfterTopLevel(run: Run, a: Answer): Run {
    if a.Failed? then Finish(run, Stopped(run.out, NotGitRepository, Explain(NotGitRepository, false)))
    else Go(run, AskWalk)
  }

  function AfterWalk(run: Run, a: Answer): Run {
    Run(AskStage, run.out.(nestedGit := if a.Listed? then a.paths else []), run.url)
  }

  function AfterStage(run: Run, a: Answer): Run {
    AfterSearch(run, if a.Output? then Search.Gitlinks(a.text) else [])
  }

  function AfterSearch(run: Run, gitlinks: seq<string>): Run {
    var out := run.out.(gitlinks := gitlinks);
    if out.nestedGit != [] || out.gitlinks != [] then Finish(run, Stopped(out, NestedGit, Explain(NestedGit, false)))
    else Run(AskToken, out, run.url)
  }

  function AfterToken(run: Run, a: Answer): Run {
    if a.Failed? then Finish(run, BlockedReport(run.out, ClassifyError(a.error), a.error))
    else
      var url := if a.Output? then a.text else "";
      Run(if url != "" then AskFetch else AskStatus, run.out, url)
  }

  function AfterFetch(run: Run, a: Answer): Run {
    if a.Failed? then Finish(run, BlockedReport(run.out, ClassifyGitError(a.error, GitFetchFailed), a.error))
    else Go(run, AskStatus)
  }

  function AfterStatus(run: Run, a: Answer): Run {
    if a.Failed? then Finish(run, Stopped(run.out, GitStatusFailed, a.error))
    else Run(AskBehind, WithStatus(run.out, TextOf(a)), run.url)
  }

  function TextOf(a: Answer): string {
    if a.Output? then a.text else ""
  }

  function AfterBehind(run: Run, a: Answer): Run {
    Run(AskAhead, if CountOf(a) > 0 then run.out.(behind := true) else run.out, run.url)
  }

  function AfterAhead(run: Run, a: Answer): Run {
    AfterCounts(if CountOf(a) > 0 then run.(out := run.out.(ahead := true)) else run)
  }

  function AfterCounts(run: Run): Run {
    var out := run.out;
    if out.unmerged then Finish(run, Stopped(out, GitConflict, Explain(GitConflict, false)))
    else if out.dirty || out.ahead || out.behind then Run(AskToken2, out.(status := NeedsSync), run.url)
    else Finish(run, out.(status := Clean))
  }

  function AfterToken2(run: Run, a: Answer): Run {
    if a.Failed? then Finish(run, BlockedReport(run.out, ClassifyError(a.error), a.error))
    else if TextOf(a) == "" then Finish(run, Stopped(run.out, MissingRemote, Explain(MissingRemote, false)))
    else Run(AskStatus2, run.out, TextOf(a))
  }

  // After a status listing: stop on conflicts, stage if the tree is dirty, else go on.
  function AfterListing(run: Run, a: Answer, rebased: bool, add: Phase, next: Phase): Run {
    var out := WithStatus(run.out, TextOf(a));
    if out.unmerged then Finish(run, Stopped(out, GitConflict, Explain(GitConflict, rebased)))
    else Run(if out.dirty then add else next, out, run.url)
  }

  function AfterStatus2(run: Run, a: Answer): Run {
    if a.Failed? then Finish(run, Stopped(run.out, GitStatusFailed, a.error))
    else AfterListing(run, a, false, AskAdd2, AskPull)
  }

  function AfterAdd(run: Run, a: Answer, next: Phase): Run {
    if a.Failed? then Finish(run, BlockedReport(run.out, GitAddFailed, a.error)) else Go(run, next)
  }

  function AfterCommit(run: Run, a: Answer, next: Phase): Run {
    if a.Failed? && !IsNothingToCommit(a.error) then Finish(run, BlockedReport(run.out, GitCommitFailed, a.error))
    else Go(run, next)
  }

  function AfterPull(run: Run, a: Answer): Run {
    if a.Failed? then Finish(run, BlockedReport(run.out, ClassifyGitError(a.error, GitRebaseFailed), a.error))
    else Go(run, AskStatus3)
  }

  function AfterStatus3(run: Run, a: Answer): Run {
    if a.Failed? then Finish(run, BlockedReport(run.out, GitStatusFailed, a.error))
    else AfterListing(run, a, true, AskAdd3, AskPush)
  }

  function AfterPush(run: Run, a: Answer): Run {
    if a.Failed? then Finish(run, BlockedReport(run.out, ClassifyGitError(a.error, GitPushFailed), a.error))
    else Go(run, AskTrigger)
  }

  function AfterTrigger(run: Run, a: Answer): Run {
    if a.Failed? then Finish(run, BlockedReport(run.out, ClassifyError(a.error), a.error))
    else
      Finish(run, run.out.(status := Synced, code := NoCode, message := "",
                           dirty := false, ahead := false, behind := false))
  }

  function Advance(run: Run, a: Answer): Run
    requires run.phase != Done
  {
    match run.phase
    case AskTopLevel => AfterTopLevel(run, a)
    case AskWalk => AfterWalk(run, a)
    case AskStage => AfterStage(run, a)
    case AskToken => AfterToken(run, a)
    case AskFetch => AfterFetch(run, a)
    case AskStatus => AfterStatus(run, a)
    case AskBehind => AfterBehind(run, a)
    case AskAhead => AfterAhead(run, a)
    case AskToken2 => AfterToken2(run, a)
    case AskStatus2 => AfterStatus2(run, a)
    case AskAdd2 => AfterAdd(run, a, AskCommit2)
    case AskCommit2 => AfterCommit(run, a, AskPull)
    case AskPull => AfterPull(run, a)
    case AskStatus3 => AfterStatus3(run, a)
    case AskAdd3 => AfterAdd(run, a, AskCommit3)
    case AskCommit3 => AfterCommit(run, a, AskPush)
    case AskPush => AfterPush(run, a)
    case AskTrigger => AfterTrigger(run, a)
  }

  predicate InPreflight(phase: Phase) {
    || phase == AskTopLevel || phase == AskWalk || phase == AskStage || phase == AskToken
    || phase == AskFetch || phase == AskStatus || phase == AskBehind || phase == AskAhead
  }

  // The run after the given answers, or once it is done.
  function Drive(run: Run, answers: seq<Answer>): Run
    decreases |answers|
  {
    if run.phase == Done || answers == [] then run else Drive(Advance(run, answers[0]), answers[1..])
  }

  // ---------- the result contract ----------

  predicate NoAdvice(out: Report) {
    out.code == NoCode && out.message == "" && out.recovery == NoRecovery && !out.retryable
  }

  predicate NoFlags(out: Report) {
    !out.dirty && !out.ahead && !out.behind && !out.unmerged
  }

  // What a finished report says about itself.
  predicate Consistent(out: Report) {
    && out.status in {Blocked, Clean, Synced}
    && (out.code != NoCode <==> out.status == Blocked)
    && out.recovery == RecoveryFor(out.code) && out.retryable == Retryable(out.code)
    && (out.status != Blocked ==> NoFlags(out) && out.message == "")
    && (out.code == NestedGit <==> out.nestedGit != [] || out.gitlinks != [])
  }

  // What holds of a report between commands.
  predicate Underway(run: Run) {
    && NoAdvice(run.out)
    && run.out.status == (if InPreflight(run.phase) then Undecided else NeedsSync)
    && (run.phase in {AskTopLevel, AskWalk, AskStage, AskToken, AskFetch, AskStatus} ==> NoFlags(run.out))
    && (!InPreflight(run.phase) ==> !run.out.unmerged)
    && (run.phase != AskStage ==> run.out.nestedGit == [])
    && run.out.gitlinks == []
  }

  predicate Good(run: Run) {
    if run.phase == Done then Consistent(run.out) else Underway(run)
  }

  lemma ClassesAreCodes(error: string, fallback: Code)
    requires fallback != NoCode && fallback != NestedGit
    ensures ClassifyError(error) != NoCode && ClassifyError(error) != NestedGit
    ensures ClassifyGitError(error, fallback) != NoCode && ClassifyGitError(error, fallback) != NestedGit
  {
    hide Contains, IsAuthErrorText, IsPermissionErrorText, ToLower;
  }

  lemma NoCodeNoAdvice()
    ensures forall code ::
              code in {NoCode, NotGitRepository, NestedGit, GitStatusFailed, GitConflict, MissingRemote} ==>
              RecoveryFor(code) == NoRecovery && !Retryable(code)
  {
  }

  lemma StatusKeeps(out: Report, text: string)
    ensures var w := WithStatus(out, text);
            w == out.(dirty := w.dirty, ahead := w.ahead, behind := w.behind, unmerged := w.unmerged)
  {
    hide FlagsOf, StatusLines;
  }

  lemma LookingGood(run: Run, a: Answer)
    requires Underway(run) && (run.phase == AskTopLevel || run.phase == AskWalk || run.phase == AskStage)
    ensures Good(Advance(run, a))
  {
    hide ClassifyError, ClassifyGitError, TrimSpace, Explain, WithStatus, CountOf, Search.Gitlinks, IsNothingToCommit,
      RecoveryFor, Retryable;
    NoCodeNoAdvice();
  }

  lemma FetchingGood(run: Run, a: Answer)
    requires Underway(run) && (run.phase == AskToken || run.phase == AskFetch)
    ensures Good(Advance(run, a))
  {
    hide ClassifyError, ClassifyGitError, TrimSpace, Explain, WithStatus, CountOf, Search.Gitlinks, IsNothingToCommit,
      RecoveryFor, Retryable;
    NoCodeNoAdvice();
    if a.Failed? {
      ClassesAreCodes(a.error, GitFetchFailed);
    }
  }

  lemma ListingGood(run: Run, a: Answer)
    requires Underway(run) && (run.phase == AskStatus)
    ensures Good(Advance(run, a))
  {
    hide ClassifyError, ClassifyGitError, TrimSpace, Explain, WithStatus, CountOf, Search.Gitlinks, IsNothingToCommit,
      RecoveryFor, Retryable;
    NoCodeNoAdvice();
    StatusKeeps(run.out, TextOf(a));
  }

  lemma CountingGood(run: Run, a: Answer)
    requires Underway(run) && (run.phase == AskBehind || run.phase == AskAhead)
    ensures Good(Advance(run, a))
  {
    hide ClassifyError, ClassifyGitError, TrimSpace, Explain, WithStatus, CountOf, Search.Gitlinks, IsNothingToCommit,
      RecoveryFor, Retryable;
    NoCodeNoAdvice();
  }

  lemma PreflightGood(run: Run, a: Answer)
    requires Underway(run) && InPreflight(run.phase)
    ensures Good(Advance(run, a))
  {
    hide Advance, Underway, Good;
    if run.phase == AskToken || run.phase == AskFetch {
      FetchingGood(run, a);
    } else if run.phase == AskStatus {
      ListingGood(run, a);
    } else if run.phase == AskBehind || run.phase == AskAhead {
      CountingGood(run, a);
    } else {
      LookingGood(run, a);
    }
  }

  lemma AskingAgainGood(run: Run, a: Answer)
    requires Underway(run) && (run.phase == AskToken2 || run.phase == AskStatus2 || run.phase == AskStatus3)
    ensures Good(Advance(run, a))
  {
    hide ClassifyError, ClassifyGitError, TrimSpace, Explain, WithStatus, CountOf, Search.Gitlinks, IsNothingToCommit,
      RecoveryFor, Retryable;
    NoCodeNoAdvice();
    if a.Failed? {
      ClassesAreCodes(a.error, GitRebaseFailed);
    }
    StatusKeeps(run.out, TextOf(a));
  }

  lemma CommittingGood(run: Run, a: Answer)
    requires Underway(run)
    requires run.phase == AskAdd2 || run.phase == AskAdd3 || run.phase == AskCommit2 || run.phase == AskCommit3
    ensures Good(Advance(run, a))
  {
    hide ClassifyError, ClassifyGitError, TrimSpace, Explain, WithStatus, CountOf, Search.Gitlinks, IsNothingToCommit,
      RecoveryFor, Retryable;
  }

  lemma PushingGood(run: Run, a: Answer)
    requires Underway(run) && (run.phase == AskPull || run.phase == AskPush || run.phase == AskTrigger)
    ensures Good(Advance(run, a))
  {
    hide ClassifyError, ClassifyGitError, TrimSpace, Explain, WithStatus, CountOf, Search.Gitlinks, IsNothingToCommit,
      RecoveryFor, Retryable;
    NoCodeNoAdvice();
    if a.Failed? {
      ClassesAreCodes(a.error, GitRebaseFailed);
      ClassesAreCodes(a.error, GitPushFailed);
    }
  }

  lemma SyncGood(run: Run, a: Answer)
    requires Underway(run) && !InPreflight(run.phase) && run.phase != Done
    ensures Good(Advance(run, a))
  {
    hide Advance, Underway, Good;
    if run.phase == AskToken2 || run.phase == AskStatus2 || run.phase == AskStatus3 {
      AskingAgainGood(run, a);
    } else if run.phase == AskPull || run.phase == AskPush || run.phase == AskTrigger {
      PushingGood(run, a);
    } else {
      CommittingGood(run, a);
    }
  }

  lemma AdvanceGood(run: Run, a: Answer)
    requires run.phase != Done && Underway(run)
    ensures Good(Advance(run, a))
  {
    hide Advance, Underway, Good;
    if InPreflight(run.phase) { PreflightGood(run, a); } else { SyncGood(run, a); }
  }

  lemma {:induction false} DriveGood(run: Run, answers: seq<Answer>)
    requires Good(run)
    ensures Good(Drive(run, answers))
    decreases |answers|
  {
    hide Advance, Underway, Consistent;
    if run.phase != Done && answers != [] {
      AdvanceGood(run, answers[0]);
      DriveGood(Advance(run, answers[0]), answers[1..]);
    }
  }

  // Whatever the commands answer: a finished run is blocked, clean or synced; it has a code
  // exactly when blocked, with that code's advice; and it is blocked for nested
  // repositories exactly when it lists some.
  lemma ResultContract(answers: seq<Answer>)
    requires Drive(START, answers).phase == Done
    ensures Consistent(Drive(START, answers).out)
  {
    hide Drive, Consistent;
    DriveGood(START, answers);
  }

  // ---------- every run ends ----------

  function Left(phase: Phase): nat {
    match phase
    case AskTopLevel => 18
    case AskWalk => 17
    case AskStage => 16
    case AskToken => 15
    case AskFetch => 14
    case AskStatus => 13
    case AskBehind => 12
    case AskAhead => 11
    case AskToken2 => 10
    case AskStatus2 => 9
    case AskAdd2 => 8
    case AskCommit2 => 7
    case AskPull => 6
    case AskStatus3 => 5
    case AskAdd3 => 4
    case AskCommit3 => 3
    case AskPush => 2
    case AskTrigger => 1
    case Done => 0
  }

  lemma SamePhase(a: Phase, b: Phase)
    requires Left(a) == Left(b)
    ensures a == b
  {
  }

  lemma AdvanceGoesOn(run: Run, a: Answer)
    requires run.phase != Done
    ensures Left(Advance(run, a).phase) < Left(run.phase)
  {
    hide ClassifyError, ClassifyGitError, TrimSpace, Explain, WithStatus, CountOf, Search.Gitlinks,
      IsNothingToCommit, RecoveryFor, Retryable, Stopped, BlockedReport;
  }

  lemma {:induction false} RunEnds(run: Run, answers: seq<Answer>)
    requires |answers| >= Left(run.phase)
    ensures Drive(run, answers).phase == Done
    decreases |answers|
  {
    hide Advance;
    if run.phase == Done {
    } else {
      AdvanceGoesOn(run, answers[0]);
      RunEnds(Advance(run, answers[0]), answers[1..]);
    }
  }
}
