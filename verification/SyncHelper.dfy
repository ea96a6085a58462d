// The Cloud Sync helper in its own, imperative form, proved to ask the commands and give
// the report of the machine in SyncProgram (preflightWorkspace, syncWorkspace, runSync).
module SyncHelper {
  import opened Text
  import opened Porcelain
  import opened SyncErrors
  import opened SyncProgram
  import Search = NestedGit

  // ---------- the workspace result ----------

  class WorkspaceResult {
    var status: Outcome
    var code: Code
    var message: string
    var recovery: Recovery
    var retryable: bool
    var dirty: bool
    var ahead: bool
    var behind: bool
    var unmerged: bool
    var nestedGit: seq<string>
    var gitlinks: seq<string>

    function Value(): Report
      reads this
    {
      Report(status, code, message, recovery, retryable, dirty, ahead, behind, unmerged, nestedGit, gitlinks)
    }

    function StatusFlags(): Flags
      reads this
    {
      Flags(dirty, ahead, behind, unmerged)
    }

    constructor ()
      ensures Value() == EMPTY_REPORT
    {
      status, code, message, recovery, retryable := Undecided, NoCode, "", NoRecovery, false;
      dirty, ahead, behind, unmerged := false, false, false, false;
      nestedGit, gitlinks := [], [];
    }

    // applyStatus: what was raised before is forgotten, then every line counts.
    method ApplyStatus(lines: seq<string>)
      modifies this`dirty, this`ahead, this`behind, this`unmerged
      ensures StatusFlags() == FlagsOf(lines)
    {
      hide Contains, HasPrefix;
      dirty, ahead, behind, unmerged := false, false, false, false;
      for i := 0 to |lines|
        invariant StatusFlags() == FlagsOf(lines[..i])
      {
        assert lines[..i + 1][..i] == lines[..i];
        var line := lines[i];
        if HasPrefix(line, "## ") {
          ahead := Contains(line, "ahead ");
          behind := Contains(line, "behind ");
        } else {
          dirty := true;
          var letters := line;
          if |letters| > 2 {
            letters := letters[..2];
          }
          if 'U' in letters || letters == "AA" || letters == "DD" {
            unmerged := true;
          }
        }
      }
      assert lines[..|lines|] == lines;
    }

    // gitStatus and applyStatus on the text of a status command.
    method ApplyStatusText(text: string)
      modifies this`dirty, this`ahead, this`behind, this`unmerged
      ensures Value() == WithStatus(old(Value()), text)
    {
      hide FlagsOf, StatusLines;
      var lines := GitStatus(text);
      ApplyStatus(lines);
      assert StatusFlags() == FlagsOf(lines);
    }

    method Block(code: Code, error: string)
      modifies this
      ensures Value() == BlockedReport(old(Value()), code, error)
    {
      hide TrimSpace, RecoveryFor, Retryable;
      this.status := Blocked;
      this.code := code;
      this.message := TrimSpace(error);
      this.recovery := RecoveryFor(code);
      this.retryable := Retryable(code);
    }

    method RaiseBehind()
      modifies this`behind
      ensures Value() == old(Value()).(behind := true)
    {
      behind := true;
    }

    method RaiseAhead()
      modifies this`ahead
      ensures Value() == old(Value()).(ahead := true)
    {
      ahead := true;
    }

    method Mark(status: Outcome)
      modifies this`status
      ensures Value() == old(Value()).(status := status)
    {
      this.status := status;
    }

    method RecordRepositories(nested: seq<string>, gitlinks: seq<string>)
      modifies this`nestedGit, this`gitlinks
      ensures Value() == old(Value()).(nestedGit := nested, gitlinks := gitlinks)
    {
      this.nestedGit := nested;
      this.gitlinks := gitlinks;
    }

    method MarkSynced()
      modifies this
      ensures Value() ==
              old(Value()).(status := Synced, code := NoCode, message := "",
                            dirty := false, ahead := false, behind := false)
    {
      status, code, message := Synced, NoCode, "";
      dirty, ahead, behind := false, false, false;
    }

    method Stop(code: Code, message: string)
      modifies this
      ensures Value() == Stopped(old(Value()), code, message)
    {
      this.status := Blocked;
      this.code := code;
      this.message := message;
    }
  }

  // ---------- the world the helper runs in ----------

  // How a command came out: what git printed, both streams together, and whether it
  // succeeded; or the direct answer of a command that is not git's.
  datatype Reply = Reply(printed: string, ok: bool, error: string, direct: Answer)

  // How every command comes out, by its position in the run.
  datatype World = World(replies: nat -> Reply)

  predicate IsGit(command: Command) {
    !command.WalkTree? && !command.GetToken? && !command.TriggerSync?
  }

  // runGit: the text is trimmed, and it is also the error of a failure unless it is empty.
  function RunGit(reply: Reply): (a: Answer)
    ensures a.Output? <==> reply.ok
    ensures a.Output? ==> a.text == TrimSpace(reply.printed) && Trimmed(a.text)
    ensures a.Failed? ==>
              a.error == if TrimSpace(reply.printed) != "" then TrimSpace(reply.printed) else reply.error
  {
    hide SpaceHead, SpaceTail, TrimLeft, TrimRight;
    TrimSpaceMeaning(reply.printed);
    var text := TrimSpace(reply.printed);
    if reply.ok then Output(text) else Failed(if text != "" then text else reply.error)
  }

  function AnswerAt(world: World, command: Command, n: nat): Answer {
    if IsGit(command) then RunGit(world.replies(n)) else world.replies(n).direct
  }

  // The machine after the first n answers of a world.
  function After(world: World, n: nat): Run {
    if n == 0 then START
    else
      var run := After(world, n - 1);
      if run.phase == Done then run else Advance(run, AnswerAt(world, CommandOf(run), n - 1))
  }

  // The commands asked so far are the machine's, one for each answer it has taken.
  ghost predicate Follows(world: World, asked: seq<Command>, run: Run) {
    && run == After(world, |asked|)
    && forall i :: 0 <= i < |asked| ==> After(world, i).phase != Done && asked[i] == CommandOf(After(world, i))
  }

  lemma FollowsOn(world: World, asked: seq<Command>, run: Run)
    requires Follows(world, asked, run) && run.phase != Done
    ensures var command := CommandOf(run);
            Follows(world, asked + [command], Advance(run, AnswerAt(world, command, |asked|)))
  {
    hide Advance, CommandOf, AnswerAt;
    var more := asked + [CommandOf(run)];
    assert forall i :: 0 <= i < |asked| ==> more[i] == asked[i];
  }

  class Shell {
    const world: World
    var asked: seq<Command>
    ghost var run: Run

    ghost predicate Valid()
      reads this
    {
      Follows(world, asked, run)
    }

    constructor (world: World)
      ensures Valid() && asked == [] && run == START && this.world == world
    {
      this.world := world;
      asked := [];
      run := START;
    }

    // One command and its answer; only the machine's next command may be asked.
    method Ask(command: Command) returns (answer: Answer)
      requires Valid() && run.phase != Done && command == CommandOf(run)
      modifies this
      ensures Valid()
      ensures asked == old(asked) + [command] && answer == AnswerAt(world, command, |old(asked)|)
      ensures run == Advance(old(run), answer)
      ensures command in {WalkTree, GetToken, TriggerSync} ==> answer == world.replies(|old(asked)|).direct
      ensures command !in {WalkTree, GetToken, TriggerSync} ==> answer == RunGit(world.replies(|old(asked)|))
    {
      hide Advance, CommandOf, Follows;
      FollowsOn(world, asked, run);
      answer := AnswerAt(world, command, |asked|);
      asked, run := asked + [command], Advance(run, answer);
    }
  }

  // ---------- the helper ----------

  // HEAD..FETCH_HEAD: what HEAD lacks.
  method CountBehindHead(shell: Shell, out: WorkspaceResult)
    requires shell.Valid() && shell.run.phase == AskBehind && out.Value() == shell.run.out
    modifies shell, out`behind
    ensures old(out.behind) ==> out.behind
    ensures shell.Valid() && shell.run == old(shell.run).(phase := AskAhead, out := out.Value())
  {
    hide CountOf, AnswerAt, Follows;
    var behind := shell.Ask(CountBehind);
    if CountOf(behind) > 0 {
      out.RaiseBehind();
    }
  }

  method ApplyFetchHeadStatus(shell: Shell, out: WorkspaceResult)
    requires shell.Valid() && shell.run.phase == AskBehind && out.Value() == shell.run.out
    modifies shell, out`ahead, out`behind
    ensures old(out.behind) ==> out.behind
    ensures old(out.ahead) ==> out.ahead
    ensures shell.Valid() && shell.run == AfterCounts(old(shell.run).(phase := AskAhead, out := out.Value()))
  {
    hide AfterCounts, CountOf, AnswerAt, Follows;
    CountBehindHead(shell, out);
    var ahead := shell.Ask(CountAhead);
    if CountOf(ahead) > 0 {
      out.RaiseAhead();
    }
  }

  // The two lists of detectNestedGit: the walk's and the index's.
  method DetectRepositories(shell: Shell) returns (nested: seq<string>, gitlinks: seq<string>)
    requires shell.Valid() && shell.run.phase == AskWalk
    modifies shell
    ensures shell.Valid()
    ensures var searched := old(shell.run).(phase := AskStage, out := old(shell.run.out).(nestedGit := nested));
            shell.run == AfterSearch(searched, gitlinks)
  {
    hide AnswerAt, Follows, Explain, Search.Gitlinks, AfterSearch;
    var walk := shell.Ask(WalkTree);
    nested := if walk.Listed? then walk.paths else [];
    var stage := shell.Ask(ListStage);
    gitlinks := if stage.Output? then Search.Gitlinks(stage.text) else [];
  }

  method PreflightWorkspace(shell: Shell) returns (out: WorkspaceResult)
    requires shell.Valid() && shell.run == START
    modifies shell
    ensures fresh(out) && shell.Valid() && out.Value() == shell.run.out
    ensures shell.run.phase == if out.status == NeedsSync then AskToken2 else Done
    ensures out.status in {Blocked, NeedsSync, Clean}
  {
    hide AnswerAt, Follows, ClassifyError, ClassifyGitError, TrimSpace, Explain, WithStatus, CountOf, Search.Gitlinks,
      RecoveryFor, Retryable;
    out := new WorkspaceResult();
    var top := shell.Ask(ShowTopLevel);
    if top.Failed? {
      out.Stop(NotGitRepository, Explain(NotGitRepository, false));
      return;
    }
    assert shell.run == Run(AskWalk, EMPTY_REPORT, "");
    var nested, gitlinks := DetectRepositories(shell);
    out.RecordRepositories(nested, gitlinks);
    if |nested| > 0 || |gitlinks| > 0 {
      out.Stop(NestedGit, Explain(NestedGit, false));
      return;
    }
    assert shell.run == Run(AskToken, out.Value(), "");
    PreflightStatus(shell, out);
  }

  // From the first token request on.
  method PreflightStatus(shell: Shell, out: WorkspaceResult)
    requires shell.Valid() && shell.run == Run(AskToken, out.Value(), "") && out.status == Undecided
    modifies shell, out
    ensures shell.Valid() && out.Value() == shell.run.out
    ensures shell.run.phase == if out.status == NeedsSync then AskToken2 else Done
    ensures out.status in {Blocked, NeedsSync, Clean}
  {
    hide AnswerAt, Follows, ClassifyError, ClassifyGitError, TrimSpace, Explain, WithStatus, CountOf,
      Search.Gitlinks, RecoveryFor, Retryable;
    var token := shell.Ask(GetToken);
    if token.Failed? {
      out.Block(ClassifyError(token.error), token.error);
      return;
    }
    var url := if token.Output? then token.text else "";
    if url != "" {
      var fetch := shell.Ask(Fetch(url));
      if fetch.Failed? {
        out.Block(ClassifyGitError(fetch.error, GitFetchFailed), fetch.error);
        return;
      }
    }
    var status := shell.Ask(Status);
    if status.Failed? {
      out.Stop(GitStatusFailed, status.error);
      return;
    }
    StatusKeeps(out.Value(), TextOf(status));
    out.ApplyStatusText(TextOf(status));
    assert shell.run == Run(AskBehind, out.Value(), url);
    ApplyFetchHeadStatus(shell, out);
    if out.unmerged {
      out.Stop(GitConflict, Explain(GitConflict, false));
      return;
    }
    if out.dirty || out.ahead || out.behind {
      out.Mark(NeedsSync);
      return;
    }
    out.Mark(Clean);
  }

  // Stage everything.
  method StageAll(shell: Shell, out: WorkspaceResult) returns (ok: bool)
    requires shell.Valid() && out.Value() == shell.run.out
    requires shell.run.phase == AskAdd2 || shell.run.phase == AskAdd3
    modifies shell, out
    ensures shell.Valid() && out.Value() == shell.run.out
    ensures !ok ==> shell.run.phase == Done
    ensures ok ==>
              shell.run == old(shell.run).(phase := if old(shell.run.phase) == AskAdd2 then AskCommit2 else AskCommit3)
  {
    hide AnswerAt, Follows, TrimSpace, RecoveryFor, Retryable;
    var add := shell.Ask(AddAll);
    ok := !add.Failed?;
    if add.Failed? {
      out.Block(GitAddFailed, add.error);
    }
  }

  // Commit what is staged; "nothing to commit" is no failure.
  method CommitStaged(shell: Shell, out: WorkspaceResult) returns (ok: bool)
    requires shell.Valid() && out.Value() == shell.run.out
    requires shell.run.phase == AskCommit2 || shell.run.phase == AskCommit3
    modifies shell, out
    ensures shell.Valid() && out.Value() == shell.run.out
    ensures !ok ==> shell.run.phase == Done
    ensures ok ==>
              shell.run == old(shell.run).(phase := if old(shell.run.phase) == AskCommit2 then AskPull else AskPush)
  {
    hide AnswerAt, Follows, TrimSpace, IsNothingToCommit, RecoveryFor, Retryable;
    var commit := shell.Ask(Commit);
    ok := !commit.Failed? || IsNothingToCommit(commit.error);
    if !ok {
      out.Block(GitCommitFailed, commit.error);
    }
  }

  method CommitAll(shell: Shell, out: WorkspaceResult) returns (ok: bool)
    requires shell.Valid() && out.Value() == shell.run.out
    requires shell.run.phase == AskAdd2 || shell.run.phase == AskAdd3
    modifies shell, out
    ensures shell.Valid() && out.Value() == shell.run.out
    ensures !ok ==> shell.run.phase == Done
    ensures ok ==> shell.run == old(shell.run).(phase := if old(shell.run.phase) == AskAdd2 then AskPull else AskPush)
    ensures ok ==> out.Value() == old(out.Value())
  {
    ok := StageAll(shell, out);
    if ok {
      ok := CommitStaged(shell, out);
    }
  }

  method SyncWorkspace(shell: Shell) returns (out: WorkspaceResult)
    requires shell.Valid() && shell.run == START
    modifies shell
    ensures fresh(out) && shell.Valid()
    ensures shell.run.phase == Done && out.Value() == shell.run.out
  {
    hide AnswerAt, Follows, ClassifyError, ClassifyGitError, TrimSpace, Explain, WithStatus, RecoveryFor,
      Retryable, FlagsOf, StatusLines;
    out := PreflightWorkspace(shell);
    if out.status == Blocked || out.status == Clean {
      return;
    }
    var token := shell.Ask(GetToken);
    if token.Failed? {
      out.Block(ClassifyError(token.error), token.error);
      return;
    }
    var url := TextOf(token);
    if url == "" {
      out.Stop(MissingRemote, Explain(MissingRemote, false));
      return;
    }
    assert shell.run == Run(AskStatus2, out.Value(), url);
    var status := shell.Ask(Status);
    if status.Failed? {
      out.Stop(GitStatusFailed, status.error);
      return;
    }
    out.ApplyStatusText(TextOf(status));
    if out.unmerged {
      out.Stop(GitConflict, Explain(GitConflict, false));
      return;
    }
    if out.dirty {
      var ok := CommitAll(shell, out);
      if !ok {
        return;
      }
    }
    assert shell.run == Run(AskPull, out.Value(), url);
    PullAndPush(shell, out, url);
  }

  method PullAndPush(shell: Shell, out: WorkspaceResult, url: string)
    requires shell.Valid() && shell.run == Run(AskPull, out.Value(), url)
    modifies shell, out
    ensures shell.Valid()
    ensures shell.run.phase == Done && out.Value() == shell.run.out
  {
    hide AnswerAt, Follows, ClassifyError, ClassifyGitError, TrimSpace, Explain, WithStatus, RecoveryFor,
      Retryable, FlagsOf, StatusLines;
    var pull := shell.Ask(PullRebase(url));
    if pull.Failed? {
      out.Block(ClassifyGitError(pull.error, GitRebaseFailed), pull.error);
      return;
    }
    var status := shell.Ask(Status);
    if status.Failed? {
      out.Block(GitStatusFailed, status.error);
      return;
    }
    out.ApplyStatusText(TextOf(status));
    if out.unmerged {
      out.Stop(GitConflict, Explain(GitConflict, true));
      return;
    }
    if out.dirty {
      var ok := CommitAll(shell, out);
      if !ok {
        return;
      }
    }
    assert shell.run == Run(AskPush, out.Value(), url);
    PushAndTrigger(shell, out, url);
  }

  method PushAndTrigger(shell: Shell, out: WorkspaceResult, url: string)
    requires shell.Valid() && shell.run == Run(AskPush, out.Value(), url)
    modifies shell, out
    ensures shell.Valid()
    ensures shell.run.phase == Done && out.Value() == shell.run.out
  {
    hide AnswerAt, Follows, ClassifyError, ClassifyGitError, TrimSpace, RecoveryFor, Retryable;
    var push := shell.Ask(Push(url));
    if push.Failed? {
      out.Block(ClassifyGitError(push.error, GitPushFailed), push.error);
      return;
    }
    var trigger := shell.Ask(TriggerSync);
    if trigger.Failed? {
      out.Block(ClassifyError(trigger.error), trigger.error);
      return;
    }
    out.MarkSynced();
  }

  // ---------- the command ----------

  // What the sync command reports for a workspace it found.
  datatype SyncResult = SyncResult(ok: bool, workspace: Report)

  method RunSync(world: World) returns (r: SyncResult, ghost taken: nat)
    ensures After(world, taken).phase == Done && r.workspace == After(world, taken).out
    ensures r.ok <==> r.workspace.code == NoCode
    ensures Consistent(r.workspace)
  {
    hide Advance, AnswerAt, CommandOf, Consistent;
    var shell := new Shell(world);
    var out := SyncWorkspace(shell);
    taken := |shell.asked|;
    AfterGood(world, taken);
    r := SyncResult(out.status == Synced || out.status == Clean, out.Value());
    assert r.ok <==> r.workspace.code == NoCode by { ConsistentCode(r.workspace); }
  }

  lemma ConsistentCode(out: Report)
    requires Consistent(out)
    ensures out.status in {Clean, Synced} <==> out.code == NoCode
  {
  }

  lemma {:induction false} AfterGood(world: World, n: nat)
    ensures Good(After(world, n))
  {
    hide Advance, AnswerAt, CommandOf, Underway, Consistent;
    if n > 0 {
      AfterGood(world, n - 1);
      if After(world, n - 1).phase != Done {
        AdvanceGood(After(world, n - 1), AnswerAt(world, CommandOf(After(world, n - 1)), n - 1));
      }
    } else {
      StartGood();
    }
  }

  lemma StartGood()
    ensures Good(START)
  {
  }
}
