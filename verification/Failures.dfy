// What a sync run reports when a command fails, told from the text of the failure.
module Failures {
  import opened JsonNumber
  import opened Letters
  import opened SyncErrors
  import opened SyncProgram
  import opened Text

  // ---------- what a text mentions ----------

  predicate MentionsPermission(error: string) {
    Mentions(error, "repository not found") || Mentions(error, "permission denied")
  }

  predicate MentionsAuthentication(error: string) {
    || Mentions(error, "authentication failed")
    || Mentions(error, "could not read username") || Mentions(error, "could not read password")
    || Mentions(error, "invalid username or password")
    || Mentions(error, "support for password authentication was removed")
    || Mentions(error, "http basic: access denied")
    || Mentions(error, "403") || Mentions(error, "401")
  }

  predicate MentionsConflict(error: string) {
    Mentions(error, "conflict") || Mentions(error, "unmerged")
  }

  lemma RequestMarks()
    ensures IsMark("login_required") && IsMark("workspace_not_bound_for_account") && IsMark("cloud_permission_denied")
  {
  }

  lemma ShortMarks()
    ensures IsMark("conflict") && IsMark("unmerged") && IsMark("nothing to commit")
    ensures IsMark("repository not found") && IsMark("permission denied") && IsMark("403") && IsMark("401")
  {
  }

  lemma LongMarks()
    ensures IsMark("authentication failed") && IsMark("could not read username") && IsMark("could not read password")
  {
  }

  lemma LongerMarks()
    ensures IsMark("invalid username or password") && IsMark("http basic: access denied")
  {
  }

  lemma LongestMark()
    ensures IsMark("support for password authentication was removed")
  {
    hide IsMark;
    var start, end := "support for password", "authentication was removed";
    assert "support for password authentication was removed" == start + " " + end;
    LongestHalves();
    TwoMarks(start, end);
  }

  lemma LongestHalves()
    ensures IsMark("support for password") && IsMark("authentication was removed")
  {
  }

  lemma TwoMarks(a: string, b: string)
    requires IsMark(a) && IsMark(b)
    ensures IsMark(a + " " + b)
  {
  }

  lemma PatternsAreMarks()
    ensures forall k :: 0 <= k < |AuthPatterns()| ==> IsMark(AuthPatterns()[k])
    ensures forall k :: 0 <= k < |PermissionPatterns()| ==> IsMark(PermissionPatterns()[k])
  {
    hide IsMark;
    ShortMarks();
    LongMarks();
    LongerMarks();
    LongestMark();
  }

  // Any of the patterns is found in the lowered text exactly if the text mentions it.
  lemma AnyMentioned(error: string, patterns: seq<string>)
    requires forall k :: 0 <= k < |patterns| ==> IsMark(patterns[k])
    ensures ContainsAny(ToLower(TrimSpace(ToLower(error))), patterns) <==>
            exists k :: 0 <= k < |patterns| && Mentions(error, patterns[k])
  {
    hide ToLower, TrimSpace, Contains, Mentions, IsMark;
    var text := ToLower(TrimSpace(ToLower(error)));
    forall k | 0 <= k < |patterns| ensures Contains(text, patterns[k]) <==> Mentions(error, patterns[k]) {
      LowerTrimLower(error, patterns[k]);
    }
    assert ContainsAny(text, patterns) <==> exists k :: 0 <= k < |patterns| && Contains(text, patterns[k]);
  }

  lemma PermissionMentioned(error: string)
    ensures IsPermissionErrorText(ToLower(error)) <==> MentionsPermission(error)
  {
    hide ToLower, TrimSpace, Contains, Mentions, IsMark, ContainsAny;
    PatternsAreMarks();
    AnyMentioned(error, PermissionPatterns());
    var p := PermissionPatterns();
    assert |p| == 2 && p[0] == "repository not found" && p[1] == "permission denied";
  }

  lemma AuthenticationMentioned(error: string)
    ensures IsAuthErrorText(ToLower(error)) <==> MentionsAuthentication(error)
  {
    hide ToLower, TrimSpace, Contains, Mentions, IsMark, ContainsAny;
    PatternsAreMarks();
    AnyMentioned(error, AuthPatterns());
    var p := AuthPatterns();
    assert |p| == 8 && p[0] == "authentication failed" && p[1] == "could not read username";
    assert p[2] == "could not read password" && p[3] == "invalid username or password";
    assert p[4] == "support for password authentication was removed" && p[5] == "http basic: access denied";
    assert p[6] == "403" && p[7] == "401";
  }

  // ---------- the codes ----------

  lemma GitErrorTold(error: string, fallback: Code)
    ensures ClassifyGitError(error, fallback) ==
            if MentionsPermission(error) then GitPermissionDenied
            else if MentionsAuthentication(error) then GitTokenExpired
            else if MentionsConflict(error) then GitConflict
            else fallback
  {
    hide ToLower, Contains, Mentions, IsMark, IsPermissionErrorText, IsAuthErrorText, MentionsPermission,
      MentionsAuthentication;
    ShortMarks();
    PermissionMentioned(error);
    AuthenticationMentioned(error);
    LowerMentions(error, "conflict");
    LowerMentions(error, "unmerged");
  }

  lemma RequestErrorTold(error: string)
    ensures ClassifyError(error) ==
            if Mentions(error, "login_required") then LoginRequired
            else if Mentions(error, "workspace_not_bound_for_account") then NotBoundForAccount
            else if Mentions(error, "cloud_permission_denied") then CloudPermissionDenied
            else if MentionsAuthentication(error) then GitTokenExpired
            else OtherError
  {
    hide ToLower, Contains, Mentions, IsMark, IsAuthErrorText, MentionsAuthentication;
    RequestMarks();
    AuthenticationMentioned(error);
    LowerMentions(error, "login_required");
    LowerMentions(error, "workspace_not_bound_for_account");
    LowerMentions(error, "cloud_permission_denied");
  }

  // ---------- the reports ----------

  // The report of a run blocked with a code, its advice, and the error's text trimmed.
  function BlockedWith(out: Report, code: Code, recovery: Recovery, retryable: bool, error: string): Report {
    out.(status := Blocked, code := code, recovery := recovery, retryable := retryable, message := TrimSpace(error))
  }

  // The advice that goes with each code a failure is told by.
  lemma AdviceTold(out: Report, error: string)
    ensures BlockedReport(out, LoginRequired, error) == BlockedWith(out, LoginRequired, SignInAgain, false, error)
    ensures BlockedReport(out, NotBoundForAccount, error) ==
            BlockedWith(out, NotBoundForAccount, SwitchOrRebindAccount, false, error)
    ensures BlockedReport(out, CloudPermissionDenied, error) ==
            BlockedWith(out, CloudPermissionDenied, AskForCloudAccess, false, error)
    ensures BlockedReport(out, GitTokenExpired, error) == BlockedWith(out, GitTokenExpired, RerunOnce, true, error)
    ensures BlockedReport(out, GitPermissionDenied, error) ==
            BlockedWith(out, GitPermissionDenied, ReconnectGitHub, false, error)
    ensures forall code ::
              code in {GitConflict, OtherError, GitFetchFailed, GitRebaseFailed, GitPushFailed} ==>
              BlockedReport(out, code, error) == BlockedWith(out, code, NoRecovery, false, error)
  {
    hide TrimSpace;
  }

  // A failed fetch, pull or push ends the run. A text about permission or a missing
  // repository asks to reconnect, one about authentication to run again, whatever else it
  // holds; a text about conflicts says so; any other gives the command's own code.
  lemma GitFailureTold(run: Run, error: string)
    requires run.phase == AskFetch || run.phase == AskPull || run.phase == AskPush
    ensures var failed :=
              if run.phase == AskFetch then GitFetchFailed
              else if run.phase == AskPull then GitRebaseFailed
              else GitPushFailed;
            Advance(run, Failed(error)) == Run(Done,
              if MentionsPermission(error) then
                BlockedWith(run.out, GitPermissionDenied, ReconnectGitHub, false, error)
              else if MentionsAuthentication(error) then
                BlockedWith(run.out, GitTokenExpired, RerunOnce, true, error)
              else if MentionsConflict(error) then BlockedWith(run.out, GitConflict, NoRecovery, false, error)
              else BlockedWith(run.out, failed, NoRecovery, false, error),
              run.url)
  {
    hide MentionsPermission, MentionsAuthentication, MentionsConflict, ClassifyGitError, BlockedReport, BlockedWith;
    AdviceTold(run.out, error);
    GitErrorTold(error, GitFetchFailed);
    GitErrorTold(error, GitRebaseFailed);
    GitErrorTold(error, GitPushFailed);
  }

  // A failed token request or trigger ends the run; the marks of the helper's own errors
  // come before those of git's.
  lemma RequestFailureTold(run: Run, error: string)
    requires run.phase == AskToken || run.phase == AskToken2 || run.phase == AskTrigger
    ensures Advance(run, Failed(error)) == Run(Done,
              if Mentions(error, "login_required") then
                BlockedWith(run.out, LoginRequired, SignInAgain, false, error)
              else if Mentions(error, "workspace_not_bound_for_account") then
                BlockedWith(run.out, NotBoundForAccount, SwitchOrRebindAccount, false, error)
              else if Mentions(error, "cloud_permission_denied") then
                BlockedWith(run.out, CloudPermissionDenied, AskForCloudAccess, false, error)
              else if MentionsAuthentication(error) then
                BlockedWith(run.out, GitTokenExpired, RerunOnce, true, error)
              else BlockedWith(run.out, OtherError, NoRecovery, false, error),
              run.url)
  {
    hide Mentions, MentionsAuthentication, ClassifyError, BlockedReport, BlockedWith;
    AdviceTold(run.out, error);
    RequestErrorTold(error);
  }

  // A failed listing, add or commit ends the run with one code each and no advice; only
  // after the pull is the listing's error trimmed. A commit that says there is nothing to
  // commit is no failure.
  lemma WorkFailureTold(run: Run, error: string)
    requires run.phase != Done && run.out.recovery == NoRecovery && !run.out.retryable
    ensures var next, out := Advance(run, Failed(error)), run.out;
            match CommandOf(run)
            case ShowTopLevel =>
              next.phase == Done &&
              next.out == out.(status := Blocked, code := NotGitRepository,
                               message := "workspace is not a git repository")
            case Status =>
              next.phase == Done &&
              next.out == out.(status := Blocked, code := GitStatusFailed,
                               message := if run.phase == AskStatus3 then TrimSpace(error) else error)
            case AddAll =>
              next.phase == Done && next.out == BlockedWith(out, GitAddFailed, NoRecovery, false, error)
            case Commit =>
              if Mentions(error, "nothing to commit") then
                next == run.(phase := if run.phase == AskCommit2 then AskPull else AskPush)
              else
                next.phase == Done && next.out == BlockedWith(out, GitCommitFailed, NoRecovery, false, error)
            case _ => true
  {
    hide Mentions, TrimSpace, ToLower, Contains, ClassifyError, ClassifyGitError, CountOf;
    ShortMarks();
    LowerMentions(error, "nothing to commit");
  }

  // What the searches and counts do not tell stops no run: a failed one finds nothing, and
  // the run goes on or ends by what is known already.
  lemma SearchFailureTold(run: Run, error: string)
    requires run.phase != Done
    ensures var next, out := Advance(run, Failed(error)), run.out;
            match CommandOf(run)
            case WalkTree => next == Run(AskStage, out.(nestedGit := []), run.url)
            case ListStage =>
              if out.nestedGit == [] then next == Run(AskToken, out.(gitlinks := []), run.url)
              else
                next.phase == Done &&
                next.out == out.(status := Blocked, code := NestedGit, gitlinks := [],
                                 message := "workspace contains nested git repositories or gitlinks")
            case CountBehind => next == run.(phase := AskAhead)
            case CountAhead =>
              if out.unmerged then
                next.phase == Done &&
                next.out == out.(status := Blocked, code := GitConflict,
                                 message := "workspace has unresolved git conflicts")
              else if out.dirty || out.ahead || out.behind then
                next == Run(AskToken2, out.(status := NeedsSync), run.url)
              else next.phase == Done && next.out == out.(status := Clean)
            case _ => true
  {
    hide TrimSpace, ClassifyError, ClassifyGitError, IsNothingToCommit, RecoveryFor, Retryable;
  }

  // The runs that stop although nothing failed: for want of a remote URL, and on conflicts
  // in a later listing.
  lemma RemoteMissingTold(run: Run)
    requires run.phase == AskToken2
    ensures Advance(run, Output("")) ==
            Run(Done, run.out.(status := Blocked, code := MissingRemote,
                               message := "workspace git remote URL is missing"), run.url)
  {
  }

  lemma ConflictTold(run: Run, text: string)
    requires (run.phase == AskStatus2 || run.phase == AskStatus3) && WithStatus(run.out, text).unmerged
    ensures Advance(run, Output(text)) ==
            Run(Done, WithStatus(run.out, text).(status := Blocked, code := GitConflict,
                        message := if run.phase == AskStatus3 then
                                     "workspace has unresolved git conflicts after rebase"
                                   else "workspace has unresolved git conflicts"), run.url)
  {
    hide WithStatus;
  }

  // ---------- counts ----------

  // The trimmed text begins with a number, with or without a plus.
  predicate BeginsWithNumber(t: string, sign: string, w: string, rest: string) {
    && t == sign + (w + rest) && (sign == "" || sign == "+") && w != "" && AllDigits(w)
    && (rest == "" || !IsDigit(rest[0]))
  }

  // A count is the number that its text begins with, if it is below 2^63; any other text and
  // a failure count as none.
  lemma CountTold(text: string, n: nat)
    requires n > 0
    ensures CountOf(Output(text)) == n <==>
            n < 0x8000_0000_0000_0000 &&
            exists sign, w, rest :: BeginsWithNumber(TrimSpace(text), sign, w, rest) && Undecimal(w) == n
    ensures forall error :: CountOf(Failed(error)) == 0
  {
    hide TrimSpace, Undecimal;
    var t := TrimSpace(text);
    var signed := t != "" && t[0] == '+';
    var digits := if signed then t[1..] else t;
    forall sign, w, rest | BeginsWithNumber(t, sign, w, rest) ensures digits[..Digits(digits)] == w {
      NumberFound(t, sign, w, rest);
    }
    if CountOf(Output(text)) == n {
      var k := Digits(digits);
      DigitsAreDigits(digits);
      NoDigitsNone();
      DigitsEnd(digits);
      var sign := if signed then "+" else "";
      assert t == sign + (digits[..k] + digits[k..]);
      assert BeginsWithNumber(t, sign, digits[..k], digits[k..]);
    }
  }

  lemma NoDigitsNone()
    ensures Undecimal("") == 0
  {
  }

  lemma {:induction false} DigitsEnd(s: string)
    ensures Digits(s) < |s| ==> !IsDigit(s[Digits(s)])
    decreases |s|
  {
    if s != "" && IsDigit(s[0]) { DigitsEnd(s[1..]); }
  }

  lemma NumberFound(t: string, sign: string, w: string, rest: string)
    requires BeginsWithNumber(t, sign, w, rest)
    ensures var digits := if t[0] == '+' then t[1..] else t; Digits(digits) == |w| && digits[..|w|] == w
  {
    DigitsStop(w, rest);
    assert sign == "" ==> t == w + rest && t[0] == w[0];
    assert sign == "+" ==> t[1..] == w + rest;
  }
}
