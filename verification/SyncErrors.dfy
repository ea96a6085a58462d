// Error codes of the Cloud Sync helper and how error texts are classified.
module SyncErrors {
  import opened Text

  datatype Code =
    | NoCode
    | NotGitRepository
    | NestedGit
    | LoginRequired
    | NotBoundForAccount
    | CloudPermissionDenied
    | GitTokenExpired
    | GitPermissionDenied
    | GitConflict
    | OtherError
    | GitFetchFailed
    | GitStatusFailed
    | MissingRemote
    | GitAddFailed
    | GitCommitFailed
    | GitRebaseFailed
    | GitPushFailed

  // Which advice recoveryForCode gives, if any.
  datatype Recovery =
    | NoRecovery
    | SignInAgain
    | RerunOnce
    | SwitchOrRebindAccount
    | AskForCloudAccess
    | ReconnectGitHub

  function AuthPatterns(): seq<string> {
    ["authentication failed", "could not read username", "could not read password", "invalid username or password",
     "support for password authentication was removed", "http basic: access denied", "403", "401"]
  }

  function PermissionPatterns(): seq<string> {
    ["repository not found", "permission denied"]
  }

  predicate ContainsAny(text: string, patterns: seq<string>) {
    exists p :: p in patterns && Contains(text, p)
  }

  predicate IsAuthErrorText(text: string) {
    ContainsAny(ToLower(TrimSpace(text)), AuthPatterns())
  }

  predicate IsPermissionErrorText(text: string) {
    ContainsAny(ToLower(TrimSpace(text)), PermissionPatterns())
  }

  function ClassifyError(error: string): Code {
    var text := ToLower(error);
    if Contains(text, "login_required") then LoginRequired
    else if Contains(text, "workspace_not_bound_for_account") then NotBoundForAccount
    else if Contains(text, "cloud_permission_denied") then CloudPermissionDenied
    else if IsAuthErrorText(text) then GitTokenExpired
    else OtherError
  }

  function ClassifyGitError(error: string, fallback: Code): Code {
    var text := ToLower(error);
    if IsPermissionErrorText(text) then GitPermissionDenied
    else if IsAuthErrorText(text) then GitTokenExpired
    else if Contains(text, "conflict") || Contains(text, "unmerged") then GitConflict
    else fallback
  }

  predicate Retryable(code: Code) {
    code == GitTokenExpired
  }

  function RecoveryFor(code: Code): Recovery {
    match code
    case LoginRequired => SignInAgain
    case GitTokenExpired => RerunOnce
    case NotBoundForAccount => SwitchOrRebindAccount
    case CloudPermissionDenied => AskForCloudAccess
    case GitPermissionDenied => ReconnectGitHub
    case _ => NoRecovery
  }

  // A failed commit that is not an error: there was nothing to commit.
  predicate IsNothingToCommit(error: string) {
    Contains(ToLower(error), "nothing to commit")
  }

  // ---------- the helper's own errors ----------

  function LoginError(detail: string): string {
    "login_required: " + detail
  }

  function NotBoundWords(workspaceID: string): seq<string> {
    ["workspace_not_bound_for_account:", "workspace", workspaceID, "is", "not", "bound", "for", "the", "current",
     "OpenBrain", "account"]
  }

  function NotBoundError(workspaceID: string): string {
    Join(NotBoundWords(workspaceID), " ")
  }

  function PermissionWords(workspaceID: string): seq<string> {
    ["cloud_permission_denied:", "permission", "required", "for", "workspace", workspaceID]
  }

  function PermissionError(workspaceID: string): string {
    Join(PermissionWords(workspaceID), " ")
  }

  predicate AnyMarked(words: seq<string>, m: string) {
    exists u :: u in words && Contains(ToLower(u), m)
  }

  lemma {:induction false} MarkInWords(words: seq<string>, m: string)
    requires words != [] && ' ' !in m
    ensures Contains(ToLower(Join(words, " ")), m) <==> AnyMarked(words, m)
    decreases |words|
  {
    hide Contains, ToLower;
    if |words| == 1 {
      assert words[0] in words;
    } else {
      var rest := words[1..];
      MarkInWords(rest, m);
      LowerAcross(words[0], Join(rest, " "));
      ContainsAcross(ToLower(words[0]), ToLower(Join(rest, " ")), m);
      assert words == [words[0]] + rest;
      assert AnyMarked(words, m) <==> Contains(ToLower(words[0]), m) || AnyMarked(rest, m);
    }
  }

  lemma LowerAcross(a: string, b: string)
    ensures ToLower(a + " " + b) == ToLower(a) + " " + ToLower(b)
  {
    hide ToLower;
    LowerSpace();
    assert (" " + b)[0] == ' ';
    LowerConcat(a, " " + b);
    LowerConcat(" ", b);
    assert a + " " + b == a + (" " + b);
    assert ToLower(a) + " " + ToLower(b) == ToLower(a) + (" " + ToLower(b));
  }

  lemma LowerSpace()
    ensures ToLower(" ") == " "
  {
    LowerAscii(" ");
  }

  lemma Unmarked(u: string, m: string)
    requires |u| < |m|
    ensures !Contains(ToLower(u), m)
  {
    hide ToLower;
  }

  // Nothing that lacks the letter at k of a mark, wherever the letter before fits, holds it.
  lemma TwoLettersUnmarked(u: string, m: string, k: nat)
    requires 0 < k < |m|
    requires forall i :: 0 <= i && i + k < |u| && u[i] == m[0] ==> u[i + k] != m[k]
    ensures !Contains(u, m)
  {
    forall i | 0 <= i <= |u| ensures !MatchAt(u, m, i) {
      if i + |m| <= |u| {
        assert u[i..i + |m|][0] == u[i] && u[i..i + |m|][k] == u[i + k];
      }
    }
  }

  lemma NotBoundUnmarked()
    ensures !Contains(ToLower("workspace_not_bound_for_account:"), "login_required")
  {
    hide ToLower, Contains;
    var w := "workspace_not_bound_for_account:";
    LowerAscii(w);
    TwoLettersUnmarked(ToLower(w), "login_required", 2);
  }

  lemma PermissionUnmarked()
    ensures !Contains(ToLower("cloud_permission_denied:"), "login_required")
  {
    hide ToLower, Contains;
    var w := "cloud_permission_denied:";
    LowerAscii(w);
    TwoLettersUnmarked(ToLower(w), "login_required", 2);
  }

  lemma StartsMarked(m: string, rest: string)
    ensures Contains(m + rest, m)
  {
    assert MatchAt(m + rest, m, 0);
  }

  // An error for a missing sign-in is always told as one.
  lemma LoginErrorTold(detail: string)
    ensures ClassifyError(LoginError(detail)) == LoginRequired
  {
    hide ToLower, Contains;
    var tag := "login_required";
    LowerAscii(tag);
    assert ToLower(tag) == tag;
    assert LoginError(detail) == tag + (": " + detail);
    LowerConcat(tag, ": " + detail);
    StartsMarked(tag, ToLower(": " + detail));
  }

  // Words shorter than a mark do not hold it, so only the tag and the identifier can.
  lemma MarkInTwo(words: seq<string>, i: nat, j: nat, m: string)
    requires i < |words| && j < |words| && ' ' !in m
    requires forall k :: 0 <= k < |words| && k != i && k != j ==> |words[k]| < |m|
    ensures Contains(ToLower(Join(words, " ")), m) <==> Contains(ToLower(words[i]), m) || Contains(ToLower(words[j]), m)
  {
    hide Contains, ToLower, Join;
    MarkInWords(words, m);
    assert words[i] in words && words[j] in words;
    forall u | u in words && u != words[i] && u != words[j] ensures !Contains(ToLower(u), m) {
      Unmarked(u, m);
    }
  }

  lemma NotBoundShape(workspaceID: string)
    ensures var words := NotBoundWords(workspaceID);
            && |words| == 11 && words[0] == "workspace_not_bound_for_account:" && words[2] == workspaceID
            && forall k :: 0 <= k < 11 && k != 0 && k != 2 ==> |words[k]| < 14
  {
  }

  lemma NotBoundMarked()
    ensures Contains(ToLower("workspace_not_bound_for_account:"), "workspace_not_bound_for_account")
  {
    hide ToLower, Contains;
    var m := "workspace_not_bound_for_account";
    LowerAscii("workspace_not_bound_for_account:");
    assert ToLower("workspace_not_bound_for_account:") == m + ":";
    StartsMarked(m, ":");
  }

  // The error for a workspace of another account is told as one exactly unless the
  // workspace's own identifier says otherwise.
  lemma NotBoundTold(workspaceID: string)
    ensures ClassifyError(NotBoundError(workspaceID)) ==
            if Contains(ToLower(workspaceID), "login_required") then LoginRequired else NotBoundForAccount
  {
    hide Contains, ToLower, IsAuthErrorText, NotBoundWords, Join;
    NotBoundShape(workspaceID);
    NotBoundUnmarked();
    NotBoundMarked();
    MarkInTwo(NotBoundWords(workspaceID), 0, 2, "login_required");
    MarkInTwo(NotBoundWords(workspaceID), 0, 2, "workspace_not_bound_for_account");
  }

  lemma PermissionShape(workspaceID: string)
    ensures var words := PermissionWords(workspaceID);
            && |words| == 6 && words[0] == "cloud_permission_denied:" && words[5] == workspaceID
            && forall k :: 0 <= k < 6 && k != 0 && k != 5 ==> |words[k]| < 14
  {
  }

  lemma PermissionMarked()
    ensures Contains(ToLower("cloud_permission_denied:"), "cloud_permission_denied")
    ensures !Contains(ToLower("cloud_permission_denied:"), "workspace_not_bound_for_account")
  {
    hide ToLower, Contains;
    var m := "cloud_permission_denied";
    LowerAscii("cloud_permission_denied:");
    assert ToLower("cloud_permission_denied:") == m + ":";
    StartsMarked(m, ":");
    Unmarked("cloud_permission_denied:", "workspace_not_bound_for_account");
  }

  // So with the error for a permission the account lacks, whose identifier may hold either
  // of the marks looked for before.
  lemma PermissionTold(workspaceID: string)
    ensures ClassifyError(PermissionError(workspaceID)) ==
            if Contains(ToLower(workspaceID), "login_required") then LoginRequired
            else if Contains(ToLower(workspaceID), "workspace_not_bound_for_account") then NotBoundForAccount
            else CloudPermissionDenied
  {
    hide Contains, ToLower, IsAuthErrorText, PermissionWords, Join;
    PermissionShape(workspaceID);
    PermissionUnmarked();
    PermissionMarked();
    MarkInTwo(PermissionWords(workspaceID), 0, 5, "login_required");
    MarkInTwo(PermissionWords(workspaceID), 0, 5, "workspace_not_bound_for_account");
    MarkInTwo(PermissionWords(workspaceID), 0, 5, "cloud_permission_denied");
  }
}
