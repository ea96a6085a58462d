# OpenBrain: verified models

Dafny models of five parts of OpenBrain whose correctness rests on state, text or arithmetic,
with proofs of what each part is for. `dafny verify dfyconfig.toml` checks everything.

- **Cloud Sync** (`SyncProgram`, `SyncHelper`, `Porcelain`, `NestedGit`, `AllowList`,
  `SyncErrors`, `Failures`, `StageText`, `Words`, `GitModel`, `Fleet`, `Shared`,
  `SharedBreaks`, `Solo`, `QuietRuns`). `SyncProgram` is the helper as a machine that asks for
  one command at a time: preflight, add, commit, pull with rebase, listing, push, trigger, with
  an early exit at every step. `SyncHelper` is the helper as it is written, with objects whose
  fields are updated and each of the two long functions in a few methods, proved to ask the
  machine's commands and give its report. `Porcelain` reads git's status text, `NestedGit`
  walks the directory tree, `AllowList` says what an entry of the allow list does, `StageText`
  reads the index listing, `Failures` tells the report from the text of a failure. `GitModel`
  states the small contracts the helper relies on git for: a push lands only as a fast-forward
  and may have landed although it failed; a rebase keeps all changes and sets the old head
  aside if it stops; an add stages everything pending; "nothing to commit" is said only when
  nothing is staged; fetch, pull and push need a branch to exist, and a count needs a commit at
  both ends; any command may fail. Status answers are the printed text, so the flags go through
  the real parser. `Fleet` interleaves any number of clones and other writers, one command at a
  time; `Shared` interleaves several runs in one clone; `Solo` looks at runs in which nothing
  goes wrong, and `QuietRuns` shows when there are such runs.
- **Remote Control wire contract** (`Wire`, `WireRules`, `WireSize`, `WireBytes`,
  `WireRoundTrip`, `WireReading`, `WireSafety`, `Chunking`, and below them `JsonString`,
  `JsonLiterals`, `JsonNumber`, `Json`, `JsonText`, `JsonCompact`, `Base64`). Validation,
  marshalling and unmarshalling at byte level, following RFC 8259, RFC 4648 and RFC 3629 as
  Go's `encoding/json` and `encoding/base64` implement them: replacement of bad bytes, HTML
  escaping, compaction of raw messages, matching of member names without regard to case, the
  nesting limit. What is read is characterised for frames from any sender, not only for those
  this side writes.
- **Guardian metadata** (`Guardian`, `Paths`, `PathWalk`, `Sorting`). Lexical path
  classification, truncation at rune boundaries, bounded distinct names, canonical order of
  resources.
- **Header placeholders** (`Headers`). Substitution of the session token in headers.
- **Product policy** (`Policy`). Managed cron tasks and the source scope of tool calls.

`Options` holds the type of a value that may be missing, `Text` the functions of Go's `strings`
package in use, `Letters` what lower-casing finds, `Utf8` and `CodePoints` the encoding and
white space by code point. Strings are sequences of characters that stand for bytes.

Seven things the code does that a reader might not expect, stated as theorems:

- A count of revisions that fails is taken for none, so a run may end clean with commits that
  the remote lacks (`Solo.UncountedClean`), and so may a run without a remote URL
  (`Solo.UnfetchedClean`); with a fetch and a successful count it cannot
  (`Fleet.PromisesKept`).
- Two runs in one clone can spoil each other: if one's pull stops in a rebase before the other
  pushes, the other may end synced without its commits on the remote
  (`SharedBreaks.SharedPromiseBreaks`); it keeps its promise if no other run's pull stops
  between its own pull and its push (`Shared.SyncedUnlessPullStops`).
- The branch line is searched for "ahead " and "behind " as text, so an upstream branch whose
  name ends in either word raises the flag whenever the line has a marker, and a branch named
  by white space outside ASCII alone makes a clean tree look dirty (`Porcelain.StatusReads`).
- An envelope with identifiers that are not valid UTF-8 can encode to bytes that do not decode
  (`WireRoundTrip.BadIdentifier`); `WireRoundTrip.DecodesExactly` says exactly which.
- Errors are classified by searching their text, so a workspace identifier that contains
  another error's mark decides the code (`SyncErrors.PermissionTold`).
- An allowed path that itself begins or ends with white space is allowed only with a slash at
  that end (`AllowList.EntryAllows`).
- A gitlink whose path is blank is not found (`NestedGit.StageLineReads`), and a workspace
  whose own directory is called `.git` is reported as nested in its parent
  (`NestedGit.NestedExactly`).

## Model

| member | source | states |
|---|---|---|
| Fleet.PromisesKept | skills/openbrain-cloud-sync/cmd/openbrain-cloud-sync-helper/main.go:345-431 | In every interleaving, command by command, of any number of clones running the helper against one remote branch, with other pushes and local work in between: the remote history only grows at its end, and every change a run had seen when it vouched for it (by ending synced, or clean after a fetch and a successful count) is in the remote history at every later moment |
| Fleet.SyncedIsDurable | skills/openbrain-cloud-sync/cmd/openbrain-cloud-sync-helper/main.go:345-431 | When a run has ended synced, everything its clone held when the run began and everything the run saw in its commits or a status listing is in the remote history from then on |
| Fleet.NothingLost | skills/openbrain-cloud-sync/cmd/openbrain-cloud-sync-helper/main.go:286-431 | At every moment of every interleaving, whichever command failed and however the run ended, and until someone takes the idle clone over, the clone still holds everything it held when the run began: in the tree, the index, the branch, or the branch an interrupted rebase set aside |
| Fleet.NextFine | skills/openbrain-cloud-sync/cmd/openbrain-cloud-sync-helper/main.go:286-431 | One event of any kind keeps the invariant that places the seen changes by phase (tree or later before the add, index or later before the commit, branch before the pull and the push, remote before the trigger) |
| Fleet.RanFine | skills/openbrain-cloud-sync/cmd/openbrain-cloud-sync-helper/main.go:286-431 | Every command of the helper, with every answer the contracts allow, keeps that invariant for its clone; what a run vouches for is on the remote at that very step |
| Fleet.RebaseLeftByPull | skills/openbrain-cloud-sync/cmd/openbrain-cloud-sync-helper/main.go:394-396 | Unless someone takes an idle clone over, it comes to be in the middle of a rebase only by a failed pull; then the old head is set aside, the remote is unchanged and the run is blocked |
| Fleet.PreflightOnlyLooks | skills/openbrain-cloud-sync/cmd/openbrain-cloud-sync-helper/main.go:286-343 | Up to the second token request the helper changes nothing but FETCH_HEAD |
| Fleet.PushedBeforeTrigger | skills/openbrain-cloud-sync/cmd/openbrain-cloud-sync-helper/main.go:418-423 | When the brain trigger is asked for, everything seen is already on the remote; a failing trigger blocks the run all the same |
| Fleet.NoneMissing | skills/openbrain-cloud-sync/cmd/openbrain-cloud-sync-helper/main.go:508-530 | If the remote holds FETCH_HEAD and the count of FETCH_HEAD..HEAD is read as none, the remote holds all committed changes |
| Shared.SafePushKeepsPromise | skills/openbrain-cloud-sync/cmd/openbrain-cloud-sync-helper/main.go:345-431 | With any number of runs in one clone at once, a run that ends synced and pushed while no rebase was interrupted in the clone has all it saw on the remote from then on |
| Shared.SyncedUnlessPullStops | skills/openbrain-cloud-sync/cmd/openbrain-cloud-sync-helper/main.go:345-431 | With any number of runs in one clone at once, every run that begins and ends synced makes its pull and then its push; unless between the two the pull of a run stops in its rebase, everything it saw is on the remote from its end on |
| Shared.PromiseKeptUnlessPullStops | skills/openbrain-cloud-sync/cmd/openbrain-cloud-sync-helper/main.go:394-420 | The step behind it: what a run has seen by a push that went through is on the remote from then on if no pull has stopped since the run's own pull |
| Shared.StaysUninterrupted | skills/openbrain-cloud-sync/cmd/openbrain-cloud-sync-helper/main.go:394-396 | From any moment to any later one: if no rebase is interrupted, a run is under way throughout and no pull stops, no rebase is interrupted at the end |
| Shared.InterruptedByPull | skills/openbrain-cloud-sync/cmd/openbrain-cloud-sync-helper/main.go:394-396 | Unless someone takes the clone over while no run is under way, nothing interrupts a rebase but a run's pull that stops, and that run is blocked |
| Shared.OwnPullLeavesNoRebase | skills/openbrain-cloud-sync/cmd/openbrain-cloud-sync-helper/main.go:394-400 | A run that goes on after its pull leaves no rebase interrupted |
| Shared.SharedNothingLost | skills/openbrain-cloud-sync/cmd/openbrain-cloud-sync-helper/main.go:286-431 | Whatever any number of runs in one clone, and everyone else, do in any order while the clone is not taken over, it goes on holding everything it held, from any moment to any later one |
| SharedBreaks.SharedPromiseBreaks | skills/openbrain-cloud-sync/cmd/openbrain-cloud-sync-helper/main.go:345-431 | The condition is needed: for a clone in step with its remote branch, whatever the branch holds from one commit on (short of 2^63), and any one new edit, there is a trace of two runs in the clone, from their start, in which the first sees the edit, ends synced, and the edit is not on the remote |
| SharedBreaks.StoppedPullBreaks | skills/openbrain-cloud-sync/cmd/openbrain-cloud-sync-helper/main.go:394-420 | From every state in which one run is about to push and another to pull, onto a branch that exists, with no rebase interrupted, no conflict and nothing staged, three events end the first run synced with the remote unchanged: what it saw and the remote lacked, the remote still lacks |
| Solo.QuietRunSyncs | skills/openbrain-cloud-sync/cmd/openbrain-cloud-sync-helper/main.go:286-431 | With no failure and no interference, a run from any clone that is not mid-rebase and has no conflict, gitlink or nested repository ends clean or synced, with nothing pending, the remote at HEAD and all the clone's changes in it |
| Solo.RerunStable | skills/openbrain-cloud-sync/cmd/openbrain-cloud-sync-helper/main.go:286-431 | From such an end, another quiet run leaves branch, tree and remote as they are, ends clean or synced, and ends clean exactly when the first listing raises no flag |
| Solo.RerunCleanByHeader | skills/openbrain-cloud-sync/cmd/openbrain-cloud-sync-helper/main.go:486-506 | In terms of the branch line: such a run ends clean exactly when the line tells neither ahead nor behind (and is not a branch name lost to trimming) |
| Solo.RunTwice | skills/openbrain-cloud-sync/cmd/openbrain-cloud-sync-helper/main.go:286-431 | A quiet run followed by another, unless the first brought in a gitlink or nested repository: the second is stable in that sense |
| Solo.StaleUpstreamNeverClean | skills/openbrain-cloud-sync/cmd/openbrain-cloud-sync-helper/main.go:486-518 | A tracking reference that differs from HEAD, as a push by URL leaves it, keeps a settled clone from ever being found clean: the run goes on to synced |
| QuietRuns.QuietRunExists | skills/openbrain-cloud-sync/cmd/openbrain-cloud-sync-helper/main.go:286-431 | The contracts leave a way through: every such clone, whatever is pending and whatever the remote holds, has a quiet run if both branches have a commit (and fewer than 2^63, so that counts can be read) |
| QuietRuns.QuietRunNeedsCommits | skills/openbrain-cloud-sync/cmd/openbrain-cloud-sync-helper/main.go:317-332 | And only then: without a commit on either branch the fetch or a count fails |
| Solo.UncountedClean | skills/openbrain-cloud-sync/cmd/openbrain-cloud-sync-helper/main.go:508-530 | The condition on a vouched clean is needed: whatever a clone with nothing pending has committed and whatever commits the remote holds, there is a run in which only the counts fail and which ends clean, unless a tracking reference away from HEAD makes the listing itself raise a flag |
| Solo.UnfetchedClean | skills/openbrain-cloud-sync/cmd/openbrain-cloud-sync-helper/main.go:317-321 | So is the fetch: without a remote URL such a clone, if FETCH_HEAD is at HEAD, has a run in which nothing fails and which ends clean whatever the remote holds |
| Solo.PreflightLists | skills/openbrain-cloud-sync/cmd/openbrain-cloud-sync-helper/main.go:286-330 | Every quiet run of a clone the helper may work on makes its first listing, as its sixth command |
| SyncProgram.ResultContract | skills/openbrain-cloud-sync/cmd/openbrain-cloud-sync-helper/main.go:286-440 | Over every sequence of answers: a finished run is blocked, clean or synced; it has a code exactly when blocked, with exactly that code's advice and retryability; clean and synced carry no flag and no message; the nested_git code goes with a nonempty list and only with it |
| SyncProgram.AdvanceGood | skills/openbrain-cloud-sync/cmd/openbrain-cloud-sync-helper/main.go:286-431 | Each answer to each command keeps the report's invariant between commands |
| SyncProgram.RunEnds | skills/openbrain-cloud-sync/cmd/openbrain-cloud-sync-helper/main.go:286-431 | Every run ends after at most 18 commands |
| SyncErrors.LoginErrorTold | skills/openbrain-cloud-sync/cmd/openbrain-cloud-sync-helper/main.go:865-883 | An error the helper tags login_required is always classified so |
| SyncErrors.NotBoundTold | skills/openbrain-cloud-sync/cmd/openbrain-cloud-sync-helper/main.go:244-256 | The error for a workspace of another account is classified so exactly unless the workspace's identifier, lower-cased as Go does, contains login_required |
| SyncErrors.PermissionTold | skills/openbrain-cloud-sync/cmd/openbrain-cloud-sync-helper/main.go:620-622 | The error for a missing Cloud permission is classified so exactly unless the workspace's identifier, lower-cased as Go does, contains one of the two marks looked for before |
| Failures.GitFailureTold | skills/openbrain-cloud-sync/cmd/openbrain-cloud-sync-helper/main.go:885-897 | Over every text: a failed fetch, pull or push ends the run blocked; a text that spells repository not found or permission denied anywhere, in any letter case, gives git_permission_denied with the advice to reconnect and is not retryable; else one that spells any of the eight marks of authentication gives git_token_expired, rerun, retryable; else conflict or unmerged gives git_conflict; else the code of the command that failed, without advice |
| Failures.RequestFailureTold | skills/openbrain-cloud-sync/cmd/openbrain-cloud-sync-helper/main.go:868-882 | A failed token request or trigger, over every text: login_required, workspace_not_bound_for_account, cloud_permission_denied and the marks of authentication in that order, each with its advice, else the code error without any |
| Failures.WorkFailureTold | skills/openbrain-cloud-sync/cmd/openbrain-cloud-sync-helper/main.go:384-403 | A failed repository check, listing, add or commit ends the run with one code each, without advice; only the listing after the pull has its text trimmed; a commit whose text spells nothing to commit is no failure |
| Failures.SearchFailureTold | skills/openbrain-cloud-sync/cmd/openbrain-cloud-sync-helper/main.go:296-342 | A failed walk, index listing or count stops nothing of itself: the run goes on or ends by what is known already |
| Failures.RemoteMissingTold | skills/openbrain-cloud-sync/cmd/openbrain-cloud-sync-helper/main.go:364-369 | Without a remote URL the second token request ends the run as missing_remote |
| Failures.ConflictTold | skills/openbrain-cloud-sync/cmd/openbrain-cloud-sync-helper/main.go:377-407 | A later listing that shows conflicts ends the run as git_conflict; the message tells whether the pull came before |
| Failures.CountTold | skills/openbrain-cloud-sync/cmd/openbrain-cloud-sync-helper/main.go:520-530 | Over every text: a count is the number its trimmed text begins with, with or without a plus, if it is below 2^63; any other text and a failure count as none |
| Letters.LowerMentions | skills/openbrain-cloud-sync/cmd/openbrain-cloud-sync-helper/main.go:869-897 | Searching a lower-cased text for a word finds it exactly if the text spells the word somewhere, each letter in either case, U+0130 and U+212A included |
| Letters.LowerTrimLower | skills/openbrain-cloud-sync/cmd/openbrain-cloud-sync-helper/main.go:900-947 | Trimming and lower-casing again changes nothing about that |
| CodePoints.TrimExactly | skills/openbrain-cloud-sync/cmd/openbrain-cloud-sync-helper/main.go:855 | Trimming takes away white space, by code point, at both ends and nothing else |
| CodePoints.TrimSplits | skills/openbrain-cloud-sync/cmd/openbrain-cloud-sync-helper/main.go:855 | And every text is what trimming leaves of it between white space |
| CodePoints.SpaceExactly | skills/openbrain-cloud-sync/cmd/openbrain-cloud-sync-helper/main.go:855 | White space is found by its bytes exactly where a rune with the property White_Space begins |
| SyncHelper.Shell.Ask | skills/openbrain-cloud-sync/cmd/openbrain-cloud-sync-helper/main.go:845-863 | Only the machine's next command may be asked; its answer, read by runGit if the command is git's, advances the machine |
| SyncHelper.DetectRepositories | skills/openbrain-cloud-sync/cmd/openbrain-cloud-sync-helper/main.go:296-298 | The walk and the index listing give the two lists the machine decides on |
| SyncHelper.ApplyFetchHeadStatus | skills/openbrain-cloud-sync/cmd/openbrain-cloud-sync-helper/main.go:508-518 | The counts are asked in order, leave the verdict to the machine's, and only ever raise behind and ahead |
| SyncHelper.CommitAll | skills/openbrain-cloud-sync/cmd/openbrain-cloud-sync-helper/main.go:384-393 | Add and commit: fails the run or leaves the report as it was |
| SyncHelper.CommitStaged | skills/openbrain-cloud-sync/cmd/openbrain-cloud-sync-helper/main.go:388-392 | A commit that finds nothing to commit is no failure |
| SyncHelper.SyncWorkspace | skills/openbrain-cloud-sync/cmd/openbrain-cloud-sync-helper/main.go:345-431 | The imperative program asks exactly the machine's commands, in the machine's order, and returns exactly the machine's final report |
| SyncHelper.PreflightWorkspace | skills/openbrain-cloud-sync/cmd/openbrain-cloud-sync-helper/main.go:286-343 | Preflight leaves the machine finished, or at the second token request exactly when it reports needs_sync |
| SyncHelper.PreflightStatus | skills/openbrain-cloud-sync/cmd/openbrain-cloud-sync-helper/main.go:305-342 | The part of preflight from the token request on: fetch only with a remote URL, listing, counts, verdict |
| SyncHelper.PullAndPush | skills/openbrain-cloud-sync/cmd/openbrain-cloud-sync-helper/main.go:394-430 | From the pull to the end, the machine's commands and report |
| SyncHelper.PushAndTrigger | skills/openbrain-cloud-sync/cmd/openbrain-cloud-sync-helper/main.go:418-430 | From the push to the end, the machine's commands and report |
| SyncHelper.WorkspaceResult.ApplyStatus | skills/openbrain-cloud-sync/cmd/openbrain-cloud-sync-helper/main.go:486-506 | The loop leaves in the four flags the fold of the lines, whatever they were before |
| SyncHelper.WorkspaceResult.ApplyStatusText | skills/openbrain-cloud-sync/cmd/openbrain-cloud-sync-helper/main.go:471-506 | Listing and folding touch nothing of the report but the four flags |
| SyncHelper.WorkspaceResult.Block | skills/openbrain-cloud-sync/cmd/openbrain-cloud-sync-helper/main.go:433-440 | Blocking sets status, code, trimmed message and the code's advice, nothing else |
| SyncHelper.RunSync | skills/openbrain-cloud-sync/cmd/openbrain-cloud-sync-helper/main.go:218-224 | The command is ok exactly when the finished report has no code, and the report is consistent |
| GitModel.StepGrowsRemote | skills/openbrain-cloud-sync/cmd/openbrain-cloud-sync-helper/main.go:418-420 | Under the stated git contracts no command of the helper rewrites the remote branch |
| GitModel.StepHolds | skills/openbrain-cloud-sync/cmd/openbrain-cloud-sync-helper/main.go:384-420 | Under the stated git contracts no command of the helper loses a change the clone holds |
| GitModel.StatusFlags | skills/openbrain-cloud-sync/cmd/openbrain-cloud-sync-helper/main.go:471-506 | The flags read from a listing tell the clone's state: dirty for pending or unmerged, unmerged exactly, ahead and behind as the branch line tells |
| GitModel.CountReads | skills/openbrain-cloud-sync/cmd/openbrain-cloud-sync-helper/main.go:520-530 | A count printed in decimal is read back as itself |
| Porcelain.StatusReads | skills/openbrain-cloud-sync/cmd/openbrain-cloud-sync-helper/main.go:471-506 | Printing any branch line and any list of legal entries, trimming as runGit does, splitting and folding: dirty exactly when there are entries (or a lone branch name of nothing but white space is trimmed away), unmerged exactly for the seven codes, ahead and behind exactly when the branch line tells so, by its marker or by an upstream name that ends in the word before a marker |
| Porcelain.GitStatus | skills/openbrain-cloud-sync/cmd/openbrain-cloud-sync-helper/main.go:471-484 | The loop keeps the nonblank lines without their trailing carriage returns |
| Porcelain.TrimsReturns | skills/openbrain-cloud-sync/cmd/openbrain-cloud-sync-helper/main.go:478 | A line keeps everything in front of the carriage returns it ends in |
| Porcelain.HeaderReads | skills/openbrain-cloud-sync/cmd/openbrain-cloud-sync-helper/main.go:492-496 | What the branch line shows after trimming, for every form of it |
| Porcelain.EntryApplies | skills/openbrain-cloud-sync/cmd/openbrain-cloud-sync-helper/main.go:497-504 | An entry's line raises dirty, and unmerged exactly for the seven codes |
| Porcelain.EntryLine | skills/openbrain-cloud-sync/cmd/openbrain-cloud-sync-helper/main.go:474-481 | No entry's line is lost or made blank by the trimming, last line or not |
| Porcelain.TextTrims | skills/openbrain-cloud-sync/cmd/openbrain-cloud-sync-helper/main.go:855 | Trimming the whole text trims only its last line |
| Porcelain.WordsContain | skills/openbrain-cloud-sync/cmd/openbrain-cloud-sync-helper/main.go:493-494 | A text of words contains a word and a space exactly when a word but the last ends in it |
| NestedGit.NestedExactly | skills/openbrain-cloud-sync/cmd/openbrain-cloud-sync-helper/main.go:541-564 | The nested list is, strictly increasing, exactly the directories below the root with a .git entry, not at or below .git, node_modules or .cache, and not allowed; for a root itself called .git it is its parent |
| NestedGit.AllowMore | skills/openbrain-cloud-sync/cmd/openbrain-cloud-sync-helper/main.go:533-552 | Extending the allow list removes exactly the added paths in normalised form |
| NestedGit.Walk | skills/openbrain-cloud-sync/cmd/openbrain-cloud-sync-helper/main.go:542-564 | The recursive walk appends to what was found before exactly what the tree holds |
| NestedGit.ReadAllowed | skills/openbrain-cloud-sync/cmd/openbrain-cloud-sync-helper/main.go:533-540 | The loop collects the nonempty normalised paths |
| AllowList.EntryAllows | skills/openbrain-cloud-sync/cmd/openbrain-cloud-sync-helper/main.go:533-552 | An entry for any path of names, with any slashes at its ends and any white space around it, takes exactly that path off the list; white space of the path's own at an end counts exactly if a slash shields it, and without one the path stays listed |
| AllowList.EmptyEntryAllowsNothing | skills/openbrain-cloud-sync/cmd/openbrain-cloud-sync-helper/main.go:533-540 | An entry of slashes alone, or of nothing, with any white space around it, changes nothing |
| AllowList.AllowedPlain | skills/openbrain-cloud-sync/cmd/openbrain-cloud-sync-helper/main.go:533-540 | No allowed path is empty or begins or ends with a slash |
| NestedGit.ReadGitlinks | skills/openbrain-cloud-sync/cmd/openbrain-cloud-sync-helper/main.go:565-577 | The loop collects the gitlinks of the stage lines and sorts them |
| NestedGit.DetectNestedGit | skills/openbrain-cloud-sync/cmd/openbrain-cloud-sync-helper/main.go:532-579 | The nested list depends on tree and allow list, the gitlinks on the stage text alone, none if it failed |
| StageText.StageTextReads | skills/openbrain-cloud-sync/cmd/openbrain-cloud-sync-helper/main.go:565-577 | Printing any index, trimming as runGit does, splitting and collecting gives, sorted, the last word of the path of every gitlink whose path is not blank, and nothing else |
| StageText.GitlinksFound | skills/openbrain-cloud-sync/cmd/openbrain-cloud-sync-helper/main.go:565-577 | A gitlink is found exactly if one is staged at a path that is not blank |
| StageText.FieldsTrimmed | skills/openbrain-cloud-sync/cmd/openbrain-cloud-sync-helper/main.go:568-572 | Trimming the end of a line does not change its fields |
| Words.FieldsExactly | skills/openbrain-cloud-sync/cmd/openbrain-cloud-sync-helper/main.go:570 | The fields of a text are some words exactly if it holds them in order, each without white space by code point, with white space between and nothing else |
| NestedGit.StageLineReads | skills/openbrain-cloud-sync/cmd/openbrain-cloud-sync-helper/main.go:569-574 | A stage line yields a gitlink exactly when its mode is 160000 and its path is not blank, and then the path's last word |
| WireRoundTrip.DecodesExactly | protocol/remotecontrol/protocol.go:237-276 | For every envelope that encodes, what decoding its bytes gives: the same envelope with bad bytes replaced and raw messages compacted, or invalid_envelope exactly when the raw messages nest too deeply or a replacement makes an identifier or the cursor too long |
| WireRoundTrip.RoundTrip | protocol/remotecontrol/protocol.go:237-276 | For valid UTF-8 strings, decoding succeeds exactly when the nesting fits, returns the same envelope up to white space and escaping in payload and details, and the result encodes to the same bytes |
| WireRoundTrip.BadIdentifier | protocol/remotecontrol/protocol.go:237-262 | The UTF-8 hypothesis is needed: a ping whose clientID is n bytes 0xFF encodes for n up to 128 and decodes exactly when 3n is at most 128 |
| WireReading.FramesReadExactly | protocol/remotecontrol/protocol.go:237-249 | For every frame and envelope: the frame is read as the envelope exactly if it has at most 256 KiB, holds the envelope, and the envelope is valid. A frame holds an envelope if it is a JSON text in any layout, at most 10000 levels deep, of null or an object whose members, in any order and with repeats, all fit their fields and say the envelope's fields: the last one of a name counts, nulls leave texts and numbers alone and clear an error or a chunk, several objects for one of these add up, names are in any letter case, texts are literals written in any legal way |
| WireReading.FramesRefusedExactly | protocol/remotecontrol/protocol.go:237-249 | Every other frame is refused: with the code of the envelope it holds, or as invalid_envelope if it holds none |
| WireReading.FillExactly | protocol/remotecontrol/protocol.go:156-182 | Filling an envelope from members succeeds exactly if every member fits its field, those overruled later included; then each field is what was last said of it, or what it was |
| WireReading.FieldOfExactly | protocol/remotecontrol/protocol.go:156-168 | A key is for a field exactly if it spells the field's name in any letter case, U+017F taken for an s and U+212A for a k |
| WireRules.AcceptsExactly | protocol/remotecontrol/protocol.go:278-356 | For every envelope, the verdict and its code: incompatible for another version, invalid unless the kind's table of needed fields and all sizes are met, denied exactly for a needed operation that is not known |
| WireRules.ChunkCarriesExactly | protocol/remotecontrol/protocol.go:358-379 | Which bytes a chunk can carry: those of any segment numbered below a count of at most 64, of a message within the limit, from 1 to 196608 bytes, exactly |
| WireRules.KnownExactly | protocol/remotecontrol/protocol.go:81-110 | The operations and kinds that are known are those of the contract's tables, and no others |
| WireRules.EncodesExactly | protocol/remotecontrol/protocol.go:251-276 | What encoding makes of every envelope: its text up to 8 MiB as a message and 256 KiB as a frame; the code of the check it fails; invalid_envelope for details that are no JSON and for longer texts |
| WireRoundTrip.MarshalReads | protocol/remotecontrol/protocol.go:156-182 | Unmarshalling a marshalled envelope gives the coerced envelope, or fails exactly on nesting |
| WireRoundTrip.CoercedValidates | protocol/remotecontrol/protocol.go:278-356 | A coerced envelope passes every check of Validate unless an identifier or the cursor has grown too long |
| WireRoundTrip.CoercedMarshals | protocol/remotecontrol/protocol.go:264-276 | Encoding the coerced envelope writes the same bytes |
| WireRoundTrip.EnvelopeReads | protocol/remotecontrol/protocol.go:156-182 | Filling an empty envelope from the written fields, omitted ones included, gives every field back |
| WireSize.EnvelopeNests | protocol/remotecontrol/protocol.go:156-175 | The written text is within the nesting limit exactly when payload and details leave room for one and two levels |
| WireSize.EnvelopeSize | protocol/remotecontrol/protocol.go:14-26 | The size of the written text, from below by its tail and from above by six bytes for each byte of a string |
| Chunking.MessageSplits | protocol/remotecontrol/protocol.go:358-379 | Every message of 1 byte to 8 MiB divides into at most 64 segments that, under any legal headers, make chunk envelopes which pass Validate, fit the 256 KiB frame and carry the segments; the segments in order are the message |
| Chunking.FramesReassemble | protocol/remotecontrol/protocol.go:237-262 | With identifiers of valid UTF-8, decoding each frame gives back its envelope |
| Chunking.MessageTravels | protocol/remotecontrol/protocol.go:237-276 | What EncodeMessage returns for an envelope with byte strings as raw messages goes out as at most 64 frames, each of which decodes to its segment of the message |
| WireBytes.MarshalBytes | protocol/remotecontrol/protocol.go:264-276 | Such an envelope is marshalled to bytes, whatever its strings hold |
| WireSafety.MarshalSafe | protocol/remotecontrol/protocol.go:264-276 | Whatever its strings and raw messages hold, an encoded envelope has no control character, none of <, > and &, and neither U+2028 nor U+2029 |
| WireSafety.EmptyFieldsOmitted | protocol/remotecontrol/protocol.go:156-168 | The written members are version and type and then, in the order of declaration, every field that is not empty |
| WireSafety.QuotedShort | protocol/remotecontrol/protocol.go:264-276 | A string is written with the shortest escape for each character that needs one, no other character escaped, and small hexadecimal digits |
| WireSafety.SafeBodyKept | protocol/remotecontrol/protocol.go:264-276 | A string of a raw message that has nothing to escape is kept as it is written |
| Chunking.FrameEncodes | protocol/remotecontrol/protocol.go:251-262 | One segment of up to 128 KiB under a legal header and any legal numbering encodes as a frame and decodes to its bytes |
| Chunking.MessageSize | protocol/remotecontrol/protocol.go:264-276 | What EncodeMessage returns is never empty and never over 8 MiB |
| JsonString.UnquoteQuote | protocol/remotecontrol/protocol.go:264-276 | Reading a written string gives it back with bad bytes replaced (section 7 of RFC 8259) |
| JsonLiterals.LiteralsExactly | protocol/remotecontrol/protocol.go:242 | The literals that are read as a string are exactly the ways of writing it, rune by rune: as itself, as an escape of four digits in either case, as a pair of halves, as one of the eight short escapes, and for U+FFFD also half a pair or a byte that is no UTF-8; what is read is always UTF-8 |
| CodePoints.EncodedCarries | protocol/remotecontrol/protocol.go:242 | Every code point but the surrogates is encoded as a rune of the width section 3 of RFC 3629 gives it, that carries it by its bits |
| CodePoints.RuneEncoded | protocol/remotecontrol/protocol.go:242 | And every rune that is recognised is the encoding of the code point it carries |
| JsonString.CoerceValid | protocol/remotecontrol/protocol.go:264-276 | Replacing bad bytes yields valid UTF-8, never shortens, and changes nothing exactly when the string is valid already |
| JsonString.QuoteBound | protocol/remotecontrol/protocol.go:251-262 | Escaping writes at most six bytes for one |
| JsonString.EscapeBodyMeans | protocol/remotecontrol/protocol.go:264-276 | Escaping HTML characters and line separators in a string of a raw message does not change what it reads as |
| JsonText.ReadsExactly | protocol/remotecontrol/protocol.go:242 | A text is read as a value exactly if it lays the value out by the grammar of RFC 8259, with any white space, no deeper than 10000 levels |
| JsonText.LayoutParses | protocol/remotecontrol/protocol.go:242 | A value in any layout, followed by more text and under any remaining depth, is read as that value exactly when it nests no deeper |
| JsonText.ParsedLayout | protocol/remotecontrol/protocol.go:242 | Every value that is read stands in the text in some layout |
| JsonText.TextParses | protocol/remotecontrol/protocol.go:237-249 | A written value is read back as itself exactly when it nests no deeper than 10000 levels |
| JsonNumber.NumbersExactly | protocol/remotecontrol/protocol.go:242 | The texts read as numbers are those of the grammar in section 6 of RFC 8259, and no others |
| JsonText.ValueParses | protocol/remotecontrol/protocol.go:237-249 | The same for a value followed by more text, under any remaining depth |
| JsonCompact.CompactMeans | protocol/remotecontrol/protocol.go:264-276 | A compacted raw message is well formed, means the same value, and compacting again changes nothing |
| JsonCompact.ParsedValueSound | protocol/remotecontrol/protocol.go:237-249 | What the reader accepts consists of legal literals and respects the depth |
| JsonNumber.DecimalReads | protocol/remotecontrol/protocol.go:156-182 | Decimal digits of an unsigned integer read back as it |
| Base64.EncodeDecodes | protocol/remotecontrol/protocol.go:374-378 | Decoding what was encoded gives the bytes back, and four characters are written for each three bytes begun (section 4 of RFC 4648) |
| Base64.DecodedIsAscii | protocol/remotecontrol/protocol.go:374-378 | Text that decodes is ASCII |
| Base64.DecodesExactly | protocol/remotecontrol/protocol.go:374-378 | A text decodes to bytes exactly if, but for line breaks anywhere, it writes them by the alphabet of RFC 4648, 24 bits by four characters, the bits left over being anything |
| Base64.EncodesExactly | protocol/remotecontrol/protocol.go:374-378 | What is encoded writes the bytes by that alphabet with no bits left over |
| Guardian.Truncate | integrations/opagent/guardian/client.go:326-336 | The shrinking loop computes the longest valid cut, trimmed |
| Guardian.TruncatedCut | integrations/opagent/guardian/client.go:326-336 | For valid UTF-8 the cut before the final trim is the longest valid prefix within the maximum, at most three bytes short of it, and the result is valid |
| Guardian.TruncatedFits | integrations/opagent/guardian/client.go:326-336 | The result never exceeds a positive maximum |
| Guardian.TruncatedIdempotent | integrations/opagent/guardian/client.go:326-336 | Truncating twice is truncating once |
| Utf8.ValidCutNearby | integrations/opagent/guardian/client.go:331-334 | Within three bytes below any position of valid UTF-8 there is a valid cut (section 4 of RFC 3629) |
| Guardian.SanitizeNames | integrations/opagent/guardian/client.go:290-309 | The loop with its early stop returns the sorted first distinct safe names |
| Guardian.DistinctSafeMeaning | integrations/opagent/guardian/client.go:290-309 | The distinct safe names are exactly the nonempty sanitised values, once each, by first appearance |
| Guardian.SanitizedNamesOrdered | integrations/opagent/guardian/client.go:290-309 | The result is strictly increasing, within a positive maximum, and of safe names only |
| Guardian.SanitizedNamesIdempotent | integrations/opagent/guardian/client.go:290-309 | Sanitising the result again with the same maximum returns it |
| Guardian.SafeNameStable | integrations/opagent/guardian/client.go:311-317 | A safe name is its own sanitised form and fits the truncation |
| Guardian.SanitizesExactly | integrations/opagent/guardian/client.go:311-317 | A name is kept, trimmed, exactly if it has 1 to 192 characters, all of them letters, digits and . _ : / -, the first a letter or digit |
| Sorting.StringLeMeaning | integrations/opagent/guardian/client.go:307 | The order of strings: they agree up to some place where one ends or has the smaller byte |
| Guardian.AppendAccepted | integrations/opagent/guardian/client.go:202-217 | Each loop appends exactly the accepted, classified resources of its list |
| Guardian.SanitizeResources | integrations/opagent/guardian/client.go:200-223 | The list is sorted and holds exactly the accepted resources, counted |
| Guardian.AcceptedPermuted | integrations/opagent/guardian/client.go:202-217 | Permuting the input lists permutes what is accepted |
| Guardian.ResourcesIgnoreOrder | integrations/opagent/guardian/client.go:218-223 | Every permutation of the input lists gives the same list, even though the sort may rearrange equal keys |
| Guardian.ResourcesGrouped | integrations/opagent/guardian/client.go:218-223 | The list holds the domains, then the paths read, the rights, and the paths written, each by byte order |
| Guardian.ClassifiesInside | integrations/opagent/guardian/client.go:240-270 | For every workspace and path, the answer names the workspace exactly when both are rooted or both relative and the workspace's cleaned elements begin the path's without going up after them |
| Guardian.ClassifiesRooted | integrations/opagent/guardian/client.go:240-270 | For rooted paths, inside means component-wise prefix; then the named relative path has no .. component and joins back to the path |
| Guardian.ClassifiesExactly | integrations/opagent/guardian/client.go:240-270 | The whole answer for every workspace, path and home, by elements: unknown if the path cleans to nothing; in the workspace the way down; below home by the first element in any letter case, .ssh, one of the five folders of credentials, or any other; else by whether the path is rooted |
| Paths.CleanIdempotent | integrations/opagent/guardian/client.go:240-250 | Cleaning twice is cleaning once |
| PathWalk.CleanLeads | integrations/opagent/guardian/client.go:241-242 | From every directory, in a tree without links, the clean path leads where the path leads |
| PathWalk.ElementsOnly | integrations/opagent/guardian/client.go:241-242 | And it is the only path in normal form that does so from every directory |
| Paths.ElementsNormal | integrations/opagent/guardian/client.go:240-250 | Cleaned elements are in normal form: no empty, no . and .. only in front of a relative path |
| Paths.RelInside | integrations/opagent/guardian/client.go:251-262 | A relative path goes up exactly when the target is not below the base, so a name like ..foo does not |
| Paths.RelJoins | integrations/opagent/guardian/client.go:251-262 | The relative path to a target inside has no .. and joins back to it |
| Headers.ResolveHeaders | integrations/opagent/integration.go:76-99 | The loop yields a map exactly when every needed token call serves; then the keys are the same, values without the placeholder unchanged, and the others fully substituted; otherwise there is no map |
| Headers.Substitute | integrations/opagent/integration.go:84-95 | One value is substituted exactly when its token call gives a usable token |
| Headers.ReplaceAllPieces | integrations/opagent/integration.go:95 | Replacement puts the token in for every occurrence and leaves everything between as it is |
| Headers.InertExactly | integrations/opagent/integration.go:95 | Which tokens never leave a placeholder behind, for every token: exactly those without the placeholder, not inside its name, and not fitting its ends |
| Headers.BraceFreeInert | integrations/opagent/integration.go:95 | A token without braces is safe exactly when it is not part of openbrain_session |
| Headers.ResolvedFree | integrations/opagent/integration.go:76-99 | No resolved value contains the placeholder when every token is of that kind |
| Policy.TableKeepsPolicy | integrations/opagent/product_policy.go:122-203 | Over every sequence of admitted writes from an empty table: a task with a Cloud Sync marker has the managed ID, and a task with the managed ID targets the managed agent with a payload that validates |
| Policy.ValidatedIsRecognised | integrations/opagent/product_policy.go:188-214 | A payload that validates is recognised as Cloud Sync |
| Policy.RunsAdmittedExactly | integrations/opagent/product_policy.go:122-161 | After any writes, a run is admitted exactly if what it would execute, its override or the stored payload, is Cloud Sync exactly for the managed ID and then validates |
| Policy.WritesAdmittedExactly | integrations/opagent/product_policy.go:174-203 | A write is admitted exactly if it is of the managed task, for the managed agent, an agent turn with the product's prompt and all three markers, or of any other task without any marker |
| Policy.RunsAdmittedByMarkers | integrations/opagent/product_policy.go:143-161 | A run is admitted exactly if it has no override, or one with all of that for the managed task, or one without any marker for another |
| Policy.PayloadByMarkers | integrations/opagent/product_policy.go:188-214 | One marker makes a payload Cloud Sync; a valid one has the shape and all three |
| Policy.StringListContains | integrations/opagent/product_policy.go:246-262 | The loops over either kind of list find a value exactly when it is there after trimming |
| Policy.GbrainToolScope | integrations/opagent/product_policy.go:54-83 | The method copies the arguments into a new object and never changes the one it was given |
| Policy.ScopeBinds | integrations/opagent/product_policy.go:54-111 | For every turn, server, tool, schema and arguments: on a server that spells gbrain-cloud, a query or search tool in any letter case, a tool whose schema has source_id, or a call that names source_id goes ahead under a source scope only with arguments that ask for the scope's source; every other call goes ahead with its arguments as given |
| Policy.ScopableExactly | integrations/opagent/product_policy.go:85-111 | Which calls a source scope is for, by those four cases and no others |
| Policy.ScopeEnforced | integrations/opagent/product_policy.go:54-83 | Under a source scope, such a call either fails or gets a source_id that trims to the allowed one, all other arguments equal |
| Policy.ScopeRefusesOnlyTheImpossible | integrations/opagent/product_policy.go:54-83 | A scoped call with arguments is refused exactly if no arguments exist that ask for the allowed source, overrule no source asked for, and differ in nothing else; otherwise it goes ahead with such arguments |
| Policy.ScopeIdempotent | integrations/opagent/product_policy.go:54-83 | Scoping twice is scoping once |

## Left out

- Other activity in a clone while a run is under way may edit, stage and commit but not take changes back, start or end a rebase, or move FETCH_HEAD; while no run is under way anything may be done to it. `Fleet` gives each clone one run at a time. `Shared` lets runs overlap; it takes a pull to be refused while changes are staged, and states the promise of runs that end synced, not of those that end clean.
- Several remotes: all URLs a token request returns stand for one remote branch; the text of the URL and the removal of user information from it are not modelled.
- Git beyond the stated contracts: objects, merges, refspecs, and histories that are not linear; commits are told apart by the changes they record and their place.
- Login, HTTP, token files, process execution and time limits: each is a command whose answer is arbitrary. The texts of the advice are represented by names, and so are status and code words.
- The walk of the tree is one command of the machine; `NestedGit` proves what it finds, for trees in which every directory can be read. Symbolic links count as files. Windows path rules are not part of this model.
- Lower-casing is followed as far as ASCII text can tell, the two runes outside ASCII that become "i" and "k" included; other runes are left as they are, which no search for an ASCII mark can see.
- Workspace selection (`activate`, `isEligibleWorkspace`, `findEligibleWorkspace`), the preflight listing of all workspaces and the identity fields of reports: plain lookups and copies.
- `redact` and `sanitizeDomain` are not part of this model; in `Guardian.Scope` the domain sanitiser is an arbitrary function.
- Raw JSON messages: a nil and an empty message are alike, and error texts of the JSON library are not modelled.
- `gbrainPromptAugmenter`: it joins fixed lines.
- `integrations/opagent/heartbeat.go`, `integrations/opagent/defaults.go`, the runtime command and the authorizers: flat conditions and I/O loops.
- Reassembly of chunks, replay windows and heartbeats of Remote Control have no code in the repository; the division into segments in `Chunking` is a witness.
- SyncHelper.Shell.Ask: how a command comes out is a function of how many were asked, so that the imperative program can be compared with the machine; `Fleet`, `Shared` and `Solo` let it depend on clone and remote instead.
