# Ownership protocols and data cores of the 21x desktop host

This Dafny project models the parts of the desktop application where something owned must be
admitted, fenced and retired in the right order, and three data algorithms with exact
specifications. It proves, for every interleaving and every run, what the source promises in
its comments.

| component | files | what is proved |
|---|---|---|
| native attachment drops | `drop_spec`, `drop_owner`, `drop_wait`, `drop_protocol`, `drop_theorems`, `drop_history` | a context becomes active only after every earlier drop group was joined, retired once and removed; replaced nonces never come back |
| identity carry-over | `git_pointers`, `git_pointer_files`, `identity_migration`, `migration_runs` | any number of interrupted launches leave either no new database or exactly the source's three files |
| suspend inhibitor | `energy_session`, `energy_session_runs`, `energy_session_answers`, `energy_session_object`, `energy_owner`, `energy_protocol`, `energy_decisions` | nothing is held after a successful release; inhibition counts only with both proofs |
| recap builders | `handoff_text`, `lost_session_recap`, `token_budget_recap`, `recap_contents` | the bounded backwards walk is a tail of the full conversation; the greedy selection is the best one |
| clipboard image text | `clipboard_base64`, `clipboard_alphabet` | the bit-level recogniser accepts exactly what the printer prints for a PNG |
| URI list | `uri_list` | percent-decoding gives back the path; one line; bounded length |
| retained native work | `work_owner`, `work_protocol` | the drain neither ends early nor sleeps for ever |
| artifact viewers | `viewer_owner`, `viewer_protocol`, `viewer_decisions` | ids, documents and close reasons are one-shot; a successful close leaves nothing |
| notifications | `notification_owner`, `notification_protocol`, `notification_decisions` | accepted ids are conserved; cleanup reports success exactly when all were acknowledged |

Objects that the source updates in place are classes here. Each method states its new abstract
value through a function on values, and the state machines use those same functions, so what is
proved of every run is proved of the methods. A step of a state machine is one lock section, or
one piece of code between two awaits. GUI closures run one at a time; one that another thread can
overtake between its check and its effect is two steps.

The functions themselves are pinned from outside. The history, answers, contents and decisions
modules say, for every run and without naming them, exactly when a call succeeds, with which error
it is refused, and which steps change what; constants, alphabets and limits stand there as the
literals of the source or of the standard it follows.

Clocks, the document guard, the caller's own scope check, replies of the bus, and the order in
which a hash map is met are arguments or arbitrary choices.

Where the code does less than its comments say, the code is followed:

- The comment on the git pointer walk says it finds every worktree. It does so for the documented
  layout exactly as `DocumentedLayoutMoves` says; below a `workspaces/<name>` directory whose name
  ends in `.git` it does not (`GitNamedTaskIsMissed`).
- The carry-over needs its source at every launch. A launch that dies between two sidecars,
  followed by the removal of the legacy directory, leaves a sidecar without a database
  (`OrphanAfterSourceDisappears`).
- The in-place rename yields exactly the in-place database if and only if the first launch found
  no `21x.db` sidecar without an in-place counterpart (`RenameExactWithoutOrphans`).
- Only the last document's registration number is remembered, so a number can be accepted again
  after another document has registered (`NumberReusedAfterAnotherDocument`).
- The lost-session recap can keep one or two characters less than its limit, because it pays for a
  separator before it knows whether another turn follows (`BodyLengthBounds`).

## Model

| member | source | states |
|---|---|---|
| DropOwners.DropOwner.BeginContext | src-tauri/src/native_attachment_drop.rs:208-254 | fences synchronously: the next revision, no active context, every group of the map cancelled and returned; a stale number, a used nonce, a full book or an exhausted revision is refused with the right error, after the notes the source makes |
| DropOwners.DropOwner.NextRevision | src-tauri/src/native_attachment_drop.rs:246-253 | the fence itself, refused only when the revisions have run out |
| DropOwners.DropOwner.Activate | src-tauri/src/native_attachment_drop.rs:285-291 | a driver makes its context active only if nothing has superseded it |
| DropOwners.DropOwner.Capture | src-tauri/src/native_attachment_drop.rs:301-359 | arguments, guard and state are judged in this order, each refusal with its own error; the group of an admitted drop, field by field, and its book entry |
| DropOwners.DropOwner.CheckSelection | src-tauri/src/native_attachment_drop.rs:379-395 | the first owning group met decides; without one the check falls through |
| DropOwners.DropOwner.Accept | src-tauri/src/native_attachment_drop.rs:396-420 | accepted exactly when the group is current, and then only its flag changes |
| DropOwners.DropOwner.Close | src-tauri/src/native_attachment_drop.rs:421-432 | only the drop's own context may close it; a live group is cancelled at once |
| DropOwners.DropOwner.Invalidate | src-tauri/src/native_attachment_drop.rs:500-511 | the fence without a new context |
| DropOwners.DropOwner.Expire | src-tauri/src/native_attachment_drop.rs:475-480 | only the first call starts the offer timer |
| DropOwners.DropOwner.TimerEnds | src-tauri/src/native_attachment_drop.rs:485-498 | the timer is retired first; only an expired, unaccepted offer goes on to close its group |
| DropOwners.DropOwner.Configure | src-tauri/src/native_attachment_drop.rs:169-176 | the retire callback is set once |
| DropOwners.DropOwner.Check | src-tauri/src/native_attachment_drop.rs:360-377 | whether a group may be read or accepted now |
| DropOwners.DropOwner.FinishRaw | src-tauri/src/native_attachment_drop.rs:114-117 | only the raw flag is lowered |
| DropOwners.DropOwner.CancelGroup | src-tauri/src/native_attachment_drop.rs:447-448 | only the cancelled flag is raised |
| DropOwners.DropOwner.CancelTimer | src-tauri/src/native_attachment_drop.rs:129-131 | only the timer's cancellation is raised |
| DropOwners.DropOwner.MarkRetired | src-tauri/src/native_attachment_drop.rs:464-465 | only the retired flag is raised |
| DropOwners.DropOwner.Remove | src-tauri/src/native_attachment_drop.rs:467-471 | the group leaves the map and nothing else changes |
| DropProtocol.StepInv | src-tauri/src/native_attachment_drop.rs:208-528 | every step of drivers, closers, timers, raw captures and fences keeps the owner's invariant |
| DropTheorems.MoveActivates | src-tauri/src/native_attachment_drop.rs:285-291 | only a driver's last step can make a context active, and only over an empty map |
| DropTheorems.ActiveContextOwnsLiveGroups | src-tauri/src/native_attachment_drop.rs:208-297 | an active context is the candidate and every group of the map carries it and the current revision; without one every group of the map is cancelled |
| DropTheorems.ActivationFollowsRetirement | src-tauri/src/native_attachment_drop.rs:279-295 | when a context becomes active every group captured before has finished its raw capture and timer, was retired exactly once and has left the map |
| DropTheorems.ReplacedNonceNeverReturns | src-tauri/src/native_attachment_drop.rs:226-242 | a nonce that is no longer candidate or active never is again, even when a driver for it ends late |
| DropTheorems.NonceRevisionsContiguous | src-tauri/src/native_attachment_drop.rs:230-249 | the revisions at which a nonce is in use form one block |
| DropTheorems.RegistrationsIncrease | src-tauri/src/native_attachment_drop.rs:217-245 | while the stored document stays the same, accepted registration numbers strictly increase |
| DropTheorems.NumberReusedAfterAnotherDocument | src-tauri/src/native_attachment_drop.rs:217-225 | an accepted number is refused at once, and accepted again after another document registered |
| DropTheorems.RetireStartsQuiet | src-tauri/src/native_attachment_drop.rs:447-464 | the retire callback runs only for a cancelled, unretired group whose raw capture and timer have ended |
| DropTheorems.RetiredExactlyOnce | src-tauri/src/native_attachment_drop.rs:447-473 | a captured group is in the map or was retired; its callback succeeds at most once in a run, and exactly once before it leaves the map |
| DropTheorems.FailedRetirementKeepsGroup | src-tauri/src/native_attachment_drop.rs:464-473 | a failed attempt leaves the cancelled group in the map, unlocked, for another |
| DropTheorems.SelectionCheckIsSound | src-tauri/src/native_attachment_drop.rs:379-395 | a selection passes only through an accepted live group of the active context, or after every group it was dropped in was retired |
| DropTheorems.ShutdownIsFinal | src-tauri/src/native_attachment_drop.rs:522-527 | after a successful shutdown the map is empty for ever and every drop was retired once |
| DropTheorems.CapturedOnce | src-tauri/src/native_attachment_drop.rs:332-357 | no drop id is captured twice and its context is remembered |
| DropTheorems.DropBook | src-tauri/src/native_attachment_drop.rs:329-334 | the bounds, and that each live group is in the book under its own context |
| DropHistory.UuidShape | src-tauri/src/native_attachment_drop.rs:31-43 | the ids that are accepted: 8-4-4-4-12 lower-case hexadecimal digits, version 4, variant 10 |
| DropHistory.SelectionsShape | src-tauri/src/native_attachment_drop.rs:309-319 | one to sixteen ids, all different |
| DropHistory.CaptureErrors | src-tauri/src/native_attachment_drop.rs:309-334 | which error a drop gets; a refused one changes nothing |
| DropHistory.CaptureDecides | src-tauri/src/native_attachment_drop.rs:321-358 | a drop is captured exactly when no earlier step captured its id, the active context is its document's and there is room; the new group holds the dropped selections under that context and revision, and nothing of it has happened yet |
| DropHistory.BookIsHistory | src-tauri/src/native_attachment_drop.rs:332-357 | an id is in the drop book exactly when an earlier step captured it |
| DropHistory.RegistrationErrors | src-tauri/src/native_attachment_drop.rs:214-246 | which error a registration gets |
| DropHistory.RegistrationDecides | src-tauri/src/native_attachment_drop.rs:208-254 | a registration is admitted exactly when it is newer and its nonce fresh or the candidate's; it then fences every group, records nonce and number, and starts a driver with those groups |
| DropHistory.FenceDecides | src-tauri/src/native_attachment_drop.rs:500-527 | the fences without a context need only a revision; only shutdown stops the owner |
| DropHistory.ActivationDecides | src-tauri/src/native_attachment_drop.rs:279-293 | a driver that has closed its groups activates its context exactly when the guard holds and nothing has fenced since its registration |
| DropHistory.CheckDecides | src-tauri/src/native_attachment_drop.rs:360-377 | a group may be read or accepted exactly when it is in the map and uncancelled, its guard holds, and it is accepted or only offered and in time |
| DropHistory.FlagsChange | src-tauri/src/native_attachment_drop.rs:114-498 | each flag of a group changes by the named steps and by no other |
| DropHistory.GroupIsItsHistory | src-tauri/src/native_attachment_drop.rs:336-357 | a captured group keeps its selections; it is accepted, cancelled, in the map and busy exactly as the steps since its capture say |
| DropHistory.DroppedSelectionsAreOwned | src-tauri/src/native_attachment_drop.rs:379-395 | a drop in the map owns exactly its selections; the check that meets it passes exactly for an accepted, uncancelled drop of the asking lease |
| DropHistory.CloseDecides | src-tauri/src/native_attachment_drop.rs:421-446 | a close goes through exactly for the context of the capture, and then closes the group if it is still there |
| DropHistory.TimerDecides | src-tauri/src/native_attachment_drop.rs:485-497 | the end of a timer closes its group exactly when the offer expired unaccepted |
| DropHistory.LockDecides | src-tauri/src/native_attachment_drop.rs:447-453 | with the mutex a task joins the capture, or goes on if the group was retired already |
| DropHistory.ConfiguredIsHistory | src-tauri/src/native_attachment_drop.rs:169-176 | the owner is configured exactly when it was told to |
| DropHistory.RetirementCompletes | src-tauri/src/native_attachment_drop.rs:453-472 | once capture and timer have ended nothing keeps a held group from being retired once and removed |
| DropWait.StepInv | src-tauri/src/native_attachment_drop.rs:112-142 | every store, notification and turn of a waiting loop keeps the waiting invariant |
| DropWait.WaitingCloserIsNotified | src-tauri/src/native_attachment_drop.rs:114-141 | no lost wake-up: a closer that waits unnotified waits for a capture or timer that still runs, or its notification is due and reaches it |
| DropWait.CancelledTimerIsWoken | src-tauri/src/native_attachment_drop.rs:129-131 | a cancelled timer that sleeps is about to be woken, and can then end |
| DropWait.ThroughMeansQuiet | src-tauri/src/native_attachment_drop.rs:453-456 | a closer past both waits has seen capture and timer end, and neither starts again |
| DropWait.TimerSleepsOutItsOffer | src-tauri/src/native_attachment_drop.rs:484-491 | a timer that nobody cancels ends exactly when its offer time is over |
| GitPointers.ReplaceOnly | src/main/app-identity-migration.ts:199-199 | splitting and joining replaces a single occurrence in place, whatever the replacement contains |
| GitPointers.RewrittenFile | src/main/app-identity-migration.ts:194-244 | the exact effect of the walk on every file: small reached pointer files have the root replaced, every other file keeps its content |
| GitPointers.LinkedAfterMove | src/main/app-identity-migration.ts:193-202 | a worktree and its repository that named each other under the old root do so under the new one |
| GitPointers.LinkedExactlyWhenVisited | src/main/app-identity-migration.ts:217-244 | they do so if and only if the walk visits both pointer files |
| GitPointers.DocumentedLayoutMoves | src/main/app-identity-migration.ts:211-216 | in the documented layout the pair still names each other if and only if no name on the way is `node_modules`, a first directory in `.git` is followed by `worktrees`, and both files are small |
| GitPointers.GitNamedTaskIsMissed | src/main/app-identity-migration.ts:239-241 | a worktree below a directory named `*.git` is not reached |
| GitPointerFiles.ReachesExactly | src/main/app-identity-migration.ts:217-244 | the files the walk takes for pointers, told by their path alone |
| GitPointerFiles.OnlyPointersChange | src/main/app-identity-migration.ts:217-244 | a file changes only if it is a `.git` file or a `gitdir` two below `worktrees`, shorter than 4096, at most seven names below the entry, with no `node_modules` on the way; then every occurrence is replaced |
| GitPointerFiles.TreeKeepsItsShape | src/main/app-identity-migration.ts:194-202 | the rewrite adds and removes nothing |
| GitPointerFiles.ReplaceSplitsAndJoins | src/main/app-identity-migration.ts:199-199 | the text is split at every occurrence of the old root, from left to right, and joined by the new one |
| GitPointerFiles.PointerTexts | src/main/app-identity-migration.ts:23-26 | the two pointers as git writes them |
| IdentityMigration.PlaceDatabase | src/main/app-identity-migration.ts:180-191 | sidecars first, main file last; a move stops after some prefix of its transfers, a copy touches only its destination |
| IdentityMigration.PrefixPlaces | src/main/app-identity-migration.ts:173-191 | what any prefix of the transfers leaves at any path, for either flag and either kind of transfer |
| IdentityMigration.CopyEntries | src/main/app-identity-migration.ts:140-158 | each entry is untouched or the complete rewritten copy; at the end exactly the tried entries that are in place are reported as copied and exactly the other tried ones as failed |
| IdentityMigration.PlaceCopiedDatabase | src/main/app-identity-migration.ts:161-164 | wherever it stops, the new database is absent or exactly the source's three files |
| IdentityMigration.CopyFrom | src/main/app-identity-migration.ts:133-167 | wherever it stops: legacy unchanged, entries whole, and a new database only complete and after the entries; a completed copy reports every entry it tried |
| IdentityMigration.RenameInPlace | src/main/app-identity-migration.ts:103-111 | wherever it stops, the three files are still there under one name or the other |
| IdentityMigration.MoveKeepsLogical | src/main/app-identity-migration.ts:106-108 | moving without removing stale sidecars never loses a file an interrupted move has moved |
| IdentityMigration.StagedThenMoved | src/main/app-identity-migration.ts:163-164 | staging and then moving places exactly the source's files, the main file last |
| IdentityMigration.CopyEntry | src/main/app-identity-migration.ts:145-157 | copy, rewrite and rename, or a cleaned staging directory after a failure |
| IdentityMigration.WriteMarker | src/main/app-identity-migration.ts:246-250 | only the marker and its draft change, and the marker only appears complete |
| IdentityMigration.FindSource | src/main/app-identity-migration.ts:125-126 | the first other legacy directory with a database |
| IdentityMigration.Migrate | src/main/app-identity-migration.ts:95-171 | what one launch, finished or not, makes of the files it found; the outcome and the copied and failed lists a finished one reports; a launch on which every file system call completes finishes and fails to copy nothing |
| MigrationRuns.LaunchKeepsLegacy | src/main/app-identity-migration.ts:133-164 | no launch changes a legacy directory |
| MigrationRuns.CompletedLaunchIsQuiet | src/main/app-identity-migration.ts:113-122 | with marker and database in place a launch changes nothing |
| MigrationRuns.DatabaseStays | src/main/app-identity-migration.ts:105-122 | no later launch touches the new database |
| MigrationRuns.CopiedDatabaseIsTheSource | src/main/app-identity-migration.ts:160-164 | after any crashes the new database and both sidecars are exactly the source's files of the launch that placed it, and that source's entries are in place or failed |
| MigrationRuns.FinishedLaunchHasDatabase | src/main/app-identity-migration.ts:105-131 | a finished launch leaves a database if and only if it found one under either name or an unmarked source |
| MigrationRuns.FinishedCarryOver | src/main/app-identity-migration.ts:117-170 | interrupted launches followed by one that finishes leave the source's database, if there is a source at every launch |
| MigrationRuns.PlacedEntryIsComplete | src/main/app-identity-migration.ts:144-149 | every entry put in place, in any launch, is the complete rewritten copy of a legacy entry |
| MigrationRuns.PlacedFilesAreTheSource | src/main/app-identity-migration.ts:144-149 | file by file, a placed entry is the legacy one but for the small pointer files within reach |
| MigrationRuns.SourceDecides | src/main/app-identity-migration.ts:125-126 | the source is the first listed directory, other than the new one, that has a legacy database |
| MigrationRuns.OutcomeDecides | src/main/app-identity-migration.ts:117-135 | a finished launch reports whether it found a marker, else a database, else a source |
| MigrationRuns.CarriedOver | src/main/app-identity-migration.ts:52-66 | the entries that are carried over, the largest last |
| MigrationRuns.RenamedDatabaseIsTheInPlaceOne | src/main/app-identity-migration.ts:105-108 | interrupted renames end with the three files the first launch found, one already moved counting as found |
| MigrationRuns.RenameExactWithoutOrphans | src/main/app-identity-migration.ts:105-108 | the renamed database is the in-place one if and only if no orphan sidecar was there |
| MigrationRuns.RemovingWhileRenamingLosesTheLog | src/main/app-identity-migration.ts:106-108 | with the flag of the copy the rename would lose a log that was already moved |
| MigrationRuns.KeepingWhileCopyingPairsAStaleLog | src/main/app-identity-migration.ts:176-179 | with the flag of the rename the copy would pair a stale log with the new database |
| MigrationRuns.AStaleLogArises | src/main/app-identity-migration.ts:160-164 | such a stale log arises from a launch that died and an old application that went on |
| MigrationRuns.OrphanAfterSourceDisappears | src/main/app-identity-migration.ts:127-131 | why the source is needed at every launch |
| EnergySessionObject.Session.ConnectDone | src-tauri/src/native_energy.rs:591-624 | the end of the connection attempt: release, or the first request |
| EnergySessionObject.Session.ServerFound | src-tauri/src/native_energy.rs:672-687 | both subscriptions before the Inhibit request, each behind a check |
| EnergySessionObject.Session.CheckApplied | src-tauri/src/native_energy.rs:452-470 | the only place where suspend becomes inhibited: with both proofs it does, and the stored acquisition is told |
| EnergySessionObject.Session.AdvanceRelease | src-tauri/src/native_energy.rs:841-880 | an open attempt is waited for, a closed connection finishes at once |
| EnergySessionObject.Session.FinishRelease | src-tauri/src/native_energy.rs:881-927 | a failed close keeps the session and answers its driver; a successful one empties it and answers both completions |
| EnergySessionObject.Session.BeginAgain | src-tauri/src/native_energy.rs:512-526 | a second acquisition is answered only by an applied, valid, open session |
| EnergySessionObject.Session.ForceRelease | src-tauri/src/native_energy.rs:437-446 | retiring is raised and a release driver asked for |
| EnergySessionObject.Session.ServiceStarts | src-tauri/src/native_energy.rs:646-662 | the reply to StartServiceByName |
| EnergySessionObject.Session.AskInhibit | src-tauri/src/native_energy.rs:775-802 | Inhibit is asked for only by a session that is still valid |
| EnergySessionObject.Session.InhibitDone | src-tauri/src/native_energy.rs:799-811 | the reply to Inhibit |
| EnergySessionObject.Session.ResponseArrives | src-tauri/src/native_energy.rs:711-735 | the Response signal: only zero is recorded, anything else releases |
| EnergySessionObject.Session.OwnerChanges | src-tauri/src/native_energy.rs:748-769 | a changed owner of the portal's name releases |
| EnergySessionObject.Session.TimerTicks | src-tauri/src/native_energy.rs:560-580 | the periodic check |
| EnergySessionObject.Session.BeginRelease | src-tauri/src/native_energy.rs:814-836 | a release driver reaches the session |
| EnergySessionObject.Session.CloseReturns | src-tauri/src/native_energy.rs:869-879 | the reply to the connection's close |
| EnergySessionObject.Session.Deliver | src-tauri/src/native_energy.rs:504-927 | whatever is delivered next, the object makes the step of the session machine and stays within its invariant |
| EnergySession.StepInv | src-tauri/src/native_energy.rs:504-927 | every callback, in any order, keeps the session invariant |
| EnergySessionRuns.InhibitIsAskedOnceAndLast | src-tauri/src/native_energy.rs:685-802 | Inhibit is asked for at most once, after the service was started and found and both signals were subscribed to |
| EnergySessionRuns.ActiveMeansProved | src-tauri/src/native_energy.rs:388-470 | applied, and any positive answer, only with the acknowledgement and a zero Response |
| EnergySessionRuns.RetiringIsFinal | src-tauri/src/native_energy.rs:432-470 | a retiring session stays so, asks nothing more, becomes applied no more and gives only negative answers |
| EnergySessionRuns.ReleaseIsNotLost | src-tauri/src/native_energy.rs:814-927 | a stored release request has an outstanding callback that answers it; a session in use has its connection |
| EnergySessionRuns.LateCallbackOnlyAsks | src-tauri/src/native_energy.rs:432-446 | a callback after the session has left the table asks for a release at most |
| EnergySessionAnswers.InUseUntilFault | src-tauri/src/native_energy.rs:388-446 | a session in use is given up by the named faults and by nothing else: an applied, valid, open one survives every tick, an unapplied one not its deadline; each fault asks for a release |
| EnergySessionAnswers.EveryReplyIsFollowedUp | src-tauri/src/native_energy.rs:591-812 | every good reply is followed by the next request, and nothing else asks the bus |
| EnergySessionAnswers.ProofsAreRecorded | src-tauri/src/native_energy.rs:711-735 | acknowledgement and zero Response are recorded when they come, and never lost |
| EnergySessionAnswers.AppliedExactly | src-tauri/src/native_energy.rs:452-470 | a session in use is applied exactly when it has both proofs, and then leaves no acquisition unanswered |
| EnergySessionAnswers.SecondProofAnswers | src-tauri/src/native_energy.rs:452-470 | the step that completes the proofs tells the stored acquisition "active", once |
| EnergySessionAnswers.AnswersAreGiven | src-tauri/src/native_energy.rs:512-927 | every answer to an acquisition, when it is given and that it stays stored until then |
| EnergySessionAnswers.ReleaseAnswers | src-tauri/src/native_energy.rs:814-927 | every answer to a release driver, and what each leaves of the session |
| EnergyOwner.NativeEnergyOwner.AdmitAcquisition | src-tauri/src/native_energy.rs:135-158 | admission under the release lock, with the generation it belongs to |
| EnergyOwner.NativeEnergyOwner.StartRelease | src-tauri/src/native_energy.rs:200-230 | a running or final release is joined, otherwise the generation is fenced and a new driver needed |
| EnergyOwner.NativeEnergyOwner.ReportDriver | src-tauri/src/native_energy.rs:224-228 | a driver reports on its own channel |
| EnergyOwner.NativeEnergyOwner.DropAcquiring | src-tauri/src/native_energy.rs:98-100 | the first store of a dropped acquisition |
| EnergyOwner.NativeEnergyOwner.DropPending | src-tauri/src/native_energy.rs:101-102 | the second store of a dropped acquisition |
| EnergyProtocol.StepInv | src-tauri/src/native_energy.rs:123-316 | every step of acquisitions, drivers, releases and session callbacks keeps the protocol invariant |
| EnergyProtocol.NothingHeldAfterRelease | src-tauri/src/native_energy.rs:301-316 | from a driver's success until the next admission there is no session and no acquisition |
| EnergyProtocol.OneDriverAndOlderAcquisitions | src-tauri/src/native_energy.rs:212-222 | at most one driver is unfinished; everything outstanding is older than it and nothing is admitted |
| EnergyProtocol.ClosedForGood | src-tauri/src/native_energy.rs:196-219 | after a successful close nothing is held, admitted or started, ever |
| EnergyProtocol.PendingIsExact | src-tauri/src/native_energy.rs:97-105 | the pending count is exact through the two stores of a dropped acquisition and never underflows |
| EnergyProtocol.SessionsAreSound | src-tauri/src/native_energy.rs:504-927 | the session in the table keeps the session invariant, and a completion it stores belongs to the one unfinished driver |
| EnergyDecisions.AdmissionDecides | src-tauri/src/native_energy.rs:135-158 | an acquisition is admitted exactly when the owner is not closed, no driver runs, the last one did not fail, and every other acquisition is being dropped |
| EnergyDecisions.ReleaseDecides | src-tauri/src/native_energy.rs:200-229 | a release request joins a running driver or a final success; any other fences everything and starts a driver |
| EnergyDecisions.ReportDecides | src-tauri/src/native_energy.rs:222-229 | a driver's result is the channel's, and only a success lets acquisitions in again |
| EnergyDecisions.CurrentUntilRelease | src-tauri/src/native_energy.rs:168-181 | an acquisition is current exactly until the first release request after its admission |
| EnergyDecisions.StagesUntilRelease | src-tauri/src/native_energy.rs:270-299 | so its stages can be entered exactly until then |
| EnergyDecisions.InsertDecides | src-tauri/src/native_energy.rs:504-558 | on the GUI thread an acquisition makes the session, or asks the one it finds |
| EnergyDecisions.DriverTurnDecides | src-tauri/src/native_energy.rs:814-880 | a driver's turn finds no session, finishes it at once, or leaves its completion with it |
| EnergyDecisions.CallbackDecides | src-tauri/src/native_energy.rs:841-927 | the callback that answers the stored driver decides whether it goes on to join or ends in failure |
| LostSessionRecap.BuildLostSessionRecap | src/main/agent-handoff.ts:85-111 | the backwards walk builds header, marker, a tail of the full join and footer; nothing without turns or room |
| LostSessionRecap.BodyLengthBounds | src/main/agent-handoff.ts:92-107 | the whole join when it fits, otherwise between limit - 2 and limit characters |
| LostSessionRecap.LostRecapShape | src/main/agent-handoff.ts:43-111 | at most `floor(maxChars)` long, the marker exactly when something is missing, and the tail of what the simple form keeps |
| LostSessionRecap.EarlierTurnsDoNotMatter | src/main/agent-handoff.ts:96-101 | why the walk may stop: earlier turns change nothing once the newer ones have used up the limit |
| RecapContents.TurnsListContributors | src/main/agent-handoff.ts:43-59 | the turns are the contributing text parts in the order of the transcript, with the label of their role |
| RecapContents.JoinedInOrder | src/main/agent-handoff.ts:59-59 | texts are joined in order, with an empty line between them |
| RecapContents.LimitDecides | src/main/agent-handoff.ts:89-90 | when there is room for a lost session's recap, and how much |
| RecapContents.LostRecapFillsItsRoom | src/main/agent-handoff.ts:85-111 | a conversation that fits is kept whole, a longer one fills all but two of the characters allowed |
| TokenBudgetRecap.EstimateTokens | src/main/sessions/token-estimator.ts:4-8 | without a correction, the least number of tokens of 3.5 characters |
| TokenBudgetRecap.EstimateUncorrected | src/main/sessions/token-estimator.ts:4-8 | the estimator with its range check and correction gives exactly that number on a length and the default correction |
| TokenBudgetRecap.RecordsAreTurns | src/main/agent-handoff.ts:132-137 | without tool outcomes the records are exactly the turns the other two builders take |
| TokenBudgetRecap.KeptOrOmitted | src/main/agent-handoff.ts:164-165 | every record is in the recap or listed as omitted, and none is both |
| TokenBudgetRecap.RenderedLength | src/main/agent-handoff.ts:142-142 | how long a selection renders, from its characters and its size |
| TokenBudgetRecap.CountIsRenderedLength | src/main/agent-handoff.ts:142-144 | the running count that decides what fits is the length of the rendered text |
| TokenBudgetRecap.GreedyIsBest | src/main/agent-handoff.ts:148-160 | when the whole transcript does not fit, the greedy walk ends with the best selection, adding records never makes it whole, and only a protected record that does not fit leaves nothing feasible |
| TokenBudgetRecap.AllIsBest | src/main/agent-handoff.ts:145-147 | the whole transcript is the best selection when it fits |
| TokenBudgetRecap.BestIsUnique | src/main/agent-handoff.ts:146-160 | there is one best selection |
| TokenBudgetRecap.BestIsMaximal | src/main/agent-handoff.ts:155-159 | no omitted record could be added |
| TokenBudgetRecap.Select | src/main/agent-handoff.ts:140-160 | a fitting selection is found exactly when one exists, and it is the newest-first greatest |
| TokenBudgetRecap.ConsiderRecord | src/main/agent-handoff.ts:155-159 | one turn of the walk, decided by the running count |
| TokenBudgetRecap.BuildTokenBudgetedRecap | src/main/agent-handoff.ts:122-166 | success exactly when some selection with the newest user record fits; its text, token count and omitted ids; the error otherwise |
| RecapContents.RecordsListContributors | src/main/agent-handoff.ts:132-137 | the records are the contributing parts in the order of the transcript, each with its id, role and labelled text |
| RecapContents.RecapInOrder | src/main/agent-handoff.ts:142-166 | the text is header, marker exactly when a record is missing, the kept texts oldest first, footer; all ids and the missing ones are listed in the order of the transcript |
| RecapContents.BuiltInOrder | src/main/agent-handoff.ts:122-166 | the builder's recap is that of the best selection, in this order |
| RecapContents.FitsMeans | src/main/agent-handoff.ts:143-144 | three and a half characters to the token |
| RecapContents.NewestComeFirst | src/main/agent-handoff.ts:155-159 | the best selection takes every record for which there is room beside the protected one and the newer ones it took |
| RecapContents.BudgetDecides | src/main/agent-handoff.ts:113-129 | the budget is the largest number that the window, the reservation and the caller or the default allow |
| RecapContents.UnsafeReservation | src/main/agent-handoff.ts:128-129 | a reservation that is no safe natural number leaves no budget |
| RecapContents.EstimateDecides | src/main/sessions/token-estimator.ts:4-8 | the least number of tokens that holds the corrected characters; the correction is kept between a tenth and ten |
| RecapContents.FrameByKind | src/main/agent-handoff.ts:130-131 | the title tells the two kinds of recap apart |
| ClipboardBase64.Encode | src-tauri/src/native_clipboard.rs:54-74 | the printer's loop prints the base64 text |
| ClipboardBase64.UnpackPack | src-tauri/src/native_clipboard.rs:54-74 | reading the printed symbols gives back the bytes |
| ClipboardBase64.PackUnpack | src-tauri/src/native_clipboard.rs:104-107 | symbols with clean unused bits are the ones their bytes print |
| ClipboardBase64.Base64Injective | src-tauri/src/native_clipboard.rs:54-74 | different bytes print differently |
| ClipboardBase64.PrintedExactlyWellFormed | src-tauri/src/native_clipboard.rs:88-107 | the shape checks describe exactly the printed texts, each of one byte string |
| ClipboardBase64.CarryOn | src-tauri/src/native_clipboard.rs:112-123 | one symbol more: the byte it completes, what stays in the accumulator, and that twelve bits are enough |
| ClipboardBase64.StartsWith | src-tauri/src/native_clipboard.rs:112-130 | the bit walk decides whether the bytes start with the signature, and never runs out of symbols |
| ClipboardBase64.CanonicalPng | src-tauri/src/native_clipboard.rs:84-130 | true exactly for the printed form of a PNG of at most `MAX_BYTES` bytes |
| ClipboardAlphabet.PrintsTheTable | src-tauri/src/native_clipboard.rs:16-16 | every symbol prints as its letter in the table of RFC 4648 |
| ClipboardAlphabet.LooksUpTheTable | src-tauri/src/native_clipboard.rs:95-100 | a byte is looked up at its place in that table, and refused exactly when it is not there |
| ClipboardAlphabet.GroupIsOneNumber | src-tauri/src/native_clipboard.rs:56-72 | a group of bytes and its symbols spell the same number, most significant first |
| ClipboardAlphabet.TestVectors | src-tauri/src/native_clipboard.rs:54-74 | test vectors of RFC 4648 |
| ClipboardAlphabet.PngShape | src-tauri/src/native_clipboard.rs:14-15 | what a PNG of at most half a mebibyte is, byte by byte |
| UriList.UriList | src-tauri/src/native_artifact_clipboard.rs:30-48 | accepted paths and the list each becomes |
| UriList.UriRoundTrip | src-tauri/src/native_artifact_clipboard.rs:35-47 | stripping scheme and line end and decoding gives the path's bytes |
| UriList.UriInjective | src-tauri/src/native_artifact_clipboard.rs:35-47 | different paths give different lists |
| UriList.UriIsOneLine | src-tauri/src/native_artifact_clipboard.rs:31-47 | one line, at most 7 + 3 * 4096 + 2 bytes |
| UriList.EscapeDecides | src-tauri/src/native_artifact_clipboard.rs:37-45 | a byte stands for itself exactly when it is unreserved or a slash; any other becomes a percent sign and two upper-case digits |
| UriList.EscapedInOrder | src-tauri/src/native_artifact_clipboard.rs:38-46 | the bytes are escaped one by one, in order |
| UriList.UriDecides | src-tauri/src/native_artifact_clipboard.rs:31-47 | which paths are accepted, and what goes around the escaped path |
| WorkOwner.NativeWorkOwner.AdmitWork | src-tauri/src/native_services.rs:219-234 | admission, with the cleanup exception and the limit |
| WorkOwner.NativeWorkOwner.AssertOpen | src-tauri/src/native_services.rs:179-190 | work that is no cleanup starts only while the owner is open |
| WorkOwner.NativeWorkOwner.DropReceipt | src-tauri/src/native_services.rs:160-166 | a dropped receipt is counted off once |
| WorkProtocol.StepInv | src-tauri/src/native_services.rs:159-268 | every step of work, drains and closes keeps the invariant |
| WorkProtocol.ActiveIsReceipts | src-tauri/src/native_services.rs:159-234 | the counter is the number of receipts and at most four |
| WorkProtocol.CapturesHoldTheDrain | src-tauri/src/native_clipboard.rs:209-260 | while a GUI callback owns part of a request its closure cannot return, past an early reply, after a scheduling error or without its caller; the owner is active and no drain since its admission is over |
| WorkProtocol.UsedAnswerIsJoined | src-tauri/src/native_clipboard.rs:237-254 | an answer is used only after it came, without a scheduling error, and after the last capture has gone |
| WorkProtocol.DrainIsNotEarly | src-tauri/src/native_services.rs:254-268 | a drain ends only when the work admitted until then gave up its receipts; only cleanup comes later |
| WorkProtocol.WaitingDrainIsNotified | src-tauri/src/native_services.rs:256-266 | no lost wake-up: a waiting drain with nothing active has a notification due, and that notification reaches it |
| WorkProtocol.ClosingIsHistory | src-tauri/src/native_services.rs:171-190 | the owner is closed exactly when somebody closed it or began to drain it |
| WorkProtocol.AdmissionDecides | src-tauri/src/native_services.rs:179-240 | work is admitted exactly below four receipts and, unless it is cleanup, before the close; under the same condition it starts |
| WorkProtocol.RequestsChange | src-tauri/src/native_clipboard.rs:209-260 | what each step makes of a request; its answer is used exactly when it came, scheduling went well, and caller and scope are still there |
| WorkProtocol.DrainDecides | src-tauri/src/native_services.rs:256-267 | a drain that looks is over exactly when no receipt is out |
| ViewerOwner.EntryObject.Serve | src-tauri/src/native_artifact_viewer.rs:259-280 | when a request for the document is answered, and that it then was served |
| ViewerOwner.EntryObject.WindowDestroyed | src-tauri/src/native_artifact_viewer.rs:510-527 | the first Destroyed event holds the entry and reports the fence's reason, later ones do nothing |
| ViewerOwner.EntryObject.TryRetire | src-tauri/src/native_artifact_viewer.rs:608-620 | the retirement decision on what the round has read |
| ViewerOwner.EntryObject.FenceWith | src-tauri/src/native_artifact_viewer.rs:81-89 | the first fence sets the reason |
| ViewerOwner.EntryObject.BeginOpen | src-tauri/src/native_artifact_viewer.rs:300-311 | one open attempt per entry, which holds it |
| ViewerOwner.EntryObject.PageLoaded | src-tauri/src/native_artifact_viewer.rs:384-395 | loaded only after the document was served |
| ViewerOwner.EntryObject.StoreWindow | src-tauri/src/native_artifact_viewer.rs:409-411 | the child window is stored |
| ViewerOwner.EntryObject.ReleaseRaw | src-tauri/src/native_artifact_viewer.rs:64-71 | one holder less |
| ViewerOwner.ViewerTable.Register | src-tauri/src/native_artifact_viewer.rs:190-226 | which ids are admitted and the fresh entry of one that is |
| ViewerOwner.ViewerTable.FindOrBury | src-tauri/src/native_artifact_viewer.rs:576-587 | retirement of an unknown id leaves a tombstone |
| ViewerOwner.ViewerTable.Remove | src-tauri/src/native_artifact_viewer.rs:621-626 | the entry leaves the table, its id stays used |
| ViewerOwner.ViewerTable.Stop | src-tauri/src/native_artifact_viewer.rs:564-571 | no more registrations, and every entry fenced |
| ViewerProtocol.StepInv | src-tauri/src/native_artifact_viewer.rs:176-646 | every step keeps the table and entry invariants |
| ViewerProtocol.RegisteredOnce | src-tauri/src/native_artifact_viewer.rs:195-203 | an id is registered at most once and never after a retirement that came first |
| ViewerProtocol.TombstoneIsFinal | src-tauri/src/native_artifact_viewer.rs:576-590 | a buried id never has a viewer |
| ViewerProtocol.ServedAtMostOnce | src-tauri/src/native_artifact_viewer.rs:259-280 | at most one document, only after an open attempt, never after retirement |
| ViewerProtocol.FirstFenceFixesTheReason | src-tauri/src/native_artifact_viewer.rs:81-89 | the first fence fixes the reason, which is the one reported, once |
| ViewerProtocol.RawIsOutstandingGuards | src-tauri/src/native_artifact_viewer.rs:63-71 | the raw count is the number of tasks holding the entry |
| ViewerProtocol.RemovedMeansGone | src-tauri/src/native_artifact_viewer.rs:591-631 | an entry is removed with no holder and no live window, and neither comes back |
| ViewerProtocol.ClosedIsEmpty | src-tauri/src/native_artifact_viewer.rs:633-646 | a close that has retired all it found leaves an empty table, for ever |
| ViewerDecisions.TableIsHistory | src-tauri/src/native_artifact_viewer.rs:154-226 | bound, stopped, used and registered are what the steps so far have made them |
| ViewerDecisions.RegistrationDecides | src-tauri/src/native_artifact_viewer.rs:190-226 | an id gets a viewer exactly when the owner is bound and not stopped, the id was never used and there is room; each refusal has its error |
| ViewerDecisions.BurialDecides | src-tauri/src/native_artifact_viewer.rs:576-587 | a retirement is refused only when its id would be one too many |
| ViewerDecisions.EntriesChange | src-tauri/src/native_artifact_viewer.rs:64-90 | each step changes what is named of its own entry, and nothing else |
| ViewerDecisions.FirstRequestIsServed | src-tauri/src/native_artifact_viewer.rs:259-280 | a request in scope for the document is answered exactly after the open attempt, before a fence, and once |
| ViewerDecisions.RetirementCompletes | src-tauri/src/native_artifact_viewer.rs:591-631 | nothing keeps a fenced entry without holders and without a live window from being removed |
| ViewerDecisions.CloseBegins | src-tauri/src/native_artifact_viewer.rs:633-646 | a close retires exactly the entries it finds |
| NotificationOwner.SessionObject.NotifyReturned | src-tauri/src/native_notifications.rs:655-683 | the id is recorded and the call counted off whether or not the caller is there |
| NotificationOwner.CleanupBatch.Returned | src-tauri/src/native_notifications.rs:752-781 | one reply: the notice, the count, and with the last one the report and the session's place in the table |
| NotificationOwner.CleanupBatch.Finish | src-tauri/src/native_notifications.rs:691-707 | nothing while a call is out; then the report, and on success the session leaves the table |
| NotificationOwner.CloseOnGui | src-tauri/src/native_notifications.rs:708-783 | fence, snapshot and batch; without a session or without notices the report is made at once |
| NotificationOwner.SessionObject.TryReserve | src-tauri/src/native_notifications.rs:636-643 | a call is admitted only below the limit and before closing |
| NotificationOwner.SessionObject.RetireClosedNotice | src-tauri/src/native_notifications.rs:351-364 | only an acknowledged id is forgotten |
| NotificationOwner.SessionObject.NotificationClosed | src-tauri/src/native_notifications.rs:461-490 | an id the server closed is forgotten |
| NotificationOwner.SessionObject.TakeSnapshot | src-tauri/src/native_notifications.rs:716-725 | the session is fenced and its ids taken |
| NotificationProtocol.StepInv | src-tauri/src/native_notifications.rs:494-787 | every step of requests, signals, the shared work owner, the close driver and its batch keeps the invariant |
| NotificationProtocol.RequestsHoldReceipts | src-tauri/src/native_notifications.rs:108-143 | the shared work counter covers every request, so at zero there is none |
| NotificationProtocol.NoticesAreBounded | src-tauri/src/native_notifications.rs:636-644 | notices and calls together are at most 64 and the count of calls is exact |
| NotificationProtocol.AcceptedIdsAreKept | src-tauri/src/native_notifications.rs:663-677 | every accepted id stays recorded until the server closes, acknowledges or reuses it |
| NotificationProtocol.NoIdAfterTheSnapshot | src-tauri/src/native_notifications.rs:280-296 | from the end of the drain on, through every later attempt, no request is left or admitted and no id arrives, whatever cleanup other components still do |
| NotificationProtocol.CleanupIsExact | src-tauri/src/native_notifications.rs:691-787 | the batch's counter and flag report with the last answer, and success exactly when every id of the snapshot was acknowledged; then every accepted id is settled |
| NotificationProtocol.EmptyCleanupReportsAtOnce | src-tauri/src/native_notifications.rs:711-738 | a cleanup reports success at once if and only if there is no notice, with or without a session |
| NotificationProtocol.CleanupBookkeeping | src-tauri/src/native_notifications.rs:686-707 | while a cleanup runs its counter is the number of calls that are out and its flag says whether one was refused |
| NotificationDecisions.NotifyDecides | src-tauri/src/native_notifications.rs:549-643 | a request may notify exactly with an alert, a usable session and fewer than 64 notices and calls |
| NotificationDecisions.ReplyDecides | src-tauri/src/native_notifications.rs:655-683 | the reply records exactly a nonzero id for its request, and ends the call in any case |
| NotificationDecisions.NoticesChange | src-tauri/src/native_notifications.rs:351-364 | besides new ids, notices change only by the server's word for that id |
| NotificationDecisions.SettlementDecides | src-tauri/src/native_notifications.rs:351-364 | a request is settled exactly by the step that takes its recorded notice away |
| NotificationDecisions.AdmissionDecides | src-tauri/src/native_notifications.rs:108-143 | a request is admitted exactly while the shared owner is open and has room |
| NotificationDecisions.ClosingIsHistory | src-tauri/src/native_notifications.rs:280-296 | the shared owner is closed by the close driver or another component, and never opened again |
| NotificationDecisions.CloseGoesOn | src-tauri/src/native_notifications.rs:241-312 | what each step of a close attempt leads to, and when it may begin again |
| NotificationDecisions.RepliesDecide | src-tauri/src/native_notifications.rs:686-783 | each reply moves its id to the acknowledged or the refused ones; the last reports success exactly if all were acknowledged |

## Left out

- GTK, GIO, WebKit, Tauri and tokio: replaced by steps that may happen in any order; a blocked join is a step that is not enabled, and no fairness is assumed, so nothing says that a callback comes at all.
- The wake-ups of `wait_acquisitions` and of the viewer's `retire` loop, which relies on a notification reaching a waiter from its creation on: their waits are plain conditions here. Those of the drain and of the drop group are proved not to be lost.
- `settled.notify_waiters` after a retired drop group: a notification more, which a closer answers by looking again.
- `accept` of the drop owner is one step, though the group's own flag is read once more under the lock; the fences store that flag under the same lock.
- DropOwners.DropOwner.Capture: the held files, `configure_capture` and the capture code itself; its rule that the timer starts before the raw receipt is dropped is a condition of the timer's step.
- Mutex poisoning and panics in callbacks.
- IdentityMigration.Disk.Rename: a rename that throws is taken to have done nothing; one in which the process dies may have been done.
- Windows: the forward-slash variants of a root in git pointers and the other spellings of a path.
- IdentityMigration.CopyEntries: one entry is one value and an interrupted copy or rewrite leaves any value in staging; single files below an entry appear only in `GitPointers`.
- `stat.size` is the length of the content, and unreadable directories or files of an entry are left out of the walk.
- The JSON text of the marker, the log lines and error messages.
- The portal's path, token and unique-name syntax and the size limits on D-Bus replies: they decide the boolean arguments of the session's callbacks.
- `CallLifetime` of an acquisition: a cancelled caller only makes the checks fail, which they may always do.
- NotificationProtocol: that the close driver's drain also wakes up is proved in `WorkProtocol`, not again here.
- ViewerOwner.EntryObject.Serve: the syntax of labels and addresses; whether a request is for the entry's own document is an argument.
- TokenBudgetRecap.BuildTokenBudgetedRecap: `modelContextWindow` is an argument, 0.6 is exact, the synthetic record id is an index instead of text, and the tool outcome arrives as its JSON text.
- Unicode trimming: `trim` is any function on text.
- UriList.UriList: which paths are UTF-8 is an argument.
- `image`, `result` and `choose_targets` of the clipboard, the field validators, the link and notification text checks: one reading settles each.
- The effects of `retained_download` and `retained_copy` before and after the GUI closure, and the one-shot flag of the save dialog.
- The viewer's navigation rules, its document headers and its expiry timer, which is one of the fences that may come at any time.
- The click on a notification, which raises the window once.
- `retained_cleanup`'s join of the signal closures.
