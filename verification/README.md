# What ssh-client keeps

A Dafny model of the stateful parts of ssh-client, and proofs of what they keep
over whole runs and unbounded inputs. `dafny verify dfyconfig.toml` checks all
of it.

Each part has the same layers: a specification on values (states, events and
what a step makes of them), lemmas about every run of it, told by its events
where the question is who did what, and, where the program changes things in
place, classes and loops proved to compute exactly the specification.

| part | specification | what holds of it | in place |
|---|---|---|---|
| terminal tabs | `TabModel`, `TabWorld`, `TabOutcomes` | `TabRuns`, `TabAnswers`, `TabGuarantees` | `TabApp` |
| one shell session | `SessionModel`, `SessionEvents` | `SessionModel`, `SessionHistory` | `SessionState` |
| host key questions | `HostKey`, `HostKeyEvents` | `HostKey`, `HostKeyHistory` | `HostKey` |
| recursive transfer and delete | `Paths`, `Files`, `Plans`, `WalkState`, `Copies`, `Halts` | `CopyTree`, `DeleteTree` | `Transfer`, `CopyTree`, `DeleteTree` |
| moving secrets into the vault | `Vault`, `Migrate` | `MigrateSafety` | `Migrate` |
| rebinding keys | `KeymapModel`, `KeymapStages`, `KeymapShipped` | `KeymapRows`, `KeymapSafety`, `KeymapTable` | `Keymap` |
| known_hosts union | `HostLines`, `KnownHosts` | `HostText`, `KnownHostsSafety` | `Bundle` |
| sync between devices | `SyncModel`, `SyncEvents` | `SyncSafety`, `SyncHistory`, `SyncExamples` | `SyncApp` |
| status hint, clipboard, selection | `Hint`, `Clip`, `Selection` | the same | `Hint`, `Clip`, `SelectionView` |

`Options` and `Basics` hold the few definitions several parts share.

What the outside world does is a choice the proofs leave open: dials, reads,
writes, uploads and removals succeed or fail at any point, messages arrive in
any order, goroutines interleave between any two atomic steps, a Go map is read
in any order, and a crash can fall between any two file operations.

Some things one would expect do not hold of the code as it is. Each is proved as
an exact condition, with an example:

- a context can end with one key on two actions (`internal/ui/keymap.go` says
  both holders go back to their defaults, lines 459-461, but a default can be
  held by a third row, and the mandatory rule runs after clashes are resolved):
  `KeymapModel.ClashFreeWhen`, `KeymapTable.ARevertCanClash`.
- escape and help can be out of reach of every key, though lines 466-467 promise
  a way out and a way to find out: `KeymapSafety.MandatoryReachableWhen`, and
  three files that do it in `KeymapTable`. Resolving repeatedly, mandatory rows
  first, needs no condition for either: `KeymapModel.RepairedIsSafe`,
  `KeymapSafety.RepairedKeepsMandatoryReachable`.
- a copy follows links on the destination: it writes outside the place it was
  confirmed for, `CopyTree.RanMirrorsWhen` when it finishes and
  `Copies.RanArrivesWhen` wherever it stops; and one that breaks off unlinks the
  link and leaves its target cut short, `Copies.BrokenCleansUpWhen`.
- a migration that dies after the list is rewritten leaves key files that no
  later run removes: `MigrateSafety.RerunFinishes`.
- a migration can take a key out of the vault, or a path off an entry whose key
  did not move: `MigrateSafety.VaultKeepsWhen`,
  `MigrateSafety.PathsClearedRightlyWhen`.
- the scan is older than the passphrase: a password saved in the clear in between
  goes from the list and not into the vault:
  `MigrateSafety.ListedPasswordStaysWhen`, `MigrateSafety.ASecretSavedMeanwhile`.
- answering a key passphrase for files opens a session tab whose dial is
  dropped: `TabGuarantees.RetryFilesStrandsATab`, `TabGuarantees.ARetryStrands`.
- a registration can end up with the sha of another file's version, and then
  neither push nor pull while its own file holds nothing:
  `SyncSafety.StrandedWhen`, with two runs in `SyncExamples`.
- an incoming `@revoked` line joins known_hosts without a report, and its key is
  accepted for no host any more, unless it contradicts a key trusted here for a
  host it names: one for hosts not known here joins, and so does one for the very
  host the key is trusted for: `KnownHostsSafety.AcceptedStaysExactlyWhen`.

`selCell` is described as the same split `renderScrolled` draws
(`internal/ui/terminal.go`, lines 290-292); the code agrees with that only while the
offset is within the scrollback (`Selection.SelectsWhatIsShown`).

## Model

| member | source | states |
|---|---|---|
| `TabGuarantees.AtMostOneDriver` | internal/ui/app.go:810-928 | in every run each open tab has at most one thing in flight under its generation, of the kind its state asks for: a dial while connecting or reconnecting, a receive while live, a tick or nothing while lost |
| `TabGuarantees.ExactlyOneDriverUnlessParked` | internal/ui/app.go:810-928 | in every run without the key-passphrase retry for files, exactly one, unless the tab is parked on an unknown host key |
| `TabGuarantees.RetryFilesStrandsATab` | internal/ui/unlock.go:392-398 | that retry leaves a connecting tab with nothing in flight exactly when the pool still has a slot: the dial it opens is thrown away |
| `TabGuarantees.ARetryStrands` | internal/ui/unlock.go:392-398 | from nothing open it leaves one connecting tab and nothing in flight |
| `TabGuarantees.OutputFindsItsSession` | internal/ui/app.go:899-910 | an output message that finds a tab finds it live, on the session the bytes came from |
| `TabGuarantees.AttemptCountsFailures` | internal/ui/app.go:817-864 | `attempt > 0` holds exactly for tabs that are down, so a failed dial is told apart from a failed reconnect |
| `TabGuarantees.LiveScreenIsItsSession` | internal/ui/app.go:899-910 | a live tab's screen, with what is in flight for it, is all its session wrote, in order |
| `TabGuarantees.DownScreenIsTheLastSession` | internal/ui/tabs.go:376-404 | a tab that is down still shows what its last session wrote, all of it |
| `TabGuarantees.ClosingAnotherKeepsTheVisible` | internal/ui/tabs.go:250-280 | closing another tab never changes which tab is on screen |
| `TabGuarantees.ActiveInRange` | internal/ui/tabs.go:221-280 | in every run the active index is in range, and -1 exactly if no tab is open |
| `TabGuarantees.SlotsArePartitioned` | internal/ui/terminal.go:49-80 | in every run live = open tabs + free slots <= 8, each slot is in exactly one place, and no free slot writes or shows anything |
| `TabGuarantees.PumpFollowsTheSession` | internal/ui/terminal.go:93-109 | a slot's key pump feeds session s exactly while its tab is live on s |
| `TabGuarantees.NoSessionLeaks` | internal/ui/app.go:810-846 | every session ever delivered is on its way, held by exactly one tab, closed, or over |
| `TabGuarantees.QuitLeavesNothingOpen` | internal/ui/tabs.go:293-297 | after quitting each session ever delivered is closed, over, or still on its way to the loop, and no tab is open |
| `TabGuarantees.UnattendedDialsNeverAsk` | internal/ui/tabs.go:347-371 | a dial that may ask about a host key starts only on a step of the user's; a timer's never may |
| `TabGuarantees.UnknownKeyParksTheTab` | internal/ui/app.go:856-862 | an automatic retry that meets an unknown host key leaves its tab lost, unscheduled and with nothing in flight |
| `TabGuarantees.WaitsUntilTheUserActs` | internal/ui/tabs.go:396-404 | over any stretch of a run in which the user neither reconnects nor closes it, such a tab goes on waiting, with nothing in flight |
| `TabGuarantees.UpdateReachesOneTab` | internal/ui/tabs.go:170-177 | a message changes or closes the one tab of its generation and no other; a stale one changes none |
| `TabAnswers.EndedDecides` | internal/ui/app.go:912-928 | in every run, the end of a session leaves its tab at its place, lost, with its screen, one more attempt counted and a timer set to the doubled wait, if and only if the connection was lost; in any other case, and only then, no tab of that generation is left, its session is closed and its slot is free |
| `TabAnswers.ConnectFailedDecides` | internal/ui/app.go:848-877 | a failed dial takes the tab away exactly if it was the first; a tab that was to come back waits for the user if the host key is unknown, and for a timer otherwise |
| `TabAnswers.ConnectedDecides` | internal/ui/app.go:810-846 | a dial that succeeds leaves the tab live on that session, its screen blank, no attempt counted, waiting for output, and marked unless it is on screen |
| `TabAnswers.OutputDecides` | internal/ui/app.go:899-910 | output is appended to its own tab, which is marked if it is not on screen, and the next chunk is waited for |
| `TabAnswers.ReconnectDecides` | internal/ui/app.go:879-884 | the timer's message dials again under a new generation, without a prompt |
| `TabAnswers.StaleDecides` | internal/ui/app.go:810-928 | a message of a generation no tab has changes nothing, but that a session it delivers is closed |
| `TabAnswers.PressRDecides` | internal/ui/app.go:1269-1274 | the reconnect key dials with a prompt for a lost tab on screen, and is nothing otherwise |
| `TabAnswers.CloseVisibleDecides` | internal/ui/tabs.go:250-280 | the tab on screen goes; its right neighbour is on screen next, or else its left one |
| `TabAnswers.CycleDecides` | internal/ui/tabs.go:240-246 | cycling by any amount lands on the index modulo the number of tabs, in both directions |
| `TabAnswers.OpenDecides` | internal/ui/tabs.go:304-342 | a server that has a tab is shown unless another session is asked for; otherwise one more tab is opened, on a blank slot no other has, exactly if fewer than eight are open |
| `TabRuns.InvInEveryRun` | internal/ui/app.go:691-928 | the invariant over tabs, pool, sessions and everything in flight holds after any interleaving of steps |
| `TabModel.BackoffIsCappedDoubling` | internal/ui/tabs.go:33-44 | the wait is 1 s doubled for each earlier failure, capped at 30 s, for every attempt count |
| `TabApp.TermPool.Get` | internal/ui/terminal.go:55-69 | lends the slot freed last, wiped, or a new one while fewer than 8 are out |
| `TabApp.TermPool.Put` | internal/ui/terminal.go:73-80 | takes a slot back detached and wiped |
| `TabApp.App.OpenTab` | internal/ui/tabs.go:304-342 | the whole new state and the dial it starts are those of the value-level step |
| `TabApp.App.Redial` | internal/ui/tabs.go:347-371 | new generation, reconnecting, and a dial that may ask only if the user started it |
| `TabApp.App.ScheduleReconnect` | internal/ui/tabs.go:376-391 | lost, one more attempt, key pump detached, one tick of the present generation started |
| `TabApp.App.StopReconnecting` | internal/ui/tabs.go:396-404 | lost and unscheduled, key pump detached, screen kept |
| `TabApp.App.CloseTab` | internal/ui/tabs.go:250-280 | session closed, slot back in the pool, tab gone, active index moved as the value-level step says |
| `TabApp.App.CloseAll` | internal/ui/tabs.go:293-297 | every tab, last to first |
| `TabApp.App.SwitchTo` | internal/ui/tabs.go:221-237 | out of range changes nothing; otherwise the tab is active and its mark cleared |
| `TabApp.App.CycleTab` | internal/ui/tabs.go:240-246 | wraps in both directions, with truncated remainder |
| `TabApp.App.OnConnected` | internal/ui/app.go:810-846 | a stale session is closed; otherwise the tab is live on it, wiped first if it was reconnecting |
| `TabApp.App.OnConnectFailed` | internal/ui/app.go:848-877 | stale: nothing; reconnecting: parked or rescheduled; first dial: closed |
| `TabApp.App.OnReconnect` | internal/ui/app.go:879-884 | redials only a lost tab of that generation |
| `TabApp.App.OnOutput` | internal/ui/app.go:899-910 | writes to the tab's own screen and asks for the next chunk |
| `TabApp.App.OnEnded` | internal/ui/app.go:912-928 | a lost connection is rescheduled, an ended shell's tab closed |
| `TabApp.App.PressReconnect` | internal/ui/app.go:1269-1274 | the reconnect key redials a lost tab that is on screen, with the prompt, and does nothing else |
| `SessionModel.InvInEveryRun` | internal/ssh/session.go:149-167 | the invariant over pumps, waiter, keepalive, Close and the channel holds after any interleaving |
| `SessionModel.ClosedOnceAfterThePumps` | internal/ssh/session.go:304-331 | the output channel is closed at most once, only after both pumps are done, and nothing is ever sent to it closed |
| `SessionModel.ExitErrIsFrozen` | internal/ssh/session.go:161-165 | a reason once recorded is never overwritten, and none changes once the session is closed |
| `SessionHistory.EndSaysWhatHappened` | internal/ssh/session.go:149-180 | who sees the channel closed reads, then and ever after, that the connection was lost if the keepalive gave up in time; else what the shell's own exit event carried, if the waiter noted it before anybody closed the session; else nothing |
| `SessionHistory.KeeperTurns` | internal/ssh/session.go:240-268 | the keepalive may do exactly this: tick again after an answer, be answered or not after a tick of an open session, only fail after no answer, and nothing once it has failed or ticked on a closed session |
| `SessionHistory.OnlySilenceFails` | internal/ssh/session.go:252-267 | it fails only when its last event was that no answer came |
| `SessionHistory.FailingRecords` | internal/ssh/session.go:274-285 | failing records the loss exactly if the session is open and has no reason yet |
| `SessionHistory.LostMeansUnanswered` | internal/ssh/session.go:252-285 | a session counts as lost if and only if the keepalive failed while it was open and had no reason, so never without a keepalive left unanswered |
| `SessionHistory.PumpTurns` | internal/ssh/session.go:287-318 | a pump may do exactly this: look at the flag after a read, send after it saw the session open, and after a send read on unless that was the last; what it read before it saw the session closed is not sent, and it is done |
| `SessionModel.NothingIsLost` | internal/ssh/session.go:287-318 | when the end is seen the reader has every chunk each side read, in order; after Close at most the last chunk of each is missing |
| `SessionState.Session.Fail` | internal/ssh/session.go:274-285 | the section under the mutex: the first reason wins, none once closed, and whether to drop the transport |
| `SessionState.Session.MarkClosed` | internal/ssh/session.go:215-222 | closes once and says whether it already was |
| `SessionState.Session.NoteExit` | internal/ssh/session.go:161-165 | records the shell's exit only if nothing is recorded and the session is open |
| `HostKey.InvInEveryRun` | internal/ssh/hostkey.go:77-147 | the invariant over any number of handshakes, questions and answers holds after any interleaving |
| `HostKey.AddedOnlyWhenAccepted` | internal/ssh/hostkey.go:134-146 | a line is appended only by a handshake that was asked about, for a host not on file, whose first answer was yes; its own line, once |
| `HostKey.LinesAreHandshakes` | internal/ssh/hostkey.go:143-146 | known_hosts grows by exactly one line for each handshake let through by an answer, and keeps what it had |
| `HostKey.UnattendedNeverAsks` | internal/ssh/hostkey.go:112-115 | without a prompt channel a handshake asks nothing, appends nothing, and gets through only on a known key |
| `HostKey.ChangedIsNeverApproved` | internal/ssh/hostkey.go:89-106 | a changed or revoked key is never asked about and always refused |
| `HostKey.TrustedMeansKnownOrAdded` | internal/ssh/hostkey.go:84-110 | getting through means known before or added by this handshake, never both |
| `HostKeyHistory.TrustDecides` | internal/ssh/hostkey.go:77-147 | a handshake gets through if and only if its host was found on file or its line was written |
| `HostKeyHistory.TakeDecides` | internal/ssh/hostkey.go:134-141 | the first answer given decides: after yes the line may be written and nothing else, after no the handshake is refused |
| `HostKeyHistory.AppendDecides` | internal/ssh/hostkey.go:134-147 | the line written is the handshake's own, after a question answered yes first, for a host not on file; written it makes the key trusted, not written it refuses it |
| `HostKeyHistory.ChangedIsRefused` | internal/ssh/hostkey.go:84-106 | a key found changed or revoked is a mismatch, one that could not be looked up an error, in either case without a question and without a line |
| `HostKey.HostKeyPrompt.Answer` | internal/ssh/hostkey.go:37-42 | the slot takes one answer and drops any other |
| `Transfer.Plan` | internal/sftp/tree.go:27-72 | terminates on every finite tree and returns a plan: every node reachable without crossing a link exactly once, parents first, with kind and size; total is the sum of sizes, skipped the number of links |
| `Transfer.JoinRel` | internal/sftp/tree.go:76-85 | a relative path leads back to the node it stands for |
| `CopyTree.PlanCountsEveryNode` | internal/sftp/tree.go:42-71 | items + skipped is the number of nodes at or below the root |
| `CopyTree.PlanCountsFiles` | internal/sftp/tree.go:58-69 | the plan's files are exactly the files of the tree |
| `CopyTree.SizesAreBytes` | internal/sftp/tree.go:58-69 | the planned total is the number of bytes the files hold |
| `Transfer.CopyCtx` | internal/sftp/transfer.go:83-109 | the file grows by exactly what was read, the counter with it, until the end or a fault |
| `Transfer.CopyFile` | internal/sftp/transfer.go:126-189 | finished: the file the destination leads to has exactly the source's bytes; broken off after n bytes: that file has just those, and the destination path is unlinked; otherwise nothing changed |
| `Transfer.RunSet` | internal/sftp/tree.go:109-147 | links followed, exactly the first k items have been carried out, and perhaps some bytes of the next; those k are at their own places if and only if no link is in the way of them; if it broke off in a file, that file is gone if and only if the name it was given was no link before the run, and otherwise has just the bytes written; files, bytes and progress are exact |
| `Copies.BrokenCleansUpWhen` | internal/sftp/transfer.go:141-151 | a copy that breaks off takes away the file it wrote if and only if its destination path is no link; over a link, the target keeps the bytes so far |
| `Copies.RanArrivesWhen` | internal/sftp/tree.go:109-162 | items that were carried out are each at its own place, and nothing else has changed, if and only if no such place, and none on the way, was a link |
| `CopyTree.PlanMirrors` | internal/sftp/tree.go:109-147 | a plan's items, each at its own place, make up the tree without its links and nothing else |
| `CopyTree.RanMirrorsWhen` | internal/sftp/tree.go:109-162 | a plan that has run in full mirrors its tree if and only if no place it goes to, and none on the way, is a link on the destination |
| `CopyTree.ALinkIsFollowed` | internal/sftp/tree.go:151-162 | docs copied over a link docs -> elsewhere puts its file into elsewhere and succeeds |
| `CopyTree.ABrokenCopyCutsTheTarget` | internal/sftp/transfer.go:141-151 | broken off over a link, a copy removes the link and leaves its target with the bytes so far |
| `CopyTree.NothingInTheWay` | internal/sftp/tree.go:109-162 | no item finds its parent missing or something of its own, or of a destination of matching kinds, in the way |
| `CopyTree.CopyOver` | internal/ui/app.go:556-611 | planning and running one entry: on success all counts are exact and the destination mirrors the source if and only if no link was in the way; without one, nothing but the copy's own places changes even on failure; with matching kinds it stops only for a fault of network or disk, or cancellation |
| `DeleteTree.RemoveTree` | internal/sftp/remote.go:118-140 | on success exactly what is at or below the path is gone; in any case nothing outside is touched, no link is followed, and children go before what holds them |
| `DeleteTree.RemoveChildren` | internal/sftp/remote.go:128-137 | a directory is left empty and everything else as it was |
| `DeleteTree.DeletePlanned` | internal/ui/app.go:623-658 | on an unchanged tree the number of removals is the number of planned items plus the links skipped |
| `Migrate.Store.ScanPlaintext` | internal/config/migrate.go:59-103 | finds the last password of each non-empty id and the body of each key file of ours that is there |
| `Migrate.Store.Migrate` | internal/config/migrate.go:110-174 | every state the directory goes through is one Crashed describes; finishing gives Migrated and the filled secrets; nothing to move changes nothing |
| `Migrate.Store.SaveSecrets` | internal/config/vaultstore.go:55-83 | the vault is replaced whole or left alone, at every moment |
| `Migrate.Store.Save` | internal/config/store.go:143-164 | the list is replaced whole, without passwords, or left alone, at every moment |
| `MigrateSafety.VaultIsWhole` | internal/config/vaultstore.go:28-50 | wherever it dies the vault opens to what it held, or to that with each scanned password, and each scanned key or none for an empty one, in place of what it held for the id; everything else it held is as it was, and nothing is in between |
| `MigrateSafety.NothingIsLost` | internal/config/migrate.go:110-174 | on a disk as it was scanned: wherever it dies each scanned password is in the list or the vault, each scanned key that is not empty in its file or the vault |
| `MigrateSafety.NothingScannedIsLost` | internal/ui/unlock.go:100-122 | with a scan older than the disk: a scanned secret is in its file or the vault if and only if it was when the migration began or the vault is sealed by now, and what the vault held for other ids is still there |
| `MigrateSafety.ListedPasswordStaysWhen` | internal/ui/unlock.go:100-122 | with a scan older than the disk: a password the list had when the migration began is in the vault when it is done if and only if the scan found it, or found none for its id and the vault held it; the backup has the list |
| `MigrateSafety.ASecretSavedMeanwhile` | internal/config/migrate.go:110-174 | a password put into the list between scan and passphrase is in the backup alone |
| `MigrateSafety.VaultKeepsWhen` | internal/vault/vault.go:129-150 | what the vault held for an id it still holds if and only if it is not sealed again yet, or nothing, or just that, was scanned for the id |
| `MigrateSafety.AnEmptyKeyFileErases` | internal/vault/vault.go:141-145 | an empty key file takes the vault's key for its server with it |
| `MigrateSafety.RerunEndsTheSame` | internal/config/migrate.go:110-174 | taken up again before the list is rewritten it ends in exactly the same states |
| `MigrateSafety.RerunFinishes` | internal/config/migrate.go:158-174 | a second run finishes the first exactly if it still finds something to move or no key file was left to remove |
| `MigrateSafety.AKeyFileCanBeLeftBehind` | internal/config/migrate.go:158-174 | a crash between rewriting the list and unlinking leaves a key file no later run removes |
| `MigrateSafety.MigratedList` | internal/config/migrate.go:144-158 | passwords gone, the key path cleared exactly for the ids a key was scanned for, everything else kept, entry by entry |
| `MigrateSafety.MigratedSecrets` | internal/config/migrate.go:110-174 | when done the vault opens, only under its passphrase, to what it held with what was scanned in its place and everything else as it was; a scan finds nothing, no original key file is left and the list as it was is in the backup |
| `MigrateSafety.MigratedLeavesTheRest` | internal/config/store.go:260-277 | files of the user's and key files the list does not name are untouched |
| `MigrateSafety.AllPasswordsMove` | internal/config/migrate.go:59-103 | every password in the list is moved exactly if none has an empty id and no id has two |
| `MigrateSafety.AllKeysMove` | internal/config/migrate.go:59-103 | every key in a file of ours is moved if and only if none has an empty id or an empty body and no id has two different bodies |
| `MigrateSafety.PathsClearedRightlyWhen` | internal/config/migrate.go:150-156 | no path but a moved key's is cleared if and only if no id with a key file of ours is shared with another path |
| `MigrateSafety.ASharedIdLosesAPath` | internal/config/migrate.go:150-156 | of two entries with one id, the one with the user's own key file loses its path |
| `MigrateSafety.ScanAfterTheRewrite` | internal/config/migrate.go:158-174 | once the list is rewritten a scan finds nothing, whether or not the originals are gone |
| `KeymapModel.ClashFreeWhen` | internal/ui/keymap.go:506-547 | the rows end without a clash exactly if no default that a clash or the mandatory rule brings back is a key some other row kept |
| `KeymapModel.LookupIsMembership` | internal/ui/keymap.go:345-370 | without clashes a key does an action if and only if it is in that action's list |
| `KeymapModel.LookupFindsTheLast` | internal/ui/keymap.go:345-359 | with clashes the row declared last wins |
| `KeymapModel.CountedTwice` | internal/ui/keymap.go:506-514 | the code's tally of holders finds exactly the clashing keys, a key listed twice in one row among them |
| `KeymapModel.EveryPassReverts` | internal/ui/keymap.go:516-537 | a pass over clashing rows takes at least one back to its default, so repeating it ends |
| `KeymapModel.RepairedIsSafe` | internal/ui/keymap.go:506-547 | binding what is mandatory first and then resolving until nothing clashes needs no condition |
| `KeymapModel.RepairedAgrees` | internal/ui/keymap.go:506-547 | and where the single pass is enough the two agree |
| `KeymapSafety.AppliedIsClashFreeWhen` | internal/ui/keymap.go:430-474 | for every keys.json, whether a context ends clash-free, as an if and only if over what the file says |
| `KeymapSafety.KeyDoesWhatItsListSays` | internal/ui/keymap.go:361-370 | and then lookup is membership in the lists |
| `KeymapSafety.UserOrDefault` | internal/ui/keymap.go:430-474 | every row ends with exactly the user's list, or its default if it is not in the file or was refused |
| `KeymapSafety.MandatoryAreBound` | internal/ui/keymap.go:540-547 | escape and help always end with a key in their list |
| `KeymapSafety.EscapeAndHelpAreBound` | internal/ui/keymap.go:466-471 | whatever the file, session.escape and global.help each end with a row that has a key |
| `KeymapSafety.ReachableWhen` | internal/ui/keymap.go:345-370 | some key does what a row is for if and only if one of the keys the row ends with is in no later row's list, told from the defaults and the file |
| `KeymapSafety.MandatoryReachableWhen` | internal/ui/keymap.go:466-471 | exactly when a file leaves a key that escapes and a key that shows the help |
| `KeymapSafety.RepairedKeepsMandatoryReachable` | internal/ui/keymap.go:466-469 | resolving repeatedly, mandatory rows first, always leaves one |
| `KeymapSafety.DumpRefusedWhen` | internal/ui/keymap.go:589-604 | a dumped keymap reads back without a problem exactly if it has no clash and nothing mandatory unbound |
| `KeymapSafety.DumpReadsBack` | internal/ui/keymap.go:589-604 | and then it reads back as itself |
| `KeymapShipped.ShippedIsSound` | internal/ui/keymap.go:216-322 | the shipped table, all thirteen contexts, has each action once, no key twice and escape and help bound, as the theorems ask |
| `KeymapTable.ARevertCanClash` | internal/ui/keymap.go:516-537 | `{"sidebar.new_session":["d"],"sidebar.delete":["e"]}` ends with two actions on d |
| `KeymapTable.TheEscapeCanBeLost` | internal/ui/keymap.go:466-471 | `{"session.escape":[],"session.scroll_up":["ctrl+b"]}` ends with no key that leaves the session |
| `KeymapTable.TheEscapeCanBeShadowed` | internal/ui/keymap.go:516-537 | `{"session.escape":["r"],"session.reconnect":["x"],"session.scroll_up":["x"]}` ends with no key that leaves the session, without the mandatory rule |
| `KeymapTable.TheHelpCanBeShadowed` | internal/ui/keymap.go:516-537 | `{"global.help":["q"],"global.quit":["x","x"]}` ends with no key that shows the help |
| `Keymap.Keymap.Apply` | internal/ui/keymap.go:430-474 | bindings, index and the set of refused actions are functions of the file alone, in whatever order maps are read; each refusal is reported once, with a true reason |
| `Keymap.Keymap.ResolveClashes` | internal/ui/keymap.go:506-538 | reverts exactly the holders of clashing keys |
| `Keymap.Keymap.RequireBound` | internal/ui/keymap.go:540-547 | gives back the default exactly if the row is there and empty |
| `Keymap.Keymap.Reindex` | internal/ui/keymap.go:345-359 | the index answers as the last-declared row does |
| `Keymap.Keymap.ActionFor` | internal/ui/keymap.go:365-370 | no global fallback: only the context's own rows |
| `Keymap.Keymap.Dump` | internal/ui/keymap.go:589-604 | every row that can be rebound, with its keys, and nothing else |
| `HostLines.WrittenReadsBack` | internal/config/bundle.go:254-280 | what is written for lines read from files reads back as those lines, all, in order |
| `HostLines.SharedId` | internal/config/bundle.go:243-252 | two lines share an id exactly if they name a host pattern alike and have one key type |
| `HostText.LineIsItsWords` | internal/config/bundle.go:254-280 | a text is no line exactly if it is blank, a comment, or has fewer than three words after a marker; otherwise the three words are the hosts, the key type and the key, in this order |
| `HostText.LineReadsBack` | internal/config/bundle.go:254-280 | hosts, type and key with blanks between are read back as these, whatever follows and with or without a marker before |
| `HostText.TwoLines` | internal/config/bundle.go:160-211 | on two files of one line: another key for the same host and type is turned away and reported, a line for another host or of another type joins, the same line again adds nothing |
| `KnownHostsSafety.MergedReadsBack` | internal/config/bundle.go:160-211 | the merged text re-parses to the local entries followed by the added ones |
| `KnownHostsSafety.MergeIsIdempotent` | internal/config/bundle.go:160-211 | through print and re-parse, merging the same text again changes nothing and reports the same conflicts |
| `KnownHostsSafety.LocalTrustStays` | internal/config/bundle.go:166-198 | local entries stay first and in order, and the key the merge has on record for a known host and type never changes |
| `KnownHostsSafety.AcceptedStaysExactlyWhen` | internal/config/bundle.go:178-204 | markers counted, a key accepted here for a host and type still is if and only if every incoming revocation of it names some host trusted here with another key, for an incoming file with one key for each host and type |
| `KnownHostsSafety.AcceptedStaysIf` | internal/config/bundle.go:178-204 | and it still is under that condition for any incoming file |
| `KnownHostsSafety.OnlyContradictionsAreTurnedAway` | internal/config/bundle.go:178-204 | from such a file exactly the new lines that contradict what is trusted here are turned away |
| `KnownHostsSafety.ARevocationOfOthersCanJoin` | internal/config/bundle.go:178-204 | a revocation for hosts not known here joins unreported and ends the key's acceptance |
| `KnownHostsSafety.ARevocationOfItsHostCanJoin` | internal/config/bundle.go:178-204 | and so does one for the host the key is trusted for |
| `KnownHostsSafety.NoOtherKeyIsAccepted` | internal/config/bundle.go:178-204 | from a local file with one key each, no other key is ever accepted for a host and type known here |
| `KnownHostsSafety.OneKeyEachStays` | internal/config/bundle.go:166-204 | the result has one key for each host and type if and only if the local file has |
| `KnownHostsSafety.KeptOrReported` | internal/config/bundle.go:178-204 | every incoming line is in the result, or contradicts what is trusted there and is reported; never both |
| `KnownHostsSafety.ReportedWereTurnedAway` | internal/config/bundle.go:183-196 | only hosts of lines that were turned away are reported |
| `KnownHostsSafety.QuietWhenTheyAgree` | internal/config/bundle.go:178-211 | nothing is reported if and only if both files together have one key for each host and type |
| `KnownHostsSafety.EitherDirection` | internal/config/bundle.go:160-211 | and then the merged entries are the same whichever side is local |
| `Bundle.MergeKnownHosts` | internal/config/bundle.go:160-211 | the two loops compute the merge, its counts and its conflicts |
| `Bundle.Store.ApplyBundle` | internal/config/bundle.go:110-156 | a newer version changes nothing; in every state on the way the list is the old one, with perhaps a part of it in the backup, or the new one with all of the old one backed up; known_hosts becomes the union and is rewritten only if something is added |
| `SyncSafety.InvInEveryRun` | internal/ui/sync.go:205-280 | the invariant over any number of devices, their commands in flight and the remote files holds in every run |
| `SyncHistory.OverwritesOnlyOwned` | internal/sync/github.go:138-167 | an accepted upload replaces the file's present version, which an earlier upload of this device made, or which its user, asked about that version, had agreed to take |
| `SyncHistory.HoldsOnlyOwned` | internal/ui/app.go:1064-1103 | every sha a device holds is of such a version |
| `SyncHistory.AppliesOnlyAgreed` | internal/ui/sync.go:364-385 | a list is replaced only after the user said yes to that very version, which a pull of this device had fetched |
| `SyncHistory.DeclineOnlyDrops` | internal/ui/sync.go:364-385 | saying no drops the question and changes nothing else |
| `SyncHistory.ConfirmStarts` | internal/ui/sync.go:364-385 | saying yes drops the question and starts replacing the list by the version it was about, for the registration of when it was put |
| `SyncHistory.FetchGets` | internal/ui/sync.go:228-252 | a fetch gets what the registration's file holds, or nothing and ends |
| `SyncHistory.FetchAsks` | internal/ui/app.go:1086-1095 | a finished fetch puts the question about the version it fetched |
| `SyncHistory.FailureEnds` | internal/ui/app.go:1054-1103 | a job that fails leaves nothing behind |
| `SyncHistory.UploadDecides` | internal/sync/github.go:138-167 | an upload adds a version if and only if the file holds exactly the version the registration has, or none if it has none; there is an answer only then |
| `SyncHistory.UploadsWhatWasStarted` | internal/ui/sync.go:199-232 | an accepted upload goes to the file registered when its user started the push |
| `SyncHistory.UploadsOnlyRegistered` | internal/ui/sync.go:199-232 | every version was uploaded by a device whose user had submitted that very file there |
| `SyncHistory.RegistrationDecides` | internal/ui/app.go:1054-1113 | how each step leaves the present registration, and the one in the vault, of its own device, and that it leaves those of the others alone |
| `SyncSafety.OneChainEach` | internal/sync/github.go:138-167 | the versions of each file form one chain from its first to the one it holds |
| `SyncSafety.InnerIsNeverAdopted` | internal/ui/sync.go:261-280 | a pull keeps this machine's registration, under the sha of what was pulled, whatever the bundle carries |
| `SyncSafety.StrandedWhen` | internal/ui/app.go:1064-1103 | exactly when a step leaves a device with a sha for a file that holds nothing: an answered push, a finished pull, the same file registered on another branch (no form sets a branch: that takes a vault edited by hand) or a restart that gives it one, each by its own input, or nothing that frees it |
| `SyncSafety.StrandedUntilFreed` | internal/ui/app.go:1064-1103 | over any stretch of a run it stays so until it gets another registration that is not, or its file gets a version |
| `SyncSafety.StrandedIsStuck` | internal/sync/github.go:109-167 | meanwhile every upload under that registration is refused and every fetch finds nothing |
| `SyncExamples.ALateAnswerStrands` | internal/ui/app.go:1064-1084 | a run: a push answered after another file was registered |
| `SyncExamples.ALateFetchStrands` | internal/ui/sync.go:364-385 | a run: a pull that arrives after another file was registered, and is confirmed |
| `SyncApp.App.OnChecked` | internal/ui/app.go:1054-1071 | a new registration object; the sha is kept for the same file only |
| `SyncApp.App.OnPushed` | internal/ui/app.go:1073-1084 | the registration present when the answer comes gets the sha |
| `SyncApp.App.ApplyPull` | internal/ui/sync.go:261-280 | a copy of the registration the pull started from, under the new sha |
| `SyncApp.App.OnApplied` | internal/ui/app.go:1097-1113 | the copy becomes the present registration |
| `Hint.HintFor` | internal/ui/app.go:2488-2533 | the line shows, as declared, exactly the k most important bindings, ties to the left, with k the largest number that fits, or 1 |
| `Hint.DropTheWorst` | internal/ui/app.go:2521-2531 | dropping the rightmost of the least important leaves the k - 1 most important |
| `Hint.ShownBeatHidden` | internal/ui/app.go:2521-2531 | whatever is left out is less important than all that is shown, or as important and further right |
| `Hint.TopHasK` | internal/ui/app.go:2521-2531 | the selection of rank k has k members, for every k |
| `Hint.ListedAre` | internal/ui/app.go:2493-2500 | the items are all bindings with a word and a positive priority, in their order, as their keys, a blank and their word |
| `Clip.TruncateClip` | internal/ui/app.go:1970-1981 | unchanged when short; otherwise the longest valid UTF-8 prefix of the first 65536 bytes, at most 3 bytes short of them when the input is valid, and none exactly if the cut falls between characters |
| `Clip.ValidPrefixNear` | internal/ui/app.go:1976-1980 | at most three bytes before any place in a valid text a character ends (section 4 of RFC 3629) |
| `Clip.ValidSplits` | internal/ui/app.go:1976-1980 | a prefix of a valid text is valid exactly if the rest is |
| `Clip.CharsAreScalars` | internal/ui/app.go:1976-1980 | what counts as a character is the encoding of a scalar value (section 3 of RFC 3629) |
| `Clip.ScalarsAreChars` | internal/ui/app.go:1976-1980 | and the encoding of every scalar value counts as one |
| `Selection.SelectsWhatIsShown` | internal/ui/terminal.go:168-194 | the selection reads the rows that are drawn, on every row, exactly while the offset is within the scrollback |
| `Selection.TextEitherWay` | internal/ui/tabs.go:88-110 | a drag the other way selects the same text |
| `Selection.SplitsAtRows` | internal/ui/terminal.go:249-288 | cut after any visible row but the last, a selection's text is that of its two parts with a newline between, even for a drag that leaves the panel sideways |
| `Selection.PlacesDiffer` | internal/ui/terminal.go:293-304 | different viewport rows are different storage |
| `Selection.SelectsReadingOrder` | internal/ui/terminal.go:275-288 | on the rows between the two ends the selected cells are those between them in reading order, ends included, their columns brought into the panel |
| `Selection.RowReads` | internal/ui/terminal.go:257-269 | a row of one-character and empty cells is copied as their characters and blanks, in order |
| `Selection.TailReadsAsNothing` | internal/ui/terminal.go:262-266 | the tail of a wide character adds nothing to what its head is copied as |
| `Selection.ShowsWhatIsCopied` | internal/ui/terminal.go:217-233 | a cell drawn selected shows what it is copied as, reversed and in its own style; the tail of a wide character is left alone |
| `SelectionView.Emulator.SelectedText` | internal/ui/terminal.go:249-273 | the loops compute the selection's text |
| `SelectionView.Emulator.HighlightSelection` | internal/ui/terminal.go:212-241 | exactly the selected cells are reversed; what is past a line's end or the tail of a wide character is left alone |
| `SelectionView.Emulator.Restore` | internal/ui/terminal.go:236-240 | running the undo list leaves every cell as it was before |

## Left out

- Rendering, focus, the right panel's mode, status texts, the form, import and file-pane cursors, and the layout of the tab strip: they depend on libraries or are simple field updates.
- The SSH, SFTP, age, terminal-emulator and HTTP libraries: nondeterministic outcomes, a vault that opens under its own passphrase only, a grid of cells, and a file replaced only under its present sha. A cell write changes that one cell; what the emulator does to a wide character's neighbours is not part of this model.
- Real time: a tick is a message that may arrive whenever it likes; a backoff is a number of seconds.
- JSON and Go quoting: files are records and maps. A servers.json of blanks only, which the program reads as empty, is not part of the model.
- TabApp.App.CloseTab: the tab leaves the list before its slot is given back, an order nothing can see.
- TabApp.App.Redial: does not model an edit of the server's entry, or of its secrets, picked up by the next dial.
- Session.Resize, whose network call is outside the mutex, so that no order is promised, and the promise that a clean exit is never reported as lost, which the keepalive can break between the exit being noted and the session being closed.
- KnownHostsSafety.AcceptedStaysExactlyWhen: what a marker means is the library's business; taken here is that @revoked refuses its key whatever hosts it names, and that only unmarked lines list one.
- SessionHistory.EndSaysWhatHappened: taken here is that a shell's exit is never the error that only the keepalive makes.
- HostKey.AddedOnlyWhenAccepted: that the host appended is found on file by the next handshake is the library's business; each handshake's verdict is open.
- Files.FileSystem.MkdirAll: directories are made all or none; one that fails half-way is not part of this model.
- Files.Follow: links are followed up to a length of chain, 40, that is the system's business; a source or a path to delete that is reached through a linked directory is taken at the place the link leads to, and the root itself is read as the link it is; the trees of source and destination are separate.
- Transfer.Read: a reader that returns neither bytes nor an end is excluded; so is the order of a directory listing, which is left open instead.
- Transfer.CopyFile: taking an unfinished copy back always works; the program ignores that failure, as it does that of removing the old warning's marker.
- Migrate.Store.ScanPlaintext: whether a path is one of ours is part of the path, not computed from directory names; file modes are left out, setting one may fail.
- MigrateSafety.RerunFinishes: this, RerunEndsTheSame, MigratedList and MigratedSecrets are about a disk that did not change between scan and migration.
- Keymap.Keymap.Apply: the report is in no particular order; the program sorts it by action.
- Bundle.MergeKnownHosts: conflicts come in the order they were met; the program sorts them. Comments and lines that do not parse are dropped when the file is rewritten, as in the program.
- Bundle.Store.ApplyBundle: servers are an opaque list; what Save does with them is in the migration's model.
- SyncModel: every upload has a sha of its own (the bundles are encrypted afresh each time), and nobody but these devices writes the files. The private-repository check is one of the ways a job can fail.
- Hint.HintFor: the width of a line is a parameter, and so is the room.
- Server list add, update and remove, and the ssh config importer: easy members.
