# Lavis: crash-safe state machines and reply layout, modelled and proved

Lavis is a Telegram userbot. This project models the parts of it that have to
survive failing calls, failing writes and a process that dies at any moment, and
the arithmetic that its replies and its update check depend on:

- **Session reset** (`SessionTree`, `ResetProtocol`, `SessionReset`).
  `auth reset --backup` moves the session file and its sidecars into a staging
  directory, publishes it by one rename, rolls back on failure and recovers what
  an earlier run left. A directory tree is a map of maps; every file operation
  may work, fail, or kill the process, and once the process is dead no
  operation has an effect, so each postcondition about the tree holds at every
  possible crash. The methods are tied to a `Trail`, a description of how far a
  reset got, and the theorems are about trails and runs of them.
- **Companion provisioning** (`DialogFolders`, `FolderPlanning`, `SetupState`,
  `RemoteWorkspace`, `Provisioning`). The staged, resumable setup of bot, forum
  group, topics, community and folder. `Workspace` is the remote side with the
  durable state file; it answers each call from a script of arbitrary replies
  and keeps a ghost record of the calls that succeeded and of the groups created.
- **Reboot receipt** (`ReceiptProtocol`, `RebootReceipt`). An exclusive-create
  store that commits by hard link, as a state machine over the interleaved file
  operations of any number of processes; the operations of one process as
  methods over it; and the bounded retry loop that completes a receipt.
- **Replies** (`Utf`, `ResponseLayout`). Both truncation loops, the
  documentation card with its fallback, four quoted sections, and the
  attribution of module output, all within 4096 UTF-16 units.
- **Bot setup** (`SetupConversation`, `SetupStore`, `CompanionSetup`). The pure
  transition function over every event sequence, and the conversation as it is
  really held, with its ordered durable writes.
- **Upstream** (`PktLine`, `Revisions`, `CommitGraph`). The pkt-line reader
  (gitprotocol-common, section "pkt-line Format"), dotted versions, and
  ahead/behind from two ordered compares.

`Basics` holds shared helpers.

## What the proofs brought out

- Two staging directories that both hold a file of the same name pass the
  preflight, and recovery then overwrites one of them. So does a preflight whose
  look at a live file fails, because every failing look counts as a free name.
  Recovery keeps every file exactly when no name is staged twice and none is
  live as well. Runs never leave more than one staging directory, nor a staged
  name that is live, and that is what makes resets safe, failing looks included.
- A save can report failure although it was written, because the directory is
  synced after the rename. Provisioning tolerates that. In bot setup the order of
  the three writes is sound exactly when no other bot was marked created before.
  The runtime drops a conversation at its first error and refuses to start one
  when a bot is on record, and under these two rules the disk stays sound over
  any number of sessions. But the second rule reads the state file, and a read
  that fails counts as "no bot on record". With a bot created, a failing look
  and a token of another bot, a process that dies after its first write leaves
  a state that says the bot is created and pairs the new identity with the old
  token; with a look that works, or a token of that very bot, the disk stays
  sound whatever fails. A caller that went on after an error would reach such a
  state as well.
- When no call and no save fails, provisioning still ends in a decode error
  exactly when it plans a folder and the recorded group has no access hash, a
  list of that folder repeats a peer, or the community is the group itself.
- A discarded or completed receipt is the one that was judged exactly when no
  other process removed a receipt in between; otherwise a receipt armed
  meanwhile can be deleted unread.
- Temporary receipt names print the nonce without padding while cleanup demands
  32 digits, so a temporary is recognised exactly when its nonce is at least
  16^31.
- A folder is planned again, unchanged, exactly when no other folder carries its
  title; a recorded id that is gone from a full list is a name conflict, not a
  capacity problem.
- Without a merge base the derived relation is `Diverged` even when one revision
  is an ancestor of the other, with one count zero. For two equal revisions it
  is `Ahead` by zero.

## Model

| member | source | states |
|---|---|---|
| SessionTree.SessionNamesAre | src/app.rs:1036-1040 | the session files are exactly the named one and its `-journal`, `-wal` and `-shm` sidecars |
| SessionTree.IsStagingIff | src/app.rs:1096-1102 | a staging name is exactly some stamp between `.session-backup-` and `.staging` |
| SessionTree.PublishedNameMeans | src/app.rs:1074-1083 | the published name of a staging name is that name without its leading dot and its suffix, so different staging names are published differently |
| SessionTree.StampNames | src/app.rs:1057-1083 | each stamp has its own staging name, and is published as `session-backup-` and the stamp |
| SessionTree.PublishedIsNeverStaging | src/app.rs:1074-1083 | every name recovery takes for a staging directory has a published name, and that name is never taken for staging again |
| SessionTree.NoOverlap | src/app.rs:1098-1100 | the prefix and the suffix that mark a staging name cannot share characters |
| SessionTree.MoveConserves | src/app.rs:938-949 | one rename of a file conserves all contents exactly when nothing of that name is at the target |
| SessionTree.RenameDirectoryConserves | src/app.rs:959-960 | publishing onto a free or empty name loses, copies and alters nothing |
| SessionTree.PartlyRecoveredConserves | src/app.rs:1138-1149 | putting any subset of a staging directory back conserves every file when none of them is live |
| SessionTree.DrainedFrame | src/app.rs:1136-1151 | emptying staging directories in any order touches no other directory, and makes live exactly what was live or staged |
| SessionTree.DrainedConserves | src/app.rs:1136-1151 | recovery of pairwise disjoint staging directories conserves every file |
| SessionTree.DrainedOverlap | src/app.rs:1136-1151 | a name staged twice is stored in fewer directories after recovery: a copy is lost |
| SessionTree.DrainedOverLive | src/app.rs:1136-1151 | a name staged and live as well is stored in fewer directories after recovery: the live file is replaced |
| SessionTree.RecoveryConservesIff | src/app.rs:1125-1151 | recovery conserves every file if and only if no name is staged twice and no staged name is live |
| ResetProtocol.SafeDrain | src/app.rs:1136-1151 | from a safe tree recovery conserves, stays safe, keeps finished backups and, when it ends, leaves nothing staged |
| ResetProtocol.StagedConserves | src/app.rs:938-949 | moving any set of live files into a fresh directory conserves every file |
| ResetProtocol.OneResetIsSafe | src/app.rs:1003-1034 | wherever one reset stops (recovery, staging, rollback, publication, crash in between) no file is lost, duplicated or altered, staged and live names stay disjoint, at most one staging directory exists, finished backups are untouched |
| ResetProtocol.RunsAreSafe | src/app.rs:1003-1034 | the same over any number of resets, each ended anywhere |
| ResetProtocol.OpenHoldersKept | src/app.rs:1003-1034 | the number of places, other than finished backups, that hold a given file never changes |
| ResetProtocol.OpenOnce | src/app.rs:1003-1034 | in a safe tree a file that is live or staged is so in exactly one place |
| ResetProtocol.SettledRunsPublishOnce | src/app.rs:1003-1034 | after any failed or killed resets, once one settles the directory each session file that was live or staged is in exactly one backup, one that was not there before |
| ResetProtocol.SettledMeans | src/app.rs:1036-1040 | a settled directory has none of the four session files live and no staging name |
| ResetProtocol.TwoStagingDirectoriesLoseAFile | src/app.rs:1125-1151 | a concrete tree with two staging directories that the whole preflight accepts and recovery damages |
| ResetProtocol.PreflightKeepsApart | src/app.rs:1125-1129 | when every look works, what the preflight accepts holds no name that is live |
| ResetProtocol.FailedLookLosesAFile | src/app.rs:1125-1129 | a concrete tree that the preflight refuses, but accepts when its look at the live file fails, and then the live file is replaced |
| SessionReset.Disk.Rename | src/app.rs:944 | a rename moves the file entirely or does nothing, and does nothing after a crash |
| SessionReset.Disk.RenameFolder | src/app.rs:960 | a directory rename happens entirely or not at all and never onto a directory with content |
| SessionReset.SurveyChildren | src/app.rs:1107-1133 | a staging directory passes only if every child is a regular session file whose live name is free or could not be looked at; a refusal is due to a child that is not, a failing listing or a crash |
| SessionReset.Survey | src/app.rs:1089-1135 | the preflight moves nothing, lists every staging directory with all its children once, and passes exactly when everything staged may be put back |
| SessionReset.RestoreChildren | src/app.rs:1138-1148 | whether it ends well, fails or dies, the tree is the one with exactly the reported files moved back and whatever the attempted ones replaced gone; all are moved on success, none after a single failure |
| SessionReset.UndoRestore | src/app.rs:1141-1146 | undoing the moves leaves exactly the reported subset live, the empty one unless the undo fails too |
| SessionReset.RecoverDirectory | src/app.rs:1138-1151 | one staging directory is emptied and removed, or the tree left behind is described by a valid trail; success means one rename a child, the removal and its sync |
| SessionReset.Recover | src/app.rs:1085-1153 | the tree left is described by a valid trail in any case; success means every staging directory was drained; a refused tree is unchanged; with free names only a fault stops it |
| SessionReset.SessionBackupTransaction.Begin | src/app.rs:926-932 | a transaction starts with nothing moved and not committed |
| SessionReset.SessionBackupTransaction.MoveLiveFile | src/app.rs:938-949 | a renamed file is recorded even when the syncs after it fail, so that rollback finds it; success means that the rename and both syncs worked |
| SessionReset.SessionBackupTransaction.Commit | src/app.rs:955-970 | committed exactly when a published name is returned; an error leaves the tree as it was; no failure is reported after the rename; both syncs come before the rename and one more after it |
| SessionReset.SessionBackupTransaction.Rollback | src/app.rs:976-1000 | what is left is fixed by the first undo rename that fails; when none fails the live files are exactly those before staging, and the directory is gone as well unless its removal fails |
| SessionReset.SessionBackupTransaction.PutBack | src/app.rs:976-984 | files are renamed back last one first, until the first rename that fails |
| SessionReset.SessionFilesForBackup | src/app.rs:1036-1049 | the files found are exactly the live session names, each once, all regular |
| SessionReset.CreateSessionBackupDirectory | src/app.rs:1051-1072 | a new empty staging directory under a name not in use; a failure leaves at most that empty directory |
| SessionReset.StageFiles | src/app.rs:1016-1024 | what was staged is a prefix of the files, all of them on success |
| SessionReset.MoveAndPublish | src/app.rs:1015-1033 | in a living process the exact tree from before staging is back after a single failure, and also when nothing failed but the published name was taken |
| SessionReset.Publish | src/app.rs:1025-1031 | a reported backup is the published form of the staging directory that held every live session file; a refusal leaves the tree alone |
| SessionReset.GiveUp | src/app.rs:1019-1033 | what is left after giving up is the earlier tree or a valid staging state, with all live files back when every undo rename works |
| SessionReset.BackUpLive | src/app.rs:1010-1034 | what follows recovery: with no failing operation it fails exactly for an irregular session file, the staging name in use or the published name in use, each with its own error and the tree as it was |
| SessionReset.ResetSessionWithBackup | src/app.rs:1003-1034 | the tree at the end, at any error or at any crash is described by a valid trail; `Some` is published; `None` means that no session file was live or staged before; an error is never reported after publication; one failure leaves no directory half moved; on a disk where everything works a reset with nothing visible in its way succeeds; the published backup is named after this reset's stamp; and the error says what it was: no lock, or, with no failing operation, the first obstacle met |
| SessionReset.ReadyAfterRecovery | src/app.rs:1003-1013 | when nothing stands in the way before, nothing stands in the way of staging after recovery |
| SessionReset.RecoveredEntries | src/app.rs:1136-1151 | everything live after recovery was live before or is a recovered regular session file |
| SessionReset.SuccessSettles | src/app.rs:1003-1034 | a successful reset leaves nothing staged and no session file live; the backup holds exactly the session files found live after recovery, and every other live entry stays |
| SessionReset.SafeIsReady | src/app.rs:1085-1135 | nothing that earlier resets left behind obstructs the next one |
| SessionReset.StaysUnobstructed | src/app.rs:1003-1034 | no reset, wherever it ends, puts an obstacle in the way of later ones |
| SessionReset.NamesAfter | src/app.rs:1003-1034 | wherever it ends, a reset adds no names to the directory but session files' and the two of its stamp |
| SessionReset.FreshStampIsFree | src/app.rs:1057-1083 | neither name of a stamp is ever taken by a reset with another stamp |
| SessionReset.NamesStayFresh | src/app.rs:1051-1083 | after any resets with other stamps, a stamp that was free at the start is still free |
| SessionReset.ResetOnce | src/app.rs:1003-1034 | a reset in which nothing fails, on a safe and unobstructed tree with free names for the backup, settles the directory |
| SessionReset.NothingMeansNothing | src/app.rs:1009-1013 | what a reset concludes from finding nothing live after recovery: no session file was live and every staging directory was empty before |
| SessionReset.ResetRepeatedly | src/app.rs:1003-1034 | any number of resets under any faults, failing looks and crashes stay safe and conserve every file; when nothing fails in the last one, and every reset has a stamp of its own that was free at the start, no session file is left live or staged and each file of the start is in exactly one new backup |
| DialogFolders.BeforeIsStrictTotalOrder | src/setup_provision.rs:51-56 | the derived order of peer keys is a strict total order over all three namespaces |
| DialogFolders.OrderOfKinds | src/setup_provision.rs:51-56 | users before channels before chats, within a kind by id |
| DialogFolders.SameKeyIff | src/setup_provision.rs:65-71 | two peers share a key exactly when kind and id are the same, whatever the access hash |
| DialogFolders.NormalizedIffUnique | src/setup_provision.rs:316-328 | the normalised set exists exactly when no typed key repeats, and is then the set of keys |
| DialogFolders.SortedIsDetermined | src/setup_provision.rs:622 | a list sorted by unique keys is determined by its elements, so an unstable sort cannot matter |
| DialogFolders.SortSorted | src/setup_provision.rs:622 | the sort orders any list with unique keys |
| DialogFolders.MergePeers | src/setup_provision.rs:606-624 | fails exactly when the existing keys repeat; otherwise sorted, the union by key, the managed entry (with its access hash) wherever both have one |
| DialogFolders.MergeMeans | src/setup_provision.rs:606-625 | a merged list holds every managed peer as it is and of the others exactly those without a managed key |
| DialogFolders.PutAll | src/setup_provision.rs:613-621 | folding in the managed peers one after another is the union with the managed side winning, and keeps keys unique |
| DialogFolders.PutPeer | src/setup_provision.rs:614-620 | one peer replaces the one of its key or is appended; all others stay |
| DialogFolders.Position | src/setup_provision.rs:614-617 | the first index with the key, or none |
| DialogFolders.MergeIsDetermined | src/setup_provision.rs:606-624 | there is only one result a merge may have |
| DialogFolders.MergeIsIdempotent | src/setup_provision.rs:606-624 | merging the same managed peers again changes nothing |
| FolderPlanning.FirstUnused | src/setup_provision.rs:301-303 | the least unused id at or above the first valid one; the search ends because every skipped id has a folder of its own |
| FolderPlanning.SearchIsBounded | src/setup_provision.rs:301-303 | it looks at no more candidates than there are folders, plus one |
| FolderPlanning.UnrecordedCreate | src/setup_provision.rs:260-313 | without a recorded id a folder is created, or reported over capacity, exactly when no folder has the title or either peer, and according to room; the id is the least free one |
| FolderPlanning.UnrecordedAdopt | src/setup_provision.rs:260-282 | without a recorded id a folder is adopted exactly when it is the only titled one with both typed peers and no shared folder has the title; it is then one of the listed folders and regular |
| FolderPlanning.OneCandidateIff | src/setup_provision.rs:263-275 | a single candidate is found exactly when one position of the list, and no other, holds one |
| FolderPlanning.CandidateMeans | src/setup_provision.rs:263-275 | a candidate is titled "Lavis" and includes the group as a channel and the bot as a user |
| FolderPlanning.RecordedIdIsKept | src/setup_provision.rs:227-258 | a recorded id is the id of every plan, a folder is made again exactly when neither it nor the title is listed and there is room, and the only refusal is a name conflict |
| FolderPlanning.RecordedIsAdoptedIff | src/setup_provision.rs:233-244 | with a recorded id a folder is taken over if and only if it is listed with that id, regular and titled, and no other id has the title; it is then that folder as listed |
| FolderPlanning.MissingIdIsConflictIff | src/setup_provision.rs:246-258 | a recorded id that is gone is a conflict exactly when the list is full or a folder has the title, and is otherwise made again, empty |
| FolderPlanning.ReplannedIff | src/setup_provision.rs:233-245 | a stored companion folder is planned as it is if and only if no other folder has its title |
| FolderPlanning.VerifiedMeans | src/setup_provision.rs:341-379 | the verifier accepts exactly a regular folder of the right name that repeats no peer and pins every managed one |
| FolderPlanning.VerificationTells | src/setup_provision.rs:341-379 | both counts and the managed keys missing from either list; a folder that is gone lacks all of them |
| FolderPlanning.NothingMissingIff | src/setup_provision.rs:330-339 | nothing is missing from the pinned list exactly when all managed keys are in it, and then nothing is missing at all |
| FolderPlanning.MergedFolderVerifies | src/setup_provision.rs:341-379 | the verifier accepts what the merge wrote, whatever the folder held before |
| FolderPlanning.SecondMergeIsIdentical | src/setup_provision.rs:547-548 | merging the same managed peers into a merged folder gives the identical folder |
| RemoteWorkspace.EvolvesTransitive | src/setup_provision.rs:381-604 | what may change from one saved state to a later one composes over saves and runs |
| RemoteWorkspace.Workspace.SaveState | src/setup_provision.rs:668-673 | a save writes the whole document or leaves the file, may report failure either way, and keeps the file backed and evolving |
| RemoteWorkspace.Workspace.CreateForumGroup | src/setup_provision.rs:182 | a created group is recorded together with what the state file named at that moment, which is no group |
| RemoteWorkspace.Workspace.GetForumGroup | src/setup_grammers.rs:213-235 | the recorded group is confirmed as asked for, missing, or refused with one of two errors |
| RemoteWorkspace.Workspace.UpdateDialogFilter | src/setup_provision.rs:215 | stores one folder under its id, or nothing, and leaves the order of the others |
| RemoteWorkspace.Workspace.UpdateDialogFiltersOrder | src/setup_provision.rs:216 | only a permutation of the stored ids is ever taken, and it is taken for sure when the call succeeds on a faithful server |
| RemoteWorkspace.WithoutKeepsOrder | src/setup_provision.rs:561-566 | leaving one id out keeps all others in their order |
| RemoteWorkspace.Workspace.ListingIsUnique | src/setup_provision.rs:214 | the list a faithful server reports has every stored folder once, under a unique id |
| Provisioning.Persist | src/setup_provision.rs:668-673 | the working copy becomes the next state, and the file follows it unless the save fails |
| Provisioning.ResolveBotStage | src/setup_provision.rs:386-398 | a complete recorded identity is reused without any call; otherwise the resolved one is recorded whole and saved before it is used; one call and one save otherwise |
| Provisioning.StartBotStage | src/setup_provision.rs:399-403 | the flag is set only by a successful start of the recorded bot and saved, nothing else changes; no call when it is set, otherwise one call and one save, each with its own error |
| Provisioning.AppConfigStage | src/setup_provision.rs:404-408 | the flag is set only after the configuration was read; no call when it is set, otherwise one call and one save, each with its own error |
| Provisioning.GroupStage | src/setup_provision.rs:410-427 | a recorded group is never replaced, and its absence or change is told apart; at most one is created, only while none is recorded, and unless its record reaches the file the stage ends in a storage error; a new group is saved with its flag at once |
| Provisioning.GroupPhotoAndFlagStage | src/setup_provision.rs:428-441 | a failing avatar stops nothing, and a missing flag is repaired |
| Provisioning.FindOrCreateTopic | src/setup_provision.rs:449-455 | a topic that this call's look-up finds is used as it is; one it finds missing is created, and General never; no other call is made |
| Provisioning.TopicsStage | src/setup_provision.rs:442-467 | each of the three ids is recorded under its own title, all of them looked up before the one save |
| Provisioning.InviteStage | src/setup_provision.rs:468-472 | the flag is set only by a successful invitation to the recorded group; no call when it is set, otherwise one call and one save, each with its own error |
| Provisioning.PromoteStage | src/setup_provision.rs:473-479 | the flag is set only by a successful promotion in the recorded group; no call when it is set, otherwise one call and one save, each with its own error |
| Provisioning.FindCommunity | src/setup_provision.rs:626-659 | a recorded community is confirmed as public and a megagroup and never replaced; one that is resolved is recorded and saved only if it is both |
| Provisioning.JoinCommunity | src/setup_provision.rs:660-665 | the flag is set only by a successful join of the recorded community; no call when it is set, otherwise one call and one save, each with its own error |
| Provisioning.OnboardCommunity | src/setup_provision.rs:626-666 | whatever fails here, including a save, changes nothing but the community's identity and flag |
| Provisioning.ChooseFolder | src/setup_provision.rs:487-520 | the chosen folder is what the planner says of the list just read, its id is saved first; a refusal is the planner's, with the matching status saved |
| Provisioning.SavePlan | src/setup_provision.rs:495-520 | capacity and name conflict each end in their own status and reason; a plan is saved as its id with the folder flag cleared, and nothing else changes |
| Provisioning.PlanIsOwned | src/setup_provision.rs:220-314 | every plan is for a regular folder of the companion's name under the planned id, and only two errors occur |
| Provisioning.MergeFolder | src/setup_provision.rs:547-548 | both lists are merged, and it fails exactly when one of them repeats a key |
| Provisioning.UpdateStage | src/setup_provision.rs:547-560 | a faithful server then holds the merged folder, and every other folder as before; a repeated key, and nothing else, is a decode error, before any call |
| Provisioning.OrderStage | src/setup_provision.rs:561-570 | the order sent is a duplicate-free permutation of all folder ids with the managed one last |
| Provisioning.NewOrderPermutes | src/setup_provision.rs:561-566 | moving one id to the end neither drops nor repeats an id |
| Provisioning.VerifyStage | src/setup_provision.rs:577-589 | after a faithful update the verification never fails |
| Provisioning.WriteFolder | src/setup_provision.rs:547-589 | on success the list differs in the managed folder only, merged, verified and last; other folders never change |
| Provisioning.WriteAndConclude | src/setup_provision.rs:547-598 | success is saved with the status that tells whether the community is pending |
| Provisioning.WriteChosen | src/setup_provision.rs:521-598 | the managed peers are the group and bot on record and, only when joined, the community; peers that cannot be merged are refused before any call, and when nothing fails all others are written |
| Provisioning.ManagedRepeatIff | src/setup_provision.rs:527-546 | the managed peers repeat a key exactly when the joined community is the group itself |
| Provisioning.ChosenDecodes | src/setup_provision.rs:521-548 | the peers of a chosen folder can be merged if and only if the group has its access hash, neither list of the folder repeats a key, and the community is not the group |
| Provisioning.UnwritableIff | src/setup_provision.rs:487-548 | a planned folder is unwritable exactly when its peers cannot be merged; a refused plan never is |
| Provisioning.FolderStage | src/setup_provision.rs:481-604 | either the planner refused, nothing was touched and reason and status say why, or the planner's folder was written, verified and recorded with exactly the managed peers and the result carries the community's error; errors are the folder's own, never `DialogFilterVerify` over a faithful server, and when nothing fails only a planned folder whose peers cannot be merged is one, with the folders untouched |
| Provisioning.CommunityAndFolder | src/setup_provision.rs:480-604 | no error of the community stage, a failed save included, ever becomes the error of the run; the saved status fits the reported result |
| Provisioning.Provision | src/setup_provision.rs:381-604 | for any replies and failing saves: the file stays backed by calls that succeeded, identities once complete and flags once set stay, at most one group is created, other folders are unchanged; the result fits flags and status; the folder is what the planner says and includes and pins group, bot and joined community with their own access hashes; a missing community is one of the community's errors; no `DialogFilterVerify` over a faithful server; and when nothing fails the community is joined and the run succeeds exactly unless a folder is planned whose peers cannot be merged; every error names the stage: what comes before that stage is on record and the stage is not |
| Provisioning.ProvisionRepeatedly | src/setup_provision.rs:381-604 | over any number of runs, each reloading the last saved state: every saved flag and identity is backed, the group, bot and community identities never change, flags stay, and the groups created number at most one more than the runs that ended in a storage error |
| Provisioning.OrderIsStable | src/setup_provision.rs:561-566 | ordering again gives the same order |
| Provisioning.MergedHoldsWorkspace | src/setup_provision.rs:527-548 | a merged folder includes and pins the group, the bot and, when joined, the community, each as a whole peer with the access hash on record |
| Provisioning.ManagedAreThese | src/setup_provision.rs:524-542 | the managed peers are exactly the group and the bot on record and, when it is joined and went through, the community, each with its own access hash |
| Provisioning.MergedKeepsOthers | src/setup_provision.rs:547-548 | besides these a merged folder holds exactly the peers it had whose key is none of theirs |
| Provisioning.RemergingIsFixed | src/setup_provision.rs:547-548 | merging peers that were merged before gives the identical folder |
| Provisioning.MergingMoreIsOneMerge | src/setup_provision.rs:547-548 | merging some peers and then more of them is merging them all at once |
| Provisioning.PlannedIsStored | src/setup_provision.rs:227-258 | with the id of a stored folder on record that folder is planned, or the plan is refused |
| Provisioning.RunOnce | src/setup_provision.rs:381-604 | what one run over a faithful server makes of state, folders and order; when nothing fails it succeeds if and only if no folder is planned whose peers cannot be merged, and otherwise leaves the folders as they are |
| Provisioning.WrittenDecodes | src/setup_provision.rs:521-548 | what a run wrote can be merged with again, whatever the limits are then |
| Provisioning.DecodesBeforehand | src/setup_provision.rs:521-548 | with the hash of a recorded group, and no repeated peer in a folder of the companion's name, only a community that is the group itself can stop a run |
| Provisioning.SecondSucceedsIff | src/setup_provision.rs:381-604 | when nothing fails: a run that wrote its folder is followed by one that succeeds; any other by one that succeeds if and only if no folder is planned whose peers cannot be merged |
| Provisioning.SecondRunIsIdle | src/setup_provision.rs:381-604 | a second run, while no other folder has the title, is never refused, plans the existing folder under the same id, and unless it adds the community writes back the identical folder in the identical order |
| Provisioning.TwoRunsAreOne | src/setup_provision.rs:381-604 | folders and order after two runs are what one run makes of them, with the community if either had it |
| Provisioning.ProvisionTwice | src/setup_provision.rs:381-604 | two runs in a row have the effect of one, as planned from the folders at the start; the second is not refused when at most one folder had the title; and when nothing fails each succeeds if and only if no folder is planned whose peers cannot be merged, the second always after a written folder |
| ReceiptProtocol.HexLength | src/reboot_receipt.rs:672-682 | an unpadded hexadecimal number has at most k digits exactly when it is below 16^k |
| ReceiptProtocol.TempNameMeans | src/reboot_receipt.rs:672-682 | a temporary is named by its nonce in lower-case hexadecimal without leading zeros, between prefix and suffix |
| ReceiptProtocol.TemporaryIff | src/reboot_receipt.rs:659-670 | cleanup takes for a temporary exactly 32 hexadecimal digits of any case between prefix and suffix |
| ReceiptProtocol.TempNamesDiffer | src/reboot_receipt.rs:672-682 | temporary names are distinct for distinct nonces and never the receipt's name, which cleanup never takes for one |
| ReceiptProtocol.RecognisedIff | src/reboot_receipt.rs:659-682 | cleanup recognises a temporary if and only if its nonce is at least 16^31 |
| ReceiptProtocol.OthersKeepArm | src/reboot_receipt.rs:478-551 | a step of another process changes nothing of an arm except that it may remove its temporary |
| ReceiptProtocol.StepKeepsInv | src/reboot_receipt.rs:434-551 | every single file operation of any process keeps the store's invariant |
| ReceiptProtocol.RunKeepsInv | src/reboot_receipt.rs:434-551 | so does every interleaving, with processes dying anywhere |
| ReceiptProtocol.ReceiptIsWhole | src/reboot_receipt.rs:478-551 | in every reachable store the receipt is absent or holds all bytes of exactly one armed receipt, and installations less deletions is 1 or 0 accordingly |
| ReceiptProtocol.OutcomesAreTrue | src/reboot_receipt.rs:517-534 | `Armed` and `DurabilityUnknown` mean installed, `Conflict` and errors mean never installed, and after `Armed` no temporary is left |
| ReceiptProtocol.ReadsAreWhole | src/reboot_receipt.rs:434-451 | whatever a load reads is all the bytes of one installed receipt, even when the file was deleted or replaced meanwhile |
| ReceiptProtocol.OpenedIsRead | src/reboot_receipt.rs:442-452 | an opened receipt is read with every byte it had, whatever happens to its name before the read |
| ReceiptProtocol.LinkDecides | src/reboot_receipt.rs:484-516 | the link fails when the temporary was swept, meets a conflict when there is a receipt, and installs otherwise |
| ReceiptProtocol.DeadStaysDead | src/reboot_receipt.rs:478-530 | a process that died before it reported changes nothing any more |
| ReceiptProtocol.OnlyRemoveChangesReceipt | src/reboot_receipt.rs:517-551 | an existing receipt is changed by a removal only; a link that meets it is a conflict and leaves it untouched |
| ReceiptProtocol.JudgedStaysIff | src/reboot_receipt.rs:434-476 | after any steps of any processes the receipt that was read is still the receipt if and only if none of them was a removal, so that is exactly when a discard or completion deletes what it judged |
| ReceiptProtocol.RearmedInBetween | src/reboot_receipt.rs:537-551 | in every store with a receipt, a removal and another arm in between put an unread receipt in its place |
| ReceiptProtocol.DeletedIsGone | src/reboot_receipt.rs:542-551 | a deleted receipt never becomes the receipt again |
| ReceiptProtocol.FinishedIsFinal | src/reboot_receipt.rs:478-535 | a reported outcome never changes |
| RebootReceipt.DiscardedWhen | src/reboot_receipt.rs:444-475 | each reason for discarding a receipt, exactly, in the order of the checks |
| RebootReceipt.PendingWindow | src/reboot_receipt.rs:73-99 | a receipt is pending exactly when it is small, well formed and the clock is between one minute before and ten minutes after its start; the elapsed time never goes below zero |
| RebootReceipt.ReceiptDirectory.Yield | src/reboot_receipt.rs:478-551 | whatever other processes do between two operations, this process's arm is as it left it and installations stay |
| RebootReceipt.ReceiptDirectory.CleanupStaleTemporaries | src/reboot_receipt.rs:639-657 | looks at no more than sixteen directory entries and fails only when the listing does; alone, nothing but recognised temporaries is gone; each recognised one among them counts once, as removed or failed, and is gone when all operations work |
| RebootReceipt.ReceiptDirectory.ArmBlocking | src/reboot_receipt.rs:478-535 | the outcome returned is what happened, under any interleaving; alone, an existing receipt stays and a missing one becomes these bytes exactly on `Armed` or `DurabilityUnknown`; alone and without faults it arms or conflicts |
| RebootReceipt.ReceiptDirectory.WriteTemporary | src/reboot_receipt.rs:489-515 | a temporary that goes on to the link is written in full and synced |
| RebootReceipt.ReceiptDirectory.InstallTemporary | src/reboot_receipt.rs:517-531 | installed exactly on `Armed` and `DurabilityUnknown`; once linked, a failing tidy-up or sync gives unknown durability, not failure |
| RebootReceipt.ReceiptDirectory.TidyAndSync | src/reboot_receipt.rs:518-529 | once linked, armed if the temporary was tidied away and the sync worked, of unknown durability otherwise |
| RebootReceipt.ReceiptDirectory.LinkTemporary | src/reboot_receipt.rs:517-531 | linked, conflict or failed; alone, linked exactly when there was no receipt |
| RebootReceipt.ReceiptDirectory.RemoveBlocking | src/reboot_receipt.rs:542-551 | a reported deletion is one and "none" was true at some moment, whatever others do; unless another process removes it the receipt there is is deleted; an error has a failed operation behind it; which of removal and sync failed is told apart |
| RebootReceipt.ReceiptDirectory.LoadAt | src/reboot_receipt.rs:434-476 | a pending result judges bytes that were installed whole; unless another process removes it the receipt there is is judged, and deleted when discarded; an error has a failed operation behind it |
| RebootReceipt.EditsNeededMeans | src/reboot_receipt.rs:256-284 | the number of edits needed is the position of the first outcome that is not temporary, or the limit |
| RebootReceipt.EditOnce | src/reboot_receipt.rs:257-263 | one edit with the time elapsed at this attempt, or none when clock or receipt is refused |
| RebootReceipt.RetriesEnd | src/reboot_receipt.rs:256-284 | a loop that ends on an outcome made exactly the edits needed, one sleep fewer, and reports the last outcome |
| RebootReceipt.RetriesMean | src/reboot_receipt.rs:256-284 | exhaustion means that the whole limit of edits was made, all temporary; otherwise the first other outcome is the result, with one sleep fewer than edits |
| RebootReceipt.RetryEdits | src/reboot_receipt.rs:256-285 | at most the limit of edits, all but the last temporary, each telling its own elapsed time; the first other outcome decides; an error is the clock's, the receipt's or the store's, at that very attempt |
| RebootReceipt.Consume | src/reboot_receipt.rs:264-275 | a final outcome deletes the receipt there is, unless another process removed it |
| RebootReceipt.CompletePendingReceipt | src/reboot_receipt.rs:238-285 | max(1, attempts) is the limit: all edits temporary give exhaustion after exactly that many, the first other outcome below it is the result; no edit without a pending receipt; unless another process removes it, a decision deletes it and only all-temporary leaves it armed as it was; every error has its cause, and when clock and store work there is none |
| Utf.LengthsOfCharacters | src/response.rs:330-348 | how many UTF-16 units and UTF-8 bytes a character takes |
| Utf.PrefixMeasures | src/response.rs:330-348 | longer prefixes measure strictly more, in units and in bytes |
| Utf.SliceToPrefix | src/response.rs:347 | slicing at the byte offset of a prefix gives that prefix |
| Utf.LongestPrefixIsUnique | src/response.rs:336-346 | a prefix that fits, while one more character would not, is the longest that fits |
| ResponseLayout.NoticesAre | src/i18n.rs:130-135 | both notices in both languages, word for word |
| ResponseLayout.TruncateLines | src/response.rs:305-328 | the loop over byte offsets gives the longest fitting prefix cut back to its last newline, with the suffix |
| ResponseLayout.TruncateUtf16WithLocale | src/response.rs:305-328 | the same with the suffix of the locale |
| ResponseLayout.TruncateToUtf16 | src/response.rs:330-348 | the loop gives the longest fitting prefix with the suffix, or nothing when the suffix leaves no room |
| ResponseLayout.TruncationMeans | src/response.rs:330-348 | all of the text when it fits, else its longest prefix that leaves room for the suffix, or nothing |
| ResponseLayout.LineTruncationMeans | src/response.rs:305-328 | what is shown before the suffix is whole lines of the longest fitting prefix, if there is a line end in it |
| ResponseLayout.TruncatedFits | src/response.rs:305-328 | a truncated text fits 4096 units, and truncating it again changes nothing |
| ResponseLayout.TruncatedToFits | src/response.rs:330-348 | the bounded version stays within any limit |
| ResponseLayout.FallbackLayout | src/response.rs:225-278 | the fallback fits, has no entities, and ends in the whole provenance whenever its labelled line fits |
| ResponseLayout.FallbackSays | src/response.rs:225-278 | the fallback word for word in both languages: heading and primary text after their labels, cut to half of the room each, and the labelled provenance; or that line alone |
| ResponseLayout.FallbackKeepsShortTexts | src/response.rs:240-277 | heading and primary text that fit half of the remaining room each are kept whole, each after its own label |
| ResponseLayout.PlanCardIff | src/response.rs:142-199 | a card is quoted if and only if nothing is empty, heading and provenance leave room, and the primary text fits it or there is room for more than the notice; the primary text it shows, and the one a fallback goes on with |
| ResponseLayout.QuotedCardLayout | src/response.rs:172-222 | the card is heading, primary text and provenance with an empty line between, and fits; its two quotations, the first collapsed, are disjoint, in order, and cover exactly the last two |
| ResponseLayout.DocumentationCardLayout | src/response.rs:142-278 | for all inputs the card is within the limit and well formed, quoted or plain as planned; the provenance is whole and last whenever quoted or its labelled line fits |
| ResponseLayout.SectionsMean | src/response.rs:21-30 | the first section ends at the first empty line, and the rest is split in the same way |
| ResponseLayout.JoinSections | src/response.rs:30 | splitting at empty lines loses nothing |
| ResponseLayout.SectionsAreUnbroken | src/response.rs:30 | no section has an empty line inside |
| ResponseLayout.QuotesLayout | src/response.rs:28-45 | the quotations are in order and disjoint, one for each section with content, covering exactly its units |
| ResponseLayout.NonEmptyMeans | src/response.rs:30-44 | which sections are quoted: those that are not empty, in order |
| ResponseLayout.QuotableMeans | src/response.rs:19-30 | all sections but the first, if the first is not empty |
| ResponseLayout.SectionQuotesLayout | src/response.rs:19-51 | there are quotations exactly for a heading followed by four sections with content |
| ResponseLayout.FourBlockquotesLayout | src/response.rs:19-51 | for all inputs the reply fits and is well formed, and its four quotations cover exactly the four sections |
| ResponseLayout.FourBlockquotesWithLocale | src/response.rs:19-51 | the method builds exactly that reply |
| ResponseLayout.FindQuotes | src/response.rs:21-50 | the search for heading and sections finds exactly those quotations |
| ResponseLayout.QuoteSections | src/response.rs:28-45 | the loop's byte offsets always fall on the section starts and give the quotations' offsets in units |
| ResponseLayout.ExternalResultLayout | src/response.rs:387-417 | the reply fits, and ends in the whole attribution whenever that fits, after the longest output there is room for |
| SetupConversation.LowerCharMeans | src/setup.rs:41-58 | each capital of the alphabet becomes its small letter, any other character stays |
| SetupConversation.IsNameCharMeans | src/setup.rs:45-51 | a name's characters are the letters and digits of ASCII and the underscore |
| SetupConversation.TrimMeans | src/setup.rs:120-121 | trimming takes off all white space around a text and nothing else |
| SetupConversation.IsWhitespaceMeans | src/setup.rs:120-121 | the 25 white space characters of Unicode |
| SetupConversation.IsControlMeans | src/setup.rs:351-354 | the control characters of Unicode |
| SetupConversation.ValidateUsernameIff | src/setup.rs:41-58 | accepted exactly when it ends in bot in any case, has 5 to 32 bytes and only letters, digits and underscores; both errors are told apart |
| SetupConversation.GeneratedIsValid | src/setup.rs:94-110 | a generated username is valid for every entropy |
| SetupConversation.GeneratedSpells | src/setup.rs:94-110 | a generated name spells its eight random bytes in lower-case hexadecimal between `lavis_` and `_bot` |
| SetupConversation.ReadsIff | src/setup.rs:118-126 | an input reads as a word exactly when it is that word in any case with white space around it |
| SetupConversation.ConfirmationMeans | src/setup.rs:409-448 | while a username waits for confirmation "confirm" sends it, "cancel" ends the setup with nothing sent and anything else leaves the state; in other states a confirmation does nothing |
| SetupConversation.UsernameMeans | src/setup.rs:375-408 | "auto" and "-" take a generated name, any other input is taken exactly when it is a valid name, and each refusal has its notice |
| SetupConversation.DisplayNameMeans | src/setup.rs:349-374 | a display name is taken, trimmed, exactly when it has 1 to 64 bytes and no control character |
| SetupConversation.BotFatherMeans | src/setup.rs:449-491 | what every reply does while the setup waits for BotFather, and that it does nothing in other states |
| SetupConversation.CommandsMean | src/setup.rs:313-348 | cancel and new bot in every state, and a timeout in exactly the four waiting ones |
| SetupConversation.HeldUsernameIsValid | src/setup.rs:313-492 | after any events, a state that holds a username holds a valid one |
| SetupConversation.StepSends | src/setup.rs:313-492 | one step sends only the new-bot command, an acceptable display name, or a confirmed username |
| SetupConversation.StepOrigins | src/setup.rs:313-492 | a step into a state that holds a username either keeps the name, takes the one just prompted, the one just confirmed, or the one a success reply completes |
| SetupConversation.EveryStateIsExplained | src/setup.rs:313-492 | after any events, a name waiting for BotFather was prompted and confirmed since the last new-bot command, and `Completed` carries it with the token of a success reply |
| SetupConversation.SendsAreIntended | src/setup.rs:313-492 | after any events, a username goes to BotFather only by a confirmation of that very username since the last new-bot command |
| SetupStore.Store.WriteChecked | src/setup_store.rs:196-236 | at any failure or crash the document is the old or the new one whole, the other document is untouched; success means it is the new one; a failure that can tidy up leaves no temporary |
| SetupStore.Store.SaveState | src/setup_store.rs:153-163 | the same for the state document |
| SetupStore.Store.SaveToken | src/setup_store.rs:171-179 | the same for the token |
| SetupStore.LoadOfMeans | src/setup_store.rs:143-151 | a state is loaded exactly from a whole document and not found exactly when the file is absent; anything else is unreadable |
| SetupStore.Store.LoadState | src/setup_store.rs:143-151 | a loaded state is the one on disk, and only an absent file is reported as not found |
| CompanionSetup.WritePathSoundIff | src/setup_telegram.rs:373-391 | every durable state the three writes pass through has the recorded identity and its token behind "bot created" if and only if no other bot was marked created before |
| CompanionSetup.FirstWriteSoundIff | src/setup_telegram.rs:379-389 | with a created bot on record the state after the first write is sound exactly when the new bot is that bot |
| CompanionSetup.WritesMean | src/setup_telegram.rs:373-391 | the three writes field by field, and that nothing else changes |
| CompanionSetup.FirstSetupIs | src/setup_store.rs:110-120 | the document the first setup leaves, field by field |
| CompanionSetup.RepliesMean | src/setup_telegram.rs:274-337 | for every step and reply: what is sent, the next step, and what is reported |
| CompanionSetup.ScriptIs | src/setup_telegram.rs:265-304 | the four messages in order, and how many are behind each step |
| CompanionSetup.TokenAcceptableMeans | src/setup_store.rs:25-31 | a token has 1 to 512 bytes and no line break or NUL |
| CompanionSetup.FailedLookSoundIff | src/runtime/setup.rs:478-489 | on every disk with a created bot, behind a failing look and with a process that dies after the first write, attempts that lead to a token leave a sound disk if and only if the token is that bot's |
| CompanionSetup.FailedGuardMixesBots | src/runtime/setup.rs:478-489 | from a first start, two sessions with ordinary replies: when the second one's look for an existing bot fails and its process dies after the first write, the disk pairs the new identity with the old token |
| CompanionSetup.Conversation.Start | src/setup_telegram.rs:265-272 | cancel, then new bot, whatever becomes of the first |
| CompanionSetup.Conversation.OnBotFatherReply | src/setup_telegram.rs:274-337 | at every step, what is sent, the step after and what is reported are fixed by step and reply; messages stay a prefix of the script; the disk changes only at a confirmed success and ends on the write path |
| CompanionSetup.Conversation.OnUsernameReply | src/setup_telegram.rs:310-334 | only a success reply whose token is the requested bot's reaches the disk, and readiness means all three writes are durable |
| CompanionSetup.Conversation.ValidateAndPersist | src/setup_telegram.rs:352-396 | at any failure or crash the disk holds one of the four states of the write path, in order; any error but a storage error leaves it untouched; when all operations but the last sync work all three writes are there, and readiness is reported exactly when that works too |
| CompanionSetup.Conversation.WriteBot | src/setup_telegram.rs:379-391 | the three writes in order, each whole or absent, with the exact state reached when operations work or the process dies |
| CompanionSetup.Converse | src/setup_telegram.rs:265-396 | over any replies and faults the messages attempted are a prefix of cancel, new bot, display name, username; and "bot created" is always backed by identity and token as long as the replies that pass the check of the username are for one bot |
| CompanionSetup.ConverseToTheEnd | src/runtime/setup.rs:310-455 | a conversation ends at readiness, an error, or any report but that it goes on; when no bot was created, or the confirmed replies are for that bot, every end and every crash leaves a sound disk; when the messages get through the replies decide how it ends, and a success reply is persisted as far as the store works |
| CompanionSetup.TryNames | src/runtime/setup.rs:203-227 | attempts behind one look: only the last one uses the store |
| CompanionSetup.HoldSession | src/runtime/setup.rs:79-94 | a session keeps the disk sound unless its look for an existing bot fails while a bot is created and the replies are for another; when the look lets it pass, messages get through and the replies lead to an acceptable token, a working store ends with the bot created and readiness reported |
| CompanionSetup.SetUpRepeatedly | src/runtime/setup.rs:79-94 | any number of sessions, each under its own faults and crashes: each leaves the disk as it was or on the write path of a confirmed reply, and nothing changes when it is refused; the disk stays sound as long as no look fails while a bot is created and the replies are for another |
| PktLine.ParseEncodedLength | src/upstream.rs:209-212 | reading an encoded length gives it back |
| PktLine.HexValueMeans | src/upstream.rs:209-212 | the hexadecimal digits of both cases and their values |
| PktLine.LengthMeans | src/upstream.rs:209-212 | four hexadecimal digits, or three after a plus sign, give their value, and nothing else gives a length |
| PktLine.MainRefMeans | src/upstream.rs:227 | the name looked for is ` refs/heads/main` |
| PktLine.RefOfIff | src/upstream.rs:221-234 | a payload gives a revision exactly when it is forty hex digits before " refs/heads/main", with or without a newline; the error exactly when what stands there is something else without a space; nothing otherwise |
| PktLine.FirstMainMeans | src/upstream.rs:205-236 | the first packet that names `main` decides: its revision if that is forty hex digits, the error if not |
| PktLine.NoMainMeans | src/upstream.rs:205-236 | without such a packet there is no main ref |
| PktLine.TurnAt | src/upstream.rs:205-220 | on arbitrary bytes the offset grows by at least four and stays in the body |
| PktLine.TurnOfEncoded | src/upstream.rs:205-220 | at the start of an encoded packet one turn takes exactly that packet |
| PktLine.ReadEncoded | src/upstream.rs:203-237 | of any encoded packets the reader gives what the first packet that names `main` says, or `NoMainRef` |
| PktLine.ReadFrames | src/upstream.rs:203-237 | of packets with lengths in any digits the first that names `main` decides; without one the end of the body gives `NoMainRef`, and anything that is no packet gives `InvalidResponse` |
| PktLine.EveryBodySplits | src/upstream.rs:203-237 | every body is packets followed by nothing or by something that is no packet |
| PktLine.ParseMainRevFromInfoRefs | src/upstream.rs:203-237 | the loop is that reader on every body, with all slices in bounds |
| PktLine.RevisionsAreSha1 | src/upstream.rs:231-235 | on arbitrary bytes a returned revision is forty hex digits |
| Revisions.DigitMeans | src/upstream.rs:94-107 | the ten decimal digits and their values |
| Revisions.PlacesMean | src/upstream.rs:104-107 | digits are worth ten times more for each place to their right |
| Revisions.DecimalIsRead | src/upstream.rs:104-107 | reading what a number is written as gives the number, also after a leading zero |
| Revisions.ParseDottedVersionInPlace | src/upstream.rs:94-115 | popping zeros in place is dropping all trailing zeros, leaving one component at least |
| Revisions.ParsedIsCanonical | src/upstream.rs:94-115 | a parsed version keeps every component but trailing zeros, and at least one |
| Revisions.SplitDotsMeans | src/upstream.rs:95 | the parts between the dots have no dot inside and make up the text |
| Revisions.ParsesIff | src/upstream.rs:94-115 | a text parses exactly when every part between its dots is a decimal number of 64 bits, and the components are their values |
| Revisions.CanonicalGreaterIffPadded | src/upstream.rs:78-92 | comparing the parsed lists is comparing them component by component, padded with zeros |
| Revisions.NewerIff | src/upstream.rs:78-115 | newer is reported exactly when both parse and upstream is greater in the padded order; unavailable exactly when one does not parse |
| Revisions.PaddedOrderIsTotal | src/upstream.rs:78-92 | exactly one of greater, less, equal up to trailing zeros |
| Revisions.PaddedOrderIsTransitive | src/upstream.rs:78-92 | the order is transitive |
| CommitGraph.BaseIsEndIff | src/upstream.rs:511-524 | a best common ancestor is one of two commits exactly when that one is an ancestor of the other |
| CommitGraph.DescendantReachesMore | src/upstream.rs:456-500 | the difference that is not reported is empty, and the reported one is not |
| CommitGraph.RelationIsReachability | src/upstream.rs:511-531 | on any acyclic graph with two revisions and a merge base: ahead, behind or diverged exactly as ancestry says, with counts equal to the sizes of the two reachability differences |
| CommitGraph.MissingMergeBase | src/upstream.rs:526-530 | without a merge base the answer is diverged, with a zero count exactly when one revision is an ancestor of the other |
| CommitGraph.EqualRevisionsAreAheadByNone | src/upstream.rs:511-520 | equal revisions are reported as ahead by zero |

## Left out

- SessionReset.Disk.Rename: a completed rename counts as durable; a sync is a step that may fail, reordering of unsynced operations is not modelled.
- RemoteWorkspace.Workspace.CreateForumGroup: a group that the server created while the reply was lost or unreadable is not counted as a creation; the program does not know of it either.
- RemoteWorkspace.Workspace.GetForumGroup: the group is answered as it was asked for, as the production adapter does; another transport could answer a different one.
- FolderPlanning.FirstUnused: folder ids are unbounded; the overflow of 32-bit ids would take about two thousand million folders.
- CompanionSetup.Conversation.OnBotFatherReply: takes replies as classified; the text matching that tells a prompt, a success or a token is not part of this model, nor are timeouts, which count as failures.
- ResponseLayout.ExternalResultLayout: takes the output as sanitised and the attribution as rendered; sanitising is not part of this model.
- PktLine.ReadEncoded: is about encoded bodies; on other bodies the length parser lets a leading plus sign through, as the program's does.
- RebootReceipt.ReceiptDirectory.LoadAt: what exactly is deleted while other processes remove receipts is said by `ReceiptProtocol.JudgedStaysIff` alone; decoding of the bytes is an arbitrary total function; permission bits, file types and parent checks are a step that may fail.
- Symbolic links and other irregular files are one kind, `Irregular`, wherever a regular file is demanded.
- JSON encoding and size limits of documents: a document is whole or torn, and a refused size is a failing step.
- The state file's owner and reaction fields, which neither provisioning nor bot setup changes.
- `collapsed_with_locale` and preformatted replies: simpler cases of the card.
- HTTP, JSON and error parsing around the compare endpoint: an answer is taken to count what the two revisions reach.
- Settings, alias and credential stores, which repeat the write-and-rename pattern; the self-edit ledger, log forwarding, template interpolation, command tables and catalogs, which would add easy members only.
- The external module runtime and update distribution.
