# Access token verification

A Dafny model of the hard core of the OpenHarmony access token repository, with proofs over whole runs, all
interleavings and all inputs. `dafny verify dfyconfig.toml` checks the whole project.

What is modelled, in the system's own terms:

- **Native token registry.** `GetAccessTokenId` hands out one packed 32-bit token ID per process name, keeping an
  in-memory list and a JSON array on disk in step, with a commit-by-rename writer, a backup copy and recovery.
  `AtomicFile` is the writer as a list of file-system steps, `TokenId` the bit layout, `TokenJson` one record,
  `TokenRegistry` the transitions and the disks a call passes through, `NativeTokenLib` the program that performs them.
  `DiskCommit` and `RegistryCrash` connect a write and a whole call stopped at any step with the transitions.
  `RegistryAnswers` says in plain values what a call stores, refuses, draws and reads; `RegistryIdentity`,
  `RegistryDisk` and `RegistryRestart` hold the other theorems.
- **Code-signature risk model.** `RiskModel` is the state and its transitions, `RiskLib` the program,
  `RiskProperties`, `RiskHistory` and `RiskReach` the theorems.
- **Permission-use merge cache.** `MergeCache` is the 200 ms window cache (local and remote), `RecordKey` its text key,
  `PrivacyKit` the two entry points.
- **Verification, permission table, callbacks.** `VerifyToken` compares the batch check with the single one.
  `PermissionTable` covers code generation, the name index and the kernel bitmap. `CallbackRegistry` compares the client
  with the service; `CallbackConcurrency` covers every thread interleaving.
- **Nested parcels.** `Parcels`, `UsedRecordParcel` and `HapPolicyParcel` are the codecs; `ParcelStream`,
  `UsedRecordStream` and `HapPolicyStream` are the loops over a mutable parcel.

Conventions. Whatever the operating system, the service, the kernel, the clock or the random device answers is an input
(`ReadFaults`, `CallFaults`, `World`, ...), so every theorem holds for all answers it does not explicitly restrict. Each
imperative operation is proved equal to a pure transition, and the theorems are about runs of those transitions. JSON
printing and parsing are taken as inverse on values, keeping the saturation of integer reads.

Properties that turned out not to hold of the code in general are stated with their condition:

- Start-up agrees with the disk exactly unless a removed or momentarily unreadable main file could not be restored, or
  a link that cannot be removed stays in its place (`InitAgrees`, `RestoreLossExample`).
- The disk stays behind memory exactly while no event brings an uncovered document forward (`DiskNeverAhead`, with the
  conditions of the single operations in `InitNotAhead`, `SaveNotAhead`, `UpdateNotAhead`; `UnreadMainAhead` and
  `LinkHidesBackup` are inputs that do).
- With main-file reads undisturbed, an ID survives a restart exactly when it is on disk (`SurvivesRestartIff`,
  `UnsavedIdForgotten`). A returned ID is on disk exactly unless it belongs to an unchanged node whose earlier write
  failed (`ReturnedIdStored`, `RetryReturnsUnsavedId`).
- The risky count is exact exactly while it never exceeds its cap (`CountExactIffUnderCap`, `CountFallsBehind`), and
  listeners miss exactly the changes made at the cap (`SyncedIffNoneMissed`, `MissedIsReached`).
- Cutting an expired chain keeps exactly the newer stamps only for an ordered chain (`CutIsFilter`).
- Record keys collide exactly when one identity absorbs another (`IdentitiesSeparate`), and then, and only then, a
  record can be dropped on account of another subject's (`DropsCoveredIff`, `AbsorbedDropExample`).
- With an accepting service and a clock that does not go back, three forwards of one key span a merge window exactly
  while no record meets the guard that takes a wrapped sum for a window without a success (`SpansIffNoneReopens`,
  `WrapBreaksSpan`); the cache loses track of a window exactly when a
  sum wraps around to zero (`KnowsIffNeverForgets`).
- The single checks disagree exactly for an undefined name of another native token, asked by a normal application
  before the service was ever started (`SinglesDiffer`); a successful batch check never disagrees with its single check
  (`VerifyBatchDeployed`).
- Client and service agree exactly while no reply is lost and every re-registration reaches exactly the callbacks from
  before the death (`RunSync`, `AgreesIff`); a callback registered in between is held twice (`RegisteredTwice`).
- With several threads they agree exactly while no move is harmful (`ScheduleAgreesIff`), which callers that wait for a
  registration to return ensure (`PatientAgrees`); `HookRace` and `RollBackRace` are schedules that do harm.
- A policy loses the token of each permission status in transit (`PolicyRoundTrip`, `OnlyTokensLost`).

## Model

| member | source | states |
|---|---|---|
| AtomicFile.CrashSafe | interfaces/innerkits/accesstoken_file_util/src/accesstoken_file_util.cpp:104-210 | Stopping a write after any number of steps, under any pattern of failing system calls, leaves the main file all old or all new, the backup old or new, new only while the main file is new, and every path outside the four of the write untouched |
| AtomicFile.WritePrefix | interfaces/innerkits/accesstoken_file_util/src/accesstoken_file_util.cpp:104-210 | What any path other than the two scratch files shows after each step: the main file turns new exactly at its rename, the backup exactly at the last step of a fully committed write |
| AtomicFile.CommitPrefix | interfaces/innerkits/accesstoken_file_util/src/accesstoken_file_util.cpp:104-147 | A single commit stopped after k steps: only the scratch file changes before the rename |
| AtomicFile.ReturnValue | interfaces/innerkits/accesstoken_file_util/src/accesstoken_file_util.cpp:173-210 | After a whole write the main file shows the new data if its own commit went through and what it showed before otherwise, whatever happened to the backup |
| AtomicFile.CommitsIff | interfaces/innerkits/accesstoken_file_util/src/accesstoken_file_util.cpp:76-147 | A file is committed exactly when its scratch name fits 4096 and opening, the whole write, the flush and the rename succeed |
| AtomicFile.StoreOutcome | interfaces/innerkits/accesstoken_file_util/src/accesstoken_file_util.cpp:76-102 | What storing one file leaves, by the answers of the system calls |
| AtomicFile.ScratchOutcome | interfaces/innerkits/accesstoken_file_util/src/accesstoken_file_util.cpp:104-147 | What a commit leaves of the scratch file: nothing after a rename, after a failed write or flush with a working clean-up, or after a removal with a failed open; the data after a failed rename |
| AtomicFile.MainOutcome | interfaces/innerkits/accesstoken_file_util/src/accesstoken_file_util.cpp:173-210 | The same of the main file and its scratch file over a whole write |
| AtomicFile.BackupOutcome | interfaces/innerkits/accesstoken_file_util/src/accesstoken_file_util.cpp:173-210 | The backup gets the data exactly when all calls for the main file and for it succeed, and is as before otherwise |
| AtomicFile.PathsDistinct | interfaces/innerkits/accesstoken_file_util/src/accesstoken_file_util.cpp:104-171 | When there is a backup path, the main, `.new`, backup and backup `.new` paths are pairwise different |
| AtomicFile.BakPath | interfaces/innerkits/accesstoken_file_util/src/accesstoken_file_util.cpp:150-171 | A backup path is longer than the path by the backup directory and fits the buffer |
| AtomicFile.LastSlash | interfaces/innerkits/accesstoken_file_util/src/accesstoken_file_util.cpp:156-160 | The position of the last slash, with none after it, or -1 |
| AtomicFile.FileSystem.WriteAndSync | interfaces/innerkits/accesstoken_file_util/src/accesstoken_file_util.cpp:76-102 | Performs exactly the steps of its plan and returns 0 exactly when opening, the whole write and the flush succeed; then the file has the data, and after a failure with a working clean-up it is gone |
| AtomicFile.FileSystem.WriteAndRename | interfaces/innerkits/accesstoken_file_util/src/accesstoken_file_util.cpp:104-147 | Performs exactly the commit plan and returns 0 exactly when the scratch name fits and opening, the whole write, the flush and the rename succeed; a failed write or flush with a working clean-up leaves no scratch file |
| AtomicFile.FileSystem.AtomicWriteFile | interfaces/innerkits/accesstoken_file_util/src/accesstoken_file_util.cpp:173-210 | Performs exactly the write plan and returns 0 exactly when the scratch name fits and opening, writing, flushing and renaming the main file succeed; 0 means the main file is new and no scratch file is left, -1 that it is unchanged |
| DiskCommit.BackupBeside | interfaces/innerkits/accesstoken_file_util/src/accesstoken_file_util.cpp:150-171 | The backup of a file is the file of the same name in the backup directory beside it |
| DiskCommit.ConfigPath | interfaces/innerkits/nativetoken/include/nativetoken.h:26-28 | The registry file has the backup path the reader and the writer use |
| DiskCommit.CrashIsOutcome | interfaces/innerkits/accesstoken_file_util/src/accesstoken_file_util.cpp:173-210 | For a path that has a backup path, a write stopped anywhere leaves, to a reader, the old disk or one that the registry's own list of steps passes through, and a finished one the outcome of its two commits |
| TokenId.PackUnpack | interfaces/innerkits/nativetoken/include/nativetoken.h:69-74 | Packing then unpacking the bit fields gives them back, within 32 bits |
| TokenId.UnpackPack | interfaces/innerkits/nativetoken/include/nativetoken.h:69-74 | Every 32-bit ID is the packing of its own fields |
| TokenId.NewIdMeaning | interfaces/innerkits/accesstoken/include/access_token_basic_type.h:33-50 | A new ID lies above 2^29 and below 2^30, so below the integer saturation point; the reading side finds the same unique number and type with every flag clear |
| TokenId.InnerBits | interfaces/innerkits/accesstoken/include/access_token_basic_type.h:33-50 | The reading side finds each of the nine fields at its own bits |
| TokenJson.RoundTrip | interfaces/innerkits/nativetoken/src/nativetoken_json_oper.c:39-252 | Reading a written node gives it back in all fields exactly when it is storable (lengths, ID range and type, APL and uid range) |
| TokenJson.UpdateRoundTrip | interfaces/innerkits/nativetoken/src/nativetoken_json_oper.c:292-340 | Rewriting a readable record with a storable node of the same name and ID makes it read back as exactly that node |
| TokenJson.UpdatedItems | interfaces/innerkits/nativetoken/src/nativetoken_json_oper.c:254-340 | A successful in-place rewrite sets the five mutable items and keeps name and ID, whichever keys were present |
| TokenJson.KeysDistinct | interfaces/innerkits/nativetoken/src/nativetoken_json_oper.c:39-252 | No two record keys are confused by the case-insensitive look-up |
| TokenJson.AddStrArrayInfo | interfaces/innerkits/nativetoken/src/nativetoken_json_oper.c:157-179 | The loop adds the whole string array, in order, under its key |
| TokenJson.CreateNativeTokenJsonObject | interfaces/innerkits/nativetoken/src/nativetoken_json_oper.c:181-252 | The object built key by key is the encoding, and reads back exactly for storable nodes |
| TokenJson.GetInfoArrFromJson | interfaces/innerkits/nativetoken/src/nativetoken_json_oper.c:108-155 | The loop returns all strings in order, or fails on one bad element or too many |
| TokenJson.UpdateGoalItemFromRecord | interfaces/innerkits/nativetoken/src/nativetoken_json_oper.c:342-362 | The loop rewrites the first record of that name, and fails on a nameless record before it, on a record without APL, or when there is none |
| TokenJson.GoalIndex | interfaces/innerkits/nativetoken/src/nativetoken_json_oper.c:342-362 | The index found is the first record of that name with only usable names before it; nothing is found only when there is no such record |
| TokenJson.WrittenFormat | interfaces/innerkits/nativetoken/src/nativetoken_json_oper.c:181-252 | Which field of a node is written under which key |
| TokenJson.WrittenVersion | interfaces/innerkits/nativetoken/src/nativetoken_json_oper.c:181-237 | And the fixed version and attribute |
| TokenJson.ReadFormat | interfaces/innerkits/nativetoken/src/nativetoken_json_oper.c:39-155 | What a readable record has under each key, with the limits of each reader, -1 for a missing uid and nothing for a missing array |
| TokenJson.RewritableIff | interfaces/innerkits/nativetoken/src/nativetoken_json_oper.c:292-304 | A record can be rewritten exactly when it has an APL |
| TokenJson.RewrittenFormat | interfaces/innerkits/nativetoken/src/nativetoken_json_oper.c:254-340 | Which keys a rewrite sets to which field, and which it keeps |
| TokenJson.StorableLimits | interfaces/innerkits/nativetoken/src/nativetoken_json_oper.c:39-155 | The storable nodes in plain numbers |
| TokenJson.IntegerView | interfaces/innerkits/nativetoken/src/nativetoken_json_oper.c:59-106 | Numbers are cut off toward zero and saturate at the 32-bit limits |
| TokenRegistry.FreshUnique | interfaces/innerkits/nativetoken/src/nativetoken.c:458-491 | A number that ID creation settles on is below 2^20 and unused |
| TokenRegistry.FindName | interfaces/innerkits/nativetoken/src/nativetoken.c:989-1030 | The first node of that name, or proof that there is none |
| NativeTokenLib.IsTokenUniqueIdExist | interfaces/innerkits/nativetoken/src/nativetoken.c:445-456 | True exactly when a listed ID has these low 20 bits |
| NativeTokenLib.CreateNativeTokenId | interfaces/innerkits/nativetoken/src/nativetoken.c:458-491 | The retry loop gives the first unused random number of at most 1000 tries, or the invalid ID |
| NativeTokenLib.SameStrings | interfaces/innerkits/nativetoken/src/nativetoken.c:728-777 | The comparison loop is equality of string arrays |
| NativeTokenLib.Library.AtomicWriteFile | interfaces/innerkits/nativetoken/src/nativetoken.c:511-530 | A write changes the main file, then the backup, as far as it gets, and passes through exactly those disks |
| NativeTokenLib.Library.TryRemoveInvalidConfigPath | interfaces/innerkits/nativetoken/src/nativetoken.c:49-70 | A node that is no regular file is removed if the system allows it; a regular file is never touched |
| NativeTokenLib.Library.GetTokenList | interfaces/innerkits/nativetoken/src/nativetoken.c:244-283 | The load loop leaves the reversed records, or an empty list and failure on an empty array or one bad record |
| NativeTokenLib.Library.ReadAndParseFile | interfaces/innerkits/nativetoken/src/nativetoken.c:285-332 | Reads the main file or falls back to the backup and restores, as the pure transition says, passing through exactly its list of disks, for every fault |
| NativeTokenLib.Library.ClearOrCreateCfgFile | interfaces/innerkits/nativetoken/src/nativetoken.c:346-379 | Drops the backup and empties the main file, with its partial failures and with a link that can be opened but not removed, passing through exactly its list of disks |
| NativeTokenLib.Library.AtlibInit | interfaces/innerkits/nativetoken/src/nativetoken.c:381-422 | Start-up from any disk content ends in the state of the pure transition and passes through exactly its list of disks |
| NativeTokenLib.Library.SaveTokenIdToCfg | interfaces/innerkits/nativetoken/src/nativetoken.c:532-565 | Appends the new record to what a read returns and commits it |
| NativeTokenLib.Library.UpdateInfoInCfgFile | interfaces/innerkits/nativetoken/src/nativetoken.c:824-851 | Rewrites the matching record of what a read returns and commits it |
| NativeTokenLib.Library.AddNewTokenToListAndFile | interfaces/innerkits/nativetoken/src/nativetoken.c:672-726 | Pushes the new node before saving, so a failed save leaves it in the list |
| NativeTokenLib.Library.UpdateNewTokenToListAndFile | interfaces/innerkits/nativetoken/src/nativetoken.c:908-928 | Rewrites list and file exactly when some field differs |
| NativeTokenLib.Library.GetAccessTokenId | interfaces/innerkits/nativetoken/src/nativetoken.c:989-1102 | One call performs exactly the pure transition, passes through exactly its list of disks, and returns its ID, 0 on any failure |
| RegistryAnswers.CallStores | interfaces/innerkits/nativetoken/src/nativetoken.c:672-928 | A call that returns an ID, whatever fails, leaves in the list a node with that ID, its name, uid, dcaps, perms, acls, and level 3, 2 or 1 for its APL text |
| RegistryAnswers.CallStoresOnDisk | interfaces/innerkits/nativetoken/src/nativetoken.c:672-928 | With a committed write from a mirrored state the disk holds the same, field by field |
| RegistryAnswers.OthersKept | interfaces/innerkits/nativetoken/src/nativetoken.c:532-851 | A call about one name leaves every other name's record on disk as it is |
| RegistryAnswers.ParamsDurable | interfaces/innerkits/nativetoken/src/nativetoken.c:532-1102 | In every run of calls, restarts and crashes with the writes of completed calls succeeding, the parameters of a call that returned an ID stay on disk, field by field, until the next call about that name |
| RegistryAnswers.CheckedIff | interfaces/innerkits/nativetoken/src/nativetoken.c:567-641 | Which parameters are accepted, in sizes and APL texts, including at most as many ACLs as permissions |
| RegistryAnswers.RefusesOthers | interfaces/innerkits/nativetoken/src/nativetoken.c:989-1102 | Other parameters, or a failed lock, return 0 and leave a running process as it was |
| RegistryAnswers.ServesAcceptable | interfaces/innerkits/nativetoken/src/nativetoken.c:989-1102 | A running mirrored process whose file can be read and written serves every acceptable caller if one of the draws is free, a new name with that draw |
| RegistryAnswers.DrawsFirstFree | interfaces/innerkits/nativetoken/src/nativetoken.c:458-491 | Used numbers are drawn again, and the ID is version 1, the type (shell only for hdcd) and the first free draw of at most 1000 |
| RegistryAnswers.DrawsNothing | interfaces/innerkits/nativetoken/src/nativetoken.c:458-491 | Without a free draw there is no ID |
| RegistryAnswers.ReadsMainFirst | interfaces/innerkits/nativetoken/src/nativetoken.c:285-305 | A readable main file is what a read returns, a missing or empty one is no document, and the disk is untouched |
| RegistryAnswers.ReadsBackupNext | interfaces/innerkits/nativetoken/src/nativetoken.c:306-332 | Otherwise the backup is, and the main file is restored from it as far as the write gets |
| RegistryAnswers.ReadsNothing | interfaces/innerkits/nativetoken/src/nativetoken.c:306-323 | With neither readable the read fails and the disk is untouched |
| RegistryAnswers.LoadsIff | interfaces/innerkits/nativetoken/src/nativetoken.c:244-283 | A document loads exactly when it has records and all are readable, as their reverse |
| RegistryAnswers.StartsEmpty | interfaces/innerkits/nativetoken/src/nativetoken.c:346-422 | Start-up with nothing to load comes up empty with the backup dropped and the main file emptied, and succeeds exactly when the file could be opened and given its owner |
| RegistryAnswers.StartsLoaded | interfaces/innerkits/nativetoken/src/nativetoken.c:381-422 | Start-up with a list loads it and succeeds |
| RegistryAnswers.SavesBehind | interfaces/innerkits/nativetoken/src/nativetoken.c:532-565 | A save adds its record behind those of the document read, and succeeds exactly when the read and the write do |
| RegistryCrash.StepsEnd | interfaces/innerkits/nativetoken/src/nativetoken.c:285-1102 | The last disk a call passes through is the disk its transition ends with |
| RegistryCrash.ReadCut | interfaces/innerkits/nativetoken/src/nativetoken.c:285-332 | A read with its restore, stopped anywhere, leaves the disk of a complete read that returns the same |
| RegistryCrash.InitCut | interfaces/innerkits/nativetoken/src/nativetoken.c:381-422 | A start-up stopped anywhere leaves the disk of a complete call |
| RegistryCrash.CrashIsCall | interfaces/innerkits/nativetoken/src/nativetoken.c:285-1102 | A call stopped after any number of its file changes (removal, restore, backup removal, truncation, save, update) leaves the disk of some complete call with the same answers about reading the main file |
| RegistryIdentity.CreateIdFresh | interfaces/innerkits/nativetoken/src/nativetoken.c:458-491 | A created ID has unused low 20 bits, survives the signed reading, and carries the shell type for hdcd and the native type otherwise |
| RegistryIdentity.ReadyKeepsPairs | interfaces/innerkits/nativetoken/src/nativetoken.c:672-928 | On a list with distinct names and low 20 bits, one call, whatever fails, keeps them distinct, loses no (name, ID) pair, and returns the ID the list holds |
| RegistryIdentity.SaveOnDisk | interfaces/innerkits/nativetoken/src/nativetoken.c:532-565 | Saving a new node to a disk this code wrote adds exactly that node to its records, or nothing if the write fails |
| RegistryIdentity.UpdateOnDisk | interfaces/innerkits/nativetoken/src/nativetoken.c:824-851 | Updating rewrites exactly the record of that name, and fails without touching the disk when there is none or the write fails |
| RegistryIdentity.StableWithinLifetime | interfaces/innerkits/nativetoken/src/nativetoken.c:989-1030 | In one process lifetime, from a disk whose loadable content has distinct names and IDs, with reads, writes and locks failing at will, one name always gets one ID and different names get different low 20 bits |
| RegistryIdentity.MirrorStep | interfaces/innerkits/nativetoken/src/nativetoken.c:532-928 | One event with an undisturbed main file and, for a completed call, a committed write keeps list and file mirrored, loses no pair on disk, and returns only IDs that are on disk |
| RegistryIdentity.MirrorRun | interfaces/innerkits/nativetoken/src/nativetoken.c:244-928 | In every run of such calls, restarts and crashes after any step of a call, from a blank disk or one this code wrote, the list is the reverse of the record array on disk in all fields, and no stored pair is lost |
| RegistryIdentity.StableAcrossRestarts | interfaces/innerkits/nativetoken/src/nativetoken.c:989-1102 | Over the same runs one name keeps one ID across restarts and crashes in mid-call, and two names never share low 20 bits; which IDs survive when writes fail is SurvivesRestartIff |
| RegistryIdentity.ValidNodeStorable | interfaces/innerkits/nativetoken/src/nativetoken.c:606-641 | A node built from validated parameters and a native ID survives being written and read |
| RegistryIdentity.FailedWriteKeepsDisk | interfaces/innerkits/nativetoken/src/nativetoken.c:532-565 | A call whose write fails leaves a disk this code wrote as it was |
| RegistryDisk.CurrentIsRead | interfaces/innerkits/nativetoken/src/nativetoken.c:285-332 | What an undisturbed read returns, and when it succeeds, for every content of main file and backup |
| RegistryDisk.InitAgrees | interfaces/innerkits/nativetoken/src/nativetoken.c:285-422 | From any disk content a successful start-up leaves a list that agrees with what a read now returns, exactly unless the restore was lost or a link stays in the main file's place |
| RegistryDisk.InitAgreesWhenRestored | interfaces/innerkits/nativetoken/src/nativetoken.c:285-422 | When any restoring write commits, exactly unless a link stays |
| RegistryDisk.RestoreLossExample | interfaces/innerkits/nativetoken/src/nativetoken.c:325-331 | A removed node with a failed restore leaves a loaded list facing a missing file, and the next added token commits a file without the earlier records |
| RegistryDisk.InitNotAhead | interfaces/innerkits/nativetoken/src/nativetoken.c:381-422 | A successful start-up leaves no record on disk that the list lacks, exactly unless it loaded a backup in place of an unread main file that it could not restore, or came up empty behind a link with the backup kept |
| RegistryDisk.SaveShows | interfaces/innerkits/nativetoken/src/nativetoken.c:532-565 | Which document decides, from any state, whether everything a read returns after a save is in the list |
| RegistryDisk.SaveNotAhead | interfaces/innerkits/nativetoken/src/nativetoken.c:532-565 | If the list covers the disk, a save breaks this exactly by bringing an uncovered backup forward in place of an unread main file, with one of the two writes landing |
| RegistryDisk.UpdateNotAhead | interfaces/innerkits/nativetoken/src/nativetoken.c:824-851 | The same for an update, where the record being rewritten only needs its name and ID covered |
| RegistryDisk.ReadyNotAhead | interfaces/innerkits/nativetoken/src/nativetoken.c:989-1030 | A call leaves the disk covered exactly when a condition on the state before it holds, from any state |
| RegistryDisk.ReadyAheadIff | interfaces/innerkits/nativetoken/src/nativetoken.c:989-1030 | From a covered disk a call breaks the cover exactly when it reaches a file, reads the backup in place of an unread main file, a write of it lands, and the backup has a record the list lacks |
| RegistryDisk.StepNotAhead | interfaces/innerkits/nativetoken/src/nativetoken.c:532-851 | One event, whatever fails, keeps every pair a read returns in the list of an initialised process exactly unless it brings such a backup forward, or starts up ahead and does not then write a covered document |
| RegistryDisk.DiskNeverAhead | interfaces/innerkits/nativetoken/src/nativetoken.c:532-851 | In every run of calls, restarts and crashes from any disk content, whatever fails: the disk is behind memory at every point exactly when no event is of that kind |
| RegistryDisk.ReadableNeverAhead | interfaces/innerkits/nativetoken/src/nativetoken.c:532-851 | An event with the main file readable and odd nodes removable never gets ahead, whatever else fails |
| RegistryDisk.BehindWhileReadable | interfaces/innerkits/nativetoken/src/nativetoken.c:532-851 | So the disk stays behind memory in every run of such events from any disk content |
| RegistryDisk.LinkHidesBackup | interfaces/innerkits/nativetoken/src/nativetoken.c:346-379 | A link in a directory that cannot be written lets start-up succeed with an empty list while a read still returns the backup |
| RegistryDisk.UnreadMainAhead | interfaces/innerkits/nativetoken/src/nativetoken.c:285-332 | A start-up that cannot read the main file at that moment and fails to restore leaves the disk ahead of the list |
| RegistryDisk.UpdateKeepsPair | interfaces/innerkits/nativetoken/src/nativetoken_json_oper.c:292-340 | Rewriting any readable record with a storable node keeps it readable with its own name and ID |
| RegistryDisk.RetryReturnsUnsavedId | interfaces/innerkits/nativetoken/src/nativetoken.c:720-928 | After a failed save, repeating the call returns the ID that was never written and touches no file |
| RegistryDisk.ReturnedIdStored | interfaces/innerkits/nativetoken/src/nativetoken.c:908-928 | With the disk not ahead and the main file readable and able to hold records, a returned ID is on disk exactly when the call changed the node or the ID was there before |
| RegistryRestart.CallBehind | interfaces/innerkits/nativetoken/src/nativetoken.c:989-1102 | With main-file reads undisturbed, one call, whatever write fails, keeps the disk one this code wrote and behind memory, and loses no stored pair |
| RegistryRestart.BehindRun | interfaces/innerkits/nativetoken/src/nativetoken.c:989-1102 | The same over every run of calls, restarts and crashes |
| RegistryRestart.StoredIdsStable | interfaces/innerkits/nativetoken/src/nativetoken.c:989-1102 | Over those runs the IDs that were on disk when returned are stable across restarts: one name, one ID; two names, different low 20 bits |
| RegistryRestart.RestartKeepsIdIff | interfaces/innerkits/nativetoken/src/nativetoken.c:458-1030 | With undisturbed main-file reads and one other number free, after a restart a name keeps the ID it has in memory, whatever is drawn, exactly when that ID is on disk |
| RegistryRestart.SurvivesRestartIff | interfaces/innerkits/nativetoken/src/nativetoken.c:458-1030 | Over those runs, with one other number free, an ID returned in the current lifetime survives a restart, whatever is drawn, exactly when it is on disk |
| RegistryRestart.UnsavedIdForgotten | interfaces/innerkits/nativetoken/src/nativetoken.c:381-928 | After a failed save, a retry and a restart, with concrete draws, the same name gets two different non-zero IDs |
| RiskModel.Cut | interfaces/innerkits/analysis_model/src/code_signature_analysis_kit.c:80-90 | The prefix of stamps newer than the time, ending at the first that is not |
| RiskModel.FindApp | interfaces/innerkits/analysis_model/src/code_signature_analysis_kit.c:29-40 | The first application with the token, or proof that there is none |
| RiskModel.RejectsBadInput | interfaces/innerkits/analysis_model/src/code_signature_analysis_kit.c:229-249 | The answers to bad input, in the order of the checks, none of which changes anything |
| RiskModel.UnknownApplication | interfaces/innerkits/analysis_model/src/code_signature_analysis_kit.c:250-267 | An expiry for an unknown application changes nothing; a report puts it first in the list and tells nobody |
| RiskModel.KnownApplication | interfaces/innerkits/analysis_model/src/code_signature_analysis_kit.c:171-200 | An event changes only its own application; the answer is the overflow code exactly at a count of 102400; the listener hears the new policy exactly on a change, with somebody listening, below that |
| RiskModel.Lifecycle | interfaces/innerkits/analysis_model/src/code_signature_analysis_kit.c:284-412 | What starting, subscribing and stopping answer and change |
| RiskLib.DataPreProcess | interfaces/innerkits/analysis_model/src/code_signature_analysis_kit.c:76-115 | The loops cut the chain at the first stamp not newer and lower the head count by the number removed, or insert at the head |
| RiskLib.DeriveStatus | interfaces/innerkits/analysis_model/src/code_signature_analysis_kit.c:42-60 | The five-step loop derives sum, non-empty count and policy |
| RiskLib.Collect | interfaces/innerkits/analysis_model/src/code_signature_analysis_kit.c:369-382 | The query loop lists the first entries of the listing up to the limit |
| RiskLib.Engine.FindExistingNode | interfaces/innerkits/analysis_model/src/code_signature_analysis_kit.c:29-40 | The search loop finds the first application with the token |
| RiskLib.Engine.IsRiskStatusChanged | interfaces/innerkits/analysis_model/src/code_signature_analysis_kit.c:42-74 | Replaces the status, reports a change of policy, and moves the saturating count accordingly |
| RiskLib.Engine.UpdateInfoInCurrNode | interfaces/innerkits/analysis_model/src/code_signature_analysis_kit.c:171-200 | Updates one application and notifies only on a change, with a listener, below the cap |
| RiskLib.Engine.AddNewAppInfoNode | interfaces/innerkits/analysis_model/src/code_signature_analysis_kit.c:202-227 | A new application enters at the head of the list without a notification |
| RiskLib.Engine.DataProcess | interfaces/innerkits/analysis_model/src/code_signature_analysis_kit.c:229-267 | One event performs exactly the pure transition, with every error code |
| RiskLib.Engine.Init | interfaces/innerkits/analysis_model/src/code_signature_analysis_kit.c:284-315 | Starts with no applications, and refuses a second start |
| RiskLib.Engine.Release | interfaces/innerkits/analysis_model/src/code_signature_analysis_kit.c:317-340 | Empties the list and resets listener and count |
| RiskLib.Engine.SubscribeResult | interfaces/innerkits/analysis_model/src/code_signature_analysis_kit.c:396-412 | Sets the listener only on a started model |
| RiskLib.Engine.GetResult | interfaces/innerkits/analysis_model/src/code_signature_analysis_kit.c:342-394 | On a reachable model with room for 16 bytes each, returns as many applications as the count: each is in the list and risky, they come in list order, and no risky application before a listed one is missing; otherwise the error code |
| RiskProperties.StatusMeaning | interfaces/innerkits/analysis_model/src/code_signature_analysis_kit.c:42-60 | A derived status is the sum of chain lengths, the number of non-empty chains, and LogReport exactly when the sum exceeds 10 or all five chains are non-empty |
| RiskProperties.ChangeKeepsDerived | interfaces/innerkits/analysis_model/src/code_signature_analysis_kit.c:42-115 | A report or expiry keeps head counts equal to chain lengths and the status derived |
| RiskProperties.StepKeepsInv | interfaces/innerkits/analysis_model/src/code_signature_analysis_kit.c:42-267 | Every step keeps derived data, distinct tokens and the bound on the count, and an exact count stays exact within the cap |
| RiskProperties.RunKeepsInv | interfaces/innerkits/analysis_model/src/code_signature_analysis_kit.c:42-340 | In every run head counts are chain lengths, statuses are derived, tokens are distinct, and the count is at most the number of risky applications and the cap |
| RiskProperties.CountExactIffUnderCap | interfaces/innerkits/analysis_model/src/code_signature_analysis_kit.c:61-72 | The count is exact throughout a run exactly when the number of risky applications never exceeds the cap |
| RiskProperties.RiskyMeaning | interfaces/innerkits/analysis_model/src/code_signature_analysis_kit.c:371-382 | The listing contains the risky applications and no others, each token once; its order is ListingOrder |
| RiskProperties.ListingOrder | interfaces/innerkits/analysis_model/src/code_signature_analysis_kit.c:371-382 | The first entries of the listing are risky, in list order and without a gap |
| RiskProperties.OneEventSafe | interfaces/innerkits/analysis_model/src/code_signature_analysis_kit.c:202-227 | One event cannot make a new application risky, so silent creation misses nothing |
| RiskHistory.DataKeepsSync | interfaces/innerkits/analysis_model/src/code_signature_analysis_kit.c:171-200 | While someone listens, one event keeps all announcements in step exactly unless it changes a policy and the updated count is at its cap |
| RiskReach.CrowdCounted | interfaces/innerkits/analysis_model/src/code_signature_analysis_kit.c:42-267 | The list and the count after any number of applications with eleven reports each |
| RiskReach.MissedIsReached | interfaces/innerkits/analysis_model/src/code_signature_analysis_kit.c:171-200 | A run in which everything was announced, and a next report whose change of policy the listener never hears |
| RiskReach.CountFallsBehind | interfaces/innerkits/analysis_model/src/code_signature_analysis_kit.c:61-72 | A run with exactly the cap of risky applications, and one more, after which the count is below their number |
| RiskHistory.NotificationsAlternate | interfaces/innerkits/analysis_model/src/code_signature_analysis_kit.c:171-267 | With a listener from start-up on and the count below its cap, each token's announcements alternate from LogReport on and the last one is the current policy |
| RiskHistory.SyncedIffNoneMissed | interfaces/innerkits/analysis_model/src/code_signature_analysis_kit.c:171-267 | Over every run of events with a listener from start-up on, all announcements are in step at every point exactly when no event changes a policy with the updated count at its cap |
| RiskHistory.CutIsFilter | interfaces/innerkits/analysis_model/src/code_signature_analysis_kit.c:80-98 | Cutting keeps exactly the newer stamps for every cut-off time exactly when the chain is ordered newest first |
| RiskHistory.StampsStep | interfaces/innerkits/analysis_model/src/code_signature_analysis_kit.c:76-115 | One event changes the stamps of its own token and error type and of no other |
| RiskHistory.ChainsAreSurvivors | interfaces/innerkits/analysis_model/src/code_signature_analysis_kit.c:76-340 | If the reports of each application and error type arrive in order, after every run of start-ups, reports, expiries and shut-downs the model holds exactly the reported times that no later expiry covers, newest first |
| MergeCache.WindowIff | interfaces/innerkits/privacy/src/privacy_kit.cpp:74-79 | A window is 200 ms long and, locally, ends with its wall-clock minute |
| MergeCache.LastForwardIsLast | interfaces/innerkits/privacy/src/privacy_kit.cpp:63-88 | The remembered forward of a key is the latest one |
| MergeCache.CacheMeaning | interfaces/innerkits/privacy/src/privacy_kit.cpp:63-127 | An entry carries the time of the last forward of its key, which was accepted; no entry means no forward, or a last one that was refused |
| MergeCache.KnowsIffNeverForgets | interfaces/innerkits/privacy/src/privacy_kit.cpp:80-87 | Throughout a run every entry tells whether a success opened its window, exactly when no dropped record wraps a sum around to zero |
| MergeCache.SmallSumCounts | interfaces/innerkits/privacy/src/privacy_kit.cpp:80-87 | Sums inside the 32-bit range never do |
| MergeCache.SuppressedHasWitness | interfaces/innerkits/privacy/src/privacy_kit.cpp:63-127 | Every dropped record has an earlier accepted forward of its key less than 200 ms before and, locally, in the same minute; a dropped success has an accepted success; whatever the service refuses and however sums wrap |
| MergeCache.ForwardReason | interfaces/innerkits/privacy/src/privacy_kit.cpp:63-88 | If the service accepts everything and no sum wraps to zero, a forward after another of its key is a new minute, 200 ms later, or the first success of a window without one |
| MergeCache.ForwardInWindow | interfaces/innerkits/privacy/src/privacy_kit.cpp:63-88 | If the service accepts everything, a record inside the window of the last forward of its key is forwarded exactly when it is a success and the entry counts zero |
| MergeCache.EarlyForwardIff | interfaces/innerkits/privacy/src/privacy_kit.cpp:63-88 | If moreover the clock does not go back, a record is forwarded less than 200 ms after the last forward but one of its key exactly when both it and the last forward are successes and the entry counts zero |
| MergeCache.SpansIffNoneReopens | interfaces/innerkits/privacy/src/privacy_kit.cpp:63-88 | Under the same two assumptions any three forwards of one key (within one minute, locally; without that condition, remotely) span at least 200 ms exactly when no record meets that guard |
| MergeCache.NeverForgetsNoneReopens | interfaces/innerkits/privacy/src/privacy_kit.cpp:80-87 | No record meets it when no sum wraps around to zero |
| MergeCache.ThreeForwardsSpan | interfaces/innerkits/privacy/src/privacy_kit.cpp:63-88 | So any three forwards span at least 200 ms when no sum wraps around to zero |
| MergeCache.AtMost600PerMinute | interfaces/innerkits/privacy/src/privacy_kit.cpp:63-88 | With an accepting service, a non-negative clock that does not go back and no record meeting that guard, at most 600 records of one key are forwarded in a wall-clock minute |
| MergeCache.WrapBreaksSpan | interfaces/innerkits/privacy/src/privacy_kit.cpp:80-87 | A run with an accepting service and a steady clock in which sums wrap to zero, the guard is met, and three records are forwarded at the same instant |
| MergeCache.RecordCache.FindAndInsert | interfaces/innerkits/privacy/src/privacy_kit.cpp:63-88 | The look-up drops and updates as the pure cache does; without the minute rule it is the remote look-up |
| MergeCache.RecordCache.Add | interfaces/innerkits/privacy/src/privacy_kit.cpp:115-124 | A record asks the service unless dropped, bypasses the cache with extra data, and forgets the key when the service refuses |
| RecordKey.DecimalInjective | interfaces/innerkits/privacy/src/privacy_kit.cpp:57-61 | Different numbers have different decimal texts |
| RecordKey.CollisionShape | interfaces/innerkits/privacy/src/privacy_kit.cpp:57-61 | Records that share a key are the same, or one identity absorbs the other |
| RecordKey.AbsorbingCollides | interfaces/innerkits/privacy/src/privacy_kit.cpp:57-61 | Every record with an absorbing identity shares its key with a different record of the same token, whose permission is longer by at most the identity |
| RecordKey.IdentitiesSeparate | interfaces/innerkits/privacy/src/privacy_kit.cpp:57-61 | Two different identities are never confused exactly when neither is the other preceded by fields ending in a type number, over all records and over those the kit admits |
| RecordKey.KeysSeparate | interfaces/innerkits/privacy/src/privacy_kit.cpp:57-61 | Keys of records whose identities have no underscore are equal exactly for equal token, permission, type and identity |
| PrivacyKit.DroppedIsCovered | interfaces/innerkits/privacy/src/privacy_kit.cpp:57-127 | Over a run of valid records no identity of which absorbs another, a dropped one was preceded, in its window, by an accepted record of the very same token, permission, type and identity; a dropped success by an accepted success |
| PrivacyKit.PlainIdentities | interfaces/innerkits/privacy/src/privacy_kit.cpp:57-61 | Identities without underscores never absorb each other |
| PrivacyKit.SecondDropped | interfaces/innerkits/privacy/src/privacy_kit.cpp:63-127 | The second of two valid records that share a key at one instant is dropped, whoever it is about |
| PrivacyKit.AbsorbedDropExample | interfaces/innerkits/privacy/src/privacy_kit.cpp:57-127 | Two valid records of different permissions, the second of which is dropped on account of the first |
| PrivacyKit.DropsCoveredIff | interfaces/innerkits/privacy/src/privacy_kit.cpp:57-127 | For two identities of admitted length, every dropped record of every valid run with them has an accepted forward of the same subject before it, exactly when neither identity absorbs the other |
| PrivacyKit.RefusedIff | interfaces/innerkits/privacy/src/privacy_kit.cpp:101-113 | Which records are refused, in sizes, counts, type and token bits |
| PrivacyKit.Kit.AddPermissionUsedRecord | interfaces/innerkits/privacy/src/privacy_kit.cpp:101-127 | Refused input changes nothing and answers 13100001 without asking; otherwise the cache step is performed, a dropped record and the answer 13100023 read as 0, and any other answer of the service is passed on |
| PrivacyKit.Kit.AddRemotePermissionUsedRecord | interfaces/innerkits/privacy/src/privacy_kit.cpp:251-321 | The remote counterpart with its own limits, keyed by device and permission, without the minute rule |
| VerifyToken.TokenBits | interfaces/innerkits/accesstoken/src/accesstoken_kit.cpp:77-90 | Which ID bits make a render process, and which callers are normal applications asking about another token |
| VerifyToken.SingleAnswers | interfaces/innerkits/accesstoken/src/accesstoken_kit.cpp:451-472 | The two-argument check answers -1 for a render process and for an undefined name, 0 or -1 as the kernel grants or not, and what the service says on a kernel miss or for another token |
| VerifyToken.SingleIpcAnswers | interfaces/innerkits/accesstoken/src/accesstoken_kit.cpp:413-434 | The same of the flagged check, with undefined names denied first |
| VerifyToken.AskKernel | interfaces/innerkits/accesstoken/src/accesstoken_kit.cpp:504-520 | The scatter loop answers what the kernel answers and lists the misses with the position of each |
| VerifyToken.FillIn | interfaces/innerkits/accesstoken/src/accesstoken_kit.cpp:528-532 | The gather loop puts each reply at its own position, for replies of any length |
| VerifyToken.VerifyBatch | interfaces/innerkits/accesstoken/src/accesstoken_kit.cpp:489-536 | Every position has -1 for an undefined name, 0 or -1 as the kernel grants or not, and the service's answer for a kernel miss, -1 if the service fails; render tokens are denied throughout |
| VerifyToken.FilledIsSingle | interfaces/innerkits/accesstoken/src/accesstoken_kit.cpp:451-536 | Filling in a consistent reply gives the single answer for any mix of undefined names, answers, misses and duplicates |
| VerifyToken.VerifyBatchRefined | interfaces/innerkits/accesstoken/src/accesstoken_kit.cpp:451-536 | If the service answers batches element by element, a successful batch check without forced IPC equals the single check at every position |
| VerifyToken.VerifyBatchForced | interfaces/innerkits/accesstoken/src/accesstoken_kit.cpp:413-536 | The batch with forced IPC agrees with the flagged single check exactly on render tokens, defined names and names the service denies |
| VerifyToken.SinglesAgree | interfaces/innerkits/accesstoken/src/accesstoken_kit.cpp:413-472 | The two single checks agree exactly unless a normal application asks about another token's undefined name and is not denied |
| VerifyToken.DeployedConsistent | services/accesstokenmanager/main/cpp/src/service/accesstoken_manager_service.cpp:868-877 | The repository's service answers a batch element by element as it answers single requests |
| VerifyToken.VerifyBatchDeployed | interfaces/innerkits/accesstoken/src/accesstoken_kit.cpp:413-536 | With the repository's client and service, which denies unknown names, a successful batch check equals the corresponding single check at every position, with and without forced IPC |
| VerifyToken.SinglesDiffer | interfaces/innerkits/accesstoken/src/accesstoken_manager_client.cpp:282-308 | With them the two single checks differ exactly for an undefined name of another native token, asked by a normal application before the service was ever started |
| VerifyToken.SinglesDifferExample | interfaces/innerkits/accesstoken/src/accesstoken_manager_client.cpp:282-308 | Such an input for every table and every name that is not in it |
| PermissionTable.ParseJson | frameworks/common/permission_definition_parser.py:199-239 | Rows are numbered by position, the two built-in permissions last |
| PermissionTable.IndexUnique | frameworks/common/src/permission_map.cpp:45-55 | Agreement with a scan of the table determines the index |
| PermissionTable.OpcodeRoundTrip | frameworks/common/src/permission_map.cpp:45-76 | Name-to-opcode undoes opcode-to-name for every row exactly when names are distinct; the other way round always |
| PermissionTable.Toggled | frameworks/common/src/permission_map.cpp:191-202 | Enabling and disabling never change names or the number of rows |
| PermissionTable.TogglesMeaning | frameworks/common/src/permission_map.cpp:191-202 | With distinct names, after any series of enable/disable calls the index is still right and each permission is as the last call about it said |
| PermissionTable.PermissionMap.InitMap | frameworks/common/src/permission_map.cpp:45-55 | The loop builds the index that agrees with a scan of the table |
| PermissionTable.PermissionMap.TransferPermissionToOpcode | frameworks/common/src/permission_map.cpp:57-68 | Gives the last row with the name, or nothing when no row has it |
| PermissionTable.PermissionMap.TransferOpcodeToPermission | frameworks/common/src/permission_map.cpp:70-76 | The name leads back to the opcode exactly when no later row has it, always with distinct names; beyond the table it is empty |
| PermissionTable.PermissionMap.SetPermissionBriefEnabled | frameworks/common/src/permission_map.cpp:191-202 | Changes one flag, keeps the index right, and says whether the name exists |
| PermissionTable.BuildSpmPerms | interfaces/innerkits/nativetoken/src/nativetoken.c:944-971 | Bit c of the cleared 64-word bitmap is set exactly when c is the opcode of a listed permission, and every word stays 32-bit |
| PermissionTable.OrBits | interfaces/innerkits/nativetoken/src/nativetoken.c:958-958 | The word operation sets a bit exactly where one of its operands has it |
| PermissionTable.NoneOutOfRange | frameworks/common/permission_definition_parser.py:105-112 | With at most 1800 rows no listed permission falls outside the bitmap |
| PermissionTable.BitmapFromDefinitions | frameworks/common/permission_definition_parser.py:105-243 | From definitions to bitmap: the generator refuses more than 1800 rows, and otherwise bit c is set exactly when row c is the last with a listed name, and every listed defined permission has its bit |
| CallbackRegistry.RegisterAnswers | interfaces/innerkits/accesstoken/src/accesstoken_manager_client.cpp:653-731 | What a registration answers, by the size of the map, membership, the proxy, the scope sizes and the service |
| CallbackRegistry.RegisterKeepsOthers | interfaces/innerkits/accesstoken/src/accesstoken_manager_client.cpp:653-731 | Only a successful registration adds to the map, and only this callback with its type |
| CallbackRegistry.UnregisterAnswers | interfaces/innerkits/accesstoken/src/accesstoken_manager_client.cpp:733-774 | What an unregistration answers, and that only a successful one takes the callback, and no other, out |
| CallbackRegistry.RegStep | interfaces/innerkits/accesstoken/src/accesstoken_manager_client.cpp:653-731 | A registration keeps the service at exactly the client's wrappers created since the last unrepaired death, exactly unless it was done and its reply is lost |
| CallbackRegistry.DropExactly | services/accesstokenmanager/main/cpp/src/callback/callback_manager.cpp:87-108 | Removing by wrapper removes exactly the one entry that has it, whatever its type |
| CallbackRegistry.DropIs | services/accesstokenmanager/main/cpp/src/callback/callback_manager.cpp:87-108 | An unregistration at the service removes exactly the client's entry if it is held, and nothing otherwise |
| CallbackRegistry.UnregStep | interfaces/innerkits/accesstoken/src/accesstoken_manager_client.cpp:733-774 | An unregistration of either type keeps it, exactly unless the service held the wrapper and the reply is lost |
| CallbackRegistry.SaAddedStep | interfaces/innerkits/accesstoken/src/accesstoken_manager_client.cpp:1388-1431 | A re-registration brings the service into agreement with the whole map exactly when it gets through for the callbacks from before the death and for no other |
| CallbackRegistry.StepSync | interfaces/innerkits/accesstoken/src/accesstoken_manager_client.cpp:653-774 | One step keeps the service at exactly those wrappers, each once and with its type, exactly when it is harmless in the sense of the rows above |
| CallbackRegistry.RunSync | interfaces/innerkits/accesstoken/src/accesstoken_manager_client.cpp:653-774 | Over every run of registrations, unregistrations of either type, deaths and re-registrations this holds at every point exactly when every step is harmless |
| CallbackRegistry.AgreesIff | interfaces/innerkits/accesstoken/src/accesstoken_manager_client.cpp:653-774 | After such a run client and service agree exactly when no callback is left from before the last unrepaired death, and the map has at most 200 entries |
| CallbackRegistry.RegisteredTwice | interfaces/innerkits/accesstoken/src/accesstoken_manager_client.cpp:1388-1431 | A callback registered between the death of the service and the notification that it is back is held twice, and unregistering it leaves a wrapper the client has dropped |
| CallbackRegistry.Client.CreatePermStateChangeCallback | interfaces/innerkits/accesstoken/src/accesstoken_manager_client.cpp:653-676 | Adds one fresh wrapper, or refuses at the cap or for a known callback |
| CallbackRegistry.Client.CompleteRegistration | interfaces/innerkits/accesstoken/src/accesstoken_manager_client.cpp:695-731 | Every failure after the entry was made takes it out again |
| CallbackRegistry.Client.RegisterPermStateChangeCallback | interfaces/innerkits/accesstoken/src/accesstoken_manager_client.cpp:678-731 | A registration performs exactly the pure transition, with every error |
| CallbackRegistry.Client.UnRegisterPermStateChangeCallback | interfaces/innerkits/accesstoken/src/accesstoken_manager_client.cpp:733-774 | An unregistration removes the entry exactly when the service accepts, whatever the type |
| CallbackRegistry.Client.ReregisterPermStateChangeCallback | interfaces/innerkits/accesstoken/src/accesstoken_manager_client.cpp:1394-1431 | The loop registers every known callback again on top of what the service holds, as far as its call gets through |
| CallbackConcurrency.FlagStep | interfaces/innerkits/accesstoken/src/accesstoken_manager_client.cpp:1440-1448 | Every atomic step keeps at most one thread between winning and returning the flag, and none once a subscription succeeded |
| CallbackConcurrency.EverySchedule | interfaces/innerkits/accesstoken/src/accesstoken_manager_client.cpp:653-774 | Under any schedule of any number of threads the map stays within 200, wrappers are distinct, and at most one thread is inside the subscription |
| CallbackConcurrency.NoneAfterSuccess | interfaces/innerkits/accesstoken/src/accesstoken_manager_client.cpp:1440-1448 | After a successful subscription no thread is inside it at any later point of any schedule |
| CallbackConcurrency.RetryAfterFailure | interfaces/innerkits/accesstoken/src/accesstoken_manager_client.cpp:1440-1448 | A failed subscription lets the next thread try; until then, and after a success, no other gets in |
| CallbackConcurrency.EraseSparesOthers | interfaces/innerkits/accesstoken/src/accesstoken_manager_client.cpp:762-768 | Unregistration erases only the wrapper it unhooked, under any interleaving |
| CallbackConcurrency.RollBackSparesOthers | interfaces/innerkits/accesstoken/src/accesstoken_manager_client.cpp:691-694 | Rolling back a registration spares the others exactly when the entry is still its own or gone |
| CallbackConcurrency.RollBackRace | interfaces/innerkits/accesstoken/src/accesstoken_manager_client.cpp:691-768 | A schedule in which a late roll-back removes another thread's new entry |
| CallbackConcurrency.MoveAgrees | interfaces/innerkits/accesstoken/src/accesstoken_manager_client.cpp:653-774 | One move of one thread keeps the service at exactly the registrations nobody is in the middle of, exactly unless the service takes a wrapper whose entry is gone or being unregistered, or a roll-back takes out another settled entry |
| CallbackConcurrency.ScheduleAgreesIff | interfaces/innerkits/accesstoken/src/accesstoken_manager_client.cpp:653-774 | Under any schedule of any number of threads this holds at every point exactly when every move is harmless in that sense |
| CallbackConcurrency.QuietAgrees | interfaces/innerkits/accesstoken/src/accesstoken_manager_client.cpp:653-774 | With no thread in the middle of a registration or unregistration it is agreement with the whole map |
| CallbackConcurrency.HookRace | interfaces/innerkits/accesstoken/src/accesstoken_manager_client.cpp:678-768 | A schedule that ends with every thread idle and the service holding a wrapper the client has dropped |
| CallbackConcurrency.PatientAgrees | interfaces/innerkits/accesstoken/src/accesstoken_manager_client.cpp:653-774 | If callbacks are unregistered only once their registration has returned, client and service agree at every point of every schedule |
| Parcels.AllRoundTrip | frameworks/privacy/src/bundle_used_record_parcel.cpp:33-61 | Reading as many elements as were written gives them back when each element does, and fails otherwise |
| Parcels.ListRoundTrip | frameworks/privacy/src/bundle_used_record_parcel.cpp:32-61 | A counted list of a codec reads back exactly within its cap when every element does, and is refused otherwise |
| UsedRecordParcel.DetailBack | frameworks/privacy/src/used_record_detail_parcel.cpp:22-49 | A written detail followed by anything reads back equal and leaves what followed, with the signed type carried as unsigned |
| UsedRecordParcel.TwoListsBack | frameworks/privacy/src/permission_used_record_parcel.cpp:36-90 | The two detail lists read back exactly when together they respect their joint cap of 500 |
| UsedRecordParcel.RecordBack | frameworks/privacy/src/permission_used_record_parcel.cpp:25-91 | A written record reads back equal exactly within the joint cap, and is refused otherwise |
| UsedRecordParcel.BundleBack | frameworks/privacy/src/bundle_used_record_parcel.cpp:24-63 | The same for one bundle of at most 1024 such records |
| UsedRecordParcel.ResultRoundTrip | frameworks/privacy/src/permission_used_result_parcel.cpp:24-57 | A written result followed by anything reads back equal, leaving what followed, exactly within the caps of all levels, and is refused otherwise |
| UsedRecordParcel.AcceptedSizes | frameworks/common/include/parcel_utils.h:19-27 | The accepted sizes in numbers: 1024, 1024 and 500 |
| UsedRecordParcel.RecordLayout | frameworks/privacy/src/permission_used_record_parcel.cpp:25-50 | Where a reader finds each scalar and each count of a record |
| UsedRecordParcel.OtherLayouts | frameworks/privacy/src/bundle_used_record_parcel.cpp:24-39 | The same of a detail, a bundle and a result |
| UsedRecordStream.MarshalDetail | frameworks/privacy/src/used_record_detail_parcel.cpp:22-31 | Appends exactly the encoding of the detail |
| UsedRecordStream.UnmarshalDetail | frameworks/privacy/src/used_record_detail_parcel.cpp:33-49 | Returns what the codec decodes and stops where it stops |
| UsedRecordStream.MarshalRecord | frameworks/privacy/src/permission_used_record_parcel.cpp:25-50 | The write loops append exactly the encoding of the record |
| UsedRecordStream.UnmarshalRecord | frameworks/privacy/src/permission_used_record_parcel.cpp:52-91 | The read loops return what the codec decodes and stop where it stops |
| UsedRecordStream.MarshalBundle | frameworks/privacy/src/bundle_used_record_parcel.cpp:24-39 | The write loop appends exactly the encoding of the bundle |
| UsedRecordStream.UnmarshalBundle | frameworks/privacy/src/bundle_used_record_parcel.cpp:41-63 | The read loop returns what the codec decodes and stops where it stops |
| UsedRecordStream.Marshal | frameworks/privacy/src/permission_used_result_parcel.cpp:24-36 | The outer write loop appends exactly the encoding of the result |
| UsedRecordStream.Unmarshal | frameworks/privacy/src/permission_used_result_parcel.cpp:38-57 | The outer read loop returns what the codec decodes and stops where it stops |
| UsedRecordStream.SendAndReceive | frameworks/privacy/src/permission_used_result_parcel.cpp:24-57 | Writing into a parcel and reading from it returns the value exactly when the caps allow it |
| HapPolicyParcel.DefBack | frameworks/accesstoken/src/permission_def_parcel.cpp:24-69 | A written definition reads back equal in all thirteen fields |
| HapPolicyParcel.StatusInverse | frameworks/accesstoken/src/permission_status_parcel.cpp:22-45 | A written status reads back equal but for its token |
| HapPolicyParcel.WalkRebuilds | frameworks/accesstoken/src/hap_policy_parcel.cpp:71-104 | Inserting a map's entries in any order in which it can be walked rebuilds the map |
| HapPolicyParcel.PolicyRoundTrip | frameworks/accesstoken/src/hap_policy_parcel.cpp:28-151 | A written policy followed by anything reads back equal but for its statuses' tokens, exactly within all caps, for every order in which the map is walked; otherwise the writer or the reader refuses |
| HapPolicyParcel.OnlyTokensLost | frameworks/accesstoken/src/permission_status_parcel.cpp:22-45 | A policy comes back equal whatever the fresh tokens hold exactly when it has no statuses |
| HapPolicyParcel.AcceptedSizes | frameworks/common/include/parcel_utils.h:19-27 | The accepted sizes in numbers: 2048, 1024 and 512 |
| HapPolicyParcel.PolicyLayout | frameworks/accesstoken/src/hap_policy_parcel.cpp:28-78 | Where a reader finds each scalar and each count of a policy |
| HapPolicyParcel.LeafLayouts | frameworks/accesstoken/src/permission_def_parcel.cpp:24-40 | The order of the fields of a definition, a status, a pre-authorisation and a map entry |
| HapPolicyStream.MarshalDef | frameworks/accesstoken/src/permission_def_parcel.cpp:24-40 | Appends exactly the encoding of the definition |
| HapPolicyStream.UnmarshalDef | frameworks/accesstoken/src/permission_def_parcel.cpp:42-69 | Returns what the codec decodes and stops where it stops |
| HapPolicyStream.MarshalStatus | frameworks/accesstoken/src/permission_status_parcel.cpp:22-30 | Appends exactly the encoding of the status |
| HapPolicyStream.UnmarshalStatus | frameworks/accesstoken/src/permission_status_parcel.cpp:32-45 | Returns what the codec decodes and stops where it stops |
| HapPolicyStream.Marshal | frameworks/accesstoken/src/hap_policy_parcel.cpp:28-78 | The write loops append exactly the encoding, or give up on an oversized definition list |
| HapPolicyStream.UnmarshalMap | frameworks/accesstoken/src/hap_policy_parcel.cpp:96-104 | The read loop fills the map with the entries the codec decodes, in order |
| HapPolicyStream.UnmarshalTail | frameworks/accesstoken/src/hap_policy_parcel.cpp:80-107 | The remaining lists, the map and the debug flag are read as the codec decodes them |
| HapPolicyStream.Unmarshal | frameworks/accesstoken/src/hap_policy_parcel.cpp:109-151 | The read loops return what the codec decodes and stop where it stops |
| HapPolicyStream.SendAndReceive | frameworks/accesstoken/src/hap_policy_parcel.cpp:28-151 | Writing into a parcel and reading from it returns the policy without its statuses' tokens exactly when the caps allow it |

## Left out

- Null-pointer arguments.
- File descriptors, ownership changes, file locking, SELinux relabelling, logging and event reporting: their results are inputs where they change control flow, and are otherwise dropped.
- Allocation failure and the clean-up code that exists only for it: allocation always succeeds in the model.
- The size limit on a readable token file: a file above the limit is the content `Unreadable`, but a document written by the model is always assumed to stay below it.
- JSON text: printing and parsing are inverse on values; keys are compared without case as the library does.
- The APL reader's double-to-integer conversion of numbers outside the 32-bit range is taken as saturating.
- Linked-list nodes are elements of a sequence field: aliasing between nodes and freeing are not captured.
- RiskLib.Engine.AddNewAppInfoNode: does not model a bundle name too long for its buffer, whose failed copy frees a node already in the list; names are taken to fit.
- The head count of a timestamp chain and the total are unbounded integers.
- Kernel synchronisation after a successful call (`SpmAddEntries`, `AddPermissionToKernel`) and its retries.
- Concurrent use of the merge cache: its theorems are about sequential calls.
- RegistryIdentity.StableAcrossRestarts: states the case of committed writes; exactly which IDs survive when writes fail is RegistryRestart.SurvivesRestartIff.
- The parent-directory look-up and flush of the file writer, and creating the backup directory, which never change a file's content.
- The two-token permission checks, which compose two single checks.
- Presence markers of nested parcel objects follow the parcel library, which is not part of this model; vector lengths are taken to fit the 32-bit count they are written with.
- Writing to a parcel always succeeds; its byte layout is a sequence of typed cells.
- When two remote records share the key built from device and permission.
- Replacing one risk listener by another: a listener is either there or not.
- Which callers the service admits and its own limit on callbacks: they are part of its answer.
- Deaths of the service, re-registrations and lost replies interleaved with other threads: they are part of the sequential runs only.
- Calls on a link are told apart from other nodes that are no regular files only by whether they can be removed and opened.
- Device-type filtering and field conversion in the permission generator; only numbering and the count limit are modelled.
- The command-line tool, the el5 key service, flat parcels and the kit methods that check their arguments and forward the call.
