# Aurora agent: a verified model

A Dafny model of the stateful core of the Aurora agent, the daemon that installs modules on a host,
reports metrics and keeps `/etc/hosts` in step with the admin server. The files follow the program:

- **Operation journal** (`ModuleNames`, `OperationRecords`, `OperationJournal`, `OperationProtocol`, `OperationOnce`,
  `OperationFrozen`, `OperationSafety`): the crash-recoverable record of install, restart and uninstall requests and the
  module locks. The calls are classes that update the file and the lock table in place; the protocol interleaves them step by
  step with failed loads and saves, crashes and restarts.
- **RPC handlers** (`RpcService`, `HandlerExits`, `OperationReplay`): what each exit of a handler leaves behind, and what
  a repeated request is answered, at once and in every later state of a run.
- **Install transaction** (`FileTree`, `CopyTree`, `ServiceCommands`, `Rollback`, `Installers`, `InstallPlan`, `Engine`,
  `InstalledFiles`, `InstallTransaction`, `RollbackLimits`): captures, writes, activation and restore over a file tree in
  which every call may fail.
- **Managed hosts block** (`HostRouting`, `HostSync`): stripping and rebuilding a block inside free text, and the
  hash that decides when to skip.
- **Redaction** (`Redaction`): which request values are secrets and what the replacement loop leaves of a text.
- **Artifact cache** (`ArtifactCache`), **installed modules** (`StateStore`), **metrics** (`MetricRecords`, `MetricsLoop`),
  **admin RPC** (`RpcRecovery`, `CertificateRenewal`).
- `GoStrings`, `Substrings`, `Ordering` and `Outcomes` hold what these share: the string functions of Go's library,
  occurrences of a pattern in a cut text, sorting, and result types.

`dafny verify dfyconfig.toml` checks the whole project.

## Where the code does less than it seems to promise

The lemmas named here give a run or an input that fails and, where the promise holds for some, exactly which.

- `normalizeModuleName` is not idempotent. Over all runs the journal is safe for exactly those names a second normalisation
  keeps or empties (`NameConditionIsExact`). For a name that two normalisations settle and one does not, a settlement gives
  the lock back, but one that is lost lets a second operation in; for a name that two do not settle, every settlement leaves
  its lock behind (`SettlementOnExit`, `NamesOnBothSides`).
- Two exits of `UninstallModule`, after a failed path removal, neither complete nor fail the operation. Its module stays
  blocked until the agent restarts (`WhichExitsSettle`, `AbandonedBlocks`).
- A replayed request is answered from the journal whatever action or module it names (`ReplayIgnoresActionAndModule`,
  `ReplayFitsExactly`), and a failed install with an error that has been redacted once (`FailedInstallAnswersForGood`).
- The rollback restores nested paths in some map orders and not in others (`RestorePair`), and environment, unit and site
  paths are captured trimmed but written as they stand (`RestoreUntrimmed`). A failure before the unit file is captured leaves the
  old service stopped and disabled although nothing of it was touched (`Transact`, `RollbackSettlesService`).
- The hosts block is replaced on every sync exactly when the text around it has no stray marker and no carriage return at
  the end of a line, and no line of the block holds the end marker (`ReplacementIsExact`, `LineConditionIsExact`).
- For fields of one line the hash tells snapshots apart exactly when no host name is another one followed by an equals sign
  and the beginning of an address (`HashIsExact`, `SkipIsExact`). The reader lets newlines inside a field through, and then
  it tells no nonempty set of hosts apart (`NewlinesConfuseHash`, `SkipNeedsOneLine`).
- A secret that can be laid over the text `[REDACTED]` can show in the output (`RedactionIsExact`), and map order shows when
  a secret runs into another of its length (`TieOrderIsExact`).
- A failed install keeps what it did to the artifact cache (`InstallTransaction.InstallModule`). An archive can leave the
  cache before it is unpacked: four fetches of others can take one just stored, one fetch one that was found there
  (`SafeForThreeFetches`, `HitCanBeTaken`).
- Of two overlapping upserts of installed modules the earlier is lost (`OverlapLosesUpdate`).
- A shrinking CPU column wraps the host's CPU share (`ShrinkingColumnWraps`); counter growth between samples with the same
  time stamp is lost (`AccountingIsExact`); a policy interval whose nanoseconds wrap to a duration that is not positive keeps
  the metrics loop from starting, one that wraps to a positive duration starts it with a wrong period
  (`PolicyStartsExactly`, `LongIntervalsWrap`).
- A due certificate renewal makes its RPC while it holds the lock that every RPC asks for first: it waits for itself for
  ever, and every later RPC of the client waits with it (`DueRenewalSelfLocks`, `SelfLockIsForEver`).

## Model

| member | source | states |
|---|---|---|
| ModuleNames.StableIffCleanEnds | internal/agent/install/policy.go:152-157 | normalising a module name twice is the same as once exactly when the normalised name has no whitespace at either end; otherwise the next round is strictly shorter |
| ModuleNames.PlainNamesAreStable | internal/agent/install/policy.go:152-157 | names whose only whitespace is the space character need one normalisation only |
| ModuleNames.TabBehindDashIsUnstable | internal/agent/install/policy.go:152-157 | a concrete name on which normalisation is not idempotent |
| ModuleNames.NormalForm | internal/agent/install/policy.go:152-157 | a normalised name has no capital, no blank and no underscore, and no dash or slash at either end |
| ModuleNames.SpellingsAgree | internal/agent/install/policy.go:152-157 | two names that differ only in capitals and in a blank or an underscore for a dash have one normal form |
| ModuleNames.PlainNameKept | internal/agent/install/policy.go:152-157 | a name of letters, digits, inner dashes and slashes without capitals is its own normal form |
| ModuleNames.OuterDashesGo | internal/agent/install/policy.go:152-157 | dashes and slashes around a name do not count |
| ModuleNames.OuterSpaceGoes | internal/agent/install/policy.go:152-157 | nor does whitespace around it |
| OperationRecords.NormalizeRecordSettles | internal/agent/install/operation_journal.go:271-319 | one normalisation settles a journal record exactly when its module name is stable |
| OperationRecords.NormalizeHealthIdempotent | internal/agent/install/state_store.go:161-176 | health words are normalised once and for all and are never blank |
| OperationRecords.SettledIsCanonical | internal/agent/install/operation_journal.go:169-223 | completing or failing a normalised record gives a normalised record |
| OperationRecords.ResavedKeeps | internal/agent/install/operation_journal.go:233-319 | a load and a save keep action, status, stage and times of a record, only trim its texts, and keep a tidy record as it is |
| OperationRecords.HealthWords | internal/agent/install/state_store.go:161-176 | which health a text stands for: the five words in any capitals, unknown for a blank, and any other text trimmed |
| OperationRecords.RewriteNoted | internal/agent/install/operation_journal.go:146-223 | field by field what a rewrite through a handle leaves in the file: the noted stage and its time, a completion with its result at the last stage, or a failure with its trimmed text at the stage reached; every other record is only saved again |
| OperationRecords.RestartNoted | internal/agent/install/operation_journal.go:61-85 | what ran is interrupted with the restart text unless it had an error, with both times set; every other record is only saved again |
| OperationRecords.GrantIsExact | internal/agent/install/operation_journal.go:87-144 | in every state: a begin is granted exactly to a named module and request, with a working load and save, an unknown request id, no running record of the module and no lock of another request |
| OperationRecords.AnswerIsExact | internal/agent/install/operation_journal.go:87-144 | in every state: exactly which of the nine answers a begin gets, the first reason in the order of the code |
| OperationRecords.GrantNoted | internal/agent/install/operation_journal.go:128-143 | a granted begin appends one running record at the first stage and takes the lock under the twice normalised name, and saves the rest again |
| OperationRecords.NoGrantNoTrace | internal/agent/install/operation_journal.go:87-141 | a begin that is not granted leaves the file and every lock of another request |
| OperationJournal.OperationJournal.InitializeRuntimeState | internal/agent/install/operation_journal.go:61-85 | startup interrupts exactly the running records, reports a failed load or save, and leaves the file alone when nothing was running or the save failed |
| OperationJournal.OperationJournal.BeginOperation | internal/agent/install/operation_journal.go:87-144 | the call returns a handle, a replayed record or a refusal, and changes file and locks, as its specification on values says, for every load and save outcome |
| OperationJournal.OperationJournal.AcquireModuleLock | internal/agent/install/operation_journal.go:321-333 | a module lock is refused only while another request holds it; the same request may enter again |
| OperationJournal.OperationJournal.ReleaseModuleLock | internal/agent/install/operation_journal.go:335-345 | only the request that holds a module lock gives it back |
| OperationJournal.OperationHandle.UpdateStage | internal/agent/install/operation_journal.go:146-167 | with a working load and save the handle's record in the file has the new stage and time and keeps every other field, and every other record is only saved again; an inactive handle does nothing, and a failed load or save changes no file |
| OperationJournal.OperationHandle.Complete | internal/agent/install/operation_journal.go:169-196 | completion leaves the record completed at the last stage with its result and both times when load and save work, and deactivates the handle and gives the lock back whatever they do |
| OperationJournal.OperationHandle.Fail | internal/agent/install/operation_journal.go:198-223 | failure leaves the record failed at the stage it had reached with the trimmed text and both times, and deactivates and releases in the same way |
| OperationJournal.OperationJournal.Load | internal/agent/install/operation_journal.go:233-252 | a load returns the normalised records or nothing |
| OperationJournal.OperationJournal.Save | internal/agent/install/operation_journal.go:254-269 | a save replaces the file by the normalised records or leaves it alone |
| OperationProtocol.StepKeepsInv | internal/agent/install/operation_journal.go:87-231 | every step of every goroutine, a crash and a restart keep the protocol invariant: an active handle has its unique running record and its lock entry |
| OperationProtocol.RunKeepsInv | internal/agent/install/operation_journal.go:61-231 | the invariant holds in every state of every run |
| OperationSafety.MutualExclusion | internal/agent/install/operation_journal.go:104-125 | in no reachable state do two goroutines hold one module, or two running records name it, or a lock outlive its goroutine, the window between the terminal write and the release included |
| OperationSafety.NameConditionIsExact | internal/agent/install/operation_journal.go:87-144 | exactly which module names are safe over all runs: those a second normalisation keeps or empties |
| OperationSafety.IncoherentNameGoesWrong | internal/agent/install/operation_journal.go:321-345 | for every other name, a run that leaves a lock behind or two running records |
| OperationOnce.AtMostOnce | internal/agent/install/operation_journal.go:100-143 | over every interleaving of requests, failed loads and saves, crashes and restarts, no request id is granted a handle twice and every granted id stays in the journal |
| OperationFrozen.StepKeepsFrozen | internal/agent/install/operation_journal.go:61-231 | every step keeps: an unsettled handle has its own running record, and nobody else settles it |
| OperationFrozen.RecordsOnlyRipen | internal/agent/install/operation_journal.go:61-231 | for every module name and over every run: records are never removed, keep request, action and start, and once settled keep status, result, error and times, whatever interleaves, fails, crashes or restarts |
| OperationSafety.TerminalRecordsFrozen | internal/agent/install/operation_journal.go:71-80 | over coherent names a settled record keeps every field, the module name included, and a running one its operation |
| OperationSafety.SettlementFreesModule | internal/agent/install/operation_journal.go:169-231 | over coherent names a settlement always gives the lock back, and frees the module in the journal exactly when its write reached the file |
| OperationSafety.QuietBegin | internal/agent/install/operation_journal.go:87-144 | with nobody inside a request, a begin is granted exactly to a named module without a running record for an unknown request id |
| OperationSafety.RestartFreesEverything | internal/agent/install/operation_journal.go:61-85 | after a crash and a successful restart every module can be begun again |
| OperationSafety.AbandonedBlocks | internal/agent/install/rpc_service.go:561-598 | a handle that is neither completed nor failed keeps its module locked and busy through every step but a crash |
| OperationSafety.StepsRefineCall | internal/agent/install/operation_journal.go:87-144 | left alone, the protocol's steps compute what the call is specified to compute |
| RpcService.InstallModule | internal/agent/install/rpc_service.go:13-76 | the unary install handler: behind a fresh begin success exactly if the engine came back without an error, with its result, and otherwise its error redacted once more; a refusal in its wording and a replay from the journal; and what it leaves in the journal |
| RpcService.InstallModuleStream | internal/agent/install/rpc_service.go:78-160 | the stream handler leaves the same journal and locks; behind a fresh begin it sends a log line a stage and then the result or the redacted error |
| RpcService.RunInstall | internal/agent/install/rpc_service.go:51-68 | behind a fresh begin the handle sees the engine's stages and then exactly one settlement |
| RpcService.RefusalWords | internal/agent/install/operation_journal.go:87-141 | how each refusal of a begin is worded |
| RpcService.VersionsServed | internal/agent/install/engine.go:549-555 | no version or the one there is, with space around or not |
| RpcService.RestartModule | internal/agent/install/rpc_service.go:224-422 | the restart handler: behind a fresh begin success exactly if the module may be restarted, the service is named, and restart and health check worked; otherwise the text of the first of these that failed |
| RpcService.UninstallModule | internal/agent/install/rpc_service.go:423-654 | the uninstall handler: behind a fresh begin success exactly if the module may be uninstalled, the service is named, and unit removal, reload, every path removal and for a named site nginx worked; otherwise the text of the first of these that failed |
| HandlerExits.SettlementOnExit | internal/agent/install/operation_journal.go:87-231 | for every module name, after a fresh begin: the handle is inactive exactly if one of the handler's calls settles it, and the lock is gone exactly if, besides, two normalisations settle the name, whatever loads and saves fail |
| HandlerExits.NamesOnBothSides | internal/agent/install/operation_journal.go:321-345 | a name that is not stable and yet gives its lock back, and one whose lock no settlement gives back |
| HandlerExits.WhichExitsSettle | internal/agent/install/rpc_service.go:512-646 | every exit of install, stream install and restart settles; an exit of uninstall settles exactly unless a path removal failed |
| HandlerExits.InstallRecorded | internal/agent/install/rpc_service.go:51-76 | when the settling load and save work, the record is completed with the engine's result exactly if there is one, and otherwise failed with the engine's error, at the last stage reported |
| HandlerExits.RestartRecorded | internal/agent/install/rpc_service.go:252-421 | when the settling load and save work, the record is completed exactly if the answer is a success, and otherwise failed with the text of the answer, at the stage the restart had reached |
| HandlerExits.UninstallRecorded | internal/agent/install/rpc_service.go:451-654 | the same for uninstall, but for a failed path removal: its text is answered and the record keeps running |
| HandlerExits.ReplayIgnoresActionAndModule | internal/agent/install/operation_journal.go:104-116 | a settled request id is answered from the journal whatever action and module the new request names |
| HandlerExits.ReplayFitsExactly | internal/agent/install/operation_journal.go:104-116 | for every first name: if two normalisations settle it, the replayed record is one of the requested action and module exactly if the repeated request names that action and the settled name, otherwise the journal knows the module by a shorter name; the same request again gets its own record exactly if its name is stable |
| HandlerExits.InstallThenReplay | internal/agent/install/rpc_service.go:718-735 | for every module name a successful install whose completion was saved is answered the same way again, from that journal and every journal it ripens to, on every field the journal keeps |
| HandlerExits.RestartThenReplay | internal/agent/install/rpc_service.go:737-752 | a successful restart whose completion was saved is answered the same way again, from that journal and every journal it ripens to, whatever service the repeated request names |
| HandlerExits.UninstallThenReplay | internal/agent/install/rpc_service.go:754-769 | the same for uninstall |
| OperationReplay.OutcomeAnswersForGood | internal/agent/install/operation_journal.go:104-116 | once a completion or a failure is saved, every later begin with its request id is a replay of that outcome, whatever other requests, failures, crashes and restarts the run has seen |
| OperationReplay.InstallAnswersForGood | internal/agent/install/rpc_service.go:718-735 | in every later state of every run an install whose completion was saved is answered as the first time |
| OperationReplay.ServiceAnswersForGood | internal/agent/install/rpc_service.go:737-769 | the same for restart and uninstall |
| OperationReplay.FailedInstallAnswersForGood | internal/agent/install/rpc_service.go:57-62 | a failed install is answered in every later state with the error the journal keeps, which is the first answer exactly if the second redaction only trims it |
| OperationReplay.FailedServiceAnswersForGood | internal/agent/install/rpc_service.go:737-769 | a failed restart or uninstall is answered for the same service as the first time, in every later state |
| OperationReplay.InterruptionAnswersForGood | internal/agent/install/operation_journal.go:61-116 | a request that a restart has interrupted is told so in every later state |
| HandlerExits.SettlementStays | internal/agent/install/operation_journal.go:169-223 | a settlement whose load and save work is in the journal for good, whatever the handler does after it |
| HandlerExits.InstallAnswerSurvives | internal/agent/install/rpc_service.go:718-735 | an install answer survives being stored and normalised |
| CopyTree.CopyFile | internal/agent/install/rollback.go:145-163 | a copied file stands at the destination, nothing else changes but missing directories, and a failed copy changes nothing outside the destination |
| CopyTree.CopyDir | internal/agent/install/rollback.go:165-196 | the walk lays exactly the source subtree over the destination, for any parents-first order, and cannot fail without a failing call when the destination is free |
| CopyTree.CopyReproduces | internal/agent/install/rollback.go:165-196 | copying to a free place reproduces the subtree there |
| Rollback.DecimalInjective | internal/agent/install/rollback.go:54 | backup numbers have distinct names |
| Rollback.SlotsApart | internal/agent/install/rollback.go:54 | no backup place lies at or inside another |
| Rollback.InstallRollback.Capture | internal/agent/install/rollback.go:32-73 | a capture records the subtree as it stands, in its own numbered place; the first capture of a path wins; a failed one records nothing |
| Rollback.BackupJoins | internal/agent/install/rollback.go:66-71 | a new backup leaves all earlier ones as they are |
| Rollback.WritesKeepWriteAhead | internal/agent/install/rollback.go:40-72 | writes outside the rollback directory keep every backup |
| Rollback.InstallRollback.RestoreEntry | internal/agent/install/rollback.go:86-110 | one round of the restore loop: without an error the subtree is back, and with working calls there is no error |
| Rollback.InstallRollback.RestoreFiles | internal/agent/install/rollback.go:86-111 | in any map order, every entry that contributed no error is restored exactly, whatever the others did |
| Rollback.InstallRollback.Restore | internal/agent/install/rollback.go:75-143 | the whole rollback: commands issued, paths restored, and nil returned exactly when no path and no reported command failed |
| Rollback.RestoreOrderIrrelevant | internal/agent/install/rollback.go:86-111 | two error-free restores of the same state in different orders give the same tree |
| ServiceCommands.RollbackSettlesService | internal/agent/install/rollback.go:112-128 | whatever state the service was in, the rollback's commands, when they work, leave it enabled and running exactly if its unit file was captured, existed and was brought back, and stopped and disabled otherwise |
| ServiceCommands.ActivateActivates | internal/agent/install/engine.go:215-238 | a whole activation reads the unit files, enables and restarts the service, tests nginx before it reloads it and checks the health last; it leaves the service enabled and running whatever it was before |
| ServiceCommands.RollbackRolls | internal/agent/install/rollback.go:75-143 | the commands of a rollback in order, nginx reloaded exactly if its test works, and which of them report a failure |
| ServiceCommands.UnnamedRollback | internal/agent/install/rollback.go:75-143 | without a service name only the unit files are read again and nginx reloaded |
| ServiceCommands.LastRunDecides | internal/agent/install/rollback.go:80-127 | of stopping and restarting the last decides whether the service runs |
| ServiceCommands.LastEnableDecides | internal/agent/install/rollback.go:112-127 | of enabling and disabling the last decides whether it is enabled |
| FileTree.ResolvePlain | internal/agent/install/engine.go:311-320 | an absolute path of plain names leads through just these names |
| FileTree.ResolveSteps | internal/agent/install/engine.go:311-320 | two dots step back from any path; one dot and a closing slash change nothing |
| InstallPlan.BundlePathPlain | internal/agent/install/engine.go:175-189 | a plain name in the bundle stands below it under its own components |
| Installers.WriteInlineFiles | internal/agent/install/engine.go:393-407 | in any map order, every inline file has its content afterwards when no two of them meet; with working calls and free ways it succeeds |
| Installers.InstallBinary | internal/agent/install/engine.go:311-351 | the target has the source's content with nothing else changed, or nothing outside it changed but a temporary file that could not be removed; with working calls and a free way it succeeds |
| Installers.InstallArtifactPath | internal/agent/install/engine.go:353-379 | the asset's subtree stands at its install path, a directory replacing what was there; with working calls and a free way it succeeds |
| Installers.WritePlain | internal/agent/install/render.go:13-69 | environment and template files: the directory is made, the file has its text, and nothing but a failing call or an obstacle at the path stops it |
| InstallPlan.CaptureGoesOn | internal/agent/install/engine.go:153-213 | a capture of a planned path keeps every backup a description of the tree before the install |
| InstallPlan.WriteGoesOn | internal/agent/install/engine.go:153-213 | a write inside captured paths keeps all backups, the unpacked bundle and everything written elsewhere |
| InstallPlan.StrayStaysGuarded | internal/agent/install/engine.go:327-350 | a temporary file left beside the binary harms no backup and no captured entry |
| Engine.WriteRuntime | internal/agent/install/engine.go:153-213 | after any prefix of captures and writes the state can be rolled back; after the whole pipeline every file is in place; with nothing in the way of a path and working calls it succeeds; before the unit file only early paths are captured |
| InstalledFiles.PlacedIsInstalled | internal/agent/install/engine.go:153-213 | after the pipeline the site, the unit file, each asset, the binary, the environment file and each inline file stand at their own paths with their own content, a path that two steps write holding the later one's |
| InstallPlan.StillFree | internal/agent/install/engine.go:153-213 | at a path that no capture has taken yet the tree is still the one before the install |
| InstallPlan.SmallInstall | internal/agent/install/engine.go:153-213 | an install that nothing is in the way of: a binary and a unit file into an otherwise empty tree |
| InstallTransaction.RollbackUndoes | internal/agent/install/engine.go:98-106 | a restore without errors gives back the subtree at every captured path, and outside captured paths only missing directories on the way to them are new |
| InstallTransaction.Activate | internal/agent/install/engine.go:215-238 | on success a whole activation has run and all its commands worked; otherwise it stopped at the first that failed; it succeeds if its commands work |
| InstallTransaction.Transact | internal/agent/install/engine.go:98-238 | success means a whole activation whose commands all worked and every file in place; failure means no activation or one cut short at the first failing command, then the rollback's commands and a tree undone without errors or entry by entry; with nothing in the way, a working disk and working commands it succeeds |
| InstallTransaction.InstallModule | internal/agent/install/engine.go:64-258 | the transaction from work directory to cleanup: a finished install has run a whole activation and left every file in place, a failed one leaves the tree outside the artifact cache as it was; it succeeds when the artifact is delivered, nothing is in the way and disk and commands work; a failure before the unit file is reached does not bring the service back |
| RollbackLimits.RestorePair | internal/agent/install/rollback.go:86-111 | on a disk that never fails: capture one path, write, capture another, restore both; what was written stays exactly when one path lies inside the other and the later capture is restored last |
| RollbackLimits.RestoreUntrimmed | internal/agent/install/render.go:38-69 | an untrimmed environment, unit or site path is undone exactly when it resolves inside the trimmed path that was captured |
| RollbackLimits.TrailingSpaceIsUncovered | internal/agent/install/engine.go:164-171 | a concrete path for which it does not |
| HostRouting.FirstSync | internal/adminrpc/host_routing.go:143-156 | a file that never held the block keeps its text without the newlines at its end, then a blank line and the block |
| HostRouting.SecondSyncReplaces | internal/adminrpc/host_routing.go:116-178 | a second snapshot replaces the first one's block and keeps the unmanaged text in front of it, when no marker and no carriage return at a line's end is left in that text and no line of the first block holds the end marker |
| HostRouting.ReplacementIsExact | internal/adminrpc/host_routing.go:116-178 | for every hosts file: that holds for all first snapshots without the end marker in a line, and all second ones, exactly when, with the managed block taken out, no marker is left and no carriage return ends a line |
| HostRouting.LineConditionIsExact | internal/adminrpc/host_routing.go:116-178 | in such a file the lines of a first snapshot are replaced by every second one exactly when none of them holds the end marker |
| HostSync.TextAroundBlockKept | internal/adminrpc/host_routing.go:165-178 | text before and after a block without an inner end marker is kept, in order, with its line ends normalised |
| HostSync.MarkersAreGood | internal/adminrpc/host_routing.go:116-152 | the two marker constants have what the law needs |
| HostSync.ReadEntries | internal/adminrpc/host_routing.go:75-93 | entries are read in order, trimmed, without nil and blank ones |
| HostSync.BuildBlock | internal/adminrpc/host_routing.go:121-140 | the block is the two markers around one line an entry |
| HostSync.ItemCounts | internal/adminrpc/host_routing.go:75-93 | an item counts exactly if it is there and has a host and an address, trimmed, and keeps its place |
| HostSync.LinesAreEntries | internal/adminrpc/host_routing.go:121-140 | a line is in the block exactly if it is the address and the host of an entry that counts |
| HostSync.LinesInOrder | internal/adminrpc/host_routing.go:121-140 | the block lists all entries read, by host and then by address |
| HostSync.OrderDoesNotMatter | internal/adminrpc/host_routing.go:95-140 | block and hash text depend on the snapshot as a multiset only |
| HostSync.EqualHashEqualBlock | internal/adminrpc/host_routing.go:58-114 | for hosts and addresses without newlines, over hosts that tell apart, equal hash texts mean equal entries and equal blocks, although hash and block sort by different keys |
| HostSync.HashIsExact | internal/adminrpc/host_routing.go:95-140 | for hosts and addresses without newlines: an equal hash means an equal block for all snapshots over a set of hosts exactly when no host is another one followed by an equals sign and nothing or a text without whitespace in front |
| HostSync.NewlinesConfuseHash | internal/adminrpc/host_routing.go:75-114 | with addresses as they are read, inner newlines included, the hash tells blocks apart for no set of hosts but the empty one |
| HostSync.EqualsSignConfusesHash | internal/adminrpc/host_routing.go:95-114 | a concrete pair of snapshots that share a hash but not a block |
| HostSync.HostsClient.SyncSnapshot | internal/adminrpc/host_routing.go:36-73 | one sync: skip on an equal hash, otherwise rewrite and remember, nothing remembered when the read or the write fails |
| HostSync.HostsClient.MaybeSync | internal/adminrpc/host_routing.go:19-73 | at most one sync a minute, the failed ones counted; a snapshot that could not be fetched is an error and changes nothing |
| HostSync.SkipRefinesPlain | internal/adminrpc/host_routing.go:58-72 | for one-line fields, over hosts that tell apart and every run of snapshots and failed writes, skipping is invisible in a settled file exactly when the unmanaged text does not begin with newlines |
| HostSync.SkipIsExact | internal/adminrpc/host_routing.go:58-178 | for one-line fields, every hosts file and every nonempty set of hosts without a number sign: skipping is invisible over all runs of blocks without an inner end marker exactly when the file is settled without newlines in front and the hosts tell apart |
| HostSync.SkipNeedsOneLine | internal/adminrpc/host_routing.go:58-114 | when addresses may hold newlines, some skip shows in every hosts file as soon as there is a host |
| Redaction.Gather | internal/agent/install/redaction.go:31-62 | one gathering loop: each sensitive nonblank value once, in any map order |
| Redaction.CollectSecrets | internal/agent/install/redaction.go:27-72 | the collected list holds exactly the secrets of the request, each once, longest first |
| Redaction.RedactInstallText | internal/agent/install/redaction.go:11-25 | a text that no secret of the request occurs in is only trimmed and rewritten by the PEM pass, and a request without secrets changes no text; if no secret can be laid over the marker, the answer is the text with secrets cut out and a marker in the place of each |
| Redaction.SecretNeverShown | internal/agent/install/redaction.go:17-24 | no output holds a collected secret that cannot be laid over the marker, through every pass, the PEM rewrite and the final trim |
| Redaction.RedactionIsExact | internal/agent/install/redaction.go:11-72 | a secret without PEM material is safe in every request and text exactly when it cannot be laid over the marker |
| Redaction.BracketFreeIsExact | internal/agent/install/redaction.go:11-72 | for a secret without brackets: exactly when it is no part of the word in the marker |
| Redaction.LoopIdempotent | internal/agent/install/redaction.go:18-23 | running the replacement loop again changes nothing |
| Redaction.ReplacingKeepsTheRest | internal/agent/install/redaction.go:22 | a replacement keeps every character outside the replaced occurrences, in order |
| Redaction.LoopCutsSecrets | internal/agent/install/redaction.go:18-23 | all passes together: when no secret can be laid over the marker, the loop cuts secrets out of the text and puts a marker in the place of each, and every other character stays in its place |
| Redaction.SensitiveKeys | internal/agent/install/redaction.go:74-96 | a key is sensitive exactly if one of the nine words occurs in it, in any capitals |
| Redaction.SensitiveValues | internal/agent/install/redaction.go:98-110 | a value is sensitive exactly if it holds a PEM header or has 32 characters or more and none of blank, tab and line end |
| Redaction.SecretsAreExact | internal/agent/install/redaction.go:31-60 | the secrets are the trimmed nonblank values under sensitive keys and the sensitive ones under any key |
| Redaction.TieOrderShows | internal/agent/install/redaction.go:62-71 | a request for which the order of equally long secrets, which is map order, shows in the output |
| Redaction.TieOrderIsExact | internal/agent/install/redaction.go:18-71 | for two equally long secrets that cannot be laid over the marker, map order shows in no text exactly when no ending of either is a beginning of the other |
| Redaction.MapOrderDoesNotShow | internal/agent/install/redaction.go:18-71 | for a whole request: when no two equally long secrets run into each other and none can be laid over the marker, every map order gives the same output |
| ArtifactCache.EvictionIsExact | internal/agent/install/artifact_cache.go:133-141 | the loop removes exactly the files it can remove while the older unremovable bytes and the rest still exceed the limit |
| ArtifactCache.ShortestPrefix | internal/agent/install/artifact_cache.go:133-141 | when every removal works it removes the shortest oldest-first prefix that brings the total within the limit |
| ArtifactCache.LimitHoldsUnlessStuck | internal/agent/install/artifact_cache.go:133-141 | it ends within the limit or with nothing left that it can remove |
| ArtifactCache.NewestSurvives | internal/agent/install/artifact_cache.go:124-141 | the newest file stays exactly when it cannot be removed or fits beside the older ones that cannot |
| ArtifactCache.ArtifactCache.ListFiles | internal/agent/install/artifact_cache.go:104-119 | the listing holds each readable file once and the total is the sum of their sizes |
| ArtifactCache.ArtifactCache.EvictLoop | internal/agent/install/artifact_cache.go:133-141 | after the loop exactly the listed files that do not survive are gone |
| ArtifactCache.ArtifactCache.PruneArtifactCache | internal/agent/install/artifact_cache.go:92-143 | pruning a directory: oldest first, unlisted files untouched, an unreadable directory reported |
| ArtifactCache.ArtifactCache.StoreDownload | internal/agent/install/artifact_cache.go:47-63 | a download is stored exactly if the temporary file can be made, the body is small enough and verifies, and the file can be moved; otherwise at most the temporary file is left |
| ArtifactCache.ArtifactCache.EnsureArtifactAvailable | internal/agent/install/artifact_cache.go:27-68 | a cached answer exactly if checksum and directory are fine and the file is there and verifies, with the directory unchanged; a fresh one exactly if there is no such file, the download is stored and the listing works or there is no limit; an error leaves every other file alone |
| ArtifactCache.NewFileSurvives | internal/agent/install/artifact_cache.go:55-67 | the file just stored is still there after pruning exactly when it is unlisted, unremovable, or fits beside the unremovable older bytes |
| ArtifactCache.FetchedFileExists | internal/agent/install/artifact.go:59-69 | with the default limits and working removals a fetch succeeds exactly on a hit or a download that can be stored, and the returned path exists and verifies at the moment of return, since a download is at most a quarter of the cache |
| ArtifactCache.SafeForThreeFetches | internal/agent/install/artifact_cache.go:27-143 | once the cache lock is given back, the file just stored outlives every n fetches of other paths exactly for n up to three, with the default limits and working listings and removals |
| ArtifactCache.HitCanBeTaken | internal/agent/install/artifact_cache.go:33-45 | a file answered from the cache can be taken by the very next fetch |
| ArtifactCache.SameKeySameVerdict | internal/agent/install/artifact_cache.go:84-90 | all spellings of a checksum that share a cache path accept the same files |
| ArtifactCache.VerifiesExactly | internal/agent/install/artifact.go:73-97 | a digest verifies exactly if it is the normalised checksum, but for capitals |
| ArtifactCache.ChecksumSpellings | internal/agent/install/artifact_cache.go:84-90 | with or without the prefix, in capitals or not, a checksum means the same digest |
| StateStore.NormalizeSettles | internal/agent/install/state_store.go:119-140 | a record is settled after two normalisations, after one exactly if its API version is supported, and keeps its key |
| StateStore.NormalizedFields | internal/agent/install/state_store.go:119-140 | field by field what normalising a record keeps, trims and fills in |
| StateStore.StatusWords | internal/agent/install/state_store.go:146-159 | the words a status may be written in |
| StateStore.PathsKept | internal/agent/install/state_store.go:178-200 | the asset paths kept are the trimmed nonblank ones, each at its first place |
| StateStore.KeyTellsApart | internal/agent/install/state_store.go:142-144 | the keys under two runtimes tell all modules apart exactly when neither trimmed runtime shadows the other, that is, ends in the separator and the other with nothing or a character that can end a name in front |
| StateStore.SameKeySameModule | internal/agent/install/state_store.go:142-144 | under runtimes without the separator two keys are equal exactly when trimmed module and runtime are, whatever the names hold |
| StateStore.ProgramKeys | internal/agent/install/rpc_service.go:189-207 | with the one runtime the program passes, two keys are equal exactly when the trimmed module names are |
| StateStore.Store.UpsertInstalledModule | internal/agent/install/state_store.go:45-63 | an upsert is a map update under the record's key with the settled record; a failed read or write changes nothing |
| StateStore.Store.RemoveInstalledModule | internal/agent/install/state_store.go:65-79 | a removal is a map removal |
| StateStore.Compact | internal/agent/install/state_store.go:71-78 | the in-place compaction keeps exactly the other records, in order |
| StateStore.Store.GetInstalledModule | internal/agent/install/state_store.go:29-43 | a lookup is a map lookup |
| StateStore.Store.ListInstalledModules | internal/agent/install/state_store.go:15-27 | the list holds exactly the stored records, by module and then by runtime |
| StateStore.OverlapLosesUpdate | internal/agent/install/state_store.go:45-63 | two upserts for different modules that both read before either writes lose the earlier one, unless the store held it before |
| MetricRecords.CpuShareIsExact | internal/agent/basic_metrics_loop.go:171-176 | the host CPU share lies in 0..100 exactly when the idle time grew by no more than the total |
| MetricRecords.GrowingColumnsGiveAShare | internal/system/cpu.go:73-75 | columns that never decrease and sums that do not overflow give a share in 0..100 |
| MetricRecords.CpuShareIsBusyTime | internal/agent/basic_metrics_loop.go:171-176 | of columns that never decrease the share is the growth of all but the idle one in hundredths of the growth of all |
| MetricRecords.ShrinkingColumnWraps | internal/agent/basic_metrics_loop.go:171-176 | a shrinking column makes the unsigned subtraction wrap and the share leave the range |
| MetricRecords.RatesAccount | internal/agent/basic_metrics_loop.go:178-181 | rate times elapsed time over a run is last minus first plus all drops minus what grew while the clock stood |
| MetricRecords.AccountingIsExact | internal/agent/basic_metrics_loop.go:162-181 | nothing is missing exactly when the counter never grew while the clock stood |
| MetricRecords.HostRecordsAccount | internal/agent/basic_metrics_loop.go:162-181 | the records computed from any run of host samples satisfy that identity for each of the four disk and network counters |
| MetricRecords.ComputeServiceMetricRecords | internal/agent/basic_metrics_loop.go:185-239 | one record a snapshot against the last counters of its service, and the counters of this round only for the next |
| MetricRecords.GapForgetsService | internal/agent/basic_metrics_loop.go:185-239 | a service missing from one round has no rates in the next |
| MetricRecords.ServiceRecordsAccount | internal/agent/basic_metrics_loop.go:207-219 | the records of a service over rounds that all report it account for the whole growth of each of its four counters, each in its own column |
| MetricRecords.ServiceCpuShare | internal/agent/basic_metrics_loop.go:209-222 | the CPU share of a service is the time it ran in hundredths of what all cores had, and never more than all of it |
| MetricRecords.RecordAgainstLastRound | internal/agent/basic_metrics_loop.go:199-236 | a service's record is computed against its own counters of the round before |
| MetricRecords.NextIsLast | internal/agent/basic_metrics_loop.go:226-233 | of a service that a round reports more than once the last snapshot counts in the next |
| MetricRecords.NoTimeNoRates | internal/agent/basic_metrics_loop.go:162-169 | without an earlier sample, or with one that is not older, every rate is zero |
| MetricsLoop.DurationIsExact | internal/adminrpc/rpc.go:218-223 | a policy interval is kept exactly up to the seconds an int64 duration holds |
| MetricsLoop.LoadedValues | internal/adminrpc/rpc.go:64-83 | the policy of a response: its seconds where they fit, and the defaults where it names none |
| MetricsLoop.PolicyStartsExactly | internal/agent/basic_metrics_loop.go:39-47 | a policy response starts both tickers exactly when its flush interval and the sampling interval in use are absent or have a product that wraps to a positive duration |
| MetricsLoop.LongIntervalsWrap | internal/adminrpc/rpc.go:218-223 | one second too many keeps the loop from starting; a longer interval wraps to a period below a second and starts it |
| MetricsLoop.Loop.Handle | internal/agent/basic_metrics_loop.go:84-141 | one wake-up of the loop: policy, sample or flush |
| MetricsLoop.Loop.RunUntilCancelled | internal/agent/basic_metrics_loop.go:84-143 | the whole loop up to the flush at cancellation |
| MetricsLoop.RecordsConserved | internal/agent/basic_metrics_loop.go:73-142 | accepted batches followed by the pending one are exactly the records sampled in batch mode, in order, under refused reports and policy changes |
| MetricsLoop.StreamIsExact | internal/agent/basic_metrics_loop.go:118-131 | over every run the records streamed are those sampled while streaming whose report was accepted, in order |
| MetricsLoop.DeliveryIsExact | internal/agent/basic_metrics_loop.go:73-142 | a batch is delivered exactly when it is due in batch mode and the server takes it; then all of it goes, and otherwise all stays |
| MetricsLoop.CancelledDelivers | internal/agent/basic_metrics_loop.go:84-90 | cancellation delivers all that is pending, if the server takes it |
| MetricsLoop.BatchBelowMax | internal/agent/basic_metrics_loop.go:132-135 | with one positive maximum and no refused report the pending batch stays below it |
| MetricsLoop.RefusalReachesMax | internal/agent/basic_metrics_loop.go:77-81 | one refused report is enough to reach it |
| RpcRecovery.AdminClient.InvokeWithRecovery | internal/adminrpc/rpc.go:148-216 | the calls, dials and rotation made and the result returned are those of the recovery automaton; after a success there is a connection |
| RpcRecovery.RecoveryConforms | internal/adminrpc/rpc.go:161-215 | at most three calls and one rotation; nil exactly when the last act is a call that succeeded; a retry needs a recoverable error and a rotation an eligible second one |
| RpcRecovery.RecoveryTriesOn | internal/adminrpc/rpc.go:172-213 | with a connection, or behind an opening dial that works, a call is made at once; the second and third call are made exactly when the errors, dials and the rotation allow them |
| RpcRecovery.ErrorClasses | internal/adminrpc/renew.go:157-187 | which errors are retried and which call for a rotation |
| CertificateRenewal.RenewalInTime | internal/adminrpc/renew.go:35-42 | not due means both certificates have more than six hours, due means one has at most seventy-two |
| CertificateRenewal.WindowIsAFifth | internal/adminrpc/renew.go:139-155 | the renewal window is a fifth of the lifetime between 6 and 72 hours, and 24 hours without a lifetime |
| CertificateRenewal.DueIsExact | internal/adminrpc/renew.go:35-42 | renewal is due exactly from the window before the first of the two ends on |
| CertificateRenewal.CheckRuns | internal/adminrpc/renew.go:22-25 | a check runs and is stamped unless less than a minute has passed since the last one that did |
| CertificateRenewal.RunKeepsInv | internal/adminrpc/renew.go:20-51 | over all interleavings the lock has one holder and nobody gets past a nested request for it |
| CertificateRenewal.DueRenewalSelfLocks | internal/adminrpc/renew.go:51-72 | every due renewal whose keys could be made waits for the lock it holds with its very next call |
| CertificateRenewal.SelfLockIsForEver | internal/adminrpc/renew.go:20-21 | from then on that thread waits in every run, no check is made again, and no thread that is not past the check makes another call |
| CertificateRenewal.FourStepsToSelfLock | internal/adminrpc/rpc.go:158 | four steps of one thread reach that state |
| CertificateRenewal.ChecksAreSpaced | internal/adminrpc/renew.go:18-25 | two unthrottled checks lie at least the check interval apart in every interleaving |
| CertificateRenewal.StampWouldStopNesting | internal/adminrpc/renew.go:22-25 | the stamp would stop the recursion exactly within the interval, if only the lock were not held |

## Left out

- InstallTransaction.InstallModule: the journal file, which the log callback rewrites during the run, and the audit log are outside the modelled tree. The success it promises is for targets that no two writes share; with shared ones it says which content wins after a success.
- InstallTransaction.Transact: the error texts and the log lines of the rollback are not modelled, only whether it returned nil.
- InstallTransaction.UseCache: what the install leaves in the artifact cache is arbitrary here; `ArtifactCache` says what it is.
- OperationRecords.NormalizeRecordSettles: blank time stamps, which a load replaces by the current time, and the constant runtime are not modelled; a foreign status word is kept, as in the code.
- RpcService.InstallModule: log lines and the fields of the answer that do not come from journal, request or engine result are not modelled, and the texts of failed loads, saves and commands are given.
- CopyTree.CopyDir: file modes and symbolic links are not modelled, and source and destination are assumed apart, as in all its uses.
- ArtifactCache.ArtifactCache.PruneArtifactCache: a file that vanishes between listing and sorting is not modelled; a removal of a missing file counts as a removal, as in the code.
- MetricsLoop.Loop.Handle: GPU and memory fields are copied by the code and left out of the record, and the resets of the tickers after a policy change are not modelled.
- MetricsLoop.PolicyStartsExactly: says when the tickers start; the batch buffer the code allocates for a huge maximum is not modelled.
- HostSync.HostsClient.SyncSnapshot: edits of the hosts file by others between two syncs are not modelled.
- HostSync.SkipIsExact: hosts with a number sign are left out, because with them every snapshot may hold the end marker.
- HostSync.HashIsExact: hosts that hold a newline themselves are left out; with one-line hosts and any addresses `NewlinesConfuseHash` says the rest.
- CertificateRenewal.RunKeepsInv: the file writes and the reconnect at the end of a renewal are one step; no run gets there.
- JSON encoding and torn writes: a save either replaces the file or leaves it alone, although the code writes in place.
- Paths are canonical: symbolic links, mount points and relative paths are not modelled; two strings that resolve to the same components are one path.
- A text is a sequence of characters: the code measures secrets in bytes, and lower-casing is that of the ASCII letters.
- Time stamps in records are abstract instants or given texts; timers are arbitrary wake-ups.
- int64 overflow of the cache's running total and of the service CPU denominator, and floating-point rounding of rates.
- The retry of a temporary name that already exists: the call fails instead.
- Policy, manifest and request validation, template rendering, health checks, tar unpacking and the download itself: each is a given outcome.
- The PEM expression in the redaction: an arbitrary first rewrite.
- gRPC, TLS and certificate parsing, process execution, `/proc`, systemctl and nginx: outcomes only.
- `RunCommand`, `RunCommandStream`, the audit log, the probe listener, version and health services and the proto mapping: plumbing.
- `ListInstalledModules` as an RPC and the capability checks of installed modules beyond allowed or not.
