# Verified models of the PHP tracer's stateful cores

This project models seven pieces of the Datadog PHP tracer and proves what they keep over whole
runs. `dafny verify dfyconfig.toml` covers all of it.

- **Remote configuration** (`DynamicConfig`, `RemoteConfigState`). Prioritised files arrive and
  leave, are merged per setting and written over the PHP INI table while the user's own values are
  kept aside. `DynamicConfig` is the state machine with the theorems over runs; the class
  `RemoteConfigState.RemoteConfig` has the code's tables and loops and is proved to take exactly
  those steps. `ConfigValues` says which texts a user can set veto a remote value. A run is one
  request from a fresh state.
- **Live debugger** (`LiveDebugger`). The hook table over deliveries, withdrawals and the on/off
  switch, as a state machine and as the class `Debugger` that refines it. `Instrumentation` joins
  the two machines: every change of the dynamic instrumentation entry switches the hooks.
- **Parallel test scheduler** (`Scheduler`, `SchedulerOrder`, `SchedulerExclusive`,
  `SchedulerOvertaking`, `Coordinator`). A step relation over "ready" and "tests_finished" messages;
  the class `Coordinator.Coordinator` refines it.
- **Line diff** (`Diff`, `DiffAlignment`, `DiffScript`). The budgeted look-ahead against longest
  common subsequences, for an arbitrary match relation, the alignment it leads to, and the edit
  script the two-way merge prints.
- **Span-concentrator cache** (`Concentrator`). Threads and configuration updates interleaving at
  the granularity of the locks.
- **Git metadata cache** (`GitCache`). The upward search and the cache against a fresh read.
- **OTEL_RESOURCE_ATTRIBUTES** (`OtelAttributes`, `OtelTags`, `OtelSettings`) and **64-bit FNV-1a**
  (`Fnv`).

`Options` and `Sequences` hold shared helpers. Hash-map iteration order, the engine's answers, the
file system, the shared-memory state and the order of messages are parameters, so every theorem
holds for all of them.

## What the proofs found

Where the code and the promise around it disagree, the model follows the code, a lemma gives a run
or an input on which the promise fails, and the exact condition for it to hold is proved.

- Where the user writes settings, remote configuration leaves no trace in a setting exactly when its
  INI change callback reports user writes. It does for six of the nine settings; a write to `datadog.tags`,
  `datadog.trace.enabled` or `datadog.trace.sampling_rules` made while it is overridden is lost
  (`NoTraceExactlyForGuarded`, `LostWrite`; per run `NoTraceIff`). A user `ini_restore` of an
  overridden setting leaves a trace in every setting that can be overridden: the default is recorded
  as an explicit value, or the reset is lost (`NoTraceExactlyForLocal`, `LostReset`). The callbacks
  are wired in tracer/configuration_dependencies.h:150-164 and tracer/live_debugger.c:1855-1872, and
  not in ext/configuration.h:55-62 and tracer/configuration.h:87.
- A user write that lifts a veto is recorded but not shown until the next delivery (`LiftedVeto`,
  exactly: `WriteStaysSettledIff`, and for resets `RestoreStaysSettledIff`).
- Equal priorities are broken by hash-map order (`TiesMayDiffer`); the merge is determined exactly
  when the files that tie for a setting agree on it (`MergeDeterminedIff`).
- Hooks stay owned without any assumption on configuration ids. A hook points into a dropped
  configuration exactly when a service configuration arrives under the id of a hooked probe
  (`ServiceOverProbe`, exactly: `DanglingIff`).
- The comment at appsec/run-tests-internal.php:1429-1431 promises order for tests with a common
  conflict key. Tests with key `all` are sent in reverse order (`ExclusiveTestsAreReversed`). The
  other tests that share a key keep their order in all runs of distinct tests
  (appsec/run-tests-internal.php:694) exactly when there is at most one of them, or their rivals,
  the non-exclusive tests that have a key of theirs, have a key in common pairwise and any two of
  them are parked under the same key by any two other rivals (`SharedKeyOrderIff`). Where that fails one of three
  short runs breaks the order (`RivalOfOne`, `TwoGates`, `SideBySide`). It holds for tests with a
  single key (`OrderPerKey`).
- In the diff, PHP reads the index of `$old1[$idx1]` after `$idx1++` on the right-hand side, so
  the lists are keyed from 1; the merge is modelled with those keys.
- The cached git commit differs from the one on disk exactly for a cached directory whose commit
  file is not empty but holds no text before its first NUL other than newlines at the end
  (`BlankCommitIsReturned`, exactly: `CommitIsTransparentIff`). The repository URL is read again
  only with a new commit (`StaleRepositoryIsReturned`, exactly: `RepositoryIsTransparentIff`).
- The tag conversion steps past the end of the text exactly when fewer than ten tags are kept and
  a reserved key ends the text (`ConversionMeaning`). Its writes stay inside the destination
  exactly when the tags, each with its comma, fit (`ConvertTags`, `LongPairDoesNotFit`); the length
  of an environment value is not bounded by that of the destination.
- Overlapping concentrator updates can leave the cache and the desired configuration different
  (`OverlappingUpdatesDisagree`). Once no update is in flight an entry agrees exactly when it was
  built after the last update reached the cache or that update carried the desired configuration
  (`LastUpdateDecides`).

## Model

| member | source | states |
|---|---|---|
| `DynamicConfig.NamesAreInjective` | components-rs/remote_config.rs:248-260 | two settings never share an INI name, so comparing kinds and comparing names agree |
| `DynamicConfig.DistinctPrioritiesNeverTie` | components-rs/remote_config.rs:76-89 | files of distinct priorities cannot disagree about a setting |
| `DynamicConfig.MergeIsUnique` | components-rs/remote_config.rs:76-89 | where ties agree, any two merges of the same files have the same settings, whatever order the map was iterated in, even if each setting were taken from a different tied file |
| `DynamicConfig.TiesMayDiffer` | components-rs/remote_config.rs:77-78 | two runs with the same deliveries, of one priority, that end in different INI tables |
| `DynamicConfig.RecomputeKeepsUser` | components-rs/remote_config.rs:321-365 | recomputing the overlay changes no value the user set and leaves the table equal to the overlay of the user's values |
| `DynamicConfig.WriteUpdatesUser` | components-rs/remote_config.rs:680-706 | a user write changes the recorded user table in that one entry when the overlay takes note of it, and not at all otherwise |
| `DynamicConfig.StepKeepsInvariant` | components-rs/remote_config.rs:383-477 | each step keeps: the merge is one of the active files, the saved names are exactly the merged names, no active file is empty |
| `DynamicConfig.RunKeepsInvariant` | components-rs/remote_config.rs:383-477 | that invariant holds after every run |
| `DynamicConfig.UserTableIsNotedWrites` | components-rs/remote_config.rs:303-365 | over every run of deliveries, user writes and user resets the user's recorded table is the initial table with the recorded changes applied |
| `DynamicConfig.RemoteConfigLeavesNoTrace` | components-rs/remote_config.rs:453-466 | every run that ends with no active file ends in the state that the user's recorded changes alone produce |
| `DynamicConfig.UserValueSurvivesIff` | components-rs/remote_config.rs:680-706 | after any run the recorded user value of a setting is what all the user's writes and resets give if and only if the last of them counts: a write that is noted or changes nothing, a reset of an entry that is not overridden or of one with no user value that the callback does not see |
| `DynamicConfig.NoTraceIff` | components-rs/remote_config.rs:680-706 | for each run and setting: no trace is left if and only if the last write or reset of the setting counts in that sense |
| `DynamicConfig.GuardedWritesCount` | tracer/configuration_dependencies.h:150-164 | for a setting whose callback reports writes every last write counts, and for settings never overridden every last reset too |
| `DynamicConfig.NoTraceExactlyForGuarded` | tracer/configuration_dependencies.h:150-164 | a setting is free of traces in all runs in which the user writes it if and only if it is never overridden or its callback reports user writes |
| `DynamicConfig.NoTraceExactlyForLocal` | ext/remote_config.c:119-120 | with user resets a setting is free of traces in all runs if and only if it is never overridden |
| `DynamicConfig.LostReset` | components-rs/remote_config.rs:680-706 | for each reported setting a run of add, reset, remove that ends with the default as an explicit value |
| `DynamicConfig.LostWrite` | ext/configuration.h:55-62 | for each unreported setting a run of add, write, remove that ends with the user's write gone |
| `DynamicConfig.OverlayAfterRecompute` | components-rs/remote_config.rs:293-365 | in every run, right after a recompute: a carried setting shows the value of a smallest-priority file unless an explicit falsy user value vetoes it, all others show the user's value, and the saved values are the user's values of exactly the carried settings |
| `DynamicConfig.WriteStaysSettledIff` | components-rs/remote_config.rs:680-706 | a user write keeps the overlay correct if and only if it does not lift a veto and does not overwrite an unreported setting |
| `DynamicConfig.RestoreStaysSettledIff` | components-rs/remote_config.rs:680-706 | a user reset keeps the overlay correct if and only if the entry is not overridden, or is reported with a default that vetoes nothing and shows no veto |
| `DynamicConfig.LiftedVeto` | components-rs/remote_config.rs:690-703 | a run of falsy write, delivery, truthy write after which the entry still shows the falsy value |
| `DynamicConfig.ActiveIsSurvivors` | components-rs/remote_config.rs:417-466 | the active file of an id is the last non-empty version delivered since its last removal |
| `DynamicConfig.SettledStateIsDetermined` | components-rs/remote_config.rs:321-365 | two settled states with the same user table and files have the same INI table and saved values |
| `DynamicConfig.HistoryIndependence` | components-rs/remote_config.rs:417-466 | two runs with the same writes before any delivery and the same surviving files end in the same INI table and saved values, in whatever order files were added, replaced and removed |
| `RemoteConfigState.SortByPriority` | components-rs/remote_config.rs:77-78 | lists every active file exactly once, in order of priority |
| `RemoteConfigState.FirstInOrderWins` | components-rs/remote_config.rs:78-87 | the first setting found in a sorted list of files comes from a file of smallest priority number among those that carry it |
| `RemoteConfigState.MergeConfig` | components-rs/remote_config.rs:83-85 | keeps the list equal to the first setting of each kind seen so far |
| `RemoteConfigState.MergeFile` | components-rs/remote_config.rs:82-86 | the same over all settings of one file |
| `RemoteConfigState.ComputeMergedConfigs` | components-rs/remote_config.rs:76-89 | returns the first setting of each kind in some order of the files by priority, so each carried setting once, taken from a smallest-priority file, and nothing else |
| `RemoteConfigState.AnyWinnerMayBeTaken` | components-rs/remote_config.rs:77-87 | every file that ties for the smallest priority number is the source of the setting in the merge of some order of the files |
| `RemoteConfigState.MergeDeterminedIff` | components-rs/remote_config.rs:76-89 | all orders of the files by priority give the same settings if and only if the files that tie for a setting agree on it |
| `RemoteConfigState.RemoteConfig.constructor` | components-rs/remote_config.rs:204-229 | starts with the user's table, no files, no merge and nothing saved |
| `RemoteConfigState.RemoteConfig.AlterDynamicConfig` | components-rs/remote_config.rs:680-706 | records the write of an overridden setting and lets it through exactly when it vetoes the merged setting |
| `RemoteConfigState.RemoteConfig.IniChange` | tracer/configuration_dependencies.h:150-164 | a change is refused exactly when a reporting callback outside a remote write finds it overridden and not vetoed; the instrumentation switch follows accepted changes |
| `RemoteConfigState.RemoteConfig.AlterIniEntry` | zend_abstract_interface/config/config_ini.c:186-260 | outside a remote write, altering an entry is the user-write step of the state machine; during one it always succeeds |
| `RemoteConfigState.RemoteConfig.RestoreIniEntry` | ext/remote_config.c:119-120 | restoring removes the modification and nothing else, except that an overridden entry with a reporting callback records the default as the user's value and is reset only if that vetoes the setting |
| `RemoteConfigState.RemoteConfig.DynamicConfigurationUpdate` | ext/remote_config.c:116-151 | for every name, overridden or not: reading changes nothing, the flagged write always succeeds and records nothing, the unflagged write and the restore go through the change callback, and the old value is returned exactly by a read and by an unflagged write that was let through |
| `RemoteConfigState.RemoteConfig.ResetOldConfig` | components-rs/remote_config.rs:303-311 | puts a saved value back, or the default where none was saved |
| `RemoteConfigState.RemoteConfig.InsertConfig` | components-rs/remote_config.rs:328-354 | shows the setting under the veto rule and saves the user's value, whether or not the setting was overridden before |
| `RemoteConfigState.RemoteConfig.InsertAll` | components-rs/remote_config.rs:327-355 | after the loop every listed setting is shown and saved and no other entry differs |
| `RemoteConfigState.RemoteConfig.ResetIfMissing` | components-rs/remote_config.rs:357-362 | a setting no longer merged gets the user's value back; a merged one is left alone |
| `RemoteConfigState.RemoteConfig.ResetMissing` | components-rs/remote_config.rs:356-363 | the same for all settings of the previous merge |
| `RemoteConfigState.RemoteConfig.InsertNewConfigs` | components-rs/remote_config.rs:321-365 | the two loops together produce the overlay of the user's table under the new merge, and save exactly the user's values of the merged settings |
| `RemoteConfigState.RemoteConfig.RemoveOldConfigs` | components-rs/remote_config.rs:313-319 | draining the saved values in any order gives the state recomputed for no files |
| `RemoteConfigState.RemoteConfig.AddConfigFile` | components-rs/remote_config.rs:417-431 | is the add step of the state machine |
| `RemoteConfigState.RemoteConfig.RemoveConfigFile` | components-rs/remote_config.rs:453-466 | is the remove step, also through the separate path for the last file |
| `RemoteConfigState.RemoteConfig.UserWritesIni` | components-rs/remote_config.rs:680-706 | is the user-write step, and keeps the instrumentation switch equal to the INI value |
| `RemoteConfigState.RemoteConfig.UserRestoresIni` | ext/remote_config.c:119-120 | is the user-reset step with the default of the entry, and keeps the instrumentation switch equal to the INI value |
| `RemoteConfigState.RemoteConfig.ProcessRemoteConfigs` | components-rs/remote_config.rs:383-477 | handles the whole queue as a run of the state machine, one event per update, and reports whether there was any |
| `ConfigValues.IntegerIsTruthyIff` | components-rs/remote_config.rs:297 | a decimal number with any sign and leading zeros is truthy if and only if it is not zero and fits 32 bits |
| `ConfigValues.WordIsTruthyIff` | components-rs/remote_config.rs:297 | any other text is truthy if and only if it is `true`, `yes` or `on` with any letters capital |
| `ConfigValues.ParseUndoesDecimal` | components-rs/remote_config.rs:297 | reading a printed number gives it back, or nothing where it does not fit 32 bits |
| `ConfigValues.OffIsFalsy` | components-rs/remote_config.rs:297 | the empty text, `0`, and `false`, `no` and `off` in any case are falsy |
| `ConfigValues.DecodesTrueIff` | zend_abstract_interface/config/config_decode.c:10-20 | the engine decodes as true exactly `1` and `on`, `yes` and `true` in any case |
| `ConfigValues.VetoIsShown` | components-rs/remote_config.rs:293-301 | right after every recompute dynamic instrumentation, exception replay and code origin show an explicit falsy user value, whatever the files say |
| `ConfigValues.OffIsShown` | components-rs/remote_config.rs:329-350 | so they do for the usual ways of writing off |
| `ConfigValues.RemoteIsShown` | components-rs/remote_config.rs:329-350 | every other carried setting shows the value of a smallest-priority file, and so do those three where the user set nothing or a truthy value |
| `ConfigValues.NoTraceByName` | tracer/configuration_dependencies.h:150-164 | user writes leave no trace in a setting if and only if it is not `datadog.tags`, `datadog.trace.enabled` or `datadog.trace.sampling_rules` |
| `LiveDebugger.StepOwned` | components-rs/remote_config.rs:479-509 | each step keeps: installed hooks are exactly the table's, no two configurations share one, none is installed while off |
| `LiveDebugger.HooksAreOwned` | components-rs/remote_config.rs:479-560 | the same after every run, without any assumption on configuration ids |
| `LiveDebugger.DanglingIff` | components-rs/remote_config.rs:394-416 | a step leaves a hook pointing into a dropped configuration if and only if it delivers a service configuration under the id of a hooked probe |
| `LiveDebugger.ServiceOverProbe` | components-rs/remote_config.rs:402-415 | a run of two deliveries that leaves a hook pointing into the replaced configuration |
| `LiveDebugger.NoHookDangles` | components-rs/remote_config.rs:394-416 | where ids keep their kind, in every run every hook points into the probe active under its id |
| `LiveDebugger.StepHooks` | components-rs/remote_config.rs:722-752 | each step keeps the hooked ids equal to the acceptable active probes while on, and to none while off |
| `LiveDebugger.HookedIsHookable` | components-rs/remote_config.rs:722-752 | after every run the hooked ids are a function of the active configurations and the switch |
| `LiveDebugger.ActiveIsDelivered` | components-rs/remote_config.rs:394-416 | what is active under an id is what was last delivered and not withdrawn |
| `LiveDebugger.TogglesCommute` | components-rs/remote_config.rs:722-752 | two runs with the same final deliveries and switch hook the same ids, however deliveries and toggles interleave |
| `LiveDebugger.Debugger.constructor` | components-rs/remote_config.rs:223-226 | starts with no configuration and no hook |
| `LiveDebugger.Debugger.SetProbe` | components-rs/remote_config.rs:497 | the engine hands out a hook not in use, or a negative number and changes nothing |
| `LiveDebugger.Debugger.RemoveProbe` | components-rs/remote_config.rs:495 | removes one hook; its precondition, met at every call, is that the hook is installed |
| `LiveDebugger.Debugger.DeliverConfig` | components-rs/remote_config.rs:479-509 | is the delivery step, and every hook it removes was installed |
| `LiveDebugger.Debugger.WithdrawConfig` | components-rs/remote_config.rs:541-549 | is the withdrawal step |
| `LiveDebugger.Debugger.RemoveAllHooks` | components-rs/remote_config.rs:734-736 | draining in any order removes each table hook exactly once |
| `LiveDebugger.Debugger.InstallHook` | components-rs/remote_config.rs:740-747 | installs one probe and keeps hooks and configurations in correspondence |
| `LiveDebugger.Debugger.InstallAllHooks` | components-rs/remote_config.rs:739-749 | installs every acceptable active probe, in any order, and nothing else |
| `LiveDebugger.Debugger.SetDynamicInstrumentationEnabled` | components-rs/remote_config.rs:722-752 | is the toggle step in both directions and does nothing when the switch already has the value |
| `Instrumentation.SwitchFollowsEntry` | tracer/live_debugger.c:1855-1868 | in every run that mixes files, user changes and probe deliveries the switch is on if and only if the entry shown decodes to true |
| `Instrumentation.HookedFollowsEntry` | tracer/live_debugger.c:1855-1868 | in every such run the hooked ids are the acceptable active probes if the entry shown decodes to true and none otherwise |
| `Instrumentation.HookedWithoutFiles` | tracer/live_debugger.c:1855-1868 | once no file is left the hooked ids depend on the user's recorded changes and the active probes alone |
| `Instrumentation.UserOffKeepsHooksOff` | components-rs/remote_config.rs:293-365 | right after every recompute an explicit falsy user value leaves no hook installed, whatever the files say |
| `Scheduler.StepConserves` | appsec/run-tests-internal.php:1567-1628 | handling a message keeps the multiset of pending, parked, set-aside, running and finished tests |
| `Scheduler.StepInvariant` | appsec/run-tests-internal.php:1567-1628 | each step keeps: a key is held exactly by the busy worker whose batch has it, parked tests wait for a held key of theirs, exclusive tests wait for the last worker, the counter is the number of busy workers |
| `Scheduler.RunInvariant` | appsec/run-tests-internal.php:1538-1628 | both hold after every run |
| `Scheduler.NoTestIsLost` | appsec/run-tests-internal.php:1538-1628 | in every reachable state each given test is in exactly one place, and a parked test waits for a key that a live busy worker holds |
| `Scheduler.EveryTestFinishes` | appsec/run-tests-internal.php:1538 | when the loop exits every test has finished as often as it was given and nothing is parked |
| `Scheduler.MutualExclusion` | appsec/run-tests-internal.php:1395-1427 | in every reachable state two workers never run tests with a common key, and a test with key `all` runs on the only worker left |
| `Scheduler.BatchBounds` | appsec/run-tests-internal.php:1596-1608 | a batch that leaves tests pending has one test more than the largest batch or, not counting one, at least an even share of all tests for the live workers; no batch exceeds the largest by more than one; a batch of three or more is, not counting two, below an even share |
| `Scheduler.SentWithinBounds` | appsec/run-tests-internal.php:1596-1621 | what a message makes the coordinator send a worker is not empty and within those bounds |
| `Scheduler.StepDecreases` | appsec/run-tests-internal.php:1600-1627 | each message sends a test or retires a worker |
| `Scheduler.RunLength` | appsec/run-tests-internal.php:1538-1628 | a run has at most as many messages as tests and workers |
| `Scheduler.LastWorkerLeavesNothing` | appsec/run-tests-internal.php:1622-1626 | when no worker is left nothing is pending, set aside or parked and all tests have finished |
| `Scheduler.NeverStuck` | appsec/run-tests-internal.php:1538-1542 | while the loop runs some worker has a message to send |
| `SchedulerOrder.OrderIsKept` | appsec/run-tests-internal.php:1567-1628 | a group of tests whose rivals pairwise share a key, and any two of which park the whole group under one key, is sent in the order given across parking, release and batching, and all of it once the loop exits |
| `SchedulerOrder.OrderPerKey` | appsec/run-tests-internal.php:1429-1432 | tests whose only key is k, not `all`, are sent in the order given whatever keys the others have, also when a test is given twice |
| `SchedulerExclusive.ExclusiveTestsAreReversed` | appsec/run-tests-internal.php:1587-1590 | tests with key `all` are sent in reverse, so in the order given if and only if that order is a palindrome |
| `SchedulerOvertaking.OrderKeptIff` | appsec/run-tests-internal.php:1429-1432 | for any conflict keys and any group of non-exclusive tests that pairwise share a key: the group keeps its order in all runs of distinct tests if and only if it has at most one test, or its rivals pairwise share a key and any two other rivals park any two of its tests under the same key |
| `SchedulerOvertaking.SharedKeyOrderIff` | appsec/run-tests-internal.php:1429-1432 | the same for the non-exclusive tests that have a given key |
| `SchedulerOvertaking.RivalOfOne` | appsec/run-tests-internal.php:1600-1608 | under any conflict keys, a test that shares a key with one test of a group and none with a later one lets the later one overtake |
| `SchedulerOvertaking.TwoGates` | appsec/run-tests-internal.php:1570-1580 | under any conflict keys, running tests that park two tests of a group under different keys break their order, in whichever order the keys are released |
| `SchedulerOvertaking.SideBySide` | appsec/run-tests-internal.php:1570-1608 | under any conflict keys, two rivals without a common key that each hold back a group break its order |
| `SchedulerOvertaking.SharedKeyIsOvertaken` | appsec/run-tests-internal.php:1601-1606 | one set-up of three tests in which the order for a key is not kept |
| `SchedulerOvertaking.FirstKeyKeepsOrder` | appsec/run-tests-internal.php:1601-1606 | order is kept for a key that is the first of all tests that have it, when every test with another of their keys has it too |
| `SchedulerOvertaking.SentWithinGiven` | appsec/run-tests-internal.php:1609-1621 | no run sends a test more often than it was given |
| `Coordinator.SplitTests` | appsec/run-tests-internal.php:1401-1427 | separates exclusive tests from the others, both in the order given |
| `Coordinator.SpawnWorkers` | appsec/run-tests-internal.php:1459-1479 | the workers are exactly 1 to n |
| `Coordinator.Coordinator.constructor` | appsec/run-tests-internal.php:1395-1479 | establishes the start state of the step relation with the tests stacked in reverse, at least one worker, and no more workers than tests that are not exclusive unless that is none |
| `Coordinator.Coordinator.ReleaseConflict` | appsec/run-tests-internal.php:1572-1578 | puts the tests parked under one key back so that the first parked is on top |
| `Coordinator.Coordinator.ReleaseConflicts` | appsec/run-tests-internal.php:1570-1580 | releases exactly the keys the worker held, each once |
| `Coordinator.Coordinator.PopTest` | appsec/run-tests-internal.php:1600-1608 | takes the top test, or parks it under the first of its keys in use |
| `Coordinator.Coordinator.ComposeBatch` | appsec/run-tests-internal.php:1596-1608 | the loop composes the batch of the step relation |
| `Coordinator.Coordinator.ClaimKeys` | appsec/run-tests-internal.php:1611-1613 | gives the worker every key of one test |
| `Coordinator.Coordinator.ClaimConflicts` | appsec/run-tests-internal.php:1610-1614 | gives the worker exactly the keys of its batch |
| `Coordinator.Coordinator.Assign` | appsec/run-tests-internal.php:1586-1627 | schedules the set-aside tests, then sends a batch or retires the worker, as the step relation does |
| `Coordinator.Coordinator.HandleReady` | appsec/run-tests-internal.php:1585-1628 | is the ready step and keeps the invariant |
| `Coordinator.Coordinator.HandleTestsFinished` | appsec/run-tests-internal.php:1568-1628 | is the finished step for some order of the worker's keys and keeps the invariant |
| `Diff.LcsIsBound` | appsec/run-tests-internal.php:2909-2958 | no common subsequence is longer than the reference length, for any match relation |
| `Diff.LcsIsAttained` | appsec/run-tests-internal.php:2909-2958 | some common subsequence has the reference length |
| `Diff.MatchIsOptimal` | appsec/run-tests-internal.php:2922-2927 | matching two lines that match is never worse than skipping one |
| `Diff.RunIsLcs` | appsec/run-tests-internal.php:2922-2927 | counting the run of matching lines first loses nothing of the longest common subsequence |
| `Diff.ScoreIsSound` | appsec/run-tests-internal.php:2909-2958 | for every start and every budget, fractional ones included, the score is at most the longest common subsequence |
| `Diff.ScoreIsRealised` | appsec/run-tests-internal.php:2909-2958 | for every start and every budget there is a common subsequence whose length is exactly the score |
| `Diff.ScoreIsExact` | appsec/run-tests-internal.php:2909-2958 | with enough budget the score is the longest common subsequence |
| `Diff.ScoreTriesFirst` | appsec/run-tests-internal.php:2930-2938 | the score is at least the run of matching lines plus what any skip of wanted lines within half the remaining budget leads to |
| `Diff.ScoreTriesSecond` | appsec/run-tests-internal.php:2940-2948 | the same for skips of output lines within the whole remaining budget |
| `Diff.ScoreIsSomeSkip` | appsec/run-tests-internal.php:2928-2955 | the score is the run of matching lines alone or what one such skip leads to |
| `Diff.RunIsMaximal` | appsec/run-tests-internal.php:2922-2927 | the lines counted first all match and the next ones do not |
| `Diff.BestSkipFirst` | appsec/run-tests-internal.php:2932-2938 | the loop finds the best score over all skips of wanted lines that the halved budget allows |
| `Diff.BestSkipSecond` | appsec/run-tests-internal.php:2943-2948 | the same for output lines and the whole budget |
| `Diff.CountArrayDiff` | appsec/run-tests-internal.php:2909-2958 | terminates on all inputs and returns the score, which is the length of a common subsequence of the two suffixes |
| `DiffAlignment.ScoreGrows` | appsec/run-tests-internal.php:2909-2958 | a larger budget never lowers the score |
| `DiffAlignment.NearMatchIsFound` | appsec/run-tests-internal.php:2983-2984 | the budget of 10 finds a match of the current line within five wanted or nine output lines |
| `DiffAlignment.FoundIsKept` | appsec/run-tests-internal.php:2976-2996 | wherever the look-ahead with the budget of 10 finds a match the alignment keeps a pair from there on |
| `DiffAlignment.NothingToKeep` | appsec/run-tests-internal.php:2990-2993 | where no lines match at all a line of each side is dropped at a time |
| `DiffScript.Decide` | appsec/run-tests-internal.php:2983-2993 | drops the side whose look-ahead is better, both where neither finds a match, so always at least one |
| `DiffScript.DropLines` | appsec/run-tests-internal.php:2986-2993 | drops the lines the look-ahead decides on and keeps the alignment: what is not dropped on the two sides matches pairwise |
| `DiffScript.AlignLines` | appsec/run-tests-internal.php:2977-2995 | one round keeps everything the alignment promises |
| `DiffScript.Align` | appsec/run-tests-internal.php:2976-2997 | the pairs kept are those of the alignment; the dropped lines of both sides increase, the others match pairwise in order, one side is used up, and the mapping splits the kept pairs at each added line |
| `DiffScript.MergeEdits` | appsec/run-tests-internal.php:3031-3054 | prints every listed removal and addition once, in index order, never across a kept pair, and edits of consecutive lines of one side next to each other; where nothing matches all additions come before all removals |
| `DiffScript.PrintRemovedTail` | appsec/run-tests-internal.php:3056-3059 | adds the remaining removals and keeps that order |
| `DiffScript.PrintAddedTail` | appsec/run-tests-internal.php:3061-3066 | adds the remaining additions and keeps that order |
| `DiffScript.EmptyScript` | appsec/run-tests-internal.php:2960-3066 | an empty script means equally many lines that match pairwise |
| `DiffScript.GenerateArrayDiff` | appsec/run-tests-internal.php:2960-3066 | deleting the removed and the added lines leaves equally long lists that match pairwise, those of the alignment; each edit is printed once, in order, with its own text; before the one tail, edits of consecutive lines stand together; nothing is printed if and only if the inputs match; the whole script is fixed where no lines match |
| `Concentrator.StepLocks` | components-rs/stats.rs:341-391 | each step keeps: the writer is the lookup in its write section, the readers are the lookups in their callback, never both |
| `Concentrator.StepCalls` | components-rs/stats.rs:341-391 | each step keeps: past its write section a lookup's key is present or being refreshed by the writer, and a finished lookup returned true |
| `Concentrator.RunInvariant` | components-rs/stats.rs:328-391 | both hold after every interleaving |
| `Concentrator.LookupIsTotal` | components-rs/stats.rs:328-391 | every finished lookup returned true after exactly one callback |
| `Concentrator.KeyIsPresentAtFinalRead` | components-rs/stats.rs:382-390 | at the final read the key is present, so the last arm is never taken |
| `Concentrator.EntryIsStableDuringCall` | components-rs/stats.rs:211-217 | during a callback no step of any thread changes the entry in use, and its slices agree with its keys |
| `Concentrator.StepAdvances` | components-rs/stats.rs:328-391 | a lookup's own steps bring it strictly closer to its end and no other step sets it back |
| `Concentrator.NeverDeadlocks` | components-rs/stats.rs:328-391 | while any lookup or update is unfinished some step of an unfinished one is possible |
| `Concentrator.RefreshIff` | components-rs/stats.rs:344-357 | a lookup enters its callback without the write lock if and only if its entry is present, has shared memory and nothing new is reported, and rebuilds the entry under the write lock if and only if one of these fails |
| `Concentrator.LookupsAreUpgraded` | components-rs/stats.rs:219-227 | over every run: once shared memory can be opened, each lookup that begins afterwards runs its callback on an entry with shared memory |
| `Concentrator.ReloadRebuilds` | components-rs/stats.rs:352-379 | over every run: a lookup whose reads all report something new builds its entry itself before its callback |
| `Concentrator.MemoryIsAsOpened` | components-rs/stats.rs:359-378 | over every run an entry has shared memory if and only if the lookup that built it last could open it, through all updates |
| `Concentrator.InsertAfterUpdate` | components-rs/stats.rs:366-378 | a run in which a lookup inserts the configuration it read before an update that is in flight |
| `Concentrator.ConfigAgreement` | components-rs/stats.rs:279-308 | with updates one at a time, whenever none is in flight every cached entry has the desired configuration |
| `Concentrator.OverlappingUpdatesDisagree` | components-rs/stats.rs:297-307 | a run from the empty cache, one lookup and two overlapping updates, that leaves the entry and the desired configuration different |
| `Concentrator.LastUpdateDecides` | components-rs/stats.rs:279-308 | in every run, however updates overlap, once none is in flight: an entry has the desired configuration if and only if it was built after the last update reached the cache or that update carried the desired configuration |
| `GitCache.NearestGitDir` | ext/git.c:117-138 | the search returns the directory of the nearest ancestor that answers, or none if that one may not be read |
| `GitCache.NoGitDir` | ext/git.c:117-138 | where no ancestor answers it returns none |
| `GitCache.SearchGitDir` | ext/git.c:117-138 | the loop terminates for every path and finds that directory |
| `GitCache.RemoveTrailingNewline` | ext/git.c:23-30 | returns the longest prefix that does not end in a newline character |
| `GitCache.BranchCommit` | ext/git.c:65-83 | after any history, where HEAD holds `ref: ` and a name and the file of that name holds a text, that text is the commit returned |
| `GitCache.UnbornBranch` | ext/git.c:74-79 | where the file HEAD names is missing or empty no commit is returned |
| `GitCache.DetachedCommit` | ext/git.c:82 | where HEAD holds another text that text is the commit returned |
| `GitCache.NoHead` | ext/git.c:69-72 | where HEAD is missing or empty no commit is returned |
| `GitCache.LongHeadIsCut` | ext/git.c:52-61 | of a longer file the first 255 characters count |
| `GitCache.LongDirectoryIsCut` | ext/git.c:118-119 | a longer directory is searched from its first 4095 characters |
| `GitCache.CredentialsAreRemoved` | ext/git.c:140-164 | from a URL with credentials after its scheme exactly the credentials and the at sign are removed |
| `GitCache.NothingToRemove` | ext/git.c:140-164 | a URL without an at sign or without a scheme is returned as it is |
| `GitCache.CommitIsTransparentIff` | ext/git.c:308-346 | whatever the cache holds, the commit returned is the one an empty cache returns if and only if it is not a cached directory with a blank commit file |
| `GitCache.RepositoryIsTransparentIff` | ext/git.c:227-252 | the repository URL returned for a cached directory is that of a fresh read if and only if an entry with an unchanged commit holds the current URL up to credentials and a URL read with a new commit is not empty |
| `GitCache.BlankCommitIsReturned` | ext/git.c:236-245 | two requests, with the commit file blank at the second, that answer with an empty commit where a fresh read has none |
| `GitCache.StaleRepositoryIsReturned` | ext/git.c:236-242 | two requests, with the URL changed and the commit not, that answer with the old URL |
| `GitCache.RepositoryIsLastRead` | ext/git.c:227-252 | after any history the URL returned is, without credentials, the one on disk at the last request that cached the directory or saw a new commit in it, and nothing is returned where nothing is cached |
| `GitCache.HistoryIsTransparent` | ext/git.c:308-346 | after any history of file systems and requests, a request whose commit file is not blank returns the commit on disk |
| `GitCache.HistoryIsInformative` | ext/git.c:209-214 | no history leaves an entry with neither commit nor repository |
| `GitCache.GitMetadata.constructor` | ext/datadog.c:275 | a thread starts with nothing cached |
| `GitCache.GitMetadata.RefreshIfNeeded` | ext/git.c:227-252 | keeps, replaces or deletes one entry according to the commit on disk |
| `GitCache.GitMetadata.ReplaceOrDelete` | ext/git.c:236-249 | the four cases of known and readable commits are the one rule: same commit keeps, new commit replaces, lost commit deletes |
| `GitCache.GitMetadata.UpdateAll` | ext/git.c:254-261 | refreshing in any order, with deletions during the walk, refreshes every entry once |
| `GitCache.GitMetadata.Get` | ext/git.c:308-346 | answers as the specified request does, the URL without credentials, and with the commit on disk unless that is blank |
| `OtelAttributes.PairsOfPrint` | ext/otel_config.c:63-77 | a printed list is read back from wherever it was printed |
| `OtelAttributes.ParseUndoesPrint` | ext/otel_config.c:63-77 | reading a printed list of pairs gives the list back |
| `OtelAttributes.LookupUndoesPrint` | ext/otel_config.c:57-80 | in a printed list, lookup returns the first value of the key unless that value is empty and ends the text |
| `OtelAttributes.SkipValue` | ext/otel_config.c:66-68 | stops at the first comma or at the end |
| `OtelAttributes.FindAttribute` | ext/otel_config.c:63-77 | the pointer loop finds the specified value on every text, well formed or not |
| `OtelAttributes.LookupAttribute` | ext/otel_config.c:57-80 | the terminated value is copied, and the writes stay inside the destination if and only if value and terminator fit |
| `OtelTags.ConvertIsExpected` | ext/otel_config.c:107-133 | from any position and number of tags written, the conversion writes the tags still allowed or overruns |
| `OtelTags.ConversionMeaning` | ext/otel_config.c:99-140 | for every text: writes the first ten kept pairs in order, joined by commas, and overruns if and only if fewer than ten are kept and a reserved key ends the text |
| `OtelTags.TagsFit` | ext/otel_config.c:99-140 | the tags are no longer than the text |
| `OtelTags.LongerBufferFits` | ext/otel_config.c:105-137 | a destination longer than the text holds everything the conversion writes |
| `OtelTags.LongPairDoesNotFit` | ext/otel_config.c:123-126 | one pair as long as the destination does not fit |
| `OtelTags.ConversionUndoesPrint` | ext/otel_config.c:99-140 | on a printed list the tags are its first ten unreserved pairs in order, or the exact overrun case |
| `OtelTags.WriteTag` | ext/otel_config.c:123-126 | writes key, colon, value and comma after what the buffer held |
| `OtelTags.ScanPair` | ext/otel_config.c:108-131 | handles one pair for any destination: skips a reserved key, else writes its tag if and only if tag and comma fit |
| `OtelTags.ScanTags` | ext/otel_config.c:107-133 | for any destination the loop over the text computes the conversion, and writes outside if and only if what the conversion writes is longer than the destination |
| `OtelTags.ConvertTags` | ext/otel_config.c:99-140 | for every text and destination: all writes stay inside if and only if the tags with their commas, and at least the terminator, fit; then the scan overruns exactly when specified or the destination holds the terminated tags |
| `OtelSettings.EveryPairIsReportedOnce` | ext/otel_config.c:82-140 | in a printed list with different keys, at most ten of them without a setting, no pair is lost or reported twice: environment, version and service name are found by their keys and are no tags, every other pair is a tag, and there are no other tags |
| `OtelSettings.MissingIsUnset` | ext/otel_config.c:57-93 | a setting whose key is in no pair is not set |
| `OtelSettings.TenTags` | ext/otel_config.c:127-130 | at most ten tags are written, and all kept pairs where there are at most ten |
| `Fnv.XorUndoesItself` | components-rs/lib.rs:449 | xor with a byte is undone by the same xor |
| `Fnv.MultiplyInverts` | components-rs/lib.rs:450 | multiplication by the prime modulo 2^64 is a bijection, with its inverse given |
| `Fnv.StepInverts` | components-rs/lib.rs:448-451 | the step for a byte is a bijection of the 64-bit state |
| `Fnv.StepSeparatesBytes` | components-rs/lib.rs:448-451 | from one state different bytes lead to different states |
| `Fnv.FoldAppends` | components-rs/lib.rs:447-453 | hashing a concatenation continues from the hash of its first part |
| `Fnv.FoldInverts` | components-rs/lib.rs:447-453 | hashing fixed data is a bijection of the starting state |
| `Fnv.OneByteChangesTheHash` | components-rs/lib.rs:440-454 | inputs of equal length that differ in exactly one byte never collide |
| `Fnv.PublishedHashes` | components-rs/lib.rs:437-454 | the published 64-bit FNV-1a hashes of the empty input and of "a" |
| `Fnv.Fnv1a64` | components-rs/lib.rs:440-454 | the loop computes the fold with 64-bit wrap-around, and the offset basis for no data |

## Left out

- Rendering of a setting as INI text (components-rs/remote_config.rs:262-291): values are strings.
- INI values the engine refuses to decode, and setting aliases: the INI layer is taken to accept writes.
- Request shutdown (components-rs/remote_config.rs:754 on): the end of a run.
- Live-debugger allow and deny expressions and the case that no debugger callbacks are registered.
- Feature-flag, telemetry and sidecar parts of remote configuration: thin calls into other libraries.
- Delivery of signals and interrupts that trigger a reread: each reread is a step of its own.
- `parse_conflicts` and the reading of CONFLICTS sections: the conflict keys are an input.
- The shuffle option: the start state of `Scheduler` allows any order, the constructor of `Coordinator.Coordinator` does not shuffle.
- The order in which a worker's keys are released is left open, where PHP takes the order of claiming; the runs that break an order do so for every release order, after exchanging the two tests where needed.
- Message framing, test results, and failures of workers: a worker only sends "ready" and "tests_finished".
- A test file named "0" or "", which PHP treats as the end of the stack (appsec/run-tests-internal.php:1574, 1600).
- Context lines, line-number padding and signs in the diff output (appsec/run-tests-internal.php:3006-3029, 3067-3072): an edit is a side, an index and a text, and the context line count is 0.
- `comp_line` itself: the match relation is an arbitrary parameter.
- The concentrator is a state machine over lock-granular steps and not a class; lock poisoning, the contents of shared memory and the agent-version flags are not modelled.
- Git metadata from environment variables and global tags, the reading of the origin URL from the git configuration, and Windows path separators.
- `datadog_get_otel_value` and the OTLP endpoint: the text and the destination are inputs.
- What happens after a read past the text or a write outside the destination: the model stops there.
