# BPjs debugger: command state machine and debugger-state synthesis

A Dafny model of two classes of the BPjs online debugger.

- `BPJsDebuggerImpl` is the debugger session. It holds:
  - a phase register with the values STOPPED, RUNNING, SYNC_STATE, WAITING_FOR_EXTERNAL_EVENT and JS_DEBUG;
  - the flags `isBProgSetup`, `isSetup`, `isStarted` and `isSkipSyncPoints`;
  - the current sync snapshot, the external-event bookkeeping, and a history of (snapshot, event) entries keyed by time.

  Every public command is a guard over this state that answers with success or a typed error code. The two worker-thread bodies (the first sync after `startSync`, and each further `nextSync` step) are run as ordinary sequential methods.
- `DebuggerStateHelper` builds the observable `BPDebuggerState` from a sync snapshot. It produces:
  - the event-status summary and the reverse-ordered history window;
  - the recursive conversion of script values;
  - the per-frame scope tables (`getScope`, `getEnv`);
  - the bookkeeping of b-threads registered during a script-debug pause;
  - the cached `lastState`, and `peekNextState`, which does not update it.

The BPjs and Rhino objects are stand-ins (`bprogram.dfy`). The library calls the debugger makes are uninterpreted function values supplied with the program: `setup`, `start`, `triggerEvent`, `selectableEvents`, `select` and the recently-registered b-threads. The `DebuggerEngine` is a log of the calls made on it, and its answers come from a supplied function. The snapshot holder's history is a map keyed by a logical clock.

Files:

- `wrappers.dfy`: `Option`.
- `runner_state.dfy`: the phase register.
- `int_sets.dfy`: every non-empty set of integers has a largest and a smallest element.
- `script_values.dfy`: script values and `collectJsValue`.
- `bprogram.dfy`: the BPjs/Rhino stand-ins.
- `index_removal.dfy`: removal by descending index.
- `debugger.dfy`: `BPJsDebuggerImpl`.
- `state_helper.dfy`: `DebuggerStateHelper`.

Behaviour modelled as the code has it:

- `startSync` passes its two flags to `setup` in swapped order (BPJsDebuggerImpl.java:150 against the parameters at :64). When `startSync` has to set up, the `isSkipSyncPoints` field ends up holding the `isSkipBreakpoints` argument. The first-sync worker does not read that field. Its test at :165 reads `startSync`'s own `isSkipSyncPoints` parameter, which hides the field. Each later step tests the field (:240). So `startSync(false, true)` on a fresh debugger takes a further step after the first sync, but the steps after that do not.
- The taken external event is added in place to the current snapshot's own list (:254). The snapshot holder stores that same object (:160, :238), so the history entry that recorded it shows the added event too. The model tracks which history entry holds the current snapshot object (`current`). `copyWith` (:281, :387) makes a new object that no entry holds.
- A second `setup` call does not run the program's setup again, and so does not check its failed assertion (:65-71).
- An interrupted wait for an external event returns from `nextSyncOnNoPossibleEvents` with the phase still WAITING_FOR_EXTERNAL_EVENT (:247-258). The phase is not reset to the sync state.
- `getState` is accepted in WAITING_FOR_EXTERNAL_EVENT (:353-362).
- `cleanFields` sets the saved-frame map to null (DebuggerStateHelper.java:46). From then on, every later `getRecentlyAddedBTInfo` dereferences null on its first registered b-thread. The exception is caught, so it shows none of them (`StateHelper.ClearedShowsNoRecent`).

## Model

| member | source | states |
|---|---|---|
| ScriptValues.Collect | bpjs-debugger/src/main/java/il/ac/bgu/se/bp/utils/DebuggerStateHelper.java:280-321 | null becomes null and only null does; a function becomes its source text; an array becomes a list of the same length, converted element by element; an object becomes a map over the same keys with converted values; a cons string becomes its flattened text; a Java wrapper becomes the wrapped object; any other value is unchanged |
| ScriptValues.CollectEmbed | bpjs-debugger/src/main/java/il/ac/bgu/se/bp/utils/DebuggerStateHelper.java:280-321 | every converted tree is the conversion of some script value, namely its embedding |
| ScriptValues.CollectStable | bpjs-debugger/src/main/java/il/ac/bgu/se/bp/utils/DebuggerStateHelper.java:280-321 | converting a converted value again (through its embedding) changes nothing |
| IndexRemoval.WithoutNothing | bpjs-debugger/src/main/java/il/ac/bgu/se/bp/execution/BPJsDebuggerImpl.java:227-229 | removing no positions leaves the list unchanged, which is why the source skips the removal for an empty index set |
| IndexRemoval.WithoutInRange | bpjs-debugger/src/main/java/il/ac/bgu/se/bp/execution/BPJsDebuggerImpl.java:279-280 | only the positions inside the list matter |
| IndexRemoval.WithoutLength | bpjs-debugger/src/main/java/il/ac/bgu/se/bp/execution/BPJsDebuggerImpl.java:279-280 | with every index in range, the result is shorter by exactly the number of indices |
| IndexRemoval.WithoutMembers | bpjs-debugger/src/main/java/il/ac/bgu/se/bp/execution/BPJsDebuggerImpl.java:279-280 | an element survives if and only if it stands at some position that is not removed |
| IndexRemoval.WithoutBelow | bpjs-debugger/src/main/java/il/ac/bgu/se/bp/execution/BPJsDebuggerImpl.java:279-280 | removing one more position below all removed ones removes exactly that element of the already-reduced list, so descending removal never shifts a pending index |
| IndexRemoval.RemoveDescending | bpjs-debugger/src/main/java/il/ac/bgu/se/bp/execution/BPJsDebuggerImpl.java:278-280 | removing the indices largest first yields exactly the list without the elements at the given original indices, survivors in order, shorter by the number of indices |
| Debugger.RemoveNamed | bpjs-debugger/src/main/java/il/ac/bgu/se/bp/execution/BPJsDebuggerImpl.java:385-387 | no event of the name is left; every event of another name is kept; nothing new appears |
| Debugger.RemoveNamedAppend | bpjs-debugger/src/main/java/il/ac/bgu/se/bp/execution/BPJsDebuggerImpl.java:386 | removal distributes over concatenation, so survivors keep their relative order |
| Debugger.RemoveNamedAbsent | bpjs-debugger/src/main/java/il/ac/bgu/se/bp/execution/BPJsDebuggerImpl.java:386 | a list without the name is left unchanged |
| Debugger.RemoveNamedIdempotent | bpjs-debugger/src/main/java/il/ac/bgu/se/bp/execution/BPJsDebuggerImpl.java:380-389 | removing the same name twice equals removing it once |
| Debugger.RemoveNamedCounts | bpjs-debugger/src/main/java/il/ac/bgu/se/bp/execution/BPJsDebuggerImpl.java:386 | the count of every event of another name is unchanged, and the count of every event of the name is zero |
| Debugger.BPJsDebugger.constructor | bpjs-debugger/src/main/java/il/ac/bgu/se/bp/execution/BPJsDebuggerImpl.java:44-61 | no snapshot, all flags false, phase STOPPED, empty history with no entry holding the current snapshot, empty queue, worker list and engine log |
| Debugger.BPJsDebugger.Setup | bpjs-debugger/src/main/java/il/ac/bgu/se/bp/execution/BPJsDebuggerImpl.java:63-86 | the program is set up on the first call only; a failed assertion on that call gives BP_SETUP_FAIL and changes nothing else; a rejected breakpoint gives BREAKPOINT_NOT_ALLOWED after the skip flag is set; success holds exactly when neither happens, and then `isSetup` is true, the phase is STOPPED and the engine received the breakpoints, the mute flag and the snapshot in that order |
| Debugger.BPJsDebugger.SetIsSkipSyncPoints | bpjs-debugger/src/main/java/il/ac/bgu/se/bp/execution/BPJsDebuggerImpl.java:88-92 | sets the flag and succeeds |
| Debugger.BPJsDebugger.SetWaitForExternalEvents | bpjs-debugger/src/main/java/il/ac/bgu/se/bp/execution/BPJsDebuggerImpl.java:391-395 | sets the program's flag and succeeds |
| Debugger.BPJsDebugger.NextSync | bpjs-debugger/src/main/java/il/ac/bgu/se/bp/execution/BPJsDebuggerImpl.java:181-197 | guards in order: WAITING_FOR_EXTERNAL_EVENT, JS_DEBUG gives NOT_IN_BP_SYNC_STATE, RUNNING gives ALREADY_RUNNING, not started gives NOT_STARTED; success if and only if the phase is STOPPED or SYNC_STATE and the debugger is started; a worker is launched exactly on success and nothing else changes |
| Debugger.BPJsDebugger.StartSync | bpjs-debugger/src/main/java/il/ac/bgu/se/bp/execution/BPJsDebuggerImpl.java:147-179 | always succeeds and marks started; when already set up, stays set up and leaves snapshot, skip flag, engine and phase unchanged; otherwise sets up with the two flags swapped, so the `isSkipSyncPoints` field receives the skip-breakpoints argument, and a failed setup assertion leaves the skip flag, engine and phase unchanged; launches the first-sync worker carrying its own `isSkipSyncPoints` argument |
| Debugger.BPJsDebugger.RunStartSync | bpjs-debugger/src/main/java/il/ac/bgu/se/bp/execution/BPJsDebuggerImpl.java:153-174 | the started snapshot becomes current and is recorded with no event at a fresh time, as the entry holding the current snapshot; phase SYNC_STATE; the engine is given the snapshot and notified; a further step is requested exactly when the worker's own skip argument is set and the debugger is started |
| Debugger.BPJsDebugger.RunNextSync | bpjs-debugger/src/main/java/il/ac/bgu/se/bp/execution/BPJsDebuggerImpl.java:199-223 | the exit callback is called exactly once when nothing is selectable and the program does not wait, otherwise never; an external event is taken from the queue exactly when nothing is selectable and the program waits with one queued; the selected event is the program's `select` on the prepared snapshot (with the taken event appended in place) and its recomputed candidates; with nothing selected or an out-of-range index, the snapshot is the prepared one, the history changes only by the in-place append, and the phase is RUNNING, or WAITING_FOR_EXTERNAL_EVENT after an interrupted wait; otherwise the new snapshot is the event triggered on the stripped prepared snapshot, the chosen event is handed over, phase SYNC_STATE, and the history gains exactly one entry pairing them |
| Debugger.BPJsDebugger.NextSyncOnNoPossibleEvents | bpjs-debugger/src/main/java/il/ac/bgu/se/bp/execution/BPJsDebuggerImpl.java:244-266 | without waiting for external events, the exit callback is called once and nothing else changes; when waiting with an event queued, that event is taken and appended in place to the current snapshot, so the history entry holding that snapshot shows it too; the phase returns to RUNNING and the selectable events are recomputed; when waiting with the queue empty, the interrupted wait returns the given set and leaves WAITING_FOR_EXTERNAL_EVENT |
| Debugger.Aliased | bpjs-debugger/src/main/java/il/ac/bgu/se/bp/execution/BPJsDebuggerImpl.java:254 | an in-place change to the current snapshot object shows in the one history entry that holds it, with its event kept; every other entry and the set of times are unchanged |
| Debugger.BPJsDebugger.RemoveExternalEvents | bpjs-debugger/src/main/java/il/ac/bgu/se/bp/execution/BPJsDebuggerImpl.java:276-282 | with all indices in range, the snapshot's external events become the list without those original positions, in a new object no history entry holds; otherwise the removal throws and the snapshot is unchanged |
| Debugger.BPJsDebugger.NextSyncOnChosenEvent | bpjs-debugger/src/main/java/il/ac/bgu/se/bp/execution/BPJsDebuggerImpl.java:225-242 | strips the consumed external events, then triggers the event on the stripped snapshot; phase SYNC_STATE; the history gains exactly one entry pairing the new snapshot with the event; the engine is given the snapshot and notified; a further step is requested when the `isSkipSyncPoints` field is set; if the strip throws, nothing changes |
| Debugger.BPJsDebugger.TriggerEvent | bpjs-debugger/src/main/java/il/ac/bgu/se/bp/execution/BPJsDebuggerImpl.java:230-241 | the event is triggered on the current snapshot; phase SYNC_STATE; the engine is given the new snapshot and notified; it is recorded with the event at a fresh time as the entry holding the current snapshot; a further step is requested exactly when the `isSkipSyncPoints` field is set and the debugger is started |
| Debugger.BPJsDebugger.SetSyncSnapshots | bpjs-debugger/src/main/java/il/ac/bgu/se/bp/execution/BPJsDebuggerImpl.java:108-118 | a time absent from the history gives CANNOT_REPLACE_SNAPSHOT and leaves snapshot and history unchanged; otherwise the stored snapshot object becomes current, later entries are dropped and a step is requested |
| Debugger.BPJsDebugger.AddCommandIfStarted | bpjs-debugger/src/main/java/il/ac/bgu/se/bp/execution/BPJsDebuggerImpl.java:397-409 | SETUP_REQUIRED unless set up; otherwise the command is queued on the engine |
| Debugger.BPJsDebugger.ScriptDebugCommand | bpjs-debugger/src/main/java/il/ac/bgu/se/bp/execution/BPJsDebuggerImpl.java:284-322 | SETUP_REQUIRED when not set up, NOT_IN_JS_DEBUG_STATE outside JS_DEBUG; success exactly when set up in JS_DEBUG, and only then is the command queued |
| Debugger.BPJsDebugger.ContinueRun | bpjs-debugger/src/main/java/il/ac/bgu/se/bp/execution/BPJsDebuggerImpl.java:284-292 | as above, queuing Continue |
| Debugger.BPJsDebugger.StepIntoCommand | bpjs-debugger/src/main/java/il/ac/bgu/se/bp/execution/BPJsDebuggerImpl.java:294-302 | as above, queuing StepInto |
| Debugger.BPJsDebugger.StepOverCommand | bpjs-debugger/src/main/java/il/ac/bgu/se/bp/execution/BPJsDebuggerImpl.java:304-312 | as above, queuing StepOver |
| Debugger.BPJsDebugger.StepOutCommand | bpjs-debugger/src/main/java/il/ac/bgu/se/bp/execution/BPJsDebuggerImpl.java:314-322 | as above, queuing StepOut |
| Debugger.BPJsDebugger.ApplyToEngine | bpjs-debugger/src/main/java/il/ac/bgu/se/bp/execution/BPJsDebuggerImpl.java:329 | the command is applied to the engine and its answer returned |
| Debugger.BPJsDebugger.SetBreakpointCommand | bpjs-debugger/src/main/java/il/ac/bgu/se/bp/execution/BPJsDebuggerImpl.java:324-330 | SETUP_REQUIRED unless set up; otherwise the engine's answer in any phase |
| Debugger.BPJsDebugger.ToggleMuteBreakpointsCommand | bpjs-debugger/src/main/java/il/ac/bgu/se/bp/execution/BPJsDebuggerImpl.java:364-369 | SETUP_REQUIRED unless set up; otherwise the engine's answer in any phase |
| Debugger.BPJsDebugger.GetStateCommand | bpjs-debugger/src/main/java/il/ac/bgu/se/bp/execution/BPJsDebuggerImpl.java:353-362 | SETUP_REQUIRED, then NOT_IN_BP_SYNC_STATE in JS_DEBUG, then ALREADY_RUNNING in RUNNING; in STOPPED, SYNC_STATE and WAITING_FOR_EXTERNAL_EVENT the engine answers; the engine is untouched on rejection |
| Debugger.BPJsDebugger.StopCommand | bpjs-debugger/src/main/java/il/ac/bgu/se/bp/execution/BPJsDebuggerImpl.java:332-351 | SETUP_REQUIRED unless set up; otherwise no longer started and the engine is told to stop |
| Debugger.BPJsDebugger.AddExternalEvent | bpjs-debugger/src/main/java/il/ac/bgu/se/bp/execution/BPJsDebuggerImpl.java:371-378 | an empty name gives INVALID_EVENT and changes nothing; otherwise the event is appended to the program's queue |
| Debugger.BPJsDebugger.RemoveExternalEvent | bpjs-debugger/src/main/java/il/ac/bgu/se/bp/execution/BPJsDebuggerImpl.java:380-389 | an empty name gives INVALID_EVENT and changes nothing; otherwise the snapshot's external events lose every event of that name, in a new object no history entry holds |
| StateHelper.NamedInfos | bpjs-debugger/src/main/java/il/ac/bgu/se/bp/utils/DebuggerStateHelper.java:86-87 | a name is listed if and only if some set in the list is that single event; `none` sets contribute nothing |
| StateHelper.NamedInfosAppend | bpjs-debugger/src/main/java/il/ac/bgu/se/bp/utils/DebuggerStateHelper.java:86-87 | the listing distributes over concatenation, so entries follow statement order |
| StateHelper.EventsStatusOf | bpjs-debugger/src/main/java/il/ac/bgu/se/bp/utils/DebuggerStateHelper.java:80-91 | fails exactly when some wait-for or block set is neither `none` nor a single event (the cast throws); otherwise the lists are no longer than the statements and the requested set holds exactly the names of all requested events |
| StateHelper.EventsStatusOfOne | bpjs-debugger/src/main/java/il/ac/bgu/se/bp/utils/DebuggerStateHelper.java:80-91 | one statement contributes its wait-for and block event unless `none`, and the names it requests |
| StateHelper.RequestedInfosAppend | bpjs-debugger/src/main/java/il/ac/bgu/se/bp/utils/DebuggerStateHelper.java:85-88 | the requested names of two runs of statements are the union of each run's names |
| StateHelper.EventsStatusOfAppend | bpjs-debugger/src/main/java/il/ac/bgu/se/bp/utils/DebuggerStateHelper.java:80-91 | statements are summarised one after another: the wait and blocked lists concatenate and the requested sets unite |
| StateHelper.DescriptorsOf | bpjs-debugger/src/main/java/il/ac/bgu/se/bp/utils/DebuggerStateHelper.java:154-158 | a b-thread's wait and blocked events are absent exactly when `none`; its requested set is the names of its requests |
| StateHelper.GenerateEventsHistory | bpjs-debugger/src/main/java/il/ac/bgu/se/bp/utils/DebuggerStateHelper.java:93-100 | the result has the window's times, each once, in descending order, each with its event's name, and equals the reference view |
| StateHelper.HistoryOf | bpjs-debugger/src/main/java/il/ac/bgu/se/bp/utils/DebuggerStateHelper.java:93-100 | reference definition (latest entry first, then the rest), proved to be a view of the window |
| StateHelper.HistoryViewUnique | bpjs-debugger/src/main/java/il/ac/bgu/se/bp/utils/DebuggerStateHelper.java:93-100 | any two lists that show the same window latest first are equal |
| StateHelper.ScopeViewContents | bpjs-debugger/src/main/java/il/ac/bgu/se/bp/utils/DebuggerStateHelper.java:251-268 | `FUNCNAME` is present and holds the function's name, or `BTMain` when it has none, unless a variable of that name replaces it; `arguments` and `<name>param` never appear; every other key is a listed variable with its converted value |
| StateHelper.GetScope | bpjs-debugger/src/main/java/il/ac/bgu/se/bp/utils/DebuggerStateHelper.java:251-268 | putting the name and then the listed variables one by one gives exactly the scope table |
| StateHelper.EnvNumbering | bpjs-debugger/src/main/java/il/ac/bgu/se/bp/utils/DebuggerStateHelper.java:228-249 | key 0 is the call frame's own scope, overwriting context frame 0; parents get keys 1, 2, … in walk order; context frames survive only above the last parent; no other keys |
| StateHelper.GetEnv | bpjs-debugger/src/main/java/il/ac/bgu/se/bp/utils/DebuggerStateHelper.java:228-249 | the two loops with their key counter build exactly that environment |
| StateHelper.LineNumber | bpjs-debugger/src/main/java/il/ac/bgu/se/bp/utils/DebuggerStateHelper.java:53 | null exactly when there is no context data or it has no frames; otherwise the line of frame 0 |
| StateHelper.RunningAfter | bpjs-debugger/src/main/java/il/ac/bgu/se/bp/utils/DebuggerStateHelper.java:186-201 | the running b-thread changes only to the b-thread being examined, and never while no interpreter frame is live |
| StateHelper.BThreadInfoOf | bpjs-debugger/src/main/java/il/ac/bgu/se/bp/utils/DebuggerStateHelper.java:146-164 | fails exactly when a wait-for or block set fails the cast; otherwise it carries the b-thread's name and descriptors |
| StateHelper.ThreadsScan | bpjs-debugger/src/main/java/il/ac/bgu/se/bp/utils/DebuggerStateHelper.java:64-69 | succeeds exactly when every b-thread's info does; then one info per snapshot, in order; outside JS_DEBUG the running b-thread is untouched |
| StateHelper.ThreadsScanStops | bpjs-debugger/src/main/java/il/ac/bgu/se/bp/utils/DebuggerStateHelper.java:66-69 | after a failed cast no later b-thread is visited |
| StateHelper.RecentlyAdded | bpjs-debugger/src/main/java/il/ac/bgu/se/bp/utils/DebuggerStateHelper.java:102-129 | with the frame map cleared, nothing is shown; with it present, one info per registered b-thread, in order, by name and without descriptors; saved frames are only added to, and the b-thread started from the live frame's entry has that frame saved |
| StateHelper.RecentlyAddedStops | bpjs-debugger/src/main/java/il/ac/bgu/se/bp/utils/DebuggerStateHelper.java:125-128 | after the caught exception no later b-thread is visited |
| StateHelper.InfosShape | bpjs-debugger/src/main/java/il/ac/bgu/se/bp/utils/DebuggerStateHelper.java:64-78 | one info per b-thread snapshot first, in order; only in JS_DEBUG can more follow; in any other state exactly one per snapshot and the bookkeeping is cleared |
| StateHelper.ClearedShowsNoRecent | bpjs-debugger/src/main/java/il/ac/bgu/se/bp/utils/DebuggerStateHelper.java:110-121 | once the saved-frame map has been cleared, no recently registered b-thread is shown again |
| StateHelper.StateContents | bpjs-debugger/src/main/java/il/ac/bgu/se/bp/utils/DebuggerStateHelper.java:50-62 | a state is produced exactly when every cast succeeds; it carries the events status of the statements, a history view of the window, the recorded running b-thread, the line of frame 0 and the breakpoints read |
| StateHelper.DebuggerStateHelper.constructor | bpjs-debugger/src/main/java/il/ac/bgu/se/bp/utils/DebuggerStateHelper.java:27-30 | nothing registered, an empty saved-frame map, no last state and no running b-thread |
| StateHelper.DebuggerStateHelper.SetRecentlyRegisteredBThreads | bpjs-debugger/src/main/java/il/ac/bgu/se/bp/utils/DebuggerStateHelper.java:323-325 | stores the list |
| StateHelper.DebuggerStateHelper.CleanFields | bpjs-debugger/src/main/java/il/ac/bgu/se/bp/utils/DebuggerStateHelper.java:44-48 | the three bookkeeping fields become null |
| StateHelper.DebuggerStateHelper.EnvDebug | bpjs-debugger/src/main/java/il/ac/bgu/se/bp/utils/DebuggerStateHelper.java:180-226 | the script debugger's environment for the frame; the running b-thread is recorded when the frame's scope is the interrupted one |
| StateHelper.DebuggerStateHelper.CreateBThreadInfo | bpjs-debugger/src/main/java/il/ac/bgu/se/bp/utils/DebuggerStateHelper.java:146-164 | equals the info of the b-thread; in JS_DEBUG the running b-thread is updated before the cast, even when the cast then fails |
| StateHelper.DebuggerStateHelper.GetRecentlyAddedBTInfo | bpjs-debugger/src/main/java/il/ac/bgu/se/bp/utils/DebuggerStateHelper.java:102-129 | the loop, with its exits on a null dereference, produces exactly the recently-added walk; with no registered list, nothing and no change |
| StateHelper.DebuggerStateHelper.GenerateBThreadInfos | bpjs-debugger/src/main/java/il/ac/bgu/se/bp/utils/DebuggerStateHelper.java:64-78 | result and new bookkeeping equal the specification of the b-thread infos |
| StateHelper.DebuggerStateHelper.GenerateDebuggerStateInner | bpjs-debugger/src/main/java/il/ac/bgu/se/bp/utils/DebuggerStateHelper.java:50-62 | result and new bookkeeping equal the state specification |
| StateHelper.DebuggerStateHelper.GenerateDebuggerState | bpjs-debugger/src/main/java/il/ac/bgu/se/bp/utils/DebuggerStateHelper.java:39-42 | the same state, which becomes `lastState` (the value `getLastState` returns); if generation throws, `lastState` is kept |
| StateHelper.DebuggerStateHelper.PeekNextState | bpjs-debugger/src/main/java/il/ac/bgu/se/bp/utils/DebuggerStateHelper.java:327-329 | the same state and bookkeeping as generation, with `lastState` unchanged |

## Left out

- Threads, the executor and interruption are not modelled. A worker body runs when its method is called. `runningThreads` records only which worker was launched.
- `stop` has a polling loop that shuts down the executor. Only its sequential effect is modelled: the debugger is no longer started.
- `addCommandIfStarted`'s FAILED_ADDING_COMMAND path is left out: the engine's command queue is not part of this model, so adding never fails.
- `getSyncSnapshotsHistory` is left out. It calls the state helper with a signature the helper file does not declare.
- `isSetup`, `isStarted`, `setItStarted` and `setIsSetup` are plain field reads and writes. They are inlined.
- `getLastState` is the plain read of the `lastState` field.
- Debugger.BPJsDebugger.SetSyncSnapshots: the snapshot holder's `popKey` is not part of this model. The model drops the history entries after the chosen time and keeps the chosen one.
- The snapshot holder's clock is replaced by a logical counter, so every new entry gets a fresh, larger time.
- Debugger.BPJsDebugger.NextSyncOnNoPossibleEvents: the program's blocking `takeExternalEvent` is modelled on a queue. A queued event is taken at once. With the queue empty, the wait can end only by interruption. A `null` take is not modelled.
- Debugger.BPJsDebugger.RemoveExternalEvent: requires a current snapshot when the name is non-empty. Without one the source throws a null dereference, which is not modelled.
- Null strings are not modelled. An event name is empty or not.
- The phase register's initial value is taken to be STOPPED. `RunnerState` is not part of this model.
- The program's wait-for-external-events flag is taken to start false.
- Java collections lose their iteration order:
  - sets of statements, b-threads and registered b-threads are sequences in a fixed order;
  - the `LinkedHashMap` order of a scope table is not kept;
  - property ids are strings.
- Gson serialisation of variable values is left out. A scope table holds the converted value tree.
- The reflective `getValue` accesses, `Context.getCurrentContext` and the `Dim` hooks are replaced by plain data:
  - the call frame's scope and parent scopes are a list;
  - the live interpreter frame and the base entry point of its chain are given directly, without the `getBaseFnOrScript` walk;
  - `getEnvDebug`'s environment and its "is the interrupted scope" test are supplied functions of a frame, so their frame-by-frame numbering is not modelled.
- StateHelper.DebuggerStateHelper.CreateBThreadInfo: `state == null` is not modelled, and neither are the reflection failures that return null.
- The `sourceInfo` breakpoints are passed in as an optional list. Absent means the reflective read threw.
- The events-history window is passed in as a map from time to event. The holder's `getEventsHistoryStack` is not part of this model.
- The context data given to `getEnv` in the non-debug case is the b-thread's recorded debugger frames. A missing debugger frame, which throws in the source, is not modelled.
- The engine's response to applied commands is a supplied function. Its breakpoint table and command effects are not modelled.
- ScriptValues.Collect: cyclic script values are not modelled. `collectJsValue` (DebuggerStateHelper.java:289-304) has no cycle guard, so an object or array that contains itself recurses until the stack overflows. A script value here is a finite tree and cannot express such a cycle.
- StateHelper.GenerateEventsHistory: the window is taken to hold no null event. The first history entry is recorded with a null event (BPJsDebuggerImpl.java:160). If such an entry reaches the window, the dereference of its name at DebuggerStateHelper.java:97 throws, and that failure is not modelled.
- The engine keeps its own reference to the snapshot it is given. The in-place add at BPJsDebuggerImpl.java:254 also changes that object, but the engine is modelled as a log of calls, so the change does not show there. Only the snapshot holder's entries are updated.
- The snapshot holder is taken to store the object it is given and to hand back that same object from `popKey`.
- Logging and `printStackTrace` calls are left out, as are the REST response wrappers and the commented-out legacy `start`.
