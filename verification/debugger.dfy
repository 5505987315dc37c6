/**
 * `BPJsDebuggerImpl`: the command guards of the debugger, its phase register
 * and flags, the external-event bookkeeping and the history of sync
 * snapshots. The two worker-thread bodies (the first sync after start, and
 * each further sync) are methods of their own, run when the worker runs.
 */
module Debugger {
  import opened Wrappers
  import opened RunnerStates
  import opened BProgram
  import IndexRemoval

  /** The error codes the debugger's commands return. */
  datatype ErrorCode =
    | BpSetupFail
    | BreakpointNotAllowed
    | CannotReplaceSnapshot
    | WaitingForExternal
    | NotInBpSyncState
    | AlreadyRunning
    | NotStarted
    | SetupRequired
    | NotInJsDebugState
    | InvalidEvent

  /** `BooleanResponse`: success, or failure with an error code. */
  datatype Response = Ok | Err(code: ErrorCode)

  /** Commands handed to the debugger engine. */
  datatype Command =
    | Continue
    | StepInto
    | StepOver
    | StepOut
    | SetBreakpoint(line: int, stopOnBreakpoint: bool)
    | Stop
    | GetState
    | ToggleMuteBreakpoints(mute: bool)

  /**
   * The calls the debugger makes on its `DebuggerEngine`, whose own behaviour
   * is not part of this model.
   */
  datatype EngineCall =
    | SetupBreakpoints(breakpoints: map<int, bool>)
    | ToggleMute(mute: bool)
    | SetSyncSnapshot(snapshot: Snapshot)
    | OnStateChanged
    | AddCommand(command: Command)
    | ApplyCommand(command: Command)

  /**
   * The worker threads the debugger launches. The first-sync worker carries
   * the `isSkipSyncPoints` argument of `startSync`, which its body reads.
   */
  datatype Worker = StartSyncWorker(skipSyncPoints: bool) | NextSyncWorker

  /** An entry of the snapshot history: the snapshot and the event that led to it (none for the first). */
  datatype HistoryEntry = HistoryEntry(snapshot: Snapshot, event: Option<Event>)

  /**
   * The history after the current snapshot object gains an external event in
   * place: the entry that records that very object shows the change too.
   */
  function Aliased(history: map<int, HistoryEntry>, current: Option<int>, snapshot: Snapshot): (h: map<int, HistoryEntry>)
    ensures h.Keys == history.Keys
    ensures forall t :: t in history ==>
      h[t] == if Some(t) == current then HistoryEntry(snapshot, history[t].event) else history[t]
  {
    if current.Some? && current.value in history then history[current.value := history[current.value].(snapshot := snapshot)]
    else history
  }

  /** The entry at `current`, if any, records the snapshot the debugger holds. */
  predicate Tracks(history: map<int, HistoryEntry>, current: Option<int>, snapshot: Option<Snapshot>) {
    current.Some? ==> current.value in history && snapshot == Some(history[current.value].snapshot)
  }

  /** Every index lies inside the list of external events. */
  predicate IndicesWithin(events: seq<Event>, indices: set<int>) {
    forall i :: i in indices ==> 0 <= i < |events|
  }

  /** `removeIf(e -> e.getName().equals(name))` on a copy of the external events. */
  function RemoveNamed(events: seq<Event>, name: string): (r: seq<Event>)
    ensures |r| <= |events|
    ensures forall e :: e in r ==> e.name != name && e in events
    ensures forall e :: e in events && e.name != name ==> e in r
  {
    if events == [] then []
    else (if events[0].name == name then [] else [events[0]]) + RemoveNamed(events[1..], name)
  }

  /** Removal works element by element: it keeps the survivors in their original order. */
  lemma {:induction false} RemoveNamedAppend(a: seq<Event>, b: seq<Event>, name: string)
    ensures RemoveNamed(a + b, name) == RemoveNamed(a, name) + RemoveNamed(b, name)
  {
    if a != [] {
      assert (a + b)[1..] == a[1..] + b;
      RemoveNamedAppend(a[1..], b, name);
    } else {
      assert a + b == b;
    }
  }

  /** A list with no event of that name is left as it is. */
  lemma {:induction false} RemoveNamedAbsent(events: seq<Event>, name: string)
    requires forall e :: e in events ==> e.name != name
    ensures RemoveNamed(events, name) == events
  {
    if events != [] {
      assert events[0] in events;
      RemoveNamedAbsent(events[1..], name);
      assert [events[0]] + events[1..] == events;
    }
  }

  /** Removing the same name twice is the same as removing it once. */
  lemma RemoveNamedIdempotent(events: seq<Event>, name: string)
    ensures RemoveNamed(RemoveNamed(events, name), name) == RemoveNamed(events, name)
  {
    RemoveNamedAbsent(RemoveNamed(events, name), name);
  }

  /** The number of events of each other name is unchanged; none of the given name is left. */
  lemma {:induction false} RemoveNamedCounts(events: seq<Event>, name: string, e: Event)
    ensures multiset(RemoveNamed(events, name))[e] == if e.name == name then 0 else multiset(events)[e]
  {
    if events != [] {
      RemoveNamedCounts(events[1..], name, e);
      assert events == [events[0]] + events[1..];
    }
  }

  class BPJsDebugger {
    /** The behavioural program being debugged, with its selection strategy. */
    const bProg: Program
    /** Lines at which the engine lets a breakpoint be enabled (`setupBreakpoints` rejects the others). */
    const breakpointAllowed: int -> bool
    /** What the engine answers when a command is applied to it. */
    const engineResult: Command -> Response

    var syncSnapshot: Option<Snapshot>
    var isBProgSetup: bool
    var isSetup: bool
    var isStarted: bool
    var isSkipSyncPoints: bool
    /** The program's wait-for-external-events flag. */
    var waitForExternalEvents: bool
    var state: RunnerState
    /** The program's queue of enqueued external events, not yet taken. */
    var externalQueue: seq<Event>
    /** The snapshot holder's history, by time. */
    var history: map<int, HistoryEntry>
    /** The next history time; every recorded time is below it. */
    var clock: int
    /**
     * The history time whose entry holds the very snapshot object the
     * debugger refers to, if any: the holder keeps the object it is given
     * and hands back that same object, while `copyWith` makes a new one.
     */
    var current: Option<int>
    var runningThreads: seq<Worker>
    var engineLog: seq<EngineCall>
    /** The recently registered b-threads last handed to the state helper. */
    var recentlyRegistered: seq<(string, EntryPoint)>
    /** The last chosen event handed to the state helper. */
    var lastChosenEvent: Option<Event>
    /** How many times the exit callback has been called. */
    var exitCalls: nat

    ghost predicate Valid()
      reads this
    {
      && (isBProgSetup <==> syncSnapshot.Some?)
      && (isSetup ==> isBProgSetup)
      && (isStarted ==> isBProgSetup)
      && (history != map[] ==> isBProgSetup)
      && (forall t :: t in history ==> t < clock)
      && Tracks(history, current, syncSnapshot)
    }

    constructor (program: Program, allowed: int -> bool, result: Command -> Response)
      ensures Valid()
      ensures bProg == program && breakpointAllowed == allowed && engineResult == result
      ensures syncSnapshot == None && !isBProgSetup && !isSetup && !isStarted && !isSkipSyncPoints
      ensures !waitForExternalEvents && state == Stopped
      ensures externalQueue == [] && history == map[] && current == None && runningThreads == [] && engineLog == []
      ensures recentlyRegistered == [] && lastChosenEvent == None && exitCalls == 0
    {
      bProg, breakpointAllowed, engineResult := program, allowed, result;
      syncSnapshot := None;
      isBProgSetup, isSetup, isStarted, isSkipSyncPoints := false, false, false, false;
      waitForExternalEvents := false;
      state := Stopped;
      externalQueue, history, clock, current := [], map[], 0, None;
      runningThreads, engineLog := [], [];
      recentlyRegistered, lastChosenEvent, exitCalls := [], None, 0;
    }

    /** `setupBreakpoints` throws when asked to enable a line it does not allow. */
    predicate RejectsBreakpoints(breakpoints: map<int, bool>) {
      exists line :: line in breakpoints && breakpoints[line] && !breakpointAllowed(line)
    }

    /** The program's own setup is done on the first call only, so only the first call checks its assertion. */
    predicate SetupAssertionFails()
      reads this
    {
      !isBProgSetup && bProg.setupSnapshot.failedAssertion.Some?
    }

    /** `setup`. */
    method Setup(breakpoints: map<int, bool>, isSkipBreakpoints: bool, skipSyncPoints: bool) returns (r: Response)
      requires Valid()
      modifies this`syncSnapshot, this`isBProgSetup, this`isSkipSyncPoints, this`engineLog, this`isSetup, this`state
      ensures Valid() && isBProgSetup
      ensures syncSnapshot == if old(isBProgSetup) then old(syncSnapshot) else Some(bProg.setupSnapshot)
      ensures old(SetupAssertionFails()) ==>
        r == Err(BpSetupFail) && isSkipSyncPoints == old(isSkipSyncPoints) && engineLog == old(engineLog)
        && isSetup == old(isSetup) && state == old(state)
      ensures !old(SetupAssertionFails()) ==> isSkipSyncPoints == skipSyncPoints
      ensures !old(SetupAssertionFails()) && RejectsBreakpoints(breakpoints) ==>
        r == Err(BreakpointNotAllowed) && engineLog == old(engineLog) && isSetup == old(isSetup) && state == old(state)
      ensures r == Ok <==> !old(SetupAssertionFails()) && !RejectsBreakpoints(breakpoints)
      ensures r == Ok ==>
        isSetup && state == Stopped
        && engineLog == old(engineLog) + [SetupBreakpoints(breakpoints), ToggleMute(isSkipBreakpoints), SetSyncSnapshot(syncSnapshot.value)]
    {
      if !isBProgSetup {
        syncSnapshot := Some(bProg.setupSnapshot);
        isBProgSetup := true;
        if syncSnapshot.value.failedAssertion.Some? {
          return Err(BpSetupFail);
        }
      }
      isSkipSyncPoints := skipSyncPoints;
      if RejectsBreakpoints(breakpoints) {
        return Err(BreakpointNotAllowed);
      }
      engineLog := engineLog + [SetupBreakpoints(breakpoints), ToggleMute(isSkipBreakpoints)];
      engineLog := engineLog + [SetSyncSnapshot(syncSnapshot.value)];
      isSetup := true;
      state := Stopped;
      r := Ok;
    }

    /** `setIsSkipSyncPoints`. */
    method SetIsSkipSyncPoints(skip: bool) returns (r: Response)
      modifies this`isSkipSyncPoints
      ensures isSkipSyncPoints == skip && r == Ok
    {
      isSkipSyncPoints := skip;
      r := Ok;
    }

    /** `setWaitForExternalEvents`. */
    method SetWaitForExternalEvents(shouldWait: bool) returns (r: Response)
      modifies this`waitForExternalEvents
      ensures waitForExternalEvents == shouldWait && r == Ok
    {
      waitForExternalEvents := shouldWait;
      r := Ok;
    }

    /** A sync step may be requested: not waiting, not in the script debugger, not running, and started. */
    predicate CanAdvance()
      reads this
    {
      (state == Stopped || state == SyncState) && isStarted
    }

    /** `nextSync`: check the guards in order, then launch a worker for the step. */
    method NextSync() returns (r: Response)
      modifies this`runningThreads
      ensures state == WaitingForExternalEvent ==> r == Err(WaitingForExternal)
      ensures state == JsDebug ==> r == Err(NotInBpSyncState)
      ensures state == Running ==> r == Err(AlreadyRunning)
      ensures (state == Stopped || state == SyncState) && !isStarted ==> r == Err(NotStarted)
      ensures r == Ok <==> CanAdvance()
      ensures runningThreads == old(runningThreads) + (if r == Ok then [NextSyncWorker] else [])
    {
      if state == WaitingForExternalEvent {
        return Err(WaitingForExternal);
      } else if state == JsDebug {
        return Err(NotInBpSyncState);
      } else if state == Running {
        return Err(AlreadyRunning);
      } else if !isStarted {
        return Err(NotStarted);
      }
      runningThreads := runningThreads + [NextSyncWorker];
      r := Ok;
    }

    /** `startSync`: set up if needed (passing the two flags to `setup` in swapped order), mark started, launch the first-sync worker. */
    method StartSync(isSkipBreakpoints: bool, skipSyncPoints: bool) returns (r: Response)
      requires Valid()
      modifies this`syncSnapshot, this`isBProgSetup, this`isSkipSyncPoints, this`engineLog, this`isSetup, this`state
      modifies this`isStarted, this`runningThreads
      ensures Valid() && isStarted && r == Ok
      ensures runningThreads == old(runningThreads) + [StartSyncWorker(skipSyncPoints)]
      ensures old(isSetup) ==>
        isSetup && syncSnapshot == old(syncSnapshot) && isSkipSyncPoints == old(isSkipSyncPoints)
        && engineLog == old(engineLog) && state == old(state)
      ensures !old(isSetup) && !old(SetupAssertionFails()) ==>
        isSetup && state == Stopped && isSkipSyncPoints == isSkipBreakpoints
        && engineLog == old(engineLog) + [SetupBreakpoints(map[]), ToggleMute(skipSyncPoints), SetSyncSnapshot(syncSnapshot.value)]
      ensures !old(isSetup) && old(SetupAssertionFails()) ==>
        !isSetup && syncSnapshot == Some(bProg.setupSnapshot) && isSkipSyncPoints == old(isSkipSyncPoints)
        && engineLog == old(engineLog) && state == old(state)
    {
      if !isSetup {
        var _ := Setup(map[], skipSyncPoints, isSkipBreakpoints);
      }
      isStarted := true;
      runningThreads := runningThreads + [StartSyncWorker(skipSyncPoints)];
      r := Ok;
    }

    /**
     * The first-sync worker: start the program, publish and record the first
     * sync snapshot, and request a further step when `startSync`'s own
     * `skipSyncPoints` argument (not the field) is set.
     */
    method RunStartSync(skipSyncPoints: bool)
      requires Valid() && isBProgSetup
      modifies this`recentlyRegistered, this`syncSnapshot, this`state, this`engineLog, this`history, this`clock
      modifies this`current, this`runningThreads
      ensures Valid()
      ensures recentlyRegistered == bProg.recentlyRegistered(old(syncSnapshot).value)
      ensures syncSnapshot == Some(bProg.start(old(syncSnapshot).value))
      ensures state == SyncState
      ensures clock == old(clock) + 1 && history == old(history)[old(clock) := HistoryEntry(syncSnapshot.value, None)]
      ensures current == Some(old(clock))
      ensures engineLog == old(engineLog) + [SetSyncSnapshot(syncSnapshot.value), OnStateChanged]
      ensures runningThreads == old(runningThreads) + (if skipSyncPoints && isStarted then [NextSyncWorker] else [])
    {
      recentlyRegistered := bProg.recentlyRegistered(syncSnapshot.value);
      var started := bProg.start(syncSnapshot.value);
      syncSnapshot := Some(started);
      state := SyncState;
      engineLog := engineLog + [SetSyncSnapshot(started)];
      history := history[clock := HistoryEntry(started, None)];
      current := Some(clock);
      clock := clock + 1;
      engineLog := engineLog + [OnStateChanged];
      state := SyncState;
      if skipSyncPoints {
        var _ := NextSync();
      }
    }

    /**
     * The step waits for and takes an external event: nothing is selectable,
     * the program waits for external events and one is queued.
     */
    predicate Takes(snap: Snapshot, queue: seq<Event>, wait: bool) {
      bProg.selectableEvents(snap) == {} && wait && queue != []
    }

    /** The snapshot the selection is made on: the taken external event is appended to the current one. */
    function Prepared(snap: Snapshot, queue: seq<Event>, wait: bool): Snapshot {
      if Takes(snap, queue, wait) then snap.(externalEvents := snap.externalEvents + [queue[0]]) else snap
    }

    /** The events the selection chooses among: recomputed on the prepared snapshot when an event was taken. */
    function Candidates(snap: Snapshot, queue: seq<Event>, wait: bool): set<Event> {
      if Takes(snap, queue, wait) then bProg.selectableEvents(Prepared(snap, queue, wait)) else bProg.selectableEvents(snap)
    }

    /**
     * The sync-step worker: select an event (waiting for an external one if
     * there is none) and trigger it. Selection is made by the program's
     * strategy on the prepared snapshot and candidates; when it selects
     * nothing, or the selection's indices are out of range (the removal
     * throws), the step ends without a new sync state.
     */
    method RunNextSync()
      requires Valid() && isBProgSetup
      modifies this`state, this`externalQueue, this`syncSnapshot, this`exitCalls, this`current
      modifies this`recentlyRegistered, this`engineLog, this`lastChosenEvent, this`history, this`clock, this`runningThreads
      ensures Valid()
      ensures state == Running || state == WaitingForExternalEvent || state == SyncState
      ensures exitCalls == old(exitCalls) + if bProg.selectableEvents(old(syncSnapshot).value) == {} && !waitForExternalEvents then 1 else 0
      ensures externalQueue == if Takes(old(syncSnapshot).value, old(externalQueue), waitForExternalEvents) then old(externalQueue)[1..] else old(externalQueue)
      ensures
        var snap, queue := old(syncSnapshot).value, old(externalQueue);
        var pre := Prepared(snap, queue, waitForExternalEvents);
        var chosen := bProg.select(pre, Candidates(snap, queue, waitForExternalEvents));
        var before := if Takes(snap, queue, waitForExternalEvents) then Aliased(old(history), old(current), pre) else old(history);
        chosen.None? || !IndicesWithin(pre.externalEvents, chosen.value.indicesToRemove) ==>
          && syncSnapshot == Some(pre)
          && state == (if bProg.selectableEvents(snap) == {} && waitForExternalEvents && queue == [] then WaitingForExternalEvent else Running)
          && history == before && clock == old(clock) && current == old(current)
          && recentlyRegistered == old(recentlyRegistered) && lastChosenEvent == old(lastChosenEvent)
          && engineLog == old(engineLog) && runningThreads == old(runningThreads)
      ensures
        var snap, queue := old(syncSnapshot).value, old(externalQueue);
        var pre := Prepared(snap, queue, waitForExternalEvents);
        var chosen := bProg.select(pre, Candidates(snap, queue, waitForExternalEvents));
        var before := if Takes(snap, queue, waitForExternalEvents) then Aliased(old(history), old(current), pre) else old(history);
        chosen.Some? && IndicesWithin(pre.externalEvents, chosen.value.indicesToRemove) ==>
          var stripped := pre.(externalEvents := IndexRemoval.Without(pre.externalEvents, chosen.value.indicesToRemove));
          && recentlyRegistered == bProg.recentlyRegistered(stripped)
          && syncSnapshot == Some(bProg.triggerEvent(stripped, chosen.value.event))
          && state == SyncState
          && lastChosenEvent == Some(chosen.value.event)
          && engineLog == old(engineLog) + [SetSyncSnapshot(syncSnapshot.value), OnStateChanged]
          && clock == old(clock) + 1 && current == Some(old(clock))
          && history == before[old(clock) := HistoryEntry(syncSnapshot.value, Some(chosen.value.event))]
          && runningThreads == old(runningThreads) + (if isSkipSyncPoints && isStarted then [NextSyncWorker] else [])
    {
      state := Running;
      var possible := bProg.selectableEvents(syncSnapshot.value);
      if possible == {} {
        possible := NextSyncOnNoPossibleEvents(possible);
      }
      var chosen := bProg.select(syncSnapshot.value, possible);
      if chosen.Some? {
        NextSyncOnChosenEvent(chosen.value);
      }
    }

    /**
     * No event is selectable: wait for an external event if the program waits
     * for them, otherwise call the exit callback. The blocking take is
     * modelled by the queue: with an event queued it returns the head; with
     * the queue empty the wait can only end by interruption, whose handler
     * returns the empty set and leaves the phase at waiting. The taken event
     * is added in place to the current snapshot object, so the history entry
     * that holds that object changes with it.
     */
    method NextSyncOnNoPossibleEvents(possible: set<Event>) returns (r: set<Event>)
      requires Valid() && isBProgSetup
      modifies this`state, this`externalQueue, this`syncSnapshot, this`exitCalls, this`history
      ensures Valid()
      ensures !waitForExternalEvents ==>
        r == possible && exitCalls == old(exitCalls) + 1 && state == old(state)
        && externalQueue == old(externalQueue) && syncSnapshot == old(syncSnapshot) && history == old(history)
      ensures waitForExternalEvents && old(externalQueue) == [] ==>
        r == possible && state == WaitingForExternalEvent && exitCalls == old(exitCalls)
        && externalQueue == old(externalQueue) && syncSnapshot == old(syncSnapshot) && history == old(history)
      ensures waitForExternalEvents && old(externalQueue) != [] ==>
        state == Running && exitCalls == old(exitCalls)
        && externalQueue == old(externalQueue)[1..]
        && syncSnapshot == Some(old(syncSnapshot).value.(externalEvents := old(syncSnapshot).value.externalEvents + [old(externalQueue)[0]]))
        && history == Aliased(old(history), current, syncSnapshot.value)
        && r == bProg.selectableEvents(syncSnapshot.value)
    {
      if waitForExternalEvents {
        state := WaitingForExternalEvent;
        if externalQueue == [] {
          return possible;
        }
        var next := externalQueue[0];
        externalQueue := externalQueue[1..];
        state := Running;
        var snap := syncSnapshot.value;
        syncSnapshot := Some(snap.(externalEvents := snap.externalEvents + [next]));
        history := Aliased(history, current, syncSnapshot.value);
        r := bProg.selectableEvents(syncSnapshot.value);
      } else {
        exitCalls := exitCalls + 1;
        r := possible;
      }
    }

    /** The chosen event's indices lie inside the current external-event list. */
    predicate IndicesInRange(indices: set<int>)
      reads this
      requires syncSnapshot.Some?
    {
      IndicesWithin(syncSnapshot.value.externalEvents, indices)
    }

    /**
     * Strip the external events at the chosen indices, largest index first.
     * An index outside the list makes the removal throw, and the snapshot is
     * not replaced.
     */
    method RemoveExternalEvents(indices: set<int>) returns (ok: bool)
      requires Valid() && isBProgSetup
      modifies this`syncSnapshot, this`current
      ensures Valid()
      ensures ok == old(IndicesInRange(indices))
      ensures ok ==>
        syncSnapshot == Some(old(syncSnapshot).value.(externalEvents := IndexRemoval.Without(old(syncSnapshot).value.externalEvents, indices)))
        && current == None
      ensures !ok ==> syncSnapshot == old(syncSnapshot) && current == old(current)
    {
      var snap := syncSnapshot.value;
      if !IndicesInRange(indices) {
        return false;
      }
      var updated := IndexRemoval.RemoveDescending(snap.externalEvents, indices);
      syncSnapshot := Some(snap.(externalEvents := updated));
      current := None;
      ok := true;
    }

    /**
     * Apply the selected event: strip the consumed external events, trigger
     * the event, enter the sync state and record the new snapshot with its
     * event. If the removal throws, the worker ends there.
     */
    method NextSyncOnChosenEvent(selection: SelectionResult)
      requires Valid() && isBProgSetup
      modifies this`syncSnapshot, this`recentlyRegistered, this`state, this`engineLog, this`lastChosenEvent
      modifies this`history, this`clock, this`current, this`runningThreads
      ensures Valid()
      ensures !old(IndicesInRange(selection.indicesToRemove)) ==>
        syncSnapshot == old(syncSnapshot) && state == old(state) && history == old(history) && clock == old(clock)
        && current == old(current) && recentlyRegistered == old(recentlyRegistered)
        && engineLog == old(engineLog) && lastChosenEvent == old(lastChosenEvent) && runningThreads == old(runningThreads)
      ensures old(IndicesInRange(selection.indicesToRemove)) ==>
        var stripped := old(syncSnapshot).value.(externalEvents := IndexRemoval.Without(old(syncSnapshot).value.externalEvents, selection.indicesToRemove));
        && recentlyRegistered == bProg.recentlyRegistered(stripped)
        && syncSnapshot == Some(bProg.triggerEvent(stripped, selection.event))
        && state == SyncState
        && lastChosenEvent == Some(selection.event)
        && engineLog == old(engineLog) + [SetSyncSnapshot(syncSnapshot.value), OnStateChanged]
        && clock == old(clock) + 1 && current == Some(old(clock))
        && history == old(history)[old(clock) := HistoryEntry(syncSnapshot.value, Some(selection.event))]
        && |history| == |old(history)| + 1
        && runningThreads == old(runningThreads) + (if isSkipSyncPoints && isStarted then [NextSyncWorker] else [])
    {
      ghost var stripped := syncSnapshot.value.(externalEvents := IndexRemoval.Without(syncSnapshot.value.externalEvents, selection.indicesToRemove));
      if selection.indicesToRemove != {} {
        var ok := RemoveExternalEvents(selection.indicesToRemove);
        if !ok {
          return;
        }
      } else {
        IndexRemoval.WithoutNothing(syncSnapshot.value.externalEvents);
      }
      assert syncSnapshot == Some(stripped);
      TriggerEvent(selection.event);
    }

    /**
     * The part of the step after the removal: trigger the event on the
     * current snapshot, enter the sync state, publish and record the new
     * snapshot, and request a further step when skipping sync points.
     */
    method TriggerEvent(event: Event)
      requires Valid() && isBProgSetup
      modifies this`syncSnapshot, this`recentlyRegistered, this`state, this`engineLog, this`lastChosenEvent
      modifies this`history, this`clock, this`current, this`runningThreads
      ensures Valid()
      ensures recentlyRegistered == bProg.recentlyRegistered(old(syncSnapshot).value)
      ensures syncSnapshot == Some(bProg.triggerEvent(old(syncSnapshot).value, event))
      ensures state == SyncState && lastChosenEvent == Some(event)
      ensures engineLog == old(engineLog) + [SetSyncSnapshot(syncSnapshot.value), OnStateChanged]
      ensures clock == old(clock) + 1 && current == Some(old(clock)) && old(clock) !in old(history)
      ensures history == old(history)[old(clock) := HistoryEntry(syncSnapshot.value, Some(event))]
      ensures runningThreads == old(runningThreads) + (if isSkipSyncPoints && isStarted then [NextSyncWorker] else [])
    {
      assert clock !in history;
      recentlyRegistered := bProg.recentlyRegistered(syncSnapshot.value);
      var next := bProg.triggerEvent(syncSnapshot.value, event);
      syncSnapshot := Some(next);
      state := SyncState;
      engineLog := engineLog + [SetSyncSnapshot(next)];
      lastChosenEvent := Some(event);
      engineLog := engineLog + [OnStateChanged];
      history := history[clock := HistoryEntry(next, Some(event))];
      current := Some(clock);
      clock := clock + 1;
      if isSkipSyncPoints {
        var _ := NextSync();
      }
    }

    /** `setSyncSnapshots`: go back to the snapshot recorded at `time`, drop the later history, and request a sync step. */
    method SetSyncSnapshots(time: int) returns (r: Response)
      requires Valid()
      modifies this`syncSnapshot, this`history, this`current, this`runningThreads
      ensures Valid()
      ensures time !in old(history) ==>
        r == Err(CannotReplaceSnapshot) && syncSnapshot == old(syncSnapshot)
        && history == old(history) && current == old(current) && runningThreads == old(runningThreads)
      ensures time in old(history) ==>
        r == Ok && syncSnapshot == Some(old(history)[time].snapshot) && current == Some(time)
        && history == (map t | t in old(history) && t <= time :: old(history)[t])
        && runningThreads == old(runningThreads) + (if CanAdvance() then [NextSyncWorker] else [])
    {
      if time !in history {
        return Err(CannotReplaceSnapshot);
      }
      syncSnapshot := Some(history[time].snapshot);
      history := map t | t in history && t <= time :: history[t];
      current := Some(time);
      var _ := NextSync();
      r := Ok;
    }

    /** `addCommandIfStarted`: hand a command to the engine's queue once set up. */
    method AddCommandIfStarted(command: Command) returns (r: Response)
      modifies this`engineLog
      ensures !isSetup ==> r == Err(SetupRequired) && engineLog == old(engineLog)
      ensures isSetup ==> r == Ok && engineLog == old(engineLog) + [AddCommand(command)]
    {
      if !isSetup {
        return Err(SetupRequired);
      }
      engineLog := engineLog + [AddCommand(command)];
      r := Ok;
    }

    /** The common guard of continue and the three step commands: set up, and paused in the script debugger. */
    method ScriptDebugCommand(command: Command) returns (r: Response)
      modifies this`engineLog
      ensures !isSetup ==> r == Err(SetupRequired)
      ensures isSetup && state != JsDebug ==> r == Err(NotInJsDebugState)
      ensures r == Ok <==> isSetup && state == JsDebug
      ensures engineLog == old(engineLog) + (if r == Ok then [AddCommand(command)] else [])
    {
      if !isSetup {
        return Err(SetupRequired);
      }
      if state != JsDebug {
        return Err(NotInJsDebugState);
      }
      r := AddCommandIfStarted(command);
    }

    /** `continueRun`. */
    method ContinueRun() returns (r: Response)
      modifies this`engineLog
      ensures !isSetup ==> r == Err(SetupRequired)
      ensures isSetup && state != JsDebug ==> r == Err(NotInJsDebugState)
      ensures r == Ok <==> isSetup && state == JsDebug
      ensures engineLog == old(engineLog) + (if r == Ok then [AddCommand(Continue)] else [])
    {
      r := ScriptDebugCommand(Continue);
    }

    /** `stepInto`. */
    method StepIntoCommand() returns (r: Response)
      modifies this`engineLog
      ensures !isSetup ==> r == Err(SetupRequired)
      ensures isSetup && state != JsDebug ==> r == Err(NotInJsDebugState)
      ensures r == Ok <==> isSetup && state == JsDebug
      ensures engineLog == old(engineLog) + (if r == Ok then [AddCommand(StepInto)] else [])
    {
      r := ScriptDebugCommand(StepInto);
    }

    /** `stepOver`. */
    method StepOverCommand() returns (r: Response)
      modifies this`engineLog
      ensures !isSetup ==> r == Err(SetupRequired)
      ensures isSetup && state != JsDebug ==> r == Err(NotInJsDebugState)
      ensures r == Ok <==> isSetup && state == JsDebug
      ensures engineLog == old(engineLog) + (if r == Ok then [AddCommand(StepOver)] else [])
    {
      r := ScriptDebugCommand(StepOver);
    }

    /** `stepOut`. */
    method StepOutCommand() returns (r: Response)
      modifies this`engineLog
      ensures !isSetup ==> r == Err(SetupRequired)
      ensures isSetup && state != JsDebug ==> r == Err(NotInJsDebugState)
      ensures r == Ok <==> isSetup && state == JsDebug
      ensures engineLog == old(engineLog) + (if r == Ok then [AddCommand(StepOut)] else [])
    {
      r := ScriptDebugCommand(StepOut);
    }

    /** Apply a command to the engine directly and return its answer. */
    method ApplyToEngine(command: Command) returns (r: Response)
      modifies this`engineLog
      ensures r == engineResult(command) && engineLog == old(engineLog) + [ApplyCommand(command)]
    {
      engineLog := engineLog + [ApplyCommand(command)];
      r := engineResult(command);
    }

    /** `setBreakpoint`: legal in any phase once set up. */
    method SetBreakpointCommand(line: int, stopOnBreakpoint: bool) returns (r: Response)
      modifies this`engineLog
      ensures !isSetup ==> r == Err(SetupRequired) && engineLog == old(engineLog)
      ensures isSetup ==>
        r == engineResult(SetBreakpoint(line, stopOnBreakpoint))
        && engineLog == old(engineLog) + [ApplyCommand(SetBreakpoint(line, stopOnBreakpoint))]
    {
      if !isSetup {
        return Err(SetupRequired);
      }
      r := ApplyToEngine(SetBreakpoint(line, stopOnBreakpoint));
    }

    /** `toggleMuteBreakpoints`: legal in any phase once set up. */
    method ToggleMuteBreakpointsCommand(mute: bool) returns (r: Response)
      modifies this`engineLog
      ensures !isSetup ==> r == Err(SetupRequired) && engineLog == old(engineLog)
      ensures isSetup ==>
        r == engineResult(ToggleMuteBreakpoints(mute))
        && engineLog == old(engineLog) + [ApplyCommand(ToggleMuteBreakpoints(mute))]
    {
      if !isSetup {
        return Err(SetupRequired);
      }
      r := ApplyToEngine(ToggleMuteBreakpoints(mute));
    }

    /** `getState`: refused while the script debugger holds a b-thread or a step is running. */
    method GetStateCommand() returns (r: Response)
      modifies this`engineLog
      ensures !isSetup ==> r == Err(SetupRequired)
      ensures isSetup && state == JsDebug ==> r == Err(NotInBpSyncState)
      ensures isSetup && state == Running ==> r == Err(AlreadyRunning)
      ensures isSetup && (state == Stopped || state == SyncState || state == WaitingForExternalEvent) ==>
        r == engineResult(GetState) && engineLog == old(engineLog) + [ApplyCommand(GetState)]
      ensures !(isSetup && (state == Stopped || state == SyncState || state == WaitingForExternalEvent)) ==>
        engineLog == old(engineLog)
    {
      if !isSetup {
        return Err(SetupRequired);
      } else if state == JsDebug {
        return Err(NotInBpSyncState);
      } else if state == Running {
        return Err(AlreadyRunning);
      }
      r := ApplyToEngine(GetState);
    }

    /** `stop`, in its sequential effect: the debugger is no longer started and the engine is told to stop. */
    method StopCommand() returns (r: Response)
      requires Valid()
      modifies this`isStarted, this`engineLog
      ensures Valid()
      ensures !isSetup ==> r == Err(SetupRequired) && isStarted == old(isStarted) && engineLog == old(engineLog)
      ensures isSetup ==>
        !isStarted && r == engineResult(Stop) && engineLog == old(engineLog) + [ApplyCommand(Stop)]
    {
      if !isSetup {
        return Err(SetupRequired);
      }
      isStarted := false;
      r := ApplyToEngine(Stop);
    }

    /** `addExternalEvent`: enqueue a named event on the program; an empty name is refused. */
    method AddExternalEvent(name: string) returns (r: Response)
      modifies this`externalQueue
      ensures name == [] ==> r == Err(InvalidEvent) && externalQueue == old(externalQueue)
      ensures name != [] ==> r == Ok && externalQueue == old(externalQueue) + [Event(name)]
    {
      if name == [] {
        return Err(InvalidEvent);
      }
      externalQueue := externalQueue + [Event(name)];
      r := Ok;
    }

    /**
     * `removeExternalEvent`: drop every external event of the snapshot with
     * this name; an empty name is refused. With a non-empty name the current
     * snapshot must exist (the source dereferences it).
     */
    method RemoveExternalEvent(name: string) returns (r: Response)
      requires Valid()
      requires name != [] ==> isBProgSetup
      modifies this`syncSnapshot, this`current
      ensures Valid()
      ensures name == [] ==> r == Err(InvalidEvent) && syncSnapshot == old(syncSnapshot) && current == old(current)
      ensures name != [] ==>
        r == Ok && current == None
        && syncSnapshot == Some(old(syncSnapshot).value.(externalEvents := RemoveNamed(old(syncSnapshot).value.externalEvents, name)))
    {
      if name == [] {
        return Err(InvalidEvent);
      }
      var snap := syncSnapshot.value;
      syncSnapshot := Some(snap.(externalEvents := RemoveNamed(snap.externalEvents, name)));
      current := None;
      r := Ok;
    }
  }
}
