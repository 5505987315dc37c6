/**
 * Stand-ins for the BPjs and Rhino objects the debugger handles. Their
 * internals belong to those libraries; only the parts the debugger reads are
 * kept, and the library operations it calls are uninterpreted functions
 * supplied with the program.
 */
module BProgram {
  import opened Wrappers
  import opened ScriptValues

  /** `BEvent`, compared by name. */
  datatype Event = Event(name: string)

  /**
   * The wait-for and block sets of a sync statement: the empty set `none`, a
   * single event, or any other event set (a predicate or a composition).
   */
  datatype EventSet = NoEvents | SingleEvent(event: Event) | Composite(description: string)

  /** What a b-thread declared at its sync point. */
  datatype SyncStatement = SyncStatement(request: seq<Event>, waitFor: EventSet, block: EventSet)

  /** A script scope: the name of the function it belongs to (null for a b-thread's main body) and its variables by id. */
  datatype Scope = Scope(functionName: Option<string>, variables: map<string, JsValue>)

  /** A frame of the debugger's context data: the line it stands at and its scope. */
  datatype StackFrame = StackFrame(line: int, scope: Scope)

  /**
   * An interpreter call frame: its identity, its own scope and the scopes of
   * the frames reached by following `parentFrame`, nearest first.
   */
  datatype CallFrame = CallFrame(id: nat, scope: Scope, parents: seq<Scope>)

  /** The function or script a b-thread was started from. */
  datatype EntryPoint = EntryPoint(id: nat)

  /** `BThreadSyncSnapshot`: a suspended b-thread. */
  datatype BThreadSnapshot = BThreadSnapshot(
    name: string,
    entryPoint: EntryPoint,
    implementation: CallFrame,        // the interpreter frame it is suspended in
    debuggerContext: seq<StackFrame>, // the debugger frames recorded for that frame
    sync: SyncStatement)

  /** `BProgramSyncSnapshot`: the whole program at a sync point. */
  datatype Snapshot = Snapshot(
    id: nat,
    bThreads: seq<BThreadSnapshot>,
    statements: seq<SyncStatement>,   // `getStatements()`, in iteration order
    externalEvents: seq<Event>,
    failedAssertion: Option<string>)

  /** `EventSelectionResult`: the chosen event and the external-event indices it consumes. */
  datatype SelectionResult = SelectionResult(event: Event, indicesToRemove: set<int>)

  /** The behavioural program and its selection strategy, as the debugger calls them. */
  datatype Program = Program(
    setupSnapshot: Snapshot,                                   // `bProg.setup()`
    start: Snapshot -> Snapshot,                               // `syncSnapshot.start(...)`
    triggerEvent: (Snapshot, Event) -> Snapshot,               // `syncSnapshot.triggerEvent(...)`
    selectableEvents: Snapshot -> set<Event>,                  // the strategy's `selectableEvents`
    select: (Snapshot, set<Event>) -> Option<SelectionResult>, // the strategy's `select`
    recentlyRegistered: Snapshot -> seq<(string, EntryPoint)>) // names and entry points of newly registered b-threads
}
