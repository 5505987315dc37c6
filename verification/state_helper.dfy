/**
 * `DebuggerStateHelper`: builds the observable debugger state from a sync
 * snapshot, the phase register and the script debugger's frames. The event
 * summaries and the value conversion are pure; the scope and environment
 * tables are filled in loops; the helper keeps the last state it generated
 * and some bookkeeping about recently registered b-threads.
 */
module StateHelper {
  import opened Wrappers
  import opened RunnerStates
  import opened ScriptValues
  import opened BProgram
  import IntSets

  /** `EventInfo`: an event shown by name. */
  datatype EventInfo = EventInfo(name: string)

  /** `EventsStatus`: the wait-for and block lists and the set of requested events. */
  datatype EventsStatus = EventsStatus(wait: seq<EventInfo>, blocked: seq<EventInfo>, requested: set<EventInfo>)

  /** An entry of a scope table: the function's name (under `FUNCNAME`) or a converted variable. */
  datatype ScopeValue = FunctionName(name: string) | Json(value: Tree)

  type ScopeEnv = map<string, ScopeValue>

  /** A b-thread's environment: scope tables numbered from the innermost frame. */
  type Env = map<int, ScopeEnv>

  /** What a b-thread's sync statement shows. */
  datatype Descriptors = Descriptors(waitEvent: Option<EventInfo>, blockedEvent: Option<EventInfo>, requested: set<EventInfo>)

  /** `BThreadInfo`; b-threads registered during a script-debug pause are shown without descriptors. */
  datatype BThreadInfo = BThreadInfo(name: string, env: Env, descriptors: Option<Descriptors>)

  /** An entry of the events-history window. */
  datatype HistoryItem = HistoryItem(time: int, event: EventInfo)

  /** `BPDebuggerState`. */
  datatype DebuggerState = DebuggerState(
    bThreads: seq<BThreadInfo>,
    eventsStatus: EventsStatus,
    eventsHistory: seq<HistoryItem>,
    currentRunningBT: Option<string>,
    lineNumber: Option<int>,
    breakpoints: Option<seq<bool>>)

  /** The interpreter frame the script debugger is paused in, with the entry point at the base of its parent chain. */
  datatype LiveFrame = LiveFrame(frame: CallFrame, baseEntry: EntryPoint)

  /**
   * What the helper reads from the script engine while it is paused: the
   * paused frame (none if there is no interpreter frame), the environment
   * `getEnvDebug` builds for a frame, and whether a frame's scope is the
   * interrupted one.
   */
  datatype DebugContext = DebugContext(
    live: Option<LiveFrame>,
    envDebug: CallFrame -> Env,
    interrupted: CallFrame -> bool)

  // ---------------------------------------------------------------------
  // Event status

  /** A set can be shown only if it is `none` or a single event; any other set fails the cast to an event. */
  predicate Showable(es: EventSet) {
    !es.Composite?
  }

  /** The event names of the showable sets that are not `none`, in order. */
  function NamedInfos(sets: seq<EventSet>): (r: seq<EventInfo>)
    requires forall i :: 0 <= i < |sets| ==> Showable(sets[i])
    ensures |r| <= |sets|
    ensures forall x :: x in r <==> exists i :: 0 <= i < |sets| && sets[i].SingleEvent? && sets[i].event.name == x.name
  {
    if sets == [] then []
    else
      var rest := NamedInfos(sets[1..]);
      assert forall i :: 1 <= i < |sets| ==> sets[1..][i - 1] == sets[i];
      (if sets[0].SingleEvent? then [EventInfo(sets[0].event.name)] else []) + rest
  }

  /** The lists are built set by set: one entry per set that is not `none`, in the sets' order. */
  lemma {:induction false} NamedInfosAppend(a: seq<EventSet>, b: seq<EventSet>)
    requires forall i :: 0 <= i < |a| ==> Showable(a[i])
    requires forall i :: 0 <= i < |b| ==> Showable(b[i])
    ensures forall i :: 0 <= i < |a + b| ==> Showable((a + b)[i])
    ensures NamedInfos(a + b) == NamedInfos(a) + NamedInfos(b)
  {
    if a != [] {
      assert (a + b)[1..] == a[1..] + b;
      NamedInfosAppend(a[1..], b);
    } else {
      assert a + b == b;
    }
  }

  function WaitSets(statements: seq<SyncStatement>): (r: seq<EventSet>)
    ensures |r| == |statements| && forall i :: 0 <= i < |r| ==> r[i] == statements[i].waitFor
  {
    seq(|statements|, i requires 0 <= i < |statements| => statements[i].waitFor)
  }

  function BlockSets(statements: seq<SyncStatement>): (r: seq<EventSet>)
    ensures |r| == |statements| && forall i :: 0 <= i < |r| ==> r[i] == statements[i].block
  {
    seq(|statements|, i requires 0 <= i < |statements| => statements[i].block)
  }

  /** The names of all requested events, each once. */
  function RequestedInfos(statements: seq<SyncStatement>): set<EventInfo>
  {
    set i, j | 0 <= i < |statements| && 0 <= j < |statements[i].request| :: EventInfo(statements[i].request[j].name)
  }

  /** Every statement's wait-for and block set can be shown. */
  predicate AllShowable(statements: seq<SyncStatement>) {
    forall i :: 0 <= i < |statements| ==> Showable(statements[i].waitFor) && Showable(statements[i].block)
  }

  /** `generateEventsStatus`; `None` when a set fails the cast to an event. */
  function EventsStatusOf(statements: seq<SyncStatement>): (r: Option<EventsStatus>)
    ensures r.None? <==> !AllShowable(statements)
    ensures r.Some? ==>
      |r.value.wait| <= |statements| && |r.value.blocked| <= |statements|
      && (forall x :: x in r.value.requested <==>
            exists i, j :: 0 <= i < |statements| && 0 <= j < |statements[i].request| && statements[i].request[j].name == x.name)
  {
    if !AllShowable(statements) then None
    else Some(EventsStatus(NamedInfos(WaitSets(statements)), NamedInfos(BlockSets(statements)), RequestedInfos(statements)))
  }

  /** What a single statement contributes: its wait-for and block events unless `none`, and the names it requests. */
  lemma EventsStatusOfOne(s: SyncStatement)
    requires Showable(s.waitFor) && Showable(s.block)
    ensures EventsStatusOf([s]).Some?
    ensures EventsStatusOf([s]).value.wait == if s.waitFor.NoEvents? then [] else [EventInfo(s.waitFor.event.name)]
    ensures EventsStatusOf([s]).value.blocked == if s.block.NoEvents? then [] else [EventInfo(s.block.event.name)]
    ensures EventsStatusOf([s]).value.requested == set e | e in s.request :: EventInfo(e.name)
  {
    assert WaitSets([s])[1..] == [];
    assert BlockSets([s])[1..] == [];
    var req := set e | e in s.request :: EventInfo(e.name);
    forall x | x in req ensures x in RequestedInfos([s]) {
      var e :| e in s.request && x == EventInfo(e.name);
      var j :| 0 <= j < |s.request| && s.request[j] == e;
      assert [s][0].request[j] == e;
    }
  }

  /** The requested names of two runs of statements are those of each run together. */
  lemma RequestedInfosAppend(a: seq<SyncStatement>, b: seq<SyncStatement>)
    ensures RequestedInfos(a + b) == RequestedInfos(a) + RequestedInfos(b)
  {
    var ab := a + b;
    forall x | x in RequestedInfos(ab) ensures x in RequestedInfos(a) + RequestedInfos(b) {
      var i, j :| 0 <= i < |ab| && 0 <= j < |ab[i].request| && x == EventInfo(ab[i].request[j].name);
      if i < |a| {
        assert ab[i] == a[i];
      } else {
        assert ab[i] == b[i - |a|];
      }
    }
    forall x | x in RequestedInfos(a) + RequestedInfos(b) ensures x in RequestedInfos(ab) {
      if x in RequestedInfos(a) {
        var i, j :| 0 <= i < |a| && 0 <= j < |a[i].request| && x == EventInfo(a[i].request[j].name);
        assert ab[i] == a[i];
      } else {
        var i, j :| 0 <= i < |b| && 0 <= j < |b[i].request| && x == EventInfo(b[i].request[j].name);
        assert ab[|a| + i] == b[i];
      }
    }
  }

  /** Statements are summarised one after another: the lists concatenate and the requested sets unite. */
  lemma EventsStatusOfAppend(a: seq<SyncStatement>, b: seq<SyncStatement>)
    requires AllShowable(a) && AllShowable(b)
    ensures EventsStatusOf(a + b).Some?
    ensures EventsStatusOf(a + b).value.wait == EventsStatusOf(a).value.wait + EventsStatusOf(b).value.wait
    ensures EventsStatusOf(a + b).value.blocked == EventsStatusOf(a).value.blocked + EventsStatusOf(b).value.blocked
    ensures EventsStatusOf(a + b).value.requested == EventsStatusOf(a).value.requested + EventsStatusOf(b).value.requested
  {
    assert AllShowable(a + b) by {
      forall i | 0 <= i < |a + b| ensures Showable((a + b)[i].waitFor) && Showable((a + b)[i].block) {
        if i < |a| { assert (a + b)[i] == a[i]; } else { assert (a + b)[i] == b[i - |a|]; }
      }
    }
    assert WaitSets(a + b) == WaitSets(a) + WaitSets(b);
    assert BlockSets(a + b) == BlockSets(a) + BlockSets(b);
    NamedInfosAppend(WaitSets(a), WaitSets(b));
    NamedInfosAppend(BlockSets(a), BlockSets(b));
    RequestedInfosAppend(a, b);
  }

  /** `createBThreadInfo`'s descriptors of one sync statement. */
  function DescriptorsOf(s: SyncStatement): (d: Descriptors)
    requires Showable(s.waitFor) && Showable(s.block)
    ensures d.waitEvent.None? <==> s.waitFor.NoEvents?
    ensures d.blockedEvent.None? <==> s.block.NoEvents?
    ensures d.requested == set e | e in s.request :: EventInfo(e.name)
  {
    Descriptors(
      if s.waitFor.NoEvents? then None else Some(EventInfo(s.waitFor.event.name)),
      if s.block.NoEvents? then None else Some(EventInfo(s.block.event.name)),
      set e | e in s.request :: EventInfo(e.name))
  }

  // ---------------------------------------------------------------------
  // Events history window

  /** The times an events-history list shows. */
  function Times(h: seq<HistoryItem>): set<int> {
    set i | 0 <= i < |h| :: h[i].time
  }

  /** Latest first, each time once. */
  ghost predicate Descending(h: seq<HistoryItem>) {
    forall i, j :: 0 <= i < j < |h| ==> h[i].time > h[j].time
  }

  /**
   * `h` shows the window: the same times, latest first, each with its event's
   * name.
   */
  ghost predicate IsHistoryView(h: seq<HistoryItem>, window: map<int, Event>) {
    && |h| == |window|
    && Descending(h)
    && Times(h) == window.Keys
    && ShowsEntries(h, window)
  }

  /** Putting a later entry in front keeps the list latest first. */
  lemma PrependLater(item: HistoryItem, h: seq<HistoryItem>)
    requires Descending(h)
    requires forall x :: x in Times(h) ==> x < item.time
    ensures Descending([item] + h)
    ensures Times([item] + h) == Times(h) + {item.time}
  {
    var h' := [item] + h;
    forall i, j | 0 <= i < j < |h'| ensures h'[i].time > h'[j].time {
      assert h'[j] == h[j - 1];
      if i > 0 {
        assert h'[i] == h[i - 1];
      } else {
        assert h[j - 1].time in Times(h);
      }
    }
    forall x | x in Times(h') ensures x in Times(h) + {item.time} {
      var i :| 0 <= i < |h'| && h'[i].time == x;
      if i > 0 { assert h'[i] == h[i - 1]; }
    }
    forall x | x in Times(h) ensures x in Times(h') {
      var i :| 0 <= i < |h| && h[i].time == x;
      assert h'[i + 1] == h[i];
    }
    assert h'[0] == item;
  }

  /** Every entry of `h` carries a time of the window and that entry's name. */
  ghost predicate ShowsEntries(h: seq<HistoryItem>, window: map<int, Event>) {
    forall i :: 0 <= i < |h| ==> h[i].time in window && h[i].event == EventInfo(window[h[i].time].name)
  }

  /**
   * Part-way through the window: `h` shows the entries already visited, and
   * every one of them is earlier than each entry still `pending`.
   */
  ghost predicate HistoryProgress(h: seq<HistoryItem>, pending: set<int>, window: map<int, Event>) {
    && pending <= window.Keys
    && |h| + |pending| == |window|
    && Descending(h)
    && Times(h) == window.Keys - pending
    && ShowsEntries(h, window)
    && (forall x, t :: x in Times(h) && t in pending ==> x < t)
  }

  /** Visiting the earliest pending entry and putting it in front keeps the progress. */
  lemma HistoryStep(h: seq<HistoryItem>, pending: set<int>, window: map<int, Event>, t: int)
    requires HistoryProgress(h, pending, window)
    requires IntSets.IsMin(pending, t)
    ensures t in window
    ensures HistoryProgress([HistoryItem(t, EventInfo(window[t].name))] + h, pending - {t}, window)
  {
    var item := HistoryItem(t, EventInfo(window[t].name));
    PrependLater(item, h);
    var h' := [item] + h;
    forall i | 0 <= i < |h'| ensures h'[i].time in window && h'[i].event == EventInfo(window[h'[i].time].name) {
      if i > 0 { assert h'[i] == h[i - 1]; }
    }
    forall x, u | x in Times(h') && u in pending - {t} ensures x < u {
      if x != t { assert x in Times(h); }
    }
  }

  /**
   * `generateEventsHistory`: walk the window in ascending time and put each
   * entry into a map ordered by descending time, which places it in front of
   * all earlier ones.
   */
  method GenerateEventsHistory(window: map<int, Event>) returns (h: seq<HistoryItem>)
    ensures IsHistoryView(h, window)
    ensures h == HistoryOf(window)
  {
    h := [];
    var pending := window.Keys;
    while pending != {}
      invariant HistoryProgress(h, pending, window)
      decreases |pending|
    {
      IntSets.MinExists(pending);
      var t :| IntSets.IsMin(pending, t);
      HistoryStep(h, pending, window, t);
      h := [HistoryItem(t, EventInfo(window[t].name))] + h;
      pending := pending - {t};
    }
    HistoryViewUnique(h, HistoryOf(window), window);
  }

  /** The window's view defined outright: the latest entry, then the view of the rest. */
  ghost function HistoryOf(window: map<int, Event>): (h: seq<HistoryItem>)
    ensures IsHistoryView(h, window)
    decreases |window|
  {
    if window == map[] then []
    else
      IntSets.MaxExists(window.Keys);
      var t :| IntSets.IsMax(window.Keys, t);
      var rest := window - {t};
      assert |rest| < |window| by { assert t in window.Keys; }
      var item := HistoryItem(t, EventInfo(window[t].name));
      ViewCons(item, HistoryOf(rest), window);
      [item] + HistoryOf(rest)
  }

  /** The latest entry of a window in front of the view of the rest is the view of the window. */
  lemma ViewCons(item: HistoryItem, h: seq<HistoryItem>, window: map<int, Event>)
    requires IntSets.IsMax(window.Keys, item.time)
    requires item.event == EventInfo(window[item.time].name)
    requires IsHistoryView(h, window - {item.time})
    ensures IsHistoryView([item] + h, window)
  {
    PrependLater(item, h);
    var h' := [item] + h;
    forall i | 0 <= i < |h'| ensures h'[i].time in window && h'[i].event == EventInfo(window[h'[i].time].name) {
      if i > 0 { assert h'[i] == h[i - 1]; }
    }
    assert |window - {item.time}| == |window| - 1;
  }

  /** The view of a window is unique, so two computations of it agree. */
  lemma {:induction false} HistoryViewUnique(h1: seq<HistoryItem>, h2: seq<HistoryItem>, window: map<int, Event>)
    requires IsHistoryView(h1, window) && IsHistoryView(h2, window)
    ensures h1 == h2
    decreases |h1|
  {
    if |h1| > 0 {
      HeadsAgree(h1, h2, window);
      ViewTail(h1, window);
      ViewTail(h2, window);
      HistoryViewUnique(h1[1..], h2[1..], window - {h1[0].time});
      ConsEqual(h1, h2);
    }
  }

  /** Lists with the same first entry and the same rest are equal. */
  lemma ConsEqual(h1: seq<HistoryItem>, h2: seq<HistoryItem>)
    requires |h1| > 0 && |h2| > 0 && h1[0] == h2[0] && h1[1..] == h2[1..]
    ensures h1 == h2
  {
    assert h1 == [h1[0]] + h1[1..] && h2 == [h2[0]] + h2[1..];
  }

  /** Two views of one window start with the same entry. */
  lemma HeadsAgree(h1: seq<HistoryItem>, h2: seq<HistoryItem>, window: map<int, Event>)
    requires IsHistoryView(h1, window) && IsHistoryView(h2, window) && |h1| > 0
    ensures |h2| > 0 && h1[0] == h2[0]
  {
    HeadIsLatest(h1);
    HeadIsLatest(h2);
  }

  /** The first entry of a latest-first list carries its largest time. */
  lemma HeadIsLatest(h: seq<HistoryItem>)
    requires Descending(h) && |h| > 0
    ensures IntSets.IsMax(Times(h), h[0].time)
  {
    forall x | x in Times(h) ensures x <= h[0].time {
      var i :| 0 <= i < |h| && h[i].time == x;
    }
  }

  /** Without its first entry a view shows the window without the latest time. */
  lemma ViewTail(h: seq<HistoryItem>, window: map<int, Event>)
    requires IsHistoryView(h, window) && |h| > 0
    ensures IsHistoryView(h[1..], window - {h[0].time})
    ensures |window - {h[0].time}| < |window|
  {
    var t := h[0].time;
    var tail := h[1..];
    forall x | x in Times(tail) ensures x in window.Keys - {t} {
      var i :| 0 <= i < |tail| && tail[i].time == x;
      assert tail[i] == h[i + 1];
    }
    forall x | x in window.Keys - {t} ensures x in Times(tail) {
      assert x in Times(h);
      var i :| 0 <= i < |h| && h[i].time == x;
      assert tail[i - 1] == h[i];
    }
    assert t in window;
  }

  // ---------------------------------------------------------------------
  // Scope tables and environments

  /** The name shown under `FUNCNAME`: the function's name, or `BTMain` for a b-thread's main body. */
  function DisplayName(functionName: Option<string>): string {
    if functionName.Some? then functionName.value else "BTMain"
  }

  /** The id of the hidden parameter object, the function's name followed by `param` (`nullparam` when there is none). */
  function ParamId(functionName: Option<string>): string {
    (if functionName.Some? then functionName.value else "null") + "param"
  }

  /** Whether `getScope` lists a variable: neither `arguments` nor the parameter object. */
  predicate Listed(scope: Scope, id: string) {
    id != "arguments" && id != ParamId(scope.functionName)
  }

  /** The listed variables among `ids`, each converted. */
  function VariablesView(scope: Scope, ids: set<string>): map<string, ScopeValue> {
    map id | id in ids && id in scope.variables && Listed(scope, id) :: Json(Collect(scope.variables[id]))
  }

  /**
   * The table `getScope` builds: `FUNCNAME` first, then every listed
   * variable (a variable itself called `FUNCNAME` replaces the name).
   */
  function ScopeView(scope: Scope): ScopeEnv {
    map["FUNCNAME" := FunctionName(DisplayName(scope.functionName))] + VariablesView(scope, scope.variables.Keys)
  }

  /** What a scope table holds: the name, the listed variables converted, and nothing hidden. */
  lemma ScopeViewContents(scope: Scope)
    ensures "FUNCNAME" in ScopeView(scope)
    ensures "arguments" !in ScopeView(scope) && ParamId(scope.functionName) !in ScopeView(scope)
    ensures "FUNCNAME" !in scope.variables ==> ScopeView(scope)["FUNCNAME"] == FunctionName(DisplayName(scope.functionName))
    ensures forall id :: id in ScopeView(scope) && id != "FUNCNAME" ==> id in scope.variables && Listed(scope, id)
    ensures forall id :: id in scope.variables && Listed(scope, id) ==>
      id in ScopeView(scope) && ScopeView(scope)[id] == Json(Collect(scope.variables[id]))
  {
    var p := ParamId(scope.functionName);
    assert "FUNCNAME" != p by {
      assert p[|p| - 1] == 'm';
    }
  }

  /** Adding one listed variable to those already put. */
  lemma VariablesViewAdd(scope: Scope, done: set<string>, id: string)
    requires id in scope.variables && Listed(scope, id)
    ensures VariablesView(scope, done + {id}) == VariablesView(scope, done)[id := Json(Collect(scope.variables[id]))]
  {
  }

  /** `getScope`: put the name, then each listed variable in turn. */
  method GetScope(scope: Scope) returns (env: ScopeEnv)
    ensures env == ScopeView(scope)
  {
    var head := map["FUNCNAME" := FunctionName(DisplayName(scope.functionName))];
    env := head;
    var pending := set id | id in scope.variables && Listed(scope, id);
    ghost var done: set<string> := {};
    while pending != {}
      invariant forall id :: id in pending ==> id in scope.variables && Listed(scope, id)
      invariant env == head + VariablesView(scope, done)
      invariant VariablesView(scope, done + pending) == VariablesView(scope, scope.variables.Keys)
      decreases |pending|
    {
      var id :| id in pending;
      var value := Json(Collect(scope.variables[id]));
      NextVariable(head, scope, done, pending, id);
      env := env[id := value];
      done := done + {id};
      pending := pending - {id};
    }
  }

  /** One step of `getScope`'s loop keeps what has been put equal to the view of the visited ids. */
  lemma NextVariable(head: ScopeEnv, scope: Scope, done: set<string>, pending: set<string>, id: string)
    requires id in pending && id in scope.variables && Listed(scope, id)
    ensures (head + VariablesView(scope, done))[id := Json(Collect(scope.variables[id]))] == head + VariablesView(scope, done + {id})
    ensures done + pending == (done + {id}) + (pending - {id})
  {
    VariablesViewAdd(scope, done, id);
  }

  /** The tables of the first `n` debugger context frames, numbered from 0. */
  function FramesView(context: seq<StackFrame>, n: nat): map<int, ScopeEnv>
    requires n <= |context|
  {
    map k | 0 <= k < n :: ScopeView(context[k].scope)
  }

  /** The table of parent `k`, counting the nearest parent as 1. */
  function ParentTable(parents: seq<Scope>, k: int): ScopeEnv
    requires 1 <= k <= |parents|
  {
    ScopeView(parents[k - 1])
  }

  /** The tables of the first `n` parent frames, numbered from 1. */
  function ParentsView(parents: seq<Scope>, n: nat): map<int, ScopeEnv>
    requires n <= |parents|
  {
    map k | 1 <= k <= n :: ParentTable(parents, k)
  }

  /**
   * The environment `getEnv` builds: the context frames by index, then the
   * frame's own scope at 0 and its parents at 1, 2, ... over them.
   */
  function EnvView(frame: CallFrame, context: seq<StackFrame>): Env {
    FramesView(context, |context|)[0 := ScopeView(frame.scope)] + ParentsView(frame.parents, |frame.parents|)
  }

  /**
   * How `getEnv` numbers the tables: key 0 is the frame's own scope (over
   * context frame 0), keys 1, 2, ... its parents in walk order, and context
   * frames remain only above the last parent.
   */
  lemma EnvNumbering(frame: CallFrame, context: seq<StackFrame>)
    ensures forall k :: k in EnvView(frame, context) <==> 0 <= k && (k < |context| || k <= |frame.parents|)
    ensures EnvView(frame, context)[0] == ScopeView(frame.scope)
    ensures forall k :: 1 <= k <= |frame.parents| ==> EnvView(frame, context)[k] == ScopeView(frame.parents[k - 1])
    ensures forall k :: |frame.parents| < k < |context| ==> EnvView(frame, context)[k] == ScopeView(context[k].scope)
  {
    var parents := ParentsView(frame.parents, |frame.parents|);
    forall k | 1 <= k <= |frame.parents| ensures EnvView(frame, context)[k] == ScopeView(frame.parents[k - 1]) {
      assert parents[k] == ParentTable(frame.parents, k);
    }
  }

  /** One more context frame. */
  lemma FramesViewStep(context: seq<StackFrame>, i: nat)
    requires i < |context|
    ensures FramesView(context, i + 1) == FramesView(context, i)[i := ScopeView(context[i].scope)]
  {
  }

  /** One more parent frame. */
  lemma ParentsViewStep(parents: seq<Scope>, j: nat)
    requires j < |parents|
    ensures ParentsView(parents, j + 1) == ParentsView(parents, j)[j + 1 := ScopeView(parents[j])]
  {
    assert ParentTable(parents, j + 1) == ScopeView(parents[j]);
  }

  /** Updating a union updates its right-hand side. */
  lemma UpdateOverUnion<K, V>(a: map<K, V>, b: map<K, V>, k: K, v: V)
    ensures (a + b)[k := v] == a + b[k := v]
  {
  }

  /** `getEnv`: fill from the context frames, overwrite key 0, then count up through the parents. */
  method GetEnv(frame: CallFrame, context: seq<StackFrame>) returns (env: Env)
    ensures env == EnvView(frame, context)
  {
    env := map[];
    for i := 0 to |context|
      invariant env == FramesView(context, i)
    {
      var table := GetScope(context[i].scope);
      FramesViewStep(context, i);
      env := env[i := table];
    }
    var own := GetScope(frame.scope);
    env := env[0 := own];
    ghost var base := env;
    var key := 1;
    for j := 0 to |frame.parents|
      invariant key == j + 1
      invariant env == base + ParentsView(frame.parents, j)
    {
      var table := GetScope(frame.parents[j]);
      ParentsViewStep(frame.parents, j);
      UpdateOverUnion(base, ParentsView(frame.parents, j), key, table);
      env := env[key := table];
      key := key + 1;
    }
  }

  /** The reported line: that of context frame 0, if there is context data with a frame. */
  function LineNumber(context: Option<seq<StackFrame>>): (r: Option<int>)
    ensures r.Some? <==> context.Some? && |context.value| > 0
    ensures r.Some? ==> r.value == context.value[0].line
  {
    if context.Some? && |context.value| > 0 then Some(context.value[0].line) else None
  }

  // ---------------------------------------------------------------------
  // B-thread infos

  /** `getEnvDebug` records the b-thread as the running one when a frame is live and `frame`'s scope is the interrupted one. */
  function RunningAfter(frame: CallFrame, name: string, dbg: DebugContext, running: Option<string>): (r: Option<string>)
    ensures r != running ==> r == Some(name)
    ensures dbg.live.None? ==> r == running
  {
    if dbg.live.Some? && dbg.interrupted(frame) then Some(name) else running
  }

  /** A b-thread's environment: the script debugger's view in `JS_DEBUG`, otherwise `getEnv` over its own frames. */
  function ThreadEnv(bt: BThreadSnapshot, state: RunnerState, dbg: DebugContext): Env {
    if state == JsDebug then dbg.envDebug(bt.implementation) else EnvView(bt.implementation, bt.debuggerContext)
  }

  /** `createBThreadInfo`; `None` when the wait-for or block set fails the cast to an event. */
  function BThreadInfoOf(bt: BThreadSnapshot, state: RunnerState, dbg: DebugContext): (r: Option<BThreadInfo>)
    ensures r.Some? <==> Showable(bt.sync.waitFor) && Showable(bt.sync.block)
    ensures r.Some? ==> r.value.name == bt.name && r.value.descriptors == Some(DescriptorsOf(bt.sync))
  {
    if Showable(bt.sync.waitFor) && Showable(bt.sync.block) then
      Some(BThreadInfo(bt.name, ThreadEnv(bt, state, dbg), Some(DescriptorsOf(bt.sync))))
    else None
  }

  /** The infos collected so far (`None` once a cast failed) and the running b-thread recorded so far. */
  datatype Scan = Scan(infos: Option<seq<BThreadInfo>>, running: Option<string>)

  /**
   * Mapping `createBThreadInfo` over the b-threads: the environment of each
   * is built (and the running b-thread noted) before its descriptors; a
   * failed cast ends the walk.
   */
  function ThreadsScan(bts: seq<BThreadSnapshot>, state: RunnerState, dbg: DebugContext, running: Option<string>): (r: Scan)
    ensures r.infos.Some? <==> forall i :: 0 <= i < |bts| ==> BThreadInfoOf(bts[i], state, dbg).Some?
    ensures r.infos.Some? ==> |r.infos.value| == |bts|
    ensures r.infos.Some? ==> forall i :: 0 <= i < |bts| ==> Some(r.infos.value[i]) == BThreadInfoOf(bts[i], state, dbg)
    ensures state != JsDebug ==> r.running == running
  {
    if bts == [] then Scan(Some([]), running)
    else
      var p := ThreadsScan(bts[..|bts| - 1], state, dbg, running);
      var bt := bts[|bts| - 1];
      assert forall i :: 0 <= i < |bts| - 1 ==> bts[..|bts| - 1][i] == bts[i];
      if p.infos.None? then p
      else
        var running' := if state == JsDebug then RunningAfter(bt.implementation, bt.name, dbg, p.running) else p.running;
        var info := BThreadInfoOf(bt, state, dbg);
        if info.None? then Scan(None, running')
        else Scan(Some(p.infos.value + [info.value]), running')
  }

  /** Visiting one more b-thread. */
  lemma ThreadsScanNext(bts: seq<BThreadSnapshot>, i: nat, state: RunnerState, dbg: DebugContext, running: Option<string>,
                        infos: seq<BThreadInfo>, running': Option<string>)
    requires i < |bts|
    requires ThreadsScan(bts[..i], state, dbg, running) == Scan(Some(infos), running')
    ensures var after := if state == JsDebug then RunningAfter(bts[i].implementation, bts[i].name, dbg, running') else running';
      ThreadsScan(bts[..i + 1], state, dbg, running) ==
        if BThreadInfoOf(bts[i], state, dbg).None? then Scan(None, after)
        else Scan(Some(infos + [BThreadInfoOf(bts[i], state, dbg).value]), after)
  {
    assert bts[..i + 1][..i] == bts[..i];
  }

  /** Once a cast has failed, the later b-threads are not visited. */
  lemma {:induction false} ThreadsScanStops(bts: seq<BThreadSnapshot>, k: nat, state: RunnerState, dbg: DebugContext, running: Option<string>)
    requires k <= |bts|
    requires ThreadsScan(bts[..k], state, dbg, running).infos.None?
    ensures ThreadsScan(bts, state, dbg, running) == ThreadsScan(bts[..k], state, dbg, running)
    decreases |bts|
  {
    if k < |bts| {
      assert bts[..|bts| - 1][..k] == bts[..k];
      ThreadsScanStops(bts[..|bts| - 1], k, state, dbg, running);
    } else {
      assert bts[..k] == bts;
    }
  }

  // ---------------------------------------------------------------------
  // Recently registered b-threads

  /**
   * The walk of `getRecentlyAddedBTInfo`: the infos added, the saved
   * interpreter frames (`None` once cleared), the running b-thread, and
   * whether a null dereference ended the walk.
   */
  datatype Recent = Recent(infos: seq<BThreadInfo>, frames: Option<map<string, CallFrame>>, running: Option<string>, stopped: bool)

  /**
   * One registered b-thread: the one started from the live frame's base
   * entry is shown with the live environment and its frame is saved; any
   * other is shown with the environment of its saved frame, or an empty
   * one. A cleared frame map is dereferenced and ends the walk.
   */
  function RecentStep(p: Recent, reg: (string, EntryPoint), dbg: DebugContext): Recent {
    if p.stopped then p
    else
      var name := reg.0;
      if dbg.live.Some? && reg.1 == dbg.live.value.baseEntry then
        var f := dbg.live.value.frame;
        var running := RunningAfter(f, name, dbg, p.running);
        if p.frames.None? then Recent(p.infos, None, running, true)
        else Recent(p.infos + [BThreadInfo(name, dbg.envDebug(f), None)], Some(p.frames.value[name := f]), running, false)
      else if p.frames.None? then p.(stopped := true)
      else if name in p.frames.value then
        var f := p.frames.value[name];
        Recent(p.infos + [BThreadInfo(name, dbg.envDebug(f), None)], p.frames, RunningAfter(f, name, dbg, p.running), false)
      else Recent(p.infos + [BThreadInfo(name, map[], None)], p.frames, p.running, false)
  }

  /** `getRecentlyAddedBTInfo` over the registered b-threads, in order. */
  function RecentlyAdded(regs: seq<(string, EntryPoint)>, frames: Option<map<string, CallFrame>>, running: Option<string>, dbg: DebugContext): (r: Recent)
    ensures frames.None? ==> r.infos == [] && r.frames.None?
    ensures frames.Some? ==> !r.stopped && r.frames.Some? && frames.value.Keys <= r.frames.value.Keys
    ensures frames.Some? ==> |r.infos| == |regs|
    ensures frames.Some? ==> forall i :: 0 <= i < |regs| ==> r.infos[i].name == regs[i].0 && r.infos[i].descriptors.None?
    ensures frames.Some? && dbg.live.Some? ==>
      forall i :: 0 <= i < |regs| && regs[i].1 == dbg.live.value.baseEntry ==>
        regs[i].0 in r.frames.value && r.frames.value[regs[i].0] == dbg.live.value.frame
  {
    if regs == [] then Recent([], frames, running, false)
    else
      var p := RecentlyAdded(regs[..|regs| - 1], frames, running, dbg);
      assert forall i :: 0 <= i < |regs| - 1 ==> regs[..|regs| - 1][i] == regs[i];
      RecentStep(p, regs[|regs| - 1], dbg)
  }

  /** Once the walk has stopped, the later b-threads are not visited. */
  lemma {:induction false} RecentlyAddedStops(regs: seq<(string, EntryPoint)>, k: nat, frames: Option<map<string, CallFrame>>, running: Option<string>, dbg: DebugContext)
    requires k <= |regs|
    requires RecentlyAdded(regs[..k], frames, running, dbg).stopped
    ensures RecentlyAdded(regs, frames, running, dbg) == RecentlyAdded(regs[..k], frames, running, dbg)
    decreases |regs|
  {
    if k < |regs| {
      assert regs[..|regs| - 1][..k] == regs[..k];
      RecentlyAddedStops(regs[..|regs| - 1], k, frames, running, dbg);
    } else {
      assert regs[..k] == regs;
    }
  }

  // ---------------------------------------------------------------------
  // The helper object

  /** The bookkeeping fields of the helper, besides `lastState`. */
  datatype Tracking = Tracking(
    recent: Option<seq<(string, EntryPoint)>>,
    frames: Option<map<string, CallFrame>>,
    running: Option<string>)

  /** `getRecentlyAddedBTInfo` on the helper's bookkeeping; with no registered list the walk fails at once. */
  function RecentInfos(t: Tracking, dbg: DebugContext): (seq<BThreadInfo>, Tracking) {
    if t.recent.None? then ([], t)
    else
      var rec := RecentlyAdded(t.recent.value, t.frames, t.running, dbg);
      (rec.infos, Tracking(t.recent, rec.frames, rec.running))
  }

  /**
   * `generateBThreadInfos`: the infos of the snapshot's b-threads; in
   * `JS_DEBUG` followed by the recently registered ones, otherwise the
   * bookkeeping is cleared.
   */
  function InfosSpec(t: Tracking, snap: Snapshot, state: RunnerState, dbg: DebugContext): (Option<seq<BThreadInfo>>, Tracking) {
    var scan := ThreadsScan(snap.bThreads, state, dbg, t.running);
    if scan.infos.None? then (None, t.(running := scan.running))
    else if state == JsDebug then
      var (recent, t') := RecentInfos(t.(running := scan.running), dbg);
      (Some(scan.infos.value + recent), t')
    else (scan.infos, Tracking(None, None, None))
  }

  /**
   * One info per b-thread snapshot, in order; recently registered b-threads
   * are added only in `JS_DEBUG`, and in every other state the bookkeeping
   * ends up cleared.
   */
  lemma InfosShape(t: Tracking, snap: Snapshot, state: RunnerState, dbg: DebugContext)
    ensures var (infos, t') := InfosSpec(t, snap, state, dbg);
      && (infos.Some? <==> forall i :: 0 <= i < |snap.bThreads| ==> BThreadInfoOf(snap.bThreads[i], state, dbg).Some?)
      && (infos.Some? ==> |infos.value| >= |snap.bThreads|)
      && (infos.Some? ==> forall i :: 0 <= i < |snap.bThreads| ==> Some(infos.value[i]) == BThreadInfoOf(snap.bThreads[i], state, dbg))
      && (infos.Some? && state != JsDebug ==> |infos.value| == |snap.bThreads| && t' == Tracking(None, None, None))
      && (state == JsDebug ==> t'.recent == t.recent)
  {
  }

  /** After the bookkeeping is cleared, no recently registered b-thread is shown again. */
  lemma ClearedShowsNoRecent(snap: Snapshot, dbg: DebugContext, regs: seq<(string, EntryPoint)>)
    requires InfosSpec(Tracking(Some(regs), None, None), snap, JsDebug, dbg).0.Some?
    ensures |InfosSpec(Tracking(Some(regs), None, None), snap, JsDebug, dbg).0.value| == |snap.bThreads|
  {
  }

  /**
   * `generateDebuggerStateInner`: `None` when a set fails the cast to an
   * event (the exception escapes), otherwise the full state.
   */
  ghost function StateSpec(t: Tracking, snap: Snapshot, state: RunnerState, context: Option<seq<StackFrame>>, dbg: DebugContext,
                           window: map<int, Event>, breakpoints: Option<seq<bool>>): (Option<DebuggerState>, Tracking)
  {
    var (infos, t') := InfosSpec(t, snap, state, dbg);
    if infos.None? then (None, t')
    else
      var status := EventsStatusOf(snap.statements);
      if status.None? then (None, t')
      else (Some(DebuggerState(infos.value, status.value, HistoryOf(window), t'.running, LineNumber(context), breakpoints)), t')
  }

  /** What a generated state shows. */
  lemma StateContents(t: Tracking, snap: Snapshot, state: RunnerState, context: Option<seq<StackFrame>>, dbg: DebugContext,
                      window: map<int, Event>, breakpoints: Option<seq<bool>>)
    ensures var (r, t') := StateSpec(t, snap, state, context, dbg, window, breakpoints);
      && (r.Some? <==> InfosSpec(t, snap, state, dbg).0.Some? && AllShowable(snap.statements))
      && (r.Some? ==>
            && r.value.eventsStatus == EventsStatusOf(snap.statements).value
            && IsHistoryView(r.value.eventsHistory, window)
            && r.value.currentRunningBT == t'.running
            && r.value.lineNumber == LineNumber(context)
            && r.value.breakpoints == breakpoints)
  {
  }

  /** `DebuggerStateHelper`. */
  class DebuggerStateHelper {
    var recentlyRegisteredBT: Option<seq<(string, EntryPoint)>>
    var newBTInterpreterFrames: Option<map<string, CallFrame>>
    var lastState: Option<DebuggerState>
    var currentRunningBT: Option<string>

    /** The bookkeeping fields together. */
    function Fields(): Tracking
      reads this
    {
      Tracking(recentlyRegisteredBT, newBTInterpreterFrames, currentRunningBT)
    }

    constructor()
      ensures recentlyRegisteredBT == None && newBTInterpreterFrames == Some(map[])
      ensures lastState == None && currentRunningBT == None
    {
      recentlyRegisteredBT := None;
      newBTInterpreterFrames := Some(map[]);
      lastState := None;
      currentRunningBT := None;
    }

    /** `setRecentlyRegisteredBThreads`. */
    method SetRecentlyRegisteredBThreads(regs: Option<seq<(string, EntryPoint)>>)
      modifies this`recentlyRegisteredBT
      ensures recentlyRegisteredBT == regs
    {
      recentlyRegisteredBT := regs;
    }

    /** `cleanFields`. */
    method CleanFields()
      modifies this`recentlyRegisteredBT, this`newBTInterpreterFrames, this`currentRunningBT
      ensures Fields() == Tracking(None, None, None)
    {
      recentlyRegisteredBT := None;
      newBTInterpreterFrames := None;
      currentRunningBT := None;
    }

    /** `getEnvDebug`, whose environment comes from the script debugger; it may record the running b-thread. */
    method EnvDebug(frame: CallFrame, name: string, dbg: DebugContext) returns (env: Env)
      modifies this`currentRunningBT
      ensures env == dbg.envDebug(frame)
      ensures currentRunningBT == RunningAfter(frame, name, dbg, old(currentRunningBT))
    {
      env := dbg.envDebug(frame);
      if dbg.live.Some? && dbg.interrupted(frame) {
        currentRunningBT := Some(name);
      }
    }

    /** `createBThreadInfo`: the environment first, then the descriptors. */
    method CreateBThreadInfo(bt: BThreadSnapshot, state: RunnerState, dbg: DebugContext) returns (r: Option<BThreadInfo>)
      modifies this`currentRunningBT
      ensures r == BThreadInfoOf(bt, state, dbg)
      ensures currentRunningBT == (if state == JsDebug then RunningAfter(bt.implementation, bt.name, dbg, old(currentRunningBT)) else old(currentRunningBT))
    {
      var env;
      if state == JsDebug {
        env := EnvDebug(bt.implementation, bt.name, dbg);
      } else {
        env := GetEnv(bt.implementation, bt.debuggerContext);
      }
      if !Showable(bt.sync.waitFor) || !Showable(bt.sync.block) {
        return None;
      }
      r := Some(BThreadInfo(bt.name, env, Some(DescriptorsOf(bt.sync))));
    }

    /** `getRecentlyAddedBTInfo`. */
    method GetRecentlyAddedBTInfo(dbg: DebugContext) returns (infos: seq<BThreadInfo>)
      modifies this`newBTInterpreterFrames, this`currentRunningBT
      ensures (infos, Fields()) == RecentInfos(old(Fields()), dbg)
    {
      infos := [];
      if recentlyRegisteredBT.None? {
        return;
      }
      var regs := recentlyRegisteredBT.value;
      var stopped := false;
      var i := 0;
      while i < |regs|
        invariant 0 <= i <= |regs|
        invariant Recent(infos, newBTInterpreterFrames, currentRunningBT, stopped)
          == RecentlyAdded(regs[..i], old(newBTInterpreterFrames), old(currentRunningBT), dbg)
        invariant !stopped
        invariant recentlyRegisteredBT == Some(regs)
      {
        var name := regs[i].0;
        assert regs[..i + 1][..i] == regs[..i];
        if dbg.live.Some? && regs[i].1 == dbg.live.value.baseEntry {
          var f := dbg.live.value.frame;
          var env := EnvDebug(f, name, dbg);
          if newBTInterpreterFrames.None? {
            RecentlyAddedStops(regs, i + 1, old(newBTInterpreterFrames), old(currentRunningBT), dbg);
            return;
          }
          newBTInterpreterFrames := Some(newBTInterpreterFrames.value[name := f]);
          infos := infos + [BThreadInfo(name, env, None)];
        } else {
          if newBTInterpreterFrames.None? {
            RecentlyAddedStops(regs, i + 1, old(newBTInterpreterFrames), old(currentRunningBT), dbg);
            return;
          }
          var env: Env := map[];
          if name in newBTInterpreterFrames.value {
            env := EnvDebug(newBTInterpreterFrames.value[name], name, dbg);
          }
          infos := infos + [BThreadInfo(name, env, None)];
        }
        i := i + 1;
      }
      assert regs[..i] == regs;
    }

    /** `generateBThreadInfos`. */
    method GenerateBThreadInfos(snap: Snapshot, state: RunnerState, dbg: DebugContext) returns (r: Option<seq<BThreadInfo>>)
      modifies this`recentlyRegisteredBT, this`newBTInterpreterFrames, this`currentRunningBT
      ensures (r, Fields()) == InfosSpec(old(Fields()), snap, state, dbg)
    {
      var bts := snap.bThreads;
      var infos: seq<BThreadInfo> := [];
      for i := 0 to |bts|
        invariant ThreadsScan(bts[..i], state, dbg, old(currentRunningBT)) == Scan(Some(infos), currentRunningBT)
        invariant recentlyRegisteredBT == old(recentlyRegisteredBT) && newBTInterpreterFrames == old(newBTInterpreterFrames)
      {
        ThreadsScanNext(bts, i, state, dbg, old(currentRunningBT), infos, currentRunningBT);
        var info := CreateBThreadInfo(bts[i], state, dbg);
        if info.None? {
          ThreadsScanStops(bts, i + 1, state, dbg, old(currentRunningBT));
          return None;
        }
        infos := infos + [info.value];
      }
      assert bts[..|bts|] == bts;
      ghost var t := old(Fields());
      assert ThreadsScan(bts, state, dbg, t.running) == Scan(Some(infos), currentRunningBT);
      if state == JsDebug {
        var recent := GetRecentlyAddedBTInfo(dbg);
        infos := infos + recent;
      } else {
        CleanFields();
      }
      r := Some(infos);
    }

    /** `generateDebuggerStateInner`. */
    method GenerateDebuggerStateInner(snap: Snapshot, state: RunnerState, context: Option<seq<StackFrame>>, dbg: DebugContext,
                                      window: map<int, Event>, breakpoints: Option<seq<bool>>) returns (r: Option<DebuggerState>)
      modifies this`recentlyRegisteredBT, this`newBTInterpreterFrames, this`currentRunningBT
      ensures (r, Fields()) == StateSpec(old(Fields()), snap, state, context, dbg, window, breakpoints)
    {
      var infos := GenerateBThreadInfos(snap, state, dbg);
      if infos.None? {
        return None;
      }
      var status := EventsStatusOf(snap.statements);
      if status.None? {
        return None;
      }
      var line := LineNumber(context);
      var history := GenerateEventsHistory(window);
      r := Some(DebuggerState(infos.value, status.value, history, currentRunningBT, line, breakpoints));
    }

    /** `generateDebuggerState`: the new state becomes the last one, which `getLastState` returns. */
    method GenerateDebuggerState(snap: Snapshot, state: RunnerState, context: Option<seq<StackFrame>>, dbg: DebugContext,
                                 window: map<int, Event>, breakpoints: Option<seq<bool>>) returns (r: Option<DebuggerState>)
      modifies this
      ensures (r, Fields()) == StateSpec(old(Fields()), snap, state, context, dbg, window, breakpoints)
      ensures lastState == if r.Some? then r else old(lastState)
    {
      r := GenerateDebuggerStateInner(snap, state, context, dbg, window, breakpoints);
      if r.Some? {
        lastState := r;
      }
    }

    /** `peekNextState`: the same state, leaving the last one as it was. */
    method PeekNextState(snap: Snapshot, state: RunnerState, context: Option<seq<StackFrame>>, dbg: DebugContext,
                         window: map<int, Event>, breakpoints: Option<seq<bool>>) returns (r: Option<DebuggerState>)
      modifies this`recentlyRegisteredBT, this`newBTInterpreterFrames, this`currentRunningBT
      ensures (r, Fields()) == StateSpec(old(Fields()), snap, state, context, dbg, window, breakpoints)
      ensures lastState == old(lastState)
    {
      r := GenerateDebuggerStateInner(snap, state, context, dbg, window, breakpoints);
    }
  }
}
