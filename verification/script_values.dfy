/**
 * Script (Rhino) values as seen by the debugger, and their conversion into a
 * transport-neutral tree (`DebuggerStateHelper.collectJsValue`).
 */
module ScriptValues {
  /** A Java object reachable from a script; only its identity matters here. */
  datatype HostObject = HostObject(id: nat)

  /** Values that are neither script objects nor wrapped Java objects. */
  datatype Prim = Str(text: string) | Num(n: int) | Bool(b: bool) | Undefined

  /**
   * The kinds of value `collectJsValue` tells apart, in the order it tests them:
   * a function and an array are script objects too, but are matched first.
   */
  datatype JsValue =
    | JsNull
    | JsFunction(source: string)                  // NativeFunction, with its encoded source
    | JsArray(elements: seq<JsValue>)              // NativeArray
    | JsObject(properties: map<string, JsValue>)   // any other ScriptableObject, by property id
    | JsConsString(left: string, right: string)    // a lazily concatenated string
    | JsJavaObject(wrapped: HostObject)            // NativeJavaObject
    | JsOther(prim: Prim)                          // everything else

  /** The converted value: null, a plain value, a list, a map or an unwrapped Java object. */
  datatype Tree =
    | TNull
    | TPrim(prim: Prim)
    | TList(items: seq<Tree>)
    | TMap(entries: map<string, Tree>)
    | THost(host: HostObject)

  /** `collectJsValue`: unwrap a script value recursively. */
  function Collect(v: JsValue): (t: Tree)
    ensures v.JsNull? <==> t.TNull?
    ensures v.JsFunction? ==> t == TPrim(Str(v.source))
    ensures v.JsConsString? ==> t == TPrim(Str(v.left + v.right))
    ensures v.JsJavaObject? ==> t == THost(v.wrapped)
    ensures v.JsOther? ==> t == TPrim(v.prim)
    ensures v.JsArray? ==> t.TList? && |t.items| == |v.elements|
    ensures v.JsArray? ==> forall i :: 0 <= i < |v.elements| ==> t.items[i] == Collect(v.elements[i])
    ensures v.JsObject? ==> t.TMap? && t.entries.Keys == v.properties.Keys
    ensures v.JsObject? ==> forall k :: k in v.properties ==> t.entries[k] == Collect(v.properties[k])
  {
    match v
    case JsNull => TNull
    case JsFunction(source) => TPrim(Str(source))
    case JsArray(elements) => TList(seq(|elements|, i requires 0 <= i < |elements| => Collect(elements[i])))
    case JsObject(properties) => TMap(map k | k in properties :: Collect(properties[k]))
    case JsConsString(left, right) => TPrim(Str(left + right))
    case JsJavaObject(wrapped) => THost(wrapped)
    case JsOther(prim) => TPrim(prim)
  }

  /**
   * The script value a converted tree stands for: lists become arrays, maps
   * objects, plain values stay as they are and host objects are re-wrapped.
   */
  function Embed(t: Tree): (v: JsValue)
    ensures t.TNull? <==> v.JsNull?
  {
    match t
    case TNull => JsNull
    case TPrim(prim) => JsOther(prim)
    case TList(items) => JsArray(seq(|items|, i requires 0 <= i < |items| => Embed(items[i])))
    case TMap(entries) => JsObject(map k | k in entries :: Embed(entries[k]))
    case THost(host) => JsJavaObject(host)
  }

  /**
   * Converting is the identity on values that are already plain: every tree is
   * the conversion of the script value it stands for. In particular a value
   * that is neither a function, an array, an object, a cons string nor a
   * wrapped Java object comes back unchanged, at any depth.
   */
  lemma {:induction false} CollectEmbed(t: Tree)
    ensures Collect(Embed(t)) == t
  {
    match t
    case TNull =>
    case TPrim(_) =>
    case THost(_) =>
    case TList(items) =>
      var r := Collect(Embed(t));
      forall i | 0 <= i < |items|
        ensures r.items[i] == items[i]
      {
        CollectEmbed(items[i]);
      }
      assert r.items == items;
    case TMap(entries) =>
      var r := Collect(Embed(t));
      forall k | k in entries
        ensures r.entries[k] == entries[k]
      {
        CollectEmbed(entries[k]);
      }
      assert r.entries == entries;
  }

  /** Converting twice gains nothing: a converted tree, read back as a script value, converts to itself. */
  lemma CollectStable(v: JsValue)
    ensures Collect(Embed(Collect(v))) == Collect(v)
  {
    CollectEmbed(Collect(v));
  }
}
