/**
 * What the runtime hook sees of React: the hook calls a render makes, the
 * slots the build step hands it, and the dependency token.
 *
 * A hook function is known by its `name`, which is all the runtime inspects
 * of it. React's answer to a `useState`/`useRef` call is a parameter of the
 * render (`HookResults`), and a loaded module's default export is a function
 * value (`ImportedHook`).
 */
module ReactHost {
  import opened JsValues

  /** `[hook, value]`; a slot without a second element has `value == Undefined`. */
  datatype Slot = Slot(hook: string, value: JsValue)

  /** The arguments of one hook call. */
  datatype HookArgs =
    | NoArgs                          // hook()
    | Value(v: JsValue)               // hook(value)
    | Callback(deps: seq<JsValue>)    // hook(callback, deps)

  /** One hook call made during a render, in the order React records it. */
  datatype HookCall = HookCall(hook: string, args: HookArgs)

  /** What a render can throw. */
  datatype RenderError =
    | RangeError   // new Array(n) with an invalid length
    | TypeError    // a method called on `undefined`

  /** The default export of the loaded module: `(args, additionalDependency, initialStates) => result`. */
  type ImportedHook = (JsValue, string, seq<JsValue>) -> JsValue

  /** The value React returns for a hook call. */
  type HookResults = HookCall -> JsValue

  /**
   * The calls every render starts with: `useState(false)`, the three
   * `useRef`s for `isLoading`, `importedHook` and `isMounted`, and the
   * unmount effect with an empty dependency list.
   */
  function Prefix(): (p: seq<HookCall>)
    ensures |p| == 5
  {
    [ HookCall("useState", Value(Bool(false))),
      HookCall("useRef", Value(Bool(false))),
      HookCall("useRef", Value(Null)),
      HookCall("useRef", Value(Bool(true))),
      HookCall("useEffect", Callback([])) ]
  }

  /** `${!!importPromise}${loaded}`. */
  function Token(promise: bool, loaded: bool): (t: string)
    // the first letter spells the promise's presence, the letter after its word spells `loaded`
    ensures |t| == (if promise then 4 else 5) + (if loaded then 4 else 5)
    ensures t[0] == (if promise then 't' else 'f')
    ensures t[if promise then 4 else 5] == (if loaded then 't' else 'f')
  {
    var t := BoolText(promise) + BoolText(loaded);
    assert t[|BoolText(promise)|] == BoolText(loaded)[0];
    t
  }

  /** The token tells every combination apart: it changes whenever `loaded` or the promise's presence does. */
  lemma TokenInjective(p1: bool, l1: bool, p2: bool, l2: bool)
    requires Token(p1, l1) == Token(p2, l2)
    ensures p1 == p2 && l1 == l2
  {
    var t1, t2 := Token(p1, l1), Token(p2, l2);
    assert t1[0] == (if p1 then 't' else 'f');
    assert t2[0] == (if p2 then 't' else 'f');
    assert p1 == p2;
    assert |t1| == |BoolText(p1)| + |BoolText(l1)|;
    assert |t2| == |BoolText(p2)| + |BoolText(l2)|;
  }

  /** `hook(empty, [additionalDependency, ...new Array(n).fill(null)])`. */
  function DepsCall(hook: string, token: string, n: nat): (c: HookCall)
    ensures c.args.Callback? && |c.args.deps| == n + 1 && c.args.deps[0] == Str(token)
    ensures forall i :: 1 <= i <= n ==> c.args.deps[i] == Null
  {
    HookCall(hook, Callback([Str(token)] + Nulls(n)))
  }
}
