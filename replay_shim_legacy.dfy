/**
 * The earlier runtime hook of hook/index.js: `useImportedHook(importPromise,
 * slots, args, defaultReturn)` with a single list of slots, each replayed
 * according to its hook's `name`.
 *
 * The per-instance state machine is the same as in hook/index.jsx; what
 * differs is the replay. It happens whenever the module is not loaded (a
 * falsy promise after loading does not bring it back), stateless hooks get
 * `new Array(value)` nulls after the token whatever `value` is, and the
 * loaded hook always receives an empty `initialStates`.
 */
module LegacyReplayShim {
  import opened Wrappers
  import opened JsValues
  import opened Config
  import opened Ast
  import opened StaticValue
  import opened ReadImportee
  import opened ReactHost
  import Transform

  /** `STATELESS_HOOKS`. */
  const StatelessHooks: seq<string> := ["useCallback", "useEffect", "useMemo", "useLayoutEffect", "useImperativeHandle"]

  /** `STATEFUL_HOOKS`. */
  const StatefulHooks: seq<string> := ["useState", "useRef"]

  /** The runtime's stateless list names exactly the hooks the build step accepts, in the same order. */
  lemma StatelessHooksAreAcceptedHooks()
    ensures StatelessHooks == NamesOf(AcceptedHooks)
  {
    HookListContents();
  }

  /** How a slot is replayed, by its hook's name. */
  datatype SlotKind = StatelessSlot | StatefulSlot | OtherSlot

  /** A name is in the runtime's stateless list exactly when the build step accepts it. */
  lemma StatelessIffAccepted(name: string)
    ensures name in StatelessHooks <==> Classify(Some(name)).Accepted?
  {
    StatelessHooksAreAcceptedHooks();
    if name in StatelessHooks {
      var i :| 0 <= i < |StatelessHooks| && StatelessHooks[i] == name;
      assert AcceptedHooks[i] in AcceptedHooks && HookName(AcceptedHooks[i]) == name;
    }
    if Classify(Some(name)).Accepted? {
      var h :| h in AcceptedHooks && HookName(h) == name;
      var i :| 0 <= i < |AcceptedHooks| && AcceptedHooks[i] == h;
      assert StatelessHooks[i] == name;
    }
  }

  /**
   * The slot's kind by its hook's name: stateless exactly for the names of
   * the hooks the build step accepts, stateful exactly for `useState` and
   * `useRef`.
   */
  function KindOf(name: string): (k: SlotKind)
    ensures k == StatelessSlot <==> name in NamesOf(AcceptedHooks)
    ensures k == StatefulSlot <==> name == "useState" || name == "useRef"
  {
    StatelessHooksAreAcceptedHooks();
    if name in StatelessHooks then StatelessSlot
    else if name in StatefulHooks then StatefulSlot
    else OtherSlot
  }

  /** The call one slot makes; `None` when `new Array(value)` throws. */
  function SlotCall(slot: Slot, token: string): (c: Option<HookCall>)
    ensures KindOf(slot.hook) == StatelessSlot ==>
      && (c.Some? <==> NewArrayLength(slot.value).Some?)
      && (c.Some? ==> c.value == DepsCall(slot.hook, token, NewArrayLength(slot.value).value))
    ensures KindOf(slot.hook) == StatefulSlot ==> c == Some(HookCall(slot.hook, Value(slot.value)))
    ensures KindOf(slot.hook) == OtherSlot ==> c == Some(HookCall(slot.hook, NoArgs))
  {
    match KindOf(slot.hook)
    case StatelessSlot =>
      (match NewArrayLength(slot.value)
       case None => None
       case Some(n) => Some(DepsCall(slot.hook, token, n)))
    case StatefulSlot => Some(HookCall(slot.hook, Value(slot.value)))
    case OtherSlot => Some(HookCall(slot.hook, NoArgs))
  }

  /** The calls a replay makes, and whether it got through every slot. */
  datatype Replay = Replay(calls: seq<HookCall>, completed: bool)

  function Prepended(calls: seq<HookCall>, r: Replay): Replay {
    Replay(calls + r.calls, r.completed)
  }

  /** `slots.forEach(...)`: one call per slot, in order, up to the first `RangeError`. */
  function SlotReplay(slots: seq<Slot>, token: string): (r: Replay)
    ensures |r.calls| <= |slots|
  {
    if slots == [] then Replay([], true)
    else match SlotCall(slots[0], token)
      case None => Replay([], false)
      case Some(c) => Prepended([c], SlotReplay(slots[1..], token))
  }

  /**
   * The replay calls every slot once, in order, in the shape its name
   * chooses, and stops at the first slot whose `new Array` throws.
   */
  lemma {:induction false} SlotReplayCallsEachSlot(slots: seq<Slot>, token: string)
    ensures var r := SlotReplay(slots, token);
      && (r.completed <==> forall i :: 0 <= i < |slots| ==> SlotCall(slots[i], token).Some?)
      && (r.completed ==> |r.calls| == |slots|)
      && (forall i :: 0 <= i < |r.calls| ==> SlotCall(slots[i], token) == Some(r.calls[i]))
      && (!r.completed ==> SlotCall(slots[|r.calls|], token).None?)
    decreases |slots|
  {
    if slots != [] {
      var r, rest := SlotReplay(slots, token), slots[1..];
      if SlotCall(slots[0], token).Some? {
        var c := SlotCall(slots[0], token).value;
        var t := SlotReplay(rest, token);
        assert r == Replay([c] + t.calls, t.completed);
        SlotReplayCallsEachSlot(rest, token);
        forall i | 1 <= i < |slots|
          ensures slots[i] == rest[i - 1]
        {
        }
        forall i | 0 <= i < |r.calls|
          ensures SlotCall(slots[i], token) == Some(r.calls[i])
        {
          if i > 0 {
            assert r.calls[i] == t.calls[i - 1];
          }
        }
      }
    }
  }

  lemma SlotReplayStep(slots: seq<Slot>, i: nat, calls: seq<HookCall>, token: string)
    requires i <= |slots| && SlotReplay(slots, token) == Prepended(calls, SlotReplay(slots[i..], token))
    ensures i == |slots| ==> SlotReplay(slots, token) == Replay(calls, true)
    ensures i < |slots| && SlotCall(slots[i], token).None? ==> SlotReplay(slots, token) == Replay(calls, false)
    ensures i < |slots| && SlotCall(slots[i], token).Some? ==>
      SlotReplay(slots, token) == Prepended(calls + [SlotCall(slots[i], token).value], SlotReplay(slots[i + 1..], token))
  {
    if i == |slots| {
      assert slots[i..] == [];
      assert calls + [] == calls;
    } else {
      assert slots[i..][0] == slots[i] && slots[i..][1..] == slots[i + 1..];
      if SlotCall(slots[i], token).None? {
        assert calls + [] == calls;
      }
    }
  }

  class HookInstance {
    var loaded: bool                           // the `loaded` state
    var isLoading: bool                        // isLoading.current
    var importedHook: Option<ImportedHook>     // importedHook.current
    var isMounted: bool                        // isMounted.current
    var pending: bool                          // a `then` callback registered and not yet run
    var trace: seq<HookCall>
    ghost var registrations: nat               // `then` callbacks ever registered

    /** The import is started at most once, and loaded means a default export was stored. */
    ghost predicate Valid()
      reads this
    {
      && registrations == (if isLoading then 1 else 0)
      && (pending ==> isLoading)
      && (loaded ==> isLoading && !pending && importedHook.Some?)
    }

    constructor ()
      ensures Valid()
      ensures !loaded && !isLoading && importedHook.None? && isMounted && !pending && trace == []
    {
      loaded := false;
      isLoading := false;
      importedHook := None;
      isMounted := true;
      pending := false;
      trace := [];
      registrations := 0;
    }

    /** One render: `useImportedHook(importPromise, slots, args, defaultReturn)`. */
    method Render(importPromise: bool, slots: Option<seq<Slot>>, args: JsValue, defaultReturn: JsValue)
      returns (r: Result<JsValue, RenderError>)
      requires Valid()
      modifies this
      ensures Valid()
      ensures loaded == old(loaded) && importedHook == old(importedHook) && isMounted == old(isMounted)
      ensures isLoading == (old(isLoading) || (importPromise && !loaded))
      ensures pending == (old(pending) || (importPromise && !loaded && !old(isLoading)))
      // not loaded: replay every slot and return the default
      ensures !loaded && slots.None? ==> r == Err(TypeError) && trace == old(trace) + Prefix()
      ensures !loaded && slots.Some? ==>
        var replay := SlotReplay(slots.value, Token(importPromise, loaded));
        trace == old(trace) + Prefix() + replay.calls && r == (if replay.completed then Ok(defaultReturn) else Err(RangeError))
      // loaded: no slot is replayed, even without a promise, and no initial state is passed on
      ensures loaded ==>
        trace == old(trace) + Prefix() && r == Ok(importedHook.value(args, Token(importPromise, loaded), []))
    {
      trace := trace + Prefix();
      if importPromise && !loaded && !isLoading {
        isLoading := true;
        pending := true;   // importPromise.then(...)
        registrations := registrations + 1;
      }

      var additionalDependency := Token(importPromise, loaded);
      if !loaded {
        if slots.None? {
          return Err(TypeError);
        }
        var completed := CallSlots(slots.value, additionalDependency);
        if !completed {
          return Err(RangeError);
        }
        return Ok(defaultReturn);
      }
      return Ok(importedHook.value(args, additionalDependency, []));
    }

    /**
     * The `slots.forEach` loop. The results of the stateful calls go into an
     * `initialStates` that this branch never hands on, so only the calls are
     * kept.
     */
    method CallSlots(slots: seq<Slot>, token: string) returns (completed: bool)
      modifies this`trace
      ensures trace == old(trace) + SlotReplay(slots, token).calls
      ensures completed == SlotReplay(slots, token).completed
    {
      ghost var calls: seq<HookCall> := [];
      for i := 0 to |slots|
        invariant trace == old(trace) + calls
        invariant SlotReplay(slots, token) == Prepended(calls, SlotReplay(slots[i..], token))
      {
        var call := SlotCall(slots[i], token);
        SlotReplayStep(slots, i, calls, token);
        if call.None? {
          return false;
        }
        trace := trace + [call.value];
        calls := calls + [call.value];
      }
      SlotReplayStep(slots, |slots|, calls, token);
      return true;
    }

    /** The `then` callback: stores the module's default export, but only while mounted. */
    method OnResolved(moduleDefault: Option<ImportedHook>)
      requires Valid() && pending
      modifies this
      ensures Valid() && !pending
      ensures old(isMounted) ==> importedHook == moduleDefault && loaded == moduleDefault.Some?
      ensures !old(isMounted) ==> importedHook == old(importedHook) && loaded == old(loaded)
      ensures isLoading == old(isLoading) && isMounted == old(isMounted) && trace == old(trace)
    {
      pending := false;
      if isMounted {
        importedHook := moduleDefault;
        // `module.default.name` throws before setLoaded when there is no default export
        if moduleDefault.Some? {
          loaded := true;
        }
      }
    }

    /** The unmount effect's cleanup. */
    method Unmount()
      requires Valid()
      modifies this
      ensures Valid() && !isMounted
      ensures loaded == old(loaded) && isLoading == old(isLoading) && importedHook == old(importedHook)
      ensures pending == old(pending) && trace == old(trace)
    {
      isMounted := false;
    }
  }

  // ------------------------------------------------ slots from the build step

  lemma {:induction false} NullLiteralsEvaluate(n: nat)
    ensures EvaluateAll(Transform.NullLiterals(n)) == Some(Nulls(n))
    decreases n
  {
    if n > 0 {
      var ns := Transform.NullLiterals(n);
      assert ns[1..] == Transform.NullLiterals(n - 1);
      NullLiteralsEvaluate(n - 1);
      assert [Null] + Nulls(n - 1) == Nulls(n);
    }
  }

  /** The value the second element of an emitted slot has at run time; `Undefined` when there is none. */
  function EmittedValue(e: HookEntry): (v: JsValue)
    ensures |Transform.Slot(e).elements| == 2 ==> Evaluate(Transform.Slot(e).elements[1]) == Some(v)
    ensures |Transform.Slot(e).elements| == 1 ==> v == Undefined
  {
    if e.depCount.Some? then
      NullLiteralsEvaluate(e.depCount.value + 1);
      Arr(Nulls(e.depCount.value + 1))
    else Undefined
  }

  /**
   * A slot as src/index.js emits it, replayed by this runtime: the value is
   * an array (or absent), `new Array(value)` has one element, so an accepted
   * hook always gets a dependency list of two entries, the token and one
   * `null`, whatever its recorded dependency count.
   */
  lemma EmittedSlotReplaysTwoDependencies(e: HookEntry, token: string)
    requires Classify(Some(e.name)).Accepted?
    ensures SlotCall(Slot(e.name, EmittedValue(e)), token) == Some(DepsCall(e.name, token, 1))
    ensures |SlotCall(Slot(e.name, EmittedValue(e)), token).value.args.deps| == 2
  {
    var h := Classify(Some(e.name)).hook;
    StatelessHooksAreAcceptedHooks();
    var i :| 0 <= i < |AcceptedHooks| && AcceptedHooks[i] == h;
    assert StatelessHooks[i] == e.name;
  }
}
