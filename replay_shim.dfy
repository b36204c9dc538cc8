/**
 * The runtime hook of hook/index.jsx: `useImportedHook(importPromise, args,
 * defaultReturn, statefulSlots, statelessSlots)`.
 *
 * One `HookInstance` is one mounted component's hook state: the `loaded`
 * state and the three refs survive from render to render. `Render` is one
 * call of the hook, `OnResolved` the callback registered on the import
 * promise, run by the environment when the promise settles, and `Unmount`
 * the cleanup of the unmount effect. `trace` is the sequence of hook calls
 * React has seen from this instance.
 */
module ReplayShim {
  import opened Wrappers
  import opened JsValues
  import opened ReactHost

  /** `statefulSlots.forEach(([hook, value]) => hook(value))`: the calls, in slot order. */
  function StatefulCalls(slots: seq<Slot>): (calls: seq<HookCall>)
    ensures |calls| == |slots|
    ensures forall i :: 0 <= i < |slots| ==> calls[i] == HookCall(slots[i].hook, Value(slots[i].value))
  {
    seq(|slots|, i requires 0 <= i < |slots| => HookCall(slots[i].hook, Value(slots[i].value)))
  }

  /** `initialStates`: what React answered to each stateful call, in slot order. */
  function InitialStates(slots: seq<Slot>, react: HookResults): (states: seq<JsValue>)
    ensures |states| == |slots|
    ensures forall i :: 0 <= i < |slots| ==> states[i] == react(StatefulCalls(slots)[i])
  {
    seq(|slots|, i requires 0 <= i < |slots| => react(StatefulCalls(slots)[i]))
  }

  /**
   * The placeholder call of one stateless slot; `None` when `new Array(value)`
   * throws.
   */
  function StatelessCall(slot: Slot, token: string): (c: Option<HookCall>)
    // a number n gives a dependency list of n + 1 entries headed by the token
    ensures slot.value.Num? ==> (c.Some? <==> NewArrayLength(slot.value).Some?)
    ensures slot.value.Num? && c.Some? ==> c.value == DepsCall(slot.hook, token, NewArrayLength(slot.value).value)
    // anything else gives a call without arguments
    ensures !slot.value.Num? ==> c == Some(HookCall(slot.hook, NoArgs))
  {
    if slot.value.Num? then
      match NewArrayLength(slot.value)
      case None => None
      case Some(n) => Some(DepsCall(slot.hook, token, n))
    else Some(HookCall(slot.hook, NoArgs))
  }

  /** The calls a replay makes, and whether it got through every slot. */
  datatype Replay = Replay(calls: seq<HookCall>, completed: bool)

  /** `statelessSlots.forEach(...)`: one call per slot, in order, up to the first `RangeError`. */
  function StatelessReplay(slots: seq<Slot>, token: string): (r: Replay)
    ensures |r.calls| <= |slots|
  {
    if slots == [] then Replay([], true)
    else match StatelessCall(slots[0], token)
      case None => Replay([], false)
      case Some(c) => Prepended([c], StatelessReplay(slots[1..], token))
  }

  /**
   * The replay calls every stateless slot once, in order, and stops at the
   * first slot whose `new Array` throws; it completes exactly when none does.
   */
  lemma {:induction false} StatelessReplayCallsEachSlot(slots: seq<Slot>, token: string)
    ensures var r := StatelessReplay(slots, token);
      && (r.completed <==> forall i :: 0 <= i < |slots| ==> StatelessCall(slots[i], token).Some?)
      && (r.completed ==> |r.calls| == |slots|)
      && (forall i :: 0 <= i < |r.calls| ==> StatelessCall(slots[i], token) == Some(r.calls[i]))
      && (!r.completed ==> StatelessCall(slots[|r.calls|], token).None?)
    decreases |slots|
  {
    if slots != [] {
      StatelessReplayCallsEachSlot(slots[1..], token);
      assert forall i :: 1 <= i < |slots| ==> slots[i] == slots[1..][i - 1];
    }
  }

  /** `r` after calls made before it. */
  function Prepended(calls: seq<HookCall>, r: Replay): Replay {
    Replay(calls + r.calls, r.completed)
  }

  /** One step of the stateless loop. */
  lemma StatelessReplayStep(slots: seq<Slot>, i: nat, calls: seq<HookCall>, token: string)
    requires i <= |slots| && StatelessReplay(slots, token) == Prepended(calls, StatelessReplay(slots[i..], token))
    ensures i == |slots| ==> StatelessReplay(slots, token) == Replay(calls, true)
    ensures i < |slots| && StatelessCall(slots[i], token).None? ==> StatelessReplay(slots, token) == Replay(calls, false)
    ensures i < |slots| && StatelessCall(slots[i], token).Some? ==>
      StatelessReplay(slots, token) == Prepended(calls + [StatelessCall(slots[i], token).value], StatelessReplay(slots[i + 1..], token))
  {
    if i == |slots| {
      assert slots[i..] == [];
      assert calls + [] == calls;
    } else {
      assert slots[i..][0] == slots[i] && slots[i..][1..] == slots[i + 1..];
      if StatelessCall(slots[i], token).None? {
        assert calls + [] == calls;
      }
    }
  }

  /** The placeholders are replayed while the module is not loaded, or when no import is asked for. */
  predicate Replays(importPromise: bool, loaded: bool) {
    !loaded || !importPromise
  }

  class HookInstance {
    var loaded: bool                           // the `loaded` state
    var isLoading: bool                        // isLoading.current
    var importedHook: Option<ImportedHook>     // importedHook.current
    var isMounted: bool                        // isMounted.current
    var pending: bool                          // a `then` callback registered and not yet run
    var trace: seq<HookCall>
    ghost var registrations: nat               // `then` callbacks ever registered

    /**
     * The import is started at most once: the latch is set with the only
     * registration, and a module counts as loaded only once its callback ran
     * and stored a default export.
     */
    ghost predicate Valid()
      reads this
    {
      && registrations == (if isLoading then 1 else 0)
      && (pending ==> isLoading)
      && (loaded ==> isLoading && !pending && importedHook.Some?)
    }

    /** The first render's state. */
    constructor ()
      ensures Valid()
      ensures !loaded && !isLoading && importedHook.None? && isMounted && !pending && trace == []
    {
      loaded := false;
      isLoading := false;
      importedHook := None;
      isMounted := true;
      pending := false;
      trace := [];
      registrations := 0;
    }

    /** One render: `useImportedHook(importPromise, args, defaultReturn, statefulSlots, statelessSlots)`. */
    method Render(importPromise: bool, args: JsValue, defaultReturn: JsValue,
                  statefulSlots: Option<seq<Slot>>, statelessSlots: Option<seq<Slot>>, react: HookResults)
      returns (r: Result<JsValue, RenderError>)
      requires Valid()
      modifies this
      ensures Valid()
      ensures loaded == old(loaded) && importedHook == old(importedHook) && isMounted == old(isMounted)
      // the latch: the import is asked for once, on the first render with a promise
      ensures isLoading == (old(isLoading) || (importPromise && !loaded))
      ensures pending == (old(pending) || (importPromise && !loaded && !old(isLoading)))
      ensures statefulSlots.None? ==> r == Err(TypeError) && trace == old(trace) + Prefix()
      ensures statefulSlots.Some? && Replays(importPromise, loaded) ==>
        var before := old(trace) + Prefix() + StatefulCalls(statefulSlots.value);
        if statelessSlots.None? then r == Err(TypeError) && trace == before
        else
          var replay := StatelessReplay(statelessSlots.value, Token(importPromise, loaded));
          trace == before + replay.calls && r == (if replay.completed then Ok(defaultReturn) else Err(RangeError))
      ensures statefulSlots.Some? && !Replays(importPromise, loaded) ==>
        && trace == old(trace) + Prefix() + StatefulCalls(statefulSlots.value)
        && r == Ok(importedHook.value(args, Token(importPromise, loaded), InitialStates(statefulSlots.value, react)))
    {
      trace := trace + Prefix();
      if importPromise && !loaded && !isLoading {
        isLoading := true;
        pending := true;   // importPromise.then(...)
        registrations := registrations + 1;
      }

      if statefulSlots.None? {
        return Err(TypeError);
      }
      var initialStates := CallStateful(statefulSlots.value, react);

      var additionalDependency := Token(importPromise, loaded);
      if !loaded || !importPromise {
        if statelessSlots.None? {
          return Err(TypeError);
        }
        var completed := CallStateless(statelessSlots.value, additionalDependency);
        if !completed {
          return Err(RangeError);
        }
        return Ok(defaultReturn);
      }
      return Ok(importedHook.value(args, additionalDependency, initialStates));
    }

    /** The `statefulSlots.forEach` loop: each stateful hook called with its value, results collected. */
    method CallStateful(slots: seq<Slot>, react: HookResults) returns (initialStates: seq<JsValue>)
      modifies this`trace
      ensures trace == old(trace) + StatefulCalls(slots)
      ensures initialStates == InitialStates(slots, react)
    {
      initialStates := [];
      for i := 0 to |slots|
        invariant trace == old(trace) + StatefulCalls(slots[..i])
        invariant initialStates == InitialStates(slots[..i], react)
      {
        var call := HookCall(slots[i].hook, Value(slots[i].value));
        trace := trace + [call];
        initialStates := initialStates + [react(call)];
        assert StatefulCalls(slots[..i + 1]) == StatefulCalls(slots[..i]) + [call];
      }
      assert slots[..|slots|] == slots;
    }

    /** The `statelessSlots.forEach` loop: one placeholder call per slot, until `new Array` throws. */
    method CallStateless(slots: seq<Slot>, token: string) returns (completed: bool)
      modifies this`trace
      ensures trace == old(trace) + StatelessReplay(slots, token).calls
      ensures completed == StatelessReplay(slots, token).completed
    {
      ghost var calls: seq<HookCall> := [];
      for i := 0 to |slots|
        invariant trace == old(trace) + calls
        invariant StatelessReplay(slots, token) == Prepended(calls, StatelessReplay(slots[i..], token))
      {
        var call := StatelessCall(slots[i], token);
        StatelessReplayStep(slots, i, calls, token);
        if call.None? {
          return false;
        }
        trace := trace + [call.value];
        calls := calls + [call.value];
      }
      StatelessReplayStep(slots, |slots|, calls, token);
      return true;
    }

    /** The `then` callback: stores the module's default export, but only while mounted. */
    method OnResolved(moduleDefault: Option<ImportedHook>)
      requires Valid() && pending
      modifies this
      ensures Valid() && !pending
      ensures old(isMounted) ==> importedHook == moduleDefault && loaded == moduleDefault.Some?
      ensures !old(isMounted) ==> importedHook == old(importedHook) && loaded == old(loaded)
      ensures isLoading == old(isLoading) && isMounted == old(isMounted) && trace == old(trace)
    {
      pending := false;
      if isMounted {
        importedHook := moduleDefault;
        // `module.default.name` throws before setLoaded when there is no default export
        if moduleDefault.Some? {
          loaded := true;
        }
      }
    }

    /** The unmount effect's cleanup. */
    method Unmount()
      requires Valid()
      modifies this
      ensures Valid() && !isMounted
      ensures loaded == old(loaded) && isLoading == old(isLoading) && importedHook == old(importedHook)
      ensures pending == old(pending) && trace == old(trace)
    {
      isMounted := false;
    }
  }

  /**
   * Slots whose value is not a number, such as the arrays of `null` the
   * build step emits, are replayed as calls without arguments, one per slot
   * and in slot order.
   */
  lemma NonNumericSlotsCalledBare(slots: seq<Slot>, token: string)
    requires forall i :: 0 <= i < |slots| ==> !slots[i].value.Num?
    ensures StatelessReplay(slots, token)
      == Replay(seq(|slots|, i requires 0 <= i < |slots| => HookCall(slots[i].hook, NoArgs)), true)
  {
    StatelessReplayCallsEachSlot(slots, token);
  }
}
