/**
 * `composeStore`: a store whose state gathers the states of other stores,
 * either as an array in argument order or as an object keyed like its single
 * argument. Its reducer waits for every constituent's callback, rebuilds the
 * gathered state and keeps the previous one when nothing in it moved.
 *
 * A constituent store is a handle `H`; its state a reference `V`, where
 * `==` on `V` stands for `===`.
 */
module Composition {
  import opened JsModel
  import opened DispatchLogic

  /** An argument of `composeStore`. */
  datatype Arg<H> =
    | StoreArg(store: H)                                      // an object with a `getState` member
    | ObjectArg(keys: seq<string>, members: map<string, H>)   // any other object, arrays included
    | NullArg
    | OtherArg                                                // a primitive or a function

  /** The gathered state. */
  datatype Composite<V> = ArrayState(items: seq<V>) | MapState(entries: map<string, V>)

  /** An object argument lists each of its own keys once, in `Object.keys` order. */
  ghost predicate KeysListed<H>(args: seq<Arg<H>>)
  {
    forall i :: 0 <= i < |args| && args[i].ObjectArg? ==>
      && (forall k :: k in args[i].keys <==> k in args[i].members)
      && (forall p, q :: 0 <= p < q < |args[i].keys| ==> args[i].keys[p] != args[i].keys[q])
  }

  /** `isMappedObject`: exactly one argument, an object without `getState`. */
  predicate IsMapped<H>(args: seq<Arg<H>>)
  {
    |args| == 1 && args[0].ObjectArg?
  }

  /** The arguments can be gathered: `isMappedObject` does not read a
      property of null, and in the array form every argument has a
      `getState` to call. */
  predicate Gatherable<H>(args: seq<Arg<H>>)
  {
    IsMapped(args) || (forall i :: 0 <= i < |args| ==> args[i].StoreArg?)
  }

  /** `getStores`: the constituent stores, in key order or argument order. */
  function Constituents<H>(args: seq<Arg<H>>): (cs: seq<H>)
    requires KeysListed(args) && Gatherable(args)
    ensures IsMapped(args) ==> |cs| == |args[0].keys|
    ensures !IsMapped(args) ==> |cs| == |args|
  {
    if IsMapped(args)
    then seq(|args[0].keys|, i requires 0 <= i < |args[0].keys| => args[0].members[args[0].keys[i]])
    else seq(|args|, i requires 0 <= i < |args| => args[i].store)
  }

  /** `dispatchTokens`: the constituents' tokens, in the same order. */
  function Tokens<H>(args: seq<Arg<H>>, tokenOf: H -> Token): (ts: seq<Token>)
    requires KeysListed(args) && Gatherable(args)
    ensures |ts| == |Constituents(args)|
    ensures forall i :: 0 <= i < |ts| ==> ts[i] == tokenOf(Constituents(args)[i])
  {
    var cs := Constituents(args);
    seq(|cs|, i requires 0 <= i < |cs| => tokenOf(cs[i]))
  }

  /** `getState(isMapped, ...spec)`: the constituents' current states. Reading
      `getState` of null, or calling a missing `getState`, throws. */
  function Snapshot<H, V>(args: seq<Arg<H>>, stateOf: H -> V): (r: Result<Composite<V>>)
    requires KeysListed(args)
    ensures r.Ok? <==> Gatherable(args)
    ensures r.Err? ==> r.error == TypeError
    ensures r.Ok? && IsMapped(args) ==>
      r.value.MapState? && r.value.entries.Keys == args[0].members.Keys &&
      forall k :: k in args[0].members ==> r.value.entries[k] == stateOf(args[0].members[k])
    ensures r.Ok? && !IsMapped(args) ==>
      r.value.ArrayState? && |r.value.items| == |args| &&
      forall i :: 0 <= i < |args| ==> r.value.items[i] == stateOf(Constituents(args)[i])
  {
    if IsMapped(args) then
      Ok(MapState(map k | k in args[0].members :: stateOf(args[0].members[k])))
    else if Gatherable(args) then
      var cs := Constituents(args);
      Ok(ArrayState(seq(|cs|, i requires 0 <= i < |cs| => stateOf(cs[i]))))
    else
      Err(TypeError)
  }

  /** The fold `keys.reduce((current, key) => current && state[key] === newState[key], true)`. */
  function KeysSame<V(==)>(keys: seq<string>, prev: map<string, V>, now: map<string, V>): bool
  {
    if keys == [] then true
    else
      var k := keys[|keys| - 1];
      KeysSame(keys[..|keys| - 1], prev, now) && k in prev && k in now && prev[k] == now[k]
  }

  /** The fold agrees with "every key is present in both and holds the same reference". */
  lemma {:induction false} KeysSameMeansEqualAtKeys<V>(keys: seq<string>, prev: map<string, V>, now: map<string, V>)
    ensures KeysSame(keys, prev, now) <==>
      forall k :: k in keys ==> k in prev && k in now && prev[k] == now[k]
  {
    if keys != [] {
      var init := keys[..|keys| - 1];
      KeysSameMeansEqualAtKeys(init, prev, now);
      assert keys == init + [keys[|keys| - 1]];
    }
  }

  /** `state.every((n, i) => n === newState[i])`, for arrays of equal length. */
  function EverySame<V(==)>(prev: seq<V>, now: seq<V>): bool
    requires |prev| == |now|
  {
    if prev == [] then true
    else prev[0] == now[0] && EverySame(prev[1..], now[1..])
  }

  /** `every` over two arrays of equal length holds exactly when they are equal. */
  lemma {:induction false} EverySameMeansEqual<V>(prev: seq<V>, now: seq<V>)
    requires |prev| == |now|
    ensures EverySame(prev, now) <==> prev == now
  {
    if prev != [] {
      EverySameMeansEqual(prev[1..], now[1..]);
      assert prev == [prev[0]] + prev[1..];
      assert now == [now[0]] + now[1..];
    }
  }

  /** The change test of the composed reducer: the previous state when every
      key (object form) or every position and the length (array form) holds
      the same reference, the rebuilt state otherwise. A previous state of
      the other form counts as changed. */
  function ComposedReduce<H, V(==)>(args: seq<Arg<H>>, prev: Composite<V>, now: Composite<V>): (r: Reduced<Composite<V>>)
    ensures r == Same || r == New(now)
    ensures r == Same ==> prev.MapState? == now.MapState?
  {
    if IsMapped(args) then
      if prev.MapState? && now.MapState? && KeysSame(args[0].keys, prev.entries, now.entries) then Same else New(now)
    else
      if prev.ArrayState? && now.ArrayState? && |prev.items| == |now.items| && EverySame(prev.items, now.items) then Same else New(now)
  }

  /** The gathered state has one entry per key of the object argument. */
  ghost predicate Shaped<H, V>(args: seq<Arg<H>>, c: Composite<V>)
    requires KeysListed(args)
  {
    if IsMapped(args) then c.MapState? && c.entries.Keys == args[0].members.Keys
    else c.ArrayState?
  }

  /** Between two gathered states of the right shape, the composed reducer
      keeps the previous one exactly when the two are equal. */
  lemma {:induction false} ComposedSameIffUnchanged<H, V>(args: seq<Arg<H>>, prev: Composite<V>, now: Composite<V>)
    requires KeysListed(args) && Shaped(args, prev) && Shaped(args, now)
    ensures ComposedReduce(args, prev, now) == Same <==> prev == now
    ensures ComposedReduce(args, prev, now) != Same ==> ComposedReduce(args, prev, now) == New(now)
  {
    if IsMapped(args) {
      var keys := args[0].keys;
      KeysSameMeansEqualAtKeys(keys, prev.entries, now.entries);
      if KeysSame(keys, prev.entries, now.entries) {
        assert forall k :: k in prev.entries ==> k in keys;
        assert prev.entries == now.entries;
      }
    } else if |prev.items| == |now.items| {
      EverySameMeansEqual(prev.items, now.items);
    }
  }

  /** The whole composed reducer after its `waitFor`: gather the current
      states and keep `prev` when nothing moved. */
  function ComposedReducer<H, V(==)>(args: seq<Arg<H>>, stateOf: H -> V, prev: Composite<V>): (r: Result<Reduced<Composite<V>>>)
    requires KeysListed(args)
    ensures r.Ok? <==> Gatherable(args)
    ensures r.Err? ==> r.error == TypeError
    ensures r.Ok? ==> r.value == Same || r.value == New(Snapshot(args, stateOf).value)
  {
    match Snapshot(args, stateOf)
    case Err(e) => Err(e)
    case Ok(now) => Ok(ComposedReduce(args, prev, now))
  }

  /** Reducing again with no constituent changed keeps the state; in
      particular `createStore`'s first call, which gets the default state
      gathered a moment before, makes that state the initial one. */
  lemma {:induction false} ComposedReducerIdempotent<H, V>(args: seq<Arg<H>>, stateOf: H -> V)
    requires KeysListed(args) && Gatherable(args)
    ensures Snapshot(args, stateOf).Ok?
    ensures ComposedReducer(args, stateOf, Snapshot(args, stateOf).value) == Ok(Same)
  {
    var now := Snapshot(args, stateOf).value;
    ComposedSameIffUnchanged(args, now, now);
  }

  /** A constituent whose state moved makes the composed reducer return the
      freshly gathered state. */
  lemma {:induction false} ConstituentChangeIsSeen<H, V>(args: seq<Arg<H>>, before: H -> V, after: H -> V, i: nat)
    requires KeysListed(args) && Gatherable(args)
    requires i < |Constituents(args)| && before(Constituents(args)[i]) != after(Constituents(args)[i])
    ensures ComposedReducer(args, after, Snapshot(args, before).value) == Ok(New(Snapshot(args, after).value))
  {
    var prev := Snapshot(args, before).value;
    var now := Snapshot(args, after).value;
    ComposedSameIffUnchanged(args, prev, now);
    if IsMapped(args) {
      var k := args[0].keys[i];
      assert prev.entries[k] != now.entries[k];
    } else {
      assert prev.items[i] != now.items[i];
    }
  }

  /** The composed store's callback: one `waitFor` on every constituent token. */
  function ComposedScript(tokens: seq<Token>): (cb: Callback)
    ensures forall t :: t in tokens ==> WaitsOn(cb, t)
    ensures !cb.throws
  {
    var cb := Callback([tokens], false);
    assert forall t :: t in tokens ==> t in cb.waits[0];
    cb
  }

  /** In every dispatch state the dispatcher keeps, the composed store's
      callback completed after the callback of each registered constituent. */
  lemma {:induction false} ConstituentsCompleteFirst(cbs: map<Token, Callback>, s: Flags, c: Token, tokens: seq<Token>)
    requires Running(cbs, s)
    requires c in cbs && cbs[c] == ComposedScript(tokens)
    ensures forall j, t :: 0 <= j < |s.calls| && s.calls[j] == c && t in tokens && t in cbs ==> t in s.calls[..j]
  {
    forall j, t | 0 <= j < |s.calls| && s.calls[j] == c && t in tokens && t in cbs
      ensures t in s.calls[..j]
    {
      assert WaitsOn(cbs[s.calls[j]], t);
    }
  }
}
