/**
 * A store: the state held by the closure `createStore` builds, the reducer
 * that moves it forward, the listeners of its `changed` event, the members
 * of the object it returns, and the `dispatch` wrapper that turns
 * `(type, data)` into a payload for the shared dispatcher.
 */
module Stores {
  import opened JsModel
  import opened DispatchLogic
  import opened Dispatching

  /** A reducer: `(state, action) -> result`. */
  type ReduceFn = (Value, Value) -> Reduced<Value>

  /** A table entry as the table reducer calls it: `(state, data) -> result`. */
  type Handler = (Value, Value) -> Reduced<Value>

  /** A selector: `(state, ...params) -> value`. */
  type Selector = (Value, seq<Value>) -> Value

  /** The value under a key of the selectors object. */
  datatype SelectorEntry = Selects(select: Selector) | NotCallable(value: Value)

  /** The second argument of `createStore`. A missing (undefined) argument
      defaults to `{}`, that is `SelectorTable(map[])`. */
  datatype SelectorsArg =
    | SelectorTable(entries: map<string, SelectorEntry>)   // an object other than null
    | NullSelectors                                        // null: `Object.keys(null)` throws

  /** The value under a key of a reducer table. */
  datatype Entry = Handler(handle: Handler) | NotFunction(value: Value)

  /** The first argument of `createStore`, by its `typeof`. */
  datatype StoreArg =
    | ReducerArg(reduce: ReduceFn)               // a function
    | TableArg(entries: map<string, Entry>)      // an object other than null
    | NullArg                                    // null, whose typeof is "object"
    | OtherArg                                   // undefined, a boolean, a number or a string

  /** The `reduce` a store keeps. */
  datatype Reducer =
    | FunctionReducer(reduce: ReduceFn)
    | TableReducer(entries: map<string, Entry>)

  /** The argument every reducer is first called with as its action: `{}`. */
  const EmptyObject: Value := Obj(map[])

  /** The value a reducer call leaves in the store's hands. */
  function Commit(current: Value, r: Reduced<Value>): Value
  {
    match r
    case Same => current
    case New(v) => v
  }

  /** When the result does not differ from the state under `!==`, keeping
      the old state and committing the result are the same thing. */
  lemma CommitUnlessDiffers(current: Value, r: Reduced<Value>)
    ensures !Differs(current, r) ==> Commit(current, r) == current
    ensures Differs(current, r) ==> Commit(current, r) == r.state && r.New?
  {
  }

  /** The table key an action selects: the action is truthy, its `type` is a
      string and an own key of the table. */
  function HandledType(entries: map<string, Entry>, action: Value): Option<string>
  {
    if Truthy(action) && Prop(action, "type").Str? && Prop(action, "type").s in entries
    then Some(Prop(action, "type").s)
    else None
  }

  /** The store's `reduce(state, action)`. A table entry that is not a
      function raises a TypeError when called. */
  function Reduce(red: Reducer, state: Value, action: Value): (r: Result<Reduced<Value>>)
    ensures r.Err? ==> red.TableReducer? && r.error == TypeError
    ensures red.TableReducer? && HandledType(red.entries, action).None? ==> r == Ok(Same)
  {
    match red
    case FunctionReducer(f) => Ok(f(state, action))
    case TableReducer(entries) =>
      match HandledType(entries, action)
      case None => Ok(Same)
      case Some(k) =>
        match entries[k]
        case Handler(h) => Ok(h(state, Prop(action, "data")))
        case NotFunction(_) => Err(TypeError)
  }

  /** The reducer `createStore` builds from its argument. */
  function ReducerOf(arg: StoreArg): Reducer
    requires arg.ReducerArg? || arg.TableArg?
  {
    if arg.ReducerArg? then FunctionReducer(arg.reduce) else TableReducer(arg.entries)
  }

  /** The initial state: the reducer applied to `undefined` and `{}`, or a
      table's `getInitialState` entry likewise, or `undefined` for a table
      without one. Reading `getInitialState` of null throws a TypeError;
      any other kind of argument is refused. */
  function InitialState(arg: StoreArg): (r: Result<Value>)
    ensures r.Err? <==> arg.NullArg? || arg.OtherArg?
    ensures arg.NullArg? ==> r == Err(TypeError)
    ensures arg.OtherArg? ==> r == Err(InvalidReducer)
    ensures arg.TableArg? && ("getInitialState" !in arg.entries || arg.entries["getInitialState"].NotFunction?) ==>
      r == Ok(Undefined)
  {
    match arg
    case ReducerArg(f) => Ok(Commit(Undefined, f(Undefined, EmptyObject)))
    case TableArg(entries) =>
      if "getInitialState" in entries && entries["getInitialState"].Handler?
      then Ok(Commit(Undefined, entries["getInitialState"].handle(Undefined, EmptyObject)))
      else Ok(Undefined)
    case NullArg => Err(TypeError)
    case OtherArg => Err(InvalidReducer)
  }

  /** The initial state is what the store's own `reduce` makes of
      `undefined` and `{}`, except that a table reducer consults its
      `getInitialState` entry rather than the empty action's `type`. */
  lemma InitialStateIsFirstReduction(f: ReduceFn)
    ensures Reduce(FunctionReducer(f), Undefined, EmptyObject).Ok?
    ensures InitialState(ReducerArg(f)) ==
      Ok(Commit(Undefined, Reduce(FunctionReducer(f), Undefined, EmptyObject).value))
  {
  }

  /** The payload an action method `k(data)` dispatches: `{type: k, data: data}`. */
  function ActionPayload(k: string, data: Value): Value
  {
    ActionObject(Str(k), data)
  }

  /** The names of the action methods: one per own key of a table. */
  function Actions(red: Reducer): set<string>
  {
    if red.TableReducer? then red.entries.Keys else {}
  }

  /** The payload the `dispatch` wrapper hands to the dispatcher: a string
      type is wrapped with its data, an object (or null) is passed through,
      anything else is refused. */
  function Route(typ: Value, data: Value): (r: Result<Value>)
    ensures r.Ok? <==> typ.Str? || TypeOf(typ) == "object"
    ensures r.Err? ==> r.error == InvalidAction
  {
    if typ.Str? then Ok(ActionObject(typ, data))
    else if TypeOf(typ) == "object" then Ok(typ)
    else Err(InvalidAction)
  }

  /** Dispatching `(k, data)` through the wrapper, or calling the action
      method `k(data)`, reaches the table entry `k` with `data` as its
      second argument. */
  lemma {:induction false} ActionRoundTrip(entries: map<string, Entry>, k: string, data: Value, state: Value)
    requires k in entries && entries[k].Handler?
    ensures Route(Str(k), data) == Ok(ActionPayload(k, data))
    ensures Reduce(TableReducer(entries), state, ActionPayload(k, data)) == Ok(entries[k].handle(state, data))
  {
    var a := ActionPayload(k, data);
    assert Prop(a, "type") == Str(k);
    assert Prop(a, "data") == data;
  }

  /** A table reducer leaves the state as it is for every action it does
      not route to an entry: a falsy action, a non-string type, or a type
      that is not a key of the table. */
  lemma {:induction false} UnroutedActionKeepsState(entries: map<string, Entry>, state: Value, action: Value)
    requires !Truthy(action) || !Prop(action, "type").Str? || Prop(action, "type").s !in entries
    ensures Reduce(TableReducer(entries), state, action) == Ok(Same)
  {
    assert HandledType(entries, action) == None;
  }

  /** A reduction fails only by calling a table entry that is not a function. */
  lemma {:induction false} ReduceFailsOnlyOnNonFunction(red: Reducer, state: Value, action: Value)
    ensures Reduce(red, state, action).Err? <==>
      red.TableReducer? && HandledType(red.entries, action).Some? &&
      red.entries[HandledType(red.entries, action).value].NotFunction?
    ensures Reduce(red, state, action).Err? ==> Reduce(red, state, action).error == TypeError
  {
    match red
    case FunctionReducer(f) =>
    case TableReducer(entries) =>
      match HandledType(entries, action)
      case None =>
      case Some(k) =>
  }

  /** What the registered callback does with an action: `Ok(None)` when
      the reducer's result does not differ from the state, `Ok(Some(v))`
      when `v` becomes the state, an error when the reducer throws. */
  function Next(red: Reducer, state: Value, action: Value): (r: Result<Option<Value>>)
    ensures r.Err? <==> Reduce(red, state, action).Err?
    ensures r.Ok? && r.value.Some? ==>
      Differs(state, Reduce(red, state, action).value) && r.value.value == Reduce(red, state, action).value.state
    ensures r == Ok(None) ==> !Differs(state, Reduce(red, state, action).value)
  {
    match Reduce(red, state, action)
    case Err(e) => Err(e)
    case Ok(res) => if Differs(state, res) then Ok(Some(res.state)) else Ok(None)
  }

  /** An action that the table does not route changes nothing and so
      notifies no one. */
  lemma {:induction false} UnroutedActionNotifiesNoOne(entries: map<string, Entry>, state: Value, action: Value)
    requires !Truthy(action) || !Prop(action, "type").Str? || Prop(action, "type").s !in entries
    ensures Next(TableReducer(entries), state, action) == Ok(None)
  {
    UnroutedActionKeepsState(entries, state, action);
  }

  /** The state after the callback is the committed result whenever the
      reducer returns. */
  lemma {:induction false} NextCommits(red: Reducer, state: Value, action: Value)
    requires Reduce(red, state, action).Ok?
    ensures Next(red, state, action).Ok?
    ensures Commit(state, Reduce(red, state, action).value) ==
      match Next(red, state, action).value
      case None => state
      case Some(v) => v
  {
    CommitUnlessDiffers(state, Reduce(red, state, action).value);
  }

  /** Node's `removeListener`: drops the most recently added occurrence of
      `x`, and nothing when there is none. */
  function RemoveLast(s: seq<nat>, x: nat): (r: seq<nat>)
    ensures x !in s ==> r == s
    ensures x in s ==> |r| == |s| - 1
    ensures multiset(r) == multiset(s) - multiset{x}
  {
    if s == [] then []
    else
      assert s == s[..|s| - 1] + [s[|s| - 1]];
      if s[|s| - 1] == x then s[..|s| - 1]
      else RemoveLast(s[..|s| - 1], x) + [s[|s| - 1]]
  }

  /** The position of the last occurrence of `x`. */
  function LastIndex(s: seq<nat>, x: nat): (i: nat)
    requires x in s
    ensures i < |s| && s[i] == x && x !in s[i + 1..]
  {
    if s[|s| - 1] == x then |s| - 1
    else
      assert s == s[..|s| - 1] + [s[|s| - 1]];
      LastIndex(s[..|s| - 1], x)
  }

  /** The occurrence `RemoveLast` drops is the last one, and the other
      listeners keep their order. */
  lemma {:induction false} RemoveLastDropsLast(s: seq<nat>, x: nat)
    requires x in s
    ensures RemoveLast(s, x) == s[..LastIndex(s, x)] + s[LastIndex(s, x) + 1..]
  {
    var n := |s| - 1;
    if s[n] == x {
      assert LastIndex(s, x) == n;
      assert s[n + 1..] == [];
    } else {
      var s' := s[..n];
      assert s == s' + [s[n]];
      var i := LastIndex(s', x);
      assert LastIndex(s, x) == i;
      assert RemoveLast(s, x) == RemoveLast(s', x) + [s[n]];
      RemoveLastDropsLast(s', x);
      CutThenAppend(s', i, s[n]);
    }
  }

  /** Cutting position `i` out and then appending `y` is appending first. */
  lemma CutThenAppend(u: seq<nat>, i: nat, y: nat)
    requires i < |u|
    ensures (u[..i] + u[i + 1..]) + [y] == (u + [y])[..i] + (u + [y])[i + 1..]
  {
    assert (u + [y])[..i] == u[..i];
    assert (u + [y])[i + 1..] == u[i + 1..] + [y];
  }

  /** The function `subscribe` returns, closed over its listener. */
  datatype Unsubscriber = Unsubscriber(listener: nat)

  /** A member of the object `createStore` returns. */
  datatype Member = BoundSelector(name: string) | ActionMethod(name: string) | Builtin(name: string)

  /** The members every store defines itself. */
  const Builtins: set<string> := {"dispatchToken", "subscribe", "reduce", "setState", "dispatch", "getState"}

  /** The store object: `Object.assign({}, boundMethods, actions, builtins)`,
      where a later source overwrites an earlier one. */
  function Surface(selectors: set<string>, actions: set<string>): (r: map<string, Member>)
    ensures r.Keys == selectors + actions + Builtins
  {
    (map k | k in selectors :: BoundSelector(k))
    + (map k | k in actions :: ActionMethod(k))
    + (map k | k in Builtins :: Builtin(k))
  }

  /** Every selector, action and builtin name is a member; a builtin hides an
      action or selector of the same name, and an action hides a selector. */
  lemma SurfacePrecedence(selectors: set<string>, actions: set<string>, k: string)
    ensures k in Surface(selectors, actions) <==> k in selectors || k in actions || k in Builtins
    ensures k in Builtins ==> Surface(selectors, actions)[k] == Builtin(k)
    ensures k in actions && k !in Builtins ==> Surface(selectors, actions)[k] == ActionMethod(k)
    ensures k in selectors && k !in actions && k !in Builtins ==> Surface(selectors, actions)[k] == BoundSelector(k)
  {
  }

  /** The closure state of one store. */
  class Store {
    /** `currentState` */
    var state: Value
    /** The listeners of the `changed` event, by function identity, in the
        order they were added. */
    var listeners: seq<nat>
    /** Every listener call made by a `changed` event, in order. */
    var delivered: seq<nat>
    const reducer: Reducer
    const selectors: map<string, SelectorEntry>
    const token: Token

    constructor (reducer: Reducer, selectors: map<string, SelectorEntry>, initial: Value, token: Token)
      ensures this.reducer == reducer && this.selectors == selectors && this.token == token
      ensures state == initial && listeners == [] && delivered == []
    {
      this.reducer := reducer;
      this.selectors := selectors;
      this.token := token;
      state := initial;
      listeners := [];
      delivered := [];
    }

    /** The callback registered with the dispatcher: reduce the action and,
        when the result differs from the state under `!==`, make it the
        state and emit `changed` to every listener. */
    method Receive(action: Value) returns (r: Outcome)
      modifies this`state, this`delivered
      ensures Next(reducer, old(state), action).Err? ==>
        r == Fail(Next(reducer, old(state), action).error) && state == old(state) && delivered == old(delivered)
      ensures Next(reducer, old(state), action) == Ok(None) ==>
        r == Pass && state == old(state) && delivered == old(delivered)
      ensures Next(reducer, old(state), action).Ok? && Next(reducer, old(state), action).value.Some? ==>
        r == Pass && state == Next(reducer, old(state), action).value.value && delivered == old(delivered) + listeners
    {
      var res := Reduce(reducer, state, action);
      if res.Err? {
        return Fail(res.error);
      }
      r := Pass;
      if Differs(state, res.value) {
        state := res.value.state;
        delivered := delivered + listeners;
      }
    }

    /** `subscribe(cb)`: only a function can listen; the result removes it again. */
    method Subscribe(cb: Value) returns (r: Result<Unsubscriber>)
      modifies this`listeners
      ensures !cb.Fn? ==> r == Err(InvalidListener) && listeners == old(listeners)
      ensures cb.Fn? ==> r == Ok(Unsubscriber(cb.id)) && listeners == old(listeners) + [cb.id]
    {
      if !cb.Fn? {
        return Err(InvalidListener);
      }
      listeners := listeners + [cb.id];
      r := Ok(Unsubscriber(cb.id));
    }

    /** Calling the function `subscribe` returned. */
    method Unsubscribe(u: Unsubscriber)
      modifies this`listeners
      ensures listeners == RemoveLast(old(listeners), u.listener)
    {
      listeners := RemoveLast(listeners, u.listener);
    }

    /** `setState(v)`: replaces the state and notifies no one. */
    method SetState(v: Value)
      modifies this`state
      ensures state == v
    {
      state := v;
    }

    /** `getState()` */
    method GetState() returns (v: Value)
      ensures v == state
    {
      v := state;
    }

    /** A bound selector `name(...params)`: the selector applied to the
        current state. Calling a name with no selector, or a selector entry
        that is not a function, is a TypeError. */
    method Select(name: string, params: seq<Value>) returns (r: Result<Value>)
      ensures r.Err? <==> name !in selectors || selectors[name].NotCallable?
      ensures r.Err? ==> r.error == TypeError
      ensures r.Ok? ==> r.value == selectors[name].select(state, params)
    {
      if name !in selectors || selectors[name].NotCallable? {
        return Err(TypeError);
      }
      r := Ok(selectors[name].select(state, params));
    }

    /** The action method `name(data)`: dispatches `{type: name, data: data}`. */
    method Act(d: Dispatcher, name: string, data: Value) returns (r: Outcome)
      requires d.Valid() && name in Actions(reducer)
      modifies d
      ensures d.Valid()
      ensures d.callbacks == old(d.callbacks) && d.order == old(d.order)
      ensures old(d.isDispatching) ==> r == Fail(AlreadyDispatching) && unchanged(d)
      ensures d.lastId == old(d.lastId) && d.issued == old(d.issued)
      ensures !old(d.isDispatching) ==>
        !d.isDispatching && (r, d.State()) == DispatchLogic.Dispatch(d.callbacks, d.order, old(d.State()))
    {
      r := d.Dispatch(ActionPayload(name, data));
    }
  }

  /** `createStore(arg, selectors)`: computes the initial state, lists the
      selectors' keys (a TypeError for null), then registers the store's
      callback, whose `waitFor` calls are `script`. */
  method CreateStore(d: Dispatcher, arg: StoreArg, selectors: SelectorsArg, script: Callback)
    returns (r: Result<Store>)
    requires d.Valid()
    modifies d
    ensures d.Valid()
    ensures InitialState(arg).Err? ==> r == Err(InitialState(arg).error) && unchanged(d)
    ensures InitialState(arg).Ok? && selectors.NullSelectors? ==> r == Err(TypeError) && unchanged(d)
    ensures InitialState(arg).Ok? && selectors.SelectorTable? ==>
      && r.Ok? && fresh(r.value)
      && r.value.state == InitialState(arg).value
      && r.value.reducer == ReducerOf(arg) && r.value.selectors == selectors.entries
      && r.value.listeners == [] && r.value.delivered == []
      && r.value.token == Token(old(d.lastId)) && r.value.token !in old(d.issued)
      && d.callbacks == old(d.callbacks)[r.value.token := script]
      && d.order == old(d.order) + [r.value.token]
      && d.lastId == old(d.lastId) + 1 && d.issued == old(d.issued) + {r.value.token}
      && d.State() == old(d.State())
      && d.isDispatching == old(d.isDispatching) && d.pendingPayload == old(d.pendingPayload)
  {
    var init := InitialState(arg);
    if init.Err? {
      return Err(init.error);
    }
    if selectors.NullSelectors? {
      return Err(TypeError);
    }
    var token := d.Register(script);
    var store := new Store(ReducerOf(arg), selectors.entries, init.value, token);
    r := Ok(store);
  }

  /** The `dispatch(type, data)` wrapper: a refused type or an exception from
      the dispatcher becomes a rejection; otherwise it resolves to
      `{type, data}`. */
  method DispatchAction(d: Dispatcher, typ: Value, data: Value) returns (r: Result<Value>)
    requires d.Valid()
    modifies d
    ensures d.Valid()
    ensures d.lastId == old(d.lastId) && d.issued == old(d.issued)
    ensures Route(typ, data).Err? ==> r == Err(InvalidAction) && unchanged(d)
    ensures Route(typ, data).Ok? && old(d.isDispatching) ==> r == Err(AlreadyDispatching) && unchanged(d)
    ensures Route(typ, data).Ok? && !old(d.isDispatching) ==>
      && !d.isDispatching && d.callbacks == old(d.callbacks) && d.order == old(d.order)
      && d.State() == DispatchLogic.Dispatch(d.callbacks, d.order, old(d.State())).1
      && r == match DispatchLogic.Dispatch(d.callbacks, d.order, old(d.State())).0
              case Pass => Ok(ActionObject(typ, data))
              case Fail(e) => Err(e)
  {
    var payload := Route(typ, data);
    if payload.Err? {
      return Err(payload.error);
    }
    var outcome := d.Dispatch(payload.value);
    match outcome
    case Pass => r := Ok(ActionObject(typ, data));
    case Fail(e) => r := Err(e);
  }
}
