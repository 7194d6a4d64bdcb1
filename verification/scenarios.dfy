/**
 * Client code whose outcome is proved against the model: the flight-booking chain of waits,
 * a stale flag left by a callback that threw and was then unregistered,
 * and a store's listeners coming and going.
 */
module Scenarios {
  import opened JsModel
  import opened DispatchLogic
  import opened Dispatching
  import opened Stores

  /** The registry of the flight-booking example, registered price first:
      the price waits on the city, the city on the country. */
  function FlightCallbacks(): map<Token, Callback>
  {
    map[Token(1) := Callback([[Token(2)]], false),
        Token(2) := Callback([[Token(3)]], false),
        Token(3) := Callback([], false)]
  }

  /** The flight-booking registry cannot fail a dispatch. */
  lemma FlightRegistryWellFormed()
    ensures WellFormed(FlightCallbacks())
  {
    var cbs := FlightCallbacks();
    forall id, t | id in cbs && WaitsOn(cbs[id], t)
      ensures id.n < t.n && t in cbs
    {
      var k :| 0 <= k < |cbs[id].waits| && t in cbs[id].waits[k];
    }
    RankedRegistryHasNoCycle(cbs, (t: Token) => t.n);
  }

  /** Three callbacks run once each with every wait satisfied first can only
      have run country, city, price. */
  lemma FlightCallsInOrder(cbs: map<Token, Callback>, calls: seq<Token>)
    requires cbs == FlightCallbacks() && |calls| == 3 && NoDuplicates(calls)
    requires forall t :: t in cbs <==> t in calls
    requires DepsFirst(cbs, calls)
    ensures calls == [Token(3), Token(2), Token(1)]
  {
    assert Token(2) in cbs[Token(1)].waits[0] && Token(3) in cbs[Token(2)].waits[0];
    assert calls[..0] == [] && calls[..1] == [calls[0]];
    assert !WaitsOn(cbs[calls[0]], Token(2)) && !WaitsOn(cbs[calls[0]], Token(3));
    assert calls[0] == Token(3);
    assert !WaitsOn(cbs[calls[1]], Token(2));
    assert calls[1] == Token(2);
  }

  /** Whatever the flags left by earlier dispatches, a dispatch over the
      flight-booking registry succeeds and completes the country first,
      then the city, then the price. */
  lemma FlightOrder(cbs: map<Token, Callback>, order: seq<Token>, s: Flags)
    requires cbs == FlightCallbacks() && order == [Token(1), Token(2), Token(3)]
    requires Consistent(s)
    ensures Dispatch(cbs, order, s).0 == Pass
    ensures Dispatch(cbs, order, s).1.calls == [Token(3), Token(2), Token(1)]
  {
    FlightRegistryWellFormed();
    DispatchSound(cbs, order, s);
    FlightCallsInOrder(cbs, Dispatch(cbs, order, s).1.calls);
  }

  /** A `country-update` runs the stores' callbacks country first, then
      city, then price, although they were registered the other way round. */
  method FlightBooking() returns (r: Outcome, ghost calls: seq<Token>)
    ensures r == Pass
    ensures calls == [Token(3), Token(2), Token(1)]
  {
    var d := new Dispatcher();
    var price := d.Register(Callback([[Token(2)]], false));
    var city := d.Register(Callback([[Token(3)]], false));
    var country := d.Register(Callback([], false));
    assert d.callbacks == FlightCallbacks();
    FlightOrder(d.callbacks, d.order, d.State());
    r := d.Dispatch(Str("country-update"));
    calls := d.calls;
  }

  /** A first dispatch over a callback that throws and a second that waits
      on it: the first throws, and is left pending but not handled. */
  lemma ThrowingFirst(cbs: map<Token, Callback>, order: seq<Token>, s: Flags)
    requires cbs == map[Token(1) := Callback([], true), Token(2) := Callback([[Token(1)]], false)]
    requires order == [Token(1), Token(2)]
    ensures Dispatch(cbs, order, s).0 == Fail(CallbackThrew(Token(1)))
    ensures Flagged(Dispatch(cbs, order, s).1.pending, Token(1))
    ensures !Flagged(Dispatch(cbs, order, s).1.handled, Token(1))
  {
    var s0 := Started(order, s);
    assert !Flagged(s0.pending, Token(1));
    var s1 := s0.(pending := s0.pending[Token(1) := true]);
    assert WaitAll(cbs, [], s1) == (Pass, s1);
    assert Invoke(cbs, Token(1), s0) == (Fail(CallbackThrew(Token(1))), s1);
  }

  /** Once the thrower is unregistered, a dispatch of the callback waiting on
      it finds the token still pending and unhandled: a circular dependency. */
  lemma StaleWait(cbs: map<Token, Callback>, order: seq<Token>, s: Flags)
    requires cbs == map[Token(2) := Callback([[Token(1)]], false)] && order == [Token(2)]
    requires Flagged(s.pending, Token(1)) && !Flagged(s.handled, Token(1))
    ensures Dispatch(cbs, order, s).0 == Fail(CircularDependency(Token(1)))
  {
    var s0 := Started(order, s);
    assert !Flagged(s0.pending, Token(2));
    var s1 := s0.(pending := s0.pending[Token(2) := true]);
    assert Flagged(s1.pending, Token(1)) && !Flagged(s1.handled, Token(1));
    assert WaitFor(cbs, [Token(1)], s1) == (Fail(CircularDependency(Token(1))), s1);
    assert WaitAll(cbs, [[Token(1)]], s1) == (Fail(CircularDependency(Token(1))), s1);
  }

  /** A callback that throws stays pending but unhandled; unregistering it
      does not clear its flags, since only registered tokens are reset at
      the start of a dispatch. A later wait on its token is then reported
      as a circular dependency rather than an unknown token. */
  method StaleFlag() returns (first: Outcome, removed: Outcome, second: Outcome)
    ensures first == Fail(CallbackThrew(Token(1)))
    ensures removed == Pass
    ensures second == Fail(CircularDependency(Token(1)))
  {
    var d := new Dispatcher();
    var a := d.Register(Callback([], true));
    var b := d.Register(Callback([[a]], false));
    first := ThrowingDispatch(d);
    removed := d.Unregister(a);
    assert d.order == [b] by {
      assert Remove([b], a) == [b];
    }
    StaleWait(d.callbacks, d.order, d.State());
    second := d.Dispatch(Null);
  }

  /** The first step of `StaleFlag`: the dispatch in which the thrower throws. */
  method ThrowingDispatch(d: Dispatcher) returns (first: Outcome)
    requires d.Valid() && !d.isDispatching
    requires d.callbacks == map[Token(1) := Callback([], true), Token(2) := Callback([[Token(1)]], false)]
    requires d.order == [Token(1), Token(2)]
    modifies d
    ensures d.Valid() && !d.isDispatching
    ensures d.callbacks == old(d.callbacks) && d.order == old(d.order)
    ensures d.lastId == old(d.lastId) && d.issued == old(d.issued)
    ensures Flagged(d.isPending, Token(1)) && !Flagged(d.isHandled, Token(1))
    ensures first == Fail(CallbackThrew(Token(1)))
  {
    ThrowingFirst(d.callbacks, d.order, d.State());
    first := d.Dispatch(Null);
  }

  /** The handler of the listener test: the message becomes the state. */
  function LoadMessage(state: Value, data: Value): Reduced<Value>
  {
    New(data)
  }

  function MessageTable(): map<string, Entry>
  {
    map["loadMessage" := Handler(LoadMessage)]
  }

  /** A `loadMessage` notifies the listeners unless the message is the
      string already held, which `!==` does not tell apart. */
  lemma MessageNext(red: Reducer, state: Value, msg: string)
    requires red == TableReducer(MessageTable())
    ensures Next(red, state, ActionPayload("loadMessage", Str(msg))) ==
      if state == Str(msg) then Ok(None) else Ok(Some(Str(msg)))
  {
    ActionRoundTrip(MessageTable(), "loadMessage", Str(msg), state);
  }

  /** An action type the table does not know notifies no one. */
  lemma ForeignNext(red: Reducer, state: Value, data: Value)
    requires red == TableReducer(MessageTable())
    ensures Next(red, state, ActionPayload("foo", data)) == Ok(None)
  {
    assert Prop(ActionPayload("foo", data), "type") == Str("foo");
    UnroutedActionNotifiesNoOne(MessageTable(), state, ActionPayload("foo", data));
  }

  /** Removing the listener added last leaves the first. */
  lemma DropSecond(s: seq<nat>)
    requires s == [1, 2]
    ensures RemoveLast(s, 2) == [1]
  {
    assert s[..1] == [1];
  }

  /** A store's listeners: an unhandled action notifies no one, an action
      whose result is equal to the state under `===` notifies no one, and
      after an unsubscribe only the remaining listener is called. */
  method Listeners() returns (delivered: seq<nat>, state: Value)
    ensures delivered == [1, 2, 1]
    ensures state == Str("Test2")
  {
    var d := new Dispatcher();
    var created := CreateStore(d, TableArg(MessageTable()), SelectorTable(map[]), Callback([], false));
    var store := created.value;
    delivered, state := MessageSteps(store);
  }

  /** The listener test on a fresh store of the message table. */
  method MessageSteps(store: Store) returns (delivered: seq<nat>, state: Value)
    requires store.reducer == TableReducer(MessageTable())
    requires store.listeners == [] && store.delivered == [] && store.state == Undefined
    modifies store
    ensures delivered == [1, 2, 1]
    ensures state == Str("Test2")
  {
    BothListening(store);
    OneListening(store);
    delivered := store.delivered;
    state := store.GetState();
  }

  /** Two listeners hear the first message but not the unknown action; then
      the second one leaves. */
  method BothListening(store: Store)
    requires store.reducer == TableReducer(MessageTable())
    requires store.listeners == [] && store.delivered == [] && store.state == Undefined
    modifies store
    ensures store.reducer == TableReducer(MessageTable())
    ensures store.listeners == [1] && store.delivered == [1, 2] && store.state == Str("Test")
  {
    var u1 := store.Subscribe(Fn(1));
    var u2 := store.Subscribe(Fn(2));
    MessageNext(store.reducer, store.state, "Test");
    var r := store.Receive(ActionPayload("loadMessage", Str("Test")));
    ForeignNext(store.reducer, store.state, Str("Test"));
    r := store.Receive(ActionPayload("foo", Str("Test")));
    DropSecond(store.listeners);
    store.Unsubscribe(u2.value);
  }

  /** The remaining listener hears a new message once: sending it again
      leaves an equal string in place and notifies no one. */
  method OneListening(store: Store)
    requires store.reducer == TableReducer(MessageTable())
    requires store.listeners == [1] && store.delivered == [1, 2] && store.state == Str("Test")
    modifies store
    ensures store.delivered == [1, 2, 1] && store.state == Str("Test2")
  {
    MessageNext(store.reducer, store.state, "Test2");
    var r := store.Receive(ActionPayload("loadMessage", Str("Test2")));
    MessageNext(store.reducer, store.state, "Test2");
    r := store.Receive(ActionPayload("loadMessage", Str("Test2")));
  }
}
