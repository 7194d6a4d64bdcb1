/**
 * The Flux dispatcher object: a registry of callbacks keyed by tokens, and
 * the per-dispatch `pending`/`handled` tables, updated in place. Each method
 * is proved to leave the object in the state the corresponding function of
 * `DispatchLogic` computes, where the properties of a dispatch are proved.
 */
module Dispatching {
  import opened JsModel
  import opened DispatchLogic

  class Dispatcher {
    var callbacks: map<Token, Callback>
    /** The keys of `callbacks` in insertion order, the order of `for ... in`. */
    var order: seq<Token>
    var isPending: map<Token, bool>
    var isHandled: map<Token, bool>
    var isDispatching: bool
    var pendingPayload: Value
    /** The numeric part of the next token this dispatcher issues. */
    var lastId: nat
    /** Every token ever returned by Register. */
    ghost var issued: set<Token>
    /** The callbacks that ran to completion in the latest dispatch, in order. */
    ghost var calls: seq<Token>

    /** The per-dispatch bookkeeping as a value. */
    ghost function State(): Flags
      reads this`isPending, this`isHandled, this`calls
    {
      Flags(isPending, isHandled, calls)
    }

    /** The registry: `order` lists the registered tokens once each, and
        every registered token was issued below the counter. */
    ghost predicate Registry()
      reads this`callbacks, this`order, this`issued, this`lastId
    {
      && NoDuplicates(order)
      && (forall t :: t in callbacks <==> t in order)
      && callbacks.Keys <= issued
      && (forall t :: t in issued ==> t.n < lastId)
    }

    ghost predicate Valid()
      reads this
    {
      && Registry()
      && Consistent(State())
      && (!isDispatching ==> pendingPayload == Null)
    }

    constructor ()
      ensures Valid()
      ensures callbacks == map[] && order == [] && issued == {} && lastId == 1
      ensures isPending == map[] && isHandled == map[]
      ensures !isDispatching && pendingPayload == Null && calls == []
    {
      callbacks := map[];
      order := [];
      isPending := map[];
      isHandled := map[];
      isDispatching := false;
      pendingPayload := Null;
      lastId := 1;
      issued := {};
      calls := [];
    }

    /** Registers a callback under a token never returned before. */
    method Register(cb: Callback) returns (id: Token)
      requires Valid()
      modifies this
      ensures Valid()
      ensures id == Token(old(lastId)) && lastId == old(lastId) + 1
      ensures id !in old(issued) && issued == old(issued) + {id}
      ensures callbacks == old(callbacks)[id := cb] && order == old(order) + [id]
      ensures isPending == old(isPending) && isHandled == old(isHandled)
      ensures isDispatching == old(isDispatching) && pendingPayload == old(pendingPayload)
      ensures calls == old(calls)
    {
      id := Token(lastId);
      lastId := lastId + 1;
      callbacks := callbacks[id := cb];
      order := order + [id];
      issued := issued + {id};
    }

    /** Removes a registered callback; an unknown token is an error. The
        flags of the removed token are left in place. */
    method Unregister(id: Token) returns (r: Outcome)
      requires Valid()
      modifies this
      ensures Valid()
      ensures r.Pass? <==> id in old(callbacks)
      ensures r.Fail? ==> r == Fail(UnknownToken(id)) && unchanged(this)
      ensures r.Pass? ==> callbacks == old(callbacks) - {id} && order == Remove(old(order), id)
      ensures lastId == old(lastId) && issued == old(issued)
      ensures isPending == old(isPending) && isHandled == old(isHandled)
      ensures isDispatching == old(isDispatching) && pendingPayload == old(pendingPayload)
      ensures calls == old(calls)
    {
      if id !in callbacks {
        return Fail(UnknownToken(id));
      }
      callbacks := callbacks - {id};
      order := Remove(order, id);
      r := Pass;
    }

    /** `waitFor(ids)`: only legal while dispatching; runs the callbacks of
        `ids` that have not run yet, as `DispatchLogic.WaitFor` decides. */
    method WaitFor(ids: seq<Token>) returns (r: Outcome)
      requires Consistent(State())
      modifies this`isPending, this`isHandled, this`calls
      decreases Unstarted(callbacks, isPending), 2, 0
      ensures Consistent(State())
      ensures !isDispatching ==> r == Fail(NotDispatching) && unchanged(this)
      ensures isDispatching ==> (r, State()) == DispatchLogic.WaitFor(callbacks, ids, old(State()))
    {
      if !isDispatching {
        return Fail(NotDispatching);
      }
      var i := 0;
      r := Pass;
      while i < |ids| && r.Pass?
        invariant 0 <= i <= |ids|
        invariant Consistent(State())
        invariant Unstarted(callbacks, isPending) <= Unstarted(callbacks, old(isPending))
        invariant r.Pass? ==> DispatchLogic.WaitFor(callbacks, ids, old(State())) == DispatchLogic.WaitFor(callbacks, ids[i..], State())
        invariant r.Fail? ==> DispatchLogic.WaitFor(callbacks, ids, old(State())) == (r, State())
      {
        assert ids[i..][1..] == ids[i + 1..];
        r := WaitForOne(ids[i]);
        i := i + 1;
      }
    }

    /** One token of `waitFor`. */
    method WaitForOne(id: Token) returns (r: Outcome)
      requires Consistent(State()) && isDispatching
      modifies this`isPending, this`isHandled, this`calls
      decreases Unstarted(callbacks, isPending), 1, 0
      ensures Consistent(State())
      ensures (r, State()) == DispatchLogic.WaitForOne(callbacks, id, old(State()))
    {
      if Flagged(isPending, id) {
        if !Flagged(isHandled, id) {
          return Fail(CircularDependency(id));
        }
        return Pass;
      }
      if id !in callbacks {
        return Fail(UnknownToken(id));
      }
      r := Invoke(id);
    }

    /** `_invokeCallback(id)`: marks `id` pending, runs its callback with the
        pending payload and, if the callback returns, marks it handled. */
    method Invoke(id: Token) returns (r: Outcome)
      requires Consistent(State()) && isDispatching
      requires id in callbacks && !Flagged(isPending, id)
      modifies this`isPending, this`isHandled, this`calls
      decreases Unstarted(callbacks, isPending), 0, 0
      ensures Consistent(State())
      ensures (r, State()) == DispatchLogic.Invoke(callbacks, id, old(State()))
    {
      isPending := isPending[id := true];
      assert Unstarted(callbacks, isPending) == Unstarted(callbacks, old(isPending)) - {id};
      var cb := callbacks[id];
      r := RunCallback(cb.waits);
      if r.Pass? {
        if cb.throws {
          r := Fail(CallbackThrew(id));
        } else {
          calls := calls + [id];
          isHandled := isHandled[id := true];
        }
      }
    }

    /** The body of a callback: its `waitFor` calls in turn; an exception
        from one of them ends the callback. */
    method RunCallback(waits: seq<seq<Token>>) returns (r: Outcome)
      requires Consistent(State()) && isDispatching
      modifies this`isPending, this`isHandled, this`calls
      decreases Unstarted(callbacks, isPending), 3, 0
      ensures Consistent(State())
      ensures (r, State()) == WaitAll(callbacks, waits, old(State()))
    {
      var k := 0;
      r := Pass;
      while k < |waits| && r.Pass?
        invariant 0 <= k <= |waits|
        invariant Consistent(State())
        invariant Unstarted(callbacks, isPending) <= Unstarted(callbacks, old(isPending))
        invariant r.Pass? ==> WaitAll(callbacks, waits, old(State())) == WaitAll(callbacks, waits[k..], State())
        invariant r.Fail? ==> WaitAll(callbacks, waits, old(State())) == (r, State())
      {
        assert waits[k..][1..] == waits[k + 1..];
        r := WaitFor(waits[k]);
        k := k + 1;
      }
    }

    /** `dispatch(payload)`: runs every registered callback once, unless a
        dispatch is already running; the bookkeeping is cleared even when a
        callback throws, and the exception is passed on. */
    method Dispatch(payload: Value) returns (r: Outcome)
      requires Valid()
      modifies this
      ensures Valid()
      ensures callbacks == old(callbacks) && order == old(order)
      ensures lastId == old(lastId) && issued == old(issued)
      ensures old(isDispatching) ==> r == Fail(AlreadyDispatching) && unchanged(this)
      ensures !old(isDispatching) ==>
        && !isDispatching && pendingPayload == Null
        && (r, State()) == DispatchLogic.Dispatch(callbacks, order, old(State()))
    {
      if isDispatching {
        return Fail(AlreadyDispatching);
      }
      StartDispatching(payload);
      r := RunRegistered();
      StopDispatching();
    }

    /** The loop of `dispatch`: every registered callback that has not run
        yet, in registration order, until one throws. */
    method RunRegistered() returns (r: Outcome)
      requires forall t :: t in order ==> t in callbacks
      requires Consistent(State()) && isDispatching
      modifies this`isPending, this`isHandled, this`calls
      ensures Consistent(State())
      ensures (r, State()) == RunAll(callbacks, order, old(State()))
    {
      var i := 0;
      r := Pass;
      while i < |order| && r.Pass?
        invariant 0 <= i <= |order|
        invariant Consistent(State())
        invariant r.Pass? ==> RunAll(callbacks, order, old(State())) == RunAll(callbacks, order[i..], State())
        invariant r.Fail? ==> RunAll(callbacks, order, old(State())) == (r, State())
      {
        assert order[i..][1..] == order[i + 1..];
        if !Flagged(isPending, order[i]) {
          r := Invoke(order[i]);
        }
        i := i + 1;
      }
    }

    /** Whether a dispatch is in progress. */
    method IsDispatching() returns (b: bool)
      ensures b == isDispatching
    {
      b := isDispatching;
    }

    /** `_startDispatching`: clears the flags of every registered callback,
        stores the payload and enters the dispatching state. */
    method StartDispatching(payload: Value)
      requires Valid() && !isDispatching
      modifies this
      ensures Valid()
      ensures State() == Started(order, old(State()))
      ensures isDispatching && pendingPayload == payload
      ensures callbacks == old(callbacks) && order == old(order)
      ensures lastId == old(lastId) && issued == old(issued)
    {
      ghost var s := State();
      ClearFlags();
      pendingPayload := payload;
      isDispatching := true;
      calls := [];
      assert State() == Started(order, s);
      StartedConsistent(order, s);
    }

    /** The loop of `_startDispatching` over the registered tokens. */
    method ClearFlags()
      modifies this`isPending, this`isHandled
      ensures isPending == Reset(order, old(isPending))
      ensures isHandled == Reset(order, old(isHandled))
    {
      var i := 0;
      while i < |order|
        invariant 0 <= i <= |order|
        invariant isPending == Reset(order[..i], old(isPending))
        invariant isHandled == Reset(order[..i], old(isHandled))
      {
        assert order[..i + 1][..i] == order[..i];
        isPending := isPending[order[i] := false];
        isHandled := isHandled[order[i] := false];
        i := i + 1;
      }
      assert order[..i] == order;
    }

    /** `_stopDispatching`: clears the payload and leaves the dispatching state. */
    method StopDispatching()
      requires Valid()
      modifies this
      ensures Valid()
      ensures !isDispatching && pendingPayload == Null
      ensures callbacks == old(callbacks) && order == old(order)
      ensures lastId == old(lastId) && issued == old(issued)
      ensures State() == old(State())
    {
      pendingPayload := Null;
      isDispatching := false;
    }
  }
}
