/**
 * The decision logic of the Flux dispatcher on plain values: which callback
 * runs when, which tokens `waitFor` skips or rejects, and what a dispatch
 * leaves behind. The `Dispatcher` class runs the same steps in place and is
 * proved equal to these functions; the properties of a dispatch are proved
 * here, once.
 *
 * A callback is modelled as a script: the token lists it passes to
 * `waitFor`, one call after the other, and then either its own effect or an
 * exception of its own. The effects are recorded, in completion order, in
 * `calls`.
 */
module DispatchLogic {
  import opened JsModel

  /** What a registered callback does with a payload: `waitFor(waits[0])`,
      `waitFor(waits[1])`, ..., then it throws (if `throws`) or has its effect. */
  datatype Callback = Callback(waits: seq<seq<Token>>, throws: bool)

  /** The bookkeeping of a dispatch: the `_isPending` and `_isHandled`
      tables and the callbacks that ran to completion, in order. */
  datatype Flags = Flags(pending: map<Token, bool>, handled: map<Token, bool>, calls: seq<Token>)

  /** `flags[t]` is truthy: a missing entry reads as undefined. */
  predicate Flagged(flags: map<Token, bool>, t: Token)
  {
    t in flags && flags[t]
  }

  /** The callback passes `t` to some `waitFor` call. */
  ghost predicate WaitsOn(cb: Callback, t: Token)
  {
    exists k :: 0 <= k < |cb.waits| && t in cb.waits[k]
  }

  /** Some registered callback waits on `t`. */
  ghost predicate Awaited(cbs: map<Token, Callback>, t: Token)
  {
    exists id :: id in cbs && WaitsOn(cbs[id], t)
  }

  /** Each callback of `p` waits on the next one. */
  ghost predicate Chain(cbs: map<Token, Callback>, p: seq<Token>)
  {
    forall i :: 0 <= i < |p| - 1 ==> p[i] in cbs && WaitsOn(cbs[p[i]], p[i + 1])
  }

  /** `p` is a closed path of waits among the registered callbacks. */
  ghost predicate IsCycle(cbs: map<Token, Callback>, p: seq<Token>)
  {
    |p| >= 2 && p[0] == p[|p| - 1] && Chain(cbs, p)
  }

  /** A registry in which no dispatch can fail: no callback throws, every
      token waited on is registered, and the waits have no cycle. */
  ghost predicate WellFormed(cbs: map<Token, Callback>)
  {
    && (forall id :: id in cbs ==> !cbs[id].throws)
    && (forall id, t :: id in cbs && WaitsOn(cbs[id], t) ==> t in cbs)
    && (forall p :: !IsCycle(cbs, p))
  }

  predicate NoDuplicates(s: seq<Token>)
  {
    forall i, j :: 0 <= i < j < |s| ==> s[i] != s[j]
  }

  /** Registered callbacks not yet started in this dispatch. */
  ghost function Unstarted(cbs: map<Token, Callback>, pending: map<Token, bool>): set<Token>
  {
    set t | t in cbs && !Flagged(pending, t)
  }

  /** Every handled token is also pending. */
  ghost predicate Consistent(s: Flags)
  {
    forall t :: Flagged(s.handled, t) ==> Flagged(s.pending, t)
  }

  /** What running callbacks may do to the bookkeeping: flags are only ever
      raised, and only for registered tokens; a token becomes handled only
      if it was not yet started; and nothing already started is restarted. */
  ghost predicate Advances(cbs: map<Token, Callback>, s: Flags, s': Flags)
  {
    && (forall t :: Flagged(s.pending, t) ==> Flagged(s'.pending, t))
    && (forall t :: Flagged(s.handled, t) ==> Flagged(s'.handled, t))
    && (forall t :: Flagged(s'.pending, t) && !Flagged(s.pending, t) ==> t in cbs)
    && (forall t :: Flagged(s'.handled, t) && !Flagged(s.handled, t) ==> t in cbs && !Flagged(s.pending, t))
    && (Consistent(s) ==> Consistent(s'))
    && Unstarted(cbs, s'.pending) <= Unstarted(cbs, s.pending)
  }

  /** `_invokeCallback(id)`: mark pending, run the callback, mark handled. */
  function Invoke(cbs: map<Token, Callback>, id: Token, s: Flags): (res: (Outcome, Flags))
    requires id in cbs && !Flagged(s.pending, id)
    decreases Unstarted(cbs, s.pending), 0, 0
    ensures Advances(cbs, s, res.1)
    ensures Flagged(res.1.pending, id)
    ensures Consistent(s) ==> (res.0.Pass? <==> Flagged(res.1.handled, id))
    ensures Unstarted(cbs, res.1.pending) < Unstarted(cbs, s.pending)
  {
    var s1 := s.(pending := s.pending[id := true]);
    assert Unstarted(cbs, s1.pending) == Unstarted(cbs, s.pending) - {id};
    var (r, s2) := WaitAll(cbs, cbs[id].waits, s1);
    if r.Fail? then (r, s2)
    else if cbs[id].throws then (Fail(CallbackThrew(id)), s2)
    else (Pass, s2.(handled := s2.handled[id := true], calls := s2.calls + [id]))
  }

  /** The callback's `waitFor` calls, one list after the other, until one fails. */
  function WaitAll(cbs: map<Token, Callback>, lists: seq<seq<Token>>, s: Flags): (res: (Outcome, Flags))
    decreases Unstarted(cbs, s.pending), 3, |lists|
    ensures Advances(cbs, s, res.1)
  {
    if lists == [] then (Pass, s)
    else
      var (r, s1) := WaitFor(cbs, lists[0], s);
      if r.Fail? then (r, s1) else WaitAll(cbs, lists[1..], s1)
  }

  /** `waitFor(ids)` during a dispatch. */
  function WaitFor(cbs: map<Token, Callback>, ids: seq<Token>, s: Flags): (res: (Outcome, Flags))
    decreases Unstarted(cbs, s.pending), 2, |ids|
    ensures Advances(cbs, s, res.1)
  {
    if ids == [] then (Pass, s)
    else
      var (r, s1) := WaitForOne(cbs, ids[0], s);
      if r.Fail? then (r, s1) else WaitFor(cbs, ids[1..], s1)
  }

  /** One token of `waitFor`: a pending token must be handled already and
      is skipped; an unregistered one is an error; any other is invoked. */
  function WaitForOne(cbs: map<Token, Callback>, id: Token, s: Flags): (res: (Outcome, Flags))
    decreases Unstarted(cbs, s.pending), 1, 0
    ensures Advances(cbs, s, res.1)
  {
    if Flagged(s.pending, id) then
      if Flagged(s.handled, id) then (Pass, s) else (Fail(CircularDependency(id)), s)
    else if id !in cbs then (Fail(UnknownToken(id)), s)
    else Invoke(cbs, id, s)
  }

  /** The body of `dispatch`: every callback in registration order that is
      not already pending is invoked; the first exception ends the loop. */
  function RunAll(cbs: map<Token, Callback>, ids: seq<Token>, s: Flags): (res: (Outcome, Flags))
    requires forall t :: t in ids ==> t in cbs
    ensures Advances(cbs, s, res.1)
  {
    if ids == [] then (Pass, s)
    else if Flagged(s.pending, ids[0]) then RunAll(cbs, ids[1..], s)
    else
      var (r, s1) := Invoke(cbs, ids[0], s);
      if r.Fail? then (r, s1) else RunAll(cbs, ids[1..], s1)
  }

  /** The table `flags` with the entries of `ids` set to false. */
  function Reset(ids: seq<Token>, flags: map<Token, bool>): (r: map<Token, bool>)
    ensures forall t :: t in ids ==> t in r && !r[t]
    ensures forall t :: t !in ids ==> (t in r <==> t in flags) && (t in r ==> r[t] == flags[t])
  {
    if ids == [] then flags else Reset(ids[..|ids| - 1], flags)[ids[|ids| - 1] := false]
  }

  /** `_startDispatching`: the flags of the registered tokens are cleared. */
  function Started(order: seq<Token>, s: Flags): (r: Flags)
    ensures forall t :: t in order ==> !Flagged(r.pending, t) && !Flagged(r.handled, t)
    ensures forall t :: t !in order ==>
      Flagged(r.pending, t) == Flagged(s.pending, t) && Flagged(r.handled, t) == Flagged(s.handled, t)
    ensures r.calls == []
  {
    Flags(Reset(order, s.pending), Reset(order, s.handled), [])
  }

  /** A whole dispatch, from the bookkeeping left by the previous one. */
  function Dispatch(cbs: map<Token, Callback>, order: seq<Token>, s: Flags): (res: (Outcome, Flags))
    requires forall t :: t in order ==> t in cbs
    // the flags of unregistered tokens survive from the previous dispatch
    ensures forall t :: t !in cbs ==>
      Flagged(res.1.pending, t) == Flagged(s.pending, t) && Flagged(res.1.handled, t) == Flagged(s.handled, t)
  {
    RunAll(cbs, order, Started(order, s))
  }

  // ---------------------------------------------------------------------
  // What a dispatch guarantees

  /** A callback completed only after every registered callback it waits on. */
  ghost predicate DepsFirst(cbs: map<Token, Callback>, calls: seq<Token>)
  {
    forall j, w :: 0 <= j < |calls| && calls[j] in cbs && WaitsOn(cbs[calls[j]], w) && w in cbs ==> w in calls[..j]
  }

  /** The bookkeeping during a dispatch agrees with the callbacks run. */
  ghost predicate Running(cbs: map<Token, Callback>, s: Flags)
  {
    && Consistent(s)
    && NoDuplicates(s.calls)
    && (forall t :: t in s.calls ==> t in cbs)
    && (forall t :: t in cbs ==> (Flagged(s.handled, t) <==> t in s.calls))
    && DepsFirst(cbs, s.calls)
  }

  /** `stack` lists the callbacks started but not finished, outermost first. */
  ghost predicate Open(cbs: map<Token, Callback>, s: Flags, stack: seq<Token>)
  {
    && (forall i :: 0 <= i < |stack| ==> stack[i] in cbs)
    && Chain(cbs, stack)
    && (forall t :: t in cbs ==> (Flagged(s.pending, t) && !Flagged(s.handled, t) <==> t in stack))
  }

  /** Why a dispatch can fail: a callback threw; a callback waited on a token
      that is neither registered nor pending; or it waited on a token that is
      pending but not handled, which for a registered token means the waits
      run in a cycle through it. */
  ghost predicate Explains(cbs: map<Token, Callback>, s: Flags, e: Error)
  {
    match e
    case CallbackThrew(id) => id in cbs && cbs[id].throws && Flagged(s.pending, id) && !Flagged(s.handled, id)
    case UnknownToken(t) => t !in cbs && !Flagged(s.pending, t) && Awaited(cbs, t)
    case CircularDependency(t) =>
      && Flagged(s.pending, t) && !Flagged(s.handled, t) && Awaited(cbs, t)
      && (t in cbs ==> exists p :: IsCycle(cbs, p) && p[0] == t)
    case _ => false
  }

  /** The result of running callbacks from a state in which `stack` is open:
      the bookkeeping still agrees with the callbacks run; on success the
      same callbacks are open; on failure the error is explained. */
  ghost predicate Settles(cbs: map<Token, Callback>, res: (Outcome, Flags), stack: seq<Token>)
  {
    && Running(cbs, res.1)
    && (res.0.Pass? ==> Open(cbs, res.1, stack))
    && (res.0.Fail? ==> Explains(cbs, res.1, res.0.error))
  }

  /** A chain whose last callback waits on a token already in the chain
      closes a cycle through that token. */
  lemma {:induction false} CycleThrough(cbs: map<Token, Callback>, stack: seq<Token>, id: Token)
    requires Chain(cbs, stack) && |stack| > 0
    requires stack[|stack| - 1] in cbs && WaitsOn(cbs[stack[|stack| - 1]], id)
    requires id in stack
    ensures exists p :: IsCycle(cbs, p) && p[0] == id
  {
    var j :| 0 <= j < |stack| && stack[j] == id;
    var p := stack[j..] + [id];
    forall n | 0 <= n < |p| - 1
      ensures p[n] in cbs && WaitsOn(cbs[p[n]], p[n + 1])
    {
      if n < |stack| - j - 1 {
        assert p[n] == stack[j + n] && p[n + 1] == stack[j + n + 1];
      } else {
        assert p[n] == stack[|stack| - 1] && p[n + 1] == id;
      }
    }
    assert IsCycle(cbs, p);
  }

  /** Completing `id` once all it waits on is handled keeps the order. */
  lemma {:induction false} DepsFirstAppend(cbs: map<Token, Callback>, calls: seq<Token>, id: Token)
    requires DepsFirst(cbs, calls) && id in cbs
    requires forall w :: WaitsOn(cbs[id], w) && w in cbs ==> w in calls
    ensures DepsFirst(cbs, calls + [id])
  {
    var c := calls + [id];
    forall j, w | 0 <= j < |c| && c[j] in cbs && WaitsOn(cbs[c[j]], w) && w in cbs
      ensures w in c[..j]
    {
      if j < |calls| {
        assert c[..j] == calls[..j];
        assert c[j] == calls[j];
      } else {
        assert c[..j] == calls;
      }
    }
  }

  lemma {:induction false} InvokeSound(cbs: map<Token, Callback>, id: Token, s: Flags, stack: seq<Token>)
    requires id in cbs && !Flagged(s.pending, id)
    requires Running(cbs, s) && Open(cbs, s, stack)
    requires |stack| > 0 ==> WaitsOn(cbs[stack[|stack| - 1]], id)
    decreases Unstarted(cbs, s.pending), 0, 0
    ensures Settles(cbs, Invoke(cbs, id, s), stack)
  {
    var s1 := s.(pending := s.pending[id := true]);
    assert Unstarted(cbs, s1.pending) == Unstarted(cbs, s.pending) - {id};
    var inner := stack + [id];
    assert id !in stack;
    assert Open(cbs, s1, inner) by {
      forall i | 0 <= i < |inner| - 1
        ensures inner[i] in cbs && WaitsOn(cbs[inner[i]], inner[i + 1])
      {
        if i < |stack| - 1 {
          assert inner[i] == stack[i] && inner[i + 1] == stack[i + 1];
        }
      }
    }
    var waits := cbs[id].waits;
    forall k, t | 0 <= k < |waits| && t in waits[k]
      ensures WaitsOn(cbs[inner[|inner| - 1]], t)
    {
      assert inner[|inner| - 1] == id;
    }
    WaitAllSound(cbs, waits, s1, inner);
    var (r, s2) := WaitAll(cbs, waits, s1);
    if r.Pass? && !cbs[id].throws {
      forall w | WaitsOn(cbs[id], w) && w in cbs
        ensures Flagged(s2.handled, w)
      {
        var k :| 0 <= k < |waits| && w in waits[k];
      }
      CompleteSound(cbs, id, s2, stack);
    }
  }

  /** Marking `id` handled once everything it waits on is handled closes it. */
  lemma {:induction false} CompleteSound(cbs: map<Token, Callback>, id: Token, s: Flags, stack: seq<Token>)
    requires id in cbs && id !in stack
    requires Running(cbs, s) && Open(cbs, s, stack + [id])
    requires forall w :: WaitsOn(cbs[id], w) && w in cbs ==> Flagged(s.handled, w)
    ensures Settles(cbs, (Pass, s.(handled := s.handled[id := true], calls := s.calls + [id])), stack)
  {
    var inner := stack + [id];
    assert id in inner;
    assert id !in s.calls;
    var s' := s.(handled := s.handled[id := true], calls := s.calls + [id]);
    DepsFirstAppend(cbs, s.calls, id);
    forall t | t in cbs
      ensures Flagged(s'.pending, t) && !Flagged(s'.handled, t) <==> t in stack
    {
      assert t in inner <==> t in stack || t == id;
    }
    forall i | 0 <= i < |stack| - 1
      ensures stack[i] in cbs && WaitsOn(cbs[stack[i]], stack[i + 1])
    {
      assert inner[i] == stack[i] && inner[i + 1] == stack[i + 1];
    }
    forall i | 0 <= i < |stack|
      ensures stack[i] in cbs
    {
      assert inner[i] == stack[i];
    }
  }

  lemma {:induction false} WaitAllSound(cbs: map<Token, Callback>, lists: seq<seq<Token>>, s: Flags, stack: seq<Token>)
    requires Running(cbs, s) && Open(cbs, s, stack) && |stack| > 0
    requires forall k, t :: 0 <= k < |lists| && t in lists[k] ==> WaitsOn(cbs[stack[|stack| - 1]], t)
    decreases Unstarted(cbs, s.pending), 3, |lists|
    ensures Settles(cbs, WaitAll(cbs, lists, s), stack)
    ensures WaitAll(cbs, lists, s).0.Pass? ==>
      forall k, t :: 0 <= k < |lists| && t in lists[k] ==> Flagged(WaitAll(cbs, lists, s).1.handled, t)
  {
    if lists != [] {
      forall t | t in lists[0]
        ensures WaitsOn(cbs[stack[|stack| - 1]], t)
      {
        assert 0 < |lists|;
      }
      WaitForSound(cbs, lists[0], s, stack);
      var (r, s1) := WaitFor(cbs, lists[0], s);
      if r.Pass? {
        forall k, t | 0 <= k < |lists[1..]| && t in lists[1..][k]
          ensures WaitsOn(cbs[stack[|stack| - 1]], t)
        {
          assert lists[1..][k] == lists[k + 1];
        }
        WaitAllSound(cbs, lists[1..], s1, stack);
        var s2 := WaitAll(cbs, lists[1..], s1).1;
        forall k, t | 0 <= k < |lists| && t in lists[k] && WaitAll(cbs, lists, s).0.Pass?
          ensures Flagged(s2.handled, t)
        {
          if k > 0 {
            assert lists[1..][k - 1] == lists[k];
          }
        }
      }
    }
  }

  lemma {:induction false} WaitForSound(cbs: map<Token, Callback>, ids: seq<Token>, s: Flags, stack: seq<Token>)
    requires Running(cbs, s) && Open(cbs, s, stack) && |stack| > 0
    requires forall t :: t in ids ==> WaitsOn(cbs[stack[|stack| - 1]], t)
    decreases Unstarted(cbs, s.pending), 2, |ids|
    ensures Settles(cbs, WaitFor(cbs, ids, s), stack)
    ensures WaitFor(cbs, ids, s).0.Pass? ==> forall t :: t in ids ==> Flagged(WaitFor(cbs, ids, s).1.handled, t)
  {
    if ids != [] {
      assert ids[0] in ids;
      WaitForOneSound(cbs, ids[0], s, stack);
      var (r, s1) := WaitForOne(cbs, ids[0], s);
      if r.Pass? {
        forall t | t in ids[1..]
          ensures t in ids
        {
        }
        WaitForSound(cbs, ids[1..], s1, stack);
        forall t | t in ids
          ensures t == ids[0] || t in ids[1..]
        {
        }
      }
    }
  }

  lemma {:induction false} WaitForOneSound(cbs: map<Token, Callback>, id: Token, s: Flags, stack: seq<Token>)
    requires Running(cbs, s) && Open(cbs, s, stack) && |stack| > 0
    requires WaitsOn(cbs[stack[|stack| - 1]], id)
    decreases Unstarted(cbs, s.pending), 1, 0
    ensures Settles(cbs, WaitForOne(cbs, id, s), stack)
    ensures WaitForOne(cbs, id, s).0.Pass? ==> Flagged(WaitForOne(cbs, id, s).1.handled, id)
  {
    if Flagged(s.pending, id) {
      if !Flagged(s.handled, id) {
        assert Awaited(cbs, id);
        if id in cbs {
          CycleThrough(cbs, stack, id);
        }
      }
    } else if id !in cbs {
      assert Awaited(cbs, id);
    } else {
      InvokeSound(cbs, id, s, stack);
    }
  }

  /** The number of leading tokens of `ids` already handled. */
  function HandledPrefix(handled: map<Token, bool>, ids: seq<Token>): (n: nat)
    ensures n <= |ids|
    ensures forall k :: 0 <= k < n ==> Flagged(handled, ids[k])
    ensures n < |ids| ==> !Flagged(handled, ids[n])
  {
    if ids == [] || !Flagged(handled, ids[0]) then 0 else 1 + HandledPrefix(handled, ids[1..])
  }

  /** How `waitFor(ids)` decides: tokens already handled are skipped with no
      effect; the first one that is not is rejected as circular if pending,
      as unknown if unregistered, and invoked otherwise. */
  lemma {:induction false} WaitForRules(cbs: map<Token, Callback>, ids: seq<Token>, s: Flags)
    requires Consistent(s)
    ensures var f := HandledPrefix(s.handled, ids);
      && (f == |ids| ==> WaitFor(cbs, ids, s) == (Pass, s))
      && (f < |ids| && Flagged(s.pending, ids[f]) ==>
            WaitFor(cbs, ids, s) == (Fail(CircularDependency(ids[f])), s))
      && (f < |ids| && !Flagged(s.pending, ids[f]) && ids[f] !in cbs ==>
            WaitFor(cbs, ids, s) == (Fail(UnknownToken(ids[f])), s))
      && (f < |ids| && !Flagged(s.pending, ids[f]) && ids[f] in cbs ==>
            Flagged(WaitFor(cbs, ids, s).1.pending, ids[f]))
  {
    if ids != [] && Flagged(s.handled, ids[0]) {
      assert WaitForOne(cbs, ids[0], s) == (Pass, s);
      WaitForRules(cbs, ids[1..], s);
      var f := HandledPrefix(s.handled, ids);
      if f < |ids| {
        assert ids[f] == ids[1..][f - 1];
      }
    }
  }

  /** The dispatch loop from a state with nothing open. */
  lemma {:induction false} RunAllSound(cbs: map<Token, Callback>, ids: seq<Token>, s: Flags)
    requires forall t :: t in ids ==> t in cbs
    requires Running(cbs, s) && Open(cbs, s, [])
    ensures Settles(cbs, RunAll(cbs, ids, s), [])
    ensures RunAll(cbs, ids, s).0.Pass? ==> forall t :: t in ids ==> Flagged(RunAll(cbs, ids, s).1.handled, t)
    ensures RunAll(cbs, ids, s).0.Fail? ==> exists t :: t in cbs && !Flagged(RunAll(cbs, ids, s).1.handled, t)
  {
    if ids != [] {
      assert ids[0] in cbs;
      forall t | t in ids[1..]
        ensures t in ids
      {
      }
      if Flagged(s.pending, ids[0]) {
        RunAllSound(cbs, ids[1..], s);
      } else {
        InvokeSound(cbs, ids[0], s, []);
        var (r, s1) := Invoke(cbs, ids[0], s);
        if r.Pass? {
          RunAllSound(cbs, ids[1..], s1);
        }
      }
    }
  }

  /** Clearing flags keeps every handled token pending. */
  lemma {:induction false} StartedConsistent(order: seq<Token>, s: Flags)
    requires Consistent(s)
    ensures Consistent(Started(order, s))
  {
    var s0 := Started(order, s);
    assert s0.pending == Reset(order, s.pending) && s0.handled == Reset(order, s.handled);
    forall t | Flagged(s0.handled, t)
      ensures Flagged(s0.pending, t)
    {
      assert t !in order;
      assert Flagged(s.handled, t);
    }
  }

  /** Clearing the flags of every registered token leaves nothing open. */
  lemma {:induction false} StartedSound(cbs: map<Token, Callback>, order: seq<Token>, s: Flags)
    requires forall t :: t in cbs <==> t in order
    requires Consistent(s)
    ensures Running(cbs, Started(order, s)) && Open(cbs, Started(order, s), [])
  {
    StartedConsistent(order, s);
  }

  /** `s` without the occurrences of `t`, other elements in their order. */
  function Remove(s: seq<Token>, t: Token): (r: seq<Token>)
    ensures forall x :: x in r <==> x in s && x != t
    ensures t !in s ==> r == s
    ensures NoDuplicates(s) ==> NoDuplicates(r)
    ensures NoDuplicates(s) && t in s ==> |r| == |s| - 1
  {
    if s == [] then []
    else if s[0] == t then Remove(s[1..], t)
    else
      assert NoDuplicates(s) ==> s[0] !in s[1..] && NoDuplicates(s[1..]);
      [s[0]] + Remove(s[1..], t)
  }

  /** The position of the first occurrence of `t`. */
  function FirstIndex(s: seq<Token>, t: Token): (i: nat)
    requires t in s
    ensures i < |s| && s[i] == t && t !in s[..i]
  {
    if s[0] == t then 0
    else
      assert s[1..][..FirstIndex(s[1..], t)] == s[..FirstIndex(s[1..], t) + 1][1..];
      1 + FirstIndex(s[1..], t)
  }

  /** In a key order without duplicates, `delete` cuts out the one position
      holding the token and keeps every other key in its relative order,
      which is the order a later `for ... in` visits them. */
  lemma {:induction false} RemoveKeepsOrder(s: seq<Token>, t: Token)
    requires NoDuplicates(s) && t in s
    ensures Remove(s, t) == s[..FirstIndex(s, t)] + s[FirstIndex(s, t) + 1..]
  {
    if s[0] == t {
      assert t !in s[1..];
      assert Remove(s, t) == Remove(s[1..], t);
    } else {
      var tail := s[1..];
      assert NoDuplicates(tail);
      RemoveKeepsOrder(tail, t);
      var j := FirstIndex(tail, t);
      assert FirstIndex(s, t) == j + 1;
      assert s[..j + 1] == [s[0]] + tail[..j];
      assert s[j + 2..] == tail[j + 1..];
    }
  }

  /** Two duplicate-free sequences with the same elements have the same length. */
  lemma {:induction false} SameElementsSameLength(s: seq<Token>, u: seq<Token>)
    requires NoDuplicates(s) && NoDuplicates(u)
    requires forall x :: x in s <==> x in u
    ensures |s| == |u|
  {
    if u != [] {
      assert u[0] in s;
    }
    if s != [] {
      var a := s[0];
      var u' := Remove(u, a);
      forall x
        ensures x in s[1..] <==> x in u'
      {
        if x in s[1..] {
          var k :| 1 <= k < |s| && s[k] == x;
          assert s[0] != s[k];
        }
        if x in u' {
          assert x in s && x != a;
          var k :| 0 <= k < |s| && s[k] == x;
          assert s[1..][k - 1] == x;
        }
      }
      SameElementsSameLength(s[1..], u');
    }
  }

  /** Along a chain of waits whose every step raises `rank`, the rank rises. */
  lemma {:induction false} ChainRaisesRank(cbs: map<Token, Callback>, rank: Token -> int, p: seq<Token>)
    requires forall id, t :: id in cbs && WaitsOn(cbs[id], t) ==> rank(id) < rank(t)
    requires Chain(cbs, p) && |p| >= 2
    ensures rank(p[0]) < rank(p[|p| - 1])
  {
    assert p[0] in cbs && WaitsOn(cbs[p[0]], p[1]);
    if |p| > 2 {
      ChainRaisesRank(cbs, rank, p[1..]);
    }
  }

  /** A registry whose waits all point to a higher rank has no cycle. */
  lemma RankedRegistryHasNoCycle(cbs: map<Token, Callback>, rank: Token -> int)
    requires forall id, t :: id in cbs && WaitsOn(cbs[id], t) ==> rank(id) < rank(t)
    ensures forall p :: !IsCycle(cbs, p)
  {
    forall p | IsCycle(cbs, p)
      ensures false
    {
      ChainRaisesRank(cbs, rank, p);
    }
  }

  /** What a dispatch guarantees, whatever the registered callbacks do:
      no callback runs twice and only registered ones run; a callback runs
      only after every registered callback it waits on; the dispatch
      succeeds exactly when every registered callback ran, each once; a
      failure is explained by a throwing callback, an unknown token or a
      cycle of waits; and a well-formed registry never fails. */
  lemma {:induction false} DispatchSound(cbs: map<Token, Callback>, order: seq<Token>, s: Flags)
    requires NoDuplicates(order) && (forall t :: t in cbs <==> t in order)
    requires Consistent(s)
    ensures Running(cbs, Dispatch(cbs, order, s).1)
    ensures Dispatch(cbs, order, s).0.Pass? <==> forall t :: t in cbs ==> t in Dispatch(cbs, order, s).1.calls
    ensures Dispatch(cbs, order, s).0.Pass? ==> |Dispatch(cbs, order, s).1.calls| == |order|
    ensures Dispatch(cbs, order, s).0.Fail? ==> Explains(cbs, Dispatch(cbs, order, s).1, Dispatch(cbs, order, s).0.error)
    ensures WellFormed(cbs) ==> Dispatch(cbs, order, s).0.Pass?
  {
    var s0 := Started(order, s);
    StartedSound(cbs, order, s);
    RunAllSound(cbs, order, s0);
    var (r, s') := Dispatch(cbs, order, s);
    if r.Pass? {
      SameElementsSameLength(s'.calls, order);
    }
    if r.Fail? && WellFormed(cbs) {
      match r.error
      case CallbackThrew(id) =>
      case UnknownToken(t) =>
      case CircularDependency(t) =>
      case _ =>
    }
  }
}
