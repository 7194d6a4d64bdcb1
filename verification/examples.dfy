/**
 * The example stores' handlers: a counter, and a list of todos kept as an
 * array that may have holes.
 */
module Examples {
  import opened JsModel

  // ---------------------------------------------------------------- counter

  /** `increment: (state) => state + 1` */
  function Increment(state: int): (r: int)
    ensures Decrement(r) == state
  {
    state + 1
  }

  /** `decrement: (state) => state - 1` */
  function Decrement(state: int): (r: int)
    ensures r < state
  {
    state - 1
  }

  /** `set: (state, action) => action.data`: the state is ignored, and the
      second argument must not be null or undefined. */
  function Set(state: Value, arg: Value): (r: Result<Value>)
    ensures r.Err? <==> Nullish(arg)
    ensures r.Err? ==> r.error == TypeError
  {
    if Nullish(arg) then Err(TypeError) else Ok(Prop(arg, "data"))
  }

  /** `set` does not look at the state. */
  lemma SetIgnoresState(state: Value, other: Value, arg: Value)
    ensures Set(state, arg) == Set(other, arg)
  {
  }

  /** The counter's actions that keep the state a number. */
  datatype CounterAction = Inc | Dec

  /** The state after the store handles `actions` in turn. */
  function RunCounter(actions: seq<CounterAction>, state: int): int
  {
    if actions == [] then state
    else
      var next := if actions[0].Inc? then Increment(state) else Decrement(state);
      RunCounter(actions[1..], next)
  }

  function Count(actions: seq<CounterAction>, a: CounterAction): nat
  {
    if actions == [] then 0
    else (if actions[0] == a then 1 else 0) + Count(actions[1..], a)
  }

  /** Only the numbers of increments and decrements matter, not their order:
      in particular an increment followed by a decrement gives the state back. */
  lemma {:induction false} CounterNet(actions: seq<CounterAction>, state: int)
    ensures RunCounter(actions, state) == state + Count(actions, Inc) - Count(actions, Dec)
  {
    if actions != [] {
      var next := if actions[0].Inc? then Increment(state) else Decrement(state);
      CounterNet(actions[1..], next);
    }
  }

  /** The example run: increment, increment, decrement from 0 ends at 1. */
  lemma {:induction false} CounterDemo()
    ensures RunCounter([Inc, Inc, Dec], 0) == 1
    ensures forall n :: RunCounter([Inc, Dec], n) == n && RunCounter([Dec, Inc], n) == n
  {
    CounterNet([Inc, Inc, Dec], 0);
    forall n: int
      ensures RunCounter([Inc, Dec], n) == n && RunCounter([Dec, Inc], n) == n
    {
      CounterNet([Inc, Dec], n);
      CounterNet([Dec, Inc], n);
    }
  }

  // ------------------------------------------------------------------ todos

  /** An array slot: a hole (skipped by `map`) or an element. */
  datatype Slot = Hole | Item(v: Value)

  /** The array index a `data.id` names, if it is one. A string id that
      spells an index is not recognised as one. */
  function IndexOf(id: Value): Option<nat>
  {
    if id.Num? && id.n >= 0 then Some(id.n) else None
  }

  /** `setTodo(state, data)`: a copy of the array with `data` at index
      `data.id`, filling any gap with holes. An id that is not an index
      sets a property the element list does not show. */
  function SetTodo(state: seq<Slot>, data: Value): (r: Result<seq<Slot>>)
    ensures r.Err? <==> Nullish(data)
    ensures r.Ok? && IndexOf(Prop(data, "id")).None? ==> r.value == state
    ensures r.Ok? && IndexOf(Prop(data, "id")).Some? ==>
      var i := IndexOf(Prop(data, "id")).value;
      && |r.value| == (if i < |state| then |state| else i + 1)
      && r.value[i] == Item(data)
      && (forall j :: 0 <= j < |state| && j != i ==> r.value[j] == state[j])
      && (forall j :: |state| <= j < i ==> r.value[j] == Hole)
  {
    if Nullish(data) then Err(TypeError)
    else match IndexOf(Prop(data, "id"))
      case None => Ok(state)
      case Some(i) =>
        if i < |state| then Ok(state[i := Item(data)])
        else Ok(state + seq(i - |state|, _ => Hole) + [Item(data)])
  }

  /** `Object.assign({}, n, {[key]: true})`. Own properties of a primitive
      or a function are not modelled. */
  function WithFlag(n: Value, key: string): (r: Value)
    ensures r.Obj? && key in r.props && r.props[key] == Bool(true)
    ensures n.Obj? ==> forall k :: k != key ==> (k in r.props <==> k in n.props) && (k in n.props ==> r.props[k] == n.props[k])
  {
    if n.Obj? then Obj(n.props[key := Bool(true)]) else Obj(map[key := Bool(true)])
  }

  /** One element of `state.map(n => n.id === data ? Object.assign({}, n, {[key]: true}) : n)`;
      reading `id` of null or undefined throws. */
  function MarkOne(slot: Slot, data: Value, key: string): (r: Result<Slot>)
    ensures r.Err? <==> slot.Item? && Nullish(slot.v)
    ensures r.Err? ==> r.error == TypeError
    ensures r.Ok? ==> r.value == if Matches(slot, data) then Item(WithFlag(slot.v, key)) else slot
  {
    match slot
    case Hole => Ok(Hole)
    case Item(n) =>
      if Nullish(n) then Err(TypeError)
      else if Prop(n, "id") == data then Ok(Item(WithFlag(n, key)))
      else Ok(slot)
  }

  /** The shared shape of `markDone` and `trashTodo`. */
  function Mark(state: seq<Slot>, data: Value, key: string): (r: Result<seq<Slot>>)
    ensures r.Ok? ==> |r.value| == |state|
  {
    if state == [] then Ok([])
    else match MarkOne(state[0], data, key)
      case Err(e) => Err(e)
      case Ok(first) =>
        match Mark(state[1..], data, key)
        case Err(e) => Err(e)
        case Ok(rest) => Ok([first] + rest)
  }

  /** `markDone(state, data)` */
  function MarkDone(state: seq<Slot>, data: Value): (r: Result<seq<Slot>>)
    ensures r.Err? <==> exists i :: 0 <= i < |state| && state[i].Item? && Nullish(state[i].v)
    ensures r.Ok? ==> |r.value| == |state|
    ensures r.Ok? ==> forall i :: 0 <= i < |state| ==>
      r.value[i] == (if Matches(state[i], data) then Item(WithFlag(state[i].v, "done")) else state[i])
  {
    MarkPointwise(state, data, "done");
    Mark(state, data, "done")
  }

  /** `trashTodo(state, data)` */
  function TrashTodo(state: seq<Slot>, data: Value): (r: Result<seq<Slot>>)
    ensures r.Err? <==> exists i :: 0 <= i < |state| && state[i].Item? && Nullish(state[i].v)
    ensures r.Ok? ==> |r.value| == |state|
    ensures r.Ok? ==> forall i :: 0 <= i < |state| ==>
      r.value[i] == (if Matches(state[i], data) then Item(WithFlag(state[i].v, "__trash")) else state[i])
  {
    MarkPointwise(state, data, "__trash");
    Mark(state, data, "__trash")
  }

  /** The element `n` is a todo whose `id` is `data`. */
  predicate Matches(slot: Slot, data: Value)
  {
    slot.Item? && !Nullish(slot.v) && Prop(slot.v, "id") == data
  }

  /** `Mark` element by element: it fails exactly when some element is null
      or undefined; otherwise holes stay holes, elements whose `id` is not
      `data` are kept as they are, and the matching ones gain the flag and
      keep their other properties. */
  lemma {:induction false} MarkPointwise(state: seq<Slot>, data: Value, key: string)
    ensures Mark(state, data, key).Err? <==> exists i :: 0 <= i < |state| && state[i].Item? && Nullish(state[i].v)
    ensures Mark(state, data, key).Ok? ==>
      forall i :: 0 <= i < |state| ==>
        Mark(state, data, key).value[i] == (if Matches(state[i], data) then Item(WithFlag(state[i].v, key)) else state[i])
  {
    if state != [] {
      MarkPointwise(state[1..], data, key);
      assert forall i :: 1 <= i < |state| ==> state[i] == state[1..][i - 1];
      if state[0].Item? && Nullish(state[0].v) {
        assert MarkOne(state[0], data, key).Err?;
      } else {
        var r := Mark(state, data, key);
        if r.Ok? {
          forall i | 0 <= i < |state|
            ensures r.value[i] == (if Matches(state[i], data) then Item(WithFlag(state[i].v, key)) else state[i])
          {
            if i > 0 {
              assert r.value[i] == Mark(state[1..], data, key).value[i - 1];
            }
          }
        } else {
          assert Mark(state[1..], data, key).Err?;
        }
      }
    }
  }

  /** Marking keeps `id`, so a marked todo still matches and marking again
      changes nothing: `markDone` and `trashTodo` are idempotent. */
  lemma {:induction false} MarkIdempotent(state: seq<Slot>, data: Value, key: string)
    requires key != "id"
    requires Mark(state, data, key).Ok?
    ensures Mark(Mark(state, data, key).value, data, key) == Mark(state, data, key)
  {
    if state != [] {
      var first := MarkOne(state[0], data, key).value;
      var rest := Mark(state[1..], data, key).value;
      MarkIdempotent(state[1..], data, key);
      assert Mark(state, data, key).value == [first] + rest;
      assert ([first] + rest)[1..] == rest;
      if Matches(state[0], data) {
        var n := state[0].v;
        assert Prop(WithFlag(n, key), "id") == Prop(n, "id");
        assert WithFlag(WithFlag(n, key), key) == WithFlag(n, key);
      }
    }
  }

  /** `Mark` on an array split into its first element and the rest. */
  lemma MarkCons(x: Slot, rest: seq<Slot>, data: Value, key: string)
    ensures Mark([x] + rest, data, key) ==
      match MarkOne(x, data, key)
      case Err(e) => Err(e)
      case Ok(first) =>
        match Mark(rest, data, key)
        case Err(e) => Err(e)
        case Ok(tail) => Ok([first] + tail)
  {
    assert ([x] + rest)[0] == x;
    assert ([x] + rest)[1..] == rest;
  }

  /** The two flags commute on a single element. */
  lemma FlagsCommute(x: Slot, done: Value, trashed: Value)
    requires MarkOne(x, done, "done").Ok?
    ensures MarkOne(MarkOne(x, done, "done").value, trashed, "__trash").Ok?
    ensures MarkOne(MarkOne(x, done, "done").value, trashed, "__trash") ==
      MarkOne(MarkOne(x, trashed, "__trash").value, done, "done")
  {
    if x.Item? {
      var n := x.v;
      assert Prop(WithFlag(n, "done"), "id") == Prop(n, "id");
      assert Prop(WithFlag(n, "__trash"), "id") == Prop(n, "id");
      assert WithFlag(WithFlag(n, "done"), "__trash") == WithFlag(WithFlag(n, "__trash"), "done");
    }
  }

  /** Marking a todo done and moving it to the trash can be done in either
      order. */
  lemma {:induction false} MarkDoneTrashCommute(state: seq<Slot>, done: Value, trashed: Value)
    requires MarkDone(state, done).Ok?
    ensures TrashTodo(MarkDone(state, done).value, trashed).Ok? <==> TrashTodo(state, trashed).Ok?
    ensures TrashTodo(state, trashed).Ok? ==>
      MarkDone(TrashTodo(state, trashed).value, done).Ok? &&
      TrashTodo(MarkDone(state, done).value, trashed) == MarkDone(TrashTodo(state, trashed).value, done)
  {
    if state != [] {
      var x, rest := state[0], state[1..];
      assert state == [x] + rest;
      MarkCons(x, rest, done, "done");
      MarkCons(x, rest, trashed, "__trash");
      MarkDoneTrashCommute(rest, done, trashed);
      var dx := MarkOne(x, done, "done").value;
      var drest := MarkDone(rest, done).value;
      FlagsCommute(x, done, trashed);
      MarkCons(dx, drest, trashed, "__trash");
      if TrashTodo(state, trashed).Ok? {
        var tx := MarkOne(x, trashed, "__trash").value;
        var trest := TrashTodo(rest, trashed).value;
        MarkCons(tx, trest, done, "done");
      }
    }
  }

  /** `Mark` on a two-element array. */
  lemma MarkPair(a: Slot, b: Slot, data: Value, key: string)
    requires MarkOne(a, data, key).Ok? && MarkOne(b, data, key).Ok?
    ensures Mark([a, b], data, key) == Ok([MarkOne(a, data, key).value, MarkOne(b, data, key).value])
  {
    var fa, fb := MarkOne(a, data, key).value, MarkOne(b, data, key).value;
    assert [a, b] == [a] + [b];
    assert [b] == [b] + [];
    assert [fb] + [] == [fb];
    assert [fa] + [fb] == [fa, fb];
    MarkCons(b, [], data, key);
    MarkCons(a, [b], data, key);
  }

  const DemoFirst: Value := Obj(map["id" := Num(0), "desc" := Str("Do important thing")])
  const DemoSecond: Value := Obj(map["id" := Num(1), "desc" := Str("Do important thing #2")])

  /** The example run: two todos are set, then the first is marked done and
      moved to the trash; the second is untouched. */
  lemma {:induction false} TodosDemo()
    ensures SetTodo([], DemoFirst) == Ok([Item(DemoFirst)])
    ensures SetTodo([Item(DemoFirst)], DemoSecond) == Ok([Item(DemoFirst), Item(DemoSecond)])
    ensures MarkDone([Item(DemoFirst), Item(DemoSecond)], Num(0)) ==
      Ok([Item(WithFlag(DemoFirst, "done")), Item(DemoSecond)])
    ensures TrashTodo([Item(WithFlag(DemoFirst, "done")), Item(DemoSecond)], Num(0)) ==
      Ok([Item(WithFlag(WithFlag(DemoFirst, "done"), "__trash")), Item(DemoSecond)])
  {
    assert Prop(DemoFirst, "id") == Num(0);
    assert Prop(DemoSecond, "id") == Num(1);
    assert seq(0, _ => Hole) == [];
    assert [] + [] + [Item(DemoFirst)] == [Item(DemoFirst)];
    assert [Item(DemoFirst)] + [] + [Item(DemoSecond)] == [Item(DemoFirst), Item(DemoSecond)];
    var d1 := WithFlag(DemoFirst, "done");
    assert Prop(d1, "id") == Num(0);
    MarkPair(Item(DemoFirst), Item(DemoSecond), Num(0), "done");
    MarkPair(Item(d1), Item(DemoSecond), Num(0), "__trash");
  }
}
