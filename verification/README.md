# fluxury in Dafny

A model of fluxury, a small Flux library, with proofs about it. The library
has three parts:

- **The dispatcher.** It keeps a registry of callbacks keyed by tokens
  (`ID_1`, `ID_2`, ...). `dispatch(payload)` runs every registered callback
  once. A callback may call `waitFor(tokens)` to have other callbacks run
  first. The dispatcher tracks each dispatch in two tables, `_isPending`
  and `_isHandled`, and uses them to spot circular waits.
- **`createStore`.** It builds a store from a reducer function or from a
  table of handlers keyed by action type. The store holds its state in a
  closure and registers a callback with the shared dispatcher. When an
  action moves the state (tested with `!==`), the store emits `changed` to
  its listeners. The returned object exposes bound selectors, one action
  method per table key, and `dispatchToken`, `subscribe`, `reduce`,
  `setState`, `dispatch` and `getState`.
- **`composeStore`.** It builds a store whose state gathers the states of
  other stores, as an array or as an object keyed like its argument. Its
  reducer waits for the constituent stores first, and keeps its previous
  state when no constituent moved.

The two example stores are modelled too: a counter, and a todo list kept as
an array.

The model is split into these files:

| file | what it holds |
|---|---|
| `js_model.dfy` | JavaScript values, tokens, errors, and the `Same`/`New` tag on reducer results |
| `dispatch_logic.dfy` | the dispatcher's decisions as functions on values, and the soundness of a dispatch |
| `dispatcher.dfy` | the `Dispatcher` class, updated in place, proved equal to those functions |
| `store.dfy` | the table reducer, the `dispatch(type, data)` wrapper, the store object's members, the `Store` class with its state and listeners, and `createStore` |
| `compose.dfy` | the composed reducer |
| `examples.dfy` | the counter and todo handlers |
| `scenarios.dfy` | client code whose outcome is proved against the model: the flight-booking chain of waits, a stale flag, and listeners |

Callbacks are opaque JavaScript functions. Each one is modelled as a
*script*: the token lists it passes to `waitFor`, one call after another,
then either its effect or an exception of its own. The dispatcher records
which callbacks ran to completion, in order, in `calls`. The soundness
lemmas state what a dispatch guarantees in those terms:

- every callback runs at most once;
- a callback completes only after every registered callback it waits on;
- a dispatch fails only for a reason it can point to: a callback threw,
  a wait named an unknown token, or the waits form a cycle;
- a registry whose callbacks do not throw, name only registered tokens and
  wait in no cycle always dispatches without error.

Two points where the code and its description differ; the model follows the
code:

- A single array argument to `composeStore` is taken by `isMappedObject` as
  the *keyed* form, so the state is an object with keys `"0"`, `"1"`, ….
  It is not the array form.
- Flags of an unregistered token are never reset, because `_startDispatching`
  only clears the tokens still registered. After a callback throws and is
  then unregistered, a later `waitFor` on its token reports a circular
  dependency, not an unknown token (`Scenarios.StaleFlag`).

## Model

| member | source | states |
|---|---|---|
| DispatchLogic.Invoke | lib/fluxury.js:251-255 | the callback is marked pending before it runs, and handled exactly when it returns without throwing; flags only ever rise, and fewer registered callbacks are left unstarted |
| DispatchLogic.WaitAll | lib/fluxury.js:253 | a callback's successive `waitFor` calls only raise flags of registered tokens and never restart a started callback |
| DispatchLogic.WaitFor | lib/fluxury.js:193-204 | `waitFor(ids)` only raises flags of registered tokens and never restarts a started callback |
| DispatchLogic.WaitForOne | lib/fluxury.js:196-202 | one token of `waitFor` only raises flags of registered tokens and never restarts a started callback |
| DispatchLogic.RunAll | lib/fluxury.js:217-223 | the loop of `dispatch` only raises flags of registered tokens and never restarts a started callback |
| DispatchLogic.Reset | lib/fluxury.js:267-270 | every listed token's flag is false afterwards; every other entry is kept as it was |
| DispatchLogic.Dispatch | lib/fluxury.js:214-227 | the flags of a token that is not registered survive a dispatch unchanged |
| DispatchLogic.CycleThrough | lib/fluxury.js:197-198 | a wait on a token already open in the current chain of waits closes a cycle of waits through that token |
| DispatchLogic.DepsFirstAppend | lib/fluxury.js:254 | marking a callback handled after all the callbacks it waits on keeps "dependencies complete first" true of the record |
| DispatchLogic.InvokeSound | lib/fluxury.js:251-255 | invoking a callback leaves the bookkeeping consistent with the callbacks run; on success the open chain is as before, and a failure is explained by a throw, an unknown token or a cycle |
| DispatchLogic.CompleteSound | lib/fluxury.js:254 | a callback whose waits are all handled completes and leaves the bookkeeping consistent |
| DispatchLogic.WaitAllSound | lib/fluxury.js:253 | after a callback's `waitFor` calls succeed, every token it named is handled; a failure is explained |
| DispatchLogic.WaitForSound | lib/fluxury.js:193-204 | after `waitFor(ids)` succeeds, every id is handled; a failure is explained |
| DispatchLogic.WaitForOneSound | lib/fluxury.js:196-202 | after a wait on one token succeeds, that token is handled; a failure is explained |
| DispatchLogic.HandledPrefix | lib/fluxury.js:195-200 | the length of the leading run of handled ids, which `waitFor` skips |
| DispatchLogic.WaitForRules | lib/fluxury.js:193-204 | `waitFor` skips handled ids without effect; then a pending id is a circular dependency, an unregistered id an unknown token, and any other id is invoked |
| DispatchLogic.RunAllSound | lib/fluxury.js:217-223 | when the loop of `dispatch` succeeds, every registered token is handled; when it fails, some registered token is not handled and the failure is explained |
| DispatchLogic.Started | lib/fluxury.js:266-273 | `_startDispatching` clears both flags of every registered token, keeps the flags of every other token and starts an empty record of completions |
| DispatchLogic.StartedConsistent | lib/fluxury.js:266-273 | clearing the flags keeps "handled implies pending" true |
| DispatchLogic.StartedSound | lib/fluxury.js:266-273 | after the flags are cleared, no registered callback is pending or handled and none has run |
| DispatchLogic.Remove | lib/fluxury.js:178-181 | `delete` leaves exactly the other tokens in the key order, keeps it free of duplicates and shortens it by one when the token was there |
| DispatchLogic.RemoveKeepsOrder | lib/fluxury.js:180 | `delete` cuts the token's one position out of the key order, so the other keys keep their relative order for later `for ... in` loops (lib/fluxury.js:218) |
| DispatchLogic.RankedRegistryHasNoCycle | lib/fluxury.js:119-139 | if every callback waits only on tokens of higher rank, the waits have no cycle |
| DispatchLogic.DispatchSound | lib/fluxury.js:214-227 | a dispatch runs each callback at most once and each after its dependencies; it succeeds exactly when every registered callback completed, and then all of them completed once; a failure is explained; a registry with no throw, no unknown token and no cycle always succeeds |
| Dispatching.Dispatcher.constructor | lib/fluxury.js:143-151 | empty registry and tables, not dispatching, payload null |
| Dispatching.Dispatcher.Register | lib/fluxury.js:164-168 | the callback is stored under a fresh token `ID_<lastId>`, appended to the key order; the counter goes up by one |
| Dispatching.Dispatcher.Unregister | lib/fluxury.js:178-181 | a registered token is removed from the registry and the key order, and its flags stay; an unknown token fails and changes nothing |
| Dispatching.Dispatcher.WaitFor | lib/fluxury.js:193-204 | outside a dispatch it fails and changes nothing; inside a dispatch the new tables equal `DispatchLogic.WaitFor` |
| Dispatching.Dispatcher.WaitForOne | lib/fluxury.js:196-202 | the new tables equal `DispatchLogic.WaitForOne` |
| Dispatching.Dispatcher.Invoke | lib/fluxury.js:251-255 | the new tables equal `DispatchLogic.Invoke` |
| Dispatching.Dispatcher.RunCallback | lib/fluxury.js:253 | the new tables equal `DispatchLogic.WaitAll` over the callback's waits |
| Dispatching.Dispatcher.Dispatch | lib/fluxury.js:214-227 | a nested dispatch fails and changes nothing; otherwise the result and the tables equal `DispatchLogic.Dispatch`, the registry is unchanged, and the dispatching state is left even when a callback threw |
| Dispatching.Dispatcher.RunRegistered | lib/fluxury.js:217-223 | the result and the tables equal `DispatchLogic.RunAll` over the key order |
| Dispatching.Dispatcher.IsDispatching | lib/fluxury.js:237-239 | returns whether a dispatch is running |
| Dispatching.Dispatcher.StartDispatching | lib/fluxury.js:266-273 | the tables become `Started(order, ...)`, the payload is stored, and the dispatcher is dispatching |
| Dispatching.Dispatcher.ClearFlags | lib/fluxury.js:267-270 | both tables become `Reset` over the key order |
| Dispatching.Dispatcher.StopDispatching | lib/fluxury.js:283-286 | payload null, not dispatching, tables untouched |
| Stores.CommitUnlessDiffers | lib/fluxury.js:412-416 | the state moves to the reducer's result exactly when that result differs under `!==` |
| Stores.Reduce | lib/fluxury.js:377-382 | the store's `reduce` fails only on a table entry that is not a function, with a TypeError; an action the table does not route returns the state itself |
| Stores.Next | lib/fluxury.js:411-417 | the registered callback fails exactly when the reducer throws; it commits a result exactly when the result differs from the state under `!==` |
| Stores.InitialState | lib/fluxury.js:369-396 | fails exactly for a null or non-object, non-function argument (TypeError for null, an Error otherwise); a table without a function `getInitialState` starts undefined |
| Stores.InitialStateIsFirstReduction | lib/fluxury.js:369-371 | a reducer function's initial state is its result on `(undefined, {})` |
| Stores.Route | src/index.js:64-80 | `dispatch(type, data)` accepts exactly a string or an object type; anything else is rejected |
| Stores.ActionRoundTrip | lib/fluxury.js:377-393 | the action method `k(data)` builds a payload that the table reducer routes back to entry `k` with `data` |
| Stores.UnroutedActionKeepsState | lib/fluxury.js:377-382 | a falsy action, a non-string type or an unknown type returns the state itself |
| Stores.ReduceFailsOnlyOnNonFunction | lib/fluxury.js:377-382 | reducing fails exactly when the routed table entry is not a function, with a TypeError |
| Stores.UnroutedActionNotifiesNoOne | lib/fluxury.js:411-417 | an action the table does not route leaves the state and notifies no listener |
| Stores.NextCommits | lib/fluxury.js:411-417 | the store's callback commits the reducer's result whenever the reducer returns |
| Stores.RemoveLast | lib/fluxury.js:427-429 | `removeListener` removes one occurrence of the listener and keeps the rest, as a multiset |
| Stores.RemoveLastDropsLast | lib/fluxury.js:427-429 | the occurrence removed is the last one added, and the order of the rest is kept |
| Stores.Surface | lib/fluxury.js:410 | the store object's member names are the selectors, the actions and the built-ins |
| Stores.SurfacePrecedence | lib/fluxury.js:410-443 | the store object has a member per selector, action and built-in; a built-in shadows an action, and an action shadows a selector |
| Stores.Store.constructor | lib/fluxury.js:363-367 | a new store has the initial state and no listeners |
| Stores.Store.Receive | lib/fluxury.js:411-417 | a throwing reducer changes nothing; an unchanged result notifies no one; a changed result becomes the state and notifies every listener |
| Stores.Store.Subscribe | lib/fluxury.js:418-430 | a non-function is rejected; a function is added as a listener and an unsubscriber is returned for it |
| Stores.Store.Unsubscribe | lib/fluxury.js:427-429 | the listeners become `RemoveLast` of the listener |
| Stores.Store.SetState | lib/fluxury.js:434-436 | the state becomes the given value |
| Stores.Store.GetState | lib/fluxury.js:440-442 | returns the state |
| Stores.Store.Select | lib/fluxury.js:398-408 | a bound selector is applied to the current state and the parameters; it is a TypeError exactly when the name has no selector or its entry is not a function |
| Stores.Store.Act | lib/fluxury.js:385-393 | an action method dispatches `{type, data}` through the shared dispatcher with the effect of `DispatchLogic.Dispatch`; the registry, the token counter and the issued tokens are unchanged |
| Stores.CreateStore | lib/fluxury.js:359-444 | an invalid argument fails with its error and registers nothing; a null selectors argument then fails with a TypeError and registers nothing; otherwise a fresh store with the initial state, the reducer built from the argument, and a callback registered under a fresh token; the counter goes up by one, the token joins the issued set, and the flags, completions, dispatching state and payload are unchanged |
| Stores.DispatchAction | src/index.js:64-80 | an invalid type is rejected without dispatching; a nested dispatch fails; otherwise the dispatch runs as `DispatchLogic.Dispatch` and resolves to `{type, data}` or rejects with the callback's error; the registry, the token counter and the issued tokens are unchanged |
| Composition.IsMapped | lib/fluxury.js:452-458 | `isMappedObject`: exactly one argument, an object without `getState` (an array included); `Composition.Snapshot` and `Composition.Constituents` state what each form gathers |
| Composition.Constituents | lib/fluxury.js:477-496 | the constituent stores: one per key in the keyed form, one per argument otherwise |
| Composition.Tokens | lib/fluxury.js:502-504 | the constituents' tokens, position by position |
| Composition.Snapshot | lib/fluxury.js:460-475 | the gathered state exists exactly when every `getState` can be called (a TypeError otherwise), and holds each constituent's state under its key or at its position |
| Composition.KeysSame | lib/fluxury.js:519-521 | the `reduce` over the keys; `Composition.KeysSameMeansEqualAtKeys` proves it means "same reference at every key" |
| Composition.KeysSameMeansEqualAtKeys | lib/fluxury.js:519-521 | the `reduce` over the keys is true exactly when every key holds the same reference in both states |
| Composition.EverySame | lib/fluxury.js:528-530 | `every` over two arrays; `Composition.EverySameMeansEqual` proves it means equality |
| Composition.EverySameMeansEqual | lib/fluxury.js:528-530 | `every` over arrays of equal length is true exactly when they are equal |
| Composition.ComposedReduce | lib/fluxury.js:516-535 | the change test returns either the previous state or the freshly gathered one, and keeps the previous one only when both have the same form |
| Composition.ComposedSameIffUnchanged | lib/fluxury.js:516-535 | the composed reducer keeps the previous state exactly when the gathered state is equal to it, and returns the new one otherwise |
| Composition.ComposedReducer | lib/fluxury.js:506-536 | the composed reducer fails exactly when the arguments cannot be gathered, with a TypeError, and otherwise keeps the previous state or returns the fresh snapshot |
| Composition.ComposedReducerIdempotent | lib/fluxury.js:499-514 | reducing with no constituent changed keeps the state, so the default state becomes the initial one |
| Composition.ConstituentChangeIsSeen | lib/fluxury.js:514-535 | when any constituent's state moves, the composed reducer returns the freshly gathered state |
| Composition.ComposedScript | lib/fluxury.js:512 | the composed callback waits on every constituent token and does not throw |
| Composition.ConstituentsCompleteFirst | lib/fluxury.js:506-514 | in every dispatch, the composed store's callback completes after every registered constituent's callback |
| Examples.Increment | examples/CounterStore.js:4 | `increment` is undone by `decrement` |
| Examples.Decrement | examples/CounterStore.js:5 | `decrement` lowers the count |
| Examples.Set | examples/CounterStore.js:6 | `set` fails on a null or undefined argument, with a TypeError |
| Examples.SetIgnoresState | examples/CounterStore.js:6 | `set` does not depend on the state |
| Examples.CounterNet | examples/CounterStore.js:4-5 | after any sequence of increments and decrements, the counter has moved by their difference |
| Examples.CounterDemo | examples/index.js:8-15 | two increments and a decrement from 0 give 1; an increment and a decrement cancel, in either order |
| Examples.SetTodo | examples/TodosStore.js:4-8 | `setTodo` writes the todo at its index, pads a longer array with holes and keeps every other slot; a non-index id changes nothing; a null todo fails |
| Examples.WithFlag | examples/TodosStore.js:9-14 | the copy has the flag set to true and every other own property of the original |
| Examples.MarkOne | examples/TodosStore.js:9-14 | one element of the `map`: reading `id` of a null or undefined todo is a TypeError; a hole stays a hole; a todo whose `id` is `data` gains the flag, any other is kept |
| Examples.Mark | examples/TodosStore.js:9-14 | the marked list has the same length |
| Examples.MarkDone | examples/TodosStore.js:9-11 | `markDone` fails exactly when some todo is null or undefined; otherwise it keeps the length, sets `done` on the todos whose `id` is `data` and keeps every other slot |
| Examples.TrashTodo | examples/TodosStore.js:12-14 | `trashTodo` fails exactly when some todo is null or undefined; otherwise it keeps the length, sets `__trash` on the todos whose `id` is `data` and keeps every other slot |
| Examples.MarkPointwise | examples/TodosStore.js:9-14 | `markDone`/`trashTodo` fail exactly when some todo is null or undefined; otherwise each slot whose id matches is flagged and every other slot is kept |
| Examples.MarkIdempotent | examples/TodosStore.js:9-14 | marking the same id twice is the same as marking it once |
| Examples.FlagsCommute | examples/TodosStore.js:9-14 | on one slot, marking done and trashing commute |
| Examples.MarkDoneTrashCommute | examples/TodosStore.js:9-14 | `markDone` then `trashTodo` gives the same list as `trashTodo` then `markDone` |
| Examples.TodosDemo | examples/index.js:19-28 | the example run: two todos are set, then the first is marked done and trashed while the second is untouched |
| Scenarios.FlightRegistryWellFormed | lib/fluxury.js:119-139 | the flight-booking registry has no throw, no unknown token and no cycle |
| Scenarios.FlightCallsInOrder | lib/fluxury.js:137-139 | the only order in which three callbacks can complete, each after the ones it waits on, is country, city, price |
| Scenarios.FlightOrder | lib/fluxury.js:137-139 | from any consistent flags, a dispatch over the flight registry succeeds with the order country, city, price |
| Scenarios.FlightBooking | lib/fluxury.js:119-139 | a `country-update` registered price first runs the callbacks country, city, price and succeeds |
| Scenarios.ThrowingFirst | lib/fluxury.js:214-227 | a throwing callback fails the dispatch and is left pending but not handled |
| Scenarios.ThrowingDispatch | lib/fluxury.js:214-227 | on the dispatcher object, a dispatch whose first callback throws fails with that exception, keeps the registry, and leaves the thrower pending but not handled |
| Scenarios.StaleWait | lib/fluxury.js:197-198 | a wait on the unregistered thrower's stale flags is reported as circular |
| Scenarios.StaleFlag | lib/fluxury.js:266-270 | throw, unregister, dispatch again: the second dispatch fails with a circular dependency on the removed token |
| Scenarios.MessageNext | lib/fluxury.js:411-417 | a message handler notifies unless the message is the same string as the state |
| Scenarios.ForeignNext | test.js:249-252 | an action type the table does not know notifies no one |
| Scenarios.Listeners | test.js:232-261 | two listeners hear the first message, nobody hears an unknown action, and after one unsubscribes only the other hears the next message |
| Scenarios.MessageSteps | test.js:242-261 | the listener steps on a fresh table store deliver to listeners 1, 2, then 1 |
| Scenarios.BothListening | test.js:242-254 | both listeners hear the first message and not the unknown action; then the second leaves |
| Scenarios.OneListening | test.js:256-261 | the remaining listener hears the new message once; repeating an equal string notifies no one |

## Left out

- The root `index.js`, `lib/index.js` and the Flux-based variant they build are not part of this model. `src/index.js` imports a `Dispatcher` module that is not among the sources; the dispatcher of `lib/fluxury.js` stands in for it.
- Callbacks are fixed scripts of `waitFor` calls followed by a throw or an effect. Their effect does not depend on the payload, and a callback that registers, unregisters or dispatches during a dispatch is not modelled.
- Reducers and handlers are total. An exception thrown inside a reducer function or a table handler is not modelled; only calling a table entry that is not a function raises one.
- The reducer's third argument (`waitFor` or the no-op on the first call) is not passed to handlers. The composed store's wait appears only in its registered callback script (`Composition.ComposedScript`).
- `dispatch` in `src/index.js` returns a Promise. It is modelled as the value it settles with; asynchrony and the Promise payload passed to the dispatcher are left out.
- `lastId` is a field of each `Dispatching.Dispatcher`, and each new dispatcher starts it at 1. In `lib/fluxury.js` the counter `_lastID` is module-global (line 47), so tokens stay unique across dispatchers. The two agree because the library creates exactly one dispatcher (line 347) and every store registers with it.
- `lib/fluxury.js` has its own store `dispatch` (`_dispatch`, lines 349-357, reached through the store member at 437-439). It throws synchronously and returns undefined. `Stores.DispatchAction` models the `src/index.js` version (lines 64-80), which resolves to `{type, data}` or rejects. Both route the type the same way. For the library version, `Err` matches its throw and `Ok` its normal return, whose value is undefined there rather than `{type, data}`.
- A selectors argument that is a number, a boolean or a string is not modelled. `Object.keys` turns it into the keys of its wrapper object. The model has only an object (`SelectorTable`) and null (`NullSelectors`).
- Floating point is left out: numbers are integers, and NaN and -0 are not modelled.
- Object identity is modelled only through the `Same`/`New` tag on reducer results. Any object a reducer returns anew counts as changed. In the composed reducer and the todos, `===` on references is compared structurally.
- The event emitter is reduced to a listener list and a log of deliveries. Listeners themselves run no code, and the `count` of subscriptions is not kept.
- `Object.freeze`, the `Object.assign` and `Object.freeze` polyfills, the message text of errors and `console.log` are left out. The invalid-store warning of `getStores` is unreachable in effect, because `getState` on the same arguments throws first.
- Composition.ComposedReduce: a previous state of the other shape (set with `setState`) is treated as changed. `state.length` and the keys of a non-object previous state are not modelled.
- A keyed `composeStore` argument is assumed to hold stores under all its keys. A key whose value has no `getState` is not modelled.
- The `getState` selector that `composeStore` passes to `createStore` is not modelled. It is shadowed by the built-in `getState`, so it is never reachable through the store object.
- Examples.SetTodo: a string id that spells an array index is not recognised as one.
- Examples.WithFlag: own properties of a primitive todo are not modelled; a primitive yields an object with only the flag.
- The example stores call `createStore(name, initialState, handlers)`, which does not match the `createStore(reducerOrConfig, selectors)` signature of the library. Their handlers are modelled on their own.
- Stores.Store.Receive is called directly in the scenarios, not by the dispatcher. The registered callback is a script (`Stores.CreateStore`'s `script` argument), so a store's state is not tied to the dispatcher's run.
- Scenarios.Listeners: the library's test subscribes one listener each to two stores, and its `MessageStore` is a reducer function that appends each message to an array. The model subscribes two listeners to one table store whose handler replaces the state with the message. The listener paths (subscribe, notify on change, no notification for an unknown action, unsubscribe) are the same; the test's reducer function and its array state are not modelled by this scenario.
