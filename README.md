# PromiseFSM state-machine engine, modelled in Dafny

This project models the `StateMachine` engine of PromiseFSM (`src/PromiseFSM.js`): a
finite-state machine whose transitions are admitted by a lock flag and checked against
an action's `from` (one state or an array of states). An accepted transition may wait
on registered blocking callbacks before it switches state. Every step announces itself
to listeners through the five lifecycle events LOCKED, EXIT_STATE, ENTER_STATE,
UNLOCKED and STATE_CHANGED.

Files and modules:

- `types.dfy` (`FsmTypes`): states, action descriptors, transition and listener
  records, events, outcomes and constructor options, as datatypes.
- `tables.dfy` (`Tables`): the transition table and the listener table as values.
  It defines which callbacks a transition collects, what adding and removing records
  does, and in which order an event reaches its listeners. The lemmas about these
  definitions are here.
- `configuration.dfy` (`Configuration`): the constructor's checks.
- `machine.dfy` (`Machine`): the class `StateMachine`. Its fields `state`, `locked`,
  `transitions` and `listeners` are updated in place, as in the source. Its loops are
  the source's `while(i--)` loops, and each method is proved against the functions of
  `Tables`.
- `scenarios.dfy` (`Scenarios`): several cases of the library's test suite
  (`test.js`), proved from the contracts alone. They cover construction, legal and
  illegal actions, one and three blocking callbacks, removing a callback, and an
  ENTER_STATE listener. Listeners of the other four event kinds are not replayed.

How asynchrony is modelled. `Transition` (and `Invoke`, which calls it for a named
action) returns one of three outcomes at once. `Rejected(error)` and `Resolved` are a
promise that has already settled. `Pending(invocations)` lists each blocking callback
that was called, with the resolver it received and the forwarded arguments. The promise
adapter's all-of-N join is represented by the fields `awaiting` (the resolvers not yet
called), `target` and `nextResolver`. The caller reports each resolver call through
`Resolve(id)`. When the last awaited resolver is called, `CompleteSwitch` runs before
`Resolve` returns `true`. This matches the source, which chains `__completeSwitch` onto
the joined promise before it returns that promise, so the switch happens before any
continuation the caller attaches.

The class invariant `Valid()` says that the lock is held exactly while some resolver is
awaited, so the lock is set only between acceptance and completion. It also says that
the transition table holds no duplicate records. Every public method (`Transition`,
`Invoke`, `Resolve` and the four table operations) keeps it. The internal steps of a
transition do not need it: `LockForSwitch` sets the lock before any resolver is
awaited.

Observable effects are kept in two logs. The ghost log `trace` records every dispatched
event and every blocking-callback invocation, in the order they happen. Each entry
carries the lock flag and the state that the code running in it sees (a listener, or a
callback calling `$getState`). So the contracts state that LOCKED and EXIT_STATE come
before any callback runs, and that every callback sees the machine locked and still in
the source state. The log `delivered` records every listener call, in order.

Three behaviours of the code worth noting:

- `__getTransitionIndex` scans from the end. So `$removeTransition` deletes the record
  at the last index that holds the triple, not the first. `$addTransition` never lets a
  duplicate in (`Valid` keeps `NoDuplicates(transitions)`), so the two agree on every
  table the machine can build.
- Blocking callbacks run in registration order: collection walks the table backwards,
  so the collected list is reversed, and invocation walks that list backwards.
- Nothing guarantees that the current state is one of `states`. Neither the initial
  state nor the actions' targets are checked. `Closed()` states the property, and
  `Invoke` and `Resolve` preserve it when it holds.

## Model

| member | source | states |
|---|---|---|
| `Configuration.Validate` | src/PromiseFSM.js:35-64 | Fails with NoPromiseAdapter, then TooFewStates (`states` missing, not an array, or fewer than two entries), then NoActions (`actions` missing, not an object, or empty), in that order. It succeeds exactly when all three checks pass (action names aside, see "Left out"). On success it keeps `states`, `actions` and `verbose` as given, and the initial state is `initialState` when truthy, else `states[0]` |
| `Configuration.InitialStateNotChecked` | src/PromiseFSM.js:61-64 | A truthy initial state that is not among `states` is still accepted and becomes the initial state |
| `Machine.Construct` | src/PromiseFSM.js:4-65 | Yields a machine exactly when `Validate` succeeds, otherwise the same error. The new machine is unlocked, has the validated initial state, empty tables, no pending resolvers and an empty trace |
| `Machine.StateMachine.constructor` | src/PromiseFSM.js:5-29 | Sets `name`, `states`, `actions` and `verbose` once, starts unlocked with empty transition and listener tables, and establishes `Valid()` |
| `Machine.StateMachine.GetState` | src/PromiseFSM.js:181-183 | Returns the current state, which is one of `states` whenever `Closed()` holds |
| `Machine.StateMachine.Invoke` | src/PromiseFSM.js:54-56 | An action method runs `__transition` with that action's fixed `from` and `to` and the call's arguments. It keeps `Valid()` and preserves `Closed()` |
| `Machine.StateMachine.Transition` | src/PromiseFSM.js:68-137 | A locked machine rejects with LOCKED. Otherwise, a `from` that is not the current state (or an array not containing it) rejects with ILLEGAL_TRANSITION. Both rejections leave state, lock, tables, pending resolvers and both logs unchanged. Otherwise the transition is accepted (see `Accept`) |
| `Machine.StateMachine.Accept` | src/PromiseFSM.js:93-136 | Locks the machine and logs LOCKED and EXIT_STATE. With no callback registered for (current state, `to`), it switches to `to`, unlocks, logs the completion events and resolves. Otherwise it stays in the source state and locked, and awaits exactly the resolvers it handed out. It invokes every matching callback in registration order, after LOCKED and EXIT_STATE, each with its own fresh resolver and the same arguments. Every callback sees the machine locked and in the source state |
| `Machine.StateMachine.LockForSwitch` | src/PromiseFSM.js:93-97 | Sets the lock, then dispatches LOCKED and EXIT_STATE, both carrying (current state, `to`) and both observed with the lock held and the state unchanged |
| `Machine.StateMachine.CollectCallbacks` | src/PromiseFSM.js:103-109 | Returns the callbacks of exactly the records whose `from` is the current state and whose `to` is the target, in reverse registration order |
| `Machine.StateMachine.InvokeCallbacks` | src/PromiseFSM.js:118-129 | Invokes the collected callbacks from last to first, so in registration order. The k-th invocation gets the k-th fresh resolver and the forwarded arguments, and is traced with the lock flag and state it sees. The join then awaits exactly those resolvers |
| `Machine.StateMachine.Resolve` | src/PromiseFSM.js:129-131 | A resolver that is not awaited changes nothing. Otherwise it is removed from the join. State and lock stay as they were until the last awaited resolver is called; that call runs the switch to the pending target and fulfils the joined promise. Keeps `Valid()` and preserves `Closed()` |
| `Machine.StateMachine.CompleteSwitch` | src/PromiseFSM.js:142-155 | Sets the state to `to` and unlocks. It logs ENTER_STATE (still locked, already in `to`), then UNLOCKED, then STATE_CHANGED (both unlocked), all three carrying (previous state, `to`) |
| `Machine.StateMachine.DispatchEvent` | src/PromiseFSM.js:170-179 | Logs the event with the current lock flag and state, and calls exactly the listeners of the event's kind, from the last registered to the first |
| `Machine.StateMachine.GetTransitionIndex` | src/PromiseFSM.js:158-168 | Returns the last index holding the exact (from, to, callback) triple, or -1 when there is none |
| `Machine.StateMachine.AddTransition` | src/PromiseFSM.js:185-195 | The table becomes `AddRecord` of the old table, and stays free of duplicates |
| `Machine.StateMachine.RemoveTransition` | src/PromiseFSM.js:197-202 | The table becomes `RemoveRecord` of the old table, and stays free of duplicates |
| `Machine.StateMachine.AddEventListener` | src/PromiseFSM.js:204-209 | Appends (kind, callback) to the listener table |
| `Machine.StateMachine.RemoveEventListener` | src/PromiseFSM.js:211-218 | The listener table becomes the old one without every (kind, callback) record, the others kept in order |
| `Tables.LastIndexOf` | src/PromiseFSM.js:158-168 | The index is -1 exactly when the record is absent. Otherwise the record is at that index and at no later index |
| `Tables.Matching` | src/PromiseFSM.js:103-109 | A callback is collected for (from, to) exactly when the record (from, to, callback) is in the table |
| `Tables.MatchingAppend` | src/PromiseFSM.js:104-127 | A record registered later has its callback invoked later: appending a matching record appends its callback to the collected list |
| `Tables.MatchingDistinct` | src/PromiseFSM.js:186-193 | On a table without duplicate records, no callback is collected twice for one transition. So registering the same triple twice means one invocation per transition |
| `Tables.AddRecord` | src/PromiseFSM.js:185-195 | The result contains the record. Its records are the old ones plus this one, and the old table is its prefix. It grows by at most one and keeps a duplicate-free table duplicate-free |
| `Tables.AddRecordIdempotent` | src/PromiseFSM.js:186-188 | Adding the same triple a second time changes nothing |
| `Tables.RemoveRecord` | src/PromiseFSM.js:197-202 | Removes exactly one copy of the record, by multiset. When the record is absent the table is unchanged. When it is present, the table loses the record at one index and keeps all others in order |
| `Tables.RemoveRecordUnique` | src/PromiseFSM.js:197-202 | On a duplicate-free table the removed triple is gone afterwards, and the table stays duplicate-free |
| `Tables.AddThenRemove` | src/PromiseFSM.js:185-202 | Removing a record that was just added (and was absent before) restores the table |
| `Tables.RemovedCallbackNotCollected` | src/PromiseFSM.js:197-202 | After removal the callback is no longer collected for its transition. Every other callback is still collected, in the same order |
| `Tables.RemoveRecordOtherPairs` | src/PromiseFSM.js:197-202 | Removing a record leaves the callbacks collected for every other (from, to) pair unchanged |
| `Tables.Subscribers` | src/PromiseFSM.js:172-177 | A callback listens to a kind exactly when (kind, callback) is in the listener table |
| `Tables.Notify` | src/PromiseFSM.js:170-179 | Every listener call made for an event carries that event |
| `Tables.NotifyOrder` | src/PromiseFSM.js:172-177 | The calls made for an event are exactly the listeners of its kind, one per registration, from the last registered to the first |
| `Tables.SubscribersAppend` | src/PromiseFSM.js:204-209 | A listener added later is registered after all earlier ones of its kind, so dispatch calls it first |
| `Tables.Without` | src/PromiseFSM.js:211-218 | An element survives exactly when it was present and differs from the removed one |
| `Tables.SubscribersAfterRemoval` | src/PromiseFSM.js:211-218 | After removing (kind, callback), the listeners of that kind are the old ones without that callback, in the same order. Every other kind keeps its listeners |
| `Tables.WithoutIdempotent` | src/PromiseFSM.js:211-218 | Removing a listener a second time changes nothing |

## Left out

- The promise adapter (`defer`, `all`, `then`) and the asynchrony (timers, scheduling). The join is modelled by the resolver set described above. Sub-future rejection is not modelled, because callbacks only ever resolve.
- Resolving the same resolver twice: the model treats the second call as a no-op, as a deferred does.
- Re-entrancy: listeners and blocking callbacks are opaque identities. The model does not let them call back into the machine while they run (for example, to add a listener during dispatch).
- Exceptions thrown by listeners or blocking callbacks: the source does not handle them.
- `verbose`, `log` and `warn` (src/PromiseFSM.js:220-230): console output only. The duplicate-registration warning is not modelled.
- The module registry (`machines`, `setPromiseAdapter`, `create`, `getMachine`, src/PromiseFSM.js:251-272). Whether an adapter is set becomes a parameter of `Construct`.
- The writability flags of `Object.defineProperty`: the fixed fields are `const`.
- `Configuration.Validate`: the model does not capture what an action's name does when the constructor assigns the action method (`this[key]` in strict mode, src/PromiseFSM.js:2 and 54-56). A name that matches a read-only property throws a TypeError where the model succeeds. The read-only properties are `name`, `verbose`, `transitions`, `listeners`, `states` and `actions`, and the prototype's `__transition`, `__completeSwitch`, `__getTransitionIndex` and `__dispatchEvent`. An action named `locked` overwrites the lock flag with a truthy function, so every later transition rejects with LOCKED. An action named `state` is overwritten by the initial state (line 61), so it can never be called. `Machine.Construct` inherits this from `Validate`. The model treats action names as a separate namespace.
- Per-action method generation: `Invoke(action, args)` looks the action up instead. It requires the action to exist, because calling a method that was never generated is a JavaScript TypeError and not a machine operation.
- Action entries that lack `from` or `to`: the model's `Action` always has both fields. In the source such an entry does not throw, because line 55 just reads `undefined`. An entry without `from` always rejects with ILLEGAL_TRANSITION, because `undefined === this.state` is false at line 80. An entry without `to` switches the machine to the state `undefined` at line 144. Only a `null` or `undefined` entry throws, at line 55, and the model has no such entry either.
- `null` or `undefined` options throw a TypeError at line 17, before any check. The model has no such value. A primitive such as `5` needs no extra case: it has no `states` and fails with the states error, which `Options(None, None, None, false)` represents.
- The generated copy `dist/PromiseFSM-Node.js`, the UI examples and the build script: they are not part of this model.
