/** The `StateMachine` engine: a lock-guarded finite-state machine whose
    transitions may wait on registered blocking callbacks and announce their
    progress to listeners in a fixed order of lifecycle events.

    The promise that a transition returns is modelled in two phases. `Transition`
    answers at once with `Rejected`, `Resolved` or `Pending(invocations)`; in the
    last case each invocation names the resolver handed to its callback, and the
    caller later reports each resolver call through `Resolve`. The fields
    `awaiting`, `target` and `nextResolver` stand for the promise adapter's
    all-of-N join. When the last awaited resolver is called, `CompleteSwitch`
    runs before `Resolve` returns `true`, just as the source chains the switch
    onto the joined promise before handing that promise to the caller. */
module Machine {
  import opened FsmTypes
  import opened Tables
  import opened Configuration

  /** A transition is legal when its `from` is the current state, or is an array
      that contains the current state. */
  predicate IsLegal(from: From, current: State)
  {
    match from
    case Single(s) => s == current
    case Many(ss) => current in ss
  }

  /** The events of an accepted transition, with what listeners observe: the
      machine is already locked and still in the source state. */
  function AcceptanceLog(from: State, to: State): seq<Observation>
  {
    [Dispatched(Event(LockedEvent, from, to), true, from),
     Dispatched(Event(ExitState, from, to), true, from)]
  }

  /** The events of a completed switch: the state is already the target, the lock
      is still held during ENTER_STATE and released before UNLOCKED. */
  function CompletionLog(from: State, to: State): seq<Observation>
  {
    [Dispatched(Event(EnterState, from, to), true, to),
     Dispatched(Event(UnlockedEvent, from, to), false, to),
     Dispatched(Event(StateChanged, from, to), false, to)]
  }

  function AcceptanceCalls(listeners: seq<Listener>, from: State, to: State): seq<Delivery>
  {
    Notify(listeners, Event(LockedEvent, from, to)) + Notify(listeners, Event(ExitState, from, to))
  }

  function CompletionCalls(listeners: seq<Listener>, from: State, to: State): seq<Delivery>
  {
    Notify(listeners, Event(EnterState, from, to))
    + Notify(listeners, Event(UnlockedEvent, from, to))
    + Notify(listeners, Event(StateChanged, from, to))
  }

  /** The k-th callback gets the k-th fresh resolver and the same arguments. */
  function Invocations(callbacks: seq<Callback>, firstResolver: nat, args: seq<Value>): seq<Invocation>
  {
    seq(|callbacks|, k requires 0 <= k < |callbacks| => Invocation(callbacks[k], firstResolver + k, args))
  }

  /** The invocations of an accepted transition as their callbacks observe the
      machine: still locked and still in the source state. */
  function CallLog(invocations: seq<Invocation>, source: State): (log: seq<Observation>)
    ensures |log| == |invocations|
    ensures forall k :: 0 <= k < |log| ==> log[k] == Invoked(invocations[k], true, source)
  {
    seq(|invocations|, k requires 0 <= k < |invocations| => Invoked(invocations[k], true, source))
  }

  /** The `n` resolvers numbered from `first`. */
  function ResolverIds(first: nat, n: nat): (ids: set<nat>)
    ensures forall id :: id in ids <==> first <= id < first + n
  {
    if n == 0 then {} else ResolverIds(first, n - 1) + {first + n - 1}
  }

  class StateMachine {
    // Set once by the constructor.
    const name: string
    const states: seq<State>
    const actions: map<string, Action>
    const verbose: bool

    var state: State
    var locked: bool
    var transitions: seq<Record>
    var listeners: seq<Listener>

    // The promise adapter's join over the resolvers of the transition in flight.
    var awaiting: set<nat>
    var target: State
    var nextResolver: nat

    // Every dispatched event and every blocking-callback invocation, in the
    // order they happen, each with the lock flag and state its code sees.
    ghost var trace: seq<Observation>
    // Every listener call, in order.
    var delivered: seq<Delivery>

    ghost predicate Valid()
      reads this
    {
      && |states| > 1 && |actions| > 0
      && NoDuplicates(transitions)
      && (locked <==> awaiting != {})
      && (forall id :: id in awaiting ==> id < nextResolver)
    }

    /** The machine names only its own states. The constructor does not check
        this (neither the initial state nor the actions' targets are compared
        with `states`), but when it holds the actions keep it. */
    ghost predicate Closed()
      reads this
    {
      && state in states
      && (locked ==> target in states)
      && forall a :: a in actions ==> actions[a].to in states
    }

    constructor (name: string, config: Config)
      requires |config.states| > 1 && |config.actions| > 0
      ensures Valid()
      ensures this.name == name && states == config.states && actions == config.actions
      ensures verbose == config.verbose
      ensures state == config.initial && !locked
      ensures transitions == [] && listeners == []
      ensures awaiting == {} && nextResolver == 0
      ensures trace == [] && delivered == []
    {
      this.name := name;
      states := config.states;
      actions := config.actions;
      verbose := config.verbose;
      state := config.initial;
      locked := false;
      transitions := [];
      listeners := [];
      awaiting := {};
      target := config.initial;
      nextResolver := 0;
      trace := [];
      delivered := [];
    }

    /** `$getState`. */
    function GetState(): (s: State)
      reads this
      ensures s == state
      ensures Closed() ==> s in states
    {
      state
    }

    /** `__getTransitionIndex`: scans the table from its end. */
    method GetTransitionIndex(from: State, to: State, callback: Callback) returns (i: int)
      ensures i == LastIndexOf(transitions, Record(from, to, callback))
    {
      i := |transitions|;
      while i > 0
        invariant 0 <= i <= |transitions|
        invariant forall j :: i <= j < |transitions| ==> transitions[j] != Record(from, to, callback)
      {
        i := i - 1;
        if transitions[i].from == from && transitions[i].to == to && transitions[i].callback == callback {
          return;
        }
      }
      i := -1;
    }

    /** `__dispatchEvent`: calls the listeners of the event's kind, from the last
        registered to the first. */
    method DispatchEvent(evt: Event)
      modifies this`trace, this`delivered
      ensures trace == old(trace) + [Dispatched(evt, locked, state)]
      ensures delivered == old(delivered) + Notify(listeners, evt)
    {
      trace := trace + [Dispatched(evt, locked, state)];
      var i := |listeners|;
      while i > 0
        invariant 0 <= i <= |listeners|
        invariant trace == old(trace) + [Dispatched(evt, locked, state)]
        invariant delivered == old(delivered) + Notify(listeners[i..], evt)
      {
        i := i - 1;
        assert listeners[i..][1..] == listeners[i + 1..];
        if listeners[i].kind == evt.kind {
          delivered := delivered + [Delivery(listeners[i].callback, evt)];
        }
      }
    }

    /** The collection loop of `__transition`: it walks the table backwards, so
        the callbacks come out in reverse registration order. */
    method CollectCallbacks(to: State) returns (callbacks: seq<Callback>)
      ensures callbacks == Reversed(Matching(transitions, state, to))
    {
      callbacks := [];
      var i := |transitions|;
      while i > 0
        invariant 0 <= i <= |transitions|
        invariant callbacks == Reversed(Matching(transitions[i..], state, to))
      {
        i := i - 1;
        CollectStep(transitions, i, state, to);
        if transitions[i].from == state && transitions[i].to == to {
          callbacks := callbacks + [transitions[i].callback];
        }
      }
    }

    /** The invocation loop of `__transition`: it walks the collected callbacks
        backwards, so they run in registration order, each with a fresh resolver. */
    method InvokeCallbacks(callbacks: seq<Callback>, args: seq<Value>, ghost registered: seq<Callback>)
      returns (invocations: seq<Invocation>)
      requires locked
      requires callbacks == Reversed(registered)
      modifies this`awaiting, this`nextResolver, this`trace
      ensures invocations == Invocations(registered, old(nextResolver), args)
      ensures trace == old(trace) + CallLog(invocations, state)
      ensures awaiting == old(awaiting) + ResolverIds(old(nextResolver), |callbacks|)
      ensures nextResolver == old(nextResolver) + |callbacks|
    {
      invocations := [];
      var i := |callbacks|;
      while i > 0
        invariant 0 <= i <= |callbacks|
        invariant |invocations| == |callbacks| - i
        invariant nextResolver == old(nextResolver) + |invocations|
        invariant awaiting == old(awaiting) + ResolverIds(old(nextResolver), |invocations|)
        invariant trace == old(trace) + CallLog(invocations, state)
        invariant forall k :: 0 <= k < |invocations| ==>
          invocations[k] == Invocation(registered[k], old(nextResolver) + k, args)
      {
        i := i - 1;
        var resolver := nextResolver;
        nextResolver := nextResolver + 1;
        awaiting := awaiting + {resolver};
        var invocation := Invocation(callbacks[i], resolver, args);
        trace := trace + [Invoked(invocation, locked, state)];
        invocations := invocations + [invocation];
        assert CallLog(invocations, state) == CallLog(invocations[..|invocations| - 1], state) + [Invoked(invocation, true, state)];
      }
    }

    /** `__completeSwitch`. */
    method CompleteSwitch(to: State)
      requires locked
      modifies this`state, this`locked, this`trace, this`delivered
      ensures state == to && !locked
      ensures trace == old(trace) + CompletionLog(old(state), to)
      ensures delivered == old(delivered) + CompletionCalls(listeners, old(state), to)
    {
      var from := state;
      state := to;
      DispatchEvent(Event(EnterState, from, to));
      locked := false;
      DispatchEvent(Event(UnlockedEvent, from, to));
      DispatchEvent(Event(StateChanged, from, to));
    }

    /** Nothing the machine keeps has changed. */
    twostate predicate Unmoved()
      reads this
    {
      && state == old(state) && locked == old(locked)
      && transitions == old(transitions) && listeners == old(listeners)
      && awaiting == old(awaiting) && target == old(target) && nextResolver == old(nextResolver)
      && trace == old(trace) && delivered == old(delivered)
    }

    /** What one call of `__transition(from, to, ...args)` does: a locked machine
        or an illegal source rejects and changes nothing; otherwise the
        transition is accepted. */
    twostate predicate TransitionEffect(from: From, to: State, args: seq<Value>, o: Outcome)
      reads this
    {
      if old(locked) then
        o == Rejected(LockedError) && Unmoved()
      else if !IsLegal(from, old(state)) then
        o == Rejected(IllegalTransition) && Unmoved()
      else
        AcceptEffect(to, args, o)
    }

    /** An accepted transition locks the machine and announces LOCKED and
        EXIT_STATE. Without matching callbacks it switches at once and resolves;
        with them it stays locked in the source state, awaiting one fresh
        resolver per callback. The callbacks run only after both events, and
        each sees the machine locked and in the source state. */
    twostate predicate AcceptEffect(to: State, args: seq<Value>, o: Outcome)
      reads this
    {
      var source := old(state);
      var matching := Matching(old(transitions), source, to);
      && transitions == old(transitions) && listeners == old(listeners)
      && if matching == [] then
        && o == Resolved
        && state == to && !locked
        && awaiting == old(awaiting) && target == old(target) && nextResolver == old(nextResolver)
        && trace == old(trace) + AcceptanceLog(source, to) + CompletionLog(source, to)
        && delivered == old(delivered) + AcceptanceCalls(listeners, source, to) + CompletionCalls(listeners, source, to)
      else
        && o == Pending(Invocations(matching, old(nextResolver), args))
        && state == source && locked
        && awaiting == ResolverIds(old(nextResolver), |matching|)
        && target == to && nextResolver == old(nextResolver) + |matching|
        && trace == old(trace) + AcceptanceLog(source, to) + CallLog(o.invocations, source)
        && delivered == old(delivered) + AcceptanceCalls(listeners, source, to)
    }

    /** `__transition`. */
    method Transition(from: From, to: State, args: seq<Value>) returns (o: Outcome)
      requires Valid()
      modifies this
      ensures Valid()
      ensures TransitionEffect(from, to, args, o)
      ensures old(Closed()) && to in states ==> Closed()
    {
      if locked {
        o := Rejected(LockedError);
        return;
      }
      if !IsLegal(from, state) {
        o := Rejected(IllegalTransition);
        return;
      }
      o := Accept(to, args);
    }

    /** The part of `__transition` after the lock and legality checks. */
    method Accept(to: State, args: seq<Value>) returns (o: Outcome)
      requires Valid() && !locked
      modifies this
      ensures Valid()
      ensures AcceptEffect(to, args, o)
      ensures old(Closed()) && to in states ==> Closed()
    {
      ghost var matching := Matching(transitions, state, to);
      LockForSwitch(to);
      var callbacks := CollectCallbacks(to);
      if |callbacks| > 0 {
        var invocations := InvokeCallbacks(callbacks, args, matching);
        assert old(nextResolver) in awaiting;
        target := to;
        o := Pending(invocations);
      } else {
        assert matching == [];
        CompleteSwitch(to);
        o := Resolved;
      }
    }

    /** Taking the lock: LOCKED then EXIT_STATE, both for (current state, `to`). */
    method LockForSwitch(to: State)
      requires !locked
      modifies this`locked, this`trace, this`delivered
      ensures locked
      ensures trace == old(trace) + AcceptanceLog(state, to)
      ensures delivered == old(delivered) + AcceptanceCalls(listeners, state, to)
    {
      locked := true;
      DispatchEvent(Event(LockedEvent, state, to));
      DispatchEvent(Event(ExitState, state, to));
    }

    /** Calling the action method `action(...args)`. */
    method Invoke(action: string, args: seq<Value>) returns (o: Outcome)
      requires Valid() && action in actions
      modifies this
      ensures Valid()
      ensures TransitionEffect(actions[action].from, actions[action].to, args, o)
      ensures old(Closed()) ==> Closed()
    {
      o := Transition(actions[action].from, actions[action].to, args);
    }

    /** A resolver handed to a blocking callback is called. Resolvers that are not
        awaited (already called, or of an earlier transition) change nothing. The
        result says whether the joined promise has just fulfilled. */
    method Resolve(id: nat) returns (fulfilled: bool)
      requires Valid()
      modifies this
      ensures Valid()
      ensures fulfilled <==> old(awaiting) == {id}
      ensures awaiting == old(awaiting) - {id}
      ensures transitions == old(transitions) && listeners == old(listeners)
      ensures target == old(target) && nextResolver == old(nextResolver)
      ensures !fulfilled ==> state == old(state) && locked == old(locked)
                             && trace == old(trace) && delivered == old(delivered)
      ensures fulfilled ==> && state == old(target) && !locked
                            && trace == old(trace) + CompletionLog(old(state), old(target))
                            && delivered == old(delivered) + CompletionCalls(listeners, old(state), old(target))
      ensures old(Closed()) ==> Closed()
    {
      if id !in awaiting {
        fulfilled := false;
        return;
      }
      awaiting := awaiting - {id};
      fulfilled := awaiting == {};
      if fulfilled {
        CompleteSwitch(target);
      }
    }

    /** `$addTransition`. */
    method AddTransition(from: State, to: State, callback: Callback)
      requires Valid()
      modifies this`transitions
      ensures Valid()
      ensures transitions == AddRecord(old(transitions), Record(from, to, callback))
    {
      var i := GetTransitionIndex(from, to, callback);
      if i == -1 {
        transitions := transitions + [Record(from, to, callback)];
      }
    }

    /** `$removeTransition`. */
    method RemoveTransition(from: State, to: State, callback: Callback)
      requires Valid()
      modifies this`transitions
      ensures Valid()
      ensures transitions == RemoveRecord(old(transitions), Record(from, to, callback))
    {
      RemoveRecordUnique(transitions, Record(from, to, callback));
      var i := GetTransitionIndex(from, to, callback);
      if i > -1 {
        transitions := transitions[..i] + transitions[i + 1..];
      }
    }

    /** `$addEventListener`. */
    method AddEventListener(kind: EventKind, callback: Callback)
      requires Valid()
      modifies this`listeners
      ensures Valid()
      ensures listeners == old(listeners) + [Listener(kind, callback)]
    {
      listeners := listeners + [Listener(kind, callback)];
    }

    /** `$removeEventListener`: splices out every matching record, walking the
        table from its end. */
    method RemoveEventListener(kind: EventKind, callback: Callback)
      requires Valid()
      modifies this`listeners
      ensures Valid()
      ensures listeners == Without(old(listeners), Listener(kind, callback))
    {
      ghost var original := listeners;
      var l := Listener(kind, callback);
      var i := |listeners|;
      while i > 0
        invariant 0 <= i <= |original|
        invariant listeners == original[..i] + Without(original[i..], l)
      {
        i := i - 1;
        assert original[..i + 1] == original[..i] + [original[i]];
        assert original[i..] == [original[i]] + original[i + 1..];
        if listeners[i].kind == kind && listeners[i].callback == callback {
          listeners := listeners[..i] + listeners[i + 1..];
        }
      }
    }
  }

  /** The `StateMachine` constructor: it throws unless the options pass
      `Validate`, and otherwise yields an unlocked machine with empty tables. */
  method Construct(name: string, options: Options, adapterPresent: bool) returns (r: Result<StateMachine, ConfigError>)
    ensures r.Failure? ==> Validate(options, adapterPresent) == Failure(r.error)
    ensures r.Success? ==>
      && Validate(options, adapterPresent).Success?
      && fresh(r.value) && r.value.Valid()
      && r.value.name == name
      && r.value.states == options.states.value
      && r.value.actions == options.actions.value
      && r.value.state == Validate(options, adapterPresent).value.initial
      && !r.value.locked && r.value.transitions == [] && r.value.listeners == []
      && r.value.awaiting == {} && r.value.nextResolver == 0
      && r.value.trace == [] && r.value.delivered == []
  {
    var v := Validate(options, adapterPresent);
    if v.Failure? {
      return Failure(v.error);
    }
    var m := new StateMachine(name, v.value);
    r := Success(m);
  }
}
