/** Values shared by the state-machine engine: states, action descriptors, table
    records, lifecycle events and the outcomes of a transition attempt. */
module FsmTypes {

  datatype Option<+T> = None | Some(value: T)

  datatype Result<+R, +E> = Success(value: R) | Failure(error: E)

  /** State names are plain strings; the engine compares them with `===`. */
  type State = string

  /** Callbacks and listeners are opaque; only their identity is compared. */
  type Callback = nat

  /** An argument forwarded from an action call to the blocking callbacks. */
  type Value = string

  /** An action's `from`: either one state or an array of states. */
  datatype From = Single(state: State) | Many(states: seq<State>)

  /** An entry of the action table: `{from, to}`. */
  datatype Action = Action(from: From, to: State)

  /** A blocking-callback record `{from, to, callback}` of the transition table. */
  datatype Record = Record(from: State, to: State, callback: Callback)

  /** The five lifecycle event kinds (`PromiseFSM.EVENTS`). */
  datatype EventKind = LockedEvent | ExitState | EnterState | UnlockedEvent | StateChanged

  /** A listener record `{type, callback}` of the listener table. */
  datatype Listener = Listener(kind: EventKind, callback: Callback)

  /** A `StateMachineEvent(type, from, to)`. */
  datatype Event = Event(kind: EventKind, from: State, to: State)

  /** One call of a listener with the event it received. */
  datatype Delivery = Delivery(listener: Callback, event: Event)


  /** The two rejection reasons (`PromiseFSM.ERRORS`). */
  datatype TransitionError = IllegalTransition | LockedError

  /** One invocation of a blocking callback: the callback, the identity of the
      resolver handed to it as first argument, and the forwarded arguments. */
  datatype Invocation = Invocation(callback: Callback, resolver: nat, args: seq<Value>)

  /** One step of the machine's observable history, together with what the code
      that runs in it (a listener, or a blocking callback calling `$getState`)
      observes of the machine: the lock flag and the current state. */
  datatype Observation =
    | Dispatched(event: Event, locked: bool, state: State)
    | Invoked(invocation: Invocation, locked: bool, state: State)

  /** What a transition attempt returns in place of a promise: already rejected,
      already resolved, or pending on the resolvers of the listed invocations. */
  datatype Outcome = Rejected(error: TransitionError) | Resolved | Pending(invocations: seq<Invocation>)

  /** The errors the constructor throws. */
  datatype ConfigError = NoPromiseAdapter | TooFewStates | NoActions

  /** Constructor options. `states` is None when absent or not an array, `actions`
      is None when absent or not a plain object. */
  datatype Options = Options(
    states: Option<seq<State>>,
    actions: Option<map<string, Action>>,
    initialState: Option<State>,
    verbose: bool)

  /** The validated configuration a machine is built from. */
  datatype Config = Config(states: seq<State>, actions: map<string, Action>, initial: State, verbose: bool)
}
