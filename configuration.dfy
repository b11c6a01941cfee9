/** The checks the `StateMachine` constructor makes before a machine exists. */
module Configuration {
  import opened FsmTypes

  /** JavaScript truthiness of an optional state name: absent and "" are falsy. */
  predicate Truthy(s: Option<State>)
  {
    s.Some? && s.value != ""
  }

  /** `states` must be an array of more than one entry. */
  predicate StatesAccepted(states: Option<seq<State>>)
  {
    states.Some? && |states.value| > 1
  }

  /** `actions` must be a plain object with at least one key. */
  predicate ActionsAccepted(actions: Option<map<string, Action>>)
  {
    actions.Some? && |actions.value| > 0
  }

  /** The constructor's checks, in the order it makes them, and the configuration
      it keeps when all of them pass. */
  function Validate(options: Options, adapterPresent: bool): (r: Result<Config, ConfigError>)
    ensures r.Success? <==> adapterPresent && StatesAccepted(options.states) && ActionsAccepted(options.actions)
    ensures !adapterPresent ==> r == Failure(NoPromiseAdapter)
    ensures adapterPresent && !StatesAccepted(options.states) ==> r == Failure(TooFewStates)
    ensures adapterPresent && StatesAccepted(options.states) && !ActionsAccepted(options.actions)
      ==> r == Failure(NoActions)
    ensures r.Success? ==>
      && r.value.states == options.states.value && |r.value.states| > 1
      && r.value.actions == options.actions.value && |r.value.actions| > 0
      && r.value.verbose == options.verbose
      && (Truthy(options.initialState) ==> r.value.initial == options.initialState.value)
      && (!Truthy(options.initialState) ==> r.value.initial == options.states.value[0])
  {
    if !adapterPresent then Failure(NoPromiseAdapter)
    else if !StatesAccepted(options.states) then Failure(TooFewStates)
    else if !ActionsAccepted(options.actions) then Failure(NoActions)
    else
      var states := options.states.value;
      var initial := if Truthy(options.initialState) then options.initialState.value else states[0];
      Success(Config(states, options.actions.value, initial, options.verbose))
  }

  /** The initial state is taken as given: a name outside `states` is accepted. */
  lemma InitialStateNotChecked(states: seq<State>, actions: map<string, Action>, initial: State)
    requires |states| > 1 && |actions| > 0 && initial != "" && initial !in states
    ensures Validate(Options(Some(states), Some(actions), Some(initial), false), true).Success?
    ensures Validate(Options(Some(states), Some(actions), Some(initial), false), true).value.initial !in states
  {
  }
}
