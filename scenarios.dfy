/** Client proofs: several cases of the library's test suite (`test.js`),
    derived from the contracts of module Machine alone. */
module Scenarios {
  import opened FsmTypes
  import opened Tables
  import opened Configuration
  import opened Machine

  /** The options every test case starts from. */
  function TestOptions(initial: Option<State>): Options
  {
    Options(
      Some(["state1", "state2", "state3"]),
      Some(map[
        "action1" := Action(Single("state1"), "state2"),
        "action2" := Action(Single("state2"), "state3"),
        "action3" := Action(Single("state3"), "state1"),
        "action4" := Action(Many(["state2", "state3"]), "state1")]),
      initial,
      false)
  }

  method Setup(initial: Option<State>) returns (m: StateMachine)
    ensures fresh(m) && m.Valid() && m.actions == TestOptions(initial).actions.value
    ensures m.state == (if Truthy(initial) then initial.value else "state1")
    ensures !m.locked && m.transitions == [] && m.listeners == [] && m.delivered == []
    ensures m.nextResolver == 0 && m.trace == []
  {
    var r := Construct("test", TestOptions(initial), true);
    assert Validate(TestOptions(initial), true).Success?;
    m := r.value;
  }

  method ConstructionCases()
  {
    var r := Construct("test", TestOptions(Some("state1")), false);
    assert r == Failure(NoPromiseAdapter);
    var m := Setup(None);
    assert m.GetState() == "state1";
    m := Setup(Some("state2"));
    assert m.GetState() == "state2";
  }

  method LegalAndIllegalActions()
  {
    var m := Setup(Some("state1"));
    var o := m.Invoke("action2", []);
    assert o == Rejected(IllegalTransition) && m.state == "state1";
    o := m.Invoke("action1", []);
    assert o == Resolved && m.state == "state2";
    o := m.Invoke("action4", []);
    assert o == Resolved && m.state == "state1";
    o := m.Invoke("action1", []);
    o := m.Invoke("action2", []);
    assert m.state == "state3";
    o := m.Invoke("action4", []);
    assert o == Resolved && m.state == "state1";
  }

  method BlockingCallbackHoldsTheLock()
  {
    var m := Setup(Some("state1"));
    m.AddTransition("state1", "state2", 7);
    assert m.transitions == [Record("state1", "state2", 7)];
    assert Matching(m.transitions, "state1", "state2") == [7];
    var o := m.Invoke("action1", ["param1", "param2"]);
    assert ResolverIds(0, 1) == {0};
    assert Invocations([7], 0, ["param1", "param2"]) == [Invocation(7, 0, ["param1", "param2"])];
    assert o == Pending([Invocation(7, 0, ["param1", "param2"])]);
    assert m.state == "state1" && m.locked && m.target == "state2";
    // The callback runs after LOCKED and EXIT_STATE, and `$getState` inside it
    // still answers "state1".
    assert m.trace == AcceptanceLog("state1", "state2")
                      + [Invoked(Invocation(7, 0, ["param1", "param2"]), true, "state1")];
    var again := m.Invoke("action1", []);
    assert again == Rejected(LockedError) && m.state == "state1";
    var fulfilled := m.Resolve(0);
    assert fulfilled && m.state == "state2" && !m.locked;
  }

  /** A machine in "state1" with three blocking callbacks registered for the
      transition to "state2". */
  method SetupThreeCallbacks() returns (m: StateMachine)
    ensures fresh(m) && m.Valid() && m.actions == TestOptions(Some("state1")).actions.value
    ensures m.state == "state1" && !m.locked && m.nextResolver == 0 && m.trace == []
    ensures Matching(m.transitions, "state1", "state2") == [7, 8, 9]
  {
    m := Setup(Some("state1"));
    m.AddTransition("state1", "state2", 7);
    assert m.transitions == [Record("state1", "state2", 7)];
    assert Matching(m.transitions, "state1", "state2") == [7];
    Register(m, 8, [7]);
    Register(m, 9, [7, 8]);
  }

  /** Registering a new callback for ("state1", "state2") appends it to the
      callbacks that transition collects. */
  method Register(m: StateMachine, c: Callback, ghost before: seq<Callback>)
    requires m.Valid() && Matching(m.transitions, "state1", "state2") == before && c !in before
    modifies m
    ensures m.Valid() && Matching(m.transitions, "state1", "state2") == before + [c]
    ensures m.state == old(m.state) && m.locked == old(m.locked)
    ensures m.nextResolver == old(m.nextResolver) && m.trace == old(m.trace)
  {
    ghost var t := m.transitions;
    m.AddTransition("state1", "state2", c);
    assert Record("state1", "state2", c) !in t;
    assert m.transitions == t + [Record("state1", "state2", c)];
    MatchingAppend(t, Record("state1", "state2", c), "state1", "state2");
  }

  /** Three callbacks on one transition: they run in registration order after
      LOCKED and EXIT_STATE, each sees the machine locked in "state1", and the
      switch waits for all three resolvers. */
  method SeveralBlockingCallbacks()
  {
    var m := SetupThreeCallbacks();
    var o := m.Invoke("action1", []);
    assert o == Pending(Invocations([7, 8, 9], 0, []));
    assert m.trace == AcceptanceLog("state1", "state2") + CallLog(o.invocations, "state1");
    assert o.invocations == [Invocation(7, 0, []), Invocation(8, 1, []), Invocation(9, 2, [])];
    assert m.awaiting == ResolverIds(0, 3) == {0, 1, 2};
    var fulfilled := m.Resolve(1);
    assert m.awaiting == {0, 2};
    fulfilled := m.Resolve(0);
    assert !fulfilled && m.state == "state1" && m.locked && m.awaiting == {2};
    fulfilled := m.Resolve(2);
    assert fulfilled && m.state == "state2" && !m.locked;
  }

  method RemovedCallbackIsNotCalled()
  {
    var m := Setup(Some("state1"));
    m.AddTransition("state1", "state2", 7);
    assert m.transitions == [Record("state1", "state2", 7)];
    m.RemoveTransition("state1", "state2", 7);
    assert multiset(m.transitions) == multiset{};
    assert m.transitions == [];
    var o := m.Invoke("action1", []);
    assert o == Resolved && m.state == "state2";
  }

  method ListenerReceivesEnterState()
  {
    var m := Setup(Some("state1"));
    m.AddEventListener(EnterState, 1);
    var l := m.listeners;
    assert l == [Listener(EnterState, 1)] && l[1..] == [];
    var o := m.Invoke("action1", []);
    assert Notify(l, Event(LockedEvent, "state1", "state2")) == [];
    assert Notify(l, Event(ExitState, "state1", "state2")) == [];
    assert Notify(l, Event(EnterState, "state1", "state2")) == [Delivery(1, Event(EnterState, "state1", "state2"))];
    assert Notify(l, Event(UnlockedEvent, "state1", "state2")) == [];
    assert Notify(l, Event(StateChanged, "state1", "state2")) == [];
    assert m.delivered == [Delivery(1, Event(EnterState, "state1", "state2"))];
    m.RemoveEventListener(EnterState, 1);
    assert m.listeners == [];
    o := m.Invoke("action2", []);
    assert m.delivered == [Delivery(1, Event(EnterState, "state1", "state2"))];
  }
}
