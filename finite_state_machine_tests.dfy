/**
 * Client scenarios for the state machine, one per unit test of the machine.
 * Each shows that the contracts of FiniteStateMachine.FSM alone determine the
 * outcome the test expects. The mock action, which records the input the
 * machine holds when it runs, is the action token "action1"; what it records
 * is the input of the Invocation in the trace.
 */
module FiniteStateMachineTests {
  import opened Wrappers
  import opened FiniteStateMachine

  const MockState1: int := 1
  const MockState2: int := 2
  const MockState3: int := 3
  const MockState5: int := 5

  method DefaultTransitionScenario() {
    var fsm := new FSM<string, string, int>(MockState1);
    fsm.SetDefaultTransition(Some("action1"), MockState5);
    assert fsm.GetTransition("mockinput", MockState1) == Success(Transition(Some("action1"), MockState5));
    var outcome := fsm.Process("mockinput");
    assert outcome == Pass;
    assert fsm.trace == [Invocation("action1", "mockinput", MockState1)];
    assert fsm.currentState == MockState5;
  }

  method ProcessScenario() {
    var fsm := new FSM<string, string, int>(MockState1);
    fsm.AddTransition("mockinput", MockState1, Some("action1"), Some(MockState2));
    var outcome := fsm.Process("mockinput");
    assert outcome == Pass;
    assert fsm.trace == [Invocation("action1", "mockinput", MockState1)];
    assert fsm.currentState == MockState2;
  }

  method ProcessFailureScenario() {
    var fsm := new FSM<string, string, int>(MockState1);
    var outcome := fsm.Process("mockinput");
    assert outcome == Fail(UndefinedTransition("mockinput", MockState1));
    assert fsm.currentState == MockState1;
    assert fsm.input == Some("mockinput");
  }

  method ResetScenario() {
    var fsm := new FSM<string, string, int>(MockState1);
    fsm.AddTransition("mockinput", MockState1, Some("action1"), Some(MockState3));
    var outcome := fsm.Process("mockinput");
    assert fsm.currentState == MockState3;
    fsm.Reset();
    assert fsm.currentState == MockState1;
    assert fsm.input == None;
  }

  /** An exact rule wins over the state's "any input" rule and the default. */
  method PrecedenceScenario() {
    var fsm := new FSM<string, string, int>(MockState1);
    fsm.SetDefaultTransition(None, MockState5);
    fsm.AddTransitionAny(MockState1, None, Some(MockState3));
    fsm.AddTransition("go", MockState1, None, Some(MockState2));
    var outcome := fsm.Process("go");
    assert fsm.currentState == MockState2;
    outcome := fsm.Process("go");
    assert fsm.GetTransition("go", MockState2) == Success(Transition(None, MockState5));
    assert fsm.currentState == MockState5;
  }

  /** Registering a list gives every listed input the same exact rule. */
  method AddTransitionListScenario() {
    var fsm := new FSM<string, string, int>(MockState1);
    fsm.AddTransitionList(["a", "b"], MockState1, Some("action1"), None);
    assert fsm.GetTransition("a", MockState1) == Success(Transition(Some("action1"), MockState1));
    assert fsm.GetTransition("b", MockState1) == Success(Transition(Some("action1"), MockState1));
    assert fsm.GetTransition("c", MockState1).Failure?;
  }

  /** A list stops at its first undefined input; the state before it stays. */
  method ProcessListScenario() {
    var fsm := new FSM<string, string, int>(MockState1);
    fsm.AddTransitionList(["a", "b"], MockState1, Some("action1"), Some(MockState2));
    fsm.AddTransition("a", MockState2, None, Some(MockState1));
    var c0 := Cursor(MockState1, None, None);
    var c1 := Cursor(MockState2, Some("b"), Some("action1"));
    var c2 := Cursor(MockState1, Some("a"), None);
    var fired := [Invocation("action1", "b", MockState1)];
    assert fsm.Step(c0, "b") == Run(c1, fired, None);
    assert fsm.Step(c1, "a") == Run(c2, [], None);
    assert fsm.Step(c2, "b") == Run(c1, fired, None);
    assert fsm.Step(c1, "c") == Run(c1.(input := Some("c")), [], Some(UndefinedTransition("c", MockState2)));
    var stop := fsm.Step(c1, "c");
    assert ["c"] + ["a"] == ["c", "a"];
    RunFromFirstStep(fsm, c1, "c", ["a"]);
    assert fsm.RunFrom(c1, ["c", "a"]) == stop;
    assert stop.fired == [] && fired + [] == fired;
    assert ["b"] + ["c", "a"] == ["b", "c", "a"];
    RunFromFirstStep(fsm, c2, "b", ["c", "a"]);
    assert fsm.RunFrom(c2, ["b", "c", "a"]) == Run(stop.cursor, fired, stop.failure);
    assert ["a"] + ["b", "c", "a"] == ["a", "b", "c", "a"];
    RunFromFirstStep(fsm, c1, "a", ["b", "c", "a"]);
    assert fsm.RunFrom(c1, ["a", "b", "c", "a"]) == Run(stop.cursor, fired, stop.failure);
    assert ["b"] + ["a", "b", "c", "a"] == ["b", "a", "b", "c", "a"];
    RunFromFirstStep(fsm, c0, "b", ["a", "b", "c", "a"]);
    assert fsm.RunFrom(c0, ["b", "a", "b", "c", "a"]) == Run(stop.cursor, fired + fired, stop.failure);
    var outcome := fsm.ProcessList(["b", "a", "b", "c", "a"]);
    assert outcome == Fail(UndefinedTransition("c", MockState2));
    assert fsm.currentState == MockState2 && fsm.input == Some("c");
    assert fsm.trace == fired + fired;
  }
}
