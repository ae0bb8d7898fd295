/**
 * A table-driven finite state machine.
 *
 * For an input symbol and the current state the machine looks up a
 * transition (an optional action and a next state) in three tables, from the
 * most specific to the least specific: the exact table keyed by
 * (input, state), the "any input" table keyed by state alone, and a single
 * default transition. It then runs the action, if any, while the machine is
 * still in the state it leaves, and finally moves to the next state. When no
 * table covers the pair, processing fails with UndefinedTransition.
 *
 * Actions are opaque tokens of type A. Running an action is recorded in the
 * ghost field `trace` as an Invocation holding the input and the current
 * state the action observes through the machine.
 */
module FiniteStateMachine {
  import opened Wrappers

  /** What a table maps to: the action to run (if any) and the next state. */
  datatype Transition<A, S> = Transition(action: Option<A>, next: S)

  /** The one failure: no rule covers this (input, state) pair. */
  datatype TransitionError<I, S> = UndefinedTransition(input: I, state: S)

  /** One call of an action, with the input and current state it observes. */
  datatype Invocation<A, I, S> = Invocation(action: A, input: I, state: S)

  /** The machine's cursor: current state, last input and the action slot. */
  datatype Cursor<A, I, S> = Cursor(current: S, input: Option<I>, action: Option<A>)

  /** The effect of processing a sequence of inputs from some cursor. */
  datatype Run<A, I, S> = Run(
    cursor: Cursor<A, I, S>,
    fired: seq<Invocation<A, I, S>>,
    failure: Option<TransitionError<I, S>>)

  /** The next state a registration stores: an omitted one means "stay". */
  function NextOrSelf<S>(state: S, next: Option<S>): S {
    match next
    case None => state
    case Some(s) => s
  }

  /** The invocations that resolving to `action` adds to the trace. */
  function Fired<A, I, S>(action: Option<A>, input: I, state: S): seq<Invocation<A, I, S>> {
    match action
    case None => []
    case Some(a) => [Invocation(a, input, state)]
  }

  /**
   * The exact table after registering `t` for each of `inputs` in `state`,
   * one element after the other (the last registration is applied last).
   */
  function RegisterAll<A, I(==), S(==)>(
    table: map<(I, S), Transition<A, S>>, inputs: seq<I>, state: S, t: Transition<A, S>)
    : map<(I, S), Transition<A, S>>
  {
    if |inputs| == 0 then table
    else RegisterAll(table, inputs[..|inputs| - 1], state, t)[(inputs[|inputs| - 1], state) := t]
  }

  /**
   * Registering a list is the same as overlaying the old table with the one
   * rule for every listed input: the order of the inputs does not matter and
   * every other entry is kept.
   */
  lemma {:induction false} RegisterAllIsOverlay<A, I, S>(
    table: map<(I, S), Transition<A, S>>, inputs: seq<I>, state: S, t: Transition<A, S>)
    ensures RegisterAll(table, inputs, state, t) == table + map i | i in inputs :: (i, state) := t
  {
    if |inputs| > 0 {
      var prefix, last := inputs[..|inputs| - 1], inputs[|inputs| - 1];
      RegisterAllIsOverlay(table, prefix, state, t);
      assert inputs == prefix + [last];
      var before := map i | i in prefix :: (i, state) := t;
      var after := map i | i in inputs :: (i, state) := t;
      assert after == before[(last, state) := t];
    }
  }

  /** Keys and values of a registered list, entry by entry. */
  lemma {:induction false} RegisterAllLookup<A, I, S>(
    table: map<(I, S), Transition<A, S>>, inputs: seq<I>, state: S, t: Transition<A, S>,
    input: I, s: S)
    ensures (input, s) in RegisterAll(table, inputs, state, t)
            <==> (input, s) in table || (s == state && input in inputs)
    ensures s == state && input in inputs ==> RegisterAll(table, inputs, state, t)[(input, s)] == t
    ensures !(s == state && input in inputs) && (input, s) in table
            ==> RegisterAll(table, inputs, state, t)[(input, s)] == table[(input, s)]
  {
    RegisterAllIsOverlay(table, inputs, state, t);
    var overlay := map i | i in inputs :: (i, state) := t;
    assert s == state && input in inputs ==> (input, s) in overlay;
  }

  class FSM<A, I(==,!new), S(==,!new)> {
    /** Exact table: (input, state) to transition. */
    var stateTransitions: map<(I, S), Transition<A, S>>
    /** "Any input" table: state to transition. */
    var stateTransitionsAny: map<S, Transition<A, S>>
    /** The single catch-all transition, if one was set. */
    var defaultTransition: Option<Transition<A, S>>

    /** The last input given to Process, None after construction or Reset. */
    var input: Option<I>
    const initialState: S
    var currentState: S
    /** Transient slot: filled while an input is dispatched, then cleared. */
    var nextState: Option<S>
    /** The action last resolved by Process; Process does not clear it. */
    var action: Option<A>

    /** Every action run so far, in order, with what it observed. */
    ghost var trace: seq<Invocation<A, I, S>>

    /** Outside Process the next-state slot is empty. */
    ghost predicate Valid()
      reads this`nextState
    {
      nextState.None?
    }

    /** The cursor fields as one value. */
    function CurrentCursor(): Cursor<A, I, S>
      reads this`currentState, this`input, this`action
    {
      Cursor(currentState, input, action)
    }

    constructor (initialState: S)
      ensures Valid()
      ensures stateTransitions == map[] && stateTransitionsAny == map[] && defaultTransition.None?
      ensures this.initialState == initialState && currentState == initialState
      ensures input.None? && action.None? && trace == []
    {
      stateTransitions := map[];
      stateTransitionsAny := map[];
      defaultTransition := None;
      input := None;
      this.initialState := initialState;
      currentState := initialState;
      nextState := None;
      action := None;
      trace := [];
    }

    /** Back to the initial state with no input; the tables are kept. */
    method Reset()
      modifies this`currentState, this`input
      ensures currentState == initialState && input.None?
      // Resetting a machine that is already reset changes nothing.
      ensures old(currentState == initialState && input.None?) ==> unchanged(this)
    {
      currentState := initialState;
      input := None;
    }

    /**
     * Registers the exact rule (input, state) -> (action, next state); an
     * omitted next state makes a self-loop. The rule replaces any earlier one
     * for the same pair and is found from now on, whatever the other tables
     * hold; every other pair resolves as before.
     */
    method AddTransition(input: I, state: S, action: Option<A>, nextState: Option<S>)
      modifies this`stateTransitions
      ensures stateTransitions
              == old(stateTransitions)[(input, state) := Transition(action, NextOrSelf(state, nextState))]
      ensures GetTransition(input, state) == Success(Transition(action, NextOrSelf(state, nextState)))
      ensures forall i, s :: (i, s) != (input, state) ==> GetTransition(i, s) == old(GetTransition(i, s))
    {
      var next := if nextState.None? then state else nextState.value;
      stateTransitions := stateTransitions[(input, state) := Transition(action, next)];
    }

    /**
     * Registers the same exact rule for every element of `inputs`, as
     * successive AddTransition calls with the next state defaulted once.
     */
    method AddTransitionList(inputs: seq<I>, state: S, action: Option<A>, nextState: Option<S>)
      modifies this`stateTransitions
      ensures stateTransitions
              == RegisterAll(old(stateTransitions), inputs, state, Transition(action, NextOrSelf(state, nextState)))
      ensures forall i :: i in inputs
                ==> GetTransition(i, state) == Success(Transition(action, NextOrSelf(state, nextState)))
      ensures forall i, s :: !(s == state && i in inputs) ==> GetTransition(i, s) == old(GetTransition(i, s))
    {
      var next := if nextState.None? then state else nextState.value;
      for k := 0 to |inputs|
        invariant stateTransitions == RegisterAll(old(stateTransitions), inputs[..k], state, Transition(action, next))
      {
        assert inputs[..k + 1][..k] == inputs[..k];
        AddTransition(inputs[k], state, action, Some(next));
      }
      assert inputs[..|inputs|] == inputs;
      forall i, s
        ensures s == state && i in inputs ==> GetTransition(i, s) == Success(Transition(action, next))
        ensures !(s == state && i in inputs) ==> GetTransition(i, s) == old(GetTransition(i, s))
      {
        RegisterAllLookup(old(stateTransitions), inputs, state, Transition(action, next), i, s);
      }
    }

    /**
     * Registers the "any input" rule of `state`; an omitted next state makes
     * a self-loop. It replaces any earlier one for `state` and is found for
     * every input that has no exact rule in `state`; every other pair
     * resolves as before.
     */
    method AddTransitionAny(state: S, action: Option<A>, nextState: Option<S>)
      modifies this`stateTransitionsAny
      ensures stateTransitionsAny
              == old(stateTransitionsAny)[state := Transition(action, NextOrSelf(state, nextState))]
      ensures forall i :: (i, state) !in stateTransitions
                ==> GetTransition(i, state) == Success(Transition(action, NextOrSelf(state, nextState)))
      ensures forall i, s :: s != state || (i, s) in stateTransitions
                ==> GetTransition(i, s) == old(GetTransition(i, s))
    {
      var next := if nextState.None? then state else nextState.value;
      stateTransitionsAny := stateTransitionsAny[state := Transition(action, next)];
    }

    /**
     * Sets (or replaces) the default transition. It is found for every pair
     * that neither table covers; every other pair resolves as before.
     */
    method SetDefaultTransition(action: Option<A>, nextState: S)
      modifies this`defaultTransition
      ensures defaultTransition == Some(Transition(action, nextState))
      ensures forall i, s :: (i, s) !in stateTransitions && s !in stateTransitionsAny
                ==> GetTransition(i, s) == Success(Transition(action, nextState))
      ensures forall i, s :: (i, s) in stateTransitions || s in stateTransitionsAny
                ==> GetTransition(i, s) == old(GetTransition(i, s))
    {
      defaultTransition := Some(Transition(action, nextState));
    }

    /**
     * The transition for `input` in `state`, by strict precedence: the exact
     * rule, else the state's "any input" rule, else the default, else an
     * UndefinedTransition error carrying the pair. Reads only the tables.
     */
    function GetTransition(input: I, state: S): (r: Result<Transition<A, S>, TransitionError<I, S>>)
      reads this`stateTransitions, this`stateTransitionsAny, this`defaultTransition
      ensures (input, state) in stateTransitions ==> r == Success(stateTransitions[(input, state)])
      ensures (input, state) !in stateTransitions && state in stateTransitionsAny
              ==> r == Success(stateTransitionsAny[state])
      ensures (input, state) !in stateTransitions && state !in stateTransitionsAny && defaultTransition.Some?
              ==> r == Success(defaultTransition.value)
      ensures r.Failure?
              <==> (input, state) !in stateTransitions && state !in stateTransitionsAny && defaultTransition.None?
      ensures r.Failure? ==> r.error == UndefinedTransition(input, state)
    {
      if (input, state) in stateTransitions then
        Success(stateTransitions[(input, state)])
      else if state in stateTransitionsAny then
        Success(stateTransitionsAny[state])
      else if defaultTransition.Some? then
        Success(defaultTransition.value)
      else
        Failure(UndefinedTransition(input, state))
    }

    /**
     * Processes one input. The input is recorded first; when no rule covers
     * it, the call fails and the current state and the action slot are kept.
     * Otherwise the resolved action runs while the machine is still in the
     * state it leaves, and only then does the current state advance.
     */
    method Process(input: I) returns (outcome: Outcome<TransitionError<I, S>>)
      requires Valid()
      modifies this`input, this`action, this`nextState, this`currentState, this`trace
      ensures Valid()
      ensures this.input == Some(input)
      ensures match GetTransition(input, old(currentState))
              case Success(t) =>
                && outcome == Pass
                && currentState == t.next
                && action == t.action
                && trace == old(trace) + Fired(t.action, input, old(currentState))
              case Failure(e) =>
                && outcome == Fail(e)
                && currentState == old(currentState)
                && action == old(action)
                && trace == old(trace)
    {
      this.input := Some(input);
      var resolved := GetTransition(this.input.value, currentState);
      if resolved.Failure? {
        return Fail(resolved.error);
      }
      action, nextState := resolved.value.action, Some(resolved.value.next);
      if action.Some? {
        trace := trace + [Invocation(action.value, this.input.value, currentState)];
      }
      currentState := nextState.value;
      nextState := None;
      outcome := Pass;
    }

    /** What Process does to cursor `c` for one input. */
    ghost function Step(c: Cursor<A, I, S>, input: I): Run<A, I, S>
      reads this`stateTransitions, this`stateTransitionsAny, this`defaultTransition
    {
      match GetTransition(input, c.current)
      case Success(t) => Run(Cursor(t.next, Some(input), t.action), Fired(t.action, input, c.current), None)
      case Failure(e) => Run(c.(input := Some(input)), [], Some(e))
    }

    /**
     * Processing `inputs` in order from cursor `c`, stopping at the first
     * input that fails (defined by its last input, as the loop runs).
     */
    ghost function RunFrom(c: Cursor<A, I, S>, inputs: seq<I>): Run<A, I, S>
      reads this`stateTransitions, this`stateTransitionsAny, this`defaultTransition
    {
      if |inputs| == 0 then Run(c, [], None)
      else
        var before := RunFrom(c, inputs[..|inputs| - 1]);
        if before.failure.Some? then before
        else
          var last := Step(before.cursor, inputs[|inputs| - 1]);
          Run(last.cursor, before.fired + last.fired, last.failure)
    }

    /**
     * Processing `inputs` in order from cursor `c`, defined from the first
     * input on: one step, then the rest from where that step left off.
     */
    ghost function RunForward(c: Cursor<A, I, S>, inputs: seq<I>): Run<A, I, S>
      reads this`stateTransitions, this`stateTransitionsAny, this`defaultTransition
      decreases |inputs|
    {
      if |inputs| == 0 then Run(c, [], None)
      else
        var first := Step(c, inputs[0]);
        if first.failure.Some? then first
        else
          var rest := RunForward(first.cursor, inputs[1..]);
          Run(rest.cursor, first.fired + rest.fired, rest.failure)
    }

    /**
     * Processes each element of `inputs` in order and stops at the first
     * failure, whose error it returns; the machine is then where the last
     * successful transition left it, with the failing input recorded.
     */
    method ProcessList(inputs: seq<I>) returns (outcome: Outcome<TransitionError<I, S>>)
      requires Valid()
      modifies this`input, this`action, this`nextState, this`currentState, this`trace
      ensures Valid()
      ensures CurrentCursor() == RunFrom(old(CurrentCursor()), inputs).cursor
      ensures trace == old(trace) + RunFrom(old(CurrentCursor()), inputs).fired
      ensures outcome == match RunFrom(old(CurrentCursor()), inputs).failure
                         case None => Pass
                         case Some(e) => Fail(e)
    {
      ghost var start := CurrentCursor();
      outcome := Pass;
      for k := 0 to |inputs|
        invariant Valid() && outcome == Pass
        invariant RunFrom(start, inputs[..k]).failure.None?
        invariant CurrentCursor() == RunFrom(start, inputs[..k]).cursor
        invariant trace == old(trace) + RunFrom(start, inputs[..k]).fired
      {
        assert inputs[..k + 1][..k] == inputs[..k];
        outcome := Process(inputs[k]);
        if outcome.Fail? {
          assert RunFrom(start, inputs[..k + 1]).failure == Step(RunFrom(start, inputs[..k]).cursor, inputs[k]).failure;
          RunHaltsAtFailure(this, start, inputs[..k + 1], inputs[k + 1..]);
          assert inputs[..k + 1] + inputs[k + 1..] == inputs;
          return;
        }
      }
      assert inputs[..|inputs|] == inputs;
    }
  }

  /** Once a run has failed, further inputs change nothing. */
  lemma {:induction false} RunHaltsAtFailure<A, I(!new), S(!new)>(
    m: FSM<A, I, S>, c: Cursor<A, I, S>, xs: seq<I>, ys: seq<I>)
    requires m.RunFrom(c, xs).failure.Some?
    ensures m.RunFrom(c, xs + ys) == m.RunFrom(c, xs)
    decreases |ys|
  {
    if |ys| == 0 {
      assert xs + ys == xs;
    } else {
      RunHaltsAtFailure(m, c, xs, ys[..|ys| - 1]);
      assert (xs + ys)[..|xs + ys| - 1] == xs + ys[..|ys| - 1];
    }
  }

  /** A run that succeeded on `xs` continues on `ys` from where it stopped. */
  lemma {:induction false} RunConcat<A, I(!new), S(!new)>(
    m: FSM<A, I, S>, c: Cursor<A, I, S>, xs: seq<I>, ys: seq<I>)
    requires m.RunFrom(c, xs).failure.None?
    ensures var first := m.RunFrom(c, xs);
            var rest := m.RunFrom(first.cursor, ys);
            m.RunFrom(c, xs + ys) == Run(rest.cursor, first.fired + rest.fired, rest.failure)
    decreases |ys|
  {
    var first := m.RunFrom(c, xs);
    if |ys| == 0 {
      assert xs + ys == xs;
    } else {
      var ys' := ys[..|ys| - 1];
      RunConcat(m, c, xs, ys');
      assert (xs + ys)[..|xs + ys| - 1] == xs + ys';
      var rest' := m.RunFrom(first.cursor, ys');
      assert m.RunFrom(c, xs + ys').fired == first.fired + rest'.fired;
    }
  }

  /**
   * The loop's view of processing a sequence agrees with the reference one:
   * each element in order, from the first, stopping at the first failure.
   */
  lemma {:induction false} RunFromIsRunForward<A, I(!new), S(!new)>(
    m: FSM<A, I, S>, c: Cursor<A, I, S>, inputs: seq<I>)
    ensures m.RunFrom(c, inputs) == m.RunForward(c, inputs)
    decreases |inputs|
  {
    if |inputs| > 0 {
      var head, tail := [inputs[0]], inputs[1..];
      assert inputs == head + tail;
      assert head[..0] == [];
      if m.RunFrom(c, head).failure.Some? {
        RunHaltsAtFailure(m, c, head, tail);
      } else {
        RunConcat(m, c, head, tail);
        RunFromIsRunForward(m, m.RunFrom(c, head).cursor, tail);
      }
    }
  }

  /**
   * Processing a list begins with one step on its first element; when that
   * step succeeds the rest is processed from where it left the machine.
   */
  lemma {:induction false} RunFromFirstStep<A, I(!new), S(!new)>(
    m: FSM<A, I, S>, c: Cursor<A, I, S>, x: I, xs: seq<I>)
    ensures var first := m.Step(c, x);
            m.RunFrom(c, [x] + xs)
            == if first.failure.Some? then first
               else var rest := m.RunFrom(first.cursor, xs);
                    Run(rest.cursor, first.fired + rest.fired, rest.failure)
  {
    RunFromIsRunForward(m, c, [x] + xs);
    RunFromIsRunForward(m, m.Step(c, x).cursor, xs);
    assert ([x] + xs)[1..] == xs;
  }

  /** With a default transition set, processing never fails. */
  lemma {:induction false} DefaultNeverFails<A, I(!new), S(!new)>(
    m: FSM<A, I, S>, c: Cursor<A, I, S>, inputs: seq<I>)
    requires m.defaultTransition.Some?
    ensures m.RunFrom(c, inputs).failure.None?
    decreases |inputs|
  {
    if |inputs| > 0 {
      DefaultNeverFails(m, c, inputs[..|inputs| - 1]);
    }
  }

  /**
   * A failed run stops in the state where no rule covers the failing input,
   * with that input recorded, and the error names exactly that pair.
   */
  lemma {:induction false} FailureIsUndefinedHere<A, I(!new), S(!new)>(
    m: FSM<A, I, S>, c: Cursor<A, I, S>, inputs: seq<I>)
    requires m.RunFrom(c, inputs).failure.Some?
    ensures var r := m.RunFrom(c, inputs);
            && r.failure.value.state == r.cursor.current
            && r.cursor.input == Some(r.failure.value.input)
            && m.GetTransition(r.failure.value.input, r.cursor.current).Failure?
    decreases |inputs|
  {
    var prefix := inputs[..|inputs| - 1];
    if m.RunFrom(c, prefix).failure.Some? {
      FailureIsUndefinedHere(m, c, prefix);
    }
  }

  /** Each step adds at most one invocation to the trace. */
  lemma {:induction false} FiredAtMostOnePerInput<A, I(!new), S(!new)>(
    m: FSM<A, I, S>, c: Cursor<A, I, S>, inputs: seq<I>)
    ensures |m.RunFrom(c, inputs).fired| <= |inputs|
    decreases |inputs|
  {
    if |inputs| > 0 {
      FiredAtMostOnePerInput(m, c, inputs[..|inputs| - 1]);
    }
  }
}
