# Table-driven finite state machine

This project models the `FSM` class of `custom/finitestatemachine.py` in Dafny and proves properties of the model.

`FSM` is a finite state machine driven by transition tables. For an input symbol and the current state, it looks up a transition: an optional action and a next state. There are three tables, searched from most to least specific:

1. the exact table, keyed by `(input, state)`;
2. the "any input" table, keyed by state alone;
3. the single default transition.

The machine then runs the action, if any, while it is still in the state it is leaving. After that it moves to the next state. If no table covers the pair, processing fails with an undefined-transition error carrying `(input, state)`.

Files:

- `wrappers.dfy`: `Option`, `Result` and `Outcome`. Python's `None` becomes `None`; a raised exception becomes `Failure`/`Fail`.
- `finite_state_machine.dfy`: module `FiniteStateMachine`. It holds the class `FSM<A, I, S>`, generic over action tokens `A`, input symbols `I` and states `S`. Its fields are exactly the Python attributes:
  - the tables `stateTransitions`, `stateTransitionsAny` and `defaultTransition`;
  - the cursor `input`, `initialState` and `currentState`;
  - the slots `nextState` and `action`.

  Each method's frame names the fields it may change. The module also holds the specification functions `RegisterAll`, `Step`, `RunFrom` and `RunForward`, and the lemmas about them.
- `finite_state_machine_tests.dfy`: client scenarios, one for each case in `tests/finitestatemachinetests.py`, plus three more: `PrecedenceScenario`, `AddTransitionListScenario` and `ProcessListScenario`. Each is proved from the contracts alone.

Actions are opaque tokens. Running one appends `Invocation(action, input, state)` to the ghost field `trace`. The input and state recorded are what the action sees on the machine at that moment: the new input, and the state it is leaving. This is how "the action runs, then the state advances" is stated.

## Notes on the code

The first two notes are places where the model departs from the code. The third is a place where it follows the code.

- `addTransitionList` (`custom/finitestatemachine.py:94`) calls `self.add_transition`, which `FSM` does not define. So as written, any non-empty list raises. `FSM.AddTransitionList` models the intended behaviour instead: one `AddTransition` call per element, in order, with the next state defaulted once before the loop (lines 91-92).
- `processList` (`custom/finitestatemachine.py:168`) passes the unbound name `s` to `process`, where the loop element was meant. `FSM.ProcessList` models the intended `process(input)` for each element in order. It stops at, and returns, the first failure.
- `action` slot. Lines 57-58 set both slots to `None`, and line 160 clears only `next_state`. `FSM.Process` does the same:
  - after a successful `Process`, `action` holds the action just resolved;
  - after a failed one, `action` and `nextState` are as they were, because the exception at line 156 comes before the tuple assignment.

  `Valid()` states the invariant this keeps: `nextState` is empty outside `Process`.

## Model

| member | source | states |
|---|---|---|
| `FiniteStateMachine.FSM.constructor` | custom/finitestatemachine.py:47-58 | A new machine has empty exact and any-input tables, no default, no input, empty slots, and its current state is the initial state. |
| `FiniteStateMachine.FSM.Reset` | custom/finitestatemachine.py:60-66 | Afterwards the current state is the initial state and there is no input. Nothing else may change (frame). Resetting a machine that is already reset changes nothing, so `Reset` is idempotent. |
| `FiniteStateMachine.FSM.AddTransition` | custom/finitestatemachine.py:68-80 | Only the exact table changes: `(input, state)` now maps to `(action, next state)`. An omitted next state means `state`, a self-loop. That pair now resolves to the new rule whatever the other tables hold (last write wins). Every other pair resolves as before. |
| `FiniteStateMachine.FSM.AddTransitionList` | custom/finitestatemachine.py:82-94 | The exact table equals the result of successive `AddTransition` calls, one per element, with the same next-state defaulting (`RegisterAll`). Every listed input resolves in `state` to the new rule. Every other pair resolves as before. |
| `FiniteStateMachine.RegisterAllIsOverlay` | custom/finitestatemachine.py:91-94 | Registering a list equals overlaying the old table with the one rule for every listed input. The order of the inputs does not matter, and unlisted entries are kept. |
| `FiniteStateMachine.RegisterAllLookup` | custom/finitestatemachine.py:91-94 | After registering a list, a pair is a key exactly when it was one before or is a listed input in `state`. Its value is the new rule for listed inputs and the old value otherwise. |
| `FiniteStateMachine.FSM.AddTransitionAny` | custom/finitestatemachine.py:96-112 | Only the any-input table changes: `state` now maps to `(action, next state)`, with an omitted next state meaning `state`. Every input without an exact rule in `state` now resolves to it. Pairs with an exact rule, and other states, resolve as before. |
| `FiniteStateMachine.FSM.SetDefaultTransition` | custom/finitestatemachine.py:114-122 | Only the default changes, and it is replaced: last write wins. Every pair that neither table covers now resolves to it. Pairs covered by a table resolve as before. |
| `FiniteStateMachine.FSM.GetTransition` | custom/finitestatemachine.py:124-149 | Strict precedence: an exact key wins even when an any-input rule or a default exists; the any-input rule applies only without an exact key; the default only when neither table matches. It fails exactly when none of the three applies, and the error carries `(input, state)`. It reads only the tables, so it changes nothing. |
| `FiniteStateMachine.FSM.Process` | custom/finitestatemachine.py:151-160 | The input is recorded in every case, including failure. On success: the resolved action is traced with the new input and the pre-transition state; then the current state becomes the resolved next state and the next-state slot is cleared. On failure: the error for `(input, current state)` is returned, and the current state, action slot and trace are unchanged. |
| `FiniteStateMachine.FSM.ProcessList` | custom/finitestatemachine.py:162-168 | The new cursor, the actions traced and the outcome are those of `RunFrom`: `Process` applied to each element in order, stopping at the first failure and returning its error. |
| `FiniteStateMachine.RunHaltsAtFailure` | custom/finitestatemachine.py:162-168 | Once processing a list has failed, further inputs change nothing: the cursor, trace and error stay those of the first failure. |
| `FiniteStateMachine.RunConcat` | custom/finitestatemachine.py:162-168 | Processing `xs + ys` after `xs` succeeded is processing `ys` from where `xs` left the machine, with the two traces concatenated. |
| `FiniteStateMachine.RunFromIsRunForward` | custom/finitestatemachine.py:162-168 | The loop's processing of a list (`RunFrom`, built from the last element) equals the reference definition (`RunForward`): one step on the first element, then the rest, stopping at a failure. |
| `FiniteStateMachine.RunFromFirstStep` | custom/finitestatemachine.py:162-168 | Processing a list is one `Process` step on its first element; if that step fails, the list stops there; otherwise the rest is processed from the cursor the step left, with traces concatenated. |
| `FiniteStateMachine.DefaultNeverFails` | custom/finitestatemachine.py:146-147 | When a default transition is set, processing any list of inputs never fails. |
| `FiniteStateMachine.FailureIsUndefinedHere` | custom/finitestatemachine.py:148-149 | When processing a list fails: the machine stands in the state named by the error; the failing input is recorded as the last input; and no rule covers that pair. |
| `FiniteStateMachine.FiredAtMostOnePerInput` | custom/finitestatemachine.py:157-158 | Processing a list runs at most one action per input. |

## Left out

- Logging: the `logging` import and `logger` (lines 1-3) are never used by the logic.
- Action bodies: an action is an arbitrary Python callable that receives the machine (lines 157-158). Here it is an opaque token whose invocation is recorded in `trace`. The model does not cover:
  - an action changing the machine;
  - an action raising an exception;
  - an action re-entering `process`, which the engine does not support.
- Error message text: the exception and its `str()` formatting (line 149) are reduced to the value `UndefinedTransition(input, state)`.
- Python idioms: `has_key` (lines 142, 144) is key membership in a Dafny `map`. "Any iterable" arguments (lines 85, 164) are sequences. Optional keyword arguments defaulting to `None` are explicit `Option` parameters.
- State and input types are restricted to values: they support equality and are not references. This matches hashable keys.
- SetDefaultTransition: `next_state` is a required state. A Python caller passing `None` would make `None` the next state; as a value of `S`, `None` is not distinguished.
- `initial_state`: a `const`, because `FSM` never reassigns it. A client assigning the Python attribute directly is not modelled.
- `tests/finitestatemachinetests.py`: `MockActions` and the unittest plumbing are not modelled. The mock action's recorded input is the `input` of the traced `Invocation`.
