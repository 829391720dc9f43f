# Discrete-time model registry and shifted contexts

This project models two immutable building blocks of a small engine that
evaluates discrete-time signals: recurrences over an integer instant and
optional integer spatial coordinates ("dims").

- **The model registry** (`DiscreteModel`, `model.dfy`). A model holds two
  tables: signal name to signal, and parameter name to number. `WithSignal`
  and `WithParam` return a copy with one key set. The receiver stays as it
  was. `GetSignal` and `GetParam` are plain lookups with no default value. A
  signal is a type parameter `S`, because the registry only stores it.
  Parameters are `real`, because they are only stored and returned.
- **The shift decorator** (`Context`, `context.dfy`). A context is a root,
  which holds an instant, the dims and the bound signal, or a shift. A shift
  wraps another context and adds a fixed offset to its instant. It forwards
  every other question unchanged: dims, bound signal, parameter lookups,
  `past` and `globalPast`. Rebinding a shift rebinds the context it wraps and
  keeps the offset.

Both source files are pure: every method is either one assignment on a fresh
clone or one delegating expression. So both are modelled as datatypes and
functions. `Wrappers` (`wrappers.dfy`) holds the `Option` type that lookups
return.

The root context class is not part of this model. The context module takes
the root's parameter lookup, `past` and `globalPast` as function parameters
(`rootParam`, `rootPast`, `rootGlobalPast`), applied to the root. What is
proved is the delegation: through any chain of shifts, the answer is the
root's answer for the same arguments. Rebinding a root replaces its bound
signal and keeps its instant and dims.

A chain of `with…` calls, as callers build models, is modelled as a sequence
of `Update` values folded by `Build`. `LastSignal` and `LastParam` give an
independent reference definition: the most recent value per name.

Points where the model states what the code does:

- The shift class has no dims override. It holds only an inner context and an
  offset, so its dims are always the inner context's.
- The registry indexes its arrays directly, with no error of its own for an
  unknown name, so a missing key fails as the language fails. The model
  returns `None`.
- The registry file has no `eval`.
- `past` and `globalPast` on a shift forward the step count and the dims
  unchanged. The shift's offset is not applied to them. The model states
  exactly that (`Context.Past`, `Context.GlobalPast`).

## Model

| member | source | states |
|---|---|---|
| `DiscreteModel.Model.WithSignal` | src/Discrete/Model.php:17-23 | afterwards `name` yields the new signal; every other signal name and every parameter yields what it did before |
| `DiscreteModel.Model.WithParam` | src/Discrete/Model.php:25-31 | afterwards `name` yields the new value; every other parameter and every signal yields what it did before |
| `DiscreteModel.Empty` | src/Discrete/Model.php:10-14 | a fresh model has no signal and no parameter under any name |
| `DiscreteModel.WithParamOverwrites` | src/Discrete/Model.php:25-31 | setting a parameter twice gives the model in which only the later value was set |
| `DiscreteModel.WithSignalOverwrites` | src/Discrete/Model.php:17-23 | registering a name twice gives the model in which only the later signal was registered |
| `DiscreteModel.WithParamCommutes` | src/Discrete/Model.php:25-31 | parameters with distinct names can be added in either order, with the same model as the result |
| `DiscreteModel.WithSignalCommutes` | src/Discrete/Model.php:17-23 | signals with distinct names can be added in either order, with the same model as the result |
| `DiscreteModel.SignalAndParamCommute` | src/Discrete/Model.php:17-31 | a signal and a parameter can be added in either order, whatever their names |
| `DiscreteModel.BuildGetSignal` | src/Discrete/Model.php:17-36 | after any chain of calls, a signal lookup yields the signal last registered under that name, or else what the starting model yields |
| `DiscreteModel.BuildGetParam` | src/Discrete/Model.php:25-41 | after any chain of calls, a parameter lookup yields the value last set for that name, or else what the starting model yields |
| `DiscreteModel.LookupDefinedOnlyIfAdded` | src/Discrete/Model.php:10-41 | starting from a fresh model, a lookup finds a name exactly when some call in the chain added that name |
| `DiscreteModel.OrderIndependent` | src/Discrete/Model.php:17-31 | two chains that give every name the same final signal and value build the same model, in whatever order the calls came |
| `DiscreteModel.DeriveAfterUse` | tests/Discrete/ModelTest.php:140-162 | in the test's scenario (p1=2, p2=3, then 5 and 7, one signal): the original model keeps p1=2 and p2=3, the derived one has 5 and 7, and both hold the same signal |
| `DiscreteModel.ParamsThenSignal` | tests/Discrete/ModelTest.php:88-122 | adding the two parameters before the signal or after it gives the same model |
| `Context.GetInstant` | src/Discrete/Context/ShiftedContext.php:25-28 | the instant is the root's instant plus the sum of every offset in the chain |
| `Context.GetDims` | src/Discrete/Context/ShiftedContext.php:30-34 | the dims are exactly the root's dims, in the same order |
| `Context.GetSignal` | src/Discrete/Context/ShiftedContext.php:36-42 | the bound signal is exactly the root's, including none |
| `Context.Param` | src/Discrete/Context/ShiftedContext.php:44-47 | a parameter lookup returns what the root returns for the same name |
| `Context.Past` | src/Discrete/Context/ShiftedContext.php:49-52 | the root receives the step count and dims exactly as given, and its answer is returned; no offset is applied |
| `Context.GlobalPast` | src/Discrete/Context/ShiftedContext.php:54-57 | the root receives the signal name, step count and dims exactly as given, and its answer is returned; no offset is applied |
| `Context.WithSignal` | src/Discrete/Context/ShiftedContext.php:59-65 | the result is bound to the new signal and keeps the instant, the dims, the root's coordinates and every offset of the chain |
| `Context.ShiftedView` | src/Discrete/Context/ShiftedContext.php:19-42 | one shift adds its offset to the instant and keeps the root, dims and bound signal |
| `Context.Decompose` | src/Discrete/Context/ShiftedContext.php:13-23 | every context is its root wrapped in its own offsets, innermost first |
| `Context.ShiftByView` | src/Discrete/Context/ShiftedContext.php:19-42 | a chain of shifts moves the instant by the sum of its offsets and keeps the root, dims and bound signal |
| `Context.WithSignalThroughShifts` | src/Discrete/Context/ShiftedContext.php:59-65 | rebinding a chain of shifts equals the same chain around the rebound inner context |
| `Context.SameViewSameAnswers` | src/Discrete/Context/ShiftedContext.php:25-65 | two contexts with the same root and instant give the same answer to every lookup, and still look alike after rebinding |
| `Context.ShiftsCompose` | src/Discrete/Context/ShiftedContext.php:19-28 | shifting by `a` and then by `b` moves the instant by `a + b` and looks exactly like one shift by `a + b` |
| `Context.ShiftByZero` | src/Discrete/Context/ShiftedContext.php:19-28 | a shift by zero looks exactly like the context it wraps |
| `Context.Flatten` | src/Discrete/Context/ShiftedContext.php:19-28 | any chain looks exactly like its root under one shift by the chain's total offset |

## Left out

- The receiver never changing: models are values in this model, so no call can change one. `DiscreteModel.DeriveAfterUse` shows the derivation in the tests. Object identity and cloning are not modelled.
- Evaluation (`eval`, `evalTimeSlice`, a signal's `at`): these are not in the registry file. They run through caller-supplied closures, so their termination depends on caller code.
- The root context class and its `param`, `past`, `globalPast`: the root class is not part of this model. They are function parameters, so only the shift's delegation is proved.
- `Context.WithSignal` on a root: the root class is not part of this model. A root's rebinding is taken to replace only its bound signal and to keep its instant and dims.
- `Context.GetInstant`: instants and offsets are unbounded integers. The source keeps them in 64-bit integers, and a sum past the 64-bit range at any level of the chain becomes a float, which the declared `int` return type rejects with a type error. That error is not modelled, so `Context.ShiftedView`, `Context.ShiftByView`, `Context.SameViewSameAnswers`, `Context.ShiftsCompose` and `Context.Flatten` also hold only for chains whose partial sums stay within 64 bits. For example, a root at the largest 64-bit instant shifted by 1 and then by -1 fails in the source, but the model gives the root's instant.
- The context interfaces that the shift implements: these are type declarations only.
- The function-backed signal wrapper and the constant, minimum and maximum signals: they only call caller-supplied code or do floating-point arithmetic, and none of their source is in the model.
- Floating-point parameters: they are `real`, because the registry only stores and returns them.
- Unknown names: the language's undefined-index notice and return-type error are modelled as `None`.
