# Propositional machines and the multi-trace monitor, in Dafny

This project models the core of *propositional-machines*, a Java library. The
library monitors many traces at once. An input event is a **multi-event**: a
set of valuations, where a valuation maps propositional variables to
TRUE, FALSE or INCONCLUSIVE. A multi-event is given either **concretely**, as a
set, or **symbolically**, as a propositional formula over its variables.

A deterministic **propositional machine** (the uni-monitor) has a transition
relation from each state to a list of transitions. A transition is either
ordinary, guarded by a multi-event, or *otherwise*, a fallback. Each
transition carries a multi-event function. That function is a constant
(NU = SymbolicMultiEvent.ALL, EMPTY = NOTHING, EPSILON = no output), the
identity, or one of the two transformers, MergeVariables and BlurVariable.

The **MultiMonitor** runs the uni-monitor on every trace of a multi-event at
once. It keeps a path count, sigma, from each state to the number of traces
standing there. On each multi-event E it does the following:

- Every valuation of E is pushed along the outgoing transitions of every
  state with a non-zero count.
- The number of paths that land in each destination is counted.
- The verdict counts, beta, tally the paths into TRUE (output ALL), FALSE
  (output NOTHING) or INCONCLUSIVE (anything else, no output included).
- beta is emitted when at least one transition was taken.

The modules follow the Java classes:

| module | file | models |
|---|---|---|
| `Troolean` | troolean.dfy | the three-valued `Troolean.Value`, and an `Option` for Java's `null` |
| `Valuations` | valuations.dfy | `Valuation`: `isPartialOrder` and `isOptimal` |
| `Formulas` | formulas.dfy | `PropositionalVariable`, and `PropositionalFormula` with its evaluation and `generateAllValuations` |
| `BinaryCounter` | binary_counter.dfy | the vector arithmetic behind `ValuationIterator.hasNext` |
| `Iteration` | valuation_iterator.dfy | `ValuationIterator` as a class over an array, and the loops that drain it |
| `MultiEvents` | multi_events.dfy | `ConcreteMultiEvent`, `SymbolicMultiEvent`, and their `All`/`Nothing` subclasses |
| `Transformers` | transformers.dfy | `MergeVariables`, `BlurVariable`, the monitor's constants and how it classifies an output |
| `Machines` | machines.dfy | `ExplicitPropositionalMachine` as a class |
| `Sums` | sums.dfy | sums over finite sets (a helper for the monitor's specification) |
| `Monitor` | monitor.dfy | `MultiMonitor`, `PathCount` and `VerdictCount` as classes |
| `MonitorScenarios` | scenarios.dfy | the three scenarios of `MultiMonitorTest` |

### How the monitor step is specified

`MultiMonitor.Compute` visits the entries of sigma in the order of a hash
map, which the model does not fix. Its specification is therefore
independent of that order:

- `FlowsAt` gives, for a state s, the list of flows that s sends out. A flow
  is a destination, a number of paths and a verdict. The list holds one flow
  per ordinary transition whose guard meets E, in list order, then one for
  the otherwise transition when valuations remain.
- `NextSigma`, `NextVerdicts`, `Produced` and `Taken` sum these flows over
  the states of sigma.
- The loops of `Compute` are proved to build exactly these.
- The lemmas beside them state what the sums mean: path conservation,
  scaling, the contribution of each transition, and silent steps.

When the source and its description differ, the model follows the source:

- **Choice of transition.** `ExplicitPropositionalMachine.compute` takes the
  *last* ordinary transition whose guard meets the input, not "the unique"
  one. The two agree on deterministic machines.
- **Test machine.** `MultiMonitorTest` builds its uni-monitor with
  `PropositionalMachine`, which has no transition relation. The scenarios
  model the intended machine as an `ExplicitPropositionalMachine` relation.
- **Blurring.** `BlurVariable.getValue` returns its input valuations, not
  the blurred set its documentation describes. The machine and the monitor
  use the result as written; see "## Findings".

## Model

| member | source | states |
|---|---|---|
| Valuations.ScanPartialOrder | Source/Core/src/ca/uqac/lif/cep/propman/Valuation.java:48-68 | the pairwise entry scan answers true exactly when, at every compared position, this valuation's value equals the other's or is INCONCLUSIVE |
| Valuations.ScanAgreesWithIsPartialOrder | Source/Core/src/ca/uqac/lif/cep/propman/Valuation.java:48-68 | when both valuations have the same keys and are iterated in the same key order, the scan agrees with the order-free definition: every key of this valuation is INCONCLUSIVE or equal in the other |
| Valuations.PartialOrderReflexive | Source/Core/src/ca/uqac/lif/cep/propman/Valuation.java:48-68 | every valuation is a partial order of itself |
| Valuations.PartialOrderAntisymmetric | Source/Core/src/ca/uqac/lif/cep/propman/Valuation.java:48-68 | two valuations over the same keys, each a partial order of the other, are equal |
| Valuations.PartialOrderTransitive | Source/Core/src/ca/uqac/lif/cep/propman/Valuation.java:48-68 | the relation is transitive over valuations with the same keys |
| Valuations.PartialOrderFailsOnDecidedDifference | Source/Core/src/ca/uqac/lif/cep/propman/Valuation.java:58-63 | a key where this valuation holds a decided value that differs from the other's makes the answer false |
| Valuations.UnknownIsPartialOrderOfAll | Source/Core/src/ca/uqac/lif/cep/propman/Valuation.java:58-63 | a valuation that is INCONCLUSIVE everywhere is a partial order of any valuation |
| Valuations.OptimalInTrivialSets | Source/Core/src/ca/uqac/lif/cep/propman/Valuation.java:77-91 | a valuation is optimal in the empty set and in the set holding only itself |
| Valuations.NotOptimalWhenRefined | Source/Core/src/ca/uqac/lif/cep/propman/Valuation.java:77-91 | another member of the set that is a partial order of this valuation makes it not optimal |
| Valuations.Zip | Source/Core/src/ca/uqac/lif/cep/propman/ValuationIterator.java:109-113 | the valuation built by putting names with values has exactly the listed names as keys |
| Valuations.ZipLastOccurrence | Source/Core/src/ca/uqac/lif/cep/propman/ValuationIterator.java:110-113 | a name not repeated later in the list maps to the value at its position, because later puts overwrite earlier ones |
| Formulas.GetVariable | Source/Core/src/ca/uqac/lif/cep/propman/PropositionalVariable.java:38-41 | returns a variable leaf that carries the given name |
| Formulas.VariableValue | Source/Core/src/ca/uqac/lif/cep/propman/PropositionalVariable.java:54-61 | the valuation's entry when the variable is a key, INCONCLUSIVE when it is absent |
| Formulas.VariableValueIsLocal | Source/Core/src/ca/uqac/lif/cep/propman/PropositionalVariable.java:54-61 | two valuations that agree on the variable give it the same value |
| Formulas.EvalVariable | Source/Core/src/ca/uqac/lif/cep/propman/PropositionalFormula.java:54-64 | evaluating a formula that is a single variable gives the entry, or INCONCLUSIVE when absent |
| Formulas.EvalIsLocal | Source/Core/src/ca/uqac/lif/cep/propman/PropositionalFormula.java:54-64 | a formula's value depends only on the entries of the variables in its domain |
| Formulas.CompletionsMembers | Source/Core/src/ca/uqac/lif/cep/propman/PropositionalFormula.java:174-181 | the value vectors the two recursive calls reach are exactly those of length k over INCONCLUSIVE and TRUE |
| Formulas.CompletionsSize | Source/Core/src/ca/uqac/lif/cep/propman/PropositionalFormula.java:174-181 | there are 2^k such vectors |
| Formulas.TrueLeavesAreTrueOf | Source/Core/src/ca/uqac/lif/cep/propman/PropositionalFormula.java:158-181 | the valuations the recursion collects below a prefix are the completions of that prefix on which the formula is TRUE |
| Formulas.LeafValuation | Source/Core/src/ca/uqac/lif/cep/propman/PropositionalFormula.java:160-165 | the leaf valuation pairs the variable names with the array's values, up to the shorter of the two |
| Formulas.GenerateAllValuations | Source/Core/src/ca/uqac/lif/cep/propman/PropositionalFormula.java:158-181 | adds to the given set the TRUE valuations over every completion of the current prefix. It leaves the prefix of the array as it was and every later cell TRUE. It returns null at a leaf and the set otherwise |
| Formulas.TrueValuations | Source/Core/src/ca/uqac/lif/cep/propman/PropositionalFormula.java:112-115 | with no variables the top-level call returns null; otherwise it returns the TRUE valuations over all completions |
| Formulas.TrueOfMembers | Source/Core/src/ca/uqac/lif/cep/propman/PropositionalFormula.java:158-181 | a valuation is collected if and only if its keys are the variables, none of its values is FALSE and the formula evaluates to TRUE on it |
| BinaryCounter.NumberOfBits | Source/Core/src/ca/uqac/lif/cep/propman/ValuationIterator.java:81-96 | decoding the n-bit vector of k < 2^n gives k back |
| BinaryCounter.BitsOfNumber | Source/Core/src/ca/uqac/lif/cep/propman/ValuationIterator.java:81-96 | encoding the number of a TRUE/FALSE vector gives the vector back |
| BinaryCounter.BitsOfZero | Source/Core/src/ca/uqac/lif/cep/propman/ValuationIterator.java:68-71 | the all-FALSE starting vector encodes 0 |
| BinaryCounter.IncrementAddsOne | Source/Core/src/ca/uqac/lif/cep/propman/ValuationIterator.java:79-98 | on a TRUE/FALSE vector the update adds one to the encoded number, with the lowest bit first. It sets done exactly when it wraps from 2^n - 1 to 0 |
| BinaryCounter.IncrementAtFirstFalse | Source/Core/src/ca/uqac/lif/cep/propman/ValuationIterator.java:81-87 | the leading non-FALSE cells become FALSE, the first FALSE becomes TRUE, the rest is kept and done stays unset |
| BinaryCounter.IncrementWithoutFalse | Source/Core/src/ca/uqac/lif/cep/propman/ValuationIterator.java:88-95 | a vector with no FALSE becomes all FALSE, and done is set when the vector is not empty |
| BinaryCounter.IncrementBits | Source/Core/src/ca/uqac/lif/cep/propman/ValuationIterator.java:81-96 | incrementing the vector of k gives the vector of k + 1 below 2^n, and sets done at 2^n - 1 |
| Iteration.EnumeratedSize | Source/Core/src/ca/uqac/lif/cep/propman/ValuationIterator.java:77-116 | over distinct variables, the first c rounds yield c different valuations |
| Iteration.AllOverCharacterization | Source/Core/src/ca/uqac/lif/cep/propman/ValuationIterator.java:77-116 | the valuations of all 2^n rounds are exactly the TRUE/FALSE valuations over the listed variables |
| Iteration.AllTwoValued | Source/Core/src/ca/uqac/lif/cep/propman/ValuationIterator.java:58-116 | the set holds exactly the TRUE/FALSE valuations over the domain, and there are 2^|domain| of them |
| Iteration.ValuationIterator.constructor | Source/Core/src/ca/uqac/lif/cep/propman/ValuationIterator.java:58-74 | the variables list every domain variable once, the vector is all FALSE, and neither done nor update is set |
| Iteration.ValuationIterator.HasNext | Source/Core/src/ca/uqac/lif/cep/propman/ValuationIterator.java:77-100 | with an update pending, the vector is incremented and done is set on wrap-around; otherwise nothing changes. The answer is "not done" |
| Iteration.ValuationIterator.Next | Source/Core/src/ca/uqac/lif/cep/propman/ValuationIterator.java:103-116 | once done, it fails (None, for NoSuchElementException) and changes nothing. Otherwise it returns the variables zipped with the vector and sets update |
| Iteration.Round | Source/Core/src/ca/uqac/lif/cep/propman/ValuationIterator.java:77-116 | one hasNext/next round at position pos yields the valuation of the bits of pos and moves to pos + 1 |
| Iteration.Drain | Source/Core/src/ca/uqac/lif/cep/propman/ConcreteMultiEvent.java:199-205 | draining a fresh iterator over n > 0 variables collects exactly the kept valuations among the 2^n enumerated |
| Iteration.CollectValuations | Source/Core/src/ca/uqac/lif/cep/propman/SymbolicMultiEvent.java:75-86 | over a non-empty domain, the result holds exactly the TRUE/FALSE valuations over the domain that the filter keeps |
| MultiEvents.TrueOver | Source/Core/src/ca/uqac/lif/cep/propman/SymbolicMultiEvent.java:73-87 | the TRUE/FALSE valuations over the domain on which the formula is TRUE |
| MultiEvents.Satisfying | Source/Core/src/ca/uqac/lif/cep/propman/ConcreteMultiEvent.java:139-147 | the members of the set on which the formula evaluates to TRUE |
| MultiEvents.JointlyTrue | Source/Core/src/ca/uqac/lif/cep/propman/SymbolicMultiEvent.java:109-124 | the TRUE/FALSE valuations over the union of both domains on which both formulas are TRUE |
| MultiEvents.FormulaOf | Source/Core/src/ca/uqac/lif/cep/propman/SymbolicMultiEvent.java:149-178 | the event's formula. ALL's is the constant TRUE and NOTHING's the constant FALSE, both over an empty domain |
| MultiEvents.EmptyEvent | Source/Core/src/ca/uqac/lif/cep/propman/ConcreteMultiEvent.java:39-43 | a plain concrete event with no valuations |
| MultiEvents.FromSet | Source/Core/src/ca/uqac/lif/cep/propman/ConcreteMultiEvent.java:49-54 | a plain concrete event holding exactly the given valuations |
| MultiEvents.FromValuation | Source/Core/src/ca/uqac/lif/cep/propman/ConcreteMultiEvent.java:60-65 | a plain concrete event holding the one valuation |
| MultiEvents.ConcreteNothing | Source/Core/src/ca/uqac/lif/cep/propman/ConcreteMultiEvent.java:189-195 | an event with no valuations, whatever the variables |
| MultiEvents.SymbolicVals | Source/Core/src/ca/uqac/lif/cep/propman/SymbolicMultiEvent.java:73-87 | a symbolic event's valuations are the TRUE/FALSE valuations over its formula's domain on which the formula is TRUE |
| MultiEvents.ConstantsNotEnumerable | Source/Core/src/ca/uqac/lif/cep/propman/SymbolicMultiEvent.java:149-178 | ALL and NOTHING have an empty domain, so listing their valuations is never defined |
| MultiEvents.MixedIntersectionCommutes | Source/Core/src/ca/uqac/lif/cep/propman/ConcreteMultiEvent.java:127-148 | a concrete event met with a symbolic one gives the same set in either order |
| MultiEvents.SymbolicIntersectionCommutes | Source/Core/src/ca/uqac/lif/cep/propman/SymbolicMultiEvent.java:109-124 | two symbolic events meet the same way in either order |
| MultiEvents.IntersectionCommutes | Source/Core/src/ca/uqac/lif/cep/propman/ConcreteMultiEvent.java:84-95 | getIntersection is symmetric whenever neither side is a ConcreteMultiEvent.All |
| MultiEvents.ConcreteAllSpec | Source/Core/src/ca/uqac/lif/cep/propman/ConcreteMultiEvent.java:181-187 | ConcreteMultiEvent.All over some variables holds exactly the 2^n TRUE/FALSE valuations over them |
| MultiEvents.ConcreteAllIsOneSided | Source/Core/src/ca/uqac/lif/cep/propman/ConcreteMultiEvent.java:103-110 | meeting ConcreteMultiEvent.All returns the other side whole, so {y = TRUE} met with All over x is {y = TRUE} in one order and empty in the other |
| MultiEvents.AllIsNeutral | Source/Core/src/ca/uqac/lif/cep/propman/SymbolicMultiEvent.java:149-167 | SymbolicMultiEvent.ALL met with any listable event, in either order, gives that event's valuations |
| MultiEvents.NothingIsAbsorbing | Source/Core/src/ca/uqac/lif/cep/propman/ConcreteMultiEvent.java:135-138 | NOTHING met with any event, in either order, is empty |
| MultiEvents.IntersectionWithinConcrete | Source/Core/src/ca/uqac/lif/cep/propman/ConcreteMultiEvent.java:103-148 | the intersection lies within the concrete side's valuations |
| MultiEvents.SymbolicIntersectionMembers | Source/Core/src/ca/uqac/lif/cep/propman/SymbolicMultiEvent.java:109-124 | the intersection of two symbolic events holds exactly the TRUE/FALSE valuations over both domains that satisfy both formulas |
| MultiEvents.GetValuations | Source/Core/src/ca/uqac/lif/cep/propman/SymbolicMultiEvent.java:73-87 | returns the event's valuations: the stored set for a concrete event, the satisfying enumerated valuations for a symbolic one |
| MultiEvents.ConcreteAll | Source/Core/src/ca/uqac/lif/cep/propman/ConcreteMultiEvent.java:181-206 | building All over a non-empty variable set gives the event of all TRUE/FALSE valuations over it |
| MultiEvents.GetDomain | Source/Core/src/ca/uqac/lif/cep/propman/ConcreteMultiEvent.java:74-81 | a concrete event's domain is the key set of some member, or empty when it has none; a symbolic event's domain is its formula's |
| MultiEvents.GetIntersection | Source/Core/src/ca/uqac/lif/cep/propman/ConcreteMultiEvent.java:84-95 | computes the intersection set, with the All and Nothing overrides of both classes |
| Transformers.Swap | Source/Core/src/ca/uqac/lif/cep/propman/MergeVariables.java:38-42 | the copy gives x1 the entry of x2 and x2 the entry of x1. Every other entry is kept, and merging a variable with itself changes nothing |
| Transformers.SwapInvolution | Source/Core/src/ca/uqac/lif/cep/propman/MergeVariables.java:38-42 | swapping the same two variables twice gives the valuation back |
| Transformers.Swapped | Source/Core/src/ca/uqac/lif/cep/propman/MergeVariables.java:36-44 | holds the swapped copy of each input valuation and nothing else |
| Transformers.SwappedSize | Source/Core/src/ca/uqac/lif/cep/propman/MergeVariables.java:36-44 | there are no more swapped copies than inputs |
| Transformers.Merged | Source/Core/src/ca/uqac/lif/cep/propman/MergeVariables.java:33-44 | holds the inputs and their swapped copies, and nothing else |
| Transformers.MergedSize | Source/Core/src/ca/uqac/lif/cep/propman/MergeVariables.java:33-44 | merging at most doubles the number of valuations |
| Transformers.MergedClosed | Source/Core/src/ca/uqac/lif/cep/propman/MergeVariables.java:33-44 | the output holds the swapped copy of each of its own members |
| Transformers.MergedIdempotent | Source/Core/src/ca/uqac/lif/cep/propman/MergeVariables.java:33-44 | merging twice is merging once |
| Transformers.MergedTrivial | Source/Core/src/ca/uqac/lif/cep/propman/MergeVariables.java:33-44 | merging a variable with itself, or merging nothing, leaves the set as it is |
| Transformers.MergeVariables | Source/Core/src/ca/uqac/lif/cep/propman/MergeVariables.java:31-46 | returns a plain concrete event holding the merged valuations of the input |
| Transformers.BlurredCopy | Source/Core/src/ca/uqac/lif/cep/propman/BlurVariable.java:59-68 | as written, the copy holds the blurred variable alone: FALSE when the input had it TRUE, TRUE otherwise |
| Transformers.BlurredCopyDropsOthers | Source/Core/src/ca/uqac/lif/cep/propman/BlurVariable.java:60 | from {x = TRUE, y = TRUE}, the copy as written lacks y, whereas the intended copy is {x = FALSE, y = TRUE} |
| Transformers.BlurVariable | Source/Core/src/ca/uqac/lif/cep/propman/BlurVariable.java:52-72 | as written, the result is a plain concrete event holding the input valuations unchanged |
| Transformers.Flip | Source/Core/src/ca/uqac/lif/cep/propman/BlurVariable.java:59-68 | the intended copy: x becomes FALSE when it was TRUE and TRUE otherwise, and every other entry is kept |
| Transformers.FlipInvolution | Source/Core/src/ca/uqac/lif/cep/propman/BlurVariable.java:59-68 | flipping a decided entry twice gives the valuation back |
| Transformers.Blurred | Source/Core/src/ca/uqac/lif/cep/propman/BlurVariable.java:54-71 | the intended output: the inputs and their flipped copies, and nothing else |
| Transformers.BlurredHidesVariable | Source/Core/src/ca/uqac/lif/cep/propman/BlurVariable.java:24-31 | when every input decides x, each output valuation also appears with x the other way, so nothing can be concluded about x |
| Transformers.BlurAsWrittenKeepsVariable | Source/Core/src/ca/uqac/lif/cep/propman/BlurVariable.java:71 | from {x = TRUE}, the intended output holds {x = FALSE}, which the event returned as written does not |
| Transformers.ApplyFunction | Source/Core/src/ca/uqac/lif/cep/propman/MultiMonitor.java:129-130 | getValue gives the constant (null for EPSILON), the input, the merged event, or for a blur the input valuations unchanged, as BlurVariable returns them |
| Transformers.Classify | Source/Core/src/ca/uqac/lif/cep/propman/MultiMonitor.java:133-144 | TRUE exactly for SymbolicMultiEvent.ALL, FALSE exactly for NOTHING, and INCONCLUSIVE for any other output, no output included |
| Transformers.VerdictOfFunctions | Source/Core/src/ca/uqac/lif/cep/propman/MultiMonitor.java:45-55 | NU yields TRUE, EMPTY yields FALSE and EPSILON yields INCONCLUSIVE. Both transformers always yield INCONCLUSIVE, and the documented blur would yield the same verdict |
| Machines.LastMatchIsLast | Source/Core/src/ca/uqac/lif/cep/propman/ExplicitPropositionalMachine.java:127-152 | the chosen transition is the last ordinary one whose guard meets the input, and no later one meets it. When none meets it, the choice is the last otherwise transition |
| Machines.PrunedProperties | Source/Core/src/ca/uqac/lif/cep/propman/ExplicitPropositionalMachine.java:190-232 | the pruned relation keeps exactly the reachable states, with their lists unchanged, and pruning twice is pruning once |
| Machines.PathSurvivesPruning | Source/Core/src/ca/uqac/lif/cep/propman/ExplicitPropositionalMachine.java:190-232 | every path from the initial state is still a path after pruning |
| Machines.Explore | Source/Core/src/ca/uqac/lif/cep/propman/ExplicitPropositionalMachine.java:192-222 | the worklist search ends with exactly the states reachable from the initial state |
| Machines.ExplicitPropositionalMachine.constructor | Source/Core/src/ca/uqac/lif/cep/propman/ExplicitPropositionalMachine.java:53-57 | a new machine has an empty relation and neither an initial nor a current state |
| Machines.ExplicitPropositionalMachine.GetInitialState | Source/Core/src/ca/uqac/lif/cep/propman/ExplicitPropositionalMachine.java:59-63 | returns the initial state, or null when none was set |
| Machines.ExplicitPropositionalMachine.StateCount | Source/Core/src/ca/uqac/lif/cep/propman/ExplicitPropositionalMachine.java:65-69 | the number of states that have an outgoing list |
| Machines.ExplicitPropositionalMachine.TransitionsFor | Source/Core/src/ca/uqac/lif/cep/propman/ExplicitPropositionalMachine.java:169-177 | the state's list, or the empty list for a state with no entry |
| Machines.ExplicitPropositionalMachine.TransitionCount | Source/Core/src/ca/uqac/lif/cep/propman/ExplicitPropositionalMachine.java:71-80 | the sum of the list lengths over all states |
| Machines.ExplicitPropositionalMachine.SetInitialState | Source/Core/src/ca/uqac/lif/cep/propman/ExplicitPropositionalMachine.java:87-91 | the initial state becomes the given one |
| Machines.ExplicitPropositionalMachine.AddTransition | Source/Core/src/ca/uqac/lif/cep/propman/ExplicitPropositionalMachine.java:99-114 | the first call also sets the initial and current state. The transition is appended to its source's list, nothing else changes, and the transition count grows by one |
| Machines.ExplicitPropositionalMachine.Compute | Source/Core/src/ca/uqac/lif/cep/propman/ExplicitPropositionalMachine.java:116-167 | with no list, or no transition to take, it stays and outputs nothing. Otherwise it moves to the chosen transition's destination and outputs that transition's function applied to the input. Only the chosen transition's function must be applicable to the input |
| Machines.ExplicitPropositionalMachine.RemoveUnreachableStates | Source/Core/src/ca/uqac/lif/cep/propman/ExplicitPropositionalMachine.java:190-232 | the relation becomes its restriction to the states reachable from the initial state |
| Monitor.VerdictsCountEveryPath | Source/Core/src/ca/uqac/lif/cep/propman/MultiMonitor.java:97-181 | the three verdict counts of a step add up to the number of paths it produced |
| Monitor.ZeroCountContributesNothing | Source/Core/src/ca/uqac/lif/cep/propman/MultiMonitor.java:101-104 | a state with count zero changes neither the next path count, nor the verdicts, nor whether the step emits |
| Monitor.StateWeight | Source/Core/src/ca/uqac/lif/cep/propman/MultiMonitor.java:110-180 | when the guards of a state partition the event and it has an otherwise transition, n paths at that state become n * \|E\| paths |
| Monitor.PathCountScales | Source/Core/src/ca/uqac/lif/cep/propman/MultiMonitor.java:97-181 | when every live state's guards partition the event and it has an otherwise transition, the step produces \|E\| times the total count of sigma |
| Monitor.TransitionContributes | Source/Core/src/ca/uqac/lif/cep/propman/MultiMonitor.java:119-124 | an ordinary transition whose guard meets E puts its destination in the next count, with at least count times \|intersection\| paths |
| Monitor.OtherwiseContributes | Source/Core/src/ca/uqac/lif/cep/propman/MultiMonitor.java:157-162 | when valuations remain, the otherwise destination is in the next count, with at least count times \|remaining\| paths |
| Monitor.SilentStep | Source/Core/src/ca/uqac/lif/cep/propman/MultiMonitor.java:184-194 | the step emits exactly when the next path count is non-empty, and an empty sigma stays empty and emits nothing |
| Monitor.PathCount.Increment | Source/Core/src/ca/uqac/lif/cep/propman/MultiMonitor.java:253-264 | adds the paths to the state's entry, creating it when absent, and the total grows by the same amount |
| Monitor.VerdictCount.Increment | Source/Core/src/ca/uqac/lif/cep/propman/MultiMonitor.java:323-337 | adds the paths to the given verdict's count and leaves the two others |
| Monitor.VerdictCount.Get | Source/Core/src/ca/uqac/lif/cep/propman/MultiMonitor.java:346-361 | returns the count of the given verdict |
| Monitor.Take | Source/Core/src/ca/uqac/lif/cep/propman/MultiMonitor.java:119-144 | taking a transition for m valuations out of n paths adds n * m paths to its destination and to the verdict of its output |
| Monitor.ScanTransitions | Source/Core/src/ca/uqac/lif/cep/propman/MultiMonitor.java:110-153 | the loop records the flows of the matching ordinary transitions, in order. It ends with the valuations no guard met and the last otherwise transition, and says whether any flow fired |
| Monitor.ProcessState | Source/Core/src/ca/uqac/lif/cep/propman/MultiMonitor.java:99-180 | processing one state records exactly that state's flows, the otherwise flow included, and says whether any fired |
| Monitor.VisitAll | Source/Core/src/ca/uqac/lif/cep/propman/MultiMonitor.java:97-181 | the loop over sigma, in any order, builds the next path count and the verdicts, and sets taken exactly when the step is not silent |
| Monitor.MultiMonitor.constructor | Source/Core/src/ca/uqac/lif/cep/propman/MultiMonitor.java:78-86 | sigma counts one path at the initial state, and the verdicts are all zero |
| Monitor.MultiMonitor.Reset | Source/Core/src/ca/uqac/lif/cep/propman/MultiMonitor.java:197-203 | sigma is back to one path at the initial state, and the verdicts are kept |
| Monitor.MultiMonitor.Compute | Source/Core/src/ca/uqac/lif/cep/propman/MultiMonitor.java:89-195 | the new sigma and verdicts are the step's next count and tally, and the path total is what the step produced. It emits the verdicts exactly when some transition was taken |
| MonitorScenarios.Test1First | Source/CoreTest/src/ca/uqac/lif/cep/propman/MultiMonitorTest.java:53-55 | from {0: 1}, the event {TF} gives sigma {1: 1} and verdicts (0, 0, 1) |
| MonitorScenarios.Test1Second | Source/CoreTest/src/ca/uqac/lif/cep/propman/MultiMonitorTest.java:56-58 | from {1: 1}, {TF} gives sigma {1: 1} and verdicts (1, 0, 0) |
| MonitorScenarios.Test2First | Source/CoreTest/src/ca/uqac/lif/cep/propman/MultiMonitorTest.java:76-78 | from {0: 1}, {TF, FT} gives sigma {1: 1, 2: 1} and verdicts (0, 0, 2) |
| MonitorScenarios.Test2Second | Source/CoreTest/src/ca/uqac/lif/cep/propman/MultiMonitorTest.java:79-81 | from {1: 1, 2: 1}, {TF} gives the same sigma and verdicts (1, 1, 0) |
| MonitorScenarios.Test3First | Source/CoreTest/src/ca/uqac/lif/cep/propman/MultiMonitorTest.java:99-101 | from {0: 1}, {TF, FF} gives sigma {0: 1, 1: 1} and verdicts (0, 0, 2) |
| MonitorScenarios.Test3Second | Source/CoreTest/src/ca/uqac/lif/cep/propman/MultiMonitorTest.java:102-104 | from {0: 1, 1: 1}, {TF, FT} gives sigma {1: 3, 2: 1} and verdicts (2, 0, 2) |

## Left out

- Monitor.MultiMonitor.constructor and Monitor.MultiMonitor.Reset require an initial state. With none, Java keys sigma by `null`; a state here is an integer.
- Monitor.MultiMonitor.Compute requires an input whose valuations can be listed, which excludes SymbolicMultiEvent.ALL and NOTHING. The Java iterator never finishes on an empty domain, because `m_done` is only set inside the loop over the vector.
- Iteration.CollectValuations and MultiEvents.ConcreteAll require a non-empty domain, for the same reason.
- Iteration.ValuationIterator.constructor: the order in which the Java loop reads the domain set is a hash-set order. The model picks some listing of the domain.
- Machines.Explore and Monitor.VisitAll: likewise, the order of hash-set and hash-map iteration is a free choice in the model. The results are stated independently of it.
- Transformers.Swap: Java's `put` of a `null` entry (a variable absent from the valuation) is modelled as the key being absent from the copy.
- Formulas: the connectives come from the external Troolean library. A connective is kept as a function value on its operands' values, with no fixed truth table.
- Formulas: a formula whose output is not a Troolean value, which Java reports with a FunctionException, cannot be built here.
- `supports`, `getOptimalRelaxations` and `printValuation` of PropositionalFormula only print, or combine the modelled pieces. Only `generateAllValuations`, `isPartialOrder` and `isOptimal` are modelled.
- `toString` methods, and `duplicate` (which throws "not implemented"), are left out.
- BigInteger path counts are unbounded `nat`s. The `int` overloads of `PathCount.increment` and `VerdictCount.increment` are the same operation and are not repeated.
- The push/pull plumbing of the stream processors (SynchronousProcessor, output queues, Pushable) is left out. A step's output is a return value.
- AccessControlledMonitor, StatelessPropositionalMachine, MultiEventFactory, GetEntropy, DotMachineRenderer and Main are not part of this model.

## Findings

| source | as written | input that shows it | evidently intended | confidence | as-written member | corrected member |
|---|---|---|---|---|---|---|
| Source/Core/src/ca/uqac/lif/cep/propman/BlurVariable.java:60 | `v2.putAll(v2)` fills the copy from itself, so it holds only the blurred variable | {x = TRUE, y = TRUE} blurred on x gives the copy {x = FALSE} | copy v first, giving {x = FALSE, y = TRUE} | not executed | Transformers.BlurredCopyDropsOthers | Transformers.Flip |
| Source/Core/src/ca/uqac/lif/cep/propman/BlurVariable.java:71 | the result wraps the input set `vals`, and the blurred set `new_vals` is dropped | {x = TRUE} blurred on x gives {x = TRUE} alone | return `new_vals`, here {x = TRUE}, {x = FALSE} | not executed | Transformers.BlurAsWrittenKeepsVariable | Transformers.BlurredHidesVariable |

The machine and the monitor apply blurring as written
(`Transformers.Output`, `Transformers.ApplyFunction`); the corrected members
state the documented behaviour beside it. The two readings give the same
verdict, because either output is a concrete event and so counts as
INCONCLUSIVE (`Transformers.VerdictOfFunctions`).
