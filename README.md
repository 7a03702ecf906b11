# tabby path finder: initial taint positions and procedure wiring

`tabby.algo.PathFinding` exposes a taint-aware graph search as three Neo4j
procedures: `allSimplePaths`, `findJavaGadget` and `findVul`. Each of them
builds a `MonoDirectionalTraversalPathFinder` from six arguments. The first
is the Neo4j evaluation context, which is not modelled; the model records the
other five:

- an expander: backward with no edge processor for `allSimplePaths`, forward
  with a named edge processor for the other two;
- a length bound;
- an initial state;
- the depth-first flag;
- a `CommonJudgment`.

The taint-aware procedures get their initial state from `getInitialPositions`.
It reads a start node's `PARAMETER_SIZE` and builds `[-1, 0, 1, ..., n-1]`:

- `-1` is the receiver (`this`);
- `0 .. n-1` are the declared arguments.

This project models that file. It has three modules:

- `JavaInts` (`java_ints.dfy`) defines Java's `int` and `long` widths. It also
  defines the `(int)` narrowing and the wrap-around of `long` addition.
- `TaintState` (`taint_state.dfy`) defines the initial taint state as a
  recursive function `InitialState(n)`. Lemmas prove its shape, that it is
  strictly increasing, that its positions are distinct, its range and its
  members.
- `PathFinding` (`path_finding.dfy`) holds the rest:
  - `GetInitialPositions` is an in-place method over `array<int>`. A loop
    invariant proves that it builds `InitialState`.
  - `InitialPositionsOutcome` gives the Java outcome for every `long` count:
    the array, or the exception raised.
  - `Configure` gives each procedure's engine configuration as pure data.

The graph node is modelled by its property bag, a map of `long` values. Its
identity matters only to the traversal engine, which is not modelled.

## Model

| member | source | states |
|---|---|---|
| JavaInts.ToInt | src/main/java/tabby/algo/PathFinding.java:101 | the `(int)` cast yields an `int`-range value congruent to its argument modulo 2^32, and leaves `int`-range values unchanged |
| JavaInts.ToLong | src/main/java/tabby/algo/PathFinding.java:101 | `parameterSize+1` on `long` is congruent to the exact sum modulo 2^64, and exact when the sum fits |
| TaintState.InitialState | src/main/java/tabby/algo/PathFinding.java:101-105 | the initial state of `n` parameters has `n + 1` slots, starts with the receiver `-1`, and ends with the last argument index `n - 1` when there is one |
| TaintState.ArgumentsAt | src/main/java/tabby/algo/PathFinding.java:103-105 | the argument part has one entry per parameter, and entry `k` is `k` |
| TaintState.InitialStateAt | src/main/java/tabby/algo/PathFinding.java:101-105 | the state has length `n + 1`, slot 0 holds the receiver `-1`, and slot `k` holds `k - 1` for `1 <= k <= n` |
| TaintState.InitialStateGrows | src/main/java/tabby/algo/PathFinding.java:103-105 | one more loop iteration appends the next argument index: `InitialState(n+1) == InitialState(n) + [n]` |
| TaintState.InitialStateIncreasing | src/main/java/tabby/algo/PathFinding.java:102-105 | the initial positions are strictly increasing |
| TaintState.InitialStateDistinct | src/main/java/tabby/algo/PathFinding.java:102-105 | no position occurs twice in the initial state |
| TaintState.InitialStateWithinParameters | src/main/java/tabby/algo/PathFinding.java:102-105 | every initial position lies in `[-1, n-1]` |
| TaintState.InitialStateMembers | src/main/java/tabby/algo/PathFinding.java:102-105 | a position is in the initial state if and only if it is the receiver or a declared argument index |
| PathFinding.ReadParameterSizeAsWritten | src/main/java/tabby/algo/PathFinding.java:100 | as written, the read fails if and only if `PARAMETER_SIZE` is absent; the failure is ClassCastException, and otherwise it yields the same stored `long` as the intended read |
| PathFinding.ParameterSize | src/main/java/tabby/algo/PathFinding.java:100 | the intended read: the stored `long` when `PARAMETER_SIZE` is present, and the default 0 when it is absent |
| PathFinding.InitialPositionsOf | src/main/java/tabby/algo/PathFinding.java:99-107 | getInitialPositions on a node: a returned array starts with the receiver, and for a count in `0 .. 2^31-2` it is exactly `InitialState(count)` |
| PathFinding.InitialPositionsOfAsWritten | src/main/java/tabby/algo/PathFinding.java:99-107 | getInitialPositions on a node with the read as written: the same outcome as the intended read when `PARAMETER_SIZE` is present, and ClassCastException when it is absent |
| PathFinding.InitialPositionsOutcome | src/main/java/tabby/algo/PathFinding.java:99-107 | whenever getInitialPositions returns, the array is non-empty, fits an `int` length, and starts with the receiver |
| PathFinding.OutcomeOfCount | src/main/java/tabby/algo/PathFinding.java:101-105 | for every count `0 <= p < 2^31-1` the returned array is exactly `[-1, 0, ..., p-1]` |
| PathFinding.OutcomeOfMinusOne | src/main/java/tabby/algo/PathFinding.java:101-102 | a count of -1 allocates a 0-length array, and the write to slot 0 raises ArrayIndexOutOfBoundsException |
| PathFinding.OutcomeOfNegativeCount | src/main/java/tabby/algo/PathFinding.java:101 | a count in `[-2^31-1, -2]` asks for a negative size and raises NegativeArraySizeException |
| PathFinding.OutcomeOfOversizedCount | src/main/java/tabby/algo/PathFinding.java:101-105 | a count of `2^31-1` or more never yields an array: NegativeArraySizeException when the narrowed length is negative, otherwise ArrayIndexOutOfBoundsException: at the slot-0 write when the narrowed length is 0, and in the loop when it is positive but at most the count |
| PathFinding.OutcomeSucceedsExactlyOnCounts | src/main/java/tabby/algo/PathFinding.java:101-105 | from `-2^31-1` upwards, getInitialPositions returns if and only if `0 <= p < 2^31-1` |
| PathFinding.OutcomeOfFarNegativeCount | src/main/java/tabby/algo/PathFinding.java:101-106 | for every count below `-2^31-1` the narrowed length decides: a negative length raises NegativeArraySizeException, a 0 length raises ArrayIndexOutOfBoundsException, and a positive length `L` returns `-1` followed by `L-1` zeros, because the loop never runs |
| PathFinding.FarNegativeCountRepeatsPosition | src/main/java/tabby/algo/PathFinding.java:87-106 | a stored count of `2 - 2^32` makes findVul start with the seed `[-1, 0, 0]`, which repeats position 0 |
| PathFinding.OutcomeOfWrappedCount | src/main/java/tabby/algo/PathFinding.java:101-106 | a count of `-2^32` wraps to a 1-slot array, so the result is `[-1]` with no exception |
| PathFinding.AbsentPropertyAsWritten | src/main/java/tabby/algo/PathFinding.java:100 | as written, a node without `PARAMETER_SIZE` makes getInitialPositions raise ClassCastException, which differs from the intended outcome |
| PathFinding.AbsentPropertyDefaultsToReceiver | src/main/java/tabby/algo/PathFinding.java:100-102 | with the intended default of 0, a node without `PARAMETER_SIZE` gets exactly `[-1]` |
| PathFinding.GetInitialPositions | src/main/java/tabby/algo/PathFinding.java:99-107 | allocates a new array and fills it in place; the result is exactly `InitialState(parameterSize)`, the value `InitialPositionsOutcome` gives for the node |
| PathFinding.Configure | src/main/java/tabby/algo/PathFinding.java:45-92 | allSimplePaths always builds a backward expander (flag `false`) and passes the caller's state token; findJavaGadget and findVul build a forward expander and start if and only if getInitialPositions returns, seeded with its positions; all three pass the bound through `(int)`, keep the order flag and use CommonJudgment |
| PathFinding.GadgetAndVulDifferOnlyInProcessor | src/main/java/tabby/algo/PathFinding.java:66-92 | for the same call, findJavaGadget and findVul fail alike or build the same engine, except for the processor name `"JavaGadget"` versus `"Common"` |
| PathFinding.TaintAwareSeed | src/main/java/tabby/algo/PathFinding.java:66-107 | take a taint-aware procedure and a start node with a non-negative count. It starts if and only if the count is below `2^31-1`. Its seed then has length count+1, starts with the receiver, and holds distinct positions in range. |

## Findings

| source | as written | input that shows it | evidently intended | confidence | as-written member | corrected member |
|---|---|---|---|---|---|---|
| src/main/java/tabby/algo/PathFinding.java:100 | `(long) node.getProperty("PARAMETER_SIZE", 0)`: the default `0` is boxed to `Integer`, and casting an `Object` to `long` first casts it to `Long`, which raises ClassCastException | a start node with no `PARAMETER_SIZE` property | an absent property counts as 0 parameters, so the result is `[-1]` | high, not executed | PathFinding.AbsentPropertyAsWritten | PathFinding.AbsentPropertyDefaultsToReceiver |

The rest of the model uses the corrected read, `ParameterSize`:
`InitialPositionsOf`, `Configure` and `GetInitialPositions` all use it. So for
a node without `PARAMETER_SIZE`, `GetInitialPositions` returns `[-1]` where the
code as written raises ClassCastException.

## Left out

- Neo4j plumbing is not modelled: `@Context` injection of the database and the transaction, `@Procedure` registration, and `BasicEvaluationContext`. These are framework calls with no logic of their own.
- The traversal engine is not part of this model: `MonoDirectionalTraversalPathFinder`, `ForwardedPathExpander`, `BackwardPathExpander`, `ProcessorFactory` and `CommonJudgment`. The model records only the arguments each procedure passes to them. The meaning of the expanders' boolean flag is not modelled, and neither are search order, pruning or taint transformation.
- `ProcessorFactory`'s handling of unknown processor names is not modelled. The three procedures pass only the fixed names `"JavaGadget"` and `"Common"`, plus no name at all.
- The parallel `StreamSupport.stream` and the `PathResult` wrapping of each path are left out. They are concurrency and result formatting.
- Stored property values are modelled as Java `long` only. A stored value of another type would raise ClassCastException, and that is not modelled.
- Running out of memory while allocating a large array is not modelled.
- PathFinding.GetInitialPositions: requires a count in `0 .. 2^31-2`. The counts for which the Java code raises an exception or wraps are covered by `InitialPositionsOutcome` instead of by the method.
- Negative stored counts are not corrected. A parameter count is non-negative in the graph's data model, so the model states what the code does with a negative count and does not define an intended result. Below `-2^31-1` the code can return positions that repeat (`FarNegativeCountRepeatsPosition`), so distinct seed positions are promised only for non-negative counts (`TaintAwareSeed`).
