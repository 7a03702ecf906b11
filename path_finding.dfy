/**
 * The procedure surface of the path finder (`tabby.algo.PathFinding`): how a
 * start node's `PARAMETER_SIZE` property becomes the initial taint positions
 * of a search, and how each of the three procedures configures the traversal
 * engine.  The engine itself is not part of this model.
 */
module PathFinding {
  import opened JavaInts
  import opened TaintState

  /** The exceptions getInitialPositions can raise. */
  datatype JavaException =
    | ClassCastException
    | NegativeArraySizeException
    | ArrayIndexOutOfBoundsException

  datatype Result<+T> = Success(value: T) | Failure(error: JavaException)

  const ParameterSizeKey: string := "PARAMETER_SIZE"

  /**
   * A graph node as this file reads it: its property bag of `long` values.
   * The node's identity matters only to the traversal engine, which is not
   * part of this model.
   */
  datatype Node = Node(properties: map<string, Long>)

  /**
   * The property read as written: the default `0` is boxed to an `Integer`,
   * and a cast from `Object` to `long` first casts to `Long`, so an absent
   * property raises a ClassCastException instead of yielding 0.
   */
  function ReadParameterSizeAsWritten(node: Node): (r: Result<Long>)
    ensures r.Failure? <==> ParameterSizeKey !in node.properties
    ensures r.Failure? ==> r.error == ClassCastException
    ensures r.Success? ==> r.value == ParameterSize(node)
  {
    if ParameterSizeKey in node.properties then Success(node.properties[ParameterSizeKey])
    else Failure(ClassCastException)
  }

  /** The property read as intended: an absent property counts as 0 parameters. */
  function ParameterSize(node: Node): (p: Long)
    ensures ParameterSizeKey in node.properties ==> p == node.properties[ParameterSizeKey]
    ensures ParameterSizeKey !in node.properties ==> p == 0
  {
    if ParameterSizeKey in node.properties then node.properties[ParameterSizeKey] else 0
  }

  /**
   * What getInitialPositions does for a parameter count `p`: the array it
   * returns or the exception it raises.  The length is `(int) (p + 1)` with
   * `p + 1` computed on `long`; slot 0 is written first, then slot `i + 1`
   * for every `i < p`; the slots the loop does not reach keep Java's 0.
   */
  function InitialPositionsOutcome(p: Long): (r: Result<seq<int>>)
    ensures r.Success? ==> 1 <= |r.value| <= IntMax && r.value[0] == Receiver
  {
    var length := ToInt(ToLong(p + 1));
    if length < 0 then Failure(NegativeArraySizeException)
    else if length == 0 then Failure(ArrayIndexOutOfBoundsException)
    else if p >= length then Failure(ArrayIndexOutOfBoundsException)
    else Success(seq(length, k => if k == 0 then Receiver else if k - 1 < p then k - 1 else 0))
  }

  /** getInitialPositions on a node, with the property read as intended. */
  function InitialPositionsOf(node: Node): (r: Result<seq<int>>)
    ensures r.Success? ==> |r.value| >= 1 && r.value[0] == Receiver
    ensures 0 <= ParameterSize(node) < IntMax ==> r == Success(InitialState(ParameterSize(node)))
  {
    var p := ParameterSize(node);
    if 0 <= p < IntMax then
      OutcomeOfCount(p);
      InitialPositionsOutcome(p)
    else
      InitialPositionsOutcome(p)
  }

  /** getInitialPositions on a node, with the property read as written. */
  function InitialPositionsOfAsWritten(node: Node): (r: Result<seq<int>>)
    ensures ParameterSizeKey in node.properties ==> r == InitialPositionsOf(node)
    ensures ParameterSizeKey !in node.properties ==> r == Failure(ClassCastException)
  {
    match ReadParameterSizeAsWritten(node)
    case Success(p) => InitialPositionsOutcome(p)
    case Failure(e) => Failure(e)
  }

  /** Every parameter count that fits the array yields the initial taint state. */
  lemma OutcomeOfCount(p: Long)
    requires 0 <= p < IntMax
    ensures InitialPositionsOutcome(p) == Success(InitialState(p))
  {
    InitialStateAt(p);
    var r := InitialPositionsOutcome(p);
    assert r.Success? && |r.value| == p + 1;
    forall k | 0 <= k <= p
      ensures r.value[k] == InitialState(p)[k]
    {
    }
    assert r.value == InitialState(p);
  }

  /** A count of -1 allocates an empty array, and writing slot 0 fails. */
  lemma OutcomeOfMinusOne()
    ensures InitialPositionsOutcome(-1) == Failure(ArrayIndexOutOfBoundsException)
  {
  }

  /** A count below -1 whose successor fits an `int` asks for a negative array size. */
  lemma OutcomeOfNegativeCount(p: Long)
    requires IntMin - 1 <= p <= -2
    ensures InitialPositionsOutcome(p) == Failure(NegativeArraySizeException)
  {
  }

  /** A count whose successor does not fit an `int` never yields an array. */
  lemma OutcomeOfOversizedCount(p: Long)
    requires IntMax <= p
    ensures InitialPositionsOutcome(p) ==
              if ToInt(ToLong(p + 1)) < 0 then Failure(NegativeArraySizeException)
              else Failure(ArrayIndexOutOfBoundsException)
  {
  }

  /**
   * Over every count from `IntMin - 1` up, getInitialPositions succeeds
   * exactly on the counts `0 .. IntMax - 1`.
   */
  lemma OutcomeSucceedsExactlyOnCounts(p: Long)
    requires IntMin - 1 <= p
    ensures InitialPositionsOutcome(p).Success? <==> 0 <= p < IntMax
  {
    if p == -1 {
      OutcomeOfMinusOne();
    } else if p < -1 {
      OutcomeOfNegativeCount(p);
    } else if p >= IntMax {
      OutcomeOfOversizedCount(p);
    } else {
      OutcomeOfCount(p);
    }
  }

  /**
   * A far negative count can wrap to a positive length: `-2^32` gives a
   * one-slot array, the loop never runs, and the result is the receiver alone.
   */
  lemma OutcomeOfWrappedCount()
    ensures InitialPositionsOutcome(-0x1_0000_0000) == Success([Receiver])
  {
    OutcomeOfFarNegativeCount(-0x1_0000_0000);
    assert ToInt(-0x1_0000_0000 + 1) == 1;
    assert [Receiver] + seq(0, _ => 0) == [Receiver];
  }

  /**
   * Every count below `IntMin - 1`: the narrowed length decides.  A negative
   * length or a 0 length fails as for small counts; a positive one gives the
   * receiver followed by `length - 1` zeros, since the loop never runs.
   */
  lemma OutcomeOfFarNegativeCount(p: Long)
    requires p < IntMin - 1
    ensures var length := ToInt(p + 1);
            InitialPositionsOutcome(p) ==
              if length < 0 then Failure(NegativeArraySizeException)
              else if length == 0 then Failure(ArrayIndexOutOfBoundsException)
              else Success([Receiver] + seq(length - 1, _ => 0))
  {
    assert ToLong(p + 1) == p + 1;
    var length := ToInt(p + 1);
    if length > 0 {
      var r := InitialPositionsOutcome(p);
      assert r.Success? && |r.value| == length;
      assert r.value == [Receiver] + seq(length - 1, _ => 0);
    }
  }

  /**
   * A far negative count can seed a taint-aware search with a repeated
   * position: `2 - 2^32` narrows to length 3 and yields `[-1, 0, 0]`.
   */
  lemma FarNegativeCountRepeatsPosition(call: Call)
    requires call.startNode.properties == map[ParameterSizeKey := 2 - 0x1_0000_0000]
    ensures Configure(FindVul, call).Success?
    ensures Configure(FindVul, call).value.seed == Positions([Receiver, 0, 0])
    ensures !Distinct(Configure(FindVul, call).value.seed.positions)
  {
    OutcomeOfFarNegativeCount(2 - 0x1_0000_0000);
    assert ToInt(2 - 0x1_0000_0000 + 1) == 3;
    assert [Receiver] + seq(2, _ => 0) == [Receiver, 0, 0];
    assert ParameterSize(call.startNode) == 2 - 0x1_0000_0000;
    var s := Configure(FindVul, call).value.seed.positions;
    assert s[1] == s[2];
  }


  /**
   * As written, a node without the property makes getInitialPositions raise
   * ClassCastException, where the intended default of 0 gives `[-1]`.
   */
  lemma AbsentPropertyAsWritten(node: Node)
    requires ParameterSizeKey !in node.properties
    ensures InitialPositionsOfAsWritten(node) == Failure(ClassCastException)
    ensures InitialPositionsOf(node) != InitialPositionsOfAsWritten(node)
  {
    AbsentPropertyDefaultsToReceiver(node);
  }

  /** As intended, a node without the property gets the receiver as its only taint position. */
  lemma AbsentPropertyDefaultsToReceiver(node: Node)
    requires ParameterSizeKey !in node.properties
    ensures InitialPositionsOf(node) == Success([Receiver])
  {
    OutcomeOfCount(0);
    assert InitialState(0) == [Receiver];
  }


  /**
   * getInitialPositions, filling a fresh array in place: slot 0 gets the
   * receiver, then slot `i + 1` gets `i` for each declared parameter `i`.
   */
  method GetInitialPositions(node: Node) returns (initialPositions: array<int>)
    requires 0 <= ParameterSize(node) < IntMax
    ensures fresh(initialPositions)
    ensures initialPositions[..] == InitialState(ParameterSize(node))
    ensures InitialPositionsOf(node) == Success(initialPositions[..])
  {
    var parameterSize: nat := ParameterSize(node);
    initialPositions := new int[parameterSize + 1](_ => 0);
    initialPositions[0] := Receiver;
    assert initialPositions[..1] == InitialState(0);
    for i := 0 to parameterSize
      invariant initialPositions.Length == parameterSize + 1
      invariant initialPositions[..i + 1] == InitialState(i)
      invariant forall k :: i + 1 <= k < initialPositions.Length ==> initialPositions[k] == 0
    {
      initialPositions[i + 1] := i;
      InitialStateGrows(i);
      assert initialPositions[..i + 2] == initialPositions[..i + 1] + [i];
    }
    assert initialPositions[..] == initialPositions[..parameterSize + 1];
    OutcomeOfCount(parameterSize);
  }

  // ---------------------------------------------------------------------
  // The three procedures as configurations of the traversal engine

  datatype Procedure = AllSimplePaths | FindJavaGadget | FindVul

  /**
   * The expander a procedure builds.  Both constructors take a boolean whose
   * meaning lies in the expanders themselves, outside this model; it is
   * recorded as passed.
   */
  datatype Expander =
    | ForwardedPathExpander(flag: bool, processor: string)
    | BackwardPathExpander(flag: bool)

  /** The initial state handed to the engine: the caller's token or taint positions. */
  datatype Seed = StateToken(token: string) | Positions(positions: seq<int>)

  datatype Judgment = CommonJudgment

  /** The arguments of one engine construction. */
  datatype FinderConfig = FinderConfig(
    expander: Expander,
    maxLength: int,
    seed: Seed,
    depthFirst: bool,
    judgment: Judgment)

  /** A procedure call: its start node, its `long` bound, the state token (allSimplePaths only) and the order flag. */
  datatype Call = Call(startNode: Node, bound: Long, state: string, depthFirst: bool)

  /** The engine a procedure constructs for a call, or the exception raised while constructing it. */
  function Configure(procedure: Procedure, call: Call): (r: Result<FinderConfig>)
    ensures r.Success? ==> r.value.maxLength == ToInt(call.bound)
    ensures r.Success? ==> r.value.depthFirst == call.depthFirst && r.value.judgment == CommonJudgment
    ensures r.Success? ==> (r.value.expander.ForwardedPathExpander? <==> procedure != AllSimplePaths)
    ensures procedure == AllSimplePaths ==>
              r == Success(FinderConfig(BackwardPathExpander(false), ToInt(call.bound),
                                        StateToken(call.state), call.depthFirst, CommonJudgment))
    ensures procedure != AllSimplePaths ==>
              (r.Success? <==> InitialPositionsOf(call.startNode).Success?)
    ensures procedure != AllSimplePaths && r.Success? ==>
              r.value.seed == Positions(InitialPositionsOf(call.startNode).value)
  {
    var bound := ToInt(call.bound);
    match procedure
    case AllSimplePaths =>
      Success(FinderConfig(BackwardPathExpander(false), bound, StateToken(call.state),
                           call.depthFirst, CommonJudgment))
    case FindJavaGadget =>
      (match InitialPositionsOf(call.startNode)
       case Success(positions) =>
         Success(FinderConfig(ForwardedPathExpander(false, "JavaGadget"), bound, Positions(positions),
                              call.depthFirst, CommonJudgment))
       case Failure(e) => Failure(e))
    case FindVul =>
      (match InitialPositionsOf(call.startNode)
       case Success(positions) =>
         Success(FinderConfig(ForwardedPathExpander(false, "Common"), bound, Positions(positions),
                              call.depthFirst, CommonJudgment))
       case Failure(e) => Failure(e))
  }

  /**
   * findJavaGadget and findVul build the same engine for the same call
   * except for the edge processor's name, and fail alike.
   */
  lemma GadgetAndVulDifferOnlyInProcessor(call: Call)
    ensures Configure(FindJavaGadget, call).Success? <==> Configure(FindVul, call).Success?
    ensures Configure(FindJavaGadget, call).Failure? ==>
              Configure(FindJavaGadget, call) == Configure(FindVul, call)
    ensures Configure(FindJavaGadget, call).Success? ==>
              Configure(FindJavaGadget, call).value.expander == ForwardedPathExpander(false, "JavaGadget") &&
              Configure(FindVul, call).value.expander == ForwardedPathExpander(false, "Common") &&
              Configure(FindJavaGadget, call).value.(expander := ForwardedPathExpander(false, "Common"))
                == Configure(FindVul, call).value
  {
  }

  /**
   * A taint-aware procedure on a start node with a non-negative parameter
   * count starts when the count fits an `int` array, and then seeds the
   * search with distinct positions: the receiver first, then the declared arguments.
   */
  lemma TaintAwareSeed(procedure: Procedure, call: Call)
    requires procedure != AllSimplePaths
    requires 0 <= ParameterSize(call.startNode)
    ensures Configure(procedure, call).Success? <==> ParameterSize(call.startNode) < IntMax
    ensures Configure(procedure, call).Success? ==>
              var s := Configure(procedure, call).value.seed.positions;
              |s| == ParameterSize(call.startNode) + 1 && s[0] == Receiver &&
              Distinct(s) && WithinParameters(s, ParameterSize(call.startNode))
  {
    var p := ParameterSize(call.startNode);
    OutcomeSucceedsExactlyOnCounts(p);
    if p < IntMax {
      OutcomeOfCount(p);
      InitialStateAt(p);
      InitialStateDistinct(p);
      InitialStateWithinParameters(p);
    }
  }
}
