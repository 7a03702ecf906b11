/**
 * Taint positions of a method: `-1` stands for the receiver (`this`), a
 * non-negative number for the argument with that index.  The initial taint
 * state of a search root with `n` declared parameters is `[-1, 0, 1, ..., n-1]`.
 */
module TaintState {

  /** The position reserved for the receiver object. */
  const Receiver: int := -1

  /** The argument indices `0, 1, ..., n-1`, in increasing order. */
  function Arguments(n: nat): (r: seq<int>)
    ensures |r| == n
  {
    if n == 0 then [] else Arguments(n - 1) + [n - 1]
  }

  /** The receiver followed by every declared argument. */
  function InitialState(n: nat): (s: seq<int>)
    ensures |s| == n + 1 && s[0] == Receiver
    ensures n > 0 ==> s[n] == n - 1
  {
    [Receiver] + Arguments(n)
  }

  ghost predicate StrictlyIncreasing(s: seq<int>)
  {
    forall i, j :: 0 <= i < j < |s| ==> s[i] < s[j]
  }

  ghost predicate Distinct(s: seq<int>)
  {
    forall i, j :: 0 <= i < j < |s| ==> s[i] != s[j]
  }

  /** Every position names the receiver or one of the `n` declared arguments. */
  ghost predicate WithinParameters(s: seq<int>, n: nat)
  {
    forall i :: 0 <= i < |s| ==> Receiver <= s[i] < n
  }

  lemma {:induction false} ArgumentsAt(n: nat)
    ensures |Arguments(n)| == n
    ensures forall k :: 0 <= k < n ==> Arguments(n)[k] == k
  {
    if n > 0 {
      ArgumentsAt(n - 1);
    }
  }

  /** Slot 0 holds the receiver and slot `k + 1` holds argument `k`. */
  lemma InitialStateAt(n: nat)
    ensures |InitialState(n)| == n + 1
    ensures InitialState(n)[0] == Receiver
    ensures forall k :: 1 <= k <= n ==> InitialState(n)[k] == k - 1
  {
    ArgumentsAt(n);
  }

  /** One more parameter appends its index to the state. */
  lemma InitialStateGrows(n: nat)
    ensures InitialState(n + 1) == InitialState(n) + [n]
  {
    assert Arguments(n + 1) == Arguments(n) + [n];
  }

  lemma InitialStateIncreasing(n: nat)
    ensures StrictlyIncreasing(InitialState(n))
  {
    InitialStateAt(n);
  }

  lemma IncreasingIsDistinct(s: seq<int>)
    requires StrictlyIncreasing(s)
    ensures Distinct(s)
  {
  }

  /** No taint position occurs twice in an initial state. */
  lemma InitialStateDistinct(n: nat)
    ensures Distinct(InitialState(n))
  {
    InitialStateIncreasing(n);
    IncreasingIsDistinct(InitialState(n));
  }

  lemma InitialStateWithinParameters(n: nat)
    ensures WithinParameters(InitialState(n), n)
  {
    InitialStateAt(n);
  }

  /** A position is in the initial state exactly when it is the receiver or a declared argument. */
  lemma InitialStateMembers(n: nat, x: int)
    ensures x in InitialState(n) <==> Receiver <= x < n
  {
    InitialStateAt(n);
    if Receiver <= x < n {
      assert InitialState(n)[x + 1] == x;
    }
  }
}
