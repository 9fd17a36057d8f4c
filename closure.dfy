/**
  A counter factory: each call of the factory makes a new counter over its own
  integer cell, starting at 0; each call of a counter adds one to that cell and
  returns the new value.

  The captured variable of the original closure is the field `i` of a `Counter`
  object; the factory is the constructor `IntSeq`, and calling the returned
  function value is the method `Next`.
 */
module Closure {

  /** The values that `k` successive calls of a counter return when its cell
      holds `start` before the first of them: each call moves the cell one
      up and hands back the value it moved to. */
  function Results(start: int, k: nat): (r: seq<int>)
    ensures |r| == k
    decreases k
  {
    if k == 0 then [] else [start + 1] + Results(start + 1, k - 1)
  }

  /** The j-th of those calls (counting from 0) returns `start + j + 1`. */
  lemma {:induction false} ResultsAt(start: int, k: nat, j: nat)
    requires j < k
    ensures Results(start, k)[j] == start + j + 1
    decreases k
  {
    if j > 0 {
      ResultsAt(start + 1, k - 1, j - 1);
    }
  }

  /** One more call appends one more value, the cell's value after `k` calls plus one. */
  lemma {:induction false} ResultsSnoc(start: int, k: nat)
    ensures Results(start, k + 1) == Results(start, k) + [start + k + 1]
    decreases k
  {
    if k > 0 {
      ResultsSnoc(start + 1, k - 1);
      assert Results(start, k + 1)
          == [start + 1] + (Results(start + 1, k - 1) + [start + k + 1])
          == ([start + 1] + Results(start + 1, k - 1)) + [start + k + 1];
    }
  }

  /** On a counter fresh from the factory the k-th call returns k. */
  lemma KthCallReturnsK(k: nat)
    requires k >= 1
    ensures Results(0, k)[k - 1] == k
  {
    ResultsAt(0, k, k - 1);
  }

  /** Successive calls of one counter return strictly increasing values,
      so no value is ever returned twice. */
  lemma ResultsStrictlyIncreasing(start: int, k: nat)
    ensures forall j, l :: 0 <= j < l < k ==> Results(start, k)[j] < Results(start, k)[l]
    ensures forall j, l :: 0 <= j < k && 0 <= l < k && j != l ==> Results(start, k)[j] != Results(start, k)[l]
  {
    forall j | 0 <= j < k
      ensures Results(start, k)[j] == start + j + 1
    {
      ResultsAt(start, k, j);
    }
  }

  /** A counter: the integer cell a closure returned by the factory captures. */
  class Counter {
    /** The captured cell. */
    var i: int
    /** The values this counter's calls have returned so far, oldest first. */
    ghost var history: seq<int>

    /** The cell has been moved up once per call from 0, and the calls returned
        exactly what `Results` says. */
    ghost predicate Valid()
      reads this
    {
      i == |history| && history == Results(0, |history|)
    }

    /** The factory: a new counter whose cell holds 0 and that has not been called. */
    constructor IntSeq()
      ensures Valid()
      ensures i == 0 && history == []
    {
      i := 0;
      history := [];
    }

    /** Calling the counter: the cell goes up by exactly one and its new value is
        returned, which is the number of calls made on this counter so far. */
    method Next() returns (r: int)
      requires Valid()
      modifies this
      ensures Valid()
      ensures i == old(i) + 1 && r == i
      ensures history == old(history) + [r]
      ensures r == |history|
    {
      ResultsSnoc(0, |history|);
      i := i + 1;
      r := i;
      history := history + [r];
    }
  }

  /** Calling one counter leaves every other counter's cell and history as they were. */
  method NextLeavesOthersUnchanged(a: Counter, b: Counter) returns (r: int)
    requires a != b
    requires a.Valid() && b.Valid()
    modifies a
    ensures a.Valid() && b.Valid()
    ensures r == old(a.i) + 1
    ensures b.i == old(b.i) && b.history == old(b.history)
  {
    r := a.Next();
  }

  /** The demonstration program: three calls of one counter give 1, 2, 3, and a
      counter made afterwards still gives 1 on its first call. */
  method MainScenario() returns (first: int, second: int, third: int, fromNew: int)
    ensures first == 1 && second == 2 && third == 3
    ensures fromNew == 1
  {
    var nextInt := new Counter.IntSeq();
    first := nextInt.Next();
    second := nextInt.Next();
    third := nextInt.Next();
    var newInts := new Counter.IntSeq();
    assert newInts != nextInt;
    fromNew := newInts.Next();
    assert nextInt.history == [1, 2, 3];
  }

  /** Two counters made one after the other and called in turn: each counts
      from 1 on its own, whatever the other has done. */
  method InterleavedScenario() returns (a1: int, a2: int, b1: int, a3: int, b2: int)
    ensures a1 == 1 && a2 == 2 && a3 == 3
    ensures b1 == 1 && b2 == 2
  {
    var a := new Counter.IntSeq();
    var b := new Counter.IntSeq();
    a1 := a.Next();
    a2 := a.Next();
    b1 := b.Next();
    a3 := a.Next();
    b2 := b.Next();
  }
}
