/** Sums of a natural-number weight over a finite sequence of threads. */
module Tally {

  function Sum<T>(items: seq<T>, weight: T -> nat): nat {
    if items == [] then 0 else weight(items[0]) + Sum(items[1..], weight)
  }

  lemma {:induction false} SumUpdate<T>(items: seq<T>, i: nat, x: T, weight: T -> nat)
    requires i < |items|
    ensures Sum(items[i := x], weight) + weight(items[i]) == Sum(items, weight) + weight(x)
  {
    if i == 0 {
      assert items[i := x][1..] == items[1..];
    } else {
      assert items[i := x][1..] == items[1..][i - 1 := x];
      SumUpdate(items[1..], i - 1, x, weight);
    }
  }

  lemma {:induction false} SumAppend<T>(items: seq<T>, x: T, weight: T -> nat)
    ensures Sum(items + [x], weight) == Sum(items, weight) + weight(x)
  {
    if items == [] {
      assert items + [x] == [x];
    } else {
      assert (items + [x])[1..] == items[1..] + [x];
      SumAppend(items[1..], x, weight);
    }
  }

  lemma {:induction false} SumBoundsItem<T>(items: seq<T>, i: nat, weight: T -> nat)
    requires i < |items|
    ensures weight(items[i]) <= Sum(items, weight)
  {
    if i != 0 {
      SumBoundsItem(items[1..], i - 1, weight);
    }
  }

  lemma {:induction false} SumBoundsPair<T>(items: seq<T>, i: nat, j: nat, weight: T -> nat)
    requires i < j < |items|
    ensures weight(items[i]) + weight(items[j]) <= Sum(items, weight)
  {
    if i == 0 {
      SumBoundsItem(items[1..], j - 1, weight);
    } else {
      SumBoundsPair(items[1..], i - 1, j - 1, weight);
    }
  }

  lemma {:induction false} SumZero<T>(items: seq<T>, weight: T -> nat)
    requires forall i :: 0 <= i < |items| ==> weight(items[i]) == 0
    ensures Sum(items, weight) == 0
  {
    if items != [] {
      SumZero(items[1..], weight);
    }
  }

  /** A positive sum has a positive term. */
  lemma {:induction false} SumPositive<T>(items: seq<T>, weight: T -> nat) returns (i: nat)
    requires Sum(items, weight) > 0
    ensures i < |items| && weight(items[i]) > 0
  {
    if weight(items[0]) > 0 {
      i := 0;
    } else {
      var k := SumPositive(items[1..], weight);
      i := k + 1;
    }
  }

  lemma {:induction false} SumMonotone<T>(items: seq<T>, small: T -> nat, large: T -> nat)
    requires forall i :: 0 <= i < |items| ==> small(items[i]) <= large(items[i])
    ensures Sum(items, small) <= Sum(items, large)
  {
    if items != [] {
      SumMonotone(items[1..], small, large);
    }
  }
}
