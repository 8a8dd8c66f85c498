/**
 * OrderBySolutionErrorAsc: holders ordered by the error of their best solution.
 * Guava's Ordering.min and Ordering.max scan left to right and keep the earlier
 * element on a tie, so both pick the FIRST extremal element; the model works on
 * the sequence of errors and returns that element's index.
 */
module Ordering {

  /** Index of the first element of minimal value. */
  function ArgMin(xs: seq<real>): (k: nat)
    requires |xs| > 0
    ensures k < |xs|
    ensures forall j :: 0 <= j < |xs| ==> xs[k] <= xs[j]
    ensures forall j :: 0 <= j < k ==> xs[k] < xs[j]
    decreases |xs|
  {
    if |xs| == 1 then 0
    else
      var k := ArgMin(xs[..|xs| - 1]);
      if xs[k] <= xs[|xs| - 1] then k else |xs| - 1
  }

  /** Index of the first element of maximal value. */
  function ArgMax(xs: seq<real>): (k: nat)
    requires |xs| > 0
    ensures k < |xs|
    ensures forall j :: 0 <= j < |xs| ==> xs[j] <= xs[k]
    ensures forall j :: 0 <= j < k ==> xs[j] < xs[k]
    decreases |xs|
  {
    if |xs| == 1 then 0
    else
      var k := ArgMax(xs[..|xs| - 1]);
      if xs[k] >= xs[|xs| - 1] then k else |xs| - 1
  }
}
