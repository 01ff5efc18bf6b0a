/**
  Compartmental right-hand sides seen as flow networks.

  A compartmental ODE right-hand side moves population between compartments:
  each flow takes `amount` out of one compartment and puts it into another.
  This module gives that reading as an independent reference definition,
  against which the SEIRD and SEIR right-hand sides are checked, and proves
  once that every such network conserves total population.
 */
module Compartments {

  /** Sum of a vector of derivatives. */
  function Sum(v: seq<real>): real
  {
    if v == [] then 0.0 else v[0] + Sum(v[1..])
  }

  /** Replacing one entry changes the sum by exactly the difference. */
  lemma {:induction false} SumUpdate(v: seq<real>, j: nat, x: real)
    requires j < |v|
    ensures Sum(v[j := x]) == Sum(v) - v[j] + x
  {
    if j > 0 {
      SumUpdate(v[1..], j - 1, x);
      assert v[j := x][1..] == v[1..][j - 1 := x];
    } else {
      assert v[j := x][1..] == v[1..];
    }
  }

  lemma {:induction false} SumZeros(n: nat)
    ensures Sum(seq(n, _ => 0.0)) == 0.0
  {
    if n > 0 {
      assert seq(n, _ => 0.0)[1..] == seq(n - 1, _ => 0.0);
      SumZeros(n - 1);
    }
  }

  /** `amount` per unit time leaves compartment `source` and enters `target`. */
  datatype Flow = Flow(source: nat, target: nat, amount: real)

  predicate FlowsWithin(n: nat, flows: seq<Flow>)
  {
    forall f :: f in flows ==> f.source < n && f.target < n
  }

  /** Apply one flow to a derivative vector. */
  function Transfer(v: seq<real>, f: Flow): (w: seq<real>)
    requires f.source < |v| && f.target < |v|
    ensures |w| == |v|
  {
    var drained := v[f.source := v[f.source] - f.amount];
    drained[f.target := drained[f.target] + f.amount]
  }

  /** The derivative vector of `n` compartments under `flows`, applied in order. */
  function FlowRhs(n: nat, flows: seq<Flow>): (v: seq<real>)
    requires FlowsWithin(n, flows)
    ensures |v| == n
    decreases |flows|
  {
    if flows == [] then seq(n, _ => 0.0)
    else
      var last := flows[|flows| - 1];
      assert last in flows;
      Transfer(FlowRhs(n, flows[..|flows| - 1]), last)
  }

  /** Every flow network conserves total population: its derivatives sum to zero. */
  lemma {:induction false} FlowRhsConserves(n: nat, flows: seq<Flow>)
    requires FlowsWithin(n, flows)
    ensures Sum(FlowRhs(n, flows)) == 0.0
    decreases |flows|
  {
    if flows == [] {
      SumZeros(n);
    } else {
      var init, last := flows[..|flows| - 1], flows[|flows| - 1];
      assert last in flows;
      assert FlowsWithin(n, init);
      var v := FlowRhs(n, init);
      FlowRhsConserves(n, init);
      var v1 := v[last.source := v[last.source] - last.amount];
      SumUpdate(v, last.source, v[last.source] - last.amount);
      assert Sum(v1) == 0.0 - last.amount;
      SumUpdate(v1, last.target, v1[last.target] + last.amount);
      assert FlowRhs(n, flows) == Transfer(v, last) == v1[last.target := v1[last.target] + last.amount];
    }
  }
}
