/**
  Daily-difference tables of the archived SEIRD model (`calc_deltas`).

  Each compartment series X becomes `[0] + [X[i] - X[i-1] for i in 1..len(X)-1]`.
  `Integrate` is its inverse: the series is recovered from its first value and
  the running sums of the differences.
 */
module Series {

  /** The first-difference table of `x`, with the day-0 difference defined as 0. */
  function Deltas(x: seq<int>): (d: seq<int>)
    ensures |d| == if |x| == 0 then 1 else |x|
    ensures d[0] == 0
    ensures forall k :: 1 <= k < |x| ==> d[k] == x[k] - x[k - 1]
  {
    if |x| == 0 then [0]
    else [0] + seq(|x| - 1, k requires 0 <= k < |x| - 1 => x[k + 1] - x[k])
  }

  /** The sum of the difference entries 1..k of `d`. */
  function SumRange(d: seq<int>, k: nat): int
    requires k < |d|
  {
    if k == 0 then 0 else SumRange(d, k - 1) + d[k]
  }

  /** The series that starts at `x0` and moves by `d[k]` on day k. */
  function Integrate(x0: int, d: seq<int>): (x: seq<int>)
    ensures |x| == |d|
  {
    seq(|d|, k requires 0 <= k < |d| => x0 + SumRange(d, k))
  }

  /** Telescoping: the first value plus the differences up to day k is day k's value. */
  lemma {:induction false} DeltasTelescope(x: seq<int>, k: nat)
    requires k < |x|
    ensures x[0] + SumRange(Deltas(x), k) == x[k]
  {
    if k > 0 {
      DeltasTelescope(x, k - 1);
    }
  }

  /** A non-empty series is recovered from its difference table and its first value. */
  lemma IntegrateDeltas(x: seq<int>)
    requires |x| > 0
    ensures Integrate(x[0], Deltas(x)) == x
  {
    forall k | 0 <= k < |x|
      ensures Integrate(x[0], Deltas(x))[k] == x[k]
    {
      DeltasTelescope(x, k);
    }
  }

  /** Conversely, a difference table whose day-0 entry is 0 is the table of its integral. */
  lemma DeltasIntegrate(x0: int, d: seq<int>)
    requires |d| > 0 && d[0] == 0
    ensures Integrate(x0, d)[0] == x0
    ensures Deltas(Integrate(x0, d)) == d
  {
    var x := Integrate(x0, d);
    forall k | 1 <= k < |d|
      ensures Deltas(x)[k] == d[k]
    {
      assert x[k] == x0 + SumRange(d, k);
      assert x[k - 1] == x0 + SumRange(d, k - 1);
    }
  }
}
