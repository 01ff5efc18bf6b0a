/**
  The archived time-dependent SEIRD model (`SEIRDModel` in archivedcomplexmodel.py).

  The model keeps the observed series and their daily-difference tables.
  On every evaluation of the right-hand side it clamps the solver's time to a
  day of the tables, derives that day's rates alpha, beta, gamma and delta from
  the observed differences and the current state, and evaluates the SEIRD
  equations with them. Arithmetic is over the reals.
 */
module ArchivedModel {
  import opened Wrappers
  import opened Compartments
  import opened Series

  /** The state the solver passes in: susceptible, exposed, infected, recovered, deceased. */
  datatype State5 = State5(s: real, e: real, i: real, r: real, d: real)

  /** Per-day rates of the SEIRD equations. */
  datatype Rates = Rates(alpha: real, beta: real, gamma: real, delta: real)

  datatype ModelError =
    | IndexError     // a Python list index out of range
    | UndefinedRate  // a rate or derivative would divide by zero

  /** Python's `int(t)`: truncation toward zero. */
  function Trunc(t: real): (k: int)
    ensures 0.0 <= t ==> k as real <= t < k as real + 1.0
    ensures t < 0.0 ==> t <= k as real < t + 1.0
    ensures t.Floor <= k
  {
    if t >= 0.0 then t.Floor else -((-t).Floor)
  }

  /** The day index used for solver time `t` against a table of `n` days. */
  function ClampIndex(t: real, n: int): int
  {
    if t < n as real then Trunc(t) else n - 1
  }

  /** For a non-negative time the clamped day is floor(t) inside the table, else the last day. */
  lemma ClampIndexInRange(t: real, n: int)
    requires 0.0 <= t && 0 < n
    ensures 0 <= ClampIndex(t, n) < n
    ensures t < n as real ==> ClampIndex(t, n) == t.Floor
    ensures n as real <= t ==> ClampIndex(t, n) == n - 1
  {
  }

  /** Python list indexing: negative indices count from the end, others fail. */
  function PyIndex(xs: seq<int>, k: int): (v: Option<int>)
    ensures v.Some? <==> -|xs| <= k < |xs|
    ensures v.Some? ==> v.value == xs[k % |xs|]
  {
    if 0 <= k < |xs| then Some(xs[k])
    else if -|xs| <= k < 0 then Some(xs[|xs| + k])
    else None
  }

  /** A non-negative index inside the list reads that element. */
  lemma PyIndexInRange(xs: seq<int>, k: int)
    requires 0 <= k < |xs|
    ensures PyIndex(xs, k) == Some(xs[k])
  {
  }

  /**
    The day's rates derived from the observed differences: each rate is the
    one that reproduces the observed change of its compartment.
   */
  function TimeRates(n: real, x: State5, de: real, di: real, dr: real, dd: real): (q: Rates)
    requires x.e != 0.0 && x.s != 0.0 && x.i != 0.0
    ensures q.alpha * x.e == di + dr + dd
    ensures q.beta * x.s * x.i == (de + di + dr + dd) * n
    ensures q.gamma * x.i == dr
    ensures q.delta * x.i == dd
  {
    Rates((di + dr + dd) / x.e, (de + di + dr + dd) * n / (x.s * x.i), dr / x.i, dd / x.i)
  }

  /** The four flows of the SEIRD equations between S=0, E=1, I=2, R=3, D=4. */
  function SeirdFlows(n: real, x: State5, q: Rates): seq<Flow>
    requires n != 0.0
  {
    [Flow(0, 1, q.beta * x.s * x.i / n), Flow(1, 2, q.alpha * x.e),
     Flow(2, 3, q.gamma * x.i), Flow(2, 4, q.delta * x.i)]
  }

  /** The SEIRD right-hand side `[dS, dE, dI, dR, dD]` for population `n` and rates `q`. */
  function SeirdRhs(n: real, x: State5, q: Rates): (v: seq<real>)
    requires n != 0.0
    ensures |v| == 5
    ensures Sum(v) == 0.0
  {
    var v := [-(q.beta * x.s * x.i) / n,
              (q.beta * x.s * x.i) / n - q.alpha * x.e,
              q.alpha * x.e - q.gamma * x.i - q.delta * x.i,
              q.gamma * x.i,
              q.delta * x.i];
    SeirdRhsIsFlowNetwork(n, x, q, v);
    v
  }

  /** The SEIRD equations are exactly the flow network S->E->I->{R, D}. */
  lemma SeirdRhsIsFlowNetwork(n: real, x: State5, q: Rates, v: seq<real>)
    requires n != 0.0
    requires v == [-(q.beta * x.s * x.i) / n,
                   (q.beta * x.s * x.i) / n - q.alpha * x.e,
                   q.alpha * x.e - q.gamma * x.i - q.delta * x.i,
                   q.gamma * x.i,
                   q.delta * x.i]
    ensures FlowsWithin(5, SeirdFlows(n, x, q))
    ensures v == FlowRhs(5, SeirdFlows(n, x, q))
    ensures Sum(v) == 0.0
  {
    var flows := SeirdFlows(n, x, q);
    var v0 := seq(5, _ => 0.0);
    assert flows[..0] == [];
    var v1 := Transfer(v0, flows[0]);
    assert flows[..1][..0] == [];
    assert FlowRhs(5, flows[..1]) == v1;
    var v2 := Transfer(v1, flows[1]);
    assert flows[..2][..1] == flows[..1];
    assert FlowRhs(5, flows[..2]) == v2;
    var v3 := Transfer(v2, flows[2]);
    assert flows[..3][..2] == flows[..2];
    assert FlowRhs(5, flows[..3]) == v3;
    var v4 := Transfer(v3, flows[3]);
    assert flows[..4][..3] == flows[..3];
    assert flows[..4] == flows;
    assert FlowRhs(5, flows) == v4;
    assert -(q.beta * x.s * x.i) / n == 0.0 - q.beta * x.s * x.i / n;
    assert v4[0] == v[0];
    assert v4[1] == v[1];
    assert v4[2] == v[2];
    assert v4[3] == v[3];
    assert v4[4] == v[4];
    assert v4 == v;
    FlowRhsConserves(5, flows);
  }

  /**
    With the day's rates derived from the observed differences, the derivative
    vector is exactly the observed change `[-(de+di+dr+dd), de, di, dr, dd]`.
   */
  lemma {:induction false} TimeRatesReproduceObserved(n: real, x: State5, de: real, di: real, dr: real, dd: real)
    requires x.e != 0.0 && x.s != 0.0 && x.i != 0.0 && n != 0.0
    ensures SeirdRhs(n, x, TimeRates(n, x, de, di, dr, dd)) == [-(de + di + dr + dd), de, di, dr, dd]
  {
    var q := TimeRates(n, x, de, di, dr, dd);
    var inflow := de + di + dr + dd;
    assert q.beta * x.s * x.i == inflow * n;
    assert q.beta * x.s * x.i / n == inflow;
    assert -(q.beta * x.s * x.i) / n == -inflow;
    var v := SeirdRhs(n, x, q);
    assert v[0] == -inflow;
    assert v[1] == de;
    assert v[2] == di;
    assert v[3] == dr;
    assert v[4] == dd;
  }

  class SEIRDModel {
    var N: int
    var S: seq<int>
    var E: seq<int>
    var I: seq<int>
    var R: seq<int>
    var D: seq<int>
    var SDiff: seq<int>
    var EDiff: seq<int>
    var IDiff: seq<int>
    var RDiff: seq<int>
    var DDiff: seq<int>

    /** The difference tables are those of the current series. */
    ghost predicate Valid()
      reads this
    {
      SDiff == Deltas(S) && EDiff == Deltas(E) && IDiff == Deltas(I)
      && RDiff == Deltas(R) && DDiff == Deltas(D)
    }

    constructor (population: int, susceptible: seq<int>, tested: seq<int>,
                 confirmed: seq<int>, recovered: seq<int>, deceased: seq<int>)
      ensures N == population && S == susceptible && E == tested
      ensures I == confirmed && R == recovered && D == deceased
      ensures Valid()
    {
      N := population;
      S, E, I, R := susceptible, tested, confirmed, recovered;
      D := deceased;
      new;
      CalcDeltas();
    }

    /** Recompute all daily-difference tables from the series. */
    method CalcDeltas()
      modifies this`SDiff, this`EDiff, this`IDiff, this`RDiff, this`DDiff
      ensures Valid()
    {
      SDiff := Deltas(S);
      EDiff := Deltas(E);
      IDiff := Deltas(I);
      RDiff := Deltas(R);
      DDiff := Deltas(D);
    }

    /**
      The right-hand side at state `vals` and solver time `t`: the clamped day's
      differences give the rates, the rates give `[dS, dE, dI, dR, dD]`.
     */
    function Differentials(vals: State5, t: real): (r: Result<seq<real>, ModelError>)
      reads this
      ensures r.Ok? ==> |r.value| == 5 && Sum(r.value) == 0.0
      ensures r.Ok? ==> vals.s != 0.0 && vals.e != 0.0 && vals.i != 0.0 && N != 0
    {
      var k := ClampIndex(t, |EDiff|);
      var de, di, dr, dd := PyIndex(EDiff, k), PyIndex(IDiff, k), PyIndex(RDiff, k), PyIndex(DDiff, k);
      if de.None? || di.None? || dr.None? || dd.None? then Err(IndexError)
      else if vals.e == 0.0 || vals.s == 0.0 || vals.i == 0.0 || N == 0 then Err(UndefinedRate)
      else
        var q := TimeRates(N as real, vals, de.value as real, di.value as real,
                           dr.value as real, dd.value as real);
        Ok(SeirdRhs(N as real, vals, q))
    }
  }

  /** Series of one common length, as `loadData` produces them. */
  ghost predicate Aligned(m: SEIRDModel)
    reads m
  {
    |m.E| == |m.I| == |m.R| == |m.D|
  }

  /** The observed change `[-(de+di+dr+dd), de, di, dr, dd]` of day k of the tables. */
  function ObservedChange(m: SEIRDModel, k: int): seq<real>
    reads m
    requires 0 <= k < |m.EDiff| == |m.IDiff| == |m.RDiff| == |m.DDiff|
  {
    var de, di, dr, dd := m.EDiff[k] as real, m.IDiff[k] as real, m.RDiff[k] as real, m.DDiff[k] as real;
    [-(de + di + dr + dd), de, di, dr, dd]
  }

  /** Tables of one length: a non-negative time and non-zero denominators give the clamped day's change. */
  lemma DifferentialsAtDay(m: SEIRDModel, vals: State5, t: real)
    requires 0 < |m.EDiff| == |m.IDiff| == |m.RDiff| == |m.DDiff|
    requires 0.0 <= t
    requires vals.s != 0.0 && vals.e != 0.0 && vals.i != 0.0 && m.N != 0
    ensures var k := ClampIndex(t, |m.EDiff|);
      0 <= k < |m.EDiff| && m.Differentials(vals, t) == Ok(ObservedChange(m, k))
  {
    var k := ClampIndex(t, |m.EDiff|);
    ClampIndexInRange(t, |m.EDiff|);
    var de, di, dr, dd := m.EDiff[k] as real, m.IDiff[k] as real, m.RDiff[k] as real, m.DDiff[k] as real;
    PyIndexInRange(m.EDiff, k);
    PyIndexInRange(m.IDiff, k);
    PyIndexInRange(m.RDiff, k);
    PyIndexInRange(m.DDiff, k);
    assert m.Differentials(vals, t) == Ok(SeirdRhs(m.N as real, vals, TimeRates(m.N as real, vals, de, di, dr, dd)));
    TimeRatesReproduceObserved(m.N as real, vals, de, di, dr, dd);
  }

  /** For aligned series and a non-negative time, a zero denominator is reported, never an index error. */
  lemma DifferentialsUndefined(m: SEIRDModel, vals: State5, t: real)
    requires m.Valid() && Aligned(m)
    requires 0.0 <= t
    requires vals.s == 0.0 || vals.e == 0.0 || vals.i == 0.0 || m.N == 0
    ensures m.Differentials(vals, t) == Err(UndefinedRate)
  {
  }

  /** Series that keep S + E + I + R + D == N on every day, as `loadData` produces them. */
  ghost predicate Conserved(m: SEIRDModel)
    reads m
  {
    && |m.S| == |m.E| == |m.I| == |m.R| == |m.D|
    && forall k :: 0 <= k < |m.S| ==> m.S[k] + m.E[k] + m.I[k] + m.R[k] + m.D[k] == m.N
  }

  /** When five series add up to n on every day, the S table is minus the sum of the others. */
  lemma ConservedDeltas(s: seq<int>, e: seq<int>, i: seq<int>, r: seq<int>, d: seq<int>, n: int, k: nat)
    requires |s| == |e| == |i| == |r| == |d|
    requires forall j :: 0 <= j < |s| ==> s[j] + e[j] + i[j] + r[j] + d[j] == n
    requires k < |Deltas(s)|
    ensures Deltas(s)[k] == -(Deltas(e)[k] + Deltas(i)[k] + Deltas(r)[k] + Deltas(d)[k])
  {
  }

  /** For conserved series a day's observed change is that day's entry of every table. */
  lemma ObservedChangeIsTables(m: SEIRDModel, k: int)
    requires m.Valid() && Conserved(m)
    requires 0 <= k < |m.SDiff|
    ensures |m.EDiff| == |m.IDiff| == |m.RDiff| == |m.DDiff| == |m.SDiff|
    ensures ObservedChange(m, k)
         == [m.SDiff[k] as real, m.EDiff[k] as real, m.IDiff[k] as real, m.RDiff[k] as real, m.DDiff[k] as real]
  {
    ConservedDeltas(m.S, m.E, m.I, m.R, m.D, m.N, k);
    var ds, de, di, dr, dd := m.SDiff[k], m.EDiff[k], m.IDiff[k], m.RDiff[k], m.DDiff[k];
    assert ds == -(de + di + dr + dd);
    assert ds as real == -(de as real + di as real + dr as real + dd as real);
  }

  /**
    For conserved series the right-hand side reproduces every observed table,
    S included: it is `[S_diff, E_diff, I_diff, R_diff, D_diff]` at the clamped day.
   */
  lemma DifferentialsMatchTables(m: SEIRDModel, vals: State5, t: real)
    requires m.Valid() && Conserved(m)
    requires 0.0 <= t
    requires vals.s != 0.0 && vals.e != 0.0 && vals.i != 0.0 && m.N != 0
    ensures var k := ClampIndex(t, |m.EDiff|);
      && 0 <= k < |m.SDiff|
      && m.Differentials(vals, t)
         == Ok([m.SDiff[k] as real, m.EDiff[k] as real, m.IDiff[k] as real,
                m.RDiff[k] as real, m.DDiff[k] as real])
  {
    assert |m.EDiff| == |m.IDiff| == |m.RDiff| == |m.DDiff| == |m.SDiff|;
    DifferentialsAtDay(m, vals, t);
    ObservedChangeIsTables(m, ClampIndex(t, |m.EDiff|));
  }

  /** Past the end of the tables every time uses the last day's rates. */
  lemma DifferentialsPastEnd(m: SEIRDModel, vals: State5, t: real)
    requires |m.EDiff| as real <= t
    ensures m.Differentials(vals, t) == m.Differentials(vals, (|m.EDiff| - 1) as real)
  {
  }
}
