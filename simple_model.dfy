/**
  The constant-coefficient SEIR model (simplemodel.py): the constants derived
  from the hyperparameters, and the right-hand side `sim` handed to the
  solver. Python's `None` is `Option.None`; arithmetic is over the reals.
  The closure variables of `sim` are explicit parameters.
 */
module SimpleModel {
  import opened Wrappers
  import opened Compartments

  /** The incubation rate alpha, the transmission rate beta and the recovery rate gamma. */
  datatype Consts = Consts(alpha: real, beta: real, gamma: real)

  /** The state the solver passes in: susceptible, exposed, infected, recovered. */
  datatype State4 = State4(s: real, e: real, i: real, r: real)

  datatype SimError =
    | MissingHyperparameter      // `get_consts` called without one of its arguments
    | ZeroDivision               // a period of 0 in `get_consts`
    | MissingSimulationConstant  // `sim` run while a constant is None

  /**
    `get_consts`: alpha and gamma are the reciprocals of the incubation and
    infection periods, beta is R0 times gamma.
   */
  function GetConsts(incub: Option<real>, infec: Option<real>, r0: Option<real>): (r: Result<Consts, SimError>)
    ensures r == Err(MissingHyperparameter) <==> incub.None? || infec.None? || r0.None?
    ensures r == Err(ZeroDivision) <==>
      incub.Some? && infec.Some? && r0.Some? && (incub.value == 0.0 || infec.value == 0.0)
    ensures r.Ok? <==> incub.Some? && infec.Some? && r0.Some? && incub.value != 0.0 && infec.value != 0.0
    ensures r.Ok? ==> && incub.Some? && infec.Some? && r0.Some?
                      && r.value.alpha * incub.value == 1.0
                      && r.value.gamma * infec.value == 1.0
                      && r.value.beta == r0.value * r.value.gamma
  {
    if incub.None? || infec.None? || r0.None? then Err(MissingHyperparameter)
    else if incub.value == 0.0 || infec.value == 0.0 then Err(ZeroDivision)
    else
      var alpha := 1.0 / incub.value;
      var gamma := 1.0 / infec.value;
      Ok(Consts(alpha, r0.value * gamma, gamma))
  }

  /** beta times the infection period is R0: the constants determine R0 back. */
  lemma GetConstsRecoversR0(incub: real, infec: real, r0: real)
    requires incub != 0.0 && infec != 0.0
    ensures GetConsts(Some(incub), Some(infec), Some(r0)).Ok?
    ensures GetConsts(Some(incub), Some(infec), Some(r0)).value.beta * infec == r0
  {
  }

  /** Conversely, any constants with non-zero alpha and gamma come from the periods 1/alpha, 1/gamma and R0 = beta/gamma. */
  lemma GetConstsInverse(alpha: real, beta: real, gamma: real)
    requires alpha != 0.0 && gamma != 0.0
    ensures GetConsts(Some(1.0 / alpha), Some(1.0 / gamma), Some(beta / gamma)) == Ok(Consts(alpha, beta, gamma))
  {
    var r := GetConsts(Some(1.0 / alpha), Some(1.0 / gamma), Some(beta / gamma));
    assert 1.0 / (1.0 / alpha) == alpha;
    assert 1.0 / (1.0 / gamma) == gamma;
    assert r.value.beta == beta / gamma * gamma;
  }

  /** The hard-coded hyperparameters 5.1, 3.3 and 2.4 give alpha 10/51, beta 8/11 and gamma 10/33. */
  lemma HardCodedConsts()
    ensures GetConsts(Some(5.1), Some(3.3), Some(2.4)) == Ok(Consts(10.0 / 51.0, 8.0 / 11.0, 10.0 / 33.0))
  {
  }

  /** The three flows of the SEIR system between S=0, E=1, I=2, R=3. */
  function SeirFlows(alpha: real, beta: real, gamma: real, u: real, x: State4): seq<Flow>
  {
    [Flow(0, 1, (1.0 - u) * beta * x.s * x.i), Flow(1, 2, alpha * x.e), Flow(2, 3, gamma * x.i)]
  }

  /**
    `sim`: the derivatives `[dS, dE, dI, dR]` of the SEIR system with the
    intervention factor `u` damping transmission; the time `t` is unused.
   */
  function Sim(alpha: Option<real>, beta: Option<real>, gamma: Option<real>, u: Option<real>,
               x: State4, t: real): (r: Result<seq<real>, SimError>)
    ensures r.Err? <==> alpha.None? || beta.None? || gamma.None? || u.None?
    ensures r.Err? ==> r.error == MissingSimulationConstant
    ensures r.Ok? ==> |r.value| == 4 && Sum(r.value) == 0.0
  {
    if alpha.None? || beta.None? || gamma.None? || u.None? then Err(MissingSimulationConstant)
    else
      var a, b, g, w := alpha.value, beta.value, gamma.value, u.value;
      var dx := [-(1.0 - w) * b * x.s * x.i,
                 (1.0 - w) * b * x.s * x.i - a * x.e,
                 a * x.e - g * x.i,
                 g * x.i];
      SimIsFlowNetwork(a, b, g, w, x, dx);
      Ok(dx)
  }

  /**
    The SEIR derivatives are the flow network S->E->I->R: the infection flow
    leaves S and enters E, the progression flow leaves E and enters I, the
    recovery flow leaves I and enters R, each with one magnitude.
   */
  lemma SimIsFlowNetwork(alpha: real, beta: real, gamma: real, u: real, x: State4, dx: seq<real>)
    requires dx == [-(1.0 - u) * beta * x.s * x.i,
                    (1.0 - u) * beta * x.s * x.i - alpha * x.e,
                    alpha * x.e - gamma * x.i,
                    gamma * x.i]
    ensures FlowsWithin(4, SeirFlows(alpha, beta, gamma, u, x))
    ensures dx == FlowRhs(4, SeirFlows(alpha, beta, gamma, u, x))
    ensures Sum(dx) == 0.0
  {
    var flows := SeirFlows(alpha, beta, gamma, u, x);
    var v0 := seq(4, _ => 0.0);
    assert flows[..0] == [];
    var v1 := Transfer(v0, flows[0]);
    assert flows[..1][..0] == [];
    assert FlowRhs(4, flows[..1]) == v1;
    var v2 := Transfer(v1, flows[1]);
    assert flows[..2][..1] == flows[..1];
    assert FlowRhs(4, flows[..2]) == v2;
    var v3 := Transfer(v2, flows[2]);
    assert flows[..3][..2] == flows[..2];
    assert flows[..3] == flows;
    assert FlowRhs(4, flows) == v3;
    assert v3[0] == dx[0];
    assert v3[1] == dx[1];
    assert v3[2] == dx[2];
    assert v3[3] == dx[3];
    FlowRhsConserves(4, flows);
  }

  /** With every constant given, `sim` is the SEIR flow network. */
  lemma SimFlows(alpha: real, beta: real, gamma: real, u: real, x: State4, t: real)
    ensures FlowsWithin(4, SeirFlows(alpha, beta, gamma, u, x))
    ensures Sim(Some(alpha), Some(beta), Some(gamma), Some(u), x, t)
            == Ok(FlowRhs(4, SeirFlows(alpha, beta, gamma, u, x)))
  {
    var dx := [-(1.0 - u) * beta * x.s * x.i,
               (1.0 - u) * beta * x.s * x.i - alpha * x.e,
               alpha * x.e - gamma * x.i,
               gamma * x.i];
    SimIsFlowNetwork(alpha, beta, gamma, u, x, dx);
    var r := Sim(Some(alpha), Some(beta), Some(gamma), Some(u), x, t);
    assert r.Ok?;
    assert |r.value| == 4;
    assert r.value[0] == dx[0] && r.value[1] == dx[1];
    assert r.value[2] == dx[2] && r.value[3] == dx[3];
  }
}
