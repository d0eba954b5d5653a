/** The simulation driver: every graphics frame advances the world by a fixed
    number of steps, each of which solves the forces on all bodies and then
    moves every body by one Euler step. */
module Simulation {
  import opened Vectors
  import opened Bodies
  import opened Forces

  /** Seconds of simulated time per step. */
  const DeltaT: int := 100

  /** Steps run between two renderings. */
  const StepsPerRender: nat := 100

  /** Every body advanced by one Euler step of length `dt`, in list order. */
  function IntegrateAll(s: seq<BodyState>, dt: real): (r: seq<BodyState>)
    requires PositiveMasses(s)
    ensures |r| == |s| && PositiveMasses(r)
  {
    seq(|s|, i requires 0 <= i < |s| => Integrate(s[i], dt))
  }

  /** One simulation step: solve the forces, then integrate every body. */
  function Step(law: Coupling, s: seq<BodyState>, dt: real): (r: seq<BodyState>)
    requires PositiveMasses(s)
    ensures |r| == |s|
    ensures forall i :: 0 <= i < |s| ==> r[i].mass == s[i].mass && r[i].radius == s[i].radius
  {
    IntegrateAll(Solve(law, s), dt)
  }

  /** The bodies after `k` steps. */
  function Run(law: Coupling, s: seq<BodyState>, dt: real, k: nat): (r: seq<BodyState>)
    requires PositiveMasses(s)
    ensures |r| == |s| && PositiveMasses(r)
    ensures forall i :: 0 <= i < |s| ==> r[i].mass == s[i].mass && r[i].radius == s[i].radius
  {
    if k == 0 then s else Step(law, Run(law, s, dt, k - 1), dt)
  }

  /** Integration changes the total momentum by dt times the total force. */
  lemma IntegrateAllMomentum(s: seq<BodyState>, dt: real)
    requires PositiveMasses(s)
    ensures TotalMomentum(IntegrateAll(s, dt)) == Add(TotalMomentum(s), Scale(dt, Sum(ForcesOf(s))))
  {
    var r := IntegrateAll(s, dt);
    SumLinear(Momenta(r), Momenta(s), ForcesOf(s), dt);
  }

  /** A force solve followed by integration keeps the total momentum: the
      solved forces sum to zero and the solve leaves velocities alone. */
  lemma StepPreservesMomentum(law: Coupling, s: seq<BodyState>, dt: real)
    requires PositiveMasses(s)
    ensures TotalMomentum(Step(law, s, dt)) == TotalMomentum(s)
  {
    var solved := Solve(law, s);
    SolveKeepsMomenta(law, s);
    SolveBalanced(law, s);
    IntegrateAllMomentum(solved, dt);
    assert Scale(dt, Sum(ForcesOf(solved))) == Zero;
  }

  /** A force solve leaves masses and velocities, hence momenta, alone. */
  lemma SolveKeepsMomenta(law: Coupling, s: seq<BodyState>)
    requires PositiveMasses(s)
    ensures PositiveMasses(Solve(law, s))
    ensures Momenta(Solve(law, s)) == Momenta(s)
  {
    var solved := Solve(law, s);
    assert forall i :: 0 <= i < |s| ==> Momenta(solved)[i] == Momentum(s[i]);
  }


  /** Any number of steps keeps the total momentum. */
  lemma {:induction false} RunPreservesMomentum(law: Coupling, s: seq<BodyState>, dt: real, k: nat)
    requires PositiveMasses(s)
    ensures TotalMomentum(Run(law, s, dt, k)) == TotalMomentum(s)
  {
    if k > 0 {
      RunPreservesMomentum(law, s, dt, k - 1);
      StepPreservesMomentum(law, Run(law, s, dt, k - 1), dt);
    }
  }

  /** A lone body feels no force: it moves on a straight line at constant velocity. */
  lemma LoneBodyDrifts(law: Coupling, s: seq<BodyState>, dt: real)
    requires |s| == 1 && PositiveMasses(s)
    ensures Step(law, s, dt)[0].pos == Add(s[0].pos, Scale(dt, s[0].vel))
    ensures Step(law, s, dt)[0].vel == s[0].vel
  {
    FewBodiesNoForce(law, s);
    assert Solve(law, s)[0].force == Zero;
  }

  /** The inner loop of a step: every body takes one Euler step, in list order. */
  method UpdateStates(objects: seq<Body>, dt: real)
    requires Distinct(objects) && PositiveMasses(States(objects))
    modifies set b | b in objects
    ensures States(objects) == IntegrateAll(old(States(objects)), dt)
  {
    ghost var s := States(objects);
    for k := 0 to |objects|
      invariant forall j :: 0 <= j < k ==> objects[j].State() == Integrate(s[j], dt)
      invariant forall j :: k <= j < |objects| ==> objects[j].State() == s[j]
    {
      objects[k].UpdateState(dt);
      assert forall j :: 0 <= j < |objects| && j != k ==> objects[j] != objects[k];
    }
  }

  /** One simulation step on the bodies in place: solve the forces, then
      integrate every body. */
  method StepBodies(objects: seq<Body>, law: Coupling, dt: real)
    requires DistinctPositions(States(objects)) && PositiveMasses(States(objects))
    modifies set b | b in objects
    ensures States(objects) == Step(law, old(States(objects)), dt)
  {
    ghost var s := States(objects);
    DistinctPositionsDistinct(objects, s);
    CalculateForces(objects, law);
    UpdateStates(objects, dt);
  }

  /** The states stay apart at each of the first `k` steps. */
  predicate ApartFor(law: Coupling, s: seq<BodyState>, dt: real, k: nat)
    requires PositiveMasses(s)
  {
    forall j :: 0 <= j < k ==> DistinctPositions(Run(law, s, dt, j))
  }

  /** The simulation state of the main widget: its clock and its bodies. */
  class MainWidget {
    /** Simulated seconds since the start. */
    var time: int
    const objects: seq<Body>
    const law: Coupling

    /** Every body has a positive mass: integration divides by it. */
    predicate Valid()
    {
      forall i :: 0 <= i < |objects| ==> objects[i].mass > 0.0
    }

    constructor (objects: seq<Body>, law: Coupling)
      requires forall i :: 0 <= i < |objects| ==> objects[i].mass > 0.0
      ensures Valid()
      ensures time == 0 && this.objects == objects && this.law == law
    {
      time := 0;
      this.objects := objects;
      this.law := law;
    }

    /** One graphics frame's worth of simulation: StepsPerRender steps of
        DeltaT seconds each. No two bodies may coincide at any step, as the
        force solve divides by their distance. */
    method OnUpdate()
      requires Valid()
      requires ApartFor(law, States(objects), DeltaT as real, StepsPerRender)
      modifies this, set b | b in objects
      ensures time == old(time) + StepsPerRender * DeltaT
      ensures States(objects) == Run(law, old(States(objects)), DeltaT as real, StepsPerRender)
      ensures TotalMomentum(States(objects)) == TotalMomentum(old(States(objects)))
    {
      var dt := DeltaT;
      ghost var s0 := States(objects);
      // no body is the widget itself, so advancing the clock leaves every body alone
      assert forall i :: 0 <= i < |objects| ==> objects[i] as object != this as object;
      for step := 0 to StepsPerRender
        invariant time == old(time) + step * dt
        invariant States(objects) == Run(law, s0, dt as real, step)
      {
        ghost var cur := States(objects);
        time := time + dt;
        assert States(objects) == cur;
        assert DistinctPositions(Run(law, s0, dt as real, step));
        StepBodies(objects, law, dt as real);
        assert Run(law, s0, dt as real, step + 1) == Step(law, Run(law, s0, dt as real, step), dt as real);
      }
      RunPreservesMomentum(law, s0, dt as real, StepsPerRender);
    }
  }
}
