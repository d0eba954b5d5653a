/** A celestial body: kinematic state, constant mass and radius, and the force
    last assigned by the force solver; advanced by one explicit Euler step. */
module Bodies {
  import opened Vectors

  /** The value of a body's fields at one moment. */
  datatype BodyState = BodyState(pos: Vec2, vel: Vec2, mass: real, radius: real, force: Vec2)

  function Momentum(b: BodyState): Vec2 { Scale(b.mass, b.vel) }

  predicate PositiveMasses(s: seq<BodyState>)
  {
    forall i :: 0 <= i < |s| ==> s[i].mass > 0.0
  }

  /** One first-order Euler step of length `dt`: acceleration is force/mass,
      the position moves with the velocity from before the step. */
  function Integrate(b: BodyState, dt: real): (r: BodyState)
    requires b.mass > 0.0
    // mass, radius and force are untouched
    ensures r.mass == b.mass && r.radius == b.radius && r.force == b.force
    // displacement is the pre-step velocity times dt
    ensures Sub(r.pos, b.pos) == Scale(dt, b.vel)
    // Newton's second law over the step: m * (v' - v) == force * dt
    ensures Scale(b.mass, Sub(r.vel, b.vel)) == Scale(dt, b.force)
    ensures Momentum(r) == Add(Momentum(b), Scale(dt, b.force))
  {
    var a := Scale(1.0 / b.mass, b.force);
    assert b.mass * (1.0 / b.mass) == 1.0;
    b.(pos := Add(b.pos, Scale(dt, b.vel)), vel := Add(b.vel, Scale(dt, a)))
  }

  /** A body whose fields the simulation updates in place. */
  class Body {
    var pos: Vec2
    var vel: Vec2
    const mass: real
    const radius: real
    var force: Vec2

    function State(): BodyState
      reads this
    {
      BodyState(pos, vel, mass, radius, force)
    }

    constructor (pos: Vec2, vel: Vec2, mass: real, radius: real)
      requires mass > 0.0
      ensures State() == BodyState(pos, vel, mass, radius, Zero)
    {
      this.pos := pos;
      this.vel := vel;
      this.mass := mass;
      this.radius := radius;
      this.force := Zero;
    }

    /** Apply an externally computed force. */
    method SetForce(f: Vec2)
      modifies this
      ensures State() == old(State()).(force := f)
    {
      force := f;
    }

    method UpdateState(dt: real)
      requires mass > 0.0
      modifies this
      ensures State() == Integrate(old(State()), dt)
    {
      var a := Scale(1.0 / mass, force);
      pos := Add(pos, Scale(dt, vel));
      vel := Add(vel, Scale(dt, a));
    }
  }

  /** The states of a list of bodies, in list order. */
  function States(objects: seq<Body>): (r: seq<BodyState>)
    reads set b | b in objects
    ensures |r| == |objects|
    ensures forall i :: 0 <= i < |objects| ==> r[i] == objects[i].State()
  {
    if objects == [] then []
    else States(objects[..|objects| - 1]) + [objects[|objects| - 1].State()]
  }

  function Momenta(s: seq<BodyState>): seq<Vec2>
  {
    seq(|s|, i requires 0 <= i < |s| => Momentum(s[i]))
  }

  function ForcesOf(s: seq<BodyState>): seq<Vec2>
  {
    seq(|s|, i requires 0 <= i < |s| => s[i].force)
  }

  /** Total momentum, the sum of mass times velocity over all bodies. */
  function TotalMomentum(s: seq<BodyState>): Vec2 { Sum(Momenta(s)) }
}
