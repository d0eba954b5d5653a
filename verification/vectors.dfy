/** Two-dimensional vectors over the reals: the positions (km), velocities
    (km/s) and forces of the simulation, which app.py keeps as numpy arrays of
    two floats. Floating point is not modelled; every operation is exact. */
module Vectors {

  datatype Vec2 = Vec2(x: real, y: real)

  const Zero: Vec2 := Vec2(0.0, 0.0)

  function Add(a: Vec2, b: Vec2): Vec2 { Vec2(a.x + b.x, a.y + b.y) }

  function Sub(a: Vec2, b: Vec2): Vec2 { Vec2(a.x - b.x, a.y - b.y) }

  function Neg(a: Vec2): Vec2 { Vec2(-a.x, -a.y) }

  function Scale(c: real, a: Vec2): Vec2 { Vec2(c * a.x, c * a.y) }

  /** Squared Euclidean length; comparing it with a squared threshold stands
      for comparing the length itself, since both sides are non-negative. */
  function NormSq(a: Vec2): real { a.x * a.x + a.y * a.y }

  /** The zero vector, n times: a fresh force accumulator per body. */
  function Zeros(n: nat): seq<Vec2> { seq(n, _ => Zero) }

  /** Sum of a sequence of vectors. */
  function Sum(v: seq<Vec2>): Vec2
  {
    if v == [] then Zero else Add(Sum(v[..|v| - 1]), v[|v| - 1])
  }

  lemma {:induction false} SumZeros(n: nat)
    ensures Sum(Zeros(n)) == Zero
  {
    if n > 0 {
      assert Zeros(n)[..n - 1] == Zeros(n - 1);
      SumZeros(n - 1);
    }
  }

  /** Adding `f` to one entry adds `f` to the sum. */
  lemma {:induction false} SumUpdate(v: seq<Vec2>, i: nat, f: Vec2)
    requires i < |v|
    ensures Sum(v[i := Add(v[i], f)]) == Add(Sum(v), f)
  {
    var w := v[i := Add(v[i], f)];
    var n := |v|;
    if i < n - 1 {
      assert w[..n - 1] == v[..n - 1][i := Add(v[i], f)];
      SumUpdate(v[..n - 1], i, f);
    } else {
      assert w[..n - 1] == v[..n - 1];
    }
  }

  /** Sums are linear: when u = v + c*w entry by entry, Sum(u) = Sum(v) + c*Sum(w). */
  lemma {:induction false} SumLinear(u: seq<Vec2>, v: seq<Vec2>, w: seq<Vec2>, c: real)
    requires |u| == |v| == |w|
    requires forall i :: 0 <= i < |u| ==> u[i] == Add(v[i], Scale(c, w[i]))
    ensures Sum(u) == Add(Sum(v), Scale(c, Sum(w)))
  {
    var n := |u|;
    if n > 0 {
      SumLinear(u[..n - 1], v[..n - 1], w[..n - 1], c);
    }
  }
}
