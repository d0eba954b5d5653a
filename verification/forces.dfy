/** The force solver: visits every unordered pair of bodies once, adds the
    pair force to the first body's accumulator and its negation to the
    second's, then assigns every accumulated total as that body's force. */
module Forces {
  import opened Vectors
  import opened Bodies

  /** The scalar that turns the separation vector into the pair force. For
      gravity it is G * m1 * m2 / d^3 with d the distance between the two
      positions, so that its product with the separation has magnitude
      G * m1 * m2 / d^2 and points from the first body to the second. It is
      a parameter so that no square root or trigonometry is needed. */
  type Coupling = (Vec2, real, Vec2, real) -> real

  /** Force that `b` exerts on `a`. */
  function PairForce(law: Coupling, a: BodyState, b: BodyState): Vec2
  {
    Scale(law(a.pos, a.mass, b.pos, b.mass), Sub(b.pos, a.pos))
  }

  /** No two bodies coincide: the pair force divides by their distance. */
  predicate DistinctPositions(s: seq<BodyState>)
  {
    forall i, j :: 0 <= i < j < |s| ==> s[i].pos != s[j].pos
  }

  /** Lexicographic order on index pairs: the order the nested loops visit them. */
  predicate Before(p: (nat, nat), q: (nat, nat))
  {
    p.0 < q.0 || (p.0 == q.0 && p.1 < q.1)
  }

  predicate Ascending(ps: seq<(nat, nat)>)
  {
    forall a, b :: 0 <= a < b < |ps| ==> Before(ps[a], ps[b])
  }

  /** Pairs (i, j) with i < j < hi, in the inner loop's order. */
  function Row(i: nat, hi: nat): seq<(nat, nat)>
    decreases hi
  {
    if hi <= i + 1 then [] else Row(i, hi - 1) + [(i, hi - 1)]
  }

  /** Pairs the outer loop has visited after its first `r` rounds over `n` bodies. */
  function Rows(r: nat, n: nat): seq<(nat, nat)>
  {
    if r == 0 then [] else Rows(r - 1, n) + Row(r - 1, n)
  }

  /** Every pair the solver visits for `n` bodies, in visiting order: the
      outer loop runs over range(n - 1). */
  function AllPairs(n: nat): seq<(nat, nat)>
  {
    if n == 0 then [] else Rows(n - 1, n)
  }

  /** A row holds the pairs (i, j), i < j < hi, in ascending order. */
  lemma {:induction false} RowPairs(i: nat, hi: nat)
    ensures forall p :: p in Row(i, hi) <==> p.0 == i && i < p.1 < hi
    ensures Ascending(Row(i, hi))
    decreases hi
  {
    if hi > i + 1 {
      RowPairs(i, hi - 1);
    }
  }

  /** The first `r` rounds visit the pairs (i, j) with i < r and i < j < n,
      in ascending order. */
  lemma {:induction false} RowsPairs(r: nat, n: nat)
    ensures forall p :: p in Rows(r, n) <==> p.0 < r && p.0 < p.1 < n
    ensures Ascending(Rows(r, n))
  {
    if r > 0 {
      var left, right := Rows(r - 1, n), Row(r - 1, n);
      RowsPairs(r - 1, n);
      RowPairs(r - 1, n);
      forall a, b | 0 <= a < b < |left + right|
        ensures Before((left + right)[a], (left + right)[b])
      {
        if b >= |left| && a < |left| {
          assert left[a] in left;
          assert right[b - |left|] in right;
        }
      }
    }
  }

  /** The solver visits exactly the pairs i < j < n, each of them once. */
  lemma AllPairsOnce(n: nat)
    ensures forall p :: p in AllPairs(n) <==> p.0 < p.1 < n
    ensures forall a, b :: 0 <= a < b < |AllPairs(n)| ==> AllPairs(n)[a] != AllPairs(n)[b]
  {
    if n > 0 {
      var ps := AllPairs(n);
      RowsPairs(n - 1, n);
      forall a, b | 0 <= a < b < |ps| ensures ps[a] != ps[b] {
        assert Before(ps[a], ps[b]);
      }
    }
  }

  predicate PairsWithin(done: seq<(nat, nat)>, n: nat)
  {
    forall p :: p in done ==> p.0 < n && p.1 < n
  }

  /** Add `f` to accumulator `i` and its negation to accumulator `j`. */
  function Exchange(acc: seq<Vec2>, i: nat, j: nat, f: Vec2): seq<Vec2>
    requires i < |acc| && j < |acc|
  {
    var acc1 := acc[i := Add(acc[i], f)];
    acc1[j := Add(acc1[j], Neg(f))]
  }

  /** The per-body accumulators after processing the pairs in `done`, in
      order, starting from zero. */
  function Accumulate(law: Coupling, s: seq<BodyState>, done: seq<(nat, nat)>): (acc: seq<Vec2>)
    requires PairsWithin(done, |s|)
    ensures |acc| == |s|
  {
    if done == [] then Zeros(|s|)
    else
      var (i, j) := done[|done| - 1];
      Exchange(Accumulate(law, s, done[..|done| - 1]), i, j, PairForce(law, s[i], s[j]))
  }

  /** Processing one more pair changes exactly the two accumulators of that pair. */
  lemma AccumulateStep(law: Coupling, s: seq<BodyState>, done: seq<(nat, nat)>, i: nat, j: nat)
    requires PairsWithin(done, |s|) && i < |s| && j < |s|
    ensures PairsWithin(done + [(i, j)], |s|)
    ensures Accumulate(law, s, done + [(i, j)])
         == Exchange(Accumulate(law, s, done), i, j, PairForce(law, s[i], s[j]))
  {
    assert (done + [(i, j)])[..|done|] == done;
  }

  /** Pairs visited once the outer loop is at `i1` and the inner loop at `i2`. */
  function Visited(i1: nat, i2: nat, n: nat): (ps: seq<(nat, nat)>)
    requires i2 <= n
    ensures PairsWithin(ps, n)
  {
    RowsPairs(i1, n);
    RowPairs(i1, i2);
    Rows(i1, n) + Row(i1, i2)
  }

  /** One inner-loop iteration processes the pair (i1, i2). */
  lemma VisitNext(law: Coupling, s: seq<BodyState>, i1: nat, i2: nat)
    requires i1 < i2 < |s|
    ensures Accumulate(law, s, Visited(i1, i2 + 1, |s|))
         == Exchange(Accumulate(law, s, Visited(i1, i2, |s|)), i1, i2, PairForce(law, s[i1], s[i2]))
  {
    var n := |s|;
    assert Visited(i1, i2 + 1, n) == Visited(i1, i2, n) + [(i1, i2)];
    AccumulateStep(law, s, Visited(i1, i2, n), i1, i2);
  }

  /** A finished inner loop completes round `i1`; a new round starts with nothing of its row visited. */
  lemma VisitRound(i1: nat, n: nat)
    requires i1 < n
    ensures Visited(i1, n, n) == Visited(i1 + 1, i1 + 1, n)
    ensures Visited(i1, i1 + 1, n) == Visited(i1, i1, n)
    ensures i1 == n - 1 ==> Visited(i1, i1, n) == AllPairs(n)
  {
    assert Row(i1 + 1, i1 + 1) == [] && Row(i1, i1 + 1) == [] && Row(i1, i1) == [];
  }

  /** The accumulators when the nested loops are about to visit (i1, i2):
      the loop's own view of the pairs done so far. */
  function Partial(law: Coupling, s: seq<BodyState>, i1: nat, i2: nat): (acc: seq<Vec2>)
    requires i1 < i2 <= |s|
    ensures |acc| == |s|
    decreases i1, i2
  {
    if i2 == i1 + 1 then
      if i1 == 0 then Zeros(|s|) else Partial(law, s, i1 - 1, |s|)
    else
      Exchange(Partial(law, s, i1, i2 - 1), i1, i2 - 1, PairForce(law, s[i1], s[i2 - 1]))
  }

  /** The loop's view agrees with processing the visited pairs in order. */
  lemma {:induction false} PartialIsAccumulate(law: Coupling, s: seq<BodyState>, i1: nat, i2: nat)
    requires i1 < i2 <= |s|
    ensures Partial(law, s, i1, i2) == Accumulate(law, s, Visited(i1, i2, |s|))
    decreases i1, i2
  {
    var n := |s|;
    if i2 == i1 + 1 {
      VisitRound(i1, n);
      if i1 > 0 {
        assert Partial(law, s, i1, i2) == Partial(law, s, i1 - 1, n);
        PartialIsAccumulate(law, s, i1 - 1, n);
        VisitRound(i1 - 1, n);
        assert Visited(i1 - 1, n, n) == Visited(i1, i2, n);
      } else {
        assert Partial(law, s, i1, i2) == Zeros(n);
        assert Visited(0, 1, n) == [];
      }
    } else {
      var j := i2 - 1;
      var f := PairForce(law, s[i1], s[j]);
      assert Partial(law, s, i1, i2) == Exchange(Partial(law, s, i1, j), i1, j, f);
      PartialIsAccumulate(law, s, i1, j);
      VisitNext(law, s, i1, j);
      assert Visited(i1, j + 1, n) == Visited(i1, i2, n);
    }
  }

  /** Once the outer loop has run out, the loop's view is the net force. */
  lemma PartialIsNet(law: Coupling, s: seq<BodyState>, last: nat)
    requires last + 1 == |s|
    ensures Partial(law, s, last, last + 1) == NetForces(law, s)
  {
    PartialIsAccumulate(law, s, last, |s|);
    VisitRound(last, |s|);
  }

  /** Every processed pair adds a force and its exact negation, so the
      accumulators always sum to the zero vector. */
  lemma {:induction false} AccumulateBalanced(law: Coupling, s: seq<BodyState>, done: seq<(nat, nat)>)
    requires PairsWithin(done, |s|)
    ensures Sum(Accumulate(law, s, done)) == Zero
  {
    if done == [] {
      SumZeros(|s|);
    } else {
      var prev := Accumulate(law, s, done[..|done| - 1]);
      AccumulateBalanced(law, s, done[..|done| - 1]);
      var (i, j) := done[|done| - 1];
      var f := PairForce(law, s[i], s[j]);
      SumUpdate(prev, i, f);
      SumUpdate(prev[i := Add(prev[i], f)], j, Neg(f));
    }
  }

  /** Net force on every body. */
  function NetForces(law: Coupling, s: seq<BodyState>): (f: seq<Vec2>)
    ensures |f| == |s|
  {
    AllPairsOnce(|s|);
    Accumulate(law, s, AllPairs(|s|))
  }

  /** The bodies after a force solve: only their forces change. */
  function Solve(law: Coupling, s: seq<BodyState>): (r: seq<BodyState>)
    ensures |r| == |s|
    ensures forall i :: 0 <= i < |s| ==> r[i] == s[i].(force := NetForces(law, s)[i])
  {
    var f := NetForces(law, s);
    seq(|s|, i requires 0 <= i < |s| => s[i].(force := f[i]))
  }

  /** Newton's third law over the whole system: the assigned forces sum to zero. */
  lemma SolveBalanced(law: Coupling, s: seq<BodyState>)
    ensures Sum(ForcesOf(Solve(law, s))) == Zero
  {
    AllPairsOnce(|s|);
    AccumulateBalanced(law, s, AllPairs(|s|));
    assert ForcesOf(Solve(law, s)) == NetForces(law, s);
  }

  /** With no pair to visit, every body is assigned the zero force. */
  lemma FewBodiesNoForce(law: Coupling, s: seq<BodyState>)
    requires |s| <= 1
    ensures NetForces(law, s) == Zeros(|s|)
  {
    assert AllPairs(|s|) == [];
  }

  /** Two bodies receive exactly opposite forces: each the pull of the other. */
  lemma TwoBodiesOpposite(law: Coupling, s: seq<BodyState>)
    requires |s| == 2
    ensures NetForces(law, s)[0] == PairForce(law, s[0], s[1])
    ensures NetForces(law, s)[1] == Neg(PairForce(law, s[0], s[1]))
    ensures NetForces(law, s)[0] == Neg(NetForces(law, s)[1])
  {
    assert Row(0, 1) == [];
    assert AllPairs(2) == [(0, 1)];
    AccumulateStep(law, s, [], 0, 1);
    assert Accumulate(law, s, []) == [Zero, Zero];
  }

  /** No body occurs twice in the list. */
  predicate Distinct(objects: seq<Body>)
  {
    forall i, j :: 0 <= i < j < |objects| ==> objects[i] != objects[j]
  }

  /** Bodies at distinct positions are distinct objects. */
  lemma DistinctPositionsDistinct(objects: seq<Body>, s: seq<BodyState>)
    requires s == States(objects) && DistinctPositions(s)
    ensures Distinct(objects)
  {
    forall i, j | 0 <= i < j < |objects| ensures objects[i] != objects[j] {
      assert s[i].pos != s[j].pos;
    }
  }

  /** The dictionary holds, for every listed body, that body's accumulator. */
  predicate Tracks(objects: seq<Body>, forces: map<Body, Vec2>, acc: seq<Vec2>)
  {
    |acc| == |objects| &&
    forall k :: 0 <= k < |objects| ==> objects[k] in forces && forces[objects[k]] == acc[k]
  }

  /** Updating the two bodies' dictionary entries updates their two accumulators. */
  lemma TracksExchange(objects: seq<Body>, forces: map<Body, Vec2>, acc: seq<Vec2>, i1: nat, i2: nat, f: Vec2)
    requires Distinct(objects) && Tracks(objects, forces, acc) && i1 < i2 < |objects|
    ensures var forces1 := forces[objects[i1] := Add(forces[objects[i1]], f)];
            Tracks(objects, forces1[objects[i2] := Add(forces1[objects[i2]], Neg(f))], Exchange(acc, i1, i2, f))
  {
    var forces1 := forces[objects[i1] := Add(forces[objects[i1]], f)];
    var forces2 := forces1[objects[i2] := Add(forces1[objects[i2]], Neg(f))];
    var acc2 := Exchange(acc, i1, i2, f);
    forall k | 0 <= k < |objects|
      ensures objects[k] in forces2 && forces2[objects[k]] == acc2[k]
    {
      if k != i1 && k != i2 {
        assert objects[k] != objects[i1] && objects[k] != objects[i2];
      }
    }
  }

  /** The dictionary comprehension that gives every body a zero accumulator. */
  method ZeroForces(objects: seq<Body>) returns (forces: map<Body, Vec2>)
    ensures Tracks(objects, forces, Zeros(|objects|))
  {
    forces := map[];
    for k := 0 to |objects|
      invariant forall j :: 0 <= j < k ==> objects[j] in forces && forces[objects[j]] == Zero
    {
      forces := forces[objects[k] := Zero];
    }
  }

  /** One round of the outer loop of calculate_forces: the inner loop pairs
      body `i1` with every later body, adding each pair force to both
      dictionary entries. It reads the bodies and changes nothing. */
  method AccumulateRow(objects: seq<Body>, law: Coupling, forces: map<Body, Vec2>, i1: nat)
    returns (forces': map<Body, Vec2>)
    requires Distinct(objects) && i1 < |objects|
    requires Tracks(objects, forces, Partial(law, States(objects), i1, i1 + 1))
    ensures Tracks(objects, forces', Partial(law, States(objects), i1, |objects|))
  {
    ghost var s := States(objects);
    var n := |objects|;
    forces' := forces;
    var i2 := i1 + 1;
    while i2 < n
      invariant i1 + 1 <= i2 <= n
      invariant Tracks(objects, forces', Partial(law, s, i1, i2))
      modifies {}
    {
      var obj1 := objects[i1];
      var obj2 := objects[i2];
      var delta := Sub(obj2.pos, obj1.pos);
      var f := Scale(law(obj1.pos, obj1.mass, obj2.pos, obj2.mass), delta);
      assert f == PairForce(law, s[i1], s[i2]);
      assert Partial(law, s, i1, i2 + 1) == Exchange(Partial(law, s, i1, i2), i1, i2, f);
      TracksExchange(objects, forces', Partial(law, s, i1, i2), i1, i2, f);
      forces' := forces'[obj1 := Add(forces'[obj1], f)];
      forces' := forces'[obj2 := Add(forces'[obj2], Neg(f))];
      i2 := i2 + 1;
    }
  }

  /** The accumulation phase of calculate_forces: a dictionary from body to
      its accumulated force, filled by the nested loops over all pairs. It
      reads the bodies and changes nothing. */
  method AccumulateForces(objects: seq<Body>, law: Coupling) returns (forces: map<Body, Vec2>)
    requires Distinct(objects)
    ensures Tracks(objects, forces, NetForces(law, States(objects)))
  {
    forces := ZeroForces(objects);
    ghost var s := States(objects);
    var n := |objects|;
    if n == 0 {
      assert NetForces(law, s) == [];
      return;
    }
    var i1 := 0;
    while i1 < n - 1
      invariant 0 <= i1 <= n - 1
      invariant Tracks(objects, forces, Partial(law, s, i1, i1 + 1))
      modifies {}
    {
      forces := AccumulateRow(objects, law, forces, i1);
      assert Partial(law, s, i1 + 1, i1 + 2) == Partial(law, s, i1, n);
      i1 := i1 + 1;
    }
    PartialIsNet(law, s, i1);
  }

  /** Python's calculate_forces: accumulate the pair forces, then set each
      body's force from its accumulator. Coincident bodies are excluded, as
      the pair force divides by their distance. */
  method CalculateForces(objects: seq<Body>, law: Coupling)
    requires DistinctPositions(States(objects))
    modifies set b | b in objects
    ensures States(objects) == Solve(law, old(States(objects)))
  {
    ghost var s := States(objects);
    var n := |objects|;
    DistinctPositionsDistinct(objects, s);
    var forces := AccumulateForces(objects, law);
    ghost var net := NetForces(law, s);
    assert forall j :: 0 <= j < n ==> forces[objects[j]] == net[j];
    for k := 0 to n
      invariant forall j :: 0 <= j < k ==> objects[j].State() == s[j].(force := net[j])
      invariant forall j :: k <= j < n ==> objects[j].State() == s[j]
    {
      objects[k].SetForce(forces[objects[k]]);
      assert forall j :: 0 <= j < n && j != k ==> objects[j] != objects[k];
    }
  }
}
