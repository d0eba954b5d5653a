/** The path trail each body leaves on screen: an ordered list of recent
    positions, oldest first, decimated so that slow motion does not pile up
    points, and capped at a fixed number of points. */
module Trails {
  import opened Vectors

  /** World length (km) visible across the window's width. */
  const WorldWidth: real := 500000000.0

  /** A new position closer than this to the second-to-last point replaces
      the last point instead of being appended: 1% of the world width. */
  const MinSpacing: real := WorldWidth * 0.01

  /** Most points a trail keeps. */
  const Cap: nat := 100

  /** `q` lies strictly closer than MinSpacing to `p`. */
  predicate Near(p: Vec2, q: Vec2)
  {
    NormSq(Sub(p, q)) < MinSpacing * MinSpacing
  }

  /** The trail after recording `pos` on `points`. */
  function Recorded(points: seq<Vec2>, pos: Vec2): (r: seq<Vec2>)
    // the position just recorded is always the newest point
    ensures |r| > 0 && r[|r| - 1] == pos
    // the trail grows by at most one point and never past the cap
    ensures |r| <= |points| + 1
    ensures |points| <= Cap ==> |r| <= Cap
    // no point appears that was neither stored nor recorded
    ensures forall q :: q in r ==> q in points || q == pos
  {
    var inserted :=
      if |points| < 2 then points + [pos]
      else if Near(points[|points| - 2], pos) then points[|points| - 1 := pos]
      else points + [pos];
    if |inserted| > Cap then inserted[1..] else inserted
  }

  /** The three ways a position is recorded, each with every other point kept in order. */
  lemma RecordedCases(points: seq<Vec2>, pos: Vec2)
    // fewer than two points: append
    ensures |points| < 2 ==> Recorded(points, pos) == points + [pos]
    // near the second-to-last point: the last point is overwritten, the rest kept
    ensures 2 <= |points| <= Cap && Near(points[|points| - 2], pos) ==>
              Recorded(points, pos) == points[..|points| - 1] + [pos]
    // otherwise: append, and when that passes the cap exactly the oldest point goes
    ensures 2 <= |points| && !Near(points[|points| - 2], pos) ==>
              Recorded(points, pos) == if |points| < Cap then points + [pos] else points[1..] + [pos]
  {
    if 2 <= |points| && Near(points[|points| - 2], pos) {
      assert points[|points| - 1 := pos] == points[..|points| - 1] + [pos];
    }
  }

  /** The trail after recording every position of `ps`, in order, on an empty trail. */
  function Trace(ps: seq<Vec2>): seq<Vec2>
  {
    if ps == [] then [] else Recorded(Trace(ps[..|ps| - 1]), ps[|ps| - 1])
  }

  function Min(a: nat, b: nat): nat { if a < b then a else b }

  /** Whatever is recorded, a trail started empty stays within the cap, holds
      at least two points once two positions were recorded, ends with the
      latest position, and holds only recorded positions. */
  lemma {:induction false} TraceBounds(ps: seq<Vec2>)
    ensures Min(|ps|, 2) <= |Trace(ps)| <= Cap
    ensures ps != [] ==> Trace(ps)[|Trace(ps)| - 1] == ps[|ps| - 1]
    ensures forall q :: q in Trace(ps) ==> q in ps
  {
    if ps != [] {
      var init := ps[..|ps| - 1];
      TraceBounds(init);
      var t := Trace(init);
      assert Trace(ps) == Recorded(t, ps[|ps| - 1]);
      forall q | q in Trace(ps) ensures q in ps {
        if q in t {
          assert q in init;
        } else {
          assert q == ps[|ps| - 1];
        }
      }
      RecordedCases(t, ps[|ps| - 1]);
    }
  }

  /** Positions each at least MinSpacing from the position recorded two calls
      before are never collapsed: the trail is exactly the last Cap of them. */
  lemma {:induction false} SpacedTraceKeepsLatest(ps: seq<Vec2>)
    requires forall i :: 0 <= i < |ps| - 2 ==> !Near(ps[i], ps[i + 2])
    ensures Trace(ps) == ps[|ps| - Min(|ps|, Cap)..]
  {
    if ps != [] {
      var n := |ps|;
      var init := ps[..n - 1];
      assert ps == init + [ps[n - 1]];
      SpacedTraceKeepsLatest(init);
      if n >= 3 {
        assert !Near(ps[n - 3], ps[n - 1]);
      }
      TraceAppendFar(init, ps[n - 1]);
    }
  }

  /** One step of SpacedTraceKeepsLatest: recording a position far from the
      second-to-last one keeps the trail the latest Cap positions. */
  lemma TraceAppendFar(init: seq<Vec2>, last: Vec2)
    requires Trace(init) == init[|init| - Min(|init|, Cap)..]
    requires |init| >= 2 ==> !Near(init[|init| - 2], last)
    ensures Trace(init + [last]) == (init + [last])[|init| + 1 - Min(|init| + 1, Cap)..]
  {
    var ps := init + [last];
    var n := |ps|;
    var t := Trace(init);
    assert ps[..n - 1] == init;
    assert Trace(ps) == Recorded(t, last);
    RecordedCases(t, last);
    if n - 1 < 2 || n - 1 < Cap {
      assert t == init;
    } else {
      assert t == init[n - 1 - Cap..];
      DropAppend(init, last, n - 1 - Cap);
    }
  }

  /** Dropping the first element of a suffix, then appending, is the next suffix of the extended sequence. */
  lemma DropAppend(a: seq<Vec2>, x: Vec2, k: nat)
    requires k < |a|
    ensures a[k..][1..] + [x] == (a + [x])[k + 1..]
  {
    assert a[k..][1..] == a[k + 1..];
  }

  /** Two consecutive stored points may coincide without being the newest two:
      the spacing test looks at the second-to-last point only, and the first
      two positions are kept unconditionally. */
  lemma CloseNeighboursSurvive()
    ensures var t := Trace([Zero, Zero, Vec2(WorldWidth, 0.0)]);
            |t| == 3 && Near(t[0], t[1])
  {
    var far := Vec2(WorldWidth, 0.0);
    assert Trace([Zero]) == [Zero];
    assert [Zero, Zero][..1] == [Zero];
    assert Trace([Zero, Zero]) == [Zero, Zero];
    assert [Zero, Zero, far][..2] == [Zero, Zero];
    assert !Near(Zero, far);
  }

  /** A trail object whose point list `set_pos` updates in place. */
  class Trail {
    var points: seq<Vec2>

    ghost predicate Valid()
      reads this
    {
      |points| <= Cap
    }

    constructor ()
      ensures Valid() && points == []
    {
      points := [];
    }

    method SetPos(pos: Vec2)
      modifies this
      ensures points == Recorded(old(points), pos)
      ensures old(Valid()) ==> Valid()
    {
      if |points| < 2 {
        points := points + [pos];
      } else if NormSq(Sub(points[|points| - 2], pos)) < MinSpacing * MinSpacing {
        points := points[|points| - 1 := pos];
      } else {
        points := points + [pos];
      }
      if |points| > Cap {
        points := points[1..];
      }
    }
  }
}
