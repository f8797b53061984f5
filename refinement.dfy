/** The refinement of a generated waypoint list: long gaps between consecutive waypoints
    are subdivided by interpolated poses so that the rover passes within sight of every
    part of the search area. */
module Refinement {
  import opened SearchTypes

  /** The smallest integer not below x (the C library's `ceil`, on exact reals). */
  function Ceil(x: real): (r: int)
    ensures x <= r as real < x + 1.0
  {
    -((-x).Floor)
  }

  /** The pose reached from `start` after `j` successive projections along `bearing`,
      each by `step`. */
  function Iterate(project: (Odom, real, real) -> Odom, start: Odom, bearing: real, step: real, j: nat): Odom
  {
    if j == 0 then start else project(Iterate(project, start, bearing, step, j - 1), bearing, step)
  }

  /** The `n` poses inserted after `start`, each projected from the one before it. */
  function Chain(project: (Odom, real, real) -> Odom, start: Odom, bearing: real, step: real, n: nat): (c: seq<Odom>)
    ensures |c| == n
    ensures forall j :: 0 <= j < n ==> c[j] == Iterate(project, start, bearing, step, j + 1)
  {
    if n == 0 then [] else Chain(project, start, bearing, step, n - 1) + [Iterate(project, start, bearing, step, n)]
  }

  /** The number of poses the inner loop inserts between `p` and `q`: the computed
      `ceil(d / maxDiff) - 1` when the distance `d` exceeds `maxDiff`, and none otherwise
      (a count that is not positive runs the inner loop zero times). */
  function InsertCount(g: Geometry, p: Odom, q: Odom, maxDiff: real): (n: nat)
    requires maxDiff != 0.0
  {
    var d := g.distance(p, q);
    if d > maxDiff && Ceil(d / maxDiff) - 1 > 0 then Ceil(d / maxDiff) - 1 else 0
  }

  /** The poses inserted between the consecutive waypoints `p` and `q`. */
  function Gap(g: Geometry, p: Odom, q: Odom, maxDiff: real): (s: seq<Odom>)
    requires maxDiff != 0.0
    ensures |s| == InsertCount(g, p, q, maxDiff)
  {
    var n := InsertCount(g, p, q, maxDiff);
    if n == 0 then []
    else Chain(g.project, p, g.bearing(p, q), g.distance(p, q) / (n + 1) as real, n)
  }

  /** The refined list: every original waypoint, followed by the poses inserted between it
      and its successor. The insertions are computed from original pairs only. */
  function Refine(g: Geometry, s: seq<Odom>, maxDiff: real): (r: seq<Odom>)
    requires maxDiff != 0.0
    ensures |s| < 2 ==> r == s
  {
    if |s| < 2 then s else [s[0]] + Gap(g, s[0], s[1], maxDiff) + Refine(g, s[1..], maxDiff)
  }

  /** Refinement never shortens the list, and it keeps the first and the last waypoint. */
  lemma {:induction false} RefineKeepsEnds(g: Geometry, s: seq<Odom>, maxDiff: real)
    requires maxDiff != 0.0
    ensures |Refine(g, s, maxDiff)| >= |s|
    ensures |s| > 0 ==> var r := Refine(g, s, maxDiff);
      |r| > 0 && r[0] == s[0] && r[|r| - 1] == s[|s| - 1]
  {
    if |s| >= 2 {
      RefineKeepsEnds(g, s[1..], maxDiff);
    }
  }

  /** The position in the refined list of the `k`-th original waypoint. */
  function Pos(g: Geometry, s: seq<Odom>, maxDiff: real, k: nat): nat
    requires maxDiff != 0.0
    requires k < |s|
  {
    if k == 0 then 0 else 1 + |Gap(g, s[0], s[1], maxDiff)| + Pos(g, s[1..], maxDiff, k - 1)
  }

  /** Every original waypoint appears in the refined list at its position. */
  lemma {:induction false} RefineKeepsOriginals(g: Geometry, s: seq<Odom>, maxDiff: real, k: nat)
    requires maxDiff != 0.0
    requires k < |s|
    ensures Pos(g, s, maxDiff, k) < |Refine(g, s, maxDiff)|
    ensures Refine(g, s, maxDiff)[Pos(g, s, maxDiff, k)] == s[k]
  {
    if k > 0 {
      RefineKeepsOriginals(g, s[1..], maxDiff, k - 1);
    }
  }

  /** Consecutive original waypoints are one place plus the gap's length apart. */
  lemma {:induction false} PosNext(g: Geometry, s: seq<Odom>, maxDiff: real, k: nat)
    requires maxDiff != 0.0
    requires k + 1 < |s|
    ensures Pos(g, s, maxDiff, k + 1) == Pos(g, s, maxDiff, k) + 1 + |Gap(g, s[k], s[k + 1], maxDiff)|
  {
    if k > 0 {
      PosNext(g, s[1..], maxDiff, k - 1);
      assert s[1..][k - 1] == s[k] && s[1..][k] == s[k + 1];
    }
  }

  /** The position after the `k`-th gap lies within the refined list. */
  lemma {:induction false} PosNextInRange(g: Geometry, s: seq<Odom>, maxDiff: real, k: nat)
    requires maxDiff != 0.0
    requires k + 1 < |s|
    ensures Pos(g, s, maxDiff, k + 1) <= |Refine(g, s, maxDiff)|
  {
    PosNext(g, s, maxDiff, k);
    assert Refine(g, s, maxDiff) == [s[0]] + Gap(g, s[0], s[1], maxDiff) + Refine(g, s[1..], maxDiff);
    if k > 0 {
      PosNextInRange(g, s[1..], maxDiff, k - 1);
    }
  }

  /** Between the positions of two consecutive original waypoints lie exactly the poses of
      their gap, and nothing else. */
  lemma {:induction false} RefineGapBetween(g: Geometry, s: seq<Odom>, maxDiff: real, k: nat)
    requires maxDiff != 0.0
    requires k + 1 < |s|
    ensures Pos(g, s, maxDiff, k + 1) == Pos(g, s, maxDiff, k) + 1 + |Gap(g, s[k], s[k + 1], maxDiff)|
    ensures Pos(g, s, maxDiff, k + 1) <= |Refine(g, s, maxDiff)|
    ensures Refine(g, s, maxDiff)[Pos(g, s, maxDiff, k) + 1 .. Pos(g, s, maxDiff, k + 1)]
         == Gap(g, s[k], s[k + 1], maxDiff)
  {
    PosNext(g, s, maxDiff, k);
    PosNextInRange(g, s, maxDiff, k);
    if k == 0 {
      GapAtFront(g, s, maxDiff);
    } else {
      RefineGapBetween(g, s[1..], maxDiff, k - 1);
      assert s[1..][k - 1] == s[k] && s[1..][k] == s[k + 1];
      GapBehindFront(g, s, maxDiff, k);
    }
  }

  /** The first gap follows the first waypoint. */
  lemma GapAtFront(g: Geometry, s: seq<Odom>, maxDiff: real)
    requires maxDiff != 0.0
    requires 1 < |s|
    ensures Pos(g, s, maxDiff, 1) == 1 + |Gap(g, s[0], s[1], maxDiff)|
    ensures Pos(g, s, maxDiff, 1) <= |Refine(g, s, maxDiff)|
    ensures Refine(g, s, maxDiff)[1 .. Pos(g, s, maxDiff, 1)] == Gap(g, s[0], s[1], maxDiff)
  {
    var gap := Gap(g, s[0], s[1], maxDiff);
    var head := [s[0]] + gap;
    var tail := Refine(g, s[1..], maxDiff);
    assert Refine(g, s, maxDiff) == head + tail;
    assert (head + tail)[1 .. 1 + |gap|] == gap;
  }

  /** A later gap of the list is the corresponding gap of the list's tail, shifted by the
      first waypoint and its gap. */
  lemma GapBehindFront(g: Geometry, s: seq<Odom>, maxDiff: real, k: nat)
    requires maxDiff != 0.0
    requires 0 < k && k + 1 < |s|
    requires Pos(g, s[1..], maxDiff, k) <= |Refine(g, s[1..], maxDiff)|
    requires Pos(g, s[1..], maxDiff, k - 1) + 1 <= Pos(g, s[1..], maxDiff, k)
    requires Refine(g, s[1..], maxDiff)[Pos(g, s[1..], maxDiff, k - 1) + 1 .. Pos(g, s[1..], maxDiff, k)]
         == Gap(g, s[k], s[k + 1], maxDiff)
    ensures Pos(g, s, maxDiff, k + 1) <= |Refine(g, s, maxDiff)|
    ensures Pos(g, s, maxDiff, k) + 1 <= Pos(g, s, maxDiff, k + 1)
    ensures Refine(g, s, maxDiff)[Pos(g, s, maxDiff, k) + 1 .. Pos(g, s, maxDiff, k + 1)]
         == Gap(g, s[k], s[k + 1], maxDiff)
  {
    var head := [s[0]] + Gap(g, s[0], s[1], maxDiff);
    var tail := Refine(g, s[1..], maxDiff);
    assert Refine(g, s, maxDiff) == head + tail;
    var a := Pos(g, s[1..], maxDiff, k - 1);
    var b := Pos(g, s[1..], maxDiff, k);
    assert Pos(g, s, maxDiff, k) == |head| + a;
    assert Pos(g, s, maxDiff, k + 1) == |head| + b;
    SliceAfterPrefix(head, tail, a + 1, b);
  }

  /** A slice of `head + tail` that starts after `head` is a slice of `tail`. */
  lemma SliceAfterPrefix(head: seq<Odom>, tail: seq<Odom>, a: nat, b: nat)
    requires a <= b <= |tail|
    ensures (head + tail)[|head| + a .. |head| + b] == tail[a .. b]
  {
  }

  /** The original waypoints keep their order: their positions strictly increase. */
  lemma {:induction false} RefinePositionsIncrease(g: Geometry, s: seq<Odom>, maxDiff: real, i: nat, j: nat)
    requires maxDiff != 0.0
    requires i < j < |s|
    ensures Pos(g, s, maxDiff, i) < Pos(g, s, maxDiff, j)
    decreases j - i
  {
    RefineGapBetween(g, s, maxDiff, j - 1);
    if i < j - 1 {
      RefinePositionsIncrease(g, s, maxDiff, i, j - 1);
    }
  }

  /** The refined list ends with the last original waypoint: its length is one past the last
      position. */
  lemma {:induction false} RefineLength(g: Geometry, s: seq<Odom>, maxDiff: real)
    requires maxDiff != 0.0
    requires |s| > 0
    ensures |Refine(g, s, maxDiff)| == Pos(g, s, maxDiff, |s| - 1) + 1
  {
    if |s| >= 2 {
      RefineLength(g, s[1..], maxDiff);
    }
  }

  /** With a positive spacing limit, a gap longer than the limit receives exactly
      `ceil(d / maxDiff) - 1` poses, at least one; the first is projected from `p` and each
      further one from the pose before it, along the bearing from `p` to `q`, by the
      distance divided by one more than the count. A gap no longer than the limit
      receives none. */
  lemma GapShape(g: Geometry, p: Odom, q: Odom, maxDiff: real)
    requires maxDiff > 0.0
    ensures var d := g.distance(p, q);
      var s := Gap(g, p, q, maxDiff);
      var step := d / (|s| + 1) as real;
      && (d <= maxDiff ==> s == [])
      && (d > maxDiff ==>
            && |s| == Ceil(d / maxDiff) - 1 >= 1
            && s[0] == g.project(p, g.bearing(p, q), step)
            && forall j :: 0 < j < |s| ==> s[j] == g.project(s[j - 1], g.bearing(p, q), step))
  {
    var d := g.distance(p, q);
    if d > maxDiff {
      QuotientAboveOne(d, maxDiff);
      var n := InsertCount(g, p, q, maxDiff);
      var step := d / (n + 1) as real;
      var b := g.bearing(p, q);
      var s := Gap(g, p, q, maxDiff);
      assert s == Chain(g.project, p, b, step, n);
      assert Iterate(g.project, p, b, step, 0) == p;
      assert Iterate(g.project, p, b, step, 1) == g.project(p, b, step);
      assert s[0] == Iterate(g.project, p, b, step, 1);
      forall j | 0 < j < |s|
        ensures s[j] == g.project(s[j - 1], b, step)
      {
        assert s[j] == Iterate(g.project, p, b, step, j + 1);
      }
    }
  }

  /** With a negative spacing limit nothing is ever inserted. */
  lemma RefineNegativeLimitIsIdentity(g: Geometry, s: seq<Odom>, maxDiff: real)
    requires maxDiff < 0.0
    ensures Refine(g, s, maxDiff) == s
  {
    if |s| >= 2 {
      var d := g.distance(s[0], s[1]);
      if d > maxDiff {
        QuotientBelowOne(d, maxDiff);
      }
      assert Gap(g, s[0], s[1], maxDiff) == [];
      RefineNegativeLimitIsIdentity(g, s[1..], maxDiff);
      assert s == [s[0]] + s[1..];
    }
  }

  lemma QuotientAboveOne(d: real, m: real)
    requires 0.0 < m < d
    ensures d / m > 1.0
  {
    assert d / m * m == d;
  }

  lemma QuotientBelowOne(d: real, m: real)
    requires m < 0.0 && m < d
    ensures d / m < 1.0
  {
    assert d / m * m == d;
  }
}
