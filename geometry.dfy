/**
 * The shapes the geocoding assemblers build, and the two pieces of logic they share:
 * the fold that unions the shapes of the `;`-separated pieces of a location text, and
 * the ordering of alley corners by their angle about the centroid.  shapely (version 2)
 * is kept abstract: a shape records how it was built, `union` is a constructor, and
 * `atan2` is a parameter.  What the constructors do with input they cannot build a
 * shape from is modelled: a LineString with a None point and a Polygon ring that closes
 * into fewer than four coordinates raise, and a union with None is None.
 */
module Geometry {
  import opened Regex
  import opened Text
  import opened Classify

  datatype Point = Point(x: real, y: real)

  /** A Point, a LineString or a Polygon over points, or the union of two shapes. */
  datatype Shape =
    | PointShape(point: Point)
    | LineString(points: seq<Point>)
    | Polygon(ring: seq<Point>)
    | Union(left: Shape, right: Shape)

  /** What one piece of a location text yields: its shape, if any, and the geocoder calls it made, in order. */
  datatype Geocoded<Q> = Geocoded(geometry: Option<Shape>, queries: seq<Q>)

  /** A geocoder answer returned as the piece's geometry. */
  function AsShape(p: Option<Point>): Option<Shape> {
    if p.Some? then Some(PointShape(p.value)) else None
  }

  /** A piece's `try`: a constructor that raised leaves the piece without geometry. */
  function Caught(o: Outcome<Shape>): Option<Shape> {
    if o.Raised? then None else Some(o.value)
  }

  /**
   * `LineString([point1, point2])` over two geocoder answers: it raises when either
   * answer is None, and otherwise runs from the first answer to the second.
   */
  function Segment(p1: Option<Point>, p2: Option<Point>): (r: Outcome<Shape>)
    ensures r.Returned? <==> p1.Some? && p2.Some?
    ensures r.Returned? ==> r.value.LineString? && r.value.points == [p1.value, p2.value]
  {
    if p1.Some? && p2.Some? then Returned(LineString([p1.value, p2.value])) else Raised
  }

  /**
   * `Polygon(coordinates)`: shapely closes the ring by appending its first point when
   * the last one differs from it, and a closed ring of fewer than four coordinates
   * raises; no point at all gives the empty polygon.  So one or two points raise, and
   * three points raise exactly when the first and the last coincide.
   */
  function MakePolygon(ps: seq<Point>): (r: Outcome<Shape>)
    ensures r.Returned? <==> |ps| == 0 || 4 <= |ps| || (|ps| == 3 && ps[0] != ps[2])
    ensures r.Returned? ==> r.value == Polygon(ps)
  {
    var closed := if ps != [] && ps[0] != ps[|ps| - 1] then ps + [ps[0]] else ps;
    if 0 < |closed| < 4 then Raised else Returned(Polygon(ps))
  }

  /** `[p for p in points if p is not None]`. */
  function Present<T>(xs: seq<Option<T>>): seq<T> {
    if xs == [] then [] else (if xs[0].Some? then [xs[0].value] else []) + Present(xs[1..])
  }

  /** The present values are exactly the values of the Somes: none is invented, none is lost, and all None gives none. */
  lemma {:induction false} PresentMembers<T>(xs: seq<Option<T>>)
    ensures |Present(xs)| <= |xs|
    ensures forall k | 0 <= k < |Present(xs)| :: Some(Present(xs)[k]) in xs
    ensures forall k | 0 <= k < |xs| && xs[k].Some? :: xs[k].value in Present(xs)
    ensures (forall k | 0 <= k < |xs| :: xs[k].None?) ==> Present(xs) == []
    decreases |xs|
  {
    if xs != [] {
      var t := Present(xs[1..]);
      PresentMembers(xs[1..]);
      assert forall k | 0 <= k < |t| :: Some(t[k]) in xs[1..];
      assert forall k | 1 <= k < |xs| :: xs[k] == xs[1..][k - 1];
    }
  }

  /** A present value comes from a Some at some position. */
  lemma {:induction false} PresentSource<T>(xs: seq<Option<T>>, v: T)
    requires v in Present(xs)
    ensures exists k | 0 <= k < |xs| :: xs[k] == Some(v)
  {
    PresentMembers(xs);
    var j :| 0 <= j < |Present(xs)| && Present(xs)[j] == v;
    assert Some(v) in xs;
  }

  /** `Polygon([p1, p2, p3, p4])` over geocoder answers: a None among them raises. */
  function PolygonOfAnswers(ps: seq<Option<Point>>): Outcome<Shape> {
    if exists k | 0 <= k < |ps| :: ps[k].None? then Raised else MakePolygon(Present(ps))
  }

  /** When every answer is present, the ring is the answers themselves, in their order. */
  lemma {:induction false} PresentAll(ps: seq<Option<Point>>)
    requires forall k | 0 <= k < |ps| :: ps[k].Some?
    ensures |Present(ps)| == |ps| && forall k | 0 <= k < |ps| :: Present(ps)[k] == ps[k].value
    decreases |ps|
  {
    if ps != [] {
      var t := ps[1..];
      assert forall k | 0 <= k < |t| :: t[k] == ps[k + 1];
      PresentAll(t);
      assert Present(ps) == [ps[0].value] + Present(t);
    }
  }

  /** The points a shape covers, in the order it was built; a union covers those of both sides. */
  function PointsOf(s: Shape): seq<Point> {
    match s
    case PointShape(p) => [p]
    case LineString(ps) => ps
    case Polygon(ps) => ps
    case Union(l, r) => PointsOf(l) + PointsOf(r)
  }

  // ---------------------------------------------------------------------------------
  // The fold over the pieces

  /**
   * One step: an empty accumulator takes the piece's geometry; otherwise it is united
   * with it.
   */
  function Accumulate(geometry: Option<Shape>, g: Option<Shape>): Option<Shape> {
    if geometry.None? then g else UnionWith(geometry.value, g)
  }

  /** `geometry.union(g)`: None when g is None, and otherwise a shape covering both. */
  function UnionWith(geometry: Shape, g: Option<Shape>): (r: Option<Shape>)
    ensures r.Some? <==> g.Some?
    ensures r.Some? ==> PointsOf(r.value) == PointsOf(geometry) + PointsOf(g.value)
  {
    if g.None? then None else Some(Union(geometry, g.value))
  }

  /** The accumulator after every piece, left to right. */
  function Fold(gs: seq<Option<Shape>>): Option<Shape>
    decreases |gs|
  {
    if gs == [] then None else Accumulate(Fold(gs[..|gs| - 1]), gs[|gs| - 1])
  }

  /** A single piece folds to its own geometry. */
  lemma {:induction false} FoldSingle(gs: seq<Option<Shape>>)
    requires |gs| == 1
    ensures Fold(gs) == gs[0]
  {
    assert gs[..0] == [];
  }

  /**
   * The fold has a geometry exactly when the last piece has one: a piece without
   * geometry empties the accumulator, and the next piece starts it again.
   */
  lemma {:induction false} FoldNoneIff(gs: seq<Option<Shape>>)
    ensures Fold(gs).None? <==> gs == [] || gs[|gs| - 1].None?
  {
    if gs != [] {
      var n := |gs| - 1;
      assert Fold(gs) == Accumulate(Fold(gs[..n]), gs[n]);
    }
  }

  /** Everything before a piece without geometry is lost: the fold is that of the pieces after it. */
  lemma {:induction false} FoldAfterNone(gs: seq<Option<Shape>>, hs: seq<Option<Shape>>)
    ensures Fold(gs + [None] + hs) == Fold(hs)
    decreases |hs|
  {
    var xs := gs + [None] + hs;
    if hs == [] {
      assert xs[..|xs| - 1] == gs;
    } else {
      var n := |hs| - 1;
      assert xs[..|xs| - 1] == gs + [None] + hs[..n];
      FoldAfterNone(gs, hs[..n]);
    }
  }

  /** The same, for a piece without geometry at index n. */
  lemma {:induction false} FoldFromNone(gs: seq<Option<Shape>>, n: nat)
    requires n < |gs| && gs[n].None?
    ensures Fold(gs) == Fold(gs[n + 1..])
  {
    assert gs == gs[..n] + [None] + gs[n + 1..];
    FoldAfterNone(gs[..n], gs[n + 1..]);
  }

  /** The geometries of the pieces of a location text, piece by piece. */
  function Pieces(geometryOf: string -> Option<Shape>, pieces: seq<string>): (r: seq<Option<Shape>>)
    ensures |r| == |pieces| && forall k | 0 <= k < |pieces| :: r[k] == geometryOf(pieces[k])
  {
    seq(|pieces|, k requires 0 <= k < |pieces| => geometryOf(pieces[k]))
  }

  /** A text whose piece before some `;` has no geometry folds to what the text after that `;` folds to. */
  lemma {:induction false} FailureDiscards(geometryOf: string -> Option<Shape>, a: string, b: string)
    requires geometryOf(LastPiece(a, ';')).None?
    ensures Fold(Pieces(geometryOf, Split(a + ";" + b, ';'))) == Fold(Pieces(geometryOf, Split(b, ';')))
  {
    SplitConcat(a, b, ';');
    FailureDiscardsPieces(geometryOf, Split(a, ';'), Split(b, ';'));
  }

  /** The same, for the pieces themselves. */
  lemma {:induction false} FailureDiscardsPieces(geometryOf: string -> Option<Shape>, pa: seq<string>, pb: seq<string>)
    requires pa != [] && geometryOf(pa[|pa| - 1]).None?
    ensures Fold(Pieces(geometryOf, pa + pb)) == Fold(Pieces(geometryOf, pb))
  {
    var gs, n := Pieces(geometryOf, pa + pb), |pa| - 1;
    assert (pa + pb)[n] == pa[n];
    FoldFromNone(gs, n);
    assert gs[n + 1..] == Pieces(geometryOf, pb) by {
      forall k | 0 <= k < |pb| ensures (pa + pb)[n + 1 + k] == pb[k] { }
    }
  }

  /** While the accumulator is empty it takes whatever comes: up to the first piece with a geometry, the fold is that geometry. */
  lemma {:induction false} FoldUpToFirst(gs: seq<Option<Shape>>, j: nat)
    requires j < |gs| && gs[j].Some? && forall k | 0 <= k < j :: gs[k].None?
    ensures Fold(gs[..j + 1]) == gs[j]
  {
    var pre := gs[..j + 1][..j];
    assert pre == gs[..j];
    FoldNoneIff(pre);
  }

  /** Pieces that are all Points fold to a shape covering exactly those points, in order (shapely's MultiPoint). */
  lemma {:induction false} FoldPoints(gs: seq<Option<Shape>>, ps: seq<Point>)
    requires |gs| == |ps| >= 1 && forall k | 0 <= k < |gs| :: gs[k] == Some(PointShape(ps[k]))
    ensures Fold(gs).Some? && PointsOf(Fold(gs).value) == ps
    decreases |gs|
  {
    var n := |gs| - 1;
    if n > 0 {
      assert forall k | 0 <= k < n :: gs[..n][k] == gs[k];
      FoldPoints(gs[..n], ps[..n]);
      assert ps == ps[..n] + [ps[n]];
    }
  }

  // ---------------------------------------------------------------------------------
  // get_clockwise_sequence

  function SumX(ps: seq<Point>): real
    decreases |ps|
  {
    if ps == [] then 0.0 else SumX(ps[..|ps| - 1]) + ps[|ps| - 1].x
  }

  function SumY(ps: seq<Point>): real
    decreases |ps|
  {
    if ps == [] then 0.0 else SumY(ps[..|ps| - 1]) + ps[|ps| - 1].y
  }

  /** The mean of the points; with no point the division raises. */
  function Centroid(ps: seq<Point>): Point
    requires ps != []
  {
    Point(SumX(ps) / |ps| as real, SumY(ps) / |ps| as real)
  }

  /** `math.atan2(dy, dx)` of p about c. */
  function Angle(c: Point, p: Point, atan2: (real, real) -> real): real {
    atan2(p.y - c.y, p.x - c.x)
  }

  function Angles(c: Point, ps: seq<Point>, atan2: (real, real) -> real): (r: seq<real>)
    ensures |r| == |ps| && forall k | 0 <= k < |ps| :: r[k] == Angle(c, ps[k], atan2)
  {
    seq(|ps|, k requires 0 <= k < |ps| => Angle(c, ps[k], atan2))
  }

  /** `zip(angles, points)`. */
  function Zip(angles: seq<real>, ps: seq<Point>): (r: seq<(real, Point)>)
    requires |angles| == |ps|
    ensures |r| == |ps| && forall k | 0 <= k < |ps| :: r[k] == (angles[k], ps[k])
  {
    seq(|ps|, k requires 0 <= k < |ps| => (angles[k], ps[k]))
  }

  /**
   * Two pairs with the same angle and different points: comparing the pairs then
   * compares the Points, which shapely does not order, so `sorted` raises.  Equal points
   * make equal pairs and are never compared further.
   */
  predicate HasTie(xs: seq<(real, Point)>) {
    exists i, j | 0 <= i < |xs| && 0 <= j < |xs| :: xs[i].0 == xs[j].0 && xs[i].1 != xs[j].1
  }

  predicate AngleOrdered(ps: seq<Point>, c: Point, atan2: (real, real) -> real) {
    forall i, j | 0 <= i < j < |ps| :: Angle(c, ps[i], atan2) <= Angle(c, ps[j], atan2)
  }

  /** p placed into a sequence ordered by angle about c, after every point with an angle no greater. */
  function InsertByAngle(p: Point, ps: seq<Point>, c: Point, atan2: (real, real) -> real): seq<Point> {
    if ps == [] then [p]
    else if Angle(c, p, atan2) < Angle(c, ps[0], atan2) then [p] + ps
    else [ps[0]] + InsertByAngle(p, ps[1..], c, atan2)
  }

  /** A point at or below every angle of an ordered sequence can go in front of it. */
  lemma {:induction false} ConsOrdered(x: Point, t: seq<Point>, c: Point, atan2: (real, real) -> real)
    requires AngleOrdered(t, c, atan2) && forall k | 0 <= k < |t| :: Angle(c, x, atan2) <= Angle(c, t[k], atan2)
    ensures AngleOrdered([x] + t, c, atan2)
  {
    var r := [x] + t;
    assert forall k | 1 <= k < |r| :: r[k] == t[k - 1];
  }

  /** Inserting into an angle-ordered sequence keeps it ordered and adds exactly p. */
  lemma {:induction false} InsertByAngleOrdered(p: Point, ps: seq<Point>, c: Point, atan2: (real, real) -> real)
    requires AngleOrdered(ps, c, atan2)
    ensures AngleOrdered(InsertByAngle(p, ps, c, atan2), c, atan2)
    ensures multiset(InsertByAngle(p, ps, c, atan2)) == multiset(ps) + multiset{p}
    decreases |ps|
  {
    if ps == [] {
    } else if Angle(c, p, atan2) < Angle(c, ps[0], atan2) {
      ConsOrdered(p, ps, c, atan2);
    } else {
      var tail := ps[1..];
      assert forall k | 0 <= k < |tail| :: tail[k] == ps[k + 1];
      InsertByAngleOrdered(p, tail, c, atan2);
      InsertAboveBound(p, tail, c, atan2, Angle(c, ps[0], atan2));
      ConsOrdered(ps[0], InsertByAngle(p, tail, c, atan2), c, atan2);
      assert ps == [ps[0]] + tail;
    }
  }

  /** Every angle of the insertion stays at or above a bound that p and all of ps respect. */
  lemma {:induction false} InsertAboveBound(p: Point, ps: seq<Point>, c: Point, atan2: (real, real) -> real, bound: real)
    requires bound <= Angle(c, p, atan2) && forall k | 0 <= k < |ps| :: bound <= Angle(c, ps[k], atan2)
    ensures forall k | 0 <= k < |InsertByAngle(p, ps, c, atan2)| :: bound <= Angle(c, InsertByAngle(p, ps, c, atan2)[k], atan2)
    decreases |ps|
  {
    if ps != [] && Angle(c, p, atan2) >= Angle(c, ps[0], atan2) {
      assert forall k | 1 <= k < |ps| :: ps[1..][k - 1] == ps[k];
      InsertAboveBound(p, ps[1..], c, atan2, bound);
      var t := InsertByAngle(p, ps[1..], c, atan2);
      var r := [ps[0]] + t;
      assert InsertByAngle(p, ps, c, atan2) == r;
      forall k | 0 <= k < |r| ensures bound <= Angle(c, r[k], atan2) {
        if k > 0 {
          assert r[k] == t[k - 1];
        }
      }
    } else {
      assert forall k | 1 <= k < |ps| + 1 :: ([p] + ps)[k] == ps[k - 1];
    }
  }

  /** `[p for _, p in sorted(zip(angles, points))]`: the points ordered by their angles. */
  function SortByAngle(ps: seq<Point>, c: Point, atan2: (real, real) -> real): seq<Point> {
    if ps == [] then [] else InsertByAngle(ps[0], SortByAngle(ps[1..], c, atan2), c, atan2)
  }

  /** The sort is a permutation of the points, non-decreasing in angle. */
  lemma {:induction false} SortByAngleOrdered(ps: seq<Point>, c: Point, atan2: (real, real) -> real)
    ensures var r := SortByAngle(ps, c, atan2);
      AngleOrdered(r, c, atan2) && multiset(r) == multiset(ps)
    decreases |ps|
  {
    if ps != [] {
      assert ps == [ps[0]] + ps[1..];
      SortByAngleOrdered(ps[1..], c, atan2);
      InsertByAngleOrdered(ps[0], SortByAngle(ps[1..], c, atan2), c, atan2);
    }
  }

  /**
   * `get_clockwise_sequence(points)`: the points sorted by their angle about the
   * centroid; it raises with no point (the centroid divides by zero) and on a tie
   * between different points.
   */
  function Clockwise(ps: seq<Point>, atan2: (real, real) -> real): Outcome<seq<Point>> {
    if ps == [] then Raised
    else
      var c := Centroid(ps);
      if HasTie(Zip(Angles(c, ps, atan2), ps)) then Raised else Returned(SortByAngle(ps, c, atan2))
  }

  /** The clockwise sequence is there exactly when there is a point and no two different points share an angle. */
  lemma {:induction false} ClockwiseRaisesIff(ps: seq<Point>, atan2: (real, real) -> real)
    ensures Clockwise(ps, atan2).Returned? <==>
      ps != [] && forall i, j | 0 <= i < |ps| && 0 <= j < |ps| && ps[i] != ps[j] ::
        Angle(Centroid(ps), ps[i], atan2) != Angle(Centroid(ps), ps[j], atan2)
  {
    if ps != [] {
      var zipped := Zip(Angles(Centroid(ps), ps, atan2), ps);
      assert HasTie(zipped) <==> exists i, j | 0 <= i < |ps| && 0 <= j < |ps| ::
        zipped[i].0 == zipped[j].0 && zipped[i].1 != zipped[j].1;
    }
  }

  /** The clockwise sequence is a permutation of the points, non-decreasing in angle about their centroid. */
  lemma {:induction false} ClockwiseIsSortedPermutation(ps: seq<Point>, atan2: (real, real) -> real)
    requires Clockwise(ps, atan2).Returned?
    ensures var r := Clockwise(ps, atan2).value;
      multiset(r) == multiset(ps) &&
      forall i, j | 0 <= i < j < |r| :: Angle(Centroid(ps), r[i], atan2) <= Angle(Centroid(ps), r[j], atan2)
  {
    SortByAngleOrdered(ps, Centroid(ps), atan2);
  }

  /** The loop of `get_clockwise_sequence`: one angle per point, then the sort of the pairs. */
  method ClockwiseSequence(ps: seq<Point>, atan2: (real, real) -> real) returns (r: Outcome<seq<Point>>)
    ensures r == Clockwise(ps, atan2)
  {
    if |ps| == 0 {
      return Raised;
    }
    var centroid := Centroid(ps);
    var angles: seq<real> := [];
    for i := 0 to |ps|
      invariant |angles| == i && forall k | 0 <= k < i :: angles[k] == Angle(centroid, ps[k], atan2)
    {
      var dx := ps[i].x - centroid.x;
      var dy := ps[i].y - centroid.y;
      angles := angles + [atan2(dy, dx)];
    }
    assert angles == Angles(centroid, ps, atan2);
    if HasTie(Zip(angles, ps)) {
      return Raised;
    }
    r := Returned(SortByAngle(ps, centroid, atan2));
  }

  // ---------------------------------------------------------------------------------
  // The alley polygon of the assemblers that order the corners

  /** `Polygon(get_clockwise_sequence(points))` inside the piece's try: either raising leaves no shape. */
  function ClockwisePolygon(resolved: seq<Point>, atan2: (real, real) -> real): Option<Shape> {
    match Clockwise(resolved, atan2)
    case Raised => None
    case Returned(ring) => Caught(MakePolygon(ring))
  }

  /** Three corners that are all the same point: their ring closes into three coordinates. */
  predicate OnePointThrice(ps: seq<Point>) {
    |ps| == 3 && ps[0] == ps[1] && ps[1] == ps[2]
  }

  /**
   * There is a polygon exactly when the points can be ordered and make a ring: at least
   * three of them, not three times the same point, and no two different ones at the same
   * angle about their centroid.
   */
  lemma {:induction false} ClockwisePolygonIff(resolved: seq<Point>, atan2: (real, real) -> real)
    ensures ClockwisePolygon(resolved, atan2).Some? <==>
      3 <= |resolved| && !OnePointThrice(resolved) &&
      forall i, j | 0 <= i < |resolved| && 0 <= j < |resolved| && resolved[i] != resolved[j] ::
        Angle(Centroid(resolved), resolved[i], atan2) != Angle(Centroid(resolved), resolved[j], atan2)
  {
    ClockwiseRaisesIff(resolved, atan2);
    if Clockwise(resolved, atan2).Returned? {
      ClockwiseIsSortedPermutation(resolved, atan2);
      var ring := Clockwise(resolved, atan2).value;
      assert |ring| == |multiset(resolved)|;
      if |ring| == 3 {
        ClosedTriple(resolved, ring, Centroid(resolved), atan2);
      }
    }
  }

  /**
   * An angle-ordered permutation of three points with no tie starts and ends at the same
   * point exactly when all three are that point.
   */
  lemma {:induction false} ClosedTriple(ps: seq<Point>, ring: seq<Point>, c: Point, atan2: (real, real) -> real)
    requires |ring| == 3 && multiset(ring) == multiset(ps)
    requires forall i, j | 0 <= i < j < |ring| :: Angle(c, ring[i], atan2) <= Angle(c, ring[j], atan2)
    requires forall i, j | 0 <= i < |ps| && 0 <= j < |ps| && ps[i] != ps[j] :: Angle(c, ps[i], atan2) != Angle(c, ps[j], atan2)
    ensures ring[0] == ring[2] <==> OnePointThrice(ps)
  {
    assert |ps| == 3 by { assert |multiset(ps)| == |ps|; }
    var a0, a1, a2 := Angle(c, ring[0], atan2), Angle(c, ring[1], atan2), Angle(c, ring[2], atan2);
    assert a0 <= a1 <= a2;
    var i0 := IndexIn(ring[0], ps);
    var i1 := IndexIn(ring[1], ps);
    var i2 := IndexIn(ring[2], ps);
    if ring[0] == ring[2] {
      if ring[1] != ring[0] {
        assert false;
      }
      var j0 := IndexIn(ps[0], ring);
      var j1 := IndexIn(ps[1], ring);
      var j2 := IndexIn(ps[2], ring);
    } else if OnePointThrice(ps) {
      assert false;
    }
  }

  /** Where a point of a permutation sits in the other sequence. */
  lemma {:induction false} IndexIn(p: Point, s: seq<Point>) returns (k: nat)
    requires p in multiset(s)
    ensures k < |s| && s[k] == p
  {
    k :| 0 <= k < |s| && s[k] == p;
  }

  /** The polygon is a ring over the points, each as often as given, in non-decreasing angle about their centroid. */
  lemma {:induction false} ClockwisePolygonRing(resolved: seq<Point>, atan2: (real, real) -> real)
    requires ClockwisePolygon(resolved, atan2).Some?
    ensures ClockwisePolygon(resolved, atan2).value.Polygon? && resolved != []
    ensures multiset(PointsOf(ClockwisePolygon(resolved, atan2).value)) == multiset(resolved)
    ensures AngleOrdered(PointsOf(ClockwisePolygon(resolved, atan2).value), Centroid(resolved), atan2)
  {
    ClockwiseIsSortedPermutation(resolved, atan2);
  }
}
