/**
  The mesh geometry of the internal CAM engine in `SlicerService.cs`: the vector types, the
  triangle mesh, its bounding box (`GetBounds`), the cut of the mesh by a horizontal plane
  (`IntersectPlaneZ`) and the crossings of the mesh's projection with a horizontal or vertical
  scanline, sorted and paired into intervals (`IntersectHorizontalLineY`,
  `IntersectVerticalLineX`).

  Coordinates are `double` in the source and `real` here: the comparisons with the tolerances
  1e-12 and 1e-8 are kept as written, rounding is not modelled.
*/
module CamGeometry {
  import opened Options

  datatype Vector3 = Vector3(x: real, y: real, z: real)

  datatype Vector2 = Vector2(x: real, y: real)

  /** `Vector3 operator -`: adding the difference back to `b` gives `a`. */
  function Sub(a: Vector3, b: Vector3): (d: Vector3)
    ensures Vector3(b.x + d.x, b.y + d.y, b.z + d.z) == a
  {
    Vector3(a.x - b.x, a.y - b.y, a.z - b.z)
  }

  /** `Vector3.Cross`. */
  function Cross(a: Vector3, b: Vector3): Vector3 {
    Vector3(a.y * b.z - a.z * b.y, a.z * b.x - a.x * b.z, a.x * b.y - a.y * b.x)
  }

  function Dot(a: Vector3, b: Vector3): real {
    a.x * b.x + a.y * b.y + a.z * b.z
  }

  /** The cross product is orthogonal to both of its factors. */
  lemma CrossOrthogonal(a: Vector3, b: Vector3)
    ensures Dot(Cross(a, b), a) == 0.0 && Dot(Cross(a, b), b) == 0.0
  {
  }

  /** Swapping the factors negates the cross product. */
  lemma CrossAntiCommutes(a: Vector3, b: Vector3)
    ensures Cross(b, a) == Sub(Vector3(0.0, 0.0, 0.0), Cross(a, b))
  {
  }

  /** The indexer `Vector3[idx]`: 0 is X, 1 is Y, and every other index is Z. */
  function Component(v: Vector3, idx: int): real {
    if idx == 0 then v.x else if idx == 1 then v.y else v.z
  }

  /** The indexer reads the coordinates of a difference as the differences of the coordinates. */
  lemma SubComponent(a: Vector3, b: Vector3, idx: int)
    ensures Component(Sub(a, b), idx) == Component(a, idx) - Component(b, idx)
  {
  }

  /** `Triangle`: three vertices. */
  datatype Triangle = Triangle(a: Vector3, b: Vector3, c: Vector3)

  /**
    `Mesh`: its list of triangles. The loaders fill it and nothing changes it afterwards, so it
    is a value here.
  */
  datatype Mesh = Mesh(triangles: seq<Triangle>)

  // ---------------------------------------------------------------------------------------
  // Bounding box
  // ---------------------------------------------------------------------------------------

  /** The tuple `GetBounds` returns. */
  datatype Bounds = Bounds(minX: real, maxX: real, minY: real, maxY: real, minZ: real, maxZ: real)

  predicate Inside(b: Bounds, v: Vector3) {
    b.minX <= v.x <= b.maxX && b.minY <= v.y <= b.maxY && b.minZ <= v.z <= b.maxZ
  }

  /** Coordinate `axis` of every vertex, triangle by triangle, in the order A, B, C. */
  function Coords(tris: seq<Triangle>, axis: int): (s: seq<real>)
    ensures |s| == 3 * |tris|
  {
    if tris == [] then []
    else
      var t := tris[|tris| - 1];
      Coords(tris[..|tris| - 1], axis) + [Component(t.a, axis), Component(t.b, axis), Component(t.c, axis)]
  }

  /** `v` is coordinate `axis` of some vertex of some triangle. */
  ghost predicate IsVertexCoord(tris: seq<Triangle>, axis: int, v: real) {
    exists i :: 0 <= i < |tris| &&
      (Component(tris[i].a, axis) == v || Component(tris[i].b, axis) == v || Component(tris[i].c, axis) == v)
  }

  /** The coordinates of triangle `i` sit at positions 3i, 3i+1 and 3i+2. */
  lemma {:induction false} CoordsAt(tris: seq<Triangle>, axis: int)
    ensures forall i :: 0 <= i < |tris| ==>
      Coords(tris, axis)[3 * i] == Component(tris[i].a, axis) &&
      Coords(tris, axis)[3 * i + 1] == Component(tris[i].b, axis) &&
      Coords(tris, axis)[3 * i + 2] == Component(tris[i].c, axis)
  {
    if tris != [] {
      var n := |tris|;
      var before := tris[..n - 1];
      CoordsAt(before, axis);
      var s, earlier := Coords(tris, axis), Coords(before, axis);
      assert s[..|earlier|] == earlier;
      forall i | 0 <= i < n - 1
        ensures s[3 * i] == Component(tris[i].a, axis) && s[3 * i + 1] == Component(tris[i].b, axis) &&
          s[3 * i + 2] == Component(tris[i].c, axis)
      {
        assert tris[i] == before[i];
        assert s[3 * i] == earlier[3 * i] && s[3 * i + 1] == earlier[3 * i + 1] && s[3 * i + 2] == earlier[3 * i + 2];
      }
    }
  }

  /** Bounds on every entry of the coordinate list bound every vertex. */
  lemma CoordsBounded(tris: seq<Triangle>, axis: int, lo: real, hi: real)
    requires forall k :: 0 <= k < |Coords(tris, axis)| ==> lo <= Coords(tris, axis)[k] <= hi
    ensures forall i :: 0 <= i < |tris| ==>
      lo <= Component(tris[i].a, axis) <= hi && lo <= Component(tris[i].b, axis) <= hi &&
      lo <= Component(tris[i].c, axis) <= hi
  {
    CoordsAt(tris, axis);
    forall i | 0 <= i < |tris|
      ensures lo <= Component(tris[i].a, axis) <= hi && lo <= Component(tris[i].b, axis) <= hi &&
        lo <= Component(tris[i].c, axis) <= hi
    {
      assert 3 * i + 2 < |Coords(tris, axis)|;
    }
  }

  /** Every entry of the coordinate list is a vertex coordinate. */
  lemma {:induction false} CoordsAreVertexCoords(tris: seq<Triangle>, axis: int, v: real)
    requires v in Coords(tris, axis)
    ensures IsVertexCoord(tris, axis, v)
  {
    var n := |tris|;
    var before := tris[..n - 1];
    var t := tris[n - 1];
    if v in Coords(before, axis) {
      CoordsAreVertexCoords(before, axis, v);
      var i :| 0 <= i < |before| &&
        (Component(before[i].a, axis) == v || Component(before[i].b, axis) == v || Component(before[i].c, axis) == v);
      assert tris[i] == before[i];
    } else {
      assert v in [Component(t.a, axis), Component(t.b, axis), Component(t.c, axis)];
    }
  }

  /** `Enumerable.Min` of a non-empty list. */
  function Min(s: seq<real>): (m: real)
    requires s != []
    ensures m in s && forall i :: 0 <= i < |s| ==> m <= s[i]
  {
    if |s| == 1 then s[0]
    else
      var rest := Min(s[1..]);
      if s[0] <= rest then s[0] else rest
  }

  /** `Enumerable.Max` of a non-empty list. */
  function Max(s: seq<real>): (m: real)
    requires s != []
    ensures m in s && forall i :: 0 <= i < |s| ==> s[i] <= m
  {
    if |s| == 1 then s[0]
    else
      var rest := Max(s[1..]);
      if s[0] >= rest then s[0] else rest
  }

  /** The box `GetBounds` computes: all zeros for no triangles, else the extremes of each axis. */
  function BoxOf(tris: seq<Triangle>): (b: Bounds)
    ensures tris == [] ==> b == Bounds(0.0, 0.0, 0.0, 0.0, 0.0, 0.0)
    ensures b.minX <= b.maxX && b.minY <= b.maxY && b.minZ <= b.maxZ
  {
    if tris == [] then Bounds(0.0, 0.0, 0.0, 0.0, 0.0, 0.0)
    else
      var xs, ys, zs := Coords(tris, 0), Coords(tris, 1), Coords(tris, 2);
      Bounds(Min(xs), Max(xs), Min(ys), Max(ys), Min(zs), Max(zs))
  }

  /** The box holds every vertex, so each minimum is at most its maximum. */
  lemma BoxContains(tris: seq<Triangle>)
    ensures forall i :: 0 <= i < |tris| ==>
      Inside(BoxOf(tris), tris[i].a) && Inside(BoxOf(tris), tris[i].b) && Inside(BoxOf(tris), tris[i].c)
    ensures BoxOf(tris).minX <= BoxOf(tris).maxX && BoxOf(tris).minY <= BoxOf(tris).maxY &&
      BoxOf(tris).minZ <= BoxOf(tris).maxZ
  {
    if tris != [] {
      var b := BoxOf(tris);
      CoordsBounded(tris, 0, b.minX, b.maxX);
      CoordsBounded(tris, 1, b.minY, b.maxY);
      CoordsBounded(tris, 2, b.minZ, b.maxZ);
      assert Inside(b, tris[0].a);
    }
  }

  /** Each face of the box passes through a vertex: the box is the smallest holding them all. */
  lemma BoxTight(tris: seq<Triangle>)
    requires tris != []
    ensures IsVertexCoord(tris, 0, BoxOf(tris).minX) && IsVertexCoord(tris, 0, BoxOf(tris).maxX)
    ensures IsVertexCoord(tris, 1, BoxOf(tris).minY) && IsVertexCoord(tris, 1, BoxOf(tris).maxY)
    ensures IsVertexCoord(tris, 2, BoxOf(tris).minZ) && IsVertexCoord(tris, 2, BoxOf(tris).maxZ)
  {
    var b := BoxOf(tris);
    CoordsAreVertexCoords(tris, 0, b.minX);
    CoordsAreVertexCoords(tris, 0, b.maxX);
    CoordsAreVertexCoords(tris, 1, b.minY);
    CoordsAreVertexCoords(tris, 1, b.maxY);
    CoordsAreVertexCoords(tris, 2, b.minZ);
    CoordsAreVertexCoords(tris, 2, b.maxZ);
  }

  /**
    `Mesh.GetBounds`: the X, Y and Z coordinates of every vertex are gathered into three lists
    and the box is made of their minima and maxima; an empty mesh gives all zeros.
  */
  method GetBounds(mesh: Mesh) returns (b: Bounds)
    ensures b == BoxOf(mesh.triangles)
  {
    var tris := mesh.triangles;
    if |tris| == 0 {
      return Bounds(0.0, 0.0, 0.0, 0.0, 0.0, 0.0);
    }
    var xs, ys, zs := [], [], [];
    for i := 0 to |tris|
      invariant xs == Coords(tris[..i], 0)
      invariant ys == Coords(tris[..i], 1)
      invariant zs == Coords(tris[..i], 2)
    {
      var t := tris[i];
      assert tris[..i + 1][..i] == tris[..i];
      xs := xs + [t.a.x, t.b.x, t.c.x];
      ys := ys + [t.a.y, t.b.y, t.c.y];
      zs := zs + [t.a.z, t.b.z, t.c.z];
    }
    assert tris[..|tris|] == tris;
    b := Bounds(Min(xs), Max(xs), Min(ys), Max(ys), Min(zs), Max(zs));
  }

  // ---------------------------------------------------------------------------------------
  // Edge crossings
  // ---------------------------------------------------------------------------------------

  /** 1e-12: below this coordinate difference an edge counts as parallel to the cut. */
  const Eps: real := 0.000000000001

  /** 1e-8: how far outside [0, 1] the edge parameter of a plane crossing may fall. */
  const ParamSlack: real := 0.00000001

  /** `Math.Abs`. */
  function Abs(r: real): real {
    if r < 0.0 then -r else r
  }

  /** `level` lies between `u` and `v`, ends included: the edge is not wholly on one side. */
  predicate Straddles(u: real, v: real, level: real) {
    (u <= level <= v) || (v <= level <= u)
  }

  /** The value at parameter `t` of a coordinate going from `u` (at 0) to `v` (at 1). */
  function Lerp(u: real, v: real, t: real): real {
    u + t * (v - u)
  }

  /** The point of the edge from `p` to `q` at parameter `t` (0 at `p`, 1 at `q`). */
  function PointAt(p: Vector3, q: Vector3, t: real): Vector3 {
    Vector3(Lerp(p.x, q.x, t), Lerp(p.y, q.y, t), Lerp(p.z, q.z, t))
  }

  /** The parameter at which an edge whose coordinate goes from `u` to `v` reaches `level`. */
  function EdgeParam(u: real, v: real, level: real): real
    requires u != v
  {
    (level - u) / (v - u)
  }

  lemma QuotientInUnit(n: real, d: real)
    requires 0.0 <= n <= d && d > 0.0
    ensures 0.0 <= n / d <= 1.0
  {
    var t := n / d;
    assert t * d == n;
  }

  /** In exact arithmetic the parameter of a crossing lies in [0, 1] and reaches the level. */
  lemma EdgeParamInUnit(u: real, v: real, level: real)
    requires u != v && Straddles(u, v, level)
    ensures 0.0 <= EdgeParam(u, v, level) <= 1.0
    ensures Lerp(u, v, EdgeParam(u, v, level)) == level
  {
    if u < v {
      QuotientInUnit(level - u, v - u);
    } else {
      QuotientInUnit(u - level, u - v);
      assert (level - u) / (v - u) == (u - level) / (u - v);
    }
  }

  /**
    `TryEdgeIntersect` as a value: where the edge from `p1` to `p2` crosses the plane z = `z0`,
    projected onto XY. There is a crossing exactly when the edge is not parallel to the plane
    (|dz| >= 1e-12) and does not lie strictly on one side; the 1e-8 guard on the parameter
    never rejects one in exact arithmetic.
  */
  function PlaneCrossing(p1: Vector3, p2: Vector3, z0: real): (r: Option<Vector2>)
    ensures r.Some? <==> Abs(p1.z - p2.z) >= Eps && Straddles(p1.z, p2.z, z0)
  {
    var z1, z2 := p1.z, p2.z;
    if Abs(z1 - z2) < Eps then None
    else if (z1 < z0 && z2 < z0) || (z1 > z0 && z2 > z0) then None
    else
      var t := EdgeParam(z1, z2, z0);
      EdgeParamInUnit(z1, z2, z0);
      if t < -ParamSlack || t > 1.0 + ParamSlack then None
      else Some(Vector2(Lerp(p1.x, p2.x, t), Lerp(p1.y, p2.y, t)))
  }

  /** `v` is the XY projection of the point of the edge from `p` to `q` at height `z0`. */
  ghost predicate CutOfEdgeAt(p: Vector3, q: Vector3, z0: real, v: Vector2) {
    exists t :: 0.0 <= t <= 1.0 && PointAt(p, q, t).z == z0 &&
      v == Vector2(PointAt(p, q, t).x, PointAt(p, q, t).y)
  }

  /** A plane crossing is where the edge itself meets the plane. */
  lemma PlaneCrossingOnEdge(p1: Vector3, p2: Vector3, z0: real)
    requires PlaneCrossing(p1, p2, z0).Some?
    ensures CutOfEdgeAt(p1, p2, z0, PlaneCrossing(p1, p2, z0).value)
  {
    var t := EdgeParam(p1.z, p2.z, z0);
    EdgeParamInUnit(p1.z, p2.z, z0);
    assert PointAt(p1, p2, t).z == z0;
  }

  /** `TryEdgeIntersect`: appends the plane crossing of one edge, if any, to `pts`. */
  method TryEdgeIntersect(p1: Vector3, p2: Vector3, z0: real, pts: seq<Vector2>) returns (out: seq<Vector2>)
    ensures out == pts + Present(PlaneCrossing(p1, p2, z0))
  {
    var z1, z2 := p1.z, p2.z;
    if Abs(z1 - z2) < Eps {
      return pts;
    }
    if (z1 < z0 && z2 < z0) || (z1 > z0 && z2 > z0) {
      return pts;
    }
    var t := (z0 - z1) / (z2 - z1);
    if t < -ParamSlack || t > 1.0 + ParamSlack {
      return pts;
    }
    assert t == EdgeParam(z1, z2, z0);
    var x := Lerp(p1.x, p2.x, t);
    var y := Lerp(p1.y, p2.y, t);
    assert PlaneCrossing(p1, p2, z0) == Some(Vector2(x, y));
    out := pts + [Vector2(x, y)];
  }

  /** The value of an option as a list of zero or one element. */
  function Present<T>(o: Option<T>): (s: seq<T>)
    ensures o.None? ==> s == []
    ensures o.Some? ==> s == [o.value]
  {
    match o
    case None => []
    case Some(v) => [v]
  }

  // ---------------------------------------------------------------------------------------
  // Plane cut
  // ---------------------------------------------------------------------------------------

  /** A segment of the cut, as the pair of its ends. */
  type Segment = (Vector2, Vector2)

  /** The crossings of the edges A-B, B-C and C-A with the plane, in that order. */
  function TriangleCrossings(t: Triangle, z0: real): (pts: seq<Vector2>)
    ensures |pts| <= 3
  {
    Present(PlaneCrossing(t.a, t.b, z0)) + Present(PlaneCrossing(t.b, t.c, z0)) +
    Present(PlaneCrossing(t.c, t.a, z0))
  }

  /** Every vertex more than 1e-12 above the plane. */
  predicate AllAbove(t: Triangle, z0: real) {
    t.a.z - z0 > Eps && t.b.z - z0 > Eps && t.c.z - z0 > Eps
  }

  /** Every vertex more than 1e-12 below the plane. */
  predicate AllBelow(t: Triangle, z0: real) {
    t.a.z - z0 < -Eps && t.b.z - z0 < -Eps && t.c.z - z0 < -Eps
  }

  /** The segment one triangle adds to the cut: its first two edge crossings, if it has two. */
  function TriangleCut(t: Triangle, z0: real): (r: Option<Segment>)
    ensures r.Some? ==> !AllAbove(t, z0) && !AllBelow(t, z0) && |TriangleCrossings(t, z0)| >= 2
  {
    if AllAbove(t, z0) || AllBelow(t, z0) then None
    else
      var pts := TriangleCrossings(t, z0);
      if |pts| >= 2 then Some((pts[0], pts[1])) else None
  }

  /**
    The early skip of a triangle wholly above or below the plane is only a shortcut: such a
    triangle has no edge crossing at all. A triangle whose edges have two crossings gives
    the segment between the first two.
  */
  lemma TriangleCutMeaning(t: Triangle, z0: real)
    ensures AllAbove(t, z0) || AllBelow(t, z0) ==> TriangleCrossings(t, z0) == [] && TriangleCut(t, z0).None?
    ensures TriangleCut(t, z0).Some? <==> |TriangleCrossings(t, z0)| >= 2
    ensures TriangleCut(t, z0).Some? ==>
      TriangleCut(t, z0).value == (TriangleCrossings(t, z0)[0], TriangleCrossings(t, z0)[1])
  {
  }

  /** Each end of a triangle's segment is where one of its edges meets the plane. */
  lemma TriangleCutOnEdges(t: Triangle, z0: real)
    requires TriangleCut(t, z0).Some?
    ensures var s := TriangleCut(t, z0).value;
      (CutOfEdgeAt(t.a, t.b, z0, s.0) || CutOfEdgeAt(t.b, t.c, z0, s.0) || CutOfEdgeAt(t.c, t.a, z0, s.0)) &&
      (CutOfEdgeAt(t.a, t.b, z0, s.1) || CutOfEdgeAt(t.b, t.c, z0, s.1) || CutOfEdgeAt(t.c, t.a, z0, s.1))
  {
    var ab, bc, ca := PlaneCrossing(t.a, t.b, z0), PlaneCrossing(t.b, t.c, z0), PlaneCrossing(t.c, t.a, z0);
    if ab.Some? { PlaneCrossingOnEdge(t.a, t.b, z0); }
    if bc.Some? { PlaneCrossingOnEdge(t.b, t.c, z0); }
    if ca.Some? { PlaneCrossingOnEdge(t.c, t.a, z0); }
  }

  /** The segments of the cut, in triangle order. */
  function Cuts(tris: seq<Triangle>, z0: real): (cuts: seq<Segment>)
    ensures |cuts| <= |tris|
  {
    if tris == [] then []
    else Cuts(tris[..|tris| - 1], z0) + Present(TriangleCut(tris[|tris| - 1], z0))
  }

  /** The indices of the triangles that add a segment, in increasing order. */
  function CutSources(tris: seq<Triangle>, z0: real): seq<nat> {
    if tris == [] then []
    else
      var n := |tris| - 1;
      CutSources(tris[..n], z0) + (if TriangleCut(tris[n], z0).Some? then [n] else [])
  }

  /** The contributing triangles are listed in strictly increasing order, each a valid index. */
  lemma {:induction false} CutSourcesIncreasing(tris: seq<Triangle>, z0: real)
    ensures |CutSources(tris, z0)| <= |tris|
    ensures forall k :: 0 <= k < |CutSources(tris, z0)| ==> CutSources(tris, z0)[k] < |tris|
    ensures forall k, m :: 0 <= k < m < |CutSources(tris, z0)| ==> CutSources(tris, z0)[k] < CutSources(tris, z0)[m]
  {
    if tris != [] {
      var n := |tris| - 1;
      CutSourcesIncreasing(tris[..n], z0);
      var src, src0 := CutSources(tris, z0), CutSources(tris[..n], z0);
      assert src[..|src0|] == src0;
      forall k, m | 0 <= k < m < |src|
        ensures src[k] < src[m]
      {
        assert src[k] == src0[k];
        if m < |src0| {
          assert src[m] == src0[m];
        } else {
          assert src[m] == n;
        }
      }
    }
  }

  /**
    Each triangle adds at most one segment, and the segments come in triangle order: the k-th
    segment is that of the k-th contributing triangle, and every contributing triangle is there.
  */
  lemma {:induction false} CutsInTriangleOrder(tris: seq<Triangle>, z0: real)
    ensures |Cuts(tris, z0)| == |CutSources(tris, z0)| <= |tris|
    ensures forall k :: 0 <= k < |CutSources(tris, z0)| ==>
      CutSources(tris, z0)[k] < |tris| &&
      TriangleCut(tris[CutSources(tris, z0)[k]], z0) == Some(Cuts(tris, z0)[k])
    ensures forall k, m :: 0 <= k < m < |CutSources(tris, z0)| ==> CutSources(tris, z0)[k] < CutSources(tris, z0)[m]
  {
    CutSourcesIncreasing(tris, z0);
    if tris != [] {
      var n := |tris| - 1;
      var before := tris[..n];
      CutsInTriangleOrder(before, z0);
      var src, segs := CutSources(tris, z0), Cuts(tris, z0);
      var src0, segs0 := CutSources(before, z0), Cuts(before, z0);
      assert src[..|src0|] == src0 && segs[..|segs0|] == segs0;
      forall k | 0 <= k < |src|
        ensures TriangleCut(tris[src[k]], z0) == Some(segs[k])
      {
        if k < |src0| {
          assert src[k] == src0[k] && segs[k] == segs0[k];
          assert tris[src[k]] == before[src0[k]];
        }
      }
    }
  }

  /** Every triangle that has a segment is among the contributing triangles. */
  lemma {:induction false} CutsComplete(tris: seq<Triangle>, z0: real, i: nat)
    requires i < |tris| && TriangleCut(tris[i], z0).Some?
    ensures i in CutSources(tris, z0)
  {
    var n := |tris| - 1;
    var before := tris[..n];
    if i < n {
      assert tris[i] == before[i];
      CutsComplete(before, z0, i);
    }
  }

  /** `Mesh.IntersectPlaneZ`: the segments where the plane z = `z0` cuts the mesh. */
  method IntersectPlaneZ(mesh: Mesh, z0: real) returns (segs: seq<Segment>)
    ensures segs == Cuts(mesh.triangles, z0)
  {
    var tris := mesh.triangles;
    segs := [];
    for i := 0 to |tris|
      invariant segs == Cuts(tris[..i], z0)
    {
      assert tris[..i + 1][..i] == tris[..i];
      var cut := CutTriangle(tris[i], z0);
      segs := segs + Present(cut);
    }
    assert tris[..|tris|] == tris;
  }

  /** The body of the loop of `IntersectPlaneZ` for one triangle: its segment, if any. */
  method CutTriangle(tri: Triangle, z0: real) returns (cut: Option<Segment>)
    ensures cut == TriangleCut(tri, z0)
  {
    var da, db, dc := tri.a.z - z0, tri.b.z - z0, tri.c.z - z0;
    if (da > Eps && db > Eps && dc > Eps) || (da < -Eps && db < -Eps && dc < -Eps) {
      return None;
    }
    var pts := [];
    pts := TryEdgeIntersect(tri.a, tri.b, z0, pts);
    pts := TryEdgeIntersect(tri.b, tri.c, z0, pts);
    pts := TryEdgeIntersect(tri.c, tri.a, z0, pts);
    assert pts == TriangleCrossings(tri, z0);
    if |pts| >= 2 {
      return Some((pts[0], pts[1]));
    }
    return None;
  }

  // ---------------------------------------------------------------------------------------
  // Scanlines
  // ---------------------------------------------------------------------------------------

  /**
    `TryEdgeIntersectXY` (cut on Y = 1, reporting X = 0) and `TryEdgeIntersectYX` (cut on
    X = 0, reporting Y = 1) as a value: where the edge from `p1` to `p2` reaches `level` on
    coordinate `cut`, reported by its coordinate `along`. There is a crossing exactly when the
    edge is not parallel to the line (difference >= 1e-12) and does not lie strictly on one side.
  */
  function LineCrossing(p1: Vector3, p2: Vector3, level: real, cut: int, along: int): (r: Option<real>)
    ensures r.Some? <==>
      (Abs(Component(p1, cut) - Component(p2, cut)) >= Eps && Straddles(Component(p1, cut), Component(p2, cut), level))
  {
    var u, v := Component(p1, cut), Component(p2, cut);
    if Abs(u - v) < Eps then None
    else if (u < level && v < level) || (u > level && v > level) then None
    else
      var t := EdgeParam(u, v, level);
      Some(Lerp(Component(p1, along), Component(p2, along), t))
  }

  /** The indexer reads a point of an edge as the same interpolation of the coordinates. */
  lemma ComponentOfPointAt(p: Vector3, q: Vector3, t: real, idx: int)
    ensures Component(PointAt(p, q, t), idx) == Lerp(Component(p, idx), Component(q, idx), t)
  {
  }

  /** A scanline crossing is where the edge itself reaches the line. */
  lemma LineCrossingOnEdge(p1: Vector3, p2: Vector3, level: real, cut: int, along: int)
    requires LineCrossing(p1, p2, level, cut, along).Some?
    ensures exists t :: (0.0 <= t <= 1.0 && Component(PointAt(p1, p2, t), cut) == level &&
                         Component(PointAt(p1, p2, t), along) == LineCrossing(p1, p2, level, cut, along).value)
  {
    var u, v := Component(p1, cut), Component(p2, cut);
    var t := EdgeParam(u, v, level);
    EdgeParamInUnit(u, v, level);
    ComponentOfPointAt(p1, p2, t, cut);
    ComponentOfPointAt(p1, p2, t, along);
  }

  /** One edge helper of the scanlines: appends the crossing of one edge, if any. */
  method TryEdgeIntersectLine(p1: Vector3, p2: Vector3, level: real, cut: int, along: int, found: seq<real>)
    returns (out: seq<real>)
    ensures out == found + Present(LineCrossing(p1, p2, level, cut, along))
  {
    var u, v := Component(p1, cut), Component(p2, cut);
    if Abs(u - v) < Eps {
      return found;
    }
    if (u < level && v < level) || (u > level && v > level) {
      return found;
    }
    var t := (level - u) / (v - u);
    var w := Component(p1, along) + t * (Component(p2, along) - Component(p1, along));
    assert t == EdgeParam(u, v, level);
    assert LineCrossing(p1, p2, level, cut, along).Some?;
    assert LineCrossing(p1, p2, level, cut, along).value == w;
    out := found + [w];
  }

  /** The crossings of every triangle's edges A-B, B-C and C-A with a scanline, in order. */
  function Crossings(tris: seq<Triangle>, level: real, cut: int, along: int): (s: seq<real>)
    ensures |s| <= 3 * |tris|
  {
    if tris == [] then []
    else
      var t := tris[|tris| - 1];
      Crossings(tris[..|tris| - 1], level, cut, along) +
      Present(LineCrossing(t.a, t.b, level, cut, along)) +
      Present(LineCrossing(t.b, t.c, level, cut, along)) +
      Present(LineCrossing(t.c, t.a, level, cut, along))
  }

  predicate Sorted(s: seq<real>) {
    forall i, j :: 0 <= i < j < |s| ==> s[i] <= s[j]
  }

  /** `x` put into its place in a list. */
  function Insert(x: real, s: seq<real>): (r: seq<real>)
    ensures |r| == |s| + 1
  {
    if s == [] || x <= s[0] then [x] + s else [s[0]] + Insert(x, s[1..])
  }

  /** Inserting keeps every element and adds `x`. */
  lemma {:induction false} InsertElements(x: real, s: seq<real>)
    ensures multiset(Insert(x, s)) == multiset(s) + multiset{x}
  {
    if s != [] && x > s[0] {
      InsertElements(x, s[1..]);
      assert s == [s[0]] + s[1..];
    }
  }

  /** A lower bound of `x` and of every element of `s` bounds the list `x` is inserted into. */
  lemma {:induction false} InsertBounded(x: real, s: seq<real>, lo: real)
    requires lo <= x && forall i :: 0 <= i < |s| ==> lo <= s[i]
    ensures forall i :: 0 <= i < |Insert(x, s)| ==> lo <= Insert(x, s)[i]
  {
    if s != [] && x > s[0] {
      InsertBounded(x, s[1..], lo);
    }
  }

  /** Inserting into a sorted list keeps it sorted. */
  lemma {:induction false} InsertSorted(x: real, s: seq<real>)
    requires Sorted(s)
    ensures Sorted(Insert(x, s))
  {
    if s != [] && x > s[0] {
      InsertSorted(x, s[1..]);
      InsertBounded(x, s[1..], s[0]);
    }
  }

  /** `List<double>.Sort`, as a value: insertion sort. */
  function Sort(s: seq<real>): (r: seq<real>)
    ensures |r| == |s|
  {
    if s == [] then [] else Insert(s[0], Sort(s[1..]))
  }

  /** Sorting gives the same elements, in ascending order. */
  lemma {:induction false} SortCorrect(s: seq<real>)
    ensures Sorted(Sort(s)) && multiset(Sort(s)) == multiset(s)
  {
    if s != [] {
      SortCorrect(s[1..]);
      InsertSorted(s[0], Sort(s[1..]));
      InsertElements(s[0], Sort(s[1..]));
      assert s == [s[0]] + s[1..];
    }
  }

  /** Consecutive elements paired up: the first with the second, the third with the fourth... */
  function Pairs(s: seq<real>): (ps: seq<(real, real)>)
    ensures |ps| == |s| / 2
    ensures forall k :: 0 <= k < |ps| ==> ps[k] == (s[2 * k], s[2 * k + 1])
  {
    if |s| < 2 then [] else [(s[0], s[1])] + Pairs(s[2..])
  }

  /** Paired sorted crossings are intervals with lo <= hi, in ascending order, none overlapping. */
  lemma PairsOfSorted(s: seq<real>)
    requires Sorted(s)
    ensures forall k :: 0 <= k < |Pairs(s)| ==> Pairs(s)[k].0 <= Pairs(s)[k].1
    ensures forall k, m :: 0 <= k < m < |Pairs(s)| ==> Pairs(s)[k].1 <= Pairs(s)[m].0
  {
    var ps := Pairs(s);
    forall k, m | 0 <= k < m < |ps|
      ensures ps[k].1 <= ps[m].0
    {
      assert ps[k].1 == s[2 * k + 1] && ps[m].0 == s[2 * m];
    }
  }

  /**
    The shared body of `IntersectHorizontalLineY` and `IntersectVerticalLineX`: the crossings of
    every edge, sorted, then paired. There are half as many intervals as crossings (rounded
    down), each with lo <= hi, in ascending order.
  */
  method ScanlineIntervals(mesh: Mesh, level: real, cut: int, along: int) returns (intervals: seq<(real, real)>)
    ensures intervals == Pairs(Sort(Crossings(mesh.triangles, level, cut, along)))
  {
    var tris := mesh.triangles;
    var found := [];
    for i := 0 to |tris|
      invariant found == Crossings(tris[..i], level, cut, along)
    {
      var t := tris[i];
      assert tris[..i + 1][..i] == tris[..i];
      found := TryEdgeIntersectLine(t.a, t.b, level, cut, along, found);
      found := TryEdgeIntersectLine(t.b, t.c, level, cut, along, found);
      found := TryEdgeIntersectLine(t.c, t.a, level, cut, along, found);
    }
    assert tris[..|tris|] == tris;
    var sorted := Sort(found);
    intervals := PairUp(sorted);
  }

  /** The pairing loop of the scanlines: elements 0 and 1, then 2 and 3, and so on. */
  method PairUp(sorted: seq<real>) returns (intervals: seq<(real, real)>)
    ensures intervals == Pairs(sorted)
  {
    intervals := [];
    var i := 0;
    while i + 1 < |sorted|
      invariant 0 <= i <= |sorted| && i == 2 * |intervals|
      invariant forall k :: 0 <= k < |intervals| ==> intervals[k] == (sorted[2 * k], sorted[2 * k + 1])
    {
      intervals := intervals + [(sorted[i], sorted[i + 1])];
      i := i + 2;
    }
    assert intervals == Pairs(sorted);
  }

  /**
    The scanline intervals: half as many as there are crossings (rounded down), each with
    lo <= hi, in ascending order and not overlapping.
  */
  lemma ScanIntervalsOrdered(crossings: seq<real>)
    ensures |Pairs(Sort(crossings))| == |crossings| / 2
    ensures forall k :: 0 <= k < |Pairs(Sort(crossings))| ==> Pairs(Sort(crossings))[k].0 <= Pairs(Sort(crossings))[k].1
    ensures forall k, m :: 0 <= k < m < |Pairs(Sort(crossings))| ==>
      Pairs(Sort(crossings))[k].1 <= Pairs(Sort(crossings))[m].0
  {
    SortCorrect(crossings);
    assert |Sort(crossings)| == |multiset(Sort(crossings))| == |crossings|;
    PairsOfSorted(Sort(crossings));
  }

  /** `Mesh.IntersectHorizontalLineY`: the intervals of X where the line y = `y0` is inside. */
  method IntersectHorizontalLineY(mesh: Mesh, y0: real) returns (intervals: seq<(real, real)>)
    ensures intervals == Pairs(Sort(Crossings(mesh.triangles, y0, 1, 0)))
  {
    intervals := ScanlineIntervals(mesh, y0, 1, 0);
  }

  /** `Mesh.IntersectVerticalLineX`: the intervals of Y where the line x = `x0` is inside. */
  method IntersectVerticalLineX(mesh: Mesh, x0: real) returns (intervals: seq<(real, real)>)
    ensures intervals == Pairs(Sort(Crossings(mesh.triangles, x0, 0, 1)))
  {
    intervals := ScanlineIntervals(mesh, x0, 0, 1);
  }
}
