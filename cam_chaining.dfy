/**
  `Geometry.ChainSegmentsToPolylines` of the CAM engine: the segments of a plane cut are chained
  into polylines. Each unused segment starts a polyline; the polyline then grows at its end or
  at its start with any unused segment one of whose ends is within the tolerance of it, until a
  whole pass over the segments adds nothing. A `bool` array marks the segments already used.

  The ghost result gives, for every polyline, the segment joining each pair of consecutive
  points; through it the contract states that every segment is used by exactly one polyline.
*/
module CamChaining {
  import opened CamGeometry

  /**
    `Distance(a, b) < tolerance`, where `Distance` is the Euclidean distance
    `Math.Sqrt(dx * dx + dy * dy)`. A square root is never negative, so the test fails for a
    tolerance <= 0, and otherwise it is the same as comparing the squares.
  */
  predicate Near(a: Vector2, b: Vector2, tolerance: real)
    ensures Near(a, b, tolerance) ==> tolerance > 0.0
  {
    var dx, dy := a.x - b.x, a.y - b.y;
    tolerance > 0.0 && dx * dx + dy * dy < tolerance * tolerance
  }

  /**
    The four tests of the inner loop, in their order: an end of segment `s` is within the
    tolerance of the last or of the first point of the polyline.
  */
  predicate NearEnds(poly: seq<Vector2>, s: Segment, tolerance: real)
    ensures NearEnds(poly, s, tolerance) ==> poly != [] && tolerance > 0.0
  {
    poly != [] &&
    (Near(poly[|poly| - 1], s.0, tolerance) || Near(poly[|poly| - 1], s.1, tolerance) ||
     Near(poly[0], s.1, tolerance) || Near(poly[0], s.0, tolerance))
  }

  /** Nearness does not depend on the order of the two points. */
  lemma NearSymmetric(a: Vector2, b: Vector2, tolerance: real)
    ensures Near(a, b, tolerance) <==> Near(b, a, tolerance)
  {
    assert (a.x - b.x) * (a.x - b.x) == (b.x - a.x) * (b.x - a.x);
    assert (a.y - b.y) * (a.y - b.y) == (b.y - a.y) * (b.y - a.y);
  }

  /** The four tests cover both orientations of a segment: reversing it changes nothing. */
  lemma NearEndsReversed(poly: seq<Vector2>, s: Segment, tolerance: real)
    ensures NearEnds(poly, s, tolerance) <==> NearEnds(poly, (s.1, s.0), tolerance)
  {
  }

  /**
    The polyline after segment `s` joins it: the first of the four tests that holds decides
    whether the far end of `s` is appended or prepended. With no test holding it is unchanged.
  */
  function JoinAt(poly: seq<Vector2>, s: Segment, tolerance: real): (r: seq<Vector2>)
    ensures !NearEnds(poly, s, tolerance) ==> r == poly
    ensures NearEnds(poly, s, tolerance) ==>
      |r| == |poly| + 1 &&
      ((r[..|poly|] == poly && r[|poly|] in {s.0, s.1}) || (r[1..] == poly && r[0] in {s.0, s.1}))
  {
    if poly == [] then poly
    else if Near(poly[|poly| - 1], s.0, tolerance) then poly + [s.1]
    else if Near(poly[|poly| - 1], s.1, tolerance) then poly + [s.0]
    else if Near(poly[0], s.1, tolerance) then [s.0] + poly
    else if Near(poly[0], s.0, tolerance) then [s.1] + poly
    else poly
  }

  /** `a` is `b`, or within the tolerance of it. */
  predicate Close(a: Vector2, b: Vector2, tolerance: real) {
    a == b || Near(a, b, tolerance)
  }

  /** The segment `s` joins the consecutive points `p` and `q`, in one direction or the other. */
  predicate Joins(s: Segment, p: Vector2, q: Vector2, tolerance: real) {
    (Close(p, s.0, tolerance) && Close(q, s.1, tolerance)) ||
    (Close(p, s.1, tolerance) && Close(q, s.0, tolerance))
  }

  /** The polyline follows the segments `links`: `links[k]` joins its points k and k + 1. */
  predicate Follows(poly: seq<Vector2>, links: seq<nat>, segs: seq<Segment>, tolerance: real) {
    |poly| == |links| + 1 &&
    forall k :: 0 <= k < |links| ==> links[k] < |segs| && Joins(segs[links[k]], poly[k], poly[k + 1], tolerance)
  }

  predicate Distinct(s: seq<nat>) {
    forall a, b :: 0 <= a < b < |s| ==> s[a] != s[b]
  }

  lemma DistinctAppend(a: seq<nat>, b: seq<nat>)
    requires Distinct(a) && Distinct(b) && forall x :: x in b ==> x !in a
    ensures Distinct(a + b)
  {
    forall i, j | 0 <= i < j < |a + b|
      ensures (a + b)[i] != (a + b)[j]
    {
      if i < |a| && j >= |a| {
        assert (a + b)[j] in b;
      }
    }
  }

  /** The groups one after the other. */
  function Flatten(groups: seq<seq<nat>>): seq<nat> {
    if groups == [] then [] else Flatten(groups[..|groups| - 1]) + groups[|groups| - 1]
  }

  /** The number of points over all polylines. */
  function TotalPoints(polys: seq<seq<Vector2>>): nat {
    if polys == [] then 0 else TotalPoints(polys[..|polys| - 1]) + |polys[|polys| - 1]|
  }

  /** The number of entries still `false`: the segments not used yet. */
  function CountFalse(s: seq<bool>): (n: nat)
    ensures n <= |s|
  {
    if s == [] then 0 else CountFalse(s[..|s| - 1]) + (if s[|s| - 1] then 0 else 1)
  }

  /** Marking an unused segment used leaves one fewer unused. */
  lemma {:induction false} CountFalseMark(s: seq<bool>, j: nat)
    requires j < |s| && !s[j]
    ensures CountFalse(s[j := true]) == CountFalse(s) - 1
  {
    var n := |s| - 1;
    if j < n {
      assert s[j := true][..n] == s[..n][j := true];
      CountFalseMark(s[..n], j);
    } else {
      assert s[j := true][..n] == s[..n];
    }
  }

  lemma {:induction false} CountFalseAll(s: seq<bool>)
    requires forall j :: 0 <= j < |s| ==> !s[j]
    ensures CountFalse(s) == |s|
  {
    if s != [] {
      CountFalseAll(s[..|s| - 1]);
    }
  }

  lemma {:induction false} CountFalseNone(s: seq<bool>)
    requires forall j :: 0 <= j < |s| ==> s[j]
    ensures CountFalse(s) == 0
  {
    if s != [] {
      CountFalseNone(s[..|s| - 1]);
    }
  }

  /** Polylines of at least two points hold at least twice as many points as there are polylines. */
  lemma {:induction false} TotalPointsAtLeast(polys: seq<seq<Vector2>>)
    requires forall k :: 0 <= k < |polys| ==> |polys[k]| >= 2
    ensures TotalPoints(polys) >= 2 * |polys|
  {
    if polys != [] {
      TotalPointsAtLeast(polys[..|polys| - 1]);
    }
  }

  /** Distinct entries of the flattened groups: no index is in two groups, nor twice in one. */
  lemma {:induction false} FlattenDistinct(groups: seq<seq<nat>>, k1: nat, k2: nat, x: nat)
    requires Distinct(Flatten(groups))
    requires k1 < |groups| && k2 < |groups| && x in groups[k1] && x in groups[k2]
    ensures k1 == k2
  {
    var n := |groups| - 1;
    var before := groups[..n];
    var flat := Flatten(groups);
    assert flat == Flatten(before) + groups[n];
    assert Distinct(Flatten(before)) by {
      assert flat[..|Flatten(before)|] == Flatten(before);
    }
    if k1 < n && k2 < n {
      assert groups[k1] == before[k1] && groups[k2] == before[k2];
      FlattenDistinct(before, k1, k2, x);
    } else if k1 < n || k2 < n {
      var k := if k1 < n then k1 else k2;
      assert x in before[k] by {
        assert groups[k] == before[k];
      }
      FlattenContains(before, k, x);
    }
  }

  lemma {:induction false} FlattenContains(groups: seq<seq<nat>>, k: nat, x: nat)
    requires k < |groups| && x in groups[k]
    ensures x in Flatten(groups)
  {
    var n := |groups| - 1;
    if k < n {
      assert groups[k] == groups[..n][k];
      FlattenContains(groups[..n], k, x);
    }
  }

  /** Adding a point at the end, joined by segment `j` to the last point, keeps the polyline following its links. */
  lemma FollowsAppend(poly: seq<Vector2>, links: seq<nat>, segs: seq<Segment>, tolerance: real, j: nat, p: Vector2)
    requires Follows(poly, links, segs, tolerance) && j < |segs|
    requires Joins(segs[j], poly[|poly| - 1], p, tolerance)
    ensures Follows(poly + [p], links + [j], segs, tolerance)
  {
  }

  /** Adding a point at the start, joined by segment `j` to the first point, keeps it following its links. */
  lemma FollowsPrepend(poly: seq<Vector2>, links: seq<nat>, segs: seq<Segment>, tolerance: real, j: nat, p: Vector2)
    requires Follows(poly, links, segs, tolerance) && j < |segs|
    requires Joins(segs[j], p, poly[0], tolerance)
    ensures Follows([p] + poly, [j] + links, segs, tolerance)
  {
    var poly', links' := [p] + poly, [j] + links;
    forall k | 0 <= k < |links'|
      ensures links'[k] < |segs| && Joins(segs[links'[k]], poly'[k], poly'[k + 1], tolerance)
    {
      if k > 0 {
        assert links'[k] == links[k - 1] && poly'[k] == poly[k - 1] && poly'[k + 1] == poly[k];
      }
    }
  }

  /**
    The `used` marks agree with the bookkeeping: a segment is marked exactly when it is a link
    of a finished polyline (`taken`) or of the growing one (`links`), no segment is a link
    twice, and the unmarked ones are all the others.
  */
  ghost predicate Marks(used: seq<bool>, taken: seq<nat>, links: seq<nat>) {
    Distinct(taken) && Distinct(links) && (forall x :: x in links ==> x !in taken) &&
    (forall j :: 0 <= j < |used| ==> (used[j] <==> j in taken || j in links)) &&
    CountFalse(used) + |taken| + |links| == |used|
  }

  /** Marking segment `j` and making it the new last link keeps the bookkeeping. */
  lemma MarkAppend(used: seq<bool>, taken: seq<nat>, links: seq<nat>, j: nat)
    requires Marks(used, taken, links) && j < |used| && !used[j]
    ensures Marks(used[j := true], taken, links + [j]) && CountFalse(used[j := true]) < CountFalse(used)
  {
    CountFalseMark(used, j);
    DistinctAppend(links, [j]);
  }

  /** Marking segment `j` and making it the new first link keeps the bookkeeping. */
  lemma MarkPrepend(used: seq<bool>, taken: seq<nat>, links: seq<nat>, j: nat)
    requires Marks(used, taken, links) && j < |used| && !used[j]
    ensures Marks(used[j := true], taken, [j] + links) && CountFalse(used[j := true]) < CountFalse(used)
  {
    CountFalseMark(used, j);
    DistinctAppend([j], links);
  }

  /** Growing a polyline only ever adds marks: a segment marked before stays marked. */
  lemma MarksKeep(before: seq<bool>, after: seq<bool>, taken: seq<nat>, links: seq<nat>)
    requires |before| == |after| && Marks(before, taken, []) && Marks(after, taken, links)
    ensures forall j :: 0 <= j < |before| && before[j] ==> after[j]
    ensures forall j :: 0 <= j < |before| && j in links ==> !before[j]
  {
  }

  lemma MarksFinish(used: seq<bool>, taken: seq<nat>, links: seq<nat>)
    requires Marks(used, taken, links)
    ensures Marks(used, taken + links, [])
  {
    DistinctAppend(taken, links);
  }

  /** `x` added at the start or at the end of `xs`. */
  function Added<T>(xs: seq<T>, x: T, atStart: bool): seq<T> {
    if atStart then [x] + xs else xs + [x]
  }

  /** Taking an unused segment that joins the new point to the end it is added at keeps both invariants. */
  lemma Take(used: seq<bool>, taken: seq<nat>, poly: seq<Vector2>, links: seq<nat>, segs: seq<Segment>,
             tolerance: real, j: nat, p: Vector2, atStart: bool)
    requires |used| == |segs| && j < |used| && !used[j]
    requires links != [] && Follows(poly, links, segs, tolerance) && Marks(used, taken, links)
    requires atStart ==> Joins(segs[j], p, poly[0], tolerance)
    requires !atStart ==> Joins(segs[j], poly[|poly| - 1], p, tolerance)
    ensures Added(links, j, atStart) != [] && Follows(Added(poly, p, atStart), Added(links, j, atStart), segs, tolerance)
    ensures Marks(used[j := true], taken, Added(links, j, atStart)) && CountFalse(used[j := true]) < CountFalse(used)
  {
    if atStart {
      MarkPrepend(used, taken, links, j);
      FollowsPrepend(poly, links, segs, tolerance, j, p);
    } else {
      MarkAppend(used, taken, links, j);
      FollowsAppend(poly, links, segs, tolerance, j, p);
    }
  }

  /**
    The body of the inner `for` loop of `ChainSegmentsToPolylines` for an unused segment `j`:
    it is tried against the current ends of the polyline (end to its first point, end to its
    second point, start to its second point, start to its first point) and, on the first test
    that is near, is marked used and its other point is added at that end.
  */
  method TryJoin(segs: seq<Segment>, tolerance: real, used: array<bool>, j: nat, poly: seq<Vector2>,
                 ghost taken: seq<nat>, ghost links: seq<nat>)
    returns (grown: seq<Vector2>, ghost grownLinks: seq<nat>, joined: bool)
    requires used.Length == |segs| && j < used.Length && !used[j]
    requires links != [] && Follows(poly, links, segs, tolerance) && Marks(used[..], taken, links)
    modifies used
    ensures grownLinks != [] && Follows(grown, grownLinks, segs, tolerance) && Marks(used[..], taken, grownLinks)
    ensures joined <==> NearEnds(poly, segs[j], tolerance)
    ensures joined ==> CountFalse(used[..]) < old(CountFalse(used[..])) && used[..] == old(used[..])[j := true]
    ensures !joined ==> used[..] == old(used[..]) && grown == poly && grownLinks == links
    ensures grown == JoinAt(poly, segs[j], tolerance)
    ensures forall x :: x in links ==> x in grownLinks
  {
    var s := segs[j];
    grown, grownLinks, joined := poly, links, true;
    if Near(poly[|poly| - 1], s.0, tolerance) {
      Take(used[..], taken, poly, links, segs, tolerance, j, s.1, false);
      grown, grownLinks := poly + [s.1], links + [j];
    } else if Near(poly[|poly| - 1], s.1, tolerance) {
      Take(used[..], taken, poly, links, segs, tolerance, j, s.0, false);
      grown, grownLinks := poly + [s.0], links + [j];
    } else if Near(poly[0], s.1, tolerance) {
      Take(used[..], taken, poly, links, segs, tolerance, j, s.0, true);
      grown, grownLinks := [s.0] + poly, [j] + links;
    } else if Near(poly[0], s.0, tolerance) {
      Take(used[..], taken, poly, links, segs, tolerance, j, s.1, true);
      grown, grownLinks := [s.1] + poly, [j] + links;
    } else {
      joined := false;
    }
    if joined {
      used[j] := true;
    }
  }

  /** `inner` occurs in `outer` as the run of consecutive points starting at index `i`. */
  predicate RunAt(inner: seq<Vector2>, outer: seq<Vector2>, i: int) {
    0 <= i <= |outer| - |inner| && outer[i..i + |inner|] == inner
  }

  /** `inner` occurs in `outer` as a run of consecutive points. */
  ghost predicate Infix(inner: seq<Vector2>, outer: seq<Vector2>) {
    exists i :: RunAt(inner, outer, i)
  }

  /** Joining a segment only adds a point at one end, so every run of the polyline survives it. */
  lemma InfixJoin(inner: seq<Vector2>, poly: seq<Vector2>, s: Segment, tolerance: real)
    requires Infix(inner, poly)
    ensures Infix(inner, JoinAt(poly, s, tolerance))
  {
    var i :| RunAt(inner, poly, i);
    var r := JoinAt(poly, s, tolerance);
    if r == poly {
      assert RunAt(inner, r, i);
    } else if r[..|poly|] == poly {
      assert r[i..i + |inner|] == poly[i..i + |inner|];
      assert RunAt(inner, r, i);
    } else {
      assert r[i + 1..i + 1 + |inner|] == poly[i..i + |inner|];
      assert RunAt(inner, r, i + 1);
    }
  }

  /** A run of a run of `outer` is a run of `outer`. */
  lemma InfixTrans(a: seq<Vector2>, b: seq<Vector2>, c: seq<Vector2>)
    requires Infix(a, b) && Infix(b, c)
    ensures Infix(a, c)
  {
    var i :| RunAt(a, b, i);
    var k :| RunAt(b, c, k);
    forall n | 0 <= n < |a|
      ensures c[k + i..k + i + |a|][n] == a[n]
    {
      assert c[k + i + n] == c[k..k + |b|][i + n] == b[i + n] == b[i..i + |a|][n];
    }
    assert c[k + i..k + i + |a|] == a;
    assert RunAt(a, c, k + i);
  }

  /**
    One pass of the inner `for` loop of `ChainSegmentsToPolylines`: every segment still unused
    is tried, in order; `extended` tells whether any was added.
  */
  method ExtendPass(segs: seq<Segment>, tolerance: real, used: array<bool>, poly: seq<Vector2>,
                    ghost taken: seq<nat>, ghost links: seq<nat>)
    returns (grown: seq<Vector2>, ghost grownLinks: seq<nat>, extended: bool)
    requires used.Length == |segs|
    requires links != [] && Follows(poly, links, segs, tolerance) && Marks(used[..], taken, links)
    modifies used
    ensures grownLinks != [] && Follows(grown, grownLinks, segs, tolerance) && Marks(used[..], taken, grownLinks)
    ensures CountFalse(used[..]) <= old(CountFalse(used[..]))
    ensures extended ==> CountFalse(used[..]) < old(CountFalse(used[..]))
    ensures !extended ==> grown == poly && used[..] == old(used[..])
    ensures !extended ==> forall k :: 0 <= k < |segs| && !used[k] ==> !NearEnds(poly, segs[k], tolerance)
    ensures forall x :: x in links ==> x in grownLinks
    ensures Infix(poly, grown)
  {
    grown, grownLinks, extended := poly, links, false;
    assert RunAt(poly, grown, 0);
    for j := 0 to used.Length
      invariant grownLinks != [] && Follows(grown, grownLinks, segs, tolerance) && Marks(used[..], taken, grownLinks)
      invariant CountFalse(used[..]) <= old(CountFalse(used[..]))
      invariant extended ==> CountFalse(used[..]) < old(CountFalse(used[..]))
      invariant !extended ==> grown == poly && grownLinks == links && used[..] == old(used[..])
      invariant !extended ==> forall k :: 0 <= k < j && !used[k] ==> !NearEnds(poly, segs[k], tolerance)
      invariant forall x :: x in links ==> x in grownLinks
      invariant Infix(poly, grown)
    {
      if used[j] {
        continue;
      }
      var joined;
      InfixJoin(poly, grown, segs[j], tolerance);
      grown, grownLinks, joined := TryJoin(segs, tolerance, used, j, grown, taken, grownLinks);
      extended := extended || joined;
    }
  }

  /**
    The body of the outer loop of `ChainSegmentsToPolylines` for an unused segment `i`: it is
    marked used, starts the polyline with its two points, and passes over the segments repeat
    until one adds nothing.
  */
  method GrowPolyline(segs: seq<Segment>, tolerance: real, used: array<bool>, i: nat, ghost taken: seq<nat>)
    returns (poly: seq<Vector2>, ghost links: seq<nat>)
    requires used.Length == |segs| && i < used.Length && !used[i] && Marks(used[..], taken, [])
    modifies used
    ensures links != [] && Follows(poly, links, segs, tolerance) && Marks(used[..], taken, links)
    ensures i in links
    ensures forall k :: 0 <= k < |segs| && !used[k] ==> !NearEnds(poly, segs[k], tolerance)
    ensures Infix([segs[i].0, segs[i].1], poly)
  {
    MarkAppend(used[..], taken, [], i);
    assert [] + [i] == [i];
    used[i] := true;
    var cur := segs[i];
    poly, links := [cur.0, cur.1], [i];
    assert RunAt(poly, poly, 0);
    var extended := true;
    while extended
      invariant links != [] && Follows(poly, links, segs, tolerance) && Marks(used[..], taken, links)
      invariant i in links
      invariant !extended ==> forall k :: 0 <= k < |segs| && !used[k] ==> !NearEnds(poly, segs[k], tolerance)
      invariant Infix([cur.0, cur.1], poly)
      decreases CountFalse(used[..]), extended
    {
      ghost var before := poly;
      poly, links, extended := ExtendPass(segs, tolerance, used, poly, taken, links);
      InfixTrans([cur.0, cur.1], before, poly);
    }
  }

  /**
    The finished polylines so far: each follows its non-empty group of links, `taken` is all
    their links in order, and each polyline has one point more than it has links.
  */
  ghost predicate Chained(polylines: seq<seq<Vector2>>, groups: seq<seq<nat>>, taken: seq<nat>,
                          segs: seq<Segment>, tolerance: real) {
    |groups| == |polylines| && taken == Flatten(groups) &&
    (forall k :: 0 <= k < |polylines| ==> groups[k] != [] && Follows(polylines[k], groups[k], segs, tolerance)) &&
    TotalPoints(polylines) == |taken| + |polylines|
  }

  lemma ChainedAdd(polylines: seq<seq<Vector2>>, groups: seq<seq<nat>>, taken: seq<nat>, segs: seq<Segment>,
                   tolerance: real, poly: seq<Vector2>, links: seq<nat>)
    requires Chained(polylines, groups, taken, segs, tolerance)
    requires links != [] && Follows(poly, links, segs, tolerance)
    ensures Chained(polylines + [poly], groups + [links], taken + links, segs, tolerance)
  {
    assert (groups + [links])[..|groups|] == groups;
    assert (polylines + [poly])[..|polylines|] == polylines;
  }

  /**
    The finished polylines cannot grow: no unused segment is near an end of any of them, and no
    segment of a later polyline is near an end of an earlier one.
  */
  ghost predicate Apart(polylines: seq<seq<Vector2>>, groups: seq<seq<nat>>, used: seq<bool>,
                        segs: seq<Segment>, tolerance: real) {
    |groups| == |polylines| && |used| == |segs| &&
    (forall k, j :: 0 <= k < |polylines| && 0 <= j < |used| && !used[j] ==>
      !NearEnds(polylines[k], segs[j], tolerance)) &&
    (forall k1, k2, j :: 0 <= k1 < k2 < |polylines| && 0 <= j < |segs| && j in groups[k2] ==>
      !NearEnds(polylines[k1], segs[j], tolerance))
  }

  /**
    A polyline grown until no unused segment is near its ends, from segments that were unused
    before, keeps the finished polylines apart.
  */
  lemma ApartAdd(polylines: seq<seq<Vector2>>, groups: seq<seq<nat>>, before: seq<bool>, after: seq<bool>,
                 segs: seq<Segment>, tolerance: real, poly: seq<Vector2>, links: seq<nat>)
    requires Apart(polylines, groups, before, segs, tolerance) && |after| == |segs|
    requires forall j :: 0 <= j < |after| && !after[j] ==> !before[j]
    requires forall j :: 0 <= j < |segs| && j in links ==> !before[j]
    requires forall j :: 0 <= j < |segs| && !after[j] ==> !NearEnds(poly, segs[j], tolerance)
    ensures Apart(polylines + [poly], groups + [links], after, segs, tolerance)
  {
    var ps, gs := polylines + [poly], groups + [links];
    forall k1, k2, j | 0 <= k1 < k2 < |ps| && 0 <= j < |segs| && j in gs[k2]
      ensures !NearEnds(ps[k1], segs[j], tolerance)
    {
      assert ps[k1] == polylines[k1];
      if k2 == |polylines| {
        assert !before[j];
      } else {
        assert gs[k2] == groups[k2];
      }
    }
    forall k, j | 0 <= k < |ps| && 0 <= j < |after| && !after[j]
      ensures !NearEnds(ps[k], segs[j], tolerance)
    {
      if k < |polylines| {
        assert ps[k] == polylines[k];
      }
    }
  }

  /** Once every segment is taken, exactly once, the polylines have the promised shape. */
  lemma ChainedDone(polylines: seq<seq<Vector2>>, groups: seq<seq<nat>>, taken: seq<nat>, segs: seq<Segment>,
                    tolerance: real)
    requires Chained(polylines, groups, taken, segs, tolerance) && |taken| == |segs|
    ensures forall k :: 0 <= k < |polylines| ==> |polylines[k]| >= 2
    ensures TotalPoints(polylines) == |segs| + |polylines|
    ensures |polylines| <= |segs|
  {
    TotalPointsAtLeast(polylines);
  }

  /**
    `Geometry.ChainSegmentsToPolylines`. Every segment is used exactly once: the links of all
    polylines together are the segment indices, each once. Each polyline follows its links, so
    it has one point more than it has segments, hence at least two; there are never more
    polylines than segments, all the points together number the segments plus the polylines,
    and no segments give no polylines.
  */
  method ChainSegmentsToPolylines(segs: seq<Segment>, tolerance: real)
    returns (polylines: seq<seq<Vector2>>, ghost groups: seq<seq<nat>>)
    ensures |groups| == |polylines|
    ensures forall k :: 0 <= k < |polylines| ==> groups[k] != [] && Follows(polylines[k], groups[k], segs, tolerance)
    ensures |Flatten(groups)| == |segs| && Distinct(Flatten(groups))
    ensures forall j :: 0 <= j < |segs| ==> j in Flatten(groups)
    ensures forall k :: 0 <= k < |polylines| ==> |polylines[k]| >= 2
    ensures TotalPoints(polylines) == |segs| + |polylines|
    ensures |polylines| <= |segs|
    ensures segs == [] ==> polylines == []
    ensures forall k1, k2, j :: 0 <= k1 < k2 < |polylines| && 0 <= j < |segs| && j in groups[k2] ==>
      !NearEnds(polylines[k1], segs[j], tolerance)
  {
    var n := |segs|;
    var used := new bool[n](_ => false);
    polylines, groups := [], [];
    ghost var taken: seq<nat> := [];
    CountFalseAll(used[..]);
    for i := 0 to n
      invariant Chained(polylines, groups, taken, segs, tolerance)
      invariant Marks(used[..], taken, [])
      invariant forall j :: 0 <= j < i ==> used[j]
      invariant Apart(polylines, groups, used[..], segs, tolerance)
    {
      polylines, groups, taken := ChainFrom(segs, tolerance, used, i, polylines, groups, taken);
    }
    ChainedAll(polylines, groups, taken, used[..], segs, tolerance);
  }

  /** One pass of the outer loop: segment `i`, if still free, starts a new polyline. */
  method ChainFrom(segs: seq<Segment>, tolerance: real, used: array<bool>, i: nat,
                   polylines: seq<seq<Vector2>>, ghost groups: seq<seq<nat>>, ghost taken: seq<nat>)
    returns (polylines': seq<seq<Vector2>>, ghost groups': seq<seq<nat>>, ghost taken': seq<nat>)
    requires used.Length == |segs| && i < used.Length
    requires Chained(polylines, groups, taken, segs, tolerance) && Marks(used[..], taken, [])
    requires forall j :: 0 <= j < i ==> used[j]
    requires Apart(polylines, groups, used[..], segs, tolerance)
    modifies used
    ensures Chained(polylines', groups', taken', segs, tolerance) && Marks(used[..], taken', [])
    ensures forall j :: 0 <= j <= i ==> used[j]
    ensures Apart(polylines', groups', used[..], segs, tolerance)
    ensures old(used[i]) ==> polylines' == polylines && groups' == groups && used[..] == old(used[..])
    ensures !old(used[i]) ==> (|polylines'| == |polylines| + 1 && polylines'[..|polylines|] == polylines &&
      i in groups'[|polylines|] && Infix([segs[i].0, segs[i].1], polylines'[|polylines|]))
  {
    if used[i] {
      return polylines, groups, taken;
    }
    var poly;
    ghost var links;
    ghost var before := used[..];
    poly, links := GrowPolyline(segs, tolerance, used, i, taken);
    MarksKeep(before, used[..], taken, links);
    ApartAdd(polylines, groups, before, used[..], segs, tolerance, poly, links);
    MarksFinish(used[..], taken, links);
    ChainedAdd(polylines, groups, taken, segs, tolerance, poly, links);
    polylines', groups', taken' := polylines + [poly], groups + [links], taken + links;
    assert polylines'[..|polylines|] == polylines;
  }

  /** Once every segment is marked, the finished polylines use each segment exactly once. */
  lemma ChainedAll(polylines: seq<seq<Vector2>>, groups: seq<seq<nat>>, taken: seq<nat>, used: seq<bool>,
                   segs: seq<Segment>, tolerance: real)
    requires |used| == |segs| && Chained(polylines, groups, taken, segs, tolerance) && Marks(used, taken, [])
    requires forall j :: 0 <= j < |used| ==> used[j]
    ensures |groups| == |polylines|
    ensures forall k :: 0 <= k < |polylines| ==> groups[k] != [] && Follows(polylines[k], groups[k], segs, tolerance)
    ensures |Flatten(groups)| == |segs| && Distinct(Flatten(groups))
    ensures forall j :: 0 <= j < |segs| ==> j in Flatten(groups)
    ensures forall k :: 0 <= k < |polylines| ==> |polylines[k]| >= 2
    ensures TotalPoints(polylines) == |segs| + |polylines|
    ensures |polylines| <= |segs|
    ensures segs == [] ==> polylines == []
  {
    CountFalseNone(used);
    ChainedDone(polylines, groups, taken, segs, tolerance);
  }
}
