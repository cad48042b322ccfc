/**
 * What the strips of a stroke or a fringe are, triangle by triangle: which corners each of them has,
 * and which points of the line some triangle connects.
 */
module DrawQuads {
  import opened Buffers
  import opened DrawRecorder
  import opened DrawPrimitives
  import opened Polygon

  /** The corners of the three vertices from i on. */
  function Corners(t: seq<Slot<Vertex>>, i: nat): set<Slot<Vertex>>
    requires i + 3 <= |t|
  {
    {t[i], t[i + 1], t[i + 2]}
  }

  /** The six vertices from i on are the two triangles that a diagonal makes of the quad a, b, c, d. */
  predicate Halved(t: seq<Slot<Vertex>>, i: nat, a: Vertex, b: Vertex, c: Vertex, d: Vertex) {
    && i + 6 <= |t|
    && var halves := {Corners(t, i), Corners(t, i + 3)};
       || halves == {{Written(a), Written(b), Written(c)}, {Written(c), Written(d), Written(a)}}
       || halves == {{Written(b), Written(c), Written(d)}, {Written(d), Written(a), Written(b)}}
  }

  /** The six vertices from i on are the quad between two points and two rails. */
  predicate Quad(t: seq<Slot<Vertex>>, i: nat, p: nat, q: nat, r: nat, s: nat) {
    Halved(t, i, OfPoint(p, r), OfPoint(p, s), OfPoint(q, s), OfPoint(q, r))
  }

  /** The quads between point p of a line and the next: one or, with smooth edges that no texture provides, one along
      the middle of a thick line and one at each edge. */
  predicate SegmentQuads(t: seq<Slot<Vertex>>, p: nat, n: nat, antiAliased: bool, useTexture: bool, thickLine: bool) {
    var q := if p + 1 == n then 0 else p + 1;
    if !antiAliased || useTexture then Quad(t, 6 * p, p, q, 0, 1)
    else if thickLine then
      Quad(t, 18 * p, p, q, 1, 2) && Quad(t, 18 * p + 6, p, q, 1, 0) && Quad(t, 18 * p + 12, p, q, 2, 3)
    else Quad(t, 12 * p, p, q, 0, 2) && Quad(t, 12 * p + 6, p, q, 1, 0)
  }

  lemma CornersAre(t: seq<Slot<Vertex>>, i: nat, a: Slot<Vertex>, b: Slot<Vertex>, c: Slot<Vertex>)
    requires i + 3 <= |t| && OnCorners(t[i..i + 3], a, b, c)
    ensures Corners(t, i) == {a, b, c}
  {
    assert t[i..i + 3] == [t[i], t[i + 1], t[i + 2]];
    SameElements(t[i], t[i + 1], t[i + 2], a, b, c);
  }

  lemma SameElements<T>(x: T, y: T, z: T, a: T, b: T, c: T)
    requires multiset{x, y, z} == multiset{a, b, c}
    ensures {x, y, z} == {a, b, c}
  {
    var m, k := multiset{x, y, z}, multiset{a, b, c};
    assert x in k && y in k && z in k && a in m && b in m && c in m;
  }

  lemma QuadIs(t: seq<Slot<Vertex>>, i: nat, p: nat, q: nat, r: nat, s: nat)
    requires i + 6 <= |t| && SplitsQuad(t[i..i + 6], p, q, r, s)
    ensures Quad(t, i, p, q, r, s)
  {
    hide Halves, Halved;
    var u := t[i..i + 6];
    assert u[..3] == t[i..i + 3] && u[3..] == t[i + 3..i + 6];
    if Halves(u[..3], u[3..], p, q, r, s) {
      HalvesAre(t, i, i + 3, p, q, r, s);
      HalvedIs(t, i, Corners(t, i), Corners(t, i + 3), p, q, r, s);
    } else {
      HalvesAre(t, i + 3, i, p, q, r, s);
      HalvedIs(t, i, Corners(t, i + 3), Corners(t, i), p, q, r, s);
    }
  }

  lemma HalvedIs(t: seq<Slot<Vertex>>, i: nat, x: set<Slot<Vertex>>, y: set<Slot<Vertex>>,
                 p: nat, q: nat, r: nat, s: nat)
    requires i + 6 <= |t| && {Corners(t, i), Corners(t, i + 3)} == {x, y}
    requires
      || (x == {P(q, r), P(p, r), P(p, s)} && y == {P(p, s), P(q, s), P(q, r)})
      || (x == {P(p, r), P(p, s), P(q, s)} && y == {P(q, s), P(q, r), P(p, r)})
    ensures Halved(t, i, OfPoint(p, r), OfPoint(p, s), OfPoint(q, s), OfPoint(q, r))
  {
    hide Corners;
  }

  lemma HalvesAre(t: seq<Slot<Vertex>>, i: nat, j: nat, p: nat, q: nat, r: nat, s: nat)
    requires i + 3 <= |t| && j + 3 <= |t| && Halves(t[i..i + 3], t[j..j + 3], p, q, r, s)
    ensures
      || (Corners(t, i) == {P(q, r), P(p, r), P(p, s)} && Corners(t, j) == {P(p, s), P(q, s), P(q, r)})
      || (Corners(t, i) == {P(p, r), P(p, s), P(q, s)} && Corners(t, j) == {P(q, s), P(q, r), P(p, r)})
  {
    hide OnCorners, Corners;
    if OnCorners(t[i..i + 3], P(p, r), P(p, s), P(q, r)) && OnCorners(t[j..j + 3], P(p, s), P(q, s), P(q, r)) {
      CornersAre(t, i, P(p, r), P(p, s), P(q, r));
      CornersAre(t, j, P(p, s), P(q, s), P(q, r));
    } else {
      CornersAre(t, i, P(p, s), P(p, r), P(q, s));
      CornersAre(t, j, P(p, r), P(q, r), P(q, s));
    }
  }

  /** The quads of the first `count` segments, with r quads each. */
  function QuadCount(count: nat, r: nat): nat {
    if count == 0 then 0 else QuadCount(count - 1, r) + r
  }

  lemma {:induction false} QuadCountIs(count: nat, r: nat)
    ensures QuadCount(count, r) == r * count
  {
    if count > 0 {
      QuadCountIs(count - 1, r);
      assert r * count == r * (count - 1) + r;
    } else {
      assert r * count == 0;
    }
  }

  /** Segment s of the strips has its k-th quad between s and the next point, on the k-th pair of rails. */
  lemma {:induction false} StripsAre(t: seq<Slot<Vertex>>, count: nat, n: nat, rails: seq<(nat, nat)>, s: nat, k: nat)
    requires count <= n && Strips(t, count, n, rails) && s < count && k < |rails|
    ensures |t| == 6 * QuadCount(count, |rails|)
    ensures
      Quad(t, 6 * (QuadCount(s, |rails|) + k), s, if s + 1 == n then 0 else s + 1, rails[k].0, rails[k].1)
    decreases count
  {
    hide Quad, SplitsQuad;
    StripsLength(t, count, n, rails);
    var w := 6 * |rails|;
    var front := t[..|t| - w];
    StripsLength(front, count - 1, n, rails);
    if s < count - 1 {
      StripsAre(front, count - 1, n, rails, s, k);
      QuadInFront(t, |front|, 6 * (QuadCount(s, |rails|) + k), s, if s + 1 == n then 0 else s + 1, rails[k].0,
                  rails[k].1);
    } else {
      var i := |front| + 6 * k;
      assert t[|t| - w..][6 * k..6 * k + 6] == t[i..i + 6];
      QuadIs(t, i, s, After(s, n), rails[k].0, rails[k].1);
    }
  }

  lemma QuadInFront(t: seq<Slot<Vertex>>, m: nat, i: nat, p: nat, q: nat, r: nat, s: nat)
    requires m <= |t| && Quad(t[..m], i, p, q, r, s)
    ensures Quad(t, i, p, q, r, s)
  {
  }

  lemma {:induction false} StripsLength(t: seq<Slot<Vertex>>, count: nat, n: nat, rails: seq<(nat, nat)>)
    requires count <= n && Strips(t, count, n, rails)
    ensures |t| == 6 * QuadCount(count, |rails|)
    decreases count
  {
    hide SplitsQuads;
    if count > 0 {
      StripsLength(t[..|t| - 6 * |rails|], count - 1, n, rails);
    }
  }

  // ---------------------------------------------------------------------------------------------
  // Which points are connected
  // ---------------------------------------------------------------------------------------------

  /** Triangle k has a corner that was made for point a. */
  ghost predicate Touches(t: seq<Slot<Vertex>>, k: nat, a: nat) {
    3 * k + 3 <= |t| && exists rail :: P(a, rail) in Corners(t, 3 * k)
  }

  ghost predicate Connects(t: seq<Slot<Vertex>>, a: nat, b: nat) {
    exists k :: Touches(t, k, a) && Touches(t, k, b)
  }

  lemma TouchesAre(t: seq<Slot<Vertex>>, k: nat, a: nat, p: nat, q: nat, r: nat, s: nat, u: nat, x: nat)
    requires 3 * k + 3 <= |t|
    requires Corners(t, 3 * k) == {P(p, r), P(q, s), P(u, x)} && (u == p || u == q)
    ensures Touches(t, k, a) <==> a == p || a == q
  {
    if a == p {
      assert P(a, r) in Corners(t, 3 * k);
    } else if a == q {
      assert P(a, s) in Corners(t, 3 * k);
    }
  }

  /** Both triangles of a quad touch both of its points, and no other. */
  lemma QuadTouches(t: seq<Slot<Vertex>>, k: nat, a: nat, p: nat, q: nat, r: nat, s: nat)
    requires Quad(t, 6 * k, p, q, r, s)
    ensures Touches(t, 2 * k, a) <==> a == p || a == q
    ensures Touches(t, 2 * k + 1, a) <==> a == p || a == q
  {
    hide Corners, Touches;
    assert 3 * (2 * k) == 6 * k && 3 * (2 * k + 1) == 6 * k + 3;
    forall j | j == 2 * k || j == 2 * k + 1 ensures Touches(t, j, a) <==> a == p || a == q {
      var c := Corners(t, 3 * j);
      if c == {P(p, r), P(p, s), P(q, s)} {
        assert c == {P(p, r), P(q, s), P(p, s)};
        TouchesAre(t, j, a, p, q, r, s, p, s);
      } else if c == {P(q, s), P(q, r), P(p, r)} {
        assert c == {P(p, r), P(q, s), P(q, r)};
        TouchesAre(t, j, a, p, q, r, s, q, r);
      } else if c == {P(p, s), P(q, s), P(q, r)} {
        TouchesAre(t, j, a, p, q, s, s, q, r);
      } else {
        assert c == {P(p, r), P(q, r), P(p, s)};
        TouchesAre(t, j, a, p, q, r, r, p, s);
      }
    }
  }

  /** Every triangle of the strips belongs to one segment, and touches its two ends only. */
  lemma {:induction false} InSegment(t: seq<Slot<Vertex>>, count: nat, n: nat, rails: seq<(nat, nat)>, k: nat,
                                     a: nat, b: nat)
    returns (s: nat)
    requires count <= n && Strips(t, count, n, rails) && 3 * k + 3 <= |t|
    ensures s < count
    ensures Touches(t, k, a) <==> a == s || a == if s + 1 == n then 0 else s + 1
    ensures Touches(t, k, b) <==> b == s || b == if s + 1 == n then 0 else s + 1
    decreases count
  {
    hide Quad, SplitsQuads, Touches, Strips;
    StripsEnd(t, count, n, rails);
    var front := t[..|t| - 6 * |rails|];
    var m := QuadCount(count - 1, |rails|);
    StripsLength(front, count - 1, n, rails);
    StripsLength(t, count, n, rails);
    if k < 2 * m {
      s := InSegment(front, count - 1, n, rails, k, a, b);
      TouchesInFront(t, |front|, k, a);
      TouchesInFront(t, |front|, k, b);
    } else {
      s := count - 1;
      LastSegment(t, m, s, After(s, n), rails, k, a);
      LastSegment(t, m, s, After(s, n), rails, k, b);
    }
  }

  lemma StripsEnd(t: seq<Slot<Vertex>>, count: nat, n: nat, rails: seq<(nat, nat)>)
    requires count <= n && Strips(t, count, n, rails) && |t| > 0
    ensures count > 0 && |t| >= 6 * |rails|
    ensures SplitsQuads(t[|t| - 6 * |rails|..], count - 1, After(count - 1, n), rails)
    ensures Strips(t[..|t| - 6 * |rails|], count - 1, n, rails)
  {
    hide SplitsQuads;
  }

  lemma LastSegment(t: seq<Slot<Vertex>>, m: nat, p: nat, q: nat, rails: seq<(nat, nat)>, k: nat, a: nat)
    requires |t| == 6 * m + 6 * |rails| && SplitsQuads(t[6 * m..], p, q, rails)
    requires 2 * m <= k && 3 * k + 3 <= |t|
    ensures Touches(t, k, a) <==> a == p || a == q
  {
    hide Quad, SplitsQuad, Touches;
    var j := k / 2 - m;
    assert t[6 * m..][6 * j..6 * j + 6] == t[6 * (m + j)..6 * (m + j) + 6];
    QuadIs(t, 6 * (m + j), p, q, rails[j].0, rails[j].1);
    QuadTouches(t, m + j, a, p, q, rails[j].0, rails[j].1);
  }

  lemma TouchesInFront(t: seq<Slot<Vertex>>, m: nat, k: nat, a: nat)
    requires 3 * k + 3 <= m <= |t|
    ensures Touches(t[..m], k, a) <==> Touches(t, k, a)
  {
    assert Corners(t[..m], 3 * k) == Corners(t, 3 * k);
  }

  /** Strips along a line connect each point with the next, the last with the first exactly when the line is closed,
      and no other two points. */
  lemma StripsConnect(t: seq<Slot<Vertex>>, closed: bool, n: nat, rails: seq<(nat, nat)>, a: nat, b: nat)
    requires n >= 2 && |rails| > 0 && Strips(t, if closed then n else n - 1, n, rails) && a < b < n
    ensures Connects(t, a, b) <==> b == a + 1 || (closed && a == 0 && b == n - 1)
  {
    hide Touches, Quad, Strips;
    var count := if closed then n else n - 1;
    if b == a + 1 || (closed && a == 0 && b == n - 1) {
      var s := if b == a + 1 then a else b;
      StripsAre(t, count, n, rails, s, 0);
      QuadTouches(t, QuadCount(s, |rails|), a, s, After(s, n), rails[0].0, rails[0].1);
      QuadTouches(t, QuadCount(s, |rails|), b, s, After(s, n), rails[0].0, rails[0].1);
    }
    if Connects(t, a, b) {
      var k :| Touches(t, k, a) && Touches(t, k, b);
      TouchesBound(t, k, a);
      var s := InSegment(t, count, n, rails, k, a, b);
    }
  }

  lemma TouchesBound(t: seq<Slot<Vertex>>, k: nat, a: nat)
    requires Touches(t, k, a)
    ensures 3 * k + 3 <= |t|
  {
  }
}
