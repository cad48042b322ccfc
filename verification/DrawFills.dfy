/**
 * Filled polygons. A convex one is a fan from its first point; a concave one takes its triangles
 * from the triangulator. With anti-aliasing both get a fringe: a quad from each edge's inner to its
 * outer rail.
 */
module DrawFills {
  import opened Buffers
  import opened DrawCommands
  import opened DrawRecorder
  import opened DrawLists
  import opened DrawPrimitives
  import opened DrawQuads
  import opened DrawStrokes
  import opened Polygon
  import Ears = EarClipping
  import Runs = EarRuns
  import Triangulator

  type Tri = Ears.Triangle

  // ---------------------------------------------------------------------------------------------
  // Triangles
  // ---------------------------------------------------------------------------------------------

  predicate Within(tris: seq<Tri>, n: nat) {
    forall i | 0 <= i < |tris| :: Runs.CornersBelow(tris[i], n)
  }

  /** The indices of one triangle whose points have `stride` vertices each. */
  function TriIdx(base: nat, stride: nat, t: Tri, n: nat): (r: seq<nat>)
    requires Runs.CornersBelow(t, n)
    ensures |r| == 3
  {
    var a: nat, b: nat, c: nat := t.a, t.b, t.c;
    [base + stride * a, base + stride * b, base + stride * c]
  }

  function TrisIdx(base: nat, stride: nat, tris: seq<Tri>, n: nat): (r: seq<nat>)
    requires Within(tris, n)
    ensures |r| == 3 * |tris|
  {
    if |tris| == 0 then []
    else TrisIdx(base, stride, tris[..|tris| - 1], n) + TriIdx(base, stride, tris[|tris| - 1], n)
  }

  /** The innermost rail's vertices of a triangle's three corners, in its order. */
  function CornersOf(t: Tri, n: nat): (r: seq<Slot<Vertex>>)
    requires Runs.CornersBelow(t, n)
  {
    [P(t.a, 0), P(t.b, 0), P(t.c, 0)]
  }

  /** The vertices read are those triangles, one after another. */
  predicate Triangles(t: seq<Slot<Vertex>>, tris: seq<Tri>, n: nat)
    requires Within(tris, n)
  {
    && |t| == 3 * |tris|
    && forall k | 0 <= k < |tris| :: t[3 * k..3 * k + 3] == CornersOf(tris[k], n)
  }

  lemma TriFinds(vtx: seq<Slot<Vertex>>, offset: nat, base: nat, n: nat, stride: nat, t: Tri)
    requires NewRows(vtx, offset, base, n, stride) && stride >= 1 && Runs.CornersBelow(t, n)
    ensures Targets(Converted(TriIdx(base, stride, t, n)), vtx, offset, offset + base) == CornersOf(t, n)
  {
    hide NewRows, Target, ToIndex;
    FindsPoint(vtx, offset, base, n, stride, t.a, 0);
    FindsPoint(vtx, offset, base, n, stride, t.b, 0);
    FindsPoint(vtx, offset, base, n, stride, t.c, 0);
  }

  lemma {:induction false} TrisFind(vtx: seq<Slot<Vertex>>, offset: nat, base: nat, n: nat, stride: nat, tris: seq<Tri>)
    requires NewRows(vtx, offset, base, n, stride) && stride >= 1 && Within(tris, n)
    ensures Triangles(Targets(Converted(TrisIdx(base, stride, tris, n)), vtx, offset, offset + base), tris, n)
  {
    hide NewRows, Target, TriIdx, CornersOf;
    if |tris| > 0 {
      var front, last := tris[..|tris| - 1], tris[|tris| - 1];
      TrisFind(vtx, offset, base, n, stride, front);
      TriFinds(vtx, offset, base, n, stride, last);
      var t := Targets(Converted(TrisIdx(base, stride, tris, n)), vtx, offset, offset + base);
      var t0 := Targets(Converted(TrisIdx(base, stride, front, n)), vtx, offset, offset + base);
      assert t == t0 + Targets(Converted(TriIdx(base, stride, last, n)), vtx, offset, offset + base);
      forall k | 0 <= k < |tris| ensures t[3 * k..3 * k + 3] == CornersOf(tris[k], n) {
        if k < |front| {
          assert t[3 * k..3 * k + 3] == t0[3 * k..3 * k + 3];
          assert front[k] == tris[k];
        }
      }
    }
  }

  // ---------------------------------------------------------------------------------------------
  // The fan
  // ---------------------------------------------------------------------------------------------

  /** The fan from point 0 over the edges up to point m - 1. */
  function FanOf(m: nat): (r: seq<Tri>)
    requires m >= 2
    ensures |r| == m - 2 && Within(r, m)
  {
    seq(m - 2, k requires 0 <= k => Ears.Triangle(0, k + 1, k + 2))
  }

  function TurnSum(points: seq<Vec2>, tris: seq<Tri>): real
    requires Within(tris, |points|)
  {
    if |tris| == 0 then 0.0
    else
      var t := tris[|tris| - 1];
      TurnSum(points, tris[..|tris| - 1]) + Turn(points[t.a], points[t.b], points[t.c])
  }

  /** The fan's signed areas telescope: together they are the area closed off by its last spoke. */
  lemma {:induction false} FanAreas(points: seq<Vec2>, m: nat)
    requires 2 <= m <= |points|
    ensures Within(FanOf(m), |points|)
    ensures TurnSum(points, FanOf(m)) == RingSum(points[..m])
  {
    var ring := points[..m];
    if m == 2 {
      TwoPointRing(ring);
    } else {
      FanAreas(points, m - 1);
      assert FanOf(m)[..m - 3] == FanOf(m - 1);
      var before, last := points[..m - 1], points[m - 1];
      assert ring == before + [last];
      PathSplit(before, [last]);
      TurnIsCrosses(points[0], points[m - 2], last);
      CrossFlips(points[m - 2], points[0]);
    }
  }

  /** The fan of a polygon has exactly the polygon's signed area. */
  lemma FanCovers(points: seq<Vec2>)
    requires |points| >= 3
    ensures TurnSum(points, FanOf(|points|)) == RingSum(points)
  {
    FanAreas(points, |points|);
    assert points[..|points|] == points;
  }

  // ---------------------------------------------------------------------------------------------
  // The fringe
  // ---------------------------------------------------------------------------------------------

  /** The indices of one edge's fringe; every point has an inner and an outer vertex. */
  function FringeEdge(base: nat, i0: nat, i1: nat): (r: seq<nat>)
    ensures |r| == 6
  {
    var inner, outer := base, base + 1;
    [inner + 2 * i1, inner + 2 * i0, outer + 2 * i0,
     outer + 2 * i0, outer + 2 * i1, inner + 2 * i1]
  }

  function FringeIdx(base: nat, count: nat, n: nat): (r: seq<nat>)
    requires count <= n
    ensures |r| == 6 * count
  {
    if count == 0 then []
    else FringeIdx(base, count - 1, n) + FringeEdge(base, Before(count - 1, n), count - 1)
  }

  /** Each edge, ending at the first `count` points in turn, is a quad from its inner to its outer rail. */
  predicate Fringe(t: seq<Slot<Vertex>>, count: nat, n: nat)
    requires count <= n
    decreases count
  {
    if count == 0 then t == []
    else
      && |t| >= 6
      && SplitsQuad(t[|t| - 6..], Before(count - 1, n), count - 1, 0, 1)
      && Fringe(t[..|t| - 6], count - 1, n)
  }

  lemma FringeEdgeFinds(vtx: seq<Slot<Vertex>>, offset: nat, base: nat, n: nat, i0: nat, i1: nat)
    requires NewRows(vtx, offset, base, n, 2) && i0 < n && i1 < n
    ensures SplitsQuad(Targets(Converted(FringeEdge(base, i0, i1)), vtx, offset, offset + base), i0, i1, 0, 1)
  {
    hide NewRows, Target, ToIndex, SplitsQuad;
    FindsPoint(vtx, offset, base, n, 2, i0, 0);
    FindsPoint(vtx, offset, base, n, 2, i0, 1);
    FindsPoint(vtx, offset, base, n, 2, i1, 0);
    FindsPoint(vtx, offset, base, n, 2, i1, 1);
    var e := FringeEdge(base, i0, i1);
    assert e[0] == base + 2 * i1 + 0 && e[1] == base + 2 * i0 + 0 && e[2] == base + 2 * i0 + 1;
    assert e[3] == base + 2 * i0 + 1 && e[4] == base + 2 * i1 + 1 && e[5] == base + 2 * i1 + 0;
    SplitsOver(Targets(Converted(e), vtx, offset, offset + base), i0, i1, 0, 1);
  }

  lemma {:induction false} FringeFinds(vtx: seq<Slot<Vertex>>, offset: nat, base: nat, n: nat, count: nat)
    requires NewRows(vtx, offset, base, n, 2) && count <= n
    ensures Fringe(Targets(Converted(FringeIdx(base, count, n)), vtx, offset, offset + base), count, n)
  {
    hide NewRows, Target, SplitsQuad, FringeEdge;
    var t := Targets(Converted(FringeIdx(base, count, n)), vtx, offset, offset + base);
    if count == 0 {
      assert t == [];
    } else {
      var front, last := FringeIdx(base, count - 1, n), FringeEdge(base, Before(count - 1, n), count - 1);
      FringeFinds(vtx, offset, base, n, count - 1);
      FringeEdgeFinds(vtx, offset, base, n, Before(count - 1, n), count - 1);
      assert t
        == Targets(Converted(front), vtx, offset, offset + base) + Targets(Converted(last), vtx, offset, offset + base);
    }
  }

  // ---------------------------------------------------------------------------------------------
  // Writing
  // ---------------------------------------------------------------------------------------------

  /** One more triangle behind those written so far. */
  method WriteTri(dl: DrawList, ghost front: seq<Slot<nat>>, ghost done: seq<Tri>, stride: nat, t: Tri, n: nat)
    requires dl.Valid() && Within(done, n) && Runs.CornersBelow(t, n)
    requires dl.idxWrite + 3 <= |dl.idxBuffer|
    requires dl.idxBuffer[..dl.idxWrite] == front + Converted(TrisIdx(dl.vtxCurrentIdx, stride, done, n))
    modifies dl`idxBuffer, dl`idxWrite
    ensures dl.Valid() && dl.idxWrite == old(dl.idxWrite) + 3 && |dl.idxBuffer| == old(|dl.idxBuffer|)
    ensures Within(done + [t], n)
    ensures dl.idxBuffer[..dl.idxWrite] == front + Converted(TrisIdx(dl.vtxCurrentIdx, stride, done + [t], n))
  {
    hide DrawList.Valid, Converted, TriIdx;
    assert (done + [t])[..|done|] == done;
    ConvertedConcat(TrisIdx(dl.vtxCurrentIdx, stride, done, n), TriIdx(dl.vtxCurrentIdx, stride, t, n));
    dl.WriteIdxRun(TriIdx(dl.vtxCurrentIdx, stride, t, n));
  }

  /** The fan of a convex polygon. */
  method WriteFan(dl: DrawList, n: nat, stride: nat)
    requires dl.Valid() && n >= 3 && dl.idxWrite + 3 * (n - 2) <= |dl.idxBuffer|
    modifies dl`idxBuffer, dl`idxWrite
    ensures dl.Valid() && dl.idxWrite == old(dl.idxWrite) + 3 * (n - 2) && |dl.idxBuffer| == old(|dl.idxBuffer|)
    ensures
      dl.idxBuffer[..dl.idxWrite]
      == old(dl.idxBuffer)[..old(dl.idxWrite)] + Converted(TrisIdx(dl.vtxCurrentIdx, stride, FanOf(n), n))
  {
    hide DrawList.Valid, Converted, TrisIdx;
    ghost var front := dl.idxBuffer[..dl.idxWrite];
    NoTris(dl.vtxCurrentIdx, stride, n);
    var i := 2;
    while i < n
      invariant 2 <= i <= n && dl.Valid() && |dl.idxBuffer| == old(|dl.idxBuffer|)
      invariant Within(FanOf(i), n) && dl.idxWrite == |front| + 3 * (i - 2)
      invariant dl.idxBuffer[..dl.idxWrite] == front + Converted(TrisIdx(dl.vtxCurrentIdx, stride, FanOf(i), n))
    {
      WriteTri(dl, front, FanOf(i), stride, Ears.Triangle(0, i - 1, i), n);
      assert FanOf(i + 1) == FanOf(i) + [Ears.Triangle(0, i - 1, i)];
      i := i + 1;
    }
  }

  lemma NoTris(base: nat, stride: nat, n: nat)
    ensures FanOf(2) == [] && Within([], n) && Converted(TrisIdx(base, stride, [], n)) == []
  {
  }

  /** The triangles of a concave polygon. */
  method WriteTris(dl: DrawList, tris: seq<Tri>, n: nat, stride: nat)
    requires dl.Valid() && Within(tris, n) && dl.idxWrite + 3 * |tris| <= |dl.idxBuffer|
    modifies dl`idxBuffer, dl`idxWrite
    ensures dl.Valid() && dl.idxWrite == old(dl.idxWrite) + 3 * |tris| && |dl.idxBuffer| == old(|dl.idxBuffer|)
    ensures
      dl.idxBuffer[..dl.idxWrite]
      == old(dl.idxBuffer)[..old(dl.idxWrite)] + Converted(TrisIdx(dl.vtxCurrentIdx, stride, tris, n))
  {
    hide DrawList.Valid, Converted, TrisIdx;
    ghost var front := dl.idxBuffer[..dl.idxWrite];
    NoTris(dl.vtxCurrentIdx, stride, n);
    var i := 0;
    while i < |tris|
      invariant 0 <= i <= |tris| && dl.Valid() && |dl.idxBuffer| == old(|dl.idxBuffer|)
      invariant Within(tris[..i], n) && dl.idxWrite == |front| + 3 * i
      invariant dl.idxBuffer[..dl.idxWrite] == front + Converted(TrisIdx(dl.vtxCurrentIdx, stride, tris[..i], n))
    {
      WriteTri(dl, front, tris[..i], stride, tris[i], n);
      assert tris[..i + 1] == tris[..i] + [tris[i]];
      i := i + 1;
    }
    assert tris[..|tris|] == tris;
  }

  /** One edge's fringe: the two vertices of the point it ends at, and its six indices. */
  method WriteEdge(dl: DrawList, n: nat, i1: nat, ghost vtxFront: seq<Slot<Vertex>>, ghost idxFront: seq<Slot<nat>>)
    requires dl.Valid() && i1 < n
    requires dl.idxWrite + 6 <= |dl.idxBuffer| && dl.vtxWrite + 2 <= |dl.vtxBuffer|
    requires dl.vtxBuffer[..dl.vtxWrite] == vtxFront + AllWritten(Rows(i1, 2))
    requires dl.idxBuffer[..dl.idxWrite] == idxFront + Converted(FringeIdx(dl.vtxCurrentIdx, i1, n))
    modifies dl`idxBuffer, dl`idxWrite, dl`vtxBuffer, dl`vtxWrite
    ensures dl.Valid() && |dl.idxBuffer| == old(|dl.idxBuffer|) && |dl.vtxBuffer| == old(|dl.vtxBuffer|)
    ensures dl.idxWrite == old(dl.idxWrite) + 6 && dl.vtxWrite == old(dl.vtxWrite) + 2
    ensures dl.vtxBuffer[..dl.vtxWrite] == vtxFront + AllWritten(Rows(i1 + 1, 2))
    ensures dl.idxBuffer[..dl.idxWrite] == idxFront + Converted(FringeIdx(dl.vtxCurrentIdx, i1 + 1, n))
  {
    hide DrawList.Valid, Converted, AllWritten, FringeEdge, Row;
    var i0 := Before(i1, n);
    RowLength(i1, 2);
    AllWrittenConcat(Rows(i1, 2), Row(i1, 2));
    ConvertedConcat(FringeIdx(dl.vtxCurrentIdx, i1, n), FringeEdge(dl.vtxCurrentIdx, i0, i1));
    dl.WriteVtxRun(Row(i1, 2));
    dl.WriteIdxRun(FringeEdge(dl.vtxCurrentIdx, i0, i1));
  }

  /** Inner and outer vertices point by point, and the fringe of the edge that ends there. */
  method WriteFringe(dl: DrawList, n: nat)
    requires dl.Valid() && dl.idxWrite + 6 * n == |dl.idxBuffer| && dl.vtxWrite + 2 * n == |dl.vtxBuffer|
    modifies dl`idxBuffer, dl`idxWrite, dl`vtxBuffer, dl`vtxWrite
    ensures dl.Valid() && dl.idxWrite == |dl.idxBuffer| && dl.vtxWrite == |dl.vtxBuffer|
    ensures dl.vtxBuffer == old(dl.vtxBuffer)[..old(dl.vtxWrite)] + AllWritten(Rows(n, 2))
    ensures dl.idxBuffer == old(dl.idxBuffer)[..old(dl.idxWrite)] + Converted(FringeIdx(dl.vtxCurrentIdx, n, n))
  {
    hide DrawList.Valid, Converted, AllWritten, FringeIdx, Rows;
    ghost var vtxFront, idxFront := dl.vtxBuffer[..dl.vtxWrite], dl.idxBuffer[..dl.idxWrite];
    ghost var vtxSize, idxSize := |dl.vtxBuffer|, |dl.idxBuffer|;
    NoFringe(dl.vtxCurrentIdx, n);
    var i1 := 0;
    while i1 < n
      invariant 0 <= i1 <= n && dl.Valid()
      invariant |dl.idxBuffer| == idxSize && dl.idxWrite == |idxFront| + 6 * i1
      invariant |dl.vtxBuffer| == vtxSize && dl.vtxWrite == |vtxFront| + 2 * i1
      invariant dl.vtxBuffer[..dl.vtxWrite] == vtxFront + AllWritten(Rows(i1, 2))
      invariant dl.idxBuffer[..dl.idxWrite] == idxFront + Converted(FringeIdx(dl.vtxCurrentIdx, i1, n))
    {
      WriteEdge(dl, n, i1, vtxFront, idxFront);
      i1 := i1 + 1;
    }
    assert dl.idxBuffer[..dl.idxWrite] == dl.idxBuffer && dl.vtxBuffer[..dl.vtxWrite] == dl.vtxBuffer;
  }

  lemma NoFringe(base: nat, n: nat)
    ensures Converted(FringeIdx(base, 0, n)) == [] && AllWritten(Rows(0, 2)) == []
  {
  }

  function FillIndices(n: nat, antiAliased: bool): nat
    requires n >= 3
  {
    if antiAliased then (n - 2) * 3 + n * 6 else (n - 2) * 3
  }

  function FillVertices(n: nat, antiAliased: bool): nat {
    if antiAliased then n * 2 else n
  }

  function FillIdx(base: nat, tris: seq<Tri>, n: nat, antiAliased: bool): seq<nat>
    requires Within(tris, n)
  {
    if antiAliased then TrisIdx(base, 2, tris, n) + FringeIdx(base, n, n) else TrisIdx(base, 1, tris, n)
  }

  function FillWidth(antiAliased: bool): nat {
    if antiAliased then 2 else 1
  }

  /** What a fill draws: its triangles, and behind them the fringe of every edge. */
  predicate Fills(t: seq<Slot<Vertex>>, tris: seq<Tri>, n: nat, antiAliased: bool)
    requires Within(tris, n)
  {
    && |t| >= 3 * |tris|
    && Triangles(t[..3 * |tris|], tris, n)
    && if antiAliased then Fringe(t[3 * |tris|..], n, n) else |t| == 3 * |tris|
  }

  lemma FillFinds(front: seq<Slot<Vertex>>, offset: nat, base: nat, tris: seq<Tri>, n: nat, antiAliased: bool)
    requires Within(tris, n) && offset + base == |front| && base + n * FillWidth(antiAliased) < INDEX_LIMIT
    ensures
      var vtx := front + AllWritten(Rows(n, FillWidth(antiAliased)));
      Fills(Targets(Converted(FillIdx(base, tris, n, antiAliased)), vtx, offset, |front|), tris, n, antiAliased)
  {
    hide Triangles, Fringe, Target, TrisIdx, FringeIdx, Rows;
    var width := FillWidth(antiAliased);
    RowsLength(n, width);
    var vtx := front + AllWritten(Rows(n, width));
    assert vtx[offset + base..] == AllWritten(Rows(n, width));
    TrisFind(vtx, offset, base, n, width, tris);
    var t := Targets(Converted(FillIdx(base, tris, n, antiAliased)), vtx, offset, |front|);
    var t0 := Targets(Converted(TrisIdx(base, width, tris, n)), vtx, offset, |front|);
    if antiAliased {
      FringeFinds(vtx, offset, base, n, n);
      assert t == t0 + Targets(Converted(FringeIdx(base, n, n)), vtx, offset, |front|);
    }
    assert t[..3 * |tris|] == t0;
  }

  /** The edge that ends at point e is a quad from its inner to its outer rail. */
  predicate EdgeQuad(t: seq<Slot<Vertex>>, from: nat, e: nat, n: nat)
    requires e < n
  {
    Quad(t, from + 6 * e, if e == 0 then n - 1 else e - 1, e, 0, 1)
  }

  predicate EdgeQuads(t: seq<Slot<Vertex>>, from: nat, n: nat) {
    forall e | 0 <= e < n :: EdgeQuad(t, from, e, n)
  }

  /** What a fill reads, vertex by vertex: the inner vertices of each triangle's corners, and each edge's quad. */
  predicate FillReads(t: seq<Slot<Vertex>>, tris: seq<Tri>, n: nat, antiAliased: bool) {
    && |t| == 3 * |tris| + (if antiAliased then 6 * n else 0)
    && (forall i | 0 <= i < 3 * |tris| ::
         && t[i].Written? && t[i].value.OfPoint? && t[i].value.rail == 0
         && t[i].value.point
            == if i % 3 == 0 then tris[i / 3].a else if i % 3 == 1 then tris[i / 3].b else tris[i / 3].c)
    && (antiAliased ==> EdgeQuads(t, 3 * |tris|, n))
  }

  lemma {:induction false} FringeAt(t: seq<Slot<Vertex>>, count: nat, n: nat, e: nat)
    requires count <= n && Fringe(t, count, n) && e < count
    ensures |t| == 6 * count && EdgeQuad(t, 0, e, n)
    decreases count
  {
    hide Quad, SplitsQuad;
    FringeLength(t, count, n);
    if e < count - 1 {
      FringeAt(t[..|t| - 6], count - 1, n, e);
      QuadInFront(t, |t| - 6, 6 * e, if e == 0 then n - 1 else e - 1, e, 0, 1);
    } else {
      assert t[|t| - 6..] == t[6 * e..6 * e + 6];
      QuadIs(t, 6 * e, Before(e, n), e, 0, 1);
    }
  }

  lemma FillsAt(t: seq<Slot<Vertex>>, tris: seq<Tri>, n: nat, antiAliased: bool)
    requires Within(tris, n) && Fills(t, tris, n, antiAliased)
    ensures FillReads(t, tris, n, antiAliased)
  {
    hide Fringe, EdgeQuad;
    forall i | 0 <= i < 3 * |tris|
      ensures t[i] == P(if i % 3 == 0 then tris[i / 3].a else if i % 3 == 1 then tris[i / 3].b else tris[i / 3].c, 0)
    {
      var k := i / 3;
      assert t[..3 * |tris|][3 * k..3 * k + 3] == CornersOf(tris[k], n);
      assert t[i] == CornersOf(tris[k], n)[i % 3];
    }
    if antiAliased {
      FringeLength(t[3 * |tris|..], n, n);
      forall e | 0 <= e < n ensures EdgeQuad(t, 3 * |tris|, e, n) {
        FringeAt(t[3 * |tris|..], n, n, e);
        EdgeBehind(t, 3 * |tris|, e, n);
      }
    }
  }

  lemma EdgeBehind(t: seq<Slot<Vertex>>, from: nat, e: nat, n: nat)
    requires from <= |t| && e < n && EdgeQuad(t[from..], 0, e, n)
    ensures EdgeQuad(t, from, e, n)
  {
    assert forall k | 0 <= k < |t| - from :: t[from..][k] == t[from + k];
  }

  lemma {:induction false} FringeLength(t: seq<Slot<Vertex>>, count: nat, n: nat)
    requires count <= n && Fringe(t, count, n)
    ensures |t| == 6 * count
    decreases count
  {
    hide SplitsQuad;
    if count > 0 {
      FringeLength(t[..|t| - 6], count - 1, n);
    }
  }

  /** A fill has been written; its indices find its own points' vertices. */
  ghost predicate Filled(dl: DrawList, was: Recorder, tris: seq<Tri>, n: nat, antiAliased: bool)
    reads dl
  {
    && n >= 3 && Within(tris, n)
    && Drew(dl, was, FillIndices(n, antiAliased), FillVertices(n, antiAliased))
    && Fills(NewTargets(dl, was), tris, n, antiAliased)
  }

  method FinishFill(dl: DrawList, ghost was: Recorder, ghost tris: seq<Tri>, n: nat, antiAliased: bool)
    requires n >= 3 && Within(tris, n) && |tris| == n - 2
    requires Wrote(dl, was, FillIdx(dl.vtxCurrentIdx, tris, n, antiAliased), Rows(n, FillWidth(antiAliased)))
    modifies dl`vtxCurrentIdx
    ensures Filled(dl, was, tris, n, antiAliased)
  {
    hide DrawList.Valid, Drew, Fills, Targets, Rows, TrisIdx, FringeIdx;
    RowsLength(n, FillWidth(antiAliased));
    ghost var base := dl.vtxCurrentIdx;
    FillFinds(was.vtx, dl.header.vtxOffset, base, tris, n, antiAliased);
    Finish(dl, was, FillIdx(base, tris, n, antiAliased), Rows(n, FillWidth(antiAliased)), FillVertices(n, antiAliased));
  }

  /** The triangles, as a fan when the polygon is convex. */
  method WriteInner(dl: DrawList, n: nat, stride: nat, tris: seq<Tri>, convex: bool)
    requires n >= 3 && Within(tris, n) && |tris| == n - 2 && (convex ==> tris == FanOf(n))
    requires dl.Valid() && dl.idxWrite + 3 * |tris| <= |dl.idxBuffer|
    modifies dl`idxBuffer, dl`idxWrite
    ensures dl.Valid() && dl.idxWrite == old(dl.idxWrite) + 3 * |tris| && |dl.idxBuffer| == old(|dl.idxBuffer|)
    ensures
      dl.idxBuffer[..dl.idxWrite]
      == old(dl.idxBuffer)[..old(dl.idxWrite)] + Converted(TrisIdx(dl.vtxCurrentIdx, stride, tris, n))
  {
    hide DrawList.Valid, TrisIdx, Converted, FanOf;
    if convex {
      WriteFan(dl, n, stride);
    } else {
      WriteTris(dl, tris, n, stride);
    }
  }

  /** Smooth edges: the fill over the inner rail, then the fringe. */
  method FillSmooth(dl: DrawList, n: nat, tris: seq<Tri>, convex: bool)
    requires n >= 3 && CanDraw(dl, n * 2) && Within(tris, n) && |tris| == n - 2 && (convex ==> tris == FanOf(n))
    modifies dl
    ensures Filled(dl, old(dl.Recorded()), tris, n, true)
  {
    hide DrawList.Valid, Copies, TrisIdx, FringeIdx, Rows, Filled, Converted, AllWritten, FanOf, Within, CanDraw;
    ghost var was := dl.Recorded();
    Reserve(dl, (n - 2) * 3 + n * 6, n * 2);
    WriteInner(dl, n, 2, tris, convex);
    ghost var base := dl.vtxCurrentIdx;
    ghost var inner, fringe := TrisIdx(base, 2, tris, n), FringeIdx(base, n, n);
    WriteFringe(dl, n);
    ConvertedConcat(inner, fringe);
    ConvertedLength(inner + fringe);
    RowsLength(n, 2);
    assert dl.idxBuffer == was.idx + Converted(inner + fringe);
    FinishFill(dl, was, tris, n, true);
  }

  /** Hard edges: one vertex for each point, and the fill over them. */
  method FillHard(dl: DrawList, n: nat, tris: seq<Tri>, convex: bool)
    requires n >= 3 && CanDraw(dl, n) && Within(tris, n) && |tris| == n - 2 && (convex ==> tris == FanOf(n))
    modifies dl
    ensures Filled(dl, old(dl.Recorded()), tris, n, false)
  {
    hide DrawList.Valid, Copies, TrisIdx, Rows, Filled, Converted, AllWritten, FanOf, Within, CanDraw;
    ghost var was := dl.Recorded();
    Reserve(dl, (n - 2) * 3, n);
    RowsLength(n, 1);
    WriteRows(dl, n, 1);
    WriteInner(dl, n, 1, tris, convex);
    ConvertedLength(TrisIdx(dl.vtxCurrentIdx, 1, tris, n));
    assert dl.idxBuffer[..dl.idxWrite] == dl.idxBuffer;
    FinishFill(dl, was, tris, n, false);
  }

  lemma FilledIs(dl: DrawList, was: Recorder, tris: seq<Tri>, n: nat, antiAliased: bool)
    requires |tris| == n - 2 && Filled(dl, was, tris, n, antiAliased)
    ensures |dl.idxBuffer| == |was.idx| + 3 * (n - 2) + if antiAliased then 6 * n else 0
    ensures |dl.vtxBuffer| == |was.vtx| + if antiAliased then 2 * n else n
    ensures FillReads(NewTargets(dl, was), tris, n, antiAliased)
  {
    hide DrawList.Valid, Fills, FillReads, NewTargets;
    FillsAt(NewTargets(dl, was), tris, n, antiAliased);
  }

  /** A convex polygon: the fan from its first point. */
  method AddConvexPolyFilled(dl: DrawList, n: nat, visible: bool, antiAliased: bool)
    requires dl.Valid() && (n >= 3 && visible ==> CanDraw(dl, FillVertices(n, antiAliased)))
    modifies dl
    ensures n < 3 || !visible ==> dl.Valid() && dl.Recorded() == old(dl.Recorded()) && dl.cmdBuffer == old(dl.cmdBuffer)
    ensures n >= 3 && visible ==> Filled(dl, old(dl.Recorded()), FanOf(n), n, antiAliased)
    ensures n >= 3 && visible ==>
      var t := NewTargets(dl, old(dl.Recorded()));
      && |dl.idxBuffer| == old(|dl.idxBuffer|) + 3 * (n - 2) + (if antiAliased then 6 * n else 0)
      && |dl.vtxBuffer| == old(|dl.vtxBuffer|) + (if antiAliased then 2 * n else n)
      && (forall i | 0 <= i < 3 * (n - 2) :: t[i] == Written(OfPoint(if i % 3 == 0 then 0 else i / 3 + i % 3, 0)))
      && (antiAliased ==> EdgeQuads(t, 3 * (n - 2), n))
  {
    hide DrawList.Valid, CanDraw, Filled, NewTargets, EdgeQuads;
    if n < 3 || !visible {
      return;
    }
    if antiAliased {
      FillSmooth(dl, n, FanOf(n), true);
    } else {
      FillHard(dl, n, FanOf(n), true);
    }
    FilledIs(dl, old(dl.Recorded()), FanOf(n), n, antiAliased);
  }

  /** The triangles of a polygon, in the order in which they are cut off. */
  ghost function TrianglesOf(points: seq<Vec2>): (tris: seq<Tri>)
    requires |points| >= 3
    ensures |tris| == |points| - 2 && Within(tris, |points|)
  {
    seq(|points| - 2, i requires 0 <= i < |points| - 2 => Runs.ClipAt(points, i).t)
  }

  /** A concave polygon: exactly its triangles are drawn, and their signed areas make up the polygon's. */
  method AddConcavePolyFilled(dl: DrawList, points: seq<Vec2>, visible: bool, antiAliased: bool)
    requires dl.Valid() && (|points| >= 3 && visible ==> CanDraw(dl, FillVertices(|points|, antiAliased)))
    modifies dl
    ensures |points| < 3 || !visible ==>
      dl.Valid() && dl.Recorded() == old(dl.Recorded()) && dl.cmdBuffer == old(dl.cmdBuffer)
    ensures |points| >= 3 && visible ==>
      && Filled(dl, old(dl.Recorded()), TrianglesOf(points), |points|, antiAliased)
      && Runs.Proper(points, |points| - 2) && Runs.TipsApart(points, |points| - 2) && Runs.MakesUp(points, |points| - 2)
    ensures |points| >= 3 && visible ==>
      var n := |points|;
      && |dl.idxBuffer| == old(|dl.idxBuffer|) + 3 * (n - 2) + (if antiAliased then 6 * n else 0)
      && |dl.vtxBuffer| == old(|dl.vtxBuffer|) + (if antiAliased then 2 * n else n)
      && FillReads(NewTargets(dl, old(dl.Recorded())), TrianglesOf(points), n, antiAliased)
  {
    hide DrawList.Valid, CanDraw, Filled, NewTargets, FillReads, Runs.Proper, Runs.TipsApart, Runs.MakesUp,
      Runs.ClipAt, Runs.CornersBelow;
    if |points| < 3 || !visible {
      return;
    }
    var triangles := Triangulator.Triangulate(points);
    assert triangles == TrianglesOf(points);
    if antiAliased {
      FillSmooth(dl, |points|, triangles, false);
    } else {
      FillHard(dl, |points|, triangles, false);
    }
    FilledIs(dl, old(dl.Recorded()), triangles, |points|, antiAliased);
  }
}
