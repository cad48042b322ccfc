/** Polygons that are a ridge over one edge: in the order given every point lies further along some direction than the
    one before, and all of them on one side of the edge that closes the polygon, as the area under a plotted line does.
    They need not be convex. Only ears are clipped, the ring is never turned around, and the triangles cover the
    polygon. */
module RidgeRuns {
  import opened Polygon
  import opened Bends
  import opened EarClipping
  import opened EarRuns
  import opened ConvexRuns

  ghost predicate Rising(points: seq<Vec2>, d: Vec2, order: seq<int>)
    requires InRange(order, |points|)
  {
    forall i, j :: 0 <= i < j < |order| ==> Along(d, points[order[i]]) < Along(d, points[order[j]])
  }

  ghost predicate OverBase(points: seq<Vec2>, order: seq<int>)
    requires InRange(order, |points|)
  {
    forall i :: 0 < i < |order| - 1 ==> Turn(points[order[0]], points[order[i]], points[order[|order| - 1]]) > 0.0
  }

  ghost predicate Ridge(points: seq<Vec2>, d: Vec2, order: seq<int>) {
    InRange(order, |points|) && Rising(points, d, order) && OverBase(points, order)
  }

  // ---- The corners of a ridge ----

  lemma RidgeRange(points: seq<Vec2>, d: Vec2, order: seq<int>)
    requires Ridge(points, d, order)
    ensures InRange(order, |points|)
  {}

  lemma CutTurns(points: seq<Vec2>, d: Vec2, st: State, k: int, r: State)
    requires Cuts(points, d, st, k, r)
    ensures Climbing(points, d, st) && |st.order| >= 4 && 0 <= k < |st.order|
    ensures InRange(st.order, |points|) && (0 < k < |st.order| - 1 ==> ClockwiseAt(points, st.order, k))
  {
    hide ClockwiseAt, Ridge, EarsHold, EarHolds, Popped, Tidied;
    ClimbingIs(points, d, st);
  }

  lemma BentAt(points: seq<Vec2>, order: seq<int>, reflexes: seq<int>, i: int)
    requires InRange(order, |points|) && BentListed(points, order, reflexes)
    requires 0 < i < |order| - 1 && !ClockwiseAt(points, order, i)
    ensures order[i] in reflexes
  {}

  lemma CornerIs(points: seq<Vec2>, order: seq<int>, k: int)
    requires InRange(order, |points|) && 0 < k < |order| - 1
    ensures ClockwiseAt(points, order, k) <==> Turn(points[order[k - 1]], points[order[k]], points[order[k + 1]]) > 0.0
  {}

  lemma EndsTurn(points: seq<Vec2>, d: Vec2, order: seq<int>)
    requires Ridge(points, d, order) && |order| >= 3
    ensures ClockwiseAt(points, order, 0) && ClockwiseAt(points, order, |order| - 1)
  {
    hide Turn, Rising;
    var m := |order| - 1;
    TurnCycles(points[order[0]], points[order[1]], points[order[m]]);
    TurnCycles(points[order[0]], points[order[m - 1]], points[order[m]]);
  }

  ghost predicate Within(list: seq<int>, order: seq<int>) {
    forall i :: 0 <= i < |list| ==> list[i] in order
  }

  /** An inner corner that is clockwise contains no other vertex: they all lie before or behind it. */
  lemma InnerIsEar(points: seq<Vec2>, d: Vec2, order: seq<int>, reflexes: seq<int>, k: int)
    requires Ridge(points, d, order) && 0 < k < |order| - 1 && ClockwiseAt(points, order, k)
    requires InRange(reflexes, |points|) && Within(reflexes, order)
    ensures CornersBelow(Corner(order, k), |points|) && IsEarOf(points, reflexes, Corner(order, k))
  {
    hide Turn, ContainsPoint, Along, OverBase;
    CornerRange(order, |points|, k);
    var t := Corner(order, k);
    forall i | 0 <= i < |reflexes| && reflexes[i] != t.a && reflexes[i] != t.b && reflexes[i] != t.c
      ensures !ContainsPoint(points[t.a], points[t.b], points[t.c], points[reflexes[i]])
    {
      var j :| 0 <= j < |order| && order[j] == reflexes[i];
      assert j < k - 1 || j > k + 1;
      if ContainsPoint(points[t.a], points[t.b], points[t.c], points[reflexes[i]]) {
        ContainedAlong(d, points[t.a], points[t.b], points[t.c], points[order[j]]);
      }
    }
  }

  lemma {:induction false} Highest(h: seq<real>) returns (k: int)
    requires h != []
    ensures 0 <= k < |h| && (forall i :: 0 <= i < k ==> h[i] < h[k]) && forall i :: k < i < |h| ==> h[i] <= h[k]
    decreases |h|
  {
    var n := |h| - 1;
    if n == 0 {
      k := 0;
    } else {
      k := Highest(h[..n]);
      assert forall i :: 0 <= i < n ==> h[..n][i] == h[i];
      if h[k] < h[n] {
        k := n;
      }
    }
  }

  /** Heights over the line through p and q. */
  function Heights(points: seq<Vec2>, order: seq<int>, p: Vec2, q: Vec2): (h: seq<real>)
    requires InRange(order, |points|)
    ensures |h| == |order| && forall i :: 0 <= i < |h| ==> h[i] == Height(p, q, points[order[i]])
  {
    seq(|order|, i requires 0 <= i < |order| => Height(p, q, points[order[i]]))
  }

  /** The first highest point is a clockwise corner. */
  lemma HasClockwise(points: seq<Vec2>, d: Vec2, order: seq<int>) returns (k: int)
    requires Ridge(points, d, order) && |order| >= 3
    ensures 0 < k < |order| - 1 && ClockwiseAt(points, order, k)
  {
    var m := |order| - 1;
    var p, q := points[order[0]], points[order[m]];
    var h := Heights(points, order, p, q);
    assert h[0] == 0.0 && h[m] == 0.0;
    assert h[1] > 0.0;
    k := Highest(h);
    hide Turn, Height, Along, OverBase;
    assert 0 < k < m;
    assert Along(d, p) < Along(d, q);
    BendByHeights(d, p, q, points[order[k - 1]], points[order[k]], points[order[k + 1]]);
    CornerIs(points, order, k);
  }

  // ---- Cutting a corner off ----

  lemma {:induction false} Lowest(h: seq<real>) returns (k: int)
    requires h != []
    ensures 0 <= k < |h| && forall i :: 0 <= i < |h| ==> h[k] <= h[i]
    decreases |h|
  {
    var n := |h| - 1;
    if n == 0 {
      k := 0;
    } else {
      k := Lowest(h[..n]);
      assert forall i :: 0 <= i < n ==> h[..n][i] == h[i];
      if h[n] < h[k] {
        k := n;
      }
    }
  }

  /** Where a stretch of the ridge dips under the line between its ends, its lowest point is no clockwise corner. */
  lemma DipBends(points: seq<Vec2>, d: Vec2, order: seq<int>, from: int, to: int, low: int) returns (k: int)
    requires Ridge(points, d, order) && 0 <= from < low < to < |order|
    requires Height(points[order[from]], points[order[to]], points[order[low]]) <= 0.0
    ensures from < k < to && !ClockwiseAt(points, order, k)
    ensures Height(points[order[from]], points[order[to]], points[order[k]]) <= 0.0
  {
    var p, q := points[order[from]], points[order[to]];
    var all := Heights(points, order, p, q);
    assert all[from] == 0.0 && all[to] == 0.0;
    var h := all[from + 1..to];
    var i := Lowest(h);
    assert forall j :: from < j < to ==> all[j] == h[j - from - 1];
    k := i + from + 1;
    hide Turn, Height, Along, OverBase, Heights;
    assert Along(d, p) < Along(d, q);
    BendByHeights(d, p, q, points[order[k - 1]], points[order[k]], points[order[k + 1]]);
    CornerIs(points, order, k);
  }

  /** A dip under the line from the second point to the last lies in the triangle of the first corner. */
  lemma DipInFirst(d: Vec2, a: Vec2, b: Vec2, c: Vec2, e: Vec2)
    requires Along(d, a) < Along(d, b) < Along(d, c) < Along(d, e)
    requires Turn(a, b, e) > 0.0 && Turn(a, c, e) > 0.0 && Turn(b, c, e) <= 0.0
    ensures ContainsPoint(e, a, b, c)
  {
    BendsBefore(d, a, b, c, e);
    hide Turn, Along, ContainsPoint;
    TurnCycles(a, b, e);
    TurnCycles(a, c, e);
    TurnCycles(b, c, e);
    ContainsIs(e, a, b, c);
  }

  /** And one under the line from the first point to the last but one in that of the last. */
  lemma DipInLast(d: Vec2, a: Vec2, b: Vec2, c: Vec2, e: Vec2)
    requires Along(d, a) < Along(d, b) < Along(d, c) < Along(d, e)
    requires Turn(a, c, e) > 0.0 && Turn(a, b, e) > 0.0 && Turn(a, b, c) <= 0.0
    ensures ContainsPoint(c, e, a, b)
  {
    BendsAfter(d, a, b, c, e);
    hide Turn, Along, ContainsPoint;
    TurnCycles(a, c, e);
    TurnCycles(a, b, e);
    TurnCycles(b, c, e);
    TurnCycles(a, b, c);
    ContainsIs(c, e, a, b);
  }

  /** Every inner corner that is not clockwise is listed. */
  ghost predicate BentListed(points: seq<Vec2>, order: seq<int>, reflexes: seq<int>)
    requires InRange(order, |points|)
  {
    forall i :: 0 < i < |order| - 1 && !ClockwiseAt(points, order, i) ==> order[i] in reflexes
  }

  lemma RestRises(points: seq<Vec2>, d: Vec2, order: seq<int>, k: int)
    requires Ridge(points, d, order) && 0 <= k < |order|
    ensures InRange(Without(order, k), |points|) && Rising(points, d, Without(order, k))
  {
    hide Along, OverBase;
  }

  /** The first corner, when it is an ear, can be cut off: there is no dip behind it. */
  lemma FirstCut(points: seq<Vec2>, d: Vec2, order: seq<int>, reflexes: seq<int>)
    requires Ridge(points, d, order) && |order| >= 4 && InRange(reflexes, |points|)
    requires BentListed(points, order, reflexes)
    requires CornersBelow(Corner(order, 0), |points|) && IsEarOf(points, reflexes, Corner(order, 0))
    ensures Ridge(points, d, Without(order, 0))
  {
    hide Turn, ContainsPoint, Along, Height, IsEarOf;
    RestRises(points, d, order, 0);
    var rest, m := Without(order, 0), |order| - 1;
    forall i | 0 < i < m - 1
      ensures Turn(points[rest[0]], points[rest[i]], points[rest[m - 1]]) > 0.0
    {
      HeightIs(points[order[1]], points[order[i + 1]], points[order[m]]);
      if Turn(points[order[1]], points[order[i + 1]], points[order[m]]) <= 0.0 {
        var k := DipBends(points, d, order, 1, m, i + 1);
        HeightIs(points[order[1]], points[order[k]], points[order[m]]);
        DipInFirst(d, points[order[0]], points[order[1]], points[order[k]], points[order[m]]);
        NotEar(points, reflexes, Corner(order, 0), order[k]);
      }
    }
  }

  lemma LastCut(points: seq<Vec2>, d: Vec2, order: seq<int>, reflexes: seq<int>)
    requires Ridge(points, d, order) && |order| >= 4 && InRange(reflexes, |points|)
    requires BentListed(points, order, reflexes)
    requires CornersBelow(Corner(order, |order| - 1), |points|) && IsEarOf(points, reflexes, Corner(order, |order| - 1))
    ensures Ridge(points, d, Without(order, |order| - 1))
  {
    hide Turn, ContainsPoint, Along, Height, IsEarOf;
    var rest, m := Without(order, |order| - 1), |order| - 1;
    RestRises(points, d, order, m);
    forall i | 0 < i < m - 1
      ensures Turn(points[rest[0]], points[rest[i]], points[rest[m - 1]]) > 0.0
    {
      HeightIs(points[order[0]], points[order[i]], points[order[m - 1]]);
      if Turn(points[order[0]], points[order[i]], points[order[m - 1]]) <= 0.0 {
        var k := DipBends(points, d, order, 0, m - 1, i);
        HeightIs(points[order[0]], points[order[k]], points[order[m - 1]]);
        DipInLast(d, points[order[0]], points[order[k]], points[order[m - 1]], points[order[m]]);
        NotEar(points, reflexes, Corner(order, m), order[k]);
      }
    }
  }

  lemma HeightIs(p: Vec2, r: Vec2, q: Vec2)
    ensures Height(p, q, r) == Turn(p, r, q)
  {}

  lemma NotEar(points: seq<Vec2>, reflexes: seq<int>, t: Triangle, v: int)
    requires InRange(reflexes, |points|) && CornersBelow(t, |points|) && v in reflexes && v != t.a && v != t.b
    requires v != t.c
    requires 0 <= v < |points| && ContainsPoint(points[t.a], points[t.b], points[t.c], points[v])
    ensures !IsEarOf(points, reflexes, t)
  {
    hide ContainsPoint;
    var i :| 0 <= i < |reflexes| && reflexes[i] == v;
  }

  /** An inner corner can always be cut off. */
  lemma InnerCut(points: seq<Vec2>, d: Vec2, order: seq<int>, k: int)
    requires Ridge(points, d, order) && 0 < k < |order| - 1
    ensures Ridge(points, d, Without(order, k))
  {
    hide Turn, Along;
    RestRises(points, d, order, k);
    var rest, m := Without(order, k), |order| - 1;
    forall i | 0 < i < m - 1
      ensures Turn(points[rest[0]], points[rest[i]], points[rest[m - 1]]) > 0.0
    {
      assert rest[i] == order[if i < k then i else i + 1];
    }
  }

  /** What is left after any ear is cut off is a ridge again. */
  lemma CutRidge(points: seq<Vec2>, d: Vec2, order: seq<int>, reflexes: seq<int>, k: int)
    requires Ridge(points, d, order) && |order| >= 4 && InRange(reflexes, |points|)
    requires BentListed(points, order, reflexes)
    requires 0 <= k < |order| && CornersBelow(Corner(order, k), |points|) && IsEarOf(points, reflexes, Corner(order, k))
    ensures Ridge(points, d, Without(order, k))
  {
    hide Ridge, BentListed, IsEarOf, Corner;
    if k == 0 {
      FirstCut(points, d, order, reflexes);
    } else if k == |order| - 1 {
      LastCut(points, d, order, reflexes);
    } else {
      InnerCut(points, d, order, k);
    }
  }

  // ---- The state ----

  /** The type of every inner vertex: an ear where it is clockwise, and else reflex. */
  ghost predicate InnerKinds(points: seq<Vec2>, st: State)
    requires InRange(st.order, |points|) && |st.kinds| == |points|
  {
    forall i :: 0 < i < |st.order| - 1 ==>
      st.kinds[st.order[i]] == if ClockwiseAt(points, st.order, i) then Ear else Reflex
  }

  /** Listed ears are ears with respect to what is listed as reflex now. */
  ghost predicate EarsHold(points: seq<Vec2>, st: State)
    requires InRange(st.order, |points|) && |st.kinds| == |points| && InRange(st.reflexes, |points|)
  {
    forall i :: 0 <= i < |st.order| && st.kinds[st.order[i]] == Ear ==> EarHolds(points, st, i)
  }

  ghost predicate EarHolds(points: seq<Vec2>, st: State, i: int)
    requires InRange(st.reflexes, |points|) && 0 <= i < |st.order|
  {
    CornersBelow(Corner(st.order, i), |points|) && IsEarOf(points, st.reflexes, Corner(st.order, i))
  }

  /** Linked, sound and in range, and exactly the linked Reflex vertices listed. */
  ghost predicate Tidied(points: seq<Vec2>, st: State) {
    && Ready(points, st) && InRange(st.order, |points|) && |st.kinds| == |points| && InRange(st.reflexes, |points|)
    && Misses(st, -1) && Within(st.reflexes, st.order)
  }

  ghost predicate Climbing(points: seq<Vec2>, d: Vec2, st: State) {
    && Tidied(points, st) && Ridge(points, d, st.order) && InnerKinds(points, st) && EarsHold(points, st)
    && (|st.order| >= 2 ==> st.kinds[st.order[0]] != Reflex && st.kinds[st.order[|st.order| - 1]] != Reflex)
  }

  lemma BentAreListed(points: seq<Vec2>, st: State)
    requires Tidied(points, st) && InnerKinds(points, st)
    ensures BentListed(points, st.order, st.reflexes)
  {
    hide ClockwiseAt, Ready;
    forall i | 0 < i < |st.order| - 1 && !ClockwiseAt(points, st.order, i)
      ensures st.order[i] in st.reflexes
    {
      assert !Unlisted(st, st.order[i]);
    }
  }

  /** While three vertices are left there is an ear. */
  lemma ClimbingEars(points: seq<Vec2>, d: Vec2, st: State)
    requires Climbing(points, d, st) && |st.order| >= 3
    ensures st.ears != []
  {
    hide ClockwiseAt, Ridge, EarsHold, EarsTurn, Misses;
    ReadyIs(points, st);
    var k := HasClockwise(points, d, st.order);
    assert st.order[k] in st.order;
    assert st.order[k] in st.ears;
  }

  /** The vertex that is clipped is an ear, and linked. */
  lemma PickHolds(points: seq<Vec2>, d: Vec2, st: State)
    requires Climbing(points, d, st) && st.ears != [] && st.order != []
    ensures var k := Pick(points, st); st.kinds[st.order[k]] == Ear && EarHolds(points, st, k)
  {
    hide Ridge, EarHolds, EarsTurn, Misses, InnerKinds;
    ReadyIs(points, st);
    PopLast(st, |points|);
  }

  // ---- One triangle ----

  /** Position j of the ring of m is one of the two next to the gap that unlinking position k left. */
  predicate AtGap(k: int, m: int, j: int)
    requires 0 <= k <= m && 2 <= m
  {
    j == Seam(k, m) || j == Before(Seam(k, m), m)
  }

  /** The position that j had. */
  function Was(k: int, j: int): int {
    if j < k then j else j + 1
  }

  /** Where an inner corner that is clockwise is cut off, an inner neighbour that was clockwise stays so. */
  lemma CutKeepsClockwise(points: seq<Vec2>, d: Vec2, order: seq<int>, k: int, j: int)
    requires Ridge(points, d, order) && 0 < k < |order| - 1 && ClockwiseAt(points, order, k)
    requires 0 < j < |order| - 2 && AtGap(k, |order| - 1, j) && ClockwiseAt(points, order, Was(k, j))
    requires InRange(Without(order, k), |points|)
    ensures ClockwiseAt(points, Without(order, k), j)
  {
    var a := if j < k then k - 2 else k - 1;
    CornerIs(points, order, k);
    CornerIs(points, order, Was(k, j));
    CornerIs(points, Without(order, k), j);
    hide ClockwiseAt, Along, Turn, OverBase;
    BendsOn(d, points[order[a]], points[order[a + 1]], points[order[a + 2]], points[order[a + 3]]);
  }

  lemma InGap(order: seq<int>, n: int, k: int, j: int)
    requires DistinctBelow(order, n) && 0 <= k < |order| && |order| >= 3 && 0 <= j < |order| - 1
    ensures
      var v := Without(order, k)[j];
      && v == order[Was(k, j)]
      && (AtGap(k, |order| - 1, j) <==> v == order[Before(k, |order|)] || v == order[After(k, |order|)])
  {
    SeamNeighbours(order, k);
  }

  /** Away from the gap a vertex keeps its corner, its type, and whether it is listed as reflex. */
  lemma FarKeeps(points: seq<Vec2>, base: State, k: int, j: int)
    requires Ready(points, base) && 0 <= k < |base.order| && |base.order| >= 3 && |base.kinds| == |points|
    requires Popped(base.ears, EarsLeft(base), base.order[k], |points|) && InRange(base.order, |points|)
    requires 0 <= j < |base.order| - 1 && !AtGap(k, |base.order| - 1, j)
    ensures
      var r, i := AfterCut(points, base, k), Was(k, j);
      && |r.kinds| == |points| && 0 <= r.order[j] < |r.kinds| && r.order[j] == base.order[i]
      && r.kinds[r.order[j]] == base.kinds[base.order[i]] && (r.order[j] in r.reflexes <==> r.order[j] in base.reflexes)
      && Corner(r.order, j) == Corner(base.order, i)
  {
    hide EarsTurn, Sound, Popped, Corner, AfterCut;
    ReadyIs(points, base);
    InGap(base.order, |points|, k, j);
    FarCorner(base.order, k, j);
    AfterKeeps(points, base, k, base.order[Was(k, j)]);
  }

  /** An ear is at hand, and the next state comes from cutting it off at position k. */
  ghost predicate Cuts(points: seq<Vec2>, d: Vec2, st: State, k: int, r: State) {
    && Climbing(points, d, st) && |st.order| >= 4 && 0 <= k < |st.order|
    && Popped(st.ears, EarsLeft(st), st.order[k], |points|) && r == AfterCut(points, st, k)
    && st.kinds[st.order[k]] == Ear && EarHolds(points, st, k)
  }

  lemma NextCuts(points: seq<Vec2>, d: Vec2, st: State)
    requires Climbing(points, d, st) && |st.order| >= 4
    ensures Cuts(points, d, st, Pick(points, st), Next(points, st))
  {
    hide Climbing, EarHolds, Popped, Ready, Refilled;
    ClimbingIs(points, d, st);
    ClimbingEars(points, d, st);
    PickHolds(points, d, st);
  }

  lemma ClimbingIs(points: seq<Vec2>, d: Vec2, st: State)
    requires Climbing(points, d, st)
    ensures Tidied(points, st) && Ready(points, st) && |st.kinds| == |points|
    ensures InRange(st.order, |points|) && InRange(st.reflexes, |points|) && Sound(st, |points|)
    ensures DistinctBelow(st.order, |points|)
    ensures Ridge(points, d, st.order) && InnerKinds(points, st) && EarsHold(points, st)
  {}

  lemma CutsParts(points: seq<Vec2>, d: Vec2, st: State, k: int, r: State)
    requires Cuts(points, d, st, k, r)
    ensures Climbing(points, d, st) && |st.order| >= 4 && 0 <= k < |st.order|
    ensures r.order == Without(st.order, k) && Ready(points, r) && EarHolds(points, st, k)
    ensures InRange(st.reflexes, |points|)
  {
    hide Climbing, EarHolds, Popped, Ready;
    ClimbingIs(points, d, st);
  }

  /** What is left after the cut is a ridge. */
  lemma LeftRidge(points: seq<Vec2>, d: Vec2, st: State, k: int)
    requires Climbing(points, d, st) && |st.order| >= 4 && 0 <= k < |st.order|
    requires InRange(st.reflexes, |points|) && EarHolds(points, st, k)
    ensures Ridge(points, d, Without(st.order, k))
  {
    hide Climbing, Tidied, Ridge, IsEarOf, InnerKinds, EarsHold, Ready, Sound, ClockwiseAt, BentListed, Corner, Without;
    ClimbingIs(points, d, st);
    BentAreListed(points, st);
    CutRidge(points, d, st.order, st.reflexes, k);
  }

  /** The ring of the next state is a ridge, and both its ends turn. */
  lemma CutsRidge(points: seq<Vec2>, d: Vec2, st: State, k: int, r: State)
    requires Cuts(points, d, st, k, r)
    ensures r.order == Without(st.order, k) && Ridge(points, d, r.order) && Ready(points, r)
    ensures InRange(r.order, |points|) && ClockwiseAt(points, r.order, 0) && ClockwiseAt(points, r.order, |r.order| - 1)
  {
    hide *;
    CutsParts(points, d, st, k, r);
    LeftRidge(points, d, st, k);
    RidgeRange(points, d, r.order);
    EndsTurn(points, d, r.order);
  }

  /** A vertex at the gap has the type of its corner: reflex exactly when it is not clockwise. */
  lemma GapKind(points: seq<Vec2>, d: Vec2, st: State, k: int, r: State, j: int)
    requires Cuts(points, d, st, k, r) && 0 <= j < |st.order| - 1 && AtGap(k, |st.order| - 1, j)
    ensures r.order == Without(st.order, k) && Typed(points, r, j)
    ensures r.kinds[r.order[j]] == Reflex <==> !ClockwiseAt(points, r.order, j)
    ensures r.kinds[r.order[j]] == Ear ==> EarHolds(points, r, j)
  {
    hide Climbing, EarHolds, Popped, Ready, Corner, IsEarOf;
    ClimbingIs(points, d, st);
    GapIsTyped(points, st, k);
    CornerRange(r.order, |points|, j);
    EarHoldsIs(points, r, j);
  }

  lemma EarHoldsIs(points: seq<Vec2>, st: State, i: int)
    requires InRange(st.reflexes, |points|) && 0 <= i < |st.order| && CornersBelow(Corner(st.order, i), |points|)
    ensures EarHolds(points, st, i) <==> IsEarOf(points, st.reflexes, Corner(st.order, i))
  {}

  /** So a vertex at the gap that is not clockwise now was an inner one, and not clockwise before. */
  lemma GapWasBent(points: seq<Vec2>, d: Vec2, order: seq<int>, k: int, j: int)
    requires Ridge(points, d, order) && |order| >= 4 && 0 <= k < |order| && 0 <= j < |order| - 1
    requires AtGap(k, |order| - 1, j)
    requires 0 < k < |order| - 1 ==> ClockwiseAt(points, order, k)
    requires Ridge(points, d, Without(order, k)) && !ClockwiseAt(points, Without(order, k), j)
    ensures 0 < Was(k, j) < |order| - 1 && !ClockwiseAt(points, order, Was(k, j))
  {
    hide ClockwiseAt, Ridge;
    var m := |order| - 1;
    RidgeRange(points, d, order);
    RidgeRange(points, d, Without(order, k));
    EndsTurn(points, d, Without(order, k));
    assert 0 < j < m - 1 && 0 < k < m;
    if ClockwiseAt(points, order, Was(k, j)) {
      CutKeepsClockwise(points, d, order, k, j);
    }
  }

  /** A vertex at the gap that is not clockwise was listed as reflex before. */
  lemma GapWasReflex(points: seq<Vec2>, d: Vec2, st: State, k: int, r: State, j: int)
    requires Cuts(points, d, st, k, r) && 0 <= j < |st.order| - 1 && AtGap(k, |st.order| - 1, j)
    requires InRange(r.order, |points|) && j < |r.order| && !ClockwiseAt(points, r.order, j)
    ensures r.order[j] in st.reflexes
  {
    hide *;
    CutsRidge(points, d, st, k, r);
    CutTurns(points, d, st, k, r);
    ClimbingIs(points, d, st);
    InGap(st.order, |points|, k, j);
    GapWasBent(points, d, st.order, k, j);
    BentAreListed(points, st);
    BentAt(points, st.order, st.reflexes, Was(k, j));
  }

  lemma ReflexKind(points: seq<Vec2>, st: State, v: int)
    requires Sound(st, |points|) && v in st.reflexes
    ensures |st.kinds| == |points| && 0 <= v < |points| && st.kinds[v] == Reflex
  {}

  /** A vertex at the gap that is listed now was listed before. */
  lemma GapListed(points: seq<Vec2>, d: Vec2, st: State, k: int, r: State, j: int)
    requires Cuts(points, d, st, k, r) && 0 <= j < |st.order| - 1 && AtGap(k, |st.order| - 1, j)
    requires j < |r.order| && r.order[j] in r.reflexes
    ensures r.order[j] in st.reflexes
  {
    hide *;
    CutsRidge(points, d, st, k, r);
    ReadyIs(points, r);
    ReflexKind(points, r, r.order[j]);
    GapKind(points, d, st, k, r, j);
    GapWasReflex(points, d, st, k, r, j);
  }

  /** And so was any other that is listed; it is linked, too. */
  lemma FarListed(points: seq<Vec2>, d: Vec2, st: State, k: int, r: State, v: int)
    requires Cuts(points, d, st, k, r) && v in r.reflexes
    requires v != st.order[Before(k, |st.order|)] && v != st.order[After(k, |st.order|)]
    ensures v in st.reflexes && v in Without(st.order, k)
  {
    hide Climbing, EarHolds, Popped, Tidied, InnerKinds, EarsHold, Ready, Sound, AfterCut;
    ClimbingIs(points, d, st);
    AfterKeeps(points, st, k, v);
    ReflexKind(points, st, v);
    RestIs(st.order, |points|, k, v);
    TidiedWithin(points, st, v);
  }

  /** Nothing is newly listed as reflex, and what is listed is linked. */
  lemma ListedBefore(points: seq<Vec2>, d: Vec2, st: State, k: int, r: State, v: int)
    requires Cuts(points, d, st, k, r) && v in r.reflexes
    ensures v in st.reflexes && v in r.order
  {
    hide Cuts, Ridge, Ready, ClockwiseAt, Without;
    CutsParts(points, d, st, k, r);
    CutsRidge(points, d, st, k, r);
    SeamNeighbours(st.order, k);
    var m := |st.order| - 1;
    if v == st.order[Before(k, m + 1)] {
      GapListed(points, d, st, k, r, Before(Seam(k, m), m));
      assert r.order[Before(Seam(k, m), m)] in r.order;
    } else if v == st.order[After(k, m + 1)] {
      GapListed(points, d, st, k, r, Seam(k, m));
      assert r.order[Seam(k, m)] in r.order;
    } else {
      FarListed(points, d, st, k, r, v);
    }
  }

  lemma TidiedWithin(points: seq<Vec2>, st: State, v: int)
    requires Tidied(points, st) && v in st.reflexes
    ensures v in st.order
  {}

  lemma NothingStale(points: seq<Vec2>, order: seq<int>, k: int)
    requires InRange(order, |points|) && 0 <= k < |order| && |order| >= 3
    ensures StaleCut(points, order, k, -1) == -1
  {
    hide ClockwiseAt;
  }

  lemma CutTidied(points: seq<Vec2>, d: Vec2, st: State, k: int, r: State)
    requires Cuts(points, d, st, k, r)
    ensures Tidied(points, r)
  {
    hide Climbing, EarHolds, Popped, Ridge, ClockwiseAt, AfterCut, EarsTurn, Misses;
    ClimbingIs(points, d, st);
    CutsRidge(points, d, st, k, r);
    ReadyIs(points, r);
    AfterMisses(points, st, k, -1);
    NothingStale(points, st.order, k);
    forall i | 0 <= i < |r.reflexes|
      ensures r.reflexes[i] in r.order
    {
      assert r.reflexes[i] in r.reflexes;
      ListedBefore(points, d, st, k, r, r.reflexes[i]);
    }
  }

  /** The reflex list only got shorter: an ear with the same corner is an ear still. */
  lemma FewerReflexes(points: seq<Vec2>, r1: seq<int>, r2: seq<int>, t: Triangle)
    requires InRange(r1, |points|) && InRange(r2, |points|) && CornersBelow(t, |points|)
    requires IsEarOf(points, r1, t) && forall v :: v in r2 ==> v in r1
    ensures IsEarOf(points, r2, t)
  {
    hide ContainsPoint;
    forall i | 0 <= i < |r2| && r2[i] != t.a && r2[i] != t.b && r2[i] != t.c
      ensures !ContainsPoint(points[t.a], points[t.b], points[t.c], points[r2[i]])
    {
      assert r2[i] in r1;
      var j :| 0 <= j < |r1| && r1[j] == r2[i];
    }
  }

  /** Every ear holds in the new state: those at the gap were just tested, the others have fewer reflex vertices to
      mind. */
  lemma CutEarHolds(points: seq<Vec2>, d: Vec2, st: State, k: int, r: State, j: int)
    requires Cuts(points, d, st, k, r) && Tidied(points, r) && 0 <= j < |r.order| && r.kinds[r.order[j]] == Ear
    ensures EarHolds(points, r, j)
  {
    hide Climbing, Popped, Ridge, ClockwiseAt, AfterCut, Ready, IsEarOf, Corner, InnerKinds;
    ClimbingIs(points, d, st);
    CutsRidge(points, d, st, k, r);
    if AtGap(k, |st.order| - 1, j) {
      GapKind(points, d, st, k, r, j);
    } else {
      FarKeeps(points, st, k, j);
      assert EarHolds(points, st, Was(k, j));
      forall v | v in r.reflexes
        ensures v in st.reflexes
      {
        ListedBefore(points, d, st, k, r, v);
      }
      FewerReflexes(points, st.reflexes, r.reflexes, Corner(r.order, j));
    }
  }

  /** Every inner vertex has its type in the new state. */
  lemma CutInnerKind(points: seq<Vec2>, d: Vec2, st: State, k: int, r: State, j: int)
    requires Cuts(points, d, st, k, r) && Tidied(points, r) && 0 < j < |r.order| - 1
    ensures r.kinds[r.order[j]] == if ClockwiseAt(points, r.order, j) then Ear else Reflex
  {
    hide Climbing, EarHolds, EarsHold, Popped, Ridge, AfterCut, Ready, IsEarOf, Corner, TurnsClockwise;
    ClimbingIs(points, d, st);
    CutsRidge(points, d, st, k, r);
    if AtGap(k, |st.order| - 1, j) {
      GapKind(points, d, st, k, r, j);
      if ClockwiseAt(points, r.order, j) {
        InnerIsEar(points, d, r.order, r.reflexes, j);
      }
    } else {
      FarKeeps(points, st, k, j);
    }
  }

  /** The ends are not reflex in the new state. */
  lemma CutEnd(points: seq<Vec2>, d: Vec2, st: State, k: int, r: State, j: int)
    requires Cuts(points, d, st, k, r) && Tidied(points, r) && (j == 0 || j == |r.order| - 1) && 0 <= j < |r.order|
    ensures r.kinds[r.order[j]] != Reflex
  {
    hide EarHolds, EarsHold, Popped, Ridge, AfterCut, Ready, IsEarOf, Corner, ClockwiseAt, InnerKinds, Misses;
    CutsRidge(points, d, st, k, r);
    if AtGap(k, |st.order| - 1, j) {
      GapKind(points, d, st, k, r, j);
    } else {
      FarKeeps(points, st, k, j);
    }
  }

  lemma CutAll(points: seq<Vec2>, d: Vec2, st: State, k: int, r: State)
    requires Cuts(points, d, st, k, r) && Tidied(points, r)
    ensures InRange(r.order, |points|) && |r.kinds| == |points| && InRange(r.reflexes, |points|)
    ensures InnerKinds(points, r) && EarsHold(points, r)
  {
    hide Cuts, EarHolds, ClockwiseAt, Misses, Ready, Within;
    forall j | 0 <= j < |r.order| && r.kinds[r.order[j]] == Ear
      ensures EarHolds(points, r, j)
    {
      CutEarHolds(points, d, st, k, r, j);
    }
    forall j | 0 < j < |r.order| - 1
      ensures r.kinds[r.order[j]] == if ClockwiseAt(points, r.order, j) then Ear else Reflex
    {
      CutInnerKind(points, d, st, k, r, j);
    }
  }

  lemma NextClimbing(points: seq<Vec2>, d: Vec2, st: State)
    requires Climbing(points, d, st) && |st.order| >= 4
    ensures Climbing(points, d, Next(points, st))
  {
    hide Climbing, Cuts, Next;
    ClimbingIs(points, d, st);
    NextCuts(points, d, st);
    CutsClimbing(points, d, st, Pick(points, st), Next(points, st));
  }

  lemma CutsClimbing(points: seq<Vec2>, d: Vec2, st: State, k: int, r: State)
    requires Cuts(points, d, st, k, r)
    ensures Climbing(points, d, r)
  {
    hide Tidied, Ridge, InnerKinds, EarsHold, AfterCut, Popped;
    CutsRidge(points, d, st, k, r);
    CutTidied(points, d, st, k, r);
    CutAll(points, d, st, k, r);
    CutEnd(points, d, st, k, r, 0);
    CutEnd(points, d, st, k, r, |r.order| - 1);
  }

  // ---- Whole runs ----

  /** Freshly built, such a ring has all it needs. */
  lemma StartClimbing(points: seq<Vec2>, d: Vec2)
    requires |points| >= 3 && InRange(Identity(|points|), |points|) && Ridge(points, d, Identity(|points|))
    ensures Climbing(points, d, Start(points))
  {
    hide Start, Ridge, Fresh, Misses;
    StartIsFresh(points);
    StartMisses(points);
    FreshTidied(points, Start(points));
    FreshKinds(points, d, Start(points));
  }

  lemma FreshTidied(points: seq<Vec2>, b: State)
    requires Fresh(points, b) && Misses(b, -1)
    ensures Tidied(points, b)
  {
    hide ClockwiseAt, TypedButLast, EarsTurn, Misses;
    ReadyIs(points, b);
    forall i | 0 <= i < |b.reflexes|
      ensures b.reflexes[i] in b.order
    {
      assert b.reflexes[i] in b.reflexes;
    }
  }

  lemma FreshKinds(points: seq<Vec2>, d: Vec2, b: State)
    requires Fresh(points, b) && Tidied(points, b) && Ridge(points, d, b.order) && |b.order| >= 3
    ensures InnerKinds(points, b) && EarsHold(points, b)
    ensures b.kinds[b.order[0]] != Reflex && b.kinds[b.order[|b.order| - 1]] != Reflex
  {
    var m := |b.order| - 1;
    forall j | 0 < j < m
      ensures b.kinds[b.order[j]] == if ClockwiseAt(points, b.order, j) then Ear else Reflex
    {
      FreshInner(points, d, b, j);
    }
    forall j | 0 <= j <= m && b.kinds[b.order[j]] == Ear
      ensures EarHolds(points, b, j)
    {
      FreshEarHolds(points, b, j);
    }
    FreshEnds(points, d, b);
  }

  lemma FreshInner(points: seq<Vec2>, d: Vec2, b: State, j: int)
    requires Fresh(points, b) && Tidied(points, b) && Ridge(points, d, b.order) && 0 < j < |b.order| - 1
    ensures b.kinds[b.order[j]] == if ClockwiseAt(points, b.order, j) then Ear else Reflex
  {
    hide Ridge, Ready, Misses, TurnsBack, IsEarOf, Corner, TurnsClockwise;
    assert Typed(points, b, j);
    if ClockwiseAt(points, b.order, j) {
      InnerIsEar(points, d, b.order, b.reflexes, j);
    }
  }

  lemma FreshEarHolds(points: seq<Vec2>, b: State, j: int)
    requires Fresh(points, b) && Tidied(points, b) && 0 <= j < |b.order| && b.kinds[b.order[j]] == Ear
    ensures EarHolds(points, b, j)
  {
    hide Misses, TurnsBack, IsEarOf, Corner, TurnsClockwise, EarsTurn;
    CornerRange(b.order, |points|, j);
    assert b.order[j] in b.order;
    assert Typed(points, b, j);
  }

  lemma FreshEnds(points: seq<Vec2>, d: Vec2, b: State)
    requires Fresh(points, b) && Tidied(points, b) && Ridge(points, d, b.order) && |b.order| >= 3
    ensures b.kinds[b.order[0]] != Reflex && b.kinds[b.order[|b.order| - 1]] != Reflex
  {
    hide Ridge, TurnsClockwise, IsEarOf, Corner, EarsTurn;
    EndsTurn(points, d, b.order);
    ReadyIs(points, b);
    var m := |b.order| - 1;
    assert Typed(points, b, 0);
    assert b.order[m] in b.order;
    assert !Unlisted(b, b.order[m]);
  }

  lemma {:induction false} StaysClimbing(points: seq<Vec2>, d: Vec2, i: nat)
    requires |points| >= 3 && i < |points| - 2 && Climbing(points, d, Start(points))
    ensures Climbing(points, d, StateAt(points, i))
    decreases i
  {
    hide *;
    if i == 0 {
      StateStart(points);
    } else {
      StaysClimbing(points, d, i - 1);
      StateStep(points, i - 1);
      RingIs(points, i - 1);
      NextClimbing(points, d, StateAt(points, i - 1));
    }
  }

  lemma ClimbingOnlyEars(points: seq<Vec2>, d: Vec2)
    requires |points| >= 3 && Climbing(points, d, Start(points))
    ensures OnlyEars(points) && !ClipAt(points, 0).flipped
  {
    hide Climbing, Start;
    forall i | 0 <= i < |points| - 2
      ensures ClipAt(points, i).genuine && !ClipAt(points, i).flipped
    {
      StaysClimbing(points, d, i);
      ClimbingEars(points, d, StateAt(points, i));
    }
  }

  /** Every point lies further along d than the one before, and all others on the clockwise side of the edge that closes
      the polygon. */
  ghost predicate RidgePoints(points: seq<Vec2>, d: Vec2) {
    && (forall i, j :: 0 <= i < j < |points| ==> Along(d, points[i]) < Along(d, points[j]))
    && (forall i :: 0 < i < |points| - 1 ==> Turn(points[0], points[i], points[|points| - 1]) > 0.0)
  }

  lemma RidgeOfPoints(points: seq<Vec2>, d: Vec2)
    requires RidgePoints(points, d)
    ensures InRange(Identity(|points|), |points|) && Ridge(points, d, Identity(|points|))
  {
    hide Along, Turn;
  }

  /** The triangles of such a polygon cover it: whichever corners turn back, an ear is always left, and cutting it off
      leaves a ridge. */
  lemma RidgeIsCovered(points: seq<Vec2>, d: Vec2)
    requires |points| >= 3 && RidgePoints(points, d)
    ensures OnlyEars(points) && !ClipAt(points, 0).flipped
    ensures AreaSum(points, |points| - 2) == RingArea(points, Identity(|points|)) > 0.0
  {
    hide Climbing, RidgePoints, Ridge, OnlyEars, AreaSum, RingArea, Start;
    RidgeOfPoints(points, d);
    StartClimbing(points, d);
    ClimbingOnlyEars(points, d);
    EarsCoverPolygon(points);
  }

  function Notched(): (r: seq<Vec2>)
    ensures |r| == 5 && forall i :: 0 <= i < 5 ==> r[i].x == i as real
    ensures r[0].y == 0.0 && r[4].y == 0.0 && forall i :: 0 < i < 4 ==> r[i].y < 0.0
  {
    [Vec2(0.0, 0.0), Vec2(1.0, -3.0), Vec2(2.0, -1.0), Vec2(3.0, -3.0), Vec2(4.0, 0.0)]
  }

  /** Such a polygon with a notch in its ridge. */
  lemma NotchedRidge()
    ensures RidgePoints(Notched(), Vec2(1.0, 0.0)) && !ConvexClockwise(Notched())
  {
    assert Turn(Notched()[1], Notched()[2], Notched()[3]) < 0.0;
    hide Notched;
    forall i, j | 0 <= i < j < 5
      ensures Along(Vec2(1.0, 0.0), Notched()[i]) < Along(Vec2(1.0, 0.0), Notched()[j])
    {
    }
    forall i | 0 < i < 4
      ensures Turn(Notched()[0], Notched()[i], Notched()[4]) > 0.0
    {
    }
  }

  // ---- Against the direction asked for ----

  /** A ring with one corner notched in, given counter-clockwise: that corner is the only clockwise one. */
  function WrongWay(): seq<Vec2> {
    [Vec2(0.0, 6.0), Vec2(1.0, 4.0), Vec2(6.0, 4.0), Vec2(1.0, 3.0)]
  }

  lemma WrongWayTurns()
    ensures
      var p := WrongWay();
      && Turn(p[3], p[0], p[1]) < 0.0 && Turn(p[0], p[1], p[2]) == 10.0 && Turn(p[1], p[2], p[3]) < 0.0
      && Turn(p[2], p[3], p[0]) < 0.0
  {}

  /** The notch is cut off first, though it lies outside. */
  lemma WrongWayClip()
    ensures !ClipAt(WrongWay(), 0).flipped && SignedTurn(WrongWay(), 0) == 10.0
  {
    var p := WrongWay();
    hide ClipAt, Turn, ContainsPoint;
    WrongWayTurns();
    FirstClip(p);
    assert !Blocked(p, Identity(4), 1);
    var k := ClipAt(p, 0).k;
    assert !Blocked(p, Identity(4), k);
    assert k == 1;
    NextRing(p, 0);
  }

  lemma WrongWayArea()
    ensures RingArea(WrongWay(), Identity(4)) == -6.0
  {
    var p, ring := WrongWay(), At(WrongWay(), Identity(4));
    assert ring == p;
    assert PathSum(p[3..]) == 0.0;
    assert PathSum(p[2..]) == Cross(p[2], p[3]) + PathSum(p[3..]);
    assert PathSum(p[1..]) == Cross(p[1], p[2]) + PathSum(p[2..]);
  }

  /** A ring of four points is cut into two triangles. */
  lemma TwoTriangles(points: seq<Vec2>)
    requires |points| == 4
    ensures RingArea(points, Identity(4)) == SignedTurn(points, 0) + SignedTurn(points, 1)
    ensures AreaSum(points, 2) == Magnitude(SignedTurn(points, 0)) + Magnitude(SignedTurn(points, 1))
  {
    hide SignedTurn, RingArea, Identity;
    ClipsMakeThePolygon(points);
    assert SignedSum(points, 1) == SignedTurn(points, 0);
    assert AreaSum(points, 1) == Magnitude(SignedTurn(points, 0));
  }

  /** So its triangles lie opposite ways and do not cover it: together they are more than four times as large. */
  lemma WrongWayIsNotCovered()
    ensures AreaSum(WrongWay(), 2) == 26.0 && RingArea(WrongWay(), Identity(4)) == -6.0 && !OneWay(WrongWay(), 2)
  {
    hide SignedTurn, RingArea, Identity, AreaSum, OneWay;
    WrongWayClip();
    WrongWayArea();
    TwoTriangles(WrongWay());
    AreasAddUpIff(WrongWay());
  }
}
