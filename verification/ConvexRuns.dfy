/** Convex polygons: whichever way round they are given, the ring is turned around at most before the first triangle,
    only ears are clipped, and the triangles cover the polygon. */
module ConvexRuns {
  import opened Polygon
  import opened EarClipping
  import opened EarRuns

  /** Every three vertices, in the order of the ring, turn clockwise. */
  ghost predicate ConvexRing(points: seq<Vec2>, order: seq<int>)
    requires InRange(order, |points|)
  {
    forall i, j, k :: 0 <= i < j < k < |order| ==> IsClockwise(points[order[i]], points[order[j]], points[order[k]])
  }

  /** Every three points, in the order given, turn clockwise. */
  ghost predicate ConvexClockwise(points: seq<Vec2>) {
    forall i, j, k :: 0 <= i < j < k < |points| ==> Turn(points[i], points[j], points[k]) > 0.0
  }

  ghost predicate ConvexCounterClockwise(points: seq<Vec2>) {
    forall i, j, k :: 0 <= i < j < k < |points| ==> Turn(points[i], points[j], points[k]) < 0.0
  }

  lemma TurnCycles(a: Vec2, b: Vec2, c: Vec2)
    ensures Turn(b, c, a) == Turn(a, b, c) == Turn(c, a, b) && Turn(c, b, a) == -Turn(a, b, c)
  {
    TurnIsCrosses(a, b, c);
    TurnIsCrosses(b, c, a);
    TurnIsCrosses(c, a, b);
    TurnIsCrosses(c, b, a);
    CrossFlips(a, b);
    CrossFlips(b, c);
    CrossFlips(c, a);
  }

  lemma ConvexCorner(points: seq<Vec2>, order: seq<int>, k: int)
    requires InRange(order, |points|) && ConvexRing(points, order) && 0 <= k < |order| && |order| >= 3
    ensures ClockwiseAt(points, order, k)
  {
    hide Turn;
    var m := |order| - 1;
    TurnCycles(points[order[0]], points[order[1]], points[order[m]]);
    TurnCycles(points[order[0]], points[order[m - 1]], points[order[m]]);
    if k == 0 {
      assert IsClockwise(points[order[0]], points[order[1]], points[order[m]]);
    } else if k == m {
      assert IsClockwise(points[order[0]], points[order[m - 1]], points[order[m]]);
    } else {
      assert IsClockwise(points[order[k - 1]], points[order[k]], points[order[k + 1]]);
    }
  }

  lemma ConvexRest(points: seq<Vec2>, order: seq<int>, k: int)
    requires InRange(order, |points|) && ConvexRing(points, order) && 0 <= k < |order|
    ensures InRange(Without(order, k), |points|) && ConvexRing(points, Without(order, k))
  {
    hide IsClockwise;
    var rest := Without(order, k);
    forall a, b, c | 0 <= a < b < c < |rest|
      ensures IsClockwise(points[rest[a]], points[rest[b]], points[rest[c]])
    {
      var i, j, l := if a < k then a else a + 1, if b < k then b else b + 1, if c < k then c else c + 1;
      assert rest[a] == order[i] && rest[b] == order[j] && rest[c] == order[l];
    }
  }

  /** A convex ring that turns clockwise, with no vertex listed as reflex and an ear at hand. */
  ghost predicate Rounded(points: seq<Vec2>, st: State) {
    && Ready(points, st) && InRange(st.order, |points|) && ConvexRing(points, st.order) && st.reflexes == []
    && (|st.order| >= 3 ==> st.ears != [])
  }

  /** With no reflex vertices, a clockwise corner is an ear. */
  lemma ClockwiseIsEar(points: seq<Vec2>, order: seq<int>, k: int)
    requires InRange(order, |points|) && 0 <= k < |order| && ClockwiseAt(points, order, k)
    ensures CornersBelow(Corner(order, k), |points|) && KindOf(points, [], Corner(order, k)) == Ear
  {
    CornerRange(order, |points|, k);
  }

  lemma TypedEar(points: seq<Vec2>, st: State, k: int)
    requires Sound(st, |points|) && InRange(st.order, |points|) && 0 <= k < |st.order| && st.reflexes == []
    requires Typed(points, st, k) && ClockwiseAt(points, st.order, k)
    ensures st.ears != []
  {
    ClockwiseIsEar(points, st.order, k);
    hide KindOf;
    assert st.order[k] in st.order;
    assert st.order[k] in st.ears;
  }

  lemma ReclassifiedRounded(points: seq<Vec2>, st: State, k: int)
    requires Usable(points, st, st.order) && 0 <= k < |st.order| && st.reflexes == []
    requires ClockwiseAt(points, st.order, k)
    ensures Reclassified(points, st, k).reflexes == []
  {
    ClockwiseIsEar(points, st.order, k);
    hide KindOf;
  }

  lemma NextRounded(points: seq<Vec2>, st: State)
    requires Rounded(points, st) && |st.order| >= 4
    ensures Rounded(points, Next(points, st))
  {
    hide Ready, ConvexRing, Sound, EarsTurn, Typed, Reclassified, Popped, Pick, Clipped, ClockwiseAt;
    var k, m, r := Pick(points, st), |st.order| - 1, Next(points, st);
    var q := Seam(k, m);
    AfterSteps(points, st, k);
    GapIsTyped(points, st, k);
    ClippedIs(st, k, EarsLeft(st));
    ConvexRest(points, st.order, k);
    ConvexCorner(points, Without(st.order, k), Before(q, m));
    ConvexCorner(points, Without(st.order, k), q);
    ReclassifiedRounded(points, CutState(points, st, k), Before(q, m));
    ReclassifiedRounded(points, HalfCut(points, st, k), q);
    ReadyIs(points, r);
    TypedEar(points, r, q);
  }

  lemma ListedIsThere(s: seq<int>)
    requires s != []
    ensures exists v :: v in s
  {
    var v := s[0];
    assert v in s;
  }

  /** A freshly built ring of this kind. */
  lemma BuiltRounded(points: seq<Vec2>, st: State)
    requires Fresh(points, st) && |st.order| >= 3 && InRange(st.order, |points|) && ConvexRing(points, st.order)
    ensures Rounded(points, st)
  {
    hide ConvexRing, EarsTurn, KindOf, ClockwiseAt, Corner;
    forall v
      ensures v !in st.reflexes
    {
      NeverTurnsBack(points, st.order, v);
    }
    if st.reflexes != [] {
      ListedIsThere(st.reflexes);
    }
    ConvexCorner(points, st.order, 0);
    assert Typed(points, st, 0);
    TypedEar(points, st, 0);
  }

  lemma NeverTurnsBack(points: seq<Vec2>, order: seq<int>, v: int)
    requires InRange(order, |points|) && |order| >= 3 && ConvexRing(points, order)
    ensures !TurnsBack(points, order, |order| - 1, v)
  {
    hide ClockwiseAt, ConvexRing;
    forall i | 0 <= i < |order|
      ensures ClockwiseAt(points, order, i)
    {
      ConvexCorner(points, order, i);
    }
  }

  lemma ClockwiseStart(points: seq<Vec2>)
    requires |points| >= 3 && ConvexClockwise(points)
    ensures Rounded(points, Start(points))
  {
    hide Start, Fresh, Rounded;
    StartIsFresh(points);
    BuiltRounded(points, Start(points));
  }

  /** Given the other way round, every visited corner turns back, so no ear is listed, and turned around the ring is
      as above. */
  lemma CounterClockwiseStart(points: seq<Vec2>)
    requires |points| >= 3 && ConvexCounterClockwise(points)
    ensures Start(points).ears == [] && Rounded(points, Base(points, Start(points)))
  {
    var st, n := Start(points), |points|;
    NoEarsAtFirst(points);
    hide Start, Ready, Fresh, Rounded, Refilled;
    ReversedIsConvex(points);
    RefilledIsFresh(points, st);
    BuiltRounded(points, Refilled(points, st));
  }

  lemma ReversedIsConvex(points: seq<Vec2>)
    requires ConvexCounterClockwise(points)
    ensures InRange(Reverse(Identity(|points|)), |points|) && ConvexRing(points, Reverse(Identity(|points|)))
  {
    hide Turn;
    var order, n := Reverse(Identity(|points|)), |points|;
    forall i, j, k | 0 <= i < j < k < n
      ensures IsClockwise(points[order[i]], points[order[j]], points[order[k]])
    {
      TurnCycles(points[order[k]], points[order[j]], points[order[i]]);
    }
  }

  lemma NoEarsAtFirst(points: seq<Vec2>)
    requires |points| >= 3 && ConvexCounterClockwise(points)
    ensures Start(points).ears == []
  {
    hide Start, Turn, TypedButLast, TurnsBack, Misses, IsEarOf, EarsTurn;
    var st, n := Start(points), |points|;
    ReadyIs(points, st);
    StartIs(points);
    if st.ears != [] {
      EarIsOnRing(st, n);
      var i :| 0 <= i < n && st.order[i] in st.ears && st.kinds[st.order[i]] == Ear;
      assert EarTurns(points, st, i);
      TurnCycles(points[0], points[1], points[n - 1]);
    }
  }

  // ---- Whole runs ----

  /** From the first triangle on. */
  lemma {:induction false} StaysRounded(points: seq<Vec2>, i: nat)
    requires |points| >= 3 && 0 < i < |points| - 2 && Rounded(points, Base(points, Start(points)))
    ensures Rounded(points, StateAt(points, i))
    decreases i
  {
    hide *;
    StateStep(points, i - 1);
    RingIs(points, i - 1);
    if i == 1 {
      StateStart(points);
      FirstIsRounded(points);
    } else {
      StaysRounded(points, i - 1);
      NextRounded(points, StateAt(points, i - 1));
    }
  }

  lemma FirstIsRounded(points: seq<Vec2>)
    requires |points| >= 4 && Rounded(points, Base(points, Start(points)))
    ensures Rounded(points, Next(points, Start(points)))
  {
    hide Rounded, Start, Next, Refilled, Reverse;
    RoundedEars(points, Base(points, Start(points)));
    NextOfBase(points, Start(points));
    NextRounded(points, Base(points, Start(points)));
  }

  /** Once rebuilt, a state has the same successor. */
  lemma NextOfBase(points: seq<Vec2>, st: State)
    requires Ready(points, st) && |st.order| >= 3 && Base(points, st).ears != []
    ensures Next(points, st) == Next(points, Base(points, st))
  {
    hide Ready, Refilled, AfterCut, Pick;
  }

  lemma RoundedEars(points: seq<Vec2>, st: State)
    requires Rounded(points, st) && |st.order| >= 3
    ensures st.ears != []
  {}

  /** Only ears are clipped, and only the first ring may be turned around. */
  lemma RoundedOnlyEars(points: seq<Vec2>)
    requires |points| >= 3 && Rounded(points, Base(points, Start(points)))
    ensures OnlyEars(points)
  {
    hide Rounded, Start;
    RoundedEars(points, Base(points, Start(points)));
    forall i | 0 <= i < |points| - 2
      ensures ClipAt(points, i).genuine && (ClipAt(points, i).flipped ==> i == 0)
    {
      if i == 0 {
        StateStart(points);
      } else {
        StaysRounded(points, i);
        RoundedEars(points, StateAt(points, i));
      }
    }
  }

  /** The triangles of a convex polygon given clockwise cover it, and its ring is never turned around. */
  lemma ConvexIsCovered(points: seq<Vec2>)
    requires |points| >= 3 && ConvexClockwise(points)
    ensures OnlyEars(points) && !ClipAt(points, 0).flipped
    ensures AreaSum(points, |points| - 2) == RingArea(points, Identity(|points|)) > 0.0
  {
    hide Rounded, ConvexClockwise, OnlyEars, AreaSum, RingArea, Start;
    ClockwiseStart(points);
    StateStart(points);
    RoundedEars(points, Start(points));
    RoundedOnlyEars(points);
    EarsCoverPolygon(points);
  }

  /** Given the other way round it is turned around once, before the first triangle, and covered all the same. */
  lemma CounterClockwiseIsCovered(points: seq<Vec2>)
    requires |points| >= 3 && ConvexCounterClockwise(points)
    ensures OnlyEars(points) && ClipAt(points, 0).flipped
    ensures AreaSum(points, |points| - 2) == -RingArea(points, Identity(|points|)) > 0.0
  {
    hide Rounded, ConvexCounterClockwise, OnlyEars, AreaSum, RingArea, Start;
    CounterClockwiseStart(points);
    StateStart(points);
    RoundedOnlyEars(points);
    EarsCoverPolygon(points);
  }

  // ---- The triangles themselves ----

  /** With no reflex vertices, classifying a clockwise corner again makes an ear of it. */
  lemma BecomesEar(points: seq<Vec2>, st: State, k: int)
    requires Usable(points, st, st.order) && 0 <= k < |st.order| && st.reflexes == []
    requires ClockwiseAt(points, st.order, k)
    ensures
      var r, v := Reclassified(points, st, k), st.order[k];
      && r.order == st.order && r.reflexes == [] && r.kinds == st.kinds[v := Ear]
      && r.ears == if v in st.ears then st.ears else st.ears + [v]
  {
    ClockwiseIsEar(points, st.order, k);
    hide KindOf;
    assert st.order[k] in st.order;
  }

  /** The list with v at its end, unless it is there already. */
  function Grown(s: seq<int>, v: int): seq<int> {
    if v in s then s else s + [v]
  }

  /** One triangle off a convex ring: the ear listed last goes, and a neighbour that was not listed yet comes. */
  lemma NextConvex(points: seq<Vec2>, st: State, k: int)
    requires Rounded(points, st) && |st.order| >= 4 && st.ears != [] && k == Pick(points, st)
    ensures 0 <= k < |st.order|
    ensures
      var r, n := Next(points, st), |st.order|;
      var p, q, left := st.order[Before(k, n)], st.order[After(k, n)], st.ears[..|st.ears| - 1];
      && r.order == Without(st.order, k)
      && r.ears == Grown(Grown(left, p), q)
  {
    hide Ready, ConvexRing, Sound, EarsTurn, Typed, Reclassified, Popped, Pick, Clipped, ClockwiseAt, DistinctBelow;
    var m := |st.order| - 1;
    var q := Seam(k, m);
    ReadyIs(points, st);
    AfterSteps(points, st, k);
    SeamNeighbours(st.order, k);
    TwoDistinct(st.order, |points|, k);
    ClippedIs(st, k, EarsLeft(st));
    ConvexRest(points, st.order, k);
    ConvexCorner(points, Without(st.order, k), Before(q, m));
    ConvexCorner(points, Without(st.order, k), q);
    BecomesEar(points, CutState(points, st, k), Before(q, m));
    BecomesEar(points, HalfCut(points, st, k), q);
  }

  /** The ring and the ears before triangle i: all that is left, in order. At first the last vertex is not listed; from
      then on it is the only one out of line, until it goes. */
  ghost predicate CountsDown(st: State, n: nat, i: nat)
    requires i + 3 <= n
  {
    if i == 0 then st.order == Identity(n) && st.ears == Identity(n - 1)
    else if i == 1 then st.order == st.ears == Identity(n - 2) + [n - 1]
    else st.order == st.ears == Identity(n - i)
  }

  lemma PickOnRing(points: seq<Vec2>, st: State, k: int)
    requires Ready(points, st) && st.ears != [] && 0 <= k < |st.order| && st.order[k] == st.ears[|st.ears| - 1]
    ensures Pick(points, st) == k
  {
    hide Popped, EarsTurn;
    ReadyIs(points, st);
    var j := Pick(points, st);
    assert st.order[j] == st.order[k];
  }

  /** Where the ear listed last stands on the ring. */
  function LastEarAt(n: nat, i: nat): int {
    if i == 0 then n - 2 else n - 1 - i
  }

  lemma CountsDownNext(points: seq<Vec2>, st: State, n: nat, i: nat)
    requires n == |points| && i + 4 <= n && Ready(points, st) && Rounded(points, st) && CountsDown(st, n, i)
    requires |st.order| == n - i
    ensures CountsDown(Next(points, st), n, i + 1)
  {
    var k := LastEarAt(n, i);
    hide Rounded, Next, Pick, Ready, Identity, Without, CountsDown, Before, After, Grown;
    CountsDownAt(st, n, i);
    PickOnRing(points, st, k);
    NextConvex(points, st, k);
    CountsDownTo(Next(points, st), n, i + 1);
  }

  lemma CountsDownTo(st: State, n: nat, i: nat)
    requires 1 <= i && i + 3 <= n
    requires st.order == st.ears == if i == 1 then Identity(n - 2) + [n - 1] else Identity(n - i)
    ensures CountsDown(st, n, i)
  {}

  /** What goes and what comes, on the lists alone. */
  lemma CountsDownAt(st: State, n: nat, i: nat)
    requires i + 4 <= n && CountsDown(st, n, i)
    ensures
      var k, m, e := LastEarAt(n, i), |st.order|, st.ears;
      && m == n - i && 0 <= k < m && e != [] && st.order[k] == e[|e| - 1]
      && var left, p, q := e[..|e| - 1], st.order[Before(k, m)], st.order[After(k, m)];
         Grown(Grown(left, p), q) == Without(st.order, k)
         == if i == 0 then Identity(n - 2) + [n - 1] else Identity(n - 1 - i)
  {
    var k, m, e := LastEarAt(n, i), |st.order|, st.ears;
    var left := e[..|e| - 1];
    assert left == Identity(|left|);
    assert left[0] == 0 && left[|left| - 1] == |left| - 1;
  }

  lemma {:induction false} ReflexPassConvex(points: seq<Vec2>, st: State, p: nat)
    requires Shaped(points, st) && p <= |st.order|
    requires forall i :: 0 <= i < |st.order| ==> ClockwiseAt(points, st.order, i)
    ensures ReflexPass(points, st, p) == st
  {
    hide ClockwiseAt;
    if p > 0 {
      ReflexPassConvex(points, st, p - 1);
    }
  }

  /** A Convex vertex that no reflex vertex can block becomes an ear. */
  lemma EarMarkedConvex(points: seq<Vec2>, st: State, i: nat)
    requires Shaped(points, st) && i < |st.order| && st.reflexes == [] && st.kinds[st.order[i]] == Convex
    ensures EarMarked(points, st, i) == st.(kinds := st.kinds[st.order[i] := Ear], ears := st.ears + [st.order[i]])
  {
    hide ContainsPoint;
  }

  lemma {:induction false} EarPassConvex(points: seq<Vec2>, st: State, p: nat)
    requires Shaped(points, st) && p <= |st.order| && st.ears == [] && st.reflexes == []
    requires forall i :: 0 <= i < |st.order| ==> st.kinds[st.order[i]] == Convex
    ensures EarPass(points, st, p).ears == st.order[..p]
    ensures forall i :: p <= i < |st.order| ==> EarPass(points, st, p).kinds[st.order[i]] == Convex
    decreases p
  {
    hide EarPass, EarMarked;
    if p == 0 {
      NoEarPass(points, st);
    } else {
      EarPassConvex(points, st, p - 1);
      EarPassStep(points, st, p);
      EarMarkedConvex(points, EarPass(points, st, p - 1), p - 1);
      assert st.order[..p] == st.order[..p - 1] + [st.order[p - 1]];
    }
  }

  lemma IdentityIsConvex(points: seq<Vec2>)
    requires ConvexClockwise(points)
    ensures InRange(Identity(|points|), |points|) && ConvexRing(points, Identity(|points|))
  {}

  lemma StartCountsDown(points: seq<Vec2>)
    requires |points| >= 3 && ConvexClockwise(points)
    ensures CountsDown(Start(points), |points|, 0)
  {
    var n := |points|;
    hide ConvexClockwise, Start, ReflexPass, EarPass, ClockwiseAt, Shaped;
    StartSteps(points);
    AllTurn(points);
    ReflexPassConvex(points, Unbuilt(n), n - 1);
    EarPassConvex(points, Unbuilt(n), n - 1);
    assert Identity(n)[..n - 1] == Identity(n - 1);
  }

  lemma AllTurn(points: seq<Vec2>)
    requires |points| >= 3 && ConvexClockwise(points)
    ensures InRange(Identity(|points|), |points|)
    ensures forall i :: 0 <= i < |points| ==> ClockwiseAt(points, Identity(|points|), i)
  {
    IdentityIsConvex(points);
    hide ConvexClockwise, ConvexRing, ClockwiseAt;
    forall i | 0 <= i < |points|
      ensures ClockwiseAt(points, Identity(|points|), i)
    {
      ConvexCorner(points, Identity(|points|), i);
    }
  }

  lemma {:induction false} StateCountsDown(points: seq<Vec2>, i: nat)
    requires i + 3 <= |points| && ConvexClockwise(points)
    ensures CountsDown(StateAt(points, i), |points|, i)
    decreases i
  {
    hide *;
    if i == 0 {
      StateStart(points);
      StartCountsDown(points);
    } else {
      StateCountsDown(points, i - 1);
      StateStep(points, i - 1);
      StateIsRounded(points, i - 1);
      RoundedReady(points, StateAt(points, i - 1));
      RingIs(points, i - 1);
      CountsDownNext(points, StateAt(points, i - 1), |points|, i - 1);
    }
  }

  lemma StateIsRounded(points: seq<Vec2>, i: nat)
    requires i + 3 <= |points| && ConvexClockwise(points)
    ensures Rounded(points, StateAt(points, i))
  {
    hide Rounded, ConvexClockwise, Start;
    ClockwiseStart(points);
    StateStart(points);
    if i > 0 {
      RoundedEars(points, Start(points));
      StaysRounded(points, i);
    }
  }

  /** The triangles of a convex polygon given clockwise, one by one: the corner before the last vertex, then that of the
      last vertex, then from the highest vertex left down, a fan around vertex 0. */
  lemma ConvexTriangles(points: seq<Vec2>, i: nat)
    requires i + 3 <= |points| && ConvexClockwise(points)
    ensures
      var n := |points|;
      ClipAt(points, i).t
      == if i == 0 then Triangle(n - 3, n - 2, n - 1) else if i == 1 then Triangle(n - 3, n - 1, 0)
         else Triangle(n - 2 - i, n - 1 - i, 0)
  {
    hide Rounded, ConvexClockwise, Ready, Pick, Next, StateAt, Refilled;
    var st, n := StateAt(points, i), |points|;
    StateCountsDown(points, i);
    StateIsRounded(points, i);
    RoundedReady(points, st);
    PickOnRing(points, st, LastEarAt(n, i));
  }

  lemma RoundedReady(points: seq<Vec2>, st: State)
    requires Rounded(points, st)
    ensures Ready(points, st)
  {}
}
