/** Whole runs of ear clipping on plain values: the state after initialisation, the state after each triangle, and the
    triangles themselves. Nothing is left open: a polygon determines its run. */
module EarRuns {
  import opened Polygon
  import opened EarClipping

  function Identity(n: nat): (r: seq<int>)
    ensures |r| == n && forall i :: 0 <= i < n ==> r[i] == i
  {
    seq(n, i => i)
  }

  function AllConvex(n: nat): (r: seq<Kind>)
    ensures |r| == n && forall i :: 0 <= i < n ==> r[i] == Convex
  {
    seq(n, _ => Convex)
  }

  /** What every reachable state satisfies. */
  ghost predicate Ready(points: seq<Vec2>, st: State) {
    Sound(st, |points|) && EarsTurn(points, st, -1, -1)
  }

  lemma ReadyIs(points: seq<Vec2>, st: State)
    requires Ready(points, st)
    ensures Sound(st, |points|) && EarsTurn(points, st, -1, -1)
    ensures |st.kinds| == |points| && InRange(st.order, |points|) && InRange(st.reflexes, |points|)
    ensures DistinctBelow(st.order, |points|)
  {}

  // ---- Initialisation and rebuilding ----

  function Unbuilt(n: nat): State {
    State(Identity(n), AllConvex(n), [], [])
  }

  lemma UnbuiltIsBlank(points: seq<Vec2>)
    requires |points| >= 3
    ensures Blanked(points, Unbuilt(|points|)) && Unbuilt(|points|).kinds[|points| - 1] == Convex
  {}

  /** The state after Init: every vertex but the last classified. */
  ghost function Start(points: seq<Vec2>): (r: State)
    requires |points| >= 3
    ensures Ready(points, r) && r.order == Identity(|points|)
  {
    UnbuiltIsBlank(points);
    BuiltIsSound(points, Unbuilt(|points|), -1);
    Built(points, Unbuilt(|points|))
  }

  /** Start, step by step. */
  lemma StartSteps(points: seq<Vec2>)
    requires |points| >= 3
    ensures
      var b, m := Unbuilt(|points|), |points| - 1;
      Shaped(points, b) && Start(points) == EarPass(points, ReflexPass(points, b, m), m)
  {
    hide EarPass, ReflexPass;
    UnbuiltIsBlank(points);
  }

  /** Before any reversal every Reflex vertex is listed. */
  lemma StartMisses(points: seq<Vec2>)
    requires |points| >= 3
    ensures Misses(Start(points), -1) && TypedButLast(points, Start(points))
  {
    hide Misses, TypedButLast;
    UnbuiltIsBlank(points);
    BuiltIsSound(points, Unbuilt(|points|), -1);
  }

  /** It lists as reflex exactly the visited corners that are not clockwise, and only visited ones as ears. */
  lemma StartIs(points: seq<Vec2>)
    requires |points| >= 3
    ensures InRange(Identity(|points|), |points|)
    ensures forall v :: v in Start(points).reflexes <==> TurnsBack(points, Identity(|points|), |points| - 1, v)
    ensures forall i :: 0 <= i < |points| && Identity(|points|)[i] in Start(points).ears ==> i < |points| - 1
    ensures NewestLast(Identity(|points|), Start(points).ears)
  {
    UnbuiltIsBlank(points);
    BuiltIsSound(points, Unbuilt(|points|), -1);
    hide Sound, EarsTurn, Misses, TypedButLast, TurnsBack, Built, NewestLast;
  }

  /** The ring turned around, types forgotten but for the last vertex, both lists empty. */
  ghost function Blank(points: seq<Vec2>, st: State): (r: State)
    requires Ready(points, st) && st.ears == [] && |st.order| >= 2
    ensures Blanked(points, r) && r.order == Reverse(st.order)
    ensures var v := r.order[|r.order| - 1]; v == st.order[0] && 0 <= v < |st.kinds| && r.kinds[v] == st.kinds[v]
  {
    ReversedIsSound(st, |points|);
    var t := st.(order := Reverse(st.order));
    ResetPassIs(points, t);
    ResetPass(t, |t.order| - 1).(reflexes := [])
  }

  /** The first vertex of the ring, when its type is Reflex. */
  function FirstIfReflex(st: State): int {
    if st.order != [] && 0 <= st.order[0] < |st.kinds| && st.kinds[st.order[0]] == Reflex then st.order[0] else -1
  }

  /** No ear was left: the ring turned around and both lists rebuilt. */
  ghost function Refilled(points: seq<Vec2>, st: State): (r: State)
    requires Ready(points, st) && st.ears == [] && |st.order| >= 2
    ensures Ready(points, r) && r.order == Reverse(st.order)
  {
    BuiltIsSound(points, Blank(points, st), FirstIfReflex(st));
    Built(points, Blank(points, st))
  }

  /** Refilled, step by step. */
  lemma BlankSteps(points: seq<Vec2>, st: State)
    requires Ready(points, st) && st.ears == [] && |st.order| >= 2
    ensures InRange(Reverse(st.order), |st.kinds|) && DistinctBelow(st.order, |points|)
    ensures Blank(points, st) == ResetPass(st.(order := Reverse(st.order)), |st.order| - 1).(reflexes := [])
  {
    hide EarsTurn, ResetPass, Blanked;
    ReadyIs(points, st);
    ReversedIsSound(st, |points|);
  }

  lemma RefilledSteps(points: seq<Vec2>, st: State)
    requires Ready(points, st) && st.ears == [] && |st.order| >= 2
    ensures Shaped(points, Blank(points, st)) && Blank(points, st).ears == [] && Blank(points, st).reflexes == []
    ensures
      var m := |st.order| - 1;
      Refilled(points, st) == EarPass(points, ReflexPass(points, Blank(points, st), m), m)
  {
    hide EarPass, ReflexPass, Blank, Shaped, Ready;
    BlankedIs(points, Blank(points, st));
  }

  /** The rebuild lists every Reflex vertex but possibly the one that was first, types every other vertex by its corner,
      and lists as reflex exactly the visited corners that are not clockwise. */
  lemma RefilledIs(points: seq<Vec2>, st: State)
    requires Ready(points, st) && st.ears == [] && |st.order| >= 2
    ensures Misses(Refilled(points, st), FirstIfReflex(st)) && TypedButLast(points, Refilled(points, st))
    ensures InRange(Reverse(st.order), |points|)
    ensures forall v :: v in Refilled(points, st).reflexes <==> TurnsBack(points, Reverse(st.order), |st.order| - 1, v)
    ensures forall i :: 0 <= i < |st.order| ==> Reverse(st.order)[i] in Refilled(points, st).ears ==> i < |st.order| - 1
    ensures NewestLast(Reverse(st.order), Refilled(points, st).ears)
  {
    hide Misses, TypedButLast, TurnsBack, Sound, EarsTurn, NewestLast;
    BuiltIsSound(points, Blank(points, st), FirstIfReflex(st));
    ReadyIs(points, Refilled(points, st));
  }

  // ---- One triangle ----

  /** The state the next triangle is cut from. */
  ghost function Base(points: seq<Vec2>, st: State): (r: State)
    requires Ready(points, st) && |st.order| >= 2
    ensures Ready(points, r) && r.order == if st.ears == [] then Reverse(st.order) else st.order
  {
    if st.ears == [] then Refilled(points, st) else st
  }

  /** The ears as they are when one is popped: when there are none, the first node is listed. */
  function Offered(base: State): State
    requires base.order != []
  {
    if base.ears == [] then base.(ears := [base.order[0]]) else base
  }

  /** The ring position clipped: that of the last listed ear, or the first when even the rebuild found none. */
  ghost function Pick(points: seq<Vec2>, base: State): (k: int)
    requires Ready(points, base) && base.order != []
    ensures 0 <= k < |base.order|
    ensures base.ears != [] ==> base.order[k] == base.ears[|base.ears| - 1]
    ensures Popped(base.ears, EarsLeft(base), base.order[k], |points|)
  {
    if base.ears == [] then
      PopNone(base, |points|);
      0
    else
      PopLast(base, |points|);
      PositionOf(base.order, base.ears[|base.ears| - 1])
  }

  lemma PickIs(points: seq<Vec2>, base: State)
    requires Ready(points, base) && base.order != []
    ensures 0 <= base.order[Pick(points, base)] < |points|
    ensures var e := Offered(base).ears; e[|e| - 1] == base.order[Pick(points, base)] && e[..|e| - 1] == EarsLeft(base)
  {}

  function EarsLeft(base: State): seq<int> {
    if base.ears == [] then [] else base.ears[..|base.ears| - 1]
  }

  /** Sound, with the ring and the ranges that classifying needs. */
  ghost predicate Usable(points: seq<Vec2>, st: State, order: seq<int>) {
    && Sound(st, |points|) && st.order == order
    && |st.kinds| == |points| && InRange(st.order, |points|) && InRange(st.reflexes, |points|)
  }

  /** The ring without position k. */
  ghost function CutState(points: seq<Vec2>, base: State, k: int): (r: State)
    requires Ready(points, base) && 0 <= k < |base.order| && |base.order| >= 3
    requires Popped(base.ears, EarsLeft(base), base.order[k], |points|)
    ensures Usable(points, r, Without(base.order, k))
    ensures EarsTurn(points, r, Before(Seam(k, |base.order| - 1), |base.order| - 1), Seam(k, |base.order| - 1))
  {
    ClippedIsSound(points, base, k, EarsLeft(base));
    SoundRange(Clipped(base, k, EarsLeft(base)), |points|);
    Clipped(base, k, EarsLeft(base))
  }

  /** Reclassifying one vertex, with all that it keeps. */
  ghost function Again(points: seq<Vec2>, st: State, k: int, j: int): (r: State)
    requires Usable(points, st, st.order) && 0 <= k < |st.order| && EarsTurn(points, st, k, j)
    ensures Usable(points, r, st.order) && EarsTurn(points, r, j, j) && r == Reclassified(points, st, k)
    ensures Typed(points, r, k)
    ensures Typed(points, st, Before(k, |st.order|)) && |st.order| >= 2 ==> Typed(points, r, Before(k, |st.order|))
  {
    ReclassifiedIsSound(points, st, k, j);
    ReclassifiedOrder(points, st, k);
    ReclassifiedTyped(points, st, k);
    SoundRange(Reclassified(points, st, k), |points|);
    Reclassified(points, st, k)
  }

  /** One neighbour of the gap classified again. */
  ghost function HalfCut(points: seq<Vec2>, base: State, k: int): (r: State)
    requires Ready(points, base) && 0 <= k < |base.order| && |base.order| >= 3
    requires Popped(base.ears, EarsLeft(base), base.order[k], |points|)
    ensures Usable(points, r, Without(base.order, k))
    ensures EarsTurn(points, r, Seam(k, |base.order| - 1), -1)
    ensures Typed(points, r, Before(Seam(k, |base.order| - 1), |base.order| - 1))
  {
    var q := Seam(k, |base.order| - 1);
    var r := Again(points, CutState(points, base, k), Before(q, |base.order| - 1), q);
    EarsTurnOnce(points, r, q);
    r
  }

  /** The state after ring position k is unlinked and both its neighbours are classified again. */
  ghost function AfterCut(points: seq<Vec2>, base: State, k: int): (r: State)
    requires Ready(points, base) && 0 <= k < |base.order| && |base.order| >= 3
    requires Popped(base.ears, EarsLeft(base), base.order[k], |points|)
    ensures Ready(points, r) && r.order == Without(base.order, k)
  {
    hide Reclassified, Typed, EarsTurn, Sound, Popped;
    Again(points, HalfCut(points, base, k), Seam(k, |base.order| - 1), -1)
  }

  /** Both vertices at the gap end up with the types of their new corners. */
  lemma GapIsTyped(points: seq<Vec2>, base: State, k: int)
    requires Ready(points, base) && 0 <= k < |base.order| && |base.order| >= 3
    requires Popped(base.ears, EarsLeft(base), base.order[k], |points|)
    ensures
      var r, m := AfterCut(points, base, k), |base.order| - 1;
      Typed(points, r, Seam(k, m)) && Typed(points, r, Before(Seam(k, m), m))
  {
    hide Reclassified, Typed, EarsTurn, Sound, Popped;
  }

  /** AfterCut, step by step. */
  lemma AfterSteps(points: seq<Vec2>, base: State, k: int)
    requires Ready(points, base) && 0 <= k < |base.order| && |base.order| >= 3
    requires Popped(base.ears, EarsLeft(base), base.order[k], |points|)
    ensures CutState(points, base, k) == Clipped(base, k, EarsLeft(base))
    ensures
      var q := Seam(k, |base.order| - 1);
      && HalfCut(points, base, k) == Reclassified(points, CutState(points, base, k), Before(q, |base.order| - 1))
      && AfterCut(points, base, k) == Reclassified(points, HalfCut(points, base, k), q)
  {
    hide Reclassified, Ready, Sound, EarsTurn, Typed, Popped;
  }

  /** A vertex at the gap that becomes an ear goes to the end of the list, the one behind the gap last: it is the next
      to be cut off. */
  lemma NewEarsAreLast(points: seq<Vec2>, base: State, k: int)
    requires Ready(points, base) && 0 <= k < |base.order| && |base.order| >= 3
    requires Popped(base.ears, EarsLeft(base), base.order[k], |points|) && InRange(base.order, |points|)
    ensures
      var r, p, q := AfterCut(points, base, k), base.order[Before(k, |base.order|)], base.order[After(k, |base.order|)];
      && |r.kinds| == |base.kinds| == |points|
      && (base.kinds[q] != Ear && r.kinds[q] == Ear ==> r.ears != [] && r.ears[|r.ears| - 1] == q)
      && (base.kinds[p] != Ear && base.kinds[q] != Ear && r.kinds[p] == Ear ==>
           if r.kinds[q] == Ear then |r.ears| > 1 && r.ears[|r.ears| - 2] == p
           else r.ears != [] && r.ears[|r.ears| - 1] == p)
  {
    hide EarsTurn, Typed, Popped, Corner, KindOf, Erase, DistinctBelow;
    ReadyIs(points, base);
    SeamNeighbours(base.order, k);
    AfterSteps(points, base, k);
    ClippedIs(base, k, EarsLeft(base));
    TwoDistinct(base.order, |points|, k);
  }

  lemma TwoDistinct(order: seq<int>, n: int, k: int)
    requires DistinctBelow(order, n) && 0 <= k < |order| && |order| >= 3
    ensures order[Before(k, |order|)] != order[After(k, |order|)]
  {}

  /** Only the two vertices at the gap may change their type or be listed as reflex, or no longer. */
  lemma AfterKeeps(points: seq<Vec2>, base: State, k: int, v: int)
    requires Ready(points, base) && 0 <= k < |base.order| && |base.order| >= 3
    requires Popped(base.ears, EarsLeft(base), base.order[k], |points|)
    requires v != base.order[Before(k, |base.order|)] && v != base.order[After(k, |base.order|)]
    ensures
      var r := AfterCut(points, base, k);
      && |r.kinds| == |base.kinds| && (0 <= v < |r.kinds| ==> r.kinds[v] == base.kinds[v])
      && (v in r.reflexes <==> v in base.reflexes)
  {
    hide EarsTurn, Reclassified, Typed, Popped, Corner, KindOf;
    ReadyIs(points, base);
    SeamNeighbours(base.order, k);
    AfterSteps(points, base, k);
    ClippedIs(base, k, EarsLeft(base));
    var m := |base.order| - 1;
    ReclassifiedReflexes(points, CutState(points, base, k), Before(Seam(k, m), m));
    ReclassifiedReflexes(points, HalfCut(points, base, k), Seam(k, m));
  }

  /** The state after one more triangle. */
  ghost function Next(points: seq<Vec2>, st: State): (r: State)
    requires Ready(points, st) && |st.order| >= 3
    ensures Ready(points, r) && |r.order| == |st.order| - 1
  {
    AfterCut(points, Base(points, st), Pick(points, Base(points, st)))
  }

  /** The vertex that the list misses in the state the triangle is cut from. */
  function StaleBase(st: State, stale: int): int {
    if st.ears == [] then FirstIfReflex(st) else stale
  }

  /** And after ring position k is clipped: a missed vertex is no longer missed when it is the clipped one, or next to
      it with a new corner that is clockwise. */
  ghost function StaleCut(points: seq<Vec2>, order: seq<int>, k: int, stale: int): int
    requires InRange(order, |points|) && 0 <= k < |order| && |order| >= 3
  {
    var rest, m := Without(order, k), |order| - 1;
    var left := if stale == order[k] then -1 else stale;
    StaleKept(points, rest, Seam(k, m), StaleKept(points, rest, Before(Seam(k, m), m), left))
  }

  lemma BaseMisses(points: seq<Vec2>, st: State, stale: int)
    requires Ready(points, st) && |st.order| >= 2 && Misses(st, stale)
    ensures Misses(Base(points, st), StaleBase(st, stale))
  {
    hide Misses, Ready, TypedButLast, TurnsBack, Refilled;
    if st.ears == [] {
      RefilledIs(points, st);
    }
  }

  lemma AfterMisses(points: seq<Vec2>, base: State, k: int, stale: int)
    requires Ready(points, base) && 0 <= k < |base.order| && |base.order| >= 3 && Misses(base, stale)
    requires Popped(base.ears, EarsLeft(base), base.order[k], |points|) && InRange(base.order, |points|)
    ensures Misses(AfterCut(points, base, k), StaleCut(points, base.order, k, stale))
  {
    hide Misses, Sound, EarsTurn, Reclassified, Typed, Popped, StaleKept;
    ReadyIs(points, base);
    var c, m := CutState(points, base, k), |base.order| - 1;
    var left := if stale == base.order[k] then -1 else stale;
    AfterSteps(points, base, k);
    ClippedMisses(base, |points|, k, EarsLeft(base), stale);
    ReclassifiedMisses(points, c, Before(Seam(k, m), m), left);
    left := StaleKept(points, c.order, Before(Seam(k, m), m), left);
    ReclassifiedMisses(points, HalfCut(points, base, k), Seam(k, m), left);
  }

  // ---- The triangles ----

  predicate CornersBelow(t: Triangle, n: int) {
    0 <= t.a < n && 0 <= t.b < n && 0 <= t.c < n
  }

  predicate DistinctCorners(t: Triangle) {
    t.a != t.b && t.b != t.c && t.a != t.c
  }

  lemma CornerRange(order: seq<int>, n: int, i: int)
    requires InRange(order, n) && 0 <= i < |order|
    ensures CornersBelow(Corner(order, i), n) && Corner(order, i).b == order[i]
  {}

  /** One triangle: the ring it is cut from, where, whether that ring was turned around for it, and whether its vertex
      was a listed ear. */
  datatype Clip = Clip(t: Triangle, base: seq<int>, k: int, flipped: bool, genuine: bool)

  ghost function ClipOf(points: seq<Vec2>, st: State): (c: Clip)
    requires Ready(points, st) && |st.order| >= 3
    ensures 0 <= c.k < |c.base| && c.t == Corner(c.base, c.k) && CornersBelow(c.t, |points|)
    ensures c.base == (if c.flipped then Reverse(st.order) else st.order) && (c.flipped <==> st.ears == [])
    ensures Next(points, st).order == Without(c.base, c.k)
    ensures InRange(c.base, |points|) && |c.base| == |st.order|
  {
    var b := Base(points, st);
    var k := Pick(points, b);
    ReadyIs(points, b);
    CornerRange(b.order, |points|, k);
    Clip(Corner(b.order, k), b.order, k, st.ears == [], b.ears != [])
  }

  /** The corner at ring position i is no ear for a rebuild: it is not clockwise, or it contains a visited vertex that
      is not clockwise itself. The last vertex of the ring is not visited. */
  ghost predicate Blocked(points: seq<Vec2>, order: seq<int>, i: int)
    requires InRange(order, |points|) && 0 <= i < |order|
  {
    !ClockwiseAt(points, order, i) || exists j :: 0 <= j < |order| - 1 && Obstructs(points, order, i, j)
  }

  ghost predicate Obstructs(points: seq<Vec2>, order: seq<int>, i: int, j: int)
    requires InRange(order, |points|) && 0 <= i < |order| && 0 <= j < |order|
  {
    var t, v := Corner(order, i), order[j];
    && v != t.a && v != t.b && v != t.c && !ClockwiseAt(points, order, j)
    && ContainsPoint(points[t.a], points[t.b], points[t.c], points[v])
  }

  /** A corner of three distinct vertices. A listed ear is clockwise in its ring. Only after a reversal can there be no
      listed ear, and then there is one exactly when some visited corner is not blocked; the last such is cut off. */
  ghost predicate ClipOk(points: seq<Vec2>, c: Clip) {
    && InRange(c.base, |points|) && |c.base| >= 3 && 0 <= c.k < |c.base| && c.t == Corner(c.base, c.k)
    && CornersBelow(c.t, |points|) && DistinctCorners(c.t)
    && (c.genuine ==> ClockwiseAt(points, c.base, c.k))
    && (!c.genuine ==> c.flipped && c.k == 0)
    && (c.flipped ==> (c.genuine <==> exists i :: 0 <= i < |c.base| - 1 && !Blocked(points, c.base, i)))
    && (c.flipped && c.genuine ==> c.k < |c.base| - 1 && !Blocked(points, c.base, c.k))
    && (c.flipped && c.genuine ==> forall i :: c.k < i < |c.base| - 1 ==> Blocked(points, c.base, i))
  }

  lemma CornerDistinct(order: seq<int>, n: int, i: int)
    requires DistinctBelow(order, n) && 0 <= i < |order| && |order| >= 3
    ensures CornersBelow(Corner(order, i), n) && DistinctCorners(Corner(order, i))
  {}

  lemma BlockedIs(points: seq<Vec2>, order: seq<int>, reflexes: seq<int>, i: int)
    requires InRange(order, |points|) && InRange(reflexes, |points|) && 0 <= i < |order|
    requires forall v :: v in reflexes <==> TurnsBack(points, order, |order| - 1, v)
    requires ClockwiseAt(points, order, i)
    ensures CornersBelow(Corner(order, i), |points|)
    ensures IsEarOf(points, reflexes, Corner(order, i)) ==> !Blocked(points, order, i)
  {
    CornerRange(order, |points|, i);
    hide ContainsPoint, TurnsClockwise, Corner;
    var t := Corner(order, i);
    if j :| 0 <= j < |order| - 1 && Obstructs(points, order, i, j) {
      assert TurnsBack(points, order, |order| - 1, order[j]);
      assert order[j] in reflexes;
      var x :| 0 <= x < |reflexes| && reflexes[x] == order[j];
    }
  }

  lemma UnblockedIs(points: seq<Vec2>, order: seq<int>, reflexes: seq<int>, i: int)
    requires InRange(order, |points|) && InRange(reflexes, |points|) && 0 <= i < |order|
    requires forall v :: v in reflexes <==> TurnsBack(points, order, |order| - 1, v)
    requires !Blocked(points, order, i)
    ensures CornersBelow(Corner(order, i), |points|) && IsEarOf(points, reflexes, Corner(order, i))
  {
    CornerRange(order, |points|, i);
    hide ContainsPoint, TurnsClockwise, Corner;
    var t := Corner(order, i);
    forall x | 0 <= x < |reflexes| && reflexes[x] != t.a && reflexes[x] != t.b && reflexes[x] != t.c
      ensures !ContainsPoint(points[t.a], points[t.b], points[t.c], points[reflexes[x]])
    {
      assert reflexes[x] in reflexes;
      var j :| 0 <= j < |order| && j < |order| - 1 && order[j] == reflexes[x] && !ClockwiseAt(points, order, j);
      assert !Obstructs(points, order, i, j);
    }
  }

  /** A rebuilt ear is exactly a corner that nothing blocks. */
  lemma EarIsUnblocked(points: seq<Vec2>, order: seq<int>, reflexes: seq<int>, i: int)
    requires InRange(order, |points|) && InRange(reflexes, |points|) && 0 <= i < |order|
    requires forall v :: v in reflexes <==> TurnsBack(points, order, |order| - 1, v)
    ensures CornersBelow(Corner(order, i), |points|)
    ensures KindOf(points, reflexes, Corner(order, i)) == Ear <==> !Blocked(points, order, i)
  {
    CornerRange(order, |points|, i);
    hide TurnsBack, TurnsClockwise, IsEarOf, Obstructs, Corner;
    if ClockwiseAt(points, order, i) {
      BlockedIs(points, order, reflexes, i);
      if !Blocked(points, order, i) {
        UnblockedIs(points, order, reflexes, i);
      }
    }
  }

  /** Both passes have just been made: every vertex but the last is typed by its corner, exactly the visited corners
      that turn back are listed as reflex, and only visited ones as ears. */
  ghost predicate Fresh(points: seq<Vec2>, b: State) {
    && Ready(points, b) && InRange(b.order, |points|) && TypedButLast(points, b)
    && (forall v :: v in b.reflexes <==> TurnsBack(points, b.order, |b.order| - 1, v))
    && (forall i :: 0 <= i < |b.order| && b.order[i] in b.ears ==> i < |b.order| - 1)
    && NewestLast(b.order, b.ears)
  }

  lemma StartIsFresh(points: seq<Vec2>)
    requires |points| >= 3
    ensures Fresh(points, Start(points))
  {
    hide Start, Ready, Misses, TypedButLast, TurnsBack, NewestLast;
    StartMisses(points);
    StartIs(points);
  }

  lemma RefilledIsFresh(points: seq<Vec2>, st: State)
    requires Ready(points, st) && st.ears == [] && |st.order| >= 2
    ensures Fresh(points, Refilled(points, st))
  {
    hide Refilled, Ready, Misses, TypedButLast, TurnsBack, NewestLast;
    RefilledIs(points, st);
  }

  /** What the two passes make of one visited corner. */
  lemma FreshEarAt(points: seq<Vec2>, b: State, i: int)
    requires Fresh(points, b) && InRange(b.order, |points|) && 0 <= i < |b.order| - 1
    ensures b.order[i] in b.ears <==> !Blocked(points, b.order, i)
  {
    ReadyIs(points, b);
    EarIsUnblocked(points, b.order, b.reflexes, i);
    hide TurnsBack, KindOf, Blocked, EarsTurn, Corner;
    assert Typed(points, b, i);
    assert b.order[i] in b.order;
  }

  /** Whether they leave an ear at all, and which corner is then clipped first. */
  lemma FreshEars(points: seq<Vec2>, b: State)
    requires Fresh(points, b) && InRange(b.order, |points|) && b.order != []
    ensures b.ears != [] <==> exists i :: 0 <= i < |b.order| - 1 && !Blocked(points, b.order, i)
    ensures b.ears != [] ==> Pick(points, b) < |b.order| - 1 && !Blocked(points, b.order, Pick(points, b))
    ensures b.ears != [] ==> forall i :: Pick(points, b) < i < |b.order| - 1 ==> Blocked(points, b.order, i)
  {
    hide Blocked, Sound, EarsTurn, TypedButLast, TurnsBack;
    ReadyIs(points, b);
    if b.ears != [] {
      var k := Pick(points, b);
      assert b.order[k] in b.ears;
      FreshEarAt(points, b, k);
      forall i | k < i < |b.order| - 1
        ensures Blocked(points, b.order, i)
      {
        FreshEarAt(points, b, i);
      }
    }
    if i :| 0 <= i < |b.order| - 1 && !Blocked(points, b.order, i) {
      FreshEarAt(points, b, i);
    }
  }

  /** The same after a rebuild. */
  lemma RebuiltEars(points: seq<Vec2>, st: State)
    requires Ready(points, st) && st.ears == [] && |st.order| >= 2
    ensures InRange(Reverse(st.order), |points|)
    ensures
      var b := Refilled(points, st);
      && (b.ears != [] <==> exists i :: 0 <= i < |b.order| - 1 && !Blocked(points, b.order, i))
      && (b.ears != [] ==> Pick(points, b) < |b.order| - 1 && !Blocked(points, b.order, Pick(points, b)))
      && (b.ears != [] ==> forall i :: Pick(points, b) < i < |b.order| - 1 ==> Blocked(points, b.order, i))
  {
    hide Blocked, Sound, EarsTurn, TypedButLast, TurnsBack, Refilled, Fresh;
    ReadyIs(points, Refilled(points, st));
    RefilledIsFresh(points, st);
    FreshEars(points, Refilled(points, st));
  }

  lemma PickedTurns(points: seq<Vec2>, base: State)
    requires Ready(points, base) && base.ears != []
    ensures base.order != [] && InRange(base.order, |points|) && ClockwiseAt(points, base.order, Pick(points, base))
  {
    ReadyIs(points, base);
    PopLast(base, |points|);
    EarAt(points, base, Pick(points, base));
  }

  lemma ClipOfFlipped(points: seq<Vec2>, st: State)
    requires Ready(points, st) && |st.order| >= 3 && st.ears == []
    ensures
      var c := ClipOf(points, st);
      && (c.genuine <==> exists i :: 0 <= i < |c.base| - 1 && !Blocked(points, c.base, i))
      && (c.genuine ==> c.k < |c.base| - 1 && !Blocked(points, c.base, c.k))
      && (c.genuine ==> forall i :: c.k < i < |c.base| - 1 ==> Blocked(points, c.base, i))
  {
    hide Blocked, Corner, Ready, Refilled, Reverse, Pick;
    RebuiltEars(points, st);
  }

  lemma ClipOfIsOk(points: seq<Vec2>, st: State)
    requires Ready(points, st) && |st.order| >= 3
    ensures ClipOk(points, ClipOf(points, st))
  {
    hide Blocked, Sound, EarsTurn, Corner, TurnsClockwise, ClockwiseAt, DistinctBelow, DistinctCorners, CornersBelow,
      Ready, Refilled, Popped, Reverse;
    var b := Base(points, st);
    ReadyIs(points, b);
    CornerDistinct(b.order, |points|, Pick(points, b));
    if b.ears != [] {
      PickedTurns(points, b);
    }
    if st.ears == [] {
      ClipOfFlipped(points, st);
    }
  }

  // ---- Whole runs ----

  /** The state after i triangles. */
  ghost function StateAt(points: seq<Vec2>, i: nat): (r: State)
    requires |points| >= 3 && i <= |points| - 2
    ensures Ready(points, r) && |r.order| == |points| - i && InRange(r.order, |points|)
  {
    if i == 0 then Start(points) else Next(points, StateAt(points, i - 1))
  }

  /** The triangle cut after i others. */
  ghost function ClipAt(points: seq<Vec2>, i: nat): (c: Clip)
    requires |points| >= 3 && i < |points| - 2
    ensures CornersBelow(c.t, |points|) && InRange(c.base, |points|) && 0 <= c.k < |c.base| == |points| - i
  {
    ClipOf(points, StateAt(points, i))
  }

  lemma StateStart(points: seq<Vec2>)
    requires |points| >= 3
    ensures StateAt(points, 0) == Start(points)
  {
    hide Start;
  }

  lemma StateStep(points: seq<Vec2>, i: nat)
    requires |points| >= 3 && i < |points| - 2
    ensures |StateAt(points, i).order| >= 3 && StateAt(points, i + 1) == Next(points, StateAt(points, i))
    ensures ClipAt(points, i) == ClipOf(points, StateAt(points, i))
  {
    hide Next, ClipOf, Ready;
  }

  lemma FirstRing(points: seq<Vec2>)
    requires |points| >= 3
    ensures StateAt(points, 0).order == Identity(|points|)
  {}

  /** Each ring is the one before, turned around where it was, without the clipped vertex. */
  lemma NextRing(points: seq<Vec2>, i: nat)
    requires |points| >= 3 && i < |points| - 2
    ensures
      var c, order := ClipAt(points, i), StateAt(points, i).order;
      && c.base == (if c.flipped then Reverse(order) else order) && 0 <= c.k < |c.base| == |points| - i
      && c.t == Corner(c.base, c.k) && StateAt(points, i + 1).order == Without(c.base, c.k)
      && (c.flipped <==> StateAt(points, i).ears == [])
  {}

  lemma RingIs(points: seq<Vec2>, i: nat)
    requires |points| >= 3 && i <= |points| - 2
    ensures DistinctBelow(StateAt(points, i).order, |points|) && InRange(StateAt(points, i).order, |points|)
    ensures |StateAt(points, i).order| == |points| - i
  {
    ReadyIs(points, StateAt(points, i));
  }

  /** Every triangle of every polygon is as described above. */
  lemma ClipsAreOk(points: seq<Vec2>, i: nat)
    requires |points| >= 3 && i < |points| - 2
    ensures ClipOk(points, ClipAt(points, i))
  {
    ClipOfIsOk(points, StateAt(points, i));
  }

  /** The ring is turned around for the first triangle exactly when every visited corner of the polygon is blocked, and
      else the last visited corner that nothing blocks is cut off. */
  lemma FirstClip(points: seq<Vec2>)
    requires |points| >= 3
    ensures InRange(Identity(|points|), |points|)
    ensures
      var c, n := ClipAt(points, 0), |points|;
      && (c.flipped <==> forall i :: 0 <= i < n - 1 ==> Blocked(points, Identity(n), i))
      && (!c.flipped ==> c.base == Identity(n) && c.k < n - 1 && !Blocked(points, Identity(n), c.k))
      && (!c.flipped ==> forall i :: c.k < i < n - 1 ==> Blocked(points, Identity(n), i))
  {
    hide Blocked, Start, Ready, Fresh, Corner, Refilled;
    StateStart(points);
    StartIsFresh(points);
    FreshEars(points, Start(points));
  }

  lemma InRest(s: seq<int>, n: int, k: int, v: int)
    requires DistinctBelow(s, n) && 0 <= k < |s| && v in Without(s, k)
    ensures v in s && v != s[k]
  {
    var i :| 0 <= i < |s| - 1 && Without(s, k)[i] == v;
    assert s[if i < k then i else i + 1] == v;
  }

  lemma ReversedDistinct(order: seq<int>, n: int)
    requires DistinctBelow(order, n)
    ensures DistinctBelow(Reverse(order), n)
  {}

  lemma InReversed<T>(s: seq<T>, v: T)
    ensures v in Reverse(s) <==> v in s
  {
    if v in s {
      var i :| 0 <= i < |s| && s[i] == v;
      assert Reverse(s)[|s| - 1 - i] == v;
    }
  }

  /** A clipped vertex never comes back. */
  lemma {:induction false} TipIsGone(points: seq<Vec2>, i: nat, j: nat)
    requires |points| >= 3 && i < j <= |points| - 2
    ensures ClipAt(points, i).t.b !in StateAt(points, j).order
    decreases j
  {
    hide *;
    var c, v := ClipAt(points, j - 1), ClipAt(points, i).t.b;
    NextRing(points, j - 1);
    RingIs(points, j - 1);
    InReversed(StateAt(points, j - 1).order, v);
    ReversedDistinct(StateAt(points, j - 1).order, |points|);
    if i < j - 1 {
      TipIsGone(points, i, j - 1);
    } else {
      TipIs(points, i);
    }
    if v in Without(c.base, c.k) {
      InRest(c.base, |points|, c.k, v);
    }
  }

  lemma TipIs(points: seq<Vec2>, i: nat)
    requires |points| >= 3 && i < |points| - 2
    ensures ClipAt(points, i).t.b == ClipAt(points, i).base[ClipAt(points, i).k]
    ensures ClipAt(points, i).t.b in StateAt(points, i).order
  {
    hide StateAt, ClipAt, Reverse;
    NextRing(points, i);
    InReversed(StateAt(points, i).order, ClipAt(points, i).t.b);
  }

  /** No two triangles are cut off at the same vertex. */
  lemma TipsDiffer(points: seq<Vec2>, i: nat, j: nat)
    requires |points| >= 3 && i < j < |points| - 2
    ensures ClipAt(points, i).t.b != ClipAt(points, j).t.b
  {
    hide *;
    TipIsGone(points, i, j);
    TipIs(points, j);
  }

  // ---- Areas ----

  /** Whether the ring that triangle i - 1 is cut from runs the way the polygon was given. */
  ghost predicate Upright(points: seq<Vec2>, i: nat)
    requires |points| >= 3 && i <= |points| - 2
  {
    i == 0 || (Upright(points, i - 1) <==> !ClipAt(points, i - 1).flipped)
  }

  ghost function Oriented(area: real, upright: bool): real {
    if upright then area else -area
  }

  /** Twice the signed area triangle i covers of the polygon as it was given. */
  ghost function SignedTurn(points: seq<Vec2>, i: nat): real
    requires |points| >= 3 && i < |points| - 2
  {
    Oriented(TurnOf(points, ClipAt(points, i).t), Upright(points, i + 1))
  }

  ghost function SignedSum(points: seq<Vec2>, i: nat): real
    requires |points| >= 3 && i <= |points| - 2
  {
    if i == 0 then 0.0 else SignedSum(points, i - 1) + SignedTurn(points, i - 1)
  }

  /** One triangle: what it takes off the ring, as it was before it was perhaps turned around. */
  lemma StepArea(points: seq<Vec2>, order: seq<int>, c: Clip, upright: bool)
    requires InRange(order, |points|) && c.base == (if c.flipped then Reverse(order) else order)
    requires 0 <= c.k < |c.base| && |c.base| >= 2 && c.t == Corner(c.base, c.k)
    ensures CornersBelow(c.t, |points|) && InRange(Without(c.base, c.k), |points|)
    ensures
      var after := upright <==> !c.flipped;
      Oriented(RingArea(points, order), upright)
      == Oriented(TurnOf(points, c.t), after) + Oriented(RingArea(points, Without(c.base, c.k)), after)
  {
    hide RingArea, TurnOf, Corner, Reverse, Without;
    FlipArea(points, order);
    CornerRange(c.base, |points|, c.k);
    WithoutRange(c.base, |points|, c.k);
    ClipArea(points, c.base, c.k);
  }

  lemma WithoutRange(order: seq<int>, n: int, k: int)
    requires InRange(order, n) && 0 <= k < |order|
    ensures InRange(Without(order, k), n)
  {}

  /** What is cut off and what is left make up the polygon, at every moment of the run. */
  lemma {:induction false} AreaSoFar(points: seq<Vec2>, i: nat)
    requires |points| >= 3 && i <= |points| - 2
    ensures
      RingArea(points, Identity(|points|))
      == SignedSum(points, i) + Oriented(RingArea(points, StateAt(points, i).order), Upright(points, i))
  {
    hide StateAt, ClipAt, RingArea, TurnOf, Corner, Reverse, Without, Ready, ClipOk, Before, InRange;
    if i == 0 {
      FirstRing(points);
    } else {
      AreaSoFar(points, i - 1);
      NextRing(points, i - 1);
      StepArea(points, StateAt(points, i - 1).order, ClipAt(points, i - 1), Upright(points, i - 1));
    }
  }

  lemma NoArea(points: seq<Vec2>, order: seq<int>, upright: bool)
    requires InRange(order, |points|) && |order| == 2
    ensures Oriented(RingArea(points, order), upright) == 0.0
  {
    TwoPointRing(At(points, order));
  }

  /** The triangles account for the whole polygon: the sign changes with every reversal of the ring, and nothing else
      changes it. */
  lemma ClipsMakeThePolygon(points: seq<Vec2>)
    requires |points| >= 3
    ensures RingArea(points, Identity(|points|)) == SignedSum(points, |points| - 2)
  {
    hide *;
    AreaSoFar(points, |points| - 2);
    RingIs(points, |points| - 2);
    NoArea(points, StateAt(points, |points| - 2).order, Upright(points, |points| - 2));
  }

  function Magnitude(r: real): real {
    if r < 0.0 then -r else r
  }

  /** Twice the area of the first i triangles, whichever way they run. */
  ghost function AreaSum(points: seq<Vec2>, i: nat): real
    requires |points| >= 3 && i <= |points| - 2
  {
    if i == 0 then 0.0 else AreaSum(points, i - 1) + Magnitude(SignedTurn(points, i - 1))
  }

  /** The first i triangles all lie the same way, in the orientation the polygon was given. */
  ghost predicate OneWay(points: seq<Vec2>, i: nat)
    requires |points| >= 3 && i <= |points| - 2
  {
    || (forall j :: 0 <= j < i ==> SignedTurn(points, j) >= 0.0)
    || (forall j :: 0 <= j < i ==> SignedTurn(points, j) <= 0.0)
  }

  lemma {:induction false} SumBounds(points: seq<Vec2>, i: nat)
    requires |points| >= 3 && i <= |points| - 2
    ensures -AreaSum(points, i) <= SignedSum(points, i) <= AreaSum(points, i)
    ensures SignedSum(points, i) == AreaSum(points, i) <==> forall j :: 0 <= j < i ==> SignedTurn(points, j) >= 0.0
    ensures SignedSum(points, i) == -AreaSum(points, i) <==> forall j :: 0 <= j < i ==> SignedTurn(points, j) <= 0.0
  {
    hide SignedTurn;
    if i > 0 {
      SumBounds(points, i - 1);
    }
  }

  /** The areas of the triangles add up to the polygon's exactly when no two of them lie opposite ways. */
  lemma AreasAddUpIff(points: seq<Vec2>)
    requires |points| >= 3
    ensures
      AreaSum(points, |points| - 2) == Magnitude(RingArea(points, Identity(|points|)))
      <==> OneWay(points, |points| - 2)
  {
    hide SignedTurn, RingArea;
    ClipsMakeThePolygon(points);
    SumBounds(points, |points| - 2);
  }

  /** No fallback was needed, and the ring was turned around at most before the first triangle. */
  ghost predicate OnlyEars(points: seq<Vec2>)
    requires |points| >= 3
  {
    forall i :: 0 <= i < |points| - 2 ==> ClipAt(points, i).genuine && (ClipAt(points, i).flipped ==> i == 0)
  }

  lemma {:induction false} StaysUpright(points: seq<Vec2>, i: nat)
    requires |points| >= 3 && OnlyEars(points) && 0 < i <= |points| - 2
    ensures Upright(points, i) <==> !ClipAt(points, 0).flipped
  {
    hide ClipAt;
    if i > 1 {
      StaysUpright(points, i - 1);
      assert !ClipAt(points, i - 1).flipped;
    }
  }

  lemma EarIsOneWay(points: seq<Vec2>, i: nat)
    requires |points| >= 3 && OnlyEars(points) && i < |points| - 2
    ensures if ClipAt(points, 0).flipped then SignedTurn(points, i) < 0.0 else SignedTurn(points, i) > 0.0
  {
    hide ClipAt, TurnOf, Corner;
    ClipsAreOk(points, i);
    StaysUpright(points, i + 1);
    assert ClipAt(points, i).genuine;
    OkTurns(points, ClipAt(points, i));
  }

  lemma OkTurns(points: seq<Vec2>, c: Clip)
    requires ClipOk(points, c) && c.genuine
    ensures CornersBelow(c.t, |points|) && TurnOf(points, c.t) > 0.0
  {}

  /** When only ears are clipped, the triangles cover exactly the polygon's area. */
  lemma EarsCoverPolygon(points: seq<Vec2>)
    requires |points| >= 3 && OnlyEars(points)
    ensures AreaSum(points, |points| - 2) == Magnitude(RingArea(points, Identity(|points|)))
    ensures
      var area := RingArea(points, Identity(|points|));
      if ClipAt(points, 0).flipped then area < 0.0 else area > 0.0
  {
    hide RingArea, ClipAt, AreaSum, SignedTurn, SignedSum, OnlyEars, Identity;
    forall i | 0 <= i < |points| - 2
      ensures if ClipAt(points, 0).flipped then SignedTurn(points, i) < 0.0 else SignedTurn(points, i) > 0.0
    {
      EarIsOneWay(points, i);
    }
    AreasAddUpIff(points);
    ClipsMakeThePolygon(points);
    OneWaySum(points, |points| - 2);
  }

  lemma {:induction false} OneWaySum(points: seq<Vec2>, i: nat)
    requires |points| >= 3 && 0 < i <= |points| - 2
    ensures (forall j :: 0 <= j < i ==> SignedTurn(points, j) > 0.0) ==> SignedSum(points, i) > 0.0
    ensures (forall j :: 0 <= j < i ==> SignedTurn(points, j) < 0.0) ==> SignedSum(points, i) < 0.0
  {
    hide SignedTurn;
    if i > 1 {
      OneWaySum(points, i - 1);
    } else {
      assert SignedSum(points, 0) == 0.0;
    }
  }

  /** The first m triangles are as described above, and cut off at different vertices. */
  ghost predicate Proper(points: seq<Vec2>, m: nat)
    requires |points| >= 3 && m <= |points| - 2
  {
    forall i :: 0 <= i < m ==> ClipOk(points, ClipAt(points, i))
  }

  ghost predicate TipsApart(points: seq<Vec2>, m: nat)
    requires |points| >= 3 && m <= |points| - 2
  {
    forall i, j :: 0 <= i < j < m ==> ClipAt(points, i).t.b != ClipAt(points, j).t.b
  }

  /** The ring of the polygon is the sum of its triangles. */
  ghost predicate MakesUp(points: seq<Vec2>, m: nat)
    requires |points| >= 3 && m <= |points| - 2
  {
    RingArea(points, Identity(|points|)) == SignedSum(points, m)
  }

  /** Everything the triangles of a polygon are, together. */
  lemma ClipsAre(points: seq<Vec2>)
    requires |points| >= 3
    ensures Proper(points, |points| - 2) && TipsApart(points, |points| - 2) && MakesUp(points, |points| - 2)
  {
    hide ClipOk, ClipAt, RingArea, SignedSum;
    forall i | 0 <= i < |points| - 2
      ensures ClipOk(points, ClipAt(points, i))
    {
      ClipsAreOk(points, i);
    }
    forall i, j | 0 <= i < j < |points| - 2
      ensures ClipAt(points, i).t.b != ClipAt(points, j).t.b
    {
      TipsDiffer(points, i, j);
    }
    ClipsMakeThePolygon(points);
  }

  // ---- The reflex list ----

  /** The vertex the list misses after i triangles, or -1: the one that was first, and Reflex, when the ring was last
      turned around, until it is clipped or gets a clockwise corner. */
  ghost function StaleAt(points: seq<Vec2>, i: nat): int
    requires |points| >= 3 && i <= |points| - 2
  {
    if i == 0 then -1
    else
      var c, st := ClipAt(points, i - 1), StateAt(points, i - 1);
      StaleCut(points, c.base, c.k, if c.flipped then FirstIfReflex(st) else StaleAt(points, i - 1))
  }

  /** In every reachable state the linked Reflex vertices are listed, but for exactly that one. */
  lemma {:induction false} ReflexesAreListed(points: seq<Vec2>, i: nat)
    requires |points| >= 3 && i <= |points| - 2
    ensures Misses(StateAt(points, i), StaleAt(points, i))
  {
    hide Misses, Next, ClipOf, StaleCut, Ready, InRange, Corner, Reverse, Without;
    if i == 0 {
      StartMisses(points);
    } else {
      ReflexesAreListed(points, i - 1);
      StateStep(points, i - 1);
      NextMisses(points, StateAt(points, i - 1), StaleAt(points, i - 1));
    }
  }

  lemma NextMisses(points: seq<Vec2>, st: State, stale: int)
    requires Ready(points, st) && |st.order| >= 3 && Misses(st, stale)
    ensures
      var c := ClipOf(points, st);
      Misses(Next(points, st), StaleCut(points, c.base, c.k, if c.flipped then FirstIfReflex(st) else stale))
  {
    hide Misses, Base, AfterCut, Pick, Ready, StaleCut;
    BaseMisses(points, st, stale);
    ReadyIs(points, Base(points, st));
    AfterMisses(points, Base(points, st), Pick(points, Base(points, st)), StaleBase(st, stale));
  }

  /** All of them are listed exactly when no vertex is stale. */
  lemma AllListedIff(points: seq<Vec2>, i: nat)
    requires |points| >= 3 && i <= |points| - 2
    ensures Misses(StateAt(points, i), -1) <==> StaleAt(points, i) < 0
  {
    hide StateAt, StaleAt;
    ReflexesAreListed(points, i);
    MissesIsOne(StateAt(points, i), StaleAt(points, i));
  }

  lemma MissesIsOne(st: State, stale: int)
    requires Misses(st, stale)
    ensures Misses(st, -1) <==> stale < 0
  {
    if stale >= 0 {
      assert Unlisted(st, stale);
    }
  }

  /** Right after a reversal they are exactly when the vertex that was first was not Reflex. */
  lemma RefilledListedIff(points: seq<Vec2>, st: State)
    requires Ready(points, st) && st.ears == [] && |st.order| >= 2
    ensures 0 <= st.order[0] < |st.kinds|
    ensures Misses(Refilled(points, st), -1) <==> st.kinds[st.order[0]] != Reflex
  {
    hide Misses, TypedButLast, TurnsBack, Refilled, Sound, EarsTurn;
    ReadyIs(points, st);
    RefilledIs(points, st);
    MissesIsOne(Refilled(points, st), FirstIfReflex(st));
  }

  /** Until the ring is turned around all of them are listed. */
  lemma {:induction false} NoneIsStale(points: seq<Vec2>, i: nat)
    requires |points| >= 3 && i <= |points| - 2 && forall j :: 0 <= j < i ==> !ClipAt(points, j).flipped
    ensures StaleAt(points, i) == -1
  {
    hide ClipAt, StateAt;
    if i > 0 {
      NoneIsStale(points, i - 1);
    }
  }

  /** A ring whose fourth vertex is notched in, given against the direction in which it is clipped. */
  function Dart(): seq<Vec2> {
    [Vec2(-2.0, 0.0), Vec2(0.0, 4.0), Vec2(2.0, 0.0), Vec2(0.0, 1.0)]
  }

  lemma DartTurns()
    ensures
      var p := Dart();
      && Turn(p[3], p[0], p[1]) < 0.0 && Turn(p[0], p[1], p[2]) < 0.0 && Turn(p[1], p[2], p[3]) < 0.0
      && Turn(p[0], p[3], p[2]) < 0.0 && Turn(p[3], p[2], p[1]) > 0.0 && Turn(p[2], p[1], p[0]) > 0.0
      && ContainsPoint(p[2], p[1], p[0], p[3])
  {}

  /** As given, every visited corner of it turns back, so no ear is listed. */
  lemma DartStart()
    ensures Start(Dart()).ears == [] && Start(Dart()).kinds[0] == Reflex
  {
    var p, st := Dart(), Start(Dart());
    StartMisses(p);
    StartIs(p);
    ReadyIs(p, st);
    DartTurns();
    hide EarsTurn, Turn, Misses, IsEarOf;
    assert Typed(p, st, 0) && Typed(p, st, 1) && Typed(p, st, 2);
    if st.ears != [] {
      EarIsOnRing(st, 4);
    }
  }

  lemma EarIsOnRing(st: State, n: nat)
    requires Sound(st, n) && st.ears != []
    ensures exists i ::
      0 <= i < |st.order| && 0 <= st.order[i] < n && st.order[i] in st.ears && st.kinds[st.order[i]] == Ear
  {
    assert st.ears[0] in st.ears;
    var i :| 0 <= i < |st.order| && st.order[i] == st.ears[0];
  }

  lemma DartBlocks()
    ensures var p, order := Dart(), [3, 2, 1, 0];
      && Blocked(p, order, 0) && !Blocked(p, order, 1) && Blocked(p, order, 2)
      && !ClockwiseAt(p, order, 0) && ClockwiseAt(p, order, 1) && ClockwiseAt(p, order, 2)
  {
    DartTurns();
    hide Turn, ContainsPoint;
    assert Obstructs(Dart(), [3, 2, 1, 0], 2, 0);
  }

  lemma DartReversed()
    ensures Ready(Dart(), Start(Dart())) && Reverse(Start(Dart()).order) == [3, 2, 1, 0] && Start(Dart()).order[0] == 0
  {
    hide Start, Ready;
    assert Reverse(Start(Dart()).order) == [3, 2, 1, 0];
  }

  /** Turned around, only the corner next to the notch that is visited is an ear. */
  lemma DartPick()
    ensures Start(Dart()).ears == [] && Pick(Dart(), Refilled(Dart(), Start(Dart()))) == 1
  {
    hide Start, Refilled, Ready, Reverse, Dart, Blocked, ClockwiseAt, Corner, Sound, Pick;
    DartReversed();
    DartStart();
    DartBlocks();
    RebuiltEars(Dart(), Start(Dart()));
  }

  /** A missed vertex away from the cut stays missed. */
  lemma StaleStays(points: seq<Vec2>, order: seq<int>, k: int, stale: int)
    requires InRange(order, |points|) && 0 <= k < |order| && |order| >= 3
    requires stale != order[k] && stale != order[Before(k, |order|)] && stale != order[After(k, |order|)]
    ensures StaleCut(points, order, k, stale) == stale
  {
    hide ClockwiseAt;
    SeamNeighbours(order, k);
  }

  lemma DartClip()
    ensures ClipAt(Dart(), 0).base == [3, 2, 1, 0] && ClipAt(Dart(), 0).k == 1 && ClipAt(Dart(), 0).flipped
    ensures FirstIfReflex(StateAt(Dart(), 0)) == 0
  {
    hide Start, Refilled, AfterCut, Ready, Sound, EarsTurn, Pick, Corner;
    DartReversed();
    ReadyIs(Dart(), Start(Dart()));
    DartPick();
    DartStart();
    StateStart(Dart());
  }

  /** After the first triangle of this ring its first vertex is linked and Reflex, and not listed. */
  lemma StaleVertex()
    ensures StaleAt(Dart(), 1) == 0 && Unlisted(StateAt(Dart(), 1), 0)
  {
    hide StateAt, ClipAt, StaleCut, Unlisted, FirstIfReflex;
    DartClip();
    StaleStays(Dart(), [3, 2, 1, 0], 1, 0);
    ReflexesAreListed(Dart(), 1);
  }
}
