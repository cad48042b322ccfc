/** The ear-clipping state on plain values: the ring as a sequence of vertex indices, the vertex kinds, and the two
    unsorted lists. Triangulator.dfy keeps its heap structure equal to this. */
module EarClipping {
  import opened Polygon

  datatype Kind = Convex | Ear | Reflex

  datatype Triangle = Triangle(a: int, b: int, c: int)

  /** `ears` and `reflexes` are the two index lists; `order` is the ring from its first node. */
  datatype State = State(order: seq<int>, kinds: seq<Kind>, ears: seq<int>, reflexes: seq<int>)

  /** Removes the last occurrence of x by moving the last element into its place. */
  function EraseUnsorted(s: seq<int>, x: int, i: nat): (r: seq<int>)
    requires i <= |s|
    decreases i
  {
    if i == 0 then s
    else if s[i - 1] == x then s[i - 1 := s[|s| - 1]][..|s| - 1]
    else EraseUnsorted(s, x, i - 1)
  }

  function Erase(s: seq<int>, x: int): seq<int> {
    EraseUnsorted(s, x, |s|)
  }

  /** The last element was put in the place of element i, and the end cut off. */
  predicate MovedOver(s: seq<int>, i: int, r: seq<int>)
    requires 0 <= i < |s|
  {
    |r| == |s| - 1 && forall j :: 0 <= j < |r| ==> r[j] == if j == i then s[|s| - 1] else s[j]
  }

  lemma {:induction false} EraseFrom(s: seq<int>, x: int, i: nat, n: int)
    requires i <= |s| && DistinctBelow(s, n)
    requires forall j :: i <= j < |s| ==> s[j] != x
    ensures var r := EraseUnsorted(s, x, i);
      DistinctBelow(r, n) && x !in r && forall y :: y != x ==> (y in r <==> y in s)
    ensures x !in s ==> EraseUnsorted(s, x, i) == s
    ensures forall j :: 0 <= j < |s| && s[j] == x ==> MovedOver(s, j, EraseUnsorted(s, x, i))
    decreases i
  {
    if i > 0 {
      if s[i - 1] == x {
        var last := |s| - 1;
        var r := s[i - 1 := s[last]][..last];
        assert EraseUnsorted(s, x, i) == r;
        forall y | y != x
          ensures y in r <==> y in s
        {
          if y in s {
            var j :| 0 <= j < |s| && s[j] == y;
            assert j != i - 1;
            assert j == last ==> r[i - 1] == y;
            assert j < last ==> r[j] == y;
          }
        }
      } else {
        EraseFrom(s, x, i - 1, n);
      }
    }
  }

  /** Erasing removes exactly x from a list without duplicates; the last element takes its place, all others stay. */
  lemma EraseIs(s: seq<int>, x: int, n: int)
    requires DistinctBelow(s, n)
    ensures var r := Erase(s, x);
      DistinctBelow(r, n) && x !in r && forall y :: y != x ==> (y in r <==> y in s)
    ensures x !in s ==> Erase(s, x) == s
    ensures forall j :: 0 <= j < |s| && s[j] == x ==> MovedOver(s, j, Erase(s, x))
  {
    EraseFrom(s, x, |s|, n);
  }

  // ---- Classification ----

  /** No listed reflex vertex other than the corners lies in the triangle. */
  predicate IsEarOf(points: seq<Vec2>, reflexes: seq<int>, t: Triangle)
    requires forall i :: 0 <= i < |reflexes| ==> 0 <= reflexes[i] < |points|
    requires 0 <= t.a < |points| && 0 <= t.b < |points| && 0 <= t.c < |points|
  {
    forall i :: 0 <= i < |reflexes| && reflexes[i] != t.a && reflexes[i] != t.b && reflexes[i] != t.c
      ==> !ContainsPoint(points[t.a], points[t.b], points[t.c], points[reflexes[i]])
  }

  predicate TurnsClockwise(points: seq<Vec2>, t: Triangle)
    requires 0 <= t.a < |points| && 0 <= t.b < |points| && 0 <= t.c < |points|
  {
    IsClockwise(points[t.a], points[t.b], points[t.c])
  }

  function KindOf(points: seq<Vec2>, reflexes: seq<int>, t: Triangle): Kind
    requires forall i :: 0 <= i < |reflexes| ==> 0 <= reflexes[i] < |points|
    requires 0 <= t.a < |points| && 0 <= t.b < |points| && 0 <= t.c < |points|
  {
    if !TurnsClockwise(points, t) then Reflex
    else if IsEarOf(points, reflexes, t) then Ear
    else Convex
  }

  /** The corner at ring position k with its two neighbours. */
  function Corner(order: seq<int>, k: int): Triangle
    requires 0 <= k < |order|
  {
    Triangle(order[Before(k, |order|)], order[k], order[After(k, |order|)])
  }

  // ---- Invariants ----

  ghost predicate InRange(order: seq<int>, n: int) {
    forall i :: 0 <= i < |order| ==> 0 <= order[i] < n
  }

  /** The ring has no repeated vertex, the ear list holds exactly the linked Ear vertices, the reflex list only Reflex
      ones. */
  ghost predicate Sound(st: State, n: nat) {
    && |st.kinds| == n
    && DistinctBelow(st.order, n) && DistinctBelow(st.ears, n) && DistinctBelow(st.reflexes, n)
    && (forall v :: v in st.ears <==> v in st.order && 0 <= v < n && st.kinds[v] == Ear)
    && (forall i :: 0 <= i < |st.reflexes| ==> st.kinds[st.reflexes[i]] == Reflex)
  }

  /** A linked Reflex vertex that the reflex list misses. */
  ghost predicate Unlisted(st: State, v: int) {
    v in st.order && 0 <= v < |st.kinds| && st.kinds[v] == Reflex && v !in st.reflexes
  }

  /** The list misses exactly one vertex, or none when `stale` is negative. */
  ghost predicate Misses(st: State, stale: int) {
    forall v :: 0 <= v ==> (Unlisted(st, v) <==> v == stale)
  }

  lemma SoundRange(st: State, n: nat)
    requires Sound(st, n)
    ensures |st.kinds| == n && InRange(st.order, n) && InRange(st.ears, n) && InRange(st.reflexes, n)
    ensures |st.ears| <= n && |st.reflexes| <= n
  {
    DistinctLength(st.ears, n);
    DistinctLength(st.reflexes, n);
  }

  ghost predicate EarTurns(points: seq<Vec2>, st: State, k: int)
    requires Sound(st, |points|) && 0 <= k < |st.order|
  {
    st.kinds[st.order[k]] == Ear ==> TurnsClockwise(points, Corner(st.order, k))
  }

  /** Every linked Ear is a clockwise corner of the current ring, except possibly at positions j1 and j2. */
  ghost predicate EarsTurn(points: seq<Vec2>, st: State, j1: int, j2: int)
    requires Sound(st, |points|)
  {
    forall k :: 0 <= k < |st.order| && k != j1 && k != j2 ==> EarTurns(points, st, k)
  }

  // ---- Reclassification ----

  function Reclassified(points: seq<Vec2>, st: State, k: int): State
    requires 0 <= k < |st.order| && InRange(st.order, |points|) && |st.kinds| == |points|
    requires InRange(st.reflexes, |points|)
  {
    var v := st.order[k];
    var kind := KindOf(points, st.reflexes, Corner(st.order, k));
    if kind == st.kinds[v] then st
    else
      var r := if st.kinds[v] == Reflex then Erase(st.reflexes, v) else st.reflexes;
      var e := if st.kinds[v] == Ear then Erase(st.ears, v) else st.ears;
      State(st.order, st.kinds[v := kind], if kind == Ear then e + [v] else e, if kind == Reflex then r + [v] else r)
  }

  lemma ReclassifiedLists(points: seq<Vec2>, st: State, k: int)
    requires Sound(st, |points|) && 0 <= k < |st.order|
    ensures Sound(Reclassified(points, st, k), |points|)
  {
    hide KindOf, Erase;
    var n, v := |points|, st.order[k];
    var st' := Reclassified(points, st, k);
    if st' != st {
      EraseIs(st.reflexes, v, n);
      EraseIs(st.ears, v, n);
      var r := if st.kinds[v] == Reflex then Erase(st.reflexes, v) else st.reflexes;
      var e := if st.kinds[v] == Ear then Erase(st.ears, v) else st.ears;
      assert v !in r && v !in e;
      RoomForOne(r, n, v);
      RoomForOne(e, n, v);
      forall u
        ensures u in st'.ears <==> u in st'.order && 0 <= u < n && st'.kinds[u] == Ear
      {
        assert u != v ==> (u in e <==> u in st.ears);
      }
      forall i | 0 <= i < |st'.reflexes|
        ensures st'.kinds[st'.reflexes[i]] == Reflex
      {
        var u := st'.reflexes[i];
        assert u != v ==> u in r && u in st.reflexes;
      }
    }
  }

  lemma ReclassifiedEars(points: seq<Vec2>, st: State, k: int, j: int)
    requires Sound(st, |points|) && 0 <= k < |st.order| && EarsTurn(points, st, k, j)
    requires Sound(Reclassified(points, st, k), |points|)
    ensures EarsTurn(points, Reclassified(points, st, k), j, j)
  {
    hide TurnsClockwise, IsEarOf, Erase, Corner;
    var st' := Reclassified(points, st, k);
    forall i | 0 <= i < |st.order| && i != j
      ensures EarTurns(points, st', i)
    {
      assert i != k ==> EarTurns(points, st, i);
    }
  }

  /** Reclassifying keeps the lists in step with the kinds and leaves a clockwise corner wherever an Ear remains;
      a list that grows had room. */
  lemma ReclassifiedIsSound(points: seq<Vec2>, st: State, k: int, j: int)
    requires Sound(st, |points|) && 0 <= k < |st.order| && EarsTurn(points, st, k, j)
    ensures var st' := Reclassified(points, st, k);
      && Sound(st', |points|) && EarsTurn(points, st', j, j)
      && |st'.ears| <= |points| && |st'.reflexes| <= |points|
  {
    ReclassifiedLists(points, st, k);
    ReclassifiedEars(points, st, k, j);
    hide Reclassified, EarsTurn;
    DistinctLength(Reclassified(points, st, k).ears, |points|);
    DistinctLength(Reclassified(points, st, k).reflexes, |points|);
  }

  function LeftEars(st: State, v: int): seq<int>
    requires 0 <= v < |st.kinds|
  {
    if st.kinds[v] == Ear then Erase(st.ears, v) else st.ears
  }

  function LeftReflexes(st: State, v: int): seq<int>
    requires 0 <= v < |st.kinds|
  {
    if st.kinds[v] == Reflex then Erase(st.reflexes, v) else st.reflexes
  }

  /** A vertex that changes kind leaves one list and finds room in the one it enters. */
  lemma Retyped(points: seq<Vec2>, st: State, k: int, kind: Kind)
    requires Sound(st, |points|) && 0 <= k < |st.order|
    requires kind == KindOf(points, st.reflexes, Corner(st.order, k)) && kind != st.kinds[st.order[k]]
    ensures var v := st.order[k]; var e, r := LeftEars(st, v), LeftReflexes(st, v);
      && 0 <= v < |points| == |st.kinds|
      && |e| < |points| && (kind == Reflex ==> |r| < |points|)
      && Reclassified(points, st, k)
         == State(st.order, st.kinds[v := kind],
                  if kind == Ear then e + [v] else e, if kind == Reflex then r + [v] else r)
  {
    var n, v := |points|, st.order[k];
    EraseIs(st.ears, v, n);
    RoomForOne(LeftEars(st, v), n, v);
    if kind == Reflex {
      RoomForOne(st.reflexes, n, v);
    }
  }

  /** The vertex at ring position k has left the ear list; no other vertex has. */
  ghost predicate Popped(before: seq<int>, ears: seq<int>, v: int, n: int) {
    DistinctBelow(ears, n) && v !in ears && forall u :: u != v ==> (u in ears <==> u in before)
  }

  /** Popping the last listed ear. */
  lemma PopLast(st: State, n: nat)
    requires Sound(st, n) && st.ears != []
    ensures
      var v := st.ears[|st.ears| - 1];
      Popped(st.ears, st.ears[..|st.ears| - 1], v, n) && v in st.order && st.kinds[v] == Ear
  {
    var e, v := st.ears[..|st.ears| - 1], st.ears[|st.ears| - 1];
    assert st.ears == e + [v];
    assert v in st.ears;
  }

  /** In the degenerate case nothing was listed, so nothing else is lost. */
  lemma PopNone(st: State, n: nat)
    requires Sound(st, n) && st.ears == [] && st.order != []
    ensures Popped(st.ears, [], st.order[0], n)
  {}

  ghost function PositionOf(order: seq<int>, v: int): (k: int)
    requires v in order
    ensures 0 <= k < |order| && order[k] == v
  {
    var k :| 0 <= k < |order| && order[k] == v;
    k
  }

  lemma EarAt(points: seq<Vec2>, st: State, k: int)
    requires Sound(st, |points|) && EarsTurn(points, st, -1, -1) && 0 <= k < |st.order| && st.kinds[st.order[k]] == Ear
    ensures TurnsClockwise(points, Corner(st.order, k))
  {
    assert EarTurns(points, st, k);
  }

  /** The vertex at ring position i carries the type its corner has, judged against the listed reflex vertices. */
  ghost predicate Typed(points: seq<Vec2>, st: State, i: int) {
    && 0 <= i < |st.order| && |st.kinds| == |points| && InRange(st.order, |points|) && InRange(st.reflexes, |points|)
    && st.kinds[st.order[i]] == KindOf(points, st.reflexes, Corner(st.order, i))
  }

  /** Whether the corners of a triangle are themselves listed does not matter to its type. */
  lemma CornersDoNotCount(points: seq<Vec2>, r1: seq<int>, r2: seq<int>, t: Triangle)
    requires InRange(r1, |points|) && InRange(r2, |points|)
    requires 0 <= t.a < |points| && 0 <= t.b < |points| && 0 <= t.c < |points|
    requires forall y :: y != t.a && y != t.b && y != t.c ==> (y in r1 <==> y in r2)
    ensures KindOf(points, r1, t) == KindOf(points, r2, t)
  {
    hide ContainsPoint, TurnsClockwise;
    if IsEarOf(points, r1, t) {
      forall i | 0 <= i < |r2| && r2[i] != t.a && r2[i] != t.b && r2[i] != t.c
        ensures !ContainsPoint(points[t.a], points[t.b], points[t.c], points[r2[i]])
      {
        assert r2[i] in r1;
        var j :| 0 <= j < |r1| && r1[j] == r2[i];
      }
    }
    if IsEarOf(points, r2, t) {
      forall i | 0 <= i < |r1| && r1[i] != t.a && r1[i] != t.b && r1[i] != t.c
        ensures !ContainsPoint(points[t.a], points[t.b], points[t.c], points[r1[i]])
      {
        assert r1[i] in r2;
        var j :| 0 <= j < |r2| && r2[j] == r1[i];
      }
    }
  }

  /** Reclassifying moves one vertex in or out of the reflex list, and no other. */
  lemma ReclassifiedReflexes(points: seq<Vec2>, st: State, k: int)
    requires Sound(st, |points|) && 0 <= k < |st.order|
    ensures var st' := Reclassified(points, st, k);
      && st'.order == st.order && |st'.kinds| == |points|
      && InRange(st'.order, |points|) && InRange(st'.reflexes, |points|)
      && (forall y :: y != st.order[k] ==> (y in st'.reflexes <==> y in st.reflexes))
      && st'.kinds == st.kinds[st.order[k] := KindOf(points, st.reflexes, Corner(st.order, k))]
  {
    hide KindOf, Erase;
    EraseIs(st.reflexes, st.order[k], |points|);
  }

  /** The missed vertex after ring position k is classified: no longer missed when that is its own, and clockwise. */
  ghost function StaleKept(points: seq<Vec2>, order: seq<int>, k: int, stale: int): int
    requires InRange(order, |points|) && 0 <= k < |order|
  {
    if order[k] == stale && ClockwiseAt(points, order, k) then -1 else stale
  }

  /** Reclassifying lists a vertex that becomes Reflex, and neither lists nor unlists one that stays so. */
  lemma ReclassifiedMisses(points: seq<Vec2>, st: State, k: int, stale: int)
    requires Sound(st, |points|) && InRange(st.order, |points|) && 0 <= k < |st.order| && Misses(st, stale)
    ensures Misses(Reclassified(points, st, k), StaleKept(points, st.order, k, stale))
  {
    ReclassifiedReflexes(points, st, k);
    hide IsEarOf, Erase, Sound, TurnsClockwise, Corner;
    var st', v := Reclassified(points, st, k), st.order[k];
    var stale' := StaleKept(points, st.order, k, stale);
    forall u | 0 <= u
      ensures Unlisted(st', u) <==> u == stale'
    {
      assert Unlisted(st, u) <==> u == stale;
      if u == v && st' != st && st'.kinds[v] == Reflex {
        assert st'.reflexes[|st'.reflexes| - 1] == v;
      }
    }
  }

  /** The reclassified vertex has the type of its corner, and so has its neighbour if it had before. */
  lemma ReclassifiedTyped(points: seq<Vec2>, st: State, k: int)
    requires Sound(st, |points|) && 0 <= k < |st.order|
    ensures Typed(points, Reclassified(points, st, k), k)
    ensures Typed(points, st, Before(k, |st.order|)) && |st.order| >= 2 ==>
      Typed(points, Reclassified(points, st, k), Before(k, |st.order|))
  {
    hide KindOf, Reclassified;
    var st', j := Reclassified(points, st, k), Before(k, |st.order|);
    ReclassifiedReflexes(points, st, k);
    CornersDoNotCount(points, st.reflexes, st'.reflexes, Corner(st.order, k));
    if Typed(points, st, j) && |st.order| >= 2 {
      CornersDoNotCount(points, st.reflexes, st'.reflexes, Corner(st.order, j));
      assert st.order[j] != st.order[k];
    }
  }

  // ---- Clipping ----

  /** The ring after unlinking position k, and the ear popped off its list. */
  function Clipped(st: State, k: int, ears: seq<int>): State
    requires 0 <= k < |st.order|
  {
    st.(order := Without(st.order, k), ears := ears)
  }

  /** Where the successor of the unlinked position ends up in the ring of m. */
  function Seam(k: int, m: int): int {
    if k == m then 0 else k
  }

  /** The two vertices around the gap are those next to the unlinked one. */
  lemma SeamNeighbours(order: seq<int>, k: int)
    requires 0 <= k < |order| && |order| >= 3
    ensures Without(order, k)[Seam(k, |order| - 1)] == order[After(k, |order|)]
    ensures Without(order, k)[Before(Seam(k, |order| - 1), |order| - 1)] == order[Before(k, |order|)]
  {
  }

  lemma ClippedIs(st: State, k: int, ears: seq<int>)
    requires 0 <= k < |st.order|
    ensures Clipped(st, k, ears) == State(Without(st.order, k), st.kinds, ears, st.reflexes)
  {}

  lemma ClippedMisses(st: State, n: nat, k: int, ears: seq<int>, stale: int)
    requires DistinctBelow(st.order, n) && 0 <= k < |st.order| && Misses(st, stale)
    ensures Misses(Clipped(st, k, ears), if stale == st.order[k] then -1 else stale)
  {
    hide Without;
    var c := Clipped(st, k, ears);
    forall v | 0 <= v
      ensures Unlisted(c, v) <==> v == (if stale == st.order[k] then -1 else stale)
    {
      assert Unlisted(st, v) <==> v == stale;
      RestIs(st.order, n, k, v);
    }
  }

  /** The ring without position k has lost that vertex and no other. */
  lemma RestIs(order: seq<int>, n: int, k: int, v: int)
    requires DistinctBelow(order, n) && 0 <= k < |order|
    ensures v in Without(order, k) <==> v in order && v != order[k]
  {
    var rest := Without(order, k);
    if v in rest {
      var i :| 0 <= i < |rest| && rest[i] == v;
      assert order[if i < k then i else i + 1] == v;
    }
    if v in order && v != order[k] {
      var i :| 0 <= i < |order| && order[i] == v;
      assert rest[if i < k then i else i - 1] == v;
    }
  }

  lemma EarsTurnOnce(points: seq<Vec2>, st: State, q: int)
    requires Sound(st, |points|) && EarsTurn(points, st, q, q)
    ensures EarsTurn(points, st, q, -1)
  {}

  lemma ReclassifiedOrder(points: seq<Vec2>, st: State, k: int)
    requires Sound(st, |points|) && 0 <= k < |st.order|
    ensures Reclassified(points, st, k).order == st.order
  {}

  lemma ClippedLists(st: State, n: nat, k: int, ears: seq<int>)
    requires Sound(st, n) && 0 <= k < |st.order| && Popped(st.ears, ears, st.order[k], n)
    ensures Sound(Clipped(st, k, ears), n)
  {
    var st' := Clipped(st, k, ears);
    forall v
      ensures v in st'.order <==> v in st.order && v != st.order[k]
    {
      if v in st.order && v != st.order[k] {
        var i :| 0 <= i < |st.order| && st.order[i] == v;
        assert i < k ==> st'.order[i] == v;
        assert i > k ==> st'.order[i - 1] == v;
      }
    }
  }

  /** A corner away from the gap is the corner it was. */
  lemma FarCorner(order: seq<int>, k: int, i: int)
    requires 0 <= k < |order| && |order| >= 3 && 0 <= i < |order| - 1
    requires i != Before(Seam(k, |order| - 1), |order| - 1) && i != Seam(k, |order| - 1)
    ensures Corner(Without(order, k), i) == Corner(order, if i < k then i else i + 1)
  {}

  /** Unlinking one vertex disturbs only the corners of its two neighbours. */
  lemma ClippedIsSound(points: seq<Vec2>, st: State, k: int, ears: seq<int>)
    requires Sound(st, |points|) && EarsTurn(points, st, -1, -1) && 0 <= k < |st.order| && |st.order| >= 3
    requires Popped(st.ears, ears, st.order[k], |points|)
    ensures Sound(Clipped(st, k, ears), |points|)
    ensures
      var m := |st.order| - 1;
      EarsTurn(points, Clipped(st, k, ears), Before(Seam(k, m), m), Seam(k, m))
  {
    hide TurnsClockwise, Corner;
    var st', m := Clipped(st, k, ears), |st.order| - 1;
    var q := Seam(k, m);
    ClippedLists(st, |points|, k, ears);
    forall i | 0 <= i < m && i != Before(q, m) && i != q
      ensures EarTurns(points, st', i)
    {
      var j := if i < k then i else i + 1;
      FarCorner(st.order, k, i);
      assert EarTurns(points, st, j);
    }
  }

  // ---- Rebuilding the lists ----

  ghost predicate Shaped(points: seq<Vec2>, st: State) {
    && |st.kinds| == |points| && DistinctBelow(st.order, |points|) && |st.order| >= 2
    && InRange(st.ears, |points|) && InRange(st.reflexes, |points|)
  }

  /** Turning the ring around keeps every list in step; what a corner's type means is up to the rebuild. */
  lemma ReversedIsSound(st: State, n: nat)
    requires Sound(st, n)
    ensures Sound(st.(order := Reverse(st.order)), n)
  {
    var r := Reverse(st.order);
    forall v
      ensures v in r <==> v in st.order
    {
      if v in st.order {
        var i :| 0 <= i < |st.order| && st.order[i] == v;
        assert r[|r| - 1 - i] == v;
      }
    }
  }

  /** The first p ring vertices made Convex again. */
  ghost function ResetPass(st: State, p: nat): (r: State)
    requires p <= |st.order| && InRange(st.order, |st.kinds|)
    ensures r.order == st.order && r.ears == st.ears && r.reflexes == st.reflexes && |r.kinds| == |st.kinds|
  {
    if p == 0 then st
    else var r := ResetPass(st, p - 1); r.(kinds := r.kinds[st.order[p - 1] := Convex])
  }

  ghost predicate ClockwiseAt(points: seq<Vec2>, order: seq<int>, i: int)
    requires InRange(order, |points|) && 0 <= i < |order|
  {
    TurnsClockwise(points, Corner(order, i))
  }

  /** Ring vertex i tested for orientation. */
  ghost function ReflexMarked(points: seq<Vec2>, st: State, i: nat): (r: State)
    requires Shaped(points, st) && i < |st.order|
    ensures Shaped(points, r) && r.order == st.order && r.ears == st.ears && |r.reflexes| <= |st.reflexes| + 1
  {
    var v := st.order[i];
    if ClockwiseAt(points, st.order, i) then st
    else st.(kinds := st.kinds[v := Reflex], reflexes := st.reflexes + [v])
  }

  /** The first p ring vertices tested for orientation. */
  ghost function ReflexPass(points: seq<Vec2>, st: State, p: nat): (r: State)
    requires Shaped(points, st) && p <= |st.order|
    ensures Shaped(points, r) && r.order == st.order && r.ears == st.ears && |r.reflexes| <= |st.reflexes| + p
  {
    if p == 0 then st else ReflexMarked(points, ReflexPass(points, st, p - 1), p - 1)
  }

  /** Ring vertex i tested for being an ear. */
  ghost function EarMarked(points: seq<Vec2>, st: State, i: nat): (r: State)
    requires Shaped(points, st) && i < |st.order|
    ensures Shaped(points, r) && r.order == st.order && r.reflexes == st.reflexes && |r.ears| <= |st.ears| + 1
  {
    var v := st.order[i];
    if st.kinds[v] == Convex && IsEarOf(points, st.reflexes, Corner(st.order, i)) then
      st.(kinds := st.kinds[v := Ear], ears := st.ears + [v])
    else st
  }

  /** The first p ring vertices tested for being ears. */
  ghost function EarPass(points: seq<Vec2>, st: State, p: nat): (r: State)
    requires Shaped(points, st) && p <= |st.order|
    ensures Shaped(points, r) && r.order == st.order && r.reflexes == st.reflexes && |r.ears| <= |st.ears| + p
  {
    if p == 0 then st else EarMarked(points, EarPass(points, st, p - 1), p - 1)
  }

  lemma {:induction false} ResetPassKinds(st: State, p: nat, v: int)
    requires p <= |st.order| && DistinctBelow(st.order, |st.kinds|) && 0 <= v < |st.kinds|
    ensures ResetPass(st, p).kinds[v] == if v in st.order[..p] then Convex else st.kinds[v]
    decreases p
  {
    if p > 0 {
      ResetPassKinds(st, p - 1, v);
      assert st.order[..p] == st.order[..p - 1] + [st.order[p - 1]];
    }
  }

  /** v is among the first p ring vertices. */
  ghost predicate Tested(order: seq<int>, p: int, v: int) {
    exists i :: 0 <= i < p && i < |order| && order[i] == v
  }

  lemma TestedOnce(order: seq<int>, n: int, i: int, p: int)
    requires DistinctBelow(order, n) && 0 <= i < |order| && 0 <= p <= |order|
    ensures Tested(order, p, order[i]) <==> i < p
  {}

  lemma NoResetPass(st: State)
    requires InRange(st.order, |st.kinds|)
    ensures ResetPass(st, 0) == st
  {}

  lemma ResetPassStep(st: State, p: nat)
    requires 0 < p <= |st.order| && InRange(st.order, |st.kinds|)
    ensures var q := ResetPass(st, p - 1); ResetPass(st, p) == q.(kinds := q.kinds[st.order[p - 1] := Convex])
  {}

  /** After the reset only the last ring vertex may keep an old type, and with no ears left that type is not Ear. */
  lemma ResetPassIs(points: seq<Vec2>, st: State)
    requires Sound(st, |points|) && st.ears == [] && |st.order| >= 2
    ensures Blanked(points, ResetPass(st, |st.order| - 1).(reflexes := []))
    ensures var v := st.order[|st.order| - 1]; ResetPass(st, |st.order| - 1).kinds[v] == st.kinds[v]
  {
    var m := |st.order| - 1;
    forall i | 0 <= i < |st.order|
      ensures ResetPass(st, m).kinds[st.order[i]] == if i < m then Convex else st.kinds[st.order[i]]
    {
      ResetPassKinds(st, m, st.order[i]);
      assert i < m ==> st.order[..m][i] == st.order[i];
    }
    assert st.order[m] in st.order;
  }

  /** What the orientation pass leaves: exactly the non-clockwise tested corners are Reflex and listed. */
  ghost predicate ReflexPassed(points: seq<Vec2>, order: seq<int>, before: seq<Kind>, kinds: seq<Kind>,
                               reflexes: seq<int>, p: int)
    requires InRange(order, |points|) && |before| == |kinds| == |points|
  {
    && DistinctBelow(reflexes, |points|)
    && (forall k :: 0 <= k < |reflexes| ==> Tested(order, p, reflexes[k]) && kinds[reflexes[k]] == Reflex)
    && (forall i :: 0 <= i < |order| ==> kinds[order[i]] == ReflexKind(points, order, before, p, i))
    && (forall i :: 0 <= i < |order| && i < p && !ClockwiseAt(points, order, i) ==> order[i] in reflexes)
    && (forall k :: 0 <= k < |reflexes| ==> TurnsBack(points, order, p, reflexes[k]))
  }

  /** v is one of the first p ring vertices and its corner is not clockwise. */
  ghost predicate TurnsBack(points: seq<Vec2>, order: seq<int>, p: int, v: int)
    requires InRange(order, |points|)
  {
    exists i :: 0 <= i < |order| && i < p && order[i] == v && !ClockwiseAt(points, order, i)
  }

  ghost function ReflexKind(points: seq<Vec2>, order: seq<int>, before: seq<Kind>, p: int, i: int): Kind
    requires InRange(order, |points|) && |before| == |points| && 0 <= i < |order|
  {
    if i < p && !ClockwiseAt(points, order, i) then Reflex else before[order[i]]
  }

  lemma TestedMore(order: seq<int>, p: int, v: int)
    requires Tested(order, p, v)
    ensures Tested(order, p + 1, v)
  {
    var i :| 0 <= i < p && i < |order| && order[i] == v;
  }

  lemma TurnsBackMore(points: seq<Vec2>, order: seq<int>, p: int, v: int)
    requires InRange(order, |points|) && TurnsBack(points, order, p, v)
    ensures TurnsBack(points, order, p + 1, v)
  {
    var i :| 0 <= i < |order| && i < p && order[i] == v && !ClockwiseAt(points, order, i);
  }

  lemma ReflexSkip(points: seq<Vec2>, order: seq<int>, before: seq<Kind>, kinds: seq<Kind>, reflexes: seq<int>, p: nat)
    requires DistinctBelow(order, |points|) && |before| == |kinds| == |points| && p < |order|
    requires ReflexPassed(points, order, before, kinds, reflexes, p) && ClockwiseAt(points, order, p)
    ensures ReflexPassed(points, order, before, kinds, reflexes, p + 1)
  {
    hide ClockwiseAt, TurnsBack, Tested;
    forall k | 0 <= k < |reflexes|
      ensures Tested(order, p + 1, reflexes[k]) && TurnsBack(points, order, p + 1, reflexes[k])
    {
      TestedMore(order, p, reflexes[k]);
      TurnsBackMore(points, order, p, reflexes[k]);
    }
  }

  lemma ReflexAdd(points: seq<Vec2>, order: seq<int>, before: seq<Kind>, kinds: seq<Kind>, reflexes: seq<int>, p: nat)
    requires DistinctBelow(order, |points|) && |before| == |kinds| == |points| && p < |order|
    requires ReflexPassed(points, order, before, kinds, reflexes, p) && !ClockwiseAt(points, order, p)
    ensures ReflexPassed(points, order, before, kinds[order[p] := Reflex], reflexes + [order[p]], p + 1)
  {
    hide ClockwiseAt, TurnsBack, Tested;
    var v, r := order[p], reflexes + [order[p]];
    TestedOnce(order, |points|, p, p);
    assert v !in reflexes;
    RoomForOne(reflexes, |points|, v);
    NewTurnBack(points, order, p);
    forall k | 0 <= k < |reflexes|
      ensures Tested(order, p + 1, reflexes[k]) && TurnsBack(points, order, p + 1, reflexes[k])
    {
      TestedMore(order, p, reflexes[k]);
      TurnsBackMore(points, order, p, reflexes[k]);
    }
    forall i | 0 <= i < |order| && i < p + 1 && !ClockwiseAt(points, order, i)
      ensures order[i] in r
    {
      assert i < p ==> order[i] in reflexes;
      assert r[|reflexes|] == v;
    }
  }

  lemma NewTurnBack(points: seq<Vec2>, order: seq<int>, p: nat)
    requires InRange(order, |points|) && p < |order| && !ClockwiseAt(points, order, p)
    ensures Tested(order, p + 1, order[p]) && TurnsBack(points, order, p + 1, order[p])
  {}

  lemma NoReflexPass(points: seq<Vec2>, st: State)
    requires Shaped(points, st)
    ensures ReflexPass(points, st, 0) == st
  {}

  lemma NoEarPass(points: seq<Vec2>, st: State)
    requires Shaped(points, st)
    ensures EarPass(points, st, 0) == st
  {}

  lemma ReflexPassStep(points: seq<Vec2>, st: State, p: nat)
    requires Shaped(points, st) && 0 < p <= |st.order|
    ensures ReflexPass(points, st, p) == ReflexMarked(points, ReflexPass(points, st, p - 1), p - 1)
  {}

  /** r is what p steps of the orientation pass make of st. */
  ghost predicate ReflexDone(points: seq<Vec2>, st: State, r: State, p: int) {
    && |st.kinds| == |r.kinds| == |points| && InRange(st.order, |points|) && r.order == st.order
    && ReflexPassed(points, st.order, st.kinds, r.kinds, r.reflexes, p)
  }

  lemma ReflexNotBegun(points: seq<Vec2>, st: State)
    requires Shaped(points, st) && st.reflexes == []
    ensures ReflexDone(points, st, st, 0)
  {
    hide TurnsClockwise, Corner;
  }

  lemma ReflexStep(points: seq<Vec2>, st: State, q: State, p: nat)
    requires Shaped(points, st) && Shaped(points, q) && ReflexDone(points, st, q, p) && p < |q.order|
    ensures ReflexDone(points, st, ReflexMarked(points, q, p), p + 1)
  {
    hide ReflexPassed, ClockwiseAt;
    if ClockwiseAt(points, st.order, p) {
      ReflexSkip(points, st.order, st.kinds, q.kinds, q.reflexes, p);
    } else {
      ReflexAdd(points, st.order, st.kinds, q.kinds, q.reflexes, p);
    }
  }

  lemma {:induction false} ReflexPassIs(points: seq<Vec2>, st: State, p: nat)
    requires Shaped(points, st) && p <= |st.order| && st.reflexes == []
    ensures ReflexDone(points, st, ReflexPass(points, st, p), p)
    decreases p
  {
    hide ReflexDone, ReflexPass, ReflexMarked, Shaped;
    if p == 0 {
      NoReflexPass(points, st);
      ReflexNotBegun(points, st);
    } else {
      ReflexPassIs(points, st, p - 1);
      ReflexPassStep(points, st, p);
      ReflexStep(points, st, ReflexPass(points, st, p - 1), p - 1);
    }
  }

  /** What the ear pass leaves: exactly the tested Convex corners that are ears become Ear, and they are listed. */
  ghost predicate EarPassed(points: seq<Vec2>, order: seq<int>, before: seq<Kind>, reflexes: seq<int>,
                            kinds: seq<Kind>, ears: seq<int>, p: int)
    requires InRange(order, |points|) && |before| == |kinds| == |points| && InRange(reflexes, |points|)
  {
    && DistinctBelow(ears, |points|)
    && (forall k :: 0 <= k < |ears| ==> Tested(order, p, ears[k]))
    && (forall v :: 0 <= v < |points| ==> kinds[v] == if v in ears then Ear else before[v])
    && (forall i :: 0 <= i < |order| ==> (order[i] in ears <==> i < p && IsNewEar(points, order, before, reflexes, i)))
  }

  ghost predicate IsNewEar(points: seq<Vec2>, order: seq<int>, before: seq<Kind>, reflexes: seq<int>, i: int)
    requires InRange(order, |points|) && |before| == |points| && InRange(reflexes, |points|) && 0 <= i < |order|
  {
    before[order[i]] == Convex && IsEarOf(points, reflexes, Corner(order, i))
  }

  lemma EarSkip(points: seq<Vec2>, order: seq<int>, before: seq<Kind>, reflexes: seq<int>, kinds: seq<Kind>,
                ears: seq<int>, p: nat)
    requires DistinctBelow(order, |points|) && |before| == |kinds| == |points| && InRange(reflexes, |points|)
    requires p < |order|
    requires EarPassed(points, order, before, reflexes, kinds, ears, p) && !IsNewEar(points, order, before, reflexes, p)
    ensures EarPassed(points, order, before, reflexes, kinds, ears, p + 1)
  {
    hide IsNewEar;
    forall k | 0 <= k < |ears|
      ensures Tested(order, p + 1, ears[k])
    {
      TestedMore(order, p, ears[k]);
    }
  }

  lemma EarAdd(points: seq<Vec2>, order: seq<int>, before: seq<Kind>, reflexes: seq<int>, kinds: seq<Kind>,
               ears: seq<int>, p: nat)
    requires DistinctBelow(order, |points|) && |before| == |kinds| == |points| && InRange(reflexes, |points|)
    requires p < |order|
    requires EarPassed(points, order, before, reflexes, kinds, ears, p) && IsNewEar(points, order, before, reflexes, p)
    ensures EarPassed(points, order, before, reflexes, kinds[order[p] := Ear], ears + [order[p]], p + 1)
  {
    hide IsNewEar;
    var v := order[p];
    assert v !in ears;
    RoomForOne(ears, |points|, v);
    forall k | 0 <= k < |ears|
      ensures Tested(order, p + 1, ears[k])
    {
      TestedMore(order, p, ears[k]);
    }
    assert Tested(order, p + 1, v);
    assert forall u :: u in ears + [v] <==> u in ears || u == v;
  }

  lemma EarPassStep(points: seq<Vec2>, st: State, p: nat)
    requires Shaped(points, st) && 0 < p <= |st.order|
    ensures EarPass(points, st, p) == EarMarked(points, EarPass(points, st, p - 1), p - 1)
  {}

  /** r is what p steps of the ear pass make of st. */
  ghost predicate EarDone(points: seq<Vec2>, st: State, r: State, p: int) {
    && |st.kinds| == |r.kinds| == |points| && InRange(st.order, |points|) && r.order == st.order
    && InRange(st.reflexes, |points|) && r.reflexes == st.reflexes
    && EarPassed(points, st.order, st.kinds, st.reflexes, r.kinds, r.ears, p)
  }

  /** A vertex not yet tested still has its old type. */
  lemma EarUntouched(points: seq<Vec2>, order: seq<int>, before: seq<Kind>, reflexes: seq<int>, kinds: seq<Kind>,
                     ears: seq<int>, p: nat)
    requires InRange(order, |points|) && |before| == |kinds| == |points| && InRange(reflexes, |points|) && p < |order|
    requires EarPassed(points, order, before, reflexes, kinds, ears, p)
    ensures kinds[order[p]] == before[order[p]]
  {
    hide IsNewEar;
  }

  lemma EarNotBegun(points: seq<Vec2>, st: State)
    requires Shaped(points, st) && st.ears == []
    ensures EarDone(points, st, st, 0)
  {
    hide IsNewEar;
  }

  lemma EarStep(points: seq<Vec2>, st: State, q: State, p: nat)
    requires Shaped(points, st) && Shaped(points, q) && EarDone(points, st, q, p) && p < |q.order|
    ensures EarDone(points, st, EarMarked(points, q, p), p + 1)
  {
    hide EarPassed, IsEarOf, Corner;
    EarUntouched(points, st.order, st.kinds, st.reflexes, q.kinds, q.ears, p);
    if IsNewEar(points, st.order, st.kinds, st.reflexes, p) {
      EarAdd(points, st.order, st.kinds, st.reflexes, q.kinds, q.ears, p);
    } else {
      EarSkip(points, st.order, st.kinds, st.reflexes, q.kinds, q.ears, p);
    }
  }

  lemma {:induction false} EarPassIs(points: seq<Vec2>, st: State, p: nat)
    requires Shaped(points, st) && p <= |st.order| && st.ears == []
    ensures EarDone(points, st, EarPass(points, st, p), p)
    decreases p
  {
    hide EarDone, EarPass, EarMarked, Shaped;
    if p == 0 {
      NoEarPass(points, st);
      EarNotBegun(points, st);
    } else {
      EarPassIs(points, st, p - 1);
      EarPassStep(points, st, p);
      EarStep(points, st, EarPass(points, st, p - 1), p - 1);
    }
  }

  /** The ear listed last stands last on the ring. */
  ghost predicate NewestLast(order: seq<int>, ears: seq<int>) {
    forall i, j :: 0 <= i < |order| && 0 <= j < |order| && order[j] in ears && order[i] == ears[|ears| - 1] ==> j <= i
  }

  lemma EarMarkedNewest(points: seq<Vec2>, st: State, q: State, p: nat)
    requires Shaped(points, st) && Shaped(points, q) && EarDone(points, st, q, p) && p < |q.order|
    requires NewestLast(st.order, q.ears)
    ensures NewestLast(st.order, EarMarked(points, q, p).ears)
  {
    hide IsEarOf, Corner, IsNewEar;
    var r := EarMarked(points, q, p);
    forall i, j | 0 <= i < |st.order| && 0 <= j < |st.order| && st.order[j] in r.ears
      && st.order[i] == r.ears[|r.ears| - 1]
      ensures j <= i
    {
      if r.ears != q.ears {
        assert r.ears == q.ears + [st.order[p]];
        assert st.order[j] in q.ears || j == p;
      }
    }
  }

  lemma {:induction false} EarPassNewest(points: seq<Vec2>, st: State, p: nat)
    requires Shaped(points, st) && p <= |st.order| && st.ears == []
    ensures NewestLast(st.order, EarPass(points, st, p).ears)
    decreases p
  {
    hide EarDone, EarPass, EarMarked, Shaped, NewestLast;
    if p == 0 {
      NoEarPass(points, st);
      NothingLast(st.order);
    } else {
      EarPassNewest(points, st, p - 1);
      EarPassIs(points, st, p - 1);
      EarPassStep(points, st, p);
      EarMarkedNewest(points, st, EarPass(points, st, p - 1), p - 1);
    }
  }

  lemma NothingLast(order: seq<int>)
    ensures NewestLast(order, [])
  {}

  /** Both passes over all but the last ring vertex, as BuildReflexes and BuildEars make them. */
  ghost function Built(points: seq<Vec2>, st: State): (r: State)
    requires Shaped(points, st)
    ensures Shaped(points, r) && r.order == st.order
  {
    EarPass(points, ReflexPass(points, st, |st.order| - 1), |st.order| - 1)
  }

  /** Every vertex but the last one on the ring carries the type of its corner: that one is never visited. */
  ghost predicate TypedButLast(points: seq<Vec2>, st: State) {
    forall i :: 0 <= i < |st.order| - 1 ==> Typed(points, st, i)
  }

  /** Rebuilding from scratch restores the invariants. The untested last vertex keeps its stale type, and only it
      can be Reflex without being listed, exactly when that type is Reflex. */
  lemma BuiltIsSound(points: seq<Vec2>, st: State, stale: int)
    requires Blanked(points, st)
    requires var v := st.order[|st.order| - 1]; stale == if st.kinds[v] == Reflex then v else -1
    ensures Sound(Built(points, st), |points|) && EarsTurn(points, Built(points, st), -1, -1)
    ensures Misses(Built(points, st), stale) && TypedButLast(points, Built(points, st))
    ensures forall v :: v in Built(points, st).reflexes <==> TurnsBack(points, st.order, |st.order| - 1, v)
    ensures forall i :: 0 <= i < |st.order| ==> st.order[i] in Built(points, st).ears ==> i < |st.order| - 1
    ensures NewestLast(st.order, Built(points, st).ears)
  {
    hide Sound, EarsTurn, Misses, TypedButLast, ReflexPass, EarPass, ReflexDone, EarDone, TurnsBack, Blanked,
      NewestLast;
    BlankedIs(points, st);
    var m := |st.order| - 1;
    var r, e := ReflexPass(points, st, m), Built(points, st);
    ReflexPassIs(points, st, m);
    EarPassIs(points, r, m);
    EarPassNewest(points, r, m);
    BuiltSound(points, st, r, e);
    BuiltEarsTurn(points, st, r, e);
    BuiltMisses(points, st, r, e, stale);
    BuiltTyped(points, st, r, e);
    BuiltReflexes(points, st, r);
    BuiltEars(points, st, r, e);
  }

  /** Lists empty, and every vertex but the last Convex, the last at least no Ear. */
  ghost predicate Blanked(points: seq<Vec2>, st: State) {
    && Shaped(points, st) && st.ears == [] && st.reflexes == []
    && (forall i :: 0 <= i < |st.order| - 1 ==> st.kinds[st.order[i]] == Convex)
    && st.kinds[st.order[|st.order| - 1]] != Ear
  }

  lemma BlankedIs(points: seq<Vec2>, st: State)
    requires Blanked(points, st)
    ensures Shaped(points, st) && st.ears == [] && st.reflexes == []
  {}

  /** Both passes, one after the other, over a blank state. */
  ghost predicate Rebuilt(points: seq<Vec2>, st: State, r: State, e: State) {
    && Blanked(points, st) && Shaped(points, r) && Shaped(points, e)
    && ReflexDone(points, st, r, |st.order| - 1) && EarDone(points, r, e, |st.order| - 1)
  }

  lemma BuiltSound(points: seq<Vec2>, st: State, r: State, e: State)
    requires Rebuilt(points, st, r, e)
    ensures Sound(e, |points|)
  {
    hide TurnsClockwise, Corner, IsEarOf, TurnsBack;
    var m := |st.order| - 1;
    forall v
      ensures v in e.ears <==> v in e.order && 0 <= v < |points| && e.kinds[v] == Ear
    {
      if v in e.order {
        var i :| 0 <= i < |st.order| && st.order[i] == v;
        assert r.kinds[st.order[i]] != Ear;
      }
    }
    forall k | 0 <= k < |e.reflexes|
      ensures e.kinds[e.reflexes[k]] == Reflex
    {
      var v := e.reflexes[k];
      assert Tested(st.order, m, v) && r.kinds[v] == Reflex;
      var i :| 0 <= i < m && st.order[i] == v;
      assert st.order[i] !in e.ears;
    }
  }

  lemma BuiltEarsTurn(points: seq<Vec2>, st: State, r: State, e: State)
    requires Rebuilt(points, st, r, e)
    ensures Sound(e, |points|) && EarsTurn(points, e, -1, -1)
  {
    BuiltSound(points, st, r, e);
    hide TurnsClockwise, Corner, IsEarOf, TurnsBack, Sound;
    forall k | 0 <= k < |e.order|
      ensures EarTurns(points, e, k)
    {
      assert e.kinds[st.order[k]] == Ear ==> st.order[k] in e.ears;
    }
  }

  lemma BuiltTyped(points: seq<Vec2>, st: State, r: State, e: State)
    requires Rebuilt(points, st, r, e)
    ensures TypedButLast(points, e)
  {
    hide TurnsClockwise, Corner, IsEarOf, TurnsBack, Tested;
    forall i | 0 <= i < |e.order| - 1
      ensures Typed(points, e, i)
    {
      assert r.kinds[st.order[i]] == ReflexKind(points, st.order, st.kinds, |st.order| - 1, i);
    }
  }

  lemma BuiltMisses(points: seq<Vec2>, st: State, r: State, e: State, stale: int)
    requires Rebuilt(points, st, r, e)
    requires var v := st.order[|st.order| - 1]; stale == if st.kinds[v] == Reflex then v else -1
    ensures Misses(e, stale)
  {
    hide TurnsClockwise, Corner, IsEarOf, TurnsBack;
    var m := |st.order| - 1;
    forall v | 0 <= v
      ensures Unlisted(e, v) <==> v == stale
    {
      if v in e.order {
        var i :| 0 <= i < |st.order| && st.order[i] == v;
        assert r.kinds[st.order[i]] == ReflexKind(points, st.order, st.kinds, m, i);
        assert st.order[i] in e.ears ==> i < m;
        TestedOnce(st.order, |points|, i, m);
        ListedIsTested(points, st, r, i);
      }
    }
  }

  lemma ListedIsTested(points: seq<Vec2>, st: State, r: State, i: int)
    requires Shaped(points, st) && ReflexDone(points, st, r, |st.order| - 1) && 0 <= i < |st.order|
    ensures st.order[i] in r.reflexes ==> Tested(st.order, |st.order| - 1, st.order[i])
  {
    hide TurnsBack, Tested;
    if st.order[i] in r.reflexes {
      var k :| 0 <= k < |r.reflexes| && r.reflexes[k] == st.order[i];
    }
  }

  lemma BuiltReflexes(points: seq<Vec2>, st: State, r: State)
    requires Shaped(points, st) && ReflexDone(points, st, r, |st.order| - 1)
    ensures forall v :: v in r.reflexes <==> TurnsBack(points, st.order, |st.order| - 1, v)
  {
    hide TurnsClockwise, Corner, Tested;
    forall v
      ensures v in r.reflexes <==> TurnsBack(points, st.order, |st.order| - 1, v)
    {
      if v in r.reflexes {
        var k :| 0 <= k < |r.reflexes| && r.reflexes[k] == v;
      }
    }
  }

  lemma BuiltEars(points: seq<Vec2>, st: State, r: State, e: State)
    requires Rebuilt(points, st, r, e)
    ensures forall i :: 0 <= i < |st.order| ==> st.order[i] in e.ears ==> i < |st.order| - 1
  {
    hide IsNewEar, ReflexPassed;
  }

  // ---- Area ----

  function TurnOf(points: seq<Vec2>, t: Triangle): real
    requires 0 <= t.a < |points| && 0 <= t.b < |points| && 0 <= t.c < |points|
  {
    Turn(points[t.a], points[t.b], points[t.c])
  }

  function RingArea(points: seq<Vec2>, order: seq<int>): real
    requires InRange(order, |points|)
  {
    RingSum(At(points, order))
  }

  /** Clipping a corner takes its triangle off the ring's area. */
  lemma ClipArea(points: seq<Vec2>, order: seq<int>, k: int)
    requires InRange(order, |points|) && 0 <= k < |order| && |order| >= 2
    ensures RingArea(points, order) == RingArea(points, Without(order, k)) + TurnOf(points, Corner(order, k))
  {
    var ps := At(points, order);
    ClipCorner(ps, k);
    assert Without(ps, k) == At(points, Without(order, k));
  }

  lemma FlipArea(points: seq<Vec2>, order: seq<int>)
    requires InRange(order, |points|)
    ensures InRange(Reverse(order), |points|) && RingArea(points, Reverse(order)) == -RingArea(points, order)
  {
    var ps := At(points, order);
    RingReverse(ps);
    assert Reverse(ps) == At(points, Reverse(order));
  }
}
