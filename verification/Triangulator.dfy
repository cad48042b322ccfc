/** ImTriangulator: nodes on a circular doubly linked ring, relinked in place, with two unsorted pointer spans. */
module Triangulator {
  import opened Polygon
  import opened EarClipping
  import opened EarRuns

  class TriNode {
    var kind: Kind
    var index: int
    var pos: Vec2
    var next: TriNode?
    var prev: TriNode?

    constructor () {
      kind, index, pos, next, prev := Convex, 0, Vec2(0.0, 0.0), null, null;
    }
  }

  ghost predicate DistinctNodes(all: seq<TriNode>) {
    forall i, j :: 0 <= i < j < |all| ==> all[i] != all[j]
  }

  ghost predicate Numbered(all: seq<TriNode>)
    reads all`index
  {
    forall i :: 0 <= i < |all| ==> all[i].index == i
  }

  /** A fixed-capacity pointer list of which the first `size` slots are in use. */
  class NodeSpan {
    const data: array<TriNode?>
    var size: int

    constructor (capacity: nat)
      ensures size == 0 && data.Length == capacity && fresh(data)
    {
      data := new TriNode?[capacity](_ => null);
      size := 0;
    }

    /** The span lists exactly the nodes numbered `ids`, in that order. */
    ghost predicate Holds(all: seq<TriNode>, ids: seq<int>)
      reads this, data
    {
      && size == |ids| <= data.Length
      && forall k :: 0 <= k < |ids| ==> 0 <= ids[k] < |all| && data[k] == all[ids[k]]
    }

    method PushBack(node: TriNode, ghost all: seq<TriNode>, ghost ids: seq<int>, ghost v: int)
      requires Holds(all, ids) && |ids| < data.Length && 0 <= v < |all| && node == all[v]
      modifies this`size, data
      ensures Holds(all, ids + [v])
    {
      data[size] := node;
      size := size + 1;
    }

    method FindEraseUnsorted(idx: int, ghost all: seq<TriNode>, ghost ids: seq<int>)
      requires Holds(all, ids) && Numbered(all)
      modifies this`size, data
      ensures Holds(all, Erase(ids, idx))
    {
      var i := size - 1;
      while i >= 0
        invariant -1 <= i < size == |ids|
        invariant Holds(all, ids)
        invariant EraseUnsorted(ids, idx, i + 1) == Erase(ids, idx)
      {
        assert data[i] == all[ids[i]];
        if data[i].index == idx {
          data[i] := data[size - 1];
          size := size - 1;
          return;
        }
        i := i - 1;
      }
    }
  }

  /** next and prev of every ring position. */
  ghost predicate Linked(all: seq<TriNode>, order: seq<int>)
    reads all`next, all`prev
  {
    && InRange(order, |all|)
    && (forall k {:trigger all[order[k]].next} :: 0 <= k < |order| ==>
          all[order[k]].next == all[order[After(k, |order|)]])
    && (forall k {:trigger all[order[k]].prev} :: 0 <= k < |order| ==>
          all[order[k]].prev == all[order[Before(k, |order|)]])
  }

  lemma Neighbours(all: seq<TriNode>, order: seq<int>, k: int)
    requires Linked(all, order) && 0 <= k < |order|
    ensures all[order[k]].next == all[order[After(k, |order|)]] && all[order[k]].prev == all[order[Before(k, |order|)]]
  {}

  /** Takes the node at ring position k out of the ring; the rest stays a well-formed cycle. */
  method Unlink(node: TriNode, ghost all: seq<TriNode>, ghost order: seq<int>, ghost k: int)
    requires Linked(all, order) && DistinctNodes(all) && DistinctBelow(order, |all|)
    requires 0 <= k < |order| && |order| >= 3 && node == all[order[k]]
    modifies all`next, all`prev
    ensures Linked(all, Without(order, k))
    ensures node.next == old(node.next) && node.prev == old(node.prev)
  {
    Neighbours(all, order, k);
    node.next.prev := node.prev;
    node.prev.next := node.next;
    assert BridgedNext(all, order, k) && BridgedPrev(all, order, k);
    hide Linked, BridgedNext, BridgedPrev;
    LinkedWithout(all, order, k);
  }

  ghost predicate BridgedNext(all: seq<TriNode>, order: seq<int>, k: int)
    reads all`next
    requires 0 <= k < |order| && InRange(order, |all|)
  {
    forall j {:trigger all[order[j]].next} :: 0 <= j < |order| ==>
      all[order[j]].next == all[order[if j == Before(k, |order|) then After(k, |order|) else After(j, |order|)]]
  }

  ghost predicate BridgedPrev(all: seq<TriNode>, order: seq<int>, k: int)
    reads all`prev
    requires 0 <= k < |order| && InRange(order, |all|)
  {
    forall j {:trigger all[order[j]].prev} :: 0 <= j < |order| ==>
      all[order[j]].prev == all[order[if j == After(k, |order|) then Before(k, |order|) else Before(j, |order|)]]
  }

  /** Where position i of the ring without k was before. */
  function Skip(k: int, i: int): int {
    if i < k then i else i + 1
  }

  /** Neighbours in the shorter ring, seen from the longer one. */
  lemma SkipNeighbours(n: int, k: int, i: int)
    requires 0 <= k < n && n >= 3 && 0 <= i < n - 1
    ensures Skip(k, After(i, n - 1)) == if Skip(k, i) == Before(k, n) then After(k, n) else After(Skip(k, i), n)
    ensures Skip(k, Before(i, n - 1)) == if Skip(k, i) == After(k, n) then Before(k, n) else Before(Skip(k, i), n)
  {}

  lemma NextWithout(all: seq<TriNode>, order: seq<int>, k: int, i: int)
    requires 0 <= k < |order| && |order| >= 3 && InRange(order, |all|) && 0 <= i < |order| - 1
    requires BridgedNext(all, order, k)
    ensures var rest := Without(order, k); all[rest[i]].next == all[rest[After(i, |order| - 1)]]
  {
    SkipNeighbours(|order|, k, i);
    hide After, Before;
    assert Without(order, k)[i] == order[Skip(k, i)];
    assert Without(order, k)[After(i, |order| - 1)] == order[Skip(k, After(i, |order| - 1))];
  }

  lemma PrevWithout(all: seq<TriNode>, order: seq<int>, k: int, i: int)
    requires 0 <= k < |order| && |order| >= 3 && InRange(order, |all|) && 0 <= i < |order| - 1
    requires BridgedPrev(all, order, k)
    ensures var rest := Without(order, k); all[rest[i]].prev == all[rest[Before(i, |order| - 1)]]
  {
    SkipNeighbours(|order|, k, i);
    hide After, Before;
    assert Without(order, k)[i] == order[Skip(k, i)];
    assert Without(order, k)[Before(i, |order| - 1)] == order[Skip(k, Before(i, |order| - 1))];
  }

  lemma LinkedWithout(all: seq<TriNode>, order: seq<int>, k: int)
    requires 0 <= k < |order| && |order| >= 3 && InRange(order, |all|)
    requires BridgedNext(all, order, k) && BridgedPrev(all, order, k)
    ensures Linked(all, Without(order, k))
  {
    hide BridgedNext, BridgedPrev;
    var rest := Without(order, k);
    forall i | 0 <= i < |order| - 1
      ensures all[rest[i]].next == all[rest[After(i, |order| - 1)]]
    {
      NextWithout(all, order, k, i);
    }
    forall i | 0 <= i < |order| - 1
      ensures all[rest[i]].prev == all[rest[Before(i, |order| - 1)]]
    {
      PrevWithout(all, order, k, i);
    }
  }

  // ---- Turning the ring around ----

  /** The first c ring positions already run backwards as a cycle of their own; the others still run forwards. */
  ghost predicate HalfTurned(all: seq<TriNode>, order: seq<int>, c: int)
    reads all`next, all`prev
  {
    && InRange(order, |all|) && 1 <= c <= |order|
    && all[order[0]].next == all[order[c - 1]] && all[order[c - 1]].prev == all[order[0]]
    && (forall j {:trigger all[order[j]].next} :: 1 <= j < c ==> all[order[j]].next == all[order[j - 1]])
    && (forall j {:trigger all[order[j]].prev} :: 0 <= j < c - 1 ==> all[order[j]].prev == all[order[j + 1]])
    && (forall j {:trigger all[order[j]].next} :: c <= j < |order| ==>
          all[order[j]].next == all[order[After(j, |order|)]])
  }

  lemma TurnedNext(all: seq<TriNode>, order: seq<int>, j: int)
    requires HalfTurned(all, order, |order|) && 0 <= j < |order|
    ensures all[order[j]].next == all[order[Before(j, |order|)]]
  {
  }

  lemma TurnedPrev(all: seq<TriNode>, order: seq<int>, j: int)
    requires HalfTurned(all, order, |order|) && 0 <= j < |order|
    ensures all[order[j]].prev == all[order[After(j, |order|)]]
  {
  }

  lemma TurnedAt(all: seq<TriNode>, order: seq<int>, i: int)
    requires HalfTurned(all, order, |order|) && 0 <= i < |order|
    ensures all[Reverse(order)[i]].next == all[Reverse(order)[After(i, |order|)]]
    ensures all[Reverse(order)[i]].prev == all[Reverse(order)[Before(i, |order|)]]
  {
    TurnedRange(all, order);
    TurnedNext(all, order, |order| - 1 - i);
    TurnedPrev(all, order, |order| - 1 - i);
    hide HalfTurned;
  }

  lemma Turned(all: seq<TriNode>, order: seq<int>)
    requires HalfTurned(all, order, |order|)
    ensures Linked(all, Reverse(order))
  {
    forall i | 0 <= i < |order|
      ensures all[Reverse(order)[i]].next == all[Reverse(order)[After(i, |order|)]]
      ensures all[Reverse(order)[i]].prev == all[Reverse(order)[Before(i, |order|)]]
    {
      TurnedAt(all, order, i);
    }
    hide HalfTurned, After, Before;
    assert InRange(Reverse(order), |all|) by { TurnedRange(all, order); }
  }

  lemma TurnedRange(all: seq<TriNode>, order: seq<int>)
    requires HalfTurned(all, order, |order|)
    ensures InRange(Reverse(order), |all|)
  {
  }

  method TurnOne(first: TriNode, prev: TriNode, current: TriNode, ghost all: seq<TriNode>, ghost order: seq<int>,
                 ghost c: int)
    returns (temp: TriNode)
    requires HalfTurned(all, order, c) && c < |order| && DistinctNodes(all) && DistinctBelow(order, |all|)
    requires first == all[order[0]] && prev == all[order[c - 1]] && current == all[order[c]]
    modifies all`next, all`prev
    ensures HalfTurned(all, order, c + 1) && temp == all[order[After(c, |order|)]]
  {
    temp := current.next;
    current.next := prev;
    prev.prev := current;
    first.next := current;
    current.prev := first;
  }

  method FlipNodeList(first: TriNode, ghost all: seq<TriNode>, ghost order: seq<int>) returns (newFirst: TriNode)
    requires Linked(all, order) && DistinctNodes(all) && DistinctBelow(order, |all|)
    requires |order| >= 2 && first == all[order[0]]
    modifies all`next, all`prev
    ensures Linked(all, Reverse(order)) && newFirst == all[Reverse(order)[0]]
  {
    var prev := first;
    var temp := first;
    Neighbours(all, order, 0);
    var current := first.next;
    prev.next := prev;
    prev.prev := prev;
    ghost var c := 1;
    assert HalfTurned(all, order, 1);
    while current != first
      invariant 1 <= c <= |order| && HalfTurned(all, order, c)
      invariant prev == all[order[c - 1]] && current == all[order[if c == |order| then 0 else c]]
      decreases |order| - c
    {
      temp := TurnOne(first, prev, current, all, order, c);
      prev := current;
      current := temp;
      c := c + 1;
    }
    assert c == |order|;
    Turned(all, order);
    newFirst := prev;
  }

  /** Node numbers, positions and kinds. */
  ghost predicate Stored(all: seq<TriNode>, points: seq<Vec2>, kinds: seq<Kind>)
    reads all`index, all`pos, all`kind
  {
    && |all| == |points| == |kinds| && DistinctNodes(all) && Numbered(all)
    && forall i :: 0 <= i < |all| ==> all[i].pos == points[i] && all[i].kind == kinds[i]
  }

  method NewStorage(n: nat) returns (storage: seq<TriNode>)
    ensures |storage| == n && DistinctNodes(storage) && fresh(storage)
  {
    storage := [];
    while |storage| < n
      invariant |storage| <= n && DistinctNodes(storage) && fresh(storage)
    {
      var node := new TriNode();
      storage := storage + [node];
    }
  }

  /** Nodes 0..i are filled in and linked forwards and backwards among themselves. */
  ghost predicate Filled(storage: seq<TriNode>, points: seq<Vec2>, i: int)
    reads storage
  {
    && 0 <= i <= |storage| == |points| && DistinctNodes(storage)
    && (forall j :: 0 <= j < i ==> storage[j].kind == Convex && storage[j].index == j && storage[j].pos == points[j])
    && (forall j {:trigger storage[j].next} :: 0 <= j < i && j + 1 < |storage| ==> storage[j].next == storage[j + 1])
    && (forall j {:trigger storage[j].prev} :: 0 < j < i ==> storage[j].prev == storage[j - 1])
  }

  method FillNode(storage: seq<TriNode>, points: seq<Vec2>, i: int)
    requires Filled(storage, points, i) && i < |points|
    modifies storage[i]
    ensures Filled(storage, points, i + 1)
  {
    var node := storage[i];
    node.kind := Convex;
    node.index := i;
    node.pos := points[i];
    node.next := if i + 1 < |points| then storage[i + 1] else null;
    node.prev := if i > 0 then storage[i - 1] else null;
  }

  method BuildNodes(storage: seq<TriNode>, points: seq<Vec2>)
    requires |storage| == |points| >= 3 && DistinctNodes(storage)
    modifies storage
    ensures Stored(storage, points, AllConvex(|points|)) && Linked(storage, Identity(|points|))
  {
    var n := |points|;
    var i := 0;
    while i < n
      invariant 0 <= i <= n && Filled(storage, points, i)
    {
      FillNode(storage, points, i);
      i := i + 1;
    }
    hide Filled;
    CloseRing(storage, points);
  }

  method CloseRing(storage: seq<TriNode>, points: seq<Vec2>)
    requires Filled(storage, points, |points|) && |points| >= 3
    modifies storage
    ensures Stored(storage, points, AllConvex(|points|)) && Linked(storage, Identity(|points|))
  {
    var n := |storage|;
    storage[0].prev := storage[n - 1];
    storage[n - 1].next := storage[0];
    assert forall j {:trigger storage[j].next} :: 0 <= j < n ==> storage[j].next == storage[After(j, n)];
    assert forall j {:trigger storage[j].prev} :: 0 <= j < n ==> storage[j].prev == storage[Before(j, n)];
    IdentityLinked(storage);
  }

  lemma IdentityLinked(storage: seq<TriNode>)
    requires forall j {:trigger storage[j].next} :: 0 <= j < |storage| ==>
      storage[j].next == storage[After(j, |storage|)]
    requires forall j {:trigger storage[j].prev} :: 0 <= j < |storage| ==>
      storage[j].prev == storage[Before(j, |storage|)]
    ensures Linked(storage, Identity(|storage|))
  {}

  method NodeStorage(points: seq<Vec2>) returns (storage: seq<TriNode>)
    requires |points| >= 3
    ensures Stored(storage, points, AllConvex(|points|)) && Linked(storage, Identity(|points|))
    ensures |storage| == |points| && fresh(storage)
  {
    storage := NewStorage(|points|);
    BuildNodes(storage, points);
  }

  method SetKind(node: TriNode, kind: Kind, ghost all: seq<TriNode>, ghost points: seq<Vec2>, ghost kinds: seq<Kind>,
                 ghost v: int)
    requires Stored(all, points, kinds) && 0 <= v < |all| && node == all[v]
    modifies node`kind
    ensures Stored(all, points, kinds[v := kind])
  {
    node.kind := kind;
  }

  class Triangulator {
    var trianglesLeft: int
    var nodes: TriNode?
    const ears: NodeSpan
    const reflexes: NodeSpan

    ghost var all: seq<TriNode>
    ghost var points: seq<Vec2>
    ghost var st: State
    ghost var stale: int

    ghost predicate Apart()
      reads `all
    {
      && ears != reflexes && ears.data != reflexes.data
      && ears.data.Length == |all| && reflexes.data.Length == |all|
    }

    /** The heap structure says exactly what `st` says. */
    ghost predicate Mirrors()
      reads `nodes, `all, `points, `st, ears, reflexes, ears.data, reflexes.data, all
    {
      && Apart() && Stored(all, points, st.kinds)
      && ears.Holds(all, st.ears) && reflexes.Holds(all, st.reflexes)
      && Linked(all, st.order) && st.order != [] && nodes == all[st.order[0]]
    }

    ghost predicate Valid()
      reads this, ears, reflexes, ears.data, reflexes.data, all
    {
      && Mirrors() && 0 <= trianglesLeft && |st.order| == trianglesLeft + 2
      && Ready(points, st) && Misses(st, stale)
    }

    constructor (pts: seq<Vec2>)
      requires |pts| >= 3
      ensures Mirrors() && points == pts && trianglesLeft == |pts| - 2
      ensures st == Unbuilt(|pts|)
      ensures fresh(ears) && fresh(reflexes) && fresh(ears.data) && fresh(reflexes.data) && fresh(all)
    {
      trianglesLeft := |pts| - 2;
      ears := new NodeSpan(|pts|);
      reflexes := new NodeSpan(|pts|);
      points := pts;
      st := Unbuilt(|pts|);
      stale := -1;
      all := [];
      nodes := null;
      new;
      hide Triangulator.Mirrors, Linked, Stored, DistinctNodes, Identity, AllConvex;
      var storage := NodeStorage(pts);
      nodes := storage[0];
      all := storage;
      MirrorsWhole();
    }

    /** The rest of Init: classify every vertex but the last. */
    method BuildLists()
      requires Mirrors() && |points| >= 3 && trianglesLeft == |points| - 2 && st == Unbuilt(|points|)
      modifies this`st, this`stale, ears`size, ears.data, reflexes`size, reflexes.data, all`kind
      ensures Valid() && st == Start(points) && stale == -1
    {
      hide Triangulator.Mirrors, Ready, ReflexPass, EarPass, Start, Misses, TypedButLast, Shaped;
      StartSteps(points);
      StartMisses(points);
      BuildReflexes();
      BuildEars();
      stale := -1;
    }

    method IsEar(i0: int, i1: int, i2: int, v0: Vec2, v1: Vec2, v2: Vec2) returns (b: bool)
      requires Mirrors() && InRange(st.reflexes, |points|)
      requires 0 <= i0 < |points| && 0 <= i1 < |points| && 0 <= i2 < |points|
      requires v0 == points[i0] && v1 == points[i1] && v2 == points[i2]
      ensures b == IsEarOf(points, st.reflexes, Triangle(i0, i1, i2))
    {
      hide Linked;
      var p := 0;
      while p < reflexes.size
        invariant 0 <= p <= reflexes.size == |st.reflexes|
        invariant forall i :: 0 <= i < p && st.reflexes[i] != i0 && st.reflexes[i] != i1 && st.reflexes[i] != i2
                    ==> !ContainsPoint(v0, v1, v2, points[st.reflexes[i]])
      {
        var reflex := reflexes.data[p];
        assert reflex == all[st.reflexes[p]];
        if reflex.index != i0 && reflex.index != i1 && reflex.index != i2 {
          if ContainsPoint(v0, v1, v2, reflex.pos) {
            return false;
          }
        }
        p := p + 1;
      }
      return true;
    }

    /** Classifies the corner at ring position k. */
    method Classify(n1: TriNode, ghost k: int) returns (kind: Kind)
      requires Mirrors() && Sound(st, |points|) && 0 <= k < |st.order| && n1 == all[st.order[k]]
      ensures kind == KindOf(points, st.reflexes, Corner(st.order, k))
    {
      hide Linked;
      Neighbours(all, st.order, k);
      var n0, n2 := n1.prev, n1.next;
      if !IsClockwise(n0.pos, n1.pos, n2.pos) {
        kind := Reflex;
      } else {
        var ear := IsEar(n0.index, n1.index, n2.index, n0.pos, n1.pos, n2.pos);
        if ear {
          kind := Ear;
        } else {
          kind := Convex;
        }
      }
    }

    method LeaveList(n1: TriNode, ghost v: int)
      requires Apart() && Stored(all, points, st.kinds) && 0 <= v < |all| && n1 == all[v]
      requires ears.Holds(all, st.ears) && reflexes.Holds(all, st.reflexes)
      modifies ears`size, ears.data, reflexes`size, reflexes.data
      ensures reflexes.Holds(all, LeftReflexes(st, v)) && ears.Holds(all, LeftEars(st, v))
    {
      hide Erase;
      if n1.kind == Reflex {
        reflexes.FindEraseUnsorted(n1.index, all, st.reflexes);
      } else if n1.kind == Ear {
        ears.FindEraseUnsorted(n1.index, all, st.ears);
      }
    }

    method EnterList(n1: TriNode, kind: Kind, ghost v: int, ghost e: seq<int>, ghost r: seq<int>)
      requires Apart() && 0 <= v < |all| && n1 == all[v]
      requires ears.Holds(all, e) && reflexes.Holds(all, r)
      requires kind == Ear ==> |e| < |all|
      requires kind == Reflex ==> |r| < |all|
      modifies ears`size, ears.data, reflexes`size, reflexes.data
      ensures ears.Holds(all, if kind == Ear then e + [v] else e)
      ensures reflexes.Holds(all, if kind == Reflex then r + [v] else r)
    {
      if kind == Reflex {
        reflexes.PushBack(n1, all, r, v);
      } else if kind == Ear {
        ears.PushBack(n1, all, e, v);
      }
    }

    /** Moves the node at ring position k between the lists and changes its type. */
    method Retype(n1: TriNode, kind: Kind, ghost k: int)
      requires Mirrors() && Sound(st, |points|) && 0 <= k < |st.order| && n1 == all[st.order[k]] && kind != n1.kind
      requires kind == KindOf(points, st.reflexes, Corner(st.order, k))
      modifies this`st, ears`size, ears.data, reflexes`size, reflexes.data, n1`kind
      ensures Mirrors() && st == Reclassified(points, old(st), k)
    {
      hide Linked, Sound, KindOf, Reclassified, LeftEars, LeftReflexes, NodeSpan.Holds, Corner;
      ghost var v := st.order[k];
      SoundRange(st, |points|);
      assert n1.kind == st.kinds[v];
      Retyped(points, st, k, kind);
      ghost var next, e, r := Reclassified(points, st, k), LeftEars(st, v), LeftReflexes(st, v);
      LeaveList(n1, v);
      EnterList(n1, kind, v, e, r);
      SetKind(n1, kind, all, points, st.kinds, v);
      st := next;
    }

    method ReclassifyNode(n1: TriNode, ghost k: int)
      requires Mirrors() && Sound(st, |points|) && 0 <= k < |st.order| && n1 == all[st.order[k]]
      modifies this`st, ears`size, ears.data, reflexes`size, reflexes.data, n1`kind
      ensures Mirrors() && st == Reclassified(points, old(st), k)
    {
      var kind := Classify(n1, k);
      if kind == n1.kind {
        return;
      }
      Retype(n1, kind, k);
    }
  
    /** One iteration of BuildReflexes. */
    method MarkReflex(n1: TriNode, ghost k: int)
      requires Mirrors() && Shaped(points, st) && 0 <= k < |st.order| && n1 == all[st.order[k]]
      requires |st.reflexes| < |points|
      modifies this`st, reflexes`size, reflexes.data, n1`kind
      ensures Mirrors() && st == ReflexMarked(points, old(st), k)
    {
      hide Linked, IsClockwise;
      Neighbours(all, st.order, k);
      if IsClockwise(n1.prev.pos, n1.pos, n1.next.pos) {
        return;
      }
      ghost var v := st.order[k];
      SetKind(n1, Reflex, all, points, st.kinds, v);
      reflexes.PushBack(n1, all, st.reflexes, v);
      st := st.(kinds := st.kinds[v := Reflex], reflexes := st.reflexes + [v]);
    }

    /** Whether the node at ring position k is Convex and an ear. */
    method NewEar(n1: TriNode, ghost k: int) returns (ear: bool)
      requires Mirrors() && Shaped(points, st) && 0 <= k < |st.order| && n1 == all[st.order[k]]
      ensures 0 <= st.order[k] < |st.kinds| && InRange(st.order, |points|)
      ensures ear <==> st.kinds[st.order[k]] == Convex && IsEarOf(points, st.reflexes, Corner(st.order, k))
    {
      hide Linked, IsEarOf;
      Neighbours(all, st.order, k);
      assert n1.kind == st.kinds[st.order[k]];
      if n1.kind != Convex {
        return false;
      }
      ear := IsEar(n1.prev.index, n1.index, n1.next.index, n1.prev.pos, n1.pos, n1.next.pos);
    }

    /** One iteration of BuildEars. */
    method MarkEar(n1: TriNode, ghost k: int)
      requires Mirrors() && Shaped(points, st) && 0 <= k < |st.order| && n1 == all[st.order[k]]
      requires |st.ears| < |points|
      modifies this`st, ears`size, ears.data, n1`kind
      ensures Mirrors() && st == EarMarked(points, old(st), k)
    {
      hide Linked, IsEarOf, Corner;
      var ear := NewEar(n1, k);
      if !ear {
        return;
      }
      ghost var v := st.order[k];
      SetKind(n1, Ear, all, points, st.kinds, v);
      ears.PushBack(n1, all, st.ears, v);
      st := st.(kinds := st.kinds[v := Ear], ears := st.ears + [v]);
    }

    method FirstNode() returns (node: TriNode)
      requires Mirrors()
      ensures st.order != [] && 0 <= st.order[0] < |all| && node == all[st.order[0]]
    {
      node := nodes;
    }

    /** BuildReflexes has handled the first k ring positions and stands at node n1. */
    ghost predicate TestingTurns(st0: State, k: int, n1: TriNode)
      reads this, ears, reflexes, ears.data, reflexes.data, all
    {
      && Mirrors() && Shaped(points, st0) && st0.reflexes == [] && 0 <= k < |st0.order|
      && st == ReflexPass(points, st0, k) && n1 == all[st.order[k]]
    }

    lemma TestingTurnsAt(st0: State, k: int, n1: TriNode)
      requires TestingTurns(st0, k, n1)
      ensures Mirrors() && Shaped(points, st0) && Shaped(points, st) && 0 <= k < |st0.order| == |st.order|
      ensures st0.reflexes == [] && st == ReflexPass(points, st0, k) && 0 <= st.order[k] < |all|
      ensures n1 == all[st.order[k]]
      ensures k < |st0.order| - 1 ==> |st.reflexes| < |points|
    {
      DistinctLength(st.order, |points|);
    }

    lemma TestingTurnsIs(st0: State, k: int, n1: TriNode)
      requires Mirrors() && Shaped(points, st0) && st0.reflexes == [] && 0 <= k < |st0.order|
      requires st == ReflexPass(points, st0, k) && n1 == all[st.order[k]]
      ensures TestingTurns(st0, k, n1)
    {}

    method MarkReflexNext(n1: TriNode, ghost k: int, ghost st0: State) returns (next: TriNode)
      requires TestingTurns(st0, k, n1) && k < |st0.order| - 1
      modifies this`st, reflexes`size, reflexes.data, all`kind
      ensures TestingTurns(st0, k + 1, next)
    {
      hide Triangulator.Mirrors, Triangulator.TestingTurns, Shaped, ReflexPass;
      TestingTurnsAt(st0, k, n1);
      MarkReflex(n1, k);
      ReflexPassStep(points, st0, k + 1);
      NextOnRing(k);
      next := n1.next;
      TestingTurnsIs(st0, k + 1, next);
    }

    method BuildReflexes()
      requires Mirrors() && Shaped(points, st) && |st.order| == trianglesLeft + 2 && 0 <= trianglesLeft
      requires st.reflexes == []
      modifies this`st, reflexes`size, reflexes.data, all`kind
      ensures Mirrors() && st == ReflexPass(points, old(st), |old(st).order| - 1)
    {
      hide Triangulator.Mirrors, Triangulator.TestingTurns, Shaped, ReflexPass;
      ghost var st0 := st;
      var n1 := FirstNode();
      var i := trianglesLeft;
      NoReflexPass(points, st);
      TestingTurnsIs(st0, 0, n1);
      while i >= 0
        invariant -1 <= i <= trianglesLeft && TestingTurns(st0, trianglesLeft - i, n1)
      {
        n1 := MarkReflexNext(n1, trianglesLeft - i, st0);
        i := i - 1;
      }
      TestingTurnsAt(st0, trianglesLeft + 1, n1);
    }

    /** BuildEars has handled the first k ring positions and stands at node n1. */
    ghost predicate TestingEars(st0: State, k: int, n1: TriNode)
      reads this, ears, reflexes, ears.data, reflexes.data, all
    {
      && Mirrors() && Shaped(points, st0) && st0.ears == [] && 0 <= k < |st0.order|
      && st == EarPass(points, st0, k) && n1 == all[st.order[k]]
    }

    lemma TestingEarsAt(st0: State, k: int, n1: TriNode)
      requires TestingEars(st0, k, n1)
      ensures Mirrors() && Shaped(points, st0) && Shaped(points, st) && 0 <= k < |st0.order| == |st.order|
      ensures st0.ears == [] && st == EarPass(points, st0, k) && 0 <= st.order[k] < |all| && n1 == all[st.order[k]]
      ensures k < |st0.order| - 1 ==> |st.ears| < |points|
    {
      DistinctLength(st.order, |points|);
    }

    lemma TestingEarsIs(st0: State, k: int, n1: TriNode)
      requires Mirrors() && Shaped(points, st0) && st0.ears == [] && 0 <= k < |st0.order|
      requires st == EarPass(points, st0, k) && n1 == all[st.order[k]]
      ensures TestingEars(st0, k, n1)
    {}

    method MarkEarNext(n1: TriNode, ghost k: int, ghost st0: State) returns (next: TriNode)
      requires TestingEars(st0, k, n1) && k < |st0.order| - 1
      modifies this`st, ears`size, ears.data, all`kind
      ensures TestingEars(st0, k + 1, next)
    {
      hide Triangulator.Mirrors, Triangulator.TestingEars, Shaped, EarPass;
      TestingEarsAt(st0, k, n1);
      MarkEar(n1, k);
      EarPassStep(points, st0, k + 1);
      NextOnRing(k);
      next := n1.next;
      TestingEarsIs(st0, k + 1, next);
    }

    method BuildEars()
      requires Mirrors() && Shaped(points, st) && |st.order| == trianglesLeft + 2 && 0 <= trianglesLeft && st.ears == []
      modifies this`st, ears`size, ears.data, all`kind
      ensures Mirrors() && st == EarPass(points, old(st), |old(st).order| - 1)
    {
      hide Triangulator.Mirrors, Triangulator.TestingEars, Shaped, EarPass;
      ghost var st0 := st;
      var n1 := FirstNode();
      var i := trianglesLeft;
      NoEarPass(points, st);
      TestingEarsIs(st0, 0, n1);
      while i >= 0
        invariant -1 <= i <= trianglesLeft && TestingEars(st0, trianglesLeft - i, n1)
      {
        n1 := MarkEarNext(n1, trianglesLeft - i, st0);
        i := i - 1;
      }
      TestingEarsAt(st0, trianglesLeft + 1, n1);
    }

    lemma NextOnRing(k: int)
      requires Mirrors() && 0 <= k < |st.order| - 1
      ensures 0 <= st.order[k] < |all| && 0 <= st.order[k + 1] < |all| && all[st.order[k]].next == all[st.order[k + 1]]
    {
      Neighbours(all, st.order, k);
    }
  
    /** The reset loop has handled the first k ring positions and stands at node n1. */
    ghost predicate Resetting(st0: State, k: int, n1: TriNode)
      reads this, ears, reflexes, ears.data, reflexes.data, all
    {
      && Mirrors() && InRange(st0.order, |st0.kinds|) && 0 <= k < |st0.order|
      && st == ResetPass(st0, k) && n1 == all[st.order[k]]
    }

    lemma ResettingAt(st0: State, k: int, n1: TriNode)
      requires Resetting(st0, k, n1)
      ensures Mirrors() && InRange(st0.order, |st0.kinds|) && 0 <= k < |st0.order| == |st.order|
      ensures st == ResetPass(st0, k) && 0 <= st.order[k] < |all| == |st.kinds| && n1 == all[st.order[k]]
      ensures Stored(all, points, st.kinds)
    {}

    lemma ResettingIs(st0: State, k: int, n1: TriNode)
      requires Mirrors() && InRange(st0.order, |st0.kinds|) && 0 <= k < |st0.order|
      requires st == ResetPass(st0, k) && n1 == all[st.order[k]]
      ensures Resetting(st0, k, n1)
    {}

    method ResetOne(n1: TriNode, ghost k: int)
      requires Mirrors() && 0 <= k < |st.order| && 0 <= st.order[k] < |all| && n1 == all[st.order[k]]
      modifies this`st, n1`kind
      ensures Mirrors() && st == old(st).(kinds := old(st).kinds[old(st).order[k] := Convex])
    {
      hide Linked;
      SetKind(n1, Convex, all, points, st.kinds, st.order[k]);
      st := st.(kinds := st.kinds[st.order[k] := Convex]);
    }

    method ResetNext(n1: TriNode, ghost k: int, ghost st0: State) returns (next: TriNode)
      requires Resetting(st0, k, n1) && k < |st0.order| - 1
      modifies this`st, all`kind
      ensures Resetting(st0, k + 1, next)
    {
      hide Triangulator.Mirrors, Triangulator.Resetting, Stored, ResetPass;
      ResettingAt(st0, k, n1);
      ResetOne(n1, k);
      ResetPassStep(st0, k + 1);
      NextOnRing(k);
      next := n1.next;
      ResettingIs(st0, k + 1, next);
    }

    method ResetTypes()
      requires Mirrors() && InRange(st.order, |st.kinds|) && |st.order| == trianglesLeft + 2 && 0 <= trianglesLeft
      modifies this`st, all`kind
      ensures Mirrors() && st == ResetPass(old(st), |old(st).order| - 1)
    {
      hide Triangulator.Mirrors, Triangulator.Resetting, Stored, ResetPass;
      ghost var st0 := st;
      var node := FirstNode();
      var i := trianglesLeft;
      NoResetPass(st);
      ResettingIs(st0, 0, node);
      while i >= 0
        invariant -1 <= i <= trianglesLeft && Resetting(st0, trianglesLeft - i, node)
      {
        node := ResetNext(node, trianglesLeft - i, st0);
        i := i - 1;
      }
      ResettingAt(st0, trianglesLeft + 1, node);
    }

    method Flip()
      requires Mirrors() && DistinctBelow(st.order, |all|) && |st.order| >= 2
      modifies this`nodes, this`st, all`next, all`prev
      ensures Mirrors() && st == old(st).(order := Reverse(old(st).order))
    {
      hide Linked, Stored, NodeSpan.Holds;
      MirrorsStored();
      nodes := FlipNodeList(nodes, all, st.order);
      st := st.(order := Reverse(st.order));
    }

    lemma MirrorsStored()
      requires Mirrors()
      ensures DistinctNodes(all) && |all| == |points| == |st.kinds|
    {}

    method ClearReflexes()
      requires Mirrors()
      modifies this`st, reflexes`size
      ensures Mirrors() && st == old(st).(reflexes := [])
    {
      hide Linked, Stored;
      reflexes.size := 0;
      st := st.(reflexes := []);
    }

    /** No ear is left: turn the ring around, forget all types but the last, and rebuild both lists. */
    method Refill()
      requires Valid() && st.ears == []
      modifies this`nodes, this`st, this`stale, ears`size, ears.data, reflexes`size, reflexes.data
      modifies all`next, all`prev, all`kind
      ensures Valid() && st == Refilled(points, old(st)) && stale == FirstIfReflex(old(st))
    {
      hide Triangulator.Mirrors, Ready, Misses, TypedButLast, TurnsBack, Shaped, ResetPass, ReflexPass, EarPass,
        Refilled;
      hide Blank, DistinctBelow;
      ghost var st0 := st;
      ValidAt();
      BlankSteps(points, st0);
      RefilledSteps(points, st0);
      RefilledIs(points, st0);
      Flip();
      ResetTypes();
      ClearReflexes();
      BuildReflexes();
      BuildEars();
      stale := FirstIfReflex(st0);
    }

    lemma ValidAt()
      requires Valid()
      ensures Mirrors() && Ready(points, st) && DistinctBelow(st.order, |all|) && |st.order| == trianglesLeft + 2
      ensures 0 <= trianglesLeft && Misses(st, stale)
    {}
  
    /** Sees to it that an ear is listed; when even rebuilding finds none, lists the first node as it is. */
    method OfferEar()
      requires Valid() && trianglesLeft > 0
      modifies this`nodes, this`st, this`stale, ears`size, ears.data, reflexes`size, reflexes.data
      modifies all`next, all`prev, all`kind
      ensures Mirrors() && st == Offered(Base(points, old(st)))
      ensures stale == StaleBase(old(st), old(stale)) && Misses(Base(points, old(st)), stale)
    {
      hide Triangulator.Mirrors, Ready, Refilled, Misses;
      ValidAt();
      var size := EarCount();
      if size == 0 {
        Refill();
        ValidAt();
        size := EarCount();
        if size == 0 {
          PushFallback();
        }
      }
    }

    /** Takes the last listed ear off its list. */
    method PickEar() returns (ear: TriNode)
      requires Valid() && trianglesLeft > 0
      modifies this`nodes, this`st, this`stale, ears`size, ears.data, reflexes`size, reflexes.data
      modifies all`next, all`prev, all`kind
      ensures Mirrors() && stale == StaleBase(old(st), old(stale))
      ensures var base := Base(points, old(st));
        && st == base.(ears := EarsLeft(base)) && Misses(base, stale) && |base.order| == trianglesLeft + 2
        && 0 <= base.order[Pick(points, base)] < |all| && ear == all[base.order[Pick(points, base)]]
    {
      hide Triangulator.Mirrors, Ready, Base, Misses, Pick, EarsLeft;
      ValidAt();
      PickIs(points, Base(points, st));
      OfferEar();
      ear := PopEar();
    }

    method EarCount() returns (size: int)
      requires Mirrors()
      ensures size == |st.ears|
    {
      size := ears.size;
    }

    /** Geometry is degenerate: list the first node although it is no ear. */
    method PushFallback()
      requires Mirrors() && st.ears == [] && |all| > 0
      modifies this`st, ears`size, ears.data
      ensures Mirrors() && st == old(st).(ears := [old(st).order[0]])
    {
      hide Linked, Stored;
      var first := FirstNode();
      ears.data[0] := first;
      ears.size := 1;
      st := st.(ears := [st.order[0]]);
    }

    method PopEar() returns (ear: TriNode)
      requires Mirrors() && st.ears != []
      modifies this`st, ears`size
      ensures Mirrors() && st == old(st).(ears := old(st).ears[..|old(st).ears| - 1])
      ensures 0 <= old(st).ears[|old(st).ears| - 1] < |all| && ear == all[old(st).ears[|old(st).ears| - 1]]
    {
      hide Linked, Stored;
      ears.size := ears.size - 1;
      ear := ears.data[ears.size];
      st := st.(ears := st.ears[..|st.ears| - 1]);
    }
  
    /** Unlinks the node at ring position k and moves the first-node pointer off it. */
    method Cut(ear: TriNode, ghost k: int)
      requires Mirrors() && DistinctBelow(st.order, |all|) && 0 <= k < |st.order| && |st.order| >= 3
      requires ear == all[st.order[k]]
      modifies this`nodes, this`st, all`next, all`prev
      ensures Mirrors() && st == Clipped(old(st), k, old(st).ears)
      ensures 0 <= st.order[Seam(k, |st.order|)] < |all| && ear.next == all[st.order[Seam(k, |st.order|)]]
      ensures 0 <= st.order[Before(Seam(k, |st.order|), |st.order|)] < |all|
      ensures ear.prev == all[st.order[Before(Seam(k, |st.order|), |st.order|)]]
    {
      hide Stored, NodeSpan.Holds, Triangulator.Mirrors;
      CutFacts(k);
      CutOut(ear, k);
    }

    /** Who stands around the gap before it is made. */
    lemma CutFacts(k: int)
      requires Mirrors() && DistinctBelow(st.order, |all|) && 0 <= k < |st.order| && |st.order| >= 3
      ensures 0 <= st.order[k] < |all|
      ensures
        var order := Without(st.order, k);
        var q := Seam(k, |order|);
        && 0 <= order[q] < |all| && all[st.order[k]].next == all[order[q]]
        && 0 <= order[Before(q, |order|)] < |all| && all[st.order[k]].prev == all[order[Before(q, |order|)]]
    {
      Neighbours(all, st.order, k);
      SeamNeighbours(st.order, k);
    }

    method CutOut(ear: TriNode, ghost k: int)
      requires Mirrors() && DistinctBelow(st.order, |all|) && 0 <= k < |st.order| && |st.order| >= 3
      requires ear == all[st.order[k]]
      modifies this`nodes, this`st, all`next, all`prev
      ensures Mirrors() && st == Clipped(old(st), k, old(st).ears)
      ensures ear.next == old(ear.next) && ear.prev == old(ear.prev)
    {
      hide Stored, NodeSpan.Holds, Linked, Triangulator.Mirrors, Triangulator.Apart, DistinctNodes, DistinctBelow;
      MirrorsStored();
      MirrorsParts();
      FirstAfterCut(k);
      ghost var first := all[Without(st.order, k)[0]];
      Unlink(ear, all, st.order, k);
      if ear == nodes {
        nodes := ear.next;
      }
      st := Clipped(st, k, st.ears);
      assert nodes == first;
      MirrorsWhole();
    }

    lemma MirrorsParts()
      requires Mirrors()
      ensures Apart() && Stored(all, points, st.kinds) && ears.Holds(all, st.ears) && reflexes.Holds(all, st.reflexes)
      ensures Linked(all, st.order) && st.order != [] && 0 <= st.order[0] < |all| && nodes == all[st.order[0]]
    {}

    lemma MirrorsWhole()
      requires Apart() && Stored(all, points, st.kinds) && ears.Holds(all, st.ears) && reflexes.Holds(all, st.reflexes)
      requires Linked(all, st.order) && st.order != [] && 0 <= st.order[0] < |all| && nodes == all[st.order[0]]
      ensures Mirrors()
    {}

    /** The ring starts where it did, or behind the cut when that was its start. */
    lemma FirstAfterCut(k: int)
      requires Mirrors() && DistinctBelow(st.order, |all|) && 0 <= k < |st.order| && |st.order| >= 3
      ensures 0 <= Without(st.order, k)[0] < |all| && 0 <= st.order[k] < |all|
      ensures nodes == all[st.order[k]] <==> k == 0
      ensures k == 0 ==> all[st.order[k]].next == all[Without(st.order, k)[0]]
      ensures k != 0 ==> nodes == all[Without(st.order, k)[0]]
    {
      MirrorsStored();
      Neighbours(all, st.order, k);
    }

    /** Clips the picked corner and reclassifies its two former neighbours. */
    method ClipEar(ear: TriNode, ghost base: State)
      requires Mirrors() && Ready(points, base) && st == base.(ears := EarsLeft(base)) && Misses(base, stale)
      requires trianglesLeft > 0 && |base.order| == trianglesLeft + 2
      requires 0 <= base.order[Pick(points, base)] < |all| && ear == all[base.order[Pick(points, base)]]
      modifies this`trianglesLeft, this`nodes, this`st, this`stale, ears`size, ears.data, reflexes`size, reflexes.data
      modifies all`next, all`prev, all`kind
      ensures Valid() && trianglesLeft == old(trianglesLeft) - 1 && st == AfterCut(points, base, Pick(points, base))
    {
      hide Triangulator.Mirrors, Ready, Sound, Popped, Reclassified, Clipped, Misses, Pick, AfterCut, Typed, StaleCut;
      ghost var k := Pick(points, base);
      ghost var q, m := Seam(k, trianglesLeft + 1), trianglesLeft + 1;
      ReadyIs(points, base);
      MirrorsStored();
      AfterSteps(points, base, k);
      AfterMisses(points, base, k, stale);
      ClippedIs(base, k, st.ears);
      ClippedIs(st, k, st.ears);
      Cut(ear, k);
      ReclassifyNode(ear.prev, Before(q, m));
      ReclassifyNode(ear.next, q);
      trianglesLeft := trianglesLeft - 1;
      stale := StaleCut(points, base.order, k, stale);
    }

    /** Pops one triangle. */
    method GetNextTriangle() returns (out: Triangle)
      requires Valid() && trianglesLeft > 0
      modifies this`trianglesLeft, this`nodes, this`st, this`stale, ears`size, ears.data, reflexes`size, reflexes.data
      modifies all`next, all`prev, all`kind
      ensures Valid() && trianglesLeft == old(trianglesLeft) - 1
      ensures out == ClipOf(points, old(st)).t && st == Next(points, old(st))
    {
      hide Triangulator.Mirrors, Ready, Sound, Popped, Misses, AfterCut, Base, Pick;
      ValidAt();
      ghost var base := Base(points, st);
      var ear := PickEar();
      out := CornerOf(ear, Pick(points, base));
      ClipEar(ear, base);
    }

    method CornerOf(ear: TriNode, ghost k: int) returns (out: Triangle)
      requires Mirrors() && 0 <= k < |st.order| && 0 <= st.order[k] < |all| && ear == all[st.order[k]]
      ensures out == Corner(st.order, k)
    {
      Neighbours(all, st.order, k);
      out := Triangle(ear.prev.index, ear.index, ear.next.index);
    }
  }

  /** The triangulation loop of AddConcavePolyFilled. */
  method TakeAll(triangulator: Triangulator) returns (tris: seq<Triangle>)
    requires triangulator.Valid() && |triangulator.points| >= 3 && triangulator.st == Start(triangulator.points)
    requires triangulator.trianglesLeft == |triangulator.points| - 2
    modifies triangulator`trianglesLeft, triangulator`nodes, triangulator`st, triangulator`stale
    modifies triangulator.ears`size, triangulator.ears.data, triangulator.reflexes`size, triangulator.reflexes.data
    modifies triangulator.all`next, triangulator.all`prev, triangulator.all`kind
    ensures |tris| == |triangulator.points| - 2
    ensures forall i :: 0 <= i < |tris| ==> tris[i] == ClipAt(triangulator.points, i).t
  {
    hide Triangulator.Valid, Triangulator.Mirrors, Next, Start, StateAt, ClipAt, ClipOf, Ready, InRange;
    ghost var points := triangulator.points;
    StateStart(points);
    tris := [];
    while triangulator.trianglesLeft > 0
      invariant triangulator.Valid() && |tris| == |points| - 2 - triangulator.trianglesLeft <= |points| - 2
      invariant triangulator.st == StateAt(points, |tris|)
      invariant forall i :: 0 <= i < |tris| ==> tris[i] == ClipAt(points, i).t
    {
      StateStep(points, |tris|);
      var out := triangulator.GetNextTriangle();
      tris := tris + [out];
    }
    triangulator.ValidAt();
  }

  /** Triangulates any polygon of at least three points. */
  method Triangulate(points: seq<Vec2>) returns (tris: seq<Triangle>)
    requires |points| >= 3
    ensures |tris| == |points| - 2 && forall i :: 0 <= i < |tris| ==> tris[i] == ClipAt(points, i).t
    ensures Proper(points, |tris|) && TipsApart(points, |tris|) && MakesUp(points, |tris|)
  {
    hide Triangulator.Valid, Triangulator.Mirrors, Start, StateAt, ClipAt, Ready, Proper, TipsApart, MakesUp;
    var triangulator := new Triangulator(points);
    triangulator.BuildLists();
    tris := TakeAll(triangulator);
    ClipsAre(points);
  }
}
