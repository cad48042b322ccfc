/** The skyline packer of imstb_rectpack.h: heap nodes spliced in place between an active list and a free list. */
module RectPack {
  import opened SkylineColumns
  import opened SkylinePoints

  const MAXVAL: int := 0x7fff_ffff

  datatype Heuristic = SkylineBottomLeft | SkylineBestFit

  class Node {
    var x: int
    var y: int
    var next: Node?

    constructor () {
      x, y, next := 0, 0, null;
    }
  }

  /** A pointer to a link field: the context's active_head, or some node's next. `Missing` is NULL. */
  datatype Link = Missing | ActiveHead | NextOf(node: Node)

  datatype FindResult = FindResult(x: int, y: int, link: Link)

  /** The node at position i, or null past the end. */
  function NodeAt(nodes: seq<Node>, i: int): Node? {
    if 0 <= i < |nodes| then nodes[i] else null
  }

  ghost predicate Chain(nodes: seq<Node>)
    reads nodes
  {
    forall i {:trigger nodes[i].next} :: 0 <= i < |nodes| ==> nodes[i].next == NodeAt(nodes, i + 1)
  }

  ghost predicate ChainFrom(nodes: seq<Node>, m: int)
    reads nodes
  {
    forall i {:trigger nodes[i].next} :: 0 <= m <= i < |nodes| ==> nodes[i].next == NodeAt(nodes, i + 1)
  }

  lemma PushChain(n: Node, nodes: seq<Node>)
    requires Chain(nodes) && HeadIs(n.next, nodes)
    ensures Chain([n] + nodes)
  {
    forall i | 0 < i < |nodes| + 1
      ensures ([n] + nodes)[i].next == if i < |nodes| then nodes[i] else null
    {
      assert ([n] + nodes)[i] == nodes[i - 1];
    }
  }

  lemma NextInChain(nodes: seq<Node>, i: int)
    requires Chain(nodes) && 0 <= i < |nodes|
    ensures nodes[i].next == if i + 1 < |nodes| then nodes[i + 1] else null
  {}

  ghost predicate Distinct(nodes: seq<Node>) {
    forall i, j :: 0 <= i < j < |nodes| ==> nodes[i] != nodes[j]
  }

  ghost predicate Apart(a: seq<Node>, b: seq<Node>) {
    forall i, j :: 0 <= i < |a| && 0 <= j < |b| ==> a[i] != b[j]
  }

  ghost predicate ApartFrom(a: seq<Node>, m: int, b: seq<Node>) {
    forall i, j :: 0 <= m <= i < |a| && 0 <= j < |b| ==> a[i] != b[j]
  }

  ghost predicate HeadIs(head: Node?, nodes: seq<Node>) {
    head == if nodes == [] then null else nodes[0]
  }

  /** The nodes hold exactly these points. */
  ghost predicate Mirrors(nodes: seq<Node>, line: seq<Point>)
    reads nodes
  {
    |nodes| == |line| && forall i :: 0 <= i < |nodes| ==> nodes[i].x == line[i].x && nodes[i].y == line[i].y
  }

  lemma DivBounds(a: int, n: int)
    requires 0 < n <= a
    ensures n * (a / n) <= a < n * (a / n) + n && 0 < a / n && (a / n == 1 <==> a < 2 * n)
    ensures n * (a / n - 1) == n * (a / n) - n
  {
    assert a == n * (a / n) + a % n;
    ProductOrder(n, a / n, 0);
    ProductOrder(n, 2, a / n);
  }

  lemma ProductOrder(n: int, x: int, y: int)
    requires 0 < n
    ensures x <= y ==> n * x <= n * y
  {}

  /** The quantum of the widths: the least multiple count with n quanta covering w columns. */
  function CeilDiv(w: int, n: int): (r: int)
    requires 0 < n && 0 < w
    ensures 0 < r && (r == 1 <==> w <= n)
    ensures n * (r - 1) < w <= n * r
  {
    DivBounds(w + n - 1, n);
    (w + n - 1) / n
  }

  /** Targets on which packing may be refused for want of a node although there is room: fewer nodes than columns and a
      second row, or a single row in which nodes and quantum together leave room. */
  predicate NodesCanRunOut(width: int, height: int, align: int, numNodes: int) {
    numNodes < width && (height >= 2 || (height == 1 && numNodes + align <= width))
  }

  /** A rounded width is at least the quantum. */
  lemma RoundUpAtLeast(w: int, align: int)
    requires 0 < w && 0 < align
    ensures RoundUp(w, align) >= align
  {
    var r := RoundUp(w, align);
    assert r == align * (r / align) + r % align;
    ProductOrder(align, r / align, 0);
    ProductOrder(align, 1, r / align);
  }

  /** The width a search really asks for. */
  function RoundUp(w: int, align: int): (r: int)
    requires 0 < w && 0 < align
    ensures w <= r < w + align && r % align == 0
    ensures align == 1 ==> r == w
  {
    RoundDownIsMultiple(w + align - 1, align);
    w + align - 1 - (w + align - 1) % align
  }

  lemma SmallMultipleIsZero(t: int, d: int)
    requires 0 < d && 0 <= t * d < d
    ensures t == 0
  {
  }

  lemma RoundDownIsMultiple(a: int, d: int)
    requires 0 < d
    ensures (a - a % d) % d == 0
  {
    var b := a - a % d;
    var q, k := a / d, b / d;
    assert a == q * d + a % d;
    assert b == k * d + b % d;
    assert (q - k) * d == q * d - k * d;
    SmallMultipleIsZero(q - k, d);
  }

  ghost predicate LinkAt(active: seq<Node>, link: Link, k: int) {
    (k == 0 && link == ActiveHead) || (0 < k < |active| && link == NextOf(active[k - 1]))
  }

  /** A candidate position: resting height, reported waste, x. */
  datatype Choice = Choice(y: int, waste: int, x: int) {
    /** The bottom-left order. */
    predicate LowerLeft(c: Choice) {
      y < c.y || (y == c.y && x <= c.x)
    }

    /** The best-fit order. */
    predicate TighterFit(c: Choice) {
      y < c.y || (y == c.y && (waste < c.waste || (waste == c.waste && x <= c.x)))
    }
  }

  ghost function ChoiceAt(s: seq<Point>, width: int, w: int, x: int): Choice
    requires Skyline(s, width) && 0 <= x && 0 < w && x + w <= width
  {
    var p := Probe(s, width, x, w);
    Choice(p.minY, p.waste, x)
  }

  lemma ChoiceIsScan(s: seq<Point>, width: int, w: int, x: int, k: nat)
    requires Skyline(s, width) && 0 <= x && 0 < w && x + w <= width
    requires k < |s| - 1 && s[k].x <= x < s[k + 1].x
    ensures var r := ScanFrom(s, k, x, w, START); ChoiceAt(s, width, w, x) == Choice(r.minY, r.waste, x)
  {
    LocateIs(s, width, x, k);
  }

  /** What the search has established about a set of candidate positions: nothing usable among them,
      or `c` is the best of those that are usable. */
  ghost predicate Settled(heur: Heuristic, found: bool, c: Choice, h: int, height: int, d: Choice) {
    match heur
    case SkylineBottomLeft => if found then c.LowerLeft(d) else d.y >= TOP
    case SkylineBestFit => d.y + h <= height ==> found && c.TighterFit(d)
  }

  /** One step of the search keeps the old choice or replaces it by a strictly better one. */
  ghost predicate Steps(heur: Heuristic, found: bool, c: Choice, h: int, height: int, found': bool, c': Choice,
                        d: Choice)
  {
    match heur
    case SkylineBottomLeft =>
      if d.y < (if found then c.y else TOP) then found' && c'.y == d.y && c'.x == d.x
      else found' == found && c' == c
    case SkylineBestFit =>
      if d.y + h <= height && (!found || !c.TighterFit(d)) then found' && c' == d
      else found' == found && c' == c
  }

  lemma StepKeeps(heur: Heuristic, found: bool, c: Choice, h: int, height: int, found': bool, c': Choice, d: Choice,
                  e: Choice)
    requires Steps(heur, found, c, h, height, found', c', d)
    requires heur == SkylineBottomLeft ==> (found ==> c.y < TOP && c.x <= d.x)
    ensures Settled(heur, found, c, h, height, e) ==> Settled(heur, found', c', h, height, e)
    ensures Settled(heur, found', c', h, height, d)
  {}

  ghost predicate LeftSettled(s: seq<Point>, width: int, n: int, heur: Heuristic, found: bool, c: Choice,
                              w: int, h: int, height: int)
    requires Skyline(s, width) && 0 < w
  {
    forall i :: 0 <= i < |s| && i < n && s[i].x + w <= width
      ==> Settled(heur, found, c, h, height, ChoiceAt(s, width, w, s[i].x))
  }

  lemma NothingTried(s: seq<Point>, width: int, heur: Heuristic, found: bool, c: Choice, w: int, h: int, height: int)
    requires Skyline(s, width) && 0 < w
    ensures LeftSettled(s, width, 0, heur, found, c, w, h, height)
  {}

  lemma LeftStep(s: seq<Point>, width: int, n: nat, heur: Heuristic, found: bool, c: Choice, found': bool, c': Choice,
                 w: int, h: int, height: int)
    requires Skyline(s, width) && 0 < w && n < |s| && s[n].x + w <= width
    requires LeftSettled(s, width, n, heur, found, c, w, h, height)
    requires Steps(heur, found, c, h, height, found', c', ChoiceAt(s, width, w, s[n].x))
    requires heur == SkylineBottomLeft ==> (found ==> c.y < TOP && c.x <= s[n].x)
    ensures LeftSettled(s, width, n + 1, heur, found', c', w, h, height)
  {
    hide Settled, Steps, ChoiceAt;
    forall i | 0 <= i < n + 1 && s[i].x + w <= width
      ensures Settled(heur, found', c', h, height, ChoiceAt(s, width, w, s[i].x))
    {
      ChoiceColumn(s, width, w, s[n].x);
      ChoiceColumn(s, width, w, s[i].x);
      StepKeeps(heur, found, c, h, height, found', c', ChoiceAt(s, width, w, s[n].x), ChoiceAt(s, width, w, s[i].x));
    }
  }

  lemma ChoiceColumn(s: seq<Point>, width: int, w: int, x: int)
    requires Skyline(s, width) && 0 < w && 0 <= x && x + w <= width
    ensures ChoiceAt(s, width, w, x).x == x
  {}

  /** Nodes after the first one without room have no room either. */
  lemma LeftDone(s: seq<Point>, width: int, n: nat, heur: Heuristic, found: bool, c: Choice, w: int, h: int,
                 height: int)
    requires Skyline(s, width) && 0 < w && n < |s| && s[n].x + w > width
    requires LeftSettled(s, width, n, heur, found, c, w, h, height)
    ensures LeftSettled(s, width, |s|, heur, found, c, w, h, height)
  {
    forall i | n <= i < |s|
      ensures s[i].x + w > width
    {
      assert n < i ==> s[n].x < s[i].x;
    }
  }

  ghost predicate RightSettled(s: seq<Point>, width: int, n: int, found: bool, c: Choice, w: int, h: int, height: int)
    requires Skyline(s, width) && 0 < w
  {
    forall i :: 0 <= i < |s| && i < n && s[i].x - w >= 0
      ==> Settled(SkylineBestFit, found, c, h, height, ChoiceAt(s, width, w, s[i].x - w))
  }

  /** Tails before the first one at or beyond w leave no room on their left. */
  lemma RightStart(s: seq<Point>, width: int, n: nat, found: bool, c: Choice, w: int, h: int, height: int)
    requires Skyline(s, width) && 0 < w && n <= |s|
    requires forall i :: 0 <= i < n ==> s[i].x < w
    ensures RightSettled(s, width, n, found, c, w, h, height)
  {}

  lemma RightStep(s: seq<Point>, width: int, n: nat, found: bool, c: Choice, found': bool, c': Choice,
                  w: int, h: int, height: int)
    requires Skyline(s, width) && 0 < w && n < |s| && s[n].x - w >= 0
    requires RightSettled(s, width, n, found, c, w, h, height)
    requires LeftSettled(s, width, |s|, SkylineBestFit, found, c, w, h, height)
    requires Steps(SkylineBestFit, found, c, h, height, found', c', ChoiceAt(s, width, w, s[n].x - w))
    ensures RightSettled(s, width, n + 1, found', c', w, h, height)
    ensures LeftSettled(s, width, |s|, SkylineBestFit, found', c', w, h, height)
  {
    hide Settled, Steps, ChoiceAt;
    var d := ChoiceAt(s, width, w, s[n].x - w);
    forall i | 0 <= i < n + 1 && s[i].x - w >= 0
      ensures Settled(SkylineBestFit, found', c', h, height, ChoiceAt(s, width, w, s[i].x - w))
    {
      StepKeeps(SkylineBestFit, found, c, h, height, found', c', d, ChoiceAt(s, width, w, s[i].x - w));
    }
    forall i | 0 <= i < |s| && s[i].x + w <= width
      ensures Settled(SkylineBestFit, found', c', h, height, ChoiceAt(s, width, w, s[i].x))
    {
      StepKeeps(SkylineBestFit, found, c, h, height, found', c', d, ChoiceAt(s, width, w, s[i].x));
    }
  }

  ghost predicate Beats(s: seq<Point>, width: int, w: int, h: int, height: int, x: int, x': int)
    requires Skyline(s, width) && 0 < w && Candidate(s, width, w, x) && Candidate(s, width, w, x')
  {
    ChoiceAt(s, width, w, x').y + h <= height ==> ChoiceAt(s, width, w, x).TighterFit(ChoiceAt(s, width, w, x'))
  }

  /** No fitting candidate, left- or right-aligned, is lower, or as low with less reported waste, or equal and further
      left. */
  ghost predicate BestFit(s: seq<Point>, width: int, w: int, h: int, height: int, x: int) {
    && Skyline(s, width) && 0 < w && Candidate(s, width, w, x)
    && forall x' :: Candidate(s, width, w, x') ==> Beats(s, width, w, h, height, x, x')
  }

  lemma NeverFits(sky: seq<int>, w: int, h: int, height: int)
    requires w > |sky| || h > height
    ensures !FitsSomewhere(sky, w, h, height)
  {}

  /** When no node gives room under the height limit, no column does. */
  lemma NothingFits(s: seq<Point>, sky: seq<int>, heur: Heuristic, c: Choice, w: int, h: int, height: int)
    requires Draws(s, sky) && (forall i :: 0 <= i < |sky| ==> 0 <= sky[i]) && 0 < w && 0 < h && height <= TOP
    requires LeftSettled(s, |sky|, |s|, heur, false, c, w, h, height)
    ensures !FitsSomewhere(sky, w, h, height)
  {
    if FitsSomewhere(sky, w, h, height) {
      var x :| FitsAt(sky, w, h, height, x);
      var i := Locate(s, |sky|, x);
      NodeIsNoWorse(s, sky, x, w);
      ProbeIsRest(s, sky, s[i].x, w);
    }
  }

  lemma LeftIsBottomLeft(s: seq<Point>, sky: seq<int>, y: int, waste: int, w: int, h: int, height: int, k: int)
    requires Draws(s, sky) && (forall i :: 0 <= i < |sky| ==> 0 <= sky[i]) && 0 < w
    requires 0 <= k < |s| && 0 <= s[k].x && s[k].x + w <= |sky| && ChoiceAt(s, |sky|, w, s[k].x).y == y
    requires LeftSettled(s, |sky|, |s|, SkylineBottomLeft, true, Choice(y, waste, s[k].x), w, h, height)
    ensures BottomLeft(sky, w, s[k].x, y)
  {
    ProbeIsRest(s, sky, s[k].x, w);
    forall x' | 0 <= x' <= |sky| - w
      ensures AtLeftMost(sky, w, s[k].x, y, x')
    {
      var j := Locate(s, |sky|, x');
      NodeIsNoWorse(s, sky, x', w);
      ProbeIsRest(s, sky, s[j].x, w);
      assert Settled(SkylineBottomLeft, true, Choice(y, waste, s[k].x), h, height, ChoiceAt(s, |sky|, w, s[j].x));
    }
  }

  lemma SegmentOf(s: seq<Point>, width: int, w: int, x: int, k: int)
    requires Skyline(s, width) && 0 <= k < |s| - 1 && s[k].x <= x < s[k + 1].x && 0 < w
    requires Candidate(s, width, w, x)
    ensures s[k].x == x || s[k + 1].x <= x + w
  {
    if i :| 0 <= i < |s| && s[i].x == x {
      assert i == k;
    } else {
      var t :| 0 <= t < |s| && s[t].x == x + w;
      assert t > k;
    }
  }

  lemma SettledIsBestFit(s: seq<Point>, width: int, w: int, h: int, height: int, c: Choice)
    requires Skyline(s, width) && 0 < w && Candidate(s, width, w, c.x) && ChoiceAt(s, width, w, c.x) == c
    requires LeftSettled(s, width, |s|, SkylineBestFit, true, c, w, h, height)
    requires RightSettled(s, width, |s|, true, c, w, h, height)
    ensures BestFit(s, width, w, h, height, c.x)
  {
    hide ChoiceAt;
    forall x' | Candidate(s, width, w, x')
      ensures Beats(s, width, w, h, height, c.x, x')
    {
      if i :| 0 <= i < |s| && s[i].x == x' {
        assert Settled(SkylineBestFit, true, c, h, height, ChoiceAt(s, width, w, s[i].x));
      } else {
        var t :| 0 <= t < |s| && s[t].x == x' + w;
        assert Settled(SkylineBestFit, true, c, h, height, ChoiceAt(s, width, w, s[t].x - w));
      }
    }
  }

  /** Right-aligned candidates never rest lower than the best left-aligned one, so the best-fit height is the least
      over all columns. */
  lemma SettledIsLowest(s: seq<Point>, sky: seq<int>, w: int, h: int, height: int, c: Choice)
    requires Draws(s, sky) && (forall i :: 0 <= i < |sky| ==> 0 <= sky[i])
    requires 0 < w && 0 <= c.x && c.x + w <= |sky| && ChoiceAt(s, |sky|, w, c.x) == c && c.y + h <= height
    requires LeftSettled(s, |sky|, |s|, SkylineBestFit, true, c, w, h, height)
    ensures LowestRest(sky, w, c.x, c.y)
  {
    ProbeIsRest(s, sky, c.x, w);
    forall x' | 0 <= x' <= |sky| - w
      ensures c.y <= Rest(sky, x', w)
    {
      var j := Locate(s, |sky|, x');
      NodeIsNoWorse(s, sky, x', w);
      ProbeIsRest(s, sky, s[j].x, w);
      assert Settled(SkylineBestFit, true, c, h, height, ChoiceAt(s, |sky|, w, s[j].x));
    }
  }

  /** The points draw the columns, the columns stay within the target, and the placed boxes are a packing under them. */
  ghost predicate Packed(s: seq<Point>, sky: seq<int>, placed: seq<Box>, height: int) {
    && Draws(s, sky) && OneFloor(s) && (forall c :: 0 <= c < |sky| ==> 0 <= sky[c] <= height)
    && Packing(placed, |sky|, height) && Covers(sky, placed)
  }

  class Context {
    var width: int
    var height: int
    var align: int
    var heuristic: Heuristic
    var numNodes: int
    var activeHead: Node?
    var freeHead: Node?
    const extra0: Node
    const extra1: Node

    ghost var active: seq<Node>
    ghost var free: seq<Node>
    ghost var nodes: set<Node>
    ghost var line: seq<Point>
    ghost var sky: seq<int>
    ghost var placed: seq<Box>

    /** The active list, from its head, holds the points of `line`. */
    ghost predicate Threaded()
      reads `activeHead, `active, `line, active
    {
      HeadIs(activeHead, active) && Chain(active) && Mirrors(active, line)
    }

    ghost predicate Owned(list: seq<Node>)
      reads `nodes
    {
      forall i :: 0 <= i < |list| ==> list[i] in nodes
    }

    /** Both lists are acyclic, share no node, and together hold every node the context was given. */
    ghost predicate Linked()
      reads `activeHead, `freeHead, `active, `free, `nodes, `line, `numNodes, active, free
    {
      && Threaded() && Distinct(active) && Owned(active) && Owned(free)
      && HeadIs(freeHead, free) && Chain(free) && Distinct(free)
      && Apart(active, free)
      && |active| + |free| == numNodes + 2
    }

    ghost predicate Valid()
      reads this, active, free
    {
      && 0 < numNodes && 0 < width <= MAXVAL && 0 <= height <= TOP
      && 0 < align && (align != 1 ==> numNodes < width)
      && Linked()
      && |sky| == width && Packed(line, sky, placed, height)
    }

    constructor ()
      ensures fresh(extra0) && fresh(extra1) && extra0 != extra1
    {
      width, height, align, heuristic, numNodes := 0, 0, 1, SkylineBottomLeft, 0;
      activeHead, freeHead := null, null;
      extra0 := new Node();
      extra1 := new Node();
      active, free, nodes, line, sky, placed := [], [], {}, [], [], [];
    }

    method SetupAllowOutOfMem(allow: bool)
      requires 0 < numNodes && 0 < width
      modifies this`align
      ensures align == if allow then 1 else CeilDiv(width, numNodes)
    {
      if allow {
        align := 1;
      } else {
        align := (width + numNodes - 1) / numNodes;
      }
    }

    method SetupHeuristic(h: Heuristic)
      modifies this`heuristic
      ensures heuristic == h
    {
      heuristic := h;
    }

    method LinkNodes(nodes: seq<Node>)
      requires |nodes| > 0 && Distinct(nodes)
      modifies nodes
      ensures Chain(nodes)
    {
      var i := 0;
      while i < |nodes| - 1
        invariant 0 <= i < |nodes|
        invariant forall j :: 0 <= j < i ==> nodes[j].next == nodes[j + 1]
      {
        nodes[i].next := nodes[i + 1];
        i := i + 1;
      }
      nodes[i].next := null;
    }

    /** All the nodes of the context: the caller's storage and the two extra ones. */
    ghost function StoredNodes(store: seq<Node>): set<Node> {
      (set n | n in store) + {extra0, extra1}
    }

    method InitNodes(w: int, store: seq<Node>)
      requires |store| > 0 && 0 < w
      requires Distinct(store) && extra0 !in store && extra1 !in store && extra0 != extra1
      modifies this`numNodes, this`activeHead, this`freeHead, this`active, this`free, this`nodes, this`line
      modifies store, extra0, extra1
      ensures Linked() && numNodes == |store| && nodes == StoredNodes(store)
      ensures active == [extra0, extra1] && free == store
      ensures line == [Point(0, 0), Point(w, TOP)]
    {
      hide Chain, Distinct, Linked;
      LinkNodes(store);
      freeHead := store[0];
      activeHead := extra0;
      numNodes := |store|;
      extra0.x, extra0.y, extra0.next := 0, 0, extra1;
      extra1.x, extra1.y, extra1.next := w, TOP, null;
      active, free, nodes := [extra0, extra1], store, StoredNodes(store);
      line := [Point(0, 0), Point(w, TOP)];
      StoreIsLinked(w, store);
    }

    lemma StoreIsLinked(w: int, store: seq<Node>)
      requires |store| > 0 && Distinct(store) && extra0 !in store && extra1 !in store && extra0 != extra1
      requires active == [extra0, extra1] && free == store && nodes == StoredNodes(store) && numNodes == |store|
      requires activeHead == extra0 && freeHead == store[0] && Chain(store) && line == [Point(0, 0), Point(w, TOP)]
      requires extra0.x == 0 && extra0.y == 0 && extra0.next == extra1
      requires extra1.x == w && extra1.y == TOP && extra1.next == null
      ensures Linked()
    {}

    method InitTarget(w: int, h: int, store: seq<Node>)
      requires 0 < w <= 0x7fff_ffff && 0 <= h <= 0x4000_0000 && |store| > 0
      requires Distinct(store) && extra0 !in store && extra1 !in store && extra0 != extra1
      modifies this, store, extra0, extra1
      ensures Valid() && width == w && height == h && numNodes == |store|
      ensures heuristic == SkylineBottomLeft && align == CeilDiv(w, |store|)
      ensures active == [extra0, extra1] && free == store
      ensures nodes == StoredNodes(store)
      ensures line == [Point(0, 0), Point(w, 0x4000_0000)] && sky == Flat(w, 0) && placed == []
    {
      hide Context.Linked, Packed, CeilDiv;
      width := w;
      height := h;
      heuristic := SkylineBottomLeft;
      numNodes := |store|;
      SetupAllowOutOfMem(false);
      sky, placed := Flat(w, 0), [];
      InitNodes(w, store);
      FloorIsSkyline(w, h, line);
    }

    /** Pigeonhole: active nodes have distinct columns, so a node per column is always enough. */
    lemma NeverOutOfNodes()
      requires Valid() && numNodes >= width
      ensures free != [] && freeHead != null
    {
      IncreasingLength(line, width, |line| - 1);
    }

    /** When the last node is gone although a rectangle still fits, the target was one of those on which that can
        happen. On a target one high, a free stretch of floor leaves too few columns for all nodes. */
    lemma OutOfNodes(w: int, h: int)
      requires Valid() && free == [] && 0 < w && 0 < h && FitsSomewhere(sky, RoundUp(w, align), h, height)
      ensures NodesCanRunOut(width, height, align, numNodes)
    {
      hide Packing, Covers, Rest, OneFloor, Draws, RoundUp;
      ValidParts();
      if numNodes >= width {
        NeverOutOfNodes();
      }
      var wr := RoundUp(w, align);
      var x :| FitsAt(sky, wr, h, height, x);
      RestIsNatural(sky, x, wr);
      if height == 1 {
        RoundUpAtLeast(w, align);
        RestsOnFloor(sky, x, wr);
        FloorLeavesColumns(line, sky, x, wr);
      }
    }

    method FindMinY(first: Node, ghost k: nat, x0: int, w: int) returns (minY: int, waste: int)
      requires Threaded() && k < |line| && first == active[k] && x0 + w <= line[|line| - 1].x
      ensures ScanFrom(line, k, x0, w, START).minY == minY
      ensures ScanFrom(line, k, x0, w, START).waste == waste
    {
      ghost var s := line;
      var node := first;
      var x1 := x0 + w;
      minY, waste := 0, 0;
      var visited := 0;
      ghost var i := k;
      while node.x < x1
        invariant k <= i < |s| && node == active[i]
        invariant ScanFrom(s, i, x0, w, Scan(minY, waste, visited)) == ScanFrom(s, k, x0, w, START)
        decreases |s| - i
      {
        if node.y > minY {
          waste := waste + visited * (node.y - minY);
          minY := node.y;
          if node.x < x0 {
            visited := visited + (node.next.x - x0);
          } else {
            visited := visited + (node.next.x - node.x);
          }
        } else {
          var under := node.next.x - node.x;
          if under + visited > w {
            under := w - visited;
          }
          waste := waste + under * (minY - node.y);
          visited := visited + under;
        }
        node := node.next;
        i := i + 1;
      }
    }

    method Deref(link: Link, ghost k: int) returns (node: Node)
      requires Threaded() && 0 <= k < |active| && LinkAt(active, link, k)
      ensures node == active[k]
    {
      if link == ActiveHead {
        node := activeHead;
      } else {
        assert link.node == active[k - 1] && active[k - 1].next == active[k];
        node := link.node.next;
      }
    }

    /** First pass of the search: left edge on each node in turn. */
    method FindLeft(w: int, h: int) returns (y: int, waste: int, best: Link, ghost k: int)
      requires Threaded() && Skyline(line, width)
      requires 0 < w <= width && 0 < h && height <= TOP
      ensures best == Missing ==> y == TOP && waste == TOP
      ensures best != Missing ==> LeftFound(line, w, h, y, waste, best, k)
      ensures 0 <= k < |line|
      ensures LeftSettled(line, width, |line|, heuristic, best != Missing,
                          Choice(y, waste, line[k].x), w, h, height)
    {
      hide LeftSettled, ScanFrom, ChoiceAt, Settled;
      ghost var s := line;
      y, waste, best := TOP, TOP, Missing;
      k := 0;
      var node, prev := activeHead, ActiveHead;
      ghost var i := 0;
      NothingTried(s, width, heuristic, false, Choice(y, waste, s[k].x), w, h, height);
      while node.x + w <= width
        invariant 0 <= i < |s| && node == active[i] && LinkAt(active, prev, i)
        invariant best == Missing ==> y == TOP && waste == TOP && k == 0
        invariant best != Missing ==> LeftFound(s, w, h, y, waste, best, k) && k < i
        invariant LeftSettled(s, width, i, heuristic, best != Missing, Choice(y, waste, s[k].x), w, h, height)
        decreases |s| - i
      {
        assert s[|s| - 1] == Point(width, TOP) && i < |s| - 1;
        var y1, waste1 := FindMinY(node, i, node.x, w);
        ChoiceIsScan(s, width, w, s[i].x, i);
        ghost var found, c := best != Missing, Choice(y, waste, s[k].x);
        if heuristic == SkylineBottomLeft {
          if y1 < y {
            y, best := y1, prev;
            k := i;
          }
        } else {
          if y1 + h <= height {
            if y1 < y || (y1 == y && waste1 < waste) {
              y, waste, best := y1, waste1, prev;
              k := i;
            }
          }
        }
        LeftStep(s, width, i, heuristic, found, c, best != Missing, Choice(y, waste, s[k].x), w, h, height);
        prev := NextOf(node);
        node := node.next;
        i := i + 1;
      }
      LeftDone(s, width, i, heuristic, best != Missing, Choice(y, waste, s[k].x), w, h, height);
    }

    /** The first node at or right of column w. */
    method FirstTail(w: int) returns (tail: Node, ghost t: int)
      requires Threaded() && Skyline(line, width) && w <= width
      ensures 0 <= t < |active| && tail == active[t] && tail.x >= w
      ensures forall i :: 0 <= i < t ==> line[i].x < w
    {
      ghost var s := line;
      assert s[|s| - 1] == Point(width, TOP);
      tail, t := activeHead, 0;
      while tail.x < w
        invariant 0 <= t < |s| && tail == active[t]
        invariant forall i :: 0 <= i < t ==> s[i].x < w
        decreases |s| - t
      {
        assert tail.next == active[t + 1];
        tail := tail.next;
        t := t + 1;
      }
    }

    /** Walks to the node whose segment holds column xpos. */
    method Advance(node0: Node, prev0: Link, ghost n0: int, xpos: int) returns (node: Node, prev: Link, ghost n: int)
      requires Threaded() && Skyline(line, width) && xpos < width
      requires 0 <= n0 < |line| - 1 && node0 == active[n0] && LinkAt(active, prev0, n0) && node0.x <= xpos
      ensures n0 <= n < |line| - 1 && node == active[n] && LinkAt(active, prev, n)
      ensures active[n].x <= xpos < active[n + 1].x
    {
      ghost var s := line;
      node, prev, n := node0, prev0, n0;
      assert s[|s| - 1] == Point(width, TOP);
      assert node.next == active[n + 1];
      while node.next.x <= xpos
        invariant n0 <= n < |s| - 1 && node == active[n] && LinkAt(active, prev, n)
        invariant node.next == active[n + 1] && s[n].x <= xpos
        decreases |s| - n
      {
        prev := NextOf(node);
        node := node.next;
        n := n + 1;
        assert node.next == active[n + 1];
      }
    }

    /** Second pass, best-fit only: right edge on each node and on the sentinel. */
    method FindRight(w: int, h: int, x0: int, y0: int, waste0: int, best0: Link, ghost k0: int)
      returns (x: int, y: int, waste: int, best: Link, ghost k: int)
      requires Threaded() && Skyline(line, width)
      requires 0 < w <= width && 0 < h && height <= TOP
      requires best0 == Missing ==> y0 == TOP
      requires best0 != Missing ==> BestFound(line, w, h, x0, y0, waste0, best0, k0)
      requires LeftSettled(line, width, |line|, SkylineBestFit, best0 != Missing, Choice(y0, waste0, x0), w, h, height)
      ensures best != Missing ==> BestFound(line, w, h, x, y, waste, best, k)
      ensures LeftSettled(line, width, |line|, SkylineBestFit, best != Missing, Choice(y, waste, x), w, h, height)
      ensures RightSettled(line, width, |line|, best != Missing, Choice(y, waste, x), w, h, height)
    {
      hide LeftSettled, RightSettled, ScanFrom, ChoiceAt, Settled, BestFound, Chain;
      ghost var s := line;
      x, y, waste, best, k := x0, y0, waste0, best0, k0;
      var node, prev := activeHead, ActiveHead;
      ghost var n := 0;
      var tail: Node?, t := FirstTail(w);
      RightStart(s, width, t, best != Missing, Choice(y, waste, x), w, h, height);
      while tail != null
        invariant 0 <= t <= |s| && (if t < |s| then tail == active[t] else tail == null)
        invariant 0 <= n < |s| - 1 && node == active[n] && LinkAt(active, prev, n)
        invariant t < |s| ==> s[n].x <= s[t].x - w
        invariant best == Missing ==> y == TOP
        invariant best != Missing ==> BestFound(s, w, h, x, y, waste, best, k)
        invariant LeftSettled(s, width, |s|, SkylineBestFit, best != Missing, Choice(y, waste, x), w, h, height)
        invariant RightSettled(s, width, t, best != Missing, Choice(y, waste, x), w, h, height)
        decreases |s| - t
      {
        var xpos := tail.x - w;
        PointInside(s, width, t);
        node, prev, n := Advance(node, prev, n, xpos);
        var y1, waste1 := FindMinY(node, n, xpos, w);
        ChoiceIsScan(s, width, w, xpos, n);
        ghost var found, c := best != Missing, Choice(y, waste, x);
        if y1 + h <= height {
          if y1 <= y {
            if y1 < y || waste1 < waste || (waste1 == waste && xpos < x) {
              x, y, waste, best, k := xpos, y1, waste1, prev, n;
              BestFoundHere(s, t, w, h, x, y, waste, best, k);
            }
          }
        }
        RightStep(s, width, t, found, c, best != Missing, Choice(y, waste, x), w, h, height);
        NextInChain(active, t);
        tail := tail.next;
        t := t + 1;
      }
    }

    ghost predicate BestFound(s: seq<Point>, w: int, h: int, x: int, y: int, waste: int, best: Link, k: int)
      reads `active, `width, `height
    {
      && Skyline(s, width) && 0 < w && 0 <= k < |s| - 1 && LinkAt(active, best, k)
      && s[k].x <= x < s[k + 1].x && x + w <= width && y < TOP && y + h <= height
      && ChoiceAt(s, width, w, x) == Choice(y, waste, x) && Candidate(s, width, w, x)
    }

    lemma BestFoundHere(s: seq<Point>, t: nat, w: int, h: int, x: int, y: int, waste: int, best: Link, k: int)
      requires Skyline(s, width) && 0 < w && 0 <= k < |s| - 1 && LinkAt(active, best, k)
      requires t < |s| && 0 <= x == s[t].x - w && s[k].x <= x < s[k + 1].x
      requires height <= TOP && 0 < h && y + h <= height && ChoiceAt(s, width, w, x) == Choice(y, waste, x)
      ensures BestFound(s, w, h, x, y, waste, best, k) && best != Missing
    {}

    /** The link and height of the best left-aligned candidate; best-fit also knows its waste. */
    ghost predicate LeftFound(s: seq<Point>, w: int, h: int, y: int, waste: int, best: Link, k: int)
      reads `active, `width, `height, `heuristic
    {
      && Skyline(s, width) && 0 < w && 0 <= k < |s| - 1 && LinkAt(active, best, k) && s[k].x + w <= width
      && y < TOP && ChoiceAt(s, width, w, s[k].x).y == y
      && (heuristic == SkylineBestFit ==> y + h <= height && ChoiceAt(s, width, w, s[k].x).waste == waste)
    }

    /** Where the search lands: on node k or inside its segment, resting on the skyline. */
    ghost predicate Lands(fr: FindResult, w: int, k: int)
      reads this
    {
      && 0 <= k < |line| - 1 && |active| == |line| && LinkAt(active, fr.link, k)
      && 0 <= line[k].x <= fr.x < line[k + 1].x && (line[k].x == fr.x || line[k + 1].x <= fr.x + w)
      && 0 < w && fr.x + w <= |sky| && fr.y == Rest(sky, fr.x, w)
    }

    method FindBestPos(w0: int, h: int) returns (fr: FindResult, ghost k: int)
      requires Threaded() && |sky| == width && Packed(line, sky, placed, height)
      requires 0 < w0 && 0 < h && 0 < align && height <= TOP
      ensures fr.link == Missing ==> !FitsSomewhere(sky, RoundUp(w0, align), h, height)
      ensures fr.link != Missing ==> Lands(fr, RoundUp(w0, align), k)
      ensures fr.link != Missing && heuristic == SkylineBottomLeft ==>
        BottomLeft(sky, RoundUp(w0, align), fr.x, fr.y)
      ensures fr.link != Missing ==> LowestRest(sky, RoundUp(w0, align), fr.x, fr.y)
      ensures fr.link != Missing && heuristic == SkylineBestFit ==>
        && BestFit(line, width, RoundUp(w0, align), h, height, fr.x)
        && fr.y + h <= height
    {
      hide LeftSettled, RightSettled, Settled, ChoiceAt, Packing, Covers, BottomLeft, LowestRest, BestFit,
        FitsSomewhere;
      var w := w0 + align - 1;
      w := w - w % align;
      assert w == RoundUp(w0, align);
      k := 0;
      if w > width || h > height {
        NeverFits(sky, w, h, height);
        return FindResult(0, 0, Missing), 0;
      }
      var y, waste, best;
      y, waste, best, k := FindLeft(w, h);
      var x := 0;
      if best != Missing {
        var node := Deref(best, k);
        x := node.x;
      }
      if heuristic == SkylineBestFit {
        FoundOnLeft(w, h, x, y, waste, best, k);
        x, y, waste, best, k := FindRight(w, h, x, y, waste, best, k);
        if best == Missing {
          NothingFits(line, sky, SkylineBestFit, Choice(y, waste, x), w, h, height);
        } else {
          BestFitIsLowest(w, h, x, y, waste, best, k);
        }
      } else {
        if best == Missing {
          NothingFits(line, sky, SkylineBottomLeft, Choice(y, waste, line[k].x), w, h, height);
        } else {
          LeftIsBottomLeft(line, sky, y, waste, w, h, height, k);
          BottomLeftIsLowest(sky, w, x, y);
        }
      }
      fr := FindResult(x, y, best);
    }

    lemma FoundOnLeft(w: int, h: int, x: int, y: int, waste: int, best: Link, k: int)
      requires heuristic == SkylineBestFit && 0 <= k < |line| && Skyline(line, width) && 0 < w
      requires best != Missing ==> LeftFound(line, w, h, y, waste, best, k) && x == line[k].x
      requires best == Missing ==> x == 0
      requires
        LeftSettled(line, width, |line|, SkylineBestFit, best != Missing, Choice(y, waste, line[k].x), w, h, height)
      ensures best != Missing ==> BestFound(line, w, h, x, y, waste, best, k)
      ensures LeftSettled(line, width, |line|, SkylineBestFit, best != Missing, Choice(y, waste, x), w, h, height)
    {
      if best == Missing {
        forall i | 0 <= i < |line| && line[i].x + w <= width
          ensures Settled(SkylineBestFit, false, Choice(y, waste, x), h, height, ChoiceAt(line, width, w, line[i].x))
        {
          assert Settled(SkylineBestFit, false, Choice(y, waste, line[k].x), h, height,
                         ChoiceAt(line, width, w, line[i].x));
        }
      } else {
        PointInside(line, width, k);
      }
    }

    lemma BestFitIsLowest(w: int, h: int, x: int, y: int, waste: int, best: Link, k: int)
      requires |sky| == width && Packed(line, sky, placed, height)
      requires BestFound(line, w, h, x, y, waste, best, k)
      requires LeftSettled(line, width, |line|, SkylineBestFit, true, Choice(y, waste, x), w, h, height)
      requires RightSettled(line, width, |line|, true, Choice(y, waste, x), w, h, height)
      ensures BestFit(line, width, w, h, height, x) && LowestRest(sky, w, x, y)
      ensures line[k].x == x || line[k + 1].x <= x + w
    {
      SettledIsBestFit(line, width, w, h, height, Choice(y, waste, x));
      SettledIsLowest(line, sky, w, h, height, Choice(y, waste, x));
      SegmentOf(line, width, w, x, k);
    }

    /** Nodes a[m..] are still chained, apart from the free list, which avoids `others`. */
    ghost predicate Releasing(a: seq<Node>, l: seq<Point>, m: nat, others: set<Node>)
      reads `freeHead, `free, `nodes, a, free
    {
      && m < |a| && Owned(a) && Owned(free) && Mirrors(a, l) && ChainFrom(a, m) && Distinct(a) && ApartFrom(a, m, free)
      && HeadIs(freeHead, free) && Chain(free) && Distinct(free)
      && (forall n :: n in free ==> n !in others) && (forall j :: 0 <= m <= j < |a| ==> a[j] !in others)
    }

    /** The first m active nodes are chained from the head and lead to `node`. */
    ghost predicate LeadsTo(a: seq<Node>, m: nat, node: Node)
      reads `activeHead, a
    {
      && m < |a| && activeHead == (if m == 0 then node else a[0])
      && forall i {:trigger a[i].next} :: 0 <= i < m ==> a[i].next == if i + 1 < m then NodeAt(a, i + 1) else node
    }

    method ReleaseOne(cur: Node, ghost a: seq<Node>, ghost l: seq<Point>, ghost m: nat, ghost others: set<Node>,
                      ghost m0: nat, ghost node: Node)
      returns (next: Node)
      requires Releasing(a, l, m, others) && cur == a[m] && m + 1 < |a|
      requires LeadsTo(a, m0, node) && m0 <= m
      modifies this`freeHead, this`free, cur`next
      ensures Releasing(a, l, m + 1, others) && next == a[m + 1] && LeadsTo(a, m0, node)
      ensures free == [cur] + old(free)
    {
      hide Chain;
      FirstLink(a, m);
      assert a[m] !in free;
      next := cur.next;
      cur.next := freeHead;
      freeHead := cur;
      PushChain(cur, free);
      free := [cur] + free;
    }

    lemma ReleasingAt(a: seq<Node>, l: seq<Point>, m: nat, others: set<Node>)
      requires Releasing(a, l, m, others)
      ensures m < |a| == |l| && a[m].next == NodeAt(a, m + 1) && (m + 1 < |a| ==> a[m + 1].x == l[m + 1].x)
    {
      FirstLink(a, m);
    }

    /** Nodes m0 to m as they end up in the free list: the one met last comes first. */
    static ghost function Freed(a: seq<Node>, m0: nat, m: nat): (r: seq<Node>)
      requires m0 <= m <= |a|
      ensures |r| == m - m0
      decreases m
    {
      if m == m0 then [] else [a[m - 1]] + Freed(a, m0, m - 1)
    }

    /** Moves nodes from `cur0` on to the free list while their successor starts at or left of `right`. */
    method Release(cur0: Node, right: int, ghost a: seq<Node>, ghost l: seq<Point>, ghost m0: nat,
                   ghost others: set<Node>, ghost node: Node)
      returns (cur: Node, ghost m: nat)
      requires Releasing(a, l, m0, others) && cur0 == a[m0] && LeadsTo(a, m0, node)
      modifies this`freeHead, this`free, set j | m0 <= j < |a| :: a[j]`next
      ensures Releasing(a, l, m, others) && LeadsTo(a, m0, node) && m < |a| == |l| && cur == a[m]
      ensures m == SkipTo(l, m0, right)
      ensures free == Freed(a, m0, m) + old(free)
    {
      hide SkipTo, Releasing, LeadsTo;
      cur, m := cur0, m0;
      ReleasingAt(a, l, m, others);
      StopOrGo(l, m, right);
      while cur.next != null && cur.next.x <= right
        invariant m0 <= m < |a| == |l| && cur == a[m] && SkipTo(l, m, right) == SkipTo(l, m0, right)
        invariant Releasing(a, l, m, others) && LeadsTo(a, m0, node)
        invariant free == Freed(a, m0, m) + old(free)
        decreases |a| - m
      {
        ReleasingAt(a, l, m, others);
        StopOrGo(l, m, right);
        cur := ReleaseOne(cur, a, l, m, others, m0, node);
        m := m + 1;
      }
      ReleasingAt(a, l, m, others);
      StopOrGo(l, m, right);
    }

    ghost function Kept(a: seq<Node>, m: nat, node: Node): set<Node>
      requires m < |a|
    {
      (set n | n in a[..m]) + {node}
    }

    method TakeNode(x: int, top: int) returns (node: Node)
      requires Linked() && free != []
      modifies this`freeHead, this`free, free
      ensures Threaded() && Distinct(active) && HeadIs(freeHead, free) && Chain(free) && Distinct(free)
      ensures Apart(active, free) && node !in active && node !in free
      ensures node in nodes && Owned(active) && Owned(free)
      ensures old(free) == [node] + free && node.x == x && node.y == top
    {
      node := freeHead;
      NextInChain(free, 0);
      TailOfChain(free);
      assert node == free[0] && node !in free[1..] && node !in active;
      node.x := x;
      node.y := top;
      freeHead := node.next;
      free := free[1..];
    }

    /** Links the new node in after, or instead of, node k. */
    method Hook(node: Node, x: int, link: Link, ghost k: nat) returns (cur: Node)
      requires Threaded() && Distinct(active) && HeadIs(freeHead, free) && Chain(free) && Distinct(free)
      requires Apart(active, free) && node !in active && node !in free && Owned(active) && Owned(free)
      requires k < |active| - 1 && LinkAt(active, link, k)
      modifies this`activeHead, active
      ensures LeadsTo(active, Slot(line, k, x), node) && cur == active[Slot(line, k, x)]
      ensures Releasing(active, line, Slot(line, k, x), Kept(active, Slot(line, k, x), node))
    {
      cur := Deref(link, k);
      NextInChain(active, k);
      if cur.x < x {
        var next := cur.next;
        cur.next := node;
        cur := next;
      } else if link == ActiveHead {
        activeHead := node;
      } else {
        link.node.next := node;
      }
    }

    lemma JoinedChain(a: seq<Node>, m0: nat, node: Node, m: nat, b: seq<Node>)
      requires LeadsTo(a, m0, node) && ChainFrom(a, m) && m0 <= m < |a| && node.next == a[m]
      requires Distinct(a) && node !in a
      requires b == a[..m0] + [node] + a[m..]
      ensures HeadIs(activeHead, b) && Chain(b) && Distinct(b)
    {
      forall i | 0 <= i < |b|
        ensures b[i].next == NodeAt(b, i + 1)
      {
        if i < m0 {
          assert b[i] == a[i];
        } else if i > m0 {
          assert b[i] == a[i - m0 - 1 + m];
          assert i + 1 < |b| ==> b[i + 1] == a[i - m0 + m];
        }
      }
    }

    lemma JoinedApart(a: seq<Node>, m0: nat, node: Node, m: nat, b: seq<Node>)
      requires m0 <= m < |a| && ApartFrom(a, m, free)
      requires forall n :: n in free ==> n !in Kept(a, m0, node)
      requires b == a[..m0] + [node] + a[m..]
      ensures Apart(b, free)
    {
      forall i, j | 0 <= i < |b| && 0 <= j < |free|
        ensures b[i] != free[j]
      {
        assert free[j] !in Kept(a, m0, node);
        if i < m0 {
          assert b[i] in a[..m0];
        } else if i > m0 {
          assert b[i] == a[i - m0 - 1 + m];
        }
      }
    }

    /** Stitches the surviving nodes back in behind the new one. */
    method Stitch(node: Node, cur: Node, right: int, ghost p: Point, ghost m0: nat, ghost m: nat,
                  ghost next: seq<Point>)
      requires LeadsTo(active, m0, node) && Releasing(active, line, m, Kept(active, m0, node)) && m0 <= m
      requires cur == active[m] && node !in active && node !in free && p == Point(node.x, node.y)
      requires node in nodes
      requires next == line[..m0] + [p] + [Point(Max(line[m].x, right), line[m].y)] + line[m + 1..]
      modifies this`active, this`line, node`next, cur`x
      ensures HeadIs(freeHead, free) && Chain(free) && Distinct(free)
      ensures Threaded() && Distinct(active) && Apart(active, free) && Owned(active) && Owned(free)
      ensures active == old(active)[..m0] + [node] + old(active)[m..]
      ensures line == next
    {
      ghost var a, l := active, line;
      assert cur !in free && forall i :: 0 <= i < |a| && i != m ==> a[i] != cur;
      node.next := cur;
      if cur.x < right {
        cur.x := right;
      }
      active := a[..m0] + [node] + a[m..];
      line := next;
      JoinedChain(a, m0, node, m, active);
      JoinedApart(a, m0, node, m, active);
      hide Chain, Distinct, Apart, ApartFrom, ChainFrom, HeadIs;
      JoinedMirrors(a, l, m0, node, m, active, line);
    }

    lemma JoinedMirrors(a: seq<Node>, l: seq<Point>, m0: nat, node: Node, m: nat, b: seq<Node>, next: seq<Point>)
      requires m0 <= m < |a| == |l|
      requires forall i :: 0 <= i < |a| && i != m ==> a[i].x == l[i].x && a[i].y == l[i].y
      requires b == a[..m0] + [node] + a[m..]
      requires next == l[..m0] + [Point(node.x, node.y)] + [Point(a[m].x, a[m].y)] + l[m + 1..]
      ensures Mirrors(b, next)
    {
      forall i | 0 <= i < |b|
        ensures b[i].x == next[i].x && b[i].y == next[i].y
      {
        if i < m0 {
          assert b[i] == a[i] && next[i] == l[i];
        } else if i > m0 + 1 {
          assert b[i] == a[i - m0 - 1 + m] && next[i] == l[i - m0 - 1 + m];
        }
      }
    }

    /** Takes a free node and hooks it in at `link`. */
    method HookNew(x: int, top: int, link: Link, ghost k: nat) returns (node: Node, cur: Node)
      requires Linked() && free != []
      requires k < |active| - 1 && LinkAt(active, link, k)
      modifies this`activeHead, this`freeHead, this`free, active, free
      ensures LeadsTo(active, Slot(line, k, x), node) && cur == active[Slot(line, k, x)]
      ensures Releasing(active, line, Slot(line, k, x), Kept(active, Slot(line, k, x), node))
      ensures node !in active && node !in free && node.x == x && node.y == top
      ensures |active| + |free| == numNodes + 1 && node in old(free) && node in nodes
    {
      hide Chain, Distinct, Apart, ApartFrom, Owned, ChainFrom, HeadIs, LinkAt, LeadsTo, Releasing, Slot, Mirrors;
      node := TakeNode(x, top);
      assert node == old(free)[0];
      cur := Hook(node, x, link, k);
      assert node.x == x && node.y == top;
    }

    /** Hooks the new node in and frees the nodes the rectangle covers. */
    method Cut(x: int, w: int, top: int, link: Link, ghost k: nat) returns (node: Node, cur: Node, ghost m: nat)
      requires Linked() && free != []
      requires k < |active| - 1 && LinkAt(active, link, k)
      modifies this`activeHead, this`freeHead, this`free, active, free
      ensures LeadsTo(active, Slot(line, k, x), node)
      ensures Releasing(active, line, m, Kept(active, Slot(line, k, x), node))
      ensures m == SkipTo(line, Slot(line, k, x), x + w) && cur == active[m]
      ensures node !in active && node !in free && node.x == x && node.y == top
      ensures |active| + |free| == numNodes + 1 + m - Slot(line, k, x)
      ensures node in old(free) && node in nodes
    {
      assert |active| == |line|;
      hide Chain, Distinct, Apart, ApartFrom, Owned, ChainFrom, HeadIs, LinkAt, LeadsTo, Mirrors, SkipTo;
      node, cur := HookNew(x, top, link, k);
      ghost var m0 := Slot(line, k, x);
      cur, m := Release(cur, x + w, active, line, m0, Kept(active, m0, node), node);
    }

    /** Replaces the part of the active list the rectangle covers by one new node; freed nodes go back to the free
        list. */
    method Splice(x: int, w: int, top: int, link: Link, ghost k: nat)
      requires Linked() && free != []
      requires k < |active| - 1 && LinkAt(active, link, k)
      modifies this`activeHead, this`freeHead, this`active, this`free, this`line, active, free
      ensures Linked()
      ensures |old(line)| == |old(active)| && line == Insert(old(line), k, x, w, top)
    {
      hide Chain, Distinct, Apart, ApartFrom, Owned, SkipTo, ChainFrom, HeadIs, LinkAt, Insert, LeadsTo;
      ghost var m0, l := Slot(line, k, x), line;
      var node, cur;
      ghost var m;
      node, cur, m := Cut(x, w, top, link, k);
      InsertIs(l, k, x, w, top, m0, m);
      Stitch(node, cur, x + w, Point(x, top), m0, m, Insert(l, k, x, w, top));
    }

    method PackRectangle(w: int, h: int) returns (fr: FindResult, ghost lift: int, ghost k: int)
      requires Valid() && 0 < w && 0 < h
      modifies this`activeHead, this`freeHead, this`active, this`free, this`line, this`sky, this`placed, nodes
      ensures Valid()
      ensures fr.link == Missing <==> old(free) == [] || !FitsSomewhere(old(sky), RoundUp(w, align), h, height)
      ensures fr.link == Missing ==> sky == old(sky) && placed == old(placed) && line == old(line)
      ensures fr.link == Missing ==> active == old(active) && free == old(free)
      ensures fr.link != Missing ==> 
        Placement(heuristic, old(line), old(sky), sky, Box(fr.x, fr.y, w, h), lift, RoundUp(w, align), height)
      ensures fr.link != Missing ==> placed == old(placed) + [Box(fr.x, fr.y, w, h)]
      ensures fr.link != Missing ==> InsertedAt(old(line), line, k, lift, fr.x, w, fr.y + h)
    {
      hide Packing, Covers, Draws, BottomLeft, LowestRest, BestFit, FitsSomewhere, Placement, Insert, Packed,
        Raise, Rest, RightEnd, Skyline, RoundUp, Context.Valid, Context.Linked, Context.Threaded;
      ValidParts();
      ghost var wr := RoundUp(w, align);
      PackedDraws(line, sky, placed, height);
      fr, k := FindBestPos(w, h);
      lift := w;
      if fr.link == Missing || fr.y + h > height || freeHead == null {
        if fr.link != Missing && fr.y + h > height {
          TooHigh(sky, wr, h, height, fr.x, fr.y);
        }
        fr := fr.(link := Missing);
      } else {
        FitsHere(sky, wr, h, height, fr.x);
        PlaceBox(heuristic, line, sky, placed, k, Box(fr.x, fr.y, w, h), wr, height);
        lift := RightEnd(line, k, fr.x, w) - fr.x;
        sky := Raise(sky, fr.x, lift, fr.y + h);
        placed := placed + [Box(fr.x, fr.y, w, h)];
        Splice(fr.x, w, fr.y + h, fr.link, k);
        ValidWhole();
      }
    }

    lemma ValidParts()
      requires Valid()
      ensures 0 < numNodes && 0 < width <= MAXVAL && 0 <= height <= TOP
      ensures 0 < align && (align != 1 ==> numNodes < width)
      ensures Linked() && Threaded() && |sky| == width && Packed(line, sky, placed, height)
      ensures freeHead == null <==> free == []
      ensures (forall n :: n in active ==> n in nodes) && forall n :: n in free ==> n in nodes
    {}

    lemma ValidWhole()
      requires 0 < numNodes && 0 < width <= MAXVAL && 0 <= height <= TOP
      requires 0 < align && (align != 1 ==> numNodes < width)
      requires Linked() && |sky| == width && Packed(line, sky, placed, height)
      ensures Valid()
    {}
  }

  /** What one successful placement does to the columns: `lift` columns from b.x are raised to its top. */
  ghost predicate Placement(heur: Heuristic, line: seq<Point>, sky: seq<int>, sky': seq<int>, b: Box, lift: int,
                            window: int, height: int)
  {
    && RestsOn(sky, b, window, height) && LowestRest(sky, window, b.x, b.y)
    && (heur == SkylineBottomLeft ==> BottomLeft(sky, window, b.x, b.y))
    && (heur == SkylineBestFit ==> BestFit(line, |sky|, window, b.h, height, b.x))
    && b.w <= lift <= window && sky' == Raise(sky, b.x, lift, b.y + b.h)
    && |sky'| == |sky| && forall c :: 0 <= c < |sky| ==> sky[c] <= sky'[c]
  }

  lemma WiderIsMore(w: int, lift: int, h: int)
    requires w <= lift && 0 <= h
    ensures w * h <= lift * h
  {}

  /** One placement adds the raised window's share of the rectangle and the area wasted under it; nothing when
      unquantised but the rectangle itself and the waste. */
  lemma PlacementArea(heur: Heuristic, line: seq<Point>, sky: seq<int>, sky': seq<int>, b: Box, lift: int,
                      window: int, height: int)
    requires Placement(heur, line, sky, sky', b, lift, window, height)
    requires forall c :: 0 <= c < |sky| ==> 0 <= sky[c]
    ensures Area(sky') == Area(sky) + lift * b.h + Shortfall(sky, b.x, b.x + lift, b.y)
    ensures Area(sky') >= Area(sky) + b.w * b.h
    ensures b.w == window ==> Area(sky') == Area(sky) + b.w * b.h + Shortfall(sky, b.x, b.x + b.w, b.y)
  {
    hide LowestRest, BottomLeft, BestFit, Raise, Area, Shortfall;
    assert forall c :: b.x <= c < b.x + window ==> sky[c] <= b.y;
    hide Placement, RestsOn, Rest;
    RaiseArea(sky, b.x, lift, b.y, b.h);
    ShortfallBounds(sky, b.x, b.x + lift, b.y);
    WiderIsMore(b.w, lift, b.h);
  }

  /** For a left-edge placement the waste the search reports is exactly the area the placement wastes. */
  lemma LeftEdgeWaste(s: seq<Point>, sky: seq<int>, k: int, w: int)
    requires Draws(s, sky) && (forall c :: 0 <= c < |sky| ==> 0 <= sky[c])
    requires 0 <= k < |s| - 1 && 0 < w && s[k].x + w <= |sky|
    ensures 0 <= s[k].x
    ensures ChoiceAt(s, |sky|, w, s[k].x).waste == Shortfall(sky, s[k].x, s[k].x + w, Rest(sky, s[k].x, w))
  {
    PointInside(s, |sky|, k);
    LocateIs(s, |sky|, s[k].x, k);
    ProbeWaste(s, sky, s[k].x, w);
  }

  /** A window whose reported waste is exact: it starts at a node, or above the floor. */
  ghost predicate WasteIsKnown(s: seq<Point>, sky: seq<int>, x: int)
    requires 0 <= x < |sky|
  {
    (exists i :: 0 <= i < |s| - 1 && s[i].x == x) || sky[x] > 0
  }

  lemma KnownWaste(s: seq<Point>, sky: seq<int>, w: int, x: int)
    requires Draws(s, sky) && (forall c :: 0 <= c < |sky| ==> 0 <= sky[c]) && 0 <= x && 0 < w && x + w <= |sky|
    ensures ChoiceAt(s, |sky|, w, x).y == Rest(sky, x, w) && ChoiceAt(s, |sky|, w, x).x == x
    ensures WasteIsKnown(s, sky, x) ==> ChoiceAt(s, |sky|, w, x).waste == Shortfall(sky, x, x + w, Rest(sky, x, w))
  {
    hide Rest, Shortfall;
    ProbeIsRest(s, sky, x, w);
    if WasteIsKnown(s, sky, x) {
      if i :| 0 <= i < |s| - 1 && s[i].x == x {
        LocateIs(s, |sky|, x, i);
      } else {
        ColumnAt(s, sky, x);
      }
      ProbeWaste(s, sky, x, w);
    }
  }

  lemma ColumnAt(s: seq<Point>, sky: seq<int>, x: int)
    requires Draws(s, sky) && 0 <= x < |sky|
    ensures s[Locate(s, |sky|, x)].y == sky[x]
  {
    var k := Locate(s, |sky|, x);
    assert FlatAt(sky, s[k].x, s[k + 1].x, s[k].y);
  }

  /** What best-fit is for: of all places with an edge on a node where the rectangle fits, the lowest; of those as low,
      one that wastes least; of those that waste as little, the leftmost. */
  lemma BestFitIsTightest(s: seq<Point>, sky: seq<int>, w: int, h: int, height: int, x: int, x': int)
    requires Draws(s, sky) && (forall c :: 0 <= c < |sky| ==> 0 <= sky[c]) && BestFit(s, |sky|, w, h, height, x)
    requires Candidate(s, |sky|, w, x') && Rest(sky, x', w) + h <= height
    ensures 0 < w && 0 <= x && x + w <= |sky| && Rest(sky, x, w) <= Rest(sky, x', w)
    ensures
      var waste, waste' := Shortfall(sky, x, x + w, Rest(sky, x, w)), Shortfall(sky, x', x' + w, Rest(sky, x', w));
      Rest(sky, x, w) == Rest(sky, x', w) && WasteIsKnown(s, sky, x) && WasteIsKnown(s, sky, x') ==>
        waste < waste' || (waste == waste' && x <= x')
  {
    hide Rest, Shortfall, WasteIsKnown, Draws, ChoiceAt;
    PointsOf(s, sky);
    KnownWaste(s, sky, w, x);
    KnownWaste(s, sky, w, x');
    assert Beats(s, |sky|, w, h, height, x, x');
  }

  lemma PointsOf(s: seq<Point>, sky: seq<int>)
    requires Draws(s, sky)
    ensures Skyline(s, |sky|)
  {}

  /** The new skyline nodes are the old ones with the rectangle inserted at segment k. */
  ghost predicate InsertedAt(line: seq<Point>, line': seq<Point>, k: int, lift: int, x: int, w: int, top: int) {
    && 0 <= k < |line| - 1 && line[k].x <= x < line[k + 1].x
    && line' == Insert(line, k, x, w, top) && lift == RightEnd(line, k, x, w) - x
  }

  lemma PackedDraws(s: seq<Point>, sky: seq<int>, placed: seq<Box>, height: int)
    requires Packed(s, sky, placed, height)
    ensures Skyline(s, |sky|)
  {}

  lemma TooHigh(sky: seq<int>, w: int, h: int, height: int, x: int, y: int)
    requires LowestRest(sky, w, x, y) && y + h > height
    ensures !FitsSomewhere(sky, w, h, height)
  {}

  lemma FitsHere(sky: seq<int>, w: int, h: int, height: int, x: int)
    requires FitsAt(sky, w, h, height, x)
    ensures FitsSomewhere(sky, w, h, height)
  {}

  lemma BottomLeftIsLowest(sky: seq<int>, w: int, x: int, y: int)
    requires BottomLeft(sky, w, x, y)
    ensures LowestRest(sky, w, x, y)
  {
    forall x' | 0 <= x' <= |sky| - w
      ensures y <= Rest(sky, x', w)
    {
      assert AtLeftMost(sky, w, x, y, x');
    }
  }

  lemma LowestIsOne(sky: seq<int>, w: int, x1: int, y1: int, x2: int, y2: int)
    requires LowestRest(sky, w, x1, y1) && LowestRest(sky, w, x2, y2)
    ensures y1 == y2
  {}

  /** The invariant of the packer is kept by one placement. */
  lemma PlaceBox(heur: Heuristic, line: seq<Point>, sky: seq<int>, placed: seq<Box>, k: nat, b: Box, window: int,
                 height: int)
    requires Packed(line, sky, placed, height)
    requires k < |line| - 1 && 0 <= line[k].x <= b.x < line[k + 1].x
    requires line[k].x == b.x || line[k + 1].x <= b.x + window
    requires RestsOn(sky, b, window, height) && LowestRest(sky, window, b.x, b.y)
    requires heur == SkylineBottomLeft ==> BottomLeft(sky, window, b.x, b.y)
    requires heur == SkylineBestFit ==> BestFit(line, |sky|, window, b.h, height, b.x)
    ensures b.x + b.w <= RightEnd(line, k, b.x, b.w) <= |sky|
    ensures var lift := RightEnd(line, k, b.x, b.w) - b.x; var sky' := Raise(sky, b.x, lift, b.y + b.h);
      && Packed(Insert(line, k, b.x, b.w, b.y + b.h), sky', placed + [b], height)
      && Placement(heur, line, sky, sky', b, lift, window, height) && |sky'| == |sky|
  {
    hide Draws, Covers, Packing, LowestRest, BottomLeft, BestFit, Insert, RightEnd, Raise, OneFloor;
    RestIsNatural(sky, b.x, window);
    hide Rest;
    InsertOneFloor(line, k, b.x, b.w, b.y + b.h);
    PackedDraws(line, sky, placed, height);
    RightEndBounds(line, |sky|, k, b.x, b.w, window);
    var lift := RightEnd(line, k, b.x, b.w) - b.x;
    var sky' := Raise(sky, b.x, lift, b.y + b.h);
    InsertDraws(line, sky, k, b.x, b.w, b.y + b.h);
    PlaceKeepsPacking(sky, placed, b, lift, window, height);
    RaiseColumns(sky, b.x, lift, b.y + b.h);
    assert forall c :: 0 <= c < |sky| ==> sky[c] <= sky'[c];
  }

  lemma RestIsNatural(sky: seq<int>, x: int, w: int)
    requires 0 <= x && 0 <= w && x + w <= |sky|
    ensures Rest(sky, x, w) >= 0
  {}

  lemma InsertIs(l: seq<Point>, k: nat, x: int, w: int, top: int, keep: nat, stop: nat)
    requires k + 1 < |l| && keep == Slot(l, k, x) && stop == SkipTo(l, keep, x + w)
    ensures
      Insert(l, k, x, w, top)
      == l[..keep] + [Point(x, top)] + [Point(Max(l[stop].x, x + w), l[stop].y)] + l[stop + 1..]
  {}

  lemma TailOfChain(nodes: seq<Node>)
    requires Chain(nodes) && nodes != []
    ensures Chain(nodes[1..]) && HeadIs(nodes[0].next, nodes[1..])
  {
    forall i | 0 <= i < |nodes| - 1
      ensures nodes[1..][i].next == if i + 1 < |nodes| - 1 then nodes[1..][i + 1] else null
    {
      NextInChain(nodes, i + 1);
    }
    NextInChain(nodes, 0);
  }

  lemma FirstLink(nodes: seq<Node>, m: int)
    requires 0 <= m < |nodes| && ChainFrom(nodes, m)
    ensures nodes[m].next == if m + 1 < |nodes| then nodes[m + 1] else null
  {}

  lemma StopOrGo(l: seq<Point>, m: nat, right: int)
    requires m < |l|
    ensures m + 1 < |l| && l[m + 1].x <= right ==> SkipTo(l, m, right) == SkipTo(l, m + 1, right)
    ensures !(m + 1 < |l| && l[m + 1].x <= right) ==> SkipTo(l, m, right) == m
  {}

  lemma FloorIsSkyline(w: int, h: int, s: seq<Point>)
    requires 0 < w && 0 <= h && s == [Point(0, 0), Point(w, TOP)]
    ensures Packed(s, Flat(w, 0), [], h)
  {
    assert FlatAt(Flat(w, 0), 0, w, 0);
  }

  lemma NodesOf(ctx: Context)
    requires ctx.Valid()
    ensures |ctx.line| + |ctx.free| == ctx.numNodes + 2 && 0 < ctx.align
    ensures (forall n :: n in ctx.active ==> n in ctx.nodes) && forall n :: n in ctx.free ==> n in ctx.nodes
  {}

  lemma PlacementRests(heur: Heuristic, line: seq<Point>, sky: seq<int>, sky': seq<int>, b: Box, lift: int,
                       window: int, height: int)
    requires Placement(heur, line, sky, sky', b, lift, window, height)
    ensures LowestRest(sky, window, b.x, b.y)
  {}

  /** On two contexts in the same state but for the heuristic, both pack a rectangle, at the same height, or both
      refuse it. */
  method HeuristicsAgree(a: Context, b: Context, w: int, h: int) returns (fa: FindResult, fb: FindResult)
    requires a.Valid() && b.Valid() && 0 < w && 0 < h && a != b && a.nodes !! b.nodes
    requires a.heuristic == SkylineBottomLeft && b.heuristic == SkylineBestFit
    requires a.line == b.line && a.sky == b.sky && a.height == b.height && a.align == b.align
    requires a.numNodes == b.numNodes
    modifies a`activeHead, a`freeHead, a`active, a`free, a`line, a`sky, a`placed, a.nodes
    modifies b`activeHead, b`freeHead, b`active, b`free, b`line, b`sky, b`placed, b.nodes
    ensures a.Valid() && b.Valid()
    ensures fa.link == Missing <==> fb.link == Missing
    ensures fa.link != Missing ==> fa.y == fb.y
  {
    hide Context.Valid, Placement, InsertedAt, FitsSomewhere, RoundUp, LowestRest;
    NodesOf(a);
    NodesOf(b);
    ghost var sky, line, wr := a.sky, a.line, RoundUp(w, a.align);
    ghost var lift, k;
    fa, lift, k := a.PackRectangle(w, h);
    if fa.link != Missing {
      PlacementRests(SkylineBottomLeft, line, sky, a.sky, Box(fa.x, fa.y, w, h), lift, wr, a.height);
    }
    NodesOf(a);
    assert forall n :: n in a.active || n in a.free ==> n !in b.nodes;
    fb, lift, k := b.PackRectangle(w, h);
    if fb.link != Missing {
      PlacementRests(SkylineBestFit, line, sky, b.sky, Box(fb.x, fb.y, w, h), lift, wr, b.height);
    }
    if fa.link != Missing && fb.link != Missing {
      LowestIsOne(sky, wr, fa.x, fa.y, fb.x, fb.y);
    }
  }
}
