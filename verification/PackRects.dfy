/** stbrp_pack_rects: sort by height, pack one by one, unsort, and report. The library sort is a
    parameter: any function that returns an ordered permutation, stable or not. */
module PackRects {
  import opened SkylineColumns
  import opened SkylinePoints
  import opened RectPack

  datatype Rect = Rect(id: int, w: int, h: int, x: int, y: int, wasPacked: int)

  datatype Order = ByHeight | ByOriginal

  /** The two comparators handed to the sort. */
  function Compare(o: Order, p: Rect, q: Rect): int {
    match o
    case ByHeight =>
      if p.h > q.h then -1
      else if p.h < q.h then 1
      else if p.w > q.w then -1 else if p.w < q.w then 1 else 0
    case ByOriginal =>
      if p.wasPacked < q.wasPacked then -1 else if p.wasPacked > q.wasPacked then 1 else 0
  }

  type Sort = (seq<Rect>, Order) -> seq<Rect>

  ghost predicate Ordered(s: seq<Rect>, o: Order) {
    forall i, j :: 0 <= i < j < |s| ==> Compare(o, s[i], s[j]) <= 0
  }

  ghost predicate Conforming(sort: Sort) {
    forall s, o :: multiset(sort(s, o)) == multiset(s) && Ordered(sort(s, o), o)
  }

  /** What qsort asks of a comparator: antisymmetric in sign, and transitive. */
  lemma ComparatorsAreOrders(o: Order, p: Rect, q: Rect, r: Rect)
    ensures Compare(o, p, q) == -Compare(o, q, p)
    ensures Compare(o, p, q) <= 0 && Compare(o, q, r) <= 0 ==> Compare(o, p, r) <= 0
  {}

  predicate Empty(r: Rect) {
    r.w == 0 || r.h == 0
  }

  predicate Unplaced(r: Rect) {
    r.x == MAXVAL && r.y == MAXVAL
  }

  predicate Located(r: Rect) {
    !Empty(r) && !Unplaced(r)
  }

  function BoxOf(r: Rect): Box {
    Box(r.x, r.y, r.w, r.h)
  }

  /** Equal but for the position. */
  predicate SameRequest(r: Rect, s: Rect) {
    r.id == s.id && r.w == s.w && r.h == s.h && r.wasPacked == s.wasPacked
  }

  ghost predicate SameRequests(rs: seq<Rect>, ss: seq<Rect>) {
    |rs| == |ss| && forall i :: 0 <= i < |rs| ==> SameRequest(rs[i], ss[i])
  }

  /** The boxes of the located rectangles, in slot order. */
  function Boxes(s: seq<Rect>): seq<Box> {
    if s == [] then []
    else Boxes(s[..|s| - 1]) + (if Located(s[|s| - 1]) then [BoxOf(s[|s| - 1])] else [])
  }

  lemma {:induction false} BoxesSplit(a: seq<Rect>, b: seq<Rect>)
    ensures Boxes(a + b) == Boxes(a) + Boxes(b)
    decreases |b|
  {
    if b == [] {
      assert a + b == a;
    } else {
      assert (a + b)[..|a + b| - 1] == a + b[..|b| - 1];
      BoxesSplit(a, b[..|b| - 1]);
    }
  }

  lemma RemoveOne(s: seq<Rect>, t: seq<Rect>, j: int)
    requires s != [] && multiset(s) == multiset(t) && 0 <= j < |t| && t[j] == s[|s| - 1]
    ensures multiset(s[..|s| - 1]) == multiset(t[..j] + t[j + 1..])
  {
    var r := t[j];
    assert s == s[..|s| - 1] + [r];
    assert t == t[..j] + ([r] + t[j + 1..]);
    assert multiset(s) == multiset(s[..|s| - 1]) + multiset{r};
    assert multiset(t) == multiset(t[..j]) + (multiset{r} + multiset(t[j + 1..]));
    assert multiset(t[..j] + t[j + 1..]) == multiset(t[..j]) + multiset(t[j + 1..]);
    assert multiset(s[..|s| - 1]) == multiset(s) - multiset{r};
    assert multiset(t[..j] + t[j + 1..]) == multiset(t) - multiset{r};
  }

  lemma BoxesRemove(t: seq<Rect>, j: int)
    requires 0 <= j < |t|
    ensures multiset(Boxes(t)) == multiset(Boxes(t[..j] + t[j + 1..])) + multiset(Boxes([t[j]]))
  {
    hide Boxes;
    assert t == t[..j] + [t[j]] + t[j + 1..];
    BoxesSplit(t[..j], t[j + 1..]);
    BoxesSplit(t[..j] + [t[j]], t[j + 1..]);
    BoxesSplit(t[..j], [t[j]]);
    var a, b, c := Boxes(t[..j]), Boxes([t[j]]), Boxes(t[j + 1..]);
    assert multiset(a + b + c) == multiset(a) + multiset(b) + multiset(c);
    assert multiset(a + c) == multiset(a) + multiset(c);
  }

  /** Reordering the slots reorders the boxes. */
  lemma {:induction false} BoxesPermute(s: seq<Rect>, t: seq<Rect>)
    requires multiset(s) == multiset(t)
    ensures multiset(Boxes(s)) == multiset(Boxes(t))
    decreases |s|
  {
    if s == [] {
      assert |multiset(t)| == 0;
    } else {
      var n := |s| - 1;
      InSeq(s, t, n);
      var j :| 0 <= j < |t| && t[j] == s[n];
      RemoveOne(s, t, j);
      BoxesPermute(s[..n], t[..j] + t[j + 1..]);
      BoxesRemove(t, j);
      BoxesRemove(s, n);
      assert s[..n] + s[n + 1..] == s[..n];
    }
  }

  lemma {:induction false} LocatedIsBoxed(s: seq<Rect>, i: int)
    requires 0 <= i < |s| && Located(s[i])
    ensures BoxOf(s[i]) in Boxes(s)
    decreases |s|
  {
    if i < |s| - 1 {
      LocatedIsBoxed(s[..|s| - 1], i);
    }
  }

  ghost predicate PairwiseDisjoint(s: seq<Rect>) {
    forall i, j :: 0 <= i < j < |s| && Located(s[i]) && Located(s[j]) ==> Disjoint(BoxOf(s[i]), BoxOf(s[j]))
  }

  /** Slots whose boxes form part of a packing do not overlap. */
  lemma {:induction false} LocatedAreDisjoint(s: seq<Rect>, placed: seq<Box>, width: int, height: int)
    requires Packing(placed + Boxes(s), width, height)
    ensures PairwiseDisjoint(s)
    ensures forall i, j :: 0 <= i < |s| && Located(s[i]) && 0 <= j < |placed| ==> Disjoint(placed[j], BoxOf(s[i]))
    ensures forall i :: 0 <= i < |s| && Located(s[i]) ==> Inside(BoxOf(s[i]), width, height)
    decreases |s|
  {
    if s != [] {
      var n, all := |s| - 1, placed + Boxes(s);
      assert Boxes(s[..n]) <= Boxes(s);
      var fewer := placed + Boxes(s[..n]);
      assert forall i :: 0 <= i < |fewer| ==> fewer[i] == all[i];
      LocatedAreDisjoint(s[..n], placed, width, height);
      if Located(s[n]) {
        assert all == fewer + [BoxOf(s[n])];
        assert all[|fewer|] == BoxOf(s[n]);
        forall i | 0 <= i < n && Located(s[i])
          ensures Disjoint(BoxOf(s[i]), BoxOf(s[n]))
        {
          LocatedIsBoxed(s[..n], i);
          var j :| 0 <= j < |Boxes(s[..n])| && Boxes(s[..n])[j] == BoxOf(s[i]);
          assert all[|placed| + j] == BoxOf(s[i]);
        }
        assert forall j :: 0 <= j < |placed| ==> all[j] == placed[j];
      }
    }
  }

  // ---- Unsorting ----

  ghost predicate DistinctKeys(s: seq<Rect>) {
    forall i, j :: 0 <= i < j < |s| ==> s[i].wasPacked != s[j].wasPacked
  }

  ghost predicate KeysBelow(s: seq<Rect>, n: int) {
    forall i :: 0 <= i < |s| ==> 0 <= s[i].wasPacked < n
  }

  lemma InSeq(s: seq<Rect>, t: seq<Rect>, i: int)
    requires multiset(s) == multiset(t) && 0 <= i < |s|
    ensures s[i] in t && |s| == |t|
  {
    assert s[i] in multiset(s);
    assert |multiset(s)| == |multiset(t)|;
  }

  /** Two places in a sequence make its value count twice. */
  lemma {:induction false} TwicePresent(s: seq<Rect>, i: int, j: int)
    requires 0 <= i < j < |s| && s[i] == s[j]
    ensures multiset(s)[s[i]] >= 2
  {
    assert s == s[..j] + s[j..];
    assert s[i] == s[..j][i];
    assert s[j] == s[j..][0];
  }

  lemma {:induction false} OncePresent(s: seq<Rect>, r: Rect)
    requires DistinctKeys(s)
    ensures multiset(s)[r] <= 1
    decreases |s|
  {
    if s != [] {
      var t := s[..|s| - 1];
      assert s == t + [s[|s| - 1]];
      OncePresent(t, r);
    }
  }

  lemma KeysStayDistinct(s: seq<Rect>, t: seq<Rect>, n: int)
    requires multiset(s) == multiset(t) && DistinctKeys(s) && KeysBelow(s, n)
    ensures DistinctKeys(t) && KeysBelow(t, n)
  {
    forall i | 0 <= i < |t|
      ensures 0 <= t[i].wasPacked < n
    {
      InSeq(t, s, i);
    }
    forall i, j | 0 <= i < j < |t|
      ensures t[i].wasPacked != t[j].wasPacked
    {
      InSeq(t, s, i);
      InSeq(t, s, j);
      if t[i] == t[j] {
        TwicePresent(t, i, j);
        OncePresent(s, t[i]);
      }
    }
  }

  lemma {:induction false} IncreasingKeys(t: seq<Rect>, k: int)
    requires Ordered(t, ByOriginal) && DistinctKeys(t) && KeysBelow(t, |t|) && 0 <= k < |t|
    ensures t[k].wasPacked >= k
    decreases k
  {
    if k > 0 {
      IncreasingKeys(t, k - 1);
      assert Compare(ByOriginal, t[k - 1], t[k]) <= 0;
    }
  }

  lemma {:induction false} IncreasingKeysAbove(t: seq<Rect>, k: int)
    requires Ordered(t, ByOriginal) && DistinctKeys(t) && KeysBelow(t, |t|) && 0 <= k < |t|
    ensures t[k].wasPacked <= k
    decreases |t| - k
  {
    if k < |t| - 1 {
      IncreasingKeysAbove(t, k + 1);
      assert Compare(ByOriginal, t[k], t[k + 1]) <= 0;
    }
  }

  /** Sorting a permutation of distinct keys 0..n-1 puts key k in slot k, whatever the sort does with ties. */
  lemma SortRestoresOrder(s: seq<Rect>, t: seq<Rect>, k: int)
    requires multiset(s) == multiset(t) && Ordered(t, ByOriginal)
    requires DistinctKeys(s) && KeysBelow(s, |s|) && 0 <= k < |t|
    ensures |t| == |s| && t[k].wasPacked == k
  {
    InSeq(t, s, k);
    KeysStayDistinct(s, t, |s|);
    IncreasingKeys(t, k);
    IncreasingKeysAbove(t, k);
  }

  /** Two sequences of distinct keys, position-wise the same requests, unsorted to `t`: slot k of `t` is the request
      of key k. */
  lemma UnsortedRequest(tagged: seq<Rect>, sorted: seq<Rect>, packed: seq<Rect>, t: seq<Rect>, k: int)
    requires forall i :: 0 <= i < |tagged| ==> tagged[i].wasPacked == i
    requires multiset(sorted) == multiset(tagged) && SameRequests(packed, sorted)
    requires multiset(t) == multiset(packed) && Ordered(t, ByOriginal) && 0 <= k < |t|
    ensures |t| == |tagged| && SameRequest(t[k], tagged[k])
  {
    KeysStayDistinct(tagged, sorted, |tagged|);
    assert |multiset(sorted)| == |multiset(tagged)|;
    assert DistinctKeys(packed) && KeysBelow(packed, |packed|) by {
      forall i, j | 0 <= i < j < |packed|
        ensures packed[i].wasPacked != packed[j].wasPacked
      {
        assert SameRequest(packed[i], sorted[i]) && SameRequest(packed[j], sorted[j]);
      }
    }
    SortRestoresOrder(packed, t, k);
    InSeq(t, packed, k);
    var i :| 0 <= i < |packed| && packed[i] == t[k];
    InSeq(sorted, tagged, i);
  }

  /** Disjointness does not depend on the order of the slots. */
  lemma DisjointUnderSort(s: seq<Rect>, t: seq<Rect>)
    requires multiset(s) == multiset(t) && DistinctKeys(t) && PairwiseDisjoint(s)
    ensures PairwiseDisjoint(t)
  {
    forall i, j | 0 <= i < j < |t| && Located(t[i]) && Located(t[j])
      ensures Disjoint(BoxOf(t[i]), BoxOf(t[j]))
    {
      InSeq(t, s, i);
      InSeq(t, s, j);
      var a :| 0 <= a < |s| && s[a] == t[i];
      var b :| 0 <= b < |s| && s[b] == t[j];
      assert a != b;
      assert Disjoint(BoxOf(s[a]), BoxOf(s[b])) || Disjoint(BoxOf(s[b]), BoxOf(s[a]));
    }
  }

  // ---- Rising skylines ----

  ghost predicate Risen(a: seq<int>, b: seq<int>) {
    |a| == |b| && forall c :: 0 <= c < |a| ==> a[c] <= b[c]
  }

  lemma RestRises(a: seq<int>, b: seq<int>, x: int, w: int)
    requires Risen(a, b) && 0 <= x && 0 <= w && x + w <= |a|
    ensures Rest(a, x, w) <= Rest(b, x, w)
  {
    if c :| x <= c < x + w && a[c] == Rest(a, x, w) {
      assert b[c] <= Rest(b, x, w);
    }
  }

  /** What does not fit on a skyline does not fit on any higher one. */
  lemma NoFitStays(a: seq<int>, b: seq<int>, w: int, h: int, height: int)
    requires Risen(a, b)
    ensures FitsSomewhere(b, w, h, height) ==> FitsSomewhere(a, w, h, height)
  {
    forall x | FitsAt(b, w, h, height, x)
      ensures FitsAt(a, w, h, height, x)
    {
      RestRises(a, b, x, w);
    }
  }

  // ---- The call ----

  method Tag(rects: array<Rect>)
    modifies rects
    ensures forall i :: 0 <= i < rects.Length ==> rects[i] == old(rects[i]).(wasPacked := i)
  {
    for i := 0 to rects.Length
      invariant forall j :: 0 <= j < i ==> rects[j] == old(rects[j]).(wasPacked := j)
      invariant forall j :: i <= j < rects.Length ==> rects[j] == old(rects[j])
    {
      rects[i] := rects[i].(wasPacked := i);
    }
  }

  method SortInPlace(rects: array<Rect>, sort: Sort, o: Order)
    requires Conforming(sort)
    modifies rects
    ensures multiset(rects[..]) == multiset(old(rects[..])) && Ordered(rects[..], o)
  {
    var s := sort(rects[..], o);
    assert multiset(s) == multiset(rects[..]);
    assert |multiset(s)| == |multiset(rects[..])|;
    forall i | 0 <= i < rects.Length {
      rects[i] := s[i];
    }
    assert rects[..] == s;
  }

  /** What stays the same over all calls on one context. */
  datatype Target = Target(width: int, height: int, align: int, heuristic: Heuristic, numNodes: int)

  ghost function TargetOf(ctx: Context): Target
    reads ctx
  {
    Target(ctx.width, ctx.height, ctx.align, ctx.heuristic, ctx.numNodes)
  }

  /** The skyline the packer stands at: its nodes and the columns they draw. */
  datatype Stand = Stand(line: seq<Point>, sky: seq<int>)

  ghost function StandOf(ctx: Context): Stand
    reads ctx
  {
    Stand(ctx.line, ctx.sky)
  }

  /** Either every node is in use, or the rectangle fits nowhere. */
  ghost predicate Refusing(target: Target, at: Stand, r: Rect) {
    && 0 < r.w && 0 < target.align
    && (|at.line| == target.numNodes + 2 || !FitsSomewhere(at.sky, RoundUp(r.w, target.align), r.h, target.height))
  }

  /** The rectangle was inserted at segment k, where it rests lowest, and raised `lift` columns. */
  ghost predicate PutAt(target: Target, from: Stand, to: Stand, r: Rect, lift: int, k: int) {
    && 0 < r.w && 0 < target.align
    && Placement(target.heuristic, from.line, from.sky, to.sky, BoxOf(r), lift, RoundUp(r.w, target.align),
                 target.height)
    && InsertedAt(from.line, to.line, k, lift, r.x, r.w, r.y + r.h)
  }

  /** One rectangle's turn: an empty one is put at the origin, another is left unplaced exactly when it is refused,
      and else inserted where the heuristic has it. */
  ghost predicate Turned(target: Target, from: Stand, to: Stand, r: Rect) {
    && (Empty(r) ==> r.x == 0 && r.y == 0)
    && (!Empty(r) ==> (Unplaced(r) <==> Refusing(target, from, r)))
    && if Located(r) then exists lift, k :: PutAt(target, from, to, r, lift, k) else to == from
  }

  /** On a target whose nodes cannot run out, a rectangle left unplaced has no room on the skyline `sky`. */
  ghost predicate Refused(target: Target, sky: seq<int>, r: Rect) {
    && 0 < r.w && 0 < target.align
    && (!NodesCanRunOut(target.width, target.height, target.align, target.numNodes)
        ==> !FitsSomewhere(sky, RoundUp(r.w, target.align), r.h, target.height))
  }

  /** A slot after its turn: an empty one at the origin, an unplaced one refused. */
  ghost predicate SlotServed(target: Target, sky: seq<int>, r: Rect) {
    (Empty(r) ==> r.x == 0 && r.y == 0) && (!Empty(r) && Unplaced(r) ==> Refused(target, sky, r))
  }

  lemma RefusedIs(ctx: Context, r: Rect)
    requires ctx.Valid() && 0 < r.w && 0 < r.h && Refusing(TargetOf(ctx), StandOf(ctx), r)
    ensures Refused(TargetOf(ctx), ctx.sky, r)
  {
    hide Context.Valid, FitsSomewhere, RoundUp, NodesCanRunOut;
    NodesOf(ctx);
    if ctx.free == [] && FitsSomewhere(ctx.sky, RoundUp(r.w, ctx.align), r.h, ctx.height) {
      ctx.OutOfNodes(r.w, r.h);
    }
  }

  lemma OneBox(r: Rect)
    ensures Boxes([r]) == if Located(r) then [BoxOf(r)] else []
  {}

  method PackOne(ctx: Context, r: Rect) returns (r': Rect)
    requires ctx.Valid() && 0 <= r.w && 0 <= r.h
    modifies ctx`activeHead, ctx`freeHead, ctx`active, ctx`free, ctx`line, ctx`sky, ctx`placed, ctx.nodes
    ensures ctx.Valid() && SameRequest(r', r)
    ensures SlotServed(TargetOf(ctx), ctx.sky, r')
    ensures ctx.placed == old(ctx.placed) + Boxes([r'])
    ensures Risen(old(ctx.sky), ctx.sky)
    ensures 0 < ctx.align && Turned(TargetOf(ctx), old(StandOf(ctx)), StandOf(ctx), r')
    ensures r.w == 0 || r.h == 0 ==> r'.x == 0 && r'.y == 0
    ensures r.w > 0 && r.h > 0 ==>
      (r'.x == 0x7fff_ffff && r'.y == 0x7fff_ffff
       <==> old(ctx.free) == [] || !FitsSomewhere(old(ctx.sky), RoundUp(r.w, ctx.align), r.h, ctx.height))
  {
    hide Context.Valid, Placement, InsertedAt, FitsSomewhere, RoundUp, Packing, Boxes, Refused;
    NodesOf(ctx);
    OneBox(r.(x := MAXVAL, y := MAXVAL));
    if r.w == 0 || r.h == 0 {
      r' := r.(x := 0, y := 0);
      OneBox(r');
      return;
    }
    ghost var sky := ctx.sky;
    if Refusing(TargetOf(ctx), StandOf(ctx), r) {
      RefusedIs(ctx, r.(x := MAXVAL, y := MAXVAL));
    }
    var fr, lift, k := ctx.PackRectangle(r.w, r.h);
    if fr.link != Missing {
      r' := r.(x := fr.x, y := fr.y);
      assert PutAt(TargetOf(ctx), old(StandOf(ctx)), StandOf(ctx), r', lift, k);
      LastIsInside(ctx);
      PlacementRises(ctx.heuristic, old(ctx.line), sky, ctx.sky, BoxOf(r'), lift, RoundUp(r.w, ctx.align), ctx.height);
    } else {
      r' := r.(x := MAXVAL, y := MAXVAL);
    }
    OneBox(r');
  }

  /** A placed rectangle is not at the coordinates that mark one without a place. */
  lemma LastIsInside(ctx: Context)
    requires ctx.Valid() && |ctx.placed| > 0
    ensures ctx.placed[|ctx.placed| - 1].w > 0 ==> ctx.placed[|ctx.placed| - 1].x != MAXVAL
  {
    assert Inside(ctx.placed[|ctx.placed| - 1], ctx.width, ctx.height);
  }

  lemma PlacementRises(heur: Heuristic, line: seq<Point>, sky: seq<int>, sky': seq<int>, b: Box, lift: int,
                       window: int, height: int)
    requires Placement(heur, line, sky, sky', b, lift, window, height)
    ensures Risen(sky, sky')
  {
    hide RestsOn, LowestRest, BottomLeft, BestFit, Raise;
  }

  /** A run of turns: one skyline before the first rectangle, and one after each. */
  ghost predicate Turns(target: Target, from: Stand, stands: seq<Stand>, to: Stand, rs: seq<Rect>) {
    && |stands| == |rs| + 1 && stands[0] == from && stands[|rs|] == to
    && forall i :: 0 <= i < |rs| ==> Turned(target, stands[i], stands[i + 1], rs[i])
  }

  lemma TurnNext(target: Target, from: Stand, stands: seq<Stand>, mid: Stand, to: Stand, rs: seq<Rect>, r: Rect)
    requires Turns(target, from, stands, mid, rs) && Turned(target, mid, to, r)
    ensures Turns(target, from, stands + [to], to, rs + [r])
  {
    hide Turned;
    var all, more := rs + [r], stands + [to];
    forall i | 0 <= i < |all|
      ensures Turned(target, more[i], more[i + 1], all[i])
    {
      assert i < |rs| ==> all[i] == rs[i];
    }
  }

  ghost predicate Requests(rects: seq<Rect>) {
    forall i :: 0 <= i < |rects| ==> 0 <= rects[i].w && 0 <= rects[i].h
  }

  /** Every slot after its turn. */
  ghost predicate AllServed(target: Target, sky: seq<int>, rects: seq<Rect>) {
    Requests(rects) && forall i :: 0 <= i < |rects| ==> SlotServed(target, sky, rects[i])
  }

  /** What was served stays served when columns rise. */
  lemma ServedRises(target: Target, sky: seq<int>, sky': seq<int>, rs: seq<Rect>)
    requires AllServed(target, sky, rs) && Risen(sky, sky')
    ensures AllServed(target, sky', rs)
  {
    forall i | 0 <= i < |rs| && !Empty(rs[i]) && Unplaced(rs[i])
      ensures Refused(target, sky', rs[i])
    {
      NoFitStays(sky, sky', RoundUp(rs[i].w, target.align), rs[i].h, target.height);
    }
  }

  lemma ServeOne(target: Target, sky: seq<int>, sky': seq<int>, done: seq<Rect>, r: Rect)
    requires AllServed(target, sky, done) && Risen(sky, sky')
    requires 0 <= r.w && 0 <= r.h && SlotServed(target, sky', r)
    ensures AllServed(target, sky', done + [r])
  {
    hide SlotServed;
    ServedRises(target, sky, sky', done);
  }

  /** State of the packing loop: the first i slots had their turns, the others are still as asked. */
  ghost predicate Served(target: Target, from: Stand, stands: seq<Stand>, to: Stand, placed0: seq<Box>,
                         placed: seq<Box>, asked: seq<Rect>, rs: seq<Rect>, i: int)
  {
    && 0 <= i <= |rs| == |asked|
    && Turns(target, from, stands, to, rs[..i])
    && AllServed(target, to.sky, rs[..i])
    && (forall j :: 0 <= j < i ==> SameRequest(rs[j], asked[j]))
    && (forall j :: i <= j < |rs| ==> rs[j] == asked[j])
    && placed == placed0 + Boxes(rs[..i])
    && Risen(from.sky, to.sky)
  }

  lemma ServeNext(target: Target, from: Stand, stands: seq<Stand>, mid: Stand, to: Stand, placed0: seq<Box>,
                  placed: seq<Box>, asked: seq<Rect>, rs: seq<Rect>, i: int, r: Rect)
    requires Served(target, from, stands, mid, placed0, placed, asked, rs, i) && i < |rs| && Requests(asked)
    requires SameRequest(r, asked[i]) && Turned(target, mid, to, r) && Risen(mid.sky, to.sky)
    requires SlotServed(target, to.sky, r)
    ensures Served(target, from, stands + [to], to, placed0, placed + Boxes([r]), asked, rs[i := r], i + 1)
  {
    hide AllServed, Boxes, SlotServed, Turns, Turned;
    var done := rs[..i];
    assert rs[i := r][..i + 1] == done + [r];
    ServeOne(target, mid.sky, to.sky, done, r);
    TurnNext(target, from, stands, mid, to, done, r);
    BoxesSplit(done, [r]);
  }

  lemma ServedStart(target: Target, from: Stand, placed: seq<Box>, asked: seq<Rect>)
    ensures Served(target, from, [from], from, placed, placed, asked, asked, 0)
  {
    assert asked[..0] == [];
  }

  lemma ServedRequests(target: Target, from: Stand, stands: seq<Stand>, to: Stand, placed0: seq<Box>, placed: seq<Box>,
                       asked: seq<Rect>, rs: seq<Rect>, i: int)
    requires Requests(asked) && Served(target, from, stands, to, placed0, placed, asked, rs, i)
    ensures i < |rs| ==> rs[i] == asked[i] && 0 <= rs[i].w && 0 <= rs[i].h
  {}

  lemma ServedAll(target: Target, from: Stand, stands: seq<Stand>, to: Stand, placed0: seq<Box>, placed: seq<Box>,
                  asked: seq<Rect>, rs: seq<Rect>)
    requires Served(target, from, stands, to, placed0, placed, asked, rs, |rs|)
    ensures Turns(target, from, stands, to, rs)
    ensures AllServed(target, to.sky, rs) && Risen(from.sky, to.sky) && placed == placed0 + Boxes(rs)
    ensures SameRequests(rs, asked)
  {
    assert rs[..|rs|] == rs;
  }

  /** Packs slot i, the first i being done. */
  method PackSlot(ctx: Context, rects: array<Rect>, i: int, ghost target: Target, ghost from: Stand,
                  ghost stands: seq<Stand>, ghost placed0: seq<Box>, ghost asked: seq<Rect>)
    requires ctx.Valid() && TargetOf(ctx) == target && 0 <= i < rects.Length && Requests(asked)
    requires Served(target, from, stands, StandOf(ctx), placed0, ctx.placed, asked, rects[..], i)
    modifies ctx`activeHead, ctx`freeHead, ctx`active, ctx`free, ctx`line, ctx`sky, ctx`placed, ctx.nodes, rects
    ensures ctx.Valid() && TargetOf(ctx) == target
    ensures Served(target, from, stands + [StandOf(ctx)], StandOf(ctx), placed0, ctx.placed, asked, rects[..], i + 1)
  {
    hide Served, Context.Valid, Requests, Boxes, Risen, SameRequest, SlotServed, Empty, Unplaced, Turned,
      FitsSomewhere, RoundUp;
    ghost var rs, placed, mid := rects[..], ctx.placed, StandOf(ctx);
    ServedRequests(target, from, stands, mid, placed0, placed, asked, rs, i);
    var r := PackOne(ctx, rects[i]);
    ServeNext(target, from, stands, mid, StandOf(ctx), placed0, placed, asked, rs, i, r);
    rects[i] := r;
    assert rects[..] == rs[i := r];
  }

  method PackSorted(ctx: Context, rects: array<Rect>) returns (ghost stands: seq<Stand>)
    requires ctx.Valid() && Requests(rects[..])
    modifies ctx`activeHead, ctx`freeHead, ctx`active, ctx`free, ctx`line, ctx`sky, ctx`placed, ctx.nodes, rects
    ensures ctx.Valid() && AllServed(TargetOf(ctx), ctx.sky, rects[..])
    ensures Turns(TargetOf(ctx), old(StandOf(ctx)), stands, StandOf(ctx), rects[..])
    ensures SameRequests(rects[..], old(rects[..]))
    ensures ctx.placed == old(ctx.placed) + Boxes(rects[..])
    ensures Risen(old(ctx.sky), ctx.sky)
  {
    ghost var placed0, target, asked, from := ctx.placed, TargetOf(ctx), rects[..], StandOf(ctx);
    hide Served, AllServed, Context.Valid, Requests, Boxes, Risen, SameRequests, Turns;
    var i := 0;
    stands := [from];
    ServedStart(target, from, placed0, asked);
    while i < rects.Length
      invariant 0 <= i <= rects.Length
      invariant ctx.Valid() && TargetOf(ctx) == target
      invariant Served(target, from, stands, StandOf(ctx), placed0, ctx.placed, asked, rects[..], i)
    {
      PackSlot(ctx, rects, i, target, from, stands, placed0, asked);
      stands := stands + [StandOf(ctx)];
      i := i + 1;
    }
    ServedAll(target, from, stands, StandOf(ctx), placed0, ctx.placed, asked, rects[..]);
  }

  /** The located rectangles of `rs` extend the packing `placed0`: inside the target, apart from it and from each
      other. */
  ghost predicate Extends(rs: seq<Rect>, placed0: seq<Box>, width: int, height: int) {
    && PairwiseDisjoint(rs)
    && (forall i :: 0 <= i < |rs| && Located(rs[i]) ==> Inside(BoxOf(rs[i]), width, height))
    && (forall i, j :: 0 <= i < |rs| && Located(rs[i]) && 0 <= j < |placed0| ==> Disjoint(placed0[j], BoxOf(rs[i])))
  }

  lemma ExtendsUnderSort(s: seq<Rect>, t: seq<Rect>, placed0: seq<Box>, width: int, height: int)
    requires multiset(s) == multiset(t) && DistinctKeys(t) && Extends(s, placed0, width, height)
    ensures Extends(t, placed0, width, height)
  {
    DisjointUnderSort(s, t);
    forall i | 0 <= i < |t| && Located(t[i])
      ensures Inside(BoxOf(t[i]), width, height)
      ensures forall j :: 0 <= j < |placed0| ==> Disjoint(placed0[j], BoxOf(t[i]))
    {
      InSeq(t, s, i);
    }
  }

  lemma ServedUnderSort(target: Target, sky: seq<int>, s: seq<Rect>, t: seq<Rect>)
    requires multiset(s) == multiset(t) && AllServed(target, sky, s)
    ensures AllServed(target, sky, t)
  {
    forall i | 0 <= i < |t|
      ensures t[i] in s
    {
      InSeq(t, s, i);
    }
  }

  /** The public flag in place of the internal key. */
  function Reported(r: Rect): Rect {
    r.(wasPacked := if Unplaced(r) then 0 else 1)
  }

  ghost predicate Flagged(rs: seq<Rect>, out: seq<Rect>) {
    |out| == |rs| && forall i :: 0 <= i < |rs| ==> out[i] == Reported(rs[i])
  }

  lemma {:induction false} FlaggedBoxes(rs: seq<Rect>, out: seq<Rect>)
    requires Flagged(rs, out)
    ensures Boxes(out) == Boxes(rs)
    decreases |rs|
  {
    if rs != [] {
      FlaggedBoxes(rs[..|rs| - 1], out[..|out| - 1]);
    }
  }

  method Report(rects: array<Rect>) returns (all: bool)
    modifies rects
    ensures Flagged(old(rects[..]), rects[..])
    ensures all <==> forall i :: 0 <= i < rects.Length ==> rects[i].wasPacked == 1
  {
    all := true;
    for i := 0 to rects.Length
      invariant forall j :: 0 <= j < i ==> rects[j] == Reported(old(rects[j]))
      invariant forall j :: i <= j < rects.Length ==> rects[j] == old(rects[j])
      invariant all <==> forall j :: 0 <= j < i ==> rects[j].wasPacked == 1
    {
      rects[i] := Reported(rects[i]);
      if rects[i].wasPacked == 0 {
        all := false;
      }
    }
  }

  /** Every slot keeps its id, w and h; the flag is raised exactly when the slot has a position. */
  ghost predicate SameSlots(before: seq<Rect>, out: seq<Rect>) {
    && |out| == |before|
    && (forall i :: 0 <= i < |out| ==> out[i].id == before[i].id && out[i].w == before[i].w && out[i].h == before[i].h)
    && (forall i :: 0 <= i < |out| ==> out[i].wasPacked == if out[i].x == out[i].y == 0x7fff_ffff then 0 else 1)
  }

  /** What the caller gets back: the same requests in the same slots, each served, the placed ones a packing
      that the context now also holds, over a skyline that has only risen. */
  ghost predicate Answer(before: seq<Rect>, out: seq<Rect>, target: Target,
                         sky0: seq<int>, sky: seq<int>, placed0: seq<Box>, placed: seq<Box>)
  {
    && SameSlots(before, out)
    && AllServed(target, sky, out)
    && Extends(out, placed0, target.width, target.height)
    && placed0 <= placed && multiset(placed) == multiset(placed0) + multiset(Boxes(out))
    && Risen(sky0, sky)
  }

  /** Between the two sorts: the tagged slots were sorted by height and packed in that order. */
  ghost predicate Prepared(before: seq<Rect>, tagged: seq<Rect>, sorted: seq<Rect>, packed: seq<Rect>, target: Target,
                           sky0: seq<int>, sky: seq<int>, placed0: seq<Box>, placed: seq<Box>)
  {
    && |tagged| == |before| && (forall i :: 0 <= i < |tagged| ==> tagged[i] == before[i].(wasPacked := i))
    && multiset(sorted) == multiset(tagged) && Ordered(sorted, ByHeight) && SameRequests(packed, sorted)
    && AllServed(target, sky, packed)
    && placed == placed0 + Boxes(packed) && Risen(sky0, sky)
  }

  /** After the second sort: every slot has its own request back, and reports whether it has a position. */
  ghost predicate Restored(packed: seq<Rect>, unsorted: seq<Rect>, out: seq<Rect>) {
    multiset(unsorted) == multiset(packed) && Ordered(unsorted, ByOriginal) && Flagged(unsorted, out)
  }

  lemma AnswerIs(before: seq<Rect>, tagged: seq<Rect>, sorted: seq<Rect>, packed: seq<Rect>, unsorted: seq<Rect>,
                 out: seq<Rect>, target: Target, sky0: seq<int>, sky: seq<int>, placed0: seq<Box>, placed: seq<Box>)
    requires Prepared(before, tagged, sorted, packed, target, sky0, sky, placed0, placed)
    requires Packing(placed, target.width, target.height) && Restored(packed, unsorted, out)
    ensures Answer(before, out, target, sky0, sky, placed0, placed)
  {
    hide Boxes, Ordered, Risen;
    UnsortedRequests(before, tagged, sorted, packed, unsorted);
    hide SameRequests;
    LocatedAreDisjoint(packed, placed0, target.width, target.height);
    assert Extends(packed, placed0, target.width, target.height);
    hide Extends, AllServed, DistinctKeys, PairwiseDisjoint, Inside, Disjoint, Located, Flagged, SameSlots;
    ExtendsUnderSort(packed, unsorted, placed0, target.width, target.height);
    ServedUnderSort(target, sky, packed, unsorted);
    BoxesPermute(packed, unsorted);
    FlaggedBoxes(unsorted, out);
    FlaggedAnswer(unsorted, out, target, sky, placed0);
    PlacedTogether(placed0, Boxes(packed), Boxes(out));
    FlaggedRequests(before, unsorted, out);
  }

  lemma PlacedTogether(placed0: seq<Box>, a: seq<Box>, b: seq<Box>)
    requires multiset(a) == multiset(b)
    ensures placed0 <= placed0 + a && multiset(placed0 + a) == multiset(placed0) + multiset(b)
  {}

  lemma FlaggedRequests(before: seq<Rect>, rs: seq<Rect>, out: seq<Rect>)
    requires |rs| == |before| && Flagged(rs, out)
    requires forall i :: 0 <= i < |rs| ==> rs[i].id == before[i].id && rs[i].w == before[i].w && rs[i].h == before[i].h
    ensures SameSlots(before, out)
  {}

  /** Every slot gets its own request back, and the keys are distinct on the way. */
  lemma UnsortedRequests(before: seq<Rect>, tagged: seq<Rect>, sorted: seq<Rect>, packed: seq<Rect>,
                         unsorted: seq<Rect>)
    requires |tagged| == |before| && forall i :: 0 <= i < |tagged| ==> tagged[i] == before[i].(wasPacked := i)
    requires multiset(sorted) == multiset(tagged) && SameRequests(packed, sorted)
    requires multiset(unsorted) == multiset(packed) && Ordered(unsorted, ByOriginal)
    ensures |unsorted| == |before| && DistinctKeys(unsorted)
    ensures forall i :: 0 <= i < |unsorted| ==>
      unsorted[i].id == before[i].id && unsorted[i].w == before[i].w && unsorted[i].h == before[i].h
  {
    SameLengths(tagged, sorted);
    SameLengths(packed, unsorted);
    forall k | 0 <= k < |unsorted|
      ensures |unsorted| == |before| && SameRequest(unsorted[k], tagged[k])
    {
      UnsortedRequest(tagged, sorted, packed, unsorted, k);
    }
  }

  lemma SameLengths(s: seq<Rect>, t: seq<Rect>)
    requires multiset(s) == multiset(t)
    ensures |s| == |t|
  {
    assert |multiset(s)| == |multiset(t)|;
  }

  lemma FlaggedAnswer(rs: seq<Rect>, out: seq<Rect>, target: Target,
                      sky: seq<int>, placed0: seq<Box>)
    requires Flagged(rs, out)
    requires AllServed(target, sky, rs) && Extends(rs, placed0, target.width, target.height)
    ensures AllServed(target, sky, out) && Extends(out, placed0, target.width, target.height)
  {
    forall i | 0 <= i < |out|
      ensures Located(out[i]) == Located(rs[i]) && BoxOf(out[i]) == BoxOf(rs[i])
    {
    }
  }

  /** How a call went: the slots in the order they were packed, under their keys, and the skylines from turn to turn. */
  datatype Call = Call(packed: seq<Rect>, stands: seq<Stand>)

  /** The taller first, and of two as tall the wider. */
  ghost predicate TallestFirst(rs: seq<Rect>) {
    forall i, j :: 0 <= i < j < |rs| ==> rs[i].h > rs[j].h || (rs[i].h == rs[j].h && rs[i].w >= rs[j].w)
  }

  /** Every slot had its one turn, the tallest first, and slot `out[k]` reports the rectangle of key k. */
  ghost predicate Played(target: Target, from: Stand, to: Stand, call: Call, out: seq<Rect>) {
    && Turns(target, from, call.stands, to, call.packed)
    && |call.packed| == |out| && TallestFirst(call.packed)
    && DistinctKeys(call.packed) && KeysBelow(call.packed, |out|)
    && forall i :: 0 <= i < |out| ==> out[call.packed[i].wasPacked] == Reported(call.packed[i])
  }

  lemma PlayedIs(target: Target, from: Stand, to: Stand, stands: seq<Stand>,
                 tagged: seq<Rect>, sorted: seq<Rect>, packed: seq<Rect>, unsorted: seq<Rect>, out: seq<Rect>)
    requires forall i :: 0 <= i < |tagged| ==> tagged[i].wasPacked == i
    requires multiset(sorted) == multiset(tagged) && Ordered(sorted, ByHeight) && SameRequests(packed, sorted)
    requires Restored(packed, unsorted, out) && Turns(target, from, stands, to, packed)
    ensures Played(target, from, to, Call(packed, stands), out)
  {
    hide Turns, Unplaced;
    SameLengths(tagged, sorted);
    SameLengths(packed, unsorted);
    KeysStayDistinct(tagged, sorted, |tagged|);
    SameKeys(sorted, packed, |tagged|);
    forall i | 0 <= i < |packed|
      ensures out[packed[i].wasPacked] == Reported(packed[i])
    {
      InSeq(packed, unsorted, i);
      var k :| 0 <= k < |unsorted| && unsorted[k] == packed[i];
      SortRestoresOrder(packed, unsorted, k);
    }
  }

  /** What the keys and sizes say is the same for the same requests. */
  lemma SameKeys(sorted: seq<Rect>, packed: seq<Rect>, n: int)
    requires SameRequests(packed, sorted) && DistinctKeys(sorted) && KeysBelow(sorted, n) && Ordered(sorted, ByHeight)
    ensures DistinctKeys(packed) && KeysBelow(packed, n) && TallestFirst(packed)
  {
    forall i, j | 0 <= i < j < |packed|
      ensures packed[i].wasPacked != packed[j].wasPacked
      ensures packed[i].h > packed[j].h || (packed[i].h == packed[j].h && packed[i].w >= packed[j].w)
    {
      assert SameRequest(packed[i], sorted[i]) && SameRequest(packed[j], sorted[j]);
      assert Compare(ByHeight, sorted[i], sorted[j]) <= 0;
    }
  }

  /** Tags every slot with its index, sorts by height and packs in that order. */
  method SortAndPack(ctx: Context, rects: array<Rect>, sort: Sort)
    returns (ghost tagged: seq<Rect>, ghost sorted: seq<Rect>, ghost stands: seq<Stand>)
    requires ctx.Valid() && Requests(rects[..]) && Conforming(sort)
    modifies ctx`activeHead, ctx`freeHead, ctx`active, ctx`free, ctx`line, ctx`sky, ctx`placed, ctx.nodes, rects
    ensures ctx.Valid()
    ensures Prepared(old(rects[..]), tagged, sorted, rects[..], TargetOf(ctx), old(ctx.sky), ctx.sky,
                     old(ctx.placed), ctx.placed)
    ensures Turns(TargetOf(ctx), old(StandOf(ctx)), stands, StandOf(ctx), rects[..])
  {
    ghost var before := rects[..];
    hide Context.Valid, Conforming, Ordered, Requests, AllServed, Boxes, Risen, SameRequests, Turns;
    Tag(rects);
    tagged := rects[..];
    SortInPlace(rects, sort, ByHeight);
    sorted := rects[..];
    RequestsSorted(before, tagged, sorted);
    stands := PackSorted(ctx, rects);
  }

  /** Sorts back into the caller's order and replaces the keys by flags. */
  method UnsortAndReport(rects: array<Rect>, sort: Sort) returns (all: bool, ghost unsorted: seq<Rect>)
    requires Conforming(sort)
    modifies rects
    ensures Restored(old(rects[..]), unsorted, rects[..])
    ensures all <==> forall i :: 0 <= i < rects.Length ==> rects[i].wasPacked == 1
  {
    hide Conforming, Ordered, Flagged;
    SortInPlace(rects, sort, ByOriginal);
    unsorted := rects[..];
    all := Report(rects);
  }

  method PackRects(ctx: Context, rects: array<Rect>, sort: Sort) returns (all: bool, ghost call: Call)
    requires ctx.Valid() && Requests(rects[..]) && Conforming(sort)
    modifies ctx`activeHead, ctx`freeHead, ctx`active, ctx`free, ctx`line, ctx`sky, ctx`placed, ctx.nodes, rects
    ensures ctx.Valid()
    ensures Answer(old(rects[..]), rects[..], TargetOf(ctx), old(ctx.sky), ctx.sky, old(ctx.placed), ctx.placed)
    ensures Played(TargetOf(ctx), old(StandOf(ctx)), StandOf(ctx), call, rects[..])
    ensures all <==> forall i :: 0 <= i < rects.Length ==> rects[i].wasPacked == 1
  {
    hide Context.Valid, Conforming, Requests, Prepared, Restored, Answer, Packing, Turns, Played;
    ghost var before, placed0, sky0, from := rects[..], ctx.placed, ctx.sky, StandOf(ctx);
    ghost var tagged, sorted, stands := SortAndPack(ctx, rects, sort);
    ghost var packed := rects[..];
    call := Call(packed, stands);
    ghost var unsorted;
    all, unsorted := UnsortAndReport(rects, sort);
    ValidIsPacking(ctx);
    AnswerIs(before, tagged, sorted, packed, unsorted, rects[..], TargetOf(ctx), sky0, ctx.sky, placed0, ctx.placed);
    PreparedParts(before, tagged, sorted, packed, TargetOf(ctx), sky0, ctx.sky, placed0, ctx.placed);
    PlayedIs(TargetOf(ctx), from, StandOf(ctx), stands, tagged, sorted, packed, unsorted, rects[..]);
  }

  lemma PreparedParts(before: seq<Rect>, tagged: seq<Rect>, sorted: seq<Rect>, packed: seq<Rect>, target: Target,
                      sky0: seq<int>, sky: seq<int>, placed0: seq<Box>, placed: seq<Box>)
    requires Prepared(before, tagged, sorted, packed, target, sky0, sky, placed0, placed)
    ensures forall i :: 0 <= i < |tagged| ==> tagged[i].wasPacked == i
    ensures multiset(sorted) == multiset(tagged) && Ordered(sorted, ByHeight) && SameRequests(packed, sorted)
  {}

  lemma ValidIsPacking(ctx: Context)
    requires ctx.Valid()
    ensures Packing(ctx.placed, ctx.width, ctx.height)
  {}

  lemma RequestsSorted(before: seq<Rect>, tagged: seq<Rect>, sorted: seq<Rect>)
    requires Requests(before) && |tagged| == |before|
    requires forall i :: 0 <= i < |tagged| ==> tagged[i] == before[i].(wasPacked := i)
    requires multiset(sorted) == multiset(tagged)
    ensures Requests(sorted)
  {
    forall i | 0 <= i < |sorted|
      ensures 0 <= sorted[i].w && 0 <= sorted[i].h
    {
      InSeq(sorted, tagged, i);
    }
  }

  // ---- Many calls on one context ----

  lemma RisenTwice(a: seq<int>, b: seq<int>, c: seq<int>)
    requires Risen(a, b) && Risen(b, c)
    ensures Risen(a, c)
  {}

  ghost function AllBoxes(batches: seq<array<Rect>>): multiset<Box>
    reads batches
  {
    if batches == [] then multiset{}
    else AllBoxes(batches[..|batches| - 1]) + multiset(Boxes(batches[|batches| - 1][..]))
  }

  lemma NoBatch()
    ensures AllBoxes([]) == multiset{}
  {}

  lemma OneMoreBatch(batches: seq<array<Rect>>, i: int)
    requires 0 <= i < |batches|
    ensures AllBoxes(batches[..i + 1]) == AllBoxes(batches[..i]) + multiset(Boxes(batches[i][..]))
  {
    assert batches[..i + 1][..i] == batches[..i];
  }

  ghost function Contents(batches: seq<array<Rect>>): seq<seq<Rect>>
    reads batches
  {
    if batches == [] then [] else Contents(batches[..|batches| - 1]) + [batches[|batches| - 1][..]]
  }

  lemma {:induction false} ContentsAt(batches: seq<array<Rect>>, j: int)
    requires 0 <= j < |batches|
    ensures |Contents(batches)| == |batches| && Contents(batches)[j] == batches[j][..]
  {
    var front := batches[..|batches| - 1];
    if j < |front| {
      ContentsAt(front, j);
    } else if front != [] {
      ContentsAt(front, 0);
    }
  }

  /** The first i batches have their requests in their slots, each served; the others are as they came. */
  ghost predicate Answered(now: seq<seq<Rect>>, asked: seq<seq<Rect>>, i: int, target: Target, sky: seq<int>)
  {
    && 0 <= i <= |now| == |asked|
    && (forall j :: 0 <= j < i ==> SameSlots(asked[j], now[j]) && AllServed(target, sky, now[j]))
    && (forall j :: i <= j < |now| ==> now[j] == asked[j])
  }

  /** One more batch is answered, and the earlier answers stand. */
  lemma AnsweredNext(was: seq<seq<Rect>>, now: seq<seq<Rect>>, asked: seq<seq<Rect>>, i: int, target: Target,
                     sky: seq<int>, sky': seq<int>)
    requires Answered(was, asked, i, target, sky) && i < |was|
    requires |now| == |was| && forall j :: 0 <= j < |now| && j != i ==> now[j] == was[j]
    requires SameSlots(was[i], now[i]) && AllServed(target, sky', now[i])
    requires Risen(sky, sky')
    ensures Answered(now, asked, i + 1, target, sky')
  {
    hide SameSlots, AllServed, Risen;
    forall j | 0 <= j < i
      ensures SameSlots(asked[j], now[j]) && AllServed(target, sky', now[j])
    {
      ServedRises(target, sky, sky', now[j]);
    }
  }

  /** How many calls went: each played from where the one before left the skyline. */
  datatype History = History(calls: seq<Call>, marks: seq<Stand>)

  ghost predicate Recorded(target: Target, history: History, now: seq<seq<Rect>>, i: int) {
    && 0 <= i <= |now| && |history.calls| == i && |history.marks| == i + 1
    && forall j :: 0 <= j < i ==> Played(target, history.marks[j], history.marks[j + 1], history.calls[j], now[j])
  }

  lemma RecordedNext(target: Target, history: History, was: seq<seq<Rect>>, now: seq<seq<Rect>>, i: int, call: Call,
                     to: Stand)
    requires Recorded(target, history, was, i) && i < |was| == |now| && forall j :: 0 <= j < i ==> now[j] == was[j]
    requires Played(target, history.marks[i], to, call, now[i])
    ensures Recorded(target, History(history.calls + [call], history.marks + [to]), now, i + 1)
  {
    hide Played;
  }

  /** i batches are packed: they are answered, and the context holds exactly the old boxes and theirs. */
  ghost predicate Batched(ctx: Context, batches: seq<array<Rect>>, asked: seq<seq<Rect>>, i: int, from: Stand,
                          placed0: seq<Box>, history: History)
    reads ctx, ctx.active, ctx.free, batches
  {
    && ctx.Valid() && Risen(from.sky, ctx.sky) && 0 <= i <= |batches|
    && Recorded(TargetOf(ctx), history, Contents(batches), i)
    && history.marks[0] == from && history.marks[i] == StandOf(ctx)
    && multiset(ctx.placed) == multiset(placed0) + AllBoxes(batches[..i])
    && (forall j :: i <= j < |batches| ==> Requests(batches[j][..]))
    && Answered(Contents(batches), asked, i, TargetOf(ctx), ctx.sky)
  }

  lemma AnswerParts(before: seq<Rect>, out: seq<Rect>, target: Target,
                    sky0: seq<int>, sky: seq<int>, placed0: seq<Box>, placed: seq<Box>)
    requires Answer(before, out, target, sky0, sky, placed0, placed)
    ensures SameSlots(before, out) && AllServed(target, sky, out) && Risen(sky0, sky)
    ensures multiset(placed) == multiset(placed0) + multiset(Boxes(out))
  {}

  method PackNext(ctx: Context, batches: seq<array<Rect>>, ghost asked: seq<seq<Rect>>, i: int, sort: Sort,
                  ghost from: Stand, ghost placed0: seq<Box>, ghost history: History)
    returns (ghost next: History)
    requires Batched(ctx, batches, asked, i, from, placed0, history) && 0 <= i < |batches| && Conforming(sort)
    requires forall i, j :: 0 <= i < j < |batches| ==> batches[i] != batches[j]
    modifies ctx`activeHead, ctx`freeHead, ctx`active, ctx`free, ctx`line, ctx`sky, ctx`placed, ctx.nodes, batches[i]
    ensures Batched(ctx, batches, asked, i + 1, from, placed0, next)
  {
    hide Context.Valid, Conforming, Risen, Requests, AllServed, SameSlots, Boxes, AllBoxes, Answered, Answer, Contents,
      Played;
    assert forall j :: 0 <= j < |batches| && j != i ==> batches[j] != batches[i];
    ghost var was, before, sky, placed := Contents(batches), batches[i][..], ctx.sky, ctx.placed;
    AllContents(batches);
    var all;
    ghost var call;
    all, call := PackRects(ctx, batches[i], sort);
    AllContents(batches);
    AnswerParts(before, batches[i][..], TargetOf(ctx), sky, ctx.sky, placed, ctx.placed);
    AnsweredNext(was, Contents(batches), asked, i, TargetOf(ctx), sky, ctx.sky);
    RecordedNext(TargetOf(ctx), history, was, Contents(batches), i, call, StandOf(ctx));
    next := History(history.calls + [call], history.marks + [StandOf(ctx)]);
    RisenTwice(from.sky, sky, ctx.sky);
    OneMoreBatch(batches, i);
  }

  lemma AllContents(batches: seq<array<Rect>>)
    ensures |Contents(batches)| == |batches|
    ensures forall j :: 0 <= j < |batches| ==> Contents(batches)[j] == batches[j][..]
  {
    forall j | 0 <= j < |batches|
      ensures |Contents(batches)| == |batches| && Contents(batches)[j] == batches[j][..]
    {
      ContentsAt(batches, j);
    }
  }

  /** The atlas builder's sequence of calls: after any number of batches every slot of every batch holds its own request
      and is served, every located rectangle is part of one packing, and no column of the skyline ever went down. */
  method PackBatches(ctx: Context, batches: seq<array<Rect>>, sort: Sort) returns (ghost history: History)
    requires ctx.Valid() && Conforming(sort)
    requires forall i, j :: 0 <= i < j < |batches| ==> batches[i] != batches[j]
    requires forall i :: 0 <= i < |batches| ==> Requests(batches[i][..])
    modifies ctx`activeHead, ctx`freeHead, ctx`active, ctx`free, ctx`line, ctx`sky, ctx`placed, ctx.nodes, batches
    ensures Packing(ctx.placed, ctx.width, ctx.height)
    ensures Batched(ctx, batches, old(Contents(batches)), |batches|, old(StandOf(ctx)), old(ctx.placed), history)
  {
    ghost var from, placed0, asked := StandOf(ctx), ctx.placed, Contents(batches);
    var i := 0;
    history := History([], [from]);
    hide Context.Valid, Conforming, Requests, Batched, Packing;
    NothingBatched(ctx, batches);
    while i < |batches|
      invariant 0 <= i <= |batches| && Batched(ctx, batches, asked, i, from, placed0, history)
    {
      history := PackNext(ctx, batches, asked, i, sort, from, placed0, history);
      i := i + 1;
    }
    BatchedPacking(ctx, batches, asked, i, from, placed0, history);
  }

  lemma NothingBatched(ctx: Context, batches: seq<array<Rect>>)
    requires ctx.Valid() && forall i :: 0 <= i < |batches| ==> Requests(batches[i][..])
    ensures Batched(ctx, batches, Contents(batches), 0, StandOf(ctx), ctx.placed, History([], [StandOf(ctx)]))
  {
    hide Context.Valid, Requests, SameSlots, AllServed, Contents, AllBoxes, Played;
    NoBatch();
    assert batches[..0] == [];
  }

  lemma BatchedPacking(ctx: Context, batches: seq<array<Rect>>, asked: seq<seq<Rect>>, i: int, from: Stand,
                       placed0: seq<Box>, history: History)
    requires Batched(ctx, batches, asked, i, from, placed0, history)
    ensures Packing(ctx.placed, ctx.width, ctx.height)
  {
    hide Contents, AllBoxes, Answered, Risen, Requests, Recorded;
  }
}
