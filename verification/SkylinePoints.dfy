/** The linked skyline as the sequence of its node positions, and the scan that finds a resting height.
    `Draws` ties the points to the column heights of SkylineColumns. */
module SkylinePoints {
  import opened SkylineColumns

  /** Initial best height of the search, and height of the sentinel node. */
  const TOP: int := 0x4000_0000

  datatype Point = Point(x: int, y: int)

  ghost predicate Increasing(s: seq<Point>) {
    forall i, j :: 0 <= i < j < |s| ==> s[i].x < s[j].x
  }

  ghost predicate Skyline(s: seq<Point>, width: int) {
    |s| >= 2 && s[0].x == 0 && s[|s| - 1] == Point(width, TOP) && Increasing(s)
  }

  predicate FlatAt(cols: seq<int>, lo: int, hi: int, y: int) {
    0 <= lo <= hi <= |cols| && forall c :: lo <= c < hi ==> cols[c] == y
  }

  /** Segment i of the skyline covers exactly columns s[i].x..s[i+1].x, at height s[i].y. */
  ghost predicate Draws(s: seq<Point>, cols: seq<int>) {
    && Skyline(s, |cols|)
    && forall i :: 0 <= i < |s| - 1 ==> FlatAt(cols, s[i].x, s[i + 1].x, s[i].y)
  }

  lemma PointInside(s: seq<Point>, width: int, i: int)
    requires Skyline(s, width) && 0 <= i < |s|
    ensures 0 <= s[i].x <= width
    ensures i < |s| - 1 ==> s[i].x < width
  {}

  /** The segment holding column x. */
  ghost function Locate(s: seq<Point>, width: int, x: int): (k: nat)
    requires Skyline(s, width) && 0 <= x < width
    ensures k < |s| - 1 && s[k].x <= x < s[k + 1].x
  {
    LocateExists(s, width, x, |s| - 1);
    var k: nat :| k < |s| - 1 && s[k].x <= x < s[k + 1].x;
    k
  }

  lemma {:induction false} LocateExists(s: seq<Point>, width: int, x: int, n: nat)
    requires Skyline(s, width) && 0 <= x && 0 < n < |s| && x < s[n].x
    ensures exists k: nat :: k < |s| - 1 && s[k].x <= x < s[k + 1].x
  {
    if s[n - 1].x <= x {
      assert s[n - 1].x <= x < s[(n - 1) + 1].x;
    } else {
      LocateExists(s, width, x, n - 1);
    }
  }

  lemma LocateIs(s: seq<Point>, width: int, x: int, k: nat)
    requires Skyline(s, width) && 0 <= x < width
    requires k < |s| - 1 && s[k].x <= x < s[k + 1].x
    ensures Locate(s, width, x) == k
  {
  }

  // ---- The scan of one candidate position ----

  /** The three running variables of the scan. */
  datatype Scan = Scan(minY: int, waste: int, visited: int)

  /** One visited node, with the x of its successor. */
  function ScanStep(st: Scan, node: Point, nextX: int, x0: int, w: int): Scan {
    if node.y > st.minY then
      Scan(node.y, st.waste + st.visited * (node.y - st.minY),
           st.visited + (if node.x < x0 then nextX - x0 else nextX - node.x))
    else
      var full := nextX - node.x;
      var under := if full + st.visited > w then w - st.visited else full;
      Scan(st.minY, st.waste + under * (st.minY - node.y), st.visited + under)
  }

  function ScanFrom(s: seq<Point>, i: nat, x0: int, w: int, st: Scan): Scan
    requires i < |s| && x0 + w <= s[|s| - 1].x
    decreases |s| - i
  {
    if s[i].x < x0 + w then
      ScanFrom(s, i + 1, x0, w, ScanStep(st, s[i], s[i + 1].x, x0, w))
    else st
  }

  /** Where the next unvisited column of the window starts. */
  function Front(s: seq<Point>, i: nat, x0: int): int
    requires i < |s|
  {
    if s[i].x < x0 then x0 else s[i].x
  }

  /** The scan's height is the resting height, whatever the first node. */
  lemma {:induction false} ScanHeight(s: seq<Point>, cols: seq<int>, i: nat, x0: int, w: int, st: Scan)
    requires Draws(s, cols) && i < |s| && 0 <= x0 && 0 < w && x0 + w <= |cols|
    requires s[i].x <= x0 ==> i < |s| - 1 && x0 < s[i + 1].x
    requires st.minY == MaxHeight(cols, x0, if Front(s, i, x0) < x0 + w then Front(s, i, x0) else x0 + w)
    requires forall c :: 0 <= c < |cols| ==> 0 <= cols[c]
    ensures ScanFrom(s, i, x0, w, st).minY == Rest(cols, x0, w)
    decreases |s| - i
  {
    if s[i].x < x0 + w {
      PointInside(s, |cols|, i);
      var next := ScanStep(st, s[i], s[i + 1].x, x0, w);
      var hi := if s[i + 1].x < x0 + w then s[i + 1].x else x0 + w;
      PointInside(s, |cols|, i + 1);
      assert FlatAt(cols, s[i].x, s[i + 1].x, s[i].y);
      MaxHeightExtend(cols, x0, Front(s, i, x0), hi, s[i].y);
      ScanHeight(s, cols, i + 1, x0, w, next);
    }
  }

  /** State of an exact scan about to visit node i: all columns before the front counted once. */
  ghost predicate ExactScan(s: seq<Point>, cols: seq<int>, i: nat, x0: int, w: int, st: Scan)
    requires i < |s| && 0 <= x0 && 0 < w && x0 + w <= |cols|
  {
    && st.minY >= 0
    && (s[i].x < x0 + w ==> st.visited == Front(s, i, x0) - x0)
    && st.waste == Shortfall(cols, x0, if Front(s, i, x0) < x0 + w then Front(s, i, x0) else x0 + w, st.minY)
  }

  /** The node is higher: everything counted so far now wastes the difference as well. */
  lemma ScanRaiseExact(cols: seq<int>, x0: int, lo: int, hi: int, minY: int, y: int)
    requires 0 <= x0 <= lo <= hi <= |cols|
    requires forall c :: lo <= c < hi ==> cols[c] == y
    ensures Shortfall(cols, x0, hi, y) == Shortfall(cols, x0, lo, minY) + (lo - x0) * (y - minY)
  {
    ShortfallExtend(cols, x0, lo, hi, y, y);
    ShortfallRaise(cols, x0, lo, minY, y);
  }

  lemma ScanStepExact(s: seq<Point>, cols: seq<int>, i: nat, x0: int, w: int, st: Scan)
    requires Draws(s, cols) && i < |s| - 1 && 0 <= x0 && 0 < w && x0 + w <= |cols|
    requires s[i].x < x0 + w && x0 < s[i + 1].x
    requires s[i].x < x0 ==> s[i].y > st.minY
    requires ExactScan(s, cols, i, x0, w, st)
    ensures ExactScan(s, cols, i + 1, x0, w, ScanStep(st, s[i], s[i + 1].x, x0, w))
  {
    PointInside(s, |cols|, i);
    PointInside(s, |cols|, i + 1);
    var lo := Front(s, i, x0);
    var hi := if s[i + 1].x < x0 + w then s[i + 1].x else x0 + w;
    var y := s[i].y;
    assert FlatAt(cols, s[i].x, s[i + 1].x, y);
    var next := ScanStep(st, s[i], s[i + 1].x, x0, w);
    if y > st.minY {
      ScanRaiseExact(cols, x0, lo, hi, st.minY, y);
      assert next.waste == st.waste + (lo - x0) * (y - st.minY);
    } else {
      ShortfallExtend(cols, x0, lo, hi, st.minY, y);
      assert next.waste == st.waste + (hi - lo) * (st.minY - y);
    }
  }

  /** The scan's waste is the exact shortfall when every visited column has been counted once. */
  lemma {:induction false} ScanWasteFrom(s: seq<Point>, cols: seq<int>, i: nat, x0: int, w: int, st: Scan)
    requires Draws(s, cols) && i < |s| && 0 <= x0 && 0 < w && x0 + w <= |cols|
    requires s[i].x <= x0 ==> i < |s| - 1 && x0 < s[i + 1].x
    requires s[i].x < x0 ==> s[i].y > st.minY
    requires ExactScan(s, cols, i, x0, w, st)
    ensures var r := ScanFrom(s, i, x0, w, st); r.waste == Shortfall(cols, x0, x0 + w, r.minY)
    decreases |s| - i
  {
    if s[i].x < x0 + w {
      PointInside(s, |cols|, i + 1);
      ScanStepExact(s, cols, i, x0, w, st);
      ScanWasteFrom(s, cols, i + 1, x0, w, ScanStep(st, s[i], s[i + 1].x, x0, w));
    }
  }

  const START := Scan(0, 0, 0)

  /** What find_min_y reports for a window of width w at x0. */
  ghost function Probe(s: seq<Point>, width: int, x0: int, w: int): Scan
    requires Skyline(s, width) && 0 <= x0 && 0 < w && x0 + w <= width
  {
    ScanFrom(s, Locate(s, width, x0), x0, w, START)
  }

  /** The branch guard that decides whether the reported waste can be trusted: the window starts on the
      node itself, or the node is above the floor. */
  predicate CountsEachColumnOnce(first: Point, x0: int) {
    first.x == x0 || first.y > 0
  }

  lemma ProbeIsRest(s: seq<Point>, cols: seq<int>, x0: int, w: int)
    requires Draws(s, cols) && 0 <= x0 && 0 < w && x0 + w <= |cols|
    requires forall c :: 0 <= c < |cols| ==> 0 <= cols[c]
    ensures Probe(s, |cols|, x0, w).minY == Rest(cols, x0, w)
  {
    ScanHeight(s, cols, Locate(s, |cols|, x0), x0, w, START);
  }

  lemma ProbeWaste(s: seq<Point>, cols: seq<int>, x0: int, w: int)
    requires Draws(s, cols) && 0 <= x0 && 0 < w && x0 + w <= |cols|
    requires forall c :: 0 <= c < |cols| ==> 0 <= cols[c]
    requires CountsEachColumnOnce(s[Locate(s, |cols|, x0)], x0)
    ensures Probe(s, |cols|, x0, w).waste == Shortfall(cols, x0, x0 + w, Rest(cols, x0, w))
  {
    ProbeIsRest(s, cols, x0, w);
    ScanWasteFrom(s, cols, Locate(s, |cols|, x0), x0, w, START);
  }

  /** The reported waste is exact for every skyline and window width, if and only if the guard holds:
      `d` is how far the window starts past its first node, `y` that node's height. */
  lemma WasteExactIff(d: nat, y: nat)
    ensures WasteAlwaysExact(d, y) <==> CountsEachColumnOnce(Point(0, y), d)
  {
    if CountsEachColumnOnce(Point(0, y), d) {
      forall s, cols, x0, w | WasteCase(s, cols, x0, w, d, y)
        ensures Probe(s, |cols|, x0, w).waste == Shortfall(cols, x0, x0 + w, Rest(cols, x0, w))
      {
        ProbeWaste(s, cols, x0, w);
      }
    } else {
      var s := [Point(0, 0), Point(d + 1, 1), Point(d + 2, TOP)];
      var cols := Flat(d + 1, 0) + [1];
      assert Draws(s, cols);
      LocateIs(s, d + 2, d, 0);
      ProbeIsRest(s, cols, d, 2);
      var one := ScanStep(START, s[0], s[1].x, d, 2);
      assert one == Scan(0, 0, 2);
      var two := ScanStep(one, s[1], s[2].x, d, 2);
      assert two == Scan(1, 2, 3);
      assert ScanFrom(s, 2, d, 2, two) == two;
      assert ScanFrom(s, 1, d, 2, one) == two;
      assert Probe(s, |cols|, d, 2) == two;
      assert Shortfall(cols, d, d + 2, 1) == Shortfall(cols, d, d + 1, 1) == 1;
      assert WasteCase(s, cols, d, 2, d, y);
    }
  }

  ghost predicate WasteCase(s: seq<Point>, cols: seq<int>, x0: int, w: int, d: nat, y: nat) {
    && Draws(s, cols) && 0 <= x0 && 0 < w && x0 + w <= |cols|
    && (forall c :: 0 <= c < |cols| ==> 0 <= cols[c])
    && var first := s[Locate(s, |cols|, x0)]; first.x == x0 - d && first.y == y
  }

  ghost predicate WasteAlwaysExact(d: nat, y: nat) {
    forall s, cols, x0, w :: WasteCase(s, cols, x0, w, d, y)
      ==> Probe(s, |cols|, x0, w).waste == Shortfall(cols, x0, x0 + w, Rest(cols, x0, w))
  }

  // ---- Which positions need to be tried ----

  /** Sliding a rectangle left onto the node under its left edge never makes it rest higher. */
  lemma NodeIsNoWorse(s: seq<Point>, cols: seq<int>, x: int, w: int)
    requires Draws(s, cols) && 0 <= x && 0 < w && x + w <= |cols|
    ensures var k := Locate(s, |cols|, x);
      0 <= s[k].x <= x && Rest(cols, s[k].x, w) <= Rest(cols, x, w)
  {
    var k := Locate(s, |cols|, x);
    var m, n := Rest(cols, s[k].x, w), Rest(cols, x, w);
    assert FlatAt(cols, s[k].x, s[k + 1].x, s[k].y);
    if m > 0 {
      var c :| s[k].x <= c < s[k].x + w && cols[c] == m;
      assert c < x ==> cols[c] == cols[x];
    }
  }

  /** Positions the best-fit search tries: left edge on a node, or right edge on a node or the sentinel. */
  ghost predicate Candidate(s: seq<Point>, width: int, w: int, x: int) {
    && 0 <= x && x + w <= width
    && ((exists i :: 0 <= i < |s| && s[i].x == x) || (exists t :: 0 <= t < |s| && s[t].x == x + w))
  }

  // ---- Insertion ----

  /** The first node from j on whose successor starts beyond `right`. */
  function SkipTo(s: seq<Point>, j: nat, right: int): (r: nat)
    requires j < |s|
    ensures j <= r < |s|
    ensures r == |s| - 1 || s[r + 1].x > right
    ensures forall i :: j < i <= r ==> s[i].x <= right
    decreases |s| - j
  {
    if j + 1 < |s| && s[j + 1].x <= right then SkipTo(s, j + 1, right) else j
  }

  /** Where the new node goes: on node k, or just after it when the rectangle starts inside its segment. */
  function Slot(s: seq<Point>, k: nat, x: int): nat
    requires k < |s|
  {
    if s[k].x < x then k + 1 else k
  }

  /** The right end of the raised window. */
  function RightEnd(s: seq<Point>, k: nat, x: int, w: int): int
    requires k + 1 < |s|
  {
    Max(s[SkipTo(s, Slot(s, k, x), x + w)].x, x + w)
  }

  function Insert(s: seq<Point>, k: nat, x: int, w: int, top: int): seq<Point>
    requires k + 1 < |s|
  {
    var keep := Slot(s, k, x);
    var stop := SkipTo(s, keep, x + w);
    s[..keep] + [Point(x, top), Point(RightEnd(s, k, x, w), s[stop].y)] + s[stop + 1..]
  }

  /** A rectangle starting on a node, or reaching the next one, raises exactly its own columns. */
  lemma RightEndBounds(s: seq<Point>, width: int, k: nat, x: int, w: int, window: int)
    requires Skyline(s, width) && k + 1 < |s| && s[k].x <= x < s[k + 1].x
    requires 0 < w <= window && x + window <= width
    requires s[k].x == x || s[k + 1].x <= x + window
    ensures x + w <= RightEnd(s, k, x, w) <= x + window
    ensures w == window ==> RightEnd(s, k, x, w) == x + w
  {}

  /** The elements of the new point sequence, one range at a time. */
  ghost predicate Inserted(s: seq<Point>, k: nat, x: int, w: int, top: int, t: seq<Point>, keep: nat, stop: nat)
    requires k + 1 < |s|
  {
    && keep == Slot(s, k, x) && stop == SkipTo(s, keep, x + w)
    && |t| == keep + 1 + |s| - stop
    && (forall i :: 0 <= i < keep ==> t[i] == s[i])
    && t[keep] == Point(x, top) && t[keep + 1] == Point(RightEnd(s, k, x, w), s[stop].y)
    && (forall i :: keep + 1 < i < |t| ==> t[i] == s[i - keep - 1 + stop])
  }

  lemma InsertElements(s: seq<Point>, k: nat, x: int, w: int, top: int)
    requires k + 1 < |s|
    ensures var keep := Slot(s, k, x);
      Inserted(s, k, x, w, top, Insert(s, k, x, w, top), keep, SkipTo(s, keep, x + w))
  {}

  /** The new node's left neighbours start before x, its right neighbours after the raised window. */
  lemma InsertedNeighbours(s: seq<Point>, width: int, k: nat, x: int, w: int, top: int, t: seq<Point>, keep: nat,
                           stop: nat)
    requires Skyline(s, width) && k + 1 < |s| && s[k].x <= x < s[k + 1].x
    requires 0 < w && x + w <= width
    requires Inserted(s, k, x, w, top, t, keep, stop)
    ensures keep <= stop < |s| && x < RightEnd(s, k, x, w)
    ensures forall i :: 0 <= i < keep ==> t[i].x < x
    ensures forall j :: keep + 1 < j < |t| ==> t[j].x > RightEnd(s, k, x, w)
    ensures stop == |s| - 1 ==> RightEnd(s, k, x, w) == width
  {
    forall j | keep + 1 < j < |t|
      ensures t[j].x > RightEnd(s, k, x, w)
    {
      var m := j - keep - 1 + stop;
      assert s[m].x >= s[stop + 1].x > x + w;
    }
  }

  lemma InsertedIsSkyline(s: seq<Point>, width: int, k: nat, x: int, w: int, top: int, t: seq<Point>, keep: nat,
                          stop: nat)
    requires Skyline(s, width) && k + 1 < |s| && 0 <= s[k].x <= x < s[k + 1].x
    requires 0 < w && x + w <= width
    requires Inserted(s, k, x, w, top, t, keep, stop)
    ensures Skyline(t, width)
  {
    InsertedNeighbours(s, width, k, x, w, top, t, keep, stop);
    assert keep == 0 ==> s[k].x == x && k == 0;
    hide SkipTo, Slot, RightEnd;
    forall i, j | 0 <= i < j < |t|
      ensures t[i].x < t[j].x
    {
      if j < keep {
        assert s[i].x < s[j].x;
      } else if i > keep + 1 {
        assert s[i - keep - 1 + stop].x < s[j - keep - 1 + stop].x;
      }
    }
  }

  lemma SegmentIsFlat(s: seq<Point>, cols: seq<int>, m: nat)
    requires Draws(s, cols) && m + 1 < |s|
    ensures FlatAt(cols, s[m].x, s[m + 1].x, s[m].y)
  {}

  /** Where each segment of the new line but the inserted one comes from, and on which side of the window it lies. */
  lemma InsertedSource(s: seq<Point>, width: int, k: nat, x: int, w: int, top: int, t: seq<Point>, keep: nat,
                       stop: nat, i: nat)
    requires Skyline(s, width) && k + 1 < |s| && s[k].x <= x < s[k + 1].x
    requires 0 < w && x + w <= width
    requires Inserted(s, k, x, w, top, t, keep, stop) && i != keep && i + 1 < |t| && t[i].x <= t[i + 1].x
    ensures
      var m := if i < keep then i else i - keep - 1 + stop;
      && 0 <= m && m + 1 < |s| && t[i].y == s[m].y && s[m].x <= t[i].x && t[i + 1].x <= s[m + 1].x
    ensures t[i + 1].x <= x || RightEnd(s, k, x, w) <= t[i].x
  {
    InsertedNeighbours(s, width, k, x, w, top, t, keep, stop);
    if i < keep {
      assert i + 1 < keep ==> s[i + 1].x <= x;
    }
  }

  lemma FlatPart(cols: seq<int>, lo: int, hi: int, y: int, lo': int, hi': int)
    requires FlatAt(cols, lo, hi, y) && lo <= lo' <= hi' <= hi
    ensures FlatAt(cols, lo', hi', y)
  {}

  lemma InsertedSegment(s: seq<Point>, cols: seq<int>, k: nat, x: int, w: int, top: int,
                        t: seq<Point>, keep: nat, stop: nat, i: nat)
    requires Draws(s, cols) && k + 1 < |s| && 0 <= s[k].x <= x < s[k + 1].x
    requires 0 < w && x + w <= |cols|
    requires Inserted(s, k, x, w, top, t, keep, stop) && i != keep && i + 1 < |t| && t[i].x <= t[i + 1].x
    ensures FlatAt(cols, t[i].x, t[i + 1].x, t[i].y)
    ensures t[i + 1].x <= x || RightEnd(s, k, x, w) <= t[i].x
  {
    hide Draws, FlatAt, Inserted, Skyline, RightEnd, SkipTo, Slot;
    DrawsIsSkyline(s, cols);
    InsertedSource(s, |cols|, k, x, w, top, t, keep, stop, i);
    var m := if i < keep then i else i - keep - 1 + stop;
    SegmentIsFlat(s, cols, m);
    FlatPart(cols, s[m].x, s[m + 1].x, s[m].y, t[i].x, t[i + 1].x);
  }

  lemma FlatRaise(cols: seq<int>, x: int, w: int, top: int, lo: int, hi: int, y: int)
    requires 0 <= x && 0 <= w && x + w <= |cols|
    requires (FlatAt(cols, lo, hi, y) && (hi <= x || x + w <= lo)) || (lo == x && hi == x + w && y == top)
    ensures FlatAt(Raise(cols, x, w, top), lo, hi, y)
  {
    RaiseColumns(cols, x, w, top);
  }

  lemma InsertedFlat(s: seq<Point>, cols: seq<int>, k: nat, x: int, w: int, top: int,
                     t: seq<Point>, keep: nat, stop: nat, right: int, i: nat)
    requires Draws(s, cols) && k + 1 < |s| && 0 <= s[k].x <= x < s[k + 1].x
    requires 0 < w && x + w <= |cols| && right == RightEnd(s, k, x, w) && x <= right <= |cols|
    requires Inserted(s, k, x, w, top, t, keep, stop) && i + 1 < |t| && Skyline(t, |cols|)
    ensures FlatAt(Raise(cols, x, right - x, top), t[i].x, t[i + 1].x, t[i].y)
  {
    assert t[i].x <= t[i + 1].x;
    hide SkipTo, RightEnd, Raise, FlatAt, Slot, Skyline;
    if i == keep {
      FlatRaise(cols, x, right - x, top, x, right, top);
    } else {
      InsertedSegment(s, cols, k, x, w, top, t, keep, stop, i);
      FlatRaise(cols, x, right - x, top, t[i].x, t[i + 1].x, t[i].y);
    }
  }

  lemma DrawsIsSkyline(s: seq<Point>, cols: seq<int>)
    requires Draws(s, cols)
    ensures Skyline(s, |cols|)
  {}

  lemma RightEndInside(s: seq<Point>, width: int, k: nat, x: int, w: int)
    requires Skyline(s, width) && k + 1 < |s| && x + w <= width
    ensures x + w <= RightEnd(s, k, x, w) <= width
  {
    PointInside(s, width, SkipTo(s, Slot(s, k, x), x + w));
  }

  lemma InsertedDraws(s: seq<Point>, cols: seq<int>, k: nat, x: int, w: int, top: int,
                      t: seq<Point>, keep: nat, stop: nat, right: int)
    requires Draws(s, cols) && k + 1 < |s| && 0 <= s[k].x <= x < s[k + 1].x
    requires 0 < w && x + w <= |cols| && right == RightEnd(s, k, x, w) && x <= right <= |cols|
    requires Inserted(s, k, x, w, top, t, keep, stop)
    ensures Draws(t, Raise(cols, x, right - x, top))
  {
    DrawsIsSkyline(s, cols);
    hide SkipTo, Slot, RightEnd, Raise, FlatAt, Skyline, Inserted;
    RaiseColumns(cols, x, right - x, top);
    InsertedIsSkyline(s, |cols|, k, x, w, top, t, keep, stop);
    forall i | 0 <= i < |t| - 1
      ensures FlatAt(Raise(cols, x, right - x, top), t[i].x, t[i + 1].x, t[i].y)
    {
      InsertedFlat(s, cols, k, x, w, top, t, keep, stop, right, i);
    }
  }

  /** Inserting the new node draws the skyline with the rectangle's window raised. */
  lemma InsertDraws(s: seq<Point>, cols: seq<int>, k: nat, x: int, w: int, top: int)
    requires Draws(s, cols) && k + 1 < |s| && 0 <= s[k].x <= x < s[k + 1].x
    requires 0 < w && x + w <= |cols|
    ensures x + w <= RightEnd(s, k, x, w) <= |cols|
    ensures Draws(Insert(s, k, x, w, top), Raise(cols, x, RightEnd(s, k, x, w) - x, top))
  {
    hide Insert, SkipTo, Slot, RightEnd, Raise, Draws, Skyline, Inserted, Max, FlatAt;
    DrawsIsSkyline(s, cols);
    RightEndInside(s, |cols|, k, x, w);
    InsertElements(s, k, x, w, top);
    var keep := Slot(s, k, x);
    InsertedDraws(s, cols, k, x, w, top, Insert(s, k, x, w, top), keep, SkipTo(s, keep, x + w), RightEnd(s, k, x, w));
  }

  // ---- One floor segment at a time ----

  /** No two neighbouring segments are both on the floor. */
  ghost predicate OneFloor(s: seq<Point>) {
    forall i :: 0 < i < |s| - 1 ==> s[i - 1].y != 0 || s[i].y != 0
  }

  /** The new node stands above the floor and parts what is left of the segment it was put on. */
  lemma InsertOneFloor(s: seq<Point>, k: nat, x: int, w: int, top: int)
    requires OneFloor(s) && k + 1 < |s| && top != 0
    ensures OneFloor(Insert(s, k, x, w, top))
  {
    hide Insert, SkipTo, RightEnd;
    var t, keep := Insert(s, k, x, w, top), Slot(s, k, x);
    var stop := SkipTo(s, keep, x + w);
    InsertElements(s, k, x, w, top);
    forall i | 0 < i < |t| - 1
      ensures t[i - 1].y != 0 || t[i].y != 0
    {
      if i < keep {
        assert t[i - 1] == s[i - 1] && t[i] == s[i];
      } else if i > keep + 1 {
        var m := i - keep - 1 + stop;
        assert t[i] == s[m] && t[i - 1].y == s[m - 1].y;
      }
    }
  }

  lemma {:induction false} ColumnsRight(s: seq<Point>, width: int, j: nat)
    requires Skyline(s, width) && j < |s|
    ensures width - s[j].x >= |s| - 1 - j
    decreases |s| - j
  {
    if j + 1 < |s| {
      assert s[j].x < s[j + 1].x;
      ColumnsRight(s, width, j + 1);
    }
  }

  lemma NextIsHigher(s: seq<Point>, cols: seq<int>, k: nat)
    requires Draws(s, cols) && OneFloor(s) && k + 1 < |s| - 1 && s[k].y == 0
    ensures 0 <= s[k + 1].x < |cols| && cols[s[k + 1].x] != 0
  {
    SegmentIsFlat(s, cols, k + 1);
    DrawsIsSkyline(s, cols);
    assert s[k + 1].x < s[k + 2].x;
    assert s[k].y != 0 || s[k + 1].y != 0;
  }

  /** A free stretch of floor is a single segment, so every other node needs a column outside it. */
  lemma FloorLeavesColumns(s: seq<Point>, cols: seq<int>, x: int, w: int)
    requires Draws(s, cols) && OneFloor(s) && 0 <= x && 0 < w && x + w <= |cols|
    requires forall c :: x <= c < x + w ==> cols[c] == 0
    ensures |s| - 2 + w <= |cols|
  {
    DrawsIsSkyline(s, cols);
    var k := Locate(s, |cols|, x);
    SegmentIsFlat(s, cols, k);
    assert cols[x] == s[k].y;
    if k + 1 < |s| - 1 {
      NextIsHigher(s, cols, k);
    }
    IncreasingLength(s, |cols|, k);
    ColumnsRight(s, |cols|, k + 1);
  }

  lemma {:induction false} IncreasingLength(s: seq<Point>, width: int, n: nat)
    requires Skyline(s, width) && n < |s|
    ensures s[n].x >= n
  {
    if n > 0 {
      IncreasingLength(s, width, n - 1);
    }
  }
}
