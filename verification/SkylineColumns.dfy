/** The skyline as a plain sequence of column heights: the reference model that the linked
    skyline of imstb_rectpack.h is proved against. */
module SkylineColumns {

  /** A placed rectangle. */
  datatype Box = Box(x: int, y: int, w: int, h: int)

  function Max(a: int, b: int): int {
    if a > b then a else b
  }

  /** The height at which a rectangle over columns lo..hi comes to rest. */
  function MaxHeight(cols: seq<int>, lo: int, hi: int): (m: int)
    requires 0 <= lo <= hi <= |cols|
    ensures m >= 0
    ensures forall c :: lo <= c < hi ==> cols[c] <= m
    ensures m == 0 || exists c :: lo <= c < hi && cols[c] == m
    decreases hi - lo
  {
    if lo == hi then 0 else Max(cols[hi - 1], MaxHeight(cols, lo, hi - 1))
  }

  function Rest(cols: seq<int>, x: int, w: int): int
    requires 0 <= x && 0 <= w && x + w <= |cols|
  {
    MaxHeight(cols, x, x + w)
  }

  /** The area left empty under height y over columns lo..hi. */
  function Shortfall(cols: seq<int>, lo: int, hi: int, y: int): int
    requires 0 <= lo <= hi <= |cols|
    decreases hi - lo
  {
    if lo == hi then 0 else Shortfall(cols, lo, hi - 1, y) + (y - cols[hi - 1])
  }

  function Area(cols: seq<int>): int {
    if cols == [] then 0 else Area(cols[..|cols| - 1]) + cols[|cols| - 1]
  }

  function Flat(w: nat, top: int): (r: seq<int>)
    ensures |r| == w && forall c :: 0 <= c < w ==> r[c] == top
  {
    seq(w, _ => top)
  }

  /** Columns x..x+w lifted to `top`. */
  function Raise(cols: seq<int>, x: int, w: int, top: int): (r: seq<int>)
    requires 0 <= x && 0 <= w && x + w <= |cols|
  {
    cols[..x] + Flat(w, top) + cols[x + w..]
  }

  lemma RaiseColumns(cols: seq<int>, x: int, w: int, top: int)
    requires 0 <= x && 0 <= w && x + w <= |cols|
    ensures |Raise(cols, x, w, top)| == |cols|
    ensures forall c :: 0 <= c < |cols| ==> Raise(cols, x, w, top)[c] == if x <= c < x + w then top else cols[c]
  {}

  /** What rests on the floor lies over free columns. */
  lemma RestsOnFloor(cols: seq<int>, x: int, w: int)
    requires 0 <= x && 0 <= w && x + w <= |cols| && Rest(cols, x, w) <= 0
    requires forall c :: 0 <= c < |cols| ==> 0 <= cols[c]
    ensures forall c :: x <= c < x + w ==> cols[c] == 0
  {}

  /** A flat run of columns extends the resting height by one comparison. */
  lemma MaxHeightExtend(cols: seq<int>, lo: int, mid: int, hi: int, y: int)
    requires 0 <= lo <= mid < hi <= |cols|
    requires forall c :: mid <= c < hi ==> cols[c] == y
    ensures MaxHeight(cols, lo, hi) == Max(MaxHeight(cols, lo, mid), y)
  {
    var a, b := MaxHeight(cols, lo, mid), MaxHeight(cols, lo, hi);
    assert cols[mid] == y;
  }

  lemma {:induction false} ShortfallExtend(cols: seq<int>, lo: int, mid: int, hi: int, y: int, h: int)
    requires 0 <= lo <= mid <= hi <= |cols|
    requires forall c :: mid <= c < hi ==> cols[c] == h
    ensures Shortfall(cols, lo, hi, y) == Shortfall(cols, lo, mid, y) + (hi - mid) * (y - h)
    decreases hi - mid
  {
    if mid < hi {
      ShortfallExtend(cols, lo, mid, hi - 1, y, h);
      assert (hi - mid) * (y - h) == (hi - 1 - mid) * (y - h) + (y - h);
    }
  }

  lemma {:induction false} ShortfallRaise(cols: seq<int>, lo: int, hi: int, y: int, y': int)
    requires 0 <= lo <= hi <= |cols|
    ensures Shortfall(cols, lo, hi, y') == Shortfall(cols, lo, hi, y) + (hi - lo) * (y' - y)
    decreases hi - lo
  {
    if lo < hi {
      ShortfallRaise(cols, lo, hi - 1, y, y');
      assert (hi - lo) * (y' - y) == (hi - 1 - lo) * (y' - y) + (y' - y);
    }
  }

  /** Under the resting height the wasted area lies between 0 and the whole window. */
  lemma {:induction false} ShortfallBounds(cols: seq<int>, lo: int, hi: int, y: int)
    requires 0 <= lo <= hi <= |cols|
    requires forall c :: lo <= c < hi ==> 0 <= cols[c] <= y
    ensures 0 <= Shortfall(cols, lo, hi, y) <= (hi - lo) * y
    decreases hi - lo
  {
    if lo < hi {
      ShortfallBounds(cols, lo, hi - 1, y);
      assert (hi - lo) * y == (hi - 1 - lo) * y + y;
    }
  }

  lemma {:induction false} AreaSplit(a: seq<int>, b: seq<int>)
    ensures Area(a + b) == Area(a) + Area(b)
    decreases |b|
  {
    if b == [] {
      assert a + b == a;
    } else {
      assert (a + b)[..|a + b| - 1] == a + b[..|b| - 1];
      AreaSplit(a, b[..|b| - 1]);
    }
  }

  lemma AreaThree(a: seq<int>, b: seq<int>, c: seq<int>)
    ensures Area(a + b + c) == Area(a) + Area(b) + Area(c)
  {
    AreaSplit(a + b, c);
    AreaSplit(a, b);
  }

  lemma {:induction false} AreaFlat(cols: seq<int>, x: int, w: int, top: int)
    requires 0 <= x && 0 <= w && x + w <= |cols|
    ensures Area(Flat(w, top)) == Area(cols[x..x + w]) + Shortfall(cols, x, x + w, top)
    decreases w
  {
    if w > 0 {
      AreaFlat(cols, x, w - 1, top);
      assert Flat(w, top)[..w - 1] == Flat(w - 1, top);
      assert cols[x..x + w][..w - 1] == cols[x..x + w - 1];
    } else {
      assert cols[x..x + w] == [];
    }
  }

  /** Raising a window to y + h adds the rectangle and the area wasted beneath it, and nothing else. */
  lemma RaiseArea(cols: seq<int>, x: int, w: int, y: int, h: int)
    requires 0 <= x && 0 <= w && x + w <= |cols|
    ensures Area(Raise(cols, x, w, y + h)) == Area(cols) + w * h + Shortfall(cols, x, x + w, y)
  {
    AreaFlat(cols, x, w, y + h);
    ShortfallRaise(cols, x, x + w, y, y + h);
    AreaThree(cols[..x], Flat(w, y + h), cols[x + w..]);
    AreaThree(cols[..x], cols[x..x + w], cols[x + w..]);
    assert cols == cols[..x] + cols[x..x + w] + cols[x + w..];
    assert w * (y + h - y) == w * h;
  }

  // ---- What a correct packing is ----

  predicate Inside(b: Box, width: int, height: int) {
    0 <= b.x && 0 < b.w && b.x + b.w <= width && 0 <= b.y && 0 < b.h && b.y + b.h <= height
  }

  /** No unit cell lies in both boxes. */
  predicate Disjoint(a: Box, b: Box) {
    a.x + a.w <= b.x || b.x + b.w <= a.x || a.y + a.h <= b.y || b.y + b.h <= a.y
  }

  ghost predicate Packing(placed: seq<Box>, width: int, height: int) {
    && (forall i :: 0 <= i < |placed| ==> Inside(placed[i], width, height))
    && (forall i, j :: 0 <= i < j < |placed| ==> Disjoint(placed[i], placed[j]))
  }

  predicate Under(cols: seq<int>, b: Box) {
    forall c :: b.x <= c < b.x + b.w && 0 <= c < |cols| ==> b.y + b.h <= cols[c]
  }

  /** The skyline is at or above every placed rectangle on its columns. */
  ghost predicate Covers(cols: seq<int>, placed: seq<Box>) {
    forall i :: 0 <= i < |placed| ==> Under(cols, placed[i])
  }

  /** `b` rests on the skyline, possibly checked over a window wider than itself, as the rounded search does. */
  predicate RestsOn(cols: seq<int>, b: Box, window: int, height: int) {
    && 0 <= b.x && 0 < b.w <= window && b.x + window <= |cols|
    && 0 < b.h && b.y + b.h <= height && b.y == Rest(cols, b.x, window)
  }

  /** Placing a resting rectangle keeps the packing correct, keeps it covered, and never lowers a column.
      `lift` is the width of the raised window: at least the rectangle, at most the searched window. */
  lemma PlaceKeepsPacking(cols: seq<int>, placed: seq<Box>, b: Box, lift: int, window: int, height: int)
    requires Packing(placed, |cols|, height) && Covers(cols, placed) && RestsOn(cols, b, window, height)
    requires b.w <= lift <= window
    requires forall c :: 0 <= c < |cols| ==> 0 <= cols[c] <= height
    ensures Packing(placed + [b], |cols|, height)
    ensures Covers(Raise(cols, b.x, lift, b.y + b.h), placed + [b])
    ensures forall c :: 0 <= c < |cols| ==> cols[c] <= Raise(cols, b.x, lift, b.y + b.h)[c] <= height
  {
    var up := Raise(cols, b.x, lift, b.y + b.h);
    assert forall c :: b.x <= c < b.x + window ==> cols[c] <= b.y;
    RaiseColumns(cols, b.x, lift, b.y + b.h);
    assert forall c :: 0 <= c < |cols| ==> cols[c] <= up[c] <= height;
    forall i | 0 <= i < |placed|
      ensures Disjoint(placed[i], b) && Under(up, placed[i])
    {
      var p := placed[i];
      assert Under(cols, p) && Inside(p, |cols|, height);
      if p.x < b.x + b.w && b.x < p.x + p.w {
        var c := Max(p.x, b.x);
        assert p.y + p.h <= cols[c] <= b.y;
      }
    }
    assert Under(up, b);
  }

  // ---- What the two heuristics promise ----

  predicate AtLeftMost(cols: seq<int>, w: int, x: int, y: int, x': int)
    requires 0 <= x' && 0 <= w && x' + w <= |cols|
  {
    y < Rest(cols, x', w) || (y == Rest(cols, x', w) && x <= x')
  }

  /** (y, x) is the lexicographically least resting place over every column position, not only skyline nodes. */
  ghost predicate BottomLeft(cols: seq<int>, w: int, x: int, y: int) {
    && 0 <= x && 0 <= w && x + w <= |cols| && y == Rest(cols, x, w)
    && forall x' :: 0 <= x' <= |cols| - w ==> AtLeftMost(cols, w, x, y, x')
  }

  /** No column position lets the rectangle rest lower. */
  ghost predicate LowestRest(cols: seq<int>, w: int, x: int, y: int) {
    && 0 <= x && 0 <= w && x + w <= |cols| && y == Rest(cols, x, w)
    && forall x' :: 0 <= x' <= |cols| - w ==> y <= Rest(cols, x', w)
  }

  ghost predicate FitsAt(cols: seq<int>, w: int, h: int, height: int, x: int) {
    0 <= x && 0 <= w && x + w <= |cols| && Rest(cols, x, w) + h <= height
  }

  ghost predicate FitsSomewhere(cols: seq<int>, w: int, h: int, height: int) {
    exists x :: FitsAt(cols, w, h, height, x)
  }
}
