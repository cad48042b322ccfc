/**
 * Primitives written through reserved indices and vertices. Indices are 16 bits wide and are read
 * from the vertex offset of the command that draws them, so a primitive is right only if every index
 * survives the conversion and, read back from that offset, finds a vertex of the primitive itself.
 *
 * Where a vertex stands is left open; which input point and which rail of the stroke or the fill it
 * was made for is not.
 */
module DrawPrimitives {
  import opened Buffers
  import opened DrawCommands
  import opened DrawRecorder
  import opened DrawLists
  import opened Polygon

  // ---------------------------------------------------------------------------------------------
  // Reading indices back
  // ---------------------------------------------------------------------------------------------

  /** The vertex, among those from `start` on, that an index finds when drawn from a vertex offset. */
  function Target(index: Slot<nat>, vtx: seq<Slot<Vertex>>, offset: nat, start: nat): Slot<Vertex> {
    if index.Written? && start <= offset + index.value < |vtx| then vtx[offset + index.value] else Unwritten
  }

  function Targets(idx: seq<Slot<nat>>, vtx: seq<Slot<Vertex>>, offset: nat, start: nat): (t: seq<Slot<Vertex>>)
    ensures |t| == |idx|
  {
    seq(|idx|, i requires 0 <= i < |idx| => Target(idx[i], vtx, offset, start))
  }

  function P(point: nat, rail: nat): Slot<Vertex> {
    Written(OfPoint(point, rail))
  }

  /** Two triangles on the same three corners each, in whatever order. */
  predicate OnCorners(t: seq<Slot<Vertex>>, a: Slot<Vertex>, b: Slot<Vertex>, c: Slot<Vertex>) {
    |t| == 3 && multiset(t) == multiset{a, b, c}
  }

  /**
   * Six indices that cut the quad between two points and two rails along one of its diagonals:
   * both triangles have the ends of the diagonal, and one of the other two corners each.
   */
  predicate SplitsQuad(t: seq<Slot<Vertex>>, p: nat, q: nat, r: nat, s: nat) {
    && |t| == 6
    && (Halves(t[..3], t[3..], p, q, r, s) || Halves(t[3..], t[..3], p, q, r, s))
  }

  /** One half has both corners at p, the other both corners at q. */
  predicate Halves(atP: seq<Slot<Vertex>>, atQ: seq<Slot<Vertex>>, p: nat, q: nat, r: nat, s: nat) {
    || (OnCorners(atP, P(p, r), P(p, s), P(q, r)) && OnCorners(atQ, P(p, s), P(q, s), P(q, r)))
    || (OnCorners(atP, P(p, s), P(p, r), P(q, s)) && OnCorners(atQ, P(p, r), P(q, r), P(q, s)))
  }

  /** The quads between two points: one for each pair of rails. */
  predicate SplitsQuads(t: seq<Slot<Vertex>>, p: nat, q: nat, rails: seq<(nat, nat)>) {
    && |t| == 6 * |rails|
    && forall k | 0 <= k < |rails| :: SplitsQuad(t[6 * k..6 * k + 6], p, q, rails[k].0, rails[k].1)
  }

  /** The first `count` segments, one after another, each of them the quads between its two ends. */
  predicate Strips(t: seq<Slot<Vertex>>, count: nat, n: nat, rails: seq<(nat, nat)>)
    requires count <= n
    decreases count
  {
    if count == 0 then t == []
    else
      && |t| >= 6 * |rails|
      && SplitsQuads(t[|t| - 6 * |rails|..], count - 1, After(count - 1, n), rails)
      && Strips(t[..|t| - 6 * |rails|], count - 1, n, rails)
  }

  // ---------------------------------------------------------------------------------------------
  // Strokes
  // ---------------------------------------------------------------------------------------------

  datatype Stroke = Textured | Thin | Thick
  {
    /** Vertices for each point. */
    function Width(): nat {
      match this
      case Textured => 2
      case Thin => 3
      case Thick => 4
    }

    /** Indices for each segment. */
    function Indices(): nat {
      match this
      case Textured => 6
      case Thin => 12
      case Thick => 18
    }

    /** The rails between which a stroke is filled. */
    function Rails(): seq<(nat, nat)> {
      match this
      case Textured => [(0, 1)]
      case Thin => [(0, 2), (1, 0)]
      case Thick => [(1, 2), (1, 0), (2, 3)]
    }

    /** The corners of one segment's triangles: at its far end or not, and on which rail. */
    function Corners(): (r: seq<(bool, nat)>)
      ensures |r| == Indices() == 6 * |Rails()|
      ensures forall k | 0 <= k < |r| :: r[k].1 < Width()
    {
      match this
      case Textured =>
        [(true, 0), (false, 0), (false, 1),
         (true, 1), (false, 1), (true, 0)]
      case Thin =>
        [(true, 0), (false, 0), (false, 2),
         (false, 2), (true, 2), (true, 0),
         (true, 1), (false, 1), (false, 0),
         (false, 0), (true, 0), (true, 1)]
      case Thick =>
        [(true, 1), (false, 1), (false, 2),
         (false, 2), (true, 2), (true, 1),
         (true, 1), (false, 1), (false, 0),
         (false, 0), (true, 0), (true, 1),
         (true, 2), (false, 2), (false, 3),
         (false, 3), (true, 3), (true, 2)]
    }

    /** The indices of one segment, from the first vertex of each of its ends. */
    function Segment(idx1: nat, idx2: nat): (r: seq<nat>)
      ensures |r| == Indices()
    {
      seq(Indices(), k requires 0 <= k < |Corners()| => (if Corners()[k].0 then idx2 else idx1) + Corners()[k].1)
    }

    /** The vertices those indices are meant to find. */
    function Found(p: nat, q: nat): (r: seq<Slot<Vertex>>)
      ensures |r| == Indices()
    {
      seq(Indices(), k requires 0 <= k < |Corners()| => P(if Corners()[k].0 then q else p, Corners()[k].1))
    }

    /** The indices of the first `count` segments of a path of n points, from index `base` on. */
    function Path(base: nat, count: nat, n: nat): seq<nat>
      requires count <= n
    {
      if count == 0 then []
      else Path(base, count - 1, n) + Segment(base + Width() * (count - 1), base + Width() * After(count - 1, n))
    }
  }

  /** The vertices of one point. */
  function Row(point: nat, width: nat): seq<Vertex> {
    seq(width, r requires 0 <= r => OfPoint(point, r))
  }

  /** The vertices of the first n points, point by point. */
  function Rows(n: nat, width: nat): seq<Vertex> {
    if n == 0 then [] else Rows(n - 1, width) + Row(n - 1, width)
  }

  lemma {:induction false} RowsLength(n: nat, width: nat)
    ensures |Rows(n, width)| == n * width
  {
    if n > 0 {
      RowsLength(n - 1, width);
      assert n * width == (n - 1) * width + width;
    } else {
      assert n * width == 0;
    }
  }

  lemma {:induction false} PathLength(stroke: Stroke, base: nat, count: nat, n: nat)
    requires count <= n
    ensures |stroke.Path(base, count, n)| == count * stroke.Indices()
  {
    if count > 0 {
      PathLength(stroke, base, count - 1, n);
    }
  }

  lemma {:induction false} RowsRoom(i: nat, n: nat, width: nat)
    requires i < n
    ensures |Rows(i, width)| + width <= |Rows(n, width)|
  {
    if i < n - 1 {
      RowsRoom(i, n - 1, width);
    }
  }

  lemma {:induction false} PathRoom(stroke: Stroke, base: nat, i: nat, count: nat, n: nat)
    requires i < count <= n
    ensures |stroke.Path(base, i, n)| + stroke.Indices() <= |stroke.Path(base, count, n)|
  {
    if i < count - 1 {
      PathRoom(stroke, base, i, count - 1, n);
    }
  }

  lemma {:induction false} RowsAt(n: nat, width: nat, p: nat, r: nat)
    requires p < n && r < width
    ensures width * p + r < |Rows(n, width)|
    ensures Rows(n, width)[width * p + r] == OfPoint(p, r)
  {
    RowsLength(n - 1, width);
    RowsLength(n, width);
    if p == n - 1 {
      assert width * p == (n - 1) * width;
    } else {
      RowsAt(n - 1, width, p, r);
    }
  }

  /** The new vertices stand at the end of the buffer, where the current offset and index point. */
  ghost predicate NewRows(vtx: seq<Slot<Vertex>>, offset: nat, base: nat, n: nat, width: nat) {
    && base + n * width < INDEX_LIMIT
    && |vtx| == offset + base + n * width
    && vtx[offset + base..] == AllWritten(Rows(n, width))
  }

  /** An index of point p and rail r survives the conversion and finds that point and rail. */
  lemma FindsPoint(vtx: seq<Slot<Vertex>>, offset: nat, base: nat, n: nat, width: nat, p: nat, r: nat)
    requires NewRows(vtx, offset, base, n, width) && p < n && r < width
    ensures base + width * p + r < INDEX_LIMIT
    ensures Target(Written(ToIndex(base + width * p + r)), vtx, offset, offset + base) == P(p, r)
  {
    hide Rows, ToIndex;
    RowsAt(n, width, p, r);
    RowsLength(n, width);
    var k := width * p + r;
    WrittenAt(vtx, Rows(n, width), offset + base, k);
    SmallIndex(base + k);
  }

  lemma WrittenAt(vtx: seq<Slot<Vertex>>, rows: seq<Vertex>, from: nat, k: nat)
    requires from <= |vtx| && vtx[from..] == AllWritten(rows) && k < |rows|
    ensures from + k < |vtx| && vtx[from + k] == Written(rows[k])
  {
    assert vtx[from..][k] == AllWritten(rows)[k];
  }

  lemma SmallIndex(n: nat)
    requires n < INDEX_LIMIT
    ensures ToIndex(n) == n
  {
  }

  lemma TriangleIs(t: seq<Slot<Vertex>>, a: Slot<Vertex>, b: Slot<Vertex>, c: Slot<Vertex>)
    requires |t| == 3 && multiset{t[0], t[1], t[2]} == multiset{a, b, c}
    ensures OnCorners(t, a, b, c)
  {
    assert t == [t[0], t[1], t[2]];
  }

  /** Six corners that are two triangles over the diagonal from q on rail r to p on rail s. */
  lemma SplitsOver(t: seq<Slot<Vertex>>, p: nat, q: nat, r: nat, s: nat)
    requires |t| == 6
    requires
      || (t == [P(q, r), P(p, r), P(p, s), P(p, s), P(q, s), P(q, r)])
      || (t == [P(q, r), P(p, r), P(p, s), P(q, s), P(p, s), P(q, r)])
    ensures SplitsQuad(t, p, q, r, s)
  {
    TriangleIs(t[..3], P(p, r), P(p, s), P(q, r));
    TriangleIs(t[3..], P(p, s), P(q, s), P(q, r));
    assert Halves(t[..3], t[3..], p, q, r, s);
  }

  /** The corners of a quad cut over the diagonal from the far end on rail r to the near end on rail s. */
  function QuadCorners(r: nat, s: nat, swapped: bool): seq<(bool, nat)> {
    if swapped then [(true, r), (false, r), (false, s), (true, s), (false, s), (true, r)]
    else [(true, r), (false, r), (false, s), (false, s), (true, s), (true, r)]
  }

  lemma SixAt(c: seq<(bool, nat)>, i: nat)
    requires i + 6 <= |c|
    ensures c[i..i + 6] == [c[i], c[i + 1], c[i + 2], c[i + 3], c[i + 4], c[i + 5]]
  {
  }

  lemma CornersAreQuads(stroke: Stroke, k: nat)
    requires k < |stroke.Rails()|
    ensures 6 * k + 6 <= stroke.Indices()
    ensures
      stroke.Corners()[6 * k..6 * k + 6]
      == QuadCorners(stroke.Rails()[k].0, stroke.Rails()[k].1, stroke == Textured)
  {
    assert k == 0 || k == 1 || k == 2;
    var i := if k == 0 then 0 else if k == 1 then 6 else 12;
    assert i == 6 * k;
    SixAt(stroke.Corners(), i);
  }

  /** One quad of a stroke: the k-th six corners are cut over a diagonal of the k-th rails. */
  lemma FoundSplitsOne(stroke: Stroke, p: nat, q: nat, k: nat)
    requires k < |stroke.Rails()|
    ensures 6 * k + 6 <= stroke.Indices()
    ensures SplitsQuad(stroke.Found(p, q)[6 * k..6 * k + 6], p, q, stroke.Rails()[k].0, stroke.Rails()[k].1)
  {
    hide SplitsQuad, Stroke.Rails, Stroke.Corners, Stroke.Indices;
    CornersAreQuads(stroke, k);
    var (r, s) := stroke.Rails()[k];
    var c := QuadCorners(r, s, stroke == Textured);
    var t := stroke.Found(p, q)[6 * k..6 * k + 6];
    forall j | 0 <= j < 6 ensures t[j] == P(if c[j].0 then q else p, c[j].1) {
      assert stroke.Corners()[6 * k..6 * k + 6][j] == stroke.Corners()[6 * k + j];
    }
    assert t == [t[0], t[1], t[2], t[3], t[4], t[5]];
    SplitsOver(t, p, q, r, s);
  }

  /** One segment of a stroke cuts the quads between its two ends, rail by rail. */
  lemma FoundSplits(stroke: Stroke, p: nat, q: nat)
    ensures SplitsQuads(stroke.Found(p, q), p, q, stroke.Rails())
  {
    hide SplitsQuad, Stroke.Found, Stroke.Rails;
    assert |stroke.Corners()| == 6 * |stroke.Rails()|;
    forall k | 0 <= k < |stroke.Rails()|
      ensures SplitsQuad(stroke.Found(p, q)[6 * k..6 * k + 6], p, q, stroke.Rails()[k].0, stroke.Rails()[k].1)
    {
      FoundSplitsOne(stroke, p, q, k);
    }
  }

  lemma SegmentFinds(stroke: Stroke, vtx: seq<Slot<Vertex>>, offset: nat, base: nat, n: nat, p: nat, q: nat)
    requires NewRows(vtx, offset, base, n, stroke.Width()) && p < n && q < n
    ensures
      var w := stroke.Width();
      Targets(Converted(stroke.Segment(base + w * p, base + w * q)), vtx, offset, offset + base) == stroke.Found(p, q)
  {
    hide NewRows, Target;
    var w := stroke.Width();
    var corners := stroke.Corners();
    var idx := stroke.Segment(base + w * p, base + w * q);
    forall k | 0 <= k < |corners|
      ensures Target(Written(ToIndex(idx[k])), vtx, offset, offset + base) == stroke.Found(p, q)[k]
    {
      FindsPoint(vtx, offset, base, n, w, if corners[k].0 then q else p, corners[k].1);
    }
  }

  /** The indices of a whole path, read back, are its segments' quads and nothing else. */
  lemma {:induction false} PathIsStrips(stroke: Stroke, vtx: seq<Slot<Vertex>>, offset: nat, base: nat, n: nat,
                                        count: nat)
    requires NewRows(vtx, offset, base, n, stroke.Width()) && count <= n
    ensures
      Strips(Targets(Converted(stroke.Path(base, count, n)), vtx, offset, offset + base), count, n, stroke.Rails())
  {
    hide NewRows, Target, SplitsQuads, Stroke.Segment, Stroke.Found, Stroke.Rails, Stroke.Width, Stroke.Corners,
      Stroke.Indices, ToIndex;
    var t := Targets(Converted(stroke.Path(base, count, n)), vtx, offset, offset + base);
    if count == 0 {
      assert t == [];
    } else {
      var w := stroke.Width();
      var p, q := count - 1, After(count - 1, n);
      var front := stroke.Path(base, count - 1, n);
      var last := stroke.Segment(base + w * p, base + w * q);
      assert stroke.Path(base, count, n) == front + last;
      PathIsStrips(stroke, vtx, offset, base, n, count - 1);
      SegmentFinds(stroke, vtx, offset, base, n, p, q);
      FoundSplits(stroke, p, q);
      assert t
        == Targets(Converted(front), vtx, offset, offset + base) + Targets(Converted(last), vtx, offset, offset + base);
      assert |last| == 6 * |stroke.Rails()| by { assert |stroke.Corners()| == stroke.Indices(); }
    }
  }

  // ---------------------------------------------------------------------------------------------
  // Writing a primitive
  // ---------------------------------------------------------------------------------------------

  lemma ConvertedConcat(a: seq<nat>, b: seq<nat>)
    ensures Converted(a + b) == Converted(a) + Converted(b)
  {
  }

  lemma ConvertedLength(idx: seq<nat>)
    ensures |Converted(idx)| == |idx|
  {
  }

  lemma AllWrittenConcat(a: seq<Vertex>, b: seq<Vertex>)
    ensures AllWritten(a + b) == AllWritten(a) + AllWritten(b)
  {
  }

  lemma NothingWritten()
    ensures Converted([]) == [] && AllWritten<Vertex>([]) == []
  {
  }

  /** What a primitive may count on: the draw list is in order, nothing is left half written, and 16-bit indices reach
      the new vertices, from a new vertex offset if need be. */
  ghost predicate CanDraw(dl: DrawList, vtxCount: nat)
    reads dl
  {
    && dl.Valid()
    && dl.Recorded().Aligned() && dl.Recorded().Full()
    && vtxCount < INDEX_LIMIT && (dl.allowVtxOffset || dl.vtxCurrentIdx + vtxCount < INDEX_LIMIT)
  }

  /**
   * The list after a primitive: what was there before is untouched, exactly the given numbers of
   * indices and vertices are new, all of them written, and the indices drawn under the one header.
   */
  ghost predicate Drew(dl: DrawList, was: Recorder, idxCount: nat, vtxCount: nat)
    reads dl
  {
    var r := dl.Recorded();
    && dl.Valid() && r.Aligned() && r.Full()
    && r.header == was.Window(vtxCount).header
    && r.log == was.log + Copies(r.header, idxCount)
    && |r.idx| == |was.idx| + idxCount && r.idx[..|was.idx|] == was.idx
    && |r.vtx| == |was.vtx| + vtxCount && r.vtx[..|was.vtx|] == was.vtx
    && (forall i | |was.vtx| <= i < |r.vtx| :: r.vtx[i].Written?)
    && r.clips == was.clips && r.textures == was.textures && r.allowVtxOffset == was.allowVtxOffset
  }

  /** The vertices, among the new ones, that the new indices find. */
  ghost function NewTargets(dl: DrawList, was: Recorder): (t: seq<Slot<Vertex>>)
    reads dl
    requires |was.idx| <= |dl.idxBuffer|
    ensures |t| == |dl.idxBuffer| - |was.idx|
    ensures forall i | 0 <= i < |t| && t[i].Written? ::
      var index := dl.idxBuffer[|was.idx| + i];
      && index.Written? && |was.vtx| <= dl.header.vtxOffset + index.value < |dl.vtxBuffer|
      && t[i] == dl.vtxBuffer[dl.header.vtxOffset + index.value]
  {
    Targets(dl.idxBuffer[|was.idx|..], dl.vtxBuffer, dl.header.vtxOffset, |was.vtx|)
  }

  /** The indices of a path are written segment by segment. */
  method WritePath(dl: DrawList, stroke: Stroke, n: nat, count: nat)
    requires dl.Valid() && count <= n
    requires dl.idxWrite + |stroke.Path(dl.vtxCurrentIdx, count, n)| == |dl.idxBuffer|
    modifies dl`idxBuffer, dl`idxWrite
    ensures dl.Valid() && dl.idxWrite == |dl.idxBuffer|
    ensures dl.idxBuffer == old(dl.idxBuffer)[..old(dl.idxWrite)] + Converted(stroke.Path(dl.vtxCurrentIdx, count, n))
  {
    hide DrawList.Valid, Stroke.Segment, Converted;
    ghost var front := dl.idxBuffer[..dl.idxWrite];
    ghost var size := |dl.idxBuffer|;
    ghost var base := dl.vtxCurrentIdx;
    var w := stroke.Width();
    var idx1 := dl.vtxCurrentIdx;
    var i1 := 0;
    NothingWritten();
    while i1 < count
      invariant 0 <= i1 <= count && dl.Valid()
      invariant i1 < n ==> idx1 == base + w * i1
      invariant |dl.idxBuffer| == size && dl.idxWrite == |front| + |stroke.Path(base, i1, n)| <= size
      invariant dl.idxBuffer[..dl.idxWrite] == front + Converted(stroke.Path(base, i1, n))
    {
      var idx2 := if i1 + 1 == n then dl.vtxCurrentIdx else idx1 + w;
      SegmentEnds(base, w, i1, n);
      ConvertedConcat(stroke.Path(base, i1, n), stroke.Segment(idx1, idx2));
      PathRoom(stroke, base, i1, count, n);
      dl.WriteIdxRun(stroke.Segment(idx1, idx2));
      idx1 := idx2;
      i1 := i1 + 1;
    }
    assert dl.idxBuffer[..dl.idxWrite] == dl.idxBuffer;
  }

  lemma SegmentEnds(base: nat, w: nat, i: nat, n: nat)
    requires i < n
    ensures base + w * After(i, n) == if i + 1 == n then base else base + w * i + w
  {
  }

  /** The vertices of the points are written point by point. */
  method WriteRows(dl: DrawList, n: nat, width: nat)
    requires dl.Valid() && dl.vtxWrite + |Rows(n, width)| == |dl.vtxBuffer|
    modifies dl`vtxBuffer, dl`vtxWrite
    ensures dl.Valid() && dl.vtxWrite == |dl.vtxBuffer|
    ensures dl.vtxBuffer == old(dl.vtxBuffer)[..old(dl.vtxWrite)] + AllWritten(Rows(n, width))
  {
    hide DrawList.Valid, AllWritten, Row;
    ghost var front := dl.vtxBuffer[..dl.vtxWrite];
    ghost var size := |dl.vtxBuffer|;
    var i := 0;
    NothingWritten();
    while i < n
      invariant 0 <= i <= n && dl.Valid()
      invariant |dl.vtxBuffer| == size && dl.vtxWrite == |front| + |Rows(i, width)| <= size
      invariant dl.vtxBuffer[..dl.vtxWrite] == front + AllWritten(Rows(i, width))
    {
      AllWrittenConcat(Rows(i, width), Row(i, width));
      RowsRoom(i, n, width);
      RowLength(i, width);
      dl.WriteVtxRun(Row(i, width));
      i := i + 1;
    }
    assert dl.vtxBuffer[..dl.vtxWrite] == dl.vtxBuffer;
  }

  lemma RowLength(i: nat, width: nat)
    ensures |Row(i, width)| == width
  {
  }
}
