/**
 * Lines and rectangles: each call reserves, writes exactly what it reserved, and every index it
 * writes finds, from the vertex offset of its command, a vertex that the same call reserved.
 */
module DrawStrokes {
  import opened Buffers
  import opened DrawCommands
  import opened DrawRecorder
  import opened DrawLists
  import opened DrawPrimitives
  import opened DrawQuads
  import opened Polygon

  /** The state between a reservation and the end of the writing: the new slots are at the end. */
  ghost predicate Reserved(dl: DrawList, was: Recorder, idxCount: nat, vtxCount: nat)
    reads dl
  {
    && dl.Valid()
    && dl.header == was.Window(vtxCount).header
    && dl.log == was.log + Copies(dl.header, idxCount)
    && dl.vtxCurrentIdx + vtxCount < INDEX_LIMIT && dl.header.vtxOffset + dl.vtxCurrentIdx == |was.vtx|
    && dl.idxWrite == |was.idx| && |dl.idxBuffer| == |was.idx| + idxCount && dl.idxBuffer[..|was.idx|] == was.idx
    && dl.vtxWrite == |was.vtx| && |dl.vtxBuffer| == |was.vtx| + vtxCount && dl.vtxBuffer[..|was.vtx|] == was.vtx
    && dl.clipRectStack == was.clips && dl.textureIdStack == was.textures && dl.allowVtxOffset == was.allowVtxOffset
  }

  method Reserve(dl: DrawList, idxCount: nat, vtxCount: nat)
    requires CanDraw(dl, vtxCount)
    modifies dl
    ensures Reserved(dl, old(dl.Recorded()), idxCount, vtxCount)
  {
    hide DrawList.Valid, Copies;
    ReserveFits(dl.Recorded(), idxCount, vtxCount);
    dl.PrimReserve(idxCount, vtxCount);
    assert |Blank<nat>(idxCount)| == idxCount && |Blank<Vertex>(vtxCount)| == vtxCount;
  }

  /** The state once everything is written, except that the current index has not moved yet. */
  ghost predicate Wrote(dl: DrawList, was: Recorder, idx: seq<nat>, vtx: seq<Vertex>)
    reads dl
  {
    && dl.Valid()
    && dl.header == was.Window(|vtx|).header
    && dl.log == was.log + Copies(dl.header, |idx|)
    && dl.vtxCurrentIdx + |vtx| < INDEX_LIMIT && dl.header.vtxOffset + dl.vtxCurrentIdx == |was.vtx|
    && dl.idxBuffer == was.idx + Converted(idx) && dl.idxWrite == |dl.idxBuffer|
    && dl.vtxBuffer == was.vtx + AllWritten(vtx) && dl.vtxWrite == |dl.vtxBuffer|
    && dl.clipRectStack == was.clips && dl.textureIdStack == was.textures && dl.allowVtxOffset == was.allowVtxOffset
  }

  method Finish(dl: DrawList, ghost was: Recorder, ghost idx: seq<nat>, ghost vtx: seq<Vertex>, vtxCount: nat)
    requires Wrote(dl, was, idx, vtx) && vtxCount == |vtx|
    modifies dl`vtxCurrentIdx
    ensures Drew(dl, was, |idx|, |vtx|)
    ensures dl.idxBuffer[|was.idx|..] == Converted(idx) && dl.vtxBuffer == was.vtx + AllWritten(vtx)
    ensures dl.vtxCurrentIdx == old(dl.vtxCurrentIdx) + |vtx|
  {
    hide DrawList.Valid, Copies;
    dl.AdvanceVtx(vtxCount);
    assert forall i | |was.vtx| <= i < |dl.vtxBuffer| :: dl.vtxBuffer[i] == AllWritten(vtx)[i - |was.vtx|];
  }

  /** An anti-aliased stroke. */
  method StrokeSmooth(dl: DrawList, stroke: Stroke, n: nat, count: nat)
    requires count <= n && CanDraw(dl, n * stroke.Width())
    modifies dl
    ensures Drew(dl, old(dl.Recorded()), count * stroke.Indices(), n * stroke.Width())
    ensures Strips(NewTargets(dl, old(dl.Recorded())), count, n, stroke.Rails())
  {
    hide DrawList.Valid, Copies, Strips, Drew, Targets, Stroke.Path, Stroke.Rails, Rows;
    ghost var was := dl.Recorded();
    var idxCount, vtxCount := count * stroke.Indices(), n * stroke.Width();
    Reserve(dl, idxCount, vtxCount);
    ghost var base := dl.vtxCurrentIdx;
    PathLength(stroke, base, count, n);
    RowsLength(n, stroke.Width());
    WritePath(dl, stroke, n, count);
    WriteRows(dl, n, stroke.Width());
    ghost var idx, vtx := stroke.Path(base, count, n), Rows(n, stroke.Width());
    StrokeStrips(stroke, was.vtx, dl.header.vtxOffset, base, n, count);
    Finish(dl, was, idx, vtx, vtxCount);
  }

  lemma StrokeStrips(stroke: Stroke, oldVtx: seq<Slot<Vertex>>, offset: nat, base: nat, n: nat, count: nat)
    requires count <= n && base + n * stroke.Width() < INDEX_LIMIT && offset + base == |oldVtx|
    ensures
      var vtx := oldVtx + AllWritten(Rows(n, stroke.Width()));
      Strips(Targets(Converted(stroke.Path(base, count, n)), vtx, offset, |oldVtx|), count, n, stroke.Rails())
  {
    hide Strips, Targets, Stroke.Path, Stroke.Rails, Rows;
    RowsLength(n, stroke.Width());
    var vtx := oldVtx + AllWritten(Rows(n, stroke.Width()));
    assert vtx[offset + base..] == AllWritten(Rows(n, stroke.Width()));
    PathIsStrips(stroke, vtx, offset, base, n, count);
  }

  // ---------------------------------------------------------------------------------------------
  // Lines without anti-aliasing: four vertices of their own for each segment
  // ---------------------------------------------------------------------------------------------

  /** The two triangles of a segment over its own four vertices. */
  function PlainSegment(b: nat): (r: seq<nat>)
    ensures |r| == 6
  {
    [b, b + 1, b + 2, b, b + 2, b + 3]
  }

  function PlainCorners(s: nat, n: nat): (r: seq<Vertex>)
    requires s < n
    ensures |r| == 4
  {
    [OfPoint(s, 0), OfPoint(After(s, n), 0), OfPoint(After(s, n), 1), OfPoint(s, 1)]
  }

  function PlainIdx(base: nat, count: nat): seq<nat> {
    if count == 0 then [] else PlainIdx(base, count - 1) + PlainSegment(base + 4 * (count - 1))
  }

  function PlainVtx(count: nat, n: nat): seq<Vertex>
    requires count <= n
  {
    if count == 0 then [] else PlainVtx(count - 1, n) + PlainCorners(count - 1, n)
  }

  lemma {:induction false} PlainLengths(base: nat, count: nat, n: nat)
    requires count <= n
    ensures |PlainIdx(base, count)| == count * 6 && |PlainVtx(count, n)| == count * 4
  {
    if count > 0 {
      PlainLengths(base, count - 1, n);
    }
  }

  lemma {:induction false} PlainVtxAt(count: nat, n: nat, s: nat, j: nat)
    requires s < count <= n && j < 4
    ensures |PlainVtx(count, n)| == 4 * count
    ensures PlainVtx(count, n)[4 * s + j] == PlainCorners(s, n)[j]
  {
    PlainLengths(0, count - 1, n);
    if s < count - 1 {
      PlainVtxAt(count - 1, n, s, j);
    }
  }

  /** The new vertices stand at the end of the buffer, where the current offset and index point. */
  ghost predicate NewPlain(vtx: seq<Slot<Vertex>>, offset: nat, base: nat, count: nat, n: nat)
  {
    && count <= n && base + 4 * count < INDEX_LIMIT
    && |vtx| == offset + base + 4 * count
    && vtx[offset + base..] == AllWritten(PlainVtx(count, n))
  }

  lemma PlainFinds(vtx: seq<Slot<Vertex>>, offset: nat, base: nat, count: nat, n: nat, s: nat, j: nat)
    requires NewPlain(vtx, offset, base, count, n) && s < count && j < 4
    ensures Target(Written(ToIndex(base + 4 * s + j)), vtx, offset, offset + base) == Written(PlainCorners(s, n)[j])
  {
    hide PlainVtx, PlainCorners, ToIndex, AllWritten;
    PlainVtxAt(count, n, s, j);
    WrittenAt(vtx, PlainVtx(count, n), offset + base, 4 * s + j);
    SmallIndex(base + 4 * s + j);
  }

  /** Six indices over the vertices of one plain segment cut its one quad in two. */
  lemma PlainSplits(t: seq<Slot<Vertex>>, p: nat, q: nat)
    requires t == [P(p, 0), P(q, 0), P(q, 1), P(p, 0), P(q, 1), P(p, 1)]
    ensures SplitsQuads(t, p, q, [(0, 1)])
  {
    PlainHalves(t, p, q);
    hide SplitsQuad;
    assert t[6 * 0..6 * 0 + 6] == t;
  }

  lemma PlainHalves(t: seq<Slot<Vertex>>, p: nat, q: nat)
    requires t == [P(p, 0), P(q, 0), P(q, 1), P(p, 0), P(q, 1), P(p, 1)]
    ensures SplitsQuad(t, p, q, 0, 1)
  {
    hide OnCorners;
    assert t[..3] == [P(p, 0), P(q, 0), P(q, 1)] && t[3..] == [P(p, 0), P(q, 1), P(p, 1)];
    TriangleOf(P(p, 0), P(q, 0), P(q, 1));
    TriangleOf(P(p, 0), P(q, 1), P(p, 1));
    assert Halves(t[3..], t[..3], p, q, 0, 1);
  }

  /** Three corners are a triangle, whichever comes first. */
  lemma TriangleOf(a: Slot<Vertex>, b: Slot<Vertex>, c: Slot<Vertex>)
    ensures OnCorners([a, b, c], c, a, b) && OnCorners([a, b, c], a, b, c)
  {
  }

  lemma PlainSegmentFinds(vtx: seq<Slot<Vertex>>, offset: nat, base: nat, count: nat, n: nat, s: nat)
    requires NewPlain(vtx, offset, base, count, n) && s < count
    ensures
      SplitsQuads(Targets(Converted(PlainSegment(base + 4 * s)), vtx, offset, offset + base), s, After(s, n), [(0, 1)])
  {
    hide NewPlain, Target, SplitsQuads, ToIndex;
    PlainFinds(vtx, offset, base, count, n, s, 0);
    PlainFinds(vtx, offset, base, count, n, s, 1);
    PlainFinds(vtx, offset, base, count, n, s, 2);
    PlainFinds(vtx, offset, base, count, n, s, 3);
    PlainSplits(Targets(Converted(PlainSegment(base + 4 * s)), vtx, offset, offset + base), s, After(s, n));
  }

  lemma {:induction false} PlainIsStrips(vtx: seq<Slot<Vertex>>, offset: nat, base: nat, count: nat, k: nat, n: nat)
    requires NewPlain(vtx, offset, base, count, n) && k <= count
    ensures Strips(Targets(Converted(PlainIdx(base, k)), vtx, offset, offset + base), k, n, [(0, 1)])
  {
    hide SplitsQuads, NewPlain, Target, PlainSegment;
    var t := Targets(Converted(PlainIdx(base, k)), vtx, offset, offset + base);
    if k == 0 {
      assert t == [];
    } else {
      var front, last := PlainIdx(base, k - 1), PlainSegment(base + 4 * (k - 1));
      PlainIsStrips(vtx, offset, base, count, k - 1, n);
      PlainSegmentFinds(vtx, offset, base, count, n, k - 1);
      assert t
        == Targets(Converted(front), vtx, offset, offset + base) + Targets(Converted(last), vtx, offset, offset + base);
    }
  }

  lemma {:induction false} PlainRoom(base: nat, i: nat, count: nat, n: nat)
    requires i < count <= n
    ensures |PlainIdx(base, i)| + 6 <= |PlainIdx(base, count)| && |PlainVtx(i, n)| + 4 <= |PlainVtx(count, n)|
  {
    if i < count - 1 {
      PlainRoom(base, i, count - 1, n);
    }
  }

  /** Segment by segment, four vertices and six indices. */
  method WritePlain(dl: DrawList, n: nat, count: nat)
    requires dl.Valid() && count <= n
    requires dl.idxWrite + |PlainIdx(dl.vtxCurrentIdx, count)| == |dl.idxBuffer|
    requires dl.vtxWrite + |PlainVtx(count, n)| == |dl.vtxBuffer|
    modifies dl`idxBuffer, dl`idxWrite, dl`vtxBuffer, dl`vtxWrite, dl`vtxCurrentIdx
    ensures dl.Valid() && dl.idxWrite == |dl.idxBuffer| && dl.vtxWrite == |dl.vtxBuffer|
    ensures dl.idxBuffer == old(dl.idxBuffer)[..old(dl.idxWrite)] + Converted(PlainIdx(old(dl.vtxCurrentIdx), count))
    ensures dl.vtxBuffer == old(dl.vtxBuffer)[..old(dl.vtxWrite)] + AllWritten(PlainVtx(count, n))
    ensures dl.vtxCurrentIdx == old(dl.vtxCurrentIdx) + 4 * count
  {
    hide DrawList.Valid, Converted, AllWritten, PlainSegment, PlainCorners;
    ghost var idxFront, vtxFront := dl.idxBuffer[..dl.idxWrite], dl.vtxBuffer[..dl.vtxWrite];
    ghost var idxSize, vtxSize := |dl.idxBuffer|, |dl.vtxBuffer|;
    ghost var base := dl.vtxCurrentIdx;
    var i1 := 0;
    NothingWritten();
    while i1 < count
      invariant 0 <= i1 <= count && dl.Valid()
      invariant dl.vtxCurrentIdx == base + 4 * i1
      invariant |dl.idxBuffer| == idxSize && dl.idxWrite == |idxFront| + |PlainIdx(base, i1)| <= idxSize
      invariant |dl.vtxBuffer| == vtxSize && dl.vtxWrite == |vtxFront| + |PlainVtx(i1, n)| <= vtxSize
      invariant dl.idxBuffer[..dl.idxWrite] == idxFront + Converted(PlainIdx(base, i1))
      invariant dl.vtxBuffer[..dl.vtxWrite] == vtxFront + AllWritten(PlainVtx(i1, n))
    {
      PlainRoom(base, i1, count, n);
      WritePlainOne(dl, n, i1, idxFront, vtxFront, base);
      i1 := i1 + 1;
    }
    assert dl.idxBuffer[..dl.idxWrite] == dl.idxBuffer && dl.vtxBuffer[..dl.vtxWrite] == dl.vtxBuffer;
  }

  method WritePlainOne(dl: DrawList, n: nat, i1: nat, ghost idxFront: seq<Slot<nat>>,
                       ghost vtxFront: seq<Slot<Vertex>>, ghost base: nat)
    requires dl.Valid() && dl.vtxCurrentIdx == base + 4 * i1 && i1 < n
    requires dl.idxWrite + 6 <= |dl.idxBuffer| && dl.vtxWrite + 4 <= |dl.vtxBuffer|
    requires dl.idxBuffer[..dl.idxWrite] == idxFront + Converted(PlainIdx(base, i1))
    requires dl.vtxBuffer[..dl.vtxWrite] == vtxFront + AllWritten(PlainVtx(i1, n))
    modifies dl`idxBuffer, dl`idxWrite, dl`vtxBuffer, dl`vtxWrite, dl`vtxCurrentIdx
    ensures dl.Valid() && dl.vtxCurrentIdx == old(dl.vtxCurrentIdx) + 4
    ensures dl.idxWrite == old(dl.idxWrite) + 6 && |dl.idxBuffer| == old(|dl.idxBuffer|)
    ensures dl.vtxWrite == old(dl.vtxWrite) + 4 && |dl.vtxBuffer| == old(|dl.vtxBuffer|)
    ensures dl.idxBuffer[..dl.idxWrite] == idxFront + Converted(PlainIdx(base, i1 + 1))
    ensures dl.vtxBuffer[..dl.vtxWrite] == vtxFront + AllWritten(PlainVtx(i1 + 1, n))
  {
    hide DrawList.Valid, Converted, AllWritten, PlainSegment, PlainCorners, ToIndex;
    SmallIndex(4);
    AllWrittenConcat(PlainVtx(i1, n), PlainCorners(i1, n));
    ConvertedConcat(PlainIdx(base, i1), PlainSegment(dl.vtxCurrentIdx));
    dl.WriteVtxRun(PlainCorners(i1, n));
    dl.WriteIdxRun(PlainSegment(dl.vtxCurrentIdx));
    dl.AdvanceVtx(4);
  }

  /** A stroke without anti-aliasing. */
  method StrokePlain(dl: DrawList, n: nat, count: nat)
    requires count <= n && CanDraw(dl, count * 4)
    modifies dl
    ensures Drew(dl, old(dl.Recorded()), count * 6, count * 4)
    ensures Strips(NewTargets(dl, old(dl.Recorded())), count, n, [(0, 1)])
  {
    hide DrawList.Valid, Copies, Strips, Targets, PlainIdx, PlainVtx, Converted, AllWritten;
    ghost var was := dl.Recorded();
    Reserve(dl, count * 6, count * 4);
    ghost var base := dl.vtxCurrentIdx;
    PlainLengths(base, count, n);
    ConvertedLength(PlainIdx(base, count));
    BehindIsWritten(was.vtx, PlainVtx(count, n));
    WritePlain(dl, n, count);
    ghost var vtx := was.vtx + AllWritten(PlainVtx(count, n));
    assert dl.vtxBuffer == vtx && vtx[|was.vtx|..] == AllWritten(PlainVtx(count, n));
    PlainIsStrips(vtx, dl.header.vtxOffset, base, count, count, n);
    assert dl.idxBuffer[|was.idx|..] == Converted(PlainIdx(base, count));
  }

  lemma BehindIsWritten(front: seq<Slot<Vertex>>, rows: seq<Vertex>)
    ensures forall i | |front| <= i < |front + AllWritten(rows)| :: (front + AllWritten(rows))[i].Written?
    ensures |AllWritten(rows)| == |rows|
  {
  }

  /** The path taken by a line: how it is drawn, and how many vertices that takes. */
  datatype Pen = Smooth(stroke: Stroke) | Plain
  {
    function Vertices(n: nat, count: nat): nat {
      match this
      case Smooth(stroke) => n * stroke.Width()
      case Plain => count * 4
    }

    function IndexCount(count: nat): nat {
      match this
      case Smooth(stroke) => count * stroke.Indices()
      case Plain => count * 6
    }

    function Rails(): seq<(nat, nat)> {
      match this
      case Smooth(stroke) => stroke.Rails()
      case Plain => [(0, 1)]
    }
  }

  function PenFor(antiAliased: bool, useTexture: bool, thickLine: bool): Pen {
    if antiAliased then Smooth(if useTexture then Textured else if thickLine then Thick else Thin) else Plain
  }

  function Segments(n: nat, closed: bool): nat
    requires n >= 1
  {
    if closed then n else n - 1
  }

  /**
   * A line through n points, open or closed. Nothing is drawn for fewer than two points or an
   * invisible colour; otherwise every segment is drawn as the quads between its own two ends.
   */
  method AddPolyline(dl: DrawList, n: nat, visible: bool, closed: bool, antiAliased: bool, useTexture: bool,
                     thickLine: bool)
    requires dl.Valid()
    requires n >= 2 && visible ==>
      CanDraw(dl, PenFor(antiAliased, useTexture, thickLine).Vertices(n, Segments(n, closed)))
    modifies dl
    ensures n < 2 || !visible ==> dl.Valid() && dl.Recorded() == old(dl.Recorded()) && dl.cmdBuffer == old(dl.cmdBuffer)
    ensures n >= 2 && visible ==>
      var pen, count := PenFor(antiAliased, useTexture, thickLine), Segments(n, closed);
      && Drew(dl, old(dl.Recorded()), pen.IndexCount(count), pen.Vertices(n, count))
      && Strips(NewTargets(dl, old(dl.Recorded())), count, n, pen.Rails())
    ensures n >= 2 && visible ==>
      var count, t := if closed then n else n - 1, NewTargets(dl, old(dl.Recorded()));
      && |dl.idxBuffer|
         == old(|dl.idxBuffer|) + count * (if !antiAliased || useTexture then 6 else if thickLine then 18 else 12)
      && |dl.vtxBuffer|
         == old(|dl.vtxBuffer|)
            + (if !antiAliased then 4 * count else n * if useTexture then 2 else if thickLine then 4 else 3)
      && (forall s | 0 <= s < count :: SegmentQuads(t, s, n, antiAliased, useTexture, thickLine))
      && (forall a, b | 0 <= a < b < n ::
           Connects(t, a, b) <==> b == a + 1 || (closed && a == 0 && b == n - 1))
  {
    hide DrawList.Valid, Strips, NewTargets, CanDraw, Stroke.Rails, SegmentQuads, Connects, Copies;
    if n < 2 || !visible {
      return;
    }
    var count := if closed then n else n - 1;
    if antiAliased {
      var stroke := if useTexture then Textured else if thickLine then Thick else Thin;
      StrokeSmooth(dl, stroke, n, count);
    } else {
      StrokePlain(dl, n, count);
    }
    StripsAreSegments(NewTargets(dl, old(dl.Recorded())), n, closed, antiAliased, useTexture, thickLine);
  }

  lemma StripsAreSegments(t: seq<Slot<Vertex>>, n: nat, closed: bool, antiAliased: bool, useTexture: bool,
                          thickLine: bool)
    requires n >= 2
    requires Strips(t, if closed then n else n - 1, n, PenFor(antiAliased, useTexture, thickLine).Rails())
    ensures forall s | 0 <= s < n && (closed || s < n - 1) ::
      SegmentQuads(t, s, n, antiAliased, useTexture, thickLine)
    ensures forall a, b | 0 <= a < b < n ::
      Connects(t, a, b) <==> b == a + 1 || (closed && a == 0 && b == n - 1)
  {
    hide Strips, Connects, Quad;
    var count := if closed then n else n - 1;
    var rails := PenFor(antiAliased, useTexture, thickLine).Rails();
    forall s | 0 <= s < count ensures SegmentQuads(t, s, n, antiAliased, useTexture, thickLine) {
      QuadCountIs(s, |rails|);
      StripsAre(t, count, n, rails, s, 0);
      if |rails| > 1 {
        StripsAre(t, count, n, rails, s, 1);
      }
      if |rails| > 2 {
        StripsAre(t, count, n, rails, s, 2);
      }
    }
    forall a, b | 0 <= a < b < n
      ensures Connects(t, a, b) <==> b == a + 1 || (closed && a == 0 && b == n - 1)
    {
      StripsConnect(t, closed, n, rails, a, b);
    }
  }

  // ---------------------------------------------------------------------------------------------
  // Rectangles
  // ---------------------------------------------------------------------------------------------

  /** The corners of a rectangle, around it from a to its opposite corner c and back. */
  function RectCorners(ax: real, ay: real, cx: real, cy: real): seq<Vertex> {
    [Corner(ax, ay), Corner(cx, ay), Corner(cx, cy), Corner(ax, cy)]
  }

  /** A rectangle as two triangles, into slots reserved by the caller. */
  method PrimRect(dl: DrawList, ax: real, ay: real, cx: real, cy: real)
    requires dl.Valid() && dl.Recorded().Aligned() && dl.vtxCurrentIdx + 4 <= INDEX_LIMIT
    requires dl.idxWrite + 6 <= |dl.idxBuffer| && dl.vtxWrite + 4 <= |dl.vtxBuffer|
    modifies dl`idxBuffer, dl`idxWrite, dl`vtxBuffer, dl`vtxWrite, dl`vtxCurrentIdx
    ensures dl.Valid() && dl.Recorded().Aligned() && dl.vtxCurrentIdx == old(dl.vtxCurrentIdx) + 4
    ensures dl.idxWrite == old(dl.idxWrite) + 6 && dl.vtxWrite == old(dl.vtxWrite) + 4
    ensures |dl.idxBuffer| == old(|dl.idxBuffer|) && |dl.vtxBuffer| == old(|dl.vtxBuffer|)
    ensures dl.idxBuffer[..old(dl.idxWrite)] == old(dl.idxBuffer)[..old(dl.idxWrite)]
    ensures dl.vtxBuffer[..old(dl.vtxWrite)] == old(dl.vtxBuffer)[..old(dl.vtxWrite)]
    ensures
      Targets(dl.idxBuffer[old(dl.idxWrite)..dl.idxWrite], dl.vtxBuffer, dl.header.vtxOffset, old(dl.vtxWrite))
        == [Written(Corner(ax, ay)), Written(Corner(cx, ay)), Written(Corner(cx, cy)),
            Written(Corner(ax, ay)), Written(Corner(cx, cy)), Written(Corner(ax, cy))]
  {
    hide DrawList.Valid, Targets, Converted, AllWritten;
    var idx := ToIndex(dl.vtxCurrentIdx);
    dl.WriteIdxRun(RectIdx(idx));
    dl.WriteVtxRun(RectCorners(ax, ay, cx, cy));
    RectFinds(dl.idxBuffer, old(dl.idxWrite), dl.vtxBuffer, old(dl.vtxWrite), dl.header.vtxOffset, idx,
              RectCorners(ax, ay, cx, cy));
    dl.AdvanceVtx(4);
  }

  function RectIdx(idx: nat): (r: seq<nat>)
    ensures |r| == 6
  {
    [idx, idx + 1, idx + 2, idx, idx + 2, idx + 3]
  }

  lemma RectFinds(idx: seq<Slot<nat>>, i: nat, vtx: seq<Slot<Vertex>>, v: nat, offset: nat, base: nat,
                  corners: seq<Vertex>)
    requires base + 4 <= INDEX_LIMIT && offset + base == v && |corners| == 4
    requires i + 6 <= |idx| && idx[..i + 6][i..] == Converted(RectIdx(base))
    requires v + 4 <= |vtx| && vtx[..v + 4][v..] == AllWritten(corners)
    ensures Targets(idx[i..i + 6], vtx, offset, v)
         == [Written(corners[0]), Written(corners[1]), Written(corners[2]),
             Written(corners[0]), Written(corners[2]), Written(corners[3])]
  {
    assert idx[i..i + 6] == idx[..i + 6][i..];
    forall j | 0 <= j < 4 ensures Target(Written(ToIndex(base + j)), vtx, offset, v) == Written(corners[j]) {
      assert vtx[v + j] == vtx[..v + 4][v..][j];
    }
    var t := Targets(idx[i..i + 6], vtx, offset, v);
    assert t[0] == Target(Written(ToIndex(base + 0)), vtx, offset, v) == t[3];
    assert t[2] == Target(Written(ToIndex(base + 2)), vtx, offset, v) == t[4];
    assert t[1] == Target(Written(ToIndex(base + 1)), vtx, offset, v);
    assert t[5] == Target(Written(ToIndex(base + 3)), vtx, offset, v);
  }
}
