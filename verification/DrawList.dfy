/**
 * The draw list: a command buffer that always ends in a command ready to grow. Changing the clip
 * rectangle, the texture or the vertex offset starts a new command only when the last one has drawn
 * something; otherwise the last command is relabelled, or dropped when the one before it fits.
 */
module DrawLists {
  import opened Buffers
  import opened DrawCommands
  import opened DrawRecorder

  class DrawList {
    var fullscreen: ClipRect
    var cmdBuffer: seq<DrawCmd>
    var idxBuffer: seq<Slot<nat>>
    var vtxBuffer: seq<Slot<Vertex>>
    var allowVtxOffset: bool
    var vtxCurrentIdx: nat
    var vtxWrite: nat
    var idxWrite: nat
    var header: Header
    var clipRectStack: seq<ClipRect>
    var textureIdStack: seq<int>
    var callbacksData: seq<bv8>
    /** What was recorded so far, one tag for each index slot and each callback. */
    ghost var log: seq<Tag>
    /** How many index slots of the latest reservation can still be given back. */
    ghost var reserved: nat

    /** What the naive recorder would hold now. */
    ghost function Recorded(): Recorder
      reads this
    {
      Recorder(header, fullscreen, clipRectStack, textureIdStack, log, idxBuffer, idxWrite,
               vtxBuffer, vtxWrite, vtxCurrentIdx, allowVtxOffset, callbacksData, reserved)
    }

    ghost predicate ClipsOrdered()
      reads `header, `fullscreen, `clipRectStack
    {
      && header.clip.Ordered()
      && fullscreen.Ordered()
      && forall i | 0 <= i < |clipRectStack| :: clipRectStack[i].Ordered()
    }

    /** The commands tile the index buffer and mean exactly what was recorded. */
    ghost predicate Sound()
      reads this
    {
      && Tiles(cmdBuffer, 0, |idxBuffer|)
      && Tags(cmdBuffer) == log
      && vtxWrite <= |vtxBuffer|
      && idxWrite <= |idxBuffer|
      && ClipsOrdered()
    }

    /** The last command can grow: it draws, and it draws under the current header. */
    ghost predicate Ready()
      reads `cmdBuffer, `header, `reserved
    {
      && |cmdBuffer| > 0
      && Last(cmdBuffer).header == header
      && Last(cmdBuffer).callback == NoCallback
      && reserved <= Last(cmdBuffer).elemCount
    }

    ghost predicate Valid()
      reads this
    {
      Sound() && Ready()
    }

    constructor (fullscreen: ClipRect, allowVtxOffset: bool)
      requires fullscreen.Ordered()
      ensures Valid()
      ensures Recorded() == Recorder(Header(ClipRect(0.0, 0.0, 0.0, 0.0), 0, 0), fullscreen, [], [],
                                     [], [], 0, [], 0, 0, allowVtxOffset, [], 0)
      ensures Coalesced(cmdBuffer)
    {
      this.fullscreen := fullscreen;
      this.allowVtxOffset := allowVtxOffset;
      var none := Header(ClipRect(0.0, 0.0, 0.0, 0.0), 0, 0);
      header := none;
      cmdBuffer := [DrawCmd(none, 0, 0, NoCallback)];
      idxBuffer, vtxBuffer, vtxCurrentIdx, vtxWrite, idxWrite := [], [], 0, 0, 0;
      clipRectStack, textureIdStack, callbacksData := [], [], [];
      log, reserved := [], 0;
      new;
      assert Copies(none, 0) == [];
    }

    /** Starts a new command under the current header; nothing is recorded. */
    method AddDrawCmd()
      requires Sound()
      modifies `cmdBuffer, `reserved
      ensures Valid() && reserved == 0
      ensures cmdBuffer == old(cmdBuffer) + [DrawCmd(header, |idxBuffer|, 0, NoCallback)]
      ensures Trimmed(cmdBuffer) == Trimmed(old(cmdBuffer))
    {
      hide Tiles, Tags, Trimmed;
      var cmd := DrawCmd(header, |idxBuffer|, 0, NoCallback);
      assert header.clip.Ordered();
      TagsPush(cmdBuffer, cmd);
      TrimmedPush(cmdBuffer, cmd);
      TilesPush(cmdBuffer, 0, |idxBuffer|, cmd);
      assert TagsOf(cmd) == [];
      cmdBuffer := cmdBuffer + [cmd];
      reserved := 0;
    }

    /** Drops the trailing commands that draw nothing and call nothing. */
    method PopUnusedDrawCmd()
      requires Sound()
      modifies `cmdBuffer, `reserved
      ensures Sound() && reserved == 0
      ensures cmdBuffer == Trimmed(old(cmdBuffer))
    {
      hide Tiles, Tags;
      reserved := 0;
      while |cmdBuffer| > 0
        invariant Sound() && reserved == 0
        invariant header == old(header) && idxBuffer == old(idxBuffer) && log == old(log)
        invariant Trimmed(cmdBuffer) == Trimmed(old(cmdBuffer))
        decreases |cmdBuffer|
      {
        var curr := Last(cmdBuffer);
        if curr.elemCount != 0 || curr.callback != NoCallback {
          return;
        }
        DropUnused(cmdBuffer, 0, |idxBuffer|);
        cmdBuffer := Front(cmdBuffer);
      }
    }

    /** The unused last command becomes a call. */
    method TakeCall(callback: Callback)
      requires Valid() && Last(cmdBuffer).elemCount == 0
      modifies `cmdBuffer, `reserved, `log
      ensures Sound() && reserved == 0
      ensures log == old(log) + (if callback == NoCallback then [] else [Call(header, callback)])
      ensures cmdBuffer == old(cmdBuffer)[|old(cmdBuffer)| - 1 := Last(old(cmdBuffer)).(callback := callback)]
    {
      hide Tiles, Tags;
      BecomeCall(cmdBuffer, 0, |idxBuffer|, callback);
      cmdBuffer := cmdBuffer[|cmdBuffer| - 1 := Last(cmdBuffer).(callback := callback)];
      log := log + TagsOf(Last(cmdBuffer));
      reserved := 0;
    }

    /** Records a call after everything recorded so far, under the current header. Bytes given for it are copied to the
        end of those stored; without any, the pointer is kept. */
    method AddCallback(routine: int, userData: int, bytes: seq<bv8>)
      requires Valid() && |bytes| < 0x8000_0000
      modifies `cmdBuffer, `reserved, `log, `callbacksData
      ensures Valid() && Recorded() == old(Recorded()).AddCall(routine, userData, bytes)
      ensures callbacksData == old(callbacksData) + bytes
      ensures routine == 0 ==> log == old(log)
      ensures routine != 0 && |bytes| == 0 ==> log == old(log) + [Call(header, Callback(routine, userData, 0, -1))]
      ensures routine != 0 && |bytes| > 0 ==>
        log == old(log) + [Call(header, Callback(routine, 0, |bytes|, old(|callbacksData|)))]
      ensures old(Coalesced(cmdBuffer)) ==> (Coalesced(cmdBuffer) <==> routine != 0)
    {
      hide Tiles, Tags, Coalesced, Trimmed, Copies;
      ghost var start := cmdBuffer;
      if Last(cmdBuffer).elemCount != 0 {
        assert Used(Last(start));
        AddDrawCmd();
      }
      var callback := CallOf(routine, userData, bytes, |callbacksData|);
      if callback != NoCallback && Coalesced(start) {
        CallStaysCoalesced(start, cmdBuffer, callback, DrawCmd(header, |idxBuffer|, 0, NoCallback));
      }
      TakeCall(callback);
      if |bytes| != 0 {
        callbacksData := callbacksData + bytes;
      }
      if callback == NoCallback {
        NotCoalesced(cmdBuffer, DrawCmd(header, |idxBuffer|, 0, NoCallback));
      }
      AddDrawCmd();
    }

    /** Joins the two last commands when nothing tells them apart. */
    method TryMergeDrawCmds()
      requires Valid() && |cmdBuffer| > 1
      modifies `cmdBuffer, `reserved
      ensures Valid()
      ensures old(Last(Front(cmdBuffer))).header == header && old(Last(Front(cmdBuffer))).callback == NoCallback
          ==> |cmdBuffer| == old(|cmdBuffer|) - 1
      ensures old(Last(Front(cmdBuffer))).header != header || old(Last(Front(cmdBuffer))).callback != NoCallback
          ==> cmdBuffer == old(cmdBuffer)
    {
      hide Tiles, Tags;
      LastTwoMeet(cmdBuffer, 0, |idxBuffer|);
      reserved := 0;
      var curr, prev := Last(cmdBuffer), Last(Front(cmdBuffer));
      if curr.header == prev.header && prev.idxOffset + prev.elemCount == curr.idxOffset
        && curr.callback == NoCallback && prev.callback == NoCallback
      {
        Absorb(cmdBuffer, 0, |idxBuffer|);
        cmdBuffer := Front(cmdBuffer)[|cmdBuffer| - 2 := prev.(elemCount := prev.elemCount + curr.elemCount)];
      }
    }

    /** The previous command can go on in place of an unused last one. */
    predicate PreviousFits()
      reads this
      requires |cmdBuffer| > 0
    {
      && Last(cmdBuffer).elemCount == 0
      && |cmdBuffer| > 1
      && header == Last(Front(cmdBuffer)).header
      && Last(Front(cmdBuffer)).idxOffset + Last(Front(cmdBuffer)).elemCount == Last(cmdBuffer).idxOffset
      && Last(Front(cmdBuffer)).callback == NoCallback
    }

    /** Gives the unused last command up for the previous one. */
    method DropLast()
      requires Sound() && |cmdBuffer| > 0 && PreviousFits() && Last(cmdBuffer).callback == NoCallback
      requires reserved == 0
      modifies `cmdBuffer
      ensures Valid()
      ensures old(Coalesced(cmdBuffer)) ==> Coalesced(cmdBuffer)
    {
      hide Tiles, Tags, Coalesced;
      if Coalesced(cmdBuffer) {
        CoalescedFront(cmdBuffer);
      }
      DropUnused(cmdBuffer, 0, |idxBuffer|);
      cmdBuffer := Front(cmdBuffer);
    }

    /** Puts the last command, unused or already right, under the current header. */
    method RelabelLast()
      requires Sound() && |cmdBuffer| > 0 && Last(cmdBuffer).callback == NoCallback
      requires Last(cmdBuffer).elemCount == 0 || Last(cmdBuffer).header == header
      requires reserved == 0
      modifies `cmdBuffer
      ensures Valid()
      ensures cmdBuffer == old(cmdBuffer)[|old(cmdBuffer)| - 1 := Last(old(cmdBuffer)).(header := header)]
    {
      hide Tiles, Tags;
      if Last(cmdBuffer).elemCount == 0 {
        Relabel(cmdBuffer, 0, |idxBuffer|, header);
      } else {
        assert cmdBuffer[|cmdBuffer| - 1 := Last(cmdBuffer).(header := header)] == cmdBuffer;
      }
      cmdBuffer := cmdBuffer[|cmdBuffer| - 1 := Last(cmdBuffer).(header := header)];
    }

    /** The current clip rectangle was changed; the command buffer follows, and its meaning stays. */
    method OnChangedClipRect()
      requires Sound() && |cmdBuffer| > 0 && Last(cmdBuffer).callback == NoCallback
      requires Last(cmdBuffer).header.(clip := header.clip) == header
      modifies `cmdBuffer, `reserved
      ensures Valid() && reserved == 0
      ensures old(Coalesced(cmdBuffer)) ==> Coalesced(cmdBuffer)
    {
      hide Tiles, Tags, Coalesced;
      ghost var start := cmdBuffer;
      reserved := 0;
      if Last(cmdBuffer).elemCount != 0 && Last(cmdBuffer).header.clip != header.clip {
        if Coalesced(start) {
          CoalescedPush(start, DrawCmd(header, |idxBuffer|, 0, NoCallback));
        }
        AddDrawCmd();
        return;
      }
      if PreviousFits() {
        DropLast();
        return;
      }
      if Coalesced(start) {
        RelabelStaysCoalesced(start, 0, |idxBuffer|, header);
      }
      RelabelLast();
    }

    /** The current texture was changed; the command buffer follows, and its meaning stays. */
    method OnChangedTextureID()
      requires Sound() && |cmdBuffer| > 0 && Last(cmdBuffer).callback == NoCallback
      requires Last(cmdBuffer).header.(texture := header.texture) == header
      modifies `cmdBuffer, `reserved
      ensures Valid() && reserved == 0
      ensures old(Coalesced(cmdBuffer)) ==> Coalesced(cmdBuffer)
    {
      hide Tiles, Tags, Coalesced;
      ghost var start := cmdBuffer;
      reserved := 0;
      if Last(cmdBuffer).elemCount != 0 && Last(cmdBuffer).header.texture != header.texture {
        if Coalesced(start) {
          CoalescedPush(start, DrawCmd(header, |idxBuffer|, 0, NoCallback));
        }
        AddDrawCmd();
        return;
      }
      if PreviousFits() {
        DropLast();
        return;
      }
      if Coalesced(start) {
        RelabelStaysCoalesced(start, 0, |idxBuffer|, header);
      }
      RelabelLast();
    }

    /** The current vertex offset was changed; indices start again from it. */
    method OnChangedVtxOffset()
      requires Sound() && |cmdBuffer| > 0 && Last(cmdBuffer).callback == NoCallback
      requires Last(cmdBuffer).header.(vtxOffset := header.vtxOffset) == header
      modifies `cmdBuffer, `reserved, `vtxCurrentIdx
      ensures Valid() && reserved == 0 && vtxCurrentIdx == 0
      ensures |cmdBuffer| == old(|cmdBuffer|) + if old(Last(cmdBuffer)).elemCount != 0 then 1 else 0
      ensures old(Coalesced(cmdBuffer)) ==> (Coalesced(cmdBuffer) <==> !Newest(log, Index(header)))
    {
      hide Tiles, Tags, Coalesced, Continues, Newest;
      vtxCurrentIdx := 0;
      reserved := 0;
      if Coalesced(cmdBuffer) {
        ContinuesIs(cmdBuffer, header);
        ContinuesEither(cmdBuffer, DrawCmd(header, |idxBuffer|, 0, NoCallback));
      }
      if Last(cmdBuffer).elemCount != 0 {
        AddDrawCmd();
        return;
      }
      RelabelLast();
    }

    method PushClipRect(rect: ClipRect, intersectWithCurrent: bool)
      requires Valid()
      modifies `cmdBuffer, `reserved, `header, `clipRectStack
      ensures Valid() && Recorded() == old(Recorded()).PushClip(rect, intersectWithCurrent)
      ensures clipRectStack == old(clipRectStack) + [header.clip] && header == old(header).(clip := header.clip)
      ensures old(Coalesced(cmdBuffer)) ==> Coalesced(cmdBuffer)
    {
      hide Tiles, Tags, Coalesced;
      var cr := rect;
      if intersectWithCurrent {
        var current := header.clip;
        if cr.x < current.x { cr := cr.(x := current.x); }
        if cr.y < current.y { cr := cr.(y := current.y); }
        if cr.z > current.z { cr := cr.(z := current.z); }
        if cr.w > current.w { cr := cr.(w := current.w); }
      }
      cr := cr.(z := Max(cr.x, cr.z));
      cr := cr.(w := Max(cr.y, cr.w));
      clipRectStack := clipRectStack + [cr];
      header := header.(clip := cr);
      OnChangedClipRect();
    }

    method PopClipRect()
      requires Valid() && |clipRectStack| > 0
      modifies `cmdBuffer, `reserved, `header, `clipRectStack
      ensures Valid() && Recorded() == old(Recorded()).PopClip()
      ensures |clipRectStack| == old(|clipRectStack|) - 1 && clipRectStack < old(clipRectStack)
      ensures header == old(header).(clip := header.clip)
      ensures header.clip == if |clipRectStack| == 0 then fullscreen else clipRectStack[|clipRectStack| - 1]
      ensures old(Coalesced(cmdBuffer)) ==> Coalesced(cmdBuffer)
    {
      hide Tiles, Tags, Coalesced;
      clipRectStack := clipRectStack[..|clipRectStack| - 1];
      header := header.(clip := if |clipRectStack| == 0 then fullscreen else clipRectStack[|clipRectStack| - 1]);
      OnChangedClipRect();
    }

    method PushTextureID(texture: int)
      requires Valid()
      modifies `cmdBuffer, `reserved, `header, `textureIdStack
      ensures Valid() && Recorded() == old(Recorded()).PushTexture(texture)
      ensures textureIdStack == old(textureIdStack) + [texture] && header == old(header).(texture := texture)
      ensures old(Coalesced(cmdBuffer)) ==> Coalesced(cmdBuffer)
    {
      hide Tiles, Tags, Coalesced;
      textureIdStack := textureIdStack + [texture];
      header := header.(texture := texture);
      OnChangedTextureID();
    }

    method PopTextureID()
      requires Valid() && |textureIdStack| > 0
      modifies `cmdBuffer, `reserved, `header, `textureIdStack
      ensures Valid() && Recorded() == old(Recorded()).PopTexture()
      ensures |textureIdStack| == old(|textureIdStack|) - 1 && textureIdStack < old(textureIdStack)
      ensures header == old(header).(texture := header.texture)
      ensures header.texture == if |textureIdStack| == 0 then 0 else textureIdStack[|textureIdStack| - 1]
      ensures old(Coalesced(cmdBuffer)) ==> Coalesced(cmdBuffer)
    {
      hide Tiles, Tags, Coalesced;
      textureIdStack := textureIdStack[..|textureIdStack| - 1];
      header := header.(texture := if |textureIdStack| == 0 then 0 else textureIdStack[|textureIdStack| - 1]);
      OnChangedTextureID();
    }

    method SetTextureID(texture: int)
      requires Valid()
      modifies `cmdBuffer, `reserved, `header
      ensures Valid() && Recorded() == old(Recorded()).SetTexture(texture)
      ensures header == old(header).(texture := texture)
      ensures old(Coalesced(cmdBuffer)) ==> Coalesced(cmdBuffer)
    {
      hide Tiles, Tags, Coalesced;
      if header.texture == texture {
        reserved := 0;
        return;
      }
      header := header.(texture := texture);
      OnChangedTextureID();
    }

    /** The last command grows by new index slots, tagged with the current header. */
    method GrowLast(idxCount: nat)
      requires Valid()
      modifies `cmdBuffer, `idxBuffer, `idxWrite, `log, `reserved
      ensures Valid() && |cmdBuffer| == old(|cmdBuffer|)
      ensures idxBuffer == old(idxBuffer) + Blank(idxCount) && idxWrite == |old(idxBuffer)|
      ensures log == old(log) + Copies(header, idxCount) && reserved == idxCount
      ensures forall k | old(|log|) <= k < |log| :: log[k] == Index(header)
      ensures Coalesced(cmdBuffer) <==> old(Coalesced(cmdBuffer))
    {
      hide Tiles, Tags, Coalesced;
      ResizeCoalescedIff(cmdBuffer, Last(cmdBuffer).elemCount + idxCount);
      Grow(cmdBuffer, 0, |idxBuffer|, idxCount);
      cmdBuffer := cmdBuffer[|cmdBuffer| - 1 := Last(cmdBuffer).(elemCount := Last(cmdBuffer).elemCount + idxCount)];
      log := log + Copies(header, idxCount);
      reserved := idxCount;
      var idxOldSize := |idxBuffer|;
      idxBuffer := idxBuffer + Blank(idxCount);
      idxWrite := idxOldSize;
    }

    /** Reserves index slots and vertices at the end of the buffers, under the current header. */
    method PrimReserve(idxCount: nat, vtxCount: nat)
      requires Valid()
      modifies this
      ensures Valid() && Recorded() == old(Recorded()).Reserve(idxCount, vtxCount)
      ensures old(vtxCurrentIdx) + vtxCount < 0x1_0000 || !old(allowVtxOffset) ==>
        header == old(header) && vtxCurrentIdx == old(vtxCurrentIdx) && |cmdBuffer| == old(|cmdBuffer|)
      ensures old(vtxCurrentIdx) + vtxCount >= 0x1_0000 && old(allowVtxOffset) ==>
        && header == old(header).(vtxOffset := old(|vtxBuffer|)) && vtxCurrentIdx == 0
        && |cmdBuffer| == old(|cmdBuffer|) + if old(Last(cmdBuffer)).elemCount != 0 then 1 else 0
      ensures |idxBuffer| == old(|idxBuffer|) + idxCount && old(idxBuffer) <= idxBuffer
      ensures |vtxBuffer| == old(|vtxBuffer|) + vtxCount && old(vtxBuffer) <= vtxBuffer
      ensures idxWrite == old(|idxBuffer|) && vtxWrite == old(|vtxBuffer|)
      ensures |log| == old(|log|) + idxCount && old(log) <= log
      ensures forall k | old(|log|) <= k < |log| :: log[k] == Index(header)
      ensures old(Coalesced(cmdBuffer)) ==> (Coalesced(cmdBuffer) <==> !old(Recorded()).Reopens(vtxCount))
    {
      hide Tiles, Tags, Copies, Blank, Coalesced, Newest;
      if vtxCurrentIdx + vtxCount >= INDEX_LIMIT && allowVtxOffset {
        header := header.(vtxOffset := |vtxBuffer|);
        OnChangedVtxOffset();
      }
      GrowLast(idxCount);
      var vtxOldSize := |vtxBuffer|;
      vtxBuffer := vtxBuffer + Blank(vtxCount);
      vtxWrite := vtxOldSize;
    }

    /** Gives unused slots at the end of the latest reservation back. */
    method PrimUnreserve(idxCount: nat, vtxCount: nat)
      requires Valid() && idxCount <= Last(cmdBuffer).elemCount
      requires idxWrite + idxCount <= |idxBuffer| && vtxWrite + vtxCount <= |vtxBuffer|
      modifies this
      ensures idxCount <= old(|log|)
      ensures Valid() && Recorded() == old(Recorded()).Unreserve(idxCount, vtxCount)
      ensures header == old(header) && vtxCurrentIdx == old(vtxCurrentIdx)
      ensures idxWrite == old(idxWrite) && vtxWrite == old(vtxWrite) && log == old(log)[..|old(log)| - idxCount]
      ensures |idxBuffer| == old(|idxBuffer|) - idxCount && idxBuffer <= old(idxBuffer)
      ensures |vtxBuffer| == old(|vtxBuffer|) - vtxCount && vtxBuffer <= old(vtxBuffer)
      ensures old(Coalesced(cmdBuffer)) ==> Coalesced(cmdBuffer)
    {
      hide Tiles, Tags, Coalesced;
      if Coalesced(cmdBuffer) {
        ResizeStaysCoalesced(cmdBuffer, Last(cmdBuffer).elemCount - idxCount);
      }
      Shrink(cmdBuffer, 0, |idxBuffer|, idxCount);
      cmdBuffer := cmdBuffer[|cmdBuffer| - 1 := Last(cmdBuffer).(elemCount := Last(cmdBuffer).elemCount - idxCount)];
      log := log[..|log| - idxCount];
      reserved := if idxCount <= reserved then reserved - idxCount else 0;
      vtxBuffer := vtxBuffer[..|vtxBuffer| - vtxCount];
      idxBuffer := idxBuffer[..|idxBuffer| - idxCount];
    }

    /** Writes the next reserved vertex. */
    method PrimWriteVtx(vertex: Vertex)
      requires Valid() && vtxWrite < |vtxBuffer|
      modifies `vtxBuffer, `vtxWrite, `vtxCurrentIdx
      ensures Valid() && Recorded() == old(Recorded()).WriteVtx(vertex)
      ensures vtxBuffer == old(vtxBuffer)[old(vtxWrite) := Written(vertex)]
      ensures vtxWrite == old(vtxWrite) + 1 && vtxCurrentIdx == old(vtxCurrentIdx) + 1
    {
      vtxBuffer := vtxBuffer[vtxWrite := Written(vertex)];
      vtxWrite := vtxWrite + 1;
      vtxCurrentIdx := vtxCurrentIdx + 1;
    }

    /** Writes the next reserved index. */
    method PrimWriteIdx(index: nat)
      requires Valid() && idxWrite < |idxBuffer|
      modifies `idxBuffer, `idxWrite
      ensures Valid() && Recorded() == old(Recorded()).WriteIdx(index)
      ensures idxBuffer == old(idxBuffer)[old(idxWrite) := Written(index % 0x1_0000)] && idxWrite == old(idxWrite) + 1
    {
      idxBuffer := idxBuffer[idxWrite := Written(ToIndex(index))];
      idxWrite := idxWrite + 1;
    }

    /** Writes the next reserved indices, each converted to the 16-bit index type. */
    method WriteIdxRun(indices: seq<nat>)
      requires Valid() && idxWrite + |indices| <= |idxBuffer|
      modifies `idxBuffer, `idxWrite
      ensures Valid() && |idxBuffer| == old(|idxBuffer|) && idxWrite == old(idxWrite) + |indices|
      ensures idxBuffer[..idxWrite] == old(idxBuffer)[..old(idxWrite)] + Converted(indices)
      ensures idxBuffer[idxWrite..] == old(idxBuffer)[idxWrite..]
    {
      idxBuffer := idxBuffer[..idxWrite] + Converted(indices) + idxBuffer[idxWrite + |indices|..];
      idxWrite := idxWrite + |indices|;
    }

    /** Writes the next reserved vertices; the current index is advanced by the caller. */
    method WriteVtxRun(vertices: seq<Vertex>)
      requires Valid() && vtxWrite + |vertices| <= |vtxBuffer|
      modifies `vtxBuffer, `vtxWrite
      ensures Valid() && |vtxBuffer| == old(|vtxBuffer|) && vtxWrite == old(vtxWrite) + |vertices|
      ensures vtxBuffer[..vtxWrite] == old(vtxBuffer)[..old(vtxWrite)] + AllWritten(vertices)
      ensures vtxBuffer[vtxWrite..] == old(vtxBuffer)[vtxWrite..]
    {
      vtxBuffer := vtxBuffer[..vtxWrite] + AllWritten(vertices) + vtxBuffer[vtxWrite + |vertices|..];
      vtxWrite := vtxWrite + |vertices|;
    }

    /** The current index moves past vertices that were written in one go. */
    method AdvanceVtx(vtxCount: nat)
      requires Valid()
      modifies `vtxCurrentIdx
      ensures Valid() && vtxCurrentIdx == old(vtxCurrentIdx) + ToIndex(vtxCount)
      ensures vtxCurrentIdx == old(vtxCurrentIdx) + vtxCount % 0x1_0000
    {
      vtxCurrentIdx := vtxCurrentIdx + ToIndex(vtxCount);
    }
  }

  /** What the renderer draws from a valid list is what the naive recorder holds. */
  lemma DrawsWhatWasRecorded(dl: DrawList)
    requires dl.Sound()
    ensures InBounds(dl.cmdBuffer, |dl.idxBuffer|)
    ensures Slots(dl.log) == |dl.idxBuffer|
    ensures Render(dl.cmdBuffer, dl.idxBuffer) == Fill(dl.Recorded().log, dl.Recorded().idx)
  {
    RenderIsFill(dl.cmdBuffer, dl.idxBuffer);
  }
}
