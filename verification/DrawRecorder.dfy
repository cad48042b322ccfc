/**
 * The recorder without any command buffer: it tags every index slot with the header current when the
 * slot was reserved, and every callback with the header it was added under. This is the meaning that
 * the coalescing draw list has to keep.
 */
module DrawRecorder {
  import opened Buffers
  import opened DrawCommands

  /** A vertex, known by the corner of a primitive or the input point and rail it was made for. */
  datatype Vertex = Corner(x: real, y: real) | OfPoint(point: nat, rail: nat)

  const INDEX_LIMIT := 0x1_0000

  /** A conversion to the 16-bit index type. */
  function ToIndex(n: nat): nat {
    n % INDEX_LIMIT
  }

  function AllWritten<T>(values: seq<T>): seq<Slot<T>> {
    seq(|values|, i requires 0 <= i < |values| => Written(values[i]))
  }

  function Converted(indices: seq<nat>): seq<Slot<nat>> {
    seq(|indices|, i requires 0 <= i < |indices| => Written(ToIndex(indices[i])))
  }

  function Blank<T>(n: nat): (r: seq<Slot<T>>)
    ensures |r| == n
  {
    seq(n, _ => Unwritten)
  }

  /** The callback as its command keeps it: with the pointer itself, or with where its bytes are stored. Routine 0 is
      none. */
  function CallOf(routine: int, userData: int, bytes: seq<bv8>, offset: nat): Callback {
    if routine == 0 then NoCallback
    else if |bytes| == 0 then Callback(routine, userData, 0, -1)
    else Callback(routine, 0, |bytes|, offset)
  }

  /** `store` holds the bytes given to callbacks; `reserved` counts the index slots of the latest reservation that can
      still be given back. */
  datatype Recorder = Recorder(
    header: Header, fullscreen: ClipRect, clips: seq<ClipRect>, textures: seq<int>,
    log: seq<Tag>, idx: seq<Slot<nat>>, idxWrite: nat,
    vtx: seq<Slot<Vertex>>, vtxWrite: nat, vtxCurrent: nat, allowVtxOffset: bool, store: seq<bv8>, reserved: nat)
  {
    /** The current index, read from the current vertex offset, is the next vertex to write. */
    predicate Aligned() {
      header.vtxOffset + vtxCurrent == vtxWrite
    }

    /** The latest reservation is completely written. */
    predicate Full() {
      idxWrite == |idx| && vtxWrite == |vtx|
    }

    function SetClip(clip: ClipRect): Recorder {
      this.(header := header.(clip := clip), reserved := 0)
    }

    function PushClip(rect: ClipRect, intersect: bool): Recorder {
      var c := Clipped(rect, header.clip, intersect);
      SetClip(c).(clips := clips + [c])
    }

    function PopClip(): Recorder
      requires |clips| > 0
    {
      var rest := clips[..|clips| - 1];
      SetClip(if |rest| == 0 then fullscreen else rest[|rest| - 1]).(clips := rest)
    }

    function SetTexture(texture: int): Recorder {
      this.(header := header.(texture := texture), reserved := 0)
    }

    function PushTexture(texture: int): Recorder {
      SetTexture(texture).(textures := textures + [texture])
    }

    function PopTexture(): Recorder
      requires |textures| > 0
    {
      var rest := textures[..|textures| - 1];
      SetTexture(if |rest| == 0 then 0 else rest[|rest| - 1]).(textures := rest)
    }

    function AddCmd(): Recorder {
      this.(reserved := 0)
    }

    function AddCall(routine: int, userData: int, bytes: seq<bv8>): Recorder {
      this.(log := log + (if routine == 0 then [] else [Call(header, CallOf(routine, userData, bytes, |store|))]),
            store := store + bytes, reserved := 0)
    }

    /** Whether a reservation starts a new window of 16-bit indices. */
    predicate StartsWindow(vtxCount: nat) {
      vtxCurrent + vtxCount >= INDEX_LIMIT && allowVtxOffset
    }

    function Window(vtxCount: nat): Recorder {
      if StartsWindow(vtxCount) then this.(header := header.(vtxOffset := |vtx|), vtxCurrent := 0)
      else this
    }

    /** A new window would start where the newest index's window did. */
    predicate Reopens(vtxCount: nat) {
      StartsWindow(vtxCount) && Newest(log, Index(Window(vtxCount).header))
    }

    function Reserve(idxCount: nat, vtxCount: nat): Recorder {
      var w := Window(vtxCount);
      w.(log := log + Copies(w.header, idxCount),
         idx := idx + Blank(idxCount), idxWrite := |idx|,
         vtx := vtx + Blank(vtxCount), vtxWrite := |vtx|,
         reserved := idxCount)
    }

    predicate CanUnreserve(idxCount: nat, vtxCount: nat) {
      && idxCount <= reserved
      && idxWrite + idxCount <= |idx|
      && vtxWrite + vtxCount <= |vtx|
    }

    function Unreserve(idxCount: nat, vtxCount: nat): Recorder
      requires idxCount <= |log| && idxWrite + idxCount <= |idx| && vtxWrite + vtxCount <= |vtx|
    {
      this.(log := log[..|log| - idxCount], idx := idx[..|idx| - idxCount], vtx := vtx[..|vtx| - vtxCount],
            reserved := if idxCount <= reserved then reserved - idxCount else 0)
    }

    function WriteIdx(index: nat): Recorder
      requires idxWrite < |idx|
    {
      this.(idx := idx[idxWrite := Written(ToIndex(index))], idxWrite := idxWrite + 1)
    }

    function WriteVtx(vertex: Vertex): Recorder
      requires vtxWrite < |vtx|
    {
      this.(vtx := vtx[vtxWrite := Written(vertex)], vtxWrite := vtxWrite + 1, vtxCurrent := vtxCurrent + 1)
    }
  }

  /**
   * A reservation of fewer than 65536 vertices, made when the previous one was completely written, on
   * a list that may start a new window or has room in the current one,
   * gets a range of indices that 16 bits can hold, and reading those indices from the vertex offset
   * of the current header lands on exactly the vertices just reserved.
   */
  lemma ReserveFits(r: Recorder, idxCount: nat, vtxCount: nat)
    requires r.Aligned() && r.Full() && vtxCount < INDEX_LIMIT
    requires r.allowVtxOffset || r.vtxCurrent + vtxCount < INDEX_LIMIT
    ensures
      var s := r.Reserve(idxCount, vtxCount);
      && s.Aligned()
      && s.vtxCurrent + vtxCount < INDEX_LIMIT
      && s.header.vtxOffset + s.vtxCurrent == |r.vtx|
      && |s.vtx| == |r.vtx| + vtxCount
  {
  }
}
