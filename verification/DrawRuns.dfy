/**
 * Whole runs of drawing operations. Whatever the order of the operations, and however they are
 * spread over channels, the draw list renders what the naive recorder holds.
 */
module DrawRuns {
  import opened Buffers
  import opened DrawCommands
  import opened DrawRecorder
  import opened DrawLists
  import opened DrawListSplitters

  datatype Op =
    | PushClipRect(rect: ClipRect, intersect: bool)
    | PopClipRect
    | PushTextureID(texture: int)
    | PopTextureID
    | SetTextureID(texture: int)
    | AddCallback(routine: int, userData: int, bytes: seq<bv8>)
    | AddDrawCmd
    | PrimReserve(idxCount: nat, vtxCount: nat)
    | PrimUnreserve(idxCount: nat, vtxCount: nat)
    | PrimWriteIdx(index: nat)
    | PrimWriteVtx(vertex: Vertex)

  /** What the operations ask of their caller. */
  predicate Allowed(r: Recorder, op: Op) {
    match op
    case PopClipRect => |r.clips| > 0
    case PopTextureID => |r.textures| > 0
    case AddCallback(_, _, bytes) => |bytes| < 0x8000_0000
    case PrimUnreserve(i, v) => r.CanUnreserve(i, v) && i <= |r.log|
    case PrimWriteIdx(_) => r.idxWrite < |r.idx|
    case PrimWriteVtx(_) => r.vtxWrite < |r.vtx|
    case _ => true
  }

  /** The naive meaning of one operation. */
  function Step(r: Recorder, op: Op): Recorder
    requires Allowed(r, op)
  {
    match op
    case PushClipRect(rect, intersect) => r.PushClip(rect, intersect)
    case PopClipRect => r.PopClip()
    case PushTextureID(t) => r.PushTexture(t)
    case PopTextureID => r.PopTexture()
    case SetTextureID(t) => r.SetTexture(t)
    case AddCallback(routine, userData, bytes) => r.AddCall(routine, userData, bytes)
    case AddDrawCmd => r.AddCmd()
    case PrimReserve(i, v) => r.Reserve(i, v)
    case PrimUnreserve(i, v) => r.Unreserve(i, v)
    case PrimWriteIdx(index) => r.WriteIdx(index)
    case PrimWriteVtx(vertex) => r.WriteVtx(vertex)
  }

  predicate AllAllowed(r: Recorder, ops: seq<Op>)
    decreases |ops|
  {
    |ops| == 0 || (Allowed(r, ops[0]) && AllAllowed(Step(r, ops[0]), ops[1..]))
  }

  function Steps(r: Recorder, ops: seq<Op>): Recorder
    requires AllAllowed(r, ops)
    decreases |ops|
  {
    if |ops| == 0 then r else Steps(Step(r, ops[0]), ops[1..])
  }

  /** The operation leaves two commands where one would do: a command added for nothing, or a new window of vertices
      that starts where the newest index's window did. */
  predicate Untidy(r: Recorder, op: Op) {
    match op
    case AddDrawCmd => true
    case AddCallback(routine, _, _) => routine == 0
    case PrimReserve(_, v) => r.Reopens(v)
    case _ => false
  }

  predicate AllTidy(r: Recorder, ops: seq<Op>)
    requires AllAllowed(r, ops)
    decreases |ops|
  {
    |ops| == 0 || (!Untidy(r, ops[0]) && AllTidy(Step(r, ops[0]), ops[1..]))
  }

  /** One operation on the list is one step of the recorder, and keeps the commands coalesced unless it is untidy. */
  method Perform(dl: DrawList, op: Op)
    requires dl.Valid() && Allowed(dl.Recorded(), op)
    modifies dl
    ensures dl.Valid() && dl.Recorded() == Step(old(dl.Recorded()), op)
    ensures old(Coalesced(dl.cmdBuffer)) ==> (Coalesced(dl.cmdBuffer) <==> !Untidy(old(dl.Recorded()), op))
    ensures |dl.clipRectStack|
         == old(|dl.clipRectStack|) + (if op.PushClipRect? then 1 else 0) - if op.PopClipRect? then 1 else 0
    ensures |dl.textureIdStack|
         == old(|dl.textureIdStack|) + (if op.PushTextureID? then 1 else 0) - if op.PopTextureID? then 1 else 0
    ensures op.PushTextureID? || op.SetTextureID? ==> dl.header.texture == op.texture
    ensures |dl.idxBuffer| + (if op.PrimUnreserve? then op.idxCount else 0)
         == old(|dl.idxBuffer|) + if op.PrimReserve? then op.idxCount else 0
    ensures |dl.vtxBuffer| + (if op.PrimUnreserve? then op.vtxCount else 0)
         == old(|dl.vtxBuffer|) + if op.PrimReserve? then op.vtxCount else 0
    ensures dl.idxWrite
         == if op.PrimReserve? then old(|dl.idxBuffer|) else old(dl.idxWrite) + if op.PrimWriteIdx? then 1 else 0
    ensures dl.vtxWrite
         == if op.PrimReserve? then old(|dl.vtxBuffer|) else old(dl.vtxWrite) + if op.PrimWriteVtx? then 1 else 0
    ensures op.PrimWriteIdx? ==> dl.idxBuffer[old(dl.idxWrite)] == Written(op.index % 0x1_0000)
    ensures op.PrimWriteVtx? ==> dl.vtxBuffer[old(dl.vtxWrite)] == Written(op.vertex)
  {
    hide DrawList.Sound, Tiles, Tags, Coalesced, Newest;
    match op {
      case PushClipRect(rect, intersect) => dl.PushClipRect(rect, intersect);
      case PopClipRect => dl.PopClipRect();
      case PushTextureID(t) => dl.PushTextureID(t);
      case PopTextureID => dl.PopTextureID();
      case SetTextureID(t) => dl.SetTextureID(t);
      case AddCallback(routine, userData, bytes) => dl.AddCallback(routine, userData, bytes);
      case AddDrawCmd => Restart(dl);
      case PrimReserve(i, v) => dl.PrimReserve(i, v);
      case PrimUnreserve(i, v) => dl.PrimUnreserve(i, v);
      case PrimWriteIdx(index) => dl.PrimWriteIdx(index);
      case PrimWriteVtx(vertex) => dl.PrimWriteVtx(vertex);
    }
  }

  method Restart(dl: DrawList)
    requires dl.Valid()
    modifies dl`cmdBuffer, dl`reserved
    ensures dl.Valid() && dl.Recorded() == old(dl.Recorded()).AddCmd() && !Coalesced(dl.cmdBuffer)
  {
    hide Tiles, Tags, Coalesced;
    NotCoalesced(dl.cmdBuffer, DrawCmd(dl.header, |dl.idxBuffer|, 0, NoCallback));
    dl.AddDrawCmd();
  }

  /**
   * Any run of operations: the buffers render the naive recording, the last command can always
   * grow under the current header, and the commands tile the index buffer. A run of tidy operations
   * keeps them coalesced.
   */
  method Run(dl: DrawList, ops: seq<Op>)
    requires dl.Valid() && AllAllowed(dl.Recorded(), ops)
    modifies dl
    ensures dl.Valid() && dl.Recorded() == Steps(old(dl.Recorded()), ops)
    ensures Tiles(dl.cmdBuffer, 0, |dl.idxBuffer|) && InBounds(dl.cmdBuffer, |dl.idxBuffer|)
    ensures old(Coalesced(dl.cmdBuffer)) && AllTidy(old(dl.Recorded()), ops) ==> Coalesced(dl.cmdBuffer)
    ensures
      var naive := Steps(old(dl.Recorded()), ops);
      && Slots(naive.log) == |naive.idx|
      && Render(dl.cmdBuffer, dl.idxBuffer) == Fill(naive.log, naive.idx)
  {
    hide Tiles, Tags, Step, Allowed, Slots, Fill, InBounds, Render, Coalesced, Untidy;
    ghost var start := dl.Recorded();
    ghost var tidy := Coalesced(dl.cmdBuffer) && AllTidy(start, ops);
    var i := 0;
    while i < |ops|
      invariant 0 <= i <= |ops|
      invariant dl.Valid() && AllAllowed(dl.Recorded(), ops[i..])
      invariant Steps(dl.Recorded(), ops[i..]) == Steps(start, ops)
      invariant tidy ==> Coalesced(dl.cmdBuffer) && AllTidy(dl.Recorded(), ops[i..])
    {
      assert ops[i..][0] == ops[i] && ops[i..][1..] == ops[i + 1..];
      Perform(dl, ops[i]);
      i := i + 1;
    }
    DrawsWhatWasRecorded(dl);
  }

  // ---------------------------------------------------------------------------------------------
  // Sixteen-bit indices over whole runs
  // ---------------------------------------------------------------------------------------------

  /** The next vertex is where the current index points, and every vertex still due has an index of 16 bits. */
  predicate Indexable(r: Recorder) {
    && r.vtxWrite <= |r.vtx|
    && r.Aligned()
    && r.vtxCurrent + (|r.vtx| - r.vtxWrite) < INDEX_LIMIT
  }

  /** A reservation is made when the one before it has been filled or given back, and for fewer than 65536 vertices. */
  predicate Disciplined(r: Recorder, ops: seq<Op>)
    requires AllAllowed(r, ops)
    decreases |ops|
  {
    |ops| == 0 ||
    ((ops[0].PrimReserve? ==> r.vtxWrite == |r.vtx| && ops[0].vtxCount < INDEX_LIMIT)
     && Disciplined(Step(r, ops[0]), ops[1..]))
  }

  /**
   * With vertex offsets allowed, every disciplined run keeps every vertex within reach of a 16-bit
   * index: the index of the next vertex survives the conversion and, read from the offset of the
   * current header, is that vertex.
   */
  lemma {:induction false} AlwaysIndexable(r: Recorder, ops: seq<Op>)
    requires AllAllowed(r, ops) && Disciplined(r, ops)
    requires Indexable(r) && r.allowVtxOffset
    ensures
      var s := Steps(r, ops);
      && Indexable(s)
      && (s.vtxWrite < |s.vtx| ==> s.header.vtxOffset + s.vtxCurrent % 0x1_0000 == s.vtxWrite)
    decreases |ops|
  {
    if |ops| > 0 {
      StepIndexable(r, ops[0]);
      AlwaysIndexable(Step(r, ops[0]), ops[1..]);
    }
  }

  lemma StepIndexable(r: Recorder, op: Op)
    requires Allowed(r, op) && Indexable(r) && r.allowVtxOffset
    requires op.PrimReserve? ==> r.vtxWrite == |r.vtx| && op.vtxCount < INDEX_LIMIT
    ensures Indexable(Step(r, op)) && Step(r, op).allowVtxOffset
  {
  }

  // ---------------------------------------------------------------------------------------------
  // Stacks over whole runs
  // ---------------------------------------------------------------------------------------------

  /** How much higher the stack of clip rectangles is after the operations. */
  function ClipRise(ops: seq<Op>): int {
    if |ops| == 0 then 0
    else (if ops[0].PushClipRect? then 1 else if ops[0].PopClipRect? then -1 else 0) + ClipRise(ops[1..])
  }

  function TextureRise(ops: seq<Op>): int {
    if |ops| == 0 then 0
    else (if ops[0].PushTextureID? then 1 else if ops[0].PopTextureID? then -1 else 0) + TextureRise(ops[1..])
  }

  /** Every pop takes what was pushed in the same stretch, and nothing pushed is left. */
  predicate ClipBalanced(ops: seq<Op>) {
    ClipRise(ops) == 0 && forall k | 0 <= k <= |ops| :: ClipRise(ops[..k]) >= 0
  }

  predicate TextureBalanced(ops: seq<Op>) {
    TextureRise(ops) == 0 && forall k | 0 <= k <= |ops| :: TextureRise(ops[..k]) >= 0
  }

  /** What lies below every rectangle that is popped stays where it is. */
  lemma {:induction false} ClipsKept(r: Recorder, ops: seq<Op>, n: nat)
    requires AllAllowed(r, ops) && n <= |r.clips|
    requires forall k | 0 <= k <= |ops| :: n <= |r.clips| + ClipRise(ops[..k])
    ensures
      var s := Steps(r, ops);
      |s.clips| == |r.clips| + ClipRise(ops) && n <= |s.clips| && s.clips[..n] == r.clips[..n]
      && s.fullscreen == r.fullscreen
    decreases |ops|
  {
    if |ops| > 0 {
      var s := Step(r, ops[0]);
      assert ops[..1][1..] == [];
      assert ClipRise(ops[..1]) == |s.clips| - |r.clips|;
      forall k | 0 <= k <= |ops[1..]| ensures n <= |s.clips| + ClipRise(ops[1..][..k]) {
        assert ops[..k + 1][1..] == ops[1..][..k];
      }
      ClipsKept(s, ops[1..], n);
    }
    assert ops[..|ops|] == ops;
  }

  lemma {:induction false} TexturesKept(r: Recorder, ops: seq<Op>, n: nat)
    requires AllAllowed(r, ops) && n <= |r.textures|
    requires forall k | 0 <= k <= |ops| :: n <= |r.textures| + TextureRise(ops[..k])
    ensures
      var s := Steps(r, ops);
      |s.textures| == |r.textures| + TextureRise(ops) && n <= |s.textures| && s.textures[..n] == r.textures[..n]
    decreases |ops|
  {
    if |ops| > 0 {
      var s := Step(r, ops[0]);
      assert ops[..1][1..] == [];
      assert TextureRise(ops[..1]) == |s.textures| - |r.textures|;
      forall k | 0 <= k <= |ops[1..]| ensures n <= |s.textures| + TextureRise(ops[1..][..k]) {
        assert ops[..k + 1][1..] == ops[1..][..k];
      }
      TexturesKept(s, ops[1..], n);
    }
    assert ops[..|ops|] == ops;
  }

  /** The current rectangle is the one on top of the stack, if there is one. */
  predicate ClipOnTop(r: Recorder) {
    |r.clips| > 0 ==> r.header.clip == r.clips[|r.clips| - 1]
  }

  lemma {:induction false} ClipStaysOnTop(r: Recorder, ops: seq<Op>)
    requires AllAllowed(r, ops) && ClipOnTop(r)
    ensures ClipOnTop(Steps(r, ops))
    decreases |ops|
  {
    if |ops| > 0 {
      ClipStaysOnTop(Step(r, ops[0]), ops[1..]);
    }
  }

  /** A rectangle pushed, a balanced stretch of any operations, and the pop: the stack is as it was, and so is the
      current rectangle, unless the stack was empty and the current rectangle not the full screen. */
  lemma PopUndoesPushClip(r: Recorder, rect: ClipRect, intersect: bool, ops: seq<Op>)
    requires AllAllowed(r.PushClip(rect, intersect), ops) && ClipBalanced(ops) && ClipOnTop(r)
    ensures Allowed(Steps(r.PushClip(rect, intersect), ops), PopClipRect)
    ensures
      var s := Step(Steps(r.PushClip(rect, intersect), ops), PopClipRect);
      && s.clips == r.clips
      && (s.header.clip == r.header.clip <==> |r.clips| > 0 || r.header.clip == r.fullscreen)
  {
    var p := r.PushClip(rect, intersect);
    ClipsKept(p, ops, |p.clips|);
    var e := Steps(p, ops);
    assert e.clips == p.clips == r.clips + [p.header.clip];
    assert e.clips[..|e.clips| - 1] == r.clips;
  }

  /** The same of textures; behind an empty stack there is no texture, and one set without the stack is not restored. */
  lemma PopUndoesPushTexture(r: Recorder, texture: int, ops: seq<Op>)
    requires AllAllowed(r.PushTexture(texture), ops) && TextureBalanced(ops)
    ensures Allowed(Steps(r.PushTexture(texture), ops), PopTextureID)
    ensures
      var s := Step(Steps(r.PushTexture(texture), ops), PopTextureID);
      && s.textures == r.textures
      && s.header.texture == if |r.textures| == 0 then 0 else r.textures[|r.textures| - 1]
  {
    var p := r.PushTexture(texture);
    TexturesKept(p, ops, |p.textures|);
    var e := Steps(p, ops);
    assert e.textures == p.textures == r.textures + [texture];
    assert e.textures[..|e.textures| - 1] == r.textures;
  }

  // ---------------------------------------------------------------------------------------------
  // Tidy runs
  // ---------------------------------------------------------------------------------------------

  /** Everything recorded so far stands in the current window of vertices or in an earlier one. */
  ghost predicate Windowed(r: Recorder) {
    && r.vtxWrite <= |r.vtx| && r.Aligned()
    && forall i | 0 <= i < |r.log| :: r.log[i].Index? ==> r.log[i].header.vtxOffset <= r.header.vtxOffset
  }

  predicate Empty(op: Op) {
    op == AddDrawCmd || (op.AddCallback? && op.routine == 0)
  }

  lemma StepWindowed(r: Recorder, op: Op)
    requires Allowed(r, op) && Windowed(r)
    requires op.PrimReserve? ==> r.vtxWrite == |r.vtx| && op.vtxCount < INDEX_LIMIT
    ensures Windowed(Step(r, op)) && (Untidy(r, op) <==> Empty(op))
  {
  }

  /** A disciplined run that adds no empty commands of its own is tidy: the command buffer stays coalesced. */
  lemma {:induction false} DisciplinedIsTidy(r: Recorder, ops: seq<Op>)
    requires AllAllowed(r, ops) && Disciplined(r, ops) && Windowed(r)
    ensures AllTidy(r, ops) <==> forall i | 0 <= i < |ops| :: !Empty(ops[i])
    decreases |ops|
  {
    hide Windowed, Step, Allowed, Untidy, Empty;
    if |ops| > 0 {
      StepWindowed(r, ops[0]);
      DisciplinedIsTidy(Step(r, ops[0]), ops[1..]);
      assert forall i | 0 < i < |ops| :: ops[i] == ops[1..][i - 1];
      assert forall i | 0 <= i < |ops| - 1 :: ops[1..][i] == ops[i + 1];
    }
  }

  // ---------------------------------------------------------------------------------------------
  // Runs over channels
  // ---------------------------------------------------------------------------------------------

  datatype Action = Draw(op: Op) | SetCurrentChannel(channel: nat)

  /** The recorder of a split list: the current channel's record is in `rec`, the others beside it, with the headers
      under which they were left. */
  datatype Layers = Layers(
    rec: Recorder, current: nat, logs: seq<seq<Tag>>, idxs: seq<seq<Slot<nat>>>, left: seq<Header>)
  {
    ghost predicate Valid() {
      && current < |logs| == |idxs| == |left|
      && logs[current] == rec.log
      && idxs[current] == rec.idx
    }

    predicate Allows(action: Action) {
      match action
      case Draw(op) => Allowed(rec, op)
      case SetCurrentChannel(n) => n < |logs|
    }

    /** Drawing adds to the current channel only; changing channel keeps clip, texture and vertices. */
    function Do(action: Action): (r: Layers)
      requires Valid() && Allows(action)
      ensures r.Valid() && |r.logs| == |logs|
    {
      match action
      case Draw(op) =>
        var s := Step(rec, op);
        Layers(s, current, logs[current := s.log], idxs[current := s.idx], left)
      case SetCurrentChannel(n) =>
        if n == current then this
        else Layers(DrawListSplitter.Onto(rec, logs[n], idxs[n]), n, logs, idxs, left[current := rec.header])
    }

    /** Channel n was left under another header, and comes back under that of its newest index. */
    predicate Returns(n: nat)
      requires n < |logs| == |left|
    {
      Newest(logs[n], Index(rec.header)) && left[n] != rec.header
    }

    ghost predicate Tidy(action: Action)
      requires Valid() && Allows(action)
    {
      match action
      case Draw(op) => !Untidy(rec, op)
      case SetCurrentChannel(n) => n == current || !Returns(n)
    }

    ghost predicate TidyAll(actions: seq<Action>)
      requires Valid() && AllowsAll(actions)
      decreases |actions|
    {
      |actions| == 0 || (Tidy(actions[0]) && Do(actions[0]).TidyAll(actions[1..]))
    }

    predicate AllowsAll(actions: seq<Action>)
      requires Valid()
      decreases |actions|
    {
      |actions| == 0 || (Allows(actions[0]) && Do(actions[0]).AllowsAll(actions[1..]))
    }

    function DoAll(actions: seq<Action>): (r: Layers)
      requires Valid() && AllowsAll(actions)
      ensures r.Valid() && |r.logs| == |logs|
      decreases |actions|
    {
      if |actions| == 0 then this else Do(actions[0]).DoAll(actions[1..])
    }

    /** In whatever channel, a reservation is made when the one before it is used up, and is not too large. */
    ghost predicate DisciplinedAll(actions: seq<Action>)
      requires Valid() && AllowsAll(actions)
      decreases |actions|
    {
      |actions| == 0 ||
      ((actions[0].Draw? && actions[0].op.PrimReserve? ==>
         rec.vtxWrite == |rec.vtx| && actions[0].op.vtxCount < INDEX_LIMIT)
       && Do(actions[0]).DisciplinedAll(actions[1..]))
    }
  }

  /** The channels share the vertices and the current window of indices: changing the channel at any point of a
      disciplined run leaves every vertex within reach of its 16-bit index. */
  lemma {:induction false} ChannelsIndexable(l: Layers, actions: seq<Action>)
    requires l.Valid() && l.AllowsAll(actions) && l.DisciplinedAll(actions)
    requires Indexable(l.rec) && l.rec.allowVtxOffset
    ensures
      var s := l.DoAll(actions).rec;
      && Indexable(s)
      && (s.vtxWrite < |s.vtx| ==> s.header.vtxOffset + s.vtxCurrent % 0x1_0000 == s.vtxWrite)
    decreases |actions|
  {
    hide Step, Allowed;
    if |actions| > 0 {
      if actions[0].Draw? {
        StepIndexable(l.rec, actions[0].op);
      }
      ChannelsIndexable(l.Do(actions[0]), actions[1..]);
    }
  }

  /** A list just split into n channels. */
  function SplitLayers(r: Recorder, n: nat): (l: Layers)
    requires n >= 1
    ensures l.Valid() && |l.logs| == n
  {
    Layers(r, 0, [r.log] + seq(n - 1, _ => []), [r.idx] + seq(n - 1, _ => []), seq(n, _ => r.header))
  }

  lemma ActionFirst(l: Layers, action: Action, actions: seq<Action>)
    requires l.Valid() && l.Allows(action) && l.Do(action).AllowsAll(actions)
    ensures l.AllowsAll([action] + actions)
    ensures l.TidyAll([action] + actions) <==> l.Tidy(action) && l.Do(action).TidyAll(actions)
  {
    assert ([action] + actions)[1..] == actions;
  }

  lemma OneAction(l: Layers, action: Action)
    requires l.Valid() && l.Allows(action)
    ensures l.AllowsAll([action]) && (l.TidyAll([action]) <==> l.Tidy(action))
  {
    assert [action] + [] == [action];
    ActionFirst(l, action, []);
  }

  /** Another channel is drawn on under the rectangle below the current one. */
  function Elsewhere(): seq<Action> {
    [Action.SetCurrentChannel(1)] + ([Draw(Op.PopClipRect)] + [Action.SetCurrentChannel(0)])
  }

  /** Channel 0 is left behind an unused command, and comes back under the header of its newest index. */
  lemma ReturnsBehind(l: Layers, a: ClipRect)
    requires l.Valid() && l.current == 0 && |l.logs| == 2 && l.rec.header.clip != a
    requires |l.rec.clips| > 1 && l.rec.clips[|l.rec.clips| - 2] == a
    requires Newest(l.logs[0], Index(l.rec.header.(clip := a)))
    ensures l.AllowsAll(Elsewhere()) && !l.TidyAll(Elsewhere())
  {
    hide Layers.AllowsAll, Layers.TidyAll;
    var there := l.Do(Action.SetCurrentChannel(1));
    var popped := there.Do(Draw(Op.PopClipRect));
    assert popped.rec.header == l.rec.header.(clip := a);
    OneAction(popped, Action.SetCurrentChannel(0));
    ActionFirst(there, Draw(Op.PopClipRect), [Action.SetCurrentChannel(0)]);
    ActionFirst(l, Action.SetCurrentChannel(1), [Draw(Op.PopClipRect)] + [Action.SetCurrentChannel(0)]);
  }

  /** Three indices under rectangle a, another rectangle pushed, and the other channel visited. */
  function ReturningRun(a: ClipRect, b: ClipRect): seq<Action> {
    [Draw(Op.PushClipRect(a, false))]
    + ([Draw(Op.PrimReserve(3, 3))] + ([Draw(Op.PushClipRect(b, false))] + Elsewhere()))
  }

  /** Such a run, on any list with room for three more vertices: allowed, and untidy. */
  lemma ReturnExample(r: Recorder, a: ClipRect, b: ClipRect)
    requires a.Ordered() && b.Ordered() && a != b && !r.StartsWindow(3)
    ensures
      var l := SplitLayers(r, 2);
      l.AllowsAll(ReturningRun(a, b)) && !l.TidyAll(ReturningRun(a, b))
  {
    hide Layers.AllowsAll, Layers.TidyAll, Elsewhere;
    var l := SplitLayers(r, 2);
    var push, next := Draw(Op.PushClipRect(a, false)), Draw(Op.PushClipRect(b, false));
    var reserve := Draw(Op.PrimReserve(3, 3));
    var pushed := l.Do(push);
    var reserved := pushed.Do(reserve);
    var left := reserved.Do(next);
    NewestCopy(r.log, r.header.(clip := a), 3);
    ReturnsBehind(left, a);
    ActionFirst(reserved, next, Elsewhere());
    ActionFirst(pushed, reserve, [next] + Elsewhere());
    ActionFirst(l, push, [reserve] + ([next] + Elsewhere()));
  }

  lemma NewestCopy(log: seq<Tag>, header: Header, n: nat)
    requires n > 0
    ensures Newest(log + Copies(header, n), Index(header))
  {
  }

  ghost predicate Follows(dl: DrawList, splitter: DrawListSplitter, l: Layers)
    reads dl, splitter
  {
    && dl.Valid() && splitter.Valid() && l.Valid()
    && dl.Recorded() == l.rec
    && splitter.Logs(dl) == l.logs
    && splitter.IndexBuffers(dl) == l.idxs
    && splitter.current == l.current
    && splitter.count == |l.logs|
    && LeftUnder(splitter.channels, splitter.count, splitter.current, l.left)
  }

  /** The channels put away end in a command under the header they were left with. */
  ghost predicate LeftUnder(channels: seq<Channel>, count: nat, current: nat, left: seq<Header>) {
    forall k | 0 <= k < count && k < |channels| && k < |left| && k != current ::
      |channels[k].cmds| > 0 ==> Last(channels[k].cmds).header == left[k]
  }

  /** Taking a channel out clashes exactly when it comes back under the header of its newest index. */
  lemma ClashIsReturn(dl: DrawList, splitter: DrawListSplitter, l: Layers, n: nat)
    requires Follows(dl, splitter, l) && splitter.AllCoalesced(dl) && n < splitter.count && n != splitter.current
    ensures Clashes(splitter.channels[n].cmds, dl.header) <==> l.Returns(n)
  {
    hide Tiles, Tags, Coalesced, Clashes, Newest;
    var ch := splitter.channels[n];
    assert Keeps(ch, splitter.logs[n]);
    KeptIsSound(ch, splitter.logs[n]);
    if |ch.cmds| > 0 {
      ClashesIs(ch.cmds, dl.header);
    } else {
      NothingClashes(dl.header);
    }
  }

  lemma NothingClashes(header: Header)
    ensures !Clashes([], header) && !Newest(Tags([]), Index(header))
  {
  }

  method Act(dl: DrawList, splitter: DrawListSplitter, action: Action, ghost l: Layers)
    requires Follows(dl, splitter, l) && l.Allows(action)
    modifies dl, splitter
    ensures Follows(dl, splitter, l.Do(action))
    ensures old(splitter.AllCoalesced(dl)) ==> (splitter.AllCoalesced(dl) <==> l.Tidy(action))
  {
    hide Tiles, Tags, Step, Allowed, DrawList.Sound, DrawList.Ready, Keeps, Untidy, Coalesced, Clashes, Layers.Returns;
    hide ShortChannels;
    match action {
      case Draw(op) =>
        ghost var head := dl.cmdBuffer;
        Perform(dl, op);
        ShortHeads(head, dl.cmdBuffer, splitter.channels, splitter.count, splitter.current);
      case SetCurrentChannel(n) => GoTo(dl, splitter, n, l);
    }
  }

  method GoTo(dl: DrawList, splitter: DrawListSplitter, n: nat, ghost l: Layers)
    requires Follows(dl, splitter, l) && n < |l.logs|
    modifies dl, splitter
    ensures Follows(dl, splitter, l.Do(Action.SetCurrentChannel(n)))
    ensures old(splitter.AllCoalesced(dl)) ==> (splitter.AllCoalesced(dl) <==> n == l.current || !l.Returns(n))
  {
    hide Tiles, Tags, DrawList.Sound, Keeps, Coalesced, Clashes, Layers.Returns, ShortChannels;
    hide DrawListSplitter.Logs, DrawListSplitter.IndexBuffers;
    if n != splitter.current && splitter.AllCoalesced(dl) {
      ClashIsReturn(dl, splitter, l, n);
    }
    assert Last(dl.cmdBuffer).header == dl.header;
    splitter.SetCurrentChannel(dl, n);
  }

  /** The actions one after another; tidy ones keep every channel coalesced. */
  method ActAll(dl: DrawList, splitter: DrawListSplitter, actions: seq<Action>, ghost start: Layers)
    requires Follows(dl, splitter, start) && start.AllowsAll(actions)
    modifies dl, splitter
    ensures Follows(dl, splitter, start.DoAll(actions))
    ensures old(splitter.AllCoalesced(dl)) && start.TidyAll(actions) ==> splitter.AllCoalesced(dl)
  {
    hide Follows, Layers.Do, Layers.Allows, Layers.Tidy, Layers.Valid, DrawListSplitter.AllCoalesced;
    FollowsValid(dl, splitter, start);
    ghost var l, end := start, start.DoAll(actions);
    ghost var tidy := splitter.AllCoalesced(dl) && l.TidyAll(actions);
    var i := 0;
    while i < |actions|
      invariant 0 <= i <= |actions|
      invariant Follows(dl, splitter, l) && l.Valid() && l.AllowsAll(actions[i..])
      invariant l.DoAll(actions[i..]) == end
      invariant tidy ==> splitter.AllCoalesced(dl) && l.TidyAll(actions[i..])
    {
      assert actions[i..][0] == actions[i] && actions[i..][1..] == actions[i + 1..];
      Act(dl, splitter, actions[i], l);
      l := l.Do(actions[i]);
      i := i + 1;
    }
  }

  lemma FollowsValid(dl: DrawList, splitter: DrawListSplitter, l: Layers)
    requires Follows(dl, splitter, l)
    ensures l.Valid()
  {
  }

  lemma ChannelsAgree(dl: DrawList, splitter: DrawListSplitter)
    requires dl.Valid() && splitter.Valid()
    ensures
      var logs, idxs := splitter.Logs(dl), splitter.IndexBuffers(dl);
      forall i | 0 <= i < |logs| :: Slots(logs[i]) == |idxs[i]|
  {
    hide Tiles, Tags;
    var logs, idxs := splitter.Logs(dl), splitter.IndexBuffers(dl);
    forall i | 0 <= i < |logs| ensures Slots(logs[i]) == |idxs[i]| {
      if splitter.count <= 1 || i == splitter.current {
        RenderIsFill(dl.cmdBuffer, dl.idxBuffer);
      } else {
        assert Keeps(splitter.channels[i], splitter.logs[i]);
        RenderIsFill(splitter.channels[i].cmds, splitter.channels[i].idx);
      }
    }
  }

  /** The merge of channels that follow `l` renders the drawings of `l`. */
  method MergeLayers(dl: DrawList, splitter: DrawListSplitter, ghost l: Layers)
    requires Follows(dl, splitter, l)
    modifies dl, splitter
    ensures dl.Valid() && splitter.Valid() && splitter.count <= 1
    ensures InBounds(dl.cmdBuffer, |dl.idxBuffer|)
    ensures |l.logs| == |l.idxs| && forall i | 0 <= i < |l.logs| :: Slots(l.logs[i]) == |l.idxs[i]|
    ensures Render(dl.cmdBuffer, dl.idxBuffer) == Concat(Drawings(l.logs, l.idxs)) && dl.callbacksData == l.rec.store
    ensures old(splitter.AllCoalesced(dl)) ==> Coalesced(dl.cmdBuffer)
  {
    hide Tiles, Tags, DrawList.Sound, DrawList.Ready, Keeps, Coalesced, ShortChannels, LeftUnder, Slots, Fill, Render;
    ChannelsAgree(dl, splitter);
    splitter.Merge(dl);
    DrawsWhatWasRecorded(dl);
    ConcatDraws(l.logs, l.idxs);
  }

  /**
   * Any interleaving of drawing and channel changes, then the merge: the list renders each
   * channel's own drawing, one channel after another. When every action is tidy, the merged commands
   * are coalesced.
   */
  method DrawInChannels(dl: DrawList, splitter: DrawListSplitter, n: nat, actions: seq<Action>)
    requires dl.Valid() && splitter.Valid() && splitter.count <= 1 && n >= 1
    requires SplitLayers(dl.Recorded(), n).AllowsAll(actions)
    modifies dl, splitter
    ensures dl.Valid() && splitter.Valid() && splitter.count <= 1
    ensures InBounds(dl.cmdBuffer, |dl.idxBuffer|)
    ensures
      var l := SplitLayers(old(dl.Recorded()), n).DoAll(actions);
      && (forall i | 0 <= i < |l.logs| :: Slots(l.logs[i]) == |l.idxs[i]|)
      && Render(dl.cmdBuffer, dl.idxBuffer) == Concat(Drawings(l.logs, l.idxs)) && dl.callbacksData == l.rec.store
    ensures old(Coalesced(dl.cmdBuffer)) && SplitLayers(old(dl.Recorded()), n).TidyAll(actions) ==>
      Coalesced(dl.cmdBuffer)
  {
    hide Tiles, Tags, DrawList.Sound, DrawList.Ready, Keeps, Layers.AllowsAll, Layers.TidyAll, Layers.DoAll, Render,
      Slots, Coalesced, ShortChannels;
    ghost var l := SplitLayers(dl.Recorded(), n);
    splitter.Split(dl, n);
    ActAll(dl, splitter, actions, l);
    MergeLayers(dl, splitter, l.DoAll(actions));
  }
}
