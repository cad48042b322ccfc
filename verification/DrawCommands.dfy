/**
 * Draw commands as values: what a command buffer means to the renderer, and how commands may be
 * cut, joined and renumbered without changing that meaning.
 *
 * The renderer walks the commands in order. A command with a callback is a call; any other command
 * draws `elemCount` indices of the index buffer, starting at `idxOffset`, under its header (clip
 * rectangle, texture and vertex offset). A command buffer is well formed when its commands tile the
 * index buffer from the start without gap or overlap.
 */
module DrawCommands {

  datatype ClipRect = ClipRect(x: real, y: real, z: real, w: real)
  {
    predicate Ordered() {
      x <= z && y <= w
    }

    /** The rectangle is half open, as a scissor is. */
    predicate Contains(px: real, py: real) {
      x <= px < z && y <= py < w
    }
  }

  /** The fields that the program compares and copies together. */
  datatype Header = Header(clip: ClipRect, texture: int, vtxOffset: nat)

  /** A routine with a pointer for it, or with `size` bytes from `offset` on of those that the list stores. */
  datatype Callback = NoCallback | Callback(routine: int, userData: int, size: nat, offset: int)

  datatype DrawCmd = DrawCmd(header: Header, idxOffset: nat, elemCount: nat, callback: Callback)

  /** What one reserved index slot, or one callback, was recorded under. */
  datatype Tag = Index(header: Header) | Call(header: Header, callback: Callback)

  /** What the renderer does. */
  datatype Drawn<T> = Element(header: Header, index: T) | Called(header: Header, callback: Callback)

  function Max(a: real, b: real): real {
    if a < b then b else a
  }

  // ---------------------------------------------------------------------------------------------
  // Tags of a command buffer
  // ---------------------------------------------------------------------------------------------

  function Copies(header: Header, n: nat): (r: seq<Tag>)
    ensures |r| == n
  {
    seq(n, _ => Index(header))
  }

  function TagsOf(cmd: DrawCmd): seq<Tag> {
    if cmd.callback != NoCallback then [Call(cmd.header, cmd.callback)]
    else Copies(cmd.header, cmd.elemCount)
  }

  function Tags(cmds: seq<DrawCmd>): seq<Tag> {
    if |cmds| == 0 then []
    else Tags(cmds[..|cmds| - 1]) + TagsOf(cmds[|cmds| - 1])
  }

  /** The commands tile the index buffer from `from` up to `to`; callbacks take no room. */
  predicate Tiles(cmds: seq<DrawCmd>, from: nat, to: nat) {
    if |cmds| == 0 then from == to
    else
      var last := cmds[|cmds| - 1];
      && last.idxOffset + last.elemCount == to
      && (last.callback != NoCallback ==> last.elemCount == 0)
      && Tiles(cmds[..|cmds| - 1], from, last.idxOffset)
  }

  lemma TagsPush(cmds: seq<DrawCmd>, cmd: DrawCmd)
    ensures Tags(cmds + [cmd]) == Tags(cmds) + TagsOf(cmd)
  {
    assert (cmds + [cmd])[..|cmds|] == cmds;
  }

  lemma TilesPush(cmds: seq<DrawCmd>, from: nat, to: nat, cmd: DrawCmd)
    requires Tiles(cmds, from, to)
    requires cmd.idxOffset == to && (cmd.callback != NoCallback ==> cmd.elemCount == 0)
    ensures Tiles(cmds + [cmd], from, to + cmd.elemCount)
  {
    assert (cmds + [cmd])[..|cmds|] == cmds;
  }

  lemma {:induction false} TagsConcat(a: seq<DrawCmd>, b: seq<DrawCmd>)
    ensures Tags(a + b) == Tags(a) + Tags(b)
  {
    hide TagsOf;
    if |b| == 0 {
      assert a + b == a;
    } else {
      var c := b[..|b| - 1];
      TagsConcat(a, c);
      assert (a + b)[..|a + b| - 1] == a + c;
      assert Tags(a + b) == (Tags(a) + Tags(c)) + TagsOf(b[|b| - 1]);
    }
  }

  lemma {:induction false} TilesConcat(a: seq<DrawCmd>, b: seq<DrawCmd>, from: nat, mid: nat, to: nat)
    requires Tiles(a, from, mid) && Tiles(b, mid, to)
    ensures Tiles(a + b, from, to)
  {
    if |b| == 0 {
      assert a + b == a;
    } else {
      var c := b[..|b| - 1];
      TilesConcat(a, c, from, mid, b[|b| - 1].idxOffset);
      assert (a + b)[..|a + b| - 1] == a + c;
    }
  }

  /** Two adjacent runs of one header are one run. */
  lemma CopiesJoin(header: Header, a: nat, b: nat)
    ensures Copies(header, a) + Copies(header, b) == Copies(header, a + b)
  {
  }

  // ---------------------------------------------------------------------------------------------
  // Editing the last command
  // ---------------------------------------------------------------------------------------------

  /** Everything in front of the last command. */
  function Front(cmds: seq<DrawCmd>): seq<DrawCmd>
    requires |cmds| > 0
  {
    cmds[..|cmds| - 1]
  }

  function Last(cmds: seq<DrawCmd>): DrawCmd
    requires |cmds| > 0
  {
    cmds[|cmds| - 1]
  }

  /** A command that draws nothing can take any header: nothing was recorded under the old one. */
  lemma Relabel(cmds: seq<DrawCmd>, from: nat, to: nat, header: Header)
    requires |cmds| > 0 && Tiles(cmds, from, to)
    requires Last(cmds).elemCount == 0 && Last(cmds).callback == NoCallback
    ensures
      var r := cmds[|cmds| - 1 := Last(cmds).(header := header)];
      Tags(r) == Tags(cmds) && Tiles(r, from, to)
  {
    var r := cmds[|cmds| - 1 := Last(cmds).(header := header)];
    assert Front(r) == Front(cmds);
    assert TagsOf(Last(r)) == [] == TagsOf(Last(cmds));
  }

  /** A command that draws nothing can go. */
  lemma DropUnused(cmds: seq<DrawCmd>, from: nat, to: nat)
    requires |cmds| > 0 && Tiles(cmds, from, to)
    requires Last(cmds).elemCount == 0 && Last(cmds).callback == NoCallback
    ensures Tags(Front(cmds)) == Tags(cmds) && Tiles(Front(cmds), from, to)
  {
    assert TagsOf(Last(cmds)) == [];
  }

  /** An empty command can become a callback: one call is recorded. */
  lemma BecomeCall(cmds: seq<DrawCmd>, from: nat, to: nat, callback: Callback)
    requires |cmds| > 0 && Tiles(cmds, from, to)
    requires Last(cmds).elemCount == 0 && Last(cmds).callback == NoCallback
    ensures
      var r := cmds[|cmds| - 1 := Last(cmds).(callback := callback)];
      && Tags(r) == Tags(cmds) + TagsOf(Last(r))
      && Tiles(r, from, to)
  {
    var r := cmds[|cmds| - 1 := Last(cmds).(callback := callback)];
    assert Front(r) == Front(cmds);
    assert TagsOf(Last(cmds)) == [];
    assert Tags(cmds) == Tags(Front(cmds)) + [];
  }

  /** Growing the last draw by n records n more indices under its header. */
  lemma Grow(cmds: seq<DrawCmd>, from: nat, to: nat, n: nat)
    requires |cmds| > 0 && Tiles(cmds, from, to) && Last(cmds).callback == NoCallback
    ensures
      var last := Last(cmds);
      var r := cmds[|cmds| - 1 := last.(elemCount := last.elemCount + n)];
      && Tags(r) == Tags(cmds) + Copies(last.header, n)
      && Tiles(r, from, to + n)
  {
    var last := Last(cmds);
    var r := cmds[|cmds| - 1 := last.(elemCount := last.elemCount + n)];
    assert Front(r) == Front(cmds);
    CopiesJoin(last.header, last.elemCount, n);
    assert Tags(Front(cmds)) + (Copies(last.header, last.elemCount) + Copies(last.header, n))
        == Tags(cmds) + Copies(last.header, n);
  }

  /** Shrinking the last draw takes its newest indices off the record. */
  lemma Shrink(cmds: seq<DrawCmd>, from: nat, to: nat, n: nat)
    requires |cmds| > 0 && Tiles(cmds, from, to) && Last(cmds).callback == NoCallback
    requires n <= Last(cmds).elemCount
    ensures n <= |Tags(cmds)| && n <= to
    ensures
      var last := Last(cmds);
      var r := cmds[|cmds| - 1 := last.(elemCount := last.elemCount - n)];
      && Tags(r) == Tags(cmds)[..|Tags(cmds)| - n]
      && Tiles(r, from, to - n)
  {
    var last := Last(cmds);
    var r := cmds[|cmds| - 1 := last.(elemCount := last.elemCount - n)];
    assert Front(r) == Front(cmds);
    Grow(r, from, to - n, n);
    assert r[|r| - 1 := Last(r).(elemCount := Last(r).elemCount + n)] == cmds;
  }

  /** The two last draws share a header: the older one can absorb the newer. */
  lemma Absorb(cmds: seq<DrawCmd>, from: nat, to: nat)
    requires |cmds| > 1 && Tiles(cmds, from, to)
    requires Last(cmds).callback == NoCallback && Last(Front(cmds)).callback == NoCallback
    requires Last(cmds).header == Last(Front(cmds)).header
    ensures
      var older := Last(Front(cmds));
      var r := Front(cmds)[|cmds| - 2 := older.(elemCount := older.elemCount + Last(cmds).elemCount)];
      Tags(r) == Tags(cmds) && Tiles(r, from, to)
  {
    Grow(Front(cmds), from, Last(cmds).idxOffset, Last(cmds).elemCount);
  }

  // ---------------------------------------------------------------------------------------------
  // Coalesced buffers
  // ---------------------------------------------------------------------------------------------

  predicate Joinable(a: DrawCmd, b: DrawCmd) {
    a.header == b.header && a.callback == NoCallback && b.callback == NoCallback
  }

  /** The command draws or calls. */
  predicate Used(cmd: DrawCmd) {
    cmd.elemCount != 0 || cmd.callback != NoCallback
  }

  /** No two neighbouring draws share a header, and none but the last is unused. */
  ghost predicate Coalesced(cmds: seq<DrawCmd>) {
    && (forall i | 0 < i < |cmds| :: !Joinable(cmds[i - 1], cmds[i]))
    && forall i | 0 <= i < |cmds| - 1 :: Used(cmds[i])
  }

  lemma CoalescedPush(cmds: seq<DrawCmd>, cmd: DrawCmd)
    requires Coalesced(cmds)
    requires |cmds| > 0 ==> !Joinable(Last(cmds), cmd) && Used(Last(cmds))
    ensures Coalesced(cmds + [cmd])
  {
  }

  lemma CoalescedFront(cmds: seq<DrawCmd>)
    requires |cmds| > 0 && Coalesced(cmds)
    ensures Coalesced(Front(cmds))
    ensures |cmds| > 1 ==> Used(Last(Front(cmds)))
  {
  }

  lemma CoalescedRest(cmds: seq<DrawCmd>)
    requires |cmds| > 0 && Coalesced(cmds)
    ensures Coalesced(cmds[1..])
    ensures |cmds| > 1 ==> !Joinable(cmds[0], cmds[1])
  {
    var rest := cmds[1..];
    forall i | 0 < i < |rest| ensures !Joinable(rest[i - 1], rest[i]) {
      assert !Joinable(cmds[i], cmds[i + 1]);
    }
  }

  lemma CoalescedConcat(a: seq<DrawCmd>, b: seq<DrawCmd>)
    requires Coalesced(a) && Coalesced(b)
    requires |a| > 0 && |b| > 0 ==> Used(Last(a)) && !Joinable(Last(a), b[0])
    ensures Coalesced(a + b)
  {
    var c := a + b;
    forall i | 0 < i < |c| ensures !Joinable(c[i - 1], c[i]) {
      if i > |a| {
        assert !Joinable(b[i - |a| - 1], b[i - |a|]);
      }
    }
  }

  /** Offsets do not matter to whether a buffer is coalesced. */
  lemma CoalescedMoved(a: seq<DrawCmd>, b: seq<DrawCmd>)
    requires Coalesced(a) && |a| == |b| && forall k | 0 <= k < |a| :: b[k] == a[k].(idxOffset := b[k].idxOffset)
    ensures Coalesced(b)
  {
    forall i | 0 < i < |b| ensures !Joinable(b[i - 1], b[i]) {
      assert !Joinable(a[i - 1], a[i]);
    }
  }

  /** The buffer without its unused commands at the end. */
  function Trimmed(cmds: seq<DrawCmd>): (r: seq<DrawCmd>)
    ensures |r| > 0 ==> Used(Last(r))
  {
    if |cmds| == 0 || Used(cmds[|cmds| - 1]) then cmds else Trimmed(cmds[..|cmds| - 1])
  }

  lemma {:induction false} TrimmedCoalesced(cmds: seq<DrawCmd>)
    requires Coalesced(cmds)
    ensures Coalesced(Trimmed(cmds))
  {
    if |cmds| > 0 && !Used(Last(cmds)) {
      CoalescedFront(cmds);
      TrimmedCoalesced(Front(cmds));
    }
  }

  lemma TrimmedPush(cmds: seq<DrawCmd>, cmd: DrawCmd)
    requires !Used(cmd)
    ensures Trimmed(cmds + [cmd]) == Trimmed(cmds)
  {
    assert (cmds + [cmd])[..|cmds|] == cmds;
  }

  lemma TrimmedRelabel(cmds: seq<DrawCmd>, header: Header)
    requires |cmds| > 0 && !Used(Last(cmds))
    ensures Trimmed(cmds[|cmds| - 1 := Last(cmds).(header := header)]) == Trimmed(cmds)
  {
    var r := cmds[|cmds| - 1 := Last(cmds).(header := header)];
    assert Front(r) == Front(cmds);
  }

  /** Replacing the last command is harmless when the new one does not join the one before it. */
  lemma CoalescedReplace(cmds: seq<DrawCmd>, cmd: DrawCmd)
    requires |cmds| > 0 && Coalesced(cmds)
    requires |cmds| > 1 ==> !Joinable(Last(Front(cmds)), cmd)
    ensures Coalesced(cmds[|cmds| - 1 := cmd])
  {
    var r := cmds[|cmds| - 1 := cmd];
    forall i | 0 < i < |r| ensures !Joinable(r[i - 1], r[i]) {
      assert r[i - 1] == cmds[i - 1];
      if i == |r| - 1 {
        assert cmds[i - 1] == Last(Front(cmds));
      } else {
        assert r[i] == cmds[i];
      }
    }
    assert forall i | 0 <= i < |r| - 1 :: r[i] == cmds[i];
  }

  lemma CoalescedLast(cmds: seq<DrawCmd>)
    requires |cmds| > 1 && Coalesced(cmds)
    ensures !Joinable(Last(Front(cmds)), Last(cmds))
  {
    var i := |cmds| - 1;
    assert !Joinable(cmds[i - 1], cmds[i]);
  }

  lemma ResizeStaysCoalesced(cmds: seq<DrawCmd>, n: nat)
    requires |cmds| > 0 && Coalesced(cmds)
    ensures Coalesced(cmds[|cmds| - 1 := Last(cmds).(elemCount := n)])
  {
    if |cmds| > 1 {
      CoalescedLast(cmds);
    }
    CoalescedReplace(cmds, Last(cmds).(elemCount := n));
  }

  /** An unused last command, put under `header`, would go on where the draw before it ends. */
  predicate Clashes(cmds: seq<DrawCmd>, header: Header) {
    |cmds| > 1 && !Used(Last(cmds)) && Joinable(Last(Front(cmds)), Last(cmds).(header := header))
  }

  /** A command under `header`, in place of an unused last command or behind a used one, would go on where its
      neighbour ends. */
  predicate Continues(cmds: seq<DrawCmd>, header: Header)
    requires |cmds| > 0
  {
    if Used(Last(cmds)) then Last(cmds).callback == NoCallback && Last(cmds).header == header
    else Clashes(cmds, header)
  }

  /** Relabelling an unused last command keeps the buffer coalesced exactly when it does not clash. */
  lemma RelabelCoalescedIff(cmds: seq<DrawCmd>, header: Header)
    requires |cmds| > 0 && Coalesced(cmds) && !Used(Last(cmds))
    ensures Coalesced(cmds[|cmds| - 1 := Last(cmds).(header := header)]) <==> !Clashes(cmds, header)
  {
    var r := cmds[|cmds| - 1 := Last(cmds).(header := header)];
    if Clashes(cmds, header) {
      assert Joinable(r[|r| - 2], r[|r| - 1]);
    } else {
      CoalescedReplace(cmds, Last(cmds).(header := header));
    }
  }

  /** A new command behind a used one keeps it so exactly when the headers differ. */
  lemma PushCoalescedIff(cmds: seq<DrawCmd>, cmd: DrawCmd)
    requires |cmds| > 0 && Coalesced(cmds)
    ensures Coalesced(cmds + [cmd]) <==> Used(Last(cmds)) && !Joinable(Last(cmds), cmd)
  {
    var r := cmds + [cmd];
    if Used(Last(cmds)) && !Joinable(Last(cmds), cmd) {
      CoalescedPush(cmds, cmd);
    } else {
      assert r[|r| - 2] == Last(cmds) && r[|r| - 1] == cmd;
    }
  }

  /** Either way of making room for a header, by a new command or by relabelling, keeps the buffer coalesced exactly
      when the header does not continue its neighbour. */
  lemma ContinuesEither(cmds: seq<DrawCmd>, cmd: DrawCmd)
    requires |cmds| > 0 && Coalesced(cmds) && Last(cmds).callback == NoCallback && cmd.callback == NoCallback
    ensures Last(cmds).elemCount != 0 ==> (Coalesced(cmds + [cmd]) <==> !Continues(cmds, cmd.header))
    ensures Last(cmds).elemCount == 0 ==>
      (Coalesced(cmds[|cmds| - 1 := Last(cmds).(header := cmd.header)]) <==> !Continues(cmds, cmd.header))
  {
    hide Coalesced;
    if Used(Last(cmds)) {
      PushCoalescedIff(cmds, cmd);
    } else {
      RelabelCoalescedIff(cmds, cmd.header);
    }
  }

  /** A draw behind a draw of the same header is one too many. */
  lemma NotCoalesced(cmds: seq<DrawCmd>, cmd: DrawCmd)
    requires |cmds| > 0 && Joinable(Last(cmds), cmd)
    ensures !Coalesced(cmds + [cmd])
  {
    var r := cmds + [cmd];
    assert Joinable(r[|r| - 2], r[|r| - 1]);
  }

  /** Three indices under one header, an unused command under another: coalesced, until the unused command is put
      back under the first. */
  lemma ClashExample(a: Header, b: Header)
    requires a != b
    ensures
      var cmds := [DrawCmd(a, 0, 3, NoCallback), DrawCmd(b, 3, 0, NoCallback)];
      && Coalesced(cmds) && Tiles(cmds, 0, 3) && Clashes(cmds, a)
      && !Coalesced(cmds[1 := Last(cmds).(header := a)])
  {
    var cmds := [DrawCmd(a, 0, 3, NoCallback), DrawCmd(b, 3, 0, NoCallback)];
    assert Front(cmds) == [cmds[0]] && Tiles([cmds[0]], 0, 3) by {
      assert Front([cmds[0]]) == [];
    }
    RelabelCoalescedIff(cmds, a);
  }

  /** The newest tag is that of the last command in use. */
  lemma LastTag(cmds: seq<DrawCmd>)
    requires |cmds| > 0 && Used(Last(cmds))
    ensures |Tags(cmds)| > 0
    ensures
      var last, cmd := Tags(cmds)[|Tags(cmds)| - 1], Last(cmds);
      last == if cmd.callback != NoCallback then Call(cmd.header, cmd.callback) else Index(cmd.header)
  {
    var cmd := Last(cmds);
    assert |TagsOf(cmd)| > 0;
    assert Tags(cmds) == Tags(Front(cmds)) + TagsOf(cmd);
  }

  /** What was recorded says whether a command would continue its neighbour: the newest index has that header. */
  lemma ContinuesIs(cmds: seq<DrawCmd>, header: Header)
    requires |cmds| > 0 && Coalesced(cmds) && Last(cmds).callback == NoCallback
    ensures Continues(cmds, header) <==> Newest(Tags(cmds), Index(header))
  {
    hide Tags;
    if Used(Last(cmds)) {
      LastTag(cmds);
    } else {
      UnusedTags(cmds);
      CoalescedFront(cmds);
      if |cmds| > 1 {
        LastTag(Front(cmds));
      }
    }
  }

  lemma UnusedTags(cmds: seq<DrawCmd>)
    requires |cmds| > 0 && !Used(Last(cmds))
    ensures Tags(cmds) == Tags(Front(cmds)) && (|cmds| == 1 ==> Tags(cmds) == [])
  {
    assert TagsOf(Last(cmds)) == [];
  }

  predicate Newest(tags: seq<Tag>, tag: Tag) {
    |tags| > 0 && tags[|tags| - 1] == tag
  }

  /** So it does for a clash: the newest index has the header, and the last command another. */
  lemma ClashesIs(cmds: seq<DrawCmd>, header: Header)
    requires |cmds| > 0 && Coalesced(cmds) && Last(cmds).callback == NoCallback
    ensures Clashes(cmds, header) <==> Newest(Tags(cmds), Index(header)) && Last(cmds).header != header
  {
    hide Tags;
    ContinuesIs(cmds, header);
    if Used(Last(cmds)) {
      LastTag(cmds);
    } else if |cmds| > 1 {
      CoalescedLast(cmds);
    }
  }

  // ---------------------------------------------------------------------------------------------
  // Coalesced buffers are the shortest
  // ---------------------------------------------------------------------------------------------

  /** A tag goes on where the one before it left off: the same header, and no call. */
  predicate Goes(tags: seq<Tag>, tag: Tag) {
    Newest(tags, tag) && tag.Index?
  }

  /** How many commands a record needs: one for each call, and one for each stretch of one header. */
  function Stretches(tags: seq<Tag>): nat {
    if |tags| == 0 then 0
    else
      var front, last := tags[..|tags| - 1], tags[|tags| - 1];
      Stretches(front) + if Goes(front, last) then 0 else 1
  }

  lemma {:induction false} StretchesCopies(tags: seq<Tag>, header: Header, n: nat)
    ensures
      Stretches(tags + Copies(header, n))
      == Stretches(tags) + if n == 0 || Goes(tags, Index(header)) then 0 else 1
  {
    var all := tags + Copies(header, n);
    if n == 0 {
      assert all == tags;
    } else {
      StretchesCopies(tags, header, n - 1);
      assert all[..|all| - 1] == tags + Copies(header, n - 1);
    }
  }

  lemma StretchesCall(tags: seq<Tag>, header: Header, callback: Callback)
    ensures Stretches(tags + [Call(header, callback)]) == Stretches(tags) + 1
  {
    assert (tags + [Call(header, callback)])[..|tags|] == tags;
  }

  /** No buffer with a record has fewer commands than the record has stretches. */
  lemma {:induction false} StretchesAtMost(cmds: seq<DrawCmd>)
    ensures Stretches(Tags(cmds)) <= |cmds|
  {
    hide Stretches;
    if |cmds| == 0 {
      NoStretches();
    } else {
      StretchesAtMost(Front(cmds));
      var last := Last(cmds);
      if last.callback != NoCallback {
        StretchesCall(Tags(Front(cmds)), last.header, last.callback);
      } else {
        StretchesCopies(Tags(Front(cmds)), last.header, last.elemCount);
      }
    }
  }

  lemma NoStretches()
    ensures Stretches([]) == 0
  {
  }

  /** A coalesced buffer without an unused end has exactly as many. */
  lemma {:induction false} StretchesExactly(cmds: seq<DrawCmd>)
    requires Coalesced(cmds) && (|cmds| > 0 ==> Used(Last(cmds)))
    ensures Stretches(Tags(cmds)) == |cmds|
  {
    hide Stretches, Coalesced;
    if |cmds| == 0 {
      NoStretches();
    } else {
      CoalescedFront(cmds);
      StretchesExactly(Front(cmds));
      var last := Last(cmds);
      if last.callback != NoCallback {
        StretchesCall(Tags(Front(cmds)), last.header, last.callback);
      } else {
        StretchesCopies(Tags(Front(cmds)), last.header, last.elemCount);
        if |cmds| > 1 {
          CoalescedLast(cmds);
          LastTag(Front(cmds));
        }
      }
    }
  }

  /** Without its unused end, a coalesced buffer is as short as any that records the same. */
  lemma CoalescedIsShortest(cmds: seq<DrawCmd>, other: seq<DrawCmd>)
    requires Coalesced(cmds) && Tags(other) == Tags(cmds)
    ensures |Trimmed(cmds)| <= |other|
  {
    hide Tags, Coalesced;
    TrimmedCoalesced(cmds);
    TrimmedTags(cmds);
    StretchesExactly(Trimmed(cmds));
    StretchesAtMost(other);
  }

  lemma {:induction false} TrimmedTags(cmds: seq<DrawCmd>)
    ensures Tags(Trimmed(cmds)) == Tags(cmds)
  {
    if |cmds| > 0 && !Used(Last(cmds)) {
      UnusedTags(cmds);
      TrimmedTags(Front(cmds));
    }
  }

  // ---------------------------------------------------------------------------------------------
  // Dropping one unused command, and dropping all
  // ---------------------------------------------------------------------------------------------

  /** The buffer without its last command, if that one is unused. */
  function DropOne(cmds: seq<DrawCmd>): seq<DrawCmd> {
    if |cmds| > 0 && !Used(cmds[|cmds| - 1]) then cmds[..|cmds| - 1] else cmds
  }

  /** One is as good as all exactly when there are no two unused commands at the end. */
  lemma DropOneIsTrimmedIff(cmds: seq<DrawCmd>)
    ensures DropOne(cmds) == Trimmed(cmds) <==> |cmds| < 2 || Used(Last(cmds)) || Used(Last(Front(cmds)))
  {
    if |cmds| >= 2 && !Used(Last(cmds)) && !Used(Last(Front(cmds))) {
      TrimmedLength(Front(Front(cmds)));
    }
  }

  lemma {:induction false} TrimmedLength(cmds: seq<DrawCmd>)
    ensures |Trimmed(cmds)| <= |cmds|
  {
    if |cmds| > 0 && !Used(Last(cmds)) {
      TrimmedLength(Front(cmds));
    }
  }

  /** A fresh list on which a command is added explicitly ends in two unused commands. */
  lemma DropOneExample(header: Header)
    ensures
      var cmds := [DrawCmd(header, 0, 0, NoCallback), DrawCmd(header, 0, 0, NoCallback)];
      Tiles(cmds, 0, 0) && |DropOne(cmds)| == 1 && Trimmed(cmds) == []
  {
    var cmds := [DrawCmd(header, 0, 0, NoCallback), DrawCmd(header, 0, 0, NoCallback)];
    assert Front(cmds) == [cmds[0]] && Front([cmds[0]]) == [];
    assert Tiles([cmds[0]], 0, 0);
    assert Trimmed([cmds[0]]) == [];
  }

  /** How many indices the last command draws does not matter to whether the buffer is coalesced. */
  lemma ResizeCoalescedIff(cmds: seq<DrawCmd>, n: nat)
    requires |cmds| > 0
    ensures Coalesced(cmds[|cmds| - 1 := Last(cmds).(elemCount := n)]) <==> Coalesced(cmds)
  {
    var r := cmds[|cmds| - 1 := Last(cmds).(elemCount := n)];
    if Coalesced(cmds) {
      ResizeStaysCoalesced(cmds, n);
    }
    if Coalesced(r) {
      ResizeStaysCoalesced(r, Last(cmds).elemCount);
      assert r[|r| - 1 := Last(r).(elemCount := Last(cmds).elemCount)] == cmds;
    }
  }

  /** A relabelled last command joins nothing when the one before it does not fit. */
  lemma RelabelStaysCoalesced(cmds: seq<DrawCmd>, from: nat, to: nat, header: Header)
    requires |cmds| > 0 && Coalesced(cmds) && Tiles(cmds, from, to)
    requires Last(cmds).header == header || (Last(cmds).elemCount == 0 &&
      (|cmds| > 1 ==>
         || header != Last(Front(cmds)).header
         || Last(Front(cmds)).callback != NoCallback
         || Last(Front(cmds)).idxOffset + Last(Front(cmds)).elemCount != Last(cmds).idxOffset))
    ensures Coalesced(cmds[|cmds| - 1 := Last(cmds).(header := header)])
  {
    if |cmds| > 1 {
      CoalescedLast(cmds);
    }
    CoalescedReplace(cmds, Last(cmds).(header := header));
  }

  /** Two neighbours at the end of a tiling meet. */
  lemma LastTwoMeet(cmds: seq<DrawCmd>, from: nat, to: nat)
    requires Tiles(cmds, from, to) && |cmds| > 1
    ensures Last(Front(cmds)).idxOffset + Last(Front(cmds)).elemCount == Last(cmds).idxOffset
  {
  }

  /** A callback separates its neighbours, whether it took the last command over or a new one; a draw may follow. */
  lemma CallStaysCoalesced(start: seq<DrawCmd>, cmds: seq<DrawCmd>, callback: Callback, next: DrawCmd)
    requires Coalesced(start) && callback != NoCallback
    requires |cmds| > 0 && (cmds == start || (cmds == start + [Last(cmds)] && (|start| > 0 ==> Used(Last(start)))))
    ensures Coalesced(cmds[|cmds| - 1 := Last(cmds).(callback := callback)] + [next])
  {
    var call := Last(cmds).(callback := callback);
    if cmds == start {
      CoalescedReplace(start, call);
    } else {
      CoalescedPush(start, call);
      assert cmds[|cmds| - 1 := call] == start + [call];
    }
    CoalescedPush(cmds[|cmds| - 1 := call], next);
  }

  // ---------------------------------------------------------------------------------------------
  // What the renderer draws
  // ---------------------------------------------------------------------------------------------

  predicate InBounds(cmds: seq<DrawCmd>, n: nat) {
    forall i | 0 <= i < |cmds| :: cmds[i].idxOffset + cmds[i].elemCount <= n
  }

  function RenderOf<T>(cmd: DrawCmd, idx: seq<T>): seq<Drawn<T>>
    requires cmd.idxOffset + cmd.elemCount <= |idx|
  {
    if cmd.callback != NoCallback then [Called(cmd.header, cmd.callback)]
    else seq(cmd.elemCount, k requires 0 <= k < cmd.elemCount => Element(cmd.header, idx[cmd.idxOffset + k]))
  }

  /** The renderer's loop over the commands, reading each command's own stretch of the buffer. */
  function Render<T>(cmds: seq<DrawCmd>, idx: seq<T>): seq<Drawn<T>>
    requires InBounds(cmds, |idx|)
  {
    if |cmds| == 0 then []
    else Render(cmds[..|cmds| - 1], idx) + RenderOf(cmds[|cmds| - 1], idx)
  }

  /** How many of the tags stand for an index slot. */
  function Slots(tags: seq<Tag>): nat {
    if |tags| == 0 then 0
    else Slots(tags[..|tags| - 1]) + (if tags[|tags| - 1].Index? then 1 else 0)
  }

  /** Reading a tag list against an index buffer, one index for each index tag, in order. */
  function Fill<T>(tags: seq<Tag>, idx: seq<T>): seq<Drawn<T>>
    requires Slots(tags) == |idx|
  {
    if |tags| == 0 then []
    else
      var tag := tags[|tags| - 1];
      if tag.Index? then
        Fill(tags[..|tags| - 1], idx[..|idx| - 1]) + [Element(tag.header, idx[|idx| - 1])]
      else
        Fill(tags[..|tags| - 1], idx) + [Called(tag.header, tag.callback)]
  }

  lemma {:induction false} SlotsConcat(a: seq<Tag>, b: seq<Tag>)
    ensures Slots(a + b) == Slots(a) + Slots(b)
  {
    if |b| == 0 {
      assert a + b == a;
    } else {
      SlotsConcat(a, b[..|b| - 1]);
      assert (a + b)[..|a + b| - 1] == a + b[..|b| - 1];
    }
  }

  /** The newest index tag takes the newest index. */
  lemma FillIndex<T>(tags: seq<Tag>, header: Header, idx: seq<T>, index: T)
    requires Slots(tags) == |idx|
    ensures Slots(tags + [Index(header)]) == |idx + [index]|
    ensures Fill(tags + [Index(header)], idx + [index]) == Fill(tags, idx) + [Element(header, index)]
  {
    assert (tags + [Index(header)])[..|tags|] == tags && (idx + [index])[..|idx|] == idx;
  }

  lemma FillCall<T>(tags: seq<Tag>, header: Header, callback: Callback, idx: seq<T>)
    requires Slots(tags) == |idx|
    ensures Slots(tags + [Call(header, callback)]) == |idx|
    ensures Fill(tags + [Call(header, callback)], idx) == Fill(tags, idx) + [Called(header, callback)]
  {
    assert (tags + [Call(header, callback)])[..|tags|] == tags;
  }

  /** Each tag is drawn in its place: a slot with its header and its own index, a call with its callback. */
  lemma {:induction false} FillAt<T>(tags: seq<Tag>, idx: seq<T>, i: nat)
    requires Slots(tags) == |idx| && i < |tags|
    ensures |Fill(tags, idx)| == |tags|
    ensures tags[i].Call? ==> Fill(tags, idx)[i] == Called(tags[i].header, tags[i].callback)
    ensures tags[i].Index? ==>
      Slots(tags[..i]) < |idx| && Fill(tags, idx)[i] == Element(tags[i].header, idx[Slots(tags[..i])])
  {
    FillLength(tags, idx);
    var front := tags[..|tags| - 1];
    if i < |front| {
      FillAt(front, if tags[|tags| - 1].Index? then idx[..|idx| - 1] else idx, i);
      assert front[..i] == tags[..i];
    }
  }

  lemma {:induction false} FillLength<T>(tags: seq<Tag>, idx: seq<T>)
    requires Slots(tags) == |idx|
    ensures |Fill(tags, idx)| == |tags|
  {
    if |tags| > 0 {
      FillLength(tags[..|tags| - 1], if tags[|tags| - 1].Index? then idx[..|idx| - 1] else idx);
    }
  }

  lemma SlotsLast(tags: seq<Tag>)
    requires |tags| > 0
    ensures Slots(tags) == Slots(tags[..|tags| - 1]) + if tags[|tags| - 1].Index? then 1 else 0
  {
  }

  lemma FillNothing<T>()
    ensures Slots([]) == 0 && Fill<T>([], []) == []
  {
  }

  lemma {:induction false} FillConcat<T>(a: seq<Tag>, b: seq<Tag>, i: seq<T>, j: seq<T>)
    requires Slots(a) == |i| && Slots(b) == |j|
    ensures Slots(a + b) == |i + j|
    ensures Fill(a + b, i + j) == Fill(a, i) + Fill(b, j)
  {
    hide Slots, Fill;
    SlotsConcat(a, b);
    if |b| == 0 {
      FillNothing<T>();
      assert a + b == a && b == [] && j == [] && i + j == i;
    } else {
      var c, last := b[..|b| - 1], b[|b| - 1];
      SlotsLast(b);
      SlotsConcat(a, c);
      assert b == c + [last] && a + b == (a + c) + [last];
      if last.Index? {
        var k, index := j[..|j| - 1], j[|j| - 1];
        assert j == k + [index] && i + j == (i + k) + [index];
        FillConcat(a, c, i, k);
        FillIndex(c, last.header, k, index);
        FillIndex(a + c, last.header, i + k, index);
      } else {
        FillConcat(a, c, i, j);
        FillCall(c, last.header, last.callback, j);
        FillCall(a + c, last.header, last.callback, i + j);
      }
    }
  }

  lemma {:induction false} CopiesSlots(header: Header, n: nat)
    ensures Slots(Copies(header, n)) == n
  {
    if n > 0 {
      CopiesSlots(header, n - 1);
      assert Copies(header, n)[..n - 1] == Copies(header, n - 1);
    }
  }

  lemma {:induction false} FillCopies<T>(header: Header, idx: seq<T>)
    ensures Slots(Copies(header, |idx|)) == |idx|
    ensures Fill(Copies(header, |idx|), idx)
         == seq(|idx|, k requires 0 <= k < |idx| => Element(header, idx[k]))
  {
    var n := |idx|;
    CopiesSlots(header, n);
    if n > 0 {
      FillCopies(header, idx[..n - 1]);
      assert Copies(header, n)[..n - 1] == Copies(header, n - 1);
    }
  }

  lemma {:induction false} TilesInBounds(cmds: seq<DrawCmd>, from: nat, to: nat)
    requires Tiles(cmds, from, to)
    ensures InBounds(cmds, to)
  {
    if |cmds| > 0 {
      var front := Front(cmds);
      TilesInBounds(front, from, Last(cmds).idxOffset);
      forall i | 0 <= i < |cmds| ensures cmds[i].idxOffset + cmds[i].elemCount <= to {
        if i < |front| {
          assert cmds[i] == front[i];
        }
      }
    }
  }

  /** The renderer cannot see past the commands it reads. */
  lemma {:induction false} RenderPrefix<T>(cmds: seq<DrawCmd>, idx: seq<T>, n: nat)
    requires n <= |idx| && InBounds(cmds, n)
    ensures InBounds(cmds, |idx|) && Render(cmds, idx) == Render(cmds, idx[..n])
  {
    if |cmds| > 0 {
      RenderPrefix(cmds[..|cmds| - 1], idx, n);
      var last := cmds[|cmds| - 1];
      assert RenderOf(last, idx) == RenderOf(last, idx[..n]);
    }
  }

  /** The last command reads exactly the rest of the buffer, and draws its own tags. */
  lemma RenderOfIsFill<T>(cmd: DrawCmd, idx: seq<T>)
    requires cmd.idxOffset + cmd.elemCount == |idx|
    requires cmd.callback != NoCallback ==> cmd.elemCount == 0
    ensures Slots(TagsOf(cmd)) == |idx| - cmd.idxOffset
    ensures RenderOf(cmd, idx) == Fill(TagsOf(cmd), idx[cmd.idxOffset..])
  {
    var tail := idx[cmd.idxOffset..];
    if cmd.callback == NoCallback {
      FillCopies(cmd.header, tail);
    } else {
      assert tail == [] && TagsOf(cmd)[..0] == [];
    }
  }

  /**
   * A tiling buffer renders exactly its tag list filled with the index buffer: neither the number
   * of commands nor their offsets can be seen from outside.
   */
  lemma {:induction false} RenderIsFill<T>(cmds: seq<DrawCmd>, idx: seq<T>)
    requires Tiles(cmds, 0, |idx|)
    ensures InBounds(cmds, |idx|)
    ensures Slots(Tags(cmds)) == |idx|
    ensures Render(cmds, idx) == Fill(Tags(cmds), idx)
  {
    hide InBounds, RenderOf, TagsOf, Copies;
    TilesInBounds(cmds, 0, |idx|);
    if |cmds| > 0 {
      var last, front := Last(cmds), Front(cmds);
      var head, tail := idx[..last.idxOffset], idx[last.idxOffset..];
      RenderIsFill(front, head);
      RenderPrefix(front, idx, last.idxOffset);
      RenderOfIsFill(last, idx);
      assert head + tail == idx;
      FillConcat(Tags(front), TagsOf(last), head, tail);
    }
  }

  /** Two tiling buffers that record the same tags draw the same. */
  lemma SameTagsSameDrawing<T>(a: seq<DrawCmd>, b: seq<DrawCmd>, idx: seq<T>)
    requires Tiles(a, 0, |idx|) && Tiles(b, 0, |idx|)
    requires Tags(a) == Tags(b)
    ensures InBounds(a, |idx|) && InBounds(b, |idx|)
    ensures Render(a, idx) == Render(b, idx)
  {
    RenderIsFill(a, idx);
    RenderIsFill(b, idx);
  }

  // ---------------------------------------------------------------------------------------------
  // Clip rectangles
  // ---------------------------------------------------------------------------------------------

  /** The rectangle that a push makes current. */
  function Clipped(rect: ClipRect, current: ClipRect, intersect: bool): (r: ClipRect)
    ensures r.Ordered()
  {
    var c :=
      if intersect then
        ClipRect(if rect.x < current.x then current.x else rect.x,
                 if rect.y < current.y then current.y else rect.y,
                 if rect.z > current.z then current.z else rect.z,
                 if rect.w > current.w then current.w else rect.w)
      else rect;
    c.(z := Max(c.x, c.z), w := Max(c.y, c.w))
  }

  /** A pushed rectangle shows exactly what both the request and the current rectangle show. */
  lemma ClippedIsIntersection(rect: ClipRect, current: ClipRect, intersect: bool, px: real, py: real)
    ensures Clipped(rect, current, intersect).Contains(px, py)
       <==> rect.Contains(px, py) && (intersect ==> current.Contains(px, py))
  {
  }

  /** Its near corner is the one further out, and where nothing is left to show it is empty at that corner. */
  lemma ClippedCorners(rect: ClipRect, current: ClipRect)
    ensures
      var r := Clipped(rect, current, true);
      && r.x >= rect.x && r.x >= current.x && (r.x == rect.x || r.x == current.x)
      && r.y >= rect.y && r.y >= current.y && (r.y == rect.y || r.y == current.y)
      && (r.z > r.x ==> r.z <= rect.z && r.z <= current.z && (r.z == rect.z || r.z == current.z))
      && (r.w > r.y ==> r.w <= rect.w && r.w <= current.w && (r.w == rect.w || r.w == current.w))
      && (r.z == r.x <==> rect.z <= r.x || current.z <= r.x) && (r.w == r.y <==> rect.w <= r.y || current.w <= r.y)
    ensures
      var r := Clipped(rect, current, false);
      && r.x == rect.x && r.y == rect.y
      && (rect.x <= rect.z && rect.y <= rect.w ==> r == rect)
  {
  }
}
