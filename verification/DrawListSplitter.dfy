/**
 * Channels of a draw list. After a split, the list's command and index buffers are those of the
 * current channel, and every other channel keeps its own. Merging puts the channels after one
 * another, joins commands across the seams and renumbers them, and must leave what is drawn alone.
 */
module DrawListSplitters {
  import opened Buffers
  import opened DrawCommands
  import opened DrawRecorder
  import opened DrawLists

  datatype Channel = Channel(cmds: seq<DrawCmd>, idx: seq<Slot<nat>>)

  function Concat<T>(parts: seq<seq<T>>): seq<T> {
    if |parts| == 0 then []
    else Concat(parts[..|parts| - 1]) + parts[|parts| - 1]
  }

  /** How many elements stand before part k. */
  function Before<T>(parts: seq<seq<T>>, k: nat): nat
    requires k <= |parts|
  {
    if k == 0 then 0 else Before(parts, k - 1) + |parts[k - 1]|
  }

  lemma {:induction false} BeforeFront<T>(parts: seq<seq<T>>, k: nat)
    requires k < |parts|
    ensures Before(parts[..|parts| - 1], k) == Before(parts, k)
  {
    if k > 0 {
      BeforeFront(parts, k - 1);
    }
  }

  /** The parts stand one behind the other, each in its own order, and nothing else does. */
  lemma {:induction false} ConcatAt<T>(parts: seq<seq<T>>, k: nat, i: nat)
    requires k < |parts| && i < |parts[k]|
    ensures |Concat(parts)| == Before(parts, |parts|) && Before(parts, k) + i < |Concat(parts)|
    ensures Concat(parts)[Before(parts, k) + i] == parts[k][i]
  {
    var front := parts[..|parts| - 1];
    ConcatLength(parts);
    ConcatLength(front);
    BeforeFront(parts, k);
    if k < |front| {
      ConcatAt(front, k, i);
    }
  }

  lemma {:induction false} ConcatLength<T>(parts: seq<seq<T>>)
    ensures |Concat(parts)| == Before(parts, |parts|)
  {
    if |parts| > 0 {
      ConcatLength(parts[..|parts| - 1]);
      BeforeFront(parts, |parts| - 1);
    }
  }

  /** A channel that is not current: tiling commands for its log, and none of them a trailing call. */
  ghost predicate Keeps(ch: Channel, log: seq<Tag>) {
    && Tiles(ch.cmds, 0, |ch.idx|)
    && Tags(ch.cmds) == log
    && (|ch.cmds| > 0 ==> Last(ch.cmds).callback == NoCallback)
  }

  // ---------------------------------------------------------------------------------------------
  // Joining the channels' commands
  // ---------------------------------------------------------------------------------------------

  /** The commands of channel 0, followed by those of channels 1 up to n. */
  function Joined(head: seq<DrawCmd>, channels: seq<Channel>, n: nat): seq<DrawCmd>
    requires n <= |channels|
  {
    if n <= 1 then head else Joined(head, channels, n - 1) + channels[n - 1].cmds
  }

  function IdxOf(channels: seq<Channel>, n: nat): seq<seq<Slot<nat>>>
    requires n <= |channels|
  {
    seq(n, i requires 0 <= i < n => channels[i].idx)
  }

  /** The channel that holds the last command of the joined channels, or -1 when there is none. */
  predicate LastIsAt(head: seq<DrawCmd>, channels: seq<Channel>, n: nat, at: int)
    requires 1 <= n <= |channels|
  {
    && -1 <= at < n
    && (at == -1 ==> head == [])
    && (at == 0 ==> head != [])
    && (at > 0 ==> channels[at].cmds != [])
    && forall k | 1 <= k < n && at < k :: channels[k].cmds == []
  }

  /** The commands of the channel at which the last command sits. */
  function CmdsAt(head: seq<DrawCmd>, channels: seq<Channel>, at: nat): seq<DrawCmd>
    requires at < |channels|
  {
    if at == 0 then head else channels[at].cmds
  }

  lemma JoinedStep(head: seq<DrawCmd>, channels: seq<Channel>, n: nat)
    requires n <= |channels|
    ensures n <= 1 ==> Joined(head, channels, n) == head
    ensures n > 1 ==> Joined(head, channels, n) == Joined(head, channels, n - 1) + channels[n - 1].cmds
  {
  }

  lemma LastOfConcat(a: seq<DrawCmd>, b: seq<DrawCmd>)
    ensures b != [] ==> a + b != [] && Last(a + b) == Last(b)
    ensures b == [] ==> a + b == a
  {
  }

  /** The joined commands end where the remembered channel does. */
  lemma {:induction false} JoinedLast(head: seq<DrawCmd>, channels: seq<Channel>, n: nat, at: int)
    requires 1 <= n <= |channels| && LastIsAt(head, channels, n, at)
    ensures at == -1 ==> Joined(head, channels, n) == []
    ensures at >= 0 ==> CmdsAt(head, channels, at) != [] && Joined(head, channels, n) != []
    ensures at >= 0 ==> Last(Joined(head, channels, n)) == Last(CmdsAt(head, channels, at))
  {
    hide Joined;
    JoinedStep(head, channels, n);
    if n > 1 {
      LastOfConcat(Joined(head, channels, n - 1), channels[n - 1].cmds);
      if at < n - 1 {
        JoinedLast(head, channels, n - 1, at);
      }
    }
  }

  function PutHead(head: seq<DrawCmd>, at: nat, cmds: seq<DrawCmd>): seq<DrawCmd> {
    if at == 0 then cmds else head
  }

  function PutChannels(channels: seq<Channel>, at: nat, cmds: seq<DrawCmd>): seq<Channel>
    requires at < |channels|
  {
    if at == 0 then channels else channels[at := channels[at].(cmds := cmds)]
  }

  /** Joining looks at the first n channels only. */
  lemma {:induction false} JoinedSame(head: seq<DrawCmd>, a: seq<Channel>, b: seq<Channel>, n: nat)
    requires n <= |a| && n <= |b|
    requires forall k | 1 <= k < n :: a[k].cmds == b[k].cmds
    ensures Joined(head, a, n) == Joined(head, b, n)
  {
    if n > 1 {
      JoinedSame(head, a, b, n - 1);
    }
  }

  lemma ReplacedIsLast(head: seq<DrawCmd>, channels: seq<Channel>, n: nat, at: nat, cmds: seq<DrawCmd>)
    requires 1 <= n <= |channels| && LastIsAt(head, channels, n, at) && cmds != []
    ensures LastIsAt(PutHead(head, at, cmds), PutChannels(channels, at, cmds), n, at)
  {
  }

  lemma ReplaceLastOfConcat<T>(a: seq<T>, b: seq<T>, v: T)
    requires |b| > 0
    ensures (a + b)[|a + b| - 1 := v] == a + b[|b| - 1 := v]
  {
  }

  /** Replacing the last command where it sits replaces it in the joined commands. */
  lemma {:induction false} JoinedReplaceLast(head: seq<DrawCmd>, channels: seq<Channel>, n: nat, at: nat, cmd: DrawCmd)
    requires 1 <= n <= |channels| && LastIsAt(head, channels, n, at)
    requires CmdsAt(head, channels, at) != []
    ensures
      var cmds := CmdsAt(head, channels, at);
      var cmds' := cmds[|cmds| - 1 := cmd];
      var all := Joined(head, channels, n);
      && |all| > 0
      && Joined(PutHead(head, at, cmds'), PutChannels(channels, at, cmds'), n) == all[|all| - 1 := cmd]
  {
    hide Joined;
    var cmds := CmdsAt(head, channels, at);
    var cmds' := cmds[|cmds| - 1 := cmd];
    var channels' := PutChannels(channels, at, cmds');
    JoinedStep(head, channels, n);
    JoinedStep(PutHead(head, at, cmds'), channels', n);
    if n > 1 {
      var front := Joined(head, channels, n - 1);
      if at == n - 1 {
        hide LastIsAt;
        JoinedSame(head, channels, channels', n - 1);
        ReplaceLastOfConcat(front, cmds, cmd);
      } else {
        JoinedReplaceLast(head, channels, n - 1, at, cmd);
        LastOfConcat(front, []);
      }
    }
  }

  lemma TagsFromFirst(cmds: seq<DrawCmd>)
    requires |cmds| > 0
    ensures Tags(cmds) == TagsOf(cmds[0]) + Tags(cmds[1..])
  {
    var first := cmds[..1];
    assert first + cmds[1..] == cmds;
    TagsConcat(first, cmds[1..]);
    assert first[..0] == [];
    assert Tags(first) == TagsOf(cmds[0]);
  }

  lemma {:induction false} TilesFromFirst(cmds: seq<DrawCmd>, from: nat, to: nat)
    requires |cmds| > 0 && Tiles(cmds, from, to)
    ensures cmds[0].idxOffset == from && (cmds[0].callback != NoCallback ==> cmds[0].elemCount == 0)
    ensures Tiles(cmds[1..], from + cmds[0].elemCount, to)
  {
    var rest := cmds[1..];
    if |cmds| > 1 {
      TilesFromFirst(Front(cmds), from, Last(cmds).idxOffset);
      assert Front(cmds)[1..] == Front(rest);
    }
  }

  // ---------------------------------------------------------------------------------------------
  // The drawing of the merged channels
  // ---------------------------------------------------------------------------------------------

  /** Each channel's own drawing: its log filled with its own index buffer. */
  function Drawings(logs: seq<seq<Tag>>, idxs: seq<seq<Slot<nat>>>): seq<seq<Drawn<Slot<nat>>>>
    requires |logs| == |idxs|
    requires forall i | 0 <= i < |logs| :: Slots(logs[i]) == |idxs[i]|
  {
    seq(|logs|, i requires 0 <= i < |logs| => Fill(logs[i], idxs[i]))
  }

  /** Drawing the channels' logs one after another is drawing each channel, one after another. */
  lemma {:induction false} ConcatDraws(logs: seq<seq<Tag>>, idxs: seq<seq<Slot<nat>>>)
    requires |logs| == |idxs|
    requires forall i | 0 <= i < |logs| :: Slots(logs[i]) == |idxs[i]|
    ensures Slots(Concat(logs)) == |Concat(idxs)|
    ensures Fill(Concat(logs), Concat(idxs)) == Concat(Drawings(logs, idxs))
  {
    var n := |logs|;
    if n > 0 {
      ConcatDraws(logs[..n - 1], idxs[..n - 1]);
      assert Drawings(logs, idxs)[..n - 1] == Drawings(logs[..n - 1], idxs[..n - 1]);
      FillConcat(Concat(logs[..n - 1]), logs[n - 1], Concat(idxs[..n - 1]), idxs[n - 1]);
    }
  }

  // ---------------------------------------------------------------------------------------------
  // One channel joins the channels before it
  // ---------------------------------------------------------------------------------------------

  /** The first n channels are joined: they tile up to `offset` and record the first n logs. */
  ghost predicate Folded(head: seq<DrawCmd>, channels: seq<Channel>, logs: seq<seq<Tag>>,
                         n: nat, at: int, offset: nat)
  {
    && 1 <= n <= |channels| && n <= |logs|
    && LastIsAt(head, channels, n, at)
    && Tiles(Joined(head, channels, n), 0, offset)
    && Tags(Joined(head, channels, n)) == Concat(logs[..n])
  }

  /** The channels from n on are as they were kept. */
  ghost predicate Waiting(channels: seq<Channel>, logs: seq<seq<Tag>>, n: nat) {
    && |logs| <= |channels|
    && forall k | n <= k < |logs| :: Keeps(channels[k], logs[k])
  }

  /** The seam: the joined commands so far, and the commands still to come after them. */
  ghost predicate Meets(joined: seq<DrawCmd>, offset: nat, cmds: seq<DrawCmd>, from: nat, to: nat, tags: seq<Tag>) {
    && Tiles(joined, 0, offset)
    && Tiles(cmds, from, to)
    && Tags(joined) + Tags(cmds) == tags
  }

  /** Moving the first command's indices into the last joined command keeps the whole record. */
  lemma SeamKeepsTags(joined: seq<DrawCmd>, offset: nat, cmds: seq<DrawCmd>, from: nat, to: nat, tags: seq<Tag>)
    requires Meets(joined, offset, cmds, from, to, tags)
    requires |joined| > 0 && |cmds| > 0 && Joinable(Last(joined), cmds[0])
    ensures
      var n := cmds[0].elemCount;
      Meets(joined[|joined| - 1 := Last(joined).(elemCount := Last(joined).elemCount + n)], offset + n,
            cmds[1..], from + n, to, tags)
  {
    hide Tiles, Tags;
    var n := cmds[0].elemCount;
    var joined' := joined[|joined| - 1 := Last(joined).(elemCount := Last(joined).elemCount + n)];
    Grow(joined, 0, offset, n);
    TilesFromFirst(cmds, from, to);
    TagsFromFirst(cmds);
    assert Tags(joined') + Tags(cmds[1..]) == Tags(joined) + (TagsOf(cmds[0]) + Tags(cmds[1..]));
  }

  lemma SliceStep<T>(s: seq<T>, k: nat, v: T)
    requires k < |s|
    ensures s[k..][0] == s[k] && s[k..][1..] == s[k + 1..] && s[..k + 1] == s[..k] + [s[k]]
    ensures s[k := v][..k + 1] == s[..k] + [v] && s[k := v][k + 1..] == s[k + 1..]
  {
  }

  /** The renumbered commands so far tile from `start`, as the original ones do from `from`. */
  ghost predicate Renumbered(r: seq<DrawCmd>, cmds: seq<DrawCmd>, start: nat, end: nat, from: nat, mid: nat) {
    && Tiles(r, start, end)
    && Tiles(cmds, from, mid)
    && Tags(r) == Tags(cmds)
    && end - start == mid - from
  }

  /** The first k commands are renumbered, the others as they were. */
  ghost predicate Renumbering(r: seq<DrawCmd>, cmds: seq<DrawCmd>, k: nat, start: nat, end: nat,
                              from: nat, mid: nat, to: nat)
  {
    && k <= |cmds| == |r|
    && r[k..] == cmds[k..]
    && (forall j | 0 <= j < k :: r[j] == cmds[j].(idxOffset := r[j].idxOffset))
    && Renumbered(r[..k], cmds[..k], start, end, from, mid)
    && Tiles(cmds[k..], mid, to)
  }

  lemma RenumberStart(cmds: seq<DrawCmd>, start: nat, from: nat, to: nat)
    requires Tiles(cmds, from, to)
    ensures Renumbering(cmds, cmds, 0, start, start, from, from, to)
  {
    assert cmds[0..] == cmds && cmds[..0] == [];
  }

  lemma RenumberStep(r: seq<DrawCmd>, cmds: seq<DrawCmd>, k: nat, start: nat, end: nat, from: nat, mid: nat, to: nat)
    requires Renumbering(r, cmds, k, start, end, from, mid, to) && k < |r|
    ensures
      var cmd := r[k].(idxOffset := end);
      Renumbering(r[k := cmd], cmds, k + 1, start, end + cmd.elemCount, from, mid + cmd.elemCount, to)
  {
    hide Tiles, Tags, Renumbered;
    SliceStep(r, k, r[k]);
    SliceStep(cmds, k, cmds[k]);
    assert r[k] == cmds[k];
    TilesFromFirst(cmds[k..], mid, to);
    SliceStep(r, k, r[k].(idxOffset := end));
    StepRenumber(r[..k], cmds[..k], r[k].(idxOffset := end), cmds[k], start, end, from, mid);
  }

  lemma RenumberDone(r: seq<DrawCmd>, cmds: seq<DrawCmd>, start: nat, end: nat, from: nat, mid: nat, to: nat)
    requires Renumbering(r, cmds, |cmds|, start, end, from, mid, to)
    ensures end - start == to - from && |r| == |cmds| && Tiles(r, start, end) && Tags(r) == Tags(cmds)
    ensures forall j | 0 <= j < |r| :: r[j] == cmds[j].(idxOffset := r[j].idxOffset)
  {
    assert r[..|r|] == r && cmds[..|cmds|] == cmds && cmds[|cmds|..] == [];
  }

  /** Gives the commands consecutive offsets from `start`. */
  method Renumber(cmds: seq<DrawCmd>, start: nat, ghost from: nat, ghost to: nat)
    returns (r: seq<DrawCmd>, end: nat)
    requires Tiles(cmds, from, to)
    ensures end - start == to - from
    ensures |r| == |cmds| && Tiles(r, start, end) && Tags(r) == Tags(cmds)
    ensures forall j | 0 <= j < |r| :: r[j] == cmds[j].(idxOffset := r[j].idxOffset)
  {
    hide Tiles, Tags, Renumbering;
    r, end := cmds, start;
    var k := 0;
    ghost var mid: nat := from;
    RenumberStart(cmds, start, from, to);
    while k < |r|
      invariant k <= |r| == |cmds|
      invariant Renumbering(r, cmds, k, start, end, from, mid, to)
    {
      RenumberStep(r, cmds, k, start, end, from, mid, to);
      r := r[k := r[k].(idxOffset := end)];
      end := end + r[k].elemCount;
      mid := mid + r[k].elemCount;
      k := k + 1;
    }
    RenumberDone(r, cmds, start, end, from, mid, to);
  }

  lemma StepRenumber(r: seq<DrawCmd>, cmds: seq<DrawCmd>, a: DrawCmd, b: DrawCmd,
                     start: nat, end: nat, from: nat, mid: nat)
    requires Renumbered(r, cmds, start, end, from, mid)
    requires b.idxOffset == mid && a == b.(idxOffset := end)
    requires b.callback != NoCallback ==> b.elemCount == 0
    ensures Renumbered(r + [a], cmds + [b], start, end + a.elemCount, from, mid + b.elemCount)
  {
    hide Tiles, Tags;
    TagsPush(r, a);
    TagsPush(cmds, b);
    TilesPush(r, start, end, a);
    TilesPush(cmds, from, mid, b);
  }

  /** The channel, cut at the seam and renumbered, goes to the end of the joined commands. */
  lemma FoldStep(head: seq<DrawCmd>, channels: seq<Channel>, logs: seq<seq<Tag>>, i: nat, at: int, offset: nat,
                 rest: seq<DrawCmd>, from: nat, to: nat, r: seq<DrawCmd>, end: nat)
    requires 1 <= i < |logs| <= |channels| && LastIsAt(head, channels, i, at)
    requires Meets(Joined(head, channels, i), offset, rest, from, to, Concat(logs[..i + 1]))
    requires Tiles(r, offset, end) && Tags(r) == Tags(rest)
    ensures -1 <= at < i
    ensures Folded(head, channels[i := channels[i].(cmds := r)], logs, i + 1, if |r| > 0 then i else at, end)
  {
    hide Tiles, Tags, Concat, Meets;
    var channels' := channels[i := channels[i].(cmds := r)];
    JoinedSame(head, channels, channels', i);
    assert Joined(head, channels', i + 1) == Joined(head, channels, i) + r;
    SeamCloses(Joined(head, channels, i), offset, rest, from, to, Concat(logs[..i + 1]), r, end);
  }

  lemma SeamCloses(joined: seq<DrawCmd>, offset: nat, rest: seq<DrawCmd>, from: nat, to: nat, tags: seq<Tag>,
                   r: seq<DrawCmd>, end: nat)
    requires Meets(joined, offset, rest, from, to, tags)
    requires Tiles(r, offset, end) && Tags(r) == Tags(rest)
    ensures Tiles(joined + r, 0, end) && Tags(joined + r) == tags
  {
    hide Tiles, Tags;
    TilesConcat(joined, r, 0, offset, end);
    TagsConcat(joined, r);
  }

  lemma ConcatPush<T>(parts: seq<seq<T>>, n: nat)
    requires n < |parts|
    ensures Concat(parts[..n + 1]) == Concat(parts[..n]) + parts[n]
  {
    assert parts[..n + 1][..n] == parts[..n];
  }

  /** The channel to come, without its unused last command, meets the channels joined so far. */
  lemma FoldStart(head: seq<DrawCmd>, channels: seq<Channel>, logs: seq<seq<Tag>>, i: nat, at: int, offset: nat)
    requires 1 <= i < |logs| && Waiting(channels, logs, i)
    requires Folded(head, channels, logs, i, at, offset)
    ensures LastIsAt(head, channels, i, at)
    ensures
      var cmds := channels[i].cmds;
      var used :=
        if |cmds| > 0 && Last(cmds).elemCount == 0 && Last(cmds).callback == NoCallback then Front(cmds) else cmds;
      Meets(Joined(head, channels, i), offset, used, 0, |channels[i].idx|, Concat(logs[..i + 1]))
  {
    hide Tiles, Tags, Concat, Joined, LastIsAt;
    var cmds := channels[i].cmds;
    assert Keeps(channels[i], logs[i]);
    ConcatPush(logs, i);
    if |cmds| > 0 && Last(cmds).elemCount == 0 && Last(cmds).callback == NoCallback {
      DropUnused(cmds, 0, |channels[i].idx|);
    }
  }

  lemma StillWaiting(was: seq<Channel>, now: seq<Channel>, logs: seq<seq<Tag>>, i: nat)
    requires i < |logs| && Waiting(was, logs, i)
    requires |now| == |was| && was[i + 1..] == now[i + 1..]
    ensures Waiting(now, logs, i + 1)
  {
    forall k | i + 1 <= k < |logs| ensures Keeps(now[k], logs[k]) {
      assert now[k] == now[i + 1..][k - i - 1] == was[i + 1..][k - i - 1] == was[k];
    }
  }

  lemma LastInRange(head: seq<DrawCmd>, channels: seq<Channel>, n: nat, at: int)
    requires 1 <= n <= |channels| && LastIsAt(head, channels, n, at)
    ensures -1 <= at < n
  {
  }

  lemma KeptWhenReady(dl: DrawList)
    requires dl.Valid()
    ensures Keeps(Channel(dl.cmdBuffer, dl.idxBuffer), dl.log)
  {
  }

  lemma KeptIsSound(ch: Channel, log: seq<Tag>)
    requires Keeps(ch, log)
    ensures Tiles(ch.cmds, 0, |ch.idx|) && Tags(ch.cmds) == log
    ensures |ch.cmds| > 0 ==> Last(ch.cmds).callback == NoCallback
  {
  }

  /** Before the first channel joins, the joined commands are those of channel 0. */
  lemma FoldNone(head: seq<DrawCmd>, channels: seq<Channel>, logs: seq<seq<Tag>>, n: nat)
    requires |logs| >= 1 && |channels| >= 1
    requires Tiles(head, 0, n) && Tags(head) == logs[0]
    ensures Folded(head, channels, logs, 1, if |head| > 0 then 0 else -1,
                   if |head| > 0 then Last(head).idxOffset + Last(head).elemCount else 0)
  {
    hide Tags;
    ConcatOne(logs[0]);
    assert logs[..1] == [logs[0]];
  }

  lemma FoldedAll(head: seq<DrawCmd>, channels: seq<Channel>, logs: seq<seq<Tag>>, at: int, offset: nat)
    requires Folded(head, channels, logs, |logs|, at, offset)
    ensures |logs| <= |channels| && Tiles(Joined(head, channels, |logs|), 0, offset)
    ensures Tags(Joined(head, channels, |logs|)) == Concat(logs)
  {
    hide Tags, Tiles, Joined, LastIsAt, Concat;
    assert logs[..|logs|] == logs;
  }

  lemma ConcatOne<T>(part: seq<T>)
    ensures Concat([part]) == part
  {
    assert [part][..0] == [];
  }

  lemma AllWaiting(channels: seq<Channel>, logs: seq<seq<Tag>>)
    requires |logs| <= |channels|
    requires forall k | 1 <= k < |logs| :: Keeps(channels[k], logs[k])
    ensures Waiting(channels, logs, 1)
  {
  }

  /** Every channel's log has one index tag for each slot of its index buffer. */
  lemma SlotsOfKept(channels: seq<Channel>, logs: seq<seq<Tag>>, idx: seq<Slot<nat>>, cmds: seq<DrawCmd>)
    requires 1 <= |logs| <= |channels| && Waiting(channels, logs, 1)
    requires Tiles(cmds, 0, |idx|) && Tags(cmds) == logs[0]
    ensures Slots(Concat(logs)) == |Concat(IdxOf(channels, |logs|)[0 := idx])|
  {
    hide Tiles, Tags, Concat;
    var idxs := IdxOf(channels, |logs|)[0 := idx];
    forall i | 0 <= i < |logs| ensures Slots(logs[i]) == |idxs[i]| {
      if i == 0 {
        RenderIsFill(cmds, idx);
      } else {
        assert Keeps(channels[i], logs[i]);
        RenderIsFill(channels[i].cmds, channels[i].idx);
      }
    }
    ConcatDraws(logs, idxs);
  }

  lemma SameIdx(a: seq<Channel>, b: seq<Channel>, n: nat)
    requires n <= |a| == |b|
    requires forall k | 0 <= k < |b| :: b[k].idx == a[k].idx
    ensures IdxOf(a, n) == IdxOf(b, n) && |IdxOf(b, n)| == n
  {
  }

  lemma TiledSlots(cmds: seq<DrawCmd>, to: nat)
    requires Tiles(cmds, 0, to)
    ensures Slots(Tags(cmds)) == to
  {
    RenderIsFill(cmds, seq(to, _ => 0));
  }

  /** The two runs are coalesced, and the first ends in a command in use that the second does not continue. */
  ghost predicate Fits(joined: seq<DrawCmd>, cmds: seq<DrawCmd>) {
    && Coalesced(joined) && Coalesced(cmds)
    && (|joined| > 0 ==> Used(Last(joined)))
    && (|joined| > 0 && |cmds| > 0 ==> !Joinable(Last(joined), cmds[0]))
  }

  /** Everything joined is coalesced and in use. */
  ghost predicate Tight(cmds: seq<DrawCmd>) {
    Coalesced(cmds) && (|cmds| > 0 ==> Used(Last(cmds)))
  }

  /** Merging the first command away leaves two runs that fit. */
  lemma SeamFits(joined: seq<DrawCmd>, cmds: seq<DrawCmd>)
    requires Tight(joined) && Coalesced(cmds) && |joined| > 0 && |cmds| > 0
    requires Joinable(Last(joined), cmds[0])
    ensures
      var n := cmds[0].elemCount;
      Fits(joined[|joined| - 1 := Last(joined).(elemCount := Last(joined).elemCount + n)], cmds[1..])
  {
    ResizeStaysCoalesced(joined, Last(joined).elemCount + cmds[0].elemCount);
    CoalescedRest(cmds);
  }

  /** The channel, tight by now and renumbered, keeps the joined commands tight. */
  lemma FoldTight(joined: seq<DrawCmd>, rest: seq<DrawCmd>, r: seq<DrawCmd>)
    requires Fits(joined, rest) && (|rest| > 0 ==> Used(Last(rest)))
    requires |r| == |rest| && forall k | 0 <= k < |r| :: r[k] == rest[k].(idxOffset := r[k].idxOffset)
    ensures Tight(joined + r)
  {
    CoalescedMoved(rest, r);
    CoalescedConcat(joined, r);
  }

  /** A coalesced channel has at most one unused command, so dropping one drops all. */
  lemma DropTight(cmds: seq<DrawCmd>)
    requires Coalesced(cmds)
    ensures Tight(if |cmds| > 0 && !Used(Last(cmds)) then Front(cmds) else cmds)
  {
    if |cmds| > 0 && !Used(Last(cmds)) {
      CoalescedFront(cmds);
    }
  }

  lemma UnusedIs(cmds: seq<DrawCmd>)
    ensures |cmds| > 0 ==> (!Used(Last(cmds)) <==> Last(cmds).elemCount == 0 && Last(cmds).callback == NoCallback)
  {
  }

  lemma TightLast(cmds: seq<DrawCmd>)
    requires Tight(cmds)
    ensures |cmds| > 0 ==> Used(Last(cmds))
  {
  }

  lemma JoinedOne(head: seq<DrawCmd>, channels: seq<Channel>)
    requires |channels| >= 1
    ensures Joined(head, channels, 1) == head
  {
  }

  lemma JoinedNext(head: seq<DrawCmd>, channels: seq<Channel>, i: nat, r: seq<DrawCmd>)
    requires 1 <= i < |channels|
    ensures Joined(head, channels[i := channels[i].(cmds := r)], i + 1) == Joined(head, channels, i) + r
  {
    JoinedSame(head, channels, channels[i := channels[i].(cmds := r)], i);
  }

  /** Every channel is coalesced; the current one's commands are `head`. */
  ghost predicate ShortChannels(head: seq<DrawCmd>, channels: seq<Channel>, count: nat, current: nat) {
    && Coalesced(head)
    && count <= |channels|
    && forall k | 0 <= k < count && k != current :: Coalesced(channels[k].cmds)
  }

  lemma ShortAfterExchange(head: seq<DrawCmd>, channels: seq<Channel>, count: nat, current: nat, idx: nat, ch: Channel)
    requires ShortChannels(head, channels, count, current) && current < |channels| && idx < count && idx != current
    requires ch.cmds == head
    ensures ShortChannels(channels[idx].cmds, channels[current := ch], count, idx)
  {
    hide Coalesced;
  }

  lemma OneIsCoalesced(cmds: seq<DrawCmd>, header: Header)
    requires |cmds| == 1
    ensures Coalesced(cmds) && !Clashes(cmds, header) && !Clashes([], header)
  {
  }

  /** With another current buffer, all channels are coalesced exactly when that buffer is. */
  lemma ShortHeads(head: seq<DrawCmd>, head': seq<DrawCmd>, channels: seq<Channel>, count: nat, current: nat)
    ensures ShortChannels(head, channels, count, current) ==>
      (ShortChannels(head', channels, count, current) <==> Coalesced(head')) && Coalesced(head)
  {
    hide Coalesced;
  }

  lemma ShortTrimmed(head: seq<DrawCmd>, channels: seq<Channel>, count: nat, current: nat)
    requires ShortChannels(head, channels, count, current)
    ensures ShortChannels(Trimmed(head), channels, count, current) && Tight(Trimmed(head))
  {
    TrimmedCoalesced(head);
  }

  lemma ShortTight(head: seq<DrawCmd>, channels: seq<Channel>, count: nat)
    requires ShortChannels(head, channels, count, 0) && (|head| > 0 ==> Used(Last(head)))
    ensures Tight(head)
  {
  }

  lemma ShortRest(head: seq<DrawCmd>, channels: seq<Channel>, count: nat)
    requires ShortChannels(head, channels, count, 0)
    ensures count <= |channels| && forall k | 1 <= k < count :: Coalesced(channels[k].cmds)
  {
  }

  class DrawListSplitter {
    var current: nat
    var count: nat
    var channels: seq<Channel>
    /** The logs of the channels that are not current. */
    ghost var logs: seq<seq<Tag>>

    /** Split: every channel but the current one is kept. Not split: channel 0 is the list itself. */
    ghost predicate Valid()
      reads this
    {
      && (count <= 1 ==> current == 0)
      && (count > 1 ==>
           && current < count == |logs| <= |channels|
           && forall k | 0 <= k < count && k != current :: Keeps(channels[k], logs[k]))
    }

    /** What was recorded in each channel. */
    ghost function Logs(dl: DrawList): (r: seq<seq<Tag>>)
      requires Valid()
      reads this, dl`log
      ensures |r| == (if count <= 1 then 1 else count)
    {
      if count <= 1 then [dl.log] else logs[current := dl.log]
    }

    /** The index buffer of each channel. */
    ghost function IndexBuffers(dl: DrawList): (r: seq<seq<Slot<nat>>>)
      requires Valid()
      reads this, dl`idxBuffer
      ensures |r| == (if count <= 1 then 1 else count)
    {
      if count <= 1 then [dl.idxBuffer] else IdxOf(channels, count)[current := dl.idxBuffer]
    }

    constructor ()
      ensures Valid() && count == 0
    {
      current, count, channels, logs := 0, 0, [], [];
    }

    /** Every channel after the first starts empty; the list goes on as channel 0. */
    method Split(dl: DrawList, channelsCount: nat)
      requires Valid() && count <= 1 && channelsCount >= 1
      modifies this
      ensures Valid() && count == channelsCount && current == 0
      ensures Logs(dl) == [dl.log] + seq(channelsCount - 1, _ => [])
      ensures IndexBuffers(dl) == [dl.idxBuffer] + seq(channelsCount - 1, _ => [])
      ensures channelsCount <= |channels| && forall k | 0 <= k < channelsCount :: channels[k].cmds == []
      ensures AllCoalesced(dl) <==> Coalesced(dl.cmdBuffer)
    {
      var oldChannelsCount := |channels|;
      if oldChannelsCount < channelsCount {
        channels := channels + seq(channelsCount - oldChannelsCount, _ => Channel([], []));
      }
      count := channelsCount;
      channels := channels[0 := Channel([], [])];
      var i := 1;
      while i < channelsCount
        invariant 1 <= i <= channelsCount <= |channels|
        invariant forall k | 0 <= k < i :: channels[k] == Channel([], [])
        modifies `channels
      {
        channels := channels[i := Channel([], [])];
        i := i + 1;
      }
      logs := seq(channelsCount, _ => []);
    }

    /** The list's last command takes the current header, or a new command does. */
    static method MakeReady(dl: DrawList)
      requires dl.Sound() && |dl.cmdBuffer| > 0 && Last(dl.cmdBuffer).callback == NoCallback
      requires dl.reserved == 0
      modifies dl`cmdBuffer, dl`reserved
      ensures dl.Valid() && dl.reserved == 0
      ensures Trimmed(dl.cmdBuffer) == Trimmed(old(dl.cmdBuffer))
      ensures old(Coalesced(dl.cmdBuffer)) ==> (Coalesced(dl.cmdBuffer) <==> !Clashes(old(dl.cmdBuffer), dl.header))
    {
      hide Tiles, Tags, Trimmed, Coalesced;
      if Coalesced(dl.cmdBuffer) {
        PushCoalescedIff(dl.cmdBuffer, DrawCmd(dl.header, |dl.idxBuffer|, 0, NoCallback));
      }
      if Last(dl.cmdBuffer).elemCount == 0 {
        if Coalesced(dl.cmdBuffer) {
          RelabelCoalescedIff(dl.cmdBuffer, dl.header);
        }
        TrimmedRelabel(dl.cmdBuffer, dl.header);
        dl.RelabelLast();
      } else if Last(dl.cmdBuffer).header != dl.header {
        dl.AddDrawCmd();
      }
    }

    /** No channel has more commands than its drawing needs. */
    ghost predicate AllCoalesced(dl: DrawList)
      reads this, dl`cmdBuffer
    {
      ShortChannels(dl.cmdBuffer, channels, count, current)
    }

    /** What a change of channel does to the recorder: other log, other index buffer. */
    static function Onto(r: Recorder, log: seq<Tag>, idx: seq<Slot<nat>>): Recorder {
      r.(log := log, idx := idx, idxWrite := |idx|, reserved := 0)
    }

    /** The current channel's buffers are put away, and those of channel `idx` taken out. */
    method Exchange(dl: DrawList, idx: nat)
      requires Valid() && dl.Valid() && idx < count && idx != current
      modifies this, dl`cmdBuffer, dl`idxBuffer, dl`idxWrite, dl`log, dl`reserved
      ensures Valid() && count == old(count) && current == idx
      ensures Logs(dl) == old(Logs(dl)) && IndexBuffers(dl) == old(IndexBuffers(dl))
      ensures dl.Sound() && dl.reserved == 0
      ensures |dl.cmdBuffer| > 0 ==> Last(dl.cmdBuffer).callback == NoCallback
      ensures dl.Recorded() == Onto(old(dl.Recorded()), Logs(dl)[idx], IndexBuffers(dl)[idx])
      ensures dl.cmdBuffer == old(channels)[idx].cmds && dl.idxBuffer == old(channels)[idx].idx
      ensures channels == old(channels)[old(current) := Channel(old(dl.cmdBuffer), old(dl.idxBuffer))]
      ensures old(AllCoalesced(dl)) ==> AllCoalesced(dl)
    {
      hide Tiles, Tags, Concat, Keeps, Coalesced, ShortChannels, DrawList.Sound, DrawList.Ready, Onto;
      if AllCoalesced(dl) {
        ShortAfterExchange(dl.cmdBuffer, channels, count, current, idx, Channel(dl.cmdBuffer, dl.idxBuffer));
      }
      PutAway(dl);
      TakeOut(dl, idx);
    }

    /** The current channel is kept as well. */
    method PutAway(dl: DrawList)
      requires Valid() && dl.Valid() && count > 1
      modifies `channels, `logs
      ensures channels == old(channels)[current := Channel(dl.cmdBuffer, dl.idxBuffer)]
      ensures logs == old(logs)[current := dl.log]
      ensures forall k | 0 <= k < count :: Keeps(channels[k], logs[k])
    {
      hide Tiles, Tags, Keeps;
      KeptWhenReady(dl);
      channels := channels[current := Channel(dl.cmdBuffer, dl.idxBuffer)];
      logs := logs[current := dl.log];
    }

    /** A kept channel's buffers become the list's. */
    method TakeOut(dl: DrawList, idx: nat)
      requires idx < count == |logs| <= |channels| && Keeps(channels[idx], logs[idx])
      requires dl.Sound()
      modifies `current, dl`cmdBuffer, dl`idxBuffer, dl`idxWrite, dl`log, dl`reserved
      ensures current == idx && dl.Sound() && dl.reserved == 0
      ensures dl.cmdBuffer == channels[idx].cmds && dl.idxBuffer == channels[idx].idx && dl.log == logs[idx]
      ensures |dl.cmdBuffer| > 0 ==> Last(dl.cmdBuffer).callback == NoCallback
      ensures dl.Recorded() == Onto(old(dl.Recorded()), logs[idx], channels[idx].idx)
    {
      hide Tiles, Tags, Keeps;
      KeptIsSound(channels[idx], logs[idx]);
      current := idx;
      dl.cmdBuffer := channels[idx].cmds;
      dl.idxBuffer := channels[idx].idx;
      dl.idxWrite := |dl.idxBuffer|;
      dl.log := logs[idx];
      dl.reserved := 0;
    }

    /** The same, but for unused commands at the end of the current channel. */
    ghost predicate OthersCoalesced(dl: DrawList)
      reads this, dl`cmdBuffer
    {
      ShortChannels(Trimmed(dl.cmdBuffer), channels, count, current)
    }

    /** The list goes on in another channel, under the header that is current. */
    method SetCurrentChannel(dl: DrawList, idx: nat)
      requires Valid() && dl.Valid() && (idx < count || idx == current)
      modifies this, dl`cmdBuffer, dl`idxBuffer, dl`idxWrite, dl`log, dl`reserved
      ensures Valid() && dl.Valid() && count == old(count) && current == idx
      ensures Logs(dl) == old(Logs(dl)) && IndexBuffers(dl) == old(IndexBuffers(dl))
      ensures dl.Recorded() == if idx == old(current) then old(dl.Recorded())
                               else Onto(old(dl.Recorded()), Logs(dl)[idx], IndexBuffers(dl)[idx])
      ensures channels == if idx == old(current) then old(channels)
                          else old(channels)[old(current) := Channel(old(dl.cmdBuffer), old(dl.idxBuffer))]
      ensures unchanged(dl`header, dl`vtxBuffer, dl`vtxWrite, dl`vtxCurrentIdx, dl`clipRectStack, dl`textureIdStack)
      ensures unchanged(dl`fullscreen, dl`allowVtxOffset, dl`callbacksData)
      ensures idx == old(current) ==> unchanged(dl`cmdBuffer, dl`idxBuffer, dl`idxWrite)
      ensures idx != old(current) ==>
        dl.idxBuffer == old(channels)[idx].idx && dl.idxWrite == |dl.idxBuffer| && dl.log == old(Logs(dl))[idx]
      ensures old(AllCoalesced(dl)) ==> OthersCoalesced(dl)
      ensures old(AllCoalesced(dl)) ==>
        (AllCoalesced(dl) <==> idx == old(current) || !Clashes(old(channels)[idx].cmds, old(dl.header)))
    {
      hide Tiles, Tags, Concat, Keeps, Trimmed, Coalesced, ShortChannels, Clashes, DrawList.Sound,
        DrawListSplitter.Logs, DrawListSplitter.IndexBuffers;
      if AllCoalesced(dl) {
        ShortTrimmed(dl.cmdBuffer, channels, count, current);
      }
      if current == idx {
        return;
      }
      Exchange(dl, idx);
      if AllCoalesced(dl) {
        ShortTrimmed(dl.cmdBuffer, channels, count, current);
      }
      ShowTaken(dl);
    }

    /** The buffers just taken out go on under the current header. */
    method ShowTaken(dl: DrawList)
      requires dl.Sound() && dl.reserved == 0 && (|dl.cmdBuffer| > 0 ==> Last(dl.cmdBuffer).callback == NoCallback)
      modifies dl`cmdBuffer, dl`reserved
      ensures dl.Valid() && dl.reserved == 0
      ensures Trimmed(dl.cmdBuffer) == Trimmed(old(dl.cmdBuffer))
      ensures old(AllCoalesced(dl)) ==> (AllCoalesced(dl) <==> !Clashes(old(dl.cmdBuffer), dl.header))
    {
      hide Tiles, Tags, Trimmed, Coalesced, ShortChannels, DrawList.Sound;
      ghost var taken := dl.cmdBuffer;
      if |dl.cmdBuffer| == 0 {
        dl.AddDrawCmd();
        OneIsCoalesced(dl.cmdBuffer, dl.header);
      }
      MakeReady(dl);
      ShortHeads(taken, dl.cmdBuffer, channels, count, current);
    }

    /** The commands of the next channel meet the joined ones; draws under one header are one draw. */
    method MeetSeam(dl: DrawList, i: nat, at: int, offset: nat, cmds: seq<DrawCmd>, ghost to: nat, ghost tags: seq<Tag>)
      returns (rest: seq<DrawCmd>, ghost from: nat, offset': nat)
      requires 1 <= i < |channels| && LastIsAt(dl.cmdBuffer, channels, i, at)
      requires Meets(Joined(dl.cmdBuffer, channels, i), offset, cmds, 0, to, tags)
      modifies `channels, dl`cmdBuffer
      ensures |channels| == old(|channels|) && channels[i..] == old(channels)[i..]
      ensures forall k | 0 <= k < |channels| :: channels[k].idx == old(channels)[k].idx
      ensures LastIsAt(dl.cmdBuffer, channels, i, at)
      ensures Meets(Joined(dl.cmdBuffer, channels, i), offset', rest, from, to, tags)
      ensures Tiles(rest, from, to)
      ensures old(Tight(Joined(dl.cmdBuffer, channels, i))) && Tight(cmds) ==>
        Fits(Joined(dl.cmdBuffer, channels, i), rest) && Tight(rest)
    {
      hide Joined, LastIsAt, Tags, Tiles, Coalesced, Used;
      rest, from, offset' := cmds, 0, offset;
      JoinedLast(dl.cmdBuffer, channels, i, at);
      ghost var joined := Joined(dl.cmdBuffer, channels, i);
      LastInRange(dl.cmdBuffer, channels, i, at);
      if |cmds| > 0 && at >= 0 {
        var lastCmds := CmdsAt(dl.cmdBuffer, channels, at);
        var lastCmd, nextCmd := Last(lastCmds), cmds[0];
        if lastCmd.header == nextCmd.header && lastCmd.callback == NoCallback && nextCmd.callback == NoCallback {
          var grown := lastCmd.(elemCount := lastCmd.elemCount + nextCmd.elemCount);
          if Tight(joined) && Tight(cmds) {
            SeamFits(joined, cmds);
            CoalescedRest(cmds);
          }
          SeamKeepsTags(Joined(dl.cmdBuffer, channels, i), offset, cmds, 0, to, tags);
          JoinedReplaceLast(dl.cmdBuffer, channels, i, at, grown);
          lastCmds := lastCmds[|lastCmds| - 1 := grown];
          ReplacedIsLast(dl.cmdBuffer, channels, i, at, lastCmds);
          dl.cmdBuffer, channels := PutHead(dl.cmdBuffer, at, lastCmds), PutChannels(channels, at, lastCmds);
          rest, from, offset' := cmds[1..], nextCmd.elemCount, offset + nextCmd.elemCount;
        }
      }
    }

    /** One channel joins the channels before it: unused command off, seam merged, renumbered. */
    method FoldChannel(dl: DrawList, i: nat, at: int, offset: nat) returns (at': int, offset': nat)
      requires 1 <= i < |logs| && Waiting(channels, logs, i)
      requires Folded(dl.cmdBuffer, channels, logs, i, at, offset)
      modifies `channels, dl`cmdBuffer
      ensures |channels| == old(|channels|)
      ensures forall k | 0 <= k < |channels| :: channels[k].idx == old(channels)[k].idx
      ensures channels[i + 1..] == old(channels)[i + 1..]
      ensures Waiting(channels, logs, i + 1)
      ensures Folded(dl.cmdBuffer, channels, logs, i + 1, at', offset')
      ensures old(Tight(Joined(dl.cmdBuffer, channels, i))) && Coalesced(old(channels)[i].cmds) ==>
        Tight(Joined(dl.cmdBuffer, channels, i + 1))
    {
      hide Tiles, Tags, Concat, Joined, Folded, Meets, LastIsAt, Keeps, Tight, Coalesced, Fits, Used;
      var cmds := channels[i].cmds;
      ghost var tags := Concat(logs[..i + 1]);
      ghost var to := |channels[i].idx|;
      FoldStart(dl.cmdBuffer, channels, logs, i, at, offset);
      if Coalesced(cmds) {
        DropTight(cmds);
      }
      UnusedIs(cmds);
      if |cmds| > 0 && Last(cmds).elemCount == 0 && Last(cmds).callback == NoCallback {
        cmds := Front(cmds);
      }
      ghost var was := channels;
      var rest, from, start := MeetSeam(dl, i, at, offset, cmds, to, tags);
      var r, end := Renumber(rest, start, from, to);
      FoldStep(dl.cmdBuffer, channels, logs, i, at, start, rest, from, to, r, end);
      JoinedNext(dl.cmdBuffer, channels, i, r);
      if Fits(Joined(dl.cmdBuffer, channels, i), rest) && Tight(rest) {
        TightLast(rest);
        FoldTight(Joined(dl.cmdBuffer, channels, i), rest, r);
      }
      channels := channels[i := channels[i].(cmds := r)];
      at' := if |r| > 0 then i else at;
      offset' := end;
      StillWaiting(was, channels, logs, i);
    }

    /** All channels are joined: offsets rewritten, seams merged, nothing recorded is lost. */
    method FoldAll(dl: DrawList) returns (ghost offset: nat)
      requires count > 1 && count == |logs| <= |channels|
      requires Tiles(dl.cmdBuffer, 0, |dl.idxBuffer|) && Tags(dl.cmdBuffer) == logs[0]
      requires Waiting(channels, logs, 1)
      modifies `channels, dl`cmdBuffer
      ensures |channels| == old(|channels|)
      ensures forall k | 0 <= k < |channels| :: channels[k].idx == old(channels)[k].idx
      ensures Tiles(Joined(dl.cmdBuffer, channels, count), 0, offset)
      ensures Tags(Joined(dl.cmdBuffer, channels, count)) == Concat(logs)
      ensures old(Tight(dl.cmdBuffer)) && (forall k | 1 <= k < count :: Coalesced(old(channels)[k].cmds)) ==>
        Tight(Joined(dl.cmdBuffer, channels, count))
    {
      hide Tiles, Tags, Concat, Waiting, Folded, Joined, LastIsAt, Tight, Coalesced;
      ghost var before := channels;
      ghost var tight := Tight(dl.cmdBuffer) && forall k | 1 <= k < count :: Coalesced(channels[k].cmds);
      JoinedOne(dl.cmdBuffer, channels);
      var at := if |dl.cmdBuffer| > 0 then 0 else -1;
      var idxOffset: nat :=
        if |dl.cmdBuffer| > 0 then Last(dl.cmdBuffer).idxOffset + Last(dl.cmdBuffer).elemCount else 0;
      FoldNone(dl.cmdBuffer, channels, logs, |dl.idxBuffer|);
      var i := 1;
      while i < count
        invariant 1 <= i <= count
        invariant |channels| == old(|channels|) && Waiting(channels, logs, i)
        invariant forall k | 0 <= k < |channels| :: channels[k].idx == old(channels)[k].idx
        invariant Folded(dl.cmdBuffer, channels, logs, i, at, idxOffset)
        invariant channels[i..] == before[i..]
        invariant tight ==> Tight(Joined(dl.cmdBuffer, channels, i))
      {
        assert channels[i] == channels[i..][0] == before[i..][0] == before[i];
        assert channels[i + 1..] == channels[i..][1..] == before[i..][1..] == before[i + 1..];
        at, idxOffset := FoldChannel(dl, i, at, idxOffset);
        i := i + 1;
      }
      offset := idxOffset;
      FoldedAll(dl.cmdBuffer, channels, logs, at, offset);
    }

    /** The joined commands and the channels' index buffers are copied behind those of channel 0. */
    method AppendAll(dl: DrawList)
      requires 1 <= count <= |channels|
      modifies dl`cmdBuffer, dl`idxBuffer, dl`idxWrite
      ensures dl.cmdBuffer == Joined(old(dl.cmdBuffer), channels, count)
      ensures dl.idxBuffer == Concat(IdxOf(channels, count)[0 := old(dl.idxBuffer)])
      ensures dl.idxWrite == |dl.idxBuffer|
    {
      hide Joined, Concat;
      ghost var head := dl.cmdBuffer;
      ghost var idxs := IdxOf(channels, count)[0 := dl.idxBuffer];
      JoinedOne(head, channels);
      ConcatOne(dl.idxBuffer);
      assert idxs[..1] == [dl.idxBuffer];
      var i := 1;
      while i < count
        invariant 1 <= i <= count
        invariant dl.cmdBuffer == Joined(head, channels, i)
        invariant dl.idxBuffer == Concat(idxs[..i])
      {
        ConcatPush(idxs, i);
        JoinedStep(head, channels, i + 1);
        dl.cmdBuffer := dl.cmdBuffer + channels[i].cmds;
        dl.idxBuffer := dl.idxBuffer + channels[i].idx;
        i := i + 1;
      }
      dl.idxWrite := |dl.idxBuffer|;
      assert idxs[..count] == idxs;
    }

    /** The channels' commands and indices become the list's, one channel after another. */
    method JoinChannels(dl: DrawList)
      requires Valid() && current == 0 && count > 1 && dl.Sound() && dl.reserved == 0
      modifies this, dl`cmdBuffer, dl`idxBuffer, dl`idxWrite, dl`log, dl`reserved
      ensures count == old(count) && current == 0
      ensures dl.Sound()
      ensures dl.log == Concat(old(Logs(dl))) && dl.idxBuffer == Concat(old(IndexBuffers(dl)))
      ensures dl.Recorded() == Onto(old(dl.Recorded()), dl.log, dl.idxBuffer)
      ensures old(Tight(dl.cmdBuffer) && AllCoalesced(dl)) ==> Tight(dl.cmdBuffer)
    {
      hide Tiles, Tags, Concat, Keeps, Waiting, IdxOf, Joined, Tight, Coalesced, ShortChannels;
      if AllCoalesced(dl) {
        ShortRest(dl.cmdBuffer, channels, count);
      }
      logs := logs[0 := dl.log];
      AllWaiting(channels, logs);
      SlotsOfKept(channels, logs, dl.idxBuffer, dl.cmdBuffer);
      ghost var before := channels;
      ghost var offset := FoldAll(dl);
      SameIdx(before, channels, count);
      AppendAll(dl);
      TiledSlots(dl.cmdBuffer, offset);
      dl.log := Concat(logs);
    }

    /** There is always a drawing command at the end, under the current header. */
    static method EndWithDraw(dl: DrawList)
      requires dl.Sound() && dl.reserved == 0
      modifies dl`cmdBuffer, dl`reserved
      ensures dl.Valid() && dl.reserved == 0
      ensures old(Tight(dl.cmdBuffer)) ==> Coalesced(dl.cmdBuffer)
    {
      hide Tiles, Tags, Coalesced, Trimmed;
      ghost var tight := Tight(dl.cmdBuffer);
      if |dl.cmdBuffer| == 0 || Last(dl.cmdBuffer).callback != NoCallback {
        if tight {
          CoalescedPush(dl.cmdBuffer, DrawCmd(dl.header, |dl.idxBuffer|, 0, NoCallback));
        }
        dl.AddDrawCmd();
      }
      assert tight ==> Coalesced(dl.cmdBuffer) && !Clashes(dl.cmdBuffer, dl.header);
      MakeReady(dl);
    }

    /**
     * After the merge the list records what channel 0 recorded, then what channel 1 recorded, and
     * so on, over the channels' index buffers in the same order.
     */
    method Merge(dl: DrawList)
      requires Valid() && dl.Valid()
      modifies this, dl`cmdBuffer, dl`idxBuffer, dl`idxWrite, dl`log, dl`reserved
      ensures Valid() && dl.Valid() && current == 0 && count <= 1
      ensures dl.log == Concat(old(Logs(dl))) && dl.idxBuffer == Concat(old(IndexBuffers(dl)))
      ensures dl.Recorded() == if old(count) <= 1 then old(dl.Recorded())
                               else Onto(old(dl.Recorded()), dl.log, dl.idxBuffer)
      ensures unchanged(dl`header, dl`vtxBuffer, dl`vtxWrite, dl`vtxCurrentIdx, dl`clipRectStack, dl`textureIdStack)
      ensures unchanged(dl`fullscreen, dl`allowVtxOffset, dl`callbacksData)
      ensures old(count) > 1 ==> dl.idxWrite == |dl.idxBuffer|
      ensures old(AllCoalesced(dl)) ==> Coalesced(dl.cmdBuffer)
    {
      if count <= 1 {
        ConcatOne(dl.log);
        ConcatOne(dl.idxBuffer);
        return;
      }
      hide Tiles, Tags, Concat, Keeps, DrawList.Sound, DrawList.Ready, IdxOf, DrawListSplitter.Logs,
        DrawListSplitter.IndexBuffers, Coalesced, Tight;
      BackToFirst(dl);
      JoinChannels(dl);
      EndWithDraw(dl);
      count := 1;
    }

    /** Channel 0 is current, without unused commands at its end. */
    method BackToFirst(dl: DrawList)
      requires Valid() && dl.Valid() && count > 1
      modifies this, dl`cmdBuffer, dl`idxBuffer, dl`idxWrite, dl`log, dl`reserved
      ensures Valid() && count == old(count) && current == 0
      ensures dl.Sound() && dl.reserved == 0
      ensures Logs(dl) == old(Logs(dl)) && IndexBuffers(dl) == old(IndexBuffers(dl))
      ensures forall log, idx :: Onto(dl.Recorded(), log, idx) == Onto(old(dl.Recorded()), log, idx)
      ensures old(AllCoalesced(dl)) ==> AllCoalesced(dl) && Tight(dl.cmdBuffer)
    {
      hide Tiles, Tags, Concat, Keeps, DrawList.Sound, DrawList.Ready, IdxOf, DrawListSplitter.Logs,
        DrawListSplitter.IndexBuffers, Coalesced, Trimmed, ShortChannels;
      SetCurrentChannel(dl, 0);
      dl.PopUnusedDrawCmd();
      if ShortChannels(dl.cmdBuffer, channels, count, 0) {
        ShortTight(dl.cmdBuffer, channels, count);
      }
    }
  }
}
