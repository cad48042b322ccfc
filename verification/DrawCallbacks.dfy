/**
 * Callbacks and the data given to them. Bytes are copied into one store of the draw list when a
 * callback is added, and looked up there when the finished list is rendered, by when other callbacks
 * have been added, slots given back and channels merged. Every callback still finds what it was given.
 */
module DrawCallbacks {
  import opened Buffers
  import opened DrawCommands
  import opened DrawRecorder
  import opened DrawListSplitters
  import opened DrawRuns

  datatype UserData = Pointer(value: int) | Bytes(bytes: seq<bv8>)

  /** One call of a routine, and what it finds as its data. */
  datatype Delivery = Delivery(header: Header, routine: int, data: UserData)

  predicate InStore(callback: Callback, size: nat) {
    callback.Callback? && (callback.size > 0 ==> 0 <= callback.offset && callback.offset + callback.size <= size)
  }

  /** A command with stored bytes is pointed at them, any other keeps its pointer. */
  function DataOf(callback: Callback, store: seq<bv8>): UserData
    requires InStore(callback, |store|)
  {
    if callback.size > 0 && callback.offset != -1 then Bytes(store[callback.offset..callback.offset + callback.size])
    else Pointer(callback.userData)
  }

  predicate Kept(log: seq<Tag>, store: seq<bv8>) {
    forall i | 0 <= i < |log| && log[i].Call? :: InStore(log[i].callback, |store|)
  }

  function DeliveryOf(tag: Tag, store: seq<bv8>): seq<Delivery>
    requires tag.Call? ==> InStore(tag.callback, |store|)
  {
    if tag.Index? then [] else [Delivery(tag.header, tag.callback.routine, DataOf(tag.callback, store))]
  }

  /** The calls of a record, with the data they find in the store. */
  function Deliveries(log: seq<Tag>, store: seq<bv8>): seq<Delivery>
    requires Kept(log, store)
  {
    if |log| == 0 then [] else Deliveries(log[..|log| - 1], store) + DeliveryOf(log[|log| - 1], store)
  }

  function TagOf<T>(d: Drawn<T>): Tag {
    match d
    case Element(h, _) => Index(h)
    case Called(h, callback) => Call(h, callback)
  }

  /** What the renderer did, as a record. */
  function Record<T>(drawn: seq<Drawn<T>>): seq<Tag> {
    seq(|drawn|, i requires 0 <= i < |drawn| => TagOf(drawn[i]))
  }

  /** Reading a record against its index buffer does what the record says. */
  lemma {:induction false} RecordOfFill<T>(log: seq<Tag>, idx: seq<T>)
    requires Slots(log) == |idx|
    ensures Record(Fill(log, idx)) == log
    decreases |log|
  {
    if |log| > 0 {
      RecordOfFill(log[..|log| - 1], if log[|log| - 1].Index? then idx[..|idx| - 1] else idx);
    }
  }

  // ---------------------------------------------------------------------------------------------
  // One operation
  // ---------------------------------------------------------------------------------------------

  /** What a caller asks for: the routine, under the current header, with these bytes or this pointer. */
  function Asked(header: Header, op: Op): seq<Delivery> {
    match op
    case AddCallback(routine, userData, bytes) =>
      if routine == 0 then [] else [Delivery(header, routine, if |bytes| == 0 then Pointer(userData) else Bytes(bytes))]
    case _ => []
  }

  /** Every recorded callback finds its bytes, and what can be given back of the record holds no call. */
  ghost predicate Intact(r: Recorder) {
    && Kept(r.log, r.store) && r.reserved <= |r.log|
    && forall i | |r.log| - r.reserved <= i < |r.log| :: r.log[i].Index?
  }

  /** More bytes at the end of the store change nothing for those that are there. */
  lemma {:induction false} StoreGrows(log: seq<Tag>, store: seq<bv8>, more: seq<bv8>)
    requires Kept(log, store)
    ensures Kept(log, store + more) && Deliveries(log, store + more) == Deliveries(log, store)
    decreases |log|
  {
    if |log| > 0 {
      StoreGrows(log[..|log| - 1], store, more);
      var tag := log[|log| - 1];
      if tag.Call? && tag.callback.size > 0 {
        var from, to := tag.callback.offset, tag.callback.offset + tag.callback.size;
        assert (store + more)[from..to] == store[from..to];
      }
    }
  }

  lemma {:induction false} DeliveriesConcat(a: seq<Tag>, b: seq<Tag>, store: seq<bv8>)
    requires Kept(a, store) && Kept(b, store)
    ensures Kept(a + b, store) && Deliveries(a + b, store) == Deliveries(a, store) + Deliveries(b, store)
    decreases |b|
  {
    if |b| == 0 {
      assert a + b == a;
    } else {
      assert (a + b)[..|a + b| - 1] == a + b[..|b| - 1];
      DeliveriesConcat(a, b[..|b| - 1], store);
    }
  }

  /** Index slots deliver nothing. */
  lemma {:induction false} OnlySlots(log: seq<Tag>, store: seq<bv8>)
    requires forall i | 0 <= i < |log| :: log[i].Index?
    ensures Deliveries(log, store) == []
    decreases |log|
  {
    if |log| > 0 {
      OnlySlots(log[..|log| - 1], store);
    }
  }

  lemma SlotsAdded(log: seq<Tag>, more: seq<Tag>, store: seq<bv8>)
    requires Kept(log, store) && forall i | 0 <= i < |more| :: more[i].Index?
    ensures Kept(log + more, store) && Deliveries(log + more, store) == Deliveries(log, store)
  {
    OnlySlots(more, store);
    DeliveriesConcat(log, more, store);
  }

  lemma CallAdded(r: Recorder, routine: int, userData: int, bytes: seq<bv8>)
    requires Intact(r)
    ensures
      var s := r.AddCall(routine, userData, bytes);
      && Intact(s)
      && Deliveries(s.log, s.store)
         == Deliveries(r.log, r.store) + Asked(r.header, Op.AddCallback(routine, userData, bytes))
  {
    var s := r.AddCall(routine, userData, bytes);
    StoreGrows(r.log, r.store, bytes);
    if routine == 0 {
      assert r.log + [] == r.log;
    } else {
      var call := [Call(r.header, CallOf(routine, userData, bytes, |r.store|))];
      assert s.store[|r.store|..|r.store| + |bytes|] == bytes;
      DeliveriesConcat(r.log, call, s.store);
      assert call[..0] == [];
    }
  }

  /** One operation adds the call that was asked for, and leaves all others and their data alone. */
  lemma StepDelivers(r: Recorder, op: Op)
    requires Allowed(r, op) && Intact(r)
    ensures
      var s := Step(r, op);
      Intact(s) && Deliveries(s.log, s.store) == Deliveries(r.log, r.store) + Asked(r.header, op)
  {
    hide Deliveries;
    match op {
      case AddCallback(routine, userData, bytes) => CallAdded(r, routine, userData, bytes);
      case PrimReserve(idxCount, vtxCount) => SlotsAdded(r.log, Copies(r.Window(vtxCount).header, idxCount), r.store);
      case PrimUnreserve(idxCount, _) =>
        var n := |r.log| - idxCount;
        assert r.log == r.log[..n] + r.log[n..];
        SlotsAdded(r.log[..n], r.log[n..], r.store);
      case _ =>
    }
  }

  // ---------------------------------------------------------------------------------------------
  // Runs over channels
  // ---------------------------------------------------------------------------------------------

  ghost predicate AllIntact(l: Layers) {
    && l.Valid() && Intact(l.rec)
    && forall k | 0 <= k < |l.logs| :: Kept(l.logs[k], l.rec.store)
  }

  /** The calls asked for while channel k was current. */
  function AskedIn(l: Layers, actions: seq<Action>, k: nat): seq<Delivery>
    requires l.Valid() && l.AllowsAll(actions)
    decreases |actions|
  {
    if |actions| == 0 then []
    else
      (if actions[0].Draw? && l.current == k then Asked(l.rec.header, actions[0].op) else [])
      + AskedIn(l.Do(actions[0]), actions[1..], k)
  }

  lemma ActionDelivers(l: Layers, action: Action, k: nat)
    requires AllIntact(l) && l.Allows(action) && k < |l.logs|
    ensures AllIntact(l.Do(action))
    ensures
      Deliveries(l.Do(action).logs[k], l.Do(action).rec.store)
      == Deliveries(l.logs[k], l.rec.store)
         + if action.Draw? && l.current == k then Asked(l.rec.header, action.op) else []
  {
    hide Deliveries, Step, Allowed, Asked, Intact;
    match action {
      case Draw(op) =>
        StepDelivers(l.rec, op);
        StoreOnlyGrows(l.rec, op);
        var more := Step(l.rec, op).store[|l.rec.store|..];
        assert Step(l.rec, op).store == l.rec.store + more;
        forall j | 0 <= j < |l.logs|
          ensures Kept(l.logs[j], l.rec.store + more)
          ensures Deliveries(l.logs[j], l.rec.store + more) == Deliveries(l.logs[j], l.rec.store)
        {
          StoreGrows(l.logs[j], l.rec.store, more);
        }
        IntactIs(Step(l.rec, op));
      case SetCurrentChannel(n) => OntoIntact(l.rec, l.logs[n], l.idxs[n]);
    }
  }

  lemma StoreOnlyGrows(r: Recorder, op: Op)
    requires Allowed(r, op)
    ensures r.store <= Step(r, op).store
  {
  }

  lemma IntactIs(r: Recorder)
    requires Intact(r)
    ensures Kept(r.log, r.store)
  {
  }

  lemma OntoIntact(r: Recorder, log: seq<Tag>, idx: seq<Slot<nat>>)
    requires Kept(log, r.store)
    ensures Intact(DrawListSplitter.Onto(r, log, idx))
  {
  }

  /** However drawing is spread over channels, each channel's record delivers, besides what it did, exactly the calls
      asked for while it was current, in that order and each with its own data. */
  lemma {:induction false} ChannelDelivers(l: Layers, actions: seq<Action>, k: nat)
    requires AllIntact(l) && l.AllowsAll(actions) && k < |l.logs|
    ensures AllIntact(l.DoAll(actions))
    ensures
      Deliveries(l.DoAll(actions).logs[k], l.DoAll(actions).rec.store)
      == Deliveries(l.logs[k], l.rec.store) + AskedIn(l, actions, k)
    decreases |actions|
  {
    hide Deliveries, Layers.Do, Layers.Allows, Asked, AllIntact;
    IntactLayers(l);
    if |actions| > 0 {
      ActionDelivers(l, actions[0], k);
      IntactLayers(l.Do(actions[0]));
      ChannelDelivers(l.Do(actions[0]), actions[1..], k);
    }
    IntactLayers(l.DoAll(actions));
  }

  lemma IntactLayers(l: Layers)
    requires AllIntact(l)
    ensures l.Valid() && forall k | 0 <= k < |l.logs| :: Kept(l.logs[k], l.rec.store)
  {
  }

  function EachDelivers(logs: seq<seq<Tag>>, store: seq<bv8>): (r: seq<seq<Delivery>>)
    requires forall k | 0 <= k < |logs| :: Kept(logs[k], store)
    ensures |r| == |logs| && forall k | 0 <= k < |r| :: r[k] == Deliveries(logs[k], store)
  {
    seq(|logs|, k requires 0 <= k < |logs| => Deliveries(logs[k], store))
  }

  lemma {:induction false} ConcatDelivers(logs: seq<seq<Tag>>, store: seq<bv8>)
    requires forall k | 0 <= k < |logs| :: Kept(logs[k], store)
    ensures Kept(Concat(logs), store) && Deliveries(Concat(logs), store) == Concat(EachDelivers(logs, store))
    decreases |logs|
  {
    hide Kept;
    NothingKept(store);
    if |logs| > 0 {
      var front := logs[..|logs| - 1];
      ConcatDelivers(front, store);
      assert EachDelivers(logs, store)[..|logs| - 1] == EachDelivers(front, store);
      DeliveriesConcat(Concat(front), logs[|logs| - 1], store);
    }
  }

  lemma NothingKept(store: seq<bv8>)
    ensures Kept([], store) && Deliveries([], store) == []
  {
  }

  /** All that is to be called, channel by channel. */
  ghost function Due(l: Layers, actions: seq<Action>): (r: seq<seq<Delivery>>)
    requires AllIntact(l) && l.AllowsAll(actions)
    ensures |r| == |l.logs|
  {
    seq(|l.logs|, k requires 0 <= k < |l.logs| => Deliveries(l.logs[k], l.rec.store) + AskedIn(l, actions, k))
  }

  lemma DueAt(l: Layers, actions: seq<Action>, k: nat)
    requires AllIntact(l) && l.AllowsAll(actions) && k < |l.logs|
    ensures AllIntact(l.DoAll(actions))
    ensures Due(l, actions)[k] == Deliveries(l.DoAll(actions).logs[k], l.DoAll(actions).rec.store)
  {
    hide Deliveries, Layers.DoAll, AskedIn;
    ChannelDelivers(l, actions, k);
  }

  /** Every channel has one index for each index slot of its record. */
  ghost predicate Matched(l: Layers) {
    |l.logs| == |l.idxs| && forall k | 0 <= k < |l.logs| :: Slots(l.logs[k]) == |l.idxs[k]|
  }

  /** What the renderer of the merged list calls: all that was asked for, one channel after another. */
  lemma MergedDeliver(l: Layers, actions: seq<Action>)
    requires AllIntact(l) && l.AllowsAll(actions) && Matched(l.DoAll(actions))
    ensures
      var e := l.DoAll(actions);
      var drawn := Concat(Drawings(e.logs, e.idxs));
      Kept(Record(drawn), e.rec.store) && Deliveries(Record(drawn), e.rec.store) == Concat(Due(l, actions))
  {
    hide Deliveries, Layers.DoAll, Layers.AllowsAll, AllIntact, Drawings, Due, Kept, Record, Fill, Slots, Concat;
    IntactLayers(l);
    var e := l.DoAll(actions);
    forall k | 0 <= k < |l.logs|
      ensures Kept(e.logs[k], e.rec.store) && Due(l, actions)[k] == Deliveries(e.logs[k], e.rec.store)
    {
      DueAt(l, actions, k);
      IntactLayers(e);
    }
    ConcatDraws(e.logs, e.idxs);
    RecordOfFill(Concat(e.logs), Concat(e.idxs));
    ConcatDelivers(e.logs, e.rec.store);
    assert Due(l, actions) == EachDelivers(e.logs, e.rec.store);
  }
}
