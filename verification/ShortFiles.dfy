/**
 * Files short enough for every run to be safe, guarded or not.  An index queued and left behind
 * is harmful only 256 indices later; in a file of at most 488 chunks none is left behind early
 * enough for that.
 */
module ShortFiles {
  import opened Bytes
  import opened Packets
  import opened Files
  import opened Seqnums
  import opened Protocol
  import opened ProtocolTheorems
  import opened LooseQueues
  import S = SenderSpec
  import ST = SenderTheorems
  import R = ReceiverSpec
  import RT = ReceiverTheorems
  import LS = LateShrinks

  /**
   * The invariant of such runs once the order of the queue is not known any more.  The level of
   * an answer counts the shrinks of the window since the last delivery.
   */
  ghost predicate Roaming(crc: Checksum, file: File, y: System, g: Indices) {
    && Tracked(crc, file, y, g) && g.pace == LS.Coarse && 5 * g.h <= g.now.level
    && (!y.done ==> Settled(file, y.r, g.queued, g.h, g.now.level - 5 * g.h))
  }

  lemma ArrivalIsPlausible(crc: Checksum, file: File, y: System, g: Indices, stale: Buffer)
    requires Tracked(crc, file, y, g) && !y.done && y.data != []
    ensures g.data != []
    ensures var (st, p) := Decoded(crc, y.data[0], stale);
            Plausible(file, g.h, RT.Arrive(g.data[0], st, p))
  {
    hide IsPart, IsDataWire, ReplyWires, RT.Holding, Regular, Lagging, Tapers, Decoded;
    DataIsNear(crc, file, y, g);
    DataWireDecodes(crc, file, g.data[0], y.data[0], stale);
    PartKind(file, g.data[0], Decoded(crc, y.data[0], stale).1);
  }

  lemma ReceiveKeepsRoaming(crc: Checksum, file: File, y: System, g: Indices, stale: Buffer) returns (g': Indices)
    requires ChunkCount(file) <= 488 && Roaming(crc, file, y, g) && !y.done && y.data != []
    ensures Roaming(crc, file, ReceiveStep(crc, y, stale), g') && g'.lates == g.lates
  {
    hide IsPart, IsDataWire, DataWires, ReplyWires, RT.Holding, Regular, Lagging, Tapers, Decoded, R.Receive,
         R.WantsData, Mixed, Loose, Paced, Fronts, Plausible, ChunkCount, Wires, Linked, Calm, ST.Ready, Chain,
         LS.Lags;
    ArrivalIsPlausible(crc, file, y, g, stale);
    var (st, p) := Decoded(crc, y.data[0], stale);
    var e := RT.Arrive(g.data[0], st, p);
    HoldingSize(file, y.r, g.queued, g.h);
    ChainBounds(g);
    var n, h', k := ReceiveStaysSettled(file, y.r, g.queued, g.h, g.now.level - 5 * g.h, e);
    var mid := Mixed(y.r, g.queued, e);
    var now := LS.Notice(R.Receive(y.r, st, p).0.windowsize, h', 5 * h' + k);
    g' := ReceiveKeepsTrack(crc, file, y, g, stale, mid, n, now);
  }

  /** What the receiver knows does not change when nothing arrives. */
  lemma AsideStaysSettled(crc: Checksum, file: File, y: System, g: Indices, z: System, g': Indices)
    requires Shared(crc, file, z, g') && Aside(y, g, z, g') && !z.done
    requires 5 * g.h <= g.now.level && Settled(file, y.r, g.queued, g.h, g.now.level - 5 * g.h)
    ensures Settled(file, z.r, g'.queued, g'.h, g'.now.level - 5 * g'.h)
  {
    hide Carries, DataWires, ReplyWires, Tapers, Short, First, Prefix, Rising, Split, ChunkCount, ST.Ready;
    SameQueue(y.r, z.r);
  }

  lemma TrackedIsSane(crc: Checksum, file: File, y: System, g: Indices)
    requires Tracked(crc, file, y, g)
    ensures Sane(y)
  {
    hide Sane, DataWires, ReplyWires, RT.Holding, Regular, Lagging, Tapers;
  }

  lemma NextKeepsRoaming(crc: Checksum, file: File, y: System, g: Indices, e: Event) returns (g': Indices)
    requires file != [] && ChunkCount(file) <= 488 && Roaming(crc, file, y, g)
    ensures Roaming(crc, file, Next(crc, file, y, e), g')
  {
    hide Shared, Regular, Lagging, Calm, ReceiveStep, SendStep, ReadStep, AnswerStep, Sane, IsLate, Settled,
         ChunkCount, Young;
    g' := g;
    if e.Receive? {
      if !y.done && y.data != [] {
        g' := ReceiveKeepsRoaming(crc, file, y, g, e.stale);
      }
    } else {
      g' := OtherKeepsTrack(crc, file, y, g, e);
      if !y.done {
        TrackedIsSane(crc, file, y, g);
        AsideStaysSettled(crc, file, y, g, Next(crc, file, y, e), g');
      }
    }
  }

  // ---- Files of less than 256 chunks ----

  lemma InitialIsRoaming(crc: Checksum, file: File)
    requires ChunkCount(file) < 256
    ensures Roaming(crc, file, INITIAL, Origin(LS.Coarse))
  {
    hide Tracked, ChunkCount;
    InitialIsLinked(crc, file, LS.Coarse);
    assert Prefix(file, 0) == [];
  }

  // ---- Longer files: before index 256 is sent ----

  /** No index from 256 on was sent: every number is its index, and every insertion is safe. */
  ghost predicate Unwrapped(crc: Checksum, file: File, y: System, g: Indices) {
    && Linked(crc, file, y, g) && Sorted(y, g) && Young(y, g) && g.pace == LS.Exact
    && (!y.done ==> !Fronts(y.r))
  }

  lemma UnwrappedIsGuarded(crc: Checksum, file: File, y: System, g: Indices, e: Event)
    requires Unwrapped(crc, file, y, g)
    ensures Guarded(crc, y, e)
  {
    hide IsPart, IsDataWire, DataWires, ReplyWires, Prefix, ChunkCount, Parts, Chunk, Spread, Decoded, IsInWindow,
         Tapers, ST.Contiguous, RT.Increasing, Fronts;
    if e.Receive? && !y.done && y.data != [] {
      DataIsNear(crc, file, y, g);
      var (st, p) := Decoded(crc, y.data[0], e.stale);
      DataSize(crc, file, y, g);
      DataWireDecodes(crc, file, g.data[0], y.data[0], e.stale);
      PartKind(file, g.data[0], p);
      WindowTestOnIndices(g.h, y.r.windowsize, g.data[0]);
      RT.PartsNumber(file, g.queued, y.r.queue);
      if g.h <= g.data[0] {
        LowInsertIsSafe(g.h, y.r.windowsize, g.queued, y.r.queue, g.data[0]);
      }
    }
  }

  lemma LowInsertIsSafe(h: nat, windowsize: nat, idx: seq<int>, queue: seq<Packet>, x: nat)
    requires RT.Numbers(idx, queue) && RT.Between(idx, h, h + 32) && Under(idx, 256) && h <= x < 256
    ensures RT.InsertSafe(queue, Seqnum(h), windowsize, Seqnum(x))
  {
    if idx != [] {
      assert Seqnum(idx[|idx| - 1]) == idx[|idx| - 1];
    }
  }

  /** The final packet of such a file is not sent yet, so no shrink of the window is late. */
  lemma UnwrappedIsNotLate(crc: Checksum, file: File, y: System, g: Indices, e: Event)
    requires ChunkCount(file) >= 256 && Unwrapped(crc, file, y, g)
    ensures !IsLate(crc, y, e)
  {
    hide DataWires, ReplyWires, RT.Holding, ChunkCount, Parts, Spread, Decoded, Tapers, Fronts, ST.Ready;
  }

  // ---- Nothing deliverable is left behind ----

  /** The run ends in front of a packet without payload, or of one that does not come next. */
  lemma {:induction false} RunStopsAtFront(queue: seq<Packet>, head: nat)
    ensures var n := R.RunLength(queue, Seqnum(head));
            n < |queue| ==> queue[n].seqnum != Seqnum(head + n) || queue[n].length == 0
    decreases |queue|
  {
    hide Seqnum;
    if queue != [] && queue[0].seqnum == Seqnum(head) && queue[0].length != 0 {
      RT.NextSeqnum(head);
      RunStopsAtFront(queue[1..], head + 1);
    }
  }

  lemma FlushEmptiesFront(r: R.ReceiverState)
    ensures R.Flush(r).1 != -1 ==> !Fronts(R.Flush(r).0)
  {
    hide R.RunLength, R.Payloads;
    RunStopsAtFront(r.queue, r.seqnumHead);
    RT.AdvanceSeqnum(r.seqnumHead, R.RunLength(r.queue, r.seqnumHead));
    var n := R.RunLength(r.queue, r.seqnumHead);
    assert n < |r.queue| ==> R.Deliver(r, n).queue[0] == r.queue[n];
  }

  lemma NextEmptiesFront(crc: Checksum, file: File, y: System, e: Event)
    requires Sane(y) && (!y.done ==> !Fronts(y.r))
    ensures var z := Next(crc, file, y, e); !z.done ==> !Fronts(z.r)
  {
    hide R.Flush, R.ReceiveData, Decoded, Wires, S.SendPhase, S.Handle, ST.Ready, Cut, R.WantsData, Encodable, WireForm;
    if e.Receive? && !y.done && y.data != [] {
      var (st, p) := Decoded(crc, y.data[0], e.stale);
      FlushEmptiesFront(if R.WantsData(y.r) then R.ReceiveData(y.r, st, p).0 else y.r);
    }
  }

  // ---- When index 256 is sent ----

  /** How often a window has been halved at least. */
  function Halvings(window: nat): nat {
    if window >= 16 then 0 else if window >= 8 then 1 else if window >= 4 then 2 else 3
  }

  function Recast(n: LS.Notice): LS.Notice {
    n.(level := 5 * n.index + Halvings(n.window))
  }

  function RecastAll(c: seq<LS.Notice>): (d: seq<LS.Notice>)
    ensures |d| == |c| && forall k :: 0 <= k < |c| ==> d[k] == Recast(c[k])
  {
    seq(|c|, k requires 0 <= k < |c| => Recast(c[k]))
  }

  /** The same indices with the coarser measure. */
  function Recasted(g: Indices): Indices {
    g.(read := Recast(g.read), notices := RecastAll(g.notices), now := Recast(g.now), pace := LS.Coarse)
  }

  lemma HalvingsRise(v: nat, w: nat)
    ensures Halvings(w) <= 3
    ensures w <= v ==> Halvings(v) <= Halvings(w)
    ensures 4 <= v <= 31 && w <= v / 2 ==> Halvings(v) < Halvings(w)
  {
  }

  lemma RecastIsRelated(a: LS.Notice, b: LS.Notice)
    requires LS.Levelled(LS.Exact, a) && LS.Levelled(LS.Exact, b) && LS.Related(LS.Exact, a, b)
    requires a.window <= 31 && 1 <= b.window
    ensures LS.Levelled(LS.Coarse, Recast(a)) && LS.Related(LS.Coarse, Recast(a), Recast(b))
  {
    hide Halvings;
    HalvingsRise(a.window, b.window);
    HalvingsRise(b.window, a.window);
  }

  lemma ChainIsRecast(g: Indices)
    requires Tapers(LS.Exact, Chain(g)) && forall k :: 0 <= k < |Chain(g)| ==> 1 <= Chain(g)[k].window <= 31
    ensures Tapers(LS.Coarse, Chain(Recasted(g)))
  {
    hide LS.Related, LS.Levelled, Recast;
    var c, d := Chain(g), Chain(Recasted(g));
    assert forall k :: 0 <= k < |c| ==> d[k] == Recast(c[k]);
    forall j, k | 0 <= j < k < |d|
      ensures LS.Related(LS.Coarse, d[j], d[k])
    {
      RecastIsRelated(c[j], c[k]);
    }
    forall k | 0 <= k < |d|
      ensures LS.Levelled(LS.Coarse, d[k])
    {
      RelatedStays(LS.Exact, c[k]);
      RecastIsRelated(c[k], c[k]);
    }
  }

  lemma WindowsAreLegal(crc: Checksum, file: File, y: System, g: Indices)
    requires Linked(crc, file, y, g) && !y.done
    ensures forall k :: 0 <= k < |Chain(g)| ==> 1 <= Chain(g)[k].window <= 31
  {
    hide DataWires, Carries, Parts, ChunkCount, Spread, Tapers, ST.Ready, Prefix;
    forall k | 0 <= k < |Chain(g)|
      ensures 1 <= Chain(g)[k].window <= 31
    {
      if 0 < k < |Chain(g)| - 1 {
        assert Chain(g)[k] == g.notices[k - 1];
        assert IsReplyWire(crc, g.notices[k - 1].index, g.notices[k - 1].window, y.acks[k - 1]);
      }
    }
  }

  /**
   * The sender can have sent index 256 only with a window that reached it.  Either the receiver's
   * still does, or it has been halved since.
   */
  lemma SendReachesWrap(crc: Checksum, file: File, y: System, g: Indices)
    requires Linked(crc, file, y, g) && g.pace == LS.Exact && ST.NextIndex(y.s) > 256
    ensures g.h >= 226 && (g.h + g.now.window >= 256 || g.now.window <= g.h - 211)
  {
    hide DataWires, ReplyWires, RT.Holding, Parts, ChunkCount, Spread, Tapers, ST.Ready;
    ChainBounds(g);
  }

  lemma SortedIsSettled(file: File, r: R.ReceiverState, idx: seq<int>, h: nat)
    requires RT.Ordered(file, r, idx, h) && h <= ChunkCount(file) && !Fronts(r) && Under(idx, 256)
    requires h >= 226 && (h + r.windowsize >= 256 || r.windowsize <= h - 211)
    ensures Settled(file, r, idx, h, Halvings(r.windowsize))
  {
    hide Carries, Prefix, ChunkCount, Short, First, Fronts;
    RT.QueueIsShort(file, r, idx, h);
    HoldingSize(file, r, idx, h);
    FewAreShort(r);
    SortedIsSplit(idx);
  }

  lemma FewAreShort(r: R.ReceiverState)
    requires |r.queue| <= 33
    ensures Short(r)
  {
    hide Firsts;
  }

  lemma SortedIsSplit(idx: seq<int>)
    requires RT.Increasing(idx)
    ensures Split(idx) && Rising(idx)
  {
  }

  lemma RecastIsRoaming(crc: Checksum, file: File, y: System, g: Indices)
    requires Linked(crc, file, y, g) && Sorted(y, g) && Early(g) && g.pace == LS.Exact && ST.NextIndex(y.s) > 256
    requires !y.done && !Fronts(y.r)
    ensures Roaming(crc, file, y, Recasted(g))
  {
    hide DataWires, Carries, ST.Contiguous, ChunkCount, Spread, Tapers, Prefix, IsReplyWire, ST.Ready, RT.Increasing,
         RT.Between, Under, Paced, Loose, Fronts, LS.Related;
    WindowsAreLegal(crc, file, y, g);
    ChainIsRecast(g);
    SendReachesWrap(crc, file, y, g);
    SortedIsSettled(file, y.r, g.queued, g.h);
  }

  // ---- Whole runs ----

  /** Every state of every run of such a file has its indices. */
  ghost predicate Followed(crc: Checksum, file: File, y: System, g: Indices) {
    Roaming(crc, file, y, g) || (ChunkCount(file) >= 256 && Unwrapped(crc, file, y, g))
  }

  lemma NextKeepsUnwrapped(crc: Checksum, file: File, y: System, g: Indices, e: Event) returns (g': Indices)
    requires file != [] && ChunkCount(file) >= 256 && Unwrapped(crc, file, y, g)
    ensures Followed(crc, file, Next(crc, file, y, e), g')
  {
    hide Shared, Regular, Lagging, Young, Sorted, Sane, IsLate, ChunkCount, Guarded, Next, Roaming, Fronts, Early;
    UnwrappedIsGuarded(crc, file, y, g, e);
    UnwrappedIsNotLate(crc, file, y, g, e);
    TrackedIsSane(crc, file, y, g);
    NextEmptiesFront(crc, file, y, e);
    g' := NextKeepsLink(crc, file, y, g, e);
    var z := Next(crc, file, y, e);
    if ST.NextIndex(z.s) > 256 {
      NotDoneEarly(crc, file, z, g');
      RecastIsRoaming(crc, file, z, g');
      g' := Recasted(g');
    }
  }

  /** The end of such a file is not reached that early. */
  lemma NotDoneEarly(crc: Checksum, file: File, y: System, g: Indices)
    requires ChunkCount(file) >= 256 && Shared(crc, file, y, g) && Early(g)
    ensures !y.done
  {
    hide DataWires, ReplyWires, RT.Holding, ChunkCount, Tapers, Sane, Under;
  }

  lemma InitialIsUnwrapped(crc: Checksum, file: File)
    ensures Unwrapped(crc, file, INITIAL, Origin(LS.Exact))
  {
    hide Linked;
    InitialIsLinked(crc, file, LS.Exact);
  }

  lemma {:induction false} RunIsFollowed(crc: Checksum, file: File, events: seq<Event>) returns (g: Indices)
    requires file != [] && ChunkCount(file) <= 488
    ensures Followed(crc, file, Run(crc, file, events), g)
    decreases |events|
  {
    hide Roaming, Unwrapped, Next, ChunkCount;
    if events == [] {
      if ChunkCount(file) < 256 {
        InitialIsRoaming(crc, file);
        g := Origin(LS.Coarse);
      } else {
        InitialIsUnwrapped(crc, file);
        g := Origin(LS.Exact);
      }
    } else {
      var before, e := events[..|events| - 1], events[|events| - 1];
      g := RunIsFollowed(crc, file, before);
      if Roaming(crc, file, Run(crc, file, before), g) {
        g := NextKeepsRoaming(crc, file, Run(crc, file, before), g, e);
      } else {
        g := NextKeepsUnwrapped(crc, file, Run(crc, file, before), g, e);
      }
    }
  }
}
