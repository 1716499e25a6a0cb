/** The end-to-end promises of the protocol, over every run of Protocol. */
module EndToEnd {
  import opened Bytes
  import opened Packets
  import opened Files
  import opened Seqnums
  import opened Seqs
  import opened Protocol
  import opened ProtocolTheorems
  import CodecTheorems
  import S = SenderSpec
  import ST = SenderTheorems
  import R = ReceiverSpec
  import RT = ReceiverTheorems
  import ShortFiles

  /** stdout has been given exactly the first h chunks, and the receiver waits for the number of h. */
  predicate Delivered(file: File, y: System, h: nat) {
    y.r.output == Prefix(file, h) && y.r.seqnumHead == Seqnum(h)
  }

  /**
   * Prefix safety, truncation and late shrinks included, for every run on a file of at most 488
   * chunks and for every guarded run on any file: stdout has been given exactly the first
   * min(512 * h, size) bytes of the file.
   */
  lemma PrefixSafety(crc: Checksum, file: File, events: seq<Event>) returns (h: nat)
    requires ChunkCount(file) <= 488 || GuardedRun(crc, file, events)
    ensures Delivered(file, Run(crc, file, events), h)
  {
    hide Run, Sane, DataWires, ReplyWires, Regular, Lagging, RT.Increasing, Carries, RT.Between, GuardedRun, Tapers,
         ChunkCount, ShortFiles.Roaming, ShortFiles.Unwrapped;
    if file == [] {
      RunIsHollow(crc, events);
      h := Run(crc, file, events).r.seqnumHead;
    } else {
      var g := RunIsTracked(crc, file, events);
      h := g.h;
      PrefixIsWhole(file, h);
    }
  }

  lemma RunIsTracked(crc: Checksum, file: File, events: seq<Event>) returns (g: Indices)
    requires file != [] && (ChunkCount(file) <= 488 || GuardedRun(crc, file, events))
    ensures Tracked(crc, file, Run(crc, file, events), g)
  {
    hide Run, Shared, Regular, Lagging, GuardedRun, ChunkCount, Sorted, Young;
    if ChunkCount(file) <= 488 {
      g := ShortFiles.RunIsFollowed(crc, file, events);
    } else {
      g := RunIsLinked(crc, file, events);
    }
  }

  /**
   * The receiver has reported the end of file only with the whole file on stdout; the sender
   * has left because everything is acknowledged only after that.
   */
  predicate EndsWhole(file: File, y: System) {
    (y.done ==> y.r.output == file) && (y.phase.AllAcked? ==> y.done)
  }

  /** Completion, for the same runs, unless the file is empty. */
  lemma Completion(crc: Checksum, file: File, events: seq<Event>)
    requires file != [] && (ChunkCount(file) <= 488 || GuardedRun(crc, file, events))
    ensures EndsWhole(file, Run(crc, file, events))
  {
    hide Run, GuardedRun, Regular, Lagging, RT.Ordered, Tapers, ChunkCount;
    var g := RunIsTracked(crc, file, events);
  }

  /**
   * Every run without truncation is guarded, whatever is lost or repeated and whatever FEC
   * packets are mixed in: the walk of the sorted insertion is never misled.
   */
  lemma TruncationFreeIsGuarded(crc: Checksum, file: File, events: seq<Event>)
    requires file != [] && TruncationFree(events)
    ensures GuardedRun(crc, file, events)
  {
    hide GuardedRun, TruncationFree;
    var g := CalmRunIsLinked(crc, file, events);
  }

  /**
   * The indices behind a state, which agree with what is written out and with the sender's
   * counters, are so close to each other that the 8-bit tests decide their
   * comparisons: which data is new, where it belongs, and what an answer acknowledges.
   */
  ghost predicate Unaliased(crc: Checksum, file: File, y: System, g: Indices) {
    && Delivered(file, y, g.h) && ST.Contiguous(file, y.s, g.base)
    && DataWires(crc, file, g.data, y.data) && ReplyWires(crc, g.notices, y.acks)
    && (forall k :: 0 <= k < |g.data| ==>
          && g.h - 31 <= g.data[k] < g.h + y.r.windowsize
          && (IsInWindow(Seqnum(g.h), y.r.windowsize, Seqnum(g.data[k])) <==> g.h <= g.data[k]))
    && (forall k :: 0 <= k < |g.notices| ==> g.base <= g.notices[k].index <= g.h)
    && (y.s.list != [] ==>
          forall k :: 0 <= k < |g.notices| ==> ST.Acked(y.s, Seqnum(g.notices[k].index)) == g.notices[k].index - g.base)
    && (!y.done ==>
          && RT.Increasing(g.queued) && Carries(file, g.queued, y.r.queue)
          && RT.Between(g.queued, g.h, g.h + y.r.windowsize - 1)
          && forall k :: 0 <= k < |g.data| && g.h <= g.data[k] ==>
               RT.Belongs(g.queued, g.data[k],
                          R.Scan(y.r.queue, y.r.seqnumHead, y.r.windowsize, Seqnum(g.data[k]), 0)))
  }

  /** No sequence number stands for two indices, in any state of any run without truncation. */
  lemma NoAliasing(crc: Checksum, file: File, events: seq<Event>) returns (g: Indices)
    requires file != [] && TruncationFree(events)
    ensures Unaliased(crc, file, Run(crc, file, events), g)
  {
    hide Run, Seqnum, IsDataWire, IsReplyWire, RT.InsertSafe, Chunk, IsPart, R.Scan, RT.Belongs, TruncationFree,
         GuardedRun, IsInWindow, ST.Acked, Whole, Spread, Prefix, ChunkCount, RT.Increasing, Tapers;
    g := CalmRunIsLinked(crc, file, events);
    var y := Run(crc, file, events);
    CalmIsNarrow(crc, file, y, g);
    PrefixIsWhole(file, g.h);
    ChainBounds(g);
    forall k | 0 <= k < |g.data|
      ensures g.h - 31 <= g.data[k] < g.h + y.r.windowsize
      ensures IsInWindow(Seqnum(g.h), y.r.windowsize, Seqnum(g.data[k])) <==> g.h <= g.data[k]
      ensures !y.done && g.h <= g.data[k] ==>
                RT.Belongs(g.queued, g.data[k], R.Scan(y.r.queue, y.r.seqnumHead, y.r.windowsize, Seqnum(g.data[k]), 0))
    {
      WindowTestOnIndices(g.h, y.r.windowsize, g.data[k]);
      if !y.done && g.h <= g.data[k] {
        CloseInsertIsSafe(g.h, y.r.windowsize, g.queued, y.r.queue, g.data[k]);
        RT.SafeInsertIsRight(g.h, y.r.windowsize, g.queued, y.r.queue, g.data[k]);
      }
    }
    if y.s.list != [] {
      forall k | 0 <= k < |g.notices|
        ensures ST.Acked(y.s, Seqnum(g.notices[k].index)) == g.notices[k].index - g.base
      {
        AckMovesBase(file, y.s, g.base, g.notices[k].index);
      }
    }
  }

  /** Both ends can be trusted on this file, over the runs without truncation. */
  ghost predicate Completes(crc: Checksum, file: File) {
    forall events :: TruncationFree(events) ==>
      EndsWhole(file, Run(crc, file, events))
  }

  /**
   * They can exactly when the file is not empty: an empty file's final
   * packet is numbered 1, so the receiver never delivers it, and the very first
   * acknowledgement, of number 0, makes the sender drop it.
   */
  lemma CompletionExact(crc: Checksum, file: File)
    ensures Completes(crc, file) <==> file != []
  {
    hide Run, TruncationFree, GuardedRun;
    if file == [] {
      var events := EmptyFileRun(crc);
    } else {
      forall events | TruncationFree(events)
        ensures EndsWhole(file, Run(crc, file, events))
      {
        TruncationFreeIsGuarded(crc, file, events);
        Completion(crc, file, events);
      }
    }
  }

  /** The sender sends the final packet, the receiver answers, the sender reads that and leaves. */
  lemma EmptyFileRun(crc: Checksum) returns (events: seq<Event>)
    ensures TruncationFree(events)
    ensures var y := Run(crc, [], events); y.phase.AllAcked? && !y.done
  {
    hide Run, Next, Sane, IsReplyWire;
    var clock: S.Clock := _ => 0;
    var stale: Buffer := seq(PKT_MAX_LEN, _ => 0);
    events := ([Send(clock, clock)] + [Answer]) + [Read(stale)];
    RunNone(crc);
    RunStep(crc, [], [], Send(clock, clock));
    RunStep(crc, [], [Send(clock, clock)], Answer);
    RunStep(crc, [], [Send(clock, clock)] + [Answer], Read(stale));
    assert [] + [Send(clock, clock)] == [Send(clock, clock)];
    var y1 := Run(crc, [], [Send(clock, clock)]);
    EmptySend(crc, clock);
    EmptyAnswer(crc, y1);
    EmptyRead(crc, Run(crc, [], [Send(clock, clock)] + [Answer]), stale);
  }

  lemma RunNone(crc: Checksum)
    ensures Run(crc, [], []) == INITIAL && Sane(INITIAL)
  {
  }

  lemma RunStep(crc: Checksum, file: File, events: seq<Event>, e: Event)
    ensures Run(crc, file, events + [e]) == Next(crc, file, Run(crc, file, events), e)
  {
    hide Next;
    assert (events + [e])[..|events|] == events;
  }

  /** The sender's variables once the final packet of an empty file is queued. */
  function EmptySent(): S.SenderState {
    S.START.(eofReached := true, lastPkt := true, seqnumTail := 1, list := [S.Segment(1, 1, [], 0)])
  }

  lemma EmptyFill(clock: S.Clock)
    requires forall k :: clock(k) == 0
    ensures S.FillOrFinal([], S.START, clock).0 == EmptySent()
  {
    hide Encodable, AllSegments, S.Fill, S.FillSent;
    EmptyFillOnly(clock);
    assert [] + [S.Segment(1, 1, [], 0)] == [S.Segment(1, 1, [], 0)];
  }

  lemma EmptyFillOnly(clock: S.Clock)
    ensures S.FillSent([], S.START, clock) == [] && S.Fill([], S.START, clock) == S.START.(eofReached := true)
  {
    hide Encodable, Chunk, Seqnum, S.Segment;
    assert S.FillCount([], S.START) == 0;
    assert S.FirstFilled([], S.START, clock, 0) == [];
  }

  lemma EmptyResend(clock: S.Clock)
    requires forall k :: clock(k) == 0
    ensures S.Resend(EmptySent(), clock) == EmptySent()
  {
    var list := EmptySent().list;
    assert !S.TimedOut(list[0], clock(0));
    assert S.Refresh(list, clock) == list;
    assert S.FinalsResent(list, clock, 1) == S.FinalsResent(list, clock, 0) == 0;
  }

  lemma EmptySend(crc: Checksum, clock: S.Clock)
    requires forall k :: clock(k) == 0
    ensures Sane(INITIAL)
    ensures var y := Next(crc, [], INITIAL, Send(clock, clock));
            y.phase.Reading? && y.r == R.START && !y.done && y.acks == [] && y.s == EmptySent()
  {
    hide S.FillOrFinal, S.Resend, S.Resent, EmptySent;
    EmptyFill(clock);
    EmptyResend(clock);
    assert !S.GivesUp(EmptySent()) by {
      EmptySentStays();
    }
  }

  lemma EmptySentStays()
    ensures !S.GivesUp(EmptySent())
  {
  }

  lemma EmptyAnswer(crc: Checksum, y: System)
    requires Sane(y) && y.r == R.START && !y.done && y.acks == []
    ensures var z := Next(crc, [], y, Answer);
            z.phase == y.phase && z.s == y.s && !z.done && |z.acks| == 1 && z.acks[0] == WireForm(crc, R.AckOf(R.START))
  {
    AckOfIsReply(crc, R.START, 0);
  }

  lemma EmptyRead(crc: Checksum, y: System, stale: Buffer)
    requires Sane(y) && y.phase.Reading? && !y.done && |y.acks| == 1 && y.acks[0] == WireForm(crc, R.AckOf(R.START))
    requires y.s == EmptySent()
    ensures var z := Next(crc, [], y, Read(stale)); z.phase.AllAcked? && !z.done
  {
    hide DecodeInto;
    CodecTheorems.RoundTrip(crc, R.AckOf(R.START), stale[|y.acks[0]|..]);
    assert S.AckedCount(y.s.list, 0) == 1;
  }

  // ---- The empty file ----

  predicate NoPayload(p: Packet) {
    IsSegment(p) && p.payload == []
  }

  predicate AllHollow(ps: seq<Packet>) {
    forall k :: 0 <= k < |ps| ==> NoPayload(ps[k])
  }

  ghost predicate IsHollowWire(crc: Checksum, w: Wire) {
    exists p :: Encodable(p) && IsHollowForm(crc, p, w)
  }

  predicate IsHollowForm(crc: Checksum, p: Packet, w: Wire)
    requires Encodable(p)
  {
    if p.kind == Fec then w == WireForm(crc, p)
    else NoPayload(p) && (w == WireForm(crc, p) || w == Cut(WireForm(crc, p)))
  }

  ghost predicate HollowWires(crc: Checksum, ws: seq<Wire>) {
    forall k :: 0 <= k < |ws| ==> IsHollowWire(crc, ws[k])
  }

  /** With an empty file no packet anywhere carries a payload. */
  ghost predicate Hollow(crc: Checksum, y: System) {
    Sane(y) && AllHollow(y.s.list) && AllHollow(y.r.queue) && y.r.output == [] && HollowWires(crc, y.data)
  }

  lemma HollowSend(crc: Checksum, y: System, fillClock: S.Clock, resendClock: S.Clock)
    requires Hollow(crc, y) && y.phase.Sending?
    ensures Hollow(crc, SendStep(crc, [], y, fillClock, resendClock))
  {
    hide WireForm, IsHollowWire;
    var (s1, sent) := S.FillOrFinal([], y.s, fillClock);
    assert AllHollow(sent) && AllHollow(s1.list);
    var again := HollowResent(s1.list, resendClock, |s1.list|);
    ResentAreEncodable(s1, resendClock);
    HollowAreWires(crc, sent);
    HollowAreWires(crc, again);
    forall k | 0 <= k < |s1.list|
      ensures NoPayload(S.Refresh(s1.list, resendClock)[k])
    {
      assert NoPayload(s1.list[k]);
      assert S.Refresh(s1.list, resendClock)[k] == S.Refreshed(s1.list[k], resendClock(k));
    }
  }

  lemma {:induction false} HollowResent(list: seq<Packet>, clock: S.Clock, n: nat) returns (again: seq<Packet>)
    requires n <= |list| && AllHollow(list)
    ensures again == S.Resent(list, clock, n) && AllHollow(again)
  {
    again := S.Resent(list, clock, n);
    if n > 0 {
      var before := HollowResent(list, clock, n - 1);
      assert NoPayload(list[n - 1]);
    }
  }

  lemma HollowAreWires(crc: Checksum, ps: seq<Packet>)
    requires AllHollow(ps)
    ensures AllEncodable(ps) && HollowWires(crc, Wires(crc, ps))
  {
    hide WireForm;
    forall k | 0 <= k < |ps|
      ensures Encodable(ps[k]) && IsHollowWire(crc, WireForm(crc, ps[k]))
    {
      assert NoPayload(ps[k]);
      assert IsHollowForm(crc, ps[k], WireForm(crc, ps[k]));
    }
  }

  lemma HollowRead(crc: Checksum, y: System, stale: Buffer)
    requires Hollow(crc, y) && y.phase.Reading? && y.acks != []
    ensures Hollow(crc, ReadStep(crc, y, stale))
  {
    hide NoPayload, IsHollowWire, Decoded;
    var (st, p) := Decoded(crc, y.acks[0], stale);
    ST.DecodedWindow(crc, Arrived(y.acks[0], stale), |y.acks[0]|);
    var s1 := S.UpdateWindow(y.s.(lastRst := 0), p.window);
    assert AllHollow(s1.list);
  }

  lemma HollowReceive(crc: Checksum, y: System, stale: Buffer)
    requires Hollow(crc, y) && y.data != []
    ensures Hollow(crc, ReceiveStep(crc, y, stale))
  {
    hide Decoded, WireForm, IsHollowWire, R.Scan, IsInWindow;
    var (st, p) := Decoded(crc, y.data[0], stale);
    HollowWireDecodes(crc, y.data[0], stale);
    HollowTake(y.r, st, p);
    var r1 := if R.WantsData(y.r) then R.ReceiveData(y.r, st, p).0 else y.r;
    HollowFlush(r1);
  }

  lemma HollowWireDecodes(crc: Checksum, w: Wire, stale: Buffer)
    requires IsHollowWire(crc, w)
    ensures var (st, p) := Decoded(crc, w, stale);
            (st == Ok && p.tr == 0 && (NoPayload(p) || p.kind == Fec)) || (p.kind == Data && p.tr == 1)
  {
    hide DecodeInto;
    var p :| Encodable(p) && IsHollowForm(crc, p, w);
    if w == WireForm(crc, p) {
      CodecTheorems.RoundTrip(crc, p, stale[|w|..]);
    } else {
      CutDecodes(crc, p, stale);
    }
  }

  lemma HollowTake(r: R.ReceiverState, st: Status, p: Packet)
    requires r.windowsize <= MAX_WINDOW_SIZE && AllHollow(r.queue)
    requires (st == Ok && p.tr == 0 && (NoPayload(p) || p.kind == Fec)) || (p.kind == Data && p.tr == 1)
    ensures var r1 := R.ReceiveData(r, st, p).0; AllHollow(r1.queue) && r1.output == r.output
  {
    hide R.Scan, IsInWindow, NoPayload, AllHollow;
    HollowFront(r.queue, Min(|r.queue|, r.windowsize / 2));
    if R.PlaceOf(r, p).Before? && NoPayload(p) {
      HollowInsert(r.queue, R.PlaceOf(r, p).k, p);
    }
  }

  lemma HollowFront(queue: seq<Packet>, n: nat)
    requires AllHollow(queue) && n <= |queue|
    ensures AllHollow(queue[..n])
  {
  }

  lemma HollowInsert(queue: seq<Packet>, k: nat, p: Packet)
    requires AllHollow(queue) && NoPayload(p) && k <= |queue|
    ensures AllHollow(Counted(InsertAt(queue, k, p)))
  {
    hide NoPayload;
  }

  lemma HollowFlush(r: R.ReceiverState)
    requires AllHollow(r.queue)
    ensures var r1 := R.Flush(r).0; r1.queue == r.queue && r1.output == r.output
  {
    if r.queue != [] {
      assert NoPayload(r.queue[0]);
    }
    assert R.RunLength(r.queue, r.seqnumHead) == 0;
  }

  lemma HollowCut(crc: Checksum, w: Wire)
    requires IsHollowWire(crc, w)
    ensures IsHollowWire(crc, Cut(w))
  {
    hide WireForm, NoPayload;
    var p :| Encodable(p) && IsHollowForm(crc, p, w);
    WireStart(crc, p);
    assert IsHollowForm(crc, p, Cut(w));
  }

  lemma HollowNext(crc: Checksum, y: System, e: Event)
    requires Hollow(crc, y)
    ensures Hollow(crc, Next(crc, [], y, e))
  {
    hide SendStep, ReadStep, ReceiveStep, NoPayload, WireForm, ST.Ready, Cut;
    match e {
      case Send(fillClock, resendClock) =>
        if y.phase.Sending? {
          HollowSend(crc, y, fillClock, resendClock);
        }
      case Read(stale) =>
        if y.phase.Reading? && y.acks != [] {
          HollowRead(crc, y, stale);
        }
      case Receive(stale) =>
        if !y.done && y.data != [] {
          HollowReceive(crc, y, stale);
        }
      case InsertFec(k, p) =>
        if Encodable(p) && p.kind == Fec {
          assert IsHollowForm(crc, p, WireForm(crc, p));
        }
      case CutData(k) =>
        if k < |y.data| {
          HollowCut(crc, y.data[k]);
        }
      case _ =>
    }
  }

  lemma {:induction false} RunIsHollow(crc: Checksum, events: seq<Event>)
    ensures Hollow(crc, Run(crc, [], events))
    decreases |events|
  {
    hide Next;
    if events != [] {
      var before := events[..|events| - 1];
      RunIsHollow(crc, before);
      HollowNext(crc, Run(crc, [], before), events[|events| - 1]);
    }
  }
}
