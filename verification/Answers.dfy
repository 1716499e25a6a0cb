/**
 * What the receiver owes the sender, over runs: as long as it runs it takes in every datagram,
 * and it acknowledges what it takes in.
 */
module Answers {
  import opened Bytes
  import opened Packets
  import opened Files
  import opened Seqnums
  import opened Seqs
  import opened Protocol
  import opened ProtocolTheorems
  import opened LooseQueues
  import opened ShortFiles
  import opened EndToEnd
  import R = ReceiverSpec
  import RT = ReceiverTheorems
  import S = SenderSpec
  import ST = SenderTheorems

  // ---- What the other variables say of the queue ----

  /** A packet without payload and of this number is queued. */
  predicate EndQueued(queue: seq<Packet>, seqnum: Byte) {
    exists k :: 0 <= k < |queue| && queue[k].seqnum == seqnum && queue[k].length == 0
  }

  /** seqnumTail is the number of the last packet queued, or of the head when none is. */
  predicate TailNamed(r: R.ReceiverState) {
    r.seqnumTail == if r.queue == [] then r.seqnumHead else r.queue[|r.queue| - 1].seqnum
  }

  /** eofReached speaks of a packet in the queue. */
  predicate EndMarked(r: R.ReceiverState) {
    r.eofReached ==> EndQueued(r.queue, r.eofSeqnum)
  }

  predicate Marked(r: R.ReceiverState) {
    EndMarked(r) && TailNamed(r)
  }

  lemma TakeStaysMarked(r: R.ReceiverState, st: Status, p: Packet)
    requires r.windowsize <= MAX_WINDOW_SIZE && Marked(r) && |r.queue| < 255
    ensures Marked(R.ReceiveData(r, st, p).0)
  {
    hide IsInWindow, EndMarked, TailNamed, R.AcceptData, R.DecreaseWindow;
    AcceptStaysMarked(r, p);
    AcceptStaysNamed(r, p);
    DecreaseStaysMarked(r);
  }

  lemma AcceptStaysMarked(r: R.ReceiverState, p: Packet)
    requires EndMarked(r) && |r.queue| < 255
    ensures EndMarked(R.AcceptData(r, p))
  {
    hide IsInWindow, R.Scan, EndQueued;
    if R.PlaceOf(r, p).Before? {
      InsertStaysQueued(r.queue, R.PlaceOf(r, p).k, p, r.eofSeqnum);
    }
  }

  lemma AcceptStaysNamed(r: R.ReceiverState, p: Packet)
    requires TailNamed(r) && |r.queue| < 255
    ensures TailNamed(R.AcceptData(r, p))
  {
    hide IsInWindow, R.Scan, R.AddIncreasing;
    AddStaysNamed(r, p);
  }

  lemma AddStaysNamed(r: R.ReceiverState, p: Packet)
    requires TailNamed(r) && |r.queue| < 255
    ensures TailNamed(R.AddIncreasing(r, p))
  {
    hide R.Scan;
    if R.PlaceOf(r, p).Before? {
      var more := InsertAt(r.queue, R.PlaceOf(r, p).k, p);
      assert more[|r.queue|] == if R.PlaceOf(r, p).k == |r.queue| then p else r.queue[|r.queue| - 1];
    }
  }

  lemma DecreaseStaysMarked(r: R.ReceiverState)
    requires Marked(r)
    ensures Marked(R.DecreaseWindow(r))
  {
    hide EndQueued;
  }

  lemma InsertStaysQueued(queue: seq<Packet>, k: nat, p: Packet, seqnum: Byte)
    requires k <= |queue|
    ensures EndQueued(queue, seqnum) ==> EndQueued(InsertAt(queue, k, p), seqnum)
    ensures p.length == 0 ==> EndQueued(InsertAt(queue, k, p), p.seqnum)
  {
    var more := InsertAt(queue, k, p);
    assert more[k] == p;
    if EndQueued(queue, seqnum) {
      var j :| 0 <= j < |queue| && queue[j].seqnum == seqnum && queue[j].length == 0;
      assert more[if j < k then j else j + 1] == queue[j];
    }
  }

  lemma {:induction false} RunHasPayloads(queue: seq<Packet>, head: Byte)
    ensures forall k :: 0 <= k < R.RunLength(queue, head) ==> queue[k].length != 0
    decreases |queue|
  {
    if queue != [] && queue[0].seqnum == head && queue[0].length != 0 {
      RunHasPayloads(queue[1..], (head + 1) % 256);
      assert forall k :: 0 < k < R.RunLength(queue, head) ==> queue[k] == queue[1..][k - 1];
    }
  }

  lemma FlushStaysMarked(r: R.ReceiverState)
    requires Marked(r)
    ensures Marked(R.Flush(r).0)
  {
    hide R.RunLength, R.Payloads, TailNamed;
    var n := R.RunLength(r.queue, r.seqnumHead);
    FlushStaysNamed(r);
    RunHasPayloads(r.queue, r.seqnumHead);
    if r.eofReached {
      var k :| 0 <= k < |r.queue| && r.queue[k].seqnum == r.eofSeqnum && r.queue[k].length == 0;
      assert R.Deliver(r, n).queue == r.queue[n..];
      assert r.queue[n..][k - n] == r.queue[k];
    }
  }

  lemma FlushStaysNamed(r: R.ReceiverState)
    requires TailNamed(r)
    ensures TailNamed(R.Flush(r).0)
  {
    hide R.RunLength, R.Payloads;
    var n := R.RunLength(r.queue, r.seqnumHead);
    assert n < |r.queue| ==> r.queue[n..][|r.queue| - n - 1] == r.queue[|r.queue| - 1];
  }

  lemma NextStaysMarked(crc: Checksum, file: File, y: System, e: Event)
    requires Sane(y) && Marked(y.r) && |y.r.queue| < 255
    ensures Marked(Next(crc, file, y, e).r)
  {
    hide R.Flush, R.ReceiveData, Decoded, Wires, S.SendPhase, S.Handle, ST.Ready, Cut, R.WantsData, Encodable, WireForm,
         EndQueued;
    if e.Receive? && !y.done && y.data != [] {
      var (st, p) := Decoded(crc, y.data[0], e.stale);
      TakeStaysMarked(y.r, st, p);
      FlushStaysMarked(if R.WantsData(y.r) then R.ReceiveData(y.r, st, p).0 else y.r);
    }
  }

  // ---- The receiver of an empty file ----

  /** It waits for number 0, which never comes, with a window of 1. */
  predicate Idle(r: R.ReceiverState) {
    r.seqnumHead == 0 && r.windowsize == 1 && OneAndTwo(r.queue)
  }

  /** Of the numbers 1 and 2 each is queued at most once, in order. */
  predicate OneAndTwo(queue: seq<Packet>) {
    && |queue| <= 2
    && (forall k :: 0 <= k < |queue| ==> 1 <= queue[k].seqnum <= 2)
    && (|queue| == 2 ==> queue[0].seqnum == 1 && queue[1].seqnum == 2)
  }

  lemma OneAndTwoInsert(queue: seq<Packet>, k: nat, p: Packet)
    requires OneAndTwo(queue) && |queue| <= 1 && k <= |queue| && 1 <= p.seqnum <= 2
    requires forall j :: 0 <= j < k ==> queue[j].seqnum < p.seqnum
    requires forall j :: k <= j < |queue| ==> p.seqnum < queue[j].seqnum
    ensures OneAndTwo(Counted(InsertAt(queue, k, p)))
  {
  }

  lemma IdleScan(r: R.ReceiverState, x: Byte)
    requires Idle(r) && x <= 2
    ensures var place := R.Scan(r.queue, 0, 1, x, 0);
            && (x == 0 ==> place == R.Before(0))
            && (place.Before? && x > 0 ==> |r.queue| <= 1 && (forall k :: 0 <= k < place.k ==> r.queue[k].seqnum < x)
                                           && forall k :: place.k <= k < |r.queue| ==> x < r.queue[k].seqnum)
  {
    if |r.queue| >= 1 {
      assert R.Scan(r.queue, 0, 1, x, 1) == if |r.queue| == 1 then R.Before(1) else R.Scan(r.queue, 0, 1, x, 1);
    }
  }

  lemma AcceptStaysIdle(r: R.ReceiverState, p: Packet)
    requires Idle(r)
    ensures Idle(R.AcceptData(r, p)) || Fronts(R.AcceptData(r, p))
  {
    hide IsInWindow, R.Scan, Distance, OneAndTwo;
    if IsInWindow(0, 1, p.seqnum) {
      WindowTestExact(0, 1, p.seqnum);
      DistanceValue(0, p.seqnum);
      IdleScan(r, p.seqnum);
      IdleIsShort(r);
      if R.PlaceOf(r, p).Before? && p.seqnum > 0 {
        OneAndTwoInsert(r.queue, R.PlaceOf(r, p).k, p);
      }
    }
  }

  lemma FlushOfNothing(r: R.ReceiverState)
    requires AllHollow(r.queue)
    ensures if Fronts(r) then R.Flush(r).1 == -1
            else R.Flush(r).1 == 0 && R.Flush(r).0.queue == r.queue && R.Flush(r).0.seqnumHead == r.seqnumHead
  {
    if r.queue != [] {
      assert NoPayload(r.queue[0]);
    }
  }

  lemma ReceiveStaysIdle(crc: Checksum, y: System, stale: Buffer)
    requires Hollow(crc, y) && y.data != [] && Idle(y.r) && !Fronts(y.r)
    ensures var z := ReceiveStep(crc, y, stale); !z.done ==> Idle(z.r)
  {
    hide Decoded, WireForm, IsHollowWire, R.AcceptData, IsInWindow, Idle, Wires, ST.Ready, R.Flush, AllHollow;
    var (st, p) := Decoded(crc, y.data[0], stale);
    HollowWireDecodes(crc, y.data[0], stale);
    HollowTake(y.r, st, p);
    AcceptStaysIdle(y.r, p);
    var r1 := if R.WantsData(y.r) then R.ReceiveData(y.r, st, p).0 else y.r;
    IdleHalves(y.r);
    FlushOfNothing(r1);
    if !Fronts(r1) {
      SameIdle(r1, R.Flush(r1).0);
    }
  }

  lemma IdleHalves(r: R.ReceiverState)
    requires Idle(r)
    ensures R.DecreaseWindow(r) == r
  {
  }

  lemma SameIdle(r: R.ReceiverState, r1: R.ReceiverState)
    requires r1.queue == r.queue && r1.seqnumHead == r.seqnumHead && r1.windowsize == r.windowsize
    ensures Idle(r) ==> Idle(r1)
  {
  }

  // ---- Whole runs ----

  /** The end of the file is not missed, and the packet awaited is not queued. */
  predicate Watchful(r: R.ReceiverState) {
    Marked(r) && |r.queue| <= 33 && forall k :: 0 <= k < |r.queue| ==> r.queue[k].seqnum != r.seqnumHead
  }

  /** In a sorted queue the packet awaited could only be at the front. */
  lemma SortedIsWatchful(file: File, r: R.ReceiverState, idx: seq<int>, h: nat)
    requires RT.Ordered(file, r, idx, h) && Marked(r) && !Fronts(r)
    ensures Watchful(r)
  {
    hide EndQueued, Prefix, Carries, RT.Increasing, RT.Between, Seqnum;
    RT.QueueIsShort(file, r, idx, h);
    RT.PartsNumber(file, idx, r.queue);
    forall k | 0 <= k < |r.queue|
      ensures r.queue[k].seqnum != r.seqnumHead
    {
      SortedNumber(idx, h, k);
    }
  }

  lemma SortedNumber(idx: seq<int>, h: nat, k: nat)
    requires RT.Increasing(idx) && RT.Between(idx, h, h + 32) && k < |idx| && Seqnum(idx[0]) != Seqnum(h)
    ensures Seqnum(idx[k]) != Seqnum(h)
  {
    hide Seqnum;
    RT.SameNumber(h, h, idx[0]);
    RT.SameNumber(h, h, idx[k]);
    assert k > 0 ==> idx[0] < idx[k];
  }

  lemma {:induction false} RunIsMarked(crc: Checksum, file: File, events: seq<Event>)
    requires file != [] && GuardedRun(crc, file, events)
    ensures var y := Run(crc, file, events); !y.done ==> Marked(y.r) && !Fronts(y.r)
    decreases |events|
  {
    hide Next, Marked, Guarded, Fronts, Tracked, RT.Ordered;
    if events == [] {
      StartIsMarked();
    } else {
      var before, e := events[..|events| - 1], events[|events| - 1];
      var y := Run(crc, file, before);
      RunIsMarked(crc, file, before);
      DoneStays(crc, file, y, e);
      if !y.done {
        var g := RunIsLinked(crc, file, before);
        RunIsOrdered(crc, file, y, g);
        RT.QueueIsShort(file, y.r, g.queued, g.h);
        NextStaysMarked(crc, file, y, e);
        NextEmptiesFront(crc, file, y, e);
      }
    }
  }

  lemma StartIsMarked()
    ensures Marked(R.START) && !Fronts(R.START)
  {
  }

  lemma DoneStays(crc: Checksum, file: File, y: System, e: Event)
    requires Sane(y)
    ensures y.done ==> Next(crc, file, y, e).done
  {
    hide S.SendPhase, S.Handle, Decoded, ST.Ready, Cut, Encodable, WireForm;
  }

  lemma RunIsOrdered(crc: Checksum, file: File, y: System, g: Indices)
    requires Tracked(crc, file, y, g) && Sorted(y, g) && !y.done
    ensures RT.Ordered(file, y.r, g.queued, g.h)
  {
    hide DataWires, ReplyWires, Regular, Lagging, Tapers, Carries, Prefix;
  }

  lemma {:induction false} RunIsIdle(crc: Checksum, events: seq<Event>)
    ensures var y := Run(crc, [], events); !y.done ==> Idle(y.r) && Marked(y.r)
    decreases |events|
  {
    hide Next, Marked, Idle, Hollow;
    if events == [] {
      StartIsMarked();
      StartIsIdle();
    } else {
      var before, e := events[..|events| - 1], events[|events| - 1];
      RunIsIdle(crc, before);
      RunIsHollow(crc, before);
      NextStaysIdle(crc, Run(crc, [], before), e);
    }
  }

  lemma StartIsIdle()
    ensures Idle(R.START)
  {
  }

  lemma NextStaysIdle(crc: Checksum, y: System, e: Event)
    requires Hollow(crc, y) && (!y.done ==> Idle(y.r) && Marked(y.r))
    ensures var z := Next(crc, [], y, e); !z.done ==> Idle(z.r) && Marked(z.r)
  {
    hide ReceiveStep, SendStep, ReadStep, Marked, Idle, AllHollow, HollowWires, Encodable, Cut;
    DoneStays(crc, [], y, e);
    if !y.done {
      IdleIsShort(y.r);
      NextStaysMarked(crc, [], y, e);
      if e.Receive? && y.data != [] {
        ReceiveStaysIdle(crc, y, e.stale);
      } else {
        AsideStaysIdle(crc, y, e);
      }
    }
  }

  lemma IdleIsShort(r: R.ReceiverState)
    requires Idle(r)
    ensures |r.queue| <= 2 && !Fronts(r) && forall k :: 0 <= k < |r.queue| ==> r.queue[k].seqnum != r.seqnumHead
  {
  }

  lemma AsideStaysIdle(crc: Checksum, y: System, e: Event)
    requires Sane(y) && Idle(y.r) && (!e.Receive? || y.data == [])
    ensures Idle(Next(crc, [], y, e).r)
  {
    hide Cut, Encodable, WireForm, S.SendPhase, S.Handle, Decoded;
  }

  lemma RunIsWatchful(crc: Checksum, file: File, events: seq<Event>)
    requires GuardedRun(crc, file, events)
    ensures var y := Run(crc, file, events); !y.done ==> Watchful(y.r)
  {
    hide Run, GuardedRun, Marked, Fronts, Idle, Tracked, RT.Ordered;
    var y := Run(crc, file, events);
    if file == [] {
      RunIsIdle(crc, events);
      if !y.done {
        IdleIsShort(y.r);
      }
    } else if !y.done {
      RunIsMarked(crc, file, events);
      var g := RunIsLinked(crc, file, events);
      RunIsOrdered(crc, file, y, g);
      SortedIsWatchful(file, y.r, g.queued, g.h);
    }
  }

  /** In every guarded run seqnumTail names the end of the queue. */
  lemma TailIsLast(crc: Checksum, file: File, events: seq<Event>)
    requires GuardedRun(crc, file, events)
    ensures var r := Run(crc, file, events).r;
            !Run(crc, file, events).done ==>
              r.seqnumTail == if r.queue == [] then r.seqnumHead else r.queue[|r.queue| - 1].seqnum
  {
    hide Run, GuardedRun, EndQueued;
    RunIsWatchful(crc, file, events);
  }

  lemma WatchfulReads(r: R.ReceiverState)
    requires Watchful(r)
    ensures R.WantsData(r)
  {
  }

  /**
   * In every guarded run a receiver that has not left takes in the datagram at the front of the
   * channel, whatever is queued and however often the window was halved.
   */
  lemma EveryDatagramIsTaken(crc: Checksum, file: File, events: seq<Event>, stale: Buffer)
    requires GuardedRun(crc, file, events)
    requires var y := Run(crc, file, events); !y.done && y.data != []
    ensures var y := Run(crc, file, events); Next(crc, file, y, Receive(stale)).data == y.data[1..]
  {
    hide Run, GuardedRun, Watchful, R.WantsData, R.Receive, Decoded, Wires;
    RunIsWatchful(crc, file, events);
    WatchfulReads(Run(crc, file, events).r);
  }

  // ---- Acknowledgements ----

  /** The acknowledgement of everything before number n, as a packet. */
  function Acknowledgement(n: Byte, window: Byte, timestamp: Word): (p: Packet)
    requires window <= MAX_WINDOW_SIZE
    ensures Encodable(p)
  {
    Packet(Ack, 0, window, 0, n, timestamp, 0, [], 0)
  }

  predicate IsCompleteData(st: Status, p: Packet) {
    st == Ok && p.kind == Data && p.tr == 0
  }

  lemma FlushAtRest(r: R.ReceiverState)
    requires !Fronts(r)
    ensures R.Flush(r) == (r.(resentAck := r.resentAck || r.queue == []), 0)
  {
  }

  /** A packet other than the one awaited is queued, queued already or not wanted: each is to be answered. */
  lemma TakesStray(r: R.ReceiverState, p: Packet)
    requires Watchful(r) && p.seqnum != r.seqnumHead
    ensures var r1 := R.AcceptData(r, p);
            && r1.resentAck && !Fronts(r1) && r1.seqnumHead == r.seqnumHead && r1.output == r.output
            && r1.windowsize == r.windowsize && r1.lastTimestamp == r.lastTimestamp
  {
    hide IsInWindow, R.Scan, EndQueued;
  }

  lemma AnswerIsAcknowledgement(crc: Checksum, file: File, y: System)
    requires Sane(y) && !y.done
    ensures var z := Next(crc, file, y, Answer);
            var ack := Acknowledgement(y.r.seqnumHead, y.r.windowsize, y.r.lastTimestamp);
            && z.acks == y.acks + (if y.r.resentAck then [WireForm(crc, ack)] else [])
            && Next(crc, file, z, Answer) == z
  {
    hide WireForm, ST.Ready;
    NoWires(crc, y.acks);
    if y.r.resentAck {
      assert Wires(crc, [R.AckOf(y.r)]) == [WireForm(crc, R.AckOf(y.r))];
    }
    NoWires(crc, Next(crc, file, y, Answer).acks);
  }

  /**
   * In every guarded run a complete DATA packet that is not the one awaited, whether it is
   * queued, was queued before or is out of the window, is followed by one acknowledgement of
   * what has been delivered, and by no more than one.
   */
  lemma StrayIsAnswered(crc: Checksum, file: File, events: seq<Event>, stale: Buffer) returns (h: nat)
    requires GuardedRun(crc, file, events)
    requires var y := Run(crc, file, events);
             && !y.done && y.data != []
             && var (st, p) := Decoded(crc, y.data[0], stale);
                IsCompleteData(st, p) && p.seqnum != y.r.seqnumHead
    ensures var y := Run(crc, file, events);
            var z := Next(crc, file, y, Receive(stale));
            var a := Next(crc, file, z, Answer);
            && !z.done && z.acks == y.acks && z.r.output == y.r.output
            && Delivered(file, z, h) && z.r.windowsize <= MAX_WINDOW_SIZE
            && a.acks == z.acks + [WireForm(crc, Acknowledgement(Seqnum(h), z.r.windowsize, z.r.lastTimestamp))]
            && Next(crc, file, a, Answer) == a
  {
    hide Run, GuardedRun, Watchful, R.WantsData, R.Flush, R.AcceptData, Decoded, WireForm, Seqnum, Prefix, ST.Ready;
    var y := Run(crc, file, events);
    var (st, p) := Decoded(crc, y.data[0], stale);
    h := PrefixOfGuarded(crc, file, events);
    RunIsWatchful(crc, file, events);
    WatchfulReads(y.r);
    TakesStray(y.r, p);
    FlushAtRest(R.AcceptData(y.r, p));
    NoWires(crc, y.acks);
    var z := Next(crc, file, y, Receive(stale));
    AnswerIsAcknowledgement(crc, file, z);
  }

  lemma PrefixOfGuarded(crc: Checksum, file: File, events: seq<Event>) returns (h: nat)
    requires GuardedRun(crc, file, events)
    ensures Delivered(file, Run(crc, file, events), h)
  {
    hide Run, GuardedRun, Delivered;
    h := PrefixSafety(crc, file, events);
  }

  /** flush_file with the packet awaited at the front: what it keeps, and the timestamp an answer will echo. */
  lemma FlushEchoes(r: R.ReceiverState)
    requires Fronts(r)
    ensures var (r1, written) := R.Flush(r);
            && |r1.queue| <= |r.queue| && r1.queue == r.queue[|r.queue| - |r1.queue|..]
            && r1.windowsize == r.windowsize
            && if written == -1
               then r1.queue != [] && r1.queue[0].length == 0 && r1.seqnumHead == (r1.queue[0].seqnum + 1) % 256
                    && r1.lastTimestamp == r1.queue[0].timestamp
               else |r1.queue| < |r.queue| && r1.lastTimestamp == r.queue[|r.queue| - |r1.queue| - 1].timestamp
                    && (r1.resentAck <==> r.resentAck || r1.queue == [])
  {
    hide R.Payloads, R.RunLength;
    RunMoves(r.queue, r.seqnumHead);
    assert r.queue[0..] == r.queue;
  }

  lemma RunMoves(queue: seq<Packet>, head: Byte)
    requires queue != [] && queue[0].seqnum == head
    ensures R.RunLength(queue, head) == 0 <==> queue[0].length == 0
  {
  }

  /** Where the packet awaited goes when the walk is safe. */
  lemma AwaitedGoesFirst(crc: Checksum, file: File, events: seq<Event>, p: Packet)
    requires GuardedRun(crc, file, events)
    requires var y := Run(crc, file, events);
             && !y.done && p.seqnum == y.r.seqnumHead
             && (IsInWindow(y.r.seqnumHead, y.r.windowsize, p.seqnum) ==>
                   RT.InsertSafe(y.r.queue, y.r.seqnumHead, y.r.windowsize, p.seqnum))
    ensures var r := Run(crc, file, events).r;
            IsInWindow(r.seqnumHead, r.windowsize, p.seqnum) && R.PlaceOf(r, p) == R.Before(0)
  {
    hide Run, GuardedRun, RT.InsertSafe, R.Scan, Seqnum, Tracked, Carries, Prefix;
    var y := Run(crc, file, events);
    HeadIsWanted(y.r.seqnumHead, y.r.windowsize);
    if file == [] {
      RunIsIdle(crc, events);
      IdleScan(y.r, 0);
    } else {
      var g := RunIsLinked(crc, file, events);
      RunIsOrdered(crc, file, y, g);
      RT.PartsNumber(file, g.queued, y.r.queue);
      RT.SafeInsertIsRight(g.h, y.r.windowsize, g.queued, y.r.queue, g.h);
      RunIsMarked(crc, file, events);
      NotQueued(g.queued, g.h, y.r.queue);
    }
  }

  lemma HeadIsWanted(head: Byte, windowsize: nat)
    requires 1 <= windowsize <= MAX_WINDOW_SIZE
    ensures IsInWindow(head, windowsize, head)
  {
  }

  lemma NotQueued(idx: seq<int>, h: nat, queue: seq<Packet>)
    requires RT.Increasing(idx) && RT.Between(idx, h, h + 32) && RT.Numbers(idx, queue)
    requires queue != [] ==> queue[0].seqnum != Seqnum(h)
    ensures h !in idx
  {
    hide Seqnum;
    if h in idx {
      var k :| 0 <= k < |idx| && idx[k] == h;
      SortedNumber(idx, h, k);
    }
  }

  lemma TakesAwaited(r: R.ReceiverState, p: Packet)
    requires |r.queue| <= 33 && p.seqnum == r.seqnumHead
    requires IsInWindow(r.seqnumHead, r.windowsize, p.seqnum) && R.PlaceOf(r, p) == R.Before(0)
    ensures var r1 := R.AcceptData(r, p);
            r1.queue == [p] + r.queue && !r1.resentAck && Fronts(r1)
  {
    hide IsInWindow, R.Scan;
  }

  /** The packet awaited on the receiver's variables. */
  lemma ReceivesAwaited(r: R.ReceiverState, p: Packet)
    requires Watchful(r) && 1 <= r.windowsize <= MAX_WINDOW_SIZE && IsCompleteData(Ok, p) && p.seqnum == r.seqnumHead
    requires IsInWindow(r.seqnumHead, r.windowsize, p.seqnum) && R.PlaceOf(r, p) == R.Before(0)
    ensures var (r1, replies, left) := R.Receive(r, Ok, p);
            var all := [p] + r.queue;
            && |r1.queue| <= |all| && r1.queue == all[|all| - |r1.queue|..] && 1 <= r1.windowsize <= MAX_WINDOW_SIZE
            && if left
               then r1.queue != [] && replies == [R.AckOf(r1)] && r1.seqnumHead == (r1.queue[0].seqnum + 1) % 256
                    && r1.lastTimestamp == r1.queue[0].timestamp
               else |r1.queue| < |all| && replies == [] && r1.lastTimestamp == all[|all| - |r1.queue| - 1].timestamp
                    && (r1.resentAck <==> r1.queue == [])
  {
    hide R.WantsData, R.Flush, R.AcceptData, R.PlaceOf, IsInWindow, Marked, Fronts;
    WatchfulReads(r);
    TakesAwaited(r, p);
    FlushEchoes(R.AcceptData(r, p));
    WindowStaysLegal(r, Ok, p);
  }

  /** A datagram taken in, on the whole state. */
  lemma ReceiveWrites(crc: Checksum, file: File, y: System, stale: Buffer)
    requires Sane(y) && !y.done && y.data != []
    ensures var (st, p) := Decoded(crc, y.data[0], stale);
            var (r1, replies, left) := R.Receive(y.r, st, p);
            var z := Next(crc, file, y, Receive(stale));
            && z.r == r1 && z.done == left && z.s == y.s
            && (replies == [] ==> z.acks == y.acks)
            && (r1.windowsize <= MAX_WINDOW_SIZE && replies == [R.AckOf(r1)] ==>
                  z.acks == y.acks + [WireForm(crc, Acknowledgement(r1.seqnumHead, r1.windowsize, r1.lastTimestamp))])
  {
    hide R.Receive, Decoded, WireForm, ST.Ready;
    var (st, p) := Decoded(crc, y.data[0], stale);
    RepliesAreEncodable(y.r, st, p);
    NoWires(crc, y.acks);
    var r1 := R.Receive(y.r, st, p).0;
    assert Wires(crc, [R.AckOf(r1)]) == [WireForm(crc, R.AckOf(r1))];
  }

  /**
   * In every guarded run the packet awaited, when it arrives, is written out together with what
   * it was missing for.  If this empties the queue, one acknowledgement of everything delivered
   * follows, with the timestamp of the last packet written; if packets are left, none does; and
   * if the final packet is reached, it is acknowledged at once, with its own timestamp.
   */
  lemma AwaitedIsAnswered(crc: Checksum, file: File, events: seq<Event>, stale: Buffer) returns (h: nat)
    requires GuardedRun(crc, file, events)
    requires var y := Run(crc, file, events);
             && !y.done && y.data != [] && Guarded(crc, y, Receive(stale))
             && var (st, p) := Decoded(crc, y.data[0], stale);
                IsCompleteData(st, p) && p.seqnum == y.r.seqnumHead
    ensures var y := Run(crc, file, events);
            var z := Next(crc, file, y, Receive(stale));
            var a := Next(crc, file, z, Answer);
            var all := [Decoded(crc, y.data[0], stale).1] + y.r.queue;
            && |z.r.queue| <= |all| && z.r.queue == all[|all| - |z.r.queue|..] && z.r.windowsize <= MAX_WINDOW_SIZE
            && if z.done
               then
                 && z.r.queue != []
                 && var final := z.r.queue[0];
                    z.acks == y.acks +
                    [WireForm(crc, Acknowledgement((final.seqnum + 1) % 256, z.r.windowsize, final.timestamp))]
               else
                 && |z.r.queue| < |all| && z.acks == y.acks && Delivered(file, z, h)
                 && var last := all[|all| - |z.r.queue| - 1];
                    a.acks == z.acks + if z.r.queue != [] then []
                                       else [WireForm(crc, Acknowledgement(Seqnum(h), z.r.windowsize, last.timestamp))]
  {
    hide Run, GuardedRun, R.Receive, WireForm, Prefix, Next, Decoded, RT.InsertSafe, R.PlaceOf, IsInWindow, Watchful;
    var y := Run(crc, file, events);
    var (st, p) := Decoded(crc, y.data[0], stale);
    RunIsWatchful(crc, file, events);
    WatchfulReads(y.r);
    AwaitedGoesFirst(crc, file, events, p);
    ReceivesAwaited(y.r, p);
    ReceiveWrites(crc, file, y, stale);
    var z := Next(crc, file, y, Receive(stale));
    GuardedOnce(crc, file, events, Receive(stale));
    h := PrefixOfGuarded(crc, file, events + [Receive(stale)]);
    if !z.done {
      AnswerIsAcknowledgement(crc, file, z);
      assert z.acks + [] == z.acks;
    }
  }

  lemma GuardedOnce(crc: Checksum, file: File, events: seq<Event>, e: Event)
    requires GuardedRun(crc, file, events) && Guarded(crc, Run(crc, file, events), e)
    ensures GuardedRun(crc, file, events + [e])
    ensures Run(crc, file, events + [e]) == Next(crc, file, Run(crc, file, events), e)
  {
    hide Guarded, Next;
    assert (events + [e])[..|events|] == events;
  }

  // ---- Everything else ----

  /** Corrupt, foreign and FEC packets are ignored, but for the answer an empty queue asks for. */
  lemma OthersAreIgnored(crc: Checksum, file: File, events: seq<Event>, stale: Buffer)
    requires GuardedRun(crc, file, events)
    requires var y := Run(crc, file, events);
             && !y.done && y.data != []
             && var (st, p) := Decoded(crc, y.data[0], stale);
                !(p.kind == Data && (st == Ok || (st == BadCrc && p.tr == 1)))
    ensures var y := Run(crc, file, events);
            Next(crc, file, y, Receive(stale)) ==
            y.(data := y.data[1..], r := y.r.(resentAck := y.r.resentAck || y.r.queue == []))
  {
    hide Run, GuardedRun, R.WantsData, R.Flush, WireForm, Decoded, EndQueued, ST.Ready, IsInWindow;
    var y := Run(crc, file, events);
    RunIsWatchful(crc, file, events);
    WatchfulReads(y.r);
    FlushAtRest(y.r);
    NoWires(crc, y.acks);
  }
}
