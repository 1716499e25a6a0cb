/** What the sender's operations keep, exactly when, and over whole runs. */
module SenderTheorems {
  import opened Bytes
  import opened Packets
  import opened Files
  import opened Seqnums
  import opened SenderSpec

  /** One past the last index sent so far. */
  function NextIndex(s: SenderState): int {
    s.globalPkt + if s.lastPkt then 1 else 0
  }

  /** The sender window: consecutive indices from `base`, and variables that agree with them. */
  ghost predicate Contiguous(file: File, s: SenderState, base: nat) {
    && Healthy(s)
    && Parts(file, base, s.list)
    && NextIndex(s) == base + |s.list|
    && s.globalPkt <= ChunkCount(file)
    && (s.eofReached ==> s.globalPkt == ChunkCount(file))
    && (s.lastPkt ==> s.eofReached)
    && (NextIndex(s) > 0 ==> s.seqnumTail == Seqnum(NextIndex(s) - 1))
    && (s.list != [] ==> s.seqnumHead == Seqnum(base) || LoneFinal(s, base))
    && (s.list == [] && base > 0 && !s.lastPkt ==> s.seqnumHead == Seqnum(base - 1))
  }

  /** send_final_pkt into an empty list leaves seqnumHead one behind. */
  predicate LoneFinal(s: SenderState, base: nat) {
    s.lastPkt && |s.list| == 1 && s.seqnumHead == Seqnum(base - 1)
  }

  // ---- Filling and the final packet ----

  lemma FillSentIsRun(file: File, s: SenderState, clock: Clock)
    requires Healthy(s)
    ensures Parts(file, s.globalPkt, FillSent(file, s, clock))
  {
    hide Seqnum, Chunk, IsSegment;
  }

  lemma FillKeepsWindow(file: File, s: SenderState, base: nat, clock: Clock)
    requires Contiguous(file, s, base)
    ensures Contiguous(file, Fill(file, s, clock), base)
    ensures Parts(file, base + |s.list|, FillSent(file, s, clock))
  {
    hide IsPart, Seqnum, Chunk, ChunkCount;
    var s1, sent := Fill(file, s, clock), FillSent(file, s, clock);
    if s.lastPkt {
      assert s1 == s;
    } else {
      FillSentIsRun(file, s, clock);
      PartsAppend(file, base, s.list, sent);
      PartsAreSegments(file, base, s1.list);
    }
  }

  lemma SendFinalKeepsWindow(file: File, s: SenderState, base: nat, now: Word)
    requires file != [] && Contiguous(file, s, base)
    requires !s.lastPkt && s.eofReached && |s.list| < s.windowsize
    ensures Contiguous(file, SendFinal(s, now), base)
    ensures Parts(file, base + |s.list|, [Final(s, now)])
  {
    hide IsPart, Seqnum, ChunkCount, Chunk;
    var p := Final(s, now);
    FinalIsPart(file, s, now);
    PartsAppend(file, base, s.list, [p]);
    PartsAreSegments(file, base, s.list + [p]);
    assert p.seqnum == (s.seqnumTail + 1) % 256;
  }

  lemma FinalIsPart(file: File, s: SenderState, now: Word)
    requires file != [] && Healthy(s) && s.globalPkt == ChunkCount(file)
    requires s.globalPkt > 0 ==> s.seqnumTail == Seqnum(s.globalPkt - 1)
    ensures s.globalPkt > 0 && IsPart(file, s.globalPkt, Final(s, now))
    ensures (s.seqnumTail + 1) % 256 == Seqnum(s.globalPkt)
  {
    hide AllSegments;
    ChunkIsEmpty(file, s.globalPkt);
  }

  /** Everything the sending half writes continues the run of indices; nothing of it is skipped. */
  lemma FillOrFinalKeepsWindow(file: File, s: SenderState, base: nat, clock: Clock)
    requires file != [] && Contiguous(file, s, base)
    ensures var (s1, sent) := FillOrFinal(file, s, clock);
            && Contiguous(file, s1, base)
            && s1.list == s.list + sent
            && Parts(file, base + |s.list|, sent)
            && s1.windowsize == s.windowsize
  {
    hide IsPart, Seqnum, Chunk, ChunkCount;
    FillKeepsWindow(file, s, base, clock);
    var f, filled := Fill(file, s, clock), FillSent(file, s, clock);
    if !f.lastPkt && f.eofReached && |f.list| < f.windowsize {
      var now := clock(|f.list|);
      SendFinalKeepsWindow(file, f, base, now);
      PartsAppend(file, base + |s.list|, filled, [Final(f, now)]);
      assert SendFinal(f, now).list == s.list + (filled + [Final(f, now)]);
    }
  }

  /** Whatever is sent for the first time announces the sender's window and the time it is sent. */
  lemma SentAnnounceWindow(file: File, s: SenderState, clock: Clock)
    requires Healthy(s)
    ensures var sent := FillOrFinal(file, s, clock).1;
            forall k :: 0 <= k < |sent| ==>
              && sent[k].kind == Data && sent[k].tr == 0 && sent[k].window == s.windowsize
              && sent[k].timestamp == clock(|s.list| + k) && sent[k].length == |sent[k].payload|
  {
    hide Seqnum, Chunk, AllSegments, Encodable;
  }

  /** Its final packet is queued last when it is out. */
  lemma FinalIsLast(file: File, s: SenderState, base: nat)
    requires Contiguous(file, s, base) && s.list != []
    ensures s.lastPkt <==> s.list[|s.list| - 1].length == 0
  {
    hide ChunkCount, Chunk, Seqnum;
    var k := |s.list| - 1;
    assert IsPart(file, base + k, s.list[k]);
    ChunkIsEmpty(file, base + k);
  }

  // ---- Resending ----

  /** Resending restamps the packets older than two seconds, counts finals, and changes nothing else. */
  lemma ResendKeepsWindow(file: File, s: SenderState, base: nat, clock: Clock)
    requires Contiguous(file, s, base)
    ensures var s1 := Resend(s, clock);
            && Contiguous(file, s1, base)
            && s1 == s.(list := s1.list, lastRst := s1.lastRst) && s.lastRst <= s1.lastRst
            && |s1.list| == |s.list|
            && forall k :: 0 <= k < |s.list| ==>
                 var p, now := s.list[k], clock(k);
                 s1.list[k] == p.(timestamp := if (now - p.timestamp) % 0x1_0000_0000 > 2000 then now else p.timestamp)
  {
    hide IsPart, Seqnum, ChunkCount;
    var r := Refresh(s.list, clock);
    forall k | 0 <= k < |s.list|
      ensures IsPart(file, base + k, r[k])
    {
      RefreshedIsPart(file, base + k, s.list[k], clock(k));
    }
    assert Parts(file, base, r);
    PartsAreSegments(file, base, r);
  }

  lemma RefreshedIsPart(file: File, i: int, p: Packet, now: Word)
    requires IsPart(file, i, p)
    ensures IsPart(file, i, Refreshed(p, now))
  {
    hide Seqnum, Chunk, TimedOut;
  }

  /** The indices of the packets resent, each one of the list. */
  lemma {:induction false} ResentIndices(file: File, list: seq<Packet>, of: seq<int>, clock: Clock, n: nat)
    returns (idx: seq<int>)
    requires n <= |list| && Carries(file, of, list)
    ensures Carries(file, idx, Resent(list, clock, n))
    ensures forall k :: 0 <= k < |idx| ==> idx[k] in of
  {
    hide IsPart;
    if n == 0 {
      idx := [];
    } else {
      idx := ResentIndices(file, list, of, clock, n - 1);
      RefreshedIsPart(file, of[n - 1], list[n - 1], clock(n - 1));
      if TimedOut(list[n - 1], clock(n - 1)) {
        idx := idx + [of[n - 1]];
      }
    }
  }

  // ---- Acknowledgement ----

  lemma DistanceStep(i: nat, ack: Byte)
    ensures var d := Distance(Seqnum(i), ack);
            if ack == Seqnum(i) then d == 0 else d == 1 + Distance(Seqnum(i + 1), ack)
  {
    hide Distance;
    DistanceValue(Seqnum(i), ack);
    DistanceValue(Seqnum(i + 1), ack);
    assert Seqnum(i + 1) == if Seqnum(i) == 255 then 0 else Seqnum(i) + 1;
  }

  lemma {:induction false} AckedCountOfRun(base: nat, list: seq<Packet>, ack: Byte)
    requires Numbered(base, list) && |list| <= 256
    decreases |list|
    ensures AckedCount(list, ack) == Min(Distance(Seqnum(base), ack), |list|)
  {
    hide Seqnum, Distance;
    DistanceStep(base, ack);
    if list != [] && list[0].seqnum != ack {
      var rest := list[1..];
      forall k | 0 <= k < |rest|
        ensures rest[k].seqnum == Seqnum(base + 1 + k)
      {
        assert list[k + 1].seqnum == Seqnum(base + (k + 1));
      }
      AckedCountOfRun(base + 1, rest, ack);
    }
  }

  /**
   * Cumulative acknowledgement is exact.  With d the distance from the first packet to the
   * number acknowledged: up to size + 29 it removes the min(d, size) oldest packets and
   * nothing else; beyond that the acknowledgement changes nothing.
   */
  lemma AckExact(s: SenderState, base: nat, ack: Byte)
    requires 1 <= |s.list| <= 226 && Numbered(base, s.list)
    requires s.seqnumHead == Seqnum(base) && s.seqnumTail == Seqnum(base + |s.list| - 1)
    ensures var d, size := Distance(Seqnum(base), ack), |s.list|;
            AckWindow(s, ack) ==
            if d > size + 29 then s
            else s.(list := s.list[Min(d, size)..], seqnumHead := Seqnum(base + Min(d, size - 1)))
  {
    AckTestExact(base, |s.list|, ack);
    AckedCountOfRun(base, s.list, ack);
    var n := AckedCount(s.list, ack);
    assert n < |s.list| ==> s.list[n].seqnum == Seqnum(base + n);
    assert n == |s.list| ==> s.list[n - 1].seqnum == Seqnum(base + (n - 1));
  }

  /**
   * The same on indices: an acknowledgement of an index a not older than the window removes
   * exactly the packets below a; an older one changes nothing when it is at most 226 - size
   * behind, and only then.
   */
  lemma AckOnIndices(s: SenderState, base: nat, a: nat)
    requires 1 <= |s.list| <= 226 && Numbered(base, s.list)
    requires s.seqnumHead == Seqnum(base) && s.seqnumTail == Seqnum(base + |s.list| - 1)
    ensures base <= a <= base + |s.list| + 29 ==> AckWindow(s, Seqnum(a)).list == s.list[Min(a - base, |s.list|)..]
    ensures a < base <= a + 255 ==> (AckWindow(s, Seqnum(a)) == s <==> base - a <= 226 - |s.list|)
  {
    AckExact(s, base, Seqnum(a));
    DistanceOnIndices(base, a);
  }

  /** The packets an acknowledgement removes in a contiguous window, whatever its number. */
  function Acked(s: SenderState, ack: Byte): (n: nat)
    requires s.list != []
    ensures n <= |s.list|
  {
    if CanAckWindow(s.seqnumHead, s.seqnumTail, ack) then AckedCount(s.list, ack) else 0
  }

  /** Acknowledging keeps the window and only moves its base forward. */
  lemma AckKeepsWindow(file: File, s: SenderState, base: nat, ack: Byte)
    requires Contiguous(file, s, base) && s.list != []
    ensures Contiguous(file, AckWindow(s, ack), base + Acked(s, ack))
  {
    hide IsPart, Seqnum, CanAckWindow;
    var n := Acked(s, ack);
    PartsSlice(file, base, s.list, n);
    PartsAreSegments(file, base, s.list);
    PartsAreSegments(file, base + n, s.list[n..]);
    assert n < |s.list| ==> s.list[n].seqnum == Seqnum(base + n);
  }

  // ---- Window size ----

  /**
   * A new window size keeps the window exactly when it does not shrink it after the final
   * packet was queued: that packet was never counted in globalPkt, but update_window takes
   * it off globalPkt all the same.
   */
  lemma UpdateKeepsWindowExactly(file: File, s: SenderState, base: nat, newSize: Byte)
    requires Contiguous(file, s, base) && s.list != [] && newSize <= MAX_WINDOW_SIZE
    ensures (exists b: nat :: Contiguous(file, UpdateWindow(s, newSize), b)) <==> !(Shrinks(s, newSize) && s.lastPkt)
    ensures !(Shrinks(s, newSize) && s.lastPkt) ==> Contiguous(file, UpdateWindow(s, newSize), base)
    ensures newSize == 0 || newSize == s.windowsize ==> UpdateWindow(s, newSize) == s
  {
    if Shrinks(s, newSize) && s.lastPkt {
      forall b: nat
        ensures !Contiguous(file, UpdateWindow(s, newSize), b)
      {
        LateShrinkBreaksWindow(file, s, base, newSize, b);
      }
    } else {
      UpdateKeepsWindow(file, s, base, newSize);
    }
  }

  lemma UpdateKeepsWindow(file: File, s: SenderState, base: nat, newSize: Byte)
    requires Contiguous(file, s, base) && s.list != [] && newSize <= MAX_WINDOW_SIZE
    requires !(Shrinks(s, newSize) && s.lastPkt)
    ensures Contiguous(file, UpdateWindow(s, newSize), base)
  {
    hide IsPart, Seqnum, ChunkCount;
    var s1 := UpdateWindow(s, newSize);
    var kept := |s1.list|;
    assert s1.list == s.list[..kept];
    PartsSlice(file, base, s.list, kept);
    PartsAreSegments(file, base, s1.list);
    assert s1.list[kept - 1].seqnum == Seqnum(base + (kept - 1));
  }

  lemma LateShrinkBreaksWindow(file: File, s: SenderState, base: nat, newSize: Byte, b: nat)
    requires Contiguous(file, s, base) && s.list != []
    requires Shrinks(s, newSize) && s.lastPkt
    ensures !Contiguous(file, UpdateWindow(s, newSize), b)
  {
    hide IsPart, ChunkCount;
    var s1 := UpdateWindow(s, newSize);
    PartsAreSegments(file, base, s.list);
    assert NextIndex(s1) == base + |s1.list| - 1;
    assert s1.list[0].seqnum == Seqnum(base + 0);
    if Contiguous(file, s1, b) {
      PartsAreSegments(file, b, s1.list);
      assert false;
    }
  }

  /**
   * Rollback is lossless: shrinking keeps the oldest packets, and once the window has grown
   * back, filling it regenerates every dropped packet with its number and payload, in order.
   */
  lemma RollbackIsLossless(file: File, s: SenderState, base: nat, newSize: Byte, clock: Clock)
    requires Contiguous(file, s, base) && s.list != [] && !s.lastPkt && Shrinks(s, newSize)
    ensures var small := UpdateWindow(s, newSize);
            var again := Fill(file, UpdateWindow(small, s.windowsize), clock);
            && small.list == s.list[..Min(|s.list|, newSize)] && small.lastRst == 0
            && |s.list| <= |again.list|
            && (forall k :: 0 <= k < |s.list| ==>
                  again.list[k].seqnum == s.list[k].seqnum && again.list[k].payload == s.list[k].payload)
            && Contiguous(file, again, base)
  {
    var small := UpdateWindow(s, newSize);
    UpdateKeepsWindowExactly(file, s, base, newSize);
    var grown := UpdateWindow(small, s.windowsize);
    UpdateKeepsWindowExactly(file, small, base, s.windowsize);
    FillKeepsWindow(file, grown, base, clock);
    var again := Fill(file, grown, clock);
    forall k | 0 <= k < |s.list|
      ensures k < |again.list| && again.list[k].seqnum == s.list[k].seqnum && again.list[k].payload == s.list[k].payload
    {
      assert IsPart(file, base + k, s.list[k]) && IsPart(file, base + k, again.list[k]);
    }
  }

  // ---- Whole runs against an arbitrary peer ----

  /** What the loop keeps between iterations. */
  predicate Ready(s: SenderState) {
    Healthy(s) && (s.lastPkt ==> s.list != [])
  }

  /** One iteration on a writable socket; no datagram when the socket was not readable. */
  datatype Turn = Turn(fillClock: Clock, resendClock: Clock, incoming: Incoming)
  datatype Incoming = Nothing | Datagram(buffer: Buffer, len: nat)

  /** The sending half leaves a packet queued, so the reading half never sees an empty list. */
  lemma SendingLeavesPacket(file: File, s: SenderState, clock: Clock)
    requires Ready(s)
    ensures var s1 := FillOrFinal(file, s, clock).0; Ready(s1) && s1.list != []
  {
    FillIsHealthy(file, s, clock);
  }

  lemma ResendKeepsHealthy(s: SenderState, clock: Clock)
    requires Healthy(s)
    ensures var s1 := Resend(s, clock); Healthy(s1) && |s1.list| == |s.list| && s1.lastPkt == s.lastPkt
  {
    assert forall k :: 0 <= k < |s.list| ==> IsSegment(s.list[k]) && IsSegment(Refreshed(s.list[k], clock(k)));
  }

  lemma ResendKeepsReady(s: SenderState, clock: Clock)
    requires Ready(s) && s.list != []
    ensures Ready(Resend(s, clock)) && Resend(s, clock).list != []
  {
    ResendKeepsHealthy(s, clock);
  }

  lemma HandleKeepsHealthy(s: SenderState, st: Status, p: Packet)
    requires Healthy(s) && s.list != [] && p.window <= MAX_WINDOW_SIZE
    ensures Healthy(Handle(s, st, p).0)
  {
    var s1 := UpdateWindow(s.(lastRst := 0), p.window);
    assert Healthy(s1) && s1.list != [];
    var n := AckedCount(s1.list, p.seqnum);
    assert AllSegments(s1.list[n..]);
  }

  lemma HandleKeepsReady(s: SenderState, st: Status, p: Packet)
    requires Ready(s) && s.list != [] && p.window <= MAX_WINDOW_SIZE
    ensures Healthy(Handle(s, st, p).0)
    ensures !Handle(s, st, p).1 ==> Ready(Handle(s, st, p).0)
  {
    HandleKeepsHealthy(s, st, p);
  }

  lemma DecodedWindow(crc: Checksum, b: Buffer, len: nat)
    ensures DecodeInto(crc, b, len, BLANK).1.window <= MAX_WINDOW_SIZE
  {
  }

  /** The sender's variables when the reading half of the iteration starts. */
  function BeforeReading(crc: Checksum, file: File, s: SenderState, t: Turn): (s2: SenderState)
    requires Healthy(s)
    ensures Healthy(s2)
  {
    ResendKeepsHealthy(FillOrFinal(file, s, t.fillClock).0, t.resendClock);
    SendPhase(crc, file, s, t.fillClock, t.resendClock).0
  }

  /** What the loop comes to: it goes on, it is left, or it follows the head of an empty list. */
  datatype Outcome = Goes(s: SenderState) | Leaves(s: SenderState) | Crashes

  /** An iteration of the main loop, from any variables; resent_pkt starts at the head of the list. */
  function Iterate(crc: Checksum, file: File, s: SenderState, t: Turn): (o: Outcome)
    requires Healthy(s)
    ensures !o.Crashes? ==> Healthy(o.s)
  {
    var s2 := BeforeReading(crc, file, s, t);
    if s2.list == [] then Crashes
    else if GivesUp(s2) then Leaves(s2)
    else match t.incoming
      case Nothing => Goes(s2)
      case Datagram(b, len) =>
        DecodedWindow(crc, b, len);
        var (st, p) := DecodeInto(crc, b, len, BLANK);
        HandleKeepsHealthy(s2, st, p);
        var (s3, left) := Handle(s2, st, p);
        if left then Leaves(s3) else Goes(s3)
  }

  /** The main loop over a list of iterations. */
  function Loop(crc: Checksum, file: File, s: SenderState, turns: seq<Turn>): (o: Outcome)
    requires Healthy(s)
    ensures !o.Crashes? ==> Healthy(o.s)
    decreases |turns|
  {
    if turns == [] then Goes(s)
    else
      match Iterate(crc, file, s, turns[0])
      case Goes(s1) => Loop(crc, file, s1, turns[1..])
      case o => o
  }

  /** An iteration crashes exactly on an empty list that nothing is left to fill, final packet included. */
  lemma CrashesExactly(crc: Checksum, file: File, s: SenderState, t: Turn)
    requires Healthy(s)
    ensures Iterate(crc, file, s, t).Crashes? <==> s.list == [] && s.lastPkt && FillCount(file, s) == 0
  {
    hide ChunkCount, FirstFilled, AllSegments, Handle, DecodeInto, Wires;
    ResendKeepsHealthy(FillOrFinal(file, s, t.fillClock).0, t.resendClock);
  }

  lemma IterateKeepsReady(crc: Checksum, file: File, s: SenderState, t: Turn)
    requires Ready(s)
    ensures var o := Iterate(crc, file, s, t); !o.Crashes? && (o.Goes? ==> Ready(o.s))
  {
    hide FillOrFinal, Handle, DecodeInto, Wires, Healthy, Resend;
    SendingLeavesPacket(file, s, t.fillClock);
    ResendKeepsReady(FillOrFinal(file, s, t.fillClock).0, t.resendClock);
    var s2 := BeforeReading(crc, file, s, t);
    if t.incoming.Datagram? {
      var (st, p) := DecodeInto(crc, t.incoming.buffer, t.incoming.len, BLANK);
      DecodedWindow(crc, t.incoming.buffer, t.incoming.len);
      HandleKeepsReady(s2, st, p);
    }
  }

  /**
   * Whatever datagrams arrive, truncated or not, in whatever order: as long as the socket is
   * writable on every iteration, the loop never follows the head of an empty list.
   */
  lemma {:induction false} NeverReadsEmptyList(crc: Checksum, file: File, s: SenderState, turns: seq<Turn>)
    requires Ready(s)
    ensures var o := Loop(crc, file, s, turns); !o.Crashes? && (o.Goes? ==> Ready(o.s))
    decreases |turns|
  {
    hide Iterate, Healthy;
    if turns != [] {
      var o := Iterate(crc, file, s, turns[0]);
      IterateKeepsReady(crc, file, s, turns[0]);
      if o.Goes? {
        NeverReadsEmptyList(crc, file, o.s, turns[1..]);
      }
    }
  }

  /** No datagram of the run that counts shrinks the window while the final packet is queued. */
  predicate NoLateShrink(crc: Checksum, file: File, s: SenderState, turns: seq<Turn>)
    requires Healthy(s)
    decreases |turns|
  {
    turns == [] ||
    var s2 := BeforeReading(crc, file, s, turns[0]);
    var o := Iterate(crc, file, s, turns[0]);
    && (turns[0].incoming.Datagram? ==>
          var (st, p) := DecodeInto(crc, turns[0].incoming.buffer, turns[0].incoming.len, BLANK);
          st == Ok && p.tr == 0 ==> !(s2.lastPkt && Shrinks(s2, p.window)))
    && (o.Goes? ==> NoLateShrink(crc, file, o.s, turns[1..]))
  }

  lemma HandleKeepsWindow(file: File, s: SenderState, base: nat, st: Status, p: Packet) returns (b: nat)
    requires Contiguous(file, s, base) && s.list != [] && p.window <= MAX_WINDOW_SIZE
    requires st == Ok && p.tr == 0 ==> !(s.lastPkt && Shrinks(s, p.window))
    ensures base <= b && Contiguous(file, Handle(s, st, p).0, b)
  {
    hide Parts, Seqnum, ChunkCount, AckWindow, UpdateWindow;
    b := base;
    var s0 := s.(lastRst := 0);
    assert Contiguous(file, s0, base);
    if st == Ok && p.tr == 0 {
      UpdateKeepsWindow(file, s0, base, p.window);
      if p.kind == Ack {
        var s1 := UpdateWindow(s0, p.window);
        assert s1.list != [] by {
          UpdateLeavesPacket(s0, p.window);
        }
        AckKeepsWindow(file, s1, base, p.seqnum);
        b := base + Acked(s1, p.seqnum);
      }
    }
  }

  lemma UpdateLeavesPacket(s: SenderState, newSize: Byte)
    requires s.list != []
    ensures UpdateWindow(s, newSize).list != []
  {
  }

  lemma BeforeReadingKeepsWindow(crc: Checksum, file: File, s: SenderState, base: nat, t: Turn)
    requires file != [] && Contiguous(file, s, base) && Ready(s)
    ensures Contiguous(file, BeforeReading(crc, file, s, t), base)
  {
    hide Contiguous, Resend, Wires;
    FillOrFinalKeepsWindow(file, s, base, t.fillClock);
    ResendKeepsWindow(file, FillOrFinal(file, s, t.fillClock).0, base, t.resendClock);
  }

  /**
   * Over every run of the loop, against any peer, in which the window never shrinks after the
   * final packet was queued: the list is always a run of consecutive indices with their own
   * numbers and chunks, and its first index never decreases.
   */
  lemma {:induction false} RunKeepsWindow(crc: Checksum, file: File, s: SenderState, base: nat, turns: seq<Turn>)
    returns (b: nat)
    requires file != [] && Ready(s) && Contiguous(file, s, base)
    requires NoLateShrink(crc, file, s, turns)
    decreases |turns|
    ensures var o := Loop(crc, file, s, turns); !o.Crashes? && base <= b && Contiguous(file, o.s, b)
  {
    hide Contiguous, DecodeInto, BeforeReading, Handle, Healthy;
    b := base;
    if turns != [] {
      var t := turns[0];
      var s2 := BeforeReading(crc, file, s, t);
      BeforeReadingKeepsWindow(crc, file, s, base, t);
      IterateKeepsReady(crc, file, s, t);
      if !GivesUp(s2) && t.incoming.Datagram? {
        var (st, p) := DecodeInto(crc, t.incoming.buffer, t.incoming.len, BLANK);
        DecodedWindow(crc, t.incoming.buffer, t.incoming.len);
        b := HandleKeepsWindow(file, s2, base, st, p);
      }
      var o := Iterate(crc, file, s, t);
      if o.Goes? {
        b := RunKeepsWindow(crc, file, o.s, b, turns[1..]);
      }
    }
  }
}
