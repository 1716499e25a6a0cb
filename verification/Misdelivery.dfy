/**
 * A run with a single truncated packet after which stdout has been given the wrong bytes, and
 * in which both ends go on to the end as if nothing had happened.
 *
 * While packet 226 is awaited, 256 is already sent; the truncation of 226 halves the window to
 * 15.  When 226 to 232 have arrived, 233 + 22 no longer reaches 256 and numbers are compared
 * without wrapping.  256 is queued, and 233 goes behind it, where it is not delivered; but
 * accepting it widens the window to 23, numbers wrap again, and a repeated 233 goes to the front
 * and is delivered.  The first copy stays behind 256.  When the receiver waits for 489, whose
 * number is that of 233, it writes the old chunk.  That needs 489 chunks, and on fewer no run
 * does harm; so the promises over all runs hold exactly for files of at most 488 chunks.
 */
module Misdelivery {
  import opened Bytes
  import opened Packets
  import opened Files
  import opened Seqnums
  import opened Seqs
  import opened Protocol
  import opened ProtocolTheorems
  import opened Rounds
  import CodecTheorems
  import S = SenderSpec
  import R = ReceiverSpec
  import RT = ReceiverTheorems
  import opened EndToEnd

  // ---- Packet 233 is queued twice ----

  const A: seq<int> := [256]
  const B: seq<int> := [256, 233]

  /** The channel loses the n packets from position k on. */
  lemma {:induction false} Loses(crc: Checksum, file: File, x: System, y: System, cuts: nat, k: nat, n: nat)
    returns (z: System)
    requires Leads(crc, file, x, y, cuts) && k + n <= |y.data|
    ensures Leads(crc, file, x, z, cuts) && Sane(z) && z == y.(data := y.data[..k] + y.data[k + n..])
    decreases n
  {
    hide Leads, Sane;
    if n == 0 {
      LeadsStep(crc, file, x, y, cuts, LoseData(k));
      assert y.data[..k] + y.data[k..] == y.data;
      z := y;
    } else {
      LeadsStep(crc, file, x, y, cuts, LoseData(k));
      var y1 := Next(crc, file, y, LoseData(k));
      assert y1.data[..k] == y.data[..k] && y1.data[k + (n - 1)..] == y.data[k + n..];
      z := Loses(crc, file, x, y1, cuts, k, n - 1);
    }
  }

  lemma ManyChunks(file: File, x: nat)
    requires x < ChunkCount(file)
    ensures file != [] && Chunk(file, x) != []
  {
    ChunkIsEmpty(file, x);
    NotEmpty(file, x);
  }

  /** The sender has sent 226 to 256 at time t, and has read no answer since. */
  ghost predicate Deaf(file: File, y: System, t: Word) {
    && Sane(y) && !y.done && y.acks == []
    && Stocked(file, y.s, 226, t) && |y.s.list| == y.s.windowsize == 31 && AllSegments(y.s.list)
  }

  /** Everything up to 256 is sent, and a copy of 226 is truncated on the way. */
  lemma SendsAndCuts(crc: Checksum, file: File, y: System, t: Word) returns (z: System)
    requires Steady(crc, file, y, 226, [], false, t) && y.r.windowsize == 31 && ChunkCount(file) >= 489
    ensures Leads(crc, file, y, z, 1) && Deaf(file, z, t) && z.phase.Reading? && z.r == y.r
    ensures z.data != [] && z.data[0] == Cut(WireForm(crc, z.s.list[0])) && z.data[1..] == Wires(crc, z.s.list)
  {
    hide Next, Seqnum, WireForm, IsPart, Stocked, Carries, Leads, Out, Sane, Chunk, ChunkCount, Wires, AllSegments, Cut;
    ManyChunks(file, 226);
    SendsFresh(crc, file, y, 226, t);
    LeadsNowhere(crc, file, y);
    LeadsStep(crc, file, y, y, 0, Send(Always(t), Always(t)));
    var y1 := Next(crc, file, y, Send(Always(t), Always(t)));
    WiresGrow(crc, y.s.list, y1.s.list);
    FirstPart(file, y1.s, 226, t, 0);
    var y2 := RepeatsFirst(crc, file, y, y1, 0);
    LeadsStep(crc, file, y, y2, 0, CutData(0));
    z := CutsFirst(crc, file, y2);
  }

  /** It halves the window, and its answer is lost. */
  lemma HalvesWindow(crc: Checksum, file: File, y: System, t: Word) returns (z: System)
    requires Steady(crc, file, y, 226, [], false, t) && y.r.windowsize == 31 && ChunkCount(file) >= 489
    ensures Leads(crc, file, y, z, 1) && Deaf(file, z, t) && z.phase.Reading?
    ensures z.data == Wires(crc, z.s.list) && Waiting(file, z.r, 226, [], false) && z.r.windowsize == 15
  {
    hide Next, Seqnum, IsInWindow, WireForm, IsPart, Stocked, Carries, Leads, Out, Sane, Chunk, ChunkCount, Wires,
         AllSegments, Cut;
    ManyChunks(file, 226);
    var y1 := SendsAndCuts(crc, file, y, t);
    FirstPart(file, y1.s, 226, t, 0);
    LeadsStep(crc, file, y, y1, 1, Receive(STALE));
    HeadIsInWindow(Seqnum(226), 31);
    ReceiveCut(crc, file, y1, 226, [], false, 226, y1.s.list[0]);
    var y2 := Next(crc, file, y1, Receive(STALE));
    LeadsStep(crc, file, y, y2, 1, LoseAck(0));
    z := LosesAnswer(crc, file, y2);
  }

  lemma CutsFirst(crc: Checksum, file: File, y: System) returns (z: System)
    requires Sane(y) && y.data != []
    ensures z == Next(crc, file, y, CutData(0)) == y.(data := [Cut(y.data[0])] + y.data[1..])
  {
    hide Sane, Cut;
    z := Next(crc, file, y, CutData(0));
    assert y.data[0 := Cut(y.data[0])] == [Cut(y.data[0])] + y.data[1..];
  }

  lemma LosesAnswer(crc: Checksum, file: File, y: System) returns (z: System)
    requires Sane(y) && |y.acks| == 1
    ensures z == Next(crc, file, y, LoseAck(0)) == y.(acks := [])
  {
    hide Sane;
    z := Next(crc, file, y, LoseAck(0));
  }

  lemma Skips(crc: Checksum, file: File, y: System) returns (z: System)
    requires Sane(y) && y.phase.Reading?
    ensures z == Next(crc, file, y, Skip) == y.(phase := Sending)
  {
    z := Next(crc, file, y, Skip);
  }

  /** The next n packets arrive in order, and nothing is queued. */
  lemma {:induction false} TakesInOrder(crc: Checksum, file: File, y: System, h: nat, list: seq<Packet>, n: nat)
    returns (z: System)
    requires Sane(y) && !y.done && Waiting(file, y.r, h, [], false) && h + n <= ChunkCount(file)
    requires Parts(file, h, list) && AllSegments(list) && n <= |list| && y.data == Wires(crc, list)
    ensures Leads(crc, file, y, z, 0) && Sane(z) && z == y.(r := z.r, data := Wires(crc, list)[n..])
    ensures Waiting(file, z.r, h + n, [], false) && z.r.windowsize == Min(31, y.r.windowsize + n)
    decreases n
  {
    hide Next, Seqnum, IsInWindow, WireForm, IsPart, Leads, Out, Sane, Chunk, ChunkCount, Wires, AllSegments;
    LeadsNowhere(crc, file, y);
    if n == 0 {
      z := y;
    } else {
      ManyChunks(file, h);
      assert IsPart(file, h + 0, list[0]);
      ScanFront(file, y.r.queue, [], h, y.r.windowsize);
      ReceiveRun(crc, file, y, h, [], false, list[0], 1);
      LeadsStep(crc, file, y, y, 0, Receive(STALE));
      var y1 := Next(crc, file, y, Receive(STALE));
      PartsSlice(file, h, list, 1);
      WiresSlice(crc, list, 1, |list|);
      assert list[1..|list|] == list[1..] && y1.data == Wires(crc, list[1..]);
      z := TakesInOrder(crc, file, y1, h + 1, list[1..], n - 1);
      LeadsOn(crc, file, y, y1, z, 0, 0);
      assert Wires(crc, list)[1..][n - 1..] == Wires(crc, list)[n..];
    }
  }

  /** 226 to 232 are delivered; of the rest only 256 arrives, at the very edge of the window. */
  lemma QueuesWrapped(crc: Checksum, file: File, y: System, t: Word) returns (z: System)
    requires Deaf(file, y, t) && y.phase.Reading? && ChunkCount(file) >= 489
    requires y.data == Wires(crc, y.s.list) && Waiting(file, y.r, 226, [], false) && y.r.windowsize == 15
    ensures Leads(crc, file, y, z, 0) && Deaf(file, z, t) && z.phase.Sending? && z.data == []
    ensures Waiting(file, z.r, 233, A, false) && z.r.windowsize == 22
  {
    hide Next, WireForm, IsPart, Stocked, Leads, Out, Sane, Chunk, ChunkCount, Wires, AllSegments, Carries, IsInWindow;
    var list := y.s.list;
    StockedParts(file, y.s, 226, t);
    var y1 := TakesInOrder(crc, file, y, 226, list, 7);
    var y2 := Loses(crc, file, y, y1, 0, 0, 23);
    assert y2.data == [WireForm(crc, list[30])];
    FirstPart(file, y.s, 226, t, 30);
    ManyChunks(file, 256);
    LeadsStep(crc, file, y, y2, 0, Receive(STALE));
    NothingQueued(file, y2.r.queue);
    WindowTestOnIndices(233, 22, 256);
    assert InsertAt([], 0, 256 as int) == A;
    ReceiveQueues(crc, file, y2, 233, [], false, 256, list[30], 0);
    var y3 := Next(crc, file, y2, Receive(STALE));
    LeadsStep(crc, file, y, y3, 0, Skip);
    z := Skips(crc, file, y3);
  }

  lemma StockedParts(file: File, s: S.SenderState, h: nat, t: Word)
    requires Stocked(file, s, h, t)
    ensures Parts(file, h, s.list)
  {
    hide IsPart;
  }

  lemma NothingQueued(file: File, queue: seq<Packet>)
    requires Carries(file, [], queue)
    ensures queue == []
  {
  }

  /** With head 233 and window 22 nothing wraps: 256, whose number is 0, stays in front. */
  lemma ScanBehind(file: File, queue: seq<Packet>)
    requires Carries(file, A, queue)
    ensures R.Scan(queue, Seqnum(233), 22, Seqnum(233), 0) == R.Before(1)
  {
    hide Chunk;
    RT.PartNumber(file, A[0], queue[0]);
    assert R.Scan(queue, Seqnum(233), 22, Seqnum(233), 1) == R.Before(1);
  }

  /** Everything is sent again, and 233 is the first to arrive. */
  lemma SentAgain(crc: Checksum, file: File, y: System, t: Word, t': Word) returns (z: System)
    requires Deaf(file, y, t) && y.phase.Sending? && y.data == []
    requires ChunkCount(file) >= 489 && (t' - t) % 0x1_0000_0000 > S.TIMEOUT
    ensures Leads(crc, file, y, z, 0) && Deaf(file, z, t') && z.phase.Reading? && z.r == y.r
    ensures z.data == Wires(crc, z.s.list)[7..]
  {
    hide Next, Stocked, Leads, Sane, ChunkCount, Wires, AllSegments;
    NotEmpty(file, 0);
    SendsAgain(crc, file, y, 226, t, t');
    LeadsNowhere(crc, file, y);
    LeadsStep(crc, file, y, y, 0, Send(Always(t'), Always(t')));
    var y1 := Next(crc, file, y, Send(Always(t'), Always(t')));
    assert y1.data == Wires(crc, y1.s.list);
    z := Loses(crc, file, y, y1, 0, 0, 7);
  }

  /**
   * Sent again, 233 arrives three times: the first copy goes behind 256, the second is
   * delivered, the third is answered.
   */
  lemma DoublesPacket(crc: Checksum, file: File, y: System, t: Word, t': Word) returns (z: System)
    requires Deaf(file, y, t) && y.phase.Sending? && y.data == []
    requires Waiting(file, y.r, 233, A, false) && y.r.windowsize == 22
    requires ChunkCount(file) >= 489 && (t' - t) % 0x1_0000_0000 > S.TIMEOUT
    ensures Leads(crc, file, y, z, 0) && Steady(crc, file, z, 234, B, false, t') && z.r.windowsize == 24
  {
    hide WireForm, IsPart, Stocked, Leads, Sane, Chunk, ChunkCount, Wires, AllSegments, Waiting, Seqnum, Steady;
    ManyChunks(file, 233);
    var y1 := SentAgain(crc, file, y, t, t');
    FirstPart(file, y1.s, 226, t', 7);
    var y2 := TakesTwice(crc, file, y1, y1.s.list[7]);
    LeadsOn(crc, file, y, y1, y2, 0, 0);
    z := Shrinks(crc, file, y2, t');
    LeadsOn(crc, file, y, y2, z, 0, 0);
  }

  /** The packet at the front of the channel is repeated twice, and the copies are taken in. */
  lemma TakesTwice(crc: Checksum, file: File, y: System, p: Packet) returns (z: System)
    requires Sane(y) && !y.done && y.data != [] && Waiting(file, y.r, 233, A, false) && y.r.windowsize == 22
    requires IsPart(file, 233, p) && Chunk(file, 233) != [] && y.data[0] == WireForm(crc, p)
    ensures Leads(crc, file, y, z, 0) && Sane(z)
    ensures z == y.(r := z.r) && Waiting(file, z.r, 234, B, false) && z.r.windowsize == 24
  {
    hide Next, WireForm, IsPart, Leads, Out, Sane, Chunk, R.Scan;
    LeadsNowhere(crc, file, y);
    var y1 := RepeatsFirst(crc, file, y, y, 0);
    var y2 := RepeatsFirst(crc, file, y, y1, 0);
    LeadsStep(crc, file, y, y2, 0, Receive(STALE));
    ScanBehind(file, y2.r.queue);
    assert InsertAt(A, 1, 233) == B;
    ReceiveQueues(crc, file, y2, 233, A, false, 233, p, 1);
    var y3 := Next(crc, file, y2, Receive(STALE));
    assert y3.data == y1.data && y1.data[1..] == y.data;
    LeadsStep(crc, file, y, y3, 0, Receive(STALE));
    ScanFront(file, y3.r.queue, B, 233, 23);
    ReceiveRun(crc, file, y3, 233, B, false, p, 1);
    z := Next(crc, file, y3, Receive(STALE));
    assert B[1 - 1..] == B;
  }

  /** The sender learns of the window of 24, and what it had sent beyond is lost. */
  lemma Shrinks(crc: Checksum, file: File, y: System, t: Word) returns (z: System)
    requires Deaf(file, y, t) && y.phase.Reading? && ChunkCount(file) >= 489 && y.data == Wires(crc, y.s.list)[7..]
    requires Waiting(file, y.r, 234, B, false) && y.r.windowsize == 24
    ensures Leads(crc, file, y, z, 0) && Steady(crc, file, z, 234, B, false, t) && z.r.windowsize == 24
  {
    hide Next, WireForm, IsPart, Stocked, Leads, Out, Sane, Chunk, Wires, AllSegments, IsInWindow, Carries;
    var list, p := y.s.list, y.s.list[7];
    FirstPart(file, y.s, 226, t, 7);
    OldIsIgnored(234, 24, 233);
    NotAtEnd(file, y.s, 226, t);
    NotEmpty(file, 0);
    var y1 := Acknowledged(crc, file, y, 226, B, false, t, 234, 233, p);
    z := Loses(crc, file, y, y1, 0, 16, 7);
    WiresSlice(crc, list, 8, 24);
    assert z.data == Wires(crc, list)[8..24];
  }

  lemma NotAtEnd(file: File, s: S.SenderState, h: nat, t: Word)
    requires Stocked(file, s, h, t) && h + |s.list| <= ChunkCount(file)
    ensures !s.lastPkt
  {
    hide IsPart, Seqnum;
  }

  // ---- The old copy is written ----

  const C: seq<int> := [233]

  /** 255 and 256 are delivered together, which leaves the old copy of 233 at the front. */
  lemma Crosses(crc: Checksum, file: File, y: System, t: Word) returns (z: System)
    requires Steady(crc, file, y, 255, B, false, t) && y.r.windowsize == 31 && ChunkCount(file) >= 489
    ensures Leads(crc, file, y, z, 0) && Steady(crc, file, z, 257, C, false, t) && z.r.windowsize == 31
  {
    hide Next, WireForm, IsPart, Stocked, Carries, Leads, Out, Sane, Chunk, ChunkCount, R.Scan, Wires, AllSegments,
         IsInWindow;
    ManyChunks(file, 255);
    SendsFresh(crc, file, y, 255, t);
    LeadsNowhere(crc, file, y);
    LeadsStep(crc, file, y, y, 0, Send(Always(t), Always(t)));
    var y1 := Next(crc, file, y, Send(Always(t), Always(t)));
    var list := y1.s.list;
    WiresGrow(crc, y.s.list, list);
    FirstPart(file, y1.s, 255, t, 0);
    FirstPart(file, y1.s, 255, t, 1);
    ScanFront(file, y1.r.queue, B, 255, 31);
    assert B[2 - 1..] == C && [255] + B == [255, 256, 233];
    ReceiveRun(crc, file, y1, 255, B, false, list[0], 2);
    LeadsStep(crc, file, y, y1, 0, Receive(STALE));
    var y2 := Next(crc, file, y1, Receive(STALE));
    OldIsIgnored(257, 31, 256);
    z := Acknowledged(crc, file, y2, 255, C, false, t, 257, 256, list[1]);
    LeadsOn(crc, file, y, y2, z, 0, 0);
    WiresSlice(crc, list, 2, 31);
    assert z.data == Wires(crc, list)[2..31];
  }

  /** With 488 the old copy of 233 is written, because its number is that of 489. */
  lemma TakesStale(crc: Checksum, file: File, y: System, t: Word) returns (z: System)
    requires Steady(crc, file, y, 488, C, false, t) && y.r.windowsize == 31 && ChunkCount(file) >= 489
    ensures Leads(crc, file, y, z, 0) && Sane(z) && z.phase.Reading? && !z.done && z.acks == []
    ensures Stocked(file, z.s, 488, t) && z.s.windowsize == 31 && |z.s.list| == Min(31, ChunkCount(file) - 487)
    ensures AllSegments(z.s.list) && z.data == Wires(crc, z.s.list)[1..]
    ensures Waiting(file, z.r, 490, [], true) && z.r.windowsize == 31
  {
    hide Next, WireForm, IsPart, Stocked, Leads, Out, Sane, Chunk, ChunkCount, Wires, AllSegments, IsInWindow, Carries,
         Seqnum, R.Flush, R.AcceptData;
    ManyChunks(file, 488);
    SendsFresh(crc, file, y, 488, t);
    LeadsNowhere(crc, file, y);
    LeadsStep(crc, file, y, y, 0, Send(Always(t), Always(t)));
    var y1 := Next(crc, file, y, Send(Always(t), Always(t)));
    WiresGrow(crc, y.s.list, y1.s.list);
    FirstPart(file, y1.s, 488, t, 0);
    var d := Arrives(crc, file, y1, 488, y1.s.list[0]);
    FlushesStale(file, y1.r, d);
    LeadsStep(crc, file, y, y1, 0, Receive(STALE));
    z := Next(crc, file, y1, Receive(STALE));
  }

  /** 489 arrives in vain, and the sender learns of 490. */
  lemma WritesStale(crc: Checksum, file: File, y: System, t: Word) returns (z: System)
    requires Steady(crc, file, y, 488, C, false, t) && y.r.windowsize == 31 && ChunkCount(file) >= 489
    ensures Leads(crc, file, y, z, 0) && !z.done && Waiting(file, z.r, 490, [], true)
    ensures ChunkCount(file) == 489 ==> z.phase.AllAcked?
    ensures ChunkCount(file) >= 490 ==> Steady(crc, file, z, 490, [], true, t)
  {
    hide WireForm, IsPart, Stocked, Leads, Sane, Chunk, ChunkCount, Wires, AllSegments, IsInWindow, Waiting, Seqnum;
    var y1 := TakesStale(crc, file, y, t);
    var list := y1.s.list;
    NotEmpty(file, 0);
    FirstPart(file, y1.s, 488, t, 1);
    OldIsIgnored(490, 31, 489);
    z := Acknowledged(crc, file, y1, 488, [], true, t, 490, 489, list[1]);
    LeadsOn(crc, file, y, y1, z, 0, 0);
    WiresSlice(crc, list, 2, |list|);
    assert z.s.list == list[2..|list|] && z.data == Wires(crc, list)[2..|list|];
  }

  /** 488 comes first, and then the number of 489, on the packet of 233. */
  lemma StaleIsExpected()
    ensures Expected(488, [488] + C, 2) && Seqnum(C[0]) > Seqnum(488)
  {
    assert [488] + C == [488, 233];
  }

  lemma FlushesStale(file: File, r: R.ReceiverState, p: Packet)
    requires Waiting(file, r, 488, C, false) && r.windowsize == 31 && IsPart(file, 488, p) && Chunk(file, 488) != []
    ensures var (r1, written) := R.Flush(R.AcceptData(r, p));
            written == 2 && Waiting(file, r1, 490, [], true) && r1.windowsize == 31
  {
    hide Seqnum, IsPart, Prefix, Chunk, R.Scan, IsInWindow, R.Flush, R.AcceptData, Expected, R.Payloads;
    StaleIsExpected();
    HeadIsInWindow(Seqnum(488), r.windowsize);
    ScanFront(file, r.queue, C, 488, r.windowsize);
    AcceptQueues(file, r, 488, C, false, 488, p, 0);
    var r1 := R.AcceptData(r, p);
    assert InsertAt(C, 0, 488) == [488] + C;
    FlushWrites(file, r1, 488, [488] + C, false, 2);
    PayloadsOfTwo(file, r1.queue, [488] + C);
    PrefixGrows(file, 488);
    Associate(Prefix(file, 488), Chunk(file, 488), Chunk(file, 233));
    var k := |Prefix(file, 490)|;
    assert Prefix(file, 490)[k..] == [];
    assert r1.queue[2..] == [];
  }

  lemma PayloadsOfTwo(file: File, queue: seq<Packet>, q: seq<int>)
    requires Carries(file, q, queue) && |q| >= 2
    ensures R.Payloads(queue[..2]) == Chunk(file, q[0]) + Chunk(file, q[1])
  {
    hide IsPart, Chunk, R.Payloads;
    RT.PartNumber(file, q[0], queue[0]);
    RT.PartNumber(file, q[1], queue[1]);
    FrontPayload(queue, 2);
  }

  // ---- Both ends finish ----

  /** The final packet arrives and is acknowledged, and both ends leave. */
  lemma Finishes(crc: Checksum, file: File, y: System, t: Word) returns (z: System)
    requires Steady(crc, file, y, ChunkCount(file), [], true, t) && file != []
    ensures Leads(crc, file, y, z, 0) && z.done && z.phase.AllAcked? && z.r.output == Out(file, ChunkCount(file), true)
  {
    hide Next, WireForm, IsPart, Stocked, Leads, Out, Sane, Chunk, ChunkCount, Wires, AllSegments, IsInWindow, Carries,
         Seqnum;
    var n := ChunkCount(file);
    SendsFresh(crc, file, y, n, t);
    LeadsNowhere(crc, file, y);
    LeadsStep(crc, file, y, y, 0, Send(Always(t), Always(t)));
    var y1 := Next(crc, file, y, Send(Always(t), Always(t)));
    WiresGrow(crc, y.s.list, y1.s.list);
    FirstPart(file, y1.s, n, t, 0);
    ReceivesFinal(crc, file, y1, n, y1.s.list[0]);
    LeadsStep(crc, file, y, y1, 0, Receive(STALE));
    var y2 := Next(crc, file, y1, Receive(STALE));
    ReadsAck(crc, file, y2, n, t, n + 1, y2.r.windowsize, y2.r.lastTimestamp);
    LeadsStep(crc, file, y, y2, 0, Read(STALE));
    z := Next(crc, file, y2, Read(STALE));
  }

  lemma ReceivesFinal(crc: Checksum, file: File, y: System, n: nat, p: Packet)
    requires Sane(y) && !y.done && y.acks == [] && y.data != [] && Waiting(file, y.r, n, [], true)
    requires IsPart(file, n, p) && n == ChunkCount(file) && y.data[0] == WireForm(crc, p)
    ensures var z := Next(crc, file, y, Receive(STALE));
            && z == y.(r := z.r, done := true, data := y.data[1..], acks := z.acks)
            && z.r.output == y.r.output && 1 <= z.r.windowsize <= 31 && y.r.windowsize <= z.r.windowsize
            && z.acks == [WireForm(crc, R.Response(Ack, Seqnum(n + 1), z.r.windowsize, z.r.lastTimestamp))]
  {
    hide DecodeInto, WireForm, Seqnum, R.AcceptData, Chunk;
    CodecTheorems.RoundTrip(crc, p, STALE[|y.data[0]|..]);
    var (st, d) := Decoded(crc, y.data[0], STALE);
    ChunkIsEmpty(file, n);
    assert IsPart(file, n, d);
    TakesFinal(file, y.r, n, d);
    var r2 := R.Flush(R.AcceptData(y.r, d)).0;
    AckOfIsReply(crc, r2, n + 1);
  }

  lemma TakesFinal(file: File, r: R.ReceiverState, n: nat, p: Packet)
    requires Waiting(file, r, n, [], true) && IsPart(file, n, p) && p.length == 0
    ensures var (r1, written) := R.Flush(R.AcceptData(r, p));
            && written == -1 && r1.output == r.output && r1.seqnumHead == Seqnum(n + 1)
            && r.windowsize <= r1.windowsize <= 31
  {
    hide Seqnum, Chunk, IsInWindow;
    NothingQueued(file, r.queue);
    HeadIsInWindow(Seqnum(n), r.windowsize);
    RT.NextSeqnum(n);
    var r1 := R.AcceptData(r, p);
    assert InsertAt([], 0, p) == [p];
    assert r1.queue == [p] && R.RunLength(r1.queue, r1.seqnumHead) == 0;
  }

  // ---- The run ----

  lemma InitialIsSteady(crc: Checksum, file: File)
    ensures Steady(crc, file, INITIAL, 0, [], false, 0)
  {
    assert Prefix(file, 0) == [];
  }

  lemma Doubles(crc: Checksum, file: File, y: System) returns (z: System)
    requires Steady(crc, file, y, 226, [], false, 0) && y.r.windowsize == 31 && ChunkCount(file) >= 489
    ensures Leads(crc, file, y, z, 1) && Steady(crc, file, z, 234, B, false, 3000) && z.r.windowsize == 24
  {
    hide Leads, Steady, Deaf, ChunkCount, Waiting, Wires;
    var y1 := HalvesWindow(crc, file, y, 0);
    assert Deaf(file, y1, 0);
    var y2 := QueuesWrapped(crc, file, y1, 0);
    LeadsOn(crc, file, y, y1, y2, 1, 0);
    z := DoublesPacket(crc, file, y2, 0, 3000);
    LeadsOn(crc, file, y, y2, z, 1, 0);
  }

  lemma ClearOfB(h: nat, windowsize: int, i: int)
    requires h == 234 && windowsize == 24 && 234 <= i < 255
    ensures ClearAt(h, windowsize, B, i)
  {
  }

  lemma ClearOfC(h: nat, windowsize: int, i: int)
    requires h == 257 && 257 <= i < 488
    ensures ClearAt(h, windowsize, C, i)
  {
  }

  lemma ClearOfNothing(h: nat, windowsize: int, i: int)
    requires i >= h
    ensures ClearAt(h, windowsize, [], i)
  {
  }

  /** The run up to the old copy, for every file that is long enough. */
  lemma ReachesStale(crc: Checksum, file: File) returns (z: System)
    requires ChunkCount(file) >= 489
    ensures Leads(crc, file, INITIAL, z, 1) && !z.done && Waiting(file, z.r, 490, [], true)
    ensures ChunkCount(file) == 489 ==> z.phase.AllAcked?
    ensures ChunkCount(file) >= 490 ==> Steady(crc, file, z, 490, [], true, 3000)
  {
    hide Leads, Steady, ChunkCount, ClearAt, Waiting;
    var y := INITIAL;
    InitialIsSteady(crc, file);
    StartsWithOne(crc, file);
    var h, w := 0, 1;
    forall i | h <= i < 226 ensures ClearAt(h, w, [], i) { ClearOfNothing(h, w, i); }
    var y1 := ManyRounds(crc, file, y, 0, [], false, 0, 226);
    var y2 := Doubles(crc, file, y1);
    LeadsOn(crc, file, y, y1, y2, 0, 1);
    h, w := 234, 24;
    forall i | h <= i < 255 ensures ClearAt(h, w, B, i) { ClearOfB(h, w, i); }
    var y3 := ManyRounds(crc, file, y2, 234, B, false, 3000, 255);
    LeadsOn(crc, file, y, y2, y3, 1, 0);
    var y4 := Crosses(crc, file, y3, 3000);
    LeadsOn(crc, file, y, y3, y4, 1, 0);
    h, w := 257, 31;
    forall i | h <= i < 488 ensures ClearAt(h, w, C, i) { ClearOfC(h, w, i); }
    var y5 := ManyRounds(crc, file, y4, 257, C, false, 3000, 488);
    LeadsOn(crc, file, y, y4, y5, 1, 0);
    z := WritesStale(crc, file, y5, 3000);
    LeadsOn(crc, file, y, y5, z, 1, 0);
  }

  lemma StartsWithOne(crc: Checksum, file: File)
    ensures INITIAL.r.windowsize == 1
  {
  }

  /** From there to the end. */
  lemma GoesOn(crc: Checksum, file: File, y: System) returns (z: System)
    requires Steady(crc, file, y, 490, [], true, 3000) && ChunkCount(file) >= 490
    ensures Leads(crc, file, y, z, 0) && z.done && z.phase.AllAcked? && z.r.output == Out(file, ChunkCount(file), true)
  {
    hide Leads, Steady, ChunkCount, ClearAt, Out, Chunk;
    var n := ChunkCount(file);
    var h, w := 490, y.r.windowsize;
    forall i | h <= i < n ensures ClearAt(h, w, [], i) { ClearOfNothing(h, w, i); }
    var y1 := ManyRounds(crc, file, y, 490, [], true, 3000, n);
    NotEmpty(file, 0);
    z := Finishes(crc, file, y1, 3000);
    LeadsOn(crc, file, y, y1, z, 0, 0);
  }

  /** Chunk 233 in the place of chunk 489. */
  function Faked(file: File): seq<Byte> {
    Prefix(file, 489) + Chunk(file, 233) + file[|Prefix(file, 490)|..]
  }

  /**
   * Prefix safety and completion fail together.  For every file of at least 489 chunks whose
   * chunks 233 and 489 differ (the file of 489 chunks has none with that index) there is a run
   * with one truncated packet in which stdout is given chunk 233 in the place of chunk 489, and
   * the sender leaves because everything is acknowledged.  The receiver reports the end of the
   * file too, unless the chunk it wrote in vain took the place of the final packet.
   */
  lemma TruncationMisdelivers(crc: Checksum, file: File) returns (events: seq<Event>)
    requires ChunkCount(file) >= 489 && Chunk(file, 233) != Chunk(file, 489)
    ensures Cuts(events) == 1
    ensures var y := Run(crc, file, events);
            && y.phase.AllAcked? && (y.done <==> ChunkCount(file) >= 490)
            && y.r.output == Faked(file) != file
            && !EndsWhole(file, y) && forall h :: !Delivered(file, y, h)
  {
    hide Leads, Steady, ChunkCount, Chunk, Run, From, Prefix, Cuts, Out, Waiting, Faked;
    var z := ReachesStale(crc, file);
    if ChunkCount(file) >= 490 {
      var z1 := GoesOn(crc, file, z);
      LeadsOn(crc, file, INITIAL, z, z1, 1, 0);
      z := z1;
    } else {
      StaleOutput(file, z.r);
    }
    events := LedBy(crc, file, z, 1);
    FakedIsWrong(file);
  }

  lemma StaleOutput(file: File, r: R.ReceiverState)
    requires Waiting(file, r, 490, [], true) && ChunkCount(file) == 489
    ensures r.output == Faked(file)
  {
    hide Chunk;
  }

  lemma LedBy(crc: Checksum, file: File, z: System, cuts: nat) returns (events: seq<Event>)
    requires Leads(crc, file, INITIAL, z, cuts)
    ensures Run(crc, file, events) == z && Cuts(events) == cuts
  {
    hide From, Run, Cuts;
    events :| From(crc, file, INITIAL, events) == z && Cuts(events) == cuts;
    FromInitial(crc, file, events);
  }

  lemma FakedIsWrong(file: File)
    requires ChunkCount(file) >= 489 && Chunk(file, 233) != Chunk(file, 489)
    ensures ChunkCount(file) >= 490 ==> Out(file, ChunkCount(file), true) == Faked(file)
    ensures Faked(file) != file && forall h: nat :: Faked(file) != Prefix(file, h)
  {
    PrefixGrows(file, 489);
    PrefixIsWhole(file, ChunkCount(file));
    var front, rest := Prefix(file, 489), file[|Prefix(file, 490)|..];
    assert file == front + Chunk(file, 489) + rest;
    assert |Faked(file)| >= |file|;
    if Faked(file) == file {
      Cancel(front, Chunk(file, 233), Chunk(file, 489), rest);
      assert false;
    }
    forall h: nat
      ensures Faked(file) != Prefix(file, h)
    {
      assert |Prefix(file, h)| <= |file| && (|Prefix(file, h)| == |file| ==> Prefix(file, h) == file);
    }
  }

  lemma Cancel<T>(a: seq<T>, x: seq<T>, y: seq<T>, b: seq<T>)
    requires a + x + b == a + y + b
    ensures x == y
  {
    assert |x| == |y|;
    assert x == (a + x + b)[|a|..|a| + |x|] && y == (a + y + b)[|a|..|a| + |y|];
  }

  /** There are such files. */
  lemma MisdeliveredFileExists() returns (file: File)
    ensures ChunkCount(file) == 490 && Chunk(file, 233) != Chunk(file, 489)
  {
    file := seq(512 * 490, i => if i < 512 * 300 then 0 else 1);
    assert Chunk(file, 233)[0] == 0 && Chunk(file, 489)[0] == 1;
  }

  // ---- The promises, over all runs ----

  ghost predicate WritesPrefix(file: File, y: System) {
    exists h :: Delivered(file, y, h)
  }

  ghost predicate AlwaysPrefix(crc: Checksum, file: File) {
    forall events :: WritesPrefix(file, Run(crc, file, events))
  }

  ghost predicate AlwaysWhole(crc: Checksum, file: File) {
    forall events :: EndsWhole(file, Run(crc, file, events))
  }

  /** If the file has a chunk 489, chunk 233 in its place would show. */
  predicate ShowsStale(file: File) {
    ChunkCount(file) >= 490 ==> Chunk(file, 233) != Chunk(file, 489)
  }

  lemma StaleEndShows(file: File)
    requires ChunkCount(file) == 489
    ensures Chunk(file, 233) != Chunk(file, 489)
  {
    ChunkIsEmpty(file, 233);
    ChunkIsEmpty(file, 489);
  }

  /** A run that breaks both promises, for every longer file. */
  lemma LongFileFails(crc: Checksum, file: File) returns (events: seq<Event>)
    requires ShowsStale(file) && ChunkCount(file) >= 489
    ensures !WritesPrefix(file, Run(crc, file, events)) && !EndsWhole(file, Run(crc, file, events))
  {
    hide Run, ChunkCount, Chunk, Delivered, EndsWhole, Faked;
    if ChunkCount(file) == 489 {
      StaleEndShows(file);
    }
    events := TruncationMisdelivers(crc, file);
  }

  /**
   * Over all runs, what is written out is always a prefix of the file exactly when the file has
   * at most 488 chunks ...
   */
  lemma PrefixSafetyExact(crc: Checksum, file: File)
    requires ShowsStale(file)
    ensures AlwaysPrefix(crc, file) <==> ChunkCount(file) <= 488
  {
    hide Run, ChunkCount, Chunk, Delivered;
    if ChunkCount(file) <= 488 {
      forall events
        ensures WritesPrefix(file, Run(crc, file, events))
      {
        var h := PrefixSafety(crc, file, events);
      }
    } else {
      var events := LongFileFails(crc, file);
    }
  }

  /** ... and both ends stop only with the whole file delivered exactly when moreover it is not empty. */
  lemma WholenessExact(crc: Checksum, file: File)
    requires ShowsStale(file)
    ensures AlwaysWhole(crc, file) <==> 0 < ChunkCount(file) <= 488
  {
    hide Run, Chunk, EndsWhole, WritesPrefix;
    if file == [] {
      var events := EmptyFileRun(crc);
      assert !EndsWhole(file, Run(crc, file, events)) by {
        StopsEarly(file, Run(crc, file, events));
      }
    } else if ChunkCount(file) <= 488 {
      forall events
        ensures EndsWhole(file, Run(crc, file, events))
      {
        Completion(crc, file, events);
      }
    } else {
      var events := LongFileFails(crc, file);
    }
  }

  lemma StopsEarly(file: File, y: System)
    requires y.phase.AllAcked? && !y.done
    ensures !EndsWhole(file, y)
  {
  }
}
