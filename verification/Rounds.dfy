/**
 * Runs of Protocol built step by step: what single events do when everything goes right, and
 * rounds in which one packet is sent, repeated, delivered once and acknowledged.
 */
module Rounds {
  import opened Bytes
  import opened Packets
  import opened Files
  import opened Seqnums
  import opened Seqs
  import opened Protocol
  import opened ProtocolTheorems
  import CodecTheorems
  import S = SenderSpec
  import ST = SenderTheorems
  import R = ReceiverSpec
  import RT = ReceiverTheorems

  const STALE: Buffer := seq(PKT_MAX_LEN, _ => 0)

  // ---- Runs from any state ----

  /** How many packets the events truncate. */
  function Cuts(events: seq<Event>): nat {
    if events == [] then 0
    else Cuts(events[..|events| - 1]) + if events[|events| - 1].CutData? then 1 else 0
  }

  /** The state after a list of events that starts in y. */
  function From(crc: Checksum, file: File, y: System, events: seq<Event>): (z: System)
    requires Sane(y)
    ensures Sane(z)
  {
    if events == [] then y
    else Next(crc, file, From(crc, file, y, events[..|events| - 1]), events[|events| - 1])
  }

  /** z is reached from y by events that truncate `cuts` packets. */
  ghost predicate Leads(crc: Checksum, file: File, y: System, z: System, cuts: nat) {
    Sane(y) && exists events :: From(crc, file, y, events) == z && Cuts(events) == cuts
  }

  lemma {:induction false} FromAppend(crc: Checksum, file: File, y: System, a: seq<Event>, b: seq<Event>)
    requires Sane(y)
    ensures From(crc, file, y, a + b) == From(crc, file, From(crc, file, y, a), b) && Cuts(a + b) == Cuts(a) + Cuts(b)
    decreases |b|
  {
    hide Next, Sane;
    if b == [] {
      assert a + b == a;
    } else {
      var n := |b| - 1;
      FromAppend(crc, file, y, a, b[..n]);
      assert (a + b)[..|a + b| - 1] == a + b[..n] && (a + b)[|a + b| - 1] == b[n];
    }
  }

  lemma {:induction false} FromInitial(crc: Checksum, file: File, events: seq<Event>)
    ensures Sane(INITIAL) && From(crc, file, INITIAL, events) == Run(crc, file, events)
    decreases |events|
  {
    hide Next;
    if events != [] {
      FromInitial(crc, file, events[..|events| - 1]);
    }
  }

  lemma LeadsNowhere(crc: Checksum, file: File, y: System)
    requires Sane(y)
    ensures Leads(crc, file, y, y, 0)
  {
    hide Next, Sane;
    assert From(crc, file, y, []) == y && Cuts([]) == 0;
  }

  lemma LeadsOn(crc: Checksum, file: File, x: System, y: System, z: System, m: nat, n: nat)
    requires Leads(crc, file, x, y, m) && Leads(crc, file, y, z, n)
    ensures Leads(crc, file, x, z, m + n)
  {
    hide From, Cuts, Sane;
    var a :| From(crc, file, x, a) == y && Cuts(a) == m;
    var b :| From(crc, file, y, b) == z && Cuts(b) == n;
    FromAppend(crc, file, x, a, b);
  }

  /** One more event. */
  lemma LeadsStep(crc: Checksum, file: File, x: System, y: System, n: nat, e: Event)
    requires Leads(crc, file, x, y, n)
    ensures Sane(y) && Leads(crc, file, x, Next(crc, file, y, e), n + if e.CutData? then 1 else 0)
  {
    hide Next, Sane;
    var a :| From(crc, file, x, a) == y && Cuts(a) == n;
    assert (a + [e])[..|a + [e]| - 1] == a;
    assert From(crc, file, x, a + [e]) == Next(crc, file, y, e);
    assert Cuts(a + [e]) == n + if e.CutData? then 1 else 0;
  }

  // ---- The receiver ----

  /**
   * What has been written when the receiver waits for h: the first h chunks; or, once a stale
   * chunk was written, the first 489, the stale one in the place of the next, and those up to h.
   */
  function Out(file: File, h: nat, stale: bool): seq<Byte> {
    if stale && h >= 490 then Prefix(file, 489) + Chunk(file, 233) + Prefix(file, h)[|Prefix(file, 490)|..]
    else Prefix(file, h)
  }

  lemma OutGrows(file: File, h: nat, stale: bool)
    requires stale ==> h >= 490
    ensures Out(file, h, stale) + Chunk(file, h) == Out(file, h + 1, stale)
  {
    hide Chunk;
    PrefixGrows(file, h);
    if stale {
      PrefixOrder(file, 490, h);
      var k := |Prefix(file, 490)|;
      assert Prefix(file, h + 1)[k..] == Prefix(file, h)[k..] + Chunk(file, h);
      Associate(Prefix(file, 489) + Chunk(file, 233), Prefix(file, h)[k..], Chunk(file, h));
    }
  }

  lemma PrefixOrder(file: File, a: nat, b: nat)
    requires a <= b
    ensures |Prefix(file, a)| <= |Prefix(file, b)|
  {
  }

  /** The receiver waits for index h, has written what it should, and has queued the indices q. */
  ghost predicate Waiting(file: File, r: R.ReceiverState, h: nat, q: seq<int>, stale: bool) {
    && 1 <= r.windowsize <= MAX_WINDOW_SIZE && !r.eofReached && (stale ==> h >= 490)
    && r.seqnumHead == Seqnum(h) && r.output == Out(file, h, stale)
    && Carries(file, q, r.queue) && |q| <= 8
    && forall k :: 0 <= k < |q| ==> Chunk(file, q[k]) != []
  }

  lemma AcceptQueues(file: File, r: R.ReceiverState, h: nat, q: seq<int>, stale: bool, x: int, p: Packet, k: nat)
    requires Waiting(file, r, h, q, stale) && |q| < 8 && IsPart(file, x, p) && Chunk(file, x) != []
    requires IsInWindow(Seqnum(h), r.windowsize, Seqnum(x))
    requires R.Scan(r.queue, Seqnum(h), r.windowsize, Seqnum(x), 0) == R.Before(k)
    ensures k <= |q|
    ensures var r1 := R.AcceptData(r, p);
            && Waiting(file, r1, h, InsertAt(q, k, x), stale) && r1.queue == InsertAt(r.queue, k, p)
            && r1.windowsize == if Seqnum(x) == Seqnum(h) then Min(31, r.windowsize + 1) else r.windowsize
  {
    hide Seqnum, IsInWindow, R.Scan, Out, Chunk, IsPart;
    RT.PartNumber(file, x, p);
    RT.InsertCarries(file, q, r.queue, k, x, p);
  }

  lemma AcceptIgnores(r: R.ReceiverState, p: Packet)
    requires !IsInWindow(r.seqnumHead, r.windowsize, p.seqnum)
    ensures R.AcceptData(r, p) == r.(resentAck := true)
  {
  }

  lemma FlushWaits(file: File, r: R.ReceiverState, h: nat, q: seq<int>, stale: bool)
    requires Waiting(file, r, h, q, stale) && (q == [] || Seqnum(q[0]) != Seqnum(h))
    ensures var (r1, written) := R.Flush(r);
            && written != -1 && Waiting(file, r1, h, q, stale) && r1.queue == r.queue && r1.windowsize == r.windowsize
            && (r.resentAck ==> r1.resentAck)
  {
    hide Seqnum, Out, Chunk, IsPart;
    if q != [] {
      RT.PartNumber(file, q[0], r.queue[0]);
    }
  }

  /** The first n numbers queued are those expected, whatever their indices. */
  predicate Expected(h: nat, q: seq<int>, n: nat) {
    && n <= |q| && (forall k :: 0 <= k < n ==> Seqnum(q[k]) == Seqnum(h + k))
    && (n < |q| ==> Seqnum(q[n]) != Seqnum(h + n))
  }

  lemma {:induction false} ExpectedRun(file: File, queue: seq<Packet>, h: nat, q: seq<int>, n: nat)
    requires Carries(file, q, queue) && Expected(h, q, n)
    requires forall k :: 0 <= k < |q| ==> Chunk(file, q[k]) != []
    ensures R.RunLength(queue, Seqnum(h)) == n
    decreases n
  {
    hide Seqnum, Chunk, IsPart;
    if q != [] {
      RT.PartNumber(file, q[0], queue[0]);
      if n > 0 {
        RT.NextSeqnum(h);
        assert forall k :: 0 <= k < n - 1 ==> Seqnum(q[1..][k]) == Seqnum(h + (k + 1)) && h + (k + 1) == h + 1 + k;
        ExpectedRun(file, queue[1..], h + 1, q[1..], n - 1);
      }
    }
  }

  lemma FlushWrites(file: File, r: R.ReceiverState, h: nat, q: seq<int>, stale: bool, n: nat)
    requires Waiting(file, r, h, q, stale) && n > 0 && Expected(h, q, n)
    ensures var (r1, written) := R.Flush(r);
            && written == n && r1.queue == r.queue[n..] && r1.output == r.output + R.Payloads(r.queue[..n])
            && r1.seqnumHead == Seqnum(h + n) && r1.windowsize == r.windowsize && !r1.eofReached
  {
    hide Seqnum, Chunk, IsPart, Out, R.Payloads, R.RunLength;
    ExpectedRun(file, r.queue, h, q, n);
    RT.AdvanceSeqnum(h, n);
    if n < |q| {
      RT.PartNumber(file, q[n], r.queue[n]);
    }
  }

  /** Indices written where they belong. */
  lemma FlushDeliversRun(file: File, r: R.ReceiverState, h: nat, q: seq<int>, stale: bool, n: nat)
    requires Waiting(file, r, h, q, stale) && 1 <= n <= 2 && n <= |q| && Expected(h, q, n)
    requires q[0] == h && (n == 2 ==> q[1] == h + 1)
    ensures var (r1, written) := R.Flush(r);
            written == n && Waiting(file, r1, h + n, q[n..], stale) && r1.windowsize == r.windowsize
  {
    hide Seqnum, Chunk, IsPart, R.Flush, Out, Expected, R.Payloads;
    FlushWrites(file, r, h, q, stale, n);
    RunPayload(file, r.queue, q, stale, h, n);
  }

  lemma RunPayload(file: File, queue: seq<Packet>, q: seq<int>, stale: bool, h: nat, n: nat)
    requires Carries(file, q, queue) && 1 <= n <= 2 && n <= |q| && q[0] == h && (n == 2 ==> q[1] == h + 1)
    requires stale ==> h >= 490
    ensures Out(file, h, stale) + R.Payloads(queue[..n]) == Out(file, h + n, stale)
  {
    hide Chunk, IsPart, Out, R.Payloads;
    RT.PartNumber(file, q[0], queue[0]);
    FrontPayload(queue, n);
    OutGrows(file, h, stale);
    if n == 2 {
      RT.PartNumber(file, q[1], queue[1]);
      OutGrows(file, h + 1, stale);
      Associate(Out(file, h, stale), Chunk(file, h), Chunk(file, h + 1));
    }
  }

  lemma FrontPayload(queue: seq<Packet>, n: nat)
    requires 1 <= n <= 2 && n <= |queue|
    ensures R.Payloads(queue[..n]) == if n == 1 then queue[0].payload else queue[0].payload + queue[1].payload
  {
    assert queue[..1] == [queue[0]];
    assert R.Payloads([queue[0]]) == queue[0].payload + R.Payloads([]) == queue[0].payload;
    if n == 2 {
      assert queue[..2] == [queue[0], queue[1]] && [queue[0], queue[1]][1..] == [queue[1]];
      assert R.Payloads([queue[1]]) == queue[1].payload + R.Payloads([]) == queue[1].payload;
    }
  }

  // ---- Events at the receiver ----

  /** A complete DATA packet arrives; what is decoded differs from it in the checksums only. */
  lemma Arrives(crc: Checksum, file: File, y: System, x: int, p: Packet) returns (q: Packet)
    requires Sane(y) && !y.done && y.data != [] && !y.r.eofReached
    requires IsPart(file, x, p) && y.data[0] == WireForm(crc, p)
    ensures IsPart(file, x, q)
    ensures var (r1, written) := R.Flush(R.AcceptData(y.r, q));
            written != -1 ==> Next(crc, file, y, Receive(STALE)) == y.(r := r1, data := y.data[1..])
  {
    hide DecodeInto, WireForm, Seqnum, Chunk, R.AcceptData, R.Flush;
    CodecTheorems.RoundTrip(crc, p, STALE[|y.data[0]|..]);
    var (st, d) := Decoded(crc, y.data[0], STALE);
    q := d;
    NoWires(crc, y.acks);
  }

  /** A complete packet is queued at position k, and nothing can be delivered. */
  lemma ReceiveQueues(crc: Checksum, file: File, y: System, h: nat, q: seq<int>, stale: bool, x: int, p: Packet, k: nat)
    requires Sane(y) && !y.done && y.data != [] && Waiting(file, y.r, h, q, stale) && |q| < 8
    requires IsPart(file, x, p) && y.data[0] == WireForm(crc, p) && Chunk(file, x) != []
    requires IsInWindow(Seqnum(h), y.r.windowsize, Seqnum(x))
    requires R.Scan(y.r.queue, Seqnum(h), y.r.windowsize, Seqnum(x), 0) == R.Before(k)
    requires k <= |q| && Seqnum(InsertAt(q, k, x)[0]) != Seqnum(h)
    ensures var z := Next(crc, file, y, Receive(STALE));
            && z == y.(r := z.r, data := y.data[1..]) && Waiting(file, z.r, h, InsertAt(q, k, x), stale)
            && z.r.windowsize == if Seqnum(x) == Seqnum(h) then Min(31, y.r.windowsize + 1) else y.r.windowsize
  {
    hide Next, Seqnum, IsInWindow, R.Scan, R.AcceptData, R.Flush, WireForm, IsPart, Chunk, InsertAt;
    var d := Arrives(crc, file, y, x, p);
    assert y.r.seqnumHead == Seqnum(h);
    AcceptQueues(file, y.r, h, q, stale, x, d, k);
    FlushWaits(file, R.AcceptData(y.r, d), h, InsertAt(q, k, x), stale);
  }

  /** The packet awaited goes to the front, and n packets are delivered. */
  lemma ReceiveRun(crc: Checksum, file: File, y: System, h: nat, q: seq<int>, stale: bool, p: Packet, n: nat)
    requires Sane(y) && !y.done && y.data != [] && Waiting(file, y.r, h, q, stale) && |q| < 8
    requires IsPart(file, h, p) && y.data[0] == WireForm(crc, p) && Chunk(file, h) != []
    requires R.Scan(y.r.queue, Seqnum(h), y.r.windowsize, Seqnum(h), 0) == R.Before(0)
    requires 1 <= n <= 2 && Expected(h, [h] + q, n) && (n == 2 ==> q[0] == h + 1)
    ensures var z := Next(crc, file, y, Receive(STALE));
            && z == y.(r := z.r, data := y.data[1..]) && Waiting(file, z.r, h + n, q[n - 1..], stale)
            && z.r.windowsize == Min(31, y.r.windowsize + 1)
  {
    hide Next, Seqnum, R.Scan, R.AcceptData, R.Flush, WireForm, IsPart, Chunk, Carries, Out, InsertAt, Sane, IsInWindow;
    var d := Arrives(crc, file, y, h, p);
    HeadIsInWindow(Seqnum(h), y.r.windowsize);
    AcceptQueues(file, y.r, h, q, stale, h, d, 0);
    InFront(q, h, n);
    FlushDeliversRun(file, R.AcceptData(y.r, d), h, [h] + q, stale, n);
  }

  lemma InFront(q: seq<int>, h: int, n: nat)
    requires 1 <= n <= |q| + 1
    ensures InsertAt(q, 0, h) == [h] + q && ([h] + q)[n..] == q[n - 1..]
  {
  }

  lemma HeadIsInWindow(head: Byte, windowsize: int)
    requires 1 <= windowsize <= 31
    ensures IsInWindow(head, windowsize, head)
  {
  }

  /** A packet out of the window only makes the receiver want to answer. */
  lemma ReceiveIgnores(crc: Checksum, file: File, y: System, h: nat, q: seq<int>, stale: bool, x: int, p: Packet)
    requires Sane(y) && !y.done && y.data != [] && Waiting(file, y.r, h, q, stale)
    requires IsPart(file, x, p) && y.data[0] == WireForm(crc, p)
    requires !IsInWindow(Seqnum(h), y.r.windowsize, Seqnum(x))
    requires q == [] || Seqnum(q[0]) != Seqnum(h)
    ensures var z := Next(crc, file, y, Receive(STALE));
            && z == y.(r := z.r, data := y.data[1..]) && Waiting(file, z.r, h, q, stale)
            && z.r.windowsize == y.r.windowsize && z.r.resentAck
  {
    hide Next, Seqnum, IsInWindow, R.AcceptData, R.Flush, WireForm, IsPart;
    var d := Arrives(crc, file, y, x, p);
    RT.PartNumber(file, x, d);
    AcceptIgnores(y.r, d);
    FlushWaits(file, y.r.(resentAck := true), h, q, stale);
  }

  /** A truncated packet of the window halves it, and is answered. */
  lemma ReceiveCut(crc: Checksum, file: File, y: System, h: nat, q: seq<int>, stale: bool, x: int, p: Packet)
    requires Sane(y) && !y.done && y.data != [] && Waiting(file, y.r, h, q, stale)
    requires IsPart(file, x, p) && y.data[0] == Cut(WireForm(crc, p)) && Chunk(file, x) != []
    requires IsInWindow(Seqnum(h), y.r.windowsize, Seqnum(x))
    requires q == [] || Seqnum(q[0]) != Seqnum(h)
    requires y.r.windowsize == 31
    ensures var z := Next(crc, file, y, Receive(STALE));
            && z == y.(r := z.r, data := y.data[1..], acks := z.acks) && |z.acks| == |y.acks| + 1
            && Waiting(file, z.r, h, q, stale) && z.r.windowsize == 15
  {
    hide DecodeInto, WireForm, Seqnum, Chunk, IsInWindow, R.Flush, Cut;
    var (st, d) := Decoded(crc, y.data[0], STALE);
    CutNumber(crc, file, x, p);
    RT.PartNumber(file, x, p);
    var r1 := R.DecreaseWindow(y.r);
    assert r1.queue == y.r.queue;
    FlushWaits(file, r1, h, q, stale);
    assert R.Receive(y.r, st, d) == (R.Flush(r1).0, [R.Response(Nack, d.seqnum, r1.windowsize, d.timestamp)], false);
  }

  lemma CutNumber(crc: Checksum, file: File, x: int, p: Packet)
    requires IsPart(file, x, p) && Chunk(file, x) != []
    ensures var (st, d) := Decoded(crc, Cut(WireForm(crc, p)), STALE);
            st == BadCrc && d.kind == Data && d.tr == 1 && d.seqnum == Seqnum(x)
  {
    hide DecodeInto, Seqnum, Chunk;
    WireStart(crc, p);
    var w := Cut(WireForm(crc, p));
    var b := Arrived(w, STALE);
    assert b[..12] == w;
    CodecTheorems.TruncatedHeaderIsTrusted(crc, p, b);
  }

  /** The receiver answers. */
  lemma Answers(crc: Checksum, file: File, y: System)
    requires Sane(y) && !y.done && y.r.resentAck && y.acks == []
    ensures var z := Next(crc, file, y, Answer);
            && z == y.(r := z.r, acks := z.acks) && z.r == y.r.(resentAck := false)
            && z.acks == [WireForm(crc, R.AckOf(y.r))]
  {
    hide WireForm;
    AckOfIsReply(crc, y.r, y.r.seqnumHead);
  }

  // ---- Events at the sender ----

  function Always(t: Word): S.Clock {
    _ => t
  }

  predicate Stamped(list: seq<Packet>, t: Word) {
    forall k :: 0 <= k < |list| ==> list[k].timestamp == t
  }

  /** The sender's list starts at index h, everything in it was sent at t, and nothing was resent since. */
  ghost predicate Stocked(file: File, s: S.SenderState, h: nat, t: Word) {
    ST.Contiguous(file, s, h) && Stamped(s.list, t) && s.lastRst == 0
  }

  lemma {:induction false} NothingTimesOut(list: seq<Packet>, t: Word, n: nat)
    requires Stamped(list, t) && n <= |list|
    ensures S.Resent(list, Always(t), n) == [] && S.FinalsResent(list, Always(t), n) == 0
    ensures S.Refresh(list, Always(t)) == list
  {
    if n > 0 {
      NothingTimesOut(list, t, n - 1);
      assert !S.TimedOut(list[n - 1], t);
    }
    assert forall k :: 0 <= k < |list| ==> S.Refreshed(list[k], Always(t)(k)) == list[k];
  }

  lemma {:induction false} EverythingTimesOut(list: seq<Packet>, t: Word, t': Word, n: nat)
    requires Stamped(list, t) && n <= |list| && (t' - t) % 0x1_0000_0000 > S.TIMEOUT
    ensures S.Resent(list, Always(t'), n) == S.Refresh(list, Always(t'))[..n]
    ensures Stamped(S.Refresh(list, Always(t')), t')
  {
    var again := S.Refresh(list, Always(t'));
    assert forall k :: 0 <= k < |list| ==> again[k] == S.Refreshed(list[k], t') && S.TimedOut(list[k], t');
    if n > 0 {
      EverythingTimesOut(list, t, t', n - 1);
      assert again[..n] == again[..n - 1] + [again[n - 1]];
    }
  }

  /** The window is filled up, with the final packet at the end, and nothing is sent again. */
  lemma SendsFresh(crc: Checksum, file: File, y: System, h: nat, t: Word)
    requires Sane(y) && y.phase.Sending? && Stocked(file, y.s, h, t) && file != []
    ensures var z := Next(crc, file, y, Send(Always(t), Always(t)));
            && z == y.(phase := Reading, s := z.s, data := z.data)
            && Stocked(file, z.s, h, t) && z.s.windowsize == y.s.windowsize
            && |z.s.list| == Min(z.s.windowsize, ChunkCount(file) + 1 - h)
            && y.s.list <= z.s.list && AllSegments(z.s.list)
            && z.data == y.data + Wires(crc, z.s.list)[|y.s.list|..]
  {
    hide IsPart, Parts, Wires, Seqnum, ChunkCount, S.Resend, S.Resent, Sane, S.FillOrFinal, Next, AllSegments, ST.Ready,
         Stamped;
    var (s1, sent) := S.FillOrFinal(file, y.s, Always(t));
    FillsUp(file, y.s, h, t);
    ST.FillOrFinalKeepsWindow(file, y.s, h, Always(t));
    NothingTimesOut(s1.list, t, |s1.list|);
    ResendsNothing(s1, t);
    SendWrites(crc, file, y, Always(t), Always(t));
    WiresSuffix(crc, y.s.list, sent);
    NoWires(crc, Wires(crc, sent));
  }

  lemma SendWrites(crc: Checksum, file: File, y: System, fillClock: S.Clock, resendClock: S.Clock)
    requires Sane(y) && y.phase.Sending?
    ensures var (s1, sent) := S.FillOrFinal(file, y.s, fillClock);
            var again := S.Resent(s1.list, resendClock, |s1.list|);
            var s2 := S.Resend(s1, resendClock);
            && AllSegments(again)
            && Next(crc, file, y, Send(fillClock, resendClock)) ==
               y.(phase := if S.GivesUp(s2) then GaveUp else Reading, s := s2,
                  data := y.data + (Wires(crc, sent) + Wires(crc, again)))
  {
    hide Wires, S.FillOrFinal, S.Resent, S.Resend, AllSegments;
    ResentAreEncodable(S.FillOrFinal(file, y.s, fillClock).0, resendClock);
  }

  lemma WiresSuffix(crc: Checksum, a: seq<Packet>, b: seq<Packet>)
    requires AllSegments(a + b) && AllSegments(b)
    ensures Wires(crc, a + b)[|a|..] == Wires(crc, b)
  {
    hide WireForm, IsSegment;
  }

  lemma FillsUp(file: File, s: S.SenderState, h: nat, t: Word)
    requires Stocked(file, s, h, t) && file != []
    ensures var (s1, sent) := S.FillOrFinal(file, s, Always(t));
            && |s1.list| == Min(s.windowsize, ChunkCount(file) + 1 - h) && s1.list == s.list + sent && Stamped(s1.list, t)
            && s1.lastRst == 0
  {
    hide IsPart, Parts, Seqnum, ChunkCount, AllSegments, S.FillOrFinal;
    ST.FillOrFinalKeepsWindow(file, s, h, Always(t));
    FillsAll(file, s, t);
  }

  /** Filling stops at a full window or behind the final packet. */
  lemma FillsAll(file: File, s: S.SenderState, t: Word)
    requires S.Healthy(s) && Stamped(s.list, t) && s.globalPkt <= ChunkCount(file)
    ensures var (s1, sent) := S.FillOrFinal(file, s, Always(t));
            && s1.list == s.list + sent && Stamped(s1.list, t) && s1.lastRst == s.lastRst
            && (|s1.list| == s.windowsize || s1.lastPkt)
  {
    hide Seqnum, Chunk, AllSegments, ChunkCount;
  }

  lemma ResendsNothing(s: S.SenderState, t: Word)
    requires S.Refresh(s.list, Always(t)) == s.list && S.FinalsResent(s.list, Always(t), |s.list|) == 0
    ensures S.Resend(s, Always(t)) == s
  {
  }

  /** Everything is sent again, far from the end of the file. */
  lemma SendsAgain(crc: Checksum, file: File, y: System, h: nat, t: Word, t': Word)
    requires Sane(y) && y.phase.Sending? && Stocked(file, y.s, h, t) && |y.s.list| == y.s.windowsize
    requires (t' - t) % 0x1_0000_0000 > S.TIMEOUT && file != [] && h + |y.s.list| <= ChunkCount(file)
    ensures var z := Next(crc, file, y, Send(Always(t'), Always(t')));
            && z == y.(phase := Reading, s := z.s, data := z.data)
            && Stocked(file, z.s, h, t') && z.s.windowsize == y.s.windowsize == |z.s.list|
            && AllSegments(z.s.list) && z.data == y.data + Wires(crc, z.s.list)
  {
    hide IsPart, WireForm, Seqnum, Chunk, ChunkCount, S.Resent, Sane, Next, S.FillOrFinal, S.Refresh,
         S.FinalsResent;
    FillsNothing(file, y.s, Always(t'));
    SendWrites(crc, file, y, Always(t'), Always(t'));
    ST.ResendKeepsWindow(file, y.s, h, Always(t'));
    EverythingTimesOut(y.s.list, t, t', |y.s.list|);
    NoFinals(file, y.s.list, h, Always(t'), |y.s.list|);
    var again := S.Refresh(y.s.list, Always(t'));
    assert again[..|y.s.list|] == again;
    assert Wires(crc, []) + Wires(crc, again) == Wires(crc, again);
  }

  lemma {:induction false} NoFinals(file: File, list: seq<Packet>, h: nat, clock: S.Clock, n: nat)
    requires Parts(file, h, list) && h + |list| <= ChunkCount(file) && n <= |list|
    ensures S.FinalsResent(list, clock, n) == 0
  {
    hide Seqnum, Chunk, ChunkCount;
    if n > 0 {
      NoFinals(file, list, h, clock, n - 1);
      assert IsPart(file, h + (n - 1), list[n - 1]);
      ChunkIsEmpty(file, h + (n - 1));
    }
  }

  lemma FillsNothing(file: File, s: S.SenderState, clock: S.Clock)
    requires S.Healthy(s) && |s.list| == s.windowsize
    ensures S.FillOrFinal(file, s, clock) == (s, [])
  {
    hide AllSegments, Chunk, Seqnum;
    assert S.FirstFilled(file, s, clock, 0) == [];
    assert s.list + [] == s.list;
  }

  /** An acknowledgement is read that announces window v: the list is cut to v and loses what lies below a. */
  lemma ReadsAck(crc: Checksum, file: File, y: System, h: nat, t: Word, a: nat, v: Byte, stamp: Word)
    requires Sane(y) && y.phase.Reading? && Stocked(file, y.s, h, t) && file != []
    requires 1 <= v <= MAX_WINDOW_SIZE && y.s.list != [] && h < a <= h + Min(|y.s.list|, v)
    requires v < y.s.windowsize ==> !y.s.lastPkt
    requires y.acks == [WireForm(crc, R.Response(Ack, Seqnum(a), v, stamp))]
    ensures var z := Next(crc, file, y, Read(STALE));
            && z == y.(phase := if a > ChunkCount(file) then AllAcked else Sending, s := z.s, acks := [])
            && Stocked(file, z.s, a, t) && z.s.windowsize == v
            && z.s.list == y.s.list[a - h..Min(|y.s.list|, v)]
  {
    hide IsPart, Parts, WireForm, Seqnum, ChunkCount, S.AckWindow, S.UpdateWindow, ST.Acked, DecodeInto, Sane;
    CodecTheorems.RoundTrip(crc, R.Response(Ack, Seqnum(a), v, stamp), STALE[|y.acks[0]|..]);
    var (st, p) := Decoded(crc, y.acks[0], STALE);
    var s0 := y.s.(lastRst := 0);
    assert ST.Contiguous(file, s0, h);
    ST.UpdateKeepsWindow(file, s0, h, v);
    UpdateCuts(s0, v);
    var s1 := S.UpdateWindow(s0, v);
    AckMovesBase(file, s1, h, a);
    ST.AckKeepsWindow(file, s1, h, Seqnum(a));
    AckKeepsNext(s1, Seqnum(a));
    assert s1.list[a - h..] == y.s.list[a - h..Min(|y.s.list|, v)];
  }

  lemma UpdateCuts(s: S.SenderState, v: Byte)
    requires s.list != [] && v > 0 && |s.list| <= s.windowsize && s.lastRst == 0
    ensures var s1 := S.UpdateWindow(s, v);
            && s1.windowsize == v && s1.list == s.list[..Min(|s.list|, v)] && s1.lastRst == 0
            && (v >= s.windowsize ==> s1.lastPkt == s.lastPkt)
  {
    assert s.list[..|s.list|] == s.list;
  }

  // ---- Rounds ----

  /** Between rounds: everything sent and not acknowledged is in flight, in order and once. */
  ghost predicate Steady(crc: Checksum, file: File, y: System, h: nat, q: seq<int>, stale: bool, t: Word) {
    && Sane(y) && y.phase.Sending? && !y.done && y.acks == []
    && Stocked(file, y.s, h, t) && AllSegments(y.s.list) && y.data == Wires(crc, y.s.list)
    && |y.s.list| < y.s.windowsize == y.r.windowsize && Waiting(file, y.r, h, q, stale)
  }

  /** What was received is acknowledged, after one more packet that is too old to be taken in. */
  lemma Acknowledged(crc: Checksum, file: File, y: System, h: nat, q: seq<int>, stale: bool, t: Word,
                     a: nat, x: int, p: Packet)
    returns (z: System)
    requires Sane(y) && y.phase.Reading? && !y.done && y.acks == [] && Stocked(file, y.s, h, t) && file != []
    requires Waiting(file, y.r, a, q, stale) && y.s.list != [] && h < a <= h + Min(|y.s.list|, y.r.windowsize)
    requires y.data != [] && IsPart(file, x, p) && y.data[0] == WireForm(crc, p)
    requires !IsInWindow(Seqnum(a), y.r.windowsize, Seqnum(x)) && (q == [] || Seqnum(q[0]) != Seqnum(a))
    requires y.r.windowsize < y.s.windowsize ==> !y.s.lastPkt
    ensures Leads(crc, file, y, z, 0) && Sane(z) && !z.done && z.acks == []
    ensures z.phase == if a > ChunkCount(file) then AllAcked else Sending
    ensures z.data == y.data[1..] && Waiting(file, z.r, a, q, stale) && z.r.windowsize == y.r.windowsize
    ensures Stocked(file, z.s, a, t) && z.s.windowsize == y.r.windowsize
    ensures z.s.list == y.s.list[a - h..Min(|y.s.list|, y.r.windowsize)]
  {
    hide Next, Seqnum, IsInWindow, WireForm, IsPart, Stocked, Carries, Leads, Out, Sane, Chunk, ChunkCount;
    LeadsNowhere(crc, file, y);
    ReceiveIgnores(crc, file, y, a, q, stale, x, p);
    LeadsStep(crc, file, y, y, 0, Receive(STALE));
    var y1 := Next(crc, file, y, Receive(STALE));
    LeadsStep(crc, file, y, y1, 0, Answer);
    Answers(crc, file, y1);
    var y2 := Next(crc, file, y1, Answer);
    ReadsAck(crc, file, y2, h, t, a, y1.r.windowsize, y1.r.lastTimestamp);
    LeadsStep(crc, file, y, y2, 0, Read(STALE));
    z := Next(crc, file, y2, Read(STALE));
  }

  /** Nothing queued is in the way of index h and the next one. */
  predicate Clear(h: nat, windowsize: int, q: seq<int>) {
    q == [] || (&& Seqnum(q[0]) != Seqnum(h) && Seqnum(q[0]) != Seqnum(h + 1)
                && (Seqnum(h) + windowsize >= 256 || Seqnum(q[0]) > Seqnum(h)))
  }

  lemma ScanFront(file: File, queue: seq<Packet>, q: seq<int>, h: nat, windowsize: nat)
    requires 1 <= windowsize <= 31 && Carries(file, q, queue)
    requires q == [] || (Seqnum(q[0]) != Seqnum(h) && (Seqnum(h) + windowsize >= 256 || Seqnum(q[0]) > Seqnum(h)))
    ensures R.Scan(queue, Seqnum(h), windowsize, Seqnum(h), 0) == R.Before(0)
  {
    hide Chunk;
    if q != [] {
      RT.PartNumber(file, q[0], queue[0]);
    }
  }

  lemma FirstPart(file: File, s: S.SenderState, h: nat, t: Word, k: nat)
    requires Stocked(file, s, h, t) && k < |s.list|
    ensures IsPart(file, h + k, s.list[k]) && AllSegments(s.list)
  {
    hide IsPart, Seqnum, ChunkCount;
  }

  lemma OldIsIgnored(h: nat, windowsize: int, i: int)
    requires 1 <= windowsize <= 31 && h - 3 <= i < h
    ensures !IsInWindow(Seqnum(h), windowsize, Seqnum(i))
  {
    hide Seqnum, IsInWindow;
    WindowTestOnIndices(h, windowsize, i);
  }

  lemma WiresSlice(crc: Checksum, list: seq<Packet>, i: nat, j: nat)
    requires AllSegments(list) && i <= j <= |list|
    ensures AllSegments(list[i..j]) && Wires(crc, list[i..j]) == Wires(crc, list)[i..j]
  {
    hide WireForm, IsSegment;
  }

  /** The first half of a round: h is sent, repeated and delivered once. */
  lemma Delivers(crc: Checksum, file: File, y: System, h: nat, q: seq<int>, stale: bool, t: Word) returns (z: System)
    requires Steady(crc, file, y, h, q, stale, t) && h < ChunkCount(file)
    requires Clear(h, y.r.windowsize, q) && |q| < 8
    ensures Leads(crc, file, y, z, 0) && Sane(z) && z.phase.Reading? && !z.done && z.acks == []
    ensures Stocked(file, z.s, h, t) && AllSegments(z.s.list) && z.s.list != [] && z.data == Wires(crc, z.s.list)
    ensures |z.s.list| <= z.s.windowsize == y.r.windowsize
    ensures Waiting(file, z.r, h + 1, q, stale) && z.r.windowsize == Min(31, y.r.windowsize + 1)
  {
    hide Next, Seqnum, IsInWindow, WireForm, IsPart, Stocked, Carries, Leads, Out, Sane, Chunk, ChunkCount, R.Scan,
         Wires, AllSegments;
    NotEmpty(file, h);
    SendsFresh(crc, file, y, h, t);
    LeadsNowhere(crc, file, y);
    LeadsStep(crc, file, y, y, 0, Send(Always(t), Always(t)));
    var y1 := Next(crc, file, y, Send(Always(t), Always(t)));
    WiresGrow(crc, y.s.list, y1.s.list);
    FirstPart(file, y1.s, h, t, 0);
    var y2 := RepeatsFirst(crc, file, y, y1, 0);
    ScanFront(file, y2.r.queue, q, h, y2.r.windowsize);
    ChunkIsEmpty(file, h);
    ReceiveRun(crc, file, y2, h, q, stale, y1.s.list[0], 1);
    LeadsStep(crc, file, y, y2, 0, Receive(STALE));
    z := Next(crc, file, y2, Receive(STALE));
    assert q[1 - 1..] == q;
  }

  /** One round: h is sent, repeated, delivered once and acknowledged; the queue stays as it is. */
  lemma Round(crc: Checksum, file: File, y: System, h: nat, q: seq<int>, stale: bool, t: Word) returns (z: System)
    requires Steady(crc, file, y, h, q, stale, t) && h < ChunkCount(file)
    requires Clear(h, y.r.windowsize, q) && |q| < 8
    ensures Leads(crc, file, y, z, 0) && Steady(crc, file, z, h + 1, q, stale, t)
    ensures z.r.windowsize == Min(31, y.r.windowsize + 1)
  {
    hide Next, Seqnum, IsInWindow, WireForm, IsPart, Stocked, Carries, Leads, Out, Sane, Chunk, ChunkCount, Wires,
         AllSegments;
    NotEmpty(file, h);
    SteadyIsSane(crc, file, y, h, q, stale, t);
    var y1 := Delivers(crc, file, y, h, q, stale, t);
    var list := y1.s.list;
    FirstPart(file, y1.s, h, t, 0);
    OldIsIgnored(h + 1, y1.r.windowsize, h);
    z := Acknowledged(crc, file, y1, h, q, stale, t, h + 1, h, list[0]);
    LeadsOn(crc, file, y, y1, z, 0, 0);
    WiresSlice(crc, list, 1, |list|);
    assert z.s.list == list[1..|list|] && z.data == Wires(crc, list)[1..|list|];
  }

  lemma NotEmpty(file: File, h: nat)
    ensures h < ChunkCount(file) ==> file != []
  {
  }

  lemma WiresGrow(crc: Checksum, a: seq<Packet>, b: seq<Packet>)
    requires a <= b && AllSegments(a) && AllSegments(b)
    ensures Wires(crc, a) + Wires(crc, b)[|a|..] == Wires(crc, b)
    ensures b != [] ==> Wires(crc, b)[0] == WireForm(crc, b[0])
  {
    hide WireForm, IsSegment;
  }

  lemma RepeatsFirst(crc: Checksum, file: File, x: System, y: System, n: nat) returns (z: System)
    requires Leads(crc, file, x, y, n) && y.data != []
    ensures Leads(crc, file, x, z, n) && Sane(z) && z == y.(data := [y.data[0]] + y.data)
  {
    hide Leads, Sane, SendStep;
    LeadsStep(crc, file, x, y, n, RepeatData(0));
    z := Next(crc, file, y, RepeatData(0));
    assert InsertAt(y.data, 0, y.data[0]) == [y.data[0]] + y.data;
  }

  /** Clear at index i, when the window has grown with every round since h. */
  predicate ClearAt(h: nat, windowsize: int, q: seq<int>, i: int) {
    i >= h && Clear(i, Min(31, windowsize + (i - h)), q)
  }

  lemma {:induction false} ManyRounds(crc: Checksum, file: File, y: System, h: nat, q: seq<int>, stale: bool, t: Word,
                                      goal: nat)
    returns (z: System)
    requires Steady(crc, file, y, h, q, stale, t) && h <= goal <= ChunkCount(file) && |q| < 8
    requires forall i :: h <= i < goal ==> ClearAt(h, y.r.windowsize, q, i)
    ensures Leads(crc, file, y, z, 0) && Steady(crc, file, z, goal, q, stale, t)
    ensures z.r.windowsize == Min(31, y.r.windowsize + (goal - h))
    decreases goal - h
  {
    hide Leads, ChunkCount, Steady, ClearAt;
    SteadyIsSane(crc, file, y, h, q, stale, t);
    if h == goal {
      LeadsNowhere(crc, file, y);
      z := y;
    } else {
      assert ClearAt(h, y.r.windowsize, q, h);
      ClearNow(h, y.r.windowsize, q);
      var z1 := Round(crc, file, y, h, q, stale, t);
      var next, windowsize := h + 1, z1.r.windowsize;
      forall i | next <= i < goal
        ensures ClearAt(next, windowsize, q, i)
      {
        ClearLater(h, y.r.windowsize, q, i);
      }
      z := ManyRounds(crc, file, z1, next, q, stale, t, goal);
      LeadsOn(crc, file, y, z1, z, 0, 0);
    }
  }

  lemma ClearNow(h: nat, windowsize: int, q: seq<int>)
    requires 1 <= windowsize <= 31
    ensures ClearAt(h, windowsize, q, h) ==> Clear(h, windowsize, q)
  {
    hide Clear;
  }

  lemma ClearLater(h: nat, windowsize: int, q: seq<int>, i: int)
    requires i > h && 1 <= windowsize <= 31 && ClearAt(h, windowsize, q, i)
    ensures ClearAt(h + 1, Min(31, windowsize + 1), q, i)
  {
    hide Clear;
    assert Min(31, Min(31, windowsize + 1) + (i - (h + 1))) == Min(31, windowsize + (i - h));
  }

  lemma SteadyIsSane(crc: Checksum, file: File, y: System, h: nat, q: seq<int>, stale: bool, t: Word)
    requires Steady(crc, file, y, h, q, stale, t)
    ensures Sane(y) && 1 <= y.r.windowsize <= 31
  {
    hide Stocked, Carries, Out;
  }
}
