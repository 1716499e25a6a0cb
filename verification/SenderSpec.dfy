/**
 * What each operation of src/read-write/read_write_sender.c does to the sender's variables,
 * as functions on their values.  The class in Senders is proved to compute these.
 */
module SenderSpec {
  import opened Bytes
  import opened Packets
  import opened Files
  import opened Seqnums

  const TIMEOUT := 2000
  const MAX_RESENT_LAST_PKT := 4

  /**
   * The static variables, the window structure, and the packets of its list.  A negative
   * globalPkt is the unsigned counter after it was decremented past zero.
   */
  datatype SenderState = SenderState(globalPkt: int, eofReached: bool, lastPkt: bool, lastRst: nat,
                                     seqnumHead: Byte, seqnumTail: Byte, windowsize: nat, list: seq<Packet>)

  /** One reading of time_millis for each position of the list. */
  type Clock = nat -> Word

  const START := SenderState(0, false, false, 0, 0, 0, 1, [])

  /** A DATA packet as the sender builds it; the final packet is one without payload. */
  function Segment(seqnum: Byte, window: Byte, payload: seq<Byte>, timestamp: Word): Packet
    requires |payload| <= MAX_PAYLOAD_SIZE
  {
    BLANK.(kind := Data, seqnum := seqnum, window := window, length := |payload|, payload := payload,
    timestamp := timestamp)
  }

  /** What holds of the sender's variables whatever the peer sends. */
  predicate Healthy(s: SenderState) {
    && 1 <= s.windowsize <= MAX_WINDOW_SIZE
    && |s.list| <= s.windowsize
    && AllSegments(s.list)
  }

  // ---- fill_window ----

  function Room(s: SenderState): nat {
    if s.eofReached || s.windowsize <= |s.list| then 0 else s.windowsize - |s.list|
  }

  function Available(file: File, s: SenderState): nat {
    if ChunkCount(file) <= s.globalPkt then 0 else ChunkCount(file) - s.globalPkt
  }

  function FillCount(file: File, s: SenderState): nat {
    Min(Room(s), Available(file, s))
  }

  /** The first n packets that filling sends. */
  function FirstFilled(file: File, s: SenderState, clock: Clock, n: nat): (sent: seq<Packet>)
    requires Healthy(s)
    ensures |sent| == n
    ensures forall k :: 0 <= k < |sent| ==>
              sent[k] == Segment(Seqnum(s.globalPkt + k), s.windowsize, Chunk(file, s.globalPkt + k), clock(|s.list| + k))
    ensures AllSegments(sent)
  {
    seq(n, k requires 0 <= k =>
      Segment(Seqnum(s.globalPkt + k), s.windowsize, Chunk(file, s.globalPkt + k), clock(|s.list| + k)))
  }

  /** The variables after n packets of filling. */
  function Filled(file: File, s: SenderState, clock: Clock, n: nat): SenderState
    requires Healthy(s)
  {
    s.(globalPkt := s.globalPkt + n,
       seqnumHead := if s.list == [] && n > 0 then Seqnum(s.globalPkt) else s.seqnumHead,
       seqnumTail := if n > 0 then Seqnum(s.globalPkt + n - 1) else s.seqnumTail,
       list := s.list + FirstFilled(file, s, clock, n))
  }

  function FillSent(file: File, s: SenderState, clock: Clock): (sent: seq<Packet>)
    requires Healthy(s)
    ensures AllSegments(sent)
  {
    FirstFilled(file, s, clock, FillCount(file, s))
  }

  function Fill(file: File, s: SenderState, clock: Clock): SenderState
    requires Healthy(s)
  {
    var n := FillCount(file, s);
    Filled(file, s, clock, n).(eofReached := s.eofReached || n < Room(s))
  }

  // ---- send_final_pkt ----

  function Final(s: SenderState, now: Word): Packet
    requires Healthy(s)
  {
    Segment((s.seqnumTail + 1) % 256, s.windowsize, [], now)
  }

  function SendFinal(s: SenderState, now: Word): SenderState
    requires Healthy(s)
  {
    s.(seqnumTail := (s.seqnumTail + 1) % 256, list := s.list + [Final(s, now)], lastPkt := true)
  }

  // ---- resent_pkt ----

  predicate TimedOut(p: Packet, now: Word) {
    (now - p.timestamp) % 0x1_0000_0000 > TIMEOUT
  }

  function Refreshed(p: Packet, now: Word): Packet {
    if TimedOut(p, now) then p.(timestamp := now) else p
  }

  function Refresh(list: seq<Packet>, clock: Clock): (r: seq<Packet>)
    ensures |r| == |list|
  {
    seq(|list|, k requires 0 <= k < |list| => Refreshed(list[k], clock(k)))
  }

  /** What is written for the first n packets of the list. */
  function Resent(list: seq<Packet>, clock: Clock, n: nat): seq<Packet>
    requires n <= |list|
  {
    if n == 0 then [] else
    var now := clock(n - 1);
    Resent(list, clock, n - 1) + if TimedOut(list[n - 1], now) then [Refreshed(list[n - 1], now)] else []
  }

  lemma {:induction false} ResentAreSegments(list: seq<Packet>, clock: Clock, n: nat)
    requires n <= |list| && AllSegments(list)
    ensures AllSegments(Resent(list, clock, n))
  {
    if n > 0 {
      ResentAreSegments(list, clock, n - 1);
      assert IsSegment(list[n - 1]);
    }
  }

  /** How many of those are the final packet. */
  function FinalsResent(list: seq<Packet>, clock: Clock, n: nat): nat
    requires n <= |list|
  {
    if n == 0 then 0 else
    var again := TimedOut(list[n - 1], clock(n - 1)) && list[n - 1].length == 0;
    FinalsResent(list, clock, n - 1) + if again then 1 else 0
  }

  function Resend(s: SenderState, clock: Clock): SenderState {
    s.(list := Refresh(s.list, clock), lastRst := s.lastRst + FinalsResent(s.list, clock, |s.list|))
  }

  // ---- The sending half of the main loop ----

  function FillOrFinal(file: File, s: SenderState, clock: Clock): (r: (SenderState, seq<Packet>))
    requires Healthy(s)
    ensures Healthy(r.0) && AllSegments(r.1)
  {
    var s1 := Fill(file, s, clock);
    var filled := FillSent(file, s, clock);
    FillIsHealthy(file, s, clock);
    if !s1.lastPkt && s1.eofReached && |s1.list| < s1.windowsize
    then (SendFinal(s1, clock(|s1.list|)), filled + [Final(s1, clock(|s1.list|))])
    else (s1, filled)
  }

  /** Everything the sending half does, and the bytes it writes. */
  function SendPhase(crc: Checksum, file: File, s: SenderState, fillClock: Clock, resendClock: Clock)
    : (r: (SenderState, seq<Wire>))
    requires Healthy(s)
  {
    var (s1, sent) := FillOrFinal(file, s, fillClock);
    ResentAreSegments(s1.list, resendClock, |s1.list|);
    (Resend(s1, resendClock), Wires(crc, sent) + Wires(crc, Resent(s1.list, resendClock, |s1.list|)))
  }

  /** The loop leaves when the final packet was resent too often. */
  predicate GivesUp(s: SenderState) {
    s.lastPkt && s.lastRst > MAX_RESENT_LAST_PKT
  }

  lemma FillIsHealthy(file: File, s: SenderState, clock: Clock)
    requires Healthy(s)
    ensures Healthy(Fill(file, s, clock))
  {
  }

  // ---- ack_window ----

  /** Packets in front of the first one numbered `ack`. */
  function AckedCount(list: seq<Packet>, ack: Byte): (n: nat)
    ensures n <= |list|
  {
    if list == [] || list[0].seqnum == ack then 0 else 1 + AckedCount(list[1..], ack)
  }

  /** The variables once the n oldest packets are gone; seqnumHead misses the last removal. */
  function AfterRemoving(s: SenderState, n: nat): SenderState
    requires n <= |s.list|
  {
    s.(list := s.list[n..],
       seqnumHead := if n == 0 || |s.list| == 1 then s.seqnumHead
                     else if n < |s.list| then s.list[n].seqnum
                     else s.list[n - 1].seqnum)
  }

  function AckWindow(s: SenderState, ack: Byte): SenderState
    requires s.list != []
  {
    if !CanAckWindow(s.seqnumHead, s.seqnumTail, ack) then s else AfterRemoving(s, AckedCount(s.list, ack))
  }

  // ---- update_window ----

  predicate Shrinks(s: SenderState, newSize: Byte) {
    0 < newSize < s.windowsize
  }

  function UpdateWindow(s: SenderState, newSize: Byte): SenderState
    requires s.list != []
  {
    if newSize == 0 then s
    else if newSize >= s.windowsize then s.(windowsize := newSize)
    else
      var kept := Min(|s.list|, newSize);
      s.(windowsize := newSize, list := s.list[..kept],
         globalPkt := s.globalPkt - (|s.list| - kept),
         seqnumTail := s.list[kept - 1].seqnum, eofReached := false, lastPkt := false, lastRst := 0)
  }

  // ---- The receiving half of the main loop ----

  /** One incoming packet, as pkt_decode delivered it.  The flag says that the loop leaves. */
  function Handle(s: SenderState, st: Status, p: Packet): (SenderState, bool)
    requires s.list != []
  {
    var s0 := s.(lastRst := 0);
    if st != Ok || p.tr != 0 then (s0, false)
    else
      var s1 := UpdateWindow(s0, p.window);
      if p.kind != Ack then (s1, false)
      else
        var s2 := AckWindow(s1, p.seqnum);
        (s2, s2.lastPkt && s2.list == [])
  }
}
