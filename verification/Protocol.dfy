/**
 * Sender, receiver and the two channels between them, as one transition system over the
 * functions of SenderSpec and ReceiverSpec.  The channels carry encoded packets; they lose,
 * repeat and truncate, but do not reorder or corrupt (a corrupt packet counts as lost).
 */
module Protocol {
  import opened Bytes
  import opened Packets
  import opened Files
  import opened Seqnums
  import opened Seqs
  import S = SenderSpec
  import ST = SenderTheorems
  import R = ReceiverSpec
  import RT = ReceiverTheorems

  /** Where the sender's loop is: before its sending half, before its reading half, or left. */
  datatype Phase = Sending | Reading | AllAcked | GaveUp

  datatype System = System(phase: Phase, s: S.SenderState, r: R.ReceiverState, done: bool,
                           data: seq<Wire>, acks: seq<Wire>)

  const INITIAL := System(Sending, S.START, R.START, false, [], [])

  datatype Event =
    | Send(fillClock: S.Clock, resendClock: S.Clock)  // sending half, on a writable socket
    | Read(stale: Buffer)                             // reading half, a datagram was there
    | Skip                                            // reading half, nothing to read
    | Receive(stale: Buffer)                          // receiver: a datagram, then flush
    | Answer                                          // receiver: writable, nothing to read
    | LoseData(k: nat) | RepeatData(k: nat)
    | CutData(k: nat)                                 // truncation on the way
    | LoseAck(k: nat) | RepeatAck(k: nat)
    | InsertFec(k: nat, p: Packet)                    // any FEC packet, anywhere among the data

  /** A buffer after a datagram was read over what it held before. */
  function Arrived(w: Wire, stale: Buffer): Buffer {
    if |w| <= PKT_MAX_LEN then w + stale[|w|..] else w[..PKT_MAX_LEN]
  }

  function Decoded(crc: Checksum, w: Wire, stale: Buffer): (Status, Packet) {
    DecodeInto(crc, Arrived(w, stale), |w|, BLANK)
  }

  /** A truncated DATA packet: its TR bit set, nothing left behind the header checksum. */
  function Cut(w: Wire): Wire {
    if |w| >= 12 && w[0] / 64 == 1 && TrBit(w[0]) == 0 then [w[0] + 32] + w[1..12] else w
  }

  /** What every state of a run satisfies by itself: the steps below are defined on it. */
  predicate Sane(y: System) {
    && (y.phase.Sending? ==> ST.Ready(y.s))
    && (y.phase.Reading? ==> ST.Ready(y.s) && y.s.list != [])
    && 1 <= y.r.windowsize <= MAX_WINDOW_SIZE
  }

  /** An event that does not apply changes nothing. */
  function Next(crc: Checksum, file: File, y: System, e: Event): (z: System)
    requires Sane(y)
    ensures Sane(z)
  {
    match e
    case Send(fillClock, resendClock) =>
      if !y.phase.Sending? then y else SendStep(crc, file, y, fillClock, resendClock)
    case Read(stale) =>
      if !y.phase.Reading? || y.acks == [] then y else ReadStep(crc, y, stale)
    case Skip =>
      if !y.phase.Reading? then y else y.(phase := Sending)
    case Receive(stale) =>
      if y.done || y.data == [] then y else ReceiveStep(crc, y, stale)
    case Answer =>
      if y.done then y else AnswerStep(crc, y)
    case LoseData(k) => if k < |y.data| then y.(data := RemoveAt(y.data, k)) else y
    case RepeatData(k) => if k < |y.data| then y.(data := InsertAt(y.data, k, y.data[k])) else y
    case CutData(k) => if k < |y.data| then y.(data := y.data[k := Cut(y.data[k])]) else y
    case LoseAck(k) => if k < |y.acks| then y.(acks := RemoveAt(y.acks, k)) else y
    case RepeatAck(k) => if k < |y.acks| then y.(acks := InsertAt(y.acks, k, y.acks[k])) else y
    case InsertFec(k, p) =>
      if k <= |y.data| && p.kind == Fec && Encodable(p)
      then y.(data := InsertAt(y.data, k, WireForm(crc, p))) else y
  }

  function SendStep(crc: Checksum, file: File, y: System, fillClock: S.Clock, resendClock: S.Clock): (z: System)
    requires Sane(y) && y.phase.Sending?
    ensures Sane(z)
  {
    ST.SendingLeavesPacket(file, y.s, fillClock);
    ST.ResendKeepsReady(S.FillOrFinal(file, y.s, fillClock).0, resendClock);
    var (s1, sent) := S.SendPhase(crc, file, y.s, fillClock, resendClock);
    y.(phase := if S.GivesUp(s1) then GaveUp else Reading, s := s1, data := y.data + sent)
  }

  function ReadStep(crc: Checksum, y: System, stale: Buffer): (z: System)
    requires Sane(y) && y.phase.Reading? && y.acks != []
    ensures Sane(z)
  {
    var (st, p) := Decoded(crc, y.acks[0], stale);
    ST.DecodedWindow(crc, Arrived(y.acks[0], stale), |y.acks[0]|);
    ST.HandleKeepsReady(y.s, st, p);
    var (s1, left) := S.Handle(y.s, st, p);
    y.(phase := if left then AllAcked else Sending, s := s1, acks := y.acks[1..])
  }

  function ReceiveStep(crc: Checksum, y: System, stale: Buffer): (z: System)
    requires Sane(y) && y.data != []
    ensures Sane(z)
  {
    var (st, p) := Decoded(crc, y.data[0], stale);
    var (r1, replies, left) := R.Receive(y.r, st, p);
    RepliesAreEncodable(y.r, st, p);
    y.(r := r1, done := left, data := if R.WantsData(y.r) then y.data[1..] else y.data,
       acks := y.acks + Wires(crc, replies))
  }

  function AnswerStep(crc: Checksum, y: System): (z: System)
    requires Sane(y)
    ensures Sane(z)
  {
    var (r1, replies) := R.Answer(y.r);
    y.(r := r1, acks := y.acks + Wires(crc, replies))
  }

  lemma RepliesAreEncodable(r: R.ReceiverState, st: Status, p: Packet)
    requires 1 <= r.windowsize <= MAX_WINDOW_SIZE
    ensures var (r1, replies, _) := R.Receive(r, st, p);
            AllEncodable(replies) && 1 <= r1.windowsize <= MAX_WINDOW_SIZE
  {
    hide R.ReceiveData, R.Flush, Encodable;
    WindowStaysLegal(r, st, p);
    FlushLeavesWindow(r);
    FlushLeavesWindow(R.ReceiveData(r, st, p).0);
    var (r1, replies, _) := R.Receive(r, st, p);
    assert Encodable(R.AckOf(r1));
  }

  lemma WindowStaysLegal(r: R.ReceiverState, st: Status, p: Packet)
    requires 1 <= r.windowsize <= MAX_WINDOW_SIZE
    ensures var (r1, replies) := R.ReceiveData(r, st, p);
            AllEncodable(replies) && 1 <= r1.windowsize <= MAX_WINDOW_SIZE
  {
    hide R.PlaceOf, IsInWindow, Encodable;
  }

  lemma FlushLeavesWindow(r: R.ReceiverState)
    ensures R.Flush(r).0.windowsize == r.windowsize
  {
    hide R.RunLength, R.Payloads;
  }

  /** The state after a list of events. */
  function Run(crc: Checksum, file: File, events: seq<Event>): (z: System)
    ensures Sane(z)
  {
    if events == [] then INITIAL
    else Next(crc, file, Run(crc, file, events[..|events| - 1]), events[|events| - 1])
  }

  // ---- The guard ----

  /**
   * The one situation in which what is written out cannot be trusted, read off the state before
   * the event: a complete DATA packet is accepted into a queue where the walk of the sorted
   * insertion is misled.
   */
  predicate Guarded(crc: Checksum, y: System, e: Event) {
    e.Receive? && !y.done && y.data != [] && R.WantsData(y.r) ==>
      var (st, p) := Decoded(crc, y.data[0], e.stale);
      st == Ok && p.kind == Data && p.tr == 0 && IsInWindow(y.r.seqnumHead, y.r.windowsize, p.seqnum) ==>
        RT.InsertSafe(y.r.queue, y.r.seqnumHead, y.r.windowsize, p.seqnum)
  }

  predicate GuardedRun(crc: Checksum, file: File, events: seq<Event>) {
    events == [] ||
    var before := events[..|events| - 1];
    GuardedRun(crc, file, before) && Guarded(crc, Run(crc, file, before), events[|events| - 1])
  }

  predicate TruncationFree(events: seq<Event>) {
    forall k :: 0 <= k < |events| ==> !events[k].CutData?
  }
}
