/**
 * What each operation of src/read-write/read_write_receiver.c does to the receiver's
 * variables, as functions on their values.  The class in Receivers computes these.
 */
module ReceiverSpec {
  import opened Bytes
  import opened Packets
  import opened Seqnums
  import opened Seqs

  /** The window, the packets of its list, the static variables, and what stdout was given. */
  datatype ReceiverState = ReceiverState(seqnumHead: Byte, seqnumTail: Byte, windowsize: nat, queue: seq<Packet>,
                                         eofReached: bool, eofSeqnum: Byte, resentAck: bool, lastTimestamp: Word,
                                         output: seq<Byte>)

  /** What holds of the receiver's variables whatever arrives. */
  predicate Healthy(r: ReceiverState) {
    1 <= r.windowsize <= MAX_WINDOW_SIZE && AllSegments(r.queue)
  }

  const START := ReceiverState(0, 0, 1, [], false, 0, true, 0, [])

  // ---- increase_window, decrease_window ----

  function IncreaseWindow(r: ReceiverState): ReceiverState {
    if r.windowsize < 31 then r.(windowsize := r.windowsize + 1) else r
  }

  function DecreaseWindow(r: ReceiverState): ReceiverState {
    if r.windowsize <= 4 then r
    else
      var size := r.windowsize / 2;
      var kept := Min(|r.queue|, size);
      r.(windowsize := size, queue := r.queue[..kept], eofReached := false,
         seqnumTail := if kept < |r.queue| then r.queue[kept - 1].seqnum else r.seqnumTail)
  }

  // ---- send_response ----

  function Response(kind: Kind, seqnum: Byte, window: Byte, timestamp: Word): (p: Packet)
    ensures kind.Ack? || kind.Nack? ==> window <= MAX_WINDOW_SIZE ==> Encodable(p)
  {
    BLANK.(kind := kind, seqnum := seqnum, window := window, timestamp := timestamp)
  }

  /** send_ack */
  function AckOf(r: ReceiverState): Packet
    requires r.windowsize <= MAX_WINDOW_SIZE
  {
    Response(Ack, r.seqnumHead, r.windowsize, r.lastTimestamp)
  }

  // ---- linkedList_add_increasing ----

  datatype Place = Duplicate | Before(k: nat)

  /** Where the walk from position k stops. */
  function Scan(queue: seq<Packet>, head: Byte, windowsize: nat, seqnum: Byte, k: nat): (p: Place)
    requires k <= |queue|
    ensures p.Before? ==> k <= p.k <= |queue|
    decreases |queue| - k
  {
    if k == |queue| then Before(k)
    else if queue[k].seqnum == seqnum then Duplicate
    else if IsSeqnumGreater(queue[k].seqnum, seqnum, head, windowsize) then Before(k)
    else Scan(queue, head, windowsize, seqnum, k + 1)
  }

  function PlaceOf(r: ReceiverState, p: Packet): Place {
    Scan(r.queue, r.seqnumHead, r.windowsize, p.seqnum, 0)
  }

  function AddIncreasing(r: ReceiverState, p: Packet): (a: ReceiverState)
    ensures a.windowsize == r.windowsize
  {
    match PlaceOf(r, p)
    case Duplicate => r
    case Before(k) =>
      r.(queue := Counted(InsertAt(r.queue, k, p)),
         seqnumTail := if k == |r.queue| then p.seqnum else r.seqnumTail)
  }

  // ---- receive_data ----

  /** send_troncated_nack: shrink, then name the truncated packet. */
  function TruncatedNack(r: ReceiverState, p: Packet): (ReceiverState, seq<Packet>)
    requires r.windowsize <= MAX_WINDOW_SIZE
  {
    var r1 := DecreaseWindow(r);
    (r1, [Response(Nack, p.seqnum, r1.windowsize, p.timestamp)])
  }

  /** A complete DATA packet. */
  function AcceptData(r: ReceiverState, p: Packet): ReceiverState {
    if !IsInWindow(r.seqnumHead, r.windowsize, p.seqnum) || PlaceOf(r, p).Duplicate? then r.(resentAck := true)
    else
      var r1 := AddIncreasing(r, p);
      var r2 := if p.length == 0 then r1.(eofReached := true, eofSeqnum := p.seqnum) else r1;
      if r.seqnumHead == p.seqnum then IncreaseWindow(r2).(resentAck := false) else r2.(resentAck := true)
  }

  /** One datagram as pkt_decode delivered it; the second result is what is written back. */
  function ReceiveData(r: ReceiverState, st: Status, p: Packet): (d: (ReceiverState, seq<Packet>))
    requires r.windowsize <= MAX_WINDOW_SIZE
    ensures d.0.windowsize <= MAX_WINDOW_SIZE
    ensures r.windowsize >= 1 ==> d.0.windowsize >= 1
  {
    hide IsInWindow, PlaceOf, AddIncreasing;
    if st == BadCrc && p.kind == Data && p.tr == 1 && IsInWindow(r.seqnumHead, r.windowsize, p.seqnum) then
      TruncatedNack(r, p)
    else if st != Ok || p.kind != Data then (r, [])
    else if p.tr != 0 then TruncatedNack(r, p)
    else (AcceptData(r, p), [])
  }

  // ---- flush_file ----

  function Payloads(ps: seq<Packet>): seq<Byte> {
    if ps == [] then [] else ps[0].payload + Payloads(ps[1..])
  }

  /** How many packets from the front carry the numbers expected one after the other, and data. */
  function RunLength(queue: seq<Packet>, head: Byte): (n: nat)
    ensures n <= |queue|
  {
    if queue == [] || queue[0].seqnum != head || queue[0].length == 0 then 0
    else 1 + RunLength(queue[1..], (head + 1) % 256)
  }

  /** The variables once n packets from the front have been written out. */
  function Deliver(r: ReceiverState, n: nat): ReceiverState
    requires n <= |r.queue|
  {
    if n == 0 then r else
    var head := (r.seqnumHead + n) % 256;
    r.(output := r.output + Payloads(r.queue[..n]), queue := r.queue[n..], seqnumHead := head,
       seqnumTail := if n == |r.queue| then head else r.seqnumTail, lastTimestamp := r.queue[n - 1].timestamp)
  }

  /** flush_file; the second result is what it returns, -1 at end of file. */
  function Flush(r: ReceiverState): (f: (ReceiverState, int))
    ensures f.0.windowsize == r.windowsize
  {
    var n: int := RunLength(r.queue, r.seqnumHead);
    var r1 := Deliver(r, n);
    if r1.queue == [] then (r1.(resentAck := true), n)
    else if r1.queue[0].seqnum == r1.seqnumHead && r1.queue[0].length == 0 then
      (r1.(lastTimestamp := r1.queue[0].timestamp, seqnumHead := (r1.seqnumHead + 1) % 256), -1)
    else (r1, n)
  }

  // ---- The main loop ----

  /** The loop reads a datagram unless the number it waits for is that of the final packet. */
  predicate WantsData(r: ReceiverState) {
    !r.eofReached || r.seqnumHead != r.eofSeqnum
  }

  /** One round of the inner loop: a datagram, then a flush; the flag says that the loop leaves. */
  function Receive(r: ReceiverState, st: Status, p: Packet): (ReceiverState, seq<Packet>, bool)
    requires r.windowsize <= MAX_WINDOW_SIZE
  {
    hide ReceiveData, Flush;
    var (r1, sent) := if WantsData(r) then ReceiveData(r, st, p) else (r, []);
    var (r2, written) := Flush(r1);
    if written == -1 then (r2, sent + [AckOf(r2)], true) else (r2, sent, false)
  }

  /** The socket is writable and nothing is there to read. */
  function Answer(r: ReceiverState): (ReceiverState, seq<Packet>)
    requires r.windowsize <= MAX_WINDOW_SIZE
  {
    if r.resentAck then (r.(resentAck := false), [AckOf(r)]) else (r, [])
  }
}
