/**
 * The tests on 8-bit sequence numbers, and what they decide about the unbounded packet
 * indices behind the numbers: index i travels as i % 256.
 */
module Seqnums {
  import opened Bytes

  function Seqnum(i: int): Byte {
    i % 256
  }

  /** How far `to` lies ahead of `from`, going round the 256 numbers. */
  function Distance(from: Byte, to: Byte): Byte {
    (to - from) % 256
  }

  // ---- read_write_receiver.c ----

  predicate IsInWindow(head: Byte, windowsize: int, seqnum: Byte) {
    var tail := (head + windowsize) % 256;
    if head < tail && (seqnum > tail + 1 || seqnum < head) && !(seqnum == 0 && tail == 255) then false
    else if !(head < tail) && seqnum < head && seqnum > tail + 1 then false
    else !(head == tail && seqnum != head)
  }

  predicate IsSeqnumGreater(a: Byte, b: Byte, head: Byte, windowsize: int) {
    var tail := (head + windowsize) % 256;
    if head < tail then
      a > b
    else
      var newA := if a < head then a + 256 else a;
      var newB := if b < head then b + 256 else b;
      newA > newB
  }

  // ---- read_write_sender.c ----

  predicate CanAckWindow(head: Byte, tail: Byte, seqnum: Byte) {
    var newTail := if tail < head then tail + 256 else tail;
    var newSeqnum := if seqnum < head then seqnum + 256 else seqnum;
    newSeqnum < newTail + 31
  }

  /** seqnum_in_window, with `head` the number of the first packet of the list. */
  predicate SeqnumInWindow(head: Byte, ack: Byte, pkt: Byte) {
    var newAck := if ack < head then ack + 256 else ack;
    var newPkt := if pkt < head then pkt + 256 else pkt;
    newPkt < newAck
  }

  predicate IsInSenderWindow(head: Byte, tail: Byte, seqnum: Byte) {
    if head < tail && (seqnum > tail || seqnum < head) then false
    else if !(head < tail) && seqnum < head && seqnum > tail then false
    else !(head == tail && seqnum != head)
  }

  // ---- What the tests decide ----

  /** is_in_window accepts windowsize + 2 numbers, whatever wraps. */
  lemma WindowTestExact(head: Byte, windowsize: int, seqnum: Byte)
    requires 1 <= windowsize <= 31
    ensures IsInWindow(head, windowsize, seqnum) <==> Distance(head, seqnum) <= windowsize + 1
  {
  }

  /** On indices not further behind than 254 - windowsize, the test decides the true comparison. */
  lemma WindowTestOnIndices(h: nat, windowsize: int, i: int)
    requires 1 <= windowsize <= 31
    requires h - (254 - windowsize) <= i <= h + 255
    ensures IsInWindow(Seqnum(h), windowsize, Seqnum(i)) <==> h <= i <= h + windowsize + 1
  {
    WindowTestExact(Seqnum(h), windowsize, Seqnum(i));
    DistanceOnIndices(h, i);
  }

  lemma DistanceValue(from: Byte, x: Byte)
    ensures Distance(from, x) == if x >= from then x - from else x - from + 256
  {
  }

  lemma DistanceOnIndices(from: int, to: int)
    ensures Distance(Seqnum(from), Seqnum(to)) == (to - from) % 256
    ensures from <= to < from + 256 ==> Distance(Seqnum(from), Seqnum(to)) == to - from
    ensures to < from <= to + 256 ==> Distance(Seqnum(from), Seqnum(to)) == 256 - (from - to)
  {
  }

  /** The number of `i` has wrapped below the number of `h`. */
  predicate Wrapped(h: nat, i: int) {
    Seqnum(i) < Seqnum(h)
  }

  predicate OrderSafe(h: nat, windowsize: int, a: int, b: int) {
    Seqnum(h) + windowsize >= 256 || (Wrapped(h, a) <==> Wrapped(h, b))
  }

  /** is_seqnum_greater orders two indices as their numbers should exactly when OrderSafe holds. */
  lemma GreaterExact(h: nat, windowsize: int, a: int, b: int)
    requires 1 <= windowsize <= 31
    requires h <= a <= h + 255 && h <= b <= h + 255 && a != b
    ensures (IsSeqnumGreater(Seqnum(a), Seqnum(b), Seqnum(h), windowsize) <==> a > b) <==> OrderSafe(h, windowsize, a, b)
  {
    Unwrap(h, a);
    Unwrap(h, b);
  }

  lemma Unwrap(h: nat, i: int)
    requires h <= i <= h + 255
    ensures i - h == Seqnum(i) - Seqnum(h) + if Wrapped(h, i) then 256 else 0
  {
  }

  /**
   * can_ack_window, for the `size` packets from index `base`, accepts the numbers up to
   * size + 29 ahead of the first.
   */
  lemma AckTestExact(base: int, size: nat, ack: Byte)
    requires 1 <= size <= 226
    ensures CanAckWindow(Seqnum(base), Seqnum(base + size - 1), ack) <==> Distance(Seqnum(base), ack) <= size + 29
  {
    hide Seqnum, Distance;
    DistanceOnIndices(base, base + size - 1);
    Ahead(Seqnum(base), Seqnum(base + size - 1));
    Ahead(Seqnum(base), ack);
  }

  /** Unfolding a number below `head` past 255 measures its distance. */
  lemma Ahead(head: Byte, x: Byte)
    ensures (if x < head then x + 256 else x) == head + Distance(head, x)
  {
  }

  /** Asked about the head of the list itself, seqnum_in_window only refuses its own number. */
  lemma HeadIsAckedUnlessNamed(head: Byte, ack: Byte)
    ensures SeqnumInWindow(head, ack, head) <==> ack != head
  {
  }

  lemma SenderWindowTestExact(head: Byte, tail: Byte, seqnum: Byte)
    ensures IsInSenderWindow(head, tail, seqnum) <==> Distance(head, seqnum) <= Distance(head, tail)
  {
  }
}
