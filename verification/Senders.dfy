/**
 * src/read-write/read_write_sender.c: the sender's variables and the functions that update
 * them in place.  Each method computes what SenderSpec says, on a real linked list and a
 * real packet buffer; `sent` collects what write(sfd, ...) is given.
 */
module Senders {
  import opened Bytes
  import opened Packets
  import opened LinkedLists
  import opened Files
  import opened Seqnums
  import opened Seqs
  import opened SenderSpec
  import opened SenderTheorems

  class Sender {
    const crc: Checksum
    const file: File
    const list: LinkedList
    const copybuf: array<Byte>

    var globalPkt: int
    var eofReached: bool
    var lastPkt: bool
    var lastRst: nat
    var seqnumHead: Byte
    var seqnumTail: Byte
    var windowsize: nat
    var sent: seq<Wire>

    ghost function View(): SenderState
      reads this, list
    {
      SenderState(globalPkt, eofReached, lastPkt, lastRst, seqnumHead, seqnumTail, windowsize, list.packets)
    }

    ghost predicate Valid()
      reads this, list, list.Repr
    {
      list.Valid() && this !in list.Repr && copybuf !in list.Repr && copybuf.Length == PKT_MAX_LEN && Healthy(View())
    }

    constructor (crc: Checksum, file: File)
      ensures Valid() && View() == START && sent == []
      ensures this.crc == crc && this.file == file
      ensures fresh(list.Repr) && fresh(copybuf) && list.packets == []
    {
      this.crc, this.file := crc, file;
      globalPkt, eofReached, lastPkt, lastRst := 0, false, false, 0;
      seqnumHead, seqnumTail, windowsize, sent := 0, 0, 1, [];
      var l := new LinkedList();
      list := l;
      copybuf := new Byte[PKT_MAX_LEN](_ => 0);
    }

    /** pread of one chunk at 512 * k; -1 for an offset the system refuses. */
    method Pread(k: int) returns (n: int)
      requires copybuf.Length == PKT_MAX_LEN
      modifies copybuf
      ensures k < 0 ==> n == -1
      ensures k >= 0 ==> n == |Chunk(file, k)|
      ensures k >= 0 ==> copybuf[..n] == Chunk(file, k)
    {
      if k < 0 {
        return -1;
      }
      Copy(copybuf, 0, Chunk(file, k));
      assert copybuf[..0] == [];
      return |Chunk(file, k)|;
    }

    /** Encode a packet into copybuf and write it to the socket. */
    method Write(p: Packet)
      requires copybuf.Length == PKT_MAX_LEN && IsSegment(p)
      modifies this`sent, copybuf
      ensures sent == old(sent) + [WireForm(crc, p)]
    {
      var pkt := new Pkt.Holding(p);
      var st, len := pkt.Encode(crc, copybuf, PKT_MAX_LEN);
      sent := sent + [copybuf[..len]];
    }

    /** fill_window */
    method FillWindow(clock: Clock) returns (filled: int)
      requires Valid()
      modifies this, copybuf, list.Repr
      ensures Valid() && View() == Fill(file, old(View()), clock)
      ensures sent == old(sent) + Wires(crc, FillSent(file, old(View()), clock))
      ensures filled == FillCount(file, old(View()))
      ensures fresh(list.Repr - old(list.Repr))
    {
      hide LinkedList.Valid, AllSegments, Wires, FirstFilled, WireForm, Segment, Seqnum, Chunk, Filled, ChunkCount;
      ghost var s := View();
      FilledNone(file, s, clock);
      filled := 0;
      while list.size < windowsize && !eofReached
        invariant 0 <= filled <= FillCount(file, s) && eofReached == s.eofReached
        invariant Valid() && View() == Filled(file, s, clock, filled)
        invariant sent == old(sent) + Wires(crc, FirstFilled(file, s, clock, filled))
        invariant fresh(list.Repr - old(list.Repr))
        decreases windowsize - list.size
      {
        FilledFields(file, s, clock, filled);
        var bytesRead := Pread(globalPkt);
        EndOfFile(file, globalPkt);
        if bytesRead == 0 {
          eofReached := true;
          return;
        }
        FilledStep(crc, file, s, clock, filled);
        FillOne(bytesRead, clock);
        filled := filled + 1;
        FilledFields(file, s, clock, filled);
      }
      FilledFields(file, s, clock, filled);
    }

    /** The packet fill_window builds around the bytes read into copybuf. */
    method BuildSegment(seqnum: Byte, bytesRead: int, now: Word) returns (p: Packet)
      requires copybuf.Length == PKT_MAX_LEN && -1 <= bytesRead <= MAX_PAYLOAD_SIZE && windowsize <= MAX_WINDOW_SIZE
      ensures p == Segment(seqnum, windowsize, if bytesRead < 0 then [] else copybuf[..bytesRead], now)
    {
      var pkt := new Pkt();
      var st := pkt.SetType(1);
      pkt.SetSeqnum(seqnum);
      st := pkt.SetWindow(windowsize);
      st := pkt.SetTr(0);
      st := pkt.SetPayload(copybuf, 0, bytesRead % 0x1_0000);
      pkt.SetTimestamp(now);
      p := pkt.View();
    }

    /** One round of fill_window's loop, with the chunk already in copybuf. */
    method FillOne(bytesRead: int, clock: Clock)
      requires Valid() && list.size < windowsize
      requires if globalPkt < 0 then bytesRead == -1
               else bytesRead == |Chunk(file, globalPkt)| && copybuf[..bytesRead] == Chunk(file, globalPkt)
      modifies this, copybuf, list.Repr
      ensures Valid() && View() == Filled(file, old(View()), clock, 1)
      ensures sent == old(sent) + [WireForm(crc, FirstFilled(file, old(View()), clock, 1)[0])]
      ensures fresh(list.Repr - old(list.Repr))
    {
      hide LinkedList.Valid, WireForm, IsSegment, AllSegments, Segment, FirstFilled, Filled, Seqnum, Chunk, Healthy;
      ghost var s := View();
      NoChunkBelowZero(file, globalPkt);
      FirstFilledOne(file, s, clock);
      HealthyBounds(s);
      var sendingSeqnum := Seqnum(globalPkt);
      var p := BuildSegment(sendingSeqnum, bytesRead, clock(list.size));
      if list.size == 0 {
        seqnumHead := sendingSeqnum;
      }
      var r := list.AddPkt(p);
      Write(p);
      seqnumTail := sendingSeqnum;
      globalPkt := globalPkt + 1;
      AppendIsHealthy(s, View(), p);
    }

    /** The packet send_final_pkt builds. */
    method BuildFinal(seqnum: Byte, now: Word) returns (p: Packet)
      requires windowsize <= MAX_WINDOW_SIZE
      ensures p == Segment(seqnum, windowsize, [], now)
    {
      var pkt := new Pkt();
      var st := pkt.SetType(1);
      st := pkt.SetTr(0);
      st := pkt.SetLength(0);
      st := pkt.SetWindow(windowsize);
      pkt.SetSeqnum(seqnum);
      pkt.SetTimestamp(now);
      p := pkt.View();
    }

    /** send_final_pkt */
    method SendFinalPkt(now: Word) returns (r: int)
      requires Valid() && |list.packets| < windowsize
      modifies this, copybuf, list.Repr
      ensures Valid() && View() == SendFinal(old(View()), now)
      ensures sent == old(sent) + [WireForm(crc, Final(old(View()), now))] && r == 0
      ensures fresh(list.Repr - old(list.Repr))
    {
      hide WireForm, IsSegment, Segment, Distinct, Chained, Hold, Owned;
      ghost var s := View();
      FinalIsSegment(s, now);
      seqnumTail := (seqnumTail + 1) % 256;
      var p := BuildFinal(seqnumTail, now);
      Write(p);
      r := list.AddPkt(p);
      lastPkt := true;
      AppendIsHealthy(s, View(), p);
      return 0;
    }

    /** resent_pkt; the list must have a head to start from. */
    method ResentPkt(clock: Clock) returns (resent: nat)
      requires Valid() && list.packets != []
      modifies this`sent, this`lastRst, copybuf, list.Repr
      ensures Valid() && View() == Resend(old(View()), clock) && list.Repr == old(list.Repr)
      ensures AllSegments(Resent(old(View()).list, clock, |old(list.packets)|))
      ensures sent == old(sent) + Wires(crc, Resent(old(View()).list, clock, |old(list.packets)|))
      ensures resent == |Resent(old(View()).list, clock, |old(list.packets)|)|
    {
      hide WireForm, IsSegment, AllSegments, TimedOut, Refreshed, Resent, Resend, LookedAt, LinkedList.Valid, Wires,
           Healthy;
      ghost var s, was := View(), sent;
      resent := 0;
      var current := list.head;
      var i := 0;
      HealthyBounds(s);
      LookedAtNone(crc, s, clock, was);
      list.Walk(0);
      while current != null
        invariant i < |s.list| == |list.nodes| && current == list.nodes[i]
        invariant list.Valid() && list.Repr == old(list.Repr)
        invariant LookedAt(crc, s, clock, i, was, View(), sent, resent)
        decreases |s.list| - i
      {
        ghost var v, wires := View(), sent;
        LookNext(crc, s, clock, i, was, v, wires, resent);
        list.Walk(i);
        var again := ResendOne(current, clock(i), i);
        LookedAtStep(crc, s, clock, i, was, v, wires, resent, View(), sent);
        if again {
          resent := resent + 1;
        }
        list.Walk(i);
        if current == list.tail {
          LookedAtAll(crc, s, clock, was, View(), sent, resent);
          return;
        }
        current := current.next;
        i := i + 1;
      }
    }

    /** One round of resent_pkt's loop: refresh, send again and count a packet that timed out. */
    method ResendOne(current: Node, time: Word, ghost i: nat) returns (again: bool)
      requires list.Valid() && this !in list.Repr && copybuf !in list.Repr && copybuf.Length == PKT_MAX_LEN
      requires i < |list.nodes| && current == list.nodes[i] && IsSegment(Refreshed(current.pkt, time))
      modifies this`sent, this`lastRst, copybuf, list, current
      ensures list.Valid() && list.Repr == old(list.Repr) && list.nodes == old(list.nodes)
      ensures list.head == old(list.head) && list.tail == old(list.tail)
      ensures again == TimedOut(old(list.packets[i]), time)
      ensures list.packets == old(list.packets)[i := Refreshed(old(list.packets[i]), time)]
      ensures lastRst == old(lastRst) + if again && old(list.packets[i]).length == 0 then 1 else 0
      ensures sent == old(sent) + if again then [WireForm(crc, Refreshed(old(list.packets[i]), time))] else []
    {
      hide WireForm, IsSegment, TimedOut;
      again := TimedOut(current.pkt, time);
      if again {
        list.Replace(current, current.pkt.(timestamp := time), i);
        Write(current.pkt);
        if current.pkt.length == 0 {
          lastRst := lastRst + 1;
        }
      }
    }

    /** ack_window: -1 when the number cannot acknowledge, the packets removed otherwise. */
    method AckWindow(ack: Byte) returns (acked: int)
      requires Valid() && list.packets != []
      modifies this, list
      ensures Valid() && View() == SenderSpec.AckWindow(old(View()), ack)
      ensures acked == if CanAckWindow(old(seqnumHead), old(seqnumTail), ack)
                       then AckedCount(old(View()).list, ack) else -1
      ensures list.Repr == old(list.Repr) && sent == old(sent)
    {
      hide LinkedList.Valid, AllSegments, SeqnumInWindow, CanAckWindow, AckedCount, AfterRemoving, Healthy;
      if !CanAckWindow(seqnumHead, seqnumTail, ack) {
        return -1;
      }
      ghost var s := View();
      RemovingStep(s, ack, 0);
      acked := 0;
      while SeqnumInWindow(list.First().seqnum, ack, list.First().seqnum)
        invariant 0 <= acked < |s.list| && list.Valid() && list.Repr == old(list.Repr) && sent == old(sent)
        invariant AckedCount(s.list, ack) == acked + AckedCount(s.list[acked..], ack)
        invariant View() == AfterRemoving(s, acked) && list.packets == s.list[acked..] && Healthy(View())
        decreases |s.list| - acked
      {
        HeadIsAckedUnlessNamed(list.First().seqnum, ack);
        RemovingStep(s, ack, acked);
        RemovingStep(s, ack, acked + 1);
        RemoveOldest();
        acked := acked + 1;
        if list.size == 0 {
          return;
        }
      }
      HeadIsAckedUnlessNamed(list.First().seqnum, ack);
      RemovingStep(s, ack, acked);
    }

    /** One round of ack_window's loop. */
    method RemoveOldest()
      requires list.Valid() && this !in list.Repr && list.packets != []
      modifies this`seqnumHead, list
      ensures list.Valid() && list.Repr == old(list.Repr) && list.packets == old(list.packets)[1..]
      ensures seqnumHead == if list.packets != [] then list.packets[0].seqnum else old(seqnumHead)
    {
      hide LinkedList.Valid;
      var r := list.Remove();
      if list.size > 0 {
        seqnumHead := list.First().seqnum;
      }
    }

    /** update_window */
    method UpdateWindow(newSize: Byte) returns (r: int)
      requires Valid() && list.packets != [] && newSize <= MAX_WINDOW_SIZE
      modifies this, list
      ensures Valid() && View() == SenderSpec.UpdateWindow(old(View()), newSize)
      ensures r == if newSize == 0 then -1 else if newSize == old(windowsize) then 0
                   else if newSize > old(windowsize) then 1 else 2
      ensures list.packets != [] && list.Repr == old(list.Repr) && sent == old(sent)
    {
      hide LinkedList.Valid, AllSegments;
      if newSize == 0 {
        return -1;
      }
      if newSize == windowsize {
        return 0;
      }
      if newSize > windowsize {
        windowsize := newSize;
        return 1;
      }
      ghost var s := View();
      windowsize := newSize;
      DropNewest();
      SegmentsSlice(s.list, 0, list.size);
      seqnumTail := list.Last().seqnum;
      eofReached, lastPkt, lastRst := false, false, 0;
      return 2;
    }

    /** The loop of update_window: packets beyond the window are dropped and uncounted. */
    method DropNewest()
      requires list.Valid() && this !in list.Repr && windowsize > 0
      modifies this`globalPkt, list
      ensures list.Valid() && list.Repr == old(list.Repr)
      ensures var kept := Min(|old(list.packets)|, windowsize);
              && list.packets == old(list.packets)[..kept]
              && globalPkt == old(globalPkt) - (|old(list.packets)| - kept)
    {
      hide LinkedList.Valid;
      ghost var packets := list.packets;
      while list.size > windowsize
        invariant list.Valid() && list.Repr == old(list.Repr)
        invariant Min(|packets|, windowsize) <= list.size <= |packets| && list.packets == packets[..list.size]
        invariant globalPkt == old(globalPkt) - (|packets| - list.size)
        decreases list.size
      {
        var removed := list.RemoveEnd();
        globalPkt := globalPkt - 1;
      }
    }

    /** fill_window and send_final_pkt, each when the main loop calls it. */
    method FillAndFinish(clock: Clock)
      requires Valid()
      modifies this, copybuf, list.Repr
      ensures Valid() && View() == FillOrFinal(file, old(View()), clock).0
      ensures sent == old(sent) + Wires(crc, FillOrFinal(file, old(View()), clock).1)
      ensures fresh(list.Repr - old(list.Repr))
    {
      hide LinkedList.Valid, AllSegments, WireForm, Fill, FillSent, Final;
      ghost var s := View();
      FillFull(file, s, clock);
      FinalWire(crc, file, s, clock);
      if !eofReached && list.size < windowsize {
        var filled := FillWindow(clock);
      }
      if !lastPkt && eofReached && list.size < windowsize {
        var r := SendFinalPkt(clock(list.size));
      }
    }

    /** The sending half of an iteration of the main loop, on a writable socket. */
    method SendHalf(fillClock: Clock, resendClock: Clock) returns (leave: bool)
      requires Valid() && Ready(View())
      modifies this, copybuf, list.Repr
      ensures Valid() && Ready(View()) && list.packets != []
      ensures var (s1, written) := SendPhase(crc, file, old(View()), fillClock, resendClock);
              View() == s1 && sent == old(sent) + written
      ensures leave == GivesUp(View())
      ensures fresh(list.Repr - old(list.Repr))
    {
      hide LinkedList.Valid, AllSegments, WireForm, Wires, FillOrFinal, Resend, Resent, Healthy;
      ghost var before := sent;
      ghost var first := Wires(crc, FillOrFinal(file, View(), fillClock).1);
      SendingLeavesPacket(file, View(), fillClock);
      FillAndFinish(fillClock);
      ghost var s := View();
      ResendKeepsReady(s, resendClock);
      var resent := ResentPkt(resendClock);
      ghost var again := Wires(crc, Resent(s.list, resendClock, |s.list|));
      Associate(before, first, again);
      return lastPkt && lastRst > MAX_RESENT_LAST_PKT;
    }

    /** The reading half: one datagram of `len` bytes arrives in `incoming`. */
    method ReadHalf(incoming: array<Byte>, len: nat) returns (leave: bool)
      requires Valid() && Ready(View()) && list.packets != []
      requires incoming.Length == PKT_MAX_LEN
      modifies this, list
      ensures Valid()
      ensures var (st, p) := DecodeInto(crc, incoming[..], len, BLANK);
              (View(), leave) == Handle(old(View()), st, p)
      ensures list.Repr == old(list.Repr)
    {
      hide Distinct, Chained, Hold, Owned, IsSegment, DecodeInto, SenderSpec.AckWindow, SenderSpec.UpdateWindow;
      var pkt := new Pkt();
      var st := pkt.Decode(crc, incoming, len);
      DecodedWindow(crc, incoming[..], len);
      lastRst := 0;
      if st == Ok && pkt.tr == 0 {
        var updated := UpdateWindow(pkt.window);
        if pkt.kind == Nack {
          if !IsInSenderWindow(seqnumHead, seqnumTail, pkt.seqnum) {
            return false;
          }
        } else if pkt.kind == Ack {
          var acked := AckWindow(pkt.seqnum);
          if lastPkt && list.size == 0 {
            return true;
          }
        }
      }
      return false;
    }

    /** read_write_sender: the main loop, for as many iterations as `turns` holds. */
    method Run(turns: seq<Turn>) returns (left: bool)
      requires Valid() && Ready(View())
      modifies this, copybuf, list.Repr
      ensures Valid() && Loop(crc, file, old(View()), turns) == if left then Leaves(View()) else Goes(View())
    {
      hide LinkedList.Valid, DecodeInto, Handle, Resend, FillOrFinal, Healthy, Ready;
      ghost var s := View();
      var i := 0;
      while i < |turns|
        invariant 0 <= i <= |turns| && Valid() && Ready(View())
        invariant fresh(list.Repr - old(list.Repr))
        invariant Loop(crc, file, s, turns) == Loop(crc, file, View(), turns[i..])
      {
        ghost var before := View();
        var t := turns[i];
        assert turns[i..][0] == t && turns[i..][1..] == turns[i + 1..];
        IterateKeepsReady(crc, file, before, t);
        i := i + 1;
        left := SendHalf(t.fillClock, t.resendClock);
        if left {
          return;
        }
        if t.incoming.Datagram? {
          var buffer := t.incoming.buffer;
          var incoming := new Byte[PKT_MAX_LEN](k requires 0 <= k < PKT_MAX_LEN => buffer[k]);
          assert incoming[..] == buffer;
          left := ReadHalf(incoming, t.incoming.len);
          if left {
            return;
          }
        }
      }
      return false;
    }
  }

  lemma EndOfFile(file: File, k: int)
    ensures k < 0 ==> Chunk(file, k) == []
    ensures k >= 0 ==> (Chunk(file, k) == [] <==> k >= ChunkCount(file))
  {
    if k >= 0 {
      ChunkIsEmpty(file, k);
    }
  }

  lemma NoChunkBelowZero(file: File, k: int)
    ensures k < 0 ==> Chunk(file, k) == []
  {
  }

  /** The variables after n removals, and after one more. */
  lemma RemovingStep(s: SenderState, ack: Byte, n: nat)
    requires n <= |s.list| && Healthy(s)
    ensures var a := AfterRemoving(s, n);
            && (n == 0 ==> a == s) && a.list == s.list[n..] && Healthy(a)
            && (n < |s.list| ==>
                  && a.list[0] == s.list[n]
                  && AfterRemoving(s, n + 1) ==
                     a.(list := a.list[1..], seqnumHead := if |a.list| > 1 then a.list[1].seqnum else a.seqnumHead))
    ensures AckedCount(s.list[n..], ack) ==
            if n == |s.list| || s.list[n].seqnum == ack then 0 else 1 + AckedCount(s.list[n + 1..], ack)
  {
    hide IsSegment;
    assert s.list[0..] == s.list;
    assert n < |s.list| ==> s.list[n..][1..] == s.list[n + 1..];
  }

  lemma SegmentsSlice(list: seq<Packet>, i: nat, j: nat)
    requires AllSegments(list) && i <= j <= |list|
    ensures AllSegments(list[i..j]) && AllSegments(list[i..])
  {
  }

  lemma AppendIsHealthy(s: SenderState, s1: SenderState, p: Packet)
    requires Healthy(s) && IsSegment(p) && |s.list| < s.windowsize
    requires s1.list == s.list + [p] && s1.windowsize == s.windowsize
    ensures Healthy(s1)
  {
  }

  lemma FinalIsSegment(s: SenderState, now: Word)
    requires Healthy(s)
    ensures IsSegment(Final(s, now))
  {
  }

  lemma FirstFilledOne(file: File, s: SenderState, clock: Clock)
    requires Healthy(s)
    ensures var p := Segment(Seqnum(s.globalPkt), s.windowsize, Chunk(file, s.globalPkt), clock(|s.list|));
            && IsSegment(p) && FirstFilled(file, s, clock, 1) == [p]
            && Filled(file, s, clock, 1) ==
               s.(globalPkt := s.globalPkt + 1, list := s.list + [p], seqnumTail := Seqnum(s.globalPkt),
                  seqnumHead := if s.list == [] then Seqnum(s.globalPkt) else s.seqnumHead)
  {
    hide Chunk, Seqnum, AllSegments;
    assert FirstFilled(file, s, clock, 1)[0] ==
           Segment(Seqnum(s.globalPkt + 0), s.windowsize, Chunk(file, s.globalPkt + 0), clock(|s.list| + 0));
  }

  lemma HealthyBounds(s: SenderState)
    requires Healthy(s)
    ensures 1 <= s.windowsize <= MAX_WINDOW_SIZE && |s.list| <= s.windowsize && AllSegments(s.list)
  {
  }

  lemma FilledNone(file: File, s: SenderState, clock: Clock)
    requires Healthy(s)
    ensures Filled(file, s, clock, 0) == s
  {
    assert s.list + FirstFilled(file, s, clock, 0) == s.list;
  }

  lemma FilledFields(file: File, s: SenderState, clock: Clock, n: nat)
    requires Healthy(s)
    ensures var f := Filled(file, s, clock, n);
            && |f.list| == |s.list| + n && f.globalPkt == s.globalPkt + n
            && f.windowsize == s.windowsize && f.eofReached == s.eofReached
  {
  }

  lemma WiresAppend(crc: Checksum, ps: seq<Packet>, p: Packet)
    requires AllSegments(ps) && AllSegments([p])
    ensures IsSegment(p) && AllSegments(ps + [p])
    ensures Wires(crc, ps + [p]) == Wires(crc, ps) + [WireForm(crc, p)]
  {
    hide WireForm;
    assert IsSegment([p][0]);
  }

  lemma FilledStep(crc: Checksum, file: File, s: SenderState, clock: Clock, n: nat)
    requires Healthy(s) && Healthy(Filled(file, s, clock, n))
    ensures var one := FirstFilled(file, Filled(file, s, clock, n), clock, 1);
            && Filled(file, Filled(file, s, clock, n), clock, 1) == Filled(file, s, clock, n + 1)
            && Wires(crc, FirstFilled(file, s, clock, n + 1)) ==
               Wires(crc, FirstFilled(file, s, clock, n)) + [WireForm(crc, one[0])]
  {
    hide Seqnum, Chunk, Segment, WireForm, AllSegments, Wires, FirstFilled, Healthy;
    var f := Filled(file, s, clock, n);
    var some, one := FirstFilled(file, s, clock, n), FirstFilled(file, f, clock, 1);
    FirstFilledStep(file, s, clock, n);
    Associate(s.list, some, one);
    assert one == [one[0]];
    WiresAppend(crc, some, one[0]);
  }

  lemma FirstFilledStep(file: File, s: SenderState, clock: Clock, n: nat)
    requires Healthy(s) && Healthy(Filled(file, s, clock, n))
    ensures FirstFilled(file, s, clock, n + 1) ==
            FirstFilled(file, s, clock, n) + FirstFilled(file, Filled(file, s, clock, n), clock, 1)
  {
    hide Seqnum, Chunk, Segment, AllSegments, FirstFilled;
    assert FirstFilled(file, s, clock, n + 1)[n] == FirstFilled(file, Filled(file, s, clock, n), clock, 1)[0];
  }

  /** fill_window is called only with room left; called without, it would do nothing. */
  lemma FillFull(file: File, s: SenderState, clock: Clock)
    requires Healthy(s)
    ensures s.eofReached || s.windowsize <= |s.list| ==> Fill(file, s, clock) == s && FillSent(file, s, clock) == []
  {
    FilledNone(file, s, clock);
  }

  lemma FinalWire(crc: Checksum, file: File, s: SenderState, clock: Clock)
    requires Healthy(s)
    ensures var f := Fill(file, s, clock);
            && Healthy(f) && IsSegment(Final(f, clock(|f.list|)))
            && AllSegments(FillSent(file, s, clock) + [Final(f, clock(|f.list|))])
            && Wires(crc, []) == []
            && Wires(crc, FillSent(file, s, clock) + [Final(f, clock(|f.list|))]) ==
               Wires(crc, FillSent(file, s, clock)) + [WireForm(crc, Final(f, clock(|f.list|)))]
  {
    hide WireForm, FillSent;
    FillIsHealthy(file, s, clock);
    FinalIsSegment(Fill(file, s, clock), clock(|Fill(file, s, clock).list|));
  }

  /** The list once its first n packets have been looked at. */
  function RefreshFirst(list: seq<Packet>, clock: Clock, n: nat): (r: seq<Packet>)
    requires n <= |list|
    ensures |r| == |list|
  {
    Refresh(list[..n], clock) + list[n..]
  }

  /** What resent_pkt has done once it has looked at the first n packets of the list. */
  predicate LookedAt(crc: Checksum, s: SenderState, clock: Clock, n: nat, was: seq<Wire>, v: SenderState,
                     sent: seq<Wire>, resent: nat)
    requires n <= |s.list|
  {
    var again := Resent(s.list, clock, n);
    && v == s.(lastRst := s.lastRst + FinalsResent(s.list, clock, n), list := RefreshFirst(s.list, clock, n))
    && AllSegments(again) && resent == |again| && sent == was + Wires(crc, again)
  }

  lemma LookedAtNone(crc: Checksum, s: SenderState, clock: Clock, was: seq<Wire>)
    ensures LookedAt(crc, s, clock, 0, was, s, was, 0)
  {
  }

  /** The next packet it finds. */
  lemma LookNext(crc: Checksum, s: SenderState, clock: Clock, n: nat, was: seq<Wire>, v: SenderState,
                 sent: seq<Wire>, resent: nat)
    requires n < |s.list| && AllSegments(s.list) && LookedAt(crc, s, clock, n, was, v, sent, resent)
    ensures |v.list| == |s.list| && v.list[n] == s.list[n] && IsSegment(Refreshed(v.list[n], clock(n)))
  {
    hide Wires, Resent, FinalsResent, TimedOut;
    assert IsSegment(s.list[n]);
  }

  lemma LookedAtStep(crc: Checksum, s: SenderState, clock: Clock, n: nat, was: seq<Wire>, v: SenderState,
                     sent: seq<Wire>, resent: nat, v': SenderState, sent': seq<Wire>)
    requires n < |s.list| && AllSegments(s.list) && LookedAt(crc, s, clock, n, was, v, sent, resent)
    requires var p := Refreshed(s.list[n], clock(n));
             var again := TimedOut(s.list[n], clock(n));
             && IsSegment(p) && n < |v.list|
             && v' == v.(list := v.list[n := p], lastRst := v.lastRst + if again && s.list[n].length == 0 then 1 else 0)
             && sent' == sent + if again then [WireForm(crc, p)] else []
    ensures LookedAt(crc, s, clock, n + 1, was, v', sent', resent + if TimedOut(s.list[n], clock(n)) then 1 else 0)
  {
    hide WireForm, TimedOut, Wires, IsSegment, AllSegments;
    var p, before := Refreshed(s.list[n], clock(n)), Resent(s.list, clock, n);
    ResentAreSegments(s.list, clock, n + 1);
    assert Refresh(s.list[..n + 1], clock) == Refresh(s.list[..n], clock) + [p];
    if TimedOut(s.list[n], clock(n)) {
      OneSegment(p);
      WiresAppend(crc, before, p);
      Associate(was, Wires(crc, before), [WireForm(crc, p)]);
    }
  }

  lemma OneSegment(p: Packet)
    requires IsSegment(p)
    ensures AllSegments([p])
  {
  }

  lemma LookedAtAll(crc: Checksum, s: SenderState, clock: Clock, was: seq<Wire>, v: SenderState, sent: seq<Wire>,
                    resent: nat)
    requires Healthy(s) && LookedAt(crc, s, clock, |s.list|, was, v, sent, resent)
    ensures var again := Resent(s.list, clock, |s.list|);
            && v == Resend(s, clock) && Healthy(v)
            && AllSegments(again) && resent == |again| && sent == was + Wires(crc, again)
  {
    hide Wires, Resent, FinalsResent, AllSegments, RefreshFirst;
    ResendIsHealthy(s, clock);
  }

  lemma ResendIsHealthy(s: SenderState, clock: Clock)
    requires Healthy(s)
    ensures Healthy(Resend(s, clock)) && RefreshFirst(s.list, clock, |s.list|) == Resend(s, clock).list
  {
    forall k | 0 <= k < |s.list|
      ensures IsSegment(Refresh(s.list, clock)[k])
    {
      assert IsSegment(s.list[k]);
      assert Refresh(s.list, clock)[k] == Refreshed(s.list[k], clock(k));
    }
    assert s.list[..|s.list|] == s.list;
  }
}
