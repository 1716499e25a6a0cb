/**
 * src/read-write/read_write_receiver.c: the receiver's variables and the functions that
 * update them in place.  Each method computes what ReceiverSpec says, on a real linked list
 * and a real packet buffer; `sent` collects what write(sfd, ...) is given and `output` what
 * write(STDOUT_FILENO, ...) is given.
 */
module Receivers {
  import opened Bytes
  import opened Packets
  import opened LinkedLists
  import opened Seqnums
  import opened Seqs
  import opened ReceiverSpec
  import CodecTheorems
  import RT = ReceiverTheorems

  class Receiver {
    const crc: Checksum
    const list: LinkedList
    const buffer: array<Byte>

    var seqnumHead: Byte
    var seqnumTail: Byte
    var windowsize: nat
    var eofReached: bool
    var eofSeqnum: Byte
    var resentAck: bool
    var lastTimestamp: Word
    var output: seq<Byte>
    var sent: seq<Wire>

    ghost function View(): ReceiverState
      reads this, list
    {
      ReceiverState(seqnumHead, seqnumTail, windowsize, list.packets, eofReached, eofSeqnum, resentAck,
                    lastTimestamp, output)
    }

    ghost predicate Valid()
      reads this, list, list.Repr
    {
      list.Valid() && this !in list.Repr && buffer !in list.Repr && buffer.Length == PKT_MAX_LEN && Healthy(View())
    }

    constructor (crc: Checksum)
      ensures Valid() && View() == START && sent == []
      ensures this.crc == crc && fresh(list.Repr) && fresh(buffer)
    {
      this.crc := crc;
      seqnumHead, seqnumTail, windowsize := 0, 0, 1;
      eofReached, eofSeqnum, resentAck, lastTimestamp := false, 0, true, 0;
      output, sent := [], [];
      var l := new LinkedList();
      list := l;
      buffer := new Byte[PKT_MAX_LEN](_ => 0);
    }

    /** increase_window */
    method IncreaseWindow()
      requires Valid()
      modifies this`windowsize
      ensures Valid() && View() == ReceiverSpec.IncreaseWindow(old(View()))
    {
      if windowsize < 31 {
        windowsize := windowsize + 1;
      }
    }

    /** decrease_window */
    method DecreaseWindow()
      requires Valid()
      modifies this`windowsize, this`seqnumTail, this`eofReached, list
      ensures Valid() && View() == ReceiverSpec.DecreaseWindow(old(View())) && list.Repr == old(list.Repr)
    {
      hide LinkedList.Valid, AllSegments;
      if windowsize > 4 {
        windowsize := windowsize / 2;
      } else {
        return;
      }
      ghost var r := View();
      var i := 0;
      while list.size > windowsize
        invariant list.Valid() && list.Repr == old(list.Repr)
        invariant i + list.size == |r.queue| && list.packets == r.queue[..list.size]
        invariant i > 0 ==> list.size >= windowsize
        invariant View() == r.(queue := list.packets)
        decreases list.size
      {
        var removed := list.RemoveEnd();
        i := i + 1;
      }
      FrontSegments(r.queue, list.size);
      if i > 0 {
        seqnumTail := list.Last().seqnum;
      }
      eofReached := false;
    }

    /** send_response: build the packet, encode it into the buffer and write it. */
    method SendResponse(kind: Kind, seqnum: Byte, timestamp: Word)
      requires kind == Ack || kind == Nack
      requires windowsize <= MAX_WINDOW_SIZE && buffer.Length == PKT_MAX_LEN
      modifies this`sent, buffer
      ensures sent == old(sent) + [WireForm(crc, Response(kind, seqnum, windowsize, timestamp))]
    {
      var pkt := new Pkt();
      var st := pkt.SetType(Code(kind));
      st := pkt.SetWindow(windowsize);
      pkt.SetSeqnum(seqnum);
      pkt.SetTimestamp(timestamp);
      assert pkt.View() == Response(kind, seqnum, windowsize, timestamp);
      var encoded, len := pkt.Encode(crc, buffer, PKT_MAX_LEN);
      sent := sent + [buffer[..len]];
    }

    /** send_ack */
    method SendAck()
      requires Valid()
      modifies this`sent, buffer
      ensures Valid() && View() == old(View())
      ensures sent == old(sent) + [WireForm(crc, AckOf(View()))]
    {
      hide LinkedList.Valid, AllSegments, WireForm;
      SendResponse(Ack, seqnumHead, lastTimestamp);
    }

    /** send_troncated_nack */
    method SendTruncatedNack(p: Packet)
      requires Valid()
      modifies this, buffer, list
      ensures Valid() && View() == TruncatedNack(old(View()), p).0 && list.Repr == old(list.Repr)
      ensures AllEncodable(TruncatedNack(old(View()), p).1)
      ensures sent == old(sent) + Wires(crc, TruncatedNack(old(View()), p).1)
    {
      hide LinkedList.Valid, AllSegments, WireForm, ReceiverSpec.DecreaseWindow;
      DecreaseWindow();
      SendResponse(Nack, p.seqnum, p.timestamp);
    }

    /** linkedList_add_increasing: the walk over the nodes, and the four ways it links one in. */
    method AddIncreasing(p: Packet) returns (ret: int)
      requires Valid() && IsSegment(p)
      modifies this`seqnumTail, list.Repr
      ensures Valid() && View() == ReceiverSpec.AddIncreasing(old(View()), p)
      ensures ret == if PlaceOf(old(View()), p).Duplicate? then -1 else 0
      ensures fresh(list.Repr - old(list.Repr))
    {
      hide LinkedList.Valid, AllSegments, IsSegment, IsSeqnumGreater, ReceiverSpec.AddIncreasing, Healthy, InsertAt,
           Counted;
      ghost var r := View();
      InsertIsHealthy(r, p);
      if list.size == 0 {
        var added := list.AddPkt(p);
        seqnumTail := p.seqnum;
        return 0;
      }
      var current := list.head;
      var previous: Node? := null;
      ghost var k := 0;
      list.Walk(0);
      while true
        invariant Valid() && View() == r && list.Repr == old(list.Repr)
        invariant k < |list.nodes| && current == list.nodes[k]
        invariant previous == if k == 0 then null else list.nodes[k - 1]
        invariant PlaceOf(r, p) == Scan(r.queue, seqnumHead, windowsize, p.seqnum, k)
        decreases |list.nodes| - k
      {
        list.Walk(k);
        var currentSeqnum := current.pkt.seqnum;
        if p.seqnum == currentSeqnum {
          return -1;
        }
        if IsSeqnumGreater(currentSeqnum, p.seqnum, seqnumHead, windowsize) {
          if previous == null {
            list.InsertAtHead(p);
            return 0;
          }
          list.Walk(k - 1);
          var n := list.InsertBehind(previous, p, k);
          return 0;
        }
        previous := current;
        current := current.next;
        k := k + 1;
        if previous == list.tail {
          break;
        }
      }
      var added := list.AddPkt(p);
      seqnumTail := p.seqnum;
      return 0;
    }

    /** The part of receive_data for a complete DATA packet; the result says whether it was kept. */
    method AcceptData(p: Packet) returns (ret: int)
      requires Valid() && IsSegment(p)
      modifies this, list.Repr
      ensures Valid() && View() == ReceiverSpec.AcceptData(old(View()), p)
      ensures fresh(list.Repr - old(list.Repr)) && sent == old(sent)
    {
      hide LinkedList.Valid, AllSegments, IsSegment, IsInWindow, PlaceOf, ReceiverSpec.AddIncreasing;
      if IsInWindow(seqnumHead, windowsize, p.seqnum) {
        var added := AddIncreasing(p);
        AddedFields(old(View()), p);
        if added == 0 {
          if p.length == 0 {
            eofReached := true;
            eofSeqnum := p.seqnum;
          }
          if seqnumHead == p.seqnum {
            IncreaseWindow();
            resentAck := false;
            return 0;
          } else {
            resentAck := true;
            return 0;
          }
        } else {
          resentAck := true;
          return -1;
        }
      } else {
        resentAck := true;
        return 0;
      }
    }

    /** receive_data: one datagram of `len` bytes arrives in the buffer. */
    method ReceiveData(incoming: Buffer, len: nat)
      requires Valid()
      modifies this, buffer, list.Repr
      ensures var (st, p) := DecodeInto(crc, incoming, len, BLANK);
              var (r1, replies) := ReceiverSpec.ReceiveData(old(View()), st, p);
              && Valid() && View() == r1
              && AllEncodable(replies) && sent == old(sent) + Wires(crc, replies)
      ensures fresh(list.Repr - old(list.Repr))
    {
      hide LinkedList.Valid, AllSegments, IsSegment, WireForm, IsInWindow, DecodeInto, TruncatedNack,
           ReceiverSpec.AcceptData;
      var pkt := Read(incoming, len);
      var st, p := pkt.0, pkt.1;
      NoReplies(crc, sent);
      if st == BadCrc {
        if p.kind == Data && p.tr == 1 && IsInWindow(seqnumHead, windowsize, p.seqnum) {
          SendTruncatedNack(p);
        }
        return;
      }
      if st != Ok {
        return;
      }
      if p.kind == Data {
        if p.tr != 0 {
          SendTruncatedNack(p);
          return;
        }
        DecodedSegment(crc, incoming, len);
        var ret := AcceptData(p);
      }
    }

    /** read(sfd, buffer, ...) and pkt_decode into a fresh structure. */
    method Read(incoming: Buffer, len: nat) returns (pkt: (Status, Packet))
      requires buffer.Length == PKT_MAX_LEN
      modifies buffer
      ensures pkt == DecodeInto(crc, incoming, len, BLANK)
    {
      hide DecodeInto;
      Copy(buffer, 0, incoming);
      assert buffer[..] == buffer[..PKT_MAX_LEN] == incoming;
      var p := new Pkt();
      var st := p.Decode(crc, buffer, len);
      pkt := (st, p.View());
    }

    /** flush_file */
    method FlushFile() returns (written: int)
      requires Valid()
      modifies this, list
      ensures Valid() && (View(), written) == Flush(old(View()))
      ensures list.Repr == old(list.Repr) && sent == old(sent)
    {
      hide LinkedList.Valid, AllSegments, RunLength, Deliver, DeliverOne, Healthy;
      ghost var r := View();
      HealthyQueue(r);
      RunStep(r, 0);
      if list.size == 0 {
        WantAnswer();
        return 0;
      }
      written := 0;
      var current := list.head;
      list.Walk(0);
      while seqnumHead == current.pkt.seqnum
        invariant 0 <= written < |r.queue| && Valid() && list.Repr == old(list.Repr) && sent == old(sent)
        invariant list.size > 0 && current != null && current == list.head
        invariant View() == Deliver(r, written)
        invariant RunLength(r.queue, r.seqnumHead) == written + RunLength(list.packets, seqnumHead)
        decreases |r.queue| - written
      {
        list.Walk(0);
        RunStep(r, written);
        if current.pkt.length == 0 {
          FlushEnd(current);
          return -1;
        }
        DeliverNext(r, written);
        written := written + 1;
        FlushOne(current);
        RunStep(r, written);
        if current == list.tail {
          if list.size == 0 {
            WantAnswer();
          }
          return;
        }
        current := list.head;
        list.Walk(0);
      }
      list.Walk(0);
      RunStep(r, written);  // packets are left, so the source's last test of size fails
    }

    /** resent_ack = 1 */
    method WantAnswer()
      requires Valid()
      modifies this`resentAck
      ensures Valid() && View() == old(View()).(resentAck := true)
    {
      resentAck := true;
    }

    /** flush_file at the packet that ends the file, which stays queued. */
    method FlushEnd(current: Node)
      requires Valid()
      modifies this`lastTimestamp, this`seqnumHead
      ensures Valid()
      ensures View() == old(View()).(lastTimestamp := current.pkt.timestamp, seqnumHead := (old(seqnumHead) + 1) % 256)
    {
      lastTimestamp := current.pkt.timestamp;
      seqnumHead := (seqnumHead + 1) % 256;
    }

    /** One round of flush_file's loop: write the packet at the head out and remove it. */
    method FlushOne(current: Node)
      requires Valid() && list.size > 0 && current == list.head
      modifies this, list
      ensures Valid() && View() == DeliverOne(old(View()))
      ensures list.Repr == old(list.Repr) && sent == old(sent)
      ensures current == list.tail <==> list.size == 0
    {
      hide LinkedList.Valid, AllSegments;
      ghost var r := View();
      HeadSegment(r.queue);
      list.Walk(0);
      output := output + current.pkt.payload[..current.pkt.length];
      seqnumHead := (seqnumHead + 1) % 256;
      if list.size == 1 {
        seqnumTail := seqnumHead;
      }
      lastTimestamp := current.pkt.timestamp;
      var removed := list.Remove();
    }

    /** One round of the inner loop of read_write_receiver. */
    method Round(incoming: Buffer, len: nat) returns (leave: bool)
      requires Valid()
      modifies this, buffer, list.Repr
      ensures var (st, p) := DecodeInto(crc, incoming, len, BLANK);
              var (r1, replies, left) := Receive(old(View()), st, p);
              && Valid() && View() == r1 && leave == left
              && AllEncodable(replies) && sent == old(sent) + Wires(crc, replies)
      ensures fresh(list.Repr - old(list.Repr))
    {
      hide LinkedList.Valid, AllSegments, WireForm, DecodeInto, ReceiverSpec.ReceiveData, Flush;
      NoReplies(crc, sent);
      if !eofReached || seqnumHead != eofSeqnum {
        ReceiveData(incoming, len);
      }
      var written := FlushFile();
      if written == -1 {
        SendAck();
        return true;
      }
      return false;
    }

    /** The branch of read_write_receiver's loop for a socket that is only writable. */
    method Answer()
      requires Valid()
      modifies this, buffer
      ensures Valid() && View() == ReceiverSpec.Answer(old(View())).0
      ensures AllEncodable(ReceiverSpec.Answer(old(View())).1)
      ensures sent == old(sent) + Wires(crc, ReceiverSpec.Answer(old(View())).1)
    {
      hide LinkedList.Valid, AllSegments, WireForm;
      NoReplies(crc, sent);
      if resentAck {
        SendAck();
        resentAck := false;
      }
    }

    /** The inner loop of read_write_receiver: datagrams are taken as long as there are any. */
    method Burst(burst: seq<RT.Datagram>) returns (left: bool)
      requires Valid()
      modifies this, buffer, list.Repr
      ensures Valid() && (View(), left) == RT.Run(old(View()), RT.Arrivals(crc, burst))
      ensures AllEncodable(RT.Written(old(View()), RT.Arrivals(crc, burst)))
      ensures sent == old(sent) + Wires(crc, RT.Written(old(View()), RT.Arrivals(crc, burst)))
      ensures fresh(list.Repr - old(list.Repr))
    {
      hide LinkedList.Valid, AllSegments, WireForm, Wires, DecodeInto, Receive, RT.Run, RT.Written, RT.Arrivals;
      ghost var was, done := sent, [];
      NoReplies(crc, sent);
      left := false;
      var i := 0;
      while !left && i < |burst|
        invariant 0 <= i <= |burst| && Valid() && fresh(list.Repr - old(list.Repr))
        invariant RT.Run(old(View()), RT.Arrivals(crc, burst)) ==
                  if left then (View(), true) else RT.Run(View(), RT.Arrivals(crc, burst[i..]))
        invariant RT.Written(old(View()), RT.Arrivals(crc, burst)) ==
                  done + if left then [] else RT.Written(View(), RT.Arrivals(crc, burst[i..]))
        invariant AllEncodable(done) && sent == was + Wires(crc, done)
        decreases |burst| - i
      {
        ghost var replies := BurstStep(crc, View(), burst, i, done);
        left := Round(burst[i].buffer, burst[i].len);
        SentAppend(crc, was, done, replies);
        done := done + replies;
        i := i + 1;
      }
      BurstEnds(crc, View(), burst[i..], done);
    }

    /** read_write_receiver: the main loop, for as many reports of poll as there are. */
    method Run(polls: seq<RT.Poll>) returns (eofWrote: bool)
      requires Valid()
      modifies this, buffer, list.Repr
      ensures Valid() && (View(), eofWrote) == RT.Run(old(View()), RT.Events(crc, polls))
      ensures AllEncodable(RT.Written(old(View()), RT.Events(crc, polls)))
      ensures sent == old(sent) + Wires(crc, RT.Written(old(View()), RT.Events(crc, polls)))
    {
      hide LinkedList.Valid, AllSegments, WireForm, Wires, RT.Run, RT.Written, RT.Arrivals, RT.Events,
           ReceiverSpec.Answer;
      ghost var was, done := sent, [];
      NoReplies(crc, sent);
      eofWrote := false;
      var i := 0;
      while !eofWrote && i < |polls|
        invariant 0 <= i <= |polls| && Valid() && fresh(list.Repr - old(list.Repr))
        invariant RT.Run(old(View()), RT.Events(crc, polls)) ==
                  if eofWrote then (View(), true) else RT.Run(View(), RT.Events(crc, polls[i..]))
        invariant RT.Written(old(View()), RT.Events(crc, polls)) ==
                  done + if eofWrote then [] else RT.Written(View(), RT.Events(crc, polls[i..]))
        invariant AllEncodable(done) && sent == was + Wires(crc, done)
        decreases |polls| - i
      {
        ghost var replies := PollStep(crc, View(), polls, i, done);
        if polls[i].Readable? {
          eofWrote := Burst(polls[i].burst);
        } else {
          Answer();
        }
        SentAppend(crc, was, done, replies);
        done := done + replies;
        i := i + 1;
      }
      PollsEnd(crc, View(), polls[i..], done);
    }
  }

  lemma SentAppend(crc: Checksum, was: seq<Wire>, a: seq<Packet>, b: seq<Packet>)
    requires AllEncodable(a) && AllEncodable(b)
    ensures AllEncodable(a + b) && was + Wires(crc, a) + Wires(crc, b) == was + Wires(crc, a + b)
  {
    hide WireForm, Wires, Encodable;
    WiresConcat(crc, a, b);
    Associate(was, Wires(crc, a), Wires(crc, b));
  }

  lemma WiresConcat(crc: Checksum, a: seq<Packet>, b: seq<Packet>)
    requires AllEncodable(a) && AllEncodable(b)
    ensures AllEncodable(a + b) && Wires(crc, a + b) == Wires(crc, a) + Wires(crc, b)
  {
    hide WireForm, Encodable;
  }

  lemma BurstStep(crc: Checksum, r: ReceiverState, burst: seq<RT.Datagram>, i: nat, done: seq<Packet>)
    returns (replies: seq<Packet>)
    requires r.windowsize <= MAX_WINDOW_SIZE && i < |burst|
    ensures var (st, p) := DecodeInto(crc, burst[i].buffer, burst[i].len, BLANK);
            var (r1, sent, left) := Receive(r, st, p);
            var now, rest := RT.Arrivals(crc, burst[i..]), RT.Arrivals(crc, burst[i + 1..]);
            && replies == sent
            && RT.Run(r, now) == (if left then (r1, true) else RT.Run(r1, rest))
            && done + RT.Written(r, now) == done + replies + if left then [] else RT.Written(r1, rest)
  {
    hide Receive, DecodeInto, RT.Run, RT.Written, RT.Arrivals;
    assert burst[i..][0] == burst[i] && burst[i..][1..] == burst[i + 1..];
    RT.ArrivalsStep(crc, r, burst[i..]);
    var (st, p) := DecodeInto(crc, burst[i].buffer, burst[i].len, BLANK);
    replies := Receive(r, st, p).1;
  }

  lemma BurstEnds(crc: Checksum, r: ReceiverState, rest: seq<RT.Datagram>, done: seq<Packet>)
    ensures done + [] == done
    ensures rest == [] ==> RT.Run(r, RT.Arrivals(crc, rest)) == (r, false) && RT.Written(r, RT.Arrivals(crc, rest)) == []
  {
  }

  lemma PollStep(crc: Checksum, r: ReceiverState, polls: seq<RT.Poll>, i: nat, done: seq<Packet>)
    returns (replies: seq<Packet>)
    requires r.windowsize <= MAX_WINDOW_SIZE && i < |polls|
    ensures var readable := polls[i].Readable?;
            var (r1, left) := if readable then RT.Run(r, RT.Arrivals(crc, polls[i].burst))
                              else (ReceiverSpec.Answer(r).0, false);
            var now, rest := RT.Events(crc, polls[i..]), RT.Events(crc, polls[i + 1..]);
            && replies == (if readable then RT.Written(r, RT.Arrivals(crc, polls[i].burst)) else ReceiverSpec.Answer(r).1)
            && RT.Run(r, now) == (if left then (r1, true) else RT.Run(r1, rest))
            && done + RT.Written(r, now) == done + replies + if left then [] else RT.Written(r1, rest)
  {
    hide ReceiverSpec.Answer, RT.Run, RT.Written, RT.Arrivals, RT.Events;
    assert polls[i..][0] == polls[i] && polls[i..][1..] == polls[i + 1..];
    RT.EventsStep(crc, r, polls[i..]);
    replies := if polls[i].Readable? then RT.Written(r, RT.Arrivals(crc, polls[i].burst)) else ReceiverSpec.Answer(r).1;
  }

  lemma PollsEnd(crc: Checksum, r: ReceiverState, rest: seq<RT.Poll>, done: seq<Packet>)
    ensures done + [] == done
    ensures rest == [] ==> RT.Run(r, RT.Events(crc, rest)) == (r, false) && RT.Written(r, RT.Events(crc, rest)) == []
  {
  }

  lemma FrontSegments(queue: seq<Packet>, n: nat)
    requires AllSegments(queue) && n <= |queue|
    ensures AllSegments(queue[..n]) && queue[..|queue|] == queue
  {
  }

  /** Where AddIncreasing puts the packet, and that it keeps the variables healthy. */
  lemma InsertIsHealthy(r: ReceiverState, p: Packet)
    requires Healthy(r) && IsSegment(p)
    ensures var a := ReceiverSpec.AddIncreasing(r, p);
            && Healthy(a)
            && match PlaceOf(r, p)
               case Duplicate => a == r
               case Before(k) => a == r.(queue := Counted(InsertAt(r.queue, k, p)),
                                         seqnumTail := if k == |r.queue| then p.seqnum else r.seqnumTail)
    ensures InsertAt(r.queue, 0, p) == [p] + r.queue && InsertAt(r.queue, |r.queue|, p) == r.queue + [p]
  {
    hide IsSegment, AllSegments;
    if PlaceOf(r, p).Before? {
      SegmentsInsert(r.queue, PlaceOf(r, p).k, p);
    }
  }

  lemma SegmentsInsert(queue: seq<Packet>, k: nat, p: Packet)
    requires AllSegments(queue) && IsSegment(p) && k <= |queue|
    ensures AllSegments(InsertAt(queue, k, p)) && AllSegments([])
  {
    hide IsSegment;
  }

  lemma AddedFields(r: ReceiverState, p: Packet)
    ensures var r1 := ReceiverSpec.AddIncreasing(r, p);
            && r1.seqnumHead == r.seqnumHead && r1.windowsize == r.windowsize
            && (PlaceOf(r, p).Duplicate? ==> r1 == r)
  {
  }

  lemma NoReplies(crc: Checksum, sent: seq<Wire>)
    ensures AllEncodable([]) && Wires(crc, []) == [] && sent + Wires(crc, []) == sent
  {
  }

  lemma DecodedSegment(crc: Checksum, b: Buffer, len: nat)
    ensures var (st, p) := DecodeInto(crc, b, len, BLANK); st == Ok && p.kind == Data && p.tr == 0 ==> IsSegment(p)
  {
    hide DecodeInto, CodecTheorems.Describes;
    if DecodeInto(crc, b, len, BLANK).0 == Ok {
      CodecTheorems.DecodedIsDescribed(crc, b, len);
    }
  }

  /** Writing out the packet at the front. */
  function DeliverOne(r: ReceiverState): ReceiverState
    requires r.queue != []
  {
    var head, p := (r.seqnumHead + 1) % 256, r.queue[0];
    r.(output := r.output + p.payload, queue := r.queue[1..], seqnumHead := head,
       seqnumTail := if |r.queue| == 1 then head else r.seqnumTail, lastTimestamp := p.timestamp)
  }

  lemma DeliverNext(r: ReceiverState, n: nat)
    requires n < |r.queue|
    ensures Deliver(r, n).queue != [] && Deliver(r, n + 1) == DeliverOne(Deliver(r, n))
  {
    hide Payloads;
    OutputNext(r, n);
    assert ((r.seqnumHead + n) % 256 + 1) % 256 == (r.seqnumHead + n + 1) % 256;
    assert n > 0 ==> r.queue[n..][1..] == r.queue[n + 1..];
  }

  lemma OutputNext(r: ReceiverState, n: nat)
    requires n < |r.queue|
    ensures r.output + Payloads(r.queue[..n + 1]) == Deliver(r, n).output + r.queue[n].payload
  {
    hide Payloads;
    PayloadsAppend(r.queue[..n], r.queue[n]);
    NoPayloads();
    assert r.queue[..n + 1] == r.queue[..n] + [r.queue[n]];
    assert n == 0 ==> r.queue[..n] == [] && r.output + [] == r.output;
    Associate(r.output, Payloads(r.queue[..n]), r.queue[n].payload);
  }

  /** What flush_file finds after n deliveries. */
  lemma RunStep(r: ReceiverState, n: nat)
    requires n <= |r.queue| && AllSegments(r.queue)
    ensures var d := Deliver(r, n);
            && (n == 0 ==> d == r) && d.queue == r.queue[n..] && |d.queue| == |r.queue| - n && AllSegments(d.queue)
            && RunLength(d.queue, d.seqnumHead) ==
               if d.queue == [] || d.queue[0].seqnum != d.seqnumHead || d.queue[0].length == 0 then 0
               else 1 + RunLength(DeliverOne(d).queue, DeliverOne(d).seqnumHead)
  {
    assert r.queue[0..] == r.queue;
  }

  lemma HealthyQueue(r: ReceiverState)
    requires Healthy(r)
    ensures AllSegments(r.queue)
  {
  }

  lemma HeadSegment(queue: seq<Packet>)
    requires AllSegments(queue) && queue != []
    ensures queue[0].payload[..] == queue[0].payload && |queue[0].payload| == queue[0].length
    ensures queue[0].payload[..queue[0].length] == queue[0].payload && AllSegments(queue[1..])
  {
    assert IsSegment(queue[0]);
  }

  lemma NoPayloads()
    ensures Payloads([]) == []
  {
  }

  lemma {:induction false} PayloadsAppend(ps: seq<Packet>, p: Packet)
    ensures Payloads(ps + [p]) == Payloads(ps) + p.payload
  {
    if ps == [] {
      assert Payloads([p]) == p.payload + Payloads([]);
    } else {
      PayloadsAppend(ps[1..], p);
      assert (ps + [p])[1..] == ps[1..] + [p];
    }
  }
}
