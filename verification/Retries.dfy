/**
 * When the sender sends again and when it gives up, told by the ages of its packets and by what
 * happened in the run rather than by the sender's own tests and counters.
 */
module Retries {
  import opened Bytes
  import opened Packets
  import opened Files
  import opened Protocol
  import opened Seqnums
  import R = ReceiverSpec
  import S = SenderSpec

  /** Milliseconds since the packet was sent, on a 32-bit clock. */
  function Age(p: Packet, now: Word): Word {
    (now - p.timestamp) % 0x1_0000_0000
  }

  /** The positions of the packets older than two seconds when their turn comes, among the first n. */
  function Overdue(list: seq<Packet>, clock: S.Clock, n: nat): (at: seq<nat>)
    requires n <= |list|
    ensures forall j :: 0 <= j < |at| ==> at[j] < n
  {
    if n == 0 then []
    else Overdue(list, clock, n - 1) + if Age(list[n - 1], clock(n - 1)) > 2000 then [n - 1] else []
  }

  lemma {:induction false} OverdueExactly(list: seq<Packet>, clock: S.Clock, n: nat)
    requires n <= |list|
    ensures var at := Overdue(list, clock, n);
            && (forall j, k :: 0 <= j < k < |at| ==> at[j] < at[k])
            && forall i: nat :: i in at <==> i < n && Age(list[i], clock(i)) > 2000
  {
    hide Age;
    if n > 0 {
      OverdueExactly(list, clock, n - 1);
      var before := Overdue(list, clock, n - 1);
      if Age(list[n - 1], clock(n - 1)) > 2000 {
        assert (before + [n - 1])[|before|] == n - 1;
      }
    }
  }

  lemma AgeDecides(p: Packet, now: Word)
    ensures S.TimedOut(p, now) <==> Age(p, now) > 2000
  {
  }

  function Restamped(p: Packet, now: Word): Packet {
    p.(timestamp := now)
  }

  lemma OverdueStep(list: seq<Packet>, clock: S.Clock, k: nat)
    requires k < |list|
    ensures var due, now := Age(list[k], clock(k)) > 2000, clock(k);
            && Overdue(list, clock, k + 1) == Overdue(list, clock, k) + (if due then [k] else [])
            && S.Resent(list, clock, k + 1) == S.Resent(list, clock, k) + if due then [Restamped(list[k], now)] else []
  {
    hide S.TimedOut, Age;
    AgeDecides(list[k], clock(k));
  }

  /**
   * resent_pkt writes exactly the packets that are older than two seconds when the walk comes
   * to them, in the order of the list, each restamped with that very reading of the clock.
   */
  lemma {:induction false} ResentAreOverdue(list: seq<Packet>, clock: S.Clock, n: nat)
    requires n <= |list|
    ensures var at, again := Overdue(list, clock, n), S.Resent(list, clock, n);
            |again| == |at| && forall j :: 0 <= j < |at| ==> again[j] == Restamped(list[at[j]], clock(at[j]))
  {
    hide S.Resent, Overdue, Age, Restamped;
    if n == 0 {
      NothingYet(list, clock);
    } else {
      OverdueStep(list, clock, n - 1);
      ResentAreOverdue(list, clock, n - 1);
    }
  }

  lemma NothingYet(list: seq<Packet>, clock: S.Clock)
    ensures Overdue(list, clock, 0) == [] && S.Resent(list, clock, 0) == []
  {
  }

  /** How many packets without payload that are. */
  function Finals(list: seq<Packet>, at: seq<nat>): nat
    requires forall j :: 0 <= j < |at| ==> at[j] < |list|
  {
    if at == [] then 0
    else Finals(list, at[..|at| - 1]) + if list[at[|at| - 1]].length == 0 then 1 else 0
  }

  lemma NoFinals(list: seq<Packet>)
    ensures Finals(list, []) == 0
  {
  }

  lemma FinalsStep(list: seq<Packet>, at: seq<nat>, k: nat)
    requires k < |list| && forall j :: 0 <= j < |at| ==> at[j] < |list|
    ensures Finals(list, at + [k]) == Finals(list, at) + if list[k].length == 0 then 1 else 0
  {
    assert (at + [k])[..|at|] == at;
  }

  lemma {:induction false} FinalsAreCounted(list: seq<Packet>, clock: S.Clock, n: nat)
    requires n <= |list|
    ensures S.FinalsResent(list, clock, n) == Finals(list, Overdue(list, clock, n))
  {
    hide S.TimedOut, Age, Finals;
    if n == 0 {
      NoFinals(list);
    } else {
      AgeDecides(list[n - 1], clock(n - 1));
      FinalsAreCounted(list, clock, n - 1);
      var before := Overdue(list, clock, n - 1);
      FinalsStep(list, before, n - 1);
      assert before + [] == before;
    }
  }

  /** The whole effect of resent_pkt on the sender's variables, by ages alone. */
  lemma ResendExactly(s: S.SenderState, clock: S.Clock)
    ensures var s1 := S.Resend(s, clock);
            && s1 == s.(list := s1.list, lastRst := s.lastRst + Finals(s.list, Overdue(s.list, clock, |s.list|)))
            && |s1.list| == |s.list|
            && forall k :: 0 <= k < |s.list| ==>
                 s1.list[k] == if Age(s.list[k], clock(k)) > 2000 then Restamped(s.list[k], clock(k)) else s.list[k]
  {
    hide Overdue, Finals, S.TimedOut, Age;
    FinalsAreCounted(s.list, clock, |s.list|);
    forall k | 0 <= k < |s.list|
      ensures S.TimedOut(s.list[k], clock(k)) <==> Age(s.list[k], clock(k)) > 2000
    {
      AgeDecides(s.list[k], clock(k));
    }
  }

  lemma FirstOverdue(list: seq<Packet>, clock: S.Clock)
    ensures var at := Overdue(list, clock, |list|);
            at != [] ==> Age(list[at[0]], clock(at[0])) > 2000
  {
    hide Age, Overdue;
    OverdueExactly(list, clock, |list|);
    var at := Overdue(list, clock, |list|);
    if at != [] {
      assert at[0] in at;
    }
  }

  /** Nothing is sent again before its time. */
  lemma NothingIsOverdue(s: S.SenderState, clock: S.Clock)
    requires forall k :: 0 <= k < |s.list| ==> Age(s.list[k], clock(k)) <= 2000
    ensures S.Resend(s, clock) == s && S.Resent(s.list, clock, |s.list|) == []
  {
    hide Age, S.Resend, S.Resent, Overdue;
    FirstOverdue(s.list, clock);
    ResentAreOverdue(s.list, clock, |s.list|);
    ResendExactly(s, clock);
    assert S.Resend(s, clock).list == s.list;
  }

  // ---- Giving up ----

  /** The packets without payload that this sending half sends again. */
  function FinalsAgain(file: File, y: System, e: Event): nat
    requires Sane(y) && e.Send? && y.phase.Sending?
  {
    var list := S.FillOrFinal(file, y.s, e.fillClock).0.list;
    Finals(list, Overdue(list, e.resendClock, |list|))
  }

  /** How many of them were sent again since the sender last read a datagram. */
  function FinalsSince(crc: Checksum, file: File, events: seq<Event>): nat {
    if events == [] then 0
    else
      var before, e := events[..|events| - 1], events[|events| - 1];
      var y := Run(crc, file, before);
      if e.Read? && y.phase.Reading? && y.acks != [] then 0
      else FinalsSince(crc, file, before) + if e.Send? && y.phase.Sending? then FinalsAgain(file, y, e) else 0
  }

  lemma SendCounts(crc: Checksum, file: File, y: System, e: Event)
    requires Sane(y) && e.Send? && y.phase.Sending?
    ensures var z := Next(crc, file, y, e);
            && z.s.lastRst == y.s.lastRst + FinalsAgain(file, y, e)
            && (z.phase.GaveUp? <==> z.s.lastPkt && z.s.lastRst > 4)
  {
    hide Overdue, Finals, S.FillOrFinal, S.Resent, S.FinalsResent, Wires, WireForm;
    var s1 := S.FillOrFinal(file, y.s, e.fillClock).0;
    FillCountsNothing(file, y.s, e.fillClock);
    FinalsAreCounted(s1.list, e.resendClock, |s1.list|);
  }

  lemma FillCountsNothing(file: File, s: S.SenderState, clock: S.Clock)
    requires S.Healthy(s)
    ensures S.FillOrFinal(file, s, clock).0.lastRst == s.lastRst
  {
    hide S.FirstFilled, AllSegments, Chunk;
  }

  lemma OtherCounts(crc: Checksum, file: File, y: System, e: Event)
    requires Sane(y) && !(e.Send? && y.phase.Sending?)
    ensures var z := Next(crc, file, y, e);
            && z.s.lastRst == (if e.Read? && y.phase.Reading? && y.acks != [] then 0 else y.s.lastRst)
            && (z.phase.GaveUp? <==> y.phase.GaveUp?)
  {
    hide Decoded, WireForm, Wires, Cut, Encodable, R.Flush, R.ReceiveData, S.AckedCount, CanAckWindow;
  }

  lemma {:induction false} RunCounts(crc: Checksum, file: File, events: seq<Event>)
    ensures Run(crc, file, events).s.lastRst == FinalsSince(crc, file, events)
    decreases |events|
  {
    hide Next, FinalsAgain;
    if events != [] {
      var before, e := events[..|events| - 1], events[|events| - 1];
      var y := Run(crc, file, before);
      RunCounts(crc, file, before);
      if e.Send? && y.phase.Sending? {
        SendCounts(crc, file, y, e);
      } else {
        OtherCounts(crc, file, y, e);
      }
    }
  }

  /**
   * In every run, guarded or not, the sender gives up in a sending half exactly when its final
   * packet is out and packets without payload have been sent again more than four times since
   * it last read a datagram; and it gives up nowhere else.
   */
  lemma GivesUpExactly(crc: Checksum, file: File, events: seq<Event>, e: Event)
    ensures var y := Run(crc, file, events);
            var z := Run(crc, file, events + [e]);
            z.phase.GaveUp? <==>
            (y.phase.GaveUp? ||
             (e.Send? && y.phase.Sending? && z.s.lastPkt && FinalsSince(crc, file, events + [e]) > 4))
  {
    hide Next, FinalsAgain;
    var y := Run(crc, file, events);
    assert (events + [e])[..|events|] == events;
    RunCounts(crc, file, events + [e]);
    if e.Send? && y.phase.Sending? {
      SendCounts(crc, file, y, e);
    } else {
      OtherCounts(crc, file, y, e);
    }
  }
}
