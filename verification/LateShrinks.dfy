/**
 * The sender after its window shrank while the final packet was queued.  update_window has
 * then taken one packet too many off globalPkt: filling repeats indices, and a later final
 * packet may take an index beyond the end of the file.  Every packet still carries the number
 * and the chunk of one index; this module says which indices these are.
 */
module LateShrinks {
  import opened Bytes
  import opened Packets
  import opened Files
  import opened Seqnums
  import opened SenderSpec
  import opened SenderTheorems

  /**
   * An answer as it was sent: the window it announces, the index the receiver waited for, and a
   * measure of how far the receiver had come.
   */
  datatype Notice = Notice(window: nat, index: nat, level: int)

  /**
   * How the measure moves.  As long as the receiver delivers with every packet that widens its
   * window, index - window is such a measure: it never falls, and every shrink of the window
   * raises it by 3 at least.  In general only so much is known: it is five times the index plus
   * the number of shrinks since the index moved.
   */
  datatype Pace = Exact | Coarse

  function Loss(pace: Pace): nat {
    if pace.Exact? then 3 else 1
  }

  predicate Levelled(pace: Pace, n: Notice) {
    if pace.Exact? then n.level == n.index - n.window else 5 * n.index <= n.level <= 5 * n.index + 4
  }

  /** Notice b was sent after a. */
  predicate Related(pace: Pace, a: Notice, b: Notice) {
    && a.index <= b.index && a.level <= b.level
    && (b.window < a.window ==> a.level + Loss(pace) <= b.level)
    && (pace.Exact? && b.window < a.window ==>
          a.index - 15 <= b.level && (a.index == b.index ==> b.window <= a.window / 2))
  }

  /** The indices of the sender's list, the last index appended, and how often it shrank late. */
  datatype Tail = Tail(list: seq<int>, last: int, lates: nat)

  /** From one packet to the next the index rises by one at most. */
  predicate Climbs(e: seq<int>) {
    forall j, k :: 0 <= j < k < |e| ==> e[k] <= e[j] + (k - j)
  }

  predicate AllWithin(e: seq<int>, low: int, high: int) {
    forall k :: 0 <= k < |e| ==> low <= e[k] <= high
  }

  /** No index below this one is ever sent again. */
  function Lowest(file: File, lates: nat): int {
    ChunkCount(file) - 31 - lates
  }

  /** The highest index a packet queued can have: finals rise by one with every late shrink. */
  function Highest(file: File, s: SenderState, lates: nat): int {
    ChunkCount(file) + lates - if s.lastPkt then 0 else 1
  }

  /** How many late shrinks there can have been when answer `read` was the last one. */
  predicate Affords(file: File, read: Notice, pace: Pace, lates: nat) {
    && Levelled(pace, read) && ChunkCount(file) - 31 <= read.index <= ChunkCount(file) + 1
    && if pace.Exact? then 3 * lates <= read.level - (ChunkCount(file) - 62)
       else lates <= read.level - 5 * (ChunkCount(file) - 31)
  }

  function MaxLates(pace: Pace): nat {
    if pace.Exact? then 20 else 164
  }

  /** The packets of the list, and the last one appended. */
  ghost predicate Listed(file: File, s: SenderState, read: Notice, t: Tail) {
    && Carries(file, t.list, s.list) && Climbs(t.list)
    && AllWithin(t.list, Lowest(file, t.lates), Highest(file, s, t.lates))
    && (if t.list == [] then t.last < read.index else t.list[0] <= read.index && t.list[|t.list| - 1] == t.last)
  }

  /** The counters. */
  predicate Tallied(file: File, s: SenderState, t: Tail) {
    && t.last <= Highest(file, s, t.lates) && s.seqnumTail == Seqnum(t.last)
    && s.globalPkt <= t.last + 1 && s.globalPkt <= ChunkCount(file)
    && Lowest(file, t.lates) <= NextIndex(s) - |s.list|
    && (s.eofReached ==> s.globalPkt == ChunkCount(file))
    && (s.lastPkt ==> s.eofReached && t.last >= ChunkCount(file))
  }

  /** `read` is the last answer the sender has read. */
  ghost predicate Lags(file: File, s: SenderState, read: Notice, pace: Pace, t: Tail) {
    && Healthy(s) && Listed(file, s, read, t) && Tallied(file, s, t)
    && read.window == s.windowsize && Affords(file, read, pace, t.lates)
  }

  lemma LatesAreFew(file: File, s: SenderState, read: Notice, pace: Pace, t: Tail)
    requires Lags(file, s, read, pace, t)
    ensures t.lates <= MaxLates(pace)
  {
    hide IsPart, ChunkCount, Seqnum, AllSegments, Climbs;
  }

  // ---- Window size ----

  lemma ClimbsSlice(e: seq<int>, i: nat, j: nat)
    requires Climbs(e) && i <= j <= |e|
    ensures Climbs(e[i..j])
  {
  }

  lemma CarriesSlice(file: File, e: seq<int>, list: seq<Packet>, i: nat, j: nat)
    requires Carries(file, e, list) && i <= j <= |e|
    ensures Carries(file, e[i..j], list[i..j])
    ensures AllSegments(list) ==> AllSegments(list[i..j])
  {
    hide IsPart;
  }

  /** The first shrink after the final packet was queued. */
  lemma LateShrinkLags(file: File, s: SenderState, base: nat, read: Notice, pace: Pace, a: Notice) returns (t: Tail)
    requires Contiguous(file, s, base) && s.list != [] && s.lastPkt && a.window <= 31 && Shrinks(s, a.window)
    requires base <= read.index && read.window == s.windowsize && Levelled(pace, read) && Levelled(pace, a)
    requires Related(pace, read, a) && a.index <= ChunkCount(file) + 1
    ensures Lags(file, UpdateWindow(s, a.window), a, pace, t) && t.lates == 1
  {
    hide IsPart, ChunkCount, Seqnum;
    var s1 := UpdateWindow(s, a.window);
    var kept := |s1.list|;
    var e := seq(kept, k => base + k);
    PartsSlice(file, base, s.list, kept);
    PartsAreSegments(file, base, s1.list);
    assert s1.list == s.list[..kept];
    assert Carries(file, e, s1.list);
    assert s1.list[kept - 1].seqnum == Seqnum(base + (kept - 1));
    t := Tail(e, base + kept - 1, 1);
  }

  /**
   * What goes wrong then: when packets are dropped, the next one filled in repeats the last one
   * kept; when none is, the next thing sent is a second final packet under the next number.
   */
  lemma LateShrinkRepeats(file: File, s: SenderState, base: nat, w: Byte, clock: Clock)
    requires file != [] && Contiguous(file, s, base) && s.list != [] && s.lastPkt && Shrinks(s, w)
    ensures var s1 := UpdateWindow(s, w);
            && (w < |s.list| ==> s1.list[w - 1].seqnum == Seqnum(s1.globalPkt))
            && (|s.list| < w ==>
                  FillOrFinal(file, s1, clock).1 ==
                  [Segment(Seqnum(ChunkCount(file) + 1), w, [], clock(|s.list|))])
  {
    hide IsPart, AllSegments, ChunkCount, FillOrFinal, Segment, Seqnum;
    PartsAreSegments(file, base, s.list);
    var s1 := UpdateWindow(s, w);
    if w < |s.list| {
      assert s1.list[w - 1].seqnum == Seqnum(base + (w - 1));
    } else if |s.list| < w {
      assert s1.list == s.list && s.list[|s.list| - 1].seqnum == Seqnum(base + (|s.list| - 1));
      FinalFollows(file, s1, clock);
      NextNumber(ChunkCount(file));
    }
  }

  lemma NextNumber(i: int)
    ensures Seqnum(i + 1) == (Seqnum(i) + 1) % 256
  {
  }

  /** At the end of the file filling comes to the final packet alone. */
  lemma FinalFollows(file: File, s: SenderState, clock: Clock)
    requires Healthy(s) && s.globalPkt == ChunkCount(file) && !s.lastPkt && |s.list| < s.windowsize
    ensures FillOrFinal(file, s, clock).1 == [Segment((s.seqnumTail + 1) % 256, s.windowsize, [], clock(|s.list|))]
  {
    hide AllSegments, ChunkCount, Chunk, Segment;
    assert FirstFilled(file, s, clock, 0) == [] && s.list + [] == s.list;
  }

  /** Any new size after that; a shrink is late when the final packet is queued. */
  lemma UpdateLags(file: File, s: SenderState, read: Notice, pace: Pace, t: Tail, a: Notice) returns (t': Tail)
    requires Lags(file, s, read, pace, t) && s.list != [] && 1 <= a.window <= MAX_WINDOW_SIZE && Levelled(pace, a)
    requires Related(pace, read, a) && a.index <= ChunkCount(file) + 1
    ensures Lags(file, UpdateWindow(s, a.window), a, pace, t')
    ensures t'.lates == t.lates + if s.lastPkt && a.window < s.windowsize then 1 else 0
  {
    hide Lags;
    if Shrinks(s, a.window) {
      t' := ShrinkLags(file, s, read, pace, t, a);
    } else {
      GrowLags(file, s, read, pace, t, a);
      t' := t;
    }
  }

  lemma GrowLags(file: File, s: SenderState, read: Notice, pace: Pace, t: Tail, a: Notice)
    requires Lags(file, s, read, pace, t) && s.list != [] && 1 <= a.window <= MAX_WINDOW_SIZE && Levelled(pace, a)
    requires !Shrinks(s, a.window) && Related(pace, read, a) && a.index <= ChunkCount(file) + 1
    ensures s.windowsize <= a.window && Lags(file, UpdateWindow(s, a.window), a, pace, t)
  {
    hide Carries, ChunkCount, Seqnum, Climbs, AllWithin;
  }

  lemma ShrinkLags(file: File, s: SenderState, read: Notice, pace: Pace, t: Tail, a: Notice) returns (t': Tail)
    requires Lags(file, s, read, pace, t) && s.list != [] && 1 <= a.window <= MAX_WINDOW_SIZE && Levelled(pace, a)
    requires Shrinks(s, a.window) && Related(pace, read, a) && a.index <= ChunkCount(file) + 1
    ensures Lags(file, UpdateWindow(s, a.window), a, pace, t') && t'.lates == t.lates + if s.lastPkt then 1 else 0
    ensures a.window < s.windowsize
  {
    hide Carries, ChunkCount, Seqnum, Listed, Tallied, AllSegments;
    var kept := |UpdateWindow(s, a.window).list|;
    ListSize(file, s, read, t);
    t' := Tail(t.list[0..kept], t.list[kept - 1], t.lates + if s.lastPkt then 1 else 0);
    ShrinkListed(file, s, read, t, a, t');
    ShrinkTallied(file, s, read, t, a, t');
  }

  lemma ListSize(file: File, s: SenderState, read: Notice, t: Tail)
    requires Listed(file, s, read, t)
    ensures |t.list| == |s.list|
  {
  }

  lemma ShrinkListed(file: File, s: SenderState, read: Notice, t: Tail, a: Notice, t': Tail)
    requires Healthy(s) && Listed(file, s, read, t) && s.list != [] && read.index <= a.index
    requires a.window <= MAX_WINDOW_SIZE && Shrinks(s, a.window)
    requires |t.list| == |s.list| && t'.lates == t.lates + if s.lastPkt then 1 else 0
    requires var kept := |UpdateWindow(s, a.window).list|; t'.list == t.list[0..kept] && t'.last == t.list[kept - 1]
    ensures Healthy(UpdateWindow(s, a.window)) && Listed(file, UpdateWindow(s, a.window), a, t')
  {
    hide Carries, ChunkCount, Seqnum, Climbs, AllSegments;
    var s1 := UpdateWindow(s, a.window);
    var kept := |s1.list|;
    assert s1.list == s.list[0..kept];
    CarriesSlice(file, t.list, s.list, 0, kept);
    ClimbsSlice(t.list, 0, kept);
  }

  lemma ShrinkTallied(file: File, s: SenderState, read: Notice, t: Tail, a: Notice, t': Tail)
    requires Healthy(s) && Listed(file, s, read, t) && Tallied(file, s, t) && s.list != []
    requires a.window <= MAX_WINDOW_SIZE && Shrinks(s, a.window)
    requires |t.list| == |s.list| && t'.lates == t.lates + if s.lastPkt then 1 else 0
    requires t'.last == t.list[|UpdateWindow(s, a.window).list| - 1]
    ensures Tallied(file, UpdateWindow(s, a.window), t')
  {
    hide Carries, ChunkCount, Seqnum, Climbs, AllSegments;
    var kept := |UpdateWindow(s, a.window).list|;
    ClimbsBetween(t.list, kept - 1, |s.list| - 1);
    CarriedNumber(file, t.list, s.list, kept - 1);
  }

  lemma ClimbsBetween(e: seq<int>, j: nat, k: nat)
    requires Climbs(e) && j <= k < |e|
    ensures e[k] <= e[j] + (k - j)
  {
  }

  lemma CarriedNumber(file: File, e: seq<int>, list: seq<Packet>, k: nat)
    requires Carries(file, e, list) && k < |e|
    ensures k < |list| && list[k].seqnum == Seqnum(e[k])
  {
    PartNumber(file, e[k], list[k]);
  }

  lemma PartNumber(file: File, i: int, p: Packet)
    requires IsPart(file, i, p)
    ensures p.seqnum == Seqnum(i)
  {
  }

  // ---- Acknowledgement ----

  /** Climbing from at most `a`, the indices cannot pass `a` without meeting it. */
  lemma {:induction false} ClimbsThrough(e: seq<int>, a: int)
    requires Climbs(e) && e != [] && e[0] <= a && a !in e
    ensures e[|e| - 1] < a
    decreases |e|
  {
    if |e| > 1 {
      ClimbsSlice(e, 0, |e| - 1);
      ClimbsThrough(e[0..|e| - 1], a);
      assert e[|e| - 1] <= e[|e| - 2] + 1;
    }
  }

  /** Acknowledging index a removes what lies before the first packet of index a. */
  lemma {:induction false} AckedCountStops(file: File, e: seq<int>, list: seq<Packet>, a: int)
    requires Carries(file, e, list) && AllWithin(e, a - 255, a + 255)
    ensures var n := AckedCount(list, Seqnum(a));
            (forall k :: 0 <= k < n ==> e[k] != a) && (n < |e| ==> e[n] == a)
    decreases |e|
  {
    hide IsPart, Seqnum;
    if e != [] {
      PartNumber(file, e[0], list[0]);
      SameResidue(e[0], a);
      if e[0] != a {
        CarriesSlice(file, e, list, 1, |e|);
        assert e[1..|e|] == e[1..] && list[1..|e|] == list[1..];
        AckedCountStops(file, e[1..], list[1..], a);
        var n := AckedCount(list[1..], Seqnum(a));
        forall k | 0 <= k < n + 1
          ensures e[k] != a
        {
          assert k > 0 ==> e[k] == e[1..][k - 1];
        }
      }
    }
  }

  lemma SameResidue(i: int, j: int)
    requires j - 255 <= i <= j + 255
    ensures Seqnum(i) == Seqnum(j) <==> i == j
  {
  }

  /** The list is emptied for good only by the acknowledgement of the final packet. */
  lemma AckLags(file: File, s: SenderState, a: Notice, pace: Pace, t: Tail) returns (t': Tail)
    requires Lags(file, s, a, pace, t) && s.list != []
    ensures var s1 := AckWindow(s, Seqnum(a.index));
            && Lags(file, s1, a, pace, t') && t'.lates == t.lates
            && (s1.lastPkt && s1.list == [] ==> a.index > ChunkCount(file))
  {
    hide Carries, Seqnum, ChunkCount, CanAckWindow, AckedCount, AfterRemoving, Climbs, AllSegments;
    t' := t;
    if CanAckWindow(s.seqnumHead, s.seqnumTail, Seqnum(a.index)) {
      LatesAreFew(file, s, a, pace, t);
      SameSize(file, t.list, s.list);
      AckedCountStops(file, t.list, s.list, a.index);
      var n := AckedCount(s.list, Seqnum(a.index));
      if n == |s.list| {
        assert a.index !in t.list;
        ClimbsThrough(t.list, a.index);
      }
      RemovedLags(file, s, a, pace, t, n);
      t' := t.(list := t.list[n..|s.list|]);
    }
  }

  lemma SameSize(file: File, e: seq<int>, list: seq<Packet>)
    requires Carries(file, e, list)
    ensures |e| == |list|
  {
  }

  lemma RemovedLags(file: File, s: SenderState, a: Notice, pace: Pace, t: Tail, n: nat)
    requires Lags(file, s, a, pace, t) && n <= |s.list| && s.list != []
    requires |t.list| == |s.list| && if n < |s.list| then t.list[n] == a.index else t.last < a.index
    ensures var s1 := AfterRemoving(s, n);
            && Lags(file, s1, a, pace, t.(list := t.list[n..|s.list|]))
            && s1.lastPkt == s.lastPkt && |s1.list| == |s.list| - n
  {
    hide IsPart, Seqnum, ChunkCount, Climbs, Carries;
    var size := |s.list|;
    ClimbsSlice(t.list, n, size);
    CarriesSlice(file, t.list, s.list, n, size);
    assert s.list[n..size] == s.list[n..];
  }

  // ---- The sending half ----

  lemma AppendClimbs(e: seq<int>, from: int, m: nat, more: seq<int>)
    requires Climbs(e) && more == seq(m, k => from + k)
    requires e != [] ==> from <= e[|e| - 1] + 1
    ensures Climbs(e + more)
  {
    var all := e + more;
    forall j, k | 0 <= j < k < |all|
      ensures all[k] <= all[j] + (k - j)
    {
      if j < |e| <= k {
        assert all[k] == from + (k - |e|);
        assert j < |e| - 1 ==> e[|e| - 1] <= e[j] + (|e| - 1 - j);
      }
    }
  }

  lemma AppendWithin(e: seq<int>, from: int, m: nat, more: seq<int>, low: int, high: int)
    requires AllWithin(e, low, high) && more == seq(m, k => from + k)
    requires m > 0 ==> low <= from && from + m - 1 <= high
    ensures AllWithin(e + more, low, high)
  {
  }

  lemma AppendCarries(file: File, e: seq<int>, list: seq<Packet>, more: seq<int>, packets: seq<Packet>)
    requires Carries(file, e, list) && Carries(file, more, packets)
    ensures Carries(file, e + more, list + packets)
    ensures AllSegments(list) && AllSegments(packets) ==> AllSegments(list + packets)
  {
    hide IsPart;
  }

  lemma FillLags(file: File, s: SenderState, read: Notice, pace: Pace, t: Tail, clock: Clock)
    returns (t': Tail, more: seq<int>)
    requires Lags(file, s, read, pace, t)
    ensures Lags(file, Fill(file, s, clock), read, pace, t') && t'.list == t.list + more && t'.lates == t.lates
    ensures Carries(file, more, FillSent(file, s, clock))
  {
    hide Listed, Tallied, Affords, AllSegments, FillCount, Fill, FillSent, Carries;
    var m := FillCount(file, s);
    more := seq(m, k => s.globalPkt + k);
    t' := Tail(t.list + more, if m == 0 then t.last else s.globalPkt + m - 1, t.lates);
    FillSentCarries(file, s, clock);
    FillIsHealthy(file, s, clock);
    FillFields(file, s, clock);
    FillTallied(file, s, t, clock, m, t');
    FillListed(file, s, read, t, clock, more, t');
  }

  lemma FillTallied(file: File, s: SenderState, t: Tail, clock: Clock, m: nat, t': Tail)
    requires Healthy(s) && Tallied(file, s, t) && m == FillCount(file, s)
    requires t'.last == (if m == 0 then t.last else s.globalPkt + m - 1) && t'.lates == t.lates
    ensures Tallied(file, Fill(file, s, clock), t')
  {
    hide Seqnum, ChunkCount, AllSegments, FillCount, Fill, FillSent;
    FillFields(file, s, clock);
  }

  lemma FillListed(file: File, s: SenderState, read: Notice, t: Tail, clock: Clock, more: seq<int>, t': Tail)
    requires Healthy(s) && Listed(file, s, read, t) && Tallied(file, s, t)
    requires var m := FillCount(file, s);
             && more == seq(m, k => s.globalPkt + k) && Carries(file, more, FillSent(file, s, clock))
             && t' == Tail(t.list + more, if m == 0 then t.last else s.globalPkt + m - 1, t.lates)
    ensures Listed(file, Fill(file, s, clock), read, t')
  {
    hide Carries, Seqnum, ChunkCount, Climbs, AllSegments, AllWithin, FillCount, Fill, FillSent;
    var m := FillCount(file, s);
    SameSize(file, t.list, s.list);
    FillFields(file, s, clock);
    AppendWithin(t.list, s.globalPkt, m, more, Lowest(file, t.lates), Highest(file, s, t.lates));
    AppendCarries(file, t.list, s.list, more, FillSent(file, s, clock));
    AppendClimbs(t.list, s.globalPkt, m, more);
    assert m == 0 ==> t.list + more == t.list;
  }

  lemma FillFields(file: File, s: SenderState, clock: Clock)
    requires Healthy(s)
    ensures var s1, m := Fill(file, s, clock), FillCount(file, s);
            && s1.list == s.list + FillSent(file, s, clock) && |FillSent(file, s, clock)| == m
            && s1.globalPkt == s.globalPkt + m && (m > 0 ==> s1.seqnumTail == Seqnum(s.globalPkt + m - 1))
            && (m == 0 ==> s1.seqnumTail == s.seqnumTail)
            && s1.lastPkt == s.lastPkt && s1.windowsize == s.windowsize
            && (s.eofReached ==> m == 0 && s1.eofReached)
            && (s.globalPkt <= ChunkCount(file) ==> s1.globalPkt <= ChunkCount(file))
            && (s.globalPkt <= ChunkCount(file) && s1.eofReached && !s.eofReached ==> s1.globalPkt == ChunkCount(file))
  {
    hide Seqnum, ChunkCount, AllSegments;
  }

  lemma FillSentCarries(file: File, s: SenderState, clock: Clock)
    requires Healthy(s)
    ensures Carries(file, seq(FillCount(file, s), k => s.globalPkt + k), FillSent(file, s, clock))
  {
    hide IsPart, Seqnum, ChunkCount, Chunk;
    FillSentIsRun(file, s, clock);
  }

  lemma SendFinalLags(file: File, s: SenderState, read: Notice, pace: Pace, t: Tail, now: Word) returns (t': Tail)
    requires Lags(file, s, read, pace, t) && !s.lastPkt && s.eofReached && |s.list| < s.windowsize
    ensures Lags(file, SendFinal(s, now), read, pace, t') && t'.list == t.list + [t.last + 1] && t'.lates == t.lates
    ensures Carries(file, [t.last + 1], [Final(s, now)])
  {
    hide IsPart, Seqnum, ChunkCount, Chunk, Climbs;
    FinalPart(file, s, t.last, now);
    AppendCarries(file, t.list, s.list, [t.last + 1], [Final(s, now)]);
    AppendClimbs(t.list, t.last + 1, 1, [t.last + 1]);
    t' := Tail(t.list + [t.last + 1], t.last + 1, t.lates);
  }

  lemma FinalPart(file: File, s: SenderState, last: int, now: Word)
    requires Healthy(s) && s.seqnumTail == Seqnum(last) && last + 1 >= ChunkCount(file)
    ensures IsPart(file, last + 1, Final(s, now)) && AllSegments([Final(s, now)])
    ensures (s.seqnumTail + 1) % 256 == Seqnum(last + 1)
  {
    ChunkIsEmpty(file, last + 1);
  }

  /** Whatever the sending half appends and resends carries an index of the list. */
  lemma SendLags(file: File, s: SenderState, read: Notice, pace: Pace, t: Tail, fillClock: Clock, resendClock: Clock)
    returns (filled: seq<int>, again: seq<int>, t': Tail)
    requires Lags(file, s, read, pace, t)
    ensures var (s1, sent) := FillOrFinal(file, s, fillClock);
            && Carries(file, filled, sent)
            && Carries(file, again, Resent(s1.list, resendClock, |s1.list|))
            && AllWithin(filled + again, Lowest(file, MaxLates(pace)), ChunkCount(file) + MaxLates(pace))
            && Lags(file, Resend(s1, resendClock), read, pace, t') && t'.lates == t.lates
  {
    hide IsPart, Seqnum, ChunkCount, Chunk, Climbs, Fill, FillSent, SendFinal, Final, Resent;
    var t1, more := FillLags(file, s, read, pace, t, fillClock);
    var f := Fill(file, s, fillClock);
    filled := more;
    if !f.lastPkt && f.eofReached && |f.list| < f.windowsize {
      var now := fillClock(|f.list|);
      t1 := SendFinalLags(file, f, read, pace, t1, now);
      AppendCarries(file, more, FillSent(file, s, fillClock), [t1.last], [Final(f, now)]);
      filled := more + [t1.last];
    }
    var (s1, sent) := FillOrFinal(file, s, fillClock);
    LatesAreFew(file, s1, read, pace, t1);
    again := ResentIndices(file, s1.list, t1.list, resendClock, |s1.list|);
    assert t1.list == t.list + filled;
    PartsWithin(t.list, filled, again, Lowest(file, t1.lates), Highest(file, s1, t1.lates));
    ResendLags(file, s1, read, pace, t1, resendClock);
    t' := t1;
  }

  lemma PartsWithin(e: seq<int>, filled: seq<int>, again: seq<int>, low: int, high: int)
    requires AllWithin(e + filled, low, high) && forall k :: 0 <= k < |again| ==> again[k] in e + filled
    ensures AllWithin(filled + again, low, high)
  {
    forall k | 0 <= k < |filled + again|
      ensures low <= (filled + again)[k] <= high
    {
      if k < |filled| {
        assert (e + filled)[|e| + k] == filled[k];
      }
    }
  }

  lemma ResendLags(file: File, s: SenderState, read: Notice, pace: Pace, t: Tail, clock: Clock)
    requires Lags(file, s, read, pace, t)
    ensures Lags(file, Resend(s, clock), read, pace, t)
  {
    hide IsPart, Seqnum, ChunkCount, Climbs, TimedOut, AllSegments;
    ResendKeepsHealthy(s, clock);
    forall k | 0 <= k < |s.list|
      ensures IsPart(file, t.list[k], Refresh(s.list, clock)[k])
    {
      RefreshedIsPart(file, t.list[k], s.list[k], clock(k));
    }
  }
}
