/**
 * The receiver's queue when its walk may have been misled: what still bounds its size, its
 * window, and how far behind the indices in it can lie.
 */
module LooseQueues {
  import opened Bytes
  import opened Packets
  import opened Files
  import opened Seqnums
  import opened Seqs
  import opened ReceiverSpec
  import RT = ReceiverTheorems

  // ---- What the walk finds ----

  /** The window reaches 256, so that the walk unfolds numbers below the head. */
  predicate Wraps(head: Byte, windowsize: int) {
    head + windowsize >= 256
  }

  /** What the walk compares numbers by. */
  function Key(head: Byte, wraps: bool, v: Byte): int {
    if wraps && v < head then v + 256 else v
  }

  /** Number v is queued behind smaller numbers only: a walk for v finds it. */
  predicate FirstAt(queue: seq<Packet>, head: Byte, wraps: bool, v: Byte, k: nat)
    requires k < |queue|
  {
    && queue[k].seqnum == v
    && forall j :: 0 <= j < k ==> Key(head, wraps, queue[j].seqnum) < Key(head, wraps, v)
  }

  predicate First(queue: seq<Packet>, head: Byte, wraps: bool, v: Byte) {
    exists k :: 0 <= k < |queue| && FirstAt(queue, head, wraps, v, k)
  }

  /** The walk for number x stops at position m, in front of something larger. */
  predicate Stops(queue: seq<Packet>, head: Byte, wraps: bool, x: Byte, m: nat) {
    && m <= |queue|
    && (forall j :: 0 <= j < m ==> Key(head, wraps, queue[j].seqnum) < Key(head, wraps, x))
    && (m < |queue| ==> Key(head, wraps, queue[m].seqnum) > Key(head, wraps, x))
  }

  lemma GreaterByKey(a: Byte, b: Byte, head: Byte, windowsize: nat)
    requires 1 <= windowsize <= MAX_WINDOW_SIZE
    ensures IsSeqnumGreater(a, b, head, windowsize) <==>
            Key(head, Wraps(head, windowsize), a) > Key(head, Wraps(head, windowsize), b)
    ensures Key(head, Wraps(head, windowsize), a) == Key(head, Wraps(head, windowsize), b) <==> a == b
  {
  }

  lemma {:induction false} ScanStops(queue: seq<Packet>, head: Byte, windowsize: nat, x: Byte, k: nat)
    requires 1 <= windowsize <= MAX_WINDOW_SIZE && k <= |queue|
    requires var wraps := Wraps(head, windowsize);
             forall j :: 0 <= j < k ==> Key(head, wraps, queue[j].seqnum) < Key(head, wraps, x)
    ensures var place := Scan(queue, head, windowsize, x, k);
            place.Before? ==> Stops(queue, head, Wraps(head, windowsize), x, place.k)
    decreases |queue| - k
  {
    hide Key, Wraps, IsSeqnumGreater;
    if k < |queue| {
      GreaterByKey(queue[k].seqnum, x, head, windowsize);
      GreaterByKey(x, queue[k].seqnum, head, windowsize);
      if queue[k].seqnum != x && !IsSeqnumGreater(queue[k].seqnum, x, head, windowsize) {
        ScanStops(queue, head, windowsize, x, k + 1);
      }
    }
  }

  /** What is put there is found from then on, and everything else that was found still is. */
  lemma InsertIsFirst(queue: seq<Packet>, head: Byte, wraps: bool, p: Packet, m: nat)
    requires Stops(queue, head, wraps, p.seqnum, m)
    ensures !First(queue, head, wraps, p.seqnum) && First(InsertAt(queue, m, p), head, wraps, p.seqnum)
    ensures forall v: Byte :: First(queue, head, wraps, v) ==> First(InsertAt(queue, m, p), head, wraps, v)
  {
    hide Key;
    var more := InsertAt(queue, m, p);
    assert FirstAt(more, head, wraps, p.seqnum, m);
    forall v: Byte | First(queue, head, wraps, v)
      ensures First(more, head, wraps, v)
    {
      var k :| 0 <= k < |queue| && FirstAt(queue, head, wraps, v, k);
      assert FirstAt(more, head, wraps, v, if k < m then k else k + 1);
    }
  }

  // ---- How long the queue can be ----

  /** The numbers at most n ahead of the head. */
  function Near(head: Byte, n: int): set<int> {
    set v | 0 <= v < 256 && Distance(head, v) <= n
  }

  /** Those of them that a walk finds. */
  function Firsts(queue: seq<Packet>, head: Byte, wraps: bool): set<int> {
    set v | v in Near(head, 32) && First(queue, head, wraps, v)
  }

  lemma {:induction false} NearAreFew(head: Byte, n: int)
    requires -1 <= n < 256
    ensures |Near(head, n)| <= n + 1
    decreases n
  {
    hide Distance;
    if n < 0 {
      assert Near(head, n) == {};
    } else {
      NearAreFew(head, n - 1);
      var last: int := (head + n) % 256;
      forall v | v in Near(head, n)
        ensures v in Near(head, n - 1) + {last}
      {
        AtDistance(head, v, n);
      }
      Fewer(Near(head, n), Near(head, n - 1) + {last});
    }
  }

  lemma AtDistance(head: Byte, v: Byte, n: Byte)
    ensures Distance(head, v) == n ==> v == (head + n) % 256
  {
  }

  lemma Fewer(a: set<int>, b: set<int>)
    requires a <= b
    ensures |a| <= |b|
  {
    assert b == a + (b - a);
  }

  lemma FirstsAreFew(queue: seq<Packet>, head: Byte, wraps: bool)
    ensures |Firsts(queue, head, wraps)| <= 33
  {
    hide Distance, First;
    NearAreFew(head, 32);
    Fewer(Firsts(queue, head, wraps), Near(head, 32));
  }

  /** All but a few packets of the queue were put where a walk finds them. */
  predicate Short(r: ReceiverState) {
    var wraps := Wraps(r.seqnumHead, r.windowsize);
    |r.queue| <= (if wraps then 66 else 33) + |Firsts(r.queue, r.seqnumHead, wraps)|
  }

  lemma InsertAddsFirst(queue: seq<Packet>, head: Byte, wraps: bool, p: Packet, m: nat)
    requires m <= |queue| && Stops(queue, head, wraps, p.seqnum, m) && Distance(head, p.seqnum) <= 32
    ensures |Firsts(InsertAt(queue, m, p), head, wraps)| > |Firsts(queue, head, wraps)|
  {
    hide Distance, First, Stops;
    InsertIsFirst(queue, head, wraps, p, m);
    Fewer(Firsts(queue, head, wraps) + {p.seqnum as int}, Firsts(InsertAt(queue, m, p), head, wraps));
  }

  // ---- How large the window can be ----

  /** The packet awaited is at the front: the flush that follows writes it. */
  predicate Fronts(r: ReceiverState) {
    r.queue != [] && r.queue[0].seqnum == r.seqnumHead
  }

  /** The window exceeds the bound only after the packet awaited was put where it is not delivered. */
  predicate Tight(r: ReceiverState, bound: int) {
    && r.windowsize <= bound + 1
    && Short(r)
    && (r.windowsize > bound && !Wraps(r.seqnumHead, r.windowsize) ==>
          First(r.queue, r.seqnumHead, false, r.seqnumHead))
  }

  predicate Halved(r: ReceiverState, r1: ReceiverState) {
    r1.windowsize == r.windowsize / 2 < r.windowsize && r.windowsize > 4 && |r1.queue| <= 15
  }

  lemma TakeResizes(r: ReceiverState, st: Status, p: Packet)
    requires 1 <= r.windowsize <= MAX_WINDOW_SIZE
    ensures var r1 := ReceiveData(r, st, p).0;
            && r1.seqnumHead == r.seqnumHead && r1.windowsize <= r.windowsize + 1
            && (r1.windowsize < r.windowsize ==> Halved(r, r1))
  {
    hide IsInWindow, PlaceOf;
  }

  /** What a complete packet comes to that is put at position m. */
  lemma InsertStaysTight(r: ReceiverState, bound: int, p: Packet, m: nat)
    requires 1 <= r.windowsize <= MAX_WINDOW_SIZE && Tight(r, bound) && !Fronts(r)
    requires IsInWindow(r.seqnumHead, r.windowsize, p.seqnum) && PlaceOf(r, p) == Before(m)
    ensures var r1 := AcceptData(r, p);
            && (Fronts(r1) || Tight(r1, bound))
            && (r.seqnumHead + bound + 1 < 256 ==> r1.windowsize <= bound + 1 && Short(r1))
  {
    hide IsInWindow, Scan, Firsts, First, Distance;
    var head, wraps := r.seqnumHead, Wraps(r.seqnumHead, r.windowsize);
    WindowTestExact(head, r.windowsize, p.seqnum);
    ScanStops(r.queue, head, r.windowsize, p.seqnum, 0);
    InsertAddsFirst(r.queue, head, wraps, p, m);
    InsertIsFirst(r.queue, head, wraps, p, m);
    var queue := InsertAt(r.queue, m, p);
    FirstsAreFew(queue, head, wraps);
    assert Counted(queue) == queue;
    if p.seqnum == head && wraps {
      assert m == 0 && queue[0] == p;
    }
  }

  /** One datagram: the window is halved, or what is awaited comes to the front, or the bound holds. */
  lemma TakeStaysTight(r: ReceiverState, bound: int, st: Status, p: Packet)
    requires 1 <= r.windowsize <= MAX_WINDOW_SIZE && Tight(r, bound) && !Fronts(r)
    ensures var r1 := ReceiveData(r, st, p).0;
            && (Halved(r, r1) || Fronts(r1) || Tight(r1, bound))
            && (r.seqnumHead + bound + 1 < 256 ==> Halved(r, r1) || (r1.windowsize <= bound + 1 && Short(r1)))
  {
    hide IsInWindow, AcceptData, Short, First;
    var complete := st == Ok && p.kind == Data && p.tr == 0;
    if complete {
      AcceptLeaves(r, p);
      if IsInWindow(r.seqnumHead, r.windowsize, p.seqnum) && PlaceOf(r, p).Before? {
        InsertStaysTight(r, bound, p, PlaceOf(r, p).k);
      } else {
        SameQueue(r, AcceptData(r, p));
      }
    }
  }

  lemma AcceptLeaves(r: ReceiverState, p: Packet)
    ensures !IsInWindow(r.seqnumHead, r.windowsize, p.seqnum) || PlaceOf(r, p).Duplicate? ==>
              AcceptData(r, p) == r.(resentAck := true)
  {
    hide IsInWindow, PlaceOf;
  }

  lemma SameQueue(r: ReceiverState, r1: ReceiverState)
    requires r1.queue == r.queue && r1.seqnumHead == r.seqnumHead && r1.windowsize == r.windowsize
    ensures Short(r) ==> Short(r1)
    ensures forall bound: int :: Tight(r, bound) ==> Tight(r1, bound)
  {
    hide First, Firsts;
  }

  lemma HalvedIsTight(r: ReceiverState, r1: ReceiverState, bound: int)
    requires Halved(r, r1) && r.windowsize / 2 <= bound
    ensures Tight(r1, bound)
  {
    hide First, Firsts;
  }

  // ---- How often the window can shrink ----

  function Bound(k: nat): int {
    if k == 0 then 31 else if k == 1 then 15 else if k == 2 then 8 else if k == 3 then 4 else 2
  }

  /** The window has shrunk k times since the receiver last delivered anything. */
  predicate Paced(r: ReceiverState, k: nat) {
    k <= 4 && (k > 0 ==> Tight(r, Bound(k)))
  }

  /** It cannot shrink a fifth time before something is delivered. */
  lemma TakeStaysPaced(r: ReceiverState, k: nat, st: Status, p: Packet) returns (k': nat)
    requires 1 <= r.windowsize <= MAX_WINDOW_SIZE && Paced(r, k) && !Fronts(r)
    ensures var r1 := ReceiveData(r, st, p).0;
            && k' == k + (if r1.windowsize < r.windowsize then 1 else 0) && k' <= 4
            && (Fronts(r1) || Paced(r1, k'))
  {
    hide ReceiveData, Tight, Fronts;
    var r1 := ReceiveData(r, st, p).0;
    k' := k + (if r1.windowsize < r.windowsize then 1 else 0);
    TakeResizes(r, st, p);
    if r1.windowsize < r.windowsize {
      TightWindow(r, Bound(k));
      HalvedIsTight(r, r1, Bound(k'));
    } else if k > 0 {
      TakeStaysTight(r, Bound(k), st, p);
    }
  }

  lemma TightWindow(r: ReceiverState, bound: int)
    ensures Tight(r, bound) ==> r.windowsize <= bound + 1 && Short(r)
  {
  }

  // ---- The indices queued ----

  /** What the queue holds once a datagram was taken in, whatever became of its order. */
  function Mixed(r: ReceiverState, idx: seq<int>, e: RT.Event): (mid: seq<int>)
    requires e.Arrive? && r.windowsize <= MAX_WINDOW_SIZE && |idx| == |r.queue|
  {
    Counted(RT.Taken(r, idx, e))
  }

  /** A complete packet is that of its index, which is near what the receiver waits for. */
  predicate Plausible(file: File, h: nat, e: RT.Event) {
    RT.IsComplete(e) ==> IsPart(file, e.i, e.p) && h - 223 <= e.i <= h + 255
  }

  /** The packet is put at position m of the queue. */
  predicate Inserts(r: ReceiverState, e: RT.Event, m: nat) {
    && RT.IsComplete(e) && WantsData(r) && IsInWindow(r.seqnumHead, r.windowsize, e.p.seqnum)
    && PlaceOf(r, e.p) == Before(m)
  }

  /** A datagram is inserted, or leaves a front part of the queue. */
  lemma TakeHolds(file: File, r: ReceiverState, idx: seq<int>, h: nat, e: RT.Event)
    requires RT.Holding(file, r, idx, h) && |idx| <= 255 && e.Arrive? && Plausible(file, h, e)
    ensures var r1 := if WantsData(r) then ReceiveData(r, e.st, e.p).0 else r;
            var mid := Mixed(r, idx, e);
            && RT.Holding(file, r1, mid, h) && |mid| <= 255
            && (mid <= idx ||
                exists m: nat :: m <= |idx| && Inserts(r, e, m) && h <= e.i <= h + r.windowsize + 1 &&
                                 mid == InsertAt(idx, m, e.i))
  {
    hide Seqnum, IsPart, Prefix, Scan, IsInWindow;
    var offered := RT.IsComplete(e) && WantsData(r) && IsInWindow(r.seqnumHead, r.windowsize, e.p.seqnum);
    if offered && PlaceOf(r, e.p).Before? {
      var m := PlaceOf(r, e.p).k;
      RT.InsertCarries(file, idx, r.queue, m, e.i, e.p);
      RT.PartNumber(file, e.i, e.p);
      WindowTestOnIndices(h, r.windowsize, e.i);
      assert Inserts(r, e, m);
    }
  }

  /** Of the indices below 256 the queue is a rising sequence ... */
  predicate Rising(idx: seq<int>) {
    forall j, k :: 0 <= j < k < |idx| && idx[j] < 256 && idx[k] < 256 ==> idx[j] < idx[k]
  }

  /** ... and nothing beyond lies in front of them. */
  predicate Split(idx: seq<int>) {
    forall j, k :: 0 <= j < k < |idx| && idx[k] < 256 ==> idx[j] < idx[k]
  }

  lemma KeyNearWrap(h: nat, i: int)
    requires 226 <= h <= 232 && h <= i <= h + 32
    ensures Key(Seqnum(h), true, Seqnum(i)) == i
    ensures Key(Seqnum(h), false, Seqnum(i)) == if i < 256 then i else i - 256
  {
  }

  lemma InsertStaysSplit(idx: seq<int>, queue: seq<Packet>, h: nat, x: int, m: nat)
    requires RT.Numbers(idx, queue) && RT.Between(idx, h, h + 32) && h <= x <= h + 32 && 226 <= h <= 232
    requires m <= |idx| && Stops(queue, Seqnum(h), true, Seqnum(x), m) && Split(idx)
    ensures Split(InsertAt(idx, m, x))
  {
    hide Seqnum, Key, Split;
    KeyNearWrap(h, x);
    forall k | 0 <= k < |idx|
      ensures Key(Seqnum(h), true, queue[k].seqnum) == idx[k]
    {
      KeyNearWrap(h, idx[k]);
    }
    SplitInsert(idx, x, m);
  }

  lemma SplitInsert(idx: seq<int>, x: int, m: nat)
    requires m <= |idx| && Split(idx) && (forall j :: 0 <= j < m ==> idx[j] < x) && (m < |idx| ==> x < idx[m])
    ensures Split(InsertAt(idx, m, x))
  {
  }

  lemma InsertStaysRising(idx: seq<int>, queue: seq<Packet>, h: nat, x: int, m: nat)
    requires RT.Numbers(idx, queue) && RT.Between(idx, h, h + 32) && h <= x < 256 && 226 <= h <= 232
    requires m <= |idx| && Stops(queue, Seqnum(h), false, Seqnum(x), m) && Rising(idx)
    ensures Rising(InsertAt(idx, m, x))
  {
    hide Seqnum, Key, Rising;
    KeyNearWrap(h, x);
    forall k | 0 <= k < |idx|
      ensures Key(Seqnum(h), false, queue[k].seqnum) == if idx[k] < 256 then idx[k] else idx[k] - 256
    {
      KeyNearWrap(h, idx[k]);
    }
    RisingInsert(idx, x, m);
  }

  lemma RisingInsert(idx: seq<int>, x: int, m: nat)
    requires m <= |idx| && Rising(idx) && x < 256
    requires forall j :: 0 <= j < m && idx[j] < 256 ==> idx[j] < x
    requires m < |idx| ==> x < idx[m] < 256
    ensures Rising(InsertAt(idx, m, x))
  {
  }

  // ---- Before index 233 is delivered ----

  /**
   * While less than 233 is awaited and 256 may have been sent: either the window reaches 256 and
   * the walk is right, or it was halved at 226 or later and does not reach 256 again before 233.
   */
  ghost predicate Narrow(r: ReceiverState, idx: seq<int>, h: nat) {
    && 226 <= h && Rising(idx)
    && if h + r.windowsize >= 256 then Split(idx) else Tight(r, h - 211)
  }

  /** The same between taking a datagram in and flushing. */
  ghost predicate Narrowed(r: ReceiverState, idx: seq<int>, h: nat) {
    && 226 <= h && Rising(idx)
    && if h + r.windowsize >= 256 then Split(idx)
       else r.windowsize <= h - 210 && Short(r) && (Fronts(r) || Tight(r, h - 211))
  }

  lemma TakeNarrowsWindow(r: ReceiverState, h: nat, st: Status, p: Packet)
    requires 1 <= r.windowsize <= MAX_WINDOW_SIZE && r.seqnumHead == Seqnum(h) && 226 <= h <= 232 && !Fronts(r)
    requires h + r.windowsize < 256 ==> Tight(r, h - 211)
    ensures var r1 := ReceiveData(r, st, p).0;
            if h + r1.windowsize >= 256 then h + r.windowsize >= 256
            else r1.windowsize <= h - 210 && Short(r1) && (Fronts(r1) || Tight(r1, h - 211))
  {
    hide ReceiveData, Tight, Short, Fronts;
    var r1 := ReceiveData(r, st, p).0;
    TakeResizes(r, st, p);
    TightWindow(r, h - 211);
    TightWindow(r1, h - 211);
    if r1.windowsize < r.windowsize {
      HalvedIsTight(r, r1, h - 211);
    } else if h + r.windowsize < 256 {
      TakeStaysTight(r, h - 211, st, p);
    }
  }

  lemma FrontStaysNarrow(idx: seq<int>, mid: seq<int>)
    requires mid <= idx
    ensures (Rising(idx) ==> Rising(mid)) && (Split(idx) ==> Split(mid))
  {
  }

  lemma SplitRises(idx: seq<int>)
    ensures Split(idx) ==> Rising(idx)
  {
  }

  lemma TakeStaysNarrow(file: File, r: ReceiverState, idx: seq<int>, h: nat, e: RT.Event)
    requires RT.Holding(file, r, idx, h) && RT.Between(idx, h, h + 32) && |idx| <= 255 && h <= 232
    requires Narrow(r, idx, h) && !Fronts(r) && e.Arrive? && Plausible(file, h, e)
    ensures var r1 := if WantsData(r) then ReceiveData(r, e.st, e.p).0 else r;
            Narrowed(r1, Mixed(r, idx, e), h)
  {
    hide IsPart, Prefix, ReceiveData, Mixed, Tight, Short, Fronts, RT.Between, PlaceOf, IsInWindow, Rising, Split,
         Carries, WantsData, Seqnum;
    FrontNumber(file, r, idx, h);
    var mid := Mixed(r, idx, e);
    TakeHolds(file, r, idx, h, e);
    TightWindow(r, h - 211);
    TakeNarrowsWindow(r, h, e.st, e.p);
    SplitRises(mid);
    if mid <= idx {
      FrontStaysNarrow(idx, mid);
    } else {
      var m: nat :| m <= |idx| && Inserts(r, e, m) && h <= e.i <= h + r.windowsize + 1 && mid == InsertAt(idx, m, e.i);
      InsertStaysNarrow(file, r, idx, h, e, m);
    }
  }

  lemma InsertStaysNarrow(file: File, r: ReceiverState, idx: seq<int>, h: nat, e: RT.Event, m: nat)
    requires RT.Holding(file, r, idx, h) && RT.Between(idx, h, h + 32) && h <= 232
    requires Narrow(r, idx, h) && Inserts(r, e, m) && m <= |idx|
    requires h <= e.i <= h + r.windowsize + 1 && IsPart(file, e.i, e.p)
    ensures if h + r.windowsize >= 256 then Split(InsertAt(idx, m, e.i)) else Rising(InsertAt(idx, m, e.i))
  {
    hide IsPart, Prefix, Tight, Scan, Stops, IsInWindow, Split, Rising;
    RT.PartNumber(file, e.i, e.p);
    RT.PartsNumber(file, idx, r.queue);
    ScanStops(r.queue, r.seqnumHead, r.windowsize, e.p.seqnum, 0);
    TightWindow(r, h - 211);
    if h + r.windowsize >= 256 {
      InsertStaysSplit(idx, r.queue, h, e.i, m);
    } else {
      InsertStaysRising(idx, r.queue, h, e.i, m);
    }
  }

  // ---- Delivery ----

  lemma FirstAfterOne(queue: seq<Packet>, head: nat, v: Byte)
    requires queue != [] && head < 255 && queue[0].seqnum == head && v != head && First(queue, head, false, v)
    ensures First(queue[1..], head + 1, false, v)
    ensures Distance(head, v) <= 32 ==> Distance(head + 1, v) <= 32
  {
    hide Distance;
    var k :| 0 <= k < |queue| && FirstAt(queue, head, false, v, k);
    assert queue[0].seqnum < v;
    assert FirstAt(queue[1..], head + 1, false, v, k - 1);
    DistanceValue(head, v);
    DistanceValue(head + 1, v);
  }

  lemma FirstsAfterOne(queue: seq<Packet>, head: nat)
    requires queue != [] && head < 255 && queue[0].seqnum == head
    ensures |Firsts(queue, head, false)| <= |Firsts(queue[1..], head + 1, false)| + 1
  {
    hide Distance, First;
    forall v | v in Firsts(queue, head, false) && v != head
      ensures v in Firsts(queue[1..], head + 1, false)
    {
      FirstAfterOne(queue, head, v);
    }
    Fewer(Firsts(queue, head, false), Firsts(queue[1..], head + 1, false) + {head as int});
  }

  lemma {:induction false} FirstsAfter(queue: seq<Packet>, head: nat, n: nat)
    requires n <= |queue| && head + n < 256 && forall k :: 0 <= k < n ==> queue[k].seqnum == head + k
    ensures |Firsts(queue, head, false)| <= |Firsts(queue[n..], head + n, false)| + n
    decreases n
  {
    hide Firsts;
    if n == 0 {
      assert queue[0..] == queue;
    } else {
      FirstsAfterOne(queue, head);
      FirstsAfter(queue[1..], head + 1, n - 1);
      assert queue[1..][n - 1..] == queue[n..];
    }
  }

  /** r2 is what r1 is after n packets from index h were written out. */
  predicate Delivers(r1: ReceiverState, r2: ReceiverState, idx: seq<int>, h: nat, n: nat) {
    && RT.Numbers(idx, r1.queue) && n <= |idx| && (forall k :: 0 <= k < n ==> idx[k] == h + k)
    && r1.seqnumHead == Seqnum(h) && r2.seqnumHead == Seqnum(h + n)
    && r2.queue == r1.queue[n..] && r2.windowsize == r1.windowsize
  }

  lemma DeliveryStaysShort(r1: ReceiverState, r2: ReceiverState, idx: seq<int>, h: nat, n: nat)
    requires Delivers(r1, r2, idx, h, n) && h + n + r1.windowsize < 256 && Short(r1)
    ensures Short(r2)
  {
    hide Firsts;
    FirstsAfter(r1.queue, h, n);
  }

  lemma FlushStaysNarrow(r1: ReceiverState, r2: ReceiverState, idx: seq<int>, h: nat, n: nat)
    requires Delivers(r1, r2, idx, h, n) && Narrowed(r1, idx, h) && h + n <= 232 && (n == 0 ==> !Fronts(r1))
    ensures Narrow(r2, idx[n..], h + n)
  {
    hide Short, First;
    if n == 0 {
      SameQueue(r1, r2);
    } else if h + r1.windowsize < 256 {
      DeliveryStaysShort(r1, r2, idx, h, n);
    }
  }

  // ---- What a datagram comes to ----

  /** No index in the queue is further behind: none when a file of so few chunks has any to mistake it for. */
  function Floor(file: File, h: nat): int {
    if ChunkCount(file) < 256 then 0 else Min(h, 233)
  }

  ghost predicate Loose(file: File, r: ReceiverState, idx: seq<int>, h: nat) {
    && RT.Between(idx, Floor(file, h), h + 32) && |idx| <= 255
    && (ChunkCount(file) >= 256 && h <= 232 ==> Narrow(r, idx, h))
  }

  lemma LooseIsUnmistaken(file: File, idx: seq<int>, h: nat)
    requires ChunkCount(file) <= 488 && RT.Between(idx, Floor(file, h), h + 32) && |idx| <= 255
    ensures RT.Unmistaken(file, idx, h)
  {
    hide ChunkCount;
  }

  /** What is left in the queue is not further behind than what is awaited, up to 233. */
  lemma FlushLeavesFloor(file: File, idx: seq<int>, h: nat, n: nat)
    requires RT.Between(idx, Floor(file, h), h + 32) && n <= |idx| && (forall k :: 0 <= k < n ==> idx[k] == h + k)
    requires ChunkCount(file) >= 256 && h <= 232 ==> Rising(idx)
    ensures RT.Between(idx[n..], Floor(file, h + n), h + n + 32)
  {
    hide ChunkCount;
    if ChunkCount(file) >= 256 && h <= 232 && n > 0 {
      var last := Min(n - 1, 232 - h);
      assert idx[last] == h + last;
      forall k | n <= k < |idx|
        ensures Min(h + n, 233) <= idx[k]
      {
        assert idx[k] < 256 ==> idx[last] < idx[k];
      }
    }
  }

  /** Everything known of the receiver while it waits for h: k shrinks since the last delivery. */
  ghost predicate Settled(file: File, r: ReceiverState, idx: seq<int>, h: nat, k: nat) {
    && RT.Holding(file, r, idx, h) && h <= ChunkCount(file)
    && Loose(file, r, idx, h) && Paced(r, k) && !Fronts(r)
  }

  lemma MixedIsRecent(file: File, r: ReceiverState, idx: seq<int>, h: nat, e: RT.Event)
    requires RT.Holding(file, r, idx, h) && Loose(file, r, idx, h) && e.Arrive? && Plausible(file, h, e)
    ensures var r1 := if WantsData(r) then ReceiveData(r, e.st, e.p).0 else r;
            var mid := Mixed(r, idx, e);
            && RT.Holding(file, r1, mid, h) && |mid| <= 255 && RT.Between(mid, Floor(file, h), h + 32)
            && (forall j :: 0 <= j < |mid| ==> mid[j] in idx || (WantsData(r) && mid[j] == e.i))
  {
    hide IsPart, Prefix, ReceiveData, Mixed, Carries, ChunkCount, Narrow, PlaceOf, IsInWindow, Seqnum;
    TakeHolds(file, r, idx, h, e);
  }

  lemma FrontNumber(file: File, r: ReceiverState, idx: seq<int>, h: nat)
    requires RT.Holding(file, r, idx, h)
    ensures |idx| == |r.queue| && RT.Numbers(idx, r.queue)
    ensures Fronts(r) <==> idx != [] && Seqnum(idx[0]) == Seqnum(h)
  {
    hide Seqnum, Prefix;
    RT.PartsNumber(file, idx, r.queue);
  }

  /** Flushing, when it does not reach the end of the file. */
  lemma FlushStaysSettled(file: File, r1: ReceiverState, r2: ReceiverState, idx: seq<int>, h: nat, n: nat, k: nat)
    requires RT.Holding(file, r1, idx, h) && |idx| <= 255 && RT.Between(idx, Floor(file, h), h + 32)
    requires ChunkCount(file) >= 256 && h <= 232 ==> Narrowed(r1, idx, h)
    requires n <= |idx| && (forall j :: 0 <= j < n ==> idx[j] == h + j) && h + n <= ChunkCount(file)
    requires RT.Holding(file, r2, idx[n..], h + n) && r2.queue == r1.queue[n..] && r2.windowsize == r1.windowsize
    requires if n == 0 then !Fronts(r1) && Paced(r1, k) else k == 0
    requires n < |idx| ==> Seqnum(idx[n]) != Seqnum(h + n)
    ensures Settled(file, r2, idx[n..], h + n, k)
  {
    hide Carries, Prefix, ChunkCount, Seqnum, Floor, Narrow, Tight, Rising, Split, Short, Fronts, RT.Between;
    FrontNumber(file, r1, idx, h);
    FrontNumber(file, r2, idx[n..], h + n);
    NarrowedRises(r1, idx, h);
    FlushLeavesFloor(file, idx, h, n);
    if ChunkCount(file) >= 256 && h + n <= 232 {
      FlushStaysNarrow(r1, r2, idx, h, n);
    }
    if n == 0 {
      assert r2.queue == r1.queue;
      SameQueue(r1, r2);
    }
  }

  lemma NarrowedRises(r: ReceiverState, idx: seq<int>, h: nat)
    ensures Narrowed(r, idx, h) ==> Rising(idx)
  {
  }

  /**
   * One datagram, whatever it does to the order of the queue: what is written out is true, the
   * indices stay recent, and the window does not shrink too often.
   */
  lemma ReceiveStaysSettled(file: File, r: ReceiverState, idx: seq<int>, h: nat, k: nat, e: RT.Event)
    returns (n: nat, h': nat, k': nat)
    requires ChunkCount(file) <= 488 && Settled(file, r, idx, h, k) && e.Arrive? && Plausible(file, h, e)
    ensures var mid := Mixed(r, idx, e);
            var (r2, _, left) := Receive(r, e.st, e.p);
            && n <= |mid| && (forall j :: 0 <= j < n ==> mid[j] == h + j)
            && (forall j :: 0 <= j < |mid| ==> mid[j] in idx || (WantsData(r) && mid[j] == e.i))
            && (h' == h + n || (n < |mid| && mid[n] == h + n && h' == h + n + 1))
            && r2.seqnumHead == Seqnum(h') && k' <= 4
            && 5 * h + k + (if r2.windowsize < r.windowsize then 1 else 0) <= 5 * h' + k'
            && if left then r2.output == file && h' == ChunkCount(file) + 1 else Settled(file, r2, mid[n..], h', k')
  {
    hide IsPart, Prefix, ReceiveData, Mixed, Carries, ChunkCount, Narrow, Narrowed, Seqnum, Flush, WantsData, Plausible,
         RT.Between, RT.Unmistaken, Tight, Short, Fronts;
    FrontNumber(file, r, idx, h);
    var r1 := if WantsData(r) then ReceiveData(r, e.st, e.p).0 else r;
    var mid := Mixed(r, idx, e);
    MixedIsRecent(file, r, idx, h, e);
    LooseIsUnmistaken(file, mid, h);
    FrontNumber(file, r1, mid, h);
    n, h' := RT.FlushIsTrue(file, r1, mid, h);
    k' := 0;
    if h' == h {
      k' := k;
      if WantsData(r) {
        k' := TakeStaysPaced(r, k, e.st, e.p);
      }
    }
    if ChunkCount(file) >= 256 && h <= 232 {
      TakeStaysNarrow(file, r, idx, h, e);
    }
    if !Receive(r, e.st, e.p).2 {
      FlushStaysSettled(file, r1, Flush(r1).0, mid, h, n, k');
    }
  }
}
