/** What the receiver's reorder queue keeps, exactly when, and over whole runs. */
module ReceiverTheorems {
  import opened Bytes
  import opened Packets
  import opened Files
  import opened Seqnums
  import opened ReceiverSpec
  import opened Seqs
  import CodecTheorems

  predicate Increasing(idx: seq<int>) {
    forall j, k :: 0 <= j < k < |idx| ==> idx[j] < idx[k]
  }

  predicate Between(idx: seq<int>, low: int, high: int) {
    forall k :: 0 <= k < |idx| ==> low <= idx[k] <= high
  }

  /** The receiver waits for index h, has queued `idx`, and stdout has been given exactly the first h chunks. */
  ghost predicate Holding(file: File, r: ReceiverState, idx: seq<int>, h: nat) {
    && 1 <= r.windowsize <= MAX_WINDOW_SIZE
    && r.seqnumHead == Seqnum(h)
    && Carries(file, idx, r.queue)
    && r.output == Prefix(file, h)
  }

  /** The queue is moreover strictly increasing by index and not behind h. */
  ghost predicate Ordered(file: File, r: ReceiverState, idx: seq<int>, h: nat) {
    Holding(file, r, idx, h) && Increasing(idx) && Between(idx, h, h + 32)
  }

  // ---- Sorted insertion ----

  /** Where index x belongs: found already, or before the first larger index. */
  predicate Belongs(idx: seq<int>, x: int, place: Place) {
    match place
    case Duplicate => x in idx
    case Before(k) => k <= |idx| && (forall j :: 0 <= j < k ==> idx[j] < x) && (forall j :: k <= j < |idx| ==> x < idx[j])
  }

  /**
   * When the walk of linkedList_add_increasing can be trusted: the window wraps; or the new
   * number and the queued ones lie on the same side of the wrap; or a queued number that has
   * not wrapped stops the walk before it meets one that has.
   */
  predicate InsertSafe(queue: seq<Packet>, head: Byte, windowsize: nat, seqnum: Byte) {
    || head + windowsize >= 256
    || queue == []
    || (seqnum < head && queue[0].seqnum < head)
    || (seqnum >= head && queue[|queue| - 1].seqnum >= head)
    || (seqnum >= head && exists k :: 0 <= k < |queue| && seqnum <= queue[k].seqnum)
  }

  /** The numbers of a queue decide what its indices would. */
  predicate Numbers(idx: seq<int>, queue: seq<Packet>) {
    |idx| == |queue| && forall k :: 0 <= k < |idx| ==> queue[k].seqnum == Seqnum(idx[k])
  }

  lemma WrapIsMonotone(h: nat, i: int, j: int)
    requires h <= i <= j <= h + 255
    ensures Wrapped(h, i) ==> Wrapped(h, j)
    ensures Seqnum(i) == Seqnum(j) <==> i == j
    ensures (Wrapped(h, i) <==> Wrapped(h, j)) ==> (Seqnum(i) < Seqnum(j) <==> i < j)
  {
    Unwrap(h, i);
    Unwrap(h, j);
  }

  lemma SameNumber(h: nat, i: int, j: int)
    requires h <= i <= h + 255 && h <= j <= h + 255
    ensures Seqnum(i) == Seqnum(j) <==> i == j
  {
    WrapIsMonotone(h, if i < j then i else j, if i < j then j else i);
  }

  /** With safe comparisons up to a position where the walk must stop, it stops where x belongs. */
  lemma {:induction false} ScanStopsRight(h: nat, windowsize: nat, idx: seq<int>, queue: seq<Packet>, x: int, n: nat, k: nat)
    requires 1 <= windowsize <= MAX_WINDOW_SIZE && h <= x <= h + 255
    requires Numbers(idx, queue) && Increasing(idx) && Between(idx, h, h + 255)
    requires k <= n <= |idx| && (n == |idx| || (n > 0 && k < n && x <= idx[n - 1]))
    requires forall j :: k <= j < n && idx[j] != x ==> OrderSafe(h, windowsize, idx[j], x)
    requires forall j :: 0 <= j < k ==> idx[j] < x
    ensures Belongs(idx, x, Scan(queue, Seqnum(h), windowsize, Seqnum(x), k))
    decreases |idx| - k
  {
    hide Seqnum, IsSeqnumGreater, OrderSafe;
    if k < |idx| {
      SameNumber(h, idx[k], x);
      if idx[k] != x {
        GreaterExact(h, windowsize, idx[k], x);
        if idx[k] < x {
          ScanStopsRight(h, windowsize, idx, queue, x, n, k + 1);
        }
      }
    }
  }

  /** A walk that wrongly finds nothing larger ends behind the queue. */
  lemma {:induction false} ScanRunsThrough(queue: seq<Packet>, head: Byte, windowsize: nat, seqnum: Byte, k: nat)
    requires k <= |queue|
    requires forall j :: k <= j < |queue| ==>
               queue[j].seqnum != seqnum && !IsSeqnumGreater(queue[j].seqnum, seqnum, head, windowsize)
    ensures Scan(queue, head, windowsize, seqnum, k) == Before(|queue|)
    decreases |queue| - k
  {
    if k < |queue| {
      ScanRunsThrough(queue, head, windowsize, seqnum, k + 1);
    }
  }

  /**
   * Insertion is right exactly when it is safe: the walk stops where the new index belongs in
   * the sorted queue if and only if InsertSafe holds.
   */
  lemma InsertExact(h: nat, windowsize: nat, idx: seq<int>, queue: seq<Packet>, x: int)
    requires 1 <= windowsize <= MAX_WINDOW_SIZE && h <= x <= h + 255
    requires Numbers(idx, queue) && Increasing(idx) && Between(idx, h, h + 255)
    ensures Belongs(idx, x, Scan(queue, Seqnum(h), windowsize, Seqnum(x), 0)) <==>
            InsertSafe(queue, Seqnum(h), windowsize, Seqnum(x))
  {
    if InsertSafe(queue, Seqnum(h), windowsize, Seqnum(x)) {
      SafeInsertIsRight(h, windowsize, idx, queue, x);
    } else if Wrapped(h, x) {
      WrappedInsertGoesFirst(h, windowsize, idx, queue, x);
    } else {
      UnwrappedInsertGoesLast(h, windowsize, idx, queue, x);
    }
  }

  lemma SafeInsertIsRight(h: nat, windowsize: nat, idx: seq<int>, queue: seq<Packet>, x: int)
    requires 1 <= windowsize <= MAX_WINDOW_SIZE && h <= x <= h + 255
    requires Numbers(idx, queue) && Increasing(idx) && Between(idx, h, h + 255)
    requires InsertSafe(queue, Seqnum(h), windowsize, Seqnum(x))
    ensures Belongs(idx, x, Scan(queue, Seqnum(h), windowsize, Seqnum(x), 0))
  {
    hide Seqnum, IsSeqnumGreater;
    if Seqnum(h) + windowsize >= 256 || idx == [] {
      ScanStopsRight(h, windowsize, idx, queue, x, |idx|, 0);
    } else if Wrapped(h, x) && Wrapped(h, idx[0]) {
      forall j | 0 <= j < |idx|
        ensures OrderSafe(h, windowsize, idx[j], x)
      {
        WrapIsMonotone(h, idx[0], idx[j]);
      }
      ScanStopsRight(h, windowsize, idx, queue, x, |idx|, 0);
    } else if !Wrapped(h, idx[|idx| - 1]) {
      forall j | 0 <= j < |idx|
        ensures OrderSafe(h, windowsize, idx[j], x)
      {
        WrapIsMonotone(h, idx[j], idx[|idx| - 1]);
      }
      ScanStopsRight(h, windowsize, idx, queue, x, |idx|, 0);
    } else {
      var k :| 0 <= k < |queue| && Seqnum(x) <= queue[k].seqnum;
      Unwrap(h, x);
      Unwrap(h, idx[k]);
      forall j | 0 <= j <= k
        ensures OrderSafe(h, windowsize, idx[j], x)
      {
        WrapIsMonotone(h, idx[j], idx[k]);
      }
      ScanStopsRight(h, windowsize, idx, queue, x, k + 1, 0);
    }
  }

  /** Without wrapping numbers of its own, the window sorts a wrapped number before everything. */
  lemma WrappedInsertGoesFirst(h: nat, windowsize: nat, idx: seq<int>, queue: seq<Packet>, x: int)
    requires 1 <= windowsize <= MAX_WINDOW_SIZE && h <= x <= h + 255
    requires Numbers(idx, queue) && Increasing(idx) && Between(idx, h, h + 255)
    requires Seqnum(h) + windowsize < 256 && Wrapped(h, x) && idx != [] && !Wrapped(h, idx[0])
    ensures Scan(queue, Seqnum(h), windowsize, Seqnum(x), 0) == Before(0) && idx[0] < x
  {
    Unwrap(h, x);
    Unwrap(h, idx[0]);
  }

  /** And puts a number that has not wrapped behind those that have. */
  lemma UnwrappedInsertGoesLast(h: nat, windowsize: nat, idx: seq<int>, queue: seq<Packet>, x: int)
    requires 1 <= windowsize <= MAX_WINDOW_SIZE && h <= x <= h + 255
    requires Numbers(idx, queue) && Increasing(idx) && Between(idx, h, h + 255)
    requires !Wrapped(h, x) && !InsertSafe(queue, Seqnum(h), windowsize, Seqnum(x))
    ensures Scan(queue, Seqnum(h), windowsize, Seqnum(x), 0) == Before(|idx|) && x < idx[|idx| - 1]
  {
    forall j | 0 <= j < |idx|
      ensures queue[j].seqnum != Seqnum(x) && !IsSeqnumGreater(queue[j].seqnum, Seqnum(x), Seqnum(h), windowsize)
    {
      Unwrap(h, x);
      Unwrap(h, idx[j]);
    }
    Unwrap(h, x);
    Unwrap(h, idx[|idx| - 1]);
    ScanRunsThrough(queue, Seqnum(h), windowsize, Seqnum(x), 0);
  }

  /** The queue's indices after index x was offered. */
  function Placed(idx: seq<int>, x: int, place: Place): (r: seq<int>)
  {
    if place.Before? && place.k <= |idx| then InsertAt(idx, place.k, x) else idx
  }

  lemma PlacedStaysSorted(idx: seq<int>, x: int, place: Place)
    requires Increasing(idx) && Belongs(idx, x, place)
    ensures Increasing(Placed(idx, x, place))
    ensures forall i :: i in Placed(idx, x, place) <==> i in idx || i == x
  {
    var r := Placed(idx, x, place);
    if place.Before? {
      var k := place.k;
      assert r[k] == x;
      assert forall j :: 0 <= j < |idx| ==> r[if j < k then j else j + 1] == idx[j];
    }
  }

  /** A sorted queue never comes near the 256 nodes that wrap its one-byte size. */
  lemma {:induction false} SortedSpan(idx: seq<int>, low: int, high: int)
    requires Increasing(idx) && Between(idx, low, high) && low <= high + 1
    ensures |idx| <= high - low + 1
    decreases |idx|
  {
    if idx != [] {
      var last := |idx| - 1;
      assert forall k :: 0 <= k < last ==> low <= idx[k] < idx[last];
      SortedSpan(idx[..last], low, idx[last] as int - 1);
    }
  }

  lemma QueueIsShort(file: File, r: ReceiverState, idx: seq<int>, h: nat)
    requires Ordered(file, r, idx, h)
    ensures |r.queue| <= 33
  {
    hide IsPart, Seqnum, Prefix;
    SortedSpan(idx, h, h + 32);
  }

  /**
   * A complete DATA packet in order-safe position: accepted inside the window, it is added at
   * its place or recognised as queued already; outside it changes nothing but the wish to answer.
   */
  lemma AcceptKeepsOrder(file: File, r: ReceiverState, idx: seq<int>, h: nat, x: int, p: Packet)
    requires Ordered(file, r, idx, h) && IsPart(file, x, p)
    requires h - 223 <= x <= h + 255
    requires h <= x <= h + r.windowsize + 1 ==> InsertSafe(r.queue, r.seqnumHead, r.windowsize, p.seqnum)
    ensures var r1 := AcceptData(r, p);
            if h <= x <= h + r.windowsize + 1
            then Ordered(file, r1, Placed(idx, x, PlaceOf(r, p)), h) && Belongs(idx, x, PlaceOf(r, p))
            else r1 == r.(resentAck := true)
  {
    hide Seqnum, IsInWindow, IsPart, Prefix, Scan, InsertSafe;
    PartsNumber(file, idx, r.queue);
    assert p.seqnum == Seqnum(x) by {
      PartNumber(file, x, p);
    }
    WindowTestOnIndices(h, r.windowsize, x);
    if h <= x <= h + r.windowsize + 1 {
      var place := PlaceOf(r, p);
      SafeInsertIsRight(h, r.windowsize, idx, r.queue, x);
      PlacedStaysSorted(idx, x, place);
      if place.Before? {
        QueueIsShort(file, r, idx, h);
        InsertCarries(file, idx, r.queue, place.k, x, p);
      }
    }
  }

  lemma PartNumber(file: File, i: int, p: Packet)
    requires IsPart(file, i, p)
    ensures p.seqnum == Seqnum(i) && p.payload == Chunk(file, i) && p.length == |Chunk(file, i)|
  {
  }

  lemma PartsNumber(file: File, idx: seq<int>, queue: seq<Packet>)
    requires Carries(file, idx, queue)
    ensures Numbers(idx, queue)
  {
  }

  lemma InsertCarries(file: File, idx: seq<int>, queue: seq<Packet>, k: nat, x: int, p: Packet)
    requires Carries(file, idx, queue) && IsPart(file, x, p) && k <= |idx|
    ensures Carries(file, InsertAt(idx, k, x), InsertAt(queue, k, p))
  {
    hide IsPart;
  }

  /** Shrinking drops the newest entries only. */
  lemma DecreaseKeepsOrder(file: File, r: ReceiverState, idx: seq<int>, h: nat)
    requires Ordered(file, r, idx, h)
    ensures var r1 := DecreaseWindow(r); |r1.queue| <= |idx| && Ordered(file, r1, idx[..|r1.queue|], h)
  {
    hide IsPart, Seqnum;
  }

  // ---- Delivery ----

  lemma {:induction false} RunIsMaximal(file: File, queue: seq<Packet>, idx: seq<int>, h: nat)
    requires Increasing(idx) && Carries(file, idx, queue) && Between(idx, h, h + 255)
    decreases |queue|
    ensures var n := RunLength(queue, Seqnum(h));
            && (forall k :: 0 <= k < n ==> idx[k] == h + k && Chunk(file, idx[k]) != [])
            && (n < |idx| ==> idx[n] > h + n || (idx[n] == h + n && Chunk(file, h + n) == []))
            && Prefix(file, h) + Payloads(queue[..n]) == Prefix(file, h + n)
  {
    hide Seqnum, Chunk, Prefix, IsPart, Increasing, Between;
    if queue != [] {
      var n := RunLength(queue, Seqnum(h));
      FrontIsAhead(idx, h);
      PartNumber(file, idx[0], queue[0]);
      SameNumber(h, h, idx[0]);
      if n > 0 {
        NextSeqnum(h);
        TailCarries(file, idx, queue, h);
        RunIsMaximal(file, queue[1..], idx[1..], h + 1);
        PrefixGrows(file, h);
        assert queue[..n][1..] == queue[1..][..n - 1];
        forall k | 0 <= k < n
          ensures idx[k] == h + k && Chunk(file, idx[k]) != []
        {
          if k > 0 {
            assert idx[1..][k - 1] == h + 1 + (k - 1);
          }
        }
      }
    }
  }

  lemma FrontIsAhead(idx: seq<int>, h: nat)
    requires Between(idx, h, h + 255)
    ensures idx != [] ==> h <= idx[0] <= h + 255
  {
  }

  lemma TailCarries(file: File, idx: seq<int>, queue: seq<Packet>, h: nat)
    requires idx != [] && Increasing(idx) && Carries(file, idx, queue) && Between(idx, h, h + 255)
    ensures Increasing(idx[1..]) && Carries(file, idx[1..], queue[1..]) && Between(idx[1..], h + 1, h + 1 + 255)
  {
    hide IsPart;
    forall k | 0 <= k < |idx| - 1
      ensures IsPart(file, idx[1..][k], queue[1..][k]) && h + 1 <= idx[1..][k] <= h + 255
    {
      assert IsPart(file, idx[k + 1], queue[k + 1]);
      assert idx[0] < idx[k + 1];
    }
  }

  lemma NextSeqnum(h: nat)
    ensures Seqnum(h + 1) == (Seqnum(h) + 1) % 256
  {
  }

  lemma AdvanceSeqnum(h: nat, n: nat)
    ensures Seqnum(h + n) == (Seqnum(h) + n) % 256
  {
  }

  /**
   * Maximal delivery: flush_file writes out the longest run of consecutive indices from h that
   * carry data; it reports the end of file exactly when the run is followed by a queued packet
   * without payload, which stays queued; otherwise what remains lies strictly ahead.
   */
  lemma FlushIsMaximal(file: File, r: ReceiverState, idx: seq<int>, h: nat)
    requires Ordered(file, r, idx, h)
    ensures var n := RunLength(r.queue, r.seqnumHead);
            var (r1, written) := Flush(r);
            && (forall k :: 0 <= k < n ==> idx[k] == h + k && Chunk(file, idx[k]) != [])
            && (written == -1 <==> n < |idx| && idx[n] == h + n && Chunk(file, h + n) == [])
            && (written != -1 ==> written == n && (n < |idx| ==> idx[n] > h + n))
            && r1.queue == r.queue[n..]
            && Ordered(file, r1.(seqnumHead := Seqnum(h + n)), idx[n..], h + n)
            && r1.seqnumHead == Seqnum(if written == -1 then h + n + 1 else h + n)
            && (written == -1 ==> r1.output == file)
  {
    hide Seqnum, Chunk, RunLength, Deliver, Flush, Holding, Increasing;
    var n := RunLength(r.queue, r.seqnumHead);
    DeliverKeepsOrder(file, r, idx, h);
    if n < |idx| && idx[n] == h + n && Chunk(file, h + n) == [] {
      assert idx[n..][0] == h + n;
      FlushReportsEnd(file, r, Deliver(r, n), idx[n..], h + n);
    } else {
      assert n < |idx| ==> idx[n] > h + n;
      assert n < |idx| ==> idx[n..][0] == idx[n];
      if n < |idx| {
        SameNumber(h + n, h + n, idx[n]);
      }
      FlushStops(file, r, Deliver(r, n), idx[n..], h + n);
    }
  }

  /** The deliveries of flush_file by themselves. */
  lemma DeliverKeepsOrder(file: File, r: ReceiverState, idx: seq<int>, h: nat)
    requires Ordered(file, r, idx, h)
    ensures var n := RunLength(r.queue, r.seqnumHead);
            && n <= |idx|
            && (forall k :: 0 <= k < n ==> idx[k] == h + k && Chunk(file, idx[k]) != [])
            && (n < |idx| ==> idx[n] > h + n || (idx[n] == h + n && Chunk(file, h + n) == []))
            && Ordered(file, Deliver(r, n), idx[n..], h + n) && Deliver(r, n).queue == r.queue[n..]
  {
    hide Seqnum, IsPart, Chunk, Prefix, RunLength, Deliver, Payloads, Increasing;
    var n := RunLength(r.queue, r.seqnumHead);
    RunIsMaximal(file, r.queue, idx, h);
    AdvanceSeqnum(h, n);
    DeliverFields(r, n);
    SuffixKeepsOrder(file, idx, r.queue, h, n);
  }

  /** After its deliveries flush_file meets the packet that ends the file. */
  lemma FlushReportsEnd(file: File, r: ReceiverState, r1: ReceiverState, idx: seq<int>, h: nat)
    requires r1 == Deliver(r, RunLength(r.queue, r.seqnumHead)) && Holding(file, r1, idx, h)
    requires idx != [] && idx[0] == h && Chunk(file, h) == []
    ensures var (r2, written) := Flush(r);
            && written == -1 && r2.seqnumHead == Seqnum(h + 1) && r2.output == file && r2.queue == r1.queue
            && r2.windowsize == r1.windowsize && Holding(file, r2.(seqnumHead := Seqnum(h)), idx, h)
  {
    hide Seqnum, IsPart, Chunk, Prefix, RunLength, Deliver;
    PartNumber(file, h, r1.queue[0]);
    NextSeqnum(h);
    ChunkIsEmpty(file, h);
    PrefixIsWhole(file, h);
  }

  /** After its deliveries it meets nothing, or a packet whose turn has not come. */
  lemma FlushStops(file: File, r: ReceiverState, r1: ReceiverState, idx: seq<int>, h: nat)
    requires r1 == Deliver(r, RunLength(r.queue, r.seqnumHead)) && Holding(file, r1, idx, h)
    requires idx != [] ==> Seqnum(idx[0]) != Seqnum(h)
    ensures var (r2, written) := Flush(r);
            && written == RunLength(r.queue, r.seqnumHead) && r2.seqnumHead == Seqnum(h) && r2.queue == r1.queue
            && r2.windowsize == r1.windowsize && Holding(file, r2.(seqnumHead := Seqnum(h)), idx, h)
  {
    hide Seqnum, IsPart, Prefix, RunLength, Deliver;
    if idx != [] {
      PartNumber(file, idx[0], r1.queue[0]);
    }
  }

  // ---- Delivery from any queue ----

  /** Where a packet would be delivered its number does not stand for another index. */
  predicate Unmistaken(file: File, idx: seq<int>, h: nat) {
    forall k :: 0 <= k < |idx| && h + k <= ChunkCount(file) ==> h + k - 255 <= idx[k] <= h + k + 255
  }

  lemma {:induction false} RunIsTrue(file: File, queue: seq<Packet>, idx: seq<int>, h: nat)
    requires Carries(file, idx, queue) && Unmistaken(file, idx, h) && h <= ChunkCount(file)
    decreases |queue|
    ensures var n := RunLength(queue, Seqnum(h));
            && (forall k :: 0 <= k < n ==> idx[k] == h + k)
            && h + n <= ChunkCount(file)
            && (n < |idx| && Seqnum(idx[n]) == Seqnum(h + n) ==> idx[n] == h + n && Chunk(file, h + n) == [])
            && Prefix(file, h) + Payloads(queue[..n]) == Prefix(file, h + n)
  {
    hide Seqnum, Chunk, Prefix, IsPart, ChunkCount;
    if queue != [] {
      var n := RunLength(queue, Seqnum(h));
      PartNumber(file, idx[0], queue[0]);
      NearNumber(h, idx[0]);
      ChunkIsEmpty(file, h);
      if n > 0 {
        NextSeqnum(h);
        TailUnmistaken(file, queue, idx, h);
        RunIsTrue(file, queue[1..], idx[1..], h + 1);
        PrefixGrows(file, h);
        assert queue[..n][1..] == queue[1..][..n - 1];
        forall k | 0 <= k < n
          ensures idx[k] == h + k
        {
          assert k > 0 ==> idx[1..][k - 1] == h + 1 + (k - 1);
        }
        assert n < |idx| ==> idx[1..][n - 1] == idx[n];
      }
    }
  }

  lemma NearNumber(h: nat, i: int)
    requires h - 255 <= i <= h + 255
    ensures Seqnum(i) == Seqnum(h) <==> i == h
  {
  }

  lemma TailUnmistaken(file: File, queue: seq<Packet>, idx: seq<int>, h: nat)
    requires idx != [] && Carries(file, idx, queue) && Unmistaken(file, idx, h)
    ensures Carries(file, idx[1..], queue[1..]) && Unmistaken(file, idx[1..], h + 1)
  {
    hide IsPart, ChunkCount;
    forall k | 0 <= k < |idx| - 1 && h + 1 + k <= ChunkCount(file)
      ensures h + 1 + k - 255 <= idx[1..][k] <= h + 1 + k + 255
    {
      assert idx[1..][k] == idx[k + 1] && h + (k + 1) <= ChunkCount(file);
    }
  }

  /** From such a queue flush_file writes true chunks only, and stops in front of another number. */
  lemma FlushIsTrue(file: File, r: ReceiverState, idx: seq<int>, h: nat) returns (n: nat, h': nat)
    requires Holding(file, r, idx, h) && h <= ChunkCount(file) && Unmistaken(file, idx, h)
    ensures n <= |idx| && (forall k :: 0 <= k < n ==> idx[k] == h + k)
    ensures h' == h + n || (n < |idx| && idx[n] == h + n && h' == h + n + 1)
    ensures idx != [] && Seqnum(idx[0]) == Seqnum(h) ==> h' > h
    ensures h' == h + n && n < |idx| ==> Seqnum(idx[n]) != Seqnum(h')
    ensures var (r1, written) := Flush(r);
            && r1.windowsize == r.windowsize && r1.seqnumHead == Seqnum(h') && r1.queue == r.queue[n..]
            && if written == -1 then r1.output == file && h' == h + n + 1 == ChunkCount(file) + 1
               else Holding(file, r1, idx[n..], h') && h' == h + n <= ChunkCount(file)
  {
    hide Seqnum, Chunk, ChunkCount, RunLength, Deliver, Flush, IsPart, Prefix, Payloads;
    n := RunLength(r.queue, r.seqnumHead);
    h' := h + n;
    RunIsTrue(file, r.queue, idx, h);
    AdvanceSeqnum(h, n);
    DeliverFields(r, n);
    CarriesSuffix(file, idx, r.queue, n);
    assert n < |idx| ==> idx[n..][0] == idx[n];
    if n < |idx| && Seqnum(idx[n]) == Seqnum(h + n) {
      h' := h + n + 1;
      ChunkIsEmpty(file, h + n);
      FlushReportsEnd(file, r, Deliver(r, n), idx[n..], h + n);
    } else {
      FlushStops(file, r, Deliver(r, n), idx[n..], h + n);
      var r2 := Flush(r).0;
      assert r2 == r2.(seqnumHead := Seqnum(h + n));
    }
  }

  lemma CarriesSuffix(file: File, idx: seq<int>, queue: seq<Packet>, n: nat)
    requires Carries(file, idx, queue) && n <= |idx|
    ensures Carries(file, idx[n..], queue[n..])
  {
    hide IsPart;
  }

  lemma DeliverFields(r: ReceiverState, n: nat)
    requires n <= |r.queue|
    ensures var r1 := Deliver(r, n);
            && r1.queue == r.queue[n..] && r1.output == r.output + Payloads(r.queue[..n])
            && r1.windowsize == r.windowsize && r1.seqnumHead == (r.seqnumHead + n) % 256
  {
  }

  lemma SuffixKeepsOrder(file: File, idx: seq<int>, queue: seq<Packet>, h: nat, n: nat)
    requires Increasing(idx) && Carries(file, idx, queue) && Between(idx, h, h + 32) && n <= |idx|
    requires n < |idx| ==> idx[n] >= h + n
    ensures Increasing(idx[n..]) && Carries(file, idx[n..], queue[n..]) && Between(idx[n..], h + n, h + n + 32)
  {
    hide IsPart;
    assert forall k :: 0 <= k < |idx| - n ==> idx[n..][k] == idx[n + k] && queue[n..][k] == queue[n + k];
    forall k | 0 <= k < |idx| - n
      ensures IsPart(file, idx[n..][k], queue[n..][k]) && h + n <= idx[n..][k] <= h + n + 32
    {
      assert IsPart(file, idx[n + k], queue[n + k]);
      assert k > 0 ==> idx[n] < idx[n + k];
    }
  }

  // ---- Whole runs, truncation included ----

  /**
   * What reaches the receiver: a decoded datagram, of index i when it is a complete DATA
   * packet; or the socket turns writable.
   */
  datatype Event = Arrive(i: int, st: Status, p: Packet) | Writable

  predicate IsComplete(e: Event) {
    e.Arrive? && e.st == Ok && e.p.kind == Data && e.p.tr == 0
  }

  function Step(r: ReceiverState, e: Event): (ReceiverState, bool)
    requires r.windowsize <= MAX_WINDOW_SIZE
  {
    match e
    case Arrive(_, st, p) => var (r1, _, left) := Receive(r, st, p); (r1, left)
    case Writable => (Answer(r).0, false)
  }

  /** The indices queued once the datagram is taken in, before flushing. */
  function Taken(r: ReceiverState, idx: seq<int>, e: Event): seq<int>
    requires e.Arrive? && r.windowsize <= MAX_WINDOW_SIZE && |idx| == |r.queue|
  {
    if !WantsData(r) then idx
    else if IsComplete(e) then
      if IsInWindow(r.seqnumHead, r.windowsize, e.p.seqnum) then Placed(idx, e.i, PlaceOf(r, e.p)) else idx
    else
      var kept := |ReceiveData(r, e.st, e.p).0.queue|;
      if kept <= |idx| then idx[..kept] else idx
  }

  /** How many packets the event makes the receiver deliver. */
  function Delivered(r: ReceiverState, e: Event): (n: nat)
    requires r.windowsize <= MAX_WINDOW_SIZE
  {
    if e.Writable? then 0
    else
      var r1 := if WantsData(r) then ReceiveData(r, e.st, e.p).0 else r;
      RunLength(r1.queue, r1.seqnumHead)
  }

  /**
   * What the theorem asks of a complete DATA packet: it carries the chunk of its index, the
   * index is within reach of the window test, and insertion is safe.  Truncated, corrupt, FEC
   * and foreign packets are not constrained at all.
   */
  predicate Lawful(file: File, r: ReceiverState, h: nat, e: Event) {
    IsComplete(e) ==>
      && IsPart(file, e.i, e.p)
      && h - 223 <= e.i <= h + 255
      && (h <= e.i <= h + r.windowsize + 1 ==> InsertSafe(r.queue, r.seqnumHead, r.windowsize, e.p.seqnum))
  }

  lemma TakeKeepsOrder(file: File, r: ReceiverState, idx: seq<int>, h: nat, e: Event)
    requires Ordered(file, r, idx, h) && Lawful(file, r, h, e) && e.Arrive?
    ensures var r1 := if WantsData(r) then ReceiveData(r, e.st, e.p).0 else r;
            Ordered(file, r1, Taken(r, idx, e), h)
  {
    hide Seqnum, IsPart, Prefix, Scan, InsertSafe, AcceptData, DecreaseWindow, IsInWindow;
    if WantsData(r) {
      if IsComplete(e) {
        AcceptKeepsOrder(file, r, idx, h, e.i, e.p);
        PartNumber(file, e.i, e.p);
        WindowTestOnIndices(h, r.windowsize, e.i);
      } else {
        DecreaseKeepsOrder(file, r, idx, h);
        assert idx[..|idx|] == idx;
      }
    }
  }

  lemma StepKeepsOrder(file: File, r: ReceiverState, idx: seq<int>, h: nat, e: Event)
    returns (idx': seq<int>, h': nat)
    requires Ordered(file, r, idx, h) && Lawful(file, r, h, e)
    ensures h' == h + Delivered(r, e)
    ensures e.Arrive? ==> Delivered(r, e) <= |Taken(r, idx, e)| && idx' == Taken(r, idx, e)[Delivered(r, e)..]
    ensures e.Writable? ==> idx' == idx
    ensures var (r1, left) := Step(r, e);
            if left then r1.output == file else Ordered(file, r1, idx', h')
  {
    hide Seqnum, IsPart, Prefix, Scan, InsertSafe, ReceiveData, Taken, RunLength, Flush;
    idx', h' := idx, h;
    if e.Arrive? {
      var r1 := if WantsData(r) then ReceiveData(r, e.st, e.p).0 else r;
      var mid := Taken(r, idx, e);
      TakeKeepsOrder(file, r, idx, h, e);
      FlushIsMaximal(file, r1, mid, h);
      idx', h' := mid[Delivered(r, e)..], h + Delivered(r, e);
    }
  }

  /**
   * Every event of the run is lawful where it happens; the run ends when the loop is left.
   * The size conditions only make the definition total: Ordered implies them.
   */
  predicate LawfulRun(file: File, r: ReceiverState, idx: seq<int>, h: nat, events: seq<Event>)
    decreases |events|
  {
    events != [] && r.windowsize <= MAX_WINDOW_SIZE && |idx| == |r.queue| ==>
      var e := events[0];
      && Lawful(file, r, h, e)
      && (!Step(r, e).1 ==>
            var mid := if e.Arrive? then Taken(r, idx, e) else idx;
            Delivered(r, e) <= |mid| ==>
              LawfulRun(file, Step(r, e).0, mid[Delivered(r, e)..], h + Delivered(r, e), events[1..]))
  }

  /** The receiver's loop over a list of events; the flag says that it has been left. */
  function Run(r: ReceiverState, events: seq<Event>): (ReceiverState, bool)
    decreases |events|
  {
    if events == [] || r.windowsize > MAX_WINDOW_SIZE then (r, false)
    else
      var (r1, left) := Step(r, events[0]);
      if left then (r1, true) else Run(r1, events[1..])
  }

  // ---- The loop over what poll reports ----

  /** A datagram, and the index it stands for, which the code never sees. */
  datatype Datagram = Datagram(index: int, buffer: Buffer, len: nat)

  /** What poll reports: datagrams, until there is none left to read; or only room to write. */
  datatype Poll = Readable(burst: seq<Datagram>) | OnlyWritable

  function Arrivals(crc: Checksum, burst: seq<Datagram>): seq<Event> {
    if burst == [] then []
    else
      var (st, p) := DecodeInto(crc, burst[0].buffer, burst[0].len, BLANK);
      [Arrive(burst[0].index, st, p)] + Arrivals(crc, burst[1..])
  }

  function Events(crc: Checksum, polls: seq<Poll>): seq<Event> {
    if polls == [] then []
    else (if polls[0].Readable? then Arrivals(crc, polls[0].burst) else [Writable]) + Events(crc, polls[1..])
  }

  /** What a step writes back. */
  function Replies(r: ReceiverState, e: Event): seq<Packet>
    requires r.windowsize <= MAX_WINDOW_SIZE
  {
    match e
    case Arrive(_, st, p) => Receive(r, st, p).1
    case Writable => Answer(r).1
  }

  function Written(r: ReceiverState, events: seq<Event>): seq<Packet>
    decreases |events|
  {
    if events == [] || r.windowsize > MAX_WINDOW_SIZE then []
    else
      var (r1, left) := Step(r, events[0]);
      Replies(r, events[0]) + if left then [] else Written(r1, events[1..])
  }

  lemma {:induction false} RunAppend(r: ReceiverState, a: seq<Event>, b: seq<Event>)
    requires r.windowsize <= MAX_WINDOW_SIZE
    ensures var (r1, left) := Run(r, a);
            && r1.windowsize <= MAX_WINDOW_SIZE
            && Run(r, a + b) == (if left then (r1, true) else Run(r1, b))
            && Written(r, a + b) == Written(r, a) + if left then [] else Written(r1, b)
    decreases |a|
  {
    hide Step, Replies;
    if a == [] {
      assert a + b == b;
    } else {
      assert (a + b)[0] == a[0] && (a + b)[1..] == a[1..] + b;
      var (r1, left) := Step(r, a[0]);
      StepWindow(r, a[0]);
      if !left {
        RunAppend(r1, a[1..], b);
      }
    }
  }

  lemma StepWindow(r: ReceiverState, e: Event)
    requires r.windowsize <= MAX_WINDOW_SIZE
    ensures Step(r, e).0.windowsize <= MAX_WINDOW_SIZE
  {
    hide ReceiveData, Flush;
  }

  /** The first datagram of a burst, and the rest of it. */
  lemma ArrivalsStep(crc: Checksum, r: ReceiverState, burst: seq<Datagram>)
    requires r.windowsize <= MAX_WINDOW_SIZE && burst != []
    ensures var (st, p) := DecodeInto(crc, burst[0].buffer, burst[0].len, BLANK);
            var (r1, replies, left) := Receive(r, st, p);
            var rest := Arrivals(crc, burst[1..]);
            && Run(r, Arrivals(crc, burst)) == (if left then (r1, true) else Run(r1, rest))
            && Written(r, Arrivals(crc, burst)) == replies + if left then [] else Written(r1, rest)
  {
    hide Receive, DecodeInto;
    assert Arrivals(crc, burst)[1..] == Arrivals(crc, burst[1..]);
  }

  /** The first report of poll, and the rest of them. */
  lemma EventsStep(crc: Checksum, r: ReceiverState, polls: seq<Poll>)
    requires r.windowsize <= MAX_WINDOW_SIZE && polls != []
    ensures var first := if polls[0].Readable? then Arrivals(crc, polls[0].burst) else [Writable];
            var (r1, left) := Run(r, first);
            var rest := Events(crc, polls[1..]);
            && Run(r, Events(crc, polls)) == (if left then (r1, true) else Run(r1, rest))
            && Written(r, Events(crc, polls)) == Written(r, first) + (if left then [] else Written(r1, rest))
            && Run(r, [Writable]) == (Answer(r).0, false) && Written(r, [Writable]) == Answer(r).1
  {
    hide Receive, DecodeInto, Answer;
    RunAppend(r, if polls[0].Readable? then Arrivals(crc, polls[0].burst) else [Writable], Events(crc, polls[1..]));
    assert Written(Answer(r).0, []) == [] && Run(Answer(r).0, []) == (Answer(r).0, false);
    assert [Writable][1..] == [];
  }

  /**
   * Over every lawful run, whatever is truncated and however often the window shrinks: while
   * the loop runs, the queue is sorted by index within [h, h + 32] and stdout holds exactly
   * the first h chunks; when the loop is left, stdout holds the whole file.
   */
  lemma {:induction false} RunIsSafe(file: File, r: ReceiverState, idx: seq<int>, h: nat, events: seq<Event>)
    returns (idx': seq<int>, h': nat)
    requires Ordered(file, r, idx, h) && LawfulRun(file, r, idx, h, events)
    ensures h <= h'
    ensures var (r1, left) := Run(r, events);
            if left then r1.output == file else Ordered(file, r1, idx', h')
    decreases |events|
  {
    hide Seqnum, IsPart, Prefix, Step, Taken, Lawful, Increasing, Delivered;
    idx', h' := idx, h;
    if events != [] {
      var e := events[0];
      idx', h' := StepKeepsOrder(file, r, idx, h, e);
      if !Step(r, e).1 {
        assert e.Writable? ==> Delivered(r, e) == 0 && idx[0..] == idx by {
          NothingDelivered(r, e);
        }
        idx', h' := RunIsSafe(file, Step(r, e).0, idx', h', events[1..]);
      }
    }
  }

  lemma NothingDelivered(r: ReceiverState, e: Event)
    requires r.windowsize <= MAX_WINDOW_SIZE
    ensures e.Writable? ==> Delivered(r, e) == 0
  {
  }

  /** The loop of read_write_receiver from its beginning, over whatever poll reports. */
  lemma LoopIsSafe(crc: Checksum, file: File, polls: seq<Poll>) returns (idx: seq<int>, h: nat)
    requires LawfulRun(file, START, [], 0, Events(crc, polls))
    ensures var (r, left) := Run(START, Events(crc, polls));
            if left then r.output == file else Ordered(file, r, idx, h)
  {
    hide Events, LawfulRun, Run;
    StartIsOrdered(file);
    idx, h := RunIsSafe(file, START, [], 0, Events(crc, polls));
  }

  lemma StartIsOrdered(file: File)
    ensures Ordered(file, START, [], 0)
  {
  }

  /**
   * Insertion can go wrong: waiting for 251 with a window of 4, and 253 queued, the number 0
   * that the window test still accepts is sorted before 253.
   */
  lemma UnsafeInsertExists()
    ensures IsInWindow(Seqnum(251), 4, Seqnum(256))
    ensures forall p: Packet :: p.seqnum == Seqnum(253) ==>
              !InsertSafe([p], Seqnum(251), 4, Seqnum(256)) && Scan([p], Seqnum(251), 4, Seqnum(256), 0) == Before(0)
  {
  }

  /**
   * A DATA packet truncated on the way is answered exactly when it has no payload or its
   * number is in the window: with a NACK of that very number that announces the shrunken
   * window, and without anything being delivered.  Otherwise it changes nothing.
   */
  lemma NackNamesTruncated(crc: Checksum, r: ReceiverState, p: Packet, data: Buffer)
    requires 1 <= r.windowsize <= MAX_WINDOW_SIZE
    requires Encodable(p) && p.kind == Data && p.tr == 0
    requires var w := WireForm(crc, p); data[..12] == [w[0] + 32] + w[1..12]
    ensures var (st, q) := DecodeInto(crc, data, 12, BLANK);
            var (r1, replies) := ReceiveData(r, st, q);
            if p.length == 0 || IsInWindow(r.seqnumHead, r.windowsize, p.seqnum)
            then && replies == [Response(Nack, p.seqnum, r1.windowsize, p.timestamp)]
                 && r1.windowsize == (if r.windowsize > 4 then r.windowsize / 2 else r.windowsize)
                 && r1.queue <= r.queue && r1.output == r.output && r1.seqnumHead == r.seqnumHead
            else replies == [] && r1 == r
  {
    hide DecodeInto, WireForm, IsInWindow;
    if p.length == 0 {
      CodecTheorems.EmptyHeaderIsAccepted(crc, p, data);
    } else {
      CodecTheorems.TruncatedHeaderIsTrusted(crc, p, data);
    }
  }
}
