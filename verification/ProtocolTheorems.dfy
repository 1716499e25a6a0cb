/**
 * The invariant behind every guarded run of Protocol.  The indices behind the 8-bit numbers
 * exist only here: the transition system never sees them.
 */
module ProtocolTheorems {
  import opened Bytes
  import opened Packets
  import opened Files
  import opened Seqnums
  import opened Seqs
  import opened Protocol
  import CodecTheorems
  import S = SenderSpec
  import ST = SenderTheorems
  import R = ReceiverSpec
  import RT = ReceiverTheorems
  import LS = LateShrinks

  /**
   * The unbounded indices behind a state: the sender's list starts at `base`, the receiver waits
   * for `h`, and each packet queued or in flight stands for one index.  The answers in flight
   * are notices; `read` is the last one the sender has read and `now` the one the receiver would
   * send.  `lates` counts how often the sender's window has shrunk late.
   */
  datatype Indices = Indices(base: nat, h: nat, queued: seq<int>, data: seq<int>, read: LS.Notice,
                             notices: seq<LS.Notice>, now: LS.Notice, pace: LS.Pace, lates: nat)

  function Origin(pace: LS.Pace): Indices {
    var first := LS.Notice(1, 0, if pace.Exact? then -1 else 0);
    Indices(0, 0, [], [], first, [], first, pace, 0)
  }

  /** The packet of index i, whole or cut on the way, or an FEC packet. */
  ghost predicate IsDataWire(crc: Checksum, file: File, i: int, w: Wire) {
    exists p :: Encodable(p) && IsFormOf(crc, file, i, p, w)
  }

  predicate IsFormOf(crc: Checksum, file: File, i: int, p: Packet, w: Wire)
    requires Encodable(p)
  {
    if p.kind == Fec then w == WireForm(crc, p)
    else IsPart(file, i, p) && (w == WireForm(crc, p) || w == Cut(WireForm(crc, p)))
  }

  ghost predicate DataWires(crc: Checksum, file: File, idx: seq<int>, ws: seq<Wire>) {
    |idx| == |ws| && forall k :: 0 <= k < |idx| ==> IsDataWire(crc, file, idx[k], ws[k])
  }

  /** An acknowledgement of index a, or a NACK; either announces the window. */
  ghost predicate IsReplyWire(crc: Checksum, a: nat, window: nat, w: Wire) {
    && 1 <= window <= MAX_WINDOW_SIZE
    && exists kind, n, t ::
         (kind == Nack || (kind == Ack && n == Seqnum(a))) && w == WireForm(crc, R.Response(kind, n, window, t))
  }

  ghost predicate ReplyWires(crc: Checksum, notices: seq<LS.Notice>, ws: seq<Wire>) {
    |notices| == |ws| && forall k :: 0 <= k < |ws| ==> IsReplyWire(crc, notices[k].index, notices[k].window, ws[k])
  }

  predicate Within(xs: seq<int>, low: int, high: int) {
    forall k :: 0 <= k < |xs| ==> low <= xs[k] <= high
  }

  predicate Under(xs: seq<int>, high: int) {
    forall k :: 0 <= k < |xs| ==> xs[k] < high
  }

  /** An index in flight is less than 31 behind everything ahead of it in the channel ... */
  predicate Close(xs: seq<int>) {
    forall j, k :: 0 <= j < k < |xs| ==> xs[j] < xs[k] + 31
  }

  /** ... and less than 31 behind everything already queued. */
  predicate Trails(xs: seq<int>, ahead: seq<int>) {
    forall j, k :: 0 <= j < |xs| && 0 <= k < |ahead| ==> ahead[k] < xs[j] + 31
  }

  /** How far apart indices can be; `reach` is above all of them. */
  predicate Spread(data: seq<int>, queued: seq<int>, h: nat, reach: int) {
    && Within(data, h - 31, reach - 1) && Close(data)
    && Under(queued, reach) && Trails(data, queued)
  }

  /** No index beyond this has been sent while the list started at `base` or before. */
  function Reach(file: File, base: nat): int {
    Min(base + 31, ChunkCount(file) + 1)
  }

  ghost predicate ReceiverLinked(file: File, y: System, g: Indices) {
    if y.done then y.r.output == file && y.r.seqnumHead == Seqnum(g.h) && g.h == ChunkCount(file) + 1
    else RT.Holding(file, y.r, g.queued, g.h) && g.h <= ChunkCount(file)
  }

  /** Everything the receiver has announced since the answer last read, and what it would announce. */
  function Chain(g: Indices): (c: seq<LS.Notice>)
    ensures |c| == |g.notices| + 2
  {
    [g.read] + g.notices + [g.now]
  }

  predicate Tapers(pace: LS.Pace, c: seq<LS.Notice>) {
    && (forall k :: 0 <= k < |c| ==> LS.Levelled(pace, c[k]))
    && forall j, k :: 0 <= j < k < |c| ==> LS.Related(pace, c[j], c[k])
  }

  /** What ties any state to its indices, at the receiver and in the channels. */
  ghost predicate Shared(crc: Checksum, file: File, y: System, g: Indices) {
    && Sane(y)
    && ReceiverLinked(file, y, g)
    && (y.phase.AllAcked? ==> y.done)
    && DataWires(crc, file, g.data, y.data)
    && ReplyWires(crc, g.notices, y.acks)
    && g.read.window == y.s.windowsize && g.now.window == y.r.windowsize && g.now.index == g.h
    && Tapers(g.pace, Chain(g))
  }

  /** What holds besides until the sender's window shrinks late: its list is one run of indices. */
  ghost predicate Regular(file: File, y: System, g: Indices) {
    && ST.Contiguous(file, y.s, g.base)
    && g.base <= g.read.index && g.h <= Reach(file, g.base)
    && Spread(g.data, g.queued, g.h, Reach(file, g.base))
    && g.lates == 0
  }

  /** What holds after that: the transfer is near its end, and so are all indices. */
  ghost predicate Lagging(file: File, y: System, g: Indices) {
    && (exists t: LS.Tail :: LS.Lags(file, y.s, g.read, g.pace, t) && t.lates == g.lates)
    && LS.AllWithin(g.data, ChunkCount(file) - 200, ChunkCount(file) + 164)
  }

  /** The invariant that links a state to its indices ... */
  ghost predicate Linked(crc: Checksum, file: File, y: System, g: Indices) {
    Shared(crc, file, y, g) && Regular(file, y, g)
  }

  /** ... and the weaker one that survives late shrinks. */
  ghost predicate Tracked(crc: Checksum, file: File, y: System, g: Indices) {
    Shared(crc, file, y, g) && (Regular(file, y, g) || Lagging(file, y, g))
  }

  /** The queue is sorted by index, and not behind h. */
  predicate Sorted(y: System, g: Indices) {
    !y.done ==> RT.Increasing(g.queued) && RT.Between(g.queued, g.h, g.h + 32)
  }

  /** A step from y to z keeps track, and keeps the stronger invariant and the calm when they held. */
  ghost predicate Keeps(crc: Checksum, file: File, y: System, g: Indices, z: System, g': Indices) {
    && Tracked(crc, file, z, g')
    && (Linked(crc, file, y, g) ==> Linked(crc, file, z, g'))
    && (Linked(crc, file, y, g) && Calm(y, g) ==> Calm(z, g'))
    && g'.pace == g.pace && g'.lates == g.lates
  }

  /** The step does not touch the receiver's side. */
  predicate Aside(y: System, g: Indices, z: System, g': Indices) {
    && g'.h == g.h && g'.queued == g.queued && g'.now == g.now && z.done == y.done
    && z.r.queue == y.r.queue && z.r.windowsize == y.r.windowsize
  }

  /** No index from 256 on is queued ... */
  predicate Early(g: Indices) {
    g.h <= 256 && Under(g.queued, 256)
  }

  /** ... nor in flight, nor sent: no number has wrapped yet. */
  predicate Young(y: System, g: Indices) {
    Early(g) && Under(g.data, 256) && ST.NextIndex(y.s) <= 256
  }

  /** Nothing in the channel is cut. */
  predicate Whole(ws: seq<Wire>) {
    forall k :: 0 <= k < |ws| ==> ws[k] != [] && TrBit(ws[k][0]) == 0
  }

  predicate Widening(c: seq<LS.Notice>) {
    forall j, k :: 0 <= j < k < |c| ==> c[j].window <= c[k].window
  }

  /** What holds besides as long as nothing is truncated: windows grow, nothing is rolled back. */
  ghost predicate Calm(y: System, g: Indices) {
    && g.h <= ST.NextIndex(y.s)
    && Under(g.data, ST.NextIndex(y.s)) && Under(g.queued, ST.NextIndex(y.s))
    && Whole(y.data)
    && Widening(Chain(g))
  }

  // ---- Wires ----

  function Range(from: int, n: nat): (r: seq<int>)
    ensures |r| == n && forall k :: 0 <= k < n ==> r[k] == from + k
  {
    seq(n, k => from + k)
  }

  lemma PartWire(crc: Checksum, file: File, i: int, p: Packet)
    requires IsPart(file, i, p)
    ensures Encodable(p) && IsDataWire(crc, file, i, WireForm(crc, p))
    ensures TrBit(WireForm(crc, p)[0]) == 0 && WireForm(crc, p)[0] / 64 == 1
  {
    hide Chunk, Seqnum, Cut;
    assert IsFormOf(crc, file, i, p, WireForm(crc, p));
    WireStart(crc, p);
  }

  lemma WireStart(crc: Checksum, p: Packet)
    requires Encodable(p)
    ensures TrBit(WireForm(crc, p)[0]) == p.tr && WireForm(crc, p)[0] / 64 == Code(p.kind)
  {
    CodecTheorems.HeaderBytes(p);
    CodecTheorems.FirstByte(p.kind, p.tr, p.window);
  }

  lemma SentWires(crc: Checksum, file: File, idx: seq<int>, ps: seq<Packet>)
    requires Carries(file, idx, ps) && AllEncodable(ps)
    ensures DataWires(crc, file, idx, Wires(crc, ps)) && Whole(Wires(crc, ps))
  {
    hide IsPart, WireForm, IsDataWire;
    forall k | 0 <= k < |idx|
      ensures IsDataWire(crc, file, idx[k], Wires(crc, ps)[k])
      ensures Wires(crc, ps)[k] != [] && TrBit(Wires(crc, ps)[k][0]) == 0
    {
      PartWire(crc, file, idx[k], ps[k]);
    }
  }

  lemma DataWiresAppend(crc: Checksum, file: File, i: seq<int>, v: seq<Wire>, j: seq<int>, w: seq<Wire>)
    requires DataWires(crc, file, i, v) && DataWires(crc, file, j, w)
    ensures DataWires(crc, file, i + j, v + w)
    ensures Whole(v) && Whole(w) ==> Whole(v + w)
  {
    hide IsDataWire;
  }

  /** What a data wire decodes to, whatever the buffer held before. */
  lemma DataWireDecodes(crc: Checksum, file: File, i: int, w: Wire, stale: Buffer)
    requires IsDataWire(crc, file, i, w)
    ensures var (st, p) := Decoded(crc, w, stale);
            || (st == Ok && p.tr == 0 && (IsPart(file, i, p) || p.kind == Fec))
            || (p.kind == Data && p.tr == 1 && (st == Ok || st == BadCrc) && w != [] && TrBit(w[0]) == 1)
  {
    hide DecodeInto, Chunk, Seqnum;
    var p :| Encodable(p) && IsFormOf(crc, file, i, p, w);
    if w == WireForm(crc, p) {
      CodecTheorems.RoundTrip(crc, p, stale[|w|..]);
    } else {
      CutDecodes(crc, p, stale);
    }
  }

  lemma CutDecodes(crc: Checksum, p: Packet, stale: Buffer)
    requires IsSegment(p)
    ensures var w := Cut(WireForm(crc, p));
            var (st, q) := Decoded(crc, w, stale);
            q.kind == Data && q.tr == 1 && (st == Ok || st == BadCrc) && w != [] && TrBit(w[0]) == 1
  {
    hide DecodeInto;
    WireStart(crc, p);
    var w := Cut(WireForm(crc, p));
    var d := Arrived(w, stale);
    assert d[..12] == w;
    if p.length > 0 {
      CodecTheorems.TruncatedHeaderIsTrusted(crc, p, d);
    } else {
      CodecTheorems.EmptyHeaderIsAccepted(crc, p, d);
    }
  }

  /** What an answer decodes to. */
  lemma ReplyWireDecodes(crc: Checksum, a: nat, window: nat, w: Wire, stale: Buffer)
    requires IsReplyWire(crc, a, window, w)
    ensures var (st, p) := Decoded(crc, w, stale);
            && st == Ok && p.tr == 0 && p.window == window
            && (p.kind == Nack || (p.kind == Ack && p.seqnum == Seqnum(a)))
  {
    hide DecodeInto, Seqnum;
    var kind, n, t :|
      (kind == Nack || (kind == Ack && n == Seqnum(a))) && w == WireForm(crc, R.Response(kind, n, window, t));
    CodecTheorems.RoundTrip(crc, R.Response(kind, n, window, t), stale[|w|..]);
  }

  // ---- Spread ----

  lemma SpreadAppend(data: seq<int>, queued: seq<int>, h: nat, reach: int, base: int, more: seq<int>, after: int)
    requires Spread(data, queued, h, reach)
    requires h <= base + 31 && reach <= after <= base + 31
    requires Within(more, base, after - 1)
    ensures Spread(data + more, queued, h, after)
  {
    var all := data + more;
    forall j, k | 0 <= j < k < |all|
      ensures all[j] < all[k] + 31
    {
    }
  }

  lemma SpreadRemove(data: seq<int>, queued: seq<int>, h: nat, reach: int, k: nat)
    requires Spread(data, queued, h, reach) && k < |data|
    ensures Spread(RemoveAt(data, k), queued, h, reach)
  {
    var r := RemoveAt(data, k);
    assert forall j :: 0 <= j < |r| ==> r[j] == data[if j < k then j else j + 1];
  }

  lemma SpreadInsert(data: seq<int>, queued: seq<int>, h: nat, reach: int, k: nat, i: int)
    requires Spread(data, queued, h, reach) && k <= |data|
    requires if k < |data| then i == data[k] else h - 31 <= i < reach && Under(data, i + 31) && Under(queued, i + 31)
    ensures Spread(InsertAt(data, k, i), queued, h, reach)
  {
    var front, back := data[..k] + [i], data[k..];
    assert InsertAt(data, k, i) == front + back;
    if k < |data| {
      assert front == data[..k + 1];
      CloseRepeat(data, k);
      assert Within(front + back, h - 31, reach - 1) && Trails(front + back, queued);
    } else {
      assert front + back == data + [i];
    }
  }

  lemma CloseRepeat(data: seq<int>, k: nat)
    requires Close(data) && k < |data|
    ensures Close(data[..k + 1] + data[k..])
  {
    var r := data[..k + 1] + data[k..];
    forall j, l | 0 <= j < l < |r|
      ensures r[j] < r[l] + 31
    {
      var j', l' := if j <= k then j else j - 1, if l <= k then l else l - 1;
      assert r[j] == data[j'] && r[l] == data[l'];
    }
  }

  lemma SpreadTail(data: seq<int>, queued: seq<int>, h: nat, reach: int)
    requires Spread(data, queued, h, reach) && data != []
    ensures Spread(data[1..], queued, h, reach) && data[0] < reach
    ensures forall j :: 0 <= j < |data[1..]| ==> data[0] < data[1..][j] + 31
  {
  }

  /** Taking the front packet in and delivering a run of n moves every bound along. */
  lemma SpreadAfterReceive(rest: seq<int>, queued: seq<int>, h: nat, reach: int, mid: seq<int>, n: nat, h': nat)
    requires Spread(rest, queued, h, reach) && h <= reach && n <= |mid|
    requires forall k :: 0 <= k < |mid| ==>
               mid[k] in queued || (mid[k] < reach && forall j :: 0 <= j < |rest| ==> mid[k] < rest[j] + 31)
    requires forall k :: 0 <= k < n ==> mid[k] == h + k
    requires h' == h + n || (n < |mid| && mid[n] == h + n && h' == h + n + 1)
    ensures Spread(rest, mid[n..], h', reach) && h' <= reach
  {
    hide Close;
    forall k | 0 <= k < |mid|
      ensures mid[k] < reach && forall j :: 0 <= j < |rest| ==> mid[k] < rest[j] + 31
    {
      if mid[k] in queued {
        var q :| 0 <= q < |queued| && queued[q] == mid[k];
      }
    }
    if h' > h {
      assert h' - 1 == mid[h' - h - 1];
    }
  }

  /** A larger reach, or a smaller one that still covers everything. */
  lemma SpreadReach(data: seq<int>, queued: seq<int>, h: nat, reach: int, after: int)
    requires Spread(data, queued, h, reach) && reach <= after
    ensures Spread(data, queued, h, after)
  {
  }

  // ---- Announcements ----

  lemma RelatedStays(pace: LS.Pace, a: LS.Notice)
    ensures LS.Related(pace, a, a)
  {
  }

  lemma RelatedTwice(pace: LS.Pace, a: LS.Notice, b: LS.Notice, d: LS.Notice)
    requires LS.Levelled(pace, a) && LS.Levelled(pace, b) && LS.Levelled(pace, d)
    requires LS.Related(pace, a, b) && LS.Related(pace, b, d)
    ensures LS.Related(pace, a, d)
  {
  }

  /** Leaving announcements out or repeating them keeps what holds between any two. */
  lemma TapersAlong(pace: LS.Pace, c: seq<LS.Notice>, d: seq<LS.Notice>, f: seq<nat>)
    requires Tapers(pace, c) && |d| == |f|
    requires forall k :: 0 <= k < |f| ==> f[k] < |c| && d[k] == c[f[k]]
    requires forall j, k :: 0 <= j < k < |f| ==> f[j] <= f[k]
    ensures Tapers(pace, d) && (Widening(c) ==> Widening(d))
  {
    hide LS.Related, LS.Levelled;
    forall j, k | 0 <= j < k < |d|
      ensures LS.Related(pace, d[j], d[k]) && (Widening(c) ==> d[j].window <= d[k].window)
    {
      RelatedStays(pace, c[f[j]]);
    }
  }

  lemma ChainBounds(g: Indices)
    requires Tapers(g.pace, Chain(g))
    ensures LS.Related(g.pace, g.read, g.now) && LS.Levelled(g.pace, g.read) && LS.Levelled(g.pace, g.now)
    ensures g.read.index <= g.now.index
    ensures forall k :: 0 <= k < |g.notices| ==> g.read.index <= g.notices[k].index <= g.now.index
    ensures Widening(Chain(g)) ==> g.read.window <= g.now.window
  {
    var c := Chain(g);
    var last := |c| - 1;
    assert c[0] == g.read && c[last] == g.now && LS.Related(g.pace, c[0], c[last]);
    forall k | 0 <= k < |g.notices|
      ensures g.read.index <= g.notices[k].index <= g.now.index
    {
      assert c[k + 1] == g.notices[k];
      assert LS.Related(g.pace, c[0], c[k + 1]) && LS.Related(g.pace, c[k + 1], c[last]);
    }
  }

  lemma ChainRemove(g: Indices, k: nat)
    requires Tapers(g.pace, Chain(g)) && k < |g.notices|
    ensures var c := Chain(g.(notices := RemoveAt(g.notices, k)));
            Tapers(g.pace, c) && (Widening(Chain(g)) ==> Widening(c))
  {
    hide Tapers, Widening;
    TapersAlong(g.pace, Chain(g), Chain(g.(notices := RemoveAt(g.notices, k))),
                seq(|g.notices| + 1, j requires 0 <= j => if j < k + 1 then j else j + 1));
  }

  lemma ChainRepeat(g: Indices, k: nat)
    requires Tapers(g.pace, Chain(g)) && k < |g.notices|
    ensures var c := Chain(g.(notices := InsertAt(g.notices, k, g.notices[k])));
            Tapers(g.pace, c) && (Widening(Chain(g)) ==> Widening(c))
  {
    hide Tapers, Widening;
    TapersAlong(g.pace, Chain(g), Chain(g.(notices := InsertAt(g.notices, k, g.notices[k]))),
                seq(|g.notices| + 3, j requires 0 <= j => if j <= k + 1 then j else j - 1));
  }

  /** The sender reads the first answer. */
  lemma ChainTail(g: Indices)
    requires Tapers(g.pace, Chain(g)) && g.notices != []
    ensures var c := Chain(g.(read := g.notices[0], notices := g.notices[1..]));
            Tapers(g.pace, c) && (Widening(Chain(g)) ==> Widening(c) && g.read.window <= g.notices[0].window)
    ensures LS.Related(g.pace, g.read, g.notices[0])
    ensures LS.Levelled(g.pace, g.read) && LS.Levelled(g.pace, g.notices[0])
  {
    var c := Chain(g);
    assert c[0] == g.read && c[1] == g.notices[0] && LS.Related(g.pace, c[0], c[1]);
    TapersAlong(g.pace, c, Chain(g.(read := g.notices[0], notices := g.notices[1..])),
                seq(|g.notices| + 1, j requires 0 <= j => j + 1));
  }

  /** The receiver moves on, and announces its new state any number of times. */
  lemma ChainGrow(g: Indices, now: LS.Notice, more: seq<LS.Notice>)
    requires Tapers(g.pace, Chain(g)) && LS.Related(g.pace, g.now, now) && LS.Levelled(g.pace, now)
    requires forall k :: 0 <= k < |more| ==> more[k] == now
    ensures var c := Chain(g.(notices := g.notices + more, now := now));
            Tapers(g.pace, c) && (Widening(Chain(g)) && g.now.window <= now.window ==> Widening(c))
  {
    hide LS.Related, LS.Levelled;
    var c, last := Chain(g), |g.notices| + 1;
    var d := c + [now];
    forall j, k | 0 <= j < k < |d|
      ensures LS.Related(g.pace, d[j], d[k])
      ensures Widening(c) && g.now.window <= now.window ==> d[j].window <= d[k].window
    {
      if k == last + 1 && j < last {
        assert LS.Related(g.pace, c[j], c[last]) && c[last] == g.now;
        RelatedTwice(g.pace, c[j], g.now, now);
      }
    }
    assert Tapers(g.pace, d);
    TapersAlong(g.pace, d, Chain(g.(notices := g.notices + more, now := now)),
                seq(|g.notices| + |more| + 2, j requires 0 <= j => if j < last then j else last + 1));
  }

  // ---- The sender's steps ----

  lemma SendKeepsLink(crc: Checksum, file: File, y: System, g: Indices, fillClock: S.Clock, resendClock: S.Clock)
    returns (g': Indices)
    requires file != [] && Tracked(crc, file, y, g) && y.phase.Sending?
    ensures var z := SendStep(crc, file, y, fillClock, resendClock);
            && Keeps(crc, file, y, g, z, g') && Aside(y, g, z, g')
            && (Linked(crc, file, y, g) && Young(y, g) && ST.NextIndex(z.s) <= 256 ==> Young(z, g'))
  {
    hide Young, SendStep, Shared, Regular, Lagging, Calm, Aside;
    if Regular(file, y, g) {
      g' := SendKeepsRegular(crc, file, y, g, fillClock, resendClock);
    } else {
      g' := SendKeepsLagging(crc, file, y, g, fillClock, resendClock);
    }
  }

  /** What the sending half puts into the channel, and what it leaves alone. */
  lemma SendAppends(crc: Checksum, file: File, y: System, data: seq<int>, fillClock: S.Clock, resendClock: S.Clock,
                    filled: seq<int>, again: seq<int>)
    requires Sane(y) && y.phase.Sending? && DataWires(crc, file, data, y.data)
    requires var (s1, sent) := S.FillOrFinal(file, y.s, fillClock);
             Carries(file, filled, sent) && Carries(file, again, S.Resent(s1.list, resendClock, |s1.list|))
    ensures var s1 := S.FillOrFinal(file, y.s, fillClock).0;
            var z := SendStep(crc, file, y, fillClock, resendClock);
            && DataWires(crc, file, data + (filled + again), z.data) && (Whole(y.data) ==> Whole(z.data))
            && z == y.(phase := z.phase, s := S.Resend(s1, resendClock), data := z.data)
            && (z.phase.Reading? || z.phase.GaveUp?)
            && z.s.windowsize == y.s.windowsize && ST.NextIndex(z.s) == ST.NextIndex(s1)
  {
    hide IsPart, WireForm, IsDataWire, S.Resend, S.Resent, Whole, S.FillSent, S.Fill, DataWires, AllSegments;
    var (s1, sent) := S.FillOrFinal(file, y.s, fillClock);
    var resent := S.Resent(s1.list, resendClock, |s1.list|);
    ResendKeepsNext(s1, resendClock);
    FillKeepsSize(file, y.s, fillClock);
    ResentAreEncodable(s1, resendClock);
    SentWires(crc, file, filled, sent);
    SentWires(crc, file, again, resent);
    DataWiresAppend(crc, file, filled, Wires(crc, sent), again, Wires(crc, resent));
    DataWiresAppend(crc, file, data, y.data, filled + again, Wires(crc, sent) + Wires(crc, resent));
  }

  lemma FillKeepsSize(file: File, s: S.SenderState, clock: S.Clock)
    requires S.Healthy(s)
    ensures S.FillOrFinal(file, s, clock).0.windowsize == s.windowsize
  {
    hide S.FirstFilled, AllSegments, Chunk;
  }

  lemma SendKeepsRegular(crc: Checksum, file: File, y: System, g: Indices, fillClock: S.Clock, resendClock: S.Clock)
    returns (g': Indices)
    requires file != [] && Linked(crc, file, y, g) && y.phase.Sending?
    ensures var z := SendStep(crc, file, y, fillClock, resendClock);
            && Linked(crc, file, z, g') && (Calm(y, g) ==> Calm(z, g'))
            && (Young(y, g) && ST.NextIndex(z.s) <= 256 ==> Young(z, g'))
            && Aside(y, g, z, g') && g'.pace == g.pace && g'.lates == g.lates
  {
    hide IsPart, DataWires, ReplyWires, RT.Ordered, Seqnum, ChunkCount, Spread, Whole, S.Resend, S.Resent,
         S.FillOrFinal, Tapers, SendStep, Parts;
    var (s1, sent) := S.FillOrFinal(file, y.s, fillClock);
    ST.FillOrFinalKeepsWindow(file, y.s, g.base, fillClock);
    ST.ResendKeepsWindow(file, s1, g.base, resendClock);
    var of, filled := Range(g.base, |s1.list|), Range(g.base + |y.s.list|, |sent|);
    PartsAreCarried(file, g.base, s1.list);
    PartsAreCarried(file, g.base + |y.s.list|, sent);
    var again := ST.ResentIndices(file, s1.list, of, resendClock, |s1.list|);
    SendAppends(crc, file, y, g.data, fillClock, resendClock, filled, again);
    ChainBounds(g);
    SpreadAppend(g.data, g.queued, g.h, Reach(file, g.base), g.base, filled + again, Reach(file, g.base));
    g' := g.(data := g.data + (filled + again));
  }

  lemma PartsAreCarried(file: File, base: int, list: seq<Packet>)
    requires Parts(file, base, list)
    ensures Carries(file, Range(base, |list|), list)
  {
    hide IsPart;
  }

  lemma SendKeepsLagging(crc: Checksum, file: File, y: System, g: Indices, fillClock: S.Clock, resendClock: S.Clock)
    returns (g': Indices)
    requires Shared(crc, file, y, g) && Lagging(file, y, g) && y.phase.Sending?
    ensures var z := SendStep(crc, file, y, fillClock, resendClock);
            && Shared(crc, file, z, g') && Lagging(file, z, g')
            && Aside(y, g, z, g') && g'.pace == g.pace && g'.lates == g.lates
  {
    hide IsPart, DataWires, ReplyWires, RT.Ordered, Seqnum, ChunkCount, S.Resend, S.Resent, S.FillOrFinal, Tapers,
         LS.Lags, SendStep;
    var t: LS.Tail :| LS.Lags(file, y.s, g.read, g.pace, t) && t.lates == g.lates;
    var filled, again, t' := LS.SendLags(file, y.s, g.read, g.pace, t, fillClock, resendClock);
    SendAppends(crc, file, y, g.data, fillClock, resendClock, filled, again);
    g' := g.(data := g.data + (filled + again));
  }

  lemma ResendKeepsNext(s: S.SenderState, clock: S.Clock)
    ensures var s1 := S.Resend(s, clock);
            ST.NextIndex(s1) == ST.NextIndex(s) && s1.windowsize == s.windowsize
  {
  }

  lemma ResentAreEncodable(s: S.SenderState, clock: S.Clock)
    requires S.Healthy(s)
    ensures AllSegments(S.Resent(s.list, clock, |s.list|))
  {
    S.ResentAreSegments(s.list, clock, |s.list|);
  }

  /** An acknowledgement of index a removes no index from a on. */
  lemma AckStopsAtIndex(file: File, s: S.SenderState, base: nat, a: nat)
    requires ST.Contiguous(file, s, base) && s.list != [] && base <= a < base + 256
    ensures ST.Acked(s, Seqnum(a)) <= a - base
  {
    PartsAreSegments(file, base, s.list);
    ST.AckedCountOfRun(base, s.list, Seqnum(a));
    DistanceOnIndices(base, a);
  }

  /** When nothing was rolled back, it removes exactly the indices below a. */
  lemma AckMovesBase(file: File, s: S.SenderState, base: nat, a: nat)
    requires file != [] && ST.Contiguous(file, s, base) && s.list != [] && base <= a <= ST.NextIndex(s)
    ensures ST.Acked(s, Seqnum(a)) == a - base
  {
    PartsAreSegments(file, base, s.list);
    ST.AckedCountOfRun(base, s.list, Seqnum(a));
    DistanceOnIndices(base, a);
    if s.seqnumHead == Seqnum(base) {
      AckTestExact(base, |s.list|, Seqnum(a));
    } else {
      assert ChunkCount(file) > 0 && base > 0;
      AckTestExact(base - 1, 2, Seqnum(a));
      DistanceOnIndices(base - 1, a);
    }
  }

  lemma AckKeepsNext(s: S.SenderState, ack: Byte)
    requires s.list != []
    ensures var s1 := S.AckWindow(s, ack);
            && ST.NextIndex(s1) == ST.NextIndex(s) && s1.windowsize == s.windowsize
            && s1.lastPkt == s.lastPkt && s1.lastRst == s.lastRst && s1.list == s.list[ST.Acked(s, ack)..]
  {
    assert s.list[0..] == s.list;
  }

  /** The answer about to be read shrinks the window while the final packet is queued. */
  ghost predicate ShrinksLate(y: System, g: Indices) {
    g.notices != [] && y.s.lastPkt && g.notices[0].window < y.s.windowsize
  }

  /** Reading an answer keeps track, and the stronger invariant unless the window shrinks late, which is counted. */
  lemma ReadKeepsLink(crc: Checksum, file: File, y: System, g: Indices, stale: Buffer) returns (g': Indices)
    requires Tracked(crc, file, y, g) && y.phase.Reading? && y.acks != []
    ensures var z := ReadStep(crc, y, stale);
            && Tracked(crc, file, z, g') && Aside(y, g, z, g') && g'.pace == g.pace && g'.data == g.data
            && (Linked(crc, file, y, g) && !ShrinksLate(y, g) ==>
                  Linked(crc, file, z, g') && ST.NextIndex(z.s) <= ST.NextIndex(y.s))
            && (Linked(crc, file, y, g) && Calm(y, g) ==> Linked(crc, file, z, g') && Calm(z, g'))
            && g'.lates == g.lates + if ShrinksLate(y, g) then 1 else 0
  {
    hide ReadStep, Regular, Lagging, Sane, ReceiverLinked, DataWires, ReplyWires, Tapers, Aside;
    if Regular(file, y, g) {
      CalmNeverShrinksLate(crc, file, y, g);
      if ShrinksLate(y, g) {
        g' := ReadLosesRun(crc, file, y, g, stale);
      } else {
        g' := ReadKeepsRegular(crc, file, y, g, stale);
      }
    } else {
      g' := ReadKeepsLagging(crc, file, y, g, stale);
    }
  }

  lemma CalmNeverShrinksLate(crc: Checksum, file: File, y: System, g: Indices)
    requires Shared(crc, file, y, g)
    ensures Calm(y, g) ==> !ShrinksLate(y, g)
  {
    hide IsDataWire, IsReplyWire, RT.Holding, Whole, LS.Related, LS.Levelled;
    if g.notices != [] {
      ChainTail(g);
    }
  }

  /** An answer sent at index a that announces window v takes n packets off a run of indices. */
  lemma HandleKeepsRun(file: File, s: S.SenderState, base: nat, p: Packet, a: nat, v: Byte) returns (n: nat)
    requires ST.Contiguous(file, s, base) && s.list != [] && base <= a < base + 256
    requires p.tr == 0 && p.window == v && 1 <= v <= MAX_WINDOW_SIZE && !(s.lastPkt && v < s.windowsize)
    requires p.kind == Nack || (p.kind == Ack && p.seqnum == Seqnum(a))
    ensures base + n <= a
    ensures var (s', left) := S.Handle(s, Ok, p);
            && ST.Contiguous(file, s', base + n) && s'.windowsize == v
            && (left ==> base + n == ChunkCount(file) + 1)
            && ST.NextIndex(s') <= ST.NextIndex(s)
            && (s.windowsize <= v ==> ST.NextIndex(s') == ST.NextIndex(s))
  {
    hide IsPart, Seqnum, Parts, ChunkCount, S.AckWindow, S.UpdateWindow, ST.Acked;
    var s0 := s.(lastRst := 0);
    assert ST.Contiguous(file, s0, base);
    ST.UpdateKeepsWindow(file, s0, base, v);
    GrowOnly(s0, v);
    var s1 := S.UpdateWindow(s0, v);
    n := 0;
    if p.kind == Ack {
      AckStopsAtIndex(file, s1, base, a);
      ST.AckKeepsWindow(file, s1, base, Seqnum(a));
      AckKeepsNext(s1, Seqnum(a));
      n := ST.Acked(s1, Seqnum(a));
    }
  }

  lemma ReadKeepsRegular(crc: Checksum, file: File, y: System, g: Indices, stale: Buffer) returns (g': Indices)
    requires Linked(crc, file, y, g) && y.phase.Reading? && y.acks != [] && !ShrinksLate(y, g)
    ensures var z := ReadStep(crc, y, stale);
            && Linked(crc, file, z, g') && (Calm(y, g) ==> Calm(z, g')) && ST.NextIndex(z.s) <= ST.NextIndex(y.s)
            && Aside(y, g, z, g') && g'.pace == g.pace && g'.lates == g.lates && g'.data == g.data
  {
    hide ST.Contiguous, WireForm, DataWires, IsReplyWire, RT.Holding, Seqnum, ChunkCount, Spread, Whole, S.Handle,
         Decoded, Tapers, ST.Ready, LS.Levelled, Widening, Chain;
    ReplyTail(crc, g.notices, y.acks);
    ReplyWireDecodes(crc, g.notices[0].index, g.notices[0].window, y.acks[0], stale);
    ChainTail(g);
    g' := g.(read := g.notices[0], notices := g.notices[1..]);
    ChainBounds(g');
    var n := HandleKeepsRun(file, y.s, g.base, Decoded(crc, y.acks[0], stale).1, g'.read.index, g'.read.window);
    SpreadReach(g.data, g.queued, g.h, Reach(file, g.base), Reach(file, g.base + n));
    SameChain(g', g.base + n);
    g' := g'.(base := g.base + n);
  }

  lemma SameChain(g: Indices, base: nat)
    ensures Chain(g.(base := base)) == Chain(g)
  {
  }

  /** The sender's side once an answer is read that finds it lagging. */
  lemma HandleLags(crc: Checksum, file: File, y: System, g: Indices, stale: Buffer, t: LS.Tail) returns (g': Indices)
    requires Shared(crc, file, y, g) && y.phase.Reading? && y.acks != [] && g.notices != []
    requires LS.Lags(file, S.UpdateWindow(y.s.(lastRst := 0), g.notices[0].window), g.notices[0], g.pace, t)
    requires LS.AllWithin(g.data, ChunkCount(file) - 200, ChunkCount(file) + 164)
    ensures var z := ReadStep(crc, y, stale);
            && Shared(crc, file, z, g') && Lagging(file, z, g') && g'.lates == t.lates
            && Aside(y, g, z, g') && g'.pace == g.pace && g'.data == g.data
  {
    hide IsPart, WireForm, DataWires, IsReplyWire, RT.Holding, Seqnum, ChunkCount, S.AckWindow, S.UpdateWindow, Decoded,
         Tapers, LS.Lags, ST.Ready, LS.Related, LS.Levelled;
    ReplyTail(crc, g.notices, y.acks);
    ReplyWireDecodes(crc, g.notices[0].index, g.notices[0].window, y.acks[0], stale);
    ChainTail(g);
    var (st, p) := Decoded(crc, y.acks[0], stale);
    g' := g.(read := g.notices[0], notices := g.notices[1..], lates := t.lates);
    ChainBounds(g');
    var a := g'.read;
    GrowOnly(y.s.(lastRst := 0), a.window);
    var s1 := S.UpdateWindow(y.s.(lastRst := 0), a.window);
    if p.kind == Ack {
      var t' := LS.AckLags(file, s1, a, g.pace, t);
      AckKeepsNext(s1, Seqnum(a.index));
    }
  }

  lemma ReadKeepsLagging(crc: Checksum, file: File, y: System, g: Indices, stale: Buffer) returns (g': Indices)
    requires Shared(crc, file, y, g) && Lagging(file, y, g) && y.phase.Reading? && y.acks != []
    ensures var z := ReadStep(crc, y, stale);
            && Shared(crc, file, z, g') && Lagging(file, z, g')
            && g'.lates == g.lates + (if ShrinksLate(y, g) then 1 else 0)
            && Aside(y, g, z, g') && g'.pace == g.pace && g'.data == g.data
  {
    hide IsPart, WireForm, DataWires, IsReplyWire, RT.Holding, Seqnum, ChunkCount, S.UpdateWindow, Tapers, LS.Lags,
         ST.Ready, ReadStep, LS.Related, LS.Levelled;
    var t: LS.Tail :| LS.Lags(file, y.s, g.read, g.pace, t) && t.lates == g.lates;
    var s0 := y.s.(lastRst := 0);
    LastRstIsFree(file, y.s, g.read, g.pace, t);
    ReplyTail(crc, g.notices, y.acks);
    ChainTail(g);
    ChainBounds(g);
    var t' := LS.UpdateLags(file, s0, g.read, g.pace, t, g.notices[0]);
    g' := HandleLags(crc, file, y, g, stale, t');
  }

  lemma LastRstIsFree(file: File, s: S.SenderState, read: LS.Notice, pace: LS.Pace, t: LS.Tail)
    requires LS.Lags(file, s, read, pace, t)
    ensures LS.Lags(file, s.(lastRst := 0), read, pace, t)
  {
    hide IsPart, Seqnum, ChunkCount;
  }

  lemma ReadLosesRun(crc: Checksum, file: File, y: System, g: Indices, stale: Buffer) returns (g': Indices)
    requires Linked(crc, file, y, g) && y.phase.Reading? && y.acks != [] && ShrinksLate(y, g)
    ensures var z := ReadStep(crc, y, stale);
            && Shared(crc, file, z, g') && Lagging(file, z, g') && g'.lates == g.lates + 1
            && Aside(y, g, z, g') && g'.pace == g.pace && g'.data == g.data
  {
    hide IsPart, WireForm, DataWires, IsReplyWire, RT.Holding, Seqnum, ChunkCount, S.UpdateWindow, Tapers, LS.Lags,
         Parts, ReadStep, LS.Related, LS.Levelled;
    var s0 := y.s.(lastRst := 0);
    assert ST.Contiguous(file, s0, g.base);
    ReplyTail(crc, g.notices, y.acks);
    ChainTail(g);
    ChainBounds(g);
    var t := LS.LateShrinkLags(file, s0, g.base, g.read, g.pace, g.notices[0]);
    g' := HandleLags(crc, file, y, g, stale, t);
  }

  lemma GrowOnly(s: S.SenderState, v: Byte)
    requires s.list != []
    ensures S.UpdateWindow(s, v).list != [] && (v > 0 ==> S.UpdateWindow(s, v).windowsize == v)
    ensures ST.NextIndex(S.UpdateWindow(s, v)) <= ST.NextIndex(s)
    ensures 1 <= s.windowsize <= v ==> S.UpdateWindow(s, v) == s.(windowsize := v)
  {
  }

  lemma ReplyTail(crc: Checksum, notices: seq<LS.Notice>, ws: seq<Wire>)
    requires ReplyWires(crc, notices, ws) && ws != []
    ensures notices != [] && IsReplyWire(crc, notices[0].index, notices[0].window, ws[0])
    ensures 1 <= notices[0].window <= MAX_WINDOW_SIZE && ReplyWires(crc, notices[1..], ws[1..])
  {
  }

  // ---- The receiver's steps ----

  lemma PartKind(file: File, i: int, p: Packet)
    ensures IsPart(file, i, p) ==> p.kind == Data && p.seqnum == Seqnum(i)
  {
  }

  /** What arrives is far from aliasing with what the receiver waits for. */
  lemma DataIsNear(crc: Checksum, file: File, y: System, g: Indices)
    requires Tracked(crc, file, y, g) && !y.done && y.data != []
    ensures |g.data| == |y.data| && g.h - 223 <= g.data[0] <= g.h + 255
  {
    hide IsDataWire, IsReplyWire, Seqnum, Parts, Prefix, ChunkCount, Tapers, Close, Trails, Carries, LS.Related,
         LS.Levelled;
    ChainBounds(g);
    if !Regular(file, y, g) {
      var t: LS.Tail :| LS.Lags(file, y.s, g.read, g.pace, t) && t.lates == g.lates;
    }
  }

  /** On such a state, what arrives under the guard is lawful for the receiver. */
  lemma ArrivalIsLawful(crc: Checksum, file: File, y: System, g: Indices, stale: Buffer)
    requires Shared(crc, file, y, g) && !y.done && y.data != [] && R.WantsData(y.r)
    requires |g.data| == |y.data| && g.h - 223 <= g.data[0] <= g.h + 255
    requires Guarded(crc, y, Receive(stale))
    ensures var (st, p) := Decoded(crc, y.data[0], stale);
            RT.Lawful(file, y.r, g.h, RT.Arrive(g.data[0], st, p))
  {
    hide IsPart, IsDataWire, ReplyWires, RT.InsertSafe, Seqnum, Parts, Prefix, ChunkCount, Decoded, IsInWindow, Tapers;
    var (st, p) := Decoded(crc, y.data[0], stale);
    var i := g.data[0];
    DataWireDecodes(crc, file, i, y.data[0], stale);
    PartKind(file, i, p);
    WindowTestOnIndices(g.h, y.r.windowsize, i);
  }

  /** The window grows only with the packet the receiver waits for, and loses 3 at least. */
  lemma TakenTapers(file: File, r: R.ReceiverState, idx: seq<int>, h: nat, e: RT.Event)
    requires RT.Ordered(file, r, idx, h) && RT.Lawful(file, r, h, e) && e.Arrive? && R.WantsData(r)
    ensures var r1 := R.ReceiveData(r, e.st, e.p).0;
            && r1.windowsize <= r.windowsize + 1
            && (r1.windowsize < r.windowsize ==> r1.windowsize == r.windowsize / 2 && r1.windowsize + 3 <= r.windowsize)
            && (r1.windowsize > r.windowsize ==> h in RT.Taken(r, idx, e))
  {
    hide Seqnum, IsPart, Prefix, R.Scan, RT.InsertSafe, IsInWindow, R.AddIncreasing, RT.Increasing;
    if RT.IsComplete(e) && IsInWindow(r.seqnumHead, r.windowsize, e.p.seqnum) {
      RT.PartNumber(file, e.i, e.p);
      WindowTestOnIndices(h, r.windowsize, e.i);
      RT.SameNumber(h, h, e.i);
      if e.i == h && R.PlaceOf(r, e.p).Before? {
        PlacedHolds(idx, h, R.PlaceOf(r, e.p), |r.queue|);
      }
    }
  }

  lemma PlacedHolds(idx: seq<int>, x: int, place: R.Place, size: nat)
    requires place.Before? && |idx| == size
    ensures place.k <= size ==> x in RT.Placed(idx, x, place)
  {
    if place.k <= size {
      assert RT.Placed(idx, x, place)[place.k] == x;
    }
  }

  /** Every index queued after an arrival was queued before or has just arrived. */
  lemma TakenIndices(r: R.ReceiverState, idx: seq<int>, e: RT.Event)
    requires e.Arrive? && r.windowsize <= MAX_WINDOW_SIZE && |idx| == |r.queue|
    ensures forall k :: 0 <= k < |RT.Taken(r, idx, e)| ==>
              RT.Taken(r, idx, e)[k] in idx || (R.WantsData(r) && RT.Taken(r, idx, e)[k] == e.i)
  {
  }

  /** Without truncation the window only grows, and nothing is answered before the end. */
  lemma TakeGrowsWindow(r: R.ReceiverState, st: Status, p: Packet)
    requires 1 <= r.windowsize <= MAX_WINDOW_SIZE && st == Ok && p.tr == 0
    ensures var (r1, replies) := R.ReceiveData(r, st, p);
            replies == [] && r.windowsize <= r1.windowsize <= MAX_WINDOW_SIZE
  {
  }

  /** What taking a datagram in and flushing comes to, on the indices. */
  ghost predicate Receives(crc: Checksum, file: File, y: System, g: Indices, stale: Buffer,
                           mid: seq<int>, n: nat, now: LS.Notice)
    requires 1 <= y.r.windowsize <= MAX_WINDOW_SIZE && y.data != []
  {
    var (st, p) := Decoded(crc, y.data[0], stale);
    var (r1, replies, left) := R.Receive(y.r, st, p);
    && n <= |mid| && (forall k :: 0 <= k < n ==> mid[k] == g.h + k)
    && g.data != []
    && (forall k :: 0 <= k < |mid| ==> mid[k] in g.queued || (R.WantsData(y.r) && mid[k] == g.data[0]))
    && (now.index == g.h + n || (n < |mid| && mid[n] == g.h + n && now.index == g.h + n + 1))
    && r1.seqnumHead == Seqnum(now.index) && r1.windowsize == now.window
    && LS.Related(g.pace, g.now, now) && LS.Levelled(g.pace, now)
    && if left then r1.output == file && now.index == ChunkCount(file) + 1
       else RT.Holding(file, r1, mid[n..], now.index) && now.index <= ChunkCount(file)
  }

  lemma SortedIsUnmistaken(file: File, idx: seq<int>, h: nat)
    requires RT.Increasing(idx) && RT.Between(idx, h, h + 32)
    ensures RT.Unmistaken(file, idx, h) && (h in idx ==> idx[0] == h)
  {
    forall k | 0 <= k < |idx|
      ensures h + k <= idx[k] <= h + 32
    {
      SortedClimbs(idx, h, k);
    }
    if h in idx {
      assert forall j :: 0 < j < |idx| ==> h <= idx[0] < idx[j];
    }
  }

  lemma {:induction false} SortedClimbs(idx: seq<int>, h: nat, k: nat)
    requires RT.Increasing(idx) && RT.Between(idx, h, h + 32) && k < |idx|
    ensures h + k <= idx[k]
  {
    if k > 0 {
      SortedClimbs(idx, h, k - 1);
    }
  }

  lemma SortedRest(idx: seq<int>, h: nat, n: nat)
    requires RT.Increasing(idx) && RT.Between(idx, h, h + 32) && n <= |idx|
    ensures RT.Increasing(idx[n..]) && RT.Between(idx[n..], h + n, h + n + 32)
  {
    forall k | 0 <= k < |idx| - n
      ensures h + n <= idx[n..][k] <= h + n + 32
    {
      SortedClimbs(idx, h, n + k);
    }
  }

  /** Under its guard an arrival keeps a sorted queue sorted. */
  lemma ReceiveIsSorted(crc: Checksum, file: File, y: System, g: Indices, stale: Buffer)
    returns (mid: seq<int>, n: nat, now: LS.Notice)
    requires Shared(crc, file, y, g) && Sorted(y, g) && g.pace == LS.Exact && !y.done && y.data != []
    requires |g.data| == |y.data| && g.h - 223 <= g.data[0] <= g.h + 255
    requires Guarded(crc, y, Receive(stale))
    ensures Receives(crc, file, y, g, stale, mid, n, now)
    ensures R.Receive(y.r, Decoded(crc, y.data[0], stale).0, Decoded(crc, y.data[0], stale).1).2 ||
            (RT.Increasing(mid[n..]) && RT.Between(mid[n..], now.index, now.index + 32))
  {
    hide IsPart, Seqnum, Chunk, ChunkCount, IsDataWire, ReplyWires, RT.Taken, RT.Lawful, RT.Holding,
         R.ReceiveData, R.Flush, R.RunLength, R.WantsData, Decoded, Guarded, Tapers, RT.Increasing, RT.Between, RT.Unmistaken;
    var (st, p) := Decoded(crc, y.data[0], stale);
    var e := RT.Arrive(g.data[0], st, p);
    mid := g.queued;
    var r1 := y.r;
    if R.WantsData(y.r) {
      ArrivalIsLawful(crc, file, y, g, stale);
      HoldingSize(file, y.r, g.queued, g.h);
      RT.TakeKeepsOrder(file, y.r, g.queued, g.h, e);
      TakenIndices(y.r, g.queued, e);
      TakenTapers(file, y.r, g.queued, g.h, e);
      mid := RT.Taken(y.r, g.queued, e);
      r1 := R.ReceiveData(y.r, st, p).0;
    }
    SortedIsUnmistaken(file, mid, g.h);
    var h': nat;
    n, h' := RT.FlushIsTrue(file, r1, mid, g.h);
    SortedRest(mid, g.h, n);
    now := LS.Notice(r1.windowsize, h', h' - r1.windowsize);
    ChainBounds(g);
    ExactStep(g, now);
  }

  lemma HoldingSize(file: File, r: R.ReceiverState, idx: seq<int>, h: nat)
    requires RT.Holding(file, r, idx, h)
    ensures |idx| == |r.queue| && 1 <= r.windowsize <= MAX_WINDOW_SIZE
  {
  }

  lemma ExactStep(g: Indices, now: LS.Notice)
    requires g.pace == LS.Exact && LS.Levelled(g.pace, g.now) && LS.Levelled(g.pace, now)
    requires g.now.index <= now.index && g.now.window <= 31 && now.window <= g.now.window + 1
    requires now.window > g.now.window ==> now.index > g.now.index
    requires now.window < g.now.window ==> now.window == g.now.window / 2 && now.window + 3 <= g.now.window
    ensures LS.Related(g.pace, g.now, now)
  {
  }

  /** The replies of a reception, one index and one window size for each. */
  lemma ReceiveReplies(crc: Checksum, r: R.ReceiverState, st: Status, p: Packet, now: LS.Notice)
    returns (notices: seq<LS.Notice>)
    requires 1 <= r.windowsize <= MAX_WINDOW_SIZE && R.Receive(r, st, p).0.seqnumHead == Seqnum(now.index)
    requires R.Receive(r, st, p).0.windowsize == now.window
    ensures var (r1, replies, left) := R.Receive(r, st, p);
            && AllEncodable(replies) && ReplyWires(crc, notices, Wires(crc, replies))
            && (forall k :: 0 <= k < |notices| ==> notices[k] == now)
  {
    hide Seqnum, R.Flush, R.ReceiveData, R.WantsData, WireForm;
    RepliesAreEncodable(r, st, p);
    var (r0, nacks) := if R.WantsData(r) then R.ReceiveData(r, st, p) else (r, []);
    var (r1, replies, left) := R.Receive(r, st, p);
    FlushLeavesWindow(r0);
    WindowStaysLegal(r, st, p);
    DataReplies(crc, r, st, p, now.index);
    notices := seq(|replies|, _ => now);
    if left {
      AckOfIsReply(crc, r1, now.index);
    }
  }

  /** receive_data answers with one NACK or not at all. */
  lemma DataReplies(crc: Checksum, r: R.ReceiverState, st: Status, p: Packet, h: nat)
    requires 1 <= r.windowsize <= MAX_WINDOW_SIZE
    ensures var (r1, replies) := R.ReceiveData(r, st, p);
            && |replies| <= 1 && AllEncodable(replies)
            && (replies != [] ==> IsReplyWire(crc, h, r1.windowsize, WireForm(crc, replies[0])))
  {
    hide Seqnum, WireForm, IsInWindow, R.AcceptData;
    WindowStaysLegal(r, st, p);
    var (r1, replies) := R.ReceiveData(r, st, p);
    if replies != [] {
      assert replies[0] == R.Response(Nack, p.seqnum, r1.windowsize, p.timestamp);
    }
  }

  lemma AckOfIsReply(crc: Checksum, r: R.ReceiverState, h: nat)
    requires 1 <= r.windowsize <= MAX_WINDOW_SIZE && r.seqnumHead == Seqnum(h)
    ensures AllEncodable([R.AckOf(r)]) && Wires(crc, [R.AckOf(r)]) == [WireForm(crc, R.AckOf(r))]
    ensures IsReplyWire(crc, h, r.windowsize, WireForm(crc, R.AckOf(r)))
  {
    hide Seqnum, WireForm;
    assert R.AckOf(r) == R.Response(Ack, Seqnum(h), r.windowsize, r.lastTimestamp);
  }

  lemma ReplyAppend(crc: Checksum, a: seq<LS.Notice>, ws: seq<Wire>, b: seq<LS.Notice>, xs: seq<Wire>)
    requires ReplyWires(crc, a, ws) && ReplyWires(crc, b, xs)
    ensures ReplyWires(crc, a + b, ws + xs)
  {
    hide IsReplyWire;
  }

  lemma CalmTail(ws: seq<Wire>, idx: seq<int>, next: int)
    requires Whole(ws) && Under(idx, next) && |idx| == |ws| > 0
    ensures Whole(ws[1..]) && Under(idx[1..], next) && TrBit(ws[0][0]) == 0 && idx[0] < next
  {
  }

  /** Where a step like that leads. */
  function Received(y: System, g: Indices, mid: seq<int>, n: nat, now: LS.Notice, notices: seq<LS.Notice>): Indices
    requires n <= |mid| && g.data != []
  {
    g.(h := now.index, queued := mid[n..], data := if R.WantsData(y.r) then g.data[1..] else g.data,
       notices := g.notices + notices, now := now)
  }

  /** Taking a datagram in keeps track, whatever it does to the order of the queue. */
  lemma ReceiveKeepsTrack(crc: Checksum, file: File, y: System, g: Indices, stale: Buffer,
                          mid: seq<int>, n: nat, now: LS.Notice)
    returns (g': Indices)
    requires Tracked(crc, file, y, g) && !y.done && y.data != [] && Receives(crc, file, y, g, stale, mid, n, now)
    ensures Keeps(crc, file, y, g, ReceiveStep(crc, y, stale), g')
    ensures g'.h == now.index && g'.queued == mid[n..] && g'.now == now
    ensures g'.data == if R.WantsData(y.r) then g.data[1..] else g.data
  {
    hide IsPart, Seqnum, Chunk, ChunkCount, IsDataWire, ReplyWires, RT.Holding, R.Receive, R.WantsData, Spread, Parts,
         Decoded, Whole, Wires, Within, ST.Contiguous, Tapers, LS.Related, LS.Levelled, LS.Lags, ST.Ready, Calm,
         Chain;
    var (st, p) := Decoded(crc, y.data[0], stale);
    var (r1, replies, left) := R.Receive(y.r, st, p);
    RepliesAreEncodable(y.r, st, p);
    var notices := ReceiveReplies(crc, y.r, st, p, now);
    ReplyAppend(crc, g.notices, y.acks, notices, Wires(crc, replies));
    ChainGrow(g, now, notices);
    g' := Received(y, g, mid, n, now, notices);
    assert Chain(g') == Chain(g.(notices := g.notices + notices, now := now)) by {
      SameEnds(g', g.(notices := g.notices + notices, now := now));
    }
    if Regular(file, y, g) {
      var reach := Reach(file, g.base);
      SpreadTail(g.data, g.queued, g.h, reach);
      SpreadAfterReceive(g'.data, g.queued, g.h, reach, mid, n, now.index);
      if Calm(y, g) {
        ReceiveKeepsCalm(crc, file, y, g, stale, mid, n, now, notices);
      }
    }
  }

  lemma SameEnds(g: Indices, g': Indices)
    requires g.read == g'.read && g.notices == g'.notices && g.now == g'.now
    ensures Chain(g) == Chain(g')
  {
  }

  /** Under its guard an arrival keeps track and keeps the queue sorted. */
  lemma ReceiveKeepsLink(crc: Checksum, file: File, y: System, g: Indices, stale: Buffer) returns (g': Indices)
    requires Tracked(crc, file, y, g) && Sorted(y, g) && g.pace == LS.Exact && !y.done && y.data != []
    requires Guarded(crc, y, Receive(stale))
    ensures var z := ReceiveStep(crc, y, stale);
            Keeps(crc, file, y, g, z, g') && Sorted(z, g')
    ensures Early(g) && Under(g.data, 256) ==> Early(g') && Under(g'.data, 256)
  {
    hide Regular, Lagging, R.Receive, R.WantsData, RT.Holding, Decoded, Guarded, Tapers, Calm, Wires, ReplyWires,
         DataWires, RT.Increasing, RT.Between;
    DataIsNear(crc, file, y, g);
    var mid, n, now := ReceiveIsSorted(crc, file, y, g, stale);
    g' := ReceiveKeepsTrack(crc, file, y, g, stale, mid, n, now);
    if Early(g) && Under(g.data, 256) {
      ReceiveStaysEarly(g.data, g.queued, g'.data, g.h, mid, n, g'.h);
    }
  }

  lemma ReceiveStaysEarly(data: seq<int>, queued: seq<int>, data': seq<int>, h: nat, mid: seq<int>, n: nat, h': nat)
    requires h <= 256 && Under(data, 256) && Under(queued, 256) && data != [] && n <= |mid|
    requires data' == data[1..] || data' == data
    requires forall k :: 0 <= k < |mid| ==> mid[k] in queued || mid[k] == data[0]
    requires forall k :: 0 <= k < n ==> mid[k] == h + k
    requires h' == h + n || (n < |mid| && mid[n] == h + n && h' == h + n + 1)
    ensures Under(data', 256) && Under(mid[n..], 256) && h' <= 256
  {
    assert forall k :: 0 <= k < |mid| ==> mid[k] < 256;
    if h' > h {
      assert h' - 1 == mid[h' - h - 1];
    }
  }

  lemma ReceiveKeepsCalm(crc: Checksum, file: File, y: System, g: Indices, stale: Buffer,
                         mid: seq<int>, n: nat, now: LS.Notice, notices: seq<LS.Notice>)
    requires Shared(crc, file, y, g) && y.data != [] && Calm(y, g) && Receives(crc, file, y, g, stale, mid, n, now)
    requires forall k :: 0 <= k < |notices| ==> notices[k] == now
    ensures Calm(ReceiveStep(crc, y, stale), Received(y, g, mid, n, now, notices))
  {
    hide IsPart, IsDataWire, R.Receive, R.WantsData, Decoded, Whole, Wires, Widening, ST.Ready, Under, Chain,
         RT.Holding, ReplyWires, LS.Related, LS.Levelled, Tapers;
    var (st, p) := Decoded(crc, y.data[0], stale);
    RepliesAreEncodable(y.r, st, p);
    DataWireDecodes(crc, file, g.data[0], y.data[0], stale);
    CalmTail(y.data, g.data, ST.NextIndex(y.s));
    ReceiveWidens(y.r, st, p);
    ChainGrow(g, now, notices);
    SameEnds(Received(y, g, mid, n, now, notices), g.(notices := g.notices + notices, now := now));
    CalmMid(g.queued, g.h, ST.NextIndex(y.s), mid, n, now.index, g.data[0]);
  }

  lemma ReceiveWidens(r: R.ReceiverState, st: Status, p: Packet)
    requires 1 <= r.windowsize <= MAX_WINDOW_SIZE && st == Ok && p.tr == 0
    ensures r.windowsize <= R.Receive(r, st, p).0.windowsize
  {
    hide R.ReceiveData, R.Flush;
    TakeGrowsWindow(r, st, p);
  }

  lemma CalmMid(queued: seq<int>, h: nat, next: int, mid: seq<int>, n: nat, h': nat, i: int)
    requires Under(queued, next) && i < next && h <= next && n <= |mid|
    requires forall k :: 0 <= k < |mid| ==> mid[k] in queued || mid[k] == i
    requires forall k :: 0 <= k < n ==> mid[k] == h + k
    requires h' == h + n || (n < |mid| && mid[n] == h + n && h' == h + n + 1)
    ensures Under(mid[n..], next) && h' <= next
  {
    assert forall k :: 0 <= k < |mid| ==> mid[k] < next;
    if h' > h {
      assert h' - 1 == mid[h' - h - 1];
    }
  }

  lemma NoWires(crc: Checksum, ws: seq<Wire>)
    ensures AllEncodable([]) && ws + Wires(crc, []) == ws
  {
  }

  lemma AnswerKeepsLink(crc: Checksum, file: File, y: System, g: Indices) returns (g': Indices)
    requires Tracked(crc, file, y, g) && !y.done
    ensures var z := AnswerStep(crc, y);
            Keeps(crc, file, y, g, z, g') && Aside(y, g, z, g') && g'.data == g.data
  {
    hide IsPart, Seqnum, ChunkCount, DataWires, IsReplyWire, Spread, Parts, Carries, Prefix, Whole, ST.Contiguous,
         Tapers, LS.Lags, ST.Ready, LS.Related, LS.Levelled, Widening, Chain;
    g' := g;
    NoWires(crc, y.acks);
    if y.r.resentAck {
      AckOfIsReply(crc, y.r, g.h);
      var w := WireForm(crc, R.AckOf(y.r));
      OneReply(crc, g.now, w);
      ReplyAppend(crc, g.notices, y.acks, [g.now], [w]);
      RelatedStays(g.pace, g.now);
      ChainBounds(g);
      ChainGrow(g, g.now, [g.now]);
      g' := g.(notices := g.notices + [g.now]);
      SameEnds(g', g.(notices := g.notices + [g.now], now := g.now));
    }
  }

  lemma OneReply(crc: Checksum, a: LS.Notice, w: Wire)
    requires IsReplyWire(crc, a.index, a.window, w)
    ensures ReplyWires(crc, [a], [w])
  {
  }

  // ---- The channels' steps ----

  lemma DataRemove(crc: Checksum, file: File, idx: seq<int>, ws: seq<Wire>, k: nat)
    requires DataWires(crc, file, idx, ws) && k < |ws|
    ensures DataWires(crc, file, RemoveAt(idx, k), RemoveAt(ws, k))
    ensures Whole(ws) ==> Whole(RemoveAt(ws, k))
  {
    hide IsDataWire;
  }

  lemma DataInsert(crc: Checksum, file: File, idx: seq<int>, ws: seq<Wire>, k: nat, i: int, w: Wire)
    requires DataWires(crc, file, idx, ws) && k <= |ws| && IsDataWire(crc, file, i, w)
    ensures DataWires(crc, file, InsertAt(idx, k, i), InsertAt(ws, k, w))
    ensures Whole(ws) && w != [] && TrBit(w[0]) == 0 ==> Whole(InsertAt(ws, k, w))
  {
    hide IsDataWire;
  }

  lemma ReplyRemove(crc: Checksum, notices: seq<LS.Notice>, ws: seq<Wire>, k: nat)
    requires ReplyWires(crc, notices, ws) && k < |ws|
    ensures ReplyWires(crc, RemoveAt(notices, k), RemoveAt(ws, k))
  {
    hide IsReplyWire;
  }

  lemma ReplyRepeat(crc: Checksum, notices: seq<LS.Notice>, ws: seq<Wire>, k: nat)
    requires ReplyWires(crc, notices, ws) && k < |ws|
    ensures ReplyWires(crc, InsertAt(notices, k, notices[k]), InsertAt(ws, k, ws[k]))
  {
    hide IsReplyWire;
  }

  lemma UnderInsert(xs: seq<int>, high: int, k: nat, x: int)
    requires Under(xs, high) && k <= |xs| && x < high
    ensures Under(InsertAt(xs, k, x), high)
  {
  }

  lemma UnderRemove(xs: seq<int>, high: int, k: nat)
    requires Under(xs, high) && k < |xs|
    ensures Under(RemoveAt(xs, k), high)
  {
  }

  lemma LoseDataKeepsLink(crc: Checksum, file: File, y: System, g: Indices, k: nat) returns (g': Indices)
    requires Tracked(crc, file, y, g) && k < |y.data|
    ensures var z := y.(data := RemoveAt(y.data, k));
            Keeps(crc, file, y, g, z, g') && Aside(y, g, z, g') && OnlyLess(g.data, g'.data)
  {
    hide ST.Contiguous, RT.Holding, ChunkCount, IsDataWire, ReplyWires, Spread, Within, Whole, Under, Tapers, Chain,
         LS.Lags, ST.Ready;
    DataRemove(crc, file, g.data, y.data, k);
    if Regular(file, y, g) {
      SpreadRemove(g.data, g.queued, g.h, Reach(file, g.base), k);
    }
    if Calm(y, g) {
      UnderRemove(g.data, ST.NextIndex(y.s), k);
    }
    g' := g.(data := RemoveAt(g.data, k));
    SameEnds(g, g');
  }

  /** Every index was there before. */
  predicate OnlyLess(data: seq<int>, data': seq<int>) {
    forall k :: 0 <= k < |data'| ==> data'[k] in data
  }

  /** An index that a packet put at the end of the channel may stand for. */
  ghost function FreeIndex(file: File, y: System, g: Indices): int {
    if !Regular(file, y, g) then ChunkCount(file)
    else if Calm(y, g) then ST.NextIndex(y.s) - 1
    else if Young(y, g) then Min(Reach(file, g.base) - 1, 255)
    else Reach(file, g.base) - 1
  }

  lemma FreeIndexIsClose(crc: Checksum, file: File, y: System, g: Indices)
    requires Linked(crc, file, y, g)
    ensures var i := FreeIndex(file, y, g);
            && g.h - 31 <= i < Reach(file, g.base) && Under(g.data, i + 31) && Under(g.queued, i + 31)
            && (Calm(y, g) ==> i < ST.NextIndex(y.s))
            && (Young(y, g) ==> i < 256)
  {
    hide RT.Holding, IsDataWire, ReplyWires, Parts, ChunkCount, Tapers, Widening;
  }

  lemma InsertDataKeepsLink(crc: Checksum, file: File, y: System, g: Indices, k: nat, i: int, w: Wire)
    returns (g': Indices)
    requires Tracked(crc, file, y, g) && k <= |y.data| && IsDataWire(crc, file, i, w)
    requires Calm(y, g) ==> w != [] && TrBit(w[0]) == 0
    requires if k < |y.data| then k < |g.data| && i == g.data[k] else i == FreeIndex(file, y, g)
    ensures var z := y.(data := InsertAt(y.data, k, w));
            && Keeps(crc, file, y, g, z, g') && Aside(y, g, z, g')
            && (Linked(crc, file, y, g) && Young(y, g) ==> Young(z, g'))
  {
    hide RT.Holding, ChunkCount, IsDataWire, ReplyWires, Spread, Whole, Parts, Within, Under, Tapers, LS.Lags, Widening,
         ST.Ready, ST.Contiguous, Chain;
    DataInsert(crc, file, g.data, y.data, k, i, w);
    g' := g.(data := InsertAt(g.data, k, i));
    SameEnds(g, g');
    if Regular(file, y, g) {
      FreeIndexIsClose(crc, file, y, g);
      SpreadInsert(g.data, g.queued, g.h, Reach(file, g.base), k, i);
      if Calm(y, g) {
        CalmIndex(y, g, k, i);
        UnderInsert(g.data, ST.NextIndex(y.s), k, i);
      }
      if Young(y, g) {
        YoungIndex(g, k, i);
        UnderInsert(g.data, 256, k, i);
      }
    }
  }

  lemma CalmIndex(y: System, g: Indices, k: nat, i: int)
    requires Calm(y, g) && if k < |g.data| then i == g.data[k] else i < ST.NextIndex(y.s)
    ensures i < ST.NextIndex(y.s)
  {
    hide Whole, Widening;
  }

  lemma YoungIndex(g: Indices, k: nat, i: int)
    requires Under(g.data, 256) && if k < |g.data| then i == g.data[k] else i < 256
    ensures i < 256
  {
  }

  /** A wire of the channel is replaced by its cut form; only this disturbs the calm. */
  lemma CutDataKeepsLink(crc: Checksum, file: File, y: System, g: Indices, k: nat)
    requires Tracked(crc, file, y, g) && k < |y.data|
    ensures var z := y.(data := y.data[k := Cut(y.data[k])]);
            Tracked(crc, file, z, g) && (Linked(crc, file, y, g) ==> Linked(crc, file, z, g))
  {
    hide ST.Contiguous, RT.Holding, ChunkCount, IsDataWire, ReplyWires, Spread, Within, Cut, Tapers, LS.Lags, ST.Ready;
    CutIsDataWire(crc, file, g.data[k], y.data[k]);
  }

  lemma CutIsDataWire(crc: Checksum, file: File, i: int, w: Wire)
    requires IsDataWire(crc, file, i, w)
    ensures IsDataWire(crc, file, i, Cut(w))
  {
    hide WireForm, IsPart;
    var p :| Encodable(p) && IsFormOf(crc, file, i, p, w);
    WireStart(crc, p);
    assert IsFormOf(crc, file, i, p, Cut(w));
  }

  lemma FecWire(crc: Checksum, file: File, i: int, p: Packet)
    requires Encodable(p) && p.kind == Fec
    ensures IsDataWire(crc, file, i, WireForm(crc, p)) && WireForm(crc, p) != [] && TrBit(WireForm(crc, p)[0]) == 0
  {
    hide WireForm, IsPart;
    WireStart(crc, p);
    assert IsFormOf(crc, file, i, p, WireForm(crc, p));
  }

  lemma LoseAckKeepsLink(crc: Checksum, file: File, y: System, g: Indices, k: nat) returns (g': Indices)
    requires Tracked(crc, file, y, g) && k < |y.acks|
    ensures var z := y.(acks := RemoveAt(y.acks, k));
            Keeps(crc, file, y, g, z, g') && Aside(y, g, z, g') && g'.data == g.data
  {
    hide ST.Contiguous, RT.Holding, ChunkCount, DataWires, IsReplyWire, Spread, Within, Whole, Tapers, LS.Lags,
         ST.Ready, Under, Chain, Widening;
    ReplyRemove(crc, g.notices, y.acks, k);
    ChainRemove(g, k);
    g' := g.(notices := RemoveAt(g.notices, k));
  }

  lemma RepeatAckKeepsLink(crc: Checksum, file: File, y: System, g: Indices, k: nat) returns (g': Indices)
    requires Tracked(crc, file, y, g) && k < |y.acks|
    ensures var z := y.(acks := InsertAt(y.acks, k, y.acks[k]));
            Keeps(crc, file, y, g, z, g') && Aside(y, g, z, g') && g'.data == g.data
  {
    hide ST.Contiguous, RT.Holding, ChunkCount, DataWires, IsReplyWire, Spread, Within, Whole, Tapers, LS.Lags,
         ST.Ready, Under, Chain, Widening;
    ReplyRepeat(crc, g.notices, y.acks, k);
    ChainRepeat(g, k);
    g' := g.(notices := InsertAt(g.notices, k, g.notices[k]));
  }

  // ---- Whole runs ----

  lemma DataSize(crc: Checksum, file: File, y: System, g: Indices)
    requires Tracked(crc, file, y, g)
    ensures |g.data| == |y.data|
    ensures forall k :: 0 <= k < |y.data| ==> IsDataWire(crc, file, g.data[k], y.data[k])
  {
    hide ReplyWires, RT.Holding, Regular, Lagging, Tapers, IsDataWire;
  }

  /** An answer is about to be read that shrinks the window while the final packet is queued. */
  predicate IsLate(crc: Checksum, y: System, e: Event) {
    e.Read? && y.phase.Reading? && y.acks != [] &&
    var (st, p) := Decoded(crc, y.acks[0], e.stale);
    st == Ok && p.tr == 0 && y.s.lastPkt && S.Shrinks(y.s, p.window)
  }

  lemma LateIsSeen(crc: Checksum, file: File, y: System, g: Indices, e: Event)
    requires Tracked(crc, file, y, g)
    ensures IsLate(crc, y, e) <==> e.Read? && y.phase.Reading? && y.acks != [] && ShrinksLate(y, g)
  {
    hide DataWires, IsReplyWire, RT.Holding, Regular, Lagging, Tapers, Decoded, ST.Ready;
    if e.Read? && y.acks != [] {
      ReplyTail(crc, g.notices, y.acks);
      ReplyWireDecodes(crc, g.notices[0].index, g.notices[0].window, y.acks[0], e.stale);
    }
  }

  /** What a step outside the receiver's data path does: only truncation disturbs the calm. */
  lemma OtherKeepsTrack(crc: Checksum, file: File, y: System, g: Indices, e: Event) returns (g': Indices)
    requires file != [] && Tracked(crc, file, y, g) && !e.Receive?
    ensures var z := Next(crc, file, y, e);
            && Tracked(crc, file, z, g') && Aside(y, g, z, g') && g'.pace == g.pace
            && (Linked(crc, file, y, g) && !IsLate(crc, y, e) ==> Linked(crc, file, z, g'))
            && (Linked(crc, file, y, g) && Calm(y, g) && !e.CutData? ==> Linked(crc, file, z, g') && Calm(z, g'))
            && g'.lates == g.lates + (if IsLate(crc, y, e) then 1 else 0)
            && (Linked(crc, file, y, g) && Young(y, g) && !IsLate(crc, y, e) && ST.NextIndex(z.s) <= 256 ==>
                  Young(z, g'))
  {
    hide Shared, Regular, Lagging, Calm, SendStep, ReadStep, ReceiveStep, AnswerStep, WireForm, Encodable, Cut,
         Sane, IsDataWire, ShrinksLate, IsLate, Under;
    g' := g;
    DataSize(crc, file, y, g);
    LateIsSeen(crc, file, y, g, e);
    CalmIsNotLate(crc, file, y, g);
    match e {
      case Send(fillClock, resendClock) =>
        if y.phase.Sending? {
          g' := SendKeepsLink(crc, file, y, g, fillClock, resendClock);
        }
      case Read(stale) =>
        if y.phase.Reading? && y.acks != [] {
          g' := ReadKeepsLink(crc, file, y, g, stale);
        }
      case Skip =>
        SkipKeepsLink(crc, file, y, g);
      case Answer =>
        if !y.done {
          g' := AnswerKeepsLink(crc, file, y, g);
          AnswerAsideSender(crc, file, y, g);
        }
      case LoseData(k) =>
        if k < |y.data| {
          g' := LoseDataKeepsLink(crc, file, y, g, k);
          UnderLess(g.data, g'.data);
        }
      case RepeatData(k) =>
        if k < |y.data| {
          CalmWire(y, g, k);
          g' := InsertDataKeepsLink(crc, file, y, g, k, g.data[k], y.data[k]);
        }
      case CutData(k) =>
        if k < |y.data| {
          CutDataKeepsLink(crc, file, y, g, k);
        }
      case InsertFec(k, p) =>
        if k <= |y.data| && p.kind == Fec && Encodable(p) {
          var i := if k < |y.data| then g.data[k] else FreeIndex(file, y, g);
          FecWire(crc, file, i, p);
          g' := InsertDataKeepsLink(crc, file, y, g, k, i, WireForm(crc, p));
        }
      case LoseAck(k) =>
        if k < |y.acks| {
          g' := LoseAckKeepsLink(crc, file, y, g, k);
        }
      case RepeatAck(k) =>
        if k < |y.acks| {
          g' := RepeatAckKeepsLink(crc, file, y, g, k);
        }
      case Receive(_) =>
    }
  }

  lemma CalmIsNotLate(crc: Checksum, file: File, y: System, g: Indices)
    requires Tracked(crc, file, y, g)
    ensures Calm(y, g) ==> !ShrinksLate(y, g)
  {
    hide Shared, Regular, Lagging, Calm, ShrinksLate;
    CalmNeverShrinksLate(crc, file, y, g);
  }

  lemma UnderLess(data: seq<int>, data': seq<int>)
    requires OnlyLess(data, data')
    ensures Under(data, 256) ==> Under(data', 256)
  {
  }

  lemma AnswerAsideSender(crc: Checksum, file: File, y: System, g: Indices)
    requires Tracked(crc, file, y, g)
    ensures Sane(y) && AnswerStep(crc, y).s == y.s
  {
    hide DataWires, ReplyWires, RT.Holding, Regular, Lagging, Tapers, ST.Ready;
  }

  lemma SkipKeepsLink(crc: Checksum, file: File, y: System, g: Indices)
    requires Tracked(crc, file, y, g)
    ensures y.phase.Reading? ==> Keeps(crc, file, y, g, y.(phase := Sending), g)
  {
    hide ReplyWires, DataWires, RT.Holding, ST.Contiguous, Spread, Tapers, LS.Lags, ST.Ready, Whole, Widening;
  }

  lemma CalmWire(y: System, g: Indices, k: nat)
    requires k < |y.data|
    ensures Calm(y, g) ==> y.data[k] != [] && TrBit(y.data[k][0]) == 0
  {
    hide Widening;
  }

  /** One step under its guard. */
  lemma NextKeepsLink(crc: Checksum, file: File, y: System, g: Indices, e: Event) returns (g': Indices)
    requires file != [] && Tracked(crc, file, y, g) && Sorted(y, g) && g.pace == LS.Exact && Guarded(crc, y, e)
    ensures var z := Next(crc, file, y, e);
            && Tracked(crc, file, z, g') && Sorted(z, g') && g'.pace == LS.Exact
            && (Linked(crc, file, y, g) && !IsLate(crc, y, e) ==> Linked(crc, file, z, g'))
            && (Linked(crc, file, y, g) && Young(y, g) && !IsLate(crc, y, e) ==>
                  Early(g') && (ST.NextIndex(z.s) <= 256 ==> Young(z, g')))
            && (Linked(crc, file, y, g) && Calm(y, g) && !e.CutData? ==> Linked(crc, file, z, g') && Calm(z, g'))
            && g'.lates == g.lates + if IsLate(crc, y, e) then 1 else 0
  {
    hide Shared, Regular, Lagging, Calm, ReceiveStep, SendStep, ReadStep, AnswerStep, Guarded, Sane, IsLate;
    g' := g;
    match e {
      case Receive(stale) =>
        NotLate(crc, y, e);
        if !y.done && y.data != [] {
          g' := ReceiveKeepsLink(crc, file, y, g, stale);
        }
      case _ =>
        g' := OtherKeepsTrack(crc, file, y, g, e);
    }
  }

  lemma NotLate(crc: Checksum, y: System, e: Event)
    requires e.Receive?
    ensures !IsLate(crc, y, e)
  {
  }

  /** Within reach of each other, indices cannot upset the walk of the sorted insertion. */
  lemma CloseInsertIsSafe(h: nat, windowsize: nat, idx: seq<int>, queue: seq<Packet>, x: nat)
    requires 1 <= windowsize <= MAX_WINDOW_SIZE && RT.Numbers(idx, queue)
    requires h <= x < h + windowsize && RT.Between(idx, h, h + windowsize - 1)
    ensures RT.InsertSafe(queue, Seqnum(h), windowsize, Seqnum(x))
  {
    if Seqnum(h) + windowsize < 256 && idx != [] {
      Unwrap(h, x);
      Unwrap(h, idx[|idx| - 1]);
    }
  }

  /** The indices of a calm state lie inside the receiver's window. */
  lemma CalmIsNarrow(crc: Checksum, file: File, y: System, g: Indices)
    requires Linked(crc, file, y, g) && Sorted(y, g) && Calm(y, g)
    ensures Within(g.data, g.h - 31, g.h + y.r.windowsize - 1)
    ensures !y.done ==> RT.Between(g.queued, g.h, g.h + y.r.windowsize - 1) && RT.Numbers(g.queued, y.r.queue)
    ensures ST.NextIndex(y.s) <= g.h + y.r.windowsize
  {
    hide IsDataWire, ReplyWires, Prefix, ChunkCount, Parts, Seqnum, Chunk, Whole, Tapers, Widening, LS.Related,
         LS.Levelled;
    ChainBounds(g);
  }

  /** As long as nothing was truncated, the guards hold by themselves. */
  lemma CalmIsGuarded(crc: Checksum, file: File, y: System, g: Indices, e: Event)
    requires Linked(crc, file, y, g) && Sorted(y, g) && Calm(y, g)
    ensures Guarded(crc, y, e)
  {
    hide IsPart, IsDataWire, IsReplyWire, RT.InsertSafe, Prefix, ChunkCount, Parts, Seqnum, Chunk, Spread, Decoded,
         IsInWindow, Whole, ST.Contiguous, RT.Between, RT.Numbers;
    CalmIsNarrow(crc, file, y, g);
    if e.Receive? && !y.done && y.data != [] {
      var (st, p) := Decoded(crc, y.data[0], e.stale);
      var i := g.data[0];
      DataWireDecodes(crc, file, i, y.data[0], e.stale);
      PartKind(file, i, p);
      WindowTestOnIndices(g.h, y.r.windowsize, i);
      if g.h <= i {
        CloseInsertIsSafe(g.h, y.r.windowsize, g.queued, y.r.queue, i);
      }
    }
  }

  lemma InitialIsLinked(crc: Checksum, file: File, pace: LS.Pace)
    ensures Linked(crc, file, INITIAL, Origin(pace)) && Sorted(INITIAL, Origin(pace)) && Calm(INITIAL, Origin(pace))
    ensures Tracked(crc, file, INITIAL, Origin(pace))
  {
    hide IsDataWire, IsReplyWire, Lagging, IsPart;
    assert Prefix(file, 0) == [];
  }

  /** How often the window of the sender shrinks while the final packet is queued. */
  function Lates(crc: Checksum, file: File, events: seq<Event>): nat {
    if events == [] then 0
    else
      var before, e := events[..|events| - 1], events[|events| - 1];
      Lates(crc, file, before) + if IsLate(crc, Run(crc, file, before), e) then 1 else 0
  }

  /** Every state of every guarded run, for every file that is not empty, has its indices. */
  lemma {:induction false} RunIsLinked(crc: Checksum, file: File, events: seq<Event>) returns (g: Indices)
    requires file != [] && GuardedRun(crc, file, events)
    ensures Tracked(crc, file, Run(crc, file, events), g) && Sorted(Run(crc, file, events), g)
    ensures g.pace == LS.Exact && g.lates == Lates(crc, file, events)
    decreases |events|
  {
    hide Linked, Tracked, Next, Guarded, Calm, IsLate, Sorted;
    if events == [] {
      InitialIsLinked(crc, file, LS.Exact);
      g := Origin(LS.Exact);
    } else {
      var before := events[..|events| - 1];
      g := RunIsLinked(crc, file, before);
      g := NextKeepsLink(crc, file, Run(crc, file, before), g, events[|events| - 1]);
    }
  }

  /** In a guarded run the window shrinks late at most 20 times. */
  lemma LateShrinksAreFew(crc: Checksum, file: File, events: seq<Event>)
    requires file != [] && GuardedRun(crc, file, events)
    ensures Lates(crc, file, events) <= 20
  {
    hide Run, GuardedRun, Lates, Shared, LS.Lags, ST.Contiguous, Spread;
    var g := RunIsLinked(crc, file, events);
    var y := Run(crc, file, events);
    if !Regular(file, y, g) {
      var t: LS.Tail :| LS.Lags(file, y.s, g.read, g.pace, t) && t.lates == g.lates;
      LS.LatesAreFew(file, y.s, g.read, g.pace, t);
    }
  }

  /** Runs without truncation stay calm, and so are guarded. */
  lemma {:induction false} CalmRunIsLinked(crc: Checksum, file: File, events: seq<Event>) returns (g: Indices)
    requires file != [] && TruncationFree(events)
    ensures GuardedRun(crc, file, events)
    ensures Linked(crc, file, Run(crc, file, events), g) && Sorted(Run(crc, file, events), g)
    ensures Calm(Run(crc, file, events), g) && g.pace == LS.Exact
    decreases |events|
  {
    hide Shared, Regular, Lagging, Next, Guarded, Calm, IsLate, Sorted;
    if events == [] {
      InitialIsLinked(crc, file, LS.Exact);
      g := Origin(LS.Exact);
    } else {
      var before, e := events[..|events| - 1], events[|events| - 1];
      g := CalmRunIsLinked(crc, file, before);
      CalmIsGuarded(crc, file, Run(crc, file, before), g, e);
      g := NextKeepsLink(crc, file, Run(crc, file, before), g, e);
    }
  }
}
