/** What pkt_encode and pkt_decode promise together. */
module CodecTheorems {
  import opened Bytes
  import opened Packets

  /** The length a decoder reads back. */
  function WireLength(p: Packet): Half {
    if p.kind == Data then p.length else if p.kind == Fec then MAX_PAYLOAD_SIZE else 0
  }

  /** What a fresh structure holds once the header of `p`, with TR bit `t`, is decoded. */
  function HeaderOnly(crc: Checksum, p: Packet, t: Bit): Packet
    requires Encodable(p)
  {
    BLANK.(kind := p.kind, tr := t, window := p.window, length := WireLength(p), seqnum := p.seqnum,
    timestamp := p.timestamp, crc1 := crc(Header(p)))
  }

  lemma HeaderBytes(p: Packet)
    requires Encodable(p)
    ensures Header(p)[0] == Code(p.kind) * 64 + p.window
    ensures CarriesLength(p.kind) ==> Header(p)[1..3] == Big16(WireLength(p))
    ensures Header(p)[HeaderLength(p.kind) - 5] == p.seqnum
    ensures Header(p)[HeaderLength(p.kind) - 4..] == Little32(p.timestamp)
  {
    var h := Header(p);
    var front := [Code(p.kind) * 64 + p.window] + LengthField(p);
    assert h == front + [p.seqnum] + Little32(p.timestamp);
    assert |front| == HeaderLength(p.kind) - 5;
  }

  /** Where the fields of a sealed header are found in a buffer. */
  lemma SealedHeaderBytes(crc: Checksum, p: Packet, t: Bit, data: seq<Byte>)
    requires Encodable(p) && SealedHeader(crc, p, t) <= data
    ensures var n := HeaderLength(p.kind);
            && n + 4 <= |data|
            && data[0] == Code(p.kind) * 64 + 32 * t + p.window
            && ClearHeaderTr(data[..n]) == Header(p)
            && (CarriesLength(p.kind) ==> data[1..3] == Big16(WireLength(p)))
            && data[n - 5] == p.seqnum
            && data[n - 4..n] == Little32(p.timestamp)
            && data[n..n + 4] == Big32(crc(Header(p)))
  {
    hide Header, Big32, Little32, Big16;
    var h, n := Header(p), HeaderLength(p.kind);
    var s := SealedHeader(crc, p, t);
    HeaderBytes(p);
    FirstByte(p.kind, t, p.window);
    assert s[n..n + 4] == Big32(crc(h)) && data[n..n + 4] == s[n..n + 4];
    assert forall i :: 0 <= i < n + 4 ==> data[i] == s[i];
    assert forall i :: 1 <= i < n ==> data[i] == h[i];
    assert data[n - 4..n] == h[n - 4..];
    assert CarriesLength(p.kind) ==> data[1..3] == h[1..3];
  }

  lemma FirstByte(kind: Kind, t: Bit, window: Byte)
    requires window <= MAX_WINDOW_SIZE
    ensures var b := Code(kind) * 64 + 32 * t + window;
            && b < 256 && b / 64 == Code(kind) && TrBit(b) == t && b % 32 == window
            && ClearTr(b) == Code(kind) * 64 + window
    ensures KindOf(Code(kind)) == kind
  {
  }

  /** Decoding a sealed header recovers its fields whatever the TR bit, and reaches the body. */
  lemma DecodeSealedHeader(crc: Checksum, p: Packet, t: Bit, data: seq<Byte>, len: nat)
    requires Encodable(p) && (t == 1 ==> p.kind == Data)
    requires PKT_MAX_LEN <= |data| && SealedHeader(crc, p, t) <= data
    requires 10 <= len <= PKT_MAX_LEN && (CarriesLength(p.kind) ==> len <= WireLength(p) + 32)
    ensures DecodeInto(crc, data, len, BLANK) ==
            if WireLength(p) == 0 then (Ok, HeaderOnly(crc, p, t))
            else DecodeBody(crc, data, HeaderLength(p.kind) + 4, HeaderOnly(crc, p, t))
  {
    SealedHeaderBytes(crc, p, t, data);
    FirstByte(p.kind, t, p.window);
    if CarriesLength(p.kind) {
      Big16RoundTrip(WireLength(p));
    }
    var q := BLANK.(kind := p.kind, tr := t, window := p.window, length := WireLength(p));
    var start := HeaderLength(p.kind) - 5;
    assert DecodeInto(crc, data, len, BLANK) == DecodeFields(crc, data, len, start, q);
    DecodeSealedFields(crc, p, t, data, len, q);
  }

  lemma DecodeSealedFields(crc: Checksum, p: Packet, t: Bit, data: seq<Byte>, len: nat, q: Packet)
    requires Encodable(p) && (t == 1 ==> p.kind == Data)
    requires PKT_MAX_LEN <= |data| && SealedHeader(crc, p, t) <= data && len <= PKT_MAX_LEN
    requires q == BLANK.(kind := p.kind, tr := t, window := p.window, length := WireLength(p))
    ensures DecodeFields(crc, data, len, HeaderLength(p.kind) - 5, q) ==
            if WireLength(p) == 0 then (Ok, HeaderOnly(crc, p, t))
            else DecodeBody(crc, data, HeaderLength(p.kind) + 4, HeaderOnly(crc, p, t))
  {
    SealedHeaderBytes(crc, p, t, data);
    Big32RoundTrip(crc(Header(p)));
    Little32RoundTrip(p.timestamp);
  }

  /** A body behind a header decodes to the payload, unless the TR bit says there is none. */
  lemma DecodeEncodedBody(crc: Checksum, p: Packet, data: seq<Byte>, q: Packet)
    requires Encodable(p) && WireLength(p) > 0
    requires PKT_MAX_LEN <= |data| && WireForm(crc, p) <= data
    requires q.kind == p.kind && q.tr == p.tr && q.length == WireLength(p)
    ensures var (st, r) := DecodeBody(crc, data, HeaderLength(p.kind) + 4, q);
            if p.tr == 1 then st == BadCrc && r == q.(payload := r.payload)
            else st == Ok && r == q.(payload := p.payload, crc2 := crc(p.payload))
  {
    hide SealedHeader, Header, Big32, FromBig32;
    if p.tr == 0 {
      var n := HeaderLength(p.kind) + 4;
      var w, e := WireForm(crc, p), n + |p.payload|;
      Big32RoundTrip(crc(p.payload));
      assert w[n..e] == p.payload && w[e..e + 4] == Big32(crc(p.payload));
      assert data[n..e] == w[n..e] && data[e..e + 4] == w[e..e + 4];
    }
  }

  /**
   * Round trip: what pkt_encode wrote, read back into a fresh structure from a buffer with
   * anything behind it, decodes exactly when it is not a truncated packet announcing a
   * payload, and then every field and the payload return.
   */
  lemma RoundTrip(crc: Checksum, p: Packet, stale: seq<Byte>)
    requires Encodable(p)
    requires PKT_MAX_LEN <= |WireForm(crc, p) + stale|
    ensures var w := WireForm(crc, p);
            var (st, q) := DecodeInto(crc, w + stale, |w|, BLANK);
            && (st == Ok <==> !(p.tr == 1 && p.length > 0))
            && q.kind == p.kind && q.tr == p.tr && q.window == p.window
            && q.seqnum == p.seqnum && q.timestamp == p.timestamp && q.length == WireLength(p)
            && (st == Ok ==> q.payload == if CarriesLength(p.kind) && p.tr == 0 then p.payload else [])
  {
    var w := WireForm(crc, p);
    DecodeSealedHeader(crc, p, p.tr, w + stale, |w|);
    if WireLength(p) > 0 {
      DecodeEncodedBody(crc, p, w + stale, HeaderOnly(crc, p, p.tr));
    }
  }

  /** Setting the TR bit on a cut packet leaves the sealed header of a truncated one. */
  lemma CutIsSealed(crc: Checksum, p: Packet, data: seq<Byte>)
    requires Encodable(p) && p.kind == Data && p.tr == 0 && |data| >= 12
    requires var w := WireForm(crc, p); data[..12] == [w[0] + 32] + w[1..12]
    ensures SealedHeader(crc, p, 1) <= data
  {
    hide Header, Big32, Body;
    assert SealedHeader(crc, p, 1) == data[..12];
  }

  /**
   * Truncation: a DATA packet with a payload, cut to its 12 header bytes with the TR bit
   * set, fails with a checksum error whatever bytes follow, but its type, TR bit and
   * sequence number are already decoded.
   */
  lemma TruncatedHeaderIsTrusted(crc: Checksum, p: Packet, data: seq<Byte>)
    requires Encodable(p) && p.kind == Data && p.tr == 0 && p.length > 0
    requires PKT_MAX_LEN <= |data|
    requires var w := WireForm(crc, p); data[..12] == [w[0] + 32] + w[1..12]
    ensures var (st, q) := DecodeInto(crc, data, 12, BLANK);
            st == BadCrc && q.kind == Data && q.tr == 1 && q.seqnum == p.seqnum && q.timestamp == p.timestamp
  {
    hide DecodeInto, SealedHeader, WireForm, Header;
    CutIsSealed(crc, p, data);
    DecodeSealedHeader(crc, p, 1, data, 12);
  }

  /** Without a payload the cut packet decodes without an error, its TR bit set. */
  lemma EmptyHeaderIsAccepted(crc: Checksum, p: Packet, data: seq<Byte>)
    requires Encodable(p) && p.kind == Data && p.tr == 0 && p.length == 0
    requires PKT_MAX_LEN <= |data|
    requires var w := WireForm(crc, p); data[..12] == [w[0] + 32] + w[1..12]
    ensures DecodeInto(crc, data, 12, BLANK) == (Ok, HeaderOnly(crc, p, 1))
  {
    hide DecodeInto, SealedHeader, WireForm, Header;
    CutIsSealed(crc, p, data);
    DecodeSealedHeader(crc, p, 1, data, 12);
  }

  /**
   * Corruption: when header and payload checksum of a DATA packet arrive whole and its payload
   * does not match the checksum, decoding fails with a checksum error, TR bit clear.
   */
  lemma CorruptPayloadIsDetected(crc: Checksum, p: Packet, data: seq<Byte>)
    requires Encodable(p) && p.kind == Data && p.tr == 0 && p.length > 0
    requires PKT_MAX_LEN <= |data|
    requires var w, n := WireForm(crc, p), 12 + p.length;
             data[..12] == w[..12] && data[n..n + 4] == w[n..] && crc(data[12..n]) != crc(p.payload)
    ensures var (st, q) := DecodeInto(crc, data, |WireForm(crc, p)|, BLANK);
            st == BadCrc && q.kind == Data && q.tr == 0 && q.seqnum == p.seqnum
  {
    hide DecodeInto, SealedHeader, Header, Big32, FromBig32;
    var w, n := WireForm(crc, p), 12 + p.length;
    assert SealedHeader(crc, p, 0) == w[..12] == data[..12];
    DecodeSealedHeader(crc, p, 0, data, |w|);
    assert w[n..] == Big32(crc(p.payload));
    Big32RoundTrip(crc(p.payload));
  }

  /**
   * A header whose checksum does not match is a checksum error; what it holds is in the structure
   * already, and nothing behind it is looked at.
   */
  lemma CorruptHeaderIsDetected(crc: Checksum, data: seq<Byte>, len: nat)
    requires PKT_MAX_LEN <= |data| && 10 <= len
    requires TrBit(data[0]) == 1 ==> data[0] / 64 == 1
    requires data[0] / 64 < 2 ==> FromBig16(data[1..3]) <= MAX_PAYLOAD_SIZE && len <= FromBig16(data[1..3]) + 32
    requires var n := if data[0] / 64 < 2 then 8 else 6;
             crc([data[0] - 32 * TrBit(data[0])] + data[1..n]) != FromBig32(data[n..n + 4])
    ensures var (st, q) := DecodeInto(crc, data, len, BLANK);
            var n := if data[0] / 64 < 2 then 8 else 6;
            && st == BadCrc && q.payload == [] && q.kind == KindOf(data[0] / 64) && q.tr == TrBit(data[0])
            && q.seqnum == data[n - 5] && q.timestamp == FromLittle32(data[n - 4..n])
  {
    hide FromBig32, FromBig16, FromLittle32;
    var n := if data[0] / 64 < 2 then 8 else 6;
    assert ClearHeaderTr(data[..n]) == [data[0] - 32 * TrBit(data[0])] + data[1..n];
  }

  /** What cannot be a packet is told apart by its length, its TR bit and the length it announces. */
  lemma MalformedIsNamed(crc: Checksum, data: seq<Byte>, len: nat)
    requires PKT_MAX_LEN <= |data|
    ensures var (st, q) := DecodeInto(crc, data, len, BLANK);
            && (st == NoHeader <==> 1 <= len <= 5)
            && (st == BadTr <==> 10 <= len && TrBit(data[0]) == 1 && data[0] / 64 != 1)
            && (st == BadLength <==> 10 <= len && data[0] / 64 < 2 && (TrBit(data[0]) == 1 ==> data[0] / 64 == 1) &&
                                     FromBig16(data[1..3]) > MAX_PAYLOAD_SIZE)
            && (st == Unconsistent <==>
                  len == 0 || (&& 10 <= len && data[0] / 64 < 2 && (TrBit(data[0]) == 1 ==> data[0] / 64 == 1)
                               && FromBig16(data[1..3]) <= MAX_PAYLOAD_SIZE && FromBig16(data[1..3]) + 32 < len))
            && (6 <= len <= 9 ==> st == BadCrc)
            && (st == BadTr || st == BadLength ==> q.kind == KindOf(data[0] / 64))
            && st in {Ok, NoHeader, BadTr, BadLength, BadCrc, Unconsistent}
  {
    hide FromBig32, FromBig16, FromLittle32;
  }

  /** Decoding stays within the datagram it was given, unless that is a truncated packet announcing a payload. */
  lemma WireIsReadable(crc: Checksum, p: Packet)
    requires Encodable(p)
    ensures var w := WireForm(crc, p); Readable(w, |w|) <==> !(p.tr == 1 && p.length > 0)
  {
    hide Big32, Little32;
    HeaderBytes(p);
    FirstByte(p.kind, p.tr, p.window);
    if CarriesLength(p.kind) {
      Big16RoundTrip(WireLength(p));
      assert WireForm(crc, p)[1..3] == Big16(WireLength(p));
    }
  }

  /** The size check covers every byte written except for an empty untruncated DATA packet. */
  lemma SizeCheckIsSound(crc: Checksum, p: Packet)
    requires Encodable(p)
    ensures |WireForm(crc, p)| <= CheckedSize(p) <==> !(p.kind == Data && p.tr == 0 && p.length == 0)
  {
  }

  /** The relation between a buffer and the packet read from it, field by field. */
  ghost predicate Describes(crc: Checksum, data: seq<Byte>, q: Packet)
    requires PKT_MAX_LEN <= |data|
  {
    var n := HeaderLength(q.kind);
    && data[0] == Code(q.kind) * 64 + 32 * q.tr + q.window && q.window <= MAX_WINDOW_SIZE
    && (q.tr == 1 ==> q.kind == Data && q.length == 0)
    && (CarriesLength(q.kind) ==> q.length == FromBig16(data[1..3]) <= MAX_PAYLOAD_SIZE)
    && (!CarriesLength(q.kind) ==> q.length == 0)
    && q.seqnum == data[n - 5] && q.timestamp == FromLittle32(data[n - 4..n])
    && crc(ClearHeaderTr(data[..n])) == FromBig32(data[n..n + 4])
    && (q.kind == Fec ==> q.length > 0 && BodyAt(crc, data, q, MAX_PAYLOAD_SIZE))
    && (q.kind == Data && q.length > 0 ==> BodyAt(crc, data, q, q.length))
    && (q.length == 0 ==> q.payload == [])
  }

  ghost predicate BodyAt(crc: Checksum, data: seq<Byte>, q: Packet, size: nat)
    requires PKT_MAX_LEN <= |data| && size <= MAX_PAYLOAD_SIZE
  {
    data[12..12 + size] == q.payload && crc(q.payload) == FromBig32(data[12 + size..16 + size])
  }

  /** A packet that decodes agrees with its buffer, and may be encoded again. */
  lemma DecodedIsDescribed(crc: Checksum, data: seq<Byte>, len: nat)
    requires PKT_MAX_LEN <= |data|
    requires DecodeInto(crc, data, len, BLANK).0 == Ok
    ensures var q := DecodeInto(crc, data, len, BLANK).1; Describes(crc, data, q) && Encodable(q)
    ensures var q := DecodeInto(crc, data, len, BLANK).1; 10 <= len && (CarriesLength(q.kind) ==> len <= q.length + 32)
  {
    hide FromBig16, FromBig32, FromLittle32;
  }

  /**
   * Acceptance: pkt_decode succeeds exactly on the buffers that describe some packet and whose
   * received length is at least 10 and at most 32 more than the announced payload; the packet
   * it delivers is that one.
   */
  lemma AcceptedExactly(crc: Checksum, data: seq<Byte>, len: nat, q: Packet)
    requires PKT_MAX_LEN <= |data|
    ensures Describes(crc, data, q) && 10 <= len && (CarriesLength(q.kind) ==> len <= q.length + 32) <==>
            var (st, p) := DecodeInto(crc, data, len, BLANK);
            st == Ok && p.(crc1 := q.crc1, crc2 := q.crc2) == q
  {
    if DecodeInto(crc, data, len, BLANK).0 == Ok {
      DecodedIsDescribed(crc, data, len);
    }
    if Describes(crc, data, q) && 10 <= len && (CarriesLength(q.kind) ==> len <= q.length + 32) {
      DescribedDecodes(crc, data, len, q);
    }
  }

  lemma DescribedDecodes(crc: Checksum, data: seq<Byte>, len: nat, q: Packet)
    requires PKT_MAX_LEN <= |data| && Describes(crc, data, q)
    requires 10 <= len && (CarriesLength(q.kind) ==> len <= q.length + 32)
    ensures var (st, p) := DecodeInto(crc, data, len, BLANK); st == Ok && p.(crc1 := q.crc1, crc2 := q.crc2) == q
  {
    FirstByte(q.kind, q.tr, q.window);
    var p := BLANK.(kind := q.kind, tr := q.tr, window := q.window, length := q.length);
    assert DecodeInto(crc, data, len, BLANK) == DecodeFields(crc, data, len, HeaderLength(q.kind) - 5, p);
  }

  /**
   * Canonical form: a buffer that decodes re-encodes to its own leading bytes, except for
   * the two things pkt_decode does not look at: the checksum behind an empty untruncated
   * DATA packet (its 12 bytes before that still agree), and an FEC length other than 512.
   */
  lemma Canonical(crc: Checksum, data: seq<Byte>, len: nat)
    requires PKT_MAX_LEN <= |data|
    requires DecodeInto(crc, data, len, BLANK).0 == Ok
    ensures var q := DecodeInto(crc, data, len, BLANK).1;
            && Encodable(q)
            && (WireForm(crc, q) <= data <==>
                && (q.kind == Data && q.tr == 0 && q.length == 0 ==> data[12..16] == Big32(crc([])))
                && (q.kind == Fec ==> q.length == MAX_PAYLOAD_SIZE))
            && (q.kind != Fec ==> SealedHeader(crc, q, q.tr) <= data)
  {
    DecodedIsDescribed(crc, data, len);
    var q := DecodeInto(crc, data, len, BLANK).1;
    if q.kind == Fec && q.length != MAX_PAYLOAD_SIZE {
      DescribedFecLength(crc, data, q);
    } else {
      DescribedHeader(crc, data, q);
      DescribedBody(crc, data, q);
    }
  }

  lemma DescribedFecLength(crc: Checksum, data: seq<Byte>, q: Packet)
    requires PKT_MAX_LEN <= |data| && Encodable(q) && Describes(crc, data, q)
    requires q.kind == Fec && q.length != MAX_PAYLOAD_SIZE
    ensures !(WireForm(crc, q) <= data)
  {
    var w := WireForm(crc, q);
    HeaderBytes(q);
    assert w[1..3] == Big16(MAX_PAYLOAD_SIZE);
    assert w[1] == w[1..3][0] && w[2] == w[1..3][1];
    assert data[1] == data[1..3][0] && data[2] == data[1..3][1];
  }

  lemma Splice(data: seq<Byte>, i: nat, j: nat)
    requires i <= j <= |data|
    ensures data[..i] + data[i..j] == data[..j]
  {
  }

  lemma DescribedHeader(crc: Checksum, data: seq<Byte>, q: Packet)
    requires PKT_MAX_LEN <= |data| && Encodable(q) && Describes(crc, data, q)
    requires q.kind == Fec ==> q.length == MAX_PAYLOAD_SIZE
    ensures SealedHeader(crc, q, q.tr) <= data
  {
    hide Header, LengthField, Big32, FromBig32, FromBig16, FromLittle32, BodyAt;
    var n := HeaderLength(q.kind);
    var h := Header(q);
    HeaderBytes(q);
    DescribedFields(crc, data, q);
    Big32Canonical(data[n..n + 4]);
    assert ClearHeaderTr(data[..n]) == h by {
      assert data[..n][1..] == data[1..n] == h[1..];
      assert h == [h[0]] + h[1..];
    }
    var s := SealedHeader(crc, q, q.tr);
    assert s == [data[0]] + data[1..n] + data[n..n + 4];
    assert data[..1] == [data[0]];
    Splice(data, 1, n);
    Splice(data, n, n + 4);
  }

  /** The header fields behind the first byte encode to the bytes they were read from. */
  lemma DescribedFields(crc: Checksum, data: seq<Byte>, q: Packet)
    requires PKT_MAX_LEN <= |data| && Encodable(q) && Describes(crc, data, q)
    requires q.kind == Fec ==> q.length == MAX_PAYLOAD_SIZE
    ensures Header(q)[1..] == data[1..HeaderLength(q.kind)]
  {
    hide Header, LengthField, Big32, FromBig32, FromBig16, FromLittle32, BodyAt, Little32, Big16;
    var n := HeaderLength(q.kind);
    var h := Header(q);
    HeaderBytes(q);
    Little32Canonical(data[n - 4..n]);
    if CarriesLength(q.kind) {
      Big16Canonical(data[1..3]);
      assert data[1..n] == data[1..3] + [data[n - 5]] + data[n - 4..n];
      assert h[1..] == h[1..3] + [h[n - 5]] + h[n - 4..];
    } else {
      assert data[1..n] == [data[n - 5]] + data[n - 4..n];
      assert h[1..] == [h[n - 5]] + h[n - 4..];
    }
  }

  lemma DescribedBody(crc: Checksum, data: seq<Byte>, q: Packet)
    requires PKT_MAX_LEN <= |data| && Encodable(q) && Describes(crc, data, q)
    requires SealedHeader(crc, q, q.tr) <= data
    ensures WireForm(crc, q) <= data <==> (q.kind == Data && q.tr == 0 && q.length == 0 ==> data[12..16] == Big32(crc([])))
  {
    var n := HeaderLength(q.kind) + 4;
    var s, b := SealedHeader(crc, q, q.tr), Body(crc, q);
    PrefixSplits(s, b, data);
    if q.length > 0 && CarriesLength(q.kind) {
      var e := n + |q.payload|;
      Big32Canonical(data[e..e + 4]);
      assert data[n..e + 4] == data[n..e] + data[e..e + 4];
    } else if q.kind == Data && q.tr == 0 {
      assert b == Big32(crc([]));
    }
  }

  lemma PrefixSplits(a: seq<Byte>, b: seq<Byte>, data: seq<Byte>)
    requires a <= data && |a| + |b| <= |data|
    ensures a + b <= data <==> data[|a|..|a| + |b|] == b
  {
    assert data == a + data[|a|..|a| + |b|] + data[|a| + |b|..];
    if a + b <= data {
      assert data[|a|..|a| + |b|] == (a + b)[|a|..];
    }
  }
}
