/**
 * src/packet_implem.c: the packet structure, its setters, and the codec.
 *
 * `Packet` is the value of a `struct pkt`; `Pkt` is the structure itself, which the
 * setters and the decoder update in place.  A NULL payload is the empty sequence.
 */
module Packets {
  import opened Bytes

  const MAX_PAYLOAD_SIZE := 512
  const MAX_WINDOW_SIZE := 31
  const PKT_MAX_LEN := 528

  datatype Kind = Fec | Data | Ack | Nack

  datatype Status = Ok | BadType | BadTr | BadLength | BadCrc | BadWindow | NoMem | NoHeader | Unconsistent

  datatype Packet = Packet(kind: Kind, tr: Bit, window: Byte, length: Half, seqnum: Byte,
                           timestamp: Word, crc1: Word, payload: seq<Byte>, crc2: Word)

  type Wire = seq<Byte>

  /** The buffer a datagram is read into. */
  type Buffer = b: seq<Byte> | |b| == PKT_MAX_LEN witness seq(PKT_MAX_LEN, i => 0)

  /** pkt_new */
  const BLANK := Packet(Fec, 0, 0, 0, 0, 0, 0, [], 0)

  function Code(kind: Kind): Byte {
    match kind
    case Fec => 0
    case Data => 1
    case Ack => 2
    case Nack => 3
  }

  function KindOf(code: Byte): Kind
    requires code < 4
  {
    if code == 0 then Fec else if code == 1 then Data else if code == 2 then Ack else Nack
  }

  predicate CarriesLength(kind: Kind) {
    kind == Data || kind == Fec
  }

  /** predict_header_length */
  function HeaderLength(kind: Kind): nat {
    if CarriesLength(kind) then 8 else 6
  }

  /** Bit 5 of the first byte. */
  function TrBit(b: Byte): Bit {
    b / 32 % 2
  }

  /** The first byte masked with 0b11011111. */
  function ClearTr(b: Byte): Byte {
    b - 32 * TrBit(b)
  }

  function ClearHeaderTr(header: seq<Byte>): (h: seq<Byte>)
    requires header != []
    ensures |h| == |header|
  {
    [ClearTr(header[0])] + header[1..]
  }

  /** What pkt_encode may be given: the field ranges, and a payload as long as it copies. */
  predicate Encodable(p: Packet) {
    && p.window <= MAX_WINDOW_SIZE
    && (p.tr == 1 ==> p.kind == Data)
    && (p.kind == Data ==> p.length <= MAX_PAYLOAD_SIZE)
    && (p.kind == Data && p.tr == 0 ==> |p.payload| == p.length)
    && (p.kind == Fec ==> |p.payload| == MAX_PAYLOAD_SIZE)
  }

  /** The DATA packets the window and the queue hold: complete, and consistent with their length. */
  predicate IsSegment(p: Packet) {
    Encodable(p) && p.kind == Data && p.tr == 0
  }

  predicate AllEncodable(ps: seq<Packet>) {
    forall k :: 0 <= k < |ps| ==> Encodable(ps[k])
  }

  predicate AllSegments(list: seq<Packet>): (b: bool)
    ensures b ==> AllEncodable(list)
  {
    forall k :: 0 <= k < |list| ==> IsSegment(list[k])
  }

  // ---- Encoding ----

  function LengthField(p: Packet): seq<Byte> {
    if p.kind == Data then Big16(p.length)
    else if p.kind == Fec then Big16(MAX_PAYLOAD_SIZE)
    else []
  }

  /** The header with its TR bit cleared, which is what the first checksum covers. */
  function Header(p: Packet): (h: seq<Byte>)
    requires Encodable(p)
    ensures |h| == HeaderLength(p.kind)
  {
    [Code(p.kind) * 64 + p.window] + LengthField(p) + [p.seqnum] + Little32(p.timestamp)
  }

  /** The header of `p` with TR bit `t`, followed by its checksum. */
  function SealedHeader(crc: Checksum, p: Packet, t: Bit): (w: seq<Byte>)
    requires Encodable(p)
    ensures |w| == HeaderLength(p.kind) + 4
  {
    (Header(p) + Big32(crc(Header(p))))[0 := Header(p)[0] + 32 * t]
  }

  function Body(crc: Checksum, p: Packet): seq<Byte> {
    if p.kind == Fec || (p.kind == Data && p.tr == 0) then p.payload + Big32(crc(p.payload)) else []
  }

  /** The bytes pkt_encode produces. */
  function WireForm(crc: Checksum, p: Packet): (w: Wire)
    requires Encodable(p)
    ensures HeaderLength(p.kind) + 4 <= |w| <= PKT_MAX_LEN
    ensures |w| == HeaderLength(p.kind) + 4 + |Body(crc, p)|
  {
    SealedHeader(crc, p, p.tr) + Body(crc, p)
  }

  /** Packets as they go over the wire. */
  function Wires(crc: Checksum, ps: seq<Packet>): (ws: seq<Wire>)
    requires AllEncodable(ps)
    ensures |ws| == |ps|
    ensures forall k :: 0 <= k < |ps| ==> ws[k] == WireForm(crc, ps[k])
  {
    seq(|ps|, k requires 0 <= k < |ps| => WireForm(crc, ps[k]))
  }

  /** The size pkt_encode compares with the room it is given. */
  function CheckedSize(p: Packet): nat {
    HeaderLength(p.kind)
    + (if p.kind == Data && p.length != 0 then p.length + 4
       else if p.kind == Fec then MAX_PAYLOAD_SIZE + 4
       else 0)
    + 4
  }

  // ---- Decoding ----

  /** The payload bytes that follow a header: FEC ignores its length. */
  function BodySize(kind: Kind, length: nat): nat {
    if kind == Fec then MAX_PAYLOAD_SIZE else length
  }

  /** Where what the first three bytes announce ends; an empty DATA packet ends with its header. */
  function Extent(data: seq<Byte>): (n: nat)
    requires data != []
    ensures n <= PKT_MAX_LEN
  {
    var kind := KindOf(data[0] / 64);
    if TrBit(data[0]) == 1 && kind != Data then 1
    else if !CarriesLength(kind) then 10
    else if |data| < 3 || FromBig16(data[1..3]) > MAX_PAYLOAD_SIZE then 3
    else if kind == Data && FromBig16(data[1..3]) == 0 then 12
    else 16 + BodySize(kind, FromBig16(data[1..3]))
  }

  /** What pkt_decode asks of its caller: it reads what is announced, whatever length was received. */
  predicate Readable(data: seq<Byte>, len: nat) {
    len >= 10 ==> data != [] && Extent(data) <= |data|
  }

  /** pkt_decode on a structure holding `p`: the status and what the structure then holds. */
  function DecodeInto(crc: Checksum, data: seq<Byte>, len: nat, p: Packet): (Status, Packet)
    requires Readable(data, len)
  {
    if len == 0 then (Unconsistent, p)
    else if len < 6 then (NoHeader, p)
    else if len < 10 then (BadCrc, p)
    else
      var p1 := p.(kind := KindOf(data[0] / 64));
      if TrBit(data[0]) == 1 && p1.kind != Data then (BadTr, p1)
      else
        var p2 := p1.(tr := TrBit(data[0]), window := data[0] % 32);
        if !CarriesLength(p2.kind) then DecodeFields(crc, data, len, 1, p2)
        else
          var length := FromBig16(data[1..3]);
          if length > MAX_PAYLOAD_SIZE then (BadLength, p2)
          else if length + 32 < len then (Unconsistent, p2.(length := length))
          else DecodeFields(crc, data, len, 3, p2.(length := length))
  }

  /** Sequence number, timestamp and header checksum, starting at `offset`. */
  function DecodeFields(crc: Checksum, data: seq<Byte>, len: nat, offset: nat, p: Packet): (Status, Packet)
    requires offset + 9 == HeaderLength(p.kind) + 4 <= |data|
    requires CarriesLength(p.kind) ==> p.length <= MAX_PAYLOAD_SIZE
    requires CarriesLength(p.kind) && !(p.kind == Data && p.length == 0) ==> 16 + BodySize(p.kind, p.length) <= |data|
  {
    var found := FromBig32(data[offset + 5..offset + 9]);
    var computed := crc(ClearHeaderTr(data[..HeaderLength(p.kind)]));
    var p1 := p.(seqnum := data[offset], timestamp := FromLittle32(data[offset + 1..offset + 5]), crc1 := computed);
    if computed != found then (BadCrc, p1)
    else if !CarriesLength(p.kind) || (p.kind == Data && p.length == 0) then (Ok, p1)
    else if MAX_PAYLOAD_SIZE + 32 < len then (Unconsistent, p1)
    else DecodeBody(crc, data, offset + 9, p1)
  }

  /** Payload and payload checksum. */
  function DecodeBody(crc: Checksum, data: seq<Byte>, offset: nat, p: Packet): (Status, Packet)
    requires p.kind == Fec || p.kind == Data
    requires offset + BodySize(p.kind, p.length) + 4 <= |data| && p.length <= MAX_PAYLOAD_SIZE
  {
    var end := offset + BodySize(p.kind, p.length);
    var p1 := p.(payload := data[offset..end]);
    if p1.length == 0 || p1.tr == 1 then (BadCrc, p1)
    else
      var p2 := p1.(crc2 := FromBig32(data[end..end + 4]));
      (if crc(p2.payload) != p2.crc2 then BadCrc else Ok, p2)
  }

  /** memcpy into a buffer. */
  method Copy(dst: array<Byte>, at: nat, src: seq<Byte>)
    requires at + |src| <= dst.Length
    modifies dst
    ensures dst[..at + |src|] == old(dst[..at]) + src
    ensures forall i :: at + |src| <= i < dst.Length ==> dst[i] == old(dst[i])
  {
    for i := 0 to |src|
      invariant dst[..at + i] == old(dst[..at]) + src[..i]
      invariant forall k :: at + i <= k < dst.Length ==> dst[k] == old(dst[k])
    {
      dst[at + i] := src[i];
    }
  }

  class Pkt {
    var kind: Kind
    var tr: Bit
    var window: Byte
    var length: Half
    var seqnum: Byte
    var timestamp: Word
    var crc1: Word
    var payload: seq<Byte>
    var crc2: Word

    function View(): Packet
      reads this
    {
      Packet(kind, tr, window, length, seqnum, timestamp, crc1, payload, crc2)
    }

    constructor ()
      ensures View() == BLANK
    {
      kind, tr, window, length, seqnum := Fec, 0, 0, 0, 0;
      timestamp, crc1, payload, crc2 := 0, 0, [], 0;
    }

    /** A structure that already holds `p`. */
    constructor Holding(p: Packet)
      ensures View() == p
    {
      kind, tr, window, length, seqnum := p.kind, p.tr, p.window, p.length, p.seqnum;
      timestamp, crc1, payload, crc2 := p.timestamp, p.crc1, p.payload, p.crc2;
    }

    method SetType(code: Byte) returns (st: Status)
      modifies this
      ensures st == if code < 4 then Ok else BadType
      ensures View() == if code < 4 then old(View()).(kind := KindOf(code)) else old(View())
    {
      if code != 0 && code != 1 && code != 2 && code != 3 {
        return BadType;
      }
      kind := KindOf(code);
      return Ok;
    }

    method SetTr(bit: Byte) returns (st: Status)
      modifies this
      ensures st == if bit == 0 || (bit == 1 && kind == Data) then Ok else BadTr
      ensures View() == if st == Ok then old(View()).(tr := bit) else old(View())
    {
      if bit != 0 && bit != 1 {
        return BadTr;
      }
      if bit == 1 && kind != Data {
        return BadTr;
      }
      tr := bit;
      return Ok;
    }

    method SetWindow(w: Byte) returns (st: Status)
      modifies this
      ensures st == if w <= MAX_WINDOW_SIZE then Ok else BadWindow
      ensures View() == if st == Ok then old(View()).(window := w) else old(View())
    {
      if w > MAX_WINDOW_SIZE {
        return BadWindow;
      }
      window := w;
      return Ok;
    }

    method SetSeqnum(s: Byte)
      modifies this
      ensures View() == old(View()).(seqnum := s)
    {
      seqnum := s;
    }

    method SetLength(l: Half) returns (st: Status)
      modifies this
      ensures st == if CarriesLength(kind) && l <= MAX_PAYLOAD_SIZE then Ok else BadLength
      ensures View() == if st == Ok then old(View()).(length := l) else old(View())
    {
      if (kind != Data && kind != Fec) || l > MAX_PAYLOAD_SIZE {
        return BadLength;
      }
      length := l;
      return Ok;
    }

    method SetTimestamp(t: Word)
      modifies this
      ensures View() == old(View()).(timestamp := t)
    {
      timestamp := t;
    }

    method SetCrc1(c: Word)
      modifies this
      ensures View() == old(View()).(crc1 := c)
    {
      crc1 := c;
    }

    method SetCrc2(c: Word) returns (st: Status)
      modifies this
      ensures st == if length == 0 || tr == 1 then BadCrc else Ok
      ensures View() == if st == Ok then old(View()).(crc2 := c) else old(View())
    {
      if length == 0 || tr == 1 {
        return BadCrc;
      }
      crc2 := c;
      return Ok;
    }

    /** `data[from..]` is what the C pointer argument points at. */
    method SetPayload(data: array<Byte>, from: nat, l: Half) returns (st: Status)
      requires kind == Data && l <= MAX_PAYLOAD_SIZE ==> from + l <= data.Length
      requires kind == Fec ==> from + MAX_PAYLOAD_SIZE <= data.Length
      modifies this
      ensures st == if old(kind) == Data && l > MAX_PAYLOAD_SIZE then BadLength else Ok
      ensures View() ==
              if st != Ok then old(View())
              else if old(kind) == Data then old(View()).(length := l, payload := data[from..from + l])
              else if old(kind) == Fec then old(View()).(payload := data[from..from + MAX_PAYLOAD_SIZE])
              else old(View())
    {
      if kind == Data {
        st := SetLength(l);
        if st != Ok {
          return BadLength;
        }
      }
      if kind == Data {
        payload := data[from..from + l];
      }
      if kind == Fec {
        payload := data[from..from + MAX_PAYLOAD_SIZE];
      }
      return Ok;
    }

    /** pkt_decode */
    method Decode(crc: Checksum, data: array<Byte>, len: nat) returns (st: Status)
      requires Readable(data[..], len)
      modifies this
      ensures (st, View()) == DecodeInto(crc, data[..], len, old(View()))
    {
      if len == 0 {
        return Unconsistent;
      }
      if len < 6 {
        return NoHeader;
      }
      if len < 10 {
        return BadCrc;
      }
      st := SetType(data[0] / 64);
      st := SetTr(TrBit(data[0]));
      if st != Ok {
        return;
      }
      st := SetWindow(data[0] % 32);
      var offset := 1;
      if kind == Data || kind == Fec {
        assert data[..][1..3] == data[1..3];
        var l := FromBig16(data[1..3]);
        st := SetLength(l);
        if st != Ok {
          return;
        }
        offset := offset + 2;
        if l + 32 < len {
          return Unconsistent;
        }
      }
      st := DecodeRest(crc, data, len, offset);
    }

    /** The part of pkt_decode after the length field. */
    method DecodeRest(crc: Checksum, data: array<Byte>, len: nat, start: nat) returns (st: Status)
      requires start == HeaderLength(kind) - 5 && HeaderLength(kind) + 4 <= data.Length
      requires CarriesLength(kind) ==> length <= MAX_PAYLOAD_SIZE
      requires CarriesLength(kind) && !(kind == Data && length == 0) ==> 16 + BodySize(kind, length) <= data.Length
      modifies this
      ensures (st, View()) == DecodeFields(crc, data[..], len, start, old(View()))
    {
      ghost var d := data[..];
      var offset := start;
      SetSeqnum(data[offset]);
      offset := offset + 1;
      assert d[offset..offset + 4] == data[offset..offset + 4];
      SetTimestamp(FromLittle32(data[offset..offset + 4]));
      offset := offset + 4;
      assert d[offset..offset + 4] == data[offset..offset + 4];
      var found := FromBig32(data[offset..offset + 4]);
      offset := offset + 4;
      SetCrc1(found);
      var computed := HeaderChecksum(crc, data);
      SetCrc1(computed);
      if computed != found {
        return BadCrc;
      }
      if kind == Ack || kind == Nack || (kind == Data && length == 0) {
        return Ok;
      }
      if MAX_PAYLOAD_SIZE + 32 < len {
        return Unconsistent;
      }
      st := DecodePayload(crc, data, offset);
    }

    /** The checksum of a copy of the header with TR cleared. */
    method HeaderChecksum(crc: Checksum, data: array<Byte>) returns (computed: Word)
      requires HeaderLength(kind) <= data.Length
      ensures computed == crc(ClearHeaderTr(data[..][..HeaderLength(kind)]))
    {
      var headerLen := HeaderLength(kind);
      var header := new Byte[headerLen](i requires 0 <= i < headerLen reads data => data[i]);
      assert header[..] == data[..][..headerLen];
      header[0] := ClearTr(header[0]);
      assert header[..] == ClearHeaderTr(data[..][..headerLen]);
      computed := crc(header[..]);
    }

    /** The part of pkt_decode after the header. */
    method DecodePayload(crc: Checksum, data: array<Byte>, start: nat) returns (st: Status)
      requires (kind == Fec || kind == Data) && length <= MAX_PAYLOAD_SIZE
      requires start + BodySize(kind, length) + 4 <= data.Length
      modifies this
      ensures (st, View()) == DecodeBody(crc, data[..], start, old(View()))
    {
      ghost var d := data[..];
      var offset := start + BodySize(kind, length);
      assert d[start..offset] == data[start..offset];
      assert d[offset..offset + 4] == data[offset..offset + 4];
      st := SetPayload(data, start, length);
      if st != Ok {
        return;
      }
      var found := FromBig32(data[offset..offset + 4]);
      st := SetCrc2(found);
      if st != Ok {
        return;
      }
      assert payload[..if kind == Fec then MAX_PAYLOAD_SIZE else length] == payload;
      if kind == Fec && crc(payload[..MAX_PAYLOAD_SIZE]) != found {
        return BadCrc;
      } else if kind == Data && tr == 0 && crc(payload[..length]) != found {
        return BadCrc;
      }
      return Ok;
    }

    /**
     * pkt_encode.  The size check counts 12 bytes for an empty untruncated DATA packet,
     * of which 16 are written: then the buffer must be longer than the room announced.
     */
    method Encode(crc: Checksum, buf: array<Byte>, room: nat) returns (st: Status, len: nat)
      requires Encodable(View())
      requires room <= buf.Length
      requires kind == Data && tr == 0 && length == 0 ==> room < CheckedSize(View()) || 16 <= buf.Length
      modifies buf
      ensures st == if CheckedSize(View()) > room then NoMem else Ok
      ensures st == NoMem ==> len == room && buf[..] == old(buf[..])
      ensures st == Ok ==> len == |WireForm(crc, View())| <= buf.Length
      ensures st == Ok ==> buf[..len] == WireForm(crc, View())
      ensures forall i :: len <= i < buf.Length ==> buf[i] == old(buf[i])
    {
      var size: int := HeaderLength(kind);
      if kind == Data && length != 0 {
        size := size + length + 4;
      } else if kind == Fec {
        size := size + MAX_PAYLOAD_SIZE + 4;
      }
      size := size + 4;
      if size > room {
        return NoMem, room;
      }
      len := EncodeHeader(crc, buf);
      st := Ok;
      if kind == Ack || kind == Nack {
        return;
      }
      if kind == Data && tr == 0 {
        assert payload[..length] == payload;
        len := EncodePayload(crc, buf, len, payload[..length]);
      } else if kind == Fec {
        len := EncodePayload(crc, buf, len, payload);
      }
    }

    /** memcpy of the payload, then its checksum computed over the copy. */
    static method EncodePayload(crc: Checksum, buf: array<Byte>, at: nat, data: seq<Byte>) returns (len: nat)
      requires at + |data| + 4 <= buf.Length
      modifies buf
      ensures len == at + |data| + 4
      ensures buf[..len] == old(buf[..at]) + (data + Big32(crc(data)))
      ensures forall i :: len <= i < buf.Length ==> buf[i] == old(buf[i])
    {
      Copy(buf, at, data);
      assert buf[at..at + |data|] == buf[..at + |data|][at..] == data;
      var crc2 := crc(buf[at..at + |data|]);
      len := at + |data|;
      Copy(buf, len, Big32(crc2));
      len := len + 4;
    }

    /** The part of pkt_encode up to the header checksum and the TR bit. */
    method EncodeHeader(crc: Checksum, buf: array<Byte>) returns (len: nat)
      requires Encodable(View())
      requires HeaderLength(kind) + 4 <= buf.Length
      modifies buf
      ensures len == HeaderLength(kind) + 4
      ensures buf[..len] == SealedHeader(crc, View(), tr)
      ensures forall i :: len <= i < buf.Length ==> buf[i] == old(buf[i])
    {
      len := EncodeFields(buf);
      ghost var h := Header(View());
      assert buf[0] == buf[..len][0] == h[0];
      buf[0] := ClearTr(buf[0]);
      assert buf[..len] == h;
      var crc1 := crc(buf[..HeaderLength(kind)]);
      Copy(buf, len, Big32(crc1));
      len := len + 4;
      assert buf[0] == buf[..len][0] == h[0];
      buf[0] := buf[0] + 32 * tr;
    }

    /** The header fields, TR bit 0. */
    method EncodeFields(buf: array<Byte>) returns (len: nat)
      requires Encodable(View())
      requires HeaderLength(kind) <= buf.Length
      modifies buf
      ensures len == HeaderLength(kind)
      ensures buf[..len] == Header(View())
      ensures forall i :: len <= i < buf.Length ==> buf[i] == old(buf[i])
    {
      buf[0] := Code(kind) * 64;
      buf[0] := buf[0] + window;
      len := 1;
      if kind == Data {
        Copy(buf, len, Big16(length));
        len := len + 2;
      }
      if kind == Fec {
        Copy(buf, len, Big16(MAX_PAYLOAD_SIZE));
        len := len + 2;
      }
      Copy(buf, len, [seqnum]);
      len := len + 1;
      Copy(buf, len, Little32(timestamp));
      len := len + 4;
    }
  }
}
