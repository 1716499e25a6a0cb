/** The file being sent, cut into chunks of 512 bytes as pread returns them. */
module Files {
  import opened Bytes
  import opened Packets
  import opened Seqnums

  type File = seq<Byte>

  /**
   * Bytes 512 * i .. 512 * i + 511 of the file; empty from the end of the file on.  A negative
   * index stands for an offset that has wrapped: pread fails and the packet keeps no payload.
   */
  function Chunk(file: File, i: int): (c: seq<Byte>)
    ensures |c| <= MAX_PAYLOAD_SIZE
  {
    if i < 0 || MAX_PAYLOAD_SIZE * i >= |file| then []
    else file[MAX_PAYLOAD_SIZE * i..Min(MAX_PAYLOAD_SIZE * (i + 1), |file|)]
  }

  function ChunkCount(file: File): nat {
    (|file| + MAX_PAYLOAD_SIZE - 1) / MAX_PAYLOAD_SIZE
  }

  /** The first n chunks. */
  function Prefix(file: File, n: nat): File {
    file[..Min(MAX_PAYLOAD_SIZE * n, |file|)]
  }

  lemma ChunkIsEmpty(file: File, i: nat)
    ensures Chunk(file, i) == [] <==> i >= ChunkCount(file)
  {
  }

  lemma PrefixGrows(file: File, n: nat)
    ensures Prefix(file, n) + Chunk(file, n) == Prefix(file, n + 1)
  {
  }

  lemma PrefixIsWhole(file: File, n: nat)
    ensures Prefix(file, n) == file <==> n >= ChunkCount(file)
  {
    if n < ChunkCount(file) {
      assert |Prefix(file, n)| < |file|;
    }
  }

  // ---- Packets of the file ----

  /** `p` is the DATA packet of index i. */
  predicate IsPart(file: File, i: int, p: Packet) {
    IsSegment(p) && p.seqnum == Seqnum(i) && p.payload == Chunk(file, i)
  }

  /** The list is the run of consecutive indices from `base`, each with its own chunk. */
  predicate Parts(file: File, base: int, list: seq<Packet>) {
    forall k :: 0 <= k < |list| ==> IsPart(file, base + k, list[k])
  }

  /** The packets are those of the indices `idx`. */
  predicate Carries(file: File, idx: seq<int>, packets: seq<Packet>) {
    |idx| == |packets| && forall k :: 0 <= k < |idx| ==> IsPart(file, idx[k], packets[k])
  }

  predicate Numbered(base: int, list: seq<Packet>) {
    forall k :: 0 <= k < |list| ==> list[k].seqnum == Seqnum(base + k)
  }

  lemma PartsAppend(file: File, base: int, a: seq<Packet>, b: seq<Packet>)
    requires Parts(file, base, a) && Parts(file, base + |a|, b)
    ensures Parts(file, base, a + b)
  {
    hide IsPart;
    forall k | 0 <= k < |a + b|
      ensures IsPart(file, base + k, (a + b)[k])
    {
      if k >= |a| {
        assert IsPart(file, base + |a| + (k - |a|), b[k - |a|]);
      }
    }
  }

  lemma PartsSlice(file: File, base: int, list: seq<Packet>, n: nat)
    requires Parts(file, base, list) && n <= |list|
    ensures Parts(file, base, list[..n]) && Parts(file, base + n, list[n..])
  {
    hide IsPart;
    forall k | 0 <= k < |list| - n
      ensures IsPart(file, base + n + k, list[n..][k])
    {
      assert IsPart(file, base + (n + k), list[n + k]);
    }
  }

  lemma PartsAreSegments(file: File, base: int, list: seq<Packet>)
    requires Parts(file, base, list)
    ensures AllSegments(list)
    ensures Numbered(base, list)
  {
  }
}
