/** Insertion and deletion in the middle of a sequence, and sequences counted in one byte. */
module Seqs {

  function InsertAt<T>(s: seq<T>, k: nat, x: T): seq<T>
    requires k <= |s|
  {
    s[..k] + [x] + s[k..]
  }

  function RemoveAt<T>(s: seq<T>, k: nat): seq<T>
    requires k < |s|
  {
    s[..k] + s[k + 1..]
  }

  /** What a list with a one-byte size holds after one more node: the 256th makes the size 0. */
  function Counted<T>(s: seq<T>): seq<T> {
    if |s| == 256 then [] else s
  }

  lemma Associate<T>(a: seq<T>, b: seq<T>, c: seq<T>)
    ensures (a + b) + c == a + (b + c)
  {
  }
}
