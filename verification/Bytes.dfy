/** Types and small helpers that every component of the model shares. */
module Bytes {
  type byte = x: int | 0 <= x < 256

  datatype Option<+T> = None | Some(value: T)

  function Min(a: int, b: int): (r: int) {
    if a < b then a else b
  }

  function Max(a: int, b: int): (r: int) {
    if a < b then b else a
  }

  /** `d` with `bytes` written from position `at` on. */
  function Overwritten(d: seq<byte>, at: nat, bytes: seq<byte>): (r: seq<byte>)
    requires at + |bytes| <= |d|
    ensures |r| == |d|
  {
    d[..at] + bytes + d[at + |bytes|..]
  }

  /** memcpy into an array. */
  method CopyBytes(dst: array<byte>, at: nat, bytes: seq<byte>)
    requires at + |bytes| <= dst.Length
    modifies dst
    ensures dst[..] == Overwritten(old(dst[..]), at, bytes)
  {
    forall i | 0 <= i < |bytes| {
      dst[at + i] := bytes[i];
    }
  }

  /** Appending the first `n` bytes of a request and then `more` of the rest is appending `n + more` of them. */
  lemma AppendMore(q: seq<byte>, request: seq<byte>, n: nat, limit: nat, more: nat)
    requires n + more <= limit <= |request|
    ensures q + request[..n] + request[n..limit][..more] == q + request[..n + more]
  {
    assert request[..n + more] == request[..n] + request[n..limit][..more];
  }

  /** A list without repetition has as many elements as the set of them. */
  lemma {:induction false} DistinctCardinality(h: seq<int>)
    requires forall a, b :: 0 <= a < b < |h| ==> h[a] != h[b]
    ensures |set x | x in h| == |h|
  {
    if h == [] {
    } else {
      var g := h[..|h| - 1];
      DistinctCardinality(g);
      assert (set x | x in h) == (set x | x in g) + {h[|h| - 1]};
    }
  }

  function LowInts(n: nat): (s: set<int>)
    ensures forall x :: x in s <==> 0 <= x < n
    ensures |s| == n
  {
    if n == 0 then {} else LowInts(n - 1) + {n - 1}
  }
}
