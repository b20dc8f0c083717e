/** Byte buffers and the failure-compatible result type shared by every decoder. */
module Bytes {

  /** An unsigned 8-bit value, the source's `byte_t`. */
  newtype byte = x: int | 0 <= x < 0x100

  /** The reasons a decoder or encoder gives up instead of reading or writing out of range. */
  datatype Error =
    | Truncated                   // a read at or past the end of the valid bytes
    | InvalidAid(length: nat)     // an application identifier whose length is not 7
    | MissingAid                  // the chosen application carries no identifier
    | NoApplication(priority: byte)
    | UnresolvedPdolTag(tag: nat)
    | PdolValueTooShort(tag: nat, length: nat)
    | InvalidTrack2(length: nat)

  datatype Option<+T> = None | Some(value: T)

  datatype Result<+T> = Success(value: T) | Failure(error: Error) {
    predicate IsFailure() {
      Failure?
    }

    function PropagateFailure<U>(): Result<U>
      requires Failure?
    {
      Failure(error)
    }

    function Extract(): T
      requires Success?
    {
      value
    }
  }

  /** The byte at index `k`, or `Truncated` when `k` is past the valid bytes. */
  function At(buf: seq<byte>, k: nat): Result<byte>
  {
    if k < |buf| then Success(buf[k]) else Failure(Truncated)
  }

  /** The `n` bytes starting at index `k` (a `memcpy` source range), or `Truncated`. */
  function Take(buf: seq<byte>, k: nat, n: nat): Result<seq<byte>>
  {
    if k + n <= |buf| then Success(buf[k..k + n]) else Failure(Truncated)
  }

  function Max(a: int, b: int): int
  {
    if a < b then b else a
  }

  /** The C conversion of a non-negative integer to `byte_t`: its low eight bits. */
  function Low8(x: nat): byte
  {
    (x % 0x100) as byte
  }

  /**
    The contents of a zero-initialised character array after `memcpy(dst, src, |src|)`,
    read up to its trailing zeros: the first `|src|` bytes are replaced and any longer
    earlier contents survive behind them.
  */
  function Overlay(dst: seq<byte>, src: seq<byte>): (r: seq<byte>)
    ensures |r| == if |src| < |dst| then |dst| else |src|
    ensures r[..|src|] == src
    ensures forall k :: |src| <= k < |dst| ==> r[k] == dst[k]
  {
    if |src| < |dst| then src + dst[|src|..] else src
  }

  /** A buffer positioned on `a + b` holds `a` there and `b` right after it. */
  lemma Split(buf: seq<byte>, i: nat, a: seq<byte>, b: seq<byte>)
    requires i <= |buf| && buf[i..] == a + b
    ensures i + |a| <= |buf| && buf[i..i + |a|] == a && buf[i + |a|..] == b
  {
    assert buf[i..][..|a|] == a && buf[i..][|a|..] == b;
  }

  /** A slice holding `a + b` holds `a` first and `b` right after it. */
  lemma SplitSlice(buf: seq<byte>, i: nat, j: nat, a: seq<byte>, b: seq<byte>)
    requires i <= j <= |buf| && buf[i..j] == a + b
    ensures i + |a| <= j && buf[i..i + |a|] == a && buf[i + |a|..j] == b
  {
    assert buf[i..i + |a|] == buf[i..j][..|a|];
    assert buf[i + |a|..j] == buf[i..j][|a|..];
  }

  /** Number of occurrences of `b` in `s`. */
  function Count(s: seq<byte>, b: byte): nat
  {
    if s == [] then 0 else (if s[0] == b then 1 else 0) + Count(s[1..], b)
  }
}
