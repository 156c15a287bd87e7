/** Bytes, and what the C code's "resume a short write" paths put on the wire. */
module Bytes {
  newtype byte = b: int | 0 <= b < 256

  /** A buffer after `memset(buf, 0, n)`. */
  function Zeros(n: nat): (z: seq<byte>)
    ensures |z| == n
  {
    seq(n, _ => 0)
  }

  predicate AllZero(s: seq<byte>) {
    forall i :: 0 <= i < |s| ==> s[i] == 0
  }

  /** `memset(a, 0, sizeof a)`. */
  method Clear(a: array<byte>)
    modifies a
    ensures AllZero(a[..])
  {
    forall i | 0 <= i < a.Length { a[i] := 0; }
  }

  /** `memcpy` of `b` into a cleared array at `n`, the array's last byte included. */
  method CopyTo(a: array<byte>, n: nat, b: seq<byte>)
    requires n + |b| <= a.Length && AllZero(a[..])
    modifies a
    ensures n + |b| == a.Length ==> a[..] == Zeros(n) + b
  {
    ghost var before := a[..];
    forall i | 0 <= i < |b| { a[n + i] := b[i]; }
    assert forall i :: 0 <= i < n ==> a[i] == before[i];
  }

  /** A resume buffer: cleared below `at`; from `at` on each byte is the source's own, or still cleared. */
  ghost predicate ResumeBuffer(buf: seq<byte>, src: seq<byte>, at: nat, n: nat)
    requires n <= |buf| && at + n <= |src|
  {
    forall i :: 0 <= i < n ==> buf[i] == 0 || (at <= i && buf[i] == src[i])
  }

  /**
   * Both programs resume a short write from offset 0 of such a buffer, not from `at`.  The bytes
   * that leave are the bytes that were due exactly when every byte due is zero.
   */
  lemma {:induction false} ResumeSendsDueBytesIffZero(buf: seq<byte>, src: seq<byte>, at: nat, n: nat)
    requires 0 < at && n <= |buf| && at + n <= |src|
    requires ResumeBuffer(buf, src, at, n)
    ensures buf[..n] == src[at..at + n] <==> AllZero(src[at..at + n])
  {
    var due := src[at..at + n];
    if buf[..n] == due {
      for k := 0 to n
        invariant forall i :: 0 <= i < k ==> due[i] == 0
      {
        assert buf[k] == buf[..n][k] == due[k];
        assert at <= k ==> src[k] == due[k - at];
      }
    }
    if AllZero(due) {
      forall i | at <= i < n ensures src[i] == 0 {
        assert src[i] == due[i - at];
      }
    }
  }
}
