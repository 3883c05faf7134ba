/** The C library copies the two state machines rely on, as functions on the
    bytes they write. */
module LibC {

  /** `n` zero bytes, what `memset(p, 0, n)` leaves behind. */
  function Zeros(n: nat): (r: seq<bv8>)
    ensures |r| == n && forall i | 0 <= i < n :: r[i] == 0
  {
    seq(n, _ => 0 as bv8)
  }

  /** No byte of `src` at or before position `i` is the terminating zero. */
  predicate NoZeroThrough(src: seq<bv8>, i: int) {
    forall j | 0 <= j <= i && j < |src| :: src[j] != 0
  }

  /** The `n` bytes `strncpy(dst, src, n)` writes into `dst`. `strncpy` reads
      `src` only up to its first zero byte, so the caller must either make `n`
      bytes readable or put a zero byte among them. */
  function StrNCopy(src: seq<bv8>, n: nat): (r: seq<bv8>)
    requires n <= |src| || 0 in src
    ensures |r| == n
    // copying stops at the first zero byte and the rest is zero-filled
    ensures forall i | 0 <= i < n ::
      r[i] == if i < |src| && NoZeroThrough(src, i) then src[i] else 0
    decreases n
  {
    if n == 0 then []
    else if src[0] == 0 then Zeros(n)
    else
      assert 0 in src ==> 0 in src[1..] by {
        if 0 in src {
          var j :| 0 <= j < |src| && src[j] == 0;
          assert src[1..][j - 1] == 0;
        }
      }
      var rest := StrNCopy(src[1..], n - 1);
      CopyStep(src, n, rest);
      [src[0]] + rest
  }

  /** A nonzero first byte followed by the copy of the rest is the copy. */
  lemma CopyStep(src: seq<bv8>, n: nat, rest: seq<bv8>)
    requires 0 < n && 0 < |src| && src[0] != 0 && |rest| == n - 1
    requires forall i | 0 <= i < n - 1 ::
      rest[i] == if i < |src| - 1 && NoZeroThrough(src[1..], i) then src[1..][i] else 0
    ensures forall i | 0 <= i < n ::
      ([src[0]] + rest)[i] == if i < |src| && NoZeroThrough(src, i) then src[i] else 0
  {
    forall i | 0 < i < n
      ensures ([src[0]] + rest)[i] == if i < |src| && NoZeroThrough(src, i) then src[i] else 0
    {
      assert ([src[0]] + rest)[i] == rest[i - 1];
      assert NoZeroThrough(src, i) <==> NoZeroThrough(src[1..], i - 1) by {
        if NoZeroThrough(src[1..], i - 1) {
          forall j | 0 <= j <= i && j < |src| ensures src[j] != 0 {
            if j > 0 {
              assert src[1..][j - 1] == src[j];
            }
          }
        }
      }
    }
  }

  /** `strncpy` copies a source with no zero byte in its first `n` bytes
      unchanged, as `memcpy` would. */
  lemma {:induction false} StrNCopyWithoutZero(src: seq<bv8>, n: nat)
    requires n <= |src| && 0 !in src[..n]
    ensures StrNCopy(src, n) == src[..n]
  {
    var r := StrNCopy(src, n);
    forall i | 0 <= i < n ensures r[i] == src[i] {
      assert NoZeroThrough(src, i) by {
        forall j | 0 <= j <= i && j < |src| ensures src[j] != 0 {
          assert src[..n][j] == src[j];
        }
      }
    }
  }

  /** `memset(dst, 0, dst.Length)`. */
  method MemsetZero(dst: array<bv8>)
    modifies dst
    ensures dst[..] == Zeros(dst.Length)
  {
    forall i | 0 <= i < dst.Length {
      dst[i] := 0;
    }
  }

  /** `memcpy(dst, src, n)`: the first `n` bytes of `dst` become those of `src`. */
  method MemCpy(dst: array<bv8>, src: seq<bv8>, n: nat)
    requires n <= dst.Length && n <= |src|
    modifies dst
    ensures dst[..] == src[..n] + old(dst[..])[n..]
  {
    forall i | 0 <= i < n {
      dst[i] := src[i];
    }
    assert dst[..] == src[..n] + old(dst[..])[n..];
  }

  /** `strncpy(dst, src, n)`: the first `n` bytes of `dst` become `StrNCopy(src, n)`. */
  method StrNCpy(dst: array<bv8>, src: seq<bv8>, n: nat)
    requires n <= dst.Length && (n <= |src| || 0 in src)
    modifies dst
    ensures dst[..] == StrNCopy(src, n) + old(dst[..])[n..]
  {
    var copied := StrNCopy(src, n);
    MemCpy(dst, copied, n);
  }
}
