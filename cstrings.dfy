/**
 * The two C library string routines the firmware relies on: `strlen` (to test
 * whether an SSID is configured) and `strncpy` (to copy credentials into the
 * fixed-size buffers of a WiFi configuration).
 *
 * A C string is modelled as the characters that can be read from its address;
 * reading past the end of the sequence reads the terminating NUL.
 */
module CStrings {
  const NUL: char := 0 as char

  /** Length of the C string held in `buf`: the index of its first NUL, or |buf|
      when the buffer holds none (the model never reads past the buffer). */
  function StrLen(buf: seq<char>): (n: nat)
    ensures n <= |buf|
    ensures forall i :: 0 <= i < n ==> buf[i] != NUL
    ensures n < |buf| ==> buf[n] == NUL
  {
    if |buf| == 0 || buf[0] == NUL then 0 else 1 + StrLen(buf[1..])
  }

  /** `strncpy(dst, src, n)`: copies `src` up to its terminator but never more
      than `n` characters, then pads with NUL up to exactly `n` characters. When
      `src` has `n` or more characters no terminator is written. */
  function StrNCpy(src: seq<char>, n: nat): (r: seq<char>)
    ensures |r| == n
    decreases n
  {
    if n == 0 then []
    else if |src| == 0 || src[0] == NUL then [NUL] + StrNCpy([], n - 1)
    else [src[0]] + StrNCpy(src[1..], n - 1)
  }

  function Min(a: nat, b: nat): nat { if a <= b then a else b }

  /** Character `i` of the destination is the source's character while the
      source string lasts, and NUL after it. */
  lemma {:induction false} StrNCpyAt(src: seq<char>, n: nat, i: nat)
    requires i < n
    ensures StrNCpy(src, n)[i] == if i < StrLen(src) then src[i] else NUL
    decreases n
  {
    if |src| == 0 || src[0] == NUL {
      if i > 0 {
        StrNCpyAt([], n - 1, i - 1);
      }
    } else if i > 0 {
      StrNCpyAt(src[1..], n - 1, i - 1);
    }
  }

  /** The copied string is the source string truncated to `n` characters. */
  lemma StrNCpyLength(src: seq<char>, n: nat)
    ensures StrLen(StrNCpy(src, n)) == Min(StrLen(src), n)
  {
    var r := StrNCpy(src, n);
    var k := Min(StrLen(src), n);
    forall i | 0 <= i < k ensures r[i] != NUL {
      StrNCpyAt(src, n, i);
    }
    if k < n {
      StrNCpyAt(src, n, k);
    }
    StrLenIsFirstNul(r, k);
  }

  /** The destination holds a terminator exactly when the source string is
      shorter than the buffer: a source of `n` or more characters leaves the
      buffer unterminated. */
  lemma StrNCpyTerminatedIff(src: seq<char>, n: nat)
    ensures NUL in StrNCpy(src, n) <==> StrLen(src) < n
  {
    var r := StrNCpy(src, n);
    if StrLen(src) < n {
      StrNCpyAt(src, n, StrLen(src));
      assert r[StrLen(src)] == NUL;
    } else {
      forall i | 0 <= i < n ensures r[i] != NUL {
        StrNCpyAt(src, n, i);
      }
    }
  }

  /** Copying a copy changes nothing: the two `strncpy` calls a credential goes
      through (request to queue message, queue message to configuration) act as one. */
  lemma StrNCpyIdempotent(src: seq<char>, n: nat)
    ensures StrNCpy(StrNCpy(src, n), n) == StrNCpy(src, n)
  {
    var r := StrNCpy(src, n);
    StrNCpyLength(src, n);
    forall i | 0 <= i < n ensures StrNCpy(r, n)[i] == r[i] {
      StrNCpyAt(r, n, i);
      StrNCpyAt(src, n, i);
    }
  }

  /** Any buffer whose first NUL sits at `k` (or that has none and length `k`)
      has string length `k`. */
  lemma {:induction false} StrLenIsFirstNul(buf: seq<char>, k: nat)
    requires k <= |buf|
    requires forall i :: 0 <= i < k ==> buf[i] != NUL
    requires k < |buf| ==> buf[k] == NUL
    ensures StrLen(buf) == k
  {
    if k > 0 {
      StrLenIsFirstNul(buf[1..], k - 1);
    }
  }
}
