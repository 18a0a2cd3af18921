/** Vocabulary shared by the whole model: an optional value, and the arithmetic
    of Go's `time.Duration` (a signed 64-bit count of nanoseconds). */
module Common {

  /** A value that may be absent. */
  datatype Option<+T> = None | Some(value: T)

  /** `time.Millisecond` and `time.Second`, in nanoseconds. */
  const Millisecond: int := 1_000_000
  const Second: int := 1_000_000_000

  /** HTTP 200, the success status of both the probe and the webhook. */
  const StatusOK: int := 200

  const MinInt64: int := -0x8000_0000_0000_0000
  const MaxInt64: int := 0x7fff_ffff_ffff_ffff
  const TwoTo64: int := 0x1_0000_0000_0000_0000

  predicate InInt64(x: int) {
    MinInt64 <= x <= MaxInt64
  }

  /** The value a Go `int64` computation holds when the exact result is `x`:
      two's-complement wrap-around into the 64-bit range. */
  function WrapInt64(x: int): (r: int)
    ensures InInt64(r)
    ensures (x - r) % TwoTo64 == 0
    ensures InInt64(x) ==> r == x
  {
    var q := (x - MinInt64) / TwoTo64;
    var r := (x - MinInt64) % TwoTo64 + MinInt64;
    assert x - MinInt64 == q * TwoTo64 + (r - MinInt64);
    assert x - r == q * TwoTo64;
    r
  }

  /** `1 << i`. */
  function Pow2(i: nat): (r: nat)
    ensures r >= 1
  {
    if i == 0 then 1 else 2 * Pow2(i - 1)
  }

  lemma MulBounds(k: int, d: int)
    requires d > 0
    ensures k >= 1 ==> k * d >= d
    ensures k <= -1 ==> k * d <= -d
  {
  }

  /** Euclidean division has one quotient and one remainder. */
  lemma DivModUnique(n: int, d: int, q: int, r: int)
    requires d > 0 && 0 <= r < d && n == q * d + r
    ensures n / d == q && n % d == r
  {
    var q', r' := n / d, n % d;
    assert n == q' * d + r' && 0 <= r' < d;
    assert (q - q') * d == r' - r;
    MulBounds(q - q', d);
  }
}
