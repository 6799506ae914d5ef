/** 32-bit sequence numbers and the circular comparisons of RFC 1982, against unbounded stream positions. */
module SeqNum {

  const MODULUS: int := 0x1_0000_0000
  const HALF: int := 0x8000_0000

  type u32 = x: int | 0 <= x < 0x1_0000_0000

  /** The unsigned difference `a - b` of two uint32_t values. */
  function Sub32(a: u32, b: u32): u32 {
    (a - b) % MODULUS
  }

  /** `a + n` in uint32_t arithmetic. */
  function Add32(a: u32, n: int): u32 {
    (a + n) % MODULUS
  }

  /** static_cast<int32_t>. */
  function Signed(d: u32): int {
    if d < HALF then d else d - MODULUS
  }

  predicate SeqGt(a: u32, b: u32) {
    Signed(Sub32(a, b)) > 0
  }

  predicate SeqGe(a: u32, b: u32) {
    a == b || SeqGt(a, b)
  }

  /** The sequence number of an unbounded position. */
  function Wrap(p: int): u32 {
    p % MODULUS
  }

  /** The position closest to `origin` whose sequence number is `k`. */
  function Unwrap(origin: int, k: u32): (p: int)
    ensures Wrap(p) == k
    ensures origin - HALF <= p < origin + HALF
  {
    origin + Signed(Sub32(k, Wrap(origin)))
  }

  lemma WrapAdd(p: int, n: int)
    ensures Add32(Wrap(p), n) == Wrap(p + n)
  {
  }

  /** The unsigned difference is the distance counted around the circle. */
  lemma Distance(p: int, q: int)
    requires -MODULUS <= p - q < MODULUS
    ensures Sub32(Wrap(p), Wrap(q)) == p - q + if p < q then MODULUS else 0
  {
  }

  /** Two positions with one sequence number, less than a full circle apart, are one position. */
  lemma WrapInjective(p: int, q: int)
    requires Wrap(p) == Wrap(q)
    requires -MODULUS < p - q < MODULUS
    ensures p == q
  {
  }

  lemma UnwrapOfWrap(origin: int, p: int)
    requires origin - HALF <= p < origin + HALF
    ensures Unwrap(origin, Wrap(p)) == p
  {
    WrapInjective(p, Unwrap(origin, Wrap(p)));
  }

  /** The signed difference of two sequence numbers is the distance of the positions. */
  lemma SignedDistance(p: int, q: int)
    requires -HALF <= p - q < HALF
    ensures Signed(Sub32(Wrap(p), Wrap(q))) == p - q
  {
  }

  /** Within half a circle the 32-bit comparisons order the unbounded positions. */
  lemma CompareIsOrder(p: int, q: int)
    requires -HALF <= p - q < HALF
    ensures SeqGt(Wrap(p), Wrap(q)) <==> p > q
    ensures SeqGe(Wrap(p), Wrap(q)) <==> p >= q
    ensures Wrap(p) == Wrap(q) <==> p == q
  {
    SignedDistance(p, q);
  }

  lemma WrapAround(p: int)
    ensures Wrap(p - MODULUS) == Wrap(p)
  {
  }

  /** For positions less than a circle apart the comparison is right exactly within half of it: the bound above is exact. */
  lemma CompareFailsAtHalf(p: int, q: int)
    requires -MODULUS < p - q < MODULUS
    ensures (SeqGt(Wrap(p), Wrap(q)) <==> p > q) <==> -HALF <= p - q < HALF
  {
    if p - q >= HALF {
      SignedDistance(p - MODULUS, q);
      WrapAround(p);
    } else if p - q < -HALF {
      SignedDistance(p, q - MODULUS);
      WrapAround(q);
    } else {
      CompareIsOrder(p, q);
    }
  }
}
