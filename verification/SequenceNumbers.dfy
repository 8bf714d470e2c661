/** Sequence numbers that wrap around (Windows/udt/common.h, CSeqNo; CMsgNo has the same form).
    The threshold and the largest number are parameters. */
module SequenceNumbers {

  datatype Space = Space(threshold: nat, max: nat) {
    /** At most half of all numbers count as ahead; everything fits 32 bits. */
    predicate Valid() { 0 < threshold && 2 * threshold <= max + 1 <= 0x8000_0000 }
    predicate Has(a: int) { 0 <= a <= max }
  }

  function Abs(x: int): nat { if x < 0 then -x else x }

  function SeqCmp(s: Space, a: int, b: int): int {
    if Abs(a - b) < s.threshold then a - b else b - a
  }

  function SeqLen(s: Space, a: int, b: int): int {
    if a <= b then b - a + 1 else b - a + s.max + 2
  }

  function SeqOff(s: Space, a: int, b: int): int {
    if Abs(a - b) < s.threshold then b - a
    else if a < b then b - a - s.max - 1
    else b - a + s.max + 1
  }

  function IncSeq(s: Space, a: int): int { if a == s.max then 0 else a + 1 }

  function DecSeq(s: Space, a: int): int { if a == 0 then s.max else a - 1 }

  function IncSeqBy(s: Space, a: int, inc: int): int {
    if s.max - a >= inc then a + inc else a - s.max + inc - 1
  }

  // ---- Counting without wrap-around -------------------------------------------------------

  /** The sequence number of the u-th packet. */
  function Wrap(s: Space, u: int): int { var m := s.max + 1; u % m }

  lemma WrapIs(s: Space, u: int) returns (q: int)
    ensures u == q * (s.max + 1) + Wrap(s, u) && s.Has(Wrap(s, u))
  {
    var m := s.max + 1;
    q := u / m;
  }

  lemma NonNegative(a: int, m: nat)
    ensures a >= 0 ==> a * m >= 0
  {
  }

  /** Numbers less than a cycle apart lie in the same cycle or in neighbouring ones. */
  lemma CyclesNear(m: nat, d: int)
    requires m > 0 && -2 * m < d * m < 2 * m
    ensures -1 <= d <= 1
  {
    NonNegative(d - 2, m);
    NonNegative(-2 - d, m);
    assert (d - 2) * m == d * m - 2 * m && (-2 - d) * m == -2 * m - d * m;
  }

  lemma WrapDifference(s: Space, u: int, v: int) returns (d: int)
    requires Abs(u - v) <= s.max
    ensures -1 <= d <= 1 && s.Has(Wrap(s, u)) && s.Has(Wrap(s, v))
    ensures Wrap(s, u) - Wrap(s, v) == u - v - (if d == 0 then 0 else if d == 1 then s.max + 1 else -(s.max + 1))
  {
    var m := s.max + 1;
    var p := WrapIs(s, u);
    var q := WrapIs(s, v);
    d := p - q;
    assert d * m == p * m - q * m;
    CyclesNear(m, d);
  }

  /** In any window shorter than the threshold, comparison and offset are those of the packets'
      positions, however often the numbers have wrapped. */
  lemma WindowOrder(s: Space, u: int, v: int)
    requires s.Valid() && Abs(u - v) < s.threshold
    ensures SeqOff(s, Wrap(s, u), Wrap(s, v)) == v - u
    ensures SeqCmp(s, Wrap(s, u), Wrap(s, v)) < 0 <==> u < v
    ensures SeqCmp(s, Wrap(s, u), Wrap(s, v)) == 0 <==> u == v
  {
    var d := WrapDifference(s, u, v);
  }

  /** The threshold cannot be larger: at half the cycle the order is lost. */
  lemma HalfCycleAmbiguous(s: Space, a: int)
    requires s.Valid() && 2 * s.threshold == s.max + 1 && 0 <= a < s.threshold
    ensures SeqCmp(s, a, a + s.threshold) > 0 && SeqCmp(s, a + s.threshold, a) < 0
    ensures SeqOff(s, a, a + s.threshold) == 0 - s.threshold && SeqOff(s, a + s.threshold, a) == s.threshold
  {
  }

  /** For all numbers: the offset leads from the first to the second, modulo the cycle, and its
      sign is opposite to the comparison's. */
  lemma OffsetAndOrder(s: Space, a: int, b: int) returns (k: int)
    requires s.Valid() && s.Has(a) && s.Has(b)
    ensures SeqOff(s, a, b) == b - a + k * (s.max + 1) && -1 <= k <= 1
    ensures SeqOff(s, a, b) > 0 <==> SeqCmp(s, a, b) < 0
    ensures SeqOff(s, a, b) < 0 <==> SeqCmp(s, a, b) > 0
    ensures Abs(SeqOff(s, a, b)) <= s.max + 1 - s.threshold
  {
    k := if Abs(a - b) < s.threshold then 0 else if a < b then -1 else 1;
  }

  // ---- Increments -------------------------------------------------------------------------

  function Increments(s: Space, a: int, k: nat): int {
    if k == 0 then a else IncSeq(s, Increments(s, a, k - 1))
  }

  /** One jump is as many single steps, once around at most. */
  lemma {:induction false} JumpIsSteps(s: Space, a: int, k: nat)
    requires s.Has(a) && k <= s.max + 1
    ensures IncSeqBy(s, a, k) == Increments(s, a, k) && s.Has(IncSeqBy(s, a, k))
  {
    if k > 0 { JumpIsSteps(s, a, k - 1); }
  }

  lemma StepsInverse(s: Space, a: int)
    requires s.Has(a)
    ensures s.Has(IncSeq(s, a)) && s.Has(DecSeq(s, a))
    ensures DecSeq(s, IncSeq(s, a)) == a && IncSeq(s, DecSeq(s, a)) == a
  {
  }

  /** Jumping by the offset arrives, unless it goes backwards across 0. */
  lemma JumpByOffset(s: Space, a: int, b: int)
    requires s.Valid() && s.Has(a) && s.Has(b)
    ensures IncSeqBy(s, a, SeqOff(s, a, b)) == b <==> !(b - a >= s.threshold)
    ensures SeqOff(s, a, b) >= 0 ==> IncSeqBy(s, a, SeqOff(s, a, b)) == b
  {
  }

  /** seqlen counts both ends: one less is the least number of steps from the first to the
      second. */
  lemma LengthIsSteps(s: Space, a: int, b: int, k: nat)
    requires s.Has(a) && s.Has(b) && k <= s.max
    ensures 1 <= SeqLen(s, a, b) <= s.max + 1
    ensures Increments(s, a, k) == b <==> k == SeqLen(s, a, b) - 1
  {
    JumpIsSteps(s, a, k);
  }

  /** With 31-bit numbers the length of a full cycle does not fit a signed 32-bit integer. */
  lemma LengthOverflows(s: Space, a: int, b: int)
    requires s.Valid() && s.Has(a) && s.Has(b)
    ensures SeqLen(s, a, b) > 0x7FFF_FFFF <==> s.max == 0x7FFF_FFFF && (a == b + 1 || (a == 0 && b == s.max))
  {
  }
}
