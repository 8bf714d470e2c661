/** Which bytes of the position and velocity arrays each n-body proxy owns
    (examples/eqNBody/sharedData.cpp, registerMemory), and when these slices are a partition. */
module NBodySlices {
  import opened NBodyBarrier

  /** A range bound counted in floats: there are four floats for each body. */
  function Mark(bounds: seq<real>, numBodies: nat, p: nat): real {
    if p < |bounds| then bounds[p] * (4 * numBodies) as real else (4 * numBodies) as real
  }

  /** In floats. */
  function Offset(bounds: seq<real>, numBodies: nat, p: nat): int
  {
    Mark(bounds, numBodies, p).Floor
  }

  function NumBytes(bounds: seq<real>, numBodies: nat, p: nat): int
  {
    (Length(bounds, p) * (16 * numBodies) as real).Floor
  }

  /** Byte k is in the slice of proxy p: the offset counts floats of four bytes. */
  ghost predicate Owns(bounds: seq<real>, numBodies: nat, p: nat, k: int) {
    var first := 4 * Offset(bounds, numBodies, p);
    first <= k < first + NumBytes(bounds, numBodies, p)
  }

  predicate Whole(x: real) { x == x.Floor as real }

  /** Every range bound falls on a float. */
  ghost predicate Aligned(bounds: seq<real>, numBodies: nat) {
    forall p :: 0 <= p < |bounds| ==> Whole(Mark(bounds, numBodies, p))
  }

  ghost predicate OwnedOnce(bounds: seq<real>, numBodies: nat, k: int) {
    && (exists p: nat :: p < Proxies(bounds) && Owns(bounds, numBodies, p, k))
    && (forall p: nat, q: nat :: p < q < Proxies(bounds) && Owns(bounds, numBodies, p, k) ==> !Owns(bounds, numBodies, q, k))
  }

  ghost predicate EachByteOnce(bounds: seq<real>, numBodies: nat) {
    forall k :: 0 <= k < 16 * numBodies ==> OwnedOnce(bounds, numBodies, k)
  }

  lemma NumBytesIs(bounds: seq<real>, numBodies: nat, p: nat, x: real, y: real)
    requires p + 1 < |bounds| && x == Mark(bounds, numBodies, p) && y == Mark(bounds, numBodies, p + 1)
    ensures NumBytes(bounds, numBodies, p) == (4.0 * (y - x)).Floor
  {
    var n := (4 * numBodies) as real;
    assert (16 * numBodies) as real == 4.0 * n;
    assert (bounds[p + 1] - bounds[p]) * (4.0 * n) == 4.0 * (bounds[p + 1] * n - bounds[p] * n);
  }

  lemma MarkGrows(bounds: seq<real>, numBodies: nat, p: nat)
    requires Tiling(bounds) && p + 1 < |bounds|
    ensures Mark(bounds, numBodies, p) <= Mark(bounds, numBodies, p + 1)
    ensures numBodies > 0 ==> Mark(bounds, numBodies, p) < Mark(bounds, numBodies, p + 1)
  {
    var n := (4 * numBodies) as real;
    var d := bounds[p + 1] - bounds[p];
    assert d > 0.0;
    assert bounds[p + 1] * n - bounds[p] * n == d * n;
    assert numBodies > 0 ==> d * n > 0.0;
  }

  lemma MarkEnds(bounds: seq<real>, numBodies: nat)
    requires Tiling(bounds)
    ensures Mark(bounds, numBodies, 0) == 0.0 && Mark(bounds, numBodies, Proxies(bounds)) == (4 * numBodies) as real
  {
  }

  lemma SliceFits(bounds: seq<real>, numBodies: nat, p: nat)
    requires Tiling(bounds) && p < Proxies(bounds)
    ensures 0 <= Offset(bounds, numBodies, p) && 0 <= NumBytes(bounds, numBodies, p)
    ensures 4 * Offset(bounds, numBodies, p) + NumBytes(bounds, numBodies, p) <= 16 * numBodies
  {
    var x, y := Mark(bounds, numBodies, p), Mark(bounds, numBodies, p + 1);
    NumBytesIs(bounds, numBodies, p, x, y);
    MarkGrows(bounds, numBodies, p);
    MarkBetween(bounds, numBodies, p);
    MarkBetween(bounds, numBodies, p + 1);
  }

  lemma {:induction false} MarkBetween(bounds: seq<real>, numBodies: nat, p: nat)
    requires Tiling(bounds) && p <= Proxies(bounds)
    ensures 0.0 <= Mark(bounds, numBodies, p) <= (4 * numBodies) as real
  {
    MarkUp(bounds, numBodies, 0, p);
    MarkUp(bounds, numBodies, p, Proxies(bounds));
    MarkEnds(bounds, numBodies);
  }

  lemma {:induction false} MarkUp(bounds: seq<real>, numBodies: nat, p: nat, q: nat)
    requires Tiling(bounds) && p <= q <= Proxies(bounds)
    ensures Mark(bounds, numBodies, p) <= Mark(bounds, numBodies, q)
    decreases q - p
  {
    if p < q {
      MarkUp(bounds, numBodies, p, q - 1);
      MarkGrows(bounds, numBodies, q - 1);
    }
  }

  // ---- Aligned bounds give a partition ----------------------------------------------------

  lemma AlignedSlice(bounds: seq<real>, numBodies: nat, p: nat, first: int, next: int)
    requires Tiling(bounds) && Aligned(bounds, numBodies) && p < Proxies(bounds)
    requires first == 4 * Offset(bounds, numBodies, p) && next == 4 * Offset(bounds, numBodies, p + 1)
    ensures first + NumBytes(bounds, numBodies, p) == next && first <= next
  {
    NumBytesIs(bounds, numBodies, p, Mark(bounds, numBodies, p), Mark(bounds, numBodies, p + 1));
    MarkGrows(bounds, numBodies, p);
    assert Whole(Mark(bounds, numBodies, p)) && Whole(Mark(bounds, numBodies, p + 1));
  }

  lemma {:induction false} AlignedFind(bounds: seq<real>, numBodies: nat, n: nat, k: int) returns (p: nat)
    requires Tiling(bounds) && Aligned(bounds, numBodies) && n <= Proxies(bounds)
    requires 0 <= k < 4 * Offset(bounds, numBodies, n)
    ensures p < n && Owns(bounds, numBodies, p, k)
  {
    MarkEnds(bounds, numBodies);
    if n == 0 { assert false; }
    AlignedSlice(bounds, numBodies, n - 1, 4 * Offset(bounds, numBodies, n - 1), 4 * Offset(bounds, numBodies, n));
    if k < 4 * Offset(bounds, numBodies, n - 1) {
      p := AlignedFind(bounds, numBodies, n - 1, k);
    } else {
      p := n - 1;
    }
  }

  lemma {:induction false} AlignedApart(bounds: seq<real>, numBodies: nat, p: nat, q: nat, k: int)
    requires Tiling(bounds) && Aligned(bounds, numBodies) && p < q < Proxies(bounds)
    requires Owns(bounds, numBodies, p, k)
    ensures k < 4 * Offset(bounds, numBodies, q)
  {
    AlignedSlice(bounds, numBodies, p, 4 * Offset(bounds, numBodies, p), 4 * Offset(bounds, numBodies, p + 1));
    MarkUp(bounds, numBodies, p + 1, q);
  }

  lemma AlignedTiles(bounds: seq<real>, numBodies: nat)
    requires Tiling(bounds) && Aligned(bounds, numBodies)
    ensures EachByteOnce(bounds, numBodies)
  {
    MarkEnds(bounds, numBodies);
    forall k | 0 <= k < 16 * numBodies ensures OwnedOnce(bounds, numBodies, k) {
      var p := AlignedFind(bounds, numBodies, Proxies(bounds), k);
      forall p: nat, q: nat | p < q < Proxies(bounds) && Owns(bounds, numBodies, p, k)
        ensures !Owns(bounds, numBodies, q, k)
      {
        AlignedApart(bounds, numBodies, p, q, k);
      }
    }
  }

  // ---- A partition needs aligned bounds ---------------------------------------------------

  function Interval(first: int, count: nat): set<int> {
    if count == 0 then {} else Interval(first, count - 1) + {first + count - 1}
  }

  lemma {:induction false} IntervalIs(first: int, count: nat)
    ensures forall k :: k in Interval(first, count) <==> first <= k < first + count
    ensures |Interval(first, count)| == count
  {
    if count > 0 { IntervalIs(first, count - 1); }
  }

  function Size(bounds: seq<real>, numBodies: nat, p: nat): nat {
    var n := NumBytes(bounds, numBodies, p);
    if n < 0 then 0 else n
  }

  function Total(bounds: seq<real>, numBodies: nat, n: nat): nat {
    if n == 0 then 0 else Total(bounds, numBodies, n - 1) + Size(bounds, numBodies, n - 1)
  }

  function Union(bounds: seq<real>, numBodies: nat, n: nat): set<int> {
    if n == 0 then {}
    else Union(bounds, numBodies, n - 1)
         + Interval(4 * Offset(bounds, numBodies, n - 1), Size(bounds, numBodies, n - 1))
  }

  lemma {:induction false} UnionHolds(bounds: seq<real>, numBodies: nat, n: nat, p: nat, k: int)
    requires p < n && Owns(bounds, numBodies, p, k)
    ensures k in Union(bounds, numBodies, n)
  {
    if p < n - 1 {
      UnionHolds(bounds, numBodies, n - 1, p, k);
    } else {
      IntervalIs(4 * Offset(bounds, numBodies, p), Size(bounds, numBodies, p));
    }
  }

  lemma {:induction false} UnionSize(bounds: seq<real>, numBodies: nat, n: nat)
    ensures |Union(bounds, numBodies, n)| <= Total(bounds, numBodies, n)
  {
    if n > 0 {
      UnionSize(bounds, numBodies, n - 1);
      IntervalIs(4 * Offset(bounds, numBodies, n - 1), Size(bounds, numBodies, n - 1));
    }
  }

  lemma SubsetSize(a: set<int>, b: set<int>)
    requires a <= b
    ensures |a| <= |b|
  {
    assert b == a + (b - a);
  }

  /** Slices that cover all bytes hold at least that many. */
  lemma CoverNeedsBytes(bounds: seq<real>, numBodies: nat, all: nat)
    requires EachByteOnce(bounds, numBodies) && all == 16 * numBodies
    ensures all <= Total(bounds, numBodies, Proxies(bounds))
  {
    var n := Proxies(bounds);
    IntervalIs(0, all);
    forall k | k in Interval(0, all) ensures k in Union(bounds, numBodies, n) {
      assert OwnedOnce(bounds, numBodies, k);
      var p: nat :| p < n && Owns(bounds, numBodies, p, k);
      UnionHolds(bounds, numBodies, n, p, k);
    }
    SubsetSize(Interval(0, all), Union(bounds, numBodies, n));
    UnionSize(bounds, numBodies, n);
  }

  ghost predicate WholeBytes(bounds: seq<real>, numBodies: nat, p: nat) {
    Whole(4.0 * (Mark(bounds, numBodies, p + 1) - Mark(bounds, numBodies, p)))
  }

  /** Rounding down loses bytes as soon as one slice is not a whole number of them. */
  lemma {:induction false} TotalBound(bounds: seq<real>, numBodies: nat, n: nat)
    requires Tiling(bounds) && n <= Proxies(bounds)
    ensures Total(bounds, numBodies, n) as real <= 4.0 * Mark(bounds, numBodies, n)
    ensures Total(bounds, numBodies, n) as real == 4.0 * Mark(bounds, numBodies, n)
            ==> forall p: nat :: p < n ==> WholeBytes(bounds, numBodies, p)
  {
    MarkEnds(bounds, numBodies);
    if n > 0 {
      TotalBound(bounds, numBodies, n - 1);
      MarkGrows(bounds, numBodies, n - 1);
      NumBytesIs(bounds, numBodies, n - 1, Mark(bounds, numBodies, n - 1), Mark(bounds, numBodies, n));
    }
  }

  lemma OverlapUnlessWhole(bounds: seq<real>, numBodies: nat, p: nat, k: int)
    requires Tiling(bounds) && numBodies > 0 && p + 1 < Proxies(bounds)
    requires WholeBytes(bounds, numBodies, p) && WholeBytes(bounds, numBodies, p + 1)
    requires Whole(Mark(bounds, numBodies, p)) && !Whole(Mark(bounds, numBodies, p + 1))
    requires k == 4 * Offset(bounds, numBodies, p + 1)
    ensures Owns(bounds, numBodies, p, k) && Owns(bounds, numBodies, p + 1, k)
  {
    var x, y, z := Mark(bounds, numBodies, p), Mark(bounds, numBodies, p + 1), Mark(bounds, numBodies, p + 2);
    NumBytesIs(bounds, numBodies, p, x, y);
    NumBytesIs(bounds, numBodies, p + 1, y, z);
    MarkGrows(bounds, numBodies, p);
    MarkGrows(bounds, numBodies, p + 1);
    OverlapAt(x, y, z, x.Floor, y.Floor, (4.0 * (y - x)).Floor, (4.0 * (z - y)).Floor);
  }

  /** The same in numbers: fx, fy are the offsets, m and n the lengths. */
  lemma OverlapAt(x: real, y: real, z: real, fx: int, fy: int, m: int, n: int)
    requires x < y < z && x == fx as real && fy == y.Floor && y != fy as real
    requires m as real == 4.0 * (y - x) && n as real == 4.0 * (z - y)
    ensures 4 * fx <= 4 * fy < 4 * fx + m && n > 0
  {
    assert fy as real < y < fy as real + 1.0;
  }

  lemma {:induction false} WholeMarks(bounds: seq<real>, numBodies: nat, n: nat)
    requires Tiling(bounds) && numBodies > 0 && n <= Proxies(bounds) && EachByteOnce(bounds, numBodies)
    requires forall p: nat :: p < Proxies(bounds) ==> WholeBytes(bounds, numBodies, p)
    ensures Whole(Mark(bounds, numBodies, n))
  {
    MarkEnds(bounds, numBodies);
    if 0 < n < Proxies(bounds) {
      WholeMarks(bounds, numBodies, n - 1);
      if !Whole(Mark(bounds, numBodies, n)) {
        var k := 4 * Offset(bounds, numBodies, n);
        MarkBetween(bounds, numBodies, n);
        MarkGrows(bounds, numBodies, n);
        MarkBetween(bounds, numBodies, n + 1);
        assert OwnedOnce(bounds, numBodies, k);
        OverlapUnlessWhole(bounds, numBodies, n - 1, k);
      }
    }
  }

  /** The slices are a partition of the arrays exactly when every range bound falls on a
      float. */
  lemma SlicesPartition(bounds: seq<real>, numBodies: nat)
    requires Tiling(bounds)
    ensures EachByteOnce(bounds, numBodies) <==> Aligned(bounds, numBodies)
  {
    if Aligned(bounds, numBodies) {
      AlignedTiles(bounds, numBodies);
    }
    if numBodies == 0 {
      forall p: nat | p < |bounds| ensures Mark(bounds, 0, p) == 0.0 { }
    } else if EachByteOnce(bounds, numBodies) {
      MarkEnds(bounds, numBodies);
      CoverNeedsBytes(bounds, numBodies, 16 * numBodies);
      TotalBound(bounds, numBodies, Proxies(bounds));
      forall p: nat | p < |bounds| ensures Whole(Mark(bounds, numBodies, p)) {
        WholeMarks(bounds, numBodies, p);
      }
    }
  }

  /** Two bodies shared by three GPUs: the bytes 8 to 10 go with the first two slices. */
  lemma ThirdsOverlap()
    ensures var bounds := [0.0, 1.0 / 3.0, 2.0 / 3.0, 1.0];
            Tiling(bounds) && Owns(bounds, 2, 0, 8) && Owns(bounds, 2, 1, 8)
  {
    var bounds := [0.0, 1.0 / 3.0, 2.0 / 3.0, 1.0];
    assert Mark(bounds, 2, 1) == 8.0 / 3.0;
    assert Length(bounds, 0) * 32.0 == 32.0 / 3.0;
    assert Length(bounds, 1) * 32.0 == 32.0 / 3.0;
  }
}
