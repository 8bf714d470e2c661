/** Compositing order of volume slabs (examples/eVolve/framesOrderer.cpp): frames are blended
    back to front, and an eye inside the volume sees the slabs on its two sides in opposite
    orders. */
module FramesOrderer {
  import opened MeshTypes
  import opened Spheres
  import opened Modelview

  datatype Frame = Frame(id: nat, range: Range<real>)

  // ---- Sorting ----------------------------------------------------------------------------

  /** std::sort by cmpRangesDec or, with down, by cmpRangesInc. Frames with the same start may
      come in any order, so the algorithm is a parameter. */
  type Sorter = (seq<Frame>, bool) -> seq<Frame>

  predicate InOrder(a: Frame, b: Frame, down: bool) {
    if down then a.range.lo >= b.range.lo else a.range.lo <= b.range.lo
  }

  ghost predicate Sorted(s: seq<Frame>, down: bool) {
    forall i, j :: 0 <= i < j < |s| ==> InOrder(s[i], s[j], down)
  }

  ghost predicate IsSorter(sort: Sorter) {
    forall s, down :: multiset(sort(s, down)) == multiset(s) && Sorted(sort(s, down), down)
  }

  function Insert(s: seq<Frame>, f: Frame, down: bool): (r: seq<Frame>) {
    if s == [] then [f]
    else
      var n := |s| - 1;
      if InOrder(s[n], f, down) then s + [f] else Insert(s[..n], f, down) + [s[n]]
  }

  function InsertionSort(s: seq<Frame>, down: bool): (r: seq<Frame>) {
    if s == [] then [] else Insert(InsertionSort(s[..|s| - 1], down), s[|s| - 1], down)
  }

  lemma {:induction false} InsertKeeps(s: seq<Frame>, f: Frame, down: bool)
    requires Sorted(s, down)
    ensures multiset(Insert(s, f, down)) == multiset(s) + multiset{f}
    ensures Sorted(Insert(s, f, down), down)
    ensures forall x :: x in Insert(s, f, down) ==> x == f || x in s
  {
    if s != [] {
      var n := |s| - 1;
      assert s == s[..n] + [s[n]];
      if !InOrder(s[n], f, down) {
        InsertKeeps(s[..n], f, down);
        var r := Insert(s[..n], f, down);
        forall x | x in r ensures InOrder(x, s[n], down) { }
      }
    }
  }

  lemma {:induction false} InsertionSortSorts(s: seq<Frame>, down: bool)
    ensures multiset(InsertionSort(s, down)) == multiset(s) && Sorted(InsertionSort(s, down), down)
  {
    if s != [] {
      var n := |s| - 1;
      assert s == s[..n] + [s[n]];
      InsertionSortSorts(s[..n], down);
      InsertKeeps(InsertionSort(s[..n], down), s[n], down);
    }
  }

  lemma SorterExists()
    ensures IsSorter(InsertionSort)
  {
    forall s, down ensures multiset(InsertionSort(s, down)) == multiset(s) && Sorted(InsertionSort(s, down), down) {
      InsertionSortSorts(s, down);
    }
  }

  // ---- Which side the eye is on -----------------------------------------------------------

  /** modelviewM * (0, 0, px, 1). */
  function Boundary(m: seq<real>, px: real): V {
    Add(Scale(AxisZ(m), px), Shift(m))
  }

  function AxisZ(m: seq<real>): V { Vec3(Item(m, 8), Item(m, 9), Item(m, 10)) }

  function Shift(m: seq<real>): V { Vec3(Item(m, 12), Item(m, 13), Item(m, 14)) }

  /** modelviewITM * (0, 0, 1). */
  function Normal(itm: seq<real>): V { Vec3(Item(itm, 6), Item(itm, 7), Item(itm, 8)) }

  /** The cosine between the slab normal and the direction from the eye to a boundary. */
  function Cosine(sqrt: real -> real, m: seq<real>, itm: seq<real>, end: real): real {
    Dot(Normalize(sqrt, Normal(itm)), Normalize(sqrt, Boundary(m, -1.0 + end * 2.0)))
  }

  /** The eye's position along the slabs, in the units of eq::Range. */
  function Eye(m: seq<real>, itm: seq<real>): real { (1.0 - Dot(Normal(itm), Shift(m))) / 2.0 }

  /** The slab normal is dual to the axis of the slabs, and the inverse takes the eye, which is at
      the origin, to height 2 * Eye - 1 in the volume. */
  lemma NormalIsDual(m: seq<real>, im: seq<real>, itm: seq<real>)
    requires Inverted(m, im, itm)
    ensures Dot(Normal(itm), AxisZ(m)) == 1.0 && At(im, 2, 3) == 2.0 * Eye(m, itm) - 1.0
  {
    assert Item(itm, 3 * 2 + 0) == At(im, 2, 0) && Item(itm, 3 * 2 + 1) == At(im, 2, 1) && Item(itm, 3 * 2 + 2) == At(im, 2, 2);
    assert Product(im, m, 2, 2) == 1.0;
    assert Product(im, m, 2, 3) == 0.0;
  }

  lemma PositiveScale(x: real, k: real)
    requires k > 0.0
    ensures x * k > 0.0 <==> x > 0.0
  {
    if x > 0.0 { assert x * k > 0.0; } else { assert x * k <= 0.0; }
  }

  lemma DotScaled(a: V, b: V, j: real, k: real)
    ensures Dot(Scale(a, j), Scale(b, k)) == Dot(a, b) * (j * k)
  {
    assert (a.x * j) * (b.x * k) == a.x * b.x * (j * k);
    assert (a.y * j) * (b.y * k) == a.y * b.y * (j * k);
    assert (a.z * j) * (b.z * k) == a.z * b.z * (j * k);
  }

  lemma DotSum(n: V, z: V, t: V, px: real)
    ensures Dot(n, Add(Scale(z, px), t)) == Dot(n, z) * px + Dot(n, t)
  {
    assert n.x * (z.x * px + t.x) == n.x * z.x * px + n.x * t.x;
    assert n.y * (z.y * px + t.y) == n.y * z.y * px + n.y * t.y;
    assert n.z * (z.z * px + t.z) == n.z * z.z * px + n.z * t.z;
  }

  /** Normalising divides by a positive length or leaves the zero vector alone. */
  lemma NormalizeIs(sqrt: real -> real, v: V) returns (k: real)
    requires IsSqrt(sqrt)
    ensures k > 0.0 && Normalize(sqrt, v) == Scale(v, k)
  {
    var length := sqrt(SquaredLength(v));
    SquaredLengthNonNegative(v);
    if length == 0.0 {
      k := 1.0;
    } else {
      k := 1.0 / length;
    }
  }

  lemma SquaredLengthNonNegative(v: V)
    ensures SquaredLength(v) >= 0.0
  {
    assert v.x * v.x >= 0.0 && v.y * v.y >= 0.0 && v.z * v.z >= 0.0;
  }

  lemma CosineSign(sqrt: real -> real, a: V, b: V)
    requires IsSqrt(sqrt)
    ensures Dot(Normalize(sqrt, a), Normalize(sqrt, b)) > 0.0 <==> Dot(a, b) > 0.0
  {
    var j := NormalizeIs(sqrt, a);
    var k := NormalizeIs(sqrt, b);
    DotScaled(a, b, j, k);
    var f := j * k;
    assert f > 0.0;
    PositiveScale(Dot(a, b), f);
  }

  /** The cosine at a slab's end is positive exactly when that end lies above the eye. */
  lemma CosineTellsSide(sqrt: real -> real, m: seq<real>, im: seq<real>, itm: seq<real>, end: real)
    requires IsSqrt(sqrt) && Inverted(m, im, itm)
    ensures Cosine(sqrt, m, itm, end) > 0.0 <==> end > Eye(m, itm)
  {
    var px := -1.0 + end * 2.0;
    NormalIsDual(m, im, itm);
    CosineSign(sqrt, Normal(itm), Boundary(m, px));
    DotSum(Normal(itm), AxisZ(m), Shift(m), px);
  }

  // ---- The reordering ---------------------------------------------------------------------

  const SIZE_MAX: nat := 0xFFFF_FFFF_FFFF_FFFF

  /** The last of the first k positions where two neighbouring values are positive. */
  function LastPair(dots: seq<real>, k: nat): nat
    requires k < |dots|
  {
    if k == 0 then SIZE_MAX
    else if dots[k - 1] > 0.0 && dots[k] > 0.0 then k - 1
    else LastPair(dots, k - 1)
  }

  function Reversed(s: seq<Frame>): (r: seq<Frame>)
    ensures |r| == |s| && forall i :: 0 <= i < |s| ==> r[i] == s[|s| - 1 - i]
  {
    seq(|s|, i requires 0 <= i < |s| => s[|s| - 1 - i])
  }

  /** The frames up to minPos keep their order and move to the end, the others come before
      them in reverse. */
  function Rearranged(s: seq<Frame>, minPos: nat): seq<Frame> {
    var split := minPos + 1;
    if split < |s| then Reversed(s[split..]) + s[..split] else s
  }

  function Dots(sqrt: real -> real, m: seq<real>, itm: seq<real>, s: seq<Frame>): (r: seq<real>)
    ensures |r| == |s| && forall i :: 0 <= i < |s| ==> r[i] == Cosine(sqrt, m, itm, s[i].range.hi)
  {
    seq(|s|, i requires 0 <= i < |s| => Cosine(sqrt, m, itm, s[i].range.hi))
  }

  /** size_t arithmetic: the largest value plus one is 0. */
  function Next(minPos: nat): nat { if minPos == SIZE_MAX then 0 else minPos + 1 }

  /** extra stands for what line 82 adds to dotVals. */
  function Ordered(sqrt: real -> real, sort: Sorter, frames: seq<Frame>, m: seq<real>, itm: seq<real>,
                   rotation: seq<real>, orthographic: bool, extra: real): seq<Frame>
  {
    if orthographic then sort(frames, Item(rotation, 10) < 0.0)
    else
      var s := sort(frames, true);
      var dots := Dots(sqrt, m, itm, s) + [extra];
      Rearranged(s, Next(LastPair(dots, |s|)))
  }

  /** In perspective the source reads outside an empty vector. */
  method OrderFrames(sqrt: real -> real, sort: Sorter, frames: array<Frame>, m: seq<real>, itm: seq<real>,
                     rotation: seq<real>, orthographic: bool, extra: real)
    requires IsSorter(sort) && frames.Length < 0x8000_0000 && (orthographic || frames.Length > 0)
    modifies frames
    ensures frames[..] == Ordered(sqrt, sort, old(frames[..]), m, itm, rotation, orthographic, extra)
  {
    if orthographic {
      Sort(sort, frames, Item(rotation, 10) < 0.0);
      return;
    }
    Sort(sort, frames, true);
    var dotVals := Measure(sqrt, frames, m, itm);
    dotVals := dotVals + [extra];
    var minPos := FindMinPos(dotVals);
    minPos := Next(minPos);
    Rearrange(frames, minPos);
  }

  method Measure(sqrt: real -> real, frames: array<Frame>, m: seq<real>, itm: seq<real>) returns (dotVals: seq<real>)
    ensures dotVals == Dots(sqrt, m, itm, frames[..])
  {
    dotVals := [];
    var i := 0;
    while i < frames.Length
      invariant i <= frames.Length
      invariant |dotVals| == i && forall k :: 0 <= k < i ==> dotVals[k] == Cosine(sqrt, m, itm, frames[k].range.hi)
    {
      dotVals := dotVals + [Cosine(sqrt, m, itm, frames[i].range.hi)];
      i := i + 1;
    }
  }

  method Sort(sort: Sorter, frames: array<Frame>, down: bool)
    requires IsSorter(sort)
    modifies frames
    ensures frames[..] == sort(old(frames[..]), down)
  {
    var s := sort(frames[..], down);
    SorterLength(sort, frames[..], down);
    Store(frames, s);
  }

  lemma SorterLength(sort: Sorter, s: seq<Frame>, down: bool)
    requires IsSorter(sort)
    ensures |sort(s, down)| == |s|
  {
    assert |multiset(sort(s, down))| == |multiset(s)|;
  }

  method Store(frames: array<Frame>, s: seq<Frame>)
    requires |s| == frames.Length
    modifies frames
    ensures frames[..] == s
  {
    var i := 0;
    while i < frames.Length
      invariant i <= frames.Length && frames[..i] == s[..i]
    {
      frames[i] := s[i];
      i := i + 1;
    }
  }

  method FindMinPos(dotVals: seq<real>) returns (minPos: nat)
    requires |dotVals| > 0
    ensures minPos == LastPair(dotVals, |dotVals| - 1)
  {
    minPos := SIZE_MAX;
    var i := 0;
    while i < |dotVals| - 1
      invariant i <= |dotVals| - 1 && minPos == LastPair(dotVals, i)
    {
      if dotVals[i] > 0.0 && dotVals[i + 1] > 0.0 {
        minPos := i;
      }
      i := i + 1;
    }
  }

  method Rearrange(frames: array<Frame>, minPos: nat)
    requires frames.Length > 0
    modifies frames
    ensures frames[..] == Rearranged(old(frames[..]), minPos)
  {
    var n := frames.Length;
    if minPos < n - 1 {
      var framesTmp := frames[..];
      var rest := n - minPos - 1;
      CopyBack(frames, framesTmp, minPos + 1, rest);
      ReverseInto(frames, framesTmp, rest);
      RearrangedIs(framesTmp, frames[..], minPos, rest);
    }
  }

  method ReverseInto(frames: array<Frame>, framesTmp: seq<Frame>, rest: nat)
    requires |framesTmp| == frames.Length && rest <= frames.Length
    modifies frames
    ensures forall k :: 0 <= k < rest ==> frames[k] == framesTmp[|framesTmp| - 1 - k]
    ensures forall k :: rest <= k < frames.Length ==> frames[k] == old(frames[k])
  {
    var i := 0;
    while i < rest
      invariant i <= rest
      invariant forall k :: 0 <= k < i ==> frames[k] == framesTmp[|framesTmp| - 1 - k]
      invariant forall k :: rest <= k < frames.Length ==> frames[k] == old(frames[k])
    {
      frames[i] := framesTmp[|framesTmp| - i - 1];
      i := i + 1;
    }
  }

  lemma RearrangedIs(s: seq<Frame>, r: seq<Frame>, minPos: nat, rest: nat)
    requires |r| == |s| && minPos + 1 < |s| && rest == |s| - minPos - 1
    requires forall k :: 0 <= k < rest ==> r[k] == s[|s| - 1 - k]
    requires forall k :: rest <= k < |r| ==> r[k] == s[k - rest]
    ensures r == Rearranged(s, minPos)
  {
    var split := minPos + 1;
    assert r[..rest] == Reversed(s[split..]);
    assert r[rest..] == s[..split];
    assert r == r[..rest] + r[rest..];
  }

  /** The memcpy of the first count frames to the end. */
  method CopyBack(frames: array<Frame>, framesTmp: seq<Frame>, count: nat, at: nat)
    requires |framesTmp| == frames.Length && count + at == frames.Length
    modifies frames
    ensures forall k :: at <= k < frames.Length ==> frames[k] == framesTmp[k - at]
  {
    var i := 0;
    while i < count
      invariant i <= count
      invariant forall k :: at <= k < at + i ==> frames[k] == framesTmp[k - at]
    {
      frames[at + i] := framesTmp[i];
      i := i + 1;
    }
  }

  // ---- Back to front ----------------------------------------------------------------------

  predicate Apart(a: Frame, b: Frame) { a.range.hi <= b.range.lo || b.range.hi <= a.range.lo }

  /** Slabs of positive thickness, each given once, that do not overlap. */
  ghost predicate Slabs(frames: seq<Frame>) {
    && (forall i :: 0 <= i < |frames| ==> frames[i].range.lo < frames[i].range.hi)
    && (forall i, j :: 0 <= i < j < |frames| ==> Apart(frames[i], frames[j]))
  }

  /** a lies between the eye and b. */
  predicate Hides(eye: real, a: Frame, b: Frame) {
    || (a.range.hi <= b.range.lo && eye < a.range.hi)
    || (b.range.hi <= a.range.lo && a.range.lo < eye)
  }

  ghost predicate BackToFront(eye: real, frames: seq<Frame>) {
    forall i, j :: 0 <= i < j < |frames| ==> !Hides(eye, frames[i], frames[j])
  }

  // A sorted sequence of slabs.

  lemma FindTwo(s: seq<Frame>, x: Frame) returns (p: nat, q: nat)
    requires multiset(s)[x] >= 2
    ensures p < q < |s| && s[p] == x && s[q] == x
  {
    p :| p < |s| && s[p] == x;
    var front, back := s[..p], s[p + 1..];
    assert s == front + [x] + back;
    if x in back {
      var i :| 0 <= i < |back| && back[i] == x;
      q := p + 1 + i;
    } else {
      assert x in front;
      var i :| 0 <= i < |front| && front[i] == x;
      p, q := i, p;
    }
  }

  lemma CountTwo(s: seq<Frame>, i: nat, j: nat)
    requires i < j < |s| && s[i] == s[j]
    ensures multiset(s)[s[i]] >= 2
  {
    assert s == s[..j] + [s[j]] + s[j + 1..];
    assert s[i] in s[..j];
  }

  lemma SlabsPermute(a: seq<Frame>, b: seq<Frame>)
    requires Slabs(a) && multiset(a) == multiset(b)
    ensures Slabs(b)
  {
    forall i | 0 <= i < |b| ensures b[i].range.lo < b[i].range.hi {
      assert b[i] in multiset(a);
    }
    forall i, j | 0 <= i < j < |b| ensures Apart(b[i], b[j]) {
      if b[i] == b[j] {
        CountTwo(b, i, j);
        var p, q := FindTwo(a, b[i]);
      } else {
        assert b[i] in multiset(a) && b[j] in multiset(a);
        var p :| 0 <= p < |a| && a[p] == b[i];
        var q :| 0 <= q < |a| && a[q] == b[j];
      }
    }
  }

  /** From the top down. */
  ghost predicate Descends(s: seq<Frame>) {
    && (forall i :: 0 <= i < |s| ==> s[i].range.lo < s[i].range.hi)
    && (forall i, j :: 0 <= i < j < |s| ==> s[j].range.hi <= s[i].range.lo)
  }

  lemma SortedDescends(s: seq<Frame>)
    requires Slabs(s) && Sorted(s, true)
    ensures Descends(s)
  {
    forall i, j | 0 <= i < j < |s| ensures s[j].range.hi <= s[i].range.lo {
      assert Apart(s[i], s[j]) && InOrder(s[i], s[j], true);
    }
  }

  /** The values at the ends of the slabs are positive for the slabs that end above the eye. */
  ghost predicate Tells(dots: seq<real>, s: seq<Frame>, eye: real) {
    |dots| == |s| + 1 && forall i :: 0 <= i < |s| ==> (dots[i] > 0.0 <==> s[i].range.hi > eye)
  }

  /** The slabs after q end below the eye, those up to q above it. */
  ghost predicate SplitsAt(s: seq<Frame>, eye: real, q: nat) {
    && (forall i :: q < i < |s| ==> s[i].range.hi <= eye)
    && (forall i :: 0 < i <= q && i < |s| ==> s[i].range.hi > eye)
  }

  predicate Pair(dots: seq<real>, i: nat) { i + 1 < |dots| && dots[i] > 0.0 && dots[i + 1] > 0.0 }

  lemma {:induction false} LastPairIs(dots: seq<real>, k: nat)
    requires k < |dots| && k < SIZE_MAX
    ensures var p := LastPair(dots, k);
            && (p == SIZE_MAX || (p < k && Pair(dots, p)))
            && forall i: nat :: i < k && (p == SIZE_MAX || p < i) ==> !Pair(dots, i)
  {
    if k > 0 { LastPairIs(dots, k - 1); }
  }

  lemma PairSplits(dots: seq<real>, s: seq<Frame>, eye: real, q: nat)
    requires s != [] && |s| < SIZE_MAX && Descends(s) && Tells(dots, s, eye) && q == Next(LastPair(dots, |s|))
    ensures SplitsAt(s, eye, q)
  {
    LastPairIs(dots, |s|);
    forall i | q < i < |s| ensures s[i].range.hi <= eye {
      var before := i - 1;
      assert !Pair(dots, before);
      assert s[i].range.hi <= s[before].range.lo < s[before].range.hi;
    }
    forall i | 0 < i <= q && i < |s| ensures s[i].range.hi > eye {
      var p := q - 1;
      assert Pair(dots, p);
      if i < q && q < |s| { assert s[q].range.hi <= s[i].range.lo < s[i].range.hi; }
      if i < p { assert s[p].range.hi <= s[i].range.lo < s[i].range.hi; }
    }
  }

  lemma SplitBackToFront(s: seq<Frame>, eye: real, q: nat)
    requires s != [] && Descends(s) && SplitsAt(s, eye, q)
    ensures BackToFront(eye, Rearranged(s, q))
  {
    var split := q + 1;
    if split < |s| {
      var tail, head := s[split..], s[..split];
      TailNotHidden(s, eye, q, split, tail);
      ReversedBackToFront(eye, tail);
      TailHeadNotHidden(s, eye, q, split, tail, head);
      HeadNotHidden(s, eye, q, head);
      JoinBackToFront(eye, tail, head);
    } else {
      HeadNotHidden(s, eye, q, s);
    }
  }

  lemma TailNotHidden(s: seq<Frame>, eye: real, q: nat, split: nat, tail: seq<Frame>)
    requires Descends(s) && SplitsAt(s, eye, q) && split == q + 1 <= |s| && tail == s[split..]
    ensures forall i, j :: 0 <= i < j < |tail| ==> !Hides(eye, tail[j], tail[i])
  {
    forall i, j | 0 <= i < j < |tail| ensures !Hides(eye, tail[j], tail[i]) {
      NotHidden(s, eye, q, split + j, split + i);
    }
  }

  lemma TailHeadNotHidden(s: seq<Frame>, eye: real, q: nat, split: nat, tail: seq<Frame>, head: seq<Frame>)
    requires Descends(s) && SplitsAt(s, eye, q) && split == q + 1 <= |s| && tail == s[split..] && head == s[..split]
    ensures forall i, j :: 0 <= i < |tail| && 0 <= j < |head| ==> !Hides(eye, tail[i], head[j])
  {
    forall i, j | 0 <= i < |tail| && 0 <= j < |head| ensures !Hides(eye, tail[i], head[j]) {
      NotHidden(s, eye, q, split + i, j);
    }
  }

  lemma HeadNotHidden(s: seq<Frame>, eye: real, q: nat, head: seq<Frame>)
    requires Descends(s) && SplitsAt(s, eye, q) && |head| <= |s| && head == s[..|head|] && |head| <= q + 1
    ensures BackToFront(eye, head)
  {
    forall i, j | 0 <= i < j < |head| ensures !Hides(eye, head[i], head[j]) {
      NotHidden(s, eye, q, i, j);
    }
  }

  lemma ReversedBackToFront(eye: real, s: seq<Frame>)
    requires forall i, j :: 0 <= i < j < |s| ==> !Hides(eye, s[j], s[i])
    ensures BackToFront(eye, Reversed(s))
  {
    var r := Reversed(s);
    forall i, j | 0 <= i < j < |r| ensures !Hides(eye, r[i], r[j]) {
      var k, l := |s| - 1 - i, |s| - 1 - j;
      assert r[i] == s[k] && r[j] == s[l];
    }
  }

  lemma JoinBackToFront(eye: real, tail: seq<Frame>, head: seq<Frame>)
    requires BackToFront(eye, Reversed(tail)) && BackToFront(eye, head)
    requires forall i, j :: 0 <= i < |tail| && 0 <= j < |head| ==> !Hides(eye, tail[i], head[j])
    ensures BackToFront(eye, Reversed(tail) + head)
  {
    var a := Reversed(tail);
    var r := a + head;
    forall i, j | 0 <= i < j < |r| ensures !Hides(eye, r[i], r[j]) {
      if j < |a| {
        assert r[i] == a[i] && r[j] == a[j];
      } else if i < |a| {
        var k, l := |tail| - 1 - i, j - |a|;
        assert r[i] == tail[k] && r[j] == head[l];
      } else {
        var k, l := i - |a|, j - |a|;
        assert r[i] == head[k] && r[j] == head[l];
      }
    }
  }

  lemma NotHidden(s: seq<Frame>, eye: real, q: nat, i: nat, j: nat)
    requires Descends(s) && SplitsAt(s, eye, q) && i < |s| && j < |s|
    requires (i < j <= q) || (q < i && j < i)
    ensures !Hides(eye, s[i], s[j])
  {
    if i < j {
      assert s[j].range.hi > eye && s[j].range.hi <= s[i].range.lo;
    } else {
      assert s[i].range.hi <= eye && s[i].range.hi <= s[j].range.lo;
    }
  }

  lemma {:induction false} ReversedCounts(s: seq<Frame>)
    ensures multiset(Reversed(s)) == multiset(s)
  {
    if s != [] {
      var n := |s| - 1;
      ReversedCounts(s[..n]);
      assert Reversed(s) == [s[n]] + Reversed(s[..n]);
      assert s == s[..n] + [s[n]];
    }
  }

  lemma RearrangedCounts(s: seq<Frame>, q: nat)
    ensures multiset(Rearranged(s, q)) == multiset(s)
  {
    var split := q + 1;
    if split < |s| {
      ReversedCounts(s[split..]);
      assert s == s[..split] + s[split..];
    }
  }

  // ---- Main results -----------------------------------------------------------------------

  lemma DotsTell(sqrt: real -> real, m: seq<real>, im: seq<real>, itm: seq<real>, s: seq<Frame>, extra: real)
    requires IsSqrt(sqrt) && Inverted(m, im, itm)
    ensures Tells(Dots(sqrt, m, itm, s) + [extra], s, Eye(m, itm))
  {
    forall i | 0 <= i < |s| ensures Cosine(sqrt, m, itm, s[i].range.hi) > 0.0 <==> s[i].range.hi > Eye(m, itm) {
      CosineTellsSide(sqrt, m, im, itm, s[i].range.hi);
    }
  }

  /** For any eye position and any slabs that do not overlap, the perspective order is a
      permutation in which no slab precedes one that it hides. */
  lemma PerspectiveBackToFront(sqrt: real -> real, sort: Sorter, frames: seq<Frame>, m: seq<real>, im: seq<real>,
                               itm: seq<real>, rotation: seq<real>, extra: real)
    requires IsSqrt(sqrt) && IsSorter(sort) && Slabs(frames) && 0 < |frames| < SIZE_MAX
    requires Inverted(m, im, itm)
    ensures var r := Ordered(sqrt, sort, frames, m, itm, rotation, false, extra);
            multiset(r) == multiset(frames) && BackToFront((1.0 + At(im, 2, 3)) / 2.0, r)
  {
    NormalIsDual(m, im, itm);
    var s := sort(frames, true);
    var dots := Dots(sqrt, m, itm, s) + [extra];
    SorterLength(sort, frames, true);
    SlabsPermute(frames, s);
    SortedDescends(s);
    DotsTell(sqrt, m, im, itm, s, extra);
    var q := Next(LastPair(dots, |s|));
    PairSplits(dots, s, Eye(m, itm), q);
    SplitBackToFront(s, Eye(m, itm), q);
    RearrangedCounts(s, q);
  }

  /** The value that line 82 adds does not matter. */
  lemma ExtraIrrelevant(sqrt: real -> real, sort: Sorter, frames: seq<Frame>, m: seq<real>, im: seq<real>,
                        itm: seq<real>, rotation: seq<real>, orthographic: bool, x: real, y: real)
    requires IsSqrt(sqrt) && IsSorter(sort) && Slabs(frames) && 0 < |frames| < SIZE_MAX
    requires Inverted(m, im, itm)
    ensures Ordered(sqrt, sort, frames, m, itm, rotation, orthographic, x)
         == Ordered(sqrt, sort, frames, m, itm, rotation, orthographic, y)
  {
    var s := sort(frames, true);
    SorterLength(sort, frames, true);
    SlabsPermute(frames, s);
    SortedDescends(s);
    var c, d := Dots(sqrt, m, itm, s) + [x], Dots(sqrt, m, itm, s) + [y];
    DotsTell(sqrt, m, im, itm, s, x);
    DotsTell(sqrt, m, im, itm, s, y);
    var p, q := Next(LastPair(c, |s|)), Next(LastPair(d, |s|));
    PairSplits(c, s, Eye(m, itm), p);
    PairSplits(d, s, Eye(m, itm), q);
    SameSplit(s, Eye(m, itm), p, q);
  }

  lemma SplitLow(s: seq<Frame>, eye: real, p: nat, k: nat)
    requires SplitsAt(s, eye, p) && p < k
    ensures k < |s| ==> s[k].range.hi <= eye
  {
  }

  lemma SplitHigh(s: seq<Frame>, eye: real, q: nat, k: nat)
    requires SplitsAt(s, eye, q) && 0 < k <= q
    ensures k < |s| ==> s[k].range.hi > eye
  {
  }

  lemma SplitTwice(s: seq<Frame>, eye: real, p: nat, q: nat, k: nat)
    requires SplitsAt(s, eye, p) && SplitsAt(s, eye, q) && p < q && k == p + 1
    ensures |s| <= k
  {
    SplitLow(s, eye, p, k);
    SplitHigh(s, eye, q, k);
  }

  lemma SameSplit(s: seq<Frame>, eye: real, p: nat, q: nat)
    requires s != [] && SplitsAt(s, eye, p) && SplitsAt(s, eye, q)
    ensures Rearranged(s, p) == Rearranged(s, q)
  {
    if p < q { SplitTwice(s, eye, p, q, p + 1); } else if q < p { SplitTwice(s, eye, q, p, q + 1); }
  }

  // ---- Orthographic views -----------------------------------------------------------------

  /** How the height in the volume changes towards the viewer, who is far away along the eye
      axis: the inverse takes that axis, (0, 0, 1), to a direction of this height. */
  function Towards(im: seq<real>): real { At(im, 2, 2) }

  /** a lies between b and a viewer far away in a direction that rises by rise. */
  predicate HidesFromAfar(rise: real, a: Frame, b: Frame) {
    (rise > 0.0 && b.range.hi <= a.range.lo) || (rise < 0.0 && a.range.hi <= b.range.lo)
  }

  ghost predicate BackToFrontAfar(rise: real, frames: seq<Frame>) {
    forall i, j :: 0 <= i < j < |frames| ==> !HidesFromAfar(rise, frames[i], frames[j])
  }

  /** The height of the point at distance l along the eye axis, in the units of eq::Range. */
  function HeightAt(im: seq<real>, l: real): real { (1.0 + At(im, 2, 2) * l + At(im, 2, 3)) / 2.0 }

  ghost predicate Within(bound: real, frames: seq<Frame>) {
    forall i :: 0 <= i < |frames| ==> -bound < frames[i].range.lo && frames[i].range.hi < bound
  }

  /** The point at distance l is above or below everything within the bound. */
  predicate Outside(im: seq<real>, l: real, bound: real) {
    if Towards(im) > 0.0 then HeightAt(im, l) >= bound else HeightAt(im, l) <= -bound
  }

  lemma FarEnough(im: seq<real>, bound: real) returns (far: real)
    requires Towards(im) != 0.0
    ensures forall l: real :: l >= far ==> Outside(im, l, bound)
  {
    var rise, shift := At(im, 2, 2), At(im, 2, 3);
    var steep, need := if rise > 0.0 then rise else -rise, if rise > 0.0 then 2.0 * bound - 1.0 - shift else 2.0 * bound + 1.0 + shift;
    far := need / steep;
    assert far * steep == need;
    forall l: real | l >= far ensures Outside(im, l, bound) { Grows(steep, far, l, need); }
  }

  lemma Grows(steep: real, far: real, l: real, need: real)
    requires steep > 0.0 && l >= far && far * steep == need
    ensures steep * l >= need
  {
    var d := l - far;
    assert steep * d >= 0.0;
    assert steep * l == far * steep + steep * d;
  }

  /** The viewer far away is the limit of the eye: from every point that is far enough along the
      eye axis, an order is back to front exactly when it is from afar. */
  lemma FarViewer(im: seq<real>, frames: seq<Frame>, bound: real) returns (far: real)
    requires Slabs(frames) && Within(bound, frames) && Towards(im) != 0.0
    ensures forall l: real :: l >= far ==> (BackToFront(HeightAt(im, l), frames) <==> BackToFrontAfar(Towards(im), frames))
  {
    far := FarEnough(im, bound);
    forall l: real | l >= far ensures BackToFront(HeightAt(im, l), frames) <==> BackToFrontAfar(Towards(im), frames) {
      assert Outside(im, l, bound);
      OutsideAll(HeightAt(im, l), Towards(im), frames, bound);
    }
  }

  lemma OutsideAll(eye: real, rise: real, frames: seq<Frame>, bound: real)
    requires Slabs(frames) && Within(bound, frames) && rise != 0.0 && (if rise > 0.0 then eye >= bound else eye <= -bound)
    ensures BackToFront(eye, frames) <==> BackToFrontAfar(rise, frames)
  {
    forall i, j | 0 <= i < j < |frames| ensures Hides(eye, frames[i], frames[j]) <==> HidesFromAfar(rise, frames[i], frames[j]) { }
  }

  /** The orthographic order is a permutation. It is back to front if and only if the side of the
      viewer is the one that the rotation tells, unless no slab can hide another. */
  lemma OrthographicBackToFront(sqrt: real -> real, sort: Sorter, frames: seq<Frame>, m: seq<real>, im: seq<real>,
                                itm: seq<real>, rotation: seq<real>, extra: real)
    requires IsSorter(sort) && Slabs(frames)
    ensures var r := Ordered(sqrt, sort, frames, m, itm, rotation, true, extra);
            && multiset(r) == multiset(frames)
            && (BackToFrontAfar(Towards(im), r)
                <==> |frames| < 2 || Towards(im) == 0.0 || (Towards(im) > 0.0 <==> Item(rotation, 10) >= 0.0))
  {
    var down := Item(rotation, 10) < 0.0;
    var s := sort(frames, down);
    SorterLength(sort, frames, down);
    SlabsPermute(frames, s);
    SortedAfar(s, down, Towards(im));
  }

  lemma SortedAfar(s: seq<Frame>, down: bool, rise: real)
    requires Slabs(s) && Sorted(s, down)
    ensures BackToFrontAfar(rise, s) <==> |s| < 2 || rise == 0.0 || (rise > 0.0 <==> !down)
  {
    forall i, j | 0 <= i < j < |s| ensures if down then s[j].range.hi <= s[i].range.lo else s[i].range.hi <= s[j].range.lo {
      assert InOrder(s[i], s[j], down) && Apart(s[i], s[j]);
    }
    if |s| >= 2 && rise != 0.0 && (rise > 0.0 <==> down) { assert HidesFromAfar(rise, s[0], s[1]); }
  }

  /** A head transform that keeps the eye axis: every volume and every rotation is then drawn back
      to front. */
  lemma StraightHead(sqrt: real -> real, sort: Sorter, frames: seq<Frame>, m: seq<real>, im: seq<real>, itm: seq<real>,
                     head: seq<real>, mv: seq<real>, scaling: V, rotation: seq<real>, extra: real)
    requires IsSorter(sort) && Slabs(frames) && Inverted(m, im, itm) && scaling.z > 0.0
    requires IsRotation(head) && Row(head, 2) == Vec3(0.0, 0.0, 1.0)
    requires IsRotation(rotation) && IsScaled(mv, scaling, rotation) && IsProduct(m, head, mv)
    ensures BackToFrontAfar(Towards(im), Ordered(sqrt, sort, frames, m, itm, rotation, true, extra))
  {
    OrthographicBackToFront(sqrt, sort, frames, m, im, itm, rotation, extra);
    SameSide(m, im, itm, head, mv, scaling, rotation);
  }

  lemma WrongSide(sqrt: real -> real, sort: Sorter, frames: seq<Frame>, m: seq<real>, im: seq<real>, itm: seq<real>,
                  rotation: seq<real>, extra: real)
    requires IsSorter(sort) && Slabs(frames) && |frames| >= 2 && At(im, 2, 2) < 0.0 && Item(rotation, 10) >= 0.0
    ensures !BackToFrontAfar(Towards(im), Ordered(sqrt, sort, frames, m, itm, rotation, true, extra))
  {
    OrthographicBackToFront(sqrt, sort, frames, m, im, itm, rotation, extra);
  }

  /** A head turned by half a circle about the y axis, with an identity rotation: the viewer is
      below the slabs, but they are ordered as for a viewer above. */
  lemma HalfTurnedHead(sqrt: real -> real, sort: Sorter, frames: seq<Frame>, m: seq<real>, itm: seq<real>, rotation: seq<real>,
                       extra: real)
    requires IsSorter(sort) && Slabs(frames) && |frames| >= 2 && IsHalfTurn(m) && IsTransposed(itm, m) && IsIdentity(rotation)
    ensures IsRotation(m) && IsRotation(rotation) && IsScaled(rotation, Vec3(1.0, 1.0, 1.0), rotation)
    ensures IsProduct(m, m, rotation) && Inverted(m, m, itm)
    ensures !BackToFrontAfar(Towards(m), Ordered(sqrt, sort, frames, m, itm, rotation, true, extra))
  {
    HalfTurnMatrices(m, itm, rotation);
    WrongSide(sqrt, sort, frames, m, m, itm, rotation, extra);
  }
}
