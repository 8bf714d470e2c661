/** The coefficients with which the shader finds the volume in its texture
    (examples/eVolve/rawVolModel.cpp, rawVolModel.h, vertexShader.glsl). */
module TextureCoordinates {
  import opened Hiding
  import opened VolumeTexture

  /** DataInTextureDimensions. */
  datatype Scaling = Scaling(width: real, height: real, depth: real, offset: real, border: real)

  /** The depth of the texture. */
  function TexDepth(d: nat, start: real, end: real): (r: nat)
    requires d > 0 && 0.0 <= start <= end <= 1.0
    ensures r > 0
  {
    DepthPositive(d, start, end);
    MinPow2(Depth(d, start, end))
  }

  /** How many layers the range itself covers. */
  function Covered(d: nat, start: real, end: real): int { Last(d, end) - First(d, start) + 1 }

  function ScalingOf(w: nat, h: nat, d: nat, start: real, end: real): Scaling
    requires w > 0 && h > 0 && d > 0 && 0.0 <= start <= end <= 1.0
  {
    ScalingFor(w as real, h as real, Covered(d, start, end) as real,
               MinPow2(w) as real, MinPow2(h) as real, TexDepth(d, start, end) as real, start, end)
  }

  function ScalingFor(w: real, h: real, layers: real, tW: real, tH: real, tD: real, start: real, end: real): Scaling
    requires tW > 0.0 && tH > 0.0 && tD > 0.0
  {
    Scaling(w / tW, h / tH, layers / tD / (if end > start then end - start else 1.0),
            start, if start > 0.0001 then 2.0 / tD else 0.0)
  }

  /** The vertex shader's texture coordinates of the point x, y, z of the volume. */
  function TexX(c: Scaling, x: real): real { x * c.width }
  function TexY(c: Scaling, y: real): real { y * c.height }
  function TexZ(c: Scaling, z: real): real { c.border + (z - c.offset) * c.depth }

  // ---- Columns and rows -------------------------------------------------------------------

  /** The point at x and y of a layer of w times h voxels is at the same voxels of the texture. */
  ghost predicate PlaneInPlace(c: Scaling, tW: real, tH: real, w: real, h: real, x: real, y: real) {
    forall key {:trigger Unfold(key)} :: Unfold(key) ==> TexX(c, x) * tW == w * x && TexY(c, y) * tH == h * y
  }

  lemma PlaneRight(w: nat, h: nat, d: nat, start: real, end: real, x: real, y: real)
    requires w > 0 && h > 0 && d > 0 && 0.0 <= start <= end <= 1.0
    ensures PlaneInPlace(ScalingOf(w, h, d, start, end), MinPow2(w) as real, MinPow2(h) as real, w as real, h as real, x, y)
  {
    PlaneFor(w as real, h as real, Covered(d, start, end) as real, MinPow2(w) as real, MinPow2(h) as real,
             TexDepth(d, start, end) as real, start, end, x, y);
  }

  lemma PlaneFor(w: real, h: real, layers: real, tW: real, tH: real, tD: real, start: real, end: real, x: real, y: real)
    requires tW > 0.0 && tH > 0.0 && tD > 0.0
    ensures PlaneInPlace(ScalingFor(w, h, layers, tW, tH, tD, start, end), tW, tH, w, h, x, y)
  {
    Stretched(x, w, tW);
    Stretched(y, h, tH);
  }

  lemma Stretched(x: real, n: real, p: real)
    requires p > 0.0
    ensures (x * (n / p)) * p == n * x
  {
    var q := n / p;
    assert q * p == n;
    assert (x * q) * p == x * (q * p);
  }

  // ---- Layers -----------------------------------------------------------------------------

  /** With d layers in the volume and a texture that starts with layer first, depth z of the
      volume, which is at d * z of its layers, is at d * z - first of the texture's. */
  ghost predicate At(c: Scaling, tD: real, d: real, first: real, z: real) {
    forall key {:trigger Unfold(key)} :: Unfold(key) ==> TexZ(c, z) * tD == d * z - first
  }

  ghost predicate AllAt(c: Scaling, tD: real, d: real, first: real) { forall z: real :: At(c, tD, d, first, z) }

  /** Layer i of the texture is layer SlabStart + i of the volume. */
  ghost predicate DepthInPlace(w: nat, h: nat, d: nat, start: real, end: real)
    requires w > 0 && h > 0 && d > 0 && 0.0 <= start <= end <= 1.0
  {
    forall key {:trigger Unfold(key)} :: Unfold(key) ==>
      AllAt(ScalingOf(w, h, d, start, end), TexDepth(d, start, end) as real, d as real, SlabStart(d, start) as real)
  }

  /** The layers that the shader's border coefficient stands for. */
  function Border(start: real): real { if start > 0.0001 then 2.0 else 0.0 }

  lemma AtFor(w: real, h: real, layers: real, tW: real, tH: real, tD: real, start: real, end: real,
              d: real, first: real, z: real)
    requires tW > 0.0 && tH > 0.0 && tD > 0.0 && start < end
    ensures At(ScalingFor(w, h, layers, tW, tH, tD, start, end), tD, d, first, z) <==>
            Border(start) + (z - start) * (layers / (end - start)) == d * z - first
  {
    assert Unfold(0);
    assert 0.0 / tD == 0.0;
    Unscaled(Border(start), layers, end - start, tD, z - start);
  }

  lemma Unscaled(b: real, n: real, e: real, p: real, x: real)
    requires p > 0.0 && e > 0.0
    ensures (b / p + x * (n / p / e)) * p == b + x * (n / e)
  {
    var i, q := b / p, n / p / e;
    assert i * p == b;
    assert q * e * p == n;
    var s := n / e;
    assert s * e == n;
    assert (q * p) * e == s * e;
    assert q * p == s;
    assert (i + x * q) * p == i * p + x * (q * p);
  }

  /** Start and end of the range, at x and y of the volume's layers, are at the right layers of the
      texture, if the range covers the given number of them. */
  ghost predicate LineEnds(x: real, y: real, start: real, layers: real, first: real) {
    forall key {:trigger Unfold(key)} :: Unfold(key) ==> x == Border(start) + first && y - x == layers
  }

  /** What the depth coefficients of c are made of. */
  ghost predicate DepthOf(c: Scaling, layers: real, tD: real, start: real, end: real) {
    forall key {:trigger Unfold(key)} :: Unfold(key) ==>
      && tD > 0.0 && start < end
      && exists w, h, tW, tH :: tW > 0.0 && tH > 0.0 && c == ScalingFor(w, h, layers, tW, tH, tD, start, end)
  }

  ghost predicate IsProduct(x: real, a: real, b: real) {
    forall key {:trigger Unfold(key)} :: Unfold(key) ==> x == a * b
  }

  lemma Multiplied(x: real, a: real, b: real)
    requires x == a * b
    ensures IsProduct(x, a, b)
  {
  }

  lemma AllAtFor(c: Scaling, layers: real, tD: real, start: real, end: real, d: real, first: real, x: real, y: real)
    requires DepthOf(c, layers, tD, start, end) && IsProduct(x, d, start) && IsProduct(y, d, end)
    ensures AllAt(c, tD, d, first) <==> LineEnds(x, y, start, layers, first)
  {
    assert Unfold(0);
    var w, h, tW, tH :| tW > 0.0 && tH > 0.0 && c == ScalingFor(w, h, layers, tW, tH, tD, start, end);
    if AllAt(c, tD, d, first) {
      assert At(c, tD, d, first, start) && At(c, tD, d, first, end);
      AtFor(w, h, layers, tW, tH, tD, start, end, d, first, start);
      AtFor(w, h, layers, tW, tH, tD, start, end, d, first, end);
      Ends(d, start, end, layers, Border(start), first);
    } else if LineEnds(x, y, start, layers, first) {
      var z: real :| !At(c, tD, d, first, z);
      AtFor(w, h, layers, tW, tH, tD, start, end, d, first, z);
      Slope(d, start, end, layers, z);
    }
  }

  /** The range covers n layers, and the texture starts with the given one. */
  ghost predicate SlabIs(d: nat, start: real, end: real, n: int, first: int) {
    forall key {:trigger Unfold(key)} :: Unfold(key) ==> n == Covered(d, start, end) && first == SlabStart(d, start)
  }

  lemma Coefficients(w: nat, h: nat, d: nat, start: real, end: real, n: int, first: int) returns (c: Scaling, tD: real)
    requires w > 0 && h > 0 && d > 0 && 0.0 <= start < end <= 1.0
    requires SlabIs(d, start, end, n, first)
    ensures DepthOf(c, n as real, tD, start, end)
    ensures DepthInPlace(w, h, d, start, end) <==> AllAt(c, tD, d as real, first as real)
  {
    assert Unfold(0);
    c, tD := ScalingOf(w, h, d, start, end), TexDepth(d, start, end) as real;
  }

  lemma Ends(d: real, start: real, end: real, n: real, b: real, first: real)
    requires start < end && b + (start - start) * (n / (end - start)) == d * start - first
    requires b + (end - start) * (n / (end - start)) == d * end - first
    ensures d * start == b + first && d * end - d * start == n
  {
    var q := n / (end - start);
    assert (start - start) * q == 0.0 && (end - start) * q == n;
  }

  lemma Slope(d: real, start: real, end: real, n: real, z: real)
    requires start < end && d * end - d * start == n
    ensures (z - start) * (n / (end - start)) == d * z - d * start
  {
    var e, s := end - start, n / (end - start);
    assert s * e == n && d * e == n;
    assert (s - d) * e == 0.0;
    assert s == d;
    assert (z - start) * s == z * s - start * s;
  }

  /** The range, from x to y of the volume's layers, starts and ends between two layers. */
  ghost predicate WholeAt(d: nat, x: real, y: real) {
    forall key {:trigger Unfold(key)} :: Unfold(key) ==> x == FirstAt(d, x) as real && y == (LastAt(d, y) + 1) as real
  }

  ghost predicate WholeLayers(d: nat, start: real, end: real) { WholeAt(d, d as real * start, d as real * end) }

  /** The range starts with the first layer, or the border before it has both its layers. */
  predicate BorderRight(first: int, start: real) { first == 0 || (first >= 2 && start > 0.0001) }

  /** The coefficients are right for all depths exactly if the range consists of whole layers and
      starts with the first layer or not before the third: the border is taken to have two layers
      as soon as the range starts beyond 0.0001, but before layer 1 there is only one. */
  lemma DepthInPlaceIff(w: nat, h: nat, d: nat, start: real, end: real)
    requires w > 0 && h > 0 && d > 0 && 0.0 <= start < end <= 1.0
    ensures DepthInPlace(w, h, d, start, end) <==> WholeLayers(d, start, end) && BorderRight(First(d, start), start)
  {
    var x, y, n, first := d as real * start, d as real * end, Covered(d, start, end), SlabStart(d, start);
    Multiplied(x, d as real, start);
    Multiplied(y, d as real, end);
    InPlaceIff(w, h, d, start, end, x, y, n, first);
    EndsIff(d, start, end, x, y, n, first);
  }

  lemma InPlaceIff(w: nat, h: nat, d: nat, start: real, end: real, x: real, y: real, n: int, first: int)
    requires w > 0 && h > 0 && d > 0 && 0.0 <= start < end <= 1.0
    requires IsProduct(x, d as real, start) && IsProduct(y, d as real, end)
    requires SlabIs(d, start, end, n, first)
    ensures DepthInPlace(w, h, d, start, end) <==> LineEnds(x, y, start, n as real, first as real)
  {
    var c, tD := Coefficients(w, h, d, start, end, n, first);
    AllAtFor(c, n as real, tD, start, end, d as real, first as real, x, y);
  }

  lemma EndsIff(d: nat, start: real, end: real, x: real, y: real, n: int, first: int)
    requires d > 0 && 0.0 <= start < 1.0 && x == d as real * start && y == d as real * end
    requires n == Covered(d, start, end) && first == SlabStart(d, start)
    ensures LineEnds(x, y, start, n as real, first as real) <==> WholeLayers(d, start, end) && BorderRight(First(d, start), start)
  {
    EndsOfSlab(d, start, end, x, y, n, first);
    RightIff(d, start, x, y);
  }

  ghost predicate EndsAt(d: nat, start: real, x: real, y: real) {
    LineEnds(x, y, start, (LastAt(d, y) - FirstAt(d, x) + 1) as real, Clip(FirstAt(d, x) - 2, 0, d - 1) as real)
  }

  lemma EndsOfSlab(d: nat, start: real, end: real, x: real, y: real, layers: int, first: int)
    requires x == d as real * start && y == d as real * end && layers == Covered(d, start, end) && first == SlabStart(d, start)
    ensures EndsAt(d, start, x, y) <==> LineEnds(x, y, start, layers as real, first as real)
  {
  }

  lemma RightIff(d: nat, start: real, x: real, y: real)
    requires d > 0 && 0.0 <= start < 1.0 && x == d as real * start
    ensures EndsAt(d, start, x, y) <==> WholeAt(d, x, y) && BorderRight(FirstAt(d, x), start)
  {
    LessProduct(d as real, start);
    StartOnly(d as real, start);
    Whole(d, start, x, y);
  }

  lemma StartOnly(d: real, start: real)
    requires d > 0.0 && start >= 0.0
    ensures d * start == 0.0 ==> start == 0.0
  {
  }

  lemma Whole(d: nat, start: real, x: real, y: real)
    requires d > 0 && 0.0 <= x < d as real && (x == 0.0 ==> start == 0.0)
    ensures EndsAt(d, start, x, y) <==> WholeAt(d, x, y) && BorderRight(FirstAt(d, x), start)
  {
    assert Unfold(0);
    assert FirstAt(d, x) == x.Floor;
  }

  /** Sixteen layers, of which the second is shown: the texture's border has one layer, and the
      shader skips two. */
  lemma SecondLayerMisplaced(w: nat, h: nat)
    requires w > 0 && h > 0
    ensures WholeLayers(16, 0.0625, 0.125) && First(16, 0.0625) == 1 && SlabStart(16, 0.0625) == 0
    ensures !DepthInPlace(w, h, 16, 0.0625, 0.125)
  {
    assert Unfold(0);
    assert FirstAt(16, 1.0) == 1 && LastAt(16, 2.0) == 1;
    DepthInPlaceIff(w, h, 16, 0.0625, 0.125);
  }
}
