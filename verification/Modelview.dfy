/** The modelview matrix of the volume renderer (examples/eVolve/channel.cpp): head * scale *
    rotation, with a translation, and the transpose of its inverse. */
module Modelview {
  import opened MeshTypes
  import opened Spheres

  /** A matrix is stored column by column, as in vmmlib. */
  function Item(m: seq<real>, i: nat): real { if i < |m| then m[i] else 0.0 }

  /** Row i, column k of a matrix of four rows. */
  function At(m: seq<real>, i: nat, k: nat): real { Item(m, 4 * k + i) }

  /** Row i, column k of a product. */
  function Product(a: seq<real>, b: seq<real>, i: nat, k: nat): real {
    At(a, i, 0) * At(b, 0, k) + At(a, i, 1) * At(b, 1, k) + At(a, i, 2) * At(b, 2, k) + At(a, i, 3) * At(b, 3, k)
  }

  /** The first three numbers of row i. */
  function Row(m: seq<real>, i: nat): V { Vec3(At(m, i, 0), At(m, i, 1), At(m, i, 2)) }

  // ---- The inverse ------------------------------------------------------------------------

  predicate IsInverse(im: seq<real>, m: seq<real>) {
    forall i: nat, k: nat :: i < 4 && k < 4 ==> Product(im, m, i, k) == if i == k then 1.0 else 0.0
  }

  /** itm is the transpose of the first three rows and columns of im. */
  predicate IsTransposed(itm: seq<real>, im: seq<real>) {
    forall i: nat, k: nat :: i < 3 && k < 3 ==> Item(itm, 3 * i + k) == At(im, i, k)
  }

  predicate Affine(m: seq<real>) { Row(m, 3) == Vec3(0.0, 0.0, 0.0) && At(m, 3, 3) == 1.0 }

  /** m is a modelview matrix, im its inverse and itm the inverse's transpose. */
  predicate Inverted(m: seq<real>, im: seq<real>, itm: seq<real>) { Affine(m) && IsInverse(im, m) && IsTransposed(itm, im) }

  // ---- The view vector --------------------------------------------------------------------

  predicate Orthonormal(a: V, b: V, c: V) {
    && SquaredLength(a) == SquaredLength(b) == SquaredLength(c) == 1.0
    && Dot(a, b) == Dot(a, c) == Dot(b, c) == 0.0
  }

  predicate IsRotation(m: seq<real>) { Affine(m) && Orthonormal(Row(m, 0), Row(m, 1), Row(m, 2)) }

  /** A diagonal matrix times rotation; the translation is put into the last column, which the
      view vector does not read. */
  predicate IsScaled(mv: seq<real>, scaling: V, rotation: seq<real>) {
    && Row(mv, 0) == Scale(Row(rotation, 0), scaling.x) && Row(mv, 1) == Scale(Row(rotation, 1), scaling.y)
    && Row(mv, 2) == Scale(Row(rotation, 2), scaling.z) && Row(mv, 3) == Row(rotation, 3)
  }

  predicate IsProduct(m: seq<real>, a: seq<real>, b: seq<real>) {
    forall i: nat, k: nat :: i < 4 && k < 4 ==> At(m, i, k) == Product(a, b, i, k)
  }

  predicate InUnit(x: real) { 0.0 <= x <= 1.0 }

  /** The view vector that updatePerFrameInfo reads from the modelview matrix. */
  function ViewVector(m: seq<real>): V { Vec3(-At(m, 2, 0), -At(m, 2, 1), -At(m, 2, 2)) }

  lemma Smaller(y: real, k: real)
    requires 0.0 <= y && 0.0 <= k <= 1.0
    ensures 0.0 <= y * k <= y
  {
    var r := 1.0 - k;
    assert y * k >= 0.0 && y * r >= 0.0;
    assert y * k + y * r == y;
  }

  lemma Shorter(x: real, s: real, w: real)
    requires InUnit(s) && w == x * s
    ensures w * w <= x * x
  {
    Smaller(s, s);
    Smaller(x * x, s * s);
    assert w * w == (x * x) * (s * s);
  }

  lemma ShortSum(h: V, s: V, x: real, y: real, z: real, total: real)
    requires x == h.x * s.x && y == h.y * s.y && z == h.z * s.z && total == x * x + y * y + z * z
    requires SquaredLength(h) == 1.0 && InUnit(s.x) && InUnit(s.y) && InUnit(s.z)
    ensures total <= 1.0
  {
    Shorter(h.x, s.x, x);
    Shorter(h.y, s.y, y);
    Shorter(h.z, s.z, z);
  }

  lemma DotScaled(a: V, b: V, x: real, y: real)
    requires Dot(a, b) == 0.0
    ensures Dot(Scale(a, x), Scale(b, y)) == 0.0
  {
    assert Dot(Scale(a, x), Scale(b, y)) == (x * y) * Dot(a, b);
  }

  lemma UnitScaled(a: V, x: real)
    requires SquaredLength(a) == 1.0
    ensures SquaredLength(Scale(a, x)) == x * x
  {
    SquaredLengthScale(a, x);
  }

  lemma DotAdd(a: V, b: V, c: V)
    ensures Dot(Add(a, b), c) == Dot(a, c) + Dot(b, c)
  {
  }

  /** A rotation keeps lengths. */
  lemma RotatedLength(a: V, b: V, c: V, x: real, y: real, z: real)
    requires Orthonormal(a, b, c)
    ensures SquaredLength(Add(Add(Scale(a, x), Scale(b, y)), Scale(c, z))) == x * x + y * y + z * z
  {
    var u, v, w := Scale(a, x), Scale(b, y), Scale(c, z);
    UnitScaled(a, x);
    UnitScaled(b, y);
    UnitScaled(c, z);
    DotScaled(a, b, x, y);
    DotScaled(a, c, x, z);
    DotScaled(b, c, y, z);
    SquaredLengthAdd(u, v);
    SquaredLengthAdd(Add(u, v), w);
    DotAdd(u, v, w);
  }

  lemma Along(h: V, t: real, s: V, r0: real, r1: real, r2: real, product: real, sum: real)
    requires product == h.x * (r0 * s.x) + h.y * (r1 * s.y) + h.z * (r2 * s.z) + t * 0.0
    requires sum == r0 * (h.x * s.x) + r1 * (h.y * s.y) + r2 * (h.z * s.z)
    ensures product == sum
  {
  }

  /** A row of head * scale * rotation. */
  lemma ProductRow(m: seq<real>, head: seq<real>, mv: seq<real>, scaling: V, rotation: seq<real>, i: nat, h: V, q: V)
    requires IsRotation(rotation) && IsScaled(mv, scaling, rotation) && IsProduct(m, head, mv) && i < 3 && h == Row(head, i)
    requires q == Add(Add(Scale(Row(rotation, 0), h.x * scaling.x), Scale(Row(rotation, 1), h.y * scaling.y)),
                      Scale(Row(rotation, 2), h.z * scaling.z))
    ensures Row(m, i) == q
  {
    var a, b, c, t := Row(rotation, 0), Row(rotation, 1), Row(rotation, 2), At(head, i, 3);
    assert At(m, i, 0) == Product(head, mv, i, 0) && At(m, i, 1) == Product(head, mv, i, 1) && At(m, i, 2) == Product(head, mv, i, 2);
    assert Row(mv, 3) == Vec3(0.0, 0.0, 0.0);
    Along(h, t, scaling, a.x, b.x, c.x, At(m, i, 0), q.x);
    Along(h, t, scaling, a.y, b.y, c.y, At(m, i, 1), q.y);
    Along(h, t, scaling, a.z, b.z, c.z, At(m, i, 2), q.z);
    SameVector(Row(m, i), q);
  }

  /** The view vector is not longer than one: the head transform and the rotation keep lengths,
      and the scaling shortens them. */
  lemma ViewVectorShort(m: seq<real>, head: seq<real>, mv: seq<real>, scaling: V, rotation: seq<real>)
    requires IsRotation(head) && IsRotation(rotation) && IsScaled(mv, scaling, rotation) && IsProduct(m, head, mv)
    requires InUnit(scaling.x) && InUnit(scaling.y) && InUnit(scaling.z)
    ensures SquaredLength(ViewVector(m)) <= 1.0
  {
    var h := Row(head, 2);
    var x, y, z := h.x * scaling.x, h.y * scaling.y, h.z * scaling.z;
    var q := Add(Add(Scale(Row(rotation, 0), x), Scale(Row(rotation, 1), y)), Scale(Row(rotation, 2), z));
    ProductRow(m, head, mv, scaling, rotation, 2, h, q);
    RotatedLength(Row(rotation, 0), Row(rotation, 1), Row(rotation, 2), x, y, z);
    ShortSum(h, scaling, x, y, z, SquaredLength(q));
    Negated(q);
    assert ViewVector(m) == Vec3(-q.x, -q.y, -q.z);
  }

  lemma Negated(q: V)
    ensures SquaredLength(Vec3(-q.x, -q.y, -q.z)) == SquaredLength(q)
  {
  }

  // ---- The direction of the viewer --------------------------------------------------------

  /** A rotation's rows pick their own weight from a sum. */
  lemma Picked(a: V, b: V, c: V, x: real, y: real, z: real)
    requires Orthonormal(a, b, c)
    ensures Dot(Add(Add(Scale(a, x), Scale(b, y)), Scale(c, z)), c) == z
  {
    var u, v, w := Scale(a, x), Scale(b, y), Scale(c, z);
    DotAdd(Add(u, v), w, c);
    DotAdd(u, v, c);
    DotScale(a, c, x);
    DotScale(b, c, y);
    DotScale(c, c, z);
  }

  lemma DotScale(a: V, b: V, x: real)
    ensures Dot(Scale(a, x), b) == x * Dot(a, b)
  {
    assert (a.x * x) * b.x == x * (a.x * b.x) && (a.y * x) * b.y == x * (a.y * b.y) && (a.z * x) * b.z == x * (a.z * b.z);
  }

  /** The product of row i of the modelview matrix with the last row of the rotation. */
  lemma RowOnAxis(m: seq<real>, head: seq<real>, mv: seq<real>, scaling: V, rotation: seq<real>, i: nat)
    requires IsRotation(rotation) && IsScaled(mv, scaling, rotation) && IsProduct(m, head, mv) && i < 3
    ensures Dot(Row(m, i), Row(rotation, 2)) == At(head, i, 2) * scaling.z
  {
    var h := Row(head, i);
    var x, y, z := h.x * scaling.x, h.y * scaling.y, h.z * scaling.z;
    var q := Add(Add(Scale(Row(rotation, 0), x), Scale(Row(rotation, 1), y)), Scale(Row(rotation, 2), z));
    ProductRow(m, head, mv, scaling, rotation, i, h, q);
    Picked(Row(rotation, 0), Row(rotation, 1), Row(rotation, 2), x, y, z);
  }

  /** v times the matrix of the rows a, b, c is the third unit vector; so v picks the third number
      of r from the products of the rows with r. */
  lemma PicksThird(v: V, a: V, b: V, c: V, r: V)
    requires v.x * a.x + v.y * b.x + v.z * c.x == 0.0 && v.x * a.y + v.y * b.y + v.z * c.y == 0.0
    requires v.x * a.z + v.y * b.z + v.z * c.z == 1.0
    ensures v.x * Dot(a, r) + v.y * Dot(b, r) + v.z * Dot(c, r) == r.z
  {
    var x, y, z := v.x * a.x + v.y * b.x + v.z * c.x, v.x * a.y + v.y * b.y + v.z * c.y, v.x * a.z + v.y * b.z + v.z * c.z;
    assert x * r.x + y * r.y + z * r.z == v.x * Dot(a, r) + v.y * Dot(b, r) + v.z * Dot(c, r);
  }

  /** If the head transform keeps the eye axis, the inverse gives it the height of the rotation,
      divided by the scaling. */
  lemma TowardsIs(m: seq<real>, im: seq<real>, itm: seq<real>, head: seq<real>, mv: seq<real>, scaling: V, rotation: seq<real>)
    requires Inverted(m, im, itm) && IsRotation(head) && Row(head, 2) == Vec3(0.0, 0.0, 1.0)
    requires IsRotation(rotation) && IsScaled(mv, scaling, rotation) && IsProduct(m, head, mv)
    ensures scaling.z * At(im, 2, 2) == At(rotation, 2, 2)
  {
    var v := Row(im, 2);
    RowOnAxis(m, head, mv, scaling, rotation, 0);
    RowOnAxis(m, head, mv, scaling, rotation, 1);
    RowOnAxis(m, head, mv, scaling, rotation, 2);
    assert Product(im, m, 2, 0) == 0.0 && Product(im, m, 2, 1) == 0.0 && Product(im, m, 2, 2) == 1.0;
    assert At(m, 3, 0) == At(m, 3, 1) == At(m, 3, 2) == 0.0;
    PicksThird(v, Row(m, 0), Row(m, 1), Row(m, 2), Row(rotation, 2));
    assert At(head, 0, 2) == Dot(Row(head, 0), Row(head, 2)) && At(head, 1, 2) == Dot(Row(head, 1), Row(head, 2));
  }

  lemma SameSign(s: real, x: real, y: real)
    requires s > 0.0 && s * x == y
    ensures (x > 0.0 <==> y > 0.0) && (x == 0.0 <==> y == 0.0)
  {
    if x > 0.0 { assert s * x > 0.0; } else if x < 0.0 { assert s * (-x) > 0.0; }
  }

  lemma SameSide(m: seq<real>, im: seq<real>, itm: seq<real>, head: seq<real>, mv: seq<real>, scaling: V, rotation: seq<real>)
    requires Inverted(m, im, itm) && IsRotation(head) && Row(head, 2) == Vec3(0.0, 0.0, 1.0) && scaling.z > 0.0
    requires IsRotation(rotation) && IsScaled(mv, scaling, rotation) && IsProduct(m, head, mv)
    ensures (At(im, 2, 2) > 0.0 <==> Item(rotation, 10) > 0.0) && (At(im, 2, 2) == 0.0 <==> Item(rotation, 10) == 0.0)
  {
    TowardsIs(m, im, itm, head, mv, scaling, rotation);
    SameSign(scaling.z, At(im, 2, 2), At(rotation, 2, 2));
  }

  function Weight(d: V, i: nat): real { if i == 0 then d.x else if i == 1 then d.y else if i == 2 then d.z else 1.0 }

  ghost predicate IsDiagonal(m: seq<real>, d: V) {
    forall i: nat, k: nat :: i < 4 && k < 4 ==> At(m, i, k) == if i == k then Weight(d, i) else 0.0
  }

  lemma DiagonalProduct(a: seq<real>, b: seq<real>, d: V, e: V, i: nat, k: nat)
    requires IsDiagonal(a, d) && IsDiagonal(b, e) && i < 4 && k < 4
    ensures Product(a, b, i, k) == if i == k then Weight(d, i) * Weight(e, i) else 0.0
  {
    assert At(a, i, 0) == (if i == 0 then Weight(d, 0) else 0.0) && At(a, i, 1) == (if i == 1 then Weight(d, 1) else 0.0);
    assert At(a, i, 2) == (if i == 2 then Weight(d, 2) else 0.0) && At(a, i, 3) == (if i == 3 then Weight(d, 3) else 0.0);
    assert At(b, i, k) == if i == k then Weight(e, i) else 0.0;
  }

  lemma DiagonalRows(m: seq<real>, d: V)
    requires IsDiagonal(m, d)
    ensures Row(m, 0) == Vec3(d.x, 0.0, 0.0) && Row(m, 1) == Vec3(0.0, d.y, 0.0) && Row(m, 2) == Vec3(0.0, 0.0, d.z)
    ensures Affine(m)
  {
  }

  lemma DiagonalRotation(m: seq<real>, d: V)
    requires IsDiagonal(m, d) && d.x * d.x == 1.0 && d.y * d.y == 1.0 && d.z * d.z == 1.0
    ensures IsRotation(m)
  {
    DiagonalRows(m, d);
  }

  /** Half a circle about the y axis. */
  ghost predicate IsHalfTurn(m: seq<real>) { IsDiagonal(m, Vec3(-1.0, 1.0, -1.0)) }

  ghost predicate IsIdentity(m: seq<real>) { IsDiagonal(m, Vec3(1.0, 1.0, 1.0)) }

  lemma HalfTurnExists()
    ensures IsHalfTurn([-1.0, 0.0, 0.0, 0.0, 0.0, 1.0, 0.0, 0.0, 0.0, 0.0, -1.0, 0.0, 0.0, 0.0, 0.0, 1.0])
    ensures IsIdentity([1.0, 0.0, 0.0, 0.0, 0.0, 1.0, 0.0, 0.0, 0.0, 0.0, 1.0, 0.0, 0.0, 0.0, 0.0, 1.0])
  {
  }

  /** The half turn is head and modelview matrix, the identity is rotation. */
  lemma HalfTurnMatrices(m: seq<real>, itm: seq<real>, rotation: seq<real>)
    requires IsHalfTurn(m) && IsIdentity(rotation) && IsTransposed(itm, m)
    ensures IsRotation(m) && IsRotation(rotation) && IsScaled(rotation, Vec3(1.0, 1.0, 1.0), rotation)
    ensures IsProduct(m, m, rotation) && Inverted(m, m, itm) && At(m, 2, 2) == -1.0 && At(rotation, 2, 2) == 1.0
  {
    DiagonalRotation(m, Vec3(-1.0, 1.0, -1.0));
    DiagonalRotation(rotation, Vec3(1.0, 1.0, 1.0));
    DiagonalRows(m, Vec3(-1.0, 1.0, -1.0));
    DiagonalRows(rotation, Vec3(1.0, 1.0, 1.0));
    TurnProducts(m, rotation);
  }

  lemma TurnProducts(m: seq<real>, rotation: seq<real>)
    requires IsHalfTurn(m) && IsIdentity(rotation)
    ensures IsProduct(m, m, rotation) && IsInverse(m, m)
  {
    forall i: nat, k: nat | i < 4 && k < 4
      ensures At(m, i, k) == Product(m, rotation, i, k) && Product(m, m, i, k) == if i == k then 1.0 else 0.0
    {
      DiagonalProduct(m, rotation, Vec3(-1.0, 1.0, -1.0), Vec3(1.0, 1.0, 1.0), i, k);
      DiagonalProduct(m, m, Vec3(-1.0, 1.0, -1.0), Vec3(-1.0, 1.0, -1.0), i, k);
    }
  }

  // ---- The scaling of the volume ----------------------------------------------------------

  function Max3(x: real, y: real, z: real): real {
    var yz := if y < z then z else y;
    if x < yz then yz else x
  }

  /** A size divided by the largest size, times the header's scaling. */
  function Share(s: real, size: nat, largest: real): real
    requires largest > 0.0
  {
    s * (size as real / largest)
  }

  function DividedByMost(x: real, y: real, z: real): V
    requires x > 0.0 && y > 0.0 && z > 0.0
  {
    var most := Max3(x, y, z);
    Vec3(x / most, y / most, z / most)
  }

  /** The proportions of the volume, from its sizes and the scaling in the file's header; the
      largest becomes 1. */
  function Proportions(w: nat, h: nat, d: nat, s: V): V
    requires w > 0 && h > 0 && d > 0 && s.x > 0.0 && s.y > 0.0 && s.z > 0.0
  {
    var largest := Max3(w as real, h as real, d as real);
    PositiveShare(s.x, w, largest); PositiveShare(s.y, h, largest); PositiveShare(s.z, d, largest);
    DividedByMost(Share(s.x, w, largest), Share(s.y, h, largest), Share(s.z, d, largest))
  }

  lemma PositiveShare(s: real, size: nat, largest: real)
    requires s > 0.0 && size > 0 && largest > 0.0
    ensures Share(s, size, largest) > 0.0
  {
    var q := size as real / largest;
    assert q > 0.0;
  }

  lemma AtMostOne(x: real, most: real)
    requires 0.0 < x <= most
    ensures 0.0 < x / most <= 1.0 && (x == most ==> x / most == 1.0)
  {
    var q := x / most;
    assert q * most == x;
    assert (1.0 - q) * most == most - x;
    Quotient(1.0 - q, most);
  }

  lemma Quotient(a: real, b: real)
    requires b > 0.0 && a * b >= 0.0
    ensures a >= 0.0
  {
    var k := -a;
    assert k * b == -(a * b);
    assert k <= 0.0 || k * b > 0.0;
  }

  lemma DividedInUnit(x: real, y: real, z: real)
    requires x > 0.0 && y > 0.0 && z > 0.0
    ensures var r := DividedByMost(x, y, z);
            0.0 < r.x <= 1.0 && 0.0 < r.y <= 1.0 && 0.0 < r.z <= 1.0 && (r.x == 1.0 || r.y == 1.0 || r.z == 1.0)
  {
    var most := Max3(x, y, z);
    AtMostOne(x, most);
    AtMostOne(y, most);
    AtMostOne(z, most);
  }

  /** Every proportion is in (0, 1], and the largest is 1. */
  lemma ProportionsInUnit(w: nat, h: nat, d: nat, s: V)
    requires w > 0 && h > 0 && d > 0 && s.x > 0.0 && s.y > 0.0 && s.z > 0.0
    ensures var r := Proportions(w, h, d, s);
            0.0 < r.x <= 1.0 && 0.0 < r.y <= 1.0 && 0.0 < r.z <= 1.0 && (r.x == 1.0 || r.y == 1.0 || r.z == 1.0)
  {
    var largest := Max3(w as real, h as real, d as real);
    PositiveShare(s.x, w, largest);
    PositiveShare(s.y, h, largest);
    PositiveShare(s.z, d, largest);
    DividedInUnit(Share(s.x, w, largest), Share(s.y, h, largest), Share(s.z, d, largest));
  }

  lemma SideKept(s: real, w: real, largest: real, most: real, k: real)
    requires largest > 0.0 && most > 0.0 && k == most * largest
    ensures ((s * (w / largest)) / most) * k == s * w
  {
    var a := w / largest;
    var r := (s * a) / most;
    assert a * largest == w;
    assert r * most == s * a;
    assert r * (most * largest) == (r * most) * largest == s * (a * largest);
  }

  lemma SidesKept(x: real, y: real, z: real, s: V, w: nat, h: nat, d: nat, largest: real, most: real, k: real)
    requires largest > 0.0 && most > 0.0 && k == most * largest
    requires x == Share(s.x, w, largest) / most && y == Share(s.y, h, largest) / most && z == Share(s.z, d, largest) / most
    ensures Scale(Vec3(x, y, z), k) == Vec3(s.x * w as real, s.y * h as real, s.z * d as real)
  {
    SideKept(s.x, w as real, largest, most, k);
    SideKept(s.y, h as real, largest, most, k);
    SideKept(s.z, d as real, largest, most, k);
    var v := Vec3(x, y, z);
    assert v.x * k == s.x * w as real && v.y * k == s.y * h as real && v.z * k == s.z * d as real;
    SameVector(Scale(v, k), Vec3(s.x * w as real, s.y * h as real, s.z * d as real));
  }

  /** The proportions are those of the sizes times the header's scaling. */
  lemma ProportionsKept(w: nat, h: nat, d: nat, s: V) returns (k: real)
    requires w > 0 && h > 0 && d > 0 && s.x > 0.0 && s.y > 0.0 && s.z > 0.0
    ensures k > 0.0 && Scale(Proportions(w, h, d, s), k) == Vec3(s.x * w as real, s.y * h as real, s.z * d as real)
  {
    var largest := Max3(w as real, h as real, d as real);
    PositiveShare(s.x, w, largest);
    PositiveShare(s.y, h, largest);
    PositiveShare(s.z, d, largest);
    var most := Max3(Share(s.x, w, largest), Share(s.y, h, largest), Share(s.z, d, largest));
    var r := Proportions(w, h, d, s);
    k := most * largest;
    SidesKept(r.x, r.y, r.z, s, w, h, d, largest, most, k);
  }
}
