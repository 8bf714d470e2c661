/** Bounding spheres over exact reals: the point-by-point expansion of a leaf
    sphere and the sphere an inner node derives from its two children. */
module Spheres {
  import opened MeshTypes

  type V = Vec3<real>
  type S = Sphere<real>

  function Add(a: V, b: V): V { Vec3(a.x + b.x, a.y + b.y, a.z + b.z) }
  function Sub(a: V, b: V): V { Vec3(a.x - b.x, a.y - b.y, a.z - b.z) }
  function Scale(a: V, k: real): V { Vec3(a.x * k, a.y * k, a.z * k) }
  function Dot(a: V, b: V): real { a.x * b.x + a.y * b.y + a.z * b.z }
  function SquaredLength(a: V): real { Dot(a, a) }

  /** What sqrtf is required to do, with exact arithmetic. */
  ghost predicate IsSqrt(sqrt: real -> real) {
    forall x: real :: x >= 0.0 ==> sqrt(x) >= 0.0 && sqrt(x) * sqrt(x) == x
  }

  /** The closed ball of a bounding sphere. */
  predicate Inside(p: V, s: S) {
    s.radius >= 0.0 && SquaredLength(Sub(p, s.center)) <= s.radius * s.radius
  }

  ghost predicate Encloses(outer: S, inner: S) {
    forall p: V :: Inside(p, inner) ==> Inside(p, outer)
  }

  /** vmml::vector::normalize. Of the results only SameSphere depends on its value at zero. */
  function Normalize(sqrt: real -> real, v: V): V {
    var length := sqrt(SquaredLength(v));
    if length == 0.0 then v else Scale(v, 1.0 / length)
  }

  // ---- Algebra -------------------------------------------------------------

  lemma SquareMonotone(a: real, b: real)
    requires 0.0 <= a && 0.0 <= b
    ensures a <= b <==> a * a <= b * b
  {
    if a < b { StrictSquare(a, b); } else if b < a { StrictSquare(b, a); }
  }

  lemma StrictSquare(a: real, b: real)
    requires 0.0 <= a < b
    ensures a * a < b * b
  {
    var k := b - a;
    assert k * k > 0.0;
    assert k * a >= 0.0;
    assert b * b == a * a + 2.0 * (k * a) + k * k;
  }

  lemma Lagrange(a: V, b: V)
    ensures Dot(a, b) * Dot(a, b) <= SquaredLength(a) * SquaredLength(b)
  {
    var i, j, k := a.x * b.y - a.y * b.x, a.y * b.z - a.z * b.y, a.x * b.z - a.z * b.x;
    assert SquaredLength(a) * SquaredLength(b) - Dot(a, b) * Dot(a, b) == i * i + j * j + k * k;
  }

  lemma CauchySchwarz(a: V, b: V, la: real, lb: real)
    requires 0.0 <= la && 0.0 <= lb
    requires SquaredLength(a) <= la * la && SquaredLength(b) <= lb * lb
    ensures Dot(a, b) <= la * lb
  {
    Lagrange(a, b);
    var p, q := SquaredLength(a), SquaredLength(b);
    assert 0.0 <= p && 0.0 <= q;
    assert p * q <= (la * la) * q <= (la * la) * (lb * lb);
    var m := la * lb;
    assert (la * la) * (lb * lb) == m * m;
    if Dot(a, b) > m {
      SquareMonotone(m, Dot(a, b));
      SquareMonotone(Dot(a, b), m);
    }
  }

  lemma SquaredLengthAdd(a: V, b: V)
    ensures SquaredLength(Add(a, b)) == SquaredLength(a) + 2.0 * Dot(a, b) + SquaredLength(b)
  {
  }

  lemma SquaredLengthScale(a: V, k: real)
    ensures SquaredLength(Scale(a, k)) == k * k * SquaredLength(a)
  {
  }

  lemma TriangleInequality(a: V, b: V, la: real, lb: real)
    requires 0.0 <= la && 0.0 <= lb
    requires SquaredLength(a) <= la * la && SquaredLength(b) <= lb * lb
    ensures SquaredLength(Add(a, b)) <= (la + lb) * (la + lb)
  {
    CauchySchwarz(a, b, la, lb);
    SquaredLengthAdd(a, b);
    assert (la + lb) * (la + lb) == la * la + 2.0 * (la * lb) + lb * lb;
  }

  /** p is the mean of a, b and c with weights u, v and w. */
  predicate IsMean(p: V, a: V, b: V, c: V, u: real, v: real, w: real) {
    && u >= 0.0 && v >= 0.0 && w >= 0.0 && u + v + w == 1.0
    && p == Add(Add(Scale(a, u), Scale(b, v)), Scale(c, w))
  }

  /** p is a point of the triangle a, b, c. */
  ghost predicate InTriangle(p: V, a: V, b: V, c: V) {
    exists u: real, v: real, w: real :: IsMean(p, a, b, c, u, v, w)
  }

  lemma ScaledWithin(a: V, k: real, r: real)
    requires k >= 0.0 && r >= 0.0 && SquaredLength(a) <= r * r
    ensures SquaredLength(Scale(a, k)) <= (k * r) * (k * r)
  {
    var s, kk := SquaredLength(a), k * k;
    SquaredLengthScale(a, k);
    assert kk * s <= kk * (r * r);
  }

  lemma MeanAlong(p: real, a: real, b: real, c: real, o: real, u: real, v: real, w: real, d: real, q: real)
    requires u + v + w == 1.0 && p == a * u + b * v + c * w && d == p - o
    requires q == (a - o) * u + (b - o) * v + (c - o) * w
    ensures d == q
  {
    assert o * (u + v + w) == o * u + o * v + o * w;
  }

  lemma MeanFrom(p: V, a: V, b: V, c: V, o: V, u: real, v: real, w: real)
    requires IsMean(p, a, b, c, u, v, w)
    ensures Sub(p, o) == Add(Add(Scale(Sub(a, o), u), Scale(Sub(b, o), v)), Scale(Sub(c, o), w))
  {
    var d, q := Sub(p, o), Add(Add(Scale(Sub(a, o), u), Scale(Sub(b, o), v)), Scale(Sub(c, o), w));
    MeanAlong(p.x, a.x, b.x, c.x, o.x, u, v, w, d.x, q.x);
    MeanAlong(p.y, a.y, b.y, c.y, o.y, u, v, w, d.y, q.y);
    MeanAlong(p.z, a.z, b.z, c.z, o.z, u, v, w, d.z, q.z);
    SameVector(d, q);
  }

  lemma Shares(u: real, v: real, w: real, r: real)
    requires u >= 0.0 && v >= 0.0 && w >= 0.0 && u + v + w == 1.0 && r >= 0.0
    ensures u * r >= 0.0 && v * r >= 0.0 && w * r >= 0.0 && u * r + v * r + w * r == r
  {
    assert (u + v + w) * r == u * r + v * r + w * r;
  }

  lemma SumWithin(x: V, y: V, z: V, i: real, j: real, k: real, r: real)
    requires i >= 0.0 && j >= 0.0 && k >= 0.0 && i + j + k == r
    requires SquaredLength(x) <= i * i && SquaredLength(y) <= j * j && SquaredLength(z) <= k * k
    ensures SquaredLength(Add(Add(x, y), z)) <= r * r
  {
    PairWithin(x, y, i, j, i + j);
    PairWithin(Add(x, y), z, i + j, k, r);
  }

  lemma PairWithin(a: V, b: V, la: real, lb: real, l: real)
    requires 0.0 <= la && 0.0 <= lb && l == la + lb && SquaredLength(a) <= la * la && SquaredLength(b) <= lb * lb
    ensures SquaredLength(Add(a, b)) <= l * l
  {
    TriangleInequality(a, b, la, lb);
  }

  /** A ball is convex. */
  lemma BallConvex(p: V, a: V, b: V, c: V, s: S)
    requires InTriangle(p, a, b, c) && Inside(a, s) && Inside(b, s) && Inside(c, s)
    ensures Inside(p, s)
  {
    var u: real, v: real, w: real :| IsMean(p, a, b, c, u, v, w);
    var o, r := s.center, s.radius;
    ScaledWithin(Sub(a, o), u, r);
    ScaledWithin(Sub(b, o), v, r);
    ScaledWithin(Sub(c, o), w, r);
    Shares(u, v, w, r);
    SumWithin(Scale(Sub(a, o), u), Scale(Sub(b, o), v), Scale(Sub(c, o), w), u * r, v * r, w * r, r);
    MeanFrom(p, a, b, c, o, u, v, w);
  }

  /** A ball lies inside another if the centre distance and its radius fit. */
  lemma BallInBall(outer: S, inner: S, k: real, p: V)
    requires 0.0 <= k && SquaredLength(Sub(inner.center, outer.center)) <= k * k
    requires 0.0 <= inner.radius && k + inner.radius <= outer.radius
    requires Inside(p, inner)
    ensures Inside(p, outer)
  {
    var a, b := Sub(p, inner.center), Sub(inner.center, outer.center);
    TriangleInequality(a, b, inner.radius, k);
    assert Add(a, b) == Sub(p, outer.center);
    SquareMonotone(inner.radius + k, outer.radius);
  }

  lemma NormalizeUnit(sqrt: real -> real, v: V)
    requires IsSqrt(sqrt) && SquaredLength(v) > 0.0
    ensures var d := sqrt(SquaredLength(v));
      d > 0.0 && Scale(Normalize(sqrt, v), d) == v && SquaredLength(Normalize(sqrt, v)) == 1.0
  {
    var d := sqrt(SquaredLength(v));
    assert d * d == SquaredLength(v);
    assert d != 0.0;
    var i := 1.0 / d;
    assert i * d == 1.0;
    var u := Normalize(sqrt, v);
    assert u == Scale(v, i);
    Cancel(v.x, u.x, i, d); Cancel(v.y, u.y, i, d); Cancel(v.z, u.z, i, d);
    SameVector(Scale(u, d), v);
    SquaredLengthScale(v, i);
    assert i * i * (d * d) == (i * d) * (i * d) == 1.0;
  }

  lemma Cancel(x: real, u: real, i: real, d: real)
    requires i * d == 1.0 && u == x * i
    ensures u * d == x
  {
    assert (x * i) * d == x * (i * d);
  }

  lemma SameVector(a: V, b: V)
    requires a.x == b.x && a.y == b.y && a.z == b.z
    ensures a == b
  {
  }

  lemma SqrtOfSquare(sqrt: real -> real, square: real, x: real)
    requires IsSqrt(sqrt) && x >= 0.0 && square == x * x
    ensures sqrt(square) == x
  {
    var y := sqrt(square);
    assert square >= 0.0;
    SquareMonotone(x, y);
    SquareMonotone(y, x);
  }

  // ---- Leaf: grow a sphere to a point outside it -----------------------------

  /** One expansion step of VertexBufferLeaf::updateBoundingSphere. */
  function Expand(sqrt: real -> real, s: S, p: V): S {
    var toPoint := Sub(p, s.center);
    var distance := sqrt(SquaredLength(toPoint));
    Sphere(Add(s.center, Scale(Normalize(sqrt, toPoint), 0.5 * (distance - s.radius))),
           (s.radius + distance) * 0.5)
  }

  /** Where the new centre lies on the line from the old centre to the point. */
  lemma ExpandOnLine(sqrt: real -> real, s: S, p: V, u: V, d: real)
    requires IsSqrt(sqrt) && s.radius >= 0.0 && !Inside(p, s)
    requires d == sqrt(SquaredLength(Sub(p, s.center))) && u == Normalize(sqrt, Sub(p, s.center))
    ensures d > s.radius && SquaredLength(u) == 1.0
    ensures var e, shift := Expand(sqrt, s, p), 0.5 * (d - s.radius);
      Sub(s.center, e.center) == Scale(u, -shift) && Sub(p, e.center) == Scale(u, d - shift)
  {
    var v, r, shift := Sub(p, s.center), s.radius, 0.5 * (d - s.radius);
    assert SquaredLength(v) > r * r >= 0.0;
    NormalizeUnit(sqrt, v);
    SquareMonotone(d, r);
    MoveTowards(s.center, p, u, d, shift);
  }

  lemma MoveTowards(c: V, p: V, u: V, d: real, shift: real)
    requires Scale(u, d) == Sub(p, c)
    ensures Sub(c, Add(c, Scale(u, shift))) == Scale(u, -shift)
    ensures Sub(p, Add(c, Scale(u, shift))) == Scale(u, d - shift)
  {
    Towards(c.x, p.x, u.x, d, shift); Towards(c.y, p.y, u.y, d, shift); Towards(c.z, p.z, u.z, d, shift);
    var m := Add(c, Scale(u, shift));
    SameVector(Sub(c, m), Scale(u, -shift));
    SameVector(Sub(p, m), Scale(u, d - shift));
  }

  lemma Towards(c: real, p: real, u: real, d: real, shift: real)
    requires u * d == p - c
    ensures c - (c + u * shift) == u * (-shift)
    ensures p - (c + u * shift) == u * (d - shift)
  {
    var a := u * shift;
    assert u * (-shift) == -a;
    assert u * (d - shift) == u * d - a;
  }

  /** The expanded sphere contains the old sphere and the new point. */
  lemma ExpandKeeps(sqrt: real -> real, s: S, p: V)
    requires IsSqrt(sqrt) && s.radius >= 0.0 && !Inside(p, s)
    ensures Expand(sqrt, s, p).radius >= s.radius
    ensures Inside(p, Expand(sqrt, s, p))
    ensures Encloses(Expand(sqrt, s, p), s)
  {
    var d, u := sqrt(SquaredLength(Sub(p, s.center))), Normalize(sqrt, Sub(p, s.center));
    ExpandOnLine(sqrt, s, p, u, d);
    GrownBall(s, Expand(sqrt, s, p), p, u, d, 0.5 * (d - s.radius));
  }

  lemma GrownBall(s: S, e: S, p: V, u: V, d: real, shift: real)
    requires 0.0 <= s.radius <= d && SquaredLength(u) == 1.0
    requires shift == 0.5 * (d - s.radius) && e.radius == (s.radius + d) * 0.5
    requires Sub(s.center, e.center) == Scale(u, -shift) && Sub(p, e.center) == Scale(u, d - shift)
    ensures Inside(p, e) && Encloses(e, s)
  {
    SquaredLengthScale(u, -shift);
    SquaredLengthScale(u, d - shift);
    forall q: V | Inside(q, s) ensures Inside(q, e) {
      BallInBall(e, s, shift, q);
    }
  }

  /** No two points of a ball are farther apart than its diameter. */
  lemma Diameter(s: S, p: V, q: V, u: V, d: real)
    requires Inside(p, s) && Inside(q, s) && SquaredLength(u) == 1.0 && d >= 0.0 && Sub(p, q) == Scale(u, d)
    ensures d <= 2.0 * s.radius
  {
    var a, b, r := Sub(p, s.center), Sub(q, s.center), s.radius;
    var c := Scale(b, -1.0);
    assert SquaredLength(c) == SquaredLength(b);
    PairWithin(a, c, r, r, 2.0 * r);
    SameVector(Add(a, c), Sub(p, q));
    SquaredLengthOfUnit(u, d);
    SquareMonotone(d, 2.0 * r);
  }

  /** It is the smallest sphere that does: no ball around the old one and the point is smaller. */
  lemma ExpandLeast(sqrt: real -> real, s: S, p: V, other: S)
    requires IsSqrt(sqrt) && s.radius >= 0.0 && !Inside(p, s)
    requires Encloses(other, s) && Inside(p, other)
    ensures Expand(sqrt, s, p).radius <= other.radius
  {
    var d, u := sqrt(SquaredLength(Sub(p, s.center))), Normalize(sqrt, Sub(p, s.center));
    ExpandOnLine(sqrt, s, p, u, d);
    NormalizeUnit(sqrt, Sub(p, s.center));
    var q := Sub(s.center, Scale(u, s.radius));
    Opposite(s.center, p, u, d, s.radius);
    SquaredLengthOfUnit(u, -s.radius);
    assert Inside(q, s);
    Diameter(other, p, q, u, d + s.radius);
  }

  lemma Opposite(c: V, p: V, u: V, d: real, r: real)
    requires Scale(u, d) == Sub(p, c)
    ensures var q := Sub(c, Scale(u, r)); Sub(q, c) == Scale(u, -r) && Sub(p, q) == Scale(u, d + r)
  {
    var q := Sub(c, Scale(u, r));
    Behind(c.x, p.x, u.x, d, r); Behind(c.y, p.y, u.y, d, r); Behind(c.z, p.z, u.z, d, r);
    SameVector(Sub(q, c), Scale(u, -r));
    SameVector(Sub(p, q), Scale(u, d + r));
  }

  lemma Behind(c: real, p: real, u: real, d: real, r: real)
    requires u * d == p - c
    ensures (c - u * r) - c == u * (-r) && p - (c - u * r) == u * (d + r)
  {
    assert u * (d + r) == u * d + u * r;
  }

  // ---- Inner node: one sphere around two -------------------------------------

  /** VertexBufferNode::updateBoundingSphere on the children's spheres. */
  function NodeSphere(sqrt: real -> real, s1: S, s2: S): S {
    NodeSphereAlong(sqrt, Normalize(sqrt, Sub(s2.center, s1.center)), s1, s2)
  }

  /** The same with the normalised direction between the centres as a parameter. */
  function NodeSphereAlong(sqrt: real -> real, u: V, s1: S, s2: S): S {
    var outer1 := Sub(s1.center, Scale(u, s1.radius));
    var outer2 := Add(s2.center, Scale(u, s2.radius));
    Sphere(Scale(Add(outer1, outer2), 0.5),
           sqrt(SquaredLength(Sub(outer1, outer2))) * 0.5)
  }

  function CentreDistance(sqrt: real -> real, s1: S, s2: S): real {
    sqrt(SquaredLength(Sub(s2.center, s1.center)))
  }

  predicate CentresDiffer(s1: S, s2: S) {
    SquaredLength(Sub(s2.center, s1.center)) > 0.0
  }

  /** Position and size of the node sphere on the line through the centres. */
  lemma NodeSphereOnLine(sqrt: real -> real, s1: S, s2: S, u: V, d: real)
    requires IsSqrt(sqrt) && s1.radius >= 0.0 && s2.radius >= 0.0 && CentresDiffer(s1, s2)
    requires d == sqrt(SquaredLength(Sub(s2.center, s1.center)))
    requires u == Normalize(sqrt, Sub(s2.center, s1.center))
    ensures d > 0.0 && SquaredLength(u) == 1.0
    ensures OnCentreLine(NodeSphere(sqrt, s1, s2), s1, s2, u, d)
  {
    NormalizeUnit(sqrt, Sub(s2.center, s1.center));
    var outer1 := Sub(s1.center, Scale(u, s1.radius));
    var outer2 := Add(s2.center, Scale(u, s2.radius));
    var w := d + s1.radius + s2.radius;
    OuterPoints(s1, s2, u, d, outer1, outer2);
    SquaredLengthOfUnit(u, -w);
    SqrtOfSquare(sqrt, SquaredLength(Sub(outer1, outer2)), w);
  }

  /** s is centred between the outer points of s1 and s2 and reaches both. */
  predicate OnCentreLine(s: S, s1: S, s2: S, u: V, d: real) {
    && s.radius == (d + s1.radius + s2.radius) * 0.5
    && Sub(s1.center, s.center) == Scale(u, -(d + s2.radius - s1.radius) * 0.5)
    && Sub(s2.center, s.center) == Scale(u, (d + s1.radius - s2.radius) * 0.5)
  }

  lemma SquaredLengthOfUnit(u: V, k: real)
    requires SquaredLength(u) == 1.0
    ensures SquaredLength(Scale(u, k)) == k * k
  {
    SquaredLengthScale(u, k);
  }

  lemma OuterPoints(s1: S, s2: S, u: V, d: real, outer1: V, outer2: V)
    requires Scale(u, d) == Sub(s2.center, s1.center)
    requires outer1 == Sub(s1.center, Scale(u, s1.radius)) && outer2 == Add(s2.center, Scale(u, s2.radius))
    ensures Sub(outer1, outer2) == Scale(u, -(d + s1.radius + s2.radius))
    ensures var c := Scale(Add(outer1, outer2), 0.5);
      && Sub(s1.center, c) == Scale(u, -(d + s2.radius - s1.radius) * 0.5)
      && Sub(s2.center, c) == Scale(u, (d + s1.radius - s2.radius) * 0.5)
  {
    var r1, r2, c1, c2 := s1.radius, s2.radius, s1.center, s2.center;
    OnLine(c1.x, c2.x, u.x, d, r1, r2);
    OnLine(c1.y, c2.y, u.y, d, r1, r2);
    OnLine(c1.z, c2.z, u.z, d, r1, r2);
    var c := Scale(Add(outer1, outer2), 0.5);
    SameVector(Sub(outer1, outer2), Scale(u, -(d + r1 + r2)));
    SameVector(Sub(c1, c), Scale(u, -(d + r2 - r1) * 0.5));
    SameVector(Sub(c2, c), Scale(u, (d + r1 - r2) * 0.5));
  }

  lemma OnLine(c1: real, c2: real, u: real, d: real, r1: real, r2: real)
    requires c2 - c1 == u * d
    ensures (c1 - u * r1) - (c2 + u * r2) == u * (-(d + r1 + r2))
    ensures c1 - ((c1 - u * r1) + (c2 + u * r2)) * 0.5 == u * (-(d + r2 - r1) * 0.5)
    ensures c2 - ((c1 - u * r1) + (c2 + u * r2)) * 0.5 == u * ((d + r1 - r2) * 0.5)
  {
    assert u * (-(d + r1 + r2)) == -(u * d) - u * r1 - u * r2;
    assert u * (-(d + r2 - r1) * 0.5) == (-(u * d) - u * r2 + u * r1) * 0.5;
    assert u * ((d + r1 - r2) * 0.5) == (u * d + u * r1 - u * r2) * 0.5;
  }

  /** For differing centres, the node sphere encloses a child exactly when that
      child is not larger than the other child and the centre distance together,
      that is, when the other child does not lie in its interior. */
  lemma NodeSphereEncloses(sqrt: real -> real, s1: S, s2: S)
    requires IsSqrt(sqrt) && s1.radius >= 0.0 && s2.radius >= 0.0 && CentresDiffer(s1, s2)
    ensures NodeSphere(sqrt, s1, s2).radius >= 0.0
    ensures Encloses(NodeSphere(sqrt, s1, s2), s1) <==> s1.radius <= CentreDistance(sqrt, s1, s2) + s2.radius
    ensures Encloses(NodeSphere(sqrt, s1, s2), s2) <==> s2.radius <= CentreDistance(sqrt, s1, s2) + s1.radius
  {
    var d, u := CentreDistance(sqrt, s1, s2), Normalize(sqrt, Sub(s2.center, s1.center));
    NodeSphereOnLine(sqrt, s1, s2, u, d);
    SphereOnCentreLine(NodeSphere(sqrt, s1, s2), s1, s2, u, d);
  }

  /** No ball that encloses both children is smaller than their node sphere. */
  lemma NodeSphereLeast(sqrt: real -> real, s1: S, s2: S, other: S)
    requires IsSqrt(sqrt) && s1.radius >= 0.0 && s2.radius >= 0.0 && CentresDiffer(s1, s2)
    requires Encloses(other, s1) && Encloses(other, s2)
    ensures NodeSphere(sqrt, s1, s2).radius <= other.radius
  {
    var d, u := CentreDistance(sqrt, s1, s2), Normalize(sqrt, Sub(s2.center, s1.center));
    NodeSphereOnLine(sqrt, s1, s2, u, d);
    NormalizeUnit(sqrt, Sub(s2.center, s1.center));
    var outer1, outer2 := Sub(s1.center, Scale(u, s1.radius)), Add(s2.center, Scale(u, s2.radius));
    OuterInside(s1, s2, u, d, outer1, outer2);
    Diameter(other, outer2, outer1, u, d + s1.radius + s2.radius);
  }

  lemma OuterInside(s1: S, s2: S, u: V, d: real, outer1: V, outer2: V)
    requires SquaredLength(u) == 1.0 && s1.radius >= 0.0 && s2.radius >= 0.0 && Scale(u, d) == Sub(s2.center, s1.center)
    requires outer1 == Sub(s1.center, Scale(u, s1.radius)) && outer2 == Add(s2.center, Scale(u, s2.radius))
    ensures Inside(outer1, s1) && Inside(outer2, s2) && Sub(outer2, outer1) == Scale(u, d + s1.radius + s2.radius)
  {
    Opposite(s1.center, s2.center, u, d, s1.radius);
    FarPointOffsets(outer1, s2.center, u, d + s1.radius, s2.radius);
    SquaredLengthOfUnit(u, -s1.radius);
    SquaredLengthOfUnit(u, s2.radius);
  }

  lemma SphereOnCentreLine(s: S, s1: S, s2: S, u: V, d: real)
    requires d > 0.0 && SquaredLength(u) == 1.0 && s1.radius >= 0.0 && s2.radius >= 0.0
    requires OnCentreLine(s, s1, s2, u, d)
    ensures Encloses(s, s1) <==> s1.radius <= d + s2.radius
    ensures Encloses(s, s2) <==> s2.radius <= d + s1.radius
  {
    var k1, k2 := (d + s2.radius - s1.radius) * 0.5, (d + s1.radius - s2.radius) * 0.5;
    if k1 < 0.0 {
      FarPoint(s, s1, u, -k1);
    } else {
      SquaredLengthOfUnit(u, -k1);
      forall p: V | Inside(p, s1) ensures Inside(p, s) { BallInBall(s, s1, k1, p); }
    }
    if k2 < 0.0 {
      Reversed(u, -k2);
      FarPoint(s, s2, Scale(u, -1.0), -k2);
    } else {
      SquaredLengthOfUnit(u, k2);
      forall p: V | Inside(p, s2) ensures Inside(p, s) { BallInBall(s, s2, k2, p); }
    }
  }

  lemma Reversed(u: V, k: real)
    ensures SquaredLength(Scale(u, -1.0)) == SquaredLength(u)
    ensures Scale(Scale(u, -1.0), k) == Scale(u, -k)
  {
    var v := Scale(u, -1.0);
    Negated(u.x, v.x, k); Negated(u.y, v.y, k); Negated(u.z, v.z, k);
    SameVector(Scale(v, k), Scale(u, -k));
  }

  lemma Negated(x: real, y: real, k: real)
    requires y == x * -1.0
    ensures y * k == x * (-k)
  {
  }

  /** The point of the inner ball farthest from the outer centre sticks out. */
  lemma FarPoint(outer: S, inner: S, u: V, k: real)
    requires k >= 0.0 && SquaredLength(u) == 1.0
    requires Sub(inner.center, outer.center) == Scale(u, k)
    requires inner.radius >= 0.0 && k + inner.radius > outer.radius >= 0.0
    ensures !Encloses(outer, inner)
  {
    var r := inner.radius;
    var p := Add(inner.center, Scale(u, r));
    FarPointOffsets(outer.center, inner.center, u, k, r);
    SquaredLengthOfUnit(u, r);
    SquaredLengthOfUnit(u, k + r);
    assert Inside(p, inner);
    SquareMonotone(k + r, outer.radius);
  }

  lemma FarPointOffsets(outer: V, inner: V, u: V, k: real, r: real)
    requires Sub(inner, outer) == Scale(u, k)
    ensures Sub(Add(inner, Scale(u, r)), inner) == Scale(u, r)
    ensures Sub(Add(inner, Scale(u, r)), outer) == Scale(u, k + r)
  {
    Beyond(outer.x, inner.x, u.x, k, r); Beyond(outer.y, inner.y, u.y, k, r); Beyond(outer.z, inner.z, u.z, k, r);
    var p := Add(inner, Scale(u, r));
    SameVector(Sub(p, inner), Scale(u, r));
    SameVector(Sub(p, outer), Scale(u, k + r));
  }

  lemma Beyond(outer: real, inner: real, u: real, k: real, r: real)
    requires inner - outer == u * k
    ensures (inner + u * r) - inner == u * r
    ensures (inner + u * r) - outer == u * (k + r)
  {
    var a := u * r;
    assert u * (k + r) == u * k + a;
  }

  /** A concrete pair on which VertexBufferNode::updateBoundingSphere loses part
      of a child: a ball of radius 10 around the origin, and a small one in it. */
  lemma NestedChildEscapes(sqrt: real -> real, big: S, small: S)
    requires IsSqrt(sqrt)
    requires big == Sphere(Vec3(0.0, 0.0, 0.0), 10.0) && small == Sphere(Vec3(1.0, 0.0, 0.0), 1.0)
    ensures !Encloses(NodeSphere(sqrt, big, small), big)
  {
    assert SquaredLength(Sub(small.center, big.center)) == 1.0;
    SqrtOfSquare(sqrt, SquaredLength(Sub(small.center, big.center)), 1.0);
    NodeSphereEncloses(sqrt, big, small);
  }

  // ---- Inner node: coincident centres ----------------------------------------

  function Least(a: real, b: real): real { if a <= b then a else b }

  /** For equal centres everything depends on what normalize answers at zero, here any vector
      w of the given length: a child is enclosed exactly when its radius is not above length
      times the smaller radius. */
  lemma CoincidentCentres(sqrt: real -> real, w: V, length: real, s1: S, s2: S)
    requires IsSqrt(sqrt) && s1.radius >= 0.0 && s2.radius >= 0.0 && s1.center == s2.center
    requires length >= 0.0 && length * length == SquaredLength(w)
    ensures var s := NodeSphereAlong(sqrt, w, s1, s2);
      && (Encloses(s, s1) <==> s1.radius <= length * Least(s1.radius, s2.radius))
      && (Encloses(s, s2) <==> s2.radius <= length * Least(s1.radius, s2.radius))
  {
    var s := NodeSphereAlong(sqrt, w, s1, s2);
    CoincidentSphere(sqrt, w, length, s1, s2, s);
    OffsetSphere(w, length, s, s1, s2, length * Least(s1.radius, s2.radius));
  }

  lemma OffsetSphere(w: V, length: real, s: S, s1: S, s2: S, m: real)
    requires s1.radius >= 0.0 && s2.radius >= 0.0 && s1.center == s2.center
    requires length >= 0.0 && length * length == SquaredLength(w) && m == length * Least(s1.radius, s2.radius)
    requires s.radius == length * (s1.radius + s2.radius) * 0.5
    requires Sub(s1.center, s.center) == Scale(w, (s1.radius - s2.radius) * 0.5)
    ensures Encloses(s, s1) <==> s1.radius <= m
    ensures Encloses(s, s2) <==> s2.radius <= m
  {
    var k := (s1.radius - s2.radius) * 0.5;
    var u, d := UnitAlong(w, length, k);
    Offset(s1.radius, s2.radius, length, k, d, s.radius);
    OffsetBall(s, s1, u, d, m);
    OffsetBall(s, s2, u, d, m);
  }

  /** Where the sphere is then, and how large. */
  lemma CoincidentSphere(sqrt: real -> real, w: V, length: real, s1: S, s2: S, s: S)
    requires IsSqrt(sqrt) && s1.radius >= 0.0 && s2.radius >= 0.0 && s1.center == s2.center
    requires length >= 0.0 && length * length == SquaredLength(w) && s == NodeSphereAlong(sqrt, w, s1, s2)
    ensures s.radius == length * (s1.radius + s2.radius) * 0.5
    ensures Sub(s1.center, s.center) == Scale(w, (s1.radius - s2.radius) * 0.5)
  {
    var outer1 := Sub(s1.center, Scale(w, s1.radius));
    var outer2 := Add(s2.center, Scale(w, s2.radius));
    var sum := s1.radius + s2.radius;
    Zero(w);
    OuterPoints(s1, s2, w, 0.0, outer1, outer2);
    SquaredLengthScale(w, -(0.0 + s1.radius + s2.radius));
    assert length * length * ((-sum) * (-sum)) == (length * sum) * (length * sum);
    SqrtOfSquare(sqrt, SquaredLength(Sub(outer1, outer2)), length * sum);
  }

  lemma Zero(w: V)
    ensures Scale(w, 0.0) == Vec3(0.0, 0.0, 0.0)
  {
  }

  /** w times k is a unit vector times the distance. */
  lemma UnitAlong(w: V, length: real, k: real) returns (u: V, d: real)
    requires length >= 0.0 && length * length == SquaredLength(w)
    ensures d >= 0.0 && SquaredLength(u) == 1.0 && Scale(w, k) == Scale(u, d)
    ensures d == length * (if k >= 0.0 then k else -k)
  {
    d := length * (if k >= 0.0 then k else -k);
    if length == 0.0 {
      u := Vec3(1.0, 0.0, 0.0);
      ZeroLength(w);
      SameVector(Scale(w, k), Scale(u, d));
    } else {
      var i := if k >= 0.0 then 1.0 / length else -1.0 / length;
      u := Scale(w, i);
      Shrunk(w, u, length, i, k, d);
    }
  }

  lemma ZeroLength(w: V)
    requires SquaredLength(w) == 0.0
    ensures w == Vec3(0.0, 0.0, 0.0)
  {
    NoNegativeSquare(w.x);
    NoNegativeSquare(w.y);
    NoNegativeSquare(w.z);
  }

  lemma NoNegativeSquare(x: real)
    ensures x * x >= 0.0 && (x * x == 0.0 ==> x == 0.0)
  {
    if x > 0.0 {
      StrictSquare(0.0, x);
    } else if x < 0.0 {
      StrictSquare(0.0, -x);
      assert (-x) * (-x) == x * x;
    } else {
      assert x * x == 0.0 * 0.0;
    }
  }

  lemma Shrunk(w: V, u: V, length: real, i: real, k: real, d: real)
    requires length > 0.0 && length * length == SquaredLength(w) && u == Scale(w, i)
    requires i == (if k >= 0.0 then 1.0 / length else -1.0 / length)
    requires d == length * (if k >= 0.0 then k else -k)
    ensures SquaredLength(u) == 1.0 && Scale(w, k) == Scale(u, d) && d >= 0.0
  {
    Inverse(length, i, k);
    UnitLength(w, u, length, i);
    DistanceBack(length, i, k, d);
    RescaledAll(w, u, i, d, k);
  }

  lemma UnitLength(w: V, u: V, length: real, i: real)
    requires length * length == SquaredLength(w) && u == Scale(w, i) && (length * i == 1.0 || length * i == -1.0)
    ensures SquaredLength(u) == 1.0
  {
    SquaredLengthScale(w, i);
    SquareOfOne(length, i, SquaredLength(w));
  }

  lemma RescaledAll(w: V, u: V, i: real, d: real, k: real)
    requires u == Scale(w, i) && i * d == k
    ensures Scale(w, k) == Scale(u, d)
  {
    Rescaled(w.x, u.x, i, d, k); Rescaled(w.y, u.y, i, d, k); Rescaled(w.z, u.z, i, d, k);
    SameVector(Scale(w, k), Scale(u, d));
  }

  lemma Inverse(length: real, i: real, k: real)
    requires length > 0.0 && i == (if k >= 0.0 then 1.0 / length else -1.0 / length)
    ensures length * i == 1.0 || length * i == -1.0
  {
  }

  lemma SquareOfOne(length: real, i: real, square: real)
    requires (length * i == 1.0 || length * i == -1.0) && length * length == square
    ensures i * i * square == 1.0
  {
    assert i * i * (length * length) == (length * i) * (length * i);
  }

  lemma DistanceBack(length: real, i: real, k: real, d: real)
    requires length > 0.0 && i == (if k >= 0.0 then 1.0 / length else -1.0 / length)
    requires d == length * (if k >= 0.0 then k else -k)
    ensures i * d == k && d >= 0.0
  {
    var one := 1.0 / length;
    assert one * length == 1.0;
    assert k >= 0.0 ==> one * (length * k) == (one * length) * k;
    assert k < 0.0 ==> (-one) * (length * -k) == (one * length) * k;
  }

  lemma Rescaled(x: real, y: real, i: real, d: real, k: real)
    requires y == x * i && i * d == k
    ensures x * k == y * d
  {
    assert (x * i) * d == x * (i * d);
  }

  lemma Offset(r1: real, r2: real, length: real, k: real, d: real, big: real)
    requires k == (r1 - r2) * 0.5 && d == length * (if k >= 0.0 then k else -k) && big == length * (r1 + r2) * 0.5
    requires r1 >= 0.0 && r2 >= 0.0 && length >= 0.0
    ensures big - d == length * Least(r1, r2) && big >= 0.0
  {
    assert length * r1 >= 0.0 && length * r2 >= 0.0;
    assert big == (length * r1 + length * r2) * 0.5;
    assert length * k == (length * r1 - length * r2) * 0.5;
  }

  /** A ball off the centre by d is enclosed exactly when its radius fits in what is left. */
  lemma OffsetBall(outer: S, inner: S, u: V, d: real, m: real)
    requires d >= 0.0 && SquaredLength(u) == 1.0 && Sub(inner.center, outer.center) == Scale(u, d)
    requires inner.radius >= 0.0 && outer.radius >= 0.0 && outer.radius - d == m
    ensures Encloses(outer, inner) <==> inner.radius <= m
  {
    if d + inner.radius > outer.radius {
      FarPoint(outer, inner, u, d);
    } else {
      SquaredLengthOfUnit(u, d);
      forall p: V | Inside(p, inner) ensures Inside(p, outer) { BallInBall(outer, inner, d, p); }
    }
  }

  /** Two equal balls, as two leaves over the same vertices have them: if normalize answers
      zero at zero, their node sphere is a point. */
  lemma EqualSpheresEscape(sqrt: real -> real, s: S)
    requires IsSqrt(sqrt) && s == Sphere(Vec3(0.0, 0.0, 0.0), 1.0)
    ensures !Encloses(NodeSphereAlong(sqrt, Vec3(0.0, 0.0, 0.0), s, s), s)
  {
    CoincidentCentres(sqrt, Vec3(0.0, 0.0, 0.0), 0.0, s, s);
  }

  /** The node sphere of two equal balls is their centre. */
  lemma SameSphere(sqrt: real -> real, s: S)
    requires IsSqrt(sqrt)
    ensures NodeSphere(sqrt, s, s) == Sphere(s.center, 0.0)
  {
    var zero := Sub(s.center, s.center);
    assert zero == Vec3(0.0, 0.0, 0.0) && SquaredLength(zero) == 0.0;
    ZeroRoot(sqrt);
    assert Normalize(sqrt, zero) == zero;
    var outer1, outer2 := Sub(s.center, Scale(zero, s.radius)), Add(s.center, Scale(zero, s.radius));
    assert outer1 == s.center && outer2 == s.center;
  }

  lemma ZeroRoot(sqrt: real -> real)
    requires IsSqrt(sqrt)
    ensures sqrt(0.0) == 0.0
  {
    SqrtOfSquare(sqrt, 0.0, 0.0);
  }
}
