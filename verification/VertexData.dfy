/** The flat mesh data of examples/eqPly/vertexData.cpp: the triangle order,
    the in-place sort of a triangle range and the longest bounding box axis. */
module VertexData {
  import opened MeshTypes

  type V = Vec3<real>

  const Origin: V := Vec3(0.0, 0.0, 0.0)

  /** a[i]; the default is never reached for an index of a valid mesh. */
  function Fetch<T>(a: seq<T>, i: nat, default: T): T {
    if i < |a| then a[i] else default
  }

  /** The per-vertex arrays, which building the tree only reads. */
  datatype Mesh = Mesh(vertices: seq<V>, colors: seq<Color>, normals: seq<V>) {
    predicate Valid() {
      |normals| == |vertices| && (colors == [] || |colors| == |vertices|)
    }

    predicate Has(t: Triangle) {
      t.a < |vertices| && t.b < |vertices| && t.c < |vertices|
    }

    predicate HasAll(s: seq<Triangle>) {
      forall i :: 0 <= i < |s| ==> Has(s[i])
    }

    function Vertex(i: nat): V { Fetch(vertices, i, Origin) }
  }

  function Coord(v: V, axis: Axis): real {
    if axis == 0 then v.x else if axis == 1 then v.y else v.z
  }

  function Next(axis: Axis): Axis { (axis + 1) % 3 }

  // ---- The triangle order --------------------------------------------------------

  function Median(m: Mesh, t: Triangle, axis: Axis): real {
    (Coord(m.Vertex(t.a), axis) + Coord(m.Vertex(t.b), axis) + Coord(m.Vertex(t.c), axis)) / 3.0
  }

  /** Lexicographic order of the centroids, starting with the given axis. */
  predicate Precedes(m: Mesh, axis: Axis, t1: Triangle, t2: Triangle) {
    var b, c := Next(axis), Next(Next(axis));
    || Median(m, t1, axis) < Median(m, t2, axis)
    || (Median(m, t1, axis) == Median(m, t2, axis) && Median(m, t1, b) < Median(m, t2, b))
    || (Median(m, t1, axis) == Median(m, t2, axis) && Median(m, t1, b) == Median(m, t2, b)
        && Median(m, t1, c) < Median(m, t2, c))
  }

  predicate SameCentroid(m: Mesh, t1: Triangle, t2: Triangle) {
    forall a: Axis :: Median(m, t1, a) == Median(m, t2, a)
  }

  /** _TriangleSort meets std::sort's demand of a strict weak order: two triangles
      are incomparable exactly when their centroids agree. */
  lemma StrictWeakOrder(m: Mesh, axis: Axis, t1: Triangle, t2: Triangle, t3: Triangle)
    ensures Precedes(m, axis, t1, t2) ==> !Precedes(m, axis, t2, t1)
    ensures Precedes(m, axis, t1, t2) && Precedes(m, axis, t2, t3) ==> Precedes(m, axis, t1, t3)
    ensures !Precedes(m, axis, t1, t2) && !Precedes(m, axis, t2, t1) <==> SameCentroid(m, t1, t2)
    ensures SameCentroid(m, t1, t2) && SameCentroid(m, t2, t3) ==> SameCentroid(m, t1, t3)
  {
    var b, c := Next(axis), Next(Next(axis));
    assert {axis, b, c} == {0, 1, 2};
  }

  /** Three times the centroid. */
  function CornerSum(m: Mesh, t: Triangle, axis: Axis): real {
    Coord(m.Vertex(t.a), axis) + Coord(m.Vertex(t.b), axis) + Coord(m.Vertex(t.c), axis)
  }

  /** The first difference decides. */
  predicate FirstSmaller(a: seq<real>, b: seq<real>)
    requires |a| == |b|
  {
    exists k :: 0 <= k < |a| && a[k] < b[k] && forall j :: 0 <= j < k ==> a[j] == b[j]
  }

  function CornerSums(m: Mesh, t: Triangle, axis: Axis): (r: seq<real>)
    ensures |r| == 3
  {
    [CornerSum(m, t, axis), CornerSum(m, t, (axis + 1) % 3), CornerSum(m, t, (axis + 2) % 3)]
  }

  /** Three times the key is the sum of the corners' coordinates. From the given axis on, the
      first one on which these sums differ decides, and the smaller sum comes first. */
  lemma SmallerSumFirst(m: Mesh, axis: Axis, t1: Triangle, t2: Triangle)
    ensures 3.0 * Median(m, t1, axis) == CornerSum(m, t1, axis)
    ensures Precedes(m, axis, t1, t2) <==> FirstSmaller(CornerSums(m, t1, axis), CornerSums(m, t2, axis))
  {
    var a, b := CornerSums(m, t1, axis), CornerSums(m, t2, axis);
    SumsInOrder(m, axis, t1, t2, a, b);
    if a[0] < b[0] || (a[0] == b[0] && a[1] < b[1]) || (a[0] == b[0] && a[1] == b[1] && a[2] < b[2]) {
      var k := if a[0] < b[0] then 0 else if a[1] < b[1] then 1 else 2;
      assert a[k] < b[k];
    }
  }

  lemma SumsInOrder(m: Mesh, axis: Axis, t1: Triangle, t2: Triangle, a: seq<real>, b: seq<real>)
    requires a == CornerSums(m, t1, axis) && b == CornerSums(m, t2, axis)
    ensures Precedes(m, axis, t1, t2) <==>
            a[0] < b[0] || (a[0] == b[0] && a[1] < b[1]) || (a[0] == b[0] && a[1] == b[1] && a[2] < b[2])
  {
    assert Next(axis) == (axis + 1) % 3 && Next(Next(axis)) == (axis + 2) % 3;
  }

  /** _TriangleSort::operator(): step through the axes until the medians differ. */
  method Compare(m: Mesh, axis0: Axis, t1: Triangle, t2: Triangle) returns (r: bool)
    ensures r == Precedes(m, axis0, t1, t2)
  {
    var axis := axis0;
    ghost var steps := 0;
    while true
      invariant 0 <= steps < 3 && axis == (axis0 + steps) % 3
      invariant steps > 0 ==> Median(m, t1, axis0) == Median(m, t2, axis0)
      invariant steps > 1 ==> Median(m, t1, Next(axis0)) == Median(m, t2, Next(axis0))
      decreases 3 - steps
    {
      var median1 := Median(m, t1, axis);
      var median2 := Median(m, t2, axis);
      if median1 != median2 {
        return median1 < median2;
      }
      axis := Next(axis);
      if axis == axis0 {
        return false;
      }
      steps := steps + 1;
    }
  }

  ghost predicate Sorted(m: Mesh, axis: Axis, s: seq<Triangle>) {
    forall i, j :: 0 <= i < j < |s| ==> !Precedes(m, axis, s[j], s[i])
  }

  /** What std::sort is required to do with _TriangleSort: any function of the given
      range that returns it rearranged into a sorted order. */
  type Sorter = (Mesh, Axis, seq<Triangle>) -> seq<Triangle>

  ghost predicate IsSorter(sort: Sorter) {
    forall m: Mesh, axis: Axis, s: seq<Triangle> ::
      multiset(sort(m, axis, s)) == multiset(s) && Sorted(m, axis, sort(m, axis, s))
  }

  /** Such functions exist: insertion sort is one. */
  function InsertionSort(m: Mesh, axis: Axis, s: seq<Triangle>): (r: seq<Triangle>)
    ensures multiset(r) == multiset(s) && Sorted(m, axis, r)
  {
    if s == [] then [] else
      var n := |s| - 1;
      assert s == s[..n] + [s[n]];
      Insert(m, axis, InsertionSort(m, axis, s[..n]), s[n])
  }

  function Insert(m: Mesh, axis: Axis, q: seq<Triangle>, t: Triangle): (r: seq<Triangle>)
    requires Sorted(m, axis, q)
    ensures multiset(r) == multiset(q) + multiset{t} && Sorted(m, axis, r)
  {
    if q == [] then [t] else
      var n := |q| - 1;
      assert q == q[..n] + [q[n]];
      if Precedes(m, axis, t, q[n]) then
        var r := Insert(m, axis, q[..n], t);
        KeepLast(m, axis, q, t, r);
        r + [q[n]]
      else
        PutLast(m, axis, q, t);
        q + [t]
  }

  lemma PutLast(m: Mesh, axis: Axis, q: seq<Triangle>, t: Triangle)
    requires q != [] && Sorted(m, axis, q) && !Precedes(m, axis, t, q[|q| - 1])
    ensures Sorted(m, axis, q + [t])
  {
    var n := |q| - 1;
    forall i | 0 <= i < n ensures !Precedes(m, axis, t, q[i]) {
      StrictWeakOrder(m, axis, t, q[i], q[n]);
      StrictWeakOrder(m, axis, q[n], t, q[i]);
      StrictWeakOrder(m, axis, q[i], q[n], t);
    }
  }

  lemma KeepLast(m: Mesh, axis: Axis, q: seq<Triangle>, t: Triangle, r: seq<Triangle>)
    requires q != [] && Sorted(m, axis, q) && Precedes(m, axis, t, q[|q| - 1]) && Sorted(m, axis, r)
    requires multiset(r) == multiset(q[..|q| - 1]) + multiset{t}
    ensures Sorted(m, axis, r + [q[|q| - 1]])
  {
    var n := |q| - 1;
    forall i | 0 <= i < |r| ensures !Precedes(m, axis, q[n], r[i]) {
      assert r[i] in multiset(r);
      if r[i] == t {
        StrictWeakOrder(m, axis, t, q[n], t);
      } else {
        assert r[i] in multiset(q[..n]);
        var j :| 0 <= j < n && q[..n][j] == r[i];
      }
    }
  }

  lemma SorterExists()
    ensures IsSorter(InsertionSort)
  {
  }

  lemma SorterKeeps(sort: Sorter, m: Mesh, axis: Axis, s: seq<Triangle>)
    requires IsSorter(sort)
    ensures multiset(sort(m, axis, s)) == multiset(s) && |sort(m, axis, s)| == |s|
    ensures Sorted(m, axis, sort(m, axis, s))
  {
    var r := sort(m, axis, s);
    assert |r| == |multiset(r)| == |multiset(s)| == |s|;
  }

  lemma PermutationHas(m: Mesh, s: seq<Triangle>, r: seq<Triangle>)
    requires m.HasAll(s) && multiset(r) == multiset(s)
    ensures m.HasAll(r)
  {
    forall i | 0 <= i < |r| ensures m.Has(r[i]) {
      assert r[i] in multiset(r);
      assert r[i] in s;
    }
  }

  // ---- Bounding box and longest axis -----------------------------------------

  function Min(a: real, b: real): real { if b < a then b else a }
  function Max(a: real, b: real): real { if a < b then b else a }

  function Extend(b: Box<real>, v: V): Box<real> {
    Box(Vec3(Min(b.lo.x, v.x), Min(b.lo.y, v.y), Min(b.lo.z, v.z)),
        Vec3(Max(b.hi.x, v.x), Max(b.hi.y, v.y), Max(b.hi.z, v.z)))
  }

  /** The box grown from the first point over all points of ps. */
  function Hull(ps: seq<V>): Box<real>
    requires |ps| > 0
  {
    if |ps| == 1 then Box(ps[0], ps[0]) else Extend(Hull(ps[..|ps| - 1]), ps[|ps| - 1])
  }

  /** b is the smallest axis-parallel box around ps: it bounds every point and
      each of its six faces touches one. */
  ghost predicate Tight(b: Box<real>, ps: seq<V>) {
    && (forall p, a: Axis :: p in ps ==> Coord(b.lo, a) <= Coord(p, a) <= Coord(b.hi, a))
    && (forall a: Axis :: exists p :: p in ps && Coord(p, a) == Coord(b.lo, a))
    && (forall a: Axis :: exists p :: p in ps && Coord(p, a) == Coord(b.hi, a))
  }

  lemma ExtendCoord(b: Box<real>, v: V, a: Axis)
    ensures Coord(Extend(b, v).lo, a) == Min(Coord(b.lo, a), Coord(v, a))
    ensures Coord(Extend(b, v).hi, a) == Max(Coord(b.hi, a), Coord(v, a))
  {
  }

  lemma {:induction false} HullTight(ps: seq<V>)
    requires |ps| > 0
    ensures Tight(Hull(ps), ps)
  {
    if |ps| == 1 {
      assert ps[0] in ps;
    } else {
      var qs, p := ps[..|ps| - 1], ps[|ps| - 1];
      HullTight(qs);
      var b, c := Hull(ps), Hull(qs);
      assert ps == qs + [p] && p in ps;
      forall q, a: Axis | q in ps ensures Coord(b.lo, a) <= Coord(q, a) <= Coord(b.hi, a) {
        ExtendCoord(c, p, a);
        assert q == p || q in qs;
      }
      forall a: Axis
        ensures exists q :: q in ps && Coord(q, a) == Coord(b.lo, a)
        ensures exists q :: q in ps && Coord(q, a) == Coord(b.hi, a)
      {
        var l :| l in qs && Coord(l, a) == Coord(c.lo, a);
        var h :| h in qs && Coord(h, a) == Coord(c.hi, a);
        assert l in ps && h in ps;
        ExtendCoord(c, p, a);
      }
    }
  }

  /** The tight box depends only on which points occur. */
  lemma TightUnique(b: Box<real>, c: Box<real>, ps: seq<V>, qs: seq<V>)
    requires Tight(b, ps) && Tight(c, qs)
    requires forall p :: p in ps <==> p in qs
    ensures b == c
  {
    TightSides(b, c, ps, qs, 0);
    TightSides(b, c, ps, qs, 1);
    TightSides(b, c, ps, qs, 2);
  }

  lemma TightSides(b: Box<real>, c: Box<real>, ps: seq<V>, qs: seq<V>, a: Axis)
    requires Tight(b, ps) && Tight(c, qs)
    requires forall p :: p in ps <==> p in qs
    ensures Coord(b.lo, a) == Coord(c.lo, a) && Coord(b.hi, a) == Coord(c.hi, a)
  {
    var bl, bh := Touched(b, ps, a);
    var cl, ch := Touched(c, qs, a);
  }

  /** The points on the two faces across an axis. */
  lemma Touched(b: Box<real>, ps: seq<V>, a: Axis) returns (p: V, q: V)
    requires Tight(b, ps)
    ensures p in ps && q in ps && Coord(p, a) == Coord(b.lo, a) && Coord(q, a) == Coord(b.hi, a)
  {
    var lo, hi := Coord(b.lo, a), Coord(b.hi, a);
    p :| p in ps && Coord(p, a) == lo;
    q :| q in ps && Coord(q, a) == hi;
  }

  function Corners(m: Mesh, s: seq<Triangle>): (r: seq<V>)
    ensures |r| == 3 * |s|
  {
    if s == [] then [] else
      var n := |s| - 1;
      Corners(m, s[..n]) + [m.Vertex(s[n].a), m.Vertex(s[n].b), m.Vertex(s[n].c)]
  }

  predicate IsCorner(m: Mesh, p: V, t: Triangle) {
    p == m.Vertex(t.a) || p == m.Vertex(t.b) || p == m.Vertex(t.c)
  }

  lemma {:induction false} CornerMember(m: Mesh, s: seq<Triangle>, p: V)
    ensures p in Corners(m, s) <==> exists i :: 0 <= i < |s| && IsCorner(m, p, s[i])
  {
    if s != [] {
      var n := |s| - 1;
      CornerMember(m, s[..n], p);
      var t := s[n];
      assert Corners(m, s) == Corners(m, s[..n]) + [m.Vertex(t.a), m.Vertex(t.b), m.Vertex(t.c)];
      if p in Corners(m, s[..n]) {
        var i :| 0 <= i < n && IsCorner(m, p, s[..n][i]);
        assert IsCorner(m, p, s[i]);
      }
      if i :| 0 <= i < |s| && IsCorner(m, p, s[i]) && i < n {
        assert IsCorner(m, p, s[..n][i]);
      }
    }
  }

  function PickAxis(b: Box<real>): Axis {
    var x, y, z := b.hi.x - b.lo.x, b.hi.y - b.lo.y, b.hi.z - b.lo.z;
    if x >= y && x >= z then 0 else if y >= x && y >= z then 1 else 2
  }

  /** The first axis along which the tight bounding box of s is longest. */
  function LongestAxis(m: Mesh, s: seq<Triangle>): Axis {
    if s == [] then 0 else PickAxis(Hull(Corners(m, s)))
  }

  function Extent(b: Box<real>, axis: Axis): real { Coord(b.hi, axis) - Coord(b.lo, axis) }

  /** No side of the box is longer, and no earlier one as long. */
  predicate Longest(b: Box<real>, axis: Axis) {
    forall c: Axis :: Extent(b, c) <= Extent(b, axis) && (c < axis ==> Extent(b, c) < Extent(b, axis))
  }

  /** The axis of s is the longest side of the least box around its corners, the first of them if
      there are several. */
  ghost predicate IsLongestAxis(m: Mesh, s: seq<Triangle>, axis: Axis) {
    forall b: Box<real> :: Tight(b, Corners(m, s)) ==> Longest(b, axis)
  }

  lemma LongestAxisIs(m: Mesh, s: seq<Triangle>)
    requires s != []
    ensures IsLongestAxis(m, s, LongestAxis(m, s))
  {
    var ps := Corners(m, s);
    HullTight(ps);
    forall b: Box<real> | Tight(b, ps) ensures Longest(b, LongestAxis(m, s)) {
      TightUnique(b, Hull(ps), ps, ps);
      PickedIsLongest(b);
    }
  }

  lemma PickedIsLongest(b: Box<real>)
    ensures Longest(b, PickAxis(b))
  {
    var x, y, z := Extent(b, 0), Extent(b, 1), Extent(b, 2);
    forall c: Axis
      ensures Extent(b, c) <= Extent(b, PickAxis(b)) && (c < PickAxis(b) ==> Extent(b, c) < Extent(b, PickAxis(b)))
    {
    }
  }

  /** There is only one such axis. */
  lemma LongestAxisOnly(m: Mesh, s: seq<Triangle>, a: Axis, c: Axis)
    requires s != [] && IsLongestAxis(m, s, a) && IsLongestAxis(m, s, c)
    ensures a == c
  {
    var ps := Corners(m, s);
    HullTight(ps);
    var b := Hull(ps);
    assert Longest(b, a) && Longest(b, c);
    assert Extent(b, c) <= Extent(b, a) && Extent(b, a) <= Extent(b, c);
  }

  /** Reordering triangles does not change their longest axis. */
  lemma LongestAxisPermutation(m: Mesh, s: seq<Triangle>, r: seq<Triangle>)
    requires multiset(r) == multiset(s)
    ensures |r| == |s| && LongestAxis(m, r) == LongestAxis(m, s)
  {
    assert |r| == |multiset(r)| == |multiset(s)| == |s|;
    var ps, qs := Corners(m, s), Corners(m, r);
    forall p ensures p in ps <==> p in qs {
      CornersOf(m, s, r, p);
      CornersOf(m, r, s, p);
    }
    if s != [] {
      HullTight(ps);
      HullTight(qs);
      TightUnique(Hull(ps), Hull(qs), ps, qs);
    }
  }

  lemma CornersOf(m: Mesh, s: seq<Triangle>, r: seq<Triangle>, p: V)
    requires multiset(r) == multiset(s)
    ensures p in Corners(m, s) ==> p in Corners(m, r)
  {
    CornerMember(m, s, p);
    CornerMember(m, r, p);
    if p in Corners(m, s) {
      var i :| 0 <= i < |s| && IsCorner(m, p, s[i]);
      assert s[i] in multiset(s);
      assert s[i] in multiset(r);
      var j :| 0 <= j < |r| && r[j] == s[i];
      assert IsCorner(m, p, r[j]);
    }
  }

  function ExtendBy(m: Mesh, b: Box<real>, t: Triangle): Box<real> {
    Extend(Extend(Extend(b, m.Vertex(t.a)), m.Vertex(t.b)), m.Vertex(t.c))
  }

  lemma HullStep(m: Mesh, s: seq<Triangle>, t: Triangle)
    ensures |Corners(m, s + [t])| > 0
    ensures Hull(Corners(m, s + [t])) ==
            ExtendBy(m, if s == [] then Box(m.Vertex(t.a), m.Vertex(t.a)) else Hull(Corners(m, s)), t)
  {
    assert (s + [t])[..|s|] == s;
    var ps, a, b, c := Corners(m, s), m.Vertex(t.a), m.Vertex(t.b), m.Vertex(t.c);
    var pa, pb, pc := ps + [a], ps + [a, b], ps + [a, b, c];
    assert Corners(m, s + [t]) == pc;
    assert pc[..|ps| + 2] == pb && pb[..|ps| + 1] == pa && pa[..|ps|] == ps;
    assert Hull(pc) == Extend(Hull(pb), c) && Hull(pb) == Extend(Hull(pa), b);
    assert Hull(pa) == Extend(if s == [] then Box(a, a) else Hull(ps), a);
  }

  /** The box after the first k triangles; it starts as the first corner. */
  ghost function PartBox(m: Mesh, s: seq<Triangle>, k: nat): Box<real>
    requires k <= |s| && s != []
  {
    if k == 0 then Box(m.Vertex(s[0].a), m.Vertex(s[0].a)) else Hull(Corners(m, s[..k]))
  }

  lemma PartBoxNext(m: Mesh, s: seq<Triangle>, k: nat, next: nat)
    requires next == k + 1 && next <= |s|
    ensures PartBox(m, s, next) == ExtendBy(m, PartBox(m, s, k), s[k])
  {
    HullStep(m, s[..k], s[k]);
    assert s[..next] == s[..k] + [s[k]];
  }

  // ---- The class ---------------------------------------------------------------

  /** b with the elements of [lo, hi) replaced by mid. */
  function Splice<T>(b: seq<T>, lo: nat, hi: nat, mid: seq<T>): (r: seq<T>)
    requires lo <= hi <= |b|
    ensures |r| == |b| - (hi - lo) + |mid|
  {
    b[..lo] + mid + b[hi..]
  }

  lemma SplicedParts<T>(b: seq<T>, lo: nat, hi: nat, mid: seq<T>)
    requires lo <= hi <= |b| && |mid| == hi - lo
    ensures var r := Splice(b, lo, hi, mid); r[lo..hi] == mid && r[..lo] == b[..lo] && r[hi..] == b[hi..]
  {
  }

  /** The mesh being sorted in place. */
  class Data {
    const mesh: Mesh
    var triangles: seq<Triangle>

    constructor (mesh: Mesh, triangles: seq<Triangle>)
      ensures this.mesh == mesh && this.triangles == triangles
    {
      this.mesh := mesh;
      this.triangles := triangles;
    }

    /** VertexData::sort: order [start, start + length) along the axis, in place. */
    method Sort(sort: Sorter, start: nat, length: nat, axis: Axis)
      requires IsSorter(sort) && length > 0 && start + length <= |triangles|
      modifies this
      ensures triangles == Splice(old(triangles), start, start + length,
                                  sort(mesh, axis, old(triangles)[start..start + length]))
      ensures |triangles| == old(|triangles|)
      ensures Sorted(mesh, axis, triangles[start..start + length])
      ensures multiset(triangles[start..start + length]) == multiset(old(triangles)[start..start + length])
      ensures triangles[..start] == old(triangles)[..start] && triangles[start + length..] == old(triangles)[start + length..]
    {
      SorterKeeps(sort, mesh, axis, triangles[start..start + length]);
      SplicedParts(triangles, start, start + length, sort(mesh, axis, triangles[start..start + length]));
      triangles := triangles[..start] + sort(mesh, axis, triangles[start..start + length]) + triangles[start + length..];
    }

    /** VertexData::getLongestAxis; an over-long request answers AXIS_X. */
    method GetLongestAxis(start: nat, elements: nat) returns (axis: Axis)
      requires start < |triangles| || start + elements > |triangles|
      ensures elements == 0 || start + elements > |triangles| ==> axis == 0
      ensures start + elements <= |triangles| ==> axis == LongestAxis(mesh, triangles[start..start + elements])
      ensures 0 < elements && start + elements <= |triangles| ==>
                IsLongestAxis(mesh, triangles[start..start + elements], axis)
    {
      if start + elements > |triangles| {
        return 0;
      }
      var box := Box(mesh.Vertex(triangles[start].a), mesh.Vertex(triangles[start].a));
      ghost var s := triangles[start..start + elements];
      var k := 0;
      while k < elements
        invariant k <= elements && (elements > 0 ==> box == PartBox(mesh, s, k)) && (elements == 0 ==> box.lo == box.hi)
      {
        box := GrowBox(box, triangles[start + k]);
        var next := k + 1;
        PartBoxNext(mesh, s, k, next);
        k := next;
      }
      assert s[..elements] == s;
      axis := PickAxis(box);
      if elements > 0 { LongestAxisIs(mesh, s); }
    }

    /** The loop over the corners of a triangle. */
    method GrowBox(box: Box<real>, t: Triangle) returns (b: Box<real>)
      ensures b == ExtendBy(mesh, box, t)
    {
      b := box;
      for v := 0 to 3
        invariant v == 0 ==> b == box
        invariant v == 1 ==> b == Extend(box, mesh.Vertex(t.a))
        invariant v == 2 ==> b == Extend(Extend(box, mesh.Vertex(t.a)), mesh.Vertex(t.b))
        invariant v == 3 ==> b == ExtendBy(mesh, box, t)
      {
        b := Extend(b, mesh.Vertex(t.At(v)));
      }
    }
  }
}
