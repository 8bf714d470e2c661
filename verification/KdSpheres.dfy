/** Bounding spheres of the whole tree: every leaf sphere holds the leaf's vertices, and
    every inner sphere holds all vertices below it as long as no child sphere lies in the
    interior of its sibling. */
module KdSpheres {
  import opened MeshTypes
  import opened VertexData
  import opened KdSpec
  import Spheres

  type S = Sphere<real>

  // ---- Leaves ----------------------------------------------------------------------

  /** The position that index k of a leaf leads to. */
  function LeafPoint(leaf: Tree<real>, g: Buffers<real>, k: nat): V
    requires leaf.Leaf?
  {
    Fetch(g.vertices, LeafVertex(leaf, g, k), Origin)
  }

  function LeafPoints(leaf: Tree<real>, g: Buffers<real>): (ps: seq<V>)
    requires leaf.Leaf?
    ensures |ps| == leaf.indexLength
  {
    seq(leaf.indexLength, k requires 0 <= k < leaf.indexLength => LeafPoint(leaf, g, k))
  }

  /** The inner sphere of the dominant axis of a box. */
  function BoxSphere(b: Box<real>): S {
    var w := Max(b.hi.x - b.lo.x, b.hi.y - b.lo.y);
    Sphere(Vec3((b.lo.x + b.hi.x) * 0.5, (b.lo.y + b.hi.y) * 0.5, (b.lo.z + b.hi.z) * 0.5),
           Max(b.hi.z - b.lo.z, w) * 0.5)
  }

  /** s, expanded to the points of ps that lie outside when their turn comes. */
  function Grown(sqrt: real -> real, s: S, ps: seq<V>): S {
    if ps == [] then s else
      var n := |ps| - 1;
      var q := Grown(sqrt, s, ps[..n]);
      if Spheres.Inside(ps[n], q) then q else Spheres.Expand(sqrt, q, ps[n])
  }

  function LeafSphere(sqrt: real -> real, ps: seq<V>): S
    requires |ps| > 0
  {
    Grown(sqrt, BoxSphere(Hull(ps)), ps)
  }

  /** The growing sphere never loses what it held, and ends up holding every point. */
  lemma {:induction false} GrownHolds(sqrt: real -> real, s: S, ps: seq<V>)
    requires Spheres.IsSqrt(sqrt) && s.radius >= 0.0
    ensures Grown(sqrt, s, ps).radius >= 0.0
    ensures forall i :: 0 <= i < |ps| ==> Spheres.Inside(ps[i], Grown(sqrt, s, ps))
  {
    if ps != [] {
      var n := |ps| - 1;
      GrownHolds(sqrt, s, ps[..n]);
      var q, p := Grown(sqrt, s, ps[..n]), ps[n];
      if !Spheres.Inside(p, q) {
        Spheres.ExpandKeeps(sqrt, q, p);
      }
      forall i | 0 <= i < n ensures Spheres.Inside(ps[i], Grown(sqrt, s, ps)) {
        assert Spheres.Inside(ps[..n][i], q);
      }
    }
  }

  /** The sphere that the growing starts from lies in the middle of the least box around the
      points, and its diameter is the box's longest side. */
  lemma HullSphere(ps: seq<V>, b: Box<real>, axis: Axis)
    requires |ps| > 0 && Tight(b, ps) && Longest(b, axis)
    ensures var s := BoxSphere(Hull(ps));
      && s.radius >= 0.0 && 2.0 * s.radius == Extent(b, axis)
      && forall c: Axis :: Coord(s.center, c) - Coord(b.lo, c) == Coord(b.hi, c) - Coord(s.center, c)
  {
    HullTight(ps);
    TightUnique(b, Hull(ps), ps, ps);
    assert ps[0] in ps;
    assert Coord(b.lo, axis) <= Coord(ps[0], axis) <= Coord(b.hi, axis);
    BoxSphereIs(b, axis);
  }

  lemma BoxSphereIs(b: Box<real>, axis: Axis)
    requires Longest(b, axis)
    ensures var s := BoxSphere(b);
      && 2.0 * s.radius == Extent(b, axis)
      && forall c: Axis :: Coord(s.center, c) - Coord(b.lo, c) == Coord(b.hi, c) - Coord(s.center, c)
  {
    assert Extent(b, 0) <= Extent(b, axis) && Extent(b, 1) <= Extent(b, axis) && Extent(b, 2) <= Extent(b, axis);
  }

  // ---- The tree --------------------------------------------------------------------

  /** updateBoundingSphere of leaf and node; a leaf also sets its bounding box. */
  function WithSpheres(sqrt: real -> real, t: Tree<real>, g: Buffers<real>): Tree<real> {
    match t
    case Leaf(_, _, _, _, _, _, n) =>
      if n == 0 then t else
        var ps := LeafPoints(t, g);
        t.(box := Hull(ps), sphere := LeafSphere(sqrt, ps))
    case Node(_, _, l, r) =>
      var l', r' := WithSpheres(sqrt, l, g), WithSpheres(sqrt, r, g);
      t.(sphere := Spheres.NodeSphere(sqrt, l'.sphere, r'.sphere), left := l', right := r')
  }

  /** All vertices below t lie in the sphere s. */
  ghost predicate Holds(s: S, t: Tree<real>, g: Buffers<real>) {
    match t
    case Leaf(_, _, _, _, _, _, n) => forall k :: 0 <= k < n ==> Spheres.Inside(LeafPoint(t, g, k), s)
    case Node(_, _, l, r) => Holds(s, l, g) && Holds(s, r, g)
  }

  /** Every node's sphere holds all vertices below the node. */
  ghost predicate Sound(t: Tree<real>, g: Buffers<real>) {
    && Holds(t.sphere, t, g)
    && (t.Node? ==> Sound(t.left, g) && Sound(t.right, g))
  }

  /** Every leaf has a vertex, and at every inner node the children's centres differ and
      neither child sphere lies in the interior of the other. */
  predicate Separated(sqrt: real -> real, t: Tree<real>) {
    match t
    case Leaf(_, _, _, _, _, _, n) => n > 0
    case Node(_, _, l, r) =>
      && Separated(sqrt, l) && Separated(sqrt, r) && NotNested(sqrt, l.sphere, r.sphere)
  }

  predicate NotNested(sqrt: real -> real, s1: S, s2: S) {
    && Spheres.CentresDiffer(s1, s2)
    && s1.radius <= Spheres.CentreDistance(sqrt, s1, s2) + s2.radius
    && s2.radius <= Spheres.CentreDistance(sqrt, s1, s2) + s1.radius
  }

  /** That is exactly when the node sphere encloses both. */
  lemma NotNestedIff(sqrt: real -> real, s1: S, s2: S)
    requires Spheres.IsSqrt(sqrt) && s1.radius >= 0.0 && s2.radius >= 0.0 && Spheres.CentresDiffer(s1, s2)
    ensures var s := Spheres.NodeSphere(sqrt, s1, s2);
      NotNested(sqrt, s1, s2) <==> Spheres.Encloses(s, s1) && Spheres.Encloses(s, s2)
  {
    Spheres.NodeSphereEncloses(sqrt, s1, s2);
  }

  /** Every leaf has the least box around its vertices. */
  ghost predicate Boxed(t: Tree<real>, g: Buffers<real>) {
    match t
    case Leaf(_, _, box, _, _, _, n) => n > 0 ==> Tight(box, LeafPoints(t, g))
    case Node(_, _, l, r) => Boxed(l, g) && Boxed(r, g)
  }

  lemma {:induction false} BoxesTight(sqrt: real -> real, t: Tree<real>, g: Buffers<real>)
    ensures Boxed(WithSpheres(sqrt, t, g), g)
  {
    match t
    case Leaf(_, _, _, _, _, _, n) =>
      if n > 0 {
        var ps, t' := LeafPoints(t, g), WithSpheres(sqrt, t, g);
        HullTight(ps);
        SamePoints(t, t', g);
      }
    case Node(_, _, l, r) =>
      BoxesTight(sqrt, l, g);
      BoxesTight(sqrt, r, g);
  }

  lemma SamePoints(t: Tree<real>, u: Tree<real>, g: Buffers<real>)
    requires u.Leaf? && t.Leaf? && u == t.(sphere := u.sphere, box := u.box)
    ensures LeafPoints(u, g) == LeafPoints(t, g)
  {
    forall k | 0 <= k < t.indexLength ensures LeafPoint(u, g, k) == LeafPoint(t, g, k) {
    }
  }

  lemma {:induction false} HoldsMore(inner: S, outer: S, t: Tree<real>, g: Buffers<real>)
    requires Holds(inner, t, g) && Spheres.Encloses(outer, inner)
    ensures Holds(outer, t, g)
  {
    if t.Node? {
      HoldsMore(inner, outer, t.left, g);
      HoldsMore(inner, outer, t.right, g);
    }
  }

  /** Enclosure of all vertices holds by induction up the tree. */
  lemma {:induction false} SpheresSound(sqrt: real -> real, t: Tree<real>, g: Buffers<real>)
    requires Spheres.IsSqrt(sqrt) && Separated(sqrt, WithSpheres(sqrt, t, g))
    ensures var t' := WithSpheres(sqrt, t, g); Sound(t', g) && t'.sphere.radius >= 0.0
  {
    var t' := WithSpheres(sqrt, t, g);
    match t
    case Leaf(_, _, _, _, _, _, n) =>
      LeafSound(sqrt, t, g);
    case Node(_, _, l, r) =>
      SpheresSound(sqrt, l, g);
      SpheresSound(sqrt, r, g);
      NodeSound(sqrt, t'.left, t'.right, g);
  }

  lemma LeafSound(sqrt: real -> real, t: Tree<real>, g: Buffers<real>)
    requires Spheres.IsSqrt(sqrt) && t.Leaf? && t.indexLength > 0
    ensures var t' := WithSpheres(sqrt, t, g); Holds(t'.sphere, t', g) && t'.sphere.radius >= 0.0
  {
    var ps := LeafPoints(t, g);
    PickedIsLongest(Hull(ps));
    HullTight(ps);
    HullSphere(ps, Hull(ps), PickAxis(Hull(ps)));
    GrownHolds(sqrt, BoxSphere(Hull(ps)), ps);
    PointsHeld(Hull(ps), LeafSphere(sqrt, ps), t, g);
  }

  lemma PointsHeld(b: Box<real>, s: S, t: Tree<real>, g: Buffers<real>)
    requires t.Leaf? && var ps := LeafPoints(t, g); forall i :: 0 <= i < |ps| ==> Spheres.Inside(ps[i], s)
    ensures Holds(s, t.(box := b, sphere := s), g)
  {
    var t' := t.(box := b, sphere := s);
    forall k | 0 <= k < t.indexLength ensures Spheres.Inside(LeafPoint(t', g, k), s) {
      assert LeafPoints(t, g)[k] == LeafPoint(t', g, k);
    }
  }

  lemma NodeSound(sqrt: real -> real, l: Tree<real>, r: Tree<real>, g: Buffers<real>)
    requires Spheres.IsSqrt(sqrt) && NotNested(sqrt, l.sphere, r.sphere)
    requires Sound(l, g) && Sound(r, g) && l.sphere.radius >= 0.0 && r.sphere.radius >= 0.0
    ensures var s := Spheres.NodeSphere(sqrt, l.sphere, r.sphere);
      Holds(s, l, g) && Holds(s, r, g) && s.radius >= 0.0
  {
    Spheres.NodeSphereEncloses(sqrt, l.sphere, r.sphere);
    var s := Spheres.NodeSphere(sqrt, l.sphere, r.sphere);
    HoldsMore(l.sphere, s, l, g);
    HoldsMore(r.sphere, s, r, g);
  }
}
