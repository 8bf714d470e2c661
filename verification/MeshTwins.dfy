/** A mesh whose bounding spheres lose it: two triangles over the same vertices give equal child
    spheres, and the root's sphere is then a point. */
module MeshTwins {
  import opened MeshTypes
  import opened VertexData
  import opened KdSpec
  import opened KdProps
  import opened KdSpheres
  import opened KdRanges
  import opened CullDraw
  import opened MeshRoot
  import opened MeshTheorems
  import Spheres

  /** A frustum of one point, and the exact sphere test for it. */
  function PointFrustum(v: V): V -> bool { p => p == v }

  function PointTest(v: V): Sphere<real> -> Visibility { s => if Spheres.Inside(v, s) then Full else Invisible }

  lemma PointTestSound(v: V)
    ensures SoundTest(PointTest(v), PointFrustum(v))
  {
  }

  lemma TwinsSorted(rules: Rules, m: Mesh, axis: Axis, t: Triangle)
    requires rules.Valid()
    ensures rules.Sort(m, axis, [t, t]) == [t, t] && rules.Sort(m, axis, [t]) == [t]
  {
    var q, r := rules.Sort(m, axis, [t, t]), rules.Sort(m, axis, [t]);
    SortKeeps(rules, m, axis, [t, t]);
    SortKeeps(rules, m, axis, [t]);
    assert q[0] in multiset(q) && q[1] in multiset(q) && r[0] in multiset(r);
  }

  lemma LeafOfOne(rules: Rules, m: Mesh, t: Triangle, axis: Axis, depth: nat, g: Buffers<real>)
    requires rules.Valid()
    ensures var o := Build(rules, m, [t], true, axis, depth, g); o.tree.Leaf? && o.tree.indexLength == 3 && o.tris == [t]
  {
    TwinsSorted(rules, m, axis, t);
    assert rules.store(m, [t], g) == StoreLeaf(m, [t], g);
  }

  lemma TwinTree(rules: Rules, m: Mesh, t: Triangle, axis: Axis, o: Outcome)
    requires rules.Valid() && o == Build(rules, m, [t, t], false, axis, 0, NoBuffers)
    ensures o.tree.Node? && o.tree.left.Leaf? && o.tree.right.Leaf? && o.tris == [t, t]
    ensures o.tree.left.indexLength == 3 && o.tree.right.indexLength == 3
  {
    TwinsSorted(rules, m, axis, t);
    var left, right := [t, t][..1], [t, t][1..];
    assert left == [t] && right == [t];
    LeafOfOne(rules, m, t, rules.pick(m, left, 0), 1, NoBuffers);
    var l := Build(rules, m, left, true, rules.pick(m, left, 0), 1, NoBuffers);
    LeafOfOne(rules, m, t, rules.pick(m, right, 0), 1, l.buffers);
  }

  /** Both leaves lead to the triangle's corners. */
  lemma TwinPoints(m: Mesh, t: Triangle, l: Tree<real>, r: Tree<real>, g: Buffers<real>)
    requires l.Leaf? && r.Leaf? && l.indexLength == 3 && r.indexLength == 3
    requires Faces([l, r], g) == MeshFaces(m, [t, t])
    ensures LeafPoints(l, g) == LeafPoints(r, g) == [m.Vertex(t.a), m.Vertex(t.b), m.Vertex(t.c)]
  {
    assert [l, r][..1] == [l] && [l][..0] == [];
    assert Faces([l], g) == LeafFaces(l, g);
    assert Faces([l, r], g)[0] == LeafFace(l, g, 0) && Faces([l, r], g)[1] == LeafFace(r, g, 0);
    LeafCorners(m, t, l, g);
    LeafCorners(m, t, r, g);
  }

  lemma LeafCorners(m: Mesh, t: Triangle, l: Tree<real>, g: Buffers<real>)
    requires l.Leaf? && l.indexLength == 3 && LeafFace(l, g, 0) == MeshFace(m, t)
    ensures LeafPoints(l, g) == [m.Vertex(t.a), m.Vertex(t.b), m.Vertex(t.c)]
  {
    assert LeafPoint(l, g, 0) == LeafCorner(l, g, 0).vertex && LeafPoint(l, g, 1) == LeafCorner(l, g, 1).vertex
        && LeafPoint(l, g, 2) == LeafCorner(l, g, 2).vertex;
  }

  lemma VanishAll(t: Tree<real>, b: seq<real>, test: Sphere<real> -> Visibility)
    requires test(t.sphere) == Invisible
    ensures DrawnByAll(t, b, test) == []
  {
    if |b| >= 2 { VanishAll(t, b[..|b| - 1], test); }
  }

  /** Two copies of a triangle whose first two corners differ. Whatever they are, a corner is in
      the frustum of a sound test with which no channel draws anything. */
  lemma {:induction false} TwinsVanish(rules: Rules, sqrt: real -> real, m: Mesh, t: Triangle, b: seq<real>) returns (v: V)
    requires rules.Valid() && m.Valid() && m.HasAll([t, t]) && |m.vertices| < 0x1_0000 && Spheres.IsSqrt(sqrt)
    requires m.Vertex(t.a) != m.Vertex(t.b)
    ensures SoundTest(PointTest(v), PointFrustum(v)) && PointFrustum(v)(v)
    ensures OnFace(v, MeshFace(m, t)) && MeshFace(m, t) in MeshFaces(m, [t, t]) && Indexable(RootOutcome(rules, m, [t, t]))
    ensures var o := RootOutcome(rules, m, [t, t]);
      |o.buffers.indices| > 0 && DrawnByAll(Finish(sqrt, o).tree, b, PointTest(v)) == []
  {
    var o := RootOutcome(rules, m, [t, t]);
    SmallMeshIndexable(rules, m, [t, t]);
    RootIndices(rules, m, [t, t]);
    assert MeshFaces(m, [t, t])[0] == MeshFace(m, t);
    var c := TwinCentre(rules, sqrt, m, t, o);
    v := if m.Vertex(t.a) == c then m.Vertex(t.b) else m.Vertex(t.a);
    CornerOnFace(MeshFace(m, t), v);
    PointTestSound(v);
    PointOnly(v, c);
    VanishAll(Finish(sqrt, o).tree, b, PointTest(v));
  }

  lemma PointOnly(v: V, c: V)
    requires v != c
    ensures !Spheres.Inside(v, Sphere(c, 0.0))
  {
    var d := Spheres.Sub(v, c);
    if d.x == 0.0 && d.y == 0.0 && d.z == 0.0 {
      Spheres.SameVector(v, c);
    } else {
      PositiveLength(d);
    }
  }

  lemma PositiveLength(d: V)
    requires d.x != 0.0 || d.y != 0.0 || d.z != 0.0
    ensures Spheres.SquaredLength(d) > 0.0
  {
    Square(d.x);
    Square(d.y);
    Square(d.z);
  }

  lemma Square(x: real)
    ensures x * x >= 0.0 && (x * x == 0.0 ==> x == 0.0)
  {
    if x > 0.0 { Spheres.StrictSquare(0.0, x); } else if x < 0.0 { Spheres.StrictSquare(0.0, -x); }
  }

  lemma CornerOnFace(f: Face, v: V)
    requires v == f.c0.vertex || v == f.c1.vertex
    ensures OnFace(v, f)
  {
    var u, w := if v == f.c0.vertex then 1.0 else 0.0, if v == f.c0.vertex then 0.0 else 1.0;
    assert Spheres.IsMean(v, f.c0.vertex, f.c1.vertex, f.c2.vertex, u, w, 0.0);
  }

  /** The root's sphere is a point. */
  lemma {:induction false} TwinCentre(rules: Rules, sqrt: real -> real, m: Mesh, t: Triangle, o: Outcome) returns (c: V)
    requires rules.Valid() && m.Valid() && m.HasAll([t, t]) && Spheres.IsSqrt(sqrt) && o == RootOutcome(rules, m, [t, t])
    requires Indexable(o) && |o.buffers.indices| > 0
    ensures Finish(sqrt, o).tree.sphere == Sphere(c, 0.0)
  {
    var l, r, g := TwinLeaves(rules, sqrt, m, t, o);
    TwinPoints(m, t, l, r, g);
    var s := LeafSphere(sqrt, LeafPoints(l, g));
    Spheres.SameSphere(sqrt, s);
    c := s.center;
    RootSphere(sqrt, o, s);
  }

  lemma {:induction false} TwinLeaves(rules: Rules, sqrt: real -> real, m: Mesh, t: Triangle, o: Outcome)
    returns (l: Tree<real>, r: Tree<real>, g: Buffers<real>)
    requires rules.Valid() && m.Valid() && m.HasAll([t, t]) && o == RootOutcome(rules, m, [t, t]) && Indexable(o)
    requires |o.buffers.indices| > 0
    ensures o.tree.Node? && l == o.tree.left && r == o.tree.right && g == o.buffers
    ensures l.Leaf? && r.Leaf? && l.indexLength == 3 && r.indexLength == 3 && Faces([l, r], g) == MeshFaces(m, [t, t])
  {
    TwinTree(rules, m, t, LongestAxis(m, [t, t]), o);
    l, r, g := o.tree.left, o.tree.right, o.buffers;
    ModelFaithful(rules, sqrt, m, [t, t]);
    FinishFaces(sqrt, o);
    TwoLeaves(o.tree);
  }

  lemma TwoLeaves(t: Tree<real>)
    requires t.Node? && t.left.Leaf? && t.right.Leaf?
    ensures Leaves(t) == [t.left, t.right]
  {
  }

  lemma RootSphere(sqrt: real -> real, o: Outcome, s: Sphere<real>)
    requires o.tree.Node? && o.tree.left.Leaf? && o.tree.right.Leaf? && |o.buffers.indices| > 0
    requires o.tree.left.indexLength == 3 && o.tree.right.indexLength == 3
    requires LeafPoints(o.tree.left, o.buffers) == LeafPoints(o.tree.right, o.buffers)
    requires s == LeafSphere(sqrt, LeafPoints(o.tree.left, o.buffers))
    ensures Finish(sqrt, o).tree.sphere == Spheres.NodeSphere(sqrt, s, s)
  {
    assert WithSpheres(sqrt, o.tree.left, o.buffers).sphere == s;
    assert WithSpheres(sqrt, o.tree.right, o.buffers).sphere == s;
  }
}
