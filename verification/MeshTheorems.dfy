/** The finished model as a whole: which triangles its leaves emit, what ranges its nodes
    have, and what any set of channels that shares [0, 1] draws. */
module MeshTheorems {
  import opened MeshTypes
  import opened VertexData
  import opened KdSpec
  import opened KdProps
  import opened KdRanges
  import opened KdSpheres
  import opened CullDraw
  import opened MeshRoot
  import Spheres

  // ---- Spheres and ranges do not change what is drawn -----------------------------------

  /** t without spheres, boxes and ranges. */
  function Bare(t: Tree<real>): Tree<real> {
    match t
    case Leaf(_, _, _, v, vl, i, il) => Leaf(NoSphere, FullRange, Box(Origin, Origin), v, vl, i, il)
    case Node(_, _, l, r) => Node(NoSphere, FullRange, Bare(l), Bare(r))
  }

  lemma {:induction false} BareSpheres(sqrt: real -> real, t: Tree<real>, g: Buffers<real>)
    ensures Bare(WithSpheres(sqrt, t, g)) == Bare(t)
  {
    if t.Node? {
      BareSpheres(sqrt, t.left, g);
      BareSpheres(sqrt, t.right, g);
    }
  }

  lemma {:induction false} BareRange(t: Tree<real>, total: nat)
    requires total > 0
    ensures Bare(WithRange(t, total)) == Bare(t)
  {
    if t.Node? {
      BareRange(t.left, total);
      BareRange(t.right, total);
    }
  }

  lemma BareLeafFaces(leaf: Tree<real>, g: Buffers<real>)
    requires leaf.Leaf?
    ensures LeafFaces(Bare(leaf), g) == LeafFaces(leaf, g)
  {
    forall t | 0 <= t < leaf.indexLength / 3 ensures LeafFace(Bare(leaf), g, t) == LeafFace(leaf, g, t) {
    }
  }

  lemma {:induction false} BareFaces(t: Tree<real>, g: Buffers<real>)
    ensures Faces(Leaves(Bare(t)), g) == Faces(Leaves(t), g)
  {
    match t
    case Leaf(_, _, _, _, _, _, _) =>
      OneLeaf(t, g);
      OneLeaf(Bare(t), g);
      BareLeafFaces(t, g);
    case Node(_, _, l, r) =>
      BareFaces(l, g);
      BareFaces(r, g);
      FacesConcat(Leaves(l), Leaves(r), g);
      FacesConcat(Leaves(Bare(l)), Leaves(Bare(r)), g);
  }

  lemma FinishFaces(sqrt: real -> real, o: Outcome)
    requires |o.buffers.indices| > 0
    ensures Faces(Leaves(Finish(sqrt, o).tree), o.buffers) == Faces(Leaves(o.tree), o.buffers)
  {
    var g := o.buffers;
    var t1 := WithSpheres(sqrt, o.tree, g);
    var t2 := WithRange(t1, |g.indices|);
    BareSpheres(sqrt, o.tree, g);
    BareRange(t1, |g.indices|);
    BareFaces(o.tree, g);
    BareFaces(t2, g);
  }

  // ---- The mesh is preserved ------------------------------------------------------------

  /** Every leaf of the build stays below 2^16 different vertices. */
  predicate Indexable(o: Outcome) { AllFitShort(o.tree, o.tris) }

  lemma Reflexive(g: Buffers<real>)
    ensures Extends(g, g)
  {
  }

  /** The finished model emits, leaf by leaf, the triangles of the final array with their
      vertices, normals, colors and corner order; that array is the given one rearranged. */
  lemma ModelFaithful(rules: Rules, sqrt: real -> real, m: Mesh, tris: seq<Triangle>)
    requires rules.Valid() && m.Valid() && m.HasAll(tris) && |tris| > 1
    requires Indexable(RootOutcome(rules, m, tris))
    ensures var o := RootOutcome(rules, m, tris);
      && |o.buffers.indices| > 0
      && Faces(Leaves(Finish(sqrt, o).tree), o.buffers) == MeshFaces(m, o.tris)
      && multiset(o.tris) == multiset(tris)
  {
    var o, axis := RootOutcome(rules, m, tris), LongestAxis(m, tris);
    RootIndices(rules, m, tris);
    BuildExtends(rules, m, tris, false, axis, 0, NoBuffers);
    BuildPermutes(rules, m, tris, false, axis, 0, NoBuffers);
    Reflexive(o.buffers);
    TreeFaithful(rules, m, tris, false, axis, 0, NoBuffers, o.buffers);
    FinishFaces(sqrt, o);
  }

  /** A mesh with fewer than 2^16 vertices is always indexable. */
  lemma SmallMeshIndexable(rules: Rules, m: Mesh, tris: seq<Triangle>)
    requires rules.Valid() && m.HasAll(tris) && |tris| > 1 && |m.vertices| < 0x1_0000
    ensures Indexable(RootOutcome(rules, m, tris))
  {
    var o, axis := RootOutcome(rules, m, tris), LongestAxis(m, tris);
    BuildPermutes(rules, m, tris, false, axis, 0, NoBuffers);
    PermutationHas(m, tris, o.tris);
    FewVertices(m, o.tree, o.tris);
  }

  lemma {:induction false} FewVertices(m: Mesh, t: Tree<real>, s: seq<Triangle>)
    requires m.HasAll(s) && |m.vertices| < 0x1_0000
    ensures AllFitShort(t, s)
    decreases t
  {
    match t
    case Leaf(_, _, _, _, _, _, _) =>
      var c := CornerIndices(s);
      var f := Firsts(c);
      forall i | 0 <= i < |f| ensures f[i] < |m.vertices| {
        assert f[i] in f;
        var k :| 0 <= k < |c| && c[k] == f[i];
        CornerInMesh(m, s, k);
      }
      FirstsNoRepeats(c);
      Pigeonhole(Firsts(c), |m.vertices|);
    case Node(_, _, l, r) =>
      FewVertices(m, l, s[..|s| / 2]);
      FewVertices(m, r, s[|s| / 2..]);
  }

  /** Different numbers below n: at most n of them. */
  lemma {:induction false} Pigeonhole(f: seq<nat>, n: nat)
    requires NoRepeats(f) && forall i :: 0 <= i < |f| ==> f[i] < n
    ensures |f| <= n
    decreases n
  {
    if f == [] {
    } else if j :| 0 <= j < |f| && f[j] == n - 1 {
      Pigeonhole(f[..j] + f[j + 1..], n - 1);
    } else {
      assert f[0] < n;
      Pigeonhole(f, n - 1);
    }
  }

  // ---- Ranges ---------------------------------------------------------------------------

  lemma {:induction false} TilesBare(t: Tree<real>)
    ensures Tiles(Bare(t)) == Tiles(t) && First(Bare(t)) == First(t) && End(Bare(t)) == End(t)
  {
    if t.Node? {
      TilesBare(t.left);
      TilesBare(t.right);
    }
  }

  lemma {:induction false} RangesWell(t: Tree<real>, total: nat)
    requires Tiles(t) && total > 0
    ensures WellRanged(WithRange(t, total))
  {
    RangeIsShare(t, total);
    TilesForward(t);
    DivideOrder(First(t) as real, End(t) as real, total as real);
    if t.Node? {
      RangesWell(t.left, total);
      RangesWell(t.right, total);
    }
  }

  lemma {:induction false} RangesStart(t: Tree<real>, total: nat)
    requires Tiles(t) && total > 0 && End(t) <= total
    ensures StartsInUnit(WithRange(t, total))
  {
    match t
    case Leaf(_, _, _, _, _, i, n) =>
      DivideOrder(i as real, total as real, total as real);
      if i > 0 { DivideOrder(0.0, i as real, total as real); }
    case Node(_, _, l, r) =>
      TilesForward(r);
      RangesStart(l, total);
      RangesStart(r, total);
  }

  /** The root covers [0, 1], every range is the hull of the ranges below it, and every leaf
      starts in [0, 1). */
  lemma ModelRanges(rules: Rules, sqrt: real -> real, m: Mesh, tris: seq<Triangle>)
    requires rules.Valid() && |tris| > 1
    ensures var o := RootOutcome(rules, m, tris);
      && |o.buffers.indices| == 3 * |tris|
      && var t := Finish(sqrt, o).tree;
      t.range == Range(0.0, 1.0) && WellRanged(t) && StartsInUnit(t)
  {
    var o, axis := RootOutcome(rules, m, tris), LongestAxis(m, tris);
    BuildTiles(rules, m, tris, false, axis, 0, NoBuffers);
    BareSpheres(sqrt, o.tree, o.buffers);
    TilesBare(o.tree);
    TilesBare(WithSpheres(sqrt, o.tree, o.buffers));
    TiledRanges(WithSpheres(sqrt, o.tree, o.buffers), |o.buffers.indices|);
  }

  lemma TiledRanges(t: Tree<real>, total: nat)
    requires Tiles(t) && First(t) == 0 && End(t) == total && total > 0
    ensures var t' := WithRange(t, total); t'.range == Range(0.0, 1.0) && WellRanged(t') && StartsInUnit(t')
  {
    RangeIsShare(t, total);
    RangesWell(t, total);
    RangesStart(t, total);
    WholeShare(total as real);
  }

  lemma WholeShare(n: real)
    requires n > 0.0
    ensures 0.0 / n == 0.0 && n / n == 1.0
  {
  }

  lemma {:induction false} ShapeBare(t: Tree<real>, a: nat, p: nat, n: nat)
    ensures Triangles(Bare(t)) == Triangles(t) && (Spans(Bare(t), a) <==> Spans(t, a))
    ensures LeafSizes(Bare(t)) <==> LeafSizes(t)
    ensures Balanced(Bare(t), p, n) <==> Balanced(t, p, n)
  {
    if t.Node? {
      ShapeBare(t.left, a, 2 * p, n);
      ShapeBare(t.right, a + Triangles(t.left), 2 * p, n);
    }
  }

  /** In the finished model a node over k triangles from triangle a on has the range
      [a/n, (a+k)/n]; a node at depth d has n/2^d triangles, rounded down or up, and a leaf
      between 1 and 43691. */
  lemma ModelShares(rules: Rules, sqrt: real -> real, m: Mesh, tris: seq<Triangle>)
    requires rules.Valid() && |tris| > 1
    ensures var o := RootOutcome(rules, m, tris);
      && |o.buffers.indices| > 0
      && var t := Finish(sqrt, o).tree;
      Triangles(t) == |tris| && TriangleShares(t, 0, |tris|) && Balanced(t, 1, |tris|) && LeafSizes(t)
  {
    var o, axis, n := RootOutcome(rules, m, tris), LongestAxis(m, tris), |tris|;
    RootIndices(rules, m, tris);
    BuildSpans(rules, m, tris, false, axis, 0, NoBuffers, 0);
    BuildBalanced(rules, m, tris, false, axis, 0, NoBuffers, 1, n);
    BuildLeafSizes(rules, m, tris, false, axis, 0, NoBuffers);
    FinishShape(sqrt, o, n);
  }

  lemma FinishShape(sqrt: real -> real, o: Outcome, n: nat)
    requires n > 0 && |o.buffers.indices| == 3 * n
    requires Spans(o.tree, 0) && Triangles(o.tree) == n && Balanced(o.tree, 1, n) && LeafSizes(o.tree)
    ensures var t := Finish(sqrt, o).tree;
      Triangles(t) == n && TriangleShares(t, 0, n) && Balanced(t, 1, n) && LeafSizes(t)
  {
    var s := WithSpheres(sqrt, o.tree, o.buffers);
    var t := WithRange(s, 3 * n);
    BareSpheres(sqrt, o.tree, o.buffers);
    BareRange(s, 3 * n);
    ShapeBare(o.tree, 0, 1, n);
    ShapeBare(s, 0, 1, n);
    ShapeBare(t, 0, 1, n);
    SpansShares(s, 0, n, 3 * n);
  }

  // ---- Channels -------------------------------------------------------------------------

  /** Two arrangements of the same elements: drop the last one of a from both. */
  lemma DropLast<T>(a: seq<T>, b: seq<T>) returns (p: seq<T>, x: T, q: seq<T>)
    requires a != [] && multiset(a) == multiset(b)
    ensures a == a[..|a| - 1] + [x] && b == p + [x] + q
    ensures multiset(a[..|a| - 1]) == multiset(p + q)
  {
    x := a[|a| - 1];
    assert a == a[..|a| - 1] + [x];
    assert x in multiset(b);
    var j :| 0 <= j < |b| && b[j] == x;
    p, q := b[..j], b[j + 1..];
    assert b == p + [x] + q;
    SameRest(a[..|a| - 1], x, p, q);
  }

  lemma SameRest<T>(front: seq<T>, x: T, p: seq<T>, q: seq<T>)
    requires multiset(front + [x]) == multiset(p + [x] + q)
    ensures multiset(front) == multiset(p + q)
  {
    assert multiset(front + [x]) - multiset{x} == multiset(front);
    assert multiset(p + [x] + q) - multiset{x} == multiset(p + q);
  }

  /** What is emitted depends only on which leaves are drawn how often. */
  lemma {:induction false} FacesPermute(a: seq<Tree<real>>, b: seq<Tree<real>>, g: Buffers<real>)
    requires forall i :: 0 <= i < |a| ==> a[i].Leaf?
    requires forall i :: 0 <= i < |b| ==> b[i].Leaf?
    requires multiset(a) == multiset(b)
    ensures multiset(Faces(a, g)) == multiset(Faces(b, g))
    decreases |a|
  {
    if a == [] {
      assert |b| == |multiset(b)| == |multiset(a)| == 0;
    } else {
      var p, x, q := DropLast(a, b);
      assert p == b[..|p|] && q == b[|p| + 1..] && x == a[|a| - 1];
      FacesPermute(a[..|a| - 1], p + q, g);
      FacesConcat(p + [x], q, g);
      FacesConcat(p, [x], g);
      FacesConcat(p, q, g);
      FacesConcat(a[..|a| - 1], [x], g);
    }
  }

  lemma {:induction false} MeshFacesPermute(m: Mesh, a: seq<Triangle>, b: seq<Triangle>)
    requires multiset(a) == multiset(b)
    ensures multiset(MeshFaces(m, a)) == multiset(MeshFaces(m, b))
    decreases |a|
  {
    if a == [] {
      assert |b| == |multiset(b)| == |multiset(a)| == 0;
    } else {
      var p, x, q := DropLast(a, b);
      MeshFacesPermute(m, a[..|a| - 1], p + q);
      MeshFacesConcat(m, a[..|a| - 1], [x]);
      MeshFacesConcat(m, p + [x], q);
      MeshFacesConcat(m, p, [x]);
      MeshFacesConcat(m, p, q);
    }
  }

  lemma MeshFacesConcat(m: Mesh, a: seq<Triangle>, b: seq<Triangle>)
    ensures MeshFaces(m, a + b) == MeshFaces(m, a) + MeshFaces(m, b)
  {
  }

  /** However [0, 1] is shared among channels that do not cull, together they emit every
      triangle of the given mesh exactly once. */
  lemma EveryTriangleOnce(rules: Rules, sqrt: real -> real, m: Mesh, tris: seq<Triangle>, b: seq<real>,
                          test: Sphere<real> -> Visibility)
    requires rules.Valid() && m.Valid() && m.HasAll(tris) && |tris| > 1
    requires Indexable(RootOutcome(rules, m, tris))
    requires |b| > 1 && Ascending(b) && b[0] == 0.0 && b[|b| - 1] == 1.0
    requires forall s :: test(s) == Full
    ensures var o := RootOutcome(rules, m, tris);
      && |o.buffers.indices| > 0
      && multiset(Faces(DrawnByAll(Finish(sqrt, o).tree, b, test), o.buffers)) == multiset(MeshFaces(m, tris))
  {
    var o := RootOutcome(rules, m, tris);
    ModelRanges(rules, sqrt, m, tris);
    ModelFaithful(rules, sqrt, m, tris);
    var t := Finish(sqrt, o).tree;
    EveryLeafOnce(t, b, test);
    FacesPermute(DrawnByAll(t, b, test), Leaves(t), o.buffers);
    MeshFacesPermute(m, o.tris, tris);
  }

  // ---- Culling the finished model -------------------------------------------------------

  lemma {:induction false} HoldsRange(s: Sphere<real>, t: Tree<real>, total: nat, g: Buffers<real>)
    requires total > 0 && Holds(s, t, g)
    ensures Holds(s, WithRange(t, total), g)
  {
    match t
    case Leaf(_, _, _, _, _, _, n) =>
      forall k | 0 <= k < n ensures LeafPoint(WithRange(t, total), g, k) == LeafPoint(t, g, k) { }
    case Node(_, _, l, r) =>
      HoldsRange(s, l, total, g);
      HoldsRange(s, r, total, g);
  }

  lemma {:induction false} SoundRange(t: Tree<real>, total: nat, g: Buffers<real>)
    requires total > 0 && Sound(t, g)
    ensures Sound(WithRange(t, total), g)
  {
    HoldsRange(t.sphere, t, total, g);
    if t.Node? {
      SoundRange(t.left, total, g);
      SoundRange(t.right, total, g);
    }
  }

  /** The spheres of the finished tree hold what is below them, if no child sphere lies in the
      interior of its sibling. */
  lemma FinishedSound(sqrt: real -> real, o: Outcome)
    requires Spheres.IsSqrt(sqrt) && |o.buffers.indices| > 0 && Separated(sqrt, WithSpheres(sqrt, o.tree, o.buffers))
    ensures Sound(Finish(sqrt, o).tree, o.buffers)
  {
    SpheresSound(sqrt, o.tree, o.buffers);
    SoundRange(WithSpheres(sqrt, o.tree, o.buffers), |o.buffers.indices|, o.buffers);
  }

  /** What a culling channel leaves out of its share is out of sight: every leaf whose range starts
      in the channel's range is drawn, or no point of its triangles is in the frustum. */
  lemma CulledIsUnseen(rules: Rules, sqrt: real -> real, m: Mesh, tris: seq<Triangle>, c: Channel, frustum: Spheres.V -> bool,
                       leaf: Tree<real>)
    requires rules.Valid() && |tris| > 1 && Spheres.IsSqrt(sqrt) && SoundTest(c.test, frustum)
    requires var o := RootOutcome(rules, m, tris); Separated(sqrt, WithSpheres(sqrt, o.tree, o.buffers))
    ensures var o := RootOutcome(rules, m, tris);
      && |o.buffers.indices| > 0
      && var t := Finish(sqrt, o).tree;
      leaf in Select(t, c.range.lo, c.range.hi) ==> leaf in Visit(t, c) || Unseen(leaf, o.buffers, frustum)
  {
    var o := RootOutcome(rules, m, tris);
    ModelRanges(rules, sqrt, m, tris);
    FinishedSound(sqrt, o);
    DrawnOrUnseen(Finish(sqrt, o).tree, c, o.buffers, frustum, leaf);
  }

  // ---- Nothing visible is lost ----------------------------------------------------------------

  lemma {:induction false} LeafOfFace(ls: seq<Tree<real>>, g: Buffers<real>, f: Face) returns (leaf: Tree<real>)
    requires (forall i :: 0 <= i < |ls| ==> ls[i].Leaf?) && f in Faces(ls, g)
    ensures leaf in ls && leaf.Leaf? && f in LeafFaces(leaf, g)
  {
    var n := |ls| - 1;
    leaf := ls[n];
    if f !in LeafFaces(leaf, g) { leaf := LeafOfFace(ls[..n], g, f); }
  }

  lemma {:induction false} FaceOfLeaf(ls: seq<Tree<real>>, g: Buffers<real>, leaf: Tree<real>, f: Face)
    requires (forall i :: 0 <= i < |ls| ==> ls[i].Leaf?) && leaf in ls && f in LeafFaces(leaf, g)
    ensures f in Faces(ls, g)
  {
    var n := |ls| - 1;
    if leaf != ls[n] { FaceOfLeaf(ls[..n], g, leaf, f); }
  }

  /** However [0, 1] is shared among channels that cull, together they draw every triangle of the
      given mesh of which any point is in the frustum. */
  lemma VisibleIsDrawn(rules: Rules, sqrt: real -> real, m: Mesh, tris: seq<Triangle>, b: seq<real>,
                       test: Sphere<real> -> Visibility, frustum: Spheres.V -> bool, f: Face, p: Spheres.V)
    requires rules.Valid() && m.Valid() && m.HasAll(tris) && |tris| > 1 && Spheres.IsSqrt(sqrt) && SoundTest(test, frustum)
    requires Indexable(RootOutcome(rules, m, tris))
    requires var o := RootOutcome(rules, m, tris); Separated(sqrt, WithSpheres(sqrt, o.tree, o.buffers))
    requires |b| > 1 && Ascending(b) && b[0] == 0.0 && b[|b| - 1] == 1.0
    requires f in MeshFaces(m, tris) && OnFace(p, f) && frustum(p)
    ensures var o := RootOutcome(rules, m, tris);
      |o.buffers.indices| > 0 && f in Faces(DrawnByAll(Finish(sqrt, o).tree, b, test), o.buffers)
  {
    var o := RootOutcome(rules, m, tris);
    ModelRanges(rules, sqrt, m, tris);
    ModelFaithful(rules, sqrt, m, tris);
    MeshFacesPermute(m, o.tris, tris);
    FinishedSound(sqrt, o);
    assert f in multiset(MeshFaces(m, o.tris));
    VisibleInTree(Finish(sqrt, o).tree, b, test, o.buffers, frustum, f, p);
  }

  lemma VisibleInTree(t: Tree<real>, b: seq<real>, test: Sphere<real> -> Visibility, g: Buffers<real>, frustum: Spheres.V -> bool,
                      f: Face, p: Spheres.V)
    requires WellRanged(t) && StartsInUnit(t) && Sound(t, g) && SoundTest(test, frustum)
    requires |b| > 1 && Ascending(b) && b[0] == 0.0 && b[|b| - 1] == 1.0
    requires f in Faces(Leaves(t), g) && OnFace(p, f) && frustum(p)
    ensures f in Faces(DrawnByAll(t, b, test), g)
  {
    var leaf := LeafOfFace(Leaves(t), g, f);
    SelectUnit(t);
    SharedOrUnseen(t, b, test, g, frustum, leaf);
    assert !Unseen(leaf, g, frustum);
    FaceOfLeaf(DrawnByAll(t, b, test), g, leaf, f);
  }
}
