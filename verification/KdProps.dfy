/** What the built tree guarantees about the mesh: drawing its leaves emits exactly the given
    triangles, and its inner nodes are in kd order. */
module KdProps {
  import opened MeshTypes
  import opened VertexData
  import opened KdSpec

  // ---- The mesh is preserved -----------------------------------------------------

  ghost predicate Extends(g: Buffers<real>, big: Buffers<real>) {
    g.vertices <= big.vertices && g.colors <= big.colors && g.normals <= big.normals && g.indices <= big.indices
  }

  /** One normal per vertex, and one color per vertex or none at all. */
  predicate Aligned(g: Buffers<real>, m: Mesh) {
    |g.normals| == |g.vertices| && |g.colors| == (if m.colors == [] then 0 else |g.vertices|)
  }

  lemma ExtendsTrans(a: Buffers<real>, b: Buffers<real>, c: Buffers<real>)
    requires Extends(a, b) && Extends(b, c)
    ensures Extends(a, c)
  {
  }

  lemma StoreExtends(m: Mesh, q: seq<Triangle>, g: Buffers<real>)
    ensures Extends(g, StoreLeaf(m, q, g).buffers)
    ensures Aligned(g, m) ==> Aligned(StoreLeaf(m, q, g).buffers, m)
  {
  }

  /** Building appends to the buffers. */
  lemma {:induction false} BuildExtends(rules: Rules, m: Mesh, s: seq<Triangle>, leaf: bool, axis: Axis, depth: nat,
                                        g: Buffers<real>)
    requires rules.Valid() && (leaf || |s| > 1)
    ensures var o := Build(rules, m, s, leaf, axis, depth, g);
      Extends(g, o.buffers) && (Aligned(g, m) ==> Aligned(o.buffers, m))
    decreases |s|
  {
    if leaf {
      StoreExtends(m, rules.Sort(m, axis, s), g);
    } else {
      var v := SplitOf(rules, m, s, axis, depth, g);
      BuildExtends(rules, m, v.left, rules.Leafy(|v.left|, depth), rules.pick(m, v.left, depth), depth + 1, g);
      BuildExtends(rules, m, v.right, rules.Leafy(|v.right|, depth), rules.pick(m, v.right, depth), depth + 1, v.l.buffers);
      ExtendsTrans(g, v.l.buffers, v.r.buffers);
    }
  }

  /** What MESHASSERT demands of a leaf: its vertex count fits the 16-bit ShortIndex. */
  predicate FitsShort(s: seq<Triangle>) { |Firsts(CornerIndices(s))| < 0x1_0000 }

  predicate AllFitShort(t: Tree<real>, s: seq<Triangle>) {
    match t
    case Leaf(_, _, _, _, _, _, _) => FitsShort(s)
    case Node(_, _, l, r) => AllFitShort(l, s[..|s| / 2]) && AllFitShort(r, s[|s| / 2..])
  }

  /** An appended element, looked up in any extension of the buffer. */
  lemma AppendedAt<T>(g: seq<T>, a: seq<T>, f: seq<nat>, default: T, big: seq<T>, j: nat, i: nat)
    requires g + Gather(a, f, default) <= big && j < |f| && f[j] < |a| && i == |g| + j
    ensures i < |big| && big[i] == a[f[j]]
  {
    assert (g + Gather(a, f, default))[i] == Gather(a, f, default)[j];
  }

  /** The local index of corner k leads to the vertex it stands for. */
  lemma LocalIndex(c: seq<nat>, k: nat) returns (j: nat)
    requires k < |c| && |Firsts(c)| < 0x1_0000
    ensures j < |Firsts(c)| && Firsts(c)[j] == c[k] && Renumber(c)[k] == j
  {
    RenumberAt(c, k);
    j := Slot(Firsts(c), c[k]);
  }

  /** A local index j, looked up through the final buffers. */
  lemma LookUp(m: Mesh, f: seq<nat>, r: seq<nat>, g: Buffers<real>, big: Buffers<real>, k: nat, j: nat, p: nat, i: nat)
    requires m.Valid() && Aligned(g, m) && Aligned(big, m) && k < |r| && j < |f| && f[j] < |m.vertices| && r[k] == j
    requires Extends(Appended(g, m, f, r), big)
    requires p == |g.indices| + k && i == |g.vertices| + j
    ensures p < |big.indices| && big.indices[p] == j && i < |big.vertices|
    ensures BufferCorner(big, i) == MeshCorner(m, f[j])
  {
    assert (g.indices + r)[p] == r[k];
    AppendedAt(g.vertices, m.vertices, f, Origin, big.vertices, j, i);
    AppendedAt(g.normals, m.normals, f, Origin, big.normals, j, i);
    if m.colors != [] {
      AppendedAt(g.colors, m.colors, f, Black, big.colors, j, i);
    }
  }

  lemma {:induction false} CornerInMesh(m: Mesh, s: seq<Triangle>, k: nat)
    requires m.HasAll(s) && k < 3 * |s|
    ensures CornerIndices(s)[k] < |m.vertices|
  {
    var n := |s| - 1;
    assert m.Has(s[n]);
    if k < 3 * n {
      CornerInMesh(m, s[..n], k);
    }
  }

  /** What a leaf over q must find in the final buffers. */
  ghost predicate LeafStored(m: Mesh, q: seq<Triangle>, g: Buffers<real>, leaf: Tree<real>, big: Buffers<real>) {
    && m.Valid() && m.HasAll(q) && FitsShort(q) && Aligned(g, m) && Aligned(big, m)
    && leaf.Leaf? && leaf.vertexStart == |g.vertices| && leaf.indexStart == |g.indices| && leaf.indexLength == 3 * |q|
    && Extends(Appended(g, m, Firsts(CornerIndices(q)), Renumber(CornerIndices(q))), big)
  }

  /** Corner k of the leaf leads to its own vertex. */
  lemma CornerStored(m: Mesh, q: seq<Triangle>, g: Buffers<real>, leaf: Tree<real>, big: Buffers<real>, k: nat, p: nat)
    requires LeafStored(m, q, g, leaf, big) && k < 3 * |q| && p == leaf.indexStart + k
    ensures p < |big.indices| && leaf.vertexStart + big.indices[p] < |big.vertices|
    ensures BufferCorner(big, leaf.vertexStart + big.indices[p]) == MeshCorner(m, CornerIndices(q)[k])
  {
    var c := CornerIndices(q);
    var j := LocalIndex(c, k);
    CornerInMesh(m, q, k);
    var i := leaf.vertexStart + j;
    LookUp(m, Firsts(c), Renumber(c), g, big, k, j, p, i);
  }

  lemma CornerFaithful(m: Mesh, q: seq<Triangle>, g: Buffers<real>, leaf: Tree<real>, big: Buffers<real>, k: nat, p: nat)
    requires LeafStored(m, q, g, leaf, big) && k < 3 * |q| && p == leaf.indexStart + k
    ensures LeafVertex(leaf, big, k) < |big.vertices|
    ensures LeafCorner(leaf, big, k) == MeshCorner(m, CornerIndices(q)[k])
  {
    CornerStored(m, q, g, leaf, big, k, p);
    LeafCornerAt(leaf, big, k, p);
  }

  lemma LeafCornerAt(leaf: Tree<real>, g: Buffers<real>, k: nat, p: nat)
    requires leaf.Leaf? && p == leaf.indexStart + k < |g.indices|
    ensures LeafVertex(leaf, g, k) == leaf.vertexStart + g.indices[p]
    ensures LeafCorner(leaf, g, k) == BufferCorner(g, leaf.vertexStart + g.indices[p])
  {
  }

  /** Drawing a leaf emits its triangles, corner by corner. */
  lemma LeafFaithful(m: Mesh, q: seq<Triangle>, g: Buffers<real>, leaf: Tree<real>, big: Buffers<real>)
    requires LeafStored(m, q, g, leaf, big)
    ensures LeafFaces(leaf, big) == MeshFaces(m, q)
  {
    forall t | 0 <= t < |q| ensures LeafFace(leaf, big, t) == MeshFace(m, q[t]) {
      FaceFaithful(m, q, g, leaf, big, t, 3 * t, leaf.indexStart + 3 * t);
    }
  }

  lemma FaceFaithful(m: Mesh, q: seq<Triangle>, g: Buffers<real>, leaf: Tree<real>, big: Buffers<real>,
                     t: nat, k: nat, p: nat)
    requires LeafStored(m, q, g, leaf, big) && t < |q| && k == 3 * t && p == leaf.indexStart + k
    ensures LeafFace(leaf, big, t) == MeshFace(m, q[t])
  {
    var k1, k2, p1, p2 := k + 1, k + 2, p + 1, p + 2;
    CornerAt(q, t);
    CornerFaithful(m, q, g, leaf, big, k, p);
    CornerFaithful(m, q, g, leaf, big, k1, p1);
    CornerFaithful(m, q, g, leaf, big, k2, p2);
  }

  lemma LeafStoredInBuffers(m: Mesh, q: seq<Triangle>, g: Buffers<real>, leaf: Tree<real>, big: Buffers<real>)
    requires LeafStored(m, q, g, leaf, big)
    ensures LeafInBuffers(leaf, big)
  {
    forall k | 0 <= k < leaf.indexLength ensures LeafVertex(leaf, big, k) < |big.vertices| {
      CornerFaithful(m, q, g, leaf, big, k, leaf.indexStart + k);
    }
    assert |g.indices| + 3 * |q| <= |big.indices|;
  }

  lemma {:induction false} FacesConcat(a: seq<Tree<real>>, b: seq<Tree<real>>, g: Buffers<real>)
    requires forall i :: 0 <= i < |a| ==> a[i].Leaf?
    requires forall i :: 0 <= i < |b| ==> b[i].Leaf?
    ensures Faces(a + b, g) == Faces(a, g) + Faces(b, g)
  {
    if b == [] {
      assert a + b == a;
    } else {
      var n := |b| - 1;
      FacesConcat(a, b[..n], g);
      assert (a + b)[..|a + b| - 1] == a + b[..n];
    }
  }

  ghost predicate AllInBuffers(t: Tree<real>, g: Buffers<real>) {
    match t
    case Leaf(_, _, _, _, _, _, _) => LeafInBuffers(t, g)
    case Node(_, _, l, r) => AllInBuffers(l, g) && AllInBuffers(r, g)
  }

  /** Reading all leaves left to right gives back the final triangle sequence: vertices,
      normals, colors and corner order. */
  ghost predicate Faithful(m: Mesh, o: Outcome, big: Buffers<real>) {
    Faces(Leaves(o.tree), big) == MeshFaces(m, o.tris) && AllInBuffers(o.tree, big)
  }

  /** What TreeFaithful needs to know of a subtree o over s, appended to g. */
  ghost predicate Ready(m: Mesh, s: seq<Triangle>, g: Buffers<real>, o: Outcome, big: Buffers<real>) {
    m.HasAll(s) && Aligned(g, m) && AllFitShort(o.tree, o.tris) && Extends(o.buffers, big)
  }

  lemma {:induction false} TreeFaithful(rules: Rules, m: Mesh, s: seq<Triangle>, leaf: bool, axis: Axis, depth: nat,
                                        g: Buffers<real>, big: Buffers<real>)
    requires rules.Valid() && m.Valid() && Aligned(big, m) && (leaf || |s| > 1)
    requires Ready(m, s, g, Build(rules, m, s, leaf, axis, depth, g), big)
    ensures Faithful(m, Build(rules, m, s, leaf, axis, depth, g), big)
    decreases |s|
  {
    SortHas(rules, m, axis, s);
    if leaf {
      var q := rules.Sort(m, axis, s);
      assert rules.store(m, q, g) == StoreLeaf(m, q, g);
      StoredFaithful(m, q, g, big);
    } else {
      var v := SplitOf(rules, m, s, axis, depth, g);
      BuildExtends(rules, m, v.left, rules.Leafy(|v.left|, depth), rules.pick(m, v.left, depth), depth + 1, g);
      BuildExtends(rules, m, v.right, rules.Leafy(|v.right|, depth), rules.pick(m, v.right, depth), depth + 1, v.l.buffers);
      HalvesReady(m, v, g, big);
      TreeFaithful(rules, m, v.left, rules.Leafy(|v.left|, depth), rules.pick(m, v.left, depth), depth + 1, g, big);
      TreeFaithful(rules, m, v.right, rules.Leafy(|v.right|, depth), rules.pick(m, v.right, depth), depth + 1, v.l.buffers, big);
      HalvesFaithful(m, v.l, v.r, big);
    }
  }

  lemma SortHas(rules: Rules, m: Mesh, axis: Axis, s: seq<Triangle>)
    requires rules.Valid() && m.HasAll(s)
    ensures m.HasAll(rules.Sort(m, axis, s))
  {
    SortKeeps(rules, m, axis, s);
    PermutationHas(m, s, rules.Sort(m, axis, s));
  }

  lemma HalvesReady(m: Mesh, v: Halves, g: Buffers<real>, big: Buffers<real>)
    requires Ready(m, v.left + v.right, g, Joined(v.l, v.r), big) && |v.l.tris| == |v.l.tris + v.r.tris| / 2
    requires Aligned(v.l.buffers, m) && Extends(v.l.buffers, v.r.buffers)
    ensures Ready(m, v.left, g, v.l, big) && Ready(m, v.right, v.l.buffers, v.r, big)
  {
    ConcatHas(m, v.left, v.right);
    HalvesFit(v.l, v.r);
    ExtendsTrans(v.l.buffers, v.r.buffers, big);
  }

  lemma StoredFaithful(m: Mesh, q: seq<Triangle>, g: Buffers<real>, big: Buffers<real>)
    requires m.Valid() && m.HasAll(q) && Aligned(g, m) && Aligned(big, m) && FitsShort(q)
    requires Extends(StoreLeaf(m, q, g).buffers, big)
    ensures var st := StoreLeaf(m, q, g); Faithful(m, Outcome(q, st.leaf, st.buffers), big)
  {
    var leaf := StoreLeaf(m, q, g).leaf;
    LeafFaithful(m, q, g, leaf, big);
    LeafStoredInBuffers(m, q, g, leaf, big);
    OneLeaf(leaf, big);
  }

  function Joined(l: Outcome, r: Outcome): Outcome {
    Outcome(l.tris + r.tris, Node(NoSphere, FullRange, l.tree, r.tree), r.buffers)
  }

  lemma HalvesFit(l: Outcome, r: Outcome)
    requires |l.tris| == |l.tris + r.tris| / 2
    ensures AllFitShort(Joined(l, r).tree, Joined(l, r).tris) <==> AllFitShort(l.tree, l.tris) && AllFitShort(r.tree, r.tris)
  {
    var t := l.tris + r.tris;
    assert t[..|t| / 2] == l.tris && t[|t| / 2..] == r.tris;
  }

  lemma HalvesFaithful(m: Mesh, l: Outcome, r: Outcome, big: Buffers<real>)
    requires Faithful(m, l, big) && Faithful(m, r, big)
    ensures Faithful(m, Joined(l, r), big)
  {
    FacesConcat(Leaves(l.tree), Leaves(r.tree), big);
    assert MeshFaces(m, l.tris + r.tris) == MeshFaces(m, l.tris) + MeshFaces(m, r.tris);
  }

  lemma OneLeaf(leaf: Tree<real>, g: Buffers<real>)
    requires leaf.Leaf?
    ensures Faces(Leaves(leaf), g) == LeafFaces(leaf, g)
  {
    assert Leaves(leaf) == [leaf] && [leaf][..0] == [];
  }

  lemma ConcatHas(m: Mesh, a: seq<Triangle>, b: seq<Triangle>)
    requires m.HasAll(a + b)
    ensures m.HasAll(a) && m.HasAll(b)
  {
    forall i | 0 <= i < |a| ensures m.Has(a[i]) { assert (a + b)[i] == a[i]; }
    forall i | 0 <= i < |b| ensures m.Has(b[i]) { assert (a + b)[|a| + i] == b[i]; }
  }

  // ---- The 16-bit indices ----------------------------------------------------------

  /** All local indices stay below _vertexLength, the number of vertices the leaf uploads. */
  ghost predicate IndicesBelow(r: seq<nat>, vertexLength: nat) {
    forall k :: 0 <= k < |r| ==> r[k] < vertexLength
  }

  /** That is so exactly when the leaf uses fewer than 2^16 different vertices. */
  lemma ShortIndicesSuffice(q: seq<Triangle>)
    requires |q| > 0
    ensures FitsShort(q) <==> IndicesBelow(Renumber(CornerIndices(q)), Short(|Firsts(CornerIndices(q))|))
  {
    var c := CornerIndices(q);
    if FitsShort(q) {
      forall k | 0 <= k < |c| ensures Renumber(c)[k] < Short(|Firsts(c)|) { var j := LocalIndex(c, k); }
    } else {
      var k := LastShort(c);
      assert Renumber(c)[k] >= Short(|Firsts(c)|);
    }
  }

  /** The vertex with local number 2^16 - 1 occurs at some corner. */
  lemma LastShort(c: seq<nat>) returns (k: nat)
    requires |Firsts(c)| >= 0x1_0000
    ensures k < |c| && Renumber(c)[k] == 0xffff
  {
    var f := Firsts(c);
    var x := f[0xffff];
    assert x in f;
    k :| 0 <= k < |c| && c[k] == x;
    RenumberAt(c, k);
    LastSlot(f, x, c);
  }

  lemma LastSlot(f: seq<nat>, x: nat, c: seq<nat>)
    requires f == Firsts(c) && |f| >= 0x1_0000 && x == f[0xffff]
    ensures x in f && Slot(f, x) == 0xffff
  {
    FirstsNoRepeats(c);
    SlotUnique(f, x, 0xffff);
  }

  // ---- Order along the split axes --------------------------------------------------

  /** No triangle of right precedes one of left along the axis. */
  ghost predicate SplitBy(m: Mesh, axis: Axis, left: seq<Triangle>, right: seq<Triangle>) {
    forall x, y :: x in left && y in right ==> !Precedes(m, axis, y, x)
  }

  /** t is a kd-tree over the triangle sequence s: every inner node halves its triangles
      along its axis, which for a child is the longest axis of that child's own
      triangles, and children are inner exactly as _subdivide says. */
  ghost predicate KdOrdered(m: Mesh, s: seq<Triangle>, t: Tree<real>, axis: Axis, depth: nat)
    decreases t
  {
    match t
    case Leaf(_, _, _, _, _, _, _) => Sorted(m, axis, s)
    case Node(_, _, l, r) =>
      var a, b := s[..|s| / 2], s[|s| / 2..];
      && |s| > 1 && SplitBy(m, axis, a, b)
      && (l.Node? <==> Subdivide(|a|, depth)) && (r.Node? <==> Subdivide(|b|, depth))
      && KdOrdered(m, a, l, ChildAxis(m, a, depth), depth + 1)
      && KdOrdered(m, b, r, ChildAxis(m, b, depth), depth + 1)
  }

  /** The kd order holds in the final triangle array, although both halves of every node
      were sorted again along other axes afterwards. */
  lemma {:induction false} BuildKdOrdered(rules: Rules, m: Mesh, s: seq<Triangle>, leaf: bool, axis: Axis, depth: nat,
                                          g: Buffers<real>)
    requires rules.Valid() && (leaf || |s| > 1)
    ensures var o := Build(rules, m, s, leaf, axis, depth, g);
      KdOrdered(m, o.tris, o.tree, axis, depth) && (o.tree.Leaf? <==> leaf)
    decreases |s|, 0
  {
    SortKeeps(rules, m, axis, s);
    if leaf {
      assert rules.store(m, rules.Sort(m, axis, s), g) == StoreLeaf(m, rules.Sort(m, axis, s), g);
    } else {
      var v := SplitOf(rules, m, s, axis, depth, g);
      HalfKdOrdered(rules, m, v.left, depth, g);
      HalfKdOrdered(rules, m, v.right, depth, v.l.buffers);
      SplitSorted(m, axis, v.left, v.right, v.l.tris, v.r.tris);
      JoinKdOrdered(m, v.l, v.r, axis, depth);
    }
  }

  /** A child over s, in terms of its final triangles. */
  ghost predicate ChildKdOrdered(m: Mesh, o: Outcome, depth: nat) {
    && KdOrdered(m, o.tris, o.tree, ChildAxis(m, o.tris, depth), depth + 1)
    && (o.tree.Node? <==> Subdivide(|o.tris|, depth))
  }

  lemma {:induction false} HalfKdOrdered(rules: Rules, m: Mesh, s: seq<Triangle>, depth: nat, g: Buffers<real>)
    requires rules.Valid()
    ensures var o := Child(rules, m, s, depth, g); multiset(o.tris) == multiset(s) && ChildKdOrdered(m, o, depth)
    decreases |s|, 1
  {
    var leaf, axis := rules.Leafy(|s|, depth), rules.pick(m, s, depth);
    BuildKdOrdered(rules, m, s, leaf, axis, depth + 1, g);
    BuildPermutes(rules, m, s, leaf, axis, depth + 1, g);
    var o := Child(rules, m, s, depth, g);
    LongestAxisPermutation(m, s, o.tris);
    assert axis == ChildAxis(m, s, depth) == ChildAxis(m, o.tris, depth);
    assert leaf <==> !Subdivide(|s|, depth);
  }

  lemma JoinKdOrdered(m: Mesh, l: Outcome, r: Outcome, axis: Axis, depth: nat)
    requires ChildKdOrdered(m, l, depth) && ChildKdOrdered(m, r, depth)
    requires SplitBy(m, axis, l.tris, r.tris) && 0 < |l.tris| == |l.tris + r.tris| / 2
    ensures KdOrdered(m, Joined(l, r).tris, Joined(l, r).tree, axis, depth)
  {
    var t := l.tris + r.tris;
    assert t[..|t| / 2] == l.tris && t[|t| / 2..] == r.tris;
  }

  lemma SplitSorted(m: Mesh, axis: Axis, left: seq<Triangle>, right: seq<Triangle>, l: seq<Triangle>, r: seq<Triangle>)
    requires Sorted(m, axis, left + right) && multiset(l) == multiset(left) && multiset(r) == multiset(right)
    ensures SplitBy(m, axis, l, r)
  {
    forall x, y | x in l && y in r ensures !Precedes(m, axis, y, x) {
      assert x in multiset(l) && y in multiset(r);
      var i :| 0 <= i < |left| && left[i] == x;
      var j :| 0 <= j < |right| && right[j] == y;
      assert (left + right)[i] == x && (left + right)[|left| + j] == y;
    }
  }
}
