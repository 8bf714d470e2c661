/** What a finished kd-tree is, as predicates and functions on values: the split
    rule, the order along the split axes, the re-indexing of each leaf and the
    triangles that drawing the leaves emits. */
module KdSpec {
  import opened MeshTypes
  import opened VertexData

  /** VertexBufferNode's _subdivide. */
  predicate Subdivide(length: nat, depth: nat) {
    length / 2 > LEAF_SIZE || (depth < 3 && length > 1)
  }

  // ---- Re-indexing one leaf ----------------------------------------------------

  /** The vertex indices of s, corner by corner. */
  function CornerIndices(s: seq<Triangle>): (r: seq<nat>)
    ensures |r| == 3 * |s|
  {
    if s == [] then [] else
      var n := |s| - 1;
      CornerIndices(s[..n]) + [s[n].a, s[n].b, s[n].c]
  }

  lemma {:induction false} CornerAt(s: seq<Triangle>, t: nat)
    requires t < |s|
    ensures var r := CornerIndices(s);
      r[3 * t] == s[t].a && r[3 * t + 1] == s[t].b && r[3 * t + 2] == s[t].c
  {
    var n := |s| - 1;
    if t < n {
      CornerAt(s[..n], t);
    }
  }

  lemma {:induction false} CornersUpTo(s: seq<Triangle>, t: nat)
    requires t <= |s|
    ensures CornerIndices(s)[..3 * t] == CornerIndices(s[..t])
  {
    var n := |s| - 1;
    if t == |s| {
      assert s[..t] == s;
    } else {
      CornersUpTo(s[..n], t);
      assert s[..n][..t] == s[..t];
    }
  }

  /** The distinct elements of c in the order of their first occurrence. */
  function Firsts(c: seq<nat>): (r: seq<nat>)
    ensures forall x :: x in r <==> x in c
    ensures |r| <= |c|
  {
    if c == [] then [] else
      var n := |c| - 1;
      assert c == c[..n] + [c[n]];
      if c[n] in c[..n] then Firsts(c[..n]) else Firsts(c[..n]) + [c[n]]
  }

  predicate NoRepeats(f: seq<nat>) {
    forall i, j :: 0 <= i < j < |f| ==> f[i] != f[j]
  }

  lemma {:induction false} FirstsNoRepeats(c: seq<nat>)
    ensures NoRepeats(Firsts(c))
  {
    if c != [] {
      var n := |c| - 1;
      FirstsNoRepeats(c[..n]);
      if c[n] !in c[..n] {
        assert Firsts(c) == Firsts(c[..n]) + [c[n]];
        assert c[n] !in Firsts(c[..n]);
      }
    }
  }

  /** The position of x in f. */
  function Slot(f: seq<nat>, x: nat): (k: nat)
    requires x in f
    ensures k < |f| && f[k] == x
  {
    if f[|f| - 1] == x then |f| - 1 else
      assert f == f[..|f| - 1] + [f[|f| - 1]];
      Slot(f[..|f| - 1], x)
  }

  /** The 16-bit local index of each corner of a leaf. */
  function Renumber(c: seq<nat>): (r: seq<nat>)
    ensures |r| == |c|
  {
    if c == [] then [] else
      assert c[|c| - 1] in c;
      Renumber(c[..|c| - 1]) + [Short(Slot(Firsts(c), c[|c| - 1]))]
  }

  lemma SlotUnique(f: seq<nat>, x: nat, k: nat)
    requires NoRepeats(f)
    requires k < |f| && f[k] == x
    ensures Slot(f, x) == k
  {
  }

  lemma FirstsStep(c: seq<nat>, x: nat)
    ensures Firsts(c + [x]) == if x in c then Firsts(c) else Firsts(c) + [x]
    ensures x in Firsts(c + [x])
    ensures Renumber(c + [x]) == Renumber(c) + [Short(Slot(Firsts(c + [x]), x))]
  {
    assert (c + [x])[..|c|] == c;
    assert x in c + [x];
  }

  /** Every local index is the corner's position among the leaf's vertices, modulo 2^16. */
  lemma {:induction false} RenumberAt(c: seq<nat>, k: nat)
    requires k < |c|
    ensures c[k] in Firsts(c) && Renumber(c)[k] == Short(Slot(Firsts(c), c[k]))
  {
    var n := |c| - 1;
    var d, x := c[..n], c[n];
    assert c == d + [x];
    FirstsStep(d, x);
    if k < n {
      RenumberAt(d, k);
      assert c[k] == d[k];
      FirstsNoRepeats(c);
      SlotInPrefix(Firsts(d), Firsts(c), d[k]);
    }
  }

  lemma SlotInPrefix(f: seq<nat>, g: seq<nat>, x: nat)
    requires f <= g && x in f
    requires NoRepeats(g)
    ensures x in g && Slot(g, x) == Slot(f, x)
  {
    SlotUnique(g, x, Slot(f, x));
  }

  /** The number of different vertices that s uses. */
  function Distinct(s: seq<Triangle>): nat { |Firsts(CornerIndices(s))| }

  // ---- Buffers -------------------------------------------------------------------

  function Gather<T>(a: seq<T>, order: seq<nat>, default: T): (r: seq<T>)
    ensures |r| == |order|
  {
    seq(|order|, i requires 0 <= i < |order| => Fetch(a, order[i], default))
  }

  const Black: Color := Color(0, 0, 0, 0)

  /** Buffers g extended by the given vertices and local indices. */
  function Appended(g: Buffers<real>, m: Mesh, order: seq<nat>, idx: seq<nat>): Buffers<real> {
    Buffers(g.vertices + Gather(m.vertices, order, Origin),
            if m.colors == [] then g.colors else g.colors + Gather(m.colors, order, Black),
            g.normals + Gather(m.normals, order, Origin),
            g.indices + idx)
  }

  lemma GatherConcat<T>(g: seq<T>, a: seq<T>, o1: seq<nat>, o2: seq<nat>, default: T)
    ensures (g + Gather(a, o1, default)) + Gather(a, o2, default) == g + Gather(a, o1 + o2, default)
  {
  }

  lemma AppendTwice(g: Buffers<real>, m: Mesh, o1: seq<nat>, i1: seq<nat>, o2: seq<nat>, i2: seq<nat>)
    ensures Appended(Appended(g, m, o1, i1), m, o2, i2) == Appended(g, m, o1 + o2, i1 + i2)
  {
    GatherConcat(g.vertices, m.vertices, o1, o2, Origin);
    GatherConcat(g.normals, m.normals, o1, o2, Origin);
    GatherConcat(g.colors, m.colors, o1, o2, Black);
    assert (g.indices + i1) + i2 == g.indices + (i1 + i2);
  }

  // ---- The whole tree ------------------------------------------------------------

  const NoSphere: Sphere<real> := Sphere(Origin, 0.0)
  const FullRange: Range<real> := Range(0.0, 1.0)

  /** The axis setupTree gives a child: the longest one, or AXIS_X for a leaf. */
  function ChildAxis(m: Mesh, s: seq<Triangle>, depth: nat): Axis {
    if Subdivide(|s|, depth) then LongestAxis(m, s) else 0
  }

  /** A finished leaf and the buffers after it. */
  datatype Stored = Stored(leaf: Tree<real>, buffers: Buffers<real>)

  /** setupTree of a leaf over its sorted triangles q: append the re-indexed vertices
      and the local indices. _vertexLength is 16 bits wide. */
  function StoreLeaf(m: Mesh, q: seq<Triangle>, g: Buffers<real>): Stored {
    var c := CornerIndices(q);
    Stored(Leaf(NoSphere, FullRange, Box(Origin, Origin), |g.vertices|, Short(|Firsts(c)|), |g.indices|, 3 * |q|),
           Appended(g, m, Firsts(c), Renumber(c)))
  }

  /** The functions the recursion over the tree depends on: std::sort, the choice of a
      child's axis, _subdivide and the re-indexing of a leaf. Only the sort is free: Valid fixes
      the other three. They are fields so that a proof about the shape of the recursion does not
      also unfold the bounding boxes, the split test and the re-indexing. */
  datatype Rules = Rules(sort: Sorter,
                         pick: (Mesh, seq<Triangle>, nat) -> Axis,
                         split: (nat, nat) -> bool,
                         store: (Mesh, seq<Triangle>, Buffers<real>) -> Stored)
  {
    ghost predicate Valid() {
      IsSorter(sort) && PicksLongest() && Splits() && StoresLeaves()
    }

    ghost predicate PicksLongest() {
      forall m: Mesh, s: seq<Triangle>, depth: nat {:trigger ChildAxis(m, s, depth)} ::
        pick(m, s, depth) == ChildAxis(m, s, depth)
    }

    ghost predicate Splits() {
      forall length: nat, depth: nat {:trigger Subdivide(length, depth)} ::
        split(length, depth) == Subdivide(length, depth)
    }

    ghost predicate StoresLeaves() {
      forall m: Mesh, q: seq<Triangle>, g: Buffers<real> {:trigger StoreLeaf(m, q, g)} ::
        store(m, q, g) == StoreLeaf(m, q, g)
    }

    function Sort(m: Mesh, axis: Axis, s: seq<Triangle>): (r: seq<Triangle>)
      ensures |r| == |s|
    {
      var r := sort(m, axis, s);
      if |r| == |s| then r else s
    }

    predicate Leafy(length: nat, depth: nat) { length < 2 || !split(length, depth) }
  }

  lemma RulesExist()
    ensures Rules(InsertionSort, ChildAxis, Subdivide, StoreLeaf).Valid()
  {
  }

  lemma SortKeeps(rules: Rules, m: Mesh, axis: Axis, s: seq<Triangle>)
    requires rules.Valid()
    ensures multiset(rules.Sort(m, axis, s)) == multiset(s) && Sorted(m, axis, rules.Sort(m, axis, s))
  {
    SorterKeeps(rules.sort, m, axis, s);
  }

  /** The triangles of a range, the tree over it and the buffers, as setupTree leaves them. */
  datatype Outcome = Outcome(tris: seq<Triangle>, tree: Tree<real>, buffers: Buffers<real>)

  /** setupTree over the triangles s. */
  function Build(rules: Rules, m: Mesh, s: seq<Triangle>, leaf: bool, axis: Axis, depth: nat,
                 g: Buffers<real>): (r: Outcome)
    requires leaf || |s| > 1
    ensures |r.tris| == |s|
    decreases |s|
  {
    var q, h := rules.Sort(m, axis, s), |s| / 2;
    if leaf then
      var st := rules.store(m, q, g);
      Outcome(q, st.leaf, st.buffers)
    else
      var left, right := q[..h], q[h..];
      var l := Build(rules, m, left, rules.Leafy(|left|, depth), rules.pick(m, left, depth), depth + 1, g);
      var r := Build(rules, m, right, rules.Leafy(|right|, depth), rules.pick(m, right, depth), depth + 1, l.buffers);
      Outcome(l.tris + r.tris, Node(NoSphere, FullRange, l.tree, r.tree), r.buffers)
  }

  /** The halves of the sorted range below a node, and what its children make of them. */
  datatype Halves = Halves(left: seq<Triangle>, right: seq<Triangle>, l: Outcome, r: Outcome)

  function Child(rules: Rules, m: Mesh, s: seq<Triangle>, depth: nat, g: Buffers<real>): (r: Outcome)
    ensures |r.tris| == |s|
  {
    Build(rules, m, s, rules.Leafy(|s|, depth), rules.pick(m, s, depth), depth + 1, g)
  }

  lemma SplitOf(rules: Rules, m: Mesh, s: seq<Triangle>, axis: Axis, depth: nat, g: Buffers<real>) returns (v: Halves)
    requires |s| > 1
    ensures 0 < |v.left| == |s| / 2 && 0 < |v.right| == |s| - |s| / 2
    ensures v.left + v.right == rules.Sort(m, axis, s)
    ensures v.l == Child(rules, m, v.left, depth, g) && v.r == Child(rules, m, v.right, depth, v.l.buffers)
    ensures Build(rules, m, s, false, axis, depth, g) ==
            Outcome(v.l.tris + v.r.tris, Node(NoSphere, FullRange, v.l.tree, v.r.tree), v.r.buffers)
  {
    var q, h := rules.Sort(m, axis, s), |s| / 2;
    var left, right := q[..h], q[h..];
    var l := Child(rules, m, left, depth, g);
    v := Halves(left, right, l, Child(rules, m, right, depth, l.buffers));
  }

  /** Building only rearranges the triangles. */
  lemma {:induction false} BuildPermutes(rules: Rules, m: Mesh, s: seq<Triangle>, leaf: bool, axis: Axis, depth: nat,
                                         g: Buffers<real>)
    requires rules.Valid() && (leaf || |s| > 1)
    ensures multiset(Build(rules, m, s, leaf, axis, depth, g).tris) == multiset(s)
    decreases |s|
  {
    SortKeeps(rules, m, axis, s);
    if !leaf {
      var v := SplitOf(rules, m, s, axis, depth, g);
      BuildPermutes(rules, m, v.left, rules.Leafy(|v.left|, depth), rules.pick(m, v.left, depth), depth + 1, g);
      BuildPermutes(rules, m, v.right, rules.Leafy(|v.right|, depth), rules.pick(m, v.right, depth), depth + 1, v.l.buffers);
      assert multiset(v.left + v.right) == multiset(v.left) + multiset(v.right);
    }
  }

  // ---- Drawing -------------------------------------------------------------------

  /** One corner as OpenGL receives it, and one triangle of three of them. */
  datatype Corner = Corner(vertex: V, normal: V, color: Option<Color>)
  datatype Face = Face(c0: Corner, c1: Corner, c2: Corner)

  function MeshCorner(m: Mesh, i: nat): Corner {
    Corner(m.Vertex(i), Fetch(m.normals, i, Origin), if m.colors == [] then None else Some(Fetch(m.colors, i, Black)))
  }

  function MeshFace(m: Mesh, t: Triangle): Face {
    Face(MeshCorner(m, t.a), MeshCorner(m, t.b), MeshCorner(m, t.c))
  }

  function MeshFaces(m: Mesh, s: seq<Triangle>): (r: seq<Face>)
    ensures |r| == |s|
  {
    seq(|s|, k requires 0 <= k < |s| => MeshFace(m, s[k]))
  }

  function BufferCorner(g: Buffers<real>, i: nat): Corner {
    Corner(Fetch(g.vertices, i, Origin), Fetch(g.normals, i, Origin),
           if g.colors == [] then None else Some(Fetch(g.colors, i, Black)))
  }

  /** The vertex that index k of a leaf leads to. */
  function LeafVertex(leaf: Tree<real>, g: Buffers<real>, k: nat): nat
    requires leaf.Leaf?
  {
    leaf.vertexStart + Fetch(g.indices, leaf.indexStart + k, 0)
  }

  function LeafCorner(leaf: Tree<real>, g: Buffers<real>, k: nat): Corner
    requires leaf.Leaf?
  {
    BufferCorner(g, LeafVertex(leaf, g, k))
  }

  /** Triangle t of the leaf: GL_TRIANGLES groups the corners by three. */
  function LeafFace(leaf: Tree<real>, g: Buffers<real>, t: nat): Face
    requires leaf.Leaf?
  {
    Face(LeafCorner(leaf, g, 3 * t), LeafCorner(leaf, g, 3 * t + 1), LeafCorner(leaf, g, 3 * t + 2))
  }

  /** VertexBufferLeaf::renderImmediate. */
  function LeafFaces(leaf: Tree<real>, g: Buffers<real>): (r: seq<Face>)
    requires leaf.Leaf?
    ensures |r| == leaf.indexLength / 3
  {
    seq(leaf.indexLength / 3, t requires 0 <= t < leaf.indexLength / 3 => LeafFace(leaf, g, t))
  }

  /** Every index of the leaf leads to a vertex with all its attributes. */
  predicate LeafInBuffers(leaf: Tree<real>, g: Buffers<real>) {
    && leaf.Leaf? && leaf.indexStart + leaf.indexLength <= |g.indices|
    && |g.normals| == |g.vertices| && (g.colors == [] || |g.colors| == |g.vertices|)
    && forall k :: 0 <= k < leaf.indexLength ==> LeafVertex(leaf, g, k) < |g.vertices|
  }

  /** The triangles emitted by drawing the leaves ls one after the other. */
  function Faces(ls: seq<Tree<real>>, g: Buffers<real>): seq<Face>
    requires forall i :: 0 <= i < |ls| ==> ls[i].Leaf?
  {
    if ls == [] then [] else Faces(ls[..|ls| - 1], g) + LeafFaces(ls[|ls| - 1], g)
  }
}
