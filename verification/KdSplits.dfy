/** How the finished tree divides the mesh, without reference to the functions that decide it:
    which nodes are split, along which axis, and how the triangles of a leaf are ordered. */
module KdSplits {
  import opened Hiding
  import opened MeshTypes
  import opened VertexData
  import opened KdSpec
  import opened KdProps
  import opened KdRanges
  import opened KdSpheres
  import opened MeshRoot
  import opened MeshTheorems

  /** The most triangles that a part at the given level may have without being split. */
  function Unsplit(level: nat): nat { if level <= 3 then 1 else 43691 }

  /** t, at the given level, divides the triangles s: it is split exactly above the limit, in
      halves, so that along the longest axis of its triangles nothing in the right half precedes
      anything in the left one; the triangles of a leaf are sorted along AXIS_X. */
  ghost predicate Divides(m: Mesh, s: seq<Triangle>, t: Tree<real>, level: nat)
    decreases t
  {
    && Triangles(t) == |s|
    && (level > 0 ==> (t.Node? <==> |s| > Unsplit(level)))
    && match t
       case Leaf(_, _, _, _, _, _, _) => Sorted(m, 0, s)
       case Node(_, _, l, r) =>
         var a, b := s[..|s| / 2], s[|s| / 2..];
         && (exists axis: Axis :: IsLongestAxis(m, s, axis) && SplitBy(m, axis, a, b))
         && Divides(m, a, l, level + 1) && Divides(m, b, r, level + 1)
  }

  /** The axis along which t, over the triangles s, has to be sorted. */
  ghost predicate AxisFor(m: Mesh, s: seq<Triangle>, t: Tree<real>, axis: Axis) {
    forall key {:trigger Unfold(key)} :: Unfold(key) ==> if t.Node? then IsLongestAxis(m, s, axis) else axis == 0
  }

  lemma ChildAxisFor(m: Mesh, s: seq<Triangle>, t: Tree<real>, depth: nat)
    requires t.Node? <==> Subdivide(|s|, depth)
    ensures AxisFor(m, s, t, ChildAxis(m, s, depth))
  {
    if t.Node? { LongestAxisIs(m, s); }
  }

  ghost predicate Ordered(m: Mesh, s: seq<Triangle>, t: Tree<real>, axis: Axis, depth: nat) {
    forall key {:trigger Unfold(key)} :: Unfold(key) ==> KdOrdered(m, s, t, axis, depth) && Halved(t, |s|)
  }

  lemma OrderedNode(m: Mesh, s: seq<Triangle>, t: Tree<real>, axis: Axis, depth: nat, a: seq<Triangle>, b: seq<Triangle>)
    requires Ordered(m, s, t, axis, depth) && t.Node? && a == s[..|s| / 2] && b == s[|s| / 2..]
    ensures Triangles(t) == |s| && SplitBy(m, axis, a, b)
    ensures (t.left.Node? <==> Subdivide(|a|, depth)) && (t.right.Node? <==> Subdivide(|b|, depth))
    ensures Ordered(m, a, t.left, ChildAxis(m, a, depth), depth + 1)
    ensures Ordered(m, b, t.right, ChildAxis(m, b, depth), depth + 1)
  {
    assert Unfold(0);
  }

  lemma LeafDivides(m: Mesh, s: seq<Triangle>, t: Tree<real>, axis: Axis, level: nat)
    requires t.Leaf? && Ordered(m, s, t, axis, level) && AxisFor(m, s, t, axis)
    requires level > 0 ==> |s| <= Unsplit(level)
    ensures Divides(m, s, t, level)
  {
    assert Unfold(0);
  }

  lemma {:induction false} OrderedDivides(m: Mesh, s: seq<Triangle>, t: Tree<real>, axis: Axis, level: nat)
    requires Ordered(m, s, t, axis, level) && AxisFor(m, s, t, axis)
    requires level > 0 ==> (t.Node? <==> |s| > Unsplit(level))
    ensures Divides(m, s, t, level)
    decreases t
  {
    if t.Leaf? {
      LeafDivides(m, s, t, axis, level);
    } else {
      var a, b := s[..|s| / 2], s[|s| / 2..];
      OrderedNode(m, s, t, axis, level, a, b);
      ChildDivides(m, a, t.left, level);
      ChildDivides(m, b, t.right, level);
      OrderedDivides(m, a, t.left, ChildAxis(m, a, level), level + 1);
      OrderedDivides(m, b, t.right, ChildAxis(m, b, level), level + 1);
      NodeDivides(m, s, t, axis, level);
    }
  }

  lemma ChildDivides(m: Mesh, s: seq<Triangle>, t: Tree<real>, level: nat)
    requires t.Node? <==> Subdivide(|s|, level)
    ensures AxisFor(m, s, t, ChildAxis(m, s, level)) && (t.Node? <==> |s| > Unsplit(level + 1))
  {
    ChildAxisFor(m, s, t, level);
    LeafLimit(|s|, level);
  }

  lemma NodeDivides(m: Mesh, s: seq<Triangle>, t: Tree<real>, axis: Axis, level: nat)
    requires t.Node? && Triangles(t) == |s| && AxisFor(m, s, t, axis) && (level > 0 ==> |s| > Unsplit(level))
    requires SplitBy(m, axis, s[..|s| / 2], s[|s| / 2..])
    requires Divides(m, s[..|s| / 2], t.left, level + 1) && Divides(m, s[|s| / 2..], t.right, level + 1)
    ensures Divides(m, s, t, level)
  {
    assert Unfold(0);
  }

  lemma {:induction false} DividesBare(m: Mesh, s: seq<Triangle>, t: Tree<real>, level: nat)
    ensures Divides(m, s, Bare(t), level) <==> Divides(m, s, t, level)
    decreases t
  {
    ShapeBare(t, 0, 1, 1);
    if t.Node? {
      DividesBare(m, s[..|s| / 2], t.left, level + 1);
      DividesBare(m, s[|s| / 2..], t.right, level + 1);
    }
  }

  /** The finished model divides the final triangle array, from level 0 on. */
  lemma ModelDivides(rules: Rules, sqrt: real -> real, m: Mesh, tris: seq<Triangle>)
    requires rules.Valid() && |tris| > 1
    ensures var o := RootOutcome(rules, m, tris);
      && |o.buffers.indices| > 0 && multiset(o.tris) == multiset(tris)
      && var t := Finish(sqrt, o).tree; t.Node? && Divides(m, o.tris, t, 0)
  {
    var o, axis := RootOutcome(rules, m, tris), LongestAxis(m, tris);
    RootIndices(rules, m, tris);
    BuildPermutes(rules, m, tris, false, axis, 0, NoBuffers);
    LongestAxisPermutation(m, tris, o.tris);
    BuildKdOrdered(rules, m, tris, false, axis, 0, NoBuffers);
    BuildHalved(rules, m, tris, false, axis, 0, NoBuffers);
    LongestAxisIs(m, o.tris);
    OrderedDivides(m, o.tris, o.tree, axis, 0);
    var s, n := WithSpheres(sqrt, o.tree, o.buffers), |o.buffers.indices|;
    BareSpheres(sqrt, o.tree, o.buffers);
    BareRange(s, n);
    DividesBare(m, o.tris, o.tree, 0);
    DividesBare(m, o.tris, WithRange(s, n), 0);
  }

  /** So a tree has at least sixteen leaves, or one for every triangle: from a node at the given
      level on, two for every level down to the fourth. */
  lemma {:induction false} ManyLeaves(m: Mesh, s: seq<Triangle>, t: Tree<real>, level: nat, n: nat)
    requires Divides(m, s, t, level) && s != [] && (level == 0 ==> t.Node?)
    requires level <= 4 && n == [16, 8, 4, 2, 1][level]
    ensures |Leaves(t)| >= if |s| <= n then |s| else n
    decreases t
  {
    if t.Node? && level < 4 && |s| > 1 {
      ManyLeaves(m, s[..|s| / 2], t.left, level + 1, n / 2);
      ManyLeaves(m, s[|s| / 2..], t.right, level + 1, n / 2);
    } else if t.Node? {
      SomeLeaf(t.left);
    }
  }

  lemma {:induction false} SomeLeaf(t: Tree<real>)
    ensures |Leaves(t)| > 0
  {
    if t.Node? { SomeLeaf(t.left); }
  }
}
