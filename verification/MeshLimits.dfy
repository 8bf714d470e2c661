/** A mesh that is too large for 16-bit indices: sixteen times 21846 triangles without common
    vertices end up in leaves with 65538 different vertices each. */
module MeshLimits {
  import opened MeshTypes
  import opened VertexData
  import opened KdSpec
  import opened KdProps
  import opened MeshRoot
  import opened MeshTheorems

  /** No vertex is used twice. */
  ghost predicate Scattered(s: seq<Triangle>) { forall i: nat :: multiset(CornerIndices(s))[i] <= 1 }

  lemma {:induction false} CornersConcat(a: seq<Triangle>, b: seq<Triangle>)
    ensures CornerIndices(a + b) == CornerIndices(a) + CornerIndices(b)
  {
    if b == [] {
      assert a + b == a;
    } else {
      var n := |b| - 1;
      CornersConcat(a, b[..n]);
      assert (a + b)[..|a + b| - 1] == a + b[..n];
    }
  }

  lemma {:induction false} CornersPermute(a: seq<Triangle>, b: seq<Triangle>)
    requires multiset(a) == multiset(b)
    ensures multiset(CornerIndices(a)) == multiset(CornerIndices(b))
    decreases |a|
  {
    if a == [] {
      assert |b| == |multiset(b)| == |multiset(a)| == 0;
    } else {
      var p, x, q := DropLast(a, b);
      CornersPermute(a[..|a| - 1], p + q);
      CornersConcat(a[..|a| - 1], [x]);
      CornersConcat(p + [x], q);
      CornersConcat(p, [x]);
      CornersConcat(p, q);
    }
  }

  lemma ScatteredPart(a: seq<Triangle>, b: seq<Triangle>)
    requires Scattered(a + b)
    ensures Scattered(a) && Scattered(b)
  {
    CornersConcat(a, b);
    forall i: nat ensures multiset(CornerIndices(a))[i] <= 1 && multiset(CornerIndices(b))[i] <= 1 {
      assert multiset(CornerIndices(a + b))[i] == multiset(CornerIndices(a))[i] + multiset(CornerIndices(b))[i];
    }
  }

  lemma ScatteredSorted(rules: Rules, m: Mesh, axis: Axis, s: seq<Triangle>)
    requires rules.Valid() && Scattered(s)
    ensures Scattered(rules.Sort(m, axis, s))
  {
    SortKeeps(rules, m, axis, s);
    CornersPermute(rules.Sort(m, axis, s), s);
  }

  lemma {:induction false} AllFirst(c: seq<nat>)
    requires forall i: nat :: multiset(c)[i] <= 1
    ensures |Firsts(c)| == |c|
  {
    if c != [] {
      var n := |c| - 1;
      assert c == c[..n] + [c[n]];
      forall i: nat ensures multiset(c[..n])[i] <= 1 {
        assert multiset(c)[i] == multiset(c[..n])[i] + multiset([c[n]])[i];
      }
      AllFirst(c[..n]);
      assert multiset(c)[c[n]] == multiset(c[..n])[c[n]] + 1;
    }
  }

  /** A leaf with 21846 scattered triangles breaks the assertion on its vertex count. */
  lemma CrowdedLeaf(s: seq<Triangle>)
    requires Scattered(s) && |s| >= 21846
    ensures !FitsShort(s)
  {
    AllFirst(CornerIndices(s));
  }

  /** How many triangles under a node at the given depth end in leaves of 21846. */
  function Crowd(depth: nat): nat {
    if depth == 0 then 349536 else if depth == 1 then 174768 else if depth == 2 then 87384 else 43692
  }

  lemma {:induction false} CrowdBreaks(rules: Rules, m: Mesh, s: seq<Triangle>, axis: Axis, depth: nat, g: Buffers<real>)
    requires rules.Valid() && Scattered(s) && depth <= 3 && |s| == Crowd(depth)
    ensures var o := Build(rules, m, s, false, axis, depth, g); !AllFitShort(o.tree, o.tris)
    decreases 3 - depth, 2
  {
    var v := SplitOf(rules, m, s, axis, depth, g);
    ScatteredSorted(rules, m, axis, s);
    ScatteredPart(v.left, v.right);
    HalfTheCrowd(depth, |v.left|);
    HalfBreaks(rules, m, v.left, depth, g);
    JoinBreaks(Build(rules, m, s, false, axis, depth, g), v.l, v.r);
  }

  lemma HalfTheCrowd(depth: nat, n: nat)
    requires n == Crowd(depth) / 2
    ensures 2 * n == Crowd(depth) && n >= 21846 && (depth < 3 ==> n == Crowd(depth + 1))
  {
  }

  lemma JoinBreaks(o: Outcome, l: Outcome, r: Outcome)
    requires o.tree.Node? && o.tree.left == l.tree && o.tree.right == r.tree && o.tris == l.tris + r.tris
    requires |l.tris| == |o.tris| / 2 && !AllFitShort(l.tree, l.tris)
    ensures !AllFitShort(o.tree, o.tris)
  {
    assert o.tris[..|o.tris| / 2] == l.tris;
  }

  lemma {:induction false} HalfBreaks(rules: Rules, m: Mesh, s: seq<Triangle>, depth: nat, g: Buffers<real>)
    requires rules.Valid() && Scattered(s) && depth <= 3 && 2 * |s| == Crowd(depth)
    ensures var o := Child(rules, m, s, depth, g); !AllFitShort(o.tree, o.tris)
    decreases 3 - depth, 1
  {
    HalfTheCrowd(depth, |s|);
    assert rules.Leafy(|s|, depth) <==> depth == 3 by { assert rules.split(|s|, depth) == Subdivide(|s|, depth); }
    if depth == 3 {
      LeafBreaks(rules, m, s, rules.pick(m, s, depth), depth + 1, g);
    } else {
      CrowdBreaks(rules, m, s, rules.pick(m, s, depth), depth + 1, g);
    }
  }

  lemma LeafBreaks(rules: Rules, m: Mesh, s: seq<Triangle>, axis: Axis, depth: nat, g: Buffers<real>)
    requires rules.Valid() && Scattered(s) && |s| >= 21846
    ensures var o := Build(rules, m, s, true, axis, depth, g); !AllFitShort(o.tree, o.tris)
  {
    var q := rules.Sort(m, axis, s);
    ScatteredSorted(rules, m, axis, s);
    CrowdedLeaf(q);
    assert rules.store(m, q, g) == StoreLeaf(m, q, g);
  }

  // ---- The mesh ---------------------------------------------------------------------------

  /** n triangles over the vertices 0 .. 3 * n - 1. */
  function Strip(n: nat): (r: seq<Triangle>)
    ensures |r| == n
  {
    if n == 0 then [] else Strip(n - 1) + [Triangle(3 * n - 3, 3 * n - 2, 3 * n - 1)]
  }

  lemma {:induction false} StripCorners(n: nat)
    ensures forall k :: 0 <= k < 3 * n ==> CornerIndices(Strip(n))[k] == k
  {
    if n > 0 {
      StripCorners(n - 1);
      assert Strip(n)[..n - 1] == Strip(n - 1);
    }
  }

  lemma {:induction false} CountUp(c: seq<nat>, i: nat)
    requires forall k :: 0 <= k < |c| ==> c[k] == k
    ensures multiset(c)[i] == if i < |c| then 1 else 0
  {
    if c != [] {
      var n := |c| - 1;
      assert c == c[..n] + [c[n]];
      CountUp(c[..n], i);
    }
  }

  /** Any mesh with these triangles, however its vertices lie, breaks the 16-bit indices of
      some leaf. */
  lemma SomeMeshBreaks(rules: Rules, m: Mesh)
    requires rules.Valid()
    ensures |Strip(349536)| > 1 && !Indexable(RootOutcome(rules, m, Strip(349536)))
  {
    var n := 349536;
    StripCorners(n);
    forall i: nat ensures multiset(CornerIndices(Strip(n)))[i] <= 1 {
      CountUp(CornerIndices(Strip(n)), i);
    }
    CrowdBreaks(rules, m, Strip(n), LongestAxis(m, Strip(n)), 0, NoBuffers);
  }
}
