/** The kd-tree node objects and their construction
    (examples/eqPly/vertexBufferNode.cpp and vertexBufferLeaf.cpp). */
module KdTree {
  import opened Hiding
  import opened MeshTypes
  import opened VertexData
  import opened KdSpec
  import opened KdRanges
  import opened KdSpheres
  import Spheres

  /** VertexBufferData: the buffers all leaves append to. */
  class BufferData {
    var vertices: seq<V>
    var colors: seq<Color>
    var normals: seq<V>
    var indices: seq<nat>

    function Value(): Buffers<real> reads this {
      Buffers(vertices, colors, normals, indices)
    }

    method Clear()
      modifies this
      ensures Value() == Buffers([], [], [], [])
    {
      vertices, colors, normals, indices := [], [], [], [];
    }

    constructor ()
      ensures Value() == Buffers([], [], [], [])
    {
      vertices, colors, normals, indices := [], [], [], [];
    }
  }

  /** A VertexBufferLeaf (isLeaf) or a VertexBufferNode. */
  class TreeNode {
    const isLeaf: bool
    var sphere: Sphere<real>
    var range: Range<real>
    var left: TreeNode?
    var right: TreeNode?
    var box: Box<real>
    var vertexStart: nat
    var vertexLength: nat
    var indexStart: nat
    var indexLength: nat
    ghost var repr: set<TreeNode>

    constructor (isLeaf: bool)
      ensures this.isLeaf == isLeaf
      ensures sphere == NoSphere && range == FullRange && box == Box(Origin, Origin)
    {
      this.isLeaf := isLeaf;
      sphere, range := NoSphere, FullRange;
      left, right, box := null, null, Box(Origin, Origin);
      vertexStart, vertexLength, indexStart, indexLength := 0, 0, 0, 0;
      repr := {this};
    }

    ghost predicate Valid()
      reads this, repr
      decreases repr
    {
      && this in repr
      && (!isLeaf ==>
        && left != null && right != null && left in repr && right in repr
        && left.repr <= repr && right.repr <= repr
        && this !in left.repr && this !in right.repr && left.repr !! right.repr
        && left.Valid() && right.Valid())
    }

    /** The tree below this object, as a value. */
    ghost function Value(): Tree<real>
      requires Valid()
      reads this, repr
      decreases repr
    {
      if isLeaf then Leaf(sphere, range, box, vertexStart, vertexLength, indexStart, indexLength)
      else Node(sphere, range, left.Value(), right.Value())
    }

    /** setupTree of both classes: sort the range, then re-index it or recurse. */
    method SetupTree(rules: Rules, data: Data, start: nat, length: nat, axis: Axis, depth: nat, globalData: BufferData,
                     ghost end: nat)
      requires rules.Valid() && 0 < length && end == start + length <= |data.triangles| && (isLeaf || length > 1)
      requires sphere == NoSphere && range == FullRange && box == Box(Origin, Origin)
      modifies this, data, globalData
      ensures Valid() && fresh(repr - {this})
      ensures OnlyWithin(old(data.triangles), data.triangles, start, end)
      ensures Yields(Outcome(data.triangles[start..end], Value(), globalData.Value()), rules, data.mesh,
                     old(data.triangles)[start..end], isLeaf, axis, depth, old(globalData.Value()))
      decreases length, 2
    {
      if isLeaf {
        SetupLeaf(rules, data, start, length, axis, depth, globalData, end);
      } else {
        SetupNode(rules, data, start, length, axis, depth, globalData, end);
      }
    }

    method SetupNode(rules: Rules, data: Data, start: nat, length: nat, axis: Axis, depth: nat, globalData: BufferData,
                     ghost end: nat)
      requires rules.Valid() && 1 < length && end == start + length <= |data.triangles| && !isLeaf
      requires sphere == NoSphere && range == FullRange && box == Box(Origin, Origin)
      modifies this, data, globalData
      ensures Valid() && fresh(repr - {this})
      ensures OnlyWithin(old(data.triangles), data.triangles, start, end)
      ensures Yields(Outcome(data.triangles[start..end], Value(), globalData.Value()), rules, data.mesh,
                     old(data.triangles)[start..end], isLeaf, axis, depth, old(globalData.Value()))
      decreases length, 1
    {
      var l, r := BuildChildren(rules, data, start, length, axis, depth, globalData, end);
      Link(l, r);
    }

    /** Sort the range, then build the left and the right half. */
    static method BuildChildren(rules: Rules, data: Data, start: nat, length: nat, axis: Axis, depth: nat,
                                globalData: BufferData, ghost end: nat) returns (l: TreeNode, r: TreeNode)
      requires rules.Valid() && 1 < length && end == start + length <= |data.triangles|
      modifies data, globalData
      ensures l.Valid() && r.Valid() && fresh(l.repr) && fresh(r.repr) && l.repr !! r.repr
      ensures OnlyWithin(old(data.triangles), data.triangles, start, end)
      ensures Yields(Outcome(data.triangles[start..end], Node(NoSphere, FullRange, l.Value(), r.Value()), globalData.Value()),
                     rules, data.mesh, old(data.triangles)[start..end], false, axis, depth, old(globalData.Value()))
      decreases length, 0
    {
      var median, leftLength, rightLength := start + length / 2, length / 2, (length + 1) / 2;
      var axisLeft, axisRight := SortForSplit(rules, data, start, length, axis, depth, median, end);
      ghost var t0, t1, g0 := old(data.triangles), data.triangles, globalData.Value();
      l := BuildChild(rules, data, start, leftLength, axisLeft, depth, globalData, median);
      ghost var t2, g1, tl := data.triangles, globalData.Value(), l.Value();
      r := BuildChild(rules, data, median, rightLength, axisRight, depth, globalData, end);
      ghost var t3, g2, tr := data.triangles, globalData.Value(), r.Value();
      assert l.Value() == tl;
      NodeYields(rules, data.mesh, t0, t1, t2, t3, start, median, end, leftLength, rightLength,
                 axis, depth, axisLeft, axisRight, tl, tr, g0, g1, g2);
    }

    method SetupLeaf(rules: Rules, data: Data, start: nat, length: nat, axis: Axis, depth: nat, globalData: BufferData,
                     ghost end: nat)
      requires rules.Valid() && 0 < length && end == start + length <= |data.triangles| && isLeaf
      requires sphere == NoSphere && range == FullRange && box == Box(Origin, Origin)
      modifies this, data, globalData
      ensures Valid() && repr == {this}
      ensures OnlyWithin(old(data.triangles), data.triangles, start, end)
      ensures Yields(Outcome(data.triangles[start..end], Value(), globalData.Value()), rules, data.mesh,
                     old(data.triangles)[start..end], isLeaf, axis, depth, old(globalData.Value()))
    {
      data.Sort(rules.sort, start, length, axis);
      ghost var s, q := old(data.triangles)[start..end], data.triangles[start..end];
      SorterKeeps(rules.sort, data.mesh, axis, s);
      assert q == rules.Sort(data.mesh, axis, s);
      repr := {this};
      Reindex(data.mesh, data.triangles[start..start + length], globalData);
      assert Stored(Value(), globalData.Value()) == StoreLeaf(data.mesh, q, old(globalData.Value()));
    }

    /** Hang two finished subtrees below this node. */
    method Link(l: TreeNode, r: TreeNode)
      requires !isLeaf && l.Valid() && r.Valid() && l.repr !! r.repr && this !in l.repr && this !in r.repr
      modifies `left, `right, `repr
      ensures Valid() && repr == {this} + l.repr + r.repr
      ensures Value() == Node(sphere, range, old(l.Value()), old(r.Value()))
    {
      left, right := l, r;
      repr := {this} + l.repr + r.repr;
    }

    /** Create a child and set it up over its range [start, end). */
    static method BuildChild(rules: Rules, data: Data, start: nat, length: nat, axis: Axis, depth: nat,
                             globalData: BufferData, ghost end: nat) returns (n: TreeNode)
      requires rules.Valid() && 0 < length && end == start + length <= |data.triangles|
      modifies data, globalData
      ensures n.Valid() && fresh(n.repr)
      ensures OnlyWithin(old(data.triangles), data.triangles, start, end)
      ensures Yields(Outcome(data.triangles[start..end], n.Value(), globalData.Value()), rules, data.mesh,
                     old(data.triangles)[start..end], rules.Leafy(length, depth), axis, depth + 1,
                     old(globalData.Value()))
      decreases length, 3
    {
      n := new TreeNode(!Subdivide(length, depth));
      n.SetupTree(rules, data, start, length, axis, depth + 1, globalData, end);
    }

    /** updateRange of both classes. */
    method UpdateRange(globalData: BufferData)
      requires Valid() && |globalData.indices| > 0
      modifies repr`range
      ensures Valid() && repr == old(repr)
      ensures Value() == WithRange(old(Value()), |globalData.indices|)
      decreases repr
    {
      if isLeaf {
        var size := |globalData.indices| as real;
        var lo := indexStart as real / size;
        range := Range(lo, lo + indexLength as real / size);
      } else {
        left.UpdateRange(globalData);
        right.UpdateRange(globalData);
        range := Range(Min(left.range.lo, right.range.lo), Max(left.range.hi, right.range.hi));
      }
    }

    /** updateBoundingSphere of both classes. */
    method UpdateBoundingSphere(sqrt: real -> real, globalData: BufferData)
      requires Valid()
      modifies repr`sphere, repr`box
      ensures Valid() && repr == old(repr)
      ensures Value() == WithSpheres(sqrt, old(Value()), globalData.Value())
      decreases repr, 1
    {
      if isLeaf {
        if indexLength > 0 {
          box, sphere := LeafBoxAndSphere(sqrt, globalData);
        }
      } else {
        UpdateChildSpheres(sqrt, globalData);
        sphere := Spheres.NodeSphere(sqrt, left.sphere, right.sphere);
      }
    }

    method UpdateChildSpheres(sqrt: real -> real, globalData: BufferData)
      requires Valid() && !isLeaf
      modifies left.repr`sphere, left.repr`box, right.repr`sphere, right.repr`box
      ensures Valid() && left.repr == old(left.repr) && right.repr == old(right.repr)
      ensures left.Value() == WithSpheres(sqrt, old(left.Value()), globalData.Value())
      ensures right.Value() == WithSpheres(sqrt, old(right.Value()), globalData.Value())
      decreases repr, 0
    {
      left.UpdateBoundingSphere(sqrt, globalData);
      ghost var l := left.Value();
      right.UpdateBoundingSphere(sqrt, globalData);
      assert left.Value() == l;
    }

    /** The three passes of VertexBufferLeaf::updateBoundingSphere over the leaf's indices:
        bounding box, initial sphere, expansion to the points outside. */
    method LeafBoxAndSphere(sqrt: real -> real, globalData: BufferData) returns (b: Box<real>, s: Sphere<real>)
      requires Valid() && isLeaf && indexLength > 0
      ensures var ps := LeafPoints(Value(), globalData.Value()); b == Hull(ps) && s == LeafSphere(sqrt, ps)
    {
      b := LeafBox(globalData);
      s := LeafExpand(sqrt, globalData, BoxSphere(b));
    }

    method LeafBox(globalData: BufferData) returns (b: Box<real>)
      requires Valid() && isLeaf && indexLength > 0
      ensures b == Hull(LeafPoints(Value(), globalData.Value()))
    {
      ghost var ps := LeafPoints(Value(), globalData.Value());
      var first := Point(globalData, 0);
      b := Box(first, first);
      assert ps[..1] == [first];
      for k := 1 to indexLength
        invariant b == Hull(ps[..k])
      {
        var vertex := Point(globalData, k);
        assert ps[..k + 1][..k] == ps[..k];
        b := Extend(b, vertex);
      }
      assert ps[..indexLength] == ps;
    }

    method LeafExpand(sqrt: real -> real, globalData: BufferData, start: Sphere<real>) returns (s: Sphere<real>)
      requires Valid() && isLeaf
      ensures s == Grown(sqrt, start, LeafPoints(Value(), globalData.Value()))
    {
      ghost var ps := LeafPoints(Value(), globalData.Value());
      s := start;
      assert ps[..0] == [];
      for k := 0 to indexLength
        invariant s == Grown(sqrt, start, ps[..k])
      {
        var vertex := Point(globalData, k);
        assert ps[..k + 1][..k] == ps[..k];
        if !Spheres.Inside(vertex, s) {
          s := Spheres.Expand(sqrt, s, vertex);
        }
      }
      assert ps[..indexLength] == ps;
    }

    function Point(globalData: BufferData, k: nat): V
      requires Valid() && isLeaf
      reads this, repr, globalData
      ensures Point(globalData, k) == LeafPoint(Value(), globalData.Value(), k)
    {
      Fetch(globalData.vertices, vertexStart + Fetch(globalData.indices, indexStart + k, 0), Origin)
    }

    /** The re-indexing loops of VertexBufferLeaf::setupTree over the sorted triangles s. */
    method Reindex(m: Mesh, s: seq<Triangle>, globalData: BufferData)
      requires isLeaf
      modifies `vertexStart, `vertexLength, `indexStart, `indexLength, globalData
      ensures vertexStart == old(|globalData.vertices|) && vertexLength == Short(Distinct(s))
      ensures indexStart == old(|globalData.indices|) && indexLength == 3 * |s|
      ensures globalData.Value() ==
              Appended(old(globalData.Value()), m, Firsts(CornerIndices(s)), Renumber(CornerIndices(s)))
    {
      vertexStart, vertexLength := |globalData.vertices|, 0;
      indexStart, indexLength := |globalData.indices|, 0;
      var newIndex: map<nat, nat> := map[];
      ghost var g0 := globalData.Value();
      ghost var c := CornerIndices(s);
      NoCorners(m, g0);
      assert c[..0] == [];
      for t := 0 to |s|
        modifies `vertexLength, `indexLength, globalData
        invariant LeafProgress(m, g0, globalData.Value(), newIndex, c[..3 * t], vertexLength)
        invariant indexLength == 3 * t
      {
        CornersUpTo(s, t);
        CornersUpTo(s, t + 1);
        assert s[..t + 1][..t] == s[..t];
        newIndex := AddTriangle(m, s[t], newIndex, globalData, g0, c[..3 * t]);
      }
      assert c[..3 * |s|] == c;
      ProgressDone(m, g0, globalData.Value(), newIndex, c, vertexLength);
    }

    /** The inner loop over the three corners of a triangle. */
    method AddTriangle(m: Mesh, t: Triangle, newIndex0: map<nat, nat>, globalData: BufferData,
                       ghost g0: Buffers<real>, ghost c: seq<nat>) returns (newIndex: map<nat, nat>)
      requires LeafProgress(m, g0, globalData.Value(), newIndex0, c, vertexLength)
      modifies `vertexLength, `indexLength, globalData
      ensures LeafProgress(m, g0, globalData.Value(), newIndex, c + [t.a, t.b, t.c], vertexLength)
      ensures indexLength == old(indexLength) + 3
    {
      newIndex := newIndex0;
      ghost var abc := [t.a, t.b, t.c];
      assert c + abc[..0] == c;
      for v := 0 to 3
        modifies `vertexLength, `indexLength, globalData
        invariant LeafProgress(m, g0, globalData.Value(), newIndex, c + abc[..v], vertexLength)
        invariant indexLength == old(indexLength) + v
      {
        assert c + abc[..v + 1] == c + abc[..v] + [t.At(v)];
        newIndex := AddCorner(m, t.At(v), newIndex, globalData, g0, c + abc[..v]);
      }
      assert abc[..3] == abc;
    }

    /** One pass of the re-indexing loop body; _vertexLength is 16 bits wide. */
    method AddCorner(m: Mesh, i: nat, newIndex0: map<nat, nat>, globalData: BufferData,
                     ghost g0: Buffers<real>, ghost c: seq<nat>) returns (newIndex: map<nat, nat>)
      requires LeafProgress(m, g0, globalData.Value(), newIndex0, c, vertexLength)
      modifies `vertexLength, `indexLength, globalData
      ensures LeafProgress(m, g0, globalData.Value(), newIndex, c + [i], vertexLength)
      ensures indexLength == old(indexLength) + 1
    {
      newIndex := newIndex0;
      if i in newIndex {
        OldCorner(m, g0, globalData.Value(), newIndex, c, vertexLength, i);
      } else {
        NewCorner(m, g0, globalData.Value(), newIndex, c, vertexLength, i);
        newIndex := newIndex[i := vertexLength];
        vertexLength := Short(vertexLength + 1);
        globalData.vertices := globalData.vertices + [m.Vertex(i)];
        if |m.colors| > 0 {
          globalData.colors := globalData.colors + [Fetch(m.colors, i, Black)];
        }
        globalData.normals := globalData.normals + [Fetch(m.normals, i, Origin)];
      }
      globalData.indices := globalData.indices + [newIndex[i]];
      indexLength := indexLength + 1;
    }
  }

  /** o is what setupTree yields over the triangles s. */
  ghost predicate Yields(o: Outcome, rules: Rules, m: Mesh, s: seq<Triangle>, leaf: bool, axis: Axis, depth: nat,
                         g: Buffers<real>)
    requires leaf || |s| > 1
  {
    forall key {:trigger Unfold(key)} :: Unfold(key) ==> o == Build(rules, m, s, leaf, axis, depth, g)
  }

  /** a is b changed only within [lo, hi). */
  ghost predicate OnlyWithin(b: seq<Triangle>, a: seq<Triangle>, lo: nat, hi: nat) {
    && lo <= hi <= |b| == |a|
    && forall key {:trigger Unfold(key)} :: Unfold(key) ==> Outside(b, a, lo, hi)
  }

  predicate Outside(b: seq<Triangle>, a: seq<Triangle>, lo: nat, hi: nat)
    requires lo <= hi <= |b| == |a|
  {
    a[..lo] == b[..lo] && a[hi..] == b[hi..]
  }

  /** t1 is t0 with [start, end) sorted along the axis; the halves' axes are picked from it. */
  ghost predicate SortedForSplit(rules: Rules, m: Mesh, t0: seq<Triangle>, t1: seq<Triangle>, start: nat, median: nat,
                                 end: nat, axis: Axis, depth: nat, axisLeft: Axis, axisRight: Axis)
    requires start <= median <= end <= |t0| == |t1|
  {
    && median - start == (end - start) / 2
    && forall key {:trigger Unfold(key)} :: Unfold(key) ==>
      && t1[start..end] == rules.Sort(m, axis, t0[start..end])
      && axisLeft == rules.pick(m, t1[start..median], depth)
      && axisRight == rules.pick(m, t1[median..end], depth)
  }

  /** The first part of VertexBufferNode::setupTree: sort, then choose the children's axes. */
  method SortForSplit(rules: Rules, data: Data, start: nat, length: nat, axis: Axis, depth: nat,
                      ghost median: nat, ghost end: nat) returns (axisLeft: Axis, axisRight: Axis)
    requires rules.Valid() && 1 < length && end == start + length <= |data.triangles| && median == start + length / 2
    modifies data
    ensures OnlyWithin(old(data.triangles), data.triangles, start, end)
    ensures SortedForSplit(rules, data.mesh, old(data.triangles), data.triangles, start, median, end,
                           axis, depth, axisLeft, axisRight)
  {
    data.Sort(rules.sort, start, length, axis);
    SorterKeeps(rules.sort, data.mesh, axis, old(data.triangles)[start..start + length]);
    axisLeft := ChooseAxis(rules, data, start, length / 2, depth);
    axisRight := ChooseAxis(rules, data, start + length / 2, (length + 1) / 2, depth);
  }

  /** A node whose children are finished is finished. */
  lemma NodeYields(rules: Rules, m: Mesh, t0: seq<Triangle>, t1: seq<Triangle>, t2: seq<Triangle>, t3: seq<Triangle>,
                   start: nat, median: nat, end: nat, leftLength: nat, rightLength: nat,
                   axis: Axis, depth: nat, axisLeft: Axis, axisRight: Axis,
                   tl: Tree<real>, tr: Tree<real>, g0: Buffers<real>, g1: Buffers<real>, g2: Buffers<real>)
    requires start < median < end && leftLength == median - start && rightLength == end - median
    requires OnlyWithin(t0, t1, start, end) && OnlyWithin(t1, t2, start, median) && OnlyWithin(t2, t3, median, end)
    requires SortedForSplit(rules, m, t0, t1, start, median, end, axis, depth, axisLeft, axisRight)
    requires Yields(Outcome(t2[start..median], tl, g1), rules, m, t1[start..median],
                    rules.Leafy(leftLength, depth), axisLeft, depth + 1, g0)
    requires Yields(Outcome(t3[median..end], tr, g2), rules, m, t2[median..end],
                    rules.Leafy(rightLength, depth), axisRight, depth + 1, g1)
    ensures OnlyWithin(t0, t3, start, end)
    ensures Yields(Outcome(t3[start..end], Node(NoSphere, FullRange, tl, tr), g2), rules, m, t0[start..end],
                   false, axis, depth, g0)
  {
    assert Outside(t0, t1, start, end) && Outside(t1, t2, start, median) && Outside(t2, t3, median, end) by {
      assert Unfold(0);
    }
    HalvesWithin(t0, t1, t2, t3, start, median, end);
    var s, left, right := t0[start..end], t1[start..median], t1[median..end];
    var l, r := Outcome(t2[start..median], tl, g1), Outcome(t3[median..end], tr, g2);
    assert |left| == leftLength == |s| / 2 && |right| == rightLength;
    assert left + right == rules.Sort(m, axis, s)
        && axisLeft == rules.pick(m, left, depth) && axisRight == rules.pick(m, right, depth) by {
      assert Unfold(0);
    }
    assert l == Build(rules, m, left, rules.Leafy(|left|, depth), axisLeft, depth + 1, g0) by {
      OpenYields(l, rules, m, left, rules.Leafy(leftLength, depth), axisLeft, depth + 1, g0);
    }
    assert r == Build(rules, m, right, rules.Leafy(|right|, depth), axisRight, depth + 1, g1) by {
      OpenYields(r, rules, m, right, rules.Leafy(rightLength, depth), axisRight, depth + 1, g1);
    }
    SplitYields(rules, m, s, axis, depth, g0, left, right, l, r);
  }

  lemma OpenYields(o: Outcome, rules: Rules, m: Mesh, s: seq<Triangle>, leaf: bool, axis: Axis, depth: nat, g: Buffers<real>)
    requires leaf || |s| > 1
    requires Yields(o, rules, m, s, leaf, axis, depth, g)
    ensures o == Build(rules, m, s, leaf, axis, depth, g)
  {
    assert Unfold(0);
  }

  lemma SplitYields(rules: Rules, m: Mesh, s: seq<Triangle>, axis: Axis, depth: nat, g: Buffers<real>,
                    left: seq<Triangle>, right: seq<Triangle>, l: Outcome, r: Outcome)
    requires |s| > 1 && |left| == |s| / 2 && left + right == rules.Sort(m, axis, s)
    requires l == Build(rules, m, left, rules.Leafy(|left|, depth), rules.pick(m, left, depth), depth + 1, g)
    requires r == Build(rules, m, right, rules.Leafy(|right|, depth), rules.pick(m, right, depth), depth + 1, l.buffers)
    ensures Build(rules, m, s, false, axis, depth, g) ==
            Outcome(l.tris + r.tris, Node(NoSphere, FullRange, l.tree, r.tree), r.buffers)
  {
    var q, h := rules.Sort(m, axis, s), |s| / 2;
    assert q[..h] == left && q[h..] == right;
  }

  lemma HalvesWithin(t0: seq<Triangle>, t1: seq<Triangle>, t2: seq<Triangle>, t3: seq<Triangle>,
                     start: nat, median: nat, end: nat)
    requires start <= median <= end <= |t0| == |t1| == |t2| == |t3|
    requires Outside(t0, t1, start, end) && Outside(t1, t2, start, median) && Outside(t2, t3, median, end)
    ensures Outside(t0, t3, start, end)
    ensures t3[start..end] == t2[start..median] + t3[median..end]
    ensures t2[median..end] == t1[median..end]
    ensures t1[start..end] == t1[start..median] + t1[median..end]
  {
    assert t2[median..end] == t2[median..][..end - median];
    assert t1[median..end] == t1[median..][..end - median];
    assert t3[start..median] == t3[..median][start..];
    assert t2[start..median] == t2[..median][start..];
    assert t3[..start] == t3[..median][..start];
    assert t2[..start] == t2[..median][..start];
    assert t2[end..] == t2[median..][end - median..];
    assert t1[end..] == t1[median..][end - median..];
  }

  /** The axis for a child: the longest one, or AXIS_X for a leaf. */
  method ChooseAxis(rules: Rules, data: Data, start: nat, length: nat, depth: nat) returns (axis: Axis)
    requires rules.Valid() && 0 < length && start + length <= |data.triangles|
    ensures axis == rules.pick(data.mesh, data.triangles[start..start + length], depth)
  {
    axis := 0;
    if Subdivide(length, depth) {
      axis := data.GetLongestAxis(start, length);
    }
    assert axis == ChildAxis(data.mesh, data.triangles[start..start + length], depth);
  }

  /** State of the leaf's re-indexing loop after the corners in c. */
  ghost predicate LeafProgress(m: Mesh, g0: Buffers<real>, g: Buffers<real>, newIndex: map<nat, nat>,
                               c: seq<nat>, vertexLength: nat)
  {
    forall key {:trigger Unfold(key)} :: Unfold(key) ==>
      && g == Appended(g0, m, Firsts(c), Renumber(c))
      && vertexLength == Short(|Firsts(c)|)
      && MapProgress(newIndex, c, Firsts(c))
  }

  /** What the state is when all corners of the leaf are done. */
  lemma ProgressDone(m: Mesh, g0: Buffers<real>, g: Buffers<real>, newIndex: map<nat, nat>, c: seq<nat>, vertexLength: nat)
    requires LeafProgress(m, g0, g, newIndex, c, vertexLength)
    ensures g == Appended(g0, m, Firsts(c), Renumber(c)) && vertexLength == Short(|Firsts(c)|)
    ensures forall i :: i in newIndex <==> i in c
  {
    assert Unfold(0);
  }

  lemma NoCorners(m: Mesh, g: Buffers<real>)
    ensures LeafProgress(m, g, g, map[], [], 0)
  {
    assert Unfold(0);
    AppendNone(g, m, []);
    assert g.indices + [] == g.indices;
  }

  /** The map sends each corner seen so far to its position in f. */
  ghost predicate MapProgress(newIndex: map<nat, nat>, c: seq<nat>, f: seq<nat>) {
    && (forall x :: x in newIndex <==> x in c)
    && forall x :: x in newIndex ==> x in f && newIndex[x] == Short(Slot(f, x))
  }

  /** A corner seen before adds only an index. */
  lemma OldCorner(m: Mesh, g0: Buffers<real>, g: Buffers<real>, newIndex: map<nat, nat>,
                  c: seq<nat>, vertexLength: nat, i: nat)
    requires LeafProgress(m, g0, g, newIndex, c, vertexLength) && i in newIndex
    ensures LeafProgress(m, g0, g.(indices := g.indices + [newIndex[i]]), newIndex, c + [i], vertexLength)
  {
    assert Unfold(0);
    FirstsStep(c, i);
    var f, r, idx := Firsts(c), Renumber(c), [newIndex[i]];
    AppendTwice(g0, m, f, r, [], idx);
    AppendNone(g, m, idx);
    assert f + [] == f;
    OldMap(newIndex, c, f, i);
  }

  lemma OldMap(newIndex: map<nat, nat>, c: seq<nat>, f: seq<nat>, i: nat)
    requires MapProgress(newIndex, c, f) && i in newIndex
    ensures MapProgress(newIndex, c + [i], f)
  {
  }

  lemma AppendNone(g: Buffers<real>, m: Mesh, idx: seq<nat>)
    ensures Appended(g, m, [], idx) == g.(indices := g.indices + idx)
  {
    assert g.vertices + [] == g.vertices && g.normals + [] == g.normals && g.colors + [] == g.colors;
  }

  lemma AppendOne(g: Buffers<real>, m: Mesh, i: nat, idx: seq<nat>)
    ensures Appended(g, m, [i], idx) ==
            Buffers(g.vertices + [m.Vertex(i)],
                    if m.colors == [] then g.colors else g.colors + [Fetch(m.colors, i, Black)],
                    g.normals + [Fetch(m.normals, i, Origin)], g.indices + idx)
  {
  }

  /** A new corner adds a vertex, its map entry and an index. */
  lemma NewCorner(m: Mesh, g0: Buffers<real>, g: Buffers<real>, newIndex: map<nat, nat>,
                  c: seq<nat>, vertexLength: nat, i: nat)
    requires LeafProgress(m, g0, g, newIndex, c, vertexLength) && i !in newIndex
    ensures LeafProgress(m, g0,
        Buffers(g.vertices + [m.Vertex(i)],
                if m.colors == [] then g.colors else g.colors + [Fetch(m.colors, i, Black)],
                g.normals + [Fetch(m.normals, i, Origin)],
                g.indices + [vertexLength]),
        newIndex[i := vertexLength], c + [i], Short(vertexLength + 1))
  {
    assert Unfold(0);
    FirstsStep(c, i);
    FirstsNoRepeats(c + [i]);
    NewStep(m, g0, g, newIndex, c, Firsts(c), Renumber(c), vertexLength, i, Firsts(c) + [i]);
  }

  lemma NewStep(m: Mesh, g0: Buffers<real>, g: Buffers<real>, newIndex: map<nat, nat>,
                c: seq<nat>, f: seq<nat>, r: seq<nat>, n: nat, i: nat, f': seq<nat>)
    requires g == Appended(g0, m, f, r) && n == Short(|f|) && f' == f + [i]
    requires MapProgress(newIndex, c, f) && NoRepeats(f')
    ensures n == Short(Slot(f', i)) && Short(n + 1) == Short(|f'|)
    ensures Appended(g0, m, f', r + [n]) ==
            Buffers(g.vertices + [m.Vertex(i)],
                    if m.colors == [] then g.colors else g.colors + [Fetch(m.colors, i, Black)],
                    g.normals + [Fetch(m.normals, i, Origin)], g.indices + [n])
    ensures MapProgress(newIndex[i := n], c + [i], f')
  {
    NewSlot(f, f', n, i);
    NewBuffers(m, g0, g, f, r, i, n);
    NewMap(newIndex, c, f, f', i, n);
  }

  lemma NewSlot(f: seq<nat>, f': seq<nat>, n: nat, i: nat)
    requires f' == f + [i] && NoRepeats(f') && n == Short(|f|)
    ensures n == Short(Slot(f', i)) && Short(n + 1) == Short(|f'|)
  {
    SlotUnique(f', i, |f|);
    NextShort(|f|);
  }

  lemma NewBuffers(m: Mesh, g0: Buffers<real>, g: Buffers<real>, f: seq<nat>, r: seq<nat>, i: nat, n: nat)
    requires g == Appended(g0, m, f, r)
    ensures Appended(g0, m, f + [i], r + [n]) ==
            Buffers(g.vertices + [m.Vertex(i)],
                    if m.colors == [] then g.colors else g.colors + [Fetch(m.colors, i, Black)],
                    g.normals + [Fetch(m.normals, i, Origin)], g.indices + [n])
  {
    AppendTwice(g0, m, f, r, [i], [n]);
    AppendOne(g, m, i, [n]);
  }

  lemma NextShort(n: nat)
    ensures Short(Short(n) + 1) == Short(n + 1)
  {
  }

  lemma NewMap(newIndex: map<nat, nat>, c: seq<nat>, f: seq<nat>, f': seq<nat>, i: nat, n: nat)
    requires MapProgress(newIndex, c, f)
    requires f' == f + [i] && NoRepeats(f') && n == Short(Slot(f', i))
    ensures MapProgress(newIndex[i := n], c + [i], f')
  {
    forall x | x in newIndex ensures x in f' && Slot(f', x) == Slot(f, x) {
      SlotInPrefix(f, f', x);
    }
  }
}
