/** Sizes and ranges: the leaf extents tile the index buffer, the nodes are balanced, and
    the [0,1] ranges computed bottom-up are exactly the nodes' shares of the triangles. */
module KdRanges {
  import opened MeshTypes
  import opened VertexData
  import opened KdSpec

  // ---- Extents ---------------------------------------------------------------------

  function First(t: Tree<real>): nat {
    match t
    case Leaf(_, _, _, _, _, i, _) => i
    case Node(_, _, l, _) => First(l)
  }

  function End(t: Tree<real>): nat {
    match t
    case Leaf(_, _, _, _, _, i, n) => i + n
    case Node(_, _, _, r) => End(r)
  }

  /** The leaves cover [First, End) of the index buffer in order, without gap or overlap. */
  predicate Tiles(t: Tree<real>) {
    match t
    case Leaf(_, _, _, _, _, _, n) => n > 0
    case Node(_, _, l, r) => Tiles(l) && Tiles(r) && End(l) == First(r)
  }

  lemma {:induction false} TilesForward(t: Tree<real>)
    requires Tiles(t)
    ensures First(t) < End(t)
  {
    if t.Node? {
      TilesForward(t.left);
      TilesForward(t.right);
    }
  }

  lemma {:induction false} BuildTiles(rules: Rules, m: Mesh, s: seq<Triangle>, leaf: bool, axis: Axis, depth: nat,
                                      g: Buffers<real>)
    requires rules.Valid() && |s| > 0 && (leaf || |s| > 1)
    ensures var o := Build(rules, m, s, leaf, axis, depth, g);
      && Tiles(o.tree) && First(o.tree) == |g.indices| && End(o.tree) == |o.buffers.indices|
      && |o.buffers.indices| == |g.indices| + 3 * |s|
    decreases |s|
  {
    if leaf {
      var q := rules.Sort(m, axis, s);
      assert rules.store(m, q, g) == StoreLeaf(m, q, g);
    } else {
      var v := SplitOf(rules, m, s, axis, depth, g);
      BuildTiles(rules, m, v.left, rules.Leafy(|v.left|, depth), rules.pick(m, v.left, depth), depth + 1, g);
      BuildTiles(rules, m, v.right, rules.Leafy(|v.right|, depth), rules.pick(m, v.right, depth), depth + 1, v.l.buffers);
    }
  }

  // ---- Balance ---------------------------------------------------------------------

  /** c is n / p rounded down or up. */
  predicate Share(c: int, p: int, n: int) {
    p * (c - 1) < n < p * (c + 1)
  }

  lemma ShareIsFloorOrCeiling(c: int, p: int, n: int)
    requires p > 0 && Share(c, p, n)
    ensures c == n / p || c == (n + p - 1) / p
  {
    if p * c <= n {
      Quotient(n, p, c);
    } else {
      Quotient(n + p - 1, p, c);
    }
  }

  lemma Quotient(n: int, p: int, c: int)
    requires p > 0 && p * c <= n < p * (c + 1)
    ensures n / p == c
  {
    var d, r := n / p, n % p;
    assert n == p * d + r && 0 <= r < p;
    Monotone(p, d + 1, c);
    Monotone(p, c + 1, d);
    assert p * (d + 1) == p * d + p;
  }

  lemma Monotone(p: int, a: int, b: int)
    requires p > 0
    ensures a <= b ==> p * a <= p * b
  {
  }

  lemma HalfShare(c: int, p: int, n: int)
    requires p > 0 && Share(c, p, n)
    ensures Share(c / 2, 2 * p, n) && Share(c - c / 2, 2 * p, n)
  {
    var h := c / 2;
    Doubled(p, h);
    Doubled(p, c - h);
  }

  lemma Doubled(p: int, h: int)
    ensures (2 * p) * (h - 1) == p * (2 * h - 2) && (2 * p) * (h + 1) == p * (2 * h + 2)
    ensures p * (2 * h - 2) == 2 * (p * h) - 2 * p && p * (2 * h + 2) == 2 * (p * h) + 2 * p
    ensures p * (2 * h - 1) == 2 * (p * h) - p && p * (2 * h + 1) == 2 * (p * h) + p
  {
  }

  function Triangles(t: Tree<real>): nat {
    match t
    case Leaf(_, _, _, _, _, _, n) => n / 3
    case Node(_, _, l, r) => Triangles(l) + Triangles(r)
  }

  /** Every node at depth k below t holds n / 2^k triangles, rounded down or up; t itself
      stands at the depth whose power of two is p. */
  predicate Balanced(t: Tree<real>, p: nat, n: nat) {
    && Share(Triangles(t), p, n)
    && (t.Node? ==> Balanced(t.left, 2 * p, n) && Balanced(t.right, 2 * p, n))
  }

  lemma {:induction false} BuildBalanced(rules: Rules, m: Mesh, s: seq<Triangle>, leaf: bool, axis: Axis, depth: nat,
                                         g: Buffers<real>, p: nat, n: nat)
    requires rules.Valid() && (leaf || |s| > 1) && p > 0 && Share(|s|, p, n)
    ensures var t := Build(rules, m, s, leaf, axis, depth, g).tree; Triangles(t) == |s| && Balanced(t, p, n)
    decreases |s|
  {
    if leaf {
      var q := rules.Sort(m, axis, s);
      assert rules.store(m, q, g) == StoreLeaf(m, q, g);
    } else {
      var v := SplitOf(rules, m, s, axis, depth, g);
      HalfShare(|s|, p, n);
      var p2 := 2 * p;
      BuildBalanced(rules, m, v.left, rules.Leafy(|v.left|, depth), rules.pick(m, v.left, depth), depth + 1, g, p2, n);
      BuildBalanced(rules, m, v.right, rules.Leafy(|v.right|, depth), rules.pick(m, v.right, depth), depth + 1, v.l.buffers, p2, n);
    }
  }

  /** t holds n triangles, its left child half of them rounded down, and so on. */
  predicate Halved(t: Tree<real>, n: nat) {
    && Triangles(t) == n
    && (t.Node? ==> Halved(t.left, n / 2) && Halved(t.right, n - n / 2))
  }

  lemma {:induction false} BuildHalved(rules: Rules, m: Mesh, s: seq<Triangle>, leaf: bool, axis: Axis, depth: nat,
                                       g: Buffers<real>)
    requires rules.Valid() && (leaf || |s| > 1)
    ensures Halved(Build(rules, m, s, leaf, axis, depth, g).tree, |s|)
    decreases |s|
  {
    if leaf {
      var q := rules.Sort(m, axis, s);
      assert rules.store(m, q, g) == StoreLeaf(m, q, g);
    } else {
      var v := SplitOf(rules, m, s, axis, depth, g);
      BuildHalved(rules, m, v.left, rules.Leafy(|v.left|, depth), rules.pick(m, v.left, depth), depth + 1, g);
      BuildHalved(rules, m, v.right, rules.Leafy(|v.right|, depth), rules.pick(m, v.right, depth), depth + 1, v.l.buffers);
    }
  }

  /** A child becomes a leaf exactly up to one triangle, and from depth 3 on exactly up to
      2 * LEAF_SIZE + 1 triangles: twice what LEAF_SIZE's own comment announces. */
  lemma LeafLimit(length: nat, depth: nat)
    ensures !Subdivide(length, depth) <==> length <= if depth < 3 then 1 else 43691
    ensures LEAF_SIZE < 43691
  {
  }

  /** Every leaf holds between one and 43691 triangles. */
  predicate LeafSizes(t: Tree<real>) {
    match t
    case Leaf(_, _, _, _, _, _, n) => 3 <= n <= 3 * 43691
    case Node(_, _, l, r) => LeafSizes(l) && LeafSizes(r)
  }

  lemma {:induction false} BuildLeafSizes(rules: Rules, m: Mesh, s: seq<Triangle>, leaf: bool, axis: Axis, depth: nat,
                                          g: Buffers<real>)
    requires rules.Valid() && |s| > 0 && (if leaf then |s| <= 43691 else |s| > 1)
    ensures LeafSizes(Build(rules, m, s, leaf, axis, depth, g).tree)
    decreases |s|
  {
    if leaf {
      var q := rules.Sort(m, axis, s);
      assert rules.store(m, q, g) == StoreLeaf(m, q, g);
    } else {
      var v := SplitOf(rules, m, s, axis, depth, g);
      LeafLimit(|v.left|, depth);
      LeafLimit(|v.right|, depth);
      BuildLeafSizes(rules, m, v.left, rules.Leafy(|v.left|, depth), rules.pick(m, v.left, depth), depth + 1, g);
      BuildLeafSizes(rules, m, v.right, rules.Leafy(|v.right|, depth), rules.pick(m, v.right, depth), depth + 1, v.l.buffers);
    }
  }

  // ---- Ranges ----------------------------------------------------------------------

  /** updateRange of leaf and node, for an index buffer of the given total length. */
  function WithRange(t: Tree<real>, total: nat): Tree<real>
    requires total > 0
  {
    match t
    case Leaf(_, _, _, _, _, i, n) =>
      var lo := i as real / total as real;
      t.(range := Range(lo, lo + n as real / total as real))
    case Node(_, _, l, r) =>
      var l', r' := WithRange(l, total), WithRange(r, total);
      t.(range := Range(Min(l'.range.lo, r'.range.lo), Max(l'.range.hi, r'.range.hi)), left := l', right := r')
  }

  lemma DivideOrder(a: real, b: real, c: real)
    requires c > 0.0 && a < b
    ensures a / c < b / c
  {
    var x, y := a / c, b / c;
    assert x * c == a && y * c == b;
  }

  lemma DivideSum(a: real, b: real, c: real)
    requires c > 0.0
    ensures a / c + b / c == (a + b) / c
  {
  }

  /** Each node's range is its share [First/total, End/total) of the index buffer. */
  lemma {:induction false} RangeIsShare(t: Tree<real>, total: nat)
    requires Tiles(t) && total > 0
    ensures WithRange(t, total).range == Range(First(t) as real / total as real, End(t) as real / total as real)
  {
    var n := total as real;
    match t
    case Leaf(_, _, _, _, _, i, k) =>
      DivideSum(i as real, k as real, n);
    case Node(_, _, l, r) =>
      RangeIsShare(l, total);
      RangeIsShare(r, total);
      TilesForward(l);
      TilesForward(r);
      DivideOrder(First(l) as real, End(l) as real, n);
      DivideOrder(First(r) as real, End(r) as real, n);
  }

  /** Index positions are three times triangle positions. */
  lemma ThirdShare(a: nat, n: nat)
    requires n > 0
    ensures (3 * a) as real / (3 * n) as real == a as real / n as real
  {
    var x, c := a as real, n as real;
    assert (3 * a) as real == 3.0 * x && (3 * n) as real == 3.0 * c;
    var y := x / c;
    assert y * c == x;
    assert y * (3.0 * c) == 3.0 * x;
  }

  /** The leaves of t hold whole triangles, the first of them triangle a. */
  predicate Spans(t: Tree<real>, a: nat) {
    match t
    case Leaf(_, _, _, _, _, i, n) => i == 3 * a && n > 0 && n == 3 * Triangles(t)
    case Node(_, _, l, r) => Spans(l, a) && Spans(r, a + Triangles(l))
  }

  lemma {:induction false} BuildSpans(rules: Rules, m: Mesh, s: seq<Triangle>, leaf: bool, axis: Axis, depth: nat,
                                      g: Buffers<real>, a: nat)
    requires rules.Valid() && |s| > 0 && (leaf || |s| > 1) && |g.indices| == 3 * a
    ensures var o := Build(rules, m, s, leaf, axis, depth, g); Spans(o.tree, a) && Triangles(o.tree) == |s|
    decreases |s|, 0
  {
    if leaf {
      var q := rules.Sort(m, axis, s);
      assert rules.store(m, q, g) == StoreLeaf(m, q, g);
    } else {
      var v := SplitOf(rules, m, s, axis, depth, g);
      var b := a + |v.left|;
      ChildSpans(rules, m, v.left, depth, g, a);
      ChildSpans(rules, m, v.right, depth, v.l.buffers, b);
    }
  }

  lemma {:induction false} ChildSpans(rules: Rules, m: Mesh, s: seq<Triangle>, depth: nat, g: Buffers<real>, a: nat)
    requires rules.Valid() && |s| > 0 && |g.indices| == 3 * a
    ensures var o := Child(rules, m, s, depth, g);
      Spans(o.tree, a) && Triangles(o.tree) == |s| && |o.buffers.indices| == 3 * (a + |s|)
    decreases |s|, 1
  {
    BuildSpans(rules, m, s, rules.Leafy(|s|, depth), rules.pick(m, s, depth), depth + 1, g, a);
    BuildTiles(rules, m, s, rules.Leafy(|s|, depth), rules.pick(m, s, depth), depth + 1, g);
  }

  lemma {:induction false} SpansTile(t: Tree<real>, a: nat)
    requires Spans(t, a)
    ensures Tiles(t) && First(t) == 3 * a && End(t) == 3 * (a + Triangles(t))
  {
    if t.Node? {
      SpansTile(t.left, a);
      SpansTile(t.right, a + Triangles(t.left));
    }
  }

  /** Every node of t has as its range its share of n triangles, the first of which is a. */
  ghost predicate TriangleShares(t: Tree<real>, a: nat, n: nat)
    requires n > 0
  {
    && t.range == Range(a as real / n as real, (a + Triangles(t)) as real / n as real)
    && (t.Node? ==> TriangleShares(t.left, a, n) && TriangleShares(t.right, a + Triangles(t.left), n))
  }

  lemma {:induction false} TrianglesKept(t: Tree<real>, total: nat)
    requires total > 0
    ensures Triangles(WithRange(t, total)) == Triangles(t)
  {
    if t.Node? {
      TrianglesKept(t.left, total);
      TrianglesKept(t.right, total);
    }
  }

  lemma {:induction false} SpansShares(t: Tree<real>, a: nat, n: nat, total: nat)
    requires Spans(t, a) && n > 0 && total == 3 * n
    ensures TriangleShares(WithRange(t, total), a, n)
  {
    SpansTile(t, a);
    RangeIsShare(t, total);
    TrianglesKept(t, total);
    ThirdShare(a, n);
    ThirdShare(a + Triangles(t), n);
    if t.Node? {
      TrianglesKept(t.left, total);
      SpansShares(t.left, a, n, total);
      SpansShares(t.right, a + Triangles(t.left), n, total);
    }
  }
}
