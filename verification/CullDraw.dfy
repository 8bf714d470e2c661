/** VertexBufferRoot::cullDraw: drawing the part of a kd-tree that falls into a channel's
    range and the view frustum, with an explicit stack of candidate nodes. */
module CullDraw {
  import opened Sequences
  import opened MeshTypes
  import opened VertexData
  import opened KdSpec
  import opened KdSpheres
  import Spheres

  datatype Visibility = Full | Partial | Invisible

  /** The channel's share and the sphere test of its frustum culler; without culling the
      test answers Full. */
  datatype Channel = Channel(range: Range<real>, test: Sphere<real> -> Visibility)

  // ---- What the loop draws ---------------------------------------------------------

  predicate OutOfRange(t: Tree<real>, r: Range<real>) {
    t.range.lo >= r.hi || t.range.hi < r.lo
  }

  predicate FullyInRange(t: Tree<real>, r: Range<real>) {
    t.range.lo >= r.lo && t.range.hi < r.hi
  }

  /** The leaves drawn below t, in drawing order: the stack visits right before left. */
  function Visit(t: Tree<real>, c: Channel): (r: seq<Tree<real>>)
    ensures forall i :: 0 <= i < |r| ==> r[i].Leaf?
  {
    if OutOfRange(t, c.range) || c.test(t.sphere) == Invisible then []
    else if c.test(t.sphere) == Full && FullyInRange(t, c.range) then Leaves(t)
    else match t
      case Leaf(_, _, _, _, _, _, _) => if t.range.lo >= c.range.lo then [t] else []
      case Node(_, _, left, right) => Visit(right, c) + Visit(left, c)
  }

  function VisitAll(stack: seq<Tree<real>>, c: Channel): seq<Tree<real>> {
    if stack == [] then [] else Visit(stack[|stack| - 1], c) + VisitAll(stack[..|stack| - 1], c)
  }

  function Size(t: Tree<real>): nat {
    match t
    case Leaf(_, _, _, _, _, _, _) => 1
    case Node(_, _, l, r) => 1 + Size(l) + Size(r)
  }

  function TotalSize(stack: seq<Tree<real>>): nat {
    if stack == [] then 0 else Size(stack[|stack| - 1]) + TotalSize(stack[..|stack| - 1])
  }

  /** cullDraw; it terminates because the nodes on the stack shrink. */
  method CullDraw(root: Tree<real>, c: Channel) returns (drawn: seq<Tree<real>>)
    ensures drawn == Visit(root, c)
  {
    drawn := [];
    var candidates := [root];
    Stacked([], candidates, c);
    assert candidates[..0] == [];
    while candidates != []
      invariant drawn + VisitAll(candidates, c) == Visit(root, c)
      decreases TotalSize(candidates)
    {
      var treeNode, rest := candidates[|candidates| - 1], candidates[..|candidates| - 1];
      var draws, pushes := Examine(treeNode, c);
      Replaced(candidates, rest, treeNode, draws, pushes, drawn, c);
      drawn := drawn + draws;
      candidates := rest + pushes;
    }
  }

  lemma Replaced(candidates: seq<Tree<real>>, rest: seq<Tree<real>>, treeNode: Tree<real>, draws: seq<Tree<real>>,
                 pushes: seq<Tree<real>>, drawn: seq<Tree<real>>, c: Channel)
    requires candidates != [] && treeNode == candidates[|candidates| - 1] && rest == candidates[..|candidates| - 1]
    requires draws + VisitAll(pushes, c) == Visit(treeNode, c) && TotalSize(pushes) < Size(treeNode)
    ensures (drawn + draws) + VisitAll(rest + pushes, c) == drawn + VisitAll(candidates, c)
    ensures TotalSize(rest + pushes) < TotalSize(candidates)
  {
    Stacked(rest, pushes, c);
    Associate(drawn, draws, VisitAll(pushes, c) + VisitAll(rest, c));
    Associate(draws, VisitAll(pushes, c), VisitAll(rest, c));
  }

  /** The loop body for one candidate: the leaves it draws and the children it pushes. */
  method Examine(treeNode: Tree<real>, c: Channel) returns (draws: seq<Tree<real>>, pushes: seq<Tree<real>>)
    ensures draws + VisitAll(pushes, c) == Visit(treeNode, c)
    ensures TotalSize(pushes) < Size(treeNode)
  {
    draws, pushes := [], [];
    if treeNode.range.lo >= c.range.hi || treeNode.range.hi < c.range.lo {
      return;
    }
    var visibility := c.test(treeNode.sphere);
    if visibility == Full && treeNode.range.lo >= c.range.lo && treeNode.range.hi < c.range.hi {
      draws := Leaves(treeNode);
    } else if visibility != Invisible {
      match treeNode
      case Leaf(_, _, _, _, _, _, _) =>
        if treeNode.range.lo >= c.range.lo {
          draws := [treeNode];
        }
      case Node(_, _, left, right) =>
        pushes := [left, right];
        TwoStacked(left, right, c);
    }
  }

  lemma TwoStacked(left: Tree<real>, right: Tree<real>, c: Channel)
    ensures VisitAll([left, right], c) == Visit(right, c) + Visit(left, c)
    ensures TotalSize([left, right]) == Size(left) + Size(right)
  {
    assert [left, right][..1] == [left] && [left][..0] == [];
    assert VisitAll([left], c) == Visit(left, c) + [];
    assert TotalSize([left]) == Size(left) + 0;
  }

  lemma {:induction false} Stacked(rest: seq<Tree<real>>, top: seq<Tree<real>>, c: Channel)
    ensures VisitAll(rest + top, c) == VisitAll(top, c) + VisitAll(rest, c)
    ensures TotalSize(rest + top) == TotalSize(top) + TotalSize(rest)
  {
    if top == [] {
      assert rest + top == rest;
    } else {
      var n := |top| - 1;
      Stacked(rest, top[..n], c);
      assert (rest + top)[..|rest + top| - 1] == rest + top[..n];
    }
  }

  // ---- Ranges decide which channel draws a leaf ------------------------------------------

  /** The leaves of t whose range starts in [lo, hi), left to right. */
  function Select(t: Tree<real>, lo: real, hi: real): (r: seq<Tree<real>>)
    ensures forall i :: 0 <= i < |r| ==> r[i].Leaf?
  {
    match t
    case Leaf(_, _, _, _, _, _, _) => if lo <= t.range.lo < hi then [t] else []
    case Node(_, _, l, r) => Select(l, lo, hi) + Select(r, lo, hi)
  }

  /** Every node's range is the hull of its children's ranges. */
  predicate WellRanged(t: Tree<real>) {
    match t
    case Leaf(_, _, _, _, _, _, _) => t.range.lo <= t.range.hi
    case Node(_, _, l, r) =>
      && WellRanged(l) && WellRanged(r)
      && t.range == Range(Min(l.range.lo, r.range.lo), Max(l.range.hi, r.range.hi))
  }

  predicate Within(t: Tree<real>, lo: real, hi: real) {
    match t
    case Leaf(_, _, _, _, _, _, _) => lo <= t.range.lo <= t.range.hi <= hi
    case Node(_, _, l, r) => Within(l, lo, hi) && Within(r, lo, hi)
  }

  lemma {:induction false} Widen(t: Tree<real>, lo: real, hi: real, lo': real, hi': real)
    requires Within(t, lo, hi) && lo' <= lo && hi <= hi'
    ensures Within(t, lo', hi')
  {
    if t.Node? {
      Widen(t.left, lo, hi, lo', hi');
      Widen(t.right, lo, hi, lo', hi');
    }
  }

  lemma {:induction false} OwnRange(t: Tree<real>)
    requires WellRanged(t)
    ensures Within(t, t.range.lo, t.range.hi)
  {
    if t.Node? {
      OwnRange(t.left);
      OwnRange(t.right);
      Widen(t.left, t.left.range.lo, t.left.range.hi, t.range.lo, t.range.hi);
      Widen(t.right, t.right.range.lo, t.right.range.hi, t.range.lo, t.range.hi);
    }
  }

  lemma {:induction false} SelectNone(t: Tree<real>, a: real, b: real, lo: real, hi: real)
    requires Within(t, a, b) && (a >= hi || b < lo)
    ensures Select(t, lo, hi) == []
  {
    if t.Node? {
      SelectNone(t.left, a, b, lo, hi);
      SelectNone(t.right, a, b, lo, hi);
    }
  }

  lemma {:induction false} SelectEvery(t: Tree<real>, a: real, b: real, lo: real, hi: real)
    requires Within(t, a, b) && lo <= a && b < hi
    ensures Select(t, lo, hi) == Leaves(t)
  {
    if t.Node? {
      SelectEvery(t.left, a, b, lo, hi);
      SelectEvery(t.right, a, b, lo, hi);
    }
  }

  /** The in-range leaves that culling leaves out. */
  function Lost(t: Tree<real>, c: Channel): seq<Tree<real>> {
    if OutOfRange(t, c.range) then []
    else if c.test(t.sphere) == Invisible then Select(t, c.range.lo, c.range.hi)
    else if c.test(t.sphere) == Full && FullyInRange(t, c.range) then []
    else match t
      case Leaf(_, _, _, _, _, _, _) => []
      case Node(_, _, left, right) => Lost(right, c) + Lost(left, c)
  }

  /** Each in-range leaf is either drawn or left out by culling, once; no other is drawn. */
  lemma {:induction false} DrawnOrLost(t: Tree<real>, c: Channel)
    requires WellRanged(t)
    ensures multiset(Visit(t, c)) + multiset(Lost(t, c)) == multiset(Select(t, c.range.lo, c.range.hi))
  {
    var lo, hi := c.range.lo, c.range.hi;
    OwnRange(t);
    if OutOfRange(t, c.range) {
      SelectNone(t, t.range.lo, t.range.hi, lo, hi);
    } else if c.test(t.sphere) == Invisible {
    } else if c.test(t.sphere) == Full && FullyInRange(t, c.range) {
      SelectEvery(t, t.range.lo, t.range.hi, lo, hi);
    } else if t.Node? {
      DrawnOrLost(t.left, c);
      DrawnOrLost(t.right, c);
    }
  }

  ghost predicate NoCulling(c: Channel) {
    forall s :: c.test(s) == Full
  }

  lemma {:induction false} NothingLost(t: Tree<real>, c: Channel)
    requires NoCulling(c)
    ensures Lost(t, c) == []
  {
    if t.Node? {
      NothingLost(t.left, c);
      NothingLost(t.right, c);
    }
  }

  /** Without culling a channel draws exactly the leaves whose range starts in its own
      range, each once. */
  lemma DrawsItsShare(t: Tree<real>, c: Channel)
    requires WellRanged(t) && NoCulling(c)
    ensures multiset(Visit(t, c)) == multiset(Select(t, c.range.lo, c.range.hi))
  {
    DrawnOrLost(t, c);
    NothingLost(t, c);
  }

  // ---- A partition of [0, 1] over channels ----------------------------------------------

  lemma {:induction false} SelectSplit(t: Tree<real>, a: real, b: real, c: real)
    requires a <= b <= c
    ensures multiset(Select(t, a, c)) == multiset(Select(t, a, b)) + multiset(Select(t, b, c))
  {
    if t.Node? {
      SelectSplit(t.left, a, b, c);
      SelectSplit(t.right, a, b, c);
    }
  }

  predicate Ascending(b: seq<real>) {
    forall i :: 0 <= i < |b| - 1 ==> b[i] <= b[i + 1]
  }

  /** All leaves that channels with the ranges [b0, b1), [b1, b2), ... draw together. */
  function DrawnByAll(t: Tree<real>, b: seq<real>, test: Sphere<real> -> Visibility): (r: seq<Tree<real>>)
    ensures forall i :: 0 <= i < |r| ==> r[i].Leaf?
  {
    if |b| < 2 then [] else
      var n := |b| - 1;
      DrawnByAll(t, b[..n], test) + Visit(t, Channel(Range(b[n - 1], b[n]), test))
  }

  lemma {:induction false} SharesAddUp(t: Tree<real>, b: seq<real>, test: Sphere<real> -> Visibility)
    requires WellRanged(t) && |b| > 0 && Ascending(b) && forall s :: test(s) == Full
    ensures b[0] <= b[|b| - 1]
    ensures multiset(DrawnByAll(t, b, test)) == multiset(Select(t, b[0], b[|b| - 1]))
  {
    var n := |b| - 1;
    if n == 0 {
      SelectEmpty(t, b[0]);
    } else {
      assert b[n - 1] <= b[n - 1 + 1];
      SharesAddUp(t, b[..n], test);
      DrawsItsShare(t, Channel(Range(b[n - 1], b[n]), test));
      SelectSplit(t, b[0], b[n - 1], b[n]);
    }
  }

  lemma {:induction false} SelectEmpty(t: Tree<real>, a: real)
    ensures Select(t, a, a) == []
  {
    if t.Node? {
      SelectEmpty(t.left, a);
      SelectEmpty(t.right, a);
    }
  }

  /** Every leaf's range starts in [0, 1). */
  predicate StartsInUnit(t: Tree<real>) {
    match t
    case Leaf(_, _, _, _, _, _, _) => 0.0 <= t.range.lo < 1.0
    case Node(_, _, l, r) => StartsInUnit(l) && StartsInUnit(r)
  }

  lemma {:induction false} SelectUnit(t: Tree<real>)
    requires StartsInUnit(t)
    ensures Select(t, 0.0, 1.0) == Leaves(t)
  {
    if t.Node? {
      SelectUnit(t.left);
      SelectUnit(t.right);
    }
  }

  /** Any partition of [0, 1] over channels draws every leaf exactly once in total. */
  lemma EveryLeafOnce(t: Tree<real>, b: seq<real>, test: Sphere<real> -> Visibility)
    requires WellRanged(t) && StartsInUnit(t) && forall s :: test(s) == Full
    requires |b| > 1 && Ascending(b) && b[0] == 0.0 && b[|b| - 1] == 1.0
    ensures multiset(DrawnByAll(t, b, test)) == multiset(Leaves(t))
  {
    SharesAddUp(t, b, test);
    SelectUnit(t);
  }

  // ---- Culling is safe ------------------------------------------------------------------

  /** The culler calls a sphere invisible only if no point of it is in the frustum. */
  ghost predicate SoundTest(test: Sphere<real> -> Visibility, frustum: V -> bool) {
    forall s, p :: test(s) == Invisible && Spheres.Inside(p, s) ==> !frustum(p)
  }

  /** p is a point of the triangle f. */
  ghost predicate OnFace(p: V, f: Face) { Spheres.InTriangle(p, f.c0.vertex, f.c1.vertex, f.c2.vertex) }

  ghost predicate FaceUnseen(f: Face, frustum: V -> bool) { forall p: V :: OnFace(p, f) ==> !frustum(p) }

  /** No point of any triangle of the leaf is in the frustum. */
  ghost predicate Unseen(leaf: Tree<real>, g: Buffers<real>, frustum: V -> bool) {
    leaf.Leaf? && forall i :: 0 <= i < |LeafFaces(leaf, g)| ==> FaceUnseen(LeafFaces(leaf, g)[i], frustum)
  }

  /** A triangle with its vertices in an invisible sphere is nowhere in the frustum. */
  lemma LeafUnseen(leaf: Tree<real>, s: Sphere<real>, g: Buffers<real>, test: Sphere<real> -> Visibility, frustum: V -> bool)
    requires leaf.Leaf? && SoundTest(test, frustum) && test(s) == Invisible && Holds(s, leaf, g)
    ensures Unseen(leaf, g, frustum)
  {
    forall i | 0 <= i < |LeafFaces(leaf, g)| ensures FaceUnseen(LeafFaces(leaf, g)[i], frustum) {
      var k := 3 * i;
      FaceHidden(LeafFaces(leaf, g)[i], LeafPoint(leaf, g, k), LeafPoint(leaf, g, k + 1), LeafPoint(leaf, g, k + 2), s, test, frustum);
    }
  }

  lemma FaceHidden(f: Face, a: V, b: V, c: V, s: Sphere<real>, test: Sphere<real> -> Visibility, frustum: V -> bool)
    requires f.c0.vertex == a && f.c1.vertex == b && f.c2.vertex == c && SoundTest(test, frustum) && test(s) == Invisible
    requires Spheres.Inside(a, s) && Spheres.Inside(b, s) && Spheres.Inside(c, s)
    ensures FaceUnseen(f, frustum)
  {
    forall p: V | OnFace(p, f) ensures !frustum(p) { Spheres.BallConvex(p, a, b, c, s); }
  }

  lemma {:induction false} SelectUnseen(t: Tree<real>, lo: real, hi: real, s: Sphere<real>, g: Buffers<real>,
                                        test: Sphere<real> -> Visibility, frustum: V -> bool)
    requires SoundTest(test, frustum) && test(s) == Invisible && Holds(s, t, g)
    ensures forall leaf :: leaf in Select(t, lo, hi) ==> Unseen(leaf, g, frustum)
  {
    if t.Node? {
      SelectUnseen(t.left, lo, hi, s, g, test, frustum);
      SelectUnseen(t.right, lo, hi, s, g, test, frustum);
    } else {
      LeafUnseen(t, s, g, test, frustum);
    }
  }

  /** With sound spheres and a sound test, no triangle of an in-range leaf that is left out has a
      point in the frustum. */
  lemma {:induction false} LostUnseen(t: Tree<real>, c: Channel, g: Buffers<real>, frustum: V -> bool)
    requires SoundTest(c.test, frustum) && Sound(t, g)
    ensures forall leaf :: leaf in Lost(t, c) ==> Unseen(leaf, g, frustum)
  {
    if c.test(t.sphere) == Invisible {
      SelectUnseen(t, c.range.lo, c.range.hi, t.sphere, g, c.test, frustum);
    } else if t.Node? {
      LostUnseen(t.left, c, g, frustum);
      LostUnseen(t.right, c, g, frustum);
    }
  }

  lemma InOneOf<T>(all: seq<T>, a: seq<T>, b: seq<T>, x: T)
    requires multiset(a) + multiset(b) == multiset(all)
    ensures x in all ==> x in a || x in b
  {
    assert x in all ==> x in multiset(a) + multiset(b);
  }

  /** Every leaf of a channel's share is drawn or unseen. */
  lemma DrawnOrUnseen(t: Tree<real>, c: Channel, g: Buffers<real>, frustum: V -> bool, leaf: Tree<real>)
    requires WellRanged(t) && SoundTest(c.test, frustum) && Sound(t, g)
    ensures leaf in Select(t, c.range.lo, c.range.hi) ==> leaf in Visit(t, c) || Unseen(leaf, g, frustum)
  {
    LostUnseen(t, c, g, frustum);
    DrawnOrLost(t, c);
    InOneOf(Select(t, c.range.lo, c.range.hi), Visit(t, c), Lost(t, c), leaf);
  }

  /** Every leaf of the channels' joint share is drawn by one of them or unseen. */
  lemma {:induction false} SharedOrUnseen(t: Tree<real>, b: seq<real>, test: Sphere<real> -> Visibility, g: Buffers<real>,
                                          frustum: V -> bool, leaf: Tree<real>)
    requires WellRanged(t) && |b| > 0 && Ascending(b) && SoundTest(test, frustum) && Sound(t, g)
    ensures b[0] <= b[|b| - 1]
    ensures leaf in Select(t, b[0], b[|b| - 1]) ==> leaf in DrawnByAll(t, b, test) || Unseen(leaf, g, frustum)
  {
    var n := |b| - 1;
    if n == 0 {
      SelectEmpty(t, b[0]);
    } else {
      assert b[n - 1] <= b[n - 1 + 1];
      SharedOrUnseen(t, b[..n], test, g, frustum, leaf);
      DrawnOrUnseen(t, Channel(Range(b[n - 1], b[n]), test), g, frustum, leaf);
      SelectSplit(t, b[0], b[n - 1], b[n]);
      InOneOf(Select(t, b[0], b[n]), Select(t, b[0], b[n - 1]), Select(t, b[n - 1], b[n]), leaf);
    }
  }
}
