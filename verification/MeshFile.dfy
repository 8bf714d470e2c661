/** The binary mesh file: toStream and fromMemory of the root, node, leaf and buffer
    classes in examples/eqPly. Floats are 32-bit patterns. */
module MeshFile {
  import opened Sequences
  import opened MeshTypes
  import opened Bytes

  const FILE_VERSION: nat := 0x0116
  const ROOT_TYPE: nat := 0x07
  const NODE_TYPE: nat := 0xde
  const LEAF_TYPE: nat := 0xef

  /** Truncated stands for reading past the mapped file, which the source does not check. */
  datatype ReadError = Truncated | WrongVersion | NotRoot | NotNode | NotLeaf | NeitherNodeNorLeaf

  /** What reading yields: a value and the bytes after it, or MeshException. */
  datatype Parsed<T> = Ok(value: T, rest: seq<Byte>) | Err(error: ReadError)

  // ---- Records -----------------------------------------------------------------------

  /** memRead of one record. */
  function ReadRecord(a: Arch, s: seq<Byte>, widths: seq<nat>): (r: Parsed<seq<nat>>)
    ensures r.Ok? ==> |r.value| == |widths| && |r.rest| == |s| - Width(widths)
  {
    var n := Width(widths);
    if n <= |s| then Ok(GetAll(a, s[..n], widths), s[n..]) else Err(Truncated)
  }

  lemma ReadOfPut(a: Arch, vals: seq<nat>, widths: seq<nat>, rest: seq<Byte>)
    requires Fits(vals, widths)
    ensures ReadRecord(a, PutAll(a, vals, widths) + rest, widths) == Ok(vals, rest)
  {
    var p := PutAll(a, vals, widths);
    assert (p + rest)[..Width(widths)] == p && (p + rest)[Width(widths)..] == rest;
    GetAllOfPutAll(a, vals, widths);
  }

  lemma PutOfRead(a: Arch, s: seq<Byte>, widths: seq<nat>)
    requires ReadRecord(a, s, widths).Ok?
    ensures var r := ReadRecord(a, s, widths);
      Fits(r.value, widths) && PutAll(a, r.value, widths) + r.rest == s
  {
    PutAllOfGetAll(a, s[..Width(widths)], widths);
  }

  // ---- Tree nodes --------------------------------------------------------------------

  type T = Tree<nat>

  /** Node type, bounding sphere and range. */
  function NodeWidths(a: Arch): seq<nat> { [a.wordBytes, 4, 4, 4, 4, 4, 4] }

  /** The same, then bounding box, vertex start and length, index start and length. */
  function LeafWidths(a: Arch): seq<nat> {
    [a.wordBytes, 4, 4, 4, 4, 4, 4, 4, 4, 4, 4, 4, 4, a.wordBytes, 2, a.wordBytes, a.wordBytes]
  }

  function NodeFields(t: T): seq<nat>
    requires t.Node?
  {
    var c := t.sphere.center;
    [NODE_TYPE, c.x, c.y, c.z, t.sphere.radius, t.range.lo, t.range.hi]
  }

  function LeafFields(t: T): seq<nat>
    requires t.Leaf?
  {
    var c, b := t.sphere.center, t.box;
    [LEAF_TYPE, c.x, c.y, c.z, t.sphere.radius, t.range.lo, t.range.hi,
     b.lo.x, b.lo.y, b.lo.z, b.hi.x, b.hi.y, b.hi.z,
     t.vertexStart, t.vertexLength, t.indexStart, t.indexLength]
  }

  function LeafOf(f: seq<nat>): (t: T)
    requires |f| == 17
    ensures t.Leaf? && (f[0] == LEAF_TYPE ==> LeafFields(t) == f)
  {
    Leaf(Sphere(Vec3(f[1], f[2], f[3]), f[4]), Range(f[5], f[6]),
         Box(Vec3(f[7], f[8], f[9]), Vec3(f[10], f[11], f[12])), f[13], f[14], f[15], f[16])
  }

  function NodeOf(f: seq<nat>, l: T, r: T): (t: T)
    requires |f| == 7
    ensures t.Node? && t.left == l && t.right == r && (f[0] == NODE_TYPE ==> NodeFields(t) == f)
  {
    Node(Sphere(Vec3(f[1], f[2], f[3]), f[4]), Range(f[5], f[6]), l, r)
  }

  /** Every field fits the width the file gives it, as the C++ types guarantee. */
  predicate Storable(a: Arch, t: T) {
    match t
    case Leaf(_, _, _, _, _, _, _) => Fits(LeafFields(t), LeafWidths(a))
    case Node(_, _, l, r) => Fits(NodeFields(t), NodeWidths(a)) && Storable(a, l) && Storable(a, r)
  }

  /** toStream of node and leaf. */
  function Print(a: Arch, t: T): seq<Byte> {
    match t
    case Leaf(_, _, _, _, _, _, _) => PutAll(a, LeafFields(t), LeafWidths(a))
    case Node(_, _, l, r) => PutAll(a, NodeFields(t), NodeWidths(a)) + (Print(a, l) + Print(a, r))
  }

  /** Peek at the node type, as both fromMemory and its caller do. */
  function PeekType(a: Arch, s: seq<Byte>): Parsed<nat> {
    if |s| < a.wordBytes then Err(Truncated) else Ok(Get(a, s[..a.wordBytes]), s)
  }

  /** VertexBufferLeaf::fromMemory. */
  function ParseLeaf(a: Arch, s: seq<Byte>): Parsed<T> {
    var tag := PeekType(a, s);
    if tag.Err? then Err(tag.error)
    else if tag.value != LEAF_TYPE then Err(NotLeaf)
    else
      var f := ReadRecord(a, s, LeafWidths(a));
      if f.Err? then Err(f.error) else Ok(LeafOf(f.value), f.rest)
  }

  /** VertexBufferNode::fromMemory. */
  function ParseNode(a: Arch, s: seq<Byte>): (r: Parsed<T>)
    requires a.Valid()
    ensures r.Ok? ==> |r.rest| < |s|
    decreases |s|, 0
  {
    var tag := PeekType(a, s);
    if tag.Err? then Err(tag.error)
    else if tag.value != NODE_TYPE then Err(NotNode)
    else
      var f := ReadRecord(a, s, NodeWidths(a));
      if f.Err? then Err(f.error) else
        var l := ParseChild(a, f.rest);
        if l.Err? then l else
          var r := ParseChild(a, l.rest);
          if r.Err? then r else Ok(NodeOf(f.value, l.value, r.value), r.rest)
  }

  /** Reading one child: the peeked type decides which class reads on. */
  function ParseChild(a: Arch, s: seq<Byte>): (r: Parsed<T>)
    requires a.Valid()
    ensures r.Ok? ==> |r.rest| < |s|
    decreases |s|, 1
  {
    var tag := PeekType(a, s);
    if tag.Err? then Err(tag.error)
    else if tag.value == NODE_TYPE then ParseNode(a, s)
    else if tag.value == LEAF_TYPE then ParseLeaf(a, s)
    else Err(NeitherNodeNorLeaf)
  }

  lemma PeekOfPut(a: Arch, vals: seq<nat>, widths: seq<nat>, rest: seq<Byte>)
    requires Fits(vals, widths) && |vals| > 0 && widths[0] == a.wordBytes
    ensures PeekType(a, PutAll(a, vals, widths) + rest) == Ok(vals[0], PutAll(a, vals, widths) + rest)
  {
    var s, n := PutAll(a, vals, widths) + rest, a.wordBytes;
    assert s[..n] == Put(a, vals[0], n);
    GetOfPut(a, vals[0], n);
  }

  lemma PeekIsFirst(a: Arch, s: seq<Byte>, widths: seq<nat>)
    requires |widths| > 0 && widths[0] == a.wordBytes && ReadRecord(a, s, widths).Ok?
    ensures PeekType(a, s) == Ok(ReadRecord(a, s, widths).value[0], s)
  {
    var n := Width(widths);
    assert s[..n][..a.wordBytes] == s[..a.wordBytes];
  }

  lemma LeafRoundTrip(a: Arch, t: T, rest: seq<Byte>)
    requires t.Leaf? && Fits(LeafFields(t), LeafWidths(a))
    ensures PeekType(a, PutAll(a, LeafFields(t), LeafWidths(a)) + rest).Ok?
    ensures PeekType(a, PutAll(a, LeafFields(t), LeafWidths(a)) + rest).value == LEAF_TYPE
    ensures ParseLeaf(a, PutAll(a, LeafFields(t), LeafWidths(a)) + rest) == Ok(t, rest)
  {
    var f, w := LeafFields(t), LeafWidths(a);
    PeekOfPut(a, f, w, rest);
    ReadOfPut(a, f, w, rest);
    assert LeafOf(f) == t;
  }

  lemma NodeHeadRoundTrip(a: Arch, t: T, rest: seq<Byte>)
    requires t.Node? && Fits(NodeFields(t), NodeWidths(a))
    ensures PeekType(a, PutAll(a, NodeFields(t), NodeWidths(a)) + rest).Ok?
    ensures PeekType(a, PutAll(a, NodeFields(t), NodeWidths(a)) + rest).value == NODE_TYPE
    ensures ReadRecord(a, PutAll(a, NodeFields(t), NodeWidths(a)) + rest, NodeWidths(a)) == Ok(NodeFields(t), rest)
    ensures NodeOf(NodeFields(t), t.left, t.right) == t
  {
    PeekOfPut(a, NodeFields(t), NodeWidths(a), rest);
    ReadOfPut(a, NodeFields(t), NodeWidths(a), rest);
  }

  /** ParseNode in terms of its three parts. */
  lemma ParseNodeParts(a: Arch, s: seq<Byte>, f: Parsed<seq<nat>>, l: Parsed<T>, r: Parsed<T>)
    requires a.Valid() && PeekType(a, s).Ok? && PeekType(a, s).value == NODE_TYPE
    requires f == ReadRecord(a, s, NodeWidths(a)) && f.Ok?
    requires l == ParseChild(a, f.rest) && l.Ok? && r == ParseChild(a, l.rest) && r.Ok?
    ensures ParseNode(a, s) == Ok(NodeOf(f.value, l.value, r.value), r.rest)
    ensures ParseChild(a, s) == ParseNode(a, s)
  {
  }

  /** Reading a printed tree gives it back and stops exactly behind it. */
  lemma {:induction false} ParseOfPrint(a: Arch, t: T, rest: seq<Byte>)
    requires a.Valid() && Storable(a, t)
    ensures ParseChild(a, Print(a, t) + rest) == Ok(t, rest)
  {
    if t.Leaf? {
      LeafRoundTrip(a, t, rest);
      LeafChild(a, t, rest, Print(a, t) + rest);
    } else {
      ParseOfPrint(a, t.left, Print(a, t.right) + rest);
      ParseOfPrint(a, t.right, rest);
      NodeRoundTrip(a, t, rest, Print(a, t.right) + rest);
    }
  }

  lemma LeafChild(a: Arch, t: T, rest: seq<Byte>, s: seq<Byte>)
    requires a.Valid() && PeekType(a, s).Ok? && PeekType(a, s).value == LEAF_TYPE && ParseLeaf(a, s) == Ok(t, rest)
    ensures ParseChild(a, s) == Ok(t, rest)
  {
  }

  lemma NodeChild(a: Arch, t: T, rest: seq<Byte>, s: seq<Byte>)
    requires a.Valid() && ParseChild(a, s) == Ok(t, rest) && t.Node?
    ensures ParseNode(a, s) == Ok(t, rest)
  {
  }

  lemma NodeRoundTrip(a: Arch, t: T, rest: seq<Byte>, tail: seq<Byte>)
    requires a.Valid() && t.Node? && Fits(NodeFields(t), NodeWidths(a)) && tail == Print(a, t.right) + rest
    requires ParseChild(a, Print(a, t.left) + tail) == Ok(t.left, tail) && ParseChild(a, tail) == Ok(t.right, rest)
    ensures ParseChild(a, Print(a, t) + rest) == Ok(t, rest)
  {
    var p, afterHead := PutAll(a, NodeFields(t), NodeWidths(a)), Print(a, t.left) + tail;
    Associate(p, Print(a, t.left) + Print(a, t.right), rest);
    Associate(Print(a, t.left), Print(a, t.right), rest);
    NodeHeadRoundTrip(a, t, afterHead);
    ParseNodeParts(a, p + afterHead, Ok(NodeFields(t), afterHead), Ok(t.left, tail), Ok(t.right, rest));
  }

  lemma LeafReprints(a: Arch, s: seq<Byte>)
    requires ParseLeaf(a, s).Ok?
    ensures var p := ParseLeaf(a, s);
      p.value.Leaf? && Fits(LeafFields(p.value), LeafWidths(a)) && PutAll(a, LeafFields(p.value), LeafWidths(a)) + p.rest == s
  {
    PutOfRead(a, s, LeafWidths(a));
    PeekIsFirst(a, s, LeafWidths(a));
  }

  lemma NodeHeadReprints(a: Arch, s: seq<Byte>, l: T, r: T)
    requires PeekType(a, s).Ok? && PeekType(a, s).value == NODE_TYPE && ReadRecord(a, s, NodeWidths(a)).Ok?
    ensures var f := ReadRecord(a, s, NodeWidths(a)); var t := NodeOf(f.value, l, r);
      Fits(NodeFields(t), NodeWidths(a)) && PutAll(a, NodeFields(t), NodeWidths(a)) + f.rest == s
  {
    PutOfRead(a, s, NodeWidths(a));
    PeekIsFirst(a, s, NodeWidths(a));
  }

  /** Any accepted prefix prints back to itself. */
  lemma {:induction false} PrintOfParse(a: Arch, s: seq<Byte>)
    requires a.Valid() && ParseChild(a, s).Ok?
    ensures var p := ParseChild(a, s); Storable(a, p.value) && Print(a, p.value) + p.rest == s
    decreases |s|, 1
  {
    if PeekType(a, s).value == NODE_TYPE {
      PrintOfParseNode(a, s);
    } else {
      LeafReprints(a, s);
    }
  }

  lemma {:induction false} PrintOfParseNode(a: Arch, s: seq<Byte>)
    requires a.Valid() && ParseNode(a, s).Ok?
    ensures var p := ParseNode(a, s); p.value.Node? && Storable(a, p.value) && Print(a, p.value) + p.rest == s
    decreases |s|, 0
  {
    var f := ReadRecord(a, s, NodeWidths(a));
    var l := ParseChild(a, f.rest);
    var r := ParseChild(a, l.rest);
    ParseNodeParts(a, s, f, l, r);
    PrintOfParse(a, f.rest);
    PrintOfParse(a, l.rest);
    NodeHeadReprints(a, s, l.value, r.value);
    NodeReprints(a, s, NodeOf(f.value, l.value, r.value), f.rest, l.rest, r.rest);
  }

  lemma NodeReprints(a: Arch, s: seq<Byte>, t: T, afterHead: seq<Byte>, afterLeft: seq<Byte>, rest: seq<Byte>)
    requires t.Node? && PutAll(a, NodeFields(t), NodeWidths(a)) + afterHead == s
    requires Print(a, t.left) + afterLeft == afterHead && Print(a, t.right) + rest == afterLeft
    ensures Print(a, t) + rest == s
  {
    Associate(PutAll(a, NodeFields(t), NodeWidths(a)), Print(a, t.left) + Print(a, t.right), rest);
    Associate(Print(a, t.left), Print(a, t.right), rest);
  }

  // ---- The buffers ---------------------------------------------------------------------

  const VectorWidths: seq<nat> := [4, 4, 4]
  const ColorWidths: seq<nat> := [1, 1, 1, 1]
  const IndexWidths: seq<nat> := [2]

  predicate AllFit(items: seq<seq<nat>>, widths: seq<nat>) {
    forall i :: 0 <= i < |items| ==> Fits(items[i], widths)
  }

  function PutItems(a: Arch, items: seq<seq<nat>>, widths: seq<nat>): seq<Byte>
    requires forall i :: 0 <= i < |items| ==> |items[i]| == |widths|
  {
    if items == [] then [] else PutAll(a, items[0], widths) + PutItems(a, items[1..], widths)
  }

  /** The block read of readVector: n items in a row. */
  function ReadItems(a: Arch, s: seq<Byte>, n: nat, widths: seq<nat>): (r: Parsed<seq<seq<nat>>>)
    ensures r.Ok? ==> |r.value| == n
    ensures r.Ok? ==> forall i :: 0 <= i < n ==> |r.value[i]| == |widths|
    decreases n
  {
    if n == 0 then Ok([], s) else
      var x := ReadRecord(a, s, widths);
      if x.Err? then Err(x.error) else
        var xs := ReadItems(a, x.rest, n - 1, widths);
        if xs.Err? then Err(xs.error) else Ok([x.value] + xs.value, xs.rest)
  }

  /** writeVector: the length, then the elements. */
  function PrintVector(a: Arch, items: seq<seq<nat>>, widths: seq<nat>): seq<Byte>
    requires forall i :: 0 <= i < |items| ==> |items[i]| == |widths|
  {
    PutAll(a, [|items|], [a.wordBytes]) + PutItems(a, items, widths)
  }

  /** readVector. */
  function ParseVector(a: Arch, s: seq<Byte>, widths: seq<nat>): (r: Parsed<seq<seq<nat>>>)
    ensures r.Ok? ==> forall i :: 0 <= i < |r.value| ==> |r.value[i]| == |widths|
  {
    var n := ReadRecord(a, s, [a.wordBytes]);
    if n.Err? then Err(n.error) else ReadItems(a, n.rest, n.value[0], widths)
  }

  lemma {:induction false} ReadOfItems(a: Arch, items: seq<seq<nat>>, widths: seq<nat>, rest: seq<Byte>)
    requires AllFit(items, widths)
    ensures ReadItems(a, PutItems(a, items, widths) + rest, |items|, widths) == Ok(items, rest)
    decreases |items|
  {
    if items == [] {
      assert PutItems(a, items, widths) + rest == rest;
    } else {
      var x, xs := items[0], items[1..];
      assert Fits(x, widths);
      var s, tail := PutItems(a, items, widths) + rest, PutItems(a, xs, widths) + rest;
      PutItemsFirst(a, items, x, xs, widths, rest);
      ReadOfPut(a, x, widths, tail);
      ReadOfItems(a, xs, widths, rest);
      ReadItemsStep(a, s, |items|, |xs|, widths);
      assert items == [x] + xs;
    }
  }

  lemma PutItemsFirst(a: Arch, items: seq<seq<nat>>, x: seq<nat>, xs: seq<seq<nat>>, widths: seq<nat>, rest: seq<Byte>)
    requires AllFit(items, widths) && items != [] && x == items[0] && xs == items[1..]
    ensures Fits(x, widths) && AllFit(xs, widths)
    ensures PutItems(a, items, widths) + rest == PutAll(a, x, widths) + (PutItems(a, xs, widths) + rest)
  {
  }

  lemma ReadItemsStep(a: Arch, s: seq<Byte>, n: nat, m: nat, widths: seq<nat>)
    requires n == m + 1
    ensures var x := ReadRecord(a, s, widths);
      ReadItems(a, s, n, widths) ==
      if x.Err? then Err(x.error) else
        var xs := ReadItems(a, x.rest, m, widths);
        if xs.Err? then Err(xs.error) else Ok([x.value] + xs.value, xs.rest)
  {
  }

  lemma {:induction false} ItemsOfRead(a: Arch, s: seq<Byte>, n: nat, widths: seq<nat>)
    requires ReadItems(a, s, n, widths).Ok?
    ensures var r := ReadItems(a, s, n, widths);
      AllFit(r.value, widths) && PutItems(a, r.value, widths) + r.rest == s
    decreases n
  {
    if n > 0 {
      var m := n - 1;
      ReadItemsStep(a, s, n, m, widths);
      var x := ReadRecord(a, s, widths);
      PutOfRead(a, s, widths);
      ItemsOfRead(a, x.rest, m, widths);
      var xs := ReadItems(a, x.rest, m, widths);
      ItemsReprint(a, x.value, xs.value, widths, s, x.rest, xs.rest);
    }
  }

  lemma ItemsReprint(a: Arch, x: seq<nat>, xs: seq<seq<nat>>, widths: seq<nat>,
                     s: seq<Byte>, after: seq<Byte>, rest: seq<Byte>)
    requires Fits(x, widths) && AllFit(xs, widths)
    requires PutAll(a, x, widths) + after == s && PutItems(a, xs, widths) + rest == after
    ensures AllFit([x] + xs, widths) && PutItems(a, [x] + xs, widths) + rest == s
  {
    AllFitCons(x, xs, widths);
    PutItemsCons(a, x, xs, widths);
    Associate(PutAll(a, x, widths), PutItems(a, xs, widths), rest);
  }

  lemma AllFitCons(x: seq<nat>, xs: seq<seq<nat>>, widths: seq<nat>)
    requires Fits(x, widths) && AllFit(xs, widths)
    ensures AllFit([x] + xs, widths)
  {
  }

  lemma PutItemsCons(a: Arch, x: seq<nat>, xs: seq<seq<nat>>, widths: seq<nat>)
    requires |x| == |widths| && forall i :: 0 <= i < |xs| ==> |xs[i]| == |widths|
    ensures PutItems(a, [x] + xs, widths) == PutAll(a, x, widths) + PutItems(a, xs, widths)
  {
    assert ([x] + xs)[1..] == xs;
  }

  lemma VectorOfPrint(a: Arch, items: seq<seq<nat>>, widths: seq<nat>, rest: seq<Byte>)
    requires AllFit(items, widths) && |items| < Pow256(a.wordBytes)
    ensures ParseVector(a, PrintVector(a, items, widths) + rest, widths) == Ok(items, rest)
  {
    var tail := PutItems(a, items, widths) + rest;
    assert PrintVector(a, items, widths) + rest == PutAll(a, [|items|], [a.wordBytes]) + tail;
    ReadOfPut(a, [|items|], [a.wordBytes], tail);
    ReadOfItems(a, items, widths, rest);
  }

  lemma PrintOfVector(a: Arch, s: seq<Byte>, widths: seq<nat>)
    requires ParseVector(a, s, widths).Ok?
    ensures var r := ParseVector(a, s, widths);
      && AllFit(r.value, widths) && |r.value| < Pow256(a.wordBytes)
      && PrintVector(a, r.value, widths) + r.rest == s
  {
    var w := [a.wordBytes];
    var n := ReadRecord(a, s, w);
    PutOfRead(a, s, w);
    ItemsOfRead(a, n.rest, n.value[0], widths);
    var r := ReadItems(a, n.rest, n.value[0], widths);
    assert n.value == [n.value[0]];
    assert PutAll(a, n.value, w) + PutItems(a, r.value, widths) + r.rest
        == PutAll(a, n.value, w) + (PutItems(a, r.value, widths) + r.rest);
  }

  // ---- Typed buffers --------------------------------------------------------------------

  type B = Buffers<nat>

  function VectorItems(vs: seq<Vec3<nat>>): (r: seq<seq<nat>>)
    ensures |r| == |vs| && forall i :: 0 <= i < |r| ==> |r[i]| == 3
  {
    seq(|vs|, i requires 0 <= i < |vs| => [vs[i].x, vs[i].y, vs[i].z])
  }

  function VectorsOf(items: seq<seq<nat>>): (r: seq<Vec3<nat>>)
    requires forall i :: 0 <= i < |items| ==> |items[i]| == 3
    ensures |r| == |items|
  {
    seq(|items|, i requires 0 <= i < |items| => Vec3(items[i][0], items[i][1], items[i][2]))
  }

  function ColorItems(cs: seq<Color>): (r: seq<seq<nat>>)
    ensures |r| == |cs| && forall i :: 0 <= i < |r| ==> |r[i]| == 4
  {
    seq(|cs|, i requires 0 <= i < |cs| => [cs[i].r, cs[i].g, cs[i].b, cs[i].a])
  }

  function ColorsOf(items: seq<seq<nat>>): (r: seq<Color>)
    requires forall i :: 0 <= i < |items| ==> |items[i]| == 4
    ensures |r| == |items|
  {
    seq(|items|, i requires 0 <= i < |items| => Color(items[i][0], items[i][1], items[i][2], items[i][3]))
  }

  function IndexItems(xs: seq<nat>): (r: seq<seq<nat>>)
    ensures |r| == |xs| && forall i :: 0 <= i < |r| ==> |r[i]| == 1
  {
    seq(|xs|, i requires 0 <= i < |xs| => [xs[i]])
  }

  function IndicesOf(items: seq<seq<nat>>): (r: seq<nat>)
    requires forall i :: 0 <= i < |items| ==> |items[i]| == 1
    ensures |r| == |items|
  {
    seq(|items|, i requires 0 <= i < |items| => items[i][0])
  }

  lemma ItemsDetermine(b: B)
    ensures VectorsOf(VectorItems(b.vertices)) == b.vertices && VectorsOf(VectorItems(b.normals)) == b.normals
    ensures ColorsOf(ColorItems(b.colors)) == b.colors && IndicesOf(IndexItems(b.indices)) == b.indices
  {
  }

  lemma VectorItemsBack(items: seq<seq<nat>>)
    requires forall i :: 0 <= i < |items| ==> |items[i]| == 3
    ensures VectorItems(VectorsOf(items)) == items
  {
    forall i | 0 <= i < |items| ensures VectorItems(VectorsOf(items))[i] == items[i] {
      assert items[i] == [items[i][0], items[i][1], items[i][2]];
    }
  }

  lemma ColorItemsBack(items: seq<seq<nat>>)
    requires forall i :: 0 <= i < |items| ==> |items[i]| == 4
    ensures ColorItems(ColorsOf(items)) == items
  {
    forall i | 0 <= i < |items| ensures ColorItems(ColorsOf(items))[i] == items[i] {
      assert items[i] == [items[i][0], items[i][1], items[i][2], items[i][3]];
    }
  }

  lemma IndexItemsBack(items: seq<seq<nat>>)
    requires forall i :: 0 <= i < |items| ==> |items[i]| == 1
    ensures IndexItems(IndicesOf(items)) == items
  {
    forall i | 0 <= i < |items| ensures IndexItems(IndicesOf(items))[i] == items[i] {
      assert items[i] == [items[i][0]];
    }
  }

  predicate VectorFits(a: Arch, items: seq<seq<nat>>, widths: seq<nat>) {
    AllFit(items, widths) && |items| < Pow256(a.wordBytes)
  }

  /** Every number of the buffers fits its width. */
  predicate BuffersFit(a: Arch, b: B) {
    && VectorFits(a, VectorItems(b.vertices), VectorWidths) && VectorFits(a, ColorItems(b.colors), ColorWidths)
    && VectorFits(a, VectorItems(b.normals), VectorWidths) && VectorFits(a, IndexItems(b.indices), IndexWidths)
  }

  /** VertexBufferData::toStream. */
  function PrintBuffers(a: Arch, b: B): seq<Byte> {
    PrintVector(a, VectorItems(b.vertices), VectorWidths)
    + (PrintVector(a, ColorItems(b.colors), ColorWidths)
       + (PrintVector(a, VectorItems(b.normals), VectorWidths)
          + PrintVector(a, IndexItems(b.indices), IndexWidths)))
  }

  /** VertexBufferData::fromMemory. */
  function ParseBuffers(a: Arch, s: seq<Byte>): Parsed<B> {
    var v := ParseVector(a, s, VectorWidths);
    if v.Err? then Err(v.error) else
      var c := ParseVector(a, v.rest, ColorWidths);
      if c.Err? then Err(c.error) else
        var n := ParseVector(a, c.rest, VectorWidths);
        if n.Err? then Err(n.error) else
          var i := ParseVector(a, n.rest, IndexWidths);
          if i.Err? then Err(i.error) else
            Ok(Buffers(VectorsOf(v.value), ColorsOf(c.value), VectorsOf(n.value), IndicesOf(i.value)), i.rest)
  }

  lemma FourParts(p: seq<Byte>, q: seq<Byte>, r: seq<Byte>, s: seq<Byte>, rest: seq<Byte>)
    ensures (p + (q + (r + s))) + rest == p + (q + (r + (s + rest)))
  {
  }

  lemma BuffersRoundTrip(a: Arch, b: B, rest: seq<Byte>)
    requires BuffersFit(a, b)
    ensures ParseBuffers(a, PrintBuffers(a, b) + rest) == Ok(b, rest)
  {
    var v, c, n, i := VectorItems(b.vertices), ColorItems(b.colors), VectorItems(b.normals), IndexItems(b.indices);
    var r3 := PrintVector(a, i, IndexWidths) + rest;
    var r2 := PrintVector(a, n, VectorWidths) + r3;
    var r1 := PrintVector(a, c, ColorWidths) + r2;
    FourParts(PrintVector(a, v, VectorWidths), PrintVector(a, c, ColorWidths), PrintVector(a, n, VectorWidths),
              PrintVector(a, i, IndexWidths), rest);
    VectorOfPrint(a, v, VectorWidths, r1);
    VectorOfPrint(a, c, ColorWidths, r2);
    VectorOfPrint(a, n, VectorWidths, r3);
    VectorOfPrint(a, i, IndexWidths, rest);
    ItemsDetermine(b);
  }

  lemma BuffersReprint(a: Arch, s: seq<Byte>)
    requires ParseBuffers(a, s).Ok?
    ensures var p := ParseBuffers(a, s); BuffersFit(a, p.value) && PrintBuffers(a, p.value) + p.rest == s
  {
    var v := ParseVector(a, s, VectorWidths);
    var c := ParseVector(a, v.rest, ColorWidths);
    var n := ParseVector(a, c.rest, VectorWidths);
    var i := ParseVector(a, n.rest, IndexWidths);
    PrintOfVector(a, s, VectorWidths);
    PrintOfVector(a, v.rest, ColorWidths);
    PrintOfVector(a, c.rest, VectorWidths);
    PrintOfVector(a, n.rest, IndexWidths);
    VectorItemsBack(v.value);
    ColorItemsBack(c.value);
    VectorItemsBack(n.value);
    IndexItemsBack(i.value);
    FourParts(PrintVector(a, v.value, VectorWidths), PrintVector(a, c.value, ColorWidths),
              PrintVector(a, n.value, VectorWidths), PrintVector(a, i.value, IndexWidths), i.rest);
  }

  // ---- The file -------------------------------------------------------------------------

  datatype Model = Model(buffers: B, tree: T)

  predicate ModelFits(a: Arch, m: Model) {
    m.tree.Node? && Storable(a, m.tree) && BuffersFit(a, m.buffers)
  }

  function Head(a: Arch): seq<Byte> {
    PutAll(a, [FILE_VERSION, ROOT_TYPE], [a.wordBytes, a.wordBytes])
  }

  /** VertexBufferRoot::toStream. */
  function PrintFile(a: Arch, m: Model): seq<Byte> {
    Head(a) + (PrintBuffers(a, m.buffers) + Print(a, m.tree))
  }

  /** VertexBufferRoot::fromMemory. */
  function ParseFile(a: Arch, s: seq<Byte>): Parsed<Model>
    requires a.Valid()
  {
    var w := [a.wordBytes];
    var version := ReadRecord(a, s, w);
    if version.Err? then Err(version.error)
    else if version.value[0] != FILE_VERSION then Err(WrongVersion)
    else
      var nodeType := ReadRecord(a, version.rest, w);
      if nodeType.Err? then Err(nodeType.error)
      else if nodeType.value[0] != ROOT_TYPE then Err(NotRoot)
      else
        var b := ParseBuffers(a, nodeType.rest);
        if b.Err? then Err(b.error) else
          var t := ParseNode(a, b.rest);
          if t.Err? then Err(t.error) else Ok(Model(b.value, t.value), t.rest)
  }

  lemma HeadParts(a: Arch)
    ensures Head(a) == PutAll(a, [FILE_VERSION], [a.wordBytes]) + PutAll(a, [ROOT_TYPE], [a.wordBytes])
  {
    var w := a.wordBytes;
    assert [FILE_VERSION, ROOT_TYPE][1..] == [ROOT_TYPE] && [w, w][1..] == [w];
    assert [FILE_VERSION][1..] == [] && [w][1..] == [];
    assert PutAll(a, [FILE_VERSION], [w]) == Put(a, FILE_VERSION, w) + [];
  }

  lemma SmallWord(a: Arch, n: nat)
    requires a.Valid() && n < 0x1_0000
    ensures Fits([n], [a.wordBytes])
  {
    assert Pow256(2) == 0x1_0000;
    assert Pow256(4) == 256 * Pow256(3) && Pow256(3) == 256 * Pow256(2);
    assert Pow256(8) == 256 * Pow256(7) && Pow256(7) == 256 * Pow256(6) && Pow256(6) == 256 * Pow256(5)
        && Pow256(5) == 256 * Pow256(4);
  }

  /** fromMemory undoes toStream, whatever bytes follow. */
  lemma FileRoundTrip(a: Arch, m: Model, rest: seq<Byte>)
    requires a.Valid() && ModelFits(a, m)
    ensures ParseFile(a, PrintFile(a, m) + rest) == Ok(m, rest)
  {
    var w := [a.wordBytes];
    var r3 := Print(a, m.tree) + rest;
    var r2 := PrintBuffers(a, m.buffers) + r3;
    var r1 := PutAll(a, [ROOT_TYPE], w) + r2;
    HeadParts(a);
    FourParts(PutAll(a, [FILE_VERSION], w), PutAll(a, [ROOT_TYPE], w), PrintBuffers(a, m.buffers), Print(a, m.tree), rest);
    Associate(PutAll(a, [FILE_VERSION], w), PutAll(a, [ROOT_TYPE], w), PrintBuffers(a, m.buffers) + Print(a, m.tree));
    SmallWord(a, FILE_VERSION);
    SmallWord(a, ROOT_TYPE);
    ReadOfPut(a, [FILE_VERSION], w, r1);
    ReadOfPut(a, [ROOT_TYPE], w, r2);
    BuffersRoundTrip(a, m.buffers, r3);
    ParseOfPrint(a, m.tree, rest);
    NodeChild(a, m.tree, rest, r3);
  }

  /** Any accepted file prints back to itself, and describes a model that fits. */
  lemma FileReprints(a: Arch, s: seq<Byte>)
    requires a.Valid() && ParseFile(a, s).Ok?
    ensures var p := ParseFile(a, s); ModelFits(a, p.value) && PrintFile(a, p.value) + p.rest == s
  {
    var w := [a.wordBytes];
    var version := ReadRecord(a, s, w);
    var nodeType := ReadRecord(a, version.rest, w);
    var b := ParseBuffers(a, nodeType.rest);
    var t := ParseNode(a, b.rest);
    PutOfRead(a, s, w);
    PutOfRead(a, version.rest, w);
    BuffersReprint(a, nodeType.rest);
    PrintOfParseNode(a, b.rest);
    HeadParts(a);
    assert version.value == [FILE_VERSION] && nodeType.value == [ROOT_TYPE];
    FourParts(PutAll(a, [FILE_VERSION], w), PutAll(a, [ROOT_TYPE], w), PrintBuffers(a, b.value), Print(a, t.value), t.rest);
    Associate(PutAll(a, [FILE_VERSION], w), PutAll(a, [ROOT_TYPE], w), PrintBuffers(a, b.value) + Print(a, t.value));
  }
}
