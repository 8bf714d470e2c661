/** The binary mesh file byte by byte: where each number stands, how wide it is, and which numbers
    are constants (examples/eqPly/typedefs.h, vertexBufferBase.h and the toStream methods). */
module MeshLayout {
  import opened Hiding
  import opened MeshTypes
  import opened Bytes
  import opened MeshFile

  // ---- Positions --------------------------------------------------------------------

  /** The n bytes of s from off on are the number v. */
  ghost predicate At(a: Arch, s: seq<Byte>, off: nat, n: nat, v: nat) {
    forall key {:trigger Unfold(key)} :: Unfold(key) ==> off + n <= |s| && Get(a, s[off..off + n]) == v
  }

  /** p stands in s from off on. */
  ghost predicate Part(s: seq<Byte>, off: nat, p: seq<Byte>) {
    forall key {:trigger Unfold(key)} :: Unfold(key) ==> off + |p| <= |s| && s[off..off + |p|] == p
  }

  /** Where number i of a record starts. */
  function Start(widths: seq<nat>, i: nat): nat
    requires i <= |widths|
  {
    if i == 0 then 0 else widths[0] + Start(widths[1..], i - 1)
  }

  lemma {:induction false} StartNext(widths: seq<nat>, i: nat)
    requires i < |widths|
    ensures Start(widths, i + 1) == Start(widths, i) + widths[i]
  {
    if i == 0 {
      assert Start(widths[1..], 0) == 0;
    } else {
      StartNext(widths[1..], i - 1);
    }
  }

  lemma PutFirst(a: Arch, vals: seq<nat>, widths: seq<nat>)
    requires Fits(vals, widths) && vals != []
    ensures At(a, PutAll(a, vals, widths), 0, widths[0], vals[0])
  {
    GetOfPut(a, vals[0], widths[0]);
    var p := Put(a, vals[0], widths[0]);
    assert PutAll(a, vals, widths)[0..|p|] == p;
  }

  lemma Shift(a: Arch, p: seq<Byte>, s: seq<Byte>, off: nat, n: nat, v: nat, at: nat)
    requires At(a, s, off, n, v) && at == |p| + off
    ensures At(a, p + s, at, n, v)
  {
    assert Unfold(0);
    assert (p + s)[at..at + n] == s[off..off + n];
  }

  lemma Widen(a: Arch, s: seq<Byte>, rest: seq<Byte>, off: nat, n: nat, v: nat)
    requires At(a, s, off, n, v)
    ensures At(a, s + rest, off, n, v)
  {
    assert Unfold(0);
    assert (s + rest)[off..off + n] == s[off..off + n];
  }

  /** Every number of a record stands behind those before it. */
  lemma {:induction false} NumberAt(a: Arch, vals: seq<nat>, widths: seq<nat>, i: nat)
    requires Fits(vals, widths) && i < |vals|
    ensures At(a, PutAll(a, vals, widths), Start(widths, i), widths[i], vals[i])
  {
    if i == 0 {
      PutFirst(a, vals, widths);
    } else {
      NumberAt(a, vals[1..], widths[1..], i - 1);
      Shift(a, Put(a, vals[0], widths[0]), PutAll(a, vals[1..], widths[1..]), Start(widths[1..], i - 1), widths[i], vals[i], Start(widths, i));
    }
  }

  // ---- Nodes ------------------------------------------------------------------------

  lemma NodeStarts(a: Arch)
    ensures var s, w := NodeWidths(a), a.wordBytes;
      && Start(s, 0) == 0 && Start(s, 1) == w && Start(s, 2) == w + 4 && Start(s, 3) == w + 8
      && Start(s, 4) == w + 12 && Start(s, 5) == w + 16 && Start(s, 6) == w + 20 && Width(s) == w + 24
  {
    var s := NodeWidths(a);
    StartNext(s, 0); StartNext(s, 1); StartNext(s, 2); StartNext(s, 3); StartNext(s, 4); StartNext(s, 5); StartNext(s, 6);
    WidthIs(s);
  }

  lemma {:induction false} WidthIs(s: seq<nat>)
    ensures Width(s) == Start(s, |s|)
  {
    if s != [] { WidthIs(s[1..]); }
  }

  lemma LeafStarts(a: Arch)
    ensures var s, w := LeafWidths(a), a.wordBytes;
      && Start(s, 0) == 0 && Start(s, 1) == w && Start(s, 2) == w + 4 && Start(s, 3) == w + 8
      && Start(s, 4) == w + 12 && Start(s, 5) == w + 16 && Start(s, 6) == w + 20 && Start(s, 7) == w + 24
      && Start(s, 8) == w + 28 && Start(s, 9) == w + 32 && Start(s, 10) == w + 36 && Start(s, 11) == w + 40
      && Start(s, 12) == w + 44 && Start(s, 13) == w + 48 && Start(s, 14) == 2 * w + 48 && Start(s, 15) == 2 * w + 50
      && Start(s, 16) == 3 * w + 50 && Width(s) == 4 * w + 50
  {
    var s := LeafWidths(a);
    StartNext(s, 0); StartNext(s, 1); StartNext(s, 2); StartNext(s, 3); StartNext(s, 4); StartNext(s, 5); StartNext(s, 6);
    StartNext(s, 7); StartNext(s, 8); StartNext(s, 9); StartNext(s, 10); StartNext(s, 11); StartNext(s, 12);
    StartNext(s, 13); StartNext(s, 14); StartNext(s, 15); StartNext(s, 16);
    WidthIs(s);
  }

  /** An inner node: the tag 0xde in a word, sphere and range in six floats. */
  lemma NodeLayout(a: Arch, t: T)
    requires t.Node? && Storable(a, t)
    ensures var s, w := Print(a, t), a.wordBytes;
      && At(a, s, 0, w, 0xde)
      && At(a, s, w, 4, t.sphere.center.x) && At(a, s, w + 4, 4, t.sphere.center.y) && At(a, s, w + 8, 4, t.sphere.center.z)
      && At(a, s, w + 12, 4, t.sphere.radius) && At(a, s, w + 16, 4, t.range.lo) && At(a, s, w + 20, 4, t.range.hi)
  {
    NodeStarts(a);
    HeadAt(a, t, 0); HeadAt(a, t, 1); HeadAt(a, t, 2); HeadAt(a, t, 3); HeadAt(a, t, 4); HeadAt(a, t, 5); HeadAt(a, t, 6);
  }

  /** Its children follow, left before right. */
  lemma ChildrenLayout(a: Arch, t: T, n: nat)
    requires t.Node? && n == |Print(a, t.left)|
    ensures var s, w := Print(a, t), a.wordBytes;
      Part(s, w + 24, Print(a, t.left)) && Part(s, w + 24 + n, Print(a, t.right)) && |s| == w + 24 + n + |Print(a, t.right)|
  {
    NodeStarts(a);
    ThreeParts(PutAll(a, NodeFields(t), NodeWidths(a)), Print(a, t.left), Print(a, t.right), Print(a, t), a.wordBytes + 24, a.wordBytes + 24 + n);
  }

  lemma ThreeParts(p: seq<Byte>, l: seq<Byte>, r: seq<Byte>, s: seq<Byte>, n: nat, m: nat)
    requires s == p + (l + r) && n == |p| && m == n + |l|
    ensures Part(s, n, l) && Part(s, m, r) && |s| == m + |r|
  {
    assert Unfold(0);
  }

  lemma HeadAt(a: Arch, t: T, i: nat)
    requires t.Node? && Storable(a, t) && i < 7
    ensures At(a, Print(a, t), Start(NodeWidths(a), i), NodeWidths(a)[i], NodeFields(t)[i])
  {
    NumberAt(a, NodeFields(t), NodeWidths(a), i);
    Widen(a, PutAll(a, NodeFields(t), NodeWidths(a)), Print(a, t.left) + Print(a, t.right),
          Start(NodeWidths(a), i), NodeWidths(a)[i], NodeFields(t)[i]);
  }

  /** A leaf: the tag 0xef, sphere, range and bounding box in twelve floats, then the extents; the
      number of vertices has two bytes. */
  lemma LeafLayout(a: Arch, t: T)
    requires t.Leaf? && Storable(a, t)
    ensures var s, w := Print(a, t), a.wordBytes;
      && At(a, s, 0, w, 0xef)
      && At(a, s, w, 4, t.sphere.center.x) && At(a, s, w + 4, 4, t.sphere.center.y) && At(a, s, w + 8, 4, t.sphere.center.z)
      && At(a, s, w + 12, 4, t.sphere.radius) && At(a, s, w + 16, 4, t.range.lo) && At(a, s, w + 20, 4, t.range.hi)
    ensures var s, w := Print(a, t), a.wordBytes;
      && At(a, s, w + 24, 4, t.box.lo.x) && At(a, s, w + 28, 4, t.box.lo.y) && At(a, s, w + 32, 4, t.box.lo.z)
      && At(a, s, w + 36, 4, t.box.hi.x) && At(a, s, w + 40, 4, t.box.hi.y) && At(a, s, w + 44, 4, t.box.hi.z)
    ensures var s, w := Print(a, t), a.wordBytes;
      && At(a, s, w + 48, w, t.vertexStart) && At(a, s, 2 * w + 48, 2, t.vertexLength)
      && At(a, s, 2 * w + 50, w, t.indexStart) && At(a, s, 3 * w + 50, w, t.indexLength) && |s| == 4 * w + 50
  {
    LeafStarts(a);
    LeafAt(a, t, 0); LeafAt(a, t, 1); LeafAt(a, t, 2); LeafAt(a, t, 3); LeafAt(a, t, 4); LeafAt(a, t, 5); LeafAt(a, t, 6);
    LeafAt(a, t, 7); LeafAt(a, t, 8); LeafAt(a, t, 9); LeafAt(a, t, 10); LeafAt(a, t, 11); LeafAt(a, t, 12);
    LeafAt(a, t, 13); LeafAt(a, t, 14); LeafAt(a, t, 15); LeafAt(a, t, 16);
  }

  lemma LeafAt(a: Arch, t: T, i: nat)
    requires t.Leaf? && Storable(a, t) && i < 17
    ensures At(a, Print(a, t), Start(LeafWidths(a), i), LeafWidths(a)[i], LeafFields(t)[i])
    ensures |Print(a, t)| == Width(LeafWidths(a))
  {
    NumberAt(a, LeafFields(t), LeafWidths(a), i);
  }

  // ---- Buffers ----------------------------------------------------------------------

  lemma OneMore(m: nat, n: nat, x: nat)
    requires n == m + 1
    ensures n * x == m * x + x
  {
  }

  /** The first item, and the others behind it. */
  lemma ItemsStep(a: Arch, items: seq<seq<nat>>, widths: seq<nat>, xs: seq<seq<nat>>)
    requires AllFit(items, widths) && items != [] && xs == items[1..]
    ensures Fits(items[0], widths) && AllFit(xs, widths)
    ensures PutItems(a, items, widths) == PutAll(a, items[0], widths) + PutItems(a, xs, widths)
  {
  }

  lemma {:induction false} ItemsSize(a: Arch, items: seq<seq<nat>>, widths: seq<nat>, n: nat, size: nat)
    requires AllFit(items, widths) && n == |items| && size == Width(widths)
    ensures |PutItems(a, items, widths)| == n * size
  {
    if items != [] {
      ItemsStep(a, items, widths, items[1..]);
      ItemsSize(a, items[1..], widths, n - 1, size);
      OneMore(n - 1, n, size);
    }
  }

  /** i items of the given size fill the first bytes. */
  ghost predicate Filled(i: nat, size: nat, bytes: nat) {
    forall key {:trigger Unfold(key)} :: Unfold(key) ==> bytes == i * size
  }

  lemma Before(i: nat, j: nat, size: nat, bytes: nat)
    requires Filled(i, size, bytes)
    ensures i == 0 ==> bytes == 0
    ensures i == j + 1 ==> bytes >= size && Filled(j, size, bytes - size)
  {
    assert Unfold(0);
    if i == j + 1 { OneMore(j, i, size); }
  }

  /** Number c of item i. */
  lemma {:induction false} ItemAt(a: Arch, items: seq<seq<nat>>, widths: seq<nat>, i: nat, c: nat, skip: nat, off: nat)
    requires AllFit(items, widths) && i < |items| && c < |widths|
    requires Filled(i, Width(widths), skip) && off == skip + Start(widths, c)
    ensures |items[i]| == |widths| && At(a, PutItems(a, items, widths), off, widths[c], items[i][c])
  {
    if i == 0 {
      Before(0, 0, Width(widths), skip);
      FirstItemAt(a, items, items[1..], widths, c, off);
    } else {
      var xs, j, size := items[1..], i - 1, Width(widths);
      Before(i, j, size, skip);
      var skipped, inner := skip - size, off - size;
      assert xs[j] == items[i];
      ItemAt(a, xs, widths, j, c, skipped, inner);
      LaterItemAt(a, items, xs, widths, inner, widths[c], xs[j][c], off);
    }
  }

  lemma LaterItemAt(a: Arch, items: seq<seq<nat>>, xs: seq<seq<nat>>, widths: seq<nat>, off: nat, n: nat, v: nat, at: nat)
    requires AllFit(items, widths) && AllFit(xs, widths) && items != [] && xs == items[1..]
    requires At(a, PutItems(a, xs, widths), off, n, v) && at == Width(widths) + off
    ensures At(a, PutItems(a, items, widths), at, n, v)
  {
    ItemsStep(a, items, widths, xs);
    Shift(a, PutAll(a, items[0], widths), PutItems(a, xs, widths), off, n, v, at);
  }

  lemma FirstItemAt(a: Arch, items: seq<seq<nat>>, xs: seq<seq<nat>>, widths: seq<nat>, c: nat, off: nat)
    requires AllFit(items, widths) && items != [] && xs == items[1..] && c < |widths| && off == Start(widths, c)
    ensures At(a, PutItems(a, items, widths), off, widths[c], items[0][c])
  {
    var x := items[0];
    ItemsStep(a, items, widths, xs);
    NumberAt(a, x, widths, c);
    Widen(a, PutAll(a, x, widths), PutItems(a, xs, widths), off, widths[c], x[c]);
  }

  /** A vector: its length in a word, then its items. */
  lemma VectorLayout(a: Arch, items: seq<seq<nat>>, widths: seq<nat>, n: nat, size: nat)
    requires VectorFits(a, items, widths) && n == |items| && size == Width(widths)
    ensures var s, w := PrintVector(a, items, widths), a.wordBytes;
      At(a, s, 0, w, n) && Part(s, w, PutItems(a, items, widths)) && |s| == w + n * size
  {
    var w := a.wordBytes;
    LengthWord(a, n);
    Widen(a, PutAll(a, [n], [w]), PutItems(a, items, widths), 0, w, n);
    ItemsSize(a, items, widths, n, size);
    TwoParts(PutAll(a, [n], [w]), PutItems(a, items, widths), w);
  }

  lemma LengthWord(a: Arch, n: nat)
    requires Fits([n], [a.wordBytes])
    ensures At(a, PutAll(a, [n], [a.wordBytes]), 0, a.wordBytes, n) && |PutAll(a, [n], [a.wordBytes])| == a.wordBytes
  {
    assert [a.wordBytes][1..] == [];
    PutFirst(a, [n], [a.wordBytes]);
  }

  lemma TwoParts(p: seq<Byte>, q: seq<Byte>, n: nat)
    requires n == |p|
    ensures Part(p + q, n, q) && |p + q| == n + |q|
  {
    assert Unfold(0);
  }

  lemma Widths()
    ensures Width(VectorWidths) == 12 && Width(ColorWidths) == 4 && Width(IndexWidths) == 2
    ensures VectorWidths == [4, 4, 4] && ColorWidths == [1, 1, 1, 1] && IndexWidths == [2]
  {
    assert VectorWidths[1..] == [4, 4] && [4, 4][1..] == [4] && [4][1..] == [];
    assert ColorWidths[1..] == [1, 1, 1] && [1, 1, 1][1..] == [1, 1] && [1, 1][1..] == [1] && [1][1..] == [];
    assert IndexWidths[1..] == [];
  }

  /** The four vectors of the buffers, of three floats, four bytes, three floats and two bytes an
      item, one behind the other. */
  lemma BuffersLayout(a: Arch, b: B, o1: nat, o2: nat, o3: nat, end: nat)
    requires BuffersFit(a, b) && o1 == a.wordBytes + 12 * |b.vertices| && o2 == o1 + a.wordBytes + 4 * |b.colors|
    requires o3 == o2 + a.wordBytes + 12 * |b.normals| && end == o3 + a.wordBytes + 2 * |b.indices|
    ensures var s := PrintBuffers(a, b);
      && Part(s, 0, PrintVector(a, VectorItems(b.vertices), VectorWidths))
      && Part(s, o1, PrintVector(a, ColorItems(b.colors), ColorWidths))
      && Part(s, o2, PrintVector(a, VectorItems(b.normals), VectorWidths))
      && Part(s, o3, PrintVector(a, IndexItems(b.indices), IndexWidths))
      && |s| == end
  {
    VectorSizes(a, b, 12 * |b.vertices|, 4 * |b.colors|, 12 * |b.normals|, 2 * |b.indices|);
    FourOf(PrintVector(a, VectorItems(b.vertices), VectorWidths), PrintVector(a, ColorItems(b.colors), ColorWidths),
           PrintVector(a, VectorItems(b.normals), VectorWidths), PrintVector(a, IndexItems(b.indices), IndexWidths),
           PrintBuffers(a, b), o1, o2, o3, end);
  }

  lemma VectorSizes(a: Arch, b: B, v: nat, c: nat, n: nat, i: nat)
    requires BuffersFit(a, b) && v == 12 * |b.vertices| && c == 4 * |b.colors| && n == 12 * |b.normals| && i == 2 * |b.indices|
    ensures |PrintVector(a, VectorItems(b.vertices), VectorWidths)| == a.wordBytes + v
    ensures |PrintVector(a, ColorItems(b.colors), ColorWidths)| == a.wordBytes + c
    ensures |PrintVector(a, VectorItems(b.normals), VectorWidths)| == a.wordBytes + n
    ensures |PrintVector(a, IndexItems(b.indices), IndexWidths)| == a.wordBytes + i
  {
    Widths();
    VectorLayout(a, VectorItems(b.vertices), VectorWidths, |b.vertices|, 12);
    VectorLayout(a, ColorItems(b.colors), ColorWidths, |b.colors|, 4);
    VectorLayout(a, VectorItems(b.normals), VectorWidths, |b.normals|, 12);
    VectorLayout(a, IndexItems(b.indices), IndexWidths, |b.indices|, 2);
  }

  lemma FourOf(p: seq<Byte>, q: seq<Byte>, r: seq<Byte>, t: seq<Byte>, s: seq<Byte>, o1: nat, o2: nat, o3: nat, end: nat)
    requires s == p + (q + (r + t)) && o1 == |p| && o2 == o1 + |q| && o3 == o2 + |r| && end == o3 + |t|
    ensures Part(s, 0, p) && Part(s, o1, q) && Part(s, o2, r) && Part(s, o3, t) && |s| == end
  {
    assert Unfold(0);
  }

  /** Coordinates in the order x, y, z. */
  lemma PointAt(a: Arch, ps: seq<Vec3<nat>>, i: nat, off: nat)
    requires AllFit(VectorItems(ps), VectorWidths) && i < |ps| && off == 12 * i
    ensures var s := PutItems(a, VectorItems(ps), VectorWidths);
      At(a, s, off, 4, ps[i].x) && At(a, s, off + 4, 4, ps[i].y) && At(a, s, off + 8, 4, ps[i].z)
  {
    Widths();
    var w := VectorWidths;
    StartNext(w, 0);
    StartNext(w, 1);
    ItemAt(a, VectorItems(ps), w, i, 0, off, off);
    ItemAt(a, VectorItems(ps), w, i, 1, off, off + 4);
    ItemAt(a, VectorItems(ps), w, i, 2, off, off + 8);
  }

  /** Colours in the order red, green, blue, alpha. */
  lemma ColorAt(a: Arch, cs: seq<Color>, i: nat, off: nat)
    requires AllFit(ColorItems(cs), ColorWidths) && i < |cs| && off == 4 * i
    ensures var s := PutItems(a, ColorItems(cs), ColorWidths);
      At(a, s, off, 1, cs[i].r) && At(a, s, off + 1, 1, cs[i].g) && At(a, s, off + 2, 1, cs[i].b) && At(a, s, off + 3, 1, cs[i].a)
  {
    Widths();
    var w := ColorWidths;
    StartNext(w, 0);
    StartNext(w, 1);
    StartNext(w, 2);
    ItemAt(a, ColorItems(cs), w, i, 0, off, off);
    ItemAt(a, ColorItems(cs), w, i, 1, off, off + 1);
    ItemAt(a, ColorItems(cs), w, i, 2, off, off + 2);
    ItemAt(a, ColorItems(cs), w, i, 3, off, off + 3);
  }

  lemma IndexAt(a: Arch, xs: seq<nat>, i: nat, off: nat)
    requires AllFit(IndexItems(xs), IndexWidths) && i < |xs| && off == 2 * i
    ensures At(a, PutItems(a, IndexItems(xs), IndexWidths), off, 2, xs[i])
  {
    Widths();
    ItemAt(a, IndexItems(xs), IndexWidths, i, 0, off, off);
  }

  // ---- The file ---------------------------------------------------------------------

  /** The version 0x0116 and the tag 0x07, in a word each, then buffers and tree. */
  lemma FileLayout(a: Arch, m: Model, o1: nat, o2: nat)
    requires a.Valid() && o1 == 2 * a.wordBytes && o2 == o1 + |PrintBuffers(a, m.buffers)|
    ensures var s, w := PrintFile(a, m), a.wordBytes;
      && At(a, s, 0, w, 0x0116) && At(a, s, w, w, 0x07)
      && Part(s, o1, PrintBuffers(a, m.buffers)) && Part(s, o2, Print(a, m.tree)) && |s| == o2 + |Print(a, m.tree)|
  {
    HeadLayout(a);
    HeadWidened(a, PrintBuffers(a, m.buffers) + Print(a, m.tree));
    ThreeParts(Head(a), PrintBuffers(a, m.buffers), Print(a, m.tree), PrintFile(a, m), o1, o2);
  }

  lemma HeadWidened(a: Arch, rest: seq<Byte>)
    requires a.Valid()
    ensures var s, w := Head(a) + rest, a.wordBytes; At(a, s, 0, w, 0x0116) && At(a, s, w, w, 0x07)
  {
    HeadLayout(a);
    Widen(a, Head(a), rest, 0, a.wordBytes, 0x0116);
    Widen(a, Head(a), rest, a.wordBytes, a.wordBytes, 0x07);
  }

  lemma HeadLayout(a: Arch)
    requires a.Valid()
    ensures At(a, Head(a), 0, a.wordBytes, 0x0116) && At(a, Head(a), a.wordBytes, a.wordBytes, 0x07) && |Head(a)| == 2 * a.wordBytes
  {
    var w := a.wordBytes;
    SmallWord(a, 0x0116);
    SmallWord(a, 0x07);
    HeadParts(a);
    LengthWord(a, 0x0116);
    LengthWord(a, 0x07);
    Widen(a, PutAll(a, [0x0116], [w]), PutAll(a, [0x07], [w]), 0, w, 0x0116);
    Shift(a, PutAll(a, [0x0116], [w]), PutAll(a, [0x07], [w]), 0, w, 0x07, w);
  }

  // ---- What is refused --------------------------------------------------------------

  lemma FirstWord(a: Arch, s: seq<Byte>)
    requires |s| >= a.wordBytes
    ensures ReadRecord(a, s, [a.wordBytes]) == Ok([Get(a, s[..a.wordBytes])], s[a.wordBytes..])
  {
    var w := a.wordBytes;
    assert [w][1..] == [] && Width([w]) == w;
    var p := s[..w];
    assert p[..w] == p && p[w..] == [];
    assert GetAll(a, p[w..], [w][1..]) == [];
    assert GetAll(a, p, [w]) == [Get(a, p[..w])];
  }

  /** A file of another version, or one that does not go on with a root, is refused. */
  lemma FileRefused(a: Arch, s: seq<Byte>)
    requires a.Valid() && |s| >= 2 * a.wordBytes
    ensures var w := a.wordBytes; var version, tag := Get(a, s[..w]), Get(a, s[w..2 * w]);
      && (version != 0x0116 <==> ParseFile(a, s) == Err(WrongVersion))
      && (version == 0x0116 && tag != 0x07 ==> ParseFile(a, s) == Err(NotRoot))
  {
    var w := a.wordBytes;
    FirstWord(a, s);
    FirstWord(a, s[w..]);
    assert s[w..][..w] == s[w..2 * w];
    if Get(a, s[..w]) == 0x0116 { NotVersion(a, s); }
  }

  /** Only the first word is checked for the version. */
  lemma NotVersion(a: Arch, s: seq<Byte>)
    requires a.Valid() && |s| >= a.wordBytes && Get(a, s[..a.wordBytes]) == 0x0116
    ensures ParseFile(a, s) != Err(WrongVersion)
  {
    FirstWord(a, s);
    var r := s[a.wordBytes..];
    if |r| >= a.wordBytes {
      FirstWord(a, r);
      BuffersErrors(a, r[a.wordBytes..]);
      var b := ParseBuffers(a, r[a.wordBytes..]);
      if b.Ok? { TreeErrors(a, b.rest); }
    }
  }

  lemma {:induction false} ItemsErrors(a: Arch, s: seq<Byte>, n: nat, widths: seq<nat>)
    ensures ReadItems(a, s, n, widths).Err? ==> ReadItems(a, s, n, widths) == Err(Truncated)
    decreases n
  {
    if n > 0 && ReadRecord(a, s, widths).Ok? { ItemsErrors(a, ReadRecord(a, s, widths).rest, n - 1, widths); }
  }

  lemma VectorErrors(a: Arch, s: seq<Byte>, widths: seq<nat>)
    ensures ParseVector(a, s, widths).Err? ==> ParseVector(a, s, widths) == Err(Truncated)
  {
    var n := ReadRecord(a, s, [a.wordBytes]);
    if n.Ok? { ItemsErrors(a, n.rest, n.value[0], widths); }
  }

  lemma BuffersErrors(a: Arch, s: seq<Byte>)
    ensures ParseBuffers(a, s).Err? ==> ParseBuffers(a, s) == Err(Truncated)
  {
    var v := ParseVector(a, s, VectorWidths);
    VectorErrors(a, s, VectorWidths);
    if v.Ok? {
      var c := ParseVector(a, v.rest, ColorWidths);
      VectorErrors(a, v.rest, ColorWidths);
      if c.Ok? {
        var n := ParseVector(a, c.rest, VectorWidths);
        VectorErrors(a, c.rest, VectorWidths);
        if n.Ok? { VectorErrors(a, n.rest, IndexWidths); }
      }
    }
  }

  /** What can go wrong with a tree. */
  lemma {:induction false} TreeErrors(a: Arch, s: seq<Byte>)
    requires a.Valid()
    ensures ParseNode(a, s) != Err(WrongVersion) && ParseNode(a, s) != Err(NotRoot)
    decreases |s|, 0
  {
    var tag := PeekType(a, s);
    if tag.Ok? && tag.value == NODE_TYPE {
      var f := ReadRecord(a, s, NodeWidths(a));
      if f.Ok? {
        ChildErrors(a, f.rest);
        var l := ParseChild(a, f.rest);
        if l.Ok? { ChildErrors(a, l.rest); }
      }
    }
  }

  lemma {:induction false} ChildErrors(a: Arch, s: seq<Byte>)
    requires a.Valid()
    ensures ParseChild(a, s) != Err(WrongVersion) && ParseChild(a, s) != Err(NotRoot)
    decreases |s|, 1
  {
    var tag := PeekType(a, s);
    if tag.Ok? && tag.value == NODE_TYPE { TreeErrors(a, s); }
  }

  /** The tag decides what a node is read as: 0xde and 0xef are the only ones a child may have. */
  lemma TagDecides(a: Arch, s: seq<Byte>)
    requires a.Valid() && |s| >= a.wordBytes
    ensures var tag := Get(a, s[..a.wordBytes]);
      && ParseChild(a, s) == (if tag == 0xde then ParseNode(a, s) else if tag == 0xef then ParseLeaf(a, s) else Err(NeitherNodeNorLeaf))
      && (tag != 0xde ==> ParseNode(a, s) == Err(NotNode))
      && (tag != 0xef ==> ParseLeaf(a, s) == Err(NotLeaf))
  {
  }
}
