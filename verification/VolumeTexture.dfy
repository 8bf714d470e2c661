/** Loading a slab of a raw volume into a texture whose sides are powers of two
    (examples/eVolve/rawVolModel.cpp). */
module VolumeTexture {
  import opened Bytes

  // ---- Powers of two ----------------------------------------------------------------------

  function Pow2(k: nat): (r: nat)
    ensures r > 0
  {
    if k == 0 then 1 else 2 * Pow2(k - 1)
  }

  /** How many bits a number has. */
  function BitLength(n: nat): nat { if n == 0 then 0 else 1 + BitLength(n / 2) }

  lemma {:induction false} BitLengthBounds(n: nat)
    ensures n < Pow2(BitLength(n))
    ensures n > 0 ==> Pow2(BitLength(n) - 1) <= n
  {
    if n > 0 {
      BitLengthBounds(n / 2);
      if n == 1 { assert n / 2 == 0; }
    }
  }

  lemma {:induction false} Pow2Grows(j: nat, k: nat)
    requires j <= k
    ensures Pow2(j) <= Pow2(k)
    decreases k - j
  {
    if j < k { Pow2Grows(j, k - 1); }
  }

  lemma Pow2At32()
    ensures Pow2(31) == 0x8000_0000 && Pow2(32) == 0x1_0000_0000
  {
    assert Pow2(8) == 0x100;
    assert Pow2(16) == 0x1_0000;
    assert Pow2(24) == 0x100_0000;
  }

  /** calcMinPow2 without its unsigned wrap-around. */
  function MinPow2(size: nat): (r: nat) { if size == 0 then 0 else Pow2(BitLength(size - 1)) }

  /** The least power of two that is not below size. */
  lemma MinPow2Least(size: nat, k: nat)
    requires size > 0
    ensures size <= MinPow2(size)
    ensures size <= Pow2(k) ==> MinPow2(size) <= Pow2(k)
  {
    var n := BitLength(size - 1);
    BitLengthBounds(size - 1);
    if size <= Pow2(k) {
      if k < n { Pow2Grows(k, n - 1); } else { Pow2Grows(n, k); }
    }
  }

  lemma MinPow2Fits(size: nat)
    requires 0 < size
    ensures MinPow2(size) <= 0x8000_0000 <==> size <= 0x8000_0000
  {
    Pow2At32();
    MinPow2Least(size, 31);
  }

  /** uint32_t: from 2^31 + 1 on the result is 0. */
  function MinPow2In32(size: nat): nat { if size <= 0x8000_0000 then MinPow2(size) else 0 }

  /** That is what the wrap-around makes of it. */
  lemma MinPow2Wraps(size: nat)
    requires size < 0x1_0000_0000
    ensures MinPow2In32(size) == MinPow2(size) % 0x1_0000_0000
  {
    if size > 0 {
      BitsOf32(size, BitLength(size - 1));
      if size <= 0x8000_0000 { MinPow2Fits(size); }
    }
  }

  ghost predicate IsPow2(n: nat) { exists k: nat :: n == Pow2(k) }

  /** The documentation promises a power of two greater than the size. It is one exactly for
      the sizes up to 2^31 that are not powers of two themselves. */
  lemma GreaterExactly(size: nat)
    ensures MinPow2In32(size) > size <==> 0 < size <= 0x8000_0000 && !IsPow2(size)
  {
    if 0 < size <= 0x8000_0000 {
      MinPow2Least(size, 0);
      assert MinPow2(size) == size ==> IsPow2(size);
      if IsPow2(size) {
        var k: nat :| size == Pow2(k);
        MinPow2Least(size, k);
      }
    }
  }

  lemma FourStaysFour()
    ensures MinPow2In32(4) == 4
  {
    MinPow2Least(4, 2);
    assert Pow2(2) == 4;
  }

  method CalcMinPow2(size: nat) returns (res: nat)
    requires size < 0x1_0000_0000
    ensures res == MinPow2In32(size)
  {
    if size == 0 {
      return 0;
    }
    var rest: nat := size - 1;
    res := 1;
    ghost var shifts: nat := 0;
    while rest > 0
      invariant shifts + BitLength(rest) == BitLength(size - 1)
      invariant res == Pow2(shifts) % 0x1_0000_0000
    {
      ShiftWraps(Pow2(shifts), res);
      res := (res * 2) % 0x1_0000_0000;
      rest := rest / 2;
      shifts := shifts + 1;
    }
    BitsOf32(size, shifts);
  }

  lemma ShiftWraps(x: nat, r: nat)
    requires r == x % 0x1_0000_0000
    ensures (2 * x) % 0x1_0000_0000 == (r * 2) % 0x1_0000_0000
  {
  }

  lemma BitsOf32(size: nat, n: nat)
    requires 0 < size < 0x1_0000_0000 && n == BitLength(size - 1)
    ensures Pow2(n) % 0x1_0000_0000 == if size <= 0x8000_0000 then Pow2(n) else 0
  {
    Pow2At32();
    BitLengthBounds(size - 1);
    if n < 32 { Pow2Grows(n, 31); } else { Pow2Grows(32, n); }
    if n > 32 { Pow2Grows(32, n - 1); }
    MinPow2Fits(size);
  }

  // ---- The slab ---------------------------------------------------------------------------

  function Clip(val: int, min: int, max: int): int {
    if val < min then min else if val > max then max else val
  }

  /** Conversion to int drops the fraction, towards zero. */
  function Truncate(x: real): int { if x >= 0.0 then x.Floor else -((-x).Floor) }

  function First(d: nat, start: real): int { FirstAt(d, d as real * start) }

  function Last(d: nat, end: real): int { LastAt(d, d as real * end) }

  function FirstAt(d: nat, y: real): int { Clip(Truncate(y), 0, d - 1) }

  function LastAt(d: nat, y: real): int { Clip(Truncate(y - 1.0), 0, d - 1) }

  /** With a border of two layers on either side. */
  function SlabStart(d: nat, start: real): int { Clip(First(d, start) - 2, 0, d - 1) }

  function SlabEnd(d: nat, end: real): int { Clip(Last(d, end) + 2, 0, d - 1) }

  /** Two ranges that meet share no layer and leave none out, unless the meeting point lies in
      the first layer, which both then hold. */
  lemma SlabsMeet(d: nat, x: real)
    requires d > 0 && 0.0 <= x < 1.0
    ensures Last(d, x) + 1 == First(d, x) <==> d as real * x >= 1.0
    ensures d as real * x < 1.0 ==> Last(d, x) == First(d, x) == 0
  {
    LessProduct(d as real, x);
    MeetAt(d, d as real * x);
  }

  lemma MeetAt(d: nat, y: real)
    requires d > 0 && 0.0 <= y < d as real
    ensures LastAt(d, y) + 1 == FirstAt(d, y) <==> y >= 1.0
    ensures y < 1.0 ==> LastAt(d, y) == FirstAt(d, y) == 0
  {
  }

  lemma LessProduct(d: real, x: real)
    requires d > 0.0 && 0.0 <= x < 1.0
    ensures 0.0 <= d * x < d
  {
    assert d * (1.0 - x) > 0.0;
    assert d * (1.0 - x) == d - d * x;
  }

  /** Layer k occupies the depths from k to k + 1. The range itself covers the layer in which it
      starts and those up to its end, but at least one layer at either side of the volume. */
  lemma RangeCovers(d: nat, x: real, k: int)
    requires 0 <= k < d && x >= 0.0
    ensures First(d, x) <= k <==> d as real * x < (k + 1) as real || k == d - 1
    ensures k <= Last(d, x) <==> (k + 1) as real <= d as real * x || k == 0
  {
    var y := d as real * x;
    assert y >= 0.0;
    CoversAt(d, y, k);
  }

  lemma CoversAt(d: nat, y: real, k: int)
    requires 0 <= k < d && y >= 0.0
    ensures FirstAt(d, y) <= k <==> y < (k + 1) as real || k == d - 1
    ensures k <= LastAt(d, y) <==> (k + 1) as real <= y || k == 0
  {
    var f, l := y.Floor, (y - 1.0).Floor;
    assert f as real <= y < (f + 1) as real && l as real <= y - 1.0 < (l + 1) as real;
  }

  /** Exactly the range's layers are loaded, with two more on either side as far as there are any. */
  lemma LayerLoaded(d: nat, start: real, end: real, k: int)
    requires 0 <= k < d && 0.0 <= start <= end <= 1.0
    ensures SlabStart(d, start) <= k <= SlabEnd(d, end) <==> First(d, start) - 2 <= k <= Last(d, end) + 2
    ensures SlabStart(d, start) <= k <= SlabEnd(d, end) <==>
            (d as real * start < (k + 3) as real || k + 3 >= d) && ((k - 1) as real <= d as real * end || k <= 2)
  {
    var m, n := if k + 2 < d then k + 2 else d - 1, if k >= 2 then k - 2 else 0;
    RangeCovers(d, start, m);
    RangeCovers(d, end, n);
  }

  // ---- The padded texture -----------------------------------------------------------------

  /** The file behind its end reads as nothing, and the texture starts out as zeros. */
  function FileByte(file: seq<Byte>, p: nat): Byte { if p < |file| then file[p] else 0 }

  function FileBytes(file: seq<Byte>, p: nat, n: nat): (r: seq<Byte>)
    ensures |r| == n && forall i :: 0 <= i < n ==> r[i] == FileByte(file, p + i)
  {
    seq<Byte>(n, i requires 0 <= i < n => FileByte(file, p + i))
  }

  function Zeros(n: nat): (r: seq<Byte>)
    ensures |r| == n && forall i :: 0 <= i < n ==> r[i] == 0
  {
    seq(n, i => 0)
  }

  /** The sizes of a texture: w4 bytes of each of h rows of each of depth layers come from the
      file, and there is room for tW4, tH and tD of them. */
  datatype Sizes = Sizes(w4: nat, h: nat, depth: nat, tW4: nat, tH: nat, tD: nat) {
    predicate Valid() { w4 <= tW4 && h <= tH && depth <= tD }
    function Layer(): nat { w4 * h }
    function TextureLayer(): nat { tW4 * tH }
    function All(): nat { tW4 * tH * tD }
  }

  /** The first n rows of a layer that starts at p in the file. */
  function Rows(s: Sizes, file: seq<Byte>, p: nat, n: nat): (r: seq<Byte>)
    requires s.Valid()
    ensures |r| == n * s.tW4
  {
    if n == 0 then []
    else
      var q := p + (n - 1) * s.w4;
      Rows(s, file, p, n - 1) + FileBytes(file, q, s.w4) + Zeros(s.tW4 - s.w4)
  }

  function PaddedLayer(s: Sizes, file: seq<Byte>, p: nat): (r: seq<Byte>)
    requires s.Valid()
  {
    Rows(s, file, p, s.h) + Zeros((s.tH - s.h) * s.tW4)
  }

  function Layers(s: Sizes, file: seq<Byte>, p: nat, n: nat): (r: seq<Byte>)
    requires s.Valid()
  {
    if n == 0 then []
    else
      var q := p + (n - 1) * s.Layer();
      Layers(s, file, p, n - 1) + PaddedLayer(s, file, q)
  }

  /** What the texture must be: the layers, then zeros. */
  ghost predicate Holds(data: seq<Byte>, a: seq<Byte>) {
    |a| <= |data| && data == a + Zeros(|data| - |a|)
  }

  // ---- Reading ----------------------------------------------------------------------------

  /** std::ifstream: after a read that ends early nothing is read any more. */
  class Stream {
    const content: seq<Byte>
    var pos: nat
    var good: bool
    ghost var next: nat   // where the next read was meant to start

    ghost predicate Valid() reads this {
      if good then pos == next else |content| <= next
    }

    constructor (content: seq<Byte>)
      ensures Valid() && this.content == content && good
    {
      this.content := content;
      pos, good, next := 0, true, 0;
    }

    method SeekG(p: nat)
      requires good
      modifies this
      ensures Valid() && next == p
    {
      pos, next := p, p;
    }

    /** Reads n bytes into zeroed memory. */
    method Read(data: array<Byte>, at: nat, n: nat, ghost a: seq<Byte>)
      requires Valid() && at + n <= data.Length && |a| == at && Holds(data[..], a)
      modifies this, data
      ensures Valid() && next == old(next) + n
      ensures Holds(data[..], a + FileBytes(content, old(next), n))
    {
      var count := 0;
      if good && pos < |content| {
        count := if n <= |content| - pos then n else |content| - pos;
      }
      Copy(data, at, pos, count, a);
      PadRead(content, pos, count, n, next, a, data[..]);
      pos, next := pos + count, next + n;
      good := good && count == n;
    }

    method Copy(data: array<Byte>, at: nat, from: nat, count: nat, ghost a: seq<Byte>)
      requires at + count <= data.Length && (count > 0 ==> from + count <= |content|)
      requires |a| == at && Holds(data[..], a)
      modifies data
      ensures Holds(data[..], a + FileBytes(content, from, count))
    {
      var i := 0;
      ghost var was := data[..];
      while i < count
        invariant i <= count
        invariant forall k :: 0 <= k < at ==> data[k] == was[k]
        invariant forall k :: at <= k < at + i ==> data[k] == FileByte(content, from + (k - at))
        invariant forall k :: at + i <= k < data.Length ==> data[k] == 0
      {
        data[at + i] := content[from + i];
        i := i + 1;
      }
      assert data[..] == a + FileBytes(content, from, count) + Zeros(data.Length - at - count);
    }
  }

  lemma PadRead(content: seq<Byte>, pos: nat, count: nat, n: nat, next: nat, a: seq<Byte>, data: seq<Byte>)
    requires count <= n && |a| + n <= |data| && Holds(data, a + FileBytes(content, pos, count))
    requires (count > 0 ==> pos == next) && (count < n ==> |content| <= next + count)
    ensures Holds(data, a + FileBytes(content, next, n))
  {
    var x, y := FileBytes(content, pos, count), FileBytes(content, next, n);
    assert y == x + Zeros(n - count);
  }

  // ---- The three ways to read -------------------------------------------------------------

  lemma NextMultiple(i: nat, n: nat, x: nat)
    requires n == i + 1
    ensures n * x == i * x + x
  {
  }

  lemma ZerosJoin(a: nat, b: nat)
    ensures Zeros(a) + Zeros(b) == Zeros(a + b)
  {
  }

  /** Memory that is zero behind a also holds a with zeros after it. */
  lemma HoldsMore(data: seq<Byte>, a: seq<Byte>, n: nat)
    requires Holds(data, a) && |a| + n <= |data|
    ensures Holds(data, a + Zeros(n))
  {
    ZerosJoin(n, |data| - |a| - n);
  }

  lemma FileBytesJoin(file: seq<Byte>, p: nat, m: nat, q: nat, n: nat)
    requires q == p + m
    ensures FileBytes(file, p, m) + FileBytes(file, q, n) == FileBytes(file, p, m + n)
  {
  }

  /** Rows that need no padding are one stretch of the file. */
  lemma {:induction false} FullRows(s: Sizes, file: seq<Byte>, p: nat, n: nat)
    requires s.Valid() && s.w4 == s.tW4
    ensures Rows(s, file, p, n) == FileBytes(file, p, n * s.w4)
  {
    if n > 0 {
      FullRows(s, file, p, n - 1);
      NextMultiple(n - 1, n, s.w4);
      FileBytesJoin(file, p, (n - 1) * s.w4, p + (n - 1) * s.w4, s.w4);
    }
  }

  lemma LayerLength(s: Sizes, file: seq<Byte>, p: nat)
    requires s.Valid()
    ensures |PaddedLayer(s, file, p)| == s.TextureLayer()
  {
    assert s.h * s.tW4 + (s.tH - s.h) * s.tW4 == s.tH * s.tW4;
  }

  lemma {:induction false} LayersLength(s: Sizes, file: seq<Byte>, p: nat, n: nat)
    requires s.Valid()
    ensures |Layers(s, file, p, n)| == n * s.TextureLayer()
  {
    if n > 0 {
      LayersLength(s, file, p, n - 1);
      LayerLength(s, file, p + (n - 1) * s.Layer());
      NextMultiple(n - 1, n, s.TextureLayer());
    }
  }

  lemma {:induction false} FullLayers(s: Sizes, file: seq<Byte>, p: nat, n: nat)
    requires s.Valid() && s.w4 == s.tW4 && s.h == s.tH
    ensures Layers(s, file, p, n) == FileBytes(file, p, n * s.Layer())
  {
    if n > 0 {
      FullLayers(s, file, p, n - 1);
      var q := p + (n - 1) * s.Layer();
      FullRows(s, file, q, s.h);
      NextMultiple(n - 1, n, s.Layer());
      FileBytesJoin(file, p, (n - 1) * s.Layer(), q, s.Layer());
    }
  }

  lemma LayersFit(s: Sizes, n: nat)
    requires s.Valid() && n <= s.tD
    ensures n * s.TextureLayer() <= s.All()
  {
    var x := s.TextureLayer();
    assert s.All() == s.tD * x;
    assert s.tD * x - n * x == (s.tD - n) * x;
  }

  method ReadLayers(stream: Stream, data: array<Byte>, s: Sizes)
    requires stream.Valid() && s.Valid() && data.Length == s.All() && Holds(data[..], [])
    modifies stream, data
    ensures Holds(data[..], Layers(s, stream.content, old(stream.next), s.depth))
  {
    ghost var p := stream.next;
    LayersLength(s, stream.content, p, s.depth);
    LayersFit(s, s.depth);
    if s.w4 == s.tW4 && s.h == s.tH {
      FullLayers(s, stream.content, p, s.depth);
      stream.Read(data, 0, s.depth * s.Layer(), []);
      assert [] + FileBytes(stream.content, p, s.depth * s.Layer()) == FileBytes(stream.content, p, s.depth * s.Layer());
    } else if s.w4 == s.tW4 {
      ReadLayerByLayer(stream, data, s);
    } else {
      ReadRowByRow(stream, data, s);
    }
  }

  /** One layer of the file without padding inside, as the second way reads it. */
  method ReadLayerByLayer(stream: Stream, data: array<Byte>, s: Sizes)
    requires stream.Valid() && s.Valid() && s.w4 == s.tW4 && data.Length == s.All() && Holds(data[..], [])
    modifies stream, data
    ensures Holds(data[..], Layers(s, stream.content, old(stream.next), s.depth))
  {
    ghost var p := stream.next;
    var i := 0;
    while i < s.depth
      invariant i <= s.depth && stream.Valid() && stream.next == p + i * s.Layer()
      invariant Holds(data[..], Layers(s, stream.content, p, i))
    {
      ReadLayer(stream, data, s, i, p);
      i := i + 1;
    }
  }

  method ReadLayer(stream: Stream, data: array<Byte>, s: Sizes, i: nat, ghost p: nat)
    requires stream.Valid() && s.Valid() && s.w4 == s.tW4 && data.Length == s.All() && i < s.depth
    requires stream.next == p + i * s.Layer() && Holds(data[..], Layers(s, stream.content, p, i))
    modifies stream, data
    ensures stream.Valid() && stream.next == p + (i + 1) * s.Layer()
    ensures Holds(data[..], Layers(s, stream.content, p, i + 1))
  {
    ghost var a, q := Layers(s, stream.content, p, i), stream.next;
    LayerRoom(s, stream.content, p, i);
    stream.Read(data, i * s.TextureLayer(), s.Layer(), a);
    FullRows(s, stream.content, q, s.h);
    HoldsLayer(s, stream.content, p, i, q, a, data[..]);
    NextMultiple(i, i + 1, s.Layer());
  }

  lemma MulGrows(a: nat, b: nat, x: nat)
    requires a <= b
    ensures a * x <= b * x && x * a <= x * b
  {
    assert (b - a) * x >= 0;
  }

  lemma LayerRoom(s: Sizes, file: seq<Byte>, p: nat, i: nat)
    requires s.Valid() && i < s.depth
    ensures |Layers(s, file, p, i)| == i * s.TextureLayer()
    ensures i * s.TextureLayer() + s.TextureLayer() <= s.All()
    ensures s.h * s.tW4 <= s.TextureLayer() && s.h * s.w4 <= s.h * s.tW4
  {
    LayersLength(s, file, p, i);
    NextMultiple(i, i + 1, s.TextureLayer());
    LayersFit(s, i + 1);
    MulGrows(s.h, s.tH, s.tW4);
    MulGrows(s.w4, s.tW4, s.h);
  }

  /** Rows and zeros make a layer. */
  lemma HoldsLayer(s: Sizes, file: seq<Byte>, p: nat, i: nat, q: nat, a: seq<Byte>, data: seq<Byte>)
    requires s.Valid() && i < s.depth && |data| == s.All() && q == p + i * s.Layer()
    requires a == Layers(s, file, p, i) && Holds(data, a + Rows(s, file, q, s.h))
    ensures Holds(data, Layers(s, file, p, i + 1))
  {
    var rest := (s.tH - s.h) * s.tW4;
    LayerRoom(s, file, p, i);
    LayerLength(s, file, q);
    HoldsMore(data, a + Rows(s, file, q, s.h), rest);
    assert a + Rows(s, file, q, s.h) + Zeros(rest) == a + PaddedLayer(s, file, q);
  }

  method ReadRowByRow(stream: Stream, data: array<Byte>, s: Sizes)
    requires stream.Valid() && s.Valid() && data.Length == s.All() && Holds(data[..], [])
    modifies stream, data
    ensures Holds(data[..], Layers(s, stream.content, old(stream.next), s.depth))
  {
    ghost var p := stream.next;
    var i := 0;
    while i < s.depth
      invariant i <= s.depth && stream.Valid() && stream.next == p + i * s.Layer()
      invariant Holds(data[..], Layers(s, stream.content, p, i))
    {
      ReadRows(stream, data, s, i, p);
      i := i + 1;
    }
  }

  method ReadRows(stream: Stream, data: array<Byte>, s: Sizes, i: nat, ghost p: nat)
    requires stream.Valid() && s.Valid() && data.Length == s.All() && i < s.depth
    requires stream.next == p + i * s.Layer() && Holds(data[..], Layers(s, stream.content, p, i))
    modifies stream, data
    ensures stream.Valid() && stream.next == p + (i + 1) * s.Layer()
    ensures Holds(data[..], Layers(s, stream.content, p, i + 1))
  {
    ghost var a, q := Layers(s, stream.content, p, i), stream.next;
    assert a + Rows(s, stream.content, q, 0) == a;
    var j := 0;
    while j < s.h
      invariant j <= s.h && stream.Valid() && stream.next == q + j * s.w4
      invariant Holds(data[..], a + Rows(s, stream.content, q, j))
    {
      ReadRow(stream, data, s, i, j, p, q, a);
      j := j + 1;
    }
    HoldsLayer(s, stream.content, p, i, q, a, data[..]);
    NextMultiple(i, i + 1, s.Layer());
    assert s.h * s.w4 == s.Layer();
  }

  method ReadRow(stream: Stream, data: array<Byte>, s: Sizes, i: nat, j: nat, ghost p: nat, ghost q: nat, ghost a: seq<Byte>)
    requires stream.Valid() && s.Valid() && data.Length == s.All() && i < s.depth && j < s.h
    requires stream.next == q + j * s.w4 && a == Layers(s, stream.content, p, i)
    requires Holds(data[..], a + Rows(s, stream.content, q, j))
    modifies stream, data
    ensures stream.Valid() && stream.next == q + (j + 1) * s.w4
    ensures Holds(data[..], a + Rows(s, stream.content, q, j + 1))
  {
    ghost var b := a + Rows(s, stream.content, q, j);
    LayerRoom(s, stream.content, p, i);
    RowRoom(s, j);
    stream.Read(data, i * s.TextureLayer() + j * s.tW4, s.w4, b);
    NextMultiple(j, j + 1, s.w4);
    HoldsRow(s, stream.content, q, j, a, data[..]);
  }

  lemma RowRoom(s: Sizes, j: nat)
    requires s.Valid() && j < s.h
    ensures j * s.tW4 + s.tW4 <= s.TextureLayer()
  {
    NextMultiple(j, j + 1, s.tW4);
    MulGrows(j + 1, s.tH, s.tW4);
  }

  lemma HoldsRow(s: Sizes, file: seq<Byte>, q: nat, j: nat, a: seq<Byte>, data: seq<Byte>)
    requires s.Valid() && j < s.h && |a| + j * s.tW4 + s.tW4 <= |data|
    requires Holds(data, a + Rows(s, file, q, j) + FileBytes(file, q + j * s.w4, s.w4))
    ensures Holds(data, a + Rows(s, file, q, j + 1))
  {
    var x := FileBytes(file, q + j * s.w4, s.w4);
    HoldsMore(data, a + Rows(s, file, q, j) + x, s.tW4 - s.w4);
    assert a + Rows(s, file, q, j) + x + Zeros(s.tW4 - s.w4) == a + Rows(s, file, q, j + 1);
  }

  // ---- Voxels -----------------------------------------------------------------------------

  /** Where the file has byte k of row j of layer i. */
  function FileIndex(s: Sizes, p: nat, i: nat, j: nat, k: nat): nat {
    var layers: nat := i * s.Layer();
    var rows: nat := j * s.w4;
    p + layers + rows + k
  }

  lemma {:induction false} RowByte(s: Sizes, file: seq<Byte>, p: nat, n: nat, j: nat, k: nat, at: nat)
    requires s.Valid() && j < n && k < s.tW4 && at == j * s.tW4 + k
    ensures at < |Rows(s, file, p, n)|
    ensures Rows(s, file, p, n)[at] == if k < s.w4 then FileByte(file, FileIndex(s, p, 0, j, k)) else 0
  {
    var front := Rows(s, file, p, n - 1);
    NextMultiple(n - 1, n, s.tW4);
    if j < n - 1 {
      RowByte(s, file, p, n - 1, j, k, at);
    } else {
      assert at == |front| + k;
    }
  }

  lemma LayerByte(s: Sizes, file: seq<Byte>, p: nat, j: nat, k: nat, at: nat)
    requires s.Valid() && j < s.tH && k < s.tW4 && at == j * s.tW4 + k
    ensures at < |PaddedLayer(s, file, p)|
    ensures PaddedLayer(s, file, p)[at] == if j < s.h && k < s.w4 then FileByte(file, FileIndex(s, p, 0, j, k)) else 0
  {
    LayerLength(s, file, p);
    NextMultiple(j, j + 1, s.tW4);
    MulGrows(j + 1, s.tH, s.tW4);
    if j < s.h {
      RowByte(s, file, p, s.h, j, k, at);
    } else {
      MulGrows(s.h, j, s.tW4);
    }
  }

  lemma {:induction false} LayersByte(s: Sizes, file: seq<Byte>, p: nat, n: nat, i: nat, j: nat, k: nat, inLayer: nat, at: nat)
    requires s.Valid() && i < n && j < s.tH && k < s.tW4 && inLayer == j * s.tW4 + k
    requires at == i * s.TextureLayer() + inLayer
    ensures at < |Layers(s, file, p, n)|
    ensures Layers(s, file, p, n)[at] == if j < s.h && k < s.w4 then FileByte(file, FileIndex(s, p, i, j, k)) else 0
  {
    var front, q := Layers(s, file, p, n - 1), p + (n - 1) * s.Layer();
    LayersLength(s, file, p, n - 1);
    if i < n - 1 {
      LayersByte(s, file, p, n - 1, i, j, k, inLayer, at);
    } else {
      LayerByte(s, file, q, j, k, inLayer);
      assert at == |front| + inLayer;
    }
  }

  /** Whichever way was taken: every voxel of the volume is where the texture expects it, with
      the value it has in the file, and everything else is zero. */
  lemma VoxelInPlace(s: Sizes, file: seq<Byte>, p: nat, data: seq<Byte>, i: nat, j: nat, k: nat, at: nat)
    requires s.Valid() && |data| == s.All() && Holds(data, Layers(s, file, p, s.depth))
    requires i < s.tD && j < s.tH && k < s.tW4 && at == i * s.TextureLayer() + (j * s.tW4 + k)
    ensures at < |data|
    ensures data[at] == if i < s.depth && j < s.h && k < s.w4 then FileByte(file, FileIndex(s, p, i, j, k)) else 0
  {
    LayersLength(s, file, p, s.depth);
    InTexture(s, i, j, k, at);
    if i < s.depth {
      LayersByte(s, file, p, s.depth, i, j, k, j * s.tW4 + k, at);
    } else {
      MulGrows(s.depth, i, s.TextureLayer());
    }
  }

  lemma InTexture(s: Sizes, i: nat, j: nat, k: nat, at: nat)
    requires i < s.tD && j < s.tH && k < s.tW4 && at == i * s.TextureLayer() + (j * s.tW4 + k)
    ensures at < s.All()
  {
    var x := s.TextureLayer();
    NextMultiple(j, j + 1, s.tW4);
    MulGrows(j + 1, s.tH, s.tW4);
    NextMultiple(i, i + 1, x);
    MulGrows(i + 1, s.tD, x);
    assert s.All() == s.tD * x;
  }

  // ---- The whole load ---------------------------------------------------------------------

  function Depth(d: nat, start: real, end: real): int { SlabEnd(d, end) - SlabStart(d, start) + 1 }

  lemma DepthPositive(d: nat, start: real, end: real)
    requires d > 0 && 0.0 <= start <= end <= 1.0
    ensures 0 <= SlabStart(d, start) < d && 1 <= Depth(d, start, end) <= d
  {
    var x, y := d as real * start, d as real * end;
    assert y - x == d as real * (end - start);
    assert d as real * (end - start) >= 0.0;
    DepthAt(d, x, y);
  }

  lemma DepthAt(d: nat, x: real, y: real)
    requires d > 0 && x <= y
    ensures FirstAt(d, x) <= LastAt(d, y) + 1
  {
  }

  /** The texture of the layers that range [start, end] of the volume needs. */
  function TextureSizes(w: nat, h: nat, d: nat, bytes: nat, start: real, end: real): Sizes
    requires d > 0 && 0.0 <= start <= end <= 1.0
  {
    DepthPositive(d, start, end);
    var depth: nat := Depth(d, start, end);
    Sizes(w * bytes, h, depth, MinPow2(w) * bytes, MinPow2(h), MinPow2(depth))
  }

  lemma TextureSizesValid(w: nat, h: nat, d: nat, bytes: nat, start: real, end: real)
    requires w > 0 && h > 0 && d > 0 && 0.0 <= start <= end <= 1.0
    ensures TextureSizes(w, h, d, bytes, start, end).Valid()
  {
    DepthPositive(d, start, end);
    MinPow2Least(w, 0);
    MinPow2Least(h, 0);
    MinPow2Least(Depth(d, start, end), 0);
    MulGrows(w, MinPow2(w), bytes);
  }

  /** What data must hold after loading the range from the file: the sizes and all layers. */
  ghost predicate Loaded(file: seq<Byte>, w: nat, h: nat, d: nat, bytes: nat, start: real, end: real, data: seq<Byte>)
    requires d > 0 && 0.0 <= start <= end <= 1.0
  {
    var s := TextureSizes(w, h, d, bytes, start, end);
    && s.Valid() && |data| == s.All()
    && SlabStart(d, start) >= 0
    && Holds(data, Layers(s, file, FileIndex(s, 0, SlabStart(d, start), 0, 0), s.depth))
  }

  /** Where byte k of row j of layer i is, if a row has the given bytes and a layer the given rows. */
  function ByteAt(row: nat, rows: nat, i: nat, j: nat, k: nat): nat { i * (row * rows) + (j * row + k) }

  /** Byte by byte: the texture's width, height and depth are powers of two, its layer i is layer
      SlabStart + i of the volume, row by row as in the file, and everything behind the volume's
      width and height and the slab's depth is zero. */
  lemma TextureByte(file: seq<Byte>, w: nat, h: nat, d: nat, bytes: nat, start: real, end: real, data: seq<Byte>,
                    i: nat, j: nat, k: nat)
    requires w > 0 && h > 0 && d > 0 && 0.0 <= start <= end <= 1.0
    requires Loaded(file, w, h, d, bytes, start, end, data)
    requires i < MinPow2(Depth(d, start, end)) && j < MinPow2(h) && k < MinPow2(w) * bytes
    ensures |data| == MinPow2(w) * bytes * MinPow2(h) * MinPow2(Depth(d, start, end))
    ensures ByteAt(MinPow2(w) * bytes, MinPow2(h), i, j, k) < |data|
    ensures data[ByteAt(MinPow2(w) * bytes, MinPow2(h), i, j, k)] ==
            if i <= SlabEnd(d, end) - SlabStart(d, start) && j < h && k < w * bytes
               && ByteAt(w * bytes, h, SlabStart(d, start) + i, j, k) < |file|
            then file[ByteAt(w * bytes, h, SlabStart(d, start) + i, j, k)] else 0
  {
    var s, first := TextureSizes(w, h, d, bytes, start, end), SlabStart(d, start);
    SizedByte(s, file, first, data, i, j, k);
  }

  lemma SizedByte(s: Sizes, file: seq<Byte>, first: nat, data: seq<Byte>, i: nat, j: nat, k: nat)
    requires s.Valid() && |data| == s.All() && Holds(data, Layers(s, file, FileIndex(s, 0, first, 0, 0), s.depth))
    requires i < s.tD && j < s.tH && k < s.tW4
    ensures ByteAt(s.tW4, s.tH, i, j, k) < |data|
    ensures data[ByteAt(s.tW4, s.tH, i, j, k)] ==
            if i < s.depth && j < s.h && k < s.w4 then FileByte(file, ByteAt(s.w4, s.h, first + i, j, k)) else 0
  {
    VoxelInPlace(s, file, FileIndex(s, 0, first, 0, 0), data, i, j, k, ByteAt(s.tW4, s.tH, i, j, k));
    LayersAdd(first, i, first + i, s.Layer());
  }

  lemma LayersAdd(a: nat, b: nat, n: nat, x: nat)
    requires n == a + b
    ensures n * x == a * x + b * x
  {
  }

  /** The sizes must fit the 32-bit arithmetic of the source. */
  method CreateVolumeTexture(stream: Stream, w: nat, h: nat, d: nat, bytes: nat, start: real, end: real)
    returns (data: array<Byte>)
    requires 0 < w <= 0x8000_0000 && 0 < h <= 0x8000_0000 && 0 < d <= 0x8000_0000 && (bytes == 1 || bytes == 4)
    requires 0.0 <= start <= end <= 1.0 && stream.good
    requires TextureSizes(w, h, d, bytes, start, end).All() < 0x1_0000_0000 && w * h * bytes * d < 0x1_0000_0000
    modifies stream
    ensures Loaded(stream.content, w, h, d, bytes, start, end, data[..])
  {
    DepthPositive(d, start, end);
    TextureSizesValid(w, h, d, bytes, start, end);
    var first, depth := SlabStart(d, start), Depth(d, start, end);
    var tW := CalcMinPow2(w);
    var tH := CalcMinPow2(h);
    var tD := CalcMinPow2(depth);
    var s := Sizes(w * bytes, h, depth, tW * bytes, tH, tD);
    data := new Byte[s.All()](i => 0);
    assert data[..] == [] + Zeros(data.Length);
    stream.SeekG(FileIndex(s, 0, first, 0, 0));
    ReadLayers(stream, data, s);
  }
}
