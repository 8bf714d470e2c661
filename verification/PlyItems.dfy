/** Single numbers in binary PLY files (examples/eqPly/plyfile.cpp) on a little-endian host:
    how items are converted between memory, the three intermediate values and the file. */
module PlyItems {
  import opened Bytes

  datatype PlyType =
    | Invalid | Char | Short | Int | UChar | UShort | UInt | Float | Double | Float32 | UInt8 | Int32

  /** ply_type_size. */
  function Size(t: PlyType): nat {
    match t
    case Invalid => 0
    case Char | UChar | UInt8 => 1
    case Short | UShort => 2
    case Int | UInt | Float | Float32 | Int32 => 4
    case Double => 8
  }

  predicate IsSigned(t: PlyType) { t in {Char, Short, Int, Int32} }
  predicate IsUnsigned(t: PlyType) { t in {UChar, UInt8, UShort, UInt} }
  predicate IsFloat(t: PlyType) { t in {Float, Float32} }

  /** The floating point conversions of the host, on bit patterns. */
  datatype Floats = Floats(widen: nat -> nat, narrow: nat -> nat, ofInteger: int -> nat, toInt: nat -> int, toUint: nat -> nat)

  /** Converting a float to double and back changes nothing. */
  ghost predicate FloatsOk(f: Floats) {
    && (forall n: nat :: n < 0x1_0000_0000 ==> f.narrow(f.widen(n)) == n)
    && (forall n: nat :: f.narrow(n) < 0x1_0000_0000)
  }

  /** int_val, uint_val and double_val. */
  datatype Values = Values(int_: int, uint_: nat, double_: nat)

  function Unsigned32(i: int): nat { i % 0x1_0000_0000 }

  function Signed32(u: nat): int { if u < 0x8000_0000 then u else u - 0x1_0000_0000 }

  /** Sign extension of an n of the given number of bytes. */
  function Extend(n: nat, size: nat): int {
    if size == 1 then (if n < 0x80 then n else n - 0x100)
    else if size == 2 then (if n < 0x8000 then n else n - 0x1_0000)
    else Signed32(n)
  }

  /** get_stored_item, and get_binary_item after its swap. */
  function Load(f: Floats, t: PlyType, m: seq<Byte>): Values {
    var n := Number(m);
    if IsSigned(t) then var i := Extend(n, Size(t)); Values(i, Unsigned32(i), f.ofInteger(i))
    else if IsUnsigned(t) then Values(Signed32(n), n, f.ofInteger(n))
    else var d := if IsFloat(t) then f.widen(n) else n; Values(f.toInt(d), f.toUint(d), d)
  }

  /** store_item, and write_binary_item before its swap. */
  function Save(f: Floats, t: PlyType, v: Values): (m: seq<Byte>)
    ensures |m| == Size(t)
  {
    if IsSigned(t) then Digits(Unsigned32(v.int_), Size(t))
    else if IsUnsigned(t) then Digits(v.uint_, Size(t))
    else if IsFloat(t) then Digits(f.narrow(v.double_), 4)
    else if t == Double then Digits(v.double_, 8)
    else []
  }

  lemma Powers()
    ensures Pow256(1) == 0x100 && Pow256(2) == 0x1_0000 && Pow256(4) == 0x1_0000_0000
  {
    assert Pow256(3) == 0x100_0000;
  }

  /** Only the low bytes matter. */
  lemma {:induction false} DigitsLow(n: nat, m: nat, k: nat)
    requires n % Pow256(k) == m % Pow256(k)
    ensures Digits(n, k) == Digits(m, k)
    decreases k
  {
    if k > 0 {
      LowParts(n, m, Pow256(k - 1));
      DigitsLow(n / 256, m / 256, k - 1);
    }
  }

  lemma LowParts(n: nat, m: nat, p: nat)
    requires p > 0 && n % (256 * p) == m % (256 * p)
    ensures n % 256 == m % 256 && (n / 256) % p == (m / 256) % p
  {
    LowPart(n, p);
    LowPart(m, p);
  }

  lemma LowPart(n: nat, p: nat)
    requires p > 0
    ensures (n % (256 * p)) % 256 == n % 256 && (n % (256 * p)) / 256 == (n / 256) % p
  {
    var q, r := n / (256 * p), n % (256 * p);
    var a, b := r / 256, r % 256;
    assert n == 256 * (q * p + a) + b;
    assert n / 256 == q * p + a;
    assert 0 <= a < p;
    DivUnique(n / 256, p, q, a);
  }

  lemma MulAtLeast(k: int, p: nat)
    ensures (k >= 1 ==> k * p >= p) && (k <= -1 ==> k * p <= -1 * p)
  {
  }

  lemma DivUnique(n: nat, p: nat, q: nat, a: nat)
    requires p > 0 && n == q * p + a && a < p
    ensures n % p == a
  {
    var x, y := n / p, n % p;
    var d := x - q;
    assert d * p == a - y;
    MulAtLeast(d, p);
    assert d == 0;
  }

  // ---- Memory to values and back ----------------------------------------------------------

  lemma ExtendBack(n: nat, size: nat)
    requires (size == 1 && n < 0x100) || (size == 2 && n < 0x1_0000) || (size == 4 && n < 0x1_0000_0000)
    ensures size == 1 ==> Unsigned32(Extend(n, size)) % 0x100 == n
    ensures size == 2 ==> Unsigned32(Extend(n, size)) % 0x1_0000 == n
    ensures size == 4 ==> Unsigned32(Extend(n, size)) == n
  {
  }

  /** What is read from memory as a type is written back as that type unchanged. */
  lemma SaveOfLoad(f: Floats, t: PlyType, m: seq<Byte>)
    requires FloatsOk(f) && t != Invalid && |m| == Size(t)
    ensures Save(f, t, Load(f, t, m)) == m
  {
    DigitsOfNumber(m);
    Powers();
    var n := Number(m);
    if IsSigned(t) {
      ExtendBack(n, Size(t));
      DigitsLow(Unsigned32(Extend(n, Size(t))), n, Size(t));
    }
  }

  /** The values that a type can carry. */
  predicate Carries(f: Floats, t: PlyType, v: Values) {
    match t
    case Char => -0x80 <= v.int_ < 0x80 && Agree(f, v, v.int_)
    case Short => -0x8000 <= v.int_ < 0x8000 && Agree(f, v, v.int_)
    case Int | Int32 => -0x8000_0000 <= v.int_ < 0x8000_0000 && Agree(f, v, v.int_)
    case UChar | UInt8 => v.uint_ < 0x100 && Agree(f, v, v.uint_)
    case UShort => v.uint_ < 0x1_0000 && Agree(f, v, v.uint_)
    case UInt => v.uint_ < 0x1_0000_0000 && Agree(f, v, v.uint_)
    case Float | Float32 => v.double_ == f.widen(f.narrow(v.double_)) && OfDouble(f, v)
    case Double => v.double_ < 0x1_0000_0000_0000_0000 && OfDouble(f, v)
    case Invalid => false
  }

  /** The three values stand for one integer. */
  predicate Agree(f: Floats, v: Values, i: int) {
    v.uint_ == Unsigned32(i) && v.int_ == Signed32(v.uint_) && v.double_ == f.ofInteger(i)
  }

  predicate OfDouble(f: Floats, v: Values) {
    v.int_ == f.toInt(v.double_) && v.uint_ == f.toUint(v.double_)
  }

  predicate InRange(i: int, size: nat) {
    if size == 1 then -0x80 <= i < 0x80
    else if size == 2 then -0x8000 <= i < 0x8000
    else -0x8000_0000 <= i < 0x8000_0000
  }

  /** Cutting an integer down and extending it again. */
  lemma ExtendOfLow(i: int)
    ensures Extend(Unsigned32(i) % 0x100, 1) == i <==> InRange(i, 1)
    ensures Extend(Unsigned32(i) % 0x1_0000, 2) == i <==> InRange(i, 2)
    ensures Extend(Unsigned32(i) % 0x1_0000_0000, 4) == i <==> InRange(i, 4)
  {
  }

  lemma SignedAgrees(f: Floats, v: Values)
    requires InRange(v.int_, 4)
    ensures Values(v.int_, Unsigned32(v.int_), f.ofInteger(v.int_)) == v <==> Agree(f, v, v.int_)
  {
  }

  lemma LoadOfSaveSigned(f: Floats, t: PlyType, v: Values)
    requires IsSigned(t)
    ensures Load(f, t, Save(f, t, v)) == v <==> Carries(f, t, v)
  {
    Powers();
    DigitsNumber(Unsigned32(v.int_), Size(t));
    ExtendOfLow(v.int_);
    if InRange(v.int_, 4) { SignedAgrees(f, v); }
  }

  /** The number in the low k bytes. */
  lemma DigitsNumber(n: nat, k: nat)
    ensures Number(Digits(n, k)) == n % Pow256(k)
  {
    var p := Pow256(k);
    var m := n % p;
    DivUnique(m, p, 0, m);
    DigitsLow(n, m, k);
    NumberOfDigits(m, k);
  }

  lemma LoadOfSaveUnsigned(f: Floats, t: PlyType, v: Values)
    requires IsUnsigned(t)
    ensures Load(f, t, Save(f, t, v)) == v <==> Carries(f, t, v)
  {
    Powers();
    DigitsNumber(v.uint_, Size(t));
  }

  lemma LoadOfSaveFloat(f: Floats, t: PlyType, v: Values)
    requires FloatsOk(f) && IsFloat(t)
    ensures Load(f, t, Save(f, t, v)) == v <==> Carries(f, t, v)
  {
    Powers();
    NumberOfDigits(f.narrow(v.double_), 4);
  }

  lemma LoadOfSaveDouble(f: Floats, v: Values)
    ensures Load(f, Double, Save(f, Double, v)) == v <==> Carries(f, Double, v)
  {
    Power8();
    DigitsNumber(v.double_, 8);
  }

  /** Values come back through a type exactly when it carries them. */
  lemma LoadOfSave(f: Floats, t: PlyType, v: Values)
    requires FloatsOk(f) && t != Invalid
    ensures Load(f, t, Save(f, t, v)) == v <==> Carries(f, t, v)
  {
    if IsSigned(t) {
      LoadOfSaveSigned(f, t, v);
    } else if IsUnsigned(t) {
      LoadOfSaveUnsigned(f, t, v);
    } else if IsFloat(t) {
      LoadOfSaveFloat(f, t, v);
    } else {
      LoadOfSaveDouble(f, v);
    }
  }

  lemma Power8()
    ensures Pow256(8) == 0x1_0000_0000_0000_0000
  {
    Powers();
    assert Pow256(6) == 0x1_0000_0000_0000;
  }

  // ---- Items in the file ------------------------------------------------------------------

  /** write_binary_item. In a big-endian file the bytes are swapped, but for ushort the swap
      comes before the assignment and has no effect. */
  function WriteItem(f: Floats, bigEndian: bool, t: PlyType, v: Values): (r: seq<Byte>)
    ensures |r| == Size(t)
  {
    var m := Save(f, t, v);
    if bigEndian && t != UShort then Reversed(m) else m
  }

  /** get_binary_item on the item's bytes. */
  function ReadItem(f: Floats, bigEndian: bool, t: PlyType, bytes: seq<Byte>): Values {
    Load(f, t, if bigEndian then Reversed(bytes) else bytes)
  }

  lemma ItemRoundTrip(f: Floats, bigEndian: bool, t: PlyType, v: Values)
    requires FloatsOk(f) && Carries(f, t, v) && !(bigEndian && t == UShort)
    ensures ReadItem(f, bigEndian, t, WriteItem(f, bigEndian, t, v)) == v
  {
    LoadOfSave(f, t, v);
    ReversedTwice(Save(f, t, v));
  }

  lemma TwoDigits(n: nat, lo: Byte, hi: Byte)
    requires n < 0x1_0000 && lo == n % 256 && hi == n / 256
    ensures Number(Reversed(Digits(n, 2))) == hi + 256 * lo
  {
    assert Digits(hi, 1) == [hi];
    var s: seq<Byte> := [hi, lo];
    assert Reversed(Digits(n, 2)) == s;
    assert s[1..] == [lo];
    assert Number([lo]) == lo by { assert [lo][1..] == []; }
  }

  /** A big-endian ushort comes back exactly when its two bytes are equal. */
  lemma BigEndianUShort(f: Floats, v: Values)
    requires Carries(f, UShort, v)
    ensures ReadItem(f, true, UShort, WriteItem(f, true, UShort, v)) == v <==> v.uint_ / 256 == v.uint_ % 256
  {
    var n := v.uint_;
    TwoDigits(n, n % 256, n / 256);
  }
}
