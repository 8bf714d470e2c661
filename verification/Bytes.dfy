/** Fixed-width numbers in memory: how the mesh file stores words, floats and records. */
module Bytes {

  type Byte = b: nat | b < 256

  /** The host: file names carry both properties (getArchitectureFilename). */
  datatype Arch = Arch(wordBytes: nat, littleEndian: bool) {
    predicate Valid() { wordBytes == 4 || wordBytes == 8 }
  }

  function Pow256(k: nat): (r: nat)
    ensures r > 0
  {
    if k == 0 then 1 else 256 * Pow256(k - 1)
  }

  // ---- One number -----------------------------------------------------------------

  function Digits(n: nat, k: nat): (r: seq<Byte>)
    ensures |r| == k
    decreases k
  {
    if k == 0 then [] else [n % 256] + Digits(n / 256, k - 1)
  }

  function Number(s: seq<Byte>): nat {
    if s == [] then 0 else s[0] + 256 * Number(s[1..])
  }

  lemma {:induction false} NumberOfDigits(n: nat, k: nat)
    requires n < Pow256(k)
    ensures Number(Digits(n, k)) == n
    decreases k
  {
    if k > 0 {
      NumberOfDigits(n / 256, k - 1);
      assert Digits(n, k)[1..] == Digits(n / 256, k - 1);
    }
  }

  lemma {:induction false} DigitsOfNumber(s: seq<Byte>)
    ensures Number(s) < Pow256(|s|) && Digits(Number(s), |s|) == s
  {
    if s != [] {
      DigitsOfNumber(s[1..]);
      var r := Number(s[1..]);
      assert (s[0] + 256 * r) / 256 == r && (s[0] + 256 * r) % 256 == s[0];
      assert s == [s[0]] + s[1..];
    }
  }

  function Reversed(s: seq<Byte>): (r: seq<Byte>)
    ensures |r| == |s|
    ensures forall i :: 0 <= i < |s| ==> r[i] == s[|s| - 1 - i]
  {
    if s == [] then [] else Reversed(s[1..]) + [s[0]]
  }

  lemma ReversedTwice(s: seq<Byte>)
    ensures Reversed(Reversed(s)) == s
  {
  }

  /** n as k bytes in the host's order. */
  function Put(a: Arch, n: nat, k: nat): (r: seq<Byte>)
    ensures |r| == k
  {
    if a.littleEndian then Digits(n, k) else Reversed(Digits(n, k))
  }

  function Get(a: Arch, s: seq<Byte>): nat {
    Number(if a.littleEndian then s else Reversed(s))
  }

  lemma GetOfPut(a: Arch, n: nat, k: nat)
    requires n < Pow256(k)
    ensures Get(a, Put(a, n, k)) == n
  {
    NumberOfDigits(n, k);
    ReversedTwice(Digits(n, k));
  }

  lemma PutOfGet(a: Arch, s: seq<Byte>)
    ensures Get(a, s) < Pow256(|s|) && Put(a, Get(a, s), |s|) == s
  {
    var t := if a.littleEndian then s else Reversed(s);
    DigitsOfNumber(t);
    ReversedTwice(s);
  }

  // ---- A record of numbers with given widths ----------------------------------------

  predicate Fits(vals: seq<nat>, widths: seq<nat>) {
    |vals| == |widths| && forall i :: 0 <= i < |vals| ==> vals[i] < Pow256(widths[i])
  }

  function Width(widths: seq<nat>): nat {
    if widths == [] then 0 else widths[0] + Width(widths[1..])
  }

  function PutAll(a: Arch, vals: seq<nat>, widths: seq<nat>): (r: seq<Byte>)
    requires |vals| == |widths|
    ensures |r| == Width(widths)
  {
    if vals == [] then [] else Put(a, vals[0], widths[0]) + PutAll(a, vals[1..], widths[1..])
  }

  function GetAll(a: Arch, s: seq<Byte>, widths: seq<nat>): (r: seq<nat>)
    requires |s| == Width(widths)
    ensures |r| == |widths|
  {
    if widths == [] then [] else
      [Get(a, s[..widths[0]])] + GetAll(a, s[widths[0]..], widths[1..])
  }

  lemma {:induction false} GetAllOfPutAll(a: Arch, vals: seq<nat>, widths: seq<nat>)
    requires Fits(vals, widths)
    ensures GetAll(a, PutAll(a, vals, widths), widths) == vals
  {
    if vals != [] {
      var head, tail := Put(a, vals[0], widths[0]), PutAll(a, vals[1..], widths[1..]);
      assert (head + tail)[..widths[0]] == head && (head + tail)[widths[0]..] == tail;
      GetOfPut(a, vals[0], widths[0]);
      GetAllOfPutAll(a, vals[1..], widths[1..]);
    }
  }

  lemma {:induction false} PutAllOfGetAll(a: Arch, s: seq<Byte>, widths: seq<nat>)
    requires |s| == Width(widths)
    ensures Fits(GetAll(a, s, widths), widths)
    ensures PutAll(a, GetAll(a, s, widths), widths) == s
  {
    if widths != [] {
      var head, tail := s[..widths[0]], s[widths[0]..];
      PutOfGet(a, head);
      PutAllOfGetAll(a, tail, widths[1..]);
      Prepend(a, Get(a, head), GetAll(a, tail, widths[1..]), widths);
      assert s == head + tail;
    }
  }

  lemma Prepend(a: Arch, x: nat, xs: seq<nat>, widths: seq<nat>)
    requires |widths| > 0 && x < Pow256(widths[0]) && Fits(xs, widths[1..])
    ensures Fits([x] + xs, widths)
    ensures PutAll(a, [x] + xs, widths) == Put(a, x, widths[0]) + PutAll(a, xs, widths[1..])
  {
    assert ([x] + xs)[1..] == xs;
    forall i | 0 <= i < |widths| ensures ([x] + xs)[i] < Pow256(widths[i]) {
      assert i > 0 ==> xs[i - 1] < Pow256(widths[1..][i - 1]);
    }
  }
}
