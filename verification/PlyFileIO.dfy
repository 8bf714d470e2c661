/** The loops of ply_put_element and binary_get_element (examples/eqPly/plyfile.cpp), proved to
    write and read what PlyElements says. */
module PlyFileIO {
  import opened Sequences
  import opened Bytes
  import opened PlyItems
  import opened PlyElements

  ghost predicate TypesOk(ps: seq<Property>) {
    forall j :: 0 <= j < |ps| ==> ps[j].external != Invalid && (ps[j].isList ==> ps[j].countExternal != Invalid)
  }

  lemma {:induction false} StorePrefix(f: Floats, ps: seq<Property>, named: seq<bool>, otherFlag: bool, xs: seq<Field>,
                                       x: Field, n: nat, mem: Memory)
    requires n <= |ps| == |named| && n <= |xs|
    ensures StoreElement(f, ps, named, otherFlag, xs + [x], n, mem) == StoreElement(f, ps, named, otherFlag, xs, n, mem)
  {
    if n > 0 {
      StorePrefix(f, ps, named, otherFlag, xs, x, n - 1, mem);
      assert (xs + [x])[n - 1] == xs[n - 1];
    }
  }

  /** An open binary file: what was written so far, what is left to read. */
  class PlyFile {
    const f: Floats
    const bigEndian: bool
    var written: seq<Byte>
    var unread: seq<Byte>

    constructor (f: Floats, bigEndian: bool, content: seq<Byte>)
      ensures this.f == f && this.bigEndian == bigEndian && written == [] && unread == content
    {
      this.f, this.bigEndian := f, bigEndian;
      written, unread := [], content;
    }

    // ---- Writing --------------------------------------------------------------------------

    method WriteBinaryItem(v: Values, t: PlyType)
      requires t != Invalid
      modifies this`written
      ensures written == old(written) + WriteItem(f, bigEndian, t, v)
    {
      var item := Save(f, t, v);
      if bigEndian && t != UShort {
        item := Reversed(item);
      }
      written := written + item;
    }

    method WriteItems(t: PlyType, internal: PlyType, items: seq<seq<Byte>>, n: nat)
      requires t != Invalid
      modifies this`written
      ensures written == old(written) + ItemsBytes(f, bigEndian, t, LoadAll(f, internal, items, n), n)
    {
      var k := 0;
      ghost var values := LoadAll(f, internal, items, n);
      while k < n
        invariant k <= n && written == old(written) + ItemsBytes(f, bigEndian, t, values, k)
      {
        WriteBinaryItem(Load(f, internal, Nth(items, k)), t);
        var next := k + 1;
        MoreItems(f, bigEndian, t, values, k, next, old(written), WriteItem(f, bigEndian, t, values[k]));
        k := next;
      }
    }

    method PutField(p: Property, mem: Struct)
      requires p.external != Invalid && (p.isList ==> p.countExternal != Invalid)
      modifies this`written
      ensures written == old(written) + FieldBytes(f, bigEndian, p, FieldOf(f, p, mem))
    {
      if p.isList {
        var count := Load(f, p.countInternal, ItemAt(mem, p.countOffset));
        WriteBinaryItem(count, p.countExternal);
        var listCount := WriteLength(count);
        WriteItems(p.external, p.internal, ArrayAt(mem, p.offset), listCount);
        Associate(old(written), WriteItem(f, bigEndian, p.countExternal, count),
                ItemsBytes(f, bigEndian, p.external, LoadAll(f, p.internal, ArrayAt(mem, p.offset), listCount), listCount));
      } else {
        WriteBinaryItem(Load(f, p.internal, ItemAt(mem, p.offset)), p.external);
      }
    }

    method PutElement(ps: seq<Property>, named: seq<bool>, user: Struct, other: Struct)
      requires |ps| == |named| && TypesOk(ps)
      modifies this`written
      ensures written == old(written) + ElementBytes(f, bigEndian, ps, FieldsOf(f, ps, named, user, other), |ps|)
    {
      var j := 0;
      ghost var xs := FieldsOf(f, ps, named, user, other);
      while j < |ps|
        invariant j <= |ps| && written == old(written) + ElementBytes(f, bigEndian, ps, xs, j)
      {
        PutField(ps[j], if named[j] then user else other);
        var next := j + 1;
        MoreBytes(f, bigEndian, ps, xs, j, next, old(written), FieldBytes(f, bigEndian, ps[j], xs[j]));
        j := next;
      }
    }

    // ---- Reading --------------------------------------------------------------------------

    /** ok is false where the source aborts: the file ends early or the type is bad. */
    method GetBinaryItem(t: PlyType) returns (ok: bool, v: Values)
      modifies this`unread
      ensures ParseItem(f, bigEndian, t, old(unread)) == if ok then Done(v, unread) else Aborted
    {
      var n := Size(t);
      if t == Invalid || |unread| < n {
        return false, Values(0, 0, 0);
      }
      ok, v := true, ReadItem(f, bigEndian, t, unread[..n]);
      unread := unread[n..];
    }

    /** Reads and stores the items of a list one by one. */
    method GetItems(t: PlyType, internal: PlyType, n: nat)
      returns (ok: bool, cells: seq<seq<Byte>>, ghost values: seq<Values>)
      modifies this`unread
      ensures ParseItems(f, bigEndian, t, n, old(unread)) == if ok then Done(values, unread) else Aborted
      ensures ok ==> |cells| == |values| == n && forall k :: 0 <= k < n ==> cells[k] == Save(f, internal, values[k])
    {
      ghost var s := unread;
      cells, values := [], [];
      var k := 0;
      while k < n
        invariant k <= n && |cells| == |values| == k
        invariant forall i :: 0 <= i < k ==> cells[i] == Save(f, internal, values[i])
        invariant ParseItems(f, bigEndian, t, k, s) == Done(values, unread)
      {
        ghost var mid := unread;
        var got, v := GetBinaryItem(t);
        var next := k + 1;
        if !got {
          ItemsFail(f, bigEndian, t, k, next, s, values, mid);
          ItemsAbort(f, bigEndian, t, next, n, s);
          return false, [], [];
        }
        ItemsStep(f, bigEndian, t, next, k, s, values, mid, v, unread);
        cells, values := cells + [Save(f, internal, v)], values + [v];
        k := next;
      }
      ok := true;
    }

    /** One property: the user's or the other struct gets it if it is to be stored. */
    method GetField(p: Property, storeIt: bool, mem: Struct) returns (ok: bool, result: Struct, ghost x: Field)
      modifies this`unread
      ensures ParseField(f, bigEndian, p, old(unread)) == if ok then Done(x, unread) else Aborted
      ensures ok ==> result == if storeIt then StoreField(f, p, x, mem) else mem
    {
      result, x := mem, Scalar(Values(0, 0, 0));
      if p.isList {
        var got, count := GetBinaryItem(p.countExternal);
        if !got {
          return false, mem, x;
        }
        var cells;
        ghost var values;
        got, cells, values := GetItems(p.external, p.internal, ListLength(count));
        if !got {
          return false, mem, x;
        }
        if storeIt {
          result := mem[p.countOffset := Item(Save(f, p.countInternal, count))][p.offset := Array(cells)];
        }
        assert cells == SaveAll(f, p.internal, values);
        ok, x := true, List(count, values);
      } else {
        var got, v := GetBinaryItem(p.external);
        if !got {
          return false, mem, x;
        }
        if storeIt {
          result := mem[p.offset := Item(Save(f, p.internal, v))];
        }
        ok, x := true, Scalar(v);
      }
    }

    method BinaryGetElement(ps: seq<Property>, named: seq<bool>, otherFlag: bool, mem: Memory)
      returns (ok: bool, result: Memory)
      requires |ps| == |named|
      modifies this`unread
      ensures GetElement(f, bigEndian, ps, named, otherFlag, mem, old(unread)) == if ok then Done(result, unread) else Aborted
    {
      result := mem;
      ghost var s, xs := unread, [];
      var j := 0;
      while j < |ps|
        invariant j <= |ps| && |xs| == j && ParseElement(f, bigEndian, ps, j, s) == Done(xs, unread)
        invariant result == StoreElement(f, ps, named, otherFlag, xs, j, mem)
      {
        ghost var mid := unread;
        var got, after;
        ghost var x;
        got, after, x := GetField(ps[j], named[j] || otherFlag, if named[j] then result.user else result.other);
        var next := j + 1;
        if !got {
          ElementFails(f, bigEndian, ps, j, next, s, xs, mid);
          ElementAborts(f, bigEndian, ps, next, |ps|, s);
          return false, mem;
        }
        ElementStep(f, bigEndian, ps, next, j, s, xs, mid, x, unread);
        StoreNext(f, ps, named, otherFlag, xs, x, j, next, mem);
        result := if named[j] then Memory(after, result.other) else Memory(result.user, after);
        xs := xs + [x];
        j := next;
      }
      ok := true;
    }
  }

  lemma MoreItems(f: Floats, be: bool, t: PlyType, items: seq<Values>, k: nat, next: nat, front: seq<Byte>, last: seq<Byte>)
    requires next == k + 1 && next <= |items| && last == WriteItem(f, be, t, items[k])
    ensures front + ItemsBytes(f, be, t, items, k) + last == front + ItemsBytes(f, be, t, items, next)
  {
    Associate(front, ItemsBytes(f, be, t, items, k), last);
    ConcatNext(ItemChunks(f, be, t, items), next, k);
  }

  lemma MoreBytes(f: Floats, be: bool, ps: seq<Property>, xs: seq<Field>, j: nat, next: nat, front: seq<Byte>, last: seq<Byte>)
    requires next == j + 1 && next <= |ps| && |ps| == |xs| && last == FieldBytes(f, be, ps[j], xs[j])
    ensures front + ElementBytes(f, be, ps, xs, j) + last == front + ElementBytes(f, be, ps, xs, next)
  {
    Associate(front, ElementBytes(f, be, ps, xs, j), last);
    ConcatNext(Chunks(f, be, ps, xs), next, j);
  }

  lemma ItemsFail(f: Floats, be: bool, t: PlyType, k: nat, next: nat, s: seq<Byte>, front: seq<Values>, mid: seq<Byte>)
    requires next == k + 1 && ParseItems(f, be, t, k, s) == Done(front, mid) && ParseItem(f, be, t, mid) == Aborted
    ensures ParseItems(f, be, t, next, s) == Aborted
  {
  }

  lemma {:induction false} ItemsAbort(f: Floats, be: bool, t: PlyType, k: nat, n: nat, s: seq<Byte>)
    requires k <= n && ParseItems(f, be, t, k, s) == Aborted
    ensures ParseItems(f, be, t, n, s) == Aborted
    decreases n
  {
    if k < n { ItemsAbort(f, be, t, k, n - 1, s); }
  }

  lemma ElementFails(f: Floats, be: bool, ps: seq<Property>, j: nat, next: nat, s: seq<Byte>, front: seq<Field>, mid: seq<Byte>)
    requires next == j + 1 <= |ps| && ParseElement(f, be, ps, j, s) == Done(front, mid)
    requires ParseField(f, be, ps[j], mid) == Aborted
    ensures ParseElement(f, be, ps, next, s) == Aborted
  {
  }

  lemma {:induction false} ElementAborts(f: Floats, be: bool, ps: seq<Property>, j: nat, n: nat, s: seq<Byte>)
    requires j <= n <= |ps| && ParseElement(f, be, ps, j, s) == Aborted
    ensures ParseElement(f, be, ps, n, s) == Aborted
    decreases n
  {
    if j < n { ElementAborts(f, be, ps, j, n - 1, s); }
  }

  lemma StoreNext(f: Floats, ps: seq<Property>, named: seq<bool>, otherFlag: bool, xs: seq<Field>, x: Field, j: nat, next: nat, mem: Memory)
    requires next == j + 1 <= |ps| == |named| && j == |xs|
    ensures StoreElement(f, ps, named, otherFlag, xs + [x], next, mem)
         == StoreOne(f, ps[j], x, named[j], otherFlag, StoreElement(f, ps, named, otherFlag, xs, j, mem))
  {
    StorePrefix(f, ps, named, otherFlag, xs, x, j, mem);
  }
}
