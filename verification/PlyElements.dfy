/** Elements in binary PLY files (examples/eqPly/plyfile.cpp, ply_put_element and
    binary_get_element): properties are scalars or lists, in the program's memory at offsets
    and with types that the caller chooses. */
module PlyElements {
  import opened Sequences
  import opened Hiding
  import opened Bytes
  import opened PlyItems

  datatype Property = Property(isList: bool, external: PlyType, internal: PlyType, offset: nat,
                               countExternal: PlyType, countInternal: PlyType, countOffset: nat)

  /** What a program's struct has at an offset: an item, or a pointer to an array of items. */
  datatype Cell = Item(bytes: seq<Byte>) | Array(items: seq<seq<Byte>>)

  type Struct = map<nat, Cell>

  /** A property's value on its way between memory and file. */
  datatype Field = Scalar(value: Values) | List(count: Values, items: seq<Values>)

  datatype Parsed<T> = Done(value: T, rest: seq<Byte>) | Aborted

  function ItemAt(mem: Struct, offset: nat): seq<Byte> {
    if offset in mem && mem[offset].Item? then mem[offset].bytes else []
  }

  function ArrayAt(mem: Struct, offset: nat): seq<seq<Byte>> {
    if offset in mem && mem[offset].Array? then mem[offset].items else []
  }

  function Nth(items: seq<seq<Byte>>, k: nat): seq<Byte> { if k < |items| then items[k] else [] }

  // ---- Writing ----------------------------------------------------------------------------

  function LoadAll(f: Floats, t: PlyType, items: seq<seq<Byte>>, n: nat): (r: seq<Values>)
    ensures |r| == n && forall k :: 0 <= k < n ==> r[k] == Load(f, t, Nth(items, k))
  {
    seq(n, k requires 0 <= k < n => Load(f, t, Nth(items, k)))
  }

  /** list_count is a signed int: a count of 2^31 or more is negative and writes no items. */
  function WriteLength(count: Values): nat { if count.uint_ < 0x8000_0000 then count.uint_ else 0 }

  function FieldOf(f: Floats, p: Property, mem: Struct): Field {
    if p.isList then
      var count := Load(f, p.countInternal, ItemAt(mem, p.countOffset));
      List(count, LoadAll(f, p.internal, ArrayAt(mem, p.offset), WriteLength(count)))
    else Scalar(Load(f, p.internal, ItemAt(mem, p.offset)))
  }

  function Concat(chunks: seq<seq<Byte>>, n: nat): seq<Byte>
    requires n <= |chunks|
  {
    if n == 0 then [] else var i := n - 1; Concat(chunks, i) + chunks[i]
  }

  lemma ConcatNext(chunks: seq<seq<Byte>>, n: nat, i: nat)
    requires n == i + 1 && n <= |chunks|
    ensures Concat(chunks, n) == Concat(chunks, i) + chunks[i]
  {
  }

  function ItemChunks(f: Floats, be: bool, t: PlyType, items: seq<Values>): (r: seq<seq<Byte>>)
    ensures |r| == |items| && forall k :: 0 <= k < |items| ==> r[k] == WriteItem(f, be, t, items[k])
  {
    seq(|items|, k requires 0 <= k < |items| => WriteItem(f, be, t, items[k]))
  }

  /** The bytes of the first n items. */
  function ItemsBytes(f: Floats, be: bool, t: PlyType, items: seq<Values>, n: nat): seq<Byte>
    requires n <= |items|
  {
    Concat(ItemChunks(f, be, t, items), n)
  }

  function FieldBytes(f: Floats, be: bool, p: Property, x: Field): seq<Byte> {
    match x
    case Scalar(v) => WriteItem(f, be, p.external, v)
    case List(count, items) => WriteItem(f, be, p.countExternal, count) + ItemsBytes(f, be, p.external, items, |items|)
  }

  function Chunks(f: Floats, be: bool, ps: seq<Property>, xs: seq<Field>): (r: seq<seq<Byte>>)
    requires |ps| == |xs|
    ensures |r| == |ps| && forall j :: 0 <= j < |ps| ==> r[j] == FieldBytes(f, be, ps[j], xs[j])
  {
    seq(|ps|, j requires 0 <= j < |ps| => FieldBytes(f, be, ps[j], xs[j]))
  }

  /** The bytes of the first n properties. */
  function ElementBytes(f: Floats, be: bool, ps: seq<Property>, xs: seq<Field>, n: nat): seq<Byte>
    requires n <= |ps| == |xs|
  {
    Concat(Chunks(f, be, ps, xs), n)
  }

  /** The fields of an element: named ones from the user's struct, others from other_props. */
  function FieldsOf(f: Floats, ps: seq<Property>, named: seq<bool>, user: Struct, other: Struct): (r: seq<Field>)
    requires |ps| == |named|
    ensures |r| == |ps| && forall j :: 0 <= j < |ps| ==> r[j] == FieldOf(f, ps[j], if named[j] then user else other)
  {
    seq(|ps|, j requires 0 <= j < |ps| => FieldOf(f, ps[j], if named[j] then user else other))
  }

  // ---- Reading ----------------------------------------------------------------------------

  function ParseItem(f: Floats, be: bool, t: PlyType, s: seq<Byte>): Parsed<Values> {
    var n := Size(t);
    if t == Invalid || |s| < n then Aborted else Done(ReadItem(f, be, t, s[..n]), s[n..])
  }

  function ParseItems(f: Floats, be: bool, t: PlyType, n: nat, s: seq<Byte>): Parsed<seq<Values>> {
    if n == 0 then Done([], s)
    else
      match ParseItems(f, be, t, n - 1, s)
      case Aborted => Aborted
      case Done(front, rest) =>
        match ParseItem(f, be, t, rest)
        case Aborted => Aborted
        case Done(v, rest) => Done(front + [v], rest)
  }

  function ListLength(count: Values): nat { if count.int_ < 0 then 0 else count.int_ }

  function ParseField(f: Floats, be: bool, p: Property, s: seq<Byte>): Parsed<Field> {
    if p.isList then
      match ParseItem(f, be, p.countExternal, s)
      case Aborted => Aborted
      case Done(count, rest) =>
        (match ParseItems(f, be, p.external, ListLength(count), rest)
         case Aborted => Aborted
         case Done(items, rest) => Done(List(count, items), rest))
    else
      match ParseItem(f, be, p.external, s)
      case Aborted => Aborted
      case Done(v, rest) => Done(Scalar(v), rest)
  }

  function ParseElement(f: Floats, be: bool, ps: seq<Property>, n: nat, s: seq<Byte>): Parsed<seq<Field>>
    requires n <= |ps|
  {
    if n == 0 then Done([], s)
    else
      match ParseElement(f, be, ps, n - 1, s)
      case Aborted => Aborted
      case Done(front, rest) =>
        match ParseField(f, be, ps[n - 1], rest)
        case Aborted => Aborted
        case Done(x, rest) => Done(front + [x], rest)
  }

  function SaveAll(f: Floats, t: PlyType, items: seq<Values>): (r: seq<seq<Byte>>)
    ensures |r| == |items| && forall k :: 0 <= k < |items| ==> r[k] == Save(f, t, items[k])
  {
    seq(|items|, k requires 0 <= k < |items| => Save(f, t, items[k]))
  }

  function StoreField(f: Floats, p: Property, x: Field, mem: Struct): Struct {
    match x
    case Scalar(v) => mem[p.offset := Item(Save(f, p.internal, v))]
    case List(count, items) =>
      mem[p.countOffset := Item(Save(f, p.countInternal, count))][p.offset := Array(SaveAll(f, p.internal, items))]
  }

  /** The user's struct and other_props. */
  datatype Memory = Memory(user: Struct, other: Struct)

  /** Named properties go to the user's struct, the others to other_props if there are any. */
  function StoreOne(f: Floats, p: Property, x: Field, named: bool, otherFlag: bool, m: Memory): Memory {
    if named then Memory(StoreField(f, p, x, m.user), m.other)
    else if otherFlag then Memory(m.user, StoreField(f, p, x, m.other))
    else m
  }

  function StoreElement(f: Floats, ps: seq<Property>, named: seq<bool>, otherFlag: bool, xs: seq<Field>, n: nat, mem: Memory): Memory
    requires n <= |ps| == |named| && n <= |xs|
  {
    if n == 0 then mem
    else
      var i := n - 1;
      StoreOne(f, ps[i], xs[i], named[i], otherFlag, StoreElement(f, ps, named, otherFlag, xs, i, mem))
  }

  // ---- Lengths of lists -------------------------------------------------------------------

  /** The count is converted to a signed int: none of the items are written if that is negative. */
  lemma WrittenLength(f: Floats, p: Property, mem: Struct)
    requires p.isList
    ensures var x := FieldOf(f, p, mem);
      && x.List?
      && (x.count.uint_ < 0x1_0000_0000 ==>
            var n := Signed32(x.count.uint_); |x.items| == if n > 0 then n else 0)
  {
  }

  lemma {:induction false} ParsedLength(f: Floats, be: bool, t: PlyType, n: nat, s: seq<Byte>)
    ensures ParseItems(f, be, t, n, s).Done? ==> |ParseItems(f, be, t, n, s).value| == n
  {
    if n > 0 { ParsedLength(f, be, t, n - 1, s); }
  }

  /** As many items are read as the file's count says, and none if it is negative. */
  lemma ReadLength(f: Floats, be: bool, p: Property, s: seq<Byte>)
    requires p.isList && ParseField(f, be, p, s).Done?
    ensures var x := ParseField(f, be, p, s).value;
      && x.List? && |x.items| == (if x.count.int_ > 0 then x.count.int_ else 0)
      && |s| >= Size(p.countExternal) && x.count == ReadItem(f, be, p.countExternal, s[..Size(p.countExternal)])
  {
    match ParseItem(f, be, p.countExternal, s)
    case Done(count, rest) => ParsedLength(f, be, p.external, ListLength(count), rest);
  }

  // ---- Round trip -------------------------------------------------------------------------

  predicate ItemOk(f: Floats, be: bool, t: PlyType, v: Values) {
    Carries(f, t, v) && !(be && t == UShort)
  }

  /** The file's types carry the field, and a list is as long as its count says. */
  ghost predicate FieldOk(f: Floats, be: bool, p: Property, x: Field) {
    forall key {:trigger Unfold(key)} :: Unfold(key) ==> p.isList == x.List? && FieldCarried(f, be, p, x)
  }

  ghost predicate FieldCarried(f: Floats, be: bool, p: Property, x: Field) {
    match x
    case Scalar(v) => ItemOk(f, be, p.external, v)
    case List(count, items) =>
      && ItemOk(f, be, p.countExternal, count) && count.int_ == |items|
      && forall k :: 0 <= k < |items| ==> ItemOk(f, be, p.external, items[k])
  }

  lemma ParseOfWrite(f: Floats, be: bool, t: PlyType, v: Values, tail: seq<Byte>)
    requires FloatsOk(f) && ItemOk(f, be, t, v)
    ensures ParseItem(f, be, t, WriteItem(f, be, t, v) + tail) == Done(v, tail)
  {
    var item := WriteItem(f, be, t, v);
    ItemRoundTrip(f, be, t, v);
    assert (item + tail)[..Size(t)] == item && (item + tail)[Size(t)..] == tail;
  }

  lemma ItemsStep(f: Floats, be: bool, t: PlyType, n: nat, i: nat, s: seq<Byte>, front: seq<Values>,
                  mid: seq<Byte>, v: Values, rest: seq<Byte>)
    requires n == i + 1 && ParseItems(f, be, t, i, s) == Done(front, mid) && ParseItem(f, be, t, mid) == Done(v, rest)
    ensures ParseItems(f, be, t, n, s) == Done(front + [v], rest)
  {
  }

  lemma {:induction false} ParseOfItems(f: Floats, be: bool, t: PlyType, items: seq<Values>, n: nat, tail: seq<Byte>)
    requires FloatsOk(f) && n <= |items| && forall k :: 0 <= k < |items| ==> ItemOk(f, be, t, items[k])
    ensures ParseItems(f, be, t, n, ItemsBytes(f, be, t, items, n) + tail) == Done(items[..n], tail)
  {
    if n > 0 {
      var i, last := n - 1, WriteItem(f, be, t, items[n - 1]);
      var front := ItemsBytes(f, be, t, items, i);
      var behind := last + tail;
      ParseOfItems(f, be, t, items, i, behind);
      ParseOfWrite(f, be, t, items[i], tail);
      ItemsBytesNext(f, be, t, items, n, i, front, last);
      Associate(front, last, tail);
      ItemsStep(f, be, t, n, i, front + behind, items[..i], behind, items[i], tail);
      Prefix(items, n, i);
    }
  }

  lemma ItemsBytesNext(f: Floats, be: bool, t: PlyType, items: seq<Values>, n: nat, i: nat, front: seq<Byte>, last: seq<Byte>)
    requires n == i + 1 && n <= |items| && front == ItemsBytes(f, be, t, items, i) && last == WriteItem(f, be, t, items[i])
    ensures ItemsBytes(f, be, t, items, n) == front + last
  {
    ConcatNext(ItemChunks(f, be, t, items), n, i);
  }

  lemma ParseOfField(f: Floats, be: bool, p: Property, x: Field, tail: seq<Byte>)
    requires FloatsOk(f) && FieldOk(f, be, p, x)
    ensures ParseField(f, be, p, FieldBytes(f, be, p, x) + tail) == Done(x, tail)
  {
    assert Unfold(0);
    match x
    case Scalar(v) => ParseOfWrite(f, be, p.external, v, tail);
    case List(count, items) =>
      var first, bytes := WriteItem(f, be, p.countExternal, count), ItemsBytes(f, be, p.external, items, |items|);
      Associate(first, bytes, tail);
      ParseOfWrite(f, be, p.countExternal, count, bytes + tail);
      ParseOfItems(f, be, p.external, items, |items|, tail);
      assert items[..|items|] == items;
      ListStep(f, be, p, count, items, first + (bytes + tail), bytes + tail, tail);
  }

  lemma ListStep(f: Floats, be: bool, p: Property, count: Values, items: seq<Values>, s: seq<Byte>, mid: seq<Byte>, rest: seq<Byte>)
    requires p.isList && ParseItem(f, be, p.countExternal, s) == Done(count, mid) && ListLength(count) == |items|
    requires ParseItems(f, be, p.external, |items|, mid) == Done(items, rest)
    ensures ParseField(f, be, p, s) == Done(List(count, items), rest)
  {
  }

  /** The reader's and the writer's descriptions agree about the file. */
  predicate SameFormat(p: Property, q: Property) {
    p.isList == q.isList && p.external == q.external && (p.isList ==> p.countExternal == q.countExternal)
  }

  ghost predicate SameFormats(ps: seq<Property>, qs: seq<Property>) {
    |ps| == |qs| && forall j :: 0 <= j < |ps| ==> SameFormat(ps[j], qs[j])
  }

  lemma SameFieldBytes(f: Floats, be: bool, p: Property, q: Property, x: Field)
    requires SameFormat(p, q) && FieldOk(f, be, p, x)
    ensures FieldBytes(f, be, p, x) == FieldBytes(f, be, q, x) && FieldOk(f, be, q, x)
  {
    assert Unfold(0);
  }

  lemma ElementStep(f: Floats, be: bool, ps: seq<Property>, n: nat, i: nat, s: seq<Byte>, front: seq<Field>,
                    mid: seq<Byte>, x: Field, rest: seq<Byte>)
    requires n == i + 1 <= |ps| && ParseElement(f, be, ps, i, s) == Done(front, mid)
    requires ParseField(f, be, ps[i], mid) == Done(x, rest)
    ensures ParseElement(f, be, ps, n, s) == Done(front + [x], rest)
  {
  }

  lemma ParseOther(f: Floats, be: bool, p: Property, q: Property, x: Field, tail: seq<Byte>)
    requires FloatsOk(f) && SameFormat(p, q) && FieldOk(f, be, p, x)
    ensures ParseField(f, be, q, FieldBytes(f, be, p, x) + tail) == Done(x, tail)
  {
    SameFieldBytes(f, be, p, q, x);
    ParseOfField(f, be, q, x, tail);
  }

  lemma ElementBytesStep(f: Floats, be: bool, ps: seq<Property>, xs: seq<Field>, n: nat, i: nat, front: seq<Byte>,
                         tail: seq<Byte>, last: seq<Byte>)
    requires n == i + 1 && n <= |ps| && |ps| == |xs| && last == FieldBytes(f, be, ps[i], xs[i])
    requires front == ElementBytes(f, be, ps, xs, i)
    ensures ElementBytes(f, be, ps, xs, n) + tail == front + (last + tail)
  {
    ConcatNext(Chunks(f, be, ps, xs), n, i);
    Associate(front, last, tail);
  }

  lemma Prefix<T>(xs: seq<T>, n: nat, i: nat)
    requires n == i + 1 && n <= |xs|
    ensures xs[..n] == xs[..i] + [xs[i]]
  {
  }

  /** Reading what was written gives every field back and stops where the element ends. */
  lemma {:induction false} ParseOfElement(f: Floats, be: bool, ps: seq<Property>, qs: seq<Property>, xs: seq<Field>,
                                          n: nat, tail: seq<Byte>)
    requires FloatsOk(f) && SameFormats(ps, qs) && n <= |ps| == |xs|
    requires forall j :: 0 <= j < |ps| ==> FieldOk(f, be, ps[j], xs[j])
    ensures ParseElement(f, be, qs, n, ElementBytes(f, be, ps, xs, n) + tail) == Done(xs[..n], tail)
  {
    if n > 0 {
      var i := n - 1;
      var last := FieldBytes(f, be, ps[i], xs[i]);
      ParseOfElement(f, be, ps, qs, xs, i, last + tail);
      ParseOther(f, be, ps[i], qs[i], xs[i], tail);
      ElementBytesStep(f, be, ps, xs, n, i, ElementBytes(f, be, ps, xs, i), tail, last);
      Prefix(xs, n, i);
      ElementStep(f, be, qs, n, i, ElementBytes(f, be, ps, xs, n) + tail, xs[..i], last + tail, xs[i], tail);
    }
  }

  // ---- What ends up in memory -------------------------------------------------------------

  /** Offset o is one that the property is stored at. */
  predicate Uses(p: Property, o: nat) { o == p.offset || (p.isList && o == p.countOffset) }

  /** No two properties on one side, named or not, share an offset, nor do a list's count and
      pointer. */
  ghost predicate Disjoint(ps: seq<Property>, named: seq<bool>, side: bool) {
    && |ps| == |named|
    && (forall j :: 0 <= j < |ps| && named[j] == side && ps[j].isList ==> ps[j].offset != ps[j].countOffset)
    && (forall i, j, o: nat :: 0 <= i < j < |ps| && named[i] == named[j] == side && Uses(ps[i], o) ==> !Uses(ps[j], o))
  }

  /** Where the properties on a side go. */
  function Side(m: Memory, side: bool): Struct { if side then m.user else m.other }

  /** mem has the field where the property says, in the property's types. */
  predicate HasField(f: Floats, p: Property, x: Field, mem: Struct) {
    match x
    case Scalar(v) => p.offset in mem && mem[p.offset] == Item(Save(f, p.internal, v))
    case List(count, items) =>
      && p.offset in mem && mem[p.offset] == Array(SaveAll(f, p.internal, items))
      && p.countOffset in mem && mem[p.countOffset] == Item(Save(f, p.countInternal, count))
  }

  lemma StoreHas(f: Floats, p: Property, x: Field, mem: Struct)
    requires p.isList == x.List? && (p.isList ==> p.offset != p.countOffset)
    ensures HasField(f, p, x, StoreField(f, p, x, mem))
  {
  }

  lemma StoreKeeps(f: Floats, p: Property, x: Field, q: Property, y: Field, mem: Struct)
    requires p.isList == x.List? && q.isList == y.List? && HasField(f, p, x, mem)
    requires forall o: nat :: Uses(p, o) ==> !Uses(q, o)
    ensures HasField(f, p, x, StoreField(f, q, y, mem))
  {
    assert Uses(p, p.offset) && (p.isList ==> Uses(p, p.countOffset));
  }

  lemma Apart(ps: seq<Property>, named: seq<bool>, i: nat, j: nat)
    requires i < j < |ps| == |named| && named[i] == named[j] && Disjoint(ps, named, named[j])
    ensures forall o: nat :: Uses(ps[i], o) ==> !Uses(ps[j], o)
  {
  }

  ghost predicate Shaped(ps: seq<Property>, xs: seq<Field>) {
    |ps| == |xs| && forall j :: 0 <= j < |ps| ==> ps[j].isList == xs[j].List?
  }

  /** Every property on a side that is stored ends up there, whatever else is left out. */
  lemma {:induction false} FieldStored(f: Floats, ps: seq<Property>, named: seq<bool>, otherFlag: bool, xs: seq<Field>,
                                       n: nat, mem: Memory, j: nat)
    requires Shaped(ps, xs) && j < n <= |ps| == |named| && Disjoint(ps, named, named[j]) && (named[j] || otherFlag)
    ensures HasField(f, ps[j], xs[j], Side(StoreElement(f, ps, named, otherFlag, xs, n, mem), named[j]))
  {
    var i := n - 1;
    var m := StoreElement(f, ps, named, otherFlag, xs, i, mem);
    if j == i {
      StoreHas(f, ps[j], xs[j], Side(m, named[j]));
    } else {
      FieldStored(f, ps, named, otherFlag, xs, i, mem, j);
      if named[i] == named[j] {
        Apart(ps, named, j, i);
        StoreKeeps(f, ps[j], xs[j], ps[i], xs[i], Side(m, named[j]));
      }
    }
  }

  /** The struct has at offset o what it had before. */
  predicate Same(before: Struct, after: Struct, o: nat) {
    (o in after <==> o in before) && (o in before ==> after[o] == before[o])
  }

  lemma StoreElsewhere(f: Floats, p: Property, x: Field, named: bool, otherFlag: bool, m: Memory, o: nat)
    requires p.isList == x.List? && (named ==> !Uses(p, o))
    ensures Same(m.user, StoreOne(f, p, x, named, otherFlag, m).user, o)
    ensures !named && !otherFlag ==> StoreOne(f, p, x, named, otherFlag, m) == m
    ensures !otherFlag ==> StoreOne(f, p, x, named, otherFlag, m).other == m.other
  {
  }

  /** Offsets of properties that nobody asked for are not written to. */
  lemma {:induction false} OthersUntouched(f: Floats, ps: seq<Property>, named: seq<bool>, otherFlag: bool, xs: seq<Field>,
                                           n: nat, mem: Memory, o: nat)
    requires |ps| == |named| && Shaped(ps, xs) && n <= |ps|
    requires forall j :: 0 <= j < |ps| && named[j] ==> !Uses(ps[j], o)
    ensures var m := StoreElement(f, ps, named, otherFlag, xs, n, mem);
            Same(mem.user, m.user, o) && (!otherFlag ==> m.other == mem.other)
  {
    if n > 0 {
      var i := n - 1;
      OthersUntouched(f, ps, named, otherFlag, xs, i, mem, o);
      StoreElsewhere(f, ps[i], xs[i], named[i], otherFlag, StoreElement(f, ps, named, otherFlag, xs, i, mem), o);
    }
  }

  /** binary_get_element: the fields, then the stores. */
  function GetElement(f: Floats, be: bool, ps: seq<Property>, named: seq<bool>, otherFlag: bool, mem: Memory, s: seq<Byte>): Parsed<Memory>
    requires |ps| == |named|
  {
    match ParseElement(f, be, ps, |ps|, s)
    case Aborted => Aborted
    case Done(xs, rest) => if |xs| == |ps| then Done(StoreElement(f, ps, named, otherFlag, xs, |ps|, mem), rest) else Aborted
  }

  /** For every element description and every choice of named properties on either side:
      reading back what was written stores each named property with the value it had, in the
      reader's own types and places, and consumes exactly the written bytes. */
  lemma ElementRoundTrip(f: Floats, be: bool, ps: seq<Property>, user: Struct, other: Struct, writes: seq<bool>,
                         qs: seq<Property>, named: seq<bool>, otherFlag: bool, mem: Memory, tail: seq<Byte>, j: nat)
    requires FloatsOk(f) && SameFormats(ps, qs) && |writes| == |ps| && Disjoint(qs, named, true) && j < |qs| && named[j]
    requires forall i :: 0 <= i < |ps| ==> FieldOk(f, be, ps[i], FieldsOf(f, ps, writes, user, other)[i])
    ensures var xs := FieldsOf(f, ps, writes, user, other);
            var r := GetElement(f, be, qs, named, otherFlag, mem, ElementBytes(f, be, ps, xs, |ps|) + tail);
            r.Done? && r.rest == tail && HasField(f, qs[j], xs[j], r.value.user)
  {
    var xs := FieldsOf(f, ps, writes, user, other);
    ParseOfElement(f, be, ps, qs, xs, |ps|, tail);
    assert xs[..|ps|] == xs;
    forall i | 0 <= i < |qs| ensures qs[i].isList == xs[i].List? {
      FieldShape(f, be, ps[i], xs[i]);
    }
    FieldStored(f, qs, named, otherFlag, xs, |qs|, mem, j);
  }

  lemma FieldShape(f: Floats, be: bool, p: Property, x: Field)
    requires FieldOk(f, be, p, x)
    ensures p.isList == x.List?
  {
    assert Unfold(0);
  }

  // With the same type in the writer's memory, the file and the reader's memory, nothing is
  // lost at all.

  lemma LoadCarried(f: Floats, t: PlyType, m: seq<Byte>)
    requires FloatsOk(f) && t != Invalid && |m| == Size(t)
    ensures Carries(f, t, Load(f, t, m))
  {
    SaveOfLoad(f, t, m);
    LoadOfSave(f, t, Load(f, t, m));
  }

  /** A scalar with one type throughout comes back bit by bit. */
  lemma ScalarUnchanged(f: Floats, p: Property, q: Property, mem: Struct, result: Struct)
    requires FloatsOk(f) && !p.isList && p.internal == q.internal == p.external && p.internal != Invalid
    requires |ItemAt(mem, p.offset)| == Size(p.internal)
    requires HasField(f, q, FieldOf(f, p, mem), result)
    ensures Carries(f, p.external, FieldOf(f, p, mem).value) && ItemAt(result, q.offset) == ItemAt(mem, p.offset)
  {
    LoadCarried(f, p.internal, ItemAt(mem, p.offset));
    SaveOfLoad(f, p.internal, ItemAt(mem, p.offset));
  }

  /** So does every item of a list. */
  lemma ListUnchanged(f: Floats, p: Property, q: Property, mem: Struct, result: Struct)
    requires FloatsOk(f) && p.isList && p.internal == q.internal == p.external && p.internal != Invalid
    requires var items := ArrayAt(mem, p.offset);
             && |items| == WriteLength(FieldOf(f, p, mem).count)
             && forall k :: 0 <= k < |items| ==> |items[k]| == Size(p.internal)
    requires HasField(f, q, FieldOf(f, p, mem), result)
    ensures ArrayAt(result, q.offset) == ArrayAt(mem, p.offset)
  {
    var before, after := ArrayAt(mem, p.offset), ArrayAt(result, q.offset);
    forall k | 0 <= k < |before| ensures after[k] == before[k] {
      SaveOfLoad(f, p.internal, before[k]);
    }
  }

  // ---- Accepted bytes come back too -------------------------------------------------------

  lemma ItemBack(f: Floats, be: bool, t: PlyType, item: seq<Byte>)
    requires FloatsOk(f) && t != Invalid && |item| == Size(t) && !(be && t == UShort)
    ensures WriteItem(f, be, t, ReadItem(f, be, t, item)) == item && ItemOk(f, be, t, ReadItem(f, be, t, item))
  {
    var m := if be then Reversed(item) else item;
    ReversedTwice(item);
    SaveOfLoad(f, t, m);
    LoadCarried(f, t, m);
  }

  lemma ItemReprints(f: Floats, be: bool, t: PlyType, s: seq<Byte>)
    requires FloatsOk(f) && ParseItem(f, be, t, s).Done? && !(be && t == UShort)
    ensures var r := ParseItem(f, be, t, s); s == WriteItem(f, be, t, r.value) + r.rest && ItemOk(f, be, t, r.value)
  {
    var n := Size(t);
    ItemBack(f, be, t, s[..n]);
    Halves(s, n);
  }

  lemma Halves(s: seq<Byte>, n: nat)
    requires n <= |s|
    ensures s == s[..n] + s[n..]
  {
  }

  lemma {:induction false} ConcatPrefix(chunks: seq<seq<Byte>>, c: seq<Byte>, n: nat)
    requires n <= |chunks|
    ensures Concat(chunks + [c], n) == Concat(chunks, n)
  {
    if n > 0 { ConcatPrefix(chunks, c, n - 1); }
  }

  lemma ItemsGrow(f: Floats, be: bool, t: PlyType, items: seq<Values>, v: Values, n: nat, more: seq<Values>, next: nat)
    requires n == |items| && more == items + [v] && next == n + 1
    ensures ItemsBytes(f, be, t, more, next) == ItemsBytes(f, be, t, items, n) + WriteItem(f, be, t, v)
  {
    var chunks, c := ItemChunks(f, be, t, items), WriteItem(f, be, t, v);
    assert ItemChunks(f, be, t, more) == chunks + [c];
    ConcatPrefix(chunks, c, n);
    ConcatNext(chunks + [c], next, n);
  }

  lemma {:induction false} ItemsReprint(f: Floats, be: bool, t: PlyType, n: nat, s: seq<Byte>)
    requires FloatsOk(f) && ParseItems(f, be, t, n, s).Done? && !(be && t == UShort)
    ensures var r := ParseItems(f, be, t, n, s);
            && |r.value| == n && s == ItemsBytes(f, be, t, r.value, n) + r.rest
            && forall k :: 0 <= k < n ==> ItemOk(f, be, t, r.value[k])
  {
    if n > 0 {
      var i := n - 1;
      ItemsReprint(f, be, t, i, s);
      var front := ParseItems(f, be, t, i, s);
      ItemReprints(f, be, t, front.rest);
      var last := ParseItem(f, be, t, front.rest);
      ItemsStep(f, be, t, n, i, s, front.value, front.rest, last.value, last.rest);
      ItemsGrow(f, be, t, front.value, last.value, i, front.value + [last.value], n);
      Associate(ItemsBytes(f, be, t, front.value, i), WriteItem(f, be, t, last.value), last.rest);
    }
  }

  /** A list's count is what its length can be. */
  predicate CountOk(x: Field) { x.List? ==> 0 <= x.count.int_ == x.count.uint_ < 0x8000_0000 }

  /** The property's items are not affected by the swap that has no effect. */
  predicate Swaps(be: bool, p: Property) { !(be && (p.external == UShort || (p.isList && p.countExternal == UShort))) }

  lemma FieldReprints(f: Floats, be: bool, p: Property, s: seq<Byte>, x: Field, rest: seq<Byte>)
    requires FloatsOk(f) && ParseField(f, be, p, s) == Done(x, rest) && Swaps(be, p) && CountOk(x)
    ensures s == FieldBytes(f, be, p, x) + rest && FieldOk(f, be, p, x)
  {
    if p.isList {
      ItemReprints(f, be, p.countExternal, s);
      var c := ParseItem(f, be, p.countExternal, s);
      ItemsReprint(f, be, p.external, ListLength(c.value), c.rest);
      Associate(WriteItem(f, be, p.countExternal, x.count), ItemsBytes(f, be, p.external, x.items, |x.items|), rest);
    } else {
      ItemReprints(f, be, p.external, s);
    }
  }

  lemma ChunksGrow(f: Floats, be: bool, ps: seq<Property>, xs: seq<Field>, x: Field, n: nat, more: seq<Field>, next: nat)
    requires n == |xs| && more == xs + [x] && next == n + 1 <= |ps|
    ensures Chunks(f, be, ps[..next], more) == Chunks(f, be, ps[..n], xs) + [FieldBytes(f, be, ps[n], x)]
  {
    assert ps[..next] == ps[..n] + [ps[n]];
  }

  lemma ElementGrow(f: Floats, be: bool, ps: seq<Property>, xs: seq<Field>, x: Field, n: nat, more: seq<Field>, next: nat)
    requires n == |xs| && more == xs + [x] && next == n + 1 <= |ps|
    ensures ElementBytes(f, be, ps[..next], more, next)
         == ElementBytes(f, be, ps[..n], xs, n) + FieldBytes(f, be, ps[n], x)
  {
    ChunksGrow(f, be, ps, xs, x, n, more, next);
    OneMore(Chunks(f, be, ps[..n], xs), FieldBytes(f, be, ps[n], x), n, next);
  }

  lemma OneMore(chunks: seq<seq<Byte>>, c: seq<Byte>, n: nat, next: nat)
    requires n == |chunks| && next == n + 1
    ensures Concat(chunks + [c], next) == Concat(chunks, n) + c
  {
    ConcatPrefix(chunks, c, n);
    ConcatNext(chunks + [c], next, n);
  }

  /** Bytes accepted as the first n properties are the print of the fields that were read. */
  lemma {:induction false} ElementReprints(f: Floats, be: bool, ps: seq<Property>, n: nat, s: seq<Byte>, xs: seq<Field>, rest: seq<Byte>)
    requires FloatsOk(f) && n <= |ps| && ParseElement(f, be, ps, n, s) == Done(xs, rest)
    requires (forall j :: 0 <= j < |ps| ==> Swaps(be, ps[j])) && forall j :: 0 <= j < |xs| ==> CountOk(xs[j])
    ensures |xs| == n && s == ElementBytes(f, be, ps[..n], xs, n) + rest
    ensures forall j :: 0 <= j < n ==> FieldOk(f, be, ps[j], xs[j])
  {
    if n > 0 {
      var i := n - 1;
      var front, mid, x := LastField(f, be, ps, n, i, s, xs, rest);
      ElementReprints(f, be, ps, i, s, front, mid);
      FieldReprints(f, be, ps[i], mid, x, rest);
      ElementGrow(f, be, ps, front, x, i, xs, n);
      Associate(ElementBytes(f, be, ps[..i], front, i), FieldBytes(f, be, ps[i], x), rest);
      LastOk(f, be, ps, front, x, xs, i, n);
    }
  }

  lemma LastField(f: Floats, be: bool, ps: seq<Property>, n: nat, i: nat, s: seq<Byte>, xs: seq<Field>, rest: seq<Byte>)
    returns (front: seq<Field>, mid: seq<Byte>, x: Field)
    requires n == i + 1 <= |ps| && ParseElement(f, be, ps, n, s) == Done(xs, rest)
    ensures ParseElement(f, be, ps, i, s) == Done(front, mid) && ParseField(f, be, ps[i], mid) == Done(x, rest)
    ensures xs == front + [x] && |front| == |xs| - 1
    ensures forall j :: 0 <= j < |front| ==> front[j] == xs[j]
    ensures xs[|front|] == x
  {
    var a := ParseElement(f, be, ps, i, s);
    front, mid := a.value, a.rest;
    x := ParseField(f, be, ps[i], mid).value;
  }

  lemma LastOk(f: Floats, be: bool, ps: seq<Property>, front: seq<Field>, x: Field, xs: seq<Field>, i: nat, n: nat)
    requires n == i + 1 <= |ps| && |front| == i && xs == front + [x] && FieldOk(f, be, ps[i], x)
    requires forall j :: 0 <= j < i ==> FieldOk(f, be, ps[j], front[j])
    ensures forall j :: 0 <= j < n ==> FieldOk(f, be, ps[j], xs[j])
  {
  }

  /** The property's memory types carry the field. */
  ghost predicate InMemory(f: Floats, p: Property, x: Field) {
    match x
    case Scalar(v) => Carries(f, p.internal, v)
    case List(count, items) =>
      Carries(f, p.countInternal, count) && forall k :: 0 <= k < |items| ==> Carries(f, p.internal, items[k])
  }

  lemma FieldBack(f: Floats, p: Property, x: Field, mem: Struct)
    requires FloatsOk(f) && p.isList == x.List? && HasField(f, p, x, mem) && InMemory(f, p, x)
    requires CountOk(x) && (x.List? ==> x.count.int_ == |x.items|)
    ensures FieldOf(f, p, mem) == x
  {
    match x
    case Scalar(v) => LoadOfSave(f, p.internal, v);
    case List(count, items) =>
      LoadOfSave(f, p.countInternal, count);
      var back := LoadAll(f, p.internal, ArrayAt(mem, p.offset), |items|);
      forall k | 0 <= k < |items| ensures back[k] == items[k] {
        LoadOfSave(f, p.internal, items[k]);
      }
      assert back == items;
  }

  /** Reading an element with all its properties, requested or not, and writing it again with
      the same selection reproduces its bytes. */
  lemma RewriteReproduces(f: Floats, be: bool, ps: seq<Property>, named: seq<bool>, mem: Memory, s: seq<Byte>,
                          xs: seq<Field>, rest: seq<Byte>)
    requires FloatsOk(f) && |ps| == |named| && ParseElement(f, be, ps, |ps|, s) == Done(xs, rest)
    requires (forall j :: 0 <= j < |ps| ==> Swaps(be, ps[j])) && forall j :: 0 <= j < |xs| ==> CountOk(xs[j])
    requires Disjoint(ps, named, true) && Disjoint(ps, named, false)
    requires |xs| == |ps| ==> forall j :: 0 <= j < |ps| ==> InMemory(f, ps[j], xs[j])
    ensures var r := GetElement(f, be, ps, named, true, mem, s);
            && r.Done? && r.rest == rest
            && s == ElementBytes(f, be, ps, FieldsOf(f, ps, named, r.value.user, r.value.other), |ps|) + rest
  {
    ElementReprints(f, be, ps, |ps|, s, xs, rest);
    assert ps[..|ps|] == ps;
    var m := StoreElement(f, ps, named, true, xs, |ps|, mem);
    forall j | 0 <= j < |ps| ensures ps[j].isList == xs[j].List? { FieldShape(f, be, ps[j], xs[j]); }
    forall j | 0 <= j < |ps| ensures FieldOf(f, ps[j], Side(m, named[j])) == xs[j] {
      FieldStored(f, ps, named, true, xs, |ps|, mem, j);
      ListLengthIs(f, be, ps[j], xs[j]);
      FieldBack(f, ps[j], xs[j], Side(m, named[j]));
    }
    assert FieldsOf(f, ps, named, m.user, m.other) == xs;
  }

  lemma ListLengthIs(f: Floats, be: bool, p: Property, x: Field)
    requires FieldOk(f, be, p, x)
    ensures x.List? ==> x.count.int_ == |x.items|
  {
    assert Unfold(0);
  }
}
