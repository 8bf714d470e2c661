/** Packing the properties that the user did not ask for into one struct
    (examples/eqPly/plyfile.cpp, setup_other_props). */
module PlyOtherProps {
  import opened Sequences
  import opened Hiding
  import opened Bytes
  import opened PlyItems
  import opened PlyElements

  /** A field of the struct: property i's item or pointer, or its list's count. */
  datatype Slot = Slot(i: nat, count: bool)

  /** The element as the packing sees it: pointer is sizeof(void*). */
  datatype Layout = Layout(ps: seq<Property>, named: seq<bool>, pointer: nat) {
    predicate Valid() { |ps| == |named| && (pointer == 4 || pointer == 8) }
  }

  function SlotSize(l: Layout, s: Slot): nat {
    if s.i >= |l.ps| then 0
    else if s.count then Size(l.ps[s.i].countExternal)
    else if l.ps[s.i].isList then l.pointer
    else Size(l.ps[s.i].external)
  }

  /** The fields of unrequested properties. */
  predicate Needed(l: Layout, s: Slot) {
    l.Valid() && s.i < |l.ps| && !l.named[s.i] && (s.count ==> l.ps[s.i].isList)
  }

  // ---- The order of the fields ------------------------------------------------------------

  function One(l: Layout, s: Slot, size: nat): seq<Slot> { if Needed(l, s) && SlotSize(l, s) == size then [s] else [] }

  /** The fields of the given size among the first n properties. */
  function Pass(l: Layout, n: nat, size: nat): seq<Slot> {
    if n == 0 then [] else var i := n - 1; WithProperty(l, Pass(l, i, size), i, size)
  }

  function WithProperty(l: Layout, front: seq<Slot>, i: nat, size: nat): seq<Slot> {
    front + One(l, Slot(i, false), size) + One(l, Slot(i, true), size)
  }

  /** All fields of at least the given size, largest first. */
  function Plan(l: Layout, size: nat): seq<Slot>
    decreases if size <= 8 then 8 - size else 0
  {
    if size == 8 then Pass(l, |l.ps|, 8)
    else if size == 4 then Plan(l, 8) + Pass(l, |l.ps|, 4)
    else if size == 2 then Plan(l, 4) + Pass(l, |l.ps|, 2)
    else if size == 1 then Plan(l, 2) + Pass(l, |l.ps|, 1)
    else []
  }

  function Total(l: Layout, slots: seq<Slot>): nat {
    if slots == [] then 0 else Total(l, slots[..|slots| - 1]) + SlotSize(l, slots[|slots| - 1])
  }

  lemma {:induction false} PassHolds(l: Layout, n: nat, size: nat, s: Slot)
    ensures s in Pass(l, n, size) <==> Needed(l, s) && s.i < n && SlotSize(l, s) == size
  {
    if n > 0 {
      PassHolds(l, n - 1, size, s);
      assert s == Slot(s.i, s.count);
    }
  }

  predicate PlanSize(size: nat) { size == 8 || size == 4 || size == 2 || size == 1 }

  lemma PlanHolds(l: Layout, size: nat, s: Slot)
    requires PlanSize(size)
    ensures s in Plan(l, size) <==> Needed(l, s) && PlanSize(SlotSize(l, s)) && SlotSize(l, s) >= size
  {
    PassHolds(l, |l.ps|, 8, s);
    PassHolds(l, |l.ps|, 4, s);
    PassHolds(l, |l.ps|, 2, s);
    PassHolds(l, |l.ps|, 1, s);
  }

  // ---- The layout -------------------------------------------------------------------------

  function Where(ps: seq<Property>, s: Slot): nat {
    if s.i >= |ps| then 0 else if s.count then ps[s.i].countOffset else ps[s.i].offset
  }

  /** The fields lie one after the other, without gaps and each once. */
  ghost predicate Packed(l: Layout, ps: seq<Property>, slots: seq<Slot>, size: nat) {
    forall key {:trigger Unfold(key)} :: Unfold(key) ==> InSequence(l, ps, slots, size)
  }

  ghost predicate InSequence(l: Layout, ps: seq<Property>, slots: seq<Slot>, size: nat) {
    && size == Total(l, slots)
    && (forall k :: 0 <= k < |slots| ==> Where(ps, slots[k]) == Total(l, slots[..k]))
    && (forall k, m :: 0 <= k < m < |slots| ==> slots[k] != slots[m])
  }

  /** ps differs from before at most in the place of s. */
  ghost predicate OnlyMoves(before: seq<Property>, ps: seq<Property>, s: Slot) {
    |ps| == |before| && forall t: Slot :: t != s ==> Where(ps, t) == Where(before, t)
  }

  lemma Extend(l: Layout, before: seq<Property>, ps: seq<Property>, slots: seq<Slot>, size: nat, s: Slot)
    requires Packed(l, before, slots, size) && s !in slots && OnlyMoves(before, ps, s) && Where(ps, s) == size
    ensures Packed(l, ps, slots + [s], size + SlotSize(l, s))
  {
    assert Unfold(0);
    var more := slots + [s];
    assert more[..|more| - 1] == slots;
    forall k | 0 <= k < |more| ensures Where(ps, more[k]) == Total(l, more[..k]) {
      if k < |slots| {
        assert more[..k] == slots[..k];
        assert slots[k] in slots;
      } else {
        assert more[..k] == slots;
      }
    }
    StillDifferent(slots, s);
  }

  lemma StillDifferent(slots: seq<Slot>, s: Slot)
    requires s !in slots && forall k, m :: 0 <= k < m < |slots| ==> slots[k] != slots[m]
    ensures var more := slots + [s]; forall k, m :: 0 <= k < m < |more| ==> more[k] != more[m]
  {
    var more := slots + [s];
    forall k, m | 0 <= k < m < |more| ensures more[k] != more[m] {
      assert more[k] == slots[k];
      assert m < |slots| ==> more[m] == slots[m];
    }
  }

  predicate IsAligned(x: nat, size: nat) {
    if size == 8 then x % 8 == 0 else if size == 4 then x % 4 == 0 else size == 2 ==> x % 2 == 0
  }

  lemma StaysAligned(x: nat, y: nat, size: nat)
    requires IsAligned(x, size) && PlanSize(size) && PlanSize(y) && y >= size
    ensures IsAligned(x + y, size)
  {
  }

  /** Fields no smaller than a power of two fill a multiple of it. */
  lemma {:induction false} TotalAligned(l: Layout, slots: seq<Slot>, size: nat)
    requires PlanSize(size) && forall k :: 0 <= k < |slots| ==> PlanSize(SlotSize(l, slots[k])) && SlotSize(l, slots[k]) >= size
    ensures IsAligned(Total(l, slots), size)
  {
    if slots != [] {
      var n := |slots| - 1;
      TotalAligned(l, slots[..n], size);
      StaysAligned(Total(l, slots[..n]), SlotSize(l, slots[n]), size);
    }
  }

  lemma {:induction false} TotalGrows(l: Layout, slots: seq<Slot>, k: nat, m: nat)
    requires k < m <= |slots|
    ensures Total(l, slots[..k]) + SlotSize(l, slots[k]) <= Total(l, slots[..m])
    decreases m
  {
    var front := slots[..m];
    assert front[..m - 1] == slots[..m - 1] && front[m - 1] == slots[m - 1];
    if k < m - 1 { TotalGrows(l, slots, k, m - 1); }
  }

  /** Sizes do not grow along the plan. */
  ghost predicate Descends(l: Layout, slots: seq<Slot>) {
    && (forall k :: 0 <= k < |slots| ==> PlanSize(SlotSize(l, slots[k])))
    && (forall k, m :: 0 <= k < m < |slots| ==> SlotSize(l, slots[k]) >= SlotSize(l, slots[m]))
  }

  lemma PassSizes(l: Layout, n: nat, size: nat)
    ensures forall k :: 0 <= k < |Pass(l, n, size)| ==> SlotSize(l, Pass(l, n, size)[k]) == size
  {
    forall k | 0 <= k < |Pass(l, n, size)| ensures SlotSize(l, Pass(l, n, size)[k]) == size {
      PassHolds(l, n, size, Pass(l, n, size)[k]);
    }
  }

  lemma DescendsJoin(l: Layout, a: seq<Slot>, b: seq<Slot>, size: nat)
    requires Descends(l, a) && PlanSize(size) && (forall k :: 0 <= k < |a| ==> SlotSize(l, a[k]) >= size)
    requires forall k :: 0 <= k < |b| ==> SlotSize(l, b[k]) == size
    ensures Descends(l, a + b) && forall k :: 0 <= k < |a + b| ==> SlotSize(l, (a + b)[k]) >= size
  {
  }

  lemma PlanDescends(l: Layout)
    ensures Descends(l, Plan(l, 1))
  {
    PassSizes(l, |l.ps|, 8);
    PassSizes(l, |l.ps|, 4);
    PassSizes(l, |l.ps|, 2);
    PassSizes(l, |l.ps|, 1);
    DescendsJoin(l, Plan(l, 8), Pass(l, |l.ps|, 4), 4);
    DescendsJoin(l, Plan(l, 4), Pass(l, |l.ps|, 2), 2);
    DescendsJoin(l, Plan(l, 2), Pass(l, |l.ps|, 1), 1);
  }

  lemma MultipleOf(x: nat, size: nat)
    requires IsAligned(x, size) && PlanSize(size)
    ensures x % size == 0
  {
  }

  /** The finished layout: every field of an unrequested property with a valid type is in it
      exactly once, fields do not overlap, and each is aligned to its size. */
  lemma LayoutSound(l: Layout, ps: seq<Property>, size: nat, k: nat)
    requires Packed(l, ps, Plan(l, 1), size) && k < |Plan(l, 1)|
    ensures var slots := Plan(l, 1);
            && PlanSize(SlotSize(l, slots[k])) && Where(ps, slots[k]) % SlotSize(l, slots[k]) == 0
            && Where(ps, slots[k]) + SlotSize(l, slots[k]) <= size
            && forall m :: k < m < |slots| ==> Where(ps, slots[k]) + SlotSize(l, slots[k]) <= Where(ps, slots[m])
  {
    assert Unfold(0);
    var slots := Plan(l, 1);
    PlanDescends(l);
    forall j | 0 <= j < k ensures SlotSize(l, slots[..k][j]) >= SlotSize(l, slots[k]) && PlanSize(SlotSize(l, slots[..k][j])) {
      assert slots[..k][j] == slots[j];
    }
    TotalAligned(l, slots[..k], SlotSize(l, slots[k]));
    MultipleOf(Where(ps, slots[k]), SlotSize(l, slots[k]));
    TotalGrows(l, slots, k, |slots|);
    assert slots[..|slots|] == slots;
    forall m | k < m < |slots| ensures Where(ps, slots[k]) + SlotSize(l, slots[k]) <= Where(ps, slots[m]) {
      TotalGrows(l, slots, k, m);
    }
  }

  /** Each field has the size of what reading stores in it: the item, the count, or the pointer to
      the list. */
  lemma FieldFits(f: Floats, l: Layout, ps: seq<Property>, i: nat, x: Field, mem: Struct)
    requires SameFile(l, ps) && SameTypes(l.named, ps) && i < |ps| && !l.named[i]
    requires x.List? == ps[i].isList && (x.List? ==> ps[i].offset != ps[i].countOffset)
    ensures var m, p := StoreField(f, ps[i], x, mem), ps[i];
      && p.offset in m && (p.isList ==> p.countOffset in m && m[p.offset].Array?)
      && (!p.isList ==> m[p.offset].Item? && |m[p.offset].bytes| == SlotSize(l, Slot(i, false)))
      && (p.isList ==> SlotSize(l, Slot(i, false)) == l.pointer)
      && (p.isList ==> m[p.countOffset].Item? && |m[p.countOffset].bytes| == SlotSize(l, Slot(i, true)))
  {
    SameFileAt(l, ps, i);
    assert InternalSame(ps[i]);
  }

  /** Which fields those are. */
  lemma LayoutComplete(l: Layout, ps: seq<Property>, size: nat, s: Slot)
    requires Packed(l, ps, Plan(l, 1), size)
    ensures multiset(Plan(l, 1))[s] == if Needed(l, s) && PlanSize(SlotSize(l, s)) then 1 else 0
  {
    assert Unfold(0);
    PlanHolds(l, 1, s);
    Once(Plan(l, 1), s);
  }

  lemma {:induction false} Once(slots: seq<Slot>, s: Slot)
    requires forall k, m :: 0 <= k < m < |slots| ==> slots[k] != slots[m]
    ensures multiset(slots)[s] == if s in slots then 1 else 0
  {
    if slots != [] {
      var n := |slots| - 1;
      Once(slots[..n], s);
      assert slots == slots[..n] + [slots[n]];
    }
  }

  // ---- The packing itself -----------------------------------------------------------------

  /** What the packing leaves alone. */
  ghost predicate SameFile(l: Layout, ps: seq<Property>) {
    |ps| == |l.ps| && forall key {:trigger Unfold(key)} :: Unfold(key) ==> SameFileAll(l, ps)
  }

  ghost predicate SameFileAll(l: Layout, ps: seq<Property>) {
    forall i :: 0 <= i < |ps| ==> SameFileProperty(l, i, ps[i])
  }

  lemma SameFileAt(l: Layout, ps: seq<Property>, i: nat)
    requires SameFile(l, ps) && i < |ps|
    ensures SameFileProperty(l, i, ps[i])
  {
    assert Unfold(0);
  }

  ghost predicate SameFileProperty(l: Layout, i: nat, p: Property) {
    && i < |l.ps| == |l.named|
    && p.isList == l.ps[i].isList && p.external == l.ps[i].external && p.countExternal == l.ps[i].countExternal
    && (l.named[i] ==> p == l.ps[i])
  }

  method SetupOtherProps(props: array<Property>, named: seq<bool>, pointer: nat) returns (otherSize: nat)
    requires props.Length == |named| && (pointer == 4 || pointer == 8)
    modifies props
    ensures var l := Layout(old(props[..]), named, pointer);
            && SameFile(l, props[..]) && Packed(l, props[..], Plan(l, 1), otherSize)
            && SameTypes(named, props[..])
  {
    ghost var l := Layout(props[..], named, pointer);
    otherSize := 0;
    var typeSize: nat := 8;
    while typeSize > 0
      invariant (PlanSize(typeSize) || typeSize == 0) && SameFile(l, props[..])
      invariant Packed(l, props[..], Finished(l, typeSize), otherSize)
      invariant typeSize < 8 ==> SameTypes(named, props[..])
    {
      FinishedSizes(l, typeSize);
      RoundStarts(l, props[..], Finished(l, typeSize), typeSize, otherSize);
      otherSize := PlacePass(props, named, pointer, typeSize, otherSize, l, Finished(l, typeSize));
      RoundIs(l, props[..], Finished(l, typeSize), |l.ps|, typeSize, otherSize);
      FinishedNext(l, typeSize, Pass(l, |l.ps|, typeSize));
      typeSize := typeSize / 2;
    }
  }

  ghost predicate SameTypes(named: seq<bool>, ps: seq<Property>) {
    |ps| == |named| && forall i :: 0 <= i < |ps| && !named[i] ==> InternalSame(ps[i])
  }

  predicate InternalSame(p: Property) { p.internal == p.external && p.countInternal == p.countExternal }

  /** What is placed before the round for a size. */
  function Finished(l: Layout, typeSize: nat): seq<Slot> {
    if typeSize == 4 then Plan(l, 8) else if typeSize == 2 then Plan(l, 4) else if typeSize == 1 then Plan(l, 2)
    else if typeSize == 0 then Plan(l, 1) else []
  }

  lemma FinishedNext(l: Layout, typeSize: nat, pass: seq<Slot>)
    requires PlanSize(typeSize) && pass == Pass(l, |l.ps|, typeSize)
    ensures Finished(l, typeSize) + pass == Finished(l, typeSize / 2)
  {
    assert typeSize == 8 ==> [] + pass == pass;
  }

  lemma FinishedSizes(l: Layout, typeSize: nat)
    requires PlanSize(typeSize)
    ensures forall s :: s in Finished(l, typeSize) ==> SlotSize(l, s) != typeSize
  {
    forall s | s in Finished(l, typeSize) ensures SlotSize(l, s) != typeSize {
      PlanHolds(l, if typeSize == 4 then 8 else if typeSize == 2 then 4 else 2, s);
    }
  }

  /** The state of a round after n properties: slots come from the rounds before. */
  ghost predicate Round(l: Layout, ps: seq<Property>, slots: seq<Slot>, n: nat, typeSize: nat, size: nat) {
    forall key {:trigger Unfold(key)} :: Unfold(key) ==>
      && (forall s :: s in slots ==> SlotSize(l, s) != typeSize)
      && InSequence(l, ps, slots + Pass(l, n, typeSize), size)
  }

  lemma RoundIs(l: Layout, ps: seq<Property>, slots: seq<Slot>, n: nat, typeSize: nat, size: nat)
    ensures Round(l, ps, slots, n, typeSize, size) <==>
            (forall s :: s in slots ==> SlotSize(l, s) != typeSize) && Packed(l, ps, slots + Pass(l, n, typeSize), size)
  {
    assert Unfold(0);
  }

  lemma RoundStarts(l: Layout, ps: seq<Property>, slots: seq<Slot>, typeSize: nat, size: nat)
    requires Packed(l, ps, slots, size) && forall s :: s in slots ==> SlotSize(l, s) != typeSize
    ensures Round(l, ps, slots, 0, typeSize, size)
  {
    assert slots + Pass(l, 0, typeSize) == slots;
    RoundIs(l, ps, slots, 0, typeSize, size);
  }

  /** One round of the outer loop. */
  method PlacePass(props: array<Property>, named: seq<bool>, pointer: nat, typeSize: nat, size: nat,
                   ghost l: Layout, ghost slots: seq<Slot>) returns (newSize: nat)
    requires l.Valid() && l.named == named && l.pointer == pointer && SameFile(l, props[..]) && PlanSize(typeSize)
    requires Round(l, props[..], slots, 0, typeSize, size)
    modifies props
    ensures SameFile(l, props[..]) && Round(l, props[..], slots, |l.ps|, typeSize, newSize)
    ensures SameTypes(named, props[..])
  {
    newSize := size;
    var i := 0;
    while i < props.Length
      invariant i <= props.Length && SameFile(l, props[..]) && Round(l, props[..], slots, i, typeSize, newSize)
      invariant forall j :: 0 <= j < i && !named[j] ==> InternalSame(props[j])
    {
      var next := i + 1;
      newSize := PlaceProperty(props, named, pointer, typeSize, newSize, i, l, slots, next);
      i := next;
    }
  }

  /** The body of the inner loop. */
  method PlaceProperty(props: array<Property>, named: seq<bool>, pointer: nat, typeSize: nat, size: nat, i: nat,
                       ghost l: Layout, ghost slots: seq<Slot>, ghost next: nat) returns (newSize: nat)
    requires l.Valid() && l.named == named && l.pointer == pointer && SameFile(l, props[..]) && PlanSize(typeSize)
    requires i < props.Length && next == i + 1 && Round(l, props[..], slots, i, typeSize, size)
    modifies props
    ensures SameFile(l, props[..]) && Round(l, props[..], slots, next, typeSize, newSize)
    ensures forall j :: 0 <= j < props.Length && j != i ==> props[j] == old(props[j])
    ensures !named[i] ==> InternalSame(props[i])
  {
    newSize := size;
    var prop := props[i];
    ghost var before := props[..];
    SameFileAt(l, before, i);
    if named[i] {
      SkipSlots(l, before, i, typeSize, size, slots, next);
      return;
    }
    prop := PlaceValue(prop, pointer, typeSize, newSize);
    newSize := newSize + ValueSpace(prop, pointer, typeSize);
    prop := PlaceCount(prop, typeSize, newSize);
    newSize := newSize + CountSpace(prop, typeSize);
    props[i] := prop;
    assert props[..] == before[i := prop];
    PlaceBoth(l, before, props[..], i, typeSize, size, slots, newSize, next);
    KeepsFile(l, before, props[..], i);
  }

  lemma PlaceBoth(l: Layout, before: seq<Property>, ps: seq<Property>, i: nat, typeSize: nat, size: nat,
                  slots: seq<Slot>, newSize: nat, next: nat)
    requires l.Valid() && SameFile(l, before) && PlanSize(typeSize) && i < |before| && !l.named[i] && next == i + 1
    requires Round(l, before, slots, i, typeSize, size)
    requires var first := PlaceValue(before[i], l.pointer, typeSize, size);
             var middle := size + ValueSpace(first, l.pointer, typeSize);
             && ps == before[i := PlaceCount(first, typeSize, middle)]
             && newSize == middle + CountSpace(PlaceCount(first, typeSize, middle), typeSize)
    ensures Round(l, ps, slots, next, typeSize, newSize)
  {
    var packed := slots + Pass(l, i, typeSize);
    var first := PlaceValue(before[i], l.pointer, typeSize, size);
    RoundOpens(l, before, slots, i, typeSize, size, packed);
    SameFileAt(l, before, i);
    PlaceTwo(l, before, ps, packed, size, i, typeSize, newSize, first, size + ValueSpace(first, l.pointer, typeSize));
    RoundCloses(l, before, ps, slots, i, typeSize, size, newSize, next, packed);
  }

  lemma RoundOpens(l: Layout, ps: seq<Property>, slots: seq<Slot>, i: nat, typeSize: nat, size: nat, packed: seq<Slot>)
    requires Round(l, ps, slots, i, typeSize, size) && packed == slots + Pass(l, i, typeSize)
    ensures Packed(l, ps, packed, size)
    ensures SlotSize(l, Slot(i, false)) == typeSize ==> Slot(i, false) !in packed
    ensures SlotSize(l, Slot(i, true)) == typeSize ==> Slot(i, true) !in packed
  {
    RoundIs(l, ps, slots, i, typeSize, size);
    NotYet(l, slots, i, typeSize, packed);
  }

  lemma RoundCloses(l: Layout, before: seq<Property>, ps: seq<Property>, slots: seq<Slot>, i: nat, typeSize: nat,
                    size: nat, newSize: nat, next: nat, packed: seq<Slot>)
    requires Round(l, before, slots, i, typeSize, size) && packed == slots + Pass(l, i, typeSize) && next == i + 1
    requires Packed(l, ps, WithProperty(l, packed, i, typeSize), newSize)
    ensures Round(l, ps, slots, next, typeSize, newSize)
  {
    RoundIs(l, before, slots, i, typeSize, size);
    Regrouped(l, i, typeSize, slots, Pass(l, i, typeSize));
    PassNext(l, i, typeSize, next);
    RoundIs(l, ps, slots, next, typeSize, newSize);
  }

  lemma PlaceTwo(l: Layout, before: seq<Property>, ps: seq<Property>, packed: seq<Slot>, size: nat, i: nat, typeSize: nat,
                 newSize: nat, first: Property, middle: nat)
    requires l.Valid() && i < |before| == |l.ps| && SameFileProperty(l, i, before[i]) && !l.named[i] && PlanSize(typeSize)
    requires Packed(l, before, packed, size)
    requires SlotSize(l, Slot(i, false)) == typeSize ==> Slot(i, false) !in packed
    requires SlotSize(l, Slot(i, true)) == typeSize ==> Slot(i, true) !in packed
    requires first == PlaceValue(before[i], l.pointer, typeSize, size)
    requires middle == size + ValueSpace(first, l.pointer, typeSize)
    requires ps == before[i := PlaceCount(first, typeSize, middle)]
    requires newSize == middle + CountSpace(PlaceCount(first, typeSize, middle), typeSize)
    ensures Packed(l, ps, WithProperty(l, packed, i, typeSize), newSize)
  {
    ValueStep(l, before, before[i := first], packed, size, i, typeSize, middle);
    assert ps == before[i := first][i := PlaceCount(first, typeSize, middle)];
    CountStep(l, before[i := first], ps, packed + One(l, Slot(i, false), typeSize), middle, i, typeSize, newSize);
  }

  lemma ValueStep(l: Layout, before: seq<Property>, ps: seq<Property>, packed: seq<Slot>, size: nat, i: nat, typeSize: nat, newSize: nat)
    requires l.Valid() && i < |before| == |l.ps| && SameFileProperty(l, i, before[i]) && !l.named[i] && PlanSize(typeSize)
    requires Packed(l, before, packed, size)
    requires SlotSize(l, Slot(i, false)) == typeSize ==> Slot(i, false) !in packed
    requires var first := PlaceValue(before[i], l.pointer, typeSize, size);
             ps == before[i := first] && newSize == size + ValueSpace(first, l.pointer, typeSize)
    ensures Packed(l, ps, packed + One(l, Slot(i, false), typeSize), newSize)
  {
    PlaceSlot(l, before, ps, packed, size, Slot(i, false), typeSize, newSize);
  }

  lemma CountStep(l: Layout, before: seq<Property>, ps: seq<Property>, packed: seq<Slot>, size: nat, i: nat, typeSize: nat, newSize: nat)
    requires l.Valid() && i < |before| == |l.ps| && !l.named[i] && PlanSize(typeSize)
    requires before[i].isList == l.ps[i].isList && before[i].countExternal == l.ps[i].countExternal
    requires Packed(l, before, packed, size)
    requires SlotSize(l, Slot(i, true)) == typeSize ==> Slot(i, true) !in packed
    requires var second := PlaceCount(before[i], typeSize, size);
             ps == before[i := second] && newSize == size + CountSpace(second, typeSize)
    ensures Packed(l, ps, packed + One(l, Slot(i, true), typeSize), newSize)
  {
    PlaceSlot(l, before, ps, packed, size, Slot(i, true), typeSize, newSize);
  }

  function PlaceValue(p: Property, pointer: nat, typeSize: nat, size: nat): Property {
    var q := p.(internal := p.external, countInternal := p.countExternal);
    if ValueSpace(p, pointer, typeSize) > 0 then q.(offset := size) else q
  }

  function ValueSpace(p: Property, pointer: nat, typeSize: nat): nat {
    var size := if p.isList then pointer else Size(p.external);
    if typeSize == size then size else 0
  }

  function PlaceCount(p: Property, typeSize: nat, size: nat): Property {
    if CountSpace(p, typeSize) > 0 then p.(countOffset := size) else p
  }

  function CountSpace(p: Property, typeSize: nat): nat {
    if p.isList && typeSize == Size(p.countExternal) then typeSize else 0
  }

  lemma NotYet(l: Layout, slots: seq<Slot>, i: nat, typeSize: nat, packed: seq<Slot>)
    requires packed == slots + Pass(l, i, typeSize)
    requires forall s :: s in slots ==> SlotSize(l, s) != typeSize
    ensures SlotSize(l, Slot(i, false)) == typeSize ==> Slot(i, false) !in packed
    ensures SlotSize(l, Slot(i, true)) == typeSize ==> Slot(i, true) !in packed
  {
    PassHolds(l, i, typeSize, Slot(i, false));
    PassHolds(l, i, typeSize, Slot(i, true));
  }

  /** Placing a field of the right size, and nothing otherwise. */
  lemma PlaceSlot(l: Layout, before: seq<Property>, ps: seq<Property>, packed: seq<Slot>, size: nat, s: Slot, typeSize: nat, newSize: nat)
    requires Packed(l, before, packed, size) && OnlyMoves(before, ps, s)
    requires var placed := One(l, s, typeSize) == [s];
             && (placed ==> s !in packed && Where(ps, s) == size && newSize == size + SlotSize(l, s))
             && (!placed ==> Where(ps, s) == Where(before, s) && newSize == size)
    ensures Packed(l, ps, packed + One(l, s, typeSize), newSize)
  {
    assert Unfold(0);
    if One(l, s, typeSize) == [s] {
      Extend(l, before, ps, packed, size, s);
    } else {
      assert packed + [] == packed;
      forall k | 0 <= k < |packed| ensures Where(ps, packed[k]) == Where(before, packed[k]) { }
    }
  }

  lemma SkipSlots(l: Layout, ps: seq<Property>, i: nat, typeSize: nat, size: nat, slots: seq<Slot>, next: nat)
    requires l.Valid() && i < |l.ps| && l.named[i] && next == i + 1 && Round(l, ps, slots, i, typeSize, size)
    ensures Round(l, ps, slots, next, typeSize, size)
  {
    PassNext(l, i, typeSize, next);
    assert Pass(l, next, typeSize) == Pass(l, i, typeSize);
    RoundIs(l, ps, slots, i, typeSize, size);
    RoundIs(l, ps, slots, next, typeSize, size);
  }

  lemma PassNext(l: Layout, i: nat, typeSize: nat, next: nat)
    requires next == i + 1
    ensures Pass(l, next, typeSize) == WithProperty(l, Pass(l, i, typeSize), i, typeSize)
  {
  }

  lemma Regrouped(l: Layout, i: nat, typeSize: nat, slots: seq<Slot>, front: seq<Slot>)
    ensures WithProperty(l, slots + front, i, typeSize) == slots + WithProperty(l, front, i, typeSize)
  {
    var b, c := One(l, Slot(i, false), typeSize), One(l, Slot(i, true), typeSize);
    Associate(slots, front, b);
    Associate(slots, front + b, c);
  }

  lemma KeepsFile(l: Layout, before: seq<Property>, ps: seq<Property>, i: nat)
    requires SameFile(l, before) && |ps| == |before| && i < |ps| && SameFileProperty(l, i, ps[i])
    requires forall j :: 0 <= j < |ps| && j != i ==> ps[j] == before[j]
    ensures SameFile(l, ps)
  {
    assert Unfold(0);
  }

  // ---- Carrying unrequested properties along ------------------------------------------------

  /** Every field that is needed has a size of 1, 2, 4 or 8: the types are valid. */
  ghost predicate TypesValid(l: Layout) { forall s: Slot :: Needed(l, s) ==> PlanSize(SlotSize(l, s)) }

  lemma SlotsDiffer(l: Layout, ps: seq<Property>, size: nat, a: Slot, b: Slot)
    requires Packed(l, ps, Plan(l, 1), size) && TypesValid(l) && Needed(l, a) && Needed(l, b) && a != b
    ensures Where(ps, a) != Where(ps, b)
  {
    PlanHolds(l, 1, a);
    PlanHolds(l, 1, b);
    var slots := Plan(l, 1);
    var k :| 0 <= k < |slots| && slots[k] == a;
    var m :| 0 <= m < |slots| && slots[m] == b;
    LayoutSound(l, ps, size, k);
    LayoutSound(l, ps, size, m);
  }

  /** Which slot an offset of a property belongs to. */
  lemma UsesSlot(l: Layout, ps: seq<Property>, j: nat, o: nat) returns (s: Slot)
    requires l.Valid() && SameFile(l, ps) && j < |ps| && !l.named[j] && Uses(ps[j], o)
    ensures s.i == j && Needed(l, s) && Where(ps, s) == o
  {
    SameFileAt(l, ps, j);
    s := Slot(j, o != ps[j].offset);
  }

  /** The layout keeps unrequested properties apart. */
  lemma LayoutDisjoint(l: Layout, ps: seq<Property>, size: nat)
    requires l.Valid() && SameFile(l, ps) && Packed(l, ps, Plan(l, 1), size) && TypesValid(l)
    ensures Disjoint(ps, l.named, false)
  {
    forall j | 0 <= j < |ps| && l.named[j] == false && ps[j].isList ensures ps[j].offset != ps[j].countOffset {
      SameFileAt(l, ps, j);
      SlotsDiffer(l, ps, size, Slot(j, false), Slot(j, true));
    }
    forall i, j, o: nat | 0 <= i < j < |ps| && l.named[i] == l.named[j] == false && Uses(ps[i], o) ensures !Uses(ps[j], o) {
      if Uses(ps[j], o) {
        var a := UsesSlot(l, ps, i, o);
        var b := UsesSlot(l, ps, j, o);
        SlotsDiffer(l, ps, size, a, b);
      }
    }
  }

  lemma SameTypesCarry(f: Floats, be: bool, p: Property, x: Field)
    requires FieldOk(f, be, p, x) && InternalSame(p)
    ensures InMemory(f, p, x)
  {
    assert Unfold(0);
  }

  /** With the unrequested properties laid out by setup_other_props, reading an element and
      writing it again with the same selection reproduces its bytes. */
  lemma OtherPropsSurvive(l: Layout, ps: seq<Property>, size: nat, f: Floats, be: bool, mem: Memory, s: seq<Byte>,
                          xs: seq<Field>, rest: seq<Byte>)
    requires l.Valid() && SameFile(l, ps) && Packed(l, ps, Plan(l, 1), size) && TypesValid(l) && SameTypes(l.named, ps)
    requires FloatsOk(f) && ParseElement(f, be, ps, |ps|, s) == Done(xs, rest)
    requires (forall j :: 0 <= j < |ps| ==> Swaps(be, ps[j])) && forall j :: 0 <= j < |xs| ==> CountOk(xs[j])
    requires Disjoint(ps, l.named, true)
    requires forall j :: 0 <= j < |ps| && j < |xs| && l.named[j] ==> InMemory(f, ps[j], xs[j])
    ensures var r := GetElement(f, be, ps, l.named, true, mem, s);
            && r.Done? && r.rest == rest
            && s == ElementBytes(f, be, ps, FieldsOf(f, ps, l.named, r.value.user, r.value.other), |ps|) + rest
  {
    LayoutDisjoint(l, ps, size);
    ElementReprints(f, be, ps, |ps|, s, xs, rest);
    forall j | 0 <= j < |ps| ensures InMemory(f, ps[j], xs[j]) {
      if !l.named[j] { SameTypesCarry(f, be, ps[j], xs[j]); }
    }
    RewriteReproduces(f, be, ps, l.named, mem, s, xs, rest);
  }
}
