/** The replicated position and velocity arrays of the n-body simulation
    (examples/eqNBody/sharedData.cpp, sharedDataProxy.cpp). Every node holds both arrays in
    full, computes its own slice, and copies the other slices from their owners' commits. */
module NBodyMemory {
  import opened Hiding
  import opened Bytes
  import opened NBodyFrameData
  import opened NBodyBarrier
  import opened NBodySlices

  /** What one commit of a proxy puts on the stream (SharedDataProxy::serialize). */
  datatype Update = Update(offset: nat, numBytes: nat, pos: seq<Byte>, vel: seq<Byte>)

  /** version counts the commits that this proxy has made or applied. */
  datatype Proxy = Proxy(id: nat, offset: nat, numBytes: nat, version: nat)

  datatype Replica = Replica(pos: seq<Byte>, vel: seq<Byte>, proxies: seq<Proxy>)

  /** All commits made so far, by owner; version v of owner p is entry v - 1. */
  type Commits = map<nat, seq<Update>>

  function Log(commits: Commits, id: nat): seq<Update> { if id in commits then commits[id] else [] }

  // ---- Copying slices ---------------------------------------------------------------------

  /** Overwriting a part of an array; one that does not fit is not written. */
  function Overwrite(mem: seq<Byte>, first: nat, data: seq<Byte>): (r: seq<Byte>)
    ensures |r| == |mem|
    ensures first + |data| <= |mem| ==> forall k :: 0 <= k < |mem| ==>
              r[k] == if first <= k < first + |data| then data[k - first] else mem[k]
  {
    var after := first + |data|;
    if after <= |mem| then mem[..first] + data + mem[after..] else mem
  }

  /** SharedDataProxy::deserialize on mapped proxy i. */
  function Apply(r: Replica, i: nat, u: Update): Replica {
    var first := 4 * u.offset;
    var proxies := if i < |r.proxies|
                   then r.proxies[i := r.proxies[i].(offset := u.offset, numBytes := u.numBytes, version := r.proxies[i].version + 1)]
                   else r.proxies;
    Replica(Overwrite(r.pos, first, u.pos), Overwrite(r.vel, first, u.vel), proxies)
  }

  function Replay(r: Replica, i: nat, us: seq<Update>): Replica {
    if us == [] then r else Apply(Replay(r, i, us[..|us| - 1]), i, us[|us| - 1])
  }

  /** co::Object::sync: all commits up to the version, in order; never backwards. */
  function Sync(r: Replica, i: nat, log: seq<Update>, version: nat): Replica {
    if i < |r.proxies| && r.proxies[i].version < version <= |log|
    then Replay(r, i, log[r.proxies[i].version..version])
    else r
  }

  /** SharedData::syncMemory for the proxies 1 .. n - 1. */
  function SyncTo(r: Replica, table: seq<Entry>, commits: Commits, n: nat): (s: Replica)
  {
    if n <= 1 then r
    else
      var i := n - 1;
      SyncOne(SyncTo(r, table, commits, i), table, commits, i)
  }

  function SyncOne(r: Replica, table: seq<Entry>, commits: Commits, i: nat): Replica {
    if i < |r.proxies|
    then var id := r.proxies[i].id; Sync(r, i, Log(commits, id), VersionFor(table, id))
    else r
  }

  /** n bytes from first. */
  function Slice(mem: seq<Byte>, first: nat, n: nat): (r: seq<Byte>)
    ensures first + n <= |mem| ==> |r| == n && forall k :: 0 <= k < n ==> r[k] == mem[first + k]
  {
    var after := first + n;
    if after <= |mem| then mem[first..after] else []
  }

  /** SharedDataProxy::serialize of proxy i; colours are not sent. */
  function Serialized(r: Replica, i: nat): Update
    requires i < |r.proxies|
  {
    var p := r.proxies[i];
    var first := 4 * p.offset;
    Update(p.offset, p.numBytes, Slice(r.pos, first, p.numBytes), Slice(r.vel, first, p.numBytes))
  }

  /** mapObject: a new proxy, and the instance data of its owner's commit number v. */
  function MapOne(r: Replica, id: nat, log: seq<Update>, v: nat): Replica {
    if 0 < v <= |log| then
      var u := log[v - 1];
      Replica(Overwrite(r.pos, 4 * u.offset, u.pos), Overwrite(r.vel, 4 * u.offset, u.vel),
              r.proxies + [Proxy(id, u.offset, u.numBytes, v)])
    else r
  }

  /** Which commit of each owner a mapping finds. */
  type Found = map<nat, nat>

  function At(at: Found, id: nat): nat { if id in at then at[id] else 0 }

  /** SharedData::mapMemory for the first n rows of the table. */
  function MapTo(r: Replica, own: nat, table: seq<Entry>, commits: Commits, at: Found, n: nat): Replica
    requires n <= |table|
  {
    if n == 0 then r
    else
      var i := n - 1;
      MapRow(MapTo(r, own, table, commits, at, i), own, table[i].id, commits, at)
  }

  function MapRow(r: Replica, own: nat, id: nat, commits: Commits, at: Found): Replica {
    if id == own then r else MapOne(r, id, Log(commits, id), At(at, id))
  }

  /** registerMemory: the local proxy comes first, and its first commit is version 1. */
  function WithOwn(r: Replica, id: nat, offset: nat, numBytes: nat): Replica {
    r.(proxies := [Proxy(id, offset, numBytes, 1)])
  }

  class SharedData {
    var pos: seq<Byte>
    var vel: seq<Byte>
    var proxies: seq<Proxy>
    const frameData: FrameData

    ghost function State(): Replica reads this { Replica(pos, vel, proxies) }

    constructor (frameData: FrameData, numBodies: nat)
      ensures this.frameData == frameData && proxies == []
      ensures pos == vel && |pos| == 16 * numBodies && forall k :: 0 <= k < |pos| ==> pos[k] == 0
    {
      this.frameData := frameData;
      pos := seq(16 * numBodies, i => 0);
      vel := seq(16 * numBodies, i => 0);
      proxies := [];
    }

    /** The local proxy comes first; its first commit is version 1. */
    method RegisterMemory(id: nat, numBodies: nat, start: real, end: real) returns (u: Update, e: Event)
      requires 0.0 <= start <= end <= 1.0 && |pos| == |vel| == 16 * numBodies && proxies == []
      modifies this
      ensures pos == old(pos) && vel == old(vel)
      ensures |proxies| == 1 && proxies[0].id == id && proxies[0].version == 1
      ensures proxies[0].offset == (start * (4 * numBodies) as real).Floor
      ensures proxies[0].numBytes == ((end - start) * (16 * numBodies) as real).Floor
      ensures u == Serialized(State(), 0) && e == DataChanged(id, start, end)
    {
      ScaleUp(start, 4 * numBodies);
      ScaleUp(end - start, 16 * numBodies);
      var offset := (start * (4 * numBodies) as real).Floor;
      var numBytes := ((end - start) * (16 * numBodies) as real).Floor;
      proxies := [Proxy(id, offset, numBytes, 1)];
      u := Serialized(Replica(pos, vel, proxies), 0);
      e := DataChanged(id, start, end);
    }

    /** One proxy for every other owner in the table; LBCHECK stops the program if an owner's
        object cannot be mapped. */
    method MapMemory(commits: Commits, at: Found)
      requires frameData.Valid() && |proxies| == 1
      requires forall i :: 0 <= i < frameData.numDataProxies ==>
                 0 < At(at, frameData.dataProxyID[i].identifier) <= |Log(commits, frameData.dataProxyID[i].identifier)|
      modifies this
      ensures State() == MapTo(old(State()), old(proxies)[0].id, frameData.Table(), commits, at, |frameData.Table()|)
    {
      var own := proxies[0].id;
      var i := 0;
      while i < frameData.numDataProxies
        invariant i <= frameData.numDataProxies
        invariant State() == MapTo(old(State()), own, frameData.Table(), commits, at, i)
      {
        var pid := frameData.dataProxyID[i].identifier;
        var next := MapRow(Replica(pos, vel, proxies), own, pid, commits, at);
        pos, vel, proxies := next.pos, next.vel, next.proxies;
        i := i + 1;
      }
    }

    method SyncMemory(commits: Commits)
      requires frameData.Valid() && frameData.numDataProxies <= |proxies|
      modifies this
      ensures State() == SyncTo(old(State()), frameData.Table(), commits, frameData.numDataProxies)
    {
      var i := 1;
      while i < frameData.numDataProxies
        invariant 1 <= i && (i <= frameData.numDataProxies || i == 1)
        invariant State() == SyncTo(old(State()), frameData.Table(), commits, i) && |proxies| == old(|proxies|)
      {
        var version := frameData.GetVersionForProxyID(proxies[i].id);
        var next := Sync(Replica(pos, vel, proxies), i, Log(commits, proxies[i].id), version);
        SyncProxies(State(), i, Log(commits, proxies[i].id), version);
        pos, vel, proxies := next.pos, next.vel, next.proxies;
        i := i + 1;
      }
    }

    /** The owner's slice of the device arrays goes into the host arrays and is committed. */
    method UpdateMemory(devicePos: seq<Byte>, deviceVel: seq<Byte>, start: real, end: real)
      returns (u: Update, e: Event)
      requires |proxies| > 0 && |devicePos| == |pos| == |vel| == |deviceVel|
      requires 4 * proxies[0].offset + proxies[0].numBytes <= |pos|
      modifies this
      ensures var own, first := old(proxies)[0], 4 * old(proxies)[0].offset;
              && u == Update(own.offset, own.numBytes, Slice(devicePos, first, own.numBytes), Slice(deviceVel, first, own.numBytes))
              && State() == Apply(old(State()), 0, u)
              && e == ProxyChanged(own.id, own.version + 1, start, end)
    {
      var own := proxies[0];
      var first := 4 * own.offset;
      pos := Overwrite(pos, first, Slice(devicePos, first, own.numBytes));
      vel := Overwrite(vel, first, Slice(deviceVel, first, own.numBytes));
      proxies := proxies[0 := own.(version := own.version + 1)];
      u := Serialized(Replica(pos, vel, proxies), 0);
      assert u.pos == Slice(devicePos, first, own.numBytes);
      assert u.vel == Slice(deviceVel, first, own.numBytes);
      e := ProxyChanged(own.id, own.version + 1, start, end);
    }
  }

  lemma ScaleUp(x: real, n: nat)
    requires 0.0 <= x
    ensures 0.0 <= x * n as real
  {
  }

  lemma {:induction false} ReplayProxies(r: Replica, i: nat, us: seq<Update>)
    requires i < |r.proxies|
    ensures |Replay(r, i, us).proxies| == |r.proxies| && Replay(r, i, us).proxies[i].version == r.proxies[i].version + |us|
    ensures Replay(r, i, us).proxies[i].id == r.proxies[i].id
    ensures forall j :: 0 <= j < |r.proxies| && j != i ==> Replay(r, i, us).proxies[j] == r.proxies[j]
  {
    if us != [] { ReplayProxies(r, i, us[..|us| - 1]); }
  }

  lemma SyncProxies(r: Replica, i: nat, log: seq<Update>, version: nat)
    requires i < |r.proxies|
    ensures |Sync(r, i, log, version).proxies| == |r.proxies|
  {
    if r.proxies[i].version < version <= |log| {
      ReplayProxies(r, i, log[r.proxies[i].version..version]);
    }
  }

  // ---- What synchronising keeps -----------------------------------------------------------

  /** Every commit of owner p carries p's slice. */
  ghost predicate OwnSlices(bounds: seq<real>, numBodies: nat, commits: Commits) {
    forall p: nat, v: nat :: p < Proxies(bounds) && v < |Log(commits, p)| ==> SliceOf(bounds, numBodies, p, Log(commits, p)[v])
  }

  ghost predicate SliceOf(bounds: seq<real>, numBodies: nat, p: nat, u: Update) {
    && u.offset == Offset(bounds, numBodies, p)
    && u.numBytes == NumBytes(bounds, numBodies, p) == |u.pos| == |u.vel|
  }

  /** The arrays hold commit u. */
  ghost predicate Shows(r: Replica, u: Update) {
    && 4 * u.offset + |u.pos| <= |r.pos| && Slice(r.pos, 4 * u.offset, |u.pos|) == u.pos
    && 4 * u.offset + |u.vel| <= |r.vel| && Slice(r.vel, 4 * u.offset, |u.vel|) == u.vel
  }

  /** A proxy that has applied v commits shows the last of them. */
  ghost predicate Current(r: Replica, commits: Commits, p: Proxy) {
    0 < p.version <= |Log(commits, p.id)| && Shows(r, Log(commits, p.id)[p.version - 1])
  }

  /** Proxies of different owners, each showing the version it has applied. */
  ghost predicate Good(bounds: seq<real>, numBodies: nat, commits: Commits, r: Replica) {
    && |r.pos| == |r.vel| == 16 * numBodies
    && DistinctIds(r.proxies)
    && (forall i :: 0 <= i < |r.proxies| ==> Fine(bounds, commits, r, r.proxies[i]))
  }

  ghost predicate DistinctIds(proxies: seq<Proxy>) {
    forall i, j :: 0 <= i < j < |proxies| ==> proxies[i].id != proxies[j].id
  }

  ghost predicate Fine(bounds: seq<real>, commits: Commits, r: Replica, p: Proxy) {
    forall key {:trigger Unfold(key)} :: Unfold(key) ==> p.id < Proxies(bounds) && Current(r, commits, p)
  }

  lemma OverwriteTwice(mem: seq<Byte>, first: nat, a: seq<Byte>, b: seq<Byte>)
    requires first + |a| <= |mem| && |a| == |b|
    ensures Overwrite(Overwrite(mem, first, a), first, b) == Overwrite(mem, first, b)
  {
  }

  /** Replaying commits of one slice leaves only the last. */
  lemma {:induction false} ReplayIsLast(bounds: seq<real>, numBodies: nat, p: nat, r: Replica, i: nat, us: seq<Update>)
    requires Tiling(bounds) && p < Proxies(bounds) && |r.pos| == |r.vel| == 16 * numBodies
    requires us != [] && forall k :: 0 <= k < |us| ==> SliceOf(bounds, numBodies, p, us[k])
    ensures var u := us[|us| - 1];
            && Replay(r, i, us).pos == Overwrite(r.pos, 4 * u.offset, u.pos)
            && Replay(r, i, us).vel == Overwrite(r.vel, 4 * u.offset, u.vel)
  {
    if |us| > 1 {
      var front, u, w := us[..|us| - 1], us[|us| - 1], us[|us| - 2];
      ReplayIsLast(bounds, numBodies, p, r, i, front);
      SliceFits(bounds, numBodies, p);
      assert SliceOf(bounds, numBodies, p, w);
      OverwriteTwice(r.pos, 4 * u.offset, w.pos, u.pos);
      OverwriteTwice(r.vel, 4 * u.offset, w.vel, u.vel);
    } else {
      assert us[..|us| - 1] == [];
    }
  }

  lemma OverwriteShows(mem: seq<Byte>, first: nat, data: seq<Byte>)
    requires first + |data| <= |mem|
    ensures Slice(Overwrite(mem, first, data), first, |data|) == data
  {
  }

  lemma OverwriteApart(mem: seq<Byte>, first: nat, data: seq<Byte>, from: nat, n: nat)
    requires first + |data| <= |mem| && from + n <= |mem|
    requires data == [] || n == 0 || first + |data| <= from || from + n <= first
    ensures Slice(Overwrite(mem, first, data), from, n) == Slice(mem, from, n)
  {
  }

  lemma NotBoth(bounds: seq<real>, numBodies: nat, p: nat, q: nat, k: int, first: int, from: int, m: int, n: int)
    requires EachByteOnce(bounds, numBodies) && p < Proxies(bounds) && q < Proxies(bounds) && p != q
    requires first == 4 * Offset(bounds, numBodies, p) && m == NumBytes(bounds, numBodies, p)
    requires from == 4 * Offset(bounds, numBodies, q) && n == NumBytes(bounds, numBodies, q)
    ensures 0 <= k < 16 * numBodies ==> !(first <= k < first + m && from <= k < from + n)
  {
    if 0 <= k < 16 * numBodies {
      assert OwnedOnce(bounds, numBodies, k);
      assert Owns(bounds, numBodies, p, k) <==> first <= k < first + m;
      assert Owns(bounds, numBodies, q, k) <==> from <= k < from + n;
    }
  }

  lemma SlicesApart(bounds: seq<real>, numBodies: nat, p: nat, q: nat, first: int, from: int, m: int, n: int)
    requires Tiling(bounds) && EachByteOnce(bounds, numBodies) && p < Proxies(bounds) && q < Proxies(bounds) && p != q
    requires first == 4 * Offset(bounds, numBodies, p) && m == NumBytes(bounds, numBodies, p)
    requires from == 4 * Offset(bounds, numBodies, q) && n == NumBytes(bounds, numBodies, q)
    ensures m == 0 || n == 0 || first + m <= from || from + n <= first
  {
    SliceFits(bounds, numBodies, p);
    SliceFits(bounds, numBodies, q);
    NotBoth(bounds, numBodies, p, q, first, first, from, m, n);
    NotBoth(bounds, numBodies, p, q, from, first, from, m, n);
  }

  /** Applying another owner's commit does not touch what a proxy shows. */
  lemma ShowsKept(bounds: seq<real>, numBodies: nat, p: nat, q: nat, r: Replica, s: Replica, u: Update, w: Update)
    requires Tiling(bounds) && EachByteOnce(bounds, numBodies) && p < Proxies(bounds) && q < Proxies(bounds) && p != q
    requires SliceOf(bounds, numBodies, p, u) && SliceOf(bounds, numBodies, q, w) && Shows(r, w)
    requires |r.pos| == |r.vel| == 16 * numBodies
    requires s.pos == Overwrite(r.pos, 4 * u.offset, u.pos) && s.vel == Overwrite(r.vel, 4 * u.offset, u.vel)
    ensures Shows(s, w)
  {
    SliceFits(bounds, numBodies, p);
    SlicesApart(bounds, numBodies, p, q, 4 * u.offset, 4 * w.offset, u.numBytes, w.numBytes);
    OverwriteApart(r.pos, 4 * u.offset, u.pos, 4 * w.offset, |w.pos|);
    OverwriteApart(r.vel, 4 * u.offset, u.vel, 4 * w.offset, |w.vel|);
  }

  ghost predicate World(bounds: seq<real>, numBodies: nat, commits: Commits) {
    forall key {:trigger Unfold(key)} :: Unfold(key) ==>
      Tiling(bounds) && EachByteOnce(bounds, numBodies) && OwnSlices(bounds, numBodies, commits)
  }

  /** The version that synchronising leaves a proxy at. */
  function Raised(commits: Commits, p: Proxy, version: nat): nat {
    if p.version < version <= |Log(commits, p.id)| then version else p.version
  }

  /** Synchronising one proxy brings it to the version and keeps everything else. */
  lemma SyncKeeps(bounds: seq<real>, numBodies: nat, commits: Commits, r: Replica, i: nat, version: nat, s: Replica)
    requires World(bounds, numBodies, commits) && Good(bounds, numBodies, commits, r)
    requires i < |r.proxies| && s == Sync(r, i, Log(commits, r.proxies[i].id), version)
    ensures Good(bounds, numBodies, commits, s) && |s.proxies| == |r.proxies|
    ensures forall j :: 0 <= j < |r.proxies| && j != i ==> s.proxies[j] == r.proxies[j]
    ensures s.proxies[i].id == r.proxies[i].id && s.proxies[i].version == Raised(commits, r.proxies[i], version)
  {
    var p, log := r.proxies[i].id, Log(commits, r.proxies[i].id);
    if r.proxies[i].version < version <= |log| {
      SyncForward(bounds, numBodies, commits, r, i, version, s, p, log);
    }
  }

  lemma ReplayShows(bounds: seq<real>, numBodies: nat, p: nat, r: Replica, i: nat, us: seq<Update>, u: Update, s: Replica)
    requires Tiling(bounds) && p < Proxies(bounds) && |r.pos| == |r.vel| == 16 * numBodies
    requires us != [] && (forall k :: 0 <= k < |us| ==> SliceOf(bounds, numBodies, p, us[k]))
    requires u == us[|us| - 1] && s == Replay(r, i, us)
    ensures Shows(s, u) && |s.pos| == |s.vel| == 16 * numBodies
    ensures s.pos == Overwrite(r.pos, 4 * u.offset, u.pos) && s.vel == Overwrite(r.vel, 4 * u.offset, u.vel)
  {
    ReplayIsLast(bounds, numBodies, p, r, i, us);
    SliceFits(bounds, numBodies, p);
    OverwriteShows(r.pos, 4 * u.offset, u.pos);
    OverwriteShows(r.vel, 4 * u.offset, u.vel);
  }

  lemma CurrentKept(bounds: seq<real>, numBodies: nat, commits: Commits, r: Replica, s: Replica, p: nat, u: Update, q: Proxy)
    requires World(bounds, numBodies, commits) && |r.pos| == |r.vel| == 16 * numBodies
    requires p < Proxies(bounds) && q.id < Proxies(bounds) && p != q.id && SliceOf(bounds, numBodies, p, u)
    requires s.pos == Overwrite(r.pos, 4 * u.offset, u.pos) && s.vel == Overwrite(r.vel, 4 * u.offset, u.vel)
    requires Current(r, commits, q)
    ensures Current(s, commits, q)
  {
    assert Unfold(0);
    var w := Log(commits, q.id)[q.version - 1];
    assert SliceOf(bounds, numBodies, q.id, w);
    ShowsKept(bounds, numBodies, p, q.id, r, s, u, w);
  }

  lemma SyncData(bounds: seq<real>, numBodies: nat, commits: Commits, r: Replica, i: nat, from: nat, version: nat,
                 s: Replica, p: nat, u: Update)
    requires World(bounds, numBodies, commits) && |r.pos| == |r.vel| == 16 * numBodies && p < Proxies(bounds)
    requires from < version <= |Log(commits, p)| && u == Log(commits, p)[version - 1]
    requires s == Replay(r, i, Log(commits, p)[from..version])
    ensures Shows(s, u) && |s.pos| == |s.vel| == 16 * numBodies && SliceOf(bounds, numBodies, p, u)
    ensures s.pos == Overwrite(r.pos, 4 * u.offset, u.pos) && s.vel == Overwrite(r.vel, 4 * u.offset, u.vel)
  {
    assert Unfold(0);
    var us := Log(commits, p)[from..version];
    forall v | 0 <= v < |us| ensures SliceOf(bounds, numBodies, p, us[v]) {
      var at := from + v;
      assert us[v] == Log(commits, p)[at];
    }
    ReplayShows(bounds, numBodies, p, r, i, us, u, s);
  }

  lemma SameIds(a: seq<Proxy>, b: seq<Proxy>)
    requires DistinctIds(a) && |a| == |b| && forall i :: 0 <= i < |a| ==> a[i].id == b[i].id
    ensures DistinctIds(b)
  {
  }

  lemma Different(a: seq<Proxy>, i: nat, j: nat)
    requires DistinctIds(a) && i < |a| && j < |a| && i != j
    ensures a[i].id != a[j].id
  {
  }

  lemma SyncFine(bounds: seq<real>, numBodies: nat, commits: Commits, r: Replica, i: nat, from: nat, version: nat,
                 s: Replica, p: nat, q: Proxy, after: Proxy)
    requires World(bounds, numBodies, commits) && |r.pos| == |r.vel| == 16 * numBodies && p < Proxies(bounds)
    requires Fine(bounds, commits, r, q)
    requires from < version <= |Log(commits, p)| && s == Replay(r, i, Log(commits, p)[from..version])
    ensures |s.pos| == |s.vel| == 16 * numBodies
    ensures after.id == p && after.version == version ==> Fine(bounds, commits, s, after)
    ensures q.id != p && after == q ==> Fine(bounds, commits, s, after)
  {
    var u := Log(commits, p)[version - 1];
    SyncData(bounds, numBodies, commits, r, i, from, version, s, p, u);
    if q.id != p { FineKept(bounds, numBodies, commits, r, s, p, u, q); }
    if after.id == p && after.version == version { FineNow(bounds, commits, s, after, u); }
  }

  lemma FineNow(bounds: seq<real>, commits: Commits, r: Replica, p: Proxy, u: Update)
    requires p.id < Proxies(bounds) && 0 < p.version <= |Log(commits, p.id)| && u == Log(commits, p.id)[p.version - 1] && Shows(r, u)
    ensures Fine(bounds, commits, r, p)
  {
  }

  lemma FineId(bounds: seq<real>, commits: Commits, r: Replica, p: Proxy)
    requires Fine(bounds, commits, r, p)
    ensures p.id < Proxies(bounds)
  {
    assert Unfold(0);
  }

  lemma SyncForward(bounds: seq<real>, numBodies: nat, commits: Commits, r: Replica, i: nat, version: nat, s: Replica,
                    p: nat, log: seq<Update>)
    requires World(bounds, numBodies, commits) && Good(bounds, numBodies, commits, r)
    requires i < |r.proxies| && p == r.proxies[i].id && log == Log(commits, p)
    requires r.proxies[i].version < version <= |log| && s == Replay(r, i, log[r.proxies[i].version..version])
    ensures Good(bounds, numBodies, commits, s) && |s.proxies| == |r.proxies|
    ensures forall j :: 0 <= j < |r.proxies| && j != i ==> s.proxies[j] == r.proxies[j]
    ensures s.proxies[i].id == p && s.proxies[i].version == version
  {
    ReplayProxies(r, i, log[r.proxies[i].version..version]);
    SameIds(r.proxies, s.proxies);
    FineId(bounds, commits, r, r.proxies[i]);
    SyncFine(bounds, numBodies, commits, r, i, r.proxies[i].version, version, s, p, r.proxies[i], s.proxies[i]);
    forall j | 0 <= j < |r.proxies| ensures Fine(bounds, commits, s, s.proxies[j]) {
      SyncFine(bounds, numBodies, commits, r, i, r.proxies[i].version, version, s, p, r.proxies[j], s.proxies[j]);
      if j != i {
        Different(r.proxies, i, j);
      }
    }
  }

  // ---- What a new commit keeps ------------------------------------------------------------

  function WithCommit(commits: Commits, p: nat, u: Update): Commits { commits[p := Log(commits, p) + [u]] }

  /** A commit takes nothing from the replicas that have not seen it yet. */
  lemma CommitKeeps(bounds: seq<real>, numBodies: nat, commits: Commits, r: Replica, p: nat, u: Update)
    requires Good(bounds, numBodies, commits, r)
    ensures Good(bounds, numBodies, WithCommit(commits, p, u), r)
  {
    forall i | 0 <= i < |r.proxies| ensures Fine(bounds, WithCommit(commits, p, u), r, r.proxies[i]) {
      CommitKeepsFine(bounds, commits, r, r.proxies[i], p, u);
    }
  }

  lemma CommitKeepsFine(bounds: seq<real>, commits: Commits, r: Replica, q: Proxy, p: nat, u: Update)
    requires Fine(bounds, commits, r, q)
    ensures Fine(bounds, WithCommit(commits, p, u), r, q)
  {
    assert Unfold(0);
    var before, after := Log(commits, q.id), Log(WithCommit(commits, p, u), q.id);
    assert forall v :: 0 <= v < |before| ==> after[v] == before[v];
  }

  lemma CommitKeepsWorld(bounds: seq<real>, numBodies: nat, commits: Commits, p: nat, u: Update)
    requires World(bounds, numBodies, commits) && SliceOf(bounds, numBodies, p, u)
    ensures World(bounds, numBodies, WithCommit(commits, p, u))
  {
    assert Unfold(0);
    forall q: nat, v: nat | q < Proxies(bounds) && v < |Log(WithCommit(commits, p, u), q)|
      ensures SliceOf(bounds, numBodies, q, Log(WithCommit(commits, p, u), q)[v])
    {
      if v < |Log(commits, q)| { assert SliceOf(bounds, numBodies, q, Log(commits, q)[v]); }
    }
  }

  /** The owner's updateMemory leaves it with its newest commit in its own slice. */
  lemma UpdateKeepsNewest(bounds: seq<real>, numBodies: nat, commits: Commits, r: Replica, p: nat, u: Update)
    requires World(bounds, numBodies, commits) && Good(bounds, numBodies, commits, r) && OwnNewest(commits, r)
    requires r.proxies[0].id == p && SliceOf(bounds, numBodies, p, u)
    ensures Good(bounds, numBodies, WithCommit(commits, p, u), Apply(r, 0, u))
    ensures OwnNewest(WithCommit(commits, p, u), Apply(r, 0, u))
  {
    var more := WithCommit(commits, p, u);
    var log, n := Log(more, p), |Log(commits, p)|;
    CommitKeeps(bounds, numBodies, commits, r, p, u);
    CommitKeepsWorld(bounds, numBodies, commits, p, u);
    ReplayOne(r, 0, u, log[n..n + 1]);
    SyncForward(bounds, numBodies, more, r, 0, n + 1, Apply(r, 0, u), p, log);
  }

  lemma ReplayOne(r: Replica, i: nat, u: Update, us: seq<Update>)
    requires us == [u]
    ensures Replay(r, i, us) == Apply(r, i, u)
  {
    assert us[..|us| - 1] == [];
  }

  /** The replica's own slice is its newest commit. */
  ghost predicate OwnNewest(commits: Commits, r: Replica) {
    |r.proxies| > 0 && r.proxies[0].version == |Log(commits, r.proxies[0].id)|
  }

  // ---- What registering and mapping establish -----------------------------------------------

  lemma RegisterGood(bounds: seq<real>, numBodies: nat, commits: Commits, r: Replica, p: nat, s: Replica, u: Update)
    requires World(bounds, numBodies, commits) && p < Proxies(bounds) && |r.pos| == |r.vel| == 16 * numBodies && Log(commits, p) == []
    requires Offset(bounds, numBodies, p) >= 0 && NumBytes(bounds, numBodies, p) >= 0
    requires s == WithOwn(r, p, Offset(bounds, numBodies, p), NumBytes(bounds, numBodies, p)) && u == Serialized(s, 0)
    ensures SliceOf(bounds, numBodies, p, u) && World(bounds, numBodies, WithCommit(commits, p, u))
    ensures Good(bounds, numBodies, WithCommit(commits, p, u), s) && OwnNewest(WithCommit(commits, p, u), s)
  {
    assert Unfold(0);
    SliceFits(bounds, numBodies, p);
    CommitKeepsWorld(bounds, numBodies, commits, p, u);
    assert Log(WithCommit(commits, p, u), p) == [u];
    assert Shows(s, u);
  }

  ghost predicate Has(proxies: seq<Proxy>, p: nat) { exists i :: 0 <= i < |proxies| && proxies[i].id == p }

  ghost predicate Complete(bounds: seq<real>, r: Replica) {
    forall p: nat :: p < Proxies(bounds) ==> Has(r.proxies, p)
  }

  lemma MapOneGood(bounds: seq<real>, numBodies: nat, commits: Commits, r: Replica, id: nat, v: nat, s: Replica)
    requires World(bounds, numBodies, commits) && Good(bounds, numBodies, commits, r) && id < Proxies(bounds)
    requires !Has(r.proxies, id) && 0 < v <= |Log(commits, id)| && s == MapOne(r, id, Log(commits, id), v)
    ensures Good(bounds, numBodies, commits, s)
    ensures s.proxies[..|r.proxies|] == r.proxies && |s.proxies| == |r.proxies| + 1
    ensures s.proxies[|r.proxies|].id == id && s.proxies[|r.proxies|].version == v
  {
    var u := Log(commits, id)[v - 1];
    MappedShows(bounds, numBodies, commits, r, id, u, v, s);
    forall i, j | 0 <= i < j < |s.proxies| ensures s.proxies[i].id != s.proxies[j].id {
      assert s.proxies[i] == r.proxies[i];
      assert j < |r.proxies| ==> s.proxies[j] == r.proxies[j];
    }
    forall i | 0 <= i < |s.proxies| ensures Fine(bounds, commits, s, s.proxies[i]) {
      if i < |r.proxies| {
        assert s.proxies[i] == r.proxies[i];
        FineKept(bounds, numBodies, commits, r, s, id, u, r.proxies[i]);
      }
    }
  }

  lemma FineKept(bounds: seq<real>, numBodies: nat, commits: Commits, r: Replica, s: Replica, p: nat, u: Update, q: Proxy)
    requires World(bounds, numBodies, commits) && |r.pos| == |r.vel| == 16 * numBodies && p < Proxies(bounds)
    requires SliceOf(bounds, numBodies, p, u) && Fine(bounds, commits, r, q) && q.id != p
    requires s.pos == Overwrite(r.pos, 4 * u.offset, u.pos) && s.vel == Overwrite(r.vel, 4 * u.offset, u.vel)
    ensures Fine(bounds, commits, s, q)
  {
    assert Unfold(0);
    CurrentKept(bounds, numBodies, commits, r, s, p, u, q);
  }

  lemma MappedShows(bounds: seq<real>, numBodies: nat, commits: Commits, r: Replica, id: nat, u: Update, v: nat, s: Replica)
    requires World(bounds, numBodies, commits) && |r.pos| == |r.vel| == 16 * numBodies && id < Proxies(bounds)
    requires 0 < v <= |Log(commits, id)| && u == Log(commits, id)[v - 1] && s == MapOne(r, id, Log(commits, id), v)
    ensures SliceOf(bounds, numBodies, id, u) && |s.pos| == |s.vel| == 16 * numBodies
    ensures Fine(bounds, commits, s, Proxy(id, u.offset, u.numBytes, v))
  {
    assert Unfold(0);
    assert SliceOf(bounds, numBodies, id, Log(commits, id)[v - 1]);
    SliceFits(bounds, numBodies, id);
    OverwriteShows(r.pos, 4 * u.offset, u.pos);
    OverwriteShows(r.vel, 4 * u.offset, u.vel);
  }

  /** The owners in the first n rows. */
  ghost predicate Listed(table: seq<Entry>, n: nat, p: nat)
    requires n <= |table|
  {
    exists i :: 0 <= i < n && table[i].id == p
  }

  ghost predicate Rows(bounds: seq<real>, table: seq<Entry>, commits: Commits, at: Found) {
    && Distinct(table)
    && forall i :: 0 <= i < |table| ==> Findable(bounds, table[i].id, commits, at)
  }

  predicate Findable(bounds: seq<real>, id: nat, commits: Commits, at: Found) {
    id < Proxies(bounds) && 0 < At(at, id) <= |Log(commits, id)|
  }

  /** After mapping there is one proxy for every owner in the table and one for this node. */
  lemma {:induction false} MapToGood(bounds: seq<real>, numBodies: nat, commits: Commits, r: Replica, own: nat,
                                     table: seq<Entry>, at: Found, n: nat, s: Replica)
    requires World(bounds, numBodies, commits) && Good(bounds, numBodies, commits, r) && Rows(bounds, table, commits, at)
    requires |r.proxies| == 1 && r.proxies[0].id == own && n <= |table| && s == MapTo(r, own, table, commits, at, n)
    ensures Good(bounds, numBodies, commits, s) && |s.proxies| > 0 && s.proxies[0] == r.proxies[0]
    ensures forall p: nat :: Has(s.proxies, p) <==> p == own || Listed(table, n, p)
    ensures forall j :: 1 <= j < |s.proxies| ==> s.proxies[j].version == At(at, s.proxies[j].id)
    ensures |s.proxies| == if Listed(table, n, own) then n else n + 1
  {
    if n == 0 {
      assert forall p: nat :: Has(s.proxies, p) ==> p == own;
      assert Has(s.proxies, own) by { assert s.proxies[0].id == own; }
    } else {
      var i, id := n - 1, table[n - 1].id;
      var m := MapTo(r, own, table, commits, at, i);
      MapToGood(bounds, numBodies, commits, r, own, table, at, i, m);
      assert Findable(bounds, id, commits, at);
      assert !Listed(table, i, id);
      if id != own {
        MapOneGood(bounds, numBodies, commits, m, id, At(at, id), s);
        assert forall j :: 0 <= j < |m.proxies| ==> s.proxies[j] == m.proxies[j];
      }
      ListedNext(table, i, n, own);
      forall p: nat ensures Has(s.proxies, p) <==> p == own || Listed(table, n, p) {
        MapRowHas(table, i, n, own, id, m.proxies, s.proxies, p);
      }
    }
  }

  lemma MapRowHas(table: seq<Entry>, i: nat, n: nat, own: nat, id: nat, a: seq<Proxy>, b: seq<Proxy>, p: nat)
    requires n == i + 1 <= |table| && id == table[i].id && (Has(a, p) <==> p == own || Listed(table, i, p))
    requires if id == own then b == a && Has(a, own) else |b| == |a| + 1 && b[..|a|] == a && b[|a|].id == id
    ensures Has(b, p) <==> p == own || Listed(table, n, p)
  {
    ListedNext(table, i, n, p);
    if id != own { HasNext(a, b, id, p); }
  }

  lemma ListedNext(table: seq<Entry>, i: nat, n: nat, p: nat)
    requires n == i + 1 <= |table|
    ensures Listed(table, n, p) <==> Listed(table, i, p) || table[i].id == p
  {
    if Listed(table, n, p) && table[i].id != p {
      var k :| 0 <= k < n && table[k].id == p;
      assert k < i;
    }
  }

  lemma HasNext(a: seq<Proxy>, b: seq<Proxy>, id: nat, p: nat)
    requires |b| == |a| + 1 && b[..|a|] == a && b[|a|].id == id
    ensures Has(b, p) <==> Has(a, p) || p == id
  {
    assert forall k :: 0 <= k < |a| ==> b[k] == a[k];
    if Has(b, p) && p != id {
      var k :| 0 <= k < |b| && b[k].id == p;
      assert a[k].id == p;
    }
    if Has(a, p) {
      var k :| 0 <= k < |a| && a[k].id == p;
      assert b[k].id == p;
    }
  }

  /** The base case: registering and then mapping, with whatever table has arrived, leaves a
      replica that is good, has exactly one proxy for this node and for each owner in the table, at
      the commits that the mapping found, and shows its own newest commit. */
  lemma MapEstablishes(bounds: seq<real>, numBodies: nat, commits: Commits, r: Replica, own: nat, table: seq<Entry>,
                       at: Found, s: Replica)
    requires World(bounds, numBodies, commits) && Good(bounds, numBodies, commits, r) && Rows(bounds, table, commits, at)
    requires |r.proxies| == 1 && r.proxies[0].id == own && OwnNewest(commits, r)
    requires s == MapTo(r, own, table, commits, at, |table|)
    ensures Good(bounds, numBodies, commits, s) && OwnNewest(commits, s) && s.proxies[0] == r.proxies[0]
    ensures forall p: nat :: Has(s.proxies, p) <==> p == own || Registered(table, p)
    ensures forall j :: 1 <= j < |s.proxies| ==> s.proxies[j].version == At(at, s.proxies[j].id)
    ensures |s.proxies| == if Registered(table, own) then |table| else |table| + 1
  {
    MapToGood(bounds, numBodies, commits, r, own, table, at, |table|, s);
    forall p: nat ensures Listed(table, |table|, p) <==> Registered(table, p) { ListedAll(table, p); }
  }

  lemma ListedAll(table: seq<Entry>, p: nat)
    ensures Listed(table, |table|, p) <==> Registered(table, p)
  {
    if Registered(table, p) { assert table[Find(table, p)].id == p; }
  }

  // ---- Replicas agree ---------------------------------------------------------------------

  /** Synchronising with any table keeps a replica good. The mapped proxies before n go to
      exactly the versions that the table names, unless they are there already. */
  lemma {:induction false} SyncToKeeps(bounds: seq<real>, numBodies: nat, commits: Commits, table: seq<Entry>,
                                       r: Replica, n: nat, s: Replica)
    requires World(bounds, numBodies, commits) && Good(bounds, numBodies, commits, r) && s == SyncTo(r, table, commits, n)
    ensures Good(bounds, numBodies, commits, s) && |s.proxies| == |r.proxies|
    ensures |r.proxies| > 0 ==> s.proxies[0] == r.proxies[0]
    ensures forall j :: 0 <= j < |r.proxies| ==> s.proxies[j].id == r.proxies[j].id
    ensures forall j :: 1 <= j < |r.proxies| ==>
              s.proxies[j].version == if j < n then SyncedTo(commits, table, r.proxies[j]) else r.proxies[j].version
  {
    if n > 1 {
      var i := n - 1;
      var m := SyncTo(r, table, commits, i);
      SyncToKeeps(bounds, numBodies, commits, table, r, i, m);
      if i < |m.proxies| {
        SyncKeeps(bounds, numBodies, commits, m, i, VersionFor(table, m.proxies[i].id), s);
      }
    }
  }

  function SyncedTo(commits: Commits, table: seq<Entry>, p: Proxy): nat { Raised(commits, p, VersionFor(table, p.id)) }

  lemma FineVersion(bounds: seq<real>, commits: Commits, r: Replica, p: Proxy)
    requires Fine(bounds, commits, r, p)
    ensures 0 < p.version <= |Log(commits, p.id)| && p.id < Proxies(bounds)
  {
    assert Unfold(0);
  }

  /** The version that a table stands for. The first commit, of the registration, has no version
      in the table, but nobody can have mapped an older one. */
  function Named(table: seq<Entry>, p: nat): nat {
    var v := VersionFor(table, p);
    if v == 0 then 1 else v
  }

  ghost predicate AtTable(table: seq<Entry>, r: Replica) {
    forall i :: 0 <= i < |r.proxies| ==> r.proxies[i].version == Named(table, r.proxies[i].id)
  }

  /** No proxy is beyond the table, and the own one is exactly there. */
  ghost predicate NotBeyond(table: seq<Entry>, r: Replica) {
    && (forall i :: 0 <= i < |r.proxies| ==> r.proxies[i].version <= Named(table, r.proxies[i].id))
    && (|r.proxies| > 0 ==> r.proxies[0].version == Named(table, r.proxies[0].id))
  }

  /** The table names no version that does not exist. */
  ghost predicate Exist(bounds: seq<real>, commits: Commits, table: seq<Entry>) {
    forall p: nat :: p < Proxies(bounds) ==> VersionFor(table, p) <= |Log(commits, p)|
  }

  /** Synchronising brings every proxy to exactly what the table stands for, whatever has been
      committed since, if and only if the replica is not beyond the table before. */
  lemma SyncReachesTable(bounds: seq<real>, numBodies: nat, commits: Commits, table: seq<Entry>, r: Replica, s: Replica, n: nat)
    requires World(bounds, numBodies, commits) && Good(bounds, numBodies, commits, r) && Exist(bounds, commits, table)
    requires s == SyncTo(r, table, commits, n) && |r.proxies| <= n
    ensures AtTable(table, s) <==> NotBeyond(table, r)
    ensures Good(bounds, numBodies, commits, s) && |s.proxies| == |r.proxies|
    ensures forall i :: 0 <= i < |r.proxies| ==> s.proxies[i].id == r.proxies[i].id
  {
    SyncToKeeps(bounds, numBodies, commits, table, r, n, s);
    forall i | 0 <= i < |s.proxies|
      ensures r.proxies[i].version <= s.proxies[i].version
      ensures i > 0 && r.proxies[i].version <= Named(table, r.proxies[i].id) ==> s.proxies[i].version == Named(table, s.proxies[i].id)
    {
      FineVersion(bounds, commits, r, r.proxies[i]);
      assert VersionFor(table, r.proxies[i].id) <= |Log(commits, r.proxies[i].id)|;
    }
  }

  /** Commit number v of p. */
  function CommitAt(commits: Commits, p: nat, v: nat): Update {
    var log := Log(commits, p);
    if 0 < v <= |log| then log[v - 1] else Update(0, 0, [], [])
  }

  /** The arrays hold the commit of owner p that the table stands for. */
  ghost predicate ShowsOwner(commits: Commits, table: seq<Entry>, r: Replica, p: nat) {
    0 < Named(table, p) <= |Log(commits, p)| && Shows(r, CommitAt(commits, p, Named(table, p)))
  }

  lemma OwnerShown(bounds: seq<real>, numBodies: nat, commits: Commits, table: seq<Entry>, s: Replica, p: nat)
    requires Good(bounds, numBodies, commits, s) && AtTable(table, s) && Complete(bounds, s) && p < Proxies(bounds)
    ensures ShowsOwner(commits, table, s, p)
  {
    assert Unfold(0);
    assert Has(s.proxies, p);
    var i :| 0 <= i < |s.proxies| && s.proxies[i].id == p;
    assert Fine(bounds, commits, s, s.proxies[i]);
  }

  lemma ByteShown(bounds: seq<real>, numBodies: nat, p: nat, r: Replica, u: Update, k: int)
    requires SliceOf(bounds, numBodies, p, u) && Shows(r, u) && Owns(bounds, numBodies, p, k)
    requires 0 <= k < |r.pos| == |r.vel|
    ensures 0 <= k - 4 * u.offset < |u.pos| && |u.pos| == |u.vel|
    ensures r.pos[k] == u.pos[k - 4 * u.offset] && r.vel[k] == u.vel[k - 4 * u.offset]
  {
    var first := 4 * u.offset;
    var i := k - first;
    assert Slice(r.pos, first, |u.pos|)[i] == r.pos[first + i];
    assert Slice(r.vel, first, |u.vel|)[i] == r.vel[first + i];
  }

  lemma SameByte(bounds: seq<real>, numBodies: nat, a: Commits, b: Commits, table: seq<Entry>, s: Replica, t: Replica, k: int, p: nat)
    requires World(bounds, numBodies, a) && p < Proxies(bounds) && Owns(bounds, numBodies, p, k)
    requires ShowsOwner(a, table, s, p) && ShowsOwner(b, table, t, p)
    requires CommitAt(a, p, Named(table, p)) == CommitAt(b, p, Named(table, p))
    requires 0 <= k < |s.pos| == |s.vel| == |t.pos| == |t.vel|
    ensures s.pos[k] == t.pos[k] && s.vel[k] == t.vel[k]
  {
    var u := CommitAt(a, p, Named(table, p));
    CommitSlice(bounds, numBodies, a, p, Named(table, p), u);
    ByteShown(bounds, numBodies, p, s, u, k);
    ByteShown(bounds, numBodies, p, t, u, k);
  }

  lemma OwnerOf(bounds: seq<real>, numBodies: nat, commits: Commits, k: int) returns (p: nat)
    requires World(bounds, numBodies, commits) && 0 <= k < 16 * numBodies
    ensures p < Proxies(bounds) && Owns(bounds, numBodies, p, k)
  {
    assert Unfold(0);
    assert OwnedOnce(bounds, numBodies, k);
    p :| p < Proxies(bounds) && Owns(bounds, numBodies, p, k);
  }

  lemma CommitSlice(bounds: seq<real>, numBodies: nat, commits: Commits, p: nat, v: nat, u: Update)
    requires World(bounds, numBodies, commits) && p < Proxies(bounds) && 0 < v <= |Log(commits, p)| && u == CommitAt(commits, p, v)
    ensures SliceOf(bounds, numBodies, p, u)
  {
    assert Unfold(0);
    var i := v - 1;
    assert SliceOf(bounds, numBodies, p, Log(commits, p)[i]);
  }

  /** The commits that the table stands for are the same in both. */
  ghost predicate SameCommits(bounds: seq<real>, table: seq<Entry>, a: Commits, b: Commits) {
    forall p: nat :: p < Proxies(bounds) ==> CommitAt(a, p, Named(table, p)) == CommitAt(b, p, Named(table, p))
  }

  /** If the slices are a partition, complete replicas at one table are equal in every byte, even
      at different times. */
  lemma TableAgree(bounds: seq<real>, numBodies: nat, a: Commits, b: Commits, table: seq<Entry>, s: Replica, t: Replica)
    requires World(bounds, numBodies, a) && SameCommits(bounds, table, a, b)
    requires Good(bounds, numBodies, a, s) && AtTable(table, s) && Complete(bounds, s)
    requires Good(bounds, numBodies, b, t) && AtTable(table, t) && Complete(bounds, t)
    ensures s.pos == t.pos && s.vel == t.vel
  {
    forall k | 0 <= k < 16 * numBodies ensures s.pos[k] == t.pos[k] && s.vel[k] == t.vel[k] {
      var p := OwnerOf(bounds, numBodies, a, k);
      OwnerShown(bounds, numBodies, a, table, s, p);
      OwnerShown(bounds, numBodies, b, table, t, p);
      SameByte(bounds, numBodies, a, b, table, s, t, k, p);
    }
  }

  lemma SameIdsComplete(bounds: seq<real>, r: Replica, s: Replica)
    requires Complete(bounds, r) && |s.proxies| == |r.proxies|
    requires forall i :: 0 <= i < |r.proxies| ==> s.proxies[i].id == r.proxies[i].id
    ensures Complete(bounds, s)
  {
    forall p: nat | p < Proxies(bounds) ensures Has(s.proxies, p) {
      assert Has(r.proxies, p);
      var i :| 0 <= i < |r.proxies| && r.proxies[i].id == p;
      assert s.proxies[i].id == p;
    }
  }

  /** Synchronising to one table makes any two complete replicas that are not beyond it equal,
      whatever versions they had before and whatever was committed in between. */
  lemma ReplicasAgree(bounds: seq<real>, numBodies: nat, a: Commits, b: Commits, table: seq<Entry>,
                      r: Replica, q: Replica, s: Replica, t: Replica, n: nat)
    requires World(bounds, numBodies, a) && World(bounds, numBodies, b) && SameCommits(bounds, table, a, b)
    requires Good(bounds, numBodies, a, r) && Complete(bounds, r) && NotBeyond(table, r) && |r.proxies| <= n
    requires Good(bounds, numBodies, b, q) && Complete(bounds, q) && NotBeyond(table, q) && |q.proxies| <= n
    requires Exist(bounds, a, table) && Exist(bounds, b, table)
    requires s == SyncTo(r, table, a, n) && t == SyncTo(q, table, b, n)
    ensures s.pos == t.pos && s.vel == t.vel
  {
    SyncReachesTable(bounds, numBodies, a, table, r, s, n);
    SyncReachesTable(bounds, numBodies, b, table, q, t, n);
    SameIdsComplete(bounds, r, s);
    SameIdsComplete(bounds, q, t);
    TableAgree(bounds, numBodies, a, b, table, s, t);
  }

  // ---- Without alignment ------------------------------------------------------------------

  ghost predicate Unowned(bounds: seq<real>, numBodies: nat, k: int) {
    forall p: nat :: p < Proxies(bounds) ==> !Owns(bounds, numBodies, p, k)
  }

  lemma {:induction false} ReplayGap(bounds: seq<real>, numBodies: nat, p: nat, r: Replica, i: nat, us: seq<Update>, k: nat)
    requires Tiling(bounds) && p < Proxies(bounds) && k < |r.pos| == |r.vel| == 16 * numBodies
    requires !Owns(bounds, numBodies, p, k)
    requires forall v :: 0 <= v < |us| ==> SliceOf(bounds, numBodies, p, us[v])
    ensures var s := Replay(r, i, us);
            |s.pos| == |s.vel| == 16 * numBodies && s.pos[k] == r.pos[k] && s.vel[k] == r.vel[k]
  {
    if us != [] {
      var u := us[|us| - 1];
      ReplayGap(bounds, numBodies, p, r, i, us[..|us| - 1], k);
      assert SliceOf(bounds, numBodies, p, u);
      SliceFits(bounds, numBodies, p);
    }
  }

  lemma SyncGap(bounds: seq<real>, numBodies: nat, commits: Commits, r: Replica, i: nat, version: nat, k: nat, p: nat)
    requires Tiling(bounds) && OwnSlices(bounds, numBodies, commits) && k < |r.pos| == |r.vel| == 16 * numBodies
    requires i < |r.proxies| && p == r.proxies[i].id < Proxies(bounds) && Unowned(bounds, numBodies, k)
    ensures var s := Sync(r, i, Log(commits, p), version);
            |s.pos| == |s.vel| == 16 * numBodies && s.pos[k] == r.pos[k] && s.vel[k] == r.vel[k]
  {
    var from, log := r.proxies[i].version, Log(commits, p);
    if from < version <= |log| {
      var us := log[from..version];
      forall v | 0 <= v < |us| ensures SliceOf(bounds, numBodies, p, us[v]) {
        var at := from + v;
        assert us[v] == Log(commits, p)[at];
      }
      ReplayGap(bounds, numBodies, p, r, i, us, k);
    }
  }

  lemma SyncIds(r: Replica, i: nat, log: seq<Update>, version: nat)
    requires i < |r.proxies|
    ensures var s := Sync(r, i, log, version);
            |s.proxies| == |r.proxies| && forall j :: 0 <= j < |r.proxies| ==> s.proxies[j].id == r.proxies[j].id
  {
    if r.proxies[i].version < version <= |log| {
      ReplayProxies(r, i, log[r.proxies[i].version..version]);
    }
  }

  /** A byte that is in nobody's slice is never synchronised, so replicas that differ there
      stay different. */
  lemma {:induction false} GapStays(bounds: seq<real>, numBodies: nat, commits: Commits, table: seq<Entry>,
                                    r: Replica, n: nat, k: nat)
    requires Tiling(bounds) && OwnSlices(bounds, numBodies, commits) && k < |r.pos| == |r.vel| == 16 * numBodies
    requires n <= |r.proxies| && Unowned(bounds, numBodies, k)
    requires forall i :: 0 <= i < |r.proxies| ==> r.proxies[i].id < Proxies(bounds)
    ensures var s := SyncTo(r, table, commits, n);
            && |s.pos| == |s.vel| == 16 * numBodies && s.pos[k] == r.pos[k] && s.vel[k] == r.vel[k]
            && |s.proxies| == |r.proxies| && forall i :: 0 <= i < |r.proxies| ==> s.proxies[i].id == r.proxies[i].id
  {
    if n > 1 {
      var i := n - 1;
      GapStays(bounds, numBodies, commits, table, r, i, k);
      var m := SyncTo(r, table, commits, i);
      var id := m.proxies[i].id;
      SyncGap(bounds, numBodies, commits, m, i, VersionFor(table, id), k, id);
      SyncIds(m, i, Log(commits, id), VersionFor(table, id));
    }
  }
}
