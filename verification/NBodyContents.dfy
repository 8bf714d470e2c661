/** What the n-body arrays hold after synchronising (examples/eqNBody): in each owner's slice, what
    that owner's device had when it made the commit that the broadcast stands for. */
module NBodyContents {
  import opened Sequences
  import opened Hiding
  import opened Bytes
  import opened NBodyBarrier
  import opened NBodySlices
  import opened NBodyMemory
  import opened NBodyRuns
  import opened NBodySync
  import opened NBodyFrameData

  /** The full arrays that a node had when it committed: its own when it registers, and the
      device's afterwards. */
  datatype Arrays = Arrays(pos: seq<Byte>, vel: seq<Byte>)

  function GivenBy(j: Joint, a: Action, q: nat): seq<Arrays> {
    match a
    case Register(p) => if p == q then [Arrays(NodeAt(j, p).replica.pos, NodeAt(j, p).replica.vel)] else []
    case Compute(p, pos, vel) => if p == q then [Arrays(pos, vel)] else []
    case _ => []
  }

  /** All arrays that node q committed from in a run, in order. */
  function Given(c: Setup, j: Joint, run: seq<Action>, q: nat): seq<Arrays>
    decreases |run|
  {
    if run == [] then [] else GivenBy(j, run[0], q) + Given(c, Do(c, j, run[0]), run[1..], q)
  }

  /** u has the bytes of q's slice of g. */
  ghost predicate TakenFrom(c: Setup, q: nat, u: Update, g: Arrays) {
    forall key {:trigger Unfold(key)} :: Unfold(key) ==>
      && SliceOf(c.bounds, c.numBodies, q, u) && |g.pos| == |g.vel| == 16 * c.numBodies
      && forall k :: 0 <= k < 16 * c.numBodies && Owns(c.bounds, c.numBodies, q, k) ==>
           0 <= k - 4 * u.offset < u.numBytes && u.pos[k - 4 * u.offset] == g.pos[k] && u.vel[k - 4 * u.offset] == g.vel[k]
  }

  lemma SliceTaken(c: Setup, q: nat, own: Proxy, pos: seq<Byte>, vel: seq<Byte>, u: Update)
    requires |pos| == |vel| == 16 * c.numBodies && u == DeviceSlice(own, pos, vel)
    requires own.offset == Offset(c.bounds, c.numBodies, q) && own.numBytes == NumBytes(c.bounds, c.numBodies, q)
    requires 4 * own.offset + own.numBytes <= 16 * c.numBodies
    ensures TakenFrom(c, q, u, Arrays(pos, vel))
  {
    var first, size := 4 * own.offset, own.numBytes;
    forall k | 0 <= k < 16 * c.numBodies && Owns(c.bounds, c.numBodies, q, k)
      ensures 0 <= k - first < size && u.pos[k - first] == pos[k] && u.vel[k - first] == vel[k]
    {
      SliceByte(pos, first, size, k, k - first, u.pos);
      SliceByte(vel, first, size, k, k - first, u.vel);
    }
  }

  lemma SliceByte(all: seq<Byte>, first: nat, size: nat, k: nat, i: int, part: seq<Byte>)
    requires first + size <= |all| && first <= k < first + size && i == k - first && part == all[first..first + size]
    ensures 0 <= i < |part| && part[i] == all[k]
  {
  }

  ghost predicate AllTaken(c: Setup, q: nat, us: seq<Update>, gs: seq<Arrays>) {
    |us| == |gs| && forall i :: 0 <= i < |us| ==> TakenFrom(c, q, us[i], gs[i])
  }

  lemma AllTakenJoin(c: Setup, q: nat, us: seq<Update>, gs: seq<Arrays>, vs: seq<Update>, hs: seq<Arrays>)
    requires AllTaken(c, q, us, gs) && AllTaken(c, q, vs, hs)
    ensures AllTaken(c, q, us + vs, gs + hs)
  {
  }

  /** One action: what q commits is taken from what it is given. */
  lemma StepGiven(c: Setup, j: Joint, a: Action, q: nat) returns (us: seq<Update>)
    requires Holds(c, j) && Enabled(c, j, a) && q < |j.nodes|
    ensures Log(Do(c, j, a).commits, q) == Log(j.commits, q) + us && AllTaken(c, q, us, GivenBy(j, a, q))
  {
    if a == Register(q) {
      us := RegisterGiven(c, j, q);
    } else if a.Compute? && a.p == q {
      us := ComputeGiven(c, j, q, a.pos, a.vel);
    } else {
      us := [];
      NotGiven(c, j, a, q);
      assert Log(j.commits, q) + us == Log(j.commits, q);
    }
  }

  lemma NotGiven(c: Setup, j: Joint, a: Action, q: nat)
    requires Enabled(c, j, a) && a != Register(q) && !(a.Compute? && a.p == q)
    ensures Log(Do(c, j, a).commits, q) == Log(j.commits, q) && GivenBy(j, a, q) == []
  {
  }

  lemma RegisterGiven(c: Setup, j: Joint, q: nat) returns (us: seq<Update>)
    requires Holds(c, j) && Enabled(c, j, Register(q))
    ensures Log(Do(c, j, Register(q)).commits, q) == Log(j.commits, q) + us && |us| == 1
    ensures TakenFrom(c, q, us[0], Arrays(NodeAt(j, q).replica.pos, NodeAt(j, q).replica.vel))
  {
    var n := NodeAt(j, q).replica;
    var r := OwnReplica(c, n, q);
    var u := Serialized(r, 0);
    us := [u];
    SizesNatural(c, j.commits, q);
    NodeSizes(c, j, q);
    SliceTaken(c, q, r.proxies[0], n.pos, n.vel, u);
  }

  lemma NodeSizes(c: Setup, j: Joint, q: nat)
    requires Holds(c, j) && q < |j.nodes|
    ensures |NodeAt(j, q).replica.pos| == |NodeAt(j, q).replica.vel| == 16 * c.numBodies
    ensures NodeAt(j, q).mapping.Mapped? ==>
              NodeAt(j, q).replica.proxies != [] && OwnProxy(c, j.commits, NodeAt(j, q).replica.proxies[0], q)
  {
    assert NodeOk(c, j.commits, NodeAt(j, q), q);
    assert Unfold(0);
  }

  lemma ComputeGiven(c: Setup, j: Joint, q: nat, pos: seq<Byte>, vel: seq<Byte>) returns (us: seq<Update>)
    requires Holds(c, j) && Enabled(c, j, Compute(q, pos, vel))
    ensures Log(Do(c, j, Compute(q, pos, vel)).commits, q) == Log(j.commits, q) + us && |us| == 1
    ensures TakenFrom(c, q, us[0], Arrays(pos, vel))
  {
    var n := NodeAt(j, q);
    NodeSizes(c, j, q);
    SizesNatural(c, j.commits, q);
    var u := DeviceSlice(n.replica.proxies[0], pos, vel);
    us := [u];
    SliceTaken(c, q, n.replica.proxies[0], pos, vel, u);
  }

  /** In every run, commit number v of q is taken from the v-th arrays that it was given. */
  lemma {:induction false} RunGiven(c: Setup, j: Joint, run: seq<Action>, k: Joint, q: nat) returns (us: seq<Update>)
    requires Holds(c, j) && LeadsTo(c, j, run, k) && q < |j.nodes|
    ensures Log(k.commits, q) == Log(j.commits, q) + us && AllTaken(c, q, us, Given(c, j, run, q))
    decreases |run|
  {
    if run == [] {
      us := [];
      assert Log(j.commits, q) + us == Log(j.commits, q);
    } else {
      var m := Do(c, j, run[0]);
      StepHolds(c, j, run[0]);
      SameNodes(c, j, m);
      var first := StepGiven(c, j, run[0], q);
      var rest := RunGiven(c, m, run[1..], k, q);
      us := first + rest;
      AllTakenJoin(c, q, first, GivenBy(j, run[0], q), rest, Given(c, m, run[1..], q));
      Associate(Log(j.commits, q), first, rest);
    }
  }

  lemma SameNodes(c: Setup, j: Joint, k: Joint)
    requires Holds(c, j) && Holds(c, k)
    ensures |k.nodes| == |j.nodes|
  {
  }

  // ---- After synchronising --------------------------------------------------------------------

  /** Byte b of the replica is byte b of g. */
  ghost predicate Holding(c: Setup, s: Replica, g: Arrays, b: int) {
    forall key {:trigger Unfold(key)} :: Unfold(key) ==>
      && 0 <= b < 16 * c.numBodies == |s.pos| == |s.vel| == |g.pos| == |g.vel|
      && s.pos[b] == g.pos[b] && s.vel[b] == g.vel[b]
  }

  lemma ShownIsGiven(c: Setup, q: nat, s: Replica, u: Update, g: Arrays, b: int)
    requires Shows(s, u) && TakenFrom(c, q, u, g) && |s.pos| == |s.vel| == 16 * c.numBodies
    requires 0 <= b < 16 * c.numBodies && Owns(c.bounds, c.numBodies, q, b)
    ensures Holding(c, s, g, b)
  {
    assert Unfold(0);
    ByteShown(c.bounds, c.numBodies, q, s, u, b);
  }

  /** A prepared node shows each owner's commit for the table. */
  lemma PreparedShows(c: Setup, commits: Commits, n: Node, table: seq<Entry>, q: nat, s: Replica)
    requires World(c.bounds, c.numBodies, commits) && Prepared(c, commits, n, table) && q < Proxies(c.bounds)
    requires s == SyncedNode(n, commits).replica
    ensures |s.pos| == |s.vel| == 16 * c.numBodies && ShowsOwner(commits, table, s, q)
  {
    TableExists(c.bounds, commits, table);
    SyncReachesTable(c.bounds, c.numBodies, commits, table, n.replica, s, |table|);
    SameIdsComplete(c.bounds, n.replica, s);
    OwnerShown(c.bounds, c.numBodies, commits, table, s, q);
  }

  lemma NoCommit(c: Setup, j: Joint, a: Action, k: Joint, q: nat)
    requires Enabled(c, j, a) && Broadcasts(j, a) && k == Do(c, j, a)
    ensures Log(k.commits, q) == Log(j.commits, q)
  {
  }

  /** What the table stands for was there when it was broadcast. */
  lemma CommitThen(c: Setup, k: Joint, x: Joint, table: seq<Entry>, q: nat)
    requires Later(k, x) && TableOk(c.bounds, k.commits, table) && Full(c, table) && q < Proxies(c.bounds)
    ensures 0 < Named(table, q) <= |Log(k.commits, q)|
    ensures CommitAt(x.commits, q, Named(table, q)) == Log(k.commits, q)[Named(table, q) - 1]
  {
    TableExists(c.bounds, k.commits, table);
    assert Prefix(Log(k.commits, q), Log(x.commits, q));
  }

  /** In every run: after a broadcast by which all events of p have arrived, once p has seen it and
      synchronised, before its own next commit and having mapped everybody at no commit beyond it,
      its arrays hold, in the slice of every owner q, the bytes that q's device had for the commit
      that the broadcast names. */
  lemma BroadcastShows(c: Setup, start: Joint, before: seq<Action>, j: Joint, a: Action, k: Joint,
                       toX: seq<Action>, x: Joint, p: nat, q: nat, v: nat, b: int)
    requires Proper(c) && Starts(c, start) && LeadsTo(c, start, before, j)
    requires Enabled(c, j, a) && Broadcasts(j, a) && k == Do(c, j, a) && NodeAt(k, p).queue == []
    requires LeadsTo(c, k, toX, x) && (forall i :: 0 <= i < |toX| ==> !CommitsBy(toX[i], p)) && Ready(c, x, p, |k.sent|, Last(k))
    requires q < Proxies(c.bounds) && v == Named(Last(k), q) && 0 <= b < 16 * c.numBodies && Owns(c.bounds, c.numBodies, q, b)
    ensures 0 < v <= |Given(c, start, before, q)|
    ensures Holding(c, NodeAt(Do(c, x, Synchronise(p)), p).replica, Given(c, start, before, q)[v - 1], b)
  {
    StartHolds(c, start);
    RunHolds(c, start, before, j);
    ReadyLater(c, j, a, k, toX, x, p);
    AfterSynchronise(c, x, p, SyncedNode(NodeAt(x, p), x.commits));
    PreparedShows(c, x.commits, NodeAt(x, p), Last(k), q, SyncedNode(NodeAt(x, p), x.commits).replica);
    CommitThen(c, k, x, Last(k), q);
    var us := LogIsGiven(c, start, before, j, a, k, q);
    ShownIsGiven(c, q, SyncedNode(NodeAt(x, p), x.commits).replica, us[v - 1], Given(c, start, before, q)[v - 1], b);
  }

  /** The commits at a broadcast are those of the run before it. */
  lemma LogIsGiven(c: Setup, start: Joint, before: seq<Action>, j: Joint, a: Action, k: Joint, q: nat)
      returns (us: seq<Update>)
    requires Proper(c) && Starts(c, start) && LeadsTo(c, start, before, j) && q < Proxies(c.bounds)
    requires Enabled(c, j, a) && Broadcasts(j, a) && k == Do(c, j, a)
    ensures us == Log(k.commits, q) && AllTaken(c, q, us, Given(c, start, before, q))
  {
    StartHolds(c, start);
    NoCommit(c, j, a, k, q);
    us := RunGiven(c, start, before, j, q);
    assert Log(start.commits, q) + us == us;
  }

  /** If all events of q have arrived too, that is the last commit that q made. */
  lemma QuietShowsLast(c: Setup, start: Joint, before: seq<Action>, j: Joint, a: Action, k: Joint, q: nat)
    requires Proper(c) && Starts(c, start) && LeadsTo(c, start, before, j) && q < |j.nodes|
    requires Enabled(c, j, a) && Broadcasts(j, a) && k == Do(c, j, a) && NodeAt(k, q).queue == [] && Log(j.commits, q) != []
    ensures Named(Last(k), q) == |Given(c, start, before, q)|
  {
    StartHolds(c, start);
    RunHolds(c, start, before, j);
    StepHolds(c, j, a);
    NoCommit(c, j, a, k, q);
    SameNodes(c, j, k);
    BroadcastNewest(c, j, a, k, q);
    var us := RunGiven(c, start, before, j, q);
  }
}
