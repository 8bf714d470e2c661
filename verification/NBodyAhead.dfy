/** A run of the n-body simulation in which two nodes synchronise to the same table and have
    different arrays: one of them mapped at a commit that the table does not know of yet. */
module NBodyAhead {
  import opened Hiding
  import opened Bytes
  import opened NBodyFrameData
  import opened NBodyBarrier
  import opened NBodySlices
  import opened NBodyMemory
  import opened NBodyRuns
  import opened NBodySync
  import opened NBodyLate

  /** One body shared by three nodes: a float each for the nodes 0 and 1 and two for node 2. */
  const Three := Setup([0.0, 0.25, 0.5, 1.0], 1)

  function Bytes16(b: Byte): (r: seq<Byte>)
    ensures |r| == 16 && forall i :: 0 <= i < 16 ==> r[i] == b
  {
    seq(16, i => b)
  }

  function Registration(p: nat): Event { DataChanged(p, BoundAt(Three.bounds, p), BoundAt(Three.bounds, p + 1)) }

  lemma {:induction false} ThreeProper()
    ensures Proper(Three) && Proxies(Three.bounds) == 3
    ensures Offset(Three.bounds, 1, 1) == 1 && NumBytes(Three.bounds, 1, 1) == 4 && Owns(Three.bounds, 1, 1, 4)
  {
    assert Mark(Three.bounds, 1, 0) == 0.0 && Mark(Three.bounds, 1, 1) == 1.0 && Mark(Three.bounds, 1, 2) == 2.0 && Mark(Three.bounds, 1, 3) == 4.0;
    assert Length(Three.bounds, 1) == 0.25;
  }

  ghost predicate Begins(j: Joint) {
    Starts(Three, j) && forall p :: 0 <= p < |j.nodes| ==> j.nodes[p].replica.pos == Bytes16(0) == j.nodes[p].replica.vel
  }

  /** A node that has registered and nothing else. */
  predicate JustRegistered(n: Node, p: nat) {
    |n.replica.proxies| == 1 && n.view == [] && n.seen == 0 && n.queue == [Registration(p)] && n.mapping == Unmapped
  }

  lemma {:induction false} RegisterOne(j: Joint, p: nat, k: Joint)
    requires p < |j.nodes| == 3 && FreshNode(Three, NodeAt(j, p)) && Log(j.commits, p) == [] && k == Do(Three, j, Register(p))
    ensures Enabled(Three, j, Register(p)) && |k.nodes| == 3 && k.app == j.app && k.sent == j.sent
    ensures JustRegistered(NodeAt(k, p), p) && |Log(k.commits, p)| == 1
    ensures Log(k.commits, p)[0] == Serialized(OwnReplica(Three, NodeAt(j, p).replica, p), 0)
    ensures forall q: nat :: q != p ==> NodeAt(k, q) == NodeAt(j, q) && Log(k.commits, q) == Log(j.commits, q)
  {
    var r := OwnReplica(Three, NodeAt(j, p).replica, p);
    CommittedIs(j, p, r, Serialized(r, 0), k);
  }

  lemma {:induction false} CommittedIs(j: Joint, p: nat, r: Replica, u: Update, k: Joint)
    requires p < |j.nodes| && k == Committing(Three, j, p, r, u)
    ensures |k.nodes| == |j.nodes| && k.app == j.app && k.sent == j.sent && Log(k.commits, p) == Log(j.commits, p) + [u]
    ensures NodeAt(k, p) == NodeAt(j, p).(replica := r, queue := NodeAt(j, p).queue + [EventOf(Three, p, |Log(j.commits, p)| + 1)])
    ensures forall q: nat :: q != p ==> NodeAt(k, q) == NodeAt(j, q) && Log(k.commits, q) == Log(j.commits, q)
  {
  }

  lemma {:induction false} FirstSlice(r: Replica)
    requires r.pos == Bytes16(0)
    ensures Serialized(OwnReplica(Three, r, 1), 0).pos == [0, 0, 0, 0]
  {
    ThreeProper();
  }

  lemma {:induction false} RegisterAll(start: Joint, k: Joint)
    requires Begins(start) && k == Do(Three, Do(Three, Do(Three, start, Register(0)), Register(1)), Register(2))
    ensures LeadsTo(Three, start, [Register(0), Register(1), Register(2)], k)
    ensures |k.nodes| == 3 && k.app == Init && k.sent == []
    ensures JustRegistered(NodeAt(k, 0), 0) && JustRegistered(NodeAt(k, 1), 1) && JustRegistered(NodeAt(k, 2), 2)
    ensures |Log(k.commits, 0)| == |Log(k.commits, 1)| == |Log(k.commits, 2)| == 1 && Log(k.commits, 1)[0].pos == [0, 0, 0, 0]
  {
    ThreeProper();
    var a := Do(Three, start, Register(0));
    assert FreshNode(Three, start.nodes[0]) && FreshNode(Three, start.nodes[1]) && FreshNode(Three, start.nodes[2]);
    RegisterOne(start, 0, a);
    var b := Do(Three, a, Register(1));
    RegisterOne(a, 1, b);
    FirstSlice(NodeAt(a, 1).replica);
    RegisterOne(b, 2, k);
    LeadsOne(Three, b, Register(2), k);
    LeadsStep(Three, a, Register(1), [Register(2)], k);
    LeadsStep(Three, start, Register(0), [Register(1), Register(2)], k);
    assert [Register(0)] + [Register(1), Register(2)] == [Register(0), Register(1), Register(2)];
    assert [Register(1)] + [Register(2)] == [Register(1), Register(2)];
  }

  lemma {:induction false} LeadsOne(c: Setup, j: Joint, a: Action, k: Joint)
    requires Enabled(c, j, a) && k == Do(c, j, a)
    ensures LeadsTo(c, j, [a], k)
  {
  }

  // ---- The barrier ----------------------------------------------------------------------------

  function Row3(p: nat): Entry { Row(p, Length(Three.bounds, p)) }

  const Table3: seq<Entry> := [Row3(0), Row3(1), Row3(2)]

  lemma {:induction false} Sums()
    ensures Sum([Row3(0)]) == 0.25 && Sum([Row3(0), Row3(1)]) == 0.5 && Sum(Table3) == 1.0
  {
    assert [Row3(0)][..0] == [] && [Row3(0), Row3(1)][..1] == [Row3(0)] && Table3[..2] == [Row3(0), Row3(1)];
  }

  lemma {:induction false} HandleOne(j: Joint, p: nat, table: seq<Entry>, h: Joint)
    requires h == Handling(j, Registration(p))
    requires table == j.app.table + [Entry(p, VERSION_NONE, BoundAt(Three.bounds, p + 1) - BoundAt(Three.bounds, p))]
    ensures h.nodes == j.nodes && h.commits == j.commits
    ensures Handle(j.app.table, Registration(p)).Committed? <==> Sum(table) == 1.0
    ensures if Sum(table) == 1.0 then h.sent == j.sent + [table] else h.sent == j.sent && h.app.table == table
  {
    assert Recorded(j.app.table, Registration(p)) == table;
  }

  lemma {:induction false} DeliverOne(j: Joint, p: nat, k: Joint)
    requires p < |j.nodes| == 3 && NodeAt(j, p).queue == [Registration(p)] && k == Do(Three, j, Deliver(p))
    ensures Enabled(Three, j, Deliver(p)) && |k.nodes| == 3 && k.commits == j.commits
    ensures NodeAt(k, p) == NodeAt(j, p).(queue := []) && forall q: nat :: q != p ==> NodeAt(k, q) == NodeAt(j, q)
    ensures var table := j.app.table + [Entry(p, VERSION_NONE, BoundAt(Three.bounds, p + 1) - BoundAt(Three.bounds, p))];
      if Sum(table) == 1.0 then Broadcasts(j, Deliver(p)) && k.sent == j.sent + [table]
      else k.sent == j.sent && k.app.table == table
  {
    var table := j.app.table + [Entry(p, VERSION_NONE, BoundAt(Three.bounds, p + 1) - BoundAt(Three.bounds, p))];
    HandleOne(j, p, table, Handling(j, Registration(p)));
    Popped(j, p, Handling(j, Registration(p)), k);
  }

  lemma {:induction false} Popped(j: Joint, p: nat, h: Joint, k: Joint)
    requires p < |j.nodes| && NodeAt(j, p).queue == [Registration(p)] && h == Handling(j, Registration(p)) && k == Do(Three, j, Deliver(p))
    ensures k == h.(nodes := j.nodes[p := NodeAt(j, p).(queue := [])])
  {
    assert [Registration(p)][1..] == [];
  }

  /** The registrations arrive; with the third the ranges add up to one. */
  lemma {:induction false} DeliverTwo(j: Joint, k: Joint)
    requires |j.nodes| == 3 && j.app.table == [] && j.sent == [] && NodeAt(j, 0).queue == [Registration(0)]
    requires NodeAt(j, 1).queue == [Registration(1)] && k == Do(Three, Do(Three, j, Deliver(0)), Deliver(1))
    ensures LeadsTo(Three, j, [Deliver(0), Deliver(1)], k) && |k.nodes| == 3 && k.commits == j.commits
    ensures k.app.table == [Row3(0), Row3(1)] && k.sent == []
    ensures NodeAt(k, 0) == NodeAt(j, 0).(queue := []) && NodeAt(k, 1) == NodeAt(j, 1).(queue := []) && NodeAt(k, 2) == NodeAt(j, 2)
  {
    Sums();
    var a := Do(Three, j, Deliver(0));
    assert j.app.table + [Row3(0)] == [Row3(0)] && [Row3(0)] + [Row3(1)] == [Row3(0), Row3(1)];
    DeliverOne(j, 0, a);
    DeliverOne(a, 1, k);
    LeadsOne(Three, a, Deliver(1), k);
    LeadsStep(Three, j, Deliver(0), [Deliver(1)], k);
    assert [Deliver(0)] + [Deliver(1)] == [Deliver(0), Deliver(1)];
  }

  // ---- Mapping --------------------------------------------------------------------------------

  /** A node that has registered and seen the table. */
  predicate Informed(n: Node) {
    |n.replica.proxies| == 1 && n.view == Table3 && n.seen == 1 && n.queue == [] && n.mapping == Unmapped
  }

  lemma {:induction false} SeeOne(j: Joint, p: nat, k: Joint)
    requires p < |j.nodes| == 3 && j.sent == [Table3] && NodeAt(j, p).seen == 0 && k == Do(Three, j, See(p, 1))
    ensures Enabled(Three, j, See(p, 1)) && |k.nodes| == 3 && k.commits == j.commits && k.sent == [Table3]
    ensures NodeAt(k, p) == NodeAt(j, p).(view := Table3, seen := 1) && forall q: nat :: q != p ==> NodeAt(k, q) == NodeAt(j, q)
  {
  }

  predicate Waiting3(n: Node) { |n.replica.proxies| == 1 && n.seen == 0 && n.queue == [] && n.mapping == Unmapped }

  lemma {:induction false} SeeAll(j: Joint, k: Joint)
    requires |j.nodes| == 3 && j.sent == [Table3] && Waiting3(NodeAt(j, 0)) && Waiting3(NodeAt(j, 1)) && Waiting3(NodeAt(j, 2))
    requires k == Do(Three, Do(Three, Do(Three, j, See(0, 1)), See(1, 1)), See(2, 1))
    ensures LeadsTo(Three, j, [See(0, 1), See(1, 1), See(2, 1)], k) && |k.nodes| == 3 && k.commits == j.commits && k.sent == [Table3]
    ensures Informed(NodeAt(k, 0)) && Informed(NodeAt(k, 1)) && Informed(NodeAt(k, 2))
  {
    var a := Do(Three, j, See(0, 1));
    var b := Do(Three, a, See(1, 1));
    SeeOne(j, 0, a);
    SeeOne(a, 1, b);
    SeeOne(b, 2, k);
    LeadsOne(Three, b, See(2, 1), k);
    LeadsStep(Three, a, See(1, 1), [See(2, 1)], k);
    LeadsStep(Three, j, See(0, 1), [See(1, 1), See(2, 1)], k);
    assert [See(0, 1)] + [See(1, 1), See(2, 1)] == [See(0, 1), See(1, 1), See(2, 1)];
    assert [See(1, 1)] + [See(2, 1)] == [See(1, 1), See(2, 1)];
  }

  /** The commits that the mappings find. */
  const Heard1: Found := map[0 := 1, 1 := 1, 2 := 1]
  const Ahead1: Found := map[0 := 1, 1 := 2, 2 := 1]

  lemma {:induction false} MapOne3(j: Joint, p: nat, at: Found, k: Joint)
    requires p < |j.nodes| == 3 && Informed(NodeAt(j, p)) && k == Do(Three, j, Map(p, at))
    requires forall q: nat :: q < 3 && Log(j.commits, q) != [] ==> 0 < At(at, q) <= |Log(j.commits, q)|
    ensures Enabled(Three, j, Map(p, at)) && |k.nodes| == 3 && k.commits == j.commits && k.sent == j.sent
    ensures NodeAt(k, p) == MappedNode(NodeAt(j, p), p, j.commits, at) && forall q: nat :: q != p ==> NodeAt(k, q) == NodeAt(j, q)
  {
  }

  lemma {:induction false} ComputeOne(j: Joint, own: Proxy, k: Joint)
    requires |j.nodes| == 3 && NodeAt(j, 1).mapping.Mapped? && k == Do(Three, j, Compute(1, Bytes16(1), Bytes16(1)))
    requires NodeAt(j, 1).replica.proxies != [] && own == NodeAt(j, 1).replica.proxies[0] && own.offset == 1 && own.numBytes == 4
    ensures Enabled(Three, j, Compute(1, Bytes16(1), Bytes16(1))) && |k.nodes| == 3 && k.sent == j.sent
    ensures Log(k.commits, 1) == Log(j.commits, 1) + [DeviceSlice(own, Bytes16(1), Bytes16(1))]
    ensures DeviceSlice(own, Bytes16(1), Bytes16(1)).pos == [1, 1, 1, 1]
    ensures forall q: nat :: q != 1 ==> NodeAt(k, q) == NodeAt(j, q) && Log(k.commits, q) == Log(j.commits, q)
  {
  }

  const Step: Action := Compute(1, Bytes16(1), Bytes16(1))

  lemma {:induction false} MapTwo(j: Joint, k: Joint)
    requires Holds(Three, j) && |j.nodes| == 3 && Informed(NodeAt(j, 1)) && Informed(NodeAt(j, 2))
    requires |Log(j.commits, 0)| == |Log(j.commits, 1)| == |Log(j.commits, 2)| == 1
    requires k == Do(Three, Do(Three, j, Map(2, Heard1)), Map(1, Heard1))
    ensures LeadsTo(Three, j, [Map(2, Heard1), Map(1, Heard1)], k) && |k.nodes| == 3 && k.commits == j.commits && Holds(Three, k)
    ensures NodeAt(k, 0) == NodeAt(j, 0) && NodeAt(k, 1).mapping.Mapped?
    ensures NodeAt(k, 2) == MappedNode(NodeAt(j, 2), 2, j.commits, Heard1)
  {
    var a := Do(Three, j, Map(2, Heard1));
    MapOne3(j, 2, Heard1, a);
    MapOne3(a, 1, Heard1, k);
    StepHolds(Three, j, Map(2, Heard1));
    StepHolds(Three, a, Map(1, Heard1));
    LeadsOne(Three, a, Map(1, Heard1), k);
    LeadsStep(Three, j, Map(2, Heard1), [Map(1, Heard1)], k);
    assert [Map(2, Heard1)] + [Map(1, Heard1)] == [Map(2, Heard1), Map(1, Heard1)];
  }

  /** Node 1 computes and commits, and node 0 maps at that commit. */
  lemma {:induction false} MapLate(j: Joint, k: Joint)
    requires Holds(Three, j) && |j.nodes| == 3 && Informed(NodeAt(j, 0)) && NodeAt(j, 1).mapping.Mapped?
    requires |Log(j.commits, 0)| == |Log(j.commits, 1)| == |Log(j.commits, 2)| == 1
    requires k == Do(Three, Do(Three, j, Step), Map(0, Ahead1))
    ensures LeadsTo(Three, j, [Step, Map(0, Ahead1)], k) && |k.nodes| == 3
    ensures NodeAt(k, 2) == NodeAt(j, 2) && HasAt(NodeAt(k, 0).replica, 2)
    ensures NodeAt(k, 0).view == Table3 && NodeAt(k, 0).seen == 1 && NodeAt(k, 0).mapping == Mapped(Table3, Ahead1)
    ensures |Log(k.commits, 1)| == 2 && Log(k.commits, 1)[0] == Log(j.commits, 1)[0] && Log(k.commits, 1)[1].pos == [1, 1, 1, 1]
  {
    var a := Do(Three, j, Step);
    OwnSlice(j);
    ComputeOne(j, NodeAt(j, 1).replica.proxies[0], a);
    MapOne3(a, 0, Ahead1, k);
    StepHolds(Three, j, Step);
    FoundAt2(a, k);
    LeadsOne(Three, a, Map(0, Ahead1), k);
    LeadsStep(Three, j, Step, [Map(0, Ahead1)], k);
    assert [Step] + [Map(0, Ahead1)] == [Step, Map(0, Ahead1)];
  }

  /** The proxy for node 1 is at version v. */
  ghost predicate HasAt(r: Replica, v: nat) { exists i :: 1 <= i < |r.proxies| && r.proxies[i].id == 1 && r.proxies[i].version == v }

  lemma {:induction false} FoundAt2(j: Joint, k: Joint)
    requires Holds(Three, j) && |j.nodes| == 3 && Informed(NodeAt(j, 0)) && k == Do(Three, j, Map(0, Ahead1)) && Enabled(Three, j, Map(0, Ahead1))
    requires NodeAt(k, 0) == MappedNode(NodeAt(j, 0), 0, j.commits, Ahead1)
    ensures HasAt(NodeAt(k, 0).replica, 2)
  {
    var n, r := NodeAt(j, 0), NodeAt(k, 0).replica;
    ThreeProper();
    FullTable();
    RegisteredFacts(j.commits, n);
    MapFinds(Three, j.commits, n.view, Ahead1);
    MapEstablishes(Three.bounds, 1, j.commits, n.replica, 0, n.view, Ahead1, r);
    assert Registered(n.view, 1);
    assert Has(r.proxies, 1);
    var i :| 0 <= i < |r.proxies| && r.proxies[i].id == 1;
    assert r.proxies[i].version == At(Ahead1, 1);
  }

  lemma {:induction false} RegisteredFacts(commits: Commits, n: Node)
    requires NodeOk(Three, commits, n, 0) && |n.replica.proxies| == 1
    ensures Good(Three.bounds, 1, commits, n.replica) && OwnNewest(commits, n.replica) && n.replica.proxies[0].id == 0
    ensures TableOk(Three.bounds, commits, n.view)
  {
    assert Unfold(0);
  }

  lemma {:induction false} OwnSlice(j: Joint)
    requires Holds(Three, j) && |j.nodes| == 3 && NodeAt(j, 1).mapping.Mapped?
    ensures NodeAt(j, 1).replica.proxies != [] && NodeAt(j, 1).replica.proxies[0].offset == 1 && NodeAt(j, 1).replica.proxies[0].numBytes == 4
  {
    ThreeProper();
    MappedFacts(Three, j.commits, NodeAt(j, 1), 1);
  }

  // ---- Different arrays -----------------------------------------------------------------------

  lemma {:induction false} FullTable()
    ensures Full(Three, Table3) && forall p: nat :: VersionFor(Table3, p) == 0
  {
    ThreeProper();
    forall q: nat | q < 3 ensures Registered(Table3, q) { assert Table3[q].id == q; }
    forall p: nat ensures VersionFor(Table3, p) == 0 { assert Find(Table3, p) <= 3; }
  }

  /** Byte 4 belongs to node 1: a replica whose proxy for it is at version v shows that commit. */
  lemma {:induction false} ByteOfVersion(commits: Commits, r: Replica, i: nat, v: nat, b: Byte)
    requires World(Three.bounds, 1, commits) && Good(Three.bounds, 1, commits, r) && i < |r.proxies|
    requires r.proxies[i].id == 1 && r.proxies[i].version == v && 0 < v <= |Log(commits, 1)| && Log(commits, 1)[v - 1].pos == [b, b, b, b]
    ensures |r.pos| == 16 && r.pos[4] == b
  {
    ThreeProper();
    assert Fine(Three.bounds, commits, r, r.proxies[i]);
    FineCurrent(commits, r, r.proxies[i]);
    CommitSlice(Three.bounds, 1, commits, 1, v, CommitAt(commits, 1, v));
    ByteShown(Three.bounds, 1, 1, r, CommitAt(commits, 1, v), 4);
  }

  lemma {:induction false} FineCurrent(commits: Commits, r: Replica, p: Proxy)
    requires Fine(Three.bounds, commits, r, p)
    ensures Current(r, commits, p)
  {
    assert Unfold(0);
  }

  /** Synchronising to a table without versions leaves the proxies where they are. */
  lemma {:induction false} StaysAhead(x: Joint, r: Replica)
    requires Holds(Three, x) && |x.nodes| == 3 && NodeAt(x, 0).mapping.Mapped? && NodeAt(x, 0).view == Table3
    requires HasAt(NodeAt(x, 0).replica, 2) && r == SyncedNode(NodeAt(x, 0), x.commits).replica
    requires |Log(x.commits, 1)| == 2 && Log(x.commits, 1)[1].pos == [1, 1, 1, 1]
    ensures |r.pos| == 16 && r.pos[4] == 1
  {
    var n := NodeAt(x, 0);
    MappedFacts(Three, x.commits, n, 0);
    FullTable();
    SyncToKeeps(Three.bounds, 1, x.commits, Table3, n.replica, |Table3|, r);
    var i :| 1 <= i < |n.replica.proxies| && n.replica.proxies[i].id == 1 && n.replica.proxies[i].version == 2;
    ByteOfVersion(x.commits, r, i, 2, 1);
  }

  lemma {:induction false} StaysBehind(y: Joint)
    requires Holds(Three, y) && |y.nodes| == 3 && NodeAt(y, 2).mapping == Mapped(Table3, Heard1) && NodeAt(y, 2).view == Table3
    requires |Log(y.commits, 1)| == 2 && Log(y.commits, 1)[0].pos == [0, 0, 0, 0]
    ensures |NodeAt(y, 2).replica.pos| == 16 && NodeAt(y, 2).replica.pos[4] == 0
  {
    var n := NodeAt(y, 2);
    MappedFacts(Three, y.commits, n, 2);
    FullTable();
    ThreeProper();
    assert Registered(Table3, 1);
    assert Has(n.replica.proxies, 1);
    var i :| 0 <= i < |n.replica.proxies| && n.replica.proxies[i].id == 1;
    assert InReach(n.view, Heard1, n.replica.proxies[i]);
    FineVersion(Three.bounds, y.commits, n.replica, n.replica.proxies[i]);
    ByteOfVersion(y.commits, n.replica, i, 1, 0);
  }

  /** Everybody registers and two registrations arrive. */
  lemma {:induction false} Arrive(start: Joint) returns (run: seq<Action>, j: Joint)
    requires Begins(start)
    ensures LeadsTo(Three, start, run, j) && |j.nodes| == 3 && j.app.table == [Row3(0), Row3(1)] && j.sent == []
    ensures Waiting3(NodeAt(j, 0)) && Waiting3(NodeAt(j, 1)) && JustRegistered(NodeAt(j, 2), 2)
    ensures |Log(j.commits, 0)| == |Log(j.commits, 1)| == |Log(j.commits, 2)| == 1 && Log(j.commits, 1)[0].pos == [0, 0, 0, 0]
  {
    var b := Do(Three, Do(Three, Do(Three, start, Register(0)), Register(1)), Register(2));
    RegisterAll(start, b);
    j := Do(Three, Do(Three, b, Deliver(0)), Deliver(1));
    DeliverTwo(b, j);
    LeadsJoin(Three, start, [Register(0), Register(1), Register(2)], b, [Deliver(0), Deliver(1)], j);
    run := [Register(0), Register(1), Register(2)] + [Deliver(0), Deliver(1)];
  }

  /** The third registration makes the application broadcast. */
  lemma {:induction false} Broadcast3(j: Joint, k: Joint)
    requires |j.nodes| == 3 && j.app.table == [Row3(0), Row3(1)] && j.sent == [] && k == Do(Three, j, Deliver(2))
    requires Waiting3(NodeAt(j, 0)) && Waiting3(NodeAt(j, 1)) && JustRegistered(NodeAt(j, 2), 2)
    ensures Enabled(Three, j, Deliver(2)) && Broadcasts(j, Deliver(2)) && k.sent == [Table3] && k.commits == j.commits && |k.nodes| == 3
    ensures Waiting3(NodeAt(k, 0)) && Waiting3(NodeAt(k, 1)) && Waiting3(NodeAt(k, 2))
  {
    Sums();
    assert [Row3(0), Row3(1)] + [Row3(2)] == Table3;
    DeliverOne(j, 2, k);
  }

  const Maps: seq<Action> := [Map(2, Heard1), Map(1, Heard1)] + [Step, Map(0, Ahead1)]

  /** The nodes map, one of them late. */
  lemma {:induction false} Diverge(j: Joint) returns (x: Joint)
    requires Holds(Three, j) && |j.nodes| == 3 && Informed(NodeAt(j, 0)) && Informed(NodeAt(j, 1)) && Informed(NodeAt(j, 2))
    requires |Log(j.commits, 0)| == |Log(j.commits, 1)| == |Log(j.commits, 2)| == 1
    ensures LeadsTo(Three, j, Maps, x) && |x.nodes| == 3
    ensures NodeAt(x, 0).view == Table3 && NodeAt(x, 0).seen == 1 && NodeAt(x, 0).mapping == Mapped(Table3, Ahead1) && HasAt(NodeAt(x, 0).replica, 2)
    ensures NodeAt(x, 2).view == Table3 && NodeAt(x, 2).seen == 1 && NodeAt(x, 2).mapping == Mapped(Table3, Heard1)
    ensures |Log(x.commits, 1)| == 2 && Log(x.commits, 1)[0] == Log(j.commits, 1)[0] && Log(x.commits, 1)[1].pos == [1, 1, 1, 1]
  {
    var d := Do(Three, Do(Three, j, Map(2, Heard1)), Map(1, Heard1));
    MapTwo(j, d);
    x := Do(Three, Do(Three, d, Step), Map(0, Ahead1));
    MapLate(d, x);
    LeadsJoin(Three, j, [Map(2, Heard1), Map(1, Heard1)], d, [Step, Map(0, Ahead1)], x);
  }

  const Sees: seq<Action> := [See(0, 1), See(1, 1), See(2, 1)]

  lemma {:induction false} NoCommits()
    ensures forall i :: 0 <= i < |Sees + Maps| ==> !CommitsBy((Sees + Maps)[i], 0) && !CommitsBy((Sees + Maps)[i], 2)
  {
  }

  lemma {:induction false} NowDifferent(x: Joint)
    requires Holds(Three, x) && |x.nodes| == 3
    requires NodeAt(x, 0).view == Table3 && NodeAt(x, 0).mapping.Mapped? && HasAt(NodeAt(x, 0).replica, 2)
    requires NodeAt(x, 2).view == Table3 && NodeAt(x, 2).mapping == Mapped(Table3, Heard1)
    requires |Log(x.commits, 1)| == 2 && Log(x.commits, 1)[0].pos == [0, 0, 0, 0] && Log(x.commits, 1)[1].pos == [1, 1, 1, 1]
    ensures NodeAt(Do(Three, x, Synchronise(0)), 0).replica.pos != NodeAt(Do(Three, x, Synchronise(2)), 2).replica.pos
  {
    AfterSynchronise(Three, x, 0, SyncedNode(NodeAt(x, 0), x.commits));
    StaysAhead(x, SyncedNode(NodeAt(x, 0), x.commits).replica);
    SyncedBehind(x, Do(Three, x, Synchronise(2)));
  }

  lemma {:induction false} SyncedBehind(x: Joint, y: Joint)
    requires Holds(Three, x) && |x.nodes| == 3 && NodeAt(x, 2).view == Table3 && NodeAt(x, 2).mapping == Mapped(Table3, Heard1)
    requires |Log(x.commits, 1)| == 2 && Log(x.commits, 1)[0].pos == [0, 0, 0, 0] && y == Do(Three, x, Synchronise(2))
    ensures |NodeAt(y, 2).replica.pos| == 16 && NodeAt(y, 2).replica.pos[4] == 0
  {
    StepHolds(Three, x, Synchronise(2));
    AfterSynchronise(Three, x, 2, SyncedNode(NodeAt(x, 2), x.commits));
    DoSynchronise(Three, x, 2);
    StaysBehind(y);
  }

  /** All conditions of BarrierSynchronises but one hold for the nodes 0 and 2: the events of both
      have arrived at the broadcast, both map everybody, see the table and synchronise to it, and
      neither commits in between. But node 0 maps at a commit of node 1 that the table does not
      know of, and the arrays differ. */
  lemma {:induction false} AheadDiffers(start: Joint) returns (before: seq<Action>, j: Joint, a: Action, k: Joint, run: seq<Action>, x: Joint)
    requires Begins(start)
    ensures Proper(Three) && LeadsTo(Three, start, before, j) && Enabled(Three, j, a) && Broadcasts(j, a) && k == Do(Three, j, a)
    ensures NodeAt(k, 0).queue == [] && NodeAt(k, 2).queue == [] && LeadsTo(Three, k, run, x)
    ensures forall i :: 0 <= i < |run| ==> !CommitsBy(run[i], 0) && !CommitsBy(run[i], 2)
    ensures NodeAt(x, 0).mapping.Mapped? && Full(Three, NodeAt(x, 0).mapping.listed) && NodeAt(x, 0).seen == |k.sent|
    ensures Ready(Three, x, 2, |k.sent|, Last(k)) && !NotAhead(Three, Last(k), NodeAt(x, 0).mapping.found, 0)
    ensures NodeAt(Do(Three, x, Synchronise(0)), 0).replica.pos != NodeAt(Do(Three, x, Synchronise(2)), 2).replica.pos
  {
    ThreeProper();
    before, j := Arrive(start);
    a := Deliver(2);
    k := Do(Three, j, a);
    Broadcast3(j, k);
    StartHolds(Three, start);
    RunHolds(Three, start, before, j);
    StepHolds(Three, j, a);
    x := MapsDiffer(k);
    run := Sees + Maps;
    NoCommits();
  }

  lemma {:induction false} MapsDiffer(k: Joint) returns (x: Joint)
    requires Holds(Three, k) && |k.nodes| == 3 && k.sent == [Table3]
    requires Waiting3(NodeAt(k, 0)) && Waiting3(NodeAt(k, 1)) && Waiting3(NodeAt(k, 2))
    requires |Log(k.commits, 0)| == |Log(k.commits, 1)| == |Log(k.commits, 2)| == 1 && Log(k.commits, 1)[0].pos == [0, 0, 0, 0]
    ensures LeadsTo(Three, k, Sees + Maps, x)
    ensures NodeAt(x, 0).mapping.Mapped? && Full(Three, NodeAt(x, 0).mapping.listed) && NodeAt(x, 0).seen == 1
    ensures Ready(Three, x, 2, 1, Table3) && !NotAhead(Three, Table3, NodeAt(x, 0).mapping.found, 0)
    ensures NodeAt(Do(Three, x, Synchronise(0)), 0).replica.pos != NodeAt(Do(Three, x, Synchronise(2)), 2).replica.pos
  {
    var b := Do(Three, Do(Three, Do(Three, k, See(0, 1)), See(1, 1)), See(2, 1));
    SeeAll(k, b);
    RunHolds(Three, k, Sees, b);
    x := Diverge(b);
    RunHolds(Three, b, Maps, x);
    LeadsJoin(Three, k, Sees, b, Maps, x);
    NowDifferent(x);
    FoundAhead(x);
  }

  lemma {:induction false} FoundAhead(x: Joint)
    requires |x.nodes| == 3 && NodeAt(x, 0).mapping == Mapped(Table3, Ahead1)
    requires NodeAt(x, 2).seen == 1 && NodeAt(x, 2).mapping == Mapped(Table3, Heard1)
    ensures Full(Three, Table3) && Ready(Three, x, 2, 1, Table3) && !NotAhead(Three, Table3, Ahead1, 0)
  {
    ThreeProper();
    FullTable();
    assert At(Ahead1, 1) > Named(Table3, 1);
  }
}
