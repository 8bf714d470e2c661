/** The n-body protocol as a whole (examples/eqNBody): one application, one node for every
    proxy, the events between them and the objects they share. A run is any interleaving of
    the nodes' and the application's actions. */
module NBodyRuns {
  import opened Hiding
  import opened Bytes
  import opened NBodyFrameData
  import opened NBodyBarrier
  import opened NBodySlices
  import opened NBodyMemory

  /** Whether mapMemory was called, and if so with which table and which commits it found. */
  datatype Mapping = Unmapped | Mapped(listed: seq<Entry>, found: Found)

  /** A render node: its arrays and proxies, the table it sees and that table's number, the events
      it has sent that the application has not handled yet, and what it mapped. */
  datatype Node = Node(replica: Replica, view: seq<Entry>, seen: nat, queue: seq<Event>, mapping: Mapping)

  /** sent are the tables that the application has broadcast so far. */
  datatype Joint = Joint(app: NBodyBarrier.State, sent: seq<seq<Entry>>, commits: Commits, nodes: seq<Node>)

  /** The number of bodies and the ranges of the proxies; they fall on floats. */
  datatype Setup = Setup(bounds: seq<real>, numBodies: nat)

  ghost predicate Proper(c: Setup) { Tiling(c.bounds) && Aligned(c.bounds, c.numBodies) }

  datatype Action =
    | Register(p: nat)                                     // SharedData::registerMemory
    | Deliver(p: nat)                                      // Config::handleEvent
    | Frame                                                // Config::startFrame
    | See(p: nat, number: nat)                             // Pipe::frameStart
    | Map(p: nat, at: Found)                               // SharedData::mapMemory
    | Synchronise(p: nat)                                  // SharedData::syncMemory
    | Compute(p: nat, pos: seq<Byte>, vel: seq<Byte>)      // SharedData::updateMemory

  /** Every node has its arrays, with any contents, and nothing else has happened. */
  ghost predicate Starts(c: Setup, j: Joint) {
    && j.app == Init && j.sent == [] && j.commits == map[] && |j.nodes| == Proxies(c.bounds)
    && forall p :: 0 <= p < |j.nodes| ==> FreshNode(c, j.nodes[p])
  }

  predicate FreshNode(c: Setup, n: Node) {
    && |n.replica.pos| == |n.replica.vel| == 16 * c.numBodies && n.replica.proxies == []
    && n.view == [] && n.seen == 0 && n.queue == [] && n.mapping == Unmapped
  }

  function NodeAt(j: Joint, p: nat): Node {
    if p < |j.nodes| then j.nodes[p] else Node(Replica([], [], []), [], 0, [], Unmapped)
  }

  ghost predicate Enabled(c: Setup, j: Joint, a: Action) {
    match a
    case Register(p) => p < |j.nodes| && NodeAt(j, p).replica.proxies == []
    case Deliver(p) => p < |j.nodes| && NodeAt(j, p).queue != []
    case Frame => true
    case See(p, number) => p < |j.nodes| && NodeAt(j, p).seen <= number && 0 < number <= |j.sent|
    case Map(p, at) =>
      && p < |j.nodes| && |NodeAt(j, p).replica.proxies| == 1 && NodeAt(j, p).mapping == Unmapped
      && (forall q: nat :: q < |j.nodes| && Log(j.commits, q) != [] ==> 0 < At(at, q) <= |Log(j.commits, q)|)
    case Synchronise(p) => p < |j.nodes| && NodeAt(j, p).mapping.Mapped?
    case Compute(p, pos, vel) =>
      p < |j.nodes| && NodeAt(j, p).mapping.Mapped? && |pos| == |vel| == 16 * c.numBodies
  }

  /** The event that announces version v of proxy p; the first registers it. */
  function EventOf(c: Setup, p: nat, v: nat): Event {
    var start, end := BoundAt(c.bounds, p), BoundAt(c.bounds, p + 1);
    if v <= 1 then DataChanged(p, start, end) else ProxyChanged(p, v, start, end)
  }

  function BoundAt(bounds: seq<real>, p: nat): real { if p < |bounds| then bounds[p] else 0.0 }

  function Natural(x: int): nat { if x < 0 then 0 else x }

  function OwnReplica(c: Setup, r: Replica, p: nat): Replica {
    WithOwn(r, p, Natural(Offset(c.bounds, c.numBodies, p)), Natural(NumBytes(c.bounds, c.numBodies, p)))
  }

  /** The commit that updateMemory makes of the device's arrays. */
  function DeviceSlice(own: Proxy, pos: seq<Byte>, vel: seq<Byte>): Update {
    var first := 4 * own.offset;
    Update(own.offset, own.numBytes, Slice(pos, first, own.numBytes), Slice(vel, first, own.numBytes))
  }

  function Put(j: Joint, p: nat, n: Node): Joint {
    if p < |j.nodes| then j.(nodes := j.nodes[p := n]) else j
  }

  /** Node p makes commit u, has replica r afterwards, and announces the commit. */
  function Committing(c: Setup, j: Joint, p: nat, r: Replica, u: Update): Joint {
    var n := NodeAt(j, p);
    var v := |Log(j.commits, p)| + 1;
    Put(j.(commits := WithCommit(j.commits, p, u)), p, n.(replica := r, queue := n.queue + [EventOf(c, p, v)]))
  }

  /** The application handles e, and broadcasts its table if it commits. */
  function Handling(j: Joint, e: Event): Joint {
    var app := Next(j.app, e);
    j.(app := app, sent := if Handle(j.app.table, e).Committed? then j.sent + [app.published] else j.sent)
  }

  function MappedNode(n: Node, p: nat, commits: Commits, at: Found): Node {
    n.(replica := MapTo(n.replica, p, n.view, commits, at, |n.view|), mapping := Mapped(n.view, at))
  }

  function SyncedNode(n: Node, commits: Commits): Node { n.(replica := SyncTo(n.replica, n.view, commits, |n.view|)) }

  function Do(c: Setup, j: Joint, a: Action): Joint {
    match a
    case Register(p) =>
      var r := OwnReplica(c, NodeAt(j, p).replica, p);
      Committing(c, j, p, r, Serialized(r, 0))
    case Deliver(p) =>
      var n := NodeAt(j, p);
      if n.queue == [] then j else Put(Handling(j, n.queue[0]), p, n.(queue := n.queue[1..]))
    case Frame => Handling(j, StartFrame)
    case See(p, number) =>
      if 0 < number <= |j.sent| then Put(j, p, NodeAt(j, p).(view := j.sent[number - 1], seen := number)) else j
    case Map(p, at) => Put(j, p, MappedNode(NodeAt(j, p), p, j.commits, at))
    case Synchronise(p) => Put(j, p, SyncedNode(NodeAt(j, p), j.commits))
    case Compute(p, pos, vel) =>
      var n := NodeAt(j, p);
      if n.replica.proxies == [] then j
      else
        var u := DeviceSlice(n.replica.proxies[0], pos, vel);
        Committing(c, j, p, Apply(n.replica, 0, u), u)
  }

  ghost predicate LeadsTo(c: Setup, j: Joint, run: seq<Action>, k: Joint)
    decreases |run|
  {
    if run == [] then j == k else Enabled(c, j, run[0]) && LeadsTo(c, Do(c, j, run[0]), run[1..], k)
  }

  // ---- Tables ---------------------------------------------------------------------------------

  /** A table that was broadcast: different owners, each of which has made the commit it names. */
  ghost predicate TableOk(bounds: seq<real>, commits: Commits, table: seq<Entry>) {
    Distinct(table) && forall i :: 0 <= i < |table| ==> RowTrue(bounds, commits, table[i])
  }

  predicate RowTrue(bounds: seq<real>, commits: Commits, row: Entry) {
    row.id < Proxies(bounds) && Log(commits, row.id) != [] && row.version <= |Log(commits, row.id)|
  }

  lemma TableKept(bounds: seq<real>, commits: Commits, table: seq<Entry>, p: nat, u: Update)
    requires TableOk(bounds, commits, table)
    ensures TableOk(bounds, WithCommit(commits, p, u), table)
  {
    forall i | 0 <= i < |table| ensures RowTrue(bounds, WithCommit(commits, p, u), table[i]) {
      assert RowTrue(bounds, commits, table[i]);
    }
  }

  /** u has the rows of t first, with versions that are not older. */
  ghost predicate Older(t: seq<Entry>, u: seq<Entry>) {
    |t| <= |u| && forall i :: 0 <= i < |t| ==> t[i].id == u[i].id && t[i].version <= u[i].version
  }

  lemma OlderTransitive(t: seq<Entry>, u: seq<Entry>, v: seq<Entry>)
    requires Older(t, u) && Older(u, v)
    ensures Older(t, v)
  {
  }

  lemma OlderFinds(t: seq<Entry>, u: seq<Entry>, p: nat)
    requires Older(t, u)
    ensures Registered(t, p) ==> Registered(u, p)
    ensures VersionFor(t, p) <= VersionFor(u, p)
  {
    if Registered(t, p) { FindIs(u, p, Find(t, p)); }
  }

  /** Broadcasts never forget an owner or go back to an older version. */
  ghost predicate History(bounds: seq<real>, commits: Commits, table: seq<Entry>, sent: seq<seq<Entry>>) {
    forall key {:trigger Unfold(key)} :: Unfold(key) ==>
      && (forall b :: 0 <= b < |sent| ==> TableOk(bounds, commits, sent[b]) && Older(sent[b], table))
      && (forall a, b :: 0 <= a < b < |sent| ==> Older(sent[a], sent[b]))
  }

  lemma HistoryAt(bounds: seq<real>, commits: Commits, table: seq<Entry>, sent: seq<seq<Entry>>, a: nat, b: nat)
    requires History(bounds, commits, table, sent) && a <= b < |sent|
    ensures Older(sent[a], sent[b]) && TableOk(bounds, commits, sent[b])
  {
    assert Unfold(0);
  }

  lemma HistoryKept(bounds: seq<real>, commits: Commits, table: seq<Entry>, sent: seq<seq<Entry>>, p: nat, u: Update)
    requires History(bounds, commits, table, sent)
    ensures History(bounds, WithCommit(commits, p, u), table, sent)
  {
    assert Unfold(0);
    forall b | 0 <= b < |sent| ensures TableOk(bounds, WithCommit(commits, p, u), sent[b]) {
      TableKept(bounds, commits, sent[b], p, u);
    }
  }

  lemma HistoryWaits(bounds: seq<real>, commits: Commits, table: seq<Entry>, after: seq<Entry>, sent: seq<seq<Entry>>)
    requires History(bounds, commits, table, sent) && Older(table, after)
    ensures History(bounds, commits, after, sent)
  {
    assert Unfold(0);
    forall b | 0 <= b < |sent| ensures Older(sent[b], after) { OlderTransitive(sent[b], table, after); }
  }

  lemma HistorySends(bounds: seq<real>, commits: Commits, table: seq<Entry>, after: seq<Entry>, sent: seq<seq<Entry>>)
    requires History(bounds, commits, table, sent) && Older(table, after) && TableOk(bounds, commits, after)
    ensures History(bounds, commits, Cleared(after), sent + [after])
  {
    HistoryWaits(bounds, commits, table, after, sent);
    assert Unfold(0);
    forall b | 0 <= b < |sent| ensures Older(sent[b], Cleared(after)) { OlderTransitive(sent[b], after, Cleared(after)); }
  }

  /** Recording adds a row, or a newer version to a row. */
  lemma RecordedNewer(table: seq<Entry>, e: Event)
    requires e.ProxyChanged? ==> VersionFor(table, e.pid) <= e.version
    ensures Older(table, Recorded(table, e))
  {
  }

  // ---- What every run keeps -----------------------------------------------------------------

  /** The node's own proxy covers its slice and is at its newest commit. */
  ghost predicate OwnProxy(c: Setup, commits: Commits, own: Proxy, p: nat) {
    && own.id == p && own.version == |Log(commits, p)|
    && own.offset == Offset(c.bounds, c.numBodies, p) && own.numBytes == NumBytes(c.bounds, c.numBodies, p)
  }

  ghost predicate NodeOk(c: Setup, commits: Commits, n: Node, p: nat) {
    forall key {:trigger Unfold(key)} :: Unfold(key) ==>
      && Good(c.bounds, c.numBodies, commits, n.replica) && TableOk(c.bounds, commits, n.view)
      && (n.replica.proxies == [] <==> Log(commits, p) == [])
      && (n.replica.proxies != [] ==> OwnProxy(c, commits, n.replica.proxies[0], p))
      && (n.mapping == Unmapped ==> |n.replica.proxies| <= 1)
      && (n.mapping.Mapped? ==> n.replica.proxies != [] && MappedOk(c, commits, n, p))
  }

  /** A mapped node has a proxy for itself and for every owner that the table listed when it
      mapped. No foreign proxy is beyond the tables the node saw and the commit it mapped at. */
  ghost predicate MappedOk(c: Setup, commits: Commits, n: Node, p: nat)
    requires n.mapping.Mapped?
  {
    && TableOk(c.bounds, commits, n.mapping.listed) && Older(n.mapping.listed, n.view)
    && (forall q: nat :: Has(n.replica.proxies, q) <==> q == p || Registered(n.mapping.listed, q))
    && |n.replica.proxies| == (if Registered(n.mapping.listed, p) then |n.mapping.listed| else |n.mapping.listed| + 1)
    && (forall i :: 1 <= i < |n.replica.proxies| ==> InReach(n.view, n.mapping.found, n.replica.proxies[i]))
    && (forall q: nat :: Registered(n.mapping.listed, q) ==> At(n.mapping.found, q) <= |Log(commits, q)|)
  }

  predicate InReach(view: seq<Entry>, found: Found, proxy: Proxy) {
    proxy.version <= VersionFor(view, proxy.id) || proxy.version <= At(found, proxy.id)
  }

  /** The node sees the broadcast of the number it remembers. */
  predicate SeenOk(sent: seq<seq<Entry>>, n: Node) {
    n.seen <= |sent| && n.view == if n.seen == 0 then [] else sent[n.seen - 1]
  }

  /** The events in the queue announce the last of the total commits of p, in order, and the
      application knows of those before. */
  ghost predicate MailOk(c: Setup, app: NBodyBarrier.State, total: nat, queue: seq<Event>, p: nat) {
    forall key {:trigger Unfold(key)} :: Unfold(key) ==>
      && |queue| <= total
      && (forall i :: 0 <= i < |queue| ==> queue[i] == EventOf(c, p, total - |queue| + 1 + i))
      && Known(app, p, total - |queue|)
  }

  /** The application has heard of d commits of p. */
  predicate Known(app: NBodyBarrier.State, p: nat, d: nat) {
    && (Registered(app.table, p) <==> d >= 1) && (p in app.latest <==> d >= 2)
    && (p in app.latest ==> app.latest[p] == d)
  }

  ghost predicate Holds(c: Setup, j: Joint) {
    && |j.nodes| == Proxies(c.bounds) && NBodyBarrier.Inv(c.bounds, j.app) && World(c.bounds, c.numBodies, j.commits)
    && History(c.bounds, j.commits, j.app.table, j.sent)
    && (forall p: nat :: p < |j.nodes| ==> SeenOk(j.sent, NodeAt(j, p)))
    && (forall p: nat :: p < |j.nodes| ==> NodeOk(c, j.commits, NodeAt(j, p), p))
    && (forall p: nat :: p < |j.nodes| ==> MailOk(c, j.app, |Log(j.commits, p)|, NodeAt(j, p).queue, p))
  }

  lemma StartHolds(c: Setup, j: Joint)
    requires Proper(c) && Starts(c, j)
    ensures Holds(c, j)
  {
    CoveredNone(c.bounds, Proxies(c.bounds));
    SlicesPartition(c.bounds, c.numBodies);
    forall p: nat | p < |j.nodes| ensures NodeOk(c, j.commits, NodeAt(j, p), p) { assert FreshNode(c, j.nodes[p]); }
    forall p: nat | p < |j.nodes| ensures SeenOk(j.sent, NodeAt(j, p)) { assert FreshNode(c, j.nodes[p]); }
    forall p: nat | p < |j.nodes| ensures MailOk(c, j.app, |Log(j.commits, p)|, NodeAt(j, p).queue, p) {
      assert FreshNode(c, j.nodes[p]);
      assert Find([], p) == 0;
    }
  }

  // Events.

  lemma MailSent(c: Setup, app: NBodyBarrier.State, n: nat, queue: seq<Event>, p: nat, v: nat)
    requires MailOk(c, app, n, queue, p) && v == n + 1
    ensures MailOk(c, app, v, queue + [EventOf(c, p, v)], p)
  {
    assert Unfold(0);
  }

  lemma MailLegal(c: Setup, app: NBodyBarrier.State, n: nat, queue: seq<Event>, p: nat)
    requires MailOk(c, app, n, queue, p) && queue != [] && p < Proxies(c.bounds)
    ensures n >= |queue| && queue[0] == EventOf(c, p, n - |queue| + 1) && Known(app, p, n - |queue|) && Legal(c.bounds, app, queue[0])
  {
    assert Unfold(0);
  }

  lemma MailDelivered(c: Setup, app: NBodyBarrier.State, n: nat, queue: seq<Event>, p: nat)
    requires MailOk(c, app, n, queue, p) && queue != [] && p < Proxies(c.bounds)
    ensures MailOk(c, Next(app, queue[0]), n, queue[1..], p)
  {
    var d := n - |queue|;
    MailLegal(c, app, n, queue, p);
    NowKnown(c, app, queue[0], p, d, d + 1);
    MailRest(c, app, n, queue, p, d + 1);
  }

  lemma NowKnown(c: Setup, app: NBodyBarrier.State, e: Event, p: nat, d: nat, v: nat)
    requires Known(app, p, d) && v == d + 1 && e == EventOf(c, p, v)
    ensures Known(Next(app, e), p, v)
  {
    NextRegistered(app, e, p);
  }

  lemma MailRest(c: Setup, app: NBodyBarrier.State, n: nat, queue: seq<Event>, p: nat, v: nat)
    requires MailOk(c, app, n, queue, p) && queue != [] && v == n - |queue| + 1 && Known(Next(app, queue[0]), p, v)
    ensures MailOk(c, Next(app, queue[0]), n, queue[1..], p)
  {
    assert Unfold(0);
  }

  lemma MailOther(c: Setup, app: NBodyBarrier.State, e: Event, n: nat, queue: seq<Event>, q: nat)
    requires MailOk(c, app, n, queue, q) && (e.StartFrame? || e.pid != q)
    ensures MailOk(c, Next(app, e), n, queue, q)
  {
    NextRegistered(app, e, q);
    MailSame(c, app, Next(app, e), n, queue, q);
  }

  lemma MailSame(c: Setup, app: NBodyBarrier.State, after: NBodyBarrier.State, n: nat, queue: seq<Event>, q: nat)
    requires MailOk(c, app, n, queue, q) && (Registered(after.table, q) <==> Registered(app.table, q))
    requires (q in after.latest <==> q in app.latest) && (q in app.latest ==> after.latest[q] == app.latest[q])
    ensures MailOk(c, after, n, queue, q)
  {
    assert Unfold(0);
  }

  /** The application knows of no more commits than there are. */
  ghost predicate Heeded(bounds: seq<real>, commits: Commits, s: NBodyBarrier.State) {
    forall q: nat :: q < Proxies(bounds) && Registered(s.table, q) ==>
      Log(commits, q) != [] && (q in s.latest ==> s.latest[q] <= |Log(commits, q)|)
  }

  /** What the application records is true. */
  lemma RecordedOk(bounds: seq<real>, commits: Commits, s: NBodyBarrier.State, e: Event)
    requires NBodyBarrier.Inv(bounds, s) && Legal(bounds, s, e) && Heeded(bounds, commits, Next(s, e))
    ensures TableOk(bounds, commits, Recorded(s.table, e))
  {
    var table := Recorded(s.table, e);
    RecordKeeps(bounds, s, e);
    TracksRows(bounds, table, Heard(s, e), Latest(s, e));
    forall i | 0 <= i < |table| ensures RowTrue(bounds, commits, table[i]) {
      var q := table[i].id;
      assert Find(table, q) <= i;
      ClearedRegisters(table, q);
      assert Registered(Next(s, e).table, q);
    }
  }

  lemma HandlingHistory(bounds: seq<real>, j: Joint, e: Event)
    requires NBodyBarrier.Inv(bounds, j.app) && Legal(bounds, j.app, e) && Heeded(bounds, j.commits, Next(j.app, e))
    requires e.ProxyChanged? ==> VersionFor(j.app.table, e.pid) <= e.version
    requires History(bounds, j.commits, j.app.table, j.sent)
    ensures History(bounds, j.commits, Handling(j, e).app.table, Handling(j, e).sent)
  {
    var table := Recorded(j.app.table, e);
    RecordedNewer(j.app.table, e);
    if Handle(j.app.table, e).Committed? {
      RecordedOk(bounds, j.commits, j.app, e);
      HistorySends(bounds, j.commits, j.app.table, table, j.sent);
    } else {
      HistoryWaits(bounds, j.commits, j.app.table, table, j.sent);
    }
  }

  /** A proxy announces only newer versions. */
  lemma MailNewer(c: Setup, app: NBodyBarrier.State, n: nat, queue: seq<Event>, p: nat)
    requires MailOk(c, app, n, queue, p) && queue != [] && p < Proxies(c.bounds) && NBodyBarrier.Inv(c.bounds, app)
    ensures queue[0].ProxyChanged? ==> VersionFor(app.table, queue[0].pid) <= queue[0].version
  {
    MailLegal(c, app, n, queue, p);
    TableVersion(c.bounds, app.table, app.reported, app.latest, p);
  }

  // Nodes.

  lemma OtherNode(c: Setup, commits: Commits, n: Node, p: nat, u: Update, q: nat)
    requires NodeOk(c, commits, n, q) && q != p
    ensures NodeOk(c, WithCommit(commits, p, u), n, q)
  {
    assert Unfold(0);
    CommitKeeps(c.bounds, c.numBodies, commits, n.replica, p, u);
    TableKept(c.bounds, commits, n.view, p, u);
    if n.mapping.Mapped? { MappedKept(c, commits, n, p, u, n.replica, q); }
  }

  /** Commits, and changes to the own proxy, do not concern what was mapped. */
  lemma MappedKept(c: Setup, commits: Commits, n: Node, p: nat, u: Update, r: Replica, q: nat)
    requires n.mapping.Mapped? && MappedOk(c, commits, n, q) && |r.proxies| == |n.replica.proxies|
    requires forall i :: 0 <= i < |r.proxies| ==> r.proxies[i].id == n.replica.proxies[i].id
    requires forall i :: 1 <= i < |r.proxies| ==> r.proxies[i] == n.replica.proxies[i]
    ensures MappedOk(c, WithCommit(commits, p, u), n.(replica := r), q)
  {
    TableKept(c.bounds, commits, n.mapping.listed, p, u);
    SameIdsHave(n.replica.proxies, r.proxies);
  }

  lemma SameIdsHave(a: seq<Proxy>, b: seq<Proxy>)
    requires |a| == |b| && forall i :: 0 <= i < |a| ==> a[i].id == b[i].id
    ensures forall q: nat :: Has(a, q) <==> Has(b, q)
  {
    forall q: nat ensures Has(a, q) <==> Has(b, q) {
      if Has(a, q) { var i :| 0 <= i < |a| && a[i].id == q; assert b[i].id == q; }
      if Has(b, q) { var i :| 0 <= i < |b| && b[i].id == q; assert a[i].id == q; }
    }
  }

  lemma SizesNatural(c: Setup, commits: Commits, p: nat)
    requires World(c.bounds, c.numBodies, commits) && p < Proxies(c.bounds)
    ensures Offset(c.bounds, c.numBodies, p) >= 0 && NumBytes(c.bounds, c.numBodies, p) >= 0
    ensures 4 * Offset(c.bounds, c.numBodies, p) + NumBytes(c.bounds, c.numBodies, p) <= 16 * c.numBodies
  {
    assert Unfold(0);
    SliceFits(c.bounds, c.numBodies, p);
  }

  lemma RegisterNode(c: Setup, commits: Commits, n: Node, p: nat, r: Replica, u: Update)
    requires World(c.bounds, c.numBodies, commits) && NodeOk(c, commits, n, p) && p < Proxies(c.bounds) && n.replica.proxies == []
    requires r == OwnReplica(c, n.replica, p) && u == Serialized(r, 0)
    ensures World(c.bounds, c.numBodies, WithCommit(commits, p, u))
    ensures NodeOk(c, WithCommit(commits, p, u), n.(replica := r), p)
  {
    assert Unfold(0);
    SizesNatural(c, commits, p);
    RegisterGood(c.bounds, c.numBodies, commits, n.replica, p, r, u);
    TableKept(c.bounds, commits, n.view, p, u);
  }

  lemma ComputeNode(c: Setup, commits: Commits, n: Node, p: nat, pos: seq<Byte>, vel: seq<Byte>, u: Update)
    requires World(c.bounds, c.numBodies, commits) && NodeOk(c, commits, n, p) && p < Proxies(c.bounds) && n.replica.proxies != []
    requires |pos| == |vel| == 16 * c.numBodies && u == DeviceSlice(n.replica.proxies[0], pos, vel)
    ensures World(c.bounds, c.numBodies, WithCommit(commits, p, u))
    ensures NodeOk(c, WithCommit(commits, p, u), n.(replica := Apply(n.replica, 0, u)), p)
  {
    assert Unfold(0);
    SizesNatural(c, commits, p);
    assert SliceOf(c.bounds, c.numBodies, p, u);
    CommitKeepsWorld(c.bounds, c.numBodies, commits, p, u);
    UpdateKeepsNewest(c.bounds, c.numBodies, commits, n.replica, p, u);
    TableKept(c.bounds, commits, n.view, p, u);
    if n.mapping.Mapped? { MappedKept(c, commits, n, p, u, Apply(n.replica, 0, u), p); }
  }

  lemma MapNode(c: Setup, commits: Commits, n: Node, p: nat, at: Found, r: Replica)
    requires World(c.bounds, c.numBodies, commits) && NodeOk(c, commits, n, p) && |n.replica.proxies| == 1
    requires forall q: nat :: q < Proxies(c.bounds) && Log(commits, q) != [] ==> 0 < At(at, q) <= |Log(commits, q)|
    requires r == MapTo(n.replica, p, n.view, commits, at, |n.view|)
    ensures NodeOk(c, commits, n.(replica := r, mapping := Mapped(n.view, at)), p)
  {
    assert Unfold(0);
    MapFinds(c, commits, n.view, at);
    MapEstablishes(c.bounds, c.numBodies, commits, n.replica, p, n.view, at, r);
    MappingOk(c, commits, n.(replica := r, mapping := Mapped(n.view, at)), p);
  }

  lemma MapFinds(c: Setup, commits: Commits, view: seq<Entry>, at: Found)
    requires TableOk(c.bounds, commits, view)
    requires forall q: nat :: q < Proxies(c.bounds) && Log(commits, q) != [] ==> 0 < At(at, q) <= |Log(commits, q)|
    ensures Rows(c.bounds, view, commits, at)
    ensures forall q: nat :: Registered(view, q) ==> At(at, q) <= |Log(commits, q)|
  {
    forall i | 0 <= i < |view| ensures Findable(c.bounds, view[i].id, commits, at) {
      assert RowTrue(c.bounds, commits, view[i]);
    }
    forall q: nat | Registered(view, q) ensures At(at, q) <= |Log(commits, q)| {
      assert RowTrue(c.bounds, commits, view[Find(view, q)]);
    }
  }

  lemma MappingOk(c: Setup, commits: Commits, m: Node, p: nat)
    requires m.mapping.Mapped? && m.mapping.listed == m.view && TableOk(c.bounds, commits, m.view)
    requires forall q: nat :: Has(m.replica.proxies, q) <==> q == p || Registered(m.view, q)
    requires |m.replica.proxies| == if Registered(m.view, p) then |m.view| else |m.view| + 1
    requires forall j :: 1 <= j < |m.replica.proxies| ==> m.replica.proxies[j].version == At(m.mapping.found, m.replica.proxies[j].id)
    requires forall q: nat :: Registered(m.view, q) ==> At(m.mapping.found, q) <= |Log(commits, q)|
    ensures MappedOk(c, commits, m, p)
  {
  }

  lemma SyncNode(c: Setup, commits: Commits, n: Node, p: nat, r: Replica)
    requires World(c.bounds, c.numBodies, commits) && NodeOk(c, commits, n, p) && n.mapping.Mapped?
    requires r == SyncTo(n.replica, n.view, commits, |n.view|)
    ensures NodeOk(c, commits, n.(replica := r), p)
  {
    assert Unfold(0);
    SyncToKeeps(c.bounds, c.numBodies, commits, n.view, n.replica, |n.view|, r);
    SyncMapped(c, commits, n, p, r);
  }

  lemma SyncMapped(c: Setup, commits: Commits, n: Node, p: nat, r: Replica)
    requires n.mapping.Mapped? && MappedOk(c, commits, n, p) && |r.proxies| == |n.replica.proxies|
    requires forall j :: 0 <= j < |r.proxies| ==> r.proxies[j].id == n.replica.proxies[j].id
    requires forall j :: 1 <= j < |r.proxies| ==>
               r.proxies[j].version == if j < |n.view| then SyncedTo(commits, n.view, n.replica.proxies[j]) else n.replica.proxies[j].version
    ensures MappedOk(c, commits, n.(replica := r), p)
  {
    SameIdsHave(n.replica.proxies, r.proxies);
    forall i | 1 <= i < |r.proxies| ensures InReach(n.view, n.mapping.found, r.proxies[i]) {
      assert InReach(n.view, n.mapping.found, n.replica.proxies[i]);
    }
  }

  lemma SeeNode(c: Setup, commits: Commits, n: Node, p: nat, view: seq<Entry>, number: nat)
    requires NodeOk(c, commits, n, p) && TableOk(c.bounds, commits, view) && Older(n.view, view)
    ensures NodeOk(c, commits, n.(view := view, seen := number), p)
  {
    assert Unfold(0);
    if n.mapping.Mapped? { SeeMapped(c, commits, n, p, view, number); }
  }

  lemma SeeMapped(c: Setup, commits: Commits, n: Node, p: nat, view: seq<Entry>, number: nat)
    requires n.mapping.Mapped? && MappedOk(c, commits, n, p) && Older(n.view, view)
    ensures MappedOk(c, commits, n.(view := view, seen := number), p)
  {
    OlderTransitive(n.mapping.listed, n.view, view);
    forall i | 1 <= i < |n.replica.proxies| ensures InReach(view, n.mapping.found, n.replica.proxies[i]) {
      assert InReach(n.view, n.mapping.found, n.replica.proxies[i]);
      OlderFinds(n.view, view, n.replica.proxies[i].id);
    }
  }

  // ---- Steps and runs -----------------------------------------------------------------------

  /** Changing one node, with everybody's commits as they are. */
  lemma PutHolds(c: Setup, j: Joint, p: nat, n: Node)
    requires Holds(c, j) && p < |j.nodes| && NodeOk(c, j.commits, n, p) && n.queue == NodeAt(j, p).queue && SeenOk(j.sent, n)
    ensures Holds(c, Put(j, p, n))
  {
    var k := Put(j, p, n);
    forall q: nat | q < |k.nodes| ensures NodeOk(c, k.commits, NodeAt(k, q), q) && SeenOk(k.sent, NodeAt(k, q)) {
      if q != p { assert NodeAt(k, q) == NodeAt(j, q); }
    }
    forall q: nat | q < |k.nodes| ensures MailOk(c, k.app, |Log(k.commits, q)|, NodeAt(k, q).queue, q) {
      if q != p { assert NodeAt(k, q) == NodeAt(j, q); }
    }
  }

  /** A node that commits. */
  lemma CommitHolds(c: Setup, j: Joint, p: nat, r: Replica, u: Update)
    requires Holds(c, j) && p < |j.nodes| && World(c.bounds, c.numBodies, WithCommit(j.commits, p, u))
    requires NodeOk(c, WithCommit(j.commits, p, u), NodeAt(j, p).(replica := r), p)
    ensures Holds(c, Committing(c, j, p, r, u))
  {
    var k, total := Committing(c, j, p, r, u), |Log(j.commits, p)|;
    HistoryKept(c.bounds, j.commits, j.app.table, j.sent, p, u);
    CommittedNodes(c, j, p, r, u, k);
    forall q: nat | q < |k.nodes| ensures MailOk(c, k.app, |Log(k.commits, q)|, NodeAt(k, q).queue, q) {
      if q != p {
        assert NodeAt(k, q) == NodeAt(j, q);
      } else {
        MailSent(c, j.app, total, NodeAt(j, p).queue, p, total + 1);
      }
    }
  }

  lemma CommittedNodes(c: Setup, j: Joint, p: nat, r: Replica, u: Update, k: Joint)
    requires Holds(c, j) && p < |j.nodes| && k == Committing(c, j, p, r, u)
    requires NodeOk(c, WithCommit(j.commits, p, u), NodeAt(j, p).(replica := r), p)
    ensures forall q: nat :: q < |k.nodes| ==> NodeOk(c, k.commits, NodeAt(k, q), q) && SeenOk(k.sent, NodeAt(k, q))
  {
    forall q: nat | q < |k.nodes| ensures NodeOk(c, k.commits, NodeAt(k, q), q) && SeenOk(k.sent, NodeAt(k, q)) {
      assert SeenOk(j.sent, NodeAt(j, q));
      if q != p {
        assert NodeAt(k, q) == NodeAt(j, q);
        OtherNode(c, j.commits, NodeAt(j, q), p, u, q);
      } else {
        QueueFree(c, k.commits, NodeAt(j, p).(replica := r), NodeAt(k, p), p);
      }
    }
  }

  /** The queue does not enter a node's own condition. */
  lemma QueueFree(c: Setup, commits: Commits, n: Node, m: Node, p: nat)
    requires NodeOk(c, commits, n, p) && m == n.(queue := m.queue)
    ensures NodeOk(c, commits, m, p)
  {
    assert Unfold(0);
  }

  lemma RegisterHolds(c: Setup, j: Joint, p: nat)
    requires Holds(c, j) && Enabled(c, j, Register(p))
    ensures Holds(c, Do(c, j, Register(p)))
  {
    var r := OwnReplica(c, NodeAt(j, p).replica, p);
    RegisterNode(c, j.commits, NodeAt(j, p), p, r, Serialized(r, 0));
    CommitHolds(c, j, p, r, Serialized(r, 0));
  }

  lemma ComputeHolds(c: Setup, j: Joint, p: nat, pos: seq<Byte>, vel: seq<Byte>)
    requires Holds(c, j) && Enabled(c, j, Compute(p, pos, vel))
    ensures Holds(c, Do(c, j, Compute(p, pos, vel)))
  {
    var n := NodeAt(j, p);
    if n.replica.proxies != [] {
      var u := DeviceSlice(n.replica.proxies[0], pos, vel);
      ComputeNode(c, j.commits, n, p, pos, vel, u);
      CommitHolds(c, j, p, Apply(n.replica, 0, u), u);
    }
  }

  lemma MapHolds(c: Setup, j: Joint, p: nat, at: Found)
    requires Holds(c, j) && Enabled(c, j, Map(p, at))
    ensures Holds(c, Do(c, j, Map(p, at)))
  {
    var n := NodeAt(j, p);
    var r := MapTo(n.replica, p, n.view, j.commits, at, |n.view|);
    MapNode(c, j.commits, n, p, at, r);
    PutHolds(c, j, p, n.(replica := r, mapping := Mapped(n.view, at)));
  }

  lemma SynchroniseHolds(c: Setup, j: Joint, p: nat)
    requires Holds(c, j) && Enabled(c, j, Synchronise(p))
    ensures Holds(c, Do(c, j, Synchronise(p)))
  {
    var n := NodeAt(j, p);
    var r := SyncTo(n.replica, n.view, j.commits, |n.view|);
    SyncNode(c, j.commits, n, p, r);
    PutHolds(c, j, p, n.(replica := r));
  }

  lemma SeeHolds(c: Setup, j: Joint, p: nat, number: nat)
    requires Holds(c, j) && Enabled(c, j, See(p, number))
    ensures Holds(c, Do(c, j, See(p, number)))
  {
    var n, b := NodeAt(j, p), number - 1;
    HistoryAt(c.bounds, j.commits, j.app.table, j.sent, b, b);
    if n.seen > 0 { HistoryAt(c.bounds, j.commits, j.app.table, j.sent, n.seen - 1, b); }
    SeeNode(c, j.commits, n, p, j.sent[b], number);
    PutHolds(c, j, p, n.(view := j.sent[b], seen := number));
  }

  lemma MailHeeded(c: Setup, app: NBodyBarrier.State, total: nat, queue: seq<Event>, p: nat)
    requires MailOk(c, app, total, queue, p) && Registered(app.table, p)
    ensures total > 0 && (p in app.latest ==> app.latest[p] <= total)
  {
    assert Unfold(0);
  }

  lemma AllHeeded(c: Setup, k: Joint)
    requires |k.nodes| == Proxies(c.bounds)
    requires forall p: nat :: p < |k.nodes| ==> MailOk(c, k.app, |Log(k.commits, p)|, NodeAt(k, p).queue, p)
    ensures Heeded(c.bounds, k.commits, k.app)
  {
    forall q: nat | q < Proxies(c.bounds) && Registered(k.app.table, q)
      ensures Log(k.commits, q) != [] && (q in k.app.latest ==> k.app.latest[q] <= |Log(k.commits, q)|)
    {
      MailHeeded(c, k.app, |Log(k.commits, q)|, NodeAt(k, q).queue, q);
    }
  }

  lemma SeenMore(sent: seq<seq<Entry>>, more: seq<seq<Entry>>, n: Node)
    requires SeenOk(sent, n) && |sent| <= |more| && more[..|sent|] == sent
    ensures SeenOk(more, n)
  {
    assert n.seen > 0 ==> more[n.seen - 1] == more[..|sent|][n.seen - 1];
  }

  lemma FrameHolds(c: Setup, j: Joint)
    requires Holds(c, j)
    ensures Holds(c, Do(c, j, Frame))
  {
    var k := Do(c, j, Frame);
    NBodyBarrier.StepKeeps(c.bounds, j.app, StartFrame);
    forall q: nat | q < |k.nodes| ensures MailOk(c, k.app, |Log(k.commits, q)|, NodeAt(k, q).queue, q) {
      assert NodeAt(k, q) == NodeAt(j, q);
      MailOther(c, j.app, StartFrame, |Log(j.commits, q)|, NodeAt(j, q).queue, q);
    }
    forall q: nat | q < |k.nodes| ensures NodeOk(c, k.commits, NodeAt(k, q), q) && SeenOk(k.sent, NodeAt(k, q)) {
      assert NodeAt(k, q) == NodeAt(j, q);
      SeenMore(j.sent, k.sent, NodeAt(j, q));
    }
    AllHeeded(c, k);
    HandlingHistory(c.bounds, j, StartFrame);
  }

  lemma DeliveredMail(c: Setup, j: Joint, p: nat, k: Joint)
    requires Holds(c, j) && Enabled(c, j, Deliver(p)) && k == Do(c, j, Deliver(p))
    ensures forall q: nat :: q < |k.nodes| ==> MailOk(c, k.app, |Log(k.commits, q)|, NodeAt(k, q).queue, q)
  {
    var n, total := NodeAt(j, p), |Log(j.commits, p)|;
    MailLegal(c, j.app, total, n.queue, p);
    forall q: nat | q < |k.nodes| ensures MailOk(c, k.app, |Log(k.commits, q)|, NodeAt(k, q).queue, q) {
      if q != p {
        assert NodeAt(k, q) == NodeAt(j, q);
        MailOther(c, j.app, n.queue[0], |Log(j.commits, q)|, NodeAt(j, q).queue, q);
      } else {
        MailDelivered(c, j.app, total, n.queue, p);
      }
    }
  }

  lemma DeliveredNodes(c: Setup, j: Joint, p: nat, k: Joint)
    requires Holds(c, j) && Enabled(c, j, Deliver(p)) && k == Do(c, j, Deliver(p))
    ensures forall q: nat :: q < |k.nodes| ==> NodeOk(c, k.commits, NodeAt(k, q), q) && SeenOk(k.sent, NodeAt(k, q))
  {
    forall q: nat | q < |k.nodes| ensures NodeOk(c, k.commits, NodeAt(k, q), q) && SeenOk(k.sent, NodeAt(k, q)) {
      SeenMore(j.sent, k.sent, NodeAt(j, q));
      if q != p { assert NodeAt(k, q) == NodeAt(j, q); } else { QueueFree(c, k.commits, NodeAt(j, p), NodeAt(k, p), p); }
    }
  }

  lemma DeliverHolds(c: Setup, j: Joint, p: nat)
    requires Holds(c, j) && Enabled(c, j, Deliver(p))
    ensures Holds(c, Do(c, j, Deliver(p)))
  {
    var k, n := Do(c, j, Deliver(p)), NodeAt(j, p);
    var e, total := n.queue[0], |Log(j.commits, p)|;
    MailLegal(c, j.app, total, n.queue, p);
    MailNewer(c, j.app, total, n.queue, p);
    NBodyBarrier.StepKeeps(c.bounds, j.app, e);
    DeliveredMail(c, j, p, k);
    DeliveredNodes(c, j, p, k);
    AllHeeded(c, k);
    HandlingHistory(c.bounds, j, e);
  }

  lemma StepHolds(c: Setup, j: Joint, a: Action)
    requires Holds(c, j) && Enabled(c, j, a)
    ensures Holds(c, Do(c, j, a))
  {
    match a
    case Register(p) => RegisterHolds(c, j, p);
    case Deliver(p) => DeliverHolds(c, j, p);
    case Frame => FrameHolds(c, j);
    case See(p, number) => SeeHolds(c, j, p, number);
    case Map(p, at) => MapHolds(c, j, p, at);
    case Synchronise(p) => SynchroniseHolds(c, j, p);
    case Compute(p, pos, vel) => ComputeHolds(c, j, p, pos, vel);
  }

  lemma {:induction false} RunHolds(c: Setup, j: Joint, run: seq<Action>, k: Joint)
    requires Holds(c, j) && LeadsTo(c, j, run, k)
    ensures Holds(c, k)
    decreases |run|
  {
    if run != [] {
      StepHolds(c, j, run[0]);
      RunHolds(c, Do(c, j, run[0]), run[1..], k);
    }
  }
}
