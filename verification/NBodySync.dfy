/** What the n-body protocol achieves in its runs (examples/eqNBody): when syncMemory stays inside
    its vector, and when two nodes have equal arrays. */
module NBodySync {
  import opened Hiding
  import opened NBodyFrameData
  import opened NBodyBarrier
  import opened NBodyMemory
  import opened NBodyRuns

  // ---- Mapped nodes ---------------------------------------------------------------------------

  lemma MappedFacts(c: Setup, commits: Commits, n: Node, p: nat)
    requires NodeOk(c, commits, n, p) && n.mapping.Mapped?
    ensures Good(c.bounds, c.numBodies, commits, n.replica) && TableOk(c.bounds, commits, n.view)
    ensures n.replica.proxies != [] && OwnProxy(c, commits, n.replica.proxies[0], p) && MappedOk(c, commits, n, p)
  {
    assert Unfold(0);
  }

  /** Which tables a mapped node can synchronise to. A node that was in the table it mapped needs
      every row to have been there. One that was not has a proxy to spare. */
  ghost predicate RowsMapped(n: Node, p: nat)
    requires n.mapping.Mapped?
  {
    if Registered(n.mapping.listed, p)
    then forall i :: 0 <= i < |n.view| ==> Registered(n.mapping.listed, n.view[i].id)
    else |n.view| <= |n.mapping.listed| + 1
  }

  lemma RowsCounted(listed: seq<Entry>, view: seq<Entry>)
    requires Older(listed, view) && Distinct(view)
    ensures |view| <= |listed| <==> forall i :: 0 <= i < |view| ==> Registered(listed, view[i].id)
  {
    if |view| <= |listed| {
      forall i | 0 <= i < |view| ensures Registered(listed, view[i].id) { assert listed[i].id == view[i].id; }
    } else {
      NewRow(listed, view, |listed|);
    }
  }

  lemma NewRow(listed: seq<Entry>, view: seq<Entry>, k: nat)
    requires Older(listed, view) && Distinct(view) && |listed| <= k < |view|
    ensures !Registered(listed, view[k].id)
  {
    FindIs(listed, view[k].id, |listed|);
  }

  /** In every run, syncMemory finds a proxy for each row of the table it has, so that it does not
      read outside its vector, if and only if the rows were there when the node mapped. */
  lemma SyncInBounds(c: Setup, start: Joint, run: seq<Action>, j: Joint, p: nat)
    requires Proper(c) && Starts(c, start) && LeadsTo(c, start, run, j) && p < |j.nodes| && NodeAt(j, p).mapping.Mapped?
    ensures |NodeAt(j, p).view| <= |NodeAt(j, p).replica.proxies| <==> RowsMapped(NodeAt(j, p), p)
  {
    StartHolds(c, start);
    RunHolds(c, start, run, j);
    var n := NodeAt(j, p);
    MappedFacts(c, j.commits, n, p);
    RowsCounted(n.mapping.listed, n.view);
  }

  // ---- Later states ---------------------------------------------------------------------------

  ghost predicate Prefix<T>(a: seq<T>, b: seq<T>) { |a| <= |b| && forall i :: 0 <= i < |a| ==> a[i] == b[i] }

  /** Nothing that was broadcast or committed is lost, and a mapping is made once. */
  ghost predicate Later(j: Joint, k: Joint) {
    && |k.nodes| == |j.nodes| && Prefix(j.sent, k.sent)
    && (forall p: nat :: Prefix(Log(j.commits, p), Log(k.commits, p)))
    && (forall p: nat :: NodeAt(j, p).mapping.Mapped? ==> NodeAt(k, p).mapping == NodeAt(j, p).mapping)
  }

  lemma StepLater(c: Setup, j: Joint, a: Action)
    requires Enabled(c, j, a)
    ensures Later(j, Do(c, j, a))
  {
    match a
    case Register(p) =>
      var r := OwnReplica(c, NodeAt(j, p).replica, p);
      CommittingLater(c, j, p, r, Serialized(r, 0));
    case Deliver(p) =>
      PutLater(Handling(j, NodeAt(j, p).queue[0]), p, NodeAt(j, p).(queue := NodeAt(j, p).queue[1..]));
    case Frame =>
    case See(p, number) => PutLater(j, p, NodeAt(j, p).(view := j.sent[number - 1], seen := number));
    case Map(p, at) => PutLater(j, p, MappedNode(NodeAt(j, p), p, j.commits, at));
    case Synchronise(p) => PutLater(j, p, SyncedNode(NodeAt(j, p), j.commits));
    case Compute(p, pos, vel) =>
      var n := NodeAt(j, p);
      if n.replica.proxies != [] {
        var u := DeviceSlice(n.replica.proxies[0], pos, vel);
        CommittingLater(c, j, p, Apply(n.replica, 0, u), u);
      }
  }

  lemma PutLater(j: Joint, p: nat, n: Node)
    requires p < |j.nodes| && (NodeAt(j, p).mapping.Mapped? ==> n.mapping == NodeAt(j, p).mapping)
    ensures Later(j, Put(j, p, n))
  {
  }

  lemma CommittingLater(c: Setup, j: Joint, p: nat, r: Replica, u: Update)
    requires p < |j.nodes|
    ensures Later(j, Committing(c, j, p, r, u))
  {
  }

  lemma {:induction false} RunLater(c: Setup, j: Joint, run: seq<Action>, k: Joint)
    requires LeadsTo(c, j, run, k)
    ensures Later(j, k)
    decreases |run|
  {
    if run != [] {
      StepLater(c, j, run[0]);
      RunLater(c, Do(c, j, run[0]), run[1..], k);
    }
  }

  predicate CommitsBy(a: Action, p: nat) { a == Register(p) || (a.Compute? && a.p == p) }

  lemma {:induction false} OwnLogStays(c: Setup, j: Joint, run: seq<Action>, k: Joint, p: nat)
    requires LeadsTo(c, j, run, k) && forall i :: 0 <= i < |run| ==> !CommitsBy(run[i], p)
    ensures Log(k.commits, p) == Log(j.commits, p)
    decreases |run|
  {
    if run != [] {
      assert !CommitsBy(run[0], p);
      OwnLogStays(c, Do(c, j, run[0]), run[1..], k, p);
    }
  }

  // ---- What a broadcast stands for ------------------------------------------------------------

  /** The actions after which the application has broadcast its table. */
  predicate Broadcasts(j: Joint, a: Action) {
    match a
    case Frame => true
    case Deliver(p) => NodeAt(j, p).queue != [] && Handle(j.app.table, NodeAt(j, p).queue[0]).Committed?
    case _ => false
  }

  function Last(j: Joint): seq<Entry> { if j.sent == [] then [] else j.sent[|j.sent| - 1] }

  lemma BroadcastIs(c: Setup, j: Joint, a: Action)
    requires Enabled(c, j, a) && Broadcasts(j, a)
    ensures Do(c, j, a).sent == j.sent + [Last(Do(c, j, a))] && Do(c, j, a).app.table == Cleared(Last(Do(c, j, a)))
  {
  }

  lemma ClearedNames(table: seq<Entry>, p: nat)
    ensures Named(Cleared(table), p) == Named(table, p)
  {
    FindIs(Cleared(table), p, Find(table, p));
  }

  /** Once all events of p have arrived, the application's table stands for p's newest commit. */
  lemma HeardNewest(c: Setup, app: NBodyBarrier.State, commits: Commits, p: nat)
    requires MailOk(c, app, |Log(commits, p)|, [], p) && NBodyBarrier.Inv(c.bounds, app) && Log(commits, p) != []
    ensures Named(app.table, p) == |Log(commits, p)|
  {
    assert Unfold(0);
    TableVersion(c.bounds, app.table, app.reported, app.latest, p);
  }

  lemma BroadcastNewest(c: Setup, j: Joint, a: Action, k: Joint, p: nat)
    requires Holds(c, k) && Enabled(c, j, a) && Broadcasts(j, a) && k == Do(c, j, a)
    requires p < |k.nodes| && NodeAt(k, p).queue == [] && Log(k.commits, p) != []
    ensures Named(Last(k), p) == |Log(k.commits, p)|
  {
    BroadcastIs(c, j, a);
    ClearedNames(Last(k), p);
    HeardNewest(c, k.app, k.commits, p);
  }

  lemma TableExists(bounds: seq<real>, commits: Commits, table: seq<Entry>)
    requires TableOk(bounds, commits, table)
    ensures Exist(bounds, commits, table)
    ensures forall p: nat :: Registered(table, p) ==> 0 < Named(table, p) <= |Log(commits, p)|
  {
    forall p: nat ensures VersionFor(table, p) <= |Log(commits, p)| && (Registered(table, p) ==> Log(commits, p) != []) {
      if Registered(table, p) { assert RowTrue(bounds, commits, table[Find(table, p)]); }
    }
  }

  // ---- Equal arrays ---------------------------------------------------------------------------

  ghost predicate Full(c: Setup, table: seq<Entry>) { forall q: nat :: q < Proxies(c.bounds) ==> Registered(table, q) }

  /** The commits found by a mapping are among those that the table stands for. */
  ghost predicate NotAhead(c: Setup, table: seq<Entry>, found: Found, own: nat) {
    forall q: nat :: q < Proxies(c.bounds) && q != own ==> At(found, q) <= Named(table, q)
  }

  /** Node p sees broadcast number b, has mapped everybody, and at no commit beyond that broadcast. */
  ghost predicate Ready(c: Setup, x: Joint, p: nat, b: nat, table: seq<Entry>) {
    && p < |x.nodes| && NodeAt(x, p).mapping.Mapped? && NodeAt(x, p).seen == b
    && Full(c, NodeAt(x, p).mapping.listed) && NotAhead(c, table, NodeAt(x, p).mapping.found, p)
  }

  /** Synchronising brings this node exactly to the table. */
  ghost predicate Prepared(c: Setup, commits: Commits, n: Node, table: seq<Entry>) {
    && n.view == table && Good(c.bounds, c.numBodies, commits, n.replica) && Complete(c.bounds, n.replica)
    && NotBeyond(table, n.replica) && |n.replica.proxies| <= |table| && TableOk(c.bounds, commits, table)
  }

  lemma ReadyNode(c: Setup, x: Joint, p: nat, b: nat, table: seq<Entry>)
    requires Holds(c, x) && Ready(c, x, p, b, table) && 0 < b <= |x.sent| && table == x.sent[b - 1]
    requires |Log(x.commits, p)| == Named(table, p)
    ensures Prepared(c, x.commits, NodeAt(x, p), table) && Full(c, table)
  {
    var n := NodeAt(x, p);
    MappedFacts(c, x.commits, n, p);
    assert SeenOk(x.sent, n);
    assert Registered(n.mapping.listed, p);
    forall q: nat | q < Proxies(c.bounds) ensures Has(n.replica.proxies, q) && Registered(table, q) {
      assert Registered(n.mapping.listed, q);
      OlderFinds(n.mapping.listed, n.view, q);
    }
    forall i | 0 <= i < |n.replica.proxies| ensures n.replica.proxies[i].version <= Named(table, n.replica.proxies[i].id) {
      WithinTable(c, x.commits, n, p, table, i);
    }
  }

  lemma WithinTable(c: Setup, commits: Commits, n: Node, p: nat, table: seq<Entry>, i: nat)
    requires n.mapping.Mapped? && MappedOk(c, commits, n, p) && n.view == table && NotAhead(c, table, n.mapping.found, p)
    requires i < |n.replica.proxies| && Good(c.bounds, c.numBodies, commits, n.replica)
    requires OwnProxy(c, commits, n.replica.proxies[0], p) && |Log(commits, p)| == Named(table, p)
    ensures n.replica.proxies[i].version <= Named(table, n.replica.proxies[i].id)
  {
    if i > 0 {
      assert InReach(n.view, n.mapping.found, n.replica.proxies[i]);
      FineVersion(c.bounds, commits, n.replica, n.replica.proxies[i]);
      assert n.replica.proxies[i].id != n.replica.proxies[0].id;
    }
  }

  lemma SameNamed(c: Setup, k: Joint, x: Joint, y: Joint, table: seq<Entry>)
    requires Later(k, x) && Later(k, y) && TableOk(c.bounds, k.commits, table) && Full(c, table)
    ensures SameCommits(c.bounds, table, x.commits, y.commits)
  {
    TableExists(c.bounds, k.commits, table);
    forall q: nat | q < Proxies(c.bounds) ensures CommitAt(x.commits, q, Named(table, q)) == CommitAt(y.commits, q, Named(table, q)) {
      assert Registered(table, q);
      assert Prefix(Log(k.commits, q), Log(x.commits, q)) && Prefix(Log(k.commits, q), Log(y.commits, q));
    }
  }

  /** Node p at the end of a run after the broadcast in k, in which it made no commit itself. */
  lemma ReadyLater(c: Setup, j: Joint, a: Action, k: Joint, run: seq<Action>, x: Joint, p: nat)
    requires Holds(c, j) && Enabled(c, j, a) && Broadcasts(j, a) && k == Do(c, j, a)
    requires LeadsTo(c, k, run, x) && (forall i :: 0 <= i < |run| ==> !CommitsBy(run[i], p))
    requires Ready(c, x, p, |k.sent|, Last(k)) && NodeAt(k, p).queue == []
    ensures Later(k, x) && World(c.bounds, c.numBodies, x.commits) && Prepared(c, x.commits, NodeAt(x, p), Last(k))
    ensures TableOk(c.bounds, k.commits, Last(k)) && Full(c, Last(k))
  {
    StepHolds(c, j, a);
    RunHolds(c, k, run, x);
    RunLater(c, k, run, x);
    BroadcastIs(c, j, a);
    OwnLogStays(c, k, run, x, p);
    MappedFacts(c, x.commits, NodeAt(x, p), p);
    FineVersion(c.bounds, x.commits, NodeAt(x, p).replica, NodeAt(x, p).replica.proxies[0]);
    BroadcastNewest(c, j, a, k, p);
    ReadyNode(c, x, p, |k.sent|, Last(k));
    HistoryAt(c.bounds, k.commits, k.app.table, k.sent, |k.sent| - 1, |k.sent| - 1);
  }

  /** In every run: let the application broadcast its table, at a frame start or because the
      barrier is complete, when all events of p and q have arrived. Let each of them see that table
      and synchronise, at its own time, before it commits again, having mapped everybody and at no
      commit beyond the table. Then what p has after synchronising equals what q has after
      synchronising, whatever all nodes and the application do in between. */
  lemma BarrierSynchronises(c: Setup, start: Joint, before: seq<Action>, j: Joint, a: Action, k: Joint,
                            toX: seq<Action>, x: Joint, p: nat, toY: seq<Action>, y: Joint, q: nat)
    requires Proper(c) && Starts(c, start) && LeadsTo(c, start, before, j)
    requires Enabled(c, j, a) && Broadcasts(j, a) && k == Do(c, j, a)
    requires NodeAt(k, p).queue == [] && NodeAt(k, q).queue == []
    requires LeadsTo(c, k, toX, x) && (forall i :: 0 <= i < |toX| ==> !CommitsBy(toX[i], p)) && Ready(c, x, p, |k.sent|, Last(k))
    requires LeadsTo(c, k, toY, y) && (forall i :: 0 <= i < |toY| ==> !CommitsBy(toY[i], q)) && Ready(c, y, q, |k.sent|, Last(k))
    ensures var s, t := NodeAt(Do(c, x, Synchronise(p)), p).replica, NodeAt(Do(c, y, Synchronise(q)), q).replica;
            s.pos == t.pos && s.vel == t.vel
  {
    StartHolds(c, start);
    RunHolds(c, start, before, j);
    ReadyLater(c, j, a, k, toX, x, p);
    ReadyLater(c, j, a, k, toY, y, q);
    SameNamed(c, k, x, y, Last(k));
    PreparedAlike(c, x.commits, y.commits, NodeAt(x, p), NodeAt(y, q), Last(k));
    AfterSynchronise(c, x, p, SyncedNode(NodeAt(x, p), x.commits));
    AfterSynchronise(c, y, q, SyncedNode(NodeAt(y, q), y.commits));
  }

  lemma AfterSynchronise(c: Setup, x: Joint, p: nat, n: Node)
    requires p < |x.nodes| && n == SyncedNode(NodeAt(x, p), x.commits)
    ensures NodeAt(Do(c, x, Synchronise(p)), p) == n
  {
    DoSynchronise(c, x, p);
    PutNode(x, p, n);
  }

  lemma DoSynchronise(c: Setup, x: Joint, p: nat)
    ensures Do(c, x, Synchronise(p)) == Put(x, p, SyncedNode(NodeAt(x, p), x.commits))
  {
  }

  lemma PutNode(x: Joint, p: nat, n: Node)
    requires p < |x.nodes|
    ensures NodeAt(Put(x, p, n), p) == n
  {
  }

  lemma PreparedAlike(c: Setup, a: Commits, b: Commits, m: Node, n: Node, table: seq<Entry>)
    requires World(c.bounds, c.numBodies, a) && World(c.bounds, c.numBodies, b) && SameCommits(c.bounds, table, a, b)
    requires Prepared(c, a, m, table) && Prepared(c, b, n, table)
    ensures var s, t := SyncedNode(m, a).replica, SyncedNode(n, b).replica; s.pos == t.pos && s.vel == t.vel
  {
    TableExists(c.bounds, a, table);
    TableExists(c.bounds, b, table);
    ReplicasAgree(c.bounds, c.numBodies, a, b, table, m.replica, n.replica, SyncedNode(m, a).replica, SyncedNode(n, b).replica, |table|);
  }

  // ---- A broadcast that everybody has reported to ----------------------------------------------

  /** Node p mapped everybody before the broadcast in k, when all events had arrived. */
  lemma QuietReady(c: Setup, j: Joint, a: Action, k: Joint, run: seq<Action>, x: Joint, p: nat)
    requires Holds(c, j) && Enabled(c, j, a) && Broadcasts(j, a) && k == Do(c, j, a) && LeadsTo(c, k, run, x)
    requires forall o: nat :: o < |k.nodes| ==> NodeAt(k, o).queue == []
    requires p < |k.nodes| && NodeAt(k, p).mapping.Mapped? && Full(c, NodeAt(k, p).mapping.listed) && NodeAt(x, p).seen == |k.sent|
    ensures Ready(c, x, p, |k.sent|, Last(k))
  {
    StepHolds(c, j, a);
    RunLater(c, k, run, x);
    var n := NodeAt(k, p);
    MappedFacts(c, k.commits, n, p);
    TableExists(c.bounds, k.commits, n.mapping.listed);
    forall q: nat | q < Proxies(c.bounds) ensures At(n.mapping.found, q) <= Named(Last(k), q) {
      assert Registered(n.mapping.listed, q);
      BroadcastNewest(c, j, a, k, q);
    }
  }

  /** In particular, if every event has arrived at the broadcast, two nodes that had mapped
      everybody by then have equal arrays after they see it and synchronise, each before its own
      next commit and whatever the others commit. */
  lemma QuietBroadcastSynchronises(c: Setup, start: Joint, before: seq<Action>, j: Joint, a: Action, k: Joint,
                                   toX: seq<Action>, x: Joint, p: nat, toY: seq<Action>, y: Joint, q: nat)
    requires Proper(c) && Starts(c, start) && LeadsTo(c, start, before, j)
    requires Enabled(c, j, a) && Broadcasts(j, a) && k == Do(c, j, a) && p < |k.nodes| && q < |k.nodes|
    requires forall o: nat :: o < |k.nodes| ==> NodeAt(k, o).queue == []
    requires NodeAt(k, p).mapping.Mapped? && Full(c, NodeAt(k, p).mapping.listed)
    requires NodeAt(k, q).mapping.Mapped? && Full(c, NodeAt(k, q).mapping.listed)
    requires LeadsTo(c, k, toX, x) && (forall i :: 0 <= i < |toX| ==> !CommitsBy(toX[i], p)) && NodeAt(x, p).seen == |k.sent|
    requires LeadsTo(c, k, toY, y) && (forall i :: 0 <= i < |toY| ==> !CommitsBy(toY[i], q)) && NodeAt(y, q).seen == |k.sent|
    ensures var s, t := NodeAt(Do(c, x, Synchronise(p)), p).replica, NodeAt(Do(c, y, Synchronise(q)), q).replica;
            s.pos == t.pos && s.vel == t.vel
  {
    StartHolds(c, start);
    RunHolds(c, start, before, j);
    QuietReady(c, j, a, k, toX, x, p);
    QuietReady(c, j, a, k, toY, y, q);
    BarrierSynchronises(c, start, before, j, a, k, toX, x, p, toY, y, q);
  }
}
