/** The commit rule of the n-body simulation (examples/eqNBody/config.cpp): the application
    broadcasts the proxy table when the reported ranges add up to one. */
module NBodyBarrier {
  import opened Hiding
  import opened NBodyFrameData

  datatype Event =
    | DataChanged(pid: nat, start: real, end: real)                  // a proxy registers
    | ProxyChanged(pid: nat, version: nat, start: real, end: real)   // a proxy has new data
    | StartFrame

  /** The table after an event, and what was broadcast. */
  datatype Outcome = Waiting(table: seq<Entry>) | Committed(table: seq<Entry>, published: seq<Entry>)

  function Recorded(table: seq<Entry>, e: Event): seq<Entry> {
    match e
    case DataChanged(pid, start, end) => table + [Entry(pid, VERSION_NONE, end - start)]
    case ProxyChanged(pid, version, start, end) => Updated(table, pid, version, end - start)
    case StartFrame => table
  }

  function Handle(table: seq<Entry>, e: Event): Outcome {
    var recorded := Recorded(table, e);
    if e.StartFrame? || Sum(recorded) == 1.0 then Committed(Cleared(recorded), recorded) else Waiting(recorded)
  }

  class Config {
    const frameData: FrameData
    var redraw: bool

    ghost predicate Valid() reads this, frameData { frameData.Valid() }

    ghost function Table(): seq<Entry>
      requires Valid()
      reads this, frameData, frameData.dataProxyID, frameData.dataRanges
    {
      frameData.Table()
    }

    constructor ()
      ensures Valid() && Table() == [] && fresh(frameData) && fresh(frameData.dataProxyID) && fresh(frameData.dataRanges)
    {
      frameData := new FrameData();
      redraw := true;
    }

    method BeginFrame() returns (published: seq<Entry>)
      requires Valid()
      modifies this, frameData.dataRanges
      ensures Valid() && Committed(Table(), published) == Handle(old(Table()), StartFrame) && !redraw
    {
      published := frameData.Commit();
      redraw := false;
    }

    method Record(e: Event)
      requires Valid() && e != StartFrame
      requires e.DataChanged? ==> frameData.numDataProxies < MAX_NGPUS
      modifies frameData, frameData.dataProxyID, frameData.dataRanges
      ensures Valid() && Table() == Recorded(old(Table()), e)
    {
      match e {
        case DataChanged(pid, start, end) => frameData.AddProxyID(pid, start, end);
        case ProxyChanged(pid, version, start, end) => frameData.UpdateProxyID(pid, version, start, end);
      }
    }

    method HandleEvent(e: Event) returns (committed: bool, published: seq<Entry>)
      requires Valid() && e != StartFrame
      requires e.DataChanged? ==> frameData.numDataProxies < MAX_NGPUS
      modifies frameData, frameData.dataProxyID, frameData.dataRanges
      ensures Valid()
      ensures Handle(old(Table()), e) == if committed then Committed(Table(), published) else Waiting(Table())
    {
      Record(e);
      committed := frameData.IsReady();
      published := [];
      if committed {
        published := frameData.Commit();
      }
    }
  }

  // ---- Runs -------------------------------------------------------------------------------

  /** Proxy p owns the range from bounds[p] to bounds[p + 1]; together they tile [0,1]. */
  predicate Tiling(bounds: seq<real>) {
    && |bounds| >= 2 && bounds[0] == 0.0 && bounds[|bounds| - 1] == 1.0
    && forall i :: 1 <= i < |bounds| ==> bounds[i - 1] < bounds[i]
  }

  function Proxies(bounds: seq<real>): nat { if bounds == [] then 0 else |bounds| - 1 }

  function Length(bounds: seq<real>, p: nat): real {
    if p + 1 < |bounds| then bounds[p + 1] - bounds[p] else 0.0
  }

  /** The table together with the run's history: who has reported since the last commit, the
      newest version that each proxy announced, and the last broadcast. */
  datatype State = State(table: seq<Entry>, reported: set<nat>, latest: map<nat, nat>, published: seq<Entry>)

  const Init := State([], {}, map[], [])

  /** A proxy registers once, and always names its own range. */
  predicate Legal(bounds: seq<real>, s: State, e: Event) {
    match e
    case DataChanged(pid, start, end) =>
      pid < Proxies(bounds) && !Registered(s.table, pid) && end - start == Length(bounds, pid)
    case ProxyChanged(pid, _, start, end) => pid < Proxies(bounds) && end - start == Length(bounds, pid)
    case StartFrame => true
  }

  /** Who has reported once e has arrived; a proxy that is not registered is not heard. */
  function Heard(s: State, e: Event): set<nat> {
    match e
    case DataChanged(pid, _, _) => s.reported + {pid}
    case ProxyChanged(pid, _, _, _) => if Registered(s.table, pid) then s.reported + {pid} else s.reported
    case StartFrame => s.reported
  }

  function Latest(s: State, e: Event): map<nat, nat> {
    match e
    case ProxyChanged(pid, version, _, _) => if Registered(s.table, pid) then s.latest[pid := version] else s.latest
    case _ => s.latest
  }

  function Next(s: State, e: Event): State {
    match Handle(s.table, e)
    case Waiting(table) => State(table, Heard(s, e), Latest(s, e), s.published)
    case Committed(table, published) => State(table, {}, Latest(s, e), published)
  }

  ghost predicate Leads(bounds: seq<real>, s: State, run: seq<Event>, t: State)
    decreases |run|
  {
    if run == [] then s == t else Legal(bounds, s, run[0]) && Leads(bounds, Next(s, run[0]), run[1..], t)
  }

  // ---- What every run keeps ---------------------------------------------------------------

  /** How much of [0,1] the reporting proxies among the first n own. */
  function Covered(bounds: seq<real>, reported: set<nat>, n: nat): real {
    if n == 0 then 0.0 else Covered(bounds, reported, n - 1) + (if n - 1 in reported then Length(bounds, n - 1) else 0.0)
  }

  ghost predicate Distinct(table: seq<Entry>) {
    forall i, j :: 0 <= i < j < |table| ==> table[i].id != table[j].id
  }

  ghost predicate RowOk(bounds: seq<real>, reported: set<nat>, latest: map<nat, nat>, e: Entry) {
    && e.id < Proxies(bounds)
    && e.length == (if e.id in reported then Length(bounds, e.id) else 0.0)
    && e.version == (if e.id in latest then latest[e.id] else VERSION_NONE)
  }

  ghost predicate Tracks(bounds: seq<real>, table: seq<Entry>, reported: set<nat>, latest: map<nat, nat>) {
    forall key {:trigger Unfold(key)} :: Unfold(key) ==> InStep(bounds, table, reported, latest)
  }

  ghost predicate InStep(bounds: seq<real>, table: seq<Entry>, reported: set<nat>, latest: map<nat, nat>) {
    && Distinct(table)
    && (forall i :: 0 <= i < |table| ==> RowOk(bounds, reported, latest, table[i]))
    && (forall p :: p in reported ==> Registered(table, p))
    && (forall p :: p in latest ==> Registered(table, p))
  }

  ghost predicate Inv(bounds: seq<real>, s: State) {
    && Tracks(bounds, s.table, s.reported, s.latest)
    && Sum(s.table) == Covered(bounds, s.reported, Proxies(bounds))
  }

  lemma {:induction false} CoveredNone(bounds: seq<real>, n: nat)
    ensures Covered(bounds, {}, n) == 0.0
  {
    if n > 0 { CoveredNone(bounds, n - 1); }
  }

  lemma {:induction false} CoveredMore(bounds: seq<real>, reported: set<nat>, p: nat, n: nat)
    requires p !in reported
    ensures Covered(bounds, reported + {p}, n)
         == Covered(bounds, reported, n) + (if p < n then Length(bounds, p) else 0.0)
  {
    if n > 0 { CoveredMore(bounds, reported, p, n - 1); }
  }

  /** The reports add up to everything exactly when nobody is missing. */
  lemma {:induction false} CoveredAll(bounds: seq<real>, reported: set<nat>, n: nat)
    requires Tiling(bounds) && n < |bounds|
    ensures Covered(bounds, reported, n) <= bounds[n]
    ensures Covered(bounds, reported, n) == bounds[n] <==> forall p :: 0 <= p < n ==> p in reported
  {
    if n > 0 {
      CoveredAll(bounds, reported, n - 1);
      assert bounds[n - 1] < bounds[n];
    }
  }

  lemma AddedTracks(bounds: seq<real>, s: State, pid: nat, row: Entry, reported: set<nat>)
    requires Tracks(bounds, s.table, s.reported, s.latest) && !Registered(s.table, pid)
    requires row.id == pid && reported == s.reported + {pid} && RowOk(bounds, reported, s.latest, row)
    ensures Tracks(bounds, s.table + [row], reported, s.latest)
  {
    assert Unfold(0);
    var table := s.table + [row];
    forall p | Registered(s.table, p) || p == pid ensures Registered(table, p) {
      FindIs(table, p, Find(s.table, p));
    }
  }

  lemma ChangedTracks(bounds: seq<real>, s: State, i: nat, row: Entry, reported: set<nat>, latest: map<nat, nat>)
    requires Tracks(bounds, s.table, s.reported, s.latest) && i < |s.table| && s.table[i].id == row.id
    requires reported == s.reported + {row.id} && latest == s.latest[row.id := row.version]
    requires RowOk(bounds, reported, latest, row) && Registered(s.table, row.id)
    ensures Tracks(bounds, s.table[i := row], reported, latest)
  {
    assert Unfold(0);
    var table := s.table[i := row];
    forall p | Registered(s.table, p) ensures Registered(table, p) {
      FindIs(table, p, Find(s.table, p));
    }
  }

  lemma SumAdded(table: seq<Entry>, row: Entry)
    ensures Sum(table + [row]) == Sum(table) + row.length
  {
    var more := table + [row];
    assert more[..|more| - 1] == table;
  }

  lemma Unseen(bounds: seq<real>, s: State, p: nat)
    requires Tracks(bounds, s.table, s.reported, s.latest) && !Registered(s.table, p)
    ensures p !in s.reported && p !in s.latest
  {
    assert Unfold(0);
  }

  lemma SeenRegistered(bounds: seq<real>, table: seq<Entry>, reported: set<nat>, latest: map<nat, nat>, p: nat)
    requires Tracks(bounds, table, reported, latest) && p in reported
    ensures Registered(table, p)
  {
    assert Unfold(0);
  }

  /** Recording an event keeps the table in step with the reports. */
  lemma RegisterKeeps(bounds: seq<real>, s: State, e: Event)
    requires Inv(bounds, s) && Legal(bounds, s, e) && e.DataChanged?
    ensures Tracks(bounds, Recorded(s.table, e), Heard(s, e), Latest(s, e))
    ensures Sum(Recorded(s.table, e)) == Covered(bounds, Heard(s, e), Proxies(bounds))
  {
    var row := Entry(e.pid, VERSION_NONE, e.end - e.start);
    Unseen(bounds, s, e.pid);
    AddedTracks(bounds, s, e.pid, row, Heard(s, e));
    SumAdded(s.table, row);
    CoveredMore(bounds, s.reported, e.pid, Proxies(bounds));
  }

  lemma UpdateKeeps(bounds: seq<real>, s: State, e: Event)
    requires Inv(bounds, s) && Legal(bounds, s, e) && e.ProxyChanged?
    ensures Tracks(bounds, Recorded(s.table, e), Heard(s, e), Latest(s, e))
    ensures Sum(Recorded(s.table, e)) == Covered(bounds, Heard(s, e), Proxies(bounds))
  {
    var row := Entry(e.pid, e.version, e.end - e.start);
    if Registered(s.table, e.pid) {
      UpdateIs(s, e, row);
      RowUpdated(bounds, s, Find(s.table, e.pid), row, s.reported + {row.id}, s.latest[row.id := row.version]);
    } else {
      assert Recorded(s.table, e) == s.table && Heard(s, e) == s.reported && Latest(s, e) == s.latest;
    }
  }

  lemma UpdateIs(s: State, e: Event, row: Entry)
    requires e.ProxyChanged? && row == Entry(e.pid, e.version, e.end - e.start) && Registered(s.table, e.pid)
    ensures Recorded(s.table, e) == s.table[Find(s.table, e.pid) := row]
    ensures Heard(s, e) == s.reported + {row.id} && Latest(s, e) == s.latest[row.id := row.version]
  {
  }

  lemma RowUpdated(bounds: seq<real>, s: State, i: nat, row: Entry, reported: set<nat>, latest: map<nat, nat>)
    requires Inv(bounds, s) && i < |s.table| && s.table[i].id == row.id && row.id < Proxies(bounds) && Registered(s.table, row.id)
    requires row.length == Length(bounds, row.id) && reported == s.reported + {row.id} && latest == s.latest[row.id := row.version]
    ensures Tracks(bounds, s.table[i := row], reported, latest)
    ensures Sum(s.table[i := row]) == Covered(bounds, reported, Proxies(bounds))
  {
    assert RowOk(bounds, reported, latest, row);
    ChangedTracks(bounds, s, i, row, reported, latest);
    UpdateSum(bounds, s, i, row);
  }

  lemma UpdateSum(bounds: seq<real>, s: State, i: nat, row: Entry)
    requires Inv(bounds, s) && i < |s.table| && s.table[i].id == row.id && row.id < Proxies(bounds)
    requires row.length == Length(bounds, row.id)
    ensures Sum(s.table[i := row]) == Covered(bounds, s.reported + {row.id}, Proxies(bounds))
  {
    assert Unfold(0);
    assert RowOk(bounds, s.reported, s.latest, s.table[i]);
    SumChange(s.table, i, row);
    CoveredAgain(bounds, s.reported, row.id, Proxies(bounds));
  }

  lemma CoveredAgain(bounds: seq<real>, reported: set<nat>, p: nat, n: nat)
    requires p < n
    ensures Covered(bounds, reported + {p}, n)
         == Covered(bounds, reported, n) + (if p in reported then 0.0 else Length(bounds, p))
  {
    if p in reported {
      assert reported + {p} == reported;
    } else {
      CoveredMore(bounds, reported, p, n);
    }
  }

  lemma RecordKeeps(bounds: seq<real>, s: State, e: Event)
    requires Inv(bounds, s) && Legal(bounds, s, e)
    ensures Tracks(bounds, Recorded(s.table, e), Heard(s, e), Latest(s, e))
    ensures Sum(Recorded(s.table, e)) == Covered(bounds, Heard(s, e), Proxies(bounds))
  {
    match e
    case DataChanged(_, _, _) => RegisterKeeps(bounds, s, e);
    case ProxyChanged(_, _, _, _) => UpdateKeeps(bounds, s, e);
    case StartFrame =>
  }

  lemma ClearTracks(bounds: seq<real>, table: seq<Entry>, reported: set<nat>, latest: map<nat, nat>)
    requires Tracks(bounds, table, reported, latest)
    ensures Tracks(bounds, Cleared(table), {}, latest)
  {
    assert Unfold(0);
    forall p | Registered(table, p) ensures Registered(Cleared(table), p) {
      FindIs(Cleared(table), p, Find(table, p));
    }
  }

  lemma StepKeeps(bounds: seq<real>, s: State, e: Event)
    requires Inv(bounds, s) && Legal(bounds, s, e)
    ensures Inv(bounds, Next(s, e))
  {
    var table := Recorded(s.table, e);
    RecordKeeps(bounds, s, e);
    ClearTracks(bounds, table, Heard(s, e), Latest(s, e));
    SumCleared(table);
    CoveredNone(bounds, Proxies(bounds));
  }

  lemma {:induction false} RunKeeps(bounds: seq<real>, s: State, run: seq<Event>, t: State)
    requires Inv(bounds, s) && Leads(bounds, s, run, t)
    ensures Inv(bounds, t)
    decreases |run|
  {
    if run != [] {
      StepKeeps(bounds, s, run[0]);
      RunKeeps(bounds, Next(s, run[0]), run[1..], t);
    }
  }

  // ---- The barrier ------------------------------------------------------------------------

  ghost predicate Everyone(bounds: seq<real>, who: set<nat>) { forall p :: 0 <= p < Proxies(bounds) ==> p in who }

  /** In every run, a registration or update makes the application commit exactly when, with
      it, every proxy is registered and has reported since the last commit. */
  lemma CommitsWhenAllReported(bounds: seq<real>, run: seq<Event>, s: State, e: Event)
    requires Tiling(bounds) && Leads(bounds, Init, run, s) && Legal(bounds, s, e) && e != StartFrame
    ensures Handle(s.table, e).Committed? <==> Everyone(bounds, Heard(s, e))
    ensures Handle(s.table, e).Committed? ==> forall p :: 0 <= p < Proxies(bounds) ==> Registered(Recorded(s.table, e), p)
  {
    CoveredNone(bounds, Proxies(bounds));
    RunKeeps(bounds, Init, run, s);
    RecordKeeps(bounds, s, e);
    CommitsIff(bounds, Recorded(s.table, e), Heard(s, e), Latest(s, e));
  }

  lemma CommitsIff(bounds: seq<real>, table: seq<Entry>, reported: set<nat>, latest: map<nat, nat>)
    requires Tiling(bounds) && Tracks(bounds, table, reported, latest) && Sum(table) == Covered(bounds, reported, Proxies(bounds))
    ensures Sum(table) == 1.0 <==> Everyone(bounds, reported)
    ensures Sum(table) == 1.0 ==> forall p :: 0 <= p < Proxies(bounds) ==> Registered(table, p)
  {
    CoveredAll(bounds, reported, Proxies(bounds));
    forall p | 0 <= p < Proxies(bounds) && Sum(table) == 1.0 ensures Registered(table, p) {
      SeenRegistered(bounds, table, reported, latest, p);
    }
  }

  /** A table names, for each proxy, the newest version it announced. */
  lemma TableVersion(bounds: seq<real>, table: seq<Entry>, reported: set<nat>, latest: map<nat, nat>, p: nat)
    requires Tracks(bounds, table, reported, latest)
    ensures VersionFor(table, p) == if p in latest then latest[p] else VERSION_NONE
  {
    assert Unfold(0);
    if Registered(table, p) {
      assert RowOk(bounds, reported, latest, table[Find(table, p)]);
    }
  }

  /** The rows of a table are different proxies, at the newest versions they announced. */
  lemma TracksRows(bounds: seq<real>, table: seq<Entry>, reported: set<nat>, latest: map<nat, nat>)
    requires Tracks(bounds, table, reported, latest)
    ensures Distinct(table)
    ensures forall i :: 0 <= i < |table| ==> RowOk(bounds, reported, latest, table[i])
  {
    assert Unfold(0);
  }

  /** What a commit broadcasts: the newest versions, of different proxies. */
  lemma PublishedIs(bounds: seq<real>, s: State, e: Event, p: nat)
    requires Inv(bounds, s) && Legal(bounds, s, e) && Handle(s.table, e).Committed?
    ensures VersionFor(Next(s, e).published, p) == if p in Latest(s, e) then Latest(s, e)[p] else VERSION_NONE
    ensures Next(s, e).published == Recorded(s.table, e)
    ensures Distinct(Recorded(s.table, e)) && forall i :: 0 <= i < |Recorded(s.table, e)| ==> Recorded(s.table, e)[i].id < Proxies(bounds)
  {
    assert Unfold(0);
    RecordKeeps(bounds, s, e);
    TableVersion(bounds, Recorded(s.table, e), Heard(s, e), Latest(s, e), p);
    forall i | 0 <= i < |Recorded(s.table, e)| ensures Recorded(s.table, e)[i].id < Proxies(bounds) {
      assert RowOk(bounds, Heard(s, e), Latest(s, e), Recorded(s.table, e)[i]);
    }
  }

  /** Every broadcast names, for each registered proxy, the newest version it announced. */
  lemma PublishesNewest(bounds: seq<real>, run: seq<Event>, s: State, e: Event, p: nat)
    requires Leads(bounds, Init, run, s) && Legal(bounds, s, e) && Handle(s.table, e).Committed?
    ensures VersionFor(Next(s, e).published, p) == if p in Latest(s, e) then Latest(s, e)[p] else VERSION_NONE
  {
    CoveredNone(bounds, Proxies(bounds));
    RunKeeps(bounds, Init, run, s);
    PublishedIs(bounds, s, e, p);
  }

  /** An event registers at most its own proxy, and a commit forgets none. */
  lemma NextRegistered(s: State, e: Event, q: nat)
    ensures Registered(Next(s, e).table, q) <==> Registered(s.table, q) || (e.DataChanged? && e.pid == q)
  {
    RecordedRegisters(s.table, e, q);
    ClearedRegisters(Recorded(s.table, e), q);
  }

  lemma RecordedRegisters(table: seq<Entry>, e: Event, q: nat)
    ensures Registered(Recorded(table, e), q) <==> Registered(table, q) || (e.DataChanged? && e.pid == q)
  {
    var after, i := Recorded(table, e), Find(table, q);
    if i < |table| || (e.DataChanged? && e.pid == q) { FindIs(after, q, i); } else { FindIs(after, q, |after|); }
  }

  lemma ClearedRegisters(table: seq<Entry>, q: nat)
    ensures Registered(Cleared(table), q) <==> Registered(table, q)
  {
    FindIs(Cleared(table), q, Find(table, q));
  }

  /** A frame start throws away the reports before it: with more than one proxy, the first
      event after it never makes the application commit, whoever had reported before. */
  lemma FrameStartForgets(bounds: seq<real>, run: seq<Event>, s: State, e: Event)
    requires Tiling(bounds) && Leads(bounds, Init, run, s) && Proxies(bounds) > 1
    requires Legal(bounds, Next(s, StartFrame), e) && e != StartFrame
    ensures Handle(Next(s, StartFrame).table, e).Waiting?
  {
    CoveredNone(bounds, Proxies(bounds));
    RunKeeps(bounds, Init, run, s);
    StepKeeps(bounds, s, StartFrame);
    FirstWaits(bounds, Next(s, StartFrame), e);
  }

  lemma FirstWaits(bounds: seq<real>, t: State, e: Event)
    requires Tiling(bounds) && Inv(bounds, t) && t.reported == {} && Proxies(bounds) > 1
    requires Legal(bounds, t, e) && e != StartFrame
    ensures Handle(t.table, e).Waiting?
  {
    RecordKeeps(bounds, t, e);
    CoveredAll(bounds, Heard(t, e), Proxies(bounds));
    var other := if e.pid == 0 then 1 else 0;
    assert other !in Heard(t, e);
  }
}
