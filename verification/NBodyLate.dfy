/** A run of the n-body simulation in which syncMemory reads outside its vector: a node maps before
    the application knows of the other one (examples/eqNBody/channel.cpp:74-97). */
module NBodyLate {
  import opened NBodyFrameData
  import opened NBodyBarrier
  import opened NBodySlices
  import opened NBodyMemory
  import opened NBodyRuns

  const First := DataChanged(0, 0.0, 0.5)
  const Second := DataChanged(1, 0.5, 1.0)

  /** What matters of a state with two nodes: the table, the broadcasts, the queues and how many
      commits there are. */
  predicate Shape(j: Joint, table: seq<Entry>, sent: seq<seq<Entry>>, queue: seq<Event>, other: seq<Event>, commits: nat, others: nat) {
    && |j.nodes| == 2 && j.app.table == table && j.sent == sent
    && NodeAt(j, 0).queue == queue && NodeAt(j, 1).queue == other
    && |Log(j.commits, 0)| == commits && |Log(j.commits, 1)| == others
  }

  function Row(p: nat, length: real): Entry { Entry(p, VERSION_NONE, length) }

  lemma {:induction false} HalvesProper(c: Setup)
    requires c.bounds == [0.0, 0.5, 1.0]
    ensures Proper(c) && Proxies(c.bounds) == 2
  {
    var n := (4 * c.numBodies) as real;
    assert Mark(c.bounds, c.numBodies, 0) == 0.0;
    assert Mark(c.bounds, c.numBodies, 1) == (2 * c.numBodies) as real;
    assert Mark(c.bounds, c.numBodies, 2) == n;
  }

  lemma {:induction false} RegisterBoth(c: Setup, start: Joint, j: Joint)
    requires c.bounds == [0.0, 0.5, 1.0] && Starts(c, start) && j == Do(c, Do(c, start, Register(0)), Register(1))
    ensures LeadsTo(c, start, [Register(0), Register(1)], j)
    ensures Shape(j, [], [], [First], [Second], 1, 1)
    ensures NodeAt(j, 0).seen == 0 && |NodeAt(j, 0).replica.proxies| == 1 && NodeAt(j, 0).mapping == Unmapped
  {
  }

  lemma {:induction false} FirstFrame(c: Setup, j: Joint, k: Joint)
    requires c.bounds == [0.0, 0.5, 1.0] && Shape(j, [], [], [First], [Second], 1, 1)
    requires NodeAt(j, 0).seen == 0 && |NodeAt(j, 0).replica.proxies| == 1 && NodeAt(j, 0).mapping == Unmapped
    requires k == Do(c, Do(c, Do(c, j, Deliver(0)), Frame), See(0, 1))
    ensures LeadsTo(c, j, [Deliver(0), Frame, See(0, 1)], k)
    ensures Shape(k, [Row(0, 0.0)], [[Row(0, 0.5)]], [], [Second], 1, 1)
    ensures NodeAt(k, 0).view == [Row(0, 0.5)] && NodeAt(k, 0).seen == 1 && NodeAt(k, 0).replica == NodeAt(j, 0).replica
    ensures NodeAt(k, 0).mapping == Unmapped
  {
    var a := Do(c, j, Deliver(0));
    assert Shape(a, [Row(0, 0.5)], [], [], [Second], 1, 1);
    var b := Do(c, a, Frame);
    assert Shape(b, [Row(0, 0.0)], [[Row(0, 0.5)]], [], [Second], 1, 1);
  }

  lemma {:induction false} MapsAlone(c: Setup, j: Joint, at: Found, k: Joint)
    requires c.bounds == [0.0, 0.5, 1.0] && Shape(j, [Row(0, 0.0)], [[Row(0, 0.5)]], [], [Second], 1, 1) && at == map[0 := 1, 1 := 1]
    requires NodeAt(j, 0).view == [Row(0, 0.5)] && |NodeAt(j, 0).replica.proxies| == 1 && NodeAt(j, 0).mapping == Unmapped
    requires k == Do(c, j, Map(0, at))
    ensures LeadsTo(c, j, [Map(0, at)], k)
    ensures Shape(k, [Row(0, 0.0)], [[Row(0, 0.5)]], [], [Second], 1, 1)
    ensures NodeAt(k, 0) == NodeAt(j, 0).(mapping := Mapped([Row(0, 0.5)], at))
  {
    assert MapTo(NodeAt(j, 0).replica, 0, NodeAt(j, 0).view, j.commits, at, 0) == NodeAt(j, 0).replica;
  }

  lemma {:induction false} SecondFrame(c: Setup, j: Joint, k: Joint)
    requires c.bounds == [0.0, 0.5, 1.0] && Shape(j, [Row(0, 0.0)], [[Row(0, 0.5)]], [], [Second], 1, 1) && NodeAt(j, 0).seen <= 1
    requires k == Do(c, Do(c, Do(c, j, Deliver(1)), Frame), See(0, 2))
    ensures LeadsTo(c, j, [Deliver(1), Frame, See(0, 2)], k) && |k.nodes| == 2
    ensures NodeAt(k, 0) == NodeAt(j, 0).(view := [Row(0, 0.0), Row(1, 0.5)], seen := 2)
  {
    var a := Do(c, j, Deliver(1));
    assert Sum([Row(0, 0.0), Row(1, 0.5)]) == 0.5 by {
      assert [Row(0, 0.0), Row(1, 0.5)][..1] == [Row(0, 0.0)] && [Row(0, 0.0)][..0] == [];
    }
    assert Shape(a, [Row(0, 0.0), Row(1, 0.5)], [[Row(0, 0.5)]], [], [], 1, 1);
    var b := Do(c, a, Frame);
    assert b.sent == [[Row(0, 0.5)], [Row(0, 0.0), Row(1, 0.5)]];
  }

  lemma {:induction false} LeadsJoin(c: Setup, j: Joint, first: seq<Action>, k: Joint, second: seq<Action>, l: Joint)
    requires LeadsTo(c, j, first, k) && LeadsTo(c, k, second, l)
    ensures LeadsTo(c, j, first + second, l)
    decreases |first|
  {
    if first == [] {
      assert first + second == second;
    } else {
      var a, rest := first[0], first[1..];
      LeadsJoin(c, Do(c, j, a), rest, k, second, l);
      Regroup(first, a, rest, second);
      LeadsStep(c, j, a, rest + second, l);
    }
  }

  lemma {:induction false} Regroup(first: seq<Action>, a: Action, rest: seq<Action>, second: seq<Action>)
    requires first != [] && a == first[0] && rest == first[1..]
    ensures first + second == [a] + (rest + second)
  {
  }

  lemma {:induction false} LeadsStep(c: Setup, j: Joint, a: Action, run: seq<Action>, k: Joint)
    requires Enabled(c, j, a) && LeadsTo(c, Do(c, j, a), run, k)
    ensures LeadsTo(c, j, [a] + run, k)
  {
    assert ([a] + run)[1..] == run;
  }

  /** Two nodes, any number of bodies: both register; the application hears of the first and
      starts a frame, in which the first node maps; the registration of the second arrives in time
      for the next frame. The first node then has a table of two rows and one proxy. */
  lemma {:induction false} LateProxyOverruns(c: Setup, start: Joint) returns (run: seq<Action>, j: Joint)
    requires c.bounds == [0.0, 0.5, 1.0] && Starts(c, start)
    ensures Proper(c) && LeadsTo(c, start, run, j) && Enabled(c, j, Synchronise(0))
    ensures |NodeAt(j, 0).view| == 2 && |NodeAt(j, 0).replica.proxies| == 1
  {
    var at: Found := map[0 := 1, 1 := 1];
    HalvesProper(c);
    var a := Do(c, Do(c, start, Register(0)), Register(1));
    RegisterBoth(c, start, a);
    var b := Do(c, Do(c, Do(c, a, Deliver(0)), Frame), See(0, 1));
    FirstFrame(c, a, b);
    var d := Do(c, b, Map(0, at));
    MapsAlone(c, b, at, d);
    j := Do(c, Do(c, Do(c, d, Deliver(1)), Frame), See(0, 2));
    SecondFrame(c, d, j);
    LeadsJoin(c, start, [Register(0), Register(1)], a, [Deliver(0), Frame, See(0, 1)], b);
    LeadsJoin(c, start, [Register(0), Register(1)] + [Deliver(0), Frame, See(0, 1)], b, [Map(0, at)], d);
    run := [Register(0), Register(1)] + [Deliver(0), Frame, See(0, 1)] + [Map(0, at)];
    LeadsJoin(c, start, run, d, [Deliver(1), Frame, See(0, 2)], j);
    run := run + [Deliver(1), Frame, See(0, 2)];
  }
}
