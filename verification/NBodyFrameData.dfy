/** The proxy table of the n-body simulation (examples/eqNBody/frameData.cpp): one entry for
    every GPU that owns a part of the bodies. */
module NBodyFrameData {

  const MAX_NGPUS := 32
  const VERSION_NONE: nat := 0

  datatype ObjectVersion = ObjectVersion(identifier: nat, version: nat)

  /** A table row: who, which version of its data, and how much of [0,1] it reported since the
      last commit. */
  datatype Entry = Entry(id: nat, version: nat, length: real)

  // ---- The table as a value ---------------------------------------------------------------

  function Zip(ids: seq<ObjectVersion>, lengths: seq<real>): (r: seq<Entry>)
    requires |ids| == |lengths|
    ensures |r| == |ids|
    ensures forall i :: 0 <= i < |r| ==> r[i] == Entry(ids[i].identifier, ids[i].version, lengths[i])
  {
    seq(|ids|, i requires 0 <= i < |ids| => Entry(ids[i].identifier, ids[i].version, lengths[i]))
  }

  /** The first row of a proxy, or the table's length. */
  function Find(table: seq<Entry>, id: nat): (i: nat)
    ensures i <= |table| && (i < |table| ==> table[i].id == id)
    ensures forall j :: 0 <= j < i ==> table[j].id != id
  {
    if table == [] then 0 else if table[0].id == id then 0 else 1 + Find(table[1..], id)
  }

  predicate Registered(table: seq<Entry>, id: nat) { Find(table, id) < |table| }

  function Updated(table: seq<Entry>, id: nat, version: nat, length: real): seq<Entry> {
    var i := Find(table, id);
    if i < |table| then table[i := Entry(id, version, length)] else table
  }

  function Cleared(table: seq<Entry>): (r: seq<Entry>)
    ensures |r| == |table|
    ensures forall i :: 0 <= i < |r| ==> r[i] == table[i].(length := 0.0)
  {
    seq(|table|, i requires 0 <= i < |table| => table[i].(length := 0.0))
  }

  function Sum(table: seq<Entry>): real {
    if table == [] then 0.0 else Sum(table[..|table| - 1]) + table[|table| - 1].length
  }

  function VersionFor(table: seq<Entry>, id: nat): nat {
    var i := Find(table, id);
    if i < |table| then table[i].version else 0
  }

  lemma FindIs(table: seq<Entry>, id: nat, i: nat)
    requires i <= |table| && (i < |table| ==> table[i].id == id)
    requires forall j :: 0 <= j < i ==> table[j].id != id
    ensures Find(table, id) == i
  {
    var k := Find(table, id);
  }

  lemma {:induction false} SumChange(table: seq<Entry>, i: nat, e: Entry)
    requires i < |table|
    ensures Sum(table[i := e]) == Sum(table) - table[i].length + e.length
  {
    var n := |table| - 1;
    if i < n {
      SumChange(table[..n], i, e);
      assert table[i := e][..n] == table[..n][i := e];
    } else {
      assert table[i := e][..n] == table[..n];
    }
  }

  lemma {:induction false} SumCleared(table: seq<Entry>)
    ensures Sum(Cleared(table)) == 0.0
  {
    if table != [] {
      var n := |table| - 1;
      SumCleared(table[..n]);
      assert Cleared(table)[..n] == Cleared(table[..n]);
    }
  }

  // ---- The object -------------------------------------------------------------------------

  class FrameData {
    var numDataProxies: nat
    const dataProxyID: array<ObjectVersion>
    const dataRanges: array<real>

    ghost predicate Valid()
      reads this
    {
      dataProxyID.Length == MAX_NGPUS && dataRanges.Length == MAX_NGPUS && numDataProxies <= MAX_NGPUS
    }

    ghost function Table(): seq<Entry>
      requires Valid()
      reads this, dataProxyID, dataRanges
    {
      Zip(dataProxyID[..numDataProxies], dataRanges[..numDataProxies])
    }

    constructor ()
      ensures Valid() && Table() == [] && fresh(dataProxyID) && fresh(dataRanges)
    {
      numDataProxies := 0;
      dataProxyID := new ObjectVersion[MAX_NGPUS](i => ObjectVersion(0, VERSION_NONE));
      dataRanges := new real[MAX_NGPUS](i => 0.0);
    }

    method AddProxyID(pid: nat, start: real, end: real)
      requires Valid() && numDataProxies < MAX_NGPUS
      modifies this, dataProxyID, dataRanges
      ensures Valid() && Table() == old(Table()) + [Entry(pid, VERSION_NONE, end - start)]
    {
      dataProxyID[numDataProxies] := ObjectVersion(pid, VERSION_NONE);
      dataRanges[numDataProxies] := end - start;
      numDataProxies := numDataProxies + 1;
    }

    method UpdateProxyID(pid: nat, version: nat, start: real, end: real)
      requires Valid()
      modifies dataProxyID, dataRanges
      ensures Valid() && Table() == Updated(old(Table()), pid, version, end - start)
    {
      var i := 0;
      while i < numDataProxies && dataProxyID[i].identifier != pid
        invariant i <= numDataProxies
        invariant forall j :: 0 <= j < i ==> dataProxyID[j].identifier != pid
        invariant Table() == old(Table())
      {
        i := i + 1;
      }
      FindIs(Table(), pid, i);
      if i < numDataProxies {
        dataProxyID[i] := ObjectVersion(pid, version);
        dataRanges[i] := end - start;
      }
    }

    /** The table goes out to all clients as it is; then the reports are forgotten. */
    method Commit() returns (published: seq<Entry>)
      requires Valid()
      modifies dataRanges
      ensures Valid() && published == old(Table()) && Table() == Cleared(old(Table()))
    {
      published := Zip(dataProxyID[..numDataProxies], dataRanges[..numDataProxies]);
      var i := 0;
      while i < numDataProxies
        invariant i <= numDataProxies
        invariant forall j :: 0 <= j < i ==> dataRanges[j] == 0.0
      {
        dataRanges[i] := 0.0;
        i := i + 1;
      }
      assert Table() == Cleared(old(Table()));
    }

    method IsReady() returns (ready: bool)
      requires Valid()
      ensures ready <==> Sum(Table()) == 1.0
    {
      var length := 0.0;
      var i := 0;
      while i < numDataProxies
        invariant i <= numDataProxies
        invariant length == Sum(Table()[..i])
      {
        assert Table()[..i + 1][..i] == Table()[..i];
        length := length + dataRanges[i];
        i := i + 1;
      }
      assert Table()[..i] == Table();
      ready := length == 1.0;
    }

    method GetVersionForProxyID(pid: nat) returns (version: nat)
      requires Valid()
      ensures version == VersionFor(Table(), pid)
    {
      var i := 0;
      while i < numDataProxies
        invariant i <= numDataProxies
        invariant forall j :: 0 <= j < i ==> Table()[j].id != pid
      {
        if dataProxyID[i].identifier == pid {
          FindIs(Table(), pid, i);
          return dataProxyID[i].version;
        }
        i := i + 1;
      }
      FindIs(Table(), pid, i);
      version := 0;
    }
  }
}
