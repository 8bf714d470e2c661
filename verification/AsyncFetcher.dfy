/** The eqAsync texture protocol (examples/eqAsync/asyncFetcher.cpp, eqAsync.cpp): a fetcher
    thread generates textures and deletes those the pipe has returned, a pipe thread shows
    the newest one. They share two FIFO queues. One action is one queue or object manager
    operation of one thread; a run is any interleaving of actions. */
module AsyncFetcher {
  import opened Sequences
  import opened Hiding

  datatype Fetcher = NotStarted | Starting | Generating | Uploaded | Cleaning | Finished

  datatype Pipe = Idle | AwaitingFetcher | Drawing | Swapping | Exiting | Joined

  /** Texture keys are 1, 2, ...; key 0 is the empty TextureId in the out-queue and the
      exit request in the in-queue. */
  datatype State = State(
    fetcher: Fetcher,
    pipe: Pipe,
    generated: nat,        // the counter i of AsyncFetcher::run
    running: bool,
    outQueue: seq<nat>,    // fetcher to pipe
    inQueue: seq<nat>,     // pipe to fetcher
    held: nat,             // the key in Pipe::_txId
    oldKey: nat,           // the local variable of Pipe::frameStart
    shown: seq<nat>,       // keys in the order in which the pipe took them
    live: seq<nat>,        // textures in the object manager
    deleted: seq<nat>,     // deleted one by one
    purged: seq<nat>       // deleted together by deleteAll
  )

  const Init := State(NotStarted, Idle, 0, true, [], [], 0, 0, [], [], [], [])

  datatype Action =
    | StartFetcher | PopReady | TakeTexture | ReturnOld | RequestExit | Join      // pipe
    | Ready(ok: bool) | Generate | Push | Clean | NextRound                        // fetcher

  predicate Enabled(s: State, a: Action) {
    match a
    case StartFetcher => s.pipe == Idle
    case Ready(_) => s.fetcher == Starting
    case PopReady => s.pipe == AwaitingFetcher && s.outQueue != []
    case Generate => s.fetcher == Generating
    case Push => s.fetcher == Uploaded
    case Clean => s.fetcher == Cleaning && s.inQueue != []
    case NextRound => s.fetcher == Cleaning && s.inQueue == []
    case TakeTexture => s.pipe == Drawing && s.outQueue != []
    case ReturnOld => s.pipe == Swapping
    case RequestExit => s.pipe == Drawing
    case Join => s.pipe == Exiting && s.fetcher == Finished
  }

  function Remove(s: seq<nat>, k: nat): seq<nat> {
    if s == [] then [] else if s[0] == k then s[1..] else [s[0]] + Remove(s[1..], k)
  }

  function Do(s: State, a: Action): State
    requires Enabled(s, a)
  {
    match a
    case StartFetcher => s.(pipe := AwaitingFetcher, fetcher := Starting)
    case Ready(ok) => s.(outQueue := s.outQueue + [0], fetcher := if ok then Generating else Finished)
    case PopReady => s.(outQueue := s.outQueue[1..], pipe := Drawing)
    case Generate =>
      var i := s.generated + 1;
      s.(generated := i, live := s.live + [i], fetcher := Uploaded)
    case Push => s.(outQueue := s.outQueue + [s.generated], fetcher := Cleaning)
    case Clean =>
      var k, rest := s.inQueue[0], s.inQueue[1..];
      if k != 0 then s.(inQueue := rest, deleted := s.deleted + [k], live := Remove(s.live, k))
      else s.(inQueue := rest, running := false)
    case NextRound =>
      if s.running then s.(fetcher := Generating)
      else s.(fetcher := Finished, purged := s.live, live := [])
    case TakeTexture =>
      var k := s.outQueue[0];
      s.(oldKey := s.held, held := k, outQueue := s.outQueue[1..], shown := s.shown + [k], pipe := Swapping)
    case ReturnOld =>
      s.(inQueue := if s.oldKey != 0 then s.inQueue + [s.oldKey] else s.inQueue, oldKey := 0, pipe := Drawing)
    case RequestExit => s.(inQueue := s.inQueue + [0], pipe := Exiting)
    case Join => s.(pipe := Joined)
  }

  // ---- The invariant ----------------------------------------------------------------------

  /** The keys 1 .. n. */
  function UpTo(n: nat): (r: seq<nat>)
    ensures |r| == n && forall i :: 0 <= i < n ==> r[i] == i + 1
  {
    seq(n, i => i + 1)
  }

  function Key(k: nat): seq<nat> { if k == 0 then [] else [k] }

  /** The real keys on their way to the pipe: the first entry is empty until it is popped. */
  predicate ReadySent(s: State) { s.fetcher != NotStarted && s.fetcher != Starting }

  predicate ReadyPending(s: State) { ReadySent(s) && (s.pipe == Idle || s.pipe == AwaitingFetcher) }

  function OutKeys(s: State): seq<nat> {
    if ReadyPending(s) && s.outQueue != [] then s.outQueue[1..] else s.outQueue
  }

  predicate ExitPending(s: State) { (s.pipe == Exiting || s.pipe == Joined) && s.running }

  function InKeys(s: State): seq<nat> {
    if ExitPending(s) && s.inQueue != [] then s.inQueue[..|s.inQueue| - 1] else s.inQueue
  }

  /** Every key generated so far, in order: deleted, being returned, just replaced, held,
      queued for the pipe, about to be queued. */
  function AllKeys(s: State): seq<nat> { Taken(s) + ToCome(s) }

  function Taken(s: State): seq<nat> { Returned(s) + Key(s.oldKey) + Key(s.held) }

  function Returned(s: State): seq<nat> { s.deleted + InKeys(s) }

  function ToCome(s: State): seq<nat> {
    OutKeys(s) + (if s.fetcher == Uploaded then [s.generated] else [])
  }

  ghost predicate Inv(s: State) { Control(s) && Ordered(s) && Stocked(s) }

  ghost predicate Ordered(s: State) { forall key {:trigger Unfold(key)} :: Unfold(key) ==> Order(s) }

  ghost predicate Stocked(s: State) { forall key {:trigger Unfold(key)} :: Unfold(key) ==> Stock(s) }

  /** Which states of the two threads go together. */
  ghost predicate Control(s: State) {
    && (s.pipe == Idle <==> s.fetcher == NotStarted)
    && (ReadyPending(s) ==> s.outQueue != [] && s.outQueue[0] == 0)
    && (ExitPending(s) ==> s.inQueue != [] && s.inQueue[|s.inQueue| - 1] == 0)
    && (!ReadySent(s) ==> s.generated == 0 && s.pipe in {Idle, AwaitingFetcher})
    && (!s.running ==> s.pipe in {Exiting, Joined} && s.inQueue == [])
    && (s.oldKey != 0 ==> s.pipe == Swapping)
    && (s.pipe in {Idle, AwaitingFetcher} ==> s.held == 0)
    && (s.pipe == Joined ==> s.fetcher == Finished)
  }

  /** Where the keys are. */
  ghost predicate Order(s: State) {
    && AllKeys(s) == UpTo(s.generated)
    && s.held == |s.shown| && s.shown == UpTo(|s.shown|)
    && |Taken(s)| == s.held
  }

  /** What the object manager holds: everything generated and not yet deleted. */
  ghost predicate Stock(s: State) {
    && |s.deleted| <= s.generated
    && (if s.fetcher == Finished && !s.running
        then s.live == [] && s.purged == UpTo(s.generated)[|s.deleted|..]
        else s.purged == [] && s.live == UpTo(s.generated)[|s.deleted|..])
    && (s.fetcher == Finished && s.running ==> s.generated == 0)
  }

  lemma InitInv()
    ensures Inv(Init)
  {
    assert Unfold(0);
  }

  // ---- Steps that move keys, and steps that do not ------------------------------------------

  lemma SameKeys(s: State, t: State)
    requires t.deleted == s.deleted && t.oldKey == s.oldKey && t.held == s.held && t.generated == s.generated
    requires InKeys(t) == InKeys(s) && OutKeys(t) == OutKeys(s) && (t.fetcher == Uploaded <==> s.fetcher == Uploaded)
    ensures AllKeys(t) == AllKeys(s) && Taken(t) == Taken(s)
  {
  }

  lemma Reordered(s: State, t: State)
    requires Ordered(s) && AllKeys(t) == AllKeys(s) && |Taken(t)| == |Taken(s)|
    requires t.generated == s.generated && t.held == s.held && t.shown == s.shown
    ensures Ordered(t)
  {
    assert Unfold(0);
  }

  lemma Restocked(s: State, t: State)
    requires Stocked(s) && t.deleted == s.deleted && t.generated == s.generated && t.live == s.live && t.purged == s.purged
    requires t.fetcher == Finished && !t.running <==> s.fetcher == Finished && !s.running
    requires t.fetcher == Finished && t.running ==> t.generated == 0
    ensures Stocked(t)
  {
    assert Unfold(0);
  }

  /** A fetcher that stopped because it had no window has generated nothing. */
  lemma NoneFailed(s: State)
    requires Stocked(s)
    ensures s.fetcher == Finished && s.running ==> s.generated == 0
  {
    assert Unfold(0);
  }

  lemma StartFetcherKeeps(s: State)
    requires Inv(s) && Enabled(s, StartFetcher)
    ensures Inv(Do(s, StartFetcher))
  {
    var t := Do(s, StartFetcher);
    SameKeys(s, t);
    Reordered(s, t);
    Restocked(s, t);
  }

  lemma PopReadyKeeps(s: State)
    requires Inv(s) && Enabled(s, PopReady)
    ensures Inv(Do(s, PopReady))
  {
    var t := Do(s, PopReady);
    NoneWaiting(s);
    NoneFailed(s);
    SameKeys(s, t);
    Reordered(s, t);
    Restocked(s, t);
  }

  /** Before the fetcher is ready there is nothing in the out-queue. */
  lemma NoneWaiting(s: State)
    requires Inv(s)
    ensures !ReadySent(s) ==> s.outQueue == []
  {
    assert Unfold(0);
  }

  /** The pipe takes the next key in order. */
  lemma TakenKey(s: State, k: nat)
    requires Inv(s) && Enabled(s, TakeTexture) && k == s.outQueue[0]
    ensures k == s.held + 1
  {
    assert Unfold(0);
    assert OutKeys(s)[0] == k;
    assert ToCome(s)[0] == k;
    assert AllKeys(s)[|Taken(s)|] == ToCome(s)[0];
  }

  lemma TakeMoves(s: State, k: nat)
    requires Control(s) && Enabled(s, TakeTexture) && k == s.outQueue[0] && k != 0
    ensures AllKeys(Do(s, TakeTexture)) == AllKeys(s) && |Taken(Do(s, TakeTexture))| == |Taken(s)| + 1
  {
    var t := Do(s, TakeTexture);
    TakeOut(s, t, k);
    TakeIn(s, t, k);
    Associate(Taken(s), [k], ToCome(t));
  }

  lemma TakeOut(s: State, t: State, k: nat)
    requires Control(s) && Enabled(s, TakeTexture) && k == s.outQueue[0] && t == Do(s, TakeTexture)
    ensures ToCome(s) == [k] + ToCome(t)
  {
    assert s.outQueue == [k] + t.outQueue;
    Associate([k], t.outQueue, if s.fetcher == Uploaded then [s.generated] else []);
  }

  lemma TakeIn(s: State, t: State, k: nat)
    requires Control(s) && Enabled(s, TakeTexture) && k == s.outQueue[0] && k != 0 && t == Do(s, TakeTexture)
    ensures Taken(t) == Taken(s) + [k]
  {
  }

  lemma TakeTextureKeeps(s: State)
    requires Inv(s) && Enabled(s, TakeTexture)
    ensures Inv(Do(s, TakeTexture))
  {
    var t, k := Do(s, TakeTexture), s.outQueue[0];
    TakenKey(s, k);
    TakeMoves(s, k);
    TakeOrdered(s, t, k);
    NoneFailed(s);
    Restocked(s, t);
  }

  lemma TakeOrdered(s: State, t: State, k: nat)
    requires Ordered(s) && AllKeys(t) == AllKeys(s) && |Taken(t)| == |Taken(s)| + 1 && t.generated == s.generated
    requires k == s.held + 1 && t.held == k && t.shown == s.shown + [k]
    ensures Ordered(t)
  {
    assert Unfold(0);
    UpToNext(s.held, 0, k);
  }

  lemma ReturnOldKeeps(s: State)
    requires Inv(s) && Enabled(s, ReturnOld)
    ensures Inv(Do(s, ReturnOld))
  {
    var t := Do(s, ReturnOld);
    ReturnMoves(s, t);
    Reordered(s, t);
    NoneFailed(s);
    Restocked(s, t);
  }

  lemma ReturnMoves(s: State, t: State)
    requires Control(s) && Enabled(s, ReturnOld) && t == Do(s, ReturnOld)
    ensures AllKeys(t) == AllKeys(s) && Taken(t) == Taken(s)
  {
    assert InKeys(t) == InKeys(s) + Key(s.oldKey);
    Associate(s.deleted, InKeys(s), Key(s.oldKey));
    assert Returned(t) == Returned(s) + Key(s.oldKey);
    assert Returned(t) + [] == Returned(t);
  }

  lemma RequestExitKeeps(s: State)
    requires Inv(s) && Enabled(s, RequestExit)
    ensures Inv(Do(s, RequestExit))
  {
    var t := Do(s, RequestExit);
    assert InKeys(t) == InKeys(s);
    NoneFailed(s);
    SameKeys(s, t);
    Reordered(s, t);
    Restocked(s, t);
  }

  lemma JoinKeeps(s: State)
    requires Inv(s) && Enabled(s, Join)
    ensures Inv(Do(s, Join))
  {
    var t := Do(s, Join);
    NoneFailed(s);
    SameKeys(s, t);
    Reordered(s, t);
    Restocked(s, t);
  }

  lemma UpToNext(n: nat, d: nat, next: nat)
    requires d <= n && next == n + 1
    ensures UpTo(next) == UpTo(n) + [next]
    ensures UpTo(next)[d..] == UpTo(n)[d..] + [next]
  {
  }

  lemma GenerateAdds(s: State, i: nat)
    requires Enabled(s, Generate) && i == s.generated + 1
    ensures AllKeys(Do(s, Generate)) == AllKeys(s) + [i]
    ensures Taken(Do(s, Generate)) == Taken(s)
  {
    var t := Do(s, Generate);
    assert ToCome(t) == ToCome(s) + [i];
    Associate(Taken(s), ToCome(s), [i]);
  }

  lemma GenerateKeeps(s: State)
    requires Inv(s) && Enabled(s, Generate)
    ensures Inv(Do(s, Generate))
  {
    var t := Do(s, Generate);
    GenerateAdds(s, t.generated);
    GenerateOrdered(s, t, t.generated);
  }

  lemma GenerateOrdered(s: State, t: State, i: nat)
    requires Ordered(s) && Stocked(s) && i == s.generated + 1 && t.generated == i
    requires AllKeys(t) == AllKeys(s) + [i] && Taken(t) == Taken(s) && t.held == s.held && t.shown == s.shown
    requires t.deleted == s.deleted && t.live == s.live + [i] && t.purged == s.purged
    requires s.fetcher == Generating && t.fetcher == Uploaded
    ensures Ordered(t) && Stocked(t)
  {
    assert Unfold(0);
    UpToNext(s.generated, |s.deleted|, i);
  }

  lemma PushKeeps(s: State)
    requires Inv(s) && Enabled(s, Push)
    ensures Inv(Do(s, Push))
  {
    var t := Do(s, Push);
    PushMoves(s, t);
    Reordered(s, t);
    Restocked(s, t);
  }

  lemma PushMoves(s: State, t: State)
    requires Control(s) && Enabled(s, Push) && t == Do(s, Push)
    ensures AllKeys(t) == AllKeys(s) && Taken(t) == Taken(s)
  {
    assert OutKeys(t) == OutKeys(s) + [s.generated];
    assert ToCome(t) == ToCome(s);
  }

  lemma ReturnedKey(s: State)
    requires Inv(s) && InKeys(s) != []
    ensures InKeys(s)[0] == |s.deleted| + 1 <= s.generated
  {
    assert Unfold(0);
    var d := |s.deleted|;
    assert Returned(s)[d] == InKeys(s)[0];
    assert AllKeys(s)[d] == Returned(s)[d];
  }

  /** The key that comes back next is the oldest texture in the object manager. */
  lemma CleanKey(s: State)
    requires Inv(s) && Enabled(s, Clean) && s.inQueue[0] != 0
    ensures s.inQueue[0] == |s.deleted| + 1 <= s.generated
    ensures Remove(s.live, s.inQueue[0]) == UpTo(s.generated)[|s.deleted| + 1..]
  {
    ReturnedKey(s);
    OldestAlive(s, |s.deleted| + 1);
  }

  lemma OldestAlive(s: State, k: nat)
    requires Stocked(s) && s.fetcher == Cleaning && k == |s.deleted| + 1 <= s.generated
    ensures Remove(s.live, k) == UpTo(s.generated)[k..]
  {
    assert Unfold(0);
    var keys := UpTo(s.generated);
    assert s.live[0] == keys[k - 1];
    assert s.live[1..] == keys[k..];
  }

  /** The exit request is the last entry of the in-queue. */
  lemma CleanExit(s: State)
    requires Inv(s) && Enabled(s, Clean) && s.inQueue[0] == 0
    ensures ExitPending(s) && |s.inQueue| == 1
  {
    if InKeys(s) != [] { ReturnedKey(s); }
  }

  /** Deleting a returned key moves it, and leaves the order of all keys alone. */
  lemma CleanMoves(s: State)
    requires Enabled(s, Clean) && s.inQueue[0] != 0
    requires ExitPending(s) ==> s.inQueue[|s.inQueue| - 1] == 0
    ensures AllKeys(Do(s, Clean)) == AllKeys(s) && Taken(Do(s, Clean)) == Taken(s)
  {
    var t, k := Do(s, Clean), s.inQueue[0];
    assert InKeys(s) == [k] + InKeys(t);
    assert Returned(t) == Returned(s);
  }

  lemma CleanKeyKeeps(s: State)
    requires Inv(s) && Enabled(s, Clean) && s.inQueue[0] != 0
    ensures Inv(Do(s, Clean))
  {
    var t := Do(s, Clean);
    CleanKey(s);
    CleanMoves(s);
    Reordered(s, t);
    CleanStocked(s, t);
  }

  lemma CleanStocked(s: State, t: State)
    requires Stocked(s) && s.fetcher == t.fetcher == Cleaning && t.generated == s.generated && t.purged == s.purged
    requires |t.deleted| == |s.deleted| + 1 <= s.generated && t.live == UpTo(s.generated)[|s.deleted| + 1..]
    ensures Stocked(t)
  {
    assert Unfold(0);
  }

  lemma CleanExitKeeps(s: State)
    requires Inv(s) && Enabled(s, Clean) && s.inQueue[0] == 0
    ensures Inv(Do(s, Clean))
  {
    var t := Do(s, Clean);
    CleanExit(s);
    assert InKeys(t) == InKeys(s) == [];
    SameKeys(s, t);
    Reordered(s, t);
    Restocked(s, t);
  }

  lemma NextRoundKeeps(s: State)
    requires Inv(s) && Enabled(s, NextRound)
    ensures Inv(Do(s, NextRound))
  {
    var t := Do(s, NextRound);
    SameKeys(s, t);
    Reordered(s, t);
    if s.running { Restocked(s, t); } else { Purged(s, t); }
  }

  lemma Purged(s: State, t: State)
    requires Stocked(s) && s.fetcher == Cleaning && !t.running && t.fetcher == Finished
    requires t.deleted == s.deleted && t.generated == s.generated && t.live == [] && t.purged == s.live
    ensures Stocked(t)
  {
    assert Unfold(0);
  }

  lemma ReadyKeeps(s: State, ok: bool)
    requires Inv(s) && Enabled(s, Ready(ok))
    ensures Inv(Do(s, Ready(ok)))
  {
    var t := Do(s, Ready(ok));
    NoneWaiting(s);
    assert OutKeys(t) == OutKeys(s) == [];
    SameKeys(s, t);
    Reordered(s, t);
    Restocked(s, t);
  }

  lemma StepKeeps(s: State, a: Action)
    requires Inv(s) && Enabled(s, a)
    ensures Inv(Do(s, a))
  {
    match a
    case StartFetcher => StartFetcherKeeps(s);
    case Ready(ok) => ReadyKeeps(s, ok);
    case PopReady => PopReadyKeeps(s);
    case Generate => GenerateKeeps(s);
    case Push => PushKeeps(s);
    case Clean => if s.inQueue[0] != 0 { CleanKeyKeeps(s); } else { CleanExitKeeps(s); }
    case NextRound => NextRoundKeeps(s);
    case TakeTexture => TakeTextureKeeps(s);
    case ReturnOld => ReturnOldKeeps(s);
    case RequestExit => RequestExitKeeps(s);
    case Join => JoinKeeps(s);
  }

  // ---- Runs -------------------------------------------------------------------------------

  /** t is where the interleaving `run` leads from s. */
  predicate Leads(s: State, run: seq<Action>, t: State)
    decreases |run|
  {
    if run == [] then s == t else Enabled(s, run[0]) && Leads(Do(s, run[0]), run[1..], t)
  }

  lemma {:induction false} RunKeeps(s: State, run: seq<Action>, t: State)
    requires Inv(s) && Leads(s, run, t)
    ensures Inv(t)
    decreases |run|
  {
    if run != [] {
      StepKeeps(s, run[0]);
      RunKeeps(Do(s, run[0]), run[1..], t);
    }
  }

  /** In how many places key k is in the hands of the threads: already deleted one by one, in
      a queue, held, just replaced, or about to be queued. What deleteAll purges at the end
      keeps its place here; the object manager's own account is EveryTextureOnce. */
  function Places(s: State, k: nat): nat {
    multiset(s.deleted)[k] + multiset(s.inQueue)[k] + multiset(s.outQueue)[k]
    + (if s.held == k then 1 else 0) + (if s.oldKey == k then 1 else 0)
    + (if s.fetcher == Uploaded && s.generated == k then 1 else 0)
  }

  lemma {:induction false} UpToOnce(n: nat, k: nat)
    ensures multiset(UpTo(n))[k] == if 1 <= k <= n then 1 else 0
  {
    if n > 0 {
      UpToOnce(n - 1, k);
      UpToNext(n - 1, 0, n);
    }
  }

  lemma OutCount(s: State, k: nat)
    requires Inv(s) && k != 0
    ensures multiset(s.outQueue)[k] == multiset(OutKeys(s))[k]
  {
    if ReadyPending(s) {
      assert s.outQueue == [0] + OutKeys(s);
    }
  }

  lemma InCount(s: State, k: nat)
    requires Inv(s) && k != 0
    ensures multiset(s.inQueue)[k] == multiset(InKeys(s))[k]
  {
    if ExitPending(s) {
      assert s.inQueue == InKeys(s) + [0];
    }
  }

  lemma CountTaken(s: State, k: nat)
    requires k != 0
    ensures multiset(Taken(s))[k] == multiset(s.deleted)[k] + multiset(InKeys(s))[k]
      + (if s.held == k then 1 else 0) + (if s.oldKey == k then 1 else 0)
  {
  }

  lemma CountToCome(s: State, k: nat)
    ensures multiset(ToCome(s))[k] == multiset(OutKeys(s))[k]
      + (if s.fetcher == Uploaded && s.generated == k then 1 else 0)
  {
  }

  /** In every interleaving each generated texture is in exactly one place, and no other key
      is anywhere. */
  lemma EveryKeyInOnePlace(run: seq<Action>, s: State, k: nat)
    requires Leads(Init, run, s) && k != 0
    ensures Places(s, k) == if k <= s.generated then 1 else 0
  {
    assert Unfold(0);
    InitInv();
    RunKeeps(Init, run, s);
    InCount(s, k);
    OutCount(s, k);
    UpToOnce(s.generated, k);
    CountTaken(s, k);
    CountToCome(s, k);
  }

  lemma DeletedFirst(s: State)
    requires Inv(s)
    ensures |s.deleted| <= s.generated && s.deleted == UpTo(s.generated)[..|s.deleted|]
  {
    assert Unfold(0);
    assert AllKeys(s)[..|s.deleted|] == s.deleted;
  }

  lemma CountParts(keys: seq<nat>, d: nat, k: nat)
    requires d <= |keys|
    ensures multiset(keys)[k] == multiset(keys[..d])[k] + multiset(keys[d..])[k]
  {
    assert keys == keys[..d] + keys[d..];
  }

  /** The object manager's account: every generated texture is alive or was deleted, once, and
      nothing else is or was. */
  lemma EveryTextureOnce(run: seq<Action>, s: State, k: nat)
    requires Leads(Init, run, s)
    ensures multiset(s.deleted)[k] + multiset(s.live)[k] + multiset(s.purged)[k] == if 1 <= k <= s.generated then 1 else 0
  {
    assert Unfold(0);
    InitInv();
    RunKeeps(Init, run, s);
    var keys, d := UpTo(s.generated), |s.deleted|;
    DeletedFirst(s);
    UpToOnce(s.generated, k);
    CountParts(keys, d, k);
  }

  /** Textures are shown in the order of their generation, none is skipped or repeated, and
      the one shown last is held. As long as the fetcher has not read the exit request, it is
      still in the object manager. */
  lemma HeldIsAlive(run: seq<Action>, s: State)
    requires Leads(Init, run, s)
    ensures s.shown == UpTo(|s.shown|) && s.held == |s.shown|
    ensures s.held != 0 && s.running ==> s.held in s.live && s.held !in s.deleted && s.purged == []
    ensures s.pipe !in {Exiting, Joined} ==> s.running
  {
    assert Unfold(0);
    InitInv();
    RunKeeps(Init, run, s);
    if s.held != 0 && s.running {
      var d, h := |s.deleted|, s.held;
      assert d < h;
      assert UpTo(s.generated)[d..][h - 1 - d] == h;
      forall i | 0 <= i < d ensures s.deleted[i] == i + 1 {
        assert AllKeys(s)[i] == s.deleted[i];
      }
    }
  }

  /** When the pipe has joined the fetcher every texture was deleted exactly once. */
  lemma AllDeletedAtTheEnd(run: seq<Action>, s: State)
    requires Leads(Init, run, s) && s.pipe == Joined
    ensures s.live == [] && s.deleted + s.purged == UpTo(s.generated)
  {
    assert Unfold(0);
    InitInv();
    RunKeeps(Init, run, s);
    DeletedFirst(s);
    var keys, d := UpTo(s.generated), |s.deleted|;
    assert keys[..d] + keys[d..] == keys;
  }

  // ---- Progress ---------------------------------------------------------------------------

  /** How many actions are left once the pipe has asked the fetcher to exit. */
  function Remaining(s: State): nat {
    if s.pipe == Joined then 0
    else 1 + match s.fetcher
             case Finished => 0
             case Cleaning => |s.inQueue| + 1
             case Uploaded => |s.inQueue| + 2
             case _ => |s.inQueue| + 3
  }

  lemma ExitStep(s: State, a: Action)
    requires Inv(s) && s.pipe in {Exiting, Joined} && Enabled(s, a)
    ensures Do(s, a).pipe in {Exiting, Joined} && Remaining(Do(s, a)) == Remaining(s) - 1
  {
  }

  /** The one action that a fetcher which is not waiting can take. */
  function FetcherAction(s: State): Action {
    match s.fetcher
    case Starting => Ready(true)
    case Generating => Generate
    case Uploaded => Push
    case _ => if s.inQueue != [] then Clean else NextRound
  }

  /** The action that some thread can take in any state before the end. */
  function NextAction(s: State): Action {
    match s.pipe
    case Idle => StartFetcher
    case Drawing => RequestExit
    case Swapping => ReturnOld
    case _ =>
      if s.fetcher in {Starting, Generating, Uploaded, Cleaning} then FetcherAction(s)
      else if s.pipe == AwaitingFetcher then PopReady else Join
  }

  lemma NeverStuck(run: seq<Action>, s: State)
    requires Leads(Init, run, s)
    ensures s.pipe != Joined <==> Enabled(s, NextAction(s))
    ensures s.pipe == Joined ==> forall a :: !Enabled(s, a)
  {
    InitInv();
    RunKeeps(Init, run, s);
    NextEnabled(s);
    forall a | s.pipe == Joined ensures !Enabled(s, a) {
      JoinedIsEnd(s, a);
    }
  }

  lemma NextEnabled(s: State)
    requires Inv(s)
    ensures s.pipe != Joined <==> Enabled(s, NextAction(s))
  {
  }

  lemma JoinedIsEnd(s: State, a: Action)
    requires Inv(s) && s.pipe == Joined
    ensures !Enabled(s, a)
  {
  }

  /** After the exit request, whatever the interleaving, the pipe joins the fetcher after
      exactly `Remaining` actions. */
  lemma {:induction false} ExitTerminates(s: State, run: seq<Action>, t: State)
    requires Inv(s) && s.pipe in {Exiting, Joined} && Leads(s, run, t)
    ensures |run| + Remaining(t) == Remaining(s)
    ensures t.pipe == Joined <==> |run| == Remaining(s)
    decreases |run|
  {
    if run != [] {
      StepKeeps(s, run[0]);
      ExitStep(s, run[0]);
      ExitTerminates(Do(s, run[0]), run[1..], t);
    } else {
      StuckOnlyAtEnd(s);
    }
  }

  lemma StuckOnlyAtEnd(s: State)
    requires Inv(s) && s.pipe in {Exiting, Joined}
    ensures s.pipe == Joined <==> Remaining(s) == 0
  {
  }

  // ---- What the fetcher does --------------------------------------------------------------

  /** The fetcher is in its loop, or has left it because it was asked to. */
  predicate Worked(s: State) {
    s.fetcher in {Generating, Uploaded, Cleaning} || (s.fetcher == Finished && !s.running)
  }

  /** The fetcher returned before its loop. */
  predicate Failed(s: State) { s.fetcher == Finished && s.running }

  lemma {:induction false} AfterReady(s: State, run: seq<Action>, t: State)
    requires Inv(s) && ReadySent(s) && Leads(s, run, t)
    ensures Ready(true) !in run && Ready(false) !in run
    ensures Worked(t) <==> Worked(s)
    ensures Failed(t) <==> Failed(s)
    decreases |run|
  {
    if run != [] {
      StepKeeps(s, run[0]);
      AfterReady(Do(s, run[0]), run[1..], t);
      assert run == [run[0]] + run[1..];
    }
  }

  lemma {:induction false} BeforeReady(s: State, run: seq<Action>, t: State)
    requires Inv(s) && !ReadySent(s) && Leads(s, run, t)
    ensures Worked(t) <==> Ready(true) in run
    ensures Failed(t) <==> Ready(false) in run
    decreases |run|
  {
    if run != [] {
      var u := Do(s, run[0]);
      StepKeeps(s, run[0]);
      assert run == [run[0]] + run[1..];
      if ReadySent(u) { AfterReady(u, run[1..], t); } else { BeforeReady(u, run[1..], t); }
    }
  }

  lemma {:induction false} ExitAsked(s: State, run: seq<Action>, t: State)
    requires Inv(s) && Leads(s, run, t)
    ensures t.pipe in {Exiting, Joined} <==> s.pipe in {Exiting, Joined} || RequestExit in run
    decreases |run|
  {
    if run != [] {
      StepKeeps(s, run[0]);
      ExitAsked(Do(s, run[0]), run[1..], t);
      assert run == [run[0]] + run[1..];
    }
  }

  /** A fetcher that got its window stays in its loop until it is asked to exit, and then leaves it
      only after reading the request; a fetcher without a window generates nothing, ever. */
  lemma WindowDecides(run: seq<Action>, s: State)
    requires Leads(Init, run, s)
    ensures Ready(true) in run && RequestExit !in run ==> s.fetcher in {Generating, Uploaded, Cleaning}
    ensures Ready(true) in run <==> s.fetcher in {Generating, Uploaded, Cleaning} || (s.fetcher == Finished && !s.running)
    ensures Ready(false) in run <==> s.fetcher == Finished && s.running
    ensures Ready(false) in run ==> s.generated == 0 && s.shown == [] && s.live == []
  {
    InitInv();
    BeforeReady(Init, run, s);
    ExitAsked(Init, run, s);
    RunKeeps(Init, run, s);
    if Failed(s) { FailedEmpty(s); }
  }

  lemma FailedEmpty(s: State)
    requires Inv(s) && Failed(s)
    ensures s.generated == 0 && s.shown == [] && s.live == []
  {
    assert Unfold(0);
    assert |Taken(s)| <= |AllKeys(s)| == 0;
  }

  /** Actions of the fetcher's loop. */
  predicate Looping(a: Action) { a in {Generate, Push, Clean, NextRound} }

  /** While the pipe draws, the fetcher's own steps lead to the next texture, which the pipe then
      shows: nothing else is needed, and at most one round of the loop. */
  lemma NextIsShown(run: seq<Action>, s: State) returns (more: seq<Action>, t: State)
    requires Leads(Init, run, s) && Ready(true) in run && RequestExit !in run && s.pipe == Drawing
    ensures Leads(s, more + [TakeTexture], t) && (forall a :: a in more ==> Looping(a)) && |more| <= |s.inQueue| + 3
    ensures t.held == s.held + 1 && t.shown == s.shown + [s.held + 1]
  {
    WindowDecides(run, s);
    InitInv();
    RunKeeps(Init, run, s);
    more, t := NextTaken(s);
  }

  lemma {:induction false} NextTaken(s: State) returns (more: seq<Action>, t: State)
    requires Inv(s) && s.fetcher in {Generating, Uploaded, Cleaning} && s.pipe == Drawing
    ensures Leads(s, more + [TakeTexture], t) && (forall a :: a in more ==> Looping(a)) && |more| <= RoundLeft(s)
    ensures t.held == s.held + 1 && t.shown == s.shown + [s.held + 1]
    decreases RoundLeft(s)
  {
    if s.outQueue != [] {
      more, t := [], Do(s, TakeTexture);
      TakenKey(s, s.outQueue[0]);
      assert [TakeTexture][1..] == [];
    } else {
      var a := FetcherAction(s);
      StepKeeps(s, a);
      var rest;
      rest, t := NextTaken(Do(s, a));
      more := [a] + rest;
      assert (more + [TakeTexture])[1..] == rest + [TakeTexture];
    }
  }

  /** How many steps the fetcher needs at most to queue a texture, if none is queued. */
  function RoundLeft(s: State): nat {
    if s.outQueue != [] then 0
    else match s.fetcher
         case Uploaded => 1
         case Generating => 2
         case _ => |s.inQueue| + 3
  }
}
