/** Why the theorems about grants and syncs carry their conditions: what the code does without them,
    for all clients, and runs that get there. */
module LockConditions {
  import opened Options
  import opened Bytes
  import opened BlobServer
  import opened AzureErrors
  import opened LockProtocol
  import opened LockSafety
  import DirtyRanges
  import WB = WriteBack

  function Filled(b: byte): seq<byte> { seq(512, _ => b) }

  /** A client without an ETag is granted RESERVED unchecked, whatever the blob holds. */
  lemma CreatorGrant(w: World, i: nat, c: Client, a: Action)
    requires WorldInv(w) && ClientInv(w, i, c) && a.LockReserved? && Ready(c, a)
    requires c.etag.None? && Send(w, Acquire(a.duration), i).1.err == Ok
    ensures var (w1, c1) := Act(w, i, c, a);
      && c1.pc == Idle && c1.lock == a.target && c1.lease.Some? && c1.file == c.file && w1.server.blob == w.server.blob
      && (c.trusted ==> (c1.trusted <==> c.own == w.server.etag))
      && (c1.trusted ==> WB.Agrees(c1.file, w1.server.blob))
  {
    SendWorld(w, Acquire(a.duration), i);
  }

  /** Does its cache agree with the blob, whatever other parties wrote? */
  ghost predicate CreatorSafe(i: nat, c: Client, version: nat)
    requires c.file.ps > 0
  {
    forall w: World :: WorldInv(w) && ClientInv(w, i, c) && w.server.etag == version ==> WB.Agrees(c.file, w.server.blob)
  }

  /** Exactly if the server still has the version the client created or last produced. */
  lemma CreatorSafeIff(w: World, i: nat, c: Client)
    requires WorldInv(w) && ClientInv(w, i, c) && c.pc.Idle? && c.lock <= SHARED && c.etag.None? && c.trusted
    ensures CreatorSafe(i, c, w.server.etag) <==> c.own == w.server.etag
  {
    if c.own != w.server.etag {
      var e, big := w.server.etag, Resize([], AlignUp(c.file.nData) + SECTOR);
      var w' := w.(server := w.server.(blob := big), versions := w.versions[e := big]);
      assert ClientInv(w', i, c);
      assert !WB.Agrees(c.file, w'.server.blob);
    }
  }

  /** Such a grant is reachable: after another party wrote the blob, its creator is granted RESERVED
      on a cache that disagrees with it. */
  lemma CreatorLocksBlindly() returns (states: seq<System>, acts: seq<Action>)
    ensures LockProtocol.Run(states, acts) && |acts| == 3 && Grants(states[2], states[3], 0)
    ensures !states[3].clients[0].trusted && states[3].clients[0].file.ps > 0
    ensures states[3].clients[0].lease.Some? && Live(states[3].w.server, states[3].clients[0].lease.value)
    ensures !WB.Agrees(states[3].clients[0].file, states[3].w.server.blob)
  {
    var w0 := World(Server.Server([], 0, Available, 0, 0), [[]], [OUTSIDER]);
    var c0 := Creator(512, 0);
    var put := PutPage(0, Filled(1), None);
    var w1 := Send(w0, put, OUTSIDER).0;
    var c2 := c0.(lock := SHARED);
    var w3 := Send(w1, Acquire(30), 0).0;
    var c3 := Granted(c2.(lease := Some(0)), w3, RESERVED);
    states := [System(w0, map[0 := c0]), System(w1, map[0 := c0]), System(w1, map[0 := c2]), System(w3, map[0 := c3])];
    acts := [Outside(put), LockShared(0), LockReserved(0, RESERVED, 30, false)];
    assert Fresh(c0, w0);
    assert |w1.server.blob| == 512;
    assert StepAt(states, acts, 0);
    assert StepAt(states, acts, 1) by { assert map[0 := c0][0 := c2] == map[0 := c2]; }
    assert StepAt(states, acts, 2) by { assert map[0 := c2][0 := c3] == map[0 := c3]; }
  }

  /** xLock(SHARED), a read of byte o, xLock(RESERVED): granted, over a byte that is not the blob's. */
  ghost predicate GrantedOverForeignByte(w: World, i: nat, c: Client, o: nat) {
    && Ready(c, LockShared(i))
    && var (w1, c1) := Act(w, i, c, LockShared(i));
    && Ready(c1, Read(i, o))
    && var (w2, c2) := Act(w1, i, c1, Read(i, o));
    && Ready(c2, LockReserved(i, RESERVED, 30, true))
    && var (w3, c3) := Act(w2, i, c2, LockReserved(i, RESERVED, 30, true));
    c3.pc == Idle && c3.lock == RESERVED && c3.trusted && o in c3.seen && c3.seen[o] != At(w3.server.blob, o)
  }

  /** Any trusted client with a current ETag whose cached byte differs from the blob, which is to say
      on a page it left dirty, gets that far. */
  lemma DirtyByteIsGranted(w: World, i: nat, c: Client, o: nat)
    requires WorldInv(w) && ClientInv(w, i, c) && c.pc == Idle && c.lock == NONE && c.trusted
    requires c.etag == Some(w.server.etag) && w.server.lease == Available
    requires o < c.file.nData && At(c.file.cache, o) != At(w.server.blob, o)
    ensures !WB.Clean(c.file, o) && GrantedOverForeignByte(w, i, c, o)
  {
    LeaseOnly(w, Head, i);
  }

  /** Is the grant never over a foreign byte, whatever the blob holds? */
  ghost predicate ViewSafe(i: nat, c: Client) {
    forall w: World, o: nat :: Unlocked(w, i, c) ==> !GrantedOverForeignByte(w, i, c, o)
  }

  ghost predicate Unlocked(w: World, i: nat, c: Client) {
    && WorldInv(w) && ClientInv(w, i, c) && c.pc == Idle && c.lock == NONE && c.trusted
    && c.etag == Some(w.server.etag) && w.server.lease == Available
  }

  /** Exactly if the client left no byte below EOF dirty, zeros beyond the synced size excepted. */
  lemma ViewSafeIff(w: World, i: nat, c: Client)
    requires Unlocked(w, i, c)
    ensures ViewSafe(i, c) <==> forall o: nat :: o < c.file.nData && !WB.Clean(c.file, o) ==> c.file.synced <= o && At(c.file.cache, o) == 0
  {
    WB.IsTheBlobIff(c.file, w.server.blob);
    if WB.IsTheBlob(c.file) {
      forall w': World, o: nat | Unlocked(w', i, c) ensures !GrantedOverForeignByte(w', i, c, o) {
        OwnBytesAreSeen(w', i, c, o);
      }
    } else {
      var blob: seq<byte>, o: nat :| WB.Agrees(c.file, blob) && o < c.file.nData && At(c.file.cache, o) != At(blob, o);
      var w' := w.(server := w.server.(blob := blob), versions := w.versions[w.server.etag := blob]);
      assert Unlocked(w', i, c);
      DirtyByteIsGranted(w', i, c, o);
    }
  }

  lemma OwnBytesAreSeen(w: World, i: nat, c: Client, o: nat)
    requires Unlocked(w, i, c) && WB.IsTheBlob(c.file)
    ensures !GrantedOverForeignByte(w, i, c, o)
  {
    LeaseOnly(w, Head, i);
    assert WB.Agrees(c.file, w.server.blob);
    assert o < c.file.nData ==> At(c.file.cache, o) == At(w.server.blob, o);
  }

  /** A sync given up because its first renewal was not answered changes nothing but the lease clock. */
  lemma GivenUp(w: World, i: nat, c: Client, rs: seq<DirtyRanges.Range>)
    requires WorldInv(w) && ClientInv(w, i, c) && Ready(c, SyncStart(i, true, false, rs)) && Live(w.server, c.lease.value)
    ensures var (w1, c1) := Act(w, i, c, SyncStart(i, true, false, rs));
      && c1 == c && WorldInv(w1) && ClientInv(w1, i, c) && Live(w1.server, c.lease.value)
      && w1.server.etag == w.server.etag && w1.server.blob == w.server.blob
  {
    SyncStartKeeps(w, i, c, SyncStart(i, true, false, rs));
    LeaseOnly(w, BlobServer.Renew(c.lease.value), i);
  }

  /** Unlocking under a live lease frees the blob and keeps the cache. */
  lemma Freed(w: World, i: nat, c: Client)
    requires WorldInv(w) && ClientInv(w, i, c) && Ready(c, Unlock(i, NONE, true)) && c.lease.Some? && Live(w.server, c.lease.value)
    ensures var (w1, c1) := Act(w, i, c, Unlock(i, NONE, true));
      && WorldInv(w1) && ClientInv(w1, i, c1) && c1.pc == Idle && c1.lock == NONE && w1.server.lease == Available
      && c1.file == c.file && c1.etag == c.etag && c1.trusted == c.trusted
      && w1.server.etag == w.server.etag && w1.server.blob == w.server.blob
  {
    ReleaseKeeps(w, i, c, Unlock(i, NONE, true));
    LeaseOnly(w, Release(c.lease.value), i);
  }

  /** And a transaction whose sync fails leaves such bytes behind: when the renewal at its start is not
      answered, the client unlocks and starts over. */
  lemma AbandonedWritesAreSeen(w: World, i: nat, c: Client, o: nat, rs: seq<DirtyRanges.Range>)
    requires WorldInv(w) && ClientInv(w, i, c) && Ready(c, SyncStart(i, true, false, rs)) && c.trusted
    requires c.etag == Some(w.server.etag) && Live(w.server, c.lease.value)
    requires o < c.file.nData && At(c.file.cache, o) != At(w.server.blob, o)
    ensures var (w1, c1) := Act(w, i, c, SyncStart(i, true, false, rs));
      && Ready(c1, Unlock(i, NONE, true))
      && var (w2, c2) := Act(w1, i, c1, Unlock(i, NONE, true));
      GrantedOverForeignByte(w2, i, c2, o)
  {
    GivenUp(w, i, c, rs);
    var w1 := Act(w, i, c, SyncStart(i, true, false, rs)).0;
    Freed(w1, i, c);
    var (w2, c2) := Act(w1, i, c, Unlock(i, NONE, true));
    DirtyByteIsGranted(w2, i, c2, o);
  }

  /** A truncation that took effect but whose answer was lost: the client goes on under its lease,
      with clean cached bytes that the blob no longer has. */
  lemma UnansweredTruncateDiverges(w: World, i: nat, c: Client, size: nat, o: nat)
    requires WorldInv(w) && ClientInv(w, i, c) && Ready(c, Truncate(i, size, false)) && Live(w.server, c.lease.value)
    requires size <= o < c.file.nData && WB.Clean(c.file, o) && At(c.file.cache, o) != 0
    ensures var (w', c') := Act(w, i, c, Truncate(i, size, false));
      && c'.file == c.file && c'.lock == c.lock && c'.lease == c.lease && Live(w'.server, c.lease.value)
      && !c'.trusted && At(w'.server.blob, o) == 0 != At(c'.file.cache, o)
  {}

  /** A refresh stores the new ETag before it downloads, so a client whose download fails is given
      SHARED at its next attempt, over the old bytes. */
  lemma FailedRefreshServesStale(w: World, i: nat, c: Client, o: nat)
    requires WorldInv(w) && ClientInv(w, i, c) && Ready(c, LockShared(i))
    requires c.etag.Some? && c.etag != Some(w.server.etag) && At(c.file.cache, o) != At(w.server.blob, o)
    ensures var (w1, c1) := Act(w, i, c, LockShared(i));
      && Ready(c1, FetchFails(i, true))
      && var (w2, c2) := Act(w1, i, c1, FetchFails(i, true));
      && Ready(c2, LockShared(i))
      && var (w3, c3) := Act(w2, i, c2, LockShared(i));
      c3.lock == SHARED && c3.pc == Idle && !c3.trusted && At(c3.file.cache, o) != At(w3.server.blob, o)
  {
    LeaseOnly(w, Head, i);
    LeaseOnly(Send(w, Head, i).0, Head, i);
  }

  /** A write whose lease renewal fails has stored its bytes without marking a page, so after
      unlocking the client is given SHARED over bytes that no sync will ever send. */
  lemma FailedRenewalServesUnsaved(w: World, i: nat, c: Client, at: nat, d: seq<byte>, o: nat)
    requires WorldInv(w) && ClientInv(w, i, c) && Ready(c, Write(i, at, d, true, false))
    requires c.etag == Some(w.server.etag) && at <= o < at + |d| && d[o - at] != At(w.server.blob, o) && WB.Clean(c.file, o)
    ensures var (w1, c1) := Act(w, i, c, Write(i, at, d, true, false));
      && Ready(c1, Unlock(i, NONE, true))
      && var (w2, c2) := Act(w1, i, c1, Unlock(i, NONE, true));
      && Ready(c2, LockShared(i))
      && var (w3, c3) := Act(w2, i, c2, LockShared(i));
      && c3.lock == SHARED && c3.pc == Idle && !c3.trusted
      && c3.file.ps > 0 && WB.Clean(c3.file, o) && At(c3.file.cache, o) != At(w3.server.blob, o)
  {
    LeaseOnly(w, BlobServer.Renew(c.lease.value), i);
    var w1 := Send(w, BlobServer.Renew(c.lease.value), i).0;
    LeaseOnly(w1, Release(c.lease.value), i);
    LeaseOnly(Send(w1, Release(c.lease.value), i).0, Head, i);
  }

  // ------------------------------------------------------------------ a run

  /** A run that ends in state s. */
  ghost predicate Reaches(states: seq<System>, acts: seq<Action>, s: System) {
    LockProtocol.Run(states, acts) && states[|acts|] == s
  }

  lemma Extend(states: seq<System>, acts: seq<Action>, s: System, a: Action, s': System)
    requires Reaches(states, acts, s) && Next(s, a, s')
    ensures Reaches(states + [s'], acts + [a], s')
  {
    var longer, more := states + [s'], acts + [a];
    forall i | 0 <= i < |more| ensures StepAt(longer, more, i) {
      if i < |acts| { assert StepAt(states, acts, i); }
    }
  }

  /** A step of client 0, on a system with that client alone. */
  lemma Alone(states: seq<System>, acts: seq<Action>, w: World, c: Client, a: Action, w': World, c': Client)
    returns (longer: seq<System>, more: seq<Action>)
    requires Reaches(states, acts, One(w, c)) && ByClient(a) && a.c == 0 && Ready(c, a) && Act(w, 0, c, a) == (w', c')
    ensures longer == states + [One(w', c')] && more == acts + [a] && Reaches(longer, more, One(w', c'))
  {
    assert map[0 := c][0 := c'] == map[0 := c'];
    longer, more := states + [One(w', c')], acts + [a];
    Extend(states, acts, One(w, c), a, One(w', c'));
  }

  function One(w: World, c: Client): System { System(w, map[0 := c]) }

  function Db(cache: seq<byte>, dirty: set<nat>): WB.File { WB.File(512, cache, 512, dirty, 1, 512) }

  /** A blob of ones at version 0, unleased. */
  function Start(): World { World(Server.Server(Filled(1), 0, Available, 0, 0), [Filled(1)], [OUTSIDER]) }

  /** After opening it. */
  function Opened(): Client {
    Client(Idle, NONE, None, Some(0), Db(Filled(1), {}), 0, map[], true, None, 0)
  }

  function FirstPage(): map<nat, byte> { map o: nat | 0 <= o < 512 :: At(Filled(1), o) }

  lemma ReachDownloaded() returns (states: seq<System>, acts: seq<Action>)
    ensures Reaches(states, acts, One(Start(), Absent(512).(pc := Fetching(NONE, 512, FirstPage()), etag := Some(0))))
  {
    var c0 := Absent(512);
    var c1 := c0.(pc := Fetching(NONE, 512, map[]), etag := Some(0));
    assert map[] + FirstPage() == FirstPage();
    states, acts := [One(Start(), c0)], [];
    states, acts := Alone(states, acts, Start(), c0, Open(0), Start(), c1);
    states, acts := Alone(states, acts, Start(), c1, Fetch(0, 0, 512), Start(), c1.(pc := Fetching(NONE, 512, FirstPage())));
  }

  lemma ReachOpened() returns (states: seq<System>, acts: seq<Action>)
    ensures Reaches(states, acts, One(Start(), Opened()))
  {
    states, acts := ReachDownloaded();
    var c2 := Absent(512).(pc := Fetching(NONE, 512, FirstPage()), etag := Some(0));
    assert Fetched(c2).cache == Filled(1);
    states, acts := Alone(states, acts, Start(), c2, Install(0), Start(), Opened());
  }

  /** After the lease was granted. */
  function Leasing(): World { Start().(server := Server.Server(Filled(1), 0, Leased(0, 30, 0), 1, 0)) }

  function Reserved(): Client {
    Opened().(lock := RESERVED, lease := Some(0), grant := Some(Grant(0, Db(Filled(1), {}), true, true)))
  }

  lemma ReachReserved() returns (states: seq<System>, acts: seq<Action>)
    ensures Reaches(states, acts, One(Leasing(), Reserved()))
  {
    states, acts := ReachOpened();
    var c4 := Opened().(lock := SHARED);
    states, acts := Alone(states, acts, Start(), Opened(), LockShared(0), Start(), c4);
    states, acts := Alone(states, acts, Start(), c4, LockReserved(0, RESERVED, 30, true), Leasing(), Reserved());
  }

  /** After a write of twos. */
  function Wrote(): Client { Reserved().(file := Db(Filled(2), {0})) }

  function Page(): seq<DirtyRanges.Range> { [DirtyRanges.Range(0, 512)] }

  lemma PageIsExact()
    ensures DirtyRanges.Exact(Page(), {0}, 512, 512)
  {
    forall o: nat ensures DirtyRanges.Covered(Page(), o) <==> o < 512 && o / 512 in {0} {
      if o < 512 { assert Page()[0].Has(o); }
    }
  }

  lemma ReachWrote() returns (states: seq<System>, acts: seq<Action>)
    ensures Reaches(states, acts, One(Leasing(), Wrote()))
  {
    states, acts := ReachReserved();
    assert WB.Write(Db(Filled(1), {}), 0, Filled(2)) == Db(Filled(2), {0}) by {
      SameView(Splice(Filled(1), 0, Filled(2)), Filled(2));
      assert Span(0, 1) == {0};
    }
    assert Overwrite(map[], 0, Filled(2)) == map[];
    states, acts := Alone(states, acts, Leasing(), Reserved(), Write(0, 0, Filled(2), false, true), Leasing(), Wrote());
  }

  /** After its only range was written. */
  function Written(): World {
    World(Server.Server(Filled(2), 1, Leased(0, 30, 0), 1, 0), [Filled(1), Filled(2)], [OUTSIDER, 0])
  }

  function Synced(): Client { Wrote().(pc := Putting(Page(), {0}, {1}), own := 1) }

  lemma ReachPutting() returns (states: seq<System>, acts: seq<Action>)
    ensures Reaches(states, acts, One(Leasing(), Wrote().(pc := Putting(Page(), {}, {}))))
  {
    states, acts := ReachWrote();
    PageIsExact();
    states, acts := Alone(states, acts, Leasing(), Wrote(), SyncStart(0, false, true, Page()), Leasing(),
                          Wrote().(pc := Putting(Page(), {}, {})));
  }

  lemma PutPageOfTwos()
    ensures Send(Leasing(), PutRequest(Wrote().(pc := Putting(Page(), {}, {})), 0), 0) == (Written(), Response(Ok, 0))
  {
    SameView(Splice(Filled(1), 0, Window(Filled(2), 0, 512)), Filled(2));
    var q := PutRequest(Wrote().(pc := Putting(Page(), {}, {})), 0);
    assert q == PutPage(0, Window(Filled(2), 0, 512), Some(0));
    assert Serve(Leasing().server, q) == (Written().server, Response(Ok, 0));
    assert Leasing().versions + [Filled(2)] == Written().versions && Leasing().authors + [0] == Written().authors;
  }

  lemma ReachSynced() returns (states: seq<System>, acts: seq<Action>)
    ensures Reaches(states, acts, One(Written(), Synced()))
  {
    states, acts := ReachPutting();
    PutPageOfTwos();
    var c := Wrote().(pc := Putting(Page(), {}, {}));
    assert Ready(c, SyncPut(0, 0, true));
    assert {} + {0} == {0} && {} + {1} == {1};
    states, acts := Alone(states, acts, Leasing(), c, SyncPut(0, 0, true), Written(), Synced());
  }

  /** After the lease ran out and another party wrote threes. */
  function Overwritten(): World {
    World(Server.Server(Filled(3), 2, Available, 1, 30), [Filled(1), Filled(2), Filled(3)], [OUTSIDER, 0, OUTSIDER])
  }

  lemma ReachOverwritten() returns (states: seq<System>, acts: seq<Action>)
    ensures Reaches(states, acts, One(Overwritten(), Synced()))
  {
    states, acts := ReachSynced();
    var late := Written().(server := Written().server.(now := 30));
    Extend(states, acts, One(Written(), Synced()), Tick(30), One(late, Synced()));
    states, acts := states + [One(late, Synced())], acts + [Tick(30)];
    var put := PutPage(0, Filled(3), None);
    var free := late.(server := late.server.(lease := Available));
    Extend(states, acts, One(late, Synced()), Outside(put), One(free, Synced()));
    states, acts := states + [One(free, Synced())], acts + [Outside(put)];
    SameView(Splice(Filled(2), 0, Filled(3)), Filled(3));
    Extend(states, acts, One(free, Synced()), Outside(put), One(Overwritten(), Synced()));
    states, acts := states + [One(Overwritten(), Synced())], acts + [Outside(put)];
  }

  /** A run in which xSync returns OK to a trusted client although the lease ran out after its last
      write and another party has overwritten it: the last clause of NoLostUpdate needs the lease. */
  lemma LateExpiry() returns (states: seq<System>, acts: seq<Action>)
    ensures |acts| > 0 && LockProtocol.Run(states, acts)
    ensures var j := |acts| - 1;
      && SyncReturnsOk(states[j], acts[j], 0) && states[j].clients[0].trusted
      && !Holds(states[j].w, states[j].clients[0])
      && states[j].clients[0].file == Db(Filled(2), {0}) && states[j].w.server.blob == Filled(3)
  {
    states, acts := ReachOverwritten();
    var done := Synced().(pc := Idle, file := Db(Filled(2), {}), etag := Some(1));
    states, acts := Alone(states, acts, Overwritten(), Synced(), SyncDone(0, 1), Overwritten(), done);
  }
}
