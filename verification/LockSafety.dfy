/** Safety of the locking protocol over every run: the invariant and what follows from it. */
module LockSafety {
  import opened Options
  import opened Bytes
  import opened BlobServer
  import opened AzureErrors
  import opened LockProtocol
  import DirtyRanges
  import WB = WriteBack

  // ------------------------------------------------------------------ the invariant

  ghost predicate WorldInv(w: World) {
    && BlobServer.WellFormed(w.server)
    && |w.versions| == |w.authors| == w.server.etag + 1
    && w.versions[w.server.etag] == w.server.blob
    && |w.server.blob| % SECTOR == 0
  }

  /** The server still has this client's lease on record (it may have run out unnoticed). */
  predicate Holds(w: World, c: Client) {
    c.lease.Some? && w.server.lease.Leased? && w.server.lease.id == c.lease.value
  }

  /** A trusted cache that stands for the server's current version agrees with the blob. */
  ghost predicate Coherent(w: World, c: Client)
    requires c.file.ps > 0
  {
    c.trusted && Basis(c) == w.server.etag ==> WB.Agrees(c.file, w.server.blob)
  }

  /** SQLite's view since SHARED is the cache. */
  ghost predicate SeesCache(c: Client) {
    && (forall o :: o in c.seen ==> o < c.file.nData && c.seen[o] == At(c.file.cache, o))
    && (c.nReads == 0 ==> c.seen == map[])
  }

  /** The grant was made on a cache that was current and trusted at that moment, and nothing has
      failed since. */
  predicate Sound(c: Client)
    requires c.grant.Some?
  {
    c.trusted && c.grant.value.trusted && c.grant.value.current
  }

  /** A client at RESERVED or above. */
  ghost predicate Locked(w: World, i: nat, c: Client)
    requires c.file.ps > 0 && WorldInv(w)
  {
    && c.lock >= RESERVED && c.lease.Some? && c.grant.Some?
    && var g := c.grant.value;
    && g.version <= c.own <= w.server.etag
    && (forall v :: g.version < v <= c.own ==> w.authors[v] == i)
    && (Holds(w, c) ==> w.server.etag == c.own)
    && (c.trusted ==> g.trusted && (c.etag.Some? || g.current))
    && (Sound(c) ==> g.file.ps > 0 && WB.Agrees(g.file, w.versions[g.version]) && WB.Agrees(c.file, w.versions[c.own]))
    && (g.trusted && !g.current ==> !Holds(w, c))
  }

  /** In the middle of writing ranges: acknowledged ranges are in the blob. */
  ghost predicate PuttingInv(w: World, c: Client)
    requires c.pc.Putting? && c.file.ps > 0 && WorldInv(w) && c.grant.Some? && c.own <= w.server.etag
  {
    && c.file.synced == c.file.nData && RangesOf(c, c.pc.rs)
    && (forall t :: t in c.pc.tags ==> t <= c.own)
    && (Sound(c) ==> RangesWritten(c, w.versions[c.own]))
    && (c.grant.value.trusted && !c.grant.value.current ==> c.pc.done == {})
  }

  ghost predicate RangesWritten(c: Client, blob: seq<byte>)
    requires c.pc.Putting?
  {
    forall k, o: nat :: k in c.pc.done && k < |c.pc.rs| && c.pc.rs[k].Has(o) ==> At(blob, o) == At(c.file.cache, o)
  }

  ghost predicate FetchingInv(w: World, c: Client)
    requires c.pc.Fetching?
  {
    && WB.WellFormed(c.file) && c.nReads == 0 && c.seen == map[] && c.grant.None? && c.etag.Some? && c.pc.size % SECTOR == 0
    && (c.etag == Some(w.server.etag) ==>
          c.pc.size == |w.server.blob| && forall o :: o in c.pc.got ==> c.pc.got[o] == At(w.server.blob, o))
    && (if c.pc.target >= RESERVED then c.lock == SHARED && c.lease.Some? && (Holds(w, c) ==> c.etag == Some(w.server.etag))
        else c.lock == NONE && c.lease.None?)
  }

  ghost predicate OpenInv(w: World, c: Client)
    requires c.file.ps > 0
  {
    WB.WellFormed(c.file) && SeesCache(c) && Coherent(w, c) && (c.etag.None? ==> c.own <= w.server.etag)
  }

  ghost predicate ClientInv(w: World, i: nat, c: Client)
    requires WorldInv(w)
  {
    && LegalPageSize(c.file.ps)
    && (c.lease.Some? ==> c.lease.value < w.server.nextLease)
    && (c.etag.Some? ==> c.etag.value <= w.server.etag)
    && match c.pc
       case Closed => c.lease.None? && c.grant.None? && WB.WellFormed(c.file)
       case Fetching(_, _, _) => FetchingInv(w, c)
       case Idle => OpenInv(w, c) && (if c.lock <= SHARED then c.lease.None? && c.grant.None? else Locked(w, i, c))
       case Confirming(target) => OpenInv(w, c) && c.lock == SHARED && c.lease.Some? && c.grant.None? && target >= RESERVED
       case BackingOff => OpenInv(w, c) && c.lock == SHARED && c.grant.None?
       case Sizing => OpenInv(w, c) && Locked(w, i, c) && c.file.nData > c.file.synced
       case Putting(_, _, _) => OpenInv(w, c) && Locked(w, i, c) && PuttingInv(w, c)
  }

  predicate LeasesDistinct(s: System) {
    forall i, j :: i in s.clients && j in s.clients && i != j && s.clients[i].lease.Some? ==>
      s.clients[i].lease != s.clients[j].lease
  }

  ghost predicate SysInv(s: System) {
    WorldInv(s.w) && LeasesDistinct(s) && forall i :: i in s.clients ==> ClientInv(s.w, i, s.clients[i])
  }

  // ------------------------------------------------------------------ other parties' requests

  /** What sending a request does to the world. */
  lemma SendWorld(w: World, q: Request, author: int)
    requires WorldInv(w)
    ensures var w' := Send(w, q, author).0;
      && WorldInv(w')
      && w.server.nextLease <= w'.server.nextLease && w.server.etag <= w'.server.etag <= w.server.etag + 1
      && (w'.server.etag == w.server.etag ==> w'.server.blob == w.server.blob && w'.versions == w.versions && w'.authors == w.authors)
      && (w'.server.etag > w.server.etag ==>
            && w'.versions == w.versions + [w'.server.blob] && w'.authors == w.authors + [author]
            && Mutates(q) && Send(w, q, author).1.err == Ok && w'.server.lease == w.server.lease)
  {}

  /** A request that does not carry the client's lease leaves everything the client relies on
      intact: it cannot revive a lost lease, nor change the blob while the lease is on record. */
  lemma Undisturbed(w: World, q: Request, author: int, i: nat, c: Client)
    requires WorldInv(w) && ClientInv(w, i, c)
    requires c.lease.Some? ==> !Carries(q, c.lease.value)
    ensures WorldInv(Send(w, q, author).0) && ClientInv(Send(w, q, author).0, i, c)
  {
    var w' := Send(w, q, author).0;
    SendWorld(w, q, author);
    assert Holds(w', c) ==> Holds(w, c) && w'.server.etag == w.server.etag;
    if c.grant.Some? && (c.pc.Idle? || c.pc.Sizing? || c.pc.Putting?) && c.lock >= RESERVED {
      StillLocked(w, w', i, c);
    }
  }

  lemma StillLocked(w: World, w': World, i: nat, c: Client)
    requires WorldInv(w) && WorldInv(w') && c.file.ps > 0 && Locked(w, i, c)
    requires w.server.etag <= w'.server.etag && w.versions <= w'.versions && w.authors <= w'.authors
    requires Holds(w', c) ==> Holds(w, c) && w'.server.etag == w.server.etag
    ensures Locked(w', i, c)
    ensures w'.versions[c.own] == w.versions[c.own]
  {}

  // ------------------------------------------------------------------ writing back under the lease

  /** Writing one coalesced range keeps agreement and stores the cached bytes. */
  lemma PutKeepsAgrees(f: WB.File, blob: seq<byte>, rs: seq<DirtyRanges.Range>, k: nat)
    requires WB.WellFormed(f) && WB.Agrees(f, blob) && f.synced == f.nData
    requires DirtyRanges.Exact(rs, f.dirty, f.ps, f.nData) && k < |rs|
    ensures var blob' := Splice(blob, rs[k].off, Window(f.cache, rs[k].off, rs[k].len));
      && WB.Agrees(f, blob')
      && forall o: nat :: At(blob', o) == if rs[k].Has(o) then At(f.cache, o) else At(blob, o)
  {
    var blob' := Splice(blob, rs[k].off, Window(f.cache, rs[k].off, rs[k].len));
    assert DirtyRanges.Acceptable(rs[k], f.ps, f.nData);
    forall o: nat | rs[k].Has(o) ensures !WB.Clean(f, o) {
      assert DirtyRanges.Covered(rs, o);
    }
  }

  /** Once every range is written the blob is the file. */
  lemma AllPutAgrees(f: WB.File, blob: seq<byte>, rs: seq<DirtyRanges.Range>)
    requires WB.WellFormed(f) && WB.Agrees(f, blob) && f.synced == f.nData
    requires DirtyRanges.Exact(rs, f.dirty, f.ps, f.nData)
    requires forall k, o: nat :: 0 <= k < |rs| && rs[k].Has(o) ==> At(blob, o) == At(f.cache, o)
    ensures WB.Agrees(f.(dirty := {}), blob)
    ensures blob == Resize(WB.Contents(f), AlignUp(f.nData))
  {
    forall o: nat | o < f.nData ensures At(blob, o) == At(f.cache, o) {
      if !WB.Clean(f, o) {
        assert DirtyRanges.Covered(rs, o);
        var k :| 0 <= k < |rs| && rs[k].Has(o);
      }
    }
    SameView(blob, Resize(WB.Contents(f), AlignUp(f.nData)));
  }

  /** With no range to write, no dirty bit lies below EOF. */
  lemma NothingPutAgrees(f: WB.File, blob: seq<byte>)
    requires WB.WellFormed(f) && WB.Agrees(f, blob) && DirtyRanges.Exact([], f.dirty, f.ps, f.nData)
    ensures WB.Agrees(f.(dirty := {}), blob)
  {
    forall o: nat | o < f.nData ensures WB.Clean(f, o) {
      assert !DirtyRanges.Covered([], o);
    }
  }

  /** The resize a sync makes, acknowledged or not. */
  lemma ResizeKeepsAgrees(f: WB.File, blob: seq<byte>)
    requires WB.WellFormed(f) && WB.Agrees(f, blob) && f.nData > f.synced
    ensures WB.Agrees(f, Resize(blob, AlignUp(f.nData)))
    ensures WB.Agrees(f.(synced := f.nData), Resize(blob, AlignUp(f.nData)))
  {}

  // ------------------------------------------------------------------ the client's own steps

  /** A request under the client's own lease succeeds only while the blob is still its own. */
  lemma OwnMutation(w: World, q: Request, i: nat, c: Client)
    requires WorldInv(w) && c.file.ps > 0 && Locked(w, i, c)
    requires (q.PutPage? && q.leaseId == c.lease) || (q.SetSize? && q.leaseId == c.lease)
    ensures var (w', r) := Send(w, q, i);
      && WorldInv(w')
      && if r.err == Ok
         then
           && Holds(w, c) && w.server.etag == c.own && w'.server.etag == c.own + 1 && w'.server.lease == w.server.lease
           && w'.server.blob == (if q.PutPage? then Splice(w.server.blob, q.off, q.data) else Resize(w.server.blob, q.size))
           && w.versions[c.own] == w.server.blob && w'.versions == w.versions + [w'.server.blob] && w'.authors == w.authors + [i]
           && w'.server.nextLease == w.server.nextLease
         else
           && w'.server.etag == w.server.etag && w'.versions == w.versions && w'.authors == w.authors
           && w'.server.blob == w.server.blob && w'.server.nextLease == w.server.nextLease
           && (Holds(w', c) ==> Holds(w, c))
  {
    SendWorld(w, q, i);
  }

  /** Renewing, releasing and HEAD change nothing but the lease. */
  lemma LeaseOnly(w: World, q: Request, i: int)
    requires WorldInv(w) && (q.Renew? || q.Release? || q.Head?)
    ensures var w' := Send(w, q, i).0;
      && WorldInv(w') && w' == w.(server := w.server.(lease := w'.server.lease))
      && (w'.server.lease.Leased? ==> w.server.lease.Leased? && w'.server.lease.id == w.server.lease.id)
  {}

  /** A client state without lease whose cache is open stays fine in any world with the same blob. */
  lemma SameBlobOpen(w: World, w': World, c: Client)
    requires c.file.ps > 0 && OpenInv(w, c) && w'.server.etag == w.server.etag && w'.server.blob == w.server.blob
    ensures OpenInv(w', c)
  {}

  lemma OpenKeeps(w: World, i: nat, c: Client, a: Action)
    requires WorldInv(w) && ClientInv(w, i, c) && a.Open? && Ready(c, a)
    ensures var (w', c') := Act(w, i, c, a); WorldInv(w') && ClientInv(w', i, c')
  {
    LeaseOnly(w, Head, i);
  }

  lemma FetchKeeps(w: World, i: nat, c: Client, a: Action)
    requires WorldInv(w) && ClientInv(w, i, c) && a.Fetch? && Ready(c, a)
    ensures var (w', c') := Act(w, i, c, a); WorldInv(w') && ClientInv(w', i, c')
  {}

  lemma InstallKeeps(w: World, i: nat, c: Client, a: Action)
    requires WorldInv(w) && ClientInv(w, i, c) && a.Install? && Ready(c, a)
    ensures var (w', c') := Act(w, i, c, a); WorldInv(w') && ClientInv(w', i, c')
  {
    var f := Fetched(c);
    assert WB.WellFormed(f);
    if c.etag == Some(w.server.etag) {
      SameView(f.cache, w.server.blob);
      WB.OpenedInv(WB.State(f, w.server.blob));
    }
  }

  lemma ReleaseKeeps(w: World, i: nat, c: Client, a: Action)
    requires WorldInv(w) && ClientInv(w, i, c) && (a.FetchFails? || a.BackOff? || a.Unlock?) && Ready(c, a)
    ensures var (w', c') := Act(w, i, c, a); WorldInv(w') && ClientInv(w', i, c')
  {
    if c.lease.Some? { LeaseOnly(w, Release(c.lease.value), i); }
    if !a.FetchFails? { SameBlobOpen(w, Released(w, c, i, a.delivered), c); }
  }

  lemma LockSharedKeeps(w: World, i: nat, c: Client, a: Action)
    requires WorldInv(w) && ClientInv(w, i, c) && a.LockShared? && Ready(c, a)
    ensures var (w', c') := Act(w, i, c, a); WorldInv(w') && ClientInv(w', i, c')
  {
    LeaseOnly(w, Head, i);
  }

  lemma GrantedIsLocked(w: World, i: nat, c: Client, target: nat)
    requires WorldInv(w) && c.file.ps > 0 && OpenInv(w, c) && c.lease.Some? && target >= RESERVED
    requires c.etag.Some? && c.trusted ==> c.etag == Some(w.server.etag)
    ensures var c' := Granted(c, w, target); OpenInv(w, c') && Locked(w, i, c')
  {}

  lemma LockReservedKeeps(w: World, i: nat, c: Client, a: Action)
    requires WorldInv(w) && ClientInv(w, i, c) && a.LockReserved? && Ready(c, a)
    ensures var (w', c') := Act(w, i, c, a); WorldInv(w') && ClientInv(w', i, c')
  {
    SendWorld(w, Acquire(a.duration), i);
    var (w1, r) := Send(w, Acquire(a.duration), i);
    if r.err == Ok && (c.etag.None? || (a.told && c.etag == Some(w1.server.etag))) {
      GrantedIsLocked(w1, i, c.(lease := Some(r.leaseId)), a.target);
    }
  }

  lemma ConfirmKeeps(w: World, i: nat, c: Client, a: Action)
    requires WorldInv(w) && ClientInv(w, i, c) && (a.Confirm? || a.ConfirmFails?) && Ready(c, a)
    ensures var (w', c') := Act(w, i, c, a); WorldInv(w') && ClientInv(w', i, c')
  {
    LeaseOnly(w, Head, i);
    var w1 := Send(w, Head, i).0;
    SameBlobOpen(w, w1, c);
    if c.etag == Some(w1.server.etag) { GrantedIsLocked(w1, i, c, c.pc.target); }
  }

  lemma LocalKeeps(w: World, i: nat, c: Client, a: Action)
    requires WorldInv(w) && ClientInv(w, i, c) && (a.Raise? || a.Read? || a.SyncGivesUp?) && Ready(c, a)
    ensures var (w', c') := Act(w, i, c, a); WorldInv(w') && ClientInv(w', i, c')
  {}

  lemma RenewalKeeps(w: World, i: nat, c: Client, renew: bool, acked: bool)
    requires WorldInv(w) && ClientInv(w, i, c) && c.pc.Idle? && c.lock >= RESERVED
    ensures var w' := Renewal(w, c, i, renew, acked).0; WorldInv(w') && ClientInv(w', i, c)
  {
    if renew {
      LeaseOnly(w, BlobServer.Renew(c.lease.value), i);
      StillLocked(w, Renewal(w, c, i, renew, acked).0, i, c);
    }
  }

  /** A local change of the file that keeps agreement keeps the lock invariant. */
  lemma LockedFile(w: World, i: nat, c: Client, f: WB.File, seen: map<nat, byte>)
    requires WorldInv(w) && c.file.ps > 0 && Locked(w, i, c) && f.ps == c.file.ps
    requires Sound(c) ==> WB.Agrees(f, w.versions[c.own])
    ensures Locked(w, i, c.(file := f, seen := seen))
  {}

  lemma WriteLocal(w: World, i: nat, c: Client, at: nat, d: seq<byte>)
    requires WorldInv(w) && ClientInv(w, i, c) && c.pc.Idle? && c.lock >= RESERVED
    ensures ClientInv(w, i, c.(file := WB.Write(c.file, at, d), seen := Overwrite(c.seen, at, d)))
  {
    WB.WriteKeepsShape(c.file, at, d);
    if WB.Agrees(c.file, w.server.blob) { WB.WriteKeeps(WB.State(c.file, w.server.blob), at, d); }
    if Sound(c) { WB.WriteKeeps(WB.State(c.file, w.versions[c.own]), at, d); }
    LockedFile(w, i, c, WB.Write(c.file, at, d), Overwrite(c.seen, at, d));
  }

  /** The same write when the renewal on its way fails. */
  lemma WriteUnmarked(w: World, i: nat, c: Client, at: nat, d: seq<byte>)
    requires WorldInv(w) && ClientInv(w, i, c) && c.pc.Idle? && c.lock >= RESERVED
    ensures ClientInv(w, i, c.(file := WB.Write(c.file, at, d).(dirty := c.file.dirty), seen := Overwrite(c.seen, at, d), trusted := false))
  {
    WB.WriteKeepsShape(c.file, at, d);
  }

  lemma WriteKeepsClient(w: World, i: nat, c: Client, a: Action)
    requires WorldInv(w) && ClientInv(w, i, c) && a.Write? && Ready(c, a)
    ensures var (w', c') := Act(w, i, c, a); WorldInv(w') && ClientInv(w', i, c')
  {
    RenewalKeeps(w, i, c, a.renew, a.acked);
    WriteLocal(Renewal(w, c, i, a.renew, a.acked).0, i, c, a.at, a.d);
    WriteUnmarked(Renewal(w, c, i, a.renew, a.acked).0, i, c, a.at, a.d);
  }

  /** A refused mutation leaves the client's invariant alone. */
  lemma Unmoved(w: World, w': World, i: nat, c: Client)
    requires WorldInv(w) && WorldInv(w') && c.file.ps > 0 && OpenInv(w, c) && Locked(w, i, c)
    requires w'.server.etag == w.server.etag && w'.versions == w.versions && w'.authors == w.authors && w'.server.blob == w.server.blob
    requires Holds(w', c) ==> Holds(w, c)
    ensures OpenInv(w', c) && Locked(w', i, c)
  {
    StillLocked(w, w', i, c);
  }

  /** A mutation of the client's own becomes its latest version, whatever the client makes of it. */
  lemma Moved(w: World, w': World, i: nat, c: Client, c': Client)
    requires WorldInv(w) && WorldInv(w') && c.file.ps > 0 && Locked(w, i, c) && Holds(w, c)
    requires c.etag.Some? ==> c.etag.value <= w.server.etag
    requires w'.server.etag == c.own + 1 && w'.versions == w.versions + [w'.server.blob] && w'.authors == w.authors + [i]
    requires w'.server.lease == w.server.lease && c'.own == w'.server.etag && c'.file.ps == c.file.ps
    requires c'.etag == c.etag && c'.lease == c.lease && c'.lock == c.lock && c'.grant == c.grant && (c'.trusted ==> c.trusted)
    requires WB.WellFormed(c'.file) && SeesCache(c') && (Sound(c') ==> WB.Agrees(c'.file, w'.server.blob))
    ensures OpenInv(w', c') && Locked(w', i, c')
  {}

  lemma TruncateKeepsClient(w: World, i: nat, c: Client, a: Action)
    requires WorldInv(w) && ClientInv(w, i, c) && a.Truncate? && Ready(c, a)
    ensures var (w', c') := Act(w, i, c, a); WorldInv(w') && ClientInv(w', i, c')
  {
    var q := SetSize(AlignUp(a.size), c.lease);
    OwnMutation(w, q, i, c);
    var (w1, r) := Send(w, q, i);
    if r.err != Ok {
      Unmoved(w, w1, i, c);
    } else {
      var c' := Act(w, i, c, a).1;
      PagesMonotone(a.size, |c.file.cache|, c.file.ps);
      if Sound(c) && a.acked { WB.TruncateKeepsIff(WB.State(c.file, w.server.blob), a.size); }
      Moved(w, w1, i, c, c');
    }
  }

  lemma SyncRenewKeeps(w: World, i: nat, c: Client, a: Action)
    requires WorldInv(w) && ClientInv(w, i, c) && a.SyncRenew? && Ready(c, a)
    ensures var (w', c') := Act(w, i, c, a); WorldInv(w') && ClientInv(w', i, c')
  {
    LeaseOnly(w, BlobServer.Renew(c.lease.value), i);
    StillLocked(w, Renewal(w, c, i, true, a.acked).0, i, c);
  }

  lemma SyncStartKeeps(w: World, i: nat, c: Client, a: Action)
    requires WorldInv(w) && ClientInv(w, i, c) && a.SyncStart? && Ready(c, a)
    ensures var (w', c') := Act(w, i, c, a); WorldInv(w') && ClientInv(w', i, c')
  {
    RenewalKeeps(w, i, c, a.renew, a.acked);
  }

  lemma SyncResizeKeeps(w: World, i: nat, c: Client, a: Action)
    requires WorldInv(w) && ClientInv(w, i, c) && a.SyncResize? && Ready(c, a)
    ensures var (w', c') := Act(w, i, c, a); WorldInv(w') && ClientInv(w', i, c')
  {
    var q := SetSize(AlignUp(c.file.nData), c.lease);
    OwnMutation(w, q, i, c);
    var (w1, r) := Send(w, q, i);
    if r.err != Ok {
      Unmoved(w, w1, i, c);
    } else {
      if Sound(c) { ResizeKeepsAgrees(c.file, w.server.blob); }
      Moved(w, w1, i, c, Act(w, i, c, a).1);
    }
  }

  lemma PutWritten(w: World, w': World, c: Client, k: nat, done: set<nat>)
    requires c.pc.Putting? && k < |c.pc.rs| && done <= c.pc.done + {k}
    requires forall o: nat :: At(w'.server.blob, o) == if c.pc.rs[k].Has(o) then At(c.file.cache, o) else At(w.server.blob, o)
    requires RangesWritten(c, w.server.blob)
    ensures forall j, o: nat :: j in done && j < |c.pc.rs| && c.pc.rs[j].Has(o) ==> At(w'.server.blob, o) == At(c.file.cache, o)
  {}

  lemma SyncPutKeeps(w: World, i: nat, c: Client, a: Action)
    requires WorldInv(w) && ClientInv(w, i, c) && a.SyncPut? && Ready(c, a)
    ensures var (w', c') := Act(w, i, c, a); WorldInv(w') && ClientInv(w', i, c')
  {
    var q := PutRequest(c, a.k);
    OwnMutation(w, q, i, c);
    var (w1, r) := Send(w, q, i);
    if r.err != Ok {
      Unmoved(w, w1, i, c);
    } else {
      PutMoves(w, w1, i, c, a.k, c.(own := w1.server.etag));
      PutMoves(w, w1, i, c, a.k, c.(own := w1.server.etag, pc := c.pc.(done := c.pc.done + {a.k}, tags := c.pc.tags + {w1.server.etag})));
    }
  }

  /** A range that reached the blob, whether or not the client learns of it. */
  lemma PutMoves(w: World, w': World, i: nat, c: Client, k: nat, c': Client)
    requires WorldInv(w) && WorldInv(w') && c.file.ps > 0 && OpenInv(w, c) && Locked(w, i, c) && Holds(w, c)
    requires c.pc.Putting? && PuttingInv(w, c) && k < |c.pc.rs| && (c.etag.Some? ==> c.etag.value <= w.server.etag)
    requires w'.server.etag == c.own + 1 && w'.versions == w.versions + [w'.server.blob] && w'.authors == w.authors + [i]
    requires w'.server.lease == w.server.lease && w.server.etag == c.own
    requires w'.server.blob == Splice(w.server.blob, c.pc.rs[k].off, Window(c.file.cache, c.pc.rs[k].off, c.pc.rs[k].len))
    requires c' == c.(own := w'.server.etag, pc := c'.pc) && c'.pc.Putting? && c'.pc.rs == c.pc.rs
    requires c'.pc.done <= c.pc.done + {k} && c'.pc.tags <= c.pc.tags + {w'.server.etag}
    ensures OpenInv(w', c') && Locked(w', i, c') && PuttingInv(w', c')
  {
    if Sound(c) {
      PutKeepsAgrees(c.file, w.server.blob, c.pc.rs, k);
      PutWritten(w, w', c, k, c'.pc.done);
    }
    Moved(w, w', i, c, c');
  }

  lemma SyncDoneKeeps(w: World, i: nat, c: Client, a: Action)
    requires WorldInv(w) && ClientInv(w, i, c) && a.SyncDone? && Ready(c, a)
    ensures var (w', c') := Act(w, i, c, a); WorldInv(w') && ClientInv(w', i, c')
    ensures Sound(c) ==> w.versions[c.own] == Resize(WB.Contents(c.file), AlignUp(c.file.nData))
    ensures c.pc.rs != [] && c.trusted ==> Sound(c)
  {
    if Sound(c) { AllPutAgrees(c.file, w.versions[c.own], c.pc.rs); }
    if c.pc.rs != [] { assert 0 in c.pc.done; }
    else if WB.Agrees(c.file, w.server.blob) { NothingPutAgrees(c.file, w.server.blob); }
  }

  /** Opening, locking and unlocking. */
  predicate IsLocking(a: Action) {
    a.Open? || a.Fetch? || a.Install? || a.FetchFails? || a.LockShared? || a.LockReserved? || a.Confirm? || a.ConfirmFails?
    || a.BackOff? || a.Unlock?
  }

  lemma LockingKeeps(w: World, i: nat, c: Client, a: Action)
    requires WorldInv(w) && ClientInv(w, i, c) && IsLocking(a) && Ready(c, a)
    ensures var (w', c') := Act(w, i, c, a); WorldInv(w') && ClientInv(w', i, c')
  {
    if a.Open? { OpenKeeps(w, i, c, a); }
    else if a.Fetch? { FetchKeeps(w, i, c, a); }
    else if a.Install? { InstallKeeps(w, i, c, a); }
    else if a.LockShared? { LockSharedKeeps(w, i, c, a); }
    else if a.LockReserved? { LockReservedKeeps(w, i, c, a); }
    else if a.Confirm? || a.ConfirmFails? { ConfirmKeeps(w, i, c, a); }
    else { ReleaseKeeps(w, i, c, a); }
  }

  lemma ActKeeps(w: World, i: nat, c: Client, a: Action)
    requires WorldInv(w) && ClientInv(w, i, c) && ByClient(a) && Ready(c, a)
    ensures var (w', c') := Act(w, i, c, a); WorldInv(w') && ClientInv(w', i, c')
  {
    if IsLocking(a) { LockingKeeps(w, i, c, a); }
    else if a.Write? { WriteKeepsClient(w, i, c, a); }
    else if a.Truncate? { TruncateKeepsClient(w, i, c, a); }
    else if a.SyncStart? { SyncStartKeeps(w, i, c, a); }
    else if a.SyncResize? { SyncResizeKeeps(w, i, c, a); }
    else if a.SyncPut? { SyncPutKeeps(w, i, c, a); }
    else if a.SyncRenew? { SyncRenewKeeps(w, i, c, a); }
    else if a.SyncDone? { SyncDoneKeeps(w, i, c, a); }
    else { LocalKeeps(w, i, c, a); }
  }

  // ------------------------------------------------------------------ whole runs

  /** The request, if any, that an action sends. */
  ghost function Sent(c: Client, a: Action): Option<Request>
    requires ByClient(a) && Ready(c, a)
  {
    var release := if c.lease.Some? then Some(Release(c.lease.value)) else None;
    match a
    case Open(_) => Some(Head)
    case FetchFails(_, delivered) => if delivered then release else None
    case LockShared(_) => if c.etag.None? then None else Some(Head)
    case LockReserved(_, _, duration, _) => Some(Acquire(duration))
    case Confirm(_) => Some(Head)
    case BackOff(_, delivered) => if delivered then release else None
    case Write(_, _, _, renew, _) => if renew && c.lease.Some? then Some(BlobServer.Renew(c.lease.value)) else None
    case Truncate(_, size, _) => Some(SetSize(AlignUp(size), c.lease))
    case SyncStart(_, renew, _, _) => if renew && c.lease.Some? then Some(BlobServer.Renew(c.lease.value)) else None
    case SyncResize(_, _, _) => Some(SetSize(AlignUp(c.file.nData), c.lease))
    case SyncPut(_, k, _) => Some(PutRequest(c, k))
    case SyncRenew(_, _) => if c.lease.Some? then Some(BlobServer.Renew(c.lease.value)) else None
    case Unlock(_, _, delivered) => if delivered then release else None
    case _ => None
  }

  /** An action touches the server through that request alone, carries no lease but the client's
      own, and leaves the client with its old lease, no lease or a brand-new one. */
  lemma ActSends(w: World, i: nat, c: Client, a: Action)
    requires WorldInv(w) && ByClient(a) && Ready(c, a)
    ensures Act(w, i, c, a).0 == if Sent(c, a).Some? then Send(w, Sent(c, a).value, i).0 else w
    ensures forall id: nat :: Sent(c, a).Some? && Carries(Sent(c, a).value, id) ==> c.lease == Some(id)
    ensures var c' := Act(w, i, c, a).1; c'.lease == c.lease || c'.lease == None || c'.lease == Some(w.server.nextLease)
  {}

  lemma OutsideKeeps(s: System, q: Request)
    requires SysInv(s) && forall i :: i in s.clients && s.clients[i].lease.Some? ==> !Carries(q, s.clients[i].lease.value)
    ensures SysInv(s.(w := Send(s.w, q, OUTSIDER).0))
  {
    SendWorld(s.w, q, OUTSIDER);
    forall i | i in s.clients ensures ClientInv(Send(s.w, q, OUTSIDER).0, i, s.clients[i]) {
      Undisturbed(s.w, q, OUTSIDER, i, s.clients[i]);
    }
  }

  /** A client's step leaves the invariants of the others alone, and their leases distinct from its own. */
  lemma OthersKept(s: System, a: Action, w': World, c': Client, i: nat)
    requires SysInv(s) && ByClient(a) && a.c in s.clients && Ready(s.clients[a.c], a) && i in s.clients && i != a.c
    requires (w', c') == Act(s.w, a.c, s.clients[a.c], a)
    ensures WorldInv(w') && ClientInv(w', i, s.clients[i]) && (c'.lease.Some? ==> s.clients[i].lease != c'.lease)
  {
    ActSends(s.w, a.c, s.clients[a.c], a);
    assert ClientInv(s.w, i, s.clients[i]);
    if Sent(s.clients[a.c], a).Some? {
      Undisturbed(s.w, Sent(s.clients[a.c], a).value, a.c, i, s.clients[i]);
    }
  }

  /** The system after client k moved on. */
  lemma SystemKept(s: System, k: nat, w': World, c': Client)
    requires SysInv(s) && k in s.clients && WorldInv(w') && ClientInv(w', k, c')
    requires forall i :: i in s.clients && i != k ==> ClientInv(w', i, s.clients[i])
    requires forall i :: i in s.clients && i != k && c'.lease.Some? ==> s.clients[i].lease != c'.lease
    ensures SysInv(System(w', s.clients[k := c']))
  {}

  lemma ClientKeeps(s: System, a: Action, w': World, c': Client)
    requires SysInv(s) && ByClient(a) && a.c in s.clients && Ready(s.clients[a.c], a)
    requires (w', c') == Act(s.w, a.c, s.clients[a.c], a)
    ensures SysInv(System(w', s.clients[a.c := c']))
  {
    ActKeeps(s.w, a.c, s.clients[a.c], a);
    forall i | i in s.clients && i != a.c
      ensures ClientInv(w', i, s.clients[i]) && (c'.lease.Some? ==> s.clients[i].lease != c'.lease)
    {
      OthersKept(s, a, w', c', i);
    }
    SystemKept(s, a.c, w', c');
  }

  lemma SameSystem(s: System, a: Action, s': System)
    requires Next(s, a, s') && ByClient(a)
    ensures a.c in s'.clients && s' == System(s'.w, s.clients[a.c := s'.clients[a.c]])
  {}

  lemma NextKeeps(s: System, a: Action, s': System)
    requires SysInv(s) && Next(s, a, s')
    ensures SysInv(s')
  {
    if a.Tick? {
      OutsideKeeps(s, Wait(a.seconds));
    } else if a.Outside? {
      OutsideKeeps(s, a.q);
    } else {
      OwnStep(s, a, s');
      ClientKeeps(s, a, s'.w, s'.clients[a.c]);
      SameSystem(s, a, s');
    }
  }

  lemma InitInv(s: System)
    requires Init(s)
    ensures SysInv(s)
  {
    forall i | i in s.clients ensures ClientInv(s.w, i, s.clients[i]) && s.clients[i].lease.None? {
      FreshInv(s.w, i, s.clients[i]);
    }
  }

  lemma FreshInv(w: World, i: nat, c: Client)
    requires WorldInv(w) && Fresh(c, w)
    ensures ClientInv(w, i, c) && c.lease.None?
  {
    ExactlyEmpty(c.file.ps);
  }

  lemma ExactlyEmpty(ps: nat)
    requires LegalPageSize(ps)
    ensures WB.WellFormed(WB.File(ps, [], 0, {}, 0, 0)) && WB.Agrees(WB.File(ps, [], 0, {}, 0, 0), [])
  {
    PageExists(0, 0, ps);
  }

  /** The invariant holds in every reachable state, for any number of clients and any
      interleaving of their requests, the environment's requests and lease expiries. */
  lemma {:induction false} RunInv(states: seq<System>, acts: seq<Action>, i: nat)
    requires LockProtocol.Run(states, acts) && i <= |acts|
    ensures SysInv(states[i])
  {
    if i == 0 {
      InitInv(states[0]);
    } else {
      RunInv(states, acts, i - 1);
      assert StepAt(states, acts, i - 1);
      NextKeeps(states[i - 1], acts[i - 1], states[i]);
    }
  }

  /** At most one client's lease is alive at any time. */
  lemma AtMostOneLive(states: seq<System>, acts: seq<Action>, i: nat, c: nat, d: nat)
    requires LockProtocol.Run(states, acts) && i <= |acts|
    requires c in states[i].clients && d in states[i].clients
    requires states[i].clients[c].lease.Some? && Live(states[i].w.server, states[i].clients[c].lease.value)
    requires states[i].clients[d].lease.Some? && Live(states[i].w.server, states[i].clients[d].lease.value)
    ensures c == d
  {
    RunInv(states, acts, i);
    assert LeasesDistinct(states[i]);
  }

  // ------------------------------------------------------------------ snapshot stability

  /** The step makes client c's xLock return OK at RESERVED or above. */
  predicate Grants(s: System, s': System, c: nat) {
    c in s.clients && c in s'.clients && s.clients[c].lock < RESERVED <= s'.clients[c].lock
  }

  predicate Disturbs(a: Action, c: nat) {
    a == LockShared(c) || a == Open(c) || (a.Write? && a.c == c) || (a.Truncate? && a.c == c)
  }

  /** The byte SQLite would read at `o`. */
  predicate Reads(s: System, c: nat, o: nat, b: byte) {
    c in s.clients && o < s.clients[c].file.nData && b == At(s.clients[c].file.cache, o)
  }

  predicate Sees(s: System, c: nat, o: nat, b: byte) {
    c in s.clients && o in s.clients[c].seen && s.clients[c].seen[o] == b
  }

  lemma ReadIsSeen(s: System, s': System, c: nat, o: nat, b: byte)
    requires Next(s, Read(c, o), s') && Reads(s, c, o, b)
    ensures Sees(s', c, o, b)
  {}

  /** A step of somebody else leaves client c as it is. */
  lemma Others(s: System, a: Action, s': System, c: nat)
    requires Next(s, a, s') && !(ByClient(a) && a.c == c)
    ensures c in s'.clients <==> c in s.clients
    ensures c in s.clients ==> s'.clients[c] == s.clients[c]
  {}

  lemma OwnStep(s: System, a: Action, s': System)
    requires Next(s, a, s') && ByClient(a)
    ensures a.c in s.clients && a.c in s'.clients && Ready(s.clients[a.c], a)
    ensures (s'.w, s'.clients[a.c]) == Act(s.w, a.c, s.clients[a.c], a)
  {}

  lemma ActKeepsSeen(w: World, i: nat, c: Client, a: Action)
    requires WorldInv(w) && ClientInv(w, i, c) && ByClient(a) && a.c == i && Ready(c, a) && !Disturbs(a, i)
    ensures forall o :: o in c.seen ==> o in Act(w, i, c, a).1.seen && Act(w, i, c, a).1.seen[o] == c.seen[o]
  {}

  lemma SeenKept(s: System, a: Action, s': System, c: nat, o: nat, b: byte)
    requires SysInv(s) && Next(s, a, s') && !Disturbs(a, c) && Sees(s, c, o, b)
    ensures Sees(s', c, o, b)
  {
    if ByClient(a) && a.c == c {
      OwnStep(s, a, s');
      assert ClientInv(s.w, c, s.clients[c]);
      ActKeepsSeen(s.w, c, s.clients[c], a);
    } else {
      Others(s, a, s', c);
    }
  }

  /** What SQLite reads stays in its view until it relocks, writes or truncates. */
  lemma {:induction false} ReadsStaySeen(states: seq<System>, acts: seq<Action>, r: nat, i: nat, c: nat, o: nat, b: byte)
    requires LockProtocol.Run(states, acts) && r < i <= |acts|
    requires acts[r] == Read(c, o) && Reads(states[r], c, o, b)
    requires forall k :: r < k < i ==> !Disturbs(acts[k], c)
    ensures Sees(states[i], c, o, b)
  {
    assert StepAt(states, acts, i - 1);
    if r == i - 1 {
      ReadIsSeen(states[r], states[i], c, o, b);
    } else {
      ReadsStaySeen(states, acts, r, i - 1, c, o, b);
      RunInv(states, acts, i - 1);
      SeenKept(states[i - 1], acts[i - 1], states[i], c, o, b);
    }
  }

  /** Whoever is granted RESERVED on a trusted cache sees the blob: every byte in SQLite's view,
      outside pages it left dirty itself, is the blob's byte at the moment of the grant. */
  lemma GrantMatchesView(s: System, a: Action, s': System, c: nat, o: nat, b: byte)
    requires SysInv(s) && Next(s, a, s') && Grants(s, s', c)
    requires s'.clients[c].trusted && Sees(s', c, o, b)
    ensures s'.clients[c].file.ps > 0
    ensures WB.Clean(s'.clients[c].file, o) ==> b == At(s'.w.server.blob, o)
  {
    GrantIsOwn(s, a, s', c);
    OwnStep(s, a, s');
    assert ClientInv(s.w, c, s.clients[c]);
    ActGrantsView(s.w, c, s.clients[c], a, o);
  }

  lemma GrantIsOwn(s: System, a: Action, s': System, c: nat)
    requires Next(s, a, s') && Grants(s, s', c)
    ensures ByClient(a) && a.c == c
  {}

  lemma ActGrantsView(w: World, i: nat, c: Client, a: Action, o: nat)
    requires WorldInv(w) && ClientInv(w, i, c) && ByClient(a) && Ready(c, a) && c.lock < RESERVED
    ensures var (w', c') := Act(w, i, c, a);
      && c'.file.ps > 0
      && (c'.lock >= RESERVED && c'.trusted && o in c'.seen && WB.Clean(c'.file, o) ==> c'.seen[o] == At(w'.server.blob, o))
  {
    ActKeeps(w, i, c, a);
  }

  /** Snapshot stability for writers: a byte read at step r, in the same SHARED period and not
      overwritten by the client since, equals the blob at the moment RESERVED is granted, even
      if the download that filled the cache interleaved with other clients' writes. */
  lemma SnapshotStability(states: seq<System>, acts: seq<Action>, r: nat, i: nat, c: nat, o: nat, b: byte)
    requires LockProtocol.Run(states, acts) && r < i < |acts| && Grants(states[i], states[i + 1], c)
    requires acts[r] == Read(c, o) && Reads(states[r], c, o, b)
    requires forall k :: r < k < i ==> !Disturbs(acts[k], c)
    requires states[i + 1].clients[c].trusted
    ensures states[i + 1].clients[c].file.ps > 0
    ensures WB.Clean(states[i + 1].clients[c].file, o) ==> b == At(states[i + 1].w.server.blob, o)
  {
    RunInv(states, acts, i);
    ReadsStaySeen(states, acts, r, i, c, o, b);
    assert StepAt(states, acts, i);
    GrantDoesNotDisturb(states[i], acts[i], states[i + 1], c);
    SeenKept(states[i], acts[i], states[i + 1], c, o, b);
    GrantMatchesView(states[i], acts[i], states[i + 1], c, o, b);
  }

  lemma GrantDoesNotDisturb(s: System, a: Action, s': System, c: nat)
    requires Next(s, a, s') && Grants(s, s', c)
    ensures !Disturbs(a, c)
  {}

  lemma ActKeepsUndirtied(w: World, i: nat, c: Client, a: Action)
    requires ByClient(a) && Ready(c, a) && !a.Write? && c.file.dirty == {}
    ensures Act(w, i, c, a).1.file.dirty == {}
  {}

  /** A client that writes nothing dirties nothing. */
  lemma {:induction false} StaysUndirtied(states: seq<System>, acts: seq<Action>, l: nat, i: nat, c: nat)
    requires LockProtocol.Run(states, acts) && l <= i <= |acts| && c in states[l].clients && states[l].clients[c].file.dirty == {}
    requires forall k :: l <= k < i ==> !(acts[k].Write? && acts[k].c == c)
    ensures c in states[i].clients && states[i].clients[c].file.dirty == {}
  {
    if l < i {
      StaysUndirtied(states, acts, l, i - 1, c);
      assert StepAt(states, acts, i - 1);
      var s, a := states[i - 1], acts[i - 1];
      if ByClient(a) && a.c == c {
        OwnStep(s, a, states[i]);
        ActKeepsUndirtied(s.w, c, s.clients[c], a);
      } else {
        Others(s, a, states[i], c);
      }
    }
  }

  /** With an empty dirty set at xLock(SHARED), every byte read since equals the blob at the grant. */
  lemma SnapshotIsBlob(states: seq<System>, acts: seq<Action>, l: nat, r: nat, i: nat, c: nat, o: nat, b: byte)
    requires LockProtocol.Run(states, acts) && l < r < i < |acts| && Grants(states[i], states[i + 1], c)
    requires acts[l] == LockShared(c) && c in states[l].clients && states[l].clients[c].file.dirty == {}
    requires acts[r] == Read(c, o) && Reads(states[r], c, o, b)
    requires forall k :: l < k < i ==> !Disturbs(acts[k], c)
    requires states[i + 1].clients[c].trusted
    ensures b == At(states[i + 1].w.server.blob, o)
  {
    assert StepAt(states, acts, i);
    GrantDoesNotDisturb(states[i], acts[i], states[i + 1], c);
    StaysUndirtied(states, acts, l, i + 1, c);
    SnapshotStability(states, acts, r, i, c, o, b);
  }

  // ------------------------------------------------------------------ refusals

  /** The client is inside xLock at RESERVED or above. */
  predicate Reserving(c: Client) {
    c.pc.Confirming? || c.pc.BackingOff? || (c.pc.Fetching? && c.pc.target >= RESERVED)
  }

  lemma ActReserves(w: World, i: nat, c: Client, a: Action)
    requires WorldInv(w) && ClientInv(w, i, c) && ByClient(a) && Ready(c, a) && (a.LockReserved? || Reserving(c))
    ensures var c' := Act(w, i, c, a).1;
      || Reserving(c')
      || (c.lock < RESERVED <= c'.lock && c'.pc == Idle && c'.lease.Some?)
      || (c'.lock == c.lock == SHARED && c'.pc == Idle && c'.lease.None? && c'.grant.None? && c'.file == c.file)
  {}

  /** Every step that ends an xLock at RESERVED grants it, or leaves the lock level and the file as
      they were and keeps no lease ID: a refused lease, a changed blob, an unanswered HEAD, and a
      refresh under the lease that fails. */
  lemma ReserveEnds(states: seq<System>, acts: seq<Action>, i: nat, c: nat)
    requires LockProtocol.Run(states, acts) && i < |acts| && ByClient(acts[i]) && acts[i].c == c
    requires c in states[i].clients && c in states[i + 1].clients
    requires (acts[i].LockReserved? || Reserving(states[i].clients[c])) && !Reserving(states[i + 1].clients[c])
    ensures var was, now := states[i].clients[c], states[i + 1].clients[c];
      || (Grants(states[i], states[i + 1], c) && now.pc == Idle && now.lease.Some?)
      || (now.lock == was.lock == SHARED && now.pc == Idle && now.lease.None? && now.grant.None? && now.file == was.file)
  {
    RunInv(states, acts, i);
    assert StepAt(states, acts, i);
    OwnStep(states[i], acts[i], states[i + 1]);
    assert ClientInv(states[i].w, c, states[i].clients[c]);
    ActReserves(states[i].w, c, states[i].clients[c], acts[i]);
  }

  // ------------------------------------------------------------------ no lost update

  predicate DescribesWorld(g: Grant, s: System, c: nat) {
    c in s.clients && g.version == s.w.server.etag && g.file == s.clients[c].file && g.trusted == s.clients[c].trusted
  }

  /** The grant record is taken at a granting step, describes the world right after it, and is kept,
      with the lease, until the client unlocks. */
  lemma OwnGrantStep(s: System, a: Action, s': System, c: nat)
    requires SysInv(s) && Next(s, a, s') && c in s.clients && c in s'.clients && s'.clients[c].grant.Some?
    ensures s.clients[c].grant.None? ==> Grants(s, s', c) && DescribesWorld(s'.clients[c].grant.value, s', c)
    ensures s.clients[c].grant.Some? ==> s'.clients[c].grant == s.clients[c].grant && s'.clients[c].lease == s.clients[c].lease
  {
    if ByClient(a) && a.c == c {
      OwnStep(s, a, s');
      assert ClientInv(s.w, c, s.clients[c]);
      ActGrants(s.w, c, s.clients[c], a);
    } else {
      Others(s, a, s', c);
    }
  }

  lemma ActGrants(w: World, i: nat, c: Client, a: Action)
    requires WorldInv(w) && ClientInv(w, i, c) && ByClient(a) && Ready(c, a) && Act(w, i, c, a).1.grant.Some?
    ensures var (w', c') := Act(w, i, c, a); var g := c'.grant.value;
      if c.grant.Some? then c'.grant == c.grant && c'.lease == c.lease
      else c.lock < RESERVED <= c'.lock && g.version == w'.server.etag && g.file == c'.file && g.trusted == c'.trusted
  {}

  lemma SameClients(s: System, a: Action, s': System)
    requires Next(s, a, s')
    ensures s'.clients.Keys == s.clients.Keys
  {}

  /** The client has held lease l, at RESERVED or above, in states i .. j. */
  ghost predicate HeldLease(states: seq<System>, i: nat, j: nat, c: nat, l: Option<nat>)
    requires j < |states|
  {
    forall k :: i <= k <= j ==> c in states[k].clients && states[k].clients[c].grant.Some? && states[k].clients[c].lease == l
  }

  lemma HeldLonger(states: seq<System>, i: nat, j: nat, c: nat, l: Option<nat>)
    requires j + 1 < |states| && HeldLease(states, i, j, c, l)
    requires c in states[j + 1].clients && states[j + 1].clients[c].grant.Some? && states[j + 1].clients[c].lease == l
    ensures HeldLease(states, i, j + 1, c, l)
  {}

  lemma {:induction false} GrantWasTaken(states: seq<System>, acts: seq<Action>, j: nat, c: nat) returns (i: nat)
    requires LockProtocol.Run(states, acts) && j <= |acts| && c in states[j].clients && states[j].clients[c].grant.Some?
    ensures i < j && Grants(states[i], states[i + 1], c)
    ensures DescribesWorld(states[j].clients[c].grant.value, states[i + 1], c)
    ensures HeldLease(states, i + 1, j, c, states[j].clients[c].lease)
  {
    assert j > 0 by { FreshHasNoGrant(states[0], c); }
    GrantStep(states, acts, j - 1, c);
    if states[j - 1].clients[c].grant.None? { return j - 1; }
    i := GrantWasTaken(states, acts, j - 1, c);
    HeldLonger(states, i + 1, j - 1, c, states[j].clients[c].lease);
  }

  lemma FreshHasNoGrant(s: System, c: nat)
    requires Init(s)
    ensures c in s.clients ==> s.clients[c].grant.None?
  {
    if c in s.clients { assert Fresh(s.clients[c], s.w); }
  }

  lemma GrantStep(states: seq<System>, acts: seq<Action>, j: nat, c: nat)
    requires LockProtocol.Run(states, acts) && j < |acts| && c in states[j + 1].clients && states[j + 1].clients[c].grant.Some?
    ensures c in states[j].clients
    ensures var was, now := states[j].clients[c], states[j + 1].clients[c];
      if was.grant.Some? then now.grant == was.grant && now.lease == was.lease
      else Grants(states[j], states[j + 1], c) && DescribesWorld(now.grant.value, states[j + 1], c)
  {
    RunInv(states, acts, j);
    assert StepAt(states, acts, j);
    SameClients(states[j], acts[j], states[j + 1]);
    OwnGrantStep(states[j], acts[j], states[j + 1], c);
  }

  lemma HistoryStep(s: System, a: Action, s': System)
    requires WorldInv(s.w) && Next(s, a, s')
    ensures s.w.versions <= s'.w.versions && s.w.authors <= s'.w.authors
  {
    if a.Tick? {
      SendWorld(s.w, Wait(a.seconds), OUTSIDER);
    } else if a.Outside? {
      SendWorld(s.w, a.q, OUTSIDER);
    } else {
      OwnStep(s, a, s');
      ActHistory(s.w, a.c, s.clients[a.c], a);
    }
  }

  lemma ActHistory(w: World, i: nat, c: Client, a: Action)
    requires WorldInv(w) && ByClient(a) && Ready(c, a)
    ensures w.versions <= Act(w, i, c, a).0.versions && w.authors <= Act(w, i, c, a).0.authors
  {
    ActSends(w, i, c, a);
    if Sent(c, a).Some? { SendWorld(w, Sent(c, a).value, i); }
  }

  lemma {:induction false} HistoryGrows(states: seq<System>, acts: seq<Action>, i: nat, j: nat)
    requires LockProtocol.Run(states, acts) && i <= j <= |acts|
    ensures states[i].w.versions <= states[j].w.versions && states[i].w.authors <= states[j].w.authors
    decreases j
  {
    if i < j {
      HistoryGrows(states, acts, i, j - 1);
      RunWorld(states, acts, j - 1);
      assert StepAt(states, acts, j - 1);
      HistoryStep(states[j - 1], acts[j - 1], states[j]);
    }
  }

  /** xSync returns OK to client c, having written at least one range. */
  predicate SyncReturnsOk(s: System, a: Action, c: nat) {
    a.SyncDone? && a.c == c && c in s.clients && s.clients[c].pc.Putting? && s.clients[c].pc.rs != []
  }

  /** What such a sync means, given the state right after the grant and the state at the end. */
  ghost predicate OwnTransaction(g: System, s: System, c: nat) {
    && c in g.clients && c in s.clients && g.clients[c].file.ps > 0
    && var own, f := s.clients[c].own, s.clients[c].file;
    // at the grant, the client's clean pages were the blob
    && WB.Agrees(g.clients[c].file, g.w.server.blob)
    // from the grant to the last write of the sync, only this client changed the blob
    && g.w.server.etag <= own < |s.w.authors| == |s.w.versions|
    && (forall v :: g.w.server.etag < v <= own ==> s.w.authors[v] == c)
    // that last write left exactly the client's file
    && f.nData <= |f.cache|
    && s.w.versions[own] == Resize(WB.Contents(f), AlignUp(f.nData))
    // and if the server still has the lease on record, that is the blob when xSync returns
    && (Holds(s.w, s.clients[c]) ==> s.w.server.etag == own && s.w.server.blob == Resize(WB.Contents(f), AlignUp(f.nData)))
  }

  /** What the end of such a sync knows about the grant. */
  ghost predicate OwnSync(s: System, c: nat)
    requires c in s.clients && s.clients[c].grant.Some?
  {
    var c0 := s.clients[c]; var g := c0.grant.value;
    && c0.file.nData <= |c0.file.cache|
    && g.version <= c0.own <= s.w.server.etag && |s.w.versions| == |s.w.authors| == s.w.server.etag + 1
    && (forall v :: g.version < v <= c0.own ==> s.w.authors[v] == c)
    && g.file.ps > 0 && WB.Agrees(g.file, s.w.versions[g.version])
    && s.w.versions[c0.own] == Resize(WB.Contents(c0.file), AlignUp(c0.file.nData))
    && (Holds(s.w, c0) ==> s.w.server.etag == c0.own && s.w.server.blob == s.w.versions[c0.own])
  }

  lemma SyncOkFacts(s: System, a: Action, s': System, c: nat)
    requires SysInv(s) && Next(s, a, s') && SyncReturnsOk(s, a, c) && s.clients[c].trusted
    ensures s.clients[c].grant.Some? && OwnSync(s, c)
  {
    assert ClientInv(s.w, c, s.clients[c]);
    SyncDoneKeeps(s.w, c, s.clients[c], a);
  }

  /** No lost update: when a sync that had anything to write returns OK to a client with a
      trusted cache, there is the step i at which RESERVED was granted, under the same lease, and
      the whole transaction from there on was the client's own. */
  lemma NoLostUpdate(states: seq<System>, acts: seq<Action>, j: nat, c: nat) returns (i: nat)
    requires LockProtocol.Run(states, acts) && j < |acts| && SyncReturnsOk(states[j], acts[j], c)
    requires states[j].clients[c].trusted
    ensures i < j && Grants(states[i], states[i + 1], c)
    ensures HeldLease(states, i + 1, j, c, states[j].clients[c].lease)
    ensures OwnTransaction(states[i + 1], states[j], c)
  {
    SyncInRun(states, acts, j, c);
    i := GrantWasTaken(states, acts, j, c);
    RunWorld(states, acts, i + 1);
    HistoryGrows(states, acts, i + 1, j);
    TransactionIsOwn(states[i + 1], states[j], c);
  }

  lemma RunWorld(states: seq<System>, acts: seq<Action>, i: nat)
    requires LockProtocol.Run(states, acts) && i <= |acts|
    ensures WorldInv(states[i].w)
  {
    RunInv(states, acts, i);
  }

  lemma SyncInRun(states: seq<System>, acts: seq<Action>, j: nat, c: nat)
    requires LockProtocol.Run(states, acts) && j < |acts| && SyncReturnsOk(states[j], acts[j], c) && states[j].clients[c].trusted
    ensures states[j].clients[c].grant.Some? && OwnSync(states[j], c)
  {
    RunInv(states, acts, j);
    assert StepAt(states, acts, j);
    SyncOkFacts(states[j], acts[j], states[j + 1], c);
  }

  lemma TransactionIsOwn(g: System, s: System, c: nat)
    requires WorldInv(g.w) && g.w.versions <= s.w.versions && c in s.clients && s.clients[c].grant.Some?
    requires DescribesWorld(s.clients[c].grant.value, g, c) && OwnSync(s, c)
    ensures OwnTransaction(g, s, c)
  {}
}
