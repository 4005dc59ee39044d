/** What the locking protocol achieves, not only what it prevents: when every request is answered and
    nobody else moves, each operation of a client ends, and ends as SQLite expects. */
module LockProgress {
  import opened Options
  import opened Bytes
  import opened BlobServer
  import opened AzureErrors
  import opened LockProtocol
  import opened LockSafety
  import DirtyRanges
  import WB = WriteBack

  /** The step is not one of those that a lost answer causes. */
  predicate Answered(a: Action) {
    match a
    case FetchFails(_, _) => false
    case ConfirmFails(_) => false
    case SyncGivesUp(_) => false
    case BackOff(_, delivered) => delivered
    case Unlock(_, _, delivered) => delivered
    case Write(_, _, _, _, acked) => acked
    case Truncate(_, _, acked) => acked
    case SyncStart(_, _, acked, _) => acked
    case SyncResize(_, acked, _) => acked
    case SyncPut(_, _, acked) => acked
    case SyncRenew(_, acked) => acked
    case _ => true
  }

  /** The world and client i. */
  datatype Point = Point(w: World, c: Client)

  ghost predicate SoloStep(i: nat, p: Point, a: Action, p': Point) {
    && ByClient(a) && a.c == i && Ready(p.c, a) && Answered(a)
    && Act(p.w, i, p.c, a) == (p'.w, p'.c)
  }

  ghost predicate StepAt(i: nat, ps: seq<Point>, acts: seq<Action>, k: nat)
    requires k < |acts| && |ps| == |acts| + 1
  {
    SoloStep(i, ps[k], acts[k], ps[k + 1])
  }

  /** Client i alone, every request answered. */
  ghost predicate Solo(i: nat, ps: seq<Point>, acts: seq<Action>) {
    |ps| == |acts| + 1 && forall k :: 0 <= k < |acts| ==> StepAt(i, ps, acts, k)
  }

  lemma Extend(i: nat, ps: seq<Point>, acts: seq<Action>, a: Action, p: Point)
    requires Solo(i, ps, acts) && SoloStep(i, ps[|acts|], a, p)
    ensures Solo(i, ps + [p], acts + [a])
  {
    var longer, more := ps + [p], acts + [a];
    forall k | 0 <= k < |more| ensures StepAt(i, longer, more, k) {
      if k < |acts| { assert StepAt(i, ps, acts, k); }
    }
  }

  /** The next point. */
  ghost function After(i: nat, p: Point, a: Action): Point
    requires ByClient(a) && Ready(p.c, a)
  {
    var (w, c) := Act(p.w, i, p.c, a);
    Point(w, c)
  }

  /** The blob has not changed. */
  predicate SameBlob(p: Point, p': Point) {
    p'.w.server.blob == p.w.server.blob && p'.w.server.etag == p.w.server.etag && p'.w.server.now == p.w.server.now
  }

  /** The client's lease is live. */
  predicate Holding(p: Point) { p.c.lease.Some? && Live(p.w.server, p.c.lease.value) }

  /** The file is the blob, as a download leaves it. */
  predicate IsBlob(f: WB.File, blob: seq<byte>) {
    f.cache == blob && f.nData == f.synced == |blob| && f.dirty == {}
  }

  // ------------------------------------------------------------------ xLock

  /** Inside xLock(RESERVED) of a client that started at p: nothing is decided against it yet, or the
      blob changed under what it has read. */
  ghost predicate Reserves(p: Point, now: Point, target: nat) {
    && SameBlob(p, now) && Holding(now) && now.c.file == p.c.file && now.c.nReads == p.c.nReads && now.c.lock == p.c.lock
    && now.c.trusted == p.c.trusted && now.c.seen == p.c.seen
    && match now.c.pc
       case Confirming(t) => t == target && now.c.etag == p.c.etag
       case BackingOff => now.c.etag == p.c.etag != Some(p.w.server.etag) && p.c.nReads > 0
       case Fetching(t, size, got) =>
         && t == target && now.c.etag == Some(p.w.server.etag) != p.c.etag && p.c.nReads == 0
         && size == |p.w.server.blob| && forall o :: o in got ==> got[o] == At(p.w.server.blob, o)
       case _ => false
  }

  /** How xLock(RESERVED) ends for a client that started at p. */
  ghost predicate ReserveResult(p: Point, now: Point, target: nat) {
    && SameBlob(p, now) && now.c.pc == Idle
    && if p.c.etag == Some(p.w.server.etag) || p.c.nReads == 0
       then
         && now.c.lock == target && Holding(now) && now.c.etag == Some(p.w.server.etag)
         && (if p.c.etag == Some(p.w.server.etag) then now.c.file == p.c.file && now.c.trusted == p.c.trusted
             else IsBlob(now.c.file, p.w.server.blob) && now.c.trusted)
       else now.c.lock == SHARED && now.c.lease.None? && now.c.file == p.c.file && now.w.server.lease == Available
  }

  lemma ReserveStarts(i: nat, p: Point, a: Action)
    requires WorldInv(p.w) && a.LockReserved? && Ready(p.c, a) && p.c.etag.Some? && a.duration != 0 && NobodyLive(p.w.server)
    ensures var now := After(i, p, a); Reserves(p, now, a.target) || ReserveResult(p, now, a.target)
  {
    AcquireIff(p.w.server, a.duration);
  }

  lemma ReserveGoesOn(i: nat, p: Point, now: Point, target: nat, a: Action, next: Point)
    requires Reserves(p, now, target) && SoloStep(i, now, a, next) && p.c.lock == SHARED && target >= RESERVED
    ensures Reserves(p, next, target) || ReserveResult(p, next, target)
  {
    if a.Install? { SameView(Fetched(now.c).cache, p.w.server.blob); }
  }

  /** xLock at RESERVED or above, of a client with a stored ETag while nobody holds the lease: it is
      granted, with the lease live, over the current blob, also when the blob has changed since SHARED
      and nothing has been read yet; and it is refused, with no lease left behind, exactly if the blob
      has changed and something has been read. */
  lemma {:induction false} ReserveOutcome(i: nat, ps: seq<Point>, acts: seq<Action>)
    requires Solo(i, ps, acts) && |acts| > 0 && acts[0].LockReserved? && acts[0].duration != 0
    requires WorldInv(ps[0].w) && ps[0].c.etag.Some? && NobodyLive(ps[0].w.server)
    requires forall k :: 0 < k < |acts| ==> Reserving(ps[k].c)
    ensures Reserving(ps[|acts|].c) ==> Reserves(ps[0], ps[|acts|], acts[0].target)
    ensures !Reserving(ps[|acts|].c) ==> ReserveResult(ps[0], ps[|acts|], acts[0].target)
  {
    var n := |acts|;
    assert StepAt(i, ps, acts, 0) && StepAt(i, ps, acts, n - 1);
    if n == 1 {
      ReserveStarts(i, ps[0], acts[0]);
    } else {
      SoloPrefix(i, ps, acts, n - 1);
      ReserveOutcome(i, ps[..n], acts[..n - 1]);
      ReserveGoesOn(i, ps[0], ps[n - 1], acts[0].target, acts[n - 1], ps[n]);
    }
  }

  lemma SoloPrefix(i: nat, ps: seq<Point>, acts: seq<Action>, n: nat)
    requires Solo(i, ps, acts) && n <= |acts|
    ensures Solo(i, ps[..n + 1], acts[..n])
  {
    var fewer, less := ps[..n + 1], acts[..n];
    forall k | 0 <= k < n ensures StepAt(i, fewer, less, k) {
      assert StepAt(i, ps, acts, k);
    }
  }

  /** And there is such a run: xLock does end. */
  lemma ReserveFinishes(i: nat, p: Point, a: Action) returns (ps: seq<Point>, acts: seq<Action>)
    requires WorldInv(p.w) && a.LockReserved? && a.c == i && Ready(p.c, a)
    requires p.c.etag.Some? && a.duration != 0 && NobodyLive(p.w.server)
    ensures Solo(i, ps, acts) && ps[0] == p && |acts| > 0 && acts[0] == a
    ensures (forall k :: 0 < k < |acts| ==> Reserving(ps[k].c)) && !Reserving(ps[|acts|].c)
  {
    ReserveStarts(i, p, a);
    ps, acts := Grow(i, [p], [], a);
    if ps[|acts|].c.pc.Confirming? {
      ReserveGoesOn(i, p, ps[|acts|], a.target, Confirm(i), After(i, ps[|acts|], Confirm(i)));
      ps, acts := Grow(i, ps, acts, Confirm(i));
    }
    if Reserving(ps[|acts|].c) { ps, acts := FinishReserve(i, p, a, ps, acts); }
  }

  lemma FinishReserve(i: nat, p: Point, a: Action, ps: seq<Point>, acts: seq<Action>)
    returns (longer: seq<Point>, more: seq<Action>)
    requires Solo(i, ps, acts) && ps[0] == p && |acts| > 0 && acts[0] == a && a.LockReserved? && p.c.lock == SHARED && a.target >= RESERVED
    requires (forall k :: 0 < k <= |acts| ==> Reserving(ps[k].c)) && Reserves(p, ps[|acts|], a.target)
    requires !ps[|acts|].c.pc.Confirming? && ps[|acts|].c.file.ps > 0
    ensures Solo(i, longer, more) && longer[0] == p && |more| > 0 && more[0] == a
    ensures (forall k :: 0 < k < |more| ==> Reserving(longer[k].c)) && !Reserving(longer[|more|].c)
  {
    if ps[|acts|].c.pc.BackingOff? {
      longer, more := Grow(i, ps, acts, BackOff(i, true));
    } else {
      var fetch := Fetch(i, 0, ps[|acts|].c.pc.size);
      ReserveGoesOn(i, p, ps[|acts|], a.target, fetch, After(i, ps[|acts|], fetch));
      longer, more := Grow(i, ps, acts, fetch);
      longer, more := Grow(i, longer, more, Install(i));
    }
  }

  lemma Grow(i: nat, ps: seq<Point>, acts: seq<Action>, a: Action) returns (longer: seq<Point>, more: seq<Action>)
    requires Solo(i, ps, acts) && ByClient(a) && a.c == i && Ready(ps[|acts|].c, a) && Answered(a)
    ensures longer == ps + [After(i, ps[|acts|], a)] && more == acts + [a] && Solo(i, longer, more)
  {
    longer, more := ps + [After(i, ps[|acts|], a)], acts + [a];
    Extend(i, ps, acts, a, After(i, ps[|acts|], a));
  }

  /** Inside xOpen (target NONE) or xLock(SHARED): the download is under way. */
  ghost predicate Downloads(p: Point, now: Point, target: nat) {
    && SameBlob(p, now) && now.c.pc.Fetching? && now.c.pc.target == target && now.c.etag == Some(p.w.server.etag)
    && now.c.nReads == 0 && now.c.seen == map[] && now.c.lease.None? && now.c.file.ps == p.c.file.ps
    && now.c.pc.size == |p.w.server.blob| && forall o :: o in now.c.pc.got ==> now.c.pc.got[o] == At(p.w.server.blob, o)
  }

  /** How xOpen and xLock(SHARED) end: over the current blob, with nothing read yet. */
  ghost predicate SharedResult(p: Point, now: Point, target: nat) {
    && SameBlob(p, now) && now.c.pc == Idle && now.c.lock == target && now.c.nReads == 0 && now.c.seen == map[]
    && if p.c.pc.Idle? && (p.c.etag.None? || p.c.etag == Some(p.w.server.etag))
       then now.c.etag == p.c.etag && now.c.file == p.c.file && now.c.trusted == p.c.trusted
       else now.c.etag == Some(p.w.server.etag) && IsBlob(now.c.file, p.w.server.blob) && now.c.trusted
  }

  predicate Opening(a: Action) { a.Open? || a.LockShared? }

  function TargetOf(a: Action): nat { if a.Open? then NONE else SHARED }

  lemma SharedStarts(i: nat, p: Point, a: Action)
    requires WorldInv(p.w) && ClientInv(p.w, i, p.c) && Opening(a) && Ready(p.c, a)
    ensures var now := After(i, p, a); Downloads(p, now, TargetOf(a)) || SharedResult(p, now, TargetOf(a))
    ensures After(i, p, a).c.pc.Fetching? ==> Downloads(p, After(i, p, a), TargetOf(a)) && (p.c.pc.Idle? ==> p.c.etag.Some? && p.c.etag != Some(p.w.server.etag))
  {}

  lemma SharedGoesOn(i: nat, p: Point, now: Point, target: nat, a: Action, next: Point)
    requires Downloads(p, now, target) && SoloStep(i, now, a, next) && target <= SHARED
    requires p.c.pc.Idle? ==> p.c.etag.Some? && p.c.etag != Some(p.w.server.etag)
    ensures Downloads(p, next, target) || SharedResult(p, next, target)
  {
    if a.Install? { SameView(Fetched(now.c).cache, p.w.server.blob); }
  }

  /** xOpen and xLock(SHARED): whenever the stored ETag is not the blob's, the file is downloaded again
      before SQLite reads anything; otherwise it stays as it is. */
  lemma {:induction false} SharedOutcome(i: nat, ps: seq<Point>, acts: seq<Action>)
    requires Solo(i, ps, acts) && |acts| > 0 && Opening(acts[0]) && WorldInv(ps[0].w) && ClientInv(ps[0].w, i, ps[0].c)
    requires forall k :: 0 < k < |acts| ==> ps[k].c.pc.Fetching?
    ensures ps[|acts|].c.pc.Fetching? ==> Downloads(ps[0], ps[|acts|], TargetOf(acts[0]))
    ensures !ps[|acts|].c.pc.Fetching? ==> SharedResult(ps[0], ps[|acts|], TargetOf(acts[0]))
    ensures |acts| > 1 && ps[0].c.pc.Idle? ==> ps[0].c.etag.Some? && ps[0].c.etag != Some(ps[0].w.server.etag)
  {
    var n := |acts|;
    assert StepAt(i, ps, acts, 0) && StepAt(i, ps, acts, n - 1);
    SharedStarts(i, ps[0], acts[0]);
    if n > 1 {
      SoloPrefix(i, ps, acts, n - 1);
      SharedOutcome(i, ps[..n], acts[..n - 1]);
      SharedGoesOn(i, ps[0], ps[n - 1], TargetOf(acts[0]), acts[n - 1], ps[n]);
    }
  }

  /** And they do end. */
  lemma SharedFinishes(i: nat, p: Point, a: Action) returns (ps: seq<Point>, acts: seq<Action>)
    requires WorldInv(p.w) && ClientInv(p.w, i, p.c) && Opening(a) && a.c == i && Ready(p.c, a)
    ensures Solo(i, ps, acts) && ps[0] == p && |acts| > 0 && acts[0] == a
    ensures (forall k :: 0 < k < |acts| ==> ps[k].c.pc.Fetching?) && !ps[|acts|].c.pc.Fetching?
  {
    SharedStarts(i, p, a);
    ps, acts := Grow(i, [p], [], a);
    if ps[|acts|].c.pc.Fetching? {
      var fetch := Fetch(i, 0, ps[|acts|].c.pc.size);
      ps, acts := Grow(i, ps, acts, fetch);
      ps, acts := Grow(i, ps, acts, Install(i));
    }
  }

  // ------------------------------------------------------------------ single steps

  /** SQLite's file. */
  function Contents(c: Client): seq<byte>
    requires c.file.nData <= |c.file.cache|
  {
    c.file.cache[..c.file.nData]
  }

  /** A client at RESERVED or above whose lease is live. */
  ghost predicate Writing(i: nat, p: Point) {
    WorldInv(p.w) && ClientInv(p.w, i, p.c) && p.c.pc == Idle && p.c.lock >= RESERVED && Holding(p)
  }

  /** xRead reports a byte of the file and changes nothing. */
  lemma ReadOutcome(i: nat, p: Point, a: Action)
    requires a.Read? && Ready(p.c, a) && p.c.file.nData <= |p.c.file.cache|
    ensures var now := After(i, p, a);
      && now.w == p.w && now.c.file == p.c.file && now.c.lock == p.c.lock && now.c.nReads > 0
      && (a.o < |Contents(p.c)| ==> a.o in now.c.seen && now.c.seen[a.o] == Contents(p.c)[a.o])
  {}

  /** xWrite puts the bytes into the file, renewing the lease when that is due, and leaves the blob alone. */
  lemma WriteOutcome(i: nat, p: Point, a: Action)
    requires Writing(i, p) && a.Write? && Ready(p.c, a) && Answered(a)
    ensures var now := After(i, p, a);
      && Writing(i, now) && SameBlob(p, now) && now.c.lock == p.c.lock && now.c.lease == p.c.lease && now.c.trusted == p.c.trusted
      && Contents(now.c) == Splice(Contents(p.c), a.at, a.d)
      && (forall o: nat :: a.at <= o < a.at + |a.d| ==> !WB.Clean(now.c.file, o))
      && (a.renew ==> now.w.server.lease.since == now.w.server.now)
  {
    WriteKeepsClient(p.w, i, p.c, a);
    WrittenContents(p.c.file, a.at, a.d);
    WriteOutcomeStep(i, p, a);
  }

  lemma WriteOutcomeStep(i: nat, p: Point, a: Action)
    requires WorldInv(p.w) && a.Write? && Ready(p.c, a) && Answered(a) && Holding(p)
    ensures var now := After(i, p, a);
      && now.c == p.c.(file := WB.Write(p.c.file, a.at, a.d), seen := now.c.seen) && SameBlob(p, now) && Holding(now)
      && (a.renew ==> now.w.server.lease.since == now.w.server.now)
  {
    var s := p.w.server;
    assert Serve(s, BlobServer.Renew(p.c.lease.value)) == (s.(lease := s.lease.(since := s.now)), Response(Ok, 0));
  }

  lemma WrittenContents(f: WB.File, at: nat, d: seq<byte>)
    requires WB.WellFormed(f)
    ensures WB.WellFormed(WB.Write(f, at, d))
    ensures WB.Contents(WB.Write(f, at, d)) == Splice(WB.Contents(f), at, d)
    ensures forall o: nat :: at <= o < at + |d| ==> !WB.Clean(WB.Write(f, at, d), o)
  {
    WB.WriteKeepsShape(f, at, d);
    WB.WriteHasRoom(f, at, d);
    forall o: nat | at <= o < at + |d| ensures !WB.Clean(WB.Write(f, at, d), o) {
      StoredByteIsMarked(at, o, at + |d|, f.ps);
    }
    WB.StepRefines(WB.State(f, []), WB.WriteOp(at, d), WB.State(WB.Write(f, at, d), []));
  }

  /** xTruncate cuts the file and the blob. */
  lemma TruncateOutcome(i: nat, p: Point, a: Action)
    requires Writing(i, p) && a.Truncate? && Ready(p.c, a) && Answered(a)
    ensures var now := After(i, p, a);
      && Writing(i, now) && now.c.lock == p.c.lock && now.c.trusted == p.c.trusted
      && Contents(now.c) == Contents(p.c)[..a.size]
      && |now.w.server.blob| == a.size && forall o: nat :: o < a.size ==> At(now.w.server.blob, o) == At(p.w.server.blob, o)
  {
    TruncateKeepsClient(p.w, i, p.c, a);
    ResizeIff(p.w.server, AlignUp(a.size), p.c.lease);
  }

  /** xLock from RESERVED upwards reaches its target and changes nothing else. */
  lemma RaiseOutcome(i: nat, p: Point, a: Action)
    requires a.Raise? && Ready(p.c, a)
    ensures After(i, p, a) == Point(p.w, p.c.(lock := a.target))
  {}

  /** xUnlock reaches its level, keeps the file, the ETag and the blob, and leaves nobody with a lease
      that the client held. */
  lemma UnlockOutcome(i: nat, p: Point, a: Action)
    requires WorldInv(p.w) && ClientInv(p.w, i, p.c) && a.Unlock? && Ready(p.c, a) && Answered(a)
    ensures var now := After(i, p, a);
      && now.c.lock == a.level && now.c.pc == Idle && now.c.lease.None? && SameBlob(p, now)
      && now.c.file == p.c.file && now.c.etag == p.c.etag && now.c.trusted == p.c.trusted
      && (Holding(p) ==> NobodyLive(now.w.server))
  {
    if p.c.lease.Some? { ReleaseIff(p.w.server, p.c.lease.value); }
  }

  // ------------------------------------------------------------------ xSync

  /** Inside xSync of a client that started at p. */
  ghost predicate Syncs(i: nat, p: Point, now: Point) {
    && WorldInv(now.w) && ClientInv(now.w, i, now.c) && Holding(now) && (now.c.pc.Sizing? || now.c.pc.Putting?)
    && now.c.file == p.c.file.(synced := now.c.file.synced) && now.c.lock == p.c.lock && now.c.lease == p.c.lease
    && now.c.grant == p.c.grant && now.c.trusted == p.c.trusted && now.c.etag == p.c.etag
    && p.w.server.etag <= now.w.server.etag
    && (now.c.pc.Putting? ==> forall t :: t in now.c.pc.tags ==> p.w.server.etag < t)
  }

  /** How xSync ends: nothing is dirty, the blob is the file padded to a sector, and the stored ETag is
      one that this sync produced. */
  ghost predicate SyncResult(i: nat, p: Point, now: Point)
    requires p.c.file.ps > 0 && p.c.file.nData <= |p.c.file.cache|
  {
    && WorldInv(now.w) && ClientInv(now.w, i, now.c) && now.c.pc == Idle && Holding(now) && now.c.lock == p.c.lock
    && now.c.file.dirty == {} && now.c.file.nData == p.c.file.nData && now.c.file.cache == p.c.file.cache
    && now.w.server.blob == Resize(Contents(p.c), AlignUp(p.c.file.nData))
    && if Unsaved(p.c) then now.c.etag.Some? && p.w.server.etag < now.c.etag.value <= now.w.server.etag else now.c.etag == p.c.etag
  }

  /** Some dirty page reaches below EOF. */
  ghost predicate Unsaved(c: Client)
    requires c.file.ps > 0
  {
    exists o: nat :: WB.Flushable(c.file, o)
  }

  lemma SyncStarts(i: nat, p: Point, a: Action)
    requires Writing(i, p) && a.SyncStart? && Ready(p.c, a) && Answered(a)
    ensures Syncs(i, p, After(i, p, a))
  {
    SyncStartKeeps(p.w, i, p.c, a);
    RenewIff(p.w.server, p.c.lease.value, 0);
  }

  lemma SyncGoesOn(i: nat, p: Point, now: Point, a: Action, next: Point)
    requires Syncs(i, p, now) && SoloStep(i, now, a, next) && !a.SyncDone?
    ensures Syncs(i, p, next)
  {
    if a.SyncRenew? {
      SyncRenewKeeps(now.w, i, now.c, a);
      RenewIff(now.w.server, now.c.lease.value, 0);
    } else if a.SyncPut? {
      SyncPutKeeps(now.w, i, now.c, a);
      PutOk(i, now, a);
    } else {
      SyncResizeKeeps(now.w, i, now.c, a);
      ResizeIff(now.w.server, AlignUp(now.c.file.nData), now.c.lease);
    }
  }

  lemma SyncEnds(i: nat, p: Point, now: Point, a: Action, next: Point)
    requires Syncs(i, p, now) && SoloStep(i, now, a, next) && a.SyncDone? && p.c.grant.Some? && Sound(p.c)
    requires p.c.file.ps > 0 && p.c.file.nData <= |p.c.file.cache|
    ensures SyncResult(i, p, next)
  {
    SyncDoneKeeps(now.w, i, now.c, a);
    assert Holds(now.w, now.c);
    assert now.w.server.blob == now.w.versions[now.c.own];
    RangesIffUnsaved(now.c.file, now.c.pc.rs);
    assert forall o: nat :: WB.Flushable(now.c.file, o) <==> WB.Flushable(p.c.file, o);
  }

  /** There is a range to write exactly if something is unsaved. */
  lemma RangesIffUnsaved(f: WB.File, rs: seq<DirtyRanges.Range>)
    requires f.ps > 0 && DirtyRanges.Exact(rs, f.dirty, f.ps, f.nData)
    ensures rs != [] <==> exists o: nat :: WB.Flushable(f, o)
  {
    if rs != [] {
      assert DirtyRanges.Acceptable(rs[0], f.ps, f.nData);
      assert rs[0].Has(rs[0].off);
      assert DirtyRanges.Covered(rs, rs[0].off);
      assert WB.Flushable(f, rs[0].off);
    }
    if o: nat :| WB.Flushable(f, o) { assert DirtyRanges.Covered(rs, o); }
  }

  /** A range is accepted: it is aligned, and the lease is live. */
  lemma PutOk(i: nat, now: Point, a: Action)
    requires WorldInv(now.w) && ClientInv(now.w, i, now.c) && Holding(now) && a.SyncPut? && Ready(now.c, a) && a.acked
    ensures var next := After(i, now, a);
      && next.w.server.etag == now.w.server.etag + 1 && Holding(next)
      && next.c == now.c.(own := next.w.server.etag,
                          pc := now.c.pc.(done := now.c.pc.done + {a.k}, tags := now.c.pc.tags + {next.w.server.etag}))
  {
    assert DirtyRanges.Acceptable(now.c.pc.rs[a.k], now.c.file.ps, now.c.file.nData);
    WriteIff(now.w.server, now.c.pc.rs[a.k].off, Window(now.c.file.cache, now.c.pc.rs[a.k].off, now.c.pc.rs[a.k].len), now.c.lease);
  }

  /** xSync of a client whose transaction is sound: however its requests are ordered and repeated, the
      blob is the file when it ends. */
  lemma {:induction false} SyncOutcome(i: nat, ps: seq<Point>, acts: seq<Action>)
    requires Solo(i, ps, acts) && |acts| > 1 && acts[0].SyncStart? && Writing(i, ps[0]) && Sound(ps[0].c)
    requires forall k :: 0 < k < |acts| - 1 ==> !acts[k].SyncDone?
    ensures if acts[|acts| - 1].SyncDone? then SyncResult(i, ps[0], ps[|acts|]) else Syncs(i, ps[0], ps[|acts|])
  {
    var n := |acts|;
    assert StepAt(i, ps, acts, 0) && StepAt(i, ps, acts, n - 1);
    SyncStarts(i, ps[0], acts[0]);
    if n > 2 {
      SoloPrefix(i, ps, acts, n - 1);
      SyncOutcome(i, ps[..n], acts[..n - 1]);
    }
    if acts[n - 1].SyncDone? {
      SyncEnds(i, ps[0], ps[n - 1], acts[n - 1], ps[n]);
    } else {
      SyncGoesOn(i, ps[0], ps[n - 1], acts[n - 1], ps[n]);
    }
  }

  /** The run so far writes ranges 0 .. k-1 of rs. */
  ghost predicate PutsUpTo(i: nat, p: Point, ps: seq<Point>, acts: seq<Action>, rs: seq<DirtyRanges.Range>, k: nat) {
    && Solo(i, ps, acts) && |acts| > 0 && ps[0] == p && acts[0].SyncStart? && (forall j :: 0 < j < |acts| ==> !acts[j].SyncDone?)
    && Syncs(i, p, ps[|acts|]) && ps[|acts|].c.pc.Putting? && ps[|acts|].c.pc.rs == rs && k <= |rs|
    && (forall j :: 0 <= j < k ==> j in ps[|acts|].c.pc.done) && (k > 0 ==> ps[|acts|].c.pc.tags != {})
  }

  lemma StartSync(i: nat, p: Point, rs: seq<DirtyRanges.Range>) returns (ps: seq<Point>, acts: seq<Action>)
    requires Writing(i, p) && Sound(p.c) && Ready(p.c, SyncStart(i, false, true, rs))
    ensures PutsUpTo(i, p, ps, acts, rs, 0)
  {
    var start := SyncStart(i, false, true, rs);
    SyncStarts(i, p, start);
    ps, acts := Grow(i, [p], [], start);
    if ps[1].c.pc.Sizing? {
      var resize := SyncResize(i, true, rs);
      SyncGoesOn(i, p, ps[1], resize, After(i, ps[1], resize));
      ResizeIff(ps[1].w.server, AlignUp(ps[1].c.file.nData), ps[1].c.lease);
      ps, acts := Grow(i, ps, acts, resize);
    } else {
      assert ps[1].c.pc == Putting(rs, {}, {});
    }
  }

  lemma PutNext(i: nat, p: Point, ps: seq<Point>, acts: seq<Action>, rs: seq<DirtyRanges.Range>, k: nat)
    returns (longer: seq<Point>, more: seq<Action>)
    requires PutsUpTo(i, p, ps, acts, rs, k) && k < |rs|
    ensures PutsUpTo(i, p, longer, more, rs, k + 1)
  {
    var put, now := SyncPut(i, k, true), ps[|acts|];
    SyncGoesOn(i, p, now, put, After(i, now, put));
    PutOk(i, now, put);
    longer, more := Grow(i, ps, acts, put);
    assert After(i, now, put).w.server.etag in longer[|more|].c.pc.tags;
  }

  /** And xSync does end. */
  lemma SyncFinishes(i: nat, p: Point, rs: seq<DirtyRanges.Range>) returns (ps: seq<Point>, acts: seq<Action>)
    requires Writing(i, p) && Sound(p.c) && Ready(p.c, SyncStart(i, false, true, rs))
    ensures Solo(i, ps, acts) && |acts| > 1 && ps[0] == p && acts[0].SyncStart? && acts[|acts| - 1].SyncDone?
    ensures forall k :: 0 < k < |acts| - 1 ==> !acts[k].SyncDone?
  {
    ps, acts := StartSync(i, p, rs);
    var k := 0;
    while k < |rs|
      invariant k <= |rs| && PutsUpTo(i, p, ps, acts, rs, k)
    {
      ps, acts := PutNext(i, p, ps, acts, rs, k);
      k := k + 1;
    }
    var now := ps[|acts|];
    var tag: nat := 0;
    if |rs| > 0 { tag :| tag in now.c.pc.tags; }
    ps, acts := Grow(i, ps, acts, SyncDone(i, tag));
  }

  // ------------------------------------------------------------------ when a request fails

  /** Operations that send one request whose answer decides how they go on. */
  predicate Asks(a: Action) {
    a.LockReserved? || a.Write? || a.Truncate? || a.SyncStart? || a.SyncResize? || a.SyncPut? || a.SyncRenew?
  }

  /** The server accepts the request and the client learns it; or no request is needed. */
  ghost predicate Accepted(p: Point, a: Action)
    requires Asks(a)
  {
    match a
    case LockReserved(_, _, _, _) => NobodyLive(p.w.server)
    case Write(_, _, _, renew, acked) => renew && p.c.lease.Some? ==> acked && Holding(p)
    case SyncStart(_, renew, acked, _) => renew && p.c.lease.Some? ==> acked && Holding(p)
    case SyncRenew(_, acked) => p.c.lease.Some? ==> acked && Holding(p)
    case Truncate(_, _, acked) => acked && Admitted(p.w.server, p.c.lease)
    case SyncResize(_, acked, _) => acked && Admitted(p.w.server, p.c.lease)
    case SyncPut(_, _, acked) => acked && Admitted(p.w.server, p.c.lease)
  }

  /** Could the request change the blob although the client does not learn it? */
  predicate Strays(p: Point, a: Action) {
    (a.Truncate? || a.SyncResize? || a.SyncPut?) && Admitted(p.w.server, p.c.lease)
  }

  /** A failed request takes nothing back: lock, lease ID and ETag stay; so does the file, but for the
      bytes of a write, which stay unmarked. A resize or renewal that fails ends the sync, a failed range
      may be sent again, everything else leaves the client where it was. A refused request leaves the
      blob alone. */
  ghost predicate FailureResult(p: Point, a: Action, now: Point) {
    && now.c.lock == p.c.lock && now.c.lease == p.c.lease && now.c.etag == p.c.etag && now.c.nReads == p.c.nReads
    && now.c.pc == (if a.SyncResize? || a.SyncRenew? then Idle else p.c.pc)
    && now.c.trusted == (p.c.trusted && !a.Write? && !(a.Truncate? && Strays(p, a)))
    && (if a.Write? then now.c.file.dirty == p.c.file.dirty && now.c.file.synced == p.c.file.synced && Stored(p, a, now)
        else now.c.file == p.c.file && now.c.seen == p.c.seen)
    && (!Strays(p, a) ==> SameBlob(p, now))
  }

  ghost predicate Stored(p: Point, a: Action, now: Point)
    requires a.Write?
  {
    WB.WellFormed(p.c.file) ==> |now.c.file.cache| >= now.c.file.nData && Contents(now.c) == Splice(Contents(p.c), a.at, a.d)
  }

  lemma FailureOutcome(i: nat, p: Point, a: Action)
    requires ByClient(a) && Asks(a) && Ready(p.c, a) && !Accepted(p, a)
    ensures FailureResult(p, a, After(i, p, a))
  {
    if a.LockReserved? {
      AcquireIff(p.w.server, a.duration);
    } else if a.Write? {
      FailedWrite(i, p, a);
    } else if a.SyncStart? || a.SyncRenew? {
      RenewIff(p.w.server, p.c.lease.value, 0);
    } else {
      FailedChange(i, p, a);
    }
  }

  lemma FailedWrite(i: nat, p: Point, a: Action)
    requires a.Write? && Ready(p.c, a) && !Accepted(p, a)
    ensures FailureResult(p, a, After(i, p, a))
  {
    RenewIff(p.w.server, p.c.lease.value, 0);
    if WB.WellFormed(p.c.file) { WrittenContents(p.c.file, a.at, a.d); }
  }

  lemma FailedChange(i: nat, p: Point, a: Action)
    requires (a.Truncate? || a.SyncResize? || a.SyncPut?) && Ready(p.c, a) && !Accepted(p, a)
    ensures FailureResult(p, a, After(i, p, a))
  {
    match a
    case Truncate(_, size, _) => ResizeIff(p.w.server, AlignUp(size), p.c.lease);
    case SyncResize(_, _, _) => ResizeIff(p.w.server, AlignUp(p.c.file.nData), p.c.lease);
    case SyncPut(_, k, _) =>
      var r := p.c.pc.rs[k];
      WriteIff(p.w.server, r.off, Window(p.c.file.cache, r.off, r.len), p.c.lease);
  }
}
