/** The locking protocol of sqlite_objs_vfs.c as a state machine: any number of clients, one
    blob server, and an environment that may send the server any request of its own.

    One action is one server request together with the local work up to the next request.
    Downloads and syncs therefore interleave with everybody else, request by request, and the
    clock may advance (so leases may expire) between any two actions. Clients use prefetch=all
    without cache reuse. */
module LockProtocol {
  import opened Options
  import opened Bytes
  import opened BlobServer
  import opened AzureErrors
  import DirtyRanges
  import WB = WriteBack

  // SQLite lock levels.
  const NONE: nat := 0
  const SHARED: nat := 1
  const RESERVED: nat := 2
  const EXCLUSIVE: nat := 4

  /** The server and the history of its blob: `versions[e]` is the blob that carried ETag `e`
      and `authors[e]` the client that produced it. */
  datatype World = World(server: Server, versions: seq<seq<byte>>, authors: seq<int>)

  const OUTSIDER: int := -1

  /** Where a client stands inside an operation. */
  datatype Pc =
    | Closed                                                     // not open
    | Idle
    | Fetching(target: nat, size: nat, got: map<nat, byte>)      // refreshMainDbCache
    | Confirming(target: nat)                                    // lease held, HEAD to be sent
    | BackingOff                                                 // revalidation failed, lease to be released
    | Sizing                                                     // xSync, resize to be sent
    | Putting(rs: seq<DirtyRanges.Range>, done: set<nat>, tags: set<nat>)

  /** What was true when RESERVED was granted. Only observed, never used by the code. */
  datatype Grant = Grant(version: nat, file: WB.File, current: bool, trusted: bool)

  datatype Client = Client(
    pc: Pc,
    lock: nat,                 // eLock
    lease: Option<nat>,        // leaseId
    etag: Option<nat>,         // stored ETag, None when empty
    file: WB.File,
    nReads: nat,               // readsSinceSharedLock
    seen: map<nat, byte>,      // observed: latest byte SQLite read or wrote since SHARED
    trusted: bool,             // observed: see below
    grant: Option<Grant>,      // observed
    own: nat)                  // observed: the version it created, was granted or last produced

  // `trusted` says that the cache was downloaded completely, or created with the blob, and that since
  // then no download, lease renewal during a write, or truncation has failed and RESERVED was not
  // granted over a blob that changed since its creation. The code keeps no such flag and carries on
  // either way.

  datatype System = System(w: World, clients: map<nat, Client>)

  datatype Action =
    | Tick(seconds: nat)
    | Outside(q: Request)
    | Open(c: nat)
    | Fetch(c: nat, off: nat, len: nat)
    | Install(c: nat)
    | FetchFails(c: nat, delivered: bool)          // delivered: the release reaches the server
    | LockShared(c: nat)
    | LockReserved(c: nat, target: nat, duration: nat, told: bool)
    | Confirm(c: nat)
    | ConfirmFails(c: nat)
    | BackOff(c: nat, delivered: bool)
    | Raise(c: nat, target: nat)
    | Read(c: nat, o: nat)
    | Write(c: nat, at: nat, d: seq<byte>, renew: bool, acked: bool)   // acked: the client gets the answer
    | Truncate(c: nat, size: nat, acked: bool)
    | SyncStart(c: nat, renew: bool, acked: bool, rs: seq<DirtyRanges.Range>)
    | SyncResize(c: nat, acked: bool, rs: seq<DirtyRanges.Range>)
    | SyncPut(c: nat, k: nat, acked: bool)
    | SyncRenew(c: nat, acked: bool)               // renewals while ranges are written
    | SyncDone(c: nat, tag: nat)
    | SyncGivesUp(c: nat)
    | Unlock(c: nat, level: nat, delivered: bool)

  // ------------------------------------------------------------------ the server side

  /** Send one request; a change of the blob becomes a new version. */
  function Send(w: World, q: Request, author: int): (World, Response) {
    var (s, r) := Serve(w.server, q);
    if s.etag == w.server.etag then (w.(server := s), r)
    else (World(s, w.versions + [s.blob], w.authors + [author]), r)
  }

  // ------------------------------------------------------------------ the client side

  /** The version the cache stands for: that of the stored ETag, else the client's own. */
  function Basis(c: Client): nat { if c.etag.Some? then c.etag.value else c.own }

  /** The lock is granted: xLock returns OK. */
  function Granted(c: Client, w: World, target: nat): Client {
    var current := Basis(c) == w.server.etag;
    var trusted := c.trusted && (c.etag.Some? || current);
    c.(pc := Idle, lock := target, own := w.server.etag, trusted := trusted,
       grant := Some(Grant(w.server.etag, c.file, current, trusted)))
  }

  /** refreshMainDbCache begins: the new ETag is stored before the download. */
  function StartFetch(c: Client, w: World, target: nat): Client {
    c.(pc := Fetching(target, |w.server.blob|, map[]), etag := Some(w.server.etag))
  }

  /** The download is complete and becomes the cache. */
  function Fetched(c: Client): WB.File
    requires c.pc.Fetching? && (forall o :: 0 <= o < c.pc.size ==> o in c.pc.got) && c.file.ps > 0
  {
    c.file.(cache := seq(c.pc.size, o requires 0 <= o < c.pc.size => c.pc.got[o]), nData := c.pc.size, dirty := {},
            cap := Max(c.file.cap, PageCount(c.pc.size, c.file.ps)), synced := c.pc.size)
  }

  function Overwrite(seen: map<nat, byte>, at: nat, d: seq<byte>): map<nat, byte> {
    map o | o in seen :: if at <= o < at + |d| then d[o - at] else seen[o]
  }

  function Forget(seen: map<nat, byte>, size: nat): map<nat, byte> {
    map o | o in seen && o < size :: seen[o]
  }

  /** The request a sync sends for range k. */
  function PutRequest(c: Client, k: nat): Request
    requires c.pc.Putting? && k < |c.pc.rs|
  {
    PutPage(c.pc.rs[k].off, Window(c.file.cache, c.pc.rs[k].off, c.pc.rs[k].len), c.lease)
  }

  /** leaseRenewIfNeeded, where `renew` says whether the lease is old enough. */
  function Renewal(w: World, c: Client, id: nat, renew: bool, acked: bool): (World, bool) {
    if renew && c.lease.Some? then
      var (w1, r) := Send(w, BlobServer.Renew(c.lease.value), id);
      (w1, r.err == Ok && acked)
    else (w, true)
  }

  /** Best-effort release of the client's lease. */
  function Released(w: World, c: Client, id: nat, delivered: bool): World {
    if delivered && c.lease.Some? then Send(w, Release(c.lease.value), id).0 else w
  }

  predicate ByClient(a: Action) { !a.Tick? && !a.Outside? }

  /** May the client take the action now? SQLite's own rules: reads need SHARED; writes,
      truncations and syncs need RESERVED; truncation shrinks to a sector boundary. */
  ghost predicate Ready(c: Client, a: Action)
    requires ByClient(a)
  {
    c.file.ps > 0 &&
    match a
    case Open(_) => c.pc.Closed?
    case Fetch(_, off, len) => c.pc.Fetching? && off + len <= c.pc.size
    case Install(_) => c.pc.Fetching? && forall o :: 0 <= o < c.pc.size ==> o in c.pc.got
    case FetchFails(_, _) => c.pc.Fetching?
    case LockShared(_) => c.pc.Idle? && c.lock == NONE
    case LockReserved(_, target, _, _) => c.pc.Idle? && c.lock == SHARED && RESERVED <= target <= EXCLUSIVE
    case Confirm(_) => c.pc.Confirming?
    case ConfirmFails(_) => c.pc.Confirming?
    case BackOff(_, _) => c.pc.BackingOff?
    case Raise(_, target) => c.pc.Idle? && RESERVED <= c.lock < target <= EXCLUSIVE
    case Read(_, o) => c.pc.Idle? && c.lock >= SHARED
    case Write(_, _, _, _, _) => c.pc.Idle? && c.lock >= RESERVED
    case Truncate(_, size, _) => c.pc.Idle? && c.lock >= RESERVED && size <= c.file.nData && size % SECTOR == 0
    case SyncStart(_, _, _, rs) => c.pc.Idle? && c.lock >= RESERVED && c.file.dirty != {} && RangesOf(c, rs)
    case SyncResize(_, _, rs) => c.pc.Sizing? && RangesOf(c, rs)
    case SyncPut(_, k, _) => c.pc.Putting? && k < |c.pc.rs|
    case SyncRenew(_, _) => c.pc.Putting?
    case SyncDone(_, tag) =>
      && c.pc.Putting? && (forall k :: 0 <= k < |c.pc.rs| ==> k in c.pc.done)
      && (c.pc.rs != [] ==> tag in c.pc.tags)
    case SyncGivesUp(_) => c.pc.Putting?
    case Unlock(_, level, _) => c.pc.Idle? && level < c.lock && level <= SHARED
  }

  /** `rs` is what coalesceDirtyRanges yields for the file. */
  ghost predicate RangesOf(c: Client, rs: seq<DirtyRanges.Range>)
    requires c.file.ps > 0
  {
    DirtyRanges.Exact(rs, c.file.dirty, c.file.ps, c.file.nData)
  }

  /** The environment may send anything except a client's own lease ID. */
  ghost predicate Enabled(s: System, a: Action) {
    if a.Tick? then true
    else if a.Outside? then
      !a.q.Wait? && forall i :: i in s.clients && s.clients[i].lease.Some? ==> !Carries(a.q, s.clients[i].lease.value)
    else a.c in s.clients && Ready(s.clients[a.c], a)
  }

  /** The action's effect on the server and on the acting client. */
  ghost function Act(w: World, id: nat, c: Client, a: Action): (World, Client)
    requires ByClient(a) && Ready(c, a)
  {
    match a
    case Open(_) =>
      var w1 := Send(w, Head, id).0;
      (w1, StartFetch(c.(lock := NONE, lease := None, grant := None, nReads := 0, seen := map[]), w1, NONE))
    case Fetch(_, off, len) =>
      (w, c.(pc := c.pc.(got := c.pc.got + map o: nat | off <= o < off + len :: At(w.server.blob, o))))
    case Install(_) =>
      var c1 := c.(file := Fetched(c), trusted := true);
      (w, if c.pc.target <= SHARED then c1.(pc := Idle, lock := c.pc.target) else Granted(c1, w, c.pc.target))
    case FetchFails(_, delivered) =>
      (Released(w, c, id, delivered), c.(pc := if c.pc.target == NONE then Closed else Idle, lease := None, trusted := false))
    case LockShared(_) =>
      var c1 := c.(nReads := 0, seen := map[]);
      if c.etag.None? then (w, c1.(lock := SHARED))
      else
        var w1 := Send(w, Head, id).0;
        (w1, if c.etag == Some(w1.server.etag) then c1.(lock := SHARED) else StartFetch(c1, w1, SHARED))
    case LockReserved(_, target, duration, told) =>
      var (w1, r) := Send(w, Acquire(duration), id);
      if r.err != Ok then (w1, c)
      else
        var c1 := c.(lease := Some(r.leaseId));
        (w1, if c.etag.None? || (told && c.etag == Some(w1.server.etag)) then Granted(c1, w1, target)
             else c1.(pc := Confirming(target)))
    case Confirm(_) =>
      var w1 := Send(w, Head, id).0;
      (w1, if c.etag == Some(w1.server.etag) then Granted(c, w1, c.pc.target)
           else if c.nReads == 0 then StartFetch(c, w1, c.pc.target)
           else c.(pc := BackingOff))
    case ConfirmFails(_) => (w, c.(pc := BackingOff))
    case BackOff(_, delivered) => (Released(w, c, id, delivered), c.(pc := Idle, lease := None))
    case Raise(_, target) => (w, c.(lock := target))
    case Read(_, o) =>
      (w, c.(nReads := c.nReads + 1, seen := if o < c.file.nData then c.seen[o := At(c.file.cache, o)] else c.seen))
    case Write(_, at, d, renew, acked) =>
      var (w1, renewed) := Renewal(w, c, id, renew, acked);
      var c1 := c.(file := WB.Write(c.file, at, d), seen := Overwrite(c.seen, at, d));
      (w1, if renewed then c1 else c1.(file := c1.file.(dirty := c.file.dirty), trusted := false))
    case Truncate(_, size, acked) =>
      var (w1, r) := Send(w, SetSize(AlignUp(size), c.lease), id);
      if r.err != Ok then (w1, c)
      else if !acked then (w1, c.(own := w1.server.etag, trusted := false))
      else (w1, c.(file := WB.Truncate(WB.State(c.file, []), size).f, seen := Forget(c.seen, size), own := w1.server.etag))
    case SyncStart(_, renew, acked, rs) =>
      var (w1, renewed) := Renewal(w, c, id, renew, acked);
      (w1, if !renewed then c
           else if c.file.nData > c.file.synced then c.(pc := Sizing) else c.(pc := Putting(rs, {}, {})))
    case SyncResize(_, acked, rs) =>
      var (w1, r) := Send(w, SetSize(AlignUp(c.file.nData), c.lease), id);
      if r.err != Ok then (w1, c.(pc := Idle))
      else if !acked then (w1, c.(pc := Idle, own := w1.server.etag))
      else (w1, c.(pc := Putting(rs, {}, {}), own := w1.server.etag, file := c.file.(synced := c.file.nData)))
    case SyncPut(_, k, acked) =>
      var (w1, r) := Send(w, PutRequest(c, k), id);
      if r.err != Ok then (w1, c)
      else
        var c1 := c.(own := w1.server.etag);
        (w1, if acked then c1.(pc := c.pc.(done := c.pc.done + {k}, tags := c.pc.tags + {w1.server.etag})) else c1)
    case SyncRenew(_, acked) =>
      var (w1, renewed) := Renewal(w, c, id, true, acked);
      (w1, if renewed then c else c.(pc := Idle))
    case SyncDone(_, tag) =>
      (w, c.(pc := Idle, file := c.file.(dirty := {}), etag := if c.pc.rs == [] then c.etag else Some(tag)))
    case SyncGivesUp(_) => (w, c.(pc := Idle))
    case Unlock(_, level, delivered) =>
      (Released(w, c, id, delivered), c.(lock := level, lease := None, grant := None))
  }

  ghost predicate Next(s: System, a: Action, s': System) {
    && Enabled(s, a)
    && if a.Tick? then s' == s.(w := Send(s.w, Wait(a.seconds), OUTSIDER).0)
       else if a.Outside? then s' == s.(w := Send(s.w, a.q, OUTSIDER).0)
       else
         var (w, c) := Act(s.w, a.c, s.clients[a.c], a);
         s' == System(w, s.clients[a.c := c])
  }

  /** A client that created the blob: empty, and with no ETag stored. */
  function Creator(ps: nat, version: nat): Client
    requires ps > 0
  {
    Client(Idle, NONE, None, None, WB.File(ps, [], 0, {}, 0, 0), 0, map[], true, None, version)
  }

  function Absent(ps: nat): Client {
    Client(Closed, NONE, None, None, WB.File(ps, [], 0, {}, 0, 0), 0, map[], false, None, 0)
  }

  /** Not open, or the creator of the blob the server has just been given. */
  predicate Fresh(c: Client, w: World) {
    && LegalPageSize(c.file.ps)
    && (c == Absent(c.file.ps) || (c == Creator(c.file.ps, w.server.etag) && w.server.blob == []))
  }

  /** Initially the blob exists, nobody holds a lease, and each client is either not open or has
      just created the empty blob. */
  ghost predicate Init(s: System) {
    && s.w.server.lease == Available && |s.w.server.blob| % SECTOR == 0
    && |s.w.versions| == |s.w.authors| == s.w.server.etag + 1
    && s.w.versions[s.w.server.etag] == s.w.server.blob
    && forall i :: i in s.clients ==> Fresh(s.clients[i], s.w)
  }

  ghost predicate Run(states: seq<System>, acts: seq<Action>) {
    && |states| == |acts| + 1 && Init(states[0])
    && forall i :: 0 <= i < |acts| ==> StepAt(states, acts, i)
  }

  ghost predicate StepAt(states: seq<System>, acts: seq<Action>, i: nat)
    requires i < |acts| && |states| == |acts| + 1
  {
    Next(states[i], acts[i], states[i + 1])
  }
}
