/** The write-back cache of the main database file, as a state machine on values.

    A state is the local file (cache bytes, logical size, dirty pages, bitmap capacity,
    last synced size) together with the remote page blob. Its steps are xWrite, xTruncate
    and xSync; a sync may fail at any request, including one that the server applied but
    whose answer was lost. The methods of MainDbFile are proved to take exactly these steps. */
module WriteBack {
  import opened Bytes
  import PageBitmap

  datatype File = File(
    ps: nat,            // page size
    cache: seq<byte>,   // bytes of the cache file
    nData: nat,         // logical size
    dirty: set<nat>,    // pages whose dirty bit is set (bits past EOF may be stale)
    cap: nat,           // pages the dirty bitmap has room for
    synced: nat)        // lastSyncedSize

  datatype State = State(f: File, blob: seq<byte>)

  /** Page of byte `o` carries no dirty bit. */
  predicate Clean(f: File, o: nat)
    requires f.ps > 0
  {
    o / f.ps !in f.dirty
  }

  /** What the cache alone guarantees. The bitmap always has room for every page of the
      cache file, so no dirty mark is dropped. */
  ghost predicate WellFormed(f: File) {
    && LegalPageSize(f.ps)
    && f.synced <= f.nData <= |f.cache|
    && PageCount(|f.cache|, f.ps) <= f.cap
    && (forall p :: p in f.dirty ==> p < f.cap)
    && (forall o: nat :: f.nData <= o ==> At(f.cache, o) == 0)
  }

  /** Write-back agreement: outside dirty pages the cache is the blob below the synced size
      and zero above it, and the blob holds nothing above the synced size. */
  ghost predicate Agrees(f: File, blob: seq<byte>)
    requires f.ps > 0
  {
    && |blob| % SECTOR == 0
    && AlignUp(f.synced) <= |blob| <= AlignUp(f.nData)
    && (f.synced == f.nData ==> |blob| == AlignUp(f.nData))
    && (forall o: nat :: f.synced <= o ==> At(blob, o) == 0)
    && (forall o: nat {:trigger At(blob, o)} {:trigger At(f.cache, o)} ::
          o < f.nData && Clean(f, o) ==> At(blob, o) == At(f.cache, o))
  }

  ghost predicate Inv(s: State) {
    WellFormed(s.f) && Agrees(s.f, s.blob)
  }

  /** A freshly opened or refreshed file: everything downloaded, nothing dirty. */
  ghost predicate Opened(s: State) {
    && LegalPageSize(s.f.ps)
    && s.f.cache == s.blob && |s.blob| % SECTOR == 0
    && s.f.nData == s.f.synced == |s.blob|
    && s.f.dirty == {} && PageCount(|s.blob|, s.f.ps) <= s.f.cap
  }

  // ------------------------------------------------------------------ steps

  /** xWrite on the main database, lease renewal succeeding. */
  function Write(f: File, at: nat, d: seq<byte>): File
    requires f.ps > 0
  {
    var end := at + |d|;
    var extend := end > f.nData && end > |f.cache|;
    var cap := if extend then Max(f.cap, 8 * PageBitmap.BytesFor(end, f.ps)) else f.cap;
    var base := if extend then Resize(f.cache, end) else f.cache;
    f.(cache := Splice(base, at, d), nData := Max(f.nData, end), cap := cap,
       dirty := f.dirty + Span(at / f.ps, Min(PageCount(end, f.ps), cap)))
  }

  /** xTruncate with the blob resize succeeding. */
  function Truncate(s: State, size: nat): State {
    State(s.f.(cache := Resize(s.f.cache, size), nData := Min(size, s.f.nData), synced := size),
          Resize(s.blob, AlignUp(size)))
  }

  /** The byte belongs to a dirty page that reaches below EOF (rounded up to a sector). */
  predicate Flushable(f: File, o: nat)
    requires f.ps > 0
  {
    o < AlignUp(f.nData) && !Clean(f, o)
  }

  /** The blob after the size adjustment a sync makes before writing ranges. */
  function Sized(s: State): seq<byte> {
    if s.f.nData > s.f.synced then Resize(s.blob, AlignUp(s.f.nData)) else s.blob
  }

  /** The blob after a sync in which every range write was applied. */
  function Flushed(s: State): (r: seq<byte>)
    requires s.f.ps > 0
    ensures |r| == |Sized(s)|
    ensures forall o: nat {:trigger At(r, o)} :: At(r, o) ==
              if o < |Sized(s)| && Flushable(s.f, o) then At(s.f.cache, o) else At(Sized(s), o)
  {
    seq(|Sized(s)|, o requires 0 <= o => if Flushable(s.f, o) then At(s.f.cache, o) else At(Sized(s), o))
  }

  /** Reading the ranges may extend the cache file with zeros up to the sector boundary. */
  ghost predicate CachePadded(f: File, cache: seq<byte>) {
    && |f.cache| <= |cache| <= Max(|f.cache|, AlignUp(f.nData))
    && forall o: nat :: At(cache, o) == At(f.cache, o)
  }

  /** A sync that returned OK. */
  ghost predicate SyncOk(s: State, s': State)
    requires s.f.ps > 0
  {
    if s.f.dirty == {} then s' == s
    else
      && CachePadded(s.f, s'.f.cache)
      && s'.f == s.f.(cache := s'.f.cache, dirty := {}, synced := Max(s.f.synced, s.f.nData))
      && s'.blob == Flushed(s)
  }

  /** Any mixture of dirty bytes already written and not yet written. */
  ghost predicate PartlyFlushed(s: State, blob: seq<byte>)
    requires s.f.ps > 0
  {
    && |blob| == |Sized(s)|
    && forall o: nat :: || At(blob, o) == At(Sized(s), o)
                        || (Flushable(s.f, o) && At(blob, o) == At(s.f.cache, o))
  }

  /** A sync that returned an error: nothing sent, the resize lost (applied or not), or the
      resize acknowledged and the ranges written in part. The dirty set is kept. */
  ghost predicate SyncFailed(s: State, s': State)
    requires s.f.ps > 0
  {
    || s' == s
    || (s.f.nData > s.f.synced && s' == s.(blob := Sized(s)))
    || (&& CachePadded(s.f, s'.f.cache)
        && s'.f == s.f.(cache := s'.f.cache, synced := Max(s.f.synced, s.f.nData))
        && PartlyFlushed(s, s'.blob))
  }

  /** A sync that returned OK on the word of 1xx or 3xx answers: any part of the dirty bytes may
      be unwritten, and no page is dirty any more. */
  ghost predicate SyncHollow(s: State, s': State)
    requires s.f.ps > 0
  {
    if s.f.dirty == {} then s' == s
    else
      && CachePadded(s.f, s'.f.cache)
      && s'.f == s.f.(cache := s'.f.cache, dirty := {}, synced := Max(s.f.synced, s.f.nData))
      && PartlyFlushed(s, s'.blob)
  }

  datatype Outcome = Synced | Failed | Hollow

  datatype Op = WriteOp(at: nat, d: seq<byte>) | TruncateOp(size: nat) | SyncOp(outcome: Outcome)

  /** One step. Truncation may cut or extend the file anywhere. */
  ghost predicate Step(s: State, op: Op, s': State)
    requires s.f.ps > 0
  {
    match op
    case WriteOp(at, d) => s' == s.(f := Write(s.f, at, d))
    case TruncateOp(size) => s' == Truncate(s, size)
    case SyncOp(Synced) => SyncOk(s, s')
    case SyncOp(Failed) => SyncFailed(s, s')
    case SyncOp(Hollow) => SyncHollow(s, s')
  }

  /** The steps that keep agreement: a truncation must not extend the file, nor leave old bytes in
      the last sector of the blob; a hollow sync must have written everything after all. */
  ghost predicate Regular(s: State, op: Op, s': State)
    requires s.f.ps > 0
  {
    match op
    case TruncateOp(size) => size <= s.f.nData && forall o: nat :: size <= o < AlignUp(size) ==> At(s.blob, o) == 0
    case SyncOp(Hollow) => s.f.dirty == {} || s'.blob == Flushed(s)
    case _ => true
  }

  ghost predicate RegularUpTo(states: seq<State>, ops: seq<Op>, i: nat)
    requires Run(states, ops) && i <= |ops|
  {
    forall k :: 0 <= k < i ==> Regular(states[k], ops[k], states[k + 1])
  }

  ghost predicate Run(states: seq<State>, ops: seq<Op>) {
    && |states| == |ops| + 1
    && Opened(states[0])
    && (forall i {:trigger states[i]} :: 0 <= i < |states| ==> states[i].f.ps == states[0].f.ps)
    && forall i {:trigger ops[i]} :: 0 <= i < |ops| ==> Step(states[i], ops[i], states[i + 1])
  }

  // ------------------------------------------------------------------ agreement

  lemma OpenedInv(s: State)
    requires Opened(s)
    ensures Inv(s)
  {}

  /** The bitmap has room for every page of the grown file, so every mark is kept. */
  lemma WriteHasRoom(f: File, at: nat, d: seq<byte>)
    requires WellFormed(f)
    ensures PageCount(|Write(f, at, d).cache|, f.ps) <= Write(f, at, d).cap
    ensures Write(f, at, d).dirty == f.dirty + Span(at / f.ps, PageCount(at + |d|, f.ps))
  {
    if at + |d| <= |f.cache| {
      PagesMonotone(at + |d|, |f.cache|, f.ps);
    } else {
      assert |Write(f, at, d).cache| == at + |d|;
    }
  }

  lemma WriteKeepsShape(f: File, at: nat, d: seq<byte>)
    requires WellFormed(f)
    ensures WellFormed(Write(f, at, d))
  {
    WriteHasRoom(f, at, d);
  }

  lemma AlignMonotone(a: nat, b: nat)
    requires a <= b
    ensures AlignUp(a) <= AlignUp(b)
  {}

  lemma WriteKeeps(s: State, at: nat, d: seq<byte>)
    requires Inv(s)
    ensures Inv(s.(f := Write(s.f, at, d)))
  {
    var f, f' := s.f, Write(s.f, at, d);
    var end := at + |d|;
    WriteHasRoom(f, at, d);
    WriteKeepsShape(f, at, d);
    AlignMonotone(f.nData, f'.nData);
    forall o: nat | o < f'.nData && Clean(f', o) ensures At(s.blob, o) == At(f'.cache, o) {
      if at <= o < end { StoredByteIsMarked(at, o, end, f.ps); }
    }
  }

  /** A truncation keeps agreement exactly if it does not extend the file and the blob holds zeros
      between the new size and the next sector boundary, where it cannot be cut. */
  lemma TruncateKeepsIff(s: State, size: nat)
    requires Inv(s)
    ensures Inv(Truncate(s, size)) <==> Regular(s, TruncateOp(size), Truncate(s, size))
  {
    var t := Truncate(s, size);
    if size <= s.f.nData { PagesMonotone(size, |s.f.cache|, s.f.ps); }
    if Inv(t) {
      forall o: nat | size <= o < AlignUp(size) ensures At(s.blob, o) == 0 {
        assert At(t.blob, o) == At(s.blob, o);
      }
    }
  }

  /** Padding the cache to the sector boundary needs no further page of bitmap. */
  lemma PaddingKeeps(f: File, cache: seq<byte>)
    requires WellFormed(f) && CachePadded(f, cache)
    ensures WellFormed(f.(cache := cache))
  {
    AlignedPageCount(f.nData, f.ps);
    PagesMonotone(f.nData, |f.cache|, f.ps);
    PagesMonotone(|cache|, Max(|f.cache|, AlignUp(f.nData)), f.ps);
  }

  lemma SyncFailedKeeps(s: State, s': State)
    requires Inv(s) && SyncFailed(s, s')
    ensures Inv(s')
  {
    if s' != s && s'.f != s.f {
      PaddingKeeps(s.f, s'.f.cache);
    } else if s' != s && s'.f == s.f && !(s.f.nData > s.f.synced && s'.blob == Sized(s)) {
      PaddingKeeps(s.f, s'.f.cache);
    }
  }

  /** An OK sync leaves nothing dirty and the blob equal to the cache: the same bytes at
      every offset and, when there was anything to flush, exactly the padded file. */
  lemma SyncOkExact(s: State, s': State)
    requires Inv(s) && SyncOk(s, s')
    ensures Inv(s') && s'.f.dirty == {}
    ensures s'.f.nData == s.f.nData && Contents(s'.f) == Contents(s.f)
    ensures forall o: nat :: At(s'.blob, o) == At(s'.f.cache, o)
    ensures s.f.dirty != {} || s.f.synced == s.f.nData
            ==> s'.blob == Resize(Contents(s.f), AlignUp(s.f.nData))
  {
    var f := s.f;
    if f.dirty != {} {
      PaddingKeeps(f, s'.f.cache);
    }
    forall o: nat ensures At(s'.blob, o) == At(s'.f.cache, o) {
      if f.dirty != {} && o < AlignUp(f.nData) {
        assert AlignUp(f.nData) <= |Sized(s)|;
        if f.nData > f.synced { assert At(Sized(s), o) == At(s.blob, o); }
        assert At(s'.blob, o) == At(f.cache, o);
      }
    }
    forall i | 0 <= i < f.nData ensures s'.f.cache[i] == f.cache[i] {
      assert At(s'.f.cache, i) == At(f.cache, i);
    }
    assert Contents(s'.f) == Contents(f);
    if f.dirty != {} || f.synced == f.nData {
      var want := Resize(Contents(f), AlignUp(f.nData));
      forall o: nat | o < |want| ensures At(s'.blob, o) == At(want, o) {
        assert At(s'.blob, o) == At(s'.f.cache, o) == At(f.cache, o);
      }
      SameView(s'.blob, want);
    }
  }

  /** A hollow sync keeps agreement exactly if every dirty byte was written after all. */
  lemma HollowKeepsIff(s: State, s': State)
    requires Inv(s) && SyncHollow(s, s')
    ensures Inv(s') <==> Regular(s, SyncOp(Hollow), s')
  {
    if s.f.dirty != {} {
      PaddingKeeps(s.f, s'.f.cache);
      if Inv(s') {
        forall o: nat | o < |s'.blob| ensures At(s'.blob, o) == At(Flushed(s), o) {
          HollowByte(s, s', o);
        }
        SameView(s'.blob, Flushed(s));
      } else if s'.blob == Flushed(s) {
        SyncOkExact(s, s');
      }
    }
  }

  lemma HollowByte(s: State, s': State, o: nat)
    requires Inv(s) && SyncHollow(s, s') && s.f.dirty != {} && Inv(s') && o < |s'.blob|
    ensures At(s'.blob, o) == At(Flushed(s), o)
  {
    assert At(s'.f.cache, o) == At(s.f.cache, o);
    if Flushable(s.f, o) {
      assert Clean(s'.f, o);
      assert o < s.f.nData ==> At(s'.blob, o) == At(s'.f.cache, o);
    }
  }

  /** The bytes an unchecked sync loses: wherever a dirty byte differs from the blob, there is a
      hollow sync after which the cache, clean throughout, is not the blob. */
  lemma HollowSyncLoses(s: State, o: nat) returns (s': State)
    requires Inv(s) && o < s.f.nData && !Clean(s.f, o) && At(s.f.cache, o) != At(s.blob, o)
    ensures SyncHollow(s, s') && s'.f.dirty == {} && At(s'.f.cache, o) != At(s'.blob, o) && !Inv(s')
  {
    s' := State(s.f.(dirty := {}, synced := Max(s.f.synced, s.f.nData)), Sized(s));
    AlignMonotone(s.f.synced, s.f.nData);
    assert At(Sized(s), o) == At(s.blob, o);
    assert Clean(s'.f, o);
  }

  /** Which steps keep agreement: exactly the regular ones. */
  lemma StepKeepsIff(s: State, op: Op, s': State)
    requires Inv(s) && Step(s, op, s')
    ensures Inv(s') <==> Regular(s, op, s')
  {
    match op
    case WriteOp(at, d) => WriteKeeps(s, at, d);
    case TruncateOp(size) => TruncateKeepsIff(s, size);
    case SyncOp(Synced) => SyncOkExact(s, s');
    case SyncOp(Failed) => SyncFailedKeeps(s, s');
    case SyncOp(Hollow) => HollowKeepsIff(s, s');
  }

  /** Write-back agreement holds after any sequence of writes, truncations and syncs that may fail
      anywhere, as long as every step is regular. */
  lemma {:induction false} RunAgreement(states: seq<State>, ops: seq<Op>, i: nat)
    requires Run(states, ops) && i <= |ops|
    ensures RegularUpTo(states, ops, i) ==> Inv(states[i])
    ensures RegularUpTo(states, ops, i) ==>
              forall o: nat :: o < states[i].f.nData && Clean(states[i].f, o) ==>
                At(states[i].f.cache, o) == if o < states[i].f.synced then At(states[i].blob, o) else 0
  {
    if i == 0 {
      OpenedInv(states[0]);
    } else {
      RunAgreement(states, ops, i - 1);
      assert Step(states[i - 1], ops[i - 1], states[i]);
      if RegularUpTo(states, ops, i) {
        var k := i - 1;
        assert Regular(states[k], ops[k], states[k + 1]);
        StepKeepsIff(states[i - 1], ops[i - 1], states[i]);
      }
    }
  }

  // ------------------------------------------------------------------ refinement

  /** The logical file: what SQLite sees. */
  function Contents(f: File): seq<byte>
    requires f.nData <= |f.cache|
  {
    f.cache[..f.nData]
  }

  /** The reference model: a plain byte sequence with zero-filled gaps. */
  function Simple(c: seq<byte>, op: Op): seq<byte> {
    match op
    case WriteOp(at, d) => Splice(c, at, d)
    case TruncateOp(size) => if size < |c| then c[..size] else c
    case SyncOp(_) => c
  }

  function SimpleRun(c: seq<byte>, ops: seq<Op>): seq<byte> {
    if ops == [] then c else Simple(SimpleRun(c, ops[..|ops| - 1]), ops[|ops| - 1])
  }

  /** All that the logical file needs: it fits the cache file, which holds zeros behind it. */
  ghost predicate Shape(f: File) {
    f.ps > 0 && f.nData <= |f.cache| && forall o: nat :: f.nData <= o ==> At(f.cache, o) == 0
  }

  /** Each step, regular or not, changes the logical file exactly as the reference model says. */
  lemma StepRefines(s: State, op: Op, s': State)
    requires Shape(s.f) && Step(s, op, s')
    ensures Shape(s'.f) && Contents(s'.f) == Simple(Contents(s.f), op)
  {
    forall o: nat | s'.f.nData <= o ensures At(s'.f.cache, o) == 0 {
      if op.SyncOp? { assert At(s'.f.cache, o) == At(s.f.cache, o); }
    }
    var c, c' := Simple(Contents(s.f), op), Contents(s'.f);
    forall o: nat | o < |c'| ensures At(c, o) == At(c', o) {
      assert At(c', o) == At(s'.f.cache, o);
      assert o < s.f.nData ==> At(Contents(s.f), o) == At(s.f.cache, o);
      assert s.f.nData <= o ==> At(s.f.cache, o) == 0;
      if op.SyncOp? { assert At(s'.f.cache, o) == At(s.f.cache, o); }
    }
    SameView(c, c');
  }

  predicate NonEmptyWrites(ops: seq<Op>) {
    forall i :: 0 <= i < |ops| && ops[i].WriteOp? ==> |ops[i].d| > 0
  }

  /** A file that outgrew its synced size is dirty on its last page. */
  predicate GrowthIsDirty(f: File)
    requires f.ps > 0
  {
    f.synced < f.nData ==> (f.nData - 1) / f.ps in f.dirty
  }

  lemma GrowthStaysDirty(s: State, op: Op, s': State)
    requires Inv(s) && Step(s, op, s') && Regular(s, op, s') && GrowthIsDirty(s.f)
    requires op.WriteOp? ==> |op.d| > 0
    ensures s'.f.ps == s.f.ps && GrowthIsDirty(s'.f)
  {
    if op.WriteOp? { GrowthByWrite(s.f, op.at, op.d); }
  }

  lemma GrowthByWrite(f: File, at: nat, d: seq<byte>)
    requires WellFormed(f) && GrowthIsDirty(f) && |d| > 0
    ensures GrowthIsDirty(Write(f, at, d))
  {
    WriteHasRoom(f, at, d);
    StoredByteIsMarked(at, at + |d| - 1, at + |d|, f.ps);
  }

  /** Every run refines the reference model: whatever is truncated and whatever fails, reads see
      the reference file throughout. */
  lemma {:induction false} RunRefines(states: seq<State>, ops: seq<Op>, i: nat)
    requires Run(states, ops) && i <= |ops|
    ensures Shape(states[i].f) && Contents(states[i].f) == SimpleRun(states[0].blob, ops[..i])
  {
    if i == 0 {
      assert Contents(states[0].f) == states[0].blob;
    } else {
      RunRefines(states, ops, i - 1);
      assert Step(states[i - 1], ops[i - 1], states[i]);
      StepRefines(states[i - 1], ops[i - 1], states[i]);
      assert ops[..i][..i - 1] == ops[..i - 1] && ops[..i][i - 1] == ops[i - 1];
    }
  }

  lemma {:induction false} RunGrowthDirty(states: seq<State>, ops: seq<Op>, i: nat)
    requires Run(states, ops) && i <= |ops| && RegularUpTo(states, ops, i) && NonEmptyWrites(ops)
    ensures states[i].f.ps > 0 && GrowthIsDirty(states[i].f)
  {
    if i > 0 {
      RunGrowthDirty(states, ops, i - 1);
      RunAgreement(states, ops, i - 1);
      var k := i - 1;
      assert Step(states[k], ops[k], states[k + 1]) && Regular(states[k], ops[k], states[k + 1]);
      GrowthStaysDirty(states[k], ops[k], states[k + 1]);
    }
  }

  /** Sync correctness over runs of regular steps: when a sync returns OK the blob reads like the
      reference file at every offset and, unless SQLite issued empty writes, is that file padded to
      a sector. */
  lemma {:induction false} SyncedBlobIsFile(states: seq<State>, ops: seq<Op>, i: nat)
    requires Run(states, ops) && i < |ops| && ops[i] == SyncOp(Synced) && RegularUpTo(states, ops, i)
    ensures states[i + 1].f.dirty == {}
    ensures var c := SimpleRun(states[0].blob, ops[..i]);
            && (forall o: nat :: At(states[i + 1].blob, o) == At(c, o))
            && (NonEmptyWrites(ops) ==> states[i + 1].blob == Resize(c, AlignUp(|c|)))
  {
    RunRefines(states, ops, i);
    RunAgreement(states, ops, i);
    if NonEmptyWrites(ops) { RunGrowthDirty(states, ops, i); }
    var s, s' := states[i], states[i + 1];
    assert Step(s, ops[i], s');
    SyncOkExact(s, s');
    var c := SimpleRun(states[0].blob, ops[..i]);
    forall o: nat ensures At(s'.blob, o) == At(c, o) {
      assert At(s'.blob, o) == At(s'.f.cache, o);
      assert o < |c| ==> At(c, o) == At(s.f.cache, o);
      assert At(s'.f.cache, o) == if o < |c| then At(Contents(s'.f), o) else 0;
    }
  }

  function WithoutSyncs(ops: seq<Op>): seq<Op> {
    if ops == [] then []
    else
      var init := WithoutSyncs(ops[..|ops| - 1]);
      if ops[|ops| - 1].SyncOp? then init else init + [ops[|ops| - 1]]
  }

  lemma {:induction false} SyncsAreInvisible(c: seq<byte>, ops: seq<Op>)
    ensures SimpleRun(c, ops) == SimpleRun(c, WithoutSyncs(ops))
  {
    if ops != [] {
      SyncsAreInvisible(c, ops[..|ops| - 1]);
      var init := WithoutSyncs(ops[..|ops| - 1]);
      if !ops[|ops| - 1].SyncOp? {
        assert (init + [ops[|ops| - 1]])[..|init|] == init;
      }
    }
  }

  /** Restartability: two runs from the same blob with the same writes and truncations end
      with the same blob once each has an OK sync, however many syncs failed on the way. */
  lemma {:induction false} FailuresLeaveNoTrace(a: seq<State>, aops: seq<Op>, b: seq<State>, bops: seq<Op>)
    requires Run(a, aops) && Run(b, bops) && a[0].blob == b[0].blob
    requires NonEmptyWrites(aops) && NonEmptyWrites(bops)
    requires |aops| > 0 && aops[|aops| - 1] == SyncOp(Synced) && RegularUpTo(a, aops, |aops| - 1)
    requires |bops| > 0 && bops[|bops| - 1] == SyncOp(Synced) && RegularUpTo(b, bops, |bops| - 1)
    requires WithoutSyncs(aops) == WithoutSyncs(bops)
    ensures a[|aops|].blob == b[|bops|].blob
  {
    SyncedBlobIsFile(a, aops, |aops| - 1);
    SyncedBlobIsFile(b, bops, |bops| - 1);
    SyncsAreInvisible(a[0].blob, aops[..|aops| - 1]);
    SyncsAreInvisible(b[0].blob, bops[..|bops| - 1]);
  }

  /** What a failed sync may do to the blob: grow it with zeros, and change bytes only inside
      dirty pages, to the cached bytes. */
  lemma FailedSyncConfined(s: State, s': State)
    requires Inv(s) && SyncFailed(s, s')
    ensures s'.f.dirty == s.f.dirty && s'.f.nData == s.f.nData
    ensures |s.blob| <= |s'.blob| <= AlignUp(s.f.nData)
    ensures forall o: nat :: At(s'.blob, o) != At(s.blob, o) ==>
              !Clean(s.f, o) && At(s'.blob, o) == At(s.f.cache, o)
  {
    forall o: nat | At(s'.blob, o) != At(s.blob, o)
      ensures !Clean(s.f, o) && At(s'.blob, o) == At(s.f.cache, o)
    {
      assert At(Sized(s), o) == At(s.blob, o);
    }
  }

  // ------------------------------------------------------------------ when the file is the blob

  /** Is the cached file what every agreeing blob holds? */
  ghost predicate IsTheBlob(f: File)
    requires f.ps > 0
  {
    forall blob: seq<byte>, o: nat :: Agrees(f, blob) && o < f.nData ==> At(f.cache, o) == At(blob, o)
  }

  /** Exactly if no byte below EOF is dirty, zeros beyond the synced size excepted. */
  lemma IsTheBlobIff(f: File, blob: seq<byte>)
    requires WellFormed(f) && Agrees(f, blob)
    ensures IsTheBlob(f) <==> forall o: nat :: o < f.nData && !Clean(f, o) ==> f.synced <= o && At(f.cache, o) == 0
  {
    if o: nat :| o < f.nData && !Clean(f, o) && !(f.synced <= o && At(f.cache, o) == 0) {
      var other: byte := if At(f.cache, o) == 1 then 2 else 1;
      var blob' := if o < f.synced then blob[o := other] else blob;
      forall q: nat | q != o ensures At(blob', q) == At(blob, q) {}
      assert Agrees(f, blob');
      assert At(f.cache, o) != At(blob', o);
    } else {
      forall blob': seq<byte>, o: nat | Agrees(f, blob') && o < f.nData ensures At(f.cache, o) == At(blob', o) {
        assert !Clean(f, o) ==> At(f.cache, o) == 0 && At(blob', o) == 0;
      }
    }
  }

  // ------------------------------------------------------------------ truncation sizes

  /** Truncate to `size`, write somewhere, sync OK: does the blob end up like the cache? */
  ghost predicate RegrowSafe(size: nat) {
    forall s: State, at: nat, d: seq<byte> ::
      Inv(s) && size <= s.f.nData ==>
        var t := Truncate(s, size);
        var u := t.(f := Write(t.f, at, d));
        forall o: nat :: o < u.f.nData ==> At(Flushed(u), o) == At(u.f.cache, o)
  }

  /** The sector-aligned truncation SQLite performs is exactly the safe kind: a blob can only
      be cut at a sector, so an unaligned cut leaves old bytes that a later growth exposes. */
  lemma RegrowSafeIffAligned(size: nat)
    ensures RegrowSafe(size) <==> size % SECTOR == 0
  {
    if size % SECTOR == 0 {
      forall s: State, at: nat, d: seq<byte> | Inv(s) && size <= s.f.nData
        ensures var t := Truncate(s, size);
                var u := t.(f := Write(t.f, at, d));
                forall o: nat :: o < u.f.nData ==> At(Flushed(u), o) == At(u.f.cache, o)
      {
        TruncateKeepsIff(s, size);
        var t := Truncate(s, size);
        var u := t.(f := Write(t.f, at, d));
        WriteKeeps(t, at, d);
        forall o: nat | o < u.f.nData ensures At(Flushed(u), o) == At(u.f.cache, o) {
          assert AlignUp(u.f.nData) <= |Sized(u)|;
        }
      }
    } else {
      UnalignedTruncateExposes(size);
    }
  }

  lemma UnalignedTruncateExposes(size: nat)
    requires size % SECTOR != 0
    ensures !RegrowSafe(size)
  {
    var n := AlignUp(size);
    var ones := seq(n, _ => 1 as byte);
    var s := State(File(512, ones, n, {}, PageCount(n, 512), n), ones);
    assert Inv(s);
    var t := Truncate(s, size);
    var u := t.(f := Write(t.f, n, [7]));
    assert u.f.nData == n + 1;
    assert size / 512 < n / 512;
    assert Clean(u.f, size);
    assert At(u.f.cache, size) == 0;
    assert At(t.blob, size) == 1;
    assert At(Flushed(u), size) == 1;
  }

  /** Does every later write get all its dirty marks? */
  ghost predicate MarksKept(f: File)
    requires f.ps > 0
  {
    forall at: nat, d: seq<byte> ::
      Span(at / f.ps, PageCount(at + |d|, f.ps)) <= Write(f, at, d).dirty
  }

  /** xTruncate never grows the bitmap. Shrinking always leaves room; extending the file
      beyond the bitmap makes the next write lose its dirty mark. */
  lemma MarksKeptIffRoom(s: State, size: nat)
    requires Inv(s)
    ensures MarksKept(Truncate(s, size).f) <==> PageCount(size, s.f.ps) <= s.f.cap
    ensures size <= s.f.nData ==> PageCount(size, s.f.ps) <= s.f.cap
  {
    var f := Truncate(s, size).f;
    if size <= s.f.nData { PagesMonotone(size, |s.f.cache|, f.ps); }
    if PageCount(size, f.ps) <= f.cap {
      forall at: nat, d: seq<byte>
        ensures Span(at / f.ps, PageCount(at + |d|, f.ps)) <= Write(f, at, d).dirty
      {
        if at + |d| <= size { PagesMonotone(at + |d|, size, f.ps); }
      }
    } else {
      MarkDropped(s, size);
    }
  }

  lemma MarkDropped(s: State, size: nat)
    requires Inv(s) && PageCount(size, s.f.ps) > s.f.cap
    ensures !MarksKept(Truncate(s, size).f)
  {
    var f := Truncate(s, size).f;
    var last := PageCount(size, f.ps) - 1;
    PageExists(last, size, f.ps);
    StoredByteIsMarked(size - 1, size - 1, size, f.ps);
    assert last in Span((size - 1) / f.ps, PageCount(size, f.ps)) by {
      PageExists(last + 1, size, f.ps);
      PageEdge(last, size - 1, f.ps);
    }
    var f' := Write(f, size - 1, [1]);
    assert f'.dirty == f.dirty + Span((size - 1) / f.ps, f.cap);
    assert last !in f'.dirty;
  }
}
