/** The main database file object: sqliteObjsFile with prefetch=all, its xRead, xWrite,
    xTruncate and xSync, over a cache file, a dirty bitmap and a remote blob. Each method is
    proved to take one step of the WriteBack state machine. */
module MainDbFile {
  import opened Bytes
  import opened PageBitmap
  import opened AzureErrors
  import DirtyRanges
  import BW = BatchWrite
  import WB = WriteBack
  import Diff = IncrementalDiff

  datatype Rc =
    | SQLITE_OK | SQLITE_BUSY | SQLITE_CANTOPEN | SQLITE_NOMEM | IOERR | IOERR_READ | IOERR_SHORT_READ
    | IOERR_FSYNC | IOERR_TRUNCATE | IOERR_LOCK

  /** azureErrToSqlite with the caller's own I/O error as the default. */
  function ToSqlite(e: Err, variant: Rc): Rc {
    match e
    case Ok => SQLITE_OK
    case NotFound => SQLITE_CANTOPEN
    case Conflict => SQLITE_BUSY
    case Throttled => SQLITE_BUSY
    case LeaseExpired => IOERR_LOCK
    case Auth => IOERR
    case NoMem => SQLITE_NOMEM
    case _ => variant
  }

  /** A request: what the client takes from its answer, and whether it took effect. */
  datatype Reply = Reply(err: Err, applied: bool)

  const STACK_RANGES: nat := 64

  class DbFile {
    const ps: nat
    const dirty: Bitmap
    var cache: seq<byte>
    var nData: nat
    var lastSyncedSize: nat

    ghost function File(): WB.File
      reads this, dirty
    {
      WB.File(ps, cache, nData, Pages(dirty.data), 8 * |dirty.data|, lastSyncedSize)
    }

    ghost predicate Valid()
      reads this, dirty
    {
      dirty.Valid() && WB.WellFormed(File())
    }

    /** xOpen with prefetch=all: the whole blob is downloaded. */
    constructor (blob: seq<byte>, ps: nat)
      requires LegalPageSize(ps) && |blob| % SECTOR == 0
      ensures Valid() && fresh(dirty) && WB.Opened(WB.State(File(), blob)) && this.ps == ps
    {
      this.ps, cache, nData, lastSyncedSize := ps, blob, |blob|, |blob|;
      var bm := new Bitmap();
      bm.EnsureCapacity(|blob|, ps);
      dirty := bm;
    }

    /** xRead: bytes of the logical file, zero-filled past its end. */
    method Read(at: nat, n: nat) returns (buf: seq<byte>, rc: Rc)
      requires Valid()
      ensures buf == Window(WB.Contents(File()), at, n)
      ensures rc == if 0 < n && at + n <= nData then SQLITE_OK else IOERR_SHORT_READ
    {
      if at >= nData {
        buf := seq(n, _ => 0);
        return buf, IOERR_SHORT_READ;
      }
      var toRead := if nData - at >= n then n else nData - at;
      if toRead > 0 {
        buf := cache[at..at + toRead];
        if toRead < n {
          buf := buf + seq(n - toRead, _ => 0);
          return buf, IOERR_SHORT_READ;
        }
        return buf, SQLITE_OK;
      }
      buf := seq(n, _ => 0);
      return buf, IOERR_SHORT_READ;
    }

    /** cacheEnsureSize. */
    method CacheEnsureSize(newSize: nat)
      requires dirty.Valid() && ps > 0
      modifies this`cache, dirty
      ensures dirty.Valid() && Pages(dirty.data) == old(Pages(dirty.data))
      ensures newSize <= |old(cache)| ==> cache == old(cache) && dirty.data == old(dirty.data)
      ensures newSize > |old(cache)| ==>
                && cache == Resize(old(cache), newSize)
                && 8 * |dirty.data| == Max(8 * |old(dirty.data)|, 8 * BytesFor(nData, ps))
    {
      if newSize <= |cache| { return; }
      cache := Resize(cache, newSize);
      dirty.EnsureCapacity(nData, ps);
    }

    /** Mark every page that [at, end) touches. */
    method MarkDirty(at: nat, end: nat)
      requires dirty.Valid() && ps > 0
      modifies dirty
      ensures dirty.Valid() && |dirty.data| == |old(dirty.data)|
      ensures Pages(dirty.data) == old(Pages(dirty.data)) + Span(at / ps, Min(PageCount(end, ps), 8 * |dirty.data|))
    {
      ghost var cap, base, first := 8 * |dirty.data|, Pages(dirty.data), at / ps;
      var page := at / ps;
      PageExists(page, end, ps);
      while page * ps < end
        invariant first <= page <= Max(first, PageCount(end, ps))
        invariant dirty.Valid() && 8 * |dirty.data| == cap
        invariant Pages(dirty.data) == base + Span(first, Min(page, cap))
        decreases PageCount(end, ps) - page
      {
        PageExists(page, end, ps);
        dirty.SetOne(page, base, first);
        page := page + 1;
      }
      PageExists(page, end, ps);
      SameSpan(first, page, PageCount(end, ps), cap);
    }

    /** xWrite. When the lease renewal it makes on the way fails, the bytes are already in the
        cache file but no page has been marked: the caller must give the file up. */
    method Write(d: seq<byte>, at: nat, renewed: bool) returns (rc: Rc)
      requires Valid()
      modifies this`cache, this`nData, dirty
      ensures rc == if renewed then SQLITE_OK else IOERR_LOCK
      ensures renewed ==> Valid() && File() == WB.Write(old(File()), at, d)
      ensures !renewed ==> File() == WB.Write(old(File()), at, d).(dirty := old(Pages(dirty.data)))
      ensures renewed ==> Pages(dirty.data) == old(Pages(dirty.data)) + Span(at / ps, PageCount(at + |d|, ps))
    {
      WB.WriteKeepsShape(File(), at, d);
      WB.WriteHasRoom(File(), at, d);
      Store(d, at);
      if !renewed { return IOERR_LOCK; }
      MarkDirty(at, at + |d|);
      return SQLITE_OK;
    }

    /** The part of xWrite before the lease check: extend the file and store the bytes. */
    method Store(d: seq<byte>, at: nat)
      requires Valid()
      modifies this`cache, this`nData, dirty
      ensures dirty.Valid() && File() == WB.Write(old(File()), at, d).(dirty := old(Pages(dirty.data)))
    {
      var end, prevNData := at + |d|, nData;
      WB.WriteKeepsShape(File(), at, d);
      if end > nData { nData := end; }
      if end > prevNData { CacheEnsureSize(end); }
      cache := Splice(cache, at, d);
    }

    /** xTruncate. The file follows the answer, the blob follows the effect. */
    method Truncate(blob: seq<byte>, size: nat, reply: Reply) returns (rc: Rc, blob': seq<byte>)
      requires Valid()
      modifies this`cache, this`nData, this`lastSyncedSize
      ensures reply.err == Ok ==> rc == SQLITE_OK && File() == WB.Truncate(old(WB.State(File(), blob)), size).f
      ensures reply.err != Ok ==> File() == old(File())
      ensures reply.err == Ok ==> lastSyncedSize == size && nData == Min(size, old(nData)) && nData <= |cache|
      ensures reply.err == Ok ==> WB.Contents(File()) == old(cache[..Min(size, nData)])
      ensures reply.applied ==> |blob'| == AlignUp(size) && forall o: nat :: At(blob', o) == if o < AlignUp(size) then At(blob, o) else 0
      ensures rc == SQLITE_OK <==> reply.err == Ok
      ensures rc == SQLITE_BUSY <==> reply.err in {Conflict, Throttled}
      ensures rc == SQLITE_CANTOPEN <==> reply.err == NotFound
      ensures rc == IOERR_LOCK <==> reply.err == LeaseExpired
      ensures rc == IOERR <==> reply.err == Auth
      ensures rc == SQLITE_NOMEM <==> reply.err == NoMem
      ensures rc == IOERR_TRUNCATE <==> reply.err !in {Ok, Conflict, Throttled, NotFound, LeaseExpired, Auth, NoMem}
      ensures blob' == if reply.applied then WB.Truncate(old(WB.State(File(), blob)), size).blob else blob
    {
      blob' := if reply.applied then Resize(blob, AlignUp(size)) else blob;
      if reply.err != Ok { return ToSqlite(reply.err, IOERR_TRUNCATE), blob'; }
      lastSyncedSize := size;
      cache := Resize(cache, size);
      if size < nData { nData := size; }
      return SQLITE_OK, blob';
    }

    /** applyIncrementalDiff on a complete cached snapshot. Success leaves the file as a full download
        would exactly if the listed ranges cover every difference; failure leaves everything but the
        cache file alone. */
    method ApplyIncrementalDiff(blob: seq<byte>, rs: seq<Diff.DiffRange>, answers: nat -> bool) returns (ok: bool)
      requires Valid() && |cache| == nData && |blob| % SECTOR == 0 && Diff.Truthful(rs, blob)
      modifies this`cache, this`nData, this`lastSyncedSize, dirty
      ensures ok ==> Valid() && Pages(dirty.data) == {} && nData == lastSyncedSize == |cache| == |blob|
      ensures ok ==> (WB.Opened(WB.State(File(), blob)) <==> Diff.Complete(rs, old(cache), blob))
      ensures !ok ==> nData == old(nData) && lastSyncedSize == old(lastSyncedSize) && dirty.data == old(dirty.data)
      ensures (forall i :: answers(i)) ==> ok
    {
      ghost var snapshot := cache;
      ok, cache := Diff.PatchCache(cache, blob, rs, answers);
      if !ok { return; }
      Diff.PatchIsDownloadIffComplete(snapshot, blob, rs, cache);
      nData := |blob|;
      dirty.EnsureCapacity(nData, ps);
      dirty.ClearAll();
      lastSyncedSize := nData;
    }

    /** The ranges to write, with their bytes read from the cache file. The buffer on the stack
        has 64 slots; when it is too small, one slot per dirty page always suffices. */
    method CollectRanges() returns (ws: seq<BW.PageWrite>, ghost rs: seq<DirtyRanges.Range>)
      requires Valid()
      modifies this`cache
      ensures DirtyRanges.Exact(rs, Pages(dirty.data), ps, nData)
      ensures |ws| == |rs| && forall k :: 0 <= k < |ws| ==>
                ws[k] == BW.PageWrite(rs[k].off, Window(cache, rs[k].off, rs[k].len))
      ensures WB.CachePadded(old(File()), cache)
      ensures forall k :: 0 <= k < |ws| ==> ws[k].off % 512 == 0 && 0 < |ws[k].data| <= 0x40_0000 && |ws[k].data| % 512 == 0
    {
      var ranges := new DirtyRanges.Range[STACK_RANGES](_ => DirtyRanges.Range(0, 0));
      var n := DirtyRanges.CoalesceDirtyRanges(dirty, ps, nData, ranges, STACK_RANGES);
      if n < 0 {
        ranges := new DirtyRanges.Range[dirty.nSet](_ => DirtyRanges.Range(0, 0));
        n := DirtyRanges.CoalesceDirtyRanges(dirty, ps, nData, ranges, dirty.nSet);
      }
      assert n >= 0;
      rs := ranges[..n];
      assert forall k :: 0 <= k < |rs| ==> DirtyRanges.Acceptable(rs[k], ps, nData);
      if n > 0 {
        var maxEnd := ranges[n - 1].off + ranges[n - 1].len;
        assert DirtyRanges.Acceptable(rs[n - 1], ps, nData);
        if maxEnd > |cache| { cache := Resize(cache, maxEnd); }
      }
      ws := [];
      var i := 0;
      while i < n
        invariant 0 <= i <= n && |ws| == i
        invariant forall k :: 0 <= k < i ==> ws[k] == BW.PageWrite(rs[k].off, Window(cache, rs[k].off, rs[k].len))
      {
        ws := ws + [BW.PageWrite(ranges[i].off, Window(cache, ranges[i].off, ranges[i].len))];
        i := i + 1;
      }
    }

    /** xSync. `batch` says whether the service offers parallel writes. OK means the exact sync unless
        a 1xx or 3xx answer decided one of the single range writes: the code takes that for success
        and clears the dirty set. */
    method Sync(blob: seq<byte>, renewed: bool, resize: Reply, batch: bool, net: nat -> BW.Net,
                nets: nat -> BW.Net, renewals: nat -> bool)
      returns (rc: Rc, blob': seq<byte>, ghost reported: Err)
      requires Valid() && WB.Agrees(File(), blob) && (resize.err == Ok ==> resize.applied)
      requires (forall n :: net(n).Honest(n)) && forall k :: nets(k).HonestTries()
      modifies this`cache, this`lastSyncedSize, dirty
      ensures Valid()
      ensures rc == SQLITE_OK ==> WB.SyncHollow(old(WB.State(File(), blob)), WB.State(File(), blob'))
      ensures rc == SQLITE_OK && Plainly(batch, net, nets) ==>
                WB.SyncOk(old(WB.State(File(), blob)), WB.State(File(), blob')) && WB.Agrees(File(), blob')
      ensures rc != SQLITE_OK ==>
                WB.SyncFailed(old(WB.State(File(), blob)), WB.State(File(), blob')) && WB.Agrees(File(), blob')
      ensures renewed && resize.err == Ok && batch && (forall n :: BW.Healthy(net(n), n)) ==> rc == SQLITE_OK
      ensures renewed && resize.err == Ok && !batch && (forall k :: renewals(k)) && (forall k :: BW.FirstTryAcked(nets(k)))
              ==> rc == SQLITE_OK
      // the early exits: nothing to do, no lease, no room
      ensures old(Pages(dirty.data)) == {} ==> rc == SQLITE_OK
      ensures old(Pages(dirty.data)) != {} && (!renewed || (nData > old(lastSyncedSize) && resize.err != Ok)) ==> rc == IOERR_FSYNC
      ensures rc == IOERR_FSYNC && !renewed ==> blob' == blob
      // BUSY exactly if the range writes reported a failed precondition, an I/O error for everything else
      ensures rc == SQLITE_OK || rc == SQLITE_BUSY || rc == IOERR_FSYNC
      ensures rc == SQLITE_BUSY <==> reported == Precondition
      ensures rc == SQLITE_OK ==> reported == Ok
      ensures rc == IOERR_FSYNC ==> !renewed || resize.err != Ok || reported != Ok
      ensures reported != Ok ==> renewed && WritesReport(batch, net, nets, renewals, reported)
    {
      reported := Ok;
      if dirty.nSet == 0 { return SQLITE_OK, blob, Ok; }
      ghost var s := WB.State(File(), blob);
      if !renewed { return IOERR_FSYNC, blob, Ok; }
      blob' := blob;
      if nData > lastSyncedSize {
        if resize.applied { blob' := Resize(blob, AlignUp(nData)); }
        if resize.err != Ok {
          WB.SyncFailedKeeps(s, WB.State(File(), blob'));
          return IOERR_FSYNC, blob', Ok;
        }
        lastSyncedSize := nData;
      }
      var err;
      err, blob' := SendRanges(blob', s, batch, net, nets, renewals);
      if err != Ok {
        WB.SyncFailedKeeps(s, WB.State(File(), blob'));
        return if err == Precondition then SQLITE_BUSY else IOERR_FSYNC, blob', err;
      }
      dirty.ClearAll();
      WB.HollowKeepsIff(s, WB.State(File(), blob'));
      WB.PaddingKeeps(s.f, cache);
      return SQLITE_OK, blob', Ok;
    }

    /** The ranges of a sync that started in state `s` and has sized the blob. */
    method SendRanges(blob: seq<byte>, ghost s: WB.State, batch: bool, net: nat -> BW.Net, nets: nat -> BW.Net, renewals: nat -> bool)
      returns (err: Err, blob': seq<byte>)
      requires Valid() && WB.Inv(s) && File() == s.f.(synced := lastSyncedSize) && blob == WB.Sized(s)
      requires (forall n :: net(n).Honest(n)) && forall k :: nets(k).HonestTries()
      modifies this`cache
      ensures WB.CachePadded(s.f, cache) && WB.PartlyFlushed(s, blob')
      ensures err == Ok && Plainly(batch, net, nets) ==> blob' == WB.Flushed(s)
      ensures batch && (forall n :: BW.Healthy(net(n), n)) ==> err == Ok
      ensures !batch && (forall k :: renewals(k)) && (forall k :: BW.FirstTryAcked(nets(k))) ==> err == Ok
      ensures err != Ok ==> WritesReport(batch, net, nets, renewals, err)
    {
      var ws, rs := CollectRanges();
      RangesAreFlushable(s, rs, ws, cache);
      if batch {
        err, blob' := BW.PageBlobWriteBatch(blob, ws, net(|ws|));
      } else {
        err, blob' := BW.WriteSequential(blob, ws, nets, renewals);
      }
      ChangesAreFlushable(s, rs, ws, cache, blob');
      if err == Ok { WriteAllIsFlushed(s, rs, ws, cache); }
    }
  }

  /** Some request for the ranges reported the error: in a batch of one, in the last round of a larger
      batch, or in the sequence. */
  ghost predicate WritesReport(batch: bool, net: nat -> BW.Net, nets: nat -> BW.Net, renewals: nat -> bool, e: Err) {
    if batch then DecidedBy(net(1), e) || exists n: nat, r: nat :: n > 1 && r < |net(n).rounds| && BW.BatchReports(net(n).rounds[r], e)
    else (e == LeaseExpired && exists k: nat :: !renewals(k)) || exists k: nat :: DecidedBy(nets(k), e)
  }

  predicate DecidedBy(net: BW.Net, e: Err) { |net.attempts| > MAX_RETRIES && Deciding(net.attempts).Outcome() == e }

  /** No single range write is decided by a 1xx or 3xx answer. */
  ghost predicate Plainly(batch: bool, net: nat -> BW.Net, nets: nat -> BW.Net) {
    if batch then net(1).Plain() else forall k: nat :: nets(k).Plain()
  }

  lemma SameSpan(first: nat, page: nat, last: nat, cap: nat)
    requires first <= page <= Max(first, last) && last <= page
    ensures Span(first, Min(page, cap)) == Span(first, Min(last, cap))
  {
    assert forall p: nat :: Within(p, first, Min(page, cap)) <==> Within(p, first, Min(last, cap));
  }

  /** The range writes a sync issues for state `s`: the exact ranges, carrying cached bytes. */
  ghost predicate RangeWrites(s: WB.State, rs: seq<DirtyRanges.Range>, ws: seq<BW.PageWrite>, cache: seq<byte>)
    requires s.f.ps > 0
  {
    && DirtyRanges.Exact(rs, s.f.dirty, s.f.ps, s.f.nData) && |ws| == |rs|
    && (forall k :: 0 <= k < |ws| ==> ws[k] == BW.PageWrite(rs[k].off, Window(cache, rs[k].off, rs[k].len)))
    && forall o: nat :: At(cache, o) == At(s.f.cache, o)
  }

  lemma RangesAreFlushable(s: WB.State, rs: seq<DirtyRanges.Range>, ws: seq<BW.PageWrite>, cache: seq<byte>)
    requires WB.Inv(s) && RangeWrites(s, rs, ws, cache)
    ensures BW.InBounds(ws, |WB.Sized(s)|) && BW.Disjoint(ws) && BW.Sendable(ws)
    ensures forall o: nat :: BW.Written(ws, o) <==> WB.Flushable(s.f, o)
    ensures forall k, o: nat :: 0 <= k < |ws| && ws[k].Has(o) ==> ws[k].Byte(o) == At(s.f.cache, o)
  {
    RangesAreSendable(rs, ws, s.f.ps, s.f.nData, |WB.Sized(s)|);
    forall o: nat ensures BW.Written(ws, o) <==> WB.Flushable(s.f, o) { FlushableIsWritten(s.f, rs, ws, o); }
    forall k, o: nat | 0 <= k < |ws| && ws[k].Has(o) ensures ws[k].Byte(o) == At(s.f.cache, o) { CachedByte(rs[k], cache, o); }
  }

  lemma FlushableIsWritten(f: WB.File, rs: seq<DirtyRanges.Range>, ws: seq<BW.PageWrite>, o: nat)
    requires f.ps > 0 && DirtyRanges.Exact(rs, f.dirty, f.ps, f.nData)
    requires |ws| == |rs| && forall k :: 0 <= k < |ws| ==> ws[k].off == rs[k].off && |ws[k].data| == rs[k].len
    ensures BW.Written(ws, o) <==> WB.Flushable(f, o)
  {
    assert DirtyRanges.Covered(rs, o) <==> WB.Flushable(f, o);
    WrittenIsCovered(rs, ws, o);
  }

  lemma CachedByte(r: DirtyRanges.Range, cache: seq<byte>, o: nat)
    requires r.Has(o)
    ensures BW.PageWrite(r.off, Window(cache, r.off, r.len)).Byte(o) == At(cache, o)
  {}

  lemma RangesAreSendable(rs: seq<DirtyRanges.Range>, ws: seq<BW.PageWrite>, ps: nat, n: nat, room: nat)
    requires |ws| == |rs| && AlignUp(n) <= room
    requires forall k :: 0 <= k < |ws| ==> ws[k].off == rs[k].off && |ws[k].data| == rs[k].len
    requires forall k :: 0 <= k < |rs| ==> DirtyRanges.Acceptable(rs[k], ps, n)
    requires forall j, k :: 0 <= j < k < |rs| ==> rs[j].End() <= rs[k].off
    ensures BW.InBounds(ws, room) && BW.Disjoint(ws) && BW.Sendable(ws)
  {
    forall k | 0 <= k < |ws|
      ensures ws[k].off + |ws[k].data| <= room && ws[k].off % SECTOR == 0 && |ws[k].data| % SECTOR == 0
      ensures 0 < |ws[k].data| <= 4 * 1024 * 1024
    {
      assert DirtyRanges.Acceptable(rs[k], ps, n);
    }
  }

  lemma WrittenIsCovered(rs: seq<DirtyRanges.Range>, ws: seq<BW.PageWrite>, o: nat)
    requires |ws| == |rs| && forall k :: 0 <= k < |ws| ==> ws[k].off == rs[k].off && |ws[k].data| == rs[k].len
    ensures BW.Written(ws, o) <==> DirtyRanges.Covered(rs, o)
  {
    if DirtyRanges.Covered(rs, o) {
      var k :| 0 <= k < |rs| && rs[k].Has(o);
      assert ws[k].Has(o);
    }
    if BW.Written(ws, o) {
      var k :| 0 <= k < |ws| && ws[k].Has(o);
      assert rs[k].Has(o);
    }
  }

  lemma {:induction false} FlushedByte(s: WB.State, rs: seq<DirtyRanges.Range>, ws: seq<BW.PageWrite>, cache: seq<byte>, o: nat)
    requires WB.Inv(s) && RangeWrites(s, rs, ws, cache)
    requires BW.InBounds(ws, |WB.Sized(s)|) && BW.Disjoint(ws) && o < |WB.Sized(s)|
    requires BW.Written(ws, o) <==> WB.Flushable(s.f, o)
    requires forall k :: 0 <= k < |ws| && ws[k].Has(o) ==> ws[k].Byte(o) == At(s.f.cache, o)
    ensures At(BW.WriteAll(WB.Sized(s), ws), o) == At(WB.Flushed(s), o)
  {
    BW.WriteAllBytes(WB.Sized(s), ws, o);
    if BW.Written(ws, o) {
      var k :| 0 <= k < |ws| && ws[k].Has(o);
    }
  }

  lemma {:induction false} WriteAllIsFlushed(s: WB.State, rs: seq<DirtyRanges.Range>, ws: seq<BW.PageWrite>, cache: seq<byte>)
    requires WB.Inv(s) && RangeWrites(s, rs, ws, cache)
    ensures BW.WriteAll(WB.Sized(s), ws) == WB.Flushed(s)
  {
    RangesAreFlushable(s, rs, ws, cache);
    BW.WriteAllBytes(WB.Sized(s), ws, 0);
    var a, b := BW.WriteAll(WB.Sized(s), ws), WB.Flushed(s);
    forall o: nat | o < |a| ensures At(a, o) == At(b, o) {
      FlushedByte(s, rs, ws, cache, o);
    }
    SameView(a, b);
  }

  lemma ChangesAreFlushable(s: WB.State, rs: seq<DirtyRanges.Range>, ws: seq<BW.PageWrite>, cache: seq<byte>, blob: seq<byte>)
    requires WB.Inv(s) && RangeWrites(s, rs, ws, cache) && BW.ChangesWithin(WB.Sized(s), ws, blob)
    ensures WB.PartlyFlushed(s, blob)
  {
    RangesAreFlushable(s, rs, ws, cache);
    forall o: nat | At(blob, o) != At(WB.Sized(s), o)
      ensures WB.Flushable(s.f, o) && At(blob, o) == At(s.f.cache, o)
    {
      assert BW.NewByte(ws, blob, o);
      var k :| 0 <= k < |ws| && ws[k].Has(o) && At(blob, o) == ws[k].Byte(o);
      assert BW.Written(ws, o);
    }
  }
}
