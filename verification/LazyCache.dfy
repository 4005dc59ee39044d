/** The lazy cache (prefetch=none): pages are fetched on first use, 16 at a time. The reference is
    the full-download cache `full`: what the cache file would hold with prefetch=all after the same
    writes. */
module LazyCache {
  import opened Bytes
  import opened PageBitmap
  import opened MainDbFile
  import opened DirtyRanges

  const READAHEAD_PAGES: nat := 16
  const BOOTSTRAP: nat := 65536

  /** Page-level view of a lazy file. */
  datatype Lazy = Lazy(ps: nat, cache: seq<byte>, nData: nat, dirty: set<nat>, valid: set<nat>, cap: nat)

  /** Valid pages are what a full download would hold, dirty pages are valid, and a full download
      would hold the blob outside dirty pages. */
  ghost predicate Mirrors(f: Lazy, full: seq<byte>, blob: seq<byte>)
    requires f.ps > 0
  {
    && |full| == f.nData && |f.cache| >= f.nData && PageCount(f.nData, f.ps) <= f.cap
    && f.dirty <= f.valid
    && (forall o: nat :: o < f.nData && o / f.ps in f.valid ==> At(f.cache, o) == At(full, o))
    && (forall o: nat :: o < f.nData && o / f.ps !in f.dirty ==> At(blob, o) == At(full, o))
    && (forall o: nat :: f.nData <= o ==> At(f.cache, o) == 0 && At(blob, o) == 0)
  }

  /** No dirty page below EOF lies in the window fetched for page `p`. */
  ghost predicate WindowClean(f: Lazy, p: nat)
    requires f.ps > 0
  {
    forall q: nat :: q in f.dirty && q < PageCount(f.nData, f.ps) ==> !Within(q, p, p + READAHEAD_PAGES)
  }

  /** The windows that reading the pages [lo, hi) may fetch are clean. */
  ghost predicate PagesClean(f: Lazy, lo: nat, hi: nat)
    requires f.ps > 0
  {
    forall p: nat :: Within(p, lo, hi) && p !in f.valid ==> WindowClean(f, p)
  }

  /** The window fetched for page `p`: its end is cut at EOF. */
  function WindowEnd(f: Lazy, p: nat): nat {
    Min(p * f.ps + READAHEAD_PAGES * f.ps, f.nData)
  }

  /** The file after fetching page p's window from the blob. */
  function Fetched(f: Lazy, blob: seq<byte>, p: nat): Lazy
    requires f.ps > 0
  {
    if p * f.ps >= f.nData then f
    else
      var start, end := p * f.ps, WindowEnd(f, p);
      f.(cache := Splice(f.cache, start, Window(blob, start, end - start)),
         valid := f.valid + Span(p, Min(PageCount(end, f.ps), f.cap)))
  }

  lemma WindowPages(f: Lazy, p: nat)
    requires f.ps > 0 && p * f.ps < f.nData
    ensures PageCount(WindowEnd(f, p), f.ps) == Min(p + READAHEAD_PAGES, PageCount(f.nData, f.ps))
    ensures p < PageCount(WindowEnd(f, p), f.ps)
  {
    var ps, n := f.ps, p + READAHEAD_PAGES;
    assert n * ps == p * ps + READAHEAD_PAGES * ps;
    PageExists(p, f.nData, ps);
    if n * ps <= f.nData {
      ExactPages(n, ps);
      PagesBelow(n, f.nData, ps);
    } else {
      PagesAbove(n, f.nData, ps);
    }
  }

  /** A fetch makes 16 pages valid, fewer only at the end of the file. */
  lemma FetchedPages(f: Lazy, blob: seq<byte>, p: nat)
    requires f.ps > 0 && p < PageCount(f.nData, f.ps) <= f.cap
    ensures Fetched(f, blob, p).valid == f.valid + Span(p, Min(p + 16, PageCount(f.nData, f.ps)))
  {
    PageExists(p, f.nData, f.ps);
    WindowPages(f, p);
  }

  lemma ExactPages(n: nat, ps: nat)
    requires ps > 0
    ensures PageCount(n * ps, ps) == n
  {
    PageExists(n, n * ps, ps);
    if n > 0 {
      assert (n - 1) * ps == n * ps - ps;
      PageExists(n - 1, n * ps, ps);
    }
  }

  lemma PagesBelow(n: nat, size: nat, ps: nat)
    requires ps > 0 && n * ps <= size
    ensures n <= PageCount(size, ps)
  {
    if n > 0 {
      assert (n - 1) * ps == n * ps - ps;
      PageExists(n - 1, size, ps);
    }
  }

  lemma PagesAbove(n: nat, size: nat, ps: nat)
    requires ps > 0 && size <= n * ps
    ensures PageCount(size, ps) <= n
  {
    PageExists(n, size, ps);
  }

  /** Bytes of the window are exactly the bytes of its pages below EOF. */
  lemma WindowBytes(f: Lazy, p: nat, o: nat)
    requires f.ps > 0 && o < f.nData
    ensures p * f.ps <= o < WindowEnd(f, p) <==> Within(o / f.ps, p, p + READAHEAD_PAGES)
  {
    assert (p + READAHEAD_PAGES) * f.ps == p * f.ps + READAHEAD_PAGES * f.ps;
    PageOrder(o, p, f.ps);
    PageOrder(o, p + READAHEAD_PAGES, f.ps);
  }

  /** Fetching a window without dirty pages keeps the mirror and makes the page valid. */
  lemma FetchKeeps(f: Lazy, full: seq<byte>, blob: seq<byte>, p: nat)
    requires f.ps > 0 && Mirrors(f, full, blob) && WindowClean(f, p) && p < PageCount(f.nData, f.ps)
    ensures Mirrors(Fetched(f, blob, p), full, blob)
    ensures p in Fetched(f, blob, p).valid
  {
    PageExists(p, f.nData, f.ps);
    WindowPages(f, p);
    var f' := Fetched(f, blob, p);
    forall o: nat | o < f.nData && o / f.ps in f'.valid ensures At(f'.cache, o) == At(full, o) {
      WindowBytes(f, p, o);
      PageOfByte(o, f.nData, f.ps);
    }
  }

  /** What serving reads may do to a file: pages become valid, nothing else but the cache changes. */
  ghost predicate Serves(f: Lazy, f': Lazy) {
    f' == f.(cache := f'.cache, valid := f'.valid) && |f'.cache| == |f.cache| && f.valid <= f'.valid
  }

  // ------------------------------------------------------------------ when a fetch loses data

  /** Does fetching page p's window leave every dirty byte alone, whatever the blob holds? */
  ghost predicate FetchSafe(f: Lazy, p: nat)
    requires f.ps > 0
  {
    forall blob: seq<byte>, o: nat :: o < f.nData && o / f.ps in f.dirty ==>
      At(Fetched(f, blob, p).cache, o) == At(f.cache, o)
  }

  /** The fetch overwrites its window without consulting dirty bits: it is safe exactly when no
      dirty page below EOF lies in the window. */
  lemma FetchSafeIffWindowClean(f: Lazy, p: nat)
    requires f.ps > 0
    ensures FetchSafe(f, p) <==> WindowClean(f, p)
  {
    if q: nat :| q in f.dirty && q < PageCount(f.nData, f.ps) && Within(q, p, p + READAHEAD_PAGES) {
      var o := q * f.ps;
      PageExists(q, f.nData, f.ps);
      PageEdge(q, o, f.ps);
      WindowBytes(f, p, o);
      var b: byte := if At(f.cache, o) == 1 then 2 else 1;
      var blob := seq(o + 1, _ => b);
      assert At(Fetched(f, blob, p).cache, o) == b;
      assert !FetchSafe(f, p);
    } else {
      forall blob: seq<byte>, o: nat | o < f.nData && o / f.ps in f.dirty
        ensures At(Fetched(f, blob, p).cache, o) == At(f.cache, o)
      {
        PageOfByte(o, f.nData, f.ps);
        WindowBytes(f, p, o);
      }
    }
  }

  // ------------------------------------------------------------------ the file object

  /** A bitmap with room for a file of `size` bytes, clear but for its first pages. */
  method NewBitmap(size: nat, ps: nat, first: nat) returns (b: Bitmap)
    requires ps > 0 && first <= PageCount(size, ps)
    ensures fresh(b) && b.Valid() && Pages(b.data) == Span(0, first) && PageCount(size, ps) <= 8 * |b.data|
  {
    b := new Bitmap();
    b.EnsureCapacity(size, ps);
    b.ClearAll();
    b.SetRange(0, first);
  }

  class LazyFile {
    const ps: nat
    const dirty: Bitmap
    const valid: Bitmap
    var cache: seq<byte>
    var nData: nat

    ghost function File(): Lazy
      reads this, dirty, valid
    {
      Lazy(ps, cache, nData, Pages(dirty.data), Pages(valid.data), 8 * |valid.data|)
    }

    ghost predicate Valid()
      reads this, dirty, valid
    {
      && ps > 0 && dirty.Valid() && valid.Valid() && dirty != valid && nData <= |cache|
      && PageCount(|cache|, ps) <= 8 * |dirty.data| && PageCount(|cache|, ps) <= 8 * |valid.data|
    }

    /** xOpen with prefetch=none: a sparse cache file and one fetch of up to 64 KiB. */
    constructor (blob: seq<byte>, ps: nat)
      requires LegalPageSize(ps)
      ensures Valid() && fresh(dirty) && fresh(valid) && this.ps == ps
      ensures Mirrors(File(), blob, blob) && Pages(dirty.data) == {}
      ensures Pages(valid.data) == Span(0, PageCount(Min(0x1_0000, |blob|), ps))
    {
      this.ps, nData := ps, |blob|;
      var n := Min(BOOTSTRAP, |blob|);
      cache := Splice(Resize([], |blob|), 0, blob[..n]);
      var d := NewBitmap(|blob|, ps, 0);
      PagesMonotone(n, |blob|, ps);
      var v := NewBitmap(|blob|, ps, PageCount(n, ps));
      dirty, valid := d, v;
      BootstrapMirrors(blob, ps, 8 * |v.data|);
    }

    /** Store the blob's bytes [start, end) and mark the pages [first, last) valid. */
    method Land(blob: seq<byte>, start: nat, end: nat, first: nat, last: nat)
      requires Valid() && start <= end <= nData
      modifies this`cache, valid
      ensures Valid() && |cache| == |old(cache)|
      ensures File() == old(File()).(cache := Splice(old(cache), start, Window(blob, start, end - start)),
                                     valid := old(Pages(valid.data)) + Span(first, Min(last, 8 * |old(valid.data)|)))
    {
      cache := Splice(cache, start, Window(blob, start, end - start));
      valid.SetRange(first, last);
    }

    /** fetchPagesFromAzure; `answered` says whether the read request succeeds. */
    method Fetch(blob: seq<byte>, p: nat, answered: bool) returns (rc: Rc)
      requires Valid()
      modifies this`cache, valid
      ensures Valid()
      ensures rc == SQLITE_OK ==> File() == Fetched(old(File()), blob, p)
      ensures rc != SQLITE_OK ==> rc == IOERR_READ && File() == old(File())
      ensures rc == SQLITE_OK <==> answered || p * ps >= nData
    {
      var start := p * ps;
      var end := start + READAHEAD_PAGES * ps;
      if end > nData { end := nData; }
      if start >= nData { return SQLITE_OK; }
      if !answered { return IOERR_READ; }
      Land(blob, start, end, p, PageCount(end, ps));
      return SQLITE_OK;
    }

    /** One page of a read: fetch its window on a miss. */
    method FetchOnMiss(page: nat, blob: seq<byte>, ghost full: seq<byte>, answered: bool) returns (rc: Rc)
      requires Valid() && page < PageCount(nData, ps)
      modifies this`cache, valid
      ensures Valid() && Serves(old(File()), File())
      ensures if rc == SQLITE_OK then page in Pages(valid.data) else rc == IOERR_READ && !answered
      ensures old(Mirrors(File(), full, blob) && PagesClean(File(), page, page + 1)) ==> Mirrors(File(), full, blob)
    {
      if valid.Test(page) { return SQLITE_OK; }
      ghost var f := File();
      if Mirrors(f, full, blob) && PagesClean(f, page, page + 1) { FetchKeeps(f, full, blob, page); }
      PagesMonotone(nData, |cache|, ps);
      PageExists(page, nData, ps);
      WindowPages(f, page);
      rc := Fetch(blob, page, answered);
    }

    /** The loop of xRead over the pages it needs: fetch on a miss, stop at a failed fetch. */
    method FetchMissing(page0: nat, endPage: nat, blob: seq<byte>, ghost full: seq<byte>, answers: nat -> bool) returns (rc: Rc)
      requires Valid() && endPage <= PageCount(nData, ps)
      modifies this`cache, valid
      ensures Valid() && Serves(old(File()), File())
      ensures rc == SQLITE_OK || rc == IOERR_READ
      ensures rc == SQLITE_OK ==> forall q: nat :: Within(q, page0, endPage) ==> q in Pages(valid.data)
      ensures (forall p :: answers(p)) ==> rc == SQLITE_OK
      ensures old(Mirrors(File(), full, blob) && PagesClean(File(), page0, endPage)) ==> Mirrors(File(), full, blob)
    {
      var page := page0;
      ghost var f := File();
      ghost var safe := Mirrors(f, full, blob) && PagesClean(f, page0, endPage);
      while page < endPage
        invariant page0 <= page <= Max(page0, endPage)
        invariant Valid() && Serves(f, File()) && (safe ==> Mirrors(File(), full, blob))
        invariant forall q: nat :: Within(q, page0, page) ==> q in Pages(valid.data)
      {
        if safe { StillClean(f, File(), page0, endPage, page); }
        rc := FetchOnMiss(page, blob, full, answers(page));
        if rc != SQLITE_OK { return; }
        page := page + 1;
      }
      return SQLITE_OK;
    }

    /** xRead. When the requests answer and no fetch overwrites a dirty page, the result is that of the
        full-download cache. */
    method Read(at: nat, n: nat, blob: seq<byte>, ghost full: seq<byte>, answers: nat -> bool) returns (buf: seq<byte>, rc: Rc)
      requires Valid()
      modifies this`cache, valid
      ensures Valid() && Serves(old(File()), File())
      ensures rc == IOERR_READ ==> buf == seq(n, _ => 0)
      ensures rc != IOERR_READ ==> rc == if 0 < n && at + n <= nData then SQLITE_OK else IOERR_SHORT_READ
      ensures (forall p :: answers(p)) ==> rc != IOERR_READ
      ensures old(Mirrors(File(), full, blob) && ReadClean(File(), at, n)) ==>
                Mirrors(File(), full, blob) && (rc != IOERR_READ ==> buf == Window(full, at, n))
    {
      if at >= nData {
        buf := seq(n, _ => 0);
        return buf, IOERR_SHORT_READ;
      }
      rc := FetchNeeded(at, n, blob, full, answers);
      if rc != SQLITE_OK {
        buf := seq(n, _ => 0);
        return;
      }
      var toRead := Min(nData - at, n);
      if Mirrors(File(), full, blob) { ReadOut(File(), full, blob, at, n, toRead); }
      buf := cache[at..at + toRead] + seq(n - toRead, _ => 0);
      return buf, if 0 < toRead && toRead == n then SQLITE_OK else IOERR_SHORT_READ;
    }

    /** Make the pages of a read valid. */
    method FetchNeeded(at: nat, n: nat, blob: seq<byte>, ghost full: seq<byte>, answers: nat -> bool) returns (rc: Rc)
      requires Valid()
      modifies this`cache, valid
      ensures Valid() && Serves(old(File()), File())
      ensures rc == SQLITE_OK || rc == IOERR_READ
      ensures rc == SQLITE_OK ==> forall q: nat :: Within(q, at / ps, PageCount(Min(at + n, nData), ps)) ==> q in Pages(valid.data)
      ensures (forall p :: answers(p)) ==> rc == SQLITE_OK
      ensures old(Mirrors(File(), full, blob) && ReadClean(File(), at, n)) ==> Mirrors(File(), full, blob)
    {
      var readEnd := Min(at + n, nData);
      PagesMonotone(readEnd, nData, ps);
      rc := FetchMissing(at / ps, PageCount(readEnd, ps), blob, full, answers);
    }

    /** Any sequence of reads behaves as on a full download, if at the start no dirty page lies in the
        window of an invalid one. */
    method ReadSequence(requests: seq<(nat, nat)>, blob: seq<byte>, ghost full: seq<byte>) returns (results: seq<(seq<byte>, Rc)>)
      requires Valid()
      modifies this`cache, valid
      ensures Valid() && Serves(old(File()), File()) && |results| == |requests|
      ensures old(Mirrors(File(), full, blob) && PagesClean(File(), 0, PageCount(nData, ps))) ==>
                && Mirrors(File(), full, blob)
                && forall i :: 0 <= i < |requests| ==>
                     var (at, n) := requests[i];
                     results[i] == (Window(full, at, n), if 0 < n && at + n <= nData then SQLITE_OK else IOERR_SHORT_READ)
    {
      results := [];
      ghost var f := File();
      ghost var safe := Mirrors(f, full, blob) && PagesClean(f, 0, PageCount(nData, ps));
      while |results| < |requests|
        invariant |results| <= |requests| && Valid() && Serves(f, File()) && (safe ==> Mirrors(File(), full, blob))
        invariant safe ==> forall i :: 0 <= i < |results| ==>
                    var (at, n) := requests[i];
                    results[i] == (Window(full, at, n), if 0 < n && at + n <= nData then SQLITE_OK else IOERR_SHORT_READ)
        decreases |requests| - |results|
      {
        var (at, n) := requests[|results|];
        if safe { AllClean(f, File(), at, n); }
        var buf, rc := Read(at, n, blob, full, _ => true);
        results := results + [(buf, rc)];
      }
    }

    /** xWrite, for any offset and length: the pages it touches become dirty and valid together. It
        keeps the mirror if every byte it marks valid without writing it was valid before. */
    method Write(d: seq<byte>, at: nat)
      requires Valid()
      modifies this`cache, this`nData, dirty, valid
      ensures Valid() && File() == Wrote(old(File()), at, d, 8 * |valid.data|)
      ensures forall full: seq<byte>, blob: seq<byte> ::
                old(Mirrors(File(), full, blob) && WriteCovered(File(), at, d)) ==> Mirrors(File(), Splice(full, at, d), blob)
    {
      ghost var f := File();
      Store(d, at);
      PagesMonotone(nData, |cache|, ps);
      forall full: seq<byte>, blob: seq<byte> | Mirrors(f, full, blob) && WriteCovered(f, at, d)
        ensures Mirrors(File(), Splice(full, at, d), blob)
      {
        WriteKeeps(f, full, blob, at, d, 8 * |valid.data|);
      }
    }

    /** Extend, store, mark. */
    method Store(d: seq<byte>, at: nat)
      requires Valid()
      modifies this`cache, this`nData, dirty, valid
      ensures Valid() && File() == Wrote(old(File()), at, d, 8 * |valid.data|)
    {
      var end := at + |d|;
      ghost var before := cache;
      if end > nData { nData := end; }
      GrowTo(end);
      SameSplice(before, cache, at, d);
      cache := Splice(cache, at, d);
      MarkPages(at / ps, PageCount(end, ps));
    }

    /** Mark the pages [first, last) dirty and valid. */
    method MarkPages(first: nat, last: nat)
      requires Valid() && last <= 8 * |dirty.data| && last <= 8 * |valid.data|
      modifies dirty, valid
      ensures Valid() && |valid.data| == |old(valid.data)|
      ensures Pages(dirty.data) == old(Pages(dirty.data)) + Span(first, last)
      ensures Pages(valid.data) == old(Pages(valid.data)) + Span(first, last)
    {
      dirty.SetRange(first, last);
      valid.SetRange(first, last);
    }

    /** cacheEnsureSize in lazy mode grows both bitmaps. */
    method GrowTo(end: nat)
      requires ps > 0 && dirty.Valid() && valid.Valid() && dirty != valid && nData <= Max(|cache|, end) && end <= nData
      requires PageCount(|cache|, ps) <= 8 * |dirty.data| && PageCount(|cache|, ps) <= 8 * |valid.data|
      modifies this`cache, dirty, valid
      ensures Valid() && Pages(dirty.data) == old(Pages(dirty.data)) && Pages(valid.data) == old(Pages(valid.data))
      ensures |cache| == Max(|old(cache)|, end) && forall o: nat :: At(cache, o) == old(At(cache, o))
      ensures PageCount(end, ps) <= 8 * |dirty.data| && PageCount(end, ps) <= 8 * |valid.data|
    {
      if end <= |cache| {
        PagesMonotone(end, |cache|, ps);
        return;
      }
      cache := Resize(cache, end);
      dirty.EnsureCapacity(nData, ps);
      valid.EnsureCapacity(nData, ps);
    }

    /** One coalesced request: download the pages of `run` and mark them valid. */
    method FetchRun(blob: seq<byte>, run: PageRun)
      requires Valid() && run.start < run.end <= PageCount(nData, ps)
      modifies this`cache, valid
      ensures Valid() && File() == RunFetched(old(File()), blob, run)
    {
      RunBounds(nData, run, ps);
      PagesMonotone(nData, |cache|, ps);
      var start, end := run.start * ps, Min(run.end * ps, nData);
      Land(blob, start, end, run.start, PageCount(end, ps));
    }

    method PrefetchStep(blob: seq<byte>, run: PageRun, ghost f: Lazy, ghost full: seq<byte>, ghost fetched: seq<PageRun>)
      requires Valid() && f.ps == ps && f.nData == nData && run.start < run.end <= PageCount(nData, ps)
      requires Prefetched(f, File(), full, blob, fetched, run.start) && forall q: nat :: run.Has(q) ==> q !in Pages(valid.data)
      modifies this`cache, valid
      ensures Valid() && Prefetched(f, File(), full, blob, fetched + [run], run.end)
    {
      PrefetchRun(f, File(), full, blob, fetched, run);
      FetchRun(blob, run);
    }

    /** The end of the run of invalid pages that starts at `start`. */
    method InvalidRun(start: nat, nPages: nat) returns (end: nat)
      requires Valid() && start < nPages && start !in Pages(valid.data)
      ensures start < end <= nPages && forall q: nat :: start <= q < end ==> q !in Pages(valid.data)
      ensures end < nPages ==> end in Pages(valid.data)
    {
      end := start;
      while end < nPages && !valid.Test(end)
        invariant start <= end <= nPages
        invariant forall q: nat :: start <= q < end ==> q !in Pages(valid.data)
      {
        end := end + 1;
      }
    }

    /** prefetchInvalidPages. `fetched` lists the page runs requested. */
    method Prefetch(blob: seq<byte>, ghost full: seq<byte>, answers: nat -> bool) returns (rc: Rc, fetched: seq<PageRun>)
      requires Valid() && Mirrors(File(), full, blob)
      modifies this`cache, valid
      ensures Valid() && Mirrors(File(), full, blob)
      ensures rc == SQLITE_OK || rc == IOERR_READ
      ensures (forall p :: answers(p)) ==> rc == SQLITE_OK
      // every page is valid afterwards, and each formerly invalid page was requested exactly once
      ensures rc == SQLITE_OK ==> forall p: nat :: p < PageCount(nData, ps) ==> p in Pages(valid.data)
      ensures Sorted(fetched) && forall p: nat :: InRun(fetched, p) ==> p < PageCount(nData, ps) && p !in old(Pages(valid.data))
      ensures rc == SQLITE_OK ==> forall p: nat :: p < PageCount(nData, ps) && p !in old(Pages(valid.data)) ==> InRun(fetched, p)
      // dirty pages keep their bytes
      ensures forall o: nat :: o < nData && o / ps in Pages(dirty.data) ==> At(cache, o) == old(At(cache, o))
    {
      ghost var f := File();
      ghost var i: nat;
      rc, fetched, i := PrefetchRuns(blob, full, answers);
      PrefetchStops(f, File(), full, blob, fetched, i);
    }

    /** The scan: each run of invalid pages is one request; a failed request stops it at page `i`. */
    method PrefetchRuns(blob: seq<byte>, ghost full: seq<byte>, answers: nat -> bool)
      returns (rc: Rc, fetched: seq<PageRun>, ghost i: nat)
      requires Valid() && Mirrors(File(), full, blob)
      modifies this`cache, valid
      ensures Valid() && i <= PageCount(nData, ps) && Prefetched(old(File()), File(), full, blob, fetched, i)
      ensures rc == SQLITE_OK ==> i == PageCount(nData, ps)
      ensures rc == SQLITE_OK || (rc == IOERR_READ && !answers(i))
    {
      fetched := [];
      var nPages, at := PageCount(nData, ps), 0;
      ghost var f := File();
      while at < nPages
        invariant at <= nPages && Prefetched(f, File(), full, blob, fetched, at) && Valid()
        decreases nPages - at
      {
        if valid.Test(at) {
          PrefetchSkips(f, File(), full, blob, fetched, at);
          at := at + 1;
          continue;
        }
        var end := InvalidRun(at, nPages);
        if !answers(at) { return IOERR_READ, fetched, at; }
        PrefetchStep(blob, PageRun(at, end), f, full, fetched);
        fetched := fetched + [PageRun(at, end)];
        at := end;
      }
      return SQLITE_OK, fetched, at;
    }
  }

  // ------------------------------------------------------------------ reading and writing

  ghost predicate ReadClean(f: Lazy, at: nat, n: nat)
    requires f.ps > 0
  {
    PagesClean(f, at / f.ps, PageCount(Min(at + n, f.nData), f.ps))
  }

  lemma StillClean(f: Lazy, f': Lazy, lo: nat, hi: nat, p: nat)
    requires f.ps > 0 && Serves(f, f') && PagesClean(f, lo, hi) && lo <= p < hi
    ensures PagesClean(f', p, p + 1)
  {
    forall q: nat | Within(q, p, p + 1) && q !in f'.valid ensures WindowClean(f', q) {
      assert Within(q, lo, hi) && q !in f.valid;
      assert WindowClean(f, q);
    }
  }

  lemma AllClean(f: Lazy, f': Lazy, at: nat, n: nat)
    requires f.ps > 0 && Serves(f, f') && PagesClean(f, 0, PageCount(f.nData, f.ps))
    ensures ReadClean(f', at, n)
  {
    PagesMonotone(Min(at + n, f.nData), f.nData, f.ps);
    forall p: nat | Within(p, at / f.ps, PageCount(Min(at + n, f.nData), f.ps)) && p !in f'.valid ensures WindowClean(f', p) {
      assert Within(p, 0, PageCount(f.nData, f.ps)) && p !in f.valid;
      assert WindowClean(f, p);
    }
  }

  lemma SameSplice(a: seq<byte>, b: seq<byte>, at: nat, d: seq<byte>)
    requires |b| == Max(|a|, at + |d|) && forall o: nat :: At(b, o) == At(a, o)
    ensures Splice(b, at, d) == Splice(a, at, d)
  {
    SameView(Splice(b, at, d), Splice(a, at, d));
  }

  /** The file after xWrite; the bitmaps then have room for `cap` pages. */
  function Wrote(f: Lazy, at: nat, d: seq<byte>, cap: nat): Lazy
    requires f.ps > 0
  {
    var pages := Span(at / f.ps, PageCount(at + |d|, f.ps));
    f.(cache := Splice(f.cache, at, d), nData := Max(f.nData, at + |d|), dirty := f.dirty + pages, valid := f.valid + pages, cap := cap)
  }

  /** Every byte below EOF that the write marks without storing it lies on a valid page. */
  ghost predicate WriteCovered(f: Lazy, at: nat, d: seq<byte>)
    requires f.ps > 0
  {
    forall o: nat :: o < f.nData && Uncovered(f, at, d, o) ==> o / f.ps in f.valid
  }

  /** Byte o is marked but not stored. */
  predicate Uncovered(f: Lazy, at: nat, d: seq<byte>, o: nat)
    requires f.ps > 0
  {
    o / f.ps in Span(at / f.ps, PageCount(at + |d|, f.ps)) && !(at <= o < at + |d|)
  }

  lemma WriteKeeps(f: Lazy, full: seq<byte>, blob: seq<byte>, at: nat, d: seq<byte>, cap: nat)
    requires f.ps > 0 && Mirrors(f, full, blob) && WriteCovered(f, at, d) && PageCount(Max(f.nData, at + |d|), f.ps) <= cap
    ensures Mirrors(Wrote(f, at, d, cap), Splice(full, at, d), blob)
  {
    var f', full' := Wrote(f, at, d, cap), Splice(full, at, d);
    forall o: nat | o < f'.nData && o / f.ps in f'.valid ensures At(f'.cache, o) == At(full', o) {
      if o < f.nData && !(at <= o < at + |d|) && o / f.ps !in f.valid { assert Uncovered(f, at, d, o); }
    }
    forall o: nat | o < f'.nData && o / f.ps !in f'.dirty ensures At(blob, o) == At(full', o) {
      if at <= o < at + |d| { StoredByteIsMarked(at, o, at + |d|, f.ps); }
    }
  }

  /** Does the write keep the mirror, whatever the blob holds? */
  ghost predicate WriteSafe(f: Lazy, at: nat, d: seq<byte>, cap: nat)
    requires f.ps > 0
  {
    forall full: seq<byte>, blob: seq<byte> :: Mirrors(f, full, blob) ==> Mirrors(Wrote(f, at, d, cap), Splice(full, at, d), blob)
  }

  /** Exactly if it is covered: a partial write into a page that was never fetched marks the rest of
      that page valid. */
  lemma WriteSafeIffCovered(f: Lazy, full: seq<byte>, blob: seq<byte>, at: nat, d: seq<byte>, cap: nat)
    requires f.ps > 0 && Mirrors(f, full, blob) && PageCount(Max(f.nData, at + |d|), f.ps) <= cap
    ensures WriteSafe(f, at, d, cap) <==> WriteCovered(f, at, d)
  {
    if WriteCovered(f, at, d) {
      forall full': seq<byte>, blob': seq<byte> | Mirrors(f, full', blob')
        ensures Mirrors(Wrote(f, at, d, cap), Splice(full', at, d), blob')
      {
        WriteKeeps(f, full', blob', at, d, cap);
      }
    } else {
      var o: nat :| o < f.nData && Uncovered(f, at, d, o) && o / f.ps !in f.valid;
      var b: byte := if At(f.cache, o) == 1 then 2 else 1;
      var full', blob' := Splice(full, o, [b]), Splice(blob, o, [b]);
      assert Mirrors(f, full', blob');
      assert At(Wrote(f, at, d, cap).cache, o) == At(f.cache, o) != At(Splice(full', at, d), o);
      assert !Mirrors(Wrote(f, at, d, cap), Splice(full', at, d), blob');
    }
  }

  // ------------------------------------------------------------------ prefetching

  /** Prefetching has dealt with the pages below i. */
  ghost predicate Prefetched(f: Lazy, now: Lazy, full: seq<byte>, blob: seq<byte>, fetched: seq<PageRun>, i: nat)
    requires f.ps > 0
  {
    && now == f.(cache := now.cache, valid := now.valid) && |now.cache| == |f.cache| && Mirrors(now, full, blob)
    && f.valid <= now.valid
    && (forall p: nat :: p < i ==> p in now.valid)
    && (forall p: nat :: p in now.valid && p !in f.valid ==> p < i)
    && Sorted(fetched) && (forall k :: 0 <= k < |fetched| ==> fetched[k].end <= i)
    && (forall p: nat :: InRun(fetched, p) <==> p < i && p !in f.valid)
    && (forall o: nat :: o < f.nData && o / f.ps in f.dirty ==> At(now.cache, o) == At(f.cache, o))
  }

  lemma PrefetchSkips(f: Lazy, now: Lazy, full: seq<byte>, blob: seq<byte>, fetched: seq<PageRun>, i: nat)
    requires f.ps > 0 && Prefetched(f, now, full, blob, fetched, i) && i in now.valid
    ensures Prefetched(f, now, full, blob, fetched, i + 1)
  {}

  lemma PrefetchStops(f: Lazy, now: Lazy, full: seq<byte>, blob: seq<byte>, fetched: seq<PageRun>, i: nat)
    requires f.ps > 0 && Prefetched(f, now, full, blob, fetched, i) && i <= PageCount(f.nData, f.ps)
    ensures forall p: nat :: InRun(fetched, p) ==> p < PageCount(f.nData, f.ps) && p !in f.valid
  {}

  /** The file after downloading the pages of `run`. */
  function RunFetched(f: Lazy, blob: seq<byte>, run: PageRun): Lazy
    requires f.ps > 0 && run.start < run.end <= PageCount(f.nData, f.ps)
  {
    RunBounds(f.nData, run, f.ps);
    Landed(f, blob, run, run.start * f.ps, Min(run.end * f.ps, f.nData))
  }

  function Landed(f: Lazy, blob: seq<byte>, run: PageRun, start: nat, end: nat): Lazy
    requires start <= end
  {
    f.(cache := Splice(f.cache, start, Window(blob, start, end - start)), valid := f.valid + Span(run.start, run.end))
  }

  /** One run of invalid pages is fetched. */
  lemma PrefetchRun(f: Lazy, now: Lazy, full: seq<byte>, blob: seq<byte>, fetched: seq<PageRun>, run: PageRun)
    requires f.ps > 0 && Prefetched(f, now, full, blob, fetched, run.start)
    requires run.start < run.end <= PageCount(f.nData, f.ps) && forall q: nat :: run.Has(q) ==> q !in now.valid
    ensures Prefetched(f, RunFetched(now, blob, run), full, blob, fetched + [run], run.end)
  {
    var ps := f.ps;
    var start, end := run.start * ps, Min(run.end * ps, f.nData);
    RunBytes(f.nData, run, ps);
    LandedMirrors(now, full, blob, run, start, end);
    RunsGrow(fetched, run, f.valid);
    LandedPrefetched(f, now, full, blob, fetched, run, start, end);
  }

  lemma RunBytes(n: nat, run: PageRun, ps: nat)
    requires ps > 0 && run.start < run.end <= PageCount(n, ps)
    ensures run.start * ps < Min(run.end * ps, n)
    ensures forall o: nat :: o < n ==> (run.start * ps <= o < Min(run.end * ps, n) <==> run.Has(o / ps))
  {
    RunBounds(n, run, ps);
    forall o: nat | o < n ensures run.start * ps <= o < Min(run.end * ps, n) <==> run.Has(o / ps) {
      PageOrder(o, run.start, ps);
      PageOrder(o, run.end, ps);
    }
  }

  lemma LandedMirrors(now: Lazy, full: seq<byte>, blob: seq<byte>, run: PageRun, start: nat, end: nat)
    requires now.ps > 0 && Mirrors(now, full, blob) && start <= end <= now.nData
    requires forall q: nat :: run.Has(q) ==> q !in now.valid
    requires forall o: nat :: o < now.nData ==> (start <= o < end <==> run.Has(o / now.ps))
    ensures Mirrors(Landed(now, blob, run, start, end), full, blob)
    ensures forall o: nat :: o < now.nData && o / now.ps in now.dirty ==> At(Landed(now, blob, run, start, end).cache, o) == At(now.cache, o)
  {
    var next := Landed(now, blob, run, start, end);
    forall o: nat | o < now.nData && o / now.ps in next.valid ensures At(next.cache, o) == At(full, o) {
      if run.Has(o / now.ps) { assert o / now.ps !in now.dirty; }
    }
  }

  lemma LandedPrefetched(f: Lazy, now: Lazy, full: seq<byte>, blob: seq<byte>, fetched: seq<PageRun>, run: PageRun, start: nat, end: nat)
    requires f.ps > 0 && Prefetched(f, now, full, blob, fetched, run.start) && run.start < run.end && start <= end <= f.nData
    requires forall q: nat :: run.Has(q) ==> q !in now.valid
    requires Mirrors(Landed(now, blob, run, start, end), full, blob)
    requires forall o: nat :: o < now.nData && o / now.ps in now.dirty ==> At(Landed(now, blob, run, start, end).cache, o) == At(now.cache, o)
    requires Sorted(fetched + [run])
    requires forall p: nat :: InRun(fetched + [run], p) <==> InRun(fetched, p) || run.Has(p)
    ensures Prefetched(f, Landed(now, blob, run, start, end), full, blob, fetched + [run], run.end)
  {
    var next := Landed(now, blob, run, start, end);
    forall p: nat ensures p in next.valid <==> p in now.valid || run.Has(p) {
      assert p in Span(run.start, run.end) <==> Within(p, run.start, run.end);
    }
  }

  lemma RunBounds(n: nat, run: PageRun, ps: nat)
    requires ps > 0 && run.start < run.end <= PageCount(n, ps)
    ensures run.start * ps < Min(run.end * ps, n)
    ensures PageCount(Min(run.end * ps, n), ps) == run.end
  {
    PageExists(run.start, n, ps);
    assert run.start * ps < run.end * ps;
    if run.end * ps <= n {
      ExactPages(run.end, ps);
    } else {
      PagesAbove(run.end, n, ps);
    }
  }

  lemma RunsGrow(fetched: seq<PageRun>, run: PageRun, valid: set<nat>)
    requires Sorted(fetched) && (forall k :: 0 <= k < |fetched| ==> fetched[k].end <= run.start)
    ensures Sorted(fetched + [run])
    ensures forall p: nat :: InRun(fetched + [run], p) <==> InRun(fetched, p) || run.Has(p)
  {
    forall p: nat ensures InRun(fetched + [run], p) <==> InRun(fetched, p) || run.Has(p) {
      if InRun(fetched, p) || run.Has(p) { AppendInRun(fetched, run, p); }
      if InRun(fetched + [run], p) {
        var k :| 0 <= k < |fetched + [run]| && (fetched + [run])[k].Has(p);
        if k < |fetched| { assert fetched[k].Has(p); }
      }
    }
  }

  /** A read cut at EOF and padded with zeros. */
  lemma PaddedWindow(full: seq<byte>, at: nat, n: nat, toRead: nat)
    requires at <= |full| && toRead == Min(|full| - at, n)
    ensures full[at..at + toRead] + seq(n - toRead, _ => 0) == Window(full, at, n)
  {}

  lemma ReadByte(f: Lazy, full: seq<byte>, blob: seq<byte>, at: nat, end: nat, o: nat)
    requires f.ps > 0 && Mirrors(f, full, blob) && at <= o < end <= f.nData
    requires forall q: nat :: Within(q, at / f.ps, PageCount(end, f.ps)) ==> q in f.valid
    ensures f.cache[o] == full[o]
  {
    NeededPage(at, o, end, f.ps, f.valid);
    assert At(f.cache, o) == At(full, o);
  }

  lemma NeededPage(at: nat, o: nat, end: nat, ps: nat, valid: set<nat>)
    requires ps > 0 && at <= o < end && forall q: nat :: Within(q, at / ps, PageCount(end, ps)) ==> q in valid
    ensures o / ps in valid
  {
    StoredByteIsMarked(at, o, end, ps);
    assert Within(o / ps, at / ps, PageCount(end, ps));
  }

  /** Bytes on valid pages are the full download's. */
  lemma ReadBack(f: Lazy, full: seq<byte>, blob: seq<byte>, at: nat, end: nat)
    requires f.ps > 0 && Mirrors(f, full, blob) && at <= end <= f.nData
    requires forall q: nat :: Within(q, at / f.ps, PageCount(end, f.ps)) ==> q in f.valid
    ensures f.cache[at..end] == full[at..end]
  {
    forall o | at <= o < end ensures f.cache[o] == full[o] { ReadByte(f, full, blob, at, end, o); }
  }

  lemma ReadOut(f: Lazy, full: seq<byte>, blob: seq<byte>, at: nat, n: nat, toRead: nat)
    requires f.ps > 0 && Mirrors(f, full, blob) && at <= f.nData && toRead == Min(f.nData - at, n)
    requires forall q: nat :: Within(q, at / f.ps, PageCount(Min(at + n, f.nData), f.ps)) ==> q in f.valid
    ensures f.cache[at..at + toRead] + seq(n - toRead, _ => 0) == Window(full, at, n)
  {
    ReadBack(f, full, blob, at, Min(at + n, f.nData));
    PaddedWindow(full, at, n, toRead);
  }

  /** 64 KiB is a whole number of pages, so bootstrapped pages are complete. */
  lemma BootstrapCovers(size: nat, ps: nat)
    requires LegalPageSize(ps)
    ensures forall o: nat :: o < size && o / ps in Span(0, PageCount(Min(BOOTSTRAP, size), ps)) ==> o < BOOTSTRAP
  {
    if BOOTSTRAP < size {
      var k := BOOTSTRAP / ps;
      assert BOOTSTRAP == k * ps;
      ExactPages(k, ps);
      forall o: nat | o / ps in Span(0, k) ensures o < BOOTSTRAP {
        PageOrder(o, k, ps);
      }
    }
  }

  lemma BootstrapMirrors(blob: seq<byte>, ps: nat, cap: nat)
    requires LegalPageSize(ps) && PageCount(|blob|, ps) <= cap
    ensures var n := Min(BOOTSTRAP, |blob|);
      Mirrors(Lazy(ps, Splice(Resize([], |blob|), 0, blob[..n]), |blob|, {}, Span(0, PageCount(n, ps)), cap), blob, blob)
  {
    BootstrapCovers(|blob|, ps);
  }

  // ------------------------------------------------------------------ whole runs

  /** A lazy file, the cache a full download would have, and the blob. */
  datatype State = State(f: Lazy, full: seq<byte>, blob: seq<byte>)

  datatype Op =
    | FetchOp(p: nat)                        // a read that misses page p
    | PrefetchOp(run: PageRun)               // one request of a prefetch
    | WriteOp(at: nat, d: seq<byte>, cap: nat)
    | SyncOp

  /** The blob after a sync that wrote every dirty page. */
  function SyncedBlob(f: Lazy, blob: seq<byte>): (r: seq<byte>)
    requires f.ps > 0
    ensures forall o: nat {:trigger At(r, o)} ::
              At(r, o) == if o >= AlignUp(f.nData) then 0 else if o / f.ps in f.dirty then At(f.cache, o) else At(blob, o)
  {
    seq(AlignUp(f.nData), o requires 0 <= o => if o / f.ps in f.dirty then At(f.cache, o) else At(blob, o))
  }

  ghost predicate Step(s: State, op: Op, s': State)
    requires s.f.ps > 0
  {
    match op
    case FetchOp(p) => p < PageCount(s.f.nData, s.f.ps) && s' == s.(f := Fetched(s.f, s.blob, p))
    case PrefetchOp(run) =>
      && run.start < run.end <= PageCount(s.f.nData, s.f.ps) && (forall q: nat :: run.Has(q) ==> q !in s.f.valid)
      && s' == s.(f := RunFetched(s.f, s.blob, run))
    case WriteOp(at, d, cap) =>
      && PageCount(Max(s.f.nData, at + |d|), s.f.ps) <= cap
      && s' == State(Wrote(s.f, at, d, cap), Splice(s.full, at, d), s.blob)
    case SyncOp => s' == State(s.f.(dirty := {}), s.full, SyncedBlob(s.f, s.blob))
  }

  /** The steps that keep the mirror whatever the blob holds (FetchSafeIffWindowClean, WriteSafeIffCovered). */
  ghost predicate Regular(s: State, op: Op)
    requires s.f.ps > 0
  {
    match op
    case FetchOp(p) => WindowClean(s.f, p)
    case WriteOp(at, d, _) => WriteCovered(s.f, at, d)
    case _ => true
  }

  lemma StepKeeps(s: State, op: Op, s': State)
    requires s.f.ps > 0 && Mirrors(s.f, s.full, s.blob) && Step(s, op, s') && Regular(s, op)
    ensures s'.f.ps == s.f.ps && Mirrors(s'.f, s'.full, s'.blob)
  {
    match op
    case FetchOp(p) => FetchKeeps(s.f, s.full, s.blob, p);
    case PrefetchOp(run) =>
      RunBytes(s.f.nData, run, s.f.ps);
      LandedMirrors(s.f, s.full, s.blob, run, run.start * s.f.ps, Min(run.end * s.f.ps, s.f.nData));
    case WriteOp(at, d, cap) => WriteKeeps(s.f, s.full, s.blob, at, d, cap);
    case SyncOp => SyncMirrors(s.f, s.full, s.blob);
  }

  lemma SyncMirrors(f: Lazy, full: seq<byte>, blob: seq<byte>)
    requires f.ps > 0 && Mirrors(f, full, blob)
    ensures Mirrors(f.(dirty := {}), full, SyncedBlob(f, blob))
  {
    forall o: nat | o < f.nData ensures At(SyncedBlob(f, blob), o) == At(full, o) {
      if o / f.ps in f.dirty { assert At(f.cache, o) == At(full, o); }
    }
    forall o: nat | f.nData <= o ensures At(SyncedBlob(f, blob), o) == 0 {
      assert At(f.cache, o) == 0 && At(blob, o) == 0;
    }
  }

  ghost predicate StepAt(states: seq<State>, ops: seq<Op>, i: nat)
    requires i < |ops| && |states| == |ops| + 1
  {
    states[i].f.ps > 0 && Step(states[i], ops[i], states[i + 1])
  }

  /** A run that starts with a mirror, such as a freshly opened file. */
  ghost predicate Run(states: seq<State>, ops: seq<Op>) {
    && |states| == |ops| + 1 && states[0].f.ps > 0 && Mirrors(states[0].f, states[0].full, states[0].blob)
    && forall i :: 0 <= i < |ops| ==> StepAt(states, ops, i)
  }

  ghost predicate RegularAt(states: seq<State>, ops: seq<Op>, i: nat)
    requires i < |ops| && |states| == |ops| + 1
  {
    states[i].f.ps > 0 && Regular(states[i], ops[i])
  }

  /** In every run of misses, prefetches, writes and syncs whose steps are regular, dirty pages are
      valid and every byte of a valid page is what the full-download cache holds. */
  lemma {:induction false} RunMirrors(states: seq<State>, ops: seq<Op>, i: nat)
    requires Run(states, ops) && i <= |ops| && forall k :: 0 <= k < i ==> RegularAt(states, ops, k)
    ensures states[i].f.ps > 0 && Mirrors(states[i].f, states[i].full, states[i].blob)
  {
    if i > 0 {
      RunMirrors(states, ops, i - 1);
      assert StepAt(states, ops, i - 1) && RegularAt(states, ops, i - 1);
      StepKeeps(states[i - 1], ops[i - 1], states[i]);
    }
  }

  /** A read of such a state returns the full-download cache's bytes, once its pages are valid. */
  lemma RunReads(states: seq<State>, ops: seq<Op>, i: nat, at: nat, n: nat)
    requires Run(states, ops) && i <= |ops| && forall k :: 0 <= k < i ==> RegularAt(states, ops, k)
    requires states[i].f.ps > 0 && at <= states[i].f.nData
    requires var f := states[i].f; forall q: nat :: Within(q, at / f.ps, PageCount(Min(at + n, f.nData), f.ps)) ==> q in f.valid
    ensures var f := states[i].f; var toRead := Min(f.nData - at, n);
      at + toRead <= |f.cache| && f.cache[at..at + toRead] + seq(n - toRead, _ => 0) == Window(states[i].full, at, n)
  {
    RunMirrors(states, ops, i);
    var f := states[i].f;
    ReadOut(f, states[i].full, states[i].blob, at, n, Min(f.nData - at, n));
  }
}
