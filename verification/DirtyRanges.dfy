/** Coalescing dirty pages into Put Page ranges (coalesceDirtyRanges). */
module DirtyRanges {
  import opened Bytes
  import opened PageBitmap

  /** The largest Put Page request: 4 MiB. */
  const MAX_PUT_PAGE: nat := 4 * 1024 * 1024

  datatype Range = Range(off: nat, len: nat) {
    predicate Has(o: nat) { off <= o < off + len }
    function End(): nat { off + len }
  }

  predicate Covered(rs: seq<Range>, o: nat) {
    exists k :: 0 <= k < |rs| && rs[k].Has(o)
  }

  /** Each range is one acceptable Put Page request inside the sector-rounded file. */
  predicate Acceptable(r: Range, ps: nat, n: nat) {
    && 0 < r.len <= MAX_PUT_PAGE
    && r.off % SECTOR == 0 && r.len % SECTOR == 0
    && r.End() <= AlignUp(n)
  }

  /** The ranges are sorted, disjoint and acceptable; they cover exactly the dirty pages
      below EOF and no byte of a clean page; and they are as few as the 4 MiB limit allows:
      two ranges touch only where the first one is full. */
  ghost predicate Exact(rs: seq<Range>, dirty: set<nat>, ps: nat, n: nat)
    requires ps > 0
  {
    && (forall k :: 0 <= k < |rs| ==> Acceptable(rs[k], ps, n))
    && (forall j, k :: 0 <= j < k < |rs| ==> rs[j].End() <= rs[k].off)
    && (forall o: nat :: Covered(rs, o) <==> o < AlignUp(n) && o / ps in dirty)
    && (forall k {:trigger rs[k + 1]} :: 0 <= k < |rs| - 1 && rs[k].End() == rs[k + 1].off ==> rs[k].len == MAX_PUT_PAGE)
  }

  // ------------------------------------------------------------------ runs of pages

  /** A run of pages [start, end). */
  datatype PageRun = PageRun(start: nat, end: nat) {
    predicate Has(p: nat) { start <= p < end }
    function Bytes(ps: nat): nat
      requires start <= end
    {
      (end - start) * ps
    }
  }

  /** One run: dirty pages below `i`, no longer than a request may be. */
  ghost predicate DirtyRun(run: PageRun, dirty: set<nat>, i: nat, ps: nat) {
    && run.start < run.end <= i && run.Bytes(ps) <= MAX_PUT_PAGE
    && forall p :: run.Has(p) ==> p in dirty
  }

  predicate InRun(runs: seq<PageRun>, p: nat) {
    exists k :: 0 <= k < |runs| && runs[k].Has(p)
  }

  predicate Sorted(runs: seq<PageRun>) {
    forall j, k :: 0 <= j < k < |runs| ==> runs[j].end <= runs[k].start
  }

  predicate Maximal(runs: seq<PageRun>, ps: nat)
    requires forall k :: 0 <= k < |runs| ==> runs[k].start <= runs[k].end
  {
    forall k {:trigger runs[k + 1]} :: 0 <= k < |runs| - 1 && runs[k].end == runs[k + 1].start
      ==> runs[k].Bytes(ps) == MAX_PUT_PAGE
  }

  /** The statement of Exact at page granularity, for the pages below `i`. */
  ghost predicate RunsBelow(runs: seq<PageRun>, dirty: set<nat>, i: nat, ps: nat) {
    && (forall k :: 0 <= k < |runs| ==> DirtyRun(runs[k], dirty, i, ps))
    && Sorted(runs)
    && (forall p :: 0 <= p < i && p in dirty ==> InRun(runs, p))
    && Maximal(runs, ps)
  }

  /** The scan moves past a clean page, or appends the run it just found. */
  lemma SkipClean(runs: seq<PageRun>, dirty: set<nat>, i: nat, ps: nat)
    requires RunsBelow(runs, dirty, i, ps) && i !in dirty
    ensures RunsBelow(runs, dirty, i + 1, ps)
  {}

  lemma AppendRun(runs: seq<PageRun>, dirty: set<nat>, run: PageRun, ps: nat)
    requires RunsBelow(runs, dirty, run.start, ps) && DirtyRun(run, dirty, run.end, ps)
    requires |runs| > 0 && runs[|runs| - 1].end == run.start ==> runs[|runs| - 1].Bytes(ps) == MAX_PUT_PAGE
    ensures RunsBelow(runs + [run], dirty, run.end, ps)
  {
    AppendSorted(runs, dirty, run, ps);
    forall p | 0 <= p < run.end && p in dirty ensures InRun(runs + [run], p) {
      AppendInRun(runs, run, p);
    }
  }

  lemma AppendSorted(runs: seq<PageRun>, dirty: set<nat>, run: PageRun, ps: nat)
    requires Sorted(runs) && forall k :: 0 <= k < |runs| ==> DirtyRun(runs[k], dirty, run.start, ps)
    ensures Sorted(runs + [run])
  {}

  lemma AppendInRun(runs: seq<PageRun>, run: PageRun, p: nat)
    requires InRun(runs, p) || run.Has(p)
    ensures InRun(runs + [run], p)
  {
    if run.Has(p) {
      assert (runs + [run])[|runs|].Has(p);
    } else {
      var k :| 0 <= k < |runs| && runs[k].Has(p);
      assert (runs + [run])[k].Has(p);
    }
  }

  // ------------------------------------------------------------------ from pages to bytes

  /** A run's sectors, cut at the sector-rounded end of the file. */
  function ToRange(run: PageRun, ps: nat, n: nat): Range
    requires run.start * ps <= Min(run.end * ps, AlignUp(n))
  {
    Range(run.start * ps, Min(run.end * ps, AlignUp(n)) - run.start * ps)
  }

  /** The length the code computes is the length of those sectors. */
  lemma CodeLength(run: PageRun, ps: nat, n: nat)
    requires LegalPageSize(ps) && run.start < run.end && run.start * ps < n
    ensures run.start * ps + run.Bytes(ps) == run.end * ps
    ensures run.start * ps < Min(run.end * ps, AlignUp(n))
    ensures AlignUp(Min(run.end * ps, n) - run.start * ps) == ToRange(run, ps, n).len
  {
    PagesAreSectors(run.start, ps);
    PagesAreSectors(run.end, ps);
    Distributes(run.start, run.end, ps);
    PageBefore(run.start, run.end, ps);
    AlignShift(Min(run.end * ps, n), run.start * ps);
    AlignMin(run.end * ps, n);
  }

  lemma AlignShift(m: nat, base: nat)
    requires base % SECTOR == 0 && base <= m
    ensures base + AlignUp(m - base) == AlignUp(m)
  {
    var k := base / 512;
    assert base == 512 * k;
  }

  lemma AlignMin(a: nat, n: nat)
    requires a % SECTOR == 0
    ensures AlignUp(Min(a, n)) == Min(a, AlignUp(n))
  {}

  /** The range holds exactly the bytes of the run's pages below the rounded end of file. */
  lemma RangeHolds(run: PageRun, ps: nat, n: nat, o: nat)
    requires ps > 0 && run.start * ps <= Min(run.end * ps, AlignUp(n))
    ensures ToRange(run, ps, n).Has(o) <==> run.Has(o / ps) && o < AlignUp(n)
  {
    PageOrder(o, run.start, ps);
    PageOrder(o, run.end, ps);
  }

  lemma RangeAcceptable(run: PageRun, ps: nat, n: nat)
    requires LegalPageSize(ps) && run.start < run.end && run.start * ps < n && run.Bytes(ps) <= MAX_PUT_PAGE
    ensures run.start * ps < Min(run.end * ps, AlignUp(n))
    ensures Acceptable(ToRange(run, ps, n), ps, n)
  {
    CodeLength(run, ps, n);
    PagesAreSectors(run.start, ps);
    PagesAreSectors(run.end, ps);
  }

  lemma RangesInOrder(a: PageRun, b: PageRun, ps: nat, n: nat)
    requires ps > 0 && a.start < a.end <= b.start
    requires b.start * ps < n && a.start * ps < Min(a.end * ps, AlignUp(n)) && b.start * ps < Min(b.end * ps, AlignUp(n))
    ensures ToRange(a, ps, n).End() <= ToRange(b, ps, n).off
    ensures ToRange(a, ps, n).End() == ToRange(b, ps, n).off ==> a.end == b.start
    ensures a.end == b.start ==> ToRange(a, ps, n).len == a.Bytes(ps)
  {
    Distributes(a.start, a.end, ps);
    if a.end < b.start { PageBefore(a.end, b.start, ps); }
  }

  ghost predicate Translates(runs: seq<PageRun>, rs: seq<Range>, ps: nat, n: nat) {
    && |rs| == |runs|
    && forall k :: 0 <= k < |runs| ==>
         && runs[k].start * ps < n && runs[k].start * ps < Min(runs[k].end * ps, AlignUp(n))
         && rs[k] == ToRange(runs[k], ps, n)
  }

  lemma RunsGiveExact(runs: seq<PageRun>, rs: seq<Range>, dirty: set<nat>, ps: nat, n: nat)
    requires LegalPageSize(ps)
    requires RunsBelow(runs, dirty, PageCount(n, ps), ps) && Translates(runs, rs, ps, n)
    ensures Exact(rs, dirty, ps, n)
  {
    forall k | 0 <= k < |rs| ensures Acceptable(rs[k], ps, n) {
      assert DirtyRun(runs[k], dirty, PageCount(n, ps), ps);
      RangeAcceptable(runs[k], ps, n);
    }
    forall j, k | 0 <= j < k < |rs|
      ensures rs[j].End() <= rs[k].off
      ensures rs[j].End() == rs[k].off ==> runs[j].end == runs[k].start && rs[j].len == runs[j].Bytes(ps)
    {
      assert DirtyRun(runs[j], dirty, PageCount(n, ps), ps);
      RangesInOrder(runs[j], runs[k], ps, n);
    }
    forall o: nat ensures Covered(rs, o) <==> o < AlignUp(n) && o / ps in dirty {
      RunsCover(runs, rs, dirty, ps, n, o);
    }
  }

  lemma RunsCover(runs: seq<PageRun>, rs: seq<Range>, dirty: set<nat>, ps: nat, n: nat, o: nat)
    requires LegalPageSize(ps)
    requires RunsBelow(runs, dirty, PageCount(n, ps), ps) && Translates(runs, rs, ps, n)
    ensures Covered(rs, o) <==> o < AlignUp(n) && o / ps in dirty
  {
    if Covered(rs, o) {
      var k :| 0 <= k < |rs| && rs[k].Has(o);
      RangeHolds(runs[k], ps, n, o);
      assert DirtyRun(runs[k], dirty, PageCount(n, ps), ps);
    }
    if o < AlignUp(n) && o / ps in dirty {
      PageOfByte(o, AlignUp(n), ps);
      AlignedPageCount(n, ps);
      assert InRun(runs, o / ps);
      var k :| 0 <= k < |runs| && runs[k].Has(o / ps);
      RangeHolds(runs[k], ps, n, o);
      assert rs[k].Has(o);
    }
  }

  // ------------------------------------------------------------------ the scan

  /** 4 MiB is a whole number of pages. */
  lemma PagesInPut(ps: nat) returns (k: nat)
    requires LegalPageSize(ps)
    ensures k * ps == MAX_PUT_PAGE
  {
    return if ps == 512 then 8192 else if ps == 1024 then 4096 else if ps == 2048 then 2048 else if ps == 4096 then 1024
           else if ps == 8192 then 512 else if ps == 16384 then 256 else if ps == 32768 then 128 else 64;
  }

  /** A run that has not reached 4 MiB has room for one more page. */
  lemma RoomForOneMore(runPages: nat, ps: nat)
    requires LegalPageSize(ps) && runPages * ps < MAX_PUT_PAGE
    ensures (runPages + 1) * ps <= MAX_PUT_PAGE
  {
    var k := PagesInPut(ps);
    if k <= runPages {
      TimesMonotone(k, runPages, ps);
    } else {
      TimesMonotone(runPages + 1, k, ps);
    }
  }

  lemma SubsetSize(a: set<nat>, b: set<nat>)
    requires a <= b
    ensures |a| <= |b|
  {
    if a != {} {
      var x :| x in a;
      SubsetSize(a - {x}, b - {x});
    }
  }

  /** One run: from dirty page `start`, stop at a clean page, at EOF or at 4 MiB. */
  method ScanRun(dirty: Bitmap, ps: nat, nPages: nat, start: nat) returns (end: nat)
    requires LegalPageSize(ps) && start < nPages && start in Pages(dirty.data)
    ensures end <= nPages && DirtyRun(PageRun(start, end), Pages(dirty.data), end, ps)
    ensures end < nPages && end in Pages(dirty.data) ==> PageRun(start, end).Bytes(ps) == MAX_PUT_PAGE
  {
    var i, runPages := start, 0;
    while i < nPages && dirty.Test(i)
      invariant start <= i <= nPages && runPages == i - start
      invariant runPages * ps < MAX_PUT_PAGE
      invariant forall p :: start <= p < i ==> p in Pages(dirty.data)
    {
      RoomForOneMore(runPages, ps);
      runPages := runPages + 1;
      if runPages * ps >= MAX_PUT_PAGE { break; }
      i := i + 1;
    }
    // Stopped by the 4 MiB limit: step past the page that filled the run.
    if i < nPages && dirty.Test(i) && runPages * ps >= MAX_PUT_PAGE {
      i := i + 1;
    }
    return i;
  }

  /** The run at `start` and the request for it. */
  method NextRange(dirty: Bitmap, ps: nat, nData: nat, start: nat) returns (end: nat, r: Range)
    requires LegalPageSize(ps) && start < PageCount(nData, ps) && start in Pages(dirty.data)
    ensures end <= PageCount(nData, ps) && DirtyRun(PageRun(start, end), Pages(dirty.data), end, ps)
    ensures end < PageCount(nData, ps) && end in Pages(dirty.data) ==> PageRun(start, end).Bytes(ps) == MAX_PUT_PAGE
    ensures start * ps < nData && start * ps < Min(end * ps, AlignUp(nData))
    ensures r == ToRange(PageRun(start, end), ps, nData)
  {
    end := ScanRun(dirty, ps, PageCount(nData, ps), start);
    PageExists(start, nData, ps);
    CodeLength(PageRun(start, end), ps, nData);
    var runEnd := Min(start * ps + (end - start) * ps, nData);
    r := Range(start * ps, AlignUp(runEnd - start * ps));
  }

  method Store(ranges: array<Range>, k: nat, r: Range)
    requires k < ranges.Length
    modifies ranges
    ensures ranges[..k + 1] == old(ranges[..k]) + [r]
  {
    ranges[k] := r;
  }

  /** Scan the dirty bitmap into `ranges`. The answer is the number of ranges, or -1 when the
      caller's buffer is too small, which takes more dirty pages than the buffer has slots. */
  method CoalesceDirtyRanges(dirty: Bitmap, ps: nat, nData: nat, ranges: array<Range>, maxRanges: nat)
    returns (n: int)
    requires LegalPageSize(ps) && dirty.Valid() && maxRanges <= ranges.Length
    modifies ranges
    ensures n == -1 || 0 <= n <= maxRanges
    ensures n >= 0 ==> Exact(ranges[..n], Pages(dirty.data), ps, nData)
    ensures n == -1 ==> maxRanges < |Pages(dirty.data)|
  {
    if dirty.nSet == 0 || |dirty.data| == 0 || nData == 0 {
      NothingToCoalesce(Pages(dirty.data), ps, nData);
      assert ranges[..0] == [];
      return 0;
    }
    var nPages := PageCount(nData, ps);
    var nRanges, i := 0, 0;
    ghost var runs: seq<PageRun> := [];
    assert ranges[..0] == [];
    while i < nPages
      invariant i <= nPages && nRanges <= maxRanges
      invariant Scanned(runs, ranges[..nRanges], Pages(dirty.data), i, ps, nData)
    {
      if !dirty.Test(i) {
        ScanSkips(runs, ranges[..nRanges], Pages(dirty.data), i, ps, nData);
        i := i + 1;
        continue;
      }
      var end, r := NextRange(dirty, ps, nData, i);
      if nRanges >= maxRanges {
        RunsNeedPages(runs, Pages(dirty.data), i, ps);
        return -1;
      }
      ScanAppends(runs, ranges[..nRanges], Pages(dirty.data), PageRun(i, end), ps, nData);
      Store(ranges, nRanges, r);
      runs := runs + [PageRun(i, end)];
      nRanges, i := nRanges + 1, end;
    }
    RunsGiveExact(runs, ranges[..nRanges], Pages(dirty.data), ps, nData);
    return nRanges;
  }

  /** What the scan has established when it reaches page `i`. */
  ghost predicate Scanned(runs: seq<PageRun>, rs: seq<Range>, dirty: set<nat>, i: nat, ps: nat, n: nat)
    requires ps > 0
  {
    && RunsBelow(runs, dirty, i, ps) && Translates(runs, rs, ps, n)
    && (|runs| > 0 && runs[|runs| - 1].end == i && i < PageCount(n, ps) && i in dirty
        ==> runs[|runs| - 1].Bytes(ps) == MAX_PUT_PAGE)
  }

  lemma ScanSkips(runs: seq<PageRun>, rs: seq<Range>, dirty: set<nat>, i: nat, ps: nat, n: nat)
    requires ps > 0 && Scanned(runs, rs, dirty, i, ps, n) && i !in dirty
    ensures Scanned(runs, rs, dirty, i + 1, ps, n)
  {
    SkipClean(runs, dirty, i, ps);
    assert |runs| > 0 ==> DirtyRun(runs[|runs| - 1], dirty, i, ps);
  }

  lemma ScanAppends(runs: seq<PageRun>, rs: seq<Range>, dirty: set<nat>, run: PageRun, ps: nat, n: nat)
    requires ps > 0 && Scanned(runs, rs, dirty, run.start, ps, n) && DirtyRun(run, dirty, run.end, ps)
    requires run.start < PageCount(n, ps) && run.start in dirty
    requires run.start * ps < n && run.start * ps < Min(run.end * ps, AlignUp(n))
    requires run.end < PageCount(n, ps) && run.end in dirty ==> run.Bytes(ps) == MAX_PUT_PAGE
    ensures Scanned(runs + [run], rs + [ToRange(run, ps, n)], dirty, run.end, ps, n)
  {
    AppendRun(runs, dirty, run, ps);
  }

  /** Runs start at distinct dirty pages, so there are at most as many runs as dirty pages;
      one more dirty page beyond them makes it strictly fewer. */
  lemma {:induction false} RunStarts(runs: seq<PageRun>, dirty: set<nat>, i: nat, ps: nat) returns (starts: set<nat>)
    requires Sorted(runs) && forall k :: 0 <= k < |runs| ==> DirtyRun(runs[k], dirty, i, ps)
    ensures starts <= dirty && |starts| == |runs| && forall p :: p in starts ==> p < i
  {
    if runs == [] { return {}; }
    var last := runs[|runs| - 1];
    assert DirtyRun(last, dirty, i, ps) && last.Has(last.start);
    var init := runs[..|runs| - 1];
    forall k | 0 <= k < |init| ensures DirtyRun(init[k], dirty, last.start, ps) {
      assert DirtyRun(runs[k], dirty, i, ps);
    }
    starts := RunStarts(init, dirty, last.start, ps);
    starts := starts + {last.start};
  }

  lemma RunsNeedPages(runs: seq<PageRun>, dirty: set<nat>, i: nat, ps: nat)
    requires RunsBelow(runs, dirty, i, ps) && i in dirty
    ensures |runs| < |dirty|
  {
    var starts := RunStarts(runs, dirty, i, ps);
    SubsetSize(starts + {i}, dirty);
  }

  lemma NothingToCoalesce(dirty: set<nat>, ps: nat, n: nat)
    requires ps > 0 && (dirty == {} || n == 0)
    ensures Exact([], dirty, ps, n)
  {}
}
