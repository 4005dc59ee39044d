module Options {
  datatype Option<+T> = None | Some(value: T)
}

/** Byte sequences as files and blobs see them: reading past the end yields zeros,
    writing past the end zero-fills the gap, and sizes come in 512-byte sectors.
    Also the page arithmetic shared by the dirty and valid bitmaps. */
module Bytes {

  newtype byte = x: int | 0 <= x < 256

  const SECTOR: nat := 512

  /** The zero-extended view: what a read at `i` yields. */
  function At(s: seq<byte>, i: nat): byte {
    if i < |s| then s[i] else 0
  }

  /** `pwrite`: store `d` at offset `at`, zero-filling any gap before it. */
  function Splice(s: seq<byte>, at: nat, d: seq<byte>): (r: seq<byte>)
    ensures |r| == if |s| < at + |d| then at + |d| else |s|
    ensures forall i: nat {:trigger r[i]} {:trigger At(r, i)} ::
              At(r, i) == if at <= i < at + |d| then d[i - at] else At(s, i)
  {
    seq(if |s| < at + |d| then at + |d| else |s|,
        i requires 0 <= i => if at <= i < at + |d| then d[i - at] else At(s, i))
  }

  /** `ftruncate` and Azure's page-blob resize: cut, or grow with zeros. */
  function Resize(s: seq<byte>, n: nat): (r: seq<byte>)
    ensures |r| == n
    ensures forall i: nat {:trigger r[i]} {:trigger At(r, i)} ::
              At(r, i) == if i < n then At(s, i) else 0
  {
    seq(n, i requires 0 <= i => At(s, i))
  }

  /** The bytes a read of `n` bytes at `at` returns, zero-filled past the end. */
  function Window(s: seq<byte>, at: nat, n: nat): (r: seq<byte>)
    ensures |r| == n
    ensures forall i: nat {:trigger r[i]} :: i < n ==> r[i] == At(s, at + i)
  {
    seq(n, i requires 0 <= i => At(s, at + i))
  }

  /** Round up to the next sector boundary, as `(n + 511) & ~511` does. */
  function AlignUp(n: nat): (r: nat)
    ensures n <= r < n + SECTOR && r % SECTOR == 0
    ensures n % SECTOR == 0 ==> r == n
  {
    (n + 511) / 512 * 512
  }

  /** Two byte sequences with the same length and the same zero-extended view are equal. */
  lemma SameView(a: seq<byte>, b: seq<byte>)
    requires |a| == |b|
    requires forall i: nat :: i < |a| ==> At(a, i) == At(b, i)
    ensures a == b
  {
    forall i | 0 <= i < |a| ensures a[i] == b[i] {
      assert At(a, i) == At(b, i);
    }
  }

  // ------------------------------------------------------------------ pages

  /** SQLite's legal page sizes. */
  predicate LegalPageSize(ps: nat) {
    ps in {512, 1024, 2048, 4096, 8192, 16384, 32768, 65536}
  }

  function PageCount(n: nat, ps: nat): nat
    requires ps > 0
  {
    (n + ps - 1) / ps
  }

  predicate Within(p: nat, lo: nat, hi: nat) { lo <= p < hi }

  /** The pages [lo, hi). */
  function Span(lo: nat, hi: nat): set<nat> {
    set p: nat | p < hi && Within(p, lo, hi)
  }

  function Min(a: nat, b: nat): nat { if a < b then a else b }

  function Max(a: nat, b: nat): nat { if a < b then b else a }

  lemma {:induction false} TimesMonotone(a: nat, b: nat, m: nat)
    requires a <= b
    ensures a * m <= b * m
  {
    if a < b {
      TimesMonotone(a, b - 1, m);
      assert b * m == (b - 1) * m + m;
    }
  }

  lemma Distributes(a: nat, b: nat, m: nat)
    requires a <= b
    ensures (b - a) * m == b * m - a * m
  {}

  /** The pages before page `q` end below it. */
  lemma PageBefore(p: nat, q: nat, ps: nat)
    requires p < q
    ensures p * ps + ps <= q * ps
  {
    TimesMonotone(p + 1, q, ps);
    assert (p + 1) * ps == p * ps + ps;
  }

  /** `o / ps` is the page whose byte range contains `o`. */
  lemma PageEdge(p: nat, o: nat, ps: nat)
    requires ps > 0
    ensures p == o / ps <==> p * ps <= o < p * ps + ps
  {
    var q, r := o / ps, o % ps;
    assert o == q * ps + r;
    if p < q {
      PageBefore(p, q, ps);
    } else if p > q {
      PageBefore(q, p, ps);
    }
  }

  /** A byte lies before page `p` exactly when its page does. */
  lemma PageOrder(o: nat, p: nat, ps: nat)
    requires ps > 0
    ensures o / ps < p <==> o < p * ps
  {
    var q := o / ps;
    PageEdge(q, o, ps);
    if q < p {
      PageBefore(q, p, ps);
    } else {
      TimesMonotone(p, q, ps);
    }
  }

  /** Page `p` exists in a file of `n` bytes exactly when it starts below `n`. */
  lemma PageExists(p: nat, n: nat, ps: nat)
    requires ps > 0
    ensures p < PageCount(n, ps) <==> p * ps < n
  {
    PageOrder(n + ps - 1, p + 1, ps);
    assert (p + 1) * ps == p * ps + ps;
  }

  /** A byte below `n` lies on one of the file's pages. */
  lemma PageOfByte(o: nat, n: nat, ps: nat)
    requires ps > 0 && o < n
    ensures o / ps < PageCount(n, ps)
  {
    PageEdge(o / ps, o, ps);
    PageExists(o / ps, n, ps);
  }

  lemma SectorSum(x: nat, y: nat)
    requires x % SECTOR == 0 && y % SECTOR == 0
    ensures (x + y) % SECTOR == 0
  {}

  lemma NextMultiple(p: nat, m: nat)
    requires p > 0
    ensures p * m == (p - 1) * m + m
  {}

  lemma {:induction false} MultiplesOfSectors(p: nat, ps: nat)
    requires ps % SECTOR == 0
    ensures (p * ps) % SECTOR == 0
  {
    if p > 0 {
      MultiplesOfSectors(p - 1, ps);
      SectorSum((p - 1) * ps, ps);
      NextMultiple(p, ps);
    }
  }

  /** Pages start and end on sector boundaries, so rounding a size up to a sector
      never reaches a further page. */
  lemma PagesAreSectors(p: nat, ps: nat)
    requires LegalPageSize(ps)
    ensures (p * ps) % SECTOR == 0
  {
    assert ps % SECTOR == 0;
    MultiplesOfSectors(p, ps);
  }

  /** A sector boundary at or above `n` is at or above its rounding. */
  lemma AlignedBelow(n: nat, edge: nat)
    requires edge % SECTOR == 0
    ensures edge < n <==> edge < AlignUp(n)
  {}

  lemma AlignedPageCount(n: nat, ps: nat)
    requires LegalPageSize(ps)
    ensures PageCount(AlignUp(n), ps) == PageCount(n, ps)
  {
    var a, b := PageCount(n, ps), PageCount(AlignUp(n), ps);
    SamePages(a, n, ps);
    if a > 0 { SamePages(a - 1, n, ps); }
  }

  lemma SamePages(p: nat, n: nat, ps: nat)
    requires LegalPageSize(ps)
    ensures p < PageCount(n, ps) <==> p < PageCount(AlignUp(n), ps)
  {
    PagesAreSectors(p, ps);
    AlignedBelow(n, p * ps);
    PageExists(p, n, ps);
    PageExists(p, AlignUp(n), ps);
  }

  lemma DivMonotone(a: nat, b: nat, ps: nat)
    requires ps > 0 && a <= b
    ensures a / ps <= b / ps
  {
    PageEdge(a / ps, a, ps);
    PageOrder(b, a / ps, ps);
  }

  lemma PagesMonotone(a: nat, b: nat, ps: nat)
    requires ps > 0 && a <= b
    ensures PageCount(a, ps) <= PageCount(b, ps)
  {
    DivMonotone(a + ps - 1, b + ps - 1, ps);
  }

  /** Every byte a write stores lies on one of the pages it marks. */
  lemma StoredByteIsMarked(at: nat, o: nat, end: nat, ps: nat)
    requires ps > 0 && at <= o < end
    ensures o / ps in Span(at / ps, PageCount(end, ps))
  {
    PageOfByte(o, end, ps);
    DivMonotone(at, o, ps);
  }
}
