/** The `.state` sidecar: writeStateFile and readStateFile. The checksum is an arbitrary function. */
module StateFile {
  import opened Options
  import opened Bytes

  // ------------------------------------------------------------------ little-endian numbers

  function Pow256(n: nat): (p: nat)
    ensures p > 0
  {
    if n == 0 then 1 else 256 * Pow256(n - 1)
  }

  /** The n low bytes of v, least significant first. */
  function LE(v: nat, n: nat): (s: seq<byte>)
    ensures |s| == n
  {
    if n == 0 then [] else [(v % 256) as byte] + LE(v / 256, n - 1)
  }

  function FromLE(s: seq<byte>): nat {
    if s == [] then 0 else s[0] as nat + 256 * FromLE(s[1..])
  }

  lemma {:induction false} FromLEBound(s: seq<byte>)
    ensures FromLE(s) < Pow256(|s|)
  {
    if s != [] { FromLEBound(s[1..]); }
  }

  /** Reading inverts writing, and writing inverts reading. */
  lemma {:induction false} ReadAfterWrite(v: nat, n: nat)
    requires v < Pow256(n)
    ensures FromLE(LE(v, n)) == v
  {
    if n > 0 {
      ReadAfterWrite(v / 256, n - 1);
      assert LE(v, n)[1..] == LE(v / 256, n - 1);
    }
  }

  lemma LowByte(low: nat, rest: nat)
    requires low < 256
    ensures (low + 256 * rest) % 256 == low && (low + 256 * rest) / 256 == rest
  {}

  lemma {:induction false} WriteAfterRead(s: seq<byte>)
    ensures LE(FromLE(s), |s|) == s
  {
    if s != [] {
      WriteAfterRead(s[1..]);
      LowByte(s[0] as nat, FromLE(s[1..]));
      assert s == [s[0]] + s[1..];
    }
  }

  lemma {:induction false} LELast(v: nat, n: nat)
    ensures LE(v, n + 1) == LE(v, n) + [(v / Pow256(n) % 256) as byte]
  {
    if n > 0 {
      LELast(v / 256, n - 1);
      DivTwice(v, Pow256(n - 1));
    }
  }

  lemma DivTwice(v: nat, p: nat)
    requires p > 0
    ensures v / 256 / p == v / (256 * p)
  {
    var q, r := v / 256 / p, v / 256 % p;
    assert v / 256 == q * p + r;
    assert v == 256 * (q * p + r) + v % 256;
    assert v == q * (256 * p) + (256 * r + v % 256);
    assert 256 * r + v % 256 < 256 * p;
    PageEdge(q, v, 256 * p);
  }

  lemma {:induction false} FromLELast(s: seq<byte>, b: byte)
    ensures FromLE(s + [b]) == FromLE(s) + b as nat * Pow256(|s|)
  {
    if s == [] {
      assert [b][1..] == [];
    } else {
      FromLELast(s[1..], b);
      assert (s + [b])[1..] == s[1..] + [b];
    }
  }

  /** writeLE32 / writeLE64: byte i is `v >> (8 * i)`. */
  method WriteLE(buf: array<byte>, at: nat, v: nat, n: nat)
    requires at + n <= buf.Length
    modifies buf
    ensures buf[..] == old(buf[..at]) + LE(v, n) + old(buf[at + n..])
  {
    var i := 0;
    while i < n
      invariant 0 <= i <= n
      invariant buf[..at] == old(buf[..at]) && buf[at..at + i] == LE(v, i) && buf[at + i..] == old(buf[at + i..])
    {
      LELast(v, i);
      ghost var rest := old(buf[at + i..]);
      buf[at + i] := (v / Pow256(i) % 256) as byte;
      assert buf[at..at + i + 1] == buf[at..at + i] + [buf[at + i]];
      assert buf[at + i + 1..] == rest[1..];
      i := i + 1;
    }
    assert buf[..] == buf[..at] + buf[at..at + n] + buf[at + n..];
  }

  /** readLE32 / readLE64. */
  method ReadLE(s: seq<byte>) returns (v: nat)
    ensures v == FromLE(s)
  {
    v := 0;
    var i := 0;
    while i < |s|
      invariant 0 <= i <= |s| && v == FromLE(s[..i])
    {
      FromLELast(s[..i], s[i]);
      assert s[..i + 1] == s[..i] + [s[i]];
      v := v + s[i] as nat * Pow256(i);
      i := i + 1;
    }
    assert s[..i] == s;
  }

  // ------------------------------------------------------------------ the format

  const MAGIC: seq<byte> := [83, 81, 79, 83]   // "SQOS"
  const VERSION: nat := 1
  const HEADER: nat := 24
  const MAX_BITMAP: nat := 1024 * 1024

  newtype u32 = x: int | 0 <= x < 0x1_0000_0000

  type Checksum = seq<byte> -> u32

  datatype Saved = Saved(ps: nat, fileSize: int, bitmap: seq<byte>)

  /** What the writer's C types can hold. */
  predicate Widths(s: Saved) {
    && s.ps < 0x8000_0000
    && -0x8000_0000_0000_0000 <= s.fileSize < 0x8000_0000_0000_0000
    && |s.bitmap| < 0x8000_0000
  }

  /** What the reader accepts: a legal page size and a bitmap of 1 byte to 1 MiB. */
  predicate Legal(s: Saved) { Widths(s) && LegalPageSize(s.ps) && 1 <= |s.bitmap| <= MAX_BITMAP }

  /** The cast between the signed size and its unsigned 64-bit image. */
  function ToU64(x: int): (u: nat)
    requires -0x8000_0000_0000_0000 <= x < 0x8000_0000_0000_0000
    ensures u < 0x1_0000_0000_0000_0000
  {
    if x >= 0 then x else x + 0x1_0000_0000_0000_0000
  }

  function FromU64(u: nat): int {
    if u < 0x8000_0000_0000_0000 then u else u - 0x1_0000_0000_0000_0000
  }

  function Header(s: Saved): (h: seq<byte>)
    requires Widths(s)
    ensures |h| == HEADER
  {
    MAGIC + LE(VERSION, 4) + LE(s.ps, 4) + LE(ToU64(s.fileSize), 8) + LE(|s.bitmap|, 4)
  }

  function Encode(s: Saved, crc: Checksum): seq<byte>
    requires Widths(s)
  {
    Header(s) + s.bitmap + LE(crc(Header(s) + s.bitmap) as nat, 4)
  }

  method Copy(buf: array<byte>, at: nat, d: seq<byte>)
    requires at + |d| <= buf.Length
    modifies buf
    ensures buf[..] == old(buf[..at]) + d + old(buf[at + |d|..])
  {
    var i := 0;
    while i < |d|
      invariant 0 <= i <= |d|
      invariant buf[..at] == old(buf[..at]) && buf[at..at + i] == d[..i] && buf[at + i..] == old(buf[at + i..])
    {
      ghost var rest := old(buf[at + i..]);
      buf[at + i] := d[i];
      assert buf[at..at + i + 1] == buf[at..at + i] + [d[i]];
      assert buf[at + i + 1..] == rest[1..];
      i := i + 1;
    }
    assert buf[..] == buf[..at] + buf[at..at + |d|] + buf[at + |d|..];
  }

  /** writeStateFile fills one buffer and writes it out (the write and rename themselves are not
      modelled). An empty bitmap is refused. */
  method WriteStateFile(s: Saved, crc: Checksum) returns (file: Option<seq<byte>>)
    requires Widths(s)
    ensures file == if s.bitmap == [] then None else Some(Encode(s, crc))
  {
    if s.bitmap == [] { return None; }
    var total := HEADER + |s.bitmap| + 4;
    var buf := new byte[total](_ => 0);
    Copy(buf, 0, MAGIC);
    WriteLE(buf, 4, VERSION, 4);
    assert buf[..8] == MAGIC + LE(VERSION, 4);
    WriteLE(buf, 8, s.ps, 4);
    assert buf[..12] == MAGIC + LE(VERSION, 4) + LE(s.ps, 4);
    WriteLE(buf, 12, ToU64(s.fileSize), 8);
    assert buf[..20] == MAGIC + LE(VERSION, 4) + LE(s.ps, 4) + LE(ToU64(s.fileSize), 8);
    WriteLE(buf, 20, |s.bitmap|, 4);
    assert buf[..HEADER] == Header(s);
    Copy(buf, HEADER, s.bitmap);
    assert buf[..HEADER + |s.bitmap|] == Header(s) + s.bitmap;
    var sum := crc(buf[..HEADER + |s.bitmap|]);
    WriteLE(buf, HEADER + |s.bitmap|, sum as nat, 4);
    assert buf[..] == Header(s) + s.bitmap + LE(sum as nat, 4);
    return Some(buf[..]);
  }

  /** The header checks, in the reader's order: page size, file size and bitmap size. */
  method ReadHeader(h: seq<byte>) returns (r: Option<(nat, int, nat)>)
    ensures forall s: Saved :: Legal(s) && HeaderMatches(h, s) ==> r == Some((s.ps, s.fileSize, |s.bitmap|))
    ensures forall s: Saved :: r == Some((s.ps, s.fileSize, |s.bitmap|)) ==> Legal(s) && HeaderMatches(h, s)
  {
    if |h| < HEADER { return None; }
    if h[..4] != MAGIC { return None; }
    var version := ReadLE(h[4..8]);
    if version != VERSION { return None; }
    var ps := ReadLE(h[8..12]);
    var fs := ReadLE(h[12..20]);
    var n := ReadLE(h[20..24]);
    if !LegalPageSize(ps) { return None; }
    if n == 0 || n > MAX_BITMAP { return None; }
    FromLEBound(h[12..20]);
    Pow256Values();
    return Some((ps, FromU64(fs), n));
  }

  /** readStateFile. */
  method ReadStateFile(file: seq<byte>, crc: Checksum) returns (r: Option<Saved>)
    ensures r.Some? ==> Readable(r.value, file, crc)
    ensures forall s: Saved :: Readable(s, file, crc) ==> r == Some(s)
  {
    forall s: Saved | Readable(s, file, crc) ensures Matches(file, s, crc) { EncodeMatches(file, s, crc); }
    var header := ReadHeader(file);
    if header.None? { return None; }
    var (ps, fileSize, n) := header.value;
    if |file| < HEADER + n + 4 { return None; }
    var stored := ReadLE(file[HEADER + n..HEADER + n + 4]);
    if stored != crc(file[..HEADER + n]) as nat { return None; }
    r := Some(Saved(ps, fileSize, file[HEADER..HEADER + n]));
    MatchesEncode(file, r.value, crc);
  }

  lemma Pow256Values()
    ensures Pow256(4) == 0x1_0000_0000 && Pow256(8) == 0x1_0000_0000_0000_0000
  {
    assert Pow256(1) == 256 && Pow256(2) == 65536 && Pow256(3) == 16777216;
    assert Pow256(5) == 256 * Pow256(4) && Pow256(6) == 256 * Pow256(5) && Pow256(7) == 256 * Pow256(6);
  }

  /** A header, field by field. */
  ghost predicate HeaderMatches(h: seq<byte>, s: Saved) {
    && |h| >= HEADER && h[..4] == MAGIC
    && FromLE(h[4..8]) == VERSION && FromLE(h[8..12]) == s.ps
    && FromLE(h[20..24]) == |s.bitmap| && FromU64(FromLE(h[12..20])) == s.fileSize
  }

  /** What the reader's checks amount to. */
  ghost predicate Matches(file: seq<byte>, s: Saved, crc: Checksum) {
    && Widths(s) && |file| >= HEADER + |s.bitmap| + 4 && HeaderMatches(file, s)
    && file[HEADER..HEADER + |s.bitmap|] == s.bitmap
    && FromLE(file[HEADER + |s.bitmap|..HEADER + |s.bitmap| + 4]) == crc(file[..HEADER + |s.bitmap|]) as nat
  }

  lemma HeaderFields(s: Saved)
    requires Widths(s)
    ensures HeaderMatches(Header(s), s)
  {
    HeaderParts(MAGIC, LE(VERSION, 4), LE(s.ps, 4), LE(ToU64(s.fileSize), 8), LE(|s.bitmap|, 4));
    Read32(VERSION);
    Read32(s.ps);
    Read64(s.fileSize);
    Read32(|s.bitmap|);
  }

  lemma {:induction false} Read32(v: nat)
    requires v < 0x1_0000_0000
    ensures FromLE(LE(v, 4)) == v
  {
    Pow256Values();
    ReadAfterWrite(v, 4);
  }

  lemma {:induction false} Read64(x: int)
    requires -0x8000_0000_0000_0000 <= x < 0x8000_0000_0000_0000
    ensures FromU64(FromLE(LE(ToU64(x), 8))) == x
  {
    Pow256Values();
    ReadAfterWrite(ToU64(x), 8);
  }

  /** Where the fields of a header lie. */
  lemma HeaderParts(a: seq<byte>, b: seq<byte>, c: seq<byte>, d: seq<byte>, e: seq<byte>)
    requires |a| == |b| == |c| == |e| == 4 && |d| == 8
    ensures var h := a + b + c + d + e;
      |h| == HEADER && h[..4] == a && h[4..8] == b && h[8..12] == c && h[12..20] == d && h[20..24] == e
  {}

  lemma HeaderOf(h: seq<byte>, s: Saved)
    requires Widths(s) && |h| == HEADER && HeaderMatches(h, s)
    ensures Header(s) == h
  {
    WriteAfterRead(h[4..8]);
    WriteAfterRead(h[8..12]);
    WriteAfterRead(h[12..20]);
    WriteAfterRead(h[20..24]);
    FromLEBound(h[12..20]);
    Pow256Values();
    assert ToU64(s.fileSize) == FromLE(h[12..20]);
    assert h == h[..4] + h[4..8] + h[8..12] + h[12..20] + h[20..24];
  }

  lemma SameHeader(file: seq<byte>, s: Saved)
    requires |file| >= HEADER
    ensures HeaderMatches(file, s) <==> HeaderMatches(file[..HEADER], s)
  {
    var h := file[..HEADER];
    assert file[..4] == h[..4] && file[4..8] == h[4..8] && file[8..12] == h[8..12];
    assert file[12..20] == h[12..20] && file[20..24] == h[20..24];
  }

  lemma EncodeMatches(file: seq<byte>, s: Saved, crc: Checksum)
    requires Widths(s) && Encode(s, crc) <= file
    ensures Matches(file, s, crc)
  {
    var h, n := Header(s), |s.bitmap|;
    HeaderFields(s);
    Pow256Values();
    ReadAfterWrite(crc(h + s.bitmap) as nat, 4);
    assert file[..HEADER] == h;
    SameHeader(file, s);
    assert file[..HEADER + n] == h + s.bitmap;
    assert file[HEADER..HEADER + n] == s.bitmap;
    assert file[HEADER + n..HEADER + n + 4] == LE(crc(h + s.bitmap) as nat, 4);
  }

  lemma {:induction false} Word(s: seq<byte>)
    requires |s| == 4
    ensures FromLE(s) == s[0] as nat + 0x100 * s[1] as nat + 0x1_0000 * s[2] as nat + 0x100_0000 * s[3] as nat
  {
    assert s[1..][1..] == s[2..] && s[2..][1..] == s[3..] && s[3..][1..] == [];
    assert FromLE(s[3..]) == s[3] as nat;
    assert FromLE(s[2..]) == s[2] as nat + 256 * FromLE(s[3..]);
    assert FromLE(s[1..]) == s[1] as nat + 256 * FromLE(s[2..]);
  }

  lemma {:induction false} DoubleWord(s: seq<byte>)
    requires |s| == 8
    ensures FromLE(s) == FromLE(s[..4]) + 0x1_0000_0000 * FromLE(s[4..])
  {
    assert s[1..][1..] == s[2..] && s[2..][1..] == s[3..] && s[3..][1..] == s[4..];
    assert FromLE(s[2..]) == s[2] as nat + 256 * FromLE(s[3..]);
    assert FromLE(s[3..]) == s[3] as nat + 256 * FromLE(s[4..]);
    Word(s[..4]);
  }

  /** The four bytes of f at i, least significant first. */
  function At(f: seq<byte>, i: nat): nat
    requires i + 4 <= |f|
  {
    f[i] as nat + 0x100 * f[i + 1] as nat + 0x1_0000 * f[i + 2] as nat + 0x100_0000 * f[i + 3] as nat
  }

  lemma FieldAt(f: seq<byte>, i: nat)
    requires i + 4 <= |f|
    ensures FromLE(f[i..i + 4]) == At(f, i)
  {
    Word(f[i..i + 4]);
  }

  /** Every file the writer produces, byte by byte. */
  lemma FileLayout(s: Saved, crc: Checksum)
    requires Widths(s)
    ensures var f, n := Encode(s, crc), |s.bitmap|;
      && |f| == 28 + n && f[..8] == [83, 81, 79, 83, 1, 0, 0, 0] && At(f, 8) == s.ps
      && At(f, 12) + 0x1_0000_0000 * At(f, 16) == (if s.fileSize < 0 then 0x1_0000_0000_0000_0000 else 0) + s.fileSize
      && At(f, 20) == n && f[24..24 + n] == s.bitmap && At(f, 24 + n) == crc(f[..24 + n]) as nat
  {
    var f, n := Encode(s, crc), |s.bitmap|;
    EncodeMatches(f, s, crc);
    FirstBytes(s, crc);
    SizeAt(f, s);
    FieldAt(f, 8);
    FieldAt(f, 20);
    FieldAt(f, 24 + n);
  }

  lemma FirstBytes(s: Saved, crc: Checksum)
    requires Widths(s)
    ensures |Encode(s, crc)| >= 8 && Encode(s, crc)[..8] == [83, 81, 79, 83, 1, 0, 0, 0]
  {
    assert Encode(s, crc)[..8] == MAGIC + LE(VERSION, 4);
    assert LE(VERSION, 4) == [1, 0, 0, 0] by { assert LE(0, 3) == [0, 0, 0] by { assert LE(0, 1) == [0]; } }
  }

  lemma SizeAt(f: seq<byte>, s: Saved)
    requires HeaderMatches(f, s) && Widths(s)
    ensures At(f, 12) + 0x1_0000_0000 * At(f, 16) == (if s.fileSize < 0 then 0x1_0000_0000_0000_0000 else 0) + s.fileSize
  {
    FieldAt(f, 12);
    FieldAt(f, 16);
    FromLEBound(f[12..20]);
    Pow256Values();
    DoubleWord(f[12..20]);
    assert f[12..20][..4] == f[12..16] && f[12..20][4..] == f[16..20];
  }

  lemma MatchesEncode(file: seq<byte>, s: Saved, crc: Checksum)
    requires Matches(file, s, crc)
    ensures Encode(s, crc) <= file
  {
    var n := |s.bitmap|;
    SameHeader(file, s);
    HeaderOf(file[..HEADER], s);
    WriteAfterRead(file[HEADER + n..HEADER + n + 4]);
    assert file[..HEADER + n] == file[..HEADER] + file[HEADER..HEADER + n];
    assert file[..HEADER + n + 4] == file[..HEADER + n] + file[HEADER + n..HEADER + n + 4];
  }

  /** No file image starts with the images of two records. */
  lemma OneImage(file: seq<byte>, s: Saved, t: Saved, crc: Checksum)
    requires Widths(s) && Widths(t) && Encode(s, crc) <= file && Encode(t, crc) <= file
    ensures s == t
  {
    EncodeMatches(file, s, crc);
    EncodeMatches(file, t, crc);
  }

  /** What the writer wrote is readable, with anything appended, exactly when the reader's limits
      hold of the record; and then it is read back as that record. The writer does not check them. */
  lemma ReadableIffLegal(s: Saved, extra: seq<byte>, crc: Checksum)
    requires Widths(s)
    ensures s.ps in {512, 1024, 2048, 4096, 8192, 16384, 32768, 65536} && 1 <= |s.bitmap| <= 0x10_0000
            <==> exists t: Saved :: Readable(t, Encode(s, crc) + extra, crc)
    ensures forall t: Saved :: Readable(t, Encode(s, crc) + extra, crc) ==> t == s
  {
    var file := Encode(s, crc) + extra;
    forall t: Saved | Readable(t, file, crc) ensures t == s { OneImage(file, s, t, crc); }
    if Legal(s) { assert Readable(s, file, crc); }
  }

  /** The reader answers with record t. */
  ghost predicate Readable(t: Saved, file: seq<byte>, crc: Checksum) { Legal(t) && Encode(t, crc) <= file }
}
