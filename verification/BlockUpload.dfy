/** az_block_blob_upload_parallel: Put Block per chunk in retry rounds, then Put Block List. */
module BlockUpload {
  import opened Options
  import opened Bytes
  import opened AzureErrors
  import opened DirtyRanges
  import opened Chunks
  import BW = BatchWrite

  // ------------------------------------------------------------------ block IDs

  /** Decimal digits of n, most significant first, as numbers 0..9. */
  function Digits(n: nat): (ds: seq<nat>)
    ensures |ds| > 0 && forall i :: 0 <= i < |ds| ==> ds[i] < 10
  {
    if n < 10 then [n] else Digits(n / 10) + [n % 10]
  }

  /** `%04d`: pad with zeros to four digits. */
  function Padded(n: nat): (ds: seq<nat>)
    ensures |ds| >= 4 && forall i :: 0 <= i < |ds| ==> ds[i] < 10
  {
    seq(if |Digits(n)| < 4 then 4 - |Digits(n)| else 0, _ => 0) + Digits(n)
  }

  function Value(ds: seq<nat>): nat {
    if ds == [] then 0 else 10 * Value(ds[..|ds| - 1]) + ds[|ds| - 1]
  }

  lemma {:induction false} ValueOfDigits(n: nat)
    ensures Value(Digits(n)) == n
  {
    if n >= 10 {
      ValueOfDigits(n / 10);
      assert Digits(n)[..|Digits(n)| - 1] == Digits(n / 10);
    } else {
      assert [n][..0] == [];
    }
  }

  lemma {:induction false} ValueIgnoresZeros(k: nat, ds: seq<nat>)
    ensures Value(seq(k, _ => 0) + ds) == Value(ds)
  {
    var zs := seq(k, _ => 0);
    if ds == [] {
      assert zs + ds == zs;
      if k > 0 {
        assert zs[..k - 1] == seq(k - 1, _ => 0);
        ValueIgnoresZeros(k - 1, []);
        assert seq(k - 1, _ => 0) + [] == seq(k - 1, _ => 0);
      }
    } else {
      assert (zs + ds)[..|zs + ds| - 1] == zs + ds[..|ds| - 1];
      ValueIgnoresZeros(k, ds[..|ds| - 1]);
    }
  }

  lemma {:induction false} DigitCount(n: nat)
    ensures n < 10 ==> |Digits(n)| == 1
    ensures n < 10000 <==> |Digits(n)| <= 4
  {
    if n >= 10 {
      DigitCount(n / 10);
      if n < 10000 {
        assert n / 10 < 1000 && n / 100 < 100 && n / 1000 < 10;
        assert Digits(n) == Digits(n / 10) + [n % 10];
        if n >= 100 {
          assert n / 10 / 10 == n / 100;
          assert Digits(n / 10) == Digits(n / 100) + [n / 10 % 10];
          if n >= 1000 {
            assert n / 100 / 10 == n / 1000;
            assert Digits(n / 100) == Digits(n / 1000) + [n / 100 % 10];
          }
        }
      } else {
        FiveDigits(n);
      }
    }
  }

  lemma {:induction false} FiveDigits(n: nat)
    requires n >= 10000
    ensures |Digits(n)| >= 5
  {
    var a, b, c, d := n / 10, n / 10 / 10, n / 10 / 10 / 10, n / 10 / 10 / 10 / 10;
    assert a >= 1000 && b >= 100 && c >= 10 && d >= 1;
    assert |Digits(c)| == |Digits(d)| + 1;
    assert |Digits(b)| == |Digits(c)| + 1;
    assert |Digits(a)| == |Digits(b)| + 1;
  }

  /** The raw ID: the six characters of "block-" followed by the padded number, as byte values. */
  function RawId(i: nat): (raw: seq<nat>)
    ensures forall k :: 0 <= k < |raw| ==> raw[k] < 256
  {
    [98, 108, 111, 99, 107, 45] + seq(|Padded(i)|, k requires 0 <= k < |Padded(i)| => 48 + Padded(i)[k])
  }

  /** Base64 as symbol numbers 0..63, with 64 for the padding sign. */
  function Base64(s: seq<nat>): seq<nat> {
    if |s| == 0 then []
    else if |s| == 1 then [s[0] / 4, s[0] % 4 * 16, 64, 64]
    else if |s| == 2 then [s[0] / 4, s[0] % 4 * 16 + s[1] / 16, s[1] % 16 * 4, 64]
    else Group(s[0], s[1], s[2]) + Base64(s[3..])
  }

  function Group(a: nat, b: nat, c: nat): seq<nat> {
    [a / 4, a % 4 * 16 + b / 16, b % 16 * 4 + c / 64, c % 64]
  }

  predicate AllBytes(s: seq<nat>) { forall k :: 0 <= k < |s| ==> s[k] < 256 }

  lemma {:induction false} Base64Length(s: seq<nat>)
    ensures |Base64(s)| == 4 * ((|s| + 2) / 3)
  {
    if |s| >= 3 { Base64Length(s[3..]); }
  }

  /** Base64 loses nothing, whatever the lengths. */
  lemma {:induction false} Base64Injective(a: seq<nat>, b: seq<nat>)
    requires AllBytes(a) && AllBytes(b) && Base64(a) == Base64(b)
    ensures a == b
  {
    if |a| >= 3 && |b| >= 3 {
      var g, h := Group(a[0], a[1], a[2]), Group(b[0], b[1], b[2]);
      assert g == Base64(a)[..4] && h == Base64(b)[..4];
      assert Base64(a)[4..] == Base64(a[3..]) && Base64(b)[4..] == Base64(b[3..]);
      Base64Injective(a[3..], b[3..]);
      GroupUnique(a[0], a[1], a[2], b[0], b[1], b[2]);
      assert a == [a[0], a[1], a[2]] + a[3..] && b == [b[0], b[1], b[2]] + b[3..];
    } else {
      Base64Head(a);
      Base64Head(b);
      assert |a| == |b|;
      if |a| == 2 {
        assert Base64(a)[0] == Base64(b)[0] && Base64(a)[1] == Base64(b)[1] && Base64(a)[2] == Base64(b)[2];
      } else if |a| == 1 {
        assert Base64(a)[0] == Base64(b)[0] && Base64(a)[1] == Base64(b)[1];
      }
    }
  }

  /** The padding signs tell how many bytes the first group holds. */
  lemma {:induction false} Base64Head(s: seq<nat>)
    requires AllBytes(s)
    ensures |Base64(s)| == 0 <==> s == []
    ensures s != [] ==> |Base64(s)| >= 4 && (Base64(s)[2] == 64 <==> |s| == 1) && (Base64(s)[3] == 64 <==> |s| < 3)
  {
    if |s| >= 3 {
      var g := Group(s[0], s[1], s[2]);
      assert Base64(s)[2] == g[2] && Base64(s)[3] == g[3];
    }
  }

  lemma GroupUnique(a: nat, b: nat, c: nat, x: nat, y: nat, z: nat)
    requires a < 256 && b < 256 && c < 256 && x < 256 && y < 256 && z < 256
    requires Group(a, b, c) == Group(x, y, z)
    ensures a == x && b == y && c == z
  {
    var g, h := Group(a, b, c), Group(x, y, z);
    assert g[0] == h[0] && g[1] == h[1] && g[2] == h[2] && g[3] == h[3];
    SplitUnique(a % 4, b / 16, x % 4, y / 16, 16);
    SplitUnique(b % 16, c / 64, y % 16, z / 64, 4);
  }

  lemma SplitUnique(p: nat, x: nat, q: nat, y: nat, m: nat)
    requires (m == 16 || m == 4) && x < m && y < m && p * m + x == q * m + y
    ensures p == q && x == y
  {}

  /** block_make_id. */
  function BlockId(i: nat): seq<nat> { Base64(RawId(i)) }

  /** The numbering scheme keeps its promise of equal raw lengths exactly up to 10000 chunks. */
  lemma RawLength(i: nat)
    ensures i < 10000 <==> |RawId(i)| == 10
  {
    DigitCount(i);
  }

  /** The IDs of all chunks are pairwise distinct; within that limit they are 16 symbols long. */
  lemma BlockIdsDistinct(i: nat, j: nat)
    ensures i < 10000 ==> |BlockId(i)| == 16
    ensures BlockId(i) == BlockId(j) ==> i == j
  {
    RawLength(i);
    Base64Length(RawId(i));
    if BlockId(i) == BlockId(j) {
      Base64Injective(RawId(i), RawId(j));
      SamePadded(i, j);
    }
  }

  /** Three bytes, read as one number, are the four symbols of their group read as one. */
  lemma {:induction false} Base64Groups(s: seq<nat>, j: nat)
    requires AllBytes(s) && 3 * j + 3 <= |s|
    ensures |Base64(s)| >= 4 * j + 4
    ensures var t := Base64(s)[4 * j..4 * j + 4];
      0x1_0000 * s[3 * j] + 0x100 * s[3 * j + 1] + s[3 * j + 2] == 0x4_0000 * t[0] + 0x1000 * t[1] + 0x40 * t[2] + t[3]
      && forall k :: 0 <= k < 4 ==> t[k] < 64
  {
    var g := Group(s[0], s[1], s[2]);
    Base64Length(s);
    if j == 0 {
      assert Base64(s)[..4] == g;
    } else {
      Base64Groups(s[3..], j - 1);
      assert Base64(s)[4 * j..4 * j + 4] == Base64(s[3..])[4 * (j - 1)..4 * (j - 1) + 4];
    }
  }

  /** What stands in a block ID: "block-" and the number in decimal, with at least four digits. */
  lemma RawIdText(i: nat)
    ensures |RawId(i)| >= 10 && forall k :: 0 <= k < 6 ==> RawId(i)[k] == "block-"[k] as nat
    ensures var ds := seq(|RawId(i)| - 6, k requires 0 <= k < |RawId(i)| - 6 => RawId(i)[6 + k] - '0' as int);
      (forall k :: 0 <= k < |ds| ==> 0 <= ds[k] < 10) && ds == Padded(i) && Value(Padded(i)) == i
  {
    PaddedValue(i);
  }

  lemma PaddedValue(i: nat)
    ensures Value(Padded(i)) == i
  {
    ValueOfDigits(i);
    ValueIgnoresZeros(if |Digits(i)| < 4 then 4 - |Digits(i)| else 0, Digits(i));
  }

  lemma SamePadded(i: nat, j: nat)
    requires RawId(i) == RawId(j)
    ensures i == j
  {
    var a, b := Padded(i), Padded(j);
    assert |a| == |RawId(i)| - 6 && |b| == |RawId(j)| - 6;
    forall k | 0 <= k < |a| ensures a[k] == b[k] {
      assert RawId(i)[6 + k] == 48 + a[k] && RawId(j)[6 + k] == 48 + b[k];
    }
    assert a == b;
    PaddedValue(i);
    PaddedValue(j);
  }

  // ------------------------------------------------------------------ staging and commit

  type Staged = map<seq<nat>, seq<byte>>

  function Slice(data: seq<byte>, c: Range): seq<byte>
    requires c.End() <= |data|
  {
    data[c.off..c.End()]
  }

  /** What committing the listed blocks yields, when all of them are staged. */
  function Committed(staged: Staged, ids: seq<seq<nat>>): Option<seq<byte>> {
    if ids == [] then Some([])
    else
      var last := ids[|ids| - 1];
      var init := Committed(staged, ids[..|ids| - 1]);
      if init.None? || last !in staged then None else Some(init.value + staged[last])
  }

  function Ids(n: nat): (ids: seq<seq<nat>>)
    ensures |ids| == n && forall k :: 0 <= k < n ==> ids[k] == BlockId(k)
  {
    seq(n, k requires 0 <= k => BlockId(k))
  }

  /** Every chunk's block is staged under its ID. */
  ghost predicate Holds(staged: Staged, data: seq<byte>, cs: seq<Range>, k: nat)
    requires k < |cs| && cs[k].End() <= |data|
  {
    BlockId(k) in staged && staged[BlockId(k)] == Slice(data, cs[k])
  }

  /** The listed blocks, concatenated in order, are exactly the input. */
  lemma {:induction false} CommitIsPrefix(staged: Staged, data: seq<byte>, cs: seq<Range>, n: nat)
    requires Partition(cs, |data|) && n <= |cs|
    requires forall k :: 0 <= k < |cs| ==> cs[k].End() <= |data|
    requires forall k :: 0 <= k < n ==> Holds(staged, data, cs, k)
    ensures Committed(staged, Ids(n)) == Some(data[..if n == 0 then 0 else cs[n - 1].End()])
  {
    if n > 0 {
      CommitIsPrefix(staged, data, cs, n - 1);
      assert Ids(n)[..n - 1] == Ids(n - 1);
      assert Holds(staged, data, cs, n - 1);
      if n > 1 {
        var m := n - 2;
        assert cs[m].End() == cs[m + 1].off;
      }
      assert data[..cs[n - 1].off] + data[cs[n - 1].off..cs[n - 1].End()] == data[..cs[n - 1].End()];
    }
  }

  const MIN_PARALLEL: nat := 256 * 1024
  const UPLOAD_RETRIES: nat := 3

  /** One round of Put Block requests: `applied` blocks are staged, 2xx answers are recorded. */
  method RunRound(data: seq<byte>, cs: seq<Range>, round: BW.Round, done: array<bool>, staged: Staged)
    returns (err: Err, staged': Staged)
    requires Partition(cs, |data|) && done.Length == |cs| && BW.Truthful([round], |cs|)
    requires forall k :: 0 <= k < |cs| ==> cs[k].End() <= |data|
    requires forall k :: 0 <= k < |cs| && done[k] ==> Holds(staged, data, cs, k)
    modifies done
    ensures forall k :: 0 <= k < |cs| && done[k] ==> Holds(staged', data, cs, k)
    ensures err == BW.FirstError(round.events)
    ensures forall k :: 0 <= k < |cs| ==> (done[k] <==> old(done[k]) || BW.AckedIn(round, k))
  {
    err, staged' := Ok, staged;
    var e := 0;
    var events := round.events;
    while e < |events|
      invariant 0 <= e <= |events| && err == BW.FirstError(events[..e])
      invariant forall k :: 0 <= k < |cs| && done[k] ==> Holds(staged', data, cs, k)
      invariant forall k :: 0 <= k < |cs| ==> (done[k] <==> old(done[k]) || BW.AckedIn(BW.Round(events[..e], false), k))
    {
      var k := events[e].k;
      assert events[e] == [round][0].events[e];
      if events[e].applied {
        StageKeeps(data, cs, done[..], staged', k);
        staged' := staged'[BlockId(k) := Slice(data, cs[k])];
      }
      if events[e].answer.Acked() {
        done[k] := true;
      } else if err == Ok {
        err := events[e].answer.Error();
      }
      BW.AckedSoFar(events, e);
      assert events[..e + 1][..e] == events[..e];
      e := e + 1;
    }
    assert events[..e] == events;
    BW.AckedIgnoresLease(round);
  }

  lemma StageKeeps(data: seq<byte>, cs: seq<Range>, done: seq<bool>, staged: Staged, k: nat)
    requires |done| == |cs| && k < |cs| && forall j :: 0 <= j < |cs| ==> cs[j].End() <= |data|
    requires forall j :: 0 <= j < |cs| && done[j] ==> Holds(staged, data, cs, j)
    ensures Holds(staged[BlockId(k) := Slice(data, cs[k])], data, cs, k)
    ensures forall j :: 0 <= j < |cs| && done[j] ==> Holds(staged[BlockId(k) := Slice(data, cs[k])], data, cs, j)
  {
    forall j | 0 <= j < |cs| && done[j] ensures Holds(staged[BlockId(k) := Slice(data, cs[k])], data, cs, j) {
      BlockIdsDistinct(j, k);
    }
  }

  /** Phase 1: stage every chunk, in at most four rounds. */
  method StageAll(data: seq<byte>, cs: seq<Range>, rounds: seq<BW.Round>, staged: Staged)
    returns (rc: Err, staged': Staged, used: nat)
    requires Partition(cs, |data|) && 0 < |cs|
    requires |rounds| == 4 && BW.Truthful(rounds, |cs|)
    requires forall k :: 0 <= k < |cs| ==> cs[k].End() <= |data|
    ensures 1 <= used <= 4
    ensures rc == Ok <==> BW.AllAcked(rounds[..used], |cs|)
    ensures rc == Ok ==> forall k :: 0 <= k < |cs| ==> Holds(staged', data, cs, k)
    ensures rc == Ok ==> BW.AllAcked(rounds, |cs|)
    ensures rc != Ok ==> used == 4 || !IsRetryable(BW.FirstError(rounds[used - 1].events))
    // rounds of passing failures do not matter
    ensures forall r: nat :: BW.CompletesAt(rounds, |cs|, r) ==> rc == Ok
    // what a failed upload reports: the earliest failed request of the last round, else an I/O error
    ensures rc != Ok ==> BW.IsEarliest(rounds[used - 1].events, if rc == IOError then Ok else rc)
  {
    var allOk, result;
    allOk, result, staged', used := StageRounds(data, cs, rounds, staged);
    forall r: nat | BW.CompletesAt(rounds, |cs|, r) ensures allOk { BW.Completes(rounds, |cs|, r, used); }
    BW.FirstErrorIsEarliest(rounds[used - 1].events);
    if allOk {
      BW.AckedLater(rounds, used, 4, |cs|);
      assert rounds[..4] == rounds;
      return Ok, staged', used;
    }
    return if result == Ok then IOError else result, staged', used;
  }

  method StageRounds(data: seq<byte>, cs: seq<Range>, rounds: seq<BW.Round>, staged: Staged)
    returns (allOk: bool, result: Err, staged': Staged, used: nat)
    requires Partition(cs, |data|) && 0 < |cs|
    requires |rounds| == UPLOAD_RETRIES + 1 && BW.Truthful(rounds, |cs|)
    requires forall k :: 0 <= k < |cs| ==> cs[k].End() <= |data|
    ensures 1 <= used <= UPLOAD_RETRIES + 1
    ensures allOk <==> BW.AllAcked(rounds[..used], |cs|)
    ensures allOk ==> forall k :: 0 <= k < |cs| ==> Holds(staged', data, cs, k)
    ensures result == BW.FirstError(rounds[used - 1].events)
    ensures used > 1 ==> !BW.AllAcked(rounds[..used - 1], |cs|)
    ensures allOk || used == UPLOAD_RETRIES + 1 || !IsRetryable(result)
  {
    var done := new bool[|cs|](_ => false);
    result, staged', used, allOk := Ok, staged, 0, false;
    while used <= UPLOAD_RETRIES && !allOk
      invariant 0 <= used <= UPLOAD_RETRIES + 1 && fresh(done) && done.Length == |cs| && (allOk ==> used > 0)
      invariant Staging(data, cs, rounds[..used], done[..], staged')
      invariant used > 0 ==> result == BW.FirstError(rounds[used - 1].events) && (allOk <==> BW.AllAcked(rounds[..used], |cs|))
      invariant used > 1 ==> !BW.AllAcked(rounds[..used - 1], |cs|)
    {
      result, staged', allOk := NextStage(data, cs, rounds, used, done, staged');
      used := used + 1;
      if !IsRetryable(result) { break; }
    }
  }

  /** `done` marks the acknowledged blocks, and those hold their slices. */
  ghost predicate Staging(data: seq<byte>, cs: seq<Range>, past: seq<BW.Round>, done: seq<bool>, staged: Staged)
    requires forall k :: 0 <= k < |cs| ==> cs[k].End() <= |data|
  {
    && |done| == |cs|
    && forall k :: 0 <= k < |cs| ==> (done[k] <==> BW.EverAcked(past, k)) && (done[k] ==> Holds(staged, data, cs, k))
  }

  method NextStage(data: seq<byte>, cs: seq<Range>, rounds: seq<BW.Round>, r: nat, done: array<bool>, staged: Staged)
    returns (err: Err, staged': Staged, all: bool)
    requires Partition(cs, |data|) && BW.Truthful(rounds, |cs|) && r < |rounds| && done.Length == |cs|
    requires forall k :: 0 <= k < |cs| ==> cs[k].End() <= |data|
    requires Staging(data, cs, rounds[..r], done[..], staged)
    modifies done
    ensures Staging(data, cs, rounds[..r + 1], done[..], staged')
    ensures err == BW.FirstError(rounds[r].events) && (all <==> BW.AllAcked(rounds[..r + 1], |cs|))
  {
    ghost var before := done[..];
    assert [rounds[r]][0] == rounds[r];
    err, staged' := RunRound(data, cs, rounds[r], done, staged);
    BW.EverAckedSoFar(rounds, r);
    forall k | 0 <= k < |cs| ensures done[k] <==> BW.EverAcked(rounds[..r + 1], k) {
      assert before[k] <==> BW.EverAcked(rounds[..r], k);
    }
    all := BW.AllDone(done);
  }

  /** A request with the client's retries that replaces the blob by `content` when applied. */
  method Replace(before: seq<byte>, content: seq<byte>, attempts: seq<Attempt>, applied: seq<bool>) returns (rc: Err, blob: seq<byte>)
    requires |attempts| > MAX_RETRIES && AckedApplied(attempts, applied)
    ensures rc == Deciding(attempts).Outcome()
    ensures blob == if TookEffect(attempts, applied) then content else before
    ensures rc == Ok && !Deciding(attempts).Hollow() ==> blob == content
  {
    OkMeansEffectIff(attempts);
    var body, made, slept;
    rc, body, made, slept := ExecuteWithRetry(attempts);
    blob := before;
    var i := 0;
    while i < made
      invariant 0 <= i <= made
      invariant blob == if true in applied[..i] then content else before
    {
      assert applied[..i + 1] == applied[..i] + [applied[i]];
      if applied[i] { blob := content; }
      i := i + 1;
    }
  }

  /** Upload `data`. Whatever fails, the blob is the old one or exactly the input, never a part or a
      mixture. OK means that it is the input, exactly if the last request was not decided by a 1xx or
      3xx answer. */
  method UploadParallel(before: seq<byte>, staged: Staged, data: seq<byte>, chunk: nat, rounds: seq<BW.Round>,
                        attempts: seq<Attempt>, applied: seq<bool>)
    returns (rc: Err, blob: seq<byte>)
    requires 0 < chunk
    requires |rounds| == 4 && BW.Truthful(rounds, Count(|data|, chunk))
    requires |attempts| > MAX_RETRIES && AckedApplied(attempts, applied)
    ensures rc == Ok ==> blob == if TookEffect(attempts, applied) then data else before
    ensures rc == Ok && !Deciding(attempts).Hollow() ==> blob == data
    ensures blob == before || blob == data
    ensures Deciding(attempts).Outcome() == Ok && BW.AllAcked(rounds[..1], Count(|data|, chunk)) ==> rc == Ok
    ensures |data| < 0x4_0000 || Count(|data|, chunk) <= 1 ==> rc == Deciding(attempts).Outcome()
    // from 256 KiB on, no commit without every block
    ensures |data| >= 0x4_0000 && Count(|data|, chunk) > 1 && !BW.AllAcked(rounds, Count(|data|, chunk)) ==> rc != Ok && blob == before
    ensures forall r: nat :: Deciding(attempts).Outcome() == Ok && BW.CompletesAt(rounds, Count(|data|, chunk), r) ==> rc == Ok
  {
    OkMeansEffectIff(attempts);
    var n := Count(|data|, chunk);
    if |data| < MIN_PARALLEL || n <= 1 {
      rc, blob := Replace(before, data, attempts, applied);
      return;
    }
    var cs := Cut(|data|, chunk);
    CutIsPartition(|data|, chunk);
    forall k | 0 <= k < |cs| ensures cs[k].End() <= |data| { Inside(cs, |data|, k); }
    var staged', used;
    rc, staged', used := StageAll(data, cs, rounds, staged);
    BW.AckedEarly(rounds, used, n);
    if rc != Ok { return rc, before; }
    CommitIsPrefix(staged', data, cs, n);
    assert data[..|data|] == data;
    rc, blob := Replace(before, Committed(staged', Ids(n)).value, attempts, applied);
  }
}
