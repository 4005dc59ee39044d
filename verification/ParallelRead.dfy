/** az_page_blob_read_multi: a blob downloaded in up to 16 concurrent ranged GETs, straight into
    the caller's buffer, with retry rounds. The network delivers body fragments of all requests
    in any interleaving, including the bodies of error responses. */
module ParallelRead {
  import opened Bytes
  import opened AzureErrors
  import opened DirtyRanges
  import opened Chunks
  import BW = BatchWrite

  const MAX_STREAMS: nat := 16
  const READ_RETRIES: nat := 3

  /** The chunk size for a download of `total` bytes. */
  function ChunkSize(total: nat): nat {
    AlignUp((total + MAX_STREAMS - 1) / MAX_STREAMS)
  }

  /** For every size the chunks partition [0, total) into at most 16 non-empty pieces. */
  lemma AtMostSixteen(total: nat)
    requires total > 0
    ensures ChunkSize(total) > 0 && ChunkSize(total) % 512 == 0 && Count(total, ChunkSize(total)) <= 16
    ensures Partition(Cut(total, ChunkSize(total)), total)
  {
    var chunk := ChunkSize(total);
    CutIsPartition(total, chunk);
    PageExists(MAX_STREAMS, total, chunk);
  }

  /** No smaller whole number of sectors would do. */
  lemma NoSmallerChunk(total: nat, sectors: nat)
    requires sectors > 0 && Count(total, sectors * 512) <= 16
    ensures ChunkSize(total) <= sectors * 512
  {
    var c := sectors * 512;
    PageExists(16, total, c);
    assert 16 * c >= total;
    SectorCeiling((total + 15) / 16, sectors);
  }

  lemma SectorCeiling(n: nat, sectors: nat)
    requires n <= sectors * 512
    ensures AlignUp(n) <= sectors * 512
  {}

  /** A fragment of the body answering the request for chunk k. */
  datatype Arrival = Arrival(k: nat, bytes: seq<byte>)

  datatype Round = Round(arrivals: seq<Arrival>, report: BW.Round)

  /** Everything that arrives for chunk k, in order. */
  function Body(arrivals: seq<Arrival>, k: nat): seq<byte> {
    if arrivals == [] then []
    else
      var last := arrivals[|arrivals| - 1];
      Body(arrivals[..|arrivals| - 1], k) + if last.k == k then last.bytes else []
  }

  /** A 2xx answer comes with the whole requested range. */
  ghost predicate Truthful(round: Round, cs: seq<Range>, blob: seq<byte>) {
    && !round.report.leaseLost
    && (forall a :: 0 <= a < |round.arrivals| ==> round.arrivals[a].k < |cs|)
    && (forall e :: 0 <= e < |round.report.events| ==> round.report.events[e].k < |cs|)
    && forall k :: 0 <= k < |cs| && BW.AckedIn(round.report, k) ==>
         Body(round.arrivals, k) == Window(blob, cs[k].off, cs[k].len)
  }

  /** read_chunk_write_cb: copy a fragment behind what was received, never past the chunk. */
  method WriteCallback(dest: array<byte>, c: Range, received: nat, bytes: seq<byte>) returns (received': nat)
    requires c.End() <= dest.Length && received <= c.len
    modifies dest
    ensures received' == Min(received + |bytes|, c.len)
    ensures dest[c.off + received..c.off + received'] == bytes[..received' - received]
    ensures forall o :: 0 <= o < dest.Length && !(c.off + received <= o < c.off + received') ==> dest[o] == old(dest[o])
  {
    var n := |bytes|;
    if received + n > c.len { n := c.len - received; }
    var j := 0;
    while j < n
      invariant 0 <= j <= n
      invariant forall i :: 0 <= i < j ==> dest[c.off + received + i] == bytes[i]
      invariant forall o :: 0 <= o < dest.Length && !(c.off + received <= o < c.off + received + j) ==> dest[o] == old(dest[o])
    {
      dest[c.off + received + j] := bytes[j];
      j := j + 1;
    }
    return received + n;
  }

  /** One chunk: finished and equal to the blob, or starting with what has arrived for it, cut at
      the chunk's end. */
  ghost predicate Piece(dest: seq<byte>, c: Range, done: bool, received: nat, body: seq<byte>, blob: seq<byte>) {
    if done then forall o: nat :: c.Has(o) ==> At(dest, o) == At(blob, o)
    else
      && received == Min(|body|, c.len)
      && forall o: nat :: c.off <= o < c.off + received ==> At(dest, o) == body[o - c.off]
  }

  ghost predicate Filling(dest: seq<byte>, cs: seq<Range>, done: seq<bool>, received: seq<nat>,
                          arrivals: seq<Arrival>, blob: seq<byte>)
    requires |done| == |received| == |cs|
  {
    forall k :: 0 <= k < |cs| ==> Piece(dest, cs[k], done[k], received[k], Body(arrivals, k), blob)
  }

  /** Only chunks that were pending and received something have changed. */
  ghost predicate Confined(dest0: seq<byte>, dest: seq<byte>, cs: seq<Range>, done: seq<bool>, arrivals: seq<Arrival>)
    requires |done| == |cs|
  {
    && |dest| == |dest0|
    && forall o: nat :: At(dest, o) != At(dest0, o) ==> Touched(cs, done, arrivals, o)
  }

  predicate Touched(cs: seq<Range>, done: seq<bool>, arrivals: seq<Arrival>, o: nat)
    requires |done| == |cs|
  {
    exists k :: 0 <= k < |cs| && cs[k].Has(o) && !done[k] && Body(arrivals, k) != []
  }

  /** A fragment for pending chunk k: chunk k grows by it, every other chunk is untouched. */
  lemma ArrivalKeeps(dest: seq<byte>, dest': seq<byte>, cs: seq<Range>, total: nat, done: seq<bool>, received: seq<nat>,
                     arrivals: seq<Arrival>, a: nat, r: nat, blob: seq<byte>)
    requires Partition(cs, total) && |done| == |received| == |cs| && |dest| == |dest'| >= total
    requires a < |arrivals| && arrivals[a].k < |cs| && !done[arrivals[a].k]
    requires Filling(dest, cs, done, received, arrivals[..a], blob)
    requires var k, bytes := arrivals[a].k, arrivals[a].bytes;
      && received[k] <= cs[k].len && cs[k].End() <= |dest| && r == Min(received[k] + |bytes|, cs[k].len)
      && dest'[cs[k].off + received[k]..cs[k].off + r] == bytes[..r - received[k]]
      && forall o :: 0 <= o < |dest| && !(cs[k].off + received[k] <= o < cs[k].off + r) ==> dest'[o] == dest[o]
    ensures Filling(dest', cs, done, received[arrivals[a].k := r], arrivals[..a + 1], blob)
  {
    var k, bytes := arrivals[a].k, arrivals[a].bytes;
    assert arrivals[..a + 1][..a] == arrivals[..a] && arrivals[..a + 1][a] == arrivals[a];
    forall j | 0 <= j < |cs|
      ensures Piece(dest', cs[j], done[j], received[k := r][j], Body(arrivals[..a + 1], j), blob)
    {
      assert Piece(dest, cs[j], done[j], received[j], Body(arrivals[..a], j), blob);
      Inside(cs, total, j);
      if j == k {
        assert Body(arrivals[..a + 1], k) == Body(arrivals[..a], k) + bytes;
        PieceGrows(dest, dest', cs[k], received[k], r, Body(arrivals[..a], k), bytes, blob);
      } else {
        assert Body(arrivals[..a + 1], j) == Body(arrivals[..a], j) + [];
        if j < k { InOrder(cs, total, j, k); } else { InOrder(cs, total, k, j); }
        PieceElsewhere(dest, dest', cs[j], cs[k], done[j], received[j], Body(arrivals[..a], j), blob);
      }
    }
  }

  lemma PieceElsewhere(dest: seq<byte>, dest': seq<byte>, c: Range, other: Range, done: bool, received: nat, body: seq<byte>, blob: seq<byte>)
    requires c.End() <= |dest| == |dest'| && (c.End() <= other.off || other.End() <= c.off)
    requires Piece(dest, c, done, received, body, blob)
    requires forall o :: 0 <= o < |dest| && !other.Has(o) ==> dest'[o] == dest[o]
    ensures Piece(dest', c, done, received, body, blob)
  {
    forall o: nat | c.Has(o) ensures At(dest', o) == At(dest, o) {
      assert !other.Has(o);
    }
  }

  lemma PieceGrows(dest: seq<byte>, dest': seq<byte>, c: Range, received: nat, r: nat, body: seq<byte>, bytes: seq<byte>, blob: seq<byte>)
    requires c.End() <= |dest| == |dest'|
    requires Piece(dest, c, false, received, body, blob) && r == Min(received + |bytes|, c.len)
    requires dest'[c.off + received..c.off + r] == bytes[..r - received]
    requires forall o :: 0 <= o < |dest| && !(c.off + received <= o < c.off + r) ==> dest'[o] == dest[o]
    ensures Piece(dest', c, false, r, body + bytes, blob)
  {
    forall o: nat | c.off <= o < c.off + r ensures At(dest', o) == (body + bytes)[o - c.off] {
      if o < c.off + received {
        assert At(dest', o) == At(dest, o);
      } else {
        assert dest'[o] == dest'[c.off + received..c.off + r][o - c.off - received];
      }
    }
  }

  /** A truthful acknowledgement finishes its chunk. */
  lemma AckFinishes(dest: seq<byte>, c: Range, received: nat, body: seq<byte>, blob: seq<byte>)
    requires Piece(dest, c, false, received, body, blob) && body == Window(blob, c.off, c.len)
    ensures Piece(dest, c, true, received, body, blob)
  {}

  /** The state of a round after the fragments `past`. */
  ghost predicate Receiving(dest0: seq<byte>, dest: seq<byte>, cs: seq<Range>, done: seq<bool>, received: seq<nat>,
                            past: seq<Arrival>, blob: seq<byte>)
  {
    && |done| == |received| == |cs|
    && Filling(dest, cs, done, received, past, blob)
    && Confined(dest0, dest, cs, done, past)
  }

  /** The delivery of one fragment to the request it belongs to. */
  method Deliver(ghost blob: seq<byte>, cs: seq<Range>, ghost total: nat, ghost dest0: seq<byte>, arrivals: seq<Arrival>, a: nat,
                 dest: array<byte>, done: array<bool>, received: array<nat>)
    requires Partition(cs, total) && total <= dest.Length && a < |arrivals| && arrivals[a].k < |cs|
    requires Receiving(dest0, dest[..], cs, done[..], received[..], arrivals[..a], blob)
    modifies dest, received
    ensures Receiving(dest0, dest[..], cs, done[..], received[..], arrivals[..a + 1], blob)
  {
    var k := arrivals[a].k;
    TouchedGrows(cs, done[..], arrivals, a);
    if !done[k] {
      ghost var before, had := dest[..], received[..];
      Inside(cs, total, k);
      assert Piece(before, cs[k], done[..][k], had[k], Body(arrivals[..a], k), blob);
      var r := WriteCallback(dest, cs[k], received[k], arrivals[a].bytes);
      ArrivalKeeps(before, dest[..], cs, total, done[..], had, arrivals, a, r, blob);
      FragmentTouches(cs, done[..], arrivals, a, before, dest[..], had[k], r);
      received[k] := r;
      assert received[..] == had[k := r];
    } else {
      SkippedArrival(dest[..], cs, done[..], received[..], arrivals, a, blob);
    }
  }

  /** One retry round: fresh requests for the pending chunks, fragments into the buffer, then the
      completion messages. */
  method RunRound(ghost blob: seq<byte>, cs: seq<Range>, ghost total: nat, round: Round, dest: array<byte>, done: array<bool>)
    returns (err: Err)
    requires Partition(cs, total) && total <= dest.Length && done.Length == |cs| && Truthful(round, cs, blob)
    requires forall k :: 0 <= k < |cs| && done[k] ==> Piece(dest[..], cs[k], true, 0, [], blob)
    modifies dest, done
    ensures forall k :: 0 <= k < |cs| && done[k] ==> Piece(dest[..], cs[k], true, 0, [], blob)
    ensures forall k :: 0 <= k < |cs| ==> (done[k] <==> old(done[k]) || BW.AckedIn(round.report, k))
    ensures err == BW.FirstError(round.report.events)
    ensures Confined(old(dest[..]), dest[..], cs, old(done[..]), round.arrivals)
  {
    var received := ReceiveAll(blob, cs, total, round.arrivals, dest, done);
    err := Collect(blob, cs, round, dest, done, received);
  }

  /** The fragments of a round, with a fresh counter per chunk. */
  method ReceiveAll(ghost blob: seq<byte>, cs: seq<Range>, ghost total: nat, arrivals: seq<Arrival>, dest: array<byte>, done: array<bool>)
    returns (received: array<nat>)
    requires Partition(cs, total) && total <= dest.Length && done.Length == |cs|
    requires forall a :: 0 <= a < |arrivals| ==> arrivals[a].k < |cs|
    requires forall k :: 0 <= k < |cs| && done[k] ==> Piece(dest[..], cs[k], true, 0, [], blob)
    modifies dest
    ensures received.Length == |cs| && fresh(received)
    ensures Receiving(old(dest[..]), dest[..], cs, done[..], received[..], arrivals, blob)
  {
    received := new nat[|cs|](_ => 0);
    var a := 0;
    assert arrivals[..0] == [];
    while a < |arrivals|
      invariant 0 <= a <= |arrivals|
      invariant Receiving(old(dest[..]), dest[..], cs, done[..], received[..], arrivals[..a], blob)
    {
      Deliver(blob, cs, total, old(dest[..]), arrivals, a, dest, done, received);
      a := a + 1;
    }
    assert arrivals[..a] == arrivals;
  }

  /** Reading the completion messages: a 2xx marks its chunk done. */
  method Collect(ghost blob: seq<byte>, cs: seq<Range>, round: Round, dest: array<byte>, done: array<bool>, received: array<nat>)
    returns (err: Err)
    requires done.Length == |cs| == received.Length && Truthful(round, cs, blob)
    requires Filling(dest[..], cs, done[..], received[..], round.arrivals, blob)
    modifies done
    ensures forall k :: 0 <= k < |cs| && done[k] ==> Piece(dest[..], cs[k], true, 0, [], blob)
    ensures forall k :: 0 <= k < |cs| ==> (done[k] <==> old(done[k]) || BW.AckedIn(round.report, k))
    ensures err == BW.FirstError(round.report.events)
  {
    var events := round.report.events;
    var e := 0;
    err := Ok;
    while e < |events|
      invariant 0 <= e <= |events| && err == BW.FirstError(events[..e])
      invariant forall k :: 0 <= k < |cs| ==> (done[k] <==> old(done[k]) || BW.AckedIn(BW.Round(events[..e], false), k))
    {
      if events[e].answer.Acked() {
        done[events[e].k] := true;
      } else if err == Ok {
        err := events[e].answer.Error();
      }
      BW.AckedSoFar(events, e);
      assert events[..e + 1][..e] == events[..e];
      e := e + 1;
    }
    assert events[..e] == events;
    BW.AckedIgnoresLease(round.report);
    forall k | 0 <= k < |cs| && done[k] ensures Piece(dest[..], cs[k], true, 0, [], blob) {
      assert Piece(dest[..], cs[k], old(done[..])[k], received[..][k], Body(round.arrivals, k), blob);
      if !old(done[k]) { AckFinishes(dest[..], cs[k], received[k], Body(round.arrivals, k), blob); }
    }
  }

  lemma TouchedGrows(cs: seq<Range>, done: seq<bool>, arrivals: seq<Arrival>, a: nat)
    requires |done| == |cs| && a < |arrivals|
    ensures forall o: nat :: Touched(cs, done, arrivals[..a], o) ==> Touched(cs, done, arrivals[..a + 1], o)
  {
    assert arrivals[..a + 1][..a] == arrivals[..a];
    forall o: nat | Touched(cs, done, arrivals[..a], o) ensures Touched(cs, done, arrivals[..a + 1], o) {
      var k :| 0 <= k < |cs| && cs[k].Has(o) && !done[k] && Body(arrivals[..a], k) != [];
      assert Body(arrivals[..a + 1], k) != [];
    }
  }

  lemma FragmentTouches(cs: seq<Range>, done: seq<bool>, arrivals: seq<Arrival>, a: nat, dest: seq<byte>, dest': seq<byte>, received: nat, r: nat)
    requires |done| == |cs| && a < |arrivals| && arrivals[a].k < |cs| && !done[arrivals[a].k] && |dest'| == |dest|
    requires received <= r <= cs[arrivals[a].k].len && r <= received + |arrivals[a].bytes|
    requires forall o :: 0 <= o < |dest| && !(cs[arrivals[a].k].off + received <= o < cs[arrivals[a].k].off + r) ==> dest'[o] == dest[o]
    ensures forall o: nat :: At(dest', o) != At(dest, o) ==> Touched(cs, done, arrivals[..a + 1], o)
  {
    var k := arrivals[a].k;
    assert arrivals[..a + 1][..a] == arrivals[..a] && arrivals[..a + 1][a] == arrivals[a];
    forall o: nat | At(dest', o) != At(dest, o) ensures Touched(cs, done, arrivals[..a + 1], o) {
      assert cs[k].Has(o) && Body(arrivals[..a + 1], k) != [];
    }
  }

  /** A fragment for a chunk without a request in this round changes nothing. */
  lemma SkippedArrival(dest: seq<byte>, cs: seq<Range>, done: seq<bool>, received: seq<nat>, arrivals: seq<Arrival>, a: nat, blob: seq<byte>)
    requires |done| == |received| == |cs| && a < |arrivals| && arrivals[a].k < |cs| && done[arrivals[a].k]
    requires Filling(dest, cs, done, received, arrivals[..a], blob)
    ensures Filling(dest, cs, done, received, arrivals[..a + 1], blob)
  {
    assert arrivals[..a + 1][..a] == arrivals[..a] && arrivals[..a + 1][a] == arrivals[a];
    forall j | 0 <= j < |cs| ensures Piece(dest, cs[j], done[j], received[j], Body(arrivals[..a + 1], j), blob) {
      assert Piece(dest, cs[j], done[j], received[j], Body(arrivals[..a], j), blob);
      assert j != arrivals[a].k ==> Body(arrivals[..a + 1], j) == Body(arrivals[..a], j);
    }
  }

  function Reports(rounds: seq<Round>): (rs: seq<BW.Round>)
    ensures |rs| == |rounds| && forall r :: 0 <= r < |rs| ==> rs[r] == rounds[r].report
  {
    seq(|rounds|, r requires 0 <= r < |rounds| => rounds[r].report)
  }

  /** Some round delivered bytes for the chunk that holds offset `o`. */
  predicate EverTouched(cs: seq<Range>, rounds: seq<Round>, o: nat) {
    exists r, k :: 0 <= r < |rounds| && 0 <= k < |cs| && cs[k].Has(o) && Body(rounds[r].arrivals, k) != []
  }

  /** After some rounds: finished chunks hold the blob, `done` marks the acknowledged ones, and no
      byte changed outside chunks that received something. */
  ghost predicate Progress(dest0: seq<byte>, dest: seq<byte>, cs: seq<Range>, past: seq<Round>, done: seq<bool>, blob: seq<byte>) {
    && |done| == |cs| && |dest| == |dest0|
    && (forall k :: 0 <= k < |cs| && done[k] ==> Piece(dest, cs[k], true, 0, [], blob))
    && (forall k :: 0 <= k < |cs| ==> (done[k] <==> BW.EverAcked(Reports(past), k)))
    && forall o: nat :: At(dest, o) != At(dest0, o) ==> EverTouched(cs, past, o)
  }

  lemma ProgressRound(dest0: seq<byte>, dest: seq<byte>, dest': seq<byte>, cs: seq<Range>, rounds: seq<Round>, r: nat,
                      done: seq<bool>, done': seq<bool>, blob: seq<byte>)
    requires r < |rounds| && |done| == |done'| == |cs| && Progress(dest0, dest, cs, rounds[..r], done, blob)
    requires forall k :: 0 <= k < |cs| && done'[k] ==> Piece(dest', cs[k], true, 0, [], blob)
    requires forall k :: 0 <= k < |cs| ==> (done'[k] <==> done[k] || BW.AckedIn(rounds[r].report, k))
    requires Confined(dest, dest', cs, done, rounds[r].arrivals)
    ensures Progress(dest0, dest', cs, rounds[..r + 1], done', blob)
  {
    var reports := Reports(rounds);
    assert Reports(rounds[..r]) == reports[..r] && Reports(rounds[..r + 1]) == reports[..r + 1];
    BW.EverAckedSoFar(reports, r);
    forall o: nat | At(dest', o) != At(dest0, o) ensures EverTouched(cs, rounds[..r + 1], o) {
      if At(dest', o) != At(dest, o) {
        var k :| 0 <= k < |cs| && cs[k].Has(o) && !done[k] && Body(rounds[r].arrivals, k) != [];
        assert rounds[..r + 1][r] == rounds[r];
      } else {
        var q, k :| 0 <= q < r && 0 <= k < |cs| && cs[k].Has(o) && Body(rounds[..r][q].arrivals, k) != [];
        assert rounds[..r + 1][q] == rounds[..r][q];
      }
    }
  }

  method NextRound(ghost blob: seq<byte>, cs: seq<Range>, ghost total: nat, rounds: seq<Round>, r: nat, ghost dest0: seq<byte>,
                   dest: array<byte>, done: array<bool>) returns (err: Err, allDone: bool)
    requires Partition(cs, total) && total <= dest.Length && done.Length == |cs| && r < |rounds|
    requires AllTruthful(rounds, cs, blob) && Progress(dest0, dest[..], cs, rounds[..r], done[..], blob)
    modifies dest, done
    ensures Progress(dest0, dest[..], cs, rounds[..r + 1], done[..], blob)
    ensures err == BW.FirstError(rounds[r].report.events)
    ensures allDone <==> Finished(done[..])
  {
    ghost var before, had := dest[..], done[..];
    err := RunRound(blob, cs, total, rounds[r], dest, done);
    ProgressRound(dest0, before, dest[..], cs, rounds, r, had, done[..], blob);
    allDone := BW.AllDone(done);
  }

  ghost predicate AllTruthful(rounds: seq<Round>, cs: seq<Range>, blob: seq<byte>) {
    forall r :: 0 <= r < |rounds| ==> Truthful(rounds[r], cs, blob)
  }

  predicate Finished(done: seq<bool>) { forall k :: 0 <= k < |done| ==> done[k] }

  lemma AllPiecesAreBlob(dest: seq<byte>, cs: seq<Range>, total: nat, blob: seq<byte>)
    requires Partition(cs, total) && total <= |dest|
    requires forall k :: 0 <= k < |cs| ==> Piece(dest, cs[k], true, 0, [], blob)
    ensures dest[..total] == Window(blob, 0, total)
  {
    forall o | 0 <= o < total ensures dest[o] == At(blob, o) {
      var k := Find(cs, total, o, 0);
      assert Piece(dest, cs[k], true, 0, [], blob);
      assert At(dest, o) == At(blob, o);
    }
  }

  /** The parallel path: at most four rounds. OK is returned exactly when every chunk was
      acknowledged, and then the buffer is the blob. Nothing outside the chunks that received
      bytes is ever written, whatever the error bodies contained. */
  method ReadChunks(ghost blob: seq<byte>, cs: seq<Range>, total: nat, dest: array<byte>, rounds: seq<Round>)
    returns (rc: Err, used: nat)
    requires Partition(cs, total) && 0 < total <= dest.Length && |rounds| == 4
    requires AllTruthful(rounds, cs, blob)
    modifies dest
    ensures 1 <= used <= 4
    ensures rc == Ok ==> dest[..total] == Window(blob, 0, total)
    ensures rc == Ok <==> BW.AllAcked(Reports(rounds)[..used], |cs|)
    ensures rc != Ok ==> used == 4 || !IsRetryable(BW.FirstError(rounds[used - 1].report.events))
    ensures forall o :: 0 <= o < dest.Length && dest[o] != old(dest[o]) ==> EverTouched(cs, rounds[..used], o)
    // rounds of passing failures do not matter
    ensures forall r: nat :: BW.CompletesAt(Reports(rounds), |cs|, r) ==> rc == Ok
    // what a failed download reports: the earliest failed request of the last round, else an I/O error
    ensures rc != Ok ==> BW.IsEarliest(rounds[used - 1].report.events, if rc == IOError then Ok else rc)
  {
    var done := new bool[|cs|](_ => false);
    var result;
    NoProgress(dest[..], cs, rounds, done[..], blob);
    result, used := RunRounds(blob, cs, total, rounds, old(dest[..]), dest, done);
    var allOk := BW.AllDone(done);
    Verdict(old(dest[..]), dest[..], cs, total, rounds, used, done[..], allOk, blob);
    assert allOk <==> Finished(done[..]);
    forall r: nat | BW.CompletesAt(Reports(rounds), |cs|, r) ensures allOk { BW.Completes(Reports(rounds), |cs|, r, used); }
    BW.FirstErrorIsEarliest(rounds[used - 1].report.events);
    if allOk {
      assert dest[..][..total] == dest[..total];
      return Ok, used;
    }
    return if result == Ok then IOError else result, used;
  }

  /** Rounds until every chunk is done, the round's error is final, or the retries are used up. */
  method RunRounds(ghost blob: seq<byte>, cs: seq<Range>, ghost total: nat, rounds: seq<Round>, ghost dest0: seq<byte>,
                   dest: array<byte>, done: array<bool>)
    returns (result: Err, used: nat)
    requires Partition(cs, total) && total <= dest.Length && done.Length == |cs| && |rounds| == READ_RETRIES + 1
    requires AllTruthful(rounds, cs, blob)
    requires Progress(dest0, dest[..], cs, rounds[..0], done[..], blob)
    modifies dest, done
    ensures 1 <= used <= READ_RETRIES + 1 && Progress(dest0, dest[..], cs, rounds[..used], done[..], blob)
    ensures result == BW.FirstError(rounds[used - 1].report.events)
    ensures Finished(done[..]) || used == READ_RETRIES + 1 || !IsRetryable(result)
    ensures used > 1 ==> !BW.AllAcked(Reports(rounds)[..used - 1], |cs|)
  {
    result, used := Ok, 0;
    var allDone := false;
    while used <= READ_RETRIES && !allDone
      invariant 0 <= used <= READ_RETRIES + 1 && (allDone ==> used > 0)
      invariant Progress(dest0, dest[..], cs, rounds[..used], done[..], blob)
      invariant used > 0 ==> result == BW.FirstError(rounds[used - 1].report.events)
      invariant allDone ==> Finished(done[..])
      invariant used > 0 ==> (allDone <==> BW.AllAcked(Reports(rounds)[..used], |cs|))
      invariant used > 1 ==> !BW.AllAcked(Reports(rounds)[..used - 1], |cs|)
    {
      result, allDone := NextRound(blob, cs, total, rounds, used, dest0, dest, done);
      used := used + 1;
      FinishedIsAcked(dest0, dest[..], cs, rounds, used, done[..], blob);
      if !IsRetryable(result) { return; }
    }
  }

  lemma FinishedIsAcked(dest0: seq<byte>, dest: seq<byte>, cs: seq<Range>, rounds: seq<Round>, used: nat, done: seq<bool>, blob: seq<byte>)
    requires used <= |rounds| && Progress(dest0, dest, cs, rounds[..used], done, blob)
    ensures Finished(done) <==> BW.AllAcked(Reports(rounds)[..used], |cs|)
  {
    assert Reports(rounds[..used]) == Reports(rounds)[..used];
  }

  lemma Verdict(dest0: seq<byte>, dest: seq<byte>, cs: seq<Range>, total: nat, rounds: seq<Round>, used: nat,
                done: seq<bool>, allOk: bool, blob: seq<byte>)
    requires Partition(cs, total) && total <= |dest| && used <= |rounds| && |done| == |cs|
    requires Progress(dest0, dest, cs, rounds[..used], done, blob) && (allOk <==> forall k :: 0 <= k < |done| ==> done[k])
    ensures allOk <==> BW.AllAcked(Reports(rounds)[..used], |cs|)
    ensures allOk ==> dest[..total] == Window(blob, 0, total)
    ensures forall o :: 0 <= o < |dest| && dest[o] != dest0[o] ==> EverTouched(cs, rounds[..used], o)
  {
    assert Reports(rounds[..used]) == Reports(rounds)[..used];
    ChangesAreTouched(dest0, dest, cs, rounds[..used], done, blob);
    if allOk { AllPiecesAreBlob(dest, cs, total, blob); }
  }

  lemma NoProgress(dest: seq<byte>, cs: seq<Range>, rounds: seq<Round>, done: seq<bool>, blob: seq<byte>)
    requires |done| == |cs| && forall k :: 0 <= k < |cs| ==> !done[k]
    ensures Progress(dest, dest, cs, rounds[..0], done, blob)
  {}

  lemma ChangesAreTouched(dest0: seq<byte>, dest: seq<byte>, cs: seq<Range>, past: seq<Round>, done: seq<bool>, blob: seq<byte>)
    requires Progress(dest0, dest, cs, past, done, blob)
    ensures forall o :: 0 <= o < |dest| && dest[o] != dest0[o] ==> EverTouched(cs, past, o)
  {
    forall o | 0 <= o < |dest| && dest[o] != dest0[o] ensures EverTouched(cs, past, o) {
      assert At(dest, o) != At(dest0, o);
    }
  }

  const MIN_PARALLEL: nat := 1024 * 1024

  /** page_blob_read_multi refines one GET: whenever it returns OK the buffer holds the blob's
      first `total` bytes, unless a 1xx or 3xx answer decided the single GET of a small blob; and
      bytes past `total` are never touched. */
  method ReadMulti(ghost blob: seq<byte>, total: nat, dest: array<byte>, rounds: seq<Round>, single: seq<Attempt>) returns (rc: Err)
    requires total <= dest.Length && |rounds| == 4 && |single| > MAX_RETRIES
    requires total >= 0x10_0000 ==> AllTruthful(rounds, Cut(total, Max(1, ChunkSize(total))), blob)
    requires forall i :: 0 <= i < |single| && single[i].answer.Acked() ==> single[i].body == Window(blob, 0, total)
    modifies dest
    ensures rc == Ok && (total < 0x10_0000 ==> !Deciding(single).Hollow()) ==> dest[..total] == Window(blob, 0, total)
    ensures dest[total..] == old(dest[total..])
    ensures total == 0 ==> rc == Ok
    ensures 0 < total < 0x10_0000 ==> rc == Deciding(single).Outcome()
    // a small blob: the buffer starts with the deciding body, whatever that is
    ensures 0 < total < 0x10_0000 && rc == Ok ==>
              var got := Min(|single[Decisive(single, 0)].body|, total);
              dest[..got] == single[Decisive(single, 0)].body[..got] && dest[got..] == old(dest[got..])
    ensures total >= 0x10_0000 && BW.AllAcked(Reports(rounds)[..1], Count(total, Max(1, ChunkSize(total)))) ==> rc == Ok
    ensures total >= 0x10_0000 ==> forall r: nat :: BW.CompletesAt(Reports(rounds), Count(total, Max(1, ChunkSize(total))), r) ==> rc == Ok
  {
    if total == 0 { return Ok; }
    if total < MIN_PARALLEL {
      var body, made, slept;
      rc, body, made, slept := ExecuteWithRetry(single);
      if rc == Ok { CopyBody(dest, body, Min(|body|, total)); }
      return;
    }
    AtMostSixteen(total);
    var used;
    rc, used := ReadChunks(blob, Cut(total, ChunkSize(total)), total, dest, rounds);
    PastTheEnd(dest, total, Cut(total, ChunkSize(total)), rounds[..used], old(dest[..]));
    BW.AckedEarly(Reports(rounds), used, Count(total, ChunkSize(total)));
  }

  method CopyBody(dest: array<byte>, body: seq<byte>, n: nat)
    requires n <= |body| && n <= dest.Length
    modifies dest
    ensures dest[..n] == body[..n] && dest[n..] == old(dest[n..])
  {
    var i := 0;
    while i < n
      invariant 0 <= i <= n && dest[n..] == old(dest[n..])
      invariant forall j :: 0 <= j < i ==> dest[j] == body[j]
    {
      dest[i] := body[i];
      i := i + 1;
    }
  }

  lemma PastTheEnd(dest: array<byte>, total: nat, cs: seq<Range>, past: seq<Round>, dest0: seq<byte>)
    requires Partition(cs, total) && total <= dest.Length == |dest0|
    requires forall o :: 0 <= o < dest.Length && dest[o] != dest0[o] ==> EverTouched(cs, past, o)
    ensures dest[total..] == dest0[total..]
  {
    forall o | total <= o < dest.Length ensures dest[o] == dest0[o] {
      if EverTouched(cs, past, o) {
        var r, k :| 0 <= r < |past| && 0 <= k < |cs| && cs[k].Has(o) && Body(past[r].arrivals, k) != [];
        Inside(cs, total, k);
      }
    }
  }
}
