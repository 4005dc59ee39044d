/** applyIncrementalDiff: patching a cached snapshot with the page ranges that changed since. */
module IncrementalDiff {
  import opened Bytes

  /** A range of Get Page Ranges: `last` is inclusive; clear ranges hold zeros. An empty range
      (last < start) is skipped. */
  datatype DiffRange = DiffRange(start: nat, last: int, clear: bool) {
    predicate Has(o: nat) { start <= o <= last }
    function Len(): int { last - start + 1 }
  }

  predicate Covered(rs: seq<DiffRange>, o: nat) {
    exists k :: 0 <= k < |rs| && rs[k].Has(o)
  }

  /** The service's answer: ranges inside the blob, clear ranges really zero. */
  ghost predicate Truthful(rs: seq<DiffRange>, blob: seq<byte>) {
    && (forall k :: 0 <= k < |rs| ==> rs[k].last < |blob|)
    && forall k, o: nat :: 0 <= k < |rs| && rs[k].clear && rs[k].Has(o) ==> At(blob, o) == 0
  }

  /** Every offset where the zero-extended snapshot differs from the blob is listed. */
  ghost predicate Complete(rs: seq<DiffRange>, snapshot: seq<byte>, blob: seq<byte>) {
    forall o: nat :: o < |blob| && At(snapshot, o) != At(blob, o) ==> Covered(rs, o)
  }

  /** Patch the cache. `answers(i)` says whether the download of range i succeeds. On success the
      cache is the snapshot, resized, with the listed ranges taken from the blob; on failure it is
      unspecified and the caller downloads everything. */
  method PatchCache(snapshot: seq<byte>, blob: seq<byte>, rs: seq<DiffRange>, answers: nat -> bool) returns (ok: bool, cache: seq<byte>)
    requires Truthful(rs, blob)
    ensures ok ==> |cache| == |blob|
    ensures ok ==> forall o: nat :: o < |blob| ==> At(cache, o) == if Covered(rs, o) then At(blob, o) else At(snapshot, o)
    ensures (forall i :: answers(i)) ==> ok
  {
    cache := snapshot;
    if |blob| > |snapshot| { cache := Resize(cache, |blob|); }
    var i := 0;
    while i < |rs|
      invariant 0 <= i <= |rs| && |cache| == Max(|snapshot|, |blob|)
      invariant forall o: nat :: At(cache, o) == if Covered(rs[..i], o) then At(blob, o) else At(snapshot, o)
    {
      var r := rs[i];
      CoveredSoFar(rs, i);
      i := i + 1;
      if r.Len() <= 0 { continue; }
      if r.clear {
        cache := Splice(cache, r.start, seq(r.Len(), _ => 0));
      } else {
        if !answers(i - 1) { return false, cache; }
        cache := Splice(cache, r.start, Window(blob, r.start, r.Len()));
      }
    }
    assert rs[..i] == rs;
    if |blob| < |snapshot| { cache := Resize(cache, |blob|); }
    return true, cache;
  }

  lemma CoveredSoFar(rs: seq<DiffRange>, i: nat)
    requires i < |rs|
    ensures forall o: nat :: Covered(rs[..i + 1], o) <==> Covered(rs[..i], o) || rs[i].Has(o)
  {
    forall o: nat ensures Covered(rs[..i + 1], o) <==> Covered(rs[..i], o) || rs[i].Has(o) {
      if Covered(rs[..i], o) {
        var k :| 0 <= k < i && rs[..i][k].Has(o);
        assert rs[..i + 1][k].Has(o);
      }
      if rs[i].Has(o) { assert rs[..i + 1][i].Has(o); }
      if Covered(rs[..i + 1], o) {
        var k :| 0 <= k < i + 1 && rs[..i + 1][k].Has(o);
        if k < i { assert rs[..i][k].Has(o); }
      }
    }
  }

  /** Patching equals downloading again exactly when the listed ranges are complete, whether the
      blob grew, shrank or kept its size, and however the ranges overlap. */
  lemma PatchIsDownloadIffComplete(snapshot: seq<byte>, blob: seq<byte>, rs: seq<DiffRange>, cache: seq<byte>)
    requires |cache| == |blob|
    requires forall o: nat :: o < |blob| ==> At(cache, o) == if Covered(rs, o) then At(blob, o) else At(snapshot, o)
    ensures cache == blob <==> Complete(rs, snapshot, blob)
  {
    if Complete(rs, snapshot, blob) {
      SameView(cache, blob);
    } else {
      var o: nat :| o < |blob| && At(snapshot, o) != At(blob, o) && !Covered(rs, o);
      assert At(cache, o) != At(blob, o);
    }
  }
}
