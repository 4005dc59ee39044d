/** Writing page ranges: the parallel batch of az_page_blob_write_batch against the sequential
    writes it replaces. The network is a schedule: in each retry round, requests complete in
    any order, may be applied although they are reported failed, and may never report at all. */
module BatchWrite {
  import opened Bytes
  import opened AzureErrors

  datatype PageWrite = PageWrite(off: nat, data: seq<byte>) {
    predicate Has(o: nat) { off <= o < off + |data| }
    function Byte(o: nat): byte
      requires Has(o)
    {
      data[o - off]
    }
  }

  predicate InBounds(ws: seq<PageWrite>, size: nat) {
    forall k :: 0 <= k < |ws| ==> ws[k].off + |ws[k].data| <= size
  }

  predicate Disjoint(ws: seq<PageWrite>) {
    forall j, k :: 0 <= j < |ws| && 0 <= k < |ws| && j != k ==>
      ws[j].off + |ws[j].data| <= ws[k].off || ws[k].off + |ws[k].data| <= ws[j].off
  }

  predicate Written(ws: seq<PageWrite>, o: nat) {
    exists k :: 0 <= k < |ws| && ws[k].Has(o)
  }

  /** One request's fate in a round. A 2xx answer is only given for an applied write. */
  datatype Event = Event(k: nat, applied: bool, answer: Answer)

  datatype Round = Round(events: seq<Event>, leaseLost: bool)

  predicate Truthful(rounds: seq<Round>, n: nat) {
    forall r, e :: 0 <= r < |rounds| && 0 <= e < |rounds[r].events| ==>
      && rounds[r].events[e].k < n
      && (rounds[r].events[e].answer.Acked() ==> rounds[r].events[e].applied)
  }

  /** Range `k` was acknowledged by some event of the round. */
  predicate AckedIn(round: Round, k: nat) {
    exists e :: 0 <= e < |round.events| && round.events[e].k == k && round.events[e].answer.Acked()
  }

  predicate EverAcked(rounds: seq<Round>, k: nat) {
    exists r :: 0 <= r < |rounds| && AckedIn(rounds[r], k)
  }

  predicate AllAcked(rounds: seq<Round>, n: nat) {
    forall k :: 0 <= k < n ==> EverAcked(rounds, k)
  }

  /** The first error a round reports, Ok when it reports none. */
  function FirstError(events: seq<Event>): Err {
    if events == [] then Ok
    else
      var before := FirstError(events[..|events| - 1]);
      if before != Ok then before else events[|events| - 1].answer.Error()
  }

  predicate WorthRetrying(round: Round) { IsRetryable(FirstError(round.events)) }

  /** Event i reports an error and none before it does. */
  predicate FailsFirst(events: seq<Event>, i: nat) {
    i < |events| && events[i].answer.Error() != Ok && forall j :: 0 <= j < i ==> events[j].answer.Error() == Ok
  }

  /** The error of the earliest failed event, Ok when no event failed. */
  ghost predicate IsEarliest(events: seq<Event>, e: Err) {
    if e == Ok then forall i :: 0 <= i < |events| ==> events[i].answer.Error() == Ok
    else exists i: nat :: FailsFirst(events, i) && e == events[i].answer.Error()
  }

  lemma {:induction false} FirstErrorIsEarliest(events: seq<Event>)
    ensures IsEarliest(events, FirstError(events))
  {
    if events != [] {
      var n := |events| - 1;
      var init := events[..n];
      FirstErrorIsEarliest(init);
      if FirstError(init) != Ok {
        var i: nat :| FailsFirst(init, i) && FirstError(init) == init[i].answer.Error();
        assert FailsFirst(events, i);
      } else {
        forall j | 0 <= j < n ensures events[j].answer.Error() == Ok {
          assert init[j] == events[j];
        }
        if events[n].answer.Error() != Ok { assert FailsFirst(events, n); }
      }
    }
  }

  /** A round that some request failed in, each of them in a way worth another round. */
  predicate PassingFailures(round: Round) {
    && !round.leaseLost
    && (exists i :: 0 <= i < |round.events| && round.events[i].answer.RoundRetried())
    && forall i :: 0 <= i < |round.events| ==>
         round.events[i].answer.Acked() || round.events[i].answer.Silent? || round.events[i].answer.RoundRetried()
  }

  lemma PassingIsRetried(round: Round)
    requires PassingFailures(round)
    ensures WorthRetrying(round)
  {
    var es := round.events;
    FirstErrorIsEarliest(es);
    var i :| 0 <= i < |es| && es[i].answer.RoundRetried();
    assert IsRetryable(es[i].answer.Error());
    var j: nat :| FailsFirst(es, j) && FirstError(es) == es[j].answer.Error();
    assert es[j].answer.RoundRetried();
  }

  /** Round r, at most the fourth, completes the batch after rounds of passing failures only. */
  ghost predicate CompletesAt(rounds: seq<Round>, n: nat, r: nat) {
    && r < 4 && r < |rounds| && !rounds[r].leaseLost && AllAcked(rounds[..r + 1], n)
    && forall q :: 0 <= q < r ==> PassingFailures(rounds[q])
  }

  lemma AckedLater(rounds: seq<Round>, r: nat, q: nat, n: nat)
    requires r <= q <= |rounds| && AllAcked(rounds[..r], n)
    ensures AllAcked(rounds[..q], n)
  {
    forall k | 0 <= k < n ensures EverAcked(rounds[..q], k) {
      assert EverAcked(rounds[..r], k);
      var i :| 0 <= i < r && AckedIn(rounds[..r][i], k);
      assert rounds[..q][i] == rounds[..r][i];
    }
  }

  /** Such a batch does not stop earlier, except by having everything acknowledged. */
  lemma Completes(rounds: seq<Round>, n: nat, r: nat, used: nat)
    requires |rounds| == 4 && CompletesAt(rounds, n, r) && 1 <= used <= 4
    requires used > 1 ==> !AllAcked(rounds[..used - 1], n)
    requires used == 4 || rounds[used - 1].leaseLost || AllAcked(rounds[..used], n) || !WorthRetrying(rounds[used - 1])
    ensures AllAcked(rounds[..used], n) && !rounds[used - 1].leaseLost
  {
    if used - 1 < r {
      PassingIsRetried(rounds[used - 1]);
    } else if used - 1 > r {
      AckedLater(rounds, r + 1, used - 1, n);
    }
  }

  // ------------------------------------------------------------------ sequential reference

  /** Writing the ranges one after the other. */
  function WriteAll(blob: seq<byte>, ws: seq<PageWrite>): seq<byte> {
    if ws == [] then blob
    else
      var last := ws[|ws| - 1];
      Splice(WriteAll(blob, ws[..|ws| - 1]), last.off, last.data)
  }

  /** The blob is what writing the ranges one after the other produces. */
  predicate HoldsAll(blob0: seq<byte>, ws: seq<PageWrite>, blob: seq<byte>) { blob == WriteAll(blob0, ws) }

  lemma {:induction false} WriteAllBytes(blob: seq<byte>, ws: seq<PageWrite>, o: nat)
    requires InBounds(ws, |blob|) && Disjoint(ws)
    ensures |WriteAll(blob, ws)| == |blob|
    ensures forall k :: 0 <= k < |ws| && ws[k].Has(o) ==> At(WriteAll(blob, ws), o) == ws[k].Byte(o)
    ensures !Written(ws, o) ==> At(WriteAll(blob, ws), o) == At(blob, o)
  {
    if ws != [] {
      var n := |ws| - 1;
      var init, last := ws[..n], ws[n];
      WriteAllBytes(blob, init, o);
      var mid := WriteAll(blob, init);
      assert WriteAll(blob, ws) == Splice(mid, last.off, last.data);
      forall k | 0 <= k < |ws| && ws[k].Has(o) ensures At(WriteAll(blob, ws), o) == ws[k].Byte(o) {
        if k < n { assert init[k] == ws[k] && !last.Has(o); }
      }
      if Written(init, o) {
        var k :| 0 <= k < |init| && init[k].Has(o);
        assert ws[k].Has(o);
      }
      if last.Has(o) { assert ws[n].Has(o); }
    }
  }

  /** Byte `o` holds what one of the writes stores there. */
  predicate NewByte(ws: seq<PageWrite>, blob: seq<byte>, o: nat) {
    exists k :: 0 <= k < |ws| && ws[k].Has(o) && At(blob, o) == ws[k].Byte(o)
  }

  /** Only bytes of the ranges have changed, and only to their new value. */
  ghost predicate ChangesWithin(blob0: seq<byte>, ws: seq<PageWrite>, blob: seq<byte>) {
    && |blob| == |blob0|
    && forall o: nat :: At(blob, o) != At(blob0, o) ==> NewByte(ws, blob, o)
  }

  // ------------------------------------------------------------------ the batch

  /** Where the blob stands: each byte is old or new, new for every finished range, and only
      bytes of some range ever change. */
  ghost predicate Underway(blob0: seq<byte>, ws: seq<PageWrite>, done: seq<bool>, blob: seq<byte>)
    requires |done| == |ws|
  {
    && |blob| == |blob0|
    && (forall k, o: nat :: 0 <= k < |ws| && ws[k].Has(o) ==>
          || At(blob, o) == ws[k].Byte(o)
          || (!done[k] && At(blob, o) == At(blob0, o)))
    && (forall o: nat :: !Written(ws, o) ==> At(blob, o) == At(blob0, o))
  }

  lemma ApplyKeeps(blob0: seq<byte>, ws: seq<PageWrite>, done: seq<bool>, blob: seq<byte>, k: nat)
    requires |done| == |ws| && k < |ws| && InBounds(ws, |blob0|) && Disjoint(ws)
    requires Underway(blob0, ws, done, blob)
    ensures Underway(blob0, ws, done, Splice(blob, ws[k].off, ws[k].data))
    ensures Underway(blob0, ws, done[k := true], Splice(blob, ws[k].off, ws[k].data))
  {
    var blob' := Splice(blob, ws[k].off, ws[k].data);
    var done' := done[k := true];
    forall j, o: nat | 0 <= j < |ws| && ws[j].Has(o)
      ensures At(blob', o) == ws[j].Byte(o) || (!done'[j] && At(blob', o) == At(blob0, o))
    {
      ApplyByte(blob0, ws, done, blob, k, j, o);
    }
    forall o: nat | !Written(ws, o) ensures At(blob', o) == At(blob0, o) {
      assert !ws[k].Has(o);
    }
    FewerDone(blob0, ws, done, done', blob');
  }

  lemma FewerDone(blob0: seq<byte>, ws: seq<PageWrite>, done: seq<bool>, more: seq<bool>, blob: seq<byte>)
    requires |done| == |more| == |ws| && Underway(blob0, ws, more, blob)
    requires forall k :: 0 <= k < |done| && done[k] ==> more[k]
    ensures Underway(blob0, ws, done, blob)
  {}

  lemma ApplyByte(blob0: seq<byte>, ws: seq<PageWrite>, done: seq<bool>, blob: seq<byte>, k: nat, j: nat, o: nat)
    requires |done| == |ws| && k < |ws| && Disjoint(ws) && j < |ws| && ws[j].Has(o)
    requires At(blob, o) == ws[j].Byte(o) || (!done[j] && At(blob, o) == At(blob0, o))
    ensures var blob' := Splice(blob, ws[k].off, ws[k].data);
      At(blob', o) == ws[j].Byte(o) || (!done[j] && j != k && At(blob', o) == At(blob0, o))
  {
    assert j != k ==> !ws[k].Has(o);
  }

  lemma {:induction false} AllDoneIsWriteAll(blob0: seq<byte>, ws: seq<PageWrite>, done: seq<bool>, blob: seq<byte>)
    requires |done| == |ws| && InBounds(ws, |blob0|) && Disjoint(ws)
    requires Underway(blob0, ws, done, blob) && forall k :: 0 <= k < |ws| ==> done[k]
    ensures blob == WriteAll(blob0, ws)
  {
    WriteAllBytes(blob0, ws, 0);
    forall o: nat | o < |blob| ensures At(blob, o) == At(WriteAll(blob0, ws), o) {
      WriteAllBytes(blob0, ws, o);
      if Written(ws, o) {
        var k :| 0 <= k < |ws| && ws[k].Has(o);
      }
    }
    SameView(blob, WriteAll(blob0, ws));
  }

  const BATCH_MAX_RETRIES: nat := 3

  /** One round: drive the requests, then collect completion messages into `done`. */
  method RunRound(ghost blob0: seq<byte>, ws: seq<PageWrite>, round: Round, done: array<bool>, blob: seq<byte>)
    returns (err: Err, blob': seq<byte>)
    requires done.Length == |ws| && InBounds(ws, |blob0|) && Disjoint(ws) && Truthful([round], |ws|)
    requires Underway(blob0, ws, done[..], blob)
    modifies done
    ensures Underway(blob0, ws, done[..], blob')
    ensures err == FirstError(round.events)
    ensures forall k :: 0 <= k < |ws| ==> (done[k] <==> old(done[k]) || AckedIn(round, k))
  {
    err, blob' := Ok, blob;
    var e := 0;
    assert round == [round][0];
    while e < |round.events|
      invariant 0 <= e <= |round.events|
      invariant Underway(blob0, ws, done[..], blob')
      invariant err == FirstError(round.events[..e])
      invariant forall k :: 0 <= k < |ws| ==> (done[k] <==> old(done[k]) || AckedIn(Round(round.events[..e], false), k))
    {
      var event := round.events[e];
      assert event == [round][0].events[e];
      if event.applied {
        ApplyKeeps(blob0, ws, done[..], blob', event.k);
        blob' := Splice(blob', ws[event.k].off, ws[event.k].data);
      }
      ghost var before := done[..];
      if event.answer.Acked() {
        done[event.k] := true;
        assert done[..] == before[event.k := true];
      } else if err == Ok {
        err := event.answer.Error();
      }
      AckedSoFar(round.events, e);
      assert round.events[..e + 1][..e] == round.events[..e];
      e := e + 1;
    }
    assert round.events[..e] == round.events;
    AckedIgnoresLease(round);
  }

  lemma AckedSoFar(events: seq<Event>, e: nat)
    requires e < |events|
    ensures forall k :: AckedIn(Round(events[..e + 1], false), k) <==>
              AckedIn(Round(events[..e], false), k) || (events[e].k == k && events[e].answer.Acked())
  {
    forall k: nat
      ensures AckedIn(Round(events[..e + 1], false), k) <==>
                AckedIn(Round(events[..e], false), k) || (events[e].k == k && events[e].answer.Acked())
    {
      if AckedIn(Round(events[..e], false), k) {
        var i :| 0 <= i < e && events[..e][i].k == k && events[..e][i].answer.Acked();
        assert events[..e + 1][i] == events[..e][i];
      }
      if events[e].k == k && events[e].answer.Acked() { assert events[..e + 1][e] == events[e]; }
      if AckedIn(Round(events[..e + 1], false), k) {
        var i :| 0 <= i < e + 1 && events[..e + 1][i].k == k && events[..e + 1][i].answer.Acked();
        if i < e { assert events[..e][i] == events[..e + 1][i]; }
      }
    }
  }

  lemma AckedIgnoresLease(round: Round)
    ensures forall k :: AckedIn(Round(round.events, false), k) <==> AckedIn(round, k)
  {
    assert Round(round.events, false).events == round.events;
  }

  method AllDone(done: array<bool>) returns (all: bool)
    ensures all <==> forall k :: 0 <= k < done.Length ==> done[k]
  {
    var i := 0;
    while i < done.Length
      invariant 0 <= i <= done.Length && forall k :: 0 <= k < i ==> done[k]
    {
      if !done[i] { return false; }
      i := i + 1;
    }
    return true;
  }

  /** The argument checks of az_page_blob_write. */
  predicate ArgsOk(w: PageWrite) {
    w.off % SECTOR == 0 && |w.data| % SECTOR == 0 && 0 < |w.data| <= 4 * 1024 * 1024
  }

  /** Error code and blob after one write request. */
  function OneWrite(blob0: seq<byte>, w: PageWrite, attempts: seq<Attempt>, applied: seq<bool>): (Err, seq<byte>)
    requires |applied| == |attempts| > MAX_RETRIES
  {
    if !ArgsOk(w) then (InvalidArg, blob0)
    else (Deciding(attempts).Outcome(), if TookEffect(attempts, applied) then Splice(blob0, w.off, w.data) else blob0)
  }

  /** az_page_blob_write: argument checks, then one request with the client's own retries.
      `applied[i]` says whether attempt i reached the blob. */
  method WriteOne(blob0: seq<byte>, w: PageWrite, attempts: seq<Attempt>, applied: seq<bool>)
    returns (rc: Err, blob: seq<byte>)
    requires |attempts| > MAX_RETRIES && AckedApplied(attempts, applied)
    ensures (rc, blob) == OneWrite(blob0, w, attempts, applied)
    ensures rc == Ok && !Deciding(attempts).Hollow() ==> HoldsAll(blob0, [w], blob)
    ensures blob == blob0 || blob == Splice(blob0, w.off, w.data)
    ensures !ArgsOk(w) ==> rc == InvalidArg && blob == blob0
    // up to five passing failures do not matter
    ensures forall k: nat :: ArgsOk(w) && FailsUntil(attempts, k) && attempts[k].answer.Acked() ==>
              rc == Ok && blob == Splice(blob0, w.off, w.data)
    ensures ArgsOk(w) ==> rc != InvalidArg && (rc == Precondition ==> exists k: nat :: FailsUntil(attempts, k) && attempts[k].answer.Refused(412))
  {
    OneWriteHolds(blob0, w, attempts, applied);
    forall k: nat | FailsUntil(attempts, k) && attempts[k].answer.Acked() ensures Decisive(attempts, 0) == k && TookEffect(attempts, applied) {
      DecisiveAt(attempts, k);
      assert applied[..k + 1][k];
    }
    DecisiveFails(attempts);
    if w.off % SECTOR != 0 || |w.data| % SECTOR != 0 || |w.data| > 4 * 1024 * 1024 || |w.data| == 0 {
      return InvalidArg, blob0;
    }
    var made, body, slept;
    rc, body, made, slept := ExecuteWithRetry(attempts);
    blob := Arrivals(blob0, w, applied[..made]);
  }

  lemma {:induction false} OneWriteHolds(blob0: seq<byte>, w: PageWrite, attempts: seq<Attempt>, applied: seq<bool>)
    requires |attempts| > MAX_RETRIES && AckedApplied(attempts, applied)
    ensures OneWrite(blob0, w, attempts, applied).0 == Ok && !Deciding(attempts).Hollow()
            ==> HoldsAll(blob0, [w], OneWrite(blob0, w, attempts, applied).1)
  {
    WriteAllOne(blob0, w);
    OkMeansEffectIff(attempts);
  }

  /** Does OK mean that the range is written, whatever the blob held and the network did? */
  ghost predicate OkMeansWritten(w: PageWrite, attempts: seq<Attempt>)
    requires |attempts| > MAX_RETRIES
  {
    forall blob0: seq<byte>, applied: seq<bool> ::
      AckedApplied(attempts, applied) && OneWrite(blob0, w, attempts, applied).0 == Ok
      ==> HoldsAll(blob0, [w], OneWrite(blob0, w, attempts, applied).1)
  }

  /** Exactly when the deciding answer is no 1xx or 3xx. */
  lemma {:induction false} OkMeansWrittenIff(w: PageWrite, attempts: seq<Attempt>)
    requires |attempts| > MAX_RETRIES && ArgsOk(w)
    ensures OkMeansWritten(w, attempts) <==> !Deciding(attempts).Hollow()
  {
    OkMeansEffectIff(attempts);
    if Deciding(attempts).Hollow() {
      var applied: seq<bool> :| AckedApplied(attempts, applied) && !TookEffect(attempts, applied);
      WriteAllOne([], w);
      assert At(Splice([], w.off, w.data), w.off) == w.data[0];
      assert |Splice([], w.off, w.data)| > 0;
      assert !HoldsAll([], [w], OneWrite([], w, attempts, applied).1);
    } else {
      forall blob0: seq<byte>, applied: seq<bool> | AckedApplied(attempts, applied) && OneWrite(blob0, w, attempts, applied).0 == Ok
        ensures HoldsAll(blob0, [w], OneWrite(blob0, w, attempts, applied).1)
      {
        OneWriteHolds(blob0, w, attempts, applied);
      }
    }
  }

  /** A Put Page answered with 304 is reported as OK and leaves any blob unwritten. */
  lemma NotModifiedLosesWrite(blob0: seq<byte>, w: PageWrite)
    requires ArgsOk(w)
    ensures var attempts := seq(MAX_RETRIES + 1, _ => Attempt(Http(304, ""), [], -1, 0));
      var applied := seq(MAX_RETRIES + 1, _ => false);
      AckedApplied(attempts, applied) && OneWrite(blob0, w, attempts, applied) == (Ok, blob0)
  {
    NotModifiedIsOk();
  }

  /** The blob after the attempts of one request, of which those in `applied` reached it. */
  method Arrivals(blob0: seq<byte>, w: PageWrite, applied: seq<bool>) returns (blob: seq<byte>)
    ensures blob == if true in applied then Splice(blob0, w.off, w.data) else blob0
  {
    blob := blob0;
    var i := 0;
    while i < |applied|
      invariant 0 <= i <= |applied|
      invariant blob == if true in applied[..i] then Splice(blob0, w.off, w.data) else blob0
    {
      assert applied[..i + 1] == applied[..i] + [applied[i]];
      if applied[i] {
        SpliceTwice(blob0, w);
        blob := Splice(blob, w.off, w.data);
      }
      i := i + 1;
    }
    assert applied[..i] == applied;
  }

  lemma SpliceTwice(blob: seq<byte>, w: PageWrite)
    ensures Splice(Splice(blob, w.off, w.data), w.off, w.data) == Splice(blob, w.off, w.data)
  {
    SameView(Splice(Splice(blob, w.off, w.data), w.off, w.data), Splice(blob, w.off, w.data));
  }

  /** az_page_blob_write_batch for two or more ranges, up to four rounds (rounds beyond the
      schedule report nothing). An OK answer is given exactly when every range was acknowledged
      before the lease was lost, and then the blob is what sequential writes produce. On any
      other answer every byte is old or new and nothing outside the ranges has changed. */
  method WriteBatch(blob0: seq<byte>, ws: seq<PageWrite>, rounds: seq<Round>)
    returns (rc: Err, blob: seq<byte>, used: nat)
    requires |ws| > 1 && InBounds(ws, |blob0|) && Disjoint(ws)
    requires |rounds| == 4 && Truthful(rounds, |ws|)
    ensures 1 <= used <= 4
    ensures rc == Ok ==> HoldsAll(blob0, ws, blob)
    ensures ChangesWithin(blob0, ws, blob)
    ensures rc == Ok <==> !rounds[used - 1].leaseLost && AllAcked(rounds[..used], |ws|)
    ensures rc != Ok ==> used == 4 || rounds[used - 1].leaseLost || !WorthRetrying(rounds[used - 1])
    ensures forall r :: 0 <= r < used - 1 ==> !rounds[r].leaseLost && WorthRetrying(rounds[r])
    ensures used > 1 ==> !AllAcked(rounds[..used - 1], |ws|)
    // rounds of passing failures do not matter
    ensures forall r: nat :: CompletesAt(rounds, |ws|, r) ==> rc == Ok
    // what a failed batch reports
    ensures rc != Ok ==> BatchReports(rounds[used - 1], rc)
  {
    var all, result;
    all, result, blob, used := RunRounds(blob0, ws, rounds);
    forall r: nat | CompletesAt(rounds, |ws|, r) ensures !rounds[used - 1].leaseLost && all {
      Completes(rounds, |ws|, r, used);
    }
    FirstErrorIsEarliest(rounds[used - 1].events);
    if rounds[used - 1].leaseLost { return LeaseExpired, blob, used; }
    if all { return Ok, blob, used; }
    return if result == Ok then IOError else result, blob, used;
  }

  /** The error of a failed batch: the lost lease, else that of the earliest failed event of the last
      round, else an I/O error. */
  ghost predicate BatchReports(round: Round, e: Err) {
    if round.leaseLost then e == LeaseExpired
    else if IsEarliest(round.events, Ok) then e == IOError
    else IsEarliest(round.events, e)
  }

  /** The rounds before the last one were worth another one, with something unacknowledged. */
  ghost predicate Stopped(rounds: seq<Round>, n: nat, used: nat) {
    && 1 <= used <= |rounds|
    && (forall r :: 0 <= r < used - 1 ==> !rounds[r].leaseLost && WorthRetrying(rounds[r]))
    && (used > 1 ==> !AllAcked(rounds[..used - 1], n))
  }

  method RunRounds(blob0: seq<byte>, ws: seq<PageWrite>, rounds: seq<Round>)
    returns (all: bool, result: Err, blob: seq<byte>, used: nat)
    requires |ws| > 1 && InBounds(ws, |blob0|) && Disjoint(ws)
    requires |rounds| == BATCH_MAX_RETRIES + 1 && Truthful(rounds, |ws|)
    ensures Stopped(rounds, |ws|, used) && (all <==> AllAcked(rounds[..used], |ws|))
    ensures used == BATCH_MAX_RETRIES + 1 || rounds[used - 1].leaseLost || all || !WorthRetrying(rounds[used - 1])
    ensures result == FirstError(rounds[used - 1].events)
    ensures ChangesWithin(blob0, ws, blob) && (all ==> HoldsAll(blob0, ws, blob))
  {
    var done := new bool[|ws|](_ => false);
    result, blob, used, all := Ok, blob0, 0, false;
    assert !done[0] && rounds[..0] == [];
    assert !EverAcked(rounds[..0], 0);
    var more := true;
    while used <= BATCH_MAX_RETRIES && more
      invariant fresh(done) && done.Length == |ws| && used <= |rounds| && (!more ==> used > 0)
      invariant Progress(blob0, ws, rounds[..used], done[..], blob)
      invariant more ==> Ongoing(rounds, |ws|, used) && !all
      invariant used > 0 ==> After(rounds, |ws|, used, all, result, more)
      decreases |rounds| - used
    {
      result, blob, all, more := NextRound(blob0, ws, rounds, used, done, blob);
      used := used + 1;
    }
    BatchEnds(blob0, ws, rounds[..used], done[..], blob, all);
  }

  /** Every round so far was worth another one, and something is still unacknowledged. */
  ghost predicate Ongoing(rounds: seq<Round>, n: nat, used: nat) {
    && used <= |rounds| && (forall r :: 0 <= r < used ==> !rounds[r].leaseLost && WorthRetrying(rounds[r]))
    && !AllAcked(rounds[..used], n)
  }

  lemma RoundEnds(rounds: seq<Round>, n: nat, used: nat)
    requires Ongoing(rounds, n, used) && used < |rounds|
    ensures Stopped(rounds, n, used + 1)
    ensures !rounds[used].leaseLost && WorthRetrying(rounds[used]) && !AllAcked(rounds[..used + 1], n) ==> Ongoing(rounds, n, used + 1)
  {}

  /** What the loop knows after a round, and whether it goes on. */
  ghost predicate After(rounds: seq<Round>, n: nat, used: nat, all: bool, result: Err, more: bool)
    requires 1 <= used <= |rounds|
  {
    && Stopped(rounds, n, used) && (all <==> AllAcked(rounds[..used], n)) && result == FirstError(rounds[used - 1].events)
    && (more <==> !rounds[used - 1].leaseLost && !all && WorthRetrying(rounds[used - 1]))
  }

  method NextRound(ghost blob0: seq<byte>, ws: seq<PageWrite>, rounds: seq<Round>, r: nat, done: array<bool>, blob: seq<byte>)
    returns (err: Err, blob': seq<byte>, all: bool, more: bool)
    requires r < |rounds| && InBounds(ws, |blob0|) && Disjoint(ws) && Truthful(rounds, |ws|) && done.Length == |ws|
    requires Progress(blob0, ws, rounds[..r], done[..], blob) && Ongoing(rounds, |ws|, r)
    modifies done
    ensures Progress(blob0, ws, rounds[..r + 1], done[..], blob')
    ensures After(rounds, |ws|, r + 1, all, err, more) && (more ==> Ongoing(rounds, |ws|, r + 1))
  {
    assert [rounds[r]][0] == rounds[r];
    ghost var before := done[..];
    err, blob' := RunRound(blob0, ws, rounds[r], done, blob);
    ProgressRound(blob0, ws, rounds, r, before, done[..], blob');
    all := AllDone(done);
    RoundEnds(rounds, |ws|, r);
    more := !rounds[r].leaseLost && !all && IsRetryable(err);
  }

  lemma BatchEnds(blob0: seq<byte>, ws: seq<PageWrite>, past: seq<Round>, done: seq<bool>, blob: seq<byte>, all: bool)
    requires InBounds(ws, |blob0|) && Disjoint(ws) && Progress(blob0, ws, past, done, blob)
    requires all ==> AllAcked(past, |ws|)
    ensures ChangesWithin(blob0, ws, blob) && (all ==> HoldsAll(blob0, ws, blob))
  {
    OnlyRangesChange(blob0, ws, done, blob);
    if all { AllDoneIsWriteAll(blob0, ws, done, blob); }
  }

  /** After some rounds: the blob is underway and `done` marks exactly the acknowledged ranges. */
  ghost predicate Progress(blob0: seq<byte>, ws: seq<PageWrite>, past: seq<Round>, done: seq<bool>, blob: seq<byte>) {
    && |done| == |ws| && Underway(blob0, ws, done, blob)
    && forall k :: 0 <= k < |ws| ==> (done[k] <==> EverAcked(past, k))
  }

  lemma ProgressRound(blob0: seq<byte>, ws: seq<PageWrite>, rounds: seq<Round>, r: nat,
                      before: seq<bool>, done: seq<bool>, blob: seq<byte>)
    requires r < |rounds| && |before| == |done| == |ws|
    requires forall k :: 0 <= k < |ws| ==> (before[k] <==> EverAcked(rounds[..r], k))
    requires forall k :: 0 <= k < |ws| ==> (done[k] <==> before[k] || AckedIn(rounds[r], k))
    requires Underway(blob0, ws, done, blob)
    ensures Progress(blob0, ws, rounds[..r + 1], done, blob)
  {
    EverAckedSoFar(rounds, r);
  }

  lemma EverAckedSoFar(rounds: seq<Round>, r: nat)
    requires r < |rounds|
    ensures forall k :: EverAcked(rounds[..r + 1], k) <==> EverAcked(rounds[..r], k) || AckedIn(rounds[r], k)
  {
    forall k: nat ensures EverAcked(rounds[..r + 1], k) <==> EverAcked(rounds[..r], k) || AckedIn(rounds[r], k) {
      if EverAcked(rounds[..r], k) {
        var i :| 0 <= i < r && AckedIn(rounds[..r][i], k);
        assert rounds[..r + 1][i] == rounds[..r][i];
      }
      if AckedIn(rounds[r], k) { assert rounds[..r + 1][r] == rounds[r]; }
      if EverAcked(rounds[..r + 1], k) {
        var i :| 0 <= i < r + 1 && AckedIn(rounds[..r + 1][i], k);
        if i < r { assert rounds[..r][i] == rounds[..r + 1][i]; }
      }
    }
  }

  /** What the first round acknowledges stays acknowledged. */
  lemma AckedEarly(rounds: seq<Round>, used: nat, n: nat)
    requires 1 <= used <= |rounds|
    ensures AllAcked(rounds[..1], n) ==> AllAcked(rounds[..used], n)
  {
    if AllAcked(rounds[..1], n) {
      forall k | 0 <= k < n ensures EverAcked(rounds[..used], k) {
        assert EverAcked(rounds[..1], k);
        assert rounds[..1][0] == rounds[..used][0];
      }
    }
  }

  lemma OnlyRangesChange(blob0: seq<byte>, ws: seq<PageWrite>, done: seq<bool>, blob: seq<byte>)
    requires |done| == |ws| && Underway(blob0, ws, done, blob)
    ensures ChangesWithin(blob0, ws, blob)
  {
    forall o: nat | At(blob, o) != At(blob0, o) ensures NewByte(ws, blob, o) {
      assert Written(ws, o);
      var k :| 0 <= k < |ws| && ws[k].Has(o);
      assert At(blob, o) == ws[k].Byte(o);
    }
  }

  /** Everything the network may do to one batch call: the retry rounds of a real batch, and
      the attempts (with their effect) of the single-range path. */
  datatype Net = Net(rounds: seq<Round>, attempts: seq<Attempt>, applied: seq<bool>) {
    predicate Honest(n: nat) {
      |rounds| == BATCH_MAX_RETRIES + 1 && Truthful(rounds, n) && HonestTries()
    }
    predicate HonestTries() { |attempts| > MAX_RETRIES && AckedApplied(attempts, applied) }

    /** The single request is not decided by a 1xx or 3xx answer. */
    predicate Plain() { |attempts| > MAX_RETRIES && !Deciding(attempts).Hollow() }
  }

  /** Everything is acknowledged at the first try. */
  predicate Healthy(net: Net, n: nat) {
    && |net.rounds| > 0 && !net.rounds[0].leaseLost && (forall k :: 0 <= k < n ==> AckedIn(net.rounds[0], k))
    && FirstTryAcked(net)
  }

  predicate FirstTryAcked(net: Net) { |net.attempts| > 0 && net.attempts[0].answer.Acked() }

  predicate Sendable(ws: seq<PageWrite>) {
    forall k :: 0 <= k < |ws| ==> ArgsOk(ws[k])
  }

  /** The vtable entry: nothing to do, one plain write, or a parallel batch. */
  method PageBlobWriteBatch(blob0: seq<byte>, ws: seq<PageWrite>, net: Net) returns (rc: Err, blob: seq<byte>)
    requires InBounds(ws, |blob0|) && Disjoint(ws) && net.Honest(|ws|)
    ensures rc == Ok && (|ws| == 1 ==> net.Plain()) ==> HoldsAll(blob0, ws, blob)
    ensures |ws| == 1 ==> (rc, blob) == OneWrite(blob0, ws[0], net.attempts, net.applied)
    ensures ChangesWithin(blob0, ws, blob)
    ensures ws == [] || (Healthy(net, |ws|) && Sendable(ws)) ==> rc == Ok
    ensures |ws| > 1 ==> forall r: nat :: CompletesAt(net.rounds, |ws|, r) ==> rc == Ok
    ensures |ws| > 1 && rc != Ok ==> exists r: nat :: r < |net.rounds| && BatchReports(net.rounds[r], rc)
  {
    if |ws| == 0 { return Ok, blob0; }
    if |ws| == 1 {
      rc, blob := WriteOne(blob0, ws[0], net.attempts, net.applied);
      assert ws == [ws[0]];
      SpliceWithin(blob0, ws, blob0, 0);
      return;
    }
    var used;
    rc, blob, used := WriteBatch(blob0, ws, net.rounds);
    assert rc != Ok ==> BatchReports(net.rounds[used - 1], rc);
    if Healthy(net, |ws|) {
      forall u: nat | 0 < u <= |net.rounds| ensures AllAcked(net.rounds[..u], |ws|) {
        assert net.rounds[..u][0] == net.rounds[0];
      }
    }
  }

  /** The sequential fallback of xSync: range after range, stopping at the first failure.
      `nets[k]` is the network during range k. */
  method WriteSequential(blob0: seq<byte>, ws: seq<PageWrite>, nets: nat -> Net, renewals: nat -> bool)
    returns (rc: Err, blob: seq<byte>)
    requires InBounds(ws, |blob0|) && Disjoint(ws) && forall k :: nets(k).HonestTries()
    ensures rc == Ok && (forall k: nat :: k < |ws| ==> nets(k).Plain()) ==> HoldsAll(blob0, ws, blob)
    ensures ChangesWithin(blob0, ws, blob)
    ensures ws == [] || (Sendable(ws) && (forall k :: renewals(k)) && forall k :: FirstTryAcked(nets(k))) ==> rc == Ok
    // what a failed sequence reports: the error of its first failed renewal or write
    ensures rc == Ok ==> forall j: nat :: j < |ws| ==> StepError(ws, nets, renewals, j) == Ok
    ensures rc != Ok ==> exists k: nat :: k < |ws| && rc == StepError(ws, nets, renewals, k) && forall j: nat :: j < k ==> StepError(ws, nets, renewals, j) == Ok
  {
    rc, blob := Ok, blob0;
    var i := 0;
    while i < |ws|
      invariant 0 <= i <= |ws| && rc == Ok && SoFar(blob0, ws, nets, renewals, blob, i)
    {
      assert StepError(ws, nets, renewals, i) == if i > 0 && i % 50 == 0 && !renewals(i) then LeaseExpired else OneError(ws[i], nets(i));
      if i > 0 && i % 50 == 0 && !renewals(i) { return LeaseExpired, blob; }
      SpliceWithin(blob0, ws, blob, i);
      ghost var before := blob;
      rc, blob := WriteOne(blob, ws[i], nets(i).attempts, nets(i).applied);
      if rc != Ok { return; }
      NextSoFar(blob0, ws, nets, renewals, before, blob, i);
      i := i + 1;
    }
    assert ws[..i] == ws;
  }

  /** The first i ranges have been written without an error. */
  ghost predicate SoFar(blob0: seq<byte>, ws: seq<PageWrite>, nets: nat -> Net, renewals: nat -> bool, blob: seq<byte>, i: nat)
    requires i <= |ws| && forall k :: nets(k).HonestTries()
  {
    && ChangesWithin(blob0, ws, blob)
    && (PlainUpTo(nets, i) ==> HoldsAll(blob0, ws[..i], blob))
    && NoErrors(ws, nets, renewals, i)
  }

  ghost predicate PlainUpTo(nets: nat -> Net, i: nat) { forall k: nat :: k < i ==> nets(k).Plain() }

  ghost predicate NoErrors(ws: seq<PageWrite>, nets: nat -> Net, renewals: nat -> bool, i: nat)
    requires i <= |ws| && forall k :: nets(k).HonestTries()
  {
    forall j: nat :: j < i ==> StepError(ws, nets, renewals, j) == Ok
  }

  lemma {:induction false} NextNoErrors(ws: seq<PageWrite>, nets: nat -> Net, renewals: nat -> bool, i: nat)
    requires i < |ws| && (forall k :: nets(k).HonestTries()) && NoErrors(ws, nets, renewals, i)
    requires StepError(ws, nets, renewals, i) == Ok
    ensures NoErrors(ws, nets, renewals, i + 1)
  {}

  lemma {:induction false} NextSoFar(blob0: seq<byte>, ws: seq<PageWrite>, nets: nat -> Net, renewals: nat -> bool,
                                     before: seq<byte>, blob: seq<byte>, i: nat)
    requires i < |ws| && (forall k :: nets(k).HonestTries()) && SoFar(blob0, ws, nets, renewals, before, i)
    requires ChangesWithin(blob0, ws, blob) && StepError(ws, nets, renewals, i) == Ok
    requires nets(i).Plain() ==> HoldsAll(before, [ws[i]], blob)
    ensures SoFar(blob0, ws, nets, renewals, blob, i + 1)
  {
    NextNoErrors(ws, nets, renewals, i);
    if PlainUpTo(nets, i + 1) {
      assert PlainUpTo(nets, i) && nets(i).Plain();
      NextHolds(blob0, ws, i, before, blob);
    }
  }

  /** The error of writing range k: a failed renewal before every fiftieth range, or the write's own. */
  function StepError(ws: seq<PageWrite>, nets: nat -> Net, renewals: nat -> bool, k: nat): Err
    requires k < |ws| && nets(k).HonestTries()
  {
    if k > 0 && k % 50 == 0 && !renewals(k) then LeaseExpired else OneError(ws[k], nets(k))
  }

  function OneError(w: PageWrite, net: Net): Err
    requires net.HonestTries()
  {
    if ArgsOk(w) then Deciding(net.attempts).Outcome() else InvalidArg
  }

  lemma {:induction false} NextHolds(blob0: seq<byte>, ws: seq<PageWrite>, i: nat, before: seq<byte>, blob: seq<byte>)
    requires i < |ws| && HoldsAll(before, [ws[i]], blob)
    ensures HoldsAll(blob0, ws[..i], before) ==> HoldsAll(blob0, ws[..i + 1], blob)
  {
    WriteAllOne(before, ws[i]);
    assert ws[..i + 1][..i] == ws[..i] && ws[..i + 1][i] == ws[i];
  }

  lemma {:induction false} WriteAllOne(blob: seq<byte>, w: PageWrite)
    ensures WriteAll(blob, [w]) == Splice(blob, w.off, w.data)
  {
    assert [w][..0] == [];
    assert WriteAll(blob, []) == blob;
  }

  /** Storing one of the ranges stays within the ranges. */
  lemma SpliceWithin(blob0: seq<byte>, ws: seq<PageWrite>, blob: seq<byte>, k: nat)
    requires k < |ws| && InBounds(ws, |blob0|) && Disjoint(ws) && ChangesWithin(blob0, ws, blob)
    ensures ChangesWithin(blob0, ws, Splice(blob, ws[k].off, ws[k].data))
  {
    var blob' := Splice(blob, ws[k].off, ws[k].data);
    forall o: nat | At(blob', o) != At(blob0, o) ensures NewByte(ws, blob', o) {
      if !ws[k].Has(o) {
        assert NewByte(ws, blob, o);
        var j :| 0 <= j < |ws| && ws[j].Has(o) && At(blob, o) == ws[j].Byte(o);
        assert At(blob', o) == ws[j].Byte(o);
      }
    }
  }
}
