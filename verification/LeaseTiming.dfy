/** How often the VFS must look at its lease (leaseRenewIfNeeded). Times are whole seconds of one
    shared clock. */
module LeaseTiming {
  import opened BlobServer
  import AzureErrors

  const SHORT_LEASE: nat := 30
  const LONG_LEASE: nat := 60
  const DIRTY_PAGE_THRESHOLD: nat := 100

  /** The duration xLock asks for. */
  function Duration(lastSyncDirtyCount: nat): (d: nat)
    ensures d == 60 <==> lastSyncDirtyCount > 100
    ensures d == 30 <==> lastSyncDirtyCount <= 100
  {
    if lastSyncDirtyCount > DIRTY_PAGE_THRESHOLD then LONG_LEASE else SHORT_LEASE
  }

  /** `since`: when the server last granted or renewed; `stamp`: leaseAcquiredAt at the client. */
  datatype Held = Held(since: int, stamp: int)

  /** The lease has run out on the server at time t. */
  predicate OutAt(h: Held, d: nat, t: int) { t - h.since >= d }

  /** One renewal check at time t, while the lease is alive: renew once half the duration is over. */
  function Check(h: Held, d: nat, t: int): Held {
    if t - h.stamp < d / 2 then h else Held(t, t)
  }

  function AfterChecks(h: Held, d: nat, times: seq<int>): Held {
    if times == [] then h else Check(AfterChecks(h, d, times[..|times| - 1]), d, times[|times| - 1])
  }

  /** Consecutive checks are at most `gap` apart, counting from the client's first time stamp. */
  predicate Spaced(start: int, times: seq<int>, gap: nat) {
    forall i :: 0 <= i < |times| ==>
      var prev := if i == 0 then start else times[i - 1];
      prev <= times[i] <= prev + gap
  }

  /** The lease is found alive by every check, and hence at every moment before it. */
  predicate NeverOut(h: Held, d: nat, times: seq<int>) {
    forall i :: 0 <= i < |times| ==> !OutAt(AfterChecks(h, d, times[..i]), d, times[i])
  }

  /** The server's side of a check: Renew succeeds while the lease is alive and sets `since`. */
  lemma CheckIsRenew(s: Server, h: Held, d: nat, t: int)
    requires s.lease.Leased? && s.lease.duration == d && s.now == t && s.lease.since == h.since && !OutAt(h, d, t)
    ensures !Expired(s)
    ensures t - h.stamp >= d / 2 ==>
              var (s', r) := Serve(s, Renew(s.lease.id));
              r.err.Ok? && s'.lease.Leased? && s'.lease.since == Check(h, d, t).since
  {
    assert Live(s, s.lease.id);
    assert Serve(s, Renew(s.lease.id)) == (s.(lease := s.lease.(since := s.now)), Response(AzureErrors.Ok, 0));
  }

  lemma {:induction false} ChecksKeep(h: Held, d: nat, times: seq<int>, gap: nat, delay: nat, n: nat)
    requires d >= 2 && gap + delay <= d - d / 2 && n <= |times|
    requires h.since <= h.stamp <= h.since + delay && Spaced(h.stamp, times, gap)
    ensures var now := if n == 0 then h.stamp else times[n - 1];
      var x := AfterChecks(h, d, times[..n]);
      x.since <= x.stamp <= x.since + delay && 0 <= now - x.stamp < d / 2
  {
    if n > 0 {
      ChecksKeep(h, d, times, gap, delay, n - 1);
      assert times[..n][..n - 1] == times[..n - 1] && times[..n][n - 1] == times[n - 1];
      var prev := if n == 1 then h.stamp else times[n - 2];
      assert prev <= times[n - 1] <= prev + gap by {
        var i := n - 1;
        assert (if i == 0 then h.stamp else times[i - 1]) == prev;
      }
    }
  }

  /** The lease of a grant that took `delay` seconds to come back never runs out while held, for
      every schedule of checks at most `gap` seconds apart. */
  lemma ChecksSuffice(h: Held, d: nat, times: seq<int>, gap: nat, delay: nat)
    requires d >= 2 && gap + delay <= d - d / 2
    requires h.since <= h.stamp <= h.since + delay && Spaced(h.stamp, times, gap)
    ensures NeverOut(h, d, times)
  {
    forall i | 0 <= i < |times| ensures !OutAt(AfterChecks(h, d, times[..i]), d, times[i]) {
      ChecksKeep(h, d, times, gap, delay, i);
    }
  }

  /** The property for all schedules. */
  ghost predicate AlwaysHeld(d: nat, gap: nat, delay: nat) {
    forall h: Held, times: seq<int> ::
      h.since <= h.stamp <= h.since + delay && Spaced(h.stamp, times, gap) ==> NeverOut(h, d, times)
  }

  /** The bound is exact: the lease survives every schedule if and only if gap plus grant delay is
      at most the second half of the duration. */
  lemma AlwaysHeldIff(d: nat, gap: nat, delay: nat)
    requires d >= 2 && gap >= 1
    ensures AlwaysHeld(d, gap, delay) <==> gap + delay <= d - d / 2
  {
    if gap + delay <= d - d / 2 {
      forall h: Held, times: seq<int> | h.since <= h.stamp <= h.since + delay && Spaced(h.stamp, times, gap)
        ensures NeverOut(h, d, times)
      {
        ChecksSuffice(h, d, times, gap, delay);
      }
    } else {
      LateSchedule(d, gap, delay);
    }
  }

  /** Checks every second that just never renew, followed by one full gap. */
  lemma LateSchedule(d: nat, gap: nat, delay: nat)
    requires d >= 2 && gap >= 1 && gap + delay > d - d / 2
    ensures !AlwaysHeld(d, gap, delay)
  {
    var h := Held(0, delay);
    var quiet := seq(d / 2 - 1, i requires 0 <= i => delay + i + 1);
    var times := quiet + [delay + (d / 2 - 1) + gap];
    QuietChecks(h, d, quiet);
    assert times[..|quiet|] == quiet;
    assert AfterChecks(h, d, times[..|quiet|]) == h;
    assert OutAt(h, d, times[|quiet|]);
    assert !NeverOut(h, d, times);
  }

  lemma {:induction false} QuietChecks(h: Held, d: nat, times: seq<int>)
    requires forall i :: 0 <= i < |times| ==> times[i] - h.stamp < d / 2
    ensures AfterChecks(h, d, times) == h
  {
    if times != [] { QuietChecks(h, d, times[..|times| - 1]); }
  }

  /** For both lease durations: checks less than half a duration apart keep the lease alive when
      the grant comes back at once, and still do when it takes a second. */
  lemma HalfDurationChecks(dirtyCount: nat, gap: nat, delay: nat)
    requires gap < Duration(dirtyCount) / 2 && delay <= 1
    ensures AlwaysHeld(Duration(dirtyCount), gap, delay)
  {
    var d := Duration(dirtyCount);
    forall h: Held, times: seq<int> | h.since <= h.stamp <= h.since + delay && Spaced(h.stamp, times, gap)
      ensures NeverOut(h, d, times)
    {
      ChecksSuffice(h, d, times, gap, delay);
    }
  }
}
