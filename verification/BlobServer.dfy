/** The blob service as the mock server implements it: one page blob with an ETag version and
    a lease state machine. Lease breaking is not modelled. */
module BlobServer {
  import opened Options
  import opened Bytes
  import opened AzureErrors

  /** `duration` is in seconds; negative means an infinite lease. */
  datatype Lease = Available | Leased(id: nat, duration: int, since: nat)

  datatype Server = Server(blob: seq<byte>, etag: nat, lease: Lease, nextLease: nat, now: nat)

  datatype Request =
    | PutPage(off: nat, data: seq<byte>, leaseId: Option<nat>)
    | SetSize(size: nat, leaseId: Option<nat>)
    | Acquire(duration: int)
    | Renew(id: nat)
    | Release(id: nat)
    | Head
    | Wait(seconds: nat)          // the clock advances

  /** What the client gets back: an error code and, for Acquire, the lease ID. */
  datatype Response = Response(err: Err, leaseId: nat)

  // ------------------------------------------------------------------ reference semantics

  predicate Expired(s: Server) {
    s.lease.Leased? && s.lease.duration >= 0 && s.now - s.lease.since >= s.lease.duration
  }

  /** The lease is held under `id` and has not run out. */
  predicate Live(s: Server, id: nat) {
    s.lease.Leased? && s.lease.id == id && !Expired(s)
  }

  /** validate_lease_id: the first request that notices an expired lease clears it and fails. */
  function Admit(s: Server, leaseId: Option<nat>): Err {
    if Expired(s) then LeaseExpired
    else match leaseId
      case None => if s.lease.Leased? then Conflict else Ok
      case Some(id) => if Live(s, id) then Ok else Conflict
  }

  function Settle(s: Server): Server {
    if Expired(s) then s.(lease := Available) else s
  }

  function Serve(s: Server, q: Request): (Server, Response) {
    match q
    case PutPage(off, data, leaseId) =>
      if off % SECTOR != 0 || |data| % SECTOR != 0 then (s, Response(Alignment, 0))
      else if Admit(s, leaseId) != Ok then (Settle(s), Response(Admit(s, leaseId), 0))
      else (s.(blob := Splice(s.blob, off, data), etag := s.etag + 1), Response(Ok, 0))
    case SetSize(size, leaseId) =>
      if size % SECTOR != 0 then (s, Response(Alignment, 0))
      else if Admit(s, leaseId) != Ok then (Settle(s), Response(Admit(s, leaseId), 0))
      else (s.(blob := Bytes.Resize(s.blob, size), etag := s.etag + 1), Response(Ok, 0))
    case Acquire(duration) =>
      var t := Settle(s);
      if t.lease.Leased? then (t, Response(Conflict, 0))
      else (t.(lease := Leased(t.nextLease, duration, t.now), nextLease := t.nextLease + 1), Response(Ok, t.nextLease))
    case Renew(id) =>
      if Expired(s) then (Settle(s), Response(LeaseExpired, 0))
      else if !Live(s, id) then (s, Response(Conflict, 0))
      else (s.(lease := s.lease.(since := s.now)), Response(Ok, 0))
    case Release(id) =>
      if Expired(s) then (Settle(s), Response(LeaseExpired, 0))
      else if !Live(s, id) then (s, Response(Conflict, 0))
      else (s.(lease := Available), Response(Ok, 0))
    case Head => (Settle(s), Response(Ok, 0))
    case Wait(seconds) => (s.(now := s.now + seconds), Response(Ok, 0))
  }

  // ------------------------------------------------------------------ the mock's code

  class MockBlob {
    var blob: seq<byte>
    var etagVersion: nat
    var lease: Lease
    var nextLeaseNum: nat
    var clock: nat

    constructor ()
      ensures State() == Server.Server([], 1, Available, 0, 0)
    {
      blob, etagVersion, lease, nextLeaseNum, clock := [], 1, Available, 0, 0;
    }

    function State(): Server
      reads this
    {
      Server.Server(blob, etagVersion, lease, nextLeaseNum, clock)
    }

    /** mock_lease_expired. */
    predicate LeaseExpired()
      reads this
    {
      match lease
      case Available => false
      case Leased(_, duration, since) => if duration < 0 then false else clock - since >= duration
    }

    method ClearLease()
      modifies this`lease
      ensures lease == Available
    {
      lease := Available;
    }

    method BumpEtag()
      modifies this`etagVersion
      ensures etagVersion == old(etagVersion) + 1
    {
      etagVersion := etagVersion + 1;
    }

    method ValidateLeaseId(leaseId: Option<nat>) returns (err: Err)
      modifies this`lease
      ensures err == Admit(old(State()), leaseId) && State() == Settle(old(State()))
    {
      if LeaseExpired() {
        ClearLease();
        return AzureErrors.LeaseExpired;
      }
      if leaseId.None? && lease.Leased? { return Conflict; }
      if leaseId.None? { return Ok; }
      if lease.Available? || lease.id != leaseId.value { return Conflict; }
      return Ok;
    }

    method PageBlobWrite(off: nat, data: seq<byte>, leaseId: Option<nat>) returns (r: Response)
      modifies this
      ensures (State(), r) == Serve(old(State()), PutPage(off, data, leaseId))
    {
      if off % SECTOR != 0 { return Response(Alignment, 0); }
      if |data| % SECTOR != 0 { return Response(Alignment, 0); }
      var err := ValidateLeaseId(leaseId);
      if err != Ok { return Response(err, 0); }
      blob := Splice(blob, off, data);
      BumpEtag();
      return Response(Ok, 0);
    }

    method PageBlobResize(size: nat, leaseId: Option<nat>) returns (r: Response)
      modifies this
      ensures (State(), r) == Serve(old(State()), SetSize(size, leaseId))
    {
      if size % SECTOR != 0 { return Response(Alignment, 0); }
      var err := ValidateLeaseId(leaseId);
      if err != Ok { return Response(err, 0); }
      blob := Bytes.Resize(blob, size);
      BumpEtag();
      return Response(Ok, 0);
    }

    /** blob_get_properties: answers with the size and the ETag, and clears an expired lease. */
    method GetProperties() returns (r: Response, size: nat, etag: nat)
      modifies this
      ensures (State(), r) == Serve(old(State()), Head)
      ensures size == |blob| && etag == etagVersion
    {
      if LeaseExpired() { ClearLease(); }
      return Response(Ok, 0), |blob|, etagVersion;
    }

    method LeaseAcquire(duration: int) returns (r: Response)
      modifies this
      ensures (State(), r) == Serve(old(State()), Acquire(duration))
      ensures r.err == Ok <==> forall id: nat :: !old(Live(State(), id))
      ensures r.err == Ok && duration != 0 ==> Live(State(), r.leaseId)
    {
      if LeaseExpired() { ClearLease(); }
      if lease.Leased? {
        assert old(Live(State(), lease.id));
        return Response(Conflict, 0);
      }
      lease := Leased(nextLeaseNum, duration, clock);
      nextLeaseNum := nextLeaseNum + 1;
      return Response(Ok, lease.id);
    }

    method LeaseRenew(id: nat) returns (r: Response)
      modifies this
      ensures (State(), r) == Serve(old(State()), Renew(id))
    {
      if LeaseExpired() {
        ClearLease();
        return Response(AzureErrors.LeaseExpired, 0);
      }
      if !lease.Leased? { return Response(Conflict, 0); }
      if lease.id != id { return Response(Conflict, 0); }
      lease := lease.(since := clock);
      return Response(Ok, 0);
    }

    method LeaseRelease(id: nat) returns (r: Response)
      modifies this
      ensures (State(), r) == Serve(old(State()), Release(id))
    {
      if LeaseExpired() {
        ClearLease();
        return Response(AzureErrors.LeaseExpired, 0);
      }
      if !lease.Leased? { return Response(Conflict, 0); }
      if lease.id != id { return Response(Conflict, 0); }
      ClearLease();
      return Response(Ok, 0);
    }
  }

  // ------------------------------------------------------------------ what is granted

  ghost predicate NobodyLive(s: Server) { forall id: nat :: !Live(s, id) }

  /** A lease is granted exactly if nobody holds a live one. The new ID was never issued before and is
      live at once, unless it was asked for no time at all; blob and ETag stay. A refusal leaves the
      holder's lease alone. */
  lemma AcquireIff(s: Server, duration: int)
    ensures var (s', r) := Serve(s, Acquire(duration));
      && (r.err == Ok <==> NobodyLive(s))
      && s'.blob == s.blob && s'.etag == s.etag && s'.now == s.now
      && (r.err == Ok ==> s.nextLease <= r.leaseId < s'.nextLease && (duration != 0 <==> Live(s', r.leaseId)))
      && (r.err != Ok ==> r.err == Conflict && s' == s)
  {
    if s.lease.Leased? && !Expired(s) { assert Live(s, s.lease.id); }
  }

  /** A granted lease lives for its whole duration, and no longer. */
  lemma LivesFor(s: Server, duration: int, seconds: nat)
    requires NobodyLive(s)
    ensures var (s', r) := Serve(s, Acquire(duration));
      Live(Serve(s', Wait(seconds)).0, r.leaseId) <==> duration < 0 || seconds < duration
  {
    AcquireIff(s, duration);
  }

  /** Renewal succeeds exactly for a live lease, and starts its whole duration anew. */
  lemma RenewIff(s: Server, id: nat, seconds: nat)
    ensures var (s', r) := Serve(s, Renew(id));
      && (r.err == Ok <==> Live(s, id))
      && s'.blob == s.blob && s'.etag == s.etag && s'.nextLease == s.nextLease
      && (r.err == Ok ==> (Live(Serve(s', Wait(seconds)).0, id) <==> s.lease.duration < 0 || seconds < s.lease.duration))
      && (r.err != Ok ==> (r.err == LeaseExpired <==> Expired(s)) && (r.err == Conflict <==> !Expired(s)))
      && (r.err != Ok ==> forall other: nat :: Live(s', other) <==> Live(s, other))
  {}

  /** Release succeeds exactly for a live lease; afterwards nobody holds one. */
  lemma ReleaseIff(s: Server, id: nat)
    ensures var (s', r) := Serve(s, Release(id));
      && (r.err == Ok <==> Live(s, id))
      && s'.blob == s.blob && s'.etag == s.etag && s'.nextLease == s.nextLease
      && (r.err == Ok ==> NobodyLive(s') && s'.lease == Available)
      && (r.err != Ok ==> (r.err == LeaseExpired <==> Expired(s)) && (r.err == Conflict <==> !Expired(s)))
      && (r.err != Ok ==> forall other: nat :: Live(s', other) <==> Live(s, other))
  {}

  /** May a request that names this lease, or none, change the blob? */
  predicate Admitted(s: Server, leaseId: Option<nat>) {
    if leaseId.Some? then Live(s, leaseId.value) else s.lease == Available
  }

  /** A write succeeds exactly if it is aligned and admitted. Then exactly its bytes change, gaps read
      as zeros, the ETag is new and the lease stays. A refusal changes nothing but an expired lease. */
  lemma WriteIff(s: Server, off: nat, data: seq<byte>, leaseId: Option<nat>)
    ensures var (s', r) := Serve(s, PutPage(off, data, leaseId));
      && (r.err == Ok <==> off % 512 == 0 && |data| % 512 == 0 && Admitted(s, leaseId))
      && (r.err == Ok ==> s'.etag > s.etag && s'.lease == s.lease && |s'.blob| == Max(|s.blob|, off + |data|))
      && (r.err == Ok ==> forall o: nat :: At(s'.blob, o) == if off <= o < off + |data| then data[o - off] else At(s.blob, o))
      && (r.err != Ok ==> s'.blob == s.blob && s'.etag == s.etag && forall id: nat :: Live(s', id) <==> Live(s, id))
      && (r.err == Alignment <==> off % 512 != 0 || |data| % 512 != 0)
      && (r.err == LeaseExpired <==> r.err != Alignment && Expired(s))
      && (r.err == Conflict <==> r.err != Alignment && !Expired(s) && !Admitted(s, leaseId))
  {}

  /** Likewise a resize: the blob is cut, or grows with zeros. */
  lemma ResizeIff(s: Server, size: nat, leaseId: Option<nat>)
    ensures var (s', r) := Serve(s, SetSize(size, leaseId));
      && (r.err == Ok <==> size % 512 == 0 && Admitted(s, leaseId))
      && (r.err == Ok ==> s'.etag > s.etag && s'.lease == s.lease && |s'.blob| == size)
      && (r.err == Ok ==> forall o: nat :: At(s'.blob, o) == if o < size then At(s.blob, o) else 0)
      && (r.err != Ok ==> s'.blob == s.blob && s'.etag == s.etag && forall id: nat :: Live(s', id) <==> Live(s, id))
      && (r.err == Alignment <==> size % 512 != 0)
      && (r.err == LeaseExpired <==> r.err != Alignment && Expired(s))
      && (r.err == Conflict <==> r.err != Alignment && !Expired(s) && !Admitted(s, leaseId))
  {}

  /** HEAD is always answered and changes nothing but an expired lease, which it clears. */
  lemma HeadClears(s: Server)
    ensures var (s', r) := Serve(s, Head);
      && r.err == Ok && s' == s.(lease := s'.lease) && !Expired(s')
      && forall id: nat :: Live(s', id) <==> Live(s, id)
  {}

  /** A crashed holder does not block the blob: once the duration of the lease on record has passed
      without a renewal or another grant, the next acquisition succeeds. */
  lemma AbandonedLeaseIsFree(states: seq<Server>, qs: seq<Request>, i: nat, j: nat)
    requires ServerRun(states, qs) && i <= j < |qs| && qs[j].Acquire?
    requires states[i].lease.Leased? && states[i].lease.duration >= 0
    requires forall k :: i <= k < j ==> !qs[k].Acquire? && qs[k] != Renew(states[i].lease.id)
    requires states[j].now >= states[i].lease.since + states[i].lease.duration
    ensures Answer(states, qs, j).err == Ok && (qs[j].duration != 0 ==> Live(states[j + 1], Answer(states, qs, j).leaseId))
  {
    LeaseOnRecord(states, qs, i, j);
    AcquireIff(states[j], qs[j].duration);
    assert states[j + 1] == Serve(states[j], qs[j]).0;
  }

  lemma {:induction false} LeaseOnRecord(states: seq<Server>, qs: seq<Request>, i: nat, j: nat)
    requires ServerRun(states, qs) && i <= j < |qs| && states[i].lease.Leased?
    requires forall k :: i <= k < j ==> !qs[k].Acquire? && qs[k] != Renew(states[i].lease.id)
    ensures states[j].lease == Available || states[j].lease == states[i].lease
  {
    if i < j {
      LeaseOnRecord(states, qs, i, j - 1);
      assert states[j] == Serve(states[j - 1], qs[j - 1]).0;
    }
  }

  // ------------------------------------------------------------------ fencing and exclusion

  /** The server hands out lease IDs in order. */
  predicate WellFormed(s: Server) {
    s.lease.Leased? ==> s.lease.id < s.nextLease && s.lease.since <= s.now
  }

  ghost predicate ServerRun(states: seq<Server>, qs: seq<Request>) {
    && |states| == |qs| + 1 && WellFormed(states[0])
    && forall i :: 0 <= i < |qs| ==> states[i + 1] == Serve(states[i], qs[i]).0
  }

  function Answer(states: seq<Server>, qs: seq<Request>, i: nat): Response
    requires i < |qs| && |states| == |qs| + 1
  {
    Serve(states[i], qs[i]).1
  }

  /** The request uses lease `id`. */
  predicate Carries(q: Request, id: nat) {
    match q
    case PutPage(_, _, l) => l == Some(id)
    case SetSize(_, l) => l == Some(id)
    case Renew(i) => i == id
    case Release(i) => i == id
    case _ => false
  }

  predicate Mutates(q: Request) { q.PutPage? || q.SetSize? }

  /** An issued lease that is no longer live: expired, released or replaced. */
  predicate Dead(s: Server, id: nat) {
    id < s.nextLease && !Live(s, id)
  }

  lemma {:induction false} RunWellFormed(states: seq<Server>, qs: seq<Request>, i: nat)
    requires ServerRun(states, qs) && i <= |qs|
    ensures WellFormed(states[i])
  {
    if i > 0 {
      RunWellFormed(states, qs, i - 1);
      assert states[i] == Serve(states[i - 1], qs[i - 1]).0;
    }
  }

  /** Leases die in exactly three ways: release, expiry, or (after expiry) a new grant. */
  lemma DeadStaysDead(s: Server, q: Request, id: nat)
    requires WellFormed(s) && Dead(s, id)
    ensures Dead(Serve(s, q).0, id)
    ensures Carries(q, id) ==> Serve(s, q).1.err != Ok && Serve(s, q).0.blob == s.blob && Serve(s, q).0.etag == s.etag
  {}

  /** Fencing: once a lease ID has expired, been released or been replaced, no request carrying
      it ever succeeds or changes the blob again, in any continuation of the run. */
  lemma {:induction false} Fencing(states: seq<Server>, qs: seq<Request>, i: nat, j: nat, id: nat)
    requires ServerRun(states, qs) && i <= j < |qs|
    requires Dead(states[i], id)
    ensures Dead(states[j], id)
    ensures Carries(qs[j], id) ==>
              Answer(states, qs, j).err != Ok && states[j + 1].blob == states[j].blob && states[j + 1].etag == states[j].etag
    decreases j
  {
    if i < j {
      Fencing(states, qs, i, j - 1, id);
      RunWellFormed(states, qs, j - 1);
      assert states[j] == Serve(states[j - 1], qs[j - 1]).0;
      DeadStaysDead(states[j - 1], qs[j - 1], id);
    }
    RunWellFormed(states, qs, j);
    assert states[j + 1] == Serve(states[j], qs[j]).0;
    DeadStaysDead(states[j], qs[j], id);
  }

  /** The three ways a lease ID becomes dead. */
  lemma WaysToDie(s: Server, q: Request, id: nat)
    requires WellFormed(s) && id < s.nextLease
    ensures q == Release(id) && Serve(s, q).1.err == Ok ==> Dead(Serve(s, q).0, id)
    ensures q.Acquire? && Serve(s, q).1.err == Ok ==> Dead(Serve(s, q).0, id)
    ensures Expired(s) ==> Dead(s, id)
  {}

  /** While a lease is live, nobody else gets a lease and nobody else changes the blob. */
  lemma LiveExcludes(s: Server, q: Request, id: nat)
    requires WellFormed(s) && Live(s, id)
    ensures q.Acquire? ==> Serve(s, q).1.err != Ok
    ensures !Carries(q, id) ==> Serve(s, q).0.blob == s.blob && Serve(s, q).0.etag == s.etag
    ensures Mutates(q) && !Carries(q, id) ==> Serve(s, q).1.err != Ok
  {}

  /** Exclusion over runs: if lease `id` is granted by request i and a mutation carrying it still
      succeeds at request j, then in between no other lease was granted and every change to the
      blob was made under `id`. */
  lemma Exclusion(states: seq<Server>, qs: seq<Request>, i: nat, j: nat, k: nat, id: nat)
    requires ServerRun(states, qs) && i < k < j < |qs|
    requires qs[i].Acquire? && Answer(states, qs, i) == Response(Ok, id)
    requires Carries(qs[j], id) && Answer(states, qs, j).err == Ok
    ensures qs[k].Acquire? ==> Answer(states, qs, k).err != Ok
    ensures Mutates(qs[k]) && Answer(states, qs, k).err == Ok ==> Carries(qs[k], id)
    ensures !Carries(qs[k], id) ==> states[k + 1].blob == states[k].blob && states[k + 1].etag == states[k].etag
  {
    IssuedStays(states, qs, i, k, id);
    RunWellFormed(states, qs, k);
    if Live(states[k], id) {
      LiveExcludes(states[k], qs[k], id);
    } else {
      Fencing(states, qs, k, j, id);
      assert false;
    }
    assert states[k + 1] == Serve(states[k], qs[k]).0;
  }

  lemma {:induction false} IssuedStays(states: seq<Server>, qs: seq<Request>, i: nat, k: nat, id: nat)
    requires ServerRun(states, qs) && i < k <= |qs|
    requires qs[i].Acquire? && Answer(states, qs, i) == Response(Ok, id)
    ensures id < states[k].nextLease
  {
    assert states[k] == Serve(states[k - 1], qs[k - 1]).0;
    if i < k - 1 { IssuedStays(states, qs, i, k - 1, id); }
  }
}
