/** The rollback journal: an in-memory buffer uploaded as one block blob on sync. */
module Journal {
  import opened Options
  import opened Bytes
  import opened MainDbFile

  const INITIAL_ALLOC: nat := 65536
  const INT64_LIMIT: nat := 0x8000_0000_0000_0000
  const LARGEST_ALLOC: nat := 0x4000_0000_0000_0000

  /** The sizes bufferEnsure allocates: 64 KiB doubled some number of times, below 2^63. */
  predicate AllocSize(a: nat) {
    a == 0 || exists k: nat :: k <= 46 && a == INITIAL_ALLOC * Doublings(k)
  }

  function Doublings(k: nat): (p: nat)
    ensures p > 0
  {
    if k == 0 then 1 else 2 * Doublings(k - 1)
  }

  lemma {:induction false} DoublingsGrow(j: nat, k: nat)
    requires j <= k
    ensures Doublings(j) <= Doublings(k)
  {
    if j < k { DoublingsGrow(j, k - 1); }
  }

  lemma LastDoubling()
    ensures INITIAL_ALLOC * Doublings(46) == LARGEST_ALLOC
  {
    assert Doublings(10) == 1024 by { assert Doublings(5) == 32; }
    assert Doublings(20) == 1024 * Doublings(10) by { assert Doublings(15) == 32 * Doublings(10); }
    assert Doublings(30) == 1024 * Doublings(20) by { assert Doublings(25) == 32 * Doublings(20); }
    assert Doublings(40) == 1024 * Doublings(30) by { assert Doublings(35) == 32 * Doublings(30); }
    assert Doublings(46) == 64 * Doublings(40) by { assert Doublings(43) == 8 * Doublings(40); }
  }

  /** What reading n bytes at `at` of the bytes c must give: those bytes, zeros past the end, and
      OK exactly if nothing lies past the end. */
  predicate ReadsAs(out: seq<byte>, rc: Rc, c: seq<byte>, at: nat, n: nat) {
    && |out| == n && (forall i :: 0 <= i < n ==> out[i] == if at + i < |c| then c[at + i] else 0)
    && rc == if at < |c| && at + n <= |c| then SQLITE_OK else IOERR_SHORT_READ
  }

  /** The fate of an upload: was it stored, and does the client take the answer for success? */
  datatype UploadReply = UploadReply(stored: bool, ok: bool)

  datatype Op = WriteOp(at: nat, d: seq<byte>) | TruncateOp(size: nat) | ReadOp(at: nat, n: nat) | SyncOp(reply: UploadReply)

  /** The reference model of a journal: a zero-filled byte sequence and the uploaded blob. A write
      past the largest buffer is refused. */
  datatype Simple = Simple(contents: seq<byte>, uploaded: Option<seq<byte>>)

  function Apply(m: Simple, op: Op): Simple {
    match op
    case WriteOp(at, d) => if at + |d| <= LARGEST_ALLOC then m.(contents := Splice(m.contents, at, d)) else m
    case TruncateOp(size) => if size < |m.contents| then m.(contents := m.contents[..size]) else m
    case ReadOp(_, _) => m
    case SyncOp(reply) => if m.contents == [] || !reply.stored then m else m.(uploaded := Some(m.contents))
  }

  function ApplyAll(m: Simple, ops: seq<Op>): Simple {
    if ops == [] then m else Apply(ApplyAll(m, ops[..|ops| - 1]), ops[|ops| - 1])
  }

  class JournalFile {
    var buf: seq<byte>       // aJrnlData, nJrnlAlloc bytes
    var size: nat            // nJrnlData

    ghost predicate Valid()
      reads this
    {
      size <= |buf| && AllocSize(|buf|) && forall o: nat :: size <= o ==> At(buf, o) == 0
    }

    ghost function Contents(): seq<byte>
      reads this
      requires Valid()
    {
      buf[..size]
    }

    constructor ()
      ensures Valid() && Contents() == []
    {
      buf, size := [], 0;
    }

    /** xOpen of a journal that exists (crash recovery): the uploaded blob becomes the buffer. A
        download that fails is passed over, and the journal opens empty. */
    method Reopen(uploaded: Option<seq<byte>>, answered: bool) returns (rc: Rc)
      requires Valid() && Contents() == []
      modifies this
      ensures Valid()
      ensures uploaded.None? || !answered ==> rc == SQLITE_OK && Contents() == []
      ensures uploaded.Some? && answered ==> rc == if |uploaded.value| <= LARGEST_ALLOC then SQLITE_OK else SQLITE_NOMEM
      // a journal that was opened is the one uploaded, exactly if the download was answered or had nothing to give
      ensures uploaded.Some? && rc == SQLITE_OK ==> (Contents() == uploaded.value <==> answered || uploaded.value == [])
    {
      if uploaded.None? || !answered || uploaded.value == [] { return SQLITE_OK; }
      rc := Write(uploaded.value, 0);
      assert Splice([], 0, uploaded.value) == uploaded.value;
    }

    /** bufferEnsure: double from 64 KiB; refuse once doubling would leave 63 bits. */
    method Ensure(newSize: nat) returns (rc: Rc)
      requires Valid()
      modifies this`buf
      ensures Valid() && size == old(size) && Contents() == old(Contents())
      ensures rc == if newSize <= LARGEST_ALLOC then SQLITE_OK else SQLITE_NOMEM
      ensures rc == SQLITE_OK ==> newSize <= |buf|
    {
      LastDoubling();
      ghost var k: nat :| |buf| > 0 ==> k <= 46 && |buf| == INITIAL_ALLOC * Doublings(k);
      if |buf| == 0 { k := 0; }
      DoublingsGrow(k, 46);
      if newSize <= |buf| { return SQLITE_OK; }
      var alloc := |buf|;
      if alloc == 0 { alloc := INITIAL_ALLOC; }
      while alloc < newSize
        invariant k <= 46 && alloc == INITIAL_ALLOC * Doublings(k) && |buf| <= alloc && buf == old(buf)
        decreases newSize - alloc
      {
        if alloc * 2 >= INT64_LIMIT {
          TooBig(k);
          return SQLITE_NOMEM;
        }
        StillFits(k);
        k := k + 1;
        alloc := alloc * 2;
      }
      DoublingsGrow(k, 46);
      buf := Resize(buf, alloc);
      return SQLITE_OK;
    }

    method Write(d: seq<byte>, at: nat) returns (rc: Rc)
      requires Valid()
      modifies this
      ensures Valid()
      ensures rc == if at + |d| <= LARGEST_ALLOC then SQLITE_OK else SQLITE_NOMEM
      ensures Contents() == if rc == SQLITE_OK then Splice(old(Contents()), at, d) else old(Contents())
    {
      var end := at + |d|;
      rc := Ensure(end);
      if rc != SQLITE_OK { return; }
      ghost var c := Contents();
      assert forall o: nat :: At(c, o) == At(buf, o);
      buf := Splice(buf, at, d);
      if end > size { size := end; }
      SameView(buf[..size], Splice(c, at, d)) by {
        forall o: nat | o < size ensures At(buf[..size], o) == At(Splice(c, at, d), o) { }
      }
    }

    method Truncate(newSize: nat) returns (rc: Rc)
      requires Valid()
      modifies this
      ensures Valid() && rc == SQLITE_OK
      ensures Contents() == if newSize < |old(Contents())| then old(Contents())[..newSize] else old(Contents())
    {
      if newSize < size {
        size := newSize;
        buf := buf[..newSize] + seq(|buf| - newSize, _ => 0);
      }
      return SQLITE_OK;
    }

    /** bufferRead. */
    method Read(at: nat, n: nat) returns (out: seq<byte>, rc: Rc)
      requires Valid()
      ensures |out| == n && forall i :: 0 <= i < n ==> out[i] == At(Contents(), at + i)
      ensures rc == SQLITE_OK <==> at < |Contents()| && at + n <= |Contents()|
      ensures rc == SQLITE_OK || rc == IOERR_SHORT_READ
    {
      if |buf| == 0 || at >= size {
        out := seq(n, _ => 0);
        return out, IOERR_SHORT_READ;
      }
      var avail := size - at;
      if avail >= n {
        out := buf[at..at + n];
        return out, SQLITE_OK;
      }
      out := buf[at..at + avail] + seq(n - avail, _ => 0);
      return out, IOERR_SHORT_READ;
    }

    /** xSync of the journal: an empty journal uploads nothing. */
    method Sync(uploaded: Option<seq<byte>>, reply: UploadReply) returns (rc: Rc, uploaded': Option<seq<byte>>)
      requires Valid()
      ensures rc == if reply.ok || Contents() == [] then SQLITE_OK else IOERR_FSYNC
      ensures uploaded' == if Contents() != [] && reply.stored then Some(Contents()) else uploaded
    {
      if size > 0 {
        uploaded' := if reply.stored then Some(buf[..size]) else uploaded;
        return if reply.ok then SQLITE_OK else IOERR_FSYNC, uploaded';
      }
      return SQLITE_OK, uploaded;
    }

    /** Any sequence of operations, failed ones included, behaves as on the reference model: contents,
        uploads and every read agree. */
    method Replay(ops: seq<Op>, uploaded: Option<seq<byte>>) returns (uploaded': Option<seq<byte>>, results: map<nat, (seq<byte>, Rc)>)
      requires Valid()
      modifies this
      ensures Valid()
      ensures Simple(Contents(), uploaded') == ApplyAll(Simple(old(Contents()), uploaded), ops)
      ensures forall i :: 0 <= i < |ops| && ops[i].ReadOp? ==>
                && i in results
                && ReadsAs(results[i].0, results[i].1, ApplyAll(Simple(old(Contents()), uploaded), ops[..i]).contents, ops[i].at, ops[i].n)
    {
      uploaded', results := uploaded, map[];
      var i := 0;
      ghost var m := Simple(Contents(), uploaded);
      while i < |ops|
        invariant 0 <= i <= |ops| && Valid()
        invariant Simple(Contents(), uploaded') == ApplyAll(m, ops[..i])
        invariant forall j :: 0 <= j < i && ops[j].ReadOp? ==>
                    j in results && ReadsAs(results[j].0, results[j].1, ApplyAll(m, ops[..j]).contents, ops[j].at, ops[j].n)
      {
        assert ops[..i + 1][..i] == ops[..i] && ops[..i + 1][i] == ops[i];
        var rc;
        match ops[i] {
          case WriteOp(at, d) => rc := Write(d, at);
          case TruncateOp(newSize) => rc := Truncate(newSize);
          case ReadOp(at, n) =>
            var out;
            out, rc := Read(at, n);
            results := results[i := (out, rc)];
          case SyncOp(reply) => rc, uploaded' := Sync(uploaded', reply);
        }
        i := i + 1;
      }
      assert ops[..i] == ops;
    }
  }

  lemma {:induction false} TooBig(k: nat)
    requires k <= 46 && INITIAL_ALLOC * Doublings(k) * 2 >= INT64_LIMIT
    ensures INITIAL_ALLOC * Doublings(k) >= LARGEST_ALLOC
  {}

  lemma {:induction false} StillFits(k: nat)
    requires k <= 46 && INITIAL_ALLOC * Doublings(k) * 2 < INT64_LIMIT
    ensures k < 46
  {
    LastDoubling();
  }
}
