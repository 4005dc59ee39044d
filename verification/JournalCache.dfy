/** The journal-existence cache: 16 entries that spare HEAD requests. `store` is the set of blob
    names that really exist. One process, one container. */
module JournalCache {
  const MAX_ENTRIES: nat := 16
  const NAME_LIMIT: nat := 512

  /** state: -1 unknown, 0 absent, 1 present. */
  datatype Entry = Entry(name: string, state: int)

  predicate IsJournal(name: string) {
    |name| >= 8 && name[|name| - 8..] == "-journal"
  }

  function Truth(store: set<string>, name: string): int { if name in store then 1 else 0 }

  /** Names are distinct and short, there are at most 16, and what is known is true. */
  ghost predicate Accurate(es: seq<Entry>, store: set<string>) {
    && |es| <= MAX_ENTRIES
    && (forall i :: 0 <= i < |es| ==> |es[i].name| < NAME_LIMIT)
    && Distinct(es)
    && forall i :: 0 <= i < |es| ==> es[i].state == -1 || es[i].state == Truth(store, es[i].name)
  }

  /** The cache says that `name` is in state `state`. */
  predicate Records(es: seq<Entry>, name: string, state: int) {
    exists i :: 0 <= i < |es| && es[i].name == name && es[i].state == state
  }

  /** Some entry is about `name`. */
  predicate Known(es: seq<Entry>, name: string) {
    exists i :: 0 <= i < |es| && es[i].name == name
  }

  /** There is room for a new entry about `name`. */
  predicate Room(es: seq<Entry>, name: string) { |es| < 16 && |name| < 512 }

  /** Afterwards the cache holds `state` about `name`, if it has an entry for it, and what it held
      about every other name. */
  ghost predicate Learns(es: seq<Entry>, es': seq<Entry>, name: string, state: int, entry: bool) {
    && (forall s :: Records(es', name, s) <==> entry && s == state)
    && (forall n, s :: n != name ==> (Records(es', n, s) <==> Records(es, n, s)))
  }

  ghost predicate Distinct(es: seq<Entry>) { forall i, j :: 0 <= i < j < |es| ==> es[i].name != es[j].name }

  lemma LearnAt(es: seq<Entry>, mid: seq<Entry>, es': seq<Entry>, name: string, state: int, i: nat)
    requires Distinct(mid) && i < |mid| && mid[i].name == name && es' == mid[i := Entry(name, state)]
    requires mid == es || mid == es + [Entry(name, -1)]
    ensures Learns(es, es', name, state, true)
  {
    assert es'[i] == Entry(name, state);
    forall n, s | n != name ensures Records(es', n, s) <==> Records(es, n, s) {
      if Records(es, n, s) {
        var j :| 0 <= j < |es| && es[j].name == n && es[j].state == s;
        assert mid[j] == es[j] && es'[j] == mid[j];
      }
    }
  }

  lemma LearnNothing(es: seq<Entry>, name: string, state: int)
    requires !Known(es, name)
    ensures Learns(es, es, name, state, false)
  {
    forall s ensures !Records(es, name, s) {
      if Records(es, name, s) { assert Known(es, name); }
    }
  }

  /** A request: does it take effect, and does the client take the answer for an error? */
  datatype Reply = Reply(applied: bool, err: bool)

  /** The answer to a delete request. "Missing" means that the blob is gone, perhaps by an earlier
      attempt of this request. */
  datatype DeleteReply = Deleted(applied: bool) | Missing | Failed(applied: bool)

  function StoreAfterDelete(store: set<string>, name: string, reply: DeleteReply): set<string> {
    if reply.Missing? || reply.applied then store - {name} else store
  }

  class VfsData {
    var cache: seq<Entry>

    constructor ()
      ensures cache == []
    {
      cache := [];
    }

    /** journalCacheFind. */
    method Find(name: string) returns (i: int)
      ensures -1 <= i < |cache|
      ensures i >= 0 ==> cache[i].name == name
      ensures i < 0 ==> forall j :: 0 <= j < |cache| ==> cache[j].name != name
    {
      i := 0;
      while i < |cache|
        invariant 0 <= i <= |cache| && forall j :: 0 <= j < i ==> cache[j].name != name
      {
        if cache[i].name == name { return i; }
        i := i + 1;
      }
      return -1;
    }

    /** journalCacheGetOrCreate: -1 when the cache is full or the name too long. */
    method GetOrCreate(name: string, ghost store: set<string>) returns (i: int)
      requires Accurate(cache, store)
      modifies this
      ensures Accurate(cache, store) && -1 <= i < |cache|
      ensures i >= 0 ==> cache[i].name == name
      ensures i < 0 ==> forall j :: 0 <= j < |cache| ==> cache[j].name != name
      ensures i >= 0 <==> Known(old(cache), name) || Room(old(cache), name)
      ensures cache == old(cache) || (i == |old(cache)| && cache == old(cache) + [Entry(name, -1)])
    {
      i := Find(name);
      if i >= 0 { return; }
      if |cache| >= MAX_ENTRIES { return -1; }
      if |name| >= NAME_LIMIT { return -1; }
      cache := cache + [Entry(name, -1)];
      return |cache| - 1;
    }

    /** Record what is known in entry i, if there is one. */
    method Learn(i: int, name: string, state: int, ghost before: seq<Entry>)
      requires Distinct(cache) && -1 <= i < |cache| && (cache == before || cache == before + [Entry(name, -1)])
      requires if i >= 0 then cache[i].name == name else cache == before && !Known(cache, name)
      modifies this
      ensures cache == if i >= 0 then old(cache)[i := Entry(name, state)] else old(cache)
      ensures Learns(before, cache, name, state, i >= 0)
    {
      if i < 0 {
        LearnNothing(cache, name, state);
        return;
      }
      LearnAt(before, cache, cache[i := Entry(name, state)], name, state, i);
      cache := cache[i := cache[i].(state := state)];
    }

    /** xOpen of a journal: does the blob exist? An unanswered HEAD counts as "absent" and is
        remembered as such: the cache stays accurate exactly if that was no lie. */
    method Open(store: set<string>, name: string, answered: bool) returns (found: bool, asked: bool)
      requires Accurate(cache, store)
      modifies this
      ensures answered ==> Accurate(cache, store) && found == (name in store)
      ensures asked && !answered ==> !found
      ensures asked && !answered ==>
                (Accurate(cache, store) <==> (name !in store || forall j :: 0 <= j < |cache| ==> cache[j].name != name))
      ensures !asked ==> Accurate(cache, store) && found == (name in store)
      ensures asked <==> !Records(old(cache), name, 0)
      ensures asked ==> Learns(old(cache), cache, name, if found then 1 else 0, Known(old(cache), name) || Room(old(cache), name))
    {
      var i := GetOrCreate(name, store);
      if i >= 0 && cache[i].state == 0 { return false, false; }
      found := answered && name in store;
      Learn(i, name, if found then 1 else 0, old(cache));
      return found, true;
    }

    /** xSync of a non-empty journal: upload, then remember that the blob exists. The cache is wrong
        afterwards exactly if the answer was, and the cache now says the opposite of the truth. */
    method Upload(store: set<string>, name: string, reply: Reply) returns (ok: bool, store': set<string>)
      requires Accurate(cache, store)
      modifies this
      ensures ok == !reply.err && store' == if reply.applied then store + {name} else store
      ensures ok ==> (Accurate(cache, store') <==> reply.applied || name in store || !Records(cache, name, 1))
      ensures !ok ==> cache == old(cache) && (Accurate(cache, store') <==> !reply.applied || !Records(cache, name, 0))
      ensures ok ==> Learns(old(cache), cache, name, 1, Known(old(cache), name) || Room(old(cache), name))
    {
      store' := if reply.applied then store + {name} else store;
      if reply.err { return false, store'; }
      var i := GetOrCreate(name, store);
      Learn(i, name, 1, old(cache));
      return true, store';
    }

    /** xDelete: "missing" is success. The cache is wrong afterwards exactly if the answer was, and the
        cache now says the opposite of the truth. */
    method Delete(store: set<string>, name: string, reply: DeleteReply) returns (ok: bool, store': set<string>)
      requires Accurate(cache, store)
      modifies this
      ensures store' == StoreAfterDelete(store, name, reply) && ok == !reply.Failed?
      ensures ok ==> (Accurate(cache, store') <==> name !in store' || !Records(cache, name, 0))
      ensures !ok ==> cache == old(cache) && (Accurate(cache, store') <==> !reply.applied || !Records(cache, name, 1))
      ensures ok ==> Learns(old(cache), cache, name, 0, Known(old(cache), name))
    {
      store' := StoreAfterDelete(store, name, reply);
      if reply.Failed? { return false, store'; }
      var i := Find(name);
      Learn(i, name, 0, old(cache));
      return true, store';
    }

    /** xAccess: answer from the cache when the state is known, otherwise ask. */
    method Access(store: set<string>, name: string, answered: bool) returns (found: bool, asked: bool)
      requires Accurate(cache, store)
      modifies this
      ensures Accurate(cache, store)
      ensures !asked || answered ==> found == (name in store)
      ensures asked && !answered ==> !found && cache == old(cache)
      ensures asked <==> forall i :: 0 <= i < |old(cache)| && old(cache)[i].name == name ==> old(cache)[i].state < 0
      ensures asked && answered && |name| >= 8 && name[|name| - 8..] == "-journal" ==>
                Learns(old(cache), cache, name, if found then 1 else 0, Known(old(cache), name) || Room(old(cache), name))
      ensures !asked || |name| < 8 || name[|name| - 8..] != "-journal" ==> cache == old(cache)
    {
      var i := Find(name);
      if i >= 0 && cache[i].state >= 0 { return cache[i].state == 1, false; }
      if !answered { return false, true; }
      found := name in store;
      if IsJournal(name) {
        var j := GetOrCreate(name, store);
        Learn(j, name, if found then 1 else 0, old(cache));
      }
      return found, true;
    }

    /** One operation whose answer is true. */
    method Do(store: set<string>, op: Op) returns (r: bool, store': set<string>)
      requires Accurate(cache, store) && op.AnswerIsTrue()
      modifies this
      ensures Accurate(cache, store') && store' == After(store, op)
      ensures op.AccessOp? || op.OpenOp? ==> r == (op.name in store)
    {
      var asked;
      store' := store;
      match op {
        case OpenOp(name) => r, asked := Open(store, name, true);
        case AccessOp(name) => r, asked := Access(store, name, true);
        case UploadOp(name, reply) => r, store' := Upload(store, name, reply);
        case DeleteOp(name, reply) => r, store' := Delete(store, name, reply);
      }
    }

    /** Any sequence of operations on any number of journals whose answers are true, failed requests
        included: every existence query gets the true answer. */
    method Replay(store: set<string>, ops: seq<Op>) returns (store': set<string>, answers: seq<bool>)
      requires Accurate(cache, store) && forall i :: 0 <= i < |ops| ==> ops[i].AnswerIsTrue()
      modifies this
      ensures Accurate(cache, store') && store' == StoreAfter(store, ops)
      ensures |answers| == |ops| && forall i :: 0 <= i < |ops| && (ops[i].AccessOp? || ops[i].OpenOp?) ==>
                answers[i] == (ops[i].name in StoreAfter(store, ops[..i]))
    {
      store', answers := store, [];
      while |answers| < |ops|
        invariant |answers| <= |ops| && Accurate(cache, store') && store' == StoreAfter(store, ops[..|answers|])
        invariant forall i :: 0 <= i < |answers| && (ops[i].AccessOp? || ops[i].OpenOp?) ==>
                    answers[i] == (ops[i].name in StoreAfter(store, ops[..i]))
        decreases |ops| - |answers|
      {
        var op, n := ops[|answers|], |answers|;
        assert ops[..n + 1][..n] == ops[..n] && ops[..n + 1][n] == op;
        var r;
        r, store' := Do(store', op);
        answers := answers + [r];
      }
      assert ops[..|answers|] == ops;
    }
  }

  datatype Op =
    | OpenOp(name: string) | AccessOp(name: string)
    | UploadOp(name: string, upload: Reply) | DeleteOp(name: string, delete: DeleteReply)
  {
    /** What the client takes for success took effect, and what it takes for an error did not. */
    predicate AnswerIsTrue() {
      match this
      case UploadOp(_, reply) => reply.applied == !reply.err
      case DeleteOp(_, Deleted(applied)) => applied
      case DeleteOp(_, Failed(applied)) => !applied
      case _ => true
    }
  }

  function After(store: set<string>, op: Op): set<string> {
    match op
    case UploadOp(name, reply) => if reply.applied then store + {name} else store
    case DeleteOp(name, reply) => StoreAfterDelete(store, name, reply)
    case _ => store
  }

  /** The blobs that exist after some operations. */
  function StoreAfter(store: set<string>, ops: seq<Op>): set<string> {
    if ops == [] then store else After(StoreAfter(store, ops[..|ops| - 1]), ops[|ops| - 1])
  }
}
