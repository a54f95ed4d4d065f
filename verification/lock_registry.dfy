/**
 * The per-field edit-lock table shared by all sessions of one store.
 *
 * The source keeps it as a dict from `(item_id, field_name)` to a session id.
 * A Python dict iterates in insertion order, and `release_all_locks` returns
 * the released keys in that order, so the table is modelled as a sequence of
 * entries with pairwise distinct keys, new keys appended at the end.
 */
module LockRegistry {
  import opened Options

  /** One editable field of one item: `(item_id, field_name)`. */
  datatype LockKey = LockKey(itemId: string, field: string)

  /** `key` is being edited by the session `holder`. */
  datatype Entry = Entry(key: LockKey, holder: string)

  predicate DistinctKeys(entries: seq<Entry>)
  {
    forall i, j | 0 <= i < j < |entries| :: entries[i].key != entries[j].key
  }

  /** The lock table: at most one holder per key, in insertion order. */
  type Registry = entries: seq<Entry> | DistinctKeys(entries) witness []

  /** The keys the table holds a lock for. */
  function Keys(r: seq<Entry>): set<LockKey>
  {
    set i | 0 <= i < |r| :: r[i].key
  }

  /** The keys held by session `sid`. */
  function HeldBy(r: seq<Entry>, sid: string): set<LockKey>
  {
    set i | 0 <= i < |r| && r[i].holder == sid :: r[i].key
  }

  /** `get_lock_holder`: the session holding `key`, or `None` when the field is unlocked. */
  function Holder(r: seq<Entry>, key: LockKey): (h: Option<string>)
    ensures h.None? <==> key !in Keys(r)
    ensures h.Some? ==> Entry(key, h.value) in r
  {
    if r == [] then None
    else if r[0].key == key then Some(r[0].holder)
    else
      assert Keys(r) == {r[0].key} + Keys(r[1..]);
      Holder(r[1..], key)
  }

  /** Appending an entry for an unheld key locks it and leaves every other key alone. */
  lemma {:induction false} HolderAppend(r: seq<Entry>, e: Entry, k: LockKey)
    ensures Holder(r + [e], k) == if k in Keys(r) then Holder(r, k) else if k == e.key then Some(e.holder) else None
  {
    if r == [] {
      assert r + [e] == [e];
    } else {
      assert (r + [e])[1..] == r[1..] + [e];
      assert Keys(r) == {r[0].key} + Keys(r[1..]);
      HolderAppend(r[1..], e, k);
    }
  }

  lemma KeysCons(e: Entry, s: seq<Entry>)
    ensures Keys([e] + s) == {e.key} + Keys(s)
  {
    forall k | k in Keys(s)
      ensures k in Keys([e] + s)
    {
      var i :| 0 <= i < |s| && s[i].key == k;
      assert ([e] + s)[i + 1] == s[i];
    }
    assert ([e] + s)[0] == e;
  }

  /** The first key of a table does not occur again in its tail. */
  lemma HeadNotInTail(r: Registry)
    requires r != []
    ensures r[0].key !in Keys(r[1..])
    ensures Keys(r) == {r[0].key} + Keys(r[1..])
  {
  }

  /** The table without the entry for `key`. */
  function RemoveKey(r: Registry, key: LockKey): (r': Registry)
    ensures Holder(r', key) == None
    ensures forall k | k != key :: Holder(r', k) == Holder(r, k)
    ensures Keys(r') <= Keys(r)
  {
    if r == [] then []
    else
      var tail: Registry := r[1..];
      var rest := RemoveKey(tail, key);
      HeadNotInTail(r);
      if r[0].key == key then rest
      else
        KeysCons(r[0], rest);
        [r[0]] + rest
  }

  /**
   * Removing a key keeps the order of the other entries: the table loses
   * exactly the one entry that has the key.
   */
  lemma {:induction false} RemoveKeyKeepsOrder(r: Registry, key: LockKey, i: nat)
    ensures i < |r| && r[i].key == key ==> RemoveKey(r, key) == r[..i] + r[i + 1..]
  {
    if r != [] {
      var tail: Registry := r[1..];
      HeadNotInTail(r);
      KeysCons(r[0], tail);
      assert r == [r[0]] + tail;
      if r[0].key == key {
        RemoveKeyAbsent(tail, key);
        assert i < |r| && r[i].key == key ==> i == 0;
      } else {
        RemoveKeyKeepsOrder(tail, key, if i > 0 then i - 1 else 0);
        if i > 0 && i < |r| {
          assert r[..i] == [r[0]] + tail[..i - 1];
          assert r[i + 1..] == tail[i..];
        }
      }
    }
  }

  /** A key the table does not hold removes nothing. */
  lemma {:induction false} RemoveKeyAbsent(r: Registry, key: LockKey)
    requires key !in Keys(r)
    ensures RemoveKey(r, key) == r
  {
    if r != [] {
      var tail: Registry := r[1..];
      KeysCons(r[0], tail);
      assert r == [r[0]] + tail;
      RemoveKeyAbsent(tail, key);
    }
  }

  /** Result of an acquire or release: whether it succeeded, and the table afterwards. */
  datatype Outcome = Outcome(ok: bool, locks: Registry)

  /**
   * `acquire_lock`: a non-blocking compare-and-set. It succeeds when the key is
   * unheld or already held by `sid`; a key held by another session is never
   * taken over, and a failed attempt changes nothing.
   */
  function Acquire(r: Registry, key: LockKey, sid: string): (res: Outcome)
    ensures res.ok <==> Holder(r, key) == None || Holder(r, key) == Some(sid)
    ensures res.ok ==> Holder(res.locks, key) == Some(sid)
    ensures !res.ok ==> res.locks == r
    ensures Holder(r, key) == Some(sid) ==> res.locks == r
    ensures Holder(r, key) == None ==> res.locks == r + [Entry(key, sid)]
    ensures forall k | k != key :: Holder(res.locks, k) == Holder(r, k)
  {
    match Holder(r, key)
    case None =>
      var e := Entry(key, sid);
      assert DistinctKeys(r + [e]) by {
        forall i, j | 0 <= i < j < |r + [e]|
          ensures (r + [e])[i].key != (r + [e])[j].key
        {
          if j == |r| {
            assert (r + [e])[i] == r[i];
            assert r[i].key in Keys(r);
          }
        }
      }
      assert forall k :: Holder(r + [e], k) == if k in Keys(r) then Holder(r, k) else if k == key then Some(sid) else None by {
        forall k
          ensures Holder(r + [e], k) == if k in Keys(r) then Holder(r, k) else if k == key then Some(sid) else None
        {
          HolderAppend(r, e, k);
        }
      }
      Outcome(true, r + [e])
    case Some(h) =>
      Outcome(h == sid, r)
  }

  /**
   * `release_lock`: removes the entry only when `sid` is the recorded holder,
   * and says whether it did; a non-holder changes nothing.
   */
  function Release(r: Registry, key: LockKey, sid: string): (res: Outcome)
    ensures res.ok <==> Holder(r, key) == Some(sid)
    ensures res.ok ==> Holder(res.locks, key) == None
    ensures !res.ok ==> res.locks == r
    ensures forall k | k != key :: Holder(res.locks, k) == Holder(r, k)
  {
    if Holder(r, key) == Some(sid) then Outcome(true, RemoveKey(r, key))
    else Outcome(false, r)
  }

  /** Result of `release_all_locks`: the released keys in table order, and the table afterwards. */
  datatype Released = Released(keys: seq<LockKey>, locks: Registry)

  /**
   * `release_all_locks`: removes every entry held by `sid` and returns exactly
   * those keys, each once; the entries of other sessions stay as they were.
   */
  function ReleaseAll(r: Registry, sid: string): (res: Released)
    ensures forall k :: k in res.keys <==> Holder(r, k) == Some(sid)
    ensures forall i, j | 0 <= i < j < |res.keys| :: res.keys[i] != res.keys[j]
    ensures forall k :: Holder(res.locks, k) == if Holder(r, k) == Some(sid) then None else Holder(r, k)
    ensures Keys(res.locks) <= Keys(r)
  {
    if r == [] then Released([], [])
    else
      var tail: Registry := r[1..];
      var rest := ReleaseAll(tail, sid);
      HeadNotInTail(r);
      if r[0].holder == sid then
        assert forall k | k in rest.keys :: k in Keys(tail);
        Released([r[0].key] + rest.keys, rest.locks)
      else
        KeysCons(r[0], rest.locks);
        Released(rest.keys, [r[0]] + rest.locks)
  }

  /**
   * `release_all_locks` reports keys in table order: a lock taken after all
   * the others is reported after them.
   */
  lemma {:induction false} ReleaseAllAppend(r: Registry, e: Entry, sid: string)
    requires DistinctKeys(r + [e])
    ensures ReleaseAll(r + [e], sid).keys == ReleaseAll(r, sid).keys + (if e.holder == sid then [e.key] else [])
  {
    var re: Registry := r + [e];
    if r == [] {
      assert re == [e];
      assert re[1..] == [];
    } else {
      var tail: Registry := r[1..];
      assert re[0] == r[0];
      assert re[1..] == tail + [e];
      assert DistinctKeys(tail + [e]) by {
        forall i, j | 0 <= i < j < |tail + [e]|
          ensures (tail + [e])[i].key != (tail + [e])[j].key
        {
          assert (tail + [e])[i] == re[i + 1] && (tail + [e])[j] == re[j + 1];
        }
      }
      ReleaseAllAppend(tail, e, sid);
    }
  }

  /** `release_all_locks` for a session that holds nothing returns no keys and leaves the table as it was. */
  lemma {:induction false} ReleaseAllNothingHeld(r: Registry, sid: string)
    requires forall k :: Holder(r, k) != Some(sid)
    ensures ReleaseAll(r, sid) == Released([], r)
  {
    if r != [] {
      var tail: Registry := r[1..];
      HeadNotInTail(r);
      assert Holder(r, r[0].key) == Some(r[0].holder);
      forall k
        ensures Holder(tail, k) != Some(sid)
      {
        if k != r[0].key {
          assert Holder(r, k) == Holder(tail, k);
        }
      }
      ReleaseAllNothingHeld(tail, sid);
      assert [r[0]] + tail == r;
    }
  }

  /** After `release_all_locks(sid)` the session holds nothing, and the keys returned are exactly those it held. */
  lemma ReleaseAllFreesSession(r: Registry, sid: string)
    ensures HeldBy(ReleaseAll(r, sid).locks, sid) == {}
    ensures (set k | k in ReleaseAll(r, sid).keys) == HeldBy(r, sid)
  {
  }

  /** Mutual exclusion: once `a` holds a key, an acquire by any other session fails and changes nothing. */
  lemma AcquireExcludesOthers(r: Registry, key: LockKey, a: string, b: string)
    requires a != b
    requires Acquire(r, key, a).ok
    ensures !Acquire(Acquire(r, key, a).locks, key, b).ok
    ensures Acquire(Acquire(r, key, a).locks, key, b).locks == Acquire(r, key, a).locks
  {
  }

  /** Acquiring twice is the same as acquiring once. */
  lemma AcquireIdempotent(r: Registry, key: LockKey, sid: string)
    ensures Acquire(Acquire(r, key, sid).locks, key, sid) == Outcome(Acquire(r, key, sid).ok, Acquire(r, key, sid).locks)
  {
  }

  /** A release by the holder after its acquire leaves the key unheld. */
  lemma AcquireThenRelease(r: Registry, key: LockKey, sid: string)
    requires Holder(r, key) == None
    ensures Release(Acquire(r, key, sid).locks, key, sid).ok
    ensures Holder(Release(Acquire(r, key, sid).locks, key, sid).locks, key) == None
  {
  }
}
