/**
 * Multi-step properties of the session protocol: several sessions acting on
 * one store, each with its own drafts.
 */
module Scenarios {
  import opened Options
  import opened LockRegistry
  import opened Notifications
  import DataStores
  import EditableField
  import AliveViews
  import Payloads

  /**
   * Two sessions ask to edit one unlocked field. The first gets it, the
   * second is refused with nothing changed and sees the field as locked. When
   * the first saves its text, the row holds it, the lock is free, and the
   * second sees the field unlocked.
   */
  lemma ConcurrentEditConflict(
    w: EditableField.World, draftsB: Drafts, a: string, b: string,
    itemId: string, field: string, text: string, channel: string)
    requires a != b
    requires Holder(w.locks, LockKey(itemId, field)) == None
    requires DataStores.FetchField(w.rows, LockKey(itemId, field)).Some?
    requires DraftKey(itemId, field) !in draftsB
    ensures
      var startA := EditableField.StartEdit(w, a, itemId, field, channel);
      var worldB := EditableField.World(startA.world.locks, startA.world.rows, draftsB);
      var startB := EditableField.StartEdit(worldB, b, itemId, field, channel);
      var typed := EditableField.UpdateDraft(startA.world, itemId, field, text);
      var saved := EditableField.SaveEdit(typed.world, a, itemId, field, DraftOf(typed.world.drafts, DraftKey(itemId, field)), channel);
      && DraftKey(itemId, field) in startA.world.drafts
      && startB == EditableField.Step(worldB, [Refresh])
      && EditableField.RenderFieldData(itemId, field, "", b, startB.world.drafts, startB.world.locks).isLocked
      && !EditableField.RenderFieldData(itemId, field, "", b, startB.world.drafts, startB.world.locks).isEditing
      && DataStores.FetchField(saved.world.rows, LockKey(itemId, field)) == Some(text)
      && Holder(saved.world.locks, LockKey(itemId, field)) == None
      && saved.effects == [Refresh, Broadcast(channel, StateChanged)]
      && !EditableField.RenderFieldData(itemId, field, text, b, draftsB, saved.world.locks).isLocked
  {
  }

  /**
   * Cancelling an edit never writes: after start, a draft update and cancel,
   * the committed value is the one before the edit and the lock is free.
   */
  lemma CancelKeepsCommittedValue(w: EditableField.World, sid: string, itemId: string, field: string, garbage: string, channel: string)
    requires EditableField.MayAcquire(w.locks, LockKey(itemId, field), sid)
    ensures
      var started := EditableField.StartEdit(w, sid, itemId, field, channel);
      var typed := EditableField.UpdateDraft(started.world, itemId, field, garbage);
      var cancelled := EditableField.CancelEdit(typed.world, sid, itemId, field, channel);
      && DataStores.FetchField(cancelled.world.rows, LockKey(itemId, field)) == DataStores.FetchField(w.rows, LockKey(itemId, field))
      && Holder(cancelled.world.locks, LockKey(itemId, field)) == None
      && DraftKey(itemId, field) !in cancelled.world.drafts
  {
  }

  /**
   * A save after the lock was taken away (here by the disconnect cleanup of
   * the same session id) writes nothing and drops the draft.
   */
  lemma SaveAfterForcedRelease(w: EditableField.World, sid: string, itemId: string, field: string, channel: string)
    requires Holder(w.locks, LockKey(itemId, field)) == Some(sid)
    ensures
      var forced := ReleaseAll(w.locks, sid).locks;
      var saved := EditableField.SaveEdit(w.(locks := forced), sid, itemId, field, DraftOf(w.drafts, DraftKey(itemId, field)), channel);
      && saved.world.rows == w.rows
      && saved.world.locks == forced
      && DraftKey(itemId, field) !in saved.world.drafts
      && saved.effects == [Refresh]
  {
  }

  /** The two keys a session acquired on a table where it held nothing are exactly its keys. */
  lemma HeldAfterTwoAcquires(store: DataStores.DjangoDataStore, a: string, k1: LockKey, k2: LockKey)
    requires k1 != k2
    requires forall k :: Holder(store.editLocks, k) != Some(a)
    requires Holder(store.editLocks, k1) == None && Holder(store.editLocks, k2) == None
    ensures
      var s1 := DataStores.AcquireLock(store, k1.itemId, k1.field, a).store;
      var s2 := DataStores.AcquireLock(s1, k2.itemId, k2.field, a).store;
      forall k :: Holder(s2.editLocks, k) == Some(a) <==> k == k1 || k == k2
  {
  }

  /** Two fresh locks taken one after the other are released in that order. */
  lemma TwoLocksInOrder(r: Registry, a: string, k1: LockKey, k2: LockKey)
    requires k1 != k2
    requires forall k :: Holder(r, k) != Some(a)
    requires Holder(r, k1) == None && Holder(r, k2) == None
    ensures ReleaseAll(Acquire(Acquire(r, k1, a).locks, k2, a).locks, a).keys == [k1, k2]
  {
    var r1 := Acquire(r, k1, a).locks;
    assert r1 == r + [Entry(k1, a)];
    assert Holder(r1, k2) == None;
    var r2 := Acquire(r1, k2, a).locks;
    assert r2 == r1 + [Entry(k2, a)];
    ReleaseAllNothingHeld(r, a);
    ReleaseAllAppend(r, Entry(k1, a), a);
    ReleaseAllAppend(r1, Entry(k2, a), a);
  }

  /**
   * A session that held nothing and then locked `k1` and `k2`, in that
   * order, gets them back in that order when it disconnects.
   */
  lemma ReleasedInLockOrder(store: DataStores.DjangoDataStore, a: string, k1: LockKey, k2: LockKey)
    requires k1 != k2
    requires forall k :: Holder(store.editLocks, k) != Some(a)
    requires Holder(store.editLocks, k1) == None && Holder(store.editLocks, k2) == None
    ensures
      var s1 := DataStores.AcquireLock(store, k1.itemId, k1.field, a).store;
      var s2 := DataStores.AcquireLock(s1, k2.itemId, k2.field, a).store;
      AliveViews.Disconnect(s2, a).released == [k1, k2]
  {
    TwoLocksInOrder(store.editLocks, a, k1, k2);
  }

  /**
   * An abandoned session that locked two fields and disconnects: both keys
   * are released and broadcast in lock order, both fields are unheld, and
   * another session reacting to the broadcast refreshes and sees neither
   * field locked.
   */
  lemma AbandonedSessionCleanup(store: DataStores.DjangoDataStore, a: string, b: string, k1: LockKey, k2: LockKey, draftsB: Drafts)
    requires a != b && k1 != k2
    requires forall k :: Holder(store.editLocks, k) != Some(a)
    requires Holder(store.editLocks, k1) == None && Holder(store.editLocks, k2) == None
    ensures
      var s1 := DataStores.AcquireLock(store, k1.itemId, k1.field, a).store;
      var s2 := DataStores.AcquireLock(s1, k2.itemId, k2.field, a).store;
      var gone := AliveViews.Disconnect(s2, a);
      && gone.released == [k1, k2]
      && gone.effects == [Broadcast(store.channel, LocksReleased([DraftKey(k1.itemId, k1.field), DraftKey(k2.itemId, k2.field)]))]
      && DataStores.GetLockHolder(gone.store, k1.itemId, k1.field) == None
      && DataStores.GetLockHolder(gone.store, k2.itemId, k2.field) == None
      && AliveViews.HandleInfo(gone.store, InfoEvent(store.channel, "locks_released", ""), draftsB) == InfoReaction(draftsB, [Refresh])
      && !EditableField.RenderFieldData(k1.itemId, k1.field, "", b, draftsB, gone.store.editLocks).isLocked
      && !EditableField.RenderFieldData(k2.itemId, k2.field, "", b, draftsB, gone.store.editLocks).isLocked
  {
    var s1 := DataStores.AcquireLock(store, k1.itemId, k1.field, a).store;
    var s2 := DataStores.AcquireLock(s1, k2.itemId, k2.field, a).store;
    ReleasedInLockOrder(store, a, k1, k2);
    var gone := AliveViews.Disconnect(s2, a);
    var keys := FormatKeys(gone.released);
    assert keys == [DraftKey(k1.itemId, k1.field), DraftKey(k2.itemId, k2.field)] by {
      assert keys[0] == DraftKey(k1.itemId, k1.field);
      assert keys[1] == DraftKey(k2.itemId, k2.field);
    }
    assert k1 in gone.released && k2 in gone.released;
  }

  /**
   * Editing round trip: starting on a free, existing field, typing a text
   * and saving commits exactly that text, frees the lock and leaves no draft.
   */
  lemma EditRoundTrip(w: EditableField.World, sid: string, itemId: string, field: string, text: string, channel: string)
    requires Holder(w.locks, LockKey(itemId, field)) == None
    requires DataStores.Addressed(w.rows, LockKey(itemId, field))
    ensures
      var started := EditableField.StartEdit(w, sid, itemId, field, channel);
      var typed := EditableField.UpdateDraft(started.world, itemId, field, text);
      var saved := EditableField.SaveEdit(typed.world, sid, itemId, field, DraftOf(typed.world.drafts, DraftKey(itemId, field)), channel);
      && DataStores.FetchField(saved.world.rows, LockKey(itemId, field)) == Some(text)
      && Holder(saved.world.locks, LockKey(itemId, field)) == None
      && DraftKey(itemId, field) !in saved.world.drafts
      && (forall k | k != LockKey(itemId, field) :: Holder(saved.world.locks, k) == Holder(w.locks, k))
  {
  }

  /**
   * The lock protects a raw `item_id` string while the row is found by
   * `int(item_id)`: while session `a` holds the lock on a field under the
   * plain decimal id, session `b` locks the same field under `"+"` and that
   * id, saves, and overwrites the value `a` is editing; `a` still holds its
   * lock.
   */
  lemma AliasedIdBypassesLock(w: EditableField.World, a: string, b: string, n: nat, field: string, text: string, channel: string)
    requires a != b
    requires Holder(w.locks, LockKey(Payloads.Decimal(n), field)) == Some(a)
    requires Holder(w.locks, LockKey("+" + Payloads.Decimal(n), field)) == None
    requires DataStores.Cell(n, field) in w.rows
    ensures
      var alias := "+" + Payloads.Decimal(n);
      var started := EditableField.StartEdit(w, b, alias, field, channel);
      var saved := EditableField.SaveEdit(started.world, b, alias, field, text, channel);
      && Holder(started.world.locks, LockKey(alias, field)) == Some(b)
      && DataStores.FetchField(saved.world.rows, LockKey(Payloads.Decimal(n), field)) == Some(text)
      && Holder(saved.world.locks, LockKey(Payloads.Decimal(n), field)) == Some(a)
  {
    DataStores.SignedIdSharesRow(n, field);
    var alias := "+" + Payloads.Decimal(n);
    var started := EditableField.StartEdit(w, b, alias, field, channel);
    var saved := EditableField.SaveEdit(started.world, b, alias, field, text, channel);
    DataStores.ReadAfterWrite(started.world.rows, LockKey(alias, field), text, LockKey(Payloads.Decimal(n), field));
  }
}
