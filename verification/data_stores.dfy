/**
 * The two Django-backed stores: `DjangoDataStore` (one per Alive model) and
 * `DjangoCardStore` (the cards page). Both keep the edit-lock table in
 * memory; their rows live in the database, which the model replaces by an
 * abstract map from `(item_id, field_name)` to the stored value.
 */
module DataStores {
  import opened Options
  import LockRegistry
  import Payloads

  type LockKey = LockRegistry.LockKey

  /** One database cell: the row with primary key `pk`, and one attribute of it. */
  datatype Cell = Cell(pk: int, field: string)

  /**
   * Committed field values. A cell is absent when the row or the attribute
   * does not exist; `None` is a column holding NULL.
   */
  type Rows = map<Cell, Option<string>>

  /** A Django model class, known by its `_meta.label_lower`. */
  datatype ModelRef = ModelRef(labelLower: string)

  datatype DjangoDataStore = DjangoDataStore(model: ModelRef, channel: string, editLocks: LockRegistry.Registry)

  datatype DjangoCardStore = DjangoCardStore(channel: string, editLocks: LockRegistry.Registry)

  /** Result of a store lock operation: the returned flag, and the store afterwards. */
  datatype LockResult<S> = LockResult(ok: bool, store: S)

  /**
   * The cell an `(item_id, field_name)` pair addresses: the row is looked up
   * by `int(item_id)`, so there is none when that raises `ValueError`.
   */
  function CellOf(key: LockKey): Option<Cell>
  {
    match Payloads.ParseInt(key.itemId)
    case Some(pk) => Some(Cell(pk, key.field))
    case None => None
  }

  /** Whether two lock keys reach the same database cell. */
  predicate SameCell(k1: LockKey, k2: LockKey)
  {
    CellOf(k1).Some? && CellOf(k1) == CellOf(k2)
  }

  /** Whether the row and attribute that `key` addresses exist. */
  predicate Addressed(rows: Rows, key: LockKey)
  {
    CellOf(key).Some? && CellOf(key).value in rows
  }

  /**
   * `get_field_value`: the stored value, or `None` when `item_id` is not an
   * integer or the row or attribute is missing.
   */
  function FetchField(rows: Rows, key: LockKey): (v: Option<string>)
    ensures Payloads.ParseInt(key.itemId).None? ==> v == None
    ensures !Addressed(rows, key) ==> v == None
    ensures Addressed(rows, key) ==> v == rows[Cell(Payloads.ParseInt(key.itemId).value, key.field)]
  {
    if Addressed(rows, key) then rows[CellOf(key).value] else None
  }

  /**
   * `set_field_value`: writes the value when `item_id` is an integer and the
   * row and attribute exist, and reports whether it did; a failed write
   * changes nothing. Only the addressed cell changes.
   */
  function WriteField(rows: Rows, key: LockKey, value: string): (r: (bool, Rows))
    ensures r.0 <==> Payloads.ParseInt(key.itemId).Some? && Cell(Payloads.ParseInt(key.itemId).value, key.field) in rows
    ensures r.0 ==> FetchField(r.1, key) == Some(value)
    ensures !r.0 ==> r.1 == rows
    ensures r.1.Keys == rows.Keys
    ensures forall c | c in rows && Some(c) != CellOf(key) :: r.1[c] == rows[c]
  {
    if Addressed(rows, key) then (true, rows[CellOf(key).value := Some(value)]) else (false, rows)
  }

  /**
   * Reading after a write: every key that reaches the written cell reads
   * back the value when the write succeeded, and every other read is as
   * before.
   */
  lemma ReadAfterWrite(rows: Rows, key: LockKey, value: string, k: LockKey)
    ensures FetchField(WriteField(rows, key, value).1, k) ==
      if SameCell(k, key) && Addressed(rows, key) then Some(value) else FetchField(rows, k)
  {
  }

  /**
   * Rows are found by `int(item_id)` while locks are keyed by the raw
   * string, so an id with a leading `+` is a different lock key from its
   * plain decimal form yet reaches the same row.
   */
  lemma {:induction false} SignedIdSharesRow(n: nat, field: string)
    ensures LockRegistry.LockKey(Payloads.Decimal(n), field) != LockRegistry.LockKey("+" + Payloads.Decimal(n), field)
    ensures CellOf(LockRegistry.LockKey(Payloads.Decimal(n), field)) == Some(Cell(n, field))
    ensures CellOf(LockRegistry.LockKey("+" + Payloads.Decimal(n), field)) == Some(Cell(n, field))
  {
    Payloads.ParseDecimal(n);
    var d := Payloads.Decimal(n);
    assert d == Payloads.Digits(n);
    assert Payloads.AllDigits(d) && |d| > 0;
    assert d[0] != '+';
    var plus := "+" + d;
    assert plus[0] == '+' && plus[1..] == d;
    Payloads.DigitsValueOfDigits(n);
  }

  /** `DjangoDataStore.__init__`: `channel or "alive:" + label_lower`, with no locks held. */
  function NewDataStore(model: ModelRef, channel: Option<string>): (s: DjangoDataStore)
    ensures s.model == model
    ensures s.editLocks == []
    ensures channel.Some? && channel.value != "" ==> s.channel == channel.value
    ensures channel.None? || channel.value == "" ==> s.channel == "alive:" + model.labelLower
  {
    var given := channel.GetOr("");
    DjangoDataStore(model, if given != "" then given else "alive:" + model.labelLower, [])
  }

  /** `DjangoDataStore.acquire_lock`: succeeds iff the key is unheld or already held by `sid`. */
  function AcquireLock(s: DjangoDataStore, itemId: string, field: string, sid: string): (r: LockResult<DjangoDataStore>)
    ensures r.ok <==> GetLockHolder(s, itemId, field) == None || GetLockHolder(s, itemId, field) == Some(sid)
    ensures r.ok ==> GetLockHolder(r.store, itemId, field) == Some(sid)
    ensures !r.ok ==> r.store == s
    ensures GetLockHolder(s, itemId, field) == Some(sid) ==> r.store == s
    ensures r.store.model == s.model && r.store.channel == s.channel
    ensures forall k | k != LockRegistry.LockKey(itemId, field) :: LockRegistry.Holder(r.store.editLocks, k) == LockRegistry.Holder(s.editLocks, k)
  {
    var o := LockRegistry.Acquire(s.editLocks, LockRegistry.LockKey(itemId, field), sid);
    LockResult(o.ok, s.(editLocks := o.locks))
  }

  /** `DjangoDataStore.release_lock`: only the holder releases; others leave the holder in place. */
  function ReleaseLock(s: DjangoDataStore, itemId: string, field: string, sid: string): (r: LockResult<DjangoDataStore>)
    ensures r.ok <==> GetLockHolder(s, itemId, field) == Some(sid)
    ensures r.ok ==> GetLockHolder(r.store, itemId, field) == None
    ensures !r.ok ==> r.store == s
    ensures r.store.model == s.model && r.store.channel == s.channel
    ensures forall k | k != LockRegistry.LockKey(itemId, field) :: LockRegistry.Holder(r.store.editLocks, k) == LockRegistry.Holder(s.editLocks, k)
  {
    var o := LockRegistry.Release(s.editLocks, LockRegistry.LockKey(itemId, field), sid);
    LockResult(o.ok, s.(editLocks := o.locks))
  }

  /** `DjangoDataStore.release_all_locks`: returns exactly the keys `sid` held, each now unheld. */
  function ReleaseAllLocks(s: DjangoDataStore, sid: string): (r: (seq<LockKey>, DjangoDataStore))
    ensures forall k :: k in r.0 <==> LockRegistry.Holder(s.editLocks, k) == Some(sid)
    ensures forall k | k in r.0 :: GetLockHolder(r.1, k.itemId, k.field) == None
    ensures forall k :: LockRegistry.Holder(s.editLocks, k) != Some(sid) ==> LockRegistry.Holder(r.1.editLocks, k) == LockRegistry.Holder(s.editLocks, k)
    ensures r.1.model == s.model && r.1.channel == s.channel
  {
    var released := LockRegistry.ReleaseAll(s.editLocks, sid);
    (released.keys, s.(editLocks := released.locks))
  }

  /** `DjangoDataStore.get_lock_holder`: a read of the lock table. */
  function GetLockHolder(s: DjangoDataStore, itemId: string, field: string): (h: Option<string>)
    ensures h.None? <==> forall e | e in s.editLocks :: e.key != LockRegistry.LockKey(itemId, field)
    ensures h.Some? ==> LockRegistry.Entry(LockRegistry.LockKey(itemId, field), h.value) in s.editLocks
  {
    LockRegistry.Holder(s.editLocks, LockRegistry.LockKey(itemId, field))
  }

  /** `DjangoDataStore.move_item`: a placeholder that never moves anything. */
  function MoveItem(s: DjangoDataStore, itemId: string, direction: int): (moved: bool)
    ensures !moved
  {
    false
  }

  /** `DjangoDataStore.move_to_position`: a placeholder that never moves anything. */
  function MoveItemToPosition(s: DjangoDataStore, itemId: string, position: int): (moved: bool)
    ensures !moved
  {
    false
  }

  /** Every store in the registry belongs to the model it is filed under. */
  predicate RegistryConsistent(stores: map<ModelRef, DjangoDataStore>)
  {
    forall m | m in stores :: stores[m].model == m
  }

  /**
   * `get_store`: the store already registered for `model`, or a fresh one
   * with the default channel, which is registered for later calls.
   */
  function GetStore(stores: map<ModelRef, DjangoDataStore>, model: ModelRef): (r: (DjangoDataStore, map<ModelRef, DjangoDataStore>))
    ensures model in r.1 && r.1[model] == r.0
    ensures model in stores ==> r.0 == stores[model] && r.1 == stores
    ensures model !in stores ==> r.0.editLocks == [] && r.0.channel == "alive:" + model.labelLower
    ensures model !in stores ==> r.1 == stores[model := r.0]
    ensures RegistryConsistent(stores) ==> RegistryConsistent(r.1) && r.0.model == model
  {
    if model in stores then (stores[model], stores)
    else
      var created := NewDataStore(model, None);
      (created, stores[model := created])
  }

  /** Repeated `get_store` calls for one model return the same store and leave the registry alone. */
  lemma GetStoreStable(stores: map<ModelRef, DjangoDataStore>, model: ModelRef)
    ensures GetStore(GetStore(stores, model).1, model) == GetStore(stores, model)
  {
  }

  /** `DjangoCardStore()`: the `"cards_channel"` channel and an empty lock table. */
  function NewCardStore(): (s: DjangoCardStore)
    ensures s.channel == "cards_channel"
    ensures forall k :: LockRegistry.Holder(s.editLocks, k) == None
  {
    DjangoCardStore("cards_channel", [])
  }

  /** `DjangoCardStore.acquire_lock`: succeeds iff the key is unheld or already held by `sid`. */
  function CardAcquireLock(s: DjangoCardStore, cardId: string, field: string, sid: string): (r: LockResult<DjangoCardStore>)
    ensures r.ok <==> CardLockHolder(s, cardId, field) == None || CardLockHolder(s, cardId, field) == Some(sid)
    ensures r.ok ==> CardLockHolder(r.store, cardId, field) == Some(sid)
    ensures !r.ok ==> r.store == s
    ensures r.store.channel == s.channel
    ensures forall k | k != LockRegistry.LockKey(cardId, field) :: LockRegistry.Holder(r.store.editLocks, k) == LockRegistry.Holder(s.editLocks, k)
  {
    var o := LockRegistry.Acquire(s.editLocks, LockRegistry.LockKey(cardId, field), sid);
    LockResult(o.ok, s.(editLocks := o.locks))
  }

  /** `DjangoCardStore.release_lock`: removes the entry only for the current holder. */
  function CardReleaseLock(s: DjangoCardStore, cardId: string, field: string, sid: string): (r: LockResult<DjangoCardStore>)
    ensures r.ok <==> CardLockHolder(s, cardId, field) == Some(sid)
    ensures r.ok ==> CardLockHolder(r.store, cardId, field) == None
    ensures !r.ok ==> r.store == s
    ensures r.store.channel == s.channel
    ensures forall k | k != LockRegistry.LockKey(cardId, field) :: LockRegistry.Holder(r.store.editLocks, k) == LockRegistry.Holder(s.editLocks, k)
  {
    var o := LockRegistry.Release(s.editLocks, LockRegistry.LockKey(cardId, field), sid);
    LockResult(o.ok, s.(editLocks := o.locks))
  }

  /** `DjangoCardStore.release_all_locks`: removes and returns exactly the caller's keys. */
  function CardReleaseAllLocks(s: DjangoCardStore, sid: string): (r: (seq<LockKey>, DjangoCardStore))
    ensures forall k :: k in r.0 <==> LockRegistry.Holder(s.editLocks, k) == Some(sid)
    ensures forall k | k in r.0 :: CardLockHolder(r.1, k.itemId, k.field) == None
    ensures forall k :: LockRegistry.Holder(s.editLocks, k) != Some(sid) ==> LockRegistry.Holder(r.1.editLocks, k) == LockRegistry.Holder(s.editLocks, k)
    ensures r.1.channel == s.channel
  {
    var released := LockRegistry.ReleaseAll(s.editLocks, sid);
    (released.keys, s.(editLocks := released.locks))
  }

  /** `DjangoCardStore.get_lock_holder`: a read of the lock table. */
  function CardLockHolder(s: DjangoCardStore, cardId: string, field: string): (h: Option<string>)
    ensures h.None? <==> forall e | e in s.editLocks :: e.key != LockRegistry.LockKey(cardId, field)
    ensures h.Some? ==> LockRegistry.Entry(LockRegistry.LockKey(cardId, field), h.value) in s.editLocks
  {
    LockRegistry.Holder(s.editLocks, LockRegistry.LockKey(cardId, field))
  }

  /** `DjangoCardStore.move_to_position`: ordering is not persisted, so nothing ever moves. */
  function CardMoveToPosition(s: DjangoCardStore, cardId: string, position: int): (moved: bool)
    ensures !moved
  {
    false
  }
}
