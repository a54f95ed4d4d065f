/**
 * Inline field editing under per-field locks: the view data of one field,
 * and the four user events `start_edit`, `update_draft`, `save_edit` and
 * `cancel_edit` of one session.
 *
 * A session acts on a `World`: the shared lock table of its store, the
 * committed rows, and its own drafts. Each handler returns the world
 * afterwards and the effects it produced (view refresh, broadcast).
 */
module EditableField {
  import opened Options
  import opened LockRegistry
  import opened Notifications
  import DataStores
  import Payloads

  /** What the template gets for one field. The rendered HTML is not modelled. */
  datatype FieldData = FieldData(id: string, field: string, value: string, isEditing: bool, editingValue: string, isLocked: bool)

  /**
   * `render_field_data`: the field is being edited by this session iff it has
   * a draft, whose text is shown (or `""`); it is locked iff another session
   * holds the lock, so a session never sees its own lock as locked.
   */
  function RenderFieldData(itemId: string, field: string, rawValue: string, sid: string, drafts: Drafts, locks: Registry): (d: FieldData)
    ensures d.id == itemId && d.field == field && d.value == rawValue
    ensures d.isEditing <==> DraftKey(itemId, field) in drafts
    ensures d.isEditing ==> d.editingValue == drafts[DraftKey(itemId, field)]
    ensures !d.isEditing ==> d.editingValue == ""
    ensures d.isLocked <==> exists other | other != sid :: Holder(locks, LockKey(itemId, field)) == Some(other)
    ensures Holder(locks, LockKey(itemId, field)) == Some(sid) ==> !d.isLocked
  {
    var key := DraftKey(itemId, field);
    var holder := Holder(locks, LockKey(itemId, field));
    var isLocked := holder.Some? && holder.value != sid;
    assert isLocked ==> Holder(locks, LockKey(itemId, field)) == Some(holder.value);
    FieldData(itemId, field, rawValue, key in drafts, DraftOf(drafts, key), isLocked)
  }

  datatype World = World(locks: Registry, rows: DataStores.Rows, drafts: Drafts)

  /** The world after one event, and the refreshes and broadcasts it caused. */
  datatype Step = Step(world: World, effects: seq<Effect>)

  /** The broadcast every completed edit action sends to the store's channel. */
  function Changed(channel: string): seq<Effect>
  {
    [Refresh, Broadcast(channel, StateChanged)]
  }

  /** What a store move produces: the broadcast when the store reports a change, nothing otherwise. */
  function ChangedIf(changed: bool, channel: string): seq<Effect>
  {
    if changed then Changed(channel) else []
  }

  /** `sid` may start editing `key`: nobody holds it, or `sid` already does. */
  predicate MayAcquire(locks: Registry, key: LockKey, sid: string)
  {
    Holder(locks, key) == None || Holder(locks, key) == Some(sid)
  }

  /**
   * `_handle_start_edit`: a failed acquire changes nothing but refreshes; a
   * successful one copies the committed value into a draft and announces
   * the lock. When the row has no value the lock stays held, no draft is
   * created and nothing is emitted.
   */
  function StartEdit(w: World, sid: string, itemId: string, field: string, channel: string): (r: Step)
    ensures r.world.rows == w.rows
    ensures forall k | k != LockKey(itemId, field) :: Holder(r.world.locks, k) == Holder(w.locks, k)
    ensures !MayAcquire(w.locks, LockKey(itemId, field), sid) ==> r == Step(w, [Refresh])
    ensures MayAcquire(w.locks, LockKey(itemId, field), sid) ==> Holder(r.world.locks, LockKey(itemId, field)) == Some(sid)
    ensures MayAcquire(w.locks, LockKey(itemId, field), sid) ==>
      match DataStores.FetchField(w.rows, LockKey(itemId, field))
      case Some(v) => r.world.drafts == w.drafts[DraftKey(itemId, field) := v] && r.effects == Changed(channel)
      case None => r.world.drafts == w.drafts && r.effects == []
  {
    var key := LockKey(itemId, field);
    var acquired := Acquire(w.locks, key, sid);
    if acquired.ok then
      match DataStores.FetchField(w.rows, key)
      case Some(v) => Step(w.(locks := acquired.locks, drafts := w.drafts[DraftKey(itemId, field) := v]), Changed(channel))
      case None => Step(w.(locks := acquired.locks), [])
    else Step(w, [Refresh])
  }

  /** `update_draft`: overwrites the draft text; no lock is checked or touched. */
  function UpdateDraft(w: World, itemId: string, field: string, value: string): (r: Step)
    ensures r.world.locks == w.locks && r.world.rows == w.rows
    ensures DraftKey(itemId, field) in r.world.drafts && r.world.drafts[DraftKey(itemId, field)] == value
    ensures forall k | k != DraftKey(itemId, field) :: (k in r.world.drafts <==> k in w.drafts) && (k in w.drafts ==> r.world.drafts[k] == w.drafts[k])
    ensures r.effects == [Refresh]
  {
    Step(w.(drafts := w.drafts[DraftKey(itemId, field) := value]), [Refresh])
  }

  /**
   * `_handle_cancel_edit`: releases the lock only if this session holds it,
   * drops this one draft, and announces the change.
   */
  function CancelEdit(w: World, sid: string, itemId: string, field: string, channel: string): (r: Step)
    ensures r.world.rows == w.rows
    ensures Holder(w.locks, LockKey(itemId, field)) == Some(sid) ==> Holder(r.world.locks, LockKey(itemId, field)) == None
    ensures Holder(w.locks, LockKey(itemId, field)) != Some(sid) ==> r.world.locks == w.locks
    ensures forall k | k != LockKey(itemId, field) :: Holder(r.world.locks, k) == Holder(w.locks, k)
    ensures DraftKey(itemId, field) !in r.world.drafts
    ensures forall k | k != DraftKey(itemId, field) :: (k in r.world.drafts <==> k in w.drafts) && (k in w.drafts ==> r.world.drafts[k] == w.drafts[k])
    ensures r.effects == Changed(channel)
  {
    var released := Release(w.locks, LockKey(itemId, field), sid);
    Step(World(released.locks, w.rows, w.drafts - {DraftKey(itemId, field)}), Changed(channel))
  }

  /**
   * The draft a save would read (`editing.get(key, "")`) is the text of the
   * last update, other fields' drafts read as before, and after a cancel
   * it is the empty default.
   */
  lemma DraftReadBack(w: World, sid: string, itemId: string, field: string, value: string, channel: string, other: string)
    ensures DraftOf(UpdateDraft(w, itemId, field, value).world.drafts, DraftKey(itemId, field)) == value
    ensures other != DraftKey(itemId, field) ==>
      DraftOf(UpdateDraft(w, itemId, field, value).world.drafts, other) == DraftOf(w.drafts, other)
    ensures DraftOf(CancelEdit(w, sid, itemId, field, channel).world.drafts, DraftKey(itemId, field)) == ""
  {
  }

  /**
   * `_handle_save_edit`: re-checks the lock right before writing. When
   * another session (or nobody) holds it, nothing is written, the lock
   * table is left alone and the draft is dropped. When this session holds
   * it, the value is written, the lock released and the draft dropped, even
   * if the write fails.
   */
  function SaveEdit(w: World, sid: string, itemId: string, field: string, value: string, channel: string): (r: Step)
    ensures DraftKey(itemId, field) !in r.world.drafts
    ensures forall k | k != DraftKey(itemId, field) :: (k in r.world.drafts <==> k in w.drafts) && (k in w.drafts ==> r.world.drafts[k] == w.drafts[k])
    ensures r.world.rows.Keys == w.rows.Keys
    ensures forall c | c in w.rows && Some(c) != DataStores.CellOf(LockKey(itemId, field)) :: r.world.rows[c] == w.rows[c]
    ensures forall k | k != LockKey(itemId, field) :: Holder(r.world.locks, k) == Holder(w.locks, k)
    ensures Holder(w.locks, LockKey(itemId, field)) != Some(sid) ==>
      r.world.rows == w.rows && r.world.locks == w.locks && r.effects == [Refresh]
    ensures Holder(w.locks, LockKey(itemId, field)) == Some(sid) ==>
      && (DataStores.Addressed(w.rows, LockKey(itemId, field)) ==> DataStores.FetchField(r.world.rows, LockKey(itemId, field)) == Some(value))
      && Holder(r.world.locks, LockKey(itemId, field)) == None
      && r.effects == Changed(channel)
  {
    var key := LockKey(itemId, field);
    var drafts := w.drafts - {DraftKey(itemId, field)};
    if Holder(w.locks, key) != Some(sid) then
      Step(w.(drafts := drafts), [Refresh])
    else
      var written := DataStores.WriteField(w.rows, key, value);
      var released := Release(w.locks, key, sid);
      Step(World(released.locks, written.1, drafts), Changed(channel))
  }

  /** The result of offering an event to a handler: not its event, handled, or raised an exception. */
  datatype Outcome = NotHandled | Handled(step: Step) | Raised

  /** The user events `handle_field_event` answers. */
  predicate IsFieldEvent(event: string)
  {
    event in {"start_edit", "cancel_edit", "save_edit", "update_draft"}
  }

  /**
   * `handle_field_event`: dispatches the four field events, taking the item
   * id (falling back to the card id) and the field name from the payload.
   * `save_edit` saves this session's draft, or `""` when it has none; an
   * `update_draft` whose value is an empty list raises.
   */
  function HandleFieldEvent(event: string, payload: Payloads.Payload, w: World, sid: string, channel: string): (r: Outcome)
    ensures r.NotHandled? <==> !IsFieldEvent(event)
    ensures r.Raised? <==> event == "update_draft" && payload.value == Some(Payloads.List([]))
    ensures
      var itemId := Payloads.ItemIdOf(payload);
      var field := Payloads.Get(payload, "field", "");
      && (event == "start_edit" ==> r == Handled(StartEdit(w, sid, itemId, field, channel)))
      && (event == "cancel_edit" ==> r == Handled(CancelEdit(w, sid, itemId, field, channel)))
      && (event == "save_edit" ==> r == Handled(SaveEdit(w, sid, itemId, field, DraftOf(w.drafts, DraftKey(itemId, field)), channel)))
      && (event == "update_draft" && r.Handled? ==> r == Handled(UpdateDraft(w, itemId, field, Payloads.DraftText(payload).value)))
  {
    var itemId := Payloads.ItemIdOf(payload);
    var field := Payloads.Get(payload, "field", "");
    if event == "start_edit" then Handled(StartEdit(w, sid, itemId, field, channel))
    else if event == "cancel_edit" then Handled(CancelEdit(w, sid, itemId, field, channel))
    else if event == "save_edit" then
      Handled(SaveEdit(w, sid, itemId, field, DraftOf(w.drafts, DraftKey(itemId, field)), channel))
    else if event == "update_draft" then
      match Payloads.DraftText(payload)
      case None => Raised
      case Some(v) => Handled(UpdateDraft(w, itemId, field, v))
    else NotHandled
  }
}
