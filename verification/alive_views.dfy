/**
 * The view generated for each Alive model: how it lays out the fields, and
 * the session lifecycle (mount, events, pub/sub deliveries, disconnect).
 */
module AliveViews {
  import opened Options
  import opened Notifications
  import LockRegistry
  import DataStores
  import Payloads
  import Conf
  import Names
  import EditableField
  import ItemComponent

  /** The fields shown, the title field, and the body fields, fixed when the view is generated. */
  datatype Layout = Layout(fields: seq<string>, titleField: Option<string>, contentFields: seq<string>)

  /**
   * The configured fields (or, when none are configured, the model's field
   * names), their title field, and every other field in their order as the
   * content fields.
   */
  function DeriveLayout(confFields: seq<string>, confTitle: Option<string>, modelFieldNames: seq<string>): (l: Layout)
    ensures l.fields == if |confFields| > 0 then confFields else modelFieldNames
    ensures l.titleField == Conf.GetTitleField(confTitle, l.fields)
    ensures l.titleField.Some? ==> forall f :: f in l.contentFields <==> f in l.fields && f != l.titleField.value
    ensures l.titleField.None? ==> l.contentFields == l.fields
    ensures l.contentFields == ItemComponent.NonTitle(l.fields, l.titleField)
  {
    var fields := if |confFields| > 0 then confFields else modelFieldNames;
    var title := Conf.GetTitleField(confTitle, fields);
    Names.WithoutNothingDropped(fields, {});
    Layout(fields, title, ItemComponent.NonTitle(fields, title))
  }

  /** The keys released at disconnect, the store afterwards, and what was broadcast. */
  datatype Disconnected = Disconnected(released: seq<LockRegistry.LockKey>, store: DataStores.DjangoDataStore, effects: seq<Effect>)

  /**
   * `disconnect`: frees every lock of the session and, only when there were
   * some, broadcasts `locks_released` with each key as `item_id:field_name`.
   */
  function Disconnect(store: DataStores.DjangoDataStore, sid: string): (r: Disconnected)
    ensures forall k :: k in r.released <==> LockRegistry.Holder(store.editLocks, k) == Some(sid)
    ensures forall k :: LockRegistry.Holder(r.store.editLocks, k) != Some(sid)
    ensures forall k :: LockRegistry.Holder(store.editLocks, k) != Some(sid) ==> LockRegistry.Holder(r.store.editLocks, k) == LockRegistry.Holder(store.editLocks, k)
    ensures r.released == [] ==> r.effects == []
    ensures r.released != [] ==> r.effects == [Broadcast(store.channel, LocksReleased(FormatKeys(r.released)))]
  {
    var (released, after) := DataStores.ReleaseAllLocks(store, sid);
    Disconnected(released, after, if released == [] then [] else [Broadcast(store.channel, LocksReleased(FormatKeys(released)))])
  }

  /** The actions after which the generated view refreshes. */
  const RefreshActions: set<string> := {"state_changed", "locks_released", "item_created", "item_deleted"}

  /**
   * `handle_info`: deliveries on other channels are ignored; the four
   * refresh actions refresh and keep the drafts; `conflict` drops exactly
   * the named draft and refreshes; any other action does nothing.
   */
  function HandleInfo(store: DataStores.DjangoDataStore, ev: InfoEvent, drafts: Drafts): (r: InfoReaction)
    ensures ev.name != store.channel ==> r == InfoReaction(drafts, [])
    ensures ev.name == store.channel && ev.action in RefreshActions ==> r == InfoReaction(drafts, [Refresh])
    ensures ev.name == store.channel && ev.action == "conflict" ==>
      r.effects == [Refresh] && r.drafts == drafts - {ev.key}
    ensures ev.action !in RefreshActions && ev.action != "conflict" ==> r == InfoReaction(drafts, [])
  {
    var r := React(store.channel, RefreshActions, ev, drafts);
    assert ev.name == store.channel && ev.action == "conflict" ==> r.drafts == drafts - {ev.key};
    r
  }

  /**
   * `handle_event`: field events are offered first and item events only
   * when no field handler answered; an event neither answers changes
   * nothing.
   */
  function HandleEvent(event: string, payload: Payloads.Payload, store: DataStores.DjangoDataStore, rows: DataStores.Rows, drafts: Drafts, sid: string): (r: EditableField.Outcome)
    ensures EditableField.IsFieldEvent(event) ==>
      r == EditableField.HandleFieldEvent(event, payload, EditableField.World(store.editLocks, rows, drafts), sid, store.channel)
    ensures !EditableField.IsFieldEvent(event) ==>
      r == ItemComponent.HandleItemEvent(event, payload, EditableField.World(store.editLocks, rows, drafts), store)
    ensures r.NotHandled? <==> !EditableField.IsFieldEvent(event) && !ItemComponent.IsItemEvent(event)
  {
    var w := EditableField.World(store.editLocks, rows, drafts);
    var field := EditableField.HandleFieldEvent(event, payload, w, sid, store.channel);
    if field.NotHandled? then ItemComponent.HandleItemEvent(event, payload, w, store) else field
  }
}
