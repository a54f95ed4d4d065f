/**
 * The hand-written cards page: the same session protocol as the generated
 * views, on `DjangoCardStore` and the fixed channel `"cards_channel"`.
 */
module CardsView {
  import opened Options
  import opened Notifications
  import LockRegistry
  import DataStores
  import Payloads
  import EditableField
  import CardComponent

  const Channel: string := "cards_channel"

  /** The keys released at disconnect, the store afterwards, and what was broadcast. */
  datatype Disconnected = Disconnected(released: seq<LockRegistry.LockKey>, store: DataStores.DjangoCardStore, effects: seq<Effect>)

  /** `disconnect`: frees the session's locks and broadcasts the released keys only when there are some. */
  function Disconnect(store: DataStores.DjangoCardStore, sid: string): (r: Disconnected)
    ensures forall k :: k in r.released <==> LockRegistry.Holder(store.editLocks, k) == Some(sid)
    ensures forall k :: LockRegistry.Holder(r.store.editLocks, k) != Some(sid)
    ensures forall k :: LockRegistry.Holder(store.editLocks, k) != Some(sid) ==> LockRegistry.Holder(r.store.editLocks, k) == LockRegistry.Holder(store.editLocks, k)
    ensures r.released == [] ==> r.effects == []
    ensures r.released != [] ==> r.effects == [Broadcast(Channel, LocksReleased(FormatKeys(r.released)))]
  {
    var (released, after) := DataStores.CardReleaseAllLocks(store, sid);
    Disconnected(released, after, if released == [] then [] else [Broadcast(Channel, LocksReleased(FormatKeys(released)))])
  }

  const RefreshActions: set<string> := {"state_changed", "locks_released", "card_created", "card_deleted"}

  /**
   * `handle_info`: only `"cards_channel"` deliveries count; the four refresh
   * actions keep the drafts; `conflict` drops only the named draft.
   */
  function HandleInfo(ev: InfoEvent, drafts: Drafts): (r: InfoReaction)
    ensures ev.name != Channel ==> r == InfoReaction(drafts, [])
    ensures ev.name == Channel && ev.action in RefreshActions ==> r == InfoReaction(drafts, [Refresh])
    ensures ev.name == Channel && ev.action == "conflict" ==>
      r.effects == [Refresh] && r.drafts == drafts - {ev.key}
    ensures ev.action !in RefreshActions && ev.action != "conflict" ==> r == InfoReaction(drafts, [])
  {
    var r := React(Channel, RefreshActions, ev, drafts);
    assert ev.name == Channel && ev.action == "conflict" ==> r.drafts == drafts - {ev.key};
    r
  }

  /**
   * `handle_event`: field events first, then card events on the Django card
   * store, which never change the store or the rows: `move_card` and
   * `reorder_card` raise there, and `reorder_to_position` never moves.
   */
  function HandleEvent(event: string, payload: Payloads.Payload, store: DataStores.DjangoCardStore, rows: DataStores.Rows, drafts: Drafts, sid: string): (r: EditableField.Outcome)
    ensures EditableField.IsFieldEvent(event) ==>
      r == EditableField.HandleFieldEvent(event, payload, EditableField.World(store.editLocks, rows, drafts), sid, Channel)
    ensures !EditableField.IsFieldEvent(event) && r.Handled? ==>
      r.step == EditableField.Step(EditableField.World(store.editLocks, rows, drafts), [])
    ensures r.NotHandled? <==> !EditableField.IsFieldEvent(event) && !CardComponent.IsCardEvent(event)
    ensures event == "move_card" || event == "reorder_card" ==> r.Raised?
  {
    var w := EditableField.World(store.editLocks, rows, drafts);
    var field := EditableField.HandleFieldEvent(event, payload, w, sid, Channel);
    if !field.NotHandled? then field
    else
      match CardComponent.HandleCardEvent(event, payload, CardComponent.Django(store), Channel)
      case NotHandled => EditableField.NotHandled
      case Handled(_, effects) => EditableField.Handled(EditableField.Step(w, effects))
      case Raised(_) => EditableField.Raised
  }
}
