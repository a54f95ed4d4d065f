/**
 * The card component: the view data of a card with an editable title and
 * content, and the card events (moving and reordering).
 *
 * `handle_card_event` calls whatever `card_store` the view supplies. Two
 * stores exist: the in-memory shared state, whose `move_to_position` is a
 * plain function (so awaiting its boolean result raises `TypeError` after the
 * card has moved), and `DjangoCardStore`, which has no `move_card` or
 * `reorder_card` (so those events raise `AttributeError`). Both are modelled
 * as written.
 */
module CardComponent {
  import opened Options
  import opened Notifications
  import LockRegistry
  import SharedState
  import DataStores
  import Payloads
  import EditableField

  /** The card as the template sees it, with flat editing flags for both fields. */
  datatype CardData = CardData(
    id: string,
    title: string, titleEditing: bool, titleEditingValue: string, titleLocked: bool,
    content: string, contentEditing: bool, contentEditingValue: string, contentLocked: bool)

  /** Another session than `sid` holds the lock of this field. */
  ghost predicate LockedByOther(locks: LockRegistry.Registry, id: string, field: string, sid: string)
  {
    exists other | other != sid :: LockRegistry.Holder(locks, LockRegistry.LockKey(id, field)) == Some(other)
  }

  /**
   * `render_card_data`: the title and content flags are those of
   * `render_field_data` for the fields `"title"` and `"content"` of this card,
   * with the same session, drafts and locks.
   */
  function RenderCardData(card: SharedState.Card, sid: string, drafts: Drafts, locks: LockRegistry.Registry): (d: CardData)
    ensures d.id == card.id && d.title == card.title && d.content == card.content
    ensures d.titleEditing <==> DraftKey(card.id, "title") in drafts
    ensures d.titleEditingValue == DraftOf(drafts, DraftKey(card.id, "title"))
    ensures d.titleLocked <==> LockedByOther(locks, card.id, "title", sid)
    ensures d.contentEditing <==> DraftKey(card.id, "content") in drafts
    ensures d.contentEditingValue == DraftOf(drafts, DraftKey(card.id, "content"))
    ensures d.contentLocked <==> LockedByOther(locks, card.id, "content", sid)
  {
    var t := EditableField.RenderFieldData(card.id, "title", card.title, sid, drafts, locks);
    var c := EditableField.RenderFieldData(card.id, "content", card.content, sid, drafts, locks);
    CardData(card.id, card.title, t.isEditing, t.editingValue, t.isLocked, card.content, c.isEditing, c.editingValue, c.isLocked)
  }

  /** The store behind `card_store`. */
  datatype CardBackend = InMemory(cards: seq<SharedState.Card>) | Django(store: DataStores.DjangoCardStore)

  /** Not a card event; answered, with the store afterwards; or raised, with the store as the exception left it. */
  datatype CardOutcome = NotHandled | Handled(backend: CardBackend, effects: seq<Effect>) | Raised(left: CardBackend)

  /** `payload.get("insert_after", "false") == "true"`. */
  function InsertAfter(payload: Payloads.Payload): (after: bool)
    ensures after <==> "insert_after" in payload.strings && payload.strings["insert_after"] == "true"
  {
    Payloads.Get(payload, "insert_after", "false") == "true"
  }

  /** The card events `handle_card_event` answers. */
  predicate IsCardEvent(event: string)
  {
    event in {"move_card", "reorder_card", "reorder_to_position"}
  }

  /**
   * `handle_card_event`: the three card events are answered and any other
   * event is not; a refresh and a broadcast follow only a reported change.
   */
  function HandleCardEvent(event: string, payload: Payloads.Payload, backend: CardBackend, channel: string): (r: CardOutcome)
    ensures r.NotHandled? <==> !IsCardEvent(event)
    ensures r.Handled? && r.effects != [] ==> r.effects == [Refresh, Broadcast(channel, StateChanged)]
    ensures backend.InMemory? && event == "move_card" && Payloads.IntArg(payload, "direction").Some? ==>
      var moved := SharedState.MoveCard(backend.cards, Payloads.Get(payload, "card_id", ""), Payloads.IntArg(payload, "direction").value);
      r == Handled(InMemory(moved.cards), EditableField.ChangedIf(moved.ok, channel))
    ensures backend.InMemory? && event == "reorder_card" ==>
      var moved := SharedState.ReorderCard(backend.cards, Payloads.Get(payload, "card_id", ""), Payloads.Get(payload, "target_id", ""), InsertAfter(payload));
      r == Handled(InMemory(moved.cards), EditableField.ChangedIf(moved.ok, channel))
    ensures backend.InMemory? && event == "reorder_to_position" && Payloads.IntArg(payload, "position").Some? ==>
      r == Raised(InMemory(SharedState.MoveToPosition(backend.cards, Payloads.Get(payload, "card_id", ""), Payloads.IntArg(payload, "position").value).cards))
    ensures backend.Django? ==>
      && (event == "move_card" || event == "reorder_card" ==> r == Raised(backend))
      && (event == "reorder_to_position" && Payloads.IntArg(payload, "position").Some? ==> r == Handled(backend, []))
    ensures event == "move_card" && Payloads.IntArg(payload, "direction").None? ==> r == Raised(backend)
    ensures event == "reorder_to_position" && Payloads.IntArg(payload, "position").None? ==> r == Raised(backend)
  {
    var cardId := Payloads.Get(payload, "card_id", "");
    if event == "move_card" then
      match backend
      case Django(_) => Raised(backend)
      case InMemory(cards) =>
        match Payloads.IntArg(payload, "direction")
        case None => Raised(backend)
        case Some(direction) =>
          var moved := SharedState.MoveCard(cards, cardId, direction);
          Handled(InMemory(moved.cards), EditableField.ChangedIf(moved.ok, channel))
    else if event == "reorder_card" then
      match backend
      case Django(_) => Raised(backend)
      case InMemory(cards) =>
        var moved := SharedState.ReorderCard(cards, cardId, Payloads.Get(payload, "target_id", ""), InsertAfter(payload));
        Handled(InMemory(moved.cards), EditableField.ChangedIf(moved.ok, channel))
    else if event == "reorder_to_position" then
      match Payloads.IntArg(payload, "position")
      case None => Raised(backend)
      case Some(position) =>
        match backend
        case Django(store) => Handled(backend, EditableField.ChangedIf(DataStores.CardMoveToPosition(store, cardId, position), channel))
        case InMemory(cards) => Raised(InMemory(SharedState.MoveToPosition(cards, cardId, position).cards))
    else NotHandled
  }
}
