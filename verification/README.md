# alive — collaborative field editing, modelled in Dafny

`alive` is a set of live views over Django models and a demo card board. Several
browser sessions look at the same items. A session that wants to edit a field
takes a per-field edit lock keyed by `(item_id, field_name)`. It keeps a private
draft under `"item_id:field_name"`, and on save it writes the draft through the
data store and gives the lock back. When a session disconnects, its locks are
released and the released keys are broadcast on the view's channel. The other
sessions refresh when they receive `state_changed`, `locks_released` or a
created/deleted action. A `conflict` message drops one draft.

This project models that logic as immutable data and pure functions:

- `LockRegistry` is the edit-lock map shared by `state.py`, `alive/store.py` and
  `cards/store.py`. It is an insertion-ordered list of `(key, holder)` entries
  with distinct keys and new keys appended, so `release_all_locks` returns
  its keys in dictionary order. `Holder` is `get_lock_holder`.
- `SharedState` is the in-memory card board: card lookup, adjacent swap,
  reorder next to a target, move to a clamped position, and the `title`/`content`
  field accessors. It also has lock wrappers over `LockRegistry`.
- `DataStores` holds the two Django-backed stores. The ORM is an abstract map
  `Rows` from a `Cell` (primary key, field name) to an optional string: a missing
  cell means there is no such row or attribute, and `None` is a NULL column.
  The stores find a row by `int(item_id)`, so a lock key `(item_id, field_name)`
  reaches the cell of its parsed id, and an id that does not parse reaches none.
  Locks are keyed by the raw string, so two different ids such as `"7"` and
  `"+7"` are two locks on one cell. `Scenarios.AliasedIdBypassesLock` shows a
  second session overwriting a field that another session holds locked. It also holds
  the placeholder reordering methods and the `get_store` registry.
- `Payloads` covers event payloads: string entries plus the optional `value`
  entry of `update_draft`, which is a string or a list. Python's `int(...)` of a
  payload entry becomes `ParseInt`, a signed-decimal parser; a failed parse is
  the `ValueError` the handler would raise.
- `Notifications` covers bus messages. It has the draft key format and the
  `handle_info` dispatch shared by both views. Refreshes and broadcasts are
  `Effect` values returned in a list.
- `EditableField` is the field-editing protocol: `render_field_data` and the
  four user events over a `World` (lock map, rows, this session's drafts).
- `ItemComponent`, `CardComponent`, `AliveViews` and `CardsView` are the
  renderers, the event dispatchers and the view lifecycle (`disconnect`,
  `handle_event`, `handle_info`). `Sessions` is the `mount` step that both
  views share.
- `Conf` covers the defaulting rules of `AliveConf`. `Rating` covers the
  half-ball fill pattern of `render_rating`.
- `Scenarios` holds multi-step properties: two sessions competing for one field,
  a cancelled edit, a save after a forced release, an abandoned session's
  cleanup, and a full edit round trip.

Uuid generation is a parameter (`freshId`) of `Sessions.Mount`.

`HandleCardEvent` models `CardMixin.handle_card_event` as the code is written,
against either backend:
- On the in-memory `SharedState`, `move_to_position` is synchronous, so
  awaiting its boolean result raises. The outcome is `Raised` with the card
  list already moved.
- `DjangoCardStore`, which the cards view actually uses, has no `move_card` or
  `reorder_card`. Those two events raise on it.

## Model

| member | source | states |
|---|---|---|
| LockRegistry.Holder | state.py:60-62 | the holder of a key is absent exactly when no entry has that key, and a present holder is the one recorded for it |
| LockRegistry.Acquire | state.py:23-36 | acquiring succeeds iff the key is unheld or already held by the same session; on success the key belongs to the caller, and a newly locked key is added at the end of the table, as dict insertion does; on failure (or when already held) the map is unchanged, and no other key's holder changes |
| LockRegistry.RemoveKeyKeepsOrder | state.py:44 | deleting a held key removes exactly its entry and keeps the others in order |
| LockRegistry.RemoveKeyAbsent | state.py:38-46 | removing a key the table does not hold leaves the table as it is |
| LockRegistry.Release | state.py:38-46 | releasing succeeds iff the caller is the recorded holder; then the key becomes unheld, otherwise the map is unchanged; other keys keep their holders |
| LockRegistry.ReleaseAll | state.py:48-58 | the returned keys are exactly the keys the session held, without duplicates; afterwards those keys are unheld, every other key keeps its holder, and no new key appears |
| LockRegistry.ReleaseAllFreesSession | state.py:48-58 | after release-all the session holds nothing, and the set of returned keys equals the set it held before |
| LockRegistry.ReleaseAllAppend | state.py:51-57 | release-all reports keys in table order: the key of an entry added last is reported after all the others, and only if the session holds it |
| LockRegistry.ReleaseAllNothingHeld | state.py:48-58 | release-all by a session that holds nothing returns no keys and leaves the table exactly as it was |
| LockRegistry.AcquireExcludesOthers | state.py:28-36 | once one session holds a key, a different session's acquire fails and changes nothing |
| LockRegistry.AcquireIdempotent | state.py:31-33 | acquiring twice gives the same result and the same map as acquiring once |
| LockRegistry.AcquireThenRelease | state.py:23-46 | a session that acquires a free key can release it, leaving the key unheld again |
| SharedState.CardIndex | state.py:71-76 | the index returned is the first position whose card has the id; none is returned iff no card has it |
| SharedState.CardById | state.py:64-69 | lookup by id finds a card iff the index lookup does, and it is the card at that index |
| SharedState.CardIndexSameIds | state.py:71-76 | the index lookup depends only on the sequence of ids, so editing card fields never changes where a card is found |
| SharedState.MoveCard | state.py:78-90 | the move fails, with the list unchanged, iff the id is absent or index+direction leaves the list; otherwise exactly the two positions are swapped; the result is always a permutation |
| SharedState.Relocate | state.py:103-114 | pop-then-insert puts the card at the target slot, keeps the other cards in their relative order and permutes the list |
| SharedState.DropInsertPermutes | state.py:131-135 | removing an element and inserting it elsewhere yields a permutation of the original list |
| SharedState.ReorderSlotBesideTarget | state.py:106-114 | after the index adjustment, the computed slot is in range and puts the card right after (insert_after) or right before the target |
| SharedState.ReorderCard | state.py:92-116 | the reorder fails, with the list unchanged, iff either id is absent or both name the same card; otherwise the card lands at the target's index in the list without it, plus one when inserting after, so it ends next to the target on the requested side; the other cards keep their relative order, and the list is permuted |
| SharedState.ClampIndex | state.py:124-125 | the position is clamped into 0..n-1: unchanged inside, 0 below, n-1 above |
| SharedState.MoveToPosition | state.py:118-136 | the move fails, with the list unchanged, iff the id is absent or the card already sits at the clamped position; otherwise the card ends at that position, the others keep their relative order, and the list is permuted |
| SharedState.GetFieldValue | state.py:154-163 | a value is returned iff the card exists and the field is title or content, and it is that card's field |
| SharedState.SetFieldValue | state.py:138-151 | the write succeeds iff the card exists and the field is title or content; afterwards reading the field returns the written value, every other card is unchanged and no id changes; on failure the list is unchanged |
| SharedState.SetFieldValueFrame | state.py:138-151 | writing one field of one card leaves every other (card, field) reading as before |
| SharedState.AcquireLock | state.py:23-36 | the board's acquire succeeds iff the key is unheld or held by the caller, and it changes only that key's lock, never the cards |
| SharedState.ReleaseLock | state.py:38-46 | the board's release succeeds iff the caller holds the key, which then becomes unheld; the cards are untouched |
| SharedState.ReleaseAllLocks | state.py:48-58 | the board returns exactly the caller's keys, frees them, leaves other holders alone and keeps the cards |
| SharedState.GetLockHolder | state.py:60-62 | the board's holder query finds a holder iff some lock entry has the key |
| DataStores.ReadAfterWrite | alive/store.py:80-98 | after a write, every key whose id parses to the written row reads the written value when that row and attribute exist; every other read, and every read after a failed write, is as before |
| DataStores.SignedIdSharesRow | alive/store.py:89-98 | for every n, the ids `str(n)` and `"+" + str(n)` are different lock keys but both reach the row with primary key n |
| DataStores.WriteField | alive/store.py:89-98 | a write succeeds iff `int(item_id)` parses and that row and attribute exist; afterwards reading gives the written value, and no other cell changes |
| DataStores.NewDataStore | alive/store.py:18-22 | a new store has no locks and uses the given channel, or "alive:" plus the model label when none (or an empty one) is given |
| DataStores.AcquireLock | alive/store.py:26-37 | the store's acquire succeeds iff the key is unheld or held by the caller; on success the caller holds it, re-acquiring or failing changes nothing, and other keys keep their holders |
| DataStores.ReleaseLock | alive/store.py:39-47 | the store's release succeeds iff the caller holds the key, which then becomes unheld; a non-holder's release changes nothing |
| DataStores.ReleaseAllLocks | alive/store.py:49-59 | the returned keys are exactly those the session held, each is afterwards unheld, and other holders are untouched |
| DataStores.GetLockHolder | alive/store.py:61-63 | the holder query finds a holder iff some lock entry has the key, and returns that entry's session |
| DataStores.MoveItem | alive/store.py:102-106 | the placeholder item move always reports that nothing moved |
| DataStores.MoveItemToPosition | alive/store.py:108-111 | the placeholder move-to-position always reports that nothing moved |
| DataStores.GetStore | alive/store.py:118-122 | the registry returns the existing store for a known model unchanged, and otherwise creates and records a fresh store with no locks and the default channel |
| DataStores.GetStoreStable | alive/store.py:118-122 | a second lookup of the same model returns the same store and leaves the registry as the first lookup left it |
| DataStores.NewCardStore | cards/store.py:17-21 | the card store starts on "cards_channel" with no key locked |
| DataStores.CardAcquireLock | cards/store.py:29-40 | the card store's acquire succeeds iff the key is unheld or held by the caller, changes nothing on failure, and touches no other key |
| DataStores.CardReleaseLock | cards/store.py:42-50 | the card store removes a lock only for its current holder and reports whether it did |
| DataStores.CardReleaseAllLocks | cards/store.py:52-62 | the card store returns and frees exactly the caller's keys and leaves other entries intact |
| DataStores.CardLockHolder | cards/store.py:64-66 | the card store's holder query finds a holder iff some lock entry has the key |
| DataStores.CardMoveToPosition | cards/store.py:105-114 | the card store's move-to-position always reports that nothing moved |
| Payloads.DraftText | alive/components/editable_field.py:132-133 | the draft text is the string value, the first element of a list value, or "" when absent; it fails exactly on an empty list |
| Payloads.ParseInt | alive/components/item.py:115 | parsing succeeds iff the text is an optional sign followed by at least one ASCII digit, and the result is the signed decimal value |
| Payloads.ParseDecimal | alive/components/item.py:115 | the parser reads back every integer written in decimal (with a leading minus for negatives), so `int(str(n)) == n` |
| Payloads.IntArgOfDecimal | components/card.py:88 | an integer argument whose entry is the decimal rendering of n reads back n, and a missing entry reads as 0 |
| Notifications.DraftKey | alive/components/editable_field.py:62 | the draft key is the item id, one colon, then the field name |
| Notifications.FormatKeys | alive/views.py:108 | each released key is formatted, in order, as its draft key |
| Notifications.React | alive/views.py:120-134 | events on another channel and unknown actions change nothing; refresh actions only refresh; `conflict` removes exactly the named draft and refreshes |
| EditableField.RenderFieldData | alive/components/editable_field.py:41-80 | editing holds iff the draft key is present, and the editing value is that draft or ""; locked holds iff some other session holds the field, so a session never sees its own lock as locked |
| EditableField.StartEdit | alive/components/editable_field.py:141-154 | a refused acquire leaves everything unchanged and only refreshes; a granted one leaves the caller holding the lock and, when the committed value exists, sets the draft to it, refreshes and broadcasts; rows and other locks are untouched |
| EditableField.UpdateDraft | alive/components/editable_field.py:129-137 | the draft for the key becomes the given text, other drafts are unchanged, no lock or row is touched, and the view refreshes |
| EditableField.DraftReadBack | alive/components/editable_field.py:121-137 | the draft a save reads back is the text of the last update, other fields' drafts read as before, and after a cancel it is the empty default |
| EditableField.CancelEdit | alive/components/editable_field.py:156-168 | the lock is released only if the caller holds it, exactly that one draft is removed, rows are untouched, and the view refreshes and broadcasts |
| EditableField.SaveEdit | alive/components/editable_field.py:170-189 | a non-holder's save writes nothing, drops the draft, keeps the locks and only refreshes; the holder's save writes the value, releases the lock, drops the draft, refreshes and broadcasts, even if the write fails; cells other than the one the parsed id reaches, other drafts and other locks are unchanged either way |
| EditableField.HandleFieldEvent | alive/components/editable_field.py:96-139 | exactly the four field events are handled; each routes to its handler with the payload's item id and field; save uses the stored draft or ""; the only failure is an update_draft whose value is an empty list |
| Names.Without | alive/conf.py:47 | filtering keeps exactly the names not in the dropped set |
| Names.WithoutAppend | alive/conf.py:47 | dropping names preserves the order and multiplicity of the rest: the filter distributes over concatenation |
| Names.Within | alive/components/item.py:80-85 | filtering keeps exactly the names in the allowed set |
| Names.WithinAppend | alive/components/item.py:80-85 | keeping the allowed names preserves their order and multiplicity: the filter distributes over concatenation |
| Conf.GetEditableFields | alive/conf.py:41-47 | explicit editable fields are returned verbatim, even when empty; otherwise the result holds exactly the fields outside id, pk, created_at and updated_at, and is the fields themselves when none of those occur |
| Conf.EditableFieldsInOrder | alive/conf.py:46-47 | the default editable fields keep the displayed order name by name: the rule distributes over concatenation, keeps an editable name and drops a bookkeeping one |
| Conf.FirstCandidate | alive/conf.py:54-56 | the search returns the first title candidate, in priority order, that is among the model fields, or none when no candidate is |
| Conf.GetTitleField | alive/conf.py:49-58 | a non-empty explicit title field wins; otherwise the first of name, title, label, subject present among the fields; otherwise the first field; no title iff there are no fields and no explicit one |
| Rating.ClampRating | alive/ui.py:85-88 | the value is clamped into 1..10 |
| Rating.RenderRating | alive/ui.py:78-115 | there are five balls, and the left half of ball b is filled iff 2b+1 is at most the clamped value, the right half iff 2b+2 is |
| Rating.FilledHalves | alive/ui.py:93-115 | the ten halves are filled exactly up to the clamped value, so the filled halves are a prefix whose length equals the clamped value |
| ItemComponent.ContentFieldsData | alive/components/item.py:80-87 | the content entries follow the requested order, keep only names with field data, and carry that field's data |
| ItemComponent.NonTitle | alive/components/item.py:77-78 | the default content fields are exactly the fields other than the title field |
| ItemComponent.NonTitleInOrder | alive/components/item.py:77-78 | the default content fields keep the original order name by name: the rule distributes over concatenation, drops the title field and keeps every other name |
| ItemComponent.RenderItemData | alive/components/item.py:8-89 | every listed field gets the field data of its display value; title data is present iff the title field is non-empty and listed, and is that field's data; the content entries are the requested (or default) content fields that have field data |
| ItemComponent.HandleItemEvent | alive/components/item.py:102-131 | only move_item and reorder_to_position are handled; they fail exactly when the integer argument does not parse, and otherwise change nothing, because both store methods report no move |
| CardComponent.RenderCardData | components/card.py:16-62 | the card's id, title and content are copied, and each flat title/content flag mirrors the draft map and whether another session holds that field's lock |
| CardComponent.InsertAfter | components/card.py:97 | insert_after is true iff the payload entry is exactly "true" |
| CardComponent.HandleCardEvent | components/card.py:75-112 | exactly the three card events are handled; on the in-memory board move_card and reorder_card apply the swap or reorder and refresh and broadcast only on success, while reorder_to_position moves the card and then raises, because the boolean result is awaited; on the Django card store move_card and reorder_card raise and reorder_to_position emits nothing; a non-integer argument raises |
| AliveViews.DeriveLayout | alive/views.py:57-61 | the view uses the configured fields, or the model's when none are configured; the title follows the title rules; content fields are the fields minus the title, in order |
| Sessions.Mount | alive/views.py:75-81 | an existing non-empty session id is kept, otherwise the fresh id is stored in the session; drafts start empty (the cards page mounts the same way, views/cards/cards.py:34-40) |
| Sessions.RemountKeepsSession | alive/views.py:76-79 | mounting again with the session a mount produced keeps the same id and session, whatever fresh id is offered, since a uuid4 string is never empty |
| AliveViews.Disconnect | alive/views.py:100-109 | the released keys are exactly the session's locks, the session holds nothing afterwards, other holders are untouched, and locks_released with the formatted keys is broadcast only when some key was released |
| AliveViews.HandleInfo | alive/views.py:120-134 | other channels and unknown actions are ignored; the four refresh actions only refresh; conflict drops exactly the named draft |
| AliveViews.HandleEvent | alive/views.py:111-118 | field events are handled by the field handler and take precedence; other events go to the item handler; an event neither handles is not handled |
| CardsView.Disconnect | views/cards/cards.py:52-61 | exactly the session's locks are freed and returned, other holders are untouched, and locks_released is broadcast on cards_channel only when some key was released |
| CardsView.HandleInfo | views/cards/cards.py:69-83 | events off cards_channel and unknown actions are ignored; state_changed, locks_released, card_created and card_deleted only refresh; conflict drops exactly the named draft |
| CardsView.HandleEvent | views/cards/cards.py:63-67 | field events take precedence over card events; an event neither handles is not handled; move_card and reorder_card raise against the Django card store; field events are answered by `EditableField.HandleFieldEvent`, which assumes the components mixin behaves like the alive one (see Left out) |
| Scenarios.ConcurrentEditConflict | alive/components/editable_field.py:141-189 | while one session edits a free field, a second session's start is refused and it sees the field locked and not editing; after the first saves, the text is committed, the lock is free and the second session no longer sees it locked |
| Scenarios.CancelKeepsCommittedValue | alive/components/editable_field.py:156-168 | starting, typing and cancelling leaves the committed value as it was, frees the lock and leaves no draft |
| Scenarios.SaveAfterForcedRelease | alive/components/editable_field.py:176-180 | if the lock was taken away before saving, the save writes nothing, keeps the locks, drops the draft and only refreshes |
| Scenarios.HeldAfterTwoAcquires | alive/store.py:26-37 | a session that acquires two free keys holds exactly those two keys |
| Scenarios.TwoLocksInOrder | alive/store.py:49-59 | a session holding nothing that locks two free keys, one after the other, gets exactly those keys back from release-all, in that order |
| Scenarios.ReleasedInLockOrder | alive/views.py:100-109 | a disconnecting session that locked two fields in turn releases them in that order |
| Scenarios.AbandonedSessionCleanup | alive/views.py:100-109 | a session that took two locks and disconnects releases exactly those two in lock order, broadcasts both formatted keys in that order, leaves both fields unheld, and the other session refreshes on receipt and sees neither field locked |
| Scenarios.EditRoundTrip | alive/components/editable_field.py:129-189 | start, type, save commits exactly the typed text, frees the lock, leaves no draft and changes no other lock |
| Scenarios.AliasedIdBypassesLock | alive/components/editable_field.py:141-189 | while session a holds the lock under id `str(n)`, session b locks `"+" + str(n)`, saves, and the row a is editing holds b's text while a still holds its lock |

## Left out

- Django ORM access (`get_items`, `get_item_by_id`, `sync_to_async`) is replaced by the abstract `Rows` map. A write fails only for a missing row or attribute. Field validation and database errors that make `save` fail are not modelled.
- Pub/sub, `socket.subscribe`, `socket.broadcast`, the asyncio task scheduling of `_refresh_view`, and the signal handlers (`alive/signals.py`, `cards/signals.py`) are I/O and concurrency. They appear only as `Refresh`/`Broadcast` effects in returned lists.
- Markdown and HTML rendering is presentation and has no logic to verify. This covers `render_markdown_safe`, `value_html`, the theme picker and script, and the markup and colour percentages of `render_rating`.
- `alive/mixin.py` reads Django model metadata to derive field names and configuration. The model takes field names and configuration as inputs instead.
- Routing and wiring are left out: `setup_alive`, `app.py`, `urls.py`, `create_index_liveview`, the admin registrations and the model declarations.
- `demo_counter.py` is a standalone UI demo.
- `components/editable_field.py` is not part of this model. `RenderCardData` assumes its `render_field_data` matches the `alive/components/editable_field.py` version. `CardsView.HandleEvent` likewise assumes that the mixin's `handle_field_event` and its start, update, save and cancel handlers match the alive version: the payload id fallback, the lock re-check on save, and the broadcast to the view's channel.
- `RenderItemData` leaves out the flat per-field aliases (`<field>`, `<field>_editing`, …) and the `title_*` aliases. Only the nested field map, the title data and the content list are modelled, because the flat keys can collide with each other for unlucky field names. `RenderItemData` also assumes no listed field is named `fields`: the source's flat alias (alive/components/item.py:61) would overwrite the nested map with the raw value, and the render then raises at a later field, at the title lookup or at the content loop.
- `DisplayValue` does not model `str()` of non-string attribute values. Attributes are strings or NULL here. `RenderItemData` takes the primary key as an already-stringified id, and `RenderCardData` takes the card id the same way.
- Payloads.ParseInt: accepts only ASCII digits. Python's `int()` also accepts surrounding whitespace, digit-group underscores and non-ASCII decimal digits such as Arabic-Indic ones; none of these are modelled.
- `Notifications.DraftKey` is not claimed to be injective. Ids or field names containing `:` can produce the same key, and the code does not exclude them.
- `DataStores.NewCardStore` does not model the `pubsub` reference or `set_pubsub`, which only serve broadcasting.
- `Sessions.Mount` does not model the initial render of the item list or the channel subscription.
- `AliveViews.HandleEvent` models the item dispatch against the `DjangoDataStore` the generated view uses. It does not model other data stores.
