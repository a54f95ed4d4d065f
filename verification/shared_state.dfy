/**
 * The in-memory shared state of the cards application: an ordered list of
 * cards plus the edit-lock table. The list operations mutate the list in
 * place in the source; here each returns whether it changed anything and the
 * list afterwards.
 */
module SharedState {
  import opened Options
  import LockRegistry

  datatype Card = Card(id: string, title: string, content: string)

  datatype State = State(cards: seq<Card>, editLocks: LockRegistry.Registry)

  /** Result of a list operation: whether the list changed, and the list afterwards. */
  datatype Moved = Moved(ok: bool, cards: seq<Card>)

  /** Python's `list.pop(i)` as a value: `s` without its element at `i`. */
  function Drop<T>(s: seq<T>, i: nat): (r: seq<T>)
    requires i < |s|
    ensures |r| == |s| - 1
    ensures forall k | 0 <= k < i :: r[k] == s[k]
    ensures forall k | i <= k < |r| :: r[k] == s[k + 1]
  {
    s[..i] + s[i + 1..]
  }

  /** Python's `list.insert(i, x)` for an index within the list. */
  function Insert<T>(s: seq<T>, i: nat, x: T): (r: seq<T>)
    requires i <= |s|
    ensures |r| == |s| + 1
    ensures r[i] == x
    ensures forall k | 0 <= k < i :: r[k] == s[k]
    ensures forall k | i < k < |r| :: r[k] == s[k - 1]
  {
    s[..i] + [x] + s[i..]
  }

  /** Inserting an element and dropping it again gives back the list. */
  lemma DropInsert<T>(s: seq<T>, i: nat, x: T)
    requires i <= |s|
    ensures Drop(Insert(s, i, x), i) == s
  {
  }

  /** Moving an element by `pop` then `insert` permutes the list. */
  lemma DropInsertPermutes<T>(s: seq<T>, i: nat, j: nat)
    requires i < |s| && j < |s|
    ensures multiset(Insert(Drop(s, i), j, s[i])) == multiset(s)
  {
    var d := Drop(s, i);
    assert s == s[..i] + [s[i]] + s[i + 1..];
    assert multiset(s) == multiset(s[..i]) + multiset{s[i]} + multiset(s[i + 1..]);
    assert multiset(d) == multiset(s[..i]) + multiset(s[i + 1..]);
    assert d == d[..j] + d[j..];
    assert multiset(d) == multiset(d[..j]) + multiset(d[j..]);
    assert Insert(d, j, s[i]) == d[..j] + [s[i]] + d[j..];
    assert multiset(Insert(d, j, s[i])) == multiset(d[..j]) + multiset{s[i]} + multiset(d[j..]);
    assert multiset(Insert(d, j, s[i])) == multiset(d) + multiset{s[i]};
    assert multiset(s) == multiset(d) + multiset{s[i]};
  }

  /** `pop(src)` then `insert(p, card)`: the card at `src` moved to `p`, the rest in order. */
  function Relocate<T>(s: seq<T>, src: nat, p: nat): (r: seq<T>)
    requires src < |s| && p < |s|
    ensures |r| == |s|
    ensures r[p] == s[src]
    ensures Drop(r, p) == Drop(s, src)
    ensures forall k | 0 <= k < p :: r[k] == Drop(s, src)[k]
    ensures forall k | p < k < |r| :: r[k] == Drop(s, src)[k - 1]
    ensures multiset(r) == multiset(s)
  {
    DropInsert(Drop(s, src), p, s[src]);
    DropInsertPermutes(s, src, p);
    Insert(Drop(s, src), p, s[src])
  }

  /** `get_card_index`: the index of the first card with this id, or `None`. */
  function CardIndex(cards: seq<Card>, id: string): (r: Option<nat>)
    ensures r.Some? ==> r.value < |cards| && cards[r.value].id == id
    ensures r.Some? ==> forall j | 0 <= j < r.value :: cards[j].id != id
    ensures r.None? ==> forall j | 0 <= j < |cards| :: cards[j].id != id
  {
    if cards == [] then None
    else if cards[0].id == id then Some(0)
    else
      match CardIndex(cards[1..], id)
      case None => None
      case Some(i) => Some(i + 1)
  }

  /** `get_card_by_id`: the first card with this id, in agreement with `CardIndex`. */
  function CardById(cards: seq<Card>, id: string): (r: Option<Card>)
    ensures r.Some? <==> CardIndex(cards, id).Some?
    ensures r.Some? ==> r.value == cards[CardIndex(cards, id).value]
  {
    if cards == [] then None
    else if cards[0].id == id then Some(cards[0])
    else CardById(cards[1..], id)
  }

  /** Two lists with the same ids position by position have the same card indexes. */
  lemma CardIndexSameIds(a: seq<Card>, b: seq<Card>, id: string)
    requires |a| == |b|
    requires forall k | 0 <= k < |a| :: a[k].id == b[k].id
    ensures CardIndex(a, id) == CardIndex(b, id)
  {
  }

  /**
   * `move_card`: swaps the card with its neighbour at `index + direction`.
   * Nothing changes when the id is unknown or the neighbour position is
   * outside the list.
   */
  function MoveCard(cards: seq<Card>, id: string, direction: int): (r: Moved)
    ensures !r.ok <==> CardIndex(cards, id).None? || !(0 <= CardIndex(cards, id).value + direction < |cards|)
    ensures !r.ok ==> r.cards == cards
    ensures r.ok ==>
      var i := CardIndex(cards, id).value;
      var j := i + direction;
      && |r.cards| == |cards|
      && r.cards[i] == cards[j] && r.cards[j] == cards[i]
      && (forall k | 0 <= k < |cards| && k != i && k != j :: r.cards[k] == cards[k])
    ensures multiset(r.cards) == multiset(cards)
  {
    match CardIndex(cards, id)
    case None => Moved(false, cards)
    case Some(i) =>
      var j := i + direction;
      if j < 0 || j >= |cards| then Moved(false, cards)
      else
        var swapped := cards[i := cards[j]][j := cards[i]];
        assert multiset(swapped) == multiset(cards) by {
          if i != j {
            assert multiset(cards[i := cards[j]]) == multiset(cards) - multiset{cards[i]} + multiset{cards[j]};
          }
        }
        Moved(true, swapped)
  }

  /** `moved[p]` sits directly after `target` when `after`, otherwise directly before it. */
  predicate BesideTarget(moved: seq<Card>, p: nat, target: Card, after: bool)
    requires p < |moved|
  {
    if after then 0 < p && moved[p - 1] == target
    else p + 1 < |moved| && moved[p + 1] == target
  }

  /** Where `reorder_card` puts the card at `src` relative to the card at `tgt`. */
  function ReorderSlot(src: nat, tgt: nat, insertAfter: bool): nat
  {
    var t := if src < tgt then tgt - 1 else tgt;
    if insertAfter then t + 1 else t
  }

  lemma ReorderSlotBesideTarget(cards: seq<Card>, src: nat, tgt: nat, insertAfter: bool)
    requires src < |cards| && tgt < |cards| && src != tgt
    ensures ReorderSlot(src, tgt, insertAfter) < |cards|
    ensures BesideTarget(Relocate(cards, src, ReorderSlot(src, tgt, insertAfter)), ReorderSlot(src, tgt, insertAfter), cards[tgt], insertAfter)
  {
  }

  /**
   * `reorder_card`: takes the card out of the list and puts it back directly
   * before the target card, or directly after it when `insertAfter`. Nothing
   * changes when either id is unknown or both name the same card.
   */
  function ReorderCard(cards: seq<Card>, id: string, targetId: string, insertAfter: bool): (r: Moved)
    ensures !r.ok <==>
      || CardIndex(cards, id).None? || CardIndex(cards, targetId).None?
      || CardIndex(cards, id) == CardIndex(cards, targetId)
    ensures !r.ok ==> r.cards == cards
    ensures r.ok ==>
      var src := CardIndex(cards, id).value;
      var tgt := CardIndex(cards, targetId).value;
      // where the target sits once the moved card is taken out
      var t := if src < tgt then tgt - 1 else tgt;
      && t < |Drop(cards, src)| && Drop(cards, src)[t] == cards[tgt]
      && exists p | 0 <= p < |r.cards| ::
        && r.cards[p] == cards[src]
        && Drop(r.cards, p) == Drop(cards, src)
        && p == t + (if insertAfter then 1 else 0)
        && BesideTarget(r.cards, p, cards[tgt], insertAfter)
    ensures multiset(r.cards) == multiset(cards)
  {
    var src := CardIndex(cards, id);
    var tgt := CardIndex(cards, targetId);
    if src.None? || tgt.None? || src.value == tgt.value then Moved(false, cards)
    else
      var p := ReorderSlot(src.value, tgt.value, insertAfter);
      ReorderSlotBesideTarget(cards, src.value, tgt.value, insertAfter);
      var moved := Relocate(cards, src.value, p);
      assert moved[p] == cards[src.value];
      Moved(true, moved)
  }

  /** `max(0, min(position, n - 1))`: the clamped target position in a list of `n` cards. */
  function ClampIndex(position: int, n: nat): (c: nat)
    requires n > 0
    ensures c < n
    ensures 0 <= position < n ==> c == position
    ensures position < 0 ==> c == 0
    ensures position >= n ==> c == n - 1
  {
    if position < 0 then 0 else if position > n - 1 then n - 1 else position
  }

  /**
   * `move_to_position`: moves the card to the clamped position; the other
   * cards keep their relative order. Nothing changes when the id is unknown
   * or the card is already there.
   */
  function MoveToPosition(cards: seq<Card>, id: string, position: int): (r: Moved)
    ensures !r.ok <==> CardIndex(cards, id).None? || CardIndex(cards, id).value == ClampIndex(position, |cards|)
    ensures !r.ok ==> r.cards == cards
    ensures r.ok ==>
      var src := CardIndex(cards, id).value;
      var p := ClampIndex(position, |cards|);
      && |r.cards| == |cards|
      && r.cards[p] == cards[src]
      && Drop(r.cards, p) == Drop(cards, src)
    ensures multiset(r.cards) == multiset(cards)
  {
    match CardIndex(cards, id)
    case None => Moved(false, cards)
    case Some(src) =>
      var p := ClampIndex(position, |cards|);
      if src == p then Moved(false, cards)
      else
        Moved(true, Relocate(cards, src, p))
  }

  /** The two fields a card exposes for editing. */
  predicate IsCardField(field: string)
  {
    field == "title" || field == "content"
  }

  /** `get_field_value`: the title or content of the first card with this id. */
  function GetFieldValue(cards: seq<Card>, id: string, field: string): (r: Option<string>)
    ensures r.Some? <==> CardIndex(cards, id).Some? && IsCardField(field)
    ensures r.Some? && field == "title" ==> r.value == cards[CardIndex(cards, id).value].title
    ensures r.Some? && field == "content" ==> r.value == cards[CardIndex(cards, id).value].content
  {
    match CardById(cards, id)
    case None => None
    case Some(card) =>
      if field == "title" then Some(card.title)
      else if field == "content" then Some(card.content)
      else None
  }

  /**
   * `set_field_value` / `update_card_field`: overwrites the title or content
   * of the first card with this id. Any other field name, or an unknown id,
   * is refused with the list unchanged.
   */
  function SetFieldValue(cards: seq<Card>, id: string, field: string, value: string): (r: Moved)
    ensures r.ok <==> CardIndex(cards, id).Some? && IsCardField(field)
    ensures !r.ok ==> r.cards == cards
    ensures |r.cards| == |cards|
    ensures forall k | 0 <= k < |cards| :: r.cards[k].id == cards[k].id
    ensures r.ok ==> GetFieldValue(r.cards, id, field) == Some(value)
    ensures r.ok ==> forall k | 0 <= k < |cards| && k != CardIndex(cards, id).value :: r.cards[k] == cards[k]
  {
    match CardIndex(cards, id)
    case None => Moved(false, cards)
    case Some(i) =>
      var card := cards[i];
      if field == "title" then
        var updated := cards[i := card.(title := value)];
        CardIndexSameIds(cards, updated, id);
        Moved(true, updated)
      else if field == "content" then
        var updated := cards[i := card.(content := value)];
        CardIndexSameIds(cards, updated, id);
        Moved(true, updated)
      else Moved(false, cards)
  }

  /** Writing one field of one card leaves every other readable field as it was. */
  lemma SetFieldValueFrame(cards: seq<Card>, id: string, field: string, value: string, otherId: string, otherField: string)
    requires otherId != id || otherField != field
    ensures GetFieldValue(SetFieldValue(cards, id, field, value).cards, otherId, otherField) == GetFieldValue(cards, otherId, otherField)
  {
  }

  /** `acquire_lock` on the shared state: see `LockRegistry.Acquire`; the cards are untouched. */
  function AcquireLock(s: State, itemId: string, field: string, sid: string): (r: (bool, State))
    ensures var key := LockRegistry.LockKey(itemId, field);
      && (r.0 <==> GetLockHolder(s, itemId, field) in {None, Some(sid)})
      && (r.0 ==> GetLockHolder(r.1, itemId, field) == Some(sid))
      && (!r.0 ==> r.1 == s)
      && r.1.cards == s.cards
      && forall k | k != key :: LockRegistry.Holder(r.1.editLocks, k) == LockRegistry.Holder(s.editLocks, k)
  {
    var o := LockRegistry.Acquire(s.editLocks, LockRegistry.LockKey(itemId, field), sid);
    (o.ok, s.(editLocks := o.locks))
  }

  /** `release_lock` on the shared state: only the holder can release. */
  function ReleaseLock(s: State, itemId: string, field: string, sid: string): (r: (bool, State))
    ensures var key := LockRegistry.LockKey(itemId, field);
      && (r.0 <==> GetLockHolder(s, itemId, field) == Some(sid))
      && (r.0 ==> GetLockHolder(r.1, itemId, field) == None)
      && (!r.0 ==> r.1 == s)
      && r.1.cards == s.cards
      && forall k | k != key :: LockRegistry.Holder(r.1.editLocks, k) == LockRegistry.Holder(s.editLocks, k)
  {
    var o := LockRegistry.Release(s.editLocks, LockRegistry.LockKey(itemId, field), sid);
    (o.ok, s.(editLocks := o.locks))
  }

  /** `release_all_locks` on the shared state: returns exactly the keys `sid` held and frees them. */
  function ReleaseAllLocks(s: State, sid: string): (r: (seq<LockRegistry.LockKey>, State))
    ensures forall k :: k in r.0 <==> LockRegistry.Holder(s.editLocks, k) == Some(sid)
    ensures forall k :: LockRegistry.Holder(s.editLocks, k) == Some(sid) ==> LockRegistry.Holder(r.1.editLocks, k) == None
    ensures forall k :: LockRegistry.Holder(s.editLocks, k) != Some(sid) ==> LockRegistry.Holder(r.1.editLocks, k) == LockRegistry.Holder(s.editLocks, k)
    ensures r.1.cards == s.cards
  {
    var released := LockRegistry.ReleaseAll(s.editLocks, sid);
    (released.keys, s.(editLocks := released.locks))
  }

  /** `get_lock_holder` on the shared state: a read of the lock table. */
  function GetLockHolder(s: State, itemId: string, field: string): (h: Option<string>)
    ensures h.None? <==> forall e | e in s.editLocks :: e.key != LockRegistry.LockKey(itemId, field)
    ensures h.Some? ==> LockRegistry.Entry(LockRegistry.LockKey(itemId, field), h.value) in s.editLocks
  {
    LockRegistry.Holder(s.editLocks, LockRegistry.LockKey(itemId, field))
  }
}
