/**
 * What a session emits and receives: view refreshes, broadcasts on a
 * store's channel, and the pub/sub deliveries handled by `handle_info`.
 */
module Notifications {
  import LockRegistry

  /** The payload of a broadcast: `{"action": "state_changed"}` or `{"action": "locks_released", "keys": [...]}`. */
  datatype Message = StateChanged | LocksReleased(keys: seq<string>)

  /** `_refresh_view` was scheduled, or a message was broadcast on a channel. */
  datatype Effect = Refresh | Broadcast(channel: string, message: Message)

  /**
   * A pub/sub delivery: its topic name, and the `"action"` and `"key"`
   * entries of its payload, each `""` when the payload lacks it.
   */
  datatype InfoEvent = InfoEvent(name: string, action: string, key: string)

  /** A session's draft buffer: `"item_id:field_name"` to the unsaved text. */
  type Drafts = map<string, string>

  /** `f"{item_id}:{field_name}"`, the key of a draft. */
  function DraftKey(itemId: string, field: string): (k: string)
    ensures |k| == |itemId| + 1 + |field|
    ensures k[|itemId|] == ':'
    ensures k[..|itemId|] == itemId && k[|itemId| + 1..] == field
  {
    itemId + ":" + field
  }

  /** `editing.get(key, "")`: the draft text, or `""` when there is no draft. */
  function DraftOf(drafts: Drafts, key: string): (text: string)
    ensures key in drafts ==> text == drafts[key]
    ensures key !in drafts ==> text == ""
  {
    if key in drafts then drafts[key] else ""
  }

  /** The released lock keys as the `locks_released` broadcast lists them, in release order. */
  function FormatKeys(keys: seq<LockRegistry.LockKey>): (r: seq<string>)
    ensures |r| == |keys|
    ensures forall i | 0 <= i < |keys| :: r[i] == DraftKey(keys[i].itemId, keys[i].field)
  {
    if keys == [] then [] else [DraftKey(keys[0].itemId, keys[0].field)] + FormatKeys(keys[1..])
  }

  /** The reaction of a session to a delivery: its drafts afterwards, and whether it refreshed. */
  datatype InfoReaction = InfoReaction(drafts: Drafts, effects: seq<Effect>)

  /**
   * `handle_info` of both views: deliveries on other topics and unknown
   * actions are ignored; the refresh actions refresh without touching the
   * drafts; `conflict` drops the named draft, if this session has it, and
   * refreshes.
   */
  function React(channel: string, refreshActions: set<string>, ev: InfoEvent, drafts: Drafts): (r: InfoReaction)
    requires "conflict" !in refreshActions
    ensures ev.name != channel ==> r == InfoReaction(drafts, [])
    ensures ev.name == channel && ev.action in refreshActions ==> r == InfoReaction(drafts, [Refresh])
    ensures ev.name == channel && ev.action == "conflict" ==>
      && r.effects == [Refresh]
      && ev.key !in r.drafts
      && forall k | k != ev.key :: (k in r.drafts <==> k in drafts) && (k in drafts ==> r.drafts[k] == drafts[k])
    ensures ev.action !in refreshActions && ev.action != "conflict" ==> r == InfoReaction(drafts, [])
  {
    if ev.name != channel then InfoReaction(drafts, [])
    else if ev.action in refreshActions then InfoReaction(drafts, [Refresh])
    else if ev.action == "conflict" then
      InfoReaction(if ev.key in drafts then drafts - {ev.key} else drafts, [Refresh])
    else InfoReaction(drafts, [])
  }
}
