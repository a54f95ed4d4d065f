/**
 * The generic item component: the view data of one model instance with
 * editable fields, and the item events (reordering) of the generated view.
 */
module ItemComponent {
  import opened Options
  import opened Notifications
  import LockRegistry
  import DataStores
  import Payloads
  import Names
  import EditableField

  /**
   * A model instance: its primary key, already rendered as a string, and its
   * attributes. An attribute is `None` when it holds Python's `None`; other
   * values are given in their `str()` form.
   */
  datatype ItemRow = ItemRow(pk: string, attrs: map<string, Option<string>>)

  /** `getattr(item, name, "")` with `None` shown as `""`. */
  function DisplayValue(item: ItemRow, name: string): (v: string)
    ensures name !in item.attrs ==> v == ""
    ensures name in item.attrs && item.attrs[name].None? ==> v == ""
    ensures name in item.attrs && item.attrs[name].Some? ==> v == item.attrs[name].value
  {
    if name in item.attrs then item.attrs[name].GetOr("") else ""
  }

  /** The standard title entries: which field is the title, and its editing state. */
  datatype TitleData = TitleData(name: string, editing: bool, editingValue: string, locked: bool)

  /** One entry of `content_fields_data`: a field's data tagged with its `name`. */
  datatype NamedField = NamedField(name: string, data: EditableField.FieldData)

  datatype ItemData = ItemData(
    id: string,
    fields: map<string, EditableField.FieldData>,
    title: Option<TitleData>,
    contentFieldsData: seq<NamedField>)

  function NamesOf(entries: seq<NamedField>): (r: seq<string>)
    ensures |r| == |entries|
    ensures forall i | 0 <= i < |entries| :: r[i] == entries[i].name
  {
    if entries == [] then [] else [entries[0].name] + NamesOf(entries[1..])
  }

  /** The `content_fields_data` loop: the listed names that have field data, in list order. */
  function ContentFieldsData(contentFields: seq<string>, fields: map<string, EditableField.FieldData>): (r: seq<NamedField>)
    ensures NamesOf(r) == Names.Within(contentFields, fields.Keys)
    ensures forall i | 0 <= i < |r| :: r[i].name in fields && r[i].data == fields[r[i].name]
  {
    if contentFields == [] then []
    else
      var rest := ContentFieldsData(contentFields[1..], fields);
      if contentFields[0] in fields then
        assert NamesOf([NamedField(contentFields[0], fields[contentFields[0]])] + rest) == [contentFields[0]] + NamesOf(rest);
        [NamedField(contentFields[0], fields[contentFields[0]])] + rest
      else rest
  }

  /** The names other than the title field: `[f for f in fields if f != title_field]`. */
  function NonTitle(fields: seq<string>, titleField: Option<string>): (r: seq<string>)
    ensures titleField.None? ==> forall f :: f in r <==> f in fields
    ensures titleField.Some? ==> forall f :: f in r <==> f in fields && f != titleField.value
  {
    match titleField
    case None => Names.Without(fields, {})
    case Some(t) => Names.Without(fields, {t})
  }

  /**
   * The default content fields keep the order of `fields`, each name as
   * often as it occurs there, dropping only the title field.
   */
  lemma NonTitleInOrder(a: seq<string>, b: seq<string>, titleField: Option<string>, f: string)
    ensures NonTitle(a + b, titleField) == NonTitle(a, titleField) + NonTitle(b, titleField)
    ensures NonTitle([f], titleField) == if titleField == Some(f) then [] else [f]
  {
    match titleField
    case None => Names.WithoutAppend(a, b, {});
    case Some(t) => Names.WithoutAppend(a, b, {t});
  }

  /**
   * `render_item_data`: every listed field gets the data of
   * `render_field_data` for its display value; the title entries are set iff
   * a non-empty title field is among the fields; the content entries follow
   * `contentFields` (by default all fields but the title) and keep only the
   * names that have field data.
   */
  function RenderItemData(
    item: ItemRow, fields: seq<string>, sid: string, drafts: Drafts, locks: LockRegistry.Registry,
    titleField: Option<string>, contentFields: Option<seq<string>>): (d: ItemData)
    ensures d.id == item.pk
    ensures d.fields.Keys == set f | f in fields
    ensures forall f | f in d.fields :: d.fields[f] == EditableField.RenderFieldData(item.pk, f, DisplayValue(item, f), sid, drafts, locks)
    ensures d.title.Some? <==> titleField.Some? && titleField.value != "" && titleField.value in fields
    ensures d.title.Some? ==>
      var t := titleField.value;
      d.title.value == TitleData(t, d.fields[t].isEditing, d.fields[t].editingValue, d.fields[t].isLocked)
    ensures contentFields.Some? ==> NamesOf(d.contentFieldsData) == Names.Within(contentFields.value, d.fields.Keys)
    ensures contentFields.None? ==> NamesOf(d.contentFieldsData) == Names.Within(NonTitle(fields, titleField), d.fields.Keys)
    ensures forall i | 0 <= i < |d.contentFieldsData| :: d.contentFieldsData[i].data == d.fields[d.contentFieldsData[i].name]
  {
    var fieldData := map f | f in fields :: EditableField.RenderFieldData(item.pk, f, DisplayValue(item, f), sid, drafts, locks);
    var title :=
      if titleField.Some? && titleField.value != "" && titleField.value in fields then
        var t := fieldData[titleField.value];
        Some(TitleData(titleField.value, t.isEditing, t.editingValue, t.isLocked))
      else None;
    var content := contentFields.GetOr(NonTitle(fields, titleField));
    ItemData(item.pk, fieldData, title, ContentFieldsData(content, fieldData))
  }

  /** The item events `handle_item_event` answers. */
  predicate IsItemEvent(event: string)
  {
    event == "move_item" || event == "reorder_to_position"
  }

  /**
   * `handle_item_event` with the generated view's `DjangoDataStore`: both
   * events are answered whatever the store reports; refresh and broadcast
   * follow only a move, and the store's placeholders never move, so nothing
   * changes. A direction or position that is not an integer raises.
   */
  function HandleItemEvent(event: string, payload: Payloads.Payload, w: EditableField.World, store: DataStores.DjangoDataStore): (r: EditableField.Outcome)
    ensures r.NotHandled? <==> !IsItemEvent(event)
    ensures r.Raised? <==>
      || (event == "move_item" && Payloads.IntArg(payload, "direction").None?)
      || (event == "reorder_to_position" && Payloads.IntArg(payload, "position").None?)
    ensures r.Handled? ==> r.step.world == w && r.step.effects == []
  {
    var itemId := Payloads.ItemIdOf(payload);
    if event == "move_item" then
      match Payloads.IntArg(payload, "direction")
      case None => EditableField.Raised
      case Some(direction) =>
        var moved := DataStores.MoveItem(store, itemId, direction);
        EditableField.Handled(EditableField.Step(w, EditableField.ChangedIf(moved, store.channel)))
    else if event == "reorder_to_position" then
      match Payloads.IntArg(payload, "position")
      case None => EditableField.Raised
      case Some(position) =>
        var moved := DataStores.MoveItemToPosition(store, itemId, position);
        EditableField.Handled(EditableField.Step(w, EditableField.ChangedIf(moved, store.channel)))
    else EditableField.NotHandled
  }
}
