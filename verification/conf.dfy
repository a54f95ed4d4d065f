/** The defaulting rules of `AliveConf`, the per-model display configuration. */
module Conf {
  import opened Options
  import Names

  /** Field names that are not editable unless listed explicitly. */
  const NonEditable: set<string> := {"id", "pk", "created_at", "updated_at"}

  /** The field names tried, in this order, when no title field is configured. */
  const TitleCandidates: seq<string> := ["name", "title", "label", "subject"]

  /**
   * `get_editable_fields`: an explicit list is returned verbatim, even when
   * empty; otherwise the displayed fields minus the bookkeeping ones, in
   * their order.
   */
  function GetEditableFields(editableFields: Option<seq<string>>, fields: seq<string>): (r: seq<string>)
    ensures editableFields.Some? ==> r == editableFields.value
    ensures editableFields.None? ==> forall f :: f in r <==> f in fields && f !in NonEditable
    ensures editableFields.None? && (forall i | 0 <= i < |fields| :: fields[i] !in NonEditable) ==> r == fields
  {
    match editableFields
    case Some(explicit) => explicit
    case None =>
      Names.WithoutNothingDropped(fields, NonEditable);
      Names.Without(fields, NonEditable)
  }

  /**
   * The default editable fields keep the displayed order, each name as often
   * as it is displayed: the rule works name by name and distributes over
   * concatenation.
   */
  lemma EditableFieldsInOrder(a: seq<string>, b: seq<string>, f: string)
    ensures GetEditableFields(None, a + b) == GetEditableFields(None, a) + GetEditableFields(None, b)
    ensures GetEditableFields(None, [f]) == if f in NonEditable then [] else [f]
  {
    Names.WithoutAppend(a, b, NonEditable);
  }

  /** The first title candidate present in `modelFields`, searching from position `from`. */
  function FirstCandidate(modelFields: seq<string>, from: nat): (r: Option<nat>)
    requires from <= |TitleCandidates|
    ensures r.Some? ==> from <= r.value < |TitleCandidates| && TitleCandidates[r.value] in modelFields
    ensures r.Some? ==> forall j | from <= j < r.value :: TitleCandidates[j] !in modelFields
    ensures r.None? ==> forall j | from <= j < |TitleCandidates| :: TitleCandidates[j] !in modelFields
    decreases |TitleCandidates| - from
  {
    if from == |TitleCandidates| then None
    else if TitleCandidates[from] in modelFields then Some(from)
    else FirstCandidate(modelFields, from + 1)
  }

  /**
   * `get_title_field`: a non-empty configured title field wins; otherwise
   * the first of `name`, `title`, `label`, `subject` that the model has;
   * otherwise the model's first field, or `None` when it has none.
   */
  function GetTitleField(titleField: Option<string>, modelFields: seq<string>): (r: Option<string>)
    ensures titleField.Some? && titleField.value != "" ==> r == titleField
    ensures (titleField.None? || titleField.value == "") ==>
      forall i | 0 <= i < |TitleCandidates| && TitleCandidates[i] in modelFields ::
        (forall j | 0 <= j < i :: TitleCandidates[j] !in modelFields) ==> r == Some(TitleCandidates[i])
    ensures (titleField.None? || titleField.value == "") && (forall c | c in TitleCandidates :: c !in modelFields) ==>
      r == if |modelFields| > 0 then Some(modelFields[0]) else None
    ensures (titleField.None? || titleField.value == "") ==> (r.None? <==> |modelFields| == 0)
  {
    if titleField.Some? && titleField.value != "" then titleField
    else
      match FirstCandidate(modelFields, 0)
      case Some(i) => Some(TitleCandidates[i])
      case None => if |modelFields| > 0 then Some(modelFields[0]) else None
  }
}
