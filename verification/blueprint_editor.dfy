/** The blueprint draft: an ordered field list edited one action at a time, and
    the two-step check that guards saving it (components/BlueprintEditor.jsx). */
module BlueprintEditor {
  import opened Wrappers
  import opened Domain
  import opened JsText
  import opened Seqs

  /** FIELD_TYPES: the order of the "add field" buttons. */
  const FieldTypes: seq<FieldType> := [Text, Date, Signature, Checkbox]

  /** There is one "add field" button for each field type. */
  lemma FieldTypesListEachTypeOnce(t: FieldType)
    ensures multiset(FieldTypes)[t] == 1
  {
  }

  /** The label a new field starts with: "`<type> Field`". */
  function DefaultLabel(t: FieldType): string {
    TypeName(t) + " Field"
  }

  /** One `[key]: value` assignment to a declared property of a field. */
  datatype FieldEdit = SetId(id: int) | SetType(fieldType: FieldType) | SetLabel(labelText: string) | SetPosition(position: int)

  /** `{ ...f, [key]: value }`: the edited property takes the new value, the others keep theirs. */
  function ApplyEdit(f: Field, e: FieldEdit): (g: Field)
    ensures e.SetId? ==> g.id == e.id
    ensures e.SetType? ==> g.fieldType == e.fieldType
    ensures e.SetLabel? ==> g.labelText == e.labelText
    ensures e.SetPosition? ==> g.position == e.position
    ensures !e.SetId? ==> g.id == f.id
    ensures !e.SetType? ==> g.fieldType == f.fieldType
    ensures !e.SetLabel? ==> g.labelText == f.labelText
    ensures !e.SetPosition? ==> g.position == f.position
  {
    match e
    case SetId(i) => f.(id := i)
    case SetType(t) => f.(fieldType := t)
    case SetLabel(l) => f.(labelText := l)
    case SetPosition(p) => f.(position := p)
  }

  /** The field list after `addField(t)`. */
  function AppendField(fields: seq<Field>, t: FieldType, freshId: int): (r: seq<Field>)
    ensures |r| == |fields| + 1 && r[..|fields|] == fields
    ensures r[|fields|].id == freshId && r[|fields|].fieldType == t
    ensures r[|fields|].labelText == TypeName(t) + " Field"
    ensures r[|fields|].position == |fields|
  {
    fields + [Field(freshId, t, DefaultLabel(t), |fields|)]
  }

  /** The field list after `updateField(id, key, value)`. */
  function EditFields(fields: seq<Field>, id: int, e: FieldEdit): (r: seq<Field>)
    ensures |r| == |fields|
    ensures forall i :: 0 <= i < |fields| && fields[i].id != id ==> r[i] == fields[i]
    ensures forall i :: 0 <= i < |fields| && fields[i].id == id ==> r[i] == ApplyEdit(fields[i], e)
    ensures (forall i :: 0 <= i < |fields| ==> fields[i].id != id) ==> r == fields
  {
    seq(|fields|, i requires 0 <= i < |fields| => if fields[i].id == id then ApplyEdit(fields[i], e) else fields[i])
  }

  /** The field list after `deleteField(id)`. */
  function RemoveField(fields: seq<Field>, id: int): (r: seq<Field>)
    ensures forall i :: 0 <= i < |r| ==> r[i] in fields && r[i].id != id
    ensures forall i :: 0 <= i < |fields| && fields[i].id != id ==> fields[i] in r
    ensures forall f :: multiset(r)[f] == if f.id != id then multiset(fields)[f] else 0
    ensures (forall i :: 0 <= i < |fields| ==> fields[i].id != id) ==> r == fields
  {
    var keep := (f: Field) => f.id != id;
    FilterMultiset(keep, fields);
    Filter(keep, fields)
  }

  /** Deleting keeps the surviving fields in their relative order. */
  lemma RemoveFieldKeepsOrder(fields: seq<Field>, id: int)
    ensures IsSubsequence(RemoveField(fields, id), fields)
  {
    FilterIsSubsequence((f: Field) => f.id != id, fields);
  }

  /** Positions are not renumbered: after a deletion, adding a field can give it
      the position of a field that is still there. */
  lemma PositionsCanRepeat(a: Field, b: Field, c: Field, freshId: int)
    requires a.position == 0 && b.position == 1 && c.position == 2
    requires a.id != b.id && a.id != c.id
    ensures var r := AppendField(RemoveField([a, b, c], a.id), Text, freshId);
      |r| == 3 && r[1] == c && r[2].position == c.position
  {
  }

  /** The editor's state: the name input and the field list. */
  class Draft {
    var name: string
    var fields: seq<Field>
    const editBlueprint: Option<Blueprint>

    /** The editor opens on the edited blueprint's name and fields, or empty. */
    constructor (editBlueprint: Option<Blueprint>)
      ensures this.editBlueprint == editBlueprint
      ensures name == (if editBlueprint.Some? then editBlueprint.value.name else "")
      ensures fields == (if editBlueprint.Some? then editBlueprint.value.fields else [])
    {
      this.editBlueprint := editBlueprint;
      name := if editBlueprint.Some? then editBlueprint.value.name else "";
      fields := if editBlueprint.Some? then editBlueprint.value.fields else [];
    }

    method SetName(newName: string)
      modifies this
      ensures name == newName && fields == old(fields)
    {
      name := newName;
    }

    method AddField(t: FieldType, freshId: int)
      modifies this
      ensures fields == AppendField(old(fields), t, freshId) && name == old(name)
    {
      fields := AppendField(fields, t, freshId);
    }

    method UpdateField(id: int, e: FieldEdit)
      modifies this
      ensures fields == EditFields(old(fields), id, e) && name == old(name)
    {
      fields := EditFields(fields, id, e);
    }

    method DeleteField(id: int)
      modifies this
      ensures fields == RemoveField(old(fields), id) && name == old(name)
    {
      fields := RemoveField(fields, id);
    }

    /** handleSave: a blank name is rejected first, then an empty field list.
        On success the blueprint handed to the app keeps the untrimmed name and
        the fields as they are; its id is the edited blueprint's id when that is
        truthy (non-zero), otherwise `freshId`. */
    function Save(freshId: int): (r: Result<Blueprint, ValidationError>)
      reads this
      ensures r == Failure(EmptyName) <==> IsBlank(name)
      ensures r == Failure(NoFields) <==> !IsBlank(name) && fields == []
      ensures r.Success? <==> !IsBlank(name) && fields != []
      ensures r.Success? ==> r.value.name == name && r.value.fields == fields
      ensures r.Success? && editBlueprint.Some? && editBlueprint.value.id != 0 ==> r.value.id == editBlueprint.value.id
      ensures r.Success? && (editBlueprint.None? || editBlueprint.value.id == 0) ==> r.value.id == freshId
    {
      if IsBlank(name) then Failure(EmptyName)
      else if |fields| == 0 then Failure(NoFields)
      else
        var id := if editBlueprint.Some? && editBlueprint.value.id != 0 then editBlueprint.value.id else freshId;
        Success(Blueprint(id, name, fields))
    }
  }
}
