/** The records the components pass between each other: field declarations,
    blueprints, field values and contracts. Identifiers are the numbers the
    source takes from the wall clock; here they are plain integers supplied by
    the caller. */
module Domain {
  import opened Wrappers

  datatype FieldType = Text | Date | Signature | Checkbox

  function TypeName(t: FieldType): string {
    match t
    case Text => "Text"
    case Date => "Date"
    case Signature => "Signature"
    case Checkbox => "Checkbox"
  }

  datatype Field = Field(id: int, fieldType: FieldType, labelText: string, position: int)

  datatype Blueprint = Blueprint(id: int, name: string, fields: seq<Field>)

  /** A browser file chosen in a file input; the model observes only its name. */
  datatype File = File(name: string)

  /** What a form input stores under a field id: the text of a Text or Date input,
      the state of a checkbox, the first file of a file input, or `undefined` when
      the file dialog was closed without a file. */
  datatype FieldValue = Str(text: string) | Bool(flag: bool) | Upload(file: File) | Undefined

  /** The value shapes the contract form writes for each field type. */
  predicate Fits(t: FieldType, v: FieldValue) {
    match t
    case Text => v.Str?
    case Date => v.Str?
    case Signature => v.Upload? || v.Undefined?
    case Checkbox => v.Bool?
  }

  datatype Contract = Contract(
    id: int,
    name: string,
    blueprintId: int,
    blueprintName: string,
    status: string,
    createdDate: string,
    fieldValues: map<int, FieldValue>)

  datatype ValidationError = EmptyName | NoFields

  /** `values[id]` in JavaScript: `undefined` (here None) when the key is absent. */
  function Lookup(values: map<int, FieldValue>, id: int): (r: Option<FieldValue>)
    ensures r.Some? <==> id in values
    ensures r.Some? ==> r.value == values[id]
  {
    if id in values then Some(values[id]) else None
  }

  /** JavaScript truthiness of a looked-up field value. */
  predicate Truthy(v: Option<FieldValue>) {
    match v
    case None => false
    case Some(Str(s)) => s != ""
    case Some(Bool(b)) => b
    case Some(Upload(_)) => true
    case Some(Undefined) => false
  }
}
