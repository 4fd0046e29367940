/** Creating a contract from a blueprint: the form's name and per-field values,
    and the check that guards saving it (components/ContractForm.jsx). */
module ContractForm {
  import opened Wrappers
  import opened Domain
  import opened JsText
  import ContractView

  /** The text a Text or Date input shows for a stored value: `values[id] || ''`,
      as React turns it into the input's value. */
  function InputText(v: Option<FieldValue>): (r: string)
    ensures !Truthy(v) ==> r == ""
    ensures v.Some? && v.value.Str? ==> r == v.value.text
  {
    if !Truthy(v) then ""
    else match v.value
      case Str(s) => s
      case Bool(_) => "true"
      case Upload(_) => "[object File]"
      case Undefined => ""
  }

  /** The form's state: the contract name input and the values entered so far. */
  class Form {
    const blueprint: Blueprint
    var contractName: string
    var fieldValues: map<int, FieldValue>

    constructor (blueprint: Blueprint)
      ensures this.blueprint == blueprint
      ensures contractName == "" && fieldValues == map[]
    {
      this.blueprint := blueprint;
      contractName := "";
      fieldValues := map[];
    }

    method SetContractName(s: string)
      modifies this
      ensures contractName == s && fieldValues == old(fieldValues)
    {
      contractName := s;
    }

    /** A Text or Date input changed: its key now holds the typed text. */
    method OnTextInput(id: int, text: string)
      modifies this
      ensures fieldValues == old(fieldValues)[id := Str(text)]
      ensures forall k :: k != id ==> Lookup(fieldValues, k) == Lookup(old(fieldValues), k)
      ensures contractName == old(contractName)
    {
      fieldValues := fieldValues[id := Str(text)];
    }

    /** A file input changed: its key holds the first chosen file, or `undefined`
        when no file was chosen. */
    method OnFileInput(id: int, files: seq<File>)
      modifies this
      ensures fieldValues == old(fieldValues)[id := if files == [] then Undefined else Upload(files[0])]
      ensures forall k :: k != id ==> Lookup(fieldValues, k) == Lookup(old(fieldValues), k)
      ensures contractName == old(contractName)
    {
      fieldValues := fieldValues[id := if files == [] then Undefined else Upload(files[0])];
    }

    /** A checkbox changed: its key holds the new checked state. */
    method OnCheckboxInput(id: int, checked: bool)
      modifies this
      ensures fieldValues == old(fieldValues)[id := Bool(checked)]
      ensures forall k :: k != id ==> Lookup(fieldValues, k) == Lookup(old(fieldValues), k)
      ensures contractName == old(contractName)
    {
      fieldValues := fieldValues[id := Bool(checked)];
    }

    /** What a Text or Date input shows; an absent value shows as empty text
        without anything being stored. */
    function TextInputValue(id: int): (r: string)
      reads this
      ensures id !in fieldValues ==> r == ""
      ensures id in fieldValues && fieldValues[id].Str? ==> r == fieldValues[id].text
    {
      InputText(Lookup(fieldValues, id))
    }

    /** Whether a checkbox shows as checked: `values[id] || false`; an absent
        value shows as unchecked. */
    function CheckboxChecked(id: int): (r: bool)
      reads this
      ensures id !in fieldValues ==> !r
      ensures id in fieldValues && fieldValues[id].Bool? ==> r == fieldValues[id].flag
    {
      Truthy(Lookup(fieldValues, id))
    }

    /** handleSave: only a blank contract name is rejected; whatever values were
        entered (none at all included) are stored as they are, with no defaults
        filled in. The new contract starts in Created and records the
        blueprint's id and name. */
    function Save(freshId: int, now: string): (r: Result<Contract, ValidationError>)
      reads this
      ensures r.Failure? <==> IsBlank(contractName)
      ensures r.Failure? ==> r.error == EmptyName
      ensures r.Success? ==> ContractView.Parse(r.value.status) == Some(ContractView.Created)
      ensures r.Success? ==> r.value.name == contractName && r.value.fieldValues == fieldValues
      ensures r.Success? ==> r.value.blueprintId == blueprint.id && r.value.blueprintName == blueprint.name
      ensures r.Success? ==> r.value.id == freshId && r.value.createdDate == now
    {
      if IsBlank(contractName) then Failure(EmptyName)
      else Success(Contract(freshId, contractName, blueprint.id, blueprint.name,
                            ContractView.Name(ContractView.Created), now, fieldValues))
    }
  }
}
