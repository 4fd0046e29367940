# Contract management: a Dafny model of its workflow and stores

The modelled system is a small React application for contract management. An
author builds **blueprints**: named templates made of an ordered list of typed
fields (Text, Date, Signature, Checkbox). From a blueprint the user creates
**contracts** by entering a name and field values. Each contract then moves
through a status workflow: Created → Approved → Sent → Signed → Locked. From any
non-terminal status it can also go to Revoked. Locked and Revoked are terminal.

The model covers the logic under the JSX:

- `ContractView` (`contract_view.dfy`). It has the six statuses and their order.
  It has the transition table (`getNextStatuses`), the status badge colours and
  the text shown for a stored field value. Lemmas show that every step moves
  forward in the status order. Runs therefore have at most four steps, and a
  run that cannot go on ends in Locked or Revoked.
- `BlueprintEditor` (`blueprint_editor.dfy`). A `Draft` class holds the name
  and the field list. Its methods add, edit and delete fields. `Draft.Save` is
  the check that runs before saving: a blank name is rejected first, then an
  empty field list.
- `ContractForm` (`contract_form.dfy`). A `Form` class holds the contract name
  and the map from field ids to values. Each input handler sets one key.
  `Form.Save` rejects only a blank name. Otherwise it builds a contract in
  status Created.
- `App` (`app.dfy`). A `Store` class holds the blueprint list and the contract
  list. Blueprints are upserted by id and deleted by filter. Contracts are
  appended, and their status is rewritten by id. The module also has the
  dashboard filters, the three status counts and the status change that the
  view's buttons trigger.
- Helpers: `Domain` (the shared records), `Seqs` (filter, find and
  subsequence), `JsText` (JavaScript's `trim`) and `Wrappers` (Option and
  Result).

Statuses are stored as strings, as in the source. `ContractView.Parse` and
`ContractView.Name` map between those strings and the `Status` datatype. The
raw status update can write any string, and the filters and colours have a
fallback for strings that are not one of the six. JavaScript truthiness is
written out where the source relies on it. An id of 0 is falsy, so such a
blueprint is never treated as already saved. Field values are falsy when they
are `""`, `false`, `undefined` or absent.

Points where the code's behaviour is worth stating outright:

- The code does not check status changes against the transition table.
  `handleUpdateContractStatus` (App.jsx:36-40) writes any status. The model has
  this raw update (`App.SetStatus`). The source's own intent is that Locked and
  Revoked are final: `getNextStatuses` offers no button for them
  (ContractView.jsx:10), and the banners at ContractView.jsx:58-69 say a locked
  contract "cannot be edited" and a revoked one "cannot proceed further". The
  model therefore also has a checked transition that fails with
  `IllegalTransition` (`App.Transition`).
- Creating a contract stores the entered values as they are. The code fills in
  no defaults, so `fieldValues` of a contract created with no input is empty.
  The defaults `''` and `false` appear only in the inputs and in the view.
- A contract is displayed against the live blueprint found by id
  (App.jsx:43), not against a copy of the fields. After the blueprint is
  deleted there is nothing to display it against
  (`App.DeletedBlueprintIsGone`).
- An empty Text or Date value displays as "(Not provided)", like an absent one.

## Model

| member | source | states |
|---|---|---|
| `ContractView.Parse` | contract-management/src/components/ContractView.jsx:5 | a string parses to a status exactly when it is that status's name; unknown strings parse to nothing |
| `ContractView.ParseName` | contract-management/src/components/ContractView.jsx:5 | every status name parses back to that status |
| `ContractView.Index` | contract-management/src/components/ContractView.jsx:5-9 | `indexOf` in CONTRACT_STATUSES: the unique position of the status in the six-element order |
| `ContractView.NextStatuses` | contract-management/src/components/ContractView.jsx:8-16 | Locked, Revoked and unknown strings have no next status; every other status offers exactly the next status in order followed by Revoked; every offered status has a larger index |
| `ContractView.AllowedByIndex` | contract-management/src/components/ContractView.jsx:10-14 | a step from a terminal status never exists; from a non-terminal status a step is allowed iff it goes to Revoked or to the next index; every step raises the index |
| `ContractView.RunMovesForward` | contract-management/src/components/ContractView.jsx:5-14 | along any run of allowed steps the index grows by at least one per step, so no run revisits a status |
| `ContractView.RunsEnd` | contract-management/src/components/ContractView.jsx:10-14 | every run has at most five statuses (four transitions), only its last status may be terminal, and a run that cannot be extended ends in Locked or Revoked |
| `ContractView.StatusColor` | contract-management/src/components/ContractView.jsx:18-28 | the grey class is returned exactly for Created and for strings that are not one of the six |
| `ContractView.StatusColorsDistinct` | contract-management/src/components/ContractView.jsx:19-26 | the six statuses get six different badge classes |
| `ContractView.DisplayValue` | contract-management/src/components/ContractView.jsx:78-82 | Checkbox shows Checked iff its value is truthy (absent is Unchecked); a Signature holding a file shows the file's name; any other falsy or absent value shows "(Not provided)"; a non-empty string shows itself; `true` outside a Checkbox shows as empty text; only a file in a Text or Date field cannot be rendered |
| `ContractView.FormValuesDisplay` | contract-management/src/components/ContractView.jsx:78-82 | every value shape the form writes for a field type displays as text |
| `BlueprintEditor.FieldTypesListEachTypeOnce` | contract-management/src/components/BlueprintEditor.jsx:5 | FIELD_TYPES has one entry, hence one "add field" button, for each of the four field types |
| `BlueprintEditor.ApplyEdit` | contract-management/src/components/BlueprintEditor.jsx:23 | `{ ...f, [key]: value }` sets the edited property and keeps every other property |
| `BlueprintEditor.AppendField` | contract-management/src/components/BlueprintEditor.jsx:12-19 | adding a field appends one field with the given id and type, label "`<type> Field`" and position equal to the old length; earlier fields are unchanged |
| `BlueprintEditor.EditFields` | contract-management/src/components/BlueprintEditor.jsx:22-24 | length and order are kept; fields with another id are unchanged, fields with the id get the edit; an absent id changes nothing |
| `BlueprintEditor.RemoveField` | contract-management/src/components/BlueprintEditor.jsx:26-28 | the result holds every copy of each field whose id differs and no field with the id; an absent id changes nothing |
| `BlueprintEditor.RemoveFieldKeepsOrder` | contract-management/src/components/BlueprintEditor.jsx:27 | survivors of a delete keep their relative order |
| `BlueprintEditor.PositionsCanRepeat` | contract-management/src/components/BlueprintEditor.jsx:17 | positions are not renumbered after a delete, so a later add can repeat the position of a remaining field |
| `BlueprintEditor.Draft.constructor` | contract-management/src/components/BlueprintEditor.jsx:7-9 | the editor opens on the edited blueprint's name and fields, or on an empty name and no fields |
| `BlueprintEditor.Draft.SetName` | contract-management/src/components/BlueprintEditor.jsx:53 | the name input replaces the name and leaves the fields |
| `BlueprintEditor.Draft.AddField` | contract-management/src/components/BlueprintEditor.jsx:12-20 | the field list becomes `AppendField` of the old one; the name is unchanged |
| `BlueprintEditor.Draft.UpdateField` | contract-management/src/components/BlueprintEditor.jsx:22-24 | the field list becomes `EditFields` of the old one; the name is unchanged |
| `BlueprintEditor.Draft.DeleteField` | contract-management/src/components/BlueprintEditor.jsx:26-28 | the field list becomes `RemoveField` of the old one; the name is unchanged |
| `BlueprintEditor.Draft.Save` | contract-management/src/components/BlueprintEditor.jsx:30-40 | fails with EmptyName iff the name is blank after trimming; fails with NoFields iff the name is not blank and there are no fields; otherwise yields the untrimmed name and the fields unchanged, with the edited blueprint's truthy id or else the fresh id |
| `JsText.BlankIffAllWhitespace` | contract-management/src/components/BlueprintEditor.jsx:31 | `!s.trim()` holds exactly when every character of `s` is JavaScript whitespace |
| `ContractForm.InputText` | contract-management/src/components/ContractForm.jsx:48 | a falsy or absent value shows as empty text; a stored string shows as itself |
| `ContractForm.Form.constructor` | contract-management/src/components/ContractForm.jsx:3-5 | the form starts with an empty name and no field values |
| `ContractForm.Form.SetContractName` | contract-management/src/components/ContractForm.jsx:35 | the name input replaces the name and leaves the values |
| `ContractForm.Form.OnTextInput` | contract-management/src/components/ContractForm.jsx:49 | a Text or Date change sets only that field's key to the typed string; every other key keeps its value |
| `ContractForm.Form.OnFileInput` | contract-management/src/components/ContractForm.jsx:65 | a file change sets only that field's key, to the first chosen file or to undefined |
| `ContractForm.Form.OnCheckboxInput` | contract-management/src/components/ContractForm.jsx:74 | a checkbox change sets only that field's key to the checked state |
| `ContractForm.Form.TextInputValue` | contract-management/src/components/ContractForm.jsx:48 | an absent value shows as `''` without being stored; a stored string shows as itself |
| `ContractForm.Form.CheckboxChecked` | contract-management/src/components/ContractForm.jsx:73 | an absent value shows as unchecked without being stored; a stored boolean shows as itself |
| `ContractForm.Form.Save` | contract-management/src/components/ContractForm.jsx:7-23 | fails with EmptyName iff the name is blank after trimming, never because of field values; on success the contract has status Created, the untrimmed name, the blueprint's id and name, and the values exactly as entered |
| `App.FindBlueprint` | contract-management/src/App.jsx:43 | finds nothing iff no blueprint has the id; otherwise the first blueprint with that id |
| `App.Upsert` | contract-management/src/App.jsx:16-21 | a truthy id already present replaces exactly the entries with that id, keeping length and all other entries; otherwise the blueprint is appended after the unchanged list |
| `App.RemoveBlueprint` | contract-management/src/App.jsx:25-29 | unconfirmed changes nothing; confirmed leaves no blueprint with the id and keeps every copy of every other blueprint; an absent id changes nothing |
| `App.RemoveBlueprintKeepsOrder` | contract-management/src/App.jsx:27 | survivors of a delete keep their relative order |
| `App.DeletedBlueprintIsGone` | contract-management/src/App.jsx:43 | after a confirmed delete, a contract made from that blueprint finds no blueprint to be shown against |
| `App.SetStatus` | contract-management/src/App.jsx:36-40 | contracts with the id get the new status with every other field kept; other contracts and the length are unchanged; no legality check |
| `App.IsActive` | contract-management/src/App.jsx:50-52 | a contract is active iff its status is not Locked or Revoked (unknown statuses are active) |
| `App.IsPending` | contract-management/src/App.jsx:53-55 | a contract is pending iff its status is Created, Approved or Sent |
| `App.IsSigned` | contract-management/src/App.jsx:56-58 | a contract counts as signed iff its status is Signed or Locked |
| `App.IsRevoked` | contract-management/src/App.jsx:167 | a contract counts as revoked iff its status is Revoked |
| `App.SignedCount` | contract-management/src/App.jsx:155 | the Signed count is at most the total, equals the number of contracts the 'signed' filter shows, and is zero iff no contract is Signed or Locked |
| `App.PendingCount` | contract-management/src/App.jsx:161 | the Pending count is at most the total, equals the number of contracts the 'pending' filter shows, and is zero iff no contract is Created, Approved or Sent |
| `App.RevokedContracts` | contract-management/src/App.jsx:167 | the contracts the Revoked count counts: every copy of each Revoked contract and nothing else |
| `App.RevokedCount` | contract-management/src/App.jsx:167 | the Revoked count is the number of Revoked contracts, counting copies (the length of `RevokedContracts`), at most the total, and zero iff no contract is Revoked |
| `App.FilteredContracts` | contract-management/src/App.jsx:48-60 | 'active', 'pending' and 'signed' keep every copy of each contract their predicate accepts and none of the others; 'all' and any other filter return the whole list |
| `App.FilteredContractsKeepOrder` | contract-management/src/App.jsx:48-60 | every filter result is an order-preserving subsequence of the contracts |
| `App.StatusClassesPartition` | contract-management/src/App.jsx:155-167 | each of the six statuses is in exactly one of the Signed, Pending and Revoked sets; other strings are in none |
| `App.CountsPartition` | contract-management/src/App.jsx:150-167 | the three counts never exceed the total and sum to it when every contract has one of the six statuses |
| `App.ClickAsWritten` | contract-management/src/App.jsx:36-45 | a status button of an open view sets the offered status on the contracts with the viewed id, keeping all their other fields, and leaves the rest untouched; the new status is ahead of the status seen when the view was opened |
| `App.FreshClickIsTransition` | contract-management/src/components/ContractView.jsx:89-96 | on a view that is not stale, the as-written click is exactly a successful checked transition, and with distinct ids it stays inside the table (`App.TransitionStaysInTable`) |
| `App.StaleViewLeavesTerminalStatus` | contract-management/src/App.jsx:42-45 | two clicks on the same open view take a Signed contract to Locked and then to Revoked, and a Created one to Revoked and then to Approved |
| `App.Transition` | contract-management/src/components/ContractView.jsx:89-96 | checked against the live contract: fails when no contract has the id; succeeds iff the target is offered for the live status, and then only sets that status; otherwise fails with IllegalTransition(live status, target); keeps every status one of the six |
| `App.TransitionStaysInTable` | contract-management/src/components/ContractView.jsx:89-96 | with distinct ids, every status a successful transition changes moves along the transition table |
| `App.Store.constructor` | contract-management/src/App.jsx:9-10 | both lists start empty |
| `App.Store.SaveBlueprint` | contract-management/src/App.jsx:16-23 | the blueprint list becomes `Upsert` of the old one; contracts are unchanged |
| `App.Store.DeleteBlueprint` | contract-management/src/App.jsx:25-29 | the blueprint list becomes `RemoveBlueprint` of the old one; contracts are unchanged |
| `App.Store.SaveContract` | contract-management/src/App.jsx:31-34 | the contract is appended after the unchanged contracts; blueprints are unchanged |
| `App.Store.UpdateContractStatus` | contract-management/src/App.jsx:36-40 | the contract list becomes `SetStatus` of the old one; blueprints are unchanged |
| `App.Store.BlueprintFor` | contract-management/src/App.jsx:42-46 | the contract is shown against the first stored blueprint with its blueprint id, and there is none iff no such blueprint is stored |
| `App.Store.TransitionContract` | contract-management/src/components/ContractView.jsx:89-96 | applies `Transition` to the stored contracts; a refused transition leaves the store unchanged |

## Findings

| source | as written | input that shows it | evidently intended | confidence | as-written member | corrected member |
|---|---|---|---|---|---|---|
| contract-management/src/App.jsx:42-45 | the open contract view keeps the contract as it was when opened, so after a click its buttons still come from the old status | open a Signed contract, click "Mark as Locked", then "Revoke Contract": the stored status goes Locked → Revoked (likewise Created → Revoked → Approved) | Locked and Revoked are terminal, and the buttons follow the contract's current status | high (not executed) | `App.StaleViewLeavesTerminalStatus` | `App.Transition` |

`App.ClickAsWritten` models the click as written, and
`App.StaleViewLeavesTerminalStatus` exhibits the two runs, while
`App.FreshClickIsTransition` shows the click is legal whenever the view is not
stale. `App.Transition`
checks the target against the live status, and `App.TransitionStaysInTable`
proves that every change it makes follows the transition table.
`App.Store.TransitionContract` uses it.

## Left out

- JSX markup, Tailwind classes (except the status badge lookup), icons, the `view`, `selectedBlueprint` and `filterStatus` state that switches screens, and the order in which fields are listed on screen (the `blueprint.fields.map` loops). The filter is a parameter of `App.FilteredContracts`.
- `App.jsx:62-72` holds a second `getStatusColor` identical to the one in ContractView.jsx. Both are modelled by `ContractView.StatusColor`.
- `confirm()` and `alert()` dialogs. The answer to `confirm` is the `confirmed` parameter, and each `alert` is an error result.
- `Date.now()` ids and `new Date().toISOString()` / `toLocaleDateString()`. Ids and the creation timestamp are parameters (`freshId`, `now`), and date formatting is not modelled.
- Browser `File` objects. A file is a value with only a name.
- React `useState` batching and re-rendering. Each handler is applied to the state as it is when it runs. The unused `draggedField` state is not modelled.
- `BlueprintEditor.ApplyEdit`: `updateField` can write any key with any value. The model covers the four declared field properties with values of their own types. The only caller writes `label`.
- `ContractView.StatusColor`: a lookup of a key inherited by JavaScript objects (such as `"toString"`) returns a non-string in the source. The model returns the grey fallback for every string that is not one of the six.
- `ContractView.DisplayValue`: when the live blueprint is missing, the source throws while reading its fields (ContractView.jsx:74). The model has no view for that case; `App.Store.BlueprintFor` returns None.
- `App.TransitionStaysInTable`: requires distinct contract ids. Ids come from the clock and are distinct in practice. With equal ids, one click rewrites every contract that carries the id.
