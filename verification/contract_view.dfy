/** The contract status workflow and the read-only rendering of a contract
    (components/ContractView.jsx). */
module ContractView {
  import opened Wrappers
  import opened Domain

  datatype Status = Created | Approved | Sent | Signed | Locked | Revoked

  /** CONTRACT_STATUSES: the six statuses in workflow order. */
  const ContractStatuses: seq<Status> := [Created, Approved, Sent, Signed, Locked, Revoked]

  /** The string the source stores in a contract's `status`. */
  function Name(s: Status): string {
    match s
    case Created => "Created"
    case Approved => "Approved"
    case Sent => "Sent"
    case Signed => "Signed"
    case Locked => "Locked"
    case Revoked => "Revoked"
  }

  /** The status a stored string names, if it names one of the six. */
  function Parse(name: string): (r: Option<Status>)
    ensures r.Some? ==> Name(r.value) == name
    ensures r.None? ==> forall s: Status :: Name(s) != name
  {
    if name == "Created" then Some(Created)
    else if name == "Approved" then Some(Approved)
    else if name == "Sent" then Some(Sent)
    else if name == "Signed" then Some(Signed)
    else if name == "Locked" then Some(Locked)
    else if name == "Revoked" then Some(Revoked)
    else None
  }

  lemma ParseName(s: Status)
    ensures Parse(Name(s)) == Some(s)
  {
  }

  /** `CONTRACT_STATUSES.indexOf(s)`. */
  function Index(s: Status): (i: nat)
    ensures i < |ContractStatuses| && ContractStatuses[i] == s
    ensures forall j :: 0 <= j < |ContractStatuses| && ContractStatuses[j] == s ==> j == i
  {
    match s
    case Created => 0
    case Approved => 1
    case Sent => 2
    case Signed => 3
    case Locked => 4
    case Revoked => 5
  }

  predicate IsTerminal(s: Status) {
    s == Locked || s == Revoked
  }

  /** getNextStatuses: the statuses the view offers as buttons for a contract
      whose stored status is `current`. */
  function NextStatuses(current: string): (r: seq<Status>)
    ensures Parse(current).None? ==> r == []
    ensures Parse(current).Some? && IsTerminal(Parse(current).value) ==> r == []
    ensures Parse(current).Some? && !IsTerminal(Parse(current).value) ==>
      r == [ContractStatuses[Index(Parse(current).value) + 1], Revoked]
    ensures forall t :: t in r ==> Parse(current).Some? && Index(Parse(current).value) < Index(t)
  {
    if current == "Locked" || current == "Revoked" then []
    else if current == "Created" then [Approved, Revoked]
    else if current == "Approved" then [Sent, Revoked]
    else if current == "Sent" then [Signed, Revoked]
    else if current == "Signed" then [Locked, Revoked]
    else []
  }

  /** One step of the workflow: `to` is offered for a contract in status `from`. */
  predicate Allowed(from: Status, to: Status)
  {
    to in NextStatuses(Name(from))
  }

  /** The transition table in terms of the status order: terminal statuses go
      nowhere, every other status goes to the next one in order or to Revoked. */
  lemma AllowedByIndex(from: Status, to: Status)
    ensures IsTerminal(from) ==> !Allowed(from, to)
    ensures !IsTerminal(from) ==>
      (Allowed(from, to) <==> to == Revoked || Index(to) == Index(from) + 1)
    ensures Allowed(from, to) ==> Index(from) < Index(to)
  {
  }

  /** A sequence of statuses each of which is offered from the one before. */
  ghost predicate IsRun(path: seq<Status>) {
    forall i :: 0 < i < |path| ==> Allowed(path[i - 1], path[i])
  }

  /** Along a run the status index grows by at least one per step, so no run
      returns to a status it has left. */
  lemma {:induction false} RunMovesForward(path: seq<Status>, i: nat, j: nat)
    requires IsRun(path)
    requires i <= j < |path|
    ensures Index(path[i]) + (j - i) <= Index(path[j])
    ensures i < j ==> path[i] != path[j]
    decreases j - i
  {
    if i < j {
      RunMovesForward(path, i, j - 1);
      AllowedByIndex(path[j - 1], path[j]);
    }
  }

  /** Every run has at most four transitions, every status before the last is
      non-terminal, and a run that cannot be extended ends in Locked or Revoked. */
  lemma RunsEnd(path: seq<Status>)
    requires IsRun(path)
    ensures |path| <= 5
    ensures forall i :: 0 <= i < |path| - 1 ==> !IsTerminal(path[i])
    ensures path != [] && NextStatuses(Name(path[|path| - 1])) == [] ==> IsTerminal(path[|path| - 1])
  {
    forall i | 0 <= i < |path| - 1
      ensures !IsTerminal(path[i])
    {
      AllowedByIndex(path[i], path[i + 1]);
    }
    if |path| >= 2 {
      var k := |path| - 2;
      RunMovesForward(path, 0, k);
      assert !IsTerminal(path[k]);
      assert Index(path[k]) <= 3;
    }
    if path != [] {
      ParseName(path[|path| - 1]);
    }
  }

  const GrayClass := "bg-gray-200 text-gray-700"

  /** getStatusColor: the badge classes for a status; anything that is not one
      of the six gets the same grey as Created. */
  function StatusColor(status: string): (r: string)
    ensures r == GrayClass <==> Parse(status).None? || Parse(status) == Some(Created)
  {
    if status == "Created" then GrayClass
    else if status == "Approved" then "bg-blue-200 text-blue-700"
    else if status == "Sent" then "bg-yellow-200 text-yellow-700"
    else if status == "Signed" then "bg-purple-200 text-purple-700"
    else if status == "Locked" then "bg-green-200 text-green-700"
    else if status == "Revoked" then "bg-red-200 text-red-700"
    else GrayClass
  }

  /** Different statuses get different badge colours. */
  lemma StatusColorsDistinct(a: Status, b: Status)
    ensures StatusColor(Name(a)) == StatusColor(Name(b)) ==> a == b
  {
  }

  const CheckedText := "\U{2713} Checked"
  const UncheckedText := "\U{2717} Unchecked"
  const NotProvided := "(Not provided)"

  /** The text shown for a field of type `t` whose stored value is `v`. None
      stands for a File object in a Text or Date field, which React cannot render. */
  function DisplayValue(t: FieldType, v: Option<FieldValue>): (r: Option<string>)
    ensures t == Checkbox ==> r == Some(if Truthy(v) then CheckedText else UncheckedText)
    ensures t == Signature && v.Some? && v.value.Upload? ==> r == Some(v.value.file.name)
    ensures t != Checkbox && !Truthy(v) ==> r == Some(NotProvided)
    ensures t != Checkbox && v.Some? && v.value.Str? && v.value.text != "" ==> r == Some(v.value.text)
    ensures t != Checkbox && v == Some(Bool(true)) ==> r == Some("")
    ensures r.None? <==> (t == Text || t == Date) && v.Some? && v.value.Upload?
  {
    if t == Checkbox then
      Some(if Truthy(v) then CheckedText else UncheckedText)
    else if t == Signature && v.Some? && v.value.Upload? then
      Some(v.value.file.name)
    else if !Truthy(v) then
      Some(NotProvided)
    else
      match v.value
      case Str(s) => Some(s)
      case Bool(_) => Some("")  // React renders `true` as nothing
      case Upload(_) => assert t.Text? || t.Date?; None
      case Undefined => Some(NotProvided)
  }

  /** Every value the contract form can store for a field displays as text. */
  lemma FormValuesDisplay(t: FieldType, v: FieldValue)
    requires Fits(t, v)
    ensures DisplayValue(t, Some(v)).Some?
  {
  }
}
