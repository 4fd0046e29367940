/** The application's store of blueprints and contracts, the dashboard's filters
    and counts, and the status change the contract view triggers (App.jsx). */
module App {
  import opened Wrappers
  import opened Domain
  import opened Seqs
  import opened ContractView

  predicate HasBlueprint(bps: seq<Blueprint>, id: int) {
    exists i :: 0 <= i < |bps| && bps[i].id == id
  }

  /** `blueprints.find(b => b.id === id)`: the first blueprint with that id. */
  function FindBlueprint(bps: seq<Blueprint>, id: int): (r: Option<Blueprint>)
    ensures r.None? <==> !HasBlueprint(bps, id)
    ensures r.Some? ==> exists k :: 0 <= k < |bps| && bps[k] == r.value && r.value.id == id &&
                                    forall j :: 0 <= j < k ==> bps[j].id != id
  {
    var k := FindIndex((b: Blueprint) => b.id == id, bps);
    if k < |bps| then Some(bps[k]) else None
  }

  /** handleSaveBlueprint: a blueprint whose id is truthy (non-zero) and already
      present replaces every entry with that id in place; any other blueprint is
      appended. */
  function Upsert(bps: seq<Blueprint>, bp: Blueprint): (r: seq<Blueprint>)
    ensures bp in r
    ensures bp.id != 0 && HasBlueprint(bps, bp.id) ==>
      |r| == |bps| &&
      (forall i :: 0 <= i < |bps| && bps[i].id != bp.id ==> r[i] == bps[i]) &&
      (forall i :: 0 <= i < |bps| && bps[i].id == bp.id ==> r[i] == bp)
    ensures !(bp.id != 0 && HasBlueprint(bps, bp.id)) ==>
      |r| == |bps| + 1 && r[..|bps|] == bps && r[|bps|] == bp
  {
    var k := FindIndex((b: Blueprint) => b.id == bp.id, bps);
    if bp.id != 0 && k < |bps| then
      var r := seq(|bps|, i requires 0 <= i < |bps| => if bps[i].id == bp.id then bp else bps[i]);
      assert r[k] == bp;
      r
    else
      bps + [bp]
  }

  /** The blueprint list after a delete of `id`: confirmed, every blueprint with
      that id goes and the others stay in order; not confirmed, nothing changes. */
  function RemoveBlueprint(bps: seq<Blueprint>, id: int, confirmed: bool): (r: seq<Blueprint>)
    ensures !confirmed ==> r == bps
    ensures confirmed ==> !HasBlueprint(r, id)
    ensures forall i :: 0 <= i < |r| ==> r[i] in bps
    ensures confirmed ==> forall i :: 0 <= i < |bps| && bps[i].id != id ==> bps[i] in r
    ensures confirmed ==> forall b :: multiset(r)[b] == if b.id != id then multiset(bps)[b] else 0
    ensures !HasBlueprint(bps, id) ==> r == bps
  {
    if confirmed then
      var keep := (b: Blueprint) => b.id != id;
      FilterMultiset(keep, bps);
      Filter(keep, bps)
    else bps
  }

  lemma RemoveBlueprintKeepsOrder(bps: seq<Blueprint>, id: int, confirmed: bool)
    ensures IsSubsequence(RemoveBlueprint(bps, id, confirmed), bps)
  {
    if confirmed {
      FilterIsSubsequence((b: Blueprint) => b.id != id, bps);
    } else {
      SubsequenceOfItself(bps);
    }
  }

  /** A contract is shown against the live blueprint found by its id, so once
      that blueprint is deleted there is nothing to show it against. */
  lemma DeletedBlueprintIsGone(bps: seq<Blueprint>, c: Contract)
    ensures FindBlueprint(RemoveBlueprint(bps, c.blueprintId, true), c.blueprintId).None?
  {
  }

  /** handleUpdateContractStatus: every contract with that id gets `status`,
      whatever its current status; nothing else changes. */
  function SetStatus(cs: seq<Contract>, id: int, status: string): (r: seq<Contract>)
    ensures |r| == |cs|
    ensures forall i :: 0 <= i < |cs| && cs[i].id == id ==> r[i] == cs[i].(status := status)
    ensures forall i :: 0 <= i < |cs| && cs[i].id != id ==> r[i] == cs[i]
  {
    seq(|cs|, i requires 0 <= i < |cs| => if cs[i].id == id then cs[i].(status := status) else cs[i])
  }

  /** The status of `c`, when it is one of the six. */
  function KnownStatus(c: Contract): Option<Status> {
    Parse(c.status)
  }

  /** The 'active' filter: not Locked and not Revoked. */
  predicate IsActive(c: Contract)
    ensures IsActive(c) <==> !(KnownStatus(c).Some? && IsTerminal(KnownStatus(c).value))
  {
    c.status != "Locked" && c.status != "Revoked"
  }

  /** The 'pending' filter and the Pending count: Created, Approved or Sent. */
  predicate IsPending(c: Contract)
    ensures IsPending(c) <==> KnownStatus(c).Some? && Index(KnownStatus(c).value) < 3
  {
    c.status == "Created" || c.status == "Approved" || c.status == "Sent"
  }

  /** The 'signed' filter and the Signed count: Signed or Locked. */
  predicate IsSigned(c: Contract)
    ensures IsSigned(c) <==> KnownStatus(c) == Some(Signed) || KnownStatus(c) == Some(Locked)
  {
    c.status == "Signed" || c.status == "Locked"
  }

  /** The Revoked count: Revoked. */
  predicate IsRevoked(c: Contract)
    ensures IsRevoked(c) <==> KnownStatus(c) == Some(Revoked)
  {
    c.status == "Revoked"
  }

  /** getFilteredContracts: 'active' keeps every copy of each contract not in a
      terminal status (unknown statuses included), 'pending' of each in Created,
      Approved or Sent, 'signed' of each in Signed or Locked, and nothing else;
      'all' and any other filter keep every contract. */
  function FilteredContracts(cs: seq<Contract>, filter: string): (r: seq<Contract>)
    ensures forall i :: 0 <= i < |r| ==> r[i] in cs
    ensures filter == "active" ==> forall c :: multiset(r)[c] == if IsActive(c) then multiset(cs)[c] else 0
    ensures filter == "pending" ==> forall c :: multiset(r)[c] == if IsPending(c) then multiset(cs)[c] else 0
    ensures filter == "signed" ==> forall c :: multiset(r)[c] == if IsSigned(c) then multiset(cs)[c] else 0
    ensures filter != "active" && filter != "pending" && filter != "signed" ==> r == cs
  {
    if filter == "all" then cs
    else if filter == "active" then FilterMultiset(IsActive, cs); Filter(IsActive, cs)
    else if filter == "pending" then FilterMultiset(IsPending, cs); Filter(IsPending, cs)
    else if filter == "signed" then FilterMultiset(IsSigned, cs); Filter(IsSigned, cs)
    else cs
  }

  lemma FilteredContractsKeepOrder(cs: seq<Contract>, filter: string)
    ensures IsSubsequence(FilteredContracts(cs, filter), cs)
  {
    if filter == "active" {
      FilterIsSubsequence(IsActive, cs);
    } else if filter == "pending" {
      FilterIsSubsequence(IsPending, cs);
    } else if filter == "signed" {
      FilterIsSubsequence(IsSigned, cs);
    } else {
      SubsequenceOfItself(cs);
    }
  }

  /** The dashboard's Signed count: the same contracts the 'signed' filter shows. */
  function SignedCount(cs: seq<Contract>): (n: nat)
    ensures n <= |cs| && n == |FilteredContracts(cs, "signed")|
    ensures n == 0 <==> forall i :: 0 <= i < |cs| ==> !IsSigned(cs[i])
  {
    |Filter(IsSigned, cs)|
  }

  /** The dashboard's Pending count: the same contracts the 'pending' filter shows. */
  function PendingCount(cs: seq<Contract>): (n: nat)
    ensures n <= |cs| && n == |FilteredContracts(cs, "pending")|
    ensures n == 0 <==> forall i :: 0 <= i < |cs| ==> !IsPending(cs[i])
  {
    |Filter(IsPending, cs)|
  }

  /** The contracts the Revoked count counts, every copy of each. */
  function RevokedContracts(cs: seq<Contract>): (r: seq<Contract>)
    ensures forall c :: multiset(r)[c] == if IsRevoked(c) then multiset(cs)[c] else 0
  {
    FilterMultiset(IsRevoked, cs);
    Filter(IsRevoked, cs)
  }

  /** The dashboard's Revoked count. */
  function RevokedCount(cs: seq<Contract>): (n: nat)
    ensures n <= |cs| && n == |RevokedContracts(cs)|
    ensures n == 0 <==> forall i :: 0 <= i < |cs| ==> !IsRevoked(cs[i])
  {
    var r := Filter(IsRevoked, cs);
    assert r != [] ==> r[0] in cs && IsRevoked(r[0]);
    |r|
  }

  /** The three counted status sets are disjoint and cover the six statuses. */
  lemma StatusClassesPartition(c: Contract)
    ensures KnownStatus(c).Some? ==>
      (if IsSigned(c) then 1 else 0) + (if IsPending(c) then 1 else 0) + (if IsRevoked(c) then 1 else 0) == 1
    ensures KnownStatus(c).None? ==> !IsSigned(c) && !IsPending(c) && !IsRevoked(c)
  {
  }

  predicate AllKnown(cs: seq<Contract>) {
    forall i :: 0 <= i < |cs| ==> KnownStatus(cs[i]).Some?
  }

  /** The counts never exceed the total, and add up to it when every contract has
      one of the six statuses. */
  lemma {:induction false} CountsPartition(cs: seq<Contract>)
    ensures SignedCount(cs) + PendingCount(cs) + RevokedCount(cs) <= |cs|
    ensures AllKnown(cs) ==> SignedCount(cs) + PendingCount(cs) + RevokedCount(cs) == |cs|
  {
    if cs != [] {
      FilterLengthSplits(IsSigned, cs);
      FilterLengthSplits(IsPending, cs);
      FilterLengthSplits(IsRevoked, cs);
      StatusClassesPartition(cs[0]);
      CountsPartition(cs[1..]);
      assert AllKnown(cs) ==> AllKnown(cs[1..]) by {
        if AllKnown(cs) {
          forall i | 0 <= i < |cs| - 1 ensures KnownStatus(cs[1..][i]).Some? {
            assert cs[1..][i] == cs[i + 1];
          }
        }
      }
    }
  }

  predicate UniqueIds(cs: seq<Contract>) {
    forall i, j :: 0 <= i < j < |cs| ==> cs[i].id != cs[j].id
  }

  /** The first contract with the given id. The source never looks a contract
      up by id; this lookup serves the checked transition below. */
  function FindContract(cs: seq<Contract>, id: int): (r: Option<Contract>)
    ensures r.None? <==> forall i :: 0 <= i < |cs| ==> cs[i].id != id
    ensures r.Some? ==> exists k :: 0 <= k < |cs| && cs[k] == r.value && r.value.id == id &&
                                    forall j :: 0 <= j < k ==> cs[j].id != id
  {
    var k := FindIndex((c: Contract) => c.id == id, cs);
    if k < |cs| then Some(cs[k]) else None
  }

  /** A status button of an open contract view, as written: the buttons come
      from `viewed`, the contract as it was when the view was opened, and the
      click rewrites the status of whichever contracts now carry its id. The new
      status is ahead of the viewed one, not necessarily of the live one. */
  function ClickAsWritten(cs: seq<Contract>, viewed: Contract, choice: Status): (r: seq<Contract>)
    requires choice in NextStatuses(viewed.status)
    ensures |r| == |cs|
    ensures forall i :: 0 <= i < |cs| && cs[i].id == viewed.id ==>
      r[i] == cs[i].(status := Name(choice))
    ensures forall i :: 0 <= i < |cs| && cs[i].id == viewed.id ==>
      KnownStatus(r[i]) == Some(choice) && Index(KnownStatus(viewed).value) < Index(choice)
    ensures forall i :: 0 <= i < |cs| && cs[i].id != viewed.id ==> r[i] == cs[i]
  {
    ParseName(choice);
    SetStatus(cs, viewed.id, Name(choice))
  }

  /** The view is not refreshed after a click, so a second button offered for
      the old status still works: a Signed contract is locked and then revoked,
      and a Created contract is revoked and then approved, leaving a terminal
      status both times. */
  lemma StaleViewLeavesTerminalStatus(c: Contract, d: Contract)
    requires c.status == "Signed" && d.status == "Created"
    ensures var locked := ClickAsWritten([c], c, Locked);
            var revoked := ClickAsWritten(locked, c, Revoked);
            locked[0].status == "Locked" && revoked[0].status == "Revoked" && !Allowed(Locked, Revoked)
    ensures var revoked := ClickAsWritten([d], d, Revoked);
            var approved := ClickAsWritten(revoked, d, Approved);
            revoked[0].status == "Revoked" && approved[0].status == "Approved" && !Allowed(Revoked, Approved)
  {
  }

  /** On a view that is not stale (the viewed contract is still the first one
      stored under its id) the as-written click is exactly a checked transition,
      so it stays inside the transition table when contract ids are distinct
      (`TransitionStaysInTable`). */
  lemma FreshClickIsTransition(cs: seq<Contract>, viewed: Contract, choice: Status)
    requires FindContract(cs, viewed.id) == Some(viewed)
    requires choice in NextStatuses(viewed.status)
    ensures Transition(cs, viewed.id, choice) == Success(ClickAsWritten(cs, viewed, choice))
  {
  }

  datatype TransitionError = NoSuchContract(id: int) | IllegalTransition(from: string, to: Status)

  /** The status change the workflow intends: the buttons are checked against
      the live status of the contract with that id, and a target outside the
      transition table is refused without changing anything. */
  function Transition(cs: seq<Contract>, id: int, target: Status): (r: Result<seq<Contract>, TransitionError>)
    ensures FindContract(cs, id).None? ==> r == Failure(NoSuchContract(id))
    ensures FindContract(cs, id).Some? ==>
      (r.Success? <==> target in NextStatuses(FindContract(cs, id).value.status))
    ensures FindContract(cs, id).Some? && r.Failure? ==>
      r.error == IllegalTransition(FindContract(cs, id).value.status, target)
    ensures r.Success? ==> r.value == SetStatus(cs, id, Name(target))
    ensures r.Success? && AllKnown(cs) ==> AllKnown(r.value)
  {
    match FindContract(cs, id)
    case None => Failure(NoSuchContract(id))
    case Some(live) =>
      if target in NextStatuses(live.status) then
        ParseName(target);
        Success(SetStatus(cs, id, Name(target)))
      else
        Failure(IllegalTransition(live.status, target))
  }

  /** With distinct contract ids, every status a successful transition changes
      moves along the transition table. */
  lemma TransitionStaysInTable(cs: seq<Contract>, id: int, target: Status)
    requires UniqueIds(cs)
    ensures Transition(cs, id, target).Success? ==>
      var r := Transition(cs, id, target).value;
      |r| == |cs| &&
      forall i :: 0 <= i < |cs| ==>
        r[i] == cs[i] ||
        (r[i] == cs[i].(status := Name(target)) &&
         KnownStatus(cs[i]).Some? && Allowed(KnownStatus(cs[i]).value, target))
  {
  }

  /** The app's state: the blueprint list and the contract list. */
  class Store {
    var blueprints: seq<Blueprint>
    var contracts: seq<Contract>

    constructor ()
      ensures blueprints == [] && contracts == []
    {
      blueprints := [];
      contracts := [];
    }

    method SaveBlueprint(bp: Blueprint)
      modifies this
      ensures blueprints == Upsert(old(blueprints), bp) && contracts == old(contracts)
    {
      blueprints := Upsert(blueprints, bp);
    }

    /** `confirmed` is the user's answer to the confirmation dialog. */
    method DeleteBlueprint(id: int, confirmed: bool)
      modifies this
      ensures blueprints == RemoveBlueprint(old(blueprints), id, confirmed) && contracts == old(contracts)
    {
      blueprints := RemoveBlueprint(blueprints, id, confirmed);
    }

    method SaveContract(c: Contract)
      modifies this
      ensures contracts == old(contracts) + [c] && blueprints == old(blueprints)
    {
      contracts := contracts + [c];
    }

    method UpdateContractStatus(id: int, newStatus: string)
      modifies this
      ensures contracts == SetStatus(old(contracts), id, newStatus) && blueprints == old(blueprints)
    {
      contracts := SetStatus(contracts, id, newStatus);
    }

    /** handleViewContract's lookup: the live blueprint the contract is shown against. */
    function BlueprintFor(c: Contract): (r: Option<Blueprint>)
      reads this
      ensures r.None? <==> !HasBlueprint(blueprints, c.blueprintId)
      ensures r.Some? ==> r.value in blueprints && r.value.id == c.blueprintId
      ensures r.Some? ==> exists k :: 0 <= k < |blueprints| && blueprints[k] == r.value &&
                                      forall j :: 0 <= j < k ==> blueprints[j].id != c.blueprintId
    {
      FindBlueprint(blueprints, c.blueprintId)
    }

    /** A status button checked against the live contract: an illegal target
        leaves the store as it was. */
    method TransitionContract(id: int, target: Status) returns (r: Result<(), TransitionError>)
      modifies this
      ensures r.Success? <==> Transition(old(contracts), id, target).Success?
      ensures r.Failure? ==> r.error == Transition(old(contracts), id, target).error && contracts == old(contracts)
      ensures r.Success? ==> contracts == Transition(old(contracts), id, target).value
      ensures blueprints == old(blueprints)
    {
      match Transition(contracts, id, target)
      case Success(next) =>
        contracts := next;
        r := Success(());
      case Failure(e) =>
        r := Failure(e);
    }
  }
}
