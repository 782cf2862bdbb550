/**
 The invariants of the test-suite plan: `_test_mesh_invariants` (flowguard_design/run_g4_review.py).
 Four maps from owned item to owning suites are grown in nested loops, with an accumulating flag.
 */
module OwnershipCover {
  import opened Basics

  datatype Field = LeafCells | InventoryItems | StateFields | SideEffects

  datatype Suite = Suite(
    id: string, planned: int, executed: int, notRun: int, failed: int, resultStatus: string,
    leafCells: seq<string>, inventoryItems: seq<string>, stateFields: seq<string>, sideEffects: seq<string>)
  {
    function Owned(field: Field): seq<string> {
      match field
      case LeafCells => leafCells
      case InventoryItems => inventoryItems
      case StateFields => stateFields
      case SideEffects => sideEffects
    }

    predicate Accounted() {
      planned == executed + notRun && failed <= executed
    }
  }

  datatype Plan = Plan(suites: seq<Suite>, requiredLeafCells: seq<string>, requiredInventoryItems: seq<string>)

  datatype Invariants = Invariants(
    suiteIdsExact: bool, suiteCount: nat, accountingOk: bool, allNotRun: bool,
    planned: int, executed: int, failed: int, notRun: int,
    leafOwnershipExact: bool, inventoryOwnershipExact: bool, stateOwnershipUnique: bool, effectOwnershipUnique: bool)

  type Owners = map<string, seq<string>>

  /** One suite's claim to one item. */
  datatype Claim = Claim(item: string, owner: string)

  function ClaimsOf(items: seq<string>, owner: string): seq<Claim> {
    seq(|items|, i requires 0 <= i < |items| => Claim(items[i], owner))
  }

  /** All claims of the first `n` suites, in order. */
  function Claims(suites: seq<Suite>, field: Field, n: nat): seq<Claim>
    requires n <= |suites|
  {
    if n == 0 then [] else Claims(suites, field, n - 1) + ClaimsOf(suites[n - 1].Owned(field), suites[n - 1].id)
  }

  /** The map the loops grow: to each claimed item, its claimants in order. */
  function OwnersOf(claims: seq<Claim>): Owners {
    if claims == [] then map[] else
    var m, last := OwnersOf(claims[..|claims| - 1]), claims[|claims| - 1];
    m[last.item := (if last.item in m then m[last.item] else []) + [last.owner]]
  }

  predicate Unique(owners: Owners) {
    forall item :: item in owners ==> |owners[item]| == 1
  }

  predicate Exact(owners: Owners, required: seq<string>) {
    owners.Keys == Elements(required) && Unique(owners)
  }

  function Total(suites: seq<Suite>, count: Suite -> int): int {
    if suites == [] then 0 else Total(suites[..|suites| - 1], count) + count(suites[|suites| - 1])
  }

  predicate AllAccounted(suites: seq<Suite>, n: nat)
    requires n <= |suites|
  {
    forall i :: 0 <= i < n ==> suites[i].Accounted()
  }

  /** `setdefault(item, []).append(owner)` */
  method Append(owners: Owners, item: string, owner: string) returns (r: Owners)
    ensures r == owners[item := (if item in owners then owners[item] else []) + [owner]]
  {
    r := owners;
    if item !in r {
      r := r[item := []];
    }
    r := r[item := r[item] + [owner]];
  }

  function AppendAll(owners: Owners, items: seq<string>, owner: string): Owners {
    if items == [] then owners else
    var m, item := AppendAll(owners, items[..|items| - 1], owner), items[|items| - 1];
    m[item := (if item in m then m[item] else []) + [owner]]
  }

  /** The owners among the first `n` suites. */
  function OwnersAmong(suites: seq<Suite>, field: Field, n: nat): Owners
    requires n <= |suites|
  {
    if n == 0 then map[] else AppendAll(OwnersAmong(suites, field, n - 1), suites[n - 1].Owned(field), suites[n - 1].id)
  }

  method AddSuite(owners: Owners, items: seq<string>, suiteId: string) returns (r: Owners)
    ensures r == AppendAll(owners, items, suiteId)
  {
    r := owners;
    for i := 0 to |items|
      invariant r == AppendAll(owners, items[..i], suiteId)
    {
      assert items[..i + 1][..i] == items[..i];
      r := Append(r, items[i], suiteId);
    }
    assert items[..|items|] == items;
  }

  method AddNext(suites: seq<Suite>, i: nat, field: Field, owners: Owners) returns (r: Owners)
    requires i < |suites| && owners == OwnersAmong(suites, field, i)
    ensures r == OwnersAmong(suites, field, i + 1)
  {
    r := AddSuite(owners, suites[i].Owned(field), suites[i].id);
  }

  method CollectOwners(suites: seq<Suite>)
    returns (leaf: Owners, inventory: Owners, state: Owners, effect: Owners, accountingOk: bool)
    ensures leaf == OwnersAmong(suites, LeafCells, |suites|)
    ensures inventory == OwnersAmong(suites, InventoryItems, |suites|)
    ensures state == OwnersAmong(suites, StateFields, |suites|)
    ensures effect == OwnersAmong(suites, SideEffects, |suites|)
    ensures accountingOk <==> AllAccounted(suites, |suites|)
  {
    leaf, inventory, state, effect := map[], map[], map[], map[];
    accountingOk := true;
    for i := 0 to |suites|
      invariant leaf == OwnersAmong(suites, LeafCells, i)
      invariant inventory == OwnersAmong(suites, InventoryItems, i)
      invariant state == OwnersAmong(suites, StateFields, i)
      invariant effect == OwnersAmong(suites, SideEffects, i)
      invariant accountingOk <==> AllAccounted(suites, i)
    {
      var suite := suites[i];
      accountingOk := accountingOk && suite.planned == suite.executed + suite.notRun;
      accountingOk := accountingOk && suite.failed <= suite.executed;
      leaf := AddNext(suites, i, LeafCells, leaf);
      inventory := AddNext(suites, i, InventoryItems, inventory);
      state := AddNext(suites, i, StateFields, state);
      effect := AddNext(suites, i, SideEffects, effect);
    }
  }

  function IdsOf(suites: seq<Suite>): seq<string> {
    seq(|suites|, i requires 0 <= i < |suites| => suites[i].id)
  }

  // ----- the maps, as lists of claims

  lemma OwnersGrow(claims: seq<Claim>, c: Claim)
    ensures var m := OwnersOf(claims);
      OwnersOf(claims + [c]) == m[c.item := (if c.item in m then m[c.item] else []) + [c.owner]]
  {
    assert (claims + [c])[..|claims|] == claims;
  }

  lemma {:induction false} AppendAllClaims(claims: seq<Claim>, items: seq<string>, owner: string)
    ensures AppendAll(OwnersOf(claims), items, owner) == OwnersOf(claims + ClaimsOf(items, owner))
  {
    if items == [] {
      assert claims + ClaimsOf(items, owner) == claims;
    } else {
      var n := |items| - 1;
      AppendAllClaims(claims, items[..n], owner);
      OwnersGrow(claims + ClaimsOf(items[..n], owner), Claim(items[n], owner));
      assert claims + ClaimsOf(items, owner) == claims + ClaimsOf(items[..n], owner) + [Claim(items[n], owner)];
    }
  }

  lemma {:induction false} OwnersAreClaims(suites: seq<Suite>, field: Field, n: nat)
    requires n <= |suites|
    ensures OwnersAmong(suites, field, n) == OwnersOf(Claims(suites, field, n))
  {
    if n > 0 {
      var before, items, id := Claims(suites, field, n - 1), suites[n - 1].Owned(field), suites[n - 1].id;
      OwnersAreClaims(suites, field, n - 1);
      AppendAllClaims(before, items, id);
    }
  }

  // ----- what the flags decide

  function ItemsOf(claims: seq<Claim>): seq<string> {
    seq(|claims|, i requires 0 <= i < |claims| => claims[i].item)
  }

  /** Every owned list of every suite, one after the other. */
  function AllOwned(suites: seq<Suite>, field: Field, n: nat): seq<string>
    requires n <= |suites|
  {
    if n == 0 then [] else AllOwned(suites, field, n - 1) + suites[n - 1].Owned(field)
  }

  function OwnedIn(plan: Plan, field: Field): seq<string> {
    AllOwned(plan.suites, field, |plan.suites|)
  }

  lemma {:induction false} ClaimedItems(suites: seq<Suite>, field: Field, n: nat)
    requires n <= |suites|
    ensures ItemsOf(Claims(suites, field, n)) == AllOwned(suites, field, n)
  {
    if n > 0 {
      ClaimedItems(suites, field, n - 1);
    }
  }

  lemma {:induction false} OwnersCount(claims: seq<Claim>, item: string)
    ensures item in OwnersOf(claims) <==> multiset(ItemsOf(claims))[item] > 0
    ensures item in OwnersOf(claims) ==> |OwnersOf(claims)[item]| == multiset(ItemsOf(claims))[item]
  {
    if claims != [] {
      var n := |claims| - 1;
      OwnersCount(claims[..n], item);
      assert ItemsOf(claims) == ItemsOf(claims[..n]) + [claims[n].item];
    }
  }

  lemma UniqueIffDistinct(claims: seq<Claim>)
    ensures Unique(OwnersOf(claims)) <==> forall item :: multiset(ItemsOf(claims))[item] <= 1
  {
    forall item
      ensures (item in OwnersOf(claims) ==> |OwnersOf(claims)[item]| == 1) <==> multiset(ItemsOf(claims))[item] <= 1
    {
      OwnersCount(claims, item);
    }
  }

  /** The exactness flag holds exactly when the suites' owned lists, taken together and with
      multiplicity, are the required items once each: nothing missing, nothing twice, nothing else. */
  lemma ExactIsPartition(suites: seq<Suite>, field: Field, required: seq<string>)
    ensures Exact(OwnersAmong(suites, field, |suites|), required) <==>
            multiset(AllOwned(suites, field, |suites|)) == multiset(Elements(required))
  {
    var claims := Claims(suites, field, |suites|);
    var owned, owners := AllOwned(suites, field, |suites|), OwnersOf(claims);
    ClaimedItems(suites, field, |suites|);
    OwnersAreClaims(suites, field, |suites|);
    forall item
      ensures item in owners <==> multiset(owned)[item] > 0
      ensures item in owners ==> |owners[item]| == multiset(owned)[item]
    {
      OwnersCount(claims, item);
    }
    if multiset(owned) == multiset(Elements(required)) {
      forall item
        ensures item in owners <==> item in Elements(required)
        ensures item in owners ==> |owners[item]| == 1
      {
        assert multiset(owned)[item] == multiset(Elements(required))[item];
      }
    }
  }

  lemma {:induction false} DistinctIffSingle(s: seq<string>)
    ensures NoDuplicates(s) <==> forall x :: multiset(s)[x] <= 1
  {
    if s != [] {
      var rest, last := s[..|s| - 1], s[|s| - 1];
      assert s == rest + [last];
      DistinctIffSingle(rest);
      NoDuplicatesConcat(rest, [last]);
      assert multiset(s)[last] == multiset(rest)[last] + 1;
      assert last in rest <==> multiset(rest)[last] > 0;
      forall x
        ensures x != last ==> multiset(s)[x] == multiset(rest)[x]
      {
      }
    }
  }

  /** The uniqueness flags hold exactly when no item is owned twice, by two suites or by one. */
  lemma UniqueIsDisjoint(suites: seq<Suite>, field: Field)
    ensures Unique(OwnersAmong(suites, field, |suites|)) <==> NoDuplicates(AllOwned(suites, field, |suites|))
  {
    ClaimedItems(suites, field, |suites|);
    OwnersAreClaims(suites, field, |suites|);
    UniqueIffDistinct(Claims(suites, field, |suites|));
    DistinctIffSingle(AllOwned(suites, field, |suites|));
  }

  /** When every suite's accounts are right, so are the totals. */
  lemma {:induction false} TotalsAccounted(suites: seq<Suite>)
    requires forall s :: s in suites ==> s.planned == s.executed + s.notRun && s.failed <= s.executed
    ensures Total(suites, (s: Suite) => s.planned) == Total(suites, (s: Suite) => s.executed) + Total(suites, (s: Suite) => s.notRun)
    ensures Total(suites, (s: Suite) => s.failed) <= Total(suites, (s: Suite) => s.executed)
  {
    if suites != [] {
      var n := |suites| - 1;
      TotalsAccounted(suites[..n]);
    }
  }

  lemma AccountedIff(suites: seq<Suite>)
    ensures AllAccounted(suites, |suites|) <==>
            forall s :: s in suites ==> s.planned == s.executed + s.notRun && s.failed <= s.executed
  {
    forall i | 0 <= i < |suites|
      ensures suites[i] in suites
    {
    }
  }

  method SameIds(suites: seq<Suite>, ids: seq<string>) returns (same: bool)
    ensures same <==> |suites| == |ids| && forall i :: 0 <= i < |suites| ==> suites[i].id == ids[i]
  {
    same := IdsOf(suites) == ids;
  }

  /** A total over no suites is nothing, over one its own count, and totals add up. */
  lemma {:induction false} TotalAdds(a: seq<Suite>, b: seq<Suite>, count: Suite -> int)
    ensures Total([], count) == 0 && forall s :: Total([s], count) == count(s)
    ensures Total(a + b, count) == Total(a, count) + Total(b, count)
  {
    forall s: Suite
      ensures Total([s], count) == count(s)
    {
      assert [s][..0] == [];
    }
    if b == [] {
      assert a + b == a;
    } else {
      assert (a + b)[..|a + b| - 1] == a + b[..|b| - 1];
      TotalAdds(a, b[..|b| - 1], count);
    }
  }

  /** The list of a suite for a field, by the name of the field. */
  predicate OwnsAs(s: Suite, field: Field, items: seq<string>) {
    && (field == LeafCells ==> items == s.leafCells) && (field == InventoryItems ==> items == s.inventoryItems)
    && (field == StateFields ==> items == s.stateFields) && (field == SideEffects ==> items == s.sideEffects)
  }

  lemma {:induction false} SamePrefixOwned(suites: seq<Suite>, field: Field, n: nat, k: nat)
    requires k <= n <= |suites|
    ensures AllOwned(suites[..n], field, k) == AllOwned(suites, field, k)
  {
    if k > 0 {
      SamePrefixOwned(suites, field, n, k - 1);
    }
  }

  /** An item is owned as often as the suites list it, all lists of the field taken together. */
  lemma {:induction false} OwnedCount(suites: seq<Suite>, field: Field, item: string, lists: Suite -> seq<string>)
    requires forall s :: OwnsAs(s, field, lists(s))
    ensures multiset(AllOwned(suites, field, |suites|))[item] == Total(suites, s => multiset(lists(s))[item])
  {
    if suites != [] {
      var n := |suites| - 1;
      OwnedCount(suites[..n], field, item, lists);
      SamePrefixOwned(suites, field, n, n);
      assert OwnsAs(suites[n], field, lists(suites[n]));
      assert AllOwned(suites, field, n + 1) == AllOwned(suites[..n], field, n) + lists(suites[n]);
    }
  }

  method Totals(suites: seq<Suite>) returns (planned: int, executed: int, failed: int, notRun: int)
    ensures planned == Total(suites, (s: Suite) => s.planned) && executed == Total(suites, (s: Suite) => s.executed)
    ensures failed == Total(suites, (s: Suite) => s.failed) && notRun == Total(suites, (s: Suite) => s.notRun)
    ensures (forall s :: s in suites ==> s.planned == s.executed + s.notRun && s.failed <= s.executed) ==>
              planned == executed + notRun && failed <= executed
  {
    planned, executed := Total(suites, (s: Suite) => s.planned), Total(suites, (s: Suite) => s.executed);
    failed, notRun := Total(suites, (s: Suite) => s.failed), Total(suites, (s: Suite) => s.notRun);
    if forall s :: s in suites ==> s.planned == s.executed + s.notRun && s.failed <= s.executed {
      TotalsAccounted(suites);
    }
  }

  method OwnedExactly(plan: Plan, field: Field, owners: Owners, required: seq<string>) returns (exact: bool)
    requires owners == OwnersAmong(plan.suites, field, |plan.suites|)
    ensures exact <==> multiset(OwnedIn(plan, field)) == multiset(Elements(required))
  {
    ExactIsPartition(plan.suites, field, required);
    exact := Exact(owners, required);
  }

  method OwnedOnce(plan: Plan, field: Field, owners: Owners) returns (once: bool)
    requires owners == OwnersAmong(plan.suites, field, |plan.suites|)
    ensures once <==> NoDuplicates(OwnedIn(plan, field))
  {
    UniqueIsDisjoint(plan.suites, field);
    once := Unique(owners);
  }

  /** The result of `_test_mesh_invariants`: each ownership flag decides a partition, or that nothing is owned
      twice, and the accounting flag vouches for the totals. */
  method TestMeshInvariants(plan: Plan, allTestSuites: seq<string>) returns (r: Invariants)
    ensures r.suiteIdsExact <==>
            |plan.suites| == |allTestSuites| && forall i :: 0 <= i < |plan.suites| ==> plan.suites[i].id == allTestSuites[i]
    ensures r.suiteCount == |plan.suites|
    ensures r.allNotRun <==> forall s :: s in plan.suites ==> s.resultStatus == "not_run"
    ensures r.planned == Total(plan.suites, (s: Suite) => s.planned)
    ensures r.executed == Total(plan.suites, (s: Suite) => s.executed)
    ensures r.failed == Total(plan.suites, (s: Suite) => s.failed)
    ensures r.notRun == Total(plan.suites, (s: Suite) => s.notRun)
    ensures r.accountingOk <==> forall s :: s in plan.suites ==> s.planned == s.executed + s.notRun && s.failed <= s.executed
    ensures r.accountingOk ==> r.planned == r.executed + r.notRun && r.failed <= r.executed
    ensures r.leafOwnershipExact <==> multiset(OwnedIn(plan, LeafCells)) == multiset(Elements(plan.requiredLeafCells))
    ensures r.inventoryOwnershipExact <==>
            multiset(OwnedIn(plan, InventoryItems)) == multiset(Elements(plan.requiredInventoryItems))
    ensures r.stateOwnershipUnique <==> NoDuplicates(OwnedIn(plan, StateFields))
    ensures r.effectOwnershipUnique <==> NoDuplicates(OwnedIn(plan, SideEffects))
  {
    var leaf, inventory, state, effect, accountingOk := CollectOwners(plan.suites);
    var leafExact := OwnedExactly(plan, LeafCells, leaf, plan.requiredLeafCells);
    var inventoryExact := OwnedExactly(plan, InventoryItems, inventory, plan.requiredInventoryItems);
    var stateUnique := OwnedOnce(plan, StateFields, state);
    var effectUnique := OwnedOnce(plan, SideEffects, effect);
    AccountedIff(plan.suites);
    var planned, executed, failed, notRun := Totals(plan.suites);
    var idsExact := SameIds(plan.suites, allTestSuites);
    r := Invariants(
      idsExact, |plan.suites|, accountingOk,
      forall s :: s in plan.suites ==> s.resultStatus == "not_run",
      planned, executed, failed, notRun,
      leafExact, inventoryExact, stateUnique, effectUnique);
  }
}
