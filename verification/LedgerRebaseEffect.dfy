/** What the rebased ledger looks like, row by row, and exactly when the rebase succeeds. */
module LedgerRebaseEffect {
  import opened Basics
  import opened LedgerRows
  import opened LedgerRowLaws
  import opened LedgerRebase
  import opened LedgerRebaseLaws

  /** The commitments the script adds. */
  function Missing(ids: seq<Id>): seq<Id> {
    (if Maintenance in ids then [] else [Maintenance]) + (if Gateway in ids then [] else [Gateway])
  }

  /** Every old row is still in its place, with nothing but its listed surfaces changed. */
  predicate Extends(a: seq<Commitment>, b: seq<Commitment>) {
    |a| <= |b| && forall i :: 0 <= i < |a| ==> b[i] == a[i].(surfaces := b[i].surfaces)
  }

  lemma EnsuringExtends(s: State, id: Id, f: Founding, surface: SurfaceId)
    requires WithCommitment(s, id, f, surface).Ok?
    ensures var r := WithCommitment(s, id, f, surface).value;
            Extends(s.commitments, r.commitments) &&
            Ids(r.commitments) == Ids(s.commitments) + (if id in Ids(s.commitments) then [] else [id])
  {
  }

  lemma SettingExtends(rows: seq<Commitment>, id: Id, surfaces: seq<SurfaceId>)
    requires WithSurfaces(rows, id, surfaces).Ok?
    ensures var r := WithSurfaces(rows, id, surfaces).value; Extends(rows, r) && Ids(r) == Ids(rows)
  {
    SettingSurfaces(rows, id, surfaces);
  }

  lemma MaintenanceExtends(s: State, script: Script)
    requires MaintenancePrepared(s, script).Ok?
    ensures var r := MaintenancePrepared(s, script).value;
            Extends(s.commitments, r.commitments) &&
            Ids(r.commitments) == Ids(s.commitments) + (if Maintenance in Ids(s.commitments) then [] else [Maintenance])
  {
    var s0 := s.(revision := script.revision, scope := "routine");
    EnsuringExtends(s0, Maintenance, script.maintenance, MaintenanceTasks);
    var s1 := WithCommitment(s0, Maintenance, script.maintenance, MaintenanceTasks).value;
    SettingExtends(s1.commitments, Maintenance, [MaintenanceTasks]);
  }

  lemma GatewayExtends(s: State, script: Script)
    requires WithGatewaySurface(s, script).Ok?
    ensures var r := WithGatewaySurface(s, script).value;
            Extends(s.commitments, r.commitments) && Ids(r.commitments) == Ids(s.commitments)
  {
    SettingExtends(s.commitments, Gateway, [GatewayTasks]);
  }

  lemma InstallationExtends(s: State, script: Script)
    requires WithInstallationSurfaces(s, script).Ok?
    ensures var r := WithInstallationSurfaces(s, script).value;
            Extends(s.commitments, r.commitments) && Ids(r.commitments) == Ids(s.commitments)
  {
    SettingExtends(s.commitments, FirstRun,
                   Appended([], SurfacesOf(s.commitments, FirstRun) + SurfaceIds(InstallationSurfaces(script))));
  }

  lemma ClosingExtends(s: State, script: Script)
    requires WithGatewaySurface(s, script).Ok?
    requires WithInstallationSurfaces(WithGatewaySurface(s, script).value, script).Ok?
    ensures var r := WithInstallationSurfaces(WithGatewaySurface(s, script).value, script).value;
            Extends(s.commitments, r.commitments) && Ids(r.commitments) == Ids(s.commitments)
  {
    GatewayExtends(s, script);
    InstallationExtends(WithGatewaySurface(s, script).value, script);
  }

  lemma ExtendsTransitive(a: seq<Commitment>, b: seq<Commitment>, c: seq<Commitment>)
    requires Extends(a, b) && Extends(b, c)
    ensures Extends(a, c)
  {
  }

  lemma LaterStepsExtend(s: State, script: Script)
    requires LaterPrepared(s, script).Ok?
    ensures var r := LaterPrepared(s, script).value;
            Extends(s.commitments, r.commitments) &&
            Ids(r.commitments) == Ids(s.commitments) + (if Gateway in Ids(s.commitments) then [] else [Gateway])
  {
    var next := WithCommitment(s, Gateway, script.gateway, GatewayTasks).value;
    EnsuringExtends(s, Gateway, script.gateway, GatewayTasks);
    ClosingExtends(next, script);
    ExtendsTransitive(s.commitments, next.commitments, LaterPrepared(s, script).value.commitments);
  }

  lemma PreparedExtends(s: State, script: Script)
    requires Prepared(s, script).Ok?
    ensures var r := Prepared(s, script).value;
            Extends(s.commitments, r.commitments) && Ids(r.commitments) == Ids(s.commitments) + Missing(Ids(s.commitments))
  {
    var s2 := MaintenancePrepared(s, script).value;
    MaintenanceExtends(s, script);
    LaterStepsExtend(s2, script);
    ExtendsTransitive(s.commitments, s2.commitments, Prepared(s, script).value.commitments);
  }

  /** Only active rows are invalidated; a retired row keeps its evidence, its authority and its writes. */
  predicate Treated(before: Commitment, after: Commitment, script: Script) {
    after.id == before.id && after.replacement == before.replacement &&
    (Active(before) ==> Invalidated(after, script)) &&
    (Active(before) && TakesModelWrites(before.id) ==>
       before.owner in script.models && after.stateWrites == script.models[before.owner]) &&
    (!Active(before) ==>
       after == before.(rest := before.rest + Updates(before.id, script), surfaces := after.surfaces, relations := after.relations))
  }

  lemma RowTreated(before: Commitment, ready: Commitment, script: Script)
    requires ready == before.(surfaces := ready.surfaces) && Rewritten(ready, script).Ok?
    ensures Treated(before, GatewayInvokes(Rewritten(ready, script).value), script)
  {
    TurnInvalidates(ready, script);
    TurnKeeps(ready, script);
    if Active(ready) && TakesModelWrites(ready.id) {
      ModelWritesWin(ready, script);
    }
  }

  /**
   After the rebase every active commitment has stale evidence and a blocked primary path, the two commitments the
   script owns exist, every old row is in its place, and nothing else of a retired row than its wording is rewritten.
   */
  lemma RebaseEffect(s: State, script: Script)
    requires Rebased(s, script).Ok?
    ensures var r := Rebased(s, script).value;
            Ids(r.commitments) == Ids(s.commitments) + Missing(Ids(s.commitments)) &&
            (forall i :: 0 <= i < |s.commitments| ==> Treated(s.commitments[i], r.commitments[i], script)) &&
            (forall row :: row in r.commitments && Active(row) ==> Invalidated(row, script))
  {
    var ready, r := Prepared(s, script).value, Rebased(s, script).value;
    PreparedExtends(s, script);
    RowsEach(ready.commitments, script);
    var turned := RowsRewritten(ready.commitments, script).value;
    forall i | 0 <= i < |turned|
      ensures Treated(ready.commitments[i], r.commitments[i], script)
      ensures i < |s.commitments| ==> Treated(s.commitments[i], r.commitments[i], script)
    {
      RowTreated(ready.commitments[i], ready.commitments[i], script);
      if i < |s.commitments| {
        RowTreated(s.commitments[i], ready.commitments[i], script);
      }
    }
    assert Ids(r.commitments) == Ids(ready.commitments);
  }

  /** The work-package commitment can serve as the template of a new one. */
  predicate TemplateUsable(rows: seq<Commitment>) {
    match First(Ids(rows), WorkPackage)
    case None => false
    case Some(i) => rows[i].evidence.Some? && rows[i].authority.Some?
  }

  lemma TemplateStays(a: seq<Commitment>, b: seq<Commitment>, more: seq<Id>)
    requires Extends(a, b) && Ids(b) == Ids(a) + more && WorkPackage !in more
    ensures TemplateUsable(a) <==> TemplateUsable(b)
  {
    if WorkPackage in Ids(a) {
      FirstInPrefix(Ids(a), more, WorkPackage);
    }
  }

  /** The owning models are there of the active rows that take their writes from one. */
  predicate ModelsKnown(rows: seq<Commitment>, script: Script) {
    forall row :: row in rows && Active(row) && TakesModelWrites(row.id) ==> row.owner in script.models
  }

  /** The rows and models the script looks up are there. */
  predicate Rebasable(s: State, script: Script) {
    (Missing(Ids(s.commitments)) == [] || TemplateUsable(s.commitments)) &&
    PrivateFirstRunTasks in SurfaceIds(s.surfaces) && FirstRun in Ids(s.commitments) &&
    ModelsKnown(s.commitments, script)
  }

  lemma LoopSucceedsIff(rows: seq<Commitment>, script: Script)
    ensures RowsRewritten(rows, script).Ok? <==> ModelsKnown(rows, script)
  {
    RowsEach(rows, script);
    forall i | 0 <= i < |rows|
      ensures Rewritten(rows[i], script).Ok? <==> (Active(rows[i]) && TakesModelWrites(rows[i].id) ==> rows[i].owner in script.models)
    {
      TurnSucceedsIff(rows[i], script);
    }
  }

  lemma MaintenanceSucceedsIff(s: State, script: Script)
    ensures MaintenancePrepared(s, script).Ok? <==>
            (Maintenance in Ids(s.commitments) || TemplateUsable(s.commitments)) && PrivateFirstRunTasks in SurfaceIds(s.surfaces)
  {
    var s0 := s.(revision := script.revision, scope := "routine");
    var first := WithCommitment(s0, Maintenance, script.maintenance, MaintenanceTasks);
    if first.Ok? {
      EnsuringAdds(s0, Maintenance, script.maintenance, MaintenanceTasks);
      SettingSurfaces(first.value.commitments, Maintenance, [MaintenanceTasks]);
    }
  }

  lemma ClosingSucceedsIff(s: State, script: Script)
    requires Gateway in Ids(s.commitments)
    requires MaintenanceTasks in SurfaceIds(s.surfaces) && PrivateFirstRunTasks in SurfaceIds(s.surfaces)
    ensures WithGatewaySurface(s, script).Ok?
    ensures WithInstallationSurfaces(WithGatewaySurface(s, script).value, script).Ok? <==> FirstRun in Ids(s.commitments)
  {
    SettingSurfaces(s.commitments, Gateway, [GatewayTasks]);
    var bound := WithGatewaySurface(s, script).value;
    var t := s.surfaces[FindSurface(s.surfaces, MaintenanceTasks).value];
    UpsertedKeeps(s.surfaces, t, GatewaySurface(script), PrivateFirstRunTasks);
    if FirstRun in Ids(bound.commitments) {
      SettingSurfaces(bound.commitments, FirstRun,
                      Appended([], SurfacesOf(bound.commitments, FirstRun) + SurfaceIds(InstallationSurfaces(script))));
    }
  }

  lemma LaterStepsSucceedIff(s2: State, script: Script)
    requires MaintenanceReady(s2, script)
    ensures LaterPrepared(s2, script).Ok? <==>
            (Gateway in Ids(s2.commitments) || TemplateUsable(s2.commitments)) && FirstRun in Ids(s2.commitments)
  {
    var third := WithCommitment(s2, Gateway, script.gateway, GatewayTasks);
    if third.Ok? {
      EnsuringAdds(s2, Gateway, script.gateway, GatewayTasks);
      EnsuringExtends(s2, Gateway, script.gateway, GatewayTasks);
      assert FirstRun in Ids(third.value.commitments) <==> FirstRun in Ids(s2.commitments);
      ClosingSucceedsIff(third.value, script);
    }
  }

  lemma PreparedSucceedsIff(s: State, script: Script)
    ensures Prepared(s, script).Ok? <==>
            (Missing(Ids(s.commitments)) == [] || TemplateUsable(s.commitments)) &&
            PrivateFirstRunTasks in SurfaceIds(s.surfaces) && FirstRun in Ids(s.commitments)
  {
    MaintenanceSucceedsIff(s, script);
    if MaintenancePrepared(s, script).Ok? {
      var s2, ids := MaintenancePrepared(s, script).value, Ids(s.commitments);
      MaintenanceExtends(s, script);
      MaintenancePreparedReady(s, script);
      TemplateStays(s.commitments, s2.commitments, if Maintenance in ids then [] else [Maintenance]);
      LaterStepsSucceedIff(s2, script);
    }
  }

  /** Neither added row takes its writes from a model. */
  lemma OwnedRowsAreOld(a: seq<Commitment>, b: seq<Commitment>)
    requires Extends(a, b) && Ids(b) == Ids(a) + Missing(Ids(a))
    ensures forall row :: row in b && TakesModelWrites(row.id) ==> exists i :: 0 <= i < |a| && row == b[i]
    ensures forall i :: 0 <= i < |a| ==> b[i] in b && b[i].owner == a[i].owner && b[i].id == a[i].id && Active(b[i]) == Active(a[i])
  {
    forall row | row in b && TakesModelWrites(row.id)
      ensures exists i :: 0 <= i < |a| && row == b[i]
    {
      var i :| 0 <= i < |b| && b[i] == row;
      assert Ids(b)[i] == row.id;
    }
  }

  lemma OwnedModelsAreOld(a: seq<Commitment>, b: seq<Commitment>, script: Script)
    requires Extends(a, b) && Ids(b) == Ids(a) + Missing(Ids(a))
    ensures ModelsKnown(a, script) <==> ModelsKnown(b, script)
  {
    OwnedRowsAreOld(a, b);
  }

  /** The script succeeds exactly when the rows and models it looks up are there. */
  lemma RebaseSucceedsIff(s: State, script: Script)
    ensures Rebased(s, script).Ok? <==> Rebasable(s, script)
  {
    PreparedSucceedsIff(s, script);
    if Prepared(s, script).Ok? {
      var ready := Prepared(s, script).value;
      PreparedExtends(s, script);
      LoopSucceedsIff(ready.commitments, script);
      OwnedModelsAreOld(s.commitments, ready.commitments, script);
    }
  }

  predicate Invoked(rel: Relation) {
    rel.target == ObjectBrowser || rel.target == Maintenance ==> rel.kind == "invokes"
  }

  lemma PointedLeads(surfaces: seq<Surface>, script: Script)
    ensures forall surface :: surface in AllPointed(surfaces, script) && Release in surface.commitments ==>
                              surface.path == Some(script.releasePath)
  {
  }

  lemma GatewayInvokesAll(rows: seq<Commitment>)
    ensures forall row, rel :: row in GatewaysInvoke(rows) && row.id == Gateway && rel in row.relations ==> Invoked(rel)
  {
    forall row, rel | row in GatewaysInvoke(rows) && row.id == Gateway && rel in row.relations
      ensures Invoked(rel)
    {
      var i :| 0 <= i < |rows| && GatewaysInvoke(rows)[i] == row;
      assert row.relations == AllInvoking(rows[i].relations);
    }
  }

  /** Every release surface leads to the release path, and the gateway invokes what it used to take evidence from. */
  lemma RebaseLinks(s: State, script: Script)
    requires Rebased(s, script).Ok?
    ensures var r := Rebased(s, script).value;
            (forall surface :: surface in r.surfaces && Release in surface.commitments ==> surface.path == Some(script.releasePath)) &&
            (forall row, rel :: row in r.commitments && row.id == Gateway && rel in row.relations ==> Invoked(rel))
  {
    var ready := Prepared(s, script).value;
    var rows := RowsRewritten(ready.commitments, script).value;
    PointedLeads(ready.surfaces, script);
    GatewayInvokesAll(rows);
  }
}
