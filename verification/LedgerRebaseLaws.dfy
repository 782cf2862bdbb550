/**
 The rebase is idempotent, and what the rebased ledger looks like.
 `Ready` is what the preparation establishes; a ready ledger is left alone by the preparation, and the row loop
 and the two closing passes keep it ready.
 */
module LedgerRebaseLaws {
  import opened Basics
  import opened LedgerRows
  import opened LedgerRowLaws
  import opened LedgerRebase

  lemma {:induction false} FirstUnique<T>(ids: seq<T>, id: T, i: nat)
    requires i < |ids| && ids[i] == id && id !in ids[..i]
    ensures First(ids, id) == Some(i)
  {
    if i > 0 {
      assert ids[0] in ids[..i] && ids[1..][..i - 1] == ids[..i][1..];
      FirstUnique(ids[1..], id, i - 1);
    }
  }

  lemma FirstInPrefix<T>(ids: seq<T>, more: seq<T>, id: T)
    requires id in ids
    ensures First(ids + more, id) == First(ids, id)
  {
    var i := First(ids, id).value;
    assert (ids + more)[..i] == ids[..i];
    FirstUnique(ids + more, id, i);
  }

  lemma FirstAppended<T>(ids: seq<T>, id: T)
    requires id !in ids
    ensures First(ids + [id], id) == Some(|ids|)
  {
    assert (ids + [id])[..|ids|] == ids;
    FirstUnique(ids + [id], id, |ids|);
  }

  // The surfaces.

  /** The surface of `d.id` is there and already says what `d` says. */
  predicate Holds(surfaces: seq<Surface>, d: Surface) {
    match First(SurfaceIds(surfaces), d.id)
    case None => false
    case Some(i) => Stamped(surfaces[i], d) == surfaces[i]
  }

  /** The first row of `id` is the same row in both lists. */
  predicate SameSurface(a: seq<Surface>, b: seq<Surface>, id: SurfaceId) {
    id in SurfaceIds(a) && First(SurfaceIds(b), id) == First(SurfaceIds(a), id) &&
    var i := First(SurfaceIds(a), id).value; a[i] == b[i]
  }

  lemma StampedAgain(row: Surface, d: Surface)
    ensures Stamped(Stamped(row, d), d) == Stamped(row, d)
  {
    MergeAgain(row.rest, d.rest, map[]);
  }

  lemma ReplacedIds(surfaces: seq<Surface>, i: nat, row: Surface)
    requires i < |surfaces| && row.id == surfaces[i].id
    ensures SurfaceIds(surfaces[i := row]) == SurfaceIds(surfaces)
  {
  }

  lemma UpsertedHolds(surfaces: seq<Surface>, template: Surface, d: Surface)
    ensures Holds(Upserted(surfaces, template, d), d)
  {
    var ids := SurfaceIds(surfaces);
    match First(ids, d.id)
    case None =>
      assert SurfaceIds(surfaces + [Stamped(template, d)]) == ids + [d.id];
      FirstAppended(ids, d.id);
      StampedAgain(template, d);
    case Some(i) =>
      ReplacedIds(surfaces, i, Stamped(surfaces[i], d));
      StampedAgain(surfaces[i], d);
  }

  lemma UpsertedKeeps(surfaces: seq<Surface>, template: Surface, d: Surface, id: SurfaceId)
    requires id in SurfaceIds(surfaces) && id != d.id
    ensures SameSurface(surfaces, Upserted(surfaces, template, d), id)
  {
    var ids := SurfaceIds(surfaces);
    match First(ids, d.id)
    case None =>
      assert SurfaceIds(surfaces + [Stamped(template, d)]) == ids + [d.id];
      FirstInPrefix(ids, [d.id], id);
    case Some(i) =>
      ReplacedIds(surfaces, i, Stamped(surfaces[i], d));
  }

  lemma UpsertedAgain(surfaces: seq<Surface>, template: Surface, d: Surface)
    requires Holds(surfaces, d)
    ensures Upserted(surfaces, template, d) == surfaces
  {
  }

  lemma {:induction false} UpsertedAllKeeps(surfaces: seq<Surface>, template: Surface, ds: seq<Surface>, id: SurfaceId)
    requires id in SurfaceIds(surfaces) && forall d :: d in ds ==> d.id != id
    ensures SameSurface(surfaces, UpsertedAll(surfaces, template, ds), id)
  {
    if ds != [] {
      UpsertedAllKeeps(surfaces, template, ds[..|ds| - 1], id);
      UpsertedKeeps(UpsertedAll(surfaces, template, ds[..|ds| - 1]), template, ds[|ds| - 1], id);
    }
  }

  lemma {:induction false} UpsertedAllHolds(surfaces: seq<Surface>, template: Surface, ds: seq<Surface>)
    requires forall i, j :: 0 <= i < j < |ds| ==> ds[i].id != ds[j].id
    ensures forall d :: d in ds ==> Holds(UpsertedAll(surfaces, template, ds), d)
  {
    if ds != [] {
      var before, last := UpsertedAll(surfaces, template, ds[..|ds| - 1]), ds[|ds| - 1];
      UpsertedAllHolds(surfaces, template, ds[..|ds| - 1]);
      UpsertedHolds(before, template, last);
      forall d | d in ds && d != last
        ensures Holds(Upserted(before, template, last), d)
      {
        assert d in ds[..|ds| - 1];
        UpsertedKeeps(before, template, last, d.id);
      }
    }
  }

  lemma {:induction false} UpsertedAllAgain(surfaces: seq<Surface>, template: Surface, ds: seq<Surface>)
    requires forall d :: d in ds ==> Holds(surfaces, d)
    ensures UpsertedAll(surfaces, template, ds) == surfaces
  {
    if ds != [] {
      UpsertedAllAgain(surfaces, template, ds[..|ds| - 1]);
      UpsertedAgain(surfaces, template, ds[|ds| - 1]);
    }
  }

  /** The private-first-run surface no longer claims the maintenance commitment or its intent. */
  predicate FirstRunReleased(surfaces: seq<Surface>, script: Script) {
    match First(SurfaceIds(surfaces), PrivateFirstRunTasks)
    case None => false
    case Some(i) => Released(surfaces[i], script.maintenance.intent) == surfaces[i]
  }

  predicate SurfacesReady(surfaces: seq<Surface>, script: Script) {
    FirstRunReleased(surfaces, script) &&
    Holds(surfaces, MaintenanceSurface(script)) && Holds(surfaces, GatewaySurface(script)) &&
    forall d :: d in InstallationSurfaces(script) ==> Holds(surfaces, d)
  }

  lemma ReleasedAgain(row: Surface, intent: string)
    ensures Released(Released(row, intent), intent) == Released(row, intent)
  {
    KeptAll(Kept(row.commitments, NotMaintenance), NotMaintenance);
    KeptAll(Kept(row.intents, NotIntent(intent)), NotIntent(intent));
  }

  function MaintenanceBound(surfaces: seq<Surface>, i: nat, script: Script): seq<Surface>
    requires i < |surfaces|
  {
    var template := Released(surfaces[i], script.maintenance.intent);
    Upserted(surfaces[i := template], template, MaintenanceSurface(script))
  }

  lemma MaintenanceBinds(surfaces: seq<Surface>, i: nat, script: Script)
    requires First(SurfaceIds(surfaces), PrivateFirstRunTasks) == Some(i)
    ensures FirstRunReleased(MaintenanceBound(surfaces, i, script), script)
    ensures Holds(MaintenanceBound(surfaces, i, script), MaintenanceSurface(script))
  {
    var template := Released(surfaces[i], script.maintenance.intent);
    ReleasedAgain(surfaces[i], script.maintenance.intent);
    ReplacedIds(surfaces, i, template);
    UpsertedHolds(surfaces[i := template], template, MaintenanceSurface(script));
    UpsertedKeeps(surfaces[i := template], template, MaintenanceSurface(script), PrivateFirstRunTasks);
  }

  lemma MaintenanceBindsAgain(surfaces: seq<Surface>, i: nat, script: Script)
    requires First(SurfaceIds(surfaces), PrivateFirstRunTasks) == Some(i)
    requires FirstRunReleased(surfaces, script) && Holds(surfaces, MaintenanceSurface(script))
    ensures MaintenanceBound(surfaces, i, script) == surfaces
  {
    assert surfaces[i := Released(surfaces[i], script.maintenance.intent)] == surfaces;
    UpsertedAgain(surfaces, surfaces[i], MaintenanceSurface(script));
  }

  lemma InstallationKeeps(surfaces: seq<Surface>, u: Surface, d: Surface, script: Script)
    requires Holds(surfaces, d) && d.id != PublicSkill && d.id != PublicReadme && d.id != PluginMetadata
    ensures Holds(UpsertedAll(surfaces, u, InstallationSurfaces(script)), d)
  {
    UpsertedAllKeeps(surfaces, u, InstallationSurfaces(script), d.id);
  }

  lemma InstallationKeepsReleased(surfaces: seq<Surface>, u: Surface, script: Script)
    requires FirstRunReleased(surfaces, script)
    ensures FirstRunReleased(UpsertedAll(surfaces, u, InstallationSurfaces(script)), script)
  {
    UpsertedAllKeeps(surfaces, u, InstallationSurfaces(script), PrivateFirstRunTasks);
  }

  lemma InstallationBinds(surfaces: seq<Surface>, u: Surface, script: Script)
    requires FirstRunReleased(surfaces, script)
    requires Holds(surfaces, MaintenanceSurface(script)) && Holds(surfaces, GatewaySurface(script))
    ensures SurfacesReady(UpsertedAll(surfaces, u, InstallationSurfaces(script)), script)
  {
    UpsertedAllHolds(surfaces, u, InstallationSurfaces(script));
    InstallationKeepsReleased(surfaces, u, script);
    InstallationKeeps(surfaces, u, MaintenanceSurface(script), script);
    InstallationKeeps(surfaces, u, GatewaySurface(script), script);
  }

  /** Binding the later surfaces keeps what the maintenance step established and completes `SurfacesReady`. */
  lemma LaterSurfacesBind(surfaces: seq<Surface>, t: Surface, u: Surface, script: Script)
    requires FirstRunReleased(surfaces, script) && Holds(surfaces, MaintenanceSurface(script))
    ensures SurfacesReady(UpsertedAll(Upserted(surfaces, t, GatewaySurface(script)), u, InstallationSurfaces(script)), script)
  {
    var bound, ds := Upserted(surfaces, t, GatewaySurface(script)), InstallationSurfaces(script);
    UpsertedHolds(surfaces, t, GatewaySurface(script));
    UpsertedKeeps(surfaces, t, GatewaySurface(script), PrivateFirstRunTasks);
    UpsertedKeeps(surfaces, t, GatewaySurface(script), MaintenanceTasks);
    InstallationBinds(bound, u, script);
  }

  lemma PointedHolds(surfaces: seq<Surface>, d: Surface, script: Script)
    requires Holds(surfaces, d) && Release !in d.commitments
    ensures Holds(AllPointed(surfaces, script), d)
  {
    assert SurfaceIds(AllPointed(surfaces, script)) == SurfaceIds(surfaces);
  }

  lemma PointedKeepsReady(surfaces: seq<Surface>, script: Script)
    requires SurfacesReady(surfaces, script)
    ensures SurfacesReady(AllPointed(surfaces, script), script)
  {
    assert SurfaceIds(AllPointed(surfaces, script)) == SurfaceIds(surfaces);
    PointedHolds(surfaces, MaintenanceSurface(script), script);
    PointedHolds(surfaces, GatewaySurface(script), script);
    forall d | d in InstallationSurfaces(script)
      ensures Holds(AllPointed(surfaces, script), d)
    {
      PointedHolds(surfaces, d, script);
    }
  }

  // The commitments.

  /** The surfaces listed by the first commitment `id`. */
  function SurfacesOf(rows: seq<Commitment>, id: Id): seq<SurfaceId>
    requires id in Ids(rows)
  {
    rows[First(Ids(rows), id).value].surfaces
  }

  predicate FirstRunListed(surfaces: seq<SurfaceId>, script: Script) {
    Appended([], surfaces + SurfaceIds(InstallationSurfaces(script))) == surfaces
  }

  predicate CommitmentsReady(rows: seq<Commitment>, script: Script) {
    Maintenance in Ids(rows) && Gateway in Ids(rows) && FirstRun in Ids(rows) &&
    SurfacesOf(rows, Maintenance) == [MaintenanceTasks] && SurfacesOf(rows, Gateway) == [GatewayTasks] &&
    FirstRunListed(SurfacesOf(rows, FirstRun), script)
  }

  lemma SettingSurfaces(rows: seq<Commitment>, id: Id, surfaces: seq<SurfaceId>)
    requires id in Ids(rows)
    ensures WithSurfaces(rows, id, surfaces).Ok?
    ensures var after := WithSurfaces(rows, id, surfaces).value;
            Ids(after) == Ids(rows) && SurfacesOf(after, id) == surfaces &&
            forall other :: other in Ids(rows) && other != id ==> SurfacesOf(after, other) == SurfacesOf(rows, other)
    ensures surfaces == SurfacesOf(rows, id) ==> WithSurfaces(rows, id, surfaces).value == rows
  {
    var i := First(Ids(rows), id).value;
    var after := rows[i := rows[i].(surfaces := surfaces)];
    assert Ids(after) == Ids(rows);
  }

  /** The same ids in the same places, and the same surfaces but for the release row. */
  predicate SameBindings(a: seq<Commitment>, b: seq<Commitment>) {
    |a| == |b| &&
    forall i :: 0 <= i < |a| ==> a[i].id == b[i].id && (a[i].id != Release ==> a[i].surfaces == b[i].surfaces)
  }

  lemma SameListedSurfaces(a: seq<Commitment>, b: seq<Commitment>, script: Script)
    requires SameBindings(a, b) && CommitmentsReady(a, script)
    ensures Ids(b) == Ids(a) && CommitmentsReady(b, script)
  {
    assert Ids(a) == Ids(b);
  }

  /** All rows are turned, each on its own, or the loop fails. */
  lemma {:induction false} TurnedEach<T>(rows: seq<T>, turn: T -> Result<T, Fault>, n: nat)
    requires n <= |rows|
    ensures Turned(rows, turn, n).Ok? <==> forall i :: 0 <= i < n ==> turn(rows[i]).Ok?
    ensures Turned(rows, turn, n).Ok? ==> |Turned(rows, turn, n).value| == n &&
                                          forall i :: 0 <= i < n ==> Ok(Turned(rows, turn, n).value[i]) == turn(rows[i])
  {
    if n > 0 {
      TurnedEach(rows, turn, n - 1);
    }
  }

  lemma RowsEach(rows: seq<Commitment>, script: Script)
    ensures RowsRewritten(rows, script).Ok? <==> forall i :: 0 <= i < |rows| ==> Rewritten(rows[i], script).Ok?
    ensures RowsRewritten(rows, script).Ok? ==>
              |RowsRewritten(rows, script).value| == |rows| &&
              forall i :: 0 <= i < |rows| ==> Rewritten(rows[i], script) == Ok(RowsRewritten(rows, script).value[i])
  {
    TurnedEach(rows, Turn(script), |rows|);
  }

  predicate Settled(rows: seq<Commitment>, script: Script) {
    forall i :: 0 <= i < |rows| ==> Rewritten(rows[i], script) == Ok(rows[i])
  }

  lemma SettledRowsStay(rows: seq<Commitment>, script: Script)
    requires Settled(rows, script)
    ensures RowsRewritten(rows, script) == Ok(rows)
  {
    RowsEach(rows, script);
    var after := RowsRewritten(rows, script).value;
    assert after == rows;
  }

  lemma InvokingSettled(row: Commitment, script: Script)
    requires Rewritten(row, script) == Ok(row)
    ensures Rewritten(GatewayInvokes(row), script) == Ok(GatewayInvokes(row))
  {
  }

  lemma InvokingAgain(rows: seq<Commitment>)
    ensures GatewaysInvoke(GatewaysInvoke(rows)) == GatewaysInvoke(rows)
  {
    forall row: Commitment
      ensures AllInvoking(AllInvoking(row.relations)) == AllInvoking(row.relations)
    {
    }
  }

  /** The rows the loop and the closing pass leave. */
  lemma LoopSettles(rows: seq<Commitment>, script: Script)
    requires Lawful(script) && RowsRewritten(rows, script).Ok?
    ensures var after := GatewaysInvoke(RowsRewritten(rows, script).value);
            Settled(after, script) && GatewaysInvoke(after) == after
  {
    RowsEach(rows, script);
    var turned := RowsRewritten(rows, script).value;
    forall i | 0 <= i < |rows|
      ensures Rewritten(GatewayInvokes(turned[i]), script) == Ok(GatewayInvokes(turned[i]))
    {
      RewrittenAgain(rows[i], script);
      InvokingSettled(turned[i], script);
    }
    InvokingAgain(turned);
  }

  lemma LoopKeepsBindings(rows: seq<Commitment>, script: Script)
    requires RowsRewritten(rows, script).Ok?
    ensures SameBindings(rows, GatewaysInvoke(RowsRewritten(rows, script).value))
  {
    RowsEach(rows, script);
    forall i | 0 <= i < |rows| {
      TurnKeeps(rows[i], script);
    }
  }

  // The whole script.

  predicate Ready(s: State, script: Script) {
    s.revision == script.revision && s.scope == "routine" &&
    CommitmentsReady(s.commitments, script) && SurfacesReady(s.surfaces, script)
  }

  /** What a step that adds or binds a commitment leaves alone. */
  predicate KeepsListed(a: seq<Commitment>, b: seq<Commitment>, id: Id) {
    id in Ids(a) ==> id in Ids(b) && SurfacesOf(b, id) == SurfacesOf(a, id)
  }

  lemma AddingKeepsListed(rows: seq<Commitment>, row: Commitment, id: Id)
    ensures KeepsListed(rows, rows + [row], id)
  {
    assert Ids(rows + [row]) == Ids(rows) + [row.id];
    if id in Ids(rows) {
      FirstInPrefix(Ids(rows), [row.id], id);
    }
  }

  lemma EnsuringAdds(s: State, id: Id, f: Founding, surface: SurfaceId)
    requires WithCommitment(s, id, f, surface).Ok?
    ensures var r := WithCommitment(s, id, f, surface).value;
            id in Ids(r.commitments) &&
            r == s.(commitments := r.commitments, expectedCommitments := r.expectedCommitments, expectedIntents := r.expectedIntents) &&
            (forall other :: KeepsListed(s.commitments, r.commitments, other))
  {
    if id !in Ids(s.commitments) {
      var r := WithCommitment(s, id, f, surface).value;
      var row := r.commitments[|s.commitments|];
      assert Ids(r.commitments) == Ids(s.commitments) + [id];
      forall other {
        AddingKeepsListed(s.commitments, row, other);
      }
    }
  }

  /** After the maintenance step. */
  predicate MaintenanceReady(s: State, script: Script) {
    s.revision == script.revision && s.scope == "routine" &&
    Maintenance in Ids(s.commitments) && SurfacesOf(s.commitments, Maintenance) == [MaintenanceTasks] &&
    FirstRunReleased(s.surfaces, script) && Holds(s.surfaces, MaintenanceSurface(script))
  }

  lemma MaintenanceStep(s: State, script: Script)
    requires s.revision == script.revision && s.scope == "routine"
    requires WithMaintenanceSurface(s, script).Ok?
    ensures MaintenanceReady(WithMaintenanceSurface(s, script).value, script)
  {
    var i := FindSurface(s.surfaces, PrivateFirstRunTasks).value;
    SettingSurfaces(s.commitments, Maintenance, [MaintenanceTasks]);
    MaintenanceBinds(s.surfaces, i, script);
  }

  lemma MaintenanceStepAgain(s: State, script: Script)
    requires MaintenanceReady(s, script)
    ensures WithMaintenanceSurface(s, script) == Ok(s)
  {
    var i := FindSurface(s.surfaces, PrivateFirstRunTasks).value;
    SettingSurfaces(s.commitments, Maintenance, [MaintenanceTasks]);
    MaintenanceBindsAgain(s.surfaces, i, script);
  }

  lemma GatewayStepAgain(s: State, script: Script)
    requires Ready(s, script)
    ensures WithGatewaySurface(s, script) == Ok(s)
  {
    var i := FindSurface(s.surfaces, MaintenanceTasks).value;
    SettingSurfaces(s.commitments, Gateway, [GatewayTasks]);
    UpsertedAgain(s.surfaces, s.surfaces[i], GatewaySurface(script));
  }

  lemma InstallationStepAgain(s: State, script: Script)
    requires Ready(s, script)
    ensures WithInstallationSurfaces(s, script) == Ok(s)
  {
    var i := FindSurface(s.surfaces, PrivateFirstRunTasks).value;
    SettingSurfaces(s.commitments, FirstRun, SurfacesOf(s.commitments, FirstRun));
    UpsertedAllAgain(s.surfaces, s.surfaces[i], InstallationSurfaces(script));
  }

  /** A ready ledger is prepared already. */
  lemma PreparedAgain(s: State, script: Script)
    requires Ready(s, script)
    ensures Prepared(s, script) == Ok(s)
  {
    assert s.(revision := script.revision, scope := "routine") == s;
    MaintenanceStepAgain(s, script);
    GatewayStepAgain(s, script);
    InstallationStepAgain(s, script);
  }

  /** The two closing steps make a ledger ready whose maintenance step is done. */
  lemma ClosingSteps(s: State, script: Script)
    requires MaintenanceReady(s, script) && WithGatewaySurface(s, script).Ok?
    requires WithInstallationSurfaces(WithGatewaySurface(s, script).value, script).Ok?
    ensures Ready(WithInstallationSurfaces(WithGatewaySurface(s, script).value, script).value, script)
  {
    var bound := WithGatewaySurface(s, script).value;
    var t := s.surfaces[FindSurface(s.surfaces, MaintenanceTasks).value];
    var u := bound.surfaces[FindSurface(bound.surfaces, PrivateFirstRunTasks).value];
    SettingSurfaces(s.commitments, Gateway, [GatewayTasks]);
    var listed := SurfacesOf(bound.commitments, FirstRun);
    var all := SurfaceIds(InstallationSurfaces(script));
    SettingSurfaces(bound.commitments, FirstRun, Appended([], listed + all));
    UnionAgain(listed, all);
    LaterSurfacesBind(s.surfaces, t, u, script);
  }

  lemma MaintenancePreparedReady(s: State, script: Script)
    requires MaintenancePrepared(s, script).Ok?
    ensures MaintenanceReady(MaintenancePrepared(s, script).value, script)
  {
    var s0 := s.(revision := script.revision, scope := "routine");
    EnsuringAdds(s0, Maintenance, script.maintenance, MaintenanceTasks);
    MaintenanceStep(WithCommitment(s0, Maintenance, script.maintenance, MaintenanceTasks).value, script);
  }

  lemma PreparedReady(s: State, script: Script)
    requires Prepared(s, script).Ok?
    ensures Ready(Prepared(s, script).value, script)
  {
    MaintenancePreparedReady(s, script);
    var s2 := MaintenancePrepared(s, script).value;
    EnsuringAdds(s2, Gateway, script.gateway, GatewayTasks);
    var s3 := WithCommitment(s2, Gateway, script.gateway, GatewayTasks).value;
    assert KeepsListed(s2.commitments, s3.commitments, Maintenance);
    ClosingSteps(s3, script);
  }

  lemma PointedAgain(surfaces: seq<Surface>, script: Script)
    ensures AllPointed(AllPointed(surfaces, script), script) == AllPointed(surfaces, script)
  {
  }

  /** What the rebased ledger satisfies, enough for another rebase to change nothing. */
  lemma RebasedIsSettled(s: State, script: Script)
    requires Lawful(script) && Rebased(s, script).Ok?
    ensures var r := Rebased(s, script).value;
            Ready(r, script) && Settled(r.commitments, script) &&
            GatewaysInvoke(r.commitments) == r.commitments && AllPointed(r.surfaces, script) == r.surfaces
  {
    var ready := Prepared(s, script).value;
    PreparedReady(s, script);
    LoopSettles(ready.commitments, script);
    LoopKeepsBindings(ready.commitments, script);
    SameListedSurfaces(ready.commitments, Rebased(s, script).value.commitments, script);
    PointedKeepsReady(ready.surfaces, script);
    PointedAgain(ready.surfaces, script);
  }

  /** Rebasing a rebased ledger succeeds and changes nothing. */
  lemma RebaseIdempotent(s: State, script: Script)
    requires Lawful(script) && Rebased(s, script).Ok?
    ensures Rebased(Rebased(s, script).value, script) == Rebased(s, script)
  {
    var r := Rebased(s, script).value;
    RebasedIsSettled(s, script);
    PreparedAgain(r, script);
    SettledRowsStay(r.commitments, script);
  }
}
