/** The fields of the ledger's surfaces that the script does not write: kept where a surface was, copied where it is new. */
module LedgerNotes {
  import opened Basics
  import opened LedgerRows
  import opened LedgerRebase
  import opened LedgerRebaseLaws

  /** The fields the script writes on some surface. */
  function Written(script: Script): set<string> {
    script.maintenanceNotes.Keys + script.gatewayNotes.Keys + script.skillNotes.Keys + script.readmeNotes.Keys + script.pluginNotes.Keys
  }

  /** Two surfaces have the same fields but for those in `written`. */
  ghost predicate SameNotes(a: Fields, b: Fields, written: set<string>) {
    forall k :: k !in written ==> (k in a <==> k in b) && (k in a && k in b ==> a[k] == b[k])
  }

  /** The surface a new one is copied from: the gateway's from the maintenance surface if there was one, every other
      one from the private-first-run surface. */
  function CopiedFrom(a: seq<Surface>, id: SurfaceId): Option<Surface> {
    var i := First(SurfaceIds(a), if id == GatewayTasks && MaintenanceTasks in SurfaceIds(a) then MaintenanceTasks else PrivateFirstRunTasks);
    if i == None then None else Some(a[i.value])
  }

  ghost predicate OldNotes(a: seq<Surface>, b: seq<Surface>, written: set<string>, i: nat)
    requires i < |a| && i < |b|
  {
    b[i].id == a[i].id && SameNotes(a[i].rest, b[i].rest, written)
  }

  ghost predicate NewNotes(a: seq<Surface>, row: Surface, written: set<string>) {
    CopiedFrom(a, row.id) != None && SameNotes(CopiedFrom(a, row.id).value.rest, row.rest, written)
  }

  /** Each surface keeps its place and its other fields, each new one has those of the surface it is copied from. */
  ghost predicate Noted(a: seq<Surface>, b: seq<Surface>, written: set<string>) {
    && |a| <= |b|
    && (forall i :: 0 <= i < |a| ==> OldNotes(a, b, written, i))
    && (forall j :: |a| <= j < |b| ==> NewNotes(a, b[j], written))
  }

  lemma StampedNotes(row: Surface, d: Surface, written: set<string>)
    requires d.rest.Keys <= written
    ensures SameNotes(row.rest, Stamped(row, d).rest, written)
  {
  }

  lemma SameNotesTransitive(a: Fields, b: Fields, c: Fields, written: set<string>)
    requires SameNotes(a, b, written) && SameNotes(b, c, written)
    ensures SameNotes(a, c, written)
  {
  }

  lemma AddedNotes(a: seq<Surface>, b: seq<Surface>, row: Surface, written: set<string>)
    requires Noted(a, b, written) && NewNotes(a, row, written)
    ensures Noted(a, b + [row], written)
  {
    forall i | 0 <= i < |a|
      ensures OldNotes(a, b + [row], written, i)
    {
      assert OldNotes(a, b, written, i);
    }
  }

  lemma UpdatedNotes(a: seq<Surface>, b: seq<Surface>, i: nat, row: Surface, written: set<string>)
    requires Noted(a, b, written) && i < |b| && row.id == b[i].id && SameNotes(b[i].rest, row.rest, written)
    ensures Noted(a, b[i := row], written)
  {
    var after := b[i := row];
    forall k | 0 <= k < |a|
      ensures OldNotes(a, after, written, k)
    {
      assert OldNotes(a, b, written, k);
      if k == i {
        SameNotesTransitive(a[k].rest, b[k].rest, row.rest, written);
      }
    }
    forall j | |a| <= j < |b|
      ensures NewNotes(a, after[j], written)
    {
      assert NewNotes(a, b[j], written);
      if j == i {
        SameNotesTransitive(CopiedFrom(a, row.id).value.rest, b[j].rest, row.rest, written);
      }
    }
  }

  lemma UpsertNotes(a: seq<Surface>, b: seq<Surface>, template: Surface, d: Surface, written: set<string>)
    requires Noted(a, b, written) && d.rest.Keys <= written
    requires CopiedFrom(a, d.id) != None && SameNotes(CopiedFrom(a, d.id).value.rest, template.rest, written)
    ensures Noted(a, Upserted(b, template, d), written)
  {
    match First(SurfaceIds(b), d.id)
    case None =>
      StampedNotes(template, d, written);
      SameNotesTransitive(CopiedFrom(a, d.id).value.rest, template.rest, Stamped(template, d).rest, written);
      AddedNotes(a, b, Stamped(template, d), written);
    case Some(i) =>
      StampedNotes(b[i], d, written);
      UpdatedNotes(a, b, i, Stamped(b[i], d), written);
  }

  lemma {:induction false} UpsertAllNotes(a: seq<Surface>, b: seq<Surface>, template: Surface, ds: seq<Surface>, written: set<string>)
    requires Noted(a, b, written) && forall d :: d in ds ==> d.rest.Keys <= written
    requires forall d :: d in ds ==>
      CopiedFrom(a, d.id) != None && SameNotes(CopiedFrom(a, d.id).value.rest, template.rest, written)
    ensures Noted(a, UpsertedAll(b, template, ds), written)
  {
    if ds != [] {
      UpsertAllNotes(a, b, template, ds[..|ds| - 1], written);
      UpsertNotes(a, UpsertedAll(b, template, ds[..|ds| - 1]), template, ds[|ds| - 1], written);
    }
  }

  lemma NotedIds(a: seq<Surface>, b: seq<Surface>, written: set<string>)
    requires Noted(a, b, written)
    ensures SurfaceIds(b)[..|a|] == SurfaceIds(a)
  {
    forall i | 0 <= i < |a|
      ensures b[i].id == a[i].id
    {
      assert OldNotes(a, b, written, i);
    }
  }

  /** The first surface of an id is where it was. */
  lemma FirstNoted(a: seq<Surface>, b: seq<Surface>, id: SurfaceId, written: set<string>)
    requires Noted(a, b, written) && id in SurfaceIds(a)
    ensures id in SurfaceIds(b) && First(SurfaceIds(b), id) == First(SurfaceIds(a), id)
    ensures var i := First(SurfaceIds(a), id).value; SameNotes(a[i].rest, b[i].rest, written)
  {
    NotedIds(a, b, written);
    var i := First(SurfaceIds(a), id).value;
    assert SurfaceIds(b) == SurfaceIds(a) + SurfaceIds(b)[|a|..];
    FirstInPrefix(SurfaceIds(a), SurfaceIds(b)[|a|..], id);
    assert OldNotes(a, b, written, i);
  }

  lemma MaintenanceBoundNotes(a: seq<Surface>, i: nat, script: Script)
    requires First(SurfaceIds(a), PrivateFirstRunTasks) == Some(i)
    ensures Noted(a, MaintenanceBound(a, i, script), Written(script))
  {
    var template, written := Released(a[i], script.maintenance.intent), Written(script);
    assert Noted(a, a, written);
    UpdatedNotes(a, a, i, template, written);
    UpsertNotes(a, a[i := template], template, MaintenanceSurface(script), written);
  }

  lemma MaintenanceNotes(s: State, script: Script)
    requires MaintenancePrepared(s, script).Ok?
    ensures PrivateFirstRunTasks in SurfaceIds(s.surfaces)
    ensures Noted(s.surfaces, MaintenancePrepared(s, script).value.surfaces, Written(script))
  {
    var i := FindSurface(s.surfaces, PrivateFirstRunTasks).value;
    MaintenanceBoundNotes(s.surfaces, i, script);
  }

  /** The gateway surface is copied from the maintenance surface, which may itself be new. */
  lemma GatewayTemplate(a: seq<Surface>, b: seq<Surface>, written: set<string>)
    requires Noted(a, b, written) && PrivateFirstRunTasks in SurfaceIds(a) && MaintenanceTasks in SurfaceIds(b)
    ensures var t := b[First(SurfaceIds(b), MaintenanceTasks).value];
      CopiedFrom(a, GatewayTasks) != None && SameNotes(CopiedFrom(a, GatewayTasks).value.rest, t.rest, written)
  {
    if MaintenanceTasks in SurfaceIds(a) {
      FirstNoted(a, b, MaintenanceTasks, written);
    } else {
      NotedIds(a, b, written);
      var i := First(SurfaceIds(b), MaintenanceTasks).value;
      assert MaintenanceTasks !in SurfaceIds(b)[..|a|];
      assert NewNotes(a, b[i], written);
    }
  }

  lemma GatewayNotes(a: seq<Surface>, s: State, script: Script)
    requires Noted(a, s.surfaces, Written(script)) && PrivateFirstRunTasks in SurfaceIds(a) && WithGatewaySurface(s, script).Ok?
    ensures Noted(a, WithGatewaySurface(s, script).value.surfaces, Written(script))
  {
    var t := s.surfaces[FindSurface(s.surfaces, MaintenanceTasks).value];
    GatewayTemplate(a, s.surfaces, Written(script));
    UpsertNotes(a, s.surfaces, t, GatewaySurface(script), Written(script));
  }

  lemma InstallationNotes(a: seq<Surface>, s: State, script: Script)
    requires Noted(a, s.surfaces, Written(script)) && PrivateFirstRunTasks in SurfaceIds(a) && WithInstallationSurfaces(s, script).Ok?
    ensures Noted(a, WithInstallationSurfaces(s, script).value.surfaces, Written(script))
  {
    FirstNoted(a, s.surfaces, PrivateFirstRunTasks, Written(script));
    var u := s.surfaces[FindSurface(s.surfaces, PrivateFirstRunTasks).value];
    UpsertAllNotes(a, s.surfaces, u, InstallationSurfaces(script), Written(script));
  }

  lemma LaterNotes(a: seq<Surface>, s: State, script: Script)
    requires Noted(a, s.surfaces, Written(script)) && PrivateFirstRunTasks in SurfaceIds(a) && LaterPrepared(s, script).Ok?
    ensures Noted(a, LaterPrepared(s, script).value.surfaces, Written(script))
  {
    var s3 := WithCommitment(s, Gateway, script.gateway, GatewayTasks).value;
    EnsuringAdds(s, Gateway, script.gateway, GatewayTasks);
    GatewayNotes(a, s3, script);
    InstallationNotes(a, WithGatewaySurface(s3, script).value, script);
  }

  lemma PointedNotes(a: seq<Surface>, b: seq<Surface>, script: Script)
    requires Noted(a, b, Written(script))
    ensures Noted(a, AllPointed(b, script), Written(script))
  {
    var after, written := AllPointed(b, script), Written(script);
    forall i | 0 <= i < |a|
      ensures OldNotes(a, after, written, i)
    {
      assert OldNotes(a, b, written, i);
    }
    forall j | |a| <= j < |b|
      ensures NewNotes(a, after[j], written)
    {
      assert NewNotes(a, b[j], written);
    }
  }

  /** Rebasing leaves every surface its other fields, and gives each new one those of the surface it is copied from. */
  lemma RebasedNotes(s: State, script: Script)
    requires Rebased(s, script).Ok?
    ensures Noted(s.surfaces, Rebased(s, script).value.surfaces, Written(script))
  {
    MaintenanceNotes(s, script);
    LaterNotes(s.surfaces, MaintenancePrepared(s, script).value, script);
    PointedNotes(s.surfaces, Prepared(s, script).value.surfaces, script);
  }
}
