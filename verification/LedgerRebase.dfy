/**
 The rebase of the behaviour ledger: `_ensure_*` and `main` (scripts/rebase_autonomy_ledger.py).
 The class holds the ledger's fields and edits them in place, step by step; each step is specified by a
 function on the state. A fault is the exception the script dies of, in which case it writes nothing back.
 */
module LedgerRebase {
  import opened Basics
  import opened LedgerRows

  datatype Surface = Surface(id: SurfaceId, commitments: seq<Id>, intents: seq<string>, path: Option<string>, rest: Fields)

  datatype State = State(
    revision: string, scope: string, commitments: seq<Commitment>, surfaces: seq<Surface>,
    expectedCommitments: seq<Id>, expectedIntents: seq<string>)

  /** The first position of `id`, as `next(row for row in rows if ...)` finds it. */
  function First<T(==)>(ids: seq<T>, id: T): (r: Option<nat>)
    ensures r.Some? <==> id in ids
    ensures r.Some? ==> r.value < |ids| && ids[r.value] == id && id !in ids[..r.value]
  {
    if ids == [] then None
    else if ids[0] == id then Some(0)
    else match First(ids[1..], id)
      case None => None
      case Some(i) => assert ids[..i + 1] == [ids[0]] + ids[1..][..i]; Some(i + 1)
  }

  function Ids(rows: seq<Commitment>): seq<Id> {
    seq(|rows|, i requires 0 <= i < |rows| => rows[i].id)
  }

  function SurfaceIds(surfaces: seq<Surface>): seq<SurfaceId> {
    seq(|surfaces|, i requires 0 <= i < |surfaces| => surfaces[i].id)
  }

  /** A copy of the row `t` made into the commitment `id`. */
  function Founded(t: Commitment, id: Id, f: Founding, surface: SurfaceId): Commitment
    requires t.evidence.Some? && t.authority.Some?
  {
    Commitment(
      id, f.owner, t.replacement,
      Some(t.evidence.value.(obligations := f.obligations, gates := f.gates)),
      Some(t.authority.value + f.authority),
      Some(f.lookup), f.writes, [surface], f.relations, f.metadata, t.rest + f.rest)
  }

  function WithCommitment(s: State, id: Id, f: Founding, surface: SurfaceId): Result<State, Fault> {
    if id in Ids(s.commitments) then Ok(s)
    else match First(Ids(s.commitments), WorkPackage)
      case None => Err(NoSuchRow(WorkPackage))
      case Some(i) =>
        var t := s.commitments[i];
        if t.evidence.None? then Err(NoSuchField("evidence"))
        else if t.authority.None? then Err(NoSuchField("path_authority"))
        else Ok(s.(commitments := s.commitments + [Founded(t, id, f, surface)],
                   expectedCommitments := Appended(s.expectedCommitments, [id]),
                   expectedIntents := Appended(s.expectedIntents, [f.intent])))
  }

  /** `row.update(...)` with everything `d` defines. */
  function Stamped(row: Surface, d: Surface): Surface {
    d.(rest := row.rest + d.rest)
  }

  /** The surface of `d.id` updated, or a copy of `template` added and updated. */
  function Upserted(surfaces: seq<Surface>, template: Surface, d: Surface): seq<Surface> {
    match First(SurfaceIds(surfaces), d.id)
    case None => surfaces + [Stamped(template, d)]
    case Some(i) => surfaces[i := Stamped(surfaces[i], d)]
  }

  predicate NotMaintenance(id: Id) { id != Maintenance }

  function NotIntent(intent: string): string -> bool { value => value != intent }

  function Released(row: Surface, intent: string): Surface {
    row.(commitments := Kept(row.commitments, NotMaintenance), intents := Kept(row.intents, NotIntent(intent)))
  }

  function MaintenanceSurface(script: Script): Surface {
    Surface(MaintenanceTasks, [Maintenance], [script.maintenance.intent], Some(script.maintenance.path), script.maintenanceNotes)
  }

  function GatewaySurface(script: Script): Surface {
    Surface(GatewayTasks, [Gateway], [script.gateway.intent], Some(script.gateway.path), script.gatewayNotes)
  }

  function InstallationSurface(id: SurfaceId, notes: Fields, script: Script): Surface {
    Surface(id, [FirstRun], [script.firstRunIntent], Some(script.firstRunPath), notes)
  }

  function InstallationSurfaces(script: Script): seq<Surface> {
    [InstallationSurface(PublicSkill, script.skillNotes, script),
     InstallationSurface(PublicReadme, script.readmeNotes, script),
     InstallationSurface(PluginMetadata, script.pluginNotes, script)]
  }

  /** The first commitment `id` with its surfaces set. */
  function WithSurfaces(rows: seq<Commitment>, id: Id, surfaces: seq<SurfaceId>): Result<seq<Commitment>, Fault> {
    match First(Ids(rows), id)
    case None => Err(NoSuchRow(id))
    case Some(i) => Ok(rows[i := rows[i].(surfaces := surfaces)])
  }

  function FindSurface(surfaces: seq<Surface>, id: SurfaceId): (r: Result<nat, Fault>)
    ensures r.Ok? <==> id in SurfaceIds(surfaces)
    ensures r.Ok? ==> r.value < |surfaces| && surfaces[r.value].id == id
  {
    match First(SurfaceIds(surfaces), id)
    case None => Err(NoSuchSurface(id))
    case Some(i) => Ok(i)
  }

  function WithMaintenanceSurface(s: State, script: Script): Result<State, Fault> {
    var i :- FindSurface(s.surfaces, PrivateFirstRunTasks);
    var template := Released(s.surfaces[i], script.maintenance.intent);
    var commitments :- WithSurfaces(s.commitments, Maintenance, [MaintenanceTasks]);
    Ok(s.(surfaces := Upserted(s.surfaces[i := template], template, MaintenanceSurface(script)), commitments := commitments))
  }

  function WithGatewaySurface(s: State, script: Script): Result<State, Fault> {
    var i :- FindSurface(s.surfaces, MaintenanceTasks);
    var commitments :- WithSurfaces(s.commitments, Gateway, [GatewayTasks]);
    Ok(s.(surfaces := Upserted(s.surfaces, s.surfaces[i], GatewaySurface(script)), commitments := commitments))
  }

  function UpsertedAll(surfaces: seq<Surface>, template: Surface, ds: seq<Surface>): seq<Surface> {
    if ds == [] then surfaces
    else Upserted(UpsertedAll(surfaces, template, ds[..|ds| - 1]), template, ds[|ds| - 1])
  }

  function WithInstallationSurfaces(s: State, script: Script): Result<State, Fault> {
    var i :- FindSurface(s.surfaces, PrivateFirstRunTasks);
    match First(Ids(s.commitments), FirstRun)
    case None => Err(NoSuchRow(FirstRun))
    case Some(c) =>
      var commitments :- WithSurfaces(
        s.commitments, FirstRun, Appended([], s.commitments[c].surfaces + SurfaceIds(InstallationSurfaces(script))));
      Ok(s.(surfaces := UpsertedAll(s.surfaces, s.surfaces[i], InstallationSurfaces(script)), commitments := commitments))
  }

  /** The row added to those done, unless either raised; the earlier fault wins. */
  function And<T>(done: Result<seq<T>, Fault>, row: Result<T, Fault>): Result<seq<T>, Fault> {
    if done.Err? then done else if row.Err? then Err(row.error) else Ok(done.value + [row.value])
  }

  /** `turn` applied to the first `n` rows in order, or the fault of the first row that raises one. */
  function Turned<T>(rows: seq<T>, turn: T -> Result<T, Fault>, n: nat): Result<seq<T>, Fault>
    requires n <= |rows|
  {
    if n == 0 then Ok([]) else And(Turned(rows, turn, n - 1), turn(rows[n - 1]))
  }

  function Turn(script: Script): Commitment -> Result<Commitment, Fault> {
    row => Rewritten(row, script)
  }

  /** The row loop of `main`. */
  function RowsRewritten(rows: seq<Commitment>, script: Script): Result<seq<Commitment>, Fault> {
    Turned(rows, Turn(script), |rows|)
  }

  function Pointed(surface: Surface, script: Script): Surface {
    if Release in surface.commitments then surface.(path := Some(script.releasePath)) else surface
  }

  function AllPointed(surfaces: seq<Surface>, script: Script): seq<Surface> {
    seq(|surfaces|, i requires 0 <= i < |surfaces| => Pointed(surfaces[i], script))
  }

  function Invoking(relation: Relation): Relation {
    if relation.target == ObjectBrowser || relation.target == Maintenance then relation.(kind := "invokes") else relation
  }

  function AllInvoking(relations: seq<Relation>): seq<Relation> {
    seq(|relations|, i requires 0 <= i < |relations| => Invoking(relations[i]))
  }

  function GatewayInvokes(row: Commitment): Commitment {
    if row.id == Gateway then row.(relations := AllInvoking(row.relations)) else row
  }

  function GatewaysInvoke(rows: seq<Commitment>): seq<Commitment> {
    seq(|rows|, i requires 0 <= i < |rows| => GatewayInvokes(rows[i]))
  }

  /** Up to the maintenance commitment and its surface. */
  function MaintenancePrepared(s: State, script: Script): Result<State, Fault> {
    var s1 :- WithCommitment(s.(revision := script.revision, scope := "routine"), Maintenance, script.maintenance, MaintenanceTasks);
    WithMaintenanceSurface(s1, script)
  }

  function LaterPrepared(s: State, script: Script): Result<State, Fault> {
    var s3 :- WithCommitment(s, Gateway, script.gateway, GatewayTasks);
    var s4 :- WithGatewaySurface(s3, script);
    WithInstallationSurfaces(s4, script)
  }

  /** Everything before the row loop. */
  function Prepared(s: State, script: Script): Result<State, Fault> {
    var s2 :- MaintenancePrepared(s, script);
    LaterPrepared(s2, script)
  }

  /** The ledger the script writes back. */
  function Rebased(s: State, script: Script): Result<State, Fault> {
    var ready :- Prepared(s, script);
    var rows :- RowsRewritten(ready.commitments, script);
    Ok(ready.(surfaces := AllPointed(ready.surfaces, script), commitments := GatewaysInvoke(rows)))
  }

  ghost predicate IsTurn(turn: Commitment -> Result<Commitment, Fault>, script: Script) {
    forall row {:trigger Rewritten(row, script)} :: turn(row) == Rewritten(row, script)
  }

  method TurnRow(row: Commitment, script: Script, ghost turn: Commitment -> Result<Commitment, Fault>)
    returns (r: Result<Commitment, Fault>)
    requires IsTurn(turn, script)
    ensures r == turn(row)
  {
    r := RewriteRow(row, script);
  }

  lemma {:induction false} FaultStands<T>(rows: seq<T>, turn: T -> Result<T, Fault>, n: nat, m: nat)
    requires n <= m <= |rows| && Turned(rows, turn, n).Err?
    ensures Turned(rows, turn, m) == Turned(rows, turn, n)
  {
    if n < m {
      FaultStands(rows, turn, n, m - 1);
    }
  }

  method TurnRows(before: seq<Commitment>, script: Script, ghost turn: Commitment -> Result<Commitment, Fault>)
    returns (r: Result<seq<Commitment>, Fault>)
    requires IsTurn(turn, script)
    ensures r == Turned(before, turn, |before|)
  {
    var i := 0;
    r := Ok([]);
    while i < |before| && r.Ok?
      invariant i <= |before| && Turned(before, turn, i) == r
    {
      var row := TurnRow(before[i], script, turn);
      r := And(r, row);
      i := i + 1;
    }
    if r.Err? {
      FaultStands(before, turn, i, |before|);
    }
  }

  class Ledger {
    var revision: string
    var scope: string
    var commitments: seq<Commitment>
    var surfaces: seq<Surface>
    var expectedCommitments: seq<Id>
    var expectedIntents: seq<string>

    function Now(): State
      reads this
    {
      State(revision, scope, commitments, surfaces, expectedCommitments, expectedIntents)
    }

    /** No fault and the state of `after`, or the fault of `after`. */
    predicate Reached(after: Result<State, Fault>, fault: Option<Fault>)
      reads this
    {
      match after
      case Ok(s) => fault == None && Now() == s
      case Err(f) => fault == Some(f)
    }

    method EnsureCommitment(id: Id, f: Founding, surface: SurfaceId) returns (fault: Option<Fault>)
      modifies this
      ensures Reached(WithCommitment(old(Now()), id, f, surface), fault)
    {
      if id in Ids(commitments) {
        return None;
      }
      var found := First(Ids(commitments), WorkPackage);
      if found == None {
        return Some(NoSuchRow(WorkPackage));
      }
      var template := commitments[found.value];
      if template.evidence.None? {
        return Some(NoSuchField("evidence"));
      }
      if template.authority.None? {
        return Some(NoSuchField("path_authority"));
      }
      commitments := commitments + [Founded(template, id, f, surface)];
      expectedCommitments := AppendUnique(expectedCommitments, [id]);
      expectedIntents := AppendUnique(expectedIntents, [f.intent]);
      fault := None;
    }

    method Upsert(template: Surface, d: Surface)
      modifies this`surfaces
      ensures surfaces == Upserted(old(surfaces), template, d)
    {
      var found := First(SurfaceIds(surfaces), d.id);
      if found == None {
        surfaces := surfaces + [Stamped(template, d)];
      } else {
        surfaces := surfaces[found.value := Stamped(surfaces[found.value], d)];
      }
    }

    method UpsertAll(template: Surface, definitions: seq<Surface>) returns (ids: seq<SurfaceId>)
      modifies this`surfaces
      ensures surfaces == UpsertedAll(old(surfaces), template, definitions)
      ensures ids == SurfaceIds(definitions)
    {
      ids := [];
      for k := 0 to |definitions|
        invariant surfaces == UpsertedAll(old(surfaces), template, definitions[..k])
        invariant ids == SurfaceIds(definitions[..k])
      {
        assert definitions[..k + 1][..k] == definitions[..k];
        Upsert(template, definitions[k]);
        ids := ids + [definitions[k].id];
      }
      assert definitions[..|definitions|] == definitions;
    }

    method BindMaintenanceSurface(script: Script) returns (fault: Option<Fault>)
      modifies this
      ensures Reached(WithMaintenanceSurface(old(Now()), script), fault)
    {
      var i := FindSurface(surfaces, PrivateFirstRunTasks);
      if i.Err? {
        return Some(i.error);
      }
      surfaces := surfaces[i.value := Released(surfaces[i.value], script.maintenance.intent)];
      Upsert(surfaces[i.value], MaintenanceSurface(script));
      fault := SetSurfaces(Maintenance, [MaintenanceTasks]);
    }

    method SetSurfaces(id: Id, ids: seq<SurfaceId>) returns (fault: Option<Fault>)
      modifies this`commitments
      ensures match WithSurfaces(old(commitments), id, ids)
              case Ok(rows) => fault == None && commitments == rows
              case Err(f) => fault == Some(f)
    {
      var found := First(Ids(commitments), id);
      if found == None {
        return Some(NoSuchRow(id));
      }
      commitments := commitments[found.value := commitments[found.value].(surfaces := ids)];
      fault := None;
    }

    method BindGatewaySurface(script: Script) returns (fault: Option<Fault>)
      modifies this
      ensures Reached(WithGatewaySurface(old(Now()), script), fault)
    {
      var i := FindSurface(surfaces, MaintenanceTasks);
      if i.Err? {
        return Some(i.error);
      }
      Upsert(surfaces[i.value], GatewaySurface(script));
      fault := SetSurfaces(Gateway, [GatewayTasks]);
    }

    method BindInstallationSurfaces(script: Script) returns (fault: Option<Fault>)
      modifies this
      ensures Reached(WithInstallationSurfaces(old(Now()), script), fault)
    {
      var i := FindSurface(surfaces, PrivateFirstRunTasks);
      if i.Err? {
        return Some(i.error);
      }
      var ids := UpsertAll(surfaces[i.value], InstallationSurfaces(script));
      var found := First(Ids(commitments), FirstRun);
      if found == None {
        return Some(NoSuchRow(FirstRun));
      }
      var bound := AppendUnique([], commitments[found.value].surfaces + ids);
      fault := SetSurfaces(FirstRun, bound);
    }

    method RewriteCommitments(script: Script) returns (fault: Option<Fault>)
      modifies this`commitments
      ensures match RowsRewritten(old(commitments), script)
              case Ok(rows) => fault == None && commitments == rows
              case Err(f) => fault == Some(f)
    {
      var rows := TurnRows(commitments, script, Turn(script));
      if rows.Err? {
        return Some(rows.error);
      }
      fault, commitments := None, rows.value;
    }

    method PointReleaseSurfaces(script: Script)
      modifies this`surfaces
      ensures surfaces == AllPointed(old(surfaces), script)
    {
      for i := 0 to |surfaces|
        invariant |surfaces| == |old(surfaces)|
        invariant forall k :: 0 <= k < |surfaces| ==>
          surfaces[k] == if k < i then Pointed(old(surfaces)[k], script) else old(surfaces)[k]
      {
        if Release in surfaces[i].commitments {
          surfaces := surfaces[i := surfaces[i].(path := Some(script.releasePath))];
        }
      }
    }

    method LetGatewayInvoke()
      modifies this`commitments
      ensures commitments == GatewaysInvoke(old(commitments))
    {
      for i := 0 to |commitments|
        invariant |commitments| == |old(commitments)|
        invariant forall k :: 0 <= k < |commitments| ==>
          commitments[k] == if k < i then GatewayInvokes(old(commitments)[k]) else old(commitments)[k]
      {
        if commitments[i].id == Gateway {
          commitments := commitments[i := commitments[i].(relations := AllInvoking(commitments[i].relations))];
        }
      }
    }

    /** The five `_ensure_*` calls. */
    method Prepare(script: Script) returns (fault: Option<Fault>)
      modifies this
      ensures Reached(Prepared(old(Now()), script), fault)
    {
      revision, scope := script.revision, "routine";
      fault := EnsureCommitment(Maintenance, script.maintenance, MaintenanceTasks);
      if fault.Some? { return; }
      fault := BindMaintenanceSurface(script);
      if fault.Some? { return; }
      fault := EnsureCommitment(Gateway, script.gateway, GatewayTasks);
      if fault.Some? { return; }
      fault := BindGatewaySurface(script);
      if fault.Some? { return; }
      fault := BindInstallationSurfaces(script);
    }

    /** `main`, between reading the ledger and writing it back. */
    method Rebase(script: Script) returns (fault: Option<Fault>)
      modifies this
      ensures Reached(Rebased(old(Now()), script), fault)
    {
      fault := Prepare(script);
      if fault.Some? { return; }
      fault := RewriteCommitments(script);
      if fault.Some? { return; }
      PointReleaseSurfaces(script);
      LetGatewayInvoke();
    }
  }
}
