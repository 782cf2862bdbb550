/**
 One commitment row of the behaviour ledger and its rewrite: `_append_unique` and the row loop of `main`
 (scripts/rebase_autonomy_ledger.py). The method follows the source's branches in order; the specification
 says field by field what a row becomes. Prose and the write lists that never survive are fields of `Script`.
 */
module LedgerRows {
  import opened Basics

  datatype Json = Text(text: string) | Flag(on: bool) | Number(number: int) | Listed(items: seq<Json>) | Object(fields: map<string, Json>)

  type Fields = map<string, Json>

  /** The commitment ids the script names, in order PR-000, -002, -003, -005, -006, -007, -010, -011, -012,
      AO-001, -003, -004, DP-003, -004; ids are only ever compared. */
  datatype Id =
    | Orchestration | SourceInventory | EvidenceAnchors | LogicalEvents | Matters | Lifecycle
    | Corrections | Findings | ObjectBrowser | WorkPackage | Maintenance | Gateway | Release | FirstRun
    | OtherId(text: string)

  datatype SurfaceId =
    | PrivateFirstRunTasks | MaintenanceTasks | GatewayTasks | PublicSkill | PublicReadme | PluginMetadata
    | OtherSurface(text: string)

  datatype Evidence = Evidence(fields: Fields, metadata: Fields, obligations: seq<string>, gates: seq<string>)

  datatype Relation = Relation(kind: string, target: Id, rest: Fields)

  datatype Lookup = Lookup(pathPatterns: seq<string>, taskTerms: seq<string>, rest: Fields)

  /** `rest` holds the fields that no branch reads. */
  datatype Commitment = Commitment(
    id: Id, owner: string, replacement: Option<string>,
    evidence: Option<Evidence>, authority: Option<Fields>, lookup: Option<Lookup>,
    stateWrites: seq<string>, surfaces: seq<SurfaceId>, relations: seq<Relation>, metadata: Fields, rest: Fields)

  /** What a commitment that the script itself adds is made of. */
  datatype Founding = Founding(
    intent: string, owner: string, path: string, authority: Fields, obligations: seq<string>, gates: seq<string>,
    writes: seq<string>, relations: seq<Relation>, lookup: Lookup, metadata: Fields, rest: Fields)

  datatype Script = Script(
    revision: string, updates: map<Id, Fields>, models: map<string, seq<string>>,
    staleReason: Json, blockedReason: Json,
    situationIntent: Json, releaseIntent: Json, releasePath: string, releaseReason: Json,
    releaseFields: Fields, releaseSurfaces: seq<SurfaceId>, releaseWrites: seq<string>, releaseLookup: Lookup,
    firstRunIntent: string, firstRunPath: string, firstRunBoundary: Json, firstRunPatterns: seq<string>, firstRunTerms: seq<string>, firstRunRelation: Fields,
    capabilityRoles: Json,
    sourceWrites: seq<string>, evidenceWrites: seq<string>, correctionWrites: seq<string>,
    installationWrites: seq<string>, setupFields: Fields,
    orchestrationWrites: seq<string>, traceWrites: seq<string>, matterWrites: seq<string>,
    analysisWrites: seq<string>, projectionWrites: seq<string>,
    maintenance: Founding, gateway: Founding, maintenanceNotes: Fields, gatewayNotes: Fields,
    skillNotes: Fields, readmeNotes: Fields, pluginNotes: Fields)

  datatype Fault = NoSuchRow(id: Id) | NoSuchSurface(surface: SurfaceId) | NoSuchField(name: string) | NoSuchModel(owner: string)

  /** The values of `values` that are not yet present, each once, after `current`. */
  function Appended<T(==)>(current: seq<T>, values: seq<T>): seq<T>
    decreases |values|
  {
    if values == [] then current
    else Appended(if values[0] in current then current else current + [values[0]], values[1..])
  }

  method AppendUnique<T(==)>(current: seq<T>, values: seq<T>) returns (r: seq<T>)
    ensures r == Appended(current, values)
  {
    r := current;
    for i := 0 to |values|
      invariant Appended(r, values[i..]) == Appended(current, values)
    {
      assert values[i..][0] == values[i] && values[i..][1..] == values[i + 1..];
      if values[i] !in r {
        r := r + [values[i]];
      }
    }
  }

  function Kept<T(!new)>(s: seq<T>, keep: T -> bool): (r: seq<T>)
    ensures forall x :: x in r <==> x in s && keep(x)
  {
    if s == [] then [] else (if keep(s[0]) then [s[0]] else []) + Kept(s[1..], keep)
  }

  predicate StartsWith(value: string, prefix: string) {
    |prefix| <= |value| && value[..|prefix|] == prefix
  }

  predicate NotEligibility(value: string) { value != "evidence.visual_eligibility" }

  predicate NotVisualIntent(value: string) { value != "correction.card_visual_intent" }

  predicate NotCardVisual(value: string) { !StartsWith(value, "matter.card_visual_") }

  predicate NotOnRelease(relation: Relation) {
    !(relation.kind == "depends_on" && relation.target == Release)
  }

  predicate Active(row: Commitment) {
    row.replacement.None? || row.replacement.value == "active"
  }

  /** Rows whose writes are taken from the owning model, whatever an earlier branch wrote. */
  predicate TakesModelWrites(id: Id) {
    id in {Orchestration, LogicalEvents, Matters, Lifecycle, Findings, ObjectBrowser}
  }

  function Updates(id: Id, script: Script): Fields {
    if id in script.updates then script.updates[id] else map[]
  }

  function Named(row: Commitment, script: Script): Commitment {
    row.(rest := row.rest + Updates(row.id, script))
  }

  function StaleEvidence(evidence: Option<Evidence>, script: Script): Evidence {
    var e := if evidence.Some? then evidence.value else Evidence(map[], map[], [], []);
    e.(fields := e.fields + map["current" := Flag(false), "evidence_state" := Text("stale"), "test_mesh_state" := Text("stale")],
       metadata := e.metadata + map["scope_revision" := Text(script.revision), "stale_reason" := script.staleReason])
  }

  function BlockedPath(script: Script): Fields {
    map["evidence_current" := Flag(false), "ppa_confidence" := Text("blocked"),
        "ppa_decision" := Text("primary_path_authority_blocked"), "ppa_ok" := Flag(false),
        "scoped_out_reason" := script.blockedReason]
  }

  function OwnAuthority(id: Id, script: Script): Fields {
    if id == Orchestration then map["business_intent" := script.situationIntent]
    else if id == Release then
      map["business_intent" := script.releaseIntent, "primary_path_id" := Text(script.releasePath),
          "scoped_out_reason" := script.releaseReason]
    else map[]
  }

  function NewAuthority(id: Id, authority: Option<Fields>, script: Script): Fields {
    (if authority.Some? then authority.value else map[]) + BlockedPath(script) + OwnAuthority(id, script)
  }

  function OwnRest(id: Id, script: Script): Fields {
    if id == Release then script.releaseFields
    else if id == FirstRun then map["validation_boundary" := script.firstRunBoundary]
    else map[]
  }

  function NewRest(id: Id, rest: Fields, script: Script): Fields {
    rest + map["model_sync_state" := Text("owner_model_current")] + OwnRest(id, script)
  }

  function NotSuperseded(current: seq<string>): string -> bool {
    value => !StartsWith(value, "visual_asset.") && value !in current
  }

  /** Superseded fields dropped, then the current ones, which the script lists in ascending order. */
  function SourceWrites(writes: seq<string>, current: seq<string>): seq<string> {
    Kept(writes, NotSuperseded(current)) + current
  }

  /** The writes of an active row; the owning model must be known where they come from it. */
  function NewWrites(id: Id, owner: string, writes: seq<string>, script: Script): Result<seq<string>, Fault> {
    if TakesModelWrites(id) then
      if owner in script.models then Ok(script.models[owner]) else Err(NoSuchModel(owner))
    else Ok(
      if id == Release then script.releaseWrites
      else if id == FirstRun then Appended([], writes + script.installationWrites)
      else if id == SourceInventory then SourceWrites(writes, script.sourceWrites)
      else if id == EvidenceAnchors then Appended(Kept(writes, NotEligibility), script.evidenceWrites)
      else if id == Corrections then Appended(Kept(writes, NotVisualIntent), script.correctionWrites)
      else if id == Maintenance then script.maintenance.writes
      else if id == Gateway then script.gateway.writes
      else writes)
  }

  function OnRelease(script: Script): Relation {
    Relation("depends_on", Release, script.firstRunRelation)
  }

  function NewRelations(id: Id, relations: seq<Relation>, script: Script): seq<Relation> {
    if id == FirstRun then Kept(relations, NotOnRelease) + [OnRelease(script)] else relations
  }

  function NewLookup(id: Id, lookup: Option<Lookup>, script: Script): Option<Lookup> {
    if id == Release then Some(script.releaseLookup)
    else if id == FirstRun then
      var l := if lookup.Some? then lookup.value else Lookup([], [], map[]);
      Some(l.(pathPatterns := Appended(l.pathPatterns, script.firstRunPatterns),
              taskTerms := Appended(l.taskTerms, script.firstRunTerms)))
    else lookup
  }

  function NewMetadata(id: Id, metadata: Fields, script: Script): Fields {
    if id == FirstRun then metadata + script.setupFields
    else if id == WorkPackage then metadata["capability_roles" := script.capabilityRoles]
    else metadata
  }

  function NewSurfaces(id: Id, surfaces: seq<SurfaceId>, script: Script): seq<SurfaceId> {
    if id == Release then script.releaseSurfaces else surfaces
  }

  /** No appended write field is one that the same branch drops. */
  predicate Lawful(script: Script) {
    (forall value :: value in script.evidenceWrites ==> NotEligibility(value)) &&
    (forall value :: value in script.correctionWrites ==> NotVisualIntent(value))
  }

  /** An active row after one turn of the loop. */
  function Refreshed(row: Commitment, script: Script): Result<Commitment, Fault> {
    var writes :- NewWrites(row.id, row.owner, row.stateWrites, script);
    Ok(Commitment(row.id, row.owner, row.replacement,
                  Some(StaleEvidence(row.evidence, script)), Some(NewAuthority(row.id, row.authority, script)),
                  NewLookup(row.id, row.lookup, script), writes, NewSurfaces(row.id, row.surfaces, script),
                  NewRelations(row.id, row.relations, script), NewMetadata(row.id, row.metadata, script),
                  NewRest(row.id, row.rest, script)))
  }

  /** A row after one turn of the loop. */
  function Rewritten(row: Commitment, script: Script): Result<Commitment, Fault> {
    if Active(row) then Refreshed(Named(row, script), script) else Ok(Named(row, script))
  }

  /** The branches that only edit `state_writes` (and, for `BC-PR-000`, one authority field). */
  method BranchWrites(id: Id, before: seq<string>, script: Script) returns (writes: seq<string>)
    requires id !in {Release, FirstRun}
    ensures forall owner :: !TakesModelWrites(id) ==> NewWrites(id, owner, before, script) == Ok(writes)
  {
    writes := before;
    match id
    case Orchestration => writes := AppendUnique(writes, script.orchestrationWrites);
    case SourceInventory => writes := SourceWrites(writes, script.sourceWrites);
    case EvidenceAnchors => writes := AppendUnique(Kept(writes, NotEligibility), script.evidenceWrites);
    case LogicalEvents => writes := AppendUnique(writes, script.traceWrites);
    case Matters => writes := AppendUnique(writes, script.matterWrites);
    case Corrections => writes := AppendUnique(Kept(writes, NotVisualIntent), script.correctionWrites);
    case Findings => writes := script.analysisWrites;
    case ObjectBrowser => writes := AppendUnique(Kept(writes, NotCardVisual), script.projectionWrites);
    case Maintenance => writes := script.maintenance.writes;
    case Gateway => writes := script.gateway.writes;
    case _ =>
  }

  /** The `BC-DP-004` branch. */
  method RewriteFirstRun(row: Commitment, script: Script) returns (r: Commitment)
    ensures r == row.(
      metadata := NewMetadata(FirstRun, row.metadata, script),
      rest := row.rest + OwnRest(FirstRun, script),
      stateWrites := Appended([], row.stateWrites + script.installationWrites),
      lookup := NewLookup(FirstRun, row.lookup, script),
      relations := NewRelations(FirstRun, row.relations, script))
  {
    var writes := AppendUnique([], row.stateWrites + script.installationWrites);
    var lookup := if row.lookup.Some? then row.lookup.value else Lookup([], [], map[]);
    var patterns := AppendUnique(lookup.pathPatterns, script.firstRunPatterns);
    var terms := AppendUnique(lookup.taskTerms, script.firstRunTerms);
    var others := Kept(row.relations, NotOnRelease);
    var relations := AppendUnique(others, [OnRelease(script)]);
    assert OnRelease(script) !in others;
    r := row.(metadata := row.metadata + script.setupFields,
              rest := row.rest + OwnRest(FirstRun, script),
              stateWrites := writes,
              lookup := Some(lookup.(pathPatterns := patterns, taskTerms := terms)),
              relations := relations);
  }

  /** The `if`/`elif` chain on the commitment id. */
  method RunBranch(before: Commitment, script: Script) returns (row: Commitment)
    requires before.authority.Some?
    ensures !TakesModelWrites(before.id) ==> NewWrites(before.id, before.owner, before.stateWrites, script) == Ok(row.stateWrites)
    ensures row == before.(
      stateWrites := row.stateWrites,
      rest := before.rest + OwnRest(before.id, script),
      authority := Some(before.authority.value + OwnAuthority(before.id, script)),
      lookup := NewLookup(before.id, before.lookup, script),
      surfaces := NewSurfaces(before.id, before.surfaces, script),
      relations := NewRelations(before.id, before.relations, script),
      metadata := NewMetadata(before.id, before.metadata, script))
  {
    row := before;
    assert row.rest + map[] == row.rest && row.authority.value + map[] == row.authority.value;
    match row.id
    case Release =>
      row := row.(rest := row.rest + script.releaseFields, surfaces := script.releaseSurfaces,
                  stateWrites := script.releaseWrites, lookup := Some(script.releaseLookup),
                  authority := Some(row.authority.value + OwnAuthority(Release, script)));
    case FirstRun =>
      row := RewriteFirstRun(row, script);
    case WorkPackage =>
      row := row.(metadata := row.metadata["capability_roles" := script.capabilityRoles]);
    case _ =>
      var writes := BranchWrites(row.id, row.stateWrites, script);
      row := row.(stateWrites := writes, authority := Some(row.authority.value + OwnAuthority(row.id, script)));
  }

  method RefreshRow(before: Commitment, script: Script) returns (r: Result<Commitment, Fault>)
    ensures r == Refreshed(before, script)
  {
    var row := before.(rest := before.rest + map["model_sync_state" := Text("owner_model_current")],
                       evidence := Some(StaleEvidence(before.evidence, script)),
                       authority := Some((if before.authority.Some? then before.authority.value else map[]) + BlockedPath(script)));
    row := RunBranch(row, script);
    if TakesModelWrites(row.id) {
      if row.owner !in script.models {
        return Err(NoSuchModel(row.owner));
      }
      row := row.(stateWrites := script.models[row.owner]);
    }
    r := Ok(row);
  }

  method RewriteRow(before: Commitment, script: Script) returns (r: Result<Commitment, Fault>)
    ensures r == Rewritten(before, script)
  {
    var row := Named(before, script);
    if row.replacement.Some? && row.replacement.value != "active" {
      return Ok(row);
    }
    r := RefreshRow(row, script);
  }
}
