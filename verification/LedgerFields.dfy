/** The rebased ledger field by field: rewritten rows, added rows and bound surfaces, read from the script's own lists. */
module LedgerFields {
  import opened Basics
  import opened LedgerRows
  import opened LedgerRowLaws
  import opened LedgerRebase
  import opened LedgerRebaseLaws
  import opened LedgerRebaseEffect

  // ----- one turn of the row loop

  function EvidenceOf(row: Commitment): Evidence {
    if row.evidence.Some? then row.evidence.value else Evidence(map[], map[], [], [])
  }

  function AuthorityOf(row: Commitment): Fields {
    if row.authority.Some? then row.authority.value else map[]
  }

  /** The evidence is stale: three fields and two metadata entries change, what it obliges to stays. */
  predicate EvidenceReads(after: Evidence, before: Evidence, script: Script) {
    && after.fields == before.fields["current" := Flag(false)]["evidence_state" := Text("stale")]["test_mesh_state" := Text("stale")]
    && after.metadata == before.metadata["scope_revision" := Text(script.revision)]["stale_reason" := script.staleReason]
    && after.obligations == before.obligations && after.gates == before.gates
  }

  function BlockedFields(authority: Fields, script: Script): Fields {
    authority["evidence_current" := Flag(false)]["ppa_ok" := Flag(false)]["ppa_confidence" := Text("blocked")]
             ["ppa_decision" := Text("primary_path_authority_blocked")]["scoped_out_reason" := script.blockedReason]
  }

  /** The path authority is blocked; the situation row gets its intent, the release row its intent, path and reason. */
  predicate AuthorityReads(id: Id, after: Fields, before: Fields, script: Script) {
    var blocked := BlockedFields(before, script);
    after ==
      match id
      case Orchestration => blocked["business_intent" := script.situationIntent]
      case Release =>
        blocked["business_intent" := script.releaseIntent]["primary_path_id" := Text(script.releasePath)]
               ["scoped_out_reason" := script.releaseReason]
      case _ => blocked
  }

  /** The remaining fields: the update of the id, the sync mark, and what the release and first-run branches set. */
  predicate RestReads(id: Id, after: Fields, before: Fields, script: Script) {
    var updated := if id in script.updates then before + script.updates[id] else before;
    var marked := updated["model_sync_state" := Text("owner_model_current")];
    after ==
      match id
      case Release => marked + script.releaseFields
      case FirstRun => marked["validation_boundary" := script.firstRunBoundary]
      case _ => marked
  }

  predicate LookupReads(id: Id, after: Option<Lookup>, before: Option<Lookup>, script: Script) {
    match id
    case Release => after == Some(script.releaseLookup)
    case FirstRun =>
      var l := if before.Some? then before.value else Lookup([], [], map[]);
      && after.Some? && after.value.rest == l.rest
      && after.value.pathPatterns == Appended(l.pathPatterns, script.firstRunPatterns)
      && after.value.taskTerms == Appended(l.taskTerms, script.firstRunTerms)
    case _ => after == before
  }

  predicate MetadataReads(id: Id, after: Fields, before: Fields, script: Script) {
    after ==
      match id
      case FirstRun => before + script.setupFields
      case WorkPackage => before["capability_roles" := script.capabilityRoles]
      case _ => before
  }

  /** Only the first-run row's relations change: the ones on the release give way to one, at the end. */
  predicate RelationsRead(id: Id, after: seq<Relation>, before: seq<Relation>, script: Script) {
    if id == FirstRun then
      after == Kept(before, (r: Relation) => !(r.kind == "depends_on" && r.target == Release))
               + [Relation("depends_on", Release, script.firstRunRelation)]
    else after == before
  }

  /** Six rows take their writes from the owning model; of the others each ends with what it keeps and what is listed
      for it, in that order where nothing repeats. */
  ghost predicate WritesRead(row: Commitment, after: seq<string>, script: Script) {
    if row.id in {Orchestration, LogicalEvents, Matters, Lifecycle, Findings, ObjectBrowser} then
      row.owner in script.models && after == script.models[row.owner]
    else
      var kept := Kept(row.stateWrites, (value: string) => KeepsWrite(row.id, value, script));
      && (forall x :: x in after <==> x in kept || x in ListedWrites(row.id, script))
      && (NoDuplicates(kept + ListedWrites(row.id, script)) ==> after == kept + ListedWrites(row.id, script))
      && (row.id != FirstRun ==> kept <= after)
  }

  /** A row after its turn, every field of it. */
  ghost predicate TurnReads(before: Commitment, after: Commitment, script: Script) {
    && after.id == before.id && after.owner == before.owner && after.replacement == before.replacement
    && after.evidence.Some? && EvidenceReads(after.evidence.value, EvidenceOf(before), script)
    && after.authority.Some? && AuthorityReads(before.id, after.authority.value, AuthorityOf(before), script)
    && LookupReads(before.id, after.lookup, before.lookup, script) && WritesRead(before, after.stateWrites, script)
    && after.surfaces == (if before.id == Release then script.releaseSurfaces else before.surfaces)
    && RelationsRead(before.id, after.relations, before.relations, script)
    && MetadataReads(before.id, after.metadata, before.metadata, script)
    && RestReads(before.id, after.rest, before.rest, script)
  }

  lemma {:induction false} KeptAlike<T(!new)>(s: seq<T>, f: T -> bool, g: T -> bool)
    requires forall x :: f(x) == g(x)
    ensures Kept(s, f) == Kept(s, g)
  {
    if s != [] {
      KeptAlike(s[1..], f, g);
    }
  }

  lemma MergeOne(m: Fields, k: string, v: Json)
    ensures m + map[k := v] == m[k := v]
    ensures m + map[] == m
  {
  }

  lemma MergeThree(m: Fields, k1: string, v1: Json, k2: string, v2: Json, k3: string, v3: Json)
    ensures m + map[k1 := v1, k2 := v2, k3 := v3] == m[k1 := v1][k2 := v2][k3 := v3]
  {
  }

  lemma BlockedIs(authority: Fields, script: Script)
    ensures authority + BlockedPath(script) == BlockedFields(authority, script)
  {
  }

  lemma AuthorityIs(id: Id, authority: Option<Fields>, script: Script)
    ensures AuthorityReads(id, NewAuthority(id, authority, script), if authority.Some? then authority.value else map[], script)
  {
    var a := if authority.Some? then authority.value else map[];
    BlockedIs(a, script);
    MergeOne(BlockedFields(a, script), "business_intent", script.situationIntent);
    MergeThree(BlockedFields(a, script), "business_intent", script.releaseIntent, "primary_path_id", Text(script.releasePath),
               "scoped_out_reason", script.releaseReason);
  }

  lemma EvidenceIs(evidence: Option<Evidence>, script: Script)
    ensures EvidenceReads(StaleEvidence(evidence, script), if evidence.Some? then evidence.value else Evidence(map[], map[], [], []), script)
  {
  }

  lemma RestIs(id: Id, rest: Fields, script: Script)
    ensures RestReads(id, NewRest(id, rest + Updates(id, script), script), rest, script)
  {
    var updated := if id in script.updates then rest + script.updates[id] else rest;
    MergeOne(rest, "", Flag(false));
    MergeOne(updated, "model_sync_state", Text("owner_model_current"));
    MergeOne(updated["model_sync_state" := Text("owner_model_current")], "validation_boundary", script.firstRunBoundary);
  }

  lemma RelationsAre(id: Id, relations: seq<Relation>, script: Script)
    ensures RelationsRead(id, NewRelations(id, relations, script), relations, script)
  {
    KeptAlike(relations, NotOnRelease, (r: Relation) => !(r.kind == "depends_on" && r.target == Release));
  }

  /** What a row keeps of its writes, by its branch. */
  function KeptPart(id: Id, writes: seq<string>, script: Script): seq<string> {
    match id
    case SourceInventory => Kept(writes, NotSuperseded(script.sourceWrites))
    case EvidenceAnchors => Kept(writes, NotEligibility)
    case Corrections => Kept(writes, NotVisualIntent)
    case Release | Maintenance | Gateway => []
    case _ => writes
  }

  lemma KeptWrites(id: Id, writes: seq<string>, script: Script)
    ensures Kept(writes, (value: string) => KeepsWrite(id, value, script)) == KeptPart(id, writes, script)
  {
    var keeps := (value: string) => KeepsWrite(id, value, script);
    match id
    case SourceInventory => KeptAlike(writes, keeps, NotSuperseded(script.sourceWrites));
    case EvidenceAnchors => KeptAlike(writes, keeps, NotEligibility);
    case Corrections => KeptAlike(writes, keeps, NotVisualIntent);
    case Release => KeptNone(writes, keeps);
    case Maintenance => KeptNone(writes, keeps);
    case Gateway => KeptNone(writes, keeps);
    case _ => KeptAll(writes, keeps);
  }

  /** How a branch puts together what it keeps and what is listed for it. */
  function Joined(id: Id, kept: seq<string>, listed: seq<string>): seq<string> {
    if id == FirstRun then Appended([], kept + listed)
    else if id == EvidenceAnchors || id == Corrections then Appended(kept, listed)
    else kept + listed
  }

  lemma ReplacedWritesJoined(id: Id, owner: string, writes: seq<string>, script: Script)
    requires id == Release || id == Maintenance || id == Gateway
    ensures NewWrites(id, owner, writes, script) == Ok(Joined(id, KeptPart(id, writes, script), ListedWrites(id, script)))
  {
    assert [] + ListedWrites(id, script) == ListedWrites(id, script);
  }

  lemma KeptWritesJoined(id: Id, owner: string, writes: seq<string>, script: Script)
    requires id == FirstRun || id == SourceInventory || id == EvidenceAnchors || id == Corrections
    ensures NewWrites(id, owner, writes, script) == Ok(Joined(id, KeptPart(id, writes, script), ListedWrites(id, script)))
  {
  }

  lemma WritesJoined(id: Id, owner: string, writes: seq<string>, script: Script)
    requires !TakesModelWrites(id)
    ensures NewWrites(id, owner, writes, script) == Ok(Joined(id, KeptPart(id, writes, script), ListedWrites(id, script)))
  {
    if id == Release || id == Maintenance || id == Gateway {
      ReplacedWritesJoined(id, owner, writes, script);
    } else if id == FirstRun || id == SourceInventory || id == EvidenceAnchors || id == Corrections {
      KeptWritesJoined(id, owner, writes, script);
    } else {
      assert writes + [] == writes;
    }
  }

  lemma JoinedLists(kept: seq<string>, listed: seq<string>)
    ensures kept <= Appended(kept, listed)
    ensures NoDuplicates(kept + listed) ==> Appended(kept, listed) == Appended([], kept + listed) == kept + listed
  {
    AppendedMembers(kept, listed);
    if NoDuplicates(kept + listed) {
      AppendedDistinct(kept, listed);
      assert [] + (kept + listed) == kept + listed;
      AppendedDistinct([], kept + listed);
    }
  }

  lemma WritesOrder(id: Id, owner: string, writes: seq<string>, script: Script)
    requires !TakesModelWrites(id)
    ensures var kept, listed := Kept(writes, (value: string) => KeepsWrite(id, value, script)), ListedWrites(id, script);
      var after := NewWrites(id, owner, writes, script).value;
      (NoDuplicates(kept + listed) ==> after == kept + listed) && (id != FirstRun ==> kept <= after)
  {
    KeptWrites(id, writes, script);
    WritesJoined(id, owner, writes, script);
    JoinedLists(KeptPart(id, writes, script), ListedWrites(id, script));
  }

  lemma WritesAre(row: Commitment, script: Script)
    requires NewWrites(row.id, row.owner, row.stateWrites, script).Ok?
    ensures WritesRead(row, NewWrites(row.id, row.owner, row.stateWrites, script).value, script)
  {
    if !TakesModelWrites(row.id) {
      WritesMeaning(row.id, row.owner, row.stateWrites, script);
      WritesOrder(row.id, row.owner, row.stateWrites, script);
    }
  }

  /** Every field of an active row after its turn. */
  lemma TurnFields(row: Commitment, script: Script)
    requires Active(row) && Rewritten(row, script).Ok?
    ensures TurnReads(row, Rewritten(row, script).value, script)
  {
    EvidenceIs(row.evidence, script);
    AuthorityIs(row.id, row.authority, script);
    RelationsAre(row.id, row.relations, script);
    RestIs(row.id, row.rest, script);
    WritesAre(row, script);
  }

  /** A row with no replacement state, or with the state "active", is active. */
  lemma ActiveIff(row: Commitment)
    ensures Active(row) <==> row.replacement == None || row.replacement == Some("active")
  {
  }

  // ----- the rows the script adds

  /** A row made from the template `t`: what the script states for it, and everything else as the template has it. */
  predicate MadeFrom(row: Commitment, t: Commitment, id: Id, f: Founding, surface: SurfaceId) {
    && row.id == id && row.owner == f.owner && row.replacement == t.replacement
    && row.evidence.Some? && t.evidence.Some? && row.authority.Some? && t.authority.Some?
    && row.evidence.value.fields == t.evidence.value.fields && row.evidence.value.metadata == t.evidence.value.metadata
    && row.evidence.value.obligations == f.obligations && row.evidence.value.gates == f.gates
    && row.authority.value == t.authority.value + f.authority && row.lookup == Some(f.lookup)
    && row.stateWrites == f.writes && row.surfaces == [surface] && row.relations == f.relations
    && row.metadata == f.metadata && row.rest == t.rest + f.rest
  }

  /** The first work-package row serves as the template. */
  predicate IsTemplate(rows: seq<Commitment>, t: Commitment) {
    exists i :: 0 <= i < |rows| && rows[i] == t && t.id == WorkPackage && forall k :: 0 <= k < i ==> rows[k].id != WorkPackage
  }

  lemma EnsuredRow(s: State, id: Id, f: Founding, surface: SurfaceId) returns (t: Commitment, row: Commitment)
    requires WithCommitment(s, id, f, surface).Ok? && id !in Ids(s.commitments)
    ensures WithCommitment(s, id, f, surface).value.commitments == s.commitments + [row]
    ensures IsTemplate(s.commitments, t) && MadeFrom(row, t, id, f, surface)
  {
    var i := First(Ids(s.commitments), WorkPackage).value;
    t := s.commitments[i];
    row := Founded(t, id, f, surface);
    forall k | 0 <= k < i
      ensures s.commitments[k].id != WorkPackage
    {
      assert Ids(s.commitments)[..i][k] == s.commitments[k].id;
    }
    assert IsTemplate(s.commitments, t);
  }

  /** What is expected of the ledger grows by what was added. */
  lemma EnsuredLists(s: State, id: Id, f: Founding, surface: SurfaceId)
    requires WithCommitment(s, id, f, surface).Ok?
    ensures var r, added := WithCommitment(s, id, f, surface).value, id !in Ids(s.commitments);
      && (forall x :: x in r.expectedCommitments <==> x in s.expectedCommitments || (added && x == id))
      && (forall x :: x in r.expectedIntents <==> x in s.expectedIntents || (added && x == f.intent))
      && s.expectedCommitments <= r.expectedCommitments && s.expectedIntents <= r.expectedIntents
  {
    AppendedMembers(s.expectedCommitments, [id]);
    AppendedMembers(s.expectedIntents, [f.intent]);
  }

  // ----- all rows before the loop

  /** The surfaces of an old row once its commitment is bound: only the first row of an id is. */
  function BoundSurfaces(rows: seq<Commitment>, i: nat): seq<SurfaceId>
    requires i < |rows|
  {
    if rows[i].id in Ids(rows)[..i] then rows[i].surfaces
    else match rows[i].id
      case Maintenance => [MaintenanceTasks]
      case Gateway => [GatewayTasks]
      case FirstRun => Appended([], rows[i].surfaces + [PublicSkill, PublicReadme, PluginMetadata])
      case _ => rows[i].surfaces
  }

  predicate OldRow(rows: seq<Commitment>, i: nat, row: Commitment, bound: set<Id>)
    requires i < |rows|
  {
    row == if rows[i].id in bound then rows[i].(surfaces := BoundSurfaces(rows, i)) else rows[i]
  }

  /** A row of the two commitments the script owns, made from the template. */
  ghost predicate AddedRow(rows: seq<Commitment>, row: Commitment, script: Script) {
    exists t :: IsTemplate(rows, t) &&
      (|| MadeFrom(row, t, Maintenance, script.maintenance, MaintenanceTasks)
       || MadeFrom(row, t, Gateway, script.gateway, GatewayTasks))
  }

  /** The old rows in their places, with the commitments in `bound` bound, then the added ones. */
  ghost predicate Grown(a: seq<Commitment>, b: seq<Commitment>, script: Script, bound: set<Id>) {
    && |a| <= |b|
    && (forall i :: 0 <= i < |a| ==> OldRow(a, i, b[i], bound))
    && (forall j :: |a| <= j < |b| ==> AddedRow(a, b[j], script))
  }

  lemma GrownIds(a: seq<Commitment>, b: seq<Commitment>, script: Script, bound: set<Id>)
    requires Grown(a, b, script, bound)
    ensures Ids(b)[..|a|] == Ids(a)
    ensures forall j :: |a| <= j < |b| ==> b[j].id == Maintenance || b[j].id == Gateway
  {
    forall i | 0 <= i < |a|
      ensures b[i].id == a[i].id
    {
      assert OldRow(a, i, b[i], bound);
    }
    forall j | |a| <= j < |b|
      ensures b[j].id == Maintenance || b[j].id == Gateway
    {
      assert AddedRow(a, b[j], script);
    }
  }

  lemma TemplateIsOld(a: seq<Commitment>, b: seq<Commitment>, t: Commitment, script: Script, bound: set<Id>)
    requires Grown(a, b, script, bound) && IsTemplate(b, t)
    ensures IsTemplate(a, t)
  {
    GrownIds(a, b, script, bound);
    var i :| 0 <= i < |b| && b[i] == t && t.id == WorkPackage && forall k :: 0 <= k < i ==> b[k].id != WorkPackage;
    assert OldRow(a, i, b[i], bound);
    forall k | 0 <= k < i
      ensures a[k].id != WorkPackage
    {
      assert OldRow(a, k, b[k], bound);
    }
    assert a[i] == t;
  }

  predicate Owns(id: Id, f: Founding, surface: SurfaceId, script: Script) {
    || (id == Maintenance && f == script.maintenance && surface == MaintenanceTasks)
    || (id == Gateway && f == script.gateway && surface == GatewayTasks)
  }

  lemma AddingGrows(a: seq<Commitment>, b: seq<Commitment>, row: Commitment, script: Script, bound: set<Id>)
    requires Grown(a, b, script, bound) && AddedRow(a, row, script)
    ensures Grown(a, b + [row], script, bound)
  {
  }

  lemma MadeIsAdded(a: seq<Commitment>, b: seq<Commitment>, row: Commitment, t: Commitment, id: Id, f: Founding, surface: SurfaceId,
                    script: Script, bound: set<Id>)
    requires Grown(a, b, script, bound) && Owns(id, f, surface, script)
    requires IsTemplate(b, t) && MadeFrom(row, t, id, f, surface)
    ensures AddedRow(a, row, script)
  {
    TemplateIsOld(a, b, t, script, bound);
  }

  lemma EnsuringGrows(a: seq<Commitment>, s: State, id: Id, f: Founding, surface: SurfaceId, script: Script, bound: set<Id>)
    requires Grown(a, s.commitments, script, bound) && Owns(id, f, surface, script)
    requires WithCommitment(s, id, f, surface).Ok?
    ensures Grown(a, WithCommitment(s, id, f, surface).value.commitments, script, bound)
  {
    if id !in Ids(s.commitments) {
      var t, row := EnsuredRow(s, id, f, surface);
      MadeIsAdded(a, s.commitments, row, t, id, f, surface, script, bound);
      AddingGrows(a, s.commitments, row, script, bound);
    }
  }

  lemma SettingRow(rows: seq<Commitment>, id: Id, surfaces: seq<SurfaceId>, i: nat)
    requires WithSurfaces(rows, id, surfaces).Ok? && i < |rows|
    ensures |WithSurfaces(rows, id, surfaces).value| == |rows|
    ensures WithSurfaces(rows, id, surfaces).value[i] ==
            if rows[i].id == id && id !in Ids(rows)[..i] then rows[i].(surfaces := surfaces) else rows[i]
  {
    if rows[i].id == id && id !in Ids(rows)[..i] {
      FirstUnique(Ids(rows), id, i);
    }
  }

  /** The surfaces a binding step sets on the first row of its commitment. */
  predicate Binds(a: seq<Commitment>, id: Id, surfaces: seq<SurfaceId>) {
    || (id == Maintenance && surfaces == [MaintenanceTasks])
    || (id == Gateway && surfaces == [GatewayTasks])
    || (id == FirstRun && forall i :: 0 <= i < |a| && a[i].id == FirstRun && FirstRun !in Ids(a)[..i] ==> surfaces == BoundSurfaces(a, i))
  }

  lemma SettingRowsExtend(rows: seq<Commitment>, id: Id, surfaces: seq<SurfaceId>)
    requires WithSurfaces(rows, id, surfaces).Ok?
    ensures |WithSurfaces(rows, id, surfaces).value| == |rows|
  {
  }

  lemma OldRowSet(a: seq<Commitment>, b: seq<Commitment>, id: Id, surfaces: seq<SurfaceId>, script: Script, bound: set<Id>, i: nat)
    requires Grown(a, b, script, bound) && id !in bound && Binds(a, id, surfaces) && WithSurfaces(b, id, surfaces).Ok?
    requires i < |a|
    ensures |a| <= |WithSurfaces(b, id, surfaces).value|
    ensures OldRow(a, i, WithSurfaces(b, id, surfaces).value[i], bound + {id})
  {
    GrownIds(a, b, script, bound);
    SettingRow(b, id, surfaces, i);
    assert OldRow(a, i, b[i], bound);
    assert Ids(b)[..i] == Ids(b)[..|a|][..i] == Ids(a)[..i];
  }

  lemma AddedRowSet(a: seq<Commitment>, b: seq<Commitment>, id: Id, surfaces: seq<SurfaceId>, script: Script, bound: set<Id>, j: nat)
    requires Grown(a, b, script, bound) && Binds(a, id, surfaces) && WithSurfaces(b, id, surfaces).Ok?
    requires |a| <= j < |b|
    ensures |WithSurfaces(b, id, surfaces).value| == |b|
    ensures AddedRow(a, WithSurfaces(b, id, surfaces).value[j], script)
  {
    SettingRow(b, id, surfaces, j);
    assert AddedRow(a, b[j], script);
    var t :| IsTemplate(a, t) &&
      (|| MadeFrom(b[j], t, Maintenance, script.maintenance, MaintenanceTasks)
       || MadeFrom(b[j], t, Gateway, script.gateway, GatewayTasks));
    assert WithSurfaces(b, id, surfaces).value[j] == b[j];
  }

  lemma SettingGrows(a: seq<Commitment>, b: seq<Commitment>, id: Id, surfaces: seq<SurfaceId>, script: Script, bound: set<Id>)
    requires Grown(a, b, script, bound) && id !in bound && Binds(a, id, surfaces) && WithSurfaces(b, id, surfaces).Ok?
    ensures Grown(a, WithSurfaces(b, id, surfaces).value, script, bound + {id})
  {
    GrownIds(a, b, script, bound);
    var after := WithSurfaces(b, id, surfaces).value;
    SettingRowsExtend(b, id, surfaces);
    forall i | 0 <= i < |a|
      ensures OldRow(a, i, after[i], bound + {id})
    {
      OldRowSet(a, b, id, surfaces, script, bound, i);
    }
    forall j | |a| <= j < |b|
      ensures AddedRow(a, after[j], script)
    {
      AddedRowSet(a, b, id, surfaces, script, bound, j);
    }
  }

  lemma GrownFromItself(a: seq<Commitment>, script: Script)
    ensures Grown(a, a, script, {})
  {
  }

  lemma MaintenanceGrows(s: State, script: Script)
    requires MaintenancePrepared(s, script).Ok?
    ensures Grown(s.commitments, MaintenancePrepared(s, script).value.commitments, script, {Maintenance})
  {
    var s0 := s.(revision := script.revision, scope := "routine");
    var s1 := WithCommitment(s0, Maintenance, script.maintenance, MaintenanceTasks).value;
    GrownFromItself(s.commitments, script);
    EnsuringGrows(s.commitments, s0, Maintenance, script.maintenance, MaintenanceTasks, script, {});
    SettingGrows(s.commitments, s1.commitments, Maintenance, [MaintenanceTasks], script, {});
    assert {} + {Maintenance} == {Maintenance};
  }

  lemma GatewayGrows(a: seq<Commitment>, s: State, script: Script)
    requires Grown(a, s.commitments, script, {Maintenance}) && WithGatewaySurface(s, script).Ok?
    ensures Grown(a, WithGatewaySurface(s, script).value.commitments, script, {Maintenance, Gateway})
  {
    SettingGrows(a, s.commitments, Gateway, [GatewayTasks], script, {Maintenance});
    assert {Maintenance} + {Gateway} == {Maintenance, Gateway};
  }

  /** The first-run row lists the three installation surfaces after its own, each once. */
  lemma FirstRunBinds(a: seq<Commitment>, b: seq<Commitment>, script: Script, bound: set<Id>)
    requires Grown(a, b, script, bound) && FirstRun !in bound && FirstRun in Ids(b)
    ensures Binds(a, FirstRun, Appended([], SurfacesOf(b, FirstRun) + SurfaceIds(InstallationSurfaces(script))))
  {
    GrownIds(a, b, script, bound);
    assert SurfaceIds(InstallationSurfaces(script)) == [PublicSkill, PublicReadme, PluginMetadata];
    forall i | 0 <= i < |a| && a[i].id == FirstRun && FirstRun !in Ids(a)[..i]
      ensures SurfacesOf(b, FirstRun) == a[i].surfaces
    {
      assert OldRow(a, i, b[i], bound);
      assert Ids(b)[..i] == Ids(b)[..|a|][..i] == Ids(a)[..i];
      FirstUnique(Ids(b), FirstRun, i);
    }
  }

  lemma InstallationGrows(a: seq<Commitment>, s: State, script: Script)
    requires Grown(a, s.commitments, script, {Maintenance, Gateway}) && WithInstallationSurfaces(s, script).Ok?
    ensures Grown(a, WithInstallationSurfaces(s, script).value.commitments, script, {Maintenance, Gateway, FirstRun})
  {
    FirstRunBinds(a, s.commitments, script, {Maintenance, Gateway});
    SettingGrows(a, s.commitments, FirstRun, Appended([], SurfacesOf(s.commitments, FirstRun) + SurfaceIds(InstallationSurfaces(script))),
                 script, {Maintenance, Gateway});
    assert {Maintenance, Gateway} + {FirstRun} == {Maintenance, Gateway, FirstRun};
  }

  lemma PreparedGrows(s: State, script: Script)
    requires Prepared(s, script).Ok?
    ensures Grown(s.commitments, Prepared(s, script).value.commitments, script, {Maintenance, Gateway, FirstRun})
  {
    MaintenanceGrows(s, script);
    var s2 := MaintenancePrepared(s, script).value;
    EnsuringGrows(s.commitments, s2, Gateway, script.gateway, GatewayTasks, script, {Maintenance});
    var s3 := WithCommitment(s2, Gateway, script.gateway, GatewayTasks).value;
    GatewayGrows(s.commitments, s3, script);
    InstallationGrows(s.commitments, WithGatewaySurface(s3, script).value, script);
  }

  // ----- all rows of the rebased ledger

  /** A gateway relation to the object browser or to maintenance becomes an invocation, every other one stays. */
  predicate RelationInvoked(after: Relation, before: Relation) {
    after == if before.target == ObjectBrowser || before.target == Maintenance then before.(kind := "invokes") else before
  }

  predicate RelationsInvoked(after: seq<Relation>, before: seq<Relation>) {
    |after| == |before| && forall k :: 0 <= k < |before| ==> RelationInvoked(after[k], before[k])
  }

  /** A retired row only takes its update. */
  predicate OnlyUpdated(before: Commitment, after: Commitment, script: Script) {
    after == before.(rest := if before.id in script.updates then before.rest + script.updates[before.id] else before.rest)
  }

  /** The row after its turn, before the gateway's relations are looked at. */
  ghost predicate IsTurned(before: Commitment, turned: Commitment, script: Script) {
    if before.replacement == None || before.replacement == Some("active") then TurnReads(before, turned, script)
    else OnlyUpdated(before, turned, script)
  }

  /** A row at the end of the script: turned if it is active and only updated if it is not; the gateway invokes. */
  ghost predicate RowEnds(before: Commitment, after: Commitment, script: Script) {
    exists turned: Commitment ::
      && IsTurned(before, turned, script)
      && after == turned.(relations := after.relations)
      && (if before.id == Gateway then RelationsInvoked(after.relations, turned.relations) else after.relations == turned.relations)
  }

  lemma RetiredIsUpdated(row: Commitment, script: Script)
    requires !Active(row) && Rewritten(row, script).Ok?
    ensures OnlyUpdated(row, Rewritten(row, script).value, script)
  {
    TurnInvalidates(row, script);
    MergeOne(row.rest, "", Flag(false));
  }

  lemma TurnedSo(row: Commitment, script: Script)
    requires Rewritten(row, script).Ok?
    ensures IsTurned(row, Rewritten(row, script).value, script) && Rewritten(row, script).value.id == row.id
  {
    ActiveIff(row);
    TurnKeeps(row, script);
    if Active(row) {
      TurnFields(row, script);
    } else {
      RetiredIsUpdated(row, script);
    }
  }

  lemma EndsFromTurned(row: Commitment, turned: Commitment, script: Script)
    requires IsTurned(row, turned, script) && turned.id == row.id
    ensures RowEnds(row, GatewayInvokes(turned), script)
  {
    assert RelationsInvoked(AllInvoking(turned.relations), turned.relations);
  }

  lemma RowEndsSo(row: Commitment, script: Script)
    requires Rewritten(row, script).Ok?
    ensures RowEnds(row, GatewayInvokes(Rewritten(row, script).value), script)
  {
    var turned := Rewritten(row, script).value;
    TurnedSo(row, script);
    EndsFromTurned(row, turned, script);
  }

  /** What an old row ends as: the first maintenance, gateway and first-run rows are bound to their surfaces first. */
  ghost predicate OldRowEnds(rows: seq<Commitment>, i: nat, after: Commitment, script: Script)
    requires i < |rows|
  {
    exists ready :: OldRow(rows, i, ready, {Maintenance, Gateway, FirstRun}) && RowEnds(ready, after, script)
  }

  /** What a row ends as that the script adds. */
  ghost predicate AddedRowEnds(rows: seq<Commitment>, after: Commitment, script: Script) {
    exists made :: AddedRow(rows, made, script) && RowEnds(made, after, script)
  }

  lemma EndsAt(s: State, script: Script, i: nat)
    requires Rebased(s, script).Ok? && i < |Prepared(s, script).value.commitments|
    ensures |Rebased(s, script).value.commitments| == |Prepared(s, script).value.commitments|
    ensures RowEnds(Prepared(s, script).value.commitments[i], Rebased(s, script).value.commitments[i], script)
  {
    var b := Prepared(s, script).value.commitments;
    RowsEach(b, script);
    RowEndsSo(b[i], script);
  }

  /** Every field of every commitment of the rebased ledger. The old rows are in their places, with the fields their
      turns give them; what follows them are the missing owned commitments, made from the template as the script
      states and then turned as well. */
  lemma RebasedRows(s: State, script: Script)
    requires Rebased(s, script).Ok?
    ensures var a, r := s.commitments, Rebased(s, script).value.commitments;
      && Ids(r) == Ids(a) + Missing(Ids(a))
      && (forall i :: 0 <= i < |a| ==> OldRowEnds(a, i, r[i], script))
      && (forall j :: |a| <= j < |r| ==> AddedRowEnds(a, r[j], script))
  {
    PreparedGrows(s, script);
    RebaseEffect(s, script);
    var a, b, r := s.commitments, Prepared(s, script).value.commitments, Rebased(s, script).value.commitments;
    forall i | 0 <= i < |b|
      ensures |r| == |b| && RowEnds(b[i], r[i], script)
    {
      EndsAt(s, script, i);
    }
    forall i | 0 <= i < |a|
      ensures OldRowEnds(a, i, r[i], script)
    {
      assert OldRow(a, i, b[i], {Maintenance, Gateway, FirstRun});
    }
    forall j | |a| <= j < |r|
      ensures AddedRowEnds(a, r[j], script)
    {
      assert AddedRow(a, b[j], script);
    }
  }

  // ----- the surfaces and the ledger's own fields

  /** The first surface of this id says this. */
  predicate SurfaceSays(surfaces: seq<Surface>, id: SurfaceId, commitment: Id, intent: string, path: string, notes: Fields) {
    exists i :: 0 <= i < |surfaces| && surfaces[i].id == id && id !in SurfaceIds(surfaces)[..i] &&
      surfaces[i].commitments == [commitment] && surfaces[i].intents == [intent] && surfaces[i].path == Some(path) &&
      forall k :: k in notes ==> k in surfaces[i].rest && surfaces[i].rest[k] == notes[k]
  }

  lemma HoldsSays(surfaces: seq<Surface>, d: Surface, commitment: Id, intent: string, path: string)
    requires Holds(surfaces, d) && d.commitments == [commitment] && d.intents == [intent] && d.path == Some(path)
    ensures SurfaceSays(surfaces, d.id, commitment, intent, path, d.rest)
  {
    var i := First(SurfaceIds(surfaces), d.id).value;
    assert Stamped(surfaces[i], d) == surfaces[i];
    assert surfaces[i].rest == surfaces[i].rest + d.rest;
  }

  /** No maintenance is left on the first private-first-run surface. */
  predicate FirstRunSurfaceFreed(surfaces: seq<Surface>, script: Script) {
    exists i :: 0 <= i < |surfaces| && surfaces[i].id == PrivateFirstRunTasks && PrivateFirstRunTasks !in SurfaceIds(surfaces)[..i]
      && Maintenance !in surfaces[i].commitments && script.maintenance.intent !in surfaces[i].intents
  }

  lemma FreedSo(surfaces: seq<Surface>, script: Script)
    requires FirstRunReleased(surfaces, script)
    ensures FirstRunSurfaceFreed(surfaces, script)
  {
    var i := First(SurfaceIds(surfaces), PrivateFirstRunTasks).value;
    var row := surfaces[i];
    assert row.commitments == Kept(row.commitments, NotMaintenance);
    assert row.intents == Kept(row.intents, NotIntent(script.maintenance.intent));
    assert forall x :: x in row.commitments ==> NotMaintenance(x);
    assert forall x :: x in row.intents ==> NotIntent(script.maintenance.intent)(x);
  }

  lemma SurfacesSaySo(surfaces: seq<Surface>, script: Script)
    requires SurfacesReady(surfaces, script)
    ensures FirstRunSurfaceFreed(surfaces, script)
    ensures SurfaceSays(surfaces, MaintenanceTasks, Maintenance, script.maintenance.intent, script.maintenance.path, script.maintenanceNotes)
    ensures SurfaceSays(surfaces, GatewayTasks, Gateway, script.gateway.intent, script.gateway.path, script.gatewayNotes)
    ensures SurfaceSays(surfaces, PublicSkill, FirstRun, script.firstRunIntent, script.firstRunPath, script.skillNotes)
    ensures SurfaceSays(surfaces, PublicReadme, FirstRun, script.firstRunIntent, script.firstRunPath, script.readmeNotes)
    ensures SurfaceSays(surfaces, PluginMetadata, FirstRun, script.firstRunIntent, script.firstRunPath, script.pluginNotes)
  {
    FreedSo(surfaces, script);
    HoldsSays(surfaces, MaintenanceSurface(script), Maintenance, script.maintenance.intent, script.maintenance.path);
    HoldsSays(surfaces, GatewaySurface(script), Gateway, script.gateway.intent, script.gateway.path);
    var ds := InstallationSurfaces(script);
    assert ds[0] in ds && ds[1] in ds && ds[2] in ds;
    HoldsSays(surfaces, ds[0], FirstRun, script.firstRunIntent, script.firstRunPath);
    HoldsSays(surfaces, ds[1], FirstRun, script.firstRunIntent, script.firstRunPath);
    HoldsSays(surfaces, ds[2], FirstRun, script.firstRunIntent, script.firstRunPath);
  }

  /** What the five bound surfaces and the freed one say after the rebase, and the revision and scope. */
  lemma RebasedSurfaces(s: State, script: Script)
    requires Rebased(s, script).Ok?
    ensures var r := Rebased(s, script).value;
      && r.revision == script.revision && r.scope == "routine" && FirstRunSurfaceFreed(r.surfaces, script)
      && SurfaceSays(r.surfaces, MaintenanceTasks, Maintenance, script.maintenance.intent, script.maintenance.path, script.maintenanceNotes)
      && SurfaceSays(r.surfaces, GatewayTasks, Gateway, script.gateway.intent, script.gateway.path, script.gatewayNotes)
      && SurfaceSays(r.surfaces, PublicSkill, FirstRun, script.firstRunIntent, script.firstRunPath, script.skillNotes)
      && SurfaceSays(r.surfaces, PublicReadme, FirstRun, script.firstRunIntent, script.firstRunPath, script.readmeNotes)
      && SurfaceSays(r.surfaces, PluginMetadata, FirstRun, script.firstRunIntent, script.firstRunPath, script.pluginNotes)
  {
    PreparedReady(s, script);
    PointedKeepsReady(Prepared(s, script).value.surfaces, script);
    SurfacesSaySo(Rebased(s, script).value.surfaces, script);
  }

  /** All surfaces stay in their places, those of other ids as they are; what is added has one of these ids. */
  predicate KeepsSurfaces(a: seq<Surface>, b: seq<Surface>, ids: set<SurfaceId>) {
    && |a| <= |b|
    && (forall i :: 0 <= i < |a| ==> b[i].id == a[i].id && (a[i].id !in ids ==> b[i] == a[i]))
    && (forall j :: |a| <= j < |b| ==> b[j].id in ids)
  }

  const BOUND_SURFACES: set<SurfaceId> :=
    {PrivateFirstRunTasks, MaintenanceTasks, GatewayTasks, PublicSkill, PublicReadme, PluginMetadata}

  lemma KeepsTransitive(a: seq<Surface>, b: seq<Surface>, c: seq<Surface>, ids: set<SurfaceId>)
    requires KeepsSurfaces(a, b, ids) && KeepsSurfaces(b, c, ids)
    ensures KeepsSurfaces(a, c, ids)
  {
  }

  lemma UpsertKeeps(surfaces: seq<Surface>, template: Surface, d: Surface, ids: set<SurfaceId>)
    requires d.id in ids
    ensures KeepsSurfaces(surfaces, Upserted(surfaces, template, d), ids)
  {
  }

  lemma {:induction false} UpsertAllKeeps(surfaces: seq<Surface>, template: Surface, ds: seq<Surface>, ids: set<SurfaceId>)
    requires forall d :: d in ds ==> d.id in ids
    ensures KeepsSurfaces(surfaces, UpsertedAll(surfaces, template, ds), ids)
  {
    if ds != [] {
      var before := UpsertedAll(surfaces, template, ds[..|ds| - 1]);
      UpsertAllKeeps(surfaces, template, ds[..|ds| - 1], ids);
      UpsertKeeps(before, template, ds[|ds| - 1], ids);
      KeepsTransitive(surfaces, before, UpsertedAll(surfaces, template, ds), ids);
    }
  }

  lemma MaintenanceKeepsSurfaces(s: State, script: Script)
    requires MaintenancePrepared(s, script).Ok?
    ensures KeepsSurfaces(s.surfaces, MaintenancePrepared(s, script).value.surfaces, BOUND_SURFACES)
  {
    var i := FindSurface(s.surfaces, PrivateFirstRunTasks).value;
    var template := Released(s.surfaces[i], script.maintenance.intent);
    UpsertKeeps(s.surfaces[i := template], template, MaintenanceSurface(script), BOUND_SURFACES);
    KeepsTransitive(s.surfaces, s.surfaces[i := template], MaintenancePrepared(s, script).value.surfaces, BOUND_SURFACES);
  }

  lemma GatewayKeepsSurfaces(s: State, script: Script)
    requires WithGatewaySurface(s, script).Ok?
    ensures KeepsSurfaces(s.surfaces, WithGatewaySurface(s, script).value.surfaces, BOUND_SURFACES)
  {
    var t := s.surfaces[FindSurface(s.surfaces, MaintenanceTasks).value];
    UpsertKeeps(s.surfaces, t, GatewaySurface(script), BOUND_SURFACES);
  }

  lemma InstallationKeepsSurfaces(s: State, script: Script)
    requires WithInstallationSurfaces(s, script).Ok?
    ensures KeepsSurfaces(s.surfaces, WithInstallationSurfaces(s, script).value.surfaces, BOUND_SURFACES)
  {
    var u := s.surfaces[FindSurface(s.surfaces, PrivateFirstRunTasks).value];
    UpsertAllKeeps(s.surfaces, u, InstallationSurfaces(script), BOUND_SURFACES);
  }

  lemma LaterIs(s: State, script: Script) returns (s3: State, s4: State)
    requires LaterPrepared(s, script).Ok?
    ensures s3.surfaces == s.surfaces && WithGatewaySurface(s3, script) == Ok(s4)
    ensures LaterPrepared(s, script) == WithInstallationSurfaces(s4, script)
  {
    s3 := WithCommitment(s, Gateway, script.gateway, GatewayTasks).value;
    s4 := WithGatewaySurface(s3, script).value;
  }

  lemma LaterKeepsSurfaces(s: State, script: Script)
    requires LaterPrepared(s, script).Ok?
    ensures KeepsSurfaces(s.surfaces, LaterPrepared(s, script).value.surfaces, BOUND_SURFACES)
  {
    var s3, s4 := LaterIs(s, script);
    var last := WithInstallationSurfaces(s4, script).value;
    KeepsTransitive(s.surfaces, s4.surfaces, last.surfaces, BOUND_SURFACES) by {
      GatewayKeepsSurfaces(s3, script);
      InstallationKeepsSurfaces(s4, script);
    }
  }

  lemma PreparedKeepsSurfaces(s: State, script: Script)
    requires Prepared(s, script).Ok?
    ensures KeepsSurfaces(s.surfaces, Prepared(s, script).value.surfaces, BOUND_SURFACES)
  {
    var s2 := MaintenancePrepared(s, script).value;
    var last := LaterPrepared(s2, script).value;
    KeepsTransitive(s.surfaces, s2.surfaces, last.surfaces, BOUND_SURFACES) by {
      MaintenanceKeepsSurfaces(s, script);
      LaterKeepsSurfaces(s2, script);
    }
  }

  /** A surface that no step binds only has its path pointed, where it serves the release. */
  predicate OnlyPointed(before: Surface, after: Surface, script: Script) {
    after == if Release in before.commitments then before.(path := Some(script.releasePath)) else before
  }

  /** The other surfaces: all are in their places, unbound ones as they were but for the release path, and no
      surface is added but bound ones. */
  lemma OtherSurfaces(s: State, script: Script)
    requires Rebased(s, script).Ok?
    ensures var a, r := s.surfaces, Rebased(s, script).value.surfaces;
      && |a| <= |r|
      && (forall i :: 0 <= i < |a| ==> r[i].id == a[i].id && (a[i].id !in BOUND_SURFACES ==> OnlyPointed(a[i], r[i], script)))
      && (forall j :: |a| <= j < |r| ==> r[j].id in BOUND_SURFACES)
  {
    PreparedKeepsSurfaces(s, script);
    assert Rebased(s, script).value.surfaces == AllPointed(Prepared(s, script).value.surfaces, script);
  }

  predicate SameExpected(a: State, b: State) {
    a.expectedCommitments == b.expectedCommitments && a.expectedIntents == b.expectedIntents
  }

  /** Only the two steps that add a commitment touch what is expected. */
  lemma MaintenanceOnlyAdds(s: State, script: Script)
    requires MaintenancePrepared(s, script).Ok?
    ensures var s0 := s.(revision := script.revision, scope := "routine");
      SameExpected(MaintenancePrepared(s, script).value, WithCommitment(s0, Maintenance, script.maintenance, MaintenanceTasks).value)
  {
  }

  lemma LaterOnlyAdds(s: State, script: Script)
    requires LaterPrepared(s, script).Ok?
    ensures SameExpected(LaterPrepared(s, script).value, WithCommitment(s, Gateway, script.gateway, GatewayTasks).value)
  {
  }

  lemma LoopKeepsExpected(s: State, script: Script)
    requires Rebased(s, script).Ok?
    ensures SameExpected(Rebased(s, script).value, LaterPrepared(MaintenancePrepared(s, script).value, script).value)
  {
  }

  ghost predicate Expects(before: State, after: State, id: Id, intent: string, added: bool) {
    && (forall x :: x in after.expectedCommitments <==> x in before.expectedCommitments || (added && x == id))
    && (forall x :: x in after.expectedIntents <==> x in before.expectedIntents || (added && x == intent))
  }

  lemma MaintenanceExpected(s: State, script: Script)
    requires Rebased(s, script).Ok?
    ensures Expects(s, MaintenancePrepared(s, script).value, Maintenance, script.maintenance.intent, Maintenance !in Ids(s.commitments))
  {
    MaintenanceOnlyAdds(s, script);
    EnsuredLists(s.(revision := script.revision, scope := "routine"), Maintenance, script.maintenance, MaintenanceTasks);
  }

  lemma GatewayExpected(s: State, script: Script)
    requires Rebased(s, script).Ok?
    ensures Expects(MaintenancePrepared(s, script).value, Rebased(s, script).value, Gateway, script.gateway.intent,
                    Gateway !in Ids(s.commitments))
  {
    LoopKeepsExpected(s, script);
    LaterOnlyAdds(MaintenancePrepared(s, script).value, script);
    MaintenanceExtends(s, script);
    EnsuredLists(MaintenancePrepared(s, script).value, Gateway, script.gateway, GatewayTasks);
  }

  /** The lists of what is expected gain the added commitments and their intents. */
  lemma ExpectedLists(s: State, script: Script)
    requires Rebased(s, script).Ok?
    ensures var ids, r := Ids(s.commitments), Rebased(s, script).value;
      && (forall x :: x in r.expectedCommitments <==> x in s.expectedCommitments || x in Missing(ids))
      && (forall x :: x in r.expectedIntents <==>
            || x in s.expectedIntents
            || (Maintenance !in ids && x == script.maintenance.intent) || (Gateway !in ids && x == script.gateway.intent))
  {
    MaintenanceExpected(s, script);
    GatewayExpected(s, script);
  }
}
