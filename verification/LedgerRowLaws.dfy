/** What one turn of the ledger's row loop does to a row, and that a second turn does nothing. */
module LedgerRowLaws {
  import opened Basics
  import opened LedgerRows

  /** Appending keeps what was there, in place, and makes exactly the union of the values present. */
  lemma {:induction false} AppendedMembers<T>(current: seq<T>, values: seq<T>)
    ensures current <= Appended(current, values)
    ensures forall x :: x in Appended(current, values) <==> x in current || x in values
    ensures NoDuplicates(current) ==> NoDuplicates(Appended(current, values))
    decreases |values|
  {
    if values != [] {
      NoDuplicatesConcat(current, [values[0]]);
      AppendedMembers(if values[0] in current then current else current + [values[0]], values[1..]);
    }
  }

  lemma {:induction false} AppendedAbsorbs<T>(current: seq<T>, values: seq<T>)
    requires forall x :: x in values ==> x in current
    ensures Appended(current, values) == current
  {
    if values != [] {
      AppendedAbsorbs(current, values[1..]);
    }
  }

  lemma AppendedAgain<T>(current: seq<T>, values: seq<T>)
    ensures Appended(Appended(current, values), values) == Appended(current, values)
  {
    AppendedMembers(current, values);
    AppendedAbsorbs(Appended(current, values), values);
  }

  lemma {:induction false} AppendedConcat<T>(current: seq<T>, a: seq<T>, b: seq<T>)
    ensures Appended(current, a + b) == Appended(Appended(current, a), b)
    decreases |a|
  {
    if a == [] {
      assert a + b == b;
    } else {
      assert (a + b)[1..] == a[1..] + b;
      AppendedConcat(if a[0] in current then current else current + [a[0]], a[1..], b);
    }
  }

  lemma {:induction false} AppendedDistinct<T>(current: seq<T>, values: seq<T>)
    requires NoDuplicates(current + values)
    ensures Appended(current, values) == current + values
    decreases |values|
  {
    if values != [] {
      NoDuplicatesConcat(current, values);
      assert values[0] in values;
      assert current + values == current + [values[0]] + values[1..];
      AppendedDistinct(current + [values[0]], values[1..]);
    }
  }

  /** `list(dict.fromkeys((*x, *values)))` a second time changes nothing. */
  lemma UnionAgain<T>(x: seq<T>, values: seq<T>)
    ensures Appended([], Appended([], x + values) + values) == Appended([], x + values)
  {
    var r := Appended([], x + values);
    AppendedMembers([], x + values);
    AppendedConcat([], r, values);
    assert [] + r == r;
    AppendedDistinct([], r);
    AppendedAbsorbs(r, values);
  }

  lemma {:induction false} KeptAll<T(!new)>(s: seq<T>, keep: T -> bool)
    requires forall x :: x in s ==> keep(x)
    ensures Kept(s, keep) == s
  {
    if s != [] {
      KeptAll(s[1..], keep);
    }
  }

  lemma {:induction false} KeptNone<T(!new)>(s: seq<T>, keep: T -> bool)
    requires forall x :: x in s ==> !keep(x)
    ensures Kept(s, keep) == []
  {
    if s != [] {
      KeptNone(s[1..], keep);
    }
  }

  lemma {:induction false} KeptConcat<T(!new)>(a: seq<T>, b: seq<T>, keep: T -> bool)
    ensures Kept(a + b, keep) == Kept(a, keep) + Kept(b, keep)
  {
    if a == [] {
      assert a + b == b;
    } else {
      assert (a + b)[1..] == a[1..] + b;
      KeptConcat(a[1..], b, keep);
    }
  }

  /** Drop, then append only values that are not dropped: a second time changes nothing. */
  lemma DropAppendAgain<T(!new)>(s: seq<T>, keep: T -> bool, values: seq<T>)
    requires forall x :: x in values ==> keep(x)
    ensures Appended(Kept(Appended(Kept(s, keep), values), keep), values) == Appended(Kept(s, keep), values)
  {
    var r := Appended(Kept(s, keep), values);
    AppendedMembers(Kept(s, keep), values);
    KeptAll(r, keep);
    AppendedAgain(Kept(s, keep), values);
  }

  /** Drop, then put back values that are all dropped: a second time changes nothing. */
  lemma DropRestoreAgain<T(!new)>(s: seq<T>, keep: T -> bool, values: seq<T>)
    requires forall x :: x in values ==> !keep(x)
    ensures Kept(Kept(s, keep) + values, keep) + values == Kept(s, keep) + values
  {
    var kept := Kept(s, keep);
    KeptConcat(kept, values, keep);
    KeptAll(kept, keep);
    KeptNone(values, keep);
    assert Kept(kept + values, keep) == kept + [] == kept;
  }

  lemma WritesAgain(id: Id, owner: string, writes: seq<string>, script: Script)
    requires Lawful(script) && NewWrites(id, owner, writes, script).Ok?
    ensures NewWrites(id, owner, NewWrites(id, owner, writes, script).value, script) == NewWrites(id, owner, writes, script)
  {
    match id
    case FirstRun => UnionAgain(writes, script.installationWrites);
    case SourceInventory => DropRestoreAgain(writes, NotSuperseded(script.sourceWrites), script.sourceWrites);
    case EvidenceAnchors => DropAppendAgain(writes, NotEligibility, script.evidenceWrites);
    case Corrections => DropAppendAgain(writes, NotVisualIntent, script.correctionWrites);
    case _ =>
  }

  lemma RelationsAgain(id: Id, relations: seq<Relation>, script: Script)
    ensures NewRelations(id, NewRelations(id, relations, script), script) == NewRelations(id, relations, script)
  {
    DropRestoreAgain(relations, NotOnRelease, [OnRelease(script)]);
  }

  lemma LookupAgain(id: Id, lookup: Option<Lookup>, script: Script)
    ensures NewLookup(id, NewLookup(id, lookup, script), script) == NewLookup(id, lookup, script)
  {
    if id == FirstRun {
      var l := if lookup.Some? then lookup.value else Lookup([], [], map[]);
      AppendedAgain(l.pathPatterns, script.firstRunPatterns);
      AppendedAgain(l.taskTerms, script.firstRunTerms);
    }
  }

  lemma MergeAgain(m: Fields, a: Fields, b: Fields)
    ensures m + a + b + a + b == m + a + b
    ensures m + a + a == m + a
  {
  }

  lemma AuthorityAgain(id: Id, authority: Option<Fields>, script: Script)
    ensures NewAuthority(id, Some(NewAuthority(id, authority, script)), script) == NewAuthority(id, authority, script)
  {
    MergeAgain(if authority.Some? then authority.value else map[], BlockedPath(script), OwnAuthority(id, script));
  }

  lemma EvidenceAgain(evidence: Option<Evidence>, script: Script)
    ensures StaleEvidence(Some(StaleEvidence(evidence, script)), script) == StaleEvidence(evidence, script)
  {
  }

  lemma MetadataAgain(id: Id, metadata: Fields, script: Script)
    ensures NewMetadata(id, NewMetadata(id, metadata, script), script) == NewMetadata(id, metadata, script)
  {
  }

  /** The update, the sync mark and the branch's own fields, twice over. */
  lemma RestAgain(id: Id, rest: Fields, updates: Fields, script: Script)
    ensures NewRest(id, NewRest(id, rest + updates, script) + updates, script) == NewRest(id, rest + updates, script)
  {
    var mark, own := map["model_sync_state" := Text("owner_model_current")], OwnRest(id, script);
    assert rest + updates + mark + own + updates + mark + own == rest + updates + mark + own;
  }

  lemma RefreshedAgain(row: Commitment, script: Script)
    requires Lawful(script) && Refreshed(Named(row, script), script).Ok?
    ensures Refreshed(Named(Refreshed(Named(row, script), script).value, script), script) == Refreshed(Named(row, script), script)
  {
    WritesAgain(row.id, row.owner, row.stateWrites, script);
    RelationsAgain(row.id, row.relations, script);
    LookupAgain(row.id, row.lookup, script);
    AuthorityAgain(row.id, row.authority, script);
    EvidenceAgain(row.evidence, script);
    MetadataAgain(row.id, row.metadata, script);
    RestAgain(row.id, row.rest, Updates(row.id, script), script);
  }

  /** A row that has been through the loop goes through it again unchanged. */
  lemma RewrittenAgain(row: Commitment, script: Script)
    requires Lawful(script) && Rewritten(row, script).Ok?
    ensures Rewritten(Rewritten(row, script).value, script) == Rewritten(row, script)
  {
    if Active(row) {
      RefreshedAgain(row, script);
    } else {
      MergeAgain(row.rest, Updates(row.id, script), map[]);
    }
  }

  predicate Says(fields: Fields, key: string, value: Json) {
    key in fields && fields[key] == value
  }

  predicate Stale(e: Evidence, script: Script) {
    Says(e.fields, "current", Flag(false)) && Says(e.fields, "evidence_state", Text("stale")) &&
    Says(e.fields, "test_mesh_state", Text("stale")) && Says(e.metadata, "scope_revision", Text(script.revision))
  }

  predicate Blocked(authority: Fields) {
    Says(authority, "evidence_current", Flag(false)) && Says(authority, "ppa_ok", Flag(false)) &&
    Says(authority, "ppa_confidence", Text("blocked")) && Says(authority, "ppa_decision", Text("primary_path_authority_blocked"))
  }

  /** Nothing on the row still vouches for it. */
  predicate Invalidated(row: Commitment, script: Script) {
    row.evidence.Some? && Stale(row.evidence.value, script) && row.authority.Some? && Blocked(row.authority.value)
  }

  lemma EvidenceStale(evidence: Option<Evidence>, script: Script)
    ensures Stale(StaleEvidence(evidence, script), script)
  {
  }

  lemma AuthorityBlocked(id: Id, authority: Option<Fields>, script: Script)
    ensures Blocked(NewAuthority(id, authority, script))
  {
    var own := OwnAuthority(id, script);
    assert "evidence_current" !in own && "ppa_ok" !in own && "ppa_confidence" !in own && "ppa_decision" !in own;
  }

  lemma RefreshInvalidates(row: Commitment, script: Script)
    requires Refreshed(row, script).Ok?
    ensures Invalidated(Refreshed(row, script).value, script)
  {
    EvidenceStale(row.evidence, script);
    AuthorityBlocked(row.id, row.authority, script);
  }

  /** Who is active does not change; an active row is invalidated and a retired one only renamed. */
  lemma TurnInvalidates(row: Commitment, script: Script)
    requires Rewritten(row, script).Ok?
    ensures Active(row) ==> Invalidated(Rewritten(row, script).value, script)
    ensures !Active(row) ==> Rewritten(row, script).value == row.(rest := row.rest + Updates(row.id, script))
  {
    if Active(row) {
      RefreshInvalidates(Named(row, script), script);
    }
  }

  /** What a turn leaves alone. */
  lemma TurnKeeps(row: Commitment, script: Script)
    requires Rewritten(row, script).Ok?
    ensures var r := Rewritten(row, script).value;
            r.id == row.id && r.replacement == row.replacement && r.owner == row.owner &&
            (row.id != Release ==> r.surfaces == row.surfaces)
  {
  }

  /** A turn fails only for an active row whose writes come from an unknown model. */
  lemma TurnSucceedsIff(row: Commitment, script: Script)
    ensures Rewritten(row, script).Ok? <==> (Active(row) && TakesModelWrites(row.id) ==> row.owner in script.models)
  {
  }

  /** The earlier write list of such a row is lost, whatever the branches append to it. */
  lemma ModelWritesWin(row: Commitment, script: Script)
    requires Active(row) && TakesModelWrites(row.id) && Rewritten(row, script).Ok?
    ensures Rewritten(row, script).value.stateWrites == script.models[row.owner]
    ensures forall writes :: Rewritten(row.(stateWrites := writes), script) == Rewritten(row, script)
  {
  }

  /** Which of a row's earlier writes a branch keeps, and which fields it lists. */
  predicate KeepsWrite(id: Id, value: string, script: Script) {
    match id
    case SourceInventory => !("visual_asset." <= value) && value !in script.sourceWrites
    case EvidenceAnchors => value != "evidence.visual_eligibility"
    case Corrections => value != "correction.card_visual_intent"
    case Release | Maintenance | Gateway => false
    case _ => true
  }

  function ListedWrites(id: Id, script: Script): seq<string> {
    match id
    case FirstRun => script.installationWrites
    case SourceInventory => script.sourceWrites
    case EvidenceAnchors => script.evidenceWrites
    case Corrections => script.correctionWrites
    case Release => script.releaseWrites
    case Maintenance => script.maintenance.writes
    case Gateway => script.gateway.writes
    case _ => []
  }

  /** Where no model decides, a row ends with exactly the writes its branch keeps and the ones it lists. */
  lemma WritesMeaning(id: Id, owner: string, writes: seq<string>, script: Script)
    requires !TakesModelWrites(id)
    ensures NewWrites(id, owner, writes, script).Ok?
    ensures forall x :: x in NewWrites(id, owner, writes, script).value <==>
                        (x in writes && KeepsWrite(id, x, script)) || x in ListedWrites(id, script)
    ensures id == FirstRun ==> NoDuplicates(NewWrites(id, owner, writes, script).value)
  {
    match id
    case FirstRun => AppendedMembers([], writes + script.installationWrites);
    case EvidenceAnchors => AppendedMembers(Kept(writes, NotEligibility), script.evidenceWrites);
    case Corrections => AppendedMembers(Kept(writes, NotVisualIntent), script.correctionWrites);
    case _ =>
  }

  /** The first-run row depends on the release once, in the script's words, and keeps its other relations. */
  lemma FirstRunRelations(relations: seq<Relation>, script: Script)
    ensures var after := NewRelations(FirstRun, relations, script);
            (forall r :: r in after <==> (r in relations && NotOnRelease(r)) || r == OnRelease(script)) &&
            |Kept(after, r => !NotOnRelease(r))| == 1
  {
    var onRelease := r => !NotOnRelease(r);
    KeptConcat(Kept(relations, NotOnRelease), [OnRelease(script)], onRelease);
    KeptNone(Kept(relations, NotOnRelease), onRelease);
    KeptAll([OnRelease(script)], onRelease);
  }
}
