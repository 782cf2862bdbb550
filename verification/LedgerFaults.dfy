/** Which exception the ledger script dies of, when it does. */
module LedgerFaults {
  import opened Basics
  import opened LedgerRows
  import opened LedgerRowLaws
  import opened LedgerRebase
  import opened LedgerRebaseLaws
  import opened LedgerRebaseEffect

  /** What is missing of the template of a new commitment: the row, its evidence or its path authority. */
  function TemplateFault(rows: seq<Commitment>): Option<Fault> {
    match First(Ids(rows), WorkPackage)
    case None => Some(NoSuchRow(WorkPackage))
    case Some(i) =>
      if rows[i].evidence == None then Some(NoSuchField("evidence"))
      else if rows[i].authority == None then Some(NoSuchField("path_authority"))
      else None
  }

  predicate FailsWith<T>(r: Result<T, Fault>, fault: Option<Fault>) {
    if fault == None then r.Ok? else r.Err? && r.error == fault.value
  }

  lemma EnsuringFails(s: State, id: Id, f: Founding, surface: SurfaceId)
    ensures FailsWith(WithCommitment(s, id, f, surface), if id in Ids(s.commitments) then None else TemplateFault(s.commitments))
  {
  }

  lemma SameTemplateFault(a: seq<Commitment>, b: seq<Commitment>, more: seq<Id>)
    requires Extends(a, b) && Ids(b) == Ids(a) + more && WorkPackage !in more
    ensures TemplateFault(a) == TemplateFault(b)
  {
    if WorkPackage in Ids(a) {
      FirstInPrefix(Ids(a), more, WorkPackage);
    }
  }

  /** What the maintenance steps find missing. */
  function MaintenanceFault(s: State): Option<Fault> {
    if Maintenance !in Ids(s.commitments) && TemplateFault(s.commitments) != None then TemplateFault(s.commitments)
    else if PrivateFirstRunTasks !in SurfaceIds(s.surfaces) then Some(NoSuchSurface(PrivateFirstRunTasks))
    else None
  }

  /** What the later steps find missing. */
  function LaterFault(s: State): Option<Fault> {
    if Gateway !in Ids(s.commitments) && TemplateFault(s.commitments) != None then TemplateFault(s.commitments)
    else if FirstRun !in Ids(s.commitments) then Some(NoSuchRow(FirstRun))
    else None
  }

  lemma MaintenanceFails(s: State, script: Script)
    ensures FailsWith(MaintenancePrepared(s, script), MaintenanceFault(s))
  {
    var s0 := s.(revision := script.revision, scope := "routine");
    EnsuringFails(s0, Maintenance, script.maintenance, MaintenanceTasks);
    var first := WithCommitment(s0, Maintenance, script.maintenance, MaintenanceTasks);
    if first.Ok? {
      EnsuringAdds(s0, Maintenance, script.maintenance, MaintenanceTasks);
      SettingSurfaces(first.value.commitments, Maintenance, [MaintenanceTasks]);
    }
  }

  lemma ClosingFails(s: State, script: Script)
    requires Gateway in Ids(s.commitments)
    requires MaintenanceTasks in SurfaceIds(s.surfaces) && PrivateFirstRunTasks in SurfaceIds(s.surfaces)
    ensures WithGatewaySurface(s, script).Ok?
    ensures FailsWith(WithInstallationSurfaces(WithGatewaySurface(s, script).value, script),
                      if FirstRun in Ids(s.commitments) then None else Some(NoSuchRow(FirstRun)))
  {
    ClosingSucceedsIff(s, script);
    var bound := WithGatewaySurface(s, script).value;
    if FirstRun !in Ids(s.commitments) {
      GatewayExtends(s, script);
      var t := s.surfaces[FindSurface(s.surfaces, MaintenanceTasks).value];
      UpsertedKeeps(s.surfaces, t, GatewaySurface(script), PrivateFirstRunTasks);
    }
  }

  lemma LaterFails(s: State, script: Script)
    requires MaintenanceReady(s, script)
    ensures FailsWith(LaterPrepared(s, script), LaterFault(s))
  {
    EnsuringFails(s, Gateway, script.gateway, GatewayTasks);
    var next := WithCommitment(s, Gateway, script.gateway, GatewayTasks);
    if next.Ok? {
      EnsuringAdds(s, Gateway, script.gateway, GatewayTasks);
      EnsuringExtends(s, Gateway, script.gateway, GatewayTasks);
      assert FirstRun in Ids(next.value.commitments) <==> FirstRun in Ids(s.commitments);
      ClosingFails(next.value, script);
    }
  }

  lemma PreparedFails(s: State, script: Script)
    ensures FailsWith(Prepared(s, script), if MaintenanceFault(s) != None then MaintenanceFault(s) else LaterFault(s))
  {
    MaintenanceFails(s, script);
    if MaintenancePrepared(s, script).Ok? {
      var s2 := MaintenancePrepared(s, script).value;
      MaintenanceExtends(s, script);
      MaintenancePreparedReady(s, script);
      SameTemplateFault(s.commitments, s2.commitments, if Maintenance in Ids(s.commitments) then [] else [Maintenance]);
      LaterFails(s2, script);
    }
  }

  /** The row takes its writes from a model that is not known. */
  predicate ModelUnknown(row: Commitment, script: Script) {
    && (row.replacement == None || row.replacement == Some("active"))
    && row.id in {Orchestration, LogicalEvents, Matters, Lifecycle, Findings, ObjectBrowser}
    && row.owner !in script.models
  }

  lemma TurnFails(row: Commitment, script: Script)
    ensures Rewritten(row, script) == Err(NoSuchModel(row.owner)) <==> ModelUnknown(row, script)
    ensures Rewritten(row, script).Ok? <==> !ModelUnknown(row, script)
  {
    TurnSucceedsIff(row, script);
  }

  ghost predicate FirstUnknown(rows: seq<Commitment>, script: Script, i: nat) {
    i < |rows| && ModelUnknown(rows[i], script) && forall k :: 0 <= k < i ==> !ModelUnknown(rows[k], script)
  }

  lemma {:induction false} TurnedFails<T>(rows: seq<T>, turn: T -> Result<T, Fault>, n: nat, i: nat)
    requires i < n <= |rows| && turn(rows[i]).Err? && forall k :: 0 <= k < i ==> turn(rows[k]).Ok?
    ensures Turned(rows, turn, n).Err? && Turned(rows, turn, n).error == turn(rows[i]).error
  {
    if i == n - 1 {
      TurnedEach(rows, turn, n - 1);
    } else {
      TurnedFails(rows, turn, n - 1, i);
    }
  }

  lemma LoopFails(rows: seq<Commitment>, script: Script, i: nat)
    requires FirstUnknown(rows, script, i)
    ensures RowsRewritten(rows, script) == Err(NoSuchModel(rows[i].owner))
  {
    forall k | 0 <= k <= i
      ensures Rewritten(rows[k], script).Ok? <==> k < i
    {
      TurnFails(rows[k], script);
    }
    TurnFails(rows[i], script);
    TurnedFails(rows, Turn(script), |rows|, i);
  }

  /** The rows that are prepared fail where the old ones do. */
  lemma PreparedUnknown(a: seq<Commitment>, b: seq<Commitment>, script: Script, i: nat)
    requires Extends(a, b) && FirstUnknown(a, script, i)
    ensures FirstUnknown(b, script, i) && b[i].owner == a[i].owner
  {
  }

  lemma KnownIff(rows: seq<Commitment>, script: Script)
    ensures ModelsKnown(rows, script) <==> forall row :: row in rows ==> !ModelUnknown(row, script)
  {
  }

  /** Which exception the script dies of, in the order of its steps: what the maintenance steps miss, what the later
      ones miss, and the first row whose owning model is not known. Where there is none of these it succeeds. */
  lemma RebaseFails(s: State, script: Script)
    ensures
      if MaintenanceFault(s) != None then Rebased(s, script) == Err(MaintenanceFault(s).value)
      else if LaterFault(s) != None then Rebased(s, script) == Err(LaterFault(s).value)
      else
        && (forall i: nat :: FirstUnknown(s.commitments, script, i) ==> Rebased(s, script) == Err(NoSuchModel(s.commitments[i].owner)))
        && (Rebased(s, script).Ok? <==> forall row :: row in s.commitments ==> !ModelUnknown(row, script))
  {
    PreparedFails(s, script);
    if MaintenanceFault(s) == None && LaterFault(s) == None {
      PreparedExtends(s, script);
      forall i: nat | FirstUnknown(s.commitments, script, i)
        ensures Rebased(s, script) == Err(NoSuchModel(s.commitments[i].owner))
      {
        PreparedUnknown(s.commitments, Prepared(s, script).value.commitments, script, i);
        LoopFails(Prepared(s, script).value.commitments, script, i);
      }
      RebaseSucceedsIff(s, script);
      KnownIff(s.commitments, script);
      PreparedSucceedsIff(s, script);
    }
  }
}
