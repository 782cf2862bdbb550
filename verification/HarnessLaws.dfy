/** Why sequences of length two are enough, and what the harness guarantees on runs of any length. */
module HarnessLaws {
  import opened Basics
  import opened Harness

  // ----- a step depends on the state only through "was this key processed before?"

  predicate SeenBefore(xs: seq<CaseInput>, i: nat)
    requires i < |xs|
  {
    exists j :: 0 <= j < i && xs[j].logicalKey == xs[i].logicalKey
  }

  lemma {:induction false} ProcessedKeys(spec: Spec, hazard: Option<Hazard>, xs: seq<CaseInput>)
    requires AllKnown(spec, xs)
    ensures forall k :: k in RunOf(spec, hazard, xs).state.processedKeys <==> exists j :: 0 <= j < |xs| && xs[j].logicalKey == k
  {
    if xs != [] {
      var n := |xs| - 1;
      ProcessedKeys(spec, hazard, xs[..n]);
      assert xs[n] in xs;
      var before := RunOf(spec, hazard, xs[..n]).state.processedKeys;
      forall k
        ensures k in RunOf(spec, hazard, xs).state.processedKeys <==> exists j :: 0 <= j < |xs| && xs[j].logicalKey == k
      {
        assert k in RunOf(spec, hazard, xs).state.processedKeys <==> k in before || k == xs[n].logicalKey;
        if j :| 0 <= j < n && xs[..n][j].logicalKey == k {
          assert xs[j].logicalKey == k;
        }
        if j :| 0 <= j < |xs| && xs[j].logicalKey == k {
          assert j < n ==> xs[..n][j].logicalKey == k;
        }
      }
    }
  }

  datatype Kind = Write | SideEffect | Terminal

  function Recorded(s: State, kind: Kind): seq<string> {
    match kind
    case Write => s.writeEvents
    case SideEffect => s.effectEvents
    case Terminal => s.terminalOutputs
  }

  function Items(out: Output, kind: Kind): seq<string> {
    match kind
    case Write => out.writes
    case SideEffect => out.sideEffects
    case Terminal => [out.decision]
  }

  /** The events one input adds. */
  function Adds(spec: Spec, hazard: Option<Hazard>, x: CaseInput, repeated: bool, kind: Kind): seq<string>
    requires Known(spec, x)
  {
    var e := Decide(spec, hazard, x, repeated);
    if e.acts then Events(x.logicalKey, Items(e.output, kind)) else []
  }

  lemma LastStep(spec: Spec, hazard: Option<Hazard>, xs: seq<CaseInput>, kind: Kind)
    requires AllKnown(spec, xs) && xs != []
    ensures var n := |xs| - 1; var r, b := RunOf(spec, hazard, xs), RunOf(spec, hazard, xs[..n]);
      && Known(spec, xs[n]) && |r.steps| == |xs| && r.steps[..n] == b.steps && r.steps[n].input == xs[n]
      && Recorded(r.state, kind) == Recorded(b.state, kind) + Adds(spec, hazard, xs[n], SeenBefore(xs, n), kind)
      && (xs[n].logicalKey in r.steps[n].before.processedKeys <==> SeenBefore(xs, n))
      && r.steps[n].output == Decide(spec, hazard, xs[n], SeenBefore(xs, n)).output
      && r.steps[n].tag == Decide(spec, hazard, xs[n], SeenBefore(xs, n)).tag
  {
    var n := |xs| - 1;
    assert xs[n] in xs;
    ProcessedKeys(spec, hazard, xs[..n]);
    StepsAreInputs(spec, hazard, xs);
    assert SeenBefore(xs, n) <==> exists j :: 0 <= j < n && xs[..n][j].logicalKey == xs[n].logicalKey by {
      if j :| 0 <= j < n && xs[j].logicalKey == xs[n].logicalKey {
        assert xs[..n][j].logicalKey == xs[n].logicalKey;
      }
    }
    assert Events(xs[n].logicalKey, [RunOf(spec, hazard, xs).steps[n].output.decision]) ==
           [Event(xs[n].logicalKey, RunOf(spec, hazard, xs).steps[n].output.decision)];
  }

  /** The per-step invariants, as a property of the input and of whether it is a repetition. */
  predicate StepOk(spec: Spec, hazard: Option<Hazard>, x: CaseInput, repeated: bool)
    requires Known(spec, x)
  {
    var rule, e := RuleOf(spec, x), Decide(spec, hazard, x, repeated);
    && x.modelId == spec.modelId
    && Elements(e.output.writes) <= Elements(spec.ownedWriteFields)
    && if repeated then
         && e.output.decision == rule.retryDecision && e.output.writes == [] && e.output.sideEffects == []
         && e.output.tokens == rule.retryTokens && e.tag == rule.retryLabel
       else
         && e.output.decision == rule.decision && e.output.writes == rule.writes
         && e.output.sideEffects == rule.sideEffects && e.output.tokens == rule.tokens && e.tag == rule.tag
  }

  ghost predicate StepsOk(spec: Spec, hazard: Option<Hazard>, xs: seq<CaseInput>)
    requires AllKnown(spec, xs)
  {
    forall i :: 0 <= i < |xs| ==> assert xs[i] in xs; StepOk(spec, hazard, xs[i], SeenBefore(xs, i))
  }

  ghost predicate StepsPass(spec: Spec, run: Run) {
    forall s :: s in run.steps ==> Known(spec, s.input) && StepMeetsContract(spec, s) && WritesOwned(spec, s)
  }

  lemma SeenInPrefix(xs: seq<CaseInput>, n: nat, i: nat)
    requires i < n <= |xs|
    ensures SeenBefore(xs[..n], i) <==> SeenBefore(xs, i)
  {
    if j :| 0 <= j < i && xs[j].logicalKey == xs[i].logicalKey {
      assert xs[..n][j].logicalKey == xs[..n][i].logicalKey;
    }
    if j :| 0 <= j < i && xs[..n][j].logicalKey == xs[..n][i].logicalKey {
      assert xs[j].logicalKey == xs[i].logicalKey;
    }
  }

  lemma StepsOkGrows(spec: Spec, hazard: Option<Hazard>, xs: seq<CaseInput>)
    requires AllKnown(spec, xs) && xs != []
    ensures xs[|xs| - 1] in xs
    ensures StepsOk(spec, hazard, xs) <==>
      StepsOk(spec, hazard, xs[..|xs| - 1]) && StepOk(spec, hazard, xs[|xs| - 1], SeenBefore(xs, |xs| - 1))
  {
    var n := |xs| - 1;
    var before := xs[..n];
    forall i | 0 <= i < n
      ensures before[i] == xs[i] && (SeenBefore(before, i) <==> SeenBefore(xs, i))
    {
      SeenInPrefix(xs, n, i);
    }
    if StepsOk(spec, hazard, xs) {
      forall i | 0 <= i < |before|
        ensures before[i] in before && StepOk(spec, hazard, before[i], SeenBefore(before, i))
      {
        assert xs[i] in xs && StepOk(spec, hazard, xs[i], SeenBefore(xs, i));
      }
    }
    if StepsOk(spec, hazard, before) && StepOk(spec, hazard, xs[n], SeenBefore(xs, n)) {
      forall i | 0 <= i < |xs|
        ensures xs[i] in xs && StepOk(spec, hazard, xs[i], SeenBefore(xs, i))
      {
        assert i < n ==> before[i] in before && StepOk(spec, hazard, before[i], SeenBefore(before, i));
      }
    }
  }

  lemma {:induction false} StepsPassIff(spec: Spec, hazard: Option<Hazard>, xs: seq<CaseInput>)
    requires AllKnown(spec, xs)
    ensures StepsPass(spec, RunOf(spec, hazard, xs)) <==> StepsOk(spec, hazard, xs)
  {
    if xs != [] {
      var n, r := |xs| - 1, RunOf(spec, hazard, xs);
      StepsPassIff(spec, hazard, xs[..n]);
      LastStep(spec, hazard, xs, Write);
      StepsOkGrows(spec, hazard, xs);
      assert r.steps == RunOf(spec, hazard, xs[..n]).steps + [r.steps[n]];
      assert StepOk(spec, hazard, xs[n], SeenBefore(xs, n)) <==>
        StepMeetsContract(spec, r.steps[n]) && WritesOwned(spec, r.steps[n]);
    }
  }

  // ----- what a run records

  /** Once the steps are right, a repetition records nothing and a first occurrence records its rule's events. */
  ghost function Record(spec: Spec, hazard: Option<Hazard>, xs: seq<CaseInput>, kind: Kind): seq<string>
    requires AllKnown(spec, xs)
  {
    if xs == [] then [] else
    var n := |xs| - 1;
    assert xs[n] in xs;
    Record(spec, hazard, xs[..n], kind) + if SeenBefore(xs, n) then [] else Adds(spec, hazard, xs[n], false, kind)
  }

  lemma {:induction false} RecordedIsRecord(spec: Spec, hazard: Option<Hazard>, xs: seq<CaseInput>, kind: Kind)
    requires AllKnown(spec, xs) && StepsOk(spec, hazard, xs) && kind != Terminal
    ensures Recorded(RunOf(spec, hazard, xs).state, kind) == Record(spec, hazard, xs, kind)
  {
    if xs != [] {
      StepsOkGrows(spec, hazard, xs);
      RecordedIsRecord(spec, hazard, xs[..|xs| - 1], kind);
      LastStep(spec, hazard, xs, kind);
    }
  }

  predicate Apart(a: seq<string>, b: seq<string>) {
    forall e :: e in a ==> e !in b
  }

  /** No event is recorded twice by the first occurrences of a run. */
  ghost predicate FirstsDistinct(spec: Spec, hazard: Option<Hazard>, xs: seq<CaseInput>, kind: Kind)
    requires AllKnown(spec, xs)
  {
    && (forall i :: 0 <= i < |xs| && !SeenBefore(xs, i) ==> assert xs[i] in xs; NoDuplicates(Adds(spec, hazard, xs[i], false, kind)))
    && (forall i, j :: 0 <= i < j < |xs| && !SeenBefore(xs, i) && !SeenBefore(xs, j) ==>
          assert xs[i] in xs && xs[j] in xs;
          Apart(Adds(spec, hazard, xs[i], false, kind), Adds(spec, hazard, xs[j], false, kind)))
  }

  lemma FirstsInPrefix(spec: Spec, hazard: Option<Hazard>, xs: seq<CaseInput>, n: nat, kind: Kind)
    requires AllKnown(spec, xs) && n <= |xs| && FirstsDistinct(spec, hazard, xs, kind)
    ensures FirstsDistinct(spec, hazard, xs[..n], kind)
  {
    forall i | 0 <= i < n
      ensures SeenBefore(xs[..n], i) <==> SeenBefore(xs, i)
    {
      SeenInPrefix(xs, n, i);
    }
  }

  lemma {:induction false} RecordApart(spec: Spec, hazard: Option<Hazard>, xs: seq<CaseInput>, kind: Kind, b: seq<string>)
    requires AllKnown(spec, xs)
    requires forall i :: 0 <= i < |xs| && !SeenBefore(xs, i) ==> assert xs[i] in xs; Apart(Adds(spec, hazard, xs[i], false, kind), b)
    ensures Apart(Record(spec, hazard, xs, kind), b)
  {
    if xs != [] {
      var n := |xs| - 1;
      forall i | 0 <= i < n
        ensures SeenBefore(xs[..n], i) <==> SeenBefore(xs, i)
      {
        SeenInPrefix(xs, n, i);
      }
      RecordApart(spec, hazard, xs[..n], kind, b);
    }
  }

  lemma {:induction false} DistinctRecord(spec: Spec, hazard: Option<Hazard>, xs: seq<CaseInput>, kind: Kind)
    requires AllKnown(spec, xs) && FirstsDistinct(spec, hazard, xs, kind)
    ensures NoDuplicates(Record(spec, hazard, xs, kind))
  {
    if xs != [] {
      var n := |xs| - 1;
      FirstsInPrefix(spec, hazard, xs, n, kind);
      DistinctRecord(spec, hazard, xs[..n], kind);
      if !SeenBefore(xs, n) {
        assert xs[n] in xs;
        var more := Adds(spec, hazard, xs[n], false, kind);
        forall i | 0 <= i < n
          ensures SeenBefore(xs[..n], i) <==> SeenBefore(xs, i)
        {
          SeenInPrefix(xs, n, i);
        }
        RecordApart(spec, hazard, xs[..n], kind, more);
        NoDuplicatesConcat(Record(spec, hazard, xs[..n], kind), more);
      }
    }
  }

  /** A run passes exactly when every step is right and neither kind of event repeats. */
  lemma PassesIff(spec: Spec, hazard: Option<Hazard>, xs: seq<CaseInput>)
    requires AllKnown(spec, xs)
    ensures Passes(spec, hazard, xs) <==> (
      && StepsOk(spec, hazard, xs)
      && NoDuplicates(Record(spec, hazard, xs, Write)) && NoDuplicates(Record(spec, hazard, xs, SideEffect)))
  {
    var run := RunOf(spec, hazard, xs);
    StepsAreInputs(spec, hazard, xs);
    StepsPassIff(spec, hazard, xs);
    CountIffDistinct(run.state.writeEvents);
    CountIffDistinct(run.state.effectEvents);
    if StepsOk(spec, hazard, xs) {
      RecordedIsRecord(spec, hazard, xs, Write);
      RecordedIsRecord(spec, hazard, xs, SideEffect);
    }
  }

  lemma OneStep(spec: Spec, hazard: Option<Hazard>, x: CaseInput)
    requires Known(spec, x)
    ensures AllKnown(spec, [x])
    ensures StepsOk(spec, hazard, [x]) <==> StepOk(spec, hazard, x, false)
    ensures forall kind :: Record(spec, hazard, [x], kind) == Adds(spec, hazard, x, false, kind)
  {
    assert [x][..0] == [];
    assert !SeenBefore([x], 0);
    StepsOkGrows(spec, hazard, [x]);
  }

  lemma TwoSteps(spec: Spec, hazard: Option<Hazard>, x: CaseInput, y: CaseInput)
    requires Known(spec, x) && Known(spec, y)
    ensures AllKnown(spec, [x, y])
    ensures StepsOk(spec, hazard, [x, y]) <==>
      StepOk(spec, hazard, x, false) && StepOk(spec, hazard, y, x.logicalKey == y.logicalKey)
    ensures x.logicalKey != y.logicalKey ==> forall kind ::
      Record(spec, hazard, [x, y], kind) == Adds(spec, hazard, x, false, kind) + Adds(spec, hazard, y, false, kind)
  {
    OneStep(spec, hazard, x);
    var xs := [x, y];
    assert xs[..1] == [x];
    assert xs[0].logicalKey == x.logicalKey && (SeenBefore(xs, 1) <==> x.logicalKey == y.logicalKey);
    StepsOkGrows(spec, hazard, xs);
  }

  // ----- the cutoff

  /** One or two inputs of a run, in run order, that already fail by themselves. */
  ghost predicate FailsShort(spec: Spec, hazard: Option<Hazard>, xs: seq<CaseInput>, i: nat, j: nat)
    requires AllKnown(spec, xs)
  {
    i <= j < |xs| && (
      assert xs[i] in xs && xs[j] in xs;
      !Passes(spec, hazard, if i == j then [xs[i]] else [xs[i], xs[j]]))
  }

  lemma BadStepIsShort(spec: Spec, hazard: Option<Hazard>, xs: seq<CaseInput>, j: nat)
    requires AllKnown(spec, xs) && j < |xs| && xs[j] in xs && !StepOk(spec, hazard, xs[j], SeenBefore(xs, j))
    ensures exists i :: FailsShort(spec, hazard, xs, i, j)
  {
    if SeenBefore(xs, j) {
      var i :| 0 <= i < j && xs[i].logicalKey == xs[j].logicalKey;
      assert xs[i] in xs;
      TwoSteps(spec, hazard, xs[i], xs[j]);
      PassesIff(spec, hazard, [xs[i], xs[j]]);
      assert FailsShort(spec, hazard, xs, i, j);
    } else {
      OneStep(spec, hazard, xs[j]);
      PassesIff(spec, hazard, [xs[j]]);
      assert FailsShort(spec, hazard, xs, j, j);
    }
  }

  lemma RepeatedEventIsShort(spec: Spec, hazard: Option<Hazard>, xs: seq<CaseInput>, kind: Kind)
    requires AllKnown(spec, xs) && kind != Terminal && !FirstsDistinct(spec, hazard, xs, kind)
    ensures exists i, j :: FailsShort(spec, hazard, xs, i, j)
  {
    if i :| 0 <= i < |xs| && !SeenBefore(xs, i) && (assert xs[i] in xs; !NoDuplicates(Adds(spec, hazard, xs[i], false, kind))) {
      OneStep(spec, hazard, xs[i]);
      PassesIff(spec, hazard, [xs[i]]);
      assert FailsShort(spec, hazard, xs, i, i);
    } else {
      var i, j :| 0 <= i < j < |xs| && !SeenBefore(xs, i) && !SeenBefore(xs, j) && (
        assert xs[i] in xs && xs[j] in xs;
        !Apart(Adds(spec, hazard, xs[i], false, kind), Adds(spec, hazard, xs[j], false, kind)));
      TwoSteps(spec, hazard, xs[i], xs[j]);
      PassesIff(spec, hazard, [xs[i], xs[j]]);
      NoDuplicatesConcat(Adds(spec, hazard, xs[i], false, kind), Adds(spec, hazard, xs[j], false, kind));
      assert FailsShort(spec, hazard, xs, i, j);
    }
  }

  /** A failing run of any length contains one input, or two in order, that fail by themselves. */
  lemma FailureIsShort(spec: Spec, hazard: Option<Hazard>, xs: seq<CaseInput>)
    requires AllKnown(spec, xs) && !Passes(spec, hazard, xs)
    ensures exists i, j :: FailsShort(spec, hazard, xs, i, j)
  {
    PassesIff(spec, hazard, xs);
    if !StepsOk(spec, hazard, xs) {
      var j :| 0 <= j < |xs| && (assert xs[j] in xs; !StepOk(spec, hazard, xs[j], SeenBefore(xs, j)));
      BadStepIsShort(spec, hazard, xs, j);
    } else if !FirstsDistinct(spec, hazard, xs, Write) {
      RepeatedEventIsShort(spec, hazard, xs, Write);
    } else {
      DistinctRecord(spec, hazard, xs, Write);
      if FirstsDistinct(spec, hazard, xs, SideEffect) {
        DistinctRecord(spec, hazard, xs, SideEffect);
      }
      RepeatedEventIsShort(spec, hazard, xs, SideEffect);
    }
  }

  lemma ShortFailure(spec: Spec, hazard: Option<Hazard>, xs: seq<CaseInput>) returns (short: seq<CaseInput>)
    requires AllKnown(spec, xs) && !Passes(spec, hazard, xs)
    ensures |short| <= 2 && (forall x :: x in short ==> x in xs) && (Declared(spec, xs) ==> Declared(spec, short))
    ensures AllKnown(spec, short) && !Passes(spec, hazard, short)
  {
    FailureIsShort(spec, hazard, xs);
    var i: nat, j: nat :| FailsShort(spec, hazard, xs, i, j);
    short := if i == j then [xs[i]] else [xs[i], xs[j]];
  }

  /** Depth two is complete: if all sequences of at most two declared inputs pass the four
      invariants, so do all sequences of any length, for every specification and every hazard. */
  lemma DepthTwoIsEnough(spec: Spec, hazard: Option<Hazard>)
    requires forall xs :: Declared(spec, xs) && |xs| <= 2 ==> AllKnown(spec, xs) && Passes(spec, hazard, xs)
    ensures forall xs :: Declared(spec, xs) ==> AllKnown(spec, xs) && Passes(spec, hazard, xs)
  {
    forall xs | Declared(spec, xs)
      ensures AllKnown(spec, xs) && Passes(spec, hazard, xs)
    {
      DeclaredIsKnown(spec, xs);
      if !Passes(spec, hazard, xs) {
        var short := ShortFailure(spec, hazard, xs);
        assert false;
      }
    }
  }

  // ----- hazards

  /** A hazard whose label is not the rule's own is caught by the first run of its case alone. */
  lemma HazardCaughtAtOnce(spec: Spec, hazard: Hazard, x: CaseInput)
    requires Known(spec, x) && x.caseId == hazard.caseId && RuleOf(spec, x).tag != "broken_" + hazard.failureId
    ensures AllKnown(spec, [x]) && !Passes(spec, Some(hazard), [x])
  {
    OneStep(spec, Some(hazard), x);
    PassesIff(spec, Some(hazard), [x]);
  }

  /** The broken step is the rule's own. */
  predicate Mimics(hazard: Hazard, rule: Rule) {
    && hazard.brokenDecision == rule.decision && hazard.brokenWrites == rule.writes
    && hazard.brokenSideEffects == rule.sideEffects && hazard.brokenTokens == rule.tokens
    && "broken_" + hazard.failureId == rule.tag
  }

  /** The broken step is the rule's own answer to a repetition. */
  predicate MimicsRetry(hazard: Hazard, rule: Rule) {
    && hazard.brokenDecision == rule.retryDecision && hazard.brokenWrites == [] && hazard.brokenSideEffects == []
    && hazard.brokenTokens == rule.retryTokens && "broken_" + hazard.failureId == rule.retryLabel
  }

  /** The hazard changes nothing that the invariants of one step look at. */
  predicate Unseen(spec: Spec, hazard: Hazard, x: CaseInput)
    requires Known(spec, x)
  {
    x.caseId == hazard.caseId ==>
      Mimics(hazard, RuleOf(spec, x)) && (hazard.ignoreIdempotency ==> MimicsRetry(hazard, RuleOf(spec, x)))
  }

  lemma UnseenStep(spec: Spec, hazard: Hazard, x: CaseInput, repeated: bool)
    requires Known(spec, x) && Unseen(spec, hazard, x)
    ensures StepOk(spec, Some(hazard), x, repeated) <==> StepOk(spec, None, x, repeated)
    ensures forall kind :: Adds(spec, Some(hazard), x, false, kind) == Adds(spec, None, x, false, kind)
  {
  }

  lemma {:induction false} UnseenRecord(spec: Spec, hazard: Hazard, xs: seq<CaseInput>, kind: Kind)
    requires AllKnown(spec, xs) && forall x :: x in xs ==> Unseen(spec, hazard, x)
    ensures Record(spec, Some(hazard), xs, kind) == Record(spec, None, xs, kind)
  {
    if xs != [] {
      var n := |xs| - 1;
      assert xs[n] in xs;
      UnseenRecord(spec, hazard, xs[..n], kind);
      UnseenStep(spec, hazard, xs[n], false);
    }
  }

  /** A run over inputs on which the hazard is unseen passes exactly when it passes without the hazard. */
  lemma UnseenRun(spec: Spec, hazard: Hazard, xs: seq<CaseInput>)
    requires AllKnown(spec, xs) && forall x :: x in xs ==> Unseen(spec, hazard, x)
    ensures Passes(spec, Some(hazard), xs) <==> Passes(spec, None, xs)
  {
    PassesIff(spec, Some(hazard), xs);
    PassesIff(spec, None, xs);
    UnseenRecord(spec, hazard, xs, Write);
    UnseenRecord(spec, hazard, xs, SideEffect);
    forall i | 0 <= i < |xs|
      ensures xs[i] in xs
      ensures StepOk(spec, Some(hazard), xs[i], SeenBefore(xs, i)) <==> StepOk(spec, None, xs[i], SeenBefore(xs, i))
    {
      UnseenStep(spec, hazard, xs[i], SeenBefore(xs, i));
    }
  }

  ghost predicate AlwaysPasses(spec: Spec, hazard: Option<Hazard>) {
    forall xs :: Declared(spec, xs) ==> AllKnown(spec, xs) && Passes(spec, hazard, xs)
  }

  lemma PassingIsUnseen(spec: Spec, hazard: Hazard, x: CaseInput)
    requires AlwaysPasses(spec, Some(hazard)) && x in ExternalInputs(spec)
    ensures Known(spec, x) && Unseen(spec, hazard, x)
  {
    assert Declared(spec, [x]) && Declared(spec, [x, x]);
    assert AllKnown(spec, [x]) && Known(spec, [x][0]);
    OneStep(spec, Some(hazard), x);
    PassesIff(spec, Some(hazard), [x]);
    TwoSteps(spec, Some(hazard), x, x);
    PassesIff(spec, Some(hazard), [x, x]);
  }

  /** A hazard goes unnoticed by every run exactly when the sound harness passes every run and the hazard, where it
      strikes, does what the rule does: at a first occurrence, and at a repetition if it ignores idempotency. */
  lemma HazardPassesIff(spec: Spec, hazard: Hazard)
    ensures AlwaysPasses(spec, Some(hazard)) <==>
      AlwaysPasses(spec, None) && forall x :: x in ExternalInputs(spec) ==> Known(spec, x) && Unseen(spec, hazard, x)
  {
    if AlwaysPasses(spec, Some(hazard)) {
      forall x | x in ExternalInputs(spec)
        ensures Known(spec, x) && Unseen(spec, hazard, x)
      {
        PassingIsUnseen(spec, hazard, x);
      }
    }
    if forall x :: x in ExternalInputs(spec) ==> Known(spec, x) && Unseen(spec, hazard, x) {
      forall xs | Declared(spec, xs)
        ensures AllKnown(spec, xs) && (Passes(spec, Some(hazard), xs) <==> Passes(spec, None, xs))
      {
        DeclaredIsKnown(spec, xs);
        UnseenRun(spec, hazard, xs);
      }
    }
  }

  // ----- at most once, over all runs

  ghost predicate OnceAlways(spec: Spec) {
    forall xs :: Declared(spec, xs) ==> (
      && AllKnown(spec, xs)
      && AtMostOnce(RunOf(spec, None, xs).state.writeEvents) && AtMostOnce(RunOf(spec, None, xs).state.effectEvents))
  }

  function EventsOf(spec: Spec, x: CaseInput, kind: Kind): seq<string>
    requires Known(spec, x)
  {
    Adds(spec, None, x, false, kind)
  }

  /** What one can check on the declarations alone: no input's own events repeat, and inputs with
      different keys share no event. */
  ghost predicate EventsSeparate(spec: Spec) {
    && (forall x :: x in ExternalInputs(spec) ==>
          Known(spec, x) && NoDuplicates(EventsOf(spec, x, Write)) && NoDuplicates(EventsOf(spec, x, SideEffect)))
    && (forall x, y :: x in ExternalInputs(spec) && y in ExternalInputs(spec) && x.logicalKey != y.logicalKey ==>
          && Known(spec, x) && Known(spec, y)
          && Apart(EventsOf(spec, x, Write), EventsOf(spec, y, Write))
          && Apart(EventsOf(spec, x, SideEffect), EventsOf(spec, y, SideEffect)))
  }

  lemma {:induction false} GoodRecord(spec: Spec, xs: seq<CaseInput>, kind: Kind)
    requires AllKnown(spec, xs)
    ensures Recorded(RunOf(spec, None, xs).state, kind) == Record(spec, None, xs, kind)
  {
    if xs != [] {
      GoodRecord(spec, xs[..|xs| - 1], kind);
      LastStep(spec, None, xs, kind);
    }
  }

  lemma SeparateRunsOnce(spec: Spec, xs: seq<CaseInput>, kind: Kind)
    requires EventsSeparate(spec) && Declared(spec, xs) && AllKnown(spec, xs) && kind != Terminal
    ensures AtMostOnce(Recorded(RunOf(spec, None, xs).state, kind))
  {
    GoodRecord(spec, xs, kind);
    forall i | 0 <= i < |xs| && !SeenBefore(xs, i)
      ensures xs[i] in xs && NoDuplicates(Adds(spec, None, xs[i], false, kind))
    {
      assert xs[i] in ExternalInputs(spec);
      assert EventsOf(spec, xs[i], kind) == Adds(spec, None, xs[i], false, kind);
    }
    forall i, j | 0 <= i < j < |xs| && !SeenBefore(xs, i) && !SeenBefore(xs, j)
      ensures xs[i] in xs && xs[j] in xs && Apart(Adds(spec, None, xs[i], false, kind), Adds(spec, None, xs[j], false, kind))
    {
      assert xs[i] in ExternalInputs(spec) && xs[j] in ExternalInputs(spec);
      assert Apart(EventsOf(spec, xs[i], kind), EventsOf(spec, xs[j], kind));
    }
    DistinctRecord(spec, None, xs, kind);
    CountIffDistinct(Record(spec, None, xs, kind));
  }

  lemma OnceGivesDistinct(spec: Spec, xs: seq<CaseInput>, kind: Kind)
    requires OnceAlways(spec) && Declared(spec, xs) && AllKnown(spec, xs) && kind != Terminal
    ensures NoDuplicates(Record(spec, None, xs, kind))
  {
    GoodRecord(spec, xs, kind);
    CountIffDistinct(Record(spec, None, xs, kind));
  }

  lemma OnceGivesSeparate(spec: Spec, x: CaseInput, y: CaseInput, kind: Kind)
    requires OnceAlways(spec) && x in ExternalInputs(spec) && y in ExternalInputs(spec) && kind != Terminal
    ensures Known(spec, x) && Known(spec, y) && NoDuplicates(EventsOf(spec, x, kind))
    ensures x.logicalKey != y.logicalKey ==> Apart(EventsOf(spec, x, kind), EventsOf(spec, y, kind))
  {
    DeclaredIsKnown(spec, [x, y]);
    assert x in [x, y] && y in [x, y];
    OneStep(spec, None, x);
    OnceGivesDistinct(spec, [x], kind);
    if x.logicalKey != y.logicalKey {
      TwoSteps(spec, None, x, y);
      OnceGivesDistinct(spec, [x, y], kind);
      NoDuplicatesConcat(EventsOf(spec, x, kind), EventsOf(spec, y, kind));
    }
  }

  /** Without a hazard, no run of any length over the declared inputs repeats a write or a side
      effect exactly when the declared events are separate. */
  lemma AtMostOnceIff(spec: Spec)
    ensures OnceAlways(spec) <==> EventsSeparate(spec)
  {
    if EventsSeparate(spec) {
      forall xs | Declared(spec, xs)
        ensures AllKnown(spec, xs) && AtMostOnce(RunOf(spec, None, xs).state.writeEvents)
          && AtMostOnce(RunOf(spec, None, xs).state.effectEvents)
      {
        DeclaredIsKnown(spec, xs);
        SeparateRunsOnce(spec, xs, Write);
        SeparateRunsOnce(spec, xs, SideEffect);
      }
    }
    if OnceAlways(spec) {
      forall x, y | x in ExternalInputs(spec) && y in ExternalInputs(spec)
        ensures Known(spec, x) && Known(spec, y)
        ensures NoDuplicates(EventsOf(spec, x, Write)) && NoDuplicates(EventsOf(spec, x, SideEffect))
        ensures x.logicalKey != y.logicalKey ==>
          Apart(EventsOf(spec, x, Write), EventsOf(spec, y, Write)) && Apart(EventsOf(spec, x, SideEffect), EventsOf(spec, y, SideEffect))
      {
        OnceGivesSeparate(spec, x, y, Write);
        OnceGivesSeparate(spec, x, y, SideEffect);
      }
    }
  }

  /** A key without the separator can be read back from the event. */
  lemma {:induction false} EventInjective(k: string, f: string, l: string, g: string)
    requires '|' !in k && '|' !in l && Event(k, f) == Event(l, g)
    ensures k == l && f == g
  {
    var e := Event(k, f);
    assert e[|k|] == '|' && e[|l|] == '|';
    assert forall i :: 0 <= i < |k| ==> e[i] == k[i] && k[i] in k;
    assert forall i :: 0 <= i < |l| ==> e[i] == l[i] && l[i] in l;
    assert |k| == |l|;
    assert k == Event(k, f)[..|k|] && f == Event(k, f)[|k| + 1..];
    assert l == Event(l, g)[..|l|] && g == Event(l, g)[|l| + 1..];
  }

  /** Declarations whose keys do not contain the separator and whose rules list nothing twice. */
  ghost predicate Tidy(spec: Spec) {
    forall x :: x in ExternalInputs(spec) ==>
      '|' !in x.logicalKey && Known(spec, x) && NoDuplicates(RuleOf(spec, x).writes) && NoDuplicates(RuleOf(spec, x).sideEffects)
  }

  lemma EventsOfDistinct(spec: Spec, x: CaseInput, kind: Kind)
    requires Known(spec, x) && NoDuplicates(Items(Decide(spec, None, x, false).output, kind))
    ensures NoDuplicates(EventsOf(spec, x, kind))
  {
    var items, events := Items(Decide(spec, None, x, false).output, kind), EventsOf(spec, x, kind);
    forall i, j | 0 <= i < j < |events|
      ensures events[i] != events[j]
    {
      assert events[i][|x.logicalKey| + 1..] == items[i] && events[j][|x.logicalKey| + 1..] == items[j];
    }
  }

  lemma EventsOfApart(spec: Spec, x: CaseInput, y: CaseInput, kind: Kind)
    requires Known(spec, x) && Known(spec, y) && x.logicalKey != y.logicalKey
    requires '|' !in x.logicalKey && '|' !in y.logicalKey
    ensures Apart(EventsOf(spec, x, kind), EventsOf(spec, y, kind))
  {
    var p, q := Items(Decide(spec, None, x, false).output, kind), Items(Decide(spec, None, y, false).output, kind);
    forall i, j | 0 <= i < |p| && 0 <= j < |q|
      ensures Event(x.logicalKey, p[i]) != Event(y.logicalKey, q[j])
    {
      if Event(x.logicalKey, p[i]) == Event(y.logicalKey, q[j]) {
        EventInjective(x.logicalKey, p[i], y.logicalKey, q[j]);
      }
    }
  }

  /** Tidy declarations are enough for at most once over all runs. */
  lemma TidyRunsOnce(spec: Spec)
    requires Tidy(spec)
    ensures OnceAlways(spec)
  {
    forall x | x in ExternalInputs(spec)
      ensures Known(spec, x) && NoDuplicates(EventsOf(spec, x, Write)) && NoDuplicates(EventsOf(spec, x, SideEffect))
    {
      EventsOfDistinct(spec, x, Write);
      EventsOfDistinct(spec, x, SideEffect);
    }
    forall x, y | x in ExternalInputs(spec) && y in ExternalInputs(spec) && x.logicalKey != y.logicalKey
      ensures Known(spec, x) && Known(spec, y)
      ensures Apart(EventsOf(spec, x, Write), EventsOf(spec, y, Write)) && Apart(EventsOf(spec, x, SideEffect), EventsOf(spec, y, SideEffect))
    {
      EventsOfApart(spec, x, y, Write);
      EventsOfApart(spec, x, y, SideEffect);
    }
    AtMostOnceIff(spec);
  }
}
