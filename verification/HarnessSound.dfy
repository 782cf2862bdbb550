/** What each step does, and exactly which specifications the harness passes, read off the declared rules. */
module HarnessSound {
  import opened Basics
  import opened Harness
  import opened HarnessLaws

  /** The event strings a key and a list of names make. */
  function Tagged(key: string, names: seq<string>): seq<string> {
    seq(|names|, i requires 0 <= i < |names| => key + "|" + names[i])
  }

  // ----- the declarations

  /** One input for each rule, under its logical key or, without one, its case id. */
  lemma InputsAre(spec: Spec)
    ensures |ExternalInputs(spec)| == |spec.rules|
    ensures forall i :: 0 <= i < |spec.rules| ==>
      var x, rule := ExternalInputs(spec)[i], spec.rules[i];
      x.modelId == spec.modelId && x.caseId == rule.caseId &&
      x.logicalKey == if rule.logicalKey == "" then rule.caseId else rule.logicalKey
  {
  }

  /** The rule of a case is the last one declared for it. */
  lemma {:induction false} LastRuleCounts(rules: seq<Rule>, i: nat)
    requires i < |rules| && forall j :: i < j < |rules| ==> rules[j].caseId != rules[i].caseId
    ensures rules[i].caseId in RuleMap(rules) && RuleMap(rules)[rules[i].caseId] == rules[i]
  {
    if i < |rules| - 1 {
      LastRuleCounts(rules[..|rules| - 1], i);
    }
  }

  // ----- the steps

  lemma {:induction false} StepIs(spec: Spec, hazard: Option<Hazard>, xs: seq<CaseInput>, i: nat)
    requires AllKnown(spec, xs) && i < |xs| && xs[i] in xs && AllKnown(spec, xs[..i])
    ensures |RunOf(spec, hazard, xs).steps| == |xs|
    ensures RunOf(spec, hazard, xs).steps[i] == Apply(spec, hazard, xs[i], RunOf(spec, hazard, xs[..i]).state)
  {
    StepsAreInputs(spec, hazard, xs);
    if i < |xs| - 1 {
      var before := xs[..|xs| - 1];
      assert before[i] in before && before[..i] == xs[..i];
      StepIs(spec, hazard, before, i);
    }
  }

  lemma SeenIsProcessed(spec: Spec, hazard: Option<Hazard>, xs: seq<CaseInput>, i: nat)
    requires AllKnown(spec, xs) && i < |xs| && AllKnown(spec, xs[..i])
    ensures xs[i].logicalKey in RunOf(spec, hazard, xs[..i]).state.processedKeys <==> SeenBefore(xs, i)
  {
    ProcessedKeys(spec, hazard, xs[..i]);
    if j :| 0 <= j < i && xs[j].logicalKey == xs[i].logicalKey {
      assert xs[..i][j].logicalKey == xs[i].logicalKey;
    }
  }

  /** A repeated input gets the rule's answer to a repetition, and the state stays as it is. */
  predicate Absorbed(spec: Spec, rule: Rule, step: Step) {
    && step.output == Output(spec.modelId, step.input.caseId, rule.retryDecision, [], [], rule.retryTokens, "idempotent repeated input")
    && step.tag == rule.retryLabel && step.after == step.before
  }

  /** The state after an acting step, from what the step decided and wrote. */
  function Recording(s: State, key: string, decision: string, writes: seq<string>, effects: seq<string>): State {
    State(if key in s.processedKeys then s.processedKeys else s.processedKeys + [key],
          s.writeEvents + Tagged(key, writes), s.effectEvents + Tagged(key, effects),
          s.terminalOutputs + [key + "|" + decision])
  }

  /** An input not seen before gets what its rule declares, all of which is recorded under its key. */
  predicate Performed(spec: Spec, rule: Rule, step: Step) {
    && step.output == Output(spec.modelId, step.input.caseId, rule.decision, rule.writes, rule.sideEffects, rule.tokens, rule.reason)
    && step.tag == rule.tag
    && step.after == Recording(step.before, step.input.logicalKey, rule.decision, rule.writes, rule.sideEffects)
  }

  /** The hazard puts its own declarations in the place of the rule's. */
  predicate Broken(spec: Spec, h: Hazard, step: Step) {
    && step.output == Output(spec.modelId, step.input.caseId, h.brokenDecision, h.brokenWrites, h.brokenSideEffects,
                             h.brokenTokens, "known-bad variant: " + h.failureId)
    && step.tag == "broken_" + h.failureId
    && step.after == Recording(step.before, step.input.logicalKey, h.brokenDecision, h.brokenWrites, h.brokenSideEffects)
  }

  lemma TaggedAreEvents(key: string, names: seq<string>)
    ensures Tagged(key, names) == Events(key, names)
  {
  }

  /** Each step of a run: its input, that it starts where the run stood, and what it emits and leaves. */
  lemma StepMeaning(spec: Spec, hazard: Option<Hazard>, xs: seq<CaseInput>, i: nat)
    requires AllKnown(spec, xs) && i < |xs|
    ensures |RunOf(spec, hazard, xs).steps| == |xs| && Known(spec, xs[i]) && AllKnown(spec, xs[..i])
    ensures var step := RunOf(spec, hazard, xs).steps[i];
            step.input == xs[i] && step.before == RunOf(spec, hazard, xs[..i]).state
    ensures var step, rule := RunOf(spec, hazard, xs).steps[i], RuleOf(spec, xs[i]);
            var repeated := exists j :: 0 <= j < i && xs[j].logicalKey == xs[i].logicalKey;
            if hazard.Some? && hazard.value.caseId == xs[i].caseId && (repeated ==> hazard.value.ignoreIdempotency) then
              Broken(spec, hazard.value, step)
            else if repeated then Absorbed(spec, rule, step)
            else Performed(spec, rule, step)
  {
    assert xs[i] in xs && AllKnown(spec, xs[..i]);
    StepIs(spec, hazard, xs, i);
    SeenIsProcessed(spec, hazard, xs, i);
    var rule := RuleOf(spec, xs[i]);
    TaggedAreEvents(xs[i].logicalKey, rule.writes);
    TaggedAreEvents(xs[i].logicalKey, rule.sideEffects);
    if hazard.Some? {
      TaggedAreEvents(xs[i].logicalKey, hazard.value.brokenWrites);
      TaggedAreEvents(xs[i].logicalKey, hazard.value.brokenSideEffects);
    }
  }

  /** A run begins with nothing recorded and ends where its last step leaves it. */
  lemma RunMeaning(spec: Spec, hazard: Option<Hazard>, xs: seq<CaseInput>)
    requires AllKnown(spec, xs)
    ensures xs == [] ==> RunOf(spec, hazard, xs) == Run([], State([], [], [], []))
    ensures xs != [] ==> |RunOf(spec, hazard, xs).steps| == |xs| &&
                         RunOf(spec, hazard, xs).state == RunOf(spec, hazard, xs).steps[|xs| - 1].after
  {
    StepsAreInputs(spec, hazard, xs);
  }

  // ----- the four invariants

  /** A step is sound when its output is what its rule declares for it, first seen or repeated, under the model's name. */
  predicate SoundStep(spec: Spec, rule: Rule, step: Step, repeated: bool) {
    && step.input.modelId == spec.modelId == step.output.modelId
    && (repeated ==>
          && step.output.decision == rule.retryDecision && step.output.writes == [] && step.output.sideEffects == []
          && step.output.tokens == rule.retryTokens && step.tag == rule.retryLabel)
    && (!repeated ==>
          && step.output.decision == rule.decision && step.output.writes == rule.writes
          && step.output.sideEffects == rule.sideEffects && step.output.tokens == rule.tokens && step.tag == rule.tag)
  }

  ghost predicate SoundAt(spec: Spec, hazard: Option<Hazard>, xs: seq<CaseInput>, i: nat)
    requires AllKnown(spec, xs) && i < |xs|
  {
    && i < |RunOf(spec, hazard, xs).steps| && Known(spec, xs[i])
    && var step := RunOf(spec, hazard, xs).steps[i];
    && SoundStep(spec, RuleOf(spec, xs[i]), step, exists j :: 0 <= j < i && xs[j].logicalKey == xs[i].logicalKey)
    && forall w :: w in step.output.writes ==> w in spec.ownedWriteFields
  }

  lemma SoundAtIff(spec: Spec, hazard: Option<Hazard>, xs: seq<CaseInput>, i: nat)
    requires AllKnown(spec, xs) && i < |xs| && AllKnown(spec, xs[..i])
    requires |RunOf(spec, hazard, xs).steps| == |xs| && Known(spec, xs[i])
    requires var step := RunOf(spec, hazard, xs).steps[i];
             step.input == xs[i] && step.before == RunOf(spec, hazard, xs[..i]).state
    ensures var step := RunOf(spec, hazard, xs).steps[i];
            SoundAt(spec, hazard, xs, i) <==> StepMeetsContract(spec, step) && WritesOwned(spec, step)
  {
    SeenIsProcessed(spec, hazard, xs, i);
    var writes, owned := RunOf(spec, hazard, xs).steps[i].output.writes, spec.ownedWriteFields;
    assert forall w :: (w in Elements(writes) <==> w in writes) && (w in Elements(owned) <==> w in owned);
  }

  lemma StepSound(spec: Spec, hazard: Option<Hazard>, xs: seq<CaseInput>, i: nat)
    requires AllKnown(spec, xs) && i < |xs|
    ensures |RunOf(spec, hazard, xs).steps| == |xs| && Known(spec, RunOf(spec, hazard, xs).steps[i].input)
    ensures var step := RunOf(spec, hazard, xs).steps[i];
            SoundAt(spec, hazard, xs, i) <==> StepMeetsContract(spec, step) && WritesOwned(spec, step)
  {
    StepMeaning(spec, hazard, xs, i);
    SoundAtIff(spec, hazard, xs, i);
  }

  lemma StepsSound(spec: Spec, hazard: Option<Hazard>, xs: seq<CaseInput>)
    requires AllKnown(spec, xs)
    ensures forall step :: step in RunOf(spec, hazard, xs).steps ==> Known(spec, step.input)
    ensures (forall i :: 0 <= i < |xs| ==> SoundAt(spec, hazard, xs, i)) <==>
            (forall step :: step in RunOf(spec, hazard, xs).steps ==> StepMeetsContract(spec, step) && WritesOwned(spec, step))
  {
    var steps := RunOf(spec, hazard, xs).steps;
    StepsAreInputs(spec, hazard, xs);
    forall i | 0 <= i < |xs|
      ensures steps[i] in steps && Known(spec, steps[i].input)
      ensures SoundAt(spec, hazard, xs, i) <==> StepMeetsContract(spec, steps[i]) && WritesOwned(spec, steps[i])
    {
      StepSound(spec, hazard, xs, i);
    }
  }

  /** A run passes exactly when all its steps are sound and write only owned fields, and neither list of recorded
      events repeats anything. */
  lemma PassesMeans(spec: Spec, hazard: Option<Hazard>, xs: seq<CaseInput>)
    requires AllKnown(spec, xs)
    ensures Passes(spec, hazard, xs) <==>
      && (forall i :: 0 <= i < |xs| ==> SoundAt(spec, hazard, xs, i))
      && NoDuplicates(RunOf(spec, hazard, xs).state.writeEvents) && NoDuplicates(RunOf(spec, hazard, xs).state.effectEvents)
  {
    StepsSound(spec, hazard, xs);
    CountIffDistinct(RunOf(spec, hazard, xs).state.writeEvents);
    CountIffDistinct(RunOf(spec, hazard, xs).state.effectEvents);
  }

  // ----- which specifications pass

  /** Each rule writes only fields its model owns. */
  ghost predicate Owning(spec: Spec) {
    forall x :: x in ExternalInputs(spec) ==>
      Known(spec, x) && forall w :: w in RuleOf(spec, x).writes ==> w in spec.ownedWriteFields
  }

  /** No rule's event strings repeat, and inputs under different keys share none. */
  ghost predicate Distinct(spec: Spec) {
    && (forall x :: x in ExternalInputs(spec) ==>
          && Known(spec, x)
          && NoDuplicates(Tagged(x.logicalKey, RuleOf(spec, x).writes))
          && NoDuplicates(Tagged(x.logicalKey, RuleOf(spec, x).sideEffects)))
    && (forall x, y :: x in ExternalInputs(spec) && y in ExternalInputs(spec) && x.logicalKey != y.logicalKey ==>
          && Known(spec, x) && Known(spec, y)
          && Apart(Tagged(x.logicalKey, RuleOf(spec, x).writes), Tagged(y.logicalKey, RuleOf(spec, y).writes))
          && Apart(Tagged(x.logicalKey, RuleOf(spec, x).sideEffects), Tagged(y.logicalKey, RuleOf(spec, y).sideEffects)))
  }

  lemma EventsAreTagged(spec: Spec, x: CaseInput)
    requires Known(spec, x)
    ensures EventsOf(spec, x, Write) == Tagged(x.logicalKey, RuleOf(spec, x).writes)
    ensures EventsOf(spec, x, SideEffect) == Tagged(x.logicalKey, RuleOf(spec, x).sideEffects)
  {
    TaggedAreEvents(x.logicalKey, RuleOf(spec, x).writes);
    TaggedAreEvents(x.logicalKey, RuleOf(spec, x).sideEffects);
  }

  lemma DistinctIsSeparate(spec: Spec)
    ensures Distinct(spec) <==> EventsSeparate(spec)
  {
    forall x | x in ExternalInputs(spec)
      ensures Known(spec, x)
      ensures EventsOf(spec, x, Write) == Tagged(x.logicalKey, RuleOf(spec, x).writes)
      ensures EventsOf(spec, x, SideEffect) == Tagged(x.logicalKey, RuleOf(spec, x).sideEffects)
    {
      DeclaredIsKnown(spec, [x]);
      assert x in [x];
      EventsAreTagged(spec, x);
    }
  }

  lemma OwningStepOk(spec: Spec, x: CaseInput, repeated: bool)
    requires x in ExternalInputs(spec) && Known(spec, x)
    ensures repeated ==> StepOk(spec, None, x, true)
    ensures StepOk(spec, None, x, false) <==> forall w :: w in RuleOf(spec, x).writes ==> w in spec.ownedWriteFields
  {
    InputsAre(spec);
    var i :| 0 <= i < |ExternalInputs(spec)| && ExternalInputs(spec)[i] == x;
    assert x.modelId == spec.modelId;
    var writes, owned := RuleOf(spec, x).writes, spec.ownedWriteFields;
    assert forall w :: (w in Elements(writes) <==> w in writes) && (w in Elements(owned) <==> w in owned);
  }

  lemma SoundRunPasses(spec: Spec, xs: seq<CaseInput>)
    requires Owning(spec) && Distinct(spec) && Declared(spec, xs)
    ensures AllKnown(spec, xs) && Passes(spec, None, xs)
  {
    DeclaredIsKnown(spec, xs);
    DistinctIsSeparate(spec);
    AtMostOnceIff(spec);
    PassesIff(spec, None, xs);
    forall i | 0 <= i < |xs|
      ensures xs[i] in xs && StepOk(spec, None, xs[i], SeenBefore(xs, i))
    {
      OwningStepOk(spec, xs[i], SeenBefore(xs, i));
    }
    OnceGivesDistinct(spec, xs, Write);
    OnceGivesDistinct(spec, xs, SideEffect);
  }

  lemma PassingIsOwning(spec: Spec, x: CaseInput)
    requires AlwaysPasses(spec, None) && x in ExternalInputs(spec)
    ensures Known(spec, x) && forall w :: w in RuleOf(spec, x).writes ==> w in spec.ownedWriteFields
  {
    assert Declared(spec, [x]) && AllKnown(spec, [x]) && x in [x];
    OneStep(spec, None, x);
    PassesIff(spec, None, [x]);
    OwningStepOk(spec, x, false);
  }

  lemma PassingIsOnce(spec: Spec)
    requires AlwaysPasses(spec, None)
    ensures OnceAlways(spec)
  {
    forall xs | Declared(spec, xs)
      ensures AllKnown(spec, xs)
      ensures AtMostOnce(RunOf(spec, None, xs).state.writeEvents) && AtMostOnce(RunOf(spec, None, xs).state.effectEvents)
    {
      assert Passes(spec, None, xs);
    }
  }

  /** Without a hazard every run passes exactly when each declared rule writes only owned fields, its event strings do
      not repeat, and inputs under different keys share none. */
  lemma AlwaysPassesIff(spec: Spec)
    ensures AlwaysPasses(spec, None) <==> Owning(spec) && Distinct(spec)
  {
    if Owning(spec) && Distinct(spec) {
      forall xs | Declared(spec, xs)
        ensures AllKnown(spec, xs) && Passes(spec, None, xs)
      {
        SoundRunPasses(spec, xs);
      }
    }
    if AlwaysPasses(spec, None) {
      forall x | x in ExternalInputs(spec)
        ensures Known(spec, x) && forall w :: w in RuleOf(spec, x).writes ==> w in spec.ownedWriteFields
      {
        PassingIsOwning(spec, x);
      }
      PassingIsOnce(spec);
      AtMostOnceIff(spec);
      DistinctIsSeparate(spec);
    }
  }
}
