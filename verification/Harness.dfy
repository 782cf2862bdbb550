/**
 The finite-transition harness (flowguard_models/harness.py): one idempotent step, optionally
 broken by a hazard, and the four invariants checked on a run. Only the parts of a model
 specification that a step or an invariant reads are kept.
 */
module Harness {
  import opened Basics

  datatype CaseInput = CaseInput(modelId: string, caseId: string, logicalKey: string)

  datatype Output = Output(
    modelId: string, caseId: string, decision: string,
    writes: seq<string>, sideEffects: seq<string>, tokens: seq<string>, reason: string)

  datatype State = State(
    processedKeys: seq<string>, writeEvents: seq<string>, effectEvents: seq<string>, terminalOutputs: seq<string>)

  const INITIAL := State([], [], [], [])

  datatype Rule = Rule(
    caseId: string, decision: string, tag: string,
    writes: seq<string>, sideEffects: seq<string>, tokens: seq<string>, reason: string,
    logicalKey: string, retryDecision: string, retryLabel: string, retryTokens: seq<string>)
  {
    function Key(): string {
      if logicalKey != "" then logicalKey else caseId
    }
  }

  datatype Hazard = Hazard(
    failureId: string, caseId: string, brokenDecision: string,
    brokenWrites: seq<string>, brokenSideEffects: seq<string>, brokenTokens: seq<string>, ignoreIdempotency: bool)

  datatype Spec = Spec(modelId: string, ownedWriteFields: seq<string>, rules: seq<Rule>)

  /** Later rules replace earlier ones with the same case id. */
  function RuleMap(rules: seq<Rule>): map<string, Rule> {
    if rules == [] then map[] else RuleMap(rules[..|rules| - 1])[rules[|rules| - 1].caseId := rules[|rules| - 1]]
  }

  predicate Known(spec: Spec, x: CaseInput) {
    x.caseId in RuleMap(spec.rules)
  }

  function RuleOf(spec: Spec, x: CaseInput): Rule
    requires Known(spec, x)
  {
    RuleMap(spec.rules)[x.caseId]
  }

  /** The inputs a check explores. */
  function ExternalInputs(spec: Spec): seq<CaseInput> {
    seq(|spec.rules|, i requires 0 <= i < |spec.rules| => CaseInput(spec.modelId, spec.rules[i].caseId, spec.rules[i].Key()))
  }

  // ----- one step

  /** What a step emits; `acts` is false for the absorbed repetition that leaves the state alone. */
  datatype Effect = Effect(output: Output, tag: string, acts: bool)

  predicate Strikes(hazard: Option<Hazard>, x: CaseInput) {
    hazard.Some? && hazard.value.caseId == x.caseId
  }

  function Decide(spec: Spec, hazard: Option<Hazard>, x: CaseInput, repeated: bool): Effect
    requires Known(spec, x)
  {
    var rule := RuleOf(spec, x);
    if repeated && !(Strikes(hazard, x) && hazard.value.ignoreIdempotency) then
      Effect(Output(spec.modelId, x.caseId, rule.retryDecision, [], [], rule.retryTokens, "idempotent repeated input"),
             rule.retryLabel, false)
    else if Strikes(hazard, x) then
      var h := hazard.value;
      Effect(Output(spec.modelId, x.caseId, h.brokenDecision, h.brokenWrites, h.brokenSideEffects, h.brokenTokens,
                    "known-bad variant: " + h.failureId),
             "broken_" + h.failureId, true)
    else
      Effect(Output(spec.modelId, x.caseId, rule.decision, rule.writes, rule.sideEffects, rule.tokens, rule.reason),
             rule.tag, true)
  }

  function Event(key: string, item: string): string {
    key + "|" + item
  }

  function Events(key: string, items: seq<string>): seq<string> {
    seq(|items|, i requires 0 <= i < |items| => Event(key, items[i]))
  }

  datatype Step = Step(input: CaseInput, output: Output, tag: string, before: State, after: State)

  function Apply(spec: Spec, hazard: Option<Hazard>, x: CaseInput, s: State): Step
    requires Known(spec, x)
  {
    var e := Decide(spec, hazard, x, x.logicalKey in s.processedKeys);
    if !e.acts then Step(x, e.output, e.tag, s, s)
    else
      var processed := if x.logicalKey in s.processedKeys then s.processedKeys else s.processedKeys + [x.logicalKey];
      Step(x, e.output, e.tag, s, State(
        processed,
        s.writeEvents + Events(x.logicalKey, e.output.writes),
        s.effectEvents + Events(x.logicalKey, e.output.sideEffects),
        s.terminalOutputs + [Event(x.logicalKey, e.output.decision)]))
  }

  predicate AllKnown(spec: Spec, xs: seq<CaseInput>) {
    forall x :: x in xs ==> Known(spec, x)
  }

  datatype Run = Run(steps: seq<Step>, state: State)

  function RunOf(spec: Spec, hazard: Option<Hazard>, xs: seq<CaseInput>): Run
    requires AllKnown(spec, xs)
  {
    if xs == [] then Run([], INITIAL) else
    assert xs[|xs| - 1] in xs;
    var before := RunOf(spec, hazard, xs[..|xs| - 1]);
    var step := Apply(spec, hazard, xs[|xs| - 1], before.state);
    Run(before.steps + [step], step.after)
  }

  // ----- the invariants

  predicate StepMeetsContract(spec: Spec, step: Step)
    requires Known(spec, step.input)
  {
    var rule, out := RuleOf(spec, step.input), step.output;
    && step.input.modelId == spec.modelId && out.modelId == spec.modelId
    && if step.input.logicalKey in step.before.processedKeys then
         && out.decision == rule.retryDecision && out.writes == [] && out.sideEffects == []
         && out.tokens == rule.retryTokens && step.tag == rule.retryLabel
       else
         && out.decision == rule.decision && out.writes == rule.writes && out.sideEffects == rule.sideEffects
         && out.tokens == rule.tokens && step.tag == rule.tag
  }

  predicate WritesOwned(spec: Spec, step: Step) {
    Elements(step.output.writes) <= Elements(spec.ownedWriteFields)
  }

  predicate AtMostOnce(events: seq<string>) {
    |events| == |Elements(events)|
  }

  predicate Satisfies(spec: Spec, run: Run)
    requires forall s :: s in run.steps ==> Known(spec, s.input)
  {
    && (forall s :: s in run.steps ==> StepMeetsContract(spec, s))
    && (forall s :: s in run.steps ==> WritesOwned(spec, s))
    && AtMostOnce(run.state.effectEvents)
    && AtMostOnce(run.state.writeEvents)
  }

  lemma {:induction false} StepsAreInputs(spec: Spec, hazard: Option<Hazard>, xs: seq<CaseInput>)
    requires AllKnown(spec, xs)
    ensures var steps := RunOf(spec, hazard, xs).steps;
      |steps| == |xs| && forall i :: 0 <= i < |xs| ==> steps[i].input == xs[i]
  {
    if xs != [] {
      StepsAreInputs(spec, hazard, xs[..|xs| - 1]);
    }
  }

  /** A run of these inputs passes the four invariants. */
  predicate Passes(spec: Spec, hazard: Option<Hazard>, xs: seq<CaseInput>)
    requires AllKnown(spec, xs)
  {
    StepsAreInputs(spec, hazard, xs);
    Satisfies(spec, RunOf(spec, hazard, xs))
  }

  predicate Declared(spec: Spec, xs: seq<CaseInput>) {
    forall x :: x in xs ==> x in ExternalInputs(spec)
  }

  lemma {:induction false} RuleMapKnows(rules: seq<Rule>, i: nat)
    requires i < |rules|
    ensures rules[i].caseId in RuleMap(rules)
  {
    if i < |rules| - 1 {
      RuleMapKnows(rules[..|rules| - 1], i);
    }
  }

  lemma DeclaredIsKnown(spec: Spec, xs: seq<CaseInput>)
    requires Declared(spec, xs)
    ensures AllKnown(spec, xs)
  {
    forall x | x in xs
      ensures Known(spec, x)
    {
      var i :| 0 <= i < |ExternalInputs(spec)| && ExternalInputs(spec)[i] == x;
      RuleMapKnows(spec.rules, i);
    }
  }
}
