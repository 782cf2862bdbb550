/** Repetition and reordering of inputs, without a hazard; and why depth one is not enough. */
module HarnessReplay {
  import opened Basics
  import opened Harness
  import opened HarnessLaws

  // ----- depth two is also needed

  const SPLIT_RULE := Rule("a", "done", "step_a", ["b|c"], [], [], "", "", "no_delta", "retry_no_delta", ["NoDelta"])
  const JOINED_RULE := Rule("a|b", "done", "step_b", ["c"], [], [], "", "", "no_delta", "retry_no_delta", ["NoDelta"])
  const CLASHING_SPEC := Spec("m", ["b|c", "c"], [SPLIT_RULE, JOINED_RULE])
  const SPLIT_INPUT := CaseInput("m", "a", "a")
  const JOINED_INPUT := CaseInput("m", "a|b", "a|b")

  lemma ClashingRules()
    ensures RuleMap(CLASHING_SPEC.rules) == map["a" := SPLIT_RULE, "a|b" := JOINED_RULE]
    ensures ExternalInputs(CLASHING_SPEC) == [SPLIT_INPUT, JOINED_INPUT]
  {
    assert CLASHING_SPEC.rules[..1] == [SPLIT_RULE] && [SPLIT_RULE][..0] == [];
    assert RuleMap([SPLIT_RULE]) == map["a" := SPLIT_RULE];
  }

  lemma ClashingEvents(x: CaseInput)
    requires x == SPLIT_INPUT || x == JOINED_INPUT
    ensures Known(CLASHING_SPEC, x) && StepOk(CLASHING_SPEC, None, x, false)
    ensures Adds(CLASHING_SPEC, None, x, false, Write) == ["a|b|c"]
    ensures Adds(CLASHING_SPEC, None, x, false, SideEffect) == []
  {
    ClashingRules();
    assert Event("a", "b|c") == "a|b|c" == Event("a|b", "c");
  }

  lemma ClashingAlone(x: CaseInput)
    requires x == SPLIT_INPUT || x == JOINED_INPUT
    ensures AllKnown(CLASHING_SPEC, [x]) && Passes(CLASHING_SPEC, None, [x])
  {
    ClashingEvents(x);
    OneStep(CLASHING_SPEC, None, x);
    PassesIff(CLASHING_SPEC, None, [x]);
  }

  lemma ClashingPair()
    ensures AllKnown(CLASHING_SPEC, [SPLIT_INPUT, JOINED_INPUT]) && !Passes(CLASHING_SPEC, None, [SPLIT_INPUT, JOINED_INPUT])
  {
    var x, y := SPLIT_INPUT, JOINED_INPUT;
    ClashingEvents(x);
    ClashingEvents(y);
    TwoSteps(CLASHING_SPEC, None, x, y);
    PassesIff(CLASHING_SPEC, None, [x, y]);
    var r := Record(CLASHING_SPEC, None, [x, y], Write);
    assert r == ["a|b|c", "a|b|c"];
    assert r[0] == r[1];
  }

  /** Two keys that differ only by where a separator stands: each input passes alone, the pair
      repeats a write event. So sequences of length one would not do, and a separator inside a key
      breaks at-most-once. */
  lemma DepthOneIsNotEnough()
    ensures forall x :: x in ExternalInputs(CLASHING_SPEC) ==> AllKnown(CLASHING_SPEC, [x]) && Passes(CLASHING_SPEC, None, [x])
    ensures Declared(CLASHING_SPEC, [SPLIT_INPUT, JOINED_INPUT])
    ensures AllKnown(CLASHING_SPEC, [SPLIT_INPUT, JOINED_INPUT]) && !Passes(CLASHING_SPEC, None, [SPLIT_INPUT, JOINED_INPUT])
  {
    ClashingRules();
    ClashingAlone(SPLIT_INPUT);
    ClashingAlone(JOINED_INPUT);
    ClashingPair();
  }

  // ----- repetitions are absorbed

  /** The first input of each logical key, in order. */
  function Firsts(xs: seq<CaseInput>): seq<CaseInput> {
    if xs == [] then [] else
    var n := |xs| - 1;
    Firsts(xs[..n]) + if SeenBefore(xs, n) then [] else [xs[n]]
  }

  ghost predicate KeysDistinct(xs: seq<CaseInput>) {
    forall i, j :: 0 <= i < j < |xs| ==> xs[i].logicalKey != xs[j].logicalKey
  }

  lemma {:induction false} FirstsWithin(xs: seq<CaseInput>)
    ensures forall x :: x in Firsts(xs) ==> x in xs
  {
    if xs != [] {
      var n := |xs| - 1;
      FirstsWithin(xs[..n]);
      assert xs == xs[..n] + [xs[n]];
    }
  }

  lemma {:induction false} FirstsDistinct(xs: seq<CaseInput>)
    ensures KeysDistinct(Firsts(xs))
  {
    if xs != [] {
      var n := |xs| - 1;
      var firsts := Firsts(xs[..n]);
      FirstsDistinct(xs[..n]);
      FirstsWithin(xs[..n]);
      forall i | 0 <= i < |firsts| && !SeenBefore(xs, n)
        ensures firsts[i].logicalKey != xs[n].logicalKey
      {
        assert firsts[i] in xs[..n];
      }
    }
  }

  lemma {:induction false} FirstsCover(xs: seq<CaseInput>, i: nat)
    requires i < |xs|
    ensures exists y :: y in Firsts(xs) && y.logicalKey == xs[i].logicalKey
  {
    var n := |xs| - 1;
    if i < n {
      FirstsCover(xs[..n], i);
    } else if SeenBefore(xs, n) {
      var j :| 0 <= j < n && xs[j].logicalKey == xs[n].logicalKey;
      FirstsCover(xs[..n], j);
    } else {
      assert xs[n] in Firsts(xs);
    }
  }

  lemma FirstsAre(xs: seq<CaseInput>)
    ensures KeysDistinct(Firsts(xs))
    ensures forall x :: x in Firsts(xs) ==> x in xs
    ensures forall x :: x in xs ==> exists y :: y in Firsts(xs) && y.logicalKey == x.logicalKey
  {
    FirstsDistinct(xs);
    FirstsWithin(xs);
    forall x | x in xs
      ensures exists y :: y in Firsts(xs) && y.logicalKey == x.logicalKey
    {
      var i :| 0 <= i < |xs| && xs[i] == x;
      FirstsCover(xs, i);
    }
  }

  function KeysOf(xs: seq<CaseInput>): seq<string> {
    seq(|xs|, i requires 0 <= i < |xs| => xs[i].logicalKey)
  }

  ghost function Flat(spec: Spec, xs: seq<CaseInput>, kind: Kind): seq<string>
    requires AllKnown(spec, xs)
  {
    if xs == [] then [] else
    assert xs[|xs| - 1] in xs;
    Flat(spec, xs[..|xs| - 1], kind) + EventsOf(spec, xs[|xs| - 1], kind)
  }

  lemma FlatGrows(spec: Spec, xs: seq<CaseInput>, x: CaseInput, kind: Kind)
    requires AllKnown(spec, xs) && Known(spec, x)
    ensures AllKnown(spec, xs + [x]) && Flat(spec, xs + [x], kind) == Flat(spec, xs, kind) + EventsOf(spec, x, kind)
  {
    assert (xs + [x])[..|xs|] == xs;
  }

  lemma {:induction false} RecordIsFlat(spec: Spec, xs: seq<CaseInput>, kind: Kind)
    requires AllKnown(spec, xs)
    ensures AllKnown(spec, Firsts(xs))
    ensures Record(spec, None, xs, kind) == Flat(spec, Firsts(xs), kind)
  {
    FirstsAre(xs);
    if xs != [] {
      var n := |xs| - 1;
      RecordIsFlat(spec, xs[..n], kind);
      assert xs[n] in xs;
      if SeenBefore(xs, n) {
        assert Firsts(xs) == Firsts(xs[..n]);
      } else {
        FlatGrows(spec, Firsts(xs[..n]), xs[n], kind);
      }
    }
  }

  lemma {:induction false} ProcessedAreFirsts(spec: Spec, xs: seq<CaseInput>)
    requires AllKnown(spec, xs)
    ensures RunOf(spec, None, xs).state.processedKeys == KeysOf(Firsts(xs))
  {
    if xs != [] {
      var n := |xs| - 1;
      ProcessedAreFirsts(spec, xs[..n]);
      LastStep(spec, None, xs, Write);
      assert xs[n] in xs;
      assert SeenBefore(xs, n) ==> Firsts(xs) == Firsts(xs[..n]);
      assert !SeenBefore(xs, n) ==> KeysOf(Firsts(xs)) == KeysOf(Firsts(xs[..n])) + [xs[n].logicalKey];
    }
  }

  lemma RecordedOfFirsts(spec: Spec, xs: seq<CaseInput>, kind: Kind)
    requires AllKnown(spec, xs)
    ensures AllKnown(spec, Firsts(xs))
    ensures Recorded(RunOf(spec, None, xs).state, kind) == Flat(spec, Firsts(xs), kind)
  {
    GoodRecord(spec, xs, kind);
    RecordIsFlat(spec, xs, kind);
  }

  /** The whole state a run reaches, read off the first occurrences of its keys. */
  lemma StateOfFirsts(spec: Spec, xs: seq<CaseInput>)
    requires AllKnown(spec, xs)
    ensures AllKnown(spec, Firsts(xs))
    ensures var f := Firsts(xs);
      RunOf(spec, None, xs).state == State(KeysOf(f), Flat(spec, f, Write), Flat(spec, f, SideEffect), Flat(spec, f, Terminal))
  {
    ProcessedAreFirsts(spec, xs);
    RecordedOfFirsts(spec, xs, Write);
    RecordedOfFirsts(spec, xs, SideEffect);
    RecordedOfFirsts(spec, xs, Terminal);
    var s := RunOf(spec, None, xs).state;
    assert Recorded(s, Write) == s.writeEvents && Recorded(s, SideEffect) == s.effectEvents;
    assert Recorded(s, Terminal) == s.terminalOutputs;
  }

  lemma {:induction false} FirstsOfDistinct(xs: seq<CaseInput>)
    requires KeysDistinct(xs)
    ensures Firsts(xs) == xs
  {
    if xs != [] {
      FirstsOfDistinct(xs[..|xs| - 1]);
      assert xs == xs[..|xs| - 1] + [xs[|xs| - 1]];
    }
  }

  /** Replay absorption: the state after a run is the state after only the first occurrence of
      each logical key, however often and wherever keys are repeated. */
  lemma ReplayAbsorbed(spec: Spec, xs: seq<CaseInput>)
    requires AllKnown(spec, xs)
    ensures AllKnown(spec, Firsts(xs)) && RunOf(spec, None, xs).state == RunOf(spec, None, Firsts(xs)).state
  {
    FirstsAre(xs);
    StateOfFirsts(spec, xs);
    FirstsOfDistinct(Firsts(xs));
    StateOfFirsts(spec, Firsts(xs));
  }

  lemma {:induction false} FlatTerminals(spec: Spec, xs: seq<CaseInput>)
    requires AllKnown(spec, xs)
    ensures |Flat(spec, xs, Terminal)| == |xs|
    ensures forall i :: 0 <= i < |xs| ==>
      xs[i] in xs && Flat(spec, xs, Terminal)[i] == Event(xs[i].logicalKey, RuleOf(spec, xs[i]).decision)
  {
    if xs != [] {
      FlatTerminals(spec, xs[..|xs| - 1]);
    }
  }

  /** Terminal outputs and processed keys stay in lockstep: one output for each key, naming the
      decision of the case that used the key first. */
  lemma Lockstep(spec: Spec, xs: seq<CaseInput>, i: nat)
    requires AllKnown(spec, xs) && i < |Firsts(xs)|
    ensures AllKnown(spec, Firsts(xs)) && Firsts(xs)[i] in Firsts(xs)
    ensures var s, x := RunOf(spec, None, xs).state, Firsts(xs)[i];
      && |s.terminalOutputs| == |s.processedKeys| == |Firsts(xs)|
      && s.processedKeys[i] == x.logicalKey && s.terminalOutputs[i] == Event(x.logicalKey, RuleOf(spec, x).decision)
  {
    StateOfFirsts(spec, xs);
    FlatTerminals(spec, Firsts(xs));
  }

  // ----- reordering

  type Bag = multiset<string>

  function Sum(bags: seq<(string, Bag)>): Bag {
    if bags == [] then multiset{} else Sum(bags[..|bags| - 1]) + bags[|bags| - 1].1
  }

  function Without<T>(s: seq<T>, i: nat): seq<T>
    requires i < |s|
  {
    s[..i] + s[i + 1..]
  }

  lemma {:induction false} SumWithout(bags: seq<(string, Bag)>, i: nat)
    requires i < |bags|
    ensures Sum(bags) == Sum(Without(bags, i)) + bags[i].1
  {
    var n := |bags| - 1;
    var rest := Without(bags, i);
    if i == n {
      assert rest == bags[..n];
    } else {
      assert rest[..n - 1] == Without(bags[..n], i);
      SumWithout(bags[..n], i);
    }
  }

  lemma WithoutElements<T>(s: seq<T>, i: nat)
    requires i < |s| && NoDuplicates(s)
    ensures NoDuplicates(Without(s, i)) && Elements(Without(s, i)) == Elements(s) - {s[i]}
  {
    assert s == s[..i] + ([s[i]] + s[i + 1..]);
    NoDuplicatesConcat(s[..i], [s[i]] + s[i + 1..]);
    NoDuplicatesConcat([s[i]], s[i + 1..]);
    NoDuplicatesConcat(s[..i], s[i + 1..]);
  }

  lemma {:induction false} SumPermutes(p: seq<(string, Bag)>, q: seq<(string, Bag)>)
    requires NoDuplicates(p) && NoDuplicates(q) && Elements(p) == Elements(q)
    ensures Sum(p) == Sum(q)
  {
    DistinctCount(p);
    DistinctCount(q);
    if p != [] {
      var n := |p| - 1;
      assert p[n] in Elements(q);
      var i :| 0 <= i < |q| && q[i] == p[n];
      SumWithout(q, i);
      WithoutElements(q, i);
      WithoutElements(p, n);
      assert Without(p, n) == p[..n];
      SumPermutes(p[..n], Without(q, i));
    }
  }

  ghost function Bags(spec: Spec, xs: seq<CaseInput>, kind: Kind): seq<(string, Bag)>
    requires AllKnown(spec, xs)
  {
    seq(|xs|, i requires 0 <= i < |xs| => assert xs[i] in xs; (xs[i].logicalKey, multiset(EventsOf(spec, xs[i], kind))))
  }

  lemma {:induction false} FlatIsSum(spec: Spec, xs: seq<CaseInput>, kind: Kind)
    requires AllKnown(spec, xs)
    ensures multiset(Flat(spec, xs, kind)) == Sum(Bags(spec, xs, kind))
  {
    if xs != [] {
      var n := |xs| - 1;
      FlatIsSum(spec, xs[..n], kind);
      assert Bags(spec, xs, kind)[..n] == Bags(spec, xs[..n], kind);
    }
  }

  /** Inputs that share a key record the same events, up to order. */
  ghost predicate KeysAgree(spec: Spec, xs: seq<CaseInput>, ys: seq<CaseInput>, kind: Kind)
    requires AllKnown(spec, xs) && AllKnown(spec, ys)
  {
    forall x, y :: x in xs && y in ys && x.logicalKey == y.logicalKey ==>
      multiset(EventsOf(spec, x, kind)) == multiset(EventsOf(spec, y, kind))
  }

  ghost predicate KeysWithin(xs: seq<CaseInput>, ys: seq<CaseInput>) {
    forall x :: x in xs ==> exists y :: y in ys && y.logicalKey == x.logicalKey
  }

  lemma BagsWithin(spec: Spec, xs: seq<CaseInput>, ys: seq<CaseInput>, kind: Kind)
    requires AllKnown(spec, xs) && AllKnown(spec, ys) && KeysWithin(xs, ys) && KeysAgree(spec, xs, ys, kind)
    ensures Elements(Bags(spec, xs, kind)) <= Elements(Bags(spec, ys, kind))
  {
    forall i | 0 <= i < |xs|
      ensures Bags(spec, xs, kind)[i] in Bags(spec, ys, kind)
    {
      assert xs[i] in xs;
      var y :| y in ys && y.logicalKey == xs[i].logicalKey;
      var j :| 0 <= j < |ys| && ys[j] == y;
      assert Bags(spec, ys, kind)[j] == Bags(spec, xs, kind)[i];
    }
  }

  lemma RunsAsSums(spec: Spec, xs: seq<CaseInput>, kind: Kind)
    requires AllKnown(spec, xs)
    ensures AllKnown(spec, Firsts(xs)) && NoDuplicates(Bags(spec, Firsts(xs), kind))
    ensures multiset(Recorded(RunOf(spec, None, xs).state, kind)) == Sum(Bags(spec, Firsts(xs), kind))
  {
    FirstsAre(xs);
    GoodRecord(spec, xs, kind);
    RecordIsFlat(spec, xs, kind);
    FlatIsSum(spec, Firsts(xs), kind);
  }

  /** Two runs that use the same keys, by inputs that agree on each key's events, record the same
      events up to order: arrival order and repetition only permute them. */
  lemma ReorderPermutes(spec: Spec, xs: seq<CaseInput>, ys: seq<CaseInput>, kind: Kind)
    requires AllKnown(spec, xs) && AllKnown(spec, ys)
    requires KeysWithin(xs, ys) && KeysWithin(ys, xs) && KeysAgree(spec, xs, ys, kind)
    ensures multiset(Recorded(RunOf(spec, None, xs).state, kind)) == multiset(Recorded(RunOf(spec, None, ys).state, kind))
  {
    var f, g := Firsts(xs), Firsts(ys);
    FirstsAre(xs);
    FirstsAre(ys);
    RunsAsSums(spec, xs, kind);
    RunsAsSums(spec, ys, kind);
    assert KeysWithin(f, g) && KeysWithin(g, f) && KeysAgree(spec, f, g, kind) && KeysAgree(spec, g, f, kind);
    BagsWithin(spec, f, g, kind);
    BagsWithin(spec, g, f, kind);
    SumPermutes(Bags(spec, f, kind), Bags(spec, g, kind));
  }

  ghost predicate OrderFree(spec: Spec, kind: Kind) {
    forall xs, ys :: Declared(spec, xs) && Declared(spec, ys) && multiset(xs) == multiset(ys) ==>
      AllKnown(spec, xs) && AllKnown(spec, ys) &&
      multiset(Recorded(RunOf(spec, None, xs).state, kind)) == multiset(Recorded(RunOf(spec, None, ys).state, kind))
  }

  lemma SameInputsSameKeys(xs: seq<CaseInput>, ys: seq<CaseInput>)
    requires multiset(xs) == multiset(ys)
    ensures KeysWithin(xs, ys)
  {
    forall x | x in xs
      ensures exists y :: y in ys && y.logicalKey == x.logicalKey
    {
      assert x in multiset(xs);
      assert x in ys;
    }
  }

  lemma SameKeyPair(spec: Spec, x: CaseInput, y: CaseInput, kind: Kind)
    requires Known(spec, x) && Known(spec, y) && x.logicalKey == y.logicalKey
    ensures AllKnown(spec, [x, y]) && Recorded(RunOf(spec, None, [x, y]).state, kind) == EventsOf(spec, x, kind)
  {
    GoodRecord(spec, [x, y], kind);
    OneStep(spec, None, x);
    assert [x, y][..1] == [x] && [x, y][0].logicalKey == y.logicalKey && SeenBefore([x, y], 1);
  }

  /** Reordering declared inputs only permutes what is recorded exactly when declared inputs that
      share a key record the same events; in particular when every key belongs to one case. */
  lemma OrderFreeIff(spec: Spec, kind: Kind)
    ensures AllKnown(spec, ExternalInputs(spec))
    ensures OrderFree(spec, kind) <==> KeysAgree(spec, ExternalInputs(spec), ExternalInputs(spec), kind)
  {
    var all := ExternalInputs(spec);
    DeclaredIsKnown(spec, all);
    if KeysAgree(spec, all, all, kind) {
      forall xs, ys | Declared(spec, xs) && Declared(spec, ys) && multiset(xs) == multiset(ys)
        ensures AllKnown(spec, xs) && AllKnown(spec, ys)
        ensures multiset(Recorded(RunOf(spec, None, xs).state, kind)) == multiset(Recorded(RunOf(spec, None, ys).state, kind))
      {
        DeclaredIsKnown(spec, xs);
        DeclaredIsKnown(spec, ys);
        SameInputsSameKeys(xs, ys);
        SameInputsSameKeys(ys, xs);
        ReorderPermutes(spec, xs, ys, kind);
      }
    }
    if OrderFree(spec, kind) {
      forall x, y | x in all && y in all && x.logicalKey == y.logicalKey
        ensures multiset(EventsOf(spec, x, kind)) == multiset(EventsOf(spec, y, kind))
      {
        assert Declared(spec, [x, y]) && Declared(spec, [y, x]) && multiset([x, y]) == multiset([y, x]);
        SameKeyPair(spec, x, y, kind);
        SameKeyPair(spec, y, x, kind);
      }
    }
  }
}
