/** Concrete inputs: where a law has an exception, one input that shows it, and inputs the main laws apply to. */
module Examples {
  import opened Basics
  import opened Ordering
  import opened MessageRows
  import opened RowMerge
  import opened RowMergeLaws
  import opened PageChain
  import opened PageChainLaws
  import opened PageProjection
  import opened CalendarDates
  import opened PageAdapter
  import opened PageAdapterLaws
  import opened SearchCapture
  import opened SearchCaptureLaws
  import Rows = LedgerRows
  import Ledger = LedgerRebase
  import Effect = LedgerRebaseEffect

  /** An identity-only observation with a snippet. */
  function Sighted(snippet: string): Row {
    Row("m", Some("t"), None, [], None, Some(snippet), None, [], false, None, [], IdentityOnly, true)
  }

  /** The two orders of merging differ. */
  lemma SnippetOrderShows(stamp: Stamp)
    ensures Join(Sighted("a"), Sighted("b")).Ok? && Join(Sighted("b"), Sighted("a")).Ok?
    ensures Join(Sighted("a"), Sighted("b")) != Join(Sighted("b"), Sighted("a"))
  {
    var a, b := Sighted("a"), Sighted("b");
    assert "a"[0] != "b"[0];
    JoinSucceedsIff(a, b);
    JoinSucceedsIff(b, a);
    SwapMatters(stamp, a, b);
  }

  /** A complete observation that was marked identity-only. */
  function Marked(time: string): Row {
    Row("m", Some("t"), None, [], None, None, None, [], true, Some(time), [], IdentityOnly, true)
  }

  /** A merge with itself drops the mark. */
  lemma MarkIsDropped(stamp: Stamp, time: string)
    requires time != "" && stamp(time) == Time(Some(time))
    ensures Normal(stamp, Marked(time)) && Join(Marked(time), Marked(time)) != Ok(Marked(time))
  {
    SelfMerge(stamp, Marked(time));
  }

  function EmptyPage(requested: Entry<string>, next: string): Payload {
    Payload(Given("q"), Given("a"), Absent, Absent, Absent, requested, Absent, Given(next), Absent, false, [], [])
  }

  /** The second page states a cursor that is not its predecessor's next. */
  function BrokenChain(): seq<Payload> {
    [EmptyPage(Absent, "b"), EmptyPage(Given("c"), "")]
  }

  lemma BrokenChainIsWellChained()
    ensures ManifestFault(BrokenChain()).None? && WellChained(BrokenChain()) && Sights(BrokenChain()) == []
  {
    var pages := BrokenChain();
    assert SightsOf(pages, 1) == [] && SightsOf(pages, 2) == [];
  }

  /** The rewritten pages keep the cursors, so the second one is filed where no walk comes. */
  lemma BrokenChainFiled(t: Tally)
    requires t.merged == map[]
    ensures var out := Rewritten(BrokenChain(), t);
            |out| == 2 && Keys(out) == ["", "c"] && NoDuplicates(Keys(out)) && Next(out[0]).token == "b" && !out[1].terminal
    ensures var out := Rewritten(BrokenChain(), t);
            out[0].messages == [] && SizesAllowed(out) && forall calendar :: ManifestLawful(calendar, out[0])
  {
    var pages, out := BrokenChain(), Rewritten(BrokenChain(), t);
    RewrittenKeepsCursors(pages, t);
    assert KeyAt(out, 0) == "" && KeyAt(out, 1) == "c";
    assert Sorted(t.merged.Keys) == [];
  }

  lemma TrailLeads(m: map<string, AuthorizedPage>, trail: seq<string>, i: nat)
    requires Trail(m, trail) && i + 1 < |trail|
    ensures trail[i] in m && m[trail[i]].next == trail[i + 1]
  {
    assert StepAt(m, trail, i);
  }

  /** Where the first page leads nowhere no walk comes to an end. */
  lemma DeadEnd(m: map<string, AuthorizedPage>, next: string, trail: seq<string>)
    requires "" in m && m[""].next == next && next != "" && next !in m
    ensures !FinishedTrail(m, trail)
  {
    if FinishedTrail(m, trail) {
      if |trail| > 1 {
        TrailLeads(m, trail, 0);
      }
      if |trail| > 2 {
        TrailLeads(m, trail, 1);
      }
    }
  }

  lemma DeadEndWalk(m: map<string, AuthorizedPage>, next: string)
    requires "" in m && m[""].next == next && next != "" && next !in m
    requires TerminalsEnd(m) && Admits(m[""], "")
    ensures WalkOf(m, 2) == Visit([""], CursorNotSupplied)
  {
    assert WalkFrom(m, next, [""], 1) == Visit([""], CursorNotSupplied);
    assert [] + [""] == [""];
  }

  lemma BrokenChainServed(m: map<string, AuthorizedPage>, pages: seq<Payload>, verified: bool)
    requires |pages| == 2 && Keys(pages) == ["", "c"] && Next(pages[0]).token == "b" && pages[0].messages == []
    requires ServesChain(m, pages, verified)
    ensures "" in m && m[""].next == "b" && "b" !in m && Admits(m[""], "")
  {
    assert Keys(pages)[0] == KeyAt(pages, 0) && Answers(m, pages, verified, 0);
    assert "b"[0] != "c"[0];
  }

  /** An audited partial chain whose adapter opens although no order of its pages is a finished walk. */
  lemma UnverifiedWalkStops(stamp: Stamp, calendar: Calendar)
    ensures Audit(stamp, BrokenChain()).Ok?
    ensures var c := Audit(stamp, BrokenChain()).value;
            c.pages != [] && Build(calendar, c, true).Ok?
    ensures var m := Build(calendar, Audit(stamp, BrokenChain()).value, true).value;
            WalkOf(m, 2) == Visit([""], CursorNotSupplied) && forall trail :: !FinishedTrail(m, trail)
  {
    BrokenChainIsWellChained();
    AuditAcceptsIff(stamp, BrokenChain());
    AuditedChain(stamp, BrokenChain());
    BrokenChainFiled(AbsorbAll(stamp, Sights(BrokenChain())).value);
    AdapterServes(stamp, calendar, BrokenChain(), true);
    var c := Audit(stamp, BrokenChain()).value;
    var m := Build(calendar, c, true).value;
    BrokenChainServed(m, c.pages, c.report.cursorChainVerified);
    DeadEndWalk(m, "b");
    forall trail {
      DeadEnd(m, "b", trail);
    }
  }

  /** One call that found one message. */
  function OneCall(): seq<Call> {
    [Call(None, Some(SearchResult(None, ["m"])))]
  }

  function Dated(date: string): Settings {
    Settings("q", date, Given("a"), Absent, Absent)
  }

  lemma OneCallIsCaptured(date: string)
    requires date == "" || IsDate(date)
    ensures Capture(Dated(date), OneCall()).Ok?
  {
    assert CallFault(OneCall(), 0).None?;
    assert CallsFault(OneCall(), 0) == CallsFault(OneCall(), 1) == None;
  }

  /** Capture, audit and walk apply to something. */
  lemma SomeCaptureAudits(stamp: Stamp, calendar: Calendar)
    ensures exists settings, calls :: Capture(settings, calls).Ok? && Audit(stamp, Capture(settings, calls).value).Ok? &&
              Build(calendar, Audit(stamp, Capture(settings, calls).value).value, false).Ok?
  {
    OneCallIsCaptured("");
    CapturePipeline(stamp, calendar, Dated(""), OneCall());
  }

  /** The capturer takes 30 February for a date and the auditor reports complete coverage, but no adapter is built. */
  lemma NoSuchDay(stamp: Stamp, calendar: Calendar)
    ensures Capture(Dated("2021-02-30"), OneCall()).Ok?
    ensures Audit(stamp, Capture(Dated("2021-02-30"), OneCall()).value).Ok?
    ensures var c := Audit(stamp, Capture(Dated("2021-02-30"), OneCall()).value).value;
            c.report.status == Complete && c.pages != [] && Build(calendar, c, false).Err?
  {
    var date := "2021-02-30";
    assert IsDate(date) && Year(date) == 2021 && Month(date) == 2 && Day(date) == 30;
    OneCallIsCaptured(date);
    CapturePipeline(stamp, calendar, Dated(date), OneCall());
  }

  /** `n` different ids. */
  function ManyIds(n: nat): seq<string> {
    seq(n, i requires 0 <= i => seq(i + 1, _ => 'x'))
  }

  lemma ManyIdsFresh(n: nat)
    ensures |ManyIds(n)| == n && IdsFresh(ManyIds(n), {})
  {
    var ids := ManyIds(n);
    assert forall i :: 0 <= i < n ==> |ids[i]| == i + 1;
    forall k | 0 <= k < n
      ensures ids[k] != "" && ids[k] !in ids[..k]
    {
      assert forall j :: 0 <= j < k ==> |ids[..k][j]| == j + 1;
    }
  }

  /** One call that found one id more than a page may hold messages. */
  function LongCall(): seq<Call> {
    [Call(None, Some(SearchResult(None, ManyIds(MAX_MESSAGES_PER_PAGE + 1))))]
  }

  lemma LongCallIsCaptured()
    ensures Capture(Dated(""), LongCall()).Ok? && Answered(LongCall()) && !WithinBudget(LongCall())
    ensures FirstCallOver(Dated(""), LongCall()) == 0
  {
    var calls := LongCall();
    ManyIdsFresh(MAX_MESSAGES_PER_PAGE + 1);
    assert IdsAt(calls, 0) == ManyIds(MAX_MESSAGES_PER_PAGE + 1) && CapturedIds(calls, 0) == [];
    assert Elements<string>([]) == {};
    assert CallFault(calls, 0).None?;
    assert CallsFault(calls, 0) == CallsFault(calls, 1) == None;
    assert PagesFor(Dated(""), calls)[0].messages == ItemsFor(IdsAt(calls, 0));
  }

  /** The capturer takes 501 ids in one call, the auditor reports complete coverage and the adapter opens, but its
      walk takes no page at all. */
  lemma TooManyForOnePage(stamp: Stamp, calendar: Calendar)
    ensures Capture(Dated(""), LongCall()).Ok? && Audit(stamp, Capture(Dated(""), LongCall()).value).Ok?
    ensures var c := Audit(stamp, Capture(Dated(""), LongCall()).value).value;
            c.report.status == Complete && c.pages != [] && Build(calendar, c, false).Ok?
            && WalkOf(Build(calendar, c, false).value, 1) == Visit([], PageRejected)
  {
    LongCallIsCaptured();
    CapturePipeline(stamp, calendar, Dated(""), LongCall());
  }

  /** A message that is not identity-only, with an attachment of negative size. */
  function Undersized(time: string): Row {
    Row("m", Some("t"), None, [], None, None, None, [], true, Some(time), [Attachment("a", "", "", -1)], MetadataOnly, false)
  }

  /** The audit takes such a message, the export refuses it. */
  lemma UndersizedIsRefused(stamp: Stamp, time: string)
    requires time != "" && stamp(time) == Time(Some(time))
    ensures Normalise(stamp, AsItem(Undersized(time))).Ok? && ToMessage(AsItem(Undersized(time))).Err?
  {
    var r := Undersized(time);
    Renormalise(stamp, r);
    MessageAccepts(stamp, r);
    assert r.attachments[0].size < 0;
  }

  function Retired(id: Rows.Id): Rows.Commitment {
    Rows.Commitment(id, "", Some("retired"), None, None, None, [], [], [], map[], map[])
  }

  function SmallLedger(): Ledger.State {
    Ledger.State("", "", [Retired(Rows.Maintenance), Retired(Rows.Gateway), Retired(Rows.FirstRun)],
                 [Ledger.Surface(Rows.PrivateFirstRunTasks, [], [], None, map[])], [], [])
  }

  lemma SmallLedgerIds()
    ensures var ids := Ledger.Ids(SmallLedger().commitments);
            Rows.Maintenance in ids && Rows.Gateway in ids && Rows.FirstRun in ids
    ensures Rows.PrivateFirstRunTasks in Ledger.SurfaceIds(SmallLedger().surfaces)
    ensures forall row :: row in SmallLedger().commitments ==> !Rows.Active(row)
  {
    var s := SmallLedger();
    var ids := Ledger.Ids(s.commitments);
    assert ids[0] == Rows.Maintenance && ids[1] == Rows.Gateway && ids[2] == Rows.FirstRun;
    assert Ledger.SurfaceIds(s.surfaces)[0] == Rows.PrivateFirstRunTasks;
  }

  /** For every script there is a ledger it can rebase. */
  lemma SomeLedgerRebases(script: Rows.Script)
    ensures exists s :: Ledger.Rebased(s, script).Ok?
  {
    SmallLedgerIds();
    Effect.RebaseSucceedsIff(SmallLedger(), script);
  }
}
