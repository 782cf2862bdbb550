/** The independent recount of audited ids (scripts/summarize_gmail_verified_coverage.py). */
module Coverage {
  import opened Basics
  import opened MessageRows
  import opened PageChain
  import opened PageChainLaws

  /** `_ids` over the supplied pages: ids that are present, without normalising anything. */
  function PageIds(pages: seq<Payload>): set<string> {
    set p, item | p in pages && item in p.messages && Present(item.id) :: Text(item.id)
  }

  datatype CoverageError = ChainNotTerminal | LegacyNotPartial | NotAudited(error: ChainError)

  datatype Summary = Summary(
    scopeCounts: seq<nat>, union: set<string>, overlaps: seq<nat>,
    legacyCount: nat, legacyCovered: nat, legacyUncovered: nat)

  datatype Verdict = Verdict(safeTerminal: bool, isPartial: bool, unique: nat)

  function Audited(stamp: Stamp, pages: seq<Payload>): Result<Verdict, CoverageError> {
    match Audit(stamp, pages)
    case Err(e) => Err(NotAudited(e))
    case Ok(c) => Ok(Verdict(c.report.safeTerminalCoverage, c.report.status.Partial?, c.report.uniqueMessageCount))
  }

  function Counted(after: set<string>, middle: set<string>, before: set<string>, legacy: set<string>,
                   scopeCounts: seq<nat>): Summary
  {
    var union := after + middle + before;
    Summary(scopeCounts, union, [|after * middle|, |after * before|, |middle * before|],
            |legacy|, |legacy * union|, |legacy - union|)
  }

  function Summarize(stamp: Stamp, after: seq<Payload>, middle: seq<Payload>, before: seq<Payload>, legacy: seq<Payload>)
    : Result<Summary, CoverageError>
  {
    var a :- Audited(stamp, after);
    var m :- Audited(stamp, middle);
    var b :- Audited(stamp, before);
    if !a.safeTerminal || !m.safeTerminal || !b.safeTerminal then Err(ChainNotTerminal) else
    var l :- Audited(stamp, legacy);
    if !l.isPartial then Err(LegacyNotPartial) else
    Ok(Counted(PageIds(after), PageIds(middle), PageIds(before), PageIds(legacy),
               [a.unique, m.unique, b.unique]))
  }

  lemma ReadKeepsId(stamp: Stamp, s: Sight)
    requires Reads(stamp, s)
    ensures Present(s.item.id) && Text(s.item.id) == Read(stamp, s).row.id
  {
  }

  lemma PresentIsObserved(stamp: Stamp, pages: seq<Payload>, id: string)
    requires AllRead(stamp, Sights(pages)) && id in PageIds(pages)
    ensures Observed(ReadAll(stamp, Sights(pages)), id)
  {
    var sights := Sights(pages);
    var p, item :| p in pages && item in p.messages && Present(item.id) && Text(item.id) == id;
    var k :| 0 <= k < |pages| && pages[k] == p;
    var i :| 0 <= i < |p.messages| && p.messages[i] == item;
    SightsHold(pages, |pages|, k, i);
    var j :| 0 <= j < |sights| && sights[j] == Sight(k, item);
    ReadKeepsId(stamp, sights[j]);
    assert ReadAll(stamp, sights)[j].row.id == id;
  }

  lemma ObservedIsPresent(stamp: Stamp, pages: seq<Payload>, id: string)
    requires AllRead(stamp, Sights(pages)) && Observed(ReadAll(stamp, Sights(pages)), id)
    ensures id in PageIds(pages)
  {
    var sights, seen := Sights(pages), ReadAll(stamp, Sights(pages));
    var j :| 0 <= j < |seen| && seen[j].row.id == id;
    SightsAreMessages(pages, |pages|);
    assert sights[j] in sights;
    ReadKeepsId(stamp, sights[j]);
    assert seen[j] == Read(stamp, sights[j]);
  }

  /** The recount finds exactly the messages the audit kept, so the two counts agree. */
  lemma RecountAgrees(stamp: Stamp, pages: seq<Payload>)
    requires Audit(stamp, pages).Ok?
    ensures |PageIds(pages)| == Audit(stamp, pages).value.report.uniqueMessageCount
    ensures AllRead(stamp, Sights(pages))
    ensures forall id :: id in PageIds(pages) <==> Observed(ReadAll(stamp, Sights(pages)), id)
  {
    AuditAcceptsIff(stamp, pages);
    var sights, seen := Sights(pages), ReadAll(stamp, Sights(pages));
    var t := AbsorbAll(stamp, sights).value;
    forall id
      ensures id in PageIds(pages) <==> Observed(seen, id)
      ensures id in t.merged <==> Observed(seen, id)
    {
      assert DescribesId(stamp, seen, t, id);
      if id in PageIds(pages) {
        PresentIsObserved(stamp, pages, id);
      }
      if Observed(seen, id) {
        ObservedIsPresent(stamp, pages, id);
      }
    }
    assert PageIds(pages) == t.merged.Keys;
  }

  lemma AuditedCount(stamp: Stamp, pages: seq<Payload>)
    requires Audited(stamp, pages).Ok?
    ensures Audited(stamp, pages).value.unique == |PageIds(pages)|
  {
    RecountAgrees(stamp, pages);
  }

  lemma Splits(s: set<string>, u: set<string>)
    ensures |s * u| + |s - u| == |s|
  {
    assert s == s * u + (s - u);
  }

  /** When the summary is produced, each verified scope's audited count is the size of its recount,
      and the audited legacy messages split exactly into covered and not covered ones. */
  lemma SummaryCounts(stamp: Stamp, after: seq<Payload>, middle: seq<Payload>, before: seq<Payload>, legacy: seq<Payload>)
    requires Summarize(stamp, after, middle, before, legacy).Ok?
    ensures Audited(stamp, legacy).Ok?
    ensures var s := Summarize(stamp, after, middle, before, legacy).value;
      && s.scopeCounts == [|PageIds(after)|, |PageIds(middle)|, |PageIds(before)|]
      && s.legacyCount == Audited(stamp, legacy).value.unique == s.legacyCovered + s.legacyUncovered
  {
    AuditedCount(stamp, after);
    AuditedCount(stamp, middle);
    AuditedCount(stamp, before);
    AuditedCount(stamp, legacy);
    Splits(PageIds(legacy), PageIds(after) + PageIds(middle) + PageIds(before));
  }

  /** What is counted of the three scopes and the legacy chain: the scopes together, what two of them share, and what
      of the legacy chain they cover. */
  ghost predicate CountsRead(s: Summary, after: set<string>, middle: set<string>, before: set<string>, legacy: set<string>) {
    && (forall id :: id in s.union <==> id in after || id in middle || id in before)
    && |s.overlaps| == 3
    && s.overlaps[0] == |set id | id in after && id in middle|
    && s.overlaps[1] == |set id | id in after && id in before|
    && s.overlaps[2] == |set id | id in middle && id in before|
    && s.legacyCount == |legacy|
    && s.legacyCovered == |set id | id in legacy && id in s.union|
    && s.legacyUncovered == |set id | id in legacy && id !in s.union|
  }

  lemma Common(a: set<string>, b: set<string>)
    ensures a * b == (set id | id in a && id in b) && a - b == (set id | id in a && id !in b)
  {
  }

  lemma CountedReads(after: set<string>, middle: set<string>, before: set<string>, legacy: set<string>, scopeCounts: seq<nat>)
    ensures CountsRead(Counted(after, middle, before, legacy, scopeCounts), after, middle, before, legacy)
  {
    Common(after, middle);
    Common(after, before);
    Common(middle, before);
    Common(legacy, after + middle + before);
  }

  lemma SummaryIs(stamp: Stamp, after: seq<Payload>, middle: seq<Payload>, before: seq<Payload>, legacy: seq<Payload>)
    returns (counts: seq<nat>)
    requires Summarize(stamp, after, middle, before, legacy).Ok?
    ensures Summarize(stamp, after, middle, before, legacy) ==
            Ok(Counted(PageIds(after), PageIds(middle), PageIds(before), PageIds(legacy), counts))
  {
    counts := [Audited(stamp, after).value.unique, Audited(stamp, middle).value.unique, Audited(stamp, before).value.unique];
  }

  /** What a summary says about the ids of the four chains. */
  lemma SummaryReads(stamp: Stamp, after: seq<Payload>, middle: seq<Payload>, before: seq<Payload>, legacy: seq<Payload>)
    requires Summarize(stamp, after, middle, before, legacy).Ok?
    ensures CountsRead(Summarize(stamp, after, middle, before, legacy).value,
                       PageIds(after), PageIds(middle), PageIds(before), PageIds(legacy))
  {
    var counts := SummaryIs(stamp, after, middle, before, legacy);
    CountedReads(PageIds(after), PageIds(middle), PageIds(before), PageIds(legacy), counts);
  }

  /** The ids counted are those that are supplied and not empty. */
  lemma PageIdsAre(pages: seq<Payload>, id: string)
    ensures id in PageIds(pages) <==> id != "" && exists p, item :: p in pages && item in p.messages && item.id == Some(id)
  {
    if id in PageIds(pages) {
      var p, item :| p in pages && item in p.messages && Present(item.id) && Text(item.id) == id;
      assert item.id == Some(id);
    }
  }

  ghost predicate Reported(stamp: Stamp, pages: seq<Payload>, status: ChainStatus) {
    Audit(stamp, pages).Ok? && Audit(stamp, pages).value.report.status == status
  }

  lemma VerdictIs(stamp: Stamp, pages: seq<Payload>)
    ensures Audited(stamp, pages).Ok? <==> Audit(stamp, pages).Ok?
    ensures Audit(stamp, pages).Err? ==> Audited(stamp, pages) == Err(NotAudited(Audit(stamp, pages).error))
    ensures Audited(stamp, pages).Ok? ==>
      && (Audited(stamp, pages).value.safeTerminal <==> Reported(stamp, pages, Complete))
      && (Audited(stamp, pages).value.isPartial <==> Reported(stamp, pages, Partial))
  {
    AuditIs(stamp, pages);
  }

  /** There is a summary exactly when the three scopes are complete and the legacy chain is partial; otherwise the
      first of the scopes whose audit fails, then an incomplete scope, then the legacy chain is named. */
  lemma SummarySucceedsIff(stamp: Stamp, after: seq<Payload>, middle: seq<Payload>, before: seq<Payload>, legacy: seq<Payload>)
    ensures Summarize(stamp, after, middle, before, legacy).Ok? <==>
      && Reported(stamp, after, Complete) && Reported(stamp, middle, Complete) && Reported(stamp, before, Complete)
      && Reported(stamp, legacy, Partial)
    ensures var r := Summarize(stamp, after, middle, before, legacy);
      if Audit(stamp, after).Err? then r == Err(NotAudited(Audit(stamp, after).error))
      else if Audit(stamp, middle).Err? then r == Err(NotAudited(Audit(stamp, middle).error))
      else if Audit(stamp, before).Err? then r == Err(NotAudited(Audit(stamp, before).error))
      else if !Reported(stamp, after, Complete) || !Reported(stamp, middle, Complete) || !Reported(stamp, before, Complete) then
        r == Err(ChainNotTerminal)
      else if Audit(stamp, legacy).Err? then r == Err(NotAudited(Audit(stamp, legacy).error))
      else if !Reported(stamp, legacy, Partial) then r == Err(LegacyNotPartial)
      else r.Ok?
  {
    VerdictIs(stamp, after);
    VerdictIs(stamp, middle);
    VerdictIs(stamp, before);
    VerdictIs(stamp, legacy);
  }
}
