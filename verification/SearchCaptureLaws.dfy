/** From capture to audit to adapter: whatever the capturer accepts is complete coverage. */
module SearchCaptureLaws {
  import opened Basics
  import opened CalendarDates
  import opened MessageRows
  import opened PageChain
  import opened PageChainLaws
  import opened PageProjection
  import opened PageAdapter
  import opened PageAdapterLaws
  import opened SearchCapture

  lemma {:induction false} NoCallFaults(calls: seq<Call>, i: nat)
    requires Answered(calls) && i <= |calls| && CallsFault(calls, i).None?
    ensures forall k :: i <= k < |calls| ==> CallFault(calls, k).None?
    decreases |calls| - i
  {
    if i < |calls| {
      NoCallFaults(calls, i + 1);
    }
  }

  /** Every call passed the capturer's checks. */
  ghost predicate Accepted(calls: seq<Call>) {
    calls != [] && Answered(calls) && forall k :: 0 <= k < |calls| ==> CallFault(calls, k).None?
  }

  lemma {:induction false} TokensSeen(calls: seq<Call>, i: nat, n: nat)
    requires i < n <= |calls| && TokenAt(calls, i) != ""
    ensures TokenAt(calls, i) in TokensUpTo(calls, n)
  {
    if i < n - 1 {
      TokensSeen(calls, i, n - 1);
    }
  }

  lemma NewAfter(ids: seq<string>, more: seq<string>)
    requires NoDuplicates(ids) && "" !in ids && IdsFresh(more, Elements(ids))
    ensures NoDuplicates(ids + more) && "" !in ids + more
  {
    var all := ids + more;
    forall i, j | 0 <= i < j < |all|
      ensures all[i] != all[j]
    {
      if |ids| <= i {
        assert more[..j - |ids|][i - |ids|] == all[i];
      } else if |ids| <= j {
        assert all[i] in Elements(ids);
      }
    }
  }

  lemma {:induction false} IdsAreNew(calls: seq<Call>, n: nat)
    requires Accepted(calls) && n <= |calls|
    ensures NoDuplicates(CapturedIds(calls, n)) && "" !in CapturedIds(calls, n)
  {
    if n > 0 {
      IdsAreNew(calls, n - 1);
      assert CallFault(calls, n - 1).None?;
      NewAfter(CapturedIds(calls, n - 1), IdsAt(calls, n - 1));
    }
  }

  lemma CapturedCursors(settings: Settings, calls: seq<Call>, i: nat)
    requires Accepted(calls) && i < |calls|
    ensures var p := PagesFor(settings, calls)[i];
      && Requested(p) == Cursor(true, TokenAt(calls, i)) && Next(p).token == NextTokenAt(calls, i)
      && (p.terminal <==> i == |calls| - 1) && (Next(p).token == "" <==> i == |calls| - 1)
      && TokenAt(calls, i) == (if i == 0 then "" else NextTokenAt(calls, i - 1))
  {
    assert CallFault(calls, i).None?;
  }

  lemma CapturedLinks(settings: Settings, calls: seq<Call>, i: nat)
    requires Accepted(calls) && i < |calls|
    ensures var pages := PagesFor(settings, calls);
      && LinkedAt(pages, i) && Requested(pages[i]).token == (if i == 0 then "" else Next(pages[i - 1]).token)
      && (pages[i].terminal <==> i == |calls| - 1) && (Next(pages[i]).token == "" <==> i == |calls| - 1)
  {
    CapturedCursors(settings, calls, i);
    if i > 0 {
      CapturedCursors(settings, calls, i - 1);
    }
  }

  lemma CapturedNextsDiffer(settings: Settings, calls: seq<Call>, i: nat, j: nat)
    requires Accepted(calls) && i < j < |calls|
    ensures var pages := PagesFor(settings, calls);
      Next(pages[i]).token == Next(pages[j]).token ==> Next(pages[i]).token == ""
  {
    CapturedCursors(settings, calls, i);
    CapturedCursors(settings, calls, j);
    if j < |calls| - 1 && NextTokenAt(calls, i) != "" {
      assert CallFault(calls, i + 1).None? && CallFault(calls, j + 1).None?;
      TokensSeen(calls, i + 1, j + 1);
    }
  }

  lemma CapturedChain(settings: Settings, calls: seq<Call>)
    requires Accepted(calls)
    ensures WellChained(PagesFor(settings, calls)) && Linked(PagesFor(settings, calls))
  {
    var pages := PagesFor(settings, calls);
    forall i | 0 <= i < |calls|
      ensures LinkedAt(pages, i) && Requested(pages[i]).token == (if i == 0 then "" else Next(pages[i - 1]).token)
      ensures (pages[i].terminal <==> i == |calls| - 1) && (Next(pages[i]).token == "" <==> i == |calls| - 1)
    {
      CapturedLinks(settings, calls, i);
    }
    forall i, j | 0 <= i < j < |pages|
      ensures Next(pages[i]).token == Next(pages[j]).token ==> Next(pages[i]).token == ""
    {
      CapturedNextsDiffer(settings, calls, i, j);
    }
    CapturedLinks(settings, calls, 0);
    LinkedMeaning(pages, |pages|);
  }

  // ----- the captured rows

  lemma ItemForNormalises(stamp: Stamp, id: string)
    requires id != ""
    ensures Normalise(stamp, ItemFor(id)).Ok?
    ensures var r := Normalise(stamp, ItemFor(id)).value;
      r.id == id && r.status == IdentityOnly && r.identityOnly && r.body == None
  {
  }

  lemma {:induction false} CapturedSights(settings: Settings, calls: seq<Call>, n: nat)
    requires Answered(calls) && n <= |calls|
    ensures var sights := SightsOf(PagesFor(settings, calls), n);
      |sights| == |CapturedIds(calls, n)| && forall k :: 0 <= k < |sights| ==> sights[k].item == ItemFor(CapturedIds(calls, n)[k])
  {
    if n > 0 {
      CapturedSights(settings, calls, n - 1);
      var p := PagesFor(settings, calls)[n - 1];
      assert p.messages == ItemsFor(IdsAt(calls, n - 1));
    }
  }

  /** Sightings of captured rows: one per id, all identity-only. */
  ghost predicate Listing(seen: seq<Sighting>, ids: seq<string>) {
    && |seen| == |ids| && NoDuplicates(ids)
    && forall k :: 0 <= k < |seen| ==> seen[k].row.id == ids[k] && seen[k].row.status == IdentityOnly && seen[k].row.body == None
  }

  lemma CapturedRows(stamp: Stamp, settings: Settings, calls: seq<Call>)
    requires Accepted(calls)
    ensures AllRead(stamp, Sights(PagesFor(settings, calls)))
    ensures Listing(ReadAll(stamp, Sights(PagesFor(settings, calls))), CapturedIds(calls, |calls|))
  {
    var sights, ids := Sights(PagesFor(settings, calls)), CapturedIds(calls, |calls|);
    IdsAreNew(calls, |calls|);
    CapturedSights(settings, calls, |calls|);
    forall k | 0 <= k < |sights|
      ensures Reads(stamp, sights[k]) && Read(stamp, sights[k]).row.id == ids[k]
      ensures Read(stamp, sights[k]).row.status == IdentityOnly && Read(stamp, sights[k]).row.body == None
    {
      assert ids[k] in ids;
      ItemForNormalises(stamp, ids[k]);
    }
    assert forall s :: s in sights ==> Reads(stamp, s);
  }

  lemma {:induction false} ListedOnce(seen: seq<Sighting>, ids: seq<string>, id: string)
    requires Listing(seen, ids)
    ensures |Group(seen, id)| <= 1
    ensures Group(seen, id) != [] <==> id in ids
    ensures forall r :: r in Group(seen, id) ==> r.status == IdentityOnly && r.body == None
  {
    if seen != [] {
      var n := |seen| - 1;
      assert ids == ids[..n] + [ids[n]];
      assert ids[n] !in ids[..n];
      ListedOnce(seen[..n], ids[..n], id);
    }
  }

  lemma ListingTally(stamp: Stamp, seen: seq<Sighting>, ids: seq<string>, t: Tally)
    requires Listing(seen, ids) && Describes(stamp, seen, t)
    ensures t.raw == |t.merged| == |ids| && t.duplicates == 0
    ensures IdentityOnlyIds(t) == t.merged.Keys && BodyIds(t) == {}
  {
    forall id
      ensures id in t.merged <==> id in ids
      ensures id in t.merged ==> t.merged[id].status == IdentityOnly && t.merged[id].body == None
    {
      assert DescribesId(stamp, seen, t, id);
      ListedOnce(seen, ids, id);
      if id in ids {
        var k :| 0 <= k < |ids| && ids[k] == id;
        assert seen[k] in seen && seen[k].row.id == id;
      }
      if id in t.merged {
        assert |Group(seen, id)| == 1 && t.merged[id] == Group(seen, id)[0];
        assert t.merged[id] in Group(seen, id);
      }
    }
    DistinctCount(ids);
    assert t.merged.Keys == Elements(ids);
  }

  lemma CapturedManifest(settings: Settings, calls: seq<Call>)
    requires Accepted(calls) && settings.query != ""
    ensures ManifestFault(PagesFor(settings, calls)).None? <==> EntryText(settings.account) != ""
  {
    var pages := PagesFor(settings, calls);
    assert forall i :: 0 <= i < |pages| ==> ManifestOf(pages[i]) == ManifestOf(pages[0]);
  }

  lemma CapturedIsAccepted(settings: Settings, calls: seq<Call>)
    requires Capture(settings, calls).Ok?
    ensures Accepted(calls) && settings.query != "" && Capture(settings, calls).value == PagesFor(settings, calls)
  {
    NoCallFaults(calls, 0);
  }

  lemma CapturedAudits(stamp: Stamp, settings: Settings, calls: seq<Call>)
    requires Accepted(calls) && settings.query != ""
    ensures Audit(stamp, PagesFor(settings, calls)).Ok? <==> EntryText(settings.account) != ""
  {
    var pages := PagesFor(settings, calls);
    AuditAcceptsIff(stamp, pages);
    CapturedManifest(settings, calls);
    CapturedChain(settings, calls);
    CapturedRows(stamp, settings, calls);
    forall id
      ensures |Group(ReadAll(stamp, Sights(pages)), id)| <= 1
    {
      ListedOnce(ReadAll(stamp, Sights(pages)), CapturedIds(calls, |calls|), id);
    }
  }

  lemma CapturedTally(stamp: Stamp, settings: Settings, calls: seq<Call>)
    requires Accepted(calls) && Audit(stamp, PagesFor(settings, calls)).Ok?
    ensures AbsorbAll(stamp, Sights(PagesFor(settings, calls))).Ok?
    ensures var pages := PagesFor(settings, calls);
      var t := AbsorbAll(stamp, Sights(pages)).value;
      && Audit(stamp, pages).value == ChainOf(pages, t)
      && t.raw == |t.merged| == |CapturedIds(calls, |calls|)| && t.duplicates == 0
      && IdentityOnlyIds(t) == t.merged.Keys && BodyIds(t) == {}
  {
    var pages := PagesFor(settings, calls);
    AuditAcceptsIff(stamp, pages);
    CapturedRows(stamp, settings, calls);
    var t := AbsorbAll(stamp, Sights(pages)).value;
    ListingTally(stamp, ReadAll(stamp, Sights(pages)), CapturedIds(calls, |calls|), t);
  }

  /** The report of `n` messages read once each, none with a body, over a chain verified to its end. */
  predicate CoversAll(r: Report, n: nat) {
    && r.status == Complete && r.cursorChainVerified && r.lastPageTerminal
    && r.rawMessageCount == r.uniqueMessageCount == n
    && r.duplicateMessageCount == 0 && r.contentBearingCount == 0
    && r.identityOnlyCount == r.uniqueMessageCount
  }

  lemma CompleteReport(pages: seq<Payload>, t: Tally)
    requires pages != [] && Linked(pages) && pages[|pages| - 1].terminal
    requires t.raw == |t.merged| && t.duplicates == 0 && IdentityOnlyIds(t) == t.merged.Keys && BodyIds(t) == {}
    ensures CoversAll(ChainOf(pages, t).report, |t.merged|)
  {
  }

  lemma CapturedEnds(settings: Settings, calls: seq<Call>)
    requires Accepted(calls)
    ensures var pages := PagesFor(settings, calls); pages != [] && Linked(pages) && pages[|pages| - 1].terminal
  {
    CapturedChain(settings, calls);
    CapturedCursors(settings, calls, |calls| - 1);
  }

  lemma CapturedReport(stamp: Stamp, settings: Settings, calls: seq<Call>)
    requires Accepted(calls) && Audit(stamp, PagesFor(settings, calls)).Ok?
    ensures CoversAll(Audit(stamp, PagesFor(settings, calls)).value.report, |CapturedIds(calls, |calls|)|)
  {
    CapturedTally(stamp, settings, calls);
    CapturedEnds(settings, calls);
    var pages := PagesFor(settings, calls);
    CompleteReport(pages, AbsorbAll(stamp, Sights(pages)).value);
  }

  /** Rewriting touches none of the fields the manifest is read from. */
  lemma RewrittenManifest(calendar: Calendar, pages: seq<Payload>, t: Tally)
    requires pages != []
    ensures ManifestLawful(calendar, Rewritten(pages, t)[0]) <==> ManifestLawful(calendar, pages[0])
  {
  }

  /** A captured page states both revisions, so only its date can be refused. */
  lemma CapturedManifestLawful(calendar: Calendar, settings: Settings, calls: seq<Call>)
    requires Capture(settings, calls).Ok? && Answered(calls) && PagesFor(settings, calls) != []
    ensures ManifestLawful(calendar, PagesFor(settings, calls)[0]) <==>
      settings.authorizedFrom == "" || IsCalendarDate(settings.authorizedFrom)
  {
    assert settings.authorizedFrom == "" || IsDate(settings.authorizedFrom);
  }

  lemma IdentityOnlyRows(stamp: Stamp, t: Tally, page: nat)
    requires Filed(stamp, t) && IdentityOnlyIds(t) == t.merged.Keys
    ensures AllExportable(PageRows(t, page))
  {
    PageRowsAre(stamp, t, page);
    forall r | r in PageRows(t, page)
      ensures Exportable(r)
    {
      assert Normal(stamp, r) && r.id in IdentityOnlyIds(t);
    }
  }

  lemma IdentityOnlySizes(stamp: Stamp, pages: seq<Payload>, t: Tally)
    requires Filed(stamp, t) && IdentityOnlyIds(t) == t.merged.Keys
    ensures SizesAllowed(Rewritten(pages, t))
  {
    var out := Rewritten(pages, t);
    forall i | 0 <= i < |out|
      ensures SizesAllowedOn(out[i])
    {
      IdentityOnlyRows(stamp, t, i);
      SizesAllowedIsExportable(out[i], PageRows(t, i));
    }
  }

  /** The adapter of a captured and audited chain opens exactly when no date was given or it is one of the calendar. */
  lemma CapturedOpens(stamp: Stamp, calendar: Calendar, settings: Settings, calls: seq<Call>)
    requires Capture(settings, calls).Ok? && Accepted(calls) && Audit(stamp, PagesFor(settings, calls)).Ok?
    requires Capture(settings, calls).value == PagesFor(settings, calls)
    ensures Audit(stamp, PagesFor(settings, calls)).value.pages != []
    ensures var pages := Audit(stamp, PagesFor(settings, calls)).value.pages;
      SizesAllowed(pages) &&
      (ManifestLawful(calendar, pages[0]) <==> settings.authorizedFrom == "" || IsCalendarDate(settings.authorizedFrom))
  {
    var pages := PagesFor(settings, calls);
    AuditedChain(stamp, pages);
    CapturedTally(stamp, settings, calls);
    var t := AbsorbAll(stamp, Sights(pages)).value;
    IdentityOnlySizes(stamp, pages, t);
    RewrittenManifest(calendar, pages, t);
    CapturedManifestLawful(calendar, settings, calls);
  }

  // ----- how many messages the audited pages hold

  lemma {:induction false} IdsWithin(calls: seq<Call>, i: nat, n: nat, id: string)
    requires Answered(calls) && i < n <= |calls| && id in IdsAt(calls, i)
    ensures id in CapturedIds(calls, n)
  {
    if i < n - 1 {
      IdsWithin(calls, i, n - 1, id);
    }
  }

  lemma FoundOnce(calls: seq<Call>, i: nat, j: nat, id: string)
    requires Accepted(calls) && i < |calls| && j < |calls| && id in IdsAt(calls, i) && id in IdsAt(calls, j)
    ensures i == j
  {
    if i < j {
      assert CallFault(calls, j).None?;
      IdsWithin(calls, i, j, id);
    } else if j < i {
      assert CallFault(calls, i).None?;
      IdsWithin(calls, j, i, id);
    }
  }

  lemma FoundDistinct(calls: seq<Call>, i: nat)
    requires Accepted(calls) && i < |calls|
    ensures NoDuplicates(IdsAt(calls, i))
  {
    assert CallFault(calls, i).None?;
    var ids := IdsAt(calls, i);
    forall j, k | 0 <= j < k < |ids|
      ensures ids[j] != ids[k]
    {
      assert ids[j] in ids[..k];
    }
  }

  /** A sight of a captured page is one of the ids its call found. */
  lemma SightIsFound(stamp: Stamp, settings: Settings, calls: seq<Call>, s: Sight)
    requires Accepted(calls) && s in Sights(PagesFor(settings, calls)) && Reads(stamp, s)
    ensures s.page < |calls| && Read(stamp, s).row.id in IdsAt(calls, s.page)
  {
    var pages := PagesFor(settings, calls);
    SightsAreMessages(pages, |pages|);
    var ids := IdsAt(calls, s.page);
    assert pages[s.page].messages == ItemsFor(ids);
    var k :| 0 <= k < |ids| && s.item == ItemFor(ids[k]);
    assert ids[k] in ids;
  }

  lemma FoundIsSighted(stamp: Stamp, settings: Settings, calls: seq<Call>, i: nat, id: string)
    requires Accepted(calls) && i < |calls| && id in IdsAt(calls, i)
    requires AllRead(stamp, Sights(PagesFor(settings, calls)))
    ensures exists s :: s in ReadAll(stamp, Sights(PagesFor(settings, calls))) && s.row.id == id && s.page == i
  {
    var pages, ids := PagesFor(settings, calls), IdsAt(calls, i);
    var sights := Sights(pages);
    var k :| 0 <= k < |ids| && ids[k] == id;
    assert pages[i].messages == ItemsFor(ids) && pages[i].messages[k] == ItemFor(id);
    SightsHold(pages, |pages|, i, k);
    var j :| 0 <= j < |sights| && sights[j] == Sight(i, ItemFor(id));
    assert ReadAll(stamp, sights)[j] == Read(stamp, sights[j]);
  }

  /** A captured message is first on the page of the call that found it. */
  lemma FirstWhereFound(stamp: Stamp, settings: Settings, calls: seq<Call>, t: Tally, i: nat, id: string)
    requires Accepted(calls) && i < |calls| && AllRead(stamp, Sights(PagesFor(settings, calls)))
    requires Describes(stamp, ReadAll(stamp, Sights(PagesFor(settings, calls))), t)
    ensures FirstOn(t, id, i) <==> id in IdsAt(calls, i)
  {
    var sights := Sights(PagesFor(settings, calls));
    var seen := ReadAll(stamp, sights);
    assert DescribesId(stamp, seen, t, id);
    if id in IdsAt(calls, i) {
      FoundIsSighted(stamp, settings, calls, i, id);
      assert Observed(seen, id);
    }
    if id in t.merged {
      var p := t.firstPage[id];
      var s :| s in seen && s.row.id == id && s.page == p;
      var j :| 0 <= j < |seen| && seen[j] == s;
      assert sights[j] in sights && s == Read(stamp, sights[j]);
      SightIsFound(stamp, settings, calls, sights[j]);
      if id in IdsAt(calls, i) {
        FoundOnce(calls, p, i, id);
      }
    }
  }

  lemma SameLength<T>(a: seq<T>, b: seq<T>)
    requires NoDuplicates(a) && NoDuplicates(b) && forall x :: x in a <==> x in b
    ensures |a| == |b|
  {
    DistinctCount(a);
    DistinctCount(b);
    assert Elements(a) == Elements(b);
  }

  /** The audit leaves on each captured page as many messages as its call found. */
  lemma CapturedPageSize(stamp: Stamp, settings: Settings, calls: seq<Call>, t: Tally, i: nat)
    requires Accepted(calls) && i < |calls| && AllRead(stamp, Sights(PagesFor(settings, calls)))
    requires Describes(stamp, ReadAll(stamp, Sights(PagesFor(settings, calls))), t)
    ensures |PageRows(t, i)| == |IdsAt(calls, i)|
  {
    DescribedIsFiled(stamp, ReadAll(stamp, Sights(PagesFor(settings, calls))), t);
    var ids := IdsOf(PageRows(t, i));
    PageIdsDistinct(stamp, t, i);
    FoundDistinct(calls, i);
    forall id
      ensures id in ids <==> id in IdsAt(calls, i)
    {
      IdOnPage(stamp, t, i, id);
      FirstWhereFound(stamp, settings, calls, t, i, id);
    }
    SameLength(ids, IdsAt(calls, i));
  }

  lemma {:induction false} SameSizesSameOver(a: seq<Payload>, b: seq<Payload>)
    requires |a| == |b| && forall i :: 0 <= i < |a| ==> |a[i].messages| == |b[i].messages|
    ensures FirstOver(a) == FirstOver(b)
  {
    if a != [] {
      SameSizesSameOver(a[1..], b[1..]);
    }
  }

  /** The first call that found more ids than a page may hold messages, or the number of calls. */
  function FirstCallOver(settings: Settings, calls: seq<Call>): nat
    requires Answered(calls)
  {
    FirstOver(PagesFor(settings, calls))
  }

  predicate WithinBudget(calls: seq<Call>)
    requires Answered(calls)
  {
    forall i :: 0 <= i < |calls| ==> |IdsAt(calls, i)| <= MAX_MESSAGES_PER_PAGE
  }

  lemma CallsOver(settings: Settings, calls: seq<Call>)
    requires Answered(calls)
    ensures FirstCallOver(settings, calls) == |calls| <==> WithinBudget(calls)
  {
    var pages := PagesFor(settings, calls);
    assert forall i :: 0 <= i < |calls| ==> pages[i].messages == ItemsFor(IdsAt(calls, i));
  }

  lemma AuditedOver(stamp: Stamp, settings: Settings, calls: seq<Call>)
    requires Accepted(calls) && Audit(stamp, PagesFor(settings, calls)).Ok?
    ensures var pages := Audit(stamp, PagesFor(settings, calls)).value.pages;
      |pages| == |calls| && FirstOver(pages) == FirstCallOver(settings, calls)
  {
    var pages := PagesFor(settings, calls);
    AuditAcceptsIff(stamp, pages);
    var t := AbsorbAll(stamp, Sights(pages)).value;
    var out := Rewritten(pages, t);
    forall i | 0 <= i < |calls|
      ensures |out[i].messages| == |pages[i].messages|
    {
      CapturedPageSize(stamp, settings, calls, t, i);
      assert pages[i].messages == ItemsFor(IdsAt(calls, i));
    }
    SameSizesSameOver(out, pages);
  }

  /** Every capture the capturer accepts is accepted by the auditor exactly when it names an account, and then it
      is complete coverage: a verified chain, no duplicates, every message identity-only, as many messages as ids
      were found. The adapter then opens, without a partial import being allowed, exactly when no date was given
      or it is one of the calendar. Its walk takes the pages in order up to the first call that found more than
      500 ids, where it is rejected, and covers the query, with all of them, exactly when there is no such call. The
      capturer checks neither. */
  lemma CapturePipeline(stamp: Stamp, calendar: Calendar, settings: Settings, calls: seq<Call>)
    requires Capture(settings, calls).Ok?
    ensures Answered(calls)
    ensures var pages := Capture(settings, calls).value;
      Audit(stamp, pages).Ok? <==> EntryText(settings.account) != ""
    ensures var pages := Capture(settings, calls).value;
      Audit(stamp, pages).Ok? ==> (
        var c := Audit(stamp, pages).value;
        && CoversAll(c.report, |CapturedIds(calls, |calls|)|) && |c.pages| == |calls| > 0
        && (Build(calendar, c, false).Ok? <==> settings.authorizedFrom == "" || IsCalendarDate(settings.authorizedFrom))
        && (Build(calendar, c, false).Ok? ==> (
              var m := Build(calendar, c, false).value;
              ServesChain(m, c.pages, true) && FinishedTrail(m, Keys(c.pages)) && OnlyLastCovers(m, c.pages, true))))
    ensures var pages := Capture(settings, calls).value;
      Audit(stamp, pages).Ok? && Build(calendar, Audit(stamp, pages).value, false).Ok? ==> (
        var c := Audit(stamp, pages).value;
        var w := WalkOf(Build(calendar, c, false).value, |calls|);
        && (w.end.AtTerminal? <==> WithinBudget(calls)) && !w.end.AtGap?
        && (w.end.AtTerminal? ==> w.visited == Keys(c.pages))
        && FirstCallOver(settings, calls) <= |c.pages|
        && w == WalkTo(Keys(c.pages), FirstCallOver(settings, calls), true))
  {
    CapturedIsAccepted(settings, calls);
    CapturedAudits(stamp, settings, calls);
    var pages := PagesFor(settings, calls);
    if Audit(stamp, pages).Ok? {
      CapturedReport(stamp, settings, calls);
      CapturedOpens(stamp, calendar, settings, calls);
      VerifiedWalk(stamp, calendar, pages, false);
      AuditedOver(stamp, settings, calls);
      CallsOver(settings, calls);
    }
  }
}
