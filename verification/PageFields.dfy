/**
 The audit's faults, pages and report, each read directly from the keys of the supplied pages.
 */
module PageFields {
  import opened Basics
  import opened Ordering
  import opened MessageRows
  import opened RowMergeLaws
  import opened PageChain
  import opened PageChainLaws
  import opened PageProjection
  import opened Coverage

  // ----- cursors

  /** The text of an entry; an absent one and null say nothing. */
  function Said(e: Entry<string>): string {
    match e
    case Given(text) => text
    case Null => ""
    case Absent => ""
  }

  /** A page states the cursor it was requested with under one of two keys. */
  predicate StatesRequest(p: Payload) {
    p.requestedPageToken != Absent || p.requestedCursor != Absent
  }

  /** The token key wins over the cursor key wherever it is there, even with null. */
  function AskedFor(p: Payload): string {
    Said(if p.requestedPageToken == Absent then p.requestedCursor else p.requestedPageToken)
  }

  function LeadsTo(p: Payload): string {
    Said(if p.nextPageToken == Absent then p.nextCursor else p.nextPageToken)
  }

  lemma CursorsRead(p: Payload)
    ensures Requested(p).present <==> StatesRequest(p)
    ensures Requested(p).token == AskedFor(p) && Next(p).token == LeadsTo(p)
  {
  }

  /** The page states its cursor, and it is the one its predecessor led to. */
  predicate Follows(pages: seq<Payload>, i: nat)
    requires i < |pages|
  {
    StatesRequest(pages[i]) && (i > 0 ==> AskedFor(pages[i]) == LeadsTo(pages[i - 1]))
  }

  /** The cursor chain is verified exactly when every page, the first one included, states the cursor it was
      requested with, and every later one was requested with what its predecessor led to. */
  lemma LinkedIff(pages: seq<Payload>)
    ensures Linked(pages) <==> forall i :: 0 <= i < |pages| ==> Follows(pages, i)
  {
    LinkedMeaning(pages, |pages|);
    forall i | 0 <= i < |pages|
      ensures LinkedAt(pages, i) <==> Follows(pages, i)
    {
      CursorsRead(pages[i]);
      if i > 0 {
        CursorsRead(pages[i - 1]);
      }
    }
  }

  /** The fault of one page by its keys. */
  lemma PageFaultIs(pages: seq<Payload>, i: nat)
    requires i < |pages|
    ensures PageFault(pages, i) ==
      if i == 0 && AskedFor(pages[0]) != "" then Some(FirstPageCursorNotEmpty)
      else if pages[i].terminal && LeadsTo(pages[i]) != "" then Some(TerminalPageHasNextCursor)
      else if !pages[i].terminal && i < |pages| - 1 && LeadsTo(pages[i]) == "" then Some(NonterminalPageMissingNextCursor)
      else if LeadsTo(pages[i]) != "" && exists j :: 0 <= j < i && LeadsTo(pages[j]) == LeadsTo(pages[i]) then Some(CursorCycleDetected)
      else None
  {
    CursorsRead(pages[0]);
    forall j | 0 <= j <= i
      ensures Next(pages[j]).token == LeadsTo(pages[j])
    {
      CursorsRead(pages[j]);
    }
    var tokens := NextTokens(pages, i);
    assert forall j :: 0 <= j < i ==> Next(pages[j]).token in tokens;
  }

  ghost predicate FirstFault(pages: seq<Payload>, e: ChainError) {
    exists i: nat :: i < |pages| && PageFault(pages, i) == Some(e) && forall k: nat :: k < i ==> PageFault(pages, k) == None
  }

  lemma {:induction false} ChainFaultFrom(pages: seq<Payload>, i: nat)
    requires i <= |pages| && forall k: nat :: k < i ==> PageFault(pages, k) == None
    ensures ChainFault(pages, i).Some? ==>
      || FirstFault(pages, ChainFault(pages, i).value)
      || ((forall k: nat :: k < |pages| ==> PageFault(pages, k) == None) && ChainFault(pages, i) == Some(TerminalPageNotLast))
    decreases |pages| - i
  {
    if i < |pages| && PageFault(pages, i) == None {
      ChainFaultFrom(pages, i + 1);
    }
  }

  lemma FirstFaultUnique(pages: seq<Payload>, d: ChainError, e: ChainError)
    requires FirstFault(pages, d) && FirstFault(pages, e)
    ensures d == e
  {
    var i: nat :| i < |pages| && PageFault(pages, i) == Some(d) && forall k: nat :: k < i ==> PageFault(pages, k) == None;
    var j: nat :| j < |pages| && PageFault(pages, j) == Some(e) && forall k: nat :: k < j ==> PageFault(pages, k) == None;
    assert i == j;
  }

  ghost predicate NoPageFault(pages: seq<Payload>) {
    forall k: nat :: k < |pages| ==> PageFault(pages, k) == None
  }

  lemma FirstFaultRaised(pages: seq<Payload>, e: ChainError)
    requires pages != [] && FirstFault(pages, e)
    ensures ChainFault(pages, 0) == Some(e) && !NoPageFault(pages)
  {
    ChainFaultMeaning(pages, 0);
    ChainFaultFrom(pages, 0);
    FirstFaultUnique(pages, ChainFault(pages, 0).value, e);
  }

  lemma NoPageFaultRaised(pages: seq<Payload>)
    requires pages != [] && NoPageFault(pages)
    ensures ChainFault(pages, 0) == if exists j :: 0 <= j < |pages| - 1 && pages[j].terminal then Some(TerminalPageNotLast) else None
  {
    ChainFaultMeaning(pages, 0);
    ChainFaultFrom(pages, 0);
  }

  /** The cursor loop raises the fault of the first faulty page; only where no page is faulty may it object to a
      terminal page that is not the last one. */
  lemma ChainFaultIs(pages: seq<Payload>, e: ChainError)
    requires pages != []
    ensures ChainFault(pages, 0) == Some(e) <==>
      || FirstFault(pages, e)
      || (NoPageFault(pages) && (exists j :: 0 <= j < |pages| - 1 && pages[j].terminal) && e == TerminalPageNotLast)
  {
    ChainFaultFrom(pages, 0);
    if FirstFault(pages, e) {
      FirstFaultRaised(pages, e);
    } else if NoPageFault(pages) {
      NoPageFaultRaised(pages);
    }
  }

  // ----- the manifest

  predicate SameManifest(p: Payload, q: Payload) {
    && Said(p.query) == Said(q.query) && Said(p.account) == Said(q.account)
    && Said(p.authorizationRevision) == Said(q.authorizationRevision)
    && Said(p.policyRevision) == Said(q.policyRevision) && Said(p.authorizedFrom) == Said(q.authorizedFrom)
  }

  /** There must be a page, the first one must have a query and an account, and all five texts must be the same on
      every page. */
  lemma ManifestFaultIs(pages: seq<Payload>)
    ensures ManifestFault(pages) ==
      if pages == [] then Some(PageChainEmpty)
      else if Said(pages[0].query) == "" || Said(pages[0].account) == "" then Some(ManifestIncomplete)
      else if exists i :: 0 <= i < |pages| && !SameManifest(pages[0], pages[i]) then Some(ManifestConflict)
      else None
  {
    forall p
      ensures pages != [] ==> (ManifestOf(p) == ManifestOf(pages[0]) <==> SameManifest(pages[0], p))
    {
    }
  }

  /** The rows before the `n`th are taken in and the `n`th one is not. */
  ghost predicate RowFails(stamp: Stamp, sights: seq<Sight>, n: nat, e: ChainError) {
    n < |sights| && AbsorbAll(stamp, sights[..n]).Ok? && Absorb(stamp, AbsorbAll(stamp, sights[..n]).value, sights[n]) == Err(e)
  }

  lemma RowFailsInPrefix(stamp: Stamp, sights: seq<Sight>, k: nat, n: nat, e: ChainError)
    requires n < k <= |sights|
    ensures RowFails(stamp, sights, n, e) <==> RowFails(stamp, sights[..k], n, e)
  {
    assert sights[..k][..n] == sights[..n];
  }

  lemma LastRowFails(stamp: Stamp, sights: seq<Sight>, e: ChainError)
    requires sights != []
    ensures var last := |sights| - 1;
      AbsorbAll(stamp, sights) == Err(e) <==> AbsorbAll(stamp, sights[..last]) == Err(e) || RowFails(stamp, sights, last, e)
  {
  }

  lemma {:induction false} SomeRowFails(stamp: Stamp, sights: seq<Sight>, e: ChainError)
    requires AbsorbAll(stamp, sights) == Err(e)
    ensures exists n: nat :: RowFails(stamp, sights, n, e)
  {
    if sights != [] {
      var last := |sights| - 1;
      LastRowFails(stamp, sights, e);
      if AbsorbAll(stamp, sights[..last]) == Err(e) {
        SomeRowFails(stamp, sights[..last], e);
        var n: nat :| RowFails(stamp, sights[..last], n, e);
        RowFailsInPrefix(stamp, sights, last, n, e);
      }
    }
  }

  lemma RowFailureStops(stamp: Stamp, sights: seq<Sight>, n: nat, e: ChainError)
    requires n < |sights| && RowFails(stamp, sights, n, e)
    ensures AbsorbAll(stamp, sights) == Err(e)
  {
    var upTo := sights[..n + 1];
    RowFailsInPrefix(stamp, sights, n + 1, n, e);
    LastRowFails(stamp, upTo, e);
    AbsorbStops(stamp, upTo, sights);
  }

  /** Which of the three checks an audit fails: the manifests', then the cursors', then the first row that cannot be
      read or merged. */
  lemma AuditFails(stamp: Stamp, pages: seq<Payload>, e: ChainError)
    ensures Audit(stamp, pages) == Err(e) <==>
      || ManifestFault(pages) == Some(e)
      || (ManifestFault(pages) == None && ChainFault(pages, 0) == Some(e))
      || (&& ManifestFault(pages) == None && ChainFault(pages, 0) == None
          && exists n: nat :: RowFails(stamp, Sights(pages), n, e))
  {
    var sights := Sights(pages);
    if AbsorbAll(stamp, sights) == Err(e) {
      SomeRowFails(stamp, sights, e);
    }
    if n: nat :| RowFails(stamp, sights, n, e) {
      RowFailureStops(stamp, sights, n, e);
    }
  }

  // ----- the pages

  function MessageTotal(pages: seq<Payload>): nat {
    if pages == [] then 0 else |pages[0].messages| + MessageTotal(pages[1..])
  }

  lemma {:induction false} MessageTotalGrows(pages: seq<Payload>, p: Payload)
    ensures MessageTotal(pages + [p]) == MessageTotal(pages) + |p.messages|
  {
    if pages == [] {
      assert pages + [p] == [p];
    } else {
      assert (pages + [p])[1..] == pages[1..] + [p];
      MessageTotalGrows(pages[1..], p);
    }
  }

  lemma {:induction false} SightsCount(pages: seq<Payload>, n: nat)
    requires n <= |pages|
    ensures |SightsOf(pages, n)| == MessageTotal(pages[..n])
  {
    if n > 0 {
      SightsCount(pages, n - 1);
      assert pages[..n] == pages[..n - 1] + [pages[n - 1]];
      MessageTotalGrows(pages[..n - 1], pages[n - 1]);
    }
  }

  function DeniedBySome(pages: seq<Payload>): set<string> {
    set p, x | p in pages && x in p.denied && x.Some? && x.value != "" :: x.value
  }

  /** The denied ids are those that some page denies. */
  lemma {:induction false} DeniedAre(pages: seq<Payload>, n: nat)
    requires n <= |pages|
    ensures DeniedUpTo(pages, n) == DeniedBySome(pages[..n])
  {
    if n > 0 {
      DeniedAre(pages, n - 1);
      var before, p := pages[..n - 1], pages[n - 1];
      assert pages[..n] == before + [p];
      assert forall q :: q in pages[..n] <==> q in before || q == p;
      assert DeniedBySome(pages[..n]) == DeniedBySome(before) + DeniedIn(p.denied);
    }
  }

  predicate AreTexts(items: seq<Option<string>>, texts: seq<string>) {
    |items| == |texts| && forall i :: 0 <= i < |texts| ==> items[i] == Some(texts[i])
  }

  function ItemIds(items: seq<Item>): seq<Option<string>> {
    seq(|items|, i requires 0 <= i < |items| => items[i].id)
  }

  /** A rewritten page: its messages in ascending order of their ids, the ids denied on any page in ascending order,
      and every other key as supplied. */
  ghost predicate PageReads(out: Payload, supplied: Payload, denied: set<string>) {
    && out == supplied.(messages := out.messages, denied := out.denied)
    && (exists ids :: Ascending(ids) && AreTexts(ItemIds(out.messages), ids))
    && (exists ids :: Ascending(ids) && AreTexts(out.denied, ids) && forall x :: x in ids <==> x in denied)
  }

  lemma {:induction false} RowsFirstOnAscend(ids: seq<string>, t: Tally, page: nat)
    requires Ascending(ids) && forall id :: id in t.merged ==> t.merged[id].id == id
    ensures forall id :: id in IdsOf(RowsFirstOn(ids, t, page)) ==> id in ids
    ensures Ascending(IdsOf(RowsFirstOn(ids, t, page)))
  {
    if ids != [] {
      var rest := ids[1..];
      assert ids == [ids[0]] + rest;
      RowsFirstOnAscend(rest, t, page);
      var all, later := IdsOf(RowsFirstOn(ids, t, page)), IdsOf(RowsFirstOn(rest, t, page));
      assert all == later || all == [ids[0]] + later;
      forall j | 0 <= j < |later|
        ensures Le(ids[0], later[j]) && ids[0] != later[j]
      {
        assert later[j] in rest;
      }
    }
  }

  lemma PageIs(stamp: Stamp, pages: seq<Payload>, t: Tally, k: nat)
    requires Filed(stamp, t) && k < |pages|
    ensures PageReads(Rewritten(pages, t)[k], pages[k], DeniedBySome(pages))
  {
    var out := Rewritten(pages, t)[k];
    RowsFirstOnAscend(Sorted(t.merged.Keys), t, k);
    assert AreTexts(ItemIds(out.messages), IdsOf(PageRows(t, k)));
    DeniedAre(pages, |pages|);
    assert pages[..|pages|] == pages;
    assert AreTexts(out.denied, Sorted(Denied(pages)));
  }

  // ----- the report

  function IdsSupplied(pages: seq<Payload>): set<string> {
    set p, item | p in pages && item in p.messages && item.id.Some? :: item.id.value
  }

  /** The messages on the rewritten pages that are marked as identity-only. */
  function IdentityOnlyOn(pages: seq<Payload>): set<string> {
    set p, item | p in pages && item in p.messages && item.id.Some? && item.contentStatus == Some("identity_only") :: item.id.value
  }

  function WithBodyOn(pages: seq<Payload>): set<string> {
    set p, item | p in pages && item in p.messages && item.id.Some? && item.body.Some? :: item.id.value
  }

  /** What the report says about the chain. */
  ghost predicate ChainReported(r: Report, pages: seq<Payload>)
    requires pages != []
  {
    var last := pages[|pages| - 1];
    && (r.cursorChainVerified <==> forall i :: 0 <= i < |pages| ==> Follows(pages, i))
    && (r.lastPageTerminal <==> last.terminal) && (r.continuationCursorPresent <==> LeadsTo(last) != "")
    && (r.status == Complete <==> last.terminal && r.cursorChainVerified)
    && (r.status == Blocked <==> last.terminal && !r.cursorChainVerified)
    && (r.status == Partial <==> !last.terminal)
    && (r.safeTerminalCoverage <==> last.terminal && r.cursorChainVerified)
    && r.query == Said(pages[0].query) && r.account == Said(pages[0].account)
    && r.authorizedFrom == Said(pages[0].authorizedFrom)
    && r.fingerprint.terminal == last.terminal && |r.fingerprint.nextCursors| == |pages|
    && forall i :: 0 <= i < |pages| ==> r.fingerprint.nextCursors[i] == LeadsTo(pages[i])
  }

  /** What the report counts, on the supplied pages and on the rewritten ones. */
  ghost predicate CountsReported(r: Report, pages: seq<Payload>, out: seq<Payload>) {
    && r.pageCount == |pages| && r.rawMessageCount == MessageTotal(pages)
    && r.uniqueMessageCount == |IdsSupplied(pages)| && r.duplicateMessageCount == r.rawMessageCount - r.uniqueMessageCount
    && r.identityOnlyCount == |IdentityOnlyOn(out)| && r.contentBearingCount == |WithBodyOn(out)|
    && r.deniedIdCount == |DeniedBySome(pages)|
    && Ascending(r.fingerprint.messageIds) && forall id :: id in r.fingerprint.messageIds <==> id in IdsSupplied(pages)
  }

  lemma ReportReadsChain(pages: seq<Payload>, t: Tally)
    requires pages != []
    ensures ChainReported(ChainOf(pages, t).report, pages)
  {
    LinkedIff(pages);
    CursorsRead(pages[|pages| - 1]);
    forall i | 0 <= i < |pages|
      ensures NextCursors(pages)[i] == LeadsTo(pages[i])
    {
      CursorsRead(pages[i]);
    }
  }

  lemma StatusTexts(s: Status)
    ensures s.Text() == "identity_only" <==> s.IdentityOnly?
  {
    assert "metadata_only"[0] != "identity_only"[0];
    assert |"full"| != |"identity_only"|;
  }

  ghost predicate OnPages(out: seq<Payload>, item: Item) {
    exists p :: p in out && item in p.messages
  }

  lemma ItemIsRow(pages: seq<Payload>, t: Tally, item: Item) returns (k: nat, i: nat)
    requires OnPages(Rewritten(pages, t), item)
    ensures k < |pages| && i < |PageRows(t, k)| && item == AsItem(PageRows(t, k)[i])
  {
    var out := Rewritten(pages, t);
    var p :| p in out && item in p.messages;
    k :| 0 <= k < |out| && out[k] == p;
    i :| 0 <= i < |p.messages| && p.messages[i] == item;
  }

  lemma OnPagesIsKept(stamp: Stamp, pages: seq<Payload>, t: Tally, item: Item)
    requires Filed(stamp, t) && OnPages(Rewritten(pages, t), item)
    ensures item.id.Some? && item.id.value in t.merged && item == AsItem(t.merged[item.id.value])
  {
    var k, i := ItemIsRow(pages, t, item);
    PageRowsFiled(stamp, t, k, i);
  }

  lemma KeptIsOnPages(stamp: Stamp, pages: seq<Payload>, t: Tally, id: string)
    requires Filed(stamp, t) && id in t.merged && t.firstPage[id] < |pages|
    ensures OnPages(Rewritten(pages, t), AsItem(t.merged[id]))
  {
    var out, k := Rewritten(pages, t), t.firstPage[id];
    RowPlaced(stamp, pages, t, id);
    var i: nat :| PlacedAt(out, id, k, i);
    PlacedRow(stamp, pages, t, id, k, i);
    assert out[k] in out && out[k].messages[i] == AsItem(t.merged[id]);
  }

  /** The messages on the rewritten pages are the rows of the tally. */
  lemma OnPagesIff(stamp: Stamp, pages: seq<Payload>, t: Tally, item: Item)
    requires Filed(stamp, t) && forall id :: id in t.merged ==> t.firstPage[id] < |pages|
    ensures OnPages(Rewritten(pages, t), item) <==>
      item.id.Some? && item.id.value in t.merged && item == AsItem(t.merged[item.id.value])
  {
    if OnPages(Rewritten(pages, t), item) {
      OnPagesIsKept(stamp, pages, t, item);
    }
    if item.id.Some? && item.id.value in t.merged {
      KeptIsOnPages(stamp, pages, t, item.id.value);
    }
  }

  lemma IdentityOnlyOnIs(out: seq<Payload>, id: string)
    ensures id in IdentityOnlyOn(out) <==>
      exists item :: OnPages(out, item) && item.id == Some(id) && item.contentStatus == Some("identity_only")
  {
  }

  lemma WithBodyOnIs(out: seq<Payload>, id: string)
    ensures id in WithBodyOn(out) <==> exists item :: OnPages(out, item) && item.id == Some(id) && item.body.Some?
  {
  }

  /** The messages with this id on the rewritten pages. */
  lemma OneOnPages(stamp: Stamp, pages: seq<Payload>, t: Tally, id: string, item: Item)
    requires Filed(stamp, t) && forall id :: id in t.merged ==> t.firstPage[id] < |pages|
    ensures OnPages(Rewritten(pages, t), item) && item.id == Some(id) <==> id in t.merged && item == AsItem(t.merged[id])
  {
    OnPagesIff(stamp, pages, t, item);
    assert id in t.merged ==> t.merged[id].id == id;
  }

  lemma IdReported(stamp: Stamp, pages: seq<Payload>, t: Tally, id: string)
    requires Filed(stamp, t) && forall id :: id in t.merged ==> t.firstPage[id] < |pages|
    ensures id in IdentityOnlyIds(t) <==> id in IdentityOnlyOn(Rewritten(pages, t))
    ensures id in BodyIds(t) <==> id in WithBodyOn(Rewritten(pages, t))
  {
    var out := Rewritten(pages, t);
    IdentityOnlyOnIs(out, id);
    WithBodyOnIs(out, id);
    forall item
      ensures OnPages(out, item) && item.id == Some(id) <==> id in t.merged && item == AsItem(t.merged[id])
    {
      OneOnPages(stamp, pages, t, id, item);
    }
    if id in t.merged {
      StatusTexts(t.merged[id].status);
      assert OnPages(out, AsItem(t.merged[id]));
    }
  }

  lemma ReportReadsRows(stamp: Stamp, pages: seq<Payload>, t: Tally)
    requires Filed(stamp, t) && forall id :: id in t.merged ==> t.firstPage[id] < |pages|
    ensures IdentityOnlyIds(t) == IdentityOnlyOn(Rewritten(pages, t)) && BodyIds(t) == WithBodyOn(Rewritten(pages, t))
  {
    forall id {
      IdReported(stamp, pages, t, id);
    }
  }

  lemma SuppliedIsKept(stamp: Stamp, pages: seq<Payload>, t: Tally, id: string)
    requires AllRead(stamp, Sights(pages)) && DescribesId(stamp, ReadAll(stamp, Sights(pages)), t, id)
    requires IdsSupplied(pages) == PageIds(pages)
    ensures id in IdsSupplied(pages) <==> id in t.merged
  {
    if id in PageIds(pages) {
      PresentIsObserved(stamp, pages, id);
    }
    if id in t.merged {
      ObservedIsPresent(stamp, pages, id);
    }
  }

  /** Rows that read all have an id. */
  lemma AllIdsPresent(stamp: Stamp, pages: seq<Payload>)
    requires AllRead(stamp, Sights(pages))
    ensures IdsSupplied(pages) == PageIds(pages)
  {
    forall p, item | p in pages && item in p.messages
      ensures Present(item.id)
    {
      var k :| 0 <= k < |pages| && pages[k] == p;
      var i :| 0 <= i < |p.messages| && p.messages[i] == item;
      SightsHold(pages, |pages|, k, i);
      ReadKeepsId(stamp, Sight(k, item));
    }
  }

  lemma SuppliedAreKept(stamp: Stamp, pages: seq<Payload>, t: Tally)
    requires AllRead(stamp, Sights(pages)) && Describes(stamp, ReadAll(stamp, Sights(pages)), t)
    ensures IdsSupplied(pages) == t.merged.Keys
    ensures t.raw == MessageTotal(pages) == |t.merged| + t.duplicates
  {
    SightsCount(pages, |pages|);
    assert pages[..|pages|] == pages;
    AllIdsPresent(stamp, pages);
    forall id
      ensures id in IdsSupplied(pages) <==> id in t.merged
    {
      assert DescribesId(stamp, ReadAll(stamp, Sights(pages)), t, id);
      SuppliedIsKept(stamp, pages, t, id);
    }
  }

  lemma KeptOnPages(stamp: Stamp, pages: seq<Payload>, t: Tally)
    requires AllRead(stamp, Sights(pages)) && Describes(stamp, ReadAll(stamp, Sights(pages)), t)
    ensures forall id :: id in t.merged ==> id in t.firstPage && t.firstPage[id] < |pages|
  {
    SightsAscend(pages, |pages|);
    forall id | id in t.merged
      ensures id in t.firstPage && t.firstPage[id] < |pages|
    {
      assert DescribesId(stamp, ReadAll(stamp, Sights(pages)), t, id);
    }
  }

  lemma CountsRead(stamp: Stamp, pages: seq<Payload>, t: Tally)
    requires pages != [] && AllRead(stamp, Sights(pages)) && Describes(stamp, ReadAll(stamp, Sights(pages)), t)
    ensures CountsReported(ChainOf(pages, t).report, pages, ChainOf(pages, t).pages)
  {
    DescribedIsFiled(stamp, ReadAll(stamp, Sights(pages)), t);
    SuppliedAreKept(stamp, pages, t);
    KeptOnPages(stamp, pages, t);
    ReportReadsRows(stamp, pages, t);
    DeniedAre(pages, |pages|);
    assert pages[..|pages|] == pages;
  }

  /** What the pages and the report of an audit say, from the keys of the supplied pages. */
  lemma AuditReads(stamp: Stamp, pages: seq<Payload>)
    requires Audit(stamp, pages).Ok?
    ensures pages != []
    ensures var c := Audit(stamp, pages).value;
      ChainReported(c.report, pages) && CountsReported(c.report, pages, c.pages)
    ensures var c := Audit(stamp, pages).value;
      |c.pages| == |pages| && forall k :: 0 <= k < |pages| ==> PageReads(c.pages[k], pages[k], DeniedBySome(pages))
  {
    AuditAcceptsIff(stamp, pages);
    var t := AbsorbAll(stamp, Sights(pages)).value;
    DescribedIsFiled(stamp, ReadAll(stamp, Sights(pages)), t);
    ReportReadsChain(pages, t);
    CountsRead(stamp, pages, t);
    forall k | 0 <= k < |pages|
      ensures PageReads(Rewritten(pages, t)[k], pages[k], DeniedBySome(pages))
    {
      PageIs(stamp, pages, t, k);
    }
  }

  /** What stands on the rewritten pages is, for each message, the merge of its observations. */
  lemma PlacedIsMerged(stamp: Stamp, pages: seq<Payload>, id: string, k: nat, i: nat)
    requires Audit(stamp, pages).Ok? && PlacedAt(Audit(stamp, pages).value.pages, id, k, i)
    ensures AllRead(stamp, Sights(pages)) && Group(ReadAll(stamp, Sights(pages)), id) != []
    ensures var kept := FoldRows(Group(ReadAll(stamp, Sights(pages)), id));
      kept.Ok? && Audit(stamp, pages).value.pages[k].messages[i] == AsItem(kept.value)
  {
    AuditAcceptsIff(stamp, pages);
    var seen, t := ReadAll(stamp, Sights(pages)), AbsorbAll(stamp, Sights(pages)).value;
    DescribedIsFiled(stamp, seen, t);
    PlacedRow(stamp, pages, t, id, k, i);
    assert DescribesId(stamp, seen, t, id);
  }
}
