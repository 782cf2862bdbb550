/**
 The page-chain audit: `_cursor` and `audit_page_payloads` (scripts/audit_gmail_page_chain.py).
 Pages are JSON objects before and after the audit, so the audit's output can be audited again.
 */
module PageChain {
  import opened Basics
  import opened Ordering
  import opened MessageRows
  import opened RowMerge

  datatype Payload = Payload(
    query: Entry<string>, account: Entry<string>,
    authorizationRevision: Entry<string>, policyRevision: Entry<string>, authorizedFrom: Entry<string>,
    requestedPageToken: Entry<string>, requestedCursor: Entry<string>,
    nextPageToken: Entry<string>, nextCursor: Entry<string>,
    terminal: bool, messages: seq<Item>, denied: seq<Option<string>>)

  datatype Manifest = Manifest(
    query: string, account: string, authorizationRevision: string, policyRevision: string, authorizedFrom: string)

  datatype Cursor = Cursor(present: bool, token: string)

  datatype ChainStatus = Complete | Blocked | Partial

  /** What the page-set fingerprint is a digest of. */
  datatype Fingerprint = Fingerprint(messageIds: seq<string>, nextCursors: seq<string>, terminal: bool)

  datatype Report = Report(
    status: ChainStatus, safeTerminalCoverage: bool, cursorChainVerified: bool, pageCount: nat,
    rawMessageCount: nat, uniqueMessageCount: nat, duplicateMessageCount: nat,
    identityOnlyCount: nat, contentBearingCount: nat, deniedIdCount: nat,
    lastPageTerminal: bool, continuationCursorPresent: bool,
    query: string, account: string, authorizedFrom: string, fingerprint: Fingerprint)

  datatype Chain = Chain(pages: seq<Payload>, report: Report)

  function EntryText(e: Entry<string>): string {
    if e.Given? then e.given else ""
  }

  function FirstKey(first: Entry<string>, second: Entry<string>): Cursor {
    if !first.Absent? then Cursor(true, EntryText(first))
    else if !second.Absent? then Cursor(true, EntryText(second))
    else Cursor(false, "")
  }

  function Requested(p: Payload): Cursor {
    FirstKey(p.requestedPageToken, p.requestedCursor)
  }

  function Next(p: Payload): Cursor {
    FirstKey(p.nextPageToken, p.nextCursor)
  }

  function ManifestOf(p: Payload): Manifest {
    Manifest(EntryText(p.query), EntryText(p.account), EntryText(p.authorizationRevision),
             EntryText(p.policyRevision), EntryText(p.authorizedFrom))
  }

  // ----- the cursor chain

  function NextTokens(pages: seq<Payload>, n: nat): set<string>
    requires n <= |pages|
  {
    set i | 0 <= i < n :: Next(pages[i]).token
  }

  lemma NextTokensGrow(pages: seq<Payload>, n: nat)
    requires n < |pages|
    ensures NextTokens(pages, n + 1) == NextTokens(pages, n) + {Next(pages[n]).token}
  {
  }

  /** What is wrong with one page of the chain, checked in the order the loop checks it. */
  function PageFault(pages: seq<Payload>, i: nat): Option<ChainError>
    requires i < |pages|
  {
    var next := Next(pages[i]);
    if i == 0 && Requested(pages[0]).token != "" then Some(FirstPageCursorNotEmpty)
    else if pages[i].terminal && next.token != "" then Some(TerminalPageHasNextCursor)
    else if !pages[i].terminal && i < |pages| - 1 && next.token == "" then Some(NonterminalPageMissingNextCursor)
    else if next.token != "" && next.token in NextTokens(pages, i) then Some(CursorCycleDetected)
    else None
  }

  function Terminals(pages: seq<Payload>, n: nat): seq<nat>
    requires n <= |pages|
  {
    if n == 0 then [] else Terminals(pages, n - 1) + if pages[n - 1].terminal then [n - 1] else []
  }

  function ChainFault(pages: seq<Payload>, i: nat): Option<ChainError>
    requires i <= |pages|
    decreases |pages| - i
  {
    if i == |pages| then
      var terminals := Terminals(pages, |pages|);
      if terminals != [] && terminals != [|pages| - 1] then Some(TerminalPageNotLast) else None
    else if PageFault(pages, i).Some? then PageFault(pages, i)
    else ChainFault(pages, i + 1)
  }

  predicate LinkedAt(pages: seq<Payload>, i: nat)
    requires i < |pages|
  {
    Requested(pages[i]).present && (i > 0 ==> Requested(pages[i]).token == Next(pages[i - 1]).token)
  }

  predicate LinkedUpTo(pages: seq<Payload>, n: nat)
    requires n <= |pages|
  {
    n == 0 || (LinkedUpTo(pages, n - 1) && LinkedAt(pages, n - 1))
  }

  /** Every page states the cursor it was requested with, and it is its predecessor's next one. */
  predicate Linked(pages: seq<Payload>) {
    LinkedUpTo(pages, |pages|)
  }

  method VerifyCursors(pages: seq<Payload>) returns (r: Result<bool, ChainError>)
    ensures r == match ChainFault(pages, 0) case Some(e) => Err(e) case None => Ok(Linked(pages))
  {
    var complete, priorNext := true, "";
    var seenNext: set<string> := {};
    var terminalIndexes: seq<nat> := [];
    for index := 0 to |pages|
      invariant ChainFault(pages, 0) == ChainFault(pages, index)
      invariant complete <==> LinkedUpTo(pages, index)
      invariant priorNext == if index == 0 then "" else Next(pages[index - 1]).token
      invariant seenNext == NextTokens(pages, index) - {""}
      invariant terminalIndexes == Terminals(pages, index)
    {
      var payload := pages[index];
      var requested, next := Requested(payload), Next(payload);
      if !requested.present {
        complete := false;
      }
      if index == 0 {
        if requested.present && requested.token != "" {
          return Err(FirstPageCursorNotEmpty);
        }
      } else if !requested.present || requested.token != priorNext {
        complete := false;
      }
      if payload.terminal {
        terminalIndexes := terminalIndexes + [index];
        if next.token != "" {
          return Err(TerminalPageHasNextCursor);
        }
      } else if index < |pages| - 1 && (!next.present || next.token == "") {
        return Err(NonterminalPageMissingNextCursor);
      }
      if next.token != "" {
        if next.token in seenNext {
          return Err(CursorCycleDetected);
        }
        seenNext := seenNext + {next.token};
      }
      priorNext := next.token;
      NextTokensGrow(pages, index);
    }
    if terminalIndexes != [] && terminalIndexes != [|pages| - 1] {
      return Err(TerminalPageNotLast);
    }
    return Ok(complete);
  }

  // ----- merging by message id

  /** One observed message: the page that carries it and its row as supplied. */
  datatype Sight = Sight(page: nat, item: Item)

  datatype Tally = Tally(merged: map<string, Row>, firstPage: map<string, nat>, raw: nat, duplicates: nat)

  const EMPTY_TALLY := Tally(map[], map[], 0, 0)

  function PageSights(page: nat, items: seq<Item>, n: nat): seq<Sight>
    requires n <= |items|
  {
    seq(n, i requires 0 <= i < n => Sight(page, items[i]))
  }

  /** The messages of the first `n` pages, in reading order. */
  function SightsOf(pages: seq<Payload>, n: nat): seq<Sight>
    requires n <= |pages|
  {
    if n == 0 then [] else SightsOf(pages, n - 1) + PageSights(n - 1, pages[n - 1].messages, |pages[n - 1].messages|)
  }

  function Sights(pages: seq<Payload>): seq<Sight> {
    SightsOf(pages, |pages|)
  }

  function AbsorbNormalised(stamp: Stamp, t: Tally, page: nat, row: Row): Result<Tally, ChainError> {
    if row.id in t.merged then
      var m :- Merge(stamp, AsItem(t.merged[row.id]), AsItem(row));
      Ok(Tally(t.merged[row.id := m], t.firstPage, t.raw + 1, t.duplicates + 1))
    else
      Ok(Tally(t.merged[row.id := row], t.firstPage[row.id := page], t.raw + 1, t.duplicates))
  }

  function Absorb(stamp: Stamp, t: Tally, s: Sight): Result<Tally, ChainError> {
    var row :- Normalise(stamp, s.item);
    AbsorbNormalised(stamp, t, s.page, row)
  }

  function AbsorbAll(stamp: Stamp, sights: seq<Sight>): Result<Tally, ChainError> {
    if sights == [] then Ok(EMPTY_TALLY) else
    var t :- AbsorbAll(stamp, sights[..|sights| - 1]);
    Absorb(stamp, t, sights[|sights| - 1])
  }

  function DeniedIn(denied: seq<Option<string>>): set<string> {
    set x | x in denied && Present(x) :: x.value
  }

  function DeniedUpTo(pages: seq<Payload>, n: nat): set<string>
    requires n <= |pages|
  {
    if n == 0 then {} else DeniedUpTo(pages, n - 1) + DeniedIn(pages[n - 1].denied)
  }

  function Denied(pages: seq<Payload>): set<string> {
    DeniedUpTo(pages, |pages|)
  }

  lemma {:induction false} AbsorbStops(stamp: Stamp, sights: seq<Sight>, all: seq<Sight>)
    requires sights <= all && AbsorbAll(stamp, sights).Err?
    ensures AbsorbAll(stamp, all) == AbsorbAll(stamp, sights)
  {
    if |sights| == |all| {
      assert sights == all;
    } else {
      AbsorbStops(stamp, sights, all[..|all| - 1]);
    }
  }

  lemma {:induction false} SightsGrow(pages: seq<Payload>, k: nat, n: nat)
    requires k <= n <= |pages|
    ensures SightsOf(pages, k) <= SightsOf(pages, n)
  {
    if k < n {
      SightsGrow(pages, k, n - 1);
    }
  }

  function SightsUpTo(pages: seq<Payload>, page: nat, n: nat): seq<Sight>
    requires page < |pages| && n <= |pages[page].messages|
  {
    SightsOf(pages, page) + PageSights(page, pages[page].messages, n)
  }

  lemma NextSight(pages: seq<Payload>, page: nat, n: nat)
    requires page < |pages| && n < |pages[page].messages|
    ensures var longer := SightsUpTo(pages, page, n + 1);
      longer != [] && longer[..|longer| - 1] == SightsUpTo(pages, page, n)
      && longer[|longer| - 1] == Sight(page, pages[page].messages[n])
  {
    var items := pages[page].messages;
    assert PageSights(page, items, n + 1) == PageSights(page, items, n) + [Sight(page, items[n])];
  }

  lemma FailureIsFinal(stamp: Stamp, pages: seq<Payload>, page: nat, n: nat)
    requires page < |pages| && n <= |pages[page].messages|
    requires AbsorbAll(stamp, SightsUpTo(pages, page, n)).Err?
    ensures AbsorbAll(stamp, Sights(pages)) == AbsorbAll(stamp, SightsUpTo(pages, page, n))
  {
    SightsGrow(pages, page + 1, |pages|);
    var items := pages[page].messages;
    assert PageSights(page, items, n) <= PageSights(page, items, |items|);
    assert SightsUpTo(pages, page, n) <= SightsOf(pages, page + 1);
    AbsorbStops(stamp, SightsUpTo(pages, page, n), Sights(pages));
  }

  method CountRow(stamp: Stamp, t: Tally, page: nat, row: Row) returns (r: Result<Tally, ChainError>)
    ensures r == AbsorbNormalised(stamp, t, page, row)
  {
    if row.id in t.merged {
      var merged :- MergeMessageRows(stamp, AsItem(t.merged[row.id]), AsItem(row));
      return Ok(t.(merged := t.merged[row.id := merged], raw := t.raw + 1, duplicates := t.duplicates + 1));
    }
    return Ok(t.(merged := t.merged[row.id := row], firstPage := t.firstPage[row.id := page], raw := t.raw + 1));
  }

  method AbsorbItem(stamp: Stamp, t: Tally, page: nat, item: Item) returns (r: Result<Tally, ChainError>)
    ensures r == Absorb(stamp, t, Sight(page, item))
  {
    var row :- Normalise(stamp, item);
    r := CountRow(stamp, t, page, row);
  }

  method MergePage(stamp: Stamp, pages: seq<Payload>, index: nat, before: Tally) returns (r: Result<Tally, ChainError>)
    requires index < |pages| && AbsorbAll(stamp, SightsOf(pages, index)) == Ok(before)
    ensures r.Ok? ==> AbsorbAll(stamp, SightsOf(pages, index + 1)) == r
    ensures r.Err? ==> AbsorbAll(stamp, Sights(pages)) == r
  {
    var tally, items := before, pages[index].messages;
    assert SightsUpTo(pages, index, 0) == SightsOf(pages, index);
    for i := 0 to |items|
      invariant AbsorbAll(stamp, SightsUpTo(pages, index, i)) == Ok(tally)
    {
      NextSight(pages, index, i);
      var step := AbsorbItem(stamp, tally, index, items[i]);
      assert AbsorbAll(stamp, SightsUpTo(pages, index, i + 1)) == step;
      if step.Err? {
        FailureIsFinal(stamp, pages, index, i + 1);
        return step;
      }
      tally := step.value;
    }
    return Ok(tally);
  }

  method MergePages(stamp: Stamp, pages: seq<Payload>) returns (r: Result<(Tally, set<string>), ChainError>)
    ensures r == match AbsorbAll(stamp, Sights(pages)) case Err(e) => Err(e) case Ok(t) => Ok((t, Denied(pages)))
  {
    var tally := EMPTY_TALLY;
    var denied: set<string> := {};
    for index := 0 to |pages|
      invariant AbsorbAll(stamp, SightsOf(pages, index)) == Ok(tally)
      invariant denied == DeniedUpTo(pages, index)
    {
      tally :- MergePage(stamp, pages, index, tally);
      denied := denied + DeniedIn(pages[index].denied);
    }
    return Ok((tally, denied));
  }

  // ----- rewriting the pages and reporting

  function RowsFirstOn(ids: seq<string>, t: Tally, page: nat): seq<Row> {
    if ids == [] then [] else
    var rest := RowsFirstOn(ids[1..], t, page);
    if ids[0] in t.merged && ids[0] in t.firstPage && t.firstPage[ids[0]] == page then [t.merged[ids[0]]] + rest else rest
  }

  function PageRows(t: Tally, page: nat): seq<Row> {
    RowsFirstOn(Sorted(t.merged.Keys), t, page)
  }

  function AsItems(rows: seq<Row>): seq<Item> {
    seq(|rows|, i requires 0 <= i < |rows| => AsItem(rows[i]))
  }

  function Projected(p: Payload, page: nat, t: Tally, denied: set<string>): Payload {
    p.(messages := AsItems(PageRows(t, page)), denied := AllGiven(Sorted(denied)))
  }

  function Rewritten(pages: seq<Payload>, t: Tally): seq<Payload> {
    seq(|pages|, k requires 0 <= k < |pages| => Projected(pages[k], k, t, Denied(pages)))
  }

  function IdentityOnlyIds(t: Tally): set<string> {
    set id | id in t.merged && t.merged[id].status.IdentityOnly?
  }

  function BodyIds(t: Tally): set<string> {
    set id | id in t.merged && t.merged[id].body.Some?
  }

  function NextCursors(pages: seq<Payload>): seq<string> {
    seq(|pages|, k requires 0 <= k < |pages| => Next(pages[k]).token)
  }

  function ReportOf(pages: seq<Payload>, verified: bool, t: Tally, denied: set<string>): Report
    requires pages != []
  {
    var last := pages[|pages| - 1];
    var manifest := ManifestOf(pages[0]);
    var complete := last.terminal && verified;
    Report(
      if complete then Complete else if last.terminal then Blocked else Partial,
      complete, verified, |pages|, t.raw, |t.merged|, t.duplicates,
      |IdentityOnlyIds(t)|, |BodyIds(t)|, |denied|, last.terminal, Next(last).token != "",
      manifest.query, manifest.account, manifest.authorizedFrom,
      Fingerprint(Sorted(t.merged.Keys), NextCursors(pages), last.terminal))
  }

  function ChainOf(pages: seq<Payload>, t: Tally): Chain
    requires pages != []
  {
    Chain(Rewritten(pages, t), ReportOf(pages, Linked(pages), t, Denied(pages)))
  }

  function ManifestFault(pages: seq<Payload>): Option<ChainError> {
    if pages == [] then Some(PageChainEmpty)
    else if ManifestOf(pages[0]).query == "" || ManifestOf(pages[0]).account == "" then Some(ManifestIncomplete)
    else if exists i :: 1 <= i < |pages| && ManifestOf(pages[i]) != ManifestOf(pages[0]) then Some(ManifestConflict)
    else None
  }

  function Audit(stamp: Stamp, pages: seq<Payload>): Result<Chain, ChainError> {
    if ManifestFault(pages).Some? then Err(ManifestFault(pages).value)
    else if ChainFault(pages, 0).Some? then Err(ChainFault(pages, 0).value)
    else
      var t :- AbsorbAll(stamp, Sights(pages));
      Ok(ChainOf(pages, t))
  }

  method CheckManifests(pages: seq<Payload>) returns (r: Option<ChainError>)
    ensures r == ManifestFault(pages)
  {
    if pages == [] {
      return Some(PageChainEmpty);
    }
    var expected := ManifestOf(pages[0]);
    if expected.query == "" || expected.account == "" {
      return Some(ManifestIncomplete);
    }
    for i := 1 to |pages|
      invariant forall j :: 1 <= j < i ==> ManifestOf(pages[j]) == expected
    {
      if ManifestOf(pages[i]) != expected {
        return Some(ManifestConflict);
      }
    }
    return None;
  }

  method RewritePages(payloads: seq<Payload>, tally: Tally, denied: set<string>) returns (pages: seq<Payload>)
    requires denied == Denied(payloads)
    ensures pages == Rewritten(payloads, tally)
  {
    pages := [];
    for index := 0 to |payloads|
      invariant |pages| == index
      invariant forall k :: 0 <= k < index ==> pages[k] == Projected(payloads[k], k, tally, denied)
    {
      pages := pages + [Projected(payloads[index], index, tally, denied)];
    }
  }

  method AuditPagePayloads(stamp: Stamp, payloads: seq<Payload>) returns (r: Result<Chain, ChainError>)
    ensures r == Audit(stamp, payloads)
  {
    var fault := CheckManifests(payloads);
    if fault.Some? {
      return Err(fault.value);
    }
    var verified :- VerifyCursors(payloads);
    var merged :- MergePages(stamp, payloads);
    var (tally, denied) := merged;
    var pages := RewritePages(payloads, tally, denied);
    return Ok(Chain(pages, ReportOf(payloads, verified, tally, denied)));
  }
}
