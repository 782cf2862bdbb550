/**
 Handing audited pages to the cursor-keyed page source: `_message`, `manifest_from_payload` and
 `authorized_page_from_payload` (scripts/ingest_gmail_export.py) with what the constructors they call
 reject (src/matters/providers/gmail/adapter.py), `_build_adapter` (scripts/ingest_gmail_pages.py), and
 the walk of `run_gmail` through `authorized_page` (src/matters/application/source_workflows.py).
 */
module PageAdapter {
  import opened Basics
  import opened MessageRows
  import opened PageChain
  import opened CalendarDates

  datatype Message = Message(
    id: string, threadId: string, labels: seq<string>, date: string, attachments: seq<Attachment>,
    subject: string, sender: string, snippet: string, identityOnly: bool)

  datatype Content = Content(id: string, body: string, subject: string, sender: string, to: seq<string>)

  datatype AuthorizedPage = AuthorizedPage(
    requested: string, next: string, terminal: bool, messages: seq<Message>, contents: seq<Content>)

  function Sender(item: Item): string {
    Text(Either(item.from_, item.from))
  }

  /** The second classification of the same rows. Here null labels count, not `labels_present`. */
  predicate ExportsIdentityOnly(item: Item) {
    || item.identityOnly
    || Text(item.contentStatus) == "identity_only"
    || Text(item.threadId) == ""
    || Text(item.emailTs) == ""
    || item.labels.NullLabels?
  }

  const DEFAULT_MEDIA_TYPE := "application/octet-stream"

  function SizeOf(raw: RawAttachment): Entry<int> {
    if !raw.sizeBytes.Absent? then raw.sizeBytes else if !raw.size.Absent? then raw.size else Given(0)
  }

  /** An attachment must name itself and its type, and have a size that is not negative. */
  function ToAttachment(raw: RawAttachment): Result<Attachment, ChainError> {
    var id, size := Text(Either(raw.attachmentId, raw.id)), SizeOf(raw);
    var mediaType :=
      if Text(raw.mimeType) != "" then Text(raw.mimeType)
      else if raw.mediaType.Some? then raw.mediaType.value
      else DEFAULT_MEDIA_TYPE;
    if id == "" || mediaType == "" || !size.Given? || size.given < 0 then Err(AttachmentRejected(id))
    else Ok(Attachment(id, Text(raw.filename), mediaType, size.given))
  }

  function ToAttachments(raws: seq<RawAttachment>): Result<seq<Attachment>, ChainError> {
    if raws == [] then Ok([]) else
    var first :- ToAttachment(raws[0]);
    var rest :- ToAttachments(raws[1..]);
    Ok([first] + rest)
  }

  function ToMessage(item: Item): Result<Message, ChainError> {
    var identityOnly := ExportsIdentityOnly(item);
    if Text(item.id) == "" then Err(RowWithoutId)
    else if identityOnly && item.body.Some? then Err(IdentityOnlyRowCarriesBody)
    else
    var attachments :- if identityOnly then Ok([]) else ToAttachments(item.attachments);
    Ok(Message(
      Text(item.id), Text(item.threadId), if item.labels.Listed? then NonBlankTexts(item.labels.values) else [],
      Text(item.emailTs), attachments, Text(item.subject), Sender(item), Text(item.snippet), identityOnly))
  }

  function ToMessages(items: seq<Item>): Result<seq<Message>, ChainError> {
    if items == [] then Ok([]) else
    var first :- ToMessage(items[0]);
    var rest :- ToMessages(items[1..]);
    Ok([first] + rest)
  }

  function IdentityOnlyMessages(messages: seq<Message>): set<string> {
    set m | m in messages && m.identityOnly :: m.id
  }

  function Contents(items: seq<Item>, without: set<string>): seq<Content> {
    if items == [] then [] else
    (if items[0].body.Some? && Text(items[0].id) !in without
     then [Content(Text(items[0].id), items[0].body.value, Text(items[0].subject), Sender(items[0]), NonBlankTexts(items[0].to))]
     else []) + Contents(items[1..], without)
  }

  function MessageIds(messages: seq<Message>): seq<string> {
    seq(|messages|, i requires 0 <= i < |messages| => messages[i].id)
  }

  /** A page cannot be terminal and have a next cursor, nor carry one message twice; that contents are
      distinct, of its messages and of none that is identity-only follows. */
  function ToPage(p: Payload, requested: string, next: string, terminal: bool): Result<AuthorizedPage, ChainError> {
    var messages :- ToMessages(p.messages);
    if terminal && next != "" then Err(AdapterPageTerminalHasNext)
    else if !NoDuplicates(MessageIds(messages)) then Err(AdapterPageMessageRepeats)
    else Ok(AuthorizedPage(requested, next, terminal, messages, Contents(p.messages, IdentityOnlyMessages(messages))))
  }

  // ----- the adapter

  function PriorNext(pages: seq<Payload>, i: nat): string
    requires i <= |pages|
  {
    if i == 0 then "" else Next(pages[i - 1]).token
  }

  /** The cursor a page is filed under: a page that does not state one takes its predecessor's next. */
  function KeyAt(pages: seq<Payload>, i: nat): string
    requires i < |pages|
  {
    if i == 0 then "" else if Requested(pages[i]).present then Requested(pages[i]).token else PriorNext(pages, i)
  }

  function TerminalAt(pages: seq<Payload>, verified: bool, i: nat): bool
    requires i < |pages|
  {
    pages[i].terminal && verified
  }

  function NextAt(pages: seq<Payload>, verified: bool, i: nat): string
    requires i < |pages|
  {
    if i == |pages| - 1 && !TerminalAt(pages, verified, i) then "" else Next(pages[i]).token
  }

  function PageAt(pages: seq<Payload>, verified: bool, i: nat): Result<AuthorizedPage, ChainError>
    requires i < |pages|
  {
    ToPage(pages[i], KeyAt(pages, i), NextAt(pages, verified, i), TerminalAt(pages, verified, i))
  }

  function AddPage(m: map<string, AuthorizedPage>, key: string, page: Result<AuthorizedPage, ChainError>)
    : Result<map<string, AuthorizedPage>, ChainError>
  {
    if page.Err? then Err(page.error)
    else if key in m then Err(RequestedCursorDuplicate)
    else Ok(m[key := page.value])
  }

  function Keys(pages: seq<Payload>): seq<string> {
    seq(|pages|, i requires 0 <= i < |pages| => KeyAt(pages, i))
  }

  function Attempts(pages: seq<Payload>, verified: bool): seq<Result<AuthorizedPage, ChainError>> {
    seq(|pages|, i requires 0 <= i < |pages| => PageAt(pages, verified, i))
  }

  /** Files the first `n` pages under their cursors. */
  function FileUpTo(keys: seq<string>, attempts: seq<Result<AuthorizedPage, ChainError>>, n: nat)
    : Result<map<string, AuthorizedPage>, ChainError>
    requires n <= |keys| == |attempts|
  {
    if n == 0 then Ok(map[]) else
    var m :- FileUpTo(keys, attempts, n - 1);
    AddPage(m, keys[n - 1], attempts[n - 1])
  }

  /** An absent revision has a default; one that is null or empty is refused. */
  function Revision(e: Entry<string>, default: string): string {
    if e.Absent? then default else EntryText(e)
  }

  /** What `manifest_from_payload` raises. */
  function ManifestRejection(calendar: Calendar, p: Payload): Option<ChainError> {
    var authorizedFrom := EntryText(p.authorizedFrom);
    if EntryText(p.query) == "" || EntryText(p.account) == "" then Some(QueryAndAccountRequired)
    else if Revision(p.authorizationRevision, "connector-read:v1") == "" || Revision(p.policyRevision, "policy:v1") == "" then
      Some(RevisionRequired)
    else if authorizedFrom != "" && !calendar(authorizedFrom) then Some(AuthorizedFromNotADate)
    else None
  }

  function Build(calendar: Calendar, chain: Chain, allowUnverifiedPartial: bool)
    : Result<map<string, AuthorizedPage>, ChainError>
    requires chain.pages != []
  {
    var verified, terminal := chain.report.cursorChainVerified, chain.report.lastPageTerminal;
    if chain.report.status.Blocked? then Err(CoverageBlocked)
    else if (!verified && terminal) || (!terminal && !allowUnverifiedPartial) then Err(CursorChainUnverified)
    else if ManifestRejection(calendar, chain.pages[0]).Some? then Err(ManifestRejection(calendar, chain.pages[0]).value)
    else FileUpTo(Keys(chain.pages), Attempts(chain.pages, verified), |chain.pages|)
  }

  lemma {:induction false} FilingStops(keys: seq<string>, attempts: seq<Result<AuthorizedPage, ChainError>>, k: nat, n: nat)
    requires k <= n <= |keys| == |attempts| && FileUpTo(keys, attempts, k).Err?
    ensures FileUpTo(keys, attempts, n) == FileUpTo(keys, attempts, k)
  {
    if k < n {
      FilingStops(keys, attempts, k, n - 1);
    }
  }

  method ManifestFromPayload(calendar: Calendar, payload: Payload) returns (rejection: Option<ChainError>)
    ensures rejection == ManifestRejection(calendar, payload)
  {
    var query, account := EntryText(payload.query), EntryText(payload.account);
    if query == "" || account == "" {
      return Some(QueryAndAccountRequired);
    }
    var authorization := if payload.authorizationRevision.Absent? then "connector-read:v1" else EntryText(payload.authorizationRevision);
    var policy := if payload.policyRevision.Absent? then "policy:v1" else EntryText(payload.policyRevision);
    if authorization == "" || policy == "" {
      return Some(RevisionRequired);
    }
    var authorizedFrom := EntryText(payload.authorizedFrom);
    if authorizedFrom != "" && !calendar(authorizedFrom) {
      return Some(AuthorizedFromNotADate);
    }
    return None;
  }

  /** `keys` and `attempts` list what each page is filed under and becomes. */
  ghost predicate Lists(pages: seq<Payload>, verified: bool, keys: seq<string>, attempts: seq<Result<AuthorizedPage, ChainError>>) {
    && |keys| == |attempts| == |pages|
    && (forall i {:trigger KeyAt(pages, i)} :: 0 <= i < |pages| ==> keys[i] == KeyAt(pages, i))
    && (forall i {:trigger PageAt(pages, verified, i)} :: 0 <= i < |pages| ==> attempts[i] == PageAt(pages, verified, i))
  }

  method ServePage(pages: seq<Payload>, verified: bool, index: nat, priorNext: string,
                   ghost keys: seq<string>, ghost attempts: seq<Result<AuthorizedPage, ChainError>>)
    returns (requested: string, page: Result<AuthorizedPage, ChainError>)
    requires index < |pages| && priorNext == PriorNext(pages, index) && Lists(pages, verified, keys, attempts)
    ensures requested == keys[index] && page == attempts[index]
  {
    var payload := pages[index];
    requested := Requested(payload).token;
    if index == 0 {
      requested := "";
    } else if !Requested(payload).present {
      requested := priorNext;
    }
    var pageTerminal := payload.terminal && verified;
    var next := if index == |pages| - 1 && !pageTerminal then "" else Next(payload).token;
    page := ToPage(payload, requested, next, pageTerminal);
    assert requested == KeyAt(pages, index) && page == PageAt(pages, verified, index);
  }

  method FilePages(pages: seq<Payload>, verified: bool,
                   ghost keys: seq<string>, ghost attempts: seq<Result<AuthorizedPage, ChainError>>)
    returns (r: Result<map<string, AuthorizedPage>, ChainError>)
    requires Lists(pages, verified, keys, attempts)
    ensures r == FileUpTo(keys, attempts, |pages|)
  {
    var pagesByCursor: map<string, AuthorizedPage> := map[];
    var priorNext := "";
    for index := 0 to |pages|
      invariant FileUpTo(keys, attempts, index) == Ok(pagesByCursor)
      invariant priorNext == PriorNext(pages, index)
    {
      var requested, page := ServePage(pages, verified, index, priorNext, keys, attempts);
      var filed := AddPage(pagesByCursor, requested, page);
      assert FileUpTo(keys, attempts, index + 1) == filed;
      if filed.Err? {
        FilingStops(keys, attempts, index + 1, |pages|);
        return filed;
      }
      pagesByCursor := filed.value;
      priorNext := Next(pages[index]).token;
    }
    return Ok(pagesByCursor);
  }

  method BuildAdapter(calendar: Calendar, chain: Chain, allowUnverifiedPartial: bool)
    returns (r: Result<map<string, AuthorizedPage>, ChainError>)
    requires chain.pages != []
    ensures r == Build(calendar, chain, allowUnverifiedPartial)
  {
    if chain.report.status.Blocked? {
      return Err(CoverageBlocked);
    }
    var verified, terminal := chain.report.cursorChainVerified, chain.report.lastPageTerminal;
    if (!verified && terminal) || (!terminal && !allowUnverifiedPartial) {
      return Err(CursorChainUnverified);
    }
    var rejection := ManifestFromPayload(calendar, chain.pages[0]);
    if rejection.Some? {
      return Err(rejection.value);
    }
    r := FilePages(chain.pages, verified, Keys(chain.pages), Attempts(chain.pages, verified));
  }

  // ----- the walk

  /** A walk may end at a terminal page, which covers the query, or at a page that is not terminal but has no next
      cursor, which leaves a coverage gap, or fail to get on. */
  datatype WalkEnd = AtTerminal | AtGap | Stalled | LimitReached | CursorNotSupplied | PageRejected {
    predicate Finished() {
      AtTerminal? || AtGap?
    }
  }

  /** The cursors of the pages taken, in order, and why no further page was. */
  datatype Visit = Visit(visited: seq<string>, end: WalkEnd)

  const MAX_MESSAGES_PER_PAGE := 500

  /** `_validate_page`: the page answers to the cursor asked for and is within the message budget. */
  predicate Admits(page: AuthorizedPage, cursor: string) {
    page.requested == cursor && |page.messages| <= MAX_MESSAGES_PER_PAGE
  }

  ghost predicate StepAt(m: map<string, AuthorizedPage>, cursors: seq<string>, i: nat)
    requires i + 1 < |cursors|
  {
    cursors[i] in m && m[cursors[i]].next == cursors[i + 1] && cursors[i + 1] != ""
  }

  /** Cursors met by following `next` from the empty cursor; all but the last are known pages. */
  ghost predicate Trail(m: map<string, AuthorizedPage>, cursors: seq<string>) {
    && cursors != [] && cursors[0] == ""
    && forall i :: 0 <= i < |cursors| - 1 ==> StepAt(m, cursors, i)
  }

  lemma TrailGrows(m: map<string, AuthorizedPage>, cursors: seq<string>, c: string)
    requires Trail(m, cursors) && cursors[|cursors| - 1] in m
    requires m[cursors[|cursors| - 1]].next == c && c != ""
    ensures Trail(m, cursors + [c])
  {
    forall i | 0 <= i < |cursors|
      ensures StepAt(m, cursors + [c], i)
    {
      assert i < |cursors| - 1 ==> StepAt(m, cursors, i);
    }
  }

  /** Every page but the first has at most one predecessor. */
  ghost predicate NextsDistinct(m: map<string, AuthorizedPage>) {
    forall c, d :: c in m && d in m && m[c].next == m[d].next && m[c].next != "" ==> c == d
  }

  lemma {:induction false} NoReturn(m: map<string, AuthorizedPage>, cursors: seq<string>, i: nat, j: nat)
    requires NextsDistinct(m) && Trail(m, cursors) && i < j < |cursors|
    ensures cursors[i] != cursors[j]
  {
    assert StepAt(m, cursors, j - 1);
    if i > 0 {
      assert StepAt(m, cursors, i - 1);
      NoReturn(m, cursors, i - 1, j - 1);
    }
  }

  lemma SubsetCount<T>(a: set<T>, b: set<T>)
    requires a <= b
    ensures |a| <= |b|
  {
    assert b == a + (b - a);
  }

  lemma DistinctKeysCount<T>(m: map<string, T>, keys: seq<string>)
    requires NoDuplicates(keys) && forall i :: 0 <= i < |keys| ==> keys[i] in m
    ensures |keys| <= |m|
  {
    DistinctCount(keys);
    SubsetCount(Elements(keys), m.Keys);
  }

  lemma TrailIsShort(m: map<string, AuthorizedPage>, cursors: seq<string>)
    requires NextsDistinct(m) && Trail(m, cursors)
    ensures NoDuplicates(cursors) && |cursors| <= |m| + 1
    ensures forall i :: 0 <= i < |cursors| - 1 ==> cursors[i] in m
  {
    forall i, j | 0 <= i < j < |cursors| {
      NoReturn(m, cursors, i, j);
    }
    forall i | 0 <= i < |cursors| - 1
      ensures cursors[i] in m
    {
      assert StepAt(m, cursors, i);
    }
    DistinctKeysCount(m, cursors[..|cursors| - 1]);
  }

  /** What becomes of asking for `cursor` next, with so many requests left. */
  function WalkFrom(m: map<string, AuthorizedPage>, cursor: string, visited: seq<string>, limit: nat): Visit
    decreases limit
  {
    if limit == 0 then Visit(visited, LimitReached)
    else if cursor !in m then Visit(visited, CursorNotSupplied)
    else if !Admits(m[cursor], cursor) then Visit(visited, PageRejected)
    else
      var page, met := m[cursor], visited + [cursor];
      if page.terminal then Visit(met, AtTerminal)
      else if page.next == "" then Visit(met, AtGap)
      else if page.next == cursor then Visit(met, Stalled)
      else WalkFrom(m, page.next, met, limit - 1)
  }

  function WalkOf(m: map<string, AuthorizedPage>, limit: nat): Visit {
    WalkFrom(m, "", [], limit)
  }

  /** Asks the page source for page after page, at most `limit` times, until one is terminal or has no next
      cursor, or cannot be had. */
  method Walk(m: map<string, AuthorizedPage>, limit: nat) returns (visited: seq<string>, end: WalkEnd)
    ensures Visit(visited, end) == WalkOf(m, limit)
  {
    visited := [];
    var cursor := "";
    for i := 0 to limit
      invariant WalkFrom(m, cursor, visited, limit - i) == WalkOf(m, limit)
    {
      if cursor !in m {
        return visited, CursorNotSupplied;
      }
      var page := m[cursor];
      if page.requested != cursor || |page.messages| > MAX_MESSAGES_PER_PAGE {
        return visited, PageRejected;
      }
      visited := visited + [cursor];
      if page.terminal {
        return visited, AtTerminal;
      }
      if page.next == "" {
        return visited, AtGap;
      }
      if page.next == cursor {
        return visited, Stalled;
      }
      cursor := page.next;
    }
    return visited, LimitReached;
  }

  /** No terminal page leads on. */
  ghost predicate TerminalsEnd(m: map<string, AuthorizedPage>) {
    forall c :: c in m && m[c].terminal ==> m[c].next == ""
  }

  /** What a walk is, seen as a trail through the map. */
  ghost predicate IsWalk(m: map<string, AuthorizedPage>, w: Visit) {
    && NoDuplicates(w.visited) && |w.visited| <= |m| && (forall c :: c in w.visited ==> c in m && Admits(m[c], c))
    && !w.end.Stalled?
    && (w.end.Finished() ==>
          && Trail(m, w.visited) && m[w.visited[|w.visited| - 1]].next == ""
          && (w.end.AtTerminal? <==> m[w.visited[|w.visited| - 1]].terminal))
    && (w.end.CursorNotSupplied? ==> exists c :: Trail(m, w.visited + [c]) && c !in m)
    && (w.end.PageRejected? ==> exists c :: Trail(m, w.visited + [c]) && c in m && !Admits(m[c], c))
    && (w.end.LimitReached? ==> exists c :: Trail(m, w.visited + [c]))
  }

  lemma {:induction false} WalkFromMeans(m: map<string, AuthorizedPage>, cursor: string, visited: seq<string>, limit: nat)
    requires NextsDistinct(m) && TerminalsEnd(m) && Trail(m, visited + [cursor])
    requires forall c :: c in visited ==> c in m && Admits(m[c], c)
    ensures IsWalk(m, WalkFrom(m, cursor, visited, limit))
    decreases limit
  {
    var trail := visited + [cursor];
    TrailIsShort(m, trail);
    assert forall i :: 0 <= i < |visited| ==> visited[i] == trail[i];
    if limit > 0 && cursor in m && Admits(m[cursor], cursor) {
      DistinctKeysCount(m, trail);
      var next := m[cursor].next;
      if next != "" {
        TrailGrows(m, trail, next);
        NoReturn(m, trail + [next], |visited|, |visited| + 1);
        WalkFromMeans(m, next, trail, limit - 1);
      }
    }
  }

  lemma WalkMeans(m: map<string, AuthorizedPage>, limit: nat)
    requires NextsDistinct(m) && TerminalsEnd(m)
    ensures IsWalk(m, WalkOf(m, limit))
  {
    assert [] + [""] == [""];
    WalkFromMeans(m, "", [], limit);
  }

  lemma {:induction false} WalkFromCount(m: map<string, AuthorizedPage>, cursor: string, visited: seq<string>, limit: nat)
    ensures WalkFrom(m, cursor, visited, limit).end.LimitReached? ==>
      |WalkFrom(m, cursor, visited, limit).visited| == |visited| + limit
    decreases limit
  {
    if limit > 0 && cursor in m {
      WalkFromCount(m, m[cursor].next, visited + [cursor], limit - 1);
    }
  }

  lemma VisitedLead(m: map<string, AuthorizedPage>, visited: seq<string>, c: string, i: nat)
    requires Trail(m, visited + [c]) && i < |visited|
    ensures visited[i] in m && m[visited[i]].next != ""
  {
    assert StepAt(m, visited + [c], i);
  }

  lemma AllKeysListed<T>(m: map<string, T>, keys: seq<string>, key: string)
    requires NoDuplicates(keys) && |keys| == |m| && forall c :: c in keys ==> c in m
    requires key in m
    ensures key in keys
  {
    if key !in keys {
      NoDuplicatesConcat(keys, [key]);
      DistinctKeysCount(m, keys + [key]);
    }
  }

  /** One request for each page is enough, where some page has no next cursor. */
  lemma LimitNotReached(m: map<string, AuthorizedPage>, limit: nat, last: string)
    requires NextsDistinct(m) && TerminalsEnd(m) && |m| <= limit
    requires last in m && m[last].next == ""
    ensures !WalkOf(m, limit).end.LimitReached?
  {
    var w := WalkOf(m, limit);
    WalkMeans(m, limit);
    WalkFromCount(m, "", [], limit);
    if w.end.LimitReached? {
      var c :| Trail(m, w.visited + [c]);
      AllKeysListed(m, w.visited, last);
      var i :| 0 <= i < |w.visited| && w.visited[i] == last;
      VisitedLead(m, w.visited, c, i);
    }
  }

  // ----- every walk, of any map of pages

  /** The page is taken and the walk goes on from it to `next`. */
  predicate GoesOn(m: map<string, AuthorizedPage>, cursor: string, next: string) {
    && cursor in m && m[cursor].requested == cursor && |m[cursor].messages| <= 500
    && !m[cursor].terminal && m[cursor].next == next && next != "" && next != cursor
  }

  /** The cursor a walk asks for after these. */
  function AskedNext(m: map<string, AuthorizedPage>, visited: seq<string>): string {
    if visited == [] then "" else
    var last := visited[|visited| - 1];
    if last in m then m[last].next else ""
  }

  predicate WentOnAt(m: map<string, AuthorizedPage>, visited: seq<string>, i: nat)
    requires i < |visited|
  {
    GoesOn(m, visited[i], if i < |visited| - 1 then visited[i + 1] else AskedNext(m, visited))
  }

  /** The walk goes on from each of these to the one after it. */
  predicate WentOn(m: map<string, AuthorizedPage>, visited: seq<string>, n: nat)
    requires n <= |visited|
  {
    && (visited != [] ==> visited[0] == "")
    && forall i :: 0 <= i < n ==> WentOnAt(m, visited, i)
  }

  /** Why a walk that asked for these cursors ends as it does. */
  predicate EndsSo(m: map<string, AuthorizedPage>, w: Visit, limit: nat) {
    var n := |w.visited|;
    if w.end.AtTerminal? || w.end.AtGap? || w.end.Stalled? then
      && n > 0 && WentOn(m, w.visited, n - 1)
      && var last := w.visited[n - 1];
      && last in m && m[last].requested == last && |m[last].messages| <= 500
      && (w.end.AtTerminal? <==> m[last].terminal) && (w.end.AtGap? <==> !m[last].terminal && m[last].next == "")
      && (w.end.Stalled? <==> !m[last].terminal && m[last].next != "" && m[last].next == last)
    else
      var asked := AskedNext(m, w.visited);
      && WentOn(m, w.visited, n)
      && (w.end.LimitReached? <==> n == limit)
      && (w.end.CursorNotSupplied? <==> n != limit && asked !in m)
      && (w.end.PageRejected? <==> n != limit && asked in m && (m[asked].requested != asked || |m[asked].messages| > 500))
  }

  lemma WentOnGrows(m: map<string, AuthorizedPage>, visited: seq<string>, cursor: string)
    requires WentOn(m, visited, |visited|) && cursor == AskedNext(m, visited)
    ensures WentOn(m, visited + [cursor], |visited|)
    ensures cursor in m && GoesOn(m, cursor, m[cursor].next) ==> WentOn(m, visited + [cursor], |visited| + 1)
  {
    var met := visited + [cursor];
    forall i | 0 <= i < |visited|
      ensures WentOnAt(m, met, i)
    {
      assert WentOnAt(m, visited, i);
    }
  }

  lemma {:induction false} WalkFromEnds(m: map<string, AuthorizedPage>, cursor: string, visited: seq<string>, limit: nat)
    requires WentOn(m, visited, |visited|) && cursor == AskedNext(m, visited)
    ensures EndsSo(m, WalkFrom(m, cursor, visited, limit), |visited| + limit)
    ensures |WalkFrom(m, cursor, visited, limit).visited| <= |visited| + limit
    decreases limit
  {
    if limit > 0 && cursor in m && Admits(m[cursor], cursor) {
      var met, next := visited + [cursor], m[cursor].next;
      WentOnGrows(m, visited, cursor);
      if !m[cursor].terminal && next != "" && next != cursor {
        WalkFromEnds(m, next, met, limit - 1);
      }
    }
  }

  /** Whatever the pages lead to, a walk starts at the empty cursor, goes from each page to the next one it names, and
      ends with the reason that applies there; it never takes more pages than there are requests. */
  lemma WalkEnds(m: map<string, AuthorizedPage>, limit: nat)
    ensures EndsSo(m, WalkOf(m, limit), limit) && |WalkOf(m, limit).visited| <= limit
  {
    WalkFromEnds(m, "", [], limit);
  }
}
