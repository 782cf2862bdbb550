/** What the adapter serves: who walks every page in order, and which contents are emitted. */
module PageAdapterLaws {
  import opened Basics
  import opened CalendarDates
  import opened MessageRows
  import opened PageChain
  import opened PageChainLaws
  import opened PageProjection
  import opened PageFields
  import opened PageAdapter

  // ----- audited rows are accepted by the second classification

  predicate NoNegativeSize(attachments: seq<Attachment>) {
    forall a :: a in attachments ==> a.size >= 0
  }

  /** A row whose attachments the export converts has no negative size among them. */
  predicate Exportable(r: Row) {
    r.identityOnly || NoNegativeSize(r.attachments)
  }

  function RawAttachments(attachments: seq<Attachment>): seq<RawAttachment> {
    seq(|attachments|, i requires 0 <= i < |attachments| => AsRawAttachment(attachments[i]))
  }

  /** The attachments as they are, but for a type where one is missing. */
  predicate ExportsAttachments(exported: seq<Attachment>, attachments: seq<Attachment>) {
    && |exported| == |attachments|
    && forall i :: 0 <= i < |attachments| ==>
         exported[i] == if attachments[i].mimeType != "" then attachments[i]
                        else attachments[i].(mimeType := "application/octet-stream")
  }

  lemma {:induction false} AttachmentsAccept(attachments: seq<Attachment>)
    requires forall a :: a in attachments ==> a.id != ""
    ensures ToAttachments(RawAttachments(attachments)).Ok? <==> NoNegativeSize(attachments)
    ensures ToAttachments(RawAttachments(attachments)).Ok? ==>
      ExportsAttachments(ToAttachments(RawAttachments(attachments)).value, attachments)
  {
    if attachments != [] {
      var first, rest := attachments[0], attachments[1..];
      assert attachments == [first] + rest;
      assert RawAttachments(attachments)[1..] == RawAttachments(rest);
      assert ToAttachment(AsRawAttachment(first)).Ok? <==> first.size >= 0;
      AttachmentsAccept(rest);
    }
  }

  /** An optional text as a plain one. */
  predicate Says(text: string, value: Option<string>) {
    value == Some(text) || (value == None && text == "")
  }

  /** A message is the row, field for field; an identity-only one comes without its attachments. */
  predicate Exports(m: Message, r: Row) {
    && m.id == r.id && m.identityOnly == r.identityOnly
    && Says(m.threadId, r.threadId) && Says(m.date, r.emailTs) && m.labels == r.labels
    && Says(m.subject, r.subject) && Says(m.sender, r.from) && Says(m.snippet, r.snippet)
    && (if r.identityOnly then m.attachments == [] else ExportsAttachments(m.attachments, r.attachments))
  }

  /** `_message` accepts an audited row exactly when it is identity-only or none of its attachments has a
      negative size; its identity-only flag is the audited status. */
  lemma MessageAccepts(stamp: Stamp, r: Row)
    requires Normal(stamp, r)
    ensures ToMessage(AsItem(r)).Ok? <==> Exportable(r)
    ensures ToMessage(AsItem(r)).Ok? ==> Exports(ToMessage(AsItem(r)).value, r) && r.identityOnly == r.status.IdentityOnly?
  {
    NonBlankTextsOfAll(r.labels);
    assert ExportsIdentityOnly(AsItem(r)) == r.identityOnly;
    AttachmentsAccept(r.attachments);
    assert AsItem(r).attachments == RawAttachments(r.attachments);
  }

  ghost predicate AllRowsNormal(stamp: Stamp, rows: seq<Row>) {
    forall r :: r in rows ==> Normal(stamp, r)
  }

  predicate AllExportable(rows: seq<Row>) {
    forall r :: r in rows ==> Exportable(r)
  }

  /** The messages are the rows, one for one. */
  predicate Exported(messages: seq<Message>, rows: seq<Row>) {
    |messages| == |rows| && forall i :: 0 <= i < |rows| ==> Exports(messages[i], rows[i])
  }

  lemma ExportedGrows(first: Message, rest: seq<Message>, rows: seq<Row>)
    requires rows != [] && Exports(first, rows[0])
    requires Exported(rest, rows[1..])
    ensures Exported([first] + rest, rows)
  {
    assert rows == [rows[0]] + rows[1..];
  }

  lemma {:induction false} MessagesAccept(stamp: Stamp, rows: seq<Row>)
    requires AllRowsNormal(stamp, rows)
    ensures ToMessages(AsItems(rows)).Ok? <==> AllExportable(rows)
    ensures ToMessages(AsItems(rows)).Ok? ==> Exported(ToMessages(AsItems(rows)).value, rows)
  {
    if rows != [] {
      var items, first, rest := AsItems(rows), rows[0], rows[1..];
      assert items[0] == AsItem(first) && items[1..] == AsItems(rest);
      assert rows == [first] + rest;
      MessageAccepts(stamp, first);
      MessagesAccept(stamp, rest);
      if ToMessages(items).Ok? {
        ExportedGrows(ToMessage(items[0]).value, ToMessages(items[1..]).value, rows);
      }
    }
  }

  // ----- the map of pages, as a list of cursors and a list of pages

  ghost predicate Files(m: map<string, AuthorizedPage>, keys: seq<string>, served: seq<AuthorizedPage>) {
    && |m| == |keys| == |served| && NoDuplicates(keys)
    && (forall c :: c in m <==> c in keys)
    && (forall i :: 0 <= i < |keys| ==> keys[i] in m && m[keys[i]] == served[i])
  }

  lemma FilesGrow(m: map<string, AuthorizedPage>, keys: seq<string>, served: seq<AuthorizedPage>, key: string, page: AuthorizedPage)
    requires Files(m, keys, served) && key !in m
    ensures Files(m[key := page], keys + [key], served + [page])
  {
    var all := keys + [key];
    forall i, j | 0 <= i < j < |all|
      ensures all[i] != all[j]
    {
      assert i < |keys| ==> keys[i] in m;
    }
  }

  /** A walk that met these cursors and stopped because the last page has no next one. */
  ghost predicate FinishedTrail(m: map<string, AuthorizedPage>, cursors: seq<string>) {
    Trail(m, cursors) && cursors[|cursors| - 1] in m && m[cursors[|cursors| - 1]].next == ""
  }

  ghost predicate NextsProper(served: seq<AuthorizedPage>) {
    && (forall i :: 0 <= i < |served| ==> (served[i].next == "" <==> i == |served| - 1))
    && (forall i, j :: 0 <= i < |served| && 0 <= j < |served| && i != j ==> served[i].next != served[j].next)
  }

  lemma FilesNextsDistinct(m: map<string, AuthorizedPage>, keys: seq<string>, served: seq<AuthorizedPage>)
    requires Files(m, keys, served) && NextsProper(served)
    ensures NextsDistinct(m)
  {
    forall c, d | c in m && d in m && m[c].next == m[d].next && m[c].next != ""
      ensures c == d
    {
      var i :| 0 <= i < |keys| && keys[i] == c;
      var j :| 0 <= j < |keys| && keys[j] == d;
      assert m[c] == served[i] && m[d] == served[j];
    }
  }

  ghost predicate Chained(keys: seq<string>, served: seq<AuthorizedPage>)
    requires |keys| == |served|
  {
    forall i :: 0 < i < |keys| ==> keys[i] == served[i - 1].next
  }

  lemma FollowsOrderIff(m: map<string, AuthorizedPage>, keys: seq<string>, served: seq<AuthorizedPage>)
    requires Files(m, keys, served) && NextsProper(served) && keys != [] && keys[0] == ""
    ensures FinishedTrail(m, keys) <==> Chained(keys, served)
  {
    forall i | 0 <= i < |keys| - 1
      ensures StepAt(m, keys, i) <==> keys[i + 1] == served[i].next
    {
      assert m[keys[i]] == served[i];
    }
    if FinishedTrail(m, keys) {
      forall i | 0 < i < |keys|
        ensures keys[i] == served[i - 1].next
      {
        assert StepAt(m, keys, i - 1);
      }
    }
    if Chained(keys, served) {
      forall i | 0 <= i < |keys| - 1
        ensures StepAt(m, keys, i)
      {
        assert keys[i + 1] == served[i].next;
      }
      assert m[keys[|keys| - 1]] == served[|keys| - 1];
    }
  }

  lemma ChainedKeysDistinct(keys: seq<string>, served: seq<AuthorizedPage>)
    requires |keys| == |served| && keys != [] && keys[0] == "" && NextsProper(served) && Chained(keys, served)
    ensures NoDuplicates(keys)
  {
    forall i, j | 0 <= i < j < |keys|
      ensures keys[i] != keys[j]
    {
      assert keys[j] == served[j - 1].next;
      if i > 0 {
        assert keys[i] == served[i - 1].next;
      }
    }
  }

  lemma {:induction false} TrailsAgree(m: map<string, AuthorizedPage>, a: seq<string>, b: seq<string>, n: nat)
    requires Trail(m, a) && Trail(m, b) && n < |a| && n < |b|
    ensures a[n] == b[n]
  {
    if n > 0 {
      TrailsAgree(m, a, b, n - 1);
      assert StepAt(m, a, n - 1) && StepAt(m, b, n - 1);
    }
  }

  lemma TrailReached(m: map<string, AuthorizedPage>, trail: seq<string>, walked: seq<string>, i: nat)
    requires FinishedTrail(m, trail) && Trail(m, walked) && i < |walked|
    ensures i < |trail| && walked[i] == trail[i]
    ensures walked[i] in m
  {
    var n := if |walked| < |trail| then |walked| else |trail|;
    forall k | 0 <= k < n
      ensures walked[k] == trail[k]
    {
      TrailsAgree(m, walked, trail, k);
    }
    assert |trail| < |walked| ==> StepAt(m, walked, |trail| - 1);
    assert i < |trail| - 1 ==> StepAt(m, trail, i);
  }

  lemma FinishedTrailsEqual(m: map<string, AuthorizedPage>, a: seq<string>, b: seq<string>)
    requires FinishedTrail(m, a) && FinishedTrail(m, b)
    ensures a == b
  {
    TrailReached(m, a, b, |b| - 1);
    TrailReached(m, b, a, |a| - 1);
    forall i | 0 <= i < |b|
      ensures b[i] == a[i]
    {
      TrailReached(m, a, b, i);
    }
  }

  /** The first place on the trail whose page is not admitted, or its length. */
  function FirstRefused(m: map<string, AuthorizedPage>, trail: seq<string>): (k: nat)
    ensures k <= |trail|
    ensures forall i :: 0 <= i < k ==> trail[i] in m && Admits(m[trail[i]], trail[i])
    ensures k < |trail| ==> !(trail[k] in m && Admits(m[trail[k]], trail[k]))
  {
    if trail == [] || !(trail[0] in m && Admits(m[trail[0]], trail[0])) then 0 else 1 + FirstRefused(m, trail[1..])
  }

  /** How a walk ends that comes to the end of this trail. */
  function EndOf(m: map<string, AuthorizedPage>, trail: seq<string>): WalkEnd
    requires FinishedTrail(m, trail)
  {
    if m[trail[|trail| - 1]].terminal then AtTerminal else AtGap
  }

  lemma {:induction false} WalkAlong(m: map<string, AuthorizedPage>, trail: seq<string>, i: nat, limit: nat)
    requires NextsDistinct(m) && TerminalsEnd(m) && FinishedTrail(m, trail)
    requires i <= FirstRefused(m, trail) && i < |trail| <= limit + i
    ensures WalkFrom(m, trail[i], trail[..i], limit) ==
            Visit(trail[..FirstRefused(m, trail)], if FirstRefused(m, trail) == |trail| then EndOf(m, trail) else PageRejected)
    decreases limit
  {
    assert i < |trail| - 1 ==> StepAt(m, trail, i);
    if i < FirstRefused(m, trail) {
      assert trail[..i + 1] == trail[..i] + [trail[i]];
      if i < |trail| - 1 {
        NoReturn(m, trail, i, i + 1);
        WalkAlong(m, trail, i + 1, limit - 1);
      }
    }
  }

  /** There is one finished trail at most. Given as many requests, the walk follows it up to the first page that is
      not admitted, and to its end where every page is: to coverage where the last page is terminal, to a gap where
      it is not. */
  lemma WalkIsTheTrail(m: map<string, AuthorizedPage>, trail: seq<string>, limit: nat)
    requires NextsDistinct(m) && TerminalsEnd(m) && FinishedTrail(m, trail) && |trail| <= limit
    ensures WalkOf(m, limit) ==
            Visit(trail[..FirstRefused(m, trail)], if FirstRefused(m, trail) == |trail| then EndOf(m, trail) else PageRejected)
    ensures forall other :: FinishedTrail(m, other) ==> other == trail
  {
    assert trail[..0] == [];
    WalkAlong(m, trail, 0, limit);
    forall other | FinishedTrail(m, other)
      ensures other == trail
    {
      FinishedTrailsEqual(m, trail, other);
    }
  }

  // ----- the lists a chain builds

  ghost predicate AllServed(pages: seq<Payload>, verified: bool) {
    forall i :: 0 <= i < |pages| ==> PageAt(pages, verified, i).Ok?
  }

  ghost function Served(pages: seq<Payload>, verified: bool): seq<AuthorizedPage>
    requires AllServed(pages, verified)
  {
    seq(|pages|, i requires 0 <= i < |pages| => PageAt(pages, verified, i).value)
  }

  ghost predicate FilingOutcome(r: Result<map<string, AuthorizedPage>, ChainError>, keys: seq<string>, served: seq<AuthorizedPage>) {
    && (r.Ok? <==> NoDuplicates(keys))
    && (r.Ok? ==> Files(r.value, keys, served))
  }

  lemma DuplicatesGrow(keys: seq<string>, key: string)
    ensures NoDuplicates(keys + [key]) <==> NoDuplicates(keys) && key !in keys
  {
    var all := keys + [key];
    if NoDuplicates(all) {
      forall i, j | 0 <= i < j < |keys|
        ensures keys[i] != keys[j]
      {
        assert all[i] != all[j];
      }
      forall i | 0 <= i < |keys|
        ensures keys[i] != key
      {
        assert all[i] != all[|keys|];
      }
    }
  }

  lemma {:induction false} FilesAll(keys: seq<string>, attempts: seq<Result<AuthorizedPage, ChainError>>,
                                    served: seq<AuthorizedPage>, n: nat)
    requires n <= |keys| == |attempts| == |served|
    requires forall i :: 0 <= i < |attempts| ==> attempts[i] == Ok(served[i])
    ensures FilingOutcome(FileUpTo(keys, attempts, n), keys[..n], served[..n])
  {
    if n > 0 {
      FilesAll(keys, attempts, served, n - 1);
      var prior, key, page := FileUpTo(keys, attempts, n - 1), keys[n - 1], served[n - 1];
      assert keys[..n] == keys[..n - 1] + [key] && served[..n] == served[..n - 1] + [page];
      DuplicatesGrow(keys[..n - 1], key);
      if prior.Ok? && key !in prior.value {
        FilesGrow(prior.value, keys[..n - 1], served[..n - 1], key, page);
      }
    }
  }

  lemma {:induction false} FilingNeedsAll(keys: seq<string>, attempts: seq<Result<AuthorizedPage, ChainError>>, n: nat)
    requires n <= |keys| == |attempts| && FileUpTo(keys, attempts, n).Ok?
    ensures forall i :: 0 <= i < n ==> attempts[i].Ok?
  {
    if n > 0 {
      FilingNeedsAll(keys, attempts, n - 1);
    }
  }

  lemma PageNext(pages: seq<Payload>, verified: bool, i: nat)
    requires i < |pages| && PageAt(pages, verified, i).Ok?
    ensures PageAt(pages, verified, i).value.next == NextAt(pages, verified, i)
  {
  }

  lemma NextsOfChain(pages: seq<Payload>, verified: bool)
    requires pages != [] && WellChained(pages) && AllServed(pages, verified)
    ensures NextsProper(Served(pages, verified))
  {
    forall i | 0 <= i < |pages|
      ensures Served(pages, verified)[i].next == if i == |pages| - 1 then "" else Next(pages[i]).token
    {
      PageNext(pages, verified, i);
    }
  }

  ghost predicate BridgedAt(pages: seq<Payload>, i: nat)
    requires 0 < i < |pages|
  {
    Requested(pages[i]).present ==> Requested(pages[i]).token == Next(pages[i - 1]).token
  }

  /** Wherever a page states the cursor it was requested with, it is its predecessor's next. */
  ghost predicate Bridged(pages: seq<Payload>) {
    forall i :: 0 < i < |pages| ==> BridgedAt(pages, i)
  }

  lemma BridgeAt(pages: seq<Payload>, verified: bool, i: nat)
    requires 0 < i < |pages| && PageAt(pages, verified, i - 1).Ok?
    ensures KeyAt(pages, i) == PageAt(pages, verified, i - 1).value.next <==> BridgedAt(pages, i)
  {
    PageNext(pages, verified, i - 1);
  }

  lemma BridgedIffChained(pages: seq<Payload>, verified: bool)
    requires pages != [] && AllServed(pages, verified)
    ensures Bridged(pages) <==> Chained(Keys(pages), Served(pages, verified))
  {
    var keys, served := Keys(pages), Served(pages, verified);
    forall i | 0 < i < |pages|
      ensures keys[i] == served[i - 1].next <==> BridgedAt(pages, i)
    {
      BridgeAt(pages, verified, i);
    }
  }

  // ----- main results

  function WithBody(rows: seq<Row>): seq<Row> {
    if rows == [] then [] else (if rows[0].body.Some? then [rows[0]] else []) + WithBody(rows[1..])
  }

  /** A content is the row's body, with whom it is from and to and what it is about. */
  predicate Gives(c: Content, r: Row) {
    c.id == r.id && Some(c.body) == r.body && Says(c.subject, r.subject) && Says(c.sender, r.from) && c.to == r.to
  }

  /** The contents are the bodies of the rows, one for one. */
  predicate Emits(contents: seq<Content>, rows: seq<Row>) {
    |contents| == |rows| && forall i :: 0 <= i < |rows| ==> Gives(contents[i], rows[i])
  }

  lemma {:induction false} ContentsAre(rows: seq<Row>, without: set<string>)
    requires forall r :: r in rows && r.body.Some? ==> r.id !in without
    requires forall r :: r in rows ==> NonBlank(r.to)
    ensures Emits(Contents(AsItems(rows), without), WithBody(rows))
  {
    if rows != [] {
      assert AsItems(rows)[1..] == AsItems(rows[1..]);
      assert rows[0] in rows && forall r :: r in rows[1..] ==> r in rows;
      NonBlankTextsOfAll(rows[0].to);
      ContentsAre(rows[1..], without);
    }
  }

  lemma {:induction false} WithBodyAre(rows: seq<Row>)
    requires forall i, j :: 0 <= i < j < |rows| ==> rows[i].id != rows[j].id
    ensures forall r :: r in WithBody(rows) <==> r in rows && r.body.Some?
    ensures NoDuplicates(IdsOf(WithBody(rows)))
  {
    if rows != [] {
      WithBodyAre(rows[1..]);
      assert rows == [rows[0]] + rows[1..];
      var rest := WithBody(rows[1..]);
      assert IdsOf(WithBody(rows)) == (if rows[0].body.Some? then [rows[0].id] else []) + IdsOf(rest);
      forall i | 0 <= i < |rest|
        ensures rest[i].id != rows[0].id
      {
        assert rest[i] in rows[1..];
      }
    }
  }

  lemma ExportedIdsDistinct(messages: seq<Message>, rows: seq<Row>)
    requires Exported(messages, rows)
    requires forall i, j :: 0 <= i < j < |rows| ==> rows[i].id != rows[j].id
    ensures NoDuplicates(MessageIds(messages))
  {
  }

  lemma BodiesNotWithheld(stamp: Stamp, messages: seq<Message>, rows: seq<Row>)
    requires Exported(messages, rows) && AllRowsNormal(stamp, rows)
    requires forall i, j :: 0 <= i < j < |rows| ==> rows[i].id != rows[j].id
    ensures forall r :: r in rows && r.body.Some? ==> r.id !in IdentityOnlyMessages(messages)
  {
    forall r | r in rows && r.body.Some?
      ensures r.id !in IdentityOnlyMessages(messages)
    {
      var k :| 0 <= k < |rows| && rows[k] == r;
      assert Normal(stamp, r);
      assert forall i :: 0 <= i < |rows| && rows[i].id == r.id ==> i == k;
    }
  }

  /** What a served page holds: its rows as messages, and the body of every row that has one. */
  predicate ServesRows(page: AuthorizedPage, rows: seq<Row>) {
    Exported(page.messages, rows) && Emits(page.contents, WithBody(rows))
  }

  /** One page of distinct audited rows is served exactly when every row can be exported and the page is not
      terminal with a next cursor; it is then served whole. */
  lemma PageServed(stamp: Stamp, p: Payload, rows: seq<Row>, requested: string, next: string, terminal: bool)
    requires p.messages == AsItems(rows) && AllRowsNormal(stamp, rows)
    requires forall i, j :: 0 <= i < j < |rows| ==> rows[i].id != rows[j].id
    ensures ToPage(p, requested, next, terminal).Ok? <==> AllExportable(rows) && !(terminal && next != "")
    ensures ToPage(p, requested, next, terminal).Ok? ==> ServesRows(ToPage(p, requested, next, terminal).value, rows)
  {
    MessagesAccept(stamp, rows);
    if AllExportable(rows) {
      var messages := ToMessages(p.messages).value;
      ExportedIdsDistinct(messages, rows);
      BodiesNotWithheld(stamp, messages, rows);
      ContentsAre(rows, IdentityOnlyMessages(messages));
    }
  }

  lemma PageOfChainServed(stamp: Stamp, pages: seq<Payload>, t: Tally, verified: bool, k: nat)
    requires Filed(stamp, t) && k < |pages| && WellChained(Rewritten(pages, t))
    ensures PageAt(Rewritten(pages, t), verified, k).Ok? <==> AllExportable(PageRows(t, k))
    ensures PageAt(Rewritten(pages, t), verified, k).Ok? ==>
      ServesRows(PageAt(Rewritten(pages, t), verified, k).value, PageRows(t, k))
  {
    var out, rows := Rewritten(pages, t), PageRows(t, k);
    PageRowsAre(stamp, t, k);
    assert AllRowsNormal(stamp, rows);
    PageServed(stamp, out[k], rows, KeyAt(out, k), NextAt(out, verified, k), TerminalAt(out, verified, k));
  }

  /** The size condition as it can be read off the pages: only identity-only messages carry a negative size. */
  predicate SizeAllowed(item: Item) {
    item.identityOnly || forall a :: a in item.attachments ==> !(a.sizeBytes.Given? && a.sizeBytes.given < 0)
  }

  predicate SizesAllowedOn(p: Payload) {
    forall item :: item in p.messages ==> SizeAllowed(item)
  }

  predicate SizesAllowed(pages: seq<Payload>) {
    forall i :: 0 <= i < |pages| ==> SizesAllowedOn(pages[i])
  }

  lemma SizeAllowedIsExportable(r: Row)
    ensures SizeAllowed(AsItem(r)) <==> Exportable(r)
  {
    var raws := AsItem(r).attachments;
    assert forall i :: 0 <= i < |r.attachments| ==> raws[i] == AsRawAttachment(r.attachments[i]) && r.attachments[i] in r.attachments;
    if SizeAllowed(AsItem(r)) && !r.identityOnly {
      forall a | a in r.attachments
        ensures a.size >= 0
      {
        var i :| 0 <= i < |r.attachments| && r.attachments[i] == a;
        assert raws[i] in raws;
      }
    }
  }

  lemma SizesAllowedIsExportable(p: Payload, rows: seq<Row>)
    requires p.messages == AsItems(rows)
    ensures SizesAllowedOn(p) <==> AllExportable(rows)
  {
    forall r {
      SizeAllowedIsExportable(r);
    }
    assert forall i :: 0 <= i < |rows| ==> p.messages[i] == AsItem(rows[i]) && p.messages[i] in p.messages && rows[i] in rows;
    if SizesAllowedOn(p) {
      forall r | r in rows
        ensures Exportable(r)
      {
        var i :| 0 <= i < |rows| && rows[i] == r;
        assert p.messages[i] in p.messages;
      }
    }
  }

  /** The facts about an audited chain that its adapter depends on. */
  lemma AuditedChain(stamp: Stamp, pages: seq<Payload>)
    requires Audit(stamp, pages).Ok?
    ensures var c, t := Audit(stamp, pages).value, AbsorbAll(stamp, Sights(pages));
      && t.Ok? && Filed(stamp, t.value) && c.pages == Rewritten(pages, t.value) && |c.pages| == |pages| > 0
      && WellChained(c.pages) && ManifestFault(c.pages).None?
      && c.report == ReportOf(pages, Linked(c.pages), t.value, Denied(pages))
  {
    AuditAcceptsIff(stamp, pages);
    var c, t := Audit(stamp, pages).value, AbsorbAll(stamp, Sights(pages)).value;
    DescribedIsFiled(stamp, ReadAll(stamp, Sights(pages)), t);
    AuditTwice(stamp, pages);
    AuditAcceptsIff(stamp, c.pages);
    RewrittenAccepted(pages, t);
  }

  lemma RewrittenServedIff(stamp: Stamp, pages: seq<Payload>, t: Tally, verified: bool)
    requires Filed(stamp, t) && pages != [] && WellChained(Rewritten(pages, t))
    ensures AllServed(Rewritten(pages, t), verified) <==> SizesAllowed(Rewritten(pages, t))
  {
    var out := Rewritten(pages, t);
    forall i | 0 <= i < |pages|
      ensures PageAt(out, verified, i).Ok? <==> SizesAllowedOn(out[i])
    {
      PageOfChainServed(stamp, pages, t, verified, i);
      SizesAllowedIsExportable(out[i], PageRows(t, i));
    }
  }

  /** Every page is served exactly when the sizes on all of them are allowed. */
  lemma ChainServedIff(stamp: Stamp, pages: seq<Payload>, verified: bool)
    requires Audit(stamp, pages).Ok?
    ensures AllServed(Audit(stamp, pages).value.pages, verified) <==> SizesAllowed(Audit(stamp, pages).value.pages)
  {
    AuditedChain(stamp, pages);
    RewrittenServedIff(stamp, pages, AbsorbAll(stamp, Sights(pages)).value, verified);
  }

  /** A revision may be absent, but not null or empty. */
  predicate RevisionGiven(e: Entry<string>) {
    e.Absent? || EntryText(e) != ""
  }

  /** What the read manifest demands beyond a query and an account. */
  predicate ManifestLawful(calendar: Calendar, p: Payload) {
    RevisionGiven(p.authorizationRevision) && RevisionGiven(p.policyRevision) &&
    (EntryText(p.authorizedFrom) == "" || calendar(EntryText(p.authorizedFrom)))
  }

  predicate Opens(c: Chain, allowUnverifiedPartial: bool) {
    if c.report.lastPageTerminal then c.report.cursorChainVerified else allowUnverifiedPartial
  }

  function FiledPages(pages: seq<Payload>, verified: bool): Result<map<string, AuthorizedPage>, ChainError> {
    FileUpTo(Keys(pages), Attempts(pages, verified), |pages|)
  }

  lemma BuildIsFiling(stamp: Stamp, calendar: Calendar, pages: seq<Payload>, allow: bool)
    requires Audit(stamp, pages).Ok?
    ensures var c := Audit(stamp, pages).value; var v := c.report.cursorChainVerified;
      c.pages != [] &&
      if Opens(c, allow) && ManifestLawful(calendar, c.pages[0]) then
        Build(calendar, c, allow) == FiledPages(c.pages, v)
      else Build(calendar, c, allow).Err?
  {
    AuditedChain(stamp, pages);
    var first := Audit(stamp, pages).value.pages[0];
    assert ManifestOf(first).query != "" && ManifestOf(first).account != "";
    assert ManifestRejection(calendar, first).None? <==> ManifestLawful(calendar, first);
  }

  lemma FilingServes(keys: seq<string>, attempts: seq<Result<AuthorizedPage, ChainError>>, served: seq<AuthorizedPage>)
    requires |keys| == |attempts| == |served| > 0 && keys[0] == ""
    requires forall i :: 0 <= i < |attempts| ==> attempts[i] == Ok(served[i])
    requires NextsProper(served)
    ensures var r := FileUpTo(keys, attempts, |keys|);
      && (r.Ok? <==> NoDuplicates(keys))
      && (r.Ok? ==>
           && Files(r.value, keys, served)
           && NextsDistinct(r.value) && (FinishedTrail(r.value, keys) <==> Chained(keys, served)))
  {
    FilesAll(keys, attempts, served, |keys|);
    assert keys[..|keys|] == keys && served[..|keys|] == served;
    var r := FileUpTo(keys, attempts, |keys|);
    if r.Ok? {
      FilesNextsDistinct(r.value, keys, served);
      FollowsOrderIff(r.value, keys, served);
    }
  }

  lemma {:induction false} MessagesCount(items: seq<Item>)
    requires ToMessages(items).Ok?
    ensures |ToMessages(items).value| == |items|
  {
    if items != [] {
      MessagesCount(items[1..]);
    }
  }

  /** The page filed under the `i`th key answers to it, carries as many messages as the `i`th page, leads where that
      page leads, and is terminal exactly when that page is and the chain is verified. */
  ghost predicate Answers(m: map<string, AuthorizedPage>, pages: seq<Payload>, verified: bool, i: nat)
    requires i < |pages|
  {
    var key := KeyAt(pages, i);
    && key in m && m[key].requested == key && |m[key].messages| == |pages[i].messages|
    && m[key].next == (if i == |pages| - 1 then "" else Next(pages[i]).token)
    && (m[key].terminal <==> pages[i].terminal && verified)
  }

  /** The map holds one entry per page; no two entries lead to the same page, so no walk can go in a circle; and
      the walk visits every page once, in supplied order, and stops, exactly when every stated cursor is its
      predecessor's next one. */
  ghost predicate ServesChain(m: map<string, AuthorizedPage>, pages: seq<Payload>, verified: bool) {
    && |m| == |pages| && (forall k :: k in m <==> k in Keys(pages))
    && (forall i :: 0 <= i < |pages| ==> Answers(m, pages, verified, i))
    && NextsDistinct(m) && TerminalsEnd(m) && (FinishedTrail(m, Keys(pages)) <==> Bridged(pages))
  }

  lemma FilesAnswer(m: map<string, AuthorizedPage>, pages: seq<Payload>, verified: bool, i: nat)
    requires pages != [] && WellChained(pages)
    requires AllServed(pages, verified) && Files(m, Keys(pages), Served(pages, verified)) && i < |pages|
    ensures Answers(m, pages, verified, i)
  {
    assert Keys(pages)[i] == KeyAt(pages, i) && Served(pages, verified)[i] == PageAt(pages, verified, i).value;
    MessagesCount(pages[i].messages);
  }

  lemma PageTerminalEnds(pages: seq<Payload>, verified: bool, i: nat)
    requires i < |pages| && PageAt(pages, verified, i).Ok? && PageAt(pages, verified, i).value.terminal
    ensures PageAt(pages, verified, i).value.next == ""
  {
  }

  lemma FilesTerminalsEnd(m: map<string, AuthorizedPage>, pages: seq<Payload>, verified: bool)
    requires AllServed(pages, verified) && Files(m, Keys(pages), Served(pages, verified))
    ensures TerminalsEnd(m)
  {
    var keys, served := Keys(pages), Served(pages, verified);
    forall c | c in m && m[c].terminal
      ensures m[c].next == ""
    {
      var i :| 0 <= i < |keys| && keys[i] == c;
      assert served[i] == PageAt(pages, verified, i).value;
      PageTerminalEnds(pages, verified, i);
    }
  }

  lemma ServedChainFiles(pages: seq<Payload>, verified: bool)
    requires pages != [] && WellChained(pages) && AllServed(pages, verified)
    ensures FiledPages(pages, verified).Ok? <==> NoDuplicates(Keys(pages))
    ensures FiledPages(pages, verified).Ok? ==>
      && ServesChain(FiledPages(pages, verified).value, pages, verified)
      && Files(FiledPages(pages, verified).value, Keys(pages), Served(pages, verified))
  {
    var keys, served, r := Keys(pages), Served(pages, verified), FiledPages(pages, verified);
    NextsOfChain(pages, verified);
    BridgedIffChained(pages, verified);
    FilingServes(keys, Attempts(pages, verified), served);
    if r.Ok? {
      FilesTerminalsEnd(r.value, pages, verified);
      forall i | 0 <= i < |pages|
        ensures Answers(r.value, pages, verified, i)
      {
        FilesAnswer(r.value, pages, verified, i);
      }
    }
  }

  lemma FiledIsServed(pages: seq<Payload>, verified: bool)
    requires FiledPages(pages, verified).Ok?
    ensures AllServed(pages, verified)
  {
    var attempts := Attempts(pages, verified);
    FilingNeedsAll(Keys(pages), attempts, |pages|);
    assert forall i :: 0 <= i < |pages| ==> attempts[i] == PageAt(pages, verified, i);
  }

  /** What filing the pages of an audited chain yields. */
  lemma ChainFiles(stamp: Stamp, pages: seq<Payload>, verified: bool)
    requires Audit(stamp, pages).Ok?
    ensures var out := Audit(stamp, pages).value.pages;
      FiledPages(out, verified).Ok? <==> SizesAllowed(out) && NoDuplicates(Keys(out))
    ensures var out := Audit(stamp, pages).value.pages;
      FiledPages(out, verified).Ok? ==> ServesChain(FiledPages(out, verified).value, out, verified)
  {
    AuditedChain(stamp, pages);
    var out := Audit(stamp, pages).value.pages;
    ChainServedIff(stamp, pages, verified);
    if AllServed(out, verified) {
      ServedChainFiles(out, verified);
    } else if FiledPages(out, verified).Ok? {
      FiledIsServed(out, verified);
    }
  }

  /** The adapter of an audited chain opens exactly when the chain is complete, or is partial and a
      partial import is allowed, its manifest is lawful, no size is refused, and no two pages claim one cursor. */
  lemma AdapterServes(stamp: Stamp, calendar: Calendar, pages: seq<Payload>, allow: bool)
    requires Audit(stamp, pages).Ok?
    ensures Audit(stamp, pages).value.pages != []
    ensures var c := Audit(stamp, pages).value;
      Build(calendar, c, allow).Ok? <==>
        Opens(c, allow) && ManifestLawful(calendar, c.pages[0]) && SizesAllowed(c.pages) && NoDuplicates(Keys(c.pages))
    ensures var c := Audit(stamp, pages).value;
      Build(calendar, c, allow).Ok? ==> ServesChain(Build(calendar, c, allow).value, c.pages, c.report.cursorChainVerified)
  {
    BuildIsFiling(stamp, calendar, pages, allow);
    ChainFiles(stamp, pages, Audit(stamp, pages).value.report.cursorChainVerified);
  }

  lemma VerifiedIsBridged(pages: seq<Payload>)
    requires Linked(pages)
    ensures Bridged(pages)
  {
    LinkedMeaning(pages, |pages|);
    forall i | 0 < i < |pages|
      ensures Requested(pages[i]).token == Next(pages[i - 1]).token
    {
      assert LinkedAt(pages, i);
    }
  }

  lemma VerifiedKeysDistinct(stamp: Stamp, pages: seq<Payload>)
    requires Audit(stamp, pages).Ok? && Audit(stamp, pages).value.report.cursorChainVerified
    requires SizesAllowed(Audit(stamp, pages).value.pages)
    ensures var c := Audit(stamp, pages).value; Bridged(c.pages) && NoDuplicates(Keys(c.pages))
  {
    AuditedChain(stamp, pages);
    var c := Audit(stamp, pages).value;
    VerifiedIsBridged(c.pages);
    ChainServedIff(stamp, pages, true);
    NextsOfChain(c.pages, true);
    BridgedIffChained(c.pages, true);
    ChainedKeysDistinct(Keys(c.pages), Served(c.pages, true));
  }

  /** The first page over the message budget, or the number of pages. */
  function FirstOver(pages: seq<Payload>): (k: nat)
    ensures k <= |pages|
    ensures forall i :: 0 <= i < k ==> |pages[i].messages| <= MAX_MESSAGES_PER_PAGE
    ensures k < |pages| ==> |pages[k].messages| > MAX_MESSAGES_PER_PAGE
  {
    if pages == [] || |pages[0].messages| > MAX_MESSAGES_PER_PAGE then 0 else 1 + FirstOver(pages[1..])
  }

  /** The walk of all these cursors, to coverage or to a gap, or up to one whose page is rejected. */
  function WalkTo(keys: seq<string>, over: nat, covered: bool): Visit
    requires over <= |keys|
  {
    Visit(keys[..over], if over < |keys| then PageRejected else if covered then AtTerminal else AtGap)
  }

  /** The walk of pages that lead from one to the next: up to the first page over the budget, or to the end,
      which is covered when the last page is terminal and the chain is verified. */
  function OrderedWalk(pages: seq<Payload>, verified: bool): Visit
    requires pages != []
  {
    WalkTo(Keys(pages), FirstOver(pages), pages[|pages| - 1].terminal && verified)
  }

  /** Asking for the cursor of a filed page, the adapter admits it exactly when it is within the message budget. */
  lemma PageAdmittedIff(m: map<string, AuthorizedPage>, pages: seq<Payload>, verified: bool, i: nat)
    requires ServesChain(m, pages, verified) && i < |pages|
    ensures var key := Keys(pages)[i];
      key in m && (Admits(m[key], key) <==> |pages[i].messages| <= MAX_MESSAGES_PER_PAGE)
  {
    assert Answers(m, pages, verified, i);
  }

  lemma ChainAdmittedIff(m: map<string, AuthorizedPage>, pages: seq<Payload>, verified: bool)
    requires ServesChain(m, pages, verified)
    ensures (forall c :: c in Keys(pages) ==> c in m && Admits(m[c], c)) <==>
            (forall i :: 0 <= i < |pages| ==> |pages[i].messages| <= MAX_MESSAGES_PER_PAGE)
  {
    var keys := Keys(pages);
    forall i | 0 <= i < |pages|
      ensures keys[i] in keys && keys[i] in m && (Admits(m[keys[i]], keys[i]) <==> |pages[i].messages| <= MAX_MESSAGES_PER_PAGE)
    {
      PageAdmittedIff(m, pages, verified, i);
    }
  }

  lemma RefusedIsOver(m: map<string, AuthorizedPage>, pages: seq<Payload>, verified: bool)
    requires ServesChain(m, pages, verified)
    ensures FirstRefused(m, Keys(pages)) == FirstOver(pages)
  {
    var keys, k, n := Keys(pages), FirstRefused(m, Keys(pages)), FirstOver(pages);
    if k < |pages| {
      PageAdmittedIff(m, pages, verified, k);
    }
    if n < |pages| {
      PageAdmittedIff(m, pages, verified, n);
    }
  }

  lemma EndIsCovered(m: map<string, AuthorizedPage>, pages: seq<Payload>, verified: bool)
    requires pages != [] && ServesChain(m, pages, verified) && FinishedTrail(m, Keys(pages))
    ensures EndOf(m, Keys(pages)) == if pages[|pages| - 1].terminal && verified then AtTerminal else AtGap
  {
    assert Answers(m, pages, verified, |pages| - 1);
  }

  lemma BridgedWalk(m: map<string, AuthorizedPage>, pages: seq<Payload>, verified: bool)
    requires pages != [] && ServesChain(m, pages, verified) && Bridged(pages)
    ensures WalkOf(m, |pages|) == OrderedWalk(pages, verified)
  {
    RefusedIsOver(m, pages, verified);
    EndIsCovered(m, pages, verified);
    WalkIsTheTrail(m, Keys(pages), |pages|);
  }

  /** Every walk of the pages of a served chain, with one request for each page, comes to the end of its trail: at
      a page without a next cursor, at a cursor no page has, or at a page that is not admitted. Where the pages
      lead from one to the next it is the ordered walk. */
  lemma ChainWalked(m: map<string, AuthorizedPage>, pages: seq<Payload>, verified: bool)
    requires pages != [] && ServesChain(m, pages, verified)
    ensures var w := WalkOf(m, |pages|); IsWalk(m, w) && !w.end.LimitReached?
    ensures Bridged(pages) ==> WalkOf(m, |pages|) == OrderedWalk(pages, verified)
  {
    var last := |pages| - 1;
    assert Answers(m, pages, verified, last);
    WalkMeans(m, |pages|);
    LimitNotReached(m, |pages|, KeyAt(pages, last));
    if Bridged(pages) {
      BridgedWalk(m, pages, verified);
    }
  }

  ghost predicate CoversAt(m: map<string, AuthorizedPage>, pages: seq<Payload>, complete: bool, i: nat)
    requires i < |pages|
  {
    KeyAt(pages, i) in m && (m[KeyAt(pages, i)].terminal <==> i == |pages| - 1 && complete)
  }

  /** The last page is filed as a terminal one where the coverage is complete, and no other page ever is. */
  ghost predicate OnlyLastCovers(m: map<string, AuthorizedPage>, pages: seq<Payload>, complete: bool) {
    forall i :: 0 <= i < |pages| ==> CoversAt(m, pages, complete, i)
  }

  lemma OnlyLastTerminal(pages: seq<Payload>)
    requires pages != [] && WellChained(pages)
    ensures forall i :: 0 <= i < |pages| - 1 ==> !pages[i].terminal
  {
  }

  lemma CoversHere(m: map<string, AuthorizedPage>, pages: seq<Payload>, verified: bool, i: nat)
    requires i < |pages| && (i < |pages| - 1 ==> !pages[i].terminal) && Answers(m, pages, verified, i)
    ensures CoversAt(m, pages, pages[|pages| - 1].terminal && verified, i)
  {
  }

  lemma ChainCovers(m: map<string, AuthorizedPage>, pages: seq<Payload>, verified: bool)
    requires pages != [] && (forall i :: 0 <= i < |pages| - 1 ==> !pages[i].terminal) && ServesChain(m, pages, verified)
    ensures OnlyLastCovers(m, pages, pages[|pages| - 1].terminal && verified)
  {
    var complete := pages[|pages| - 1].terminal && verified;
    forall i | 0 <= i < |pages|
      ensures CoversAt(m, pages, complete, i)
    {
      CoversHere(m, pages, verified, i);
    }
  }

  /** The audit reports complete coverage exactly for a verified chain whose last rewritten page is terminal. */
  lemma CompleteIff(stamp: Stamp, pages: seq<Payload>)
    requires Audit(stamp, pages).Ok?
    ensures var c := Audit(stamp, pages).value;
      && c.pages != [] && WellChained(c.pages)
      && c.report.lastPageTerminal == c.pages[|c.pages| - 1].terminal
      && (c.report.status == Complete <==> c.pages[|c.pages| - 1].terminal && c.report.cursorChainVerified)
  {
    AuditedChain(stamp, pages);
  }

  lemma VerifiedChainWalked(stamp: Stamp, pages: seq<Payload>, m: map<string, AuthorizedPage>)
    requires Audit(stamp, pages).Ok? && Audit(stamp, pages).value.report.cursorChainVerified
    requires var c := Audit(stamp, pages).value; ServesChain(m, c.pages, true) && Bridged(c.pages)
    ensures var c := Audit(stamp, pages).value;
      && c.pages != [] && FinishedTrail(m, Keys(c.pages)) && OnlyLastCovers(m, c.pages, c.report.status == Complete)
      && WalkOf(m, |c.pages|) == WalkTo(Keys(c.pages), FirstOver(c.pages), c.report.status == Complete)
  {
    CompleteIff(stamp, pages);
    var c := Audit(stamp, pages).value;
    OnlyLastTerminal(c.pages);
    ChainCovers(m, c.pages, true);
    ChainWalked(m, c.pages, true);
  }

  /** Walk completeness. The adapter of a verified chain is never refused for a duplicate cursor: it opens exactly
      when the chain is complete or partial imports are allowed, the manifest is lawful and no size is refused.
      Its walk, with one request for each page, then takes the pages in order up to the first one over the message
      budget, where it is rejected; it takes all of them, and finishes, exactly when no page is. The page filed last
      is terminal exactly when the report is complete, and no other one is; so a walk that finishes covers the query
      exactly when the report says so, and otherwise ends at a gap. */
  lemma VerifiedWalk(stamp: Stamp, calendar: Calendar, pages: seq<Payload>, allow: bool)
    requires Audit(stamp, pages).Ok? && Audit(stamp, pages).value.report.cursorChainVerified
    ensures Audit(stamp, pages).value.pages != []
    ensures var c := Audit(stamp, pages).value;
      Build(calendar, c, allow).Ok? <==>
        (c.report.lastPageTerminal || allow) && ManifestLawful(calendar, c.pages[0]) && SizesAllowed(c.pages)
    ensures var c := Audit(stamp, pages).value;
      Build(calendar, c, allow).Ok? ==> (
        var m := Build(calendar, c, allow).value;
        && ServesChain(m, c.pages, true) && FinishedTrail(m, Keys(c.pages))
        && OnlyLastCovers(m, c.pages, c.report.status == Complete))
    ensures var c := Audit(stamp, pages).value;
      Build(calendar, c, allow).Ok? ==>
        WalkOf(Build(calendar, c, allow).value, |c.pages|) ==
        WalkTo(Keys(c.pages), FirstOver(c.pages), c.report.status == Complete)
  {
    AdapterServes(stamp, calendar, pages, allow);
    var c := Audit(stamp, pages).value;
    if SizesAllowed(c.pages) {
      VerifiedKeysDistinct(stamp, pages);
    }
    if Build(calendar, c, allow).Ok? {
      VerifiedChainWalked(stamp, pages, Build(calendar, c, allow).value);
    }
  }

  // ----- bodies are emitted exactly once

  ghost function ContentCount(served: seq<AuthorizedPage>): nat {
    if served == [] then 0 else ContentCount(served[..|served| - 1]) + |served[|served| - 1].contents|
  }

  ghost function BodyIdsUpTo(t: Tally, n: nat): set<string>
    requires forall id :: id in t.merged ==> id in t.firstPage
  {
    set id | id in t.merged && t.merged[id].body.Some? && t.firstPage[id] < n
  }

  lemma BodiesHere(stamp: Stamp, t: Tally, k: nat)
    requires Filed(stamp, t)
    ensures var here := IdsOf(WithBody(PageRows(t, k)));
      NoDuplicates(here) &&
      forall id :: id in here <==> id in t.merged && t.merged[id].body.Some? && t.firstPage[id] == k
  {
    PageRowsAre(stamp, t, k);
    var rows := WithBody(PageRows(t, k));
    WithBodyAre(PageRows(t, k));
    forall id
      ensures id in IdsOf(rows) <==> id in t.merged && t.merged[id].body.Some? && t.firstPage[id] == k
    {
      IdListed(rows, id);
      if id in t.merged && t.merged[id].body.Some? && t.firstPage[id] == k {
        assert t.merged[id] in rows;
      }
    }
  }

  lemma CountSplit<T>(all: set<T>, a: set<T>, b: set<T>)
    requires forall x :: x in all <==> x in a || x in b
    requires forall x :: x in a ==> x !in b
    ensures |all| == |a| + |b|
  {
    assert all == a + b && a * b == {};
  }

  lemma BodiesOfPage(stamp: Stamp, t: Tally, k: nat)
    requires Filed(stamp, t)
    ensures |BodyIdsUpTo(t, k + 1)| == |BodyIdsUpTo(t, k)| + |WithBody(PageRows(t, k))|
  {
    BodiesHere(stamp, t, k);
    var ids := IdsOf(WithBody(PageRows(t, k)));
    DistinctCount(ids);
    CountSplit(BodyIdsUpTo(t, k + 1), BodyIdsUpTo(t, k), Elements(ids));
  }

  lemma ContentsOfPage(stamp: Stamp, pages: seq<Payload>, t: Tally, verified: bool, k: nat)
    requires Filed(stamp, t) && k < |pages| && WellChained(Rewritten(pages, t)) && PageAt(Rewritten(pages, t), verified, k).Ok?
    ensures |BodyIdsUpTo(t, k + 1)| == |BodyIdsUpTo(t, k)| + |PageAt(Rewritten(pages, t), verified, k).value.contents|
  {
    PageOfChainServed(stamp, pages, t, verified, k);
    BodiesOfPage(stamp, t, k);
  }

  lemma ContentCountGrows(served: seq<AuthorizedPage>, n: nat)
    requires n < |served|
    ensures ContentCount(served[..n + 1]) == ContentCount(served[..n]) + |served[n].contents|
  {
    assert served[..n + 1][..n] == served[..n];
  }

  lemma {:induction false} ContentsUpTo(stamp: Stamp, pages: seq<Payload>, t: Tally, verified: bool, n: nat)
    requires Filed(stamp, t) && pages != [] && n <= |pages| && WellChained(Rewritten(pages, t)) && AllServed(Rewritten(pages, t), verified)
    ensures ContentCount(Served(Rewritten(pages, t), verified)[..n]) == |BodyIdsUpTo(t, n)|
  {
    if n == 0 {
      assert BodyIdsUpTo(t, 0) == {};
    } else {
      ContentsUpTo(stamp, pages, t, verified, n - 1);
      ContentCountGrows(Served(Rewritten(pages, t), verified), n - 1);
      ContentsOfPage(stamp, pages, t, verified, n - 1);
    }
  }

  lemma ContentsOfAll(stamp: Stamp, pages: seq<Payload>, t: Tally, verified: bool)
    requires Filed(stamp, t) && pages != [] && WellChained(Rewritten(pages, t)) && AllServed(Rewritten(pages, t), verified)
    requires forall id :: id in t.merged ==> t.firstPage[id] < |pages|
    ensures ContentCount(Served(Rewritten(pages, t), verified)) == |BodyIds(t)|
  {
    ContentsUpTo(stamp, pages, t, verified, |pages|);
    var served := Served(Rewritten(pages, t), verified);
    assert served[..|pages|] == served;
    assert BodyIdsUpTo(t, |pages|) == BodyIds(t);
  }

  lemma BodiesAreNotIdentityOnly(stamp: Stamp, t: Tally)
    requires Filed(stamp, t)
    ensures BodyIds(t) !! IdentityOnlyIds(t)
  {
    forall id | id in BodyIds(t)
      ensures id !in IdentityOnlyIds(t)
    {
      assert Normal(stamp, t.merged[id]);
    }
  }

  /** All pages are served exactly when no size is refused. Over all of them the contents emitted then number
      exactly the report's content-bearing messages, none of which is identity-only. */
  lemma ContentsEmitted(stamp: Stamp, pages: seq<Payload>, verified: bool)
    requires Audit(stamp, pages).Ok?
    ensures var c := Audit(stamp, pages).value;
      AllServed(c.pages, verified) <==> SizesAllowed(c.pages)
    ensures var c := Audit(stamp, pages).value;
      SizesAllowed(c.pages) ==> ContentCount(Served(c.pages, verified)) == c.report.contentBearingCount
    ensures AbsorbAll(stamp, Sights(pages)).Ok?
    ensures var t := AbsorbAll(stamp, Sights(pages)).value;
      BodyIds(t) !! IdentityOnlyIds(t)
  {
    AuditedChain(stamp, pages);
    ChainServedIff(stamp, pages, verified);
    AuditAcceptsIff(stamp, pages);
    var t := AbsorbAll(stamp, Sights(pages)).value;
    KeptOnPages(stamp, pages, t);
    if SizesAllowed(Audit(stamp, pages).value.pages) {
      ContentsOfAll(stamp, pages, t, verified);
    }
    BodiesAreNotIdentityOnly(stamp, t);
  }
}
