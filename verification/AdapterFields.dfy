/**
 The page source field by field: what a page is filed under, what is refused and with which error, and that what is
 filed are the audited rows.
 */
module AdapterFields {
  import opened Basics
  import opened CalendarDates
  import opened MessageRows
  import opened MessageFields
  import opened PageChain
  import opened PageFields
  import opened PageAdapter
  import opened PageAdapterLaws

  // ----- what a page is filed under

  /** The first page is filed under the empty cursor, every other one under the cursor it states, or, where it states
      none, under the one its predecessor led to. */
  lemma KeyIs(pages: seq<Payload>, i: nat)
    requires i < |pages|
    ensures KeyAt(pages, i) ==
      if i == 0 then "" else if StatesRequest(pages[i]) then AskedFor(pages[i]) else LeadsTo(pages[i - 1])
  {
    CursorsRead(pages[i]);
    if i > 0 {
      CursorsRead(pages[i - 1]);
    }
  }

  // ----- what the manifest is refused for

  /** A revision may be left out, but where it is stated it must say something. */
  predicate SaysNothing(revision: Entry<string>) {
    revision != Absent && Said(revision) == ""
  }

  lemma ManifestRejectionIs(calendar: Calendar, p: Payload)
    ensures ManifestRejection(calendar, p) ==
      if Said(p.query) == "" || Said(p.account) == "" then Some(QueryAndAccountRequired)
      else if SaysNothing(p.authorizationRevision) || SaysNothing(p.policyRevision) then Some(RevisionRequired)
      else if Said(p.authorizedFrom) != "" && !calendar(Said(p.authorizedFrom)) then Some(AuthorizedFromNotADate)
      else None
  {
    assert "connector-read:v1" != "" && "policy:v1" != "";
  }

  // ----- what a message is refused for

  /** The export's own rule. It looks at the labels themselves and at the time as supplied. */
  predicate ExportsAsIdentityOnly(item: Item) {
    || item.identityOnly || item.contentStatus == Some("identity_only")
    || Blank(item.threadId) || Blank(item.emailTs) || item.labels == NullLabels
  }

  /** An attachment that is refused: without an id, with a type that is stated as empty, without a size or with a
      negative one. A size of null is no size here. */
  predicate Refused(raw: RawAttachment) {
    || !Identified(raw) || (Blank(raw.mimeType) && raw.mediaType == Some(""))
    || var size := if raw.sizeBytes == Absent then raw.size else raw.sizeBytes;
       size == Null || (size.Given? && size.given < 0)
  }

  lemma AttachmentRefusedIff(raw: RawAttachment)
    ensures ToAttachment(raw).Err? <==> Refused(raw)
    ensures ToAttachment(raw).Err? ==> ToAttachment(raw).error.AttachmentRejected?
  {
  }

  lemma {:induction false} SomeAttachmentRefused(raws: seq<RawAttachment>)
    ensures ToAttachments(raws).Err? <==> exists raw :: raw in raws && Refused(raw)
    ensures ToAttachments(raws).Err? ==> ToAttachments(raws).error.AttachmentRejected?
  {
    if raws != [] {
      AttachmentRefusedIff(raws[0]);
      SomeAttachmentRefused(raws[1..]);
      assert raws == [raws[0]] + raws[1..];
    }
  }

  /** When a supplied message is refused, and with which error. */
  lemma MessageFails(item: Item)
    ensures var r := ToMessage(item);
      if Blank(item.id) then r == Err(RowWithoutId)
      else if ExportsAsIdentityOnly(item) then
        if item.body != None then r == Err(IdentityOnlyRowCarriesBody) else r.Ok? && r.value.identityOnly
      else if exists raw :: raw in item.attachments && Refused(raw) then r.Err? && r.error.AttachmentRejected?
      else r.Ok? && !r.value.identityOnly
  {
    SomeAttachmentRefused(item.attachments);
  }

  /** An exported attachment. A type that is stated nowhere is replaced, a size that is stated nowhere is zero. */
  predicate AttachmentExports(a: Attachment, raw: RawAttachment) {
    && IsFirst(Some(a.id), raw.attachmentId, raw.id) && Says(a.filename, raw.filename)
    && (if !Blank(raw.mimeType) then raw.mimeType == Some(a.mimeType)
        else if raw.mediaType != None then raw.mediaType == Some(a.mimeType)
        else a.mimeType == "application/octet-stream")
    && var size := if raw.sizeBytes == Absent then raw.size else raw.sizeBytes;
       if size == Absent then a.size == 0 else size == Given(a.size)
  }

  predicate AttachmentsExport(attachments: seq<Attachment>, raws: seq<RawAttachment>) {
    |attachments| == |raws| && forall i :: 0 <= i < |raws| ==> AttachmentExports(attachments[i], raws[i])
  }

  /** Every field of an exported message; an identity-only one comes without its attachments. */
  predicate MessageExports(m: Message, item: Item) {
    && item.id == Some(m.id) && Says(m.threadId, item.threadId) && Says(m.date, item.emailTs)
    && m.labels == (if item.labels.Listed? then NonBlankTexts(item.labels.values) else [])
    && Says(m.subject, item.subject) && Says(m.snippet, item.snippet)
    && Says(m.sender, if Blank(item.from_) then item.from else item.from_)
    && (if ExportsAsIdentityOnly(item) then m.attachments == [] else AttachmentsExport(m.attachments, item.attachments))
  }

  lemma AttachmentIsExported(raw: RawAttachment)
    requires ToAttachment(raw).Ok?
    ensures AttachmentExports(ToAttachment(raw).value, raw)
  {
  }

  lemma {:induction false} AttachmentsAreExported(raws: seq<RawAttachment>)
    requires ToAttachments(raws).Ok?
    ensures AttachmentsExport(ToAttachments(raws).value, raws)
  {
    if raws != [] {
      AttachmentIsExported(raws[0]);
      AttachmentsAreExported(raws[1..]);
    }
  }

  /** What a supplied message is exported as. */
  lemma MessageIsExported(item: Item)
    requires ToMessage(item).Ok?
    ensures MessageExports(ToMessage(item).value, item)
  {
    MessageFails(item);
    if !ExportsAsIdentityOnly(item) {
      AttachmentsAreExported(item.attachments);
    }
  }

  // ----- what the adapter is refused for

  /** The pages before the `n`th are filed and the `n`th one is not: it is refused itself, or its cursor is taken. */
  ghost predicate FilingFails(keys: seq<string>, attempts: seq<Result<AuthorizedPage, ChainError>>, n: nat, e: ChainError)
    requires |keys| == |attempts|
  {
    && n < |keys| && FileUpTo(keys, attempts, n).Ok?
    && (attempts[n] == Err(e) || (attempts[n].Ok? && e == RequestedCursorDuplicate && keys[n] in keys[..n]))
  }

  lemma {:induction false} FiledKeys(keys: seq<string>, attempts: seq<Result<AuthorizedPage, ChainError>>, n: nat)
    requires n <= |keys| == |attempts| && FileUpTo(keys, attempts, n).Ok?
    ensures forall key :: key in FileUpTo(keys, attempts, n).value <==> key in keys[..n]
  {
    if n > 0 {
      FiledKeys(keys, attempts, n - 1);
      assert keys[..n] == keys[..n - 1] + [keys[n - 1]];
    }
  }

  lemma FilingFailsAt(keys: seq<string>, attempts: seq<Result<AuthorizedPage, ChainError>>, n: nat, e: ChainError)
    requires n < |keys| == |attempts| && FileUpTo(keys, attempts, n).Ok?
    ensures FileUpTo(keys, attempts, n + 1) == Err(e) <==> FilingFails(keys, attempts, n, e)
  {
    FiledKeys(keys, attempts, n);
  }

  lemma {:induction false} FilingFailsSomewhere(keys: seq<string>, attempts: seq<Result<AuthorizedPage, ChainError>>, n: nat, e: ChainError)
    requires n <= |keys| == |attempts| && FileUpTo(keys, attempts, n) == Err(e)
    ensures exists k: nat :: FilingFails(keys, attempts, k, e)
  {
    if FileUpTo(keys, attempts, n - 1).Ok? {
      FilingFailsAt(keys, attempts, n - 1, e);
    } else {
      FilingFailsSomewhere(keys, attempts, n - 1, e);
    }
  }

  ghost predicate SomeFilingFails(keys: seq<string>, attempts: seq<Result<AuthorizedPage, ChainError>>, e: ChainError)
    requires |keys| == |attempts|
  {
    exists k: nat :: FilingFails(keys, attempts, k, e)
  }

  lemma FilingFailsIff(keys: seq<string>, attempts: seq<Result<AuthorizedPage, ChainError>>, e: ChainError)
    requires |keys| == |attempts|
    ensures FileUpTo(keys, attempts, |keys|) == Err(e) <==> SomeFilingFails(keys, attempts, e)
  {
    if FileUpTo(keys, attempts, |keys|) == Err(e) {
      FilingFailsSomewhere(keys, attempts, |keys|, e);
    }
    if k: nat :| FilingFails(keys, attempts, k, e) {
      FilingFailsAt(keys, attempts, k, e);
      FilingStops(keys, attempts, k + 1, |keys|);
    }
  }

  /** Which error the adapter is refused with. */
  lemma BuildFails(calendar: Calendar, c: Chain, allow: bool, e: ChainError)
    requires c.pages != []
    ensures var r, v := c.report, c.report.cursorChainVerified;
      Build(calendar, c, allow) == Err(e) <==>
        if r.status == Blocked then e == CoverageBlocked
        else if (if r.lastPageTerminal then !v else !allow) then e == CursorChainUnverified
        else if ManifestRejection(calendar, c.pages[0]) != None then ManifestRejection(calendar, c.pages[0]) == Some(e)
        else SomeFilingFails(Keys(c.pages), Attempts(c.pages, v), e)
  {
    FilingFailsIff(Keys(c.pages), Attempts(c.pages, c.report.cursorChainVerified), e);
  }

  // ----- what is filed

  /** The page filed for the `i`th audited page holds its rows. */
  lemma AdapterHolds(stamp: Stamp, calendar: Calendar, pages: seq<Payload>, allow: bool, i: nat)
    requires Audit(stamp, pages).Ok? && i < |pages|
    requires Audit(stamp, pages).value.pages != [] && Build(calendar, Audit(stamp, pages).value, allow).Ok?
    ensures |Audit(stamp, pages).value.pages| == |pages|
    ensures var c, m := Audit(stamp, pages).value, Build(calendar, Audit(stamp, pages).value, allow).value;
      && KeyAt(c.pages, i) in m
      && exists rows :: c.pages[i].messages == AsItems(rows) && ServesRows(m[KeyAt(c.pages, i)], rows)
  {
    AuditedChain(stamp, pages);
    BuildIsFiling(stamp, calendar, pages, allow);
    var c, t := Audit(stamp, pages).value, AbsorbAll(stamp, Sights(pages)).value;
    var v := c.report.cursorChainVerified;
    FiledIsServed(c.pages, v);
    ServedChainFiles(c.pages, v);
    assert Keys(c.pages)[i] == KeyAt(c.pages, i) && Served(c.pages, v)[i] == PageAt(c.pages, v, i).value;
    PageOfChainServed(stamp, pages, t, v, i);
    assert c.pages[i].messages == AsItems(PageRows(t, i));
  }
}
