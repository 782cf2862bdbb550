/**
 Connector rows and their normal form: `_normalized_row` and what it calls
 (scripts/audit_gmail_page_chain.py). Digests that only decorate error texts are dropped.
 */
module MessageRows {
  import opened Basics

  datatype RowField = ThreadId | EmailTs | Body | Subject | From | Snippet

  datatype ChainError =
    | MessageIdentityMissing
    | TimestampOutOfRange
    | AttachmentIdentityMissing
    | IdentityOnlyBodyConflict(id: string)
    | MergeIdentityMismatch
    | MessageFieldConflict(id: string, field: RowField)
    | AttachmentMetadataConflict(id: string, attachment: string)
    | PageChainEmpty
    | ManifestIncomplete
    | ManifestConflict
    | FirstPageCursorNotEmpty
    | TerminalPageHasNextCursor
    | NonterminalPageMissingNextCursor
    | CursorCycleDetected
    | TerminalPageNotLast
    | CoverageBlocked
    | CursorChainUnverified
    | RequestedCursorDuplicate
    | PageCursorNotSupplied
    | RowWithoutId
    | IdentityOnlyRowCarriesBody
    | QueryAndAccountRequired
    | RevisionRequired
    | AuthorizedFromNotADate
    | AttachmentRejected(attachment: string)
    | AdapterPageTerminalHasNext
    | AdapterPageMessageRepeats

  /** A JSON object entry: the key is absent, is null, or holds a value. */
  datatype Entry<+T> = Absent | Null | Given(given: T)

  /** An attachment as supplied. A text field holds the value's text; None is null or absent. */
  datatype RawAttachment = RawAttachment(
    attachmentId: Option<string>, id: Option<string>,
    filename: Option<string>,
    mimeType: Option<string>, mediaType: Option<string>,
    sizeBytes: Entry<int>, size: Entry<int>)

  datatype Attachment = Attachment(id: string, filename: string, mimeType: string, size: int)

  datatype Labels = NullLabels | OtherLabels | Listed(values: seq<Option<string>>)

  /** A message as supplied. `labelsPresent` is None when the key is absent. */
  datatype Item = Item(
    id: Option<string>, threadId: Option<string>,
    from_: Option<string>, from: Option<string>, to: seq<Option<string>>,
    subject: Option<string>, snippet: Option<string>, body: Option<string>,
    labels: Labels, labelsPresent: Option<bool>,
    emailTs: Option<string>, attachments: seq<RawAttachment>,
    contentStatus: Option<string>, identityOnly: bool)

  function Text(value: Option<string>): string {
    if value.Some? then value.value else ""
  }

  datatype Status = IdentityOnly | Full | MetadataOnly {
    function Text(): string {
      match this
      case IdentityOnly => "identity_only"
      case Full => "full"
      case MetadataOnly => "metadata_only"
    }
  }

  /** A normalised row. */
  datatype Row = Row(
    id: string, threadId: Option<string>, from: Option<string>, to: seq<string>,
    subject: Option<string>, snippet: Option<string>, body: Option<string>,
    labels: seq<string>, labelsPresent: bool, emailTs: Option<string>,
    attachments: seq<Attachment>, status: Status, identityOnly: bool)

  /** A timestamp in normal form, None for blank text, or the overflow of moving it to UTC. */
  datatype Stamped = Time(text: Option<string>) | Overflow

  /** A normal form is not empty and is its own normal form; nothing else about ISO parsing matters here. */
  ghost predicate LawfulStamp(f: string -> Stamped) {
    && f("") == Time(None)
    && forall s :: f(s).Time? && f(s).text.Some? ==> f(s).text.value != "" && f(f(s).text.value) == f(s)
  }

  type Stamp = f: string -> Stamped | LawfulStamp(f)
    witness (s: string) => Time(if s == "" then None else Some(s))

  function NonEmpty(text: string): Option<string> {
    if text == "" then None else Some(text)
  }

  /** `a or b` on texts. */
  function Either(a: Option<string>, b: Option<string>): Option<string> {
    if Text(a) != "" then a else b
  }

  predicate Present(value: Option<string>) {
    Text(value) != ""
  }

  function NonBlankTexts(values: seq<Option<string>>): seq<string> {
    if values == [] then []
    else (if Present(values[0]) then [values[0].value] else []) + NonBlankTexts(values[1..])
  }

  function AllGiven<T>(values: seq<T>): (r: seq<Option<T>>)
    ensures |r| == |values| && forall i :: 0 <= i < |r| ==> r[i] == Some(values[i])
  {
    seq(|values|, i requires 0 <= i < |values| => Some(values[i]))
  }

  function NormaliseAttachment(item: RawAttachment): Result<Attachment, ChainError> {
    var id := Text(Either(item.attachmentId, item.id));
    if id == "" then Err(AttachmentIdentityMissing) else
    var size := match item.sizeBytes
      case Given(n) => n
      case Null => 0
      case Absent => if item.size.Given? then item.size.given else 0;
    Ok(Attachment(id, Text(item.filename), Text(Either(item.mimeType, item.mediaType)), size))
  }

  function NormaliseAttachments(items: seq<RawAttachment>): Result<seq<Attachment>, ChainError> {
    if items == [] then Ok([]) else
    var first :- NormaliseAttachment(items[0]);
    var rest :- NormaliseAttachments(items[1..]);
    Ok([first] + rest)
  }

  predicate LabelsPresent(item: Item) {
    if item.labelsPresent.Some? then item.labelsPresent.value else !item.labels.NullLabels?
  }

  /** The rule that makes an observation identity-only. */
  predicate IsIdentityOnly(emailTs: Option<string>, item: Item) {
    || item.identityOnly
    || Text(item.contentStatus) == "identity_only"
    || Text(item.threadId) == ""
    || emailTs.None?
    || !LabelsPresent(item)
  }

  function StatusOf(identityOnly: bool, body: Option<string>): Status {
    if identityOnly then IdentityOnly else if body.Some? then Full else MetadataOnly
  }

  function Normalise(stamp: Stamp, item: Item): Result<Row, ChainError> {
    var id := Text(item.id);
    if id == "" then Err(MessageIdentityMissing) else
    var stamped := stamp(Text(item.emailTs));
    if stamped.Overflow? then Err(TimestampOutOfRange) else
    var identityOnly := IsIdentityOnly(stamped.text, item);
    if identityOnly && item.body.Some? then Err(IdentityOnlyBodyConflict(id)) else
    var attachments :- NormaliseAttachments(item.attachments);
    Ok(Row(
      id, NonEmpty(Text(item.threadId)), NonEmpty(Text(Either(item.from_, item.from))),
      NonBlankTexts(item.to), NonEmpty(Text(item.subject)), NonEmpty(Text(item.snippet)), item.body,
      if item.labels.Listed? then NonBlankTexts(item.labels.values) else [],
      LabelsPresent(item), stamped.text, attachments,
      StatusOf(identityOnly, item.body), identityOnly))
  }

  // A normalised row is itself a dictionary that is fed back to `_normalized_row`.

  function AsRawAttachment(a: Attachment): RawAttachment {
    RawAttachment(Some(a.id), Some(a.id), Some(a.filename), Some(a.mimeType), None, Given(a.size), Absent)
  }

  function AsItem(r: Row): Item {
    Item(
      Some(r.id), r.threadId, r.from, None, AllGiven(r.to), r.subject, r.snippet, r.body,
      Listed(AllGiven(r.labels)), Some(r.labelsPresent), r.emailTs,
      seq(|r.attachments|, i requires 0 <= i < |r.attachments| => AsRawAttachment(r.attachments[i])),
      Some(r.status.Text()), r.identityOnly)
  }

  ghost predicate NonBlank(texts: seq<string>) {
    forall x :: x in texts ==> x != ""
  }

  /** The status of a row is what its mark and its body say. */
  predicate Classified(r: Row) {
    && (r.status.IdentityOnly? <==> r.identityOnly)
    && (r.status.Full? <==> !r.identityOnly && r.body.Some?)
    && (r.status.MetadataOnly? <==> !r.identityOnly && r.body.None?)
  }

  /** What every row built by this program satisfies. The last clause is the classification law:
      an identity-only row carries no body. */
  ghost predicate Normal(stamp: Stamp, r: Row) {
    && r.id != ""
    && r.threadId != Some("") && r.from != Some("") && r.subject != Some("") && r.snippet != Some("")
    && NonBlank(r.to) && NonBlank(r.labels)
    && (r.emailTs.Some? ==> stamp(r.emailTs.value) == Time(r.emailTs) && r.emailTs.value != "")
    && (forall a :: a in r.attachments ==> a.id != "")
    && Classified(r)
    && (r.threadId.None? || r.emailTs.None? || !r.labelsPresent ==> r.identityOnly)
    && (r.identityOnly ==> r.body.None?)
  }

  lemma {:induction false} NonBlankTextsAre(values: seq<Option<string>>)
    ensures NonBlank(NonBlankTexts(values))
    ensures forall x :: x in NonBlankTexts(values) <==> x != "" && Some(x) in values
  {
    if values != [] {
      NonBlankTextsAre(values[1..]);
      assert values == [values[0]] + values[1..];
    }
  }

  lemma {:induction false} NonBlankTextsOfAll(texts: seq<string>)
    requires NonBlank(texts)
    ensures NonBlankTexts(AllGiven(texts)) == texts
  {
    if texts != [] {
      assert AllGiven(texts)[1..] == AllGiven(texts[1..]);
      assert texts[0] in texts && forall x :: x in texts[1..] ==> x in texts;
      NonBlankTextsOfAll(texts[1..]);
      assert texts == [texts[0]] + texts[1..];
    }
  }

  lemma {:induction false} AttachmentsAreIdentified(items: seq<RawAttachment>)
    requires NormaliseAttachments(items).Ok?
    ensures forall a :: a in NormaliseAttachments(items).value ==> a.id != ""
  {
    if items != [] {
      AttachmentsAreIdentified(items[1..]);
    }
  }

  lemma {:induction false} AttachmentsRenormalise(items: seq<RawAttachment>, attachments: seq<Attachment>)
    requires |items| == |attachments|
    requires forall i :: 0 <= i < |items| ==> items[i] == AsRawAttachment(attachments[i]) && attachments[i].id != ""
    ensures NormaliseAttachments(items) == Ok(attachments)
  {
    if items != [] {
      AttachmentsRenormalise(items[1..], attachments[1..]);
      assert attachments == [attachments[0]] + attachments[1..];
    }
  }

  /** Whatever `_normalized_row` returns is normal. */
  lemma NormaliseGivesNormal(stamp: Stamp, item: Item)
    requires Normalise(stamp, item).Ok?
    ensures Normal(stamp, Normalise(stamp, item).value)
  {
    NonBlankTextsAre(item.to);
    if item.labels.Listed? {
      NonBlankTextsAre(item.labels.values);
    }
    AttachmentsAreIdentified(item.attachments);
  }

  /** A normal row passes through `_normalized_row` unchanged. The dictionary it is fed back as names its status. */
  lemma Renormalise(stamp: Stamp, r: Row)
    requires Normal(stamp, r)
    ensures Normalise(stamp, AsItem(r)) == Ok(r)
    ensures AsItem(r).contentStatus ==
            Some(if r.identityOnly then "identity_only" else if r.body.Some? then "full" else "metadata_only")
  {
    NonBlankTextsOfAll(r.to);
    NonBlankTextsOfAll(r.labels);
    AttachmentsRenormalise(AsItem(r).attachments, r.attachments);
    assert IsIdentityOnly(r.emailTs, AsItem(r)) == r.identityOnly;
  }
}
