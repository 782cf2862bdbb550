/**
 Normalised and merged rows field by field, each read directly from what was supplied, and which error wins where
 several apply.
 */
module MessageFields {
  import opened Basics
  import opened Ordering
  import opened MessageRows
  import opened RowMerge
  import opened RowMergeLaws

  predicate Blank(text: Option<string>) {
    text.None? || text.value == ""
  }

  /** The first text, or the second one where the first is blank; nothing where both are. */
  predicate IsFirst(kept: Option<string>, first: Option<string>, second: Option<string>) {
    if !Blank(first) then kept == first else if !Blank(second) then kept == second else kept.None?
  }

  predicate IsText(kept: Option<string>, text: Option<string>) {
    IsFirst(kept, text, None)
  }

  // ----- lists

  /** Of one entry a list keeps the text, unless it is blank. */
  lemma NonBlankTextsOfOne(x: Option<string>)
    ensures NonBlankTexts([x]) == if Blank(x) then [] else [x.value]
  {
    assert [x][1..] == [] && NonBlankTexts([]) == [];
  }

  /** The entries of a list stay in their order. */
  lemma {:induction false} NonBlankTextsOfTwo(a: seq<Option<string>>, b: seq<Option<string>>)
    ensures NonBlankTexts(a + b) == NonBlankTexts(a) + NonBlankTexts(b)
  {
    if a == [] {
      assert a + b == b && NonBlankTexts(a) == [];
    } else {
      assert (a + b)[1..] == a[1..] + b && (a + b)[0] == a[0];
      NonBlankTextsOfTwo(a[1..], b);
    }
  }

  predicate Identified(raw: RawAttachment) {
    !Blank(raw.attachmentId) || !Blank(raw.id)
  }

  /** A normalised attachment. Only a size whose key is absent makes way for the other key, null counts as zero. */
  predicate AttachmentReads(a: Attachment, raw: RawAttachment) {
    && IsFirst(Some(a.id), raw.attachmentId, raw.id)
    && (if Blank(raw.filename) then a.filename == "" else raw.filename == Some(a.filename))
    && (if Blank(raw.mimeType) && Blank(raw.mediaType) then a.mimeType == ""
        else IsFirst(Some(a.mimeType), raw.mimeType, raw.mediaType))
    && var size := if raw.sizeBytes == Absent then raw.size else raw.sizeBytes;
       if size == Absent || size == Null then a.size == 0 else size == Given(a.size)
  }

  lemma AttachmentFields(raw: RawAttachment)
    ensures NormaliseAttachment(raw).Ok? <==> Identified(raw)
    ensures NormaliseAttachment(raw).Ok? ==> AttachmentReads(NormaliseAttachment(raw).value, raw)
  {
  }

  predicate AttachmentsRead(attachments: seq<Attachment>, raws: seq<RawAttachment>) {
    && |attachments| == |raws|
    && forall i :: 0 <= i < |raws| ==> AttachmentReads(attachments[i], raws[i])
  }

  lemma {:induction false} AttachmentListFields(raws: seq<RawAttachment>)
    ensures NormaliseAttachments(raws).Ok? <==> forall raw :: raw in raws ==> Identified(raw)
    ensures NormaliseAttachments(raws).Ok? ==> AttachmentsRead(NormaliseAttachments(raws).value, raws)
    ensures NormaliseAttachments(raws).Err? ==> NormaliseAttachments(raws).error == AttachmentIdentityMissing
  {
    if raws != [] {
      AttachmentFields(raws[0]);
      AttachmentListFields(raws[1..]);
      assert raws == [raws[0]] + raws[1..];
    }
  }

  // ----- one normalised row

  /** What the timestamp normaliser makes of the supplied time; there is none where no time is supplied. */
  function TimeOf(stamp: Stamp, item: Item): Stamped {
    if Blank(item.emailTs) then Time(None) else stamp(item.emailTs.value)
  }

  /** The mark of the labels where it is supplied, and whether there are labels where it is not. */
  predicate HasLabels(item: Item) {
    item.labelsPresent == Some(true) || (item.labelsPresent == None && item.labels != NullLabels)
  }

  /** A message is identity-only when it says so in either way, or when its thread, its time or its labels are missing. */
  predicate SaysIdentityOnly(stamp: Stamp, item: Item) {
    || item.identityOnly || item.contentStatus == Some("identity_only")
    || Blank(item.threadId) || TimeOf(stamp, item) == Time(None) || !HasLabels(item)
  }

  ghost predicate RowReads(stamp: Stamp, r: Row, item: Item) {
    && item.id == Some(r.id) && r.id != ""
    && IsText(r.threadId, item.threadId) && IsFirst(r.from, item.from_, item.from)
    && IsText(r.subject, item.subject) && IsText(r.snippet, item.snippet) && r.body == item.body
    && r.to == NonBlankTexts(item.to)
    && r.labels == (if item.labels.Listed? then NonBlankTexts(item.labels.values) else [])
    && r.labelsPresent == HasLabels(item) && Time(r.emailTs) == TimeOf(stamp, item)
    && AttachmentsRead(r.attachments, item.attachments)
    && r.identityOnly == SaysIdentityOnly(stamp, item) && Classified(r)
  }

  lemma StampedIs(stamp: Stamp, item: Item)
    ensures stamp(Text(item.emailTs)) == TimeOf(stamp, item)
  {
  }

  lemma IdentityOnlyIs(stamp: Stamp, item: Item)
    requires stamp(Text(item.emailTs)).Time?
    ensures IsIdentityOnly(stamp(Text(item.emailTs)).text, item) == SaysIdentityOnly(stamp, item)
    ensures LabelsPresent(item) == HasLabels(item)
  {
    StampedIs(stamp, item);
  }

  /** Every field of a normalised row, from the fields supplied. */
  lemma NormalisedFields(stamp: Stamp, item: Item)
    requires Normalise(stamp, item).Ok?
    ensures RowReads(stamp, Normalise(stamp, item).value, item)
  {
    StampedIs(stamp, item);
    IdentityOnlyIs(stamp, item);
    AttachmentListFields(item.attachments);
  }

  /** When each error is raised. A missing id is noticed first, then a time out of range, then a body of an
      identity-only message, and last an attachment without id. */
  lemma NormaliseFails(stamp: Stamp, item: Item)
    ensures var r := Normalise(stamp, item);
      if Blank(item.id) then r == Err(MessageIdentityMissing)
      else if TimeOf(stamp, item) == Overflow then r == Err(TimestampOutOfRange)
      else if SaysIdentityOnly(stamp, item) && item.body != None then r == Err(IdentityOnlyBodyConflict(item.id.value))
      else if exists raw :: raw in item.attachments && !Identified(raw) then r == Err(AttachmentIdentityMissing)
      else r.Ok?
  {
    AttachmentListFields(item.attachments);
  }

  // ----- which of two rows is the richer one

  predicate Placed(r: Row) {
    !Blank(r.threadId) && !Blank(r.emailTs)
  }

  function TextCount(r: Row): nat {
    (if Blank(r.subject) then 0 else 1) + (if Blank(r.from) then 0 else 1) + (if Blank(r.snippet) then 0 else 1)
  }

  /** The first difference decides: having a body, having thread and time, more labels, more of subject, sender and
      snippet, more attachments. */
  predicate Poorer(a: Row, b: Row) {
    if a.body.Some? != b.body.Some? then b.body.Some?
    else if Placed(a) != Placed(b) then Placed(b)
    else if |a.labels| != |b.labels| then |a.labels| < |b.labels|
    else if TextCount(a) != TextCount(b) then TextCount(a) < TextCount(b)
    else |a.attachments| < |b.attachments|
  }

  lemma RicherIs(a: Row, b: Row)
    ensures (Richer(a, b), Other(a, b)) == if Poorer(a, b) then (b, a) else (a, b)
    ensures RichnessOf(a) == RichnessOf(b) <==> !Poorer(a, b) && !Poorer(b, a)
  {
    assert RichnessOf(a) == RichnessOf(b) <==>
      && a.body.Some? == b.body.Some? && Placed(a) == Placed(b) && |a.labels| == |b.labels|
      && TextCount(a) == TextCount(b) && |a.attachments| == |b.attachments|;
  }

  /** A field of a merge is the first row's, or the second one's where the first has none to offer and the second has. */
  predicate Prefers(kept: Option<string>, first: Option<string>, second: Option<string>) {
    kept == if Blank(first) && !Blank(second) then second else first
  }

  predicate FieldsPrefer(m: Row, first: Row, second: Row) {
    && Prefers(m.threadId, first.threadId, second.threadId) && Prefers(m.emailTs, first.emailTs, second.emailTs)
    && Prefers(m.body, first.body, second.body) && Prefers(m.subject, first.subject, second.subject)
    && Prefers(m.from, first.from, second.from) && Prefers(m.snippet, first.snippet, second.snippet)
  }

  /** Both lists together, each text once, in ascending order. */
  ghost predicate SortedTogether(merged: seq<string>, a: seq<string>, b: seq<string>) {
    Ascending(merged) && forall x :: x in merged <==> x in a || x in b
  }

  ghost predicate MergedReads(m: Row, a: Row, b: Row) {
    && m.id == a.id && (if Poorer(a, b) then FieldsPrefer(m, b, a) else FieldsPrefer(m, a, b))
    && SortedTogether(m.to, a.to, b.to) && SortedTogether(m.labels, a.labels, b.labels)
    && m.labelsPresent == (a.labelsPresent || b.labelsPresent)
    && m.identityOnly == (Blank(m.threadId) || Blank(m.emailTs) || !m.labelsPresent)
    && Classified(m)
  }

  /** Every field of a merge but the attachments. The richer row is asked first, so its snippet wins; of two equally
      rich rows it is the left one. */
  lemma RicherWins(a: Row, b: Row)
    requires Join(a, b).Ok?
    ensures MergedReads(Join(a, b).value, a, b)
  {
    RicherIs(a, b);
    var m := Join(a, b).value;
    JoinShape(a, b);
    assert IsFilled(m, a, b, ThreadId) && IsFilled(m, a, b, EmailTs) && IsFilled(m, a, b, Body);
    assert IsFilled(m, a, b, Subject) && IsFilled(m, a, b, From) && IsFilled(m, a, b, Snippet);
  }

  // ----- which conflict is reported

  predicate Differ(v: Option<string>, w: Option<string>) {
    !Blank(v) && !Blank(w) && v != w
  }

  /** The fields are compared in this order, and the first difference is reported. */
  predicate FirstDifference(a: Row, b: Row, f: Option<RowField>) {
    f ==
      if Differ(a.threadId, b.threadId) then Some(ThreadId)
      else if Differ(a.emailTs, b.emailTs) then Some(EmailTs)
      else if Differ(a.body, b.body) then Some(Body)
      else if Differ(a.subject, b.subject) then Some(Subject)
      else if Differ(a.from, b.from) then Some(From)
      else None
  }

  lemma ConflictIsFirst(a: Row, b: Row)
    ensures FirstDifference(a, b, FirstConflict(a, b, 0))
  {
    assert FirstConflict(a, b, 5) == None;
    assert FirstConflict(a, b, 3) == if Differ(a.subject, b.subject) then Some(Subject)
      else if Differ(a.from, b.from) then Some(From) else None;
  }

  /** The `j`th attachment contradicts an earlier one with its id. */
  predicate Contradicts(items: seq<Attachment>, j: nat)
    requires j < |items|
  {
    exists i :: 0 <= i < j && items[i].id == items[j].id && !SameAttachment(items[i], items[j])
  }

  predicate FirstContradiction(items: seq<Attachment>, j: nat) {
    j < |items| && Contradicts(items, j) && forall k :: 0 <= k < j ==> !Contradicts(items, k)
  }

  /** The first attachment that contradicts an earlier one is reported by its id. */
  lemma {:induction false} CollectFails(items: seq<Attachment>, id: string)
    ensures Collect(items, id).Err? ==>
              exists j: nat :: FirstContradiction(items, j) && Collect(items, id).error == AttachmentMetadataConflict(id, items[j].id)
  {
    if Collect(items, id).Err? {
      var before, next := items[..|items| - 1], items[|items| - 1];
      if Collect(before, id).Err? {
        CollectFails(before, id);
        var j: nat :| FirstContradiction(before, j) && Collect(before, id).error == AttachmentMetadataConflict(id, before[j].id);
        assert forall k :: 0 <= k <= j ==> (Contradicts(items, k) <==> Contradicts(before, k));
        assert FirstContradiction(items, j);
      } else {
        CollectMeaning(before, id);
        var m := Collect(before, id).value;
        FitsIffSame(m, before, next);
        assert FirstContradiction(items, |before|);
      }
    }
  }

  /** Which error a merge raises: other ids first, then the first differing field, then the first attachment that
      contradicts an earlier one, the left row's attachments coming before the right one's. */
  lemma JoinFails(a: Row, b: Row)
    ensures a.id != b.id <==> Join(a, b) == Err(MergeIdentityMismatch)
    ensures a.id == b.id ==> forall f :: FirstDifference(a, b, Some(f)) <==> Join(a, b) == Err(MessageFieldConflict(a.id, f))
    ensures a.id == b.id && FirstDifference(a, b, None) && Join(a, b).Err? ==>
              exists j: nat ::
                FirstContradiction(a.attachments + b.attachments, j) &&
                Join(a, b).error == AttachmentMetadataConflict(a.id, (a.attachments + b.attachments)[j].id)
  {
    ConflictIsFirst(a, b);
    CollectFails(a.attachments + b.attachments, a.id);
  }
}
