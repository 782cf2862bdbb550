/**
 Merging repeated observations of one message: `_richness`, `_merge_attachments` and
 `merge_message_rows` (scripts/audit_gmail_page_chain.py).
 */
module RowMerge {
  import opened Basics
  import opened Ordering
  import opened MessageRows

  const CONFLICT_FIELDS: seq<RowField> := [ThreadId, EmailTs, Body, Subject, From]
  const FILLED_FIELDS: seq<RowField> := [ThreadId, EmailTs, Body, Subject, From, Snippet]

  function Get(r: Row, field: RowField): Option<string> {
    match field
    case ThreadId => r.threadId
    case EmailTs => r.emailTs
    case Body => r.body
    case Subject => r.subject
    case From => r.from
    case Snippet => r.snippet
  }

  function Put(r: Row, field: RowField, value: Option<string>): Row {
    match field
    case ThreadId => r.(threadId := value)
    case EmailTs => r.(emailTs := value)
    case Body => r.(body := value)
    case Subject => r.(subject := value)
    case From => r.(from := value)
    case Snippet => r.(snippet := value)
  }

  datatype Richness = Richness(body: nat, placed: nat, labels: nat, texts: nat, attachments: nat) {
    /** Tuple comparison `this >= other`. */
    predicate AtLeast(other: Richness) {
      || body > other.body
      || (body == other.body &&
          (|| placed > other.placed
           || (placed == other.placed &&
               (|| labels > other.labels
                || (labels == other.labels &&
                    (|| texts > other.texts
                     || (texts == other.texts && attachments >= other.attachments)))))))
    }
  }

  function Count(b: bool): nat {
    if b then 1 else 0
  }

  function RichnessOf(r: Row): Richness {
    Richness(
      Count(r.body.Some?),
      Count(Present(r.threadId) && Present(r.emailTs)),
      |r.labels|,
      Count(Present(r.subject)) + Count(Present(r.from)) + Count(Present(r.snippet)),
      |r.attachments|)
  }

  predicate Agree(v: Option<string>, w: Option<string>) {
    Present(v) && Present(w) ==> v == w
  }

  function Fill(v: Option<string>, w: Option<string>): Option<string> {
    if !Present(v) && Present(w) then w else v
  }

  // ----- attachments

  /** Sizes are always present, zero included, so they must be equal. */
  predicate SameAttachment(a: Attachment, b: Attachment) {
    && (a.filename != "" && b.filename != "" ==> a.filename == b.filename)
    && (a.mimeType != "" && b.mimeType != "" ==> a.mimeType == b.mimeType)
    && a.size == b.size
  }

  function FillAttachment(a: Attachment, b: Attachment): Attachment {
    a.(filename := if a.filename == "" then b.filename else a.filename,
       mimeType := if a.mimeType == "" then b.mimeType else a.mimeType)
  }

  function Collect(items: seq<Attachment>, id: string): Result<map<string, Attachment>, ChainError> {
    if items == [] then Ok(map[]) else
    var m :- Collect(items[..|items| - 1], id);
    var next := items[|items| - 1];
    if next.id !in m then Ok(m[next.id := next])
    else if !SameAttachment(m[next.id], next) then Err(AttachmentMetadataConflict(id, next.id))
    else Ok(m[next.id := FillAttachment(m[next.id], next)])
  }

  function InIdOrder(m: map<string, Attachment>): seq<Attachment> {
    var ids := Sorted(m.Keys);
    seq(|ids|, i requires 0 <= i < |ids| => assert ids[i] in ids; m[ids[i]])
  }

  function JoinAttachments(items: seq<Attachment>, id: string): Result<seq<Attachment>, ChainError> {
    var m :- Collect(items, id);
    Ok(InIdOrder(m))
  }

  lemma {:induction false} CollectStops(items: seq<Attachment>, n: nat, id: string)
    requires n <= |items| && Collect(items[..n], id).Err?
    ensures Collect(items, id) == Collect(items[..n], id)
    decreases |items|
  {
    if n == |items| {
      assert items[..n] == items;
    } else {
      var shorter := items[..|items| - 1];
      assert shorter[..n] == items[..n];
      CollectStops(shorter, n, id);
    }
  }

  method MergeAttachments(left: seq<Attachment>, right: seq<Attachment>, messageId: string)
    returns (r: Result<seq<Attachment>, ChainError>)
    ensures r == JoinAttachments(left + right, messageId)
  {
    var merged: map<string, Attachment> := map[];
    var items := left + right;
    for i := 0 to |items|
      invariant Collect(items[..i], messageId) == Ok(merged)
    {
      var normalized := items[i];
      assert items[..i + 1][..i] == items[..i];
      if normalized.id !in merged {
        merged := merged[normalized.id := normalized];
        continue;
      }
      var prior := merged[normalized.id];
      if (prior.filename != "" && normalized.filename != "" && prior.filename != normalized.filename)
        || (prior.mimeType != "" && normalized.mimeType != "" && prior.mimeType != normalized.mimeType)
        || prior.size != normalized.size
      {
        CollectStops(items, i + 1, messageId);
        return Err(AttachmentMetadataConflict(messageId, normalized.id));
      }
      if prior.filename == "" && normalized.filename != "" {
        prior := prior.(filename := normalized.filename);
      }
      if prior.mimeType == "" && normalized.mimeType != "" {
        prior := prior.(mimeType := normalized.mimeType);
      }
      merged := merged[normalized.id := prior];
    }
    assert items[..|items|] == items;
    return Ok(InIdOrder(merged));
  }

  // ----- rows

  function FirstConflict(a: Row, b: Row, i: nat): Option<RowField>
    requires i <= |CONFLICT_FIELDS|
    decreases |CONFLICT_FIELDS| - i
  {
    if i == |CONFLICT_FIELDS| then None
    else if !Agree(Get(a, CONFLICT_FIELDS[i]), Get(b, CONFLICT_FIELDS[i])) then Some(CONFLICT_FIELDS[i])
    else FirstConflict(a, b, i + 1)
  }

  function Richer(a: Row, b: Row): Row {
    if RichnessOf(a).AtLeast(RichnessOf(b)) then a else b
  }

  function Other(a: Row, b: Row): Row {
    if RichnessOf(a).AtLeast(RichnessOf(b)) then b else a
  }

  /** The richer row with its absent fields taken from the other one. */
  function FilledRow(richer: Row, other: Row): Row {
    richer.(
      threadId := Fill(richer.threadId, other.threadId),
      emailTs := Fill(richer.emailTs, other.emailTs),
      body := Fill(richer.body, other.body),
      subject := Fill(richer.subject, other.subject),
      from := Fill(richer.from, other.from),
      snippet := Fill(richer.snippet, other.snippet))
  }

  /** What is left of the identity-only rule after a merge: an explicit mark is dropped. */
  predicate FieldsLeaveIdentityOnly(r: Row) {
    !Present(r.threadId) || !Present(r.emailTs) || !r.labelsPresent
  }

  function JoinedRow(a: Row, b: Row, attachments: seq<Attachment>): Row {
    var kept := FilledRow(Richer(a, b), Other(a, b));
    var labelsPresent := a.labelsPresent || b.labelsPresent;
    var identityOnly := !Present(kept.threadId) || !Present(kept.emailTs) || !labelsPresent;
    Row(
      kept.id, kept.threadId, kept.from, Sorted(Elements(a.to) + Elements(b.to)),
      kept.subject, kept.snippet, kept.body, Sorted(Elements(a.labels) + Elements(b.labels)),
      labelsPresent, kept.emailTs, attachments, StatusOf(identityOnly, kept.body), identityOnly)
  }

  /** The merge of two normalised rows of one message. */
  function Join(a: Row, b: Row): Result<Row, ChainError> {
    if a.id != b.id then Err(MergeIdentityMismatch) else
    var conflict := FirstConflict(a, b, 0);
    if conflict.Some? then Err(MessageFieldConflict(a.id, conflict.value)) else
    var attachments :- JoinAttachments(a.attachments + b.attachments, a.id);
    Ok(JoinedRow(a, b, attachments))
  }

  function Merge(stamp: Stamp, left: Item, right: Item): Result<Row, ChainError> {
    var a :- Normalise(stamp, left);
    var b :- Normalise(stamp, right);
    Join(a, b)
  }

  method CheckConflicts(a: Row, b: Row) returns (r: Option<RowField>)
    ensures r == FirstConflict(a, b, 0)
  {
    for i := 0 to |CONFLICT_FIELDS|
      invariant FirstConflict(a, b, 0) == FirstConflict(a, b, i)
    {
      var x, y := Get(a, CONFLICT_FIELDS[i]), Get(b, CONFLICT_FIELDS[i]);
      if Present(x) && Present(y) && x != y {
        return Some(CONFLICT_FIELDS[i]);
      }
    }
    return None;
  }

  function FillStep(r: Row, other: Row, field: RowField): Row {
    Put(r, field, Fill(Get(r, field), Get(other, field)))
  }

  function FilledTo(richer: Row, other: Row, n: nat): Row
    requires n <= |FILLED_FIELDS|
  {
    if n == 0 then richer else FillStep(FilledTo(richer, other, n - 1), other, FILLED_FIELDS[n - 1])
  }

  lemma FilledToAll(richer: Row, other: Row)
    ensures FilledTo(richer, other, |FILLED_FIELDS|) == FilledRow(richer, other)
  {
    var r1 := FillStep(richer, other, ThreadId);
    var r3 := FillStep(FillStep(r1, other, EmailTs), other, Body);
    assert FilledTo(richer, other, 3) == r3 by {
      assert FilledTo(richer, other, 1) == r1;
    }
    assert FilledTo(richer, other, 5) == FillStep(FillStep(r3, other, Subject), other, From);
  }

  method FillFields(richer: Row, other: Row) returns (merged: Row)
    ensures merged == FilledRow(richer, other)
  {
    merged := richer;
    for i := 0 to |FILLED_FIELDS|
      invariant merged == FilledTo(richer, other, i)
    {
      var field := FILLED_FIELDS[i];
      if !Present(Get(merged, field)) && Present(Get(other, field)) {
        merged := Put(merged, field, Get(other, field));
      }
    }
    FilledToAll(richer, other);
  }

  method MergeMessageRows(stamp: Stamp, left: Item, right: Item) returns (r: Result<Row, ChainError>)
    ensures r == Merge(stamp, left, right)
  {
    var a :- Normalise(stamp, left);
    var b :- Normalise(stamp, right);
    if a.id != b.id {
      return Err(MergeIdentityMismatch);
    }
    var conflict := CheckConflicts(a, b);
    if conflict.Some? {
      return Err(MessageFieldConflict(a.id, conflict.value));
    }
    var richer, other := a, b;
    if !RichnessOf(a).AtLeast(RichnessOf(b)) {
      richer, other := b, a;
    }
    var merged := FillFields(richer, other);
    merged := merged.(labels := Sorted(Elements(a.labels) + Elements(b.labels)));
    merged := merged.(labelsPresent := a.labelsPresent || b.labelsPresent);
    merged := merged.(to := Sorted(Elements(a.to) + Elements(b.to)));
    var attachments := MergeAttachments(a.attachments, b.attachments, a.id);
    if attachments.Err? {
      return Err(attachments.error);
    }
    merged := merged.(attachments := attachments.value);
    var identityOnly := !Present(merged.threadId) || !Present(merged.emailTs) || !merged.labelsPresent;
    merged := merged.(status := StatusOf(identityOnly, merged.body), identityOnly := identityOnly);
    return Ok(merged);
  }
}
