/**
 What merging means. A row is read as the set of facts it carries; a merge is the union of two
 sets of facts and fails exactly on a clash, so the order of arrival cannot matter. Only
 `snippet`, which has no conflict check, stays outside this reading.
 */
module RowMergeLaws {
  import opened Basics
  import opened Ordering
  import opened MessageRows
  import opened RowMerge

  datatype Fact =
    | FieldIs(field: RowField, value: string)
    | AttachmentNamed(id: string, value: string)
    | AttachmentTyped(id: string, value: string)
    | AttachmentSized(id: string, size: int)
    | BodyGiven
    | LabelsKnown
    | Labelled(value: string)
    | SentTo(value: string)

  ghost predicate AttachmentsCarry(s: seq<Attachment>, x: Fact) {
    match x
    case AttachmentNamed(id, v) => v != "" && exists a :: a in s && a.id == id && a.filename == v
    case AttachmentTyped(id, v) => v != "" && exists a :: a in s && a.id == id && a.mimeType == v
    case AttachmentSized(id, n) => exists a :: a in s && a.id == id && a.size == n
    case _ => false
  }

  ghost predicate Carries(r: Row, x: Fact) {
    match x
    case FieldIs(f, v) => f != Snippet && v != "" && Get(r, f) == Some(v)
    case BodyGiven => r.body.Some?
    case LabelsKnown => r.labelsPresent
    case Labelled(v) => v in r.labels
    case SentTo(v) => v in r.to
    case _ => AttachmentsCarry(r.attachments, x)
  }

  /** Two values for one slot. */
  predicate Clash(x: Fact, y: Fact) {
    match (x, y)
    case (FieldIs(f, v), FieldIs(g, w)) => f == g && v != w
    case (AttachmentNamed(i, v), AttachmentNamed(j, w)) => i == j && v != w
    case (AttachmentTyped(i, v), AttachmentTyped(j, w)) => i == j && v != w
    case (AttachmentSized(i, n), AttachmentSized(j, k)) => i == j && n != k
    case _ => false
  }

  ghost predicate NoClash(p: Row, q: Row) {
    forall x, y :: Carries(p, x) && Carries(q, y) ==> !Clash(x, y)
  }

  ghost predicate SameFields(p: Row, q: Row) {
    forall f: RowField :: f != Snippet ==> Agree(Get(p, f), Get(q, f))
  }

  ghost predicate SameAttachments(p: seq<Attachment>, q: seq<Attachment>) {
    forall a, b :: a in p && b in q && a.id == b.id ==> SameAttachment(a, b)
  }

  /** No different present values of thread id, timestamp, body, subject or sender, nor of
      name, type or size of one attachment. */
  ghost predicate Compatible(p: Row, q: Row) {
    SameFields(p, q) && SameAttachments(p.attachments, q.attachments)
  }

  lemma ClashBreaksCompatible(p: Row, q: Row, x: Fact, y: Fact)
    requires Carries(p, x) && Carries(q, y) && Clash(x, y)
    ensures !Compatible(p, q)
  {
    if x.FieldIs? {
      assert !Agree(Get(p, x.field), Get(q, x.field));
    } else {
      var a :| a in p.attachments && a.id == x.id &&
        match x case AttachmentNamed(_, v) => a.filename == v case AttachmentTyped(_, v) => a.mimeType == v
                case AttachmentSized(_, n) => a.size == n case _ => false;
      var b :| b in q.attachments && b.id == y.id &&
        match y case AttachmentNamed(_, v) => b.filename == v case AttachmentTyped(_, v) => b.mimeType == v
                case AttachmentSized(_, n) => b.size == n case _ => false;
      assert !SameAttachment(a, b);
    }
  }

  lemma NoClashGivesCompatible(p: Row, q: Row)
    requires NoClash(p, q)
    ensures Compatible(p, q)
  {
    forall f: RowField | f != Snippet && Present(Get(p, f)) && Present(Get(q, f))
      ensures Agree(Get(p, f), Get(q, f))
    {
      var x, y := FieldIs(f, Get(p, f).value), FieldIs(f, Get(q, f).value);
      assert Carries(p, x) && Carries(q, y);
    }
    forall a, b | a in p.attachments && b in q.attachments && a.id == b.id
      ensures SameAttachment(a, b)
    {
      if a.filename != "" && b.filename != "" {
        assert Carries(p, AttachmentNamed(a.id, a.filename)) && Carries(q, AttachmentNamed(b.id, b.filename));
      }
      if a.mimeType != "" && b.mimeType != "" {
        assert Carries(p, AttachmentTyped(a.id, a.mimeType)) && Carries(q, AttachmentTyped(b.id, b.mimeType));
      }
      assert Carries(p, AttachmentSized(a.id, a.size)) && Carries(q, AttachmentSized(b.id, b.size));
    }
  }

  lemma CompatibleIffNoClash(p: Row, q: Row)
    ensures Compatible(p, q) <==> NoClash(p, q)
  {
    if Compatible(p, q) {
      forall x, y | Carries(p, x) && Carries(q, y)
        ensures !Clash(x, y)
      {
        if Clash(x, y) {
          ClashBreaksCompatible(p, q, x, y);
        }
      }
    } else if NoClash(p, q) {
      NoClashGivesCompatible(p, q);
    }
  }

  // ----- attachments

  /** `c` holds every known value of the attachments with its id, and nothing else. */
  ghost predicate Summarises(c: Attachment, items: seq<Attachment>) {
    && (forall a :: a in items && a.id == c.id ==>
          && a.size == c.size
          && (a.filename != "" ==> a.filename == c.filename)
          && (a.mimeType != "" ==> a.mimeType == c.mimeType))
    && (exists a :: a in items && a.id == c.id)
    && (c.filename != "" ==> exists a :: a in items && a.id == c.id && a.filename == c.filename)
    && (c.mimeType != "" ==> exists a :: a in items && a.id == c.id && a.mimeType == c.mimeType)
  }

  ghost predicate Collected(m: map<string, Attachment>, items: seq<Attachment>) {
    && (forall a :: a in items ==> a.id in m)
    && (forall k :: k in m ==> m[k].id == k && Summarises(m[k], items))
  }

  predicate Fits(m: map<string, Attachment>, next: Attachment) {
    next.id in m ==> SameAttachment(m[next.id], next)
  }

  lemma FitsIffSame(m: map<string, Attachment>, before: seq<Attachment>, next: Attachment)
    requires Collected(m, before)
    ensures Fits(m, next) <==> forall a :: a in before && a.id == next.id ==> SameAttachment(a, next)
  {
    if next.id in m {
      var c := m[next.id];
      assert Summarises(c, before);
    }
  }

  lemma SummaryGrows(c: Attachment, before: seq<Attachment>, next: Attachment)
    requires Summarises(c, before)
    requires c.id == next.id ==> SameAttachment(c, next)
    ensures Summarises(if c.id == next.id then FillAttachment(c, next) else c, before + [next])
  {
    var items := before + [next];
    assert next in items && forall a :: a in items <==> a in before || a == next;
  }

  lemma SummaryOfNew(before: seq<Attachment>, next: Attachment)
    requires forall a :: a in before ==> a.id != next.id
    ensures Summarises(next, before + [next])
  {
    var items := before + [next];
    assert next in items && forall a :: a in items <==> a in before || a == next;
  }

  function Added(m: map<string, Attachment>, next: Attachment): map<string, Attachment> {
    m[next.id := if next.id in m then FillAttachment(m[next.id], next) else next]
  }

  lemma EntryGrows(m: map<string, Attachment>, before: seq<Attachment>, next: Attachment, k: string)
    requires Collected(m, before) && Fits(m, next) && k in Added(m, next)
    ensures Added(m, next)[k].id == k && Summarises(Added(m, next)[k], before + [next])
  {
    if k in m {
      SummaryGrows(m[k], before, next);
    } else {
      SummaryOfNew(before, next);
    }
  }

  lemma CollectedGrows(m: map<string, Attachment>, before: seq<Attachment>, next: Attachment)
    requires Collected(m, before) && Fits(m, next)
    ensures Collected(Added(m, next), before + [next])
  {
    forall k | k in Added(m, next)
      ensures Added(m, next)[k].id == k && Summarises(Added(m, next)[k], before + [next])
    {
      EntryGrows(m, before, next, k);
    }
  }

  lemma {:induction false} CollectMeaning(items: seq<Attachment>, id: string)
    ensures Collect(items, id).Ok? <==> SameAttachments(items, items)
    ensures Collect(items, id).Ok? ==> Collected(Collect(items, id).value, items)
  {
    if items != [] {
      var before, next := items[..|items| - 1], items[|items| - 1];
      assert items == before + [next];
      assert forall a :: a in items <==> a in before || a == next;
      CollectMeaning(before, id);
      if Collect(before, id).Ok? {
        var m := Collect(before, id).value;
        FitsIffSame(m, before, next);
        if Fits(m, next) {
          CollectedGrows(m, before, next);
        }
      }
    }
  }

  ghost predicate AscendingIds(s: seq<Attachment>) {
    forall i, j :: 0 <= i < j < |s| ==> Le(s[i].id, s[j].id) && s[i].id != s[j].id
  }

  lemma InIdOrderHolds(m: map<string, Attachment>)
    requires forall k :: k in m ==> m[k].id == k
    ensures forall a :: a in InIdOrder(m) <==> a.id in m && m[a.id] == a
    ensures AscendingIds(InIdOrder(m))
  {
    var ids := Sorted(m.Keys);
    forall a: Attachment | a.id in m && m[a.id] == a
      ensures a in InIdOrder(m)
    {
      var i :| 0 <= i < |ids| && ids[i] == a.id;
      assert InIdOrder(m)[i] == a;
    }
  }

  // ----- one merge

  /** The canonical shape of a merged row. */
  ghost predicate Merged(r: Row) {
    && r.labels == Sorted(Elements(r.labels))
    && r.to == Sorted(Elements(r.to))
    && AscendingIds(r.attachments)
    && r.identityOnly == FieldsLeaveIdentityOnly(r)
    && Classified(r)
  }

  ghost predicate Union(m: Row, a: Row, b: Row) {
    forall x :: Carries(m, x) <==> Carries(a, x) || Carries(b, x)
  }

  lemma FirstConflictMeaning(a: Row, b: Row, i: nat)
    requires i <= |CONFLICT_FIELDS|
    ensures FirstConflict(a, b, i).None? <==> forall j :: i <= j < |CONFLICT_FIELDS| ==>
      Agree(Get(a, CONFLICT_FIELDS[j]), Get(b, CONFLICT_FIELDS[j]))
    decreases |CONFLICT_FIELDS| - i
  {
  }

  lemma NoConflictIffSameFields(a: Row, b: Row)
    ensures FirstConflict(a, b, 0).None? <==> SameFields(a, b)
  {
    FirstConflictMeaning(a, b, 0);
    assert CONFLICT_FIELDS[0] == ThreadId && CONFLICT_FIELDS[1] == EmailTs;
    assert CONFLICT_FIELDS[2] == Body && CONFLICT_FIELDS[3] == Subject && CONFLICT_FIELDS[4] == From;
    if FirstConflict(a, b, 0).None? {
      forall f: RowField | f != Snippet
        ensures Agree(Get(a, f), Get(b, f))
      {
        var j :| 0 <= j < 5 && CONFLICT_FIELDS[j] == f;
      }
    }
  }

  /** A merge succeeds exactly when nothing clashes, inside either row or between them. */
  lemma JoinSucceedsIff(a: Row, b: Row)
    requires a.id == b.id
    ensures Join(a, b).Ok? <==> Compatible(a, b) && SameAttachments(a.attachments, a.attachments)
                                && SameAttachments(b.attachments, b.attachments)
  {
    NoConflictIffSameFields(a, b);
    var items := a.attachments + b.attachments;
    CollectMeaning(items, a.id);
    assert forall x :: x in items <==> x in a.attachments || x in b.attachments;
  }

  ghost predicate IsFilled(m: Row, a: Row, b: Row, f: RowField) {
    Get(m, f) == Fill(Get(Richer(a, b), f), Get(Other(a, b), f))
  }

  /** A merged row, field by field. */
  ghost predicate IsJoin(m: Row, a: Row, b: Row) {
    && m.id == a.id
    && (forall f: RowField :: IsFilled(m, a, b, f))
    && m.to == Sorted(Elements(a.to) + Elements(b.to))
    && m.labels == Sorted(Elements(a.labels) + Elements(b.labels))
    && m.labelsPresent == (a.labelsPresent || b.labelsPresent)
    && JoinAttachments(a.attachments + b.attachments, a.id) == Ok(m.attachments)
    && m.identityOnly == FieldsLeaveIdentityOnly(m)
    && Classified(m)
  }

  lemma JoinFills(a: Row, b: Row, f: RowField)
    requires Join(a, b).Ok?
    ensures IsFilled(Join(a, b).value, a, b, f)
  {
  }

  lemma JoinShape(a: Row, b: Row)
    requires Join(a, b).Ok?
    ensures IsJoin(Join(a, b).value, a, b)
  {
    forall f: RowField {
      JoinFills(a, b, f);
    }
  }

  lemma SortedUnion(s: set<string>, t: set<string>)
    ensures var u := Sorted(s + t); u == Sorted(Elements(u)) && forall x :: x in u <==> x in s || x in t
  {
    assert Elements(Sorted(s + t)) == s + t;
  }

  lemma CollectedCarries(m: map<string, Attachment>, items: seq<Attachment>, x: Fact)
    requires Collected(m, items)
    ensures AttachmentsCarry(InIdOrder(m), x) <==> AttachmentsCarry(items, x)
  {
    InIdOrderHolds(m);
    var s := InIdOrder(m);
    assert forall c :: c in s ==> Summarises(c, items);
    if AttachmentsCarry(items, x) {
      var a :| a in items && a.id == x.id;
      assert m[a.id] in s && Summarises(m[a.id], items);
    }
  }

  lemma JoinCollects(a: Row, b: Row, m: Row) returns (c: map<string, Attachment>)
    requires IsJoin(m, a, b)
    ensures Collected(c, a.attachments + b.attachments) && m.attachments == InIdOrder(c)
  {
    var items := a.attachments + b.attachments;
    CollectMeaning(items, a.id);
    c := Collect(items, a.id).value;
  }

  lemma CarriedByEither(p: seq<Attachment>, q: seq<Attachment>, x: Fact)
    ensures AttachmentsCarry(p + q, x) <==> AttachmentsCarry(p, x) || AttachmentsCarry(q, x)
  {
    assert forall c :: c in p + q <==> c in p || c in q;
  }

  lemma JoinedAttachments(a: Row, b: Row, m: Row, x: Fact)
    requires IsJoin(m, a, b)
    ensures AttachmentsCarry(m.attachments, x) <==> AttachmentsCarry(a.attachments, x) || AttachmentsCarry(b.attachments, x)
  {
    var c := JoinCollects(a, b, m);
    CollectedCarries(c, a.attachments + b.attachments, x);
    CarriedByEither(a.attachments, b.attachments, x);
  }

  lemma JoinedIds(a: Row, b: Row, m: Row)
    requires IsJoin(m, a, b)
    ensures AscendingIds(m.attachments)
    ensures forall c :: c in m.attachments ==> exists d :: (d in a.attachments || d in b.attachments) && d.id == c.id
  {
    var items := a.attachments + b.attachments;
    assert forall c :: c in items <==> c in a.attachments || c in b.attachments;
    var c := JoinCollects(a, b, m);
    InIdOrderHolds(c);
    assert forall d :: d in m.attachments ==> Summarises(d, items);
  }

  lemma RicherAndOther(a: Row, b: Row)
    ensures (Richer(a, b) == a && Other(a, b) == b) || (Richer(a, b) == b && Other(a, b) == a)
    ensures Richer(a, b).body.None? ==> Other(a, b).body.None?
  {
  }

  lemma JoinedFields(a: Row, b: Row, m: Row, x: Fact)
    requires IsJoin(m, a, b) && SameFields(a, b)
    requires x.FieldIs? || x.BodyGiven?
    ensures Carries(m, x) <==> Carries(a, x) || Carries(b, x)
  {
    RicherAndOther(a, b);
    var f := if x.FieldIs? then x.field else Body;
    assert IsFilled(m, a, b, f);
    if f != Snippet {
      assert Agree(Get(a, f), Get(b, f));
    }
  }

  lemma FilledFromEither(a: Row, b: Row, m: Row, f: RowField)
    requires IsFilled(m, a, b, f)
    ensures Get(m, f) == Get(a, f) || Get(m, f) == Get(b, f)
    ensures Present(Get(a, f)) || Present(Get(b, f)) ==> Present(Get(m, f))
  {
    RicherAndOther(a, b);
  }

  lemma FilledNonBlank(a: Row, b: Row, m: Row, f: RowField)
    requires IsFilled(m, a, b, f) && Get(a, f) != Some("") && Get(b, f) != Some("")
    ensures Get(m, f) != Some("")
  {
    FilledFromEither(a, b, m, f);
  }

  ghost predicate StampedBy(stamp: Stamp, r: Row) {
    r.emailTs.Some? ==> stamp(r.emailTs.value) == Time(r.emailTs) && r.emailTs.value != ""
  }

  lemma FilledStamp(stamp: Stamp, a: Row, b: Row, m: Row)
    requires IsFilled(m, a, b, EmailTs) && StampedBy(stamp, a) && StampedBy(stamp, b)
    ensures StampedBy(stamp, m)
  {
    FilledFromEither(a, b, m, EmailTs);
  }

  lemma JoinedTexts(stamp: Stamp, a: Row, b: Row, m: Row)
    requires Normal(stamp, a) && Normal(stamp, b)
    requires forall f: RowField :: IsFilled(m, a, b, f)
    ensures m.threadId != Some("") && m.from != Some("") && m.subject != Some("") && m.snippet != Some("")
    ensures StampedBy(stamp, m)
  {
    FilledNonBlank(a, b, m, ThreadId);
    FilledNonBlank(a, b, m, From);
    FilledNonBlank(a, b, m, Subject);
    FilledNonBlank(a, b, m, Snippet);
    FilledStamp(stamp, a, b, m);
  }

  lemma JoinedMark(a: Row, b: Row, m: Row)
    requires IsJoin(m, a, b)
    ensures m.threadId.None? || m.emailTs.None? || !m.labelsPresent ==> m.identityOnly
    ensures m.identityOnly ==> FieldsLeaveIdentityOnly(a) && FieldsLeaveIdentityOnly(b)
  {
    assert IsFilled(m, a, b, ThreadId) && IsFilled(m, a, b, EmailTs);
    FilledFromEither(a, b, m, ThreadId);
    FilledFromEither(a, b, m, EmailTs);
  }

  lemma JoinedClass(stamp: Stamp, a: Row, b: Row, m: Row)
    requires Normal(stamp, a) && Normal(stamp, b) && IsJoin(m, a, b) && SameFields(a, b)
    ensures m.threadId.None? || m.emailTs.None? || !m.labelsPresent ==> m.identityOnly
    ensures m.identityOnly ==> m.body.None?
  {
    JoinedMark(a, b, m);
    JoinedFields(a, b, m, BodyGiven);
  }

  lemma JoinedLists(stamp: Stamp, a: Row, b: Row, m: Row)
    requires Normal(stamp, a) && Normal(stamp, b) && IsJoin(m, a, b)
    ensures NonBlank(m.to) && NonBlank(m.labels)
    ensures forall c :: c in m.attachments ==> c.id != ""
  {
    JoinedIds(a, b, m);
  }

  lemma JoinIsNormal(stamp: Stamp, a: Row, b: Row, m: Row)
    requires Normal(stamp, a) && Normal(stamp, b) && IsJoin(m, a, b)
    requires SameFields(a, b)
    ensures Normal(stamp, m)
  {
    JoinedTexts(stamp, a, b, m);
    JoinedLists(stamp, a, b, m);
    JoinedClass(stamp, a, b, m);
  }

  lemma MembersOfUnion(a: seq<string>, b: seq<string>, x: string)
    ensures x in Sorted(Elements(a) + Elements(b)) <==> x in a || x in b
  {
    assert x in Elements(a) + Elements(b) <==> x in a || x in b;
  }

  lemma JoinedListFacts(a: Row, b: Row, m: Row, x: Fact)
    requires IsJoin(m, a, b) && (x.LabelsKnown? || x.Labelled? || x.SentTo?)
    ensures Carries(m, x) <==> Carries(a, x) || Carries(b, x)
  {
    if !x.LabelsKnown? {
      MembersOfUnion(a.labels, b.labels, x.value);
      MembersOfUnion(a.to, b.to, x.value);
    }
  }

  lemma JoinedAttachmentFacts(a: Row, b: Row, m: Row, x: Fact)
    requires IsJoin(m, a, b) && (x.AttachmentNamed? || x.AttachmentTyped? || x.AttachmentSized?)
    ensures Carries(m, x) <==> Carries(a, x) || Carries(b, x)
  {
    JoinedAttachments(a, b, m, x);
  }

  lemma JoinedFacts(a: Row, b: Row, m: Row, x: Fact)
    requires IsJoin(m, a, b) && SameFields(a, b)
    ensures Carries(m, x) <==> Carries(a, x) || Carries(b, x)
  {
    if x.FieldIs? || x.BodyGiven? {
      JoinedFields(a, b, m, x);
    } else if x.LabelsKnown? || x.Labelled? || x.SentTo? {
      JoinedListFacts(a, b, m, x);
    } else {
      JoinedAttachmentFacts(a, b, m, x);
    }
  }

  lemma JoinIsCanonical(a: Row, b: Row, m: Row)
    requires IsJoin(m, a, b)
    ensures Merged(m)
  {
    SortedUnion(Elements(a.to), Elements(b.to));
    SortedUnion(Elements(a.labels), Elements(b.labels));
    JoinedIds(a, b, m);
  }

  /** A successful merge carries the union of the facts, is canonical, and stays normal: in
      particular it is never both identity-only and body-bearing. */
  lemma JoinIsUnion(stamp: Stamp, a: Row, b: Row)
    requires Normal(stamp, a) && Normal(stamp, b)
    requires Join(a, b).Ok?
    ensures var m := Join(a, b).value;
      Union(m, a, b) && Normal(stamp, m) && Merged(m) && m.id == a.id
  {
    var m := Join(a, b).value;
    assert IsJoin(m, a, b) && SameFields(a, b) by {
      JoinShape(a, b);
      JoinSucceedsIff(a, b);
    }
    JoinIsCanonical(a, b, m);
    JoinIsNormal(stamp, a, b, m);
    forall x {
      JoinedFacts(a, b, m, x);
    }
  }

  // ----- a merged row is determined by its facts

  predicate SameButSnippet(p: Row, q: Row) {
    p.(snippet := None) == q.(snippet := None)
  }

  ghost predicate SameFacts(p: Row, q: Row) {
    forall x :: Carries(p, x) <==> Carries(q, x)
  }

  lemma AttachmentFrom(p: seq<Attachment>, q: seq<Attachment>, a: Attachment)
    requires AscendingIds(p) && AscendingIds(q) && a in p
    requires forall x :: AttachmentsCarry(p, x) <==> AttachmentsCarry(q, x)
    ensures a in q
  {
    assert AttachmentsCarry(p, AttachmentSized(a.id, a.size));
    var b :| b in q && b.id == a.id && b.size == a.size;
    assert AttachmentsCarry(q, AttachmentSized(b.id, b.size));
    if a.filename != "" {
      assert AttachmentsCarry(p, AttachmentNamed(a.id, a.filename));
    }
    if b.filename != "" {
      assert AttachmentsCarry(q, AttachmentNamed(b.id, b.filename));
    }
    if a.mimeType != "" {
      assert AttachmentsCarry(p, AttachmentTyped(a.id, a.mimeType));
    }
    if b.mimeType != "" {
      assert AttachmentsCarry(q, AttachmentTyped(b.id, b.mimeType));
    }
  }

  lemma {:induction false} AscendingIdsUnique(p: seq<Attachment>, q: seq<Attachment>)
    requires AscendingIds(p) && AscendingIds(q)
    requires forall a :: a in p <==> a in q
    ensures p == q
  {
    assert |p| == |q| by {
      DistinctCount(p);
      DistinctCount(q);
      assert Elements(p) == Elements(q);
    }
    if p != [] {
      assert p[0] in q && q[0] in p;
      assert p[0] == q[0] by {
        LeTotal(p[0].id, p[0].id);
        LeAntisymmetric(p[0].id, q[0].id);
      }
      forall a
        ensures a in p[1..] <==> a in q[1..]
      {
        assert a in p[1..] <==> a in p && a != p[0];
        assert a in q[1..] <==> a in q && a != q[0];
      }
      AscendingIdsUnique(p[1..], q[1..]);
      assert p == [p[0]] + p[1..] && q == [q[0]] + q[1..];
    }
  }

  lemma SameFactsSameField(p: Row, q: Row, f: RowField)
    requires SameFacts(p, q) && f != Snippet
    requires Get(p, f).Some? ==> f == Body || Get(p, f) != Some("")
    requires Get(q, f).Some? ==> f == Body || Get(q, f) != Some("")
    ensures Get(p, f) == Get(q, f)
  {
    if Present(Get(p, f)) {
      assert Carries(p, FieldIs(f, Get(p, f).value));
    }
    if Present(Get(q, f)) {
      assert Carries(q, FieldIs(f, Get(q, f).value));
    }
    assert Carries(p, BodyGiven) <==> Carries(q, BodyGiven);
  }

  lemma SameFactsSameLists(p: Row, q: Row)
    requires SameFacts(p, q) && Merged(p) && Merged(q)
    ensures p.labels == q.labels && p.to == q.to && p.labelsPresent == q.labelsPresent
  {
    assert Carries(p, LabelsKnown) <==> Carries(q, LabelsKnown);
    forall v
      ensures v in p.labels <==> v in q.labels
      ensures v in p.to <==> v in q.to
    {
      assert Carries(p, Labelled(v)) <==> Carries(q, Labelled(v));
      assert Carries(p, SentTo(v)) <==> Carries(q, SentTo(v));
    }
    assert Elements(p.labels) == Elements(q.labels) && Elements(p.to) == Elements(q.to);
  }

  lemma SameFactsSameAttachments(p: Row, q: Row)
    requires SameFacts(p, q) && Merged(p) && Merged(q)
    ensures p.attachments == q.attachments
  {
    forall x
      ensures AttachmentsCarry(p.attachments, x) <==> AttachmentsCarry(q.attachments, x)
    {
      assert Carries(p, x) <==> Carries(q, x);
    }
    forall a
      ensures a in p.attachments <==> a in q.attachments
    {
      if a in p.attachments {
        AttachmentFrom(p.attachments, q.attachments, a);
      }
      if a in q.attachments {
        AttachmentFrom(q.attachments, p.attachments, a);
      }
    }
    AscendingIdsUnique(p.attachments, q.attachments);
  }

  lemma FactsDetermineRow(stamp: Stamp, p: Row, q: Row)
    requires Normal(stamp, p) && Normal(stamp, q) && Merged(p) && Merged(q)
    requires p.id == q.id && SameFacts(p, q)
    ensures SameButSnippet(p, q)
  {
    SameFactsSameField(p, q, ThreadId);
    SameFactsSameField(p, q, EmailTs);
    SameFactsSameField(p, q, Body);
    SameFactsSameField(p, q, Subject);
    SameFactsSameField(p, q, From);
    SameFactsSameLists(p, q);
    SameFactsSameAttachments(p, q);
  }

  // ----- folding a group of observations

  /** What the audit keeps for one message: its only observation, or the merge of them in order. */
  function FoldRows(rows: seq<Row>): Result<Row, ChainError>
    requires rows != []
  {
    if |rows| == 1 then Ok(rows[0]) else
    var m :- FoldRows(rows[..|rows| - 1]);
    Join(m, rows[|rows| - 1])
  }

  ghost predicate OneMessage(stamp: Stamp, rows: seq<Row>) {
    forall p, q :: p in rows && q in rows ==> Normal(stamp, p) && p.id == q.id
  }

  ghost predicate AllCompatible(rows: seq<Row>) {
    forall p, q :: p in rows && q in rows ==> Compatible(p, q)
  }

  ghost predicate CarriesAll(m: Row, rows: seq<Row>) {
    forall x :: Carries(m, x) <==> exists p :: p in rows && Carries(p, x)
  }

  lemma NoClashWithAll(m: Row, rows: seq<Row>, q: Row)
    requires CarriesAll(m, rows)
    ensures NoClash(m, q) <==> forall p :: p in rows ==> NoClash(p, q)
  {
    if NoClash(m, q) {
      forall p, x, y | p in rows && Carries(p, x) && Carries(q, y)
        ensures !Clash(x, y)
      {
        assert Carries(m, x);
      }
    }
  }

  lemma CompatibleWithAll(m: Row, rows: seq<Row>, q: Row)
    requires CarriesAll(m, rows)
    ensures Compatible(m, q) <==> forall p :: p in rows ==> Compatible(p, q)
  {
    CompatibleIffNoClash(m, q);
    forall p | p in rows
      ensures Compatible(p, q) <==> NoClash(p, q)
    {
      CompatibleIffNoClash(p, q);
    }
    NoClashWithAll(m, rows, q);
  }

  lemma CompatibleSymmetric(p: Row, q: Row)
    requires Compatible(p, q)
    ensures Compatible(q, p)
  {
  }

  lemma GrowCompatible(rows: seq<Row>, m: Row, last: Row)
    requires CarriesAll(m, rows) && AllCompatible(rows)
    ensures Compatible(m, last) <==> forall p :: p in rows ==> Compatible(p, last)
    ensures SameAttachments(m.attachments, m.attachments)
  {
    CompatibleWithAll(m, rows, last);
    forall q | q in rows
      ensures Compatible(q, m)
    {
      CompatibleWithAll(m, rows, q);
      CompatibleSymmetric(m, q);
    }
    CompatibleWithAll(m, rows, m);
  }

  lemma PairMerges(stamp: Stamp, a: Row, b: Row, rows: seq<Row>)
    requires OneMessage(stamp, rows) && forall p :: p in rows <==> p == a || p == b
    ensures Join(a, b).Ok? <==> AllCompatible(rows)
    ensures Join(a, b).Ok? ==> var m := Join(a, b).value;
      CarriesAll(m, rows) && Normal(stamp, m) && Merged(m) && m.id == a.id
  {
    assert a in rows && b in rows;
    JoinSucceedsIff(a, b);
    if Join(a, b).Ok? {
      JoinIsUnion(stamp, a, b);
      CompatibleSymmetric(a, b);
    }
  }

  lemma CompatibleGrows(before: seq<Row>, last: Row, rows: seq<Row>)
    requires rows == before + [last] && AllCompatible(before)
    requires forall p :: p in before ==> Compatible(p, last)
    requires Compatible(last, last)
    ensures AllCompatible(rows)
  {
    assert forall p :: p in rows <==> p in before || p == last;
    forall p | p in before
      ensures Compatible(last, p)
    {
      CompatibleSymmetric(p, last);
    }
  }

  lemma GroupGrows(stamp: Stamp, before: seq<Row>, m: Row, last: Row, rows: seq<Row>)
    requires OneMessage(stamp, rows) && before != [] && rows == before + [last]
    requires AllCompatible(before) && CarriesAll(m, before)
    requires Normal(stamp, m) && m.id == last.id
    ensures Join(m, last).Ok? <==> AllCompatible(rows)
    ensures Join(m, last).Ok? ==> var r := Join(m, last).value;
      CarriesAll(r, rows) && Normal(stamp, r) && Merged(r) && r.id == m.id
  {
    assert last in rows && forall p :: p in rows <==> p in before || p == last;
    JoinSucceedsIff(m, last);
    GrowCompatible(before, m, last);
    if Join(m, last).Ok? {
      JoinIsUnion(stamp, m, last);
      CompatibleGrows(before, last, rows);
    }
  }

  /** Two or more observations of one message merge without error exactly when no two of them,
      nor the attachments inside one of them, carry different present values; the result then
      carries exactly what they carry together. */
  lemma {:induction false} GroupMerges(stamp: Stamp, rows: seq<Row>)
    requires |rows| >= 2 && OneMessage(stamp, rows)
    ensures FoldRows(rows).Ok? <==> AllCompatible(rows)
    ensures FoldRows(rows).Ok? ==> var m := FoldRows(rows).value;
      CarriesAll(m, rows) && Normal(stamp, m) && Merged(m) && m.id == rows[0].id
  {
    var before, last := rows[..|rows| - 1], rows[|rows| - 1];
    assert rows == before + [last] && before[0] == rows[0];
    assert forall p :: p in rows <==> p in before || p == last;
    if |before| == 1 {
      assert before == [rows[0]] && FoldRows(before) == Ok(rows[0]);
      PairMerges(stamp, rows[0], last, rows);
    } else {
      GroupMerges(stamp, before);
      if FoldRows(before).Ok? {
        GroupGrows(stamp, before, FoldRows(before).value, last, rows);
      }
    }
  }

  /** Neither the order in which two or more observations of one message arrive nor their
      repetition matters: the outcome is a conflict either way, or the same row up to `snippet`. */
  lemma OrderIndependent(stamp: Stamp, rows: seq<Row>, other: seq<Row>)
    requires |rows| >= 2 && |other| >= 2 && OneMessage(stamp, rows)
    requires forall p :: p in rows <==> p in other
    ensures FoldRows(rows).Ok? <==> FoldRows(other).Ok?
    ensures FoldRows(rows).Ok? ==> SameButSnippet(FoldRows(rows).value, FoldRows(other).value)
  {
    assert other[0] in rows && rows[0] in rows;
    GroupMerges(stamp, rows);
    GroupMerges(stamp, other);
    if FoldRows(rows).Ok? {
      FactsDetermineRow(stamp, FoldRows(rows).value, FoldRows(other).value);
    }
  }

  lemma JoinSnippet(a: Row, b: Row)
    requires Join(a, b).Ok? && a.snippet != Some("") && b.snippet != Some("")
    ensures var s := Join(a, b).value.snippet;
      (s.Some? <==> a.snippet.Some? || b.snippet.Some?) && (s == a.snippet || s == b.snippet)
  {
    JoinFills(a, b, Snippet);
    RicherAndOther(a, b);
  }

  /** A fold has a snippet exactly when an observation has one, and it is the snippet of one of them. */
  lemma {:induction false} FoldSnippet(stamp: Stamp, rows: seq<Row>)
    requires rows != [] && OneMessage(stamp, rows) && FoldRows(rows).Ok?
    ensures var s := FoldRows(rows).value.snippet;
      (s.Some? <==> exists p :: p in rows && p.snippet.Some?) && exists p :: p in rows && p.snippet == s
    ensures FoldRows(rows).value.snippet != Some("")
  {
    if |rows| == 1 {
      assert rows == [rows[0]];
    } else {
      var before, last := rows[..|rows| - 1], rows[|rows| - 1];
      assert forall p :: p in rows <==> p in before || p == last;
      FoldSnippet(stamp, before);
      JoinSnippet(FoldRows(before).value, last);
    }
  }

  ghost predicate SnippetsAgree(rows: seq<Row>) {
    forall p, q :: p in rows && q in rows && p.snippet.Some? && q.snippet.Some? ==> p.snippet == q.snippet
  }

  lemma SameFoldedSnippet(stamp: Stamp, rows: seq<Row>, other: seq<Row>)
    requires rows != [] && other != [] && OneMessage(stamp, rows) && SnippetsAgree(rows)
    requires forall p :: p in rows <==> p in other
    requires FoldRows(rows).Ok? && FoldRows(other).Ok?
    ensures FoldRows(rows).value.snippet == FoldRows(other).value.snippet
  {
    assert other[0] in rows && rows[0] in rows;
    FoldSnippet(stamp, rows);
    FoldSnippet(stamp, other);
    var s, t := FoldRows(rows).value.snippet, FoldRows(other).value.snippet;
    var p :| p in rows && p.snippet == s;
    var q :| q in other && q.snippet == t;
    assert q in rows;
  }

  /** Where no two observations carry different snippets, order and repetition do not matter at all. */
  lemma OrderFreeWithSnippet(stamp: Stamp, rows: seq<Row>, other: seq<Row>)
    requires |rows| >= 2 && |other| >= 2 && OneMessage(stamp, rows) && SnippetsAgree(rows)
    requires forall p :: p in rows <==> p in other
    ensures FoldRows(rows).Ok? <==> FoldRows(other).Ok?
    ensures FoldRows(rows).Ok? ==> FoldRows(rows) == FoldRows(other)
  {
    OrderIndependent(stamp, rows, other);
    if FoldRows(rows).Ok? {
      SameFoldedSnippet(stamp, rows, other);
    }
  }

  // ----- what the missing conflict check on `snippet` and the dropped mark cost

  lemma SwapKeepsFacts(stamp: Stamp, a: Row, b: Row)
    requires Normal(stamp, a) && Normal(stamp, b) && Join(a, b).Ok?
    ensures Join(b, a).Ok? && SameButSnippet(Join(a, b).value, Join(b, a).value)
  {
    JoinSucceedsIff(a, b);
    CompatibleSymmetric(a, b);
    JoinSucceedsIff(b, a);
    JoinIsUnion(stamp, a, b);
    JoinIsUnion(stamp, b, a);
    FactsDetermineRow(stamp, Join(a, b).value, Join(b, a).value);
  }

  lemma SnippetDecides(a: Row, b: Row, m: Row, w: Row)
    requires a.snippet != Some("") && b.snippet != Some("")
    requires IsFilled(m, a, b, Snippet) && IsFilled(w, b, a, Snippet) && SameButSnippet(m, w)
    ensures m != w <==>
      RichnessOf(a) == RichnessOf(b) && a.snippet.Some? && b.snippet.Some? && a.snippet != b.snippet
  {
    assert m == w <==> m.snippet == w.snippet;
    if RichnessOf(a) != RichnessOf(b) {
      assert Richer(a, b) == Richer(b, a) && Other(a, b) == Other(b, a);
    } else {
      assert Richer(a, b) == a && Other(a, b) == b && Richer(b, a) == b && Other(b, a) == a;
    }
  }

  /** Swapping two compatible observations changes the result exactly when they are equally rich
      and carry different snippets. */
  lemma SwapMatters(stamp: Stamp, a: Row, b: Row)
    requires Normal(stamp, a) && Normal(stamp, b) && Join(a, b).Ok?
    ensures Join(a, b) != Join(b, a) <==>
      RichnessOf(a) == RichnessOf(b) && a.snippet.Some? && b.snippet.Some? && a.snippet != b.snippet
  {
    SwapKeepsFacts(stamp, a, b);
    JoinFills(a, b, Snippet);
    JoinFills(b, a, Snippet);
    SnippetDecides(a, b, Join(a, b).value, Join(b, a).value);
  }

  /** Merging an observation with itself gives it back exactly when it already has the merged
      shape: sorted label and recipient lists, one attachment per id in order, and no
      identity-only mark that its fields do not show. */
  lemma SelfMerge(stamp: Stamp, a: Row)
    requires Normal(stamp, a)
    ensures Join(a, a) == Ok(a) <==> Merged(a)
  {
    if Join(a, a).Ok? {
      JoinIsUnion(stamp, a, a);
    }
    if Merged(a) {
      JoinSucceedsIff(a, a);
      JoinIsUnion(stamp, a, a);
      FactsDetermineRow(stamp, Join(a, a).value, a);
      JoinFills(a, a, Snippet);
    }
  }
}
