/** The size condition of the adapter, traced back to the supplied messages. */
module SuppliedSizes {
  import opened Basics
  import opened MessageRows
  import opened RowMergeLaws
  import opened PageChain
  import opened PageChainLaws
  import opened PageProjection
  import opened PageFields
  import opened PageAdapterLaws

  lemma CarriedSizes(m: Row, group: seq<Row>)
    requires CarriesAll(m, group)
    ensures NoNegativeSize(m.attachments) <==> forall p :: p in group ==> NoNegativeSize(p.attachments)
  {
    forall p, a | p in group && a in p.attachments
      ensures exists c :: c in m.attachments && c.size == a.size
    {
      assert Carries(p, AttachmentSized(a.id, a.size));
      assert Carries(m, AttachmentSized(a.id, a.size));
    }
    forall c | c in m.attachments
      ensures exists p, a :: p in group && a in p.attachments && a.size == c.size
    {
      assert Carries(m, AttachmentSized(c.id, c.size));
      var p :| p in group && Carries(p, AttachmentSized(c.id, c.size));
    }
  }

  lemma {:induction false} MergedSizes(stamp: Stamp, group: seq<Row>, m: Row)
    requires group != [] && OneMessage(stamp, group) && FoldRows(group) == Ok(m)
    ensures NoNegativeSize(m.attachments) <==> forall p :: p in group ==> NoNegativeSize(p.attachments)
  {
    if |group| == 1 {
      assert group == [m];
    } else {
      GroupMerges(stamp, group);
      CarriedSizes(m, group);
    }
  }

  /** The message can be exported: it was kept as identity-only, or no observation of it has a negative size. */
  ghost predicate SuppliedExportable(seen: seq<Sighting>, t: Tally, id: string)
    requires id in t.merged
  {
    t.merged[id].identityOnly || forall p :: p in Group(seen, id) ==> NoNegativeSize(p.attachments)
  }

  lemma KeptExportableIff(stamp: Stamp, seen: seq<Sighting>, t: Tally, id: string)
    requires AllNormal(stamp, seen) && Describes(stamp, seen, t) && id in t.merged
    ensures Exportable(t.merged[id]) <==> SuppliedExportable(seen, t, id)
  {
    assert DescribesId(stamp, seen, t, id);
    GroupIsOneMessage(stamp, seen, id);
    MergedSizes(stamp, Group(seen, id), t.merged[id]);
  }

  ghost predicate FirstOnExportable(t: Tally, page: nat)
    requires forall id :: id in t.merged ==> id in t.firstPage
  {
    forall id :: id in t.merged && t.firstPage[id] == page ==> Exportable(t.merged[id])
  }

  lemma PageSizesIff(stamp: Stamp, t: Tally, page: nat)
    requires Filed(stamp, t)
    ensures AllExportable(PageRows(t, page)) <==> FirstOnExportable(t, page)
  {
    PageRowsAre(stamp, t, page);
    if AllExportable(PageRows(t, page)) {
      forall id | id in t.merged && t.firstPage[id] == page
        ensures Exportable(t.merged[id])
      {
        assert t.merged[id] in PageRows(t, page);
      }
    }
  }

  lemma TallySizesIff(stamp: Stamp, pages: seq<Payload>, t: Tally)
    requires Filed(stamp, t) && forall id :: id in t.merged ==> t.firstPage[id] < |pages|
    ensures SizesAllowed(Rewritten(pages, t)) <==> forall id :: id in t.merged ==> Exportable(t.merged[id])
  {
    var out := Rewritten(pages, t);
    forall i | 0 <= i < |pages|
      ensures SizesAllowedOn(out[i]) <==> FirstOnExportable(t, i)
    {
      SizesAllowedIsExportable(out[i], PageRows(t, i));
      PageSizesIff(stamp, t, i);
    }
    if SizesAllowed(out) {
      forall id | id in t.merged
        ensures Exportable(t.merged[id])
      {
        assert FirstOnExportable(t, t.firstPage[id]);
      }
    }
  }

  /** Read off the supplied messages: no size is refused exactly when every message that is not kept as
      identity-only was never observed with a negative size. */
  lemma SizesAllowedIff(stamp: Stamp, pages: seq<Payload>)
    requires Audit(stamp, pages).Ok?
    ensures AllRead(stamp, Sights(pages)) && AbsorbAll(stamp, Sights(pages)).Ok?
    ensures var seen, t := ReadAll(stamp, Sights(pages)), AbsorbAll(stamp, Sights(pages)).value;
      SizesAllowed(Audit(stamp, pages).value.pages) <==> forall id :: id in t.merged ==> SuppliedExportable(seen, t, id)
  {
    AuditAcceptsIff(stamp, pages);
    AuditedChain(stamp, pages);
    var seen, t := ReadAll(stamp, Sights(pages)), AbsorbAll(stamp, Sights(pages)).value;
    ReadAllIsNormal(stamp, Sights(pages));
    KeptOnPages(stamp, pages, t);
    TallySizesIff(stamp, pages, t);
    forall id | id in t.merged
      ensures Exportable(t.merged[id]) <==> SuppliedExportable(seen, t, id)
    {
      KeptExportableIff(stamp, seen, t, id);
    }
  }
}
