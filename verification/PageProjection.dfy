/** The rewritten pages: every message on exactly one page, and a second audit changes nothing. */
module PageProjection {
  import opened Basics
  import opened Ordering
  import opened MessageRows
  import opened PageChain
  import opened PageChainLaws

  /** A tally whose rows are normal, filed under their own id, and placed on a page. */
  ghost predicate Filed(stamp: Stamp, t: Tally) {
    && (forall id :: id in t.merged <==> id in t.firstPage)
    && (forall id :: id in t.merged ==> Normal(stamp, t.merged[id]) && t.merged[id].id == id)
  }

  lemma DescribedIsFiled(stamp: Stamp, seen: seq<Sighting>, t: Tally)
    requires Describes(stamp, seen, t)
    ensures Filed(stamp, t)
  {
    forall id
      ensures (id in t.merged <==> id in t.firstPage)
      ensures id in t.merged ==> Normal(stamp, t.merged[id]) && t.merged[id].id == id
    {
      assert DescribesId(stamp, seen, t, id);
    }
  }

  lemma {:induction false} RowsFirstOnAre(stamp: Stamp, ids: seq<string>, t: Tally, page: nat)
    requires Filed(stamp, t) && NoDuplicates(ids)
    ensures forall r :: r in RowsFirstOn(ids, t, page) <==>
      r.id in ids && r.id in t.merged && t.firstPage[r.id] == page && r == t.merged[r.id]
    ensures forall i, j :: 0 <= i < j < |RowsFirstOn(ids, t, page)| ==>
      RowsFirstOn(ids, t, page)[i].id != RowsFirstOn(ids, t, page)[j].id
  {
    if ids != [] {
      RowsFirstOnAre(stamp, ids[1..], t, page);
      assert ids == [ids[0]] + ids[1..];
      assert ids[0] !in ids[1..];
    }
  }

  /** The rows of one rewritten page. */
  lemma PageRowsAre(stamp: Stamp, t: Tally, page: nat)
    requires Filed(stamp, t)
    ensures forall r :: r in PageRows(t, page) <==> r.id in t.merged && t.firstPage[r.id] == page && r == t.merged[r.id]
    ensures forall i, j :: 0 <= i < j < |PageRows(t, page)| ==> PageRows(t, page)[i].id != PageRows(t, page)[j].id
  {
    RowsFirstOnAre(stamp, Sorted(t.merged.Keys), t, page);
  }

  ghost predicate PlacedAt(pages: seq<Payload>, id: string, k: nat, i: nat) {
    k < |pages| && i < |pages[k].messages| && pages[k].messages[i].id == Some(id)
  }

  lemma PlacedRow(stamp: Stamp, pages: seq<Payload>, t: Tally, id: string, k: nat, i: nat)
    requires Filed(stamp, t) && PlacedAt(Rewritten(pages, t), id, k, i)
    ensures id in t.merged && t.firstPage[id] == k && i < |PageRows(t, k)| && PageRows(t, k)[i] == t.merged[id]
  {
    PageRowsAre(stamp, t, k);
    assert PageRows(t, k)[i] in PageRows(t, k);
  }

  lemma ItemPlaced(pages: seq<Payload>, t: Tally, k: nat, i: nat)
    requires k < |pages| && i < |PageRows(t, k)|
    ensures PlacedAt(Rewritten(pages, t), PageRows(t, k)[i].id, k, i)
  {
  }

  lemma RowPlaced(stamp: Stamp, pages: seq<Payload>, t: Tally, id: string)
    requires Filed(stamp, t) && id in t.merged && t.firstPage[id] < |pages|
    ensures exists i :: PlacedAt(Rewritten(pages, t), id, t.firstPage[id], i)
  {
    var k := t.firstPage[id];
    var rows := PageRows(t, k);
    PageRowsAre(stamp, t, k);
    assert t.merged[id] in rows;
    var i :| 0 <= i < |rows| && rows[i] == t.merged[id];
    ItemPlaced(pages, t, k, i);
  }

  lemma PlacedOnce(stamp: Stamp, pages: seq<Payload>, t: Tally, id: string, k: nat, i: nat, l: nat, j: nat)
    requires Filed(stamp, t) && PlacedAt(Rewritten(pages, t), id, k, i) && PlacedAt(Rewritten(pages, t), id, l, j)
    ensures k == l && i == j
  {
    PlacedRow(stamp, pages, t, id, k, i);
    PlacedRow(stamp, pages, t, id, l, j);
    PageRowsAre(stamp, t, k);
  }

  lemma PlacedIffObserved(stamp: Stamp, pages: seq<Payload>, seen: seq<Sighting>, t: Tally, id: string)
    requires Filed(stamp, t) && Describes(stamp, seen, t) && forall s :: s in seen ==> s.page < |pages|
    ensures Observed(seen, id) ==> exists k, i :: PlacedAt(Rewritten(pages, t), id, k, i) && IsFirstPage(seen, id, k)
    ensures (exists k, i :: PlacedAt(Rewritten(pages, t), id, k, i)) ==> Observed(seen, id)
  {
    assert DescribesId(stamp, seen, t, id);
    if Observed(seen, id) {
      assert exists s :: s in seen && s.row.id == id && s.page == t.firstPage[id];
      RowPlaced(stamp, pages, t, id);
    }
    if k, i :| PlacedAt(Rewritten(pages, t), id, k, i) {
      PlacedRow(stamp, pages, t, id, k, i);
    }
  }

  /** Conservation. Every observed message is on exactly one rewritten page, at one place, and that
      page is the earliest that carried it; nothing else is on the pages. Every supplied row is
      counted once, as unique or as a duplicate. */
  lemma EachMessageOnce(stamp: Stamp, pages: seq<Payload>)
    requires Audit(stamp, pages).Ok?
    ensures AllRead(stamp, Sights(pages))
    ensures var c, seen := Audit(stamp, pages).value, ReadAll(stamp, Sights(pages));
      && (forall id :: Observed(seen, id) ==> exists k, i :: PlacedAt(c.pages, id, k, i) && IsFirstPage(seen, id, k))
      && (forall id, k, i :: PlacedAt(c.pages, id, k, i) ==> Observed(seen, id))
      && (forall id, k, i, l, j :: PlacedAt(c.pages, id, k, i) && PlacedAt(c.pages, id, l, j) ==> k == l && i == j)
      && c.report.rawMessageCount == |Sights(pages)| == c.report.uniqueMessageCount + c.report.duplicateMessageCount
  {
    AuditAcceptsIff(stamp, pages);
    var seen, t := ReadAll(stamp, Sights(pages)), AbsorbAll(stamp, Sights(pages)).value;
    DescribedIsFiled(stamp, seen, t);
    SightsAscend(pages, |pages|);
    forall id {
      PlacedIffObserved(stamp, pages, seen, t, id);
    }
    forall id, k, i, l, j | PlacedAt(Rewritten(pages, t), id, k, i) && PlacedAt(Rewritten(pages, t), id, l, j) {
      PlacedOnce(stamp, pages, t, id, k, i, l, j);
    }
  }

  // ----- auditing the audited pages

  /** Sights that repeat no message and show exactly what a tally holds for each of theirs. */
  ghost predicate Mirrors(sights: seq<Sight>, ids: seq<string>, t: Tally) {
    && |sights| == |ids| && NoDuplicates(ids)
    && forall i :: 0 <= i < |sights| ==>
      ids[i] in t.merged && ids[i] in t.firstPage && sights[i] == Sight(t.firstPage[ids[i]], AsItem(t.merged[ids[i]]))
  }

  function Restricted<T>(m: map<string, T>, ids: seq<string>): map<string, T> {
    map id | id in m && id in ids :: m[id]
  }

  lemma AbsorbNew(stamp: Stamp, u: Tally, page: nat, row: Row)
    requires Normal(stamp, row) && row.id !in u.merged
    ensures Absorb(stamp, u, Sight(page, AsItem(row))) ==
            Ok(Tally(u.merged[row.id := row], u.firstPage[row.id := page], u.raw + 1, u.duplicates))
  {
    Renormalise(stamp, row);
  }

  lemma RestrictedGrows<T>(m: map<string, T>, before: seq<string>, id: string)
    requires id in m
    ensures Restricted(m, before + [id]) == Restricted(m, before)[id := m[id]]
  {
  }

  lemma MirrorsPrefix(sights: seq<Sight>, ids: seq<string>, t: Tally)
    requires Mirrors(sights, ids, t) && sights != []
    ensures var n := |sights| - 1;
      && |ids| == n + 1 && Mirrors(sights[..n], ids[..n], t) && ids[n] !in ids[..n]
      && ids[n] in t.merged && ids[n] in t.firstPage && sights[n] == Sight(t.firstPage[ids[n]], AsItem(t.merged[ids[n]]))
  {
  }

  /** The tally of the given messages alone. */
  function Part(t: Tally, ids: seq<string>): Tally {
    Tally(Restricted(t.merged, ids), Restricted(t.firstPage, ids), |ids|, 0)
  }

  lemma PartGrows(t: Tally, before: seq<string>, id: string)
    requires id in t.merged && id in t.firstPage && id !in before
    ensures id !in Part(t, before).merged
    ensures var u := Part(t, before);
      Part(t, before + [id]) == Tally(u.merged[id := t.merged[id]], u.firstPage[id := t.firstPage[id]], u.raw + 1, 0)
  {
    RestrictedGrows(t.merged, before, id);
    RestrictedGrows(t.firstPage, before, id);
  }

  lemma AbsorbOneMore(stamp: Stamp, sights: seq<Sight>, u: Tally, page: nat, row: Row)
    requires sights != [] && AbsorbAll(stamp, sights[..|sights| - 1]) == Ok(u)
    requires sights[|sights| - 1] == Sight(page, AsItem(row)) && Normal(stamp, row) && row.id !in u.merged
    ensures AbsorbAll(stamp, sights) ==
            Ok(Tally(u.merged[row.id := row], u.firstPage[row.id := page], u.raw + 1, u.duplicates))
  {
    AbsorbNew(stamp, u, page, row);
  }

  lemma {:induction false} MirrorsAbsorb(stamp: Stamp, sights: seq<Sight>, ids: seq<string>, t: Tally)
    requires Filed(stamp, t) && Mirrors(sights, ids, t)
    ensures AbsorbAll(stamp, sights) == Ok(Part(t, ids))
  {
    if sights == [] {
      assert Restricted(t.merged, ids) == map[] && Restricted(t.firstPage, ids) == map[];
    } else {
      var n := |sights| - 1;
      MirrorsPrefix(sights, ids, t);
      var before, id := ids[..n], ids[n];
      assert ids == before + [id];
      MirrorsAbsorb(stamp, sights[..n], before, t);
      PartGrows(t, before, id);
      AbsorbOneMore(stamp, sights, Part(t, before), t.firstPage[id], t.merged[id]);
    }
  }

  function IdsOf(rows: seq<Row>): seq<string> {
    seq(|rows|, i requires 0 <= i < |rows| => rows[i].id)
  }

  lemma IdListed(rows: seq<Row>, id: string)
    ensures id in IdsOf(rows) <==> exists r :: r in rows && r.id == id
  {
    if exists r :: r in rows && r.id == id {
      var r :| r in rows && r.id == id;
      var i :| 0 <= i < |rows| && rows[i] == r;
      assert IdsOf(rows)[i] == id;
    }
    if id in IdsOf(rows) {
      var i :| 0 <= i < |IdsOf(rows)| && IdsOf(rows)[i] == id;
      assert rows[i] in rows;
    }
  }

  function IdsUpTo(t: Tally, n: nat): seq<string> {
    if n == 0 then [] else IdsUpTo(t, n - 1) + IdsOf(PageRows(t, n - 1))
  }

  lemma IdOnPage(stamp: Stamp, t: Tally, k: nat, id: string)
    requires Filed(stamp, t)
    ensures id in IdsOf(PageRows(t, k)) <==> id in t.merged && t.firstPage[id] == k
  {
    PageRowsAre(stamp, t, k);
    IdListed(PageRows(t, k), id);
    if id in t.merged && t.firstPage[id] == k {
      assert t.merged[id] in PageRows(t, k);
    }
  }

  lemma PageRowsFiled(stamp: Stamp, t: Tally, k: nat, i: nat)
    requires Filed(stamp, t) && i < |PageRows(t, k)|
    ensures var r := PageRows(t, k)[i];
      r.id in t.merged && r.id in t.firstPage && t.merged[r.id] == r && t.firstPage[r.id] == k
  {
    PageRowsAre(stamp, t, k);
    assert PageRows(t, k)[i] in PageRows(t, k);
  }

  lemma PageIdsDistinct(stamp: Stamp, t: Tally, k: nat)
    requires Filed(stamp, t)
    ensures NoDuplicates(IdsOf(PageRows(t, k)))
  {
    PageRowsAre(stamp, t, k);
  }

  lemma PageMirrors(stamp: Stamp, t: Tally, k: nat)
    requires Filed(stamp, t)
    ensures var rows := PageRows(t, k);
      Mirrors(PageSights(k, AsItems(rows), |rows|), IdsOf(rows), t)
  {
    var rows := PageRows(t, k);
    PageIdsDistinct(stamp, t, k);
    forall i | 0 <= i < |rows| {
      PageRowsFiled(stamp, t, k, i);
    }
  }

  lemma MirrorsConcat(sights: seq<Sight>, ids: seq<string>, more: seq<Sight>, others: seq<string>, t: Tally)
    requires Mirrors(sights, ids, t) && Mirrors(more, others, t)
    requires forall id :: id in ids ==> id !in others
    ensures Mirrors(sights + more, ids + others, t)
  {
    var all := ids + others;
    forall i, j | 0 <= i < j < |all|
      ensures all[i] != all[j]
    {
      if i < |ids| <= j {
        assert all[i] in ids && all[j] in others;
      }
    }
  }

  predicate FirstOn(t: Tally, id: string, page: nat) {
    id in t.merged && id in t.firstPage && t.firstPage[id] == page
  }

  lemma {:induction false} IdsUpToHold(t: Tally, n: nat, id: string)
    requires forall k: nat :: k < n ==> (id in IdsOf(PageRows(t, k)) <==> FirstOn(t, id, k))
    ensures id in IdsUpTo(t, n) <==> exists k: nat :: k < n && FirstOn(t, id, k)
  {
    if n > 0 {
      IdsUpToHold(t, n - 1, id);
      var before, here := IdsUpTo(t, n - 1), IdsOf(PageRows(t, n - 1));
      assert id in before + here <==> id in before || id in here;
    }
  }

  lemma IdUpTo(stamp: Stamp, t: Tally, n: nat, id: string)
    requires Filed(stamp, t)
    ensures id in IdsUpTo(t, n) <==> id in t.merged && t.firstPage[id] < n
  {
    forall k: nat | k < n
      ensures id in IdsOf(PageRows(t, k)) <==> FirstOn(t, id, k)
    {
      IdOnPage(stamp, t, k, id);
    }
    IdsUpToHold(t, n, id);
  }

  lemma {:induction false} RewrittenMirrors(stamp: Stamp, pages: seq<Payload>, t: Tally, n: nat)
    requires Filed(stamp, t) && n <= |pages|
    ensures Mirrors(SightsOf(Rewritten(pages, t), n), IdsUpTo(t, n), t)
  {
    if n > 0 {
      var k := n - 1;
      var rows := PageRows(t, k);
      RewrittenMirrors(stamp, pages, t, k);
      PageMirrors(stamp, t, k);
      forall id | id in IdsUpTo(t, k)
        ensures id !in IdsOf(rows)
      {
        IdUpTo(stamp, t, k, id);
        IdOnPage(stamp, t, k, id);
      }
      assert Rewritten(pages, t)[k].messages == AsItems(rows);
      MirrorsConcat(SightsOf(Rewritten(pages, t), k), IdsUpTo(t, k), PageSights(k, AsItems(rows), |rows|), IdsOf(rows), t);
    }
  }

  lemma RestrictedToAll<T>(m: map<string, T>, ids: seq<string>)
    requires NoDuplicates(ids) && forall id :: id in ids <==> id in m
    ensures Restricted(m, ids) == m && |ids| == |m|
  {
    DistinctCount(ids);
    assert Elements(ids) == m.Keys;
  }

  /** Absorbing the rewritten pages gives the tally back, every message counted once. */
  lemma RewrittenTally(stamp: Stamp, pages: seq<Payload>, t: Tally)
    requires Filed(stamp, t) && forall id :: id in t.firstPage ==> t.firstPage[id] < |pages|
    ensures AbsorbAll(stamp, Sights(Rewritten(pages, t))) == Ok(t.(raw := |t.merged|, duplicates := 0))
  {
    var n := |pages|;
    RewrittenMirrors(stamp, pages, t, n);
    forall id
      ensures id in IdsUpTo(t, n) <==> id in t.merged
    {
      IdUpTo(stamp, t, n, id);
    }
    var ids := IdsUpTo(t, n);
    MirrorsAbsorb(stamp, Sights(Rewritten(pages, t)), ids, t);
    RestrictedToAll(t.merged, ids);
    RestrictedToAll(t.firstPage, ids);
  }

  lemma GivenAreDenied(denied: set<string>)
    requires "" !in denied
    ensures DeniedIn(AllGiven(Sorted(denied))) == denied
  {
    var sorted := Sorted(denied);
    var again := AllGiven(sorted);
    forall x | x in denied
      ensures x in DeniedIn(again)
    {
      assert x in sorted;
      var i :| 0 <= i < |sorted| && sorted[i] == x;
      assert again[i] == Some(x);
    }
  }

  lemma {:induction false} DeniedNotBlank(pages: seq<Payload>, n: nat)
    requires n <= |pages|
    ensures "" !in DeniedUpTo(pages, n)
  {
    if n > 0 {
      DeniedNotBlank(pages, n - 1);
    }
  }

  lemma DeniedOnEach(pages: seq<Payload>, t: Tally, k: nat)
    requires k < |pages|
    ensures DeniedIn(Rewritten(pages, t)[k].denied) == Denied(pages)
  {
    DeniedNotBlank(pages, |pages|);
    GivenAreDenied(Denied(pages));
  }

  lemma {:induction false} DeniedEverywhere(pages: seq<Payload>, denied: set<string>, n: nat)
    requires n <= |pages| && forall k :: 0 <= k < n ==> DeniedIn(pages[k].denied) == denied
    ensures DeniedUpTo(pages, n) == if n == 0 then {} else denied
  {
    if n > 0 {
      DeniedEverywhere(pages, denied, n - 1);
    }
  }

  lemma DeniedAgain(pages: seq<Payload>, t: Tally)
    requires pages != []
    ensures Denied(Rewritten(pages, t)) == Denied(pages)
  {
    forall k | 0 <= k < |pages|
      ensures DeniedIn(Rewritten(pages, t)[k].denied) == Denied(pages)
    {
      DeniedOnEach(pages, t, k);
    }
    DeniedEverywhere(Rewritten(pages, t), Denied(pages), |pages|);
  }

  lemma {:induction false} SameCursorsSameLinks(pages: seq<Payload>, other: seq<Payload>, n: nat)
    requires |pages| == |other| && n <= |pages|
    requires forall i :: 0 <= i < |pages| ==> Requested(pages[i]) == Requested(other[i]) && Next(pages[i]) == Next(other[i])
    ensures LinkedUpTo(pages, n) <==> LinkedUpTo(other, n)
  {
    if n > 0 {
      SameCursorsSameLinks(pages, other, n - 1);
    }
  }

  lemma RewrittenKeepsCursors(pages: seq<Payload>, t: Tally)
    ensures var out := Rewritten(pages, t);
      && (forall i :: 0 <= i < |pages| ==> Requested(out[i]) == Requested(pages[i]) && Next(out[i]) == Next(pages[i]))
      && (forall i :: 0 <= i < |pages| ==> out[i].terminal == pages[i].terminal && ManifestOf(out[i]) == ManifestOf(pages[i]))
  {
  }

  lemma RewrittenAccepted(pages: seq<Payload>, t: Tally)
    requires pages != [] && ManifestFault(pages).None? && WellChained(pages)
    ensures var out := Rewritten(pages, t);
      ManifestFault(out).None? && ChainFault(out, 0).None? && Linked(out) == Linked(pages)
  {
    var out := Rewritten(pages, t);
    RewrittenKeepsCursors(pages, t);
    NoFaultIffWellChained(out);
    SameCursorsSameLinks(pages, out, |pages|);
  }

  lemma RewrittenEnds(pages: seq<Payload>, t: Tally)
    requires pages != []
    ensures var out, n := Rewritten(pages, t), |pages| - 1;
      && |out| == |pages| && ManifestOf(out[0]) == ManifestOf(pages[0])
      && out[n].terminal == pages[n].terminal && Next(out[n]) == Next(pages[n])
  {
  }

  lemma RewrittenKeepsNexts(pages: seq<Payload>, t: Tally)
    ensures NextCursors(Rewritten(pages, t)) == NextCursors(pages)
  {
    RewrittenKeepsCursors(pages, t);
  }

  lemma RewrittenReport(pages: seq<Payload>, t: Tally, verified: bool, denied: set<string>)
    requires pages != []
    ensures ReportOf(Rewritten(pages, t), verified, t.(raw := |t.merged|, duplicates := 0), denied) ==
            ReportOf(pages, verified, t, denied).(rawMessageCount := |t.merged|, duplicateMessageCount := 0)
  {
    RewrittenEnds(pages, t);
    RewrittenKeepsNexts(pages, t);
  }

  lemma {:induction false} SameRows(t: Tally, u: Tally, ids: seq<string>, page: nat)
    requires t.merged == u.merged && t.firstPage == u.firstPage
    ensures RowsFirstOn(ids, t, page) == RowsFirstOn(ids, u, page)
  {
    if ids != [] {
      SameRows(t, u, ids[1..], page);
    }
  }

  lemma RewrittenTwice(pages: seq<Payload>, t: Tally)
    requires pages != []
    ensures Rewritten(Rewritten(pages, t), t.(raw := |t.merged|, duplicates := 0)) == Rewritten(pages, t)
    ensures Denied(Rewritten(pages, t)) == Denied(pages)
  {
    var out, u := Rewritten(pages, t), t.(raw := |t.merged|, duplicates := 0);
    DeniedAgain(pages, t);
    forall k | 0 <= k < |pages|
      ensures Rewritten(out, u)[k] == out[k]
    {
      SameRows(t, u, Sorted(t.merged.Keys), k);
    }
  }

  lemma RewrittenChain(pages: seq<Payload>, t: Tally)
    requires pages != [] && Linked(Rewritten(pages, t)) == Linked(pages)
    ensures var c := ChainOf(pages, t);
      ChainOf(c.pages, t.(raw := |t.merged|, duplicates := 0)) ==
      Chain(c.pages, c.report.(rawMessageCount := c.report.uniqueMessageCount, duplicateMessageCount := 0))
  {
    RewrittenTwice(pages, t);
    RewrittenReport(pages, t, Linked(pages), Denied(pages));
  }

  lemma RewrittenAudit(stamp: Stamp, pages: seq<Payload>, t: Tally)
    requires pages != [] && ManifestFault(pages).None? && WellChained(pages)
    requires AbsorbAll(stamp, Sights(Rewritten(pages, t))) == Ok(t.(raw := |t.merged|, duplicates := 0))
    ensures Audit(stamp, Rewritten(pages, t)) == Ok(ChainOf(Rewritten(pages, t), t.(raw := |t.merged|, duplicates := 0)))
  {
    RewrittenAccepted(pages, t);
  }

  /** The audit is a projection: auditing its own pages succeeds and returns the same pages and
      the same report, with every message now counted once. */
  lemma AuditTwice(stamp: Stamp, pages: seq<Payload>)
    requires Audit(stamp, pages).Ok?
    ensures var c := Audit(stamp, pages).value;
      Audit(stamp, c.pages) ==
      Ok(Chain(c.pages, c.report.(rawMessageCount := c.report.uniqueMessageCount, duplicateMessageCount := 0)))
  {
    AuditAcceptsIff(stamp, pages);
    var seen, t := ReadAll(stamp, Sights(pages)), AbsorbAll(stamp, Sights(pages)).value;
    DescribedIsFiled(stamp, seen, t);
    SightsAscend(pages, |pages|);
    forall id | id in t.firstPage
      ensures t.firstPage[id] < |pages|
    {
      assert DescribesId(stamp, seen, t, id);
    }
    RewrittenTally(stamp, pages, t);
    RewrittenAudit(stamp, pages, t);
    RewrittenAccepted(pages, t);
    RewrittenChain(pages, t);
  }
}
