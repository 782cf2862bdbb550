/** What the audit guarantees: when it accepts, what it conserves, and that it is a projection. */
module PageChainLaws {
  import opened Basics
  import opened MessageRows
  import opened RowMerge
  import opened RowMergeLaws
  import opened PageChain

  // ----- cursors

  ghost predicate WellChained(pages: seq<Payload>)
    requires pages != []
  {
    && Requested(pages[0]).token == ""
    && (forall i :: 0 <= i < |pages| && pages[i].terminal ==> i == |pages| - 1 && Next(pages[i]).token == "")
    && (forall i :: 0 <= i < |pages| - 1 ==> Next(pages[i]).token != "")
    && (forall i, j :: 0 <= i < j < |pages| && Next(pages[i]).token == Next(pages[j]).token ==> Next(pages[i]).token == "")
  }

  lemma {:induction false} TerminalsHold(pages: seq<Payload>, n: nat, x: nat)
    requires n <= |pages|
    ensures x in Terminals(pages, n) <==> x < n && pages[x].terminal
  {
    if n > 0 {
      TerminalsHold(pages, n - 1, x);
      var here := if pages[n - 1].terminal then [n - 1] else [];
      assert x in Terminals(pages, n) <==> x in Terminals(pages, n - 1) || x in here;
    }
  }

  lemma TerminalsMisplaced(pages: seq<Payload>)
    requires pages != []
    ensures var n := |pages|; var found := Terminals(pages, n);
      found != [] && found != [n - 1] <==> exists j :: 0 <= j < n - 1 && pages[j].terminal
  {
    var n := |pages|;
    var before := Terminals(pages, n - 1);
    if before != [] {
      assert before[0] in before && Terminals(pages, n)[0] == before[0];
      TerminalsHold(pages, n - 1, before[0]);
    }
    if j :| 0 <= j < n - 1 && pages[j].terminal {
      TerminalsHold(pages, n - 1, j);
    }
  }

  lemma {:induction false} ChainFaultMeaning(pages: seq<Payload>, i: nat)
    requires i <= |pages| && pages != []
    ensures ChainFault(pages, i).None? <==>
      (forall k :: i <= k < |pages| ==> PageFault(pages, k).None?) && (forall j :: 0 <= j < |pages| - 1 ==> !pages[j].terminal)
    decreases |pages| - i
  {
    if i == |pages| {
      TerminalsMisplaced(pages);
    } else {
      ChainFaultMeaning(pages, i + 1);
    }
  }

  /** The cursor loop finds no fault exactly on a well-chained page set. */
  lemma NoFaultIffWellChained(pages: seq<Payload>)
    requires pages != []
    ensures ChainFault(pages, 0).None? <==> WellChained(pages)
  {
    ChainFaultMeaning(pages, 0);
    if ChainFault(pages, 0).None? {
      forall i | 0 <= i < |pages|
        ensures i == 0 ==> Requested(pages[0]).token == ""
        ensures pages[i].terminal ==> i == |pages| - 1 && Next(pages[i]).token == ""
        ensures i < |pages| - 1 ==> Next(pages[i]).token != ""
      {
        assert PageFault(pages, i).None?;
      }
      forall i, j | 0 <= i < j < |pages| && Next(pages[i]).token == Next(pages[j]).token
        ensures Next(pages[i]).token == ""
      {
        assert PageFault(pages, j).None? && Next(pages[i]).token in NextTokens(pages, j);
      }
    }
    if WellChained(pages) {
      forall k | 0 <= k < |pages|
        ensures PageFault(pages, k).None?
      {
      }
    }
  }

  lemma {:induction false} LinkedMeaning(pages: seq<Payload>, n: nat)
    requires n <= |pages|
    ensures LinkedUpTo(pages, n) <==> forall i :: 0 <= i < n ==> LinkedAt(pages, i)
  {
    if n > 0 {
      LinkedMeaning(pages, n - 1);
    }
  }

  // ----- the tally, over rows already normalised

  datatype Sighting = Sighting(page: nat, row: Row)

  function NextKept(t: Tally, row: Row): Result<Row, ChainError> {
    if row.id in t.merged then Join(t.merged[row.id], row) else Ok(row)
  }

  function WithRow(t: Tally, s: Sighting, kept: Row): Tally {
    var id := s.row.id;
    if id in t.merged then Tally(t.merged[id := kept], t.firstPage, t.raw + 1, t.duplicates + 1)
    else Tally(t.merged[id := kept], t.firstPage[id := s.page], t.raw + 1, t.duplicates)
  }

  function AbsorbRow(t: Tally, s: Sighting): Result<Tally, ChainError> {
    var kept :- NextKept(t, s.row);
    Ok(WithRow(t, s, kept))
  }

  function AbsorbRows(seen: seq<Sighting>): Result<Tally, ChainError> {
    if seen == [] then Ok(EMPTY_TALLY) else
    var t :- AbsorbRows(seen[..|seen| - 1]);
    AbsorbRow(t, seen[|seen| - 1])
  }

  ghost predicate AllNormal(stamp: Stamp, seen: seq<Sighting>) {
    forall s :: s in seen ==> Normal(stamp, s.row)
  }

  /** The observations of one message, in reading order. */
  function Group(seen: seq<Sighting>, id: string): seq<Row> {
    if seen == [] then [] else
    var row := seen[|seen| - 1].row;
    Group(seen[..|seen| - 1], id) + if row.id == id then [row] else []
  }

  ghost predicate Observed(seen: seq<Sighting>, id: string) {
    exists s :: s in seen && s.row.id == id
  }

  ghost predicate InReadingOrder(seen: seq<Sighting>) {
    forall i, j :: 0 <= i < j < |seen| ==> seen[i].page <= seen[j].page
  }

  /** The earliest page that carries the message. */
  ghost predicate IsFirstPage(seen: seq<Sighting>, id: string, page: nat) {
    && (exists s :: s in seen && s.row.id == id && s.page == page)
    && (forall s :: s in seen && s.row.id == id ==> page <= s.page)
  }

  /** No message seen at least twice has conflicting observations. */
  ghost predicate NoConflicts(seen: seq<Sighting>) {
    forall id :: |Group(seen, id)| >= 2 ==> AllCompatible(Group(seen, id))
  }

  ghost predicate FoldsTo(stamp: Stamp, group: seq<Row>, id: string, r: Row) {
    group != [] && FoldRows(group) == Ok(r) && Normal(stamp, r) && r.id == id
  }

  ghost predicate Kept(stamp: Stamp, seen: seq<Sighting>, id: string, r: Row) {
    FoldsTo(stamp, Group(seen, id), id, r)
  }

  ghost predicate DescribesId(stamp: Stamp, seen: seq<Sighting>, t: Tally, id: string) {
    && (id in t.merged <==> Observed(seen, id))
    && (id in t.merged <==> id in t.firstPage)
    && (id in t.merged ==> Kept(stamp, seen, id, t.merged[id]) && IsFirstPage(seen, id, t.firstPage[id]))
  }

  ghost predicate Describes(stamp: Stamp, seen: seq<Sighting>, t: Tally) {
    && (forall id :: DescribesId(stamp, seen, t, id))
    && t.raw == |seen| && t.raw == |t.merged| + t.duplicates
  }

  lemma GroupGrows(before: seq<Sighting>, last: Sighting, id: string)
    ensures last.row.id == id ==> Group(before + [last], id) == Group(before, id) + [last.row]
    ensures last.row.id != id ==> Group(before + [last], id) == Group(before, id)
  {
    var seen := before + [last];
    assert seen[..|seen| - 1] == before;
    assert Group(before, id) + [] == Group(before, id);
  }

  lemma {:induction false} GroupIsOneMessage(stamp: Stamp, seen: seq<Sighting>, id: string)
    requires AllNormal(stamp, seen)
    ensures OneMessage(stamp, Group(seen, id))
    ensures forall p :: p in Group(seen, id) ==> p.id == id && Observed(seen, id)
    ensures Observed(seen, id) <==> Group(seen, id) != []
  {
    if seen != [] {
      var before, last := seen[..|seen| - 1], seen[|seen| - 1];
      assert seen == before + [last];
      GroupIsOneMessage(stamp, before, id);
      assert last in seen;
      assert Observed(seen, id) <==> Observed(before, id) || last.row.id == id;
    }
  }

  lemma FoldGrows(rows: seq<Row>, m: Row, row: Row)
    requires rows != [] && FoldRows(rows) == Ok(m)
    ensures FoldRows(rows + [row]) == Join(m, row)
  {
    assert (rows + [row])[..|rows + [row]| - 1] == rows;
  }

  lemma KnownStep(stamp: Stamp, before: seq<Sighting>, kept: Row, last: Sighting)
    requires AllNormal(stamp, before + [last]) && Kept(stamp, before, last.row.id, kept)
    ensures var group := Group(before + [last], last.row.id);
      && (Join(kept, last.row).Ok? <==> (|group| >= 2 ==> AllCompatible(group)))
      && (Join(kept, last.row).Ok? ==> Kept(stamp, before + [last], last.row.id, Join(kept, last.row).value))
  {
    var id := last.row.id;
    GroupGrows(before, last, id);
    FoldGrows(Group(before, id), kept, last.row);
    GroupIsOneMessage(stamp, before + [last], id);
    var group := Group(before + [last], id);
    GroupMerges(stamp, group);
    assert group[0] in group;
  }

  lemma NewStep(stamp: Stamp, before: seq<Sighting>, last: Sighting)
    requires AllNormal(stamp, before + [last]) && !Observed(before, last.row.id)
    ensures Group(before + [last], last.row.id) == [last.row]
    ensures Kept(stamp, before + [last], last.row.id, last.row)
  {
    var id := last.row.id;
    assert last in before + [last] && forall s :: s in before ==> s in before + [last];
    GroupGrows(before, last, id);
    GroupIsOneMessage(stamp, before, id);
  }

  /** One more sighting: whether it is absorbed and what is then kept for its message. */
  lemma StepKeeps(stamp: Stamp, before: seq<Sighting>, t: Tally, last: Sighting)
    requires AllNormal(stamp, before + [last]) && Describes(stamp, before, t)
    ensures var group, kept := Group(before + [last], last.row.id), NextKept(t, last.row);
      && (kept.Ok? <==> (|group| >= 2 ==> AllCompatible(group)))
      && (kept.Ok? ==> Kept(stamp, before + [last], last.row.id, kept.value))
  {
    var id := last.row.id;
    assert DescribesId(stamp, before, t, id);
    if id in t.merged {
      KnownStep(stamp, before, t.merged[id], last);
    } else {
      NewStep(stamp, before, last);
    }
  }

  lemma OthersKept(stamp: Stamp, before: seq<Sighting>, last: Sighting, id: string, r: Row)
    requires Kept(stamp, before, id, r) && id != last.row.id
    ensures Kept(stamp, before + [last], id, r)
  {
    GroupGrows(before, last, id);
  }

  lemma FirstPagesStep(before: seq<Sighting>, last: Sighting, id: string, page: nat)
    requires InReadingOrder(before + [last])
    requires if Observed(before, id) then IsFirstPage(before, id, page) else id == last.row.id && page == last.page
    ensures IsFirstPage(before + [last], id, page)
  {
    var seen := before + [last];
    assert last in seen && forall s :: s in seen <==> s in before || s == last;
    if Observed(before, id) {
      var s :| s in before && s.row.id == id && s.page == page;
      var i :| 0 <= i < |before| && before[i] == s;
      assert seen[i] == s && seen[|before|] == last;
    }
  }

  lemma IdStep(stamp: Stamp, before: seq<Sighting>, t: Tally, last: Sighting, kept: Row, id: string)
    requires DescribesId(stamp, before, t, id) && InReadingOrder(before + [last])
    requires Kept(stamp, before + [last], last.row.id, kept)
    ensures DescribesId(stamp, before + [last], WithRow(t, last, kept), id)
  {
    var seen, u := before + [last], WithRow(t, last, kept);
    assert last in seen && forall s :: s in seen <==> s in before || s == last;
    assert Observed(seen, id) <==> Observed(before, id) || last.row.id == id;
    if id in u.merged {
      FirstPagesStep(before, last, id, u.firstPage[id]);
      if id != last.row.id {
        OthersKept(stamp, before, last, id, t.merged[id]);
      }
    }
  }

  lemma StepDescribes(stamp: Stamp, before: seq<Sighting>, t: Tally, last: Sighting)
    requires AllNormal(stamp, before + [last]) && Describes(stamp, before, t)
    requires InReadingOrder(before + [last]) && NextKept(t, last.row).Ok?
    ensures Describes(stamp, before + [last], WithRow(t, last, NextKept(t, last.row).value))
  {
    StepKeeps(stamp, before, t, last);
    forall id {
      IdStep(stamp, before, t, last, NextKept(t, last.row).value, id);
    }
  }

  lemma GroupOfPrefix(before: seq<Sighting>, last: Sighting, id: string)
    ensures forall p :: p in Group(before, id) ==> p in Group(before + [last], id)
    ensures |Group(before, id)| <= |Group(before + [last], id)|
  {
    GroupGrows(before, last, id);
  }

  lemma PrefixNoConflicts(before: seq<Sighting>, last: Sighting)
    requires NoConflicts(before + [last])
    ensures NoConflicts(before)
  {
    forall id | |Group(before, id)| >= 2
      ensures AllCompatible(Group(before, id))
    {
      GroupOfPrefix(before, last, id);
      assert AllCompatible(Group(before + [last], id));
    }
  }

  /** All sightings are absorbed exactly when no message seen twice has conflicting observations;
      the tally then keeps, for every message observed, the fold of its observations and its
      earliest page, and counts every sighting once, as unique or as a duplicate. */
  lemma {:induction false} AbsorbsIff(stamp: Stamp, seen: seq<Sighting>)
    requires AllNormal(stamp, seen) && InReadingOrder(seen)
    ensures AbsorbRows(seen).Ok? <==> NoConflicts(seen)
    ensures AbsorbRows(seen).Ok? ==> Describes(stamp, seen, AbsorbRows(seen).value)
  {
    if seen == [] {
      assert forall id :: Group(seen, id) == [];
      assert forall id :: DescribesId(stamp, seen, EMPTY_TALLY, id);
    } else {
      var before, last := seen[..|seen| - 1], seen[|seen| - 1];
      assert seen == before + [last];
      AbsorbsIff(stamp, before);
      forall id
        ensures id != last.row.id ==> Group(seen, id) == Group(before, id)
      {
        GroupGrows(before, last, id);
      }
      GroupOfPrefix(before, last, last.row.id);
      if NoConflicts(seen) {
        PrefixNoConflicts(before, last);
      }
      if AbsorbRows(before).Ok? {
        var t := AbsorbRows(before).value;
        StepKeeps(stamp, before, t, last);
        if AbsorbRows(seen).Ok? {
          StepDescribes(stamp, before, t, last);
        }
      }
    }
  }

  // ----- from supplied items to normalised rows

  predicate Reads(stamp: Stamp, s: Sight) {
    Normalise(stamp, s.item).Ok?
  }

  predicate AllRead(stamp: Stamp, sights: seq<Sight>) {
    forall s :: s in sights ==> Reads(stamp, s)
  }

  function Read(stamp: Stamp, s: Sight): Sighting
    requires Reads(stamp, s)
  {
    Sighting(s.page, Normalise(stamp, s.item).value)
  }

  function ReadAll(stamp: Stamp, sights: seq<Sight>): seq<Sighting>
    requires AllRead(stamp, sights)
  {
    seq(|sights|, i requires 0 <= i < |sights| => assert sights[i] in sights; Read(stamp, sights[i]))
  }

  lemma ReadIsNormal(stamp: Stamp, s: Sight)
    requires Reads(stamp, s)
    ensures Normal(stamp, Read(stamp, s).row)
  {
    NormaliseGivesNormal(stamp, s.item);
  }

  lemma ReadAllIsNormal(stamp: Stamp, sights: seq<Sight>)
    requires AllRead(stamp, sights)
    ensures AllNormal(stamp, ReadAll(stamp, sights))
  {
    forall i | 0 <= i < |sights|
      ensures Normal(stamp, ReadAll(stamp, sights)[i].row)
    {
      assert sights[i] in sights;
      ReadIsNormal(stamp, sights[i]);
    }
  }

  /** On normal rows, merging the two dictionaries again is joining the rows. */
  lemma MergeOfNormal(stamp: Stamp, a: Row, b: Row)
    requires Normal(stamp, a) && Normal(stamp, b)
    ensures Merge(stamp, AsItem(a), AsItem(b)) == Join(a, b)
  {
    Renormalise(stamp, a);
    Renormalise(stamp, b);
  }

  lemma AbsorbIsAbsorbRow(stamp: Stamp, t: Tally, s: Sight)
    requires Reads(stamp, s)
    requires Read(stamp, s).row.id in t.merged ==> Normal(stamp, t.merged[Read(stamp, s).row.id])
    ensures Absorb(stamp, t, s) == AbsorbRow(t, Read(stamp, s))
  {
    var row := Read(stamp, s).row;
    ReadIsNormal(stamp, s);
    if row.id in t.merged {
      MergeOfNormal(stamp, t.merged[row.id], row);
    }
  }

  ghost predicate PagesAscend(sights: seq<Sight>) {
    forall i, j :: 0 <= i < j < |sights| ==> sights[i].page <= sights[j].page
  }

  lemma AbsorbNextIsAbsorbRow(stamp: Stamp, before: seq<Sight>, next: Sight)
    requires PagesAscend(before) && AllRead(stamp, before) && Reads(stamp, next)
    ensures AbsorbRows(ReadAll(stamp, before)).Ok? ==> (
      var t := AbsorbRows(ReadAll(stamp, before)).value;
      Absorb(stamp, t, next) == AbsorbRow(t, Read(stamp, next)))
  {
    var seen := ReadAll(stamp, before);
    ReadAllIsNormal(stamp, before);
    AbsorbsIff(stamp, seen);
    if AbsorbRows(seen).Ok? {
      var t := AbsorbRows(seen).value;
      assert DescribesId(stamp, seen, t, Read(stamp, next).row.id);
      AbsorbIsAbsorbRow(stamp, t, next);
    }
  }

  lemma AbsorbAllGrows(stamp: Stamp, before: seq<Sight>, next: Sight)
    requires PagesAscend(before) && AllRead(stamp, before) && Reads(stamp, next) && AllRead(stamp, before + [next])
    requires AbsorbAll(stamp, before) == AbsorbRows(ReadAll(stamp, before))
    ensures AbsorbAll(stamp, before + [next]) == AbsorbRows(ReadAll(stamp, before + [next]))
  {
    var seen := ReadAll(stamp, before);
    AbsorbNextIsAbsorbRow(stamp, before, next);
    assert (before + [next])[..|before|] == before;
    assert ReadAll(stamp, before + [next]) == seen + [Read(stamp, next)];
    assert (seen + [Read(stamp, next)])[..|seen|] == seen;
  }

  lemma {:induction false} AbsorbAllIsAbsorbRows(stamp: Stamp, sights: seq<Sight>)
    requires PagesAscend(sights)
    ensures AllRead(stamp, sights) ==> AbsorbAll(stamp, sights) == AbsorbRows(ReadAll(stamp, sights))
    ensures AbsorbAll(stamp, sights).Ok? ==> AllRead(stamp, sights)
  {
    if sights != [] {
      var before, last := sights[..|sights| - 1], sights[|sights| - 1];
      assert sights == before + [last];
      assert forall s :: s in sights <==> s in before || s == last;
      AbsorbAllIsAbsorbRows(stamp, before);
      if AllRead(stamp, before) && Reads(stamp, last) {
        AbsorbAllGrows(stamp, before, last);
      }
    }
  }

  lemma {:induction false} SightsAscend(pages: seq<Payload>, n: nat)
    requires n <= |pages|
    ensures PagesAscend(SightsOf(pages, n)) && forall s :: s in SightsOf(pages, n) ==> s.page < n
  {
    if n > 0 {
      SightsAscend(pages, n - 1);
      var before := SightsOf(pages, n - 1);
      var here := PageSights(n - 1, pages[n - 1].messages, |pages[n - 1].messages|);
      var all: seq<Sight> := before + here;
      forall i, j | 0 <= i < j < |all|
        ensures all[i].page <= all[j].page
      {
        if i < |before| {
          assert before[i] in before;
        }
      }
    }
  }

  lemma SightsHold(pages: seq<Payload>, n: nat, k: nat, i: nat)
    requires k < n <= |pages| && i < |pages[k].messages|
    ensures Sight(k, pages[k].messages[i]) in SightsOf(pages, n)
  {
    var here := PageSights(k, pages[k].messages, |pages[k].messages|);
    if k == n - 1 {
      assert here[i] == Sight(k, pages[k].messages[i]);
    } else {
      SightsHold(pages, n - 1, k, i);
    }
  }

  lemma {:induction false} SightsAreMessages(pages: seq<Payload>, n: nat)
    requires n <= |pages|
    ensures forall s :: s in SightsOf(pages, n) ==> s.page < n && s.item in pages[s.page].messages
  {
    if n > 0 {
      SightsAreMessages(pages, n - 1);
    }
  }

  /** Absorbing page after page succeeds exactly when every row reads and no message conflicts. */
  lemma AbsorbAllIff(stamp: Stamp, sights: seq<Sight>)
    requires PagesAscend(sights)
    ensures AbsorbAll(stamp, sights).Ok? <==> AllRead(stamp, sights) && NoConflicts(ReadAll(stamp, sights))
    ensures AbsorbAll(stamp, sights).Ok? ==> Describes(stamp, ReadAll(stamp, sights), AbsorbAll(stamp, sights).value)
  {
    AbsorbAllIsAbsorbRows(stamp, sights);
    if AllRead(stamp, sights) {
      ReadAllIsNormal(stamp, sights);
      AbsorbsIff(stamp, ReadAll(stamp, sights));
    }
  }

  lemma AuditIs(stamp: Stamp, pages: seq<Payload>)
    ensures Audit(stamp, pages).Ok? <==>
      ManifestFault(pages).None? && ChainFault(pages, 0).None? && AbsorbAll(stamp, Sights(pages)).Ok?
    ensures Audit(stamp, pages).Ok? ==>
      pages != [] && Audit(stamp, pages).value == ChainOf(pages, AbsorbAll(stamp, Sights(pages)).value)
  {
  }

  /** The cursor and manifest checks on their own. */
  lemma ChecksPassIff(pages: seq<Payload>)
    ensures ManifestFault(pages).None? ==> pages != []
    ensures ManifestFault(pages).None? && ChainFault(pages, 0).None? <==> ManifestFault(pages).None? && WellChained(pages)
  {
    if pages != [] {
      NoFaultIffWellChained(pages);
    }
  }

  /** The audit accepts a page set exactly when its manifests agree, its cursors are well chained,
      every row can be normalised, and no message seen twice has conflicting observations. The
      tally behind the result describes the observations. */
  lemma AuditAcceptsIff(stamp: Stamp, pages: seq<Payload>)
    ensures Audit(stamp, pages).Ok? <==>
      && ManifestFault(pages).None? && WellChained(pages)
      && AllRead(stamp, Sights(pages)) && NoConflicts(ReadAll(stamp, Sights(pages)))
    ensures Audit(stamp, pages).Ok? ==> var t := AbsorbAll(stamp, Sights(pages));
      t.Ok? && Audit(stamp, pages).value == ChainOf(pages, t.value) && Describes(stamp, ReadAll(stamp, Sights(pages)), t.value)
  {
    AuditIs(stamp, pages);
    ChecksPassIff(pages);
    SightsAscend(pages, |pages|);
    AbsorbAllIff(stamp, Sights(pages));
  }
}
