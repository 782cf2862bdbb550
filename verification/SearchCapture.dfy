/**
 The second producer of pages: search calls recorded in one session are checked and turned into
 identity-only pages (scripts/capture_gmail_search_chain.js). A failure is the exit code.
 */
module SearchCapture {
  import opened Basics
  import opened MessageRows
  import opened PageChain
  import opened CalendarDates

  datatype SearchResult = SearchResult(nextToken: Option<string>, ids: seq<string>)

  /** One recorded call; its result may be missing from the session. */
  datatype Call = Call(requestedToken: Option<string>, result: Option<SearchResult>)

  datatype Settings = Settings(
    query: string, authorizedFrom: string,
    account: Entry<string>, authorizationRevision: Entry<string>, policyRevision: Entry<string>)

  function TokenAt(calls: seq<Call>, i: nat): string
    requires i < |calls|
  {
    Text(calls[i].requestedToken)
  }

  function NextTokenAt(calls: seq<Call>, i: nat): string
    requires i < |calls| && calls[i].result.Some?
  {
    Text(calls[i].result.value.nextToken)
  }

  predicate Answered(calls: seq<Call>) {
    forall c :: c in calls ==> c.result.Some?
  }

  function IdsAt(calls: seq<Call>, i: nat): seq<string>
    requires Answered(calls) && i < |calls|
  {
    assert calls[i] in calls;
    calls[i].result.value.ids
  }

  /** The message ids of the first `n` calls. */
  function CapturedIds(calls: seq<Call>, n: nat): seq<string>
    requires Answered(calls) && n <= |calls|
  {
    if n == 0 then [] else CapturedIds(calls, n - 1) + IdsAt(calls, n - 1)
  }

  function TokensUpTo(calls: seq<Call>, n: nat): set<string>
    requires n <= |calls|
  {
    if n == 0 then {} else TokensUpTo(calls, n - 1) + if TokenAt(calls, n - 1) == "" then {} else {TokenAt(calls, n - 1)}
  }

  predicate FreshUpTo(ids: seq<string>, seen: set<string>, n: nat)
    requires n <= |ids|
  {
    forall k :: 0 <= k < n ==> ids[k] != "" && ids[k] !in seen && ids[k] !in ids[..k]
  }

  predicate IdsFresh(ids: seq<string>, seen: set<string>) {
    FreshUpTo(ids, seen, |ids|)
  }

  function CallFault(calls: seq<Call>, i: nat): Option<nat>
    requires Answered(calls) && i < |calls|
  {
    assert calls[i] in calls;
    assert i > 0 ==> calls[i - 1] in calls;
    if TokenAt(calls, i) != (if i == 0 then "" else NextTokenAt(calls, i - 1)) then Some(5)
    else if TokenAt(calls, i) != "" && TokenAt(calls, i) in TokensUpTo(calls, i) then Some(6)
    else if i < |calls| - 1 && NextTokenAt(calls, i) == "" then Some(7)
    else if i == |calls| - 1 && NextTokenAt(calls, i) != "" then Some(8)
    else if !IdsFresh(IdsAt(calls, i), Elements(CapturedIds(calls, i))) then Some(9)
    else None
  }

  function CallsFault(calls: seq<Call>, i: nat): Option<nat>
    requires Answered(calls) && i <= |calls|
    decreases |calls| - i
  {
    if i == |calls| then None
    else if CallFault(calls, i).Some? then CallFault(calls, i)
    else CallsFault(calls, i + 1)
  }

  function OrDefault(e: Entry<string>, fallback: string): Entry<string> {
    if EntryText(e) == "" then Given(fallback) else e
  }

  function ItemFor(id: string): Item {
    Item(Some(id), None, None, None, [], None, None, None, NullLabels, None, None, [], Some("identity_only"), true)
  }

  function ItemsFor(ids: seq<string>): seq<Item> {
    seq(|ids|, i requires 0 <= i < |ids| => ItemFor(ids[i]))
  }

  function PageFor(settings: Settings, requested: string, next: string, ids: seq<string>): Payload {
    Payload(
      Given(settings.query), settings.account,
      OrDefault(settings.authorizationRevision, "connector-read:v1"), OrDefault(settings.policyRevision, "policy:v1"),
      Given(settings.authorizedFrom),
      Given(requested), Absent, if next == "" then Null else Given(next), Absent,
      next == "", ItemsFor(ids), [])
  }

  function PagesFor(settings: Settings, calls: seq<Call>): seq<Payload>
    requires Answered(calls)
  {
    seq(|calls|, i requires 0 <= i < |calls| =>
      assert calls[i] in calls;
      PageFor(settings, TokenAt(calls, i), NextTokenAt(calls, i), IdsAt(calls, i)))
  }

  function Capture(settings: Settings, calls: seq<Call>): Result<seq<Payload>, nat> {
    if settings.query == "" then Err(2)
    else if settings.authorizedFrom != "" && !IsDate(settings.authorizedFrom) then Err(3)
    else if calls == [] || !Answered(calls) then Err(4)
    else if CallsFault(calls, 0).Some? then Err(CallsFault(calls, 0).value)
    else Ok(PagesFor(settings, calls))
  }

  lemma ElementsGrow(ids: seq<string>, more: seq<string>)
    ensures Elements(ids + more) == Elements(ids) + Elements(more)
  {
  }

  method CheckIds(ids: seq<string>, before: set<string>) returns (allNew: bool, seenIds: set<string>)
    ensures allNew <==> IdsFresh(ids, before)
    ensures allNew ==> seenIds == before + Elements(ids)
  {
    seenIds := before;
    for k := 0 to |ids|
      invariant FreshUpTo(ids, before, k) && seenIds == before + Elements(ids[..k])
    {
      if ids[k] == "" || ids[k] in seenIds {
        return false, seenIds;
      }
      seenIds := seenIds + {ids[k]};
      assert ids[..k + 1] == ids[..k] + [ids[k]];
    }
    assert ids[..|ids|] == ids;
    return true, seenIds;
  }

  /** One turn of the loop over the calls, where `seenCursors` and `seenIds` hold what came before. */
  method CheckCall(calls: seq<Call>, index: nat, previousNext: string, seenCursors: set<string>, seenIds: set<string>)
    returns (fault: Option<nat>, cursors: set<string>, ids: set<string>, next: string)
    requires Answered(calls) && index < |calls|
    requires previousNext == if index == 0 then "" else NextTokenAt(calls, index - 1)
    requires seenCursors == TokensUpTo(calls, index) && seenIds == Elements(CapturedIds(calls, index))
    ensures fault == CallFault(calls, index)
    ensures fault.None? ==>
      cursors == TokensUpTo(calls, index + 1) && ids == Elements(CapturedIds(calls, index + 1)) && next == NextTokenAt(calls, index)
  {
    cursors, ids, next := seenCursors, seenIds, NextTokenAt(calls, index);
    var requested := TokenAt(calls, index);
    if requested != previousNext {
      return Some(5), cursors, ids, next;
    }
    if requested != "" && requested in cursors {
      return Some(6), cursors, ids, next;
    }
    if requested != "" {
      cursors := cursors + {requested};
    }
    if index < |calls| - 1 && next == "" {
      return Some(7), cursors, ids, next;
    }
    if index == |calls| - 1 && next != "" {
      return Some(8), cursors, ids, next;
    }
    ElementsGrow(CapturedIds(calls, index), IdsAt(calls, index));
    var allNew, seen := CheckIds(IdsAt(calls, index), ids);
    return if allNew then None else Some(9), cursors, seen, next;
  }

  method CheckCalls(calls: seq<Call>) returns (r: Option<nat>)
    requires Answered(calls)
    ensures r == CallsFault(calls, 0)
  {
    var seenCursors: set<string>, seenIds: set<string> := {}, {};
    var previousNext := "";
    for index := 0 to |calls|
      invariant CallsFault(calls, 0) == CallsFault(calls, index)
      invariant previousNext == if index == 0 then "" else NextTokenAt(calls, index - 1)
      invariant seenCursors == TokensUpTo(calls, index)
      invariant seenIds == Elements(CapturedIds(calls, index))
    {
      r, seenCursors, seenIds, previousNext := CheckCall(calls, index, previousNext, seenCursors, seenIds);
      if r.Some? {
        return r;
      }
    }
    return None;
  }

  method WritePages(settings: Settings, calls: seq<Call>) returns (written: seq<Payload>)
    requires Answered(calls)
    ensures written == PagesFor(settings, calls)
  {
    written := [];
    for index := 0 to |calls|
      invariant |written| == index && forall i :: 0 <= i < index ==> written[i] == PagesFor(settings, calls)[i]
    {
      var call := calls[index];
      assert call in calls;
      written := written + [PageFor(settings, Text(call.requestedToken), Text(call.result.value.nextToken), call.result.value.ids)];
    }
  }

  method CaptureChain(settings: Settings, calls: seq<Call>) returns (r: Result<seq<Payload>, nat>)
    ensures r == Capture(settings, calls)
  {
    if settings.query == "" {
      return Err(2);
    }
    if settings.authorizedFrom != "" && !IsDate(settings.authorizedFrom) {
      return Err(3);
    }
    if calls == [] || !Answered(calls) {
      return Err(4);
    }
    var fault := CheckCalls(calls);
    if fault.Some? {
      return Err(fault.value);
    }
    var pages := WritePages(settings, calls);
    return Ok(pages);
  }
}
