/** The captured pages key by key, and which exit code the capturer ends with. */
module CaptureFields {
  import opened Basics
  import opened CalendarDates
  import opened MessageRows
  import opened PageChain
  import opened SearchCapture

  /** A token that is absent, null or empty is no token. */
  predicate NoToken(token: Option<string>) {
    token == None || token == Some("")
  }

  predicate SameToken(a: Option<string>, b: Option<string>) {
    if NoToken(a) then NoToken(b) else a == b
  }

  /** The call asks for what its predecessor led to; the first one asks for the first page. */
  predicate AsksOn(calls: seq<Call>, i: nat)
    requires Answered(calls) && i < |calls|
  {
    if i == 0 then NoToken(calls[0].requestedToken)
    else assert calls[i - 1] in calls; SameToken(calls[i].requestedToken, calls[i - 1].result.value.nextToken)
  }

  predicate AskedBefore(calls: seq<Call>, i: nat)
    requires i < |calls|
  {
    !NoToken(calls[i].requestedToken) && exists j :: 0 <= j < i && calls[j].requestedToken == calls[i].requestedToken
  }

  predicate LeadsOn(calls: seq<Call>, i: nat)
    requires Answered(calls) && i < |calls|
  {
    assert calls[i] in calls;
    !NoToken(calls[i].result.value.nextToken)
  }

  /** An id the call found that is empty, or found twice by it, or found by an earlier call. */
  predicate IdRejected(calls: seq<Call>, i: nat, k: nat)
    requires Answered(calls) && i < |calls| && k < |IdsAt(calls, i)|
  {
    var id := IdsAt(calls, i)[k];
    || id == "" || (exists j :: 0 <= j < k && IdsAt(calls, i)[j] == id)
    || (exists j :: 0 <= j < i && id in IdsAt(calls, j))
  }

  lemma {:induction false} CapturedBefore(calls: seq<Call>, n: nat, id: string)
    requires Answered(calls) && n <= |calls|
    ensures id in CapturedIds(calls, n) <==> exists j :: 0 <= j < n && id in IdsAt(calls, j)
  {
    if n > 0 {
      CapturedBefore(calls, n - 1, id);
    }
  }

  lemma {:induction false} TokensBefore(calls: seq<Call>, n: nat, token: string)
    requires n <= |calls| && token != ""
    ensures token in TokensUpTo(calls, n) <==> exists j :: 0 <= j < n && calls[j].requestedToken == Some(token)
  {
    if n > 0 {
      TokensBefore(calls, n - 1, token);
    }
  }

  lemma IdsFreshIff(calls: seq<Call>, i: nat)
    requires Answered(calls) && i < |calls|
    ensures IdsFresh(IdsAt(calls, i), Elements(CapturedIds(calls, i))) <==>
            forall k :: 0 <= k < |IdsAt(calls, i)| ==> !IdRejected(calls, i, k)
  {
    var ids, seen := IdsAt(calls, i), Elements(CapturedIds(calls, i));
    forall k | 0 <= k < |ids|
      ensures IdRejected(calls, i, k) <==> ids[k] == "" || ids[k] in seen || ids[k] in ids[..k]
    {
      CapturedBefore(calls, i, ids[k]);
      assert ids[k] in ids[..k] <==> exists j :: 0 <= j < k && ids[j] == ids[k];
    }
  }

  lemma AskedBeforeIff(calls: seq<Call>, i: nat)
    requires i < |calls|
    ensures AskedBefore(calls, i) <==> TokenAt(calls, i) != "" && TokenAt(calls, i) in TokensUpTo(calls, i)
  {
    if TokenAt(calls, i) != "" {
      TokensBefore(calls, i, TokenAt(calls, i));
    }
  }

  /** What is wrong with one call, in the order of the loop. */
  lemma CallFaultIs(calls: seq<Call>, i: nat)
    requires Answered(calls) && i < |calls|
    ensures CallFault(calls, i) ==
      if !AsksOn(calls, i) then Some(5)
      else if AskedBefore(calls, i) then Some(6)
      else if i < |calls| - 1 && !LeadsOn(calls, i) then Some(7)
      else if i == |calls| - 1 && LeadsOn(calls, i) then Some(8)
      else if exists k :: 0 <= k < |IdsAt(calls, i)| && IdRejected(calls, i, k) then Some(9)
      else None
  {
    IdsFreshIff(calls, i);
    AskedBeforeIff(calls, i);
  }

  ghost predicate FirstCallFault(calls: seq<Call>, code: nat)
    requires Answered(calls)
  {
    exists i: nat :: i < |calls| && CallFault(calls, i) == Some(code) && forall k: nat :: k < i ==> CallFault(calls, k) == None
  }

  lemma {:induction false} CallsFaultFrom(calls: seq<Call>, i: nat)
    requires Answered(calls) && i <= |calls| && forall k: nat :: k < i ==> CallFault(calls, k) == None
    ensures if CallsFault(calls, i).Some? then FirstCallFault(calls, CallsFault(calls, i).value)
            else forall k: nat :: k < |calls| ==> CallFault(calls, k) == None
    decreases |calls| - i
  {
    if i < |calls| && CallFault(calls, i) == None {
      CallsFaultFrom(calls, i + 1);
    }
  }

  /** Which exit code the capturer ends with: a missing query, a malformed date, a call without a result or no call at
      all, and then the fault of the first faulty call. It writes pages exactly when there is none of these. */
  lemma CaptureEnds(settings: Settings, calls: seq<Call>)
    ensures var r := Capture(settings, calls);
      if settings.query == "" then r == Err(2)
      else if settings.authorizedFrom != "" && !IsDate(settings.authorizedFrom) then r == Err(3)
      else if calls == [] || exists c :: c in calls && c.result == None then r == Err(4)
      else Answered(calls) && if r.Err? then FirstCallFault(calls, r.error)
                              else forall k: nat :: k < |calls| ==> CallFault(calls, k) == None
  {
    if Answered(calls) {
      CallsFaultFrom(calls, 0);
    }
  }

  /** A revision that says nothing is replaced by the default one. */
  predicate RevisionWritten(written: Entry<string>, given: Entry<string>, default: string) {
    if given == Absent || given == Null || given == Given("") then written == Given(default) else written == given
  }

  /** A message of which only the id is known. */
  predicate OnlyIdentified(item: Item, id: string) {
    && item.id == Some(id) && item.identityOnly && item.contentStatus == Some("identity_only")
    && item.threadId == item.from_ == item.from == item.subject == item.snippet == item.body == item.emailTs == None
    && item.to == [] && item.attachments == [] && item.labels == NullLabels && item.labelsPresent == None
  }

  predicate PageWritten(p: Payload, settings: Settings, requested: Option<string>, next: Option<string>, ids: seq<string>) {
    && p.query == Given(settings.query) && p.account == settings.account && p.authorizedFrom == Given(settings.authorizedFrom)
    && RevisionWritten(p.authorizationRevision, settings.authorizationRevision, "connector-read:v1")
    && RevisionWritten(p.policyRevision, settings.policyRevision, "policy:v1")
    && p.requestedPageToken == Given(if requested == None then "" else requested.value)
    && p.nextPageToken == (if NoToken(next) then Null else Given(next.value))
    && p.requestedCursor == p.nextCursor == Absent
    && p.terminal == NoToken(next) && p.denied == []
    && |p.messages| == |ids| && forall k :: 0 <= k < |ids| ==> OnlyIdentified(p.messages[k], ids[k])
  }

  predicate PageOfCall(p: Payload, settings: Settings, call: Call) {
    call.result.Some? && PageWritten(p, settings, call.requestedToken, call.result.value.nextToken, call.result.value.ids)
  }

  /** Every key of every page written: one page for each call, in order. */
  lemma CapturedPages(settings: Settings, calls: seq<Call>)
    requires Capture(settings, calls).Ok?
    ensures Answered(calls) && |Capture(settings, calls).value| == |calls|
    ensures forall i :: 0 <= i < |calls| ==> PageOfCall(Capture(settings, calls).value[i], settings, calls[i])
  {
  }
}
