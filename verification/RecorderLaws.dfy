/** What each event leaves behind, in the terms of the event: which entry it is
    recorded on, what becomes of every field of it, and that nothing else
    changes. */
module RecorderLaws {
  import opened Common
  import opened Lanes
  import opened RecorderModel
  import opened RecorderRuns
  import opened RecorderBodies

  // ----- Which events count -----

  // The event has a place at or before the cutoff. Extra info has no
  // timestamp; cache events have no place.
  predicate PlacedBy(cutoff: Time, e: Event) {
    match e
    case RequestExtraInfo(_, _) => true
    case ResponseExtraInfo(_, _) => true
    case ServedFromCache(_) => false
    case _ => e.timestamp.Some? && cutoff != 0 && e.timestamp.value <= cutoff
  }

  predicate Counts(s: State, e: Event) {
    s.limitErr.None? && (s.frozen ==> PlacedBy(s.cutoff, e))
  }

  // The first hop has not come, and the freeze has.
  predicate Parks(s: State, e: Event) {
    (e.RequestExtraInfo? || e.ResponseExtraInfo?) && s.frozen && ChainOf(s, e.id).hops == []
  }

  // Events that do not count leave the recorder as it is; of the requests
  // turned away at the cutoff, the ID is remembered.
  lemma OtherEventsChangeNothing(s: State, e: Event, bodies: bool)
    requires !Counts(s, e)
    ensures HandleEvent(s, e, bodies)
            == (if s.limitErr.None? && e.RequestWillBeSent? then s.(postCutoff := s.postCutoff + {e.id}) else s, [])
  {
  }

  lemma CountedIsProcessed(s: State, e: Event, bodies: bool)
    requires Counts(s, e) && !Parks(s, e)
    ensures HandleEvent(s, e, bodies) == Process(s, e, bodies)
  {
  }

  // ----- How an entry changes -----

  // Extras arrive and body fetches are scheduled by rules of their own.
  function Delivered(h: Entry, k: Entry): Entry {
    h.(requestExtra := k.requestExtra, responseExtra := k.responseExtra, bodyFetchScheduled := k.bodyFetchScheduled)
  }

  ghost predicate DeliveredOnly(c: Chain, d: Chain) {
    |d.hops| == |c.hops|
      && forall i {:trigger d.hops[i]} :: 0 <= i < |c.hops| ==> d.hops[i] == Delivered(c.hops[i], d.hops[i])
  }

  // The newest hop has become f; deliveries apart, no other hop has changed.
  ghost predicate NewestBecomes(c: Chain, d: Chain, f: Entry) {
    && c.hops != [] && |d.hops| == |c.hops|
    && (forall i {:trigger d.hops[i]} :: 0 <= i < |c.hops| - 1 ==> d.hops[i] == Delivered(c.hops[i], d.hops[i]))
    && Last(d) == Delivered(f, Last(d))
  }

  // Only this ID is concerned, and of the rest of the recorder only the budget.
  ghost predicate Touches(s: State, t: State, id: RequestID) {
    && t == s.(chains := t.chains, retained := t.retained, limitErr := t.limitErr)
    && forall k {:trigger ChainOf(t, k)} :: k != id ==> ChainOf(t, k) == ChainOf(s, k)
  }

  // The first limit that a message breaks: header values, cookies, bytes.
  function Refusal(s: State, items: nat, cookies: nat, bytes: nat): Option<LimitError> {
    if items > 4096 then Some(TooManyHeaderValues)
    else if cookies > 4096 then Some(TooManyCookies)
    else if s.retained + bytes > s.maxBytes then Some(TooManyBytes)
    else None
  }

  lemma AdmitLaw(s: State, items: nat, cookies: nat, bytes: nat)
    requires s.limitErr.None?
    ensures var refusal := Refusal(s, items, cookies, bytes);
            Admit(s, Violation(items, cookies), bytes)
            == if refusal.Some? then (s.(limitErr := refusal), false) else (s.(retained := s.retained + bytes), true)
  {
  }

  // The budget afterwards: what is admitted is paid for.
  predicate Paid(s: State, t: State, refusal: Option<LimitError>, bytes: nat) {
    t.limitErr == refusal && t.retained == s.retained + if refusal.None? then bytes else 0
  }

  // An instant later than the last one known; 0 is none.
  function Latest(last: Time, at: Time): Time {
    if at == 0 then last else if last == 0 then at else Max(last, at)
  }

  function At(timestamp: Option<Time>): Time {
    match timestamp case None => 0 case Some(at) => at
  }

  function Flag(hasExtraInfo: bool): Expectation {
    if hasExtraInfo then Expected else NotExpected
  }

  lemma ReconcileDelivers(c: Chain)
    ensures DeliveredOnly(c, Reconcile(c))
  {
  }

  lemma ExpectLastBecomes(c: Chain, e: Entry, expected: bool)
    requires c.hops != []
    ensures NewestBecomes(c, ExpectLast(WithLast(c, e), expected), e.(expectation := Flag(expected)))
  {
  }

  lemma MarkDueDelivers(c: Chain)
    ensures DeliveredOnly(c, MarkDue(c))
  {
  }

  lemma BecomesThen(c: Chain, d: Chain, d': Chain, f: Entry)
    requires NewestBecomes(c, d, f) && DeliveredOnly(d, d')
    ensures NewestBecomes(c, d', f)
  {
  }

  // Scheduling body fetches touches nothing else.
  lemma ReadyDelivers(s: State, id: RequestID, bodies: bool)
    ensures var t := ReadyBodyFetches(s, id, bodies).0;
            Touches(s, t, id) && t.limitErr == s.limitErr && t.retained == s.retained
            && DeliveredOnly(ChainOf(s, id), ChainOf(t, id))
            && ChainOf(t, id).pendingRequest == ChainOf(s, id).pendingRequest
            && ChainOf(t, id).pendingResponse == ChainOf(s, id).pendingResponse
  {
    if id in s.chains { MarkDueDelivers(s.chains[id]); }
  }

  lemma ThenReady(s: State, s1: State, id: RequestID, bodies: bool, f: Entry)
    requires Touches(s, s1, id) && NewestBecomes(ChainOf(s, id), ChainOf(s1, id), f)
    ensures var t := ReadyBodyFetches(s1, id, bodies).0;
            && Touches(s, t, id) && NewestBecomes(ChainOf(s, id), ChainOf(t, id), f)
            && t.limitErr == s1.limitErr && t.retained == s1.retained
  {
    ReadyDelivers(s1, id, bodies);
    BecomesThen(ChainOf(s, id), ChainOf(s1, id), ChainOf(ReadyBodyFetches(s1, id, bodies).0, id), f);
  }

  // ----- Responses, data and the end of loading -----

  // What an answered entry is.
  function Answered(h: Entry, e: Event): Entry
    requires e.ResponseReceived?
  {
    h.(response := e.response, responseMono := At(e.timestamp),
       lastEventMono := Latest(h.lastEventMono, At(e.timestamp)),
       expectation := Flag(e.hasExtraInfo),
       resourceType := if h.resourceType == "" then e.resourceType else h.resourceType)
  }

  function ResponseRefusal(s: State, r: Response): Option<LimitError> {
    Refusal(s, Max(r.headers.items, r.requestHeaders.items), r.requestHeaders.cookies, r.bytes)
  }

  lemma OnResponseLaw(s: State, e: Event)
    requires s.limitErr.None? && e.ResponseReceived? && e.response.Some? && ChainOf(s, e.id).hops != []
    ensures var t := OnResponseReceived(s, e); var c, d := ChainOf(s, e.id), ChainOf(t, e.id);
            var refusal := ResponseRefusal(s, e.response.value);
            && Touches(s, t, e.id) && Paid(s, t, refusal, e.response.value.bytes)
            && if refusal.None? then NewestBecomes(c, d, Answered(Last(c), e)) else d == c
  {
    var c, r := ChainOf(s, e.id), e.response.value;
    AdmitLaw(s, Max(r.headers.items, r.requestHeaders.items), r.requestHeaders.cookies, r.bytes);
    ExpectLastBecomes(c, AnsweredHop(Last(c), e), e.hasExtraInfo);
  }

  // An admitted response is recorded on the newest hop of its ID, which then
  // expects extra info if, and only if, the event announces it.
  lemma ResponseLaw(s: State, e: Event, bodies: bool)
    requires Counts(s, e) && e.ResponseReceived? && e.response.Some? && ChainOf(s, e.id).hops != []
    ensures var t := HandleEvent(s, e, bodies).0; var c, d := ChainOf(s, e.id), ChainOf(t, e.id);
            var refusal := ResponseRefusal(s, e.response.value);
            && Touches(s, t, e.id) && Paid(s, t, refusal, e.response.value.bytes)
            && if refusal.None? then NewestBecomes(c, d, Answered(Last(c), e)) else DeliveredOnly(c, d)
  {
    CountedIsProcessed(s, e, bodies);
    OnResponseLaw(s, e);
    var s1 := OnResponseReceived(s, e);
    if s1.limitErr.None? {
      ThenReady(s, s1, e.id, bodies, Answered(Last(ChainOf(s, e.id)), e));
    } else {
      ReadyDelivers(s1, e.id, bodies);
    }
  }

  // An event without its response records nothing.
  lemma EmptyResponseLaw(s: State, e: Event, bodies: bool)
    requires Counts(s, e) && e.ResponseReceived? && e.response.None?
    ensures var t := HandleEvent(s, e, bodies).0;
            && Touches(s, t, e.id) && t.limitErr.None? && t.retained == s.retained
            && DeliveredOnly(ChainOf(s, e.id), ChainOf(t, e.id))
  {
    CountedIsProcessed(s, e, bodies);
    ReadyDelivers(s, e.id, bodies);
  }

  // The newest hop has finished loading.
  lemma FinishedLaw(s: State, e: Event, bodies: bool)
    requires Counts(s, e) && e.LoadingFinished? && ChainOf(s, e.id).hops != []
    ensures var t := HandleEvent(s, e, bodies).0; var c, d := ChainOf(s, e.id), ChainOf(t, e.id);
            var h, at := Last(c), At(e.timestamp);
            && Touches(s, t, e.id) && t.limitErr.None? && t.retained == s.retained
            && NewestBecomes(c, d, h.(finishedMono := at, lastEventMono := Latest(h.lastEventMono, at),
                                      encodedDataLength := e.encodedDataLength, loadingFinished := true))
  {
    CountedIsProcessed(s, e, bodies);
    ThenReady(s, OnLoadingFinished(s, e), e.id, bodies, FinishedHop(Last(ChainOf(s, e.id)), e));
  }

  // Data adds its lengths to the newest hop; negative ones do not count.
  lemma DataLaw(s: State, e: Event, bodies: bool)
    requires Counts(s, e) && e.DataReceived? && ChainOf(s, e.id).hops != []
    ensures var (t, tasks) := HandleEvent(s, e, bodies); var c, d := ChainOf(s, e.id), ChainOf(t, e.id);
            var h := Last(c);
            && Touches(s, t, e.id) && t.limitErr.None? && t.retained == s.retained && tasks == []
            && NewestBecomes(c, d, h.(lastEventMono := Latest(h.lastEventMono, At(e.timestamp)),
                                      decodedBodyLength := h.decodedBodyLength + Max(0, e.dataLength),
                                      encodedBodyLength := h.encodedBodyLength + Max(0, e.encodedLength)))
  {
    CountedIsProcessed(s, e, bodies);
  }

  // The newest hop was served from the cache.
  lemma CacheLaw(s: State, e: Event, bodies: bool)
    requires Counts(s, e) && e.ServedFromCache? && ChainOf(s, e.id).hops != []
    ensures var (t, tasks) := HandleEvent(s, e, bodies); var c, d := ChainOf(s, e.id), ChainOf(t, e.id);
            && Touches(s, t, e.id) && t.limitErr.None? && t.retained == s.retained && tasks == []
            && NewestBecomes(c, d, Last(c).(servedFromCache := true))
  {
    CountedIsProcessed(s, e, bodies);
  }

  function FailureText(e: Event): Text
    requires e.LoadingFailed?
  {
    if e.errorText.content == "" then e.blockedReason else e.errorText
  }

  // Extras are waiting that no event has announced.
  predicate Unannounced(c: Chain)
    requires c.hops != []
  {
    Last(c).expectation.Unknown? && (c.pendingRequest != [] || c.pendingResponse != [])
  }

  // What an entry is whose load has failed; `kept` if its text is.
  function Failed(c: Chain, e: Event, kept: bool): Entry
    requires c.hops != [] && e.LoadingFailed?
  {
    var h, at := Last(c), At(e.timestamp);
    h.(finishedMono := at, lastEventMono := Latest(h.lastEventMono, at), terminalFailure := true,
       failure := if kept then Some(FailureText(e)) else h.failure,
       expectation := if kept && Unannounced(c) then Expected else h.expectation)
  }

  lemma ExplainBecomes(c: Chain, failed: Entry, text: Text)
    requires c.hops != [] && failed.expectation == Last(c).expectation
    ensures NewestBecomes(c, ExplainFailure(WithLast(c, failed), text),
                          failed.(failure := Some(text),
                                  expectation := if Unannounced(c) then Expected else failed.expectation))
  {
    var named := failed.(failure := Some(text));
    assert WithLast(WithLast(c, failed), named) == WithLast(c, named);
    ExpectLastBecomes(c, named, true);
  }

  lemma OnFailedLaw(s: State, e: Event)
    requires s.limitErr.None? && e.LoadingFailed? && ChainOf(s, e.id).hops != []
    ensures var t := OnLoadingFailed(s, e); var c, d := ChainOf(s, e.id), ChainOf(t, e.id);
            var cost := FailureText(e).bytes + 64; var refusal := Refusal(s, 0, 0, cost);
            && Touches(s, t, e.id) && Paid(s, t, refusal, cost)
            && NewestBecomes(c, d, Failed(c, e, refusal.None?))
  {
    var c := s.chains[e.id];
    var f := WithLast(c, FailedHop(Last(c), e));
    AdmitEffect(Put(s, e.id, f), None, FailureText(e).bytes + DERIVED_ITEM_OVERHEAD);
    ExplainBecomes(c, FailedHop(Last(c), e), FailureText(e));
  }

  // A failed load is finished as failed. Its text is kept if it is paid for,
  // and extras that are queued already then announce themselves.
  lemma FailedLaw(s: State, e: Event, bodies: bool)
    requires Counts(s, e) && e.LoadingFailed? && ChainOf(s, e.id).hops != []
    ensures var (t, tasks) := HandleEvent(s, e, bodies); var c, d := ChainOf(s, e.id), ChainOf(t, e.id);
            var cost := FailureText(e).bytes + 64; var refusal := Refusal(s, 0, 0, cost);
            && Touches(s, t, e.id) && Paid(s, t, refusal, cost) && tasks == []
            && NewestBecomes(c, d, Failed(c, e, refusal.None?))
  {
    CountedIsProcessed(s, e, bodies);
    OnFailedLaw(s, e);
  }

  // Events about an ID that has no entry change nothing.
  lemma UnknownLaw(s: State, e: Event, bodies: bool)
    requires Counts(s, e)
    requires e.ResponseReceived? || e.LoadingFinished? || e.LoadingFailed? || e.DataReceived? || e.ServedFromCache?
    requires ChainOf(s, e.id).hops == []
    ensures HandleEvent(s, e, bodies) == (s, [])
  {
    CountedIsProcessed(s, e, bodies);
    if e.id in s.chains {
      assert MarkDue(s.chains[e.id]) == s.chains[e.id];
      assert Put(s, e.id, s.chains[e.id]) == s;
    }
  }

  // The page's own events are kept with their instants.
  lemma PageLaw(s: State, e: Event, bodies: bool)
    requires Counts(s, e) && (e.DomContentEventFired? || e.LoadEventFired?)
    ensures HandleEvent(s, e, bodies)
            == (if e.DomContentEventFired? then s.(domContent := Some(At(e.timestamp)))
                else s.(load := Some(At(e.timestamp))), [])
  {
  }

  // ----- Extra info -----

  // A hop whose load has failed learns from an extra that extras come.
  function Told(h: Entry): Entry {
    if h.terminalFailure && h.expectation.Unknown? then h.(expectation := Expected) else h
  }

  // Deliveries apart, the hops are as before, but the newest may be told.
  ghost predicate NewestTold(c: Chain, d: Chain) {
    if c.hops == [] then d.hops == [] else NewestBecomes(c, d, Told(Last(c)))
  }

  lemma SettleTells(c: Chain)
    ensures NewestTold(c, SettleQueued(c))
  {
    ReconcileDelivers(c);
    if c.hops != [] {
      assert WithLast(c, Last(c)) == c;
      ExpectLastBecomes(c, Last(c), true);
    }
  }

  lemma NewestToldThen(c: Chain, c': Chain, d: Chain)
    requires c.hops == c'.hops && NewestTold(c', d)
    ensures NewestTold(c, d)
  {
  }

  lemma OnRequestExtraLaw(s: State, id: RequestID, x: RequestExtra)
    requires s.limitErr.None?
    ensures var t := OnRequestExtra(s, id, x); var c, d := ChainOf(s, id), ChainOf(t, id);
            var refusal := Refusal(s, x.headers.items, Max(x.headers.cookies, x.associatedCookies), x.bytes);
            && Touches(s, t, id) && Paid(s, t, refusal, x.bytes) && if refusal.None? then NewestTold(c, d) else d == c
  {
    var c := ChainOf(s, id);
    AdmitLaw(Put(s, id, c), x.headers.items, Max(x.headers.cookies, x.associatedCookies), x.bytes);
    SettleTells(c.(pendingRequest := c.pendingRequest + [x]));
    NewestToldThen(c, c.(pendingRequest := c.pendingRequest + [x]), WithRequestExtra(c, x));
  }

  lemma OnResponseExtraLaw(s: State, id: RequestID, x: ResponseExtra)
    requires s.limitErr.None?
    ensures var t := OnResponseExtra(s, id, x); var c, d := ChainOf(s, id), ChainOf(t, id);
            var refusal := Refusal(s, x.headers.items, 0, x.bytes);
            && Touches(s, t, id) && Paid(s, t, refusal, x.bytes) && if refusal.None? then NewestTold(c, d) else d == c
  {
    var c := ChainOf(s, id);
    AdmitLaw(Put(s, id, c), x.headers.items, 0, x.bytes);
    SettleTells(c.(pendingResponse := c.pendingResponse + [x]));
    NewestToldThen(c, c.(pendingResponse := c.pendingResponse + [x]), WithResponseExtra(c, x));
  }

  lemma RequestExtraLaw(s: State, e: Event, bodies: bool)
    requires Counts(s, e) && e.RequestExtraInfo? && !Parks(s, e)
    ensures var (t, tasks) := HandleEvent(s, e, bodies); var c, d := ChainOf(s, e.id), ChainOf(t, e.id);
            var x := e.requestExtra;
            var refusal := Refusal(s, x.headers.items, Max(x.headers.cookies, x.associatedCookies), x.bytes);
            && Touches(s, t, e.id) && Paid(s, t, refusal, x.bytes) && tasks == []
            && if refusal.None? then NewestTold(c, d) else d == c
  {
    CountedIsProcessed(s, e, bodies);
    OnRequestExtraLaw(s, e.id, e.requestExtra);
  }

  lemma ResponseExtraLaw(s: State, e: Event, bodies: bool)
    requires Counts(s, e) && e.ResponseExtraInfo? && !Parks(s, e)
    ensures var t := HandleEvent(s, e, bodies).0; var c, d := ChainOf(s, e.id), ChainOf(t, e.id);
            var x := e.responseExtra; var refusal := Refusal(s, x.headers.items, 0, x.bytes);
            && Touches(s, t, e.id) && Paid(s, t, refusal, x.bytes)
            && if refusal.None? then NewestTold(c, d) else DeliveredOnly(c, d)
  {
    CountedIsProcessed(s, e, bodies);
    OnResponseExtraLaw(s, e.id, e.responseExtra);
    var s1 := OnResponseExtra(s, e.id, e.responseExtra);
    ReadyDelivers(s1, e.id, bodies);
    if ChainOf(s, e.id).hops != [] && s1.limitErr.None? {
      ThenReady(s, s1, e.id, bodies, Told(Last(ChainOf(s, e.id))));
    }
  }

  function ExtraRefusal(s: State, e: Event): Option<LimitError>
    requires e.RequestExtraInfo? || e.ResponseExtraInfo?
  {
    match e
    case RequestExtraInfo(_, x) => Refusal(s, x.headers.items, Max(x.headers.cookies, x.associatedCookies), x.bytes)
    case ResponseExtraInfo(_, x) => Refusal(s, x.headers.items, 0, x.bytes)
  }

  // The recorder with the extra parked behind those of its ID.
  function Parked(s: State, e: Event): State
    requires e.RequestExtraInfo? || e.ResponseExtraInfo?
  {
    match e
    case RequestExtraInfo(id, x) =>
      s.(frozenRequest := s.frozenRequest[id := FrozenRequests(s, id) + [x]], orphanCount := s.orphanCount + 1,
         retained := s.retained + x.bytes)
    case ResponseExtraInfo(id, x) =>
      s.(frozenResponse := s.frozenResponse[id := FrozenResponses(s, id) + [x]], orphanCount := s.orphanCount + 1,
         retained := s.retained + x.bytes)
  }

  // After the freeze, extras without a base request are parked, 32 at most.
  lemma ParkedLaw(s: State, e: Event, bodies: bool)
    requires Counts(s, e) && Parks(s, e)
    ensures var refusal := ExtraRefusal(s, e);
            HandleEvent(s, e, bodies)
            == (if s.orphanCount >= 32 then s else if refusal.Some? then s.(limitErr := refusal) else Parked(s, e), [])
  {
  }

  // ----- Base events -----

  // The first limit that a base event breaks, the bytes counted from here.
  function RequestRefusal(s: State, r: Request): Option<LimitError> {
    if r.headers.items > 4096 then Some(TooManyHeaderValues)
    else if r.headers.cookies > 4096 then Some(TooManyCookies)
    else if !r.queryParses then Some(BadQuery)
    else if |s.order| >= s.maxEntries then Some(TooManyEntries)
    else if s.retained + r.bytes > s.maxBytes then Some(TooManyBytes)
    else None
  }

  function Fresh(s: State, e: Event): Entry
    requires e.RequestWillBeSent? && e.request.Some?
  {
    var at := At(e.timestamp);
    Entry(sequence := |s.order| + 1, id := e.id, request := e.request.value, requestExtra := None, response := None,
          responseExtra := None, expectation := Unknown, resourceType := e.resourceType,
          startedWall := (match e.wallTime case None => s.captureStart case Some(wall) => wall), startedMono := at,
          lastEventMono := at, responseMono := 0, finishedMono := 0, encodedDataLength := 0.0, loadingFinished := false,
          decodedBodyLength := 0, encodedBodyLength := 0, body := None, bodyError := "", bodyFetchScheduled := false,
          servedFromCache := false, failure := None, terminalFailure := false, incomplete := false)
  }

  // The recorder with one more hop, numbered next; the first document of all
  // starts the page.
  function WithHopAdded(s: State, e: Event): State
    requires e.RequestWillBeSent? && e.request.Some?
  {
    var c := ChainOf(s, e.id);
    var first := s.pageStartMono == 0 && e.resourceType == "Document";
    s.(chains := s.chains[e.id := c.(hops := c.hops + [Fresh(s, e)])], order := s.order + [(e.id, |c.hops|)],
       retained := s.retained + e.request.value.bytes,
       pageStartMono := if first then Fresh(s, e).startedMono else s.pageStartMono,
       pageStart := if first then Fresh(s, e).startedWall else s.pageStart)
  }

  lemma AppendHopLaw(s: State, e: Event)
    requires s.limitErr.None? && e.RequestWillBeSent? && e.request.Some? && e.id in s.chains
    ensures AppendHop(s, e) == var refusal := RequestRefusal(s, e.request.value);
                               if refusal.Some? then s.(limitErr := refusal) else WithHopAdded(s, e)
  {
  }

  // The recorder once the extras parked for the ID have joined its queues.
  function Joined(s: State, id: RequestID): State {
    var c, xs, ys := ChainOf(s, id), FrozenRequests(s, id), FrozenResponses(s, id);
    s.(chains := s.chains[id := c.(pendingRequest := c.pendingRequest + xs, pendingResponse := c.pendingResponse + ys)],
       frozenRequest := s.frozenRequest - {id}, frozenResponse := s.frozenResponse - {id},
       orphanCount := Max(0, s.orphanCount - |xs| - |ys|))
  }

  // A base event for an ID without entries opens its first hop.
  lemma OpeningLaw(s: State, e: Event, bodies: bool)
    requires Counts(s, e) && e.RequestWillBeSent? && e.request.Some? && e.request.value.isHTTP
    requires ChainOf(s, e.id).hops == []
    ensures var u := Joined(s, e.id).(postCutoff := s.postCutoff - {e.id});
            var refusal := RequestRefusal(s, e.request.value);
            HandleEvent(s, e, bodies) == (if refusal.Some? then u.(limitErr := refusal) else WithHopAdded(u, e), [])
  {
    CountedIsProcessed(s, e, bodies);
    var u := Adopt(s.(postCutoff := s.postCutoff - {e.id}), e.id);
    AppendHopLaw(u, e);
    assert u == Joined(s, e.id).(postCutoff := s.postCutoff - {e.id});
  }

  // Other base events open nothing: not of the web, or a duplicate.
  lemma DuplicateLaw(s: State, e: Event, bodies: bool)
    requires Counts(s, e) && e.RequestWillBeSent?
    requires e.request.None? || !e.request.value.isHTTP || (ChainOf(s, e.id).hops != [] && e.redirectResponse.None?)
    ensures HandleEvent(s, e, bodies)
            == (if e.request.Some? && e.request.value.isHTTP then s.(postCutoff := s.postCutoff - {e.id}) else s, [])
  {
    CountedIsProcessed(s, e, bodies);
  }

  // A response that can have no body: to HEAD, or by its status, for which
  // the extra info has the last word.
  predicate Bodiless(h: Entry) {
    var verb, status := h.request.verb,
                        if h.responseExtra.Some? && h.responseExtra.value.statusCode != 0
                        then h.responseExtra.value.statusCode
                        else if h.response.Some? then h.response.value.status else 0;
    || (|verb| == 4 && verb[0] in "Hh" && verb[1] in "Ee" && verb[2] in "Aa" && verb[3] in "Dd")
    || 100 <= status <= 199 || status == 204 || status == 205 || status == 304
  }

  lemma BodilessLaw(h: Entry)
    ensures HasNoResponseBody(h) <==> Bodiless(h)
  {
  }

  // What the newest hop is once it has been redirected: answered by the
  // redirect if by nothing else, finished, and its body given up.
  function Redirected(h: Entry, e: Event, bodies: bool): Entry
    requires e.RequestWillBeSent? && e.redirectResponse.Some?
  {
    var r := e.redirectResponse.value;
    var answered := h.(response := if h.response.None? then Some(r) else h.response,
                       finishedMono := if h.finishedMono == 0 then At(e.timestamp) else h.finishedMono,
                       encodedDataLength := r.encodedDataLength, loadingFinished := true,
                       expectation := Flag(e.redirectHasExtraInfo));
    if bodies && !Bodiless(answered)
    then answered.(bodyError := "CDP cannot reliably retrieve redirect response bodies after request ID reuse")
    else answered
  }

  // The redirect's response counts against the limits if it answers the hop.
  function RedirectRefusal(s: State, h: Entry, r: Response): Option<LimitError> {
    if h.response.None? then ResponseRefusal(s, r) else None
  }

  // Scheduling apart, the closed hop is the redirected one.
  lemma ClosedIsRedirected(h: Entry, e: Event, bodies: bool)
    requires e.RequestWillBeSent? && e.redirectResponse.Some?
    ensures var closed := ClosedHop(h, e.redirectResponse.value, MonotonicTime(e.timestamp), bodies);
            closed.(expectation := Flag(e.redirectHasExtraInfo))
            == Redirected(h, e, bodies).(bodyFetchScheduled := h.bodyFetchScheduled || bodies)
  {
    BodilessLaw(RedirectedHop(h, e.redirectResponse.value, MonotonicTime(e.timestamp)));
  }

  // The hop is closed: answered and finished by the redirect, expecting extra
  // info if the redirect announces it, and its body is not fetched any more.
  ghost predicate Closes(s: State, t: State, e: Event, bodies: bool)
    requires e.RequestWillBeSent? && e.redirectResponse.Some?
  {
    var c, d := ChainOf(s, e.id), ChainOf(t, e.id);
    && c.hops != [] && Touches(s, t, e.id)
    && Paid(s, t, None, if Last(c).response.None? then e.redirectResponse.value.bytes else 0)
    && NewestBecomes(c, d, Redirected(Last(c), e, bodies))
    && Last(d).bodyFetchScheduled == (Last(c).bodyFetchScheduled || bodies)
  }

  lemma ExpectLastScheduled(c: Chain, f: Entry, expected: bool)
    requires c.hops != []
    ensures Last(ExpectLast(WithLast(c, f), expected)).bodyFetchScheduled == f.bodyFetchScheduled
  {
  }

  lemma ClosedChain(c: Chain, f: Entry, e: Event, bodies: bool)
    requires c.hops != [] && e.RequestWillBeSent? && e.redirectResponse.Some?
    requires f == ClosedHop(Last(c), e.redirectResponse.value, MonotonicTime(e.timestamp), bodies)
    ensures var d := ExpectLast(WithLast(c, f), e.redirectHasExtraInfo);
            && NewestBecomes(c, d, Redirected(Last(c), e, bodies))
            && Last(d).bodyFetchScheduled == (Last(c).bodyFetchScheduled || bodies)
  {
    ClosedIsRedirected(Last(c), e, bodies);
    ExpectLastBecomes(c, f, e.redirectHasExtraInfo);
    ExpectLastScheduled(c, f, e.redirectHasExtraInfo);
  }

  lemma CloseIs(s: State, id: RequestID, r: Response, hasExtraInfo: bool, at: Time, bodies: bool)
    requires s.limitErr.None? && HasCapturedRequest(s, id)
    ensures var c := s.chains[id]; var refusal := RedirectRefusal(s, Last(c), r);
            CloseRedirect(s, id, r, hasExtraInfo, at, bodies)
            == if refusal.Some? then (s.(limitErr := refusal), false)
               else (Put(s.(retained := s.retained + if Last(c).response.None? then r.bytes else 0), id,
                         ExpectLast(WithLast(c, ClosedHop(Last(c), r, at, bodies)), hasExtraInfo)), true)
  {
    AdmitLaw(s, Max(r.headers.items, r.requestHeaders.items), r.requestHeaders.cookies, r.bytes);
  }

  lemma CloseLaw(s: State, e: Event, bodies: bool)
    requires s.limitErr.None? && e.RequestWillBeSent? && e.redirectResponse.Some? && HasCapturedRequest(s, e.id)
    ensures var r := e.redirectResponse.value;
            var (t, closed) := CloseRedirect(s, e.id, r, e.redirectHasExtraInfo, MonotonicTime(e.timestamp), bodies);
            var refusal := RedirectRefusal(s, Last(ChainOf(s, e.id)), r);
            && (closed <==> refusal.None?) && e.id in t.chains
            && if closed then Closes(s, t, e, bodies) else t == s.(limitErr := refusal)
  {
    var r, c, at := e.redirectResponse.value, s.chains[e.id], MonotonicTime(e.timestamp);
    var f := ClosedHop(Last(c), r, at, bodies);
    CloseIs(s, e.id, r, e.redirectHasExtraInfo, at, bodies);
    ClosedChain(c, f, e, bodies);
    PutCloses(s, ExpectLast(WithLast(c, f), e.redirectHasExtraInfo), e, bodies);
  }

  lemma PutCloses(s: State, d: Chain, e: Event, bodies: bool)
    requires s.limitErr.None? && e.RequestWillBeSent? && e.redirectResponse.Some? && HasCapturedRequest(s, e.id)
    requires var c := s.chains[e.id];
             && NewestBecomes(c, d, Redirected(Last(c), e, bodies))
             && Last(d).bodyFetchScheduled == (Last(c).bodyFetchScheduled || bodies)
    ensures var cost := if Last(s.chains[e.id]).response.None? then e.redirectResponse.value.bytes else 0;
            Closes(s, Put(s.(retained := s.retained + cost), e.id, d), e, bodies)
  {
  }

  // A redirect closes the newest hop and opens the next, as far as the limits
  // allow.
  lemma RedirectLaw(s: State, e: Event, bodies: bool)
    requires Counts(s, e) && e.RequestWillBeSent? && e.request.Some? && e.request.value.isHTTP
    requires ChainOf(s, e.id).hops != [] && e.redirectResponse.Some?
    ensures var u, (t, tasks) := s.(postCutoff := s.postCutoff - {e.id}), HandleEvent(s, e, bodies);
            var refusal := RedirectRefusal(u, Last(ChainOf(s, e.id)), e.redirectResponse.value);
            && tasks == []
            && if refusal.Some? then t == u.(limitErr := refusal)
               else exists m {:trigger Closes(u, m, e, bodies)} :: Closes(u, m, e, bodies)
                      && t == var over := RequestRefusal(m, e.request.value);
                              if over.Some? then m.(limitErr := over) else WithHopAdded(m, e)
  {
    CountedIsProcessed(s, e, bodies);
    var u := s.(postCutoff := s.postCutoff - {e.id});
    CloseLaw(u, e, bodies);
    var (m, closed) := CloseRedirect(u, e.id, e.redirectResponse.value, e.redirectHasExtraInfo,
                                     MonotonicTime(e.timestamp), bodies);
    if closed {
      AppendHopLaw(m, e);
      assert Closes(u, m, e, bodies);
    }
  }

  // ----- Bodies -----

  // Loaded and answered, and any extra info that comes has come.
  predicate ReadyToFetch(h: Entry) {
    h.loadingFinished && h.response.Some? && !(h.expectation.Expected? && h.responseExtra.None?)
  }

  lemma MarkDueLaw(id: RequestID, c: Chain)
    ensures var d := MarkDue(c); var tasks := DueTasks(id, c.hops);
            && (forall i {:trigger d.hops[i]} :: 0 <= i < |c.hops| ==>
                  (d.hops[i].bodyFetchScheduled <==> c.hops[i].bodyFetchScheduled || ReadyToFetch(c.hops[i])))
            && (forall task :: task in tasks <==>
                  && task.id == id && task.hop < |c.hops| && ReadyToFetch(c.hops[task.hop])
                  && !c.hops[task.hop].bodyFetchScheduled && !Bodiless(c.hops[task.hop]))
  {
    DueTasksProperties(id, c.hops);
    forall h: Entry ensures HasNoResponseBody(h) <==> Bodiless(h) { BodilessLaw(h); }
  }

  // The events after which bodies may be ready, when bodies are wanted.
  predicate MayReady(e: Event) {
    e.ResponseReceived? || e.LoadingFinished? || e.ResponseExtraInfo?
  }

  ghost predicate SameSchedule(c: Chain, d: Chain) {
    |d.hops| == |c.hops| && forall i {:trigger d.hops[i]} :: 0 <= i < |c.hops| ==>
      d.hops[i].bodyFetchScheduled == c.hops[i].bodyFetchScheduled
  }

  lemma ExpectLastSchedule(c: Chain, e: Entry, expected: bool)
    requires c.hops != [] && e.bodyFetchScheduled == Last(c).bodyFetchScheduled
    ensures SameSchedule(c, ExpectLast(WithLast(c, e), expected))
  {
  }

  lemma SettleSchedule(c: Chain, d: Chain)
    requires d.hops == c.hops
    ensures SameSchedule(c, SettleQueued(d))
  {
    if c.hops != [] {
      assert WithLast(d, Last(d)) == d;
      ExpectLastSchedule(d, Last(d), true);
    }
  }

  lemma HandlersKeepSchedule(s: State, e: Event)
    requires s.limitErr.None? && MayReady(e)
    ensures SameSchedule(ChainOf(s, e.id), ChainOf(BeforeFetch(s, e), e.id))
  {
    var c := ChainOf(s, e.id);
    match e
    case ResponseReceived(_, _, _, _, _) =>
      OnResponseReceivedEffect(s, e);
      if c.hops != [] { ExpectLastSchedule(c, AnsweredHop(Last(c), e), e.hasExtraInfo); }
    case LoadingFinished(_, _, _) =>
    case ResponseExtraInfo(id, x) =>
      OnResponseExtraEffect(s, id, x);
      SettleSchedule(c, c.(pendingResponse := c.pendingResponse + [x]));
  }

  // Between the chain before the event, once it is recorded, and once the
  // bodies are scheduled.
  lemma ScheduledThen(id: RequestID, c: Chain, c': Chain)
    requires SameSchedule(c, c')
    ensures Schedules(id, c, MarkDue(c'), DueTasks(id, c'.hops))
  {
    MarkDueLaw(id, c');
  }

  // Each hop is scheduled that was before, or is ready; fetches are asked for
  // exactly for those newly scheduled whose response may have a body.
  ghost predicate Schedules(id: RequestID, c: Chain, d: Chain, tasks: seq<Task>) {
    && |d.hops| == |c.hops|
    && (forall i {:trigger d.hops[i]} :: 0 <= i < |c.hops| ==>
          (d.hops[i].bodyFetchScheduled <==> c.hops[i].bodyFetchScheduled || ReadyToFetch(d.hops[i])))
    && (forall task :: task in tasks <==>
          && task.id == id && task.hop < |d.hops| && d.hops[task.hop].bodyFetchScheduled
          && !c.hops[task.hop].bodyFetchScheduled && !Bodiless(d.hops[task.hop]))
  }

  lemma BodiesLaw(s: State, e: Event)
    requires Counts(s, e) && MayReady(e) && !Parks(s, e)
    ensures var (t, tasks) := HandleEvent(s, e, true); Schedules(e.id, ChainOf(s, e.id), ChainOf(t, e.id), tasks)
  {
    CountedIsProcessed(s, e, true);
    var s1 := BeforeFetch(s, e);
    HandlersKeepSchedule(s, e);
    ScheduledThen(e.id, ChainOf(s, e.id), ChainOf(s1, e.id));
    if e.id !in s1.chains { assert MarkDue(EMPTY_CHAIN) == EMPTY_CHAIN; }
  }

  // Without bodies nothing is scheduled.
  lemma NoBodiesLaw(s: State, e: Event)
    requires Counts(s, e) && MayReady(e) && !Parks(s, e)
    ensures var (t, tasks) := HandleEvent(s, e, false); tasks == [] && SameSchedule(ChainOf(s, e.id), ChainOf(t, e.id))
  {
    CountedIsProcessed(s, e, false);
    HandlersKeepSchedule(s, e);
  }

  // ----- Answers, errors, the freeze and the end -----

  // The one hop that an answer is for becomes f.
  ghost predicate HopBecomes(s: State, t: State, task: Task, f: Entry) {
    && ValidTask(s, task)
    && t.chains == s.chains[task.id := s.chains[task.id].(hops := s.chains[task.id].hops[task.hop := f])]
    && t == s.(chains := t.chains, retained := t.retained, limitErr := t.limitErr)
  }

  // The room that a fetched body needs, and whether there is so much left.
  predicate BodyFits(s: State, body: Body) {
    s.limitErr.None? && s.retained + body.text.bytes + 64 <= s.maxBytes
  }

  // A fetched body is kept if it is paid for; a note says that it was too much
  // otherwise. A failed fetch leaves its message.
  lemma AnswerLaw(s: State, task: Task, outcome: FetchOutcome)
    requires ValidTask(s, task)
    ensures var t := Do(s, AnswerBody(task, outcome)).0; var h := s.chains[task.id].hops[task.hop];
            match outcome
            case FetchFailed(message) =>
              HopBecomes(s, t, task, h.(bodyError := message)) && t.retained == s.retained && t.limitErr == s.limitErr
            case Fetched(body) =>
              if BodyFits(s, body) then
                && HopBecomes(s, t, task, h.(body := Some(body)))
                && t.retained == s.retained + body.text.bytes + 64 && t.limitErr.None?
              else
                && HopBecomes(s, t, task,
                              h.(bodyError := "response body omitted because the capture retention limit was reached"))
                && t.retained == s.retained && t.limitErr == Some(s.limitErr.GetOr(TooManyBytes))
  {
  }

  // The first error reported stays.
  lemma ErrorLaw(s: State, error: LimitError)
    ensures Do(s, ReportError(error)).0 == if s.limitErr.Some? then s else s.(limitErr := Some(error))
  {
  }

  // In a run, freezing moves nothing.
  lemma FreezeLaw(captureStart: Time, targetBytes: nat, actions: seq<Action>, cutoff: Time)
    ensures var s := Run(Init(captureStart, targetBytes), actions);
            Do(s, Freeze(cutoff)) == (s.(frozen := true, cutoff := cutoff), [])
  {
    ReconcileChangesNothing(captureStart, targetBytes, actions);
  }

  predicate Lacks(h: Entry) {
    h.expectation.Unknown? || (h.expectation.Expected? && !(h.requestExtra.Some? && h.responseExtra.Some?))
  }

  ghost predicate Flags(c: Chain, d: Chain) {
    && d == c.(hops := d.hops) && |d.hops| == |c.hops|
    && forall i {:trigger d.hops[i]} :: 0 <= i < |c.hops| ==>
         d.hops[i] == c.hops[i].(incomplete := Lacks(c.hops[i]))
  }

  lemma FlaggedChain(c: Chain)
    ensures Flags(c, FlagMissing(c))
  {
  }

  lemma FlagsAt(s: State, k: RequestID)
    requires ReconcileAll(s) == s
    ensures var t := MarkMissingExtraInfo(s);
            t == s.(chains := t.chains) && t.chains.Keys == s.chains.Keys && Flags(ChainOf(s, k), ChainOf(t, k))
  {
    FlaggedChain(ChainOf(s, k));
    if k !in s.chains { assert Flags(EMPTY_CHAIN, EMPTY_CHAIN); }
  }

  // In a run, the last call flags each hop that lacks extra info, and only that.
  lemma MarkMissingLaw(captureStart: Time, targetBytes: nat, actions: seq<Action>, k: RequestID)
    ensures var s := Run(Init(captureStart, targetBytes), actions); var t := Do(s, MarkMissing).0;
            t == s.(chains := t.chains) && t.chains.Keys == s.chains.Keys && Flags(ChainOf(s, k), ChainOf(t, k))
  {
    ReconcileChangesNothing(captureStart, targetBytes, actions);
    FlagsAt(Run(Init(captureStart, targetBytes), actions), k);
  }
}
