/** Runs of the recorder: any sequence of the calls its owner makes. The
    invariant of every reachable state, and conservation of extra info. */
module RecorderRuns {
  import opened Common
  import opened Lanes
  import opened RecorderModel

  datatype Action =
    | Handle(event: Event, bodies: bool)
    | HandleBuffered(event: Event, bodies: bool)
    | Freeze(cutoff: Time)
    | ReportError(error: LimitError)
    | AnswerBody(task: Task, outcome: FetchOutcome)
    | MarkMissing

  function Do(s: State, a: Action): (State, seq<Task>) {
    match a
    case Handle(event, bodies) => HandleEvent(s, event, bodies)
    case HandleBuffered(event, bodies) => HandleBufferedEvent(s, event, bodies)
    case Freeze(cutoff) => (FreezeAt(s, cutoff), [])
    case ReportError(error) => (Fail(s, error), [])
    case AnswerBody(task, outcome) => (if ValidTask(s, task) then SetResponseBody(s, task, outcome) else s, [])
    case MarkMissing => (MarkMissingExtraInfo(s), [])
  }

  function Run(s: State, actions: seq<Action>): State {
    if actions == [] then s
    else Do(Run(s, actions[..|actions| - 1]), actions[|actions| - 1]).0
  }

  // ----- The invariant -----

  ghost predicate ChainOk(c: Chain) {
    && LaneOk(Gates(c.hops), RequestLane(c))
    && LaneOk(Gates(c.hops), ResponseLane(c))
    && forall i {:trigger c.hops[i]} :: 0 <= i < |c.hops| && c.hops[i].response.Some? ==>
         !c.hops[i].expectation.Unknown?
  }

  // Extras are parked only after the freeze, and only while their ID has no
  // captured request.
  ghost predicate InvAt(s: State, id: RequestID) {
    && ChainOk(ChainOf(s, id))
    && (HasCapturedRequest(s, id) || !s.frozen ==> FrozenRequests(s, id) == [] && FrozenResponses(s, id) == [])
  }

  // ----- Chains -----

  lemma ReconcileLanes(c: Chain)
    ensures Gates(Reconcile(c).hops) == Gates(c.hops)
    ensures RequestLane(Reconcile(c)) == Fill(Gates(c.hops), RequestLane(c))
    ensures ResponseLane(Reconcile(c)) == Fill(Gates(c.hops), ResponseLane(c))
  {
  }

  ghost predicate Fillable<X>(gates: seq<Expectation>, lane: Lane<X>) {
    && |gates| == |lane.held|
    && OnlyLastUnknown(gates) && InOrder(gates, lane.held) && UnknownHoldsNone(gates, lane.held)
  }

  // Both lanes obey their rules, except that the queues may be fillable.
  ghost predicate Reconcilable(c: Chain) {
    && Fillable(Gates(c.hops), RequestLane(c))
    && Fillable(Gates(c.hops), ResponseLane(c))
    && forall i {:trigger c.hops[i]} :: 0 <= i < |c.hops| && c.hops[i].response.Some? ==>
         !c.hops[i].expectation.Unknown?
  }

  ghost predicate SameContents(c: Chain, d: Chain) {
    && Contents(RequestLane(c)) == Contents(RequestLane(d))
    && Contents(ResponseLane(c)) == Contents(ResponseLane(d))
  }

  lemma ReconcileOk(c: Chain)
    requires Reconcilable(c)
    ensures ChainOk(Reconcile(c)) && SameContents(Reconcile(c), c)
  {
    var gates := Gates(c.hops);
    ReconcileLanes(c);
    FillSettles(gates, RequestLane(c));
    FillSettles(gates, ResponseLane(c));
    FillConserves(gates, RequestLane(c));
    FillConserves(gates, ResponseLane(c));
  }

  // A chain that obeys the rules is already reconciled.
  lemma OkIsFixpoint(c: Chain)
    requires ChainOk(c)
    ensures Reconcile(c) == c
  {
    SettledIffFixpoint(Gates(c.hops), RequestLane(c));
    SettledIffFixpoint(Gates(c.hops), ResponseLane(c));
    assert Reconcile(c).hops == c.hops;
  }

  ghost predicate SameLanes(c: Chain, d: Chain) {
    && Gates(c.hops) == Gates(d.hops)
    && RequestLane(c) == RequestLane(d)
    && ResponseLane(c) == ResponseLane(d)
  }

  // Replacing the newest hop by one with the same extras and expectation.
  lemma WithLastOk(c: Chain, e: Entry)
    requires ChainOk(c) && c.hops != []
    requires e.expectation == Last(c).expectation
    requires e.requestExtra == Last(c).requestExtra && e.responseExtra == Last(c).responseExtra
    requires e.response.Some? ==> !e.expectation.Unknown?
    ensures ChainOk(WithLast(c, e)) && SameLanes(WithLast(c, e), c)
  {
    assert SameLanes(WithLast(c, e), c);
  }

  lemma ExpectLastOk(c: Chain, e: Entry, expected: bool)
    requires ChainOk(c) && c.hops != []
    requires e.requestExtra == Last(c).requestExtra && e.responseExtra == Last(c).responseExtra
    ensures ChainOk(ExpectLast(WithLast(c, e), expected))
    ensures SameContents(ExpectLast(WithLast(c, e), expected), c)
    ensures !Last(ExpectLast(WithLast(c, e), expected)).expectation.Unknown?
  {
    var known := e.(expectation := if expected then Expected else NotExpected);
    var d := WithLast(c, known);
    assert WithLast(WithLast(c, e), known) == d;
    assert RequestLane(d) == RequestLane(c) && ResponseLane(d) == ResponseLane(c);
    assert forall i :: 0 <= i < |c.hops| - 1 ==> Gates(d.hops)[i] == Gates(c.hops)[i];
    ReconcileOk(d);
  }

  lemma ContentsAppend<X>(lane: Lane<X>, x: X)
    ensures Contents(Lane(lane.held, lane.pending + [x])) == Contents(lane) + [x]
  {
  }

  lemma SettleQueuedOk(c: Chain)
    requires Reconcilable(c)
    ensures ChainOk(SettleQueued(c)) && SameContents(SettleQueued(c), c)
  {
    if c.hops != [] && Last(c).terminalFailure && Last(c).expectation.Unknown? {
      var d := WithLast(c, Last(c).(expectation := Expected));
      assert RequestLane(d) == RequestLane(c) && ResponseLane(d) == ResponseLane(c);
      assert forall i :: 0 <= i < |c.hops| - 1 ==> Gates(d.hops)[i] == Gates(c.hops)[i];
      ReconcileOk(d);
    } else {
      ReconcileOk(c);
    }
  }

  lemma AppendEmptySlot<X>(gates: seq<Expectation>, lane: Lane<X>)
    requires LaneOk(gates, lane) && (gates != [] ==> !gates[|gates| - 1].Unknown?)
    ensures var longer := Lane(lane.held + [None], lane.pending);
            LaneOk(gates + [Unknown], longer) && Contents(longer) == Contents(lane)
  {
    AttachedConcat(lane.held, [None]);
  }

  lemma AppendHopOk(c: Chain, e: Entry)
    requires ChainOk(c) && (c.hops != [] ==> !Last(c).expectation.Unknown?)
    requires e.expectation.Unknown? && e.requestExtra.None? && e.responseExtra.None? && e.response.None?
    ensures var d := c.(hops := c.hops + [e]); ChainOk(d) && SameContents(d, c)
  {
    var d := c.(hops := c.hops + [e]);
    assert Gates(d.hops) == Gates(c.hops) + [Unknown];
    assert RequestLane(d) == Lane(RequestLane(c).held + [None], c.pendingRequest);
    assert ResponseLane(d) == Lane(ResponseLane(c).held + [None], c.pendingResponse);
    AppendEmptySlot(Gates(c.hops), RequestLane(c));
    AppendEmptySlot(Gates(c.hops), ResponseLane(c));
  }

  lemma MarkDueOk(c: Chain)
    requires ChainOk(c)
    ensures ChainOk(MarkDue(c)) && SameLanes(MarkDue(c), c)
  {
    assert SameLanes(MarkDue(c), c);
  }

  // ----- What the recorder keeps for an ID -----

  function RequestExtras(s: State, id: RequestID): seq<RequestExtra> {
    Contents(RequestLane(ChainOf(s, id))) + FrozenRequests(s, id)
  }

  function ResponseExtras(s: State, id: RequestID): seq<ResponseExtra> {
    Contents(ResponseLane(ChainOf(s, id))) + FrozenResponses(s, id)
  }

  // The invariant holds again, and these extras were gained at the end.
  ghost predicate Gains(s: State, t: State, id: RequestID, xs: seq<RequestExtra>, ys: seq<ResponseExtra>) {
    && InvAt(t, id)
    && RequestExtras(t, id) == RequestExtras(s, id) + xs
    && ResponseExtras(t, id) == ResponseExtras(s, id) + ys
  }

  // Nothing kept for the ID has changed.
  ghost predicate SameAt(s: State, t: State, id: RequestID) {
    && ChainOf(t, id) == ChainOf(s, id)
    && FrozenRequests(t, id) == FrozenRequests(s, id)
    && FrozenResponses(t, id) == FrozenResponses(s, id)
    && t.frozen == s.frozen && t.cutoff == s.cutoff
  }

  ghost predicate GainsOnChain(c: Chain, d: Chain, xs: seq<RequestExtra>, ys: seq<ResponseExtra>) {
    && ChainOk(d)
    && Contents(RequestLane(d)) == Contents(RequestLane(c)) + xs
    && Contents(ResponseLane(d)) == Contents(ResponseLane(c)) + ys
  }

  lemma ChainToState(s: State, t: State, id: RequestID, d: Chain, xs: seq<RequestExtra>, ys: seq<ResponseExtra>)
    requires InvAt(s, id) && ChainOf(t, id) == d && GainsOnChain(ChainOf(s, id), d, xs, ys)
    requires SameParked(s, t)
    requires FrozenRequests(s, id) == [] && FrozenResponses(s, id) == []
    ensures Gains(s, t, id, xs, ys)
  {
    var c := ChainOf(s, id);
    assert RequestExtras(s, id) == Contents(RequestLane(c)) && RequestExtras(t, id) == Contents(RequestLane(d));
    assert ResponseExtras(s, id) == Contents(ResponseLane(c)) && ResponseExtras(t, id) == Contents(ResponseLane(d));
  }

  // ----- The chain operations -----

  lemma WithRequestExtraGains(c: Chain, x: RequestExtra)
    requires ChainOk(c)
    ensures GainsOnChain(c, WithRequestExtra(c, x), [x], [])
  {
    var d := c.(pendingRequest := c.pendingRequest + [x]);
    assert Gates(d.hops) == Gates(c.hops) && ResponseLane(d) == ResponseLane(c);
    assert RequestLane(d) == Lane(RequestLane(c).held, RequestLane(c).pending + [x]);
    SettleQueuedOk(d);
    ContentsAppend(RequestLane(c), x);
  }

  lemma WithResponseExtraGains(c: Chain, x: ResponseExtra)
    requires ChainOk(c)
    ensures GainsOnChain(c, WithResponseExtra(c, x), [], [x])
  {
    var d := c.(pendingResponse := c.pendingResponse + [x]);
    assert Gates(d.hops) == Gates(c.hops) && RequestLane(d) == RequestLane(c);
    assert ResponseLane(d) == Lane(ResponseLane(c).held, ResponseLane(c).pending + [x]);
    SettleQueuedOk(d);
    ContentsAppend(ResponseLane(c), x);
  }

  lemma WithLastGains(c: Chain, e: Entry)
    requires ChainOk(c) && c.hops != []
    requires e.expectation == Last(c).expectation && e.response == Last(c).response
    requires e.requestExtra == Last(c).requestExtra && e.responseExtra == Last(c).responseExtra
    ensures GainsOnChain(c, WithLast(c, e), [], [])
  {
    assert c.hops[|c.hops| - 1] == Last(c);
    WithLastOk(c, e);
  }

  lemma ExpectLastGains(c: Chain, e: Entry, expected: bool)
    requires ChainOk(c) && c.hops != []
    requires e.requestExtra == Last(c).requestExtra && e.responseExtra == Last(c).responseExtra
    ensures GainsOnChain(c, ExpectLast(WithLast(c, e), expected), [], [])
    ensures !Last(ExpectLast(WithLast(c, e), expected)).expectation.Unknown?
  {
    ExpectLastOk(c, e, expected);
  }

  lemma ExplainFailureGains(c: Chain, failure: Text)
    requires ChainOk(c) && c.hops != []
    ensures GainsOnChain(c, ExplainFailure(c, failure), [], [])
  {
    var named := Last(c).(failure := Some(failure));
    WithLastGains(c, named);
    ExpectLastGains(c, named, true);
  }

  // ----- What each handler does to the chain of its event's ID -----

  // The same extras are parked, and the freeze is where it was.
  ghost predicate SameParked(s: State, t: State) {
    && t.frozenRequest == s.frozenRequest && t.frozenResponse == s.frozenResponse && t.orphanCount == s.orphanCount
    && t.frozen == s.frozen && t.cutoff == s.cutoff && t.postCutoff == s.postCutoff
  }

  // Nothing kept has changed, except perhaps the chain of this ID.
  ghost predicate OnlyChain(s: State, t: State, id: RequestID) {
    SameParked(s, t) && (t.chains == s.chains || (id in t.chains && t.chains == s.chains[id := t.chains[id]]))
  }

  lemma AdmitEffect(s: State, violation: Option<LimitError>, bytes: nat)
    ensures var (t, granted) := Admit(s, violation, bytes);
            t == s.(retained := t.retained, limitErr := t.limitErr) && (granted <==> t.limitErr.None?)
            && t.retained == s.retained + (if granted then bytes else 0)
            && (s.retained <= s.maxBytes ==> t.retained <= s.maxBytes)
  {
  }

  lemma OnRequestExtraEffect(s: State, id: RequestID, x: RequestExtra)
    ensures var t := OnRequestExtra(s, id, x);
            OnlyChain(s, t, id) && ChainOf(t, id) == if t.limitErr.None? then WithRequestExtra(ChainOf(s, id), x)
              else ChainOf(s, id)
  {
    AdmitEffect(Put(s, id, ChainOf(s, id)), RequestExtraViolation(x), x.bytes);
  }

  lemma OnResponseExtraEffect(s: State, id: RequestID, x: ResponseExtra)
    ensures var t := OnResponseExtra(s, id, x);
            OnlyChain(s, t, id) && ChainOf(t, id) == if t.limitErr.None? then WithResponseExtra(ChainOf(s, id), x)
              else ChainOf(s, id)
  {
    AdmitEffect(Put(s, id, ChainOf(s, id)), ResponseExtraViolation(x), x.bytes);
  }

  lemma QueueFrozenRequestEffect(s: State, id: RequestID, x: RequestExtra)
    requires s.limitErr.None?
    ensures var t := QueueFrozenRequest(s, id, x);
            && t.chains == s.chains && t.frozen == s.frozen && t.frozenResponse == s.frozenResponse
            && (if t.limitErr.None? && s.orphanCount < MAX_FROZEN_ORPHAN_EXTRAS
                then FrozenRequests(t, id) == FrozenRequests(s, id) + [x]
                else t.frozenRequest == s.frozenRequest)
  {
    AdmitEffect(s, RequestExtraViolation(x), x.bytes);
  }

  lemma QueueFrozenResponseEffect(s: State, id: RequestID, x: ResponseExtra)
    requires s.limitErr.None?
    ensures var t := QueueFrozenResponse(s, id, x);
            && t.chains == s.chains && t.frozen == s.frozen && t.frozenRequest == s.frozenRequest
            && (if t.limitErr.None? && s.orphanCount < MAX_FROZEN_ORPHAN_EXTRAS
                then FrozenResponses(t, id) == FrozenResponses(s, id) + [x]
                else t.frozenResponse == s.frozenResponse)
  {
    AdmitEffect(s, ResponseExtraViolation(x), x.bytes);
  }

  lemma OnResponseReceivedEffect(s: State, e: Event)
    requires e.ResponseReceived?
    ensures var t := OnResponseReceived(s, e); var c := ChainOf(s, e.id);
            && OnlyChain(s, t, e.id)
            && (ChainOf(t, e.id) == c
                || (c.hops != [] && e.response.Some?
                    && ChainOf(t, e.id) == ExpectLast(WithLast(c, AnsweredHop(Last(c), e)), e.hasExtraInfo)))
  {
    if e.response.Some? {
      AdmitEffect(s, ResponseViolation(e.response.value), e.response.value.bytes);
    }
  }

  lemma OnLoadingFailedEffect(s: State, e: Event)
    requires e.LoadingFailed?
    ensures var t := OnLoadingFailed(s, e); var c := ChainOf(s, e.id);
            && OnlyChain(s, t, e.id)
            && if c.hops == [] then ChainOf(t, e.id) == c
               else var d := WithLast(c, FailedHop(Last(c), e));
                    || (ChainOf(t, e.id) == d && t.retained == s.retained)
                    || exists text ::
                         ChainOf(t, e.id) == ExplainFailure(d, text)
                           && t.retained == s.retained + text.bytes + DERIVED_ITEM_OVERHEAD
  {
    if HasCapturedRequest(s, e.id) {
      var c := WithLast(s.chains[e.id], FailedHop(Last(s.chains[e.id]), e));
      var failure := if e.errorText.content == "" then e.blockedReason else e.errorText;
      AdmitEffect(Put(s, e.id, c), None, failure.bytes + DERIVED_ITEM_OVERHEAD);
    }
  }

  lemma CloseRedirectEffect(s: State, id: RequestID, response: Response, hasExtraInfo: bool, at: Time, bodies: bool)
    requires HasCapturedRequest(s, id)
    ensures var (t, closed) := CloseRedirect(s, id, response, hasExtraInfo, at, bodies); var c := ChainOf(s, id);
            && OnlyChain(s, t, id) && (closed ==> id in t.chains)
            && t.retained == s.retained + (if closed && Last(c).response.None? then response.bytes else 0)
            && ChainOf(t, id) == if closed
               then ExpectLast(WithLast(c, ClosedHop(Last(c), response, at, bodies)), hasExtraInfo) else c
  {
    AdmitEffect(s, ResponseViolation(response), response.bytes);
  }

  lemma AppendHopEffect(s: State, e: Event)
    requires e.RequestWillBeSent? && e.request.Some? && e.id in s.chains
    ensures var t := AppendHop(s, e); var c := ChainOf(s, e.id);
            && OnlyChain(s, t, e.id)
            && (ChainOf(t, e.id) == c
                || ChainOf(t, e.id) == c.(hops := c.hops + [NewEntry(|s.order| + 1, e, s.captureStart)]))
  {
    AdmitEffect(s, None, e.request.value.bytes);
  }

  // ----- The handlers, at the ID of their event -----

  lemma OnRequestExtraAt(s: State, id: RequestID, x: RequestExtra)
    requires InvAt(s, id) && s.limitErr.None? && FrozenRequests(s, id) == [] && FrozenResponses(s, id) == []
    ensures var t := OnRequestExtra(s, id, x);
            if t.limitErr.None? then Gains(s, t, id, [x], []) else SameAt(s, t, id)
  {
    var t := OnRequestExtra(s, id, x);
    OnRequestExtraEffect(s, id, x);
    if t.limitErr.None? {
      WithRequestExtraGains(ChainOf(s, id), x);
      ChainToState(s, t, id, WithRequestExtra(ChainOf(s, id), x), [x], []);
    }
  }

  lemma OnResponseExtraAt(s: State, id: RequestID, x: ResponseExtra)
    requires InvAt(s, id) && s.limitErr.None? && FrozenRequests(s, id) == [] && FrozenResponses(s, id) == []
    ensures var t := OnResponseExtra(s, id, x);
            if t.limitErr.None? then Gains(s, t, id, [], [x]) else SameAt(s, t, id)
  {
    var t := OnResponseExtra(s, id, x);
    OnResponseExtraEffect(s, id, x);
    if t.limitErr.None? {
      WithResponseExtraGains(ChainOf(s, id), x);
      ChainToState(s, t, id, WithResponseExtra(ChainOf(s, id), x), [], [x]);
    }
  }

  lemma QueueFrozenRequestAt(s: State, id: RequestID, x: RequestExtra)
    requires InvAt(s, id) && s.limitErr.None? && s.frozen && !HasCapturedRequest(s, id)
    ensures var t := QueueFrozenRequest(s, id, x);
            if t.limitErr.None? && s.orphanCount < MAX_FROZEN_ORPHAN_EXTRAS then Gains(s, t, id, [x], [])
            else SameAt(s, t, id)
  {
    var t := QueueFrozenRequest(s, id, x);
    QueueFrozenRequestEffect(s, id, x);
    if t.limitErr.None? && s.orphanCount < MAX_FROZEN_ORPHAN_EXTRAS {
      ParkedGains(s, t, id, [x], []);
    }
  }

  lemma QueueFrozenResponseAt(s: State, id: RequestID, x: ResponseExtra)
    requires InvAt(s, id) && s.limitErr.None? && s.frozen && !HasCapturedRequest(s, id)
    ensures var t := QueueFrozenResponse(s, id, x);
            if t.limitErr.None? && s.orphanCount < MAX_FROZEN_ORPHAN_EXTRAS then Gains(s, t, id, [], [x])
            else SameAt(s, t, id)
  {
    var t := QueueFrozenResponse(s, id, x);
    QueueFrozenResponseEffect(s, id, x);
    if t.limitErr.None? && s.orphanCount < MAX_FROZEN_ORPHAN_EXTRAS {
      ParkedGains(s, t, id, [], [x]);
    }
  }

  lemma ParkedGains(s: State, t: State, id: RequestID, xs: seq<RequestExtra>, ys: seq<ResponseExtra>)
    requires InvAt(s, id) && s.frozen && !HasCapturedRequest(s, id) && t.chains == s.chains && t.frozen
    requires FrozenRequests(t, id) == FrozenRequests(s, id) + xs
             && FrozenResponses(t, id) == FrozenResponses(s, id) + ys
    ensures Gains(s, t, id, xs, ys)
  {
  }

  lemma SameAtGainsNothing(s: State, t: State, id: RequestID)
    requires InvAt(s, id) && SameAt(s, t, id)
    ensures Gains(s, t, id, [], [])
  {
  }

  lemma ReadyBodyFetchesAt(s: State, id: RequestID, bodies: bool)
    requires InvAt(s, id)
    ensures Gains(s, ReadyBodyFetches(s, id, bodies).0, id, [], [])
  {
    if bodies && id in s.chains {
      MarkDueOk(s.chains[id]);
    }
  }

  // Two handlers in a row gain what the first one gains.
  lemma GainsThen(s: State, t: State, u: State, id: RequestID, xs: seq<RequestExtra>, ys: seq<ResponseExtra>)
    requires Gains(s, t, id, xs, ys) && Gains(t, u, id, [], [])
    ensures Gains(s, u, id, xs, ys)
  {
  }

  lemma OnResponseReceivedAt(s: State, e: Event)
    requires e.ResponseReceived? && InvAt(s, e.id)
    ensures Gains(s, OnResponseReceived(s, e), e.id, [], [])
  {
    var t := OnResponseReceived(s, e);
    OnResponseReceivedEffect(s, e);
    if ChainOf(t, e.id) == ChainOf(s, e.id) {
      SameAtGainsNothing(s, t, e.id);
    } else {
      var c := s.chains[e.id];
      ExpectLastGains(c, AnsweredHop(Last(c), e), e.hasExtraInfo);
      ChainToState(s, t, e.id, ExpectLast(WithLast(c, AnsweredHop(Last(c), e)), e.hasExtraInfo), [], []);
    }
  }

  lemma OnLoadingFinishedAt(s: State, e: Event)
    requires e.LoadingFinished? && InvAt(s, e.id)
    ensures Gains(s, OnLoadingFinished(s, e), e.id, [], [])
  {
    if HasCapturedRequest(s, e.id) {
      var c := s.chains[e.id];
      WithLastGains(c, FinishedHop(Last(c), e));
      ChainToState(s, OnLoadingFinished(s, e), e.id, WithLast(c, FinishedHop(Last(c), e)), [], []);
    }
  }

  lemma OnDataReceivedAt(s: State, e: Event)
    requires e.DataReceived? && InvAt(s, e.id)
    ensures Gains(s, OnDataReceived(s, e), e.id, [], [])
  {
    if HasCapturedRequest(s, e.id) {
      var c := s.chains[e.id];
      WithLastGains(c, MeasuredHop(Last(c), e));
      ChainToState(s, OnDataReceived(s, e), e.id, WithLast(c, MeasuredHop(Last(c), e)), [], []);
    }
  }

  lemma OnServedFromCacheAt(s: State, id: RequestID)
    requires InvAt(s, id)
    ensures Gains(s, OnServedFromCache(s, id), id, [], [])
  {
    if HasCapturedRequest(s, id) {
      var c := s.chains[id];
      WithLastGains(c, Last(c).(servedFromCache := true));
      ChainToState(s, OnServedFromCache(s, id), id, WithLast(c, Last(c).(servedFromCache := true)), [], []);
    }
  }

  lemma OnLoadingFailedAt(s: State, e: Event)
    requires e.LoadingFailed? && InvAt(s, e.id)
    ensures Gains(s, OnLoadingFailed(s, e), e.id, [], [])
  {
    var t := OnLoadingFailed(s, e);
    OnLoadingFailedEffect(s, e);
    if !HasCapturedRequest(s, e.id) {
      SameAtGainsNothing(s, t, e.id);
    } else {
      var c := s.chains[e.id];
      var failed := WithLast(c, FailedHop(Last(c), e));
      WithLastGains(c, FailedHop(Last(c), e));
      if ChainOf(t, e.id) != failed {
        var text :| ChainOf(t, e.id) == ExplainFailure(failed, text);
        ExplainFailureGains(failed, text);
      }
      ChainToState(s, t, e.id, ChainOf(t, e.id), [], []);
    }
  }

  lemma AdoptAt(s: State, id: RequestID)
    requires InvAt(s, id) && !HasCapturedRequest(s, id)
    ensures var t := Adopt(s, id);
            Gains(s, t, id, [], []) && !HasCapturedRequest(t, id) && FrozenRequests(t, id) == []
              && FrozenResponses(t, id) == []
  {
    var c := ChainOf(s, id);
    var d := ChainOf(Adopt(s, id), id);
    assert Gates(d.hops) == [];
    assert RequestLane(c).held == [] && ResponseLane(c).held == [] && RequestLane(d).held == []
           && ResponseLane(d).held == [];
  }

  lemma CloseRedirectAt(s: State, id: RequestID, response: Response, hasExtraInfo: bool, at: Time, bodies: bool)
    requires InvAt(s, id) && HasCapturedRequest(s, id)
    ensures var (t, closed) := CloseRedirect(s, id, response, hasExtraInfo, at, bodies);
            Gains(s, t, id, [], [])
              && (closed ==> HasCapturedRequest(t, id) && !Last(t.chains[id]).expectation.Unknown?)
  {
    var c := s.chains[id];
    var (t, closed) := CloseRedirect(s, id, response, hasExtraInfo, at, bodies);
    CloseRedirectEffect(s, id, response, hasExtraInfo, at, bodies);
    if closed {
      ExpectLastGains(c, ClosedHop(Last(c), response, at, bodies), hasExtraInfo);
      ChainToState(s, t, id, ExpectLast(WithLast(c, ClosedHop(Last(c), response, at, bodies)), hasExtraInfo), [], []);
    } else {
      SameAtGainsNothing(s, t, id);
    }
  }

  lemma AppendHopAt(s: State, e: Event)
    requires e.RequestWillBeSent? && e.request.Some? && e.id in s.chains && InvAt(s, e.id)
    requires FrozenRequests(s, e.id) == [] && FrozenResponses(s, e.id) == []
    requires HasCapturedRequest(s, e.id) ==> !Last(s.chains[e.id]).expectation.Unknown?
    ensures Gains(s, AppendHop(s, e), e.id, [], [])
  {
    var t := AppendHop(s, e);
    AppendHopEffect(s, e);
    if ChainOf(t, e.id) == s.chains[e.id] {
      SameAtGainsNothing(s, t, e.id);
    } else {
      var c := s.chains[e.id];
      var entry := NewEntry(|s.order| + 1, e, s.captureStart);
      AppendHopOk(c, entry);
      ChainToState(s, t, e.id, c.(hops := c.hops + [entry]), [], []);
    }
  }

  lemma OpenChainAt(s: State, e: Event)
    requires e.RequestWillBeSent? && e.request.Some? && InvAt(s, e.id) && !HasCapturedRequest(s, e.id)
    ensures Gains(s, OpenChain(s, e), e.id, [], [])
  {
    var s1 := Adopt(s, e.id);
    AdoptAt(s, e.id);
    AppendHopAt(s1, e);
    GainsThen(s, s1, AppendHop(s1, e), e.id, [], []);
  }

  lemma FollowRedirectAt(s: State, e: Event, bodies: bool)
    requires e.RequestWillBeSent? && e.request.Some? && e.redirectResponse.Some? && InvAt(s, e.id)
             && HasCapturedRequest(s, e.id)
    ensures Gains(s, FollowRedirect(s, e, bodies), e.id, [], [])
  {
    var at := MonotonicTime(e.timestamp);
    CloseRedirectAt(s, e.id, e.redirectResponse.value, e.redirectHasExtraInfo, at, bodies);
    var (s1, closed) := CloseRedirect(s, e.id, e.redirectResponse.value, e.redirectHasExtraInfo, at, bodies);
    if closed {
      AppendHopAt(s1, e);
      GainsThen(s, s1, AppendHop(s1, e), e.id, [], []);
    }
  }

  lemma OnRequestWillBeSentAt(s: State, e: Event, bodies: bool)
    requires e.RequestWillBeSent? && InvAt(s, e.id)
    ensures Gains(s, OnRequestWillBeSent(s, e, bodies), e.id, [], [])
  {
    var t := OnRequestWillBeSent(s, e, bodies);
    if e.request.Some? && e.request.value.isHTTP {
      var s0 := s.(postCutoff := s.postCutoff - {e.id});
      SameAtGainsNothing(s, s0, e.id);
      if !HasCapturedRequest(s0, e.id) {
        OpenChainAt(s0, e);
        GainsThen(s, s0, t, e.id, [], []);
      } else if e.redirectResponse.Some? {
        FollowRedirectAt(s0, e, bodies);
        GainsThen(s, s0, t, e.id, [], []);
      }
    }
  }

  // ----- Every other ID is left alone -----

  lemma OnlyChainElsewhere(s: State, t: State, id: RequestID, k: RequestID)
    requires OnlyChain(s, t, id) && k != id
    ensures SameAt(s, t, k)
  {
  }

  lemma AdoptElsewhere(s: State, id: RequestID, k: RequestID)
    requires k != id
    ensures SameAt(s, Adopt(s, id), k)
  {
  }

  lemma SameAtThen(s: State, t: State, u: State, k: RequestID)
    requires SameAt(s, t, k) && SameAt(t, u, k)
    ensures SameAt(s, u, k)
  {
  }

  lemma OpenChainElsewhere(s: State, e: Event, k: RequestID)
    requires e.RequestWillBeSent? && e.request.Some? && !HasCapturedRequest(s, e.id) && e.id != k
    ensures SameAt(s, OpenChain(s, e), k)
  {
    var s1 := Adopt(s, e.id);
    AdoptElsewhere(s, e.id, k);
    AppendHopEffect(s1, e);
    OnlyChainElsewhere(s1, AppendHop(s1, e), e.id, k);
    SameAtThen(s, s1, AppendHop(s1, e), k);
  }

  lemma FollowRedirectElsewhere(s: State, e: Event, bodies: bool, k: RequestID)
    requires e.RequestWillBeSent? && e.request.Some? && e.redirectResponse.Some? && HasCapturedRequest(s, e.id)
             && e.id != k
    ensures SameAt(s, FollowRedirect(s, e, bodies), k)
  {
    var at := MonotonicTime(e.timestamp);
    CloseRedirectEffect(s, e.id, e.redirectResponse.value, e.redirectHasExtraInfo, at, bodies);
    var (s1, closed) := CloseRedirect(s, e.id, e.redirectResponse.value, e.redirectHasExtraInfo, at, bodies);
    OnlyChainElsewhere(s, s1, e.id, k);
    if closed {
      AppendHopEffect(s1, e);
      OnlyChainElsewhere(s1, AppendHop(s1, e), e.id, k);
      SameAtThen(s, s1, AppendHop(s1, e), k);
    }
  }

  lemma RequestWillBeSentElsewhere(s: State, e: Event, bodies: bool, k: RequestID)
    requires e.RequestWillBeSent? && e.id != k
    ensures SameAt(s, OnRequestWillBeSent(s, e, bodies), k)
  {
    if e.request.Some? && e.request.value.isHTTP {
      var s0 := s.(postCutoff := s.postCutoff - {e.id});
      if !HasCapturedRequest(s0, e.id) {
        OpenChainElsewhere(s0, e, k);
      } else if e.redirectResponse.Some? {
        FollowRedirectElsewhere(s0, e, bodies, k);
      }
    }
  }

  lemma ReadyBodyFetchesElsewhere(s: State, t: State, id: RequestID, bodies: bool, k: RequestID)
    requires SameAt(s, t, k) && k != id
    ensures SameAt(s, ReadyBodyFetches(t, id, bodies).0, k)
  {
  }

  lemma ProcessElsewhere(s: State, e: Event, bodies: bool, k: RequestID)
    requires e.DomContentEventFired? || e.LoadEventFired? || e.id != k
    ensures SameAt(s, Process(s, e, bodies).0, k)
  {
    if e.RequestWillBeSent? {
      RequestWillBeSentElsewhere(s, e, bodies, k);
    } else if e.RequestExtraInfo? {
      OnRequestExtraEffect(s, e.id, e.requestExtra);
      OnlyChainElsewhere(s, OnRequestExtra(s, e.id, e.requestExtra), e.id, k);
    } else if e.ResponseExtraInfo? {
      OnResponseExtraEffect(s, e.id, e.responseExtra);
      OnlyChainElsewhere(s, OnResponseExtra(s, e.id, e.responseExtra), e.id, k);
      ReadyBodyFetchesElsewhere(s, OnResponseExtra(s, e.id, e.responseExtra), e.id, bodies, k);
    } else if e.ResponseReceived? {
      OnResponseReceivedEffect(s, e);
      OnlyChainElsewhere(s, OnResponseReceived(s, e), e.id, k);
      ReadyBodyFetchesElsewhere(s, OnResponseReceived(s, e), e.id, bodies, k);
    } else if e.LoadingFinished? {
      OnlyChainElsewhere(s, OnLoadingFinished(s, e), e.id, k);
      ReadyBodyFetchesElsewhere(s, OnLoadingFinished(s, e), e.id, bodies, k);
    } else if e.LoadingFailed? {
      OnLoadingFailedEffect(s, e);
      OnlyChainElsewhere(s, OnLoadingFailed(s, e), e.id, k);
    }
  }

  // ----- One action, at one ID -----

  predicate CountsAsOrphan(s: State, id: RequestID) {
    s.frozen && !HasCapturedRequest(s, id)
  }

  // An extra counts as accepted when handling it breaks no limit and it is not
  // turned away by the cap on parked extras.
  predicate Accepts(s: State, a: Action, id: RequestID) {
    && s.limitErr.None? && Do(s, a).0.limitErr.None?
    && !(CountsAsOrphan(s, id) && s.orphanCount >= MAX_FROZEN_ORPHAN_EXTRAS)
  }

  function AcceptedRequest(s: State, a: Action, id: RequestID): seq<RequestExtra> {
    if (a.Handle? || a.HandleBuffered?) && a.event.RequestExtraInfo? && a.event.id == id && Accepts(s, a, id)
    then [a.event.requestExtra] else []
  }

  function AcceptedResponse(s: State, a: Action, id: RequestID): seq<ResponseExtra> {
    if (a.Handle? || a.HandleBuffered?) && a.event.ResponseExtraInfo? && a.event.id == id && Accepts(s, a, id)
    then [a.event.responseExtra] else []
  }

  lemma ProcessAt(s: State, e: Event, bodies: bool, k: RequestID)
    requires InvAt(s, k) && s.limitErr.None? && !e.RequestExtraInfo? && !e.ResponseExtraInfo?
    ensures Gains(s, Process(s, e, bodies).0, k, [], [])
  {
    if e.DomContentEventFired? || e.LoadEventFired? || e.id != k {
      ProcessElsewhere(s, e, bodies, k);
      SameAtGainsNothing(s, Process(s, e, bodies).0, k);
    } else {
      match e
      case DataReceived(_, _, _, _) => OnDataReceivedAt(s, e);
      case RequestWillBeSent(_, _, _, _, _, _, _) => OnRequestWillBeSentAt(s, e, bodies);
      case ResponseReceived(id, _, _, _, _) =>
        OnResponseReceivedAt(s, e);
        ReadyBodyFetchesAt(OnResponseReceived(s, e), id, bodies);
        GainsThen(s, OnResponseReceived(s, e), Process(s, e, bodies).0, k, [], []);
      case ServedFromCache(id) => OnServedFromCacheAt(s, id);
      case LoadingFinished(id, _, _) =>
        OnLoadingFinishedAt(s, e);
        ReadyBodyFetchesAt(OnLoadingFinished(s, e), id, bodies);
        GainsThen(s, OnLoadingFinished(s, e), Process(s, e, bodies).0, k, [], []);
      case LoadingFailed(_, _, _, _) => OnLoadingFailedAt(s, e);
    }
  }

  // One event from outside, whatever it is, at one ID.
  lemma HandleAt(s: State, e: Event, bodies: bool, k: RequestID)
    requires InvAt(s, k)
    ensures Gains(s, HandleEvent(s, e, bodies).0, k, AcceptedRequest(s, Handle(e, bodies), k),
                  AcceptedResponse(s, Handle(e, bodies), k))
  {
    var t := HandleEvent(s, e, bodies).0;
    if s.limitErr.Some? {
      SameAtGainsNothing(s, t, k);
    } else if e.RequestExtraInfo? {
      RequestExtraAt(s, e, bodies, k);
    } else if e.ResponseExtraInfo? {
      ResponseExtraAt(s, e, bodies, k);
    } else if !s.frozen || (!e.ServedFromCache? && !AfterCutoff(s.cutoff, e)) {
      ProcessAt(s, e, bodies, k);
    } else {
      SameAtGainsNothing(s, t, k);
    }
  }

  lemma RequestExtraAt(s: State, e: Event, bodies: bool, k: RequestID)
    requires InvAt(s, k) && s.limitErr.None? && e.RequestExtraInfo?
    ensures Gains(s, HandleEvent(s, e, bodies).0, k, AcceptedRequest(s, Handle(e, bodies), k), [])
  {
    var t := HandleEvent(s, e, bodies).0;
    if e.id != k {
      if !CountsAsOrphan(s, e.id) {
        OnRequestExtraEffect(s, e.id, e.requestExtra);
        OnlyChainElsewhere(s, t, e.id, k);
      } else {
        QueueFrozenElsewhere(s, e.id, e.requestExtra, ResponseExtra(e.requestExtra.headers, 0, 0), k);
      }
      SameAtGainsNothing(s, t, k);
    } else if !CountsAsOrphan(s, k) {
      OnRequestExtraAt(s, k, e.requestExtra);
      if t.limitErr.Some? { SameAtGainsNothing(s, t, k); }
    } else {
      QueueFrozenRequestAt(s, k, e.requestExtra);
      if t.limitErr.Some? || s.orphanCount >= MAX_FROZEN_ORPHAN_EXTRAS { SameAtGainsNothing(s, t, k); }
    }
  }

  lemma QueueFrozenElsewhere(s: State, id: RequestID, x: RequestExtra, y: ResponseExtra, k: RequestID)
    requires s.limitErr.None? && k != id
    ensures SameAt(s, QueueFrozenRequest(s, id, x), k) && SameAt(s, QueueFrozenResponse(s, id, y), k)
  {
    AdmitEffect(s, RequestExtraViolation(x), x.bytes);
    AdmitEffect(s, ResponseExtraViolation(y), y.bytes);
  }

  lemma ResponseExtraAt(s: State, e: Event, bodies: bool, k: RequestID)
    requires InvAt(s, k) && s.limitErr.None? && e.ResponseExtraInfo?
    ensures Gains(s, HandleEvent(s, e, bodies).0, k, [], AcceptedResponse(s, Handle(e, bodies), k))
  {
    var t := HandleEvent(s, e, bodies).0;
    var x := e.responseExtra;
    if CountsAsOrphan(s, e.id) {
      if e.id != k {
        QueueFrozenElsewhere(s, e.id, RequestExtra(x.headers, 0, 0), x, k);
        SameAtGainsNothing(s, t, k);
      } else {
        QueueFrozenResponseAt(s, k, x);
        if t.limitErr.Some? || s.orphanCount >= MAX_FROZEN_ORPHAN_EXTRAS { SameAtGainsNothing(s, t, k); }
      }
    } else {
      var s1 := OnResponseExtra(s, e.id, x);
      if e.id != k {
        OnResponseExtraEffect(s, e.id, x);
        OnlyChainElsewhere(s, s1, e.id, k);
        ReadyBodyFetchesElsewhere(s, s1, e.id, bodies, k);
        SameAtGainsNothing(s, t, k);
      } else {
        OnResponseExtraAt(s, k, x);
        if s1.limitErr.Some? { SameAtGainsNothing(s, s1, k); }
        ReadyBodyFetchesAt(s1, k, bodies);
        GainsThen(s, s1, t, k, [], AcceptedResponse(s, Handle(e, bodies), k));
      }
    }
  }

  lemma BufferedCacheAt(s: State, e: Event, bodies: bool, k: RequestID)
    requires InvAt(s, k) && e.ServedFromCache?
    ensures Gains(s, HandleBufferedEvent(s, e, bodies).0, k, [], [])
  {
    var t := HandleBufferedEvent(s, e, bodies).0;
    if t == s {
      SameAtGainsNothing(s, t, k);
    } else if e.id == k {
      OnServedFromCacheAt(s, k);
    } else {
      OnlyChainElsewhere(s, t, e.id, k);
      SameAtGainsNothing(s, t, k);
    }
  }

  lemma BufferedIsHandled(s: State, e: Event, bodies: bool, k: RequestID)
    requires !e.ServedFromCache?
    ensures HandleBufferedEvent(s, e, bodies) == HandleEvent(s, e, bodies)
    ensures var a, b := HandleBuffered(e, bodies), Handle(e, bodies);
            AcceptedRequest(s, a, k) == AcceptedRequest(s, b, k)
              && AcceptedResponse(s, a, k) == AcceptedResponse(s, b, k)
  {
    assert Do(s, HandleBuffered(e, bodies)) == Do(s, Handle(e, bodies));
  }

  lemma HandleBufferedAt(s: State, e: Event, bodies: bool, k: RequestID)
    requires InvAt(s, k)
    ensures var a := HandleBuffered(e, bodies);
            Gains(s, HandleBufferedEvent(s, e, bodies).0, k, AcceptedRequest(s, a, k), AcceptedResponse(s, a, k))
  {
    if e.ServedFromCache? {
      BufferedCacheAt(s, e, bodies, k);
    } else {
      BufferedIsHandled(s, e, bodies, k);
      HandleAt(s, e, bodies, k);
    }
  }

  // Hops differ in nothing that the lanes or the body fetches look at.
  ghost predicate SameHops(c: Chain, d: Chain) {
    && |c.hops| == |d.hops| && c.pendingRequest == d.pendingRequest && c.pendingResponse == d.pendingResponse
    && forall i {:trigger c.hops[i]} {:trigger d.hops[i]} :: 0 <= i < |c.hops| ==>
         c.hops[i].expectation == d.hops[i].expectation && c.hops[i].response == d.hops[i].response
         && c.hops[i].requestExtra == d.hops[i].requestExtra && c.hops[i].responseExtra == d.hops[i].responseExtra
         && c.hops[i].bodyFetchScheduled == d.hops[i].bodyFetchScheduled
         && c.hops[i].loadingFinished == d.hops[i].loadingFinished
         && c.hops[i].sequence == d.hops[i].sequence && c.hops[i].id == d.hops[i].id
         && c.hops[i].request == d.hops[i].request && c.hops[i].startedMono == d.hops[i].startedMono
  }

  lemma SameHopsOk(c: Chain, d: Chain)
    requires ChainOk(c) && SameHops(c, d)
    ensures ChainOk(d) && SameLanes(c, d)
  {
    assert SameLanes(c, d);
  }

  lemma SetResponseBodyEffect(s: State, task: Task, outcome: FetchOutcome)
    requires ValidTask(s, task)
    ensures var t := SetResponseBody(s, task, outcome);
            OnlyChain(s, t, task.id) && task.id in t.chains && SameHops(s.chains[task.id], t.chains[task.id])
  {
    if outcome.Fetched? {
      AdmitEffect(s, None, outcome.body.text.bytes + DERIVED_ITEM_OVERHEAD);
    }
  }

  lemma AnswerBodyAt(s: State, task: Task, outcome: FetchOutcome, k: RequestID)
    requires ValidTask(s, task) && InvAt(s, k)
    ensures Gains(s, SetResponseBody(s, task, outcome), k, [], [])
  {
    var t := SetResponseBody(s, task, outcome);
    SetResponseBodyEffect(s, task, outcome);
    if k != task.id {
      OnlyChainElsewhere(s, t, task.id, k);
      SameAtGainsNothing(s, t, k);
    } else {
      SameHopsOk(s.chains[k], t.chains[k]);
      ChainToGains(s, t, k);
    }
  }

  lemma ChainToGains(s: State, t: State, k: RequestID)
    requires InvAt(s, k) && ChainOk(ChainOf(t, k)) && SameLanes(ChainOf(s, k), ChainOf(t, k)) && SameParked(s, t)
    requires HasCapturedRequest(t, k) ==> HasCapturedRequest(s, k)
    ensures Gains(s, t, k, [], [])
  {
  }

  lemma ReconcileAllAt(s: State, k: RequestID)
    requires InvAt(s, k)
    ensures SameAt(s, ReconcileAll(s), k)
  {
    if k in s.chains { OkIsFixpoint(s.chains[k]); }
  }

  lemma MarkMissingAt(s: State, k: RequestID)
    requires InvAt(s, k)
    ensures Gains(s, MarkMissingExtraInfo(s), k, [], [])
  {
    ReconcileAllAt(s, k);
    var t := MarkMissingExtraInfo(s);
    SameHopsOk(ChainOf(s, k), ChainOf(t, k));
    ChainToGains(s, t, k);
  }

  lemma FreezeAtAt(s: State, cutoff: Time, k: RequestID)
    requires InvAt(s, k)
    ensures Gains(s, FreezeAt(s, cutoff), k, [], [])
  {
    var s1 := s.(frozen := true, cutoff := cutoff);
    assert Gains(s, s1, k, [], []);
    ReconcileAllAt(s1, k);
  }

  lemma DoAt(s: State, a: Action, k: RequestID)
    requires InvAt(s, k)
    ensures Gains(s, Do(s, a).0, k, AcceptedRequest(s, a, k), AcceptedResponse(s, a, k))
  {
    match a
    case Handle(event, bodies) => HandleAt(s, event, bodies, k);
    case HandleBuffered(event, bodies) => HandleBufferedAt(s, event, bodies, k);
    case Freeze(cutoff) => FreezeAtAt(s, cutoff, k);
    case ReportError(error) => SameAtGainsNothing(s, Fail(s, error), k);
    case AnswerBody(task, outcome) =>
      if ValidTask(s, task) { AnswerBodyAt(s, task, outcome, k); } else { SameAtGainsNothing(s, s, k); }
    case MarkMissing => MarkMissingAt(s, k);
  }

  // ----- Whole runs -----

  function RequestLog(s: State, actions: seq<Action>, id: RequestID): seq<RequestExtra> {
    if actions == [] then []
    else
      var before := actions[..|actions| - 1];
      RequestLog(s, before, id) + AcceptedRequest(Run(s, before), actions[|actions| - 1], id)
  }

  function ResponseLog(s: State, actions: seq<Action>, id: RequestID): seq<ResponseExtra> {
    if actions == [] then []
    else
      var before := actions[..|actions| - 1];
      ResponseLog(s, before, id) + AcceptedResponse(Run(s, before), actions[|actions| - 1], id)
  }

  lemma InitAt(captureStart: Time, targetBytes: nat, k: RequestID)
    ensures InvAt(Init(captureStart, targetBytes), k)
    ensures RequestExtras(Init(captureStart, targetBytes), k) == []
            && ResponseExtras(Init(captureStart, targetBytes), k) == []
  {
    var s := Init(captureStart, targetBytes);
    assert ChainOf(s, k) == EMPTY_CHAIN;
    assert Gates(EMPTY_CHAIN.hops) == [] && RequestLane(EMPTY_CHAIN) == Lane([], [])
           && ResponseLane(EMPTY_CHAIN) == Lane([], []);
  }

  // FIFO conservation: in every reachable state, what is attached to the hops
  // in hop order, then queued on the chain, then parked, is exactly what was
  // accepted for the ID, in arrival order.
  lemma {:induction false} ExtrasConserved(captureStart: Time, targetBytes: nat, actions: seq<Action>, k: RequestID)
    ensures var s0 := Init(captureStart, targetBytes); var s := Run(s0, actions);
            && InvAt(s, k)
            && Attached(RequestLane(ChainOf(s, k)).held) + ChainOf(s, k).pendingRequest + FrozenRequests(s, k)
               == RequestLog(s0, actions, k)
            && Attached(ResponseLane(ChainOf(s, k)).held) + ChainOf(s, k).pendingResponse + FrozenResponses(s, k)
               == ResponseLog(s0, actions, k)
  {
    var s0 := Init(captureStart, targetBytes);
    if actions == [] {
      InitAt(captureStart, targetBytes, k);
    } else {
      var before := actions[..|actions| - 1];
      ExtrasConserved(captureStart, targetBytes, before, k);
      DoAt(Run(s0, before), actions[|actions| - 1], k);
    }
  }

  // At every event boundary each chain is at the reconcile fixpoint, so the
  // finalizing passes of freezing, draining and archiving change nothing.
  lemma ReconcileChangesNothing(captureStart: Time, targetBytes: nat, actions: seq<Action>)
    ensures var s := Run(Init(captureStart, targetBytes), actions); ReconcileAll(s) == s
  {
    var s := Run(Init(captureStart, targetBytes), actions);
    forall k | k in s.chains ensures Reconcile(s.chains[k]) == s.chains[k] {
      ExtrasConserved(captureStart, targetBytes, actions, k);
      OkIsFixpoint(s.chains[k]);
    }
    assert ReconcileAll(s).chains == s.chains;
  }

  // Hop by hop: only the newest hop may not know its expectation, and no hop
  // holds an extra while an earlier hop that expects one lacks it.
  lemma HopsFillInOrder(captureStart: Time, targetBytes: nat, actions: seq<Action>, k: RequestID, i: nat, j: nat)
    requires var hops := ChainOf(Run(Init(captureStart, targetBytes), actions), k).hops; i < j < |hops|
    ensures var hops := ChainOf(Run(Init(captureStart, targetBytes), actions), k).hops;
            && !hops[i].expectation.Unknown?
            && (hops[i].expectation.Expected? && hops[i].requestExtra.None? ==> hops[j].requestExtra.None?)
            && (hops[i].expectation.Expected? && hops[i].responseExtra.None? ==> hops[j].responseExtra.None?)
  {
    ExtrasConserved(captureStart, targetBytes, actions, k);
    var c := ChainOf(Run(Init(captureStart, targetBytes), actions), k);
    assert Gates(c.hops)[i] == c.hops[i].expectation;
    assert RequestLane(c).held[i] == c.hops[i].requestExtra && RequestLane(c).held[j] == c.hops[j].requestExtra;
    assert ResponseLane(c).held[i] == c.hops[i].responseExtra && ResponseLane(c).held[j] == c.hops[j].responseExtra;
  }
}
