/** The cutoff: after the freeze, nothing that cannot be placed before the
    cutoff leaves a trace in the recorder. */
module RecorderCutoff {
  import opened Common
  import opened Lanes
  import opened RecorderModel
  import opened RecorderRuns
  import opened RecorderBodies

  // Equal but for the record of requests that the cutoff rejected.
  predicate Similar(s: State, t: State) {
    t == s.(postCutoff := t.postCutoff)
  }

  // Events that a frozen recorder must not learn from: those later than the
  // cutoff, those without a timestamp, and cache events, which have no place in
  // time. Extra info has no timestamp either, but belongs to earlier requests.
  predicate Irrelevant(cutoff: Time, e: Event) {
    e.ServedFromCache? || (!e.RequestExtraInfo? && !e.ResponseExtraInfo? && AfterCutoff(cutoff, e))
  }

  // The call that hands such an event to the recorder.
  predicate Superfluous(cutoff: Time, a: Action) {
    (a.Handle? || a.HandleBuffered?) && Irrelevant(cutoff, a.event)
  }

  function Erase(cutoff: Time, actions: seq<Action>): seq<Action> {
    if actions == [] then []
    else
      var n := |actions| - 1;
      Erase(cutoff, actions[..n]) + (if Superfluous(cutoff, actions[n]) then [] else [actions[n]])
  }

  // The calls that may follow a freeze. Cache events out of the buffer are the
  // one kind that asks which requests were rejected: see BufferedCacheEvent.
  predicate FollowsFreeze(a: Action) {
    !a.Freeze? && !(a.HandleBuffered? && a.event.ServedFromCache?)
  }

  lemma AdmitSimilar(s: State, t: State, violation: Option<LimitError>, bytes: int)
    requires Similar(s, t)
    ensures Similar(Admit(s, violation, bytes).0, Admit(t, violation, bytes).0)
            && Admit(s, violation, bytes).1 == Admit(t, violation, bytes).1
  {
  }

  // Handlers do not look at which requests were rejected.
  lemma RequestWillBeSentSimilar(s: State, t: State, e: Event, bodies: bool)
    requires Similar(s, t) && e.RequestWillBeSent?
    ensures Similar(OnRequestWillBeSent(s, e, bodies), OnRequestWillBeSent(t, e, bodies))
  {
    if e.request.Some? && e.request.value.isHTTP {
      var s0, t0 := s.(postCutoff := s.postCutoff - {e.id}), t.(postCutoff := t.postCutoff - {e.id});
      if !HasCapturedRequest(s0, e.id) {
        AppendHopSimilar(Adopt(s0, e.id), Adopt(t0, e.id), e);
      } else if e.redirectResponse.Some? {
        FollowRedirectSimilar(s0, t0, e, bodies);
      }
    }
  }

  lemma AppendHopSimilar(s: State, t: State, e: Event)
    requires Similar(s, t) && e.RequestWillBeSent? && e.request.Some? && e.id in s.chains
    ensures Similar(AppendHop(s, e), AppendHop(t, e))
  {
    AdmitSimilar(s, t, None, e.request.value.bytes);
    var s1, t1 := Reserve(s, e.request.value.bytes).0, Reserve(t, e.request.value.bytes).0;
    AddEntrySimilar(s1, t1, e);
  }

  lemma AddEntrySimilar(s: State, t: State, e: Event)
    requires Similar(s, t) && e.RequestWillBeSent? && e.request.Some? && e.id in s.chains
    ensures Similar(AddEntry(s, e), AddEntry(t, e))
  {
  }

  lemma FollowRedirectSimilar(s: State, t: State, e: Event, bodies: bool)
    requires Similar(s, t) && e.RequestWillBeSent? && e.request.Some? && e.redirectResponse.Some?
             && HasCapturedRequest(s, e.id)
    ensures Similar(FollowRedirect(s, e, bodies), FollowRedirect(t, e, bodies))
  {
    var at, response := MonotonicTime(e.timestamp), e.redirectResponse.value;
    AdmitSimilar(s, t, ResponseViolation(response), response.bytes);
    var (s1, closed) := CloseRedirect(s, e.id, response, e.redirectHasExtraInfo, at, bodies);
    var (t1, closed') := CloseRedirect(t, e.id, response, e.redirectHasExtraInfo, at, bodies);
    assert Similar(s1, t1) && closed == closed';
    if closed {
      CloseRedirectEffect(s, e.id, response, e.redirectHasExtraInfo, at, bodies);
      AppendHopSimilar(s1, t1, e);
    }
  }

  lemma ProcessSimilar(s: State, t: State, e: Event, bodies: bool)
    requires Similar(s, t)
    ensures Similar(Process(s, e, bodies).0, Process(t, e, bodies).0)
            && Process(s, e, bodies).1 == Process(t, e, bodies).1
  {
    match e
    case RequestWillBeSent(_, _, _, _, _, _, _) => RequestWillBeSentSimilar(s, t, e, bodies);
    case RequestExtraInfo(id, extra) => RequestExtraSimilar(s, t, id, extra);
    case ResponseExtraInfo(id, extra) => ResponseExtraSimilar(s, t, id, extra);
    case ResponseReceived(_, _, _, _, _) => ResponseReceivedSimilar(s, t, e);
    case LoadingFailed(_, _, _, _) => LoadingFailedSimilar(s, t, e);
    case _ =>
  }

  lemma RequestExtraSimilar(s: State, t: State, id: RequestID, x: RequestExtra)
    requires Similar(s, t)
    ensures Similar(OnRequestExtra(s, id, x), OnRequestExtra(t, id, x))
  {
    AdmitSimilar(Put(s, id, ChainOf(s, id)), Put(t, id, ChainOf(t, id)), RequestExtraViolation(x), x.bytes);
  }

  lemma ResponseExtraSimilar(s: State, t: State, id: RequestID, x: ResponseExtra)
    requires Similar(s, t)
    ensures Similar(OnResponseExtra(s, id, x), OnResponseExtra(t, id, x))
  {
    AdmitSimilar(Put(s, id, ChainOf(s, id)), Put(t, id, ChainOf(t, id)), ResponseExtraViolation(x), x.bytes);
  }

  lemma ResponseReceivedSimilar(s: State, t: State, e: Event)
    requires Similar(s, t) && e.ResponseReceived?
    ensures Similar(OnResponseReceived(s, e), OnResponseReceived(t, e))
  {
    if e.response.Some? { AdmitSimilar(s, t, ResponseViolation(e.response.value), e.response.value.bytes); }
  }

  lemma LoadingFailedSimilar(s: State, t: State, e: Event)
    requires Similar(s, t) && e.LoadingFailed?
    ensures Similar(OnLoadingFailed(s, e), OnLoadingFailed(t, e))
  {
    if HasCapturedRequest(s, e.id) {
      var c := WithLast(s.chains[e.id], FailedHop(Last(s.chains[e.id]), e));
      var failure := if e.errorText.content == "" then e.blockedReason else e.errorText;
      AdmitSimilar(Put(s, e.id, c), Put(t, e.id, c), None, failure.bytes + DERIVED_ITEM_OVERHEAD);
    }
  }

  lemma HandleSimilar(s: State, t: State, e: Event, bodies: bool)
    requires Similar(s, t)
    ensures Similar(HandleEvent(s, e, bodies).0, HandleEvent(t, e, bodies).0)
            && HandleEvent(s, e, bodies).1 == HandleEvent(t, e, bodies).1
  {
    if s.frozen && e.RequestExtraInfo? && !HasCapturedRequest(s, e.id) {
      AdmitSimilar(s, t, RequestExtraViolation(e.requestExtra), e.requestExtra.bytes);
    } else if s.frozen && e.ResponseExtraInfo? && !HasCapturedRequest(s, e.id) {
      AdmitSimilar(s, t, ResponseExtraViolation(e.responseExtra), e.responseExtra.bytes);
    } else {
      ProcessSimilar(s, t, e, bodies);
    }
  }

  lemma StaysFrozen(s: State, e: Event, bodies: bool)
    requires s.frozen
    ensures var t := HandleEvent(s, e, bodies).0; t.frozen && t.cutoff == s.cutoff
  {
    if e.RequestExtraInfo? && CountsAsOrphan(s, e.id) {
      AdmitEffect(s, RequestExtraViolation(e.requestExtra), e.requestExtra.bytes);
    } else if e.ResponseExtraInfo? && CountsAsOrphan(s, e.id) {
      AdmitEffect(s, ResponseExtraViolation(e.responseExtra), e.responseExtra.bytes);
    } else if !e.ServedFromCache? && s.limitErr.None?
              && (e.RequestExtraInfo? || e.ResponseExtraInfo? || !AfterCutoff(s.cutoff, e)) {
      // Seen from any other ID, handling the event changes nothing.
      ProcessElsewhere(s, e, bodies, if e.DomContentEventFired? || e.LoadEventFired? then "" else e.id + "+");
    }
  }

  lemma DoStaysFrozen(s: State, a: Action)
    requires s.frozen && !a.Freeze?
    ensures var t := Do(s, a).0; t.frozen && t.cutoff == s.cutoff
  {
    match a
    case Handle(event, bodies) => StaysFrozen(s, event, bodies);
    case HandleBuffered(event, bodies) => if !event.ServedFromCache? { StaysFrozen(s, event, bodies); }
    case _ =>
  }

  lemma DoSimilar(s: State, t: State, a: Action)
    requires Similar(s, t) && FollowsFreeze(a)
    ensures Similar(Do(s, a).0, Do(t, a).0) && Do(s, a).1 == Do(t, a).1
  {
    match a
    case Handle(event, bodies) => HandleSimilar(s, t, event, bodies);
    case HandleBuffered(event, bodies) => HandleSimilar(s, t, event, bodies);
    case AnswerBody(task, outcome) =>
      if outcome.Fetched? { AdmitSimilar(s, t, None, outcome.body.text.bytes + DERIVED_ITEM_OVERHEAD); }
    case _ =>
  }

  // A frozen recorder learns nothing from such an event.
  lemma SuperfluousChangesNothing(s: State, a: Action)
    requires s.frozen && FollowsFreeze(a) && Superfluous(s.cutoff, a)
    ensures Similar(Do(s, a).0, s) && Do(s, a).1 == []
  {
  }

  lemma DoErased(t: State, u: State, a: Action)
    requires t.frozen && Similar(t, u) && FollowsFreeze(a)
    ensures Do(t, a).0.frozen && Do(t, a).0.cutoff == t.cutoff
    ensures if Superfluous(t.cutoff, a) then Similar(Do(t, a).0, u) && Do(t, a).1 == []
            else Similar(Do(t, a).0, Do(u, a).0) && Do(t, a).1 == Do(u, a).1
  {
    DoStaysFrozen(t, a);
    if Superfluous(t.cutoff, a) { SuperfluousChangesNothing(t, a); } else { DoSimilar(t, u, a); }
  }

  lemma RunLast(s: State, before: seq<Action>, a: Action)
    ensures Run(s, before + [a]) == Do(Run(s, before), a).0
            && TaskLog(s, before + [a]) == TaskLog(s, before) + Do(Run(s, before), a).1
  {
    assert (before + [a])[..|before|] == before;
  }

  // Cutoff non-interference: whatever calls follow a freeze, the answers of
  // workers among them, the recorder ends in the same state, up to the rejected
  // requests, and asks for the same bodies as if the events it must not learn
  // from had never been sent.
  lemma {:induction false} CutoffNonInterference(s: State, actions: seq<Action>)
    requires s.frozen && forall i :: 0 <= i < |actions| ==> FollowsFreeze(actions[i])
    ensures var kept := Erase(s.cutoff, actions);
            Similar(Run(s, actions), Run(s, kept)) && TaskLog(s, actions) == TaskLog(s, kept)
    ensures Run(s, actions).frozen && Run(s, actions).cutoff == s.cutoff
  {
    if actions != [] {
      var before, a := actions[..|actions| - 1], actions[|actions| - 1];
      assert forall i :: 0 <= i < |before| ==> before[i] == actions[i];
      CutoffNonInterference(s, before);
      ErasedStep(s, before, a);
      assert actions == before + [a];
    }
  }

  lemma ErasedStep(s: State, before: seq<Action>, a: Action)
    requires Run(s, before).frozen && Run(s, before).cutoff == s.cutoff && FollowsFreeze(a)
    requires Similar(Run(s, before), Run(s, Erase(s.cutoff, before)))
             && TaskLog(s, before) == TaskLog(s, Erase(s.cutoff, before))
    ensures var actions := before + [a]; var kept := Erase(s.cutoff, actions);
            && Similar(Run(s, actions), Run(s, kept)) && TaskLog(s, actions) == TaskLog(s, kept)
            && Run(s, actions).frozen && Run(s, actions).cutoff == s.cutoff
  {
    var kept := Erase(s.cutoff, before);
    assert Erase(s.cutoff, before + [a]) == if Superfluous(s.cutoff, a) then kept else kept + [a] by {
      assert (before + [a])[..|before|] == before;
    }
    RunLast(s, before, a);
    RunLast(s, kept, a);
    DoErased(Run(s, before), Run(s, kept), a);
  }

  // ----- Cache events that the freeze buffered -----

  predicate IsBaseEvent(a: Action, id: RequestID) {
    (a.Handle? || a.HandleBuffered?) && a.event.RequestWillBeSent? && a.event.id == id
  }

  // Whether the last base event of the ID that counted was one that the cutoff
  // rejected, read off the history of calls.
  predicate LastBaseRejected(s: State, actions: seq<Action>, id: RequestID) {
    if actions == [] then id in s.postCutoff
    else
      var before, a := actions[..|actions| - 1], actions[|actions| - 1];
      var t := Run(s, before);
      if !IsBaseEvent(a, id) || t.limitErr.Some? then LastBaseRejected(s, before, id)
      else if t.frozen && AfterCutoff(t.cutoff, a.event) then true
      else if a.event.request.Some? && a.event.request.value.isHTTP then false
      else LastBaseRejected(s, before, id)
  }

  lemma AppendHopKeepsRejected(s: State, e: Event)
    requires e.RequestWillBeSent? && e.request.Some? && e.id in s.chains
    ensures AppendHop(s, e).postCutoff == s.postCutoff
  {
    AppendHopEffect(s, e);
  }

  lemma FollowRedirectKeepsRejected(s: State, e: Event, bodies: bool)
    requires e.RequestWillBeSent? && e.request.Some? && e.redirectResponse.Some? && HasCapturedRequest(s, e.id)
    ensures FollowRedirect(s, e, bodies).postCutoff == s.postCutoff
  {
    var at := MonotonicTime(e.timestamp);
    var (s1, closed) := CloseRedirect(s, e.id, e.redirectResponse.value, e.redirectHasExtraInfo, at, bodies);
    CloseRedirectEffect(s, e.id, e.redirectResponse.value, e.redirectHasExtraInfo, at, bodies);
    if closed { AppendHopKeepsRejected(s1, e); }
  }

  lemma RequestWillBeSentClears(s: State, e: Event, bodies: bool)
    requires e.RequestWillBeSent?
    ensures OnRequestWillBeSent(s, e, bodies).postCutoff
         == if e.request.Some? && e.request.value.isHTTP then s.postCutoff - {e.id} else s.postCutoff
  {
    if e.request.Some? && e.request.value.isHTTP {
      var s0 := s.(postCutoff := s.postCutoff - {e.id});
      if !HasCapturedRequest(s0, e.id) {
        AppendHopKeepsRejected(Adopt(s0, e.id), e);
      } else if e.redirectResponse.Some? {
        FollowRedirectKeepsRejected(s0, e, bodies);
      }
    }
  }

  lemma ProcessKeepsRejected(s: State, e: Event, bodies: bool)
    requires !e.RequestWillBeSent?
    ensures Process(s, e, bodies).0.postCutoff == s.postCutoff
  {
    if e.RequestExtraInfo? {
      OnRequestExtraEffect(s, e.id, e.requestExtra);
    } else if e.ResponseExtraInfo? {
      OnResponseExtraEffect(s, e.id, e.responseExtra);
    } else if e.ResponseReceived? {
      OnResponseReceivedEffect(s, e);
    } else if e.LoadingFailed? {
      OnLoadingFailedEffect(s, e);
    }
  }

  lemma HandleRejected(s: State, e: Event, bodies: bool)
    requires s.limitErr.None?
    ensures HandleEvent(s, e, bodies).0.postCutoff
         == if !e.RequestWillBeSent? then s.postCutoff
            else if s.frozen && AfterCutoff(s.cutoff, e) then s.postCutoff + {e.id}
            else if e.request.Some? && e.request.value.isHTTP then s.postCutoff - {e.id}
            else s.postCutoff
  {
    if e.RequestWillBeSent? {
      RequestWillBeSentClears(s, e, bodies);
    } else {
      ProcessKeepsRejected(s, e, bodies);
      if e.RequestExtraInfo? { QueueFrozenRequestEffect(s, e.id, e.requestExtra); }
      if e.ResponseExtraInfo? { QueueFrozenResponseEffect(s, e.id, e.responseExtra); }
    }
  }

  lemma DoKeepsRejected(s: State, a: Action)
    requires (!a.Handle? && !a.HandleBuffered?) || s.limitErr.Some? || (a.HandleBuffered? && a.event.ServedFromCache?)
    ensures Do(s, a).0.postCutoff == s.postCutoff
  {
    if a.AnswerBody? && ValidTask(s, a.task) { SetResponseBodyEffect(s, a.task, a.outcome); }
  }

  // The rejected IDs are exactly those whose last base event was rejected.
  lemma {:induction false} RejectedIffLastBaseRejected(s: State, actions: seq<Action>, id: RequestID)
    ensures id in Run(s, actions).postCutoff <==> LastBaseRejected(s, actions, id)
  {
    if actions != [] {
      var before, a := actions[..|actions| - 1], actions[|actions| - 1];
      var t := Run(s, before);
      RejectedIffLastBaseRejected(s, before, id);
      if (a.Handle? || (a.HandleBuffered? && !a.event.ServedFromCache?)) && t.limitErr.None? {
        HandleRejected(t, a.event, a.bodies);
      } else {
        DoKeepsRejected(t, a);
      }
    }
  }

  // A cache event replayed from the buffer marks the newest hop of its ID, and
  // does nothing else, exactly when the ID has not moved on to a request that
  // the cutoff rejected.
  lemma BufferedCacheEvent(s: State, actions: seq<Action>, id: RequestID, bodies: bool)
    ensures var t := Run(s, actions);
            HandleBufferedEvent(t, ServedFromCache(id), bodies)
            == (if t.limitErr.None? && HasCapturedRequest(t, id) && !LastBaseRejected(s, actions, id)
                then Put(t, id, WithLast(t.chains[id], Last(t.chains[id]).(servedFromCache := true)))
                else t, [])
  {
    RejectedIffLastBaseRejected(s, actions, id);
  }
}
