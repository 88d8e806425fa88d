/** Extras that have no captured request: the counter of parked ones, and when
    the drain at the end of a capture may stop waiting. */
module RecorderOrphans {
  import opened Common
  import opened Lanes
  import opened RecorderModel
  import opened RecorderRuns
  import opened RecorderBodies

  ghost function Lengths<X>(parked: map<RequestID, seq<X>>): map<RequestID, nat> {
    map id | id in parked :: |parked[id]|
  }

  ghost function ParkedCount(s: State): nat {
    Total(Lengths(s.frozenRequest)) + Total(Lengths(s.frozenResponse))
  }

  ghost predicate OrphanOk(s: State) {
    && s.orphanCount == ParkedCount(s) && s.orphanCount <= MAX_FROZEN_ORPHAN_EXTRAS
    && (forall id {:trigger s.frozenRequest[id]} :: id in s.frozenRequest ==> s.frozenRequest[id] != [])
    && (forall id {:trigger s.frozenResponse[id]} :: id in s.frozenResponse ==> s.frozenResponse[id] != [])
  }

  // The parked extras and their counter have not changed.
  predicate SameOrphans(s: State, t: State) {
    t.frozenRequest == s.frozenRequest && t.frozenResponse == s.frozenResponse && t.orphanCount == s.orphanCount
  }

  lemma ParkOne<X>(parked: map<RequestID, seq<X>>, id: RequestID, x: X)
    ensures var queue := if id in parked then parked[id] else [];
            Total(Lengths(parked[id := queue + [x]])) == Total(Lengths(parked)) + 1
  {
    var queue := if id in parked then parked[id] else [];
    TotalUpdate(Lengths(parked), id, |queue| + 1);
    assert Lengths(parked[id := queue + [x]]) == Lengths(parked)[id := |queue| + 1];
  }

  lemma TakeAll<X>(parked: map<RequestID, seq<X>>, id: RequestID)
    ensures Total(Lengths(parked)) == Total(Lengths(parked - {id})) + (if id in parked then |parked[id]| else 0)
  {
    if id in parked {
      TotalRemove(Lengths(parked), id);
      assert Lengths(parked - {id}) == Lengths(parked) - {id};
    } else {
      assert parked - {id} == parked;
    }
  }

  lemma QueueFrozenRequestOrphans(s: State, id: RequestID, x: RequestExtra)
    requires OrphanOk(s)
    ensures OrphanOk(QueueFrozenRequest(s, id, x))
  {
    AdmitEffect(s, RequestExtraViolation(x), x.bytes);
    ParkOne(s.frozenRequest, id, x);
  }

  lemma QueueFrozenResponseOrphans(s: State, id: RequestID, x: ResponseExtra)
    requires OrphanOk(s)
    ensures OrphanOk(QueueFrozenResponse(s, id, x))
  {
    AdmitEffect(s, ResponseExtraViolation(x), x.bytes);
    ParkOne(s.frozenResponse, id, x);
  }

  // The counter never falls below zero, so clamping it never matters.
  lemma AdoptOrphans(s: State, id: RequestID)
    requires OrphanOk(s) && !HasCapturedRequest(s, id)
    ensures OrphanOk(Adopt(s, id))
    ensures s.orphanCount - |FrozenRequests(s, id)| - |FrozenResponses(s, id)| >= 0
  {
    TakeAll(s.frozenRequest, id);
    TakeAll(s.frozenResponse, id);
  }

  lemma RequestWillBeSentOrphans(s: State, e: Event, bodies: bool)
    requires e.RequestWillBeSent? && OrphanOk(s)
    ensures OrphanOk(OnRequestWillBeSent(s, e, bodies))
  {
    if e.request.Some? && e.request.value.isHTTP {
      var s0 := s.(postCutoff := s.postCutoff - {e.id});
      if !HasCapturedRequest(s0, e.id) {
        AdoptOrphans(s0, e.id);
        AppendHopEffect(Adopt(s0, e.id), e);
      } else if e.redirectResponse.Some? {
        FollowRedirectOrphans(s0, e, bodies);
      }
    }
  }

  lemma FollowRedirectOrphans(s: State, e: Event, bodies: bool)
    requires e.RequestWillBeSent? && e.request.Some? && e.redirectResponse.Some? && HasCapturedRequest(s, e.id)
    ensures SameOrphans(s, FollowRedirect(s, e, bodies))
  {
    var at := MonotonicTime(e.timestamp);
    var (s1, closed) := CloseRedirect(s, e.id, e.redirectResponse.value, e.redirectHasExtraInfo, at, bodies);
    CloseRedirectEffect(s, e.id, e.redirectResponse.value, e.redirectHasExtraInfo, at, bodies);
    if closed { AppendHopEffect(s1, e); }
  }

  lemma ProcessSameOrphans(s: State, e: Event, bodies: bool)
    requires !e.RequestWillBeSent?
    ensures SameOrphans(s, Process(s, e, bodies).0)
  {
    if e.RequestExtraInfo? {
      OnRequestExtraEffect(s, e.id, e.requestExtra);
    } else if e.ResponseExtraInfo? {
      OnResponseExtraEffect(s, e.id, e.responseExtra);
    } else if e.ResponseReceived? {
      OnResponseReceivedEffect(s, e);
    } else if e.LoadingFailed? {
      OnLoadingFailedEffect(s, e);
    }
  }

  lemma SameOrphansOk(s: State, t: State)
    requires OrphanOk(s) && SameOrphans(s, t)
    ensures OrphanOk(t)
  {
  }

  lemma HandleOrphans(s: State, e: Event, bodies: bool)
    requires OrphanOk(s)
    ensures OrphanOk(HandleEvent(s, e, bodies).0)
  {
    if s.limitErr.None? {
      if e.RequestExtraInfo? && CountsAsOrphan(s, e.id) {
        QueueFrozenRequestOrphans(s, e.id, e.requestExtra);
      } else if e.ResponseExtraInfo? && CountsAsOrphan(s, e.id) {
        QueueFrozenResponseOrphans(s, e.id, e.responseExtra);
      } else if e.RequestWillBeSent? {
        RequestWillBeSentOrphans(s, e, bodies);
      } else {
        ProcessSameOrphans(s, e, bodies);
        SameOrphansOk(s, Process(s, e, bodies).0);
      }
    }
  }

  lemma DoOrphans(s: State, a: Action)
    requires OrphanOk(s)
    ensures OrphanOk(Do(s, a).0)
  {
    match a
    case Handle(event, bodies) => HandleOrphans(s, event, bodies);
    case HandleBuffered(event, bodies) => if !event.ServedFromCache? { HandleOrphans(s, event, bodies); }
    case AnswerBody(task, outcome) => if ValidTask(s, task) { SetResponseBodyEffect(s, task, outcome); }
    case _ =>
  }

  // In every reachable state the counter is the number of parked extras, at
  // most the cap, and no ID is listed with nothing parked.
  lemma {:induction false} OrphanCounterExact(captureStart: Time, targetBytes: nat, actions: seq<Action>)
    ensures OrphanOk(Run(Init(captureStart, targetBytes), actions))
  {
    if actions == [] {
      var s := Init(captureStart, targetBytes);
      assert Lengths(s.frozenRequest) == map[] && Lengths(s.frozenResponse) == map[];
    } else {
      var before := actions[..|actions| - 1];
      OrphanCounterExact(captureStart, targetBytes, before);
      DoOrphans(Run(Init(captureStart, targetBytes), before), actions[|actions| - 1]);
    }
  }

  // ----- Draining -----

  // Extras queued on chains that never saw their base request.
  ghost function Stranded(s: State): map<RequestID, nat> {
    map id | id in s.chains && s.chains[id].hops == [] :: |s.chains[id].pendingRequest| + |s.chains[id].pendingResponse|
  }

  ghost function OrphanExtraCount(s: State): nat {
    ParkedCount(s) + Total(Stranded(s))
  }

  ghost predicate SomeEntryIncomplete(s: State) {
    exists id, i {:trigger s.chains[id].hops[i]} ::
        id in s.chains && 0 <= i < |s.chains[id].hops| && s.chains[id].hops[i].incomplete
  }

  lemma ParkedZeroIff<X>(parked: map<RequestID, seq<X>>)
    requires forall id {:trigger parked[id]} :: id in parked ==> parked[id] != []
    ensures Total(Lengths(parked)) == 0 <==> parked == map[]
  {
    TotalZeroIff(Lengths(parked));
    if parked != map[] {
      var id :| id in parked;
      assert Lengths(parked)[id] > 0;
    }
  }

  lemma StrandedZeroIff(s: State)
    ensures Total(Stranded(s)) == 0 <==>
            forall id :: id in s.chains && s.chains[id].hops == [] ==>
                s.chains[id].pendingRequest == [] && s.chains[id].pendingResponse == []
  {
    TotalZeroIff(Stranded(s));
    assert forall id :: id in Stranded(s) <==> id in s.chains && s.chains[id].hops == [];
  }

  lemma IncompleteIffMisses(s: State)
    requires ReconcileAll(s) == s
    ensures SomeEntryIncomplete(MarkMissingExtraInfo(s)) <==> SomeHopMisses(s)
  {
    var t := MarkMissingExtraInfo(s);
    assert t.chains.Keys == s.chains.Keys;
    assert forall id :: id in s.chains ==> |t.chains[id].hops| == |s.chains[id].hops|;
    assert forall id, i :: id in s.chains && 0 <= i < |s.chains[id].hops| ==>
      t.chains[id].hops[i].incomplete == MissesExtraInfo(s.chains[id].hops[i]);
    if exists id, i :: id in s.chains && 0 <= i < |s.chains[id].hops| && MissesExtraInfo(s.chains[id].hops[i]) {
      var id, i :| id in s.chains && 0 <= i < |s.chains[id].hops| && MissesExtraInfo(s.chains[id].hops[i]);
      assert t.chains[id].hops[i].incomplete;
    }
  }

  // The drain may stop exactly when no extra would be reported as an orphan
  // and no entry would be marked incomplete.
  lemma DrainStopsExactly(captureStart: Time, targetBytes: nat, actions: seq<Action>)
    ensures var s := Run(Init(captureStart, targetBytes), actions);
            !ExtraInfoDrainNeeded(s) <==> OrphanExtraCount(s) == 0 && !SomeEntryIncomplete(MarkMissingExtraInfo(s))
  {
    var s := Run(Init(captureStart, targetBytes), actions);
    ReconcileChangesNothing(captureStart, targetBytes, actions);
    OrphanCounterExact(captureStart, targetBytes, actions);
    ParkedZeroIff(s.frozenRequest);
    ParkedZeroIff(s.frozenResponse);
    StrandedZeroIff(s);
    IncompleteIffMisses(s);
  }
}
