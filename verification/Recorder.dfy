/** The recorder as the program builds it: entries and chains are objects that
    are updated in place and shared between the per-request chains and the
    archive list. Each method is proved to compute its function of RecorderModel. */
module Recorder {
  import opened Common
  import opened Lanes
  import opened RecorderModel
  import opened RequestChains
  import RecorderOrder
  import RecorderOrphans

  lemma RequestExtraSteps(s: State, id: RequestID, x: RequestExtra, s1: State, s2: State, granted: bool)
    requires s1 == Put(s, id, ChainOf(s, id)) && (s2, granted) == Admit(s1, RequestExtraViolation(x), x.bytes)
    ensures OnRequestExtra(s, id, x) == (if granted then Put(s2, id, WithRequestExtra(ChainOf(s2, id), x)) else s2)
  {
  }

  lemma ResponseExtraSteps(s: State, id: RequestID, x: ResponseExtra, s1: State, s2: State, granted: bool)
    requires s1 == Put(s, id, ChainOf(s, id)) && (s2, granted) == Admit(s1, ResponseExtraViolation(x), x.bytes)
    ensures OnResponseExtra(s, id, x) == (if granted then Put(s2, id, WithResponseExtra(ChainOf(s2, id), x)) else s2)
  {
  }

  lemma ResponseReceivedSteps(s: State, e: Event, s1: State, granted: bool)
    requires e.ResponseReceived? && e.response.Some? && HasCapturedRequest(s, e.id)
    requires (s1, granted) == Admit(s, ResponseViolation(e.response.value), e.response.value.bytes)
    ensures var c := ChainOf(s1, e.id);
            HasCapturedRequest(s1, e.id) && OnResponseReceived(s, e)
            == if granted then Put(s1, e.id, ExpectLast(WithLast(c, AnsweredHop(Last(c), e)), e.hasExtraInfo)) else s1
  {
  }

  lemma CloseRedirectSteps(s: State, id: RequestID, response: Response, hasExtraInfo: bool, at: Time, bodies: bool,
                           s1: State, granted: bool)
    requires HasCapturedRequest(s, id)
    requires (s1, granted) == if Last(s.chains[id]).response.None?
             then Admit(s, ResponseViolation(response), response.bytes) else (s, true)
    ensures var c := ChainOf(s1, id);
            HasCapturedRequest(s1, id) && CloseRedirect(s, id, response, hasExtraInfo, at, bodies)
            == if granted
               then (Put(s1, id, ExpectLast(WithLast(c, ClosedHop(Last(c), response, at, bodies)), hasExtraInfo)), true)
                    else (s1, false)
  {
  }

  lemma AdoptSteps(s: State, id: RequestID, s1: State, s2: State)
    requires !HasCapturedRequest(s, id) && s1 == Put(s, id, ChainOf(s, id))
    requires var c := ChainOf(s1, id);
             s2 == Put(s1, id, c.(pendingRequest := c.pendingRequest + FrozenRequests(s1, id),
                                  pendingResponse := c.pendingResponse + FrozenResponses(s1, id)))
    ensures Adopt(s, id) == Forget(s2, id)
  {
  }

  lemma AppendHopSteps(s: State, e: Event, s1: State, granted: bool)
    requires e.RequestWillBeSent? && e.request.Some? && e.id in s.chains && s.limitErr.None?
    requires Violation(e.request.value.headers.items, e.request.value.headers.cookies).None?
             && e.request.value.queryParses
    requires |s.order| < s.maxEntries && (s1, granted) == RecorderModel.Reserve(s, e.request.value.bytes)
    ensures e.id in s1.chains && AppendHop(s, e) == if granted then AddEntry(s1, e) else s1
  {
  }

  lemma AddEntrySteps(s: State, e: Event, s1: State, s2: State)
    requires e.RequestWillBeSent? && e.request.Some? && e.id in s.chains
    requires var c := s.chains[e.id];
             s1 == Put(s, e.id, c.(hops := c.hops + [NewEntry(|s.order| + 1, e, s.captureStart)]))
                   .(order := s.order + [(e.id, |c.hops|)])
    requires var opensPage := s1.pageStartMono == ZERO_TIME && e.resourceType == "Document";
             s2 == s1.(pageStartMono := if opensPage then MonotonicTime(e.timestamp) else s1.pageStartMono,
                       pageStart := if opensPage then e.wallTime.GetOr(s.captureStart) else s1.pageStart)
    ensures s2 == AddEntry(s, e)
  {
  }

  lemma RequestWillBeSentSteps(s: State, e: Event, bodies: bool, s1: State, s2: State)
    requires e.RequestWillBeSent? && e.request.Some? && e.request.value.isHTTP
    requires s1 == s.(postCutoff := s.postCutoff - {e.id})
    requires !HasCapturedRequest(s1, e.id) ==> s2 == OpenChain(s1, e)
    requires HasCapturedRequest(s1, e.id) ==>
               s2 == if e.redirectResponse.None? then s1 else FollowRedirect(s1, e, bodies)
    ensures s2 == OnRequestWillBeSent(s, e, bodies)
  {
  }

  lemma LoadingFailedSteps(s: State, e: Event, s1: State, s2: State, granted: bool)
    requires e.LoadingFailed? && HasCapturedRequest(s, e.id)
    requires s1 == Put(s, e.id, WithLast(ChainOf(s, e.id), FailedHop(Last(ChainOf(s, e.id)), e)))
    requires var failure := if e.errorText.content == "" then e.blockedReason else e.errorText;
             (s2, granted) == RecorderModel.Reserve(s1, failure.bytes + DERIVED_ITEM_OVERHEAD)
    ensures var failure := if e.errorText.content == "" then e.blockedReason else e.errorText;
            HasCapturedRequest(s2, e.id) && OnLoadingFailed(s, e) == if granted
              then Put(s2, e.id, ExplainFailure(ChainOf(s2, e.id), failure)) else s2
  {
  }

  lemma {:induction false} AllTasksOf(id: RequestID, hops: seq<Entry>)
    ensures forall j {:trigger DueTasks(id, hops)[j]} :: 0 <= j < |DueTasks(id, hops)| ==>
              DueTasks(id, hops)[j].id == id
  {
    if hops != [] { AllTasksOf(id, hops[..|hops| - 1]); }
  }

  method CountQueued<X>(parked: map<RequestID, seq<X>>) returns (count: nat)
    ensures count == Total(RecorderOrphans.Lengths(parked))
  {
    count := 0;
    var todo := parked.Keys;
    ghost var left := RecorderOrphans.Lengths(parked);
    while todo != {}
      invariant todo <= parked.Keys && left == (map k | k in parked && k in todo :: |parked[k]|)
      invariant count + Total(left) == Total(RecorderOrphans.Lengths(parked))
    {
      var k :| k in todo;
      TotalRemove(left, k);
      count := count + |parked[k]|;
      left := left - {k};
      todo := todo - {k};
    }
  }

  lemma ReconcileKeepsListing(s: State)
    requires RecorderOrder.EveryHopListed(s)
    ensures RecorderOrder.EveryHopListed(ReconcileAll(s))
  {
    forall task ensures RecorderOrder.HopListed(ReconcileAll(s), task) {
      assert RecorderOrder.HopListed(s, task);
    }
  }

  class Recorder {
    const captureStart: Time
    const maxEntries: int
    const maxBytes: int
    var pageStart: Time
    var pageStartMono: Time
    var domContent: Option<Time>
    var load: Option<Time>
    var frozen: bool
    var cutoffMono: Time
    var sequence: nat
    var chains: map<RequestID, RequestChain>
    var entries: seq<CapturedEntry>
    var retainedBytes: int
    var limitErr: Option<LimitError>
    var frozenRequestExtras: map<RequestID, seq<RequestExtra>>
    var frozenResponseExtras: map<RequestID, seq<ResponseExtra>>
    var frozenOrphanCount: int
    var postCutoffRequestIDs: set<RequestID>

    // Which chain and hop each archived entry is; the chains and entries in use.
    ghost var order: seq<(RequestID, nat)>
    ghost var Repr: set<object>

    // Chains and entries are distinct objects, each with its own request ID.
    ghost predicate ChainsValid()
      reads this`chains, this`Repr, Repr
    {
      forall k {:trigger chains[k]} :: k in chains ==>
        chains[k] in Repr && chains[k].id == k && (forall e :: e in chains[k].entries ==> e in Repr)
          && chains[k].Valid()
    }

    // The archive list shares its entries with the chains.
    ghost predicate ListValid()
      reads this`chains, this`entries, this`sequence, this`order, this`Repr, Repr
      requires ChainsValid()
    {
      && sequence == |entries| == |order|
      && (forall p {:trigger order[p]} {:trigger entries[p]} :: 0 <= p < |order| ==>
            order[p].0 in chains && order[p].1 < |chains[order[p].0].entries|
              && entries[p] == chains[order[p].0].entries[order[p].1])
    }

    ghost predicate Valid()
      reads this`chains, this`entries, this`sequence, this`order, this`Repr, Repr
    {
      this !in Repr && ChainsValid() && ListValid()
    }

    ghost function Chains(): map<RequestID, Chain>
      reads this`chains, this`entries, this`sequence, this`order, this`Repr, Repr
      requires Valid()
    {
      map k | k in chains :: chains[k].View()
    }

    ghost function View(): State
      reads this, Repr
      requires Valid()
    {
      State(captureStart, pageStart, pageStartMono, domContent, load, frozen, cutoffMono, Chains(), order,
            maxEntries, maxBytes, retainedBytes, limitErr, frozenRequestExtras, frozenResponseExtras,
            frozenOrphanCount, postCutoffRequestIDs)
    }

    constructor (captureStart: Time, targetBytes: nat)
      ensures Valid() && fresh(Repr) && View() == Init(captureStart, targetBytes)
    {
      this.captureStart, pageStart, pageStartMono := captureStart, captureStart, ZERO_TIME;
      domContent, load, frozen, cutoffMono := None, None, false, ZERO_TIME;
      sequence, chains, entries, order := 0, map[], [], [];
      maxEntries, maxBytes := DEFAULT_MAX_ENTRIES, DEFAULT_MAX_RETAINED_BYTES;
      retainedBytes, limitErr := 0, None;
      frozenRequestExtras, frozenResponseExtras, frozenOrphanCount, postCutoffRequestIDs := map[], map[], 0, {};
      Repr := {};
      new;
      assert Chains() == map[];
      var _ := Reserve(1024 + targetBytes);
    }

    // ----- Limits -----

    method SetLimitError(error: LimitError)
      requires Valid()
      modifies this`limitErr
      ensures Valid() && View() == Fail(old(View()), error)
    {
      if limitErr.None? { limitErr := Some(error); }
    }

    method Reserve(size: int) returns (granted: bool)
      requires Valid()
      modifies this`limitErr, this`retainedBytes
      ensures Valid() && (View(), granted) == RecorderModel.Reserve(old(View()), size)
    {
      var bytes := if size < 0 then 0 else size;
      if limitErr.Some? {
        granted := false;
      } else if bytes > maxBytes - retainedBytes {
        limitErr := Some(TooManyBytes);
        granted := false;
      } else {
        retainedBytes := retainedBytes + bytes;
        granted := true;
      }
    }

    method ValidateHeaders(first: Headers, second: Headers) returns (ok: bool)
      requires Valid()
      modifies this`limitErr
      ensures ok == (first.items <= MAX_HEADER_ITEMS && second.items <= MAX_HEADER_ITEMS)
      ensures Valid() && View() == if ok then old(View()) else Fail(old(View()), TooManyHeaderValues)
    {
      ok := first.items <= MAX_HEADER_ITEMS && second.items <= MAX_HEADER_ITEMS;
      if !ok { SetLimitError(TooManyHeaderValues); }
    }

    method ValidateCookieCount(count: nat) returns (ok: bool)
      requires Valid()
      modifies this`limitErr
      ensures ok == (count <= MAX_HEADER_ITEMS)
      ensures Valid() && View() == if ok then old(View()) else Fail(old(View()), TooManyCookies)
    {
      ok := count <= MAX_HEADER_ITEMS;
      if !ok { SetLimitError(TooManyCookies); }
    }

    // ----- Chains -----

    method ChainFor(id: RequestID) returns (chain: RequestChain)
      requires Valid()
      modifies this`chains, this`Repr
      ensures Valid() && fresh(Repr - old(Repr))
      ensures id in chains && chains[id] == chain && (id in old(chains) ==> chain == old(chains)[id])
      ensures View() == Put(old(View()), id, ChainOf(old(View()), id))
    {
      if id in chains {
        chain := chains[id];
        assert Chains() == Chains()[id := chain.View()];
      } else {
        chain := AddChain(id);
      }
    }

    method AddChain(id: RequestID) returns (chain: RequestChain)
      requires Valid() && id !in chains
      modifies this`chains, this`Repr
      ensures Valid() && fresh(Repr - old(Repr))
      ensures chains == old(chains)[id := chain] && Chains() == old(Chains())[id := EMPTY_CHAIN]
    {
      chain := new RequestChain(id);
      ListChain(id, chain);
    }

    method ListChain(id: RequestID, chain: RequestChain)
      requires Valid() && id !in chains && chain !in Repr && chain.Valid() && chain.id == id && chain.entries == []
      modifies this`chains, this`Repr
      ensures Valid() && Repr == old(Repr) + {chain}
      ensures chains == old(chains)[id := chain] && Chains() == old(Chains())[id := chain.View()]
    {
      chains := chains[id := chain];
      Repr := Repr + {chain};
      assert forall k :: k in old(chains) ==> chains[k] == old(chains[k]) && chains[k].View() == old(chains[k].View());
    }

    // No chain but that of one ID, and no entry but those on it, has changed.
    twostate predicate OthersUntouched(id: RequestID)
      requires id in chains
      reads *
    {
      && chains == old(chains) && entries == old(entries) && order == old(order) && sequence == old(sequence)
      && Repr == old(Repr)
      && chains[id].entries == old(chains[id].entries)
      && (forall c: RequestChain :: c in old(Repr) && c != chains[id] ==> unchanged(c))
      && (forall e: CapturedEntry :: e in old(Repr) && e !in chains[id].entries ==> unchanged(e))
    }

    twostate lemma OthersKept(id: RequestID)
      requires id in chains && old(Valid()) && OthersUntouched(id) && chains[id].id == id
      ensures forall k {:trigger OtherKept(k)} {:trigger chains[k]} :: k in chains && k != id ==> OtherKept(k)
    {
      forall k | k in chains && k != id ensures OtherKept(k) {
        var c := chains[k];
        assert c.id == k && c in Repr;
        forall i | 0 <= i < |c.entries| ensures unchanged(c.entries[i]) {
          assert c.entries[i] in c.entries && c.entries[i].requestID == k;
        }
        assert c.Hops() == old(c.Hops());
      }
    }

    twostate lemma ChainChanged(id: RequestID)
      requires id in chains && old(Valid()) && OthersUntouched(id) && chains[id].Valid()
      ensures Valid() && Chains() == old(Chains())[id := chains[id].View()]
    {
      OthersKept(id);
      assert ChainsValid();
    }

    twostate predicate OtherKept(k: RequestID)
      requires k in chains && k in old(chains)
      reads *
    {
      chains[k].Valid() && chains[k].View() == old(chains[k].View()) && chains[k].entries == old(chains[k].entries)
    }

    method CurrentChain(id: RequestID) returns (chain: RequestChain?)
      requires Valid()
      ensures chain == null <==> !HasCapturedRequest(View(), id)
      ensures chain != null ==> id in chains && chain == chains[id] && chain.entries != []
    {
      chain := null;
      if id in chains && |chains[id].entries| > 0 { chain := chains[id]; }
    }

    // ----- Extra info -----

    method AdmitRequestExtra(extra: RequestExtra) returns (granted: bool)
      requires Valid() && limitErr.None?
      modifies this`limitErr, this`retainedBytes
      ensures Valid() && (View(), granted) == Admit(old(View()), RequestExtraViolation(extra), extra.bytes)
    {
      granted := ValidateHeaders(extra.headers, extra.headers);
      if !granted { return; }
      granted := ValidateCookieCount(extra.headers.cookies);
      if !granted { return; }
      granted := ValidateCookieCount(extra.associatedCookies);
      if !granted { return; }
      granted := Reserve(extra.bytes);
    }

    method AdmitResponseExtra(extra: ResponseExtra) returns (granted: bool)
      requires Valid() && limitErr.None?
      modifies this`limitErr, this`retainedBytes
      ensures Valid() && (View(), granted) == Admit(old(View()), ResponseExtraViolation(extra), extra.bytes)
    {
      granted := ValidateHeaders(extra.headers, extra.headers);
      if !granted { return; }
      granted := Reserve(extra.bytes);
    }

    method AdmitResponse(response: Response) returns (granted: bool)
      requires Valid() && limitErr.None?
      modifies this`limitErr, this`retainedBytes
      ensures Valid() && (View(), granted) == Admit(old(View()), ResponseViolation(response), response.bytes)
    {
      granted := ValidateHeaders(response.headers, response.requestHeaders);
      if !granted { return; }
      granted := ValidateCookieCount(response.requestHeaders.cookies);
      if !granted { return; }
      granted := Reserve(response.bytes);
    }

    method AttachRequestExtra(id: RequestID, extra: RequestExtra)
      requires Valid() && id in chains
      modifies Repr
      ensures Valid() && View() == Put(old(View()), id, WithRequestExtra(ChainOf(old(View()), id), extra))
    {
      chains[id].QueueRequestExtra(extra);
      ChainChanged(id);
    }

    method RequestExtraInfo(id: RequestID, extra: RequestExtra)
      requires Valid() && limitErr.None?
      modifies this, Repr
      ensures Valid() && fresh(Repr - old(Repr)) && View() == OnRequestExtra(old(View()), id, extra)
    {
      ghost var s := View();
      var _ := ChainFor(id);
      ghost var s1 := View();
      var granted := AdmitRequestExtra(extra);
      RequestExtraSteps(s, id, extra, s1, View(), granted);
      if granted { AttachRequestExtra(id, extra); }
    }

    method AttachResponseExtra(id: RequestID, extra: ResponseExtra)
      requires Valid() && id in chains
      modifies Repr
      ensures Valid() && View() == Put(old(View()), id, WithResponseExtra(ChainOf(old(View()), id), extra))
    {
      chains[id].QueueResponseExtra(extra);
      ChainChanged(id);
    }

    method ResponseExtraInfo(id: RequestID, extra: ResponseExtra)
      requires Valid() && limitErr.None?
      modifies this, Repr
      ensures Valid() && fresh(Repr - old(Repr)) && View() == OnResponseExtra(old(View()), id, extra)
    {
      ghost var s := View();
      var _ := ChainFor(id);
      ghost var s1 := View();
      var granted := AdmitResponseExtra(extra);
      ResponseExtraSteps(s, id, extra, s1, View(), granted);
      if granted { AttachResponseExtra(id, extra); }
    }

    method ParkRequestExtra(id: RequestID, extra: RequestExtra)
      requires Valid()
      modifies this`frozenOrphanCount, this`frozenRequestExtras
      ensures Valid() && View() == ParkRequest(old(View()), id, extra)
    {
      frozenOrphanCount := frozenOrphanCount + 1;
      var queue := if id in frozenRequestExtras then frozenRequestExtras[id] else [];
      frozenRequestExtras := frozenRequestExtras[id := queue + [extra]];
    }

    method QueueFrozenRequestExtra(id: RequestID, extra: RequestExtra)
      requires Valid() && limitErr.None?
      modifies this`limitErr, this`retainedBytes, this`frozenOrphanCount, this`frozenRequestExtras
      ensures Valid() && View() == QueueFrozenRequest(old(View()), id, extra)
    {
      if frozenOrphanCount >= MAX_FROZEN_ORPHAN_EXTRAS { return; }
      var granted := AdmitRequestExtra(extra);
      if granted { ParkRequestExtra(id, extra); }
    }

    method ParkResponseExtra(id: RequestID, extra: ResponseExtra)
      requires Valid()
      modifies this`frozenOrphanCount, this`frozenResponseExtras
      ensures Valid() && View() == ParkResponse(old(View()), id, extra)
    {
      frozenOrphanCount := frozenOrphanCount + 1;
      var queue := if id in frozenResponseExtras then frozenResponseExtras[id] else [];
      frozenResponseExtras := frozenResponseExtras[id := queue + [extra]];
    }

    method QueueFrozenResponseExtra(id: RequestID, extra: ResponseExtra)
      requires Valid() && limitErr.None?
      modifies this`limitErr, this`retainedBytes, this`frozenOrphanCount, this`frozenResponseExtras
      ensures Valid() && View() == QueueFrozenResponse(old(View()), id, extra)
    {
      if frozenOrphanCount >= MAX_FROZEN_ORPHAN_EXTRAS { return; }
      var granted := AdmitResponseExtra(extra);
      if granted { ParkResponseExtra(id, extra); }
    }

    // ----- Responses and loading -----

    method AnswerHop(event: Event)
      requires Valid() && event.ResponseReceived? && HasCapturedRequest(View(), event.id)
      modifies Repr
      ensures Valid()
      ensures var c := ChainOf(old(View()), event.id);
              View()
                == Put(old(View()), event.id, ExpectLast(WithLast(c, AnsweredHop(Last(c), event)), event.hasExtraInfo))
    {
      chains[event.id].AnswerAndExpect(event);
      ChainChanged(event.id);
    }

    method ResponseReceived(event: Event)
      requires Valid() && limitErr.None? && event.ResponseReceived?
      modifies this`limitErr, this`retainedBytes, Repr
      ensures Valid() && View() == OnResponseReceived(old(View()), event)
    {
      if event.response.None? { return; }
      var chain := CurrentChain(event.id);
      if chain == null { return; }
      ghost var s := View();
      var granted := AdmitResponse(event.response.value);
      ResponseReceivedSteps(s, event, View(), granted);
      if granted { AnswerHop(event); }
    }

    method FailHop(event: Event)
      requires Valid() && event.LoadingFailed? && HasCapturedRequest(View(), event.id)
      modifies Repr
      ensures Valid()
      ensures var c := ChainOf(old(View()), event.id);
              View() == Put(old(View()), event.id, WithLast(c, FailedHop(Last(c), event)))
    {
      chains[event.id].FailLoading(event);
      ChainChanged(event.id);
    }

    method ExplainHop(id: RequestID, failure: Text)
      requires Valid() && HasCapturedRequest(View(), id)
      modifies Repr
      ensures Valid() && View() == Put(old(View()), id, RecorderModel.ExplainFailure(ChainOf(old(View()), id), failure))
    {
      chains[id].ExplainFailure(failure);
      ChainChanged(id);
    }

    method LoadingFailed(event: Event)
      requires Valid() && limitErr.None? && event.LoadingFailed?
      modifies this`limitErr, this`retainedBytes, Repr
      ensures Valid() && View() == OnLoadingFailed(old(View()), event)
    {
      ghost var s := View();
      var chain := CurrentChain(event.id);
      if chain == null { return; }
      FailHop(event);
      ghost var s1 := View();
      var failure := if event.errorText.content == "" then event.blockedReason else event.errorText;
      var granted := Reserve(failure.bytes + DERIVED_ITEM_OVERHEAD);
      LoadingFailedSteps(s, event, s1, View(), granted);
      if granted { ExplainHop(event.id, failure); }
    }

    method LoadingFinished(event: Event)
      requires Valid() && event.LoadingFinished?
      modifies Repr
      ensures Valid() && View() == OnLoadingFinished(old(View()), event)
    {
      var chain := CurrentChain(event.id);
      if chain == null { return; }
      chain.Finish(event);
      ChainChanged(event.id);
    }

    method DataReceived(event: Event)
      requires Valid() && event.DataReceived?
      modifies Repr
      ensures Valid() && View() == OnDataReceived(old(View()), event)
    {
      var chain := CurrentChain(event.id);
      if chain == null { return; }
      chain.Measure(event);
      ChainChanged(event.id);
    }

    method ServedFromCache(id: RequestID)
      requires Valid()
      modifies Repr
      ensures Valid() && View() == OnServedFromCache(old(View()), id)
    {
      var chain := CurrentChain(id);
      if chain == null { return; }
      chain.MarkServedFromCache();
      ChainChanged(id);
    }

    // The worker tasks are the model's tasks.
    ghost predicate TasksResolve(tasks: seq<FetchTask>, model: seq<Task>)
      reads this`chains, this`Repr, Repr
    {
      && |tasks| == |model|
      && forall j {:trigger tasks[j]} {:trigger model[j]} :: 0 <= j < |tasks| ==>
           model[j].id in chains && chains[model[j].id] in Repr && model[j].hop < |chains[model[j].id].entries|
           && tasks[j] == FetchTask(model[j].id, chains[model[j].id].entries[model[j].hop])
    }

    method ReadyBodyFetchTasks(id: RequestID, includeResponseBodies: bool) returns (tasks: seq<FetchTask>)
      requires Valid()
      modifies Repr
      ensures Valid() && View() == ReadyBodyFetches(old(View()), id, includeResponseBodies).0
      ensures TasksResolve(tasks, ReadyBodyFetches(old(View()), id, includeResponseBodies).1)
    {
      tasks := [];
      if !includeResponseBodies || id !in chains { return; }
      tasks := chains[id].ReadyBodyFetchTasks();
      ChainChanged(id);
      AllTasksOf(id, old(View()).chains[id].hops);
    }

    // ----- Requests -----

    method TakeParkedExtras(id: RequestID)
      requires Valid() && id in chains
      modifies Repr
      ensures Valid()
      ensures var c := ChainOf(old(View()), id);
              View() == Put(old(View()), id,
                            c.(pendingRequest := c.pendingRequest + FrozenRequests(old(View()), id),
                               pendingResponse := c.pendingResponse + FrozenResponses(old(View()), id)))
    {
      var requests := if id in frozenRequestExtras then frozenRequestExtras[id] else [];
      var responses := if id in frozenResponseExtras then frozenResponseExtras[id] else [];
      chains[id].TakeOver(requests, responses);
      ChainChanged(id);
    }

    method DropParkedExtras(id: RequestID)
      requires Valid()
      modifies this`frozenRequestExtras, this`frozenResponseExtras
      ensures Valid()
      ensures View()
              == old(View()).(frozenRequest := old(frozenRequestExtras) - {id},
                              frozenResponse := old(frozenResponseExtras) - {id})
    {
      frozenRequestExtras := frozenRequestExtras - {id};
      frozenResponseExtras := frozenResponseExtras - {id};
    }

    method ForgetParkedExtras(id: RequestID)
      requires Valid()
      modifies this`frozenOrphanCount, this`frozenRequestExtras, this`frozenResponseExtras
      ensures Valid() && View() == Forget(old(View()), id)
    {
      var requests := if id in frozenRequestExtras then |frozenRequestExtras[id]| else 0;
      var responses := if id in frozenResponseExtras then |frozenResponseExtras[id]| else 0;
      ghost var s := View();
      UncountOrphans(requests + responses);
      assert View() == s.(orphanCount := Max(s.orphanCount - (requests + responses), 0));
      DropParkedExtras(id);
    }

    method UncountOrphans(taken: nat)
      requires Valid()
      modifies this`frozenOrphanCount
      ensures Valid() && View() == old(View()).(orphanCount := Max(old(frozenOrphanCount) - taken, 0))
    {
      var remaining := frozenOrphanCount - taken;
      frozenOrphanCount := if remaining < 0 then 0 else remaining;
    }

    method AdoptParkedExtras(id: RequestID)
      requires Valid() && !HasCapturedRequest(View(), id)
      modifies this, Repr
      ensures Valid() && fresh(Repr - old(Repr)) && id in chains && View() == Adopt(old(View()), id)
    {
      ghost var s := View();
      var chain := ChainFor(id);
      ghost var s1 := View();
      TakeParkedExtras(id);
      AdoptSteps(s, id, s1, View());
      ForgetParkedExtras(id);
    }

    method AddHop(entry: CapturedEntry, id: RequestID, chain: RequestChain)
      requires Valid() && id in chains && chain == chains[id] && entry !in Repr && entry.requestID == id
               && !entry.extraInfoExpected
      modifies this`sequence, this`order, this`entries, this`Repr, chain`entries
      ensures Valid() && Repr == old(Repr) + {entry} && order == old(order) + [(id, |old(chains[id].entries)|)]
      ensures var c := ChainOf(old(View()), id); Chains() == old(Chains())[id := c.(hops := c.hops + [entry.View()])]
    {
      sequence := sequence + 1;
      order := order + [(id, |chain.entries|)];
      entries := entries + [entry];
      Repr := Repr + {entry};
      chain.Append(entry);
      HopAdded(id, entry);
    }

    twostate predicate HopWasAdded(id: RequestID, new entry: CapturedEntry)
      requires id in chains && id in old(chains)
      reads *
    {
      && chains == old(chains) && Repr == old(Repr) + {entry}
      && sequence == old(sequence) + 1 && entries == old(entries) + [entry]
      && order == old(order) + [(id, |old(chains[id].entries)|)]
      && chains[id].entries == old(chains[id].entries) + [entry]
      && (forall c: RequestChain :: c in old(Repr) && c != chains[id] ==> unchanged(c))
      && (forall e: CapturedEntry :: e in old(Repr) ==> unchanged(e))
    }

    twostate lemma OthersKeptByHop(id: RequestID, new entry: CapturedEntry)
      requires old(Valid()) && id in chains && id in old(chains) && HopWasAdded(id, entry) && chains[id].id == id
      ensures forall k {:trigger OtherKept(k)} {:trigger chains[k]} :: k in chains && k != id ==> OtherKept(k)
    {
      forall k | k in chains && k != id ensures OtherKept(k) {
        var c := chains[k];
        assert c.id == k && c in old(Repr);
        forall i | 0 <= i < |c.entries| ensures unchanged(c.entries[i]) {
          assert c.entries[i] in c.entries;
        }
        assert c.Hops() == old(c.Hops());
      }
    }

    twostate lemma HopAdded(id: RequestID, new entry: CapturedEntry)
      requires old(Valid()) && id in chains && id in old(chains) && HopWasAdded(id, entry) && chains[id].Valid()
      requires chains[id].View() == old(chains[id].View()).(hops := old(chains[id].View()).hops + [entry.View()])
      ensures Valid()
      ensures var c := ChainOf(old(View()), id); Chains() == old(Chains())[id := c.(hops := c.hops + [entry.View()])]
    {
      OthersKeptByHop(id, entry);
      assert ChainsValid();
    }

    // The first document request opens the page.
    method OpenPage(resourceType: string, startedMono: Time, startedWall: Time)
      requires Valid()
      modifies this`pageStartMono, this`pageStart
      ensures Valid()
      ensures var s := old(View()); var opensPage := s.pageStartMono == ZERO_TIME && resourceType == "Document";
              View() == s.(pageStartMono := if opensPage then startedMono else s.pageStartMono,
                           pageStart := if opensPage then startedWall else s.pageStart)
    {
      if pageStartMono == ZERO_TIME && resourceType == "Document" {
        pageStartMono := startedMono;
        pageStart := startedWall;
      }
    }

    method Enlist(entry: CapturedEntry, id: RequestID)
      requires Valid() && id in chains && entry !in Repr && entry.requestID == id && !entry.extraInfoExpected
      modifies this`sequence, this`order, this`entries, this`Repr, Repr
      ensures Valid() && Repr == old(Repr) + {entry} && entry.View() == old(entry.View())
      ensures var s := old(View()); var c := ChainOf(s, id);
              View() == Put(s, id, c.(hops := c.hops + [entry.View()])).(order := s.order + [(id, |c.hops|)])
    {
      AddHop(entry, id, chains[id]);
    }

    method ListHop(event: Event) returns (entry: CapturedEntry)
      requires Valid() && event.RequestWillBeSent? && event.request.Some? && event.id in chains
      modifies this`sequence, this`order, this`entries, this`Repr, Repr
      ensures Valid() && fresh(Repr - old(Repr))
      ensures entry.View() == NewEntry(|old(order)| + 1, event, captureStart)
      ensures var s := old(View()); var c := s.chains[event.id];
              View() == Put(s, event.id, c.(hops := c.hops + [entry.View()]))
                        .(order := s.order + [(event.id, |c.hops|)])
    {
      entry := new CapturedEntry(sequence + 1, event, captureStart);
      Enlist(entry, event.id);
    }

    method AddCapturedEntry(event: Event)
      requires Valid() && event.RequestWillBeSent? && event.request.Some? && event.id in chains
      modifies this, Repr
      ensures Valid() && fresh(Repr - old(Repr)) && View() == AddEntry(old(View()), event)
    {
      ghost var s := View();
      var entry := ListHop(event);
      ghost var s1 := View();
      OpenPage(event.resourceType, entry.startedMono, entry.startedWall);
      AddEntrySteps(s, event, s1, View());
    }

    method OpenRequest(event: Event)
      requires Valid() && limitErr.None? && event.RequestWillBeSent? && event.request.Some?
               && !HasCapturedRequest(View(), event.id)
      modifies this, Repr
      ensures Valid() && fresh(Repr - old(Repr)) && View() == OpenChain(old(View()), event)
    {
      AdoptParkedExtras(event.id);
      AppendRequest(event);
    }

    method FollowRedirectTo(event: Event, includeResponseBodies: bool)
      requires Valid() && limitErr.None? && event.RequestWillBeSent? && event.request.Some?
               && event.redirectResponse.Some?
      requires HasCapturedRequest(View(), event.id)
      modifies this, Repr
      ensures Valid() && fresh(Repr - old(Repr)) && View() == FollowRedirect(old(View()), event, includeResponseBodies)
    {
      var closed := CloseRedirectedHop(event.id, event.redirectResponse.value, event.redirectHasExtraInfo,
                                       MonotonicTime(event.timestamp), includeResponseBodies);
      if closed { AppendRequest(event); }
    }

    method AppendRequest(event: Event)
      requires Valid() && limitErr.None? && event.RequestWillBeSent? && event.request.Some? && event.id in chains
      modifies this, Repr
      ensures Valid() && fresh(Repr - old(Repr)) && View() == AppendHop(old(View()), event)
    {
      var request := event.request.value;
      var ok := ValidateHeaders(request.headers, request.headers);
      if !ok { return; }
      ok := ValidateCookieCount(request.headers.cookies);
      if !ok { return; }
      if !request.queryParses {
        SetLimitError(BadQuery);
        return;
      }
      if |entries| >= maxEntries {
        SetLimitError(TooManyEntries);
        return;
      }
      ghost var s := View();
      ok := Reserve(request.bytes);
      AppendHopSteps(s, event, View(), ok);
      if ok { AddCapturedEntry(event); }
    }

    method CloseHop(id: RequestID, response: Response, hasExtraInfo: bool, at: Time, bodies: bool)
      requires Valid() && HasCapturedRequest(View(), id)
      modifies Repr
      ensures Valid()
      ensures var c := ChainOf(old(View()), id);
              View()
                == Put(old(View()), id, ExpectLast(WithLast(c, ClosedHop(Last(c), response, at, bodies)), hasExtraInfo))
    {
      ghost var c := ChainOf(View(), id);
      assert c == chains[id].View();
      chains[id].CloseAndExpect(response, hasExtraInfo, at, bodies);
      ChainChanged(id);
    }

    method AdmitRedirect(id: RequestID, response: Response) returns (granted: bool)
      requires Valid() && limitErr.None? && HasCapturedRequest(View(), id)
      modifies this`limitErr, this`retainedBytes
      ensures Valid()
      ensures (View(), granted) == if Last(ChainOf(old(View()), id)).response.None?
                                   then Admit(old(View()), ResponseViolation(response), response.bytes)
                                        else (old(View()), true)
      ensures granted ==> limitErr.None?
    {
      granted := true;
      if chains[id].entries[|chains[id].entries| - 1].response.None? {
        granted := AdmitResponse(response);
      }
    }

    method CloseRedirectedHop(id: RequestID, response: Response, hasExtraInfo: bool, at: Time, bodies: bool)
      returns (closed: bool)
      requires Valid() && limitErr.None? && HasCapturedRequest(View(), id)
      modifies this`limitErr, this`retainedBytes, Repr
      ensures Valid() && (View(), closed) == CloseRedirect(old(View()), id, response, hasExtraInfo, at, bodies)
      ensures closed ==> limitErr.None? && id in chains
    {
      ghost var s := View();
      closed := AdmitRedirect(id, response);
      CloseRedirectSteps(s, id, response, hasExtraInfo, at, bodies, View(), closed);
      if closed { CloseHop(id, response, hasExtraInfo, at, bodies); }
    }

    method AcceptID(id: RequestID)
      requires Valid()
      modifies this`postCutoffRequestIDs
      ensures Valid() && View() == old(View()).(postCutoff := old(View()).postCutoff - {id})
    {
      postCutoffRequestIDs := postCutoffRequestIDs - {id};
    }

    method RequestWillBeSent(event: Event, includeResponseBodies: bool)
      requires Valid() && limitErr.None? && event.RequestWillBeSent?
      modifies this, Repr
      ensures Valid() && fresh(Repr - old(Repr))
              && View() == OnRequestWillBeSent(old(View()), event, includeResponseBodies)
    {
      if event.request.None? || !event.request.value.isHTTP { return; }
      ghost var s := View();
      AcceptID(event.id);
      ghost var s1 := View();
      var chain := CurrentChain(event.id);
      if chain == null {
        OpenRequest(event);
      } else if event.redirectResponse.Some? {
        FollowRedirectTo(event, includeResponseBodies);
      }
      RequestWillBeSentSteps(s, event, includeResponseBodies, s1, View());
    }

    // ----- Events -----

    method RecordDomContent(timestamp: Option<Time>)
      requires Valid()
      modifies this`domContent
      ensures Valid() && View() == old(View()).(domContent := Some(MonotonicTime(timestamp)))
    {
      domContent := Some(MonotonicTime(timestamp));
    }

    method RecordLoad(timestamp: Option<Time>)
      requires Valid()
      modifies this`load
      ensures Valid() && View() == old(View()).(load := Some(MonotonicTime(timestamp)))
    {
      load := Some(MonotonicTime(timestamp));
    }

    method Dispatch(event: Event, includeResponseBodies: bool) returns (tasks: seq<FetchTask>)
      requires Valid() && limitErr.None?
      modifies this, Repr
      ensures Valid() && fresh(Repr - old(Repr))
      ensures View() == Process(old(View()), event, includeResponseBodies).0
      ensures TasksResolve(tasks, Process(old(View()), event, includeResponseBodies).1)
    {
      tasks := [];
      match event
      case DataReceived(_, _, _, _) => DataReceived(event);
      case RequestWillBeSent(_, _, _, _, _, _, _) => RequestWillBeSent(event, includeResponseBodies);
      case RequestExtraInfo(id, extra) => RequestExtraInfo(id, extra);
      case ResponseReceived(id, _, _, _, _) =>
        ResponseReceived(event);
        tasks := ReadyBodyFetchTasks(id, includeResponseBodies);
      case ResponseExtraInfo(id, extra) =>
        ResponseExtraInfo(id, extra);
        tasks := ReadyBodyFetchTasks(id, includeResponseBodies);
      case ServedFromCache(id) => ServedFromCache(id);
      case LoadingFinished(id, _, _) =>
        LoadingFinished(event);
        tasks := ReadyBodyFetchTasks(id, includeResponseBodies);
      case LoadingFailed(_, _, _, _) => LoadingFailed(event);
      case DomContentEventFired(timestamp) => RecordDomContent(timestamp);
      case LoadEventFired(timestamp) => RecordLoad(timestamp);
    }

    method RejectID(id: RequestID)
      requires Valid()
      modifies this`postCutoffRequestIDs
      ensures Valid() && View() == old(View()).(postCutoff := old(View()).postCutoff + {id})
    {
      postCutoffRequestIDs := postCutoffRequestIDs + {id};
    }

    method HandleFrozenRequestExtra(id: RequestID, extra: RequestExtra)
      requires Valid() && limitErr.None?
      modifies this, Repr
      ensures Valid() && fresh(Repr - old(Repr))
      ensures View() == if HasCapturedRequest(old(View()), id) then OnRequestExtra(old(View()), id, extra)
              else QueueFrozenRequest(old(View()), id, extra)
    {
      var chain := CurrentChain(id);
      if chain != null { RequestExtraInfo(id, extra); } else { QueueFrozenRequestExtra(id, extra); }
    }

    method HandleFrozenResponseExtra(id: RequestID, extra: ResponseExtra, includeResponseBodies: bool)
      returns (tasks: seq<FetchTask>)
      requires Valid() && limitErr.None?
      modifies this, Repr
      ensures Valid() && fresh(Repr - old(Repr))
      ensures var (t, model) := if HasCapturedRequest(old(View()), id)
                                then ReadyBodyFetches(OnResponseExtra(old(View()), id, extra), id,
                                                      includeResponseBodies)
                                else (QueueFrozenResponse(old(View()), id, extra), []);
              View() == t && TasksResolve(tasks, model)
    {
      tasks := [];
      var chain := CurrentChain(id);
      if chain != null {
        ResponseExtraInfo(id, extra);
        tasks := ReadyBodyFetchTasks(id, includeResponseBodies);
      } else {
        QueueFrozenResponseExtra(id, extra);
      }
    }

    method HandleTimedEvent(event: Event, includeResponseBodies: bool) returns (tasks: seq<FetchTask>)
      requires Valid() && limitErr.None?
      modifies this, Repr
      ensures Valid() && fresh(Repr - old(Repr))
      ensures var (t, model) := if AfterCutoff(old(cutoffMono), event)
                                then (if event.RequestWillBeSent?
                                      then old(View()).(postCutoff := old(View()).postCutoff + {event.id})
                                           else old(View()), [])
                                else Process(old(View()), event, includeResponseBodies);
              View() == t && TasksResolve(tasks, model)
    {
      var timestamp := EventTimestamp(event);
      if timestamp.None? || cutoffMono == ZERO_TIME || timestamp.value > cutoffMono {
        tasks := [];
        if event.RequestWillBeSent? { RejectID(event.id); }
      } else {
        tasks := Dispatch(event, includeResponseBodies);
      }
    }

    method HandleEvent(event: Event, includeResponseBodies: bool) returns (tasks: seq<FetchTask>)
      requires Valid()
      modifies this, Repr
      ensures Valid() && fresh(Repr - old(Repr))
      ensures View() == RecorderModel.HandleEvent(old(View()), event, includeResponseBodies).0
      ensures TasksResolve(tasks, RecorderModel.HandleEvent(old(View()), event, includeResponseBodies).1)
    {
      tasks := [];
      if limitErr.Some? { return; }
      if !frozen {
        tasks := Dispatch(event, includeResponseBodies);
        return;
      }
      match event
      case RequestExtraInfo(id, extra) => HandleFrozenRequestExtra(id, extra);
      case ResponseExtraInfo(id, extra) => tasks := HandleFrozenResponseExtra(id, extra, includeResponseBodies);
      case ServedFromCache(_) =>
      case _ => tasks := HandleTimedEvent(event, includeResponseBodies);
    }

    method HandleBufferedEvent(event: Event, includeResponseBodies: bool) returns (tasks: seq<FetchTask>)
      requires Valid()
      modifies this, Repr
      ensures Valid() && fresh(Repr - old(Repr))
      ensures View() == RecorderModel.HandleBufferedEvent(old(View()), event, includeResponseBodies).0
      ensures TasksResolve(tasks, RecorderModel.HandleBufferedEvent(old(View()), event, includeResponseBodies).1)
    {
      tasks := [];
      if event.ServedFromCache? {
        if limitErr.Some? || event.id in postCutoffRequestIDs { return; }
        ServedFromCache(event.id);
      } else {
        tasks := HandleEvent(event, includeResponseBodies);
      }
    }

    // ----- Freezing, draining, bodies -----

    method ReconcileChain(id: RequestID)
      requires Valid() && id in chains
      modifies Repr
      ensures Valid() && Chains() == old(Chains())[id := Reconcile(old(Chains())[id])]
    {
      chains[id].ReconcileExtraInfo();
      ChainChanged(id);
    }

    method FinalizeQueuedExtraInfo()
      requires Valid()
      modifies Repr
      ensures Valid() && View() == ReconcileAll(old(View()))
    {
      ReconcileChains(Chains());
    }

    method ReconcileChains(ghost before: map<RequestID, Chain>)
      requires Valid() && Chains() == before
      modifies Repr
      ensures Valid() && Chains() == map k | k in before :: Reconcile(before[k])
    {
      var todo := chains.Keys;
      while todo != {}
        invariant Valid() && todo <= chains.Keys == before.Keys
        invariant forall k {:trigger Chains()[k]} :: k in before ==>
                    Chains()[k] == if k in todo then before[k] else Reconcile(before[k])
      {
        var id :| id in todo;
        ReconcileChain(id);
        todo := todo - {id};
      }
    }

    method SetFrozen(cutoff: Time)
      requires Valid()
      modifies this`frozen, this`cutoffMono
      ensures Valid() && View() == old(View()).(frozen := true, cutoff := cutoff)
    {
      frozen := true;
      cutoffMono := cutoff;
    }

    method FreezeAtMonotonic(cutoff: Time)
      requires Valid()
      modifies this`frozen, this`cutoffMono, Repr
      ensures Valid() && View() == FreezeAt(old(View()), cutoff)
    {
      SetFrozen(cutoff);
      FinalizeQueuedExtraInfo();
    }

    method SetCaptureError(message: string)
      requires Valid()
      modifies this`limitErr
      ensures Valid() && View() == Fail(old(View()), CaptureError(message))
    {
      SetLimitError(CaptureError(message));
    }

    method KeepBodyError(entry: CapturedEntry, message: string, ghost id: RequestID, ghost hop: nat)
      requires Valid() && ValidTask(View(), Task(id, hop)) && entry == chains[id].entries[hop]
      modifies Repr
      ensures Valid()
      ensures View() == WithHop(old(View()), Task(id, hop), HopOf(old(View()), Task(id, hop)).(bodyError := message))
    {
      entry.KeepBodyError(message);
      HopKept(id, hop);
    }

    method KeepBody(entry: CapturedEntry, body: Body, ghost id: RequestID, ghost hop: nat)
      requires Valid() && ValidTask(View(), Task(id, hop)) && entry == chains[id].entries[hop]
      modifies Repr
      ensures Valid()
      ensures View() == WithHop(old(View()), Task(id, hop), HopOf(old(View()), Task(id, hop)).(body := Some(body)))
    {
      entry.KeepBody(body);
      HopKept(id, hop);
    }

    twostate lemma HopKept(id: RequestID, new hop: nat)
      requires id in chains && old(Valid()) && OthersUntouched(id) && hop < |chains[id].entries|
      requires chains[id].entries[hop].extraInfoExpected ==> chains[id].entries[hop].extraInfoKnown
      requires unchanged(chains[id])
               && forall e: CapturedEntry :: e in old(Repr) && e != chains[id].entries[hop] ==> unchanged(e)
      ensures Valid()
              && Chains() == old(Chains())[id := ReplaceHop(old(Chains())[id], hop, chains[id].entries[hop].View())]
    {
      var chain := chains[id];
      forall i {:trigger chain.entries[i]} | 0 <= i < |chain.entries| && i != hop ensures unchanged(chain.entries[i]) {
        assert chain.entries[i] in chain.entries;
      }
      chain.HopChanged(hop);
      ChainChanged(id);
    }

    method SetResponseBody(task: FetchTask, outcome: FetchOutcome, ghost hop: nat)
      requires Valid() && ValidTask(View(), Task(task.requestID, hop))
               && task.entry == chains[task.requestID].entries[hop]
      modifies this`limitErr, this`retainedBytes, Repr
      ensures Valid() && View() == RecorderModel.SetResponseBody(old(View()), Task(task.requestID, hop), outcome)
    {
      match outcome
      case FetchFailed(message) => KeepBodyError(task.entry, message, task.requestID, hop);
      case Fetched(body) =>
        var granted := Reserve(body.text.bytes + DERIVED_ITEM_OVERHEAD);
        if granted {
          KeepBody(task.entry, body, task.requestID, hop);
        } else {
          KeepBodyError(task.entry, BODY_OMITTED_ERROR, task.requestID, hop);
        }
    }

    // Flag every archived entry whose extra info did not come.
    method MarkMissingExtraInfo()
      requires Valid() && RecorderOrder.EveryHopListed(View())
      modifies Repr
      ensures Valid() && View() == RecorderModel.MarkMissingExtraInfo(old(View()))
    {
      FinalizeQueuedExtraInfo();
      ReconcileKeepsListing(old(View()));
      FlagEntries();
    }

    // Every hop of every chain is on the archive list.
    ghost predicate HopsListed()
      reads this`chains, this`entries, this`Repr, Repr
      requires forall k :: k in chains ==> chains[k] in Repr
    {
      forall k, i {:trigger chains[k].entries[i]} :: k in chains && 0 <= i < |chains[k].entries| ==>
          chains[k].entries[i] in entries
    }

    lemma EveryEntryListed()
      requires Valid() && RecorderOrder.EveryHopListed(View())
      ensures HopsListed()
    {
      forall k, i {:trigger chains[k].entries[i]}
        | k in chains && 0 <= i < |chains[k].entries| ensures chains[k].entries[i] in entries {
        assert RecorderOrder.HopListed(View(), Task(k, i));
        var p := chains[k].entries[i].sequence - 1;
        assert View().chains[k].hops[i].sequence == p + 1 && order[p] == (k, i);
      }
    }

    method FlagListed()
      modifies entries`extraInfoIncomplete
      ensures forall e {:trigger e.extraInfoIncomplete} :: e in entries ==> e.extraInfoIncomplete == e.MissesExtraInfo()
    {
      var p := 0;
      while p < |entries|
        invariant 0 <= p <= |entries|
        invariant forall e {:trigger e.extraInfoIncomplete} :: e in entries[..p] ==>
                    e.extraInfoIncomplete == e.MissesExtraInfo()
      {
        entries[p].extraInfoIncomplete := entries[p].MissesExtraInfo();
        p := p + 1;
      }
      assert entries[..p] == entries;
    }

    method FlagEntries()
      requires Valid() && RecorderOrder.EveryHopListed(View())
      modifies Repr
      ensures Valid()
      ensures View() == old(View()).(chains := map id | id in old(View()).chains :: FlagMissing(old(View()).chains[id]))
    {
      EveryEntryListed();
      FlagListed();
      EntriesFlagged();
    }

    twostate lemma EntriesFlagged()
      requires old(Valid()) && old(HopsListed()) && chains == old(chains) && entries == old(entries)
               && order == old(order)
      requires sequence == old(sequence) && Repr == old(Repr)
      requires forall c: RequestChain :: c in old(Repr) ==> unchanged(c)
      requires forall e: CapturedEntry {:trigger e.View()} :: e in old(Repr) ==>
        e.View() == old(e.View()).(incomplete := if e in entries then e.MissesExtraInfo() else old(e.View()).incomplete)
      requires forall e: CapturedEntry {:trigger e.extraInfoExpected} :: e in old(Repr) ==>
        e.extraInfoExpected == old(e.extraInfoExpected) && e.extraInfoKnown == old(e.extraInfoKnown)
      ensures Valid() && Chains() == map id | id in old(Chains()) :: FlagMissing(old(Chains())[id])
    {
      forall k | k in chains ensures chains[k].Valid() && chains[k].View() == FlagMissing(old(chains[k].View())) {
        var c := chains[k];
        assert c in old(Repr);
        forall i | 0 <= i < |c.entries| ensures c.Hops()[i] == FlagMissing(old(c.View())).hops[i] {
          assert chains[k].entries[i] in entries && c.entries[i] in c.entries;
        }
      }
    }

    // Whether any listed entry lacks extra info.
    method SomeEntryMisses() returns (found: bool)
      requires Valid() && RecorderOrder.EveryHopListed(View())
      ensures found == SomeHopMisses(View())
    {
      EveryEntryListed();
      var p := 0;
      while p < |entries|
        invariant 0 <= p <= |entries|
        invariant forall q {:trigger entries[q]} :: 0 <= q < p ==> !entries[q].MissesExtraInfo()
      {
        if entries[p].MissesExtraInfo() {
          assert MissesExtraInfo(View().chains[order[p].0].hops[order[p].1]);
          return true;
        }
        p := p + 1;
      }
      assert forall k, i {:trigger chains[k].entries[i]} :: k in chains && 0 <= i < |chains[k].entries| ==>
                      !chains[k].entries[i].MissesExtraInfo();
      return false;
    }

    // Whether any chain has extras queued and no base request.
    method SomeChainStranded() returns (found: bool)
      requires Valid()
      ensures found == RecorderModel.SomeChainStranded(View())
    {
      var todo := chains.Keys;
      while todo != {}
        invariant todo <= chains.Keys
        invariant forall k {:trigger chains[k]} :: k in chains && k !in todo ==>
          |chains[k].entries| > 0 || (chains[k].pendingRequestExtra == [] && chains[k].pendingResponseExtra == [])
      {
        var k :| k in todo;
        var chain := chains[k];
        if |chain.entries| == 0 && (|chain.pendingRequestExtra| > 0 || |chain.pendingResponseExtra| > 0) {
          assert View().chains[k].hops == [];
          return true;
        }
        todo := todo - {k};
      }
      return false;
    }

    method ExtraInfoDrainNeeded() returns (needed: bool)
      requires Valid() && RecorderOrder.EveryHopListed(View())
      modifies Repr
      ensures Valid() && View() == ReconcileAll(old(View()))
      ensures needed == RecorderModel.ExtraInfoDrainNeeded(old(View()))
    {
      FinalizeQueuedExtraInfo();
      ReconcileKeepsListing(old(View()));
      needed := StillWaits();
    }

    method StillWaits() returns (waits: bool)
      requires Valid() && RecorderOrder.EveryHopListed(View())
      ensures waits == (frozenRequestExtras != map[] || frozenResponseExtras != map[]
                        || RecorderModel.SomeChainStranded(View()) || SomeHopMisses(View()))
    {
      if frozenRequestExtras != map[] || frozenResponseExtras != map[] { return true; }
      waits := SomeChainStranded();
      if waits { return; }
      waits := SomeEntryMisses();
    }

    // How many events had no base request.
    method OrphanExtraCount() returns (count: nat)
      requires Valid()
      ensures count == RecorderOrphans.OrphanExtraCount(View())
    {
      ghost var s := View();
      var stranded := CountStranded(RecorderOrphans.Stranded(s));
      var requests := CountQueued(frozenRequestExtras);
      var responses := CountQueued(frozenResponseExtras);
      count := requests + responses + stranded;
      assert count == RecorderOrphans.OrphanExtraCount(s);
    }

    method CountStranded(ghost stranded: map<RequestID, nat>) returns (count: nat)
      requires Valid() && stranded == RecorderOrphans.Stranded(View())
      ensures count == Total(stranded)
    {
      count := 0;
      var todo := chains.Keys;
      ghost var left := stranded;
      while todo != {}
        invariant todo <= chains.Keys && left == (map k | k in stranded && k in todo :: stranded[k])
        invariant count + Total(left) == Total(stranded)
      {
        var k :| k in todo;
        if |chains[k].entries| == 0 {
          TotalRemove(left, k);
          count := count + |chains[k].pendingRequestExtra| + |chains[k].pendingResponseExtra|;
          left := left - {k};
        }
        todo := todo - {k};
      }
    }
  }
}
