/** Captured entries and the redirect chains that own them, as objects that are
    updated in place. Each method is proved to compute its RecorderModel function
    of the object's value. */
module RequestChains {
  import opened Common
  import opened Lanes
  import opened RecorderModel

  class CapturedEntry {
    const sequence: nat
    const requestID: RequestID
    const request: Request
    const startedWall: Time
    const startedMono: Time
    var requestExtra: Option<RequestExtra>
    var response: Option<Response>
    var responseExtra: Option<ResponseExtra>
    var extraInfoKnown: bool
    var extraInfoExpected: bool
    var resourceType: string
    var lastEventMono: Time
    var responseMono: Time
    var finishedMono: Time
    var encodedDataLength: real
    var loadingFinished: bool
    var decodedBodyLength: int
    var encodedBodyLength: int
    var responseBody: Option<Body>
    var responseBodyError: string
    var bodyFetchScheduled: bool
    var servedFromCache: bool
    var failure: Option<Text>
    var terminalFailure: bool
    var extraInfoIncomplete: bool

    constructor (sequence: nat, event: Event, captureStart: Time)
      requires event.RequestWillBeSent? && event.request.Some?
      ensures View() == NewEntry(sequence, event, captureStart) && !extraInfoExpected
      ensures requestID == event.id
    {
      var at := MonotonicTime(event.timestamp);
      this.sequence, requestID, request, resourceType := sequence, event.id, event.request.value, event.resourceType;
      startedWall, startedMono, lastEventMono := event.wallTime.GetOr(captureStart), at, at;
      responseMono, finishedMono := ZERO_TIME, ZERO_TIME;
      requestExtra, response, responseExtra, responseBody, failure := None, None, None, None, None;
      extraInfoKnown, extraInfoExpected, extraInfoIncomplete := false, false, false;
      loadingFinished, bodyFetchScheduled, servedFromCache, terminalFailure := false, false, false, false;
      encodedDataLength, decodedBodyLength, encodedBodyLength, responseBodyError := 0.0, 0, 0, "";
    }

    function Expecting(): Expectation
      reads this`extraInfoKnown, this`extraInfoExpected
    {
      if !extraInfoKnown then Unknown else if extraInfoExpected then Expected else NotExpected
    }

    function View(): Entry
      reads this
    {
      Entry(sequence, requestID, request, requestExtra, response, responseExtra, Expecting(), resourceType,
            startedWall, startedMono, lastEventMono, responseMono, finishedMono,
            encodedDataLength, loadingFinished, decodedBodyLength, encodedBodyLength,
            responseBody, responseBodyError, bodyFetchScheduled, servedFromCache, failure, terminalFailure,
            extraInfoIncomplete)
    }

    function MissesExtraInfo(): bool
      reads this`extraInfoKnown, this`extraInfoExpected, this`requestExtra, this`responseExtra
    {
      !extraInfoKnown || (extraInfoExpected && (requestExtra.None? || responseExtra.None?))
    }

    method Answer(event: Event)
      requires event.ResponseReceived?
      modifies this`response, this`responseMono, this`lastEventMono, this`resourceType
      ensures View() == AnsweredHop(old(View()), event)
    {
      response := event.response;
      responseMono := MonotonicTime(event.timestamp);
      Observe(responseMono);
      if resourceType == "" { resourceType := event.resourceType; }
    }

    method Finish(event: Event)
      requires event.LoadingFinished?
      modifies this`finishedMono, this`lastEventMono, this`encodedDataLength, this`loadingFinished
      ensures View() == FinishedHop(old(View()), event)
    {
      finishedMono := MonotonicTime(event.timestamp);
      Observe(finishedMono);
      encodedDataLength := event.encodedDataLength;
      loadingFinished := true;
    }

    method FailLoading(event: Event)
      requires event.LoadingFailed?
      modifies this`finishedMono, this`lastEventMono, this`terminalFailure
      ensures View() == FailedHop(old(View()), event)
    {
      finishedMono := MonotonicTime(event.timestamp);
      Observe(finishedMono);
      terminalFailure := true;
    }

    method Measure(event: Event)
      requires event.DataReceived?
      modifies this`lastEventMono, this`decodedBodyLength, this`encodedBodyLength
      ensures View() == MeasuredHop(old(View()), event)
    {
      Observe(MonotonicTime(event.timestamp));
      if event.dataLength > 0 { decodedBodyLength := decodedBodyLength + event.dataLength; }
      if event.encodedLength > 0 { encodedBodyLength := encodedBodyLength + event.encodedLength; }
    }

    method CloseForRedirect(redirect: Response, at: Time, bodies: bool)
      modifies this`response, this`finishedMono, this`encodedDataLength, this`loadingFinished, this`bodyFetchScheduled,
               this`responseBodyError
      ensures View() == ClosedHop(old(View()), redirect, at, bodies)
    {
      if response.None? { response := Some(redirect); }
      if finishedMono == ZERO_TIME { finishedMono := at; }
      encodedDataLength := redirect.encodedDataLength;
      loadingFinished := true;
      assert View() == RedirectedHop(old(View()), redirect, at);
      if bodies { SkipRedirectBody(); }
    }

    method SkipRedirectBody()
      modifies this`bodyFetchScheduled, this`responseBodyError
      ensures View() == WithoutRedirectBody(old(View()))
    {
      bodyFetchScheduled := true;
      if !HasNoResponseBody(View()) { responseBodyError := REDIRECT_BODY_ERROR; }
    }

    method KeepBody(body: Body)
      modifies this`responseBody
      ensures View() == old(View()).(body := Some(body))
    {
      responseBody := Some(body);
    }

    method KeepBodyError(message: string)
      modifies this`responseBodyError
      ensures View() == old(View()).(bodyError := message)
    {
      responseBodyError := message;
    }

    // Schedule this entry's body if it is due; report whether to fetch it.
    method ScheduleBodyFetch() returns (fetch: bool)
      requires extraInfoExpected ==> extraInfoKnown
      modifies this`bodyFetchScheduled
      ensures View() == Marked(old(View()))
      ensures fetch == (Due(old(View())) && !HasNoResponseBody(old(View())))
    {
      fetch := false;
      if bodyFetchScheduled || !loadingFinished || response.None? { return; }
      if extraInfoExpected && responseExtra.None? { return; }
      bodyFetchScheduled := true;
      fetch := !HasNoResponseBody(View());
    }

    method Observe(value: Time)
      modifies this`lastEventMono
      ensures lastEventMono == RecorderModel.Observe(old(lastEventMono), value)
    {
      if value != ZERO_TIME && (lastEventMono == ZERO_TIME || value > lastEventMono) {
        lastEventMono := value;
      }
    }
  }

  datatype FetchTask = FetchTask(requestID: RequestID, entry: CapturedEntry)

  // The worker tasks are the model's tasks, with hops resolved to objects.
  ghost predicate Resolves(tasks: seq<FetchTask>, model: seq<Task>, entries: seq<CapturedEntry>) {
    && |tasks| == |model|
    && forall j {:trigger tasks[j]} {:trigger model[j]} :: 0 <= j < |tasks| ==>
         model[j].hop < |entries| && tasks[j] == FetchTask(model[j].id, entries[model[j].hop])
  }

  class RequestChain {
    var entries: seq<CapturedEntry>
    var pendingRequestExtra: seq<RequestExtra>
    var pendingResponseExtra: seq<ResponseExtra>
    ghost const id: RequestID

    constructor (ghost id: RequestID)
      ensures Valid() && View() == EMPTY_CHAIN && entries == [] && this.id == id
    {
      this.id := id;
      entries, pendingRequestExtra, pendingResponseExtra := [], [], [];
    }

    ghost predicate Distinct()
      reads this`entries
    {
      forall i, j {:trigger entries[i], entries[j]} :: 0 <= i < j < |entries| ==> entries[i] != entries[j]
    }

    // The hops are distinct objects, all of this chain's request ID.
    ghost predicate Valid()
      reads this, entries
    {
      && Distinct()
      && (forall i {:trigger entries[i]} :: 0 <= i < |entries| ==>
          entries[i].requestID == id && (entries[i].extraInfoExpected ==> entries[i].extraInfoKnown))
    }

    function Hops(): (r: seq<Entry>)
      reads this, entries
      ensures |r| == |entries|
    {
      seq(|entries|, i requires 0 <= i < |entries| reads this, entries => entries[i].View())
    }

    function View(): Chain
      reads this, entries
    {
      Chain(Hops(), pendingRequestExtra, pendingResponseExtra)
    }

    // Attach queued extras to the hops that expect them, oldest first.
    method ReconcileExtraInfo()
      requires Valid()
      modifies this`pendingRequestExtra, this`pendingResponseExtra, entries`requestExtra, entries`responseExtra
      ensures Valid() && View() == Reconcile(old(View()))
    {
      ghost var c := View();
      assert forall i {:trigger entries[i]} :: 0 <= i < |entries| ==>
        Gates(c.hops)[i] == entries[i].Expecting()
        && RequestLane(c).held[i] == entries[i].requestExtra && ResponseLane(c).held[i] == entries[i].responseExtra;
      AttachExtras(Gates(c.hops), RequestLane(c), ResponseLane(c));
      ReconciledView(c);
    }

    method AttachExtras(ghost gates: seq<Expectation>, ghost request: Lane<RequestExtra>,
                        ghost response: Lane<ResponseExtra>)
      requires Distinct() && |gates| == |request.held| == |response.held| == |entries|
      requires request.pending == pendingRequestExtra && response.pending == pendingResponseExtra
      requires forall i {:trigger entries[i]} :: 0 <= i < |entries| ==>
                 (entries[i].Expecting() == gates[i] && entries[i].requestExtra == request.held[i]
                  && entries[i].responseExtra == response.held[i])
      modifies this`pendingRequestExtra, this`pendingResponseExtra, entries`requestExtra, entries`responseExtra
      ensures pendingRequestExtra == Fill(gates, request).pending
              && pendingResponseExtra == Fill(gates, response).pending
      ensures forall i {:trigger entries[i]} :: 0 <= i < |entries| ==>
                OnlyExtrasChanged(entries[i])
                && entries[i].requestExtra == Fill(gates, request).held[i]
                && entries[i].responseExtra == Fill(gates, response).held[i]
    {
      AttachRequestExtras(gates, request);
      AttachResponseExtras(gates, response);
    }

    twostate predicate OnlyExtrasChanged(entry: CapturedEntry)
      reads entry
    {
      entry.View() == old(entry.View()).(requestExtra := entry.requestExtra, responseExtra := entry.responseExtra)
    }

    twostate lemma ReconciledView(c: Chain)
      requires c == old(View()) && entries == old(entries)
      requires forall i {:trigger entries[i]} :: 0 <= i < |entries| ==>
                 && OnlyExtrasChanged(entries[i])
                 && entries[i].requestExtra == Fill(Gates(c.hops), RequestLane(c)).held[i]
                 && entries[i].responseExtra == Fill(Gates(c.hops), ResponseLane(c)).held[i]
      requires pendingRequestExtra == Fill(Gates(c.hops), RequestLane(c)).pending
      requires pendingResponseExtra == Fill(Gates(c.hops), ResponseLane(c)).pending
      ensures View() == Reconcile(c)
    {
      forall i | 0 <= i < |entries| ensures Hops()[i] == Reconcile(c).hops[i] {
        assert c.hops[i] == old(entries[i].View());
      }
    }

    method AttachRequestExtras(ghost gates: seq<Expectation>, ghost lane: Lane<RequestExtra>)
      requires Distinct() && |gates| == |lane.held| == |entries| && lane.pending == pendingRequestExtra
      requires forall i {:trigger entries[i]} :: 0 <= i < |entries| ==>
                 entries[i].Expecting() == gates[i] && entries[i].requestExtra == lane.held[i]
      modifies this`pendingRequestExtra, entries`requestExtra
      ensures pendingRequestExtra == Fill(gates, lane).pending
      ensures forall i {:trigger entries[i]} :: 0 <= i < |entries| ==>
                entries[i].requestExtra == Fill(gates, lane).held[i]
    {
      ghost var goal, now := Fill(gates, lane), lane;
      FillFromStart(gates, lane);
      var i := 0;
      while i < |entries|
        invariant 0 <= i <= |entries| == |now.held| && now.pending == pendingRequestExtra
        invariant forall j {:trigger entries[j]} :: 0 <= j < |entries| ==> entries[j].requestExtra == now.held[j]
        invariant FillFrom(gates, now, i) == goal
      {
        var entry := entries[i];
        if !entry.extraInfoKnown {
          FillFromStops(gates, now, i);
          return;
        }
        if entry.extraInfoExpected && entry.requestExtra.None? {
          if |pendingRequestExtra| == 0 {
            FillFromStops(gates, now, i);
            return;
          }
          FillFromAttaches(gates, now, i);
          entry.requestExtra := Some(pendingRequestExtra[0]);
          pendingRequestExtra := pendingRequestExtra[1..];
          now := Lane(now.held[i := Some(now.pending[0])], now.pending[1..]);
        } else {
          FillFromPasses(gates, now, i);
        }
        i := i + 1;
      }
      FillFromStart(gates, now);
    }

    method AttachResponseExtras(ghost gates: seq<Expectation>, ghost lane: Lane<ResponseExtra>)
      requires Distinct() && |gates| == |lane.held| == |entries| && lane.pending == pendingResponseExtra
      requires forall i {:trigger entries[i]} :: 0 <= i < |entries| ==>
                 entries[i].Expecting() == gates[i] && entries[i].responseExtra == lane.held[i]
      modifies this`pendingResponseExtra, entries`responseExtra
      ensures pendingResponseExtra == Fill(gates, lane).pending
      ensures forall i {:trigger entries[i]} :: 0 <= i < |entries| ==>
                entries[i].responseExtra == Fill(gates, lane).held[i]
    {
      ghost var goal, now := Fill(gates, lane), lane;
      FillFromStart(gates, lane);
      var i := 0;
      while i < |entries|
        invariant 0 <= i <= |entries| == |now.held| && now.pending == pendingResponseExtra
        invariant forall j {:trigger entries[j]} :: 0 <= j < |entries| ==> entries[j].responseExtra == now.held[j]
        invariant FillFrom(gates, now, i) == goal
      {
        var entry := entries[i];
        if !entry.extraInfoKnown {
          FillFromStops(gates, now, i);
          return;
        }
        if entry.extraInfoExpected && entry.responseExtra.None? {
          if |pendingResponseExtra| == 0 {
            FillFromStops(gates, now, i);
            return;
          }
          FillFromAttaches(gates, now, i);
          entry.responseExtra := Some(pendingResponseExtra[0]);
          pendingResponseExtra := pendingResponseExtra[1..];
          now := Lane(now.held[i := Some(now.pending[0])], now.pending[1..]);
        } else {
          FillFromPasses(gates, now, i);
        }
        i := i + 1;
      }
      FillFromStart(gates, now);
    }

    // `entry` is the newest hop of the chain.
    method SetExtraInfoExpectation(entry: CapturedEntry, expected: bool)
      requires Valid() && entries != [] && entry == entries[|entries| - 1]
      modifies this`pendingRequestExtra, this`pendingResponseExtra, entries
      ensures Valid() && View() == ExpectLast(old(View()), expected)
    {
      ghost var c := View();
      entry.extraInfoKnown := true;
      entry.extraInfoExpected := expected;
      assert View() == WithLast(c, Last(c).(expectation := if expected then Expected else NotExpected));
      ReconcileExtraInfo();
    }

    // The newest hop is the only one that has changed.
    twostate lemma LastChanged()
      requires old(Valid()) && entries == old(entries) != [] && unchanged(`pendingRequestExtra)
               && unchanged(`pendingResponseExtra)
      requires forall i {:trigger entries[i]} :: 0 <= i < |entries| - 1 ==> entries[i].View() == old(entries[i].View())
      ensures View() == WithLast(old(View()), entries[|entries| - 1].View())
    {
    }

    method Answer(event: Event)
      requires Valid() && entries != [] && event.ResponseReceived?
      modifies entries
      ensures Valid() && View() == WithLast(old(View()), AnsweredHop(Last(old(View())), event))
    {
      entries[|entries| - 1].Answer(event);
      LastChanged();
    }

    method Finish(event: Event)
      requires Valid() && entries != [] && event.LoadingFinished?
      modifies entries
      ensures Valid() && View() == WithLast(old(View()), FinishedHop(Last(old(View())), event))
    {
      entries[|entries| - 1].Finish(event);
      LastChanged();
    }

    method FailLoading(event: Event)
      requires Valid() && entries != [] && event.LoadingFailed?
      modifies entries
      ensures Valid() && View() == WithLast(old(View()), FailedHop(Last(old(View())), event))
    {
      entries[|entries| - 1].FailLoading(event);
      LastChanged();
    }

    method Measure(event: Event)
      requires Valid() && entries != [] && event.DataReceived?
      modifies entries
      ensures Valid() && View() == WithLast(old(View()), MeasuredHop(Last(old(View())), event))
    {
      entries[|entries| - 1].Measure(event);
      LastChanged();
    }

    method MarkServedFromCache()
      requires Valid() && entries != []
      modifies entries`servedFromCache
      ensures Valid() && View() == WithLast(old(View()), Last(old(View())).(servedFromCache := true))
    {
      entries[|entries| - 1].servedFromCache := true;
      LastChanged();
    }

    method KeepBody(hop: nat, body: Body)
      requires Valid() && hop < |entries|
      modifies entries`responseBody
      ensures Valid() && View() == ReplaceHop(old(View()), hop, old(View()).hops[hop].(body := Some(body)))
    {
      entries[hop].KeepBody(body);
      HopChanged(hop);
    }

    method KeepBodyError(hop: nat, message: string)
      requires Valid() && hop < |entries|
      modifies entries`responseBodyError
      ensures Valid() && View() == ReplaceHop(old(View()), hop, old(View()).hops[hop].(bodyError := message))
    {
      entries[hop].KeepBodyError(message);
      HopChanged(hop);
    }

    twostate lemma HopChanged(hop: nat)
      requires old(Valid()) && entries == old(entries) && hop < |entries| && unchanged(`pendingRequestExtra)
               && unchanged(`pendingResponseExtra)
      requires forall i {:trigger entries[i]} :: 0 <= i < |entries| && i != hop ==>
                 entries[i].View() == old(entries[i].View())
      ensures View() == ReplaceHop(old(View()), hop, entries[hop].View())
    {
      assert Hops() == old(Hops())[hop := entries[hop].View()];
    }

    method CloseForRedirect(redirect: Response, at: Time, bodies: bool)
      requires Valid() && entries != []
      modifies entries
      ensures Valid() && View() == WithLast(old(View()), ClosedHop(Last(old(View())), redirect, at, bodies))
    {
      entries[|entries| - 1].CloseForRedirect(redirect, at, bodies);
      LastChanged();
    }

    method AnswerAndExpect(event: Event)
      requires Valid() && entries != [] && event.ResponseReceived?
      modifies this`pendingRequestExtra, this`pendingResponseExtra, entries
      ensures Valid()
              && View() == ExpectLast(WithLast(old(View()), AnsweredHop(Last(old(View())), event)), event.hasExtraInfo)
    {
      Answer(event);
      SetExtraInfoExpectation(entries[|entries| - 1], event.hasExtraInfo);
    }

    method CloseAndExpect(redirect: Response, hasExtraInfo: bool, at: Time, bodies: bool)
      requires Valid() && entries != []
      modifies this`pendingRequestExtra, this`pendingResponseExtra, entries
      ensures Valid()
              && View()
                 == ExpectLast(WithLast(old(View()), ClosedHop(Last(old(View())), redirect, at, bodies)), hasExtraInfo)
    {
      CloseForRedirect(redirect, at, bodies);
      SetExtraInfoExpectation(entries[|entries| - 1], hasExtraInfo);
    }

    method TakeOver(requests: seq<RequestExtra>, responses: seq<ResponseExtra>)
      requires Valid()
      modifies this`pendingRequestExtra, this`pendingResponseExtra
      ensures Valid()
      ensures var c := old(View());
              View()
                == c.(pendingRequest := c.pendingRequest + requests, pendingResponse := c.pendingResponse + responses)
    {
      pendingRequestExtra := pendingRequestExtra + requests;
      pendingResponseExtra := pendingResponseExtra + responses;
    }

    method Append(entry: CapturedEntry)
      requires Valid() && entry !in entries && entry.requestID == id && !entry.extraInfoExpected
      modifies this`entries
      ensures Valid() && entries == old(entries) + [entry]
              && View() == old(View()).(hops := old(View()).hops + [entry.View()])
    {
      entries := entries + [entry];
      assert Hops() == old(Hops()) + [entry.View()];
    }

    method ExplainFailure(failure: Text)
      requires Valid() && entries != []
      modifies this`pendingRequestExtra, this`pendingResponseExtra, entries
      ensures Valid() && View() == RecorderModel.ExplainFailure(old(View()), failure)
    {
      var entry := entries[|entries| - 1];
      entry.failure := Some(failure);
      LastChanged();
      if !entry.extraInfoKnown && (|pendingRequestExtra| > 0 || |pendingResponseExtra| > 0) {
        SetExtraInfoExpectation(entry, true);
      }
    }

    // A queued extra announces itself to a hop whose load has failed.
    method SettleQueuedExtras()
      requires Valid()
      modifies this`pendingRequestExtra, this`pendingResponseExtra, entries
      ensures Valid() && View() == SettleQueued(old(View()))
    {
      if |entries| > 0 && entries[|entries| - 1].terminalFailure && !entries[|entries| - 1].extraInfoKnown {
        SetExtraInfoExpectation(entries[|entries| - 1], true);
      } else {
        ReconcileExtraInfo();
      }
    }

    method QueueRequestExtra(extra: RequestExtra)
      requires Valid()
      modifies this`pendingRequestExtra, this`pendingResponseExtra, entries
      ensures Valid() && View() == WithRequestExtra(old(View()), extra)
    {
      pendingRequestExtra := pendingRequestExtra + [extra];
      assert View() == old(View()).(pendingRequest := pendingRequestExtra);
      SettleQueuedExtras();
    }

    method QueueResponseExtra(extra: ResponseExtra)
      requires Valid()
      modifies this`pendingRequestExtra, this`pendingResponseExtra, entries
      ensures Valid() && View() == WithResponseExtra(old(View()), extra)
    {
      pendingResponseExtra := pendingResponseExtra + [extra];
      assert View() == old(View()).(pendingResponse := pendingResponseExtra);
      SettleQueuedExtras();
    }

    // Schedule the bodies that are due, each once.
    method ReadyBodyFetchTasks() returns (tasks: seq<FetchTask>)
      requires Valid()
      modifies entries`bodyFetchScheduled
      ensures Valid() && View() == MarkDue(old(View()))
      ensures Resolves(tasks, DueTasks(id, old(View()).hops), entries)
    {
      ghost var c := View();
      tasks := ScheduleDue(c.hops);
      assert Hops() == MarkDue(c).hops;
    }

    method ScheduleDue(ghost hops: seq<Entry>) returns (tasks: seq<FetchTask>)
      requires Valid() && |hops| == |entries|
               && forall j {:trigger entries[j]} :: 0 <= j < |entries| ==> entries[j].View() == hops[j]
      modifies entries`bodyFetchScheduled
      ensures forall j {:trigger entries[j]} :: 0 <= j < |entries| ==> entries[j].View() == Marked(hops[j])
      ensures Resolves(tasks, DueTasks(id, hops), entries)
    {
      tasks := [];
      var i := 0;
      while i < |entries|
        invariant 0 <= i <= |entries|
        invariant forall j {:trigger entries[j]} :: 0 <= j < |entries| ==>
                    entries[j].View() == if j < i then Marked(hops[j]) else hops[j]
        invariant Resolves(tasks, DueTasks(id, hops[..i]), entries)
      {
        assert hops[..i + 1][..i] == hops[..i];
        var fetch := entries[i].ScheduleBodyFetch();
        tasks := if fetch then tasks + [FetchTask(entries[i].requestID, entries[i])] else tasks;
        i := i + 1;
      }
      assert hops[..i] == hops;
    }
  }
}
