/** Response bodies: over a whole run no hop is handed to a worker twice, and
    with bodies on no finished hop is ever forgotten. */
module RecorderBodies {
  import opened Common
  import opened Lanes
  import opened RecorderModel
  import opened RecorderRuns

  function TaskLog(s: State, actions: seq<Action>): seq<Task> {
    if actions == [] then []
    else
      var before := actions[..|actions| - 1];
      TaskLog(s, before) + Do(Run(s, before), actions[|actions| - 1]).1
  }

  ghost predicate NoDuplicates(tasks: seq<Task>) {
    forall i, j :: 0 <= i < j < |tasks| ==> tasks[i] != tasks[j]
  }

  predicate IsScheduled(s: State, task: Task) {
    ValidTask(s, task) && s.chains[task.id].hops[task.hop].bodyFetchScheduled
  }

  // What never changes about a hop, and that a scheduled fetch stays scheduled.
  predicate HopEvolves(e: Entry, f: Entry) {
    && f.sequence == e.sequence && f.id == e.id && f.request == e.request && f.startedMono == e.startedMono
    && (e.bodyFetchScheduled ==> f.bodyFetchScheduled)
  }

  // Hops are never removed.
  ghost predicate Evolves(c: Chain, d: Chain) {
    |c.hops| <= |d.hops| && forall i {:trigger d.hops[i]} :: 0 <= i < |c.hops| ==> HopEvolves(c.hops[i], d.hops[i])
  }

  lemma EvolvesThen(c: Chain, d: Chain, e: Chain)
    requires Evolves(c, d) && Evolves(d, e)
    ensures Evolves(c, e)
  {
  }

  lemma {:induction false} DueTasksProperties(id: RequestID, hops: seq<Entry>)
    ensures forall task :: task in DueTasks(id, hops)
              <==> task.id == id && task.hop < |hops| && Due(hops[task.hop]) && !HasNoResponseBody(hops[task.hop])
    ensures NoDuplicates(DueTasks(id, hops))
  {
    if hops != [] {
      var n := |hops| - 1;
      DueTasksProperties(id, hops[..n]);
      assert forall i :: 0 <= i < n ==> hops[..n][i] == hops[i];
    }
  }

  // ----- The chain operations keep what is scheduled -----

  lemma ReconcileEvolves(c: Chain)
    ensures Evolves(c, Reconcile(c))
  {
  }

  lemma WithLastEvolves(c: Chain, e: Entry)
    requires c.hops != [] && HopEvolves(Last(c), e)
    ensures Evolves(c, WithLast(c, e))
  {
  }

  lemma ExpectLastEvolves(c: Chain, e: Entry, expected: bool)
    requires c.hops != [] && HopEvolves(Last(c), e)
    ensures Evolves(c, ExpectLast(WithLast(c, e), expected))
  {
    var d := WithLast(c, e);
    WithLastEvolves(c, e);
    var known := Last(d).(expectation := if expected then Expected else NotExpected);
    WithLastEvolves(d, known);
    ReconcileEvolves(WithLast(d, known));
    EvolvesThen(c, d, WithLast(d, known));
    EvolvesThen(c, WithLast(d, known), ExpectLast(d, expected));
  }

  lemma SettleQueuedEvolves(c: Chain, d: Chain)
    requires d.hops == c.hops
    ensures Evolves(c, SettleQueued(d))
  {
    if d.hops != [] {
      assert WithLast(d, Last(d)) == d;
      ExpectLastEvolves(d, Last(d), true);
    }
    ReconcileEvolves(d);
  }

  lemma ExplainFailureEvolves(c: Chain, text: Text)
    requires c.hops != []
    ensures Evolves(c, ExplainFailure(c, text))
  {
    WithLastEvolves(c, Last(c).(failure := Some(text)));
    ExpectLastEvolves(c, Last(c).(failure := Some(text)), true);
  }

  lemma MarkDueEvolves(c: Chain)
    ensures Evolves(c, MarkDue(c))
  {
  }

  // ----- One handler, at the ID of its event -----

  lemma OnRequestWillBeSentEvolves(s: State, e: Event, bodies: bool)
    requires e.RequestWillBeSent?
    ensures Evolves(ChainOf(s, e.id), ChainOf(OnRequestWillBeSent(s, e, bodies), e.id))
  {
    if e.request.Some? && e.request.value.isHTTP {
      var s0 := s.(postCutoff := s.postCutoff - {e.id});
      if !HasCapturedRequest(s0, e.id) {
        assert ChainOf(s, e.id).hops == [];
      } else if e.redirectResponse.Some? {
        FollowRedirectEvolves(s0, e, bodies);
      }
    }
  }

  lemma FollowRedirectEvolves(s: State, e: Event, bodies: bool)
    requires e.RequestWillBeSent? && e.request.Some? && e.redirectResponse.Some? && HasCapturedRequest(s, e.id)
    ensures Evolves(ChainOf(s, e.id), ChainOf(FollowRedirect(s, e, bodies), e.id))
  {
    var at := MonotonicTime(e.timestamp);
    var (s1, closed) := CloseRedirect(s, e.id, e.redirectResponse.value, e.redirectHasExtraInfo, at, bodies);
    CloseRedirectEffect(s, e.id, e.redirectResponse.value, e.redirectHasExtraInfo, at, bodies);
    var c := ChainOf(s, e.id);
    if closed {
      ExpectLastEvolves(c, ClosedHop(Last(c), e.redirectResponse.value, at, bodies), e.redirectHasExtraInfo);
      AppendHopEffect(s1, e);
      EvolvesThen(c, ChainOf(s1, e.id), ChainOf(FollowRedirect(s, e, bodies), e.id));
    }
  }

  lemma OnResponseReceivedEvolves(s: State, e: Event)
    requires e.ResponseReceived?
    ensures Evolves(ChainOf(s, e.id), ChainOf(OnResponseReceived(s, e), e.id))
  {
    OnResponseReceivedEffect(s, e);
    var c := ChainOf(s, e.id);
    if c.hops != [] { ExpectLastEvolves(c, AnsweredHop(Last(c), e), e.hasExtraInfo); }
  }

  lemma OnLoadingFailedEvolves(s: State, e: Event)
    requires e.LoadingFailed?
    ensures Evolves(ChainOf(s, e.id), ChainOf(OnLoadingFailed(s, e), e.id))
  {
    OnLoadingFailedEffect(s, e);
    var c := ChainOf(s, e.id);
    if c.hops != [] {
      var failed := WithLast(c, FailedHop(Last(c), e));
      WithLastEvolves(c, FailedHop(Last(c), e));
      if ChainOf(OnLoadingFailed(s, e), e.id) != failed {
        var text :| ChainOf(OnLoadingFailed(s, e), e.id) == ExplainFailure(failed, text);
        ExplainFailureEvolves(failed, text);
        EvolvesThen(c, failed, ExplainFailure(failed, text));
      }
    }
  }

  // ----- One call -----

  // What one call may do about the fetch of one hop.
  ghost predicate FetchStep(s: State, t: State, tasks: seq<Task>, task: Task) {
    && Evolves(ChainOf(s, task.id), ChainOf(t, task.id))
    && (task in tasks ==> !IsScheduled(s, task) && IsScheduled(t, task))
    && NoDuplicates(tasks)
  }

  lemma SameAtFetch(s: State, t: State, task: Task)
    requires SameAt(s, t, task.id)
    ensures FetchStep(s, t, [], task)
  {
    assert ChainOf(t, task.id) == ChainOf(s, task.id);
  }

  lemma EvolvesFetch(s: State, t: State, task: Task)
    requires Evolves(ChainOf(s, task.id), ChainOf(t, task.id))
    ensures FetchStep(s, t, [], task)
  {
  }

  lemma ReadyFetch(s: State, s1: State, id: RequestID, bodies: bool, task: Task)
    requires FetchStep(s, s1, [], task)
    ensures var (t, tasks) := ReadyBodyFetches(s1, id, bodies); FetchStep(s, t, tasks, task)
  {
    if bodies && id in s1.chains {
      DueTasksProperties(id, s1.chains[id].hops);
      MarkDueEvolves(s1.chains[id]);
      var (t, tasks) := ReadyBodyFetches(s1, id, bodies);
      EvolvesThen(ChainOf(s, task.id), ChainOf(s1, task.id), ChainOf(t, task.id));
    }
  }

  lemma ProcessFetch(s: State, e: Event, bodies: bool, task: Task)
    ensures var (t, tasks) := Process(s, e, bodies); FetchStep(s, t, tasks, task)
  {
    var (t, tasks) := Process(s, e, bodies);
    if e.DomContentEventFired? || e.LoadEventFired? {
      SameAtFetch(s, t, task);
    } else if MayFetch(e) {
      ReadyEventFetch(s, e, bodies, task);
    } else if e.id != task.id {
      ProcessElsewhere(s, e, bodies, task.id);
      SameAtFetch(s, t, task);
    } else {
      var c := ChainOf(s, e.id);
      match e
      case RequestWillBeSent(_, _, _, _, _, _, _) => OnRequestWillBeSentEvolves(s, e, bodies); EvolvesFetch(s, t, task);
      case RequestExtraInfo(id, extra) => OnRequestExtraFetch(s, id, extra, task);
      case LoadingFailed(_, _, _, _) => OnLoadingFailedEvolves(s, e); EvolvesFetch(s, t, task);
      case DataReceived(_, _, _, _) =>
        if c.hops != [] { WithLastEvolves(c, MeasuredHop(Last(c), e)); }
        EvolvesFetch(s, t, task);
      case ServedFromCache(_) =>
        if c.hops != [] { WithLastEvolves(c, Last(c).(servedFromCache := true)); }
        EvolvesFetch(s, t, task);
    }
  }

  lemma OnRequestExtraFetch(s: State, id: RequestID, extra: RequestExtra, task: Task)
    ensures FetchStep(s, OnRequestExtra(s, id, extra), [], task)
  {
    var c, t := ChainOf(s, id), OnRequestExtra(s, id, extra);
    OnRequestExtraEffect(s, id, extra);
    if id != task.id {
      OnlyChainElsewhere(s, t, id, task.id);
      SameAtFetch(s, t, task);
    } else {
      SettleQueuedEvolves(c, c.(pendingRequest := c.pendingRequest + [extra]));
      EvolvesFetch(s, t, task);
    }
  }

  lemma OnResponseExtraFetch(s: State, id: RequestID, extra: ResponseExtra, task: Task)
    ensures FetchStep(s, OnResponseExtra(s, id, extra), [], task)
  {
    var c, t := ChainOf(s, id), OnResponseExtra(s, id, extra);
    OnResponseExtraEffect(s, id, extra);
    if id != task.id {
      OnlyChainElsewhere(s, t, id, task.id);
      SameAtFetch(s, t, task);
    } else {
      SettleQueuedEvolves(c, c.(pendingResponse := c.pendingResponse + [extra]));
      EvolvesFetch(s, t, task);
    }
  }

  lemma OnResponseReceivedFetch(s: State, e: Event, task: Task)
    requires e.ResponseReceived?
    ensures FetchStep(s, OnResponseReceived(s, e), [], task)
  {
    var t := OnResponseReceived(s, e);
    if e.id != task.id {
      OnResponseReceivedEffect(s, e);
      OnlyChainElsewhere(s, t, e.id, task.id);
      SameAtFetch(s, t, task);
    } else {
      OnResponseReceivedEvolves(s, e);
      EvolvesFetch(s, t, task);
    }
  }

  lemma OnLoadingFinishedFetch(s: State, e: Event, task: Task)
    requires e.LoadingFinished?
    ensures FetchStep(s, OnLoadingFinished(s, e), [], task)
  {
    var c, t := ChainOf(s, e.id), OnLoadingFinished(s, e);
    if e.id != task.id {
      OnlyChainElsewhere(s, t, e.id, task.id);
      SameAtFetch(s, t, task);
    } else {
      if c.hops != [] { WithLastEvolves(c, FinishedHop(Last(c), e)); }
      EvolvesFetch(s, t, task);
    }
  }

  lemma ReadyEventFetch(s: State, e: Event, bodies: bool, task: Task)
    requires MayFetch(e)
    ensures var (t, tasks) := Process(s, e, bodies); FetchStep(s, t, tasks, task)
  {
    if e.ResponseReceived? {
      OnResponseReceivedFetch(s, e, task);
      ReadyFetch(s, OnResponseReceived(s, e), e.id, bodies, task);
    } else if e.LoadingFinished? {
      OnLoadingFinishedFetch(s, e, task);
      ReadyFetch(s, OnLoadingFinished(s, e), e.id, bodies, task);
    } else {
      OnResponseExtraFetch(s, e.id, e.responseExtra, task);
      ReadyFetch(s, OnResponseExtra(s, e.id, e.responseExtra), e.id, bodies, task);
    }
  }

  lemma HandleFetch(s: State, e: Event, bodies: bool, task: Task)
    ensures var (t, tasks) := HandleEvent(s, e, bodies); FetchStep(s, t, tasks, task)
  {
    var (t, tasks) := HandleEvent(s, e, bodies);
    if s.limitErr.Some? {
      SameAtFetch(s, t, task);
    } else if s.frozen && e.RequestExtraInfo? {
      QueueFrozenRequestEffect(s, e.id, e.requestExtra);
      OnRequestExtraFetch(s, e.id, e.requestExtra, task);
      EvolvesFetch(s, QueueFrozenRequest(s, e.id, e.requestExtra), task);
    } else if s.frozen && e.ResponseExtraInfo? {
      QueueFrozenResponseEffect(s, e.id, e.responseExtra);
      ReadyEventFetch(s, e, bodies, task);
      EvolvesFetch(s, QueueFrozenResponse(s, e.id, e.responseExtra), task);
    } else if s.frozen && (e.ServedFromCache? || AfterCutoff(s.cutoff, e)) {
      EvolvesFetch(s, t, task);
    } else {
      ProcessFetch(s, e, bodies, task);
    }
  }

  lemma AnswerBodyEvolves(s: State, answered: Task, outcome: FetchOutcome, task: Task)
    ensures Evolves(ChainOf(s, task.id), ChainOf(Do(s, AnswerBody(answered, outcome)).0, task.id))
  {
    if ValidTask(s, answered) { SetResponseBodyEffect(s, answered, outcome); }
  }

  lemma DoFetch(s: State, a: Action, task: Task)
    ensures var (t, tasks) := Do(s, a); FetchStep(s, t, tasks, task)
  {
    var t := Do(s, a).0;
    var c, d := ChainOf(s, task.id), ChainOf(t, task.id);
    match a
    case Handle(event, bodies) => HandleFetch(s, event, bodies, task);
    case HandleBuffered(event, bodies) =>
      if event.ServedFromCache? {
        if t != s { ProcessFetch(s, event, bodies, task); } else { EvolvesFetch(s, t, task); }
      } else {
        HandleFetch(s, event, bodies, task);
      }
    case Freeze(cutoff) => ReconcileEvolves(c); EvolvesFetch(s, t, task);
    case ReportError(error) => EvolvesFetch(s, t, task);
    case AnswerBody(answered, outcome) => AnswerBodyEvolves(s, answered, outcome, task); EvolvesFetch(s, t, task);
    case MarkMissing => ReconcileEvolves(c); EvolvesFetch(s, t, task);
  }

  // ----- Whole runs -----

  lemma {:induction false} FetchedAreScheduled(s: State, actions: seq<Action>, task: Task)
    ensures task in TaskLog(s, actions) ==> IsScheduled(Run(s, actions), task)
  {
    if actions != [] {
      var before := actions[..|actions| - 1];
      FetchedAreScheduled(s, before, task);
      DoFetch(Run(s, before), actions[|actions| - 1], task);
    }
  }

  // At most once: no hop is handed to a worker twice in any run, whether or
  // not bodies are switched on and off between calls.
  lemma {:induction false} BodiesFetchedAtMostOnce(s: State, actions: seq<Action>)
    ensures NoDuplicates(TaskLog(s, actions))
  {
    if actions != [] {
      var before := actions[..|actions| - 1];
      var last := actions[|actions| - 1];
      var tasks := Do(Run(s, before), last).1;
      BodiesFetchedAtMostOnce(s, before);
      forall task ensures !(task in TaskLog(s, before) && task in tasks) {
        FetchedAreScheduled(s, before, task);
        DoFetch(Run(s, before), last, task);
      }
      DoFetch(Run(s, before), last, Task("", 0));
      ConcatNoDuplicates(TaskLog(s, before), tasks);
    }
  }

  lemma ConcatNoDuplicates(a: seq<Task>, b: seq<Task>)
    requires NoDuplicates(a) && NoDuplicates(b) && forall task :: !(task in a && task in b)
    ensures NoDuplicates(a + b)
  {
    forall i, j | 0 <= i < j < |a + b| ensures (a + b)[i] != (a + b)[j] {
      if i < |a| <= j {
        assert a[i] in a && b[j - |a|] in b;
      }
    }
  }

  // ----- With bodies on in every call -----

  predicate BodiesOn(actions: seq<Action>) {
    forall i :: 0 <= i < |actions| ==> BodiesOnIn(actions[i])
  }

  predicate BodiesOnIn(a: Action) {
    (a.Handle? || a.HandleBuffered?) ==> a.bodies
  }

  // Every hop but the newest is scheduled, and so is the newest once complete.
  ghost predicate NoneForgotten(c: Chain) {
    && (forall i {:trigger c.hops[i]} :: 0 <= i < |c.hops| - 1 ==> c.hops[i].bodyFetchScheduled)
    && (c.hops != [] && Complete(Last(c)) ==> Last(c).bodyFetchScheduled)
  }

  lemma NoneForgottenAfterMarkDue(c: Chain)
    requires forall i {:trigger c.hops[i]} :: 0 <= i < |c.hops| - 1 ==> c.hops[i].bodyFetchScheduled
    ensures NoneForgotten(MarkDue(c))
  {
  }

  // Replacing the newest hop, then announcing what it expects.
  lemma AllButLast(c: Chain, e: Entry, expected: bool)
    requires c.hops != [] && forall i {:trigger c.hops[i]} :: 0 <= i < |c.hops| - 1 ==> c.hops[i].bodyFetchScheduled
    ensures var d := ExpectLast(WithLast(c, e), expected);
            && |d.hops| == |c.hops|
            && (forall i {:trigger d.hops[i]} :: 0 <= i < |d.hops| - 1 ==> d.hops[i].bodyFetchScheduled)
            && Last(d).bodyFetchScheduled == e.bodyFetchScheduled && Last(d).response == e.response
            && Last(d).loadingFinished == e.loadingFinished
  {
  }

  // A request extra moves nothing in the response lane of a settled chain.
  lemma ResponseLaneUntouched(c: Chain, d: Chain, i: nat)
    requires ChainOk(c) && d == c.(pendingRequest := d.pendingRequest) && i < |c.hops|
    ensures Reconcile(d).hops[i].responseExtra == c.hops[i].responseExtra
  {
    SettledIffFixpoint(Gates(c.hops), ResponseLane(c));
    assert Gates(d.hops) == Gates(c.hops) && ResponseLane(d) == ResponseLane(c);
    assert Reconcile(d).hops[i].responseExtra == ResponseLane(c).held[i];
  }

  lemma ReconcileForgetsNone(c: Chain, d: Chain)
    requires ChainOk(c) && NoneForgotten(c) && d == c.(pendingRequest := d.pendingRequest) && c.hops != []
    ensures NoneForgotten(Reconcile(d))
  {
    var n := |c.hops| - 1;
    ResponseLaneUntouched(c, d, n);
    assert Reconcile(d).hops[n] == c.hops[n].(requestExtra := Reconcile(d).hops[n].requestExtra);
  }

  // An announcement made for a failed load finds no response to complete.
  lemma SettleQueuedForgetsNone(c: Chain, x: RequestExtra)
    requires ChainOk(c) && NoneForgotten(c)
    ensures NoneForgotten(WithRequestExtra(c, x))
  {
    var d := c.(pendingRequest := c.pendingRequest + [x]);
    if c.hops != [] {
      assert c.hops[|c.hops| - 1] == Last(c);
      if Last(c).terminalFailure && Last(c).expectation.Unknown? {
        assert WithLast(d, Last(d)) == d;
        AllButLast(d, Last(d), true);
      } else {
        ReconcileForgetsNone(c, d);
      }
    }
  }

  lemma ExplainFailureForgetsNone(c: Chain, text: Text)
    requires ChainOk(c) && NoneForgotten(c) && c.hops != []
    ensures NoneForgotten(ExplainFailure(c, text))
  {
    assert c.hops[|c.hops| - 1] == Last(c);
    AllButLast(c, Last(c).(failure := Some(text)), true);
  }

  lemma RedirectForgetsNone(s: State, e: Event)
    requires e.RequestWillBeSent? && NoneForgotten(ChainOf(s, e.id))
    ensures NoneForgotten(ChainOf(OnRequestWillBeSent(s, e, true), e.id))
  {
    if e.request.Some? && e.request.value.isHTTP {
      var s0 := s.(postCutoff := s.postCutoff - {e.id});
      if !HasCapturedRequest(s0, e.id) {
        AppendHopEffect(Adopt(s0, e.id), e);
      } else if e.redirectResponse.Some? {
        FollowRedirectForgetsNone(s0, e);
      }
    }
  }

  lemma FollowRedirectForgetsNone(s: State, e: Event)
    requires e.RequestWillBeSent? && e.request.Some? && e.redirectResponse.Some? && HasCapturedRequest(s, e.id)
    requires NoneForgotten(ChainOf(s, e.id))
    ensures NoneForgotten(ChainOf(FollowRedirect(s, e, true), e.id))
  {
    var at, c := MonotonicTime(e.timestamp), ChainOf(s, e.id);
    var (s1, closed) := CloseRedirect(s, e.id, e.redirectResponse.value, e.redirectHasExtraInfo, at, true);
    CloseRedirectEffect(s, e.id, e.redirectResponse.value, e.redirectHasExtraInfo, at, true);
    if closed {
      AllButLast(c, ClosedHop(Last(c), e.redirectResponse.value, at, true), e.redirectHasExtraInfo);
      AppendHopEffect(s1, e);
      assert Last(ChainOf(s1, e.id)).bodyFetchScheduled;
    }
  }

  lemma ProcessForgetsNone(s: State, e: Event, k: RequestID)
    requires InvAt(s, k) && NoneForgotten(ChainOf(s, k))
    ensures NoneForgotten(ChainOf(Process(s, e, true).0, k))
  {
    if e.DomContentEventFired? || e.LoadEventFired? || e.id != k {
      ProcessElsewhere(s, e, true, k);
    } else {
      var c := ChainOf(s, k);
      match e
      case RequestWillBeSent(_, _, _, _, _, _, _) => RedirectForgetsNone(s, e);
      case RequestExtraInfo(id, extra) => OnRequestExtraEffect(s, id, extra); SettleQueuedForgetsNone(c, extra);
      case LoadingFailed(_, _, _, _) => LoadingFailedForgetsNone(s, e);
      case ResponseReceived(_, _, _, _, _) => ReadyEventForgetsNone(s, e);
      case ResponseExtraInfo(_, _) => ReadyEventForgetsNone(s, e);
      case LoadingFinished(_, _, _) => ReadyEventForgetsNone(s, e);
      case DataReceived(_, _, _, _) =>
      case ServedFromCache(_) =>
    }
  }

  lemma LoadingFailedForgetsNone(s: State, e: Event)
    requires e.LoadingFailed? && InvAt(s, e.id) && NoneForgotten(ChainOf(s, e.id))
    ensures NoneForgotten(ChainOf(OnLoadingFailed(s, e), e.id))
  {
    var c, t := ChainOf(s, e.id), OnLoadingFailed(s, e);
    OnLoadingFailedEffect(s, e);
    if c.hops != [] {
      var failed := WithLast(c, FailedHop(Last(c), e));
      WithLastGains(c, FailedHop(Last(c), e));
      if ChainOf(t, e.id) != failed {
        var text :| ChainOf(t, e.id) == ExplainFailure(failed, text);
        ExplainFailureForgetsNone(failed, text);
      }
    }
  }

  predicate MayFetch(e: Event) {
    e.ResponseReceived? || e.LoadingFinished? || e.ResponseExtraInfo?
  }

  // The state in which a call looks for due fetches.
  function BeforeFetch(s: State, e: Event): State
    requires MayFetch(e)
  {
    if e.ResponseReceived? then OnResponseReceived(s, e)
    else if e.LoadingFinished? then OnLoadingFinished(s, e)
    else OnResponseExtra(s, e.id, e.responseExtra)
  }

  ghost predicate OnlyNewestUnscheduled(hops: seq<Entry>) {
    forall i {:trigger hops[i]} :: 0 <= i < |hops| - 1 ==> hops[i].bodyFetchScheduled
  }

  lemma BeforeFetchAllButLast(s: State, e: Event)
    requires MayFetch(e) && OnlyNewestUnscheduled(ChainOf(s, e.id).hops)
    ensures OnlyNewestUnscheduled(ChainOf(BeforeFetch(s, e), e.id).hops)
  {
    var c := ChainOf(s, e.id);
    if e.ResponseReceived? {
      OnResponseReceivedEffect(s, e);
      if c.hops != [] { AllButLast(c, AnsweredHop(Last(c), e), e.hasExtraInfo); }
    } else if e.ResponseExtraInfo? {
      OnResponseExtraEffect(s, e.id, e.responseExtra);
      WithResponseExtraAllButLast(c, e.responseExtra);
    }
  }

  lemma ReadyEventForgetsNone(s: State, e: Event)
    requires MayFetch(e) && NoneForgotten(ChainOf(s, e.id))
    ensures NoneForgotten(ChainOf(Process(s, e, true).0, e.id))
  {
    BeforeFetchAllButLast(s, e);
    NoneForgottenAfterMarkDue(ChainOf(BeforeFetch(s, e), e.id));
  }

  lemma WithResponseExtraAllButLast(c: Chain, x: ResponseExtra)
    requires forall i {:trigger c.hops[i]} :: 0 <= i < |c.hops| - 1 ==> c.hops[i].bodyFetchScheduled
    ensures var d := WithResponseExtra(c, x);
            forall i {:trigger d.hops[i]} :: 0 <= i < |d.hops| - 1 ==> d.hops[i].bodyFetchScheduled
  {
    var d := c.(pendingResponse := c.pendingResponse + [x]);
    if d.hops != [] {
      assert WithLast(d, Last(d)) == d;
      AllButLast(d, Last(d), true);
    }
  }

  lemma HandleForgetsNone(s: State, e: Event, k: RequestID)
    requires InvAt(s, k) && NoneForgotten(ChainOf(s, k))
    ensures NoneForgotten(ChainOf(HandleEvent(s, e, true).0, k))
  {
    if s.limitErr.None? {
      if s.frozen && (e.ServedFromCache? || AfterCutoff(s.cutoff, e)) && !e.RequestExtraInfo? && !e.ResponseExtraInfo? {
        assert ChainOf(HandleEvent(s, e, true).0, k) == ChainOf(s, k);
      } else if (e.RequestExtraInfo? || e.ResponseExtraInfo?) && CountsAsOrphan(s, e.id) {
        ParkedForgetsNone(s, e, k);
      } else {
        ProcessForgetsNone(s, e, k);
      }
    }
  }

  lemma ParkedForgetsNone(s: State, e: Event, k: RequestID)
    requires s.limitErr.None? && (e.RequestExtraInfo? || e.ResponseExtraInfo?) && CountsAsOrphan(s, e.id)
    ensures ChainOf(HandleEvent(s, e, true).0, k) == ChainOf(s, k)
  {
    if e.RequestExtraInfo? {
      QueueFrozenRequestEffect(s, e.id, e.requestExtra);
    } else {
      QueueFrozenResponseEffect(s, e.id, e.responseExtra);
    }
  }

  lemma SameHopsForgetNone(c: Chain, d: Chain)
    requires NoneForgotten(c) && SameHops(c, d)
    ensures NoneForgotten(d)
  {
  }

  lemma DoForgetsNone(s: State, a: Action, k: RequestID)
    requires InvAt(s, k) && NoneForgotten(ChainOf(s, k)) && BodiesOnIn(a)
    ensures NoneForgotten(ChainOf(Do(s, a).0, k))
  {
    var t := Do(s, a).0;
    match a
    case Handle(event, _) => HandleForgetsNone(s, event, k);
    case HandleBuffered(event, _) =>
      if event.ServedFromCache? {
        if t != s { ProcessForgetsNone(s, event, k); }
      } else {
        HandleForgetsNone(s, event, k);
      }
    case Freeze(cutoff) => ReconcileAllAt(s, k);
    case ReportError(error) =>
    case AnswerBody(task, outcome) =>
      if ValidTask(s, task) {
        SetResponseBodyEffect(s, task, outcome);
        if task.id == k { SameHopsForgetNone(ChainOf(s, k), ChainOf(t, k)); }
      }
    case MarkMissing =>
      ReconcileAllAt(s, k);
      SameHopsForgetNone(ChainOf(s, k), ChainOf(t, k));
  }

  // Never forgotten: with bodies on, in every reachable state every hop but the
  // newest is scheduled, and so is every hop that is finished, has its response
  // and has any response extra it expects.
  lemma NoBodyForgotten(captureStart: Time, targetBytes: nat, actions: seq<Action>, k: RequestID)
    requires BodiesOn(actions)
    ensures var c := ChainOf(Run(Init(captureStart, targetBytes), actions), k);
            NoneForgotten(c) && forall i :: 0 <= i < |c.hops| && Complete(c.hops[i]) ==> c.hops[i].bodyFetchScheduled
  {
    NoneForgottenInRun(captureStart, targetBytes, actions, k);
    var c := ChainOf(Run(Init(captureStart, targetBytes), actions), k);
    assert c.hops != [] ==> c.hops[|c.hops| - 1] == Last(c);
  }

  lemma {:induction false} NoneForgottenInRun(captureStart: Time, targetBytes: nat, actions: seq<Action>, k: RequestID)
    requires BodiesOn(actions)
    ensures NoneForgotten(ChainOf(Run(Init(captureStart, targetBytes), actions), k))
  {
    if actions != [] {
      var before := actions[..|actions| - 1];
      assert forall i :: 0 <= i < |before| ==> before[i] == actions[i];
      NoneForgottenInRun(captureStart, targetBytes, before, k);
      ExtrasConserved(captureStart, targetBytes, before, k);
      DoForgetsNone(Run(Init(captureStart, targetBytes), before), actions[|actions| - 1], k);
    }
  }

  lemma {:induction false} NoneDue(id: RequestID, hops: seq<Entry>)
    requires forall i {:trigger hops[i]} :: 0 <= i < |hops| ==> hops[i].bodyFetchScheduled
    ensures DueTasks(id, hops) == []
  {
    if hops != [] { NoneDue(id, hops[..|hops| - 1]); }
  }

  lemma AtMostOneDue(id: RequestID, hops: seq<Entry>)
    requires OnlyNewestUnscheduled(hops)
    ensures |DueTasks(id, hops)| <= 1
  {
    if hops != [] { NoneDue(id, hops[..|hops| - 1]); }
  }

  // Only three kinds of event hand over tasks, all of the event's own ID.
  lemma TasksOfCall(s: State, a: Action)
    ensures var tasks := Do(s, a).1;
            tasks == [] || ((a.Handle? || a.HandleBuffered?) && MayFetch(a.event)
                            && tasks == DueTasks(a.event.id, ChainOf(BeforeFetch(s, a.event), a.event.id).hops))
  {
  }

  // With bodies on, one call hands over at most one task.
  lemma AtMostOneTaskPerCall(captureStart: Time, targetBytes: nat, actions: seq<Action>, a: Action)
    requires BodiesOn(actions)
    ensures |Do(Run(Init(captureStart, targetBytes), actions), a).1| <= 1
  {
    var s := Run(Init(captureStart, targetBytes), actions);
    TasksOfCall(s, a);
    if Do(s, a).1 != [] {
      NoneForgottenInRun(captureStart, targetBytes, actions, a.event.id);
      BeforeFetchAllButLast(s, a.event);
      AtMostOneDue(a.event.id, ChainOf(BeforeFetch(s, a.event), a.event.id).hops);
    }
  }
}
