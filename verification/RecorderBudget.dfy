/** The byte budget: what the recorder holds never exceeds what it has reserved,
    and what it has reserved never exceeds the limit. */
module RecorderBudget {
  import opened Common
  import opened Lanes
  import opened RecorderModel
  import opened RecorderRuns
  import opened RecorderBodies
  import opened RecorderOrder

  // ----- The size of what is held -----

  // The entry itself, its current response, failure text and body.
  function EntryBytes(e: Entry): nat {
    e.request.bytes
    + (if e.response.Some? then e.response.value.bytes else 0)
    + (if e.failure.Some? then e.failure.value.bytes + DERIVED_ITEM_OVERHEAD else 0)
    + (if e.body.Some? then e.body.value.text.bytes + DERIVED_ITEM_OVERHEAD else 0)
  }

  function HopBytes(hops: seq<Entry>): nat {
    if hops == [] then 0 else HopBytes(hops[..|hops| - 1]) + EntryBytes(hops[|hops| - 1])
  }

  function RequestExtraBytes(extras: seq<RequestExtra>): nat {
    if extras == [] then 0 else RequestExtraBytes(extras[..|extras| - 1]) + extras[|extras| - 1].bytes
  }

  function ResponseExtraBytes(extras: seq<ResponseExtra>): nat {
    if extras == [] then 0 else ResponseExtraBytes(extras[..|extras| - 1]) + extras[|extras| - 1].bytes
  }

  // Everything held for one ID: its hops, and its extras wherever they are.
  function HeldAt(s: State, id: RequestID): nat {
    HopBytes(ChainOf(s, id).hops) + RequestExtraBytes(RequestExtras(s, id)) + ResponseExtraBytes(ResponseExtras(s, id))
  }

  function KnownIDs(s: State): set<RequestID> {
    s.chains.Keys + s.frozenRequest.Keys + s.frozenResponse.Keys
  }

  ghost function HeldPerID(s: State): map<RequestID, nat> {
    map id | id in KnownIDs(s) :: HeldAt(s, id)
  }

  ghost function HeldBytes(s: State): nat {
    Total(HeldPerID(s))
  }

  // ----- Sums -----

  lemma {:induction false} HopBytesReplace(hops: seq<Entry>, i: nat, e: Entry)
    requires i < |hops|
    ensures HopBytes(hops[i := e]) == HopBytes(hops) - EntryBytes(hops[i]) + EntryBytes(e)
  {
    var n := |hops| - 1;
    if i < n {
      assert hops[i := e][..n] == hops[..n][i := e];
      HopBytesReplace(hops[..n], i, e);
    } else {
      assert hops[i := e][..n] == hops[..n];
    }
  }

  // Only these parts of a hop have a size.
  predicate SameSize(e: Entry, f: Entry) {
    e.request == f.request && e.response == f.response && e.failure == f.failure && e.body == f.body
  }

  lemma {:induction false} HopBytesSame(hops: seq<Entry>, other: seq<Entry>)
    requires |hops| == |other| && forall i {:trigger other[i]} :: 0 <= i < |hops| ==> SameSize(hops[i], other[i])
    ensures HopBytes(hops) == HopBytes(other)
  {
    if hops != [] { HopBytesSame(hops[..|hops| - 1], other[..|hops| - 1]); }
  }

  lemma ReconcileBytes(c: Chain)
    ensures HopBytes(Reconcile(c).hops) == HopBytes(c.hops)
  {
    HopBytesSame(c.hops, Reconcile(c).hops);
  }

  lemma WithLastBytes(c: Chain, e: Entry)
    requires c.hops != []
    ensures HopBytes(WithLast(c, e).hops) == HopBytes(c.hops) - EntryBytes(Last(c)) + EntryBytes(e)
  {
    HopBytesReplace(c.hops, |c.hops| - 1, e);
  }

  lemma ExpectLastBytes(c: Chain, e: Entry, expected: bool)
    requires c.hops != []
    ensures HopBytes(ExpectLast(WithLast(c, e), expected).hops)
            == HopBytes(c.hops) - EntryBytes(Last(c)) + EntryBytes(e)
  {
    var known := e.(expectation := if expected then Expected else NotExpected);
    assert WithLast(WithLast(c, e), known) == WithLast(c, known);
    WithLastBytes(c, known);
    ReconcileBytes(WithLast(c, known));
  }

  lemma SettleQueuedBytes(c: Chain)
    ensures HopBytes(SettleQueued(c).hops) == HopBytes(c.hops)
  {
    ReconcileBytes(c);
    if c.hops != [] {
      assert WithLast(c, Last(c)) == c;
      ExpectLastBytes(c, Last(c), true);
    }
  }

  lemma MarkDueBytes(c: Chain)
    ensures HopBytes(MarkDue(c).hops) == HopBytes(c.hops)
  {
    HopBytesSame(c.hops, MarkDue(c).hops);
  }

  lemma ExplainFailureBytes(c: Chain, text: Text)
    requires c.hops != []
    ensures HopBytes(ExplainFailure(c, text).hops) <= HopBytes(c.hops) + text.bytes + DERIVED_ITEM_OVERHEAD
  {
    var named := Last(c).(failure := Some(text));
    WithLastBytes(c, named);
    ExpectLastBytes(c, named, true);
  }

  // ----- What each handler adds, against what it reserves -----

  // The hops of this ID grew by no more than was reserved beyond `spent`.
  predicate Paid(s: State, t: State, id: RequestID, spent: int) {
    HopBytes(ChainOf(t, id).hops) + spent <= HopBytes(ChainOf(s, id).hops) + t.retained - s.retained
  }

  lemma RequestExtraPaid(s: State, id: RequestID, x: RequestExtra)
    requires s.limitErr.None?
    ensures var t := OnRequestExtra(s, id, x); Paid(s, t, id, if t.limitErr.None? then x.bytes else 0)
  {
    OnRequestExtraEffect(s, id, x);
    SettleQueuedBytes(ChainOf(s, id).(pendingRequest := ChainOf(s, id).pendingRequest + [x]));
    AdmitEffect(Put(s, id, ChainOf(s, id)), RequestExtraViolation(x), x.bytes);
  }

  lemma ResponseExtraPaid(s: State, id: RequestID, x: ResponseExtra)
    requires s.limitErr.None?
    ensures var t := OnResponseExtra(s, id, x); Paid(s, t, id, if t.limitErr.None? then x.bytes else 0)
  {
    OnResponseExtraEffect(s, id, x);
    SettleQueuedBytes(ChainOf(s, id).(pendingResponse := ChainOf(s, id).pendingResponse + [x]));
    AdmitEffect(Put(s, id, ChainOf(s, id)), ResponseExtraViolation(x), x.bytes);
  }

  lemma ResponseReceivedPaid(s: State, e: Event)
    requires e.ResponseReceived?
    ensures Paid(s, OnResponseReceived(s, e), e.id, 0)
  {
    if e.response.Some? && HasCapturedRequest(s, e.id) {
      var c := ChainOf(s, e.id);
      AdmitEffect(s, ResponseViolation(e.response.value), e.response.value.bytes);
      ExpectLastBytes(c, AnsweredHop(Last(c), e), e.hasExtraInfo);
    }
  }

  lemma FailureBytes(failed: Chain, d: Chain, grown: int)
    requires failed.hops != []
    requires (d == failed && grown == 0)
             || exists text :: d == ExplainFailure(failed, text) && grown == text.bytes + DERIVED_ITEM_OVERHEAD
    ensures HopBytes(d.hops) <= HopBytes(failed.hops) + grown
  {
    if d != failed || grown != 0 {
      var text :| d == ExplainFailure(failed, text) && grown == text.bytes + DERIVED_ITEM_OVERHEAD;
      ExplainFailureBytes(failed, text);
    }
  }

  lemma LoadingFailedPaid(s: State, e: Event)
    requires e.LoadingFailed?
    ensures Paid(s, OnLoadingFailed(s, e), e.id, 0)
  {
    OnLoadingFailedEffect(s, e);
    var c, t := ChainOf(s, e.id), OnLoadingFailed(s, e);
    if c.hops != [] {
      var failed := WithLast(c, FailedHop(Last(c), e));
      WithLastBytes(c, FailedHop(Last(c), e));
      assert HopBytes(failed.hops) == HopBytes(c.hops);
      FailureBytes(failed, ChainOf(t, e.id), t.retained - s.retained);
    } else {
      assert t == s;
    }
  }

  lemma AppendedBytes(hops: seq<Entry>, e: Entry)
    ensures HopBytes(hops + [e]) == HopBytes(hops) + EntryBytes(e)
  {
    assert (hops + [e])[..|hops|] == hops;
  }

  lemma AppendHopPaid(s: State, e: Event)
    requires e.RequestWillBeSent? && e.request.Some? && e.id in s.chains
    ensures Paid(s, AppendHop(s, e), e.id, 0)
  {
    AdmitEffect(s, None, e.request.value.bytes);
    var c, t := ChainOf(s, e.id), AppendHop(s, e);
    AppendHopEffect(s, e);
    if ChainOf(t, e.id) != c {
      AppendedBytes(c.hops, Last(ChainOf(t, e.id)));
    }
  }

  lemma ClosedHopBytes(last: Entry, response: Response, at: Time, bodies: bool)
    ensures EntryBytes(ClosedHop(last, response, at, bodies))
            == EntryBytes(last) + (if last.response.None? then response.bytes else 0)
  {
  }

  lemma CloseRedirectPaid(s: State, id: RequestID, response: Response, hasExtraInfo: bool, at: Time, bodies: bool)
    requires HasCapturedRequest(s, id)
    ensures Paid(s, CloseRedirect(s, id, response, hasExtraInfo, at, bodies).0, id, 0)
  {
    var c := ChainOf(s, id);
    CloseRedirectEffect(s, id, response, hasExtraInfo, at, bodies);
    ClosedHopBytes(Last(c), response, at, bodies);
    ExpectLastBytes(c, ClosedHop(Last(c), response, at, bodies), hasExtraInfo);
  }

  lemma RequestWillBeSentPaid(s: State, e: Event, bodies: bool)
    requires e.RequestWillBeSent?
    ensures Paid(s, OnRequestWillBeSent(s, e, bodies), e.id, 0)
  {
    if e.request.Some? && e.request.value.isHTTP {
      var s0 := s.(postCutoff := s.postCutoff - {e.id});
      if !HasCapturedRequest(s0, e.id) {
        AppendHopPaid(Adopt(s0, e.id), e);
      } else if e.redirectResponse.Some? {
        FollowRedirectPaid(s0, e, bodies);
      }
    }
  }

  lemma FollowRedirectPaid(s: State, e: Event, bodies: bool)
    requires e.RequestWillBeSent? && e.request.Some? && e.redirectResponse.Some? && HasCapturedRequest(s, e.id)
    ensures Paid(s, FollowRedirect(s, e, bodies), e.id, 0)
  {
    var at := MonotonicTime(e.timestamp);
    var (s1, closed) := CloseRedirect(s, e.id, e.redirectResponse.value, e.redirectHasExtraInfo, at, bodies);
    CloseRedirectPaid(s, e.id, e.redirectResponse.value, e.redirectHasExtraInfo, at, bodies);
    CloseRedirectEffect(s, e.id, e.redirectResponse.value, e.redirectHasExtraInfo, at, bodies);
    if closed { AppendHopPaid(s1, e); }
  }

  // ----- One action -----

  // What is held for this ID grew by no more than was reserved.
  predicate PaidFor(s: State, t: State, id: RequestID) {
    HeldAt(t, id) <= HeldAt(s, id) + t.retained - s.retained
  }

  lemma ExtraBytesGain(rs: seq<RequestExtra>, xs: seq<RequestExtra>, qs: seq<ResponseExtra>, ys: seq<ResponseExtra>)
    requires |xs| <= 1 && |ys| <= 1
    ensures RequestExtraBytes(rs + xs) == RequestExtraBytes(rs) + (if xs == [] then 0 else xs[0].bytes)
    ensures ResponseExtraBytes(qs + ys) == ResponseExtraBytes(qs) + (if ys == [] then 0 else ys[0].bytes)
  {
    if xs == [] { assert rs + xs == rs; } else { assert (rs + xs)[..|rs|] == rs; }
    if ys == [] { assert qs + ys == qs; } else { assert (qs + ys)[..|qs|] == qs; }
  }

  lemma GainedBytes(s: State, t: State, id: RequestID, xs: seq<RequestExtra>, ys: seq<ResponseExtra>)
    requires RequestExtras(t, id) == RequestExtras(s, id) + xs && ResponseExtras(t, id) == ResponseExtras(s, id) + ys
    requires |xs| <= 1 && |ys| <= 1
    requires Paid(s, t, id, (if xs == [] then 0 else xs[0].bytes) + (if ys == [] then 0 else ys[0].bytes))
    ensures PaidFor(s, t, id)
  {
    ExtraBytesGain(RequestExtras(s, id), xs, ResponseExtras(s, id), ys);
  }

  lemma ParkedPaid(s: State, id: RequestID, x: RequestExtra, y: ResponseExtra)
    requires s.limitErr.None? && s.orphanCount < MAX_FROZEN_ORPHAN_EXTRAS
    ensures var t := QueueFrozenRequest(s, id, x); Paid(s, t, id, if t.limitErr.None? then x.bytes else 0)
    ensures var t := QueueFrozenResponse(s, id, y); Paid(s, t, id, if t.limitErr.None? then y.bytes else 0)
  {
    AdmitEffect(s, RequestExtraViolation(x), x.bytes);
    AdmitEffect(s, ResponseExtraViolation(y), y.bytes);
  }

  lemma ReadyPaid(s: State, s1: State, id: RequestID, bodies: bool, spent: int)
    requires Paid(s, s1, id, spent)
    ensures Paid(s, ReadyBodyFetches(s1, id, bodies).0, id, spent)
  {
    MarkDueBytes(ChainOf(s1, id));
  }

  lemma ProcessPaid(s: State, e: Event, bodies: bool)
    requires s.limitErr.None? && !e.DomContentEventFired? && !e.LoadEventFired?
    ensures var t := Process(s, e, bodies).0;
            Paid(s, t, e.id, if t.limitErr.Some? then 0 else if e.RequestExtraInfo? then e.requestExtra.bytes
                             else if e.ResponseExtraInfo? then e.responseExtra.bytes else 0)
  {
    var c := ChainOf(s, e.id);
    match e
    case RequestWillBeSent(_, _, _, _, _, _, _) => RequestWillBeSentPaid(s, e, bodies);
    case RequestExtraInfo(id, extra) => RequestExtraPaid(s, id, extra);
    case ResponseExtraInfo(id, extra) =>
      ResponseExtraPaid(s, id, extra);
      ReadyPaid(s, OnResponseExtra(s, id, extra), id, bodies,
                if OnResponseExtra(s, id, extra).limitErr.None? then extra.bytes else 0);
    case ResponseReceived(id, _, _, _, _) =>
      ResponseReceivedPaid(s, e);
      ReadyPaid(s, OnResponseReceived(s, e), id, bodies, 0);
    case LoadingFailed(_, _, _, _) => LoadingFailedPaid(s, e);
    case LoadingFinished(id, _, _) =>
      if c.hops != [] { WithLastBytes(c, FinishedHop(Last(c), e)); }
      ReadyPaid(s, OnLoadingFinished(s, e), id, bodies, 0);
    case DataReceived(_, _, _, _) => if c.hops != [] { WithLastBytes(c, MeasuredHop(Last(c), e)); }
    case ServedFromCache(_) => if c.hops != [] { WithLastBytes(c, Last(c).(servedFromCache := true)); }
  }

  lemma HandlePaid(s: State, e: Event, bodies: bool)
    requires !e.DomContentEventFired? && !e.LoadEventFired? && InvAt(s, e.id)
    ensures PaidFor(s, HandleEvent(s, e, bodies).0, e.id)
  {
    var t, a := HandleEvent(s, e, bodies).0, Handle(e, bodies);
    HandleAt(s, e, bodies, e.id);
    if s.limitErr.None? {
      if (e.RequestExtraInfo? || e.ResponseExtraInfo?) && CountsAsOrphan(s, e.id) {
        if s.orphanCount < MAX_FROZEN_ORPHAN_EXTRAS {
          ParkedPaid(s, e.id, if e.RequestExtraInfo? then e.requestExtra else RequestExtra(Headers("", 0, 0), 0, 0),
                     if e.ResponseExtraInfo? then e.responseExtra else ResponseExtra(Headers("", 0, 0), 0, 0));
        }
      } else {
        ProcessPaid(s, e, bodies);
      }
    }
    GainedBytes(s, t, e.id, AcceptedRequest(s, a, e.id), AcceptedResponse(s, a, e.id));
  }

  lemma AnswerBytes(s: State, task: Task, outcome: FetchOutcome)
    requires ValidTask(s, task)
    ensures var t := SetResponseBody(s, task, outcome);
            var c, d := s.chains[task.id], ChainOf(t, task.id);
            && |d.hops| == |c.hops| && d.hops == c.hops[task.hop := d.hops[task.hop]]
            && EntryBytes(d.hops[task.hop]) <= EntryBytes(c.hops[task.hop]) + t.retained - s.retained
  {
    if outcome.Fetched? { AdmitEffect(s, None, outcome.body.text.bytes + DERIVED_ITEM_OVERHEAD); }
  }

  lemma AnswerPaid(s: State, task: Task, outcome: FetchOutcome)
    requires ValidTask(s, task) && InvAt(s, task.id)
    ensures PaidFor(s, SetResponseBody(s, task, outcome), task.id)
  {
    var t := SetResponseBody(s, task, outcome);
    AnswerBytes(s, task, outcome);
    HopBytesReplace(s.chains[task.id].hops, task.hop, ChainOf(t, task.id).hops[task.hop]);
    AnswerBodyAt(s, task, outcome, task.id);
    GainedBytes(s, t, task.id, [], []);
  }

  // The one ID that an action may be about.
  function Subject(a: Action): Option<RequestID> {
    match a
    case Handle(event, _) => if event.DomContentEventFired? || event.LoadEventFired? then None else Some(event.id)
    case HandleBuffered(event, _) =>
      if event.DomContentEventFired? || event.LoadEventFired? then None else Some(event.id)
    case AnswerBody(task, _) => Some(task.id)
    case _ => None
  }

  lemma HeldElsewhere(s: State, a: Action, k: RequestID)
    requires InvAt(s, k) && Subject(a) != Some(k)
    ensures HeldAt(Do(s, a).0, k) == HeldAt(s, k)
  {
    var t := Do(s, a).0;
    DoAt(s, a, k);
    assert RequestExtras(t, k) == RequestExtras(s, k) && ResponseExtras(t, k) == ResponseExtras(s, k);
    HopBytesElsewhere(s, a, k);
  }

  lemma HopBytesElsewhere(s: State, a: Action, k: RequestID)
    requires InvAt(s, k) && Subject(a) != Some(k)
    ensures HopBytes(ChainOf(Do(s, a).0, k).hops) == HopBytes(ChainOf(s, k).hops)
  {
    match a
    case Handle(event, bodies) => HandleElsewhere(s, event, bodies, k);
    case HandleBuffered(event, bodies) => if !event.ServedFromCache? { HandleElsewhere(s, event, bodies, k); }
    case AnswerBody(task, outcome) => if ValidTask(s, task) { SetResponseBodyEffect(s, task, outcome); }
    case Freeze(cutoff) => ReconcileAllAt(s, k);
    case ReportError(error) =>
    case MarkMissing =>
      ReconcileAllAt(s, k);
      HopBytesSame(ChainOf(s, k).hops, ChainOf(MarkMissingExtraInfo(s), k).hops);
  }

  lemma HandleElsewhere(s: State, e: Event, bodies: bool, k: RequestID)
    requires e.DomContentEventFired? || e.LoadEventFired? || e.id != k
    ensures ChainOf(HandleEvent(s, e, bodies).0, k) == ChainOf(s, k)
  {
    if s.limitErr.None? {
      if e.RequestExtraInfo? && CountsAsOrphan(s, e.id) {
        QueueFrozenRequestEffect(s, e.id, e.requestExtra);
      } else if e.ResponseExtraInfo? && CountsAsOrphan(s, e.id) {
        QueueFrozenResponseEffect(s, e.id, e.responseExtra);
      } else {
        ProcessElsewhere(s, e, bodies, k);
      }
    }
  }

  lemma CacheEventCostsNothing(s: State, event: Event, bodies: bool)
    requires event.ServedFromCache?
    ensures Paid(s, HandleBufferedEvent(s, event, bodies).0, event.id, 0)
  {
    var c := ChainOf(s, event.id);
    if c.hops != [] { WithLastBytes(c, Last(c).(servedFromCache := true)); }
  }

  lemma CacheEventPaid(s: State, event: Event, bodies: bool, k: RequestID)
    requires event.ServedFromCache? && event.id == k && InvAt(s, k)
    ensures PaidFor(s, HandleBufferedEvent(s, event, bodies).0, k)
  {
    var a := HandleBuffered(event, bodies);
    DoAt(s, a, k);
    CacheEventCostsNothing(s, event, bodies);
    GainedBytes(s, HandleBufferedEvent(s, event, bodies).0, k, AcceptedRequest(s, a, k), AcceptedResponse(s, a, k));
  }

  lemma SubjectPaid(s: State, a: Action, k: RequestID)
    requires Subject(a) == Some(k) && InvAt(s, k)
    ensures PaidFor(s, Do(s, a).0, k)
  {
    match a
    case Handle(event, bodies) => HandlePaid(s, event, bodies);
    case HandleBuffered(event, bodies) =>
      if event.ServedFromCache? {
        CacheEventPaid(s, event, bodies, k);
      } else {
        HandlePaid(s, event, bodies);
      }
    case AnswerBody(task, outcome) => if ValidTask(s, task) { AnswerPaid(s, task, outcome); }
  }

  // ----- All IDs together -----

  ghost function HeldOver(s: State, ids: set<RequestID>): map<RequestID, nat> {
    map id | id in ids :: HeldAt(s, id)
  }

  lemma UnknownHoldsNothing(s: State, id: RequestID)
    requires id !in KnownIDs(s)
    ensures HeldAt(s, id) == 0
  {
    assert ChainOf(s, id) == EMPTY_CHAIN;
    assert RequestLane(EMPTY_CHAIN) == Lane([], []) && ResponseLane(EMPTY_CHAIN) == Lane([], []);
    assert RequestExtras(s, id) == [] && ResponseExtras(s, id) == [];
  }

  // IDs the recorder does not know may be added to the sum.
  lemma {:induction false} HeldOverMore(s: State, ids: set<RequestID>)
    requires KnownIDs(s) <= ids
    ensures Total(HeldOver(s, ids)) == HeldBytes(s)
    decreases ids - KnownIDs(s)
  {
    if ids - KnownIDs(s) == {} {
      assert forall id :: id in ids ==> id !in ids - KnownIDs(s);
      assert ids == KnownIDs(s);
      assert HeldOver(s, ids) == HeldPerID(s);
    } else {
      var id :| id in ids - KnownIDs(s);
      UnknownHoldsNothing(s, id);
      TotalRemove(HeldOver(s, ids), id);
      assert HeldOver(s, ids) - {id} == HeldOver(s, ids - {id});
      HeldOverMore(s, ids - {id});
    }
  }

  lemma HeldStep(s: State, a: Action)
    requires forall k :: InvAt(s, k)
    ensures HeldBytes(Do(s, a).0) <= HeldBytes(s) + Do(s, a).0.retained - s.retained
  {
    var t := Do(s, a).0;
    var subject := Subject(a).GetOr("");
    var ids := KnownIDs(s) + KnownIDs(t) + {subject};
    HeldOverMore(s, ids);
    HeldOverMore(t, ids);
    forall k | k in ids && Subject(a) != Some(k) ensures HeldAt(t, k) == HeldAt(s, k) {
      HeldElsewhere(s, a, k);
    }
    DoOpens(s, a, subject);
    if Subject(a).Some? { SubjectPaid(s, a, subject); }
    TotalChangedAt(HeldOver(s, ids), HeldOver(t, ids), subject);
  }

  // Budget: in every reachable state, all that is held for all IDs together
  // fits in what is reserved, and that fits in the limit.
  lemma {:induction false} BudgetHolds(captureStart: Time, targetBytes: nat, actions: seq<Action>)
    ensures var s := Run(Init(captureStart, targetBytes), actions);
            HeldBytes(s) <= s.retained <= s.maxBytes == DEFAULT_MAX_RETAINED_BYTES
  {
    ArchiveListsEachHopOnce(captureStart, targetBytes, actions, 0, Task("", 0));
    if actions == [] {
      var s := Init(captureStart, targetBytes);
      assert HeldPerID(s) == map[];
    } else {
      var before, a := actions[..|actions| - 1], actions[|actions| - 1];
      var s := Run(Init(captureStart, targetBytes), before);
      BudgetHolds(captureStart, targetBytes, before);
      forall k ensures InvAt(s, k) {
        ExtrasConserved(captureStart, targetBytes, before, k);
      }
      HeldStep(s, a);
      DoOpens(s, a, "");
    }
  }
}
