/** Entries: which calls open one, that the archive list names each hop exactly
    once in capture order, and that a limit error is permanent. */
module RecorderOrder {
  import opened Common
  import opened Lanes
  import opened RecorderModel
  import opened RecorderRuns
  import opened RecorderBodies
  import opened RecorderCutoff

  // No entry was opened, as far as the archive list and this ID can tell.
  predicate NoneOpened(s: State, t: State, k: RequestID) {
    t.order == s.order && |ChainOf(t, k).hops| == |ChainOf(s, k).hops|
  }

  // The base event opened one entry, as the next hop of its ID.
  predicate Opened(s: State, t: State, e: Event)
    requires e.RequestWillBeSent?
  {
    var n := |ChainOf(s, e.id).hops|;
    && t.order == s.order + [(e.id, n)]
    && |ChainOf(t, e.id).hops| == n + 1
    && ChainOf(t, e.id).hops[n].sequence == |t.order|
    && ChainOf(t, e.id).hops[n].startedMono == MonotonicTime(e.timestamp)
    && |t.order| <= s.maxEntries
  }

  // The limits stay as they are, and what is reserved stays within them.
  ghost predicate SameLimits(s: State, t: State) {
    && t.maxEntries == s.maxEntries && t.maxBytes == s.maxBytes
    && s.retained <= t.retained && (s.retained <= s.maxBytes ==> t.retained <= t.maxBytes)
  }

  lemma AppendHopOpens(s: State, e: Event)
    requires e.RequestWillBeSent? && e.request.Some? && e.id in s.chains
    ensures var t := AppendHop(s, e);
            SameLimits(s, t) && (NoneOpened(s, t, e.id) || Opened(s, t, e))
  {
    AdmitEffect(s, None, e.request.value.bytes);
  }

  lemma FollowRedirectOpens(s: State, e: Event, bodies: bool)
    requires e.RequestWillBeSent? && e.request.Some? && e.redirectResponse.Some? && HasCapturedRequest(s, e.id)
    ensures var t := FollowRedirect(s, e, bodies);
            SameLimits(s, t) && (NoneOpened(s, t, e.id) || Opened(s, t, e))
  {
    var at, response := MonotonicTime(e.timestamp), e.redirectResponse.value;
    AdmitEffect(s, ResponseViolation(response), response.bytes);
    CloseRedirectEffect(s, e.id, response, e.redirectHasExtraInfo, at, bodies);
    var (s1, closed) := CloseRedirect(s, e.id, response, e.redirectHasExtraInfo, at, bodies);
    assert NoneOpened(s, s1, e.id) && SameLimits(s, s1);
    if closed { AppendHopOpens(s1, e); }
  }

  lemma RequestWillBeSentOpens(s: State, e: Event, bodies: bool)
    requires e.RequestWillBeSent?
    ensures var t := OnRequestWillBeSent(s, e, bodies);
            SameLimits(s, t) && (NoneOpened(s, t, e.id) || Opened(s, t, e))
  {
    if e.request.Some? && e.request.value.isHTTP {
      var s0 := s.(postCutoff := s.postCutoff - {e.id});
      if !HasCapturedRequest(s0, e.id) {
        AppendHopOpens(Adopt(s0, e.id), e);
      } else if e.redirectResponse.Some? {
        FollowRedirectOpens(s0, e, bodies);
      }
    }
  }

  lemma LoadingFailedOpensNone(s: State, e: Event)
    requires e.LoadingFailed?
    ensures var t := OnLoadingFailed(s, e); SameLimits(s, t) && NoneOpened(s, t, e.id)
  {
    if HasCapturedRequest(s, e.id) {
      var c := WithLast(s.chains[e.id], FailedHop(Last(s.chains[e.id]), e));
      var failure := if e.errorText.content == "" then e.blockedReason else e.errorText;
      AdmitEffect(Put(s, e.id, c), None, failure.bytes + DERIVED_ITEM_OVERHEAD);
    }
  }

  lemma BeforeFetchOpensNone(s: State, e: Event)
    requires MayFetch(e)
    ensures var t := BeforeFetch(s, e); SameLimits(s, t) && NoneOpened(s, t, e.id)
  {
    if e.ResponseReceived? && e.response.Some? {
      AdmitEffect(s, ResponseViolation(e.response.value), e.response.value.bytes);
    } else if e.ResponseExtraInfo? {
      AdmitEffect(Put(s, e.id, ChainOf(s, e.id)), ResponseExtraViolation(e.responseExtra), e.responseExtra.bytes);
    }
  }

  lemma RequestExtraOpensNone(s: State, id: RequestID, x: RequestExtra)
    ensures var t := OnRequestExtra(s, id, x); SameLimits(s, t) && NoneOpened(s, t, id)
  {
    AdmitEffect(Put(s, id, ChainOf(s, id)), RequestExtraViolation(x), x.bytes);
  }

  lemma ProcessOpens(s: State, e: Event, bodies: bool, k: RequestID)
    ensures var t := Process(s, e, bodies).0;
            SameLimits(s, t)
              && (NoneOpened(s, t, k)
                  || (e.RequestWillBeSent? && Opened(s, t, e)
                      && (k != e.id ==> |ChainOf(t, k).hops| == |ChainOf(s, k).hops|)))
  {
    if e.RequestWillBeSent? {
      RequestWillBeSentOpens(s, e, bodies);
    } else if e.LoadingFailed? {
      LoadingFailedOpensNone(s, e);
    } else if e.RequestExtraInfo? {
      RequestExtraOpensNone(s, e.id, e.requestExtra);
    } else if MayFetch(e) {
      BeforeFetchOpensNone(s, e);
    }
    if e.DomContentEventFired? || e.LoadEventFired? || e.id != k { ProcessElsewhere(s, e, bodies, k); }
  }

  // An entry is opened only by a base event, with no limit error before it, and
  // after the freeze only by one stamped at or before the cutoff.
  ghost predicate OpensOnly(s: State, t: State, a: Action, k: RequestID) {
    && SameLimits(s, t)
    && (NoneOpened(s, t, k)
        || ((a.Handle? || a.HandleBuffered?) && a.event.RequestWillBeSent? && Opened(s, t, a.event) && s.limitErr.None?
            && (k != a.event.id ==> |ChainOf(t, k).hops| == |ChainOf(s, k).hops|)
            && (s.frozen ==> s.cutoff != ZERO_TIME && a.event.timestamp.Some? && a.event.timestamp.value <= s.cutoff)))
  }

  lemma HandleOpens(s: State, e: Event, bodies: bool, k: RequestID)
    ensures OpensOnly(s, HandleEvent(s, e, bodies).0, Handle(e, bodies), k)
  {
    if s.limitErr.None? {
      if s.frozen && e.RequestExtraInfo? && !HasCapturedRequest(s, e.id) {
        QueueFrozenRequestEffect(s, e.id, e.requestExtra);
        AdmitEffect(s, RequestExtraViolation(e.requestExtra), e.requestExtra.bytes);
      } else if s.frozen && e.ResponseExtraInfo? && !HasCapturedRequest(s, e.id) {
        QueueFrozenResponseEffect(s, e.id, e.responseExtra);
        AdmitEffect(s, ResponseExtraViolation(e.responseExtra), e.responseExtra.bytes);
      } else {
        ProcessOpens(s, e, bodies, k);
      }
    }
  }

  lemma AnswerOpensNone(s: State, task: Task, outcome: FetchOutcome, k: RequestID)
    requires ValidTask(s, task)
    ensures var t := SetResponseBody(s, task, outcome); SameLimits(s, t) && NoneOpened(s, t, k)
  {
    if outcome.Fetched? { AdmitEffect(s, None, outcome.body.text.bytes + DERIVED_ITEM_OVERHEAD); }
  }

  lemma DoOpens(s: State, a: Action, k: RequestID)
    ensures OpensOnly(s, Do(s, a).0, a, k)
  {
    match a
    case Handle(event, bodies) => HandleOpens(s, event, bodies, k);
    case HandleBuffered(event, bodies) => if !event.ServedFromCache? { HandleOpens(s, event, bodies, k); }
    case AnswerBody(task, outcome) => if ValidTask(s, task) { AnswerOpensNone(s, task, outcome, k); }
    case _ =>
  }

  // ----- The archive list -----

  // Position p of the archive list names a hop, which is entry number p + 1.
  ghost predicate ListedAt(s: State, p: nat) {
    p < |s.order| ==>
        ValidTask(s, Task(s.order[p].0, s.order[p].1)) && s.chains[s.order[p].0].hops[s.order[p].1].sequence == p + 1
  }

  // A hop is on the archive list, at the position its sequence number gives.
  ghost predicate HopListed(s: State, task: Task) {
    ValidTask(s, task) ==>
      var sequence := s.chains[task.id].hops[task.hop].sequence;
      1 <= sequence <= |s.order| && s.order[sequence - 1] == (task.id, task.hop)
  }

  lemma ListedAtStep(s: State, t: State, a: Action, p: nat)
    requires ListedAt(s, p) && p < |t.order|
    requires OpensOnly(s, t, a, t.order[p].0) && Evolves(ChainOf(s, t.order[p].0), ChainOf(t, t.order[p].0))
    ensures ListedAt(t, p)
  {
  }

  lemma HopListedStep(s: State, t: State, a: Action, task: Task)
    requires HopListed(s, task) && OpensOnly(s, t, a, task.id) && Evolves(ChainOf(s, task.id), ChainOf(t, task.id))
    ensures HopListed(t, task)
  {
  }

  // The archive list names every hop exactly once, in the order of capture:
  // entry number n is at position n - 1, and no position is left over.
  lemma {:induction false} ArchiveListsEachHopOnce(captureStart: Time, targetBytes: nat, actions: seq<Action>, p: nat,
                                                   task: Task)
    ensures var s := Run(Init(captureStart, targetBytes), actions); ListedAt(s, p) && HopListed(s, task)
    ensures var s := Run(Init(captureStart, targetBytes), actions);
            |s.order| <= DEFAULT_MAX_ENTRIES == s.maxEntries && s.maxBytes == DEFAULT_MAX_RETAINED_BYTES
  {
    if actions != [] {
      var before, a := actions[..|actions| - 1], actions[|actions| - 1];
      ArchiveListsEachHopOnce(captureStart, targetBytes, before, p, task);
      var s := Run(Init(captureStart, targetBytes), before);
      var t := Do(s, a).0;
      if p < |t.order| {
        DoOpens(s, a, t.order[p].0);
        DoFetch(s, a, Task(t.order[p].0, 0));
        ListedAtStep(s, t, a, p);
      }
      DoOpens(s, a, task.id);
      DoFetch(s, a, task);
      HopListedStep(s, t, a, task);
    }
  }

  ghost predicate AllListed(s: State) {
    forall p {:trigger s.order[p]} :: 0 <= p < |s.order| ==> ListedAt(s, p)
  }

  ghost predicate EveryHopListed(s: State) {
    forall task {:trigger HopListed(s, task)} :: HopListed(s, task)
  }

  ghost function ArchiveEntries(s: State): (r: seq<Entry>)
    requires AllListed(s)
    ensures |r| == |s.order|
  {
    seq(|s.order|, p requires 0 <= p < |s.order| => assert ListedAt(s, p); s.chains[s.order[p].0].hops[s.order[p].1])
  }

  lemma AllListedInRun(captureStart: Time, targetBytes: nat, actions: seq<Action>)
    ensures AllListed(Run(Init(captureStart, targetBytes), actions))
  {
    var s := Run(Init(captureStart, targetBytes), actions);
    forall p | 0 <= p < |s.order| ensures ListedAt(s, p) {
      ArchiveListsEachHopOnce(captureStart, targetBytes, actions, p, Task("", 0));
    }
  }

  // Sorting the entries for the archive leaves them as they are: any
  // arrangement of them in order of sequence is the one already there.
  lemma ArchiveSortChangesNothing(captureStart: Time, targetBytes: nat, actions: seq<Action>, sorted: seq<Entry>)
    ensures var s := Run(Init(captureStart, targetBytes), actions);
            AllListed(s)
            && (multiset(ArchiveEntries(s)) == multiset(sorted) && SortedBy(sorted, (e: Entry) => e.sequence)
                ==> sorted == ArchiveEntries(s))
  {
    var s := Run(Init(captureStart, targetBytes), actions);
    var sequence := (e: Entry) => e.sequence;
    AllListedInRun(captureStart, targetBytes, actions);
    if multiset(ArchiveEntries(s)) == multiset(sorted) && SortedBy(sorted, sequence) {
      ArchiveAscends(s, sequence);
      AscendingIsUnique(ArchiveEntries(s), sorted, sequence);
    }
  }

  lemma ArchiveAscends(s: State, sequence: Entry -> int)
    requires AllListed(s) && forall e :: sequence(e) == e.sequence
    ensures AscendingBy(ArchiveEntries(s), sequence)
  {
    forall p | 0 <= p < |s.order| ensures ArchiveEntries(s)[p].sequence == p + 1 {
      assert ListedAt(s, p);
    }
  }

  // ----- Limit errors -----

  // The first limit error is permanent: no later call replaces it, opens an
  // entry or hands over a task.
  lemma {:induction false} LimitErrorIsPermanent(s: State, actions: seq<Action>)
    requires s.limitErr.Some?
    ensures var t := Run(s, actions); t.limitErr == s.limitErr && t.order == s.order && TaskLog(s, actions) == []
  {
    if actions != [] {
      LimitErrorIsPermanent(s, actions[..|actions| - 1]);
    }
  }

  // ----- After the freeze -----

  // Every entry opened after the freeze starts at or before the cutoff.
  lemma {:induction false} EntriesStartBeforeCutoff(s: State, actions: seq<Action>, k: RequestID, i: nat)
    requires s.frozen && forall j :: 0 <= j < |actions| ==> !actions[j].Freeze?
    requires |ChainOf(s, k).hops| <= i < |ChainOf(Run(s, actions), k).hops|
    ensures s.cutoff != ZERO_TIME && ChainOf(Run(s, actions), k).hops[i].startedMono <= s.cutoff
  {
    StaysFrozenInRun(s, actions);
    if actions != [] {
      var before, a := actions[..|actions| - 1], actions[|actions| - 1];
      var t := Run(s, before);
      assert forall j :: 0 <= j < |before| ==> before[j] == actions[j];
      StaysFrozenInRun(s, before);
      if i < |ChainOf(t, k).hops| { EntriesStartBeforeCutoff(s, before, k, i); }
      DoFetch(t, a, Task(k, i));
      DoOpens(t, a, k);
      HopStartStep(t, Do(t, a).0, a, k, i);
    }
  }

  // A hop keeps the start it has; one that is new starts by the cutoff.
  lemma HopStartStep(t: State, u: State, a: Action, k: RequestID, i: nat)
    requires t.frozen && OpensOnly(t, u, a, k) && Evolves(ChainOf(t, k), ChainOf(u, k)) && i < |ChainOf(u, k).hops|
    ensures var start := ChainOf(u, k).hops[i].startedMono;
            if i < |ChainOf(t, k).hops| then start == ChainOf(t, k).hops[i].startedMono
            else t.cutoff != ZERO_TIME && start <= t.cutoff
  {
  }

  lemma {:induction false} StaysFrozenInRun(s: State, actions: seq<Action>)
    requires s.frozen && forall j :: 0 <= j < |actions| ==> !actions[j].Freeze?
    ensures Run(s, actions).frozen && Run(s, actions).cutoff == s.cutoff
  {
    if actions != [] {
      var before := actions[..|actions| - 1];
      assert forall j :: 0 <= j < |before| ==> before[j] == actions[j];
      StaysFrozenInRun(s, before);
      DoStaysFrozen(Run(s, before), actions[|actions| - 1]);
    }
  }
}
