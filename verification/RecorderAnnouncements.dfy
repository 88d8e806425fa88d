/** Which hops expect extra info, and which extra each of them holds, over whole
    runs: what a hop expects is what was announced for it last, and a hop that
    expects extras holds the oldest that earlier hops have left. */
module RecorderAnnouncements {
  import opened Common
  import opened Lanes
  import opened RecorderModel
  import opened RecorderRuns
  import opened RecorderLaws
  import RecorderBodies
  import RecorderBudget
  import RecorderOrder

  // ----- Expectations -----

  predicate HandsOver(a: Action, k: RequestID) {
    (a.Handle? || a.HandleBuffered?) && !a.event.DomContentEventFired? && !a.event.LoadEventFired? && a.event.id == k
  }

  // Taken from s, the call announces whether extra info comes for hop i: the
  // newest hop of its ID, by a response, by the redirect that ends it, or by
  // extras that come to a hop whose load has failed.
  predicate Announces(s: State, a: Action, k: RequestID, i: nat, comes: bool) {
    && HandsOver(a, k) && Counts(s, a.event) && |ChainOf(s, k).hops| == i + 1
    && match a.event
       case ResponseReceived(_, _, _, response, hasExtraInfo) => response.Some? && comes == hasExtraInfo
       case RequestWillBeSent(_, _, _, _, request, redirectResponse, redirectHasExtraInfo) =>
         request.Some? && request.value.isHTTP && redirectResponse.Some? && comes == redirectHasExtraInfo
       case LoadingFailed(_, _, _, _) => comes && Unannounced(ChainOf(s, k))
       case RequestExtraInfo(_, _) =>
         comes && Last(ChainOf(s, k)).terminalFailure && Last(ChainOf(s, k)).expectation.Unknown?
       case ResponseExtraInfo(_, _) =>
         comes && Last(ChainOf(s, k)).terminalFailure && Last(ChainOf(s, k)).expectation.Unknown?
       case _ => false
  }

  // What was announced last for hop i of the ID.
  function LastAnnounced(s: State, actions: seq<Action>, k: RequestID, i: nat): Expectation {
    if actions == [] then Unknown
    else
      var before, a := actions[..|actions| - 1], actions[|actions| - 1];
      if Announces(Run(s, before), a, k, i, true) then Expected
      else if Announces(Run(s, before), a, k, i, false) then NotExpected
      else LastAnnounced(s, before, k, i)
  }

  function ExpectationAt(c: Chain, i: nat): Expectation {
    if i < |c.hops| then c.hops[i].expectation else Unknown
  }

  // What the call makes of the expectation of hop i.
  predicate Follows(s: State, a: Action, d: Chain, k: RequestID, i: nat) {
    ExpectationAt(d, i) == if Announces(s, a, k, i, true) then Expected
                           else if Announces(s, a, k, i, false) then NotExpected
                           else ExpectationAt(ChainOf(s, k), i)
  }

  lemma NewestFollows(s: State, a: Action, d: Chain, k: RequestID, i: nat, f: Entry)
    requires NewestBecomes(ChainOf(s, k), d, f)
    requires var n := |ChainOf(s, k).hops| - 1;
             f.expectation == if Announces(s, a, k, n, true) then Expected
                              else if Announces(s, a, k, n, false) then NotExpected else Last(ChainOf(s, k)).expectation
    ensures Follows(s, a, d, k, i)
  {
    var c := ChainOf(s, k);
    if i < |c.hops| - 1 { assert d.hops[i] == Delivered(c.hops[i], d.hops[i]); }
  }

  lemma DeliveredFollows(s: State, a: Action, d: Chain, k: RequestID, i: nat)
    requires DeliveredOnly(ChainOf(s, k), d) && !Announces(s, a, k, i, true) && !Announces(s, a, k, i, false)
    ensures Follows(s, a, d, k, i)
  {
    if i < |d.hops| { assert d.hops[i] == Delivered(ChainOf(s, k).hops[i], d.hops[i]); }
  }

  lemma ResponseFollows(s: State, a: Action, k: RequestID, i: nat)
    requires HandsOver(a, k) && a.event.ResponseReceived? && HandleEvent(s, a.event, a.bodies).0.limitErr.None?
    requires Counts(s, a.event) && ChainOf(s, k).hops != []
    ensures Follows(s, a, ChainOf(HandleEvent(s, a.event, a.bodies).0, k), k, i)
  {
    var e, c, d := a.event, ChainOf(s, k), ChainOf(HandleEvent(s, a.event, a.bodies).0, k);
    if e.response.Some? {
      ResponseLaw(s, e, a.bodies);
      NewestFollows(s, a, d, k, i, Answered(Last(c), e));
    } else {
      EmptyResponseLaw(s, e, a.bodies);
      DeliveredFollows(s, a, d, k, i);
    }
  }

  lemma FailureFollows(s: State, a: Action, k: RequestID, i: nat)
    requires HandsOver(a, k) && a.event.LoadingFailed? && HandleEvent(s, a.event, a.bodies).0.limitErr.None?
    requires Counts(s, a.event) && ChainOf(s, k).hops != []
    ensures Follows(s, a, ChainOf(HandleEvent(s, a.event, a.bodies).0, k), k, i)
  {
    var e, c, d := a.event, ChainOf(s, k), ChainOf(HandleEvent(s, a.event, a.bodies).0, k);
    FailedLaw(s, e, a.bodies);
    NewestFollows(s, a, d, k, i, Failed(c, e, true));
  }

  lemma ExtraFollows(s: State, a: Action, k: RequestID, i: nat)
    requires HandsOver(a, k) && (a.event.RequestExtraInfo? || a.event.ResponseExtraInfo?)
    requires HandleEvent(s, a.event, a.bodies).0.limitErr.None? && Counts(s, a.event) && !Parks(s, a.event)
    ensures Follows(s, a, ChainOf(HandleEvent(s, a.event, a.bodies).0, k), k, i)
  {
    var e, c, d := a.event, ChainOf(s, k), ChainOf(HandleEvent(s, a.event, a.bodies).0, k);
    if e.RequestExtraInfo? { RequestExtraLaw(s, e, a.bodies); } else { ResponseExtraLaw(s, e, a.bodies); }
    if c.hops != [] { NewestFollows(s, a, d, k, i, Told(Last(c))); }
  }

  lemma RedirectFollows(s: State, a: Action, k: RequestID, i: nat, m: State, d: Chain)
    requires HandsOver(a, k) && a.event.RequestWillBeSent? && Counts(s, a.event) && ChainOf(s, k).hops != []
    requires a.event.request.Some? && a.event.request.value.isHTTP && a.event.redirectResponse.Some?
    requires Closes(s.(postCutoff := s.postCutoff - {k}), m, a.event, a.bodies)
    requires d.hops == ChainOf(m, k).hops + [Fresh(m, a.event)]
    ensures Follows(s, a, d, k, i)
  {
    NewestFollows(s, a, ChainOf(m, k), k, i, Redirected(Last(ChainOf(s, k)), a.event, a.bodies));
    assert ExpectationAt(d, i) == ExpectationAt(ChainOf(m, k), i);
  }

  lemma RedirectGoesOn(s: State, e: Event, bodies: bool)
    requires Counts(s, e) && e.RequestWillBeSent? && e.request.Some? && e.request.value.isHTTP
    requires ChainOf(s, e.id).hops != [] && e.redirectResponse.Some? && HandleEvent(s, e, bodies).0.limitErr.None?
    ensures exists m {:trigger Closes(s.(postCutoff := s.postCutoff - {e.id}), m, e, bodies)} ::
              && Closes(s.(postCutoff := s.postCutoff - {e.id}), m, e, bodies)
              && ChainOf(HandleEvent(s, e, bodies).0, e.id).hops == ChainOf(m, e.id).hops + [Fresh(m, e)]
  {
    RedirectLaw(s, e, bodies);
    var u := s.(postCutoff := s.postCutoff - {e.id});
    var m :| Closes(u, m, e, bodies) && HandleEvent(s, e, bodies).0
             == var over := RequestRefusal(m, e.request.value);
                if over.Some? then m.(limitErr := over) else WithHopAdded(m, e);
    assert Closes(s.(postCutoff := s.postCutoff - {e.id}), m, e, bodies);
  }

  lemma BaseFollows(s: State, a: Action, k: RequestID, i: nat)
    requires HandsOver(a, k) && a.event.RequestWillBeSent? && Counts(s, a.event)
    requires HandleEvent(s, a.event, a.bodies).0.limitErr.None?
    ensures Follows(s, a, ChainOf(HandleEvent(s, a.event, a.bodies).0, k), k, i)
  {
    var e, c, d := a.event, ChainOf(s, k), ChainOf(HandleEvent(s, a.event, a.bodies).0, k);
    if e.request.None? || !e.request.value.isHTTP || (c.hops != [] && e.redirectResponse.None?) {
      DuplicateLaw(s, e, a.bodies);
      assert d == c;
    } else if c.hops == [] {
      OpeningLaw(s, e, a.bodies);
    } else {
      RedirectGoesOn(s, e, a.bodies);
      var m :| Closes(s.(postCutoff := s.postCutoff - {k}), m, e, a.bodies)
        && d.hops == ChainOf(m, k).hops + [Fresh(m, e)];
      RedirectFollows(s, a, k, i, m, d);
    }
  }

  lemma EventFollows(s: State, a: Action, k: RequestID, i: nat)
    requires HandsOver(a, k) && HandleEvent(s, a.event, a.bodies).0.limitErr.None?
    ensures Follows(s, a, ChainOf(HandleEvent(s, a.event, a.bodies).0, k), k, i)
  {
    var e, c := a.event, ChainOf(s, k);
    if !Counts(s, e) {
      OtherEventsChangeNothing(s, e, a.bodies);
    } else if Parks(s, e) {
      ParkedLaw(s, e, a.bodies);
    } else if e.RequestWillBeSent? {
      BaseFollows(s, a, k, i);
    } else if e.RequestExtraInfo? || e.ResponseExtraInfo? {
      ExtraFollows(s, a, k, i);
    } else if c.hops == [] {
      UnknownLaw(s, e, a.bodies);
    } else if e.ResponseReceived? {
      ResponseFollows(s, a, k, i);
    } else if e.LoadingFailed? {
      FailureFollows(s, a, k, i);
    } else {
      OthersFollow(s, a, k, i);
    }
  }

  lemma OthersFollow(s: State, a: Action, k: RequestID, i: nat)
    requires HandsOver(a, k) && (a.event.LoadingFinished? || a.event.DataReceived? || a.event.ServedFromCache?)
    requires Counts(s, a.event) && ChainOf(s, k).hops != []
    ensures Follows(s, a, ChainOf(HandleEvent(s, a.event, a.bodies).0, k), k, i)
  {
    var e, c, d := a.event, ChainOf(s, k), ChainOf(HandleEvent(s, a.event, a.bodies).0, k);
    if e.LoadingFinished? {
      FinishedLaw(s, e, a.bodies);
    } else if e.DataReceived? {
      DataLaw(s, e, a.bodies);
    } else {
      CacheLaw(s, e, a.bodies);
    }
    NewestFollows(s, a, d, k, i, Last(d).(requestExtra := Last(c).requestExtra, responseExtra := Last(c).responseExtra,
                                          bodyFetchScheduled := Last(c).bodyFetchScheduled));
  }

  // ----- Whole runs -----

  // Calls that hand over no event of the ID leave its expectations alone.
  lemma RestFollows(s: State, a: Action, k: RequestID, i: nat)
    requires !HandsOver(a, k)
    ensures Follows(s, a, ChainOf(Do(s, a).0, k), k, i)
  {
    var c, d := ChainOf(s, k), ChainOf(Do(s, a).0, k);
    match a
    case Handle(event, bodies) => RecorderBudget.HandleElsewhere(s, event, bodies, k);
    case HandleBuffered(event, bodies) =>
      if !event.ServedFromCache? { RecorderBudget.HandleElsewhere(s, event, bodies, k); }
    case Freeze(cutoff) => if k in s.chains { ReconcileDelivers(s.chains[k]); }
    case ReportError(_) =>
    case AnswerBody(task, outcome) => if ValidTask(s, task) { SetResponseBodyEffect(s, task, outcome); }
    case MarkMissing => if k in s.chains { ReconcileDelivers(s.chains[k]); }
  }

  lemma ErrorsStay(s: State, a: Action)
    requires s.limitErr.Some?
    ensures Do(s, a).0.limitErr.Some?
  {
    assert [a][..0] == [] && Run(s, [a]) == Do(Run(s, []), a).0;
    RecorderOrder.LimitErrorIsPermanent(s, [a]);
  }

  lemma DoFollows(s: State, a: Action, k: RequestID, i: nat)
    requires Do(s, a).0.limitErr.None?
    ensures Follows(s, a, ChainOf(Do(s, a).0, k), k, i)
  {
    if !HandsOver(a, k) {
      RestFollows(s, a, k, i);
    } else if a.Handle? || !a.event.ServedFromCache? {
      EventFollows(s, a, k, i);
    }
  }

  // While no limit is broken, what a hop expects is what was announced for it
  // last: nothing, that extra info comes, or that none does.
  lemma ExpectsWhatWasAnnounced(captureStart: Time, targetBytes: nat, actions: seq<Action>, k: RequestID, i: nat)
    requires Run(Init(captureStart, targetBytes), actions).limitErr.None?
    ensures var s0 := Init(captureStart, targetBytes); var c := ChainOf(Run(s0, actions), k);
            i < |c.hops| ==> c.hops[i].expectation == LastAnnounced(s0, actions, k, i)
  {
    AnnouncedInRun(captureStart, targetBytes, actions, k, i);
  }

  lemma {:induction false} AnnouncedInRun(captureStart: Time, targetBytes: nat, actions: seq<Action>, k: RequestID,
                                          i: nat)
    requires Run(Init(captureStart, targetBytes), actions).limitErr.None?
    ensures var s0 := Init(captureStart, targetBytes);
            ExpectationAt(ChainOf(Run(s0, actions), k), i) == LastAnnounced(s0, actions, k, i)
  {
    if actions != [] {
      var before, a := actions[..|actions| - 1], actions[|actions| - 1];
      var s := Run(Init(captureStart, targetBytes), before);
      if s.limitErr.Some? { ErrorsStay(s, a); }
      AnnouncedInRun(captureStart, targetBytes, before, k, i);
      DoFollows(s, a, k, i);
    }
  }

  // ----- Which extra a hop holds -----

  // How many of the first i hops hold a request extra, or a response extra.
  function RequestsHeld(hops: seq<Entry>, i: nat): nat
    requires i <= |hops|
  {
    if i == 0 then 0 else RequestsHeld(hops, i - 1) + if hops[i - 1].requestExtra.Some? then 1 else 0
  }

  function ResponsesHeld(hops: seq<Entry>, i: nat): nat
    requires i <= |hops|
  {
    if i == 0 then 0 else ResponsesHeld(hops, i - 1) + if hops[i - 1].responseExtra.Some? then 1 else 0
  }

  lemma {:induction false} HeldCounts(c: Chain, i: nat)
    requires i <= |c.hops|
    ensures RequestsHeld(c.hops, i) == |Attached(RequestLane(c).held[..i])|
    ensures ResponsesHeld(c.hops, i) == |Attached(ResponseLane(c).held[..i])|
  {
    if i > 0 {
      HeldCounts(c, i - 1);
      var xs, ys := RequestLane(c).held, ResponseLane(c).held;
      assert xs[..i] == xs[..i - 1] + [xs[i - 1]] && ys[..i] == ys[..i - 1] + [ys[i - 1]];
      AttachedConcat(xs[..i - 1], [xs[i - 1]]);
      AttachedConcat(ys[..i - 1], [ys[i - 1]]);
      AttachedOne(xs[i - 1]);
      AttachedOne(ys[i - 1]);
    }
  }

  lemma AttachedOne<X>(x: Option<X>)
    ensures Attached([x]) == if x.Some? then [x.value] else []
  {
    assert [x][1..] == [] && Attached<X>([]) == [];
  }

  // A hop that expects an extra holds the first that earlier hops have left.
  lemma NthOfLane<X>(gates: seq<Expectation>, lane: Lane<X>, i: nat)
    requires LaneOk(gates, lane) && i < |gates| && gates[i].Expected?
    ensures var n := |Attached(lane.held[..i])|;
            lane.held[i] == if n < |Contents(lane)| then Some(Contents(lane)[n]) else None
  {
    var before, after := lane.held[..i], lane.held[i..];
    assert lane.held == before + after && after == [lane.held[i]] + lane.held[i + 1..];
    AttachedConcat(before, after);
    AttachedConcat([lane.held[i]], lane.held[i + 1..]);
    AttachedOne(lane.held[i]);
    if lane.held[i].None? {
      var later := lane.held[i + 1..];
      forall j | 0 <= j < |later| ensures later[j].None? { assert later[j] == lane.held[i + 1 + j]; }
      AttachedNone(later);
    }
  }

  // Extra info goes to the hops that expect it, in the order of arrival: with
  // n of the earlier hops holding one, a hop that expects holds the n-th that
  // was accepted for its ID, or none while no such has come.
  lemma HoldsOldestLeft(captureStart: Time, targetBytes: nat, actions: seq<Action>, k: RequestID, i: nat)
    requires i < |ChainOf(Run(Init(captureStart, targetBytes), actions), k).hops|
    requires ChainOf(Run(Init(captureStart, targetBytes), actions), k).hops[i].expectation.Expected?
    ensures var s0 := Init(captureStart, targetBytes); var hops := ChainOf(Run(s0, actions), k).hops;
            var xs, ys := RequestLog(s0, actions, k), ResponseLog(s0, actions, k);
            var n, m := RequestsHeld(hops, i), ResponsesHeld(hops, i);
            && hops[i].requestExtra == (if n < |xs| then Some(xs[n]) else None)
            && hops[i].responseExtra == (if m < |ys| then Some(ys[m]) else None)
  {
    var c := ChainOf(Run(Init(captureStart, targetBytes), actions), k);
    ExtrasConserved(captureStart, targetBytes, actions, k);
    HeldCounts(c, i);
    NthOfLane(Gates(c.hops), RequestLane(c), i);
    NthOfLane(Gates(c.hops), ResponseLane(c), i);
  }
}
