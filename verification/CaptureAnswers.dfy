/** What becomes of the answers in a capture session: whatever the interleaving,
    what a worker fetched, or the error it met, is found on the entry that the
    task was handed out for. */
module CaptureAnswers {
  import opened Common
  import opened RecorderModel
  import opened RecorderRuns
  import opened RecorderBodies
  import opened Capture
  import Laws = RecorderLaws

  // ----- What other calls leave of an entry's answer -----

  // The entry is behind a redirect's, or the recorder has stopped recording.
  predicate Superseded(s: State, task: Task) {
    s.limitErr.Some? || task.hop + 1 < |ChainOf(s, task.id).hops|
  }

  // Nothing has changed of the answer, but a redirect may have put its own
  // error in place of an error; a new entry has no body.
  ghost predicate KeepsAnswer(s: State, t: State, task: Task) {
    && (s.limitErr.Some? ==> t.limitErr.Some?)
    && |ChainOf(s, task.id).hops| <= |ChainOf(t, task.id).hops|
    && (ValidTask(s, task) ==>
          && HopOf(t, task).body == HopOf(s, task).body
          && (HopOf(t, task).bodyError == HopOf(s, task).bodyError
              || (!Superseded(s, task) && Superseded(t, task) && HopOf(t, task).bodyError == REDIRECT_BODY_ERROR)))
    && (!ValidTask(s, task) && ValidTask(t, task) ==> HopOf(t, task).body.None?)
  }

  lemma KeepsAnswerThen(s: State, t: State, u: State, task: Task)
    requires KeepsAnswer(s, t, task) && KeepsAnswer(t, u, task)
    ensures KeepsAnswer(s, u, task)
  {
  }

  // The entries are the same to an answer.
  ghost predicate SameAnswers(c: Chain, d: Chain) {
    |d.hops| == |c.hops|
    && forall i {:trigger d.hops[i]} :: 0 <= i < |c.hops| ==>
      d.hops[i].body == c.hops[i].body && d.hops[i].bodyError == c.hops[i].bodyError
  }

  lemma SameAnswersKept(s: State, t: State, task: Task)
    requires SameAnswers(ChainOf(s, task.id), ChainOf(t, task.id)) && (s.limitErr.Some? ==> t.limitErr.Some?)
    ensures KeepsAnswer(s, t, task)
  {
  }

  lemma BecomesSameAnswers(c: Chain, d: Chain, f: Entry)
    requires Laws.NewestBecomes(c, d, f) && f.body == Last(c).body && f.bodyError == Last(c).bodyError
    ensures SameAnswers(c, d)
  {
  }

  lemma ToldSameAnswers(c: Chain, d: Chain)
    requires Laws.NewestTold(c, d)
    ensures SameAnswers(c, d)
  {
  }

  lemma HopAddedKept(s: State, e: Event, task: Task)
    requires e.RequestWillBeSent? && e.request.Some? && s.limitErr.None?
    ensures KeepsAnswer(s, Laws.WithHopAdded(s, e), task)
  {
  }

  lemma OpeningKept(s: State, e: Event, bodies: bool, task: Task)
    requires Laws.Counts(s, e) && e.RequestWillBeSent? && e.request.Some? && e.request.value.isHTTP
    requires ChainOf(s, e.id).hops == []
    ensures KeepsAnswer(s, HandleEvent(s, e, bodies).0, task)
  {
    Laws.OpeningLaw(s, e, bodies);
    var u := Laws.Joined(s, e.id).(postCutoff := s.postCutoff - {e.id});
    SameAnswersKept(s, u, task);
    if Laws.RequestRefusal(u, e.request.value).None? {
      HopAddedKept(u, e, task);
    } else {
      SameAnswersKept(u, HandleEvent(s, e, bodies).0, task);
    }
    KeepsAnswerThen(s, u, HandleEvent(s, e, bodies).0, task);
  }

  // A redirect's error is put on the newest hop, which the next one supersedes
  // unless the limits are reached.
  lemma ClosesKept(s: State, m: State, e: Event, bodies: bool, task: Task)
    requires e.RequestWillBeSent? && e.request.Some? && e.redirectResponse.Some? && s.limitErr.None?
    requires Laws.Closes(s, m, e, bodies)
    ensures var over := Laws.RequestRefusal(m, e.request.value);
            KeepsAnswer(s, if over.Some? then m.(limitErr := over) else Laws.WithHopAdded(m, e), task)
  {
    var c, d := ChainOf(s, e.id), ChainOf(m, e.id);
    if task.id != e.id {
      assert ChainOf(m, task.id) == ChainOf(s, task.id);
    } else if task.hop + 1 < |c.hops| {
      assert d.hops[task.hop] == Laws.Delivered(c.hops[task.hop], d.hops[task.hop]);
    } else if task.hop + 1 == |c.hops| {
      assert Last(d) == Laws.Delivered(Laws.Redirected(Last(c), e, bodies), Last(d));
    }
  }

  lemma RedirectKept(s: State, e: Event, bodies: bool, task: Task)
    requires Laws.Counts(s, e) && e.RequestWillBeSent? && e.request.Some? && e.request.value.isHTTP
    requires ChainOf(s, e.id).hops != [] && e.redirectResponse.Some?
    ensures KeepsAnswer(s, HandleEvent(s, e, bodies).0, task)
  {
    Laws.RedirectLaw(s, e, bodies);
    var u, t := s.(postCutoff := s.postCutoff - {e.id}), HandleEvent(s, e, bodies).0;
    SameAnswersKept(s, u, task);
    if Laws.RedirectRefusal(u, Last(ChainOf(s, e.id)), e.redirectResponse.value).Some? {
      SameAnswersKept(u, t, task);
    } else {
      var m :| Laws.Closes(u, m, e, bodies)
               && t == var over := Laws.RequestRefusal(m, e.request.value);
                       if over.Some? then m.(limitErr := over) else Laws.WithHopAdded(m, e);
      ClosesKept(u, m, e, bodies, task);
    }
    KeepsAnswerThen(s, u, t, task);
  }

  lemma BaseEventKept(s: State, e: Event, bodies: bool, task: Task)
    requires Laws.Counts(s, e) && e.RequestWillBeSent?
    ensures KeepsAnswer(s, HandleEvent(s, e, bodies).0, task)
  {
    if e.request.None? || !e.request.value.isHTTP || (ChainOf(s, e.id).hops != [] && e.redirectResponse.None?) {
      Laws.DuplicateLaw(s, e, bodies);
      SameAnswersKept(s, HandleEvent(s, e, bodies).0, task);
    } else if ChainOf(s, e.id).hops == [] {
      OpeningKept(s, e, bodies, task);
    } else {
      RedirectKept(s, e, bodies, task);
    }
  }

  lemma ExtraKept(s: State, e: Event, bodies: bool, task: Task)
    requires Laws.Counts(s, e) && (e.RequestExtraInfo? || e.ResponseExtraInfo?)
    ensures KeepsAnswer(s, HandleEvent(s, e, bodies).0, task)
  {
    var t := HandleEvent(s, e, bodies).0;
    if Laws.Parks(s, e) {
      Laws.ParkedLaw(s, e, bodies);
    } else if e.RequestExtraInfo? {
      Laws.RequestExtraLaw(s, e, bodies);
      if t.limitErr.None? { ToldSameAnswers(ChainOf(s, e.id), ChainOf(t, e.id)); }
    } else {
      Laws.ResponseExtraLaw(s, e, bodies);
      if t.limitErr.None? { ToldSameAnswers(ChainOf(s, e.id), ChainOf(t, e.id)); }
    }
    SameAnswersKept(s, t, task);
  }

  lemma ResponseKept(s: State, e: Event, bodies: bool, task: Task)
    requires Laws.Counts(s, e) && e.ResponseReceived? && ChainOf(s, e.id).hops != []
    ensures KeepsAnswer(s, HandleEvent(s, e, bodies).0, task)
  {
    var t := HandleEvent(s, e, bodies).0;
    if e.response.None? {
      Laws.EmptyResponseLaw(s, e, bodies);
    } else {
      Laws.ResponseLaw(s, e, bodies);
      var c := ChainOf(s, e.id);
      if t.limitErr.None? { BecomesSameAnswers(c, ChainOf(t, e.id), Laws.Answered(Last(c), e)); }
    }
    SameAnswersKept(s, t, task);
  }

  lemma NewestKept(s: State, t: State, id: RequestID, f: Entry, task: Task)
    requires Laws.Touches(s, t, id) && Laws.NewestBecomes(ChainOf(s, id), ChainOf(t, id), f)
    requires f.body == Last(ChainOf(s, id)).body && f.bodyError == Last(ChainOf(s, id)).bodyError
    requires s.limitErr.None?
    ensures KeepsAnswer(s, t, task)
  {
    BecomesSameAnswers(ChainOf(s, id), ChainOf(t, id), f);
    SameAnswersKept(s, t, task);
  }

  lemma FinishedKept(s: State, e: Event, bodies: bool, task: Task)
    requires Laws.Counts(s, e) && e.LoadingFinished? && ChainOf(s, e.id).hops != []
    ensures KeepsAnswer(s, HandleEvent(s, e, bodies).0, task)
  {
    Laws.FinishedLaw(s, e, bodies);
    var h, at := Last(ChainOf(s, e.id)), Laws.At(e.timestamp);
    NewestKept(s, HandleEvent(s, e, bodies).0, e.id,
               h.(finishedMono := at, lastEventMono := Laws.Latest(h.lastEventMono, at),
                  encodedDataLength := e.encodedDataLength, loadingFinished := true), task);
  }

  lemma FailedKept(s: State, e: Event, bodies: bool, task: Task)
    requires Laws.Counts(s, e) && e.LoadingFailed? && ChainOf(s, e.id).hops != []
    ensures KeepsAnswer(s, HandleEvent(s, e, bodies).0, task)
  {
    Laws.FailedLaw(s, e, bodies);
    var kept := Laws.Refusal(s, 0, 0, Laws.FailureText(e).bytes + 64).None?;
    NewestKept(s, HandleEvent(s, e, bodies).0, e.id, Laws.Failed(ChainOf(s, e.id), e, kept), task);
  }

  lemma DataKept(s: State, e: Event, bodies: bool, task: Task)
    requires Laws.Counts(s, e) && e.DataReceived? && ChainOf(s, e.id).hops != []
    ensures KeepsAnswer(s, HandleEvent(s, e, bodies).0, task)
  {
    Laws.DataLaw(s, e, bodies);
    var h := Last(ChainOf(s, e.id));
    NewestKept(s, HandleEvent(s, e, bodies).0, e.id,
               h.(lastEventMono := Laws.Latest(h.lastEventMono, Laws.At(e.timestamp)),
                  decodedBodyLength := h.decodedBodyLength + Max(0, e.dataLength),
                  encodedBodyLength := h.encodedBodyLength + Max(0, e.encodedLength)), task);
  }

  lemma CacheKept(s: State, e: Event, bodies: bool, task: Task)
    requires Laws.Counts(s, e) && e.ServedFromCache? && ChainOf(s, e.id).hops != []
    ensures KeepsAnswer(s, HandleEvent(s, e, bodies).0, task)
  {
    Laws.CacheLaw(s, e, bodies);
    NewestKept(s, HandleEvent(s, e, bodies).0, e.id, Last(ChainOf(s, e.id)).(servedFromCache := true), task);
  }

  lemma EventKept(s: State, e: Event, bodies: bool, task: Task)
    ensures KeepsAnswer(s, HandleEvent(s, e, bodies).0, task)
  {
    if !Laws.Counts(s, e) {
      Laws.OtherEventsChangeNothing(s, e, bodies);
    } else if e.RequestWillBeSent? {
      BaseEventKept(s, e, bodies, task);
    } else if e.RequestExtraInfo? || e.ResponseExtraInfo? {
      ExtraKept(s, e, bodies, task);
    } else if e.DomContentEventFired? || e.LoadEventFired? {
      Laws.PageLaw(s, e, bodies);
    } else if ChainOf(s, e.id).hops == [] {
      Laws.UnknownLaw(s, e, bodies);
    } else if e.ResponseReceived? {
      ResponseKept(s, e, bodies, task);
    } else {
      match e
      case LoadingFinished(_, _, _) => FinishedKept(s, e, bodies, task);
      case LoadingFailed(_, _, _, _) => FailedKept(s, e, bodies, task);
      case DataReceived(_, _, _, _) => DataKept(s, e, bodies, task);
      case ServedFromCache(_) => CacheKept(s, e, bodies, task);
    }
  }

  lemma ReconciledKept(s: State, task: Task)
    ensures KeepsAnswer(s, ReconcileAll(s), task)
  {
    Laws.ReconcileDelivers(ChainOf(s, task.id));
    SameAnswersKept(s, ReconcileAll(s), task);
  }

  lemma BufferedKept(s: State, e: Event, bodies: bool, task: Task)
    ensures KeepsAnswer(s, HandleBufferedEvent(s, e, bodies).0, task)
  {
    var t := HandleBufferedEvent(s, e, bodies).0;
    if !e.ServedFromCache? {
      EventKept(s, e, bodies, task);
    } else if t != s {
      SameAnswersKept(s, t, task);
    }
  }

  lemma FlaggedKept(s: State, task: Task)
    ensures KeepsAnswer(s, MarkMissingExtraInfo(s), task)
  {
    ReconciledKept(s, task);
    SameAnswersKept(ReconcileAll(s), MarkMissingExtraInfo(s), task);
    KeepsAnswerThen(s, ReconcileAll(s), MarkMissingExtraInfo(s), task);
  }

  lemma OtherAnswerKept(s: State, answered: Task, outcome: FetchOutcome, task: Task)
    requires answered != task
    ensures KeepsAnswer(s, Do(s, AnswerBody(answered, outcome)).0, task)
  {
    if ValidTask(s, answered) { Laws.AnswerLaw(s, answered, outcome); }
  }

  // Only an answer changes what was answered.
  lemma CallKept(s: State, a: Action, task: Task)
    requires !a.AnswerBody? || a.task != task
    ensures KeepsAnswer(s, Do(s, a).0, task)
  {
    match a
    case Handle(e, bodies) => EventKept(s, e, bodies, task);
    case HandleBuffered(e, bodies) => BufferedKept(s, e, bodies, task);
    case Freeze(cutoff) => ReconciledKept(s.(frozen := true, cutoff := cutoff), task);
    case ReportError(_) =>
    case AnswerBody(answered, outcome) => OtherAnswerKept(s, answered, outcome, task);
    case MarkMissing => FlaggedKept(s, task);
  }

  // ----- Answers in a session -----

  datatype Answer = Answer(task: Task, outcome: FetchOutcome)

  // The answers that a step gives: a worker's, or that the queue is full.
  function AnswersOf(s: Session, step: Step): seq<Answer>
    requires Enabled(s.p, s.bodies, step)
  {
    match step
    case Finish(worker, outcome) => [Answer(s.p.working[worker], outcome)]
    case Send =>
      if |s.p.queue| < 64 then []
      else [Answer(s.p.unsent[0], FetchFailed("CDP response-body retrieval queue is full"))]
    case _ => []
  }

  // All answers given, in order.
  function Answers(s: Session, steps: seq<Step>): seq<Answer> {
    if steps == [] then []
    else
      var before, step := steps[..|steps| - 1], steps[|steps| - 1];
      var t := After(s, before);
      Answers(s, before) + if Enabled(t.p, t.bodies, step) then AnswersOf(t, step) else []
  }

  function TasksOf(answers: seq<Answer>): (r: seq<Task>)
    ensures |r| == |answers|
  {
    seq(|answers|, i requires 0 <= i < |answers| => answers[i].task)
  }

  // What the entry shows of an answer: the fetched body, or the note that it
  // was too much for the limits; the message of a failed fetch, in whose place
  // a redirect after it may put its own. `kept` if the answer is there for good.
  predicate Shows(s: State, answer: Answer, kept: bool) {
    && ValidTask(s, answer.task)
    && var e := HopOf(s, answer.task);
       match answer.outcome
       case Fetched(body) =>
         if kept then e.body == Some(body) else e.body.None? && e.bodyError == BODY_OMITTED_ERROR && s.limitErr.Some?
       case FetchFailed(message) =>
         && e.body.None?
         && if kept then e.bodyError == message && Superseded(s, answer.task)
            else e.bodyError == message || (e.bodyError == REDIRECT_BODY_ERROR && Superseded(s, answer.task))
  }

  // There is room for what was fetched; no redirect can come any more to what
  // was not.
  predicate Keeps(s: State, answer: Answer) {
    match answer.outcome
    case Fetched(body) => Laws.BodyFits(s, body)
    case FetchFailed(_) => Superseded(s, answer.task)
  }

  lemma KeptShows(s: State, t: State, answer: Answer, kept: bool)
    requires Shows(s, answer, kept) && KeepsAnswer(s, t, answer.task)
    ensures Shows(t, answer, kept)
  {
  }

  lemma AnswerShows(s: State, answer: Answer)
    requires ValidTask(s, answer.task) && HopOf(s, answer.task).body.None?
    ensures Shows(Do(s, AnswerBody(answer.task, answer.outcome)).0, answer, Keeps(s, answer))
  {
    Laws.AnswerLaw(s, answer.task, answer.outcome);
  }

  // The call that a step makes is the answer it gives, if it gives one.
  lemma StepAnswers(s: Session, step: Step)
    requires Enabled(s.p, s.bodies, step)
    ensures var a, answers := CallOf(s.p, s.bodies, step), AnswersOf(s, step);
            if a.Some? && a.value.AnswerBody? then answers == [Answer(a.value.task, a.value.outcome)] else answers == []
  {
  }

  lemma StepKept(s: Session, step: Step, task: Task)
    requires Enabled(s.p, s.bodies, step) && task !in TasksOf(AnswersOf(s, step))
    ensures KeepsAnswer(s.rec, Next(s, step).rec, task)
  {
    StepAnswers(s, step);
    match CallOf(s.p, s.bodies, step)
    case None => ReconciledKept(s.rec, task);
    case Some(a) =>
      if a.AnswerBody? { assert TasksOf(AnswersOf(s, step))[0] == a.task; }
      CallKept(s.rec, a, task);
  }

  lemma TasksOfMore(known: seq<Answer>, given: seq<Answer>)
    ensures TasksOf(known + given) == TasksOf(known) + TasksOf(given)
  {
  }

  lemma StepCalls(t: Session, step: Step, known: seq<Answer>)
    requires Enabled(t.p, t.bodies, step) && TasksOf(known) == Capture.Answered(t.input)
    ensures TasksOf(known + AnswersOf(t, step)) == Capture.Answered(Next(t, step).input)
  {
    StepAnswers(t, step);
    TasksOfMore(known, AnswersOf(t, step));
    match CallOf(t.p, t.bodies, step)
    case None =>
    case Some(a) => AnsweredAppend(t.input, a);
  }

  lemma {:induction false} AnswersAreCalls(captureStart: Time, targetBytes: nat, bodies: bool, steps: seq<Step>)
    ensures var s0 := Start(captureStart, targetBytes, bodies);
            TasksOf(Answers(s0, steps)) == Capture.Answered(After(s0, steps).input)
  {
    if steps != [] {
      var s0, before, step := Start(captureStart, targetBytes, bodies), steps[..|steps| - 1], steps[|steps| - 1];
      AnswersAreCalls(captureStart, targetBytes, bodies, before);
      var t := After(s0, before);
      if Enabled(t.p, t.bodies, step) { StepCalls(t, step, Answers(s0, before)); }
    }
  }

  // A task that a step answers has been handed out, and was not answered yet.
  lemma AnsweredByStep(captureStart: Time, targetBytes: nat, bodies: bool, before: seq<Step>, step: Step, task: Task)
    requires var t := After(Start(captureStart, targetBytes, bodies), before);
             Enabled(t.p, t.bodies, step) && task in TasksOf(AnswersOf(t, step))
    ensures var s0 := Start(captureStart, targetBytes, bodies);
            ValidTask(After(s0, before).rec, task) && task !in TasksOf(Answers(s0, before))
  {
    var s0 := Start(captureStart, targetBytes, bodies);
    var t := After(s0, before);
    EachTaskInOnePlace(captureStart, targetBytes, bodies, before, task);
    assert task in t.p.unsent || task in t.p.working;
    assert multiset(t.p.unsent)[task] > 0 || multiset(t.p.working)[task] > 0;
    RecorderRunsItsInput(captureStart, targetBytes, bodies, before);
    FetchedAreScheduled(Init(t.captureStart, t.targetBytes), t.input, task);
    AnswersAreCalls(captureStart, targetBytes, bodies, before);
    Invariant(captureStart, targetBytes, bodies, before);
    assert multiset(Capture.Answered(t.input))[task] == 0;
  }

  // The answers to a task are found on its entry, and without any it has no body.
  ghost predicate AnswersFound(s: State, answers: seq<Answer>, task: Task) {
    && (forall i :: 0 <= i < |answers| && answers[i].task == task ==>
          Shows(s, answers[i], true) || Shows(s, answers[i], false))
    && (ValidTask(s, task) && task !in TasksOf(answers) ==> HopOf(s, task).body.None?)
  }

  lemma NoneGiven(s: State, known: seq<Answer>, given: seq<Answer>, task: Task)
    requires AnswersFound(s, known, task) && task !in TasksOf(given)
    ensures AnswersFound(s, known + given, task)
  {
    TasksOfMore(known, given);
    assert forall i :: 0 <= i < |given| ==> TasksOf(given)[i] == given[i].task;
  }

  lemma KeptFound(s: State, t: State, answers: seq<Answer>, task: Task)
    requires AnswersFound(s, answers, task) && KeepsAnswer(s, t, task)
    ensures AnswersFound(t, answers, task)
  {
  }

  lemma OneGiven(s: State, known: seq<Answer>, answer: Answer)
    requires answer.task !in TasksOf(known) && (Shows(s, answer, true) || Shows(s, answer, false))
    ensures AnswersFound(s, known + [answer], answer.task)
  {
    TasksOfMore(known, [answer]);
    assert TasksOf([answer])[0] == answer.task;
    assert forall i :: 0 <= i < |known| ==> TasksOf(known)[i] == known[i].task;
  }

  lemma StepShows(t: Session, step: Step, answer: Answer)
    requires Enabled(t.p, t.bodies, step) && AnswersOf(t, step) == [answer]
    requires ValidTask(t.rec, answer.task) && HopOf(t.rec, answer.task).body.None?
    ensures Shows(Next(t, step).rec, answer, Keeps(t.rec, answer))
  {
    StepAnswers(t, step);
    AnswerShows(t.rec, answer);
  }

  lemma StepFinds(t: Session, step: Step, known: seq<Answer>, task: Task)
    requires Enabled(t.p, t.bodies, step) && AnswersFound(t.rec, known, task)
    requires task in TasksOf(AnswersOf(t, step)) ==> ValidTask(t.rec, task) && task !in TasksOf(known)
    ensures AnswersFound(Next(t, step).rec, known + AnswersOf(t, step), task)
  {
    if task in TasksOf(AnswersOf(t, step)) {
      var answer := AnswersOf(t, step)[0];
      StepShows(t, step, answer);
      OneGiven(Next(t, step).rec, known, answer);
    } else {
      StepKept(t, step, task);
      KeptFound(t.rec, Next(t, step).rec, known, task);
      NoneGiven(Next(t, step).rec, known, AnswersOf(t, step), task);
    }
  }

  lemma {:induction false} AnswersAreFound(captureStart: Time, targetBytes: nat, bodies: bool, steps: seq<Step>,
                                           task: Task)
    ensures var s0 := Start(captureStart, targetBytes, bodies);
            AnswersFound(After(s0, steps).rec, Answers(s0, steps), task)
  {
    if steps != [] {
      var s0, before, step := Start(captureStart, targetBytes, bodies), steps[..|steps| - 1], steps[|steps| - 1];
      AnswersAreFound(captureStart, targetBytes, bodies, before, task);
      var t := After(s0, before);
      if Enabled(t.p, t.bodies, step) {
        if task in TasksOf(AnswersOf(t, step)) {
          AnsweredByStep(captureStart, targetBytes, bodies, before, step, task);
        }
        StepFinds(t, step, Answers(s0, before), task);
      } else {
        NoneGiven(t.rec, Answers(s0, before), [], task);
      }
    }
  }

  // The step that gives the answer leaves it on the entry.
  lemma AnswerIsLeft(captureStart: Time, targetBytes: nat, bodies: bool, before: seq<Step>, step: Step,
                     answer: Answer)
    requires var t := After(Start(captureStart, targetBytes, bodies), before);
             Enabled(t.p, t.bodies, step) && AnswersOf(t, step) == [answer]
    ensures var t := After(Start(captureStart, targetBytes, bodies), before);
            Shows(Next(t, step).rec, answer, Keeps(t.rec, answer))
  {
    assert TasksOf([answer])[0] == answer.task;
    AnsweredByStep(captureStart, targetBytes, bodies, before, step, answer.task);
    AnswersAreFound(captureStart, targetBytes, bodies, before, answer.task);
    StepShows(After(Start(captureStart, targetBytes, bodies), before), step, answer);
  }

  // Later steps leave it there.
  lemma AnsweredStays(captureStart: Time, targetBytes: nat, bodies: bool, before: seq<Step>, step: Step,
                      answer: Answer, kept: bool)
    requires var s0 := Start(captureStart, targetBytes, bodies); var t := After(s0, before);
             && Enabled(t.p, t.bodies, step) && answer in Answers(s0, before) && Shows(t.rec, answer, kept)
    ensures Shows(Next(After(Start(captureStart, targetBytes, bodies), before), step).rec, answer, kept)
  {
    var s0 := Start(captureStart, targetBytes, bodies);
    var t, answers := After(s0, before), Answers(s0, before);
    var i :| 0 <= i < |answers| && answers[i] == answer;
    assert TasksOf(answers)[i] == answer.task;
    if answer.task in TasksOf(AnswersOf(t, step)) {
      AnsweredByStep(captureStart, targetBytes, bodies, before, step, answer.task);
    }
    StepKept(t, step, answer.task);
    KeptShows(t.rec, Next(t, step).rec, answer, kept);
  }

  lemma AfterMore(s0: Session, before: seq<Step>, step: Step)
    ensures var t, u := After(s0, before), After(s0, before + [step]);
            if Enabled(t.p, t.bodies, step)
            then u == Next(t, step) && Answers(s0, before + [step]) == Answers(s0, before) + AnswersOf(t, step)
            else u == t && Answers(s0, before + [step]) == Answers(s0, before)
  {
    assert (before + [step])[..|before|] == before;
  }

  // An answer stays as the step that gave it left it, whatever follows.
  lemma {:induction false} AnswerStays(captureStart: Time, targetBytes: nat, bodies: bool, before: seq<Step>,
                                       step: Step, after: seq<Step>, answer: Answer)
    requires var t := After(Start(captureStart, targetBytes, bodies), before);
             Enabled(t.p, t.bodies, step) && AnswersOf(t, step) == [answer]
    ensures var s0 := Start(captureStart, targetBytes, bodies); var all := before + [step] + after;
            && Shows(After(s0, all).rec, answer, Keeps(After(s0, before).rec, answer))
            && answer in Answers(s0, all)
  {
    var s0 := Start(captureStart, targetBytes, bodies);
    if after == [] {
      assert before + [step] + after == before + [step];
      AfterMore(s0, before, step);
      AnswerIsLeft(captureStart, targetBytes, bodies, before, step, answer);
    } else {
      var n := |after| - 1;
      var known := before + [step] + after[..n];
      assert before + [step] + after == known + [after[n]];
      AnswerStays(captureStart, targetBytes, bodies, before, step, after[..n], answer);
      AfterMore(s0, known, after[n]);
      var u := After(s0, known);
      if Enabled(u.p, u.bodies, after[n]) {
        AnsweredStays(captureStart, targetBytes, bodies, known, after[n], answer, Keeps(After(s0, before).rec, answer));
      }
    }
  }

  // ----- The theorems -----

  // What a worker fetched is the body of the entry it was fetched for, if, and
  // only if, there was room for it; otherwise a note says so. The message of a
  // failed fetch stays unless the entry is redirected afterwards.
  lemma FinishedReachesEntry(captureStart: Time, targetBytes: nat, bodies: bool, before: seq<Step>, worker: nat,
                             outcome: FetchOutcome, after: seq<Step>)
    requires worker < |After(Start(captureStart, targetBytes, bodies), before).p.working|
    ensures var s0 := Start(captureStart, targetBytes, bodies);
            var t, s := After(s0, before).rec, After(s0, before + [Finish(worker, outcome)] + after).rec;
            var task := After(s0, before).p.working[worker];
            && ValidTask(s, task)
            && var e := HopOf(s, task);
               match outcome
               case Fetched(body) =>
                 if Laws.BodyFits(t, body) then e.body == Some(body)
                 else e.body.None?
                      && e.bodyError == "response body omitted because the capture retention limit was reached"
               case FetchFailed(message) =>
                 && e.body.None?
                 && (e.bodyError == message
                     || (!Superseded(t, task) && Superseded(s, task) && e.bodyError == REDIRECT_BODY_ERROR))
  {
    var t := After(Start(captureStart, targetBytes, bodies), before);
    AnswerStays(captureStart, targetBytes, bodies, before, Finish(worker, outcome), after,
                Answer(t.p.working[worker], outcome));
  }

  // A task sent to a queue of 64 leaves a message on its entry.
  lemma RefusedReachesEntry(captureStart: Time, targetBytes: nat, bodies: bool, before: seq<Step>, after: seq<Step>)
    requires var t := After(Start(captureStart, targetBytes, bodies), before); t.p.unsent != [] && |t.p.queue| >= 64
    ensures var s0 := Start(captureStart, targetBytes, bodies);
            var t, s := After(s0, before).rec, After(s0, before + [Send] + after).rec;
            var task := After(s0, before).p.unsent[0];
            && ValidTask(s, task)
            && var e := HopOf(s, task);
               && e.body.None?
               && (e.bodyError == "CDP response-body retrieval queue is full"
                   || (!Superseded(t, task) && Superseded(s, task) && e.bodyError == REDIRECT_BODY_ERROR))
  {
    var t := After(Start(captureStart, targetBytes, bodies), before);
    AnswerStays(captureStart, targetBytes, bodies, before, Send, after,
                Answer(t.p.unsent[0], FetchFailed("CDP response-body retrieval queue is full")));
  }

  // An entry has a body only if a worker fetched it for that entry.
  lemma BodiesWereFetched(captureStart: Time, targetBytes: nat, bodies: bool, steps: seq<Step>, task: Task)
    requires ValidTask(After(Start(captureStart, targetBytes, bodies), steps).rec, task)
    ensures var s0 := Start(captureStart, targetBytes, bodies);
            var body := HopOf(After(s0, steps).rec, task).body;
            body.Some? ==> Answer(task, Fetched(body.value)) in Answers(s0, steps)
  {
    var s0 := Start(captureStart, targetBytes, bodies);
    var s, answers := After(s0, steps).rec, Answers(s0, steps);
    AnswersAreFound(captureStart, targetBytes, bodies, steps, task);
    if HopOf(s, task).body.Some? {
      var i :| 0 <= i < |TasksOf(answers)| && TasksOf(answers)[i] == task;
      assert answers[i] == Answer(task, Fetched(HopOf(s, task).body.value));
    }
  }

  // No task is answered twice, and once the workers have been joined each has
  // been answered: by the one answer that its entry shows.
  lemma EveryTaskShowsItsAnswer(captureStart: Time, targetBytes: nat, bodies: bool, steps: seq<Step>, task: Task)
    ensures var s0 := Start(captureStart, targetBytes, bodies); var s := After(s0, steps);
            var answers := Answers(s0, steps);
            && (forall i, j :: 0 <= i < j < |answers| ==> answers[i].task != answers[j].task)
            && (forall i :: 0 <= i < |answers| ==>
                  Shows(s.rec, answers[i], true) || Shows(s.rec, answers[i], false))
            && (s.p.main.Joined? && task in TaskLog(Init(captureStart, targetBytes), s.input) ==>
                  exists i :: 0 <= i < |answers| && answers[i].task == task)
  {
    var s0 := Start(captureStart, targetBytes, bodies);
    var s, answers := After(s0, steps), Answers(s0, steps);
    AnswersAreCalls(captureStart, targetBytes, bodies, steps);
    forall i | 0 <= i < |answers| ensures Shows(s.rec, answers[i], true) || Shows(s.rec, answers[i], false) {
      AnswersAreFound(captureStart, targetBytes, bodies, steps, answers[i].task);
    }
    forall i, j | 0 <= i < j < |answers| ensures answers[i].task != answers[j].task {
      EachTaskAnsweredOnce(captureStart, targetBytes, bodies, steps, answers[j].task);
      OnceIsOnce(TasksOf(answers), i, j);
    }
    SameStart(s0, steps);
    EachTaskAnsweredOnce(captureStart, targetBytes, bodies, steps, task);
    if s.p.main.Joined? && task in TaskLog(Init(captureStart, targetBytes), s.input) {
      var i :| 0 <= i < |TasksOf(answers)| && TasksOf(answers)[i] == task;
      assert answers[i].task == task;
    }
  }

  lemma OnceIsOnce(tasks: seq<Task>, i: nat, j: nat)
    requires i < j < |tasks| && multiset(tasks)[tasks[j]] <= 1
    ensures tasks[i] != tasks[j]
  {
    assert tasks == tasks[..i] + [tasks[i]] + tasks[i + 1..];
    assert tasks[i + 1..][j - i - 1] == tasks[j];
    assert multiset(tasks)[tasks[i]] == multiset(tasks[..i])[tasks[i]] + 1 + multiset(tasks[i + 1..])[tasks[i]];
    assert multiset(tasks[i + 1..])[tasks[j]] > 0;
  }

  lemma {:induction false} SameStart(s: Session, steps: seq<Step>)
    ensures var t := After(s, steps); t.captureStart == s.captureStart && t.targetBytes == s.targetBytes
  {
    if steps != [] { SameStart(s, steps[..|steps| - 1]); }
  }

  // ----- The freeze buffer, and the end -----

  // While the cutoff is being established, an event that fits the buffer waits
  // there and the recorder is left alone; one that does not is the end.
  lemma BufferTakesWhatFits(t: Session, event: Event, bytes: nat)
    requires Enabled(t.p, t.bodies, Arrive(event, bytes)) && t.p.acceptTasks && t.p.freezing
    ensures var u := Next(t, Arrive(event, bytes));
            if t.p.bufferBytes + bytes <= 16_777_216
            then u.rec == t.rec && EventsOf(u.p.buffer) == EventsOf(t.p.buffer) + [event]
            else && u.p.buffer == t.p.buffer
                 && u.rec.limitErr == Some(t.rec.limitErr.GetOr(CaptureError(
                      "CDP event buffer exceeded its byte limit while establishing the capture cutoff")))
  {
    if t.p.bufferBytes + bytes > 16_777_216 { Laws.ErrorLaw(t.rec, CaptureError(BUFFER_FULL)); }
  }

  // The entries of an ID are flagged exactly where extra info is lacking.
  ghost predicate FlaggedAt(s: State, k: RequestID) {
    forall i {:trigger ChainOf(s, k).hops[i]} :: 0 <= i < |ChainOf(s, k).hops| ==>
      (ChainOf(s, k).hops[i].incomplete <==> Laws.Lacks(ChainOf(s, k).hops[i]))
  }

  lemma {:induction false} FlaggedWhenJoined(captureStart: Time, targetBytes: nat, bodies: bool, steps: seq<Step>,
                                             k: RequestID)
    ensures var s := After(Start(captureStart, targetBytes, bodies), steps);
            s.p.main.Joined? ==> FlaggedAt(s.rec, k)
  {
    if steps != [] {
      var s0, before, step := Start(captureStart, targetBytes, bodies), steps[..|steps| - 1], steps[|steps| - 1];
      FlaggedWhenJoined(captureStart, targetBytes, bodies, before, k);
      var t := After(s0, before);
      Invariant(captureStart, targetBytes, bodies, before);
      if Enabled(t.p, t.bodies, step) {
        if step.Join? {
          Laws.MarkMissingLaw(t.captureStart, t.targetBytes, t.input, k);
        } else if t.p.main.Joined? {
          NothingAfterTheEnd(t, step);
        }
      }
    }
  }

  lemma NothingAfterTheEnd(t: Session, step: Step)
    requires Enabled(t.p, t.bodies, step) && t.p.main.Joined? && ClosedOk(t.p, t.h)
    ensures Next(t, step).rec == t.rec
  {
  }
}
