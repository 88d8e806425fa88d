/** The freeze and replay protocol around the recorder. A browser listener, the
    capture's main routine and a pool of workers share one mutex, a bounded event
    buffer and a bounded task queue. A step is one region of the recorder's lock
    or one queue operation, so workers may move between any two of them, also
    while the buffer is replayed; the mutex is held from the event (or from the
    first replayed event) until its last task has been sent. */
module Capture {
  import opened Common
  import opened RecorderModel
  import opened RecorderRuns
  import opened RecorderBodies
  import opened RecorderOrder

  const MAX_CONCURRENT_FETCHES := 8
  const MAX_PENDING_FETCHES := 64
  const MAX_FREEZE_BUFFER_BYTES := 16_777_216
  const QUEUE_FULL := "CDP response-body retrieval queue is full"
  const BUFFER_FULL := "CDP event buffer exceeded its byte limit while establishing the capture cutoff"

  // Where the main routine stands.
  datatype Main = Running | AwaitingCutoff | Replaying(next: nat) | Draining | Failing | Stopped | Joined

  datatype Buffered = Buffered(event: Event, bytes: nat)

  // What the program keeps. `unsent` are tasks of the event being processed.
  datatype Protocol = Protocol(
    main: Main, freezing: bool, acceptTasks: bool, buffer: seq<Buffered>, bufferBytes: nat,
    cutoff: Option<Time>, unsent: seq<Task>, queue: seq<Task>, working: seq<Task>)

  // What has happened. Events are logged as they arrive: before the freeze,
  // during it, after it.
  datatype History = History(
    arrivals: seq<Event>, before: seq<Event>, during: seq<Event>, after: seq<Event>, lost: bool, failed: bool,
    sent: seq<Task>, refused: seq<Task>, taken: seq<Task>, finished: seq<Task>, closes: nat, sentAfterClose: bool)

  datatype Session = Session(captureStart: Time, targetBytes: nat, bodies: bool,
                             rec: State, input: seq<Action>, p: Protocol, h: History)

  datatype Step =
    | Arrive(event: Event, bytes: nat)
    | Send
    | BeginFreeze
    | Freeze(cutoff: Time)
    | Replay
    | EndReplay
    | AbandonFreeze
    | FailRun
    | Poll
    | Stop
    | Take
    | Finish(worker: nat, outcome: FetchOutcome)
    | Join

  function Start(captureStart: Time, targetBytes: nat, bodies: bool): Session {
    Session(captureStart, targetBytes, bodies, Init(captureStart, targetBytes), [],
            Protocol(Running, false, true, [], 0, None, [], [], []),
            History([], [], [], [], false, false, [], [], [], [], 0, false))
  }

  // ----- Steps -----

  predicate MutexFree(p: Protocol) {
    p.unsent == [] && !p.main.Replaying?
  }

  predicate Overflows(p: Protocol, bytes: nat) {
    bytes > MAX_FREEZE_BUFFER_BYTES - p.bufferBytes
  }

  predicate QueueFull(p: Protocol) {
    |p.queue| >= MAX_PENDING_FETCHES
  }

  predicate Enabled(p: Protocol, bodies: bool, step: Step) {
    match step
    case Arrive(_, _) => MutexFree(p)
    case Send => p.unsent != []
    case BeginFreeze => p.main.Running? && MutexFree(p)
    case Freeze(cutoff) => p.main.AwaitingCutoff? && MutexFree(p) && cutoff != ZERO_TIME
    case Replay => p.main.Replaying? && p.unsent == [] && p.main.next < |p.buffer|
    case EndReplay => p.main.Replaying? && p.unsent == [] && p.main.next >= |p.buffer|
    case AbandonFreeze => p.main.AwaitingCutoff? && MutexFree(p)
    case FailRun => p.main.Running?
    case Poll => p.main.Draining?
    case Stop => (p.main.Draining? || p.main.Failing? || p.main.Stopped?) && MutexFree(p)
    case Take => p.queue != [] && |p.working| < MAX_CONCURRENT_FETCHES && bodies
    case Finish(worker, _) => worker < |p.working|
    case Join => p.main.Stopped? && p.queue == [] && p.working == []
  }

  function Move(p: Protocol, bodies: bool, step: Step): Protocol
    requires Enabled(p, bodies, step)
  {
    match step
    case Arrive(event, bytes) =>
      if p.acceptTasks && p.freezing && !Overflows(p, bytes)
      then p.(buffer := p.buffer + [Buffered(event, bytes)], bufferBytes := p.bufferBytes + bytes) else p
    case Send =>
      if QueueFull(p) then p.(unsent := p.unsent[1..])
      else p.(unsent := p.unsent[1..], queue := p.queue + [p.unsent[0]])
    case BeginFreeze => p.(main := AwaitingCutoff, freezing := true)
    case Freeze(cutoff) => p.(main := Replaying(0), freezing := false, cutoff := Some(cutoff))
    case Replay => p.(main := Replaying(p.main.next + 1))
    case EndReplay => p.(main := Draining, buffer := [], bufferBytes := 0)
    case AbandonFreeze => p.(main := Failing, freezing := false, buffer := [], bufferBytes := 0)
    case FailRun => p.(main := Failing)
    case Poll => p
    case Stop => p.(main := Stopped, acceptTasks := false)
    case Take => p.(queue := p.queue[1..], working := p.working + [p.queue[0]])
    case Finish(worker, _) => p.(working := p.working[..worker] + p.working[worker + 1..])
    case Join => p.(main := Joined)
  }

  // The call into the recorder that a step makes, if any.
  function CallOf(p: Protocol, bodies: bool, step: Step): Option<Action>
    requires Enabled(p, bodies, step)
  {
    match step
    case Arrive(event, bytes) =>
      if !p.acceptTasks then None
      else if !p.freezing then Some(Handle(event, bodies))
      else if Overflows(p, bytes) then Some(ReportError(CaptureError(BUFFER_FULL)))
      else None
    case Send => if QueueFull(p) then Some(AnswerBody(p.unsent[0], FetchFailed(QUEUE_FULL))) else None
    case Freeze(cutoff) => Some(Action.Freeze(cutoff))
    case Replay => Some(HandleBuffered(p.buffer[p.main.next].event, bodies))
    case Finish(worker, outcome) => Some(AnswerBody(p.working[worker], outcome))
    case Join => Some(MarkMissing)
    case _ => None
  }

  function LogArrival(p: Protocol, h: History, event: Event, bytes: nat): History {
    var h := h.(arrivals := h.arrivals + [event]);
    if p.freezing then if Overflows(p, bytes) then h.(lost := true) else h.(during := h.during + [event])
    else if p.cutoff.None? then h.(before := h.before + [event])
    else h.(after := h.after + [event])
  }

  function LogSend(p: Protocol, h: History): History
    requires p.unsent != []
  {
    var h := h.(sentAfterClose := h.sentAfterClose || h.closes > 0);
    if QueueFull(p) then h.(refused := h.refused + [p.unsent[0]]) else h.(sent := h.sent + [p.unsent[0]])
  }

  // Closing a queue that is closed would be a run-time error; closes are counted.
  function Log(p: Protocol, h: History, bodies: bool, step: Step): History
    requires Enabled(p, bodies, step)
  {
    match step
    case Arrive(event, bytes) => if p.acceptTasks then LogArrival(p, h, event, bytes) else h
    case Send => LogSend(p, h)
    case AbandonFreeze => h.(failed := true, lost := h.lost || p.buffer != [], during := [])
    case FailRun => h.(failed := true)
    case Stop => if p.acceptTasks then h.(closes := h.closes + 1) else h
    case Take => h.(taken := h.taken + [p.queue[0]])
    case Finish(worker, _) => h.(finished := h.finished + [p.working[worker]])
    case _ => h
  }

  // Polling for the end of the drain reconciles every chain once more.
  function Next(s: Session, step: Step): Session
    requires Enabled(s.p, s.bodies, step)
  {
    var p, h := Move(s.p, s.bodies, step), Log(s.p, s.h, s.bodies, step);
    match CallOf(s.p, s.bodies, step)
    case None => s.(p := p, h := h, rec := if step.Poll? then ReconcileAll(s.rec) else s.rec)
    case Some(a) =>
      var (rec, tasks) := Do(s.rec, a);
      s.(p := p.(unsent := p.unsent + tasks), h := h, rec := rec, input := s.input + [a])
  }

  // Every interleaving: any list of steps, those not possible being skipped.
  function After(s: Session, steps: seq<Step>): Session {
    if steps == [] then s
    else
      var t := After(s, steps[..|steps| - 1]);
      var step := steps[|steps| - 1];
      if Enabled(t.p, t.bodies, step) then Next(t, step) else t
  }

  // ----- The phases -----

  function EventsOf(buffer: seq<Buffered>): (r: seq<Event>)
    ensures |r| == |buffer|
  {
    seq(|buffer|, i requires 0 <= i < |buffer| => buffer[i].event)
  }

  function BytesOf(buffer: seq<Buffered>): nat {
    if buffer == [] then 0 else BytesOf(buffer[..|buffer| - 1]) + buffer[|buffer| - 1].bytes
  }

  predicate BufferOk(p: Protocol, h: History) {
    && p.bufferBytes == BytesOf(p.buffer) <= MAX_FREEZE_BUFFER_BYTES
    && (if p.main.AwaitingCutoff? || p.main.Replaying? then EventsOf(p.buffer) == h.during else p.buffer == [])
  }

  predicate PhaseOk(p: Protocol, h: History) {
    && (p.freezing <==> p.main.AwaitingCutoff?)
    && (p.cutoff.None? ==> h.after == [] && (p.main.AwaitingCutoff? || h.during == []))
    && (h.failed ==> p.cutoff.None?)
    && match p.main
       case Running => p.cutoff.None? && !h.failed
       case AwaitingCutoff => p.cutoff.None? && !h.failed
       case Replaying(next) => p.cutoff.Some? && next <= |h.during| && h.after == []
       case Draining => p.cutoff.Some?
       case Failing => h.failed
       case _ => h.failed <==> p.cutoff.None?
  }

  predicate ClosedOk(p: Protocol, h: History) {
    && h.closes == (if p.acceptTasks then 0 else 1)
    && (p.acceptTasks <==> !p.main.Stopped? && !p.main.Joined?)
    && (!p.acceptTasks ==> p.unsent == [])
    && (p.main.Joined? ==> p.queue == [] && p.working == [])
    && !h.sentAfterClose
  }

  lemma BufferStep(p: Protocol, h: History, bodies: bool, step: Step)
    requires Enabled(p, bodies, step) && BufferOk(p, h) && PhaseOk(p, h)
    ensures BufferOk(Move(p, bodies, step), Log(p, h, bodies, step))
  {
    if step.Arrive? {
      var grown := p.buffer + [Buffered(step.event, step.bytes)];
      assert grown[..|p.buffer|] == p.buffer;
      assert EventsOf(grown) == EventsOf(p.buffer) + [step.event];
    }
  }

  lemma PhaseStep(p: Protocol, h: History, bodies: bool, step: Step)
    requires Enabled(p, bodies, step) && BufferOk(p, h) && PhaseOk(p, h)
    ensures PhaseOk(Move(p, bodies, step), Log(p, h, bodies, step))
  {
  }

  lemma ClosedStep(s: Session, step: Step)
    requires Enabled(s.p, s.bodies, step) && ClosedOk(s.p, s.h) && PhaseOk(s.p, s.h)
    ensures ClosedOk(Next(s, step).p, Next(s, step).h)
  {
  }

  // ----- The recorder's state is the run of its input -----

  predicate RecorderMatches(s: Session) {
    s.rec == Run(Init(s.captureStart, s.targetBytes), s.input)
  }

  lemma RunAppend(s0: State, input: seq<Action>, a: Action)
    ensures Run(s0, input + [a]) == Do(Run(s0, input), a).0
    ensures TaskLog(s0, input + [a]) == TaskLog(s0, input) + Do(Run(s0, input), a).1
  {
    assert (input + [a])[..|input|] == input;
  }

  lemma MatchesStep(s: Session, step: Step)
    requires Enabled(s.p, s.bodies, step) && RecorderMatches(s)
    ensures RecorderMatches(Next(s, step))
  {
    match CallOf(s.p, s.bodies, step)
    case None => ReconcileChangesNothing(s.captureStart, s.targetBytes, s.input);
    case Some(a) => RunAppend(Init(s.captureStart, s.targetBytes), s.input, a);
  }

  // ----- The recorder's input is the arrivals -----

  predicate CarriesEvent(a: Action) {
    a.Handle? || a.HandleBuffered? || a.Freeze?
  }

  // The calls that carry an event or the freeze, in order.
  function Calls(input: seq<Action>): seq<Action> {
    if input == [] then []
    else
      var a := input[|input| - 1];
      Calls(input[..|input| - 1]) + (if CarriesEvent(a) then [a] else [])
  }

  function Handled(events: seq<Event>, bodies: bool): (r: seq<Action>)
    ensures |r| == |events|
  {
    seq(|events|, i requires 0 <= i < |events| => Handle(events[i], bodies))
  }

  function Replayed(events: seq<Event>, bodies: bool): (r: seq<Action>)
    ensures |r| == |events|
  {
    seq(|events|, i requires 0 <= i < |events| => HandleBuffered(events[i], bodies))
  }

  // How many of the events that came during the freeze have been replayed.
  function Done(p: Protocol, h: History): int {
    if p.main.Replaying? then p.main.next else |h.during|
  }

  // What the recorder is owed: everything from before the freeze, then the
  // freeze, then what came during it, then the rest.
  function Script(before: seq<Event>, cutoff: Option<Time>, replayed: seq<Event>, after: seq<Event>,
                  bodies: bool): seq<Action>
  {
    if cutoff.None? then Handled(before, bodies)
    else Handled(before, bodies) + [Action.Freeze(cutoff.value)] + Replayed(replayed, bodies) + Handled(after, bodies)
  }

  function Owed(p: Protocol, h: History, bodies: bool): seq<Action>
    requires 0 <= Done(p, h) <= |h.during|
  {
    Script(h.before, p.cutoff, h.during[..Done(p, h)], h.after, bodies)
  }

  lemma ScriptGrows(before: seq<Event>, cutoff: Option<Time>, replayed: seq<Event>, after: seq<Event>, bodies: bool,
                    e: Event)
    ensures cutoff.None? ==>
              Script(before + [e], cutoff, replayed, after, bodies)
                == Script(before, cutoff, replayed, after, bodies) + [Handle(e, bodies)]
    ensures cutoff.Some? ==>
              Script(before, cutoff, replayed, after + [e], bodies)
                == Script(before, cutoff, replayed, after, bodies) + [Handle(e, bodies)]
    ensures cutoff.Some? && after == [] ==>
              Script(before, cutoff, replayed + [e], after, bodies)
                == Script(before, cutoff, replayed, after, bodies) + [HandleBuffered(e, bodies)]
  {
    assert Handled(before + [e], bodies) == Handled(before, bodies) + [Handle(e, bodies)];
    assert Handled(after + [e], bodies) == Handled(after, bodies) + [Handle(e, bodies)];
    assert Replayed(replayed + [e], bodies) == Replayed(replayed, bodies) + [HandleBuffered(e, bodies)];
  }

  lemma CallsAppend(input: seq<Action>, a: Action)
    ensures Calls(input + [a]) == Calls(input) + (if CarriesEvent(a) then [a] else [])
  {
    assert (input + [a])[..|input|] == input;
  }

  function CarriedBy(a: Option<Action>): seq<Action> {
    if a.Some? && CarriesEvent(a.value) then [a.value] else []
  }

  lemma OwedArrive(p: Protocol, h: History, bodies: bool, event: Event, bytes: nat)
    requires MutexFree(p) && PhaseOk(p, h)
    ensures var k := LogArrival(p, h, event, bytes);
            Owed(p, k, bodies) == Owed(p, h, bodies) + if p.freezing then [] else [Handle(event, bodies)]
  {
    assert h.during[..|h.during|] == h.during;
    ScriptGrows(h.before, p.cutoff, h.during, h.after, bodies, event);
  }

  lemma OwedReplay(p: Protocol, h: History, bodies: bool)
    requires Enabled(p, bodies, Replay) && PhaseOk(p, h) && BufferOk(p, h)
    ensures Owed(Move(p, bodies, Replay), h, bodies)
            == Owed(p, h, bodies) + [HandleBuffered(p.buffer[p.main.next].event, bodies)]
  {
    var n := p.main.next;
    assert h.during[..n + 1] == h.during[..n] + [p.buffer[n].event];
    ScriptGrows(h.before, p.cutoff, h.during[..n], h.after, bodies, p.buffer[n].event);
  }

  lemma OwedFreeze(p: Protocol, h: History, bodies: bool, cutoff: Time)
    requires Enabled(p, bodies, Step.Freeze(cutoff)) && PhaseOk(p, h)
    ensures Owed(Move(p, bodies, Step.Freeze(cutoff)), h, bodies) == Owed(p, h, bodies) + [Action.Freeze(cutoff)]
  {
    assert h.during[..0] == [];
    assert Replayed([], bodies) == [] && Handled(h.after, bodies) == [];
  }

  lemma OwedSame(p: Protocol, h: History, bodies: bool, step: Step)
    requires Enabled(p, bodies, step) && PhaseOk(p, h) && BufferOk(p, h)
    requires !step.Arrive? && !step.Freeze? && !step.Replay?
    ensures var q, k := Move(p, bodies, step), Log(p, h, bodies, step);
            0 <= Done(q, k) <= |k.during| && Owed(q, k, bodies) == Owed(p, h, bodies)
  {
    var q, k := Move(p, bodies, step), Log(p, h, bodies, step);
    assert q.cutoff.Some? ==> Done(q, k) == Done(p, h) && k.during == h.during;
  }

  // A step owes the recorder exactly the call it makes.
  lemma OwedStep(p: Protocol, h: History, bodies: bool, step: Step)
    requires Enabled(p, bodies, step) && PhaseOk(p, h) && BufferOk(p, h)
    ensures var q, k := Move(p, bodies, step), Log(p, h, bodies, step);
            0 <= Done(q, k) <= |k.during|
              && Owed(q, k, bodies) == Owed(p, h, bodies) + CarriedBy(CallOf(p, bodies, step))
  {
    match step
    case Arrive(event, bytes) =>
      var q := Move(p, bodies, step);
      assert forall k: History :: Owed(q, k, bodies) == Owed(p, k, bodies);
      OwedArrive(p, h, bodies, event, bytes);
    case Freeze(cutoff) => OwedFreeze(p, h, bodies, cutoff);
    case Replay => OwedReplay(p, h, bodies);
    case _ => OwedSame(p, h, bodies, step);
  }

  predicate CallsOk(s: Session)
    requires 0 <= Done(s.p, s.h) <= |s.h.during|
  {
    Calls(s.input) == Owed(s.p, s.h, s.bodies)
  }

  lemma CallsStep(s: Session, step: Step)
    requires Enabled(s.p, s.bodies, step) && PhaseOk(s.p, s.h) && BufferOk(s.p, s.h) && CallsOk(s)
    ensures var t := Next(s, step); 0 <= Done(t.p, t.h) <= |t.h.during| && CallsOk(t)
  {
    OwedStep(s.p, s.h, s.bodies, step);
    match CallOf(s.p, s.bodies, step)
    case None =>
    case Some(a) => CallsAppend(s.input, a);
  }

  // Events are lost only where the capture ends in an error.
  predicate ArrivalsOk(s: Session) {
    if s.h.lost then s.rec.limitErr.Some? || s.h.failed else s.h.arrivals == s.h.before + s.h.during + s.h.after
  }

  lemma ErrorStays(s: State, a: Action)
    requires s.limitErr.Some?
    ensures Do(s, a).0.limitErr.Some?
  {
    assert [a][..0] == [] && Run(s, [a]) == Do(Run(s, []), a).0;
    LimitErrorIsPermanent(s, [a]);
  }

  lemma ArrivalsLogged(p: Protocol, h: History, bodies: bool, step: Step)
    requires Enabled(p, bodies, step) && PhaseOk(p, h) && BufferOk(p, h) && !h.lost
             && h.arrivals == h.before + h.during + h.after
    ensures var k := Log(p, h, bodies, step); !k.lost ==> k.arrivals == k.before + k.during + k.after
    ensures var k := Log(p, h, bodies, step);
            k.lost ==> k.failed || CallOf(p, bodies, step) == Some(ReportError(CaptureError(BUFFER_FULL)))
  {
    assert p.buffer == [] && step.AbandonFreeze? ==> h.during == [];
  }

  lemma ArrivalsStep(s: Session, step: Step)
    requires Enabled(s.p, s.bodies, step) && PhaseOk(s.p, s.h) && BufferOk(s.p, s.h) && ArrivalsOk(s)
    ensures ArrivalsOk(Next(s, step))
  {
    var a := CallOf(s.p, s.bodies, step);
    if !s.h.lost {
      ArrivalsLogged(s.p, s.h, s.bodies, step);
    } else if s.rec.limitErr.Some? && a.Some? {
      ErrorStays(s.rec, a.value);
    }
  }

  // ----- Tasks -----

  // The tasks whose answers the recorder has been given.
  function Answered(input: seq<Action>): seq<Task> {
    if input == [] then []
    else
      var a := input[|input| - 1];
      Answered(input[..|input| - 1]) + (if a.AnswerBody? then [a.task] else [])
  }

  predicate TasksOk(p: Protocol, h: History) {
    && h.sent == h.taken + p.queue
    && multiset(h.taken) == multiset(p.working) + multiset(h.finished)
    && |p.queue| <= MAX_PENDING_FETCHES && |p.working| <= MAX_CONCURRENT_FETCHES
  }

  lemma TakeKeepsTasks(p: Protocol, h: History, bodies: bool)
    requires Enabled(p, bodies, Take) && TasksOk(p, h)
    ensures TasksOk(Move(p, bodies, Take), Log(p, h, bodies, Take))
  {
    var first := [p.queue[0]];
    assert p.queue == first + p.queue[1..];
    assert h.taken + p.queue == h.taken + first + p.queue[1..];
  }

  lemma FinishKeepsTasks(p: Protocol, h: History, worker: nat)
    requires worker < |p.working| && TasksOk(p, h)
    ensures TasksOk(p.(working := p.working[..worker] + p.working[worker + 1..]),
                    h.(finished := h.finished + [p.working[worker]]))
  {
    assert p.working == p.working[..worker] + [p.working[worker]] + p.working[worker + 1..];
  }

  lemma SendKeepsTasks(p: Protocol, h: History, bodies: bool)
    requires p.unsent != [] && TasksOk(p, h)
    ensures TasksOk(Move(p, bodies, Send), LogSend(p, h))
  {
  }

  lemma OtherStepsKeepTasks(p: Protocol, h: History, bodies: bool, step: Step)
    requires Enabled(p, bodies, step) && !step.Take? && !step.Finish? && !step.Send?
    ensures var q := Move(p, bodies, step); q.unsent == p.unsent && q.queue == p.queue && q.working == p.working
    ensures var k := Log(p, h, bodies, step);
            k.sent == h.sent && k.taken == h.taken && k.finished == h.finished && k.refused == h.refused
    ensures AnswerIn(CallOf(p, bodies, step)) == []
  {
  }

  lemma SameTasks(p: Protocol, q: Protocol, h: History, k: History)
    requires TasksOk(p, h) && q.queue == p.queue && q.working == p.working
    requires k.sent == h.sent && k.taken == h.taken && k.finished == h.finished
    ensures TasksOk(q, k)
  {
  }

  lemma TasksStep(p: Protocol, h: History, bodies: bool, step: Step)
    requires Enabled(p, bodies, step) && TasksOk(p, h)
    ensures TasksOk(Move(p, bodies, step), Log(p, h, bodies, step))
  {
    if step.Take? {
      TakeKeepsTasks(p, h, bodies);
    } else if step.Finish? {
      FinishKeepsTasks(p, h, step.worker);
    } else if step.Send? {
      SendKeepsTasks(p, h, bodies);
    } else {
      OtherStepsKeepTasks(p, h, bodies, step);
      SameTasks(p, Move(p, bodies, step), h, Log(p, h, bodies, step));
    }
  }

  // Where the tasks handed out by the recorder are, and which are answered.
  function HandedOut(p: Protocol, h: History): multiset<Task> {
    multiset(p.unsent) + multiset(h.sent) + multiset(h.refused)
  }

  function Closed(h: History): multiset<Task> {
    multiset(h.refused) + multiset(h.finished)
  }

  predicate DispatchOk(s: Session) {
    && multiset(TaskLog(Init(s.captureStart, s.targetBytes), s.input)) == HandedOut(s.p, s.h)
    && multiset(Answered(s.input)) == Closed(s.h)
  }

  function AnswerIn(a: Option<Action>): seq<Task> {
    if a.Some? && a.value.AnswerBody? then [a.value.task] else []
  }

  lemma SendDispatches(p: Protocol, h: History, bodies: bool)
    requires p.unsent != []
    ensures HandedOut(Move(p, bodies, Send), LogSend(p, h)) == HandedOut(p, h)
    ensures Closed(LogSend(p, h)) == Closed(h) + multiset(AnswerIn(CallOf(p, bodies, Send)))
  {
    var rest, first := multiset(p.unsent[1..]), multiset{p.unsent[0]};
    assert multiset(p.unsent) == rest + first by { assert p.unsent == [p.unsent[0]] + p.unsent[1..]; }
    assert multiset(h.sent + [p.unsent[0]]) == multiset(h.sent) + first;
    assert multiset(h.refused + [p.unsent[0]]) == multiset(h.refused) + first;
  }

  lemma DispatchLogged(p: Protocol, h: History, bodies: bool, step: Step)
    requires Enabled(p, bodies, step)
    ensures HandedOut(Move(p, bodies, step), Log(p, h, bodies, step)) == HandedOut(p, h)
    ensures Closed(Log(p, h, bodies, step)) == Closed(h) + multiset(AnswerIn(CallOf(p, bodies, step)))
  {
    if step.Send? {
      SendDispatches(p, h, bodies);
    } else if step.Take? || step.Finish? {
    } else {
      OtherStepsKeepTasks(p, h, bodies, step);
    }
  }

  lemma AnsweredAppend(input: seq<Action>, a: Action)
    ensures Answered(input + [a]) == Answered(input) + AnswerIn(Some(a))
  {
    assert (input + [a])[..|input|] == input;
  }

  lemma HandOutMore(p: Protocol, h: History, tasks: seq<Task>)
    ensures HandedOut(p.(unsent := p.unsent + tasks), h) == HandedOut(p, h) + multiset(tasks)
  {
  }

  lemma DispatchStep(s: Session, step: Step)
    requires Enabled(s.p, s.bodies, step) && RecorderMatches(s) && DispatchOk(s)
    ensures DispatchOk(Next(s, step))
  {
    DispatchLogged(s.p, s.h, s.bodies, step);
    match CallOf(s.p, s.bodies, step)
    case None =>
    case Some(a) => DispatchCall(s, Move(s.p, s.bodies, step), Log(s.p, s.h, s.bodies, step), a);
  }

  lemma DispatchCall(s: Session, p: Protocol, h: History, a: Action)
    requires RecorderMatches(s) && DispatchOk(s)
    requires HandedOut(p, h) == HandedOut(s.p, s.h) && Closed(h) == Closed(s.h) + multiset(AnswerIn(Some(a)))
    ensures DispatchOk(s.(p := p.(unsent := p.unsent + Do(s.rec, a).1), h := h, rec := Do(s.rec, a).0,
                          input := s.input + [a]))
  {
    RunAppend(Init(s.captureStart, s.targetBytes), s.input, a);
    AnsweredAppend(s.input, a);
    HandOutMore(p, h, Do(s.rec, a).1);
  }

  // ----- Every interleaving -----

  predicate Inv(s: Session) {
    && PhaseOk(s.p, s.h) && BufferOk(s.p, s.h) && ClosedOk(s.p, s.h) && TasksOk(s.p, s.h)
    && 0 <= Done(s.p, s.h) <= |s.h.during| && CallsOk(s)
    && RecorderMatches(s) && ArrivalsOk(s) && DispatchOk(s)
  }

  lemma InvStep(s: Session, step: Step)
    requires Enabled(s.p, s.bodies, step) && Inv(s)
    ensures Inv(Next(s, step))
  {
    PhaseStep(s.p, s.h, s.bodies, step);
    BufferStep(s.p, s.h, s.bodies, step);
    ClosedStep(s, step);
    TasksStep(s.p, s.h, s.bodies, step);
    CallsStep(s, step);
    MatchesStep(s, step);
    ArrivalsStep(s, step);
    DispatchStep(s, step);
  }

  lemma {:induction false} Invariant(captureStart: Time, targetBytes: nat, bodies: bool, steps: seq<Step>)
    ensures Inv(After(Start(captureStart, targetBytes, bodies), steps))
  {
    var s0 := Start(captureStart, targetBytes, bodies);
    if steps != [] {
      Invariant(captureStart, targetBytes, bodies, steps[..|steps| - 1]);
      var t := After(s0, steps[..|steps| - 1]);
      var step := steps[|steps| - 1];
      if Enabled(t.p, t.bodies, step) { InvStep(t, step); }
    }
  }

  function EventsIn(calls: seq<Action>): seq<Event> {
    if calls == [] then []
    else
      var a := calls[|calls| - 1];
      EventsIn(calls[..|calls| - 1]) + (if a.Handle? || a.HandleBuffered? then [a.event] else [])
  }

  lemma {:induction false} EventsInConcat(a: seq<Action>, b: seq<Action>)
    ensures EventsIn(a + b) == EventsIn(a) + EventsIn(b)
  {
    if b == [] {
      assert a + b == a;
    } else {
      assert (a + b)[..|a + b| - 1] == a + b[..|b| - 1];
      EventsInConcat(a, b[..|b| - 1]);
    }
  }

  lemma {:induction false} EventsInCalls(input: seq<Action>)
    ensures EventsIn(Calls(input)) == EventsIn(input)
  {
    if input != [] {
      var before, a := input[..|input| - 1], input[|input| - 1];
      EventsInCalls(before);
      EventsInConcat(Calls(before), [a]);
      assert [a][..0] == [] && EventsIn([a]) == if a.Handle? || a.HandleBuffered? then [a.event] else [];
      assert !CarriesEvent(a) ==> Calls(input) == Calls(before);
      assert EventsIn(before) + [] == EventsIn(before);
    }
  }

  lemma {:induction false} EventsInHandled(events: seq<Event>, bodies: bool)
    ensures EventsIn(Handled(events, bodies)) == events && EventsIn(Replayed(events, bodies)) == events
  {
    if events != [] {
      var n := |events| - 1;
      EventsInHandled(events[..n], bodies);
      assert Handled(events, bodies)[..n] == Handled(events[..n], bodies);
      assert Replayed(events, bodies)[..n] == Replayed(events[..n], bodies);
    }
  }

  lemma EventsInScript(before: seq<Event>, cutoff: Time, replayed: seq<Event>, after: seq<Event>, bodies: bool)
    ensures EventsIn(Script(before, Some(cutoff), replayed, after, bodies)) == before + replayed + after
  {
    EventsInHandled(before, bodies);
    EventsInHandled(replayed, bodies);
    EventsInHandled(after, bodies);
    var freeze := [Action.Freeze(cutoff)];
    assert freeze[..0] == [] && EventsIn(freeze) == [];
    EventsInConcat(Handled(before, bodies), freeze);
    EventsInConcat(Handled(before, bodies) + freeze, Replayed(replayed, bodies));
    EventsInConcat(Handled(before, bodies) + freeze + Replayed(replayed, bodies), Handled(after, bodies));
  }

  // The buffered events that the recorder has not been given yet.
  function Waiting(p: Protocol): seq<Event> {
    if p.main.Replaying? && p.main.next <= |p.buffer| then EventsOf(p.buffer)[p.main.next..] else EventsOf(p.buffer)
  }

  lemma OwedEvents(p: Protocol, h: History, bodies: bool)
    requires PhaseOk(p, h) && BufferOk(p, h) && 0 <= Done(p, h) <= |h.during|
    ensures EventsIn(Owed(p, h, bodies)) + Waiting(p) == h.before + h.during + h.after
  {
    var done := h.during[..Done(p, h)];
    assert h.during == done + h.during[Done(p, h)..];
    if p.cutoff.Some? {
      EventsInScript(h.before, p.cutoff.value, done, h.after, bodies);
    } else {
      EventsInHandled(h.before, bodies);
    }
  }

  // Unless the capture fails, every event that arrived has been given to the
  // recorder or waits in the buffer: none lost, none twice, none overtaken.
  lemma EveryArrivalInOrder(captureStart: Time, targetBytes: nat, bodies: bool, steps: seq<Step>)
    ensures var s := After(Start(captureStart, targetBytes, bodies), steps);
            s.rec.limitErr.None? && !s.h.failed ==> EventsIn(s.input) + Waiting(s.p) == s.h.arrivals
  {
    Invariant(captureStart, targetBytes, bodies, steps);
    var s := After(Start(captureStart, targetBytes, bodies), steps);
    EventsInCalls(s.input);
    OwedEvents(s.p, s.h, s.bodies);
  }

  // The recorder is called with the events from before the freeze, the freeze,
  // the buffered events (in full once the replay is over), and the rest: no
  // event comes between the freeze and the replay.
  lemma FreezeThenReplay(captureStart: Time, targetBytes: nat, bodies: bool, steps: seq<Step>)
    ensures var s := After(Start(captureStart, targetBytes, bodies), steps);
            && 0 <= Done(s.p, s.h) <= |s.h.during|
            && Calls(s.input) == Script(s.h.before, s.p.cutoff, s.h.during[..Done(s.p, s.h)], s.h.after, s.bodies)
            && (s.p.main.Draining? ==> s.h.during[..Done(s.p, s.h)] == s.h.during)
            && (s.p.main.Replaying? ==> s.h.after == [])
  {
    Invariant(captureStart, targetBytes, bodies, steps);
  }

  // The recorder's state is the run of the calls it was given, so what is
  // proved about runs of the recorder holds in every session.
  lemma RecorderRunsItsInput(captureStart: Time, targetBytes: nat, bodies: bool, steps: seq<Step>)
    ensures var s := After(Start(captureStart, targetBytes, bodies), steps);
            s.rec == Run(Init(s.captureStart, s.targetBytes), s.input)
  {
    Invariant(captureStart, targetBytes, bodies, steps);
  }

  // The buffer, the queue and the workers stay within their limits, the queue
  // is closed at most once, and nothing is sent after that.
  lemma BoundsHold(captureStart: Time, targetBytes: nat, bodies: bool, steps: seq<Step>)
    ensures var s := After(Start(captureStart, targetBytes, bodies), steps);
            && s.p.bufferBytes == BytesOf(s.p.buffer) <= 16_777_216
            && |s.p.queue| <= 64 && |s.p.working| <= 8
            && s.h.closes <= 1 && !s.h.sentAfterClose
            && (s.h.closes == 1 ==> s.p.unsent == [])
  {
    Invariant(captureStart, targetBytes, bodies, steps);
  }

  lemma {:induction false} CountsOfNoDuplicates(tasks: seq<Task>, task: Task)
    requires NoDuplicates(tasks)
    ensures multiset(tasks)[task] <= 1
  {
    if tasks != [] {
      var n := |tasks| - 1;
      CountsOfNoDuplicates(tasks[..n], task);
      assert tasks == tasks[..n] + [tasks[n]];
      if tasks[n] == task { assert task !in tasks[..n]; }
    }
  }

  // Every task the recorder hands out is in exactly one place: not sent yet,
  // queued, with one worker, finished, or refused by a full queue.
  lemma EachTaskInOnePlace(captureStart: Time, targetBytes: nat, bodies: bool, steps: seq<Step>, task: Task)
    ensures var s := After(Start(captureStart, targetBytes, bodies), steps);
            var log := TaskLog(Init(s.captureStart, s.targetBytes), s.input);
            multiset(s.p.unsent)[task] + multiset(s.p.queue)[task] + multiset(s.p.working)[task]
            + multiset(s.h.finished)[task] + multiset(s.h.refused)[task] == if task in log then 1 else 0
  {
    Invariant(captureStart, targetBytes, bodies, steps);
    var s := After(Start(captureStart, targetBytes, bodies), steps);
    var log := TaskLog(Init(s.captureStart, s.targetBytes), s.input);
    BodiesFetchedAtMostOnce(Init(s.captureStart, s.targetBytes), s.input);
    CountsOfNoDuplicates(log, task);
    assert multiset(log)[task] == if task in log then 1 else 0;
  }

  // Each body is answered at most once, to an entry that asked for it, and
  // after the workers have been joined each has been answered.
  lemma EachTaskAnsweredOnce(captureStart: Time, targetBytes: nat, bodies: bool, steps: seq<Step>, task: Task)
    ensures var s := After(Start(captureStart, targetBytes, bodies), steps);
            var log := TaskLog(Init(s.captureStart, s.targetBytes), s.input);
            && multiset(Answered(s.input))[task] <= 1
            && (task in Answered(s.input) ==> task in log && IsScheduled(s.rec, task))
            && (s.p.main.Joined? && task in log ==> task in Answered(s.input))
  {
    EachTaskInOnePlace(captureStart, targetBytes, bodies, steps, task);
    Invariant(captureStart, targetBytes, bodies, steps);
    var s := After(Start(captureStart, targetBytes, bodies), steps);
    assert task in Answered(s.input) <==> task in multiset(Answered(s.input));
    FetchedAreScheduled(Init(s.captureStart, s.targetBytes), s.input, task);
  }
}
