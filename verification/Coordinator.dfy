/** The routines that share the capture's mutex, as the program writes them:
    fields updated in place, one method per region that holds the mutex. Each is
    proved to take the steps of the protocol in Capture, so what is proved there
    about every interleaving holds of these methods. The recorder inside is kept
    as the value that its own class is proved to compute. */
module Coordinator {
  import opened Common
  import opened RecorderModel
  import opened RecorderRuns
  import opened Capture

  // The steps a region may take after its first: sending tasks and replaying.
  predicate SendsOnly(steps: seq<Step>) {
    forall i :: 0 <= i < |steps| ==> steps[i].Send?
  }

  predicate SendsAndReplays(steps: seq<Step>) {
    forall i :: 0 <= i < |steps| ==> steps[i].Send? || steps[i].Replay? || steps[i].EndReplay?
  }

  // The steps of a freeze: the freeze itself, the replay, and its end.
  lemma FreezeSteps(before: seq<Step>, freeze: Step, frozen: seq<Step>, replayed: seq<Step>)
    requires frozen == before + [freeze]
    requires |replayed| >= |frozen| && replayed[..|frozen|] == frozen && SendsAndReplays(replayed[|frozen|..])
    ensures var steps := replayed + [EndReplay];
            steps[..|before|] == before && steps[|before|] == freeze && SendsAndReplays(steps[|before| + 1..])
  {
    var steps := replayed + [EndReplay];
    assert steps[..|before| + 1] == replayed[..|before| + 1];
    assert steps[|before| + 1..] == replayed[|before| + 1..] + [EndReplay];
  }

  lemma SendEffect(s: Session)
    requires s.p.unsent != []
    ensures var t := Next(s, Send); var task := s.p.unsent[0];
            && t.p == s.p.(unsent := s.p.unsent[1..], queue := if QueueFull(s.p) then s.p.queue else s.p.queue + [task])
            && t.rec
               == (if QueueFull(s.p) && ValidTask(s.rec, task)
                   then SetResponseBody(s.rec, task, FetchFailed(QUEUE_FULL)) else s.rec)
  {
  }

  lemma EventEffect(s: Session, step: Step, event: Event, buffered: bool)
    requires Enabled(s.p, s.bodies, step) && s.p.acceptTasks && s.p.unsent == []
    requires if buffered then step.Replay? && s.p.buffer[s.p.main.next].event == event
             else step.Arrive? && step.event == event && !s.p.freezing
    ensures var t := Next(s, step);
            var (rec, tasks) := if buffered then HandleBufferedEvent(s.rec, event, s.bodies)
              else HandleEvent(s.rec, event, s.bodies);
            t.rec == rec && t.p == Move(s.p, s.bodies, step).(unsent := tasks)
  {
    var a := if buffered then HandleBuffered(event, s.bodies) else Handle(event, s.bodies);
    assert CallOf(s.p, s.bodies, step) == Some(a);
    assert [] + Do(s.rec, a).1 == Do(s.rec, a).1;
  }

  lemma FreezeEffect(s: Session, cutoff: Time)
    requires Enabled(s.p, s.bodies, Step.Freeze(cutoff))
    ensures var t := Next(s, Step.Freeze(cutoff));
            t.rec == FreezeAt(s.rec, cutoff)
              && t.p == s.p.(main := Replaying(0), freezing := false, cutoff := Some(cutoff))
  {
    assert s.p.unsent + [] == s.p.unsent;
  }

  class Coordinator {
    const includeResponseBodies: bool
    var recorder: State
    var freezing: bool
    var acceptTasks: bool
    var bufferedEvents: seq<Buffered>
    var bufferedEventBytes: nat
    var taskQueue: seq<Task>

    // The session these fields belong to, and the steps that led to it.
    ghost const start: Session
    ghost var now: Session
    ghost var steps: seq<Step>

    ghost predicate Valid()
      reads this
    {
      && start == Start(start.captureStart, start.targetBytes, includeResponseBodies)
      && now == After(start, steps) && now.bodies == includeResponseBodies
      && recorder == now.rec && freezing == now.p.freezing && acceptTasks == now.p.acceptTasks
      && bufferedEvents == now.p.buffer && bufferedEventBytes == now.p.bufferBytes && taskQueue == now.p.queue
    }

    constructor (captureStart: Time, targetBytes: nat, includeResponseBodies: bool)
      ensures Valid() && steps == [] && MutexFree(now.p)
              && start == Start(captureStart, targetBytes, includeResponseBodies)
    {
      this.includeResponseBodies := includeResponseBodies;
      recorder, freezing, acceptTasks := Init(captureStart, targetBytes), false, true;
      bufferedEvents, bufferedEventBytes, taskQueue := [], 0, [];
      start := Start(captureStart, targetBytes, includeResponseBodies);
      now, steps := Start(captureStart, targetBytes, includeResponseBodies), [];
    }

    // The protocol takes a step; the fields follow.
    ghost method Take(step: Step)
      requires now == After(start, steps) && now.bodies == includeResponseBodies
      requires Enabled(now.p, now.bodies, step)
      modifies this`now, this`steps
      ensures now == Next(old(now), step) == After(start, steps) && steps == old(steps) + [step]
      ensures now.bodies == includeResponseBodies
    {
      assert (steps + [step])[..|steps|] == steps;
      now := Next(now, step);
      steps := steps + [step];
    }

    method Schedule(task: Task)
      requires Valid() && now.p.unsent != [] && task == now.p.unsent[0]
      modifies this`recorder, this`taskQueue, this`now, this`steps
      ensures Valid() && steps == old(steps) + [Send]
      ensures now == Next(old(now), Send)
    {
      SendEffect(now);
      Take(Send);
      if |taskQueue| < MAX_PENDING_FETCHES {
        taskQueue := taskQueue + [task];
      } else if ValidTask(recorder, task) {
        recorder := SetResponseBody(recorder, task, FetchFailed(QUEUE_FULL));
      }
    }

    // `step` is the arrival or the replay that this call belongs to.
    method ProcessEvent(event: Event, buffered: bool, ghost step: Step)
      requires Valid() && acceptTasks && Enabled(now.p, now.bodies, step) && now.p.unsent == []
      requires if buffered then step.Replay? && now.p.buffer[now.p.main.next].event == event
               else step.Arrive? && step.event == event && !freezing
      modifies this`recorder, this`taskQueue, this`now, this`steps
      ensures Valid() && now.p.unsent == [] && now.p.main == Move(old(now.p), includeResponseBodies, step).main
      ensures |steps| > |old(steps)| && steps[..|old(steps)| + 1] == old(steps) + [step]
              && SendsOnly(steps[|old(steps)| + 1..])
    {
      EventEffect(now, step, event, buffered);
      var (next, tasks) := if buffered then HandleBufferedEvent(recorder, event, includeResponseBodies)
                           else HandleEvent(recorder, event, includeResponseBodies);
      recorder := next;
      Take(step);
      ScheduleAll(tasks);
    }

    method ScheduleAll(tasks: seq<Task>)
      requires Valid() && now.p.unsent == tasks
      modifies this`recorder, this`taskQueue, this`now, this`steps
      ensures Valid() && now.p.unsent == [] && now.p.main == old(now.p.main)
      ensures |steps| >= |old(steps)| && steps[..|old(steps)|] == old(steps) && SendsOnly(steps[|old(steps)|..])
    {
      var i := 0;
      while i < |tasks|
        invariant 0 <= i <= |tasks| && Valid() && now.p.unsent == tasks[i..] && now.p.main == old(now.p.main)
        invariant |steps| >= |old(steps)| && steps[..|old(steps)|] == old(steps) && SendsOnly(steps[|old(steps)|..])
      {
        SendEffect(now);
        Schedule(tasks[i]);
        i := i + 1;
      }
    }

    // The listener, called by the browser for each event.
    method Listen(event: Event, bytes: nat)
      requires Valid() && MutexFree(now.p)
      modifies this`recorder, this`taskQueue, this`bufferedEvents, this`bufferedEventBytes, this`now, this`steps
      ensures Valid() && MutexFree(now.p)
      ensures |steps| > |old(steps)| && steps[..|old(steps)| + 1] == old(steps) + [Arrive(event, bytes)]
      ensures SendsOnly(steps[|old(steps)| + 1..])
    {
      if !acceptTasks {
        Take(Arrive(event, bytes));
        return;
      }
      if !freezing {
        ProcessEvent(event, false, Arrive(event, bytes));
        return;
      }
      if bytes > MAX_FREEZE_BUFFER_BYTES - bufferedEventBytes {
        recorder := Fail(recorder, CaptureError(BUFFER_FULL));
      } else {
        bufferedEvents := bufferedEvents + [Buffered(event, bytes)];
        bufferedEventBytes := bufferedEventBytes + bytes;
      }
      Take(Arrive(event, bytes));
    }

    method BeginFreeze()
      requires Valid() && MutexFree(now.p) && now.p.main.Running?
      modifies this`freezing, this`now, this`steps
      ensures Valid() && MutexFree(now.p) && steps == old(steps) + [Step.BeginFreeze]
    {
      freezing := true;
      Take(Step.BeginFreeze);
    }

    // The end of the freeze: with a cutoff, freeze the recorder and replay what
    // was buffered before anything else is let in; without one, give up.
    method FinishFreeze(cutoff: Option<Time>)
      requires Valid() && MutexFree(now.p) && now.p.main.AwaitingCutoff?
      modifies this`recorder, this`taskQueue, this`freezing, this`bufferedEvents, this`bufferedEventBytes, this`now,
               this`steps
      ensures Valid() && MutexFree(now.p) && bufferedEvents == [] && bufferedEventBytes == 0 && !freezing
      ensures |steps| > |old(steps)| && steps[..|old(steps)|] == old(steps)
      ensures if cutoff.GetOr(ZERO_TIME) == ZERO_TIME then steps == old(steps) + [AbandonFreeze]
              else now.p.main.Draining? && steps[|old(steps)|] == Step.Freeze(cutoff.value)
                   && SendsAndReplays(steps[|old(steps)| + 1..])
    {
      if cutoff.GetOr(ZERO_TIME) == ZERO_TIME {
        AbandonCutoff();
        return;
      }
      StillAccepting();
      FreezeRecorder(cutoff.value);
      ghost var frozen := steps;
      ReplayBuffer();
      FreezeSteps(old(steps), Step.Freeze(cutoff.value), frozen, steps);
      ClearBuffer();
    }

    method AbandonCutoff()
      requires Valid() && Enabled(now.p, now.bodies, AbandonFreeze)
      modifies this`freezing, this`bufferedEvents, this`bufferedEventBytes, this`now, this`steps
      ensures Valid() && MutexFree(now.p) && bufferedEvents == [] && bufferedEventBytes == 0 && !freezing
      ensures steps == old(steps) + [AbandonFreeze]
    {
      freezing, bufferedEvents, bufferedEventBytes := false, [], 0;
      Take(AbandonFreeze);
    }

    // Only stopping ends acceptance, and the capture has not been stopped yet.
    lemma StillAccepting()
      requires Valid() && now.p.main.AwaitingCutoff?
      ensures acceptTasks
    {
      Invariant(start.captureStart, start.targetBytes, includeResponseBodies, steps);
    }

    method FreezeRecorder(cutoff: Time)
      requires Valid() && Enabled(now.p, now.bodies, Step.Freeze(cutoff))
      modifies this`recorder, this`freezing, this`now, this`steps
      ensures Valid() && !freezing && now.p.main == Replaying(0) && now.p.unsent == []
      ensures steps == old(steps) + [Step.Freeze(cutoff)]
    {
      FreezeEffect(now, cutoff);
      freezing := false;
      recorder := FreezeAt(recorder, cutoff);
      Take(Step.Freeze(cutoff));
    }

    method ClearBuffer()
      requires Valid() && now.p.unsent == [] && now.p.main == Replaying(|bufferedEvents|)
      modifies this`bufferedEvents, this`bufferedEventBytes, this`now, this`steps
      ensures Valid() && MutexFree(now.p) && now.p.main.Draining? && bufferedEvents == [] && bufferedEventBytes == 0
      ensures steps == old(steps) + [EndReplay]
    {
      bufferedEvents, bufferedEventBytes := [], 0;
      Take(EndReplay);
    }

    method ReplayBuffer()
      requires Valid() && acceptTasks && now.p.main == Replaying(0) && now.p.unsent == []
      modifies this`recorder, this`taskQueue, this`now, this`steps
      ensures Valid() && now.p.main == Replaying(|bufferedEvents|) && now.p.unsent == []
      ensures |steps| >= |old(steps)| && steps[..|old(steps)|] == old(steps) && SendsAndReplays(steps[|old(steps)|..])
    {
      var i := 0;
      while i < |bufferedEvents|
        invariant 0 <= i <= |bufferedEvents| && Valid() && now.p.main == Replaying(i) && now.p.unsent == []
        invariant |steps| >= |old(steps)| && steps[..|old(steps)|] == old(steps)
                  && SendsAndReplays(steps[|old(steps)|..])
      {
        ProcessEvent(bufferedEvents[i].event, true, Replay);
        i := i + 1;
      }
    }

    // Refuse further events and close the queue, once.
    method StopTasks()
      requires Valid() && Enabled(now.p, now.bodies, Stop)
      modifies this`acceptTasks, this`now, this`steps
      ensures Valid() && !acceptTasks && steps == old(steps) + [Stop]
    {
      if acceptTasks { acceptTasks := false; }
      Take(Stop);
    }
  }
}
