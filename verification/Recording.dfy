/** The recorder as a capture uses it, from the first call to the last: an object
    that logs its calls. After any calls, the recorder's fields are the model's
    run of the log, so every theorem about runs holds of them. */
module Recording {
  import opened RecorderModel
  import opened RecorderRuns
  import opened RequestChains
  import RecorderOrder
  import Recorder

  lemma RunMore(s: State, actions: seq<Action>, a: Action)
    ensures Run(s, actions + [a]) == Do(Run(s, actions), a).0
  {
    assert (actions + [a])[..|actions|] == actions;
  }

  class Recording {
    const recorder: Recorder.Recorder
    ghost const captureStart: Time
    ghost const targetBytes: nat
    ghost var actions: seq<Action>

    // What the log says the recorder holds.
    ghost function Logged(): State
      reads this
    {
      Run(Init(captureStart, targetBytes), actions)
    }

    ghost predicate Valid()
      reads this, recorder, recorder.Repr
    {
      recorder.Valid() && this !in recorder.Repr && recorder.View() == Logged()
    }

    constructor (captureStart: Time, targetBytes: nat)
      ensures Valid() && fresh(recorder) && fresh(recorder.Repr) && actions == []
    {
      this.captureStart, this.targetBytes, actions := captureStart, targetBytes, [];
      recorder := new Recorder.Recorder(captureStart, targetBytes);
    }

    ghost method Log(a: Action, before: State)
      requires recorder.Valid() && this !in recorder.Repr && before == Logged() && recorder.View() == Do(before, a).0
      modifies this`actions
      ensures Valid() && actions == old(actions) + [a]
    {
      RunMore(Init(captureStart, targetBytes), actions, a);
      actions := actions + [a];
    }

    method HandleEvent(event: Event, bodies: bool) returns (tasks: seq<FetchTask>)
      requires Valid()
      modifies this, recorder, recorder.Repr
      ensures Valid() && fresh(recorder.Repr - old(recorder.Repr)) && actions == old(actions) + [Handle(event, bodies)]
      ensures recorder.TasksResolve(tasks, Do(old(Logged()), Handle(event, bodies)).1)
    {
      tasks := recorder.HandleEvent(event, bodies);
      Log(Handle(event, bodies), Logged());
    }

    method HandleBufferedEvent(event: Event, bodies: bool) returns (tasks: seq<FetchTask>)
      requires Valid()
      modifies this, recorder, recorder.Repr
      ensures Valid() && fresh(recorder.Repr - old(recorder.Repr))
              && actions == old(actions) + [HandleBuffered(event, bodies)]
      ensures recorder.TasksResolve(tasks, Do(old(Logged()), HandleBuffered(event, bodies)).1)
    {
      tasks := recorder.HandleBufferedEvent(event, bodies);
      Log(HandleBuffered(event, bodies), Logged());
    }

    method FreezeAtMonotonic(cutoff: Time)
      requires Valid()
      modifies this, recorder, recorder.Repr
      ensures Valid() && recorder.Repr == old(recorder.Repr) && actions == old(actions) + [Freeze(cutoff)]
    {
      recorder.FreezeAtMonotonic(cutoff);
      Log(Freeze(cutoff), Logged());
    }

    method SetCaptureError(message: string)
      requires Valid()
      modifies this, recorder
      ensures Valid() && recorder.Repr == old(recorder.Repr)
              && actions == old(actions) + [ReportError(CaptureError(message))]
    {
      recorder.SetCaptureError(message);
      Log(ReportError(CaptureError(message)), Logged());
    }

    // The answer to a task that some earlier call handed out.
    method SetResponseBody(task: FetchTask, outcome: FetchOutcome, ghost hop: nat)
      requires Valid() && ValidTask(recorder.View(), Task(task.requestID, hop))
      requires task.entry == recorder.chains[task.requestID].entries[hop]
      modifies this, recorder, recorder.Repr
      ensures Valid() && recorder.Repr == old(recorder.Repr)
      ensures actions == old(actions) + [AnswerBody(Task(task.requestID, hop), outcome)]
    {
      recorder.SetResponseBody(task, outcome, hop);
      Log(AnswerBody(Task(task.requestID, hop), outcome), Logged());
    }

    // In a run, every hop is on the archive list.
    lemma HopsAreListed()
      requires Valid()
      ensures RecorderOrder.EveryHopListed(recorder.View())
    {
      forall task ensures RecorderOrder.HopListed(recorder.View(), task) {
        RecorderOrder.ArchiveListsEachHopOnce(captureStart, targetBytes, actions, 0, task);
      }
    }

    method MarkMissingExtraInfo()
      requires Valid()
      modifies this, recorder.Repr
      ensures Valid() && recorder.Repr == old(recorder.Repr) && actions == old(actions) + [MarkMissing]
    {
      HopsAreListed();
      recorder.MarkMissingExtraInfo();
      Log(MarkMissing, Logged());
    }

    // Whether to wait for more extras. Asking changes nothing.
    method ExtraInfoDrainNeeded() returns (needed: bool)
      requires Valid()
      modifies recorder.Repr
      ensures Valid() && recorder.Repr == old(recorder.Repr) && recorder.View() == old(recorder.View())
      ensures needed == RecorderModel.ExtraInfoDrainNeeded(Logged())
    {
      HopsAreListed();
      ReconcileChangesNothing(captureStart, targetBytes, actions);
      needed := recorder.ExtraInfoDrainNeeded();
    }
  }
}
