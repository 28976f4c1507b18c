/** How a run ends and what it records, step behaviour by step behaviour. */
module WorkflowOutcome {
  import opened Common
  import opened WorkflowRun

  const COMPLETES: StepBehaviour := Returns(Some(Completed))

  // The first `n` steps return a completed status.
  predicate Complete(steps: seq<StepBehaviour>, n: nat) {
    n <= |steps| && forall i :: 0 <= i < n ==> steps[i] == Returns(Some(Completed))
  }

  // What the first `n` steps record when all of them complete.
  function CompletedPairs(n: nat): (events: seq<Event>)
    ensures |events| == 2 * n
    ensures forall i :: 0 <= i < n ==>
      events[2 * i] == Event(Running, StepStarted(i)) && events[2 * i + 1] == Event(Running, StepFinished(i, Completed))
  {
    if n == 0 then []
    else CompletedPairs(n - 1) + [Event(Running, StepStarted(n - 1)), Event(Running, StepFinished(n - 1, Completed))]
  }

  lemma {:induction false} StepsFromCompleted(steps: seq<StepBehaviour>, n: nat)
    requires Complete(steps, n)
    ensures StepsFrom(steps, 0) == Trace(CompletedPairs(n) + StepsFrom(steps, n).events, StepsFrom(steps, n).finish)
  {
    if n == 0 {
    } else {
      StepsFromCompleted(steps, n - 1);
      assert steps[n - 1] == COMPLETES;
      Regroup(CompletedPairs(n - 1), [StartEvent(n - 1), FinishEvent(n - 1, Completed)], StepsFrom(steps, n).events);
    }
  }

  // The registry takes every record.
  ghost predicate Quiet(faults: Faults) {
    forall k :: faults(k) == NoFault
  }

  lemma QuietTrace(steps: seq<StepBehaviour>, ending: Ending, faults: Faults)
    requires Quiet(faults)
    ensures RunTrace(steps, ending, faults) == Undisturbed(steps, ending)
  {
    EmitQuiet(Undisturbed(steps, ending).events, faults, 0);
  }

  lemma {:induction false} EmitQuiet(events: seq<Event>, faults: Faults, from: nat)
    requires Quiet(faults)
    ensures Emit(events, faults, from) == Emission(events, from + |events|, false)
  {
    if events == [] {
    } else {
      EmitQuiet(events[1..], faults, from + 1);
    }
  }

  // The records of a run, from the queue to its last step.
  function Opening(n: nat): seq<Event> {
    [Event(Queued, RunEvent), Event(Running, RunEvent), Event(Running, WorkflowStarted)] + CompletedPairs(n)
  }

  // A step that gives the run a status: its own, or failed when it returns none.
  predicate Gives(b: StepBehaviour, s: Status) {
    b == Returns(Some(s)) || (b == Returns(None) && s == Failed)
  }

  // A run whose steps end in status `s`: the closing records, unless writing the artifacts
  // raises first, and the status, unless the run raises anyway.
  function Closed(opening: seq<Event>, s: Status, executed: nat, ending: Ending): Trace {
    Trace(
      if ending == RaisesWhileWriting then opening
      else opening + [Event(if s == Completed then Running else s, WorkflowFinished(s)), Event(s, RunEvent)],
      if ending == Clean then Ended(s, executed) else Raised)
  }

  /** If every step completes, so does the run, and this is its log. */
  lemma AllComplete(steps: seq<StepBehaviour>, ending: Ending, faults: Faults)
    requires Quiet(faults) && Complete(steps, |steps|)
    ensures RunTrace(steps, ending, faults) == Closed(Opening(|steps|), Completed, |steps|, ending)
  {
    QuietTrace(steps, ending, faults);
    StepsFromCompleted(steps, |steps|);
    assert StepsFrom(steps, |steps|).events == [];
    assert CompletedPairs(|steps|) + [] == CompletedPairs(|steps|);
  }

  /**
   * If a step after completed ones gives another status the registry knows, the run stops
   * there with that status, and this is its log.
   */
  lemma StopsAtFirstOther(steps: seq<StepBehaviour>, ending: Ending, faults: Faults, n: nat, s: Status)
    requires Quiet(faults) && Complete(steps, n) && n < |steps|
    requires Gives(steps[n], s) && s != Completed && !s.Unsupported?
    ensures RunTrace(steps, ending, faults) ==
      Closed(Opening(n) + [Event(Running, StepStarted(n)), Event(s, StepFinished(n, s))], s, n + 1, ending)
  {
    QuietTrace(steps, ending, faults);
    StepsFromCompleted(steps, n);
    StopsHere(steps, n, s);
    Regroup(PRELUDE, CompletedPairs(n), [Event(Running, StepStarted(n)), Event(s, StepFinished(n, s))]);
  }

  lemma StopsHere(steps: seq<StepBehaviour>, n: nat, s: Status)
    requires n < |steps| && Gives(steps[n], s) && s != Completed && !s.Unsupported?
    ensures StepsFrom(steps, n) ==
            Trace([Event(Running, StepStarted(n)), Event(s, StepFinished(n, s))], Ended(s, n + 1))
  {
  }

  /** If a step after completed ones raises or gives an unknown status, the run raises. */
  lemma RaisesAtFirstOther(steps: seq<StepBehaviour>, ending: Ending, faults: Faults, n: nat)
    requires Quiet(faults) && Complete(steps, n) && n < |steps|
    requires !steps[n].Returns? || (steps[n].status.Some? && steps[n].status.value.Unsupported?)
    ensures RunTrace(steps, ending, faults) ==
      Trace(Opening(n) + (if steps[n].RaisesBeforeStart? then [] else [Event(Running, StepStarted(n))]), Raised)
  {
    QuietTrace(steps, ending, faults);
    StepsFromCompleted(steps, n);
    var rest := if steps[n].RaisesBeforeStart? then [] else [Event(Running, StepStarted(n))];
    assert StepsFrom(steps, n) == Trace(rest, Raised);
    Regroup(PRELUDE, CompletedPairs(n), rest);
  }

  lemma {:induction false} FirstOther(steps: seq<StepBehaviour>, n: nat) returns (k: nat)
    requires Complete(steps, n)
    ensures Complete(steps, k) && (k < |steps| ==> steps[k] != Returns(Some(Completed)))
    decreases |steps| - n
  {
    k := n;
    if n < |steps| && steps[n] == Returns(Some(Completed)) {
      k := FirstOther(steps, n + 1);
    }
  }

  /**
   * A run that returns is completed if and only if every step of the catalogue returned a
   * completed status; otherwise its status is what the first other step gives.
   */
  lemma CompletedExactly(steps: seq<StepBehaviour>, ending: Ending, faults: Faults)
    requires RunTrace(steps, ending, faults).finish.Ended?
    ensures var finish := RunTrace(steps, ending, faults).finish;
      && (finish.status == Completed <==> Complete(steps, |steps|))
      && (finish.status == Completed ==> finish.executed == |steps|)
      && (finish.status != Completed ==>
            1 <= finish.executed <= |steps| && Complete(steps, finish.executed - 1)
            && Gives(steps[finish.executed - 1], finish.status))
  {
    CutLogIsPrefix(steps, ending, faults);
    var n := FirstOther(steps, 0);
    StepsFromCompleted(steps, n);
  }
}
