/** The event protocol of a sequential workflow run and of its background wrapper. */
module WorkflowRun {
  import opened Common

  datatype Status = Accepted | Queued | Running | Completed | NeedsReview | Failed | Unsupported(text: string)

  datatype Kind =
    | RunEvent
    | WorkflowStarted
    | StepStarted(step: nat)
    | StepFinished(step: nat, outcome: Status)
    | WorkflowFinished(outcome: Status)

  datatype Event = Event(status: Status, kind: Kind)

  // How one catalogue step behaves: it may raise before its start is recorded,
  // while it runs or while its manifest is looked up, or return a status.
  datatype StepBehaviour =
    | RaisesBeforeStart
    | RaisesAfterStart
    | Returns(status: Option<Status>)

  // How the run closes once its steps are done.
  datatype Ending = Clean | RaisesWhileWriting | RaisesAfterRecording

  // None is an exception leaving the run.
  datatype Finish = Raised | Ended(status: Status, executed: nat)

  datatype Trace = Trace(events: seq<Event>, finish: Finish)

  // ----------------------------------------------------------- the specification

  function StepStatus(b: StepBehaviour): Status {
    if b.Returns? && b.status.Some? then b.status.value else Failed
  }

  function StartEvent(i: nat): Event {
    Event(Running, StepStarted(i))
  }

  function FinishEvent(i: nat, s: Status): Event {
    Event(if s == Completed then Running else s, StepFinished(i, s))
  }

  // What one step records; a status the registry does not know is never recorded.
  function StepEvents(b: StepBehaviour, i: nat): seq<Event> {
    if b.RaisesBeforeStart? then []
    else if b.RaisesAfterStart? || StepStatus(b).Unsupported? then [StartEvent(i)]
    else [StartEvent(i), FinishEvent(i, StepStatus(b))]
  }

  // How a step ends the run; None carries on with the next.
  function StepEnd(b: StepBehaviour, i: nat): Option<Finish> {
    if !b.Returns? || StepStatus(b).Unsupported? then Some(Raised)
    else if StepStatus(b) != Completed then Some(Ended(StepStatus(b), i + 1))
    else None
  }

  // What the steps from `i` on record and how they end.
  function StepsFrom(steps: seq<StepBehaviour>, i: nat): Trace
    requires i <= |steps|
    decreases |steps| - i
  {
    if i == |steps| then Trace([], Ended(Completed, i))
    else
      match StepEnd(steps[i], i)
      case Some(finish) => Trace(StepEvents(steps[i], i), finish)
      case None =>
        var rest := StepsFrom(steps, i + 1);
        Trace(StepEvents(steps[i], i) + rest.events, rest.finish)
  }

  const PRELUDE: seq<Event> := [Event(Queued, RunEvent), Event(Running, RunEvent), Event(Running, WorkflowStarted)]

  function Closing(s: Status): seq<Event> {
    [Event(if s == Completed then Running else s, WorkflowFinished(s)), Event(s, RunEvent)]
  }

  // The run as it goes when the registry takes every record.
  function Undisturbed(steps: seq<StepBehaviour>, ending: Ending): Trace {
    var body := StepsFrom(steps, 0);
    if body.finish.Raised? || ending == RaisesWhileWriting then Trace(PRELUDE + body.events, Raised)
    else
      Trace(PRELUDE + body.events + Closing(body.finish.status),
            if ending == Clean then body.finish else Raised)
  }

  // A registry call can raise for reasons of its own (its lock, its file, an entry it
  // will not change), before its record is written or once it is.
  datatype Fault = NoFault | BeforeWrite | AfterWrite

  // What the k-th registry call of a run does.
  type Faults = nat -> Fault

  datatype Emission = Emission(recorded: seq<Event>, calls: nat, raised: bool)

  // What reaches the log of the records to be made from call `from` on.
  function Emit(events: seq<Event>, faults: Faults, from: nat): Emission {
    if events == [] then Emission([], from, false)
    else
      match faults(from)
      case BeforeWrite => Emission([], from + 1, true)
      case AfterWrite => Emission([events[0]], from + 1, true)
      case NoFault =>
        var rest := Emit(events[1..], faults, from + 1);
        rest.(recorded := [events[0]] + rest.recorded)
  }

  function RunTrace(steps: seq<StepBehaviour>, ending: Ending, faults: Faults): Trace {
    var t := Undisturbed(steps, ending);
    var e := Emit(t.events, faults, 0);
    Trace(e.recorded, if e.raised then Raised else t.finish)
  }

  const FAILURE: Event := Event(Failed, RunEvent)

  // The log after the background wrapper has caught whatever was raised; its own record
  // is one more registry call.
  function BackgroundLog(steps: seq<StepBehaviour>, ending: Ending, faults: Faults): seq<Event> {
    var t := RunTrace(steps, ending, faults);
    var calls := Emit(Undisturbed(steps, ending).events, faults, 0).calls;
    if t.finish.Raised? then t.events + Emit([FAILURE], faults, calls).recorded else t.events
  }

  // ------------------------------------------------------------------- the run

  class RunRegistry {
    const faults: Faults
    var history: seq<Event>
    var calls: nat

    constructor (faults: Faults)
      ensures this.faults == faults && history == [] && calls == 0
    {
      this.faults := faults;
      history, calls := [], 0;
    }

    // Appends an event; false is an exception.  A status it does not know is refused
    // before anything else.
    method Record(status: Status, kind: Kind) returns (ok: bool)
      modifies this
      ensures status.Unsupported? ==> !ok && history == old(history) && calls == old(calls)
      ensures !status.Unsupported? ==>
        var e := Emit([Event(status, kind)], faults, old(calls));
        ok == !e.raised && history == old(history) + e.recorded && calls == e.calls
    {
      assert [Event(status, kind)][1..] == [];
      if status.Unsupported? {
        return false;
      }
      var fault := faults(calls);
      calls := calls + 1;
      if fault != BeforeWrite {
        history := history + [Event(status, kind)];
      }
      ok := fault == NoFault;
    }
  }

  // Records in a row: the second part starts only if the first did not raise.
  lemma {:induction false} EmitAppend(a: seq<Event>, b: seq<Event>, faults: Faults, from: nat)
    ensures var first := Emit(a, faults, from);
      Emit(a + b, faults, from) ==
        if first.raised then first
        else
          var second := Emit(b, faults, first.calls);
          second.(recorded := first.recorded + second.recorded)
  {
    if a == [] {
      assert a + b == b;
      assert [] + Emit(b, faults, from).recorded == Emit(b, faults, from).recorded;
    } else {
      assert (a + b)[0] == a[0] && (a + b)[1..] == a[1..] + b;
      EmitAppend(a[1..], b, faults, from + 1);
      if faults(from) == NoFault {
        var first := Emit(a[1..], faults, from + 1);
        if !first.raised {
          Regroup([a[0]], first.recorded, Emit(b, faults, first.calls).recorded);
        }
      }
    }
  }

  // `history` with the records of `rest` still to come is `before` with those of `all`.
  predicate Ahead(before: seq<Event>, all: Emission, history: seq<Event>, rest: Emission) {
    before + all.recorded == history + rest.recorded && all.calls == rest.calls && all.raised == rest.raised
  }

  method Open(registry: RunRegistry) returns (ok: bool)
    modifies registry
    ensures var e := Emit(PRELUDE, registry.faults, old(registry.calls));
      ok == !e.raised && registry.history == old(registry.history) + e.recorded && registry.calls == e.calls
  {
    PreludeEmission(registry.faults, registry.calls);
    ok := registry.Record(Queued, RunEvent);
    if ok {
      ok := registry.Record(Running, RunEvent);
    }
    if ok {
      ok := registry.Record(Running, WorkflowStarted);
    }
  }

  // Three records, one call each.
  lemma PreludeEmission(faults: Faults, from: nat)
    ensures PRELUDE == [PRELUDE[0]] + ([PRELUDE[1]] + [PRELUDE[2]])
    ensures Emit(PRELUDE, faults, from) ==
      Then(Emit([PRELUDE[0]], faults, from),
        Then(Emit([PRELUDE[1]], faults, from + 1), Emit([PRELUDE[2]], faults, from + 2)))
  {
    EmitAppend([PRELUDE[0]], [PRELUDE[1]] + [PRELUDE[2]], faults, from);
    EmitAppend([PRELUDE[1]], [PRELUDE[2]], faults, from + 1);
  }

  function Then(first: Emission, second: Emission): Emission {
    if first.raised then first else second.(recorded := first.recorded + second.recorded)
  }

  // One step of the loop; None carries on with the next.
  method RunStep(registry: RunRegistry, b: StepBehaviour, i: nat) returns (stop: Option<Finish>)
    modifies registry
    ensures var e := Emit(StepEvents(b, i), registry.faults, old(registry.calls));
      && registry.history == old(registry.history) + e.recorded && registry.calls == e.calls
      && stop == if e.raised then Some(Raised) else StepEnd(b, i)
  {
    if b.RaisesBeforeStart? {
      return Some(Raised);
    }
    var status := StepStatus(b);
    ghost var (start, finish) := (StartEvent(i), FinishEvent(i, status));
    assert [start, finish] == [start] + [finish];
    EmitAppend([start], [finish], registry.faults, registry.calls);
    var ok := registry.Record(Running, StepStarted(i));
    if !ok || b.RaisesAfterStart? {
      return Some(Raised);
    }
    ok := registry.Record(if status == Completed then Running else status, StepFinished(i, status));
    if !ok {
      return Some(Raised);
    }
    stop := if status != Completed then Some(Ended(status, i + 1)) else None;
  }

  // The step loop.
  method RunSteps(registry: RunRegistry, steps: seq<StepBehaviour>) returns (finish: Finish)
    modifies registry
    ensures var (t, e) := (StepsFrom(steps, 0), Emit(StepsFrom(steps, 0).events, registry.faults, old(registry.calls)));
      && registry.history == old(registry.history) + e.recorded && registry.calls == e.calls
      && finish == if e.raised then Raised else t.finish
  {
    ghost var before := registry.history;
    ghost var all := Emit(StepsFrom(steps, 0).events, registry.faults, registry.calls);
    var i := 0;
    while i < |steps|
      invariant 0 <= i <= |steps|
      invariant Ahead(before, all, registry.history, Emit(StepsFrom(steps, i).events, registry.faults, registry.calls))
      invariant StepsFrom(steps, i).finish == StepsFrom(steps, 0).finish
    {
      ghost var (history, calls) := (registry.history, registry.calls);
      var stop := RunStep(registry, steps[i], i);
      StepAhead(before, all, history, registry.faults, calls, steps, i);
      if stop.Some? {
        return stop.value;
      }
      i := i + 1;
    }
    finish := Ended(Completed, i);
  }

  // A step that carries on leaves the rest of the steps ahead; one that does not is the last.
  lemma StepAhead(
    before: seq<Event>, all: Emission, history: seq<Event>, faults: Faults, calls: nat,
    steps: seq<StepBehaviour>, i: nat)
    requires i < |steps| && Ahead(before, all, history, Emit(StepsFrom(steps, i).events, faults, calls))
    ensures var e := Emit(StepEvents(steps[i], i), faults, calls);
      if e.raised || StepEnd(steps[i], i).Some? then Ahead(before, all, history, e)
      else Ahead(before, all, history + e.recorded, Emit(StepsFrom(steps, i + 1).events, faults, e.calls))
  {
    var e := Emit(StepEvents(steps[i], i), faults, calls);
    if StepEnd(steps[i], i).None? {
      var rest := StepsFrom(steps, i + 1).events;
      EmitAppend(StepEvents(steps[i], i), rest, faults, calls);
      Regroup(history, e.recorded, Emit(rest, faults, e.calls).recorded);
    }
  }

  method Close(registry: RunRegistry, final: Status) returns (ok: bool)
    requires !final.Unsupported?
    modifies registry
    ensures var e := Emit(Closing(final), registry.faults, old(registry.calls));
      ok == !e.raised && registry.history == old(registry.history) + e.recorded && registry.calls == e.calls
  {
    ghost var c := Closing(final);
    assert c == [c[0]] + [c[1]];
    EmitAppend([c[0]], [c[1]], registry.faults, registry.calls);
    ok := registry.Record(if final != Completed then final else Running, WorkflowFinished(final));
    if ok {
      ok := registry.Record(final, RunEvent);
    }
  }

  // What a run records after the prelude.
  function AfterPrelude(steps: seq<StepBehaviour>, ending: Ending): seq<Event> {
    var body := StepsFrom(steps, 0);
    if body.finish.Raised? || ending == RaisesWhileWriting then body.events
    else body.events + Closing(body.finish.status)
  }

  // The steps, the artifacts and the closing records.
  method RunAndClose(registry: RunRegistry, steps: seq<StepBehaviour>, ending: Ending) returns (finish: Finish)
    modifies registry
    ensures var e := Emit(AfterPrelude(steps, ending), registry.faults, old(registry.calls));
      && registry.history == old(registry.history) + e.recorded && registry.calls == e.calls
      && finish == if e.raised then Raised else Undisturbed(steps, ending).finish
  {
    ghost var (before, body, faults) := (registry.history, StepsFrom(steps, 0), registry.faults);
    ghost var middle := Emit(body.events, faults, registry.calls);
    FinishSupported(steps, 0);
    if body.finish.Ended? && ending != RaisesWhileWriting {
      EmitAppend(body.events, Closing(body.finish.status), faults, registry.calls);
    }
    finish := RunSteps(registry, steps);
    if finish.Raised? || ending == RaisesWhileWriting {
      return Raised;
    }
    Regroup(before, middle.recorded, Emit(Closing(finish.status), faults, registry.calls).recorded);
    var ok := Close(registry, finish.status);
    if !ok || ending == RaisesAfterRecording {
      finish := Raised;
    }
  }

  method RunSequentialWorkflow(registry: RunRegistry, steps: seq<StepBehaviour>, ending: Ending)
    returns (finish: Finish)
    requires registry.calls == 0
    modifies registry
    ensures registry.history == old(registry.history) + RunTrace(steps, ending, registry.faults).events
    ensures finish == RunTrace(steps, ending, registry.faults).finish
    ensures registry.calls == Emit(Undisturbed(steps, ending).events, registry.faults, 0).calls
  {
    ghost var (before, faults) := (registry.history, registry.faults);
    PreludeFirst(steps, ending);
    EmitAppend(PRELUDE, AfterPrelude(steps, ending), faults, 0);
    var ok := Open(registry);
    if !ok {
      return Raised;
    }
    Regroup(before, Emit(PRELUDE, faults, 0).recorded,
      Emit(AfterPrelude(steps, ending), faults, registry.calls).recorded);
    finish := RunAndClose(registry, steps, ending);
  }

  lemma PreludeFirst(steps: seq<StepBehaviour>, ending: Ending)
    ensures Undisturbed(steps, ending).events == PRELUDE + AfterPrelude(steps, ending)
  {
    var body := StepsFrom(steps, 0);
    if body.finish.Ended? && ending != RaisesWhileWriting {
      Regroup(PRELUDE, body.events, Closing(body.finish.status));
    }
  }

  // The steps never end in a status the registry does not know.
  lemma {:induction false} FinishSupported(steps: seq<StepBehaviour>, i: nat)
    requires i <= |steps|
    ensures var finish := StepsFrom(steps, i).finish; finish.Ended? ==> !finish.status.Unsupported?
    decreases |steps| - i
  {
    if i == |steps| {
    } else {
      FinishSupported(steps, i + 1);
    }
  }

  method RunInBackground(registry: RunRegistry, steps: seq<StepBehaviour>, ending: Ending)
    requires registry.calls == 0
    modifies registry
    ensures registry.history == old(registry.history) + BackgroundLog(steps, ending, registry.faults)
  {
    ghost var before := registry.history;
    var finish := RunSequentialWorkflow(registry, steps, ending);
    if finish.Raised? {
      ghost var (t, faults, calls) := (RunTrace(steps, ending, registry.faults), registry.faults, registry.calls);
      var ok := registry.Record(Failed, RunEvent);
      Regroup(before, t.events, Emit([FAILURE], faults, calls).recorded);
    }
  }

  // ------------------------------------------------------ where the registry raises

  predicate Clear(faults: Faults, from: nat, to: nat) {
    forall k :: from <= k < to ==> faults(k) == NoFault
  }

  // Call `k` is made and its record is written.
  predicate Writes(faults: Faults, k: nat) {
    Clear(faults, 0, k) && faults(k) != BeforeWrite
  }

  // All the records, or those up to the first call that raises.
  lemma {:induction false} EmissionIs(events: seq<Event>, faults: Faults, from: nat)
    ensures var e := Emit(events, faults, from);
      && (e.raised <==> !Clear(faults, from, from + |events|))
      && (!e.raised ==> e.recorded == events && e.calls == from + |events|)
      && (e.raised ==>
            && from < e.calls <= from + |events|
            && Clear(faults, from, e.calls - 1) && faults(e.calls - 1) != NoFault
            && e.recorded == events[..if faults(e.calls - 1) == BeforeWrite then e.calls - from - 1 else e.calls - from])
  {
    if events == [] {
    } else if faults(from) != NoFault {
      assert !Clear(faults, from, from + |events|);
    } else {
      EmissionIs(events[1..], faults, from + 1);
    }
  }

  // -------------------------------------------------------------- the protocol

  function Statuses(events: seq<Event>): (r: seq<Status>)
    ensures |r| == |events|
  {
    if events == [] then [] else [events[0].status] + Statuses(events[1..])
  }

  function Repeat(s: Status, n: nat): (r: seq<Status>)
    ensures |r| == n
    ensures forall i :: 0 <= i < n ==> r[i] == s
  {
    seq(n, _ => s)
  }

  lemma {:induction false} StatusesAppend(a: seq<Event>, b: seq<Event>)
    ensures Statuses(a + b) == Statuses(a) + Statuses(b)
  {
    if a == [] {
      assert a + b == b;
    } else {
      assert (a + b)[1..] == a[1..] + b;
      StatusesAppend(a[1..], b);
    }
  }

  predicate AllCompleted(steps: seq<StepBehaviour>) {
    forall i :: 0 <= i < |steps| ==> steps[i] == Returns(Some(Completed))
  }

  // The start and finish events of steps i .. n-1, strictly alternating.
  function Pairs(steps: seq<StepBehaviour>, i: nat, n: nat): seq<Event>
    requires i <= n <= |steps|
    decreases n - i
  {
    if i == n then [] else [StartEvent(i), FinishEvent(i, StepStatus(steps[i]))] + Pairs(steps, i + 1, n)
  }

  // The steps that ran are i .. n-1: all but the last completed, and whatever ended
  // the run is step n-1's status, the end of the catalogue, or an exception of step n.
  ghost predicate RanTo(steps: seq<StepBehaviour>, i: nat, n: nat, finish: Finish)
    requires i <= n <= |steps|
  {
    && (forall k :: i <= k < n ==> steps[k].Returns? && !StepStatus(steps[k]).Unsupported?)
    && (forall k :: i <= k < n - 1 ==> StepStatus(steps[k]) == Completed)
    && match finish
       case Ended(s, executed) =>
         && executed == n
         && if s == Completed then n == |steps| && forall k :: i <= k < n ==> StepStatus(steps[k]) == Completed
            else n > i && StepStatus(steps[n - 1]) == s
       case Raised =>
         && n < |steps| && (forall k :: i <= k < n ==> StepStatus(steps[k]) == Completed)
         && (!steps[n].Returns? || StepStatus(steps[n]).Unsupported?)
  }

  // An exception after its start leaves one unmatched start event.
  function Unmatched(steps: seq<StepBehaviour>, n: nat, finish: Finish): seq<Event>
    requires n <= |steps|
  {
    if finish.Raised? && n < |steps| && !steps[n].RaisesBeforeStart? then [StartEvent(n)] else []
  }

  lemma RanOneMore(steps: seq<StepBehaviour>, i: nat, n: nat, finish: Finish)
    requires i < n <= |steps|
    requires steps[i].Returns? && StepStatus(steps[i]) == Completed && RanTo(steps, i + 1, n, finish)
    ensures RanTo(steps, i, n, finish)
  {
  }

  // Started and finished events alternate, and the executed steps are a prefix of
  // the catalogue.
  lemma {:induction false} StepsAlternate(steps: seq<StepBehaviour>, i: nat) returns (n: nat)
    requires i <= |steps|
    ensures i <= n <= |steps|
    ensures RanTo(steps, i, n, StepsFrom(steps, i).finish)
    ensures StepsFrom(steps, i).events == Pairs(steps, i, n) + Unmatched(steps, n, StepsFrom(steps, i).finish)
    decreases |steps| - i
  {
    if i == |steps| || !steps[i].Returns? || StepStatus(steps[i]).Unsupported? {
      n := i;
    } else if StepStatus(steps[i]) != Completed {
      n := i + 1;
      assert Pairs(steps, i + 1, n) == [];
    } else {
      n := StepsAlternate(steps, i + 1);
      RanOneMore(steps, i, n, StepsFrom(steps, i + 1).finish);
      var pair := [StartEvent(i), FinishEvent(i, StepStatus(steps[i]))];
      Regroup(pair, Pairs(steps, i + 1, n), Unmatched(steps, n, StepsFrom(steps, i + 1).finish));
    }
  }

  lemma PairStatuses(a: Event, b: Event, rest: seq<Event>)
    ensures Statuses([a, b] + rest) == [a.status, b.status] + Statuses(rest)
    ensures Statuses([a, b]) == [a.status, b.status]
    ensures Statuses([a]) == [a.status]
  {
    assert ([a, b] + rest)[1..] == [b] + rest && ([b] + rest)[1..] == rest;
    assert [a, b][1..] == [b] && [b][1..] == [];
  }

  lemma TwoMoreRunning(k: nat, tail: seq<Status>)
    ensures [Running, Running] + (Repeat(Running, k) + tail) == Repeat(Running, k + 2) + tail
  {
  }

  function Tail(finish: Finish): seq<Status> {
    if finish.Ended? && finish.status != Completed then [finish.status] else []
  }

  // The statuses of the steps' events: running throughout, then at most one other.
  lemma {:induction false} StepStatuses(steps: seq<StepBehaviour>, i: nat) returns (k: nat)
    requires i <= |steps|
    ensures Statuses(StepsFrom(steps, i).events) == Repeat(Running, k) + Tail(StepsFrom(steps, i).finish)
    decreases |steps| - i
  {
    if i == |steps| || steps[i].RaisesBeforeStart? {
      k := 0;
    } else {
      var s := StepStatus(steps[i]);
      var rest := StepsFrom(steps, i + 1);
      PairStatuses(StartEvent(i), FinishEvent(i, s), rest.events);
      if steps[i].RaisesAfterStart? || s.Unsupported? || s != Completed {
        k := 1;
      } else {
        k := StepStatuses(steps, i + 1);
        TwoMoreRunning(k, Tail(rest.finish));
        k := k + 2;
      }
    }
  }

  lemma ClosingStatuses(s: Status)
    ensures Statuses(Closing(s)) == if s == Completed then [Running, Completed] else [s, s]
  {
    assert Closing(s)[1..] == [Event(s, RunEvent)] && Closing(s)[1..][1..] == [];
  }

  lemma PreludeStatuses()
    ensures Statuses(PRELUDE) == [Queued, Running, Running]
  {
    assert PRELUDE[1..] == [Event(Running, RunEvent), Event(Running, WorkflowStarted)];
    assert PRELUDE[1..][1..] == [Event(Running, WorkflowStarted)];
    assert PRELUDE[1..][1..][1..] == [];
  }

  // The statuses before the closing events.
  lemma OpenStatuses(steps: seq<StepBehaviour>) returns (k: nat)
    ensures k >= 2
    ensures Statuses(PRELUDE + StepsFrom(steps, 0).events) ==
            [Queued] + Repeat(Running, k) + Tail(StepsFrom(steps, 0).finish)
  {
    var t := StepsFrom(steps, 0);
    k := StepStatuses(steps, 0);
    PreludeStatuses();
    StatusesAppend(PRELUDE, t.events);
    TwoMoreRunning(k, Tail(t.finish));
    assert [Queued, Running, Running] == [Queued] + [Running, Running];
    k := k + 2;
  }

  lemma JoinClosing(k: nat, s: Status)
    ensures s == Completed ==>
      [Queued] + Repeat(Running, k) + [] + [Running, s] == [Queued] + Repeat(Running, k + 1) + Repeat(s, 1)
    ensures [Queued] + Repeat(Running, k) + [s] + [s, s] == [Queued] + Repeat(Running, k) + Repeat(s, 3)
  {
    assert Repeat(Running, k) + [Running] == Repeat(Running, k + 1);
    assert [s] + [s, s] == Repeat(s, 3);
    assert [s] == Repeat(s, 1);
  }

  // The log of a run the registry interrupts is the beginning of the log it would have had.
  lemma CutLogIsPrefix(steps: seq<StepBehaviour>, ending: Ending, faults: Faults)
    ensures RunTrace(steps, ending, faults).events <= Undisturbed(steps, ending).events
    ensures RunTrace(steps, ending, faults).finish.Ended? ==>
              RunTrace(steps, ending, faults) == Undisturbed(steps, ending)
  {
    EmissionIs(Undisturbed(steps, ending).events, faults, 0);
  }

  // A run that raises nothing records queued, then running at least twice, then its
  // own final status and nothing else to the end.
  lemma RunLogProtocol(steps: seq<StepBehaviour>, ending: Ending, faults: Faults) returns (k: nat, t: nat)
    requires RunTrace(steps, ending, faults).finish.Ended?
    ensures k >= 2 && t >= 1
    ensures Statuses(RunTrace(steps, ending, faults).events) ==
            [Queued] + Repeat(Running, k) + Repeat(RunTrace(steps, ending, faults).finish.status, t)
  {
    CutLogIsPrefix(steps, ending, faults);
    var body := StepsFrom(steps, 0);
    var final := body.finish.status;
    k := OpenStatuses(steps);
    ClosingStatuses(final);
    StatusesAppend(PRELUDE + body.events, Closing(final));
    JoinClosing(k, final);
    if final == Completed {
      k, t := k + 1, 1;
    } else {
      t := 3;
    }
  }

  // The call that makes the last record of a run whose steps all complete.
  function FinalCall(steps: seq<StepBehaviour>): nat {
    2 * |steps| + 4
  }

  lemma {:induction false} PairsLength(steps: seq<StepBehaviour>, i: nat, n: nat)
    requires i <= n <= |steps|
    ensures |Pairs(steps, i, n)| == 2 * (n - i)
    decreases n - i
  {
    if i == n {
    } else {
      PairsLength(steps, i + 1, n);
    }
  }

  // All steps complete exactly when the steps end completed, with two records each.
  lemma AllCompletedBody(steps: seq<StepBehaviour>)
    ensures var body := StepsFrom(steps, 0);
      && (AllCompleted(steps) <==> body.finish == Ended(Completed, |steps|))
      && (AllCompleted(steps) <==> body.finish.Ended? && body.finish.status == Completed)
      && (AllCompleted(steps) ==> |body.events| == 2 * |steps|)
  {
    var n := StepsAlternate(steps, 0);
    PairsLength(steps, 0, n);
  }

  // The run ends completed exactly when every step of the catalogue completed and
  // nothing raised; otherwise it ends with the first status that is not completed.
  lemma CompletedMeansAll(steps: seq<StepBehaviour>, ending: Ending, faults: Faults)
    ensures var finish := RunTrace(steps, ending, faults).finish;
      && (finish == Ended(Completed, |steps|) <==>
            AllCompleted(steps) && ending == Clean && Clear(faults, 0, FinalCall(steps) + 1))
      && (finish.Ended? && finish.status == Completed ==> finish.executed == |steps|)
  {
    AllCompletedBody(steps);
    EmissionIs(Undisturbed(steps, ending).events, faults, 0);
  }

  // The wrapper's own record is written.
  predicate FailureRecorded(steps: seq<StepBehaviour>, ending: Ending, faults: Faults) {
    faults(Emit(Undisturbed(steps, ending).events, faults, 0).calls) != BeforeWrite
  }

  /**
   * Wherever the registry or the run raises, the last status a background run leaves is
   * the one it returned, or failed when it raised, unless the wrapper's own record is lost
   * as well: then the log stays as the run left it.
   */
  lemma BackgroundLastStatus(steps: seq<StepBehaviour>, ending: Ending, faults: Faults)
    ensures var (log, t) := (BackgroundLog(steps, ending, faults), RunTrace(steps, ending, faults));
      && (t.finish.Ended? ==> log != [] && log[|log| - 1].status == t.finish.status)
      && (t.finish.Raised? ==>
            log == if FailureRecorded(steps, ending, faults) then t.events + [FAILURE] else t.events)
  {
    CutLogIsPrefix(steps, ending, faults);
    FailureEmission(faults, Emit(Undisturbed(steps, ending).events, faults, 0).calls);
    assert RunTrace(steps, ending, faults).events + [] == RunTrace(steps, ending, faults).events;
  }

  lemma FailureEmission(faults: Faults, k: nat)
    ensures Emit([FAILURE], faults, k).recorded == if faults(k) == BeforeWrite then [] else [FAILURE]
  {
    assert [FAILURE][1..] == [];
    assert [[FAILURE][0]] == [FAILURE];
  }

  lemma CompletedInOpen(steps: seq<StepBehaviour>)
    ensures Completed !in Statuses(PRELUDE + StepsFrom(steps, 0).events)
  {
    var k := OpenStatuses(steps);
  }

  // Where completed can stand in what follows an opening without it.
  lemma CompletedInClosing(opening: seq<Event>, first: Event, last: Event, events: seq<Event>, m: nat)
    requires Completed !in Statuses(opening) && first.status != Completed
    requires events == opening + [first, last] && m <= |events|
    ensures Completed in Statuses(events[..m]) <==> last.status == Completed && m == |events|
  {
    StatusesAt(events[..m]);
    StatusesAt(opening);
    if m == |events| {
      assert events[..m][m - 1] == last;
    }
  }

  lemma CompletedBeforeClosing(opening: seq<Event>, m: nat)
    requires Completed !in Statuses(opening) && m <= |opening|
    ensures Completed !in Statuses(opening[..m])
  {
    StatusesAt(opening[..m]);
    StatusesAt(opening);
  }

  // Completed can only stand at the very end of an undisturbed log.
  lemma CompletedOnlyLast(steps: seq<StepBehaviour>, ending: Ending, m: nat)
    requires m <= |Undisturbed(steps, ending).events|
    ensures var events := Undisturbed(steps, ending).events;
      Completed in Statuses(events[..m]) <==>
        AllCompleted(steps) && ending != RaisesWhileWriting && m == |events|
    ensures AllCompleted(steps) && ending != RaisesWhileWriting ==>
              |Undisturbed(steps, ending).events| == FinalCall(steps) + 1
  {
    var body := StepsFrom(steps, 0);
    AllCompletedBody(steps);
    CompletedInOpen(steps);
    if body.finish.Ended? && ending != RaisesWhileWriting {
      var closing := Closing(body.finish.status);
      assert closing == [closing[0], closing[1]];
      CompletedInClosing(PRELUDE + body.events, closing[0], closing[1], Undisturbed(steps, ending).events, m);
    } else {
      CompletedBeforeClosing(PRELUDE + body.events, m);
    }
  }

  lemma {:induction false} StatusesAt(events: seq<Event>)
    ensures forall i :: 0 <= i < |events| ==> Statuses(events)[i] == events[i].status
    ensures Completed in Statuses(events) <==> exists i :: 0 <= i < |events| && events[i].status == Completed
  {
    if events == [] {
    } else {
      StatusesAt(events[1..]);
    }
  }

  // A completed status is in the run's log exactly when its last record was written.
  lemma CompletedInTrace(steps: seq<StepBehaviour>, ending: Ending, faults: Faults)
    ensures Completed in Statuses(RunTrace(steps, ending, faults).events) <==>
            AllCompleted(steps) && ending != RaisesWhileWriting && Writes(faults, FinalCall(steps))
  {
    var events := Undisturbed(steps, ending).events;
    var recorded := RunTrace(steps, ending, faults).events;
    EmissionIs(events, faults, 0);
    CompletedOnlyLast(steps, ending, |recorded|);
    assert recorded == events[..|recorded|];
    if AllCompleted(steps) && ending != RaisesWhileWriting {
      FullWhenWritten(events, faults);
    }
  }

  lemma FullWhenWritten(events: seq<Event>, faults: Faults)
    requires events != []
    ensures |Emit(events, faults, 0).recorded| == |events| <==> Writes(faults, |events| - 1)
    ensures Writes(faults, |events| - 1) ==> Emit(events, faults, 0).calls == |events|
  {
    EmissionIs(events, faults, 0);
    var e := Emit(events, faults, 0);
    if e.raised && e.calls < |events| {
      assert faults(e.calls - 1) != NoFault && !Clear(faults, 0, |events| - 1);
    }
  }

  // A completed status reaches the background log exactly when all steps completed, the
  // artifacts were written and the registry took every record up to the last.
  lemma CompletedIsRecorded(steps: seq<StepBehaviour>, ending: Ending, faults: Faults)
    ensures Completed in Statuses(BackgroundLog(steps, ending, faults)) <==>
            AllCompleted(steps) && ending != RaisesWhileWriting && Writes(faults, FinalCall(steps))
  {
    var t := RunTrace(steps, ending, faults);
    CompletedInTrace(steps, ending, faults);
    BackgroundLastStatus(steps, ending, faults);
    StatusesAppend(t.events, [FAILURE]);
    assert Statuses([FAILURE]) == [Failed];
  }

  /**
   * A run reads completed and then failed exactly when it raises after its last record,
   * on its own or inside the registry call that wrote it, and the wrapper's record is written.
   */
  lemma CompletedThenFailed(steps: seq<StepBehaviour>, ending: Ending, faults: Faults)
    ensures var log := BackgroundLog(steps, ending, faults);
      (Completed in Statuses(log) && log[|log| - 1].status == Failed) <==>
        && AllCompleted(steps) && ending != RaisesWhileWriting && Writes(faults, FinalCall(steps))
        && (ending == RaisesAfterRecording || faults(FinalCall(steps)) == AfterWrite)
        && faults(FinalCall(steps) + 1) != BeforeWrite
  {
    CompletedIsRecorded(steps, ending, faults);
    BackgroundLastStatus(steps, ending, faults);
    if AllCompleted(steps) && ending != RaisesWhileWriting && Writes(faults, FinalCall(steps)) {
      LastWritten(steps, ending, faults);
    }
  }

  // The records of a run whose last one was written.
  lemma FullTrace(steps: seq<StepBehaviour>, ending: Ending, faults: Faults)
    requires AllCompleted(steps) && ending != RaisesWhileWriting && Writes(faults, FinalCall(steps))
    ensures var (events, e) := (Undisturbed(steps, ending).events, Emit(Undisturbed(steps, ending).events, faults, 0));
      && e.recorded == events && e.calls == |events| == FinalCall(steps) + 1
      && (e.raised <==> faults(FinalCall(steps)) == AfterWrite)
  {
    var events := Undisturbed(steps, ending).events;
    CompletedOnlyLast(steps, ending, |events|);
    FullWhenWritten(events, faults);
    EmissionIs(events, faults, 0);
    assert Clear(faults, 0, |events|) <==> faults(FinalCall(steps)) == NoFault;
  }

  lemma LastIsCompleted(steps: seq<StepBehaviour>, ending: Ending)
    requires AllCompleted(steps) && ending != RaisesWhileWriting
    ensures var t := Undisturbed(steps, ending);
      && t.events != [] && t.events[|t.events| - 1].status == Completed
      && (t.finish.Raised? <==> ending == RaisesAfterRecording)
  {
    AllCompletedBody(steps);
  }

  // A run whose last record was written, and what can still go wrong.
  lemma LastWritten(steps: seq<StepBehaviour>, ending: Ending, faults: Faults)
    requires AllCompleted(steps) && ending != RaisesWhileWriting && Writes(faults, FinalCall(steps))
    ensures var t := RunTrace(steps, ending, faults);
      && t.events != [] && t.events[|t.events| - 1].status == Completed
      && (t.finish.Raised? <==> ending == RaisesAfterRecording || faults(FinalCall(steps)) == AfterWrite)
    ensures FailureRecorded(steps, ending, faults) <==> faults(FinalCall(steps) + 1) != BeforeWrite
  {
    FullTrace(steps, ending, faults);
    LastIsCompleted(steps, ending);
  }
}
