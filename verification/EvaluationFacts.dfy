/** What each case of a bounded benchmark comes to, stated from the budget's own entries. */
module EvaluationFacts {
  import opened Common
  import opened CanonicalJson
  import opened Utf8
  import opened EvaluationLanes

  // The budget admits so many bytes under that entry; only an integer limits anything.
  predicate Admits(budget: Budget, field: string, n: nat) {
    field in budget && budget[field].IntValue? ==> n <= budget[field].i
  }

  // The clock has run out: past the wall time, or with none worth the name to begin with.
  predicate OutOfTime(budget: Budget, elapsed: real) {
    var field := "wall_time_seconds";
    && field in budget && (budget[field].IntValue? || budget[field].FloatValue?)
    && (Seconds(budget[field]) <= 0.001 || elapsed > Seconds(budget[field]))
  }

  function Seconds(v: BudgetValue): real {
    if v.IntValue? then v.i as real else if v.FloatValue? then v.f else 0.0
  }

  lemma OutOfTimeExactly(budget: Budget, elapsed: real)
    ensures ClockRanOut(elapsed, LimitsOf(budget).wall) <==> OutOfTime(budget, elapsed)
  {
  }

  // The case runs through: nothing raises, and every print stays within its limit.
  ghost predicate Succeeds<C, P, R>(
    lane: Lane<C, P, R>, budget: Budget, used: nat, c: C, payload: P, text: string, value: R, printed: string)
  {
    && lane.payload(c) == Some(payload) && lane.printPayload(payload) == Some(text)
    && lane.calculate(payload) == Some(value) && lane.printResult(value) == Some(printed)
    && Admits(budget, "input_byte_limit", |Encode(text)|) && Admits(budget, "output_byte_limit", |Encode(printed)|)
    && Admits(budget, "total_byte_limit", used + |Encode(text)| + |Encode(printed)|)
    && Admits(budget, "temp_storage_bytes", used + |Encode(text)| + |Encode(printed)|)
  }

  lemma OverExactly(budget: Budget, n: nat)
    ensures Over(n, LimitsOf(budget).input) <==> !Admits(budget, "input_byte_limit", n)
    ensures Over(n, LimitsOf(budget).output) <==> !Admits(budget, "output_byte_limit", n)
    ensures Over(n, LimitsOf(budget).total) <==> !Admits(budget, "total_byte_limit", n)
    ensures Over(n, LimitsOf(budget).temp) <==> !Admits(budget, "temp_storage_bytes", n)
  {
  }

  // The limits decide alike however they are read.
  lemma LimitsAgree(budget: Budget)
    ensures forall n: nat :: Over(n, LimitsOf(budget).input) <==> !Admits(budget, "input_byte_limit", n)
    ensures forall n: nat :: Over(n, LimitsOf(budget).output) <==> !Admits(budget, "output_byte_limit", n)
    ensures forall n: nat :: Over(n, LimitsOf(budget).total) <==> !Admits(budget, "total_byte_limit", n)
    ensures forall n: nat :: Over(n, LimitsOf(budget).temp) <==> !Admits(budget, "temp_storage_bytes", n)
  {
    forall n: nat
      ensures Over(n, LimitsOf(budget).input) <==> !Admits(budget, "input_byte_limit", n)
      ensures Over(n, LimitsOf(budget).output) <==> !Admits(budget, "output_byte_limit", n)
      ensures Over(n, LimitsOf(budget).total) <==> !Admits(budget, "total_byte_limit", n)
      ensures Over(n, LimitsOf(budget).temp) <==> !Admits(budget, "temp_storage_bytes", n)
    {
      OverExactly(budget, n);
    }
  }

  ghost predicate CanSucceed<C, P(!new), R(!new)>(lane: Lane<C, P, R>, budget: Budget, used: nat, c: C) {
    exists payload, text, value, printed :: Succeeds(lane, budget, used, c, payload, text, value, printed)
  }

  /** A case completes exactly when it runs through, and then reports its own bytes and digest. */
  lemma CompletedExactly<C, P(!new), R(!new)>(lane: Lane<C, P, R>, budget: Budget, used: nat, c: C)
    ensures var r := Verdict(lane, LimitsOf(budget), used, c);
      && r.caseId == lane.caseId(c) && r.status != TimedOut
      && (r.status == Completed <==> CanSucceed(lane, budget, used, c))
      && (r.status == Completed <==> r.failure == None)
    ensures forall payload, text, value, printed :: Succeeds(lane, budget, used, c, payload, text, value, printed) ==>
      Verdict(lane, LimitsOf(budget), used, c) == CaseResult(
        lane.caseId(c), Completed, None, |Encode(text)|, |Encode(printed)|, Some(Sha256(printed)))
  {
    LimitsAgree(budget);
    var r := Verdict(lane, LimitsOf(budget), used, c);
    if r.status == Completed {
      var payload := lane.payload(c).value;
      var value := lane.calculate(payload).value;
      assert Succeeds(lane, budget, used, c, payload, lane.printPayload(payload).value, value, lane.printResult(value).value);
    }
  }

  // The limit a failure names is broken.
  ghost predicate Breaks(budget: Budget, used: nat, r: CaseResult) {
    match r.failure
    case Some(InputLimitExceeded) => !Admits(budget, "input_byte_limit", r.inputBytes)
    case Some(OutputLimitExceeded) => !Admits(budget, "output_byte_limit", r.outputBytes)
    case Some(TotalLimitExceeded) => !Admits(budget, "total_byte_limit", used + r.inputBytes + r.outputBytes)
    case Some(TempStorageExceeded) => !Admits(budget, "temp_storage_bytes", used + r.inputBytes + r.outputBytes)
    case _ => true
  }

  /** A failed case names a limit its bytes break, or that something of its own raised. */
  lemma FailureExplained<C, P(!new), R(!new)>(lane: Lane<C, P, R>, budget: Budget, used: nat, c: C)
    ensures var r := Verdict(lane, LimitsOf(budget), used, c);
      && Breaks(budget, used, r) && r.failure != Some(FailureClass.WallTimeExceeded)
      && (r.failure == Some(CaseEvaluationFailed) ==>
            Raises(lane, c) && r == CaseResult(lane.caseId(c), Failed, Some(CaseEvaluationFailed), 0, 0, None))
      && (r.failure.Some? ==> r.status == Failed && r.digest == None)
  {
    LimitsAgree(budget);
  }

  // The input limit comes first: it is named exactly when the payload's print breaks it.
  lemma InputLimitFirst<C, P(!new), R(!new)>(lane: Lane<C, P, R>, budget: Budget, used: nat, c: C)
    ensures Verdict(lane, LimitsOf(budget), used, c).failure == Some(InputLimitExceeded) <==>
      exists payload, text :: Prints(lane, c, payload, text) && !Admits(budget, "input_byte_limit", |Encode(text)|)
  {
    LimitsAgree(budget);
    var payload := lane.payload(c);
    if payload.Some? && lane.printPayload(payload.value).Some? {
      assert Prints(lane, c, payload.value, lane.printPayload(payload.value).value);
    }
  }

  ghost predicate Prints<C, P, R>(lane: Lane<C, P, R>, c: C, payload: P, text: string) {
    lane.payload(c) == Some(payload) && lane.printPayload(payload) == Some(text)
  }

  predicate Raises<C, P, R>(lane: Lane<C, P, R>, c: C) {
    match lane.payload(c)
    case None => true
    case Some(payload) =>
      lane.printPayload(payload).None? ||
      match lane.calculate(payload)
      case None => true
      case Some(value) => lane.printResult(value).None?
  }

  /** The run stops at the first case that finds the clock run out, and only there. */
  lemma TimeoutExactly<C, P(!new), R(!new)>(
    lane: Lane<C, P, R>, budget: Budget, elapsed: nat -> real, cases: seq<C>, results: seq<CaseResult>)
    requires Faithful(lane, LimitsOf(budget), elapsed, cases, results)
    ensures forall i :: 0 <= i < |results| ==>
      (results[i].status == TimedOut <==> OutOfTime(budget, elapsed(i))) && results[i].caseId == lane.caseId(cases[i])
    ensures forall i :: 0 <= i < |results| && results[i].status == TimedOut ==>
      results[i] == CaseResult(lane.caseId(cases[i]), TimedOut, Some(FailureClass.WallTimeExceeded), 0, 0, None)
    ensures |results| < |cases| ==> results != [] && OutOfTime(budget, elapsed(|results| - 1))
  {
    forall i | 0 <= i < |results|
      ensures results[i].status == TimedOut <==> OutOfTime(budget, elapsed(i))
      ensures results[i].caseId == lane.caseId(cases[i])
      ensures results[i].status == TimedOut ==>
        results[i] == CaseResult(lane.caseId(cases[i]), TimedOut, Some(FailureClass.WallTimeExceeded), 0, 0, None)
    {
      OutOfTimeExactly(budget, elapsed(i));
      var last := |results| - 1;
      if i < last || !ClockRanOut(elapsed(last), LimitsOf(budget).wall) {
        var judged := if ClockRanOut(elapsed(last), LimitsOf(budget).wall) then results[..last] else results;
        assert JudgedAt(lane, LimitsOf(budget), elapsed, cases, judged, i);
        CompletedExactly(lane, budget, CompletedBytes(judged[..i]).total, cases[i]);
      }
    }
    if results != [] {
      OutOfTimeExactly(budget, elapsed(|results| - 1));
    }
  }
}
