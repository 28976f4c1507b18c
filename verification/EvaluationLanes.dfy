/** The bounded benchmark: server quotas, the case loop and its aggregate status. */
module EvaluationLanes {
  import opened Common
  import opened CanonicalJson
  import opened Utf8

  // ------------------------------------------------------------------ budgets

  datatype BudgetValue = IntValue(i: int) | FloatValue(f: real) | BoolValue(b: bool) | OtherValue

  type Budget = map<string, BudgetValue>

  function Amount(v: BudgetValue): real {
    match v
    case IntValue(i) => i as real
    case FloatValue(f) => f
    case _ => 0.0
  }

  predicate Numeric(v: BudgetValue) {
    v.IntValue? || v.FloatValue?
  }

  function IntegerBudget(budget: Budget, field: string): Option<int> {
    if field in budget && budget[field].IntValue? then Some(budget[field].i) else None
  }

  function FloatBudget(budget: Budget, field: string): Option<real> {
    if field in budget && Numeric(budget[field]) then Some(Amount(budget[field])) else None
  }

  const QUOTA_FIELDS: seq<string> := [
    "input_byte_limit", "total_byte_limit", "output_byte_limit", "wall_time_seconds",
    "temp_storage_bytes", "retention_days", "concurrency"
  ]

  predicate Exceeds(requested: Budget, policy: Budget, field: string)
    requires field in policy
  {
    field in requested && Amount(requested[field]) > Amount(policy[field])
  }

  // Python's `min(requested.get(field, ceiling), ceiling)`.
  function Capped(requested: Budget, policy: Budget, field: string): BudgetValue
    requires field in policy
  {
    if field in requested && Amount(requested[field]) <= Amount(policy[field]) then requested[field]
    else policy[field]
  }

  predicate KnowsQuotas(policy: Budget) {
    forall k :: 0 <= k < |QUOTA_FIELDS| ==> QUOTA_FIELDS[k] in policy
  }

  predicate FirstBreach(requested: Budget, policy: Budget, field: string)
    requires KnowsQuotas(policy)
  {
    exists k ::
      && 0 <= k < |QUOTA_FIELDS| && QUOTA_FIELDS[k] == field
      && Exceeds(requested, policy, QUOTA_FIELDS[k])
      && forall j :: 0 <= j < k ==> !Exceeds(requested, policy, QUOTA_FIELDS[j])
  }

  // A refused request names its first quota breach; a granted budget never
  // exceeds the policy nor what was asked for.
  method ValidateBenchmarkBudget(requested: Budget, policy: Budget) returns (r: Result<Budget, string>)
    requires KnowsQuotas(policy)
    ensures r.Ok? <==> forall field :: field in QUOTA_FIELDS && field in requested ==>
      Amount(requested[field]) <= Amount(policy[field])
    ensures r.Err? ==> FirstBreach(requested, policy, r.error)
    ensures r.Ok? ==> r.value.Keys == policy.Keys
    ensures r.Ok? ==> forall field :: field in policy ==>
      && Amount(r.value[field]) <= Amount(policy[field])
      && (field in requested ==> Amount(r.value[field]) <= Amount(requested[field]))
      && r.value[field] == if field in requested && Amount(requested[field]) <= Amount(policy[field])
                           then requested[field] else policy[field]
  {
    var k := 0;
    while k < |QUOTA_FIELDS|
      invariant 0 <= k <= |QUOTA_FIELDS|
      invariant forall j :: 0 <= j < k ==> !Exceeds(requested, policy, QUOTA_FIELDS[j])
    {
      if Exceeds(requested, policy, QUOTA_FIELDS[k]) {
        return Err(QUOTA_FIELDS[k]);
      }
      k := k + 1;
    }
    r := Ok(map field | field in policy :: Capped(requested, policy, field));
  }

  // ------------------------------------------------------------- the case loop

  // What the loop calls: building a payload, calculating and printing, each of
  // which is deterministic and may raise (None).
  datatype Lane<!C, !P, !R> = Lane(
    caseId: C -> string,
    payload: C -> Option<P>,
    calculate: P -> Option<R>,
    printPayload: P -> Option<string>,
    printResult: R -> Option<string>)

  datatype Limits = Limits(
    wall: Option<real>, input: Option<int>, total: Option<int>, output: Option<int>, temp: Option<int>)

  datatype CaseStatus = Completed | Failed | TimedOut

  datatype FailureClass =
    | WallTimeExceeded
    | InputLimitExceeded
    | TotalLimitExceeded
    | TempStorageExceeded
    | OutputLimitExceeded
    | CaseEvaluationFailed

  datatype CaseResult = CaseResult(
    caseId: string, status: CaseStatus, failure: Option<FailureClass>,
    inputBytes: nat, outputBytes: nat, digest: Option<Digest>)

  datatype Totals = Totals(input: nat, output: nat, total: nat)

  datatype RunStatus = RunCompleted | RunPartial | RunFailed | RunTimeout

  function LimitsOf(budget: Budget): Limits {
    Limits(
      FloatBudget(budget, "wall_time_seconds"),
      IntegerBudget(budget, "input_byte_limit"),
      IntegerBudget(budget, "total_byte_limit"),
      IntegerBudget(budget, "output_byte_limit"),
      IntegerBudget(budget, "temp_storage_bytes"))
  }

  predicate Over(n: nat, limit: Option<int>) {
    limit.Some? && n > limit.value
  }

  predicate ClockRanOut(elapsed: real, wall: Option<real>) {
    wall.Some? && (wall.value <= 0.001 || elapsed > wall.value)
  }

  function FailedCase(id: string, failure: FailureClass, inputBytes: nat, outputBytes: nat): CaseResult {
    CaseResult(id, Failed, Some(failure), inputBytes, outputBytes, None)
  }

  // What one case comes to when the completed cases before it used `used` bytes.
  function Verdict<C, P, R>(lane: Lane<C, P, R>, limits: Limits, used: nat, c: C): CaseResult {
    var id := lane.caseId(c);
    var broken := FailedCase(id, CaseEvaluationFailed, 0, 0);
    match lane.payload(c)
    case None => broken
    case Some(payload) =>
      match lane.printPayload(payload)
      case None => broken
      case Some(text) =>
        var input := Utf8Length(text);
        if Over(input, limits.input) then FailedCase(id, InputLimitExceeded, input, 0)
        else if Over(used + input, limits.total) then FailedCase(id, TotalLimitExceeded, input, 0)
        else if Over(used + input, limits.temp) then FailedCase(id, TempStorageExceeded, input, 0)
        else
          match lane.calculate(payload)
          case None => broken
          case Some(value) =>
            match lane.printResult(value)
            case None => broken
            case Some(printed) =>
              var output := Utf8Length(printed);
              if Over(output, limits.output) then FailedCase(id, OutputLimitExceeded, input, output)
              else if Over(used + input + output, limits.total) then
                FailedCase(id, TotalLimitExceeded, input, output)
              else if Over(used + input + output, limits.temp) then
                FailedCase(id, TempStorageExceeded, input, output)
              else CaseResult(id, Completed, None, input, output, Some(Sha256(printed)))
  }

  // Bytes of the completed cases alone.
  function CompletedBytes(results: seq<CaseResult>): Totals {
    if results == [] then Totals(0, 0, 0)
    else
      var last, before := results[|results| - 1], CompletedBytes(results[..|results| - 1]);
      if last.status == Completed then
        Totals(before.input + last.inputBytes, before.output + last.outputBytes,
               before.total + last.inputBytes + last.outputBytes)
      else before
  }

  lemma CompletedBytesStep(results: seq<CaseResult>, r: CaseResult)
    ensures var before, after := CompletedBytes(results), CompletedBytes(results + [r]);
      if r.status == Completed then
        after == Totals(before.input + r.inputBytes, before.output + r.outputBytes,
                        before.total + r.inputBytes + r.outputBytes)
      else after == before
  {
    assert (results + [r])[..|results + [r]| - 1] == results;
  }

  // The body of the `try` block: None is an exception.  The totals move before
  // the digest is taken, yet an exception never leaves them moved.
  method TryCase<C, P, R>(lane: Lane<C, P, R>, limits: Limits, totals: Totals, c: C)
    returns (r: Option<CaseResult>, after: Totals)
    ensures r == None ==> Verdict(lane, limits, totals.total, c) == FailedCase(lane.caseId(c), CaseEvaluationFailed, 0, 0)
    ensures r.Some? ==> r.value == Verdict(lane, limits, totals.total, c)
    ensures if r.Some? && r.value.status == Completed then
        && after == Totals(totals.input + r.value.inputBytes, totals.output + r.value.outputBytes,
                           totals.total + r.value.inputBytes + r.value.outputBytes)
        && !Over(after.total, limits.total) && !Over(after.total, limits.temp)
      else after == totals
  {
    var id := lane.caseId(c);
    after := totals;
    var payload := lane.payload(c);
    if payload == None {
      return None, after;
    }
    var text := lane.printPayload(payload.value);
    if text == None {
      return None, after;
    }
    var input := Utf8Length(text.value);
    if Over(input, limits.input) {
      return Some(FailedCase(id, InputLimitExceeded, input, 0)), after;
    }
    if Over(totals.total + input, limits.total) {
      return Some(FailedCase(id, TotalLimitExceeded, input, 0)), after;
    }
    if Over(totals.total + input, limits.temp) {
      return Some(FailedCase(id, TempStorageExceeded, input, 0)), after;
    }
    var value := lane.calculate(payload.value);
    if value == None {
      return None, after;
    }
    var printed := lane.printResult(value.value);
    if printed == None {
      return None, after;
    }
    var output := Utf8Length(printed.value);
    if Over(output, limits.output) {
      return Some(FailedCase(id, OutputLimitExceeded, input, output)), after;
    }
    if Over(totals.total + input + output, limits.total) {
      return Some(FailedCase(id, TotalLimitExceeded, input, output)), after;
    }
    if Over(totals.total + input + output, limits.temp) {
      return Some(FailedCase(id, TempStorageExceeded, input, output)), after;
    }
    after := Totals(totals.input + input, totals.output + output, totals.total + input + output);
    var again := lane.printResult(value.value);
    if again == None {
      return None, after;
    }
    r := Some(CaseResult(id, Completed, None, input, output, Some(Sha256(again.value))));
  }

  function CountStatus(results: seq<CaseResult>, status: CaseStatus): nat {
    if results == [] then 0
    else CountStatus(results[..|results| - 1], status) + if results[|results| - 1].status == status then 1 else 0
  }

  predicate AnyTimeout(results: seq<CaseResult>) {
    exists i :: 0 <= i < |results| && results[i].status == TimedOut
  }

  function AggregateStatus(results: seq<CaseResult>, expected: nat): RunStatus {
    var completed, failed := CountStatus(results, Completed), CountStatus(results, Failed);
    if AnyTimeout(results) then RunTimeout
    else if completed == expected && failed == 0 then RunCompleted
    else if completed != 0 && failed != 0 then RunPartial
    else if failed != 0 then RunFailed
    else RunCompleted
  }

  // The last return of the aggregate is the one that answers.
  predicate FallsThrough(results: seq<CaseResult>, expected: nat) {
    var completed, failed := CountStatus(results, Completed), CountStatus(results, Failed);
    !AnyTimeout(results) && !(completed == expected && failed == 0) && failed == 0
  }

  // Result `i` is the verdict on case `i`, given the bytes of the completed cases before it.
  ghost predicate JudgedAt<C, P, R>(
    lane: Lane<C, P, R>, limits: Limits, elapsed: nat -> real, cases: seq<C>, results: seq<CaseResult>, i: nat)
    requires i < |results| <= |cases|
  {
    && !ClockRanOut(elapsed(i), limits.wall)
    && results[i] == Verdict(lane, limits, CompletedBytes(results[..i]).total, cases[i])
  }

  ghost predicate Judged<C, P, R>(
    lane: Lane<C, P, R>, limits: Limits, elapsed: nat -> real, cases: seq<C>, results: seq<CaseResult>)
    requires |results| <= |cases|
  {
    forall i :: 0 <= i < |results| ==> JudgedAt(lane, limits, elapsed, cases, results, i)
  }

  // The results of a run: a verdict per case in order, cut short by at most one
  // timeout, which comes exactly where the clock first ran out.
  ghost predicate Faithful<C, P, R>(
    lane: Lane<C, P, R>, limits: Limits, elapsed: nat -> real, cases: seq<C>, results: seq<CaseResult>)
  {
    && |results| <= |cases|
    && if results != [] && ClockRanOut(elapsed(|results| - 1), limits.wall) then
         var last := |results| - 1;
         && Judged(lane, limits, elapsed, cases, results[..last])
         && results[last] == TimedOutCase(lane.caseId(cases[last]))
       else
         |results| == |cases| && Judged(lane, limits, elapsed, cases, results)
  }

  function TimedOutCase(id: string): CaseResult {
    CaseResult(id, TimedOut, Some(FailureClass.WallTimeExceeded), 0, 0, None)
  }

  lemma JudgedStep<C, P, R>(
    lane: Lane<C, P, R>, limits: Limits, elapsed: nat -> real, cases: seq<C>, results: seq<CaseResult>, r: CaseResult)
    requires |results| < |cases| && Judged(lane, limits, elapsed, cases, results)
    requires !ClockRanOut(elapsed(|results|), limits.wall)
    requires r == Verdict(lane, limits, CompletedBytes(results).total, cases[|results|])
    ensures Judged(lane, limits, elapsed, cases, results + [r])
  {
    var after := results + [r];
    forall i | 0 <= i < |after| ensures JudgedAt(lane, limits, elapsed, cases, after, i) {
      if i < |results| {
        assert JudgedAt(lane, limits, elapsed, cases, results, i);
        assert after[..i] == results[..i];
      } else {
        assert after[..i] == results;
      }
    }
  }

  // Within a limit the server hands out; a negative limit admits no bytes at all.
  predicate Within(n: nat, limit: Option<int>) {
    n == 0 || !Over(n, limit)
  }

  lemma {:induction false} StatusCounts(results: seq<CaseResult>)
    requires !AnyTimeout(results)
    ensures CountStatus(results, Completed) + CountStatus(results, Failed) == |results|
    ensures CountStatus(results, Failed) == 0
       <==> forall i :: 0 <= i < |results| ==> results[i].status == Completed
    ensures CountStatus(results, Completed) == 0
       <==> forall i :: 0 <= i < |results| ==> results[i].status == Failed
  {
    if results == [] {
    } else {
      var before, last := results[..|results| - 1], results[|results| - 1];
      forall i | 0 <= i < |before| ensures before[i].status != TimedOut {
        assert results[i].status != TimedOut;
      }
      assert last.status != TimedOut;
      StatusCounts(before);
      assert results == before + [last];
    }
  }

  // On the loop's own results the aggregate is exact and never falls through.
  lemma AggregateExact<C, P, R>(
    lane: Lane<C, P, R>, limits: Limits, elapsed: nat -> real, cases: seq<C>, results: seq<CaseResult>)
    requires Faithful(lane, limits, elapsed, cases, results)
    ensures !FallsThrough(results, |cases|)
    ensures AggregateStatus(results, |cases|) == RunCompleted
       <==> |results| == |cases| && forall i :: 0 <= i < |results| ==> results[i].status == Completed
    ensures AggregateStatus(results, |cases|) == RunTimeout
       <==> exists i :: 0 <= i < |results| && ClockRanOut(elapsed(i), limits.wall)
    ensures AggregateStatus(results, |cases|) == RunFailed
       <==> results != [] && forall i :: 0 <= i < |results| ==> results[i].status == Failed
  {
    var last := |results| - 1;
    if results != [] && ClockRanOut(elapsed(last), limits.wall) {
      assert results[last].status == TimedOut;
    } else {
      forall i | 0 <= i < |results|
        ensures results[i].status != TimedOut && !ClockRanOut(elapsed(i), limits.wall)
      {
        assert JudgedAt(lane, limits, elapsed, cases, results, i);
      }
      StatusCounts(results);
    }
  }

  method RunBoundedCases<C, P, R>(
    lane: Lane<C, P, R>, budget: Budget, elapsed: nat -> real, cases: seq<C>)
    returns (results: seq<CaseResult>, totals: Totals, status: RunStatus)
    ensures Faithful(lane, LimitsOf(budget), elapsed, cases, results)
    ensures totals == CompletedBytes(results)
    ensures totals.total == totals.input + totals.output
    ensures Within(totals.total, LimitsOf(budget).total) && Within(totals.total, LimitsOf(budget).temp)
    ensures status == AggregateStatus(results, |cases|)
  {
    var limits := LimitsOf(budget);
    totals := Totals(0, 0, 0);
    results := [];
    var i := 0;
    while i < |cases|
      invariant 0 <= i <= |cases| && |results| == i
      invariant Judged(lane, limits, elapsed, cases, results)
      invariant totals == CompletedBytes(results)
      invariant totals.total == totals.input + totals.output
      invariant Within(totals.total, limits.total) && Within(totals.total, limits.temp)
    {
      var id := lane.caseId(cases[i]);
      if ClockRanOut(elapsed(i), limits.wall) {
        CompletedBytesStep(results, TimedOutCase(id));
        assert (results + [TimedOutCase(id)])[..i] == results;
        results := results + [TimedOutCase(id)];
        status := AggregateStatus(results, |cases|);
        return;
      }
      var attempt, after := TryCase(lane, limits, totals, cases[i]);
      totals := after;
      var result := if attempt.Some? then attempt.value else FailedCase(id, CaseEvaluationFailed, 0, 0);
      CompletedBytesStep(results, result);
      JudgedStep(lane, limits, elapsed, cases, results, result);
      results := results + [result];
      i := i + 1;
    }
    assert results != [] ==> JudgedAt(lane, limits, elapsed, cases, results, |results| - 1);
    status := AggregateStatus(results, |cases|);
  }

  // A server policy as the settings allow it: every quota a positive number,
  // byte quotas whole.
  ghost predicate ServerPolicy(policy: Budget) {
    && (forall k :: 0 <= k < |QUOTA_FIELDS| ==> QUOTA_FIELDS[k] in policy && Amount(policy[QUOTA_FIELDS[k]]) > 0.0)
    && "total_byte_limit" in policy && policy["total_byte_limit"].IntValue?
    && "temp_storage_bytes" in policy && policy["temp_storage_bytes"].IntValue?
  }

  // A request as its validators allow it.
  ghost predicate ValidRequest(requested: Budget) {
    forall field :: field in {"total_byte_limit", "temp_storage_bytes"} && field in requested ==>
      requested[field].IntValue? && requested[field].i > 0
  }

  // Whatever is asked for and whatever the cases do, a granted benchmark stays
  // within the server's own total and temporary-storage ceilings.
  method BoundedBenchmark<C, P, R>(
    requested: Budget, policy: Budget, lane: Lane<C, P, R>, elapsed: nat -> real, cases: seq<C>)
    returns (r: Result<(seq<CaseResult>, Totals, RunStatus), string>)
    requires ServerPolicy(policy) && ValidRequest(requested)
    ensures r.Ok? ==> r.value.1.total <= policy["total_byte_limit"].i
    ensures r.Ok? ==> r.value.1.total <= policy["temp_storage_bytes"].i
    ensures r.Ok? ==> r.value.1 == CompletedBytes(r.value.0)
    ensures r.Ok? && r.value.2 == RunCompleted ==> |r.value.0| == |cases|
  {
    assert QUOTA_FIELDS[1] == "total_byte_limit" && QUOTA_FIELDS[4] == "temp_storage_bytes";
    var granted := ValidateBenchmarkBudget(requested, policy);
    if granted.Err? {
      return Err(granted.error);
    }
    var results, totals, status := RunBoundedCases(lane, granted.value, elapsed, cases);
    AggregateExact(lane, LimitsOf(granted.value), elapsed, cases, results);
    r := Ok((results, totals, status));
  }
}
