/** Evidence numbers, the numeric guard and the drafting slot that applies it. */
module NarrativeDraft {
  import opened Common
  import opened DecimalText
  import opened NumericGuard

  const MAX_KEY_POINTS := 8
  const MAX_TEXT_CHARS := 600
  const MAX_EVIDENCE_DEPTH := 4
  const MAX_EVIDENCE_ITEMS := 50
  const MAX_TEXT_NUMBERS := 20
  const IMPLICIT_NUMBERS: set<real> := {0.0, 1.0, 100.0}

  // ------------------------------------------------------- values of tokens

  function PointAt(t: string): (i: nat)
    ensures i <= |t|
    ensures i == |t| <==> '.' !in t
  {
    if t == [] then 0 else if t[0] == '.' then 0 else 1 + PointAt(t[1..])
  }

  function Decimals(t: string): nat {
    if '.' in t then |t| - PointAt(t) - 1 else 0
  }

  // `float(token)`, exactly.
  function TokenValue(t: string): real {
    var magnitude := ValueOf(DigitsIn(t)) as real / Power10(Decimals(t)) as real;
    if t != [] && t[0] == '-' then -magnitude else magnitude
  }

  predicate Whole(x: real) {
    x == x.Floor as real
  }

  function Abs(x: real): real {
    if x < 0.0 then -x else x
  }

  // Python's `round(x, decimals)`: halves go to the even neighbour.
  function RoundHalfEven(x: real, decimals: nat): real {
    var scaled := x * Power10(decimals) as real;
    var low := scaled.Floor;
    var rest := scaled - low as real;
    var rounded := if rest < 0.5 then low else if rest > 0.5 then low + 1
                   else if low % 2 == 0 then low else low + 1;
    rounded as real / Power10(decimals) as real
  }

  predicate IsYear(value: real) {
    1900.0 <= value <= 2100.0 && Whole(value)
  }

  predicate Near(value: real, item: real) {
    Abs(value - item) <= 0.000001 * (if Abs(item) > 1.0 then Abs(item) else 1.0)
  }

  // `item` is evidence for a number written as `token` with value `value`.
  predicate Supports(token: string, value: real, item: real) {
    if '.' !in token then Whole(item) && Abs(item - value) <= 0.000000001
    else Near(value, item) || Abs(RoundHalfEven(item, Decimals(token)) - value) <= 0.000000001
  }

  predicate MatchesEvidence(token: string, value: real, allowed: set<real>) {
    exists item :: item in allowed && Supports(token, value, item)
  }

  predicate TokenSupported(token: string, allowed: set<real>) {
    var value := TokenValue(token);
    || IsYear(value)
    || MatchesEvidence(token, value, allowed)
    || MatchesEvidence(token, Abs(value), allowed)
  }

  predicate NumbersSupported(texts: seq<string>, allowed: set<real>) {
    forall i, j :: 0 <= i < |texts| && 0 <= j < |NumberTokens(texts[i])| ==>
      TokenSupported(NumberTokens(texts[i])[j], allowed)
  }

  // More evidence never turns an accepted draft into a rejected one.
  lemma AcceptanceMonotone(texts: seq<string>, fewer: set<real>, more: set<real>)
    requires fewer <= more && NumbersSupported(texts, fewer)
    ensures NumbersSupported(texts, more)
  {
    forall i, j | 0 <= i < |texts| && 0 <= j < |NumberTokens(texts[i])|
      ensures TokenSupported(NumberTokens(texts[i])[j], more)
    {
      var token := NumberTokens(texts[i])[j];
      var value := TokenValue(token);
      assert TokenSupported(token, fewer);
      if MatchesEvidence(token, value, fewer) {
        var item :| item in fewer && Supports(token, value, item);
        assert item in more;
      } else if MatchesEvidence(token, Abs(value), fewer) {
        var item :| item in fewer && Supports(token, Abs(value), item);
        assert item in more;
      }
    }
  }

  lemma WholeNear(x: real, y: real)
    requires Whole(x) && Whole(y) && Abs(x - y) <= 0.000000001
    ensures x == y
  {
    assert x - y == (x.Floor - y.Floor) as real;
  }

  lemma IntegerTokenWhole(token: string)
    requires '.' !in token
    ensures Whole(TokenValue(token)) && Whole(Abs(TokenValue(token)))
  {
    var n: int := ValueOf(DigitsIn(token));
    assert Power10(0) == 1;
    assert TokenValue(token) == n as real || TokenValue(token) == (-n) as real;
    assert Abs(TokenValue(token)) == n as real;
  }

  // A token without a decimal point passes on exactly its own value, up to sign,
  // or as a year: evidence rounded to an integer never vouches for it.
  lemma IntegerTokenExact(token: string, allowed: set<real>)
    requires '.' !in token
    ensures TokenSupported(token, allowed)
       <==> IsYear(TokenValue(token)) || TokenValue(token) in allowed || Abs(TokenValue(token)) in allowed
  {
    var value := TokenValue(token);
    IntegerTokenWhole(token);
    forall v | v == value || v == Abs(value) ensures MatchesEvidence(token, v, allowed) <==> v in allowed {
      if MatchesEvidence(token, v, allowed) {
        var item :| item in allowed && Supports(token, v, item);
        WholeNear(item, v);
      } else if v in allowed {
        assert Supports(token, v, v);
      }
    }
  }

  // ---------------------------------------------------- numbers in the evidence

  datatype Evidence =
    | NumberLeaf(value: real)
    | BoolLeaf(truth: bool)
    | TextLeaf(text: string)
    | DictNode(values: seq<Evidence>)
    | ListNode(items: seq<Evidence>)
    | OtherLeaf

  // `x` occurs in the evidence, within the depth and width the guard looks at.
  predicate Mentions(e: Evidence, depth: nat, x: real)
    decreases e
  {
    depth <= MAX_EVIDENCE_DEPTH &&
    match e
    case NumberLeaf(value) => value == x
    case TextLeaf(text) =>
      var tokens := FindNumbers(text, true);
      exists k :: 0 <= k < Least(MAX_TEXT_NUMBERS, |tokens|) && TokenValue(tokens[k]) == x
    case DictNode(values) =>
      exists k :: 0 <= k < Least(MAX_EVIDENCE_ITEMS, |values|) && Mentions(values[k], depth + 1, x)
    case ListNode(items) =>
      exists k :: 0 <= k < Least(MAX_EVIDENCE_ITEMS, |items|) && Mentions(items[k], depth + 1, x)
    case _ => false
  }

  method IterNumbers(e: Evidence, depth: nat) returns (r: seq<real>)
    ensures forall x :: x in r <==> Mentions(e, depth, x)
    decreases e, 0
  {
    if depth > MAX_EVIDENCE_DEPTH {
      return [];
    }
    match e {
      case NumberLeaf(value) =>
        r := [value];
      case TextLeaf(text) =>
        r := TextNumbers(text);
      case DictNode(values) =>
        r := CollectNumbers(e, values, depth);
      case ListNode(items) =>
        r := CollectNumbers(e, items, depth);
      case _ =>
        r := [];
    }
  }

  method TextNumbers(text: string) returns (r: seq<real>)
    ensures var tokens := FindNumbers(text, true);
      forall x :: x in r <==>
        exists k :: 0 <= k < Least(MAX_TEXT_NUMBERS, |tokens|) && TokenValue(tokens[k]) == x
  {
    var tokens := FindNumbers(text, true);
    var limit := Least(MAX_TEXT_NUMBERS, |tokens|);
    r := seq(limit, k requires 0 <= k < limit => TokenValue(tokens[k]));
    assert forall k :: 0 <= k < limit ==> r[k] == TokenValue(tokens[k]);
  }

  method CollectNumbers(ghost parent: Evidence, children: seq<Evidence>, depth: nat) returns (r: seq<real>)
    requires forall k :: 0 <= k < |children| ==> children[k] < parent
    ensures forall x :: x in r <==>
      exists k :: 0 <= k < Least(MAX_EVIDENCE_ITEMS, |children|) && Mentions(children[k], depth + 1, x)
    decreases parent, 0, 1
  {
    var limit := Least(MAX_EVIDENCE_ITEMS, |children|);
    r := [];
    var i := 0;
    while i < limit
      invariant 0 <= i <= limit
      invariant forall x :: x in r <==> exists k :: 0 <= k < i && Mentions(children[k], depth + 1, x)
    {
      var inner := IterNumbers(children[i], depth + 1);
      r := r + inner;
      i := i + 1;
    }
  }

  // What the guard allows: implicit numbers, evidence numbers, digits of the case id.
  ghost predicate Traceable(evidence: Evidence, caseId: string, x: real) {
    || x in IMPLICIT_NUMBERS
    || Mentions(evidence, 0, x)
    || exists k :: 0 <= k < |FindNumbers(caseId, false)| && TokenValue(FindNumbers(caseId, false)[k]) == x
  }

  method AddTokens(base: set<real>, tokens: seq<string>) returns (allowed: set<real>)
    ensures forall x :: x in allowed <==> x in base || exists k :: 0 <= k < |tokens| && TokenValue(tokens[k]) == x
  {
    allowed := base;
    var i := 0;
    while i < |tokens|
      invariant 0 <= i <= |tokens|
      invariant forall x :: x in allowed <==> x in base || exists k :: 0 <= k < i && TokenValue(tokens[k]) == x
    {
      allowed := allowed + {TokenValue(tokens[i])};
      i := i + 1;
    }
  }

  method EvidenceNumbers(evidence: Evidence, caseId: string) returns (allowed: set<real>)
    ensures forall x :: x in allowed <==> Traceable(evidence, caseId, x)
  {
    allowed := IMPLICIT_NUMBERS;
    var found := IterNumbers(evidence, 0);
    var i := 0;
    while i < |found|
      invariant 0 <= i <= |found|
      invariant forall x :: x in allowed <==> x in IMPLICIT_NUMBERS || x in found[..i]
    {
      allowed := allowed + {found[i]};
      i := i + 1;
    }
    assert found[..i] == found;
    allowed := AddTokens(allowed, FindNumbers(caseId, false));
  }

  // ------------------------------------------------------------- drafting slot

  datatype Reply = Reply(summary: string, keyPoints: seq<string>)

  datatype Settings = Settings(enabled: bool, apiKey: bool)

  datatype Source =
    | Model
    | Template(reason: Reason)

  datatype Reason = Disabled | MissingApiKey | ModelError | EmptyModelResponse | NumericGuardRejected

  datatype Draft = Draft(summary: string, keyPoints: seq<string>, source: Source)

  // `" ".join(text.split())` is a parameter of the model: any total function.
  type Collapse = string -> string

  function Clip(collapse: Collapse, text: string): (r: string)
    ensures |r| <= MAX_TEXT_CHARS
  {
    collapse(text)[..Least(MAX_TEXT_CHARS, |collapse(text)|)]
  }

  // The non-empty clipped points, at most eight of them.
  function DraftedPoints(collapse: Collapse, points: seq<string>): seq<string> {
    var kept := NonEmpty(collapse, points);
    kept[..Least(MAX_KEY_POINTS, |kept|)]
  }

  function NonEmpty(collapse: Collapse, points: seq<string>): seq<string> {
    if points == [] then []
    else
      var first := Clip(collapse, points[0]);
      (if first == [] then [] else [first]) + NonEmpty(collapse, points[1..])
  }

  // The first six hundred characters, or all there are.
  lemma ClipExactly(collapse: Collapse, text: string)
    ensures var (r, whole) := (Clip(collapse, text), collapse(text));
      r <= whole && (r == whole || |r| == 600) && |r| <= 600
  {
  }

  // `shown` are the non-empty clipped points at the positions `at`.
  ghost predicate Picks(collapse: Collapse, points: seq<string>, shown: seq<string>, at: seq<nat>) {
    && |at| == |shown| && (forall k, m :: 0 <= k < m < |at| ==> at[k] < at[m])
    && forall k :: 0 <= k < |at| ==>
         at[k] < |points| && shown[k] == Clip(collapse, points[at[k]]) && shown[k] != ""
  }

  // Every non-empty point from `from` on is picked.
  ghost predicate PicksAll(collapse: Collapse, points: seq<string>, at: seq<nat>, from: nat) {
    && (forall k :: 0 <= k < |at| ==> from <= at[k])
    && forall i :: from <= i < |points| && i !in at ==> Clip(collapse, points[i]) == ""
  }

  lemma PickFirst(collapse: Collapse, points: seq<string>, shown: seq<string>, at: seq<nat>, from: nat)
    requires from < |points| && Picks(collapse, points, shown, at) && forall k :: 0 <= k < |at| ==> from < at[k]
    requires Clip(collapse, points[from]) != ""
    ensures Picks(collapse, points, [Clip(collapse, points[from])] + shown, [from] + at)
  {
    var (next, all) := ([from] + at, [Clip(collapse, points[from])] + shown);
    assert forall k :: 0 < k < |next| ==> next[k] == at[k - 1] && all[k] == shown[k - 1];
  }

  lemma PickFirstAll(collapse: Collapse, points: seq<string>, at: seq<nat>, from: nat)
    requires PicksAll(collapse, points, at, from + 1)
    ensures PicksAll(collapse, points, [from] + at, from)
  {
    assert ([from] + at)[0] == from;
    assert forall i :: i in at ==> i in [from] + at;
  }

  lemma {:induction false} NonEmptyPicks(collapse: Collapse, points: seq<string>, from: nat) returns (at: seq<nat>)
    requires from <= |points|
    ensures Picks(collapse, points, NonEmpty(collapse, points[from..]), at) && PicksAll(collapse, points, at, from)
    decreases |points| - from
  {
    if from == |points| {
      at := [];
    } else {
      at := NonEmptyPicks(collapse, points, from + 1);
      assert points[from..][1..] == points[from + 1..];
      if Clip(collapse, points[from]) == "" {
        assert [] + NonEmpty(collapse, points[from + 1..]) == NonEmpty(collapse, points[from + 1..]);
      } else {
        PickFirst(collapse, points, NonEmpty(collapse, points[from + 1..]), at, from);
        PickFirstAll(collapse, points, at, from);
        at := [from] + at;
      }
    }
  }

  lemma BeyondPrefix(all: seq<nat>, n: nat, i: nat) returns (k: nat)
    requires n <= |all| && i in all && i !in all[..n]
    ensures n <= k < |all| && all[k] == i
  {
    k :| 0 <= k < |all| && all[k] == i;
  }

  /** The points shown are the first eight that are not empty once clipped, in their order. */
  lemma PointsShown(collapse: Collapse, points: seq<string>) returns (at: seq<nat>)
    ensures Picks(collapse, points, DraftedPoints(collapse, points), at) && |at| <= 8
    ensures forall i :: 0 <= i < |points| && i !in at ==>
      Clip(collapse, points[i]) == "" || (|at| == 8 && at[7] < i)
  {
    var all := NonEmptyPicks(collapse, points, 0);
    assert points[0..] == points;
    var n := Least(MAX_KEY_POINTS, |all|);
    at := all[..n];
    forall i | 0 <= i < |points| && i !in at
      ensures Clip(collapse, points[i]) == "" || (|at| == 8 && at[7] < i)
    {
      if i in all {
        var k := BeyondPrefix(all, n, i);
      }
    }
  }

  // Every number token of `text` is a year or rests on a traceable number.
  ghost predicate Grounded(text: string, evidence: Evidence, caseId: string) {
    forall j :: 0 <= j < |NumberTokens(text)| ==> GroundedToken(NumberTokens(text)[j], evidence, caseId)
  }

  ghost predicate GroundedToken(token: string, evidence: Evidence, caseId: string) {
    || IsYear(TokenValue(token))
    || exists item :: Traceable(evidence, caseId, item)
         && (Supports(token, TokenValue(token), item) || Supports(token, Abs(TokenValue(token)), item))
  }

  lemma SupportedIsGrounded(texts: seq<string>, allowed: set<real>, evidence: Evidence, caseId: string)
    requires forall x :: x in allowed <==> Traceable(evidence, caseId, x)
    ensures NumbersSupported(texts, allowed)
       <==> forall i :: 0 <= i < |texts| ==> Grounded(texts[i], evidence, caseId)
  {
    forall token: string
      ensures TokenSupported(token, allowed) <==> GroundedToken(token, evidence, caseId)
    {
      var value := TokenValue(token);
      if GroundedToken(token, evidence, caseId) && !IsYear(value) {
        var item :| Traceable(evidence, caseId, item)
          && (Supports(token, value, item) || Supports(token, Abs(value), item));
        assert item in allowed;
      }
    }
    if NumbersSupported(texts, allowed) {
      forall i | 0 <= i < |texts| ensures Grounded(texts[i], evidence, caseId) {
        forall j | 0 <= j < |NumberTokens(texts[i])|
          ensures GroundedToken(NumberTokens(texts[i])[j], evidence, caseId)
        {
          assert TokenSupported(NumberTokens(texts[i])[j], allowed);
        }
      }
    } else {
      var i, j :| 0 <= i < |texts| && 0 <= j < |NumberTokens(texts[i])|
        && !TokenSupported(NumberTokens(texts[i])[j], allowed);
      assert !Grounded(texts[i], evidence, caseId);
    }
  }

  // Drafting never fails; model wording is used exactly when the slot is on, the
  // model answered and every number of the text shown is grounded in the run.
  method DraftText(
    settings: Settings, collapse: Collapse, reply: Option<Reply>,
    evidence: Evidence, caseId: string, summary: string, keyPoints: seq<string>)
    returns (d: Draft)
    ensures d.source.Template? ==> d.summary == summary && d.keyPoints == keyPoints
    ensures d.source == Model <==>
      && settings.enabled && settings.apiKey && reply.Some?
      && Clip(collapse, reply.value.summary) != []
      && Grounded(Clip(collapse, reply.value.summary), evidence, caseId)
      && forall i :: 0 <= i < |DraftedPoints(collapse, reply.value.keyPoints)| ==>
           Grounded(DraftedPoints(collapse, reply.value.keyPoints)[i], evidence, caseId)
    ensures d.source == Model ==>
      && d.summary == Clip(collapse, reply.value.summary)
      && d.keyPoints == (if DraftedPoints(collapse, reply.value.keyPoints) == [] then keyPoints
                         else DraftedPoints(collapse, reply.value.keyPoints))
    ensures d.source == Template(Disabled) <==> !settings.enabled
    ensures d.source == Template(MissingApiKey) <==> settings.enabled && !settings.apiKey
    ensures d.source == Template(EmptyModelResponse) <==>
      settings.enabled && settings.apiKey && reply.Some? && Clip(collapse, reply.value.summary) == []
    ensures d.source == Template(ModelError) <==> settings.enabled && settings.apiKey && reply.None?
  {
    if !settings.enabled {
      return Draft(summary, keyPoints, Template(Disabled));
    }
    if !settings.apiKey {
      return Draft(summary, keyPoints, Template(MissingApiKey));
    }
    if reply.None? {
      return Draft(summary, keyPoints, Template(ModelError));
    }
    var drafted := Clip(collapse, reply.value.summary);
    var points := DraftedPoints(collapse, reply.value.keyPoints);
    if drafted == [] {
      return Draft(summary, keyPoints, Template(EmptyModelResponse));
    }
    var allowed := EvidenceNumbers(evidence, caseId);
    var texts := [drafted] + points;
    SupportedIsGrounded(texts, allowed, evidence, caseId);
    assert texts[0] == drafted && forall i :: 0 <= i < |points| ==> texts[i + 1] == points[i];
    if !NumbersSupported(texts, allowed) {
      return Draft(summary, keyPoints, Template(NumericGuardRejected));
    }
    d := Draft(drafted, if points == [] then keyPoints else points, Model);
  }
}
