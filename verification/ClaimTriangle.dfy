/** The simulated claim stream and its cumulative triangle. */
module ClaimTriangle {
  import opened Common
  import opened DecimalText
  import opened ClaimSplit

  const DEFAULT_CDF_PATTERN: seq<real> := [0.55, 0.78, 0.9, 0.97, 1.0]

  datatype Parameters = Parameters(
    simulationId: string,
    originYearStart: int,
    originCount: int,
    developmentCount: int,
    baseUltimate: real,
    originIncrement: real,
    curvature: real,
    claimCountBase: int,
    cdfPattern: seq<real>)

  datatype Claim = Claim(claimId: string, origin: int, development: int, paid: int)

  datatype Row = Row(origin: int, development: int, paid: int)

  datatype Simulated = Simulated(claims: seq<Claim>, rows: seq<Row>)

  datatype SimulationError =
    | OriginCountNotPositive
    | DevelopmentCountNotPositive
    | PatternLengthMismatch
    | PatternDecreasing
    | PatternDoesNotEndAtOne

  // --------------------------------------------------------- what is simulated

  function Pattern(p: Parameters): seq<real> {
    if p.cdfPattern == [] then DEFAULT_CDF_PATTERN else p.cdfPattern
  }

  predicate NonDecreasing(cdf: seq<real>) {
    && (cdf != [] ==> cdf[0] >= 0.0)
    && forall i :: 0 < i < |cdf| ==> cdf[i - 1] <= cdf[i]
  }

  predicate Runnable(p: Parameters) {
    && p.originCount > 0 && p.developmentCount > 0
    && |Pattern(p)| == p.developmentCount
    && NonDecreasing(Pattern(p))
    && Pattern(p)[p.developmentCount - 1] == 1.0
  }

  function Ultimate(p: Parameters, i: nat): real {
    p.baseUltimate + p.originIncrement * i as real + p.curvature * (i * i) as real
  }

  // Cumulative paid, in micro-units, of origin `i` at development `j`.
  function Cumulative(p: Parameters, i: nat, j: nat): int
    requires j < |Pattern(p)|
  {
    Micro(Ultimate(p, i) * Pattern(p)[j])
  }

  // Cumulative paid after `j` cells of origin `i`.
  function Level(p: Parameters, i: nat, j: nat): int
    requires j <= |Pattern(p)|
  {
    if j == 0 then 0 else Cumulative(p, i, j - 1)
  }

  function Increment(p: Parameters, i: nat, j: nat): int
    requires j < |Pattern(p)|
  {
    Level(p, i, j + 1) - Level(p, i, j)
  }

  function ClaimCount(p: Parameters, i: nat, j: nat): (n: nat)
    ensures n >= 1
  {
    (if p.claimCountBase > 1 then p.claimCountBase else 1) + (i + j) % 2
  }

  function TwoDigits(n: nat): string {
    if n < 10 then ['0'] + Digits(n) else Digits(n)
  }

  function ClaimId(p: Parameters, origin: int, development: int, number: nat): string {
    p.simulationId + "-OY" + (IntText(origin) + ("-DY" + (IntText(development) + ("-C" + TwoDigits(number)))))
  }

  function CellClaims(p: Parameters, i: nat, j: nat, increment: int): (r: seq<Claim>)
    ensures |r| == ClaimCount(p, i, j)
  {
    var n := ClaimCount(p, i, j);
    seq(n, k requires 0 <= k < n => ClaimOf(p, i, j, k + 1, CellAmounts(increment, n)[k]))
  }

  function ClaimOf(p: Parameters, i: nat, j: nat, number: nat, paid: int): Claim {
    var origin, development := p.originYearStart + i, p.originYearStart + i + j;
    Claim(ClaimId(p, origin, development, number), origin, development, paid)
  }

  // Claims and rows of the first `j` cells of origin `i`.
  function OriginClaims(p: Parameters, i: nat, j: nat): seq<Claim>
    requires j <= |Pattern(p)|
  {
    if j == 0 then [] else OriginClaims(p, i, j - 1) + CellClaims(p, i, j - 1, Increment(p, i, j - 1))
  }

  function RowAt(p: Parameters, i: nat, j: nat): Row
    requires j < |Pattern(p)|
  {
    Row(p.originYearStart + i, p.originYearStart + i + j, Cumulative(p, i, j))
  }

  function OriginRows(p: Parameters, i: nat, j: nat): (r: seq<Row>)
    requires j <= |Pattern(p)|
    ensures |r| == j
    ensures forall k :: 0 <= k < j ==> r[k] == RowAt(p, i, k)
  {
    if j == 0 then [] else OriginRows(p, i, j - 1) + [RowAt(p, i, j - 1)]
  }

  function Observed(p: Parameters, i: nat): nat
    requires i <= p.developmentCount
  {
    p.developmentCount - i
  }

  // Claims and rows of the first `i` origins.
  function ClaimsBefore(p: Parameters, i: nat): seq<Claim>
    requires i <= p.developmentCount == |Pattern(p)|
  {
    if i == 0 then [] else ClaimsBefore(p, i - 1) + OriginClaims(p, i - 1, Observed(p, i - 1))
  }

  function RowsBefore(p: Parameters, i: nat): seq<Row>
    requires i <= p.developmentCount == |Pattern(p)|
  {
    if i == 0 then [] else RowsBefore(p, i - 1) + OriginRows(p, i - 1, Observed(p, i - 1))
  }

  function Origins(p: Parameters): (m: nat)
    requires p.originCount > 0 && p.developmentCount > 0
  {
    if p.originCount <= p.developmentCount then p.originCount else p.developmentCount
  }

  // ------------------------------------------------------------- the simulation

  method CheckPattern(cdf: seq<real>) returns (error: Option<SimulationError>)
    ensures error == None <==> NonDecreasing(cdf) && (cdf != [] ==> cdf[|cdf| - 1] == 1.0)
    ensures error == Some(PatternDecreasing) <==> !NonDecreasing(cdf)
    ensures error.Some? ==> error.value in {PatternDecreasing, PatternDoesNotEndAtOne}
  {
    var previous := 0.0;
    var index := 0;
    while index < |cdf|
      invariant 0 <= index <= |cdf|
      invariant NonDecreasing(cdf[..index])
      invariant previous == if index == 0 then 0.0 else cdf[index - 1]
      invariant index == |cdf| && cdf != [] ==> cdf[|cdf| - 1] == 1.0
    {
      if cdf[index] < previous {
        assert !NonDecreasing(cdf);
        return Some(PatternDecreasing);
      }
      previous := cdf[index];
      assert NonDecreasing(cdf[..index + 1]) by {
        assert forall i :: 0 < i < index ==> cdf[..index][i - 1] <= cdf[..index][i];
      }
      if index == |cdf| - 1 && cdf[index] != 1.0 {
        assert cdf[..index + 1] == cdf;
        return Some(PatternDoesNotEndAtOne);
      }
      index := index + 1;
    }
    assert cdf[..index] == cdf;
    error := None;
  }

  // What is left before claim `number` of `n`.
  function Remaining(increment: int, n: nat, number: nat): int
    requires 1 <= number <= n
  {
    increment - Sum(RoundEach(Shares(increment, n)[..number - 1]))
  }

  lemma RemainingStep(increment: int, n: nat, number: nat)
    requires 1 <= number <= n
    ensures number == n ==> CellAmounts(increment, n)[n - 1] == Remaining(increment, n, n)
    ensures number < n ==>
      var paid := RoundHalfUp(Share(increment, n, number));
      && CellAmounts(increment, n)[number - 1] == paid
      && Remaining(increment, n, number + 1) == Remaining(increment, n, number) - paid
  {
    if number < n {
      var shares := Shares(increment, n);
      assert shares[..number][..number - 1] == shares[..number - 1];
      SumStep(RoundEach(shares[..number - 1]), RoundHalfUp(Share(increment, n, number)));
      assert RoundEach(shares[..n - 1])[number - 1] == RoundHalfUp(shares[..n - 1][number - 1]);
    }
  }

  lemma ClaimAt(p: Parameters, i: nat, j: nat, increment: int, number: nat, paid: int, cell: seq<Claim>)
    requires cell == CellClaims(p, i, j, increment) && 1 <= number <= |cell|
    requires paid == CellAmounts(increment, |cell|)[number - 1]
    ensures cell[..number] == cell[..number - 1] + [ClaimOf(p, i, j, number, paid)]
  {
  }

  // The innermost loop: all claims but the last are rounded, the last takes the rest.
  method EmitCell(p: Parameters, i: nat, j: nat, increment: int) returns (claims: seq<Claim>)
    ensures claims == CellClaims(p, i, j, increment)
  {
    var n := ClaimCount(p, i, j);
    ghost var cell := CellClaims(p, i, j, increment);
    claims := [];
    var remaining := increment;
    var number := 1;
    while number <= n
      invariant 1 <= number <= n + 1
      invariant number <= n ==> remaining == Remaining(increment, n, number)
      invariant claims == cell[..number - 1]
    {
      RemainingStep(increment, n, number);
      var paid;
      if number == n {
        paid := remaining;
      } else {
        paid := RoundHalfUp(Share(increment, n, number));
        remaining := remaining - paid;
      }
      ClaimAt(p, i, j, increment, number, paid, cell);
      claims := claims + [ClaimOf(p, i, j, number, paid)];
      number := number + 1;
    }
  }

  lemma OriginStep(
    p: Parameters, i: nat, j: nat, claims0: seq<Claim>, rows0: seq<Row>, increment: int, cumulative: int)
    requires j < |Pattern(p)|
    requires cumulative == Level(p, i, j + 1) && increment == Increment(p, i, j)
    ensures claims0 + OriginClaims(p, i, j + 1) ==
            claims0 + OriginClaims(p, i, j) + CellClaims(p, i, j, increment)
    ensures rows0 + OriginRows(p, i, j + 1) ==
            rows0 + OriginRows(p, i, j) + [Row(p.originYearStart + i, p.originYearStart + i + j, cumulative)]
  {
  }

  // One origin year: a cell per observed development.
  method EmitOrigin(p: Parameters, i: nat, claims0: seq<Claim>, rows0: seq<Row>)
    returns (claims: seq<Claim>, rows: seq<Row>)
    requires i <= p.developmentCount == |Pattern(p)|
    ensures claims == claims0 + OriginClaims(p, i, Observed(p, i))
    ensures rows == rows0 + OriginRows(p, i, Observed(p, i))
  {
    claims, rows := claims0, rows0;
    var ultimate := Ultimate(p, i);
    var prior := 0;
    var j := 0;
    while j < Observed(p, i)
      invariant 0 <= j <= Observed(p, i)
      invariant prior == Level(p, i, j)
      invariant claims == claims0 + OriginClaims(p, i, j)
      invariant rows == rows0 + OriginRows(p, i, j)
    {
      var cumulative := Micro(ultimate * Pattern(p)[j]);
      var increment := cumulative - prior;
      prior := cumulative;
      var cell := EmitCell(p, i, j, increment);
      OriginStep(p, i, j, claims0, rows0, increment, cumulative);
      claims := claims + cell;
      rows := rows + [Row(p.originYearStart + i, p.originYearStart + i + j, cumulative)];
      j := j + 1;
    }
  }

  method SimulateClaimTriangle(p: Parameters) returns (r: Result<Simulated, SimulationError>)
    ensures r.Ok? <==> Runnable(p)
    ensures r.Ok? ==> r.value == Simulated(ClaimsBefore(p, Origins(p)), RowsBefore(p, Origins(p)))
    ensures r == Err(OriginCountNotPositive) <==> p.originCount <= 0
    ensures r == Err(DevelopmentCountNotPositive) <==> p.originCount > 0 && p.developmentCount <= 0
    ensures r == Err(PatternLengthMismatch) <==>
      p.originCount > 0 && p.developmentCount > 0 && |Pattern(p)| != p.developmentCount
    ensures r == Err(PatternDecreasing) <==>
      && p.originCount > 0 && p.developmentCount > 0 && |Pattern(p)| == p.developmentCount
      && !NonDecreasing(Pattern(p))
  {
    if p.originCount <= 0 {
      return Err(OriginCountNotPositive);
    }
    if p.developmentCount <= 0 {
      return Err(DevelopmentCountNotPositive);
    }
    if |Pattern(p)| != p.developmentCount {
      return Err(PatternLengthMismatch);
    }
    var bad := CheckPattern(Pattern(p));
    if bad.Some? {
      return Err(bad.value);
    }
    var claims: seq<Claim>, rows: seq<Row> := [], [];
    var i := 0;
    while i < p.originCount
      invariant 0 <= i <= Origins(p)
      invariant claims == ClaimsBefore(p, i) && rows == RowsBefore(p, i)
    {
      if p.developmentCount - i <= 0 {
        break;
      }
      claims, rows := EmitOrigin(p, i, claims, rows);
      i := i + 1;
    }
    r := Ok(Simulated(claims, rows));
  }

  // ------------------------------------------------------------- conservation

  // Claim money of one origin up to and including one development.
  function PaidThrough(claims: seq<Claim>, origin: int, development: int): int {
    if claims == [] then 0
    else
      PaidThrough(claims[1..], origin, development)
      + if claims[0].origin == origin && claims[0].development <= development then claims[0].paid else 0
  }

  lemma {:induction false} PaidThroughAppend(a: seq<Claim>, b: seq<Claim>, origin: int, development: int)
    ensures PaidThrough(a + b, origin, development) ==
            PaidThrough(a, origin, development) + PaidThrough(b, origin, development)
  {
    if a == [] {
      assert a + b == b;
    } else {
      assert (a + b)[1..] == a[1..] + b;
      PaidThroughAppend(a[1..], b, origin, development);
    }
  }

  lemma {:induction false} PaidNothing(claims: seq<Claim>, origin: int, development: int)
    requires forall k :: 0 <= k < |claims| ==>
      claims[k].origin != origin || claims[k].development > development
    ensures PaidThrough(claims, origin, development) == 0
  {
    if claims == [] {
    } else {
      PaidNothing(claims[1..], origin, development);
    }
  }

  lemma {:induction false} PaidAll(claims: seq<Claim>, amounts: seq<int>, origin: int, development: int)
    requires |claims| == |amounts|
    requires forall k :: 0 <= k < |claims| ==>
      claims[k].origin == origin && claims[k].development <= development && claims[k].paid == amounts[k]
    ensures PaidThrough(claims, origin, development) == Sum(amounts)
  {
    if claims == [] {
    } else {
      var last := |claims| - 1;
      PaidAll(claims[..last], amounts[..last], origin, development);
      assert claims == claims[..last] + [claims[last]];
      PaidThroughAppend(claims[..last], [claims[last]], origin, development);
    }
  }

  lemma CellPaid(p: Parameters, i: nat, j: nat, increment: int, origin: int, development: int)
    ensures PaidThrough(CellClaims(p, i, j, increment), origin, development) ==
      if origin == p.originYearStart + i && p.originYearStart + i + j <= development then increment else 0
  {
    var cell, n := CellClaims(p, i, j, increment), ClaimCount(p, i, j);
    if origin == p.originYearStart + i && p.originYearStart + i + j <= development {
      PaidAll(cell, CellAmounts(increment, n), origin, development);
      CellConserves(increment, n);
    } else {
      PaidNothing(cell, origin, development);
    }
  }

  lemma OneMoreCellPaid(p: Parameters, i: nat, j: nat, origin: int, development: int)
    requires j < |Pattern(p)|
    ensures PaidThrough(OriginClaims(p, i, j + 1), origin, development) ==
      PaidThrough(OriginClaims(p, i, j), origin, development)
      + if origin == p.originYearStart + i && p.originYearStart + i + j <= development
        then Increment(p, i, j) else 0
  {
    CellPaid(p, i, j, Increment(p, i, j), origin, development);
    PaidThroughAppend(OriginClaims(p, i, j), CellClaims(p, i, j, Increment(p, i, j)), origin, development);
  }

  lemma {:induction false} OriginPaid(p: Parameters, i: nat, upTo: nat, origin: int, development: int)
    requires upTo <= |Pattern(p)| && origin == p.originYearStart + i
    requires origin + upTo - 1 <= development
    ensures PaidThrough(OriginClaims(p, i, upTo), origin, development) == Level(p, i, upTo)
  {
    if upTo == 0 {
    } else {
      OriginPaid(p, i, upTo - 1, origin, development);
      OneMoreCellPaid(p, i, upTo - 1, origin, development);
    }
  }

  lemma OtherCellPaysNothing(p: Parameters, i: nat, j: nat, origin: int, development: int)
    requires j < |Pattern(p)|
    requires origin != p.originYearStart + i || p.originYearStart + i + j > development
    ensures PaidThrough(OriginClaims(p, i, j + 1), origin, development) ==
            PaidThrough(OriginClaims(p, i, j), origin, development)
  {
    OneMoreCellPaid(p, i, j, origin, development);
  }

  // Claims of one origin through `j` cells, as they count towards a development.
  function OriginTotal(p: Parameters, i: nat, j: nat, origin: int, development: int): int
    requires j <= |Pattern(p)|
  {
    PaidThrough(OriginClaims(p, i, j), origin, development)
  }

  lemma LaterCellsPayNothing(p: Parameters, i: nat, from: nat, upTo: nat, origin: int, development: int)
    requires from <= upTo <= |Pattern(p)| && origin == p.originYearStart + i
    requires origin + from > development
    ensures OriginTotal(p, i, upTo, origin, development) == OriginTotal(p, i, from, origin, development)
  {
    var j := from;
    while j < upTo
      invariant from <= j <= upTo
      invariant OriginTotal(p, i, j, origin, development) == OriginTotal(p, i, from, origin, development)
    {
      OtherCellPaysNothing(p, i, j, origin, development);
      j := j + 1;
    }
  }

  lemma {:induction false} OtherOriginPaid(p: Parameters, i: nat, upTo: nat, origin: int, development: int)
    requires upTo <= |Pattern(p)| && origin != p.originYearStart + i
    ensures PaidThrough(OriginClaims(p, i, upTo), origin, development) == 0
  {
    if upTo == 0 {
    } else {
      OtherOriginPaid(p, i, upTo - 1, origin, development);
      OtherCellPaysNothing(p, i, upTo - 1, origin, development);
    }
  }

  lemma {:induction false} PaidBefore(p: Parameters, m: nat, i: nat, j: nat)
    requires m <= p.developmentCount == |Pattern(p)| && i < p.developmentCount && j < Observed(p, i)
    ensures PaidThrough(ClaimsBefore(p, m), p.originYearStart + i, p.originYearStart + i + j) ==
      if i < m then Cumulative(p, i, j) else 0
  {
    if m == 0 {
    } else {
      var origin, development := p.originYearStart + i, p.originYearStart + i + j;
      PaidBefore(p, m - 1, i, j);
      if i == m - 1 {
        OriginPaid(p, i, j + 1, origin, development);
        LaterCellsPayNothing(p, i, j + 1, Observed(p, i), origin, development);
      } else {
        OtherOriginPaid(p, m - 1, Observed(p, m - 1), origin, development);
      }
      PaidThroughAppend(ClaimsBefore(p, m - 1), OriginClaims(p, m - 1, Observed(p, m - 1)), origin, development);
    }
  }

  // Where the rows come from.
  lemma {:induction false} RowOrigin(p: Parameters, m: nat, x: nat) returns (i: nat, j: nat)
    requires m <= p.developmentCount == |Pattern(p)| && x < |RowsBefore(p, m)|
    ensures i < m && j < Observed(p, i) && RowsBefore(p, m)[x] == RowAt(p, i, j)
    decreases m
  {
    if x < |RowsBefore(p, m - 1)| {
      i, j := RowOrigin(p, m - 1, x);
    } else {
      i, j := m - 1, x - |RowsBefore(p, m - 1)|;
    }
  }

  // For every row, the claims of its origin up to its development add up to exactly
  // the cumulative amount in the row.
  lemma ClaimsMatchTriangle(p: Parameters, x: nat)
    requires Runnable(p) && x < |RowsBefore(p, Origins(p))|
    ensures var row := RowsBefore(p, Origins(p))[x];
      PaidThrough(ClaimsBefore(p, Origins(p)), row.origin, row.development) == row.paid
  {
    var i, j := RowOrigin(p, Origins(p), x);
    PaidBefore(p, Origins(p), i, j);
  }

  // ---------------------------------------------------------- the staircase

  // With m origins shown, the triangle has m * d - m (m - 1) / 2 cells.
  lemma {:induction false} StaircaseSize(p: Parameters, m: nat)
    requires m <= p.developmentCount == |Pattern(p)|
    ensures |RowsBefore(p, m)| == m * p.developmentCount - m * (m - 1) / 2
  {
    if m == 0 {
    } else {
      StaircaseSize(p, m - 1);
      assert m * (m - 1) == (m - 1) * (m - 2) + 2 * (m - 1);
      assert m * p.developmentCount == (m - 1) * p.developmentCount + p.developmentCount;
    }
  }

  predicate DistinctCells(rows: seq<Row>) {
    forall x, y :: 0 <= x < y < |rows| ==>
      rows[x].origin != rows[y].origin || rows[x].development != rows[y].development
  }

  lemma {:induction false} RowsDistinct(p: Parameters, m: nat)
    requires m <= p.developmentCount == |Pattern(p)|
    ensures DistinctCells(RowsBefore(p, m))
  {
    if m == 0 {
    } else {
      var rows, before := RowsBefore(p, m), RowsBefore(p, m - 1);
      RowsDistinct(p, m - 1);
      forall x, y | 0 <= x < y < |rows|
        ensures rows[x].origin != rows[y].origin || rows[x].development != rows[y].development
      {
        if x < |before| <= y {
          var i, j := RowOrigin(p, m - 1, x);
        }
      }
    }
  }

  lemma TwoDigitsInjective(a: nat, b: nat)
    requires a >= 1 && b >= 1 && TwoDigits(a) == TwoDigits(b)
    ensures a == b
  {
    DigitsRoundTrip(a);
    DigitsRoundTrip(b);
    NoLeadingZero(a);
    NoLeadingZero(b);
    if a < 10 {
      assert TwoDigits(a)[0] == '0' && TwoDigits(a)[1..] == Digits(a);
      assert b < 10;
      assert TwoDigits(b)[1..] == Digits(b);
    } else {
      assert TwoDigits(a)[0] != '0';
      assert b >= 10;
    }
  }

  // A claim id determines its origin, development and number.
  lemma ClaimIdInjective(p: Parameters, o1: int, d1: int, n1: nat, o2: int, d2: int, n2: nat)
    requires n1 >= 1 && n2 >= 1
    requires ClaimId(p, o1, d1, n1) == ClaimId(p, o2, d2, n2)
    ensures o1 == o2 && d1 == d2 && n1 == n2
  {
    var c1, c2 := "-C" + TwoDigits(n1), "-C" + TwoDigits(n2);
    var b1, b2 := "-DY" + (IntText(d1) + c1), "-DY" + (IntText(d2) + c2);
    var front := p.simulationId + "-OY";
    assert ClaimId(p, o1, d1, n1)[|front|..] == IntText(o1) + b1;
    assert ClaimId(p, o2, d2, n2)[|front|..] == IntText(o2) + b2;
    IntTextSplits(o1, o2, b1, b2);
    assert b1[3..] == IntText(d1) + c1 && b2[3..] == IntText(d2) + c2;
    IntTextSplits(d1, d2, c1, c2);
    assert c1[2..] == TwoDigits(n1) && c2[2..] == TwoDigits(n2);
    TwoDigitsInjective(n1, n2);
  }

  ghost predicate Labelled(p: Parameters, c: Claim) {
    exists n: nat :: n >= 1 && c.claimId == ClaimId(p, c.origin, c.development, n)
  }

  ghost predicate AllLabelled(p: Parameters, claims: seq<Claim>) {
    forall k :: 0 <= k < |claims| ==> Labelled(p, claims[k])
  }

  predicate DistinctIds(claims: seq<Claim>) {
    forall x, y :: 0 <= x < y < |claims| ==> claims[x].claimId != claims[y].claimId
  }

  predicate DisjointCells(a: seq<Claim>, b: seq<Claim>) {
    forall x, y :: 0 <= x < |a| && 0 <= y < |b| ==>
      a[x].origin != b[y].origin || a[x].development != b[y].development
  }

  lemma JoinDistinct(p: Parameters, a: seq<Claim>, b: seq<Claim>)
    requires AllLabelled(p, a) && AllLabelled(p, b) && DistinctIds(a) && DistinctIds(b) && DisjointCells(a, b)
    ensures AllLabelled(p, a + b) && DistinctIds(a + b)
  {
    forall x, y | 0 <= x < |a| && 0 <= y < |b| ensures a[x].claimId != b[y].claimId {
      assert Labelled(p, a[x]) && Labelled(p, b[y]);
      var n: nat :| n >= 1 && a[x].claimId == ClaimId(p, a[x].origin, a[x].development, n);
      var m: nat :| m >= 1 && b[y].claimId == ClaimId(p, b[y].origin, b[y].development, m);
      if a[x].claimId == b[y].claimId {
        ClaimIdInjective(p, a[x].origin, a[x].development, n, b[y].origin, b[y].development, m);
      }
    }
  }

  lemma ClaimLabelled(p: Parameters, i: nat, j: nat, number: nat, paid: int)
    requires number >= 1
    ensures Labelled(p, ClaimOf(p, i, j, number, paid))
  {
    var c := ClaimOf(p, i, j, number, paid);
    assert c.claimId == ClaimId(p, c.origin, c.development, number);
  }

  lemma NumbersDiffer(p: Parameters, origin: int, development: int, n1: nat, n2: nat)
    requires 1 <= n1 < n2
    ensures ClaimId(p, origin, development, n1) != ClaimId(p, origin, development, n2)
  {
    if ClaimId(p, origin, development, n1) == ClaimId(p, origin, development, n2) {
      ClaimIdInjective(p, origin, development, n1, origin, development, n2);
    }
  }

  lemma ClaimsDiffer(p: Parameters, i: nat, j: nat, n1: nat, n2: nat, paid1: int, paid2: int)
    requires 1 <= n1 < n2
    ensures ClaimOf(p, i, j, n1, paid1).claimId != ClaimOf(p, i, j, n2, paid2).claimId
  {
    NumbersDiffer(p, p.originYearStart + i, p.originYearStart + i + j, n1, n2);
  }

  ghost predicate Numbered(p: Parameters, i: nat, j: nat, cell: seq<Claim>) {
    forall k :: 0 <= k < |cell| ==> cell[k] == ClaimOf(p, i, j, k + 1, cell[k].paid)
  }

  lemma NumberedLabels(p: Parameters, i: nat, j: nat, cell: seq<Claim>)
    requires Numbered(p, i, j, cell)
    ensures AllLabelled(p, cell)
  {
    forall k | 0 <= k < |cell| ensures Labelled(p, cell[k]) {
      ClaimLabelled(p, i, j, k + 1, cell[k].paid);
    }
  }

  lemma NumberedDistinct(p: Parameters, i: nat, j: nat, cell: seq<Claim>)
    requires Numbered(p, i, j, cell)
    ensures DistinctIds(cell)
  {
    forall x, y | 0 <= x < y < |cell| ensures cell[x].claimId != cell[y].claimId {
      ClaimsDiffer(p, i, j, x + 1, y + 1, cell[x].paid, cell[y].paid);
    }
  }

  lemma CellIds(p: Parameters, i: nat, j: nat, increment: int, cell: seq<Claim>)
    requires cell == CellClaims(p, i, j, increment)
    ensures AllLabelled(p, cell) && DistinctIds(cell)
    ensures forall k :: 0 <= k < |cell| ==>
      cell[k].origin == p.originYearStart + i && cell[k].development == p.originYearStart + i + j
  {
    NumberedLabels(p, i, j, cell);
    NumberedDistinct(p, i, j, cell);
  }

  lemma {:induction false} OriginIds(p: Parameters, i: nat, j: nat)
    requires j <= |Pattern(p)|
    ensures AllLabelled(p, OriginClaims(p, i, j)) && DistinctIds(OriginClaims(p, i, j))
    ensures forall k :: 0 <= k < |OriginClaims(p, i, j)| ==>
      var c := OriginClaims(p, i, j)[k];
      c.origin == p.originYearStart + i && c.development < p.originYearStart + i + j
  {
    if j == 0 {
    } else {
      var before, cell := OriginClaims(p, i, j - 1), CellClaims(p, i, j - 1, Increment(p, i, j - 1));
      OriginIds(p, i, j - 1);
      CellIds(p, i, j - 1, Increment(p, i, j - 1), cell);
      JoinDistinct(p, before, cell);
      assert OriginClaims(p, i, j) == before + cell;
    }
  }

  // No two simulated claims share an id.
  lemma {:induction false} ClaimIdsDistinct(p: Parameters, m: nat)
    requires m <= p.developmentCount == |Pattern(p)|
    ensures AllLabelled(p, ClaimsBefore(p, m)) && DistinctIds(ClaimsBefore(p, m))
    ensures forall k :: 0 <= k < |ClaimsBefore(p, m)| ==> ClaimsBefore(p, m)[k].origin < p.originYearStart + m
  {
    if m == 0 {
    } else {
      ClaimIdsDistinct(p, m - 1);
      OriginIds(p, m - 1, Observed(p, m - 1));
      JoinDistinct(p, ClaimsBefore(p, m - 1), OriginClaims(p, m - 1, Observed(p, m - 1)));
    }
  }

  // --------------------------------------------------- cumulatives only rise

  lemma ScaledMonotone(u: real, a: real, b: real)
    requires u >= 0.0 && a <= b
    ensures Micro(u * a) <= Micro(u * b)
  {
    assert u * (b - a) >= 0.0;
    RoundHalfUpMonotone(u * a * MICRO, u * b * MICRO);
  }

  lemma {:induction false} PatternRises(cdf: seq<real>, j: nat, k: nat)
    requires NonDecreasing(cdf) && j <= k < |cdf|
    ensures 0.0 <= cdf[j] <= cdf[k]
    decreases k
  {
    if j < k {
      PatternRises(cdf, j, k - 1);
    } else if k > 0 {
      PatternRises(cdf, k - 1, k - 1);
    }
  }

  // With a non-negative ultimate the cumulatives start at zero or more, never
  // fall, and never pass the rounded ultimate.
  lemma CumulativesRise(p: Parameters, i: nat, j: nat, k: nat)
    requires Runnable(p) && j <= k < p.developmentCount && Ultimate(p, i) >= 0.0
    ensures 0 <= Cumulative(p, i, j) <= Cumulative(p, i, k) <= Micro(Ultimate(p, i))
  {
    var cdf := Pattern(p);
    PatternRises(cdf, j, k);
    PatternRises(cdf, k, |cdf| - 1);
    CumulativesBetween(p, i, j, k, Ultimate(p, i), cdf[j], cdf[k]);
  }

  lemma CumulativesBetween(p: Parameters, i: nat, j: nat, k: nat, u: real, a: real, b: real)
    requires j < |Pattern(p)| && k < |Pattern(p)|
    requires u == Ultimate(p, i) && a == Pattern(p)[j] && b == Pattern(p)[k]
    requires u >= 0.0 && 0.0 <= a <= b <= 1.0
    ensures 0 <= Cumulative(p, i, j) <= Cumulative(p, i, k) <= Micro(Ultimate(p, i))
  {
    ScaledBetween(u, a, b);
    CumulativeIs(p, i, j, u, a);
    CumulativeIs(p, i, k, u, b);
  }

  lemma CumulativeIs(p: Parameters, i: nat, j: nat, u: real, a: real)
    requires j < |Pattern(p)| && u == Ultimate(p, i) && a == Pattern(p)[j]
    ensures Cumulative(p, i, j) == Micro(u * a)
  {
  }

  lemma ScaledByZeroAndOne(u: real)
    ensures Micro(u * 0.0) == 0 && Micro(u * 1.0) == Micro(u)
  {
    assert u * 0.0 == 0.0 && u * 1.0 == u;
  }

  lemma ScaledBetween(u: real, a: real, b: real)
    requires u >= 0.0 && 0.0 <= a <= b <= 1.0
    ensures 0 <= Micro(u * a) <= Micro(u * b) <= Micro(u)
  {
    ScaledByZeroAndOne(u);
    ScaledMonotone(u, 0.0, a);
    ScaledMonotone(u, a, b);
    ScaledMonotone(u, b, 1.0);
  }

  lemma IncrementNonNegative(p: Parameters, i: nat, j: nat)
    requires Runnable(p) && j < p.developmentCount && Ultimate(p, i) >= 0.0
    ensures Increment(p, i, j) >= 0
  {
    CumulativesRise(p, i, if j == 0 then 0 else j - 1, j);
  }

  predicate NoNegativeClaim(claims: seq<Claim>) {
    forall k :: 0 <= k < |claims| ==> claims[k].paid >= 0
  }

  lemma {:induction false} OriginClaimsNonNegative(p: Parameters, i: nat, j: nat)
    requires Runnable(p) && j <= p.developmentCount && Ultimate(p, i) >= 0.0
    ensures NoNegativeClaim(OriginClaims(p, i, j))
  {
    if j == 0 {
    } else {
      OriginClaimsNonNegative(p, i, j - 1);
      IncrementNonNegative(p, i, j - 1);
      ClaimsFollowIncrement(Increment(p, i, j - 1), ClaimCount(p, i, j - 1),
        CellAmounts(Increment(p, i, j - 1), ClaimCount(p, i, j - 1)));
    }
  }

  // Non-negative ultimates never produce a negative claim.
  lemma {:induction false} ClaimStreamNonNegative(p: Parameters, m: nat)
    requires Runnable(p) && m <= p.developmentCount
    requires forall i :: 0 <= i < m ==> Ultimate(p, i) >= 0.0
    ensures NoNegativeClaim(ClaimsBefore(p, m))
  {
    if m == 0 {
    } else {
      ClaimStreamNonNegative(p, m - 1);
      OriginClaimsNonNegative(p, m - 1, Observed(p, m - 1));
    }
  }
}
