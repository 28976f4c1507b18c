/** The simulated rows and claims, stated from the parameters alone. */
module TriangleFacts {
  import opened Common
  import opened DecimalText
  import opened ClaimSplit
  import opened ClaimTriangle

  // The nearest integer; of two equally near, the one further from zero.
  predicate NearestAway(n: int, x: real) {
    && -0.5 <= x - n as real <= 0.5
    && (x - n as real == 0.5 ==> x < 0.0) && (x - n as real == -0.5 ==> x > 0.0)
  }

  lemma RoundedAway(x: real)
    ensures NearestAway(RoundHalfUp(x), x)
  {
  }

  // The ultimates of the origins: the base first, then steps that grow by twice the curvature.
  ghost predicate Ultimates(p: Parameters, u: seq<real>) {
    && u != [] && u[0] == p.baseUltimate
    && forall i :: 0 <= i < |u| - 1 ==> UltimateStep(p, u[i], u[i + 1], i)
  }

  predicate UltimateStep(p: Parameters, before: real, after: real, i: nat) {
    after - before == p.originIncrement + p.curvature * (2 * i + 1) as real
  }

  lemma SquareStep(c: real, i: nat)
    ensures c * ((i + 1) * (i + 1)) as real == c * (i * i) as real + c * (2 * i + 1) as real
  {
    assert (i + 1) * (i + 1) == i * i + (2 * i + 1);
    assert ((i + 1) * (i + 1)) as real == (i * i) as real + (2 * i + 1) as real;
  }

  lemma LinearStep(c: real, i: nat)
    ensures c * (i + 1) as real == c * i as real + c
  {
    assert (i + 1) as real == i as real + 1.0;
  }

  lemma {:induction false} UltimateIs(p: Parameters, u: seq<real>, i: nat)
    requires Ultimates(p, u) && i < |u|
    ensures u[i] == Ultimate(p, i)
  {
    if i == 0 {
      assert p.originIncrement * 0 as real == 0.0 && p.curvature * (0 * 0) as real == 0.0;
    } else {
      UltimateIs(p, u, i - 1);
      assert UltimateStep(p, u[i - 1], u[i], i - 1);
      SquareStep(p.curvature, i - 1);
      LinearStep(p.originIncrement, i - 1);
    }
  }

  // There is one such sequence, of any length.
  lemma UltimatesExist(p: Parameters, n: nat) returns (u: seq<real>)
    requires n >= 1
    ensures Ultimates(p, u) && |u| == n
  {
    u := seq(n, i requires 0 <= i < n => Ultimate(p, i));
    assert p.originIncrement * 0 as real == 0.0 && p.curvature * (0 * 0) as real == 0.0;
    forall i | 0 <= i < |u| - 1
      ensures UltimateStep(p, u[i], u[i + 1], i)
    {
      SquareStep(p.curvature, i);
      LinearStep(p.originIncrement, i);
    }
  }

  // -------------------------------------------------------------------------- rows

  // Cell (i, j) is shown.
  predicate Shown(p: Parameters, i: nat, j: nat) {
    i < p.originCount && i + j < p.developmentCount
  }

  // The pattern given, or the program's own.
  predicate Given(p: Parameters, cdf: seq<real>) {
    cdf == if p.cdfPattern == [] then [0.55, 0.78, 0.9, 0.97, 1.0] else p.cdfPattern
  }

  // The row of cell (i, j): its years, and its share of the ultimate in micro-units.
  predicate RowOf(p: Parameters, u: seq<real>, cdf: seq<real>, row: Row, i: nat, j: nat) {
    && i < |u| && j < |cdf|
    && row.origin == p.originYearStart + i && row.development == p.originYearStart + i + j
    && NearestAway(row.paid, u[i] * cdf[j] * 1_000_000.0)
  }

  lemma RowAtIs(p: Parameters, u: seq<real>, cdf: seq<real>, i: nat, j: nat)
    requires Given(p, cdf) && Ultimates(p, u) && i < |u| && j < |Pattern(p)|
    ensures RowOf(p, u, cdf, RowAt(p, i, j), i, j)
  {
    UltimateIs(p, u, i);
    RoundedAway(u[i] * Pattern(p)[j] * 1_000_000.0);
  }

  lemma {:induction false} CellHasRow(p: Parameters, m: nat, i: nat, j: nat) returns (x: nat)
    requires m <= p.developmentCount == |Pattern(p)| && i < m && j < Observed(p, i)
    ensures x < |RowsBefore(p, m)| && RowsBefore(p, m)[x] == RowAt(p, i, j)
    decreases m
  {
    if i == m - 1 {
      x := |RowsBefore(p, m - 1)| + j;
    } else {
      x := CellHasRow(p, m - 1, i, j);
    }
  }

  // Earlier origins first, and earlier developments within an origin.
  predicate RowMajor(rows: seq<Row>) {
    forall x, y :: 0 <= x < y < |rows| ==>
      rows[x].origin < rows[y].origin || (rows[x].origin == rows[y].origin && rows[x].development < rows[y].development)
  }

  lemma {:induction false} RowsInOrder(p: Parameters, m: nat)
    requires m <= p.developmentCount == |Pattern(p)|
    ensures RowMajor(RowsBefore(p, m))
    ensures forall x :: 0 <= x < |RowsBefore(p, m)| ==> RowsBefore(p, m)[x].origin < p.originYearStart + m
  {
    if m == 0 {
    } else {
      RowsInOrder(p, m - 1);
    }
  }

  ghost predicate OfSomeCell(p: Parameters, u: seq<real>, cdf: seq<real>, row: Row) {
    exists i: nat, j: nat :: Shown(p, i, j) && RowOf(p, u, cdf, row, i, j)
  }

  ghost predicate HasRow(p: Parameters, u: seq<real>, cdf: seq<real>, rows: seq<Row>, i: nat, j: nat) {
    exists x :: 0 <= x < |rows| && RowOf(p, u, cdf, rows[x], i, j)
  }

  lemma ShownHasRow(p: Parameters, u: seq<real>, cdf: seq<real>, i: nat, j: nat)
    requires Runnable(p) && Given(p, cdf) && Ultimates(p, u) && |u| == Origins(p) && Shown(p, i, j)
    ensures HasRow(p, u, cdf, RowsBefore(p, Origins(p)), i, j)
  {
    var x := CellHasRow(p, Origins(p), i, j);
    RowAtIs(p, u, cdf, i, j);
    assert RowOf(p, u, cdf, RowsBefore(p, Origins(p))[x], i, j);
  }

  /**
   * The triangle: one row for each cell shown and no other, origin by origin; each row pays
   * its pattern's part of its origin's ultimate, to the nearest micro-unit.
   */
  lemma RowsExactly(p: Parameters, u: seq<real>, cdf: seq<real>)
    requires Runnable(p) && Given(p, cdf) && Ultimates(p, u) && |u| == Origins(p)
    ensures var rows := RowsBefore(p, Origins(p));
      && RowMajor(rows)
      && (forall x :: 0 <= x < |rows| ==> OfSomeCell(p, u, cdf, rows[x]))
      && (forall i: nat, j: nat :: Shown(p, i, j) ==> HasRow(p, u, cdf, rows, i, j))
  {
    var rows := RowsBefore(p, Origins(p));
    RowsInOrder(p, Origins(p));
    forall x | 0 <= x < |rows|
      ensures OfSomeCell(p, u, cdf, rows[x])
    {
      var i, j := RowOrigin(p, Origins(p), x);
      RowAtIs(p, u, cdf, i, j);
      assert Shown(p, i, j);
    }
    forall i: nat, j: nat | Shown(p, i, j)
      ensures HasRow(p, u, cdf, rows, i, j)
    {
      ShownHasRow(p, u, cdf, i, j);
    }
  }

  // ------------------------------------------------------------------------ claims

  // What cell (i, j) adds to its origin: its row's amount less the one before.
  function Added(p: Parameters, i: nat, j: nat): int
    requires j < |Pattern(p)|
  {
    if j == 0 then RowAt(p, i, 0).paid else RowAt(p, i, j).paid - RowAt(p, i, j - 1).paid
  }

  // Claim `k` of the `n` claims of cell (i, j).
  predicate ClaimIs(p: Parameters, c: Claim, i: nat, j: nat, k: nat) {
    && c.origin == p.originYearStart + i && c.development == p.originYearStart + i + j
    && c.claimId == p.simulationId + "-OY" + (IntText(p.originYearStart + i) + ("-DY" + (IntText(p.originYearStart + i + j)
         + ("-C" + (if k < 10 then "0" + Digits(k) else Digits(k))))))
  }

  // The k-th of n claims is the nearest to k shares of the 1 + ... + n of the amount.
  predicate SharePaid(paid: int, amount: int, k: nat, n: nat)
    requires n >= 1
  {
    NearestAway(paid, amount as real * k as real / (n * (n + 1) / 2) as real)
  }

  // The claims of a cell, given the amount to be split.
  ghost predicate CellIs(p: Parameters, cell: seq<Claim>, i: nat, j: nat, amount: int) {
    && |cell| == (if p.claimCountBase >= 1 then p.claimCountBase else 1) + (if (i + j) % 2 == 0 then 0 else 1)
    && (forall k :: 0 <= k < |cell| ==> ClaimIs(p, cell[k], i, j, k + 1))
    && (forall k :: 0 <= k < |cell| - 1 ==> SharePaid(cell[k].paid, amount, k + 1, |cell|))
  }

  lemma CellClaimIs(p: Parameters, i: nat, j: nat, amount: int, k: nat, cell: seq<Claim>)
    requires cell == CellClaims(p, i, j, amount) && k < |cell|
    ensures ClaimIs(p, cell[k], i, j, k + 1) && cell[k].paid == CellAmounts(amount, |cell|)[k]
  {
    assert cell[k] == ClaimOf(p, i, j, k + 1, CellAmounts(amount, |cell|)[k]);
  }

  lemma ShareIsPaid(amount: int, n: nat, k: nat)
    requires k < n - 1
    ensures SharePaid(CellAmounts(amount, n)[k], amount, k + 1, n)
  {
    RemainingStep(amount, n, k + 1);
    RoundedAway(Share(amount, n, k + 1));
  }

  lemma CellIsSplit(p: Parameters, i: nat, j: nat, amount: int)
    ensures CellIs(p, CellClaims(p, i, j, amount), i, j, amount)
  {
    var cell := CellClaims(p, i, j, amount);
    forall k | 0 <= k < |cell|
      ensures ClaimIs(p, cell[k], i, j, k + 1)
      ensures k < |cell| - 1 ==> SharePaid(cell[k].paid, amount, k + 1, |cell|)
    {
      CellClaimIs(p, i, j, amount, k, cell);
      if k < |cell| - 1 {
        ShareIsPaid(amount, |cell|, k);
      }
    }
  }

  // The cell stands in the stream at that place.
  predicate Inside(stream: seq<Claim>, cell: seq<Claim>, at: nat) {
    at + |cell| <= |stream| && stream[at..at + |cell|] == cell
  }

  lemma InsideJoined(a: seq<Claim>, b: seq<Claim>, cell: seq<Claim>, at: nat)
    ensures Inside(a, cell, at) ==> Inside(a + b, cell, at)
    ensures Inside(b, cell, at) ==> Inside(a + b, cell, |a| + at)
  {
    if Inside(a, cell, at) {
      assert (a + b)[at..at + |cell|] == a[at..at + |cell|];
    }
    if Inside(b, cell, at) {
      assert (a + b)[|a| + at..|a| + at + |cell|] == b[at..at + |cell|];
    }
  }

  lemma InsideItself(cell: seq<Claim>)
    ensures Inside(cell, cell, 0)
  {
    assert cell[0..|cell|] == cell;
  }

  lemma {:induction false} OriginHasCell(p: Parameters, i: nat, n: nat, j: nat, cell: seq<Claim>) returns (at: nat)
    requires j < n <= |Pattern(p)| && cell == CellClaims(p, i, j, Increment(p, i, j))
    ensures Inside(OriginClaims(p, i, n), cell, at)
    decreases n
  {
    var before := OriginClaims(p, i, n - 1);
    var last := CellClaims(p, i, n - 1, Increment(p, i, n - 1));
    if j == n - 1 {
      at := |before|;
      InsideItself(cell);
      InsideJoined(before, cell, cell, 0);
    } else {
      at := OriginHasCell(p, i, n - 1, j, cell);
      InsideJoined(before, last, cell, at);
    }
  }

  lemma {:induction false} StreamHasCell(p: Parameters, m: nat, i: nat, j: nat, cell: seq<Claim>) returns (at: nat)
    requires m <= p.developmentCount == |Pattern(p)| && i < m && j < Observed(p, i)
    requires cell == CellClaims(p, i, j, Increment(p, i, j))
    ensures Inside(ClaimsBefore(p, m), cell, at)
    decreases m
  {
    var (before, last) := (ClaimsBefore(p, m - 1), OriginClaims(p, m - 1, Observed(p, m - 1)));
    if i == m - 1 {
      at := OriginHasCell(p, i, Observed(p, i), j, cell);
      InsideJoined(before, last, cell, at);
      at := |before| + at;
    } else {
      at := StreamHasCell(p, m - 1, i, j, cell);
      InsideJoined(before, last, cell, at);
    }
  }

  // All that is so of the claims of cell (i, j).
  ghost predicate CellHolds(p: Parameters, cell: seq<Claim>, i: nat, j: nat, amount: int) {
    && CellIs(p, cell, i, j, amount)
    && PaidThrough(cell, p.originYearStart + i, p.originYearStart + i + j) == amount
  }

  lemma CellClaimsHold(p: Parameters, i: nat, j: nat, amount: int)
    ensures CellHolds(p, CellClaims(p, i, j, amount), i, j, amount)
  {
    CellIsSplit(p, i, j, amount);
    CellPaid(p, i, j, amount, p.originYearStart + i, p.originYearStart + i + j);
  }

  lemma AddedIs(p: Parameters, i: nat, j: nat)
    requires j < |Pattern(p)|
    ensures Increment(p, i, j) == Added(p, i, j)
  {
  }

  /**
   * The claims of each cell shown stand together in the stream, numbered from one: as many as
   * the base count, one more in every other cell, all but the last at their rounded shares of
   * what the cell adds, and together exactly that.
   */
  lemma ClaimsExactly(p: Parameters, i: nat, j: nat) returns (cell: seq<Claim>, at: nat)
    requires Runnable(p) && Shown(p, i, j)
    ensures Inside(ClaimsBefore(p, Origins(p)), cell, at)
    ensures CellHolds(p, cell, i, j, Added(p, i, j))
  {
    cell := CellClaims(p, i, j, Increment(p, i, j));
    at := StreamHasCell(p, Origins(p), i, j, cell);
    AddedIs(p, i, j);
    CellClaimsHold(p, i, j, Increment(p, i, j));
  }
}
