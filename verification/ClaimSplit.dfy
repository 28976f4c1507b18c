/**
 * Fixed-point money of the claim simulation: half-up rounding and the
 * proportional split of one cell's increment over its claims.
 * Amounts are integers in micro-units; rates are exact rationals.
 */
module ClaimSplit {
  const MICRO := 1_000_000.0

  // ------------------------------------------------------------------ rounding

  // ROUND_HALF_UP of the decimal module: halves move away from zero.
  function RoundHalfUp(x: real): int {
    if x >= 0.0 then (x + 0.5).Floor else -((0.5 - x).Floor)
  }

  lemma RoundHalfUpNear(x: real)
    ensures x - 0.5 <= RoundHalfUp(x) as real <= x + 0.5
    ensures x >= 0.0 ==> RoundHalfUp(x) >= 0
  {
  }

  lemma RoundHalfUpMonotone(x: real, y: real)
    requires x <= y
    ensures RoundHalfUp(x) <= RoundHalfUp(y)
  {
  }

  // An amount in micro-units.
  function Micro(x: real): int {
    RoundHalfUp(x * MICRO)
  }

  // ------------------------------------------------------- one cell's claims

  function WeightTotal(n: nat): nat {
    n * (n + 1) / 2
  }

  lemma WeightTotalStep(n: nat)
    ensures WeightTotal(n + 1) == WeightTotal(n) + n + 1
  {
    assert (n + 1) * (n + 2) == n * (n + 1) + 2 * (n + 1);
  }

  lemma {:induction false} WeightTotalPositive(n: nat)
    requires n >= 1
    ensures WeightTotal(n) >= 1
  {
    WeightTotalStep(n - 1);
  }

  // Claim `k` of `n` (counting from 1) has the share k / (1 + ... + n) of the increment.
  function Share(increment: int, n: nat, k: nat): real
    requires n >= 1
  {
    WeightTotalPositive(n);
    increment as real * k as real / WeightTotal(n) as real
  }

  function Shares(increment: int, n: nat): (r: seq<real>)
    requires n >= 1
    ensures |r| == n
    ensures forall k :: 0 <= k < n ==> r[k] == Share(increment, n, k + 1)
  {
    seq(n, k requires 0 <= k < n => Share(increment, n, k + 1))
  }

  function RoundEach(shares: seq<real>): (r: seq<int>)
    ensures |r| == |shares|
    ensures forall k :: 0 <= k < |shares| ==> r[k] == RoundHalfUp(shares[k])
  {
    if shares == [] then []
    else RoundEach(shares[..|shares| - 1]) + [RoundHalfUp(shares[|shares| - 1])]
  }

  function Sum(amounts: seq<int>): int {
    if amounts == [] then 0 else Sum(amounts[..|amounts| - 1]) + amounts[|amounts| - 1]
  }

  function RealSum(shares: seq<real>): real {
    if shares == [] then 0.0 else RealSum(shares[..|shares| - 1]) + shares[|shares| - 1]
  }

  lemma SumStep(amounts: seq<int>, x: int)
    ensures Sum(amounts + [x]) == Sum(amounts) + x
  {
    assert (amounts + [x])[..|amounts + [x]| - 1] == amounts;
  }

  // Every claim but the last is rounded; the last takes what they leave.
  function CellAmounts(increment: int, n: nat): (r: seq<int>)
    requires n >= 1
    ensures |r| == n
  {
    var firsts := RoundEach(Shares(increment, n)[..n - 1]);
    firsts + [increment - Sum(firsts)]
  }

  // A cell's claims add up to its increment.
  lemma CellConserves(increment: int, n: nat)
    requires n >= 1
    ensures Sum(CellAmounts(increment, n)) == increment
  {
    var firsts := RoundEach(Shares(increment, n)[..n - 1]);
    SumStep(firsts, increment - Sum(firsts));
  }

  // Rounding m amounts moves their sum by at most m halves.
  lemma {:induction false} RoundingDrift(shares: seq<real>)
    ensures RealSum(shares) - |shares| as real / 2.0
         <= Sum(RoundEach(shares)) as real
         <= RealSum(shares) + |shares| as real / 2.0
  {
    if shares == [] {
    } else {
      var last := |shares| - 1;
      RoundingDrift(shares[..last]);
      RoundHalfUpNear(shares[last]);
      SumStep(RoundEach(shares[..last]), RoundHalfUp(shares[last]));
    }
  }

  lemma Distribute(i: real, a: real, b: real, w: real)
    requires w > 0.0
    ensures i * (a + b) / w == i * a / w + i * b / w
  {
    assert i * (a + b) == i * a + i * b;
  }

  // What the first `k` claims are due together.
  function Portion(increment: int, n: nat, k: nat): real
    requires n >= 1
  {
    WeightTotalPositive(n);
    increment as real * WeightTotal(k) as real / WeightTotal(n) as real
  }

  lemma PortionStep(increment: int, n: nat, k: nat)
    requires 1 <= k && n >= 1
    ensures Portion(increment, n, k) == Portion(increment, n, k - 1) + Share(increment, n, k)
  {
    WeightTotalPositive(n);
    WeightTotalStep(k - 1);
    Distribute(increment as real, WeightTotal(k - 1) as real, k as real, WeightTotal(n) as real);
  }

  lemma PortionEnds(increment: int, n: nat)
    requires n >= 1
    ensures Portion(increment, n, 0) == 0.0
    ensures Portion(increment, n, n) == increment as real
  {
    WeightTotalPositive(n);
    var i, w := increment as real, WeightTotal(n) as real;
    assert i * 0.0 / w == 0.0 && i * w / w == i;
  }

  lemma {:induction false} PartialShares(increment: int, n: nat, k: nat)
    requires k <= n && n >= 1
    ensures RealSum(Shares(increment, n)[..k]) == Portion(increment, n, k)
  {
    if k == 0 {
      PortionEnds(increment, n);
    } else {
      var shares := Shares(increment, n);
      PartialShares(increment, n, k - 1);
      assert shares[..k][..k - 1] == shares[..k - 1];
      assert shares[..k][k - 1] == Share(increment, n, k);
      PortionStep(increment, n, k);
    }
  }

  // The shares are a partition of the increment.
  lemma SharesSumToIncrement(increment: int, n: nat)
    requires n >= 1
    ensures RealSum(Shares(increment, n)) == increment as real
  {
    PartialShares(increment, n, n);
    PortionEnds(increment, n);
    assert Shares(increment, n)[..n] == Shares(increment, n);
  }

  // Each claim but the last is within half a micro-unit of its share, the last of
  // n within (n - 1) / 2.
  lemma RoundingResidual(increment: int, n: nat, k: nat)
    requires 1 <= k <= n
    ensures var slack := if k < n then 0.5 else (n - 1) as real / 2.0;
      Share(increment, n, k) - slack <= CellAmounts(increment, n)[k - 1] as real <= Share(increment, n, k) + slack
  {
    var shares := Shares(increment, n);
    assert shares[k - 1] == Share(increment, n, k);
    if k < n {
      RoundHalfUpNear(shares[..n - 1][k - 1]);
    } else {
      SharesSumToIncrement(increment, n);
      LastResidual(increment, shares);
    }
  }

  lemma LastResidual(increment: int, shares: seq<real>)
    requires shares != [] && RealSum(shares) == increment as real
    ensures var n := |shares|;
      var left := (increment - Sum(RoundEach(shares[..n - 1]))) as real;
      shares[n - 1] - (n - 1) as real / 2.0 <= left <= shares[n - 1] + (n - 1) as real / 2.0
  {
    RoundingDrift(shares[..|shares| - 1]);
  }

  // --------------------------------------------- claims never change sign

  // Rounded multiples of a rate, and their running sum.
  function Multiple(rate: real, k: nat): real {
    if k == 0 then 0.0 else Multiple(rate, k - 1) + rate
  }

  lemma {:induction false} MultipleIs(rate: real, k: nat)
    ensures Multiple(rate, k) == rate * k as real
  {
    if k == 0 {
    } else {
      MultipleIs(rate, k - 1);
      assert rate * k as real == rate * (k - 1) as real + rate;
    }
  }

  lemma {:induction false} MultipleNonNegative(rate: real, k: nat)
    requires rate >= 0.0
    ensures Multiple(rate, k) >= 0.0
  {
    if k == 0 {
    } else {
      MultipleNonNegative(rate, k - 1);
    }
  }

  function Ramp(rate: real, k: nat): int {
    RoundHalfUp(Multiple(rate, k))
  }

  function RampSum(rate: real, k: nat): int {
    if k == 0 then 0 else RampSum(rate, k - 1) + Ramp(rate, k)
  }

  // (m' + m) / 2 is at most the number that rounds up to m', for integers m < m'.
  lemma RampStep(y: real, z: real, m: int, next: int)
    requires y <= z && m == RoundHalfUp(y) && next == RoundHalfUp(z)
    ensures m <= next && (m < next ==> (next + m) as real <= 2.0 * z)
  {
    RoundHalfUpMonotone(y, z);
    RoundHalfUpNear(z);
  }

  lemma DifferenceOfSquares(m: real, next: real, z: real)
    requires m <= next && (m < next ==> next + m <= 2.0 * z)
    ensures next * next - m * m <= 2.0 * (z * next) - 2.0 * (z * m)
  {
    if m < next {
      ProductMonotone(next - m, next + m, 2.0 * z);
      assert (next - m) * (next + m) == next * next - m * m;
      assert (next - m) * (2.0 * z) == 2.0 * (z * next) - 2.0 * (z * m);
    }
  }

  lemma ProductMonotone(a: real, b: real, c: real)
    requires a >= 0.0 && b <= c
    ensures a * b <= a * c
  {
    assert a * (c - b) >= 0.0;
  }

  lemma SquareNonNegative(a: real)
    ensures a * a >= 0.0
  {
    var size := if a >= 0.0 then a else -a;
    ProductMonotone(size, 0.0, size);
    assert size * 0.0 == 0.0;
    assert size * size == a * a;
  }

  // The bound below, for the next multiple `z` of the rate.
  lemma RampBoundStep(rate: real, y: real, z: real, m: int, next: int, sum: int)
    requires rate >= 0.0 && z == y + rate && m == RoundHalfUp(y) && next == RoundHalfUp(z)
    requires WithinRamp(rate, z, m, sum)
    ensures WithinRamp(rate, z + rate, next, sum + next)
  {
    RampStep(y, z, m, next);
    DifferenceOfSquares(m as real, next as real, z);
    RampAlgebra(rate, z, m as real, next as real, sum as real);
  }

  predicate WithinRamp(rate: real, z: real, m: int, sum: int) {
    2.0 * (rate * sum as real) <= 2.0 * (z * m as real) - m as real * m as real
  }

  lemma {:induction false} RampBound(rate: real, j: nat)
    requires rate >= 0.0
    ensures WithinRamp(rate, Multiple(rate, j + 1), Ramp(rate, j), RampSum(rate, j))
  {
    if j == 0 {
      assert Ramp(rate, 0) == 0;
    } else {
      RampBound(rate, j - 1);
      RampBoundStep(rate, Multiple(rate, j - 1), Multiple(rate, j),
        Ramp(rate, j - 1), Ramp(rate, j), RampSum(rate, j - 1));
    }
  }

  lemma RampAlgebra(rate: real, z: real, m: real, next: real, sum: real)
    requires 2.0 * (rate * sum) <= 2.0 * (z * m) - m * m
    requires next * next - m * m <= 2.0 * (z * next) - 2.0 * (z * m)
    ensures 2.0 * (rate * (sum + next)) <= 2.0 * ((z + rate) * next) - next * next
  {
    assert rate * (sum + next) == rate * sum + rate * next;
    assert (z + rate) * next == z * next + rate * next;
  }

  lemma TotalAlgebra(rate: real, k: real, q: real, m: real, sum: real)
    requires rate > 0.0 && q == rate * k
    requires 2.0 * (rate * sum) <= 2.0 * (q * m) - m * m
    ensures 2.0 * sum <= q * k
  {
    SquareNonNegative(q - m);
    assert 2.0 * (q * m) - m * m == q * q - (q - m) * (q - m);
    assert q * q == q * k * rate;
    assert 2.0 * sum * rate == 2.0 * (rate * sum);
    ScaleDown(q * k, 2.0 * sum, rate);
  }

  // The multiples 1 .. n-1 of a rate, rounded, add up to at most n^2 / 2 of it.
  lemma RampTotal(rate: real, n: nat)
    requires rate >= 0.0 && n >= 1
    ensures 2.0 * RampSum(rate, n - 1) as real <= rate * n as real * n as real
  {
    MultipleIs(rate, n);
    if rate > 0.0 {
      RampBound(rate, n - 1);
      TotalAlgebra(rate, n as real, Multiple(rate, n), Ramp(rate, n - 1) as real, RampSum(rate, n - 1) as real);
    } else {
      RampZero(n - 1);
    }
  }

  lemma {:induction false} RampZero(k: nat)
    ensures RampSum(0.0, k) == 0
  {
    if k == 0 {
    } else {
      RampZero(k - 1);
      MultipleIs(0.0, k);
    }
  }

  lemma ScaleDown(x: real, y: real, m: real)
    requires m > 0.0 && x * m >= y * m
    ensures x >= y
  {
    if x < y {
      PositiveProduct(y - x, m);
    }
  }

  lemma PositiveProduct(a: real, m: real)
    requires m > 0.0 && a > 0.0
    ensures a * m > 0.0
  {
  }

  lemma {:induction false} WeightTwice(n: nat)
    ensures 2 * WeightTotal(n) == n * (n + 1)
  {
    if n == 0 {
    } else {
      WeightTwice(n - 1);
      WeightTotalStep(n - 1);
    }
  }

  function Rate(increment: int, n: nat): real
    requires n >= 1
  {
    WeightTotalPositive(n);
    increment as real / WeightTotal(n) as real
  }

  lemma ShareIsRamp(increment: int, n: nat, k: nat)
    requires n >= 1
    ensures Share(increment, n, k) == Multiple(Rate(increment, n), k)
  {
    ShareIsProduct(increment, n, k);
    MultipleIs(Rate(increment, n), k);
  }

  lemma ShareIsProduct(increment: int, n: nat, k: nat)
    requires n >= 1
    ensures Share(increment, n, k) == Rate(increment, n) * k as real
  {
    WeightTotalPositive(n);
    var i, w := increment as real, WeightTotal(n) as real;
    assert i / w * w == i;
    assert i * k as real == i / w * k as real * w;
  }

  lemma RampAt(increment: int, n: nat, k: nat)
    requires 1 <= k < n
    ensures RoundHalfUp(Share(increment, n, k)) == Ramp(Rate(increment, n), k)
  {
    ShareIsRamp(increment, n, k);
  }

  lemma FirstsStep(shares: seq<real>, k: nat)
    requires k < |shares|
    ensures Sum(RoundEach(shares[..k + 1])) == Sum(RoundEach(shares[..k])) + RoundHalfUp(shares[k])
  {
    assert shares[..k + 1][..k] == shares[..k];
    SumStep(RoundEach(shares[..k]), RoundHalfUp(shares[k]));
    assert RoundEach(shares[..k + 1]) == RoundEach(shares[..k]) + [RoundHalfUp(shares[k])];
  }

  lemma {:induction false} FirstsAreRamp(increment: int, n: nat, k: nat)
    requires k < n
    ensures Sum(RoundEach(Shares(increment, n)[..k])) == RampSum(Rate(increment, n), k)
  {
    if k == 0 {
    } else {
      FirstsAreRamp(increment, n, k - 1);
      FirstsStep(Shares(increment, n), k - 1);
      RampAt(increment, n, k);
    }
  }

  lemma IncrementCoversRamp(increment: int, n: nat)
    requires n >= 1 && increment >= 0
    ensures Rate(increment, n) >= 0.0
    ensures RampSum(Rate(increment, n), n - 1) <= increment
  {
    WeightTotalPositive(n);
    WeightTwice(n);
    var i, w, m, x := increment as real, WeightTotal(n) as real, n as real, Rate(increment, n);
    assert x * w == i;
    assert x >= 0.0;
    assert 2.0 * w == m * m + m;
    assert x * (2.0 * w) == x * m * m + x * m;
    assert x * m >= 0.0;
    RampTotal(x, n);
  }

  lemma ClaimsNonNegative(increment: int, n: nat, k: nat)
    requires 1 <= k <= n && increment >= 0
    ensures CellAmounts(increment, n)[k - 1] >= 0
  {
    IncrementCoversRamp(increment, n);
    if k < n {
      ShareIsRamp(increment, n, k);
      MultipleNonNegative(Rate(increment, n), k);
      RoundHalfUpNear(Shares(increment, n)[..n - 1][k - 1]);
    } else {
      FirstsAreRamp(increment, n, n - 1);
    }
  }

  lemma RoundHalfUpOdd(x: real)
    ensures RoundHalfUp(-x) == -RoundHalfUp(x)
  {
  }

  lemma ShareOdd(increment: int, n: nat, k: nat)
    requires n >= 1
    ensures Share(-increment, n, k) == -Share(increment, n, k)
  {
    WeightTotalPositive(n);
    var i, m, w := increment as real, k as real, WeightTotal(n) as real;
    assert -i * m == -(i * m);
    assert -(i * m) / w == -(i * m / w);
  }

  lemma {:induction false} SumOdd(a: seq<int>, b: seq<int>)
    requires |a| == |b| && forall k :: 0 <= k < |a| ==> a[k] == -b[k]
    ensures Sum(a) == -Sum(b)
  {
    if a == [] {
    } else {
      SumOdd(a[..|a| - 1], b[..|b| - 1]);
    }
  }

  lemma CellOdd(increment: int, n: nat, k: nat)
    requires 1 <= k <= n
    ensures CellAmounts(-increment, n)[k - 1] == -CellAmounts(increment, n)[k - 1]
  {
    var up, down := RoundEach(Shares(increment, n)[..n - 1]), RoundEach(Shares(-increment, n)[..n - 1]);
    forall j | 0 <= j < n - 1 ensures down[j] == -up[j] {
      ShareOdd(increment, n, j + 1);
      assert Shares(-increment, n)[..n - 1][j] == -Shares(increment, n)[..n - 1][j];
      RoundHalfUpOdd(Shares(increment, n)[..n - 1][j]);
    }
    SumOdd(down, up);
  }

  predicate AllNonNegative(amounts: seq<int>) {
    forall k :: 0 <= k < |amounts| ==> amounts[k] >= 0
  }

  predicate AllNonPositive(amounts: seq<int>) {
    forall k :: 0 <= k < |amounts| ==> amounts[k] <= 0
  }

  lemma {:induction false} SumSign(amounts: seq<int>)
    ensures AllNonNegative(amounts) ==> Sum(amounts) >= 0
    ensures AllNonPositive(amounts) ==> Sum(amounts) <= 0
  {
    if amounts == [] {
    } else {
      SumSign(amounts[..|amounts| - 1]);
    }
  }

  lemma ClaimSign(increment: int, n: nat, k: nat, amount: int)
    requires 1 <= k <= n && amount == CellAmounts(increment, n)[k - 1]
    ensures increment >= 0 ==> amount >= 0
    ensures increment <= 0 ==> amount <= 0
  {
    if increment >= 0 {
      ClaimsNonNegative(increment, n, k);
    }
    if increment <= 0 {
      CellOdd(increment, n, k);
      ClaimsNonNegative(-increment, n, k);
    }
  }

  // A cell's claims all carry the sign of its increment: they are non-negative
  // exactly when the increment is, however small it is and however many claims.
  lemma ClaimsFollowIncrement(increment: int, n: nat, amounts: seq<int>)
    requires n >= 1 && amounts == CellAmounts(increment, n)
    ensures AllNonNegative(amounts) <==> increment >= 0
    ensures AllNonPositive(amounts) <==> increment <= 0
  {
    CellConserves(increment, n);
    SumSign(amounts);
    forall k | 0 <= k < n
      ensures increment >= 0 ==> amounts[k] >= 0
      ensures increment <= 0 ==> amounts[k] <= 0
    {
      ClaimSign(increment, n, k + 1, amounts[k]);
    }
  }
}
