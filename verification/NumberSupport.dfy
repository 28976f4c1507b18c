/** Which number tokens the guard lets pass, stated from the digits of the token. */
module NumberSupport {
  import opened Common
  import opened DecimalText
  import opened NumericGuard
  import opened NarrativeDraft

  // ---------------------------------------------------------------- values of tokens

  // The number that sign, whole part and decimals write.
  function Written(sign: string, whole: string, fraction: string): real
    requires AllDigits(whole) && AllDigits(fraction)
  {
    var magnitude := ValueOf(whole + fraction) as real / Power10(|fraction|) as real;
    if sign == "-" then -magnitude else magnitude
  }

  predicate Token(token: string, sign: string, whole: string, fraction: string) {
    && (sign == "" || sign == "-") && whole != "" && AllDigits(whole) && AllDigits(fraction)
    && token == sign + whole + (if fraction == "" then "" else "." + fraction)
  }

  lemma {:induction false} DigitsInDigits(a: string)
    requires AllDigits(a)
    ensures DigitsIn(a) == a
  {
    if a == [] {
    } else {
      DigitsInDigits(a[1..]);
    }
  }

  lemma {:induction false} PointAfter(a: string, b: string)
    requires '.' !in a
    ensures PointAt(a + "." + b) == |a| && '.' in a + "." + b
  {
    var t := a + "." + b;
    assert t[|a|] == '.';
    if a == [] {
    } else {
      assert t[1..] == a[1..] + "." + b;
      PointAfter(a[1..], b);
    }
  }

  lemma SignedDigits(sign: string, whole: string)
    requires (sign == "" || sign == "-") && whole != "" && AllDigits(whole)
    ensures DigitsIn(sign + whole) == whole && '.' !in sign + whole
    ensures (sign + whole)[0] == '-' <==> sign == "-"
  {
    DigitsInDigits(whole);
    DigitsInAppend(sign, whole);
    assert DigitsIn(sign) == [];
  }

  lemma DecimalsAfter(front: string, fraction: string)
    requires '.' !in front
    ensures Decimals(front + "." + fraction) == |fraction|
  {
    PointAfter(front, fraction);
  }

  lemma PointedDigits(front: string, fraction: string)
    requires AllDigits(fraction)
    ensures DigitsIn(front + "." + fraction) == DigitsIn(front) + fraction
  {
    DigitsInAppend(front + ".", fraction);
    DigitsInAppend(front, ".");
    DigitsInDigits(fraction);
    assert DigitsIn(front) + DigitsIn(".") == DigitsIn(front);
  }

  lemma TokenParts(token: string, sign: string, whole: string, fraction: string)
    requires Token(token, sign, whole, fraction)
    ensures DigitsIn(token) == whole + fraction && Decimals(token) == |fraction|
    ensures '.' in token <==> fraction != ""
    ensures token != "" && (token[0] == '-' <==> sign == "-")
  {
    SignedDigits(sign, whole);
    var front := sign + whole;
    if fraction == "" {
      assert token == front && whole + fraction == whole;
    } else {
      assert token == front + "." + fraction;
      PointedDigits(front, fraction);
      DecimalsAfter(front, fraction);
      PointAfter(front, fraction);
      assert token[0] == front[0];
    }
  }

  /** A token's value is the number its digits write, and its decimals are those written. */
  lemma TokenWrites(token: string, sign: string, whole: string, fraction: string)
    requires Token(token, sign, whole, fraction)
    ensures TokenValue(token) == Written(sign, whole, fraction)
    ensures Decimals(token) == |fraction| && ('.' in token <==> fraction != "")
  {
    TokenParts(token, sign, whole, fraction);
  }

  lemma FractionText(tail: string)
    requires FractionRun(tail) > 0
    ensures var f := tail[1..FractionRun(tail)];
      AllDigits(f) && f != "" && tail[..FractionRun(tail)] == "." + f
  {
    var n := FractionRun(tail);
    assert forall i :: 1 <= i < n ==> tail[i] == tail[1..][i - 1];
    assert tail[..n] == [tail[0]] + tail[1..n];
  }

  lemma Pieces(s: string, a: nat, b: nat, c: nat)
    requires a <= b <= c <= |s|
    ensures s[..c] == s[..a] + s[a..b] + s[b..][..c - b]
  {
  }

  // A match is a token, signed or not.
  lemma MatchIsToken(s: string) returns (sign: string, whole: string, fraction: string)
    requires MatchLength(s, true) > 0
    ensures Token(s[..MatchLength(s, true)], sign, whole, fraction)
  {
    var start := if IsDigit(s[0]) then 0 else 1;
    var end := start + DigitRun(s[start..]);
    var n := MatchLength(s, true);
    var tail := s[end..];
    sign, whole, fraction := s[..start], s[start..end], "";
    assert forall i :: 0 <= i < |whole| ==> whole[i] == s[start..][i];
    Pieces(s, start, end, n);
    if n > end {
      FractionText(tail);
      fraction := tail[1..n - end];
    }
  }

  ghost predicate AToken(token: string) {
    exists sign, whole, fraction :: Token(token, sign, whole, fraction)
  }

  /** Everything the guard examines is a token: a sign or none, digits, and decimals or none. */
  lemma {:induction false} TokensWrite(s: string)
    ensures forall k :: 0 <= k < |FindNumbers(s, true)| ==> AToken(FindNumbers(s, true)[k])
    decreases |s|
  {
    if s == [] {
    } else {
      var n := MatchLength(s, true);
      if n > 0 {
        var sign, whole, fraction := MatchIsToken(s);
        assert AToken(s[..n]);
        TokensWrite(s[n..]);
      } else {
        TokensWrite(s[1..]);
      }
    }
  }

  // -------------------------------------------------------------------- rounding

  // `m` units of the d-th decimal are nearest to x; of two equally near, the even one.
  predicate NearestEven(x: real, d: nat, m: int) {
    var gap := x * Power10(d) as real - m as real;
    -0.5 <= gap <= 0.5 && (gap == 0.5 || gap == -0.5 ==> m % 2 == 0)
  }

  function Units(m: int, d: nat): real {
    m as real / Power10(d) as real
  }

  lemma NearestIsOne(x: real, d: nat, m: int, n: int)
    requires NearestEven(x, d, m) && NearestEven(x, d, n)
    ensures m == n
  {
    assert -1.0 <= m as real - n as real <= 1.0;
    assert -1 <= m - n <= 1;
  }

  lemma NearestExists(x: real, d: nat) returns (m: int)
    ensures NearestEven(x, d, m) && RoundHalfEven(x, d) == Units(m, d)
  {
    var scaled := x * Power10(d) as real;
    m := RoundedUnits(scaled);
  }

  lemma RoundedUnits(scaled: real) returns (m: int)
    ensures var gap := scaled - m as real; -0.5 <= gap <= 0.5 && (gap == 0.5 || gap == -0.5 ==> m % 2 == 0)
    ensures var low := scaled.Floor;
      m == if scaled - low as real < 0.5 then low else if scaled - low as real > 0.5 then low + 1
           else if low % 2 == 0 then low else low + 1
  {
    var low := scaled.Floor;
    var rest := scaled - low as real;
    m := if rest < 0.5 then low else if rest > 0.5 then low + 1 else if low % 2 == 0 then low else low + 1;
  }

  // ------------------------------------------------------------------ what passes

  // The multiple of the last decimal's unit nearest to the item is u, but for 1e-9.
  ghost predicate RoundsTo(item: real, d: nat, u: real) {
    exists m :: NearestEven(item, d, m) && Gap(Units(m, d), u) <= 0.000000001
  }

  function Gap(x: real, y: real): real {
    if x >= y then x - y else y - x
  }

  function Larger(x: real, y: real): real {
    if x >= y then x else y
  }

  // The item stands for the value u of a token with d decimals.
  ghost predicate Vouches(item: real, d: nat, u: real) {
    Gap(u, item) <= 0.000001 * Larger(1.0, Larger(item, -item)) || RoundsTo(item, d, u)
  }

  // A whole number from 1900 to 2100.
  ghost predicate Year(v: real) {
    exists y :: YearIs(y, v)
  }

  predicate YearIs(y: int, v: real) {
    1900 <= y <= 2100 && v == y as real
  }

  lemma YearExactly(v: real)
    ensures IsYear(v) <==> Year(v)
  {
    if IsYear(v) {
      assert YearIs(v.Floor, v);
    }
  }

  lemma RoundsToExactly(item: real, d: nat, u: real)
    ensures Abs(RoundHalfEven(item, d) - u) <= 0.000000001 <==> RoundsTo(item, d, u)
  {
    var n := NearestExists(item, d);
    forall k | NearestEven(item, d, k)
      ensures k == n
    {
      NearestIsOne(item, d, k, n);
    }
  }

  lemma SupportsExactly(token: string, u: real, item: real)
    requires '.' in token
    ensures Supports(token, u, item) <==> Vouches(item, Decimals(token), u)
  {
    RoundsToExactly(item, Decimals(token), u);
    NearExactly(u, item);
  }

  lemma NearExactly(u: real, item: real)
    ensures Near(u, item) <==> Gap(u, item) <= 0.000001 * Larger(1.0, Larger(item, -item))
  {
  }

  /**
   * A token with decimals passes if and only if it writes a year, or some allowed item, for
   * the value written or for it without its sign, is within a millionth of it or rounds, at
   * the token's last decimal and with ties to even, to it.
   */
  lemma PointTokenExactly(token: string, sign: string, whole: string, fraction: string, allowed: set<real>)
    requires Token(token, sign, whole, fraction) && fraction != ""
    ensures var v := Written(sign, whole, fraction);
      TokenSupported(token, allowed) <==>
        Year(v) || exists item :: item in allowed && VouchesFor(item, |fraction|, v)
  {
    var v := Written(sign, whole, fraction);
    TokenWrites(token, sign, whole, fraction);
    YearExactly(v);
    forall item
      ensures Supports(token, v, item) <==> Vouches(item, |fraction|, v)
      ensures Supports(token, Abs(v), item) <==> Vouches(item, |fraction|, Larger(v, -v))
    {
      SupportsExactly(token, v, item);
      SupportsExactly(token, Abs(v), item);
    }
  }

  // The item stands for v, or for v without its sign.
  ghost predicate VouchesFor(item: real, d: nat, v: real) {
    Vouches(item, d, v) || Vouches(item, d, Larger(v, -v))
  }

  lemma UnitsNear(item: real, d: nat, m: int, p: real)
    requires NearestEven(item, d, m) && p == Power10(d) as real
    ensures Gap(Units(m, d), item) <= 0.5 / p
  {
    assert item * p - m as real <= 0.5 && m as real - item * p <= 0.5;
    DividedGap(item * p, m as real, p);
    assert item * p / p == item;
  }

  lemma DividedGap(x: real, y: real, p: real)
    requires p > 0.0 && x - y <= 0.5 && y - x <= 0.5
    ensures x / p - y / p <= 0.5 / p && y / p - x / p <= 0.5 / p
  {
    assert x / p - y / p == (x - y) / p;
    assert y / p - x / p == (y - x) / p;
    assert 0.5 / p - (x - y) / p == (0.5 - (x - y)) / p >= 0.0;
    assert 0.5 / p - (y - x) / p == (0.5 - (y - x)) / p >= 0.0;
  }

  /**
   * So a figure that passes is never far from the evidence: within a millionth of an allowed
   * item, or within half a unit of its own last decimal, up to its sign.
   */
  lemma PassesNearEvidence(token: string, sign: string, whole: string, fraction: string, allowed: set<real>)
    returns (item: real, u: real)
    requires Token(token, sign, whole, fraction) && fraction != "" && TokenSupported(token, allowed)
    requires !Year(Written(sign, whole, fraction))
    ensures item in allowed
    ensures u == Written(sign, whole, fraction) || u == -Written(sign, whole, fraction)
    ensures Gap(u, item) <= Larger(
      0.000001 * Larger(1.0, Larger(item, -item)), 0.5 / Power10(|fraction|) as real + 0.000000001)
  {
    var (v, d) := (Written(sign, whole, fraction), |fraction|);
    PointTokenExactly(token, sign, whole, fraction, allowed);
    item :| item in allowed && VouchesFor(item, d, v);
    u := if Vouches(item, d, v) then v else Larger(v, -v);
    if RoundsTo(item, d, u) {
      var m :| NearestEven(item, d, m) && Gap(Units(m, d), u) <= 0.000000001;
      UnitsNear(item, d, m, Power10(d) as real);
    }
  }

  lemma WholeWritten(sign: string, whole: string)
    requires AllDigits(whole)
    ensures Written(sign, whole, "") == if sign == "-" then -(ValueOf(whole) as real) else ValueOf(whole) as real
  {
    assert whole + "" == whole && Power10(0) == 1;
  }

  lemma WholeYear(v: real, n: nat, negative: bool)
    requires v == if negative then -(n as real) else n as real
    ensures IsYear(v) <==> !negative && 1900 <= n <= 2100
  {
    var k: int := if negative then 0 - n else n;
    assert v == k as real;
  }

  /** A token without decimals passes exactly on its own value, up to sign, or as a year. */
  lemma WholeTokenExactly(token: string, sign: string, whole: string, allowed: set<real>)
    requires Token(token, sign, whole, "")
    ensures var n := ValueOf(whole);
      TokenSupported(token, allowed) <==>
        || (sign == "" && 1900 <= n <= 2100)
        || n as real in allowed || (sign == "-" && -(n as real) in allowed)
  {
    var v := Written(sign, whole, "");
    TokenWrites(token, sign, whole, "");
    IntegerTokenExact(token, allowed);
    WholeWritten(sign, whole);
    WholeYear(v, ValueOf(whole), sign == "-");
    assert Abs(v) == ValueOf(whole) as real;
  }
}
