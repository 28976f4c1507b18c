/** Lexing and matching of the numbers in drafted text against run evidence. */
module NumericGuard {
  import opened Common
  import opened DecimalText

  // ------------------------------------------------------------------- lexing

  // Digits at the front of `s`.
  function DigitRun(s: string): (n: nat)
    ensures n <= |s|
    ensures forall i :: 0 <= i < n ==> IsDigit(s[i])
    ensures n < |s| ==> !IsDigit(s[n])
  {
    if s == [] || !IsDigit(s[0]) then 0 else 1 + DigitRun(s[1..])
  }

  // A decimal point with at least one digit after it.
  predicate StartsFraction(s: string) {
    |s| >= 2 && s[0] == '.' && IsDigit(s[1])
  }

  function FractionRun(s: string): (n: nat)
    ensures n <= |s|
  {
    if StartsFraction(s) then 1 + DigitRun(s[1..]) else 0
  }

  predicate StartsNumber(s: string, signed: bool) {
    s != [] && (IsDigit(s[0]) || (signed && s[0] == '-' && |s| > 1 && IsDigit(s[1])))
  }

  // Length of the number pattern's match at the front of `s`, 0 when there is none.
  function MatchLength(s: string, signed: bool): (n: nat)
    ensures n <= |s|
    ensures n > 0 <==> StartsNumber(s, signed)
  {
    if !StartsNumber(s, signed) then 0
    else
      var start := if IsDigit(s[0]) then 0 else 1;
      var whole := start + DigitRun(s[start..]);
      whole + FractionRun(s[whole..])
  }

  // `findall` of the number pattern: scan left to right, matches never overlap.
  function FindNumbers(s: string, signed: bool): seq<string> {
    if s == [] then []
    else
      var n := MatchLength(s, signed);
      if n > 0 then [s[..n]] + FindNumbers(s[n..], signed) else FindNumbers(s[1..], signed)
  }

  // Exactly three digits, then no fourth.
  predicate ThousandsGroup(s: string) {
    |s| >= 3 && IsDigit(s[0]) && IsDigit(s[1]) && IsDigit(s[2]) && (|s| > 3 ==> !IsDigit(s[3]))
  }

  predicate SeparatorAt(s: string, i: nat)
    requires i < |s|
  {
    s[i] == ',' && i > 0 && IsDigit(s[i - 1]) && ThousandsGroup(s[i + 1..])
  }

  function CleanFrom(s: string, i: nat): string
    requires i <= |s|
    decreases |s| - i
  {
    if i == |s| then []
    else if SeparatorAt(s, i) then CleanFrom(s, i + 1)
    else [s[i]] + CleanFrom(s, i + 1)
  }

  function NumberTokens(text: string): seq<string> {
    FindNumbers(CleanFrom(text, 0), true)
  }

  // ------------------------------------------------------- no digit escapes

  function DigitsIn(s: string): (r: string)
    ensures AllDigits(r)
  {
    if s == [] then [] else (if IsDigit(s[0]) then [s[0]] else []) + DigitsIn(s[1..])
  }

  function TokenDigits(tokens: seq<string>): string {
    if tokens == [] then [] else DigitsIn(tokens[0]) + TokenDigits(tokens[1..])
  }

  lemma {:induction false} DigitsInAppend(a: string, b: string)
    ensures DigitsIn(a + b) == DigitsIn(a) + DigitsIn(b)
  {
    if a == [] {
      assert a + b == b;
    } else {
      var head := if IsDigit(a[0]) then [a[0]] else [];
      assert (a + b)[0] == a[0] && (a + b)[1..] == a[1..] + b;
      DigitsInAppend(a[1..], b);
      Regroup(head, DigitsIn(a[1..]), DigitsIn(b));
    }
  }

  lemma {:induction false} CleanKeepsDigits(s: string, i: nat)
    requires i <= |s|
    ensures DigitsIn(CleanFrom(s, i)) == DigitsIn(s[i..])
    decreases |s| - i
  {
    if i == |s| {
    } else {
      CleanKeepsDigits(s, i + 1);
      assert s[i..] == [s[i]] + s[i + 1..];
      DigitsInAppend([s[i]], CleanFrom(s, i + 1));
      DigitsInAppend([s[i]], s[i + 1..]);
    }
  }

  lemma FindMatch(token: string, rest: string, signed: bool)
    requires token != [] && MatchLength(token + rest, signed) == |token|
    ensures FindNumbers(token + rest, signed) == [token] + FindNumbers(rest, signed)
  {
    assert (token + rest)[..|token|] == token && (token + rest)[|token|..] == rest;
  }

  lemma FindSkip(s: string, signed: bool)
    requires s != [] && MatchLength(s, signed) == 0
    ensures FindNumbers(s, signed) == FindNumbers(s[1..], signed)
  {
  }

  lemma TokenDigitsFirst(token: string, tokens: seq<string>)
    ensures TokenDigits([token] + tokens) == DigitsIn(token) + TokenDigits(tokens)
  {
    assert ([token] + tokens)[1..] == tokens;
  }

  lemma {:induction false} LexKeepsDigits(s: string)
    ensures TokenDigits(FindNumbers(s, true)) == DigitsIn(s)
    decreases |s|
  {
    if s == [] {
    } else {
      var n := MatchLength(s, true);
      if n > 0 {
        var (token, rest) := (s[..n], s[n..]);
        assert s == token + rest;
        DigitsInAppend(token, rest);
        FindMatch(token, rest, true);
        LexKeepsDigits(rest);
        TokenDigitsFirst(token, FindNumbers(rest, true));
      } else {
        FindSkip(s, true);
        LexKeepsDigits(s[1..]);
      }
    }
  }

  // The digits of a text, in order, are exactly the digits of the tokens examined.
  lemma NoDigitEscapes(text: string)
    ensures TokenDigits(NumberTokens(text)) == DigitsIn(text)
  {
    CleanKeepsDigits(text, 0);
    LexKeepsDigits(CleanFrom(text, 0));
    assert text[0..] == text;
  }

  // ------------------------------------------- printed numbers lex as one token

  function Pad3(k: nat): (s: string)
    requires k < 1000
    ensures |s| == 3 && AllDigits(s)
  {
    [DigitChar(k / 100), DigitChar(k / 10 % 10), DigitChar(k % 10)]
  }

  // Thousands separators as Python's `f"{n:,}"` writes them.
  function Grouped(n: nat): (s: string)
    ensures s != [] && IsDigit(s[0]) && IsDigit(s[|s| - 1])
  {
    if n < 1000 then Digits(n) else Grouped(n / 1000) + [','] + Pad3(n % 1000)
  }

  lemma ThousandsParts(n: nat)
    ensures n / 10 / 10 / 10 == n / 1000
    ensures n / 10 / 10 % 10 == n % 1000 / 100
    ensures n / 10 % 10 == n % 1000 / 10 % 10
    ensures n % 10 == n % 1000 % 10
  {
    var (q, r) := (n / 1000, n % 1000);
    assert n == q * 1000 + r;
    assert n / 10 == q * 100 + r / 10;
    assert n / 10 / 10 == q * 10 + r / 100;
  }

  lemma DigitsByThousands(n: nat)
    requires n >= 1000
    ensures Digits(n) == Digits(n / 1000) + Pad3(n % 1000)
  {
    ThousandsParts(n);
    var (tens, hundreds) := (n / 10, n / 10 / 10);
    assert Digits(n) == Digits(tens) + [DigitChar(n % 10)];
    assert Digits(tens) == Digits(hundreds) + [DigitChar(tens % 10)];
    assert Digits(hundreds) == Digits(hundreds / 10) + [DigitChar(hundreds % 10)];
  }

  // Text without a comma is left alone.
  lemma {:induction false} CleanSkips(s: string, i: nat, j: nat)
    requires i <= j <= |s|
    requires forall k :: i <= k < j ==> s[k] != ','
    ensures CleanFrom(s, i) == s[i..j] + CleanFrom(s, j)
    decreases j - i
  {
    if i < j {
      CleanSkips(s, i + 1, j);
      assert s[i..j] == [s[i]] + s[i + 1..j];
      Regroup([s[i]], s[i + 1..j], CleanFrom(s, j));
    } else {
      assert s[i..j] == [];
    }
  }

  predicate NoDigitAt(s: string, i: nat) {
    i < |s| ==> !IsDigit(s[i])
  }

  lemma CleanComma(s: string, comma: nat)
    requires comma + 4 <= |s| && s[comma] == ',' && comma > 0 && IsDigit(s[comma - 1])
    requires AllDigits(s[comma + 1..comma + 4]) && NoDigitAt(s, comma + 4)
    ensures CleanFrom(s, comma) == s[comma + 1..comma + 4] + CleanFrom(s, comma + 4)
  {
    var group := s[comma + 1..comma + 4];
    var after := s[comma + 1..];
    assert after[0] == group[0] && after[1] == group[1] && after[2] == group[2];
    assert SeparatorAt(s, comma);
    forall k | comma + 1 <= k < comma + 4 ensures s[k] != ',' {
      assert s[k] == group[k - comma - 1];
    }
    CleanSkips(s, comma + 1, comma + 4);
  }

  // Where the last separator of a grouped number sits.
  lemma GroupedPieces(s: string, i: nat, n: nat)
    requires n >= 1000
    requires i + |Grouped(n)| <= |s| && s[i..i + |Grouped(n)|] == Grouped(n)
    ensures var comma := i + |Grouped(n / 1000)|;
      && comma + 4 == i + |Grouped(n)|
      && s[i..comma] == Grouped(n / 1000)
      && s[comma] == ',' && IsDigit(s[comma - 1])
      && s[comma + 1..comma + 4] == Pad3(n % 1000)
  {
    var head, g := Grouped(n / 1000), Grouped(n);
    assert g == head + ([','] + Pad3(n % 1000));
    assert g[..|head|] == head && g[|head| + 1..] == Pad3(n % 1000);
    var comma := i + |head|;
    assert s[i..comma] == s[i..i + |g|][..|head|];
    assert s[comma] == s[i..i + |g|][|head|];
    assert s[comma - 1] == s[i..comma][|head| - 1];
    assert s[comma + 1..comma + 4] == s[i..i + |g|][|head| + 1..];
  }

  lemma {:induction false} CleanGrouped(s: string, i: nat, n: nat)
    requires i + |Grouped(n)| <= |s| && s[i..i + |Grouped(n)|] == Grouped(n)
    requires NoDigitAt(s, i + |Grouped(n)|)
    ensures CleanFrom(s, i) == Digits(n) + CleanFrom(s, i + |Grouped(n)|)
    decreases n
  {
    var end := i + |Grouped(n)|;
    if n < 1000 {
      assert forall k :: i <= k < end ==> s[k] == s[i..end][k - i];
      CleanSkips(s, i, end);
    } else {
      GroupedPieces(s, i, n);
      CleanGrouped(s, i, n / 1000);
      CleanComma(s, end - 4);
      DigitsByThousands(n);
      Regroup(Digits(n / 1000), Pad3(n % 1000), CleanFrom(s, end));
    }
  }

  // A fraction part: nothing, or a point and at least one digit.
  predicate Fraction(f: string) {
    f == [] || (|f| >= 2 && f[0] == '.' && AllDigits(f[1..]))
  }

  // Text that does not carry on the number before it.
  predicate Closes(fraction: string, post: string) {
    post == [] || (
      && !IsDigit(post[0])
      && !(fraction == [] && StartsFraction(post))
      && !(post[0] == ',' && ThousandsGroup(post[1..])))
  }

  // No run of digits and no separator reaches across the cut.
  predicate CleanCut(s: string, cut: nat)
    requires cut <= |s|
  {
    || NoDigitAt(s, cut)
    || cut == 0
    || (!IsDigit(s[cut - 1]) && !SeparatorAt(s, cut - 1))
  }

  // A separator before the cut is one whether or not the rest is there.
  lemma SeparatorBeforeCut(s: string, cut: nat, i: nat)
    requires i < cut <= |s| && CleanCut(s, cut)
    ensures SeparatorAt(s, i) <==> SeparatorAt(s[..cut], i)
  {
    var (whole, part) := (s[i + 1..], s[..cut][i + 1..]);
    assert part == whole[..cut - i - 1];
    assert cut < |s| ==> whole[|part|] == s[cut];
    assert part != [] ==> part[|part| - 1] == s[cut - 1];
    assert i > 0 ==> s[..cut][i - 1] == s[i - 1];
  }

  lemma {:induction false} CleanPrefix(s: string, cut: nat, i: nat)
    requires i <= cut <= |s| && CleanCut(s, cut)
    ensures CleanFrom(s, i) == CleanFrom(s[..cut], i) + CleanFrom(s, cut)
    decreases cut - i
  {
    if i == cut {
    } else {
      SeparatorBeforeCut(s, cut, i);
      CleanPrefix(s, cut, i + 1);
    }
  }

  lemma {:induction false} CleanSuffix(s: string, cut: nat, i: nat)
    requires 1 <= i && cut + i <= |s|
    ensures CleanFrom(s, cut + i) == CleanFrom(s[cut..], i)
    decreases |s| - i
  {
    if cut + i == |s| {
    } else {
      var post := s[cut..];
      assert s[cut + i] == post[i] && s[cut + i - 1] == post[i - 1];
      assert s[cut + i + 1..] == post[i + 1..];
      CleanSuffix(s, cut, i + 1);
    }
  }

  lemma {:induction false} DigitRunStops(run: string, tail: string)
    requires AllDigits(run)
    requires tail != [] ==> !IsDigit(tail[0])
    ensures DigitRun(run + tail) == |run|
  {
    if run == [] {
      assert run + tail == tail;
    } else {
      assert (run + tail)[1..] == run[1..] + tail;
      DigitRunStops(run[1..], tail);
    }
  }

  lemma {:induction false} DigitRunSplit(a: string, b: string)
    requires b == [] || !IsDigit(b[0]) || DigitRun(a) < |a|
    ensures DigitRun(a + b) == DigitRun(a)
  {
    if a == [] {
      assert a + b == b;
    } else if IsDigit(a[0]) {
      assert (a + b)[1..] == a[1..] + b;
      DigitRunSplit(a[1..], b);
    }
  }

  function SignLength(s: string): nat {
    if s != [] && s[0] == '-' then 1 else 0
  }

  // Sign and leading digits of the match at the front.
  function WholeRun(s: string): (n: nat)
    requires StartsNumber(s, true)
    ensures SignLength(s) < n <= |s|
  {
    SignLength(s) + DigitRun(s[SignLength(s)..])
  }

  lemma MatchParts(s: string)
    requires StartsNumber(s, true)
    ensures MatchLength(s, true) == WholeRun(s) + FractionRun(s[WholeRun(s)..])
  {
  }

  /**
   * Whether a digit right after `a` would join the match at the front of `a`: a match
   * that reaches the end, one with a point after it at the end, or a lone sign.
   */
  predicate JoinsFront(a: string) {
    || a == ['-']
    || (StartsNumber(a, true) &&
        (MatchLength(a, true) == |a| || (WholeRun(a) + 1 == |a| && a[|a| - 1] == '.')))
  }

  function Stride(a: string): (n: nat)
    requires a != []
    ensures 1 <= n <= |a|
  {
    if MatchLength(a, true) > 0 then MatchLength(a, true) else 1
  }

  // Whether a digit right after `a` would join the last match in it.
  predicate TakesDigit(a: string) {
    a != [] && (JoinsFront(a) || TakesDigit(a[Stride(a)..]))
  }

  // Only a digit, a sign or a point at the end can take a digit after it.
  lemma {:induction false} TakesDigitAtEnd(a: string)
    requires TakesDigit(a)
    ensures IsDigit(a[|a| - 1]) || a[|a| - 1] == '-' || a[|a| - 1] == '.'
  {
    if JoinsFront(a) {
      if StartsNumber(a, true) && MatchLength(a, true) == |a| {
        MatchEndsInDigit(a);
      }
    } else {
      TakesDigitAtEnd(a[Stride(a)..]);
    }
  }

  lemma MatchEndsInDigit(a: string)
    requires StartsNumber(a, true)
    ensures IsDigit(a[MatchLength(a, true) - 1])
  {
    MatchParts(a);
    var (sign, whole) := (SignLength(a), WholeRun(a));
    assert IsDigit(a[sign..][whole - sign - 1]);
    var rest := a[whole..];
    if StartsFraction(rest) {
      assert IsDigit(rest[1..][DigitRun(rest[1..]) - 1]);
    }
  }

  // What follows leaves the match at the front as it is.
  predicate LeavesFront(a: string, b: string) {
    b == [] || b[0] == '-' || (IsDigit(b[0]) && !JoinsFront(a))
  }

  lemma FractionSplit(a: string, b: string)
    requires b == [] || (!IsDigit(b[0]) && b[0] != '.') || FractionRun(a) < |a|
    requires b != [] && IsDigit(b[0]) ==> a != ['.']
    ensures FractionRun(a + b) == FractionRun(a)
  {
    if a == [] {
      assert a + b == b;
    } else {
      assert (a + b)[1..] == a[1..] + b;
      if StartsFraction(a) {
        DigitRunSplit(a[1..], b);
      }
    }
  }

  lemma StartsInside(a: string, b: string)
    requires a != [] && LeavesFront(a, b)
    ensures StartsNumber(a + b, true) <==> StartsNumber(a, true)
    ensures SignLength(a + b) == SignLength(a)
  {
  }

  lemma WholeInside(a: string, b: string)
    requires StartsNumber(a, true) && LeavesFront(a, b)
    ensures StartsNumber(a + b, true) && WholeRun(a + b) == WholeRun(a)
    ensures (a + b)[WholeRun(a)..] == a[WholeRun(a)..] + b
  {
    StartsInside(a, b);
    MatchParts(a);
    var digits := a[SignLength(a)..];
    assert (a + b)[SignLength(a)..] == digits + b;
    DigitRunSplit(digits, b);
  }

  lemma FractionInside(a: string, b: string, whole: nat)
    requires StartsNumber(a, true) && LeavesFront(a, b) && whole == WholeRun(a)
    ensures FractionRun(a[whole..] + b) == FractionRun(a[whole..])
  {
    MatchParts(a);
    FractionSplit(a[whole..], b);
  }

  lemma MatchInside(a: string, b: string)
    requires a != [] && LeavesFront(a, b)
    ensures MatchLength(a + b, true) == MatchLength(a, true)
  {
    StartsInside(a, b);
    if StartsNumber(a, true) {
      WholeInside(a, b);
      FractionInside(a, b, WholeRun(a));
      MatchParts(a);
      MatchParts(a + b);
    }
  }

  // A digit that joins makes the match longer than what stood there.
  lemma MatchJoins(a: string, b: string)
    requires JoinsFront(a) && b != [] && IsDigit(b[0])
    ensures MatchLength(a + b, true) > |a|
  {
    if a == ['-'] {
      assert (a + b)[1..] == b;
    } else {
      MatchParts(a);
      if WholeRun(a) == |a| {
        DigitsJoin(a, b);
      } else {
        FractionJoins(a, b);
      }
    }
  }

  lemma DigitsJoin(a: string, b: string)
    requires StartsNumber(a, true) && WholeRun(a) == |a| && b != [] && IsDigit(b[0])
    ensures MatchLength(a + b, true) > |a|
  {
    assert (a + b)[SignLength(a)..] == a[SignLength(a)..] + b;
    DigitRunGrows(a[SignLength(a)..], b);
  }

  lemma FractionJoins(a: string, b: string)
    requires StartsNumber(a, true) && WholeRun(a) < |a| && b != [] && IsDigit(b[0])
    requires MatchLength(a, true) == |a| || a[WholeRun(a)..] == ['.']
    ensures MatchLength(a + b, true) > |a|
  {
    var whole := WholeRun(a);
    MatchParts(a);
    WholeStops(a, b);
    FractionGrows(a[whole..], b);
    MatchParts(a + b);
  }

  lemma WholeStops(a: string, b: string)
    requires StartsNumber(a, true) && WholeRun(a) < |a|
    ensures StartsNumber(a + b, true) && WholeRun(a + b) == WholeRun(a)
    ensures (a + b)[WholeRun(a)..] == a[WholeRun(a)..] + b
  {
    var digits := a[SignLength(a)..];
    assert (a + b)[SignLength(a)..] == digits + b;
    DigitRunSplit(digits, b);
  }

  lemma FractionGrows(a: string, b: string)
    requires a == ['.'] || (a != [] && FractionRun(a) == |a|)
    requires b != [] && IsDigit(b[0])
    ensures FractionRun(a + b) > |a|
  {
    assert (a + b)[1..] == a[1..] + b;
    DigitRunGrows(a[1..], b);
  }

  lemma {:induction false} DigitRunGrows(a: string, b: string)
    requires DigitRun(a) == |a| && b != [] && IsDigit(b[0])
    ensures DigitRun(a + b) > |a|
  {
    if a == [] {
      assert a + b == b;
    } else {
      assert (a + b)[1..] == a[1..] + b;
      DigitRunGrows(a[1..], b);
    }
  }

  function Head(a: string): seq<string>
    requires a != []
  {
    if MatchLength(a, true) > 0 then [a[..Stride(a)]] else []
  }

  lemma FindByStride(a: string)
    requires a != []
    ensures FindNumbers(a, true) == Head(a) + FindNumbers(a[Stride(a)..], true)
  {
  }

  // One stride of the lexer, when what follows leaves the front alone.
  lemma StrideSplit(a: string, b: string)
    requires a != [] && LeavesFront(a, b)
    ensures FindNumbers(a, true) == Head(a) + FindNumbers(a[Stride(a)..], true)
    ensures FindNumbers(a + b, true) == Head(a) + FindNumbers(a[Stride(a)..] + b, true)
  {
    MatchInside(a, b);
    var n := Stride(a);
    assert (a + b)[..n] == a[..n] && (a + b)[n..] == a[n..] + b;
    FindByStride(a);
    FindByStride(a + b);
  }

  // Nothing before a sign can join it.
  lemma {:induction false} LexBeforeSign(a: string, b: string)
    requires b != [] && b[0] == '-'
    ensures FindNumbers(a + b, true) == FindNumbers(a, true) + FindNumbers(b, true)
    decreases |a|
  {
    if a == [] {
      assert a + b == b;
    } else {
      var rest := a[Stride(a)..];
      StrideSplit(a, b);
      LexBeforeSign(rest, b);
      Regroup(Head(a), FindNumbers(rest, true), FindNumbers(b, true));
    }
  }

  // Text followed by a digit is read apart from it exactly when its end takes no digit.
  lemma {:induction false} LexBeforeDigit(a: string, b: string)
    requires b != [] && IsDigit(b[0])
    ensures FindNumbers(a + b, true) == FindNumbers(a, true) + FindNumbers(b, true) <==> !TakesDigit(a)
    decreases |a|
  {
    if a == [] {
      assert a + b == b;
    } else if JoinsFront(a) {
      LexJoined(a, b);
    } else {
      StrideSplit(a, b);
      var rest := a[Stride(a)..];
      LexBeforeDigit(rest, b);
      SameHead(Head(a), FindNumbers(rest + b, true), FindNumbers(rest, true), FindNumbers(b, true));
    }
  }

  lemma SameHead(head: seq<string>, x: seq<string>, y: seq<string>, z: seq<string>)
    ensures head + x == head + y + z <==> x == y + z
  {
    Regroup(head, y, z);
    if head + x == head + (y + z) {
      assert (head + x)[|head|..] == x && (head + (y + z))[|head|..] == y + z;
    }
  }

  lemma FirstToken(s: string)
    requires s != [] && MatchLength(s, true) > 0
    ensures FindNumbers(s, true) != [] && FindNumbers(s, true)[0] == s[..MatchLength(s, true)]
  {
  }

  // A digit that joins changes the first token.
  lemma LexJoined(a: string, b: string)
    requires JoinsFront(a) && b != [] && IsDigit(b[0])
    ensures FindNumbers(a + b, true) != FindNumbers(a, true) + FindNumbers(b, true)
  {
    MatchJoins(a, b);
    FirstToken(a + b);
    var joined := FindNumbers(a + b, true)[0];
    assert |joined| > |a| && joined[0] == a[0];
    FirstToken(b);
    if a == ['-'] {
      FindSkip(a, true);
      assert FindNumbers(a, true) == [];
      assert FindNumbers(b, true)[0][0] == b[0];
    } else {
      FirstToken(a);
      assert |FindNumbers(a, true)[0]| <= |a|;
    }
  }

  lemma MatchWhole(s: string, start: nat, end: nat, stop: nat)
    requires start < end <= stop <= |s|
    requires start == 0 || (start == 1 && s[0] == '-')
    requires IsDigit(s[start])
    requires DigitRun(s[start..]) == end - start
    requires FractionRun(s[end..]) == stop - end
    ensures MatchLength(s, true) == stop
  {
  }

  lemma MatchPrinted(sign: string, whole: string, fraction: string, tail: string)
    requires sign == [] || sign == ['-']
    requires whole != [] && AllDigits(whole) && Fraction(fraction)
    requires tail != [] ==> !IsDigit(tail[0]) && !(fraction == [] && StartsFraction(tail))
    ensures MatchLength(sign + (whole + (fraction + tail)), true) == |sign| + |whole| + |fraction|
  {
    var (after, end) := (fraction + tail, |sign| + |whole|);
    var s := sign + (whole + after);
    assert s[|sign|..] == whole + after && s[end..] == after;
    DigitRunStops(whole, after);
    FractionStops(fraction, tail);
    MatchWhole(s, |sign|, end, end + |fraction|);
  }

  lemma LexOne(sign: string, whole: string, fraction: string, tail: string)
    requires sign == [] || sign == ['-']
    requires whole != [] && AllDigits(whole) && Fraction(fraction)
    requires tail != [] ==> !IsDigit(tail[0]) && !(fraction == [] && StartsFraction(tail))
    ensures FindNumbers(sign + whole + fraction + tail, true) ==
            [sign + whole + fraction] + FindNumbers(tail, true)
  {
    MatchPrinted(sign, whole, fraction, tail);
    Assemble(sign, whole, fraction, tail);
    FindMatch(sign + whole + fraction, tail, true);
  }

  lemma Assemble(a: string, b: string, c: string, d: string)
    ensures a + (b + (c + d)) == a + b + c + d
  {
    Regroup(b, c, d);
    Regroup(a, b + c, d);
    Regroup(a, b, c);
  }

  lemma FractionStops(fraction: string, tail: string)
    requires Fraction(fraction)
    requires tail != [] ==> !IsDigit(tail[0]) && !(fraction == [] && StartsFraction(tail))
    ensures FractionRun(fraction + tail) == |fraction|
  {
    if fraction == [] {
      assert fraction + tail == tail;
    } else {
      assert (fraction + tail)[1..] == fraction[1..] + tail;
      assert IsDigit(fraction[1..][0]);
      DigitRunStops(fraction[1..], tail);
    }
  }

  lemma CleanPieces(s: string, a: nat, b: nat, c: nat, d: nat, n: nat)
    requires a <= b <= c <= d <= |s|
    requires s[b..c] == Grouped(n) && NoDigitAt(s, c)
    requires forall k :: a <= k < b || c <= k < d ==> s[k] != ','
    ensures CleanFrom(s, a) == s[a..b] + Digits(n) + s[c..d] + CleanFrom(s, d)
  {
    CleanSkips(s, a, b);
    CleanGrouped(s, b, n);
    CleanSkips(s, c, d);
    Assemble(s[a..b], Digits(n), s[c..d], CleanFrom(s, d));
  }

  lemma FractionHasNoComma(f: string)
    requires Fraction(f)
    ensures forall k :: 0 <= k < |f| ==> f[k] != ','
  {
    forall k | 0 < k < |f| ensures f[k] != ',' {
      assert IsDigit(f[1..][k - 1]);
    }
  }

  lemma CleanAfter(s: string, cut: nat, fraction: string)
    requires 0 < cut <= |s| && Closes(fraction, s[cut..])
    ensures CleanFrom(s, cut) == CleanFrom(s[cut..], 0)
  {
    if cut < |s| {
      assert s[cut + 1..] == s[cut..][1..];
      CleanSuffix(s, cut, 1);
    }
  }

  // s[b..c] is a number printed with separators, s[a..b] its sign and s[c..d] its
  // fraction; without a sign it is not the tail of a longer run of digits, and what follows
  // does not carry it on.
  predicate PrintedNumber(s: string, a: nat, b: nat, c: nat, d: nat, n: nat) {
    && a <= b <= c <= d <= |s|
    && (s[a..b] == [] || s[a..b] == ['-'])
    && s[b..c] == Grouped(n)
    && Fraction(s[c..d])
    && (a == b ==> CleanCut(s, a))
    && Closes(s[c..d], s[d..])
  }

  // A sign is reason enough not to be a tail.
  lemma SignedIsCut(s: string, a: nat)
    requires a < |s| && s[a] == '-'
    ensures CleanCut(s, a)
  {
  }

  lemma CleanAround(s: string, a: nat, b: nat, c: nat, d: nat, n: nat)
    requires PrintedNumber(s, a, b, c, d, n)
    ensures CleanFrom(s, 0) ==
            CleanFrom(s[..a], 0) + (s[a..b] + Digits(n) + s[c..d] + CleanFrom(s[d..], 0))
  {
    if a < b {
      assert s[a] == s[a..b][0];
      SignedIsCut(s, a);
    }
    FractionHasNoComma(s[c..d]);
    forall k | a <= k < b || c <= k < d ensures s[k] != ',' {
      assert s[k] == if k < b then s[a..b][k - a] else s[c..d][k - c];
    }
    if c < d {
      assert s[c] == s[c..d][0];
    } else if d < |s| {
      assert s[d] == s[d..][0];
    }
    CleanPieces(s, a, b, c, d, n);
    CleanAfter(s, d, s[c..d]);
    CleanPrefix(s, a, 0);
  }

  /**
   * A number printed with thousands commas, an optional sign and optional decimals is read
   * as one token with the same digits, and the text around it as if it were not there:
   * always when it carries its sign, and otherwise exactly when the text before it, once
   * cleaned, does not take a digit.
   */
  lemma GroupedReadsAsOne(s: string, a: nat, b: nat, c: nat, d: nat, n: nat)
    requires PrintedNumber(s, a, b, c, d, n)
    ensures NumberTokens(s) == NumberTokens(s[..a]) + [s[a..b] + Digits(n) + s[c..d]] + NumberTokens(s[d..])
       <==> a < b || !TakesDigit(CleanFrom(s[..a], 0))
  {
    CleanAround(s, a, b, c, d, n);
    var before, after := CleanFrom(s[..a], 0), CleanFrom(s[d..], 0);
    CleanFirst(s[d..]);
    var token := s[a..b] + Digits(n) + s[c..d];
    LexOne(s[a..b], Digits(n), s[c..d], after);
    Regroup(FindNumbers(before, true), [token], FindNumbers(after, true));
    if a < b {
      LexBeforeSign(before, token + after);
    } else {
      LexBeforeDigit(before, token + after);
    }
  }

  // After anything but a sign or a point the unsigned number reads apart too.
  lemma UnsignedReadsApart(s: string, a: nat, c: nat, d: nat, n: nat)
    requires PrintedNumber(s, a, a, c, d, n)
    requires a > 0 ==> s[a - 1] != '-' && s[a - 1] != '.'
    ensures NumberTokens(s) == NumberTokens(s[..a]) + [Digits(n) + s[c..d]] + NumberTokens(s[d..])
  {
    GroupedReadsAsOne(s, a, a, c, d, n);
    assert s[a..a] + Digits(n) == Digits(n);
    assert s[a] == s[a..c][0];
    ApartBefore(s, a);
  }

  lemma ApartBefore(s: string, a: nat)
    requires a < |s| && IsDigit(s[a]) && CleanCut(s, a)
    requires a > 0 ==> s[a - 1] != '-' && s[a - 1] != '.'
    ensures !TakesDigit(CleanFrom(s[..a], 0))
  {
    var before := CleanFrom(s[..a], 0);
    if a > 0 {
      CleanEnd(s[..a], 0);
      if TakesDigit(before) {
        TakesDigitAtEnd(before);
      }
    }
  }

  // The last character survives cleaning: a separator is never the last.
  lemma {:induction false} CleanEnd(s: string, i: nat)
    requires i < |s|
    ensures var r := CleanFrom(s, i); r != [] && r[|r| - 1] == s[|s| - 1]
    decreases |s| - i
  {
    if i + 1 == |s| {
    } else {
      CleanEnd(s, i + 1);
    }
  }

  // Cleaning never changes the first character, nor whether a fraction starts there.
  lemma CleanFirst(s: string)
    ensures var r := CleanFrom(s, 0);
      && (s == [] <==> r == [])
      && (s != [] ==> r[0] == s[0])
      && (StartsFraction(r) ==> StartsFraction(s))
  {
    if |s| >= 2 {
      assert CleanFrom(s, 0) == [s[0]] + CleanFrom(s, 1);
      if s[0] == '.' && !IsDigit(s[1]) {
        assert !SeparatorAt(s, 1);
        assert CleanFrom(s, 1) == [s[1]] + CleanFrom(s, 2);
      }
    }
  }
}
