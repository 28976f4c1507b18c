/** Result types and small helpers shared by the component models. */
module Common {
  datatype Option<+T> = None | Some(value: T)

  datatype Result<+T, +E> = Ok(value: T) | Err(error: E)

  function Least(a: nat, b: nat): nat {
    if a <= b then a else b
  }

  // Nothing is lost or changed; there may be more.
  ghost predicate Extends<K, V>(before: map<K, V>, after: map<K, V>) {
    forall k :: k in before ==> k in after && after[k] == before[k]
  }

  lemma Regroup<T>(a: seq<T>, b: seq<T>, c: seq<T>)
    ensures a + (b + c) == (a + b) + c
  {
  }
}

/** The order of texts. */
module TextOrder {
  // Code point order of texts, as Python's `sorted` uses it.
  predicate Before(a: string, b: string) {
    if b == [] then false
    else if a == [] then true
    else a[0] < b[0] || (a[0] == b[0] && Before(a[1..], b[1..]))
  }

  lemma {:induction false} BeforeTotal(a: string, b: string)
    ensures a == b || Before(a, b) || Before(b, a)
    ensures !(Before(a, b) && Before(b, a))
    ensures !Before(a, a)
    decreases |a|
  {
    if a == [] {
    } else {
      BeforeTotal(a[1..], if b == [] then [] else b[1..]);
      if b != [] {
        assert a == [a[0]] + a[1..] && b == [b[0]] + b[1..];
      }
    }
  }

  lemma {:induction false} BeforeTransitive(a: string, b: string, c: string)
    requires Before(a, b) && Before(b, c)
    ensures Before(a, c)
    decreases |a|
  {
    if a == [] {
    } else if a[0] == b[0] == c[0] {
      BeforeTransitive(a[1..], b[1..], c[1..]);
    }
  }

  // The texts agree before position `k`, where one ends or their characters differ.
  predicate DifferAt(a: string, b: string, k: nat) {
    && k <= |a| && k < |b| && a[..k] == b[..k]
    && (k == |a| || a[k] < b[k])
  }

  lemma FirstAgree(a: string, b: string, k: nat)
    requires 0 < k <= |a| && k <= |b| && a[..k] == b[..k]
    ensures a[0] == b[0]
  {
    assert a[..k][0] == a[0] && b[..k][0] == b[0];
  }

  // One text comes before another if it is a proper beginning of it, or has the smaller
  // character where they first differ.
  lemma {:induction false} BeforeExactly(a: string, b: string)
    ensures Before(a, b) <==> exists k: nat :: DifferAt(a, b, k)
    decreases |a|
  {
    if b == [] {
    } else if a == [] || a[0] != b[0] {
      if a == [] || a[0] < b[0] {
        assert DifferAt(a, b, 0);
      }
      forall k: nat | DifferAt(a, b, k)
        ensures k == 0
      {
        if k > 0 {
          FirstAgree(a, b, k);
        }
      }
    } else {
      BeforeExactly(a[1..], b[1..]);
      forall k: nat | DifferAt(a[1..], b[1..], k)
        ensures DifferAt(a, b, k + 1)
      {
        assert a[..k + 1] == [a[0]] + a[1..][..k] && b[..k + 1] == [b[0]] + b[1..][..k];
      }
      forall k: nat | DifferAt(a, b, k)
        ensures k >= 1 && DifferAt(a[1..], b[1..], k - 1)
      {
        assert a[..k][1..] == a[1..][..k - 1] && b[..k][1..] == b[1..][..k - 1];
      }
      if Before(a, b) {
        var k: nat :| DifferAt(a[1..], b[1..], k);
        assert DifferAt(a, b, k + 1);
      }
    }
  }
}

/** Decimal numerals as Python's `str(int)` writes them. */
module DecimalText {

  predicate IsDigit(c: char) {
    '0' <= c <= '9'
  }

  predicate AllDigits(s: string) {
    forall i :: 0 <= i < |s| ==> IsDigit(s[i])
  }

  function DigitChar(d: nat): (c: char)
    requires d < 10
    ensures IsDigit(c) && DigitValue(c) == d
  {
    (d + '0' as int) as char
  }

  function DigitValue(c: char): (d: nat)
    requires IsDigit(c)
    ensures d < 10
  {
    c as int - '0' as int
  }

  function Digits(n: nat): (s: string)
    ensures |s| >= 1 && AllDigits(s)
  {
    if n < 10 then [DigitChar(n)] else Digits(n / 10) + [DigitChar(n % 10)]
  }

  function ValueOf(s: string): nat
    requires AllDigits(s)
  {
    if s == [] then 0 else ValueOf(s[..|s| - 1]) * 10 + DigitValue(s[|s| - 1])
  }

  // Reading a printed numeral gives the number back.
  lemma {:induction false} DigitsRoundTrip(n: nat)
    ensures ValueOf(Digits(n)) == n
  {
    if n < 10 {
      var s := Digits(n);
      assert s[..|s| - 1] == [];
    } else {
      DigitsRoundTrip(n / 10);
      var s := Digits(n);
      assert s[..|s| - 1] == Digits(n / 10);
    }
  }

  // A number below 10^k takes at most k digits.
  lemma {:induction false} DigitsLength(n: nat, k: nat)
    requires 1 <= k && n < Power10(k)
    ensures |Digits(n)| <= k
  {
    if n < 10 {
    } else {
      DigitsLength(n / 10, k - 1);
    }
  }

  // Numerals only get longer, and by at most one digit per step.
  lemma {:induction false} DigitsGrowth(n: nat)
    ensures |Digits(n)| <= |Digits(n + 1)| <= |Digits(n)| + 1
  {
    if n < 10 {
    } else {
      if n % 10 == 9 {
        assert (n + 1) / 10 == n / 10 + 1;
        DigitsGrowth(n / 10);
      } else {
        assert (n + 1) / 10 == n / 10;
      }
    }
  }

  function Power10(k: nat): (p: nat)
    ensures p >= 1
  {
    if k == 0 then 1 else 10 * Power10(k - 1)
  }

  function IntText(i: int): (s: string)
    ensures |s| >= 1
    ensures forall k :: 0 <= k < |s| ==> IsDigit(s[k]) || s[k] == '-'
  {
    if i < 0 then ['-'] + Digits(-i) else Digits(i)
  }

  lemma IntTextSign(i: int)
    ensures IntText(i)[0] == '-' <==> i < 0
  {
    assert IsDigit(Digits(if i < 0 then -i else i)[0]);
  }

  lemma IntTextInjective(i: int, j: int)
    requires IntText(i) == IntText(j)
    ensures i == j
  {
    IntTextSign(i);
    IntTextSign(j);
    DigitsRoundTrip(if i < 0 then -i else i);
    DigitsRoundTrip(if j < 0 then -j else j);
    if i < 0 {
      assert Digits(-i) == IntText(i)[1..] == IntText(j)[1..] == Digits(-j);
    }
  }

  lemma IntTextTail(i: int)
    ensures forall k :: 1 <= k < |IntText(i)| ==> IsDigit(IntText(i)[k])
  {
  }

  // A printed integer ends where the next hyphen stands.
  lemma IntTextSplits(i: int, j: int, a: string, b: string)
    requires a != [] && b != [] && a[0] == '-' && b[0] == '-'
    requires IntText(i) + a == IntText(j) + b
    ensures i == j && a == b
  {
    var s, t := IntText(i), IntText(j);
    IntTextTail(i);
    IntTextTail(j);
    assert (s + a)[|s|] == a[0] && (t + b)[|t|] == b[0];
    assert (s + a)[..|s|] == s && (t + b)[..|t|] == t;
    assert (s + a)[|s|..] == a && (t + b)[|t|..] == b;
    IntTextInjective(i, j);
  }

  lemma {:induction false} NoLeadingZero(n: nat)
    requires n >= 1
    ensures Digits(n)[0] != '0'
  {
    if n < 10 {
    } else {
      NoLeadingZero(n / 10);
    }
  }
}

/** SHA-256 digests as their callers see them. */
module HexDigests {
  import opened DecimalText

  predicate HexText(s: string) {
    |s| == 64 && forall i :: 0 <= i < |s| ==> IsDigit(s[i]) || 'a' <= s[i] <= 'f'
  }

  type HexDigest = s: string | HexText(s) witness seq(64, _ => '0')
}
