/** The length-prefixed projection of a submission, whose hash identifies the evidence. */
module Projection {
  import opened Common
  import opened DecimalText
  import opened Utf8

  const SPACE: Byte := 0x20
  const NEWLINE: Byte := 0x0A

  // "CODEGEN-SUBJECT/1\n", "PATH" and "CONTENT"
  const HEADER: Bytes := Ascii("CODEGEN-SUBJECT/1") + [NEWLINE]
  const PATH_TAG: Bytes := Ascii("PATH")
  const CONTENT_TAG: Bytes := Ascii("CONTENT")

  function Ascii(s: string): (b: Bytes)
    requires forall i :: 0 <= i < |s| ==> s[i] < '\U{80}'
    ensures |b| == |s|
  {
    seq(|s|, i requires 0 <= i < |s| && s[i] < '\U{80}' => s[i] as Byte)
  }

  function LengthPrefixed(tag: Bytes, value: Bytes): Bytes {
    tag + [SPACE] + Ascii(Digits(|value|)) + [NEWLINE] + value + [NEWLINE]
  }

  datatype Subject = Subject(path: Bytes, content: Bytes)

  function Record(s: Subject): Bytes {
    LengthPrefixed(PATH_TAG, s.path) + LengthPrefixed(CONTENT_TAG, s.content)
  }

  function Records(subjects: seq<Subject>): Bytes {
    if subjects == [] then []
    else Records(subjects[..|subjects| - 1]) + Record(subjects[|subjects| - 1])
  }

  function Project(subjects: seq<Subject>): Bytes {
    HEADER + Records(subjects)
  }

  // ------------------------------------------------------------------ reading back

  predicate DigitByte(b: Byte) {
    0x30 <= b <= 0x39
  }

  function DigitRun(b: Bytes): (n: nat)
    ensures n <= |b|
    ensures forall i :: 0 <= i < n ==> DigitByte(b[i])
  {
    if b == [] || !DigitByte(b[0]) then 0 else 1 + DigitRun(b[1..])
  }

  function NumberOf(b: Bytes): nat
    requires forall i :: 0 <= i < |b| ==> DigitByte(b[i])
  {
    ValueOf(AsText(b))
  }

  function AsText(b: Bytes): (s: string)
    ensures |s| == |b|
    ensures forall i :: 0 <= i < |b| ==> s[i] as int == b[i] as int && (DigitByte(b[i]) ==> IsDigit(s[i]))
  {
    seq(|b|, i requires 0 <= i < |b| => b[i] as char)
  }

  // A field and the bytes after it.
  function ParseField(tag: Bytes, b: Bytes): (r: Option<(Bytes, Bytes)>)
    ensures r.Some? ==> |r.value.1| < |b|
  {
    if !(tag + [SPACE] <= b) then None
    else ParseSized(b[|tag| + 1..])
  }

  function ParseSized(b: Bytes): (r: Option<(Bytes, Bytes)>)
    ensures r.Some? ==> |r.value.1| < |b|
  {
    var n := DigitRun(b);
    if n == 0 || n == |b| || b[n] != NEWLINE then None
    else
      var (size, rest) := (NumberOf(b[..n]), b[n + 1..]);
      if size >= |rest| || rest[size] != NEWLINE then None
      else Some((rest[..size], rest[size + 1..]))
  }

  function ParseRecords(b: Bytes): Option<seq<Subject>>
    decreases |b|
  {
    if b == [] then Some([])
    else
      match ParseField(PATH_TAG, b)
      case None => None
      case Some((path, afterPath)) =>
        match ParseField(CONTENT_TAG, afterPath)
        case None => None
        case Some((content, rest)) =>
          match ParseRecords(rest)
          case None => None
          case Some(subjects) => Some([Subject(path, content)] + subjects)
  }

  function ParseProjection(b: Bytes): Option<seq<Subject>> {
    if HEADER <= b then ParseRecords(b[|HEADER|..]) else None
  }

  // -------------------------------------------------------------------- round trips

  lemma {:induction false} DigitRunExact(digits: Bytes, rest: Bytes)
    requires forall i :: 0 <= i < |digits| ==> DigitByte(digits[i])
    requires rest != [] && !DigitByte(rest[0])
    ensures DigitRun(digits + rest) == |digits|
  {
    if digits == [] {
      assert digits + rest == rest;
    } else {
      assert (digits + rest)[1..] == digits[1..] + rest;
      DigitRunExact(digits[1..], rest);
    }
  }

  lemma AsciiDigits(n: nat)
    ensures forall i :: 0 <= i < |Ascii(Digits(n))| ==> DigitByte(Ascii(Digits(n))[i])
    ensures NumberOf(Ascii(Digits(n))) == n
  {
    var s, b := Digits(n), Ascii(Digits(n));
    assert forall i :: 0 <= i < |s| ==> IsDigit(s[i]);
    assert AsText(b) == s;
    DigitsRoundTrip(n);
  }

  lemma Splits(front: Bytes, rest: Bytes)
    ensures var b := front + ([NEWLINE] + rest);
      |b| == |front| + 1 + |rest| && b[..|front|] == front && b[|front|] == NEWLINE && b[|front| + 1..] == rest
  {
  }

  // `digits` is any numeral for the length of `value`.
  lemma SizedRoundTrip(digits: Bytes, value: Bytes, rest: Bytes)
    requires digits != [] && forall i :: 0 <= i < |digits| ==> DigitByte(digits[i])
    requires NumberOf(digits) == |value|
    ensures ParseSized(digits + ([NEWLINE] + (value + ([NEWLINE] + rest)))) == Some((value, rest))
  {
    var tail := value + ([NEWLINE] + rest);
    DigitRunExact(digits, [NEWLINE] + tail);
    Splits(digits, tail);
    Splits(value, rest);
  }

  // Whatever the value holds, a field reads back and leaves the rest alone.
  lemma FieldRoundTrip(tag: Bytes, value: Bytes, rest: Bytes)
    ensures ParseField(tag, LengthPrefixed(tag, value) + rest) == Some((value, rest))
  {
    var digits := Ascii(Digits(|value|));
    AsciiDigits(|value|);
    var sized := digits + ([NEWLINE] + (value + ([NEWLINE] + rest)));
    assert LengthPrefixed(tag, value) + rest == (tag + [SPACE]) + sized;
    assert ((tag + [SPACE]) + sized)[|tag| + 1..] == sized;
    SizedRoundTrip(digits, value, rest);
  }

  lemma {:induction false} RecordsFront(subjects: seq<Subject>)
    requires subjects != []
    ensures Records(subjects) == Record(subjects[0]) + Records(subjects[1..])
  {
    var n := |subjects|;
    if n <= 1 {
    } else {
      var (front, back) := (subjects[..n - 1], subjects[1..]);
      RecordsFront(front);
      assert back[..n - 2] == front[1..] && back[n - 2] == subjects[n - 1];
      assert Records(back) == Records(front[1..]) + Record(subjects[n - 1]);
      Regroup(Record(subjects[0]), Records(front[1..]), Record(subjects[n - 1]));
    }
  }

  lemma RecordRoundTrip(s: Subject, rest: Bytes)
    ensures ParseField(PATH_TAG, Record(s) + rest) == Some((s.path, LengthPrefixed(CONTENT_TAG, s.content) + rest))
    ensures ParseField(CONTENT_TAG, LengthPrefixed(CONTENT_TAG, s.content) + rest) == Some((s.content, rest))
    ensures Record(s) + rest != []
  {
    var (path, content) := (LengthPrefixed(PATH_TAG, s.path), LengthPrefixed(CONTENT_TAG, s.content));
    Regroup(path, content, rest);
    FieldRoundTrip(PATH_TAG, s.path, content + rest);
    FieldRoundTrip(CONTENT_TAG, s.content, rest);
  }

  lemma {:induction false} RecordsRoundTrip(subjects: seq<Subject>)
    ensures ParseRecords(Records(subjects)) == Some(subjects)
  {
    if subjects == [] {
    } else {
      RecordsFront(subjects);
      RecordRoundTrip(subjects[0], Records(subjects[1..]));
      RecordsRoundTrip(subjects[1..]);
      assert [Subject(subjects[0].path, subjects[0].content)] + subjects[1..] == subjects;
    }
  }

  /** Parsing a projection yields exactly the ordered list of paths and contents. */
  lemma ProjectionRoundTrip(subjects: seq<Subject>)
    ensures ParseProjection(Project(subjects)) == Some(subjects)
  {
    RecordsRoundTrip(subjects);
    assert Project(subjects)[|HEADER|..] == Records(subjects);
  }

  lemma ProjectionInjective(s: seq<Subject>, t: seq<Subject>)
    requires Project(s) == Project(t)
    ensures s == t
  {
    ProjectionRoundTrip(s);
    ProjectionRoundTrip(t);
  }
}
