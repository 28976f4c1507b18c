/** The size-bounded summary of validated ADK inputs. */
module AdkSummary {
  import opened Common
  import opened DecimalText
  import opened HexDigests
  import opened CanonicalJson
  import opened TextOrder
  import opened AdkInputs
  import opened Utf8

  const MAX_ADK_SUMMARY_BYTES := 2_048
  const MAX_ADK_SUMMARY_KEYS := 8

  datatype SummaryError = Invalid(error: InputError) | SummaryTooLarge

  datatype Summary = Summary(report: InputReport, shapes: seq<Field>, omitted: nat, digest: HexDigest)

  function Shape(v: Json): string {
    match v
    case Object(fields) => "object:" + Digits(|fields|)
    case Array(items) => "list:" + Digits(|items|)
    case Null => "null"
    case Bool(_) => "boolean"
    case Number(_) => "number"
    case Text(_) => "string"
  }

  function ShapeFields(fields: seq<Field>): (r: seq<Field>)
    ensures |r| == |fields|
    ensures forall i :: 0 <= i < |fields| ==> r[i] == Field(fields[i].key, Text(Shape(fields[i].value)))
  {
    seq(|fields|, i requires 0 <= i < |fields| => Field(fields[i].key, Text(Shape(fields[i].value))))
  }

  function Count(n: nat): Json {
    Number(Digits(n))
  }

  // The summary as a JSON object, in the order the program fills it.
  function SummaryJson(s: Summary): Json {
    Object([
      Field("serialized_bytes", Count(s.report.serializedBytes)),
      Field("node_count", Count(s.report.nodeCount)),
      Field("key_count", Count(s.report.keyCount)),
      Field("max_depth", Count(s.report.maxDepth)),
      Field("top_level_shapes", Object(s.shapes)),
      Field("omitted_top_level_key_count", Count(s.omitted)),
      Field("input_digest", Text(s.digest))
    ])
  }

  function SummaryBytes(s: Summary): nat {
    Utf8Length(CanonicalText(SummaryJson(s)))
  }

  // The inputs' top-level fields in key order.
  function SortedFields(inputs: Input): seq<Field>
    requires inputs.DictInput?
  {
    SortFields(ToJsonFields(inputs.entries))
  }

  // The summary that shows the first `shown` keys and counts the others.
  function SummaryOf(sha: string -> HexDigest, inputs: Input, shown: nat): Summary
    requires inputs.DictInput? && shown <= |SortedFields(inputs)|
  {
    var fields := SortedFields(inputs);
    Summary(Report(inputs), ShapeFields(fields)[..shown], |fields| - shown, sha(CanonicalText(ToJson(inputs))))
  }

  // ------------------------------------------------------------ sizes of text

  lemma {:induction false} Utf8Append(a: string, b: string)
    ensures Utf8Length(a + b) == Utf8Length(a) + Utf8Length(b)
  {
    if a == [] {
      assert a + b == b;
    } else {
      assert (a + b)[1..] == a[1..] + b;
      Utf8Append(a[1..], b);
    }
  }

  predicate PlainChar(c: char) {
    ' ' <= c <= '~' && c != '\"' && c != '\\'
  }

  predicate Plain(s: string) {
    forall i :: 0 <= i < |s| ==> PlainChar(s[i])
  }

  lemma {:induction false} PlainSize(s: string)
    requires Plain(s)
    ensures Escape(s) == s && Utf8Length(s) == |s|
  {
    if s == [] {
    } else {
      PlainSize(s[1..]);
    }
  }

  lemma PlainTextSize(s: string)
    requires Plain(s)
    ensures Utf8Length(PrintText(s)) == |s| + 2
  {
    PlainSize(s);
    Utf8Append(['\"'], s);
    Utf8Append(['\"'] + s, ['\"']);
    assert Utf8Length("\"") == 1;
  }

  // Bytes of a field together with the comma or brace after it.
  function FieldBytes(f: Field): nat {
    Utf8Length(PrintField(f)) + 1
  }

  function FieldsBytes(fields: seq<Field>): nat {
    if fields == [] then 0 else FieldBytes(fields[0]) + FieldsBytes(fields[1..])
  }

  lemma {:induction false} PrintFieldsBytes(fields: seq<Field>)
    requires fields != []
    ensures Utf8Length(PrintFields(fields)) == FieldsBytes(fields)
  {
    if |fields| == 1 {
      Utf8Append(PrintField(fields[0]), ['}']);
      assert Utf8Length("}") == 1;
    } else {
      var tail := PrintFields(fields[1..]);
      PrintFieldsBytes(fields[1..]);
      Utf8Append([','], tail);
      Utf8Append(PrintField(fields[0]), [','] + tail);
      assert Utf8Length(",") == 1;
    }
  }

  function ObjectBytes(fields: seq<Field>): nat {
    if fields == [] then 2 else 1 + FieldsBytes(fields)
  }

  lemma PrintObjectBytes(fields: seq<Field>)
    ensures Utf8Length(Print(Object(fields))) == ObjectBytes(fields)
  {
    if fields == [] {
      assert Print(Object(fields)) == ['{'] + ['}'];
      Utf8Append(['{'], ['}']);
      assert Utf8Length("}") == 1;
    } else {
      PrintFieldsBytes(fields);
      Utf8Append(['{'], PrintFields(fields));
    }
    assert Utf8Length("{") == 1;
  }

  lemma FieldBytesSplit(f: Field)
    requires Plain(f.key)
    ensures FieldBytes(f) == |f.key| + 4 + Utf8Length(Print(f.value))
  {
    PlainTextSize(f.key);
    Utf8Append(PrintText(f.key), [':']);
    Utf8Append(PrintText(f.key) + [':'], Print(f.value));
    assert Utf8Length(":") == 1;
  }

  lemma DigitsPlain(n: nat)
    ensures Plain(Digits(n)) && Utf8Length(Print(Count(n))) == |Digits(n)|
  {
    PlainSize(Digits(n));
  }

  // --------------------------------------------------- size of a whole summary

  function OrderedFields(s: Summary): seq<Field> {
    [
      Field("input_digest", Text(s.digest)),
      Field("key_count", Count(s.report.keyCount)),
      Field("max_depth", Count(s.report.maxDepth)),
      Field("node_count", Count(s.report.nodeCount)),
      Field("omitted_top_level_key_count", Count(s.omitted)),
      Field("serialized_bytes", Count(s.report.serializedBytes)),
      Field("top_level_shapes", Object(s.shapes))
    ]
  }

  lemma CanonSortedTexts(fields: seq<Field>)
    requires StrictlySorted(fields)
    requires forall i :: 0 <= i < |fields| ==> fields[i].value.Text?
    ensures Canon(Object(fields)) == Object(fields)
  {
    assert CanonFields(fields) == fields;
    forall i, j | 0 <= i < j < |fields| ensures fields[i].key != fields[j].key {
      BeforeTotal(fields[i].key, fields[j].key);
    }
    SortSorts(fields);
    SortedUnique(SortFields(fields), fields);
  }

  // The seven keys start with seven different letters, already in order.
  predicate HeadsAscend(fields: seq<Field>) {
    && (forall i :: 0 <= i < |fields| ==> fields[i].key != [])
    && forall i, j :: 0 <= i < j < |fields| ==> fields[i].key[0] < fields[j].key[0]
  }

  lemma HeadsAscendSorted(fields: seq<Field>)
    requires HeadsAscend(fields)
    ensures StrictlySorted(fields)
  {
  }

  lemma OrderedAscends(s: Summary)
    ensures HeadsAscend(OrderedFields(s))
  {
    var g := OrderedFields(s);
    assert g[0].key[0] == 'i' && g[1].key[0] == 'k' && g[2].key[0] == 'm' && g[3].key[0] == 'n';
    assert g[4].key[0] == 'o' && g[5].key[0] == 's' && g[6].key[0] == 't';
  }

  lemma GivenIsReordering(s: Summary)
    ensures forall f :: f in SummaryJson(s).fields <==> f in OrderedFields(s)
    ensures DistinctKeys(SummaryJson(s).fields)
  {
    var p, g := SummaryJson(s).fields, OrderedFields(s);
    var order := [5, 3, 1, 2, 6, 4, 0];
    assert forall i :: 0 <= i < 7 ==> p[i] == g[order[i]];
    assert g == [p[6], p[2], p[3], p[1], p[5], p[0], p[4]];
    OrderedAscends(s);
  }

  // Sorting picks the one ascending order of the same fields.
  lemma CanonReorders(given: seq<Field>, ordered: seq<Field>)
    requires CanonFields(given) == given && DistinctKeys(given)
    requires StrictlySorted(ordered) && forall f :: f in given <==> f in ordered
    ensures Canon(Object(given)) == Object(ordered)
  {
    SortSorts(given);
    SortedUnique(SortFields(given), ordered);
  }

  lemma GivenIsCanonical(s: Summary)
    requires Canon(Object(s.shapes)) == Object(s.shapes)
    ensures CanonFields(SummaryJson(s).fields) == SummaryJson(s).fields
  {
  }

  lemma SummaryCanon(s: Summary)
    requires StrictlySorted(s.shapes)
    requires forall i :: 0 <= i < |s.shapes| ==> s.shapes[i].value.Text?
    ensures Canon(SummaryJson(s)) == Object(OrderedFields(s))
  {
    CanonSortedTexts(s.shapes);
    GivenIsCanonical(s);
    GivenIsReordering(s);
    OrderedAscends(s);
    HeadsAscendSorted(OrderedFields(s));
    CanonReorders(SummaryJson(s).fields, OrderedFields(s));
  }

  lemma FieldsBytesFrom(fields: seq<Field>, k: nat)
    requires k < |fields|
    ensures FieldsBytes(fields[k..]) == FieldBytes(fields[k]) + FieldsBytes(fields[k + 1..])
  {
    assert fields[k..][1..] == fields[k + 1..];
  }

  lemma FieldsBytesSeven(g: seq<Field>)
    requires |g| == 7
    ensures FieldsBytes(g) == FieldBytes(g[0]) + FieldBytes(g[1]) + FieldBytes(g[2]) + FieldBytes(g[3])
                              + FieldBytes(g[4]) + FieldBytes(g[5]) + FieldBytes(g[6])
  {
    FieldsBytesThree(g, 0);
    FieldsBytesThree(g, 3);
    FieldsBytesFrom(g, 6);
    assert g[0..] == g && g[7..] == [];
  }

  lemma FieldsBytesThree(g: seq<Field>, k: nat)
    requires k + 3 <= |g|
    ensures FieldsBytes(g[k..]) == FieldBytes(g[k]) + FieldBytes(g[k + 1]) + FieldBytes(g[k + 2]) + FieldsBytes(g[k + 3..])
  {
    FieldsBytesFrom(g, k);
    FieldsBytesFrom(g, k + 1);
    FieldsBytesFrom(g, k + 2);
  }

  function CountDigits(s: Summary): nat {
    |Digits(s.report.keyCount)| + |Digits(s.report.maxDepth)| + |Digits(s.report.nodeCount)|
    + |Digits(s.report.serializedBytes)|
  }

  lemma KeysPlain(s: Summary)
    ensures forall i :: 0 <= i < 7 ==> Plain(OrderedFields(s)[i].key)
  {
    FirstKeysPlain();
    LastKeysPlain();
    var g := OrderedFields(s);
    assert Plain(g[0].key) && Plain(g[1].key) && Plain(g[2].key) && Plain(g[3].key);
    assert Plain(g[4].key) && Plain(g[5].key) && Plain(g[6].key);
  }

  lemma FirstKeysPlain()
    ensures Plain("input_digest") && Plain("key_count") && Plain("max_depth") && Plain("node_count")
  {
  }

  lemma LastKeysPlain()
    ensures Plain("omitted_top_level_key_count") && Plain("serialized_bytes") && Plain("top_level_shapes")
  {
  }

  lemma KeyLengths(s: Summary)
    ensures var g := OrderedFields(s);
      && |g[0].key| == 12 && |g[1].key| == 9 && |g[2].key| == 9 && |g[3].key| == 10
      && |g[4].key| == 27 && |g[5].key| == 16 && |g[6].key| == 16
  {
  }

  lemma CountBytes(f: Field, n: nat)
    requires Plain(f.key) && f.value == Count(n)
    ensures FieldBytes(f) == |f.key| + 4 + |Digits(n)|
  {
    FieldBytesSplit(f);
    DigitsPlain(n);
  }

  predicate SummaryValues(g: seq<Field>, s: Summary) {
    && |g| == 7
    && g[0].value == Text(s.digest)
    && g[1].value == Count(s.report.keyCount)
    && g[2].value == Count(s.report.maxDepth)
    && g[3].value == Count(s.report.nodeCount)
    && g[4].value == Count(s.omitted)
    && g[5].value == Count(s.report.serializedBytes)
    && g[6].value == Object(s.shapes)
  }

  lemma SevenFieldBytes(g: seq<Field>, s: Summary)
    requires SummaryValues(g, s)
    requires forall i :: 0 <= i < 7 ==> Plain(g[i].key)
    ensures FieldsBytes(g) ==
      |g[0].key| + |g[1].key| + |g[2].key| + |g[3].key| + |g[4].key| + |g[5].key| + |g[6].key|
      + 94 + CountDigits(s) + |Digits(s.omitted)| + ObjectBytes(s.shapes)
  {
    FieldsBytesSeven(g);
    FieldBytesSplit(g[0]);
    PlainTextSize(s.digest);
    CountBytes(g[1], s.report.keyCount);
    CountBytes(g[2], s.report.maxDepth);
    CountBytes(g[3], s.report.nodeCount);
    CountBytes(g[4], s.omitted);
    CountBytes(g[5], s.report.serializedBytes);
    FieldBytesSplit(g[6]);
    PrintObjectBytes(s.shapes);
  }

  lemma OrderedBytes(s: Summary, g: seq<Field>)
    requires g == OrderedFields(s)
    ensures FieldsBytes(g) == 193 + CountDigits(s) + |Digits(s.omitted)| + ObjectBytes(s.shapes)
  {
    KeysPlain(s);
    KeyLengths(s);
    SevenFieldBytes(g, s);
  }

  lemma SummarySize(s: Summary)
    requires StrictlySorted(s.shapes)
    requires forall i :: 0 <= i < |s.shapes| ==> s.shapes[i].value.Text?
    ensures SummaryBytes(s) == 194 + CountDigits(s) + |Digits(s.omitted)| + ObjectBytes(s.shapes)
  {
    SummaryCanon(s);
    PrintObjectBytes(OrderedFields(s));
    OrderedBytes(s, OrderedFields(s));
  }

  // -------------------------------------------------------- the shrinking loop

  predicate DictOfTexts(inputs: Input) {
    && inputs.DictInput?
    && forall i, j :: 0 <= i < j < |inputs.entries| ==>
         KeyText(inputs.entries[i].key) != KeyText(inputs.entries[j].key)
  }

  lemma {:induction false} ToJsonFieldsAt(entries: seq<Entry>)
    ensures |ToJsonFields(entries)| == |entries|
    ensures forall i :: 0 <= i < |entries| ==>
      ToJsonFields(entries)[i] == Field(KeyText(entries[i].key), ToJson(entries[i].value))
  {
    if entries == [] {
    } else {
      ToJsonFieldsAt(entries[1..]);
    }
  }

  lemma SortedFieldsFacts(inputs: Input)
    requires DictOfTexts(inputs)
    ensures StrictlySorted(SortedFields(inputs)) && |SortedFields(inputs)| == |inputs.entries|
  {
    ToJsonFieldsAt(inputs.entries);
    SortSorts(ToJsonFields(inputs.entries));
  }

  lemma {:induction false} FieldsBytesLast(fields: seq<Field>)
    requires fields != []
    ensures FieldsBytes(fields) == FieldsBytes(fields[..|fields| - 1]) + FieldBytes(fields[|fields| - 1])
  {
    if |fields| <= 1 {
    } else {
      FieldsBytesLast(fields[1..]);
      assert fields[1..][..|fields| - 2] == fields[..|fields| - 1][1..];
    }
  }

  lemma TextFieldBytes(f: Field)
    requires f.value.Text?
    ensures FieldBytes(f) >= 6
  {
    Utf8Append(PrintText(f.key), [':']);
    Utf8Append(PrintText(f.key) + [':'], Print(f.value));
    QuotedBytes(f.key);
    QuotedBytes(f.value.text);
    assert Utf8Length(":") == 1;
  }

  lemma QuotedBytes(s: string)
    ensures Utf8Length(PrintText(s)) >= 2
  {
    Utf8Append(['\"'] + Escape(s), ['\"']);
    Utf8Append(['\"'], Escape(s));
    assert Utf8Length("\"") == 1;
  }

  lemma ShapesOf(sha: string -> HexDigest, inputs: Input, shown: nat)
    requires DictOfTexts(inputs) && shown <= |inputs.entries| == |SortedFields(inputs)|
    ensures var s := SummaryOf(sha, inputs, shown);
      StrictlySorted(s.shapes) && forall i :: 0 <= i < |s.shapes| ==> s.shapes[i].value.Text?
  {
    SortedFieldsFacts(inputs);
  }

  // Showing one key fewer always makes the printed summary smaller.
  lemma FewerShapesSmaller(sha: string -> HexDigest, inputs: Input, shown: nat)
    requires DictOfTexts(inputs) && shown < |inputs.entries| == |SortedFields(inputs)|
    ensures SummaryBytes(SummaryOf(sha, inputs, shown)) < SummaryBytes(SummaryOf(sha, inputs, shown + 1))
  {
    var fewer, more := SummaryOf(sha, inputs, shown), SummaryOf(sha, inputs, shown + 1);
    ShapesOf(sha, inputs, shown);
    ShapesOf(sha, inputs, shown + 1);
    SummarySize(fewer);
    SummarySize(more);
    DigitsGrowth(more.omitted);
    FieldsBytesLast(more.shapes);
    assert more.shapes[..shown] == fewer.shapes;
    TextFieldBytes(more.shapes[shown]);
  }

  // With no key shown, the summary of validated inputs always fits.
  lemma EmptySummaryFits(fold: Casefold, sha: string -> HexDigest, inputs: Input)
    requires Acceptable(fold, inputs) && DictOfTexts(inputs)
    ensures |SortedFields(inputs)| == |inputs.entries|
    ensures SummaryBytes(SummaryOf(sha, inputs, 0)) <= MAX_ADK_SUMMARY_BYTES
  {
    SortedFieldsFacts(inputs);
    var s := SummaryOf(sha, inputs, 0);
    ShapesOf(sha, inputs, 0);
    SummarySize(s);
    DepthBound(fold, inputs, 1, None);
    assert s.omitted <= s.report.keyCount;
    assert Power10(5) == 100_000 by {
      assert Power10(1) == 10 && Power10(2) == 100 && Power10(3) == 1000 && Power10(4) == 10_000;
    }
    DigitsLength(s.report.serializedBytes, 5);
    DigitsLength(s.report.nodeCount, 5);
    DigitsLength(s.report.keyCount, 5);
    DigitsLength(s.report.maxDepth, 5);
    DigitsLength(s.omitted, 5);
  }

  lemma {:induction false} DepthBound(fold: Casefold, v: Input, depth: nat, parent: Option<string>)
    requires depth >= 1 && Holds(fold, TooComplex, v, depth, parent)
    ensures Measure(v, depth).depth <= MAX_ADK_INPUT_DEPTH
    decreases v, 1
  {
    match v
    case ListInput(items) => ItemsDepthBound(fold, items, depth + 1, parent);
    case DictInput(entries) => EntriesDepthBound(fold, entries, depth + 1);
    case _ =>
  }

  lemma {:induction false} ItemsDepthBound(fold: Casefold, items: seq<Input>, depth: nat, parent: Option<string>)
    requires depth >= 1
    requires forall i :: 0 <= i < |items| ==> Holds(fold, TooComplex, items[i], depth, parent)
    ensures MeasureItems(items, depth).depth <= MAX_ADK_INPUT_DEPTH
    decreases items, 0
  {
    if items == [] {
    } else {
      DepthBound(fold, items[0], depth, parent);
      ItemsDepthBound(fold, items[1..], depth, parent);
    }
  }

  lemma {:induction false} EntriesDepthBound(fold: Casefold, entries: seq<Entry>, depth: nat)
    requires depth >= 1
    requires forall i :: 0 <= i < |entries| ==>
      Holds(fold, TooComplex, entries[i].value, depth, Some(KeyText(entries[i].key)))
    ensures MeasureEntries(entries, depth).depth <= MAX_ADK_INPUT_DEPTH
    decreases entries, 0
  {
    if entries == [] {
    } else {
      assert entries[0].value < entries[0];
      DepthBound(fold, entries[0].value, depth, Some(KeyText(entries[0].key)));
      EntriesDepthBound(fold, entries[1..], depth);
    }
  }

  predicate Fits(sha: string -> HexDigest, inputs: Input, shown: nat)
    requires inputs.DictInput? && shown <= |SortedFields(inputs)|
  {
    SummaryBytes(SummaryOf(sha, inputs, shown)) <= MAX_ADK_SUMMARY_BYTES
  }

  // `shown` is the longest run of leading keys, among the first `most`, whose summary fits.
  predicate LongestFit(sha: string -> HexDigest, inputs: Input, shown: nat, most: nat)
    requires inputs.DictInput? && most <= |SortedFields(inputs)|
  {
    shown <= most && forall k :: 0 <= k <= most ==> (Fits(sha, inputs, k) <==> k <= shown)
  }

  lemma OneFewerFits(sha: string -> HexDigest, inputs: Input, shown: nat)
    requires DictOfTexts(inputs) && shown < |inputs.entries| == |SortedFields(inputs)|
    requires Fits(sha, inputs, shown + 1)
    ensures Fits(sha, inputs, shown)
  {
    FewerShapesSmaller(sha, inputs, shown);
  }

  lemma {:induction false} SmallerFits(sha: string -> HexDigest, inputs: Input, shown: nat, k: nat)
    requires DictOfTexts(inputs) && k <= shown <= |inputs.entries| == |SortedFields(inputs)|
    requires Fits(sha, inputs, shown)
    ensures Fits(sha, inputs, k)
    decreases shown - k
  {
    if k == shown {
    } else {
      SmallerFits(sha, inputs, shown, k + 1);
      OneFewerFits(sha, inputs, k);
    }
  }

  lemma SmallerStillFit(sha: string -> HexDigest, inputs: Input, shown: nat)
    requires DictOfTexts(inputs) && shown <= |inputs.entries| == |SortedFields(inputs)|
    requires Fits(sha, inputs, shown)
    ensures forall k :: 0 <= k <= shown ==> Fits(sha, inputs, k)
  {
    forall k | 0 <= k <= shown
      ensures Fits(sha, inputs, k)
    {
      SmallerFits(sha, inputs, shown, k);
    }
  }

  method SelectShapes(selected: seq<Field>) returns (shapes: seq<Field>)
    ensures shapes == ShapeFields(selected)
  {
    shapes := [];
    var i := 0;
    while i < |selected|
      invariant 0 <= i <= |selected|
      invariant shapes == ShapeFields(selected)[..i]
    {
      shapes := shapes + [Field(selected[i].key, Text(Shape(selected[i].value)))];
      i := i + 1;
    }
  }

  // The summary shows its first so many keys.
  predicate Shows(sha: string -> HexDigest, inputs: Input, summary: Summary, shown: nat) {
    && DictOfTexts(inputs) && shown <= |inputs.entries| == |SortedFields(inputs)|
    && |summary.shapes| == shown && summary == SummaryOf(sha, inputs, shown)
  }

  function Fewer(summary: Summary, shown: nat, omitted: nat): Summary
    requires shown <= |summary.shapes|
  {
    summary.(shapes := summary.shapes[..shown], omitted := omitted)
  }

  lemma FewerShown(sha: string -> HexDigest, inputs: Input, summary: Summary, shown: nat)
    requires Shows(sha, inputs, summary, shown + 1)
    ensures Shows(sha, inputs, Fewer(summary, shown, |inputs.entries| - shown), shown)
  {
    var shapes := ShapeFields(SortedFields(inputs));
    assert shapes[..shown + 1][..shown] == shapes[..shown];
  }

  // No longer run of keys fits.
  predicate NoneFits(sha: string -> HexDigest, inputs: Input, above: nat, most: nat)
    requires inputs.DictInput? && most <= |SortedFields(inputs)|
  {
    forall k :: above < k <= most ==> !Fits(sha, inputs, k)
  }

  lemma DropOne(sha: string -> HexDigest, inputs: Input, summary: Summary, shown: nat, most: nat)
    requires Shows(sha, inputs, summary, shown + 1) && shown < most <= |SortedFields(inputs)|
    requires NoneFits(sha, inputs, shown + 1, most) && SummaryBytes(summary) > MAX_ADK_SUMMARY_BYTES
    ensures Shows(sha, inputs, Fewer(summary, shown, |inputs.entries| - shown), shown)
    ensures NoneFits(sha, inputs, shown, most)
  {
    FewerShown(sha, inputs, summary, shown);
    assert !Fits(sha, inputs, shown + 1);
  }

  lemma ShownFits(sha: string -> HexDigest, inputs: Input, summary: Summary, shown: nat)
    requires Shows(sha, inputs, summary, shown) && SummaryBytes(summary) <= MAX_ADK_SUMMARY_BYTES
    ensures Fits(sha, inputs, shown)
  {
  }

  // Drops the last shown key while the printed summary is too large.
  method ShrinkToFit(sha: string -> HexDigest, inputs: Input, full: Summary) returns (summary: Summary)
    requires Shows(sha, inputs, full, |full.shapes|)
    ensures |summary.shapes| <= |full.shapes| && Shows(sha, inputs, summary, |summary.shapes|)
    ensures Fits(sha, inputs, |summary.shapes|) || summary.shapes == []
    ensures NoneFits(sha, inputs, |summary.shapes|, |full.shapes|)
  {
    var shapes := full.shapes;
    summary := full;
    while SummaryBytes(summary) > MAX_ADK_SUMMARY_BYTES && shapes != []
      invariant shapes == summary.shapes && |shapes| <= |full.shapes|
      invariant Shows(sha, inputs, summary, |shapes|)
      invariant NoneFits(sha, inputs, |shapes|, |full.shapes|)
      decreases |shapes|
    {
      DropOne(sha, inputs, summary, |shapes| - 1, |full.shapes|);
      shapes := shapes[..|shapes| - 1];
      summary := summary.(shapes := shapes, omitted := |inputs.entries| - |shapes|);
    }
    if shapes != [] {
      ShownFits(sha, inputs, summary, |shapes|);
    }
  }

  // What a dictionary guarantees: no text key occurs twice.
  predicate ADictionary(inputs: Input) {
    inputs.DictInput? ==>
      forall i, j :: 0 <= i < j < |inputs.entries| && inputs.entries[i].key.TextKey? ==>
        inputs.entries[i].key != inputs.entries[j].key
  }

  lemma AcceptedKeysAreTexts(fold: Casefold, inputs: Input)
    requires Acceptable(fold, inputs) && ADictionary(inputs)
    ensures DictOfTexts(inputs)
  {
    assert Holds(fold, KeyInvalid, inputs, 1, None);
    forall i, j | 0 <= i < j < |inputs.entries|
      ensures KeyText(inputs.entries[i].key) != KeyText(inputs.entries[j].key)
    {
      assert GoodKey(inputs.entries[i].key) && GoodKey(inputs.entries[j].key);
    }
  }

  // Keeps the longest run of leading keys, at most eight, whose summary fits;
  // for accepted inputs the final size error is never raised.
  method SummarizeInputs(fold: Casefold, sha: string -> HexDigest, inputs: Input)
    returns (r: Result<Summary, SummaryError>)
    requires ADictionary(inputs)
    ensures r.Ok? <==> Acceptable(fold, inputs)
    ensures r.Err? ==> r.error.Invalid? && AdkInputs.Breaks(fold, r.error.error, inputs)
    ensures r.Ok? ==>
      && |r.value.shapes| <= |SortedFields(inputs)|
      && r.value == SummaryOf(sha, inputs, |r.value.shapes|)
      && LongestFit(sha, inputs, |r.value.shapes|, Least(MAX_ADK_SUMMARY_KEYS, |SortedFields(inputs)|))
      && |r.value.shapes| + r.value.omitted == |inputs.entries|
  {
    var valid := ValidateInputs(fold, inputs);
    if valid.Err? {
      return Err(Invalid(valid.error));
    }
    AcceptedKeysAreTexts(fold, inputs);
    SortedFieldsFacts(inputs);
    var fields := SortedFields(inputs);
    var selected := fields[..Least(MAX_ADK_SUMMARY_KEYS, |fields|)];
    var shapes := SelectShapes(selected);
    assert shapes == ShapeFields(fields)[..|selected|];
    var full := Summary(valid.value, shapes, |fields| - |selected|, sha(CanonicalText(ToJson(inputs))));
    var summary := ShrinkToFit(sha, inputs, full);
    EmptySummaryFits(fold, sha, inputs);
    if SummaryBytes(summary) > MAX_ADK_SUMMARY_BYTES {
      return Err(SummaryTooLarge);
    }
    SmallerStillFit(sha, inputs, |summary.shapes|);
    r := Ok(summary);
  }

  // ------------------------------------------------------------------ what is shown

  /** A shape names the kind of a value, and how many entries an object or a list has. */
  lemma ShapeExactly(v: Json)
    ensures v.Null? ==> Shape(v) == "null"
    ensures v.Bool? ==> Shape(v) == "boolean"
    ensures v.Number? ==> Shape(v) == "number"
    ensures v.Text? ==> Shape(v) == "string"
    ensures v.Object? ==> exists digits :: Shape(v) == "object:" + digits && AllDigits(digits) && ValueOf(digits) == |v.fields|
    ensures v.Array? ==> exists digits :: Shape(v) == "list:" + digits && AllDigits(digits) && ValueOf(digits) == |v.items|
  {
    match v
    case Object(fields) => DigitsRoundTrip(|fields|);
    case Array(items) => DigitsRoundTrip(|items|);
    case _ =>
  }

  // A shape shown is that of the input under its key.
  lemma ShapesShown(sha: string -> HexDigest, inputs: Input, shown: nat, k: nat) returns (i: nat)
    requires DictOfTexts(inputs) && k < shown <= |inputs.entries| == |SortedFields(inputs)|
    ensures var s := SummaryOf(sha, inputs, shown);
      && i < |inputs.entries| && s.shapes[k].key == KeyText(inputs.entries[i].key)
      && s.shapes[k].value == Text(Shape(ToJson(inputs.entries[i].value)))
  {
    var fields := ToJsonFields(inputs.entries);
    ToJsonFieldsAt(inputs.entries);
    SortSorts(fields);
    assert SortedFields(inputs)[k] in SortFields(fields);
    i :| i < |fields| && fields[i] == SortedFields(inputs)[k];
  }
}
