/**
 * Canonical JSON: sorted keys, compact separators, no ASCII escaping.
 * Numbers are opaque lexemes over the characters section 6 of RFC 8259 allows.
 * An object keeps its fields in insertion order, as a Python dict does.
 */
module CanonicalJson {
  import opened Common
  import opened DecimalText
  import opened TextOrder

  datatype Json =
    | Null
    | Bool(truth: bool)
    | Number(lexeme: string)
    | Text(text: string)
    | Array(items: seq<Json>)
    | Object(fields: seq<Field>)

  datatype Field = Field(key: string, value: Json)

  predicate NumberChar(c: char) {
    IsDigit(c) || c in "+-.eE"
  }

  predicate NumberLexeme(s: string) {
    && s != []
    && (s[0] == '-' || IsDigit(s[0]))
    && forall i :: 0 <= i < |s| ==> NumberChar(s[i])
  }

  predicate DistinctKeys(fields: seq<Field>) {
    forall i, j :: 0 <= i < j < |fields| ==> fields[i].key != fields[j].key
  }

  predicate WellFormed(v: Json) {
    match v
    case Number(lexeme) => NumberLexeme(lexeme)
    case Array(items) => forall i :: 0 <= i < |items| ==> WellFormed(items[i])
    case Object(fields) =>
      && DistinctKeys(fields)
      && forall i :: 0 <= i < |fields| ==> WellFormed(fields[i].value)
    case _ => true
  }

  // Equality of JSON values: objects compare as dictionaries.
  ghost predicate Same(v: Json, w: Json)
    decreases v
  {
    match (v, w)
    case (Array(xs), Array(ys)) =>
      && |xs| == |ys|
      && forall i :: 0 <= i < |xs| ==> Same(xs[i], ys[i])
    case (Object(fs), Object(gs)) =>
      && |fs| == |gs|
      && forall i :: 0 <= i < |fs| ==> HasSame(fs[i], gs)
    case _ => v == w
  }

  ghost predicate HasSame(f: Field, gs: seq<Field>)
    decreases f
  {
    exists j :: 0 <= j < |gs| && f.key == gs[j].key && Same(f.value, gs[j].value)
  }

  // ---------------------------------------------------------------- printing

  function HexDigit(d: nat): (c: char)
    requires d < 16
  {
    if d < 10 then DigitChar(d) else (d - 10 + 'a' as int) as char
  }

  // The escapes of `json.dumps(..., ensure_ascii=False)`.
  function EscapeChar(c: char): (s: string)
  {
    if c == '\"' then ['\\', '\"']
    else if c == '\\' then ['\\', '\\']
    else if c == '\n' then ['\\', 'n']
    else if c == '\r' then ['\\', 'r']
    else if c == '\t' then ['\\', 't']
    else if c == 8 as char then ['\\', 'b']
    else if c == 12 as char then ['\\', 'f']
    else if c < ' ' then ['\\', 'u', '0', '0', HexDigit(c as int / 16), HexDigit(c as int % 16)]
    else [c]
  }

  function Escape(s: string): string {
    if s == [] then [] else EscapeChar(s[0]) + Escape(s[1..])
  }

  function PrintText(s: string): string {
    ['\"'] + Escape(s) + ['\"']
  }

  // Printing with the fields in the order given.
  function Print(v: Json): (s: string)
    ensures s != []
    decreases v
  {
    match v
    case Null => "null"
    case Bool(truth) => if truth then "true" else "false"
    case Number(lexeme) => if lexeme == [] then "0" else lexeme
    case Text(text) => PrintText(text)
    case Array(items) => if items == [] then "[]" else ['['] + PrintItems(items)
    case Object(fields) => if fields == [] then "{}" else ['{'] + PrintFields(fields)
  }

  // The items of a non-empty array together with the closing bracket.
  function PrintItems(items: seq<Json>): string
    requires items != []
    decreases items
  {
    Print(items[0]) + if |items| == 1 then [']'] else [','] + PrintItems(items[1..])
  }

  function PrintField(f: Field): string
    decreases f
  {
    PrintText(f.key) + [':'] + Print(f.value)
  }

  function PrintFields(fields: seq<Field>): string
    requires fields != []
    decreases fields
  {
    PrintField(fields[0]) + if |fields| == 1 then ['}'] else [','] + PrintFields(fields[1..])
  }

  // ----------------------------------------------------------------- sorting

  predicate StrictlySorted(fields: seq<Field>) {
    forall i, j :: 0 <= i < j < |fields| ==> Before(fields[i].key, fields[j].key)
  }

  function Insert(f: Field, sorted: seq<Field>): seq<Field> {
    if sorted == [] || !Before(sorted[0].key, f.key) then [f] + sorted
    else [sorted[0]] + Insert(f, sorted[1..])
  }

  function SortFields(fields: seq<Field>): seq<Field> {
    if fields == [] then [] else Insert(fields[0], SortFields(fields[1..]))
  }

  function Canon(v: Json): Json
    decreases v
  {
    match v
    case Array(items) => Array(CanonItems(items))
    case Object(fields) => Object(SortFields(CanonFields(fields)))
    case _ => v
  }

  function CanonItems(items: seq<Json>): (r: seq<Json>)
    ensures |r| == |items|
    ensures forall i :: 0 <= i < |items| ==> r[i] == Canon(items[i])
    decreases items
  {
    if items == [] then [] else [Canon(items[0])] + CanonItems(items[1..])
  }

  function CanonFields(fields: seq<Field>): (r: seq<Field>)
    ensures |r| == |fields|
    ensures forall i :: 0 <= i < |fields| ==> r[i] == Field(fields[i].key, Canon(fields[i].value))
    decreases fields
  {
    if fields == [] then []
    else [Field(fields[0].key, Canon(fields[0].value))] + CanonFields(fields[1..])
  }

  function CanonicalText(v: Json): string {
    Print(Canon(v))
  }

  // ----------------------------------------------------------------- parsing

  datatype Parsed<T> = Parsed(value: T, rest: string)

  function ParseHex(c: char): Option<nat> {
    if IsDigit(c) then Some(DigitValue(c))
    else if 'a' <= c <= 'f' then Some(c as int - 'a' as int + 10)
    else None
  }

  // One possibly escaped character, as the canonical printer writes it.
  function ParseChar(s: string): (r: Option<Parsed<char>>)
    requires s != []
    ensures r.Some? ==> |r.value.rest| < |s|
  {
    if s[0] != '\\' then Some(Parsed(s[0], s[1..]))
    else if |s| < 2 then None
    else if s[1] == '\"' || s[1] == '\\' then Some(Parsed(s[1], s[2..]))
    else if s[1] == 'n' then Some(Parsed('\n', s[2..]))
    else if s[1] == 'r' then Some(Parsed('\r', s[2..]))
    else if s[1] == 't' then Some(Parsed('\t', s[2..]))
    else if s[1] == 'b' then Some(Parsed(8 as char, s[2..]))
    else if s[1] == 'f' then Some(Parsed(12 as char, s[2..]))
    else if |s| >= 6 && s[1] == 'u' && s[2] == '0' && s[3] == '0' then
      match (ParseHex(s[4]), ParseHex(s[5]))
      case (Some(hi), Some(lo)) =>
        if hi < 2 && lo < 16 then Some(Parsed((hi * 16 + lo) as char, s[6..])) else None
      case _ => None
    else None
  }

  // The characters of a string up to and including its closing quote.
  function ParseText(s: string): (r: Option<Parsed<string>>)
    ensures r.Some? ==> |r.value.rest| < |s|
    decreases |s|
  {
    if s == [] then None
    else if s[0] == '\"' then Some(Parsed([], s[1..]))
    else match ParseChar(s)
      case None => None
      case Some(c) =>
        match ParseText(c.rest)
        case None => None
        case Some(t) => Some(Parsed([c.value] + t.value, t.rest))
  }

  function NumberPrefix(s: string): (n: nat)
    ensures n <= |s|
  {
    if s == [] || !NumberChar(s[0]) then 0 else 1 + NumberPrefix(s[1..])
  }

  function ParseWord(s: string, word: string, v: Json): (r: Option<Parsed<Json>>)
    requires word != []
    ensures r.Some? ==> |r.value.rest| < |s|
  {
    if word <= s then Some(Parsed(v, s[|word|..])) else None
  }

  function Parse(s: string): (r: Option<Parsed<Json>>)
    ensures r.Some? ==> |r.value.rest| < |s|
    decreases |s|, 1
  {
    if s == [] then None
    else if s[0] == 'n' then ParseWord(s, "null", Null)
    else if s[0] == 't' then ParseWord(s, "true", Bool(true))
    else if s[0] == 'f' then ParseWord(s, "false", Bool(false))
    else if s[0] == '\"' then
      match ParseText(s[1..])
      case None => None
      case Some(t) => Some(Parsed(Text(t.value), t.rest))
    else if s[0] == '[' then
      if |s| >= 2 && s[1] == ']' then Some(Parsed(Array([]), s[2..]))
      else
        match ParseItems(s[1..])
        case None => None
        case Some(p) => Some(Parsed(Array(p.value), p.rest))
    else if s[0] == '{' then
      if |s| >= 2 && s[1] == '}' then Some(Parsed(Object([]), s[2..]))
      else
        match ParseFields(s[1..])
        case None => None
        case Some(p) => Some(Parsed(Object(p.value), p.rest))
    else
      var n := NumberPrefix(s);
      if n == 0 then None else Some(Parsed(Number(s[..n]), s[n..]))
  }

  function ParseItems(s: string): (r: Option<Parsed<seq<Json>>>)
    ensures r.Some? ==> |r.value.rest| < |s|
    decreases |s|, 2
  {
    match Parse(s)
    case None => None
    case Some(p) =>
      if p.rest == [] then None
      else if p.rest[0] == ']' then Some(Parsed([p.value], p.rest[1..]))
      else if p.rest[0] == ',' then
        match ParseItems(p.rest[1..])
        case None => None
        case Some(q) => Some(Parsed([p.value] + q.value, q.rest))
      else None
  }

  function ParseField(s: string): (r: Option<Parsed<Field>>)
    ensures r.Some? ==> |r.value.rest| < |s|
    decreases |s|, 2
  {
    if s == [] || s[0] != '\"' then None
    else
      match ParseText(s[1..])
      case None => None
      case Some(k) =>
        if k.rest == [] || k.rest[0] != ':' then None
        else
          match Parse(k.rest[1..])
          case None => None
          case Some(p) => Some(Parsed(Field(k.value, p.value), p.rest))
  }

  function ParseFields(s: string): (r: Option<Parsed<seq<Field>>>)
    ensures r.Some? ==> |r.value.rest| < |s|
    decreases |s|, 3
  {
    match ParseField(s)
    case None => None
    case Some(p) =>
      if p.rest == [] then None
      else if p.rest[0] == '}' then Some(Parsed([p.value], p.rest[1..]))
      else if p.rest[0] == ',' then
        match ParseFields(p.rest[1..])
        case None => None
        case Some(q) => Some(Parsed([p.value] + q.value, q.rest))
      else None
  }

  // -------------------------------------------------- reading back what is printed

  lemma ParseEscapedChar(c: char, rest: string)
    ensures EscapeChar(c) + rest != []
    ensures ParseChar(EscapeChar(c) + rest) == Some(Parsed(c, rest))
    ensures (EscapeChar(c) + rest)[0] != '\"'
  {
    var escaped := EscapeChar(c);
    var s := escaped + rest;
    assert s[|escaped|..] == rest;
    assert forall i :: 0 <= i < |escaped| ==> s[i] == escaped[i];
    if c < ' ' {
      assert 0 <= c as int / 16 < 2;
      assert c as int == c as int / 16 * 16 + c as int % 16;
    }
  }

  lemma {:induction false} ParsePrintedText(text: string, rest: string)
    ensures ParseText(Escape(text) + ['\"'] + rest) == Some(Parsed(text, rest))
  {
    var s := Escape(text) + ['\"'] + rest;
    if text == [] {
      assert s == ['\"'] + rest;
      assert s[1..] == rest;
    } else {
      var tail := Escape(text[1..]) + ['\"'] + rest;
      assert s == EscapeChar(text[0]) + tail;
      ParseEscapedChar(text[0], tail);
      ParsePrintedText(text[1..], rest);
      assert [text[0]] + text[1..] == text;
    }
  }

  lemma {:induction false} NumberPrefixExact(lexeme: string, rest: string)
    requires forall i :: 0 <= i < |lexeme| ==> NumberChar(lexeme[i])
    requires rest == [] || !NumberChar(rest[0])
    ensures NumberPrefix(lexeme + rest) == |lexeme|
  {
    if lexeme == [] {
      assert lexeme + rest == rest;
    } else {
      assert (lexeme + rest)[1..] == lexeme[1..] + rest;
      NumberPrefixExact(lexeme[1..], rest);
    }
  }

  predicate Delimited(rest: string) {
    rest == [] || !NumberChar(rest[0])
  }

  lemma FirstChar(v: Json)
    requires WellFormed(v)
    ensures Print(v)[0] != ']' && Print(v)[0] != '}'
  {
  }

  lemma Cut(word: string, rest: string)
    requires word != []
    ensures var s := word + rest;
      s != [] && s[0] == word[0] && word <= s && s[|word|..] == rest && s[..|word|] == word
  {
  }

  lemma ParsePrintedWord(v: Json, rest: string)
    requires v.Null? || v.Bool?
    ensures Parse(Print(v) + rest) == Some(Parsed(v, rest))
  {
    Cut(Print(v), rest);
  }

  lemma ParsePrintedNumber(lexeme: string, rest: string)
    requires NumberLexeme(lexeme) && Delimited(rest)
    ensures Parse(lexeme + rest) == Some(Parsed(Number(lexeme), rest))
  {
    Cut(lexeme, rest);
    NumberPrefixExact(lexeme, rest);
  }

  lemma ParsePrintedQuoted(text: string, rest: string)
    ensures Parse(PrintText(text) + rest) == Some(Parsed(Text(text), rest))
  {
    var s := PrintText(text) + rest;
    assert s[0] == '\"' && s[1..] == Escape(text) + ['\"'] + rest;
    ParsePrintedText(text, rest);
  }

  lemma ParsePrintedScalar(v: Json, rest: string)
    requires WellFormed(v) && Delimited(rest) && !v.Array? && !v.Object?
    ensures Parse(Print(v) + rest) == Some(Parsed(v, rest))
  {
    match v
    case Number(lexeme) => ParsePrintedNumber(lexeme, rest);
    case Text(text) => ParsePrintedQuoted(text, rest);
    case _ => ParsePrintedWord(v, rest);
  }

  lemma {:induction false} ParsePrinted(v: Json, rest: string)
    requires WellFormed(v) && Delimited(rest)
    ensures Parse(Print(v) + rest) == Some(Parsed(v, rest))
    decreases v, 1
  {
    match v
    case Array(items) => ParsePrintedArray(items, rest);
    case Object(fields) => ParsePrintedObject(fields, rest);
    case _ => ParsePrintedScalar(v, rest);
  }

  lemma {:induction false} ParsePrintedArray(items: seq<Json>, rest: string)
    requires forall i :: 0 <= i < |items| ==> WellFormed(items[i])
    ensures Parse(Print(Array(items)) + rest) == Some(Parsed(Array(items), rest))
    decreases items, 1
  {
    var s := Print(Array(items)) + rest;
    if items == [] {
      assert s[2..] == rest;
    } else {
      assert s[0] == '[' && s[1..] == PrintItems(items) + rest;
      FirstChar(items[0]);
      assert s[1] == Print(items[0])[0];
      ParsePrintedItems(items, rest);
    }
  }

  lemma {:induction false} ParsePrintedObject(fields: seq<Field>, rest: string)
    requires forall i :: 0 <= i < |fields| ==> WellFormed(fields[i].value)
    ensures Parse(Print(Object(fields)) + rest) == Some(Parsed(Object(fields), rest))
    decreases fields, 1
  {
    var s := Print(Object(fields)) + rest;
    if fields == [] {
      assert s[2..] == rest;
    } else {
      assert s[0] == '{' && s[1..] == PrintFields(fields) + rest;
      assert s[1] == '\"';
      ParsePrintedFields(fields, rest);
    }
  }

  lemma {:induction false} ParsePrintedItems(items: seq<Json>, rest: string)
    requires items != []
    requires forall i :: 0 <= i < |items| ==> WellFormed(items[i])
    ensures ParseItems(PrintItems(items) + rest) == Some(Parsed(items, rest))
    decreases items, 0
  {
    var s := PrintItems(items) + rest;
    if |items| == 1 {
      assert s == Print(items[0]) + ([']'] + rest);
      ParsePrinted(items[0], [']'] + rest);
      assert ([']'] + rest)[1..] == rest;
      assert [items[0]] == items;
    } else {
      var tail := PrintItems(items[1..]) + rest;
      assert s == Print(items[0]) + ([','] + tail);
      ParsePrinted(items[0], [','] + tail);
      assert ([','] + tail)[1..] == tail;
      ParsePrintedItems(items[1..], rest);
      assert [items[0]] + items[1..] == items;
    }
  }

  lemma FieldText(key: string, printed: string, rest: string)
    ensures PrintText(key) + [':'] + printed + rest ==
            ['\"'] + (Escape(key) + ['\"'] + ([':'] + (printed + rest)))
  {
  }

  lemma {:induction false} ParsePrintedField(f: Field, rest: string)
    requires WellFormed(f.value) && Delimited(rest)
    ensures ParseField(PrintField(f) + rest) == Some(Parsed(f, rest))
    decreases f, 2
  {
    var (s, afterKey) := (PrintField(f) + rest, [':'] + (Print(f.value) + rest));
    FieldText(f.key, Print(f.value), rest);
    assert s[1..] == Escape(f.key) + ['\"'] + afterKey;
    ParsePrintedText(f.key, afterKey);
    assert afterKey[1..] == Print(f.value) + rest;
    ParsePrinted(f.value, rest);
  }

  lemma {:induction false} ParsePrintedFields(fields: seq<Field>, rest: string)
    requires fields != []
    requires forall i :: 0 <= i < |fields| ==> WellFormed(fields[i].value)
    ensures ParseFields(PrintFields(fields) + rest) == Some(Parsed(fields, rest))
    decreases fields, 0
  {
    var s := PrintFields(fields) + rest;
    if |fields| == 1 {
      assert s == PrintField(fields[0]) + (['}'] + rest);
      ParsePrintedField(fields[0], ['}'] + rest);
      assert (['}'] + rest)[1..] == rest;
      assert [fields[0]] == fields;
    } else {
      var tail := PrintFields(fields[1..]) + rest;
      assert s == PrintField(fields[0]) + ([','] + tail);
      ParsePrintedField(fields[0], [','] + tail);
      assert ([','] + tail)[1..] == tail;
      ParsePrintedFields(fields[1..], rest);
      assert [fields[0]] + fields[1..] == fields;
    }
  }

  // ------------------------------------------------------------ order of keys

  lemma {:induction false} InsertSorts(f: Field, sorted: seq<Field>)
    requires StrictlySorted(sorted)
    requires forall i :: 0 <= i < |sorted| ==> sorted[i].key != f.key
    ensures StrictlySorted(Insert(f, sorted))
    ensures |Insert(f, sorted)| == |sorted| + 1
    ensures forall g :: g in Insert(f, sorted) <==> g == f || g in sorted
  {
    if sorted == [] {
    } else if !Before(sorted[0].key, f.key) {
      BeforeTotal(sorted[0].key, f.key);
      forall j | 0 < j < |sorted| ensures Before(f.key, sorted[j].key) {
        BeforeTransitive(f.key, sorted[0].key, sorted[j].key);
      }
    } else {
      InsertSorts(f, sorted[1..]);
      var rest := Insert(f, sorted[1..]);
      forall j | 0 <= j < |rest| ensures Before(sorted[0].key, rest[j].key) {
        assert rest[j] in rest;
      }
    }
  }

  lemma {:induction false} SortSorts(fields: seq<Field>)
    requires DistinctKeys(fields)
    ensures StrictlySorted(SortFields(fields))
    ensures |SortFields(fields)| == |fields|
    ensures forall g :: g in SortFields(fields) <==> g in fields
  {
    if fields == [] {
    } else {
      SortSorts(fields[1..]);
      var rest := SortFields(fields[1..]);
      forall i | 0 <= i < |rest| ensures rest[i].key != fields[0].key {
        assert rest[i] in fields[1..];
      }
      InsertSorts(fields[0], rest);
    }
  }

  lemma {:induction false} SortedUnique(s: seq<Field>, t: seq<Field>)
    requires StrictlySorted(s) && StrictlySorted(t)
    requires forall f :: f in s <==> f in t
    ensures s == t
  {
    if s != [] {
      assert s[0] in t;
    }
    if t != [] {
      assert t[0] in s;
    }
    if s == [] {
    } else {
      BeforeTotal(s[0].key, t[0].key);
      assert s[0] == t[0];
      forall f ensures f in s[1..] <==> f in t[1..] {
        BeforeTotal(s[0].key, s[0].key);
        assert f in s <==> f == s[0] || f in s[1..];
        assert f in t <==> f == t[0] || f in t[1..];
      }
      SortedUnique(s[1..], t[1..]);
    }
  }

  // ------------------------------------------------- the printer is unambiguous

  lemma {:induction false} SameSizeSubset(a: seq<Field>, b: seq<Field>)
    requires DistinctKeys(a) && DistinctKeys(b) && |a| == |b|
    requires forall f :: f in a ==> f in b
    ensures forall f :: f in b ==> f in a
  {
    if a == [] {
    } else {
      assert a[0] in b;
      var j :| 0 <= j < |b| && b[j] == a[0];
      var others := b[..j] + b[j + 1..];
      forall f | f in a[1..] ensures f in others {
        var i :| 0 <= i < |a[1..]| && a[1..][i] == f;
        assert f == a[i + 1] && f in b;
        var k :| 0 <= k < |b| && b[k] == f;
        assert k != j;
        assert f == if k < j then others[k] else others[k - 1];
      }
      SameSizeSubset(a[1..], others);
      forall f | f in b ensures f in a {
        var k :| 0 <= k < |b| && b[k] == f;
        if k != j {
          assert f == if k < j then others[k] else others[k - 1];
          assert f in a[1..];
        }
      }
    }
  }

  lemma {:induction false} CanonWellFormed(v: Json)
    requires WellFormed(v)
    ensures WellFormed(Canon(v))
    decreases v
  {
    match v
    case Array(items) =>
      forall i | 0 <= i < |items| ensures WellFormed(CanonItems(items)[i]) {
        CanonWellFormed(items[i]);
      }
    case Object(fields) =>
      var inner := CanonFields(fields);
      SortSorts(inner);
      var sorted := SortFields(inner);
      forall i | 0 <= i < |sorted| ensures WellFormed(sorted[i].value) {
        assert sorted[i] in inner;
        var k :| 0 <= k < |inner| && inner[k] == sorted[i];
        CanonWellFormed(fields[k].value);
      }
      forall i, j | 0 <= i < j < |sorted| ensures sorted[i].key != sorted[j].key {
        BeforeTotal(sorted[i].key, sorted[j].key);
      }
    case _ =>
  }

  // Equal values have equal canonical trees: insertion order leaves no trace.
  lemma {:induction false} SameCanon(v: Json, w: Json)
    requires WellFormed(v) && WellFormed(w) && Same(v, w)
    ensures Canon(v) == Canon(w)
    decreases v
  {
    match (v, w)
    case (Array(xs), Array(ys)) =>
      forall i | 0 <= i < |xs| ensures CanonItems(xs)[i] == CanonItems(ys)[i] {
        SameCanon(xs[i], ys[i]);
      }
      assert CanonItems(xs) == CanonItems(ys);
    case (Object(fs), Object(gs)) =>
      var a, b := CanonFields(fs), CanonFields(gs);
      forall f | f in a ensures f in b {
        var i :| 0 <= i < |a| && a[i] == f;
        assert HasSame(fs[i], gs);
        var j :| 0 <= j < |gs| && fs[i].key == gs[j].key && Same(fs[i].value, gs[j].value);
        SameCanon(fs[i].value, gs[j].value);
        assert b[j] == f;
      }
      SameSizeSubset(a, b);
      SortSorts(a);
      SortSorts(b);
      SortedUnique(SortFields(a), SortFields(b));
    case _ =>
  }

  lemma {:induction false} CanonSame(v: Json, w: Json)
    requires WellFormed(v) && WellFormed(w) && Canon(v) == Canon(w)
    ensures Same(v, w)
    decreases v
  {
    match (v, w)
    case (Array(xs), Array(ys)) =>
      forall i | 0 <= i < |xs| ensures Same(xs[i], ys[i]) {
        assert CanonItems(xs)[i] == CanonItems(ys)[i];
        CanonSame(xs[i], ys[i]);
      }
    case (Object(fs), Object(gs)) =>
      var a, b := CanonFields(fs), CanonFields(gs);
      SortSorts(a);
      SortSorts(b);
      forall i | 0 <= i < |fs|
        ensures HasSame(fs[i], gs)
      {
        assert a[i] in SortFields(a);
        assert a[i] in b;
        var j :| 0 <= j < |b| && b[j] == a[i];
        CanonSame(fs[i].value, gs[j].value);
      }
    case _ =>
  }

  // Parsing what `canonical_json` prints gives the value back, keys sorted.
  lemma CanonicalRoundTrip(v: Json)
    requires WellFormed(v)
    ensures Parse(CanonicalText(v)) == Some(Parsed(Canon(v), ""))
  {
    CanonWellFormed(v);
    ParsePrinted(Canon(v), "");
    assert Print(Canon(v)) + "" == Print(Canon(v));
  }

  // Two values print alike exactly when they are the same JSON value.
  lemma CanonicalUnambiguous(v: Json, w: Json)
    requires WellFormed(v) && WellFormed(w)
    ensures CanonicalText(v) == CanonicalText(w) <==> Same(v, w)
  {
    CanonicalRoundTrip(v);
    CanonicalRoundTrip(w);
    if CanonicalText(v) == CanonicalText(w) {
      CanonSame(v, w);
    } else if Same(v, w) {
      SameCanon(v, w);
    }
  }

  // ------------------------------------------------------ request fingerprints

  const IDENTIFIER_LIMIT := 128

  predicate AsciiAlnum(c: char) {
    'a' <= c <= 'z' || 'A' <= c <= 'Z' || IsDigit(c)
  }

  predicate BoundedIdentifier(s: string) {
    && 0 < |s| <= IDENTIFIER_LIMIT
    && AsciiAlnum(s[0])
    && forall i :: 0 <= i < |s| ==> AsciiAlnum(s[i]) || s[i] in "._-"
  }

  // A SHA-256 digest: no two texts share one.
  datatype Digest = Sha256(text: string)

  function DebugFingerprint(action: string, objectId: string, request: seq<Field>): Result<Digest, string>
  {
    if !BoundedIdentifier(action) || !BoundedIdentifier(objectId) then
      Err("Identifiers must be bounded safe logical values")
    else
      Ok(Sha256(CanonicalText(FingerprintPayload(action, objectId, request))))
  }

  function FingerprintPayload(action: string, objectId: string, request: seq<Field>): Json {
    Object([
      Field("action", Text(action)),
      Field("object_id", Text(objectId)),
      Field("request", Object(request))
    ])
  }

  predicate KeysAlike(fs: seq<Field>, gs: seq<Field>) {
    |fs| == |gs| && forall i :: 0 <= i < |fs| ==> fs[i].key == gs[i].key
  }

  ghost predicate ValuesSame(fs: seq<Field>, gs: seq<Field>)
    requires |fs| == |gs|
  {
    forall i :: 0 <= i < |fs| ==> Same(fs[i].value, gs[i].value)
  }

  lemma SameGivesValues(fs: seq<Field>, gs: seq<Field>)
    requires DistinctKeys(fs) && KeysAlike(fs, gs) && Same(Object(fs), Object(gs))
    ensures ValuesSame(fs, gs)
  {
    forall i | 0 <= i < |fs|
      ensures Same(fs[i].value, gs[i].value)
    {
      assert HasSame(fs[i], gs);
      var j :| 0 <= j < |gs| && fs[i].key == gs[j].key && Same(fs[i].value, gs[j].value);
      assert fs[j].key == fs[i].key;
    }
  }

  lemma ValuesGiveSame(fs: seq<Field>, gs: seq<Field>)
    requires KeysAlike(fs, gs) && ValuesSame(fs, gs)
    ensures Same(Object(fs), Object(gs))
  {
    forall i | 0 <= i < |fs|
      ensures HasSame(fs[i], gs)
    {
      assert fs[i].key == gs[i].key && Same(fs[i].value, gs[i].value);
    }
  }

  lemma SamePayload(
    a1: string, o1: string, r1: seq<Field>, a2: string, o2: string, r2: seq<Field>)
    ensures Same(FingerprintPayload(a1, o1, r1), FingerprintPayload(a2, o2, r2))
       <==> a1 == a2 && o1 == o2 && Same(Object(r1), Object(r2))
  {
    var (fs, gs) := (FingerprintPayload(a1, o1, r1).fields, FingerprintPayload(a2, o2, r2).fields);
    PayloadKeys(a1, o1, r1);
    assert Same(fs[0].value, gs[0].value) <==> a1 == a2;
    assert Same(fs[1].value, gs[1].value) <==> o1 == o2;
    assert Same(fs[2].value, gs[2].value) <==> Same(Object(r1), Object(r2));
    assert ValuesSame(fs, gs) <==> a1 == a2 && o1 == o2 && Same(Object(r1), Object(r2));
    if ValuesSame(fs, gs) {
      ValuesGiveSame(fs, gs);
    }
    if Same(Object(fs), Object(gs)) {
      SameGivesValues(fs, gs);
    }
  }

  lemma PayloadKeys(action: string, objectId: string, request: seq<Field>)
    ensures DistinctKeys(FingerprintPayload(action, objectId, request).fields)
  {
    assert |"action"| == 6 && |"object_id"| == 9 && |"request"| == 7;
  }

  // A fingerprint identifies its action, object and request.
  lemma FingerprintIdentifiesRequest(
    a1: string, o1: string, r1: seq<Field>, a2: string, o2: string, r2: seq<Field>)
    requires WellFormed(Object(r1)) && WellFormed(Object(r2))
    requires DebugFingerprint(a1, o1, r1).Ok? && DebugFingerprint(a2, o2, r2).Ok?
    ensures DebugFingerprint(a1, o1, r1) == DebugFingerprint(a2, o2, r2)
       <==> a1 == a2 && o1 == o2 && Same(Object(r1), Object(r2))
  {
    PayloadKeys(a1, o1, r1);
    PayloadKeys(a2, o2, r2);
    SamePayload(a1, o1, r1, a2, o2, r2);
    CanonicalUnambiguous(FingerprintPayload(a1, o1, r1), FingerprintPayload(a2, o2, r2));
  }
}
