/** The row checks a triangle passes before it is built, and simulated payloads. */
module TriangleRows {
  import opened Common
  import opened ClaimTriangle

  datatype Cell =
    | NullCell
    | IntCell(i: int)
    | FloatCell(f: real, finite: bool)
    | BoolCell(b: bool)
    | TextCell(t: string)

  type Fields = map<string, Cell>

  datatype RowInput = RowObject(fields: Fields) | NotAnObject

  datatype Columns = Columns(origin: string, development: string, value: string)

  datatype RowError =
    | EmptyRows
    | RowNotObject(index: nat)
    | BlankColumnName
    | MissingColumns(index: nat)
    | NullOrigin(index: nat)
    | NullDevelopment(index: nat)
    | NotNumeric(index: nat)
    | DuplicateCell(index: nat)

  // `float(text)` is a parameter of the model; None is a ValueError or a non-finite result.
  type ParseFloat = string -> Option<real>

  predicate Blank(c: char) {
    c == ' ' || ('\t' <= c <= '\r') || 0x1c <= c as int <= 0x1f
  }

  function StripLeft(s: string): string {
    if s != [] && Blank(s[0]) then StripLeft(s[1..]) else s
  }

  function StripRight(s: string): string {
    if s != [] && Blank(s[|s| - 1]) then StripRight(s[..|s| - 1]) else s
  }

  function Strip(s: string): string {
    StripRight(StripLeft(s))
  }

  // The finite number a cell stands for; booleans are refused.
  function CoerceNumeric(parse: ParseFloat, c: Cell): Option<real> {
    match c
    case IntCell(i) => Some(i as real)
    case FloatCell(f, finite) => if finite then Some(f) else None
    case TextCell(t) => parse(t)
    case _ => None
  }

  // What a cell is as a set member: Python counts equal numbers as one.
  datatype KeyPart = NumberKey(n: real) | TextKey(t: string) | NoneKey | OddFloatKey

  function KeyOf(c: Cell): KeyPart {
    match c
    case NullCell => NoneKey
    case IntCell(i) => NumberKey(i as real)
    case FloatCell(f, finite) => if finite then NumberKey(f) else OddFloatKey
    case BoolCell(b) => NumberKey(if b then 1.0 else 0.0)
    case TextCell(t) => TextKey(t)
  }

  predicate HasColumns(cols: Columns, row: Fields) {
    cols.origin in row && cols.development in row && cols.value in row
  }

  function CellKey(cols: Columns, row: Fields): (KeyPart, KeyPart)
    requires HasColumns(cols, row)
  {
    (KeyOf(row[cols.origin]), KeyOf(row[cols.development]))
  }

  predicate GoodRow(parse: ParseFloat, cols: Columns, row: Fields) {
    && HasColumns(cols, row)
    && row[cols.origin] != NullCell && row[cols.development] != NullCell
    && CoerceNumeric(parse, row[cols.value]).Some?
  }

  function NormalizedRow(parse: ParseFloat, cols: Columns, row: Fields): Fields
    requires GoodRow(parse, cols, row)
  {
    row[cols.value := FloatCell(CoerceNumeric(parse, row[cols.value]).value, true)]
  }

  function StrippedColumns(cols: Columns): Columns {
    Columns(Strip(cols.origin), Strip(cols.development), Strip(cols.value))
  }

  predicate NamedColumns(cols: Columns) {
    cols.origin != [] && cols.development != [] && cols.value != []
  }

  predicate GoodRows(parse: ParseFloat, cols: Columns, rows: seq<RowInput>) {
    forall x :: 0 <= x < |rows| ==> rows[x].RowObject? && GoodRow(parse, cols, rows[x].fields)
  }

  predicate DistinctCellKeys(cols: Columns, rows: seq<RowInput>)
    requires forall x :: 0 <= x < |rows| ==> rows[x].RowObject? && HasColumns(cols, rows[x].fields)
  {
    forall x, y :: 0 <= x < y < |rows| ==> CellKey(cols, rows[x].fields) != CellKey(cols, rows[y].fields)
  }

  // The rows a triangle can be built from.
  predicate AcceptableRows(parse: ParseFloat, cols: Columns, rows: seq<RowInput>) {
    && rows != []
    && NamedColumns(cols)
    && GoodRows(parse, cols, rows)
    && DistinctCellKeys(cols, rows)
  }

  // What is wrong with one row by itself, in the order the checks come.
  predicate RowFault(parse: ParseFloat, cols: Columns, row: Fields, e: RowError) {
    match e
    case MissingColumns(_) => !HasColumns(cols, row)
    case NullOrigin(_) => HasColumns(cols, row) && row[cols.origin] == NullCell
    case NullDevelopment(_) =>
      HasColumns(cols, row) && row[cols.origin] != NullCell && row[cols.development] == NullCell
    case NotNumeric(_) =>
      && HasColumns(cols, row) && row[cols.origin] != NullCell && row[cols.development] != NullCell
      && CoerceNumeric(parse, row[cols.value]) == None
    case _ => false
  }

  // Row `x` is the first that cannot be taken: all rows before it are good and have
  // cells of their own, and the error says what is wrong with it.
  ghost predicate FirstFault(parse: ParseFloat, cols: Columns, rows: seq<RowInput>, x: nat, e: RowError) {
    && x < |rows| && rows[x].RowObject?
    && GoodRows(parse, cols, rows[..x]) && DistinctCellKeys(cols, rows[..x])
    && if e.DuplicateCell?
       then GoodRow(parse, cols, rows[x].fields) && CellKey(cols, rows[x].fields) in KeysOf(cols, rows[..x])
       else RowFault(parse, cols, rows[x].fields, e)
  }

  // Why the rows are refused.
  ghost predicate Explains(parse: ParseFloat, cols: Columns, rows: seq<RowInput>, e: RowError) {
    match e
    case EmptyRows => rows == []
    case RowNotObject(x) =>
      x < |rows| && !rows[x].RowObject? && forall k :: 0 <= k < x ==> rows[k].RowObject?
    case BlankColumnName => !NamedColumns(cols)
    case MissingColumns(x) => FirstFault(parse, cols, rows, x, e)
    case NullOrigin(x) => FirstFault(parse, cols, rows, x, e)
    case NullDevelopment(x) => FirstFault(parse, cols, rows, x, e)
    case NotNumeric(x) => FirstFault(parse, cols, rows, x, e)
    case DuplicateCell(x) => FirstFault(parse, cols, rows, x, e)
  }

  method CheckRow(parse: ParseFloat, cols: Columns, row: Fields, index: nat) returns (r: Result<Fields, RowError>)
    ensures r.Ok? <==> GoodRow(parse, cols, row)
    ensures r.Ok? ==> r.value == NormalizedRow(parse, cols, row)
    ensures r.Err? ==> RowFault(parse, cols, row, r.error)
    ensures r.Err? ==>
      r.error in {MissingColumns(index), NullOrigin(index), NullDevelopment(index), NotNumeric(index)}
  {
    if !HasColumns(cols, row) {
      return Err(MissingColumns(index));
    }
    if row[cols.origin] == NullCell {
      return Err(NullOrigin(index));
    }
    if row[cols.development] == NullCell {
      return Err(NullDevelopment(index));
    }
    var number := CoerceNumeric(parse, row[cols.value]);
    if number == None {
      return Err(NotNumeric(index));
    }
    r := Ok(row[cols.value := FloatCell(number.value, true)]);
  }

  // The keys of the rows already read.
  ghost function KeysOf(cols: Columns, rows: seq<RowInput>): (keys: set<(KeyPart, KeyPart)>)
    requires forall x :: 0 <= x < |rows| ==> rows[x].RowObject? && HasColumns(cols, rows[x].fields)
    ensures forall key :: key in keys <==>
      exists x :: 0 <= x < |rows| && CellKey(cols, rows[x].fields) == key
  {
    set x | 0 <= x < |rows| :: CellKey(cols, rows[x].fields)
  }

  lemma OneMoreRow(parse: ParseFloat, cols: Columns, before: seq<RowInput>, row: RowInput)
    requires GoodRows(parse, cols, before) && DistinctCellKeys(cols, before)
    requires row.RowObject? && GoodRow(parse, cols, row.fields)
    requires CellKey(cols, row.fields) !in KeysOf(cols, before)
    ensures GoodRows(parse, cols, before + [row]) && DistinctCellKeys(cols, before + [row])
    ensures KeysOf(cols, before + [row]) == KeysOf(cols, before) + {CellKey(cols, row.fields)}
  {
    var after := before + [row];
    assert after[|before|] == row && forall x :: 0 <= x < |before| ==> after[x] == before[x];
    assert forall key :: key in KeysOf(cols, after) <==>
      key in KeysOf(cols, before) || key == CellKey(cols, row.fields) by
    {
      forall key | key in KeysOf(cols, before) ensures key in KeysOf(cols, after) {
        var x :| 0 <= x < |before| && CellKey(cols, before[x].fields) == key;
        assert CellKey(cols, after[x].fields) == key;
      }
    }
  }

  // Every row comes back with its value coerced and nothing else changed.
  predicate NormalizedAll(parse: ParseFloat, cols: Columns, rows: seq<RowInput>, normalized: seq<Fields>)
    requires GoodRows(parse, cols, rows)
  {
    && |normalized| == |rows|
    && forall x :: 0 <= x < |rows| ==> normalized[x] == NormalizedRow(parse, cols, rows[x].fields)
  }

  // The row loop proper.
  method CheckRows(parse: ParseFloat, cols: Columns, rows: seq<RowInput>) returns (r: Result<seq<Fields>, RowError>)
    requires forall x :: 0 <= x < |rows| ==> rows[x].RowObject?
    ensures r.Ok? <==> GoodRows(parse, cols, rows) && DistinctCellKeys(cols, rows)
    ensures r.Ok? ==> NormalizedAll(parse, cols, rows, r.value)
    ensures r.Err? ==> Explains(parse, cols, rows, r.error)
  {
    var seen: set<(KeyPart, KeyPart)> := {};
    var normalized: seq<Fields> := [];
    var x := 0;
    while x < |rows|
      invariant 0 <= x <= |rows| && |normalized| == x
      invariant GoodRows(parse, cols, rows[..x]) && DistinctCellKeys(cols, rows[..x])
      invariant seen == KeysOf(cols, rows[..x])
      invariant forall k :: 0 <= k < x ==> normalized[k] == NormalizedRow(parse, cols, rows[..x][k].fields)
    {
      var row := rows[x].fields;
      var checked := CheckRow(parse, cols, row, x);
      if checked.Err? {
        return Err(checked.error);
      }
      var key := CellKey(cols, row);
      if key in seen {
        var k :| 0 <= k < |rows[..x]| && CellKey(cols, rows[..x][k].fields) == key;
        assert rows[..x][k] == rows[k];
        return Err(DuplicateCell(x));
      }
      OneMoreRow(parse, cols, rows[..x], rows[x]);
      assert rows[..x] + [rows[x]] == rows[..x + 1];
      seen := seen + {key};
      normalized := normalized + [checked.value];
      x := x + 1;
    }
    assert rows[..x] == rows;
    r := Ok(normalized);
  }

  method TriangleFromRows(parse: ParseFloat, columns: Columns, rows: seq<RowInput>)
    returns (r: Result<seq<Fields>, RowError>)
    ensures r.Ok? <==> AcceptableRows(parse, StrippedColumns(columns), rows)
    ensures r.Ok? ==> NormalizedAll(parse, StrippedColumns(columns), rows, r.value)
    ensures r.Err? ==> Explains(parse, StrippedColumns(columns), rows, r.error)
  {
    if rows == [] {
      return Err(EmptyRows);
    }
    var x := 0;
    while x < |rows|
      invariant 0 <= x <= |rows|
      invariant forall k :: 0 <= k < x ==> rows[k].RowObject?
    {
      if !rows[x].RowObject? {
        return Err(RowNotObject(x));
      }
      x := x + 1;
    }
    var cols := StrippedColumns(columns);
    if !NamedColumns(cols) {
      return Err(BlankColumnName);
    }
    r := CheckRows(parse, cols, rows);
  }

  // --------------------------------------------------------- simulated payloads

  datatype MetaValue = RowsValue(rows: seq<RowInput>) | TextValue(t: string) | OtherValue

  type Metadata = map<string, MetaValue>

  // `_float` prints an amount in units, six decimals exactly.
  function RowFields(row: Row): Fields {
    map[
      "origin" := IntCell(row.origin),
      "development" := IntCell(row.development),
      "paid" := FloatCell(row.paid as real / 1_000_000.0, true)
    ]
  }

  function RowInputs(rows: seq<Row>): (r: seq<RowInput>)
    ensures |r| == |rows|
    ensures forall x :: 0 <= x < |rows| ==> r[x] == RowObject(RowFields(rows[x]))
  {
    seq(|rows|, x requires 0 <= x < |rows| => RowObject(RowFields(rows[x])))
  }

  function SimulatedMetadata(rows: seq<Row>, overrides: Metadata): Metadata {
    map[
      "triangle_rows" := RowsValue(RowInputs(rows)),
      "origin_column" := TextValue("origin"),
      "development_column" := TextValue("development"),
      "value_column" := TextValue("paid"),
      "cumulative" := OtherValue,
      "simulation" := OtherValue
    ] + overrides
  }

  function ColumnName(metadata: Metadata, key: string, default: string): string {
    if key in metadata && metadata[key].TextValue? then metadata[key].t else default
  }

  function ColumnsOf(metadata: Metadata): Columns {
    Columns(
      ColumnName(metadata, "origin_column", "origin"),
      ColumnName(metadata, "development_column", "development"),
      ColumnName(metadata, "value_column", "value"))
  }

  const TRIANGLE_KEYS := {"triangle_rows", "origin_column", "development_column", "value_column"}

  lemma StripPlain(s: string)
    requires s != [] && !Blank(s[0]) && !Blank(s[|s| - 1])
    ensures Strip(s) == s
  {
  }

  lemma DistinctRowKeys(cols: Columns, rows: seq<Row>)
    requires cols.origin == "origin" && cols.development == "development"
    requires DistinctCells(rows)
    requires forall x :: 0 <= x < |rows| ==> HasColumns(cols, RowFields(rows[x]))
    ensures forall x, y :: 0 <= x < y < |rows| ==>
      CellKey(cols, RowFields(rows[x])) != CellKey(cols, RowFields(rows[y]))
  {
    forall x, y | 0 <= x < y < |rows|
      ensures CellKey(cols, RowFields(rows[x])) != CellKey(cols, RowFields(rows[y]))
    {
      var a, b := rows[x], rows[y];
      assert RowFields(a)["origin"] == IntCell(a.origin) && RowFields(b)["origin"] == IntCell(b.origin);
      assert a.origin as real == b.origin as real ==> a.origin == b.origin;
      assert a.development as real == b.development as real ==> a.development == b.development;
    }
  }

  lemma StaircaseNonEmpty(p: Parameters)
    requires Runnable(p)
    ensures RowsBefore(p, Origins(p)) != []
  {
    RowsGrow(p, 1, Origins(p));
    assert RowsBefore(p, 0) == [];
    assert |OriginRows(p, 0, Observed(p, 0))| == p.developmentCount;
  }

  lemma {:induction false} RowsGrow(p: Parameters, a: nat, b: nat)
    requires a <= b <= p.developmentCount == |Pattern(p)|
    ensures |RowsBefore(p, a)| <= |RowsBefore(p, b)|
    decreases b
  {
    if a == b {
    } else {
      RowsGrow(p, a, b - 1);
    }
  }

  // The rows of a simulated triangle pass every row check, unless the payload's
  // overrides replace the rows or the column names; of the three names, the value
  // column may be any of the simulated ones and nothing else.
  lemma SimulatedRowsAccepted(parse: ParseFloat, p: Parameters, value: string)
    requires Runnable(p)
    ensures AcceptableRows(parse, Columns("origin", "development", value), RowInputs(RowsBefore(p, Origins(p))))
       <==> value in {"origin", "development", "paid"}
  {
    var rows, cols := RowsBefore(p, Origins(p)), Columns("origin", "development", value);
    StaircaseNonEmpty(p);
    RowsDistinct(p, Origins(p));
    if value in {"origin", "development", "paid"} {
      DistinctRowKeys(cols, rows);
    } else {
      assert !HasColumns(cols, RowFields(rows[0]));
      assert RowInputs(rows)[0] == RowObject(RowFields(rows[0]));
    }
  }

  lemma SimulatedPayloadAccepted(parse: ParseFloat, p: Parameters, overrides: Metadata)
    requires Runnable(p)
    requires overrides.Keys !! TRIANGLE_KEYS
    ensures var metadata := SimulatedMetadata(RowsBefore(p, Origins(p)), overrides);
      && "triangle_rows" in metadata && metadata["triangle_rows"].RowsValue?
      && AcceptableRows(parse, StrippedColumns(ColumnsOf(metadata)), metadata["triangle_rows"].rows)
  {
    var metadata := SimulatedMetadata(RowsBefore(p, Origins(p)), overrides);
    assert forall key :: key in TRIANGLE_KEYS ==> key !in overrides;
    assert ColumnsOf(metadata) == Columns("origin", "development", "paid");
    StripPlain("origin");
    StripPlain("development");
    StripPlain("paid");
    SimulatedRowsAccepted(parse, p, "paid");
  }

  // ------------------------------------------------------- what rows and names become

  /**
   * An accepted row keeps all its entries but the value, which becomes the finite number the
   * cell stands for: an integer itself, a text what it reads as.
   */
  lemma NormalizedExactly(parse: ParseFloat, cols: Columns, row: Fields)
    requires GoodRow(parse, cols, row)
    ensures var (out, cell) := (NormalizedRow(parse, cols, row), row[cols.value]);
      && out.Keys == row.Keys && (forall key :: key in row && key != cols.value ==> out[key] == row[key])
      && out[cols.value].FloatCell? && out[cols.value].finite
      && (cell.IntCell? || cell.FloatCell? || cell.TextCell?)
      && (cell.IntCell? ==> out[cols.value].f == cell.i as real)
      && (cell.FloatCell? ==> cell.finite && out[cols.value].f == cell.f)
      && (cell.TextCell? ==> parse(cell.t) == Some(out[cols.value].f))
  {
  }

  // What no number stands for: null, a boolean, a text that reads as none, and infinities.
  lemma RefusedCells(parse: ParseFloat, c: Cell)
    ensures CoerceNumeric(parse, c) == None <==>
      || c == NullCell || c.BoolCell? || (c.FloatCell? && !c.finite) || (c.TextCell? && parse(c.t) == None)
  {
  }

  // Years given as integers, floats or booleans count as the same when they are equal.
  lemma KeysAgree(i: int, f: real, t: string)
    ensures KeyOf(IntCell(i)) == KeyOf(FloatCell(f, true)) <==> i as real == f
    ensures forall k: int :: KeyOf(IntCell(i)) == KeyOf(IntCell(k)) <==> i == k
    ensures KeyOf(BoolCell(true)) == KeyOf(IntCell(1)) && KeyOf(BoolCell(false)) == KeyOf(IntCell(0))
    ensures forall u: string :: KeyOf(TextCell(t)) == KeyOf(TextCell(u)) <==> t == u
    ensures KeyOf(TextCell(t)) != KeyOf(IntCell(i)) && KeyOf(TextCell(t)) != KeyOf(FloatCell(f, true))
  {
  }

  predicate AllBlank(s: string) {
    forall i :: 0 <= i < |s| ==> Blank(s[i])
  }

  lemma {:induction false} StripLeftExactly(s: string) returns (front: string)
    ensures s == front + StripLeft(s) && AllBlank(front)
    ensures StripLeft(s) != [] ==> !Blank(StripLeft(s)[0])
  {
    if s != [] && Blank(s[0]) {
      front := StripLeftExactly(s[1..]);
      front := [s[0]] + front;
    } else {
      front := [];
    }
  }

  lemma {:induction false} StripRightExactly(s: string) returns (back: string)
    ensures s == StripRight(s) + back && AllBlank(back)
    ensures StripRight(s) != [] ==> !Blank(StripRight(s)[|StripRight(s)| - 1])
    ensures StripRight(s) != [] ==> StripRight(s)[0] == s[0]
  {
    if s != [] && Blank(s[|s| - 1]) {
      back := StripRightExactly(s[..|s| - 1]);
      back := back + [s[|s| - 1]];
    } else {
      back := [];
    }
  }

  /** A column name loses its blanks at both ends and nothing else. */
  lemma StripExactly(s: string) returns (front: string, back: string)
    ensures s == front + Strip(s) + back && AllBlank(front) && AllBlank(back)
    ensures Strip(s) != [] ==> !Blank(Strip(s)[0]) && !Blank(Strip(s)[|Strip(s)| - 1])
  {
    front := StripLeftExactly(s);
    back := StripRightExactly(StripLeft(s));
    assert front + (Strip(s) + back) == front + Strip(s) + back;
  }

  // Tab to carriage return, the four separators of ASCII, and the space.
  lemma BlankExactly(c: char)
    ensures var code := c as int; Blank(c) <==> 9 <= code <= 13 || 28 <= code <= 31 || code == 32
  {
  }

  lemma StripsToNothing(s: string)
    ensures Strip(s) == [] <==> AllBlank(s)
  {
    var front, back := StripExactly(s);
    if Strip(s) != [] {
      assert s[|front|] == Strip(s)[0];
    }
    if Strip(s) == [] {
      assert s == front + back;
    }
  }

  /** Column names are refused exactly when one of the three is all blanks. */
  lemma NamesExactly(cols: Columns)
    ensures NamedColumns(StrippedColumns(cols)) <==>
      !AllBlank(cols.origin) && !AllBlank(cols.development) && !AllBlank(cols.value)
  {
    StripsToNothing(cols.origin);
    StripsToNothing(cols.development);
    StripsToNothing(cols.value);
  }

  // A simulated row as a payload: the years as they are, the amount in whole units.
  lemma RowFieldsExactly(row: Row)
    ensures var fields := RowFields(row);
      && fields.Keys == {"origin", "development", "paid"}
      && fields["origin"] == IntCell(row.origin) && fields["development"] == IntCell(row.development)
      && fields["paid"].FloatCell? && fields["paid"].finite && fields["paid"].f * 1_000_000.0 == row.paid as real
  {
    assert |"origin"| == 6 && |"development"| == 11 && |"paid"| == 4;
  }
}
