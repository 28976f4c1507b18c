/** The check of a materialized submission against its projection hash. */
module Submission {
  import opened Common
  import opened CanonicalJson
  import opened TextOrder
  import opened PosixPath
  import opened Utf8
  import opened Projection

  // A SHA-256 over bytes: no two byte strings share one.
  datatype Hash = Sha256Of(bytes: Bytes)

  // A value standing where a lowercase hexadecimal SHA-256 is expected.
  datatype HashText = HexHash(hash: Hash) | NotAHash

  datatype Component = Component(path: string, content: Bytes)

  datatype SubmissionError =
    | FilesNotAList
    | CountMismatch
    | NotAnObject
    | UnsafePath
    | DuplicatePath
    | ContentNotText
    | SourceMismatch
    | TotalMismatch
    | HashMalformed
    | HashMismatch

  // `dict.get` on a decoded JSON object, whose keys are distinct.
  function Get(fields: seq<Field>, key: string): Option<Json> {
    if fields == [] then None
    else if fields[0].key == key then Some(fields[0].value)
    else Get(fields[1..], key)
  }

  function TextAt(item: Json, key: string): Option<string> {
    if item.Object? then
      match Get(item.fields, key)
      case Some(Text(text)) => Some(text)
      case _ => None
    else None
  }

  // The sort key; a path that is not text stops the check wherever it lands.
  function SortKey(item: Json): string {
    match TextAt(item, "path")
    case Some(path) => path
    case None => ""
  }

  function Read(item: Json): Result<Component, SubmissionError> {
    if !item.Object? then Err(NotAnObject)
    else
      match TextAt(item, "path")
      case None => Err(UnsafePath)
      case Some(raw) =>
        if SafePosixPath(raw).Err? then Err(UnsafePath)
        else match TextAt(item, "content")
          case None => Err(ContentNotText)
          case Some(content) => Ok(Component(SafePosixPath(raw).value, Encode(content)))
  }

  function PathOf(item: Json): Option<string> {
    match TextAt(item, "path")
    case Some(raw) => if SafePosixPath(raw).Ok? then Some(SafePosixPath(raw).value) else None
    case None => None
  }

  // ------------------------------------------------------------------------ sorting

  function Decorated(items: seq<Json>): seq<Field> {
    seq(|items|, i requires 0 <= i < |items| => Field(SortKey(items[i]), items[i]))
  }

  function Undecorated(fields: seq<Field>): seq<Json> {
    seq(|fields|, i requires 0 <= i < |fields| => fields[i].value)
  }

  // `sorted` by raw path.
  function InOrder(items: seq<Json>): seq<Json> {
    Undecorated(SortFields(Decorated(items)))
  }

  lemma {:induction false} InsertPermutes(f: Field, sorted: seq<Field>)
    ensures multiset(Insert(f, sorted)) == multiset([f] + sorted)
  {
    if sorted == [] {
    } else if Before(sorted[0].key, f.key) {
      InsertPermutes(f, sorted[1..]);
      assert sorted == [sorted[0]] + sorted[1..];
      assert multiset(Insert(f, sorted)) == multiset{sorted[0]} + multiset([f] + sorted[1..]);
    }
  }

  lemma {:induction false} SortPermutes(fields: seq<Field>)
    ensures multiset(SortFields(fields)) == multiset(fields)
  {
    if fields == [] {
    } else {
      SortPermutes(fields[1..]);
      InsertPermutes(fields[0], SortFields(fields[1..]));
      assert fields == [fields[0]] + fields[1..];
    }
  }

  lemma {:induction false} UndecoratePermutes(items: seq<Json>)
    ensures multiset(Undecorated(Decorated(items))) == multiset(items)
  {
    assert Undecorated(Decorated(items)) == items;
  }

  lemma {:induction false} UndecorateSplit(a: seq<Field>, f: Field, b: seq<Field>)
    ensures multiset(Undecorated(a + [f] + b)) == multiset(Undecorated(a + b)) + multiset{f.value}
  {
    assert Undecorated(a + [f] + b) == Undecorated(a) + [f.value] + Undecorated(b);
    assert Undecorated(a + b) == Undecorated(a) + Undecorated(b);
  }

  lemma {:induction false} UndecorateKeepsPermutation(a: seq<Field>, b: seq<Field>)
    requires multiset(a) == multiset(b)
    ensures multiset(Undecorated(a)) == multiset(Undecorated(b))
  {
    if a == [] {
      assert multiset(b) == multiset{};
      assert |b| == |multiset(b)|;
    } else {
      assert a[0] in multiset(b);
      var k :| 0 <= k < |b| && b[k] == a[0];
      var rest := b[..k] + b[k + 1..];
      assert b == b[..k] + [a[0]] + b[k + 1..];
      assert a == [] + [a[0]] + a[1..];
      assert [] + a[1..] == a[1..];
      assert multiset(rest) == multiset(b) - multiset{a[0]} == multiset(a[1..]);
      UndecorateKeepsPermutation(a[1..], rest);
      UndecorateSplit([], a[0], a[1..]);
      UndecorateSplit(b[..k], a[0], b[k + 1..]);
    }
  }

  lemma InOrderPermutes(items: seq<Json>)
    ensures multiset(InOrder(items)) == multiset(items)
    ensures |InOrder(items)| == |items|
  {
    SortPermutes(Decorated(items));
    UndecorateKeepsPermutation(SortFields(Decorated(items)), Decorated(items));
    UndecoratePermutes(items);
    assert |multiset(InOrder(items))| == |InOrder(items)| && |multiset(items)| == |items|;
  }

  // ------------------------------------------------------------------ specification

  type Materialized = map<string, Bytes>

  predicate Sound(item: Json, source: Materialized) {
    Read(item).Ok? && Read(item).value.path in source && source[Read(item).value.path] == Read(item).value.content
  }

  predicate AllSound(items: seq<Json>, source: Materialized) {
    forall i :: 0 <= i < |items| ==> Sound(items[i], source)
  }

  predicate DistinctPaths(items: seq<Json>) {
    forall i, j :: 0 <= i < j < |items| ==> PathOf(items[i]) != PathOf(items[j])
  }

  function Components(items: seq<Json>): seq<Component>
    requires forall i :: 0 <= i < |items| ==> Read(items[i]).Ok?
  {
    seq(|items|, i requires 0 <= i < |items| => Read(items[i]).value)
  }

  function Subjects(components: seq<Component>): seq<Subject> {
    seq(|components|, i requires 0 <= i < |components| =>
      Subject(Encode(components[i].path), components[i].content))
  }

  function TotalBytes(components: seq<Component>): nat {
    if components == [] then 0
    else TotalBytes(components[..|components| - 1]) + |components[|components| - 1].content|
  }

  // What the manifest says about the materialized source.
  datatype Expected = Expected(fileCount: Option<int>, totalBytes: Option<int>, sourceHash: HashText)

  ghost predicate Acceptable(files: Option<Json>, source: Materialized, expected: Expected) {
    && files.Some? && files.value.Array? && files.value.items != []
    && expected.fileCount == Some(|files.value.items|)
    && AllSound(files.value.items, source) && DistinctPaths(files.value.items)
    && Faithful(files.value.items, expected)
  }

  // The totals and the hash agree with the files taken in order.
  ghost predicate Faithful(items: seq<Json>, expected: Expected) {
    && (forall i :: 0 <= i < |InOrder(items)| ==> Read(InOrder(items)[i]).Ok?)
    && expected.totalBytes == Some(TotalBytes(Components(InOrder(items))))
    && expected.sourceHash == HexHash(Sha256Of(Project(Subjects(Components(InOrder(items))))))
  }

  // --------------------------------------------------------------------- the check

  // What went wrong at one file.
  predicate Faulty(e: SubmissionError, item: Json, source: Materialized) {
    match e
    case NotAnObject => !item.Object?
    case UnsafePath => item.Object? && PathOf(item).None?
    case ContentNotText => PathOf(item).Some? && TextAt(item, "content").None?
    case SourceMismatch => Read(item).Ok? && !Sound(item, source)
    case _ => false
  }

  ghost predicate Blames(e: SubmissionError, items: seq<Json>, source: Materialized) {
    if e.DuplicatePath? then !DistinctPaths(items)
    else exists item :: item in items && Faulty(e, item, source)
  }

  datatype Collected = Collected(components: seq<Component>, projection: Bytes, totalBytes: nat)

  ghost predicate Collects(c: Collected, items: seq<Json>, source: Materialized) {
    && AllSound(items, source) && DistinctPaths(items)
    && c.components == Components(items)
    && Totals(c)
  }

  predicate Totals(c: Collected) {
    c.projection == Project(Subjects(c.components)) && c.totalBytes == TotalBytes(c.components)
  }

  lemma FaultyRejects(e: SubmissionError, items: seq<Json>, source: Materialized, item: Json)
    requires Faulty(e, item, source) && item in items
    ensures !AllSound(items, source) && !e.DuplicatePath? && Blames(e, items, source)
  {
  }

  // One file, given the paths taken so far; the errors come in the order of the checks.
  function CheckFile(item: Json, seenPaths: set<string>, source: Materialized): (r: Result<Component, SubmissionError>)
    ensures r.Ok? <==> Sound(item, source) && Read(item).value.path !in seenPaths
    ensures r.Ok? ==> r == Read(item) && PathOf(item) == Some(r.value.path)
    ensures r.Err? ==> if r.error.DuplicatePath? then PathOf(item).Some? && PathOf(item).value in seenPaths
                       else Faulty(r.error, item, source)
  {
    if !item.Object? then Err(NotAnObject)
    else
      match PathOf(item)
      case None => Err(UnsafePath)
      case Some(path) =>
        if path in seenPaths then Err(DuplicatePath)
        else match TextAt(item, "content")
          case None => Err(ContentNotText)
          case Some(text) =>
            if path !in source || source[path] != Encode(text) then Err(SourceMismatch)
            else Ok(Component(path, Encode(text)))
  }

  lemma ProjectOne(components: seq<Component>, next: Component)
    ensures Project(Subjects(components + [next])) ==
            Project(Subjects(components)) + LengthPrefixed(PATH_TAG, Encode(next.path)) +
            LengthPrefixed(CONTENT_TAG, next.content)
  {
    var (before, subjects) := (Subjects(components), Subjects(components + [next]));
    var last := Subject(Encode(next.path), next.content);
    assert subjects == before + [last];
    assert subjects[..|subjects| - 1] == before;
    Regroup(HEADER, Records(before), Record(last));
    Regroup(HEADER + Records(before), LengthPrefixed(PATH_TAG, last.path), LengthPrefixed(CONTENT_TAG, last.content));
  }

  function Extended(c: Collected, next: Component): Collected {
    Collected(
      c.components + [next],
      c.projection + LengthPrefixed(PATH_TAG, Encode(next.path)) + LengthPrefixed(CONTENT_TAG, next.content),
      c.totalBytes + |next.content|)
  }

  ghost predicate Taken(seenPaths: set<string>, items: seq<Json>) {
    forall path :: path in seenPaths <==> exists i :: 0 <= i < |items| && PathOf(items[i]) == Some(path)
  }

  lemma TakenOne(seenPaths: set<string>, items: seq<Json>, item: Json, path: string)
    requires Taken(seenPaths, items) && PathOf(item) == Some(path)
    ensures Taken(seenPaths + {path}, items + [item])
  {
    var longer := items + [item];
    assert longer[|items|] == item;
    assert forall i :: 0 <= i < |items| ==> longer[i] == items[i];
    forall p | p in seenPaths + {path}
      ensures exists i :: 0 <= i < |longer| && PathOf(longer[i]) == Some(p)
    {
      if p in seenPaths {
        var i :| 0 <= i < |items| && PathOf(items[i]) == Some(p);
        assert PathOf(longer[i]) == Some(p);
      } else {
        assert PathOf(longer[|items|]) == Some(p);
      }
    }
  }

  lemma CollectNone(items: seq<Json>, source: Materialized)
    ensures Collects(Collected([], HEADER, 0), items[..0], source) && Taken({}, items[..0])
  {
    assert Subjects([]) == [];
    assert HEADER + [] == HEADER;
  }

  lemma TakenHolds(seenPaths: set<string>, items: seq<Json>, i: nat, path: string)
    requires Taken(seenPaths, items) && i < |items| && PathOf(items[i]) == Some(path)
    ensures path in seenPaths
  {
  }

  lemma ExtendedTotals(c: Collected, next: Component)
    requires Totals(c)
    ensures Totals(Extended(c, next))
  {
    var components := c.components + [next];
    assert components[..|components| - 1] == c.components;
    ProjectOne(c.components, next);
  }

  lemma SoundOne(items: seq<Json>, item: Json, source: Materialized, seenPaths: set<string>)
    requires AllSound(items, source) && DistinctPaths(items) && Taken(seenPaths, items)
    requires CheckFile(item, seenPaths, source).Ok?
    ensures AllSound(items + [item], source) && DistinctPaths(items + [item])
    ensures Components(items + [item]) == Components(items) + [CheckFile(item, seenPaths, source).value]
  {
    forall i | 0 <= i < |items|
      ensures PathOf(items[i]) != PathOf(item)
    {
      if PathOf(items[i]).Some? {
        TakenHolds(seenPaths, items, i, PathOf(items[i]).value);
      }
    }
  }

  lemma CollectOne(c: Collected, items: seq<Json>, i: nat, source: Materialized, seenPaths: set<string>)
    requires i < |items| && Collects(c, items[..i], source) && Taken(seenPaths, items[..i])
    requires CheckFile(items[i], seenPaths, source).Ok?
    ensures var next := CheckFile(items[i], seenPaths, source).value;
      && Collects(Extended(c, next), items[..i + 1], source)
      && Taken(seenPaths + {next.path}, items[..i + 1])
  {
    var next := CheckFile(items[i], seenPaths, source).value;
    assert items[..i + 1] == items[..i] + [items[i]];
    SoundOne(items[..i], items[i], source, seenPaths);
    ExtendedTotals(c, next);
    TakenOne(seenPaths, items[..i], items[i], next.path);
  }

  lemma RejectOne(items: seq<Json>, i: nat, source: Materialized, seenPaths: set<string>)
    requires i < |items| && Taken(seenPaths, items[..i])
    requires CheckFile(items[i], seenPaths, source).Err?
    ensures !(AllSound(items, source) && DistinctPaths(items))
    ensures Blames(CheckFile(items[i], seenPaths, source).error, items, source)
  {
    var e := CheckFile(items[i], seenPaths, source).error;
    if e.DuplicatePath? {
      var k :| 0 <= k < i && PathOf(items[..i][k]) == PathOf(items[i]);
      assert PathOf(items[k]) == PathOf(items[i]);
    } else {
      FaultyRejects(e, items, source, items[i]);
    }
  }

  method Collect(items: seq<Json>, source: Materialized) returns (r: Result<Collected, SubmissionError>)
    ensures r.Ok? <==> AllSound(items, source) && DistinctPaths(items)
    ensures r.Ok? ==> Collects(r.value, items, source)
    ensures r.Err? ==> Blames(r.error, items, source)
  {
    var c := Collected([], HEADER, 0);
    var seenPaths: set<string> := {};
    CollectNone(items, source);
    var i := 0;
    while i < |items|
      invariant 0 <= i <= |items|
      invariant Collects(c, items[..i], source)
      invariant Taken(seenPaths, items[..i])
    {
      var checked := CheckFile(items[i], seenPaths, source);
      if checked.Err? {
        RejectOne(items, i, source, seenPaths);
        return Err(checked.error);
      }
      CollectOne(c, items, i, source, seenPaths);
      seenPaths := seenPaths + {checked.value.path};
      c := Extended(c, checked.value);
      i := i + 1;
    }
    assert items[..i] == items;
    r := Ok(c);
  }

  // ---------------------------------------------------------- order of the file list

  lemma TwoPlaces(items: seq<Json>, item: Json)
    requires multiset(items)[item] >= 2
    ensures exists i, j :: 0 <= i < j < |items| && items[i] == item && items[j] == item
  {
    assert item in multiset(items);
    var i :| 0 <= i < |items| && items[i] == item;
    var rest := items[i + 1..];
    assert items == items[..i] + [item] + rest;
    if item in rest {
      var j :| 0 <= j < |rest| && rest[j] == item;
      assert items[i + 1 + j] == item;
    } else {
      assert multiset(items)[item] == multiset(items[..i])[item] + 1 + multiset(rest)[item];
      assert item in multiset(items[..i]);
      var j :| 0 <= j < i && items[..i][j] == item;
      assert items[j] == item;
    }
  }

  lemma TwiceCounted(items: seq<Json>, i: nat, j: nat)
    requires i < j < |items| && items[i] == items[j]
    ensures multiset(items)[items[i]] >= 2
  {
    assert items == items[..j] + [items[j]] + items[j + 1..];
    assert items[..j][i] == items[i];
    assert items[i] in multiset(items[..j]);
  }

  lemma SameMembers(a: seq<Json>, b: seq<Json>)
    requires multiset(a) == multiset(b)
    ensures forall x :: x in a ==> x in b
  {
    forall x | x in a
      ensures x in b
    {
      assert x in multiset(a);
    }
  }

  lemma AllSoundPermuted(a: seq<Json>, b: seq<Json>, source: Materialized)
    requires multiset(a) == multiset(b) && AllSound(a, source)
    ensures AllSound(b, source)
  {
    SameMembers(b, a);
    forall i | 0 <= i < |b|
      ensures Sound(b[i], source)
    {
      assert b[i] in a;
    }
  }

  lemma DistinctPathsPermuted(a: seq<Json>, b: seq<Json>)
    requires multiset(a) == multiset(b) && DistinctPaths(a)
    ensures DistinctPaths(b)
  {
    SameMembers(b, a);
    forall i, j | 0 <= i < j < |b|
      ensures PathOf(b[i]) != PathOf(b[j])
    {
      assert b[i] in a && b[j] in a;
      var p :| 0 <= p < |a| && a[p] == b[i];
      var q :| 0 <= q < |a| && a[q] == b[j];
      if b[i] == b[j] {
        TwiceCounted(b, i, j);
        TwoPlaces(a, b[i]);
      } else {
        assert p < q || q < p;
      }
    }
  }

  // Files with distinct normal paths have distinct raw paths.
  lemma RawPathsDistinct(items: seq<Json>, source: Materialized)
    requires AllSound(items, source) && DistinctPaths(items)
    ensures DistinctKeys(Decorated(items))
  {
    var fields := Decorated(items);
    forall i, j | 0 <= i < j < |fields|
      ensures fields[i].key != fields[j].key
    {
      assert Sound(items[i], source) && Sound(items[j], source);
      assert PathOf(items[i]) != PathOf(items[j]);
    }
  }

  lemma DecoratedMembers(a: seq<Json>, b: seq<Json>)
    requires multiset(a) == multiset(b)
    ensures forall f :: f in Decorated(a) ==> f in Decorated(b)
  {
    SameMembers(a, b);
    forall f | f in Decorated(a)
      ensures f in Decorated(b)
    {
      var i :| 0 <= i < |a| && Decorated(a)[i] == f;
      assert a[i] in b;
      var j :| 0 <= j < |b| && b[j] == a[i];
      assert Decorated(b)[j] == f;
    }
  }

  // Any two orders of the same sound files are checked in one and the same order.
  lemma SameOrder(a: seq<Json>, b: seq<Json>, source: Materialized)
    requires multiset(a) == multiset(b)
    requires AllSound(a, source) && DistinctPaths(a)
    ensures InOrder(a) == InOrder(b)
  {
    AllSoundPermuted(a, b, source);
    DistinctPathsPermuted(a, b);
    RawPathsDistinct(a, source);
    RawPathsDistinct(b, source);
    SortSorts(Decorated(a));
    SortSorts(Decorated(b));
    DecoratedMembers(a, b);
    DecoratedMembers(b, a);
    SortedUnique(SortFields(Decorated(a)), SortFields(Decorated(b)));
  }

  /** Reordering the files of a submission changes neither the verdict nor the projection. */
  lemma OrderIrrelevant(a: seq<Json>, b: seq<Json>, source: Materialized, expected: Expected)
    requires multiset(a) == multiset(b)
    requires Acceptable(Some(Array(a)), source, expected)
    ensures Acceptable(Some(Array(b)), source, expected)
    ensures InOrder(a) == InOrder(b)
  {
    AllSoundPermuted(a, b, source);
    DistinctPathsPermuted(a, b);
    SameOrder(a, b, source);
    assert |multiset(a)| == |a| && |multiset(b)| == |b|;
  }

  lemma BlamesPermuted(e: SubmissionError, a: seq<Json>, b: seq<Json>, source: Materialized)
    requires multiset(a) == multiset(b) && Blames(e, a, source)
    ensures Blames(e, b, source)
  {
    SameMembers(a, b);
    if e.DuplicatePath? && DistinctPaths(b) {
      DistinctPathsPermuted(b, a);
    }
  }

  // Each error names something that is wrong.
  ghost predicate Explains(e: SubmissionError, files: Option<Json>, source: Materialized, expected: Expected) {
    var listed := files.Some? && files.value.Array? && files.value.items != [];
    match e
    case FilesNotAList => !listed
    case CountMismatch => listed && expected.fileCount != Some(|files.value.items|)
    case HashMalformed => listed && expected.sourceHash.NotAHash?
    case TotalMismatch => listed && !Faithful(files.value.items, expected)
    case HashMismatch => listed && !Faithful(files.value.items, expected)
    case _ => listed && Blames(e, files.value.items, source)
  }

  method VerifyMaterializedSubmission(files: Option<Json>, source: Materialized, expected: Expected)
    returns (r: Result<seq<Component>, SubmissionError>)
    ensures r.Ok? <==> Acceptable(files, source, expected)
    ensures r.Ok? ==> r.value == Components(InOrder(files.value.items))
    ensures r.Err? ==> Explains(r.error, files, source, expected)
  {
    if files.None? || !files.value.Array? || files.value.items == [] {
      return Err(FilesNotAList);
    }
    var items := files.value.items;
    if expected.fileCount != Some(|items|) {
      return Err(CountMismatch);
    }
    InOrderPermutes(items);
    var collected := Collect(InOrder(items), source);
    if collected.Err? {
      if AllSound(items, source) && DistinctPaths(items) {
        AllSoundPermuted(items, InOrder(items), source);
        DistinctPathsPermuted(items, InOrder(items));
      }
      BlamesPermuted(collected.error, InOrder(items), items, source);
      return Err(collected.error);
    }
    AllSoundPermuted(InOrder(items), items, source);
    DistinctPathsPermuted(InOrder(items), items);
    var c := collected.value;
    if expected.totalBytes != Some(c.totalBytes) {
      return Err(TotalMismatch);
    }
    if expected.sourceHash.NotAHash? {
      return Err(HashMalformed);
    }
    if Sha256Of(c.projection) != expected.sourceHash.hash {
      return Err(HashMismatch);
    }
    r := Ok(c.components);
  }

  // ------------------------------------------------------------ identity of evidence

  lemma SubjectsInjective(a: seq<Component>, b: seq<Component>)
    requires Subjects(a) == Subjects(b)
    ensures a == b
  {
    assert |Subjects(a)| == |a| && |Subjects(b)| == |b|;
    forall i | 0 <= i < |a|
      ensures a[i] == b[i]
    {
      assert Subjects(a)[i] == Subjects(b)[i];
      EncodeInjective(a[i].path, b[i].path);
    }
  }

  /** Submissions accepted under the same source hash have the same paths and contents. */
  lemma HashIdentifiesSource(
    f: Option<Json>, s: Materialized, e: Expected, g: Option<Json>, t: Materialized, d: Expected)
    requires Acceptable(f, s, e) && Acceptable(g, t, d)
    requires e.sourceHash == d.sourceHash
    ensures Components(InOrder(f.value.items)) == Components(InOrder(g.value.items))
  {
    var (a, b) := (Components(InOrder(f.value.items)), Components(InOrder(g.value.items)));
    ProjectionInjective(Subjects(a), Subjects(b));
    SubjectsInjective(a, b);
  }
}
