/** Facts about single input values: their JSON, and the paths hidden in their texts. */
module AdkInputFacts {
  import opened Common
  import opened CanonicalJson
  import opened AdkInputs
  import opened PosixPath
  import AdkStorageRules

  // -------------------------------------------------------------------- as JSON

  lemma {:induction false} ItemsKept(items: seq<Input>)
    ensures |ToJsonItems(items)| == |items|
    ensures forall i :: 0 <= i < |items| ==> ToJsonItems(items)[i] == ToJson(items[i])
  {
    if items == [] {
    } else {
      ItemsKept(items[1..]);
    }
  }

  lemma {:induction false} EntriesKept(entries: seq<Entry>)
    ensures |ToJsonFields(entries)| == |entries|
    ensures forall i :: 0 <= i < |entries| ==>
      ToJsonFields(entries)[i] == Field(KeyText(entries[i].key), ToJson(entries[i].value))
  {
    if entries == [] {
    } else {
      EntriesKept(entries[1..]);
    }
  }

  // The input a JSON value comes from: kind by kind, entry by entry.
  predicate Renders(j: Json, v: Input)
    decreases v
  {
    match v
    case NoneInput => j == Null
    case BoolInput(truth) => j == Bool(truth)
    case IntInput(lexeme) => j == Number(lexeme)
    case FloatInput(lexeme, _) => j == Number(lexeme)
    case TextInput(text) => j == Text(text)
    case ListInput(items) =>
      j.Array? && |j.items| == |items| && forall i :: 0 <= i < |items| ==> Renders(j.items[i], items[i])
    case DictInput(entries) =>
      && j.Object? && |j.fields| == |entries|
      && forall i :: 0 <= i < |entries| ==>
           (entries[i].key.TextKey? ==> j.fields[i].key == entries[i].key.text) && Renders(j.fields[i].value, entries[i].value)
    case OtherInput => true
  }

  /** An input's JSON has its values, in their order and under their keys, at every depth. */
  lemma {:induction false} JsonRenders(v: Input)
    ensures Renders(ToJson(v), v)
    decreases v
  {
    match v
    case ListInput(items) =>
      ItemsKept(items);
      forall i | 0 <= i < |items|
        ensures Renders(ToJson(v).items[i], items[i])
      {
        JsonRenders(items[i]);
      }
    case DictInput(entries) =>
      EntriesKept(entries);
      forall i | 0 <= i < |entries|
        ensures Renders(ToJson(v).fields[i].value, entries[i].value)
      {
        JsonRenders(entries[i].value);
      }
    case _ =>
  }

  // -------------------------------------------------------------- bounds at one node

  ghost predicate Contains(s: string, part: string) {
    exists before: string, after: string :: s == before + (part + after)
  }

  lemma HasTriangleExactly(s: string)
    ensures HasTriangle(s) <==> Contains(s, "triangle")
  {
    if HasTriangle(s) {
      var i :| 0 <= i <= |s| && "triangle" <= s[i..];
      var after := s[i..][|"triangle"|..];
      assert s == s[..i] + ("triangle" + after);
    }
    if before: string, after: string :| s == before + ("triangle" + after) {
      assert s[|before|..] == "triangle" + after;
    }
  }

  /** A list may have 512 items, and 256 under a key whose folded text contains "triangle". */
  lemma ListBounds(fold: Casefold, items: seq<Input>, depth: nat, parent: Option<string>)
    ensures NodeBound(fold, TooLarge, ListInput(items), depth, parent) <==> |items| <= 512
    ensures NodeBound(fold, TriangleTooLarge, ListInput(items), depth, parent) <==>
      (parent.Some? && Contains(fold(parent.value), "triangle") ==> |items| <= 256)
  {
    if parent.Some? {
      HasTriangleExactly(fold(parent.value));
    }
  }

  /** The other bounds at one node. */
  lemma NodeBounds(fold: Casefold, v: Input, depth: nat, parent: Option<string>)
    ensures NodeBound(fold, TooComplex, v, depth, parent) <==> depth <= 8
    ensures v.DictInput? ==>
      (NodeBound(fold, KeyInvalid, v, depth, parent) <==>
        forall i :: 0 <= i < |v.entries| ==> v.entries[i].key.TextKey? && 1 <= |v.entries[i].key.text| <= 128)
    ensures v.TextInput? ==> (NodeBound(fold, StringTooLong, v, depth, parent) <==> |v.text| <= 4096)
    ensures v.FloatInput? ==> (NodeBound(fold, NonFinite, v, depth, parent) <==> v.finite)
    ensures NodeBound(fold, TypeInvalid, v, depth, parent) <==> !v.OtherInput?
  {
  }

  // The bounds on the whole.
  lemma WholeBounds(fold: Casefold, inputs: Input)
    requires Acceptable(fold, inputs)
    ensures inputs.DictInput?
    ensures Measure(inputs, 1).nodes <= 2048 && Measure(inputs, 1).keys <= 1024 && SerializedBytes(inputs) <= 65536
  {
  }

  // ------------------------------------------------------------------ parent parts

  // ".." stands at `i` as a component of its own.
  predicate ParentAt(t: string, i: nat) {
    && i + 2 <= |t| && t[i] == '.' && t[i + 1] == '.'
    && (i == 0 || t[i - 1] == '/') && (i + 2 == |t| || t[i + 2] == '/')
  }

  ghost predicate HasParent(t: string) {
    exists i: nat :: ParentAt(t, i)
  }

  lemma ParentOfPiece(current: string)
    requires '/' !in current
    ensures HasParent(current) <==> current == ".."
  {
    if current == ".." {
      assert ParentAt(current, 0);
    }
    forall i: nat | ParentAt(current, i)
      ensures current == ".."
    {
      assert i == 0 && |current| == 2;
    }
  }

  lemma ParentOfJoined(current: string, rest: string)
    requires '/' !in current
    ensures HasParent(current + ['/'] + rest) <==> current == ".." || HasParent(rest)
  {
    var (t, n) := (current + ['/'] + rest, |current| + 1);
    if current == ".." {
      assert ParentAt(t, 0);
    }
    forall i: nat | ParentAt(rest, i)
      ensures ParentAt(t, n + i)
    {
    }
    forall i: nat | ParentAt(t, i)
      ensures current == ".." || (i >= n && ParentAt(rest, i - n))
    {
      PieceAt(current, rest, i);
    }
  }

  lemma PieceAt(current: string, rest: string, i: nat)
    requires '/' !in current && ParentAt(current + ['/'] + rest, i)
    ensures (i == 0 && current == "..") || (i >= |current| + 1 && ParentAt(rest, i - |current| - 1))
  {
    var t := current + ['/'] + rest;
    assert t[|current|] == '/';
    assert forall k :: 0 <= k < |current| ==> t[k] == current[k] && current[k] in current;
    assert forall k :: |current| < k < |t| ==> t[k] == rest[k - |current| - 1];
    if i <= |current| {
      assert i == 0;
      assert i + 2 <= |current|;
      assert |current| == 2;
    }
  }

  lemma {:induction false} ParentInParts(s: string, current: string)
    requires '/' !in current
    ensures ".." in PartsOf(s, current) <==> HasParent(current + s)
    decreases |s|
  {
    if s == [] {
      assert current + s == current;
      ParentOfPiece(current);
    } else if s[0] == '/' {
      ParentInParts(s[1..], []);
      assert [] + s[1..] == s[1..];
      assert current + s == current + ['/'] + s[1..];
      ParentOfJoined(current, s[1..]);
    } else {
      ParentInParts(s[1..], current + [s[0]]);
      assert current + s == current + [s[0]] + s[1..];
    }
  }

  // Backslashes as slashes.
  function Slashed(s: string): (r: string)
    ensures |r| == |s| && forall i :: 0 <= i < |s| ==> r[i] == if s[i] == '\\' then '/' else s[i]
  {
    seq(|s|, i requires 0 <= i < |s| => if s[i] == '\\' then '/' else s[i])
  }

  predicate AtOwnPlace(s: string, i: nat) {
    && i + 2 <= |s| && s[i] == '.' && s[i + 1] == '.'
    && (i == 0 || AdkStorageRules.Separator(s[i - 1])) && (i + 2 == |s| || AdkStorageRules.Separator(s[i + 2]))
  }

  lemma SlashedAt(s: string, t: string, i: nat)
    requires t == Slashed(s)
    ensures ParentAt(t, i) <==> AtOwnPlace(s, i)
  {
  }

  lemma DotsAt(s: string, i: nat)
    requires i <= |s|
    ensures ".." <= s[i..] <==> i + 2 <= |s| && s[i] == '.' && s[i + 1] == '.'
  {
    if i + 2 <= |s| {
      assert s[i..][0] == s[i] && s[i..][1] == s[i + 1];
    }
  }

  lemma HasParentPartAt(s: string)
    ensures AdkStorageRules.HasParentPart(s) <==> exists i: nat :: AtOwnPlace(s, i)
  {
    forall i: nat | i <= |s|
      ensures ".." <= s[i..] <==> i + 2 <= |s| && s[i] == '.' && s[i + 1] == '.'
    {
      DotsAt(s, i);
    }
    if AdkStorageRules.HasParentPart(s) {
      var i :| 0 <= i < |s| && ".." <= s[i..]
        && (i == 0 || AdkStorageRules.Separator(s[i - 1])) && (i + 2 == |s| || AdkStorageRules.Separator(s[i + 2]));
      assert AtOwnPlace(s, i);
    }
  }

  /** A text is refused for a parent part exactly when it has one between separators of either kind. */
  lemma ParentPartExactly(s: string)
    ensures AdkStorageRules.HasParentPart(s) <==> ".." in Parts(Slashed(s))
  {
    var t := Slashed(s);
    ParentInParts(t, []);
    assert [] + t == t;
    HasParentPartAt(s);
    if i: nat :| AtOwnPlace(s, i) {
      SlashedAt(s, t, i);
    }
    if i: nat :| ParentAt(t, i) {
      SlashedAt(s, t, i);
    }
  }

  // ------------------------------------------------------------------ other text rules

  predicate Slash(c: char) {
    c == '/' || c == '\\'
  }

  // A separator first, or a drive: any character, a colon and a separator.
  ghost predicate Rooted(s: string) {
    || (exists c, rest: string :: Slash(c) && s == [c] + rest)
    || (exists drive, c, rest: string :: Slash(c) && s == [drive, ':', c] + rest)
  }

  /** A text counts as absolute exactly when it starts with a separator or with a drive. */
  lemma AbsoluteExactly(s: string)
    ensures AdkStorageRules.Absolute(s) <==> Rooted(s)
  {
    if s != [] && Slash(s[0]) {
      assert s == [s[0]] + s[1..];
    }
    if |s| >= 3 && s[1] == ':' && Slash(s[2]) {
      assert s == [s[0], ':', s[2]] + s[3..];
    }
  }

  // One of * ? [ ] { } somewhere.
  ghost predicate Wild(s: string) {
    exists c :: c in s && (c == '*' || c == '?' || c == '[' || c == ']' || c == '{' || c == '}')
  }

  lemma WildChars()
    ensures forall c :: c in "*?[]{}" <==> c == '*' || c == '?' || c == '[' || c == ']' || c == '{' || c == '}'
  {
    var signs := "*?[]{}";
    assert signs[0] == '*' && signs[1] == '?' && signs[2] == '[' && signs[3] == ']' && signs[4] == '{' && signs[5] == '}';
  }

  /** A text is refused for a wildcard exactly when it has one of these six characters. */
  lemma WildcardExactly(s: string)
    ensures AdkStorageRules.HasWildcard(s) <==> Wild(s)
  {
    WildChars();
    if Wild(s) {
      var c :| c in s && (c == '*' || c == '?' || c == '[' || c == ']' || c == '{' || c == '}');
      var i :| 0 <= i < |s| && s[i] == c;
    }
    if AdkStorageRules.HasWildcard(s) {
      var i :| 0 <= i < |s| && s[i] in "*?[]{}";
      assert s[i] in s;
    }
  }
}
