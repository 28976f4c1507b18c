/** Refusal of storage-like keys and external or unsafe text in ADK inputs. */
module AdkStorageRules {
  import opened Common
  import opened AdkInputs

  datatype ScopeError = ScopeForbidden | ExternalSource | AbsoluteSource | UnsafeSource

  const FORBIDDEN_KEYS := {
    "artifact_dir", "artifact_dirs", "artifact_root", "artifact_roots",
    "manifest_path", "manifest_paths", "output_dir", "output_path",
    "output_paths", "output_file", "output_files", "filename", "filenames",
    "review_dir", "review_dirs", "review_store_dir", "review_store_dirs",
    "registry_path", "source", "source_root", "source_roots",
    "workspace_id", "created_by", "operator_id", "correlation_id",
    "url", "urls", "glob", "globs"
  }

  // Library behaviour the rules rest on: `str(key).lower()` and whether
  // `urlsplit` finds a scheme or a network location.
  datatype Library = Library(lowered: Key -> string, external: string -> bool)

  predicate Absolute(s: string) {
    || (s != [] && (s[0] == '/' || s[0] == '\\'))
    || (|s| >= 3 && s[1] == ':' && (s[2] == '\\' || s[2] == '/'))
  }

  predicate Separator(c: char) {
    c == '/' || c == '\\'
  }

  // Some path part, between separators of either kind, is exactly "..".
  predicate HasParentPart(s: string) {
    exists i :: 0 <= i < |s| && ".." <= s[i..]
      && (i == 0 || Separator(s[i - 1])) && (i + 2 == |s| || Separator(s[i + 2]))
  }

  predicate HasWildcard(s: string) {
    exists i :: 0 <= i < |s| && s[i] in "*?[]{}"
  }

  predicate TextBreaks(lib: Library, e: ScopeError, s: string) {
    match e
    case ScopeForbidden => false
    case ExternalSource => lib.external(s)
    case AbsoluteSource => Absolute(s)
    case UnsafeSource => HasParentPart(s) || HasWildcard(s)
  }

  predicate NodeBreaks(lib: Library, e: ScopeError, v: Input) {
    match v
    case TextInput(text) => TextBreaks(lib, e, text)
    case DictInput(entries) =>
      e == ScopeForbidden && exists i :: 0 <= i < |entries| && lib.lowered(entries[i].key) in FORBIDDEN_KEYS
    case _ => false
  }

  // Some node anywhere inside `v` breaks rule `e`.
  predicate Breaks(lib: Library, e: ScopeError, v: Input)
    decreases v
  {
    || NodeBreaks(lib, e, v)
    || match v
       case ListInput(items) => exists i :: 0 <= i < |items| && Breaks(lib, e, items[i])
       case DictInput(entries) => exists i :: 0 <= i < |entries| && Breaks(lib, e, entries[i].value)
       case _ => false
  }

  predicate StackBreaks(lib: Library, e: ScopeError, stack: seq<Input>) {
    exists i :: 0 <= i < |stack| && Breaks(lib, e, stack[i])
  }

  function Values(entries: seq<Entry>): (r: seq<Input>)
    ensures |r| == |entries|
  {
    seq(|entries|, i requires 0 <= i < |entries| => entries[i].value)
  }

  function Inner(v: Input): seq<Input> {
    match v
    case ListInput(items) => items
    case DictInput(entries) => Values(entries)
    case _ => []
  }

  lemma PopKeepsBreaks(lib: Library, e: ScopeError, rest: seq<Input>, v: Input)
    ensures StackBreaks(lib, e, rest + [v]) <==> NodeBreaks(lib, e, v) || StackBreaks(lib, e, rest + Inner(v))
  {
    var whole, after := rest + [v], rest + Inner(v);
    assert whole[|rest|] == v;
    assert Breaks(lib, e, v) <==> NodeBreaks(lib, e, v) || StackBreaks(lib, e, Inner(v)) by {
      match v
      case DictInput(entries) =>
        assert forall i :: 0 <= i < |entries| ==> Values(entries)[i] == entries[i].value;
      case _ =>
    }
    AppendBreaks(lib, e, rest, [v]);
    AppendBreaks(lib, e, rest, Inner(v));
    assert StackBreaks(lib, e, [v]) <==> Breaks(lib, e, [v][0]);
  }

  lemma AppendBreaks(lib: Library, e: ScopeError, a: seq<Input>, b: seq<Input>)
    ensures StackBreaks(lib, e, a + b) <==> StackBreaks(lib, e, a) || StackBreaks(lib, e, b)
  {
    if StackBreaks(lib, e, a) {
      var i :| 0 <= i < |a| && Breaks(lib, e, a[i]);
      assert (a + b)[i] == a[i];
    } else if StackBreaks(lib, e, b) {
      var i :| 0 <= i < |b| && Breaks(lib, e, b[i]);
      assert (a + b)[|a| + i] == b[i];
    }
  }

  function Size(v: Input): (n: nat)
    ensures n >= 1
  {
    Measure(v, 1).nodes
  }

  function StackSize(stack: seq<Input>): nat {
    if stack == [] then 0 else Size(stack[0]) + StackSize(stack[1..])
  }

  lemma {:induction false} SizeIgnoresDepth(v: Input, d: nat)
    ensures Measure(v, d).nodes == Size(v)
    decreases v, 1
  {
    match v
    case ListInput(items) =>
      ItemsSize(items, d + 1);
      ItemsSize(items, 2);
    case DictInput(entries) =>
      EntriesSize(entries, d + 1);
      EntriesSize(entries, 2);
    case _ =>
  }

  lemma {:induction false} ItemsSize(items: seq<Input>, d: nat)
    ensures MeasureItems(items, d).nodes == StackSize(items)
    decreases items, 0
  {
    if items == [] {
    } else {
      SizeIgnoresDepth(items[0], d);
      ItemsSize(items[1..], d);
    }
  }

  lemma {:induction false} EntriesSize(entries: seq<Entry>, d: nat)
    ensures MeasureEntries(entries, d).nodes == StackSize(Values(entries))
    decreases entries, 0
  {
    if entries == [] {
    } else {
      assert entries[0].value < entries[0];
      SizeIgnoresDepth(entries[0].value, d);
      EntriesSize(entries[1..], d);
      assert Values(entries)[1..] == Values(entries[1..]);
    }
  }

  lemma {:induction false} StackSizeAppend(a: seq<Input>, b: seq<Input>)
    ensures StackSize(a + b) == StackSize(a) + StackSize(b)
  {
    if a == [] {
      assert a + b == b;
    } else {
      assert (a + b)[1..] == a[1..] + b;
      StackSizeAppend(a[1..], b);
    }
  }

  lemma PopShrinks(rest: seq<Input>, v: Input)
    ensures StackSize(rest + Inner(v)) < StackSize(rest + [v])
  {
    StackSizeAppend(rest, [v]);
    StackSizeAppend(rest, Inner(v));
    assert StackSize([v]) == Size(v);
    match v
    case ListInput(items) => ItemsSize(items, 2);
    case DictInput(entries) => EntriesSize(entries, 2);
    case _ =>
  }

  // The rules at one node; its inner values go on the stack.
  method CheckNode(lib: Library, value: Input, rest: seq<Input>)
    returns (error: Option<ScopeError>, stack: seq<Input>)
    ensures error.Some? ==> NodeBreaks(lib, error.value, value)
    ensures error.None? ==> stack == rest + Inner(value) && forall e: ScopeError :: !NodeBreaks(lib, e, value)
  {
    stack := rest;
    match value {
      case DictInput(entries) =>
        var i := 0;
        while i < |entries|
          invariant 0 <= i <= |entries|
          invariant stack == rest + Values(entries)[..i]
          invariant forall k :: 0 <= k < i ==> lib.lowered(entries[k].key) !in FORBIDDEN_KEYS
        {
          if lib.lowered(entries[i].key) in FORBIDDEN_KEYS {
            return Some(ScopeForbidden), stack;
          }
          stack := stack + [entries[i].value];
          i := i + 1;
        }
        assert Values(entries)[..i] == Inner(value);
      case ListInput(items) =>
        stack := stack + items;
      case TextInput(text) =>
        if lib.external(text) {
          return Some(ExternalSource), stack;
        }
        if Absolute(text) {
          return Some(AbsoluteSource), stack;
        }
        if HasParentPart(text) || HasWildcard(text) {
          return Some(UnsafeSource), stack;
        }
      case _ =>
    }
    error := None;
  }

  // Accepts exactly the payloads in which no node at any depth breaks a rule.
  method RejectStorageLike(lib: Library, payload: Input) returns (error: Option<ScopeError>)
    ensures error.None? <==> forall e: ScopeError :: !Breaks(lib, e, payload)
    ensures error.Some? ==> Breaks(lib, error.value, payload)
  {
    var stack := [payload];
    while stack != []
      invariant forall e: ScopeError :: StackBreaks(lib, e, stack) <==> Breaks(lib, e, payload)
      decreases StackSize(stack)
    {
      var value, rest := stack[|stack| - 1], stack[..|stack| - 1];
      assert stack == rest + [value];
      forall e: ScopeError
        ensures Breaks(lib, e, payload) <==> NodeBreaks(lib, e, value) || StackBreaks(lib, e, rest + Inner(value))
      {
        PopKeepsBreaks(lib, e, rest, value);
      }
      PopShrinks(rest, value);
      error, stack := CheckNode(lib, value, rest);
      if error.Some? {
        return;
      }
    }
    error := None;
  }
}
