/** Bounded validation and summary of ADK workflow inputs. */
module AdkInputs {
  import opened Common
  import opened DecimalText
  import opened CanonicalJson
  import opened Utf8

  const MAX_ADK_INPUT_BYTES := 65_536
  const MAX_ADK_INPUT_DEPTH := 8
  const MAX_ADK_INPUT_NODES := 2_048
  const MAX_ADK_INPUT_KEYS := 1_024
  const MAX_ADK_LIST_ITEMS := 512
  const MAX_ADK_STRING_LENGTH := 4_096
  const MAX_ADK_KEY_LENGTH := 128
  const MAX_ADK_TRIANGLE_ROWS := 256

  // What a caller may hand over, including the Python values JSON has no place for.
  datatype Input =
    | NoneInput
    | BoolInput(truth: bool)
    | IntInput(lexeme: string)
    | FloatInput(lexeme: string, finite: bool)
    | TextInput(text: string)
    | ListInput(items: seq<Input>)
    | DictInput(entries: seq<Entry>)
    | OtherInput

  datatype Key = TextKey(text: string) | OtherKey

  datatype Entry = Entry(key: Key, value: Input)

  datatype InputError =
    | InputsInvalid
    | TooComplex
    | KeyInvalid
    | TooLarge
    | TriangleTooLarge
    | StringTooLong
    | NonFinite
    | TypeInvalid

  datatype Metrics = Metrics(nodes: nat, keys: nat, depth: nat)

  datatype InputReport = InputReport(serializedBytes: nat, nodeCount: nat, keyCount: nat, maxDepth: nat)

  // --------------------------------------------------------- recursive reading

  function Max(a: nat, b: nat): nat {
    if a >= b then a else b
  }

  function Combine(a: Metrics, b: Metrics): Metrics {
    Metrics(a.nodes + b.nodes, a.keys + b.keys, Max(a.depth, b.depth))
  }

  // Node count, key count and greatest depth of a value sitting at `depth`.
  function Measure(v: Input, depth: nat): (m: Metrics)
    ensures m.nodes >= 1
    decreases v
  {
    match v
    case ListInput(items) => Combine(Metrics(1, 0, depth), MeasureItems(items, depth + 1))
    case DictInput(entries) => Combine(Metrics(1, |entries|, depth), MeasureEntries(entries, depth + 1))
    case _ => Metrics(1, 0, depth)
  }

  function MeasureItems(items: seq<Input>, depth: nat): Metrics
    decreases items
  {
    if items == [] then Metrics(0, 0, 0)
    else Combine(Measure(items[0], depth), MeasureItems(items[1..], depth))
  }

  function MeasureEntries(entries: seq<Entry>, depth: nat): Metrics
    decreases entries
  {
    if entries == [] then Metrics(0, 0, 0)
    else
      assert entries[0].value < entries[0];
      Combine(Measure(entries[0].value, depth), MeasureEntries(entries[1..], depth))
  }

  // Python's `str.casefold` is a parameter of the model: any total function.
  type Casefold = string -> string

  predicate HasTriangle(s: string) {
    exists i :: 0 <= i <= |s| && "triangle" <= s[i..]
  }

  predicate TriangleKey(fold: Casefold, parent: Option<string>) {
    parent.Some? && HasTriangle(fold(parent.value))
  }

  predicate GoodKey(k: Key) {
    k.TextKey? && 0 < |k.text| <= MAX_ADK_KEY_LENGTH
  }

  // The bound that error `e` stands for, at one node.
  predicate NodeBound(fold: Casefold, e: InputError, v: Input, depth: nat, parent: Option<string>) {
    match e
    case TooComplex => depth <= MAX_ADK_INPUT_DEPTH
    case KeyInvalid => v.DictInput? ==> forall i :: 0 <= i < |v.entries| ==> GoodKey(v.entries[i].key)
    case TooLarge => v.ListInput? ==> |v.items| <= MAX_ADK_LIST_ITEMS
    case TriangleTooLarge =>
      v.ListInput? && TriangleKey(fold, parent) ==> |v.items| <= MAX_ADK_TRIANGLE_ROWS
    case StringTooLong => v.TextInput? ==> |v.text| <= MAX_ADK_STRING_LENGTH
    case NonFinite => v.FloatInput? ==> v.finite
    case TypeInvalid => !v.OtherInput?
    case InputsInvalid => true
  }

  function KeyText(k: Key): string {
    if k.TextKey? then k.text else ""
  }

  // Bound `e` holds at every node; list items inherit the key their list sits under.
  predicate Holds(fold: Casefold, e: InputError, v: Input, depth: nat, parent: Option<string>)
    decreases v
  {
    && NodeBound(fold, e, v, depth, parent)
    && match v
       case ListInput(items) =>
         forall i :: 0 <= i < |items| ==> Holds(fold, e, items[i], depth + 1, parent)
       case DictInput(entries) =>
         forall i :: 0 <= i < |entries| ==>
           Holds(fold, e, entries[i].value, depth + 1, Some(KeyText(entries[i].key)))
       case _ => true
  }

  ghost predicate AllHold(fold: Casefold, v: Input, depth: nat, parent: Option<string>) {
    forall e: InputError :: Holds(fold, e, v, depth, parent)
  }

  // --------------------------------------------------------- serialized size

  function ToJson(v: Input): Json
    decreases v
  {
    match v
    case NoneInput => Null
    case BoolInput(truth) => Bool(truth)
    case IntInput(lexeme) => Number(lexeme)
    case FloatInput(lexeme, _) => Number(lexeme)
    case TextInput(text) => Text(text)
    case ListInput(items) => Array(ToJsonItems(items))
    case DictInput(entries) => Object(ToJsonFields(entries))
    case OtherInput => Null
  }

  function ToJsonItems(items: seq<Input>): seq<Json>
    decreases items
  {
    if items == [] then [] else [ToJson(items[0])] + ToJsonItems(items[1..])
  }

  function ToJsonFields(entries: seq<Entry>): seq<Field>
    decreases entries
  {
    if entries == [] then []
    else
      assert entries[0].value < entries[0];
      [Field(KeyText(entries[0].key), ToJson(entries[0].value))] + ToJsonFields(entries[1..])
  }

  function SerializedBytes(v: Input): nat {
    Utf8Length(CanonicalText(ToJson(v)))
  }

  // ------------------------------------------------------ the explicit stack

  datatype Frame = Frame(value: Input, depth: nat, parent: Option<string>)

  function MeasureStack(stack: seq<Frame>): Metrics {
    if stack == [] then Metrics(0, 0, 0)
    else
      var top := stack[|stack| - 1];
      Combine(Measure(top.value, top.depth), MeasureStack(stack[..|stack| - 1]))
  }

  predicate StackHolds(fold: Casefold, e: InputError, stack: seq<Frame>) {
    forall i :: 0 <= i < |stack| ==> Holds(fold, e, stack[i].value, stack[i].depth, stack[i].parent)
  }

  function ItemFrames(items: seq<Input>, depth: nat, parent: Option<string>): (r: seq<Frame>)
    ensures |r| == |items|
  {
    seq(|items|, i requires 0 <= i < |items| => Frame(items[i], depth, parent))
  }

  function EntryFrames(entries: seq<Entry>, depth: nat): (r: seq<Frame>)
    ensures |r| == |entries|
  {
    seq(|entries|, i requires 0 <= i < |entries| =>
      Frame(entries[i].value, depth, Some(KeyText(entries[i].key))))
  }

  lemma CombineSwaps(t: Metrics, x: Metrics, y: Metrics)
    ensures Combine(t, Combine(x, y)) == Combine(x, Combine(t, y))
  {
  }

  lemma MeasureStackPush(stack: seq<Frame>, f: Frame)
    ensures MeasureStack(stack + [f]) == Combine(Measure(f.value, f.depth), MeasureStack(stack))
  {
    assert (stack + [f])[..|stack + [f]| - 1] == stack;
  }

  lemma {:induction false} MeasureStackAppend(a: seq<Frame>, b: seq<Frame>)
    ensures MeasureStack(a + b) == Combine(MeasureStack(a), MeasureStack(b))
  {
    if b == [] {
      assert a + b == a;
    } else {
      var top, below := b[|b| - 1], b[..|b| - 1];
      MeasureStackPush(a + below, top);
      MeasureStackPush(below, top);
      assert a + b == (a + below) + [top];
      assert b == below + [top];
      MeasureStackAppend(a, below);
      CombineSwaps(Measure(top.value, top.depth), MeasureStack(a), MeasureStack(below));
    }
  }

  lemma {:induction false} MeasureItemFrames(items: seq<Input>, depth: nat, parent: Option<string>)
    ensures MeasureStack(ItemFrames(items, depth, parent)) == MeasureItems(items, depth)
  {
    if items == [] {
    } else {
      var first := [Frame(items[0], depth, parent)];
      assert ItemFrames(items, depth, parent) == first + ItemFrames(items[1..], depth, parent);
      MeasureStackAppend(first, ItemFrames(items[1..], depth, parent));
      MeasureItemFrames(items[1..], depth, parent);
      assert first[..0] == [];
    }
  }

  lemma {:induction false} MeasureEntryFrames(entries: seq<Entry>, depth: nat)
    ensures MeasureStack(EntryFrames(entries, depth)) == MeasureEntries(entries, depth)
  {
    if entries == [] {
    } else {
      var first := [Frame(entries[0].value, depth, Some(KeyText(entries[0].key)))];
      assert EntryFrames(entries, depth) == first + EntryFrames(entries[1..], depth);
      MeasureStackAppend(first, EntryFrames(entries[1..], depth));
      MeasureEntryFrames(entries[1..], depth);
      assert first[..0] == [];
    }
  }

  function Children(f: Frame): seq<Frame> {
    match f.value
    case ListInput(items) => ItemFrames(items, f.depth + 1, f.parent)
    case DictInput(entries) => EntryFrames(entries, f.depth + 1)
    case _ => []
  }

  function OwnKeys(v: Input): nat {
    if v.DictInput? then |v.entries| else 0
  }

  lemma MeasureNode(f: Frame)
    ensures Measure(f.value, f.depth) ==
            Combine(Metrics(1, OwnKeys(f.value), f.depth), MeasureStack(Children(f)))
  {
    match f.value
    case ListInput(items) => MeasureItemFrames(items, f.depth + 1, f.parent);
    case DictInput(entries) => MeasureEntryFrames(entries, f.depth + 1);
    case _ =>
  }

  lemma CombineRegroups(own: Metrics, inner: Metrics, rest: Metrics)
    ensures Combine(Combine(own, inner), rest) == Combine(own, Combine(rest, inner))
  {
  }

  // Popping a frame and pushing its children keeps the totals.
  lemma PopKeepsMeasure(rest: seq<Frame>, f: Frame)
    ensures MeasureStack(rest + [f]) ==
            Combine(Metrics(1, OwnKeys(f.value), f.depth), MeasureStack(rest + Children(f)))
  {
    MeasureStackPush(rest, f);
    MeasureNode(f);
    MeasureStackAppend(rest, Children(f));
    CombineRegroups(Metrics(1, OwnKeys(f.value), f.depth), MeasureStack(Children(f)), MeasureStack(rest));
  }

  lemma PopKeepsBound(fold: Casefold, e: InputError, rest: seq<Frame>, f: Frame)
    ensures StackHolds(fold, e, rest + [f])
       <==> NodeBound(fold, e, f.value, f.depth, f.parent) && StackHolds(fold, e, rest + Children(f))
  {
    var whole, after := rest + [f], rest + Children(f);
    if StackHolds(fold, e, whole) {
      assert whole[|rest|] == f;
      forall i | 0 <= i < |after|
        ensures Holds(fold, e, after[i].value, after[i].depth, after[i].parent)
      {
        if i < |rest| {
          assert whole[i] == after[i];
        }
      }
    } else if NodeBound(fold, e, f.value, f.depth, f.parent) && StackHolds(fold, e, after) {
      forall i | 0 <= i < |whole|
        ensures Holds(fold, e, whole[i].value, whole[i].depth, whole[i].parent)
      {
        if i < |rest| {
          assert whole[i] == after[i];
        } else {
          ChildrenHold(fold, e, rest, f);
        }
      }
      assert false;
    }
  }

  lemma ChildrenHold(fold: Casefold, e: InputError, rest: seq<Frame>, f: Frame)
    requires NodeBound(fold, e, f.value, f.depth, f.parent)
    requires StackHolds(fold, e, rest + Children(f))
    ensures Holds(fold, e, f.value, f.depth, f.parent)
  {
    var after := rest + Children(f);
    match f.value
    case ListInput(items) =>
      forall i | 0 <= i < |items| ensures Holds(fold, e, items[i], f.depth + 1, f.parent) {
        assert after[|rest| + i] == Frame(items[i], f.depth + 1, f.parent);
      }
    case DictInput(entries) =>
      forall i | 0 <= i < |entries|
        ensures Holds(fold, e, entries[i].value, f.depth + 1, Some(KeyText(entries[i].key)))
      {
        assert after[|rest| + i] == Frame(entries[i].value, f.depth + 1, Some(KeyText(entries[i].key)));
      }
    case _ =>
  }

  ghost predicate WithinTotals(m: Metrics) {
    m.nodes <= MAX_ADK_INPUT_NODES && m.keys <= MAX_ADK_INPUT_KEYS
  }

  // Everything a caller has to respect for an input to be accepted.
  ghost predicate Acceptable(fold: Casefold, inputs: Input) {
    && inputs.DictInput?
    && WithinTotals(Measure(inputs, 1))
    && AllHold(fold, inputs, 1, None)
    && SerializedBytes(inputs) <= MAX_ADK_INPUT_BYTES
  }

  // Error `e` names a bound the input breaks.
  ghost predicate Breaks(fold: Casefold, e: InputError, inputs: Input) {
    match e
    case InputsInvalid => !inputs.DictInput?
    case TooComplex => !WithinTotals(Measure(inputs, 1)) || !Holds(fold, TooComplex, inputs, 1, None)
    case TooLarge => !Holds(fold, TooLarge, inputs, 1, None) || SerializedBytes(inputs) > MAX_ADK_INPUT_BYTES
    case _ => !Holds(fold, e, inputs, 1, None)
  }

  // One popped node: its own checks, then its children go on the stack.
  method VisitNode(fold: Casefold, top: Frame, keys: nat, rest: seq<Frame>)
    returns (error: Option<InputError>, keyCount: nat, stack: seq<Frame>)
    requires top.depth <= MAX_ADK_INPUT_DEPTH
    ensures error.None? ==>
      && keyCount == keys + OwnKeys(top.value) <= Max(keys, MAX_ADK_INPUT_KEYS)
      && stack == rest + Children(top)
      && forall e: InputError :: NodeBound(fold, e, top.value, top.depth, top.parent)
    ensures error.Some? ==>
      || (error.value == TooComplex && keys + OwnKeys(top.value) > MAX_ADK_INPUT_KEYS)
      || !NodeBound(fold, error.value, top.value, top.depth, top.parent)
    ensures error.Some? ==> error.value != InputsInvalid
  {
    error, keyCount, stack := None, keys, rest;
    match top.value {
      case DictInput(entries) =>
        keyCount := keyCount + |entries|;
        if keyCount > MAX_ADK_INPUT_KEYS {
          error := Some(TooComplex);
          return;
        }
        var i := 0;
        while i < |entries|
          invariant 0 <= i <= |entries|
          invariant stack == rest + EntryFrames(entries, top.depth + 1)[..i]
          invariant forall k :: 0 <= k < i ==> GoodKey(entries[k].key)
        {
          if !GoodKey(entries[i].key) {
            error := Some(KeyInvalid);
            return;
          }
          stack := stack + [Frame(entries[i].value, top.depth + 1, Some(entries[i].key.text))];
          i := i + 1;
        }
        assert EntryFrames(entries, top.depth + 1)[..i] == Children(top);
      case ListInput(items) =>
        if |items| > MAX_ADK_LIST_ITEMS {
          error := Some(TooLarge);
          return;
        }
        if TriangleKey(fold, top.parent) {
          if |items| > MAX_ADK_TRIANGLE_ROWS {
            error := Some(TriangleTooLarge);
            return;
          }
        }
        stack := stack + ItemFrames(items, top.depth + 1, top.parent);
      case TextInput(text) =>
        if |text| > MAX_ADK_STRING_LENGTH {
          error := Some(StringTooLong);
        }
      case FloatInput(_, finite) =>
        if !finite {
          error := Some(NonFinite);
        }
      case OtherInput =>
        error := Some(TypeInvalid);
      case _ =>
    }
  }

  // What the pass has seen and what is left on the stack make up the whole, of which
  // `total` is the measure and `held` says which bounds hold.
  ghost predicate Remaining(
    fold: Casefold, total: Metrics, held: InputError -> bool, seen: Metrics, stack: seq<Frame>)
  {
    && Combine(seen, MeasureStack(stack)) == total
    && forall e: InputError :: held(e) <==> StackHolds(fold, e, stack)
  }

  function SeenNode(seen: Metrics, top: Frame): Metrics {
    Metrics(seen.nodes + 1, seen.keys + OwnKeys(top.value), Max(seen.depth, top.depth))
  }

  lemma StartsWhole(fold: Casefold, start: Frame)
    ensures Remaining(fold, Measure(start.value, start.depth),
              e => Holds(fold, e, start.value, start.depth, start.parent), Metrics(0, 0, 0), [start])
  {
    MeasureStackPush([], start);
    assert [] + [start] == [start];
  }

  lemma SeenRegroups(seen: Metrics, top: Frame, rest: Metrics)
    ensures Combine(seen, Combine(Metrics(1, OwnKeys(top.value), top.depth), rest)) == Combine(SeenNode(seen, top), rest)
  {
  }

  lemma PopKeepsSeen(total: Metrics, seen: Metrics, rest: seq<Frame>, top: Frame)
    requires Combine(seen, MeasureStack(rest + [top])) == total
    ensures Combine(SeenNode(seen, top), MeasureStack(rest + Children(top))) == total
    ensures MeasureStack(rest + Children(top)).nodes < MeasureStack(rest + [top]).nodes
  {
    PopKeepsMeasure(rest, top);
    SeenRegroups(seen, top, MeasureStack(rest + Children(top)));
  }

  // A node that keeps its bounds leaves the rest to be seen.
  lemma PopKeepsRemaining(
    fold: Casefold, total: Metrics, held: InputError -> bool, seen: Metrics, rest: seq<Frame>, top: Frame)
    requires Remaining(fold, total, held, seen, rest + [top])
    requires forall e: InputError :: NodeBound(fold, e, top.value, top.depth, top.parent)
    ensures Remaining(fold, total, held, SeenNode(seen, top), rest + Children(top))
    ensures MeasureStack(rest + Children(top)).nodes < MeasureStack(rest + [top]).nodes
  {
    PopKeepsSeen(total, seen, rest, top);
    forall e: InputError
      ensures held(e) <==> StackHolds(fold, e, rest + Children(top))
    {
      PopKeepsBound(fold, e, rest, top);
    }
  }

  // A node that does not refuses the whole.
  lemma PopRefuses(
    fold: Casefold, total: Metrics, held: InputError -> bool, seen: Metrics, rest: seq<Frame>, top: Frame, e: InputError)
    requires Remaining(fold, total, held, seen, rest + [top])
    requires !NodeBound(fold, e, top.value, top.depth, top.parent) ||
             (e == TooComplex && !WithinTotals(SeenNode(seen, top)))
    ensures !held(e) || (e == TooComplex && !WithinTotals(total))
  {
    PopKeepsSeen(total, seen, rest, top);
    PopKeepsBound(fold, e, rest, top);
  }

  lemma NothingRemains(fold: Casefold, total: Metrics, held: InputError -> bool, seen: Metrics)
    requires Remaining(fold, total, held, seen, [])
    ensures seen == total && forall e: InputError :: held(e)
  {
  }

  method ValidateInputs(fold: Casefold, inputs: Input) returns (r: Result<InputReport, InputError>)
    ensures r.Ok? <==> Acceptable(fold, inputs)
    ensures r.Ok? ==> r.value == Report(inputs)
    ensures r.Err? ==> Breaks(fold, r.error, inputs)
  {
    if !inputs.DictInput? {
      return Err(InputsInvalid);
    }
    var nodeCount: nat, keyCount: nat, maxDepth: nat := 0, 0, 0;
    var stack := [Frame(inputs, 1, None)];
    ghost var total, held := Measure(inputs, 1), (e: InputError) => Holds(fold, e, inputs, 1, None);
    StartsWhole(fold, stack[0]);
    while stack != []
      invariant Remaining(fold, total, held, Metrics(nodeCount, keyCount, maxDepth), stack)
      invariant WithinTotals(Metrics(nodeCount, keyCount, maxDepth))
      decreases MeasureStack(stack).nodes
    {
      ghost var seen := Metrics(nodeCount, keyCount, maxDepth);
      var top, rest := stack[|stack| - 1], stack[..|stack| - 1];
      assert stack == rest + [top];
      nodeCount := nodeCount + 1;
      maxDepth := Max(maxDepth, top.depth);
      if nodeCount > MAX_ADK_INPUT_NODES || top.depth > MAX_ADK_INPUT_DEPTH {
        PopRefuses(fold, total, held, seen, rest, top, TooComplex);
        return Err(TooComplex);
      }
      var error;
      error, keyCount, stack := VisitNode(fold, top, keyCount, rest);
      if error.Some? {
        PopRefuses(fold, total, held, seen, rest, top, error.value);
        return Err(error.value);
      }
      PopKeepsRemaining(fold, total, held, seen, rest, top);
    }
    NothingRemains(fold, total, held, Metrics(nodeCount, keyCount, maxDepth));
    assert forall e: InputError :: held(e) == Holds(fold, e, inputs, 1, None);
    var serialized := SerializedBytes(inputs);
    if serialized > MAX_ADK_INPUT_BYTES {
      return Err(TooLarge);
    }
    r := Ok(InputReport(serialized, nodeCount, keyCount, maxDepth));
  }

  function Report(inputs: Input): InputReport {
    var m := Measure(inputs, 1);
    InputReport(SerializedBytes(inputs), m.nodes, m.keys, m.depth)
  }
}
