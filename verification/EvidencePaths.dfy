/** Where in the evidence the guard looks, stated by the way there. */
module EvidencePaths {
  import opened Common
  import opened NumericGuard
  import opened NarrativeDraft

  // Going down by the given positions, each among the first fifty, leads from `e` to `leaf`.
  predicate LeadsTo(e: Evidence, path: seq<nat>, leaf: Evidence)
    decreases |path|
  {
    if path == [] then leaf == e
    else
      match e
      case DictNode(values) => path[0] < |values| && path[0] < 50 && LeadsTo(values[path[0]], path[1..], leaf)
      case ListNode(items) => path[0] < |items| && path[0] < 50 && LeadsTo(items[path[0]], path[1..], leaf)
      case _ => false
  }

  // The leaf is the number, or a text with the number among its first twenty.
  predicate LeafGives(leaf: Evidence, x: real) {
    match leaf
    case NumberLeaf(value) => value == x
    case TextLeaf(text) =>
      exists k :: 0 <= k < |FindNumbers(text, true)| && k < 20 && TokenValue(FindNumbers(text, true)[k]) == x
    case _ => false
  }

  ghost predicate Found(e: Evidence, x: real, path: seq<nat>, leaf: Evidence, most: int) {
    |path| <= most && LeadsTo(e, path, leaf) && LeafGives(leaf, x)
  }

  ghost predicate FoundWithin(e: Evidence, x: real, most: int) {
    exists path, leaf :: Found(e, x, path, leaf, most)
  }

  function ChildrenOf(e: Evidence): seq<Evidence> {
    match e
    case DictNode(values) => values
    case ListNode(items) => items
    case _ => []
  }

  lemma ChildFound(e: Evidence, x: real, most: int, k: nat)
    requires k < |ChildrenOf(e)| && k < 50 && FoundWithin(ChildrenOf(e)[k], x, most - 1)
    ensures FoundWithin(e, x, most)
  {
    var path, leaf :| Found(ChildrenOf(e)[k], x, path, leaf, most - 1);
    assert ([k] + path)[1..] == path;
    assert Found(e, x, [k] + path, leaf, most);
  }

  lemma FoundBelow(e: Evidence, x: real, path: seq<nat>, leaf: Evidence, most: int)
    requires Found(e, x, path, leaf, most) && path != []
    ensures path[0] < |ChildrenOf(e)| && path[0] < 50 && FoundWithin(ChildrenOf(e)[path[0]], x, most - 1)
  {
    assert Found(ChildrenOf(e)[path[0]], x, path[1..], leaf, most - 1);
  }

  lemma LeafFound(e: Evidence, x: real, most: int)
    requires most >= 0 && LeafGives(e, x)
    ensures FoundWithin(e, x, most)
  {
    assert Found(e, x, [], e, most);
  }

  /**
   * The evidence mentions a number if and only if some leaf at most four levels down, always
   * among the first fifty entries, is the number or a text with it among its first twenty.
   */
  lemma {:induction false} MentionsExactly(e: Evidence, depth: nat, x: real)
    ensures Mentions(e, depth, x) <==> FoundWithin(e, x, 4 - depth)
    decreases e
  {
    var (children, most) := (ChildrenOf(e), 4 - depth);
    if depth <= 4 {
      forall k | 0 <= k < |children|
        ensures Mentions(children[k], depth + 1, x) <==> FoundWithin(children[k], x, most - 1)
      {
        MentionsExactly(children[k], depth + 1, x);
      }
    }
    if Mentions(e, depth, x) {
      if LeafGives(e, x) {
        LeafFound(e, x, most);
      } else {
        var k :| 0 <= k < Least(50, |children|) && Mentions(children[k], depth + 1, x);
        ChildFound(e, x, most, k);
      }
    }
    if path, leaf :| Found(e, x, path, leaf, most) {
      if path != [] {
        FoundBelow(e, x, path, leaf, most);
      }
    }
  }

  /** What a drafted figure may rest on: 0, 1, 100, the evidence, and the digits of the case id. */
  lemma TraceableExactly(evidence: Evidence, caseId: string, x: real)
    ensures Traceable(evidence, caseId, x) <==>
      || x == 0.0 || x == 1.0 || x == 100.0
      || FoundWithin(evidence, x, 4)
      || exists k :: 0 <= k < |FindNumbers(caseId, false)| && TokenValue(FindNumbers(caseId, false)[k]) == x
  {
    MentionsExactly(evidence, 0, x);
  }
}
