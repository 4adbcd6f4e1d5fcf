/** `PathIterator`: the nodes on the way from the root to a key, as used for proofs. */
module PathIter {
  import opened Sequences
  import opened Nibbles
  import opened Trie
  import opened NodeIter
  import opened KeyRange

  datatype PathItem = PathItem(key: Path, node: Node, nextNibble: Option<Nibble>)

  /** The items from `node` down; `matched` is the path before its partial path. */
  ghost function Walk(node: Node, matched: Path, unmatched: Path): (items: seq<PathItem>)
    ensures |items| > 0
    decreases node
  {
    var key := matched + node.path;
    if node.Leaf? || !(node.path < unmatched) then [PathItem(key, node, None)]
    else
      var nibble := unmatched[|node.path|];
      if nibble >= |node.children| || node.children[nibble].NoChild? then [PathItem(key, node, None)]
      else [PathItem(key, node, Some(nibble))] +
           Walk(node.children[nibble].node, key + [nibble], unmatched[|node.path| + 1..])
  }

  ghost function WalkTrie(root: Option<Node>, key: Path): seq<PathItem> {
    if root.None? then [] else Walk(root.value, [], key)
  }

  datatype PathIteratorState =
    | Walking(matched: Path, unmatched: Path, node: Node)
    | Exhausted

  class PathIterator {
    var state: PathIteratorState

    ghost predicate Valid()
      reads this
    {
      state.Walking? ==> WellFormed(state.node, |state.matched|)
    }

    ghost function Pending(): seq<PathItem>
      reads this
    {
      if state.Exhausted? then [] else Walk(state.node, state.matched, state.unmatched)
    }

    constructor (root: Option<Node>, key: Key)
      requires WellFormedTrie(root)
      ensures Valid() && Pending() == WalkTrie(root, ToNibbles(key))
    {
      state := if root.None? then PathIteratorState.Exhausted else Walking([], ToNibbles(key), root.value);
    }

    method Next() returns (r: Option<PathItem>)
      requires Valid()
      modifies this
      ensures Valid()
      ensures old(Pending()) == [] ==> r.None? && Pending() == []
      ensures old(Pending()) != [] ==> r == Some(old(Pending())[0]) && Pending() == old(Pending())[1..]
    {
      if state.Exhausted? {
        return None;
      }
      var node := state.node;
      var comparison, rest := ComparePartialPath(node.path, state.unmatched);
      var key := state.matched + node.path;
      if comparison != Eq || node.Leaf? || rest == [] {
        state := PathIteratorState.Exhausted;
        return Some(PathItem(key, node, None));
      }
      var nibble := rest[0];
      match node.children[nibble] {
        case NoChild =>
          state := PathIteratorState.Exhausted;
          return Some(PathItem(key, node, None));
        case HasChild(child) =>
          state := Walking(key + [nibble], rest[1..], child);
          return Some(PathItem(key, node, Some(nibble)));
      }
    }
  }

  /** One link of the chain: a branch at a proper prefix of the key, whose `next_nibble` is
      the key's next nibble and leads to the next item. */
  ghost predicate Link(x: PathItem, y: PathItem, key: Path) {
    && x.node.Branch?
    && x.key < key
    && x.nextNibble == Some(key[|x.key|])
    && key[|x.key|] < |x.node.children|
    && x.node.children[key[|x.key|]] == HasChild(y.node)
    && y.key == x.key + [key[|x.key|]] + y.node.path
  }

  /** A root-down chain of links toward `key`. */
  ghost predicate Chain(items: seq<PathItem>, key: Path) {
    && |items| > 0
    && (forall i | 0 <= i < |items| - 1 :: Link(items[i], items[i + 1], key))
    && items[|items| - 1].nextNibble.None?
  }

  /** The walk is a chain that starts at its node. */
  lemma {:induction false} WalkIsChain(node: Node, matched: Path, unmatched: Path)
    ensures var items := Walk(node, matched, unmatched);
            && Chain(items, matched + unmatched)
            && items[0].node == node && items[0].key == matched + node.path
    decreases node
  {
    var items := Walk(node, matched, unmatched);
    var key := matched + node.path;
    if |items| > 1 {
      var nibble := unmatched[|node.path|];
      var child := node.children[nibble].node;
      SplitAfter(matched, node.path, unmatched);
      assert unmatched[|node.path|..][1..] == unmatched[|node.path| + 1..];
      WalkIsChain(child, key + [nibble], unmatched[|node.path| + 1..]);
      var rest := Walk(child, key + [nibble], unmatched[|node.path| + 1..]);
      assert items == [items[0]] + rest;
      PrefixShift(matched, node.path, unmatched);
      assert Link(items[0], rest[0], matched + unmatched);
      forall i | 0 <= i < |items| - 1 ensures Link(items[i], items[i + 1], matched + unmatched) {
        if i > 0 { assert items[i] == rest[i - 1] && items[i + 1] == rest[i]; }
      }
    }
  }

  /** The walk goes as far as the trie does: it stops only past the key's own path, at a leaf or
      where there is no child on the way. */
  ghost predicate Stuck(last: PathItem, key: Path) {
    || last.node.Leaf? || !(last.key < key)
    || key[|last.key|] >= |last.node.children| || last.node.children[key[|last.key|]].NoChild?
  }

  lemma {:induction false} WalkIsMaximal(node: Node, matched: Path, unmatched: Path)
    ensures var items := Walk(node, matched, unmatched); Stuck(items[|items| - 1], matched + unmatched)
    decreases node
  {
    var items := Walk(node, matched, unmatched);
    if |items| > 1 {
      var child, key, rest := WalkNext(node, matched, unmatched);
      WalkIsMaximal(child, key, rest);
      assert items[|items| - 1] == items[1..][|items| - 2];
    } else {
      PrefixShift(matched, node.path, unmatched);
      SamePrefix(matched, node.path, unmatched);
    }
  }

  lemma SamePrefix(p: Path, a: Path, b: Path)
    ensures p + a == p + b <==> a == b
  {
    assert (p + a)[|p|..] == a && (p + b)[|p|..] == b;
  }

  /** The next step of a walk that goes on. */
  lemma WalkNext(node: Node, matched: Path, unmatched: Path) returns (child: Node, key: Path, rest: Path)
    requires |Walk(node, matched, unmatched)| > 1
    ensures child < node && key + rest == matched + unmatched
    ensures Walk(node, matched, unmatched)[1..] == Walk(child, key, rest)
    ensures NodeAt(node, unmatched) == NodeAt(child, rest)
  {
    var nibble := unmatched[|node.path|];
    child, key, rest := node.children[nibble].node, matched + node.path + [nibble], unmatched[|node.path| + 1..];
    SplitAfter(matched, node.path, unmatched);
    assert unmatched[|node.path|..][1..] == rest;
    ConsTail(PathItem(matched + node.path, node, Some(nibble)), Walk(child, key, rest));
  }

  /** A walk that does not go on has found its key, or there is no node at it. */
  lemma {:induction false} WalkStops(node: Node, matched: Path, unmatched: Path, m: Node)
    requires |Walk(node, matched, unmatched)| == 1
    ensures NodeAt(node, unmatched) == Some(m) <==> matched + node.path == matched + unmatched && node == m
  {
    SamePrefix(matched, node.path, unmatched);
  }

  /** The walk ends at its key exactly when the trie has a node there. */
  lemma {:induction false} WalkEndsAtNode(node: Node, matched: Path, unmatched: Path, m: Node)
    ensures var items := Walk(node, matched, unmatched);
            var last := items[|items| - 1];
            NodeAt(node, unmatched) == Some(m) <==> last.key == matched + unmatched && last.node == m
    decreases node
  {
    var items := Walk(node, matched, unmatched);
    if |items| > 1 {
      var child, key, rest := WalkNext(node, matched, unmatched);
      WalkEndsAtNode(child, key, rest, m);
      assert items[|items| - 1] == items[1..][|items| - 2];
    } else {
      WalkStops(node, matched, unmatched, m);
      assert items[0].key == matched + node.path && items[0].node == node;
    }
  }

  /** `PathIterator` on a whole trie: a root-down chain toward the key, ending at the key
      with its value exactly when the map holds the key; and the key/value iterator started
      at the key agrees. */
  lemma {:induction false} PathIteratorFindsKey(root: Option<Node>, k: Key, x: Value)
    requires WellFormedTrie(root)
    ensures var items := WalkTrie(root, ToNibbles(k));
            && (root.Some? ==>
                  && Chain(items, ToNibbles(k)) && items[0].node == root.value && items[0].key == root.value.path
                  && Stuck(items[|items| - 1], ToNibbles(k)))
            && (Lookup(root, k) == Some(x) <==>
                  && items != []
                  && items[|items| - 1].key == ToNibbles(k)
                  && items[|items| - 1].node.Value() == Some(x))
            && (Lookup(root, k) == Some(x) <==>
                  var r := Range(root, k, None); r != [] && r[0] == (k, x))
  {
    if root.Some? {
      assert [] + ToNibbles(k) == ToNibbles(k);
      WalkIsChain(root.value, [], ToNibbles(k));
      WalkIsMaximal(root.value, [], ToNibbles(k));
      assert [] + root.value.path == root.value.path;
      var items := WalkTrie(root, ToNibbles(k));
      WalkEndsAtNode(root.value, [], ToNibbles(k), items[|items| - 1].node);
      if NodeAt(root.value, ToNibbles(k)).Some? {
        WalkEndsAtNode(root.value, [], ToNibbles(k), NodeAt(root.value, ToNibbles(k)).value);
      }
    }
    FirstOfRange(root, k, x);
  }
}
