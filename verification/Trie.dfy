/** The trie as a value: nodes, lookup by path, and the pre-order list of nodes.

    Children are read through `Child::{Node, AddressWithHash, MaybePersisted}` in the
    source; all three denote a node, so a child here is the node itself.
 */
module Trie {
  import opened Sequences
  import opened Nibbles

  type Value = seq<Byte>

  datatype Node =
    | Leaf(path: Path, leafValue: Value)
    | Branch(path: Path, branchValue: Option<Value>, children: seq<Child>)
  {
    function Value(): Option<Value> {
      if Leaf? then Some(leafValue) else branchValue
    }
  }

  datatype Child = NoChild | HasChild(node: Node)

  /** A node together with its full key: the path of its parent, its index and its own
      partial path. */
  datatype Visit = Visit(key: Path, node: Node)

  /** Every branch has sixteen child slots, and values sit only at even nibble depth.
      `depth` counts the nibbles before the node's own partial path. */
  predicate WellFormed(n: Node, depth: nat) {
    var d := depth + |n.path|;
    match n
    case Leaf(_, _) => d % 2 == 0
    case Branch(_, value, children) =>
      && |children| == 16
      && (value.Some? ==> d % 2 == 0)
      && forall i | 0 <= i < 16 :: children[i].HasChild? ==> WellFormed(children[i].node, d + 1)
  }

  /** The node whose full key, relative to `n`'s parent edge, is exactly `p`. */
  function NodeAt(n: Node, p: Path): Option<Node>
    decreases n
  {
    if !(n.path <= p) then None
    else if |p| == |n.path| then Some(n)
    else if n.Leaf? then None
    else
      var i := p[|n.path|];
      if i < |n.children| && n.children[i].HasChild? then
        NodeAt(n.children[i].node, p[|n.path| + 1..])
      else None
  }

  /** What a trie maps a nibble path to. */
  function Get(root: Option<Node>, p: Path): Option<Value> {
    match root
    case None => None
    case Some(n) => match NodeAt(n, p) case None => None case Some(m) => m.Value()
  }

  /** What a trie maps a byte key to. */
  function Lookup(root: Option<Node>, k: Key): Option<Value> {
    Get(root, ToNibbles(k))
  }

  predicate WellFormedTrie(root: Option<Node>) {
    root.Some? ==> WellFormed(root.value, 0)
  }

  // ---- Pre-order ----

  /** `n`, whose full key is `key`, and then everything below it. */
  ghost function NodesAt(key: Path, n: Node): (vs: seq<Visit>)
    ensures |vs| > 0
    decreases n, 17
  {
    [Visit(key, n)] + if n.Leaf? then [] else KidNodes(key, n, 0)
  }

  /** Everything below the children of index `i` and up. */
  ghost function KidNodes(key: Path, n: Node, i: nat): seq<Visit>
    requires n.Branch?
    decreases n, 16 - i
  {
    if i >= |n.children| || i >= 16 then []
    else KidAt(key, n, i) + KidNodes(key, n, i + 1)
  }

  /** Everything below the one child of index `i`, if it is there. */
  ghost function KidAt(key: Path, n: Node, i: nat): seq<Visit>
    requires n.Branch? && i < |n.children| && i < 16
    decreases n, 0
  {
    match n.children[i]
    case NoChild => []
    case HasChild(c) => NodesAt(key + [i] + c.path, c)
  }

  /** Everything below a node. */
  ghost function Kids(key: Path, n: Node): seq<Visit> {
    if n.Leaf? then [] else KidNodes(key, n, 0)
  }

  lemma {:induction false} HeadAndKids(key: Path, n: Node)
    ensures NodesAt(key, n) == [Visit(key, n)] + Kids(key, n)
    ensures NodesAt(key, n)[0] == Visit(key, n) && NodesAt(key, n)[1..] == Kids(key, n)
  {
    ConsTail(Visit(key, n), Kids(key, n));
  }

  ghost function AllNodes(root: Option<Node>): seq<Visit> {
    if root.None? then [] else NodesAt(root.value.path, root.value)
  }

  ghost predicate Sorted(vs: seq<Visit>) {
    forall i, j | 0 <= i < j < |vs| :: Less(vs[i].key, vs[j].key)
  }

  ghost predicate AllBelow(vs: seq<Visit>, key: Path) {
    forall i | 0 <= i < |vs| :: key <= vs[i].key
  }

  /** Every key in the list passes through a child of `key` of index at least `i`. */
  ghost predicate AllBelowKids(vs: seq<Visit>, key: Path, i: nat) {
    forall j | 0 <= j < |vs| :: key < vs[j].key && vs[j].key[|key|] >= i
  }

  /** Everything at or below a node starts with the node's key. */
  lemma {:induction false} NodesBelow(key: Path, n: Node)
    ensures AllBelow(NodesAt(key, n), key)
    decreases n, 17
  {
    if n.Branch? { KidsBelow(key, n, 0); }
  }

  lemma {:induction false} KidsBelow(key: Path, n: Node, i: nat)
    requires n.Branch?
    ensures AllBelowKids(KidNodes(key, n, i), key, i)
    decreases n, 16 - i
  {
    if i < |n.children| && i < 16 {
      KidsBelow(key, n, i + 1);
      if n.children[i].HasChild? {
        var c := n.children[i].node;
        NodesBelow(key + [i] + c.path, c);
      }
    }
  }

  /** Two keys that leave a common prefix through different nibbles are ordered by those
      nibbles. */
  lemma {:induction false} DivergeLess(key: Path, a: Path, b: Path)
    requires key < a && key < b && a[|key|] < b[|key|]
    ensures Less(a, b)
  {
    var x, y := a[|key|..], b[|key|..];
    assert a == key + x && b == key + y;
    LessCommonPrefix(key, x, y);
  }

  lemma {:induction false} ExtensionLess(a: Path, b: Path)
    requires a < b
    ensures Less(a, b)
  {
    assert a + [] == a && a + b[|a|..] == b;
    LessCommonPrefix(a, [], b[|a|..]);
  }

  lemma SortedConcat(a: seq<Visit>, b: seq<Visit>)
    requires Sorted(a) && Sorted(b)
    requires forall i, j | 0 <= i < |a| && 0 <= j < |b| :: Less(a[i].key, b[j].key)
    ensures Sorted(a + b)
  {
  }

  /** Pre-order visits the nodes in strictly increasing order of their full keys. */
  lemma {:induction false} NodesSorted(key: Path, n: Node)
    ensures Sorted(NodesAt(key, n))
    decreases n, 17
  {
    if n.Branch? {
      var kids := KidNodes(key, n, 0);
      KidsSorted(key, n, 0);
      KidsBelow(key, n, 0);
      forall j | 0 <= j < |kids| ensures Less(key, kids[j].key) { ExtensionLess(key, kids[j].key); }
      SortedConcat([Visit(key, n)], kids);
    }
  }

  lemma {:induction false} KidsSorted(key: Path, n: Node, i: nat)
    requires n.Branch?
    ensures Sorted(KidNodes(key, n, i))
    decreases n, 16 - i
  {
    if i < |n.children| && i < 16 {
      KidsSorted(key, n, i + 1);
      KidsBelow(key, n, i + 1);
      if n.children[i].HasChild? {
        var c := n.children[i].node;
        var first, rest := NodesAt(key + [i] + c.path, c), KidNodes(key, n, i + 1);
        NodesSorted(key + [i] + c.path, c);
        NodesBelow(key + [i] + c.path, c);
        forall x, y | 0 <= x < |first| && 0 <= y < |rest| ensures Less(first[x].key, rest[y].key) {
          DivergeLess(key, first[x].key, rest[y].key);
        }
        SortedConcat(first, rest);
      }
    }
  }

  lemma PrefixSplit(pre: Path, path: Path, k: Path)
    ensures pre + path <= k <==> pre <= k && path <= k[|pre|..]
    ensures pre + path <= k ==>
              && k[|pre|..][|path|..] == k[|pre + path|..]
              && (|pre + path| < |k| ==> k[|pre|..][|path|] == k[|pre + path|] &&
                                         k[|pre|..][|path| + 1..] == k[|pre + path| + 1..])
  {
    if pre <= k {
      assert k == pre + k[|pre|..];
      if path <= k[|pre|..] { assert k[|pre|..] == path + k[|pre|..][|path|..]; }
      if pre + path <= k { assert k[..|pre + path|][|pre|..] == path; }
    }
  }

  /** A key that does not pass through a node is not below it. */
  lemma {:induction false} NodeMissed(pre: Path, n: Node, v: Visit)
    requires !(pre + n.path <= v.key)
    ensures v !in NodesAt(pre + n.path, n)
    ensures pre <= v.key ==> NodeAt(n, v.key[|pre|..]) == None
  {
    NodesBelow(pre + n.path, n);
    PrefixSplit(pre, n.path, v.key);
  }

  lemma {:induction false} NodeHit(pre: Path, n: Node, v: Visit)
    requires v.key == pre + n.path
    ensures v in NodesAt(pre + n.path, n) <==> v.node == n
    ensures NodeAt(n, v.key[|pre|..]) == Some(n)
  {
    HeadAndKids(v.key, n);
    if n.Branch? { KidsBelow(v.key, n, 0); }
    assert v.key[|pre|..] == n.path;
  }

  /** The pre-order list holds exactly the nodes that lookup finds. `pre` is the path
      before `n`'s own partial path. */
  lemma {:induction false} NodesAreLookups(pre: Path, n: Node, v: Visit)
    ensures v in NodesAt(pre + n.path, n) <==>
            pre <= v.key && NodeAt(n, v.key[|pre|..]) == Some(v.node)
    decreases n, 17
  {
    var key := pre + n.path;
    if !(key <= v.key) {
      NodeMissed(pre, n, v);
    } else if |key| == |v.key| {
      NodeHit(pre, n, v);
    } else {
      PrefixSplit(pre, n.path, v.key);
      HeadAndKids(key, n);
      if n.Branch? { KidsAreLookups(key, n, 0, v); }
    }
  }

  lemma ChildPrefix(key: Path, i: Nibble, k: Path)
    ensures key + [i] <= k <==> key < k && k[|key|] == i
  {
    if key < k && k[|key|] == i { assert k[..|key| + 1] == key + [i]; }
  }

  lemma {:induction false} KidsAreLookups(key: Path, n: Node, i: nat, v: Visit)
    requires n.Branch?
    ensures v in KidNodes(key, n, i) <==>
            && key < v.key
            && i <= v.key[|key|] < |n.children|
            && n.children[v.key[|key|]].HasChild?
            && NodeAt(n.children[v.key[|key|]].node, v.key[|key| + 1..]) == Some(v.node)
    decreases n, 16 - i
  {
    if i < |n.children| && i < 16 {
      KidsAreLookups(key, n, i + 1, v);
      if n.children[i].HasChild? {
        NodesAreLookups(key + [i], n.children[i].node, v);
        ChildPrefix(key, i, v.key);
      }
    }
  }

  /** Values sit only at even depth, so every valued key packs into bytes without loss. */
  lemma {:induction false} ValuesAtEvenDepth(n: Node, depth: nat, p: Path)
    requires WellFormed(n, depth)
    requires NodeAt(n, p).Some? && NodeAt(n, p).value.Value().Some?
    ensures (depth + |p|) % 2 == 0
    decreases n, 17
  {
    if |p| > |n.path| {
      ValuesAtEvenDepth(n.children[p[|n.path|]].node, depth + |n.path| + 1, p[|n.path| + 1..]);
    }
  }
}
