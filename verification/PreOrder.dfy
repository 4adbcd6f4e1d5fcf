/** `PreOrderIterator`: the pre-order walk under the trie difference, which can start at a
    key and can skip what is below the node it stands on (`firewood/src/merkle/changes.rs`).
 */
module PreOrder {
  import opened Sequences
  import opened Nibbles
  import opened Trie
  import opened NodeIter

  /** The hash of a node under its full path, taken as collision-free: it determines the
      path, the value and everything below. */
  datatype Digest = Digest(path: Path, value: Option<Value>, children: seq<Child>)

  /** `ComparableNodeInfo`: a node with its full path and, when it is hashed, its hash. */
  datatype NodeInfo = NodeInfo(path: Path, node: Node, hash: Option<Digest>) {
    ghost predicate Valid() {
      && (hash.Some? ==> hash.value == DigestOf(path, node))
      && (node.Branch? ==> |node.children| == 16)
    }
  }

  function DigestOf(path: Path, node: Node): Digest {
    Digest(path, node.Value(), if node.Leaf? then [] else node.children)
  }

  /** `hashed` says at which paths the trie has a hash: a child in memory may have none yet. */
  function Info(path: Path, node: Node, hashed: Path -> bool): NodeInfo {
    NodeInfo(path, node, if hashed(path) then Some(DigestOf(path, node)) else None)
  }

  ghost predicate SixteenSlots(n: Node) {
    n.Branch? ==>
      && |n.children| == 16
      && forall i | 0 <= i < 16 :: n.children[i].HasChild? ==> SixteenSlots(n.children[i].node)
  }

  lemma {:induction false} WellFormedSlots(n: Node, depth: nat)
    requires WellFormed(n, depth)
    ensures SixteenSlots(n)
    decreases n
  {
    if n.Branch? {
      forall i | 0 <= i < 16 && n.children[i].HasChild? ensures SixteenSlots(n.children[i].node) {
        WellFormedSlots(n.children[i].node, depth + |n.path| + 1);
      }
    }
  }

  ghost predicate ValidInfos(stack: seq<NodeInfo>) {
    forall i | 0 <= i < |stack| :: stack[i].Valid() && SixteenSlots(stack[i].node)
  }

  /** What a traversal stack has still to visit, top first. */
  ghost function StackVisits(stack: seq<NodeInfo>): seq<Visit> {
    if stack == [] then []
    else
      var top := stack[|stack| - 1];
      NodesAt(top.path, top.node) + StackVisits(stack[..|stack| - 1])
  }

  lemma {:induction false} PushVisits(stack: seq<NodeInfo>, top: NodeInfo)
    ensures StackVisits(stack + [top]) == NodesAt(top.path, top.node) + StackVisits(stack)
  {
    SnocInit(stack, top);
  }

  /** The top of a stack is the first to visit, and then what is below it and the rest. */
  lemma {:induction false} TopVisits(stack: seq<NodeInfo>)
    requires stack != []
    ensures var top, rest := stack[|stack| - 1], StackVisits(stack[..|stack| - 1]);
            && StackVisits(stack) != []
            && StackVisits(stack)[0] == Visit(top.path, top.node)
            && StackVisits(stack)[1..] == Kids(top.path, top.node) + rest
  {
    var top, rest := stack[|stack| - 1], StackVisits(stack[..|stack| - 1]);
    HeadAndKids(top.path, top.node);
    ConcatAssociative([Visit(top.path, top.node)], Kids(top.path, top.node), rest);
    ConsTail(Visit(top.path, top.node), Kids(top.path, top.node) + rest);
  }

  /** `pushed` is `stack` with the children of index `i` and up on top. */
  ghost predicate HoldsKids(pushed: seq<NodeInfo>, path: Path, node: Node, i: nat, stack: seq<NodeInfo>)
    requires node.Branch?
  {
    StackVisits(pushed) == KidNodes(path, node, i) + StackVisits(stack)
  }

  lemma PushKid(pushed: seq<NodeInfo>, path: Path, node: Node, i: nat, stack: seq<NodeInfo>, next: NodeInfo)
    requires node.Branch? && |node.children| == 16 && i < 16
    requires HoldsKids(pushed, path, node, i + 1, stack)
    requires node.children[i].HasChild? && next.node == node.children[i].node
    requires next.path == path + [i] + next.node.path
    ensures HoldsKids(pushed + [next], path, node, i, stack)
  {
    PushVisits(pushed, next);
    ConcatAssociative(KidAt(path, node, i), KidNodes(path, node, i + 1), StackVisits(stack));
  }

  /** Pushes the children of a branch, last first, so that they are popped in order. */
  method PushChildren(info: NodeInfo, hashed: Path -> bool, stack: seq<NodeInfo>) returns (pushed: seq<NodeInfo>)
    requires ValidInfos(stack) && SixteenSlots(info.node)
    ensures ValidInfos(pushed)
    ensures StackVisits(pushed) == Kids(info.path, info.node) + StackVisits(stack)
  {
    pushed := stack;
    if info.node.Leaf? {
      return;
    }
    var i := 16;
    while i > 0
      invariant 0 <= i <= 16 && ValidInfos(pushed) && HoldsKids(pushed, info.path, info.node, i, stack)
    {
      i := i - 1;
      match info.node.children[i] {
        case NoChild =>
        case HasChild(child) =>
          var next := Info(info.path + [i] + child.path, child, hashed);
          PushKid(pushed, info.path, info.node, i, stack, next);
          pushed := pushed + [next];
      }
    }
  }

  /** A child whose pre-path is before the key and not a prefix of it holds no key from the
      start key on. */
  lemma {:induction false} ChildBefore(path: Path, node: Node, i: nat, key: Path)
    requires node.Branch? && |node.children| == 16 && i < 16
    requires !(path + [i] <= key) && !Less(key, path + [i])
    ensures From(KidAt(path, node, i), key) == []
  {
    if node.children[i].HasChild? {
      var child := node.children[i].node;
      LessTotal(path + [i], key);
      LessOfPrefix(path + [i], path + [i] + child.path, key);
      assert !(path + [i] + child.path <= key);
      SubtreeBefore(path + [i] + child.path, child, key);
    }
  }

  /** A child's pre-path rules the child out for a start key. */
  ghost predicate EndsBefore(path: Path, i: nat, key: Path)
    requires i < 16
  {
    !(path + [i] <= key) && !Less(key, path + [i])
  }

  /** If a child ends before the key, so do the children of smaller index. */
  lemma LowerEndsBefore(path: Path, i: nat, j: nat, key: Path)
    requires i < j < 16 && EndsBefore(path, j, key)
    ensures EndsBefore(path, i, key)
  {
    var low, high := path + [i], path + [j];
    DivergeLess(path, low, high);
    LessTotal(high, key);
    LessTransitive(low, high, key);
    LessAsymmetric(low, key);
    if low <= key {
      DivergeLess(path, key, high);
      LessAsymmetric(key, high);
    }
  }

  /** The child loop of `iterate_to_key` with the children from `i` on looked at: `last` is the
      last child that is there, or 16, and `found` says whether one has been pushed. */
  ghost predicate Pushing(info: NodeInfo, key: Path, stack: seq<NodeInfo>, pushed: seq<NodeInfo>, i: nat, last: nat,
                          found: bool)
    requires info.node.Branch? && SixteenSlots(info.node)
  {
    && i <= last <= 16
    && (last == 16 ==> KidNodes(info.path, info.node, i) == [] && !found)
    && (last < 16 && !found ==> EndsBefore(info.path, last, key))
    && (found ==> HoldsKids(pushed, info.path, info.node, i, stack))
    && (!found ==> pushed == stack && From(KidNodes(info.path, info.node, i), key) == [])
  }

  lemma PushNoChild(info: NodeInfo, key: Path, stack: seq<NodeInfo>, pushed: seq<NodeInfo>, i: nat, last: nat,
                    found: bool)
    requires info.node.Branch? && SixteenSlots(info.node) && i < 16 && info.node.children[i].NoChild?
    requires Pushing(info, key, stack, pushed, i + 1, last, found)
    ensures Pushing(info, key, stack, pushed, i, last, found)
  {
    var rest := KidNodes(info.path, info.node, i + 1);
    assert KidNodes(info.path, info.node, i) == KidAt(info.path, info.node, i) + rest == rest;
  }

  lemma PushLeftOut(info: NodeInfo, key: Path, stack: seq<NodeInfo>, pushed: seq<NodeInfo>, i: nat, last: nat)
    requires info.node.Branch? && SixteenSlots(info.node) && i < 16 && info.node.children[i].HasChild?
    requires Pushing(info, key, stack, pushed, i + 1, last, false) && EndsBefore(info.path, i, key)
    ensures Pushing(info, key, stack, pushed, i, if last == 16 then i else last, false)
  {
    FromConcat(KidAt(info.path, info.node, i), KidNodes(info.path, info.node, i + 1), key);
    ChildBefore(info.path, info.node, i, key);
  }

  lemma PushFound(info: NodeInfo, key: Path, stack: seq<NodeInfo>, pushed: seq<NodeInfo>, i: nat, last: nat,
                  found: bool,
                  next: NodeInfo)
    requires info.node.Branch? && SixteenSlots(info.node) && i < 16 && info.node.children[i].HasChild?
    requires Pushing(info, key, stack, pushed, i + 1, last, found) && (found || !EndsBefore(info.path, i, key))
    requires next.node == info.node.children[i].node && next.path == info.path + [i] + next.node.path
    ensures Pushing(info, key, stack, pushed + [next], i, if last == 16 then i else last, true)
  {
    if !found && last < 16 { LowerEndsBefore(info.path, i, last, key); }
    PushKid(pushed, info.path, info.node, i, stack, next);
  }

  /** The child loop of `iterate_to_key`: from the last child down, children that end before
      the key are left out until the first one that does not; from there on all are pushed.
      Either all children go on the stack or none holds a key from the start key on. */
  method PushChildrenFrom(info: NodeInfo, hashed: Path -> bool, stack: seq<NodeInfo>, key: Path)
    returns (pushed: seq<NodeInfo>)
    requires ValidInfos(stack) && SixteenSlots(info.node) && info.node.Branch?
    ensures ValidInfos(pushed)
    ensures || HoldsKids(pushed, info.path, info.node, 0, stack)
            || (pushed == stack && From(Kids(info.path, info.node), key) == [])
  {
    pushed := stack;
    var i := 16;
    var found := false;
    ghost var last: nat := 16;
    while i > 0
      invariant 0 <= i <= 16 && ValidInfos(pushed) && Pushing(info, key, stack, pushed, i, last, found)
    {
      i := i - 1;
      match info.node.children[i] {
        case NoChild => PushNoChild(info, key, stack, pushed, i, last, found);
        case HasChild(child) =>
          var prePath := info.path + [i];
          if found || prePath <= key || Less(key, prePath) {
            var next := Info(prePath + child.path, child, hashed);
            PushFound(info, key, stack, pushed, i, last, found, next);
            found := true;
            pushed := pushed + [next];
          } else {
            PushLeftOut(info, key, stack, pushed, i, last);
          }
          if last == 16 { last := i; }
      }
    }
  }

  lemma {:induction false} SuffixSorted(a: seq<Visit>, b: seq<Visit>)
    requires Sorted(a + b)
    ensures Sorted(b)
  {
    forall i, j | 0 <= i < j < |b| ensures Less(b[i].key, b[j].key) {
      assert (a + b)[|a| + i] == b[i] && (a + b)[|a| + j] == b[j];
    }
  }

  /** A sorted list whose first key is at or after the start key is kept whole. */
  lemma {:induction false} SortedFrom(vs: seq<Visit>, key: Path)
    requires Sorted(vs) && (vs == [] || Leq(key, vs[0].key))
    ensures From(vs, key) == vs
  {
    forall i | 0 <= i < |vs| ensures Leq(key, vs[i].key) {
      if i > 0 && key != vs[0].key { LessTransitive(key, vs[0].key, vs[i].key); }
    }
    FromKeepsAll(vs, key);
  }

  /** Where `iterate_to_key` stands: what it has still to look at, in order, holds all nodes
      from the start key on. */
  ghost predicate Skipping(target: seq<Visit>, pending: seq<Visit>, key: Path) {
    Sorted(pending) && From(pending, key) == target
  }

  lemma {:induction false} SkipSuffix(target: seq<Visit>, dropped: seq<Visit>, rest: seq<Visit>, key: Path)
    requires Skipping(target, dropped + rest, key) && From(dropped, key) == []
    ensures Skipping(target, rest, key)
  {
    SuffixSorted(dropped, rest);
    FromConcat(dropped, rest, key);
  }

  /** What an iterator has still to visit: the children of the current node, unless they are
      skipped, and then the stack. */
  ghost function PendingOf(info: Option<NodeInfo>, stack: seq<NodeInfo>): seq<Visit> {
    if info.None? then StackVisits(stack)
    else Kids(info.value.path, info.value.node) + StackVisits(stack)
  }

  /** One node popped by `iterate_to_key` that is before the key: unless it is a branch on
      the way to the key, all of it can go. */
  lemma {:induction false} SkipNode(target: seq<Visit>, top: NodeInfo, stack: seq<NodeInfo>, key: Path)
    requires Skipping(target, NodesAt(top.path, top.node) + StackVisits(stack), key) && !Leq(key, top.path)
    ensures Skipping(target, PendingOf(if top.node.Branch? && top.path <= key then Some(top) else None, stack), key)
  {
    LessTotal(top.path, key);
    var self, kids, rest := [Visit(top.path, top.node)], Kids(top.path, top.node), StackVisits(stack);
    if top.path <= key {
      assert From(self, key) == [] by { assert self[1..] == []; }
      ConcatAssociative(self, kids, rest);
      SkipSuffix(target, self, kids + rest, key);
      if top.node.Leaf? { assert kids + rest == rest; }
    } else {
      SubtreeBefore(top.path, top.node, key);
      SkipSuffix(target, self + kids, rest, key);
    }
  }

  lemma {:induction false} SkipChildrenBefore(target: seq<Visit>, info: NodeInfo, stack: seq<NodeInfo>,
                                              pushed: seq<NodeInfo>, key: Path)
    requires info.node.Branch?
    requires Skipping(target, PendingOf(Some(info), stack), key)
    requires || HoldsKids(pushed, info.path, info.node, 0, stack)
             || (pushed == stack && From(Kids(info.path, info.node), key) == [])
    ensures Skipping(target, StackVisits(pushed), key)
    ensures |StackVisits(pushed)| <= |PendingOf(Some(info), stack)|
  {
    if !HoldsKids(pushed, info.path, info.node, 0, stack) {
      SkipSuffix(target, Kids(info.path, info.node), StackVisits(stack), key);
    }
  }

  lemma {:induction false} EmptyStart(vs: seq<Visit>)
    ensures From(vs, []) == vs
  {
    FromKeepsAll(vs, []);
  }

  /** `iterate_to_key`: leaves on the stack exactly the nodes from the start key on. */
  method IterateToKey(stack: seq<NodeInfo>, hashed: Path -> bool, key: Key) returns (after: seq<NodeInfo>)
    requires ValidInfos(stack) && Sorted(StackVisits(stack))
    ensures ValidInfos(after)
    ensures StackVisits(after) == From(StackVisits(stack), ToNibbles(key))
  {
    after := stack;
    ghost var target := From(StackVisits(stack), ToNibbles(key));
    if key == [] {
      EmptyStart(StackVisits(stack));
      return;
    }
    var keyPath := ToNibbles(key);
    var info: Option<NodeInfo> := None;
    while true
      invariant ValidInfos(after)
      invariant info.Some? ==> info.value.node.Branch? && SixteenSlots(info.value.node)
      invariant Skipping(target, PendingOf(info, after), keyPath)
      decreases |PendingOf(info, after)|
    {
      if info.Some? {
        var pushed := PushChildrenFrom(info.value, hashed, after, keyPath);
        SkipChildrenBefore(target, info.value, after, pushed, keyPath);
        after := pushed;
      }
      if after == [] {
        return;
      }
      if Leq(keyPath, after[|after| - 1].path) {
        SortedFrom(StackVisits(after), keyPath);
        return;
      }
      info, after := PopBefore(target, after, keyPath);
    }
  }

  /** Pops a node that is before the key; a branch on the way to it is kept to go on with. */
  method PopBefore(ghost target: seq<Visit>, stack: seq<NodeInfo>, key: Path)
    returns (info: Option<NodeInfo>, after: seq<NodeInfo>)
    requires ValidInfos(stack) && stack != [] && !Leq(key, stack[|stack| - 1].path)
    requires Skipping(target, StackVisits(stack), key)
    ensures ValidInfos(after) && (info.Some? ==> info.value.node.Branch? && SixteenSlots(info.value.node))
    ensures Skipping(target, PendingOf(info, after), key)
    ensures |PendingOf(info, after)| < |StackVisits(stack)|
  {
    var top := stack[|stack| - 1];
    after := stack[..|stack| - 1];
    SkipNode(target, top, after, key);
    info := if top.node.Branch? && top.path <= key then Some(top) else None;
  }

  class PreOrderIterator {
    const hashed: Path -> bool
    var nodeInfo: Option<NodeInfo>
    var stack: seq<NodeInfo>

    ghost predicate Valid()
      reads this
    {
      ValidInfos(stack) && (nodeInfo.Some? ==> SixteenSlots(nodeInfo.value.node))
    }

    ghost function Pending(): seq<Visit>
      reads this
    {
      PendingOf(nodeInfo, stack)
    }

    constructor (root: Option<Node>, hashed: Path -> bool, start: Key)
      requires WellFormedTrie(root)
      ensures Valid()
      ensures Pending() == From(AllNodes(root), ToNibbles(start))
    {
      this.hashed := hashed;
      nodeInfo := None;
      var initial: seq<NodeInfo> := [];
      if root.Some? {
        initial := [Info(root.value.path, root.value, hashed)];
        WellFormedSlots(root.value, 0);
        NodesSorted(root.value.path, root.value);
        assert StackVisits(initial) == AllNodes(root);
      }
      var positioned := IterateToKey(initial, hashed, start);
      stack := positioned;
    }

    /** Moves to the next node; the children of the node left behind are pushed only now. */
    method NextNodeInfo() returns (r: Option<NodeInfo>)
      requires Valid()
      modifies this
      ensures Valid() && nodeInfo == r
      ensures old(Pending()) == [] ==> r.None? && Pending() == []
      ensures old(Pending()) != [] ==>
                && r.Some? && r.value.Valid()
                && old(Pending())[0] == Visit(r.value.path, r.value.node)
                && Pending() == old(Pending())[1..]
    {
      if nodeInfo.Some? {
        stack := PushChildren(nodeInfo.value, hashed, stack);
      }
      assert StackVisits(stack) == old(Pending());
      if stack == [] {
        nodeInfo := None;
      } else {
        TopVisits(stack);
        nodeInfo := Some(stack[|stack| - 1]);
        stack := stack[..|stack| - 1];
      }
      r := nodeInfo;
    }

    /** Forgets the current node, so that its children are never pushed. */
    method SkipChildren()
      requires Valid()
      modifies this
      ensures Valid() && nodeInfo.None? && stack == old(stack) && Pending() == StackVisits(old(stack))
    {
      nodeInfo := None;
    }
  }
}
