/** The lazy explicit-stack iterators of `firewood/src/iter.rs`.

    `Pending` of each iterator is the list it has still to yield. Creating an iterator
    fixes that list and `Next` removes its head; module KeyRange says what the list of a
    range iterator is in terms of the trie's map.
 */
module NodeIter {
  import opened Sequences
  import opened Nibbles
  import opened Trie

  datatype Ordering = Lt | Eq | Gt

  /** `compare_partial_path`: `Eq` when the partial path is a prefix of the unmatched key,
      otherwise how the two compare; the rest of the key is what follows the partial path. */
  method ComparePartialPath(partial: Path, unmatched: Path) returns (ord: Ordering, rest: Path)
    ensures ord == Eq <==> partial <= unmatched
    ensures ord == Lt <==> Less(partial, unmatched) && !(partial <= unmatched)
    ensures ord == Gt <==> Less(unmatched, partial)
    ensures ord == Eq ==> rest == unmatched[|partial|..]
  {
    rest := unmatched;
    for i := 0 to |partial|
      invariant i <= |unmatched| && rest == unmatched[i..]
      invariant partial[..i] == unmatched[..i]
    {
      assert partial == partial[..i] + partial[i..] && unmatched == partial[..i] + rest;
      LessCommonPrefix(partial[..i], partial[i..], rest);
      LessCommonPrefix(partial[..i], rest, partial[i..]);
      if rest == [] {
        return Gt, rest;
      }
      var next := rest[0];
      rest := rest[1..];
      if partial[i] < next {
        return Lt, rest;
      } else if partial[i] > next {
        return Gt, rest;
      }
    }
    if Less(unmatched, partial) {
      if partial == unmatched { LessIrreflexive(partial); }
      else { ExtensionLess(partial, unmatched); LessAsymmetric(partial, unmatched); }
      assert false;
    }
    return Eq, rest;
  }

  /** An entry of the iterator's stack. `children_iter` is the branch it walks and the
      index of the next slot to look at. */
  datatype IterationNode =
    | Unvisited(key: Path, node: Node)
    | Visited(key: Path, branch: Node, next: nat)
  {
    ghost predicate Valid() {
      Visited? ==> branch.Branch?
    }

    ghost function Nodes(): seq<Visit>
      requires Valid()
    {
      if Unvisited? then NodesAt(key, node) else KidNodes(key, branch, next)
    }
  }

  ghost predicate ValidStack(stack: seq<IterationNode>) {
    forall i | 0 <= i < |stack| :: stack[i].Valid()
  }

  /** What a stack has still to yield, the top of the stack first. */
  ghost function StackNodes(stack: seq<IterationNode>): seq<Visit>
    requires ValidStack(stack)
  {
    if stack == [] then []
    else stack[|stack| - 1].Nodes() + StackNodes(stack[..|stack| - 1])
  }

  lemma {:induction false} StackPush(stack: seq<IterationNode>, top: IterationNode)
    requires ValidStack(stack) && top.Valid()
    ensures ValidStack(stack + [top])
    ensures StackNodes(stack + [top]) == top.Nodes() + StackNodes(stack)
  {
    SnocInit(stack, top);
  }

  // ---- Starting from a key ----

  /** The visits whose key is at or after `start`. */
  ghost function From(vs: seq<Visit>, start: Path): seq<Visit> {
    if vs == [] then []
    else (if Leq(start, vs[0].key) then [vs[0]] else []) + From(vs[1..], start)
  }

  lemma {:induction false} FromConcat(a: seq<Visit>, b: seq<Visit>, start: Path)
    ensures From(a + b, start) == From(a, start) + From(b, start)
  {
    if a == [] {
      assert a + b == b;
    } else {
      FromConcat(a[1..], b, start);
      assert (a + b)[1..] == a[1..] + b;
      ConcatAssociative(if Leq(start, a[0].key) then [a[0]] else [], From(a[1..], start), From(b, start));
    }
  }

  lemma {:induction false} FromKeepsAll(vs: seq<Visit>, start: Path)
    requires forall i | 0 <= i < |vs| :: Leq(start, vs[i].key)
    ensures From(vs, start) == vs
  {
    if vs != [] { FromKeepsAll(vs[1..], start); }
  }

  lemma {:induction false} FromDropsAll(vs: seq<Visit>, start: Path)
    requires forall i | 0 <= i < |vs| :: Less(vs[i].key, start)
    ensures From(vs, start) == []
  {
    if vs != [] {
      LessAsymmetric(vs[0].key, start);
      FromDropsAll(vs[1..], start);
    }
  }

  /** A node that diverges above the start key: the whole subtree is kept. */
  lemma {:induction false} SubtreeAfter(key: Path, n: Node, start: Path)
    requires Less(start, key) || start == key
    ensures From(NodesAt(key, n), start) == NodesAt(key, n)
  {
    var vs := NodesAt(key, n);
    NodesBelow(key, n);
    forall i | 0 <= i < |vs| ensures Leq(start, vs[i].key) {
      if key != vs[i].key {
        ExtensionLess(key, vs[i].key);
        if start != key { LessTransitive(start, key, vs[i].key); }
      }
    }
    FromKeepsAll(vs, start);
  }

  /** A node that diverges below the start key: the whole subtree is dropped. */
  lemma {:induction false} SubtreeBefore(key: Path, n: Node, start: Path)
    requires Less(key, start) && !(key <= start)
    ensures From(NodesAt(key, n), start) == []
  {
    var vs := NodesAt(key, n);
    NodesBelow(key, n);
    forall i | 0 <= i < |vs| ensures Less(vs[i].key, start) {
      LessOfPrefix(key, vs[i].key, start);
    }
    FromDropsAll(vs, start);
  }

  lemma {:induction false} LessOfPrefix(a: Path, b: Path, c: Path)
    requires Less(a, c) && !(a <= c) && a <= b
    ensures Less(b, c)
  {
    if a[0] == c[0] {
      assert !(a[1..] <= c[1..]);
      LessOfPrefix(a[1..], b[1..], c[1..]);
    }
  }

  /** The children of a proper prefix of the start key: those before the next nibble are
      dropped, those after it kept, and the one at it is searched. */
  lemma {:induction false} KidsFrom(key: Path, n: Node, start: Path)
    requires n.Branch? && |n.children| == 16 && key < start
    ensures var i: nat := start[|key|];
            From(KidNodes(key, n, 0), start) == From(KidAt(key, n, i), start) + KidNodes(key, n, i + 1)
  {
    var i: nat := start[|key|];
    KidsFromIndex(key, n, start, 0);
    var after := KidNodes(key, n, i + 1);
    KidsBelow(key, n, i + 1);
    forall j | 0 <= j < |after| ensures Leq(start, after[j].key) {
      DivergeLess(key, start, after[j].key);
    }
    FromKeepsAll(after, start);
    FromConcat(KidAt(key, n, i), after, start);
  }

  lemma {:induction false} KidBefore(key: Path, n: Node, start: Path, i: nat)
    requires n.Branch? && |n.children| == 16 && key < start && i < start[|key|]
    ensures From(KidAt(key, n, i), start) == []
  {
    if n.children[i].HasChild? {
      var kid, c := KidAt(key, n, i), n.children[i].node;
      NodesBelow(key + [i] + c.path, c);
      forall j | 0 <= j < |kid| ensures Less(kid[j].key, start) {
        DivergeLess(key, kid[j].key, start);
      }
      FromDropsAll(kid, start);
    }
  }

  lemma {:induction false} KidsFromIndex(key: Path, n: Node, start: Path, i: nat)
    requires n.Branch? && |n.children| == 16 && key < start && i <= start[|key|]
    ensures From(KidNodes(key, n, i), start) == From(KidNodes(key, n, start[|key|]), start)
    decreases start[|key|] - i
  {
    if i < start[|key|] {
      FromConcat(KidAt(key, n, i), KidNodes(key, n, i + 1), start);
      KidBefore(key, n, start, i);
      KidsFromIndex(key, n, start, i + 1);
    }
  }

  lemma PrefixShift(p: Path, a: Path, b: Path)
    ensures a <= b <==> p + a <= p + b
  {
    assert a <= b ==> (p + b)[..|p + a|] == p + b[..|a|];
    assert p + a <= p + b ==> (p + b)[|p|..] == b && (p + a)[|p|..] == a;
  }

  /** A proper prefix of the start key is before it. */
  lemma {:induction false} PrefixIsDropped(key: Path, n: Node, start: Path)
    requires key < start
    ensures From(NodesAt(key, n), start) == From(Kids(key, n), start)
  {
    ExtensionLess(key, start);
    LessAsymmetric(key, start);
    HeadAndKids(key, n);
  }

  /** Where a seek stands: the nodes from `start` on are those at or below the current node,
      whose partial path comes after `matched`, followed by what the stack holds. */
  ghost predicate Seeking(target: seq<Visit>, start: Path, matched: Path, node: Node, stack: seq<IterationNode>)
    requires ValidStack(stack)
  {
    target == From(NodesAt(matched + node.path, node), start) + StackNodes(stack)
  }

  lemma {:induction false} SeekStopsBefore(target: seq<Visit>, start: Path, matched: Path, node: Node, unmatched: Path,
                                           stack: seq<IterationNode>)
    requires ValidStack(stack) && Seeking(target, start, matched, node, stack)
    requires start == matched + unmatched && Less(node.path, unmatched) && !(node.path <= unmatched)
    ensures StackNodes(stack) == target
  {
    LessCommonPrefix(matched, node.path, unmatched);
    PrefixShift(matched, node.path, unmatched);
    SubtreeBefore(matched + node.path, node, start);
  }

  lemma {:induction false} SeekStopsAt(target: seq<Visit>, start: Path, matched: Path, node: Node, unmatched: Path,
                                       stack: seq<IterationNode>)
    requires ValidStack(stack) && Seeking(target, start, matched, node, stack)
    requires start == matched + unmatched && (Less(unmatched, node.path) || unmatched == node.path)
    ensures var done := stack + [Unvisited(matched + node.path, node)];
            ValidStack(done) && StackNodes(done) == target
  {
    LessCommonPrefix(matched, unmatched, node.path);
    SubtreeAfter(matched + node.path, node, start);
    StackPush(stack, Unvisited(matched + node.path, node));
  }

  lemma {:induction false} SeekPastLeaf(target: seq<Visit>, start: Path, matched: Path, node: Node, unmatched: Path,
                                        stack: seq<IterationNode>)
    requires ValidStack(stack) && Seeking(target, start, matched, node, stack)
    requires start == matched + unmatched && node.path < unmatched && node.Leaf?
    ensures StackNodes(stack) == target
  {
    PrefixShift(matched, node.path, unmatched);
    PrefixIsDropped(matched + node.path, node, start);
  }

  /** Below a node on the way to the key, what is left is the child at the key's next nibble
      and then the children after it. */
  lemma {:induction false} SeekBelow(target: seq<Visit>, start: Path, matched: Path, node: Node, unmatched: Path,
                                     stack: seq<IterationNode>, nibble: nat)
    requires ValidStack(stack) && Seeking(target, start, matched, node, stack)
    requires start == matched + unmatched && node.path < unmatched
    requires node.Branch? && |node.children| == 16 && nibble == unmatched[|node.path|]
    ensures var key := matched + node.path;
            var pushed := stack + [Visited(key, node, nibble + 1)];
            ValidStack(pushed) && target == From(KidAt(key, node, nibble), start) + StackNodes(pushed)
  {
    var key, rest := matched + node.path, StackNodes(stack);
    PrefixShift(matched, node.path, unmatched);
    assert start[|key|] == nibble;
    PrefixIsDropped(key, node, start);
    KidsFrom(key, node, start);
    StackPush(stack, Visited(key, node, nibble + 1));
    ConcatAssociative(From(KidAt(key, node, nibble), start), KidNodes(key, node, nibble + 1), rest);
  }

  lemma SeekEnds(target: seq<Visit>, start: Path, matched: Path, node: Node, unmatched: Path,
                 stack: seq<IterationNode>, nibble: nat)
    requires ValidStack(stack) && Seeking(target, start, matched, node, stack)
    requires start == matched + unmatched && node.path < unmatched
    requires node.Branch? && |node.children| == 16 && nibble == unmatched[|node.path|]
    requires node.children[nibble].NoChild?
    ensures var pushed := stack + [Visited(matched + node.path, node, nibble + 1)];
            ValidStack(pushed) && StackNodes(pushed) == target
  {
    SeekBelow(target, start, matched, node, unmatched, stack, nibble);
    assert KidAt(matched + node.path, node, nibble) == [];
  }

  lemma SeekDescends(target: seq<Visit>, start: Path, matched: Path, node: Node, unmatched: Path,
                     stack: seq<IterationNode>, nibble: nat)
    requires ValidStack(stack) && Seeking(target, start, matched, node, stack)
    requires start == matched + unmatched && node.path < unmatched
    requires node.Branch? && |node.children| == 16 && nibble == unmatched[|node.path|]
    requires node.children[nibble].HasChild?
    ensures var pushed := stack + [Visited(matched + node.path, node, nibble + 1)];
            && ValidStack(pushed)
            && Seeking(target, start, matched + node.path + [nibble], node.children[nibble].node, pushed)
            && start == matched + node.path + [nibble] + unmatched[|node.path| + 1..]
  {
    SeekBelow(target, start, matched, node, unmatched, stack, nibble);
    SplitAfter(matched, node.path, unmatched);
    assert unmatched[|node.path|..][1..] == unmatched[|node.path| + 1..];
  }

  lemma SplitAfter(matched: Path, partial: Path, unmatched: Path)
    requires partial < unmatched
    ensures var rest := unmatched[|partial|..];
            matched + unmatched == matched + partial + [rest[0]] + rest[1..]
  {
  }

  lemma WellFormedChild(node: Node, depth: nat, i: nat)
    requires WellFormed(node, depth) && node.Branch? && i < 16
    ensures |node.children| == 16
    ensures node.children[i].HasChild? ==> WellFormed(node.children[i].node, depth + |node.path| + 1)
  {
  }

  /** One turn of the loop of `get_iterator_intial_state`: either the stack is final, or
      the search goes on below the child at the key's next nibble. */
  method SeekStep(ghost target: seq<Visit>, ghost start: Path, matched: Path, node: Node, unmatched: Path,
                  stack: seq<IterationNode>)
    returns (pushed: seq<IterationNode>, child: Child, nextMatched: Path, nextUnmatched: Path)
    requires ValidStack(stack) && Seeking(target, start, matched, node, stack)
    requires start == matched + unmatched && WellFormed(node, |matched|)
    ensures ValidStack(pushed)
    ensures child.NoChild? ==> StackNodes(pushed) == target
    ensures child.HasChild? ==>
              && child.node < node
              && Seeking(target, start, nextMatched, child.node, pushed)
              && start == nextMatched + nextUnmatched
              && WellFormed(child.node, |nextMatched|)
  {
    var comparison, rest := ComparePartialPath(node.path, unmatched);
    nextMatched, nextUnmatched := matched + node.path, rest;
    pushed, child := stack, NoChild;
    if comparison == Lt {
      SeekStopsBefore(target, start, matched, node, unmatched, stack);
    } else if comparison == Gt || rest == [] {
      SeekStopsAt(target, start, matched, node, unmatched, stack);
      pushed := stack + [Unvisited(nextMatched, node)];
    } else if node.Leaf? {
      SeekPastLeaf(target, start, matched, node, unmatched, stack);
    } else {
      pushed, child, nextMatched, nextUnmatched := SeekChild(target, start, matched, node, unmatched, stack);
    }
  }

  /** The last case: the node is a branch on the way to the key. */
  method SeekChild(ghost target: seq<Visit>, ghost start: Path, matched: Path, node: Node, unmatched: Path,
                   stack: seq<IterationNode>)
    returns (pushed: seq<IterationNode>, child: Child, nextMatched: Path, nextUnmatched: Path)
    requires ValidStack(stack) && Seeking(target, start, matched, node, stack)
    requires start == matched + unmatched && node.path < unmatched && node.Branch? && WellFormed(node, |matched|)
    ensures ValidStack(pushed)
    ensures child.NoChild? ==> StackNodes(pushed) == target
    ensures child.HasChild? ==>
              && child.node < node
              && Seeking(target, start, nextMatched, child.node, pushed)
              && start == nextMatched + nextUnmatched
              && WellFormed(child.node, |nextMatched|)
  {
    var nibble: nat := unmatched[|node.path|];
    WellFormedChild(node, |matched|, nibble);
    pushed := stack + [Visited(matched + node.path, node, nibble + 1)];
    child := node.children[nibble];
    nextMatched, nextUnmatched := matched + node.path + [nibble], unmatched[|node.path| + 1..];
    if child.NoChild? {
      SeekEnds(target, start, matched, node, unmatched, stack, nibble);
    } else {
      SeekDescends(target, start, matched, node, unmatched, stack, nibble);
    }
  }

  /** `get_iterator_intial_state`: the stack that yields exactly the nodes whose key is at
      or after `key`. */
  method InitialState(root: Option<Node>, key: Key) returns (stack: seq<IterationNode>)
    requires WellFormedTrie(root)
    ensures ValidStack(stack)
    ensures StackNodes(stack) == From(AllNodes(root), ToNibbles(key))
  {
    stack := [];
    if root.None? {
      return;
    }
    var matched, unmatched := [], ToNibbles(key);
    ghost var start := unmatched;
    ghost var target := From(AllNodes(root), start);
    assert matched + root.value.path == root.value.path;
    var child := HasChild(root.value);
    while child.HasChild?
      invariant ValidStack(stack)
      invariant child.NoChild? ==> StackNodes(stack) == target
      invariant child.HasChild? ==>
                  && Seeking(target, start, matched, child.node, stack)
                  && start == matched + unmatched
                  && WellFormed(child.node, |matched|)
      decreases child.HasChild?, if child.HasChild? then child.node else root.value
    {
      stack, child, matched, unmatched := SeekStep(target, start, matched, child.node, unmatched, stack);
    }
  }

  // ---- Node iterator ----

  datatype NodeIterState = StartFromKey(start: Key) | Iterating(stack: seq<IterationNode>)

  /** `MerkleNodeIter`: all nodes at or after a key, in key order. */
  class MerkleNodeIter {
    const root: Option<Node>
    var state: NodeIterState

    ghost predicate Valid()
      reads this
    {
      WellFormedTrie(root) && (state.Iterating? ==> ValidStack(state.stack))
    }

    ghost function Pending(): seq<Visit>
      requires Valid()
      reads this
    {
      match state
      case StartFromKey(key) => From(AllNodes(root), ToNibbles(key))
      case Iterating(stack) => StackNodes(stack)
    }

    constructor (root: Option<Node>, key: Key)
      requires WellFormedTrie(root)
      ensures Valid() && this.root == root
      ensures Pending() == From(AllNodes(root), ToNibbles(key))
    {
      this.root := root;
      state := StartFromKey(key);
    }

    /** Yields the first pending node under its packed key, or nothing, for good, when none
        is left. */
    method Next() returns (r: Option<(Key, Node)>)
      requires Valid()
      modifies this
      ensures Valid()
      ensures old(Pending()) == [] ==> r.None? && Pending() == []
      ensures old(Pending()) != [] ==>
                && r == Some((Pack(old(Pending())[0].key), old(Pending())[0].node))
                && Pending() == old(Pending())[1..]
    {
      if state.StartFromKey? {
        var stack := InitialState(root, state.start);
        state := Iterating(stack);
      }
      var stack;
      stack, r := Advance(state.stack);
      state := Iterating(stack);
    }
  }

  lemma PopUnvisited(stack: seq<IterationNode>, key: Path, node: Node)
    requires ValidStack(stack)
    ensures var after := if node.Leaf? then stack else stack + [Visited(key, node, 0)];
            && ValidStack(after)
            && StackNodes(stack + [Unvisited(key, node)]) == [Visit(key, node)] + StackNodes(after)
  {
    var self, kids, rest := [Visit(key, node)], Kids(key, node), StackNodes(stack);
    StackPush(stack, Unvisited(key, node));
    HeadAndKids(key, node);
    ConcatAssociative(self, kids, rest);
    if node.Leaf? {
      assert kids + rest == rest;
    } else {
      StackPush(stack, Visited(key, node, 0));
    }
  }

  lemma PopVisited(stack: seq<IterationNode>, key: Path, branch: Node, pos: nat)
    requires ValidStack(stack) && branch.Branch?
    requires pos < |branch.children| && pos < 16 && branch.children[pos].HasChild?
    ensures var child := branch.children[pos].node;
            var after := stack + [Visited(key, branch, pos + 1)] + [Unvisited(key + [pos] + child.path, child)];
            && ValidStack(after)
            && StackNodes(stack + [Visited(key, branch, pos)]) == StackNodes(after)
  {
    var child := branch.children[pos].node;
    var rest := Visited(key, branch, pos + 1);
    StackPush(stack, Visited(key, branch, pos));
    StackPush(stack, rest);
    StackPush(stack + [rest], Unvisited(key + [pos] + child.path, child));
    var kid, tail := KidAt(key, branch, pos), KidNodes(key, branch, pos + 1);
    ConcatAssociative(kid, tail, StackNodes(stack));
  }

  /** The loop of `MerkleNodeIter::next`: pop until an unvisited node turns up. */
  method Advance(stack: seq<IterationNode>) returns (after: seq<IterationNode>, r: Option<(Key, Node)>)
    requires ValidStack(stack)
    ensures ValidStack(after)
    ensures StackNodes(stack) == [] ==> r.None? && after == []
    ensures StackNodes(stack) != [] ==>
              && r == Some((Pack(StackNodes(stack)[0].key), StackNodes(stack)[0].node))
              && StackNodes(after) == StackNodes(stack)[1..]
  {
    after := stack;
    while after != []
      invariant ValidStack(after) && StackNodes(after) == StackNodes(stack)
      decreases if after != [] && after[|after| - 1].Unvisited? then 0 else |after| + 1
    {
      var top := after[|after| - 1];
      assert after == after[..|after| - 1] + [top];
      after := after[..|after| - 1];
      match top {
        case Unvisited(key, node) =>
          PopUnvisited(after, key, node);
          if node.Branch? {
            after := after + [Visited(key, node, 0)];
          }
          var packed := KeyFromNibbles(key);
          return after, Some((packed, node));
        case Visited(key, branch, next) =>
          var pos := NextChild(key, branch, next);
          StackPush(after, Visited(key, branch, next));
          StackPush(after, Visited(key, branch, pos));
          if pos < |branch.children| && pos < 16 {
            PopVisited(after, key, branch, pos);
            var child := branch.children[pos].node;
            after := after + [Visited(key, branch, pos + 1)] + [Unvisited(key + [pos] + child.path, child)];
          }
      }
    }
    r := None;
  }

  /** `children_iter.next()`: the next present child, skipping empty slots. */
  method NextChild(key: Path, branch: Node, next: nat) returns (pos: nat)
    requires branch.Branch?
    ensures next <= pos
    ensures forall i | next <= i < pos && i < |branch.children| && i < 16 :: branch.children[i].NoChild?
    ensures pos < |branch.children| && pos < 16 ==> branch.children[pos].HasChild?
    ensures KidNodes(key, branch, next) == KidNodes(key, branch, pos)
  {
    pos := next;
    while pos < |branch.children| && pos < 16 && branch.children[pos].NoChild?
      invariant next <= pos
      invariant forall i | next <= i < pos && i < |branch.children| && i < 16 :: branch.children[i].NoChild?
      invariant KidNodes(key, branch, next) == KidNodes(key, branch, pos)
    {
      pos := pos + 1;
    }
  }

  // ---- Key/value iterator ----

  /** The key/value pairs of a list of nodes; nodes without a value are passed over. */
  ghost function Pairs(vs: seq<Visit>): seq<(Key, Value)> {
    if vs == [] then []
    else (if vs[0].node.Value().Some? then [(Pack(vs[0].key), vs[0].node.Value().value)] else []) + Pairs(vs[1..])
  }

  /** `MerkleKeyValueIter`: the node iterator with valueless nodes filtered out. */
  class MerkleKeyValueIter {
    const iter: MerkleNodeIter

    ghost predicate Valid()
      reads this, iter
    {
      iter.Valid()
    }

    ghost function Pending(): seq<(Key, Value)>
      requires Valid()
      reads this, iter
    {
      Pairs(iter.Pending())
    }

    constructor FromKey(root: Option<Node>, key: Key)
      requires WellFormedTrie(root)
      ensures Valid() && fresh(iter)
      ensures Pending() == Pairs(From(AllNodes(root), ToNibbles(key)))
    {
      iter := new MerkleNodeIter(root, key);
    }

    method Next() returns (r: Option<(Key, Value)>)
      requires Valid()
      modifies iter
      ensures Valid()
      ensures old(Pending()) == [] ==> r.None? && Pending() == []
      ensures old(Pending()) != [] ==> r == Some(old(Pending())[0]) && Pending() == old(Pending())[1..]
    {
      while true
        invariant Valid() && Pending() == old(Pending())
        decreases |iter.Pending()|
      {
        var item := iter.Next();
        if item.None? {
          return None;
        }
        var (key, node) := item.value;
        if node.Value().Some? {
          return Some((key, node.Value().value));
        }
      }
    }
  }

  // ---- Stopping after a key ----

  /** The longest prefix of `ps` whose keys are at most `last`. */
  ghost function UpTo(ps: seq<(Key, Value)>, last: Option<Key>): seq<(Key, Value)> {
    if last.None? then ps
    else if ps == [] || !Leq(ps[0].0, last.value) then []
    else [ps[0]] + UpTo(ps[1..], last)
  }

  datatype RangeState = Unfiltered | Filtered(lastKey: Key) | Exhausted

  /** `FilteredKeyRangeIter`: stops for good after the first key beyond `last_key`. */
  class FilteredKeyRangeIter {
    const iter: MerkleKeyValueIter
    var state: RangeState

    ghost predicate Valid()
      reads this, iter, iter.iter
    {
      iter.Valid()
    }

    ghost function Pending(): seq<(Key, Value)>
      requires Valid()
      reads this, iter, iter.iter
    {
      match state
      case Unfiltered => iter.Pending()
      case Filtered(last) => UpTo(iter.Pending(), Some(last))
      case Exhausted => []
    }

    /** `MerkleKeyValueIter::from_key(root, key).stop_after_key(last)`. */
    constructor (root: Option<Node>, key: Key, last: Option<Key>)
      requires WellFormedTrie(root)
      ensures Valid() && fresh(iter) && fresh(iter.iter)
      ensures Pending() == UpTo(Pairs(From(AllNodes(root), ToNibbles(key))), last)
    {
      var inner := new MerkleKeyValueIter.FromKey(root, key);
      iter := inner;
      state := if last.None? then Unfiltered else Filtered(last.value);
    }

    method Next() returns (r: Option<(Key, Value)>)
      requires Valid()
      modifies this, iter.iter
      ensures Valid()
      ensures old(Pending()) == [] ==> r.None? && Pending() == []
      ensures old(Pending()) != [] ==> r == Some(old(Pending())[0]) && Pending() == old(Pending())[1..]
    {
      match state {
        case Unfiltered =>
          r := iter.Next();
        case Filtered(last) =>
          r := iter.Next();
          if r.None? || !Leq(r.value.0, last) {
            state := Exhausted;
            r := None;
          }
        case Exhausted =>
          r := None;
      }
    }
  }
}
