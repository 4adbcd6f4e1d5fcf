/** `DiffMerkleNodeStream`: the difference of two tries by a synchronized pre-order walk
    that skips subtrees with equal hashes (`firewood/src/merkle/changes.rs`).
 */
module Diff {
  import opened Sequences
  import opened Nibbles
  import opened Trie
  import opened NodeIter
  import opened PreOrder

  datatype BatchOp = Put(key: Key, value: Value) | Delete(key: Key) | DeleteRange(key: Key)

  // ---- The difference of two lists of nodes ----

  function DeletedValues(value: Option<Value>, path: Path): Option<BatchOp> {
    if value.Some? then Some(Delete(Pack(path))) else None
  }

  function AddedValues(value: Option<Value>, path: Path): Option<BatchOp> {
    if value.Some? then Some(Put(Pack(path), value.value)) else None
  }

  function ToSeq<T>(x: Option<T>): seq<T> {
    if x.Some? then [x.value] else []
  }

  ghost function Deletes(vs: seq<Visit>): seq<BatchOp> {
    if vs == [] then [] else ToSeq(DeletedValues(vs[0].node.Value(), vs[0].key)) + Deletes(vs[1..])
  }

  ghost function Adds(vs: seq<Visit>): seq<BatchOp> {
    if vs == [] then [] else ToSeq(AddedValues(vs[0].node.Value(), vs[0].key)) + Adds(vs[1..])
  }

  /** What turns the value at one path from `l` into `r`. */
  function Change(l: Option<Value>, r: Option<Value>, path: Path): Option<BatchOp> {
    if l == r then None else if r.None? then DeletedValues(l, path) else AddedValues(r, path)
  }

  /** The merge of two lists, with no skipping. */
  ghost function Delta(l: seq<Visit>, r: seq<Visit>): seq<BatchOp>
    decreases |l| + |r|
  {
    if l == [] then Adds(r)
    else if r == [] then Deletes(l)
    else if Less(l[0].key, r[0].key) then
      ToSeq(DeletedValues(l[0].node.Value(), l[0].key)) + Delta(l[1..], r)
    else if Less(r[0].key, l[0].key) then
      ToSeq(AddedValues(r[0].node.Value(), r[0].key)) + Delta(l, r[1..])
    else
      ToSeq(Change(l[0].node.Value(), r[0].node.Value(), l[0].key)) + Delta(l[1..], r[1..])
  }

  /** A common front contributes nothing: this is why equal subtrees can be skipped. */
  lemma {:induction false} DeltaCommonFront(front: seq<Visit>, l: seq<Visit>, r: seq<Visit>)
    ensures Delta(front + l, front + r) == Delta(l, r)
  {
    if front == [] {
      assert front + l == l && front + r == r;
    } else {
      LessIrreflexive(front[0].key);
      assert (front + l)[1..] == front[1..] + l && (front + r)[1..] == front[1..] + r;
      DeltaCommonFront(front[1..], l, r);
    }
  }

  // ---- The stream ----

  datatype DiffState =
    | TraverseBoth
    | TraverseLeft(right: NodeInfo)
    | TraverseRight(left: NodeInfo)
    | AddRestRight
    | DeleteRestLeft
    | SkipChildren

  function HashMatch(l: Option<Digest>, r: Option<Digest>): DiffState {
    if l.Some? && r.Some? && l == r then SkipChildren else TraverseBoth
  }

  /** `one_step_compare`. */
  function OneStepCompare(l: NodeInfo, r: NodeInfo): (DiffState, Option<BatchOp>) {
    if Less(l.path, r.path) then (TraverseLeft(r), DeletedValues(l.node.Value(), l.path))
    else if Less(r.path, l.path) then (TraverseRight(l), AddedValues(r.node.Value(), r.path))
    else match (l.node.Value(), r.node.Value())
      case (None, None) => (HashMatch(l.hash, r.hash), None)
      case (Some(v), None) => (TraverseBoth, DeletedValues(Some(v), l.path))
      case (None, Some(v)) => (TraverseBoth, AddedValues(Some(v), r.path))
      case (Some(v), Some(w)) =>
        if v == w then (HashMatch(l.hash, r.hash), None) else (TraverseBoth, AddedValues(Some(w), r.path))
  }

  /** What the stream has still to emit, given where its two iterators stand. */
  ghost function Remaining(state: Option<DiffState>, li: Option<NodeInfo>, ls: seq<NodeInfo>,
                           ri: Option<NodeInfo>, rs: seq<NodeInfo>): seq<BatchOp> {
    match state
    case None => []
    case Some(TraverseBoth) => Delta(PendingOf(li, ls), PendingOf(ri, rs))
    case Some(TraverseLeft(r)) => Delta(PendingOf(li, ls), [Visit(r.path, r.node)] + PendingOf(ri, rs))
    case Some(TraverseRight(l)) => Delta([Visit(l.path, l.node)] + PendingOf(li, ls), PendingOf(ri, rs))
    case Some(AddRestRight) => Adds(PendingOf(ri, rs))
    case Some(DeleteRestLeft) => Deletes(PendingOf(li, ls))
    case Some(SkipChildren) => Delta(StackVisits(ls), StackVisits(rs))
  }

  lemma {:induction false} KidsFromChildren(path: Path, n: Node, m: Node, i: nat)
    requires n.Branch? && m.Branch? && n.children == m.children
    ensures KidNodes(path, n, i) == KidNodes(path, m, i)
    decreases 16 - i
  {
    if i < |n.children| && i < 16 { KidsFromChildren(path, n, m, i + 1); }
  }

  lemma CompareApart(l: NodeInfo, ls: seq<NodeInfo>, r: NodeInfo, rs: seq<NodeInfo>)
    requires Less(l.path, r.path) || Less(r.path, l.path)
    ensures var (next, op) := OneStepCompare(l, r);
            ToSeq(op) + Remaining(Some(next), Some(l), ls, Some(r), rs) ==
            Delta([Visit(l.path, l.node)] + PendingOf(Some(l), ls), [Visit(r.path, r.node)] + PendingOf(Some(r), rs))
  {
    ConsTail(Visit(l.path, l.node), PendingOf(Some(l), ls));
    ConsTail(Visit(r.path, r.node), PendingOf(Some(r), rs));
  }

  lemma CompareSame(l: NodeInfo, ls: seq<NodeInfo>, r: NodeInfo, rs: seq<NodeInfo>)
    requires l.Valid() && r.Valid() && !Less(l.path, r.path) && !Less(r.path, l.path)
    ensures var (next, op) := OneStepCompare(l, r);
            && op == Change(l.node.Value(), r.node.Value(), l.path)
            && Remaining(Some(next), Some(l), ls, Some(r), rs) == Delta(PendingOf(Some(l), ls), PendingOf(Some(r), rs))
  {
    LessTotal(l.path, r.path);
    if OneStepCompare(l, r).0 == SkipChildren { SkippedIsEqual(l, ls, r, rs); }
  }

  /** One comparison of the two current nodes accounts for exactly them, and may move to
      skipping only when what is below them is the same. */
  lemma OneStepIsDelta(l: NodeInfo, ls: seq<NodeInfo>, r: NodeInfo, rs: seq<NodeInfo>)
    requires l.Valid() && r.Valid()
    ensures var (next, op) := OneStepCompare(l, r);
            ToSeq(op) + Remaining(Some(next), Some(l), ls, Some(r), rs) ==
            Delta([Visit(l.path, l.node)] + PendingOf(Some(l), ls), [Visit(r.path, r.node)] + PendingOf(Some(r), rs))
  {
    if Less(l.path, r.path) || Less(r.path, l.path) {
      CompareApart(l, ls, r, rs);
    } else {
      CompareSame(l, ls, r, rs);
      ConsTail(Visit(l.path, l.node), PendingOf(Some(l), ls));
      ConsTail(Visit(r.path, r.node), PendingOf(Some(r), rs));
    }
  }

  lemma {:induction false} SkippedIsEqual(l: NodeInfo, ls: seq<NodeInfo>, r: NodeInfo, rs: seq<NodeInfo>)
    requires l.Valid() && r.Valid() && l.hash.Some? && l.hash == r.hash
    ensures Delta(PendingOf(Some(l), ls), PendingOf(Some(r), rs)) == Delta(StackVisits(ls), StackVisits(rs))
  {
    if l.node.Branch? { KidsFromChildren(l.path, l.node, r.node, 0); }
    DeltaCommonFront(Kids(l.path, l.node), StackVisits(ls), StackVisits(rs));
  }

  /** The children are skipped exactly when both nodes have hashes and those are equal: that is,
      when path, value and children are the same. */
  lemma SkipsExactly(l: NodeInfo, r: NodeInfo)
    requires l.Valid() && r.Valid()
    ensures OneStepCompare(l, r).0 == SkipChildren <==>
            l.hash.Some? && r.hash.Some? && DigestOf(l.path, l.node) == DigestOf(r.path, r.node)
  {
    LessIrreflexive(l.path);
    LessTotal(l.path, r.path);
  }

  /** How much work is left: nodes still to visit, a node held over, and then the states
      that end the walk. */
  ghost function Work(state: DiffState, left: seq<Visit>, right: seq<Visit>): nat {
    match state
    case TraverseLeft(_) => 2 * (|left| + |right| + 1) + 1
    case TraverseRight(_) => 2 * (|left| + |right| + 1) + 1
    case AddRestRight => 2 * (|left| + |right|)
    case DeleteRestLeft => 2 * (|left| + |right|)
    case _ => 2 * (|left| + |right|) + 1
  }

  /** The first node of `pending` is the one `info` describes, and the rest is what is pending
      once it is the current node. */
  ghost predicate Heads(pending: seq<Visit>, info: NodeInfo, stack: seq<NodeInfo>) {
    && info.Valid()
    && pending != []
    && pending[0] == Visit(info.path, info.node)
    && pending[1..] == PendingOf(Some(info), stack)
  }

  /** Comparing the first nodes of both sides. */
  lemma {:induction false} CompareHeads(lp: seq<Visit>, l: NodeInfo, ls: seq<NodeInfo>, rp: seq<Visit>, r: NodeInfo,
                                        rs: seq<NodeInfo>)
    requires Heads(lp, l, ls) && Heads(rp, r, rs)
    ensures var (next, op) := OneStepCompare(l, r);
            && ToSeq(op) + Remaining(Some(next), Some(l), ls, Some(r), rs) == Delta(lp, rp)
            && Work(next, PendingOf(Some(l), ls), PendingOf(Some(r), rs)) + 2 <= 2 * (|lp| + |rp|) + 1
            && (next.TraverseLeft? ==> next.right == r)
            && (next.TraverseRight? ==> next.left == l)
  {
    OneStepIsDelta(l, ls, r, rs);
    HeadTail(lp);
    HeadTail(rp);
  }

  class DiffMerkleNodeStream {
    var state: Option<DiffState>
    const left: PreOrderIterator
    const right: PreOrderIterator

    ghost predicate Valid()
      reads this, left, right
    {
      Matches(if state.None? then TraverseBoth else state.value)
    }

    ghost function Pending(): seq<BatchOp>
      reads this, left, right
    {
      Remaining(state, left.nodeInfo, left.stack, right.nodeInfo, right.stack)
    }

    constructor (l: Option<Node>, r: Option<Node>, lHashed: Path -> bool, rHashed: Path -> bool, start: Key)
      requires WellFormedTrie(l) && WellFormedTrie(r)
      ensures Valid() && fresh(left) && fresh(right)
      ensures Pending() == Delta(From(AllNodes(l), ToNibbles(start)), From(AllNodes(r), ToNibbles(start)))
    {
      var li := new PreOrderIterator(l, lHashed, start);
      var ri := new PreOrderIterator(r, rHashed, start);
      left, right := li, ri;
      state := Some(TraverseBoth);
    }

    /** The state that goes with the iterators once `next` is stored in it. */
    ghost predicate Matches(next: DiffState)
      reads this, left, right
    {
      && left != right && left.Valid() && right.Valid()
      && (next.TraverseLeft? ==> next.right.Valid() && right.nodeInfo == Some(next.right))
      && (next.TraverseRight? ==> next.left.Valid() && left.nodeInfo == Some(next.left))
    }

    /** `next_node_from_both`. */
    method NextNodeFromBoth() returns (next: DiffState, op: Option<BatchOp>)
      requires left != right && left.Valid() && right.Valid()
      modifies left, right
      ensures Matches(next)
      ensures ToSeq(op) + Remaining(Some(next), left.nodeInfo, left.stack, right.nodeInfo, right.stack) ==
              Delta(old(left.Pending()), old(right.Pending()))
      ensures Work(next, left.Pending(), right.Pending()) < Work(TraverseBoth, old(left.Pending()), old(right.Pending()))
    {
      var l := left.NextNodeInfo();
      if l.None? {
        return AddRestRight, None;
      }
      var r := right.NextNodeInfo();
      if r.None? {
        return DeleteRestLeft, DeletedValues(l.value.node.Value(), l.value.path);
      }
      CompareHeads(old(left.Pending()), l.value, left.stack, old(right.Pending()), r.value, right.stack);
      var (n, o) := OneStepCompare(l.value, r.value);
      return n, o;
    }

    /** The `TraverseLeft` state: the next node on the left against the one held on the right. */
    method NextNodeFromLeft(r: NodeInfo) returns (next: DiffState, op: Option<BatchOp>)
      requires Matches(TraverseLeft(r))
      modifies left
      ensures Matches(next)
      ensures ToSeq(op) + Remaining(Some(next), left.nodeInfo, left.stack, right.nodeInfo, right.stack) ==
              Delta(old(left.Pending()), [Visit(r.path, r.node)] + right.Pending())
      ensures Work(next, left.Pending(), right.Pending()) < Work(TraverseLeft(r), old(left.Pending()), right.Pending())
    {
      var l := left.NextNodeInfo();
      ghost var rp := [Visit(r.path, r.node)] + right.Pending();
      ConsTail(Visit(r.path, r.node), right.Pending());
      if l.None? {
        return AddRestRight, AddedValues(r.node.Value(), r.path);
      }
      CompareHeads(old(left.Pending()), l.value, left.stack, rp, r, right.stack);
      var (n, o) := OneStepCompare(l.value, r);
      return n, o;
    }

    /** The `TraverseRight` state, the other way round. */
    method NextNodeFromRight(l: NodeInfo) returns (next: DiffState, op: Option<BatchOp>)
      requires Matches(TraverseRight(l))
      modifies right
      ensures Matches(next)
      ensures ToSeq(op) + Remaining(Some(next), left.nodeInfo, left.stack, right.nodeInfo, right.stack) ==
              Delta([Visit(l.path, l.node)] + left.Pending(), old(right.Pending()))
      ensures Work(next, left.Pending(), right.Pending()) < Work(TraverseRight(l), left.Pending(), old(right.Pending()))
    {
      var r := right.NextNodeInfo();
      ghost var lp := [Visit(l.path, l.node)] + left.Pending();
      ConsTail(Visit(l.path, l.node), left.Pending());
      if r.None? {
        return DeleteRestLeft, DeletedValues(l.node.Value(), l.path);
      }
      CompareHeads(lp, l, left.stack, old(right.Pending()), r.value, right.stack);
      var (n, o) := OneStepCompare(l, r.value);
      return n, o;
    }

    /** One turn of the loop of `next_internal`. */
    method Step() returns (next: Option<DiffState>, op: Option<BatchOp>)
      requires Valid() && state.Some?
      modifies left, right
      ensures next.None? ==> op.None? && old(Pending()) == [] && left.Valid() && right.Valid()
      ensures next.Some? ==>
                && Matches(next.value)
                && ToSeq(op) + Remaining(next, left.nodeInfo, left.stack, right.nodeInfo, right.stack) == old(Pending())
                && Work(next.value, left.Pending(), right.Pending()) <
                   Work(state.value, old(left.Pending()), old(right.Pending()))
    {
      match state.value {
        case SkipChildren =>
          left.SkipChildren();
          right.SkipChildren();
          var n, o := NextNodeFromBoth();
          return Some(n), o;
        case TraverseBoth =>
          var n, o := NextNodeFromBoth();
          return Some(n), o;
        case TraverseLeft(r) =>
          var n, o := NextNodeFromLeft(r);
          return Some(n), o;
        case TraverseRight(l) =>
          var n, o := NextNodeFromRight(l);
          return Some(n), o;
        case AddRestRight =>
          var r := right.NextNodeInfo();
          if r.None? {
            return None, None;
          }
          return Some(AddRestRight), AddedValues(r.value.node.Value(), r.value.path);
        case DeleteRestLeft =>
          var l := left.NextNodeInfo();
          if l.None? {
            return None, None;
          }
          return Some(DeleteRestLeft), DeletedValues(l.value.node.Value(), l.value.path);
      }
    }

    /** `next_internal`: emits the first pending operation, or nothing, for good, when the
        tries have no more differences. */
    method Next() returns (r: Option<BatchOp>)
      requires Valid()
      modifies this, left, right
      ensures Valid()
      ensures old(Pending()) == [] ==> r.None? && Pending() == []
      ensures old(Pending()) != [] ==> r == Some(old(Pending())[0]) && Pending() == old(Pending())[1..]
    {
      while state.Some?
        invariant Valid() && Pending() == old(Pending())
        decreases state.Some?, if state.None? then 0 else Work(state.value, left.Pending(), right.Pending())
      {
        var next, op := Step();
        state := next;
        if op.Some? {
          return op;
        }
      }
      return None;
    }
  }
}
