/** `eth_getProof` export: which storage-trie root a slot proof starts with, what value it
    reports, and when the account fields it reports are those of the account asked for.

    A proof is kept as the list of nodes it encodes; their RLP form is not modelled.
 */
module EthProof {
  import opened Sequences
  import opened Nibbles
  import opened Trie
  import opened NodeIter
  import opened PathIter

  const ACCOUNT_DEPTH_NIBBLES: nat := 64
  const STORAGE_LEAF_DEPTH_NIBBLES: nat := 128

  type Word = k: Key | |k| == 32 witness seq(32, _ => 0)

  /** `children` stands for `child_hashes`: which slots are filled, and with what. */
  datatype ProofNode = ProofNode(key: Path, partialLen: nat, value: Option<Value>, children: seq<Child>)

  /** One entry of a storage proof. `AccountBranch` is the branch synthesized from the child
      hashes of the account node, `Encoded` an ordinary trie node. */
  datatype Emitted = AccountBranch(account: ProofNode) | Encoded(node: ProofNode)

  datatype StorageProof = StorageProof(key: Word, value: Option<Value>, proof: seq<Emitted>)

  /** `ProofNode::from_path_item`. */
  function FromPathItem(item: PathItem): ProofNode
    requires |item.node.path| <= |item.key|
  {
    ProofNode(item.key, |item.key| - |item.node.path|, item.node.Value(),
              if item.node.Leaf? then [] else item.node.children)
  }

  /** An item's key ends with its node's partial path. */
  ghost predicate EndsWithPath(item: PathItem) {
    |item.node.path| <= |item.key| && item.key[|item.key| - |item.node.path|..] == item.node.path
  }

  ghost predicate Paths(items: seq<PathItem>) {
    forall i | 0 <= i < |items| :: EndsWithPath(items[i])
  }

  lemma {:induction false} WalkPaths(node: Node, matched: Path, unmatched: Path)
    ensures Paths(Walk(node, matched, unmatched))
    decreases node
  {
    var items := Walk(node, matched, unmatched);
    if |items| > 1 {
      var nibble := unmatched[|node.path|];
      WalkPaths(node.children[nibble].node, matched + node.path + [nibble], unmatched[|node.path| + 1..]);
    }
  }

  ghost function Encode(items: seq<PathItem>): (nodes: seq<ProofNode>)
    requires Paths(items)
    ensures |nodes| == |items|
    ensures forall i | 0 <= i < |items| :: nodes[i] == FromPathItem(items[i])
  {
    if items == [] then [] else [FromPathItem(items[0])] + Encode(items[1..])
  }

  /** `single_key_proof`; an empty trie gives no nodes. */
  ghost function SingleKeyProof(root: Option<Node>, key: Key): seq<ProofNode> {
    if root.None? then []
    else
      WalkPaths(root.value, [], ToNibbles(key));
      Encode(WalkTrie(root, ToNibbles(key)))
  }

  /** The node taken for the account: the last of the account proof, when it sits at account
      depth and has a value. */
  ghost function AccountTerminal(root: Option<Node>, account: Word): Option<ProofNode> {
    var nodes := SingleKeyProof(root, account);
    if nodes == [] then None
    else
      var last := nodes[|nodes| - 1];
      if |last.key| == ACCOUNT_DEPTH_NIBBLES && last.value.Some? then Some(last) else None
  }

  /** The nodes below account depth. */
  ghost function StorageNodes(nodes: seq<ProofNode>): seq<ProofNode> {
    if nodes == [] then []
    else (if |nodes[0].key| > ACCOUNT_DEPTH_NIBBLES then [nodes[0]] else []) + StorageNodes(nodes[1..])
  }

  /** The slots of the children that are there, in order. */
  ghost function Present(children: seq<Child>, i: nat): seq<Nibble>
    decreases |children| - i
  {
    if i >= |children| || i >= 16 then []
    else (if children[i].HasChild? then [i] else []) + Present(children, i + 1)
  }

  /** The synthetic key: the account, then one nibble, then zeros up to slot depth. */
  function DescentKey(account: Word, nibble: Nibble): (k: Key)
    ensures |k| == 64
  {
    account + [Join(nibble, 0)] + seq(31, _ => 0)
  }

  /** `fetch_only_storage_child`. */
  ghost function FetchOnlyStorageChild(root: Option<Node>, account: Word, node: ProofNode): Option<ProofNode> {
    var present := Present(node.children, 0);
    if present == [] then None
    else
      var below := StorageNodes(SingleKeyProof(root, DescentKey(account, present[0])));
      if below == [] then None else Some(below[0])
  }

  ghost function EncodeAll(nodes: seq<ProofNode>): (es: seq<Emitted>)
    ensures |es| == |nodes| && forall i | 0 <= i < |nodes| :: es[i] == Encoded(nodes[i])
  {
    if nodes == [] then [] else [Encoded(nodes[0])] + EncodeAll(nodes[1..])
  }

  /** The root of a one-child account is encoded with the child nibble folded back in; the
      source subtracts with wrap-around on an unsigned word. */
  function Fold(node: ProofNode): ProofNode {
    node.(partialLen := if node.partialLen == 0 then 0xFFFF_FFFF_FFFF_FFFF else node.partialLen - 1)
  }

  /** `construct_root_proof`. */
  ghost function ConstructRootProof(root: Option<Node>, account: Word, node: ProofNode,
                                    storage: seq<ProofNode>): seq<Emitted> {
    if |Present(node.children, 0)| == 1 then
      var first := if storage != [] then Some(storage[0]) else FetchOnlyStorageChild(root, account, node);
      (if first.Some? then [Encoded(Fold(first.value))] else []) +
      EncodeAll(if storage == [] then [] else storage[1..])
    else [AccountBranch(node)] + EncodeAll(storage)
  }

  /** The value of the last storage node, if that is at slot depth and at the slot's key. */
  function SlotValue(storage: seq<ProofNode>, key: Path): Option<Value> {
    if storage == [] then None
    else
      var last := storage[|storage| - 1];
      if |last.key| == STORAGE_LEAF_DEPTH_NIBBLES && last.key == key then last.value else None
  }

  /** `build_storage_proof`. */
  ghost function BuildStorageProof(root: Option<Node>, account: Word, slot: Word, node: ProofNode): StorageProof {
    if Present(node.children, 0) == [] then StorageProof(slot, None, [])
    else
      var storage := StorageNodes(SingleKeyProof(root, account + slot));
      StorageProof(slot, SlotValue(storage, ToNibbles(account + slot)), ConstructRootProof(root, account, node, storage))
  }

  // ---- Descents that share a prefix ----

  /** Walking on past a key: if the walk to `u` ends at `u`, the walk to `u + s` goes on from
      that node; if it ends on another node of the same depth, it ends there for `u + s` too. */
  ghost predicate WalksOn(node: Node, matched: Path, u: Path, s: Path) {
    GoesOn(Walk(node, matched, u), Walk(node, matched, u + s), matched + u, s)
  }

  ghost predicate GoesOn(a: seq<PathItem>, b: seq<PathItem>, key: Path, s: Path) {
    a != [] && var last := a[|a| - 1];
               && (last.key == key ==>
                     && |last.node.path| <= |last.key|
                     && b == a[..|a| - 1] + Walk(last.node, last.key[..|last.key| - |last.node.path|], last.node.path + s))
               && (|last.key| == |key| && last.key != key ==> b == a)
  }

  lemma ConsGoesOn(head: PathItem, a: seq<PathItem>, b: seq<PathItem>, key: Path, s: Path)
    requires GoesOn(a, b, key, s)
    ensures GoesOn([head] + a, [head] + b, key, s)
  {
    var last := a[|a| - 1];
    if last.key == key {
      ConsInit(head, a, Walk(last.node, last.key[..|last.key| - |last.node.path|], last.node.path + s));
    }
  }

  lemma {:induction false} WalkOn(node: Node, matched: Path, u: Path, s: Path)
    ensures WalksOn(node, matched, u, s)
    decreases node
  {
    var a := Walk(node, matched, u);
    var last := a[|a| - 1];
    if |a| > 1 {
      WalkOnChild(node, matched, u, s);
    } else if last.key == matched + u {
      assert (matched + node.path)[|matched|..] == node.path && (matched + u)[|matched|..] == u;
      assert last.key[..|last.key| - |node.path|] == matched;
    } else if |last.key| == |matched + u| {
      assert |node.path| == |u| && node.path != u;
      assert !(node.path <= u + s) by { assert (u + s)[..|u|] == u; }
    }
  }

  /** Two walks to keys that share more than a node's path both go on to the same child. */
  lemma BothGoOn(node: Node, matched: Path, u: Path, s: Path)
    returns (head: PathItem, child: Node, below: Path, rest: Path)
    requires |Walk(node, matched, u)| > 1
    ensures child < node && below + rest == matched + u
    ensures Walk(node, matched, u) == [head] + Walk(child, below, rest)
    ensures Walk(node, matched, u + s) == [head] + Walk(child, below, rest + s)
  {
    var nibble := u[|node.path|];
    child, below, rest := node.children[nibble].node, matched + node.path + [nibble], u[|node.path| + 1..];
    SplitAfter(matched, node.path, u);
    assert u[|node.path|..][1..] == rest;
    LongerKey(node.path, u, s);
    head := PathItem(matched + node.path, node, Some(nibble));
  }

  lemma {:induction false} WalkOnChild(node: Node, matched: Path, u: Path, s: Path)
    requires |Walk(node, matched, u)| > 1
    ensures WalksOn(node, matched, u, s)
    decreases node, 0
  {
    var head, child, below, rest := BothGoOn(node, matched, u, s);
    WalkOn(child, below, rest, s);
    ConsGoesOn(head, Walk(child, below, rest), Walk(child, below, rest + s), matched + u, s);
  }

  lemma LongerKey(path: Path, u: Path, s: Path)
    requires path < u
    ensures path < u + s && (u + s)[|path|] == u[|path|] && (u + s)[|path| + 1..] == u[|path| + 1..] + s
  {
  }

  lemma ConsInit<T>(head: T, a: seq<T>, w: seq<T>)
    requires a != []
    ensures var c := [head] + a;
            c[|c| - 1] == a[|a| - 1] && [head] + (a[..|a| - 1] + w) == c[..|c| - 1] + w
  {
  }

  lemma {:induction false} WalkBelow(node: Node, matched: Path, unmatched: Path)
    ensures forall i | 0 <= i < |Walk(node, matched, unmatched)| :: |matched| <= |Walk(node, matched, unmatched)[i].key|
    decreases node
  {
    var items := Walk(node, matched, unmatched);
    if |items| > 1 {
      var nibble := unmatched[|node.path|];
      WalkBelow(node.children[nibble].node, matched + node.path + [nibble], unmatched[|node.path| + 1..]);
    }
  }

  lemma {:induction false} ToNibblesConcat(a: Key, b: Key)
    ensures ToNibbles(a + b) == ToNibbles(a) + ToNibbles(b)
  {
    if a == [] {
      assert a + b == b;
    } else {
      ToNibblesConcat(a[1..], b);
      assert (a + b)[1..] == a[1..] + b;
      ConcatAssociative([a[0] / 16, a[0] % 16], ToNibbles(a[1..]), ToNibbles(b));
    }
  }

  /** Items at account depth or above are left out, the ones below are kept. */
  lemma {:induction false} StorageNodesSplit(upper: seq<PathItem>, lower: seq<PathItem>)
    requires Paths(upper) && Paths(lower)
    requires forall i | 0 <= i < |upper| :: |upper[i].key| <= ACCOUNT_DEPTH_NIBBLES
    requires forall i | 0 <= i < |lower| :: |lower[i].key| > ACCOUNT_DEPTH_NIBBLES
    ensures StorageNodes(Encode(upper + lower)) == Encode(lower)
    decreases |upper| + |lower|
  {
    var all := upper + lower;
    if upper != [] {
      assert all[1..] == upper[1..] + lower;
      StorageNodesSplit(upper[1..], lower);
    } else if lower != [] {
      assert all == lower && all[1..] == upper + lower[1..];
      StorageNodesSplit(upper, lower[1..]);
    }
  }

  /** The items below the account on the way to the account and `tail`. */
  ghost function Below(last: PathItem, tail: Path): seq<PathItem>
    requires tail != []
  {
    if last.node.Branch? && tail[0] < |last.node.children| && last.node.children[tail[0]].HasChild? then
      Walk(last.node.children[tail[0]].node, last.key + [tail[0]], tail[1..])
    else []
  }

  lemma {:induction false} LastWalk(last: PathItem, tail: Path)
    requires EndsWithPath(last) && tail != []
    ensures var w := Walk(last.node, last.key[..|last.key| - |last.node.path|], last.node.path + tail);
            && w[0].key == last.key && w[0].node == last.node
            && w[1..] == Below(last, tail)
            && (forall i | 0 <= i < |w[1..]| :: |w[1..][i].key| > |last.key|)
            && Paths(w[1..])
  {
    var m := last.key[..|last.key| - |last.node.path|];
    var w := Walk(last.node, m, last.node.path + tail);
    assert m + last.node.path == last.key;
    assert (last.node.path + tail)[|last.node.path| + 1..] == tail[1..];
    if Below(last, tail) != [] {
      var child := last.node.children[tail[0]].node;
      WalkBelow(child, last.key + [tail[0]], tail[1..]);
      WalkPaths(child, last.key + [tail[0]], tail[1..]);
    }
  }

  lemma {:induction false} AboveAccount(n: Node, p: Path, items: seq<PathItem>)
    requires items == Walk(n, [], p)
    ensures Paths(items)
    ensures forall i | 0 <= i < |items| - 1 :: |items[i].key| < |p|
  {
    assert [] + p == p;
    WalkIsChain(n, [], p);
    WalkPaths(n, [], p);
    forall i | 0 <= i < |items| - 1 ensures |items[i].key| < |p| {
      assert Link(items[i], items[i + 1], p);
    }
  }

  /** The walk of an account found at its own key goes on from the account. */
  lemma FoundSplit(n: Node, p: Path, t: Path, items: seq<PathItem>) returns (w: seq<PathItem>)
    requires t != [] && items == Walk(n, [], p) && items[|items| - 1].key == p
    ensures Walk(n, [], p + t) == items[..|items| - 1] + w
    ensures w != [] && w[0].key == p && w[1..] == Below(items[|items| - 1], t) && Paths(w)
    ensures forall i | 0 <= i < |w[1..]| :: |w[1..][i].key| > |p|
  {
    var last := items[|items| - 1];
    FoundWalk(n, p, t, items);
    WalkPaths(n, [], p);
    LastWalk(last, t);
    var before := p[..|p| - |last.node.path|];
    WalkPaths(last.node, before, last.node.path + t);
    w := Walk(last.node, before, last.node.path + t);
  }

  /** The storage descent of an account found at its own key: all of it above account depth
      is left out, and below it the walk starts at the child the tail selects. */
  lemma {:induction false} FoundDescent(n: Node, p: Path, t: Path, items: seq<PathItem>, below: seq<PathItem>)
    requires |p| == ACCOUNT_DEPTH_NIBBLES && t != []
    requires items == Walk(n, [], p) && items[|items| - 1].key == p && below == Below(items[|items| - 1], t)
    ensures Paths(below) && Paths(Walk(n, [], p + t))
    ensures StorageNodes(Encode(Walk(n, [], p + t))) == Encode(below)
    ensures var full := Walk(n, [], p + t);
            if below == [] then |full[|full| - 1].key| == |p| else full[|full| - 1] == below[|below| - 1]
  {
    AboveAccount(n, p, items);
    var w := FoundSplit(n, p, t, items);
    DescentOf(items[..|items| - 1], w);
  }

  /** A descent whose first part stays above account depth and whose second part leaves it
      after one item. */
  lemma {:induction false} DescentOf(init: seq<PathItem>, w: seq<PathItem>)
    requires Paths(init) && Paths(w) && w != []
    requires forall i | 0 <= i < |init| :: |init[i].key| <= ACCOUNT_DEPTH_NIBBLES
    requires |w[0].key| == ACCOUNT_DEPTH_NIBBLES
    requires forall i | 0 <= i < |w[1..]| :: |w[1..][i].key| > ACCOUNT_DEPTH_NIBBLES
    ensures Paths(init + w) && Paths(w[1..])
    ensures StorageNodes(Encode(init + w)) == Encode(w[1..])
    ensures var full, below := init + w, w[1..];
            if below == [] then |full[|full| - 1].key| == ACCOUNT_DEPTH_NIBBLES
            else full[|full| - 1] == below[|below| - 1]
  {
    SplitDescent(init, w);
    LastOfConcat(init, w);
    if |w| > 1 { assert w[|w| - 1] == w[1..][|w| - 2]; }
  }

  lemma LastOfConcat<T>(a: seq<T>, b: seq<T>)
    requires b != []
    ensures a + b != [] && (a + b)[|a + b| - 1] == b[|b| - 1]
  {
  }

  lemma {:induction false} SplitDescent(init: seq<PathItem>, w: seq<PathItem>)
    requires Paths(init) && Paths(w) && w != []
    requires forall i | 0 <= i < |init| :: |init[i].key| <= ACCOUNT_DEPTH_NIBBLES
    requires |w[0].key| <= ACCOUNT_DEPTH_NIBBLES
    requires forall i | 0 <= i < |w[1..]| :: |w[1..][i].key| > ACCOUNT_DEPTH_NIBBLES
    ensures Paths(init + w) && Paths(w[1..])
    ensures StorageNodes(Encode(init + w)) == Encode(w[1..])
  {
    var upper, lower := init + [w[0]], w[1..];
    HeadTail(w);
    ConcatAssociative(init, [w[0]], lower);
    forall i | 0 <= i < |upper| ensures EndsWithPath(upper[i]) && |upper[i].key| <= ACCOUNT_DEPTH_NIBBLES {
      assert upper[i] == if i < |init| then init[i] else w[0];
    }
    forall i | 0 <= i < |lower| ensures EndsWithPath(lower[i]) { assert lower[i] == w[i + 1]; }
    StorageNodesSplit(upper, lower);
    assert Paths(upper + lower);
  }

  lemma FoundWalk(n: Node, p: Path, t: Path, items: seq<PathItem>)
    requires items == Walk(n, [], p) && items[|items| - 1].key == p
    ensures var last := items[|items| - 1];
            && |last.node.path| <= |p|
            && Walk(n, [], p + t) == items[..|items| - 1] + Walk(last.node, p[..|p| - |last.node.path|], last.node.path + t)
  {
    RootWalkOn(n, p, t);
    WalkPaths(n, [], p);
  }

  lemma {:induction false} RootWalkOn(n: Node, p: Path, t: Path)
    ensures GoesOn(Walk(n, [], p), Walk(n, [], p + t), p, t)
  {
    WalkOn(n, [], p, t);
    assert [] + p == p;
  }

  /** A descent that ends on another node of account depth has nothing below that depth. */
  lemma ForeignDescent(n: Node, p: Path, t: Path, items: seq<PathItem>)
    requires |p| == ACCOUNT_DEPTH_NIBBLES
    requires items == Walk(n, [], p) && |items[|items| - 1].key| == |p| && items[|items| - 1].key != p
    ensures Walk(n, [], p + t) == items && Paths(items)
    ensures StorageNodes(Encode(items)) == []
  {
    RootWalkOn(n, p, t);
    AboveAccount(n, p, items);
    NoStorageNodes(items);
  }

  lemma {:induction false} NoStorageNodes(items: seq<PathItem>)
    requires Paths(items) && forall i | 0 <= i < |items| :: |items[i].key| <= ACCOUNT_DEPTH_NIBBLES
    ensures StorageNodes(Encode(items)) == []
  {
    assert items + [] == items;
    StorageNodesSplit(items, []);
  }

  // ---- What the storage proofs say ----

  /** The last item of the account's descent. */
  ghost function Terminal(root: Option<Node>, account: Word): PathItem
    requires root.Some?
  {
    var items := Walk(root.value, [], ToNibbles(account));
    items[|items| - 1]
  }

  lemma TerminalNode(root: Option<Node>, account: Word)
    requires AccountTerminal(root, account).Some?
    ensures root.Some? && EndsWithPath(Terminal(root, account))
    ensures AccountTerminal(root, account).value == FromPathItem(Terminal(root, account))
    ensures |Terminal(root, account).key| == ACCOUNT_DEPTH_NIBBLES
  {
    WalkPaths(root.value, [], ToNibbles(account));
  }

  /** The storage nodes of any 64-byte key that starts with the account. */
  lemma {:induction false} StorageOf(root: Option<Node>, account: Word, tail: Word)
    requires AccountTerminal(root, account).Some?
    ensures root.Some?
    ensures var last, t := Terminal(root, account), ToNibbles(tail);
            var below := if last.key == ToNibbles(account) then Below(last, t) else [];
            && Paths(below)
            && StorageNodes(SingleKeyProof(root, account + tail)) == Encode(below)
            && var full := WalkTrie(root, ToNibbles(account + tail));
               if below == [] then |full[|full| - 1].key| == ACCOUNT_DEPTH_NIBBLES
               else full[|full| - 1] == below[|below| - 1]
  {
    TerminalNode(root, account);
    if Terminal(root, account).key == ToNibbles(account) {
      StorageOfFound(root, account, tail);
    } else {
      StorageOfForeign(root, account, tail);
    }
  }

  lemma {:induction false} StorageOfFound(root: Option<Node>, account: Word, tail: Word)
    requires root.Some? && Terminal(root, account).key == ToNibbles(account)
    ensures var below := Below(Terminal(root, account), ToNibbles(tail));
            && Paths(below)
            && StorageNodes(SingleKeyProof(root, account + tail)) == Encode(below)
            && var full := WalkTrie(root, ToNibbles(account + tail));
               if below == [] then |full[|full| - 1].key| == ACCOUNT_DEPTH_NIBBLES
               else full[|full| - 1] == below[|below| - 1]
  {
    var p, t := ToNibbles(account), ToNibbles(tail);
    ProofOfConcat(root, account, tail);
    FoundDescent(root.value, p, t, Walk(root.value, [], p), Below(Terminal(root, account), t));
  }

  lemma {:induction false} StorageOfForeign(root: Option<Node>, account: Word, tail: Word)
    requires root.Some? && |Terminal(root, account).key| == ACCOUNT_DEPTH_NIBBLES
    requires Terminal(root, account).key != ToNibbles(account)
    ensures StorageNodes(SingleKeyProof(root, account + tail)) == []
    ensures var full := WalkTrie(root, ToNibbles(account + tail)); |full[|full| - 1].key| == ACCOUNT_DEPTH_NIBBLES
  {
    var p := ToNibbles(account);
    ProofOfConcat(root, account, tail);
    ForeignDescent(root.value, p, ToNibbles(tail), Walk(root.value, [], p));
  }

  lemma {:induction false} ProofOfConcat(root: Option<Node>, account: Word, tail: Word)
    requires root.Some?
    ensures var walk := Walk(root.value, [], ToNibbles(account) + ToNibbles(tail));
            && WalkTrie(root, ToNibbles(account + tail)) == walk
            && Paths(walk)
            && SingleKeyProof(root, account + tail) == Encode(walk)
  {
    ToNibblesConcat(account, tail);
    WalkPaths(root.value, [], ToNibbles(account) + ToNibbles(tail));
  }

  lemma {:induction false} PresentMembers(children: seq<Child>, i: nat, j: Nibble)
    ensures j in Present(children, i) <==> i <= j < |children| && children[j].HasChild?
    decreases |children| - i
  {
    if i < |children| && i < 16 { PresentMembers(children, i + 1, j); }
  }

  lemma {:induction false} SlotValueOf(below: seq<PathItem>, key: Path, x: Value)
    requires Paths(below) && |key| == STORAGE_LEAF_DEPTH_NIBBLES
    ensures SlotValue(Encode(below), key) == Some(x) <==>
            below != [] && below[|below| - 1].key == key && below[|below| - 1].node.Value() == Some(x)
  {
    if below != [] {
      assert Encode(below)[|below| - 1] == FromPathItem(below[|below| - 1]);
    }
  }

  /** The slot's value, read off the nodes below the account. */
  lemma {:induction false} ReportedSlot(root: Option<Node>, account: Word, slot: Word, node: ProofNode,
                                        below: seq<PathItem>, x: Value)
    requires Paths(below) && StorageNodes(SingleKeyProof(root, account + slot)) == Encode(below)
    requires Present(node.children, 0) == [] ==> below == []
    ensures BuildStorageProof(root, account, slot, node).value == Some(x) <==>
            below != [] && below[|below| - 1].key == ToNibbles(account + slot) && below[|below| - 1].node.Value() == Some(x)
  {
    SlotValueOf(below, ToNibbles(account + slot), x);
  }

  lemma {:induction false} BelowNeedsChild(item: PathItem, t: Path)
    requires t != [] && EndsWithPath(item) && Present(FromPathItem(item).children, 0) == []
    ensures Below(item, t) == []
  {
    PresentMembers(FromPathItem(item).children, 0, t[0]);
  }

  /** The value reported for a slot is the one the trie maps account and slot to, or none
      when it maps them to nothing, whatever the number of storage children. */
  lemma {:induction false} SlotValueIsLookup(root: Option<Node>, account: Word, slot: Word, x: Value)
    requires WellFormedTrie(root) && AccountTerminal(root, account).Some?
    ensures BuildStorageProof(root, account, slot, AccountTerminal(root, account).value).value == Some(x) <==>
            Lookup(root, account + slot) == Some(x)
  {
    TerminalNode(root, account);
    StorageOf(root, account, slot);
    PathIteratorFindsKey(root, account + slot, x);
    var last, t := Terminal(root, account), ToNibbles(slot);
    if Present(FromPathItem(last).children, 0) == [] { BelowNeedsChild(last, t); }
    var below := if last.key == ToNibbles(account) then Below(last, t) else [];
    ReportedSlot(root, account, slot, FromPathItem(last), below, x);
  }

  lemma DescentTail(account: Word, nibble: Nibble) returns (tail: Word)
    ensures DescentKey(account, nibble) == account + tail && ToNibbles(tail)[0] == nibble
  {
    tail := [Join(nibble, 0)] + seq(31, _ => 0);
    ConcatAssociative(account, [Join(nibble, 0)], seq(31, _ => 0));
  }

  /** A present account is found at its own key. */
  lemma {:induction false} PresentAccountFound(root: Option<Node>, account: Word, owner: Node)
    requires root.Some? && NodeAt(root.value, ToNibbles(account)) == Some(owner) && owner.Value().Some?
    ensures Terminal(root, account).key == ToNibbles(account) && Terminal(root, account).node == owner
    ensures EndsWithPath(Terminal(root, account))
    ensures AccountTerminal(root, account) == Some(FromPathItem(Terminal(root, account)))
  {
    var p := ToNibbles(account);
    assert [] + p == p;
    WalkEndsAtNode(root.value, [], p, owner);
    LastProofNode(root, account);
  }

  /** For a present account with a single storage child the first node of every slot proof is
      that child, encoded from account depth on, whether the slot's own descent meets it or
      the synthetic key has to fetch it. */
  lemma {:induction false} LoneChildIsRoot(root: Option<Node>, account: Word, slot: Word, owner: Node, i: Nibble)
    requires root.Some? && NodeAt(root.value, ToNibbles(account)) == Some(owner)
    requires owner.Branch? && owner.Value().Some? && Present(owner.children, 0) == [i]
    ensures AccountTerminal(root, account).Some?
    ensures i < |owner.children| && owner.children[i].HasChild?
    ensures var child := owner.children[i].node;
            var proof := BuildStorageProof(root, account, slot, AccountTerminal(root, account).value).proof;
            && proof != []
            && proof[0] == Encoded(ProofNode(ToNibbles(account) + [i] + child.path, ACCOUNT_DEPTH_NIBBLES,
                                             child.Value(), if child.Leaf? then [] else child.children))
  {
    PresentAccountFound(root, account, owner);
    PresentMembers(owner.children, 0, i);
    LoneRoot(root, account, slot, i, Terminal(root, account));
  }

  lemma {:induction false} LoneRoot(root: Option<Node>, account: Word, slot: Word, i: Nibble, last: PathItem)
    requires AccountTerminal(root, account).Some? && root.Some? && last == Terminal(root, account)
    requires last.key == ToNibbles(account) && last.node.Branch?
    requires AccountTerminal(root, account).value.children == last.node.children
    requires Present(last.node.children, 0) == [i] && i < |last.node.children| && last.node.children[i].HasChild?
    ensures var child := last.node.children[i].node;
            var proof := BuildStorageProof(root, account, slot, AccountTerminal(root, account).value).proof;
            && proof != []
            && proof[0] == Encoded(ProofNode(last.key + [i] + child.path, ACCOUNT_DEPTH_NIBBLES,
                                             child.Value(), if child.Leaf? then [] else child.children))
  {
    var t := ToNibbles(slot);
    StorageOf(root, account, slot);
    if t[0] == i {
      LoneChildItem(last, t, i);
    } else {
      PresentMembers(last.node.children, 0, t[0]);
      LoneChildFetched(root, account, i, last);
    }
  }

  lemma {:induction false} LoneChildFetched(root: Option<Node>, account: Word, i: Nibble, last: PathItem)
    requires AccountTerminal(root, account).Some? && root.Some? && last == Terminal(root, account)
    requires last.key == ToNibbles(account) && last.node.Branch?
    requires AccountTerminal(root, account).value.children == last.node.children
    requires Present(last.node.children, 0) == [i] && i < |last.node.children| && last.node.children[i].HasChild?
    ensures var child := last.node.children[i].node;
            var fetched := FetchOnlyStorageChild(root, account, AccountTerminal(root, account).value);
            && fetched.Some?
            && Fold(fetched.value) == ProofNode(last.key + [i] + child.path, ACCOUNT_DEPTH_NIBBLES, child.Value(),
                                                if child.Leaf? then [] else child.children)
  {
    var tail := DescentTail(account, i);
    StorageBelow(root, account, tail, last);
    LoneChildItem(last, ToNibbles(tail), i);
    FirstFetched(root, account, AccountTerminal(root, account).value, i, Below(last, ToNibbles(tail)));
  }

  lemma {:induction false} StorageBelow(root: Option<Node>, account: Word, tail: Word, last: PathItem)
    requires AccountTerminal(root, account).Some? && root.Some? && last == Terminal(root, account)
    requires last.key == ToNibbles(account)
    ensures Paths(Below(last, ToNibbles(tail)))
    ensures StorageNodes(SingleKeyProof(root, account + tail)) == Encode(Below(last, ToNibbles(tail)))
  {
    StorageOf(root, account, tail);
  }

  lemma {:induction false} FirstFetched(root: Option<Node>, account: Word, node: ProofNode, i: Nibble,
                                        below: seq<PathItem>)
    requires Present(node.children, 0) == [i] && Paths(below) && below != []
    requires StorageNodes(SingleKeyProof(root, DescentKey(account, i))) == Encode(below)
    ensures FetchOnlyStorageChild(root, account, node) == Some(FromPathItem(below[0]))
  {
  }

  /** Below an account the first item is the child the tail selects; folding its edge nibble
      back in leaves exactly the account's depth before its path. */
  lemma LoneChildItem(last: PathItem, t: Path, i: Nibble)
    requires t != [] && |last.key| == ACCOUNT_DEPTH_NIBBLES
    requires last.node.Branch? && i < |last.node.children| && last.node.children[i].HasChild?
    ensures t[0] == i ==>
              var child, below := last.node.children[i].node, Below(last, t);
              && below != [] && below[0].key == last.key + [i] + child.path && below[0].node == child
              && Fold(FromPathItem(below[0])) ==
                 ProofNode(last.key + [i] + child.path, ACCOUNT_DEPTH_NIBBLES, child.Value(),
                           if child.Leaf? then [] else child.children)
  {
    if t[0] == i {
      WalkIsChain(last.node.children[i].node, last.key + [i], t[1..]);
    }
  }

  // ---- Whose fields are reported ----

  /** The account value the export decodes its fields from. */
  ghost function ReportedAccount(root: Option<Node>, account: Word): Option<Value> {
    var node := AccountTerminal(root, account);
    if node.None? then None else node.value.value
  }

  /** The descent to the account ends on a valued node at account depth that is some other
      account: its last proof node has the right depth and the wrong key. */
  ghost predicate EndsAtOtherAccount(root: Option<Node>, account: Word) {
    var nodes := SingleKeyProof(root, account);
    nodes != [] && var last := nodes[|nodes| - 1];
                   |last.key| == ACCOUNT_DEPTH_NIBBLES && last.value.Some? && last.key != ToNibbles(account)
  }

  /** The reported fields are those of the account asked for, or none for an absent account,
      exactly when the descent does not end at another account. */
  lemma ReportIsLookupExactly(root: Option<Node>, account: Word)
    requires WellFormedTrie(root)
    ensures ReportedAccount(root, account) == Lookup(root, account) <==> !EndsAtOtherAccount(root, account)
  {
    if root.Some? {
      LastProofNode(root, account);
      var last := Terminal(root, account);
      if last.node.Value().Some? { PathIteratorFindsKey(root, account, last.node.Value().value); }
      if Lookup(root, account).Some? { PathIteratorFindsKey(root, account, Lookup(root, account).value); }
    }
  }

  lemma LastProofNode(root: Option<Node>, account: Word)
    requires root.Some?
    ensures EndsWithPath(Terminal(root, account))
    ensures var nodes := SingleKeyProof(root, account);
            nodes != [] && nodes[|nodes| - 1] == FromPathItem(Terminal(root, account))
  {
    WalkPaths(root.value, [], ToNibbles(account));
  }

  /** A trie with one account, asked for another: the export reports the fields of the
      account that is there. */
  lemma {:induction false} AbsentAccountReported(there: Word, asked: Word, x: Value)
    requires there != asked
    ensures var root := Some(Leaf(ToNibbles(there), x));
            && WellFormedTrie(root)
            && Lookup(root, asked) == None
            && ReportedAccount(root, asked) == Some(x)
  {
    var root := Some(Leaf(ToNibbles(there), x));
    if ToNibbles(there) <= ToNibbles(asked) { ToNibblesInjective(there, asked); }
    WalkPaths(root.value, [], ToNibbles(asked));
    assert [] + ToNibbles(there) == ToNibbles(there);
  }
}
