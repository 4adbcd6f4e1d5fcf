/** What `eth_getProof` exports as a whole (`firewood/src/eth_proof.rs`): the account, its proof
    and one proof per slot, entry by entry over the walks of the trie. */
module EthExport {
  import opened Sequences
  import opened Nibbles
  import opened Trie
  import opened PathIter
  import opened EthProof

  /** The entry is this item of a walk, with `len` nibbles before the node's own path. */
  ghost predicate Shows(e: Emitted, item: PathItem, len: int) {
    && e.Encoded? && e.node.key == item.key && e.node.partialLen == len
    && e.node.value == item.node.Value()
    && e.node.children == (if item.node.Leaf? then [] else item.node.children)
  }

  /** The entries are the items, in order. */
  ghost predicate ShowsAll(es: seq<Emitted>, items: seq<PathItem>) {
    |es| == |items| && forall i | 0 <= i < |es| :: Shows(es[i], items[i], |items[i].key| - |items[i].node.path|)
  }

  lemma {:induction false} EncodedShows(items: seq<PathItem>)
    requires Paths(items)
    ensures ShowsAll(EncodeAll(Encode(items)), items)
  {
  }

  lemma {:induction false} PresentNone(children: seq<Child>, s: nat)
    requires forall i | s <= i < |children| :: children[i].NoChild?
    ensures Present(children, s) == []
    decreases |children| - s
  {
    if s < |children| && s < 16 { PresentNone(children, s + 1); }
  }

  lemma {:induction false} PresentOne(children: seq<Child>, s: nat, i: Nibble)
    requires s <= i < |children| && children[i].HasChild?
    requires forall j | s <= j < |children| && j != i :: children[j].NoChild?
    ensures Present(children, s) == [i]
    decreases |children| - s
  {
    if s < i { PresentOne(children, s + 1, i); } else { PresentNone(children, s + 1); }
  }

  lemma {:induction false} PresentTwo(children: seq<Child>, i: Nibble, j: Nibble)
    requires i < j < |children| && children[i].HasChild? && children[j].HasChild?
    ensures |Present(children, 0)| >= 2
  {
    PresentMembers(children, 0, i);
    PresentMembers(children, 0, j);
  }

  /** The walk to a slot goes through the account and on from there: the first items are those
      of the account's own walk, the others are below account depth. */
  lemma {:induction false} SlotWalk(root: Option<Node>, account: Word, slot: Word, owner: Node)
    requires root.Some? && NodeAt(root.value, ToNibbles(account)) == Some(owner) && owner.Value().Some?
    ensures SplitsAt(WalkTrie(root, ToNibbles(account + slot)), |WalkTrie(root, ToNibbles(account))|,
                     Below(Terminal(root, account), ToNibbles(slot)))
  {
    PresentAccountFound(root, account, owner);
    ToNibblesConcat(account, slot);
    SlotWalkAt(root.value, ToNibbles(account), ToNibbles(slot));
  }

  /** The first `n` items are at account depth or above, and the others, `below`, are not. */
  ghost predicate SplitsAt(full: seq<PathItem>, n: nat, below: seq<PathItem>) {
    && n <= |full| && full[n..] == below
    && (forall i | 0 <= i < |full| :: |full[i].key| > ACCOUNT_DEPTH_NIBBLES <==> n <= i)
  }

  lemma {:induction false} SlotWalkAt(n: Node, p: Path, t: Path)
    requires |p| == ACCOUNT_DEPTH_NIBBLES && t != []
    requires var items := Walk(n, [], p); items[|items| - 1].key == p
    ensures var items := Walk(n, [], p); SplitsAt(Walk(n, [], p + t), |items|, Below(items[|items| - 1], t))
  {
    var items := Walk(n, [], p);
    AboveAccount(n, p, items);
    var w := FoundSplit(n, p, t, items);
    SplitAtAccount(items[..|items| - 1], w);
  }

  lemma SplitAtAccount(init: seq<PathItem>, w: seq<PathItem>)
    requires w != [] && |w[0].key| <= ACCOUNT_DEPTH_NIBBLES
    requires forall i | 0 <= i < |init| :: |init[i].key| <= ACCOUNT_DEPTH_NIBBLES
    requires forall i | 0 <= i < |w[1..]| :: |w[1..][i].key| > ACCOUNT_DEPTH_NIBBLES
    ensures SplitsAt(init + w, |init| + 1, w[1..])
  {
    var full, n := init + w, |init| + 1;
    assert full[n..] == w[1..];
    forall i | n <= i < |full| ensures |full[i].key| > ACCOUNT_DEPTH_NIBBLES { assert full[i] == w[1..][i - n]; }
  }

  predicate Childless(owner: Node) {
    owner.Leaf? || forall i | 0 <= i < |owner.children| :: owner.children[i].NoChild?
  }

  /** `i` is the only child there is. */
  predicate Lone(owner: Node, i: nat) {
    && owner.Branch? && i < 16 && i < |owner.children| && owner.children[i].HasChild?
    && forall j | 0 <= j < |owner.children| && j != i :: owner.children[j].NoChild?
  }

  /** The root is the lone child, encoded from account depth on; then come the items of the walk
      after that child. */
  ghost predicate LoneFits(proof: seq<Emitted>, account: Word, owner: Node, tail: seq<PathItem>, i: Nibble)
    requires Lone(owner, i)
  {
    var child := owner.children[i].node;
    && |proof| == (if tail == [] then 1 else |tail|)
    && Shows(proof[0], PathItem(ToNibbles(account) + [i] + child.path, child, None), ACCOUNT_DEPTH_NIBBLES)
    && (tail != [] ==> tail[0].node == child && ShowsAll(proof[1..], tail[1..]))
  }

  /** The root is the branch made of the account's children; then come all items of the walk
      below the account. */
  ghost predicate BranchFits(proof: seq<Emitted>, account: Word, owner: Node, tail: seq<PathItem>) {
    && proof != [] && proof[0].AccountBranch? && owner.Branch?
    && proof[0].account.key == ToNibbles(account)
    && proof[0].account.partialLen + |owner.path| == ACCOUNT_DEPTH_NIBBLES
    && proof[0].account.value == owner.Value() && proof[0].account.children == owner.children
    && ShowsAll(proof[1..], tail)
  }

  /** The proof of a slot of a present account, entry by entry, over the part of the walk to the
      slot that is below the account. */
  ghost predicate SlotProofFits(proof: seq<Emitted>, account: Word, owner: Node, tail: seq<PathItem>) {
    if Childless(owner) then proof == [] && tail == []
    else if exists i: Nibble :: Lone(owner, i) then
      exists i: Nibble | Lone(owner, i) :: LoneFits(proof, account, owner, tail, i)
    else BranchFits(proof, account, owner, tail)
  }

  /** The account is in the trie, and this is its node. */
  ghost predicate Account(root: Option<Node>, account: Word, owner: Node) {
    && root.Some? && NodeAt(root.value, ToNibbles(account)) == Some(owner) && owner.Value().Some?
    && (owner.Branch? ==> |owner.children| == 16)
  }

  ghost function ProofOf(root: Option<Node>, account: Word, slot: Word): seq<Emitted>
    requires AccountTerminal(root, account).Some?
  {
    BuildStorageProof(root, account, slot, AccountTerminal(root, account).value).proof
  }

  lemma {:induction false} NoChildProof(root: Option<Node>, account: Word, slot: Word, owner: Node)
    requires Account(root, account, owner) && Childless(owner)
    ensures AccountTerminal(root, account).Some?
    ensures ProofOf(root, account, slot) == [] && Below(Terminal(root, account), ToNibbles(slot)) == []
  {
    PresentAccountFound(root, account, owner);
    if owner.Branch? { PresentNone(owner.children, 0); }
    EmptyProof(root, account, slot, AccountTerminal(root, account).value);
    NothingBelow(Terminal(root, account), ToNibbles(slot));
  }

  lemma EmptyProof(root: Option<Node>, account: Word, slot: Word, node: ProofNode)
    requires Present(node.children, 0) == []
    ensures BuildStorageProof(root, account, slot, node).proof == []
  {
  }

  lemma NothingBelow(last: PathItem, t: Path)
    requires t != [] && Childless(last.node)
    ensures Below(last, t) == []
  {
  }

  lemma {:induction false} OneChildProof(root: Option<Node>, account: Word, slot: Word, owner: Node, i: Nibble)
    requires Account(root, account, owner) && Lone(owner, i)
    ensures AccountTerminal(root, account).Some?
    ensures LoneFits(ProofOf(root, account, slot), account, owner, Below(Terminal(root, account), ToNibbles(slot)), i)
  {
    PresentAccountFound(root, account, owner);
    PresentOne(owner.children, 0, i);
    LoneChildIsRoot(root, account, slot, owner, i);
    var last, tail := Terminal(root, account), Below(Terminal(root, account), ToNibbles(slot));
    StorageBelow(root, account, slot, last);
    ProofList(root, account, slot, tail);
    if tail != [] { LoneFirst(last, owner, ToNibbles(slot), i); }
    LoneAssembles(ProofOf(root, account, slot), account, owner, tail, i);
  }

  /** A walk that goes on below the account goes on to the lone child. */
  lemma LoneFirst(last: PathItem, owner: Node, t: Path, i: Nibble)
    requires t != [] && last.node == owner && Lone(owner, i) && Below(last, t) != []
    ensures Below(last, t)[0].node == owner.children[i].node
  {
    assert t[0] == i;
    WalkIsChain(owner.children[i].node, last.key + [i], t[1..]);
  }

  lemma {:induction false} LoneAssembles(proof: seq<Emitted>, account: Word, owner: Node, tail: seq<PathItem>,
                                         i: Nibble)
    requires Lone(owner, i) && |proof| == (if tail == [] then 1 else |tail|)
    requires var child := owner.children[i].node;
             proof[0] == Encoded(ProofNode(ToNibbles(account) + [i] + child.path, ACCOUNT_DEPTH_NIBBLES,
                                           child.Value(), if child.Leaf? then [] else child.children))
    requires tail != [] ==>
               && tail[0].node == owner.children[i].node
               && Paths(tail[1..]) && proof[1..] == EncodeAll(Encode(tail[1..]))
    ensures LoneFits(proof, account, owner, tail, i)
  {
    if tail != [] { EncodedShows(tail[1..]); }
  }

  /** What follows the root of the proof. */
  lemma {:induction false} ProofList(root: Option<Node>, account: Word, slot: Word, tail: seq<PathItem>)
    requires AccountTerminal(root, account).Some? && Paths(tail)
    requires StorageNodes(SingleKeyProof(root, account + slot)) == Encode(tail)
    ensures var node, proof := AccountTerminal(root, account).value, ProofOf(root, account, slot);
            var n := |Present(node.children, 0)|;
            && (n == 1 && tail != [] ==>
                  Paths(tail[1..]) && |proof| == |tail| && proof[1..] == EncodeAll(Encode(tail[1..])))
            && (n == 1 && tail == [] ==> |proof| <= 1)
            && (n >= 2 ==> proof == [AccountBranch(node)] + EncodeAll(Encode(tail)))
  {
    if tail != [] {
      EncodeTail(tail);
      ConsTail(Encoded(Fold(Encode(tail)[0])), EncodeAll(Encode(tail[1..])));
    }
  }

  lemma {:induction false} EncodeTail(items: seq<PathItem>)
    requires Paths(items) && items != []
    ensures Paths(items[1..]) && Encode(items)[1..] == Encode(items[1..])
  {
  }

  lemma {:induction false} BranchProof(root: Option<Node>, account: Word, slot: Word, owner: Node, i: Nibble, j: Nibble)
    requires Account(root, account, owner) && owner.Branch?
    requires i < j && owner.children[i].HasChild? && owner.children[j].HasChild?
    ensures AccountTerminal(root, account).Some?
    ensures BranchFits(ProofOf(root, account, slot), account, owner, Below(Terminal(root, account), ToNibbles(slot)))
  {
    PresentAccountFound(root, account, owner);
    PresentTwo(owner.children, i, j);
    var tail := Below(Terminal(root, account), ToNibbles(slot));
    StorageBelow(root, account, slot, Terminal(root, account));
    ProofList(root, account, slot, tail);
    EncodedShows(tail);
    ConsTail(AccountBranch(AccountTerminal(root, account).value), EncodeAll(Encode(tail)));
  }

  lemma {:induction false} SlotProofBelow(root: Option<Node>, account: Word, slot: Word, owner: Node)
    requires Account(root, account, owner)
    ensures AccountTerminal(root, account).Some?
    ensures SlotProofFits(ProofOf(root, account, slot), account, owner, Below(Terminal(root, account), ToNibbles(slot)))
  {
    if Childless(owner) {
      NoChildProof(root, account, slot, owner);
    } else if i: Nibble :| Lone(owner, i) {
      OneChildProof(root, account, slot, owner, i);
    } else {
      var i, j := TwoChildren(owner);
      BranchProof(root, account, slot, owner, i, j);
    }
  }

  lemma TwoChildren(owner: Node) returns (i: Nibble, j: Nibble)
    requires owner.Branch? && |owner.children| == 16 && !Childless(owner) && !exists i: Nibble :: Lone(owner, i)
    ensures i < j && owner.children[i].HasChild? && owner.children[j].HasChild?
  {
    var k: Nibble :| owner.children[k].HasChild?;
    assert !Lone(owner, k);
    var l: Nibble :| l != k && owner.children[l].HasChild?;
    i, j := if k < l then k else l, if k < l then l else k;
  }

  /** The proof of a slot of a present account, for any number of storage children: which entry
      is the root, and that the rest are the items below account depth of the walk to the slot,
      in order and with nothing left out. The slot's key is echoed. */
  lemma {:induction false} SlotProofIsWalk(root: Option<Node>, account: Word, slot: Word, owner: Node)
    requires Account(root, account, owner)
    ensures AccountTerminal(root, account).Some?
    ensures var p := BuildStorageProof(root, account, slot, AccountTerminal(root, account).value);
            var full, n := WalkTrie(root, ToNibbles(account + slot)), |WalkTrie(root, ToNibbles(account))|;
            && n <= |full| && SplitsAt(full, n, full[n..])
            && p.key == slot && SlotProofFits(p.proof, account, owner, full[n..])
  {
    SlotProofBelow(root, account, slot, owner);
    SlotWalk(root, account, slot, owner);
  }

  // ---- The whole export ----

  /** What `eth_get_proof` returns: the account's value, its proof and one proof per slot. */
  datatype Export = Export(account: Option<Value>, accountProof: seq<Emitted>, storageProofs: seq<StorageProof>)

  /** `absent_storage_proofs`, or one proof per slot. */
  ghost function StorageProofs(root: Option<Node>, account: Word, slots: seq<Word>): seq<StorageProof> {
    if slots == [] then []
    else
      var node := AccountTerminal(root, account);
      [if node.None? then StorageProof(slots[0], None, []) else BuildStorageProof(root, account, slots[0], node.value)] +
      StorageProofs(root, account, slots[1..])
  }

  ghost function EthGetProof(root: Option<Node>, account: Word, slots: seq<Word>): Export {
    Export(ReportedAccount(root, account), EncodeAll(SingleKeyProof(root, account)), StorageProofs(root, account, slots))
  }

  lemma {:induction false} StorageProofAt(root: Option<Node>, account: Word, slots: seq<Word>, i: nat)
    requires i < |slots|
    ensures |StorageProofs(root, account, slots)| == |slots|
    ensures var node := AccountTerminal(root, account);
            StorageProofs(root, account, slots)[i] ==
            if node.None? then StorageProof(slots[i], None, []) else BuildStorageProof(root, account, slots[i], node.value)
  {
    if i > 0 {
      StorageProofAt(root, account, slots[1..], i - 1);
    } else if |slots| > 1 {
      StorageProofAt(root, account, slots[1..], 0);
    }
  }

  /** The export of an account whose descent does not end at another one: the value is the
      trie's, the account proof is the walk to the account, and slot by slot, in the order asked
      for, the value is the trie's and the proof is that of the slot; an account that is not
      there has no values and empty slot proofs. */
  lemma {:induction false} ExportIsRight(root: Option<Node>, account: Word, slots: seq<Word>, i: nat)
    requires WellFormedTrie(root) && !EndsAtOtherAccount(root, account) && i < |slots|
    ensures var e := EthGetProof(root, account, slots);
            && e.account == Lookup(root, account)
            && ShowsAll(e.accountProof, WalkTrie(root, ToNibbles(account)))
            && |e.storageProofs| == |slots| && e.storageProofs[i].key == slots[i]
            && (e.account.None? ==> e.storageProofs[i].value.None? && e.storageProofs[i].proof == [])
            && (e.account.Some? ==> e.storageProofs[i].value == Lookup(root, account + slots[i]))
  {
    ReportIsLookupExactly(root, account);
    StorageProofAt(root, account, slots, i);
    if root.Some? {
      WalkPaths(root.value, [], ToNibbles(account));
      EncodedShows(WalkTrie(root, ToNibbles(account)));
    }
    if AccountTerminal(root, account).Some? { SlotValueAgrees(root, account, slots[i]); }
  }

  lemma SlotValueAgrees(root: Option<Node>, account: Word, slot: Word)
    requires WellFormedTrie(root) && AccountTerminal(root, account).Some?
    ensures BuildStorageProof(root, account, slot, AccountTerminal(root, account).value).value ==
            Lookup(root, account + slot)
  {
    var p := BuildStorageProof(root, account, slot, AccountTerminal(root, account).value);
    if p.value.Some? { SlotValueIsLookup(root, account, slot, p.value.value); }
    if Lookup(root, account + slot).Some? { SlotValueIsLookup(root, account, slot, Lookup(root, account + slot).value); }
  }
}
