/** What the trie difference means for the maps of the two tries. */
module DiffMap {
  import opened Sequences
  import opened Nibbles
  import opened Trie
  import opened NodeIter
  import opened KeyRange
  import opened Diff

  /** The operations that the difference of two tries emits from `start` on. */
  ghost function DiffOps(l: Option<Node>, r: Option<Node>, start: Key): seq<BatchOp> {
    Delta(From(AllNodes(l), ToNibbles(start)), From(AllNodes(r), ToNibbles(start)))
  }

  ghost predicate OpsSorted(ops: seq<BatchOp>) {
    forall i, j | 0 <= i < j < |ops| :: Less(ops[i].key, ops[j].key)
  }

  /** The value a list of nodes holds at a path. */
  ghost function ValueAt(vs: seq<Visit>, p: Path): Option<Value> {
    if vs == [] then None else if vs[0].key == p then vs[0].node.Value() else ValueAt(vs[1..], p)
  }

  lemma {:induction false} ValueAtMembers(vs: seq<Visit>, p: Path, x: Value)
    requires Sorted(vs)
    ensures ValueAt(vs, p) == Some(x) <==> exists v :: v in vs && v.key == p && v.node.Value() == Some(x)
  {
    if vs != [] {
      ValueAtMembers(vs[1..], p, x);
      assert forall v | v in vs :: v == vs[0] || v in vs[1..];
      if vs[0].key == p {
        forall v | v in vs[1..] ensures v.key != p { LessIrreflexive(p); }
      }
    }
  }

  lemma {:induction false} ValueAtBefore(vs: seq<Visit>, p: Path)
    requires Sorted(vs) && (vs == [] || Less(p, vs[0].key))
    ensures ValueAt(vs, p) == None
  {
    if ValueAt(vs, p).Some? {
      ValueAtMembers(vs, p, ValueAt(vs, p).value);
      var v :| v in vs && v.key == p;
      if v != vs[0] { LessTransitive(p, vs[0].key, v.key); }
      LessIrreflexive(p);
      assert false;
    }
  }

  /** The operation the difference of two values calls for. */
  ghost predicate Calls(op: BatchOp, l: Option<Value>, r: Option<Value>) {
    match op
    case Put(_, x) => r == Some(x) && l != Some(x)
    case Delete(_) => r == None && l.Some?
    case DeleteRange(_) => false
  }

  /** An operation is in the difference exactly when the values at its key call for it. */
  lemma {:induction false} AddsMembers(r: seq<Visit>, op: BatchOp)
    requires Sorted(r) && EvenValues(r)
    ensures op in Adds(r) <==> Calls(op, None, ValueAt(r, ToNibbles(op.key)))
  {
    if r != [] {
      AddsMembers(r[1..], op);
      HeadPath(r, op.key);
    }
  }

  lemma {:induction false} DeletesMembers(l: seq<Visit>, op: BatchOp)
    requires Sorted(l) && EvenValues(l)
    ensures op in Deletes(l) <==> Calls(op, ValueAt(l, ToNibbles(op.key)), None)
  {
    if l != [] {
      DeletesMembers(l[1..], op);
      HeadPath(l, op.key);
    }
  }

  /** A valued head sits at the path of exactly one byte key, and nothing after it does. */
  lemma {:induction false} HeadPath(vs: seq<Visit>, k: Key)
    requires vs != [] && Sorted(vs) && EvenValues(vs)
    ensures vs[0].node.Value().Some? ==> (Pack(vs[0].key) == k <==> vs[0].key == ToNibbles(k))
    ensures vs[0].key == ToNibbles(k) ==> ValueAt(vs[1..], ToNibbles(k)) == None
  {
    if vs[0].node.Value().Some? {
      assert vs[0] in vs;
      ToNibblesPack(vs[0].key);
      PackToNibbles(k);
    }
    if vs[0].key == ToNibbles(k) { ValueAtBefore(vs[1..], ToNibbles(k)); }
  }

  lemma {:induction false} DeltaMembers(l: seq<Visit>, r: seq<Visit>, op: BatchOp)
    requires Sorted(l) && EvenValues(l) && Sorted(r) && EvenValues(r)
    ensures op in Delta(l, r) <==> Calls(op, ValueAt(l, ToNibbles(op.key)), ValueAt(r, ToNibbles(op.key)))
    decreases |l| + |r|
  {
    var p := ToNibbles(op.key);
    if l == [] {
      AddsMembers(r, op);
    } else if r == [] {
      DeletesMembers(l, op);
    } else {
      HeadPath(l, op.key);
      HeadPath(r, op.key);
      if Less(l[0].key, r[0].key) {
        DeltaMembers(l[1..], r, op);
        if l[0].key == p { ValueAtBefore(r, p); }
      } else if Less(r[0].key, l[0].key) {
        DeltaMembers(l, r[1..], op);
        if r[0].key == p { ValueAtBefore(l, p); }
      } else {
        LessTotal(l[0].key, r[0].key);
        DeltaMembers(l[1..], r[1..], op);
      }
    }
  }

  /** Every operation is on a key after `p`. */
  ghost predicate KeysAfter(ops: seq<BatchOp>, p: Path) {
    forall op | op in ops :: Less(p, ToNibbles(op.key))
  }

  lemma {:induction false} DeltaAfter(l: seq<Visit>, r: seq<Visit>, p: Path)
    requires Sorted(l) && EvenValues(l) && Sorted(r) && EvenValues(r)
    requires forall v | v in l :: Less(p, v.key)
    requires forall v | v in r :: Less(p, v.key)
    ensures KeysAfter(Delta(l, r), p)
  {
    forall op | op in Delta(l, r) ensures Less(p, ToNibbles(op.key)) {
      DeltaMembers(l, r, op);
      var q := ToNibbles(op.key);
      if ValueAt(l, q).Some? { ValueAtMembers(l, q, ValueAt(l, q).value); }
      if ValueAt(r, q).Some? { ValueAtMembers(r, q, ValueAt(r, q).value); }
    }
  }

  lemma ConsOpSorted(op: Option<BatchOp>, p: Path, rest: seq<BatchOp>)
    requires OpsSorted(rest) && KeysAfter(rest, p)
    requires op.Some? ==> ToNibbles(op.value.key) == p
    ensures OpsSorted(ToSeq(op) + rest)
  {
    if op.Some? {
      forall j | 0 <= j < |rest| ensures Less(op.value.key, rest[j].key) {
        assert rest[j] in rest;
        NibbleOrder(op.value.key, rest[j].key);
      }
    }
  }

  lemma {:induction false} DeltaSorted(l: seq<Visit>, r: seq<Visit>)
    requires Sorted(l) && EvenValues(l) && Sorted(r) && EvenValues(r)
    ensures OpsSorted(Delta(l, r))
    decreases |l| + |r|
  {
    if l == [] && r == [] {
    } else if l == [] {
      DeltaSorted(l, r[1..]);
      DeltaAfter(l, r[1..], r[0].key);
      assert r[0] in r;
      ToNibblesPack(r[0].key);
      ConsOpSorted(AddedValues(r[0].node.Value(), r[0].key), r[0].key, Delta(l, r[1..]));
    } else if r == [] {
      DeltaSorted(l[1..], r);
      DeltaAfter(l[1..], r, l[0].key);
      assert l[0] in l;
      ToNibblesPack(l[0].key);
      EmptyRight(l[1..]);
      ConsOpSorted(DeletedValues(l[0].node.Value(), l[0].key), l[0].key, Delta(l[1..], r));
    } else {
      DeltaSortedBoth(l, r);
    }
  }

  lemma {:induction false} EmptyRight(l: seq<Visit>)
    ensures Delta(l, []) == Deletes(l)
  {
  }

  /** If a list starts after `p`, all of it is after `p`. */
  lemma {:induction false} AllAfter(vs: seq<Visit>, p: Path)
    requires Sorted(vs) && (vs == [] || Less(p, vs[0].key))
    ensures forall v | v in vs :: Less(p, v.key)
  {
    forall v | v in vs ensures Less(p, v.key) {
      if v != vs[0] { LessTransitive(p, vs[0].key, v.key); }
    }
  }

  /** One operation at the head of a sorted difference, whose nodes are all after it. */
  lemma {:induction false} HeadSorted(op: Option<BatchOp>, v: Visit, l: seq<Visit>, r: seq<Visit>)
    requires Sorted(l) && EvenValues(l) && Sorted(r) && EvenValues(r) && OpsSorted(Delta(l, r))
    requires (forall u | u in l :: Less(v.key, u.key)) && (forall u | u in r :: Less(v.key, u.key))
    requires op.Some? ==> |v.key| % 2 == 0 && op.value.key == Pack(v.key)
    ensures OpsSorted(ToSeq(op) + Delta(l, r))
  {
    DeltaAfter(l, r, v.key);
    if op.Some? { ToNibblesPack(v.key); }
    ConsOpSorted(op, v.key, Delta(l, r));
  }

  lemma {:induction false} DeltaSortedBoth(l: seq<Visit>, r: seq<Visit>)
    requires Sorted(l) && EvenValues(l) && Sorted(r) && EvenValues(r) && l != [] && r != []
    ensures OpsSorted(Delta(l, r))
    decreases |l| + |r|, 0
  {
    assert l[0] in l && r[0] in r;
    LessTotal(l[0].key, r[0].key);
    if Less(l[0].key, r[0].key) {
      DeltaSorted(l[1..], r);
      AllAfter(r, l[0].key);
      HeadSorted(DeletedValues(l[0].node.Value(), l[0].key), l[0], l[1..], r);
    } else if Less(r[0].key, l[0].key) {
      DeltaSorted(l, r[1..]);
      AllAfter(l, r[0].key);
      HeadSorted(AddedValues(r[0].node.Value(), r[0].key), r[0], l, r[1..]);
    } else {
      DeltaSorted(l[1..], r[1..]);
      HeadSorted(Change(l[0].node.Value(), r[0].node.Value(), l[0].key), l[0], l[1..], r[1..]);
    }
  }

  // ---- Tries ----

  /** The nodes from a start key on hold what the trie maps the keys from it on to. */
  lemma {:induction false} NodesFrom(root: Option<Node>, start: Key)
    requires WellFormedTrie(root)
    ensures var vs := From(AllNodes(root), ToNibbles(start));
            && Sorted(vs) && EvenValues(vs)
            && forall k: Key :: ValueAt(vs, ToNibbles(k)) == if Leq(start, k) then Lookup(root, k) else None
  {
    var all, s := AllNodes(root), ToNibbles(start);
    var vs := From(all, s);
    TrieNodes(root);
    FromSorted(all, s);
    forall v: Visit ensures v in vs <==> v in all && Leq(s, v.key) { FromMembers(all, s, v); }
    forall k: Key ensures ValueAt(vs, ToNibbles(k)) == if Leq(start, k) then Lookup(root, k) else None {
      ValueFrom(root, start, k, vs);
    }
  }

  lemma {:induction false} ValueFrom(root: Option<Node>, start: Key, k: Key, vs: seq<Visit>)
    requires WellFormedTrie(root) && Sorted(vs)
    requires forall v: Visit :: v in vs <==> v in AllNodes(root) && Leq(ToNibbles(start), v.key)
    ensures ValueAt(vs, ToNibbles(k)) == if Leq(start, k) then Lookup(root, k) else None
  {
    var p := ToNibbles(k);
    TrieNodes(root);
    NibbleOrder(start, k);
    if start != k && ToNibbles(start) == p { ToNibblesInjective(start, k); }
    if ValueAt(vs, p).Some? {
      ValueAtMembers(vs, p, ValueAt(vs, p).value);
    } else if Leq(start, k) && Lookup(root, k).Some? {
      var v := Visit(p, NodeAt(root.value, p).value);
      assert v in vs;
      ValueAtMembers(vs, p, Lookup(root, k).value);
    }
  }

  /** The stream emits, in strictly increasing key order, a put for exactly the keys from the
      start on whose value in the right trie is new or different, and a delete for exactly
      those the right trie lacks. */
  lemma DiffIsDifference(l: Option<Node>, r: Option<Node>, start: Key)
    requires WellFormedTrie(l) && WellFormedTrie(r)
    ensures OpsSorted(DiffOps(l, r, start))
    ensures forall op: BatchOp :: op in DiffOps(l, r, start) <==>
              Leq(start, op.key) && Calls(op, Lookup(l, op.key), Lookup(r, op.key))
  {
    NodesFrom(l, start);
    NodesFrom(r, start);
    var lv, rv := From(AllNodes(l), ToNibbles(start)), From(AllNodes(r), ToNibbles(start));
    DeltaSorted(lv, rv);
    forall op: BatchOp
      ensures op in Delta(lv, rv) <==> Leq(start, op.key) && Calls(op, Lookup(l, op.key), Lookup(r, op.key))
    {
      DeltaMembers(lv, rv, op);
    }
  }

  // ---- Applying a batch ----

  type Contents = map<Key, Value>

  function Find(m: Contents, k: Key): Option<Value> {
    if k in m then Some(m[k]) else None
  }

  /** `apply_batch_serial` on what a trie maps. */
  function Apply(m: Contents, ops: seq<BatchOp>): Contents {
    if ops == [] then m
    else
      var op := ops[|ops| - 1];
      var before := Apply(m, ops[..|ops| - 1]);
      match op
      case Put(k, x) => before[k := x]
      case Delete(k) => before - {k}
      case DeleteRange(prefix) => map k | k in before && !(prefix <= k) :: before[k]
  }

  /** The keys an operation is about: its own, or all that start with its prefix. */
  predicate Touches(op: BatchOp, k: Key) {
    if op.DeleteRange? then op.key <= k else op.key == k
  }

  lemma {:induction false} ApplySnoc(m: Contents, ops: seq<BatchOp>, op: BatchOp, k: Key)
    ensures Find(Apply(m, ops + [op]), k) ==
            if !Touches(op, k) then Find(Apply(m, ops), k) else if op.Put? then Some(op.value) else None
  {
    SnocInit(ops, op);
  }

  /** Any mix of the three operations: the last operation that touches a key decides, and a
      key that none touches stays as it is. */
  lemma {:induction false} LastTouchDecides(m: Contents, ops: seq<BatchOp>, k: Key)
    ensures (forall i | 0 <= i < |ops| :: !Touches(ops[i], k)) ==> Find(Apply(m, ops), k) == Find(m, k)
    ensures forall i | 0 <= i < |ops| && Touches(ops[i], k) && (forall j | i < j < |ops| :: !Touches(ops[j], k)) ::
              Find(Apply(m, ops), k) == if ops[i].Put? then Some(ops[i].value) else None
  {
    if ops != [] {
      var init, last := ops[..|ops| - 1], ops[|ops| - 1];
      InitLast(ops);
      LastTouchDecides(m, init, k);
      ApplySnoc(m, init, last, k);
      assert forall i | 0 <= i < |init| :: init[i] == ops[i];
    }
  }

  /** What the last operation does to a key. */
  lemma {:induction false} ApplyLast(m: Contents, ops: seq<BatchOp>, k: Key)
    requires ops != [] && !ops[|ops| - 1].DeleteRange?
    ensures var last, before := ops[|ops| - 1], Apply(m, ops[..|ops| - 1]);
            Find(Apply(m, ops), k) ==
            if last.key != k then Find(before, k) else if last.Put? then Some(last.value) else None
  {
  }

  /** With one operation per key, each key ends up with what its operation says, or as it
      was. */
  lemma {:induction false} ApplyDistinct(m: Contents, ops: seq<BatchOp>, k: Key)
    requires OpsSorted(ops) && (forall op | op in ops :: !op.DeleteRange?)
    ensures forall x :: Put(k, x) in ops ==> Find(Apply(m, ops), k) == Some(x)
    ensures Delete(k) in ops ==> Find(Apply(m, ops), k) == None
    ensures (forall op | op in ops :: op.key != k) ==> Find(Apply(m, ops), k) == Find(m, k)
  {
    if ops != [] {
      var init, last := ops[..|ops| - 1], ops[|ops| - 1];
      InitLast(ops);
      assert last in ops;
      ApplyDistinct(m, init, k);
      ApplyLast(m, ops, k);
      if last.key == k {
        forall op | op in init ensures op.key != k { LessIrreflexive(k); }
      }
    }
  }

  /** Applying the difference of two tries to any contents whatever is a three-way merge:
      keys on which the tries differ take the right trie's value or absence, all others stay
      as they are. */
  lemma {:induction false} ApplyDiffMerges(l: Option<Node>, r: Option<Node>, m: Contents, k: Key)
    requires WellFormedTrie(l) && WellFormedTrie(r)
    ensures Find(Apply(m, DiffOps(l, r, [])), k) ==
            if Lookup(l, k) != Lookup(r, k) then Lookup(r, k) else Find(m, k)
  {
    var ops := DiffOps(l, r, []);
    DiffIsDifference(l, r, []);
    ApplyDistinct(m, ops, k);
    if Lookup(l, k) != Lookup(r, k) {
      if Lookup(r, k).Some? {
        var op := Put(k, Lookup(r, k).value);
        assert op in ops;
      } else {
        var op := Delete(k);
        assert op in ops;
      }
    }
  }

  /** So the difference turns the left trie's contents into the right trie's. */
  lemma {:induction false} ApplyDiffReaches(l: Option<Node>, r: Option<Node>, m: Contents)
    requires WellFormedTrie(l) && WellFormedTrie(r)
    requires forall k: Key :: Find(m, k) == Lookup(l, k)
    ensures forall k: Key :: Find(Apply(m, DiffOps(l, r, [])), k) == Lookup(r, k)
  {
    forall k: Key ensures Find(Apply(m, DiffOps(l, r, [])), k) == Lookup(r, k) {
      ApplyDiffMerges(l, r, m, k);
    }
  }
}
