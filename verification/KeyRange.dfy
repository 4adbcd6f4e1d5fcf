/** What a range iterator yields, in terms of the trie's map alone. */
module KeyRange {
  import opened Nibbles
  import opened Trie
  import opened NodeIter

  /** The pairs yielded from `start` and stopped after `last`. */
  ghost function Range(root: Option<Node>, start: Key, last: Option<Key>): seq<(Key, Value)> {
    UpTo(Pairs(From(AllNodes(root), ToNibbles(start))), last)
  }

  ghost predicate SortedPairs(ps: seq<(Key, Value)>) {
    forall i, j | 0 <= i < j < |ps| :: Less(ps[i].0, ps[j].0)
  }

  /** Every valued node of the list sits at an even depth. */
  ghost predicate EvenValues(vs: seq<Visit>) {
    forall v | v in vs :: v.node.Value().Some? ==> |v.key| % 2 == 0
  }

  lemma {:induction false} FromMembers(vs: seq<Visit>, start: Path, v: Visit)
    ensures v in From(vs, start) <==> v in vs && Leq(start, v.key)
  {
    if vs != [] { FromMembers(vs[1..], start, v); }
  }

  lemma {:induction false} FromSorted(vs: seq<Visit>, start: Path)
    requires Sorted(vs)
    ensures Sorted(From(vs, start))
  {
    if vs != [] {
      FromSorted(vs[1..], start);
      var tail := From(vs[1..], start);
      forall i | 0 <= i < |tail| ensures Less(vs[0].key, tail[i].key) {
        FromMembers(vs[1..], start, tail[i]);
      }
    }
  }

  lemma {:induction false} PairsMembers(vs: seq<Visit>, k: Key, x: Value)
    requires EvenValues(vs)
    ensures (k, x) in Pairs(vs) <==>
            exists v :: v in vs && v.key == ToNibbles(k) && v.node.Value() == Some(x)
  {
    if vs != [] {
      PairsMembers(vs[1..], k, x);
      var v := vs[0];
      if v.node.Value().Some? {
        ToNibblesPack(v.key);
        PackToNibbles(k);
      }
      assert forall w | w in vs :: w == v || w in vs[1..];
    }
  }

  lemma {:induction false} PairsSorted(vs: seq<Visit>)
    requires Sorted(vs) && EvenValues(vs)
    ensures SortedPairs(Pairs(vs))
  {
    if vs != [] {
      PairsSorted(vs[1..]);
      var tail := Pairs(vs[1..]);
      if vs[0].node.Value().Some? {
        forall i | 0 <= i < |tail| ensures Less(Pack(vs[0].key), tail[i].0) {
          assert tail[i] in tail;
          PairsMembers(vs[1..], tail[i].0, tail[i].1);
          ToNibblesPack(vs[0].key);
          NibbleOrder(Pack(vs[0].key), tail[i].0);
        }
      }
    }
  }

  lemma {:induction false} UpToMembers(ps: seq<(Key, Value)>, last: Option<Key>, p: (Key, Value))
    requires SortedPairs(ps)
    ensures SortedPairs(UpTo(ps, last))
    ensures p in UpTo(ps, last) <==> p in ps && (last.Some? ==> Leq(p.0, last.value))
  {
    if last.Some? && ps != [] {
      if Leq(ps[0].0, last.value) {
        UpToMembers(ps[1..], last, p);
        var tail := UpTo(ps[1..], last);
        forall i | 0 <= i < |tail| ensures Less(ps[0].0, tail[i].0) {
          UpToMembers(ps[1..], last, tail[i]);
        }
      } else if p in ps {
        LessTotal(ps[0].0, last.value);
        BeyondLast(ps[0].0, p.0, last.value);
      }
    }
  }

  lemma {:induction false} BeyondLast(first: Key, k: Key, last: Key)
    requires Less(last, first) && Leq(first, k)
    ensures !Leq(k, last)
  {
    if k != first { LessTransitive(last, first, k); }
    LessAsymmetric(last, k);
  }

  /** The nodes of a well-formed trie, in order, with values only where bytes can end. */
  lemma TrieNodes(root: Option<Node>)
    requires WellFormedTrie(root)
    ensures Sorted(AllNodes(root)) && EvenValues(AllNodes(root))
    ensures forall v: Visit :: v in AllNodes(root) <==> root.Some? && NodeAt(root.value, v.key) == Some(v.node)
  {
    if root.Some? {
      var n := root.value;
      NodesSorted(n.path, n);
      forall v: Visit ensures v in AllNodes(root) <==> NodeAt(n, v.key) == Some(v.node) {
        assert [] + n.path == n.path && v.key[0..] == v.key;
        NodesAreLookups([], n, v);
      }
      forall v | v in AllNodes(root) && v.node.Value().Some? ensures |v.key| % 2 == 0 {
        ValuesAtEvenDepth(n, 0, v.key);
      }
    }
  }

  /** The seek and the stack walk, stopped after `last`, yield exactly the pairs of the map
      between `start` and `last`, in strictly increasing byte order, hence each once. */
  lemma RangeIsSortedMap(root: Option<Node>, start: Key, last: Option<Key>)
    requires WellFormedTrie(root)
    ensures SortedPairs(Range(root, start, last))
    ensures forall k: Key, x: Value :: (k, x) in Range(root, start, last) <==>
              Lookup(root, k) == Some(x) && Leq(start, k) && (last.Some? ==> Leq(k, last.value))
  {
    var all := AllNodes(root);
    var from := From(all, ToNibbles(start));
    TrieNodes(root);
    FromSorted(all, ToNibbles(start));
    forall v: Visit ensures v in from <==> v in all && Leq(ToNibbles(start), v.key) {
      FromMembers(all, ToNibbles(start), v);
    }
    PairsSorted(from);
    forall k: Key, x: Value
      ensures (k, x) in Range(root, start, last) <==>
              Lookup(root, k) == Some(x) && Leq(start, k) && (last.Some? ==> Leq(k, last.value))
    {
      PairOfRange(root, start, k, x);
      UpToMembers(Pairs(from), last, (k, x));
    }
    UpToMembers(Pairs(from), last, ([], []));
  }

  lemma {:induction false} PairOfRange(root: Option<Node>, start: Key, k: Key, x: Value)
    requires WellFormedTrie(root)
    ensures (k, x) in Pairs(From(AllNodes(root), ToNibbles(start))) <==> Lookup(root, k) == Some(x) && Leq(start, k)
  {
    var all := AllNodes(root);
    var from := From(all, ToNibbles(start));
    TrieNodes(root);
    forall v: Visit ensures v in from <==> v in all && Leq(ToNibbles(start), v.key) {
      FromMembers(all, ToNibbles(start), v);
    }
    PairsMembers(from, k, x);
    NibbleOrder(start, k);
    if Leq(ToNibbles(start), ToNibbles(k)) && !Leq(start, k) { ToNibblesInjective(start, k); }
    if Lookup(root, k) == Some(x) && Leq(start, k) {
      var v := Visit(ToNibbles(k), NodeAt(root.value, ToNibbles(k)).value);
      assert v in from;
    }
  }

  /** Started at a key, the iterator yields that key first exactly when the map holds it. */
  lemma FirstOfRange(root: Option<Node>, k: Key, x: Value)
    requires WellFormedTrie(root)
    ensures Lookup(root, k) == Some(x) <==> var r := Range(root, k, None); r != [] && r[0] == (k, x)
  {
    var r := Range(root, k, None);
    RangeIsSortedMap(root, k, None);
    LessIrreflexive(k);
    if r != [] {
      assert r[0] in r;
      assert Leq(k, r[0].0);
      if (k, x) in r && r[0] != (k, x) {
        var i :| 0 <= i < |r| && r[i] == (k, x);
        LessAsymmetric(r[0].0, k);
        assert false;
      }
    }
  }

  /** A list with these two properties is unique, so they are a full specification. */
  lemma {:induction false} RangeIsUnique(a: seq<(Key, Value)>, b: seq<(Key, Value)>)
    requires SortedPairs(a) && SortedPairs(b)
    requires forall p :: p in a <==> p in b
    ensures a == b
  {
    if a == [] {
      if b != [] { Inhabited(b); }
    } else {
      assert a[0] in b && b[0] in a;
      var i :| 0 <= i < |b| && b[i] == a[0];
      var j :| 0 <= j < |a| && a[j] == b[0];
      if i > 0 && j > 0 { LessAsymmetric(a[0].0, b[0].0); assert false; }
      forall p ensures p in a[1..] <==> p in b[1..] {
        if p in a[1..] { SameTail(a, b, p); }
        if p in b[1..] { SameTail(b, a, p); }
      }
      RangeIsUnique(a[1..], b[1..]);
    }
  }

  lemma Inhabited(a: seq<(Key, Value)>)
    requires a != []
    ensures exists p :: p in a
  {
    assert a[0] in a;
  }

  lemma SameTail(a: seq<(Key, Value)>, b: seq<(Key, Value)>, p: (Key, Value))
    requires SortedPairs(a) && a != [] && b != [] && a[0] == b[0]
    requires p in a[1..] && p in b
    ensures p in b[1..]
  {
    var i :| 0 <= i < |a[1..]| && a[1..][i] == p;
    LessAsymmetric(a[0].0, a[1 + i].0);
    assert p != a[0];
  }
}
