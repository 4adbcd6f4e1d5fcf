/** The batched cursor of the Go bindings (`ffi/iterator.go`) over the Rust iterator handle
    (`ffi/src/iterator.rs`).

    A fetch returns memory that Rust owns: one pair, or a batch of pairs. The cursor lends it
    out and must free it, once, and not while somebody may still be reading it. Any call into
    Rust may fail.
 */
module Cursor {
  import opened Sequences
  import opened Nibbles
  import opened Trie
  import opened KeyRange
  import H = Handles
  import R = Registry

  datatype Pair = Pair(key: Key, value: Value)

  /** A pair in memory of allocation `alloc`. */
  datatype Owned = Owned(pair: Pair, alloc: nat)

  /** The current key and value: copies, or slices of an allocation. */
  datatype Shown = Shown(pair: Pair, borrowed: Option<nat>)

  /** `rest` is what the Rust iterator has left, `allocs` counts allocations and `freed` lists
      those given to a freeing call. */
  datatype Cursor = Cursor(rest: seq<Pair>, batchSize: int, loaded: seq<Owned>, current: Option<Owned>,
                           shown: Option<Shown>, resource: Option<nat>, dropped: bool, err: bool,
                           allocs: nat, freed: seq<nat>)

  function NewCursor(all: seq<Pair>): Cursor {
    Cursor(all, 0, [], None, None, None, false, false, 0, [])
  }

  /** How an advancing call may go wrong: freeing the old allocation fails, or fetching does,
      in which case the Rust iterator may have used up some pairs. */
  datatype Fault = NoFault | FreeFails | FetchFails(lost: nat)

  datatype Call = SetBatchSize(n: int) | Next(fault: Fault) | NextBorrowed(fault: Fault) | Drop

  /** `freeCurrentAllocation`. */
  function FreeCurrent(c: Cursor): Cursor {
    if c.resource.None? then c else c.(freed := c.freed + [c.resource.value], resource := None)
  }

  function OwnAll(pairs: seq<Pair>, alloc: nat): (r: seq<Owned>)
    ensures |r| == |pairs| && forall i | 0 <= i < |r| :: r[i] == Owned(pairs[i], alloc)
  {
    if pairs == [] then [] else [Owned(pairs[0], alloc)] + OwnAll(pairs[1..], alloc)
  }

  function BatchLength(c: Cursor): nat {
    if c.batchSize <= 0 then 0 else if c.batchSize < |c.rest| then c.batchSize else |c.rest|
  }

  /** The part of `nextInternal` that calls into Rust. */
  function Fetch(c: Cursor): Cursor {
    var f := FreeCurrent(c);
    if c.batchSize <= 1 then
      if c.rest == [] then f.(current := None)
      else f.(current := Some(Owned(c.rest[0], c.allocs)), resource := Some(c.allocs), allocs := c.allocs + 1,
              rest := c.rest[1..])
    else
      var n := BatchLength(c);
      var pairs := OwnAll(c.rest[..n], c.allocs);
      f.(current := if n > 0 then Some(pairs[0]) else None, loaded := if n > 0 then pairs[1..] else c.loaded,
         resource := Some(c.allocs), allocs := c.allocs + 1, rest := c.rest[n..])
  }

  /** `nextInternal` when nothing goes wrong. */
  function Advance(c: Cursor): Cursor {
    if c.loaded != [] then c.(current := Some(c.loaded[0]), loaded := c.loaded[1..]) else Fetch(c)
  }

  /** The fault takes effect: there is a fetch to make and, for a failing free, something to
      free. */
  predicate GoesWrong(c: Cursor, fault: Fault) {
    c.loaded == [] && (fault.FetchFails? || (fault.FreeFails? && c.resource.Some?))
  }

  function Lose(rest: seq<Pair>, lost: nat): seq<Pair> {
    if lost < |rest| then rest[lost..] else []
  }

  /** `nextInternal` when it does: the old allocation is given up all the same, and the current
      pair stays as it was. */
  function Break(c: Cursor, fault: Fault): Cursor {
    FreeCurrent(c).(rest := if fault.FetchFails? then Lose(c.rest, fault.lost) else c.rest)
  }

  function Step(c: Cursor, borrow: bool, fault: Fault): Cursor {
    if c.dropped then c.(err := true)
    else if GoesWrong(c, fault) then Break(c, fault).(err := true)
    else
      var a := Advance(c).(err := false);
      if a.current.None? then a
      else a.(shown := Some(Shown(a.current.value.pair, if borrow then Some(a.current.value.alloc) else None)))
  }

  function Do(c: Cursor, call: Call): Cursor {
    match call
    case SetBatchSize(n) => c.(batchSize := n)
    case Next(fault) => Step(c, false, fault)
    case NextBorrowed(fault) => Step(c, true, fault)
    case Drop => FreeCurrent(c).(dropped := true)
  }

  /** What `Key` and `Value` show. */
  function Visible(c: Cursor): Option<Shown> {
    if c.current.None? || c.err then None else c.shown
  }

  /** What a call hands out: an advancing call that returns true shows a pair. */
  function Yields(c: Cursor, call: Call): Option<Pair> {
    if !call.Next? && !call.NextBorrowed? then None
    else
      var n := Do(c, call);
      if n.current.Some? && !n.err then Some(n.current.value.pair) else None
  }

  function After(c: Cursor, calls: seq<Call>): Cursor
    decreases |calls|
  {
    if calls == [] then c else After(Do(c, calls[0]), calls[1..])
  }

  function Outputs(c: Cursor, calls: seq<Call>): seq<Option<Pair>>
    decreases |calls|
  {
    if calls == [] then [] else [Yields(c, calls[0])] + Outputs(Do(c, calls[0]), calls[1..])
  }

  // ---- Memory ----

  /** Every allocation is freed once or is the current one. */
  ghost predicate Balanced(freed: seq<nat>, allocs: nat, resource: Option<nat>) {
    && Distinct(freed)
    && (forall a | a in freed :: a < allocs && resource != Some(a))
    && (resource.Some? ==> resource.value < allocs)
    && (forall a: nat | a < allocs :: a in freed || resource == Some(a))
  }

  /** What can still be shown lives in the current allocation. */
  ghost predicate Backed(c: Cursor) {
    && (c.current.Some? && !c.dropped && !c.err ==> c.resource == Some(c.current.value.alloc))
    && (forall o | o in c.loaded && !c.dropped :: c.resource == Some(o.alloc))
    && (c.dropped ==> c.resource.None?)
    && (Visible(c).Some? ==> Visible(c).value.pair == c.current.value.pair &&
                             (Visible(c).value.borrowed.Some? ==> Visible(c).value.borrowed == Some(c.current.value.alloc)))
    && (c.current.Some? ==> c.shown.Some?)
  }

  ghost predicate CursorInv(c: Cursor) {
    Balanced(c.freed, c.allocs, c.resource) && Backed(c)
  }

  lemma FreeBalances(freed: seq<nat>, allocs: nat, a: nat)
    requires Balanced(freed, allocs, Some(a))
    ensures Balanced(freed + [a], allocs, None)
  {
    assert forall i | 0 <= i < |freed| :: freed[i] in freed;
  }

  lemma AllocBalances(freed: seq<nat>, allocs: nat)
    requires Balanced(freed, allocs, None)
    ensures Balanced(freed, allocs + 1, Some(allocs))
  {
  }

  lemma FetchKeeps(c: Cursor)
    requires CursorInv(c) && c.loaded == [] && !c.dropped
    ensures var f := Fetch(c); Balanced(f.freed, f.allocs, f.resource)
  {
    if c.resource.Some? { FreeBalances(c.freed, c.allocs, c.resource.value); }
    AllocBalances(FreeCurrent(c).freed, c.allocs);
  }

  lemma AdvanceKeeps(c: Cursor)
    requires CursorInv(c) && !c.dropped
    ensures var a := Advance(c);
            && Balanced(a.freed, a.allocs, a.resource) && !a.dropped
            && (a.current.Some? ==> a.resource == Some(a.current.value.alloc))
            && (forall o | o in a.loaded :: a.resource == Some(o.alloc))
  {
    if c.loaded == [] { FetchKeeps(c); }
  }

  lemma BreakKeeps(c: Cursor, fault: Fault)
    requires CursorInv(c) && !c.dropped && GoesWrong(c, fault)
    ensures CursorInv(Break(c, fault).(err := true))
  {
    if c.resource.Some? { FreeBalances(c.freed, c.allocs, c.resource.value); }
  }

  lemma StepKeeps(c: Cursor, borrow: bool, fault: Fault)
    requires CursorInv(c)
    ensures CursorInv(Step(c, borrow, fault))
  {
    if !c.dropped {
      if GoesWrong(c, fault) { BreakKeeps(c, fault); } else { AdvanceKeeps(c); }
    }
  }

  lemma DoKeeps(c: Cursor, call: Call)
    requires CursorInv(c)
    ensures CursorInv(Do(c, call))
  {
    match call {
      case SetBatchSize(_) =>
      case Drop => if c.resource.Some? { FreeBalances(c.freed, c.allocs, c.resource.value); }
      case Next(fault) => StepKeeps(c, false, fault);
      case NextBorrowed(fault) => StepKeeps(c, true, fault);
    }
  }

  lemma {:induction false} RunKeeps(c: Cursor, calls: seq<Call>)
    requires CursorInv(c)
    ensures CursorInv(After(c, calls))
    decreases |calls|
  {
    if calls != [] {
      DoKeeps(c, calls[0]);
      RunKeeps(Do(c, calls[0]), calls[1..]);
    }
  }

  /** Whatever is called in whatever order and whatever fails: no allocation is freed twice,
      the one that borrowed slices point into is not freed until the next advancing call or
      `Drop`, and once the cursor is dropped every allocation has been freed. */
  lemma {:induction false} MemoryIsSafe(all: seq<Pair>, calls: seq<Call>)
    ensures var c := After(NewCursor(all), calls);
            && Distinct(c.freed)
            && (!c.dropped && Visible(c).Some? && Visible(c).value.borrowed.Some? ==>
                  Visible(c).value.borrowed.value !in c.freed)
            && (c.dropped ==> forall a: nat :: a in c.freed <==> a < c.allocs)
  {
    RunKeeps(NewCursor(all), calls);
  }

  /** What was shown can still be read: it is a copy, or its memory is still there. */
  predicate Readable(shown: Shown, freed: seq<nat>) {
    shown.borrowed.None? || shown.borrowed.value !in freed
  }

  lemma {:induction false} AllocsGrow(c: Cursor, calls: seq<Call>)
    ensures c.allocs <= After(c, calls).allocs
    decreases |calls|
  {
    if calls != [] {
      AllocGrows(c, calls[0]);
      AllocsGrow(Do(c, calls[0]), calls[1..]);
    }
  }

  lemma AllocGrows(c: Cursor, call: Call)
    ensures c.allocs <= Do(c, call).allocs
  {
  }

  lemma StepShows(c: Cursor, call: Call)
    requires CursorInv(c) && Yields(c, call).Some?
    ensures var n := Do(c, call);
            && n.resource.Some? && call.Next? != call.NextBorrowed?
            && Visible(n) == Some(Shown(Yields(c, call).value, if call.Next? then None else n.resource))
  {
    if !c.dropped && !GoesWrong(c, call.fault) { AdvanceKeeps(c); }
  }

  /** What `Next` shows is a copy and can be read for ever, whatever is called later. What
      `NextBorrowed` shows lives in the current allocation, and can be read for exactly as long
      as that stays the current one. */
  lemma {:induction false} ShownIsReadable(all: seq<Pair>, calls: seq<Call>, call: Call, more: seq<Call>)
    requires Yields(After(NewCursor(all), calls), call).Some?
    ensures var c := After(NewCursor(all), calls);
            var n := Do(c, call);
            var later := After(n, more);
            && Visible(n).Some? && Visible(n).value.pair == Yields(c, call).value
            && (call.Next? ==> Visible(n).value.borrowed.None? && Readable(Visible(n).value, later.freed))
            && (!call.Next? ==>
                  && n.resource.Some? && Visible(n).value.borrowed == n.resource
                  && (Readable(Visible(n).value, later.freed) <==> later.resource == n.resource))
  {
    var c := After(NewCursor(all), calls);
    RunKeeps(NewCursor(all), calls);
    StepShows(c, call);
    DoKeeps(c, call);
    RunKeeps(Do(c, call), more);
    AllocsGrow(Do(c, call), more);
  }

  // ---- Order ----

  function Pairs(os: seq<Owned>): (r: seq<Pair>)
    ensures |r| == |os| && forall i | 0 <= i < |r| :: r[i] == os[i].pair
  {
    if os == [] then [] else [os[0].pair] + Pairs(os[1..])
  }

  /** What the cursor has not handed out yet. */
  function Remaining(c: Cursor): seq<Pair> {
    Pairs(c.loaded) + c.rest
  }

  /** A cursor without batches, without memory to mind. */
  datatype Plain = Plain(rest: seq<Pair>, dropped: bool)

  function PlainDo(p: Plain, call: Call): Plain {
    match call
    case SetBatchSize(_) => p
    case Drop => p.(dropped := true)
    case _ => if p.dropped || p.rest == [] then p else p.(rest := p.rest[1..])
  }

  function PlainYields(p: Plain, call: Call): Option<Pair> {
    if (call.Next? || call.NextBorrowed?) && !p.dropped && p.rest != [] then Some(p.rest[0]) else None
  }

  function PlainOutputs(p: Plain, calls: seq<Call>): seq<Option<Pair>>
    decreases |calls|
  {
    if calls == [] then [] else [PlainYields(p, calls[0])] + PlainOutputs(PlainDo(p, calls[0]), calls[1..])
  }

  function Abstract(c: Cursor): Plain {
    Plain(Remaining(c), c.dropped)
  }

  lemma FetchIsNext(c: Cursor)
    requires c.loaded == []
    ensures var f := Fetch(c);
            if c.rest == [] then f.current.None? && f.loaded == [] && f.rest == []
            else f.current.Some? && [f.current.value.pair] + Remaining(f) == c.rest
  {
    if c.batchSize > 1 && c.rest != [] {
      var f, n := Fetch(c), BatchLength(c);
      assert c.rest == c.rest[..n] + c.rest[n..];
      assert [f.current.value.pair] + Pairs(f.loaded) == c.rest[..n];
      assert [f.current.value.pair] + Remaining(f) == ([f.current.value.pair] + Pairs(f.loaded)) + f.rest;
    }
  }

  /** One fetch is one call into Rust: it takes as many pairs as the batch size asks for, one
      without batching, or all that are left, and leaves them in one new allocation. */
  lemma FetchTakesBatch(c: Cursor)
    requires c.loaded == []
    ensures var f, n := Fetch(c), if c.batchSize <= 1 then 1 else c.batchSize;
            && f.rest == c.rest[if n < |c.rest| then n else |c.rest|..]
            && f.allocs == c.allocs + (if c.batchSize <= 1 && c.rest == [] then 0 else 1)
            && (f.allocs > c.allocs ==> f.resource == Some(c.allocs))
            && |f.loaded| + (if f.current.Some? then 1 else 0) == |c.rest| - |f.rest|
  {
    if c.batchSize > 1 {
      assert |OwnAll(c.rest[..BatchLength(c)], c.allocs)| == BatchLength(c);
    } else if c.rest == [] {
      assert c.rest[0..] == c.rest;
    }
  }

  lemma LoadedIsNext(c: Cursor)
    requires c.loaded != []
    ensures Remaining(c) == [c.loaded[0].pair] + Remaining(c.(loaded := c.loaded[1..]))
  {
  }

  lemma AdvanceIsNext(c: Cursor)
    ensures var a, r := Advance(c), Remaining(c);
            if r == [] then a.current.None? && Remaining(a) == []
            else a.current.Some? && a.current.value.pair == r[0] && Remaining(a) == r[1..]
    ensures Advance(c).dropped == c.dropped
  {
    if c.loaded == [] {
      FetchIsNext(c);
      assert Remaining(c) == c.rest;
    } else {
      LoadedIsNext(c);
      assert Remaining(Advance(c)) == Remaining(c.(loaded := c.loaded[1..]));
    }
  }

  predicate Faultless(call: Call) {
    call.Next? || call.NextBorrowed? ==> call.fault.NoFault?
  }

  lemma StepIsNext(c: Cursor, call: Call)
    requires Faultless(call)
    ensures Abstract(Do(c, call)) == PlainDo(Abstract(c), call)
    ensures Yields(c, call) == PlainYields(Abstract(c), call)
  {
    AdvanceIsNext(c);
  }

  /** As long as no call fails, any sequence of calls on the batched cursor hands out what the
      plain one does, whatever the batch sizes and however they change. */
  lemma {:induction false} BatchingIsInvisible(c: Cursor, calls: seq<Call>)
    requires forall call | call in calls :: Faultless(call)
    ensures Outputs(c, calls) == PlainOutputs(Abstract(c), calls)
    decreases |calls|
  {
    if calls != [] {
      StepIsNext(c, calls[0]);
      BatchingIsInvisible(Do(c, calls[0]), calls[1..]);
    }
  }

  function Handed(outs: seq<Option<Pair>>): seq<Pair> {
    if outs == [] then [] else (if outs[0].Some? then [outs[0].value] else []) + Handed(outs[1..])
  }

  /** The advancing calls before the cursor is dropped. */
  function Advances(calls: seq<Call>): nat {
    if calls == [] || calls[0].Drop? then 0
    else (if calls[0].SetBatchSize? then 0 else 1) + Advances(calls[1..])
  }

  lemma {:induction false} PlainHandsOut(p: Plain, calls: seq<Call>)
    ensures Handed(PlainOutputs(p, calls)) ==
            if p.dropped then [] else if Advances(calls) < |p.rest| then p.rest[..Advances(calls)] else p.rest
    decreases |calls|
  {
    if calls != [] {
      PlainHandsOut(PlainDo(p, calls[0]), calls[1..]);
      var outs := PlainOutputs(p, calls);
      assert outs[1..] == PlainOutputs(PlainDo(p, calls[0]), calls[1..]);
    }
  }

  /** As long as no call fails, the cursor hands out the pairs of the Rust iterator in order,
      each once, one per advancing call until they run out or the cursor is dropped. */
  lemma {:induction false} CursorHandsOut(all: seq<Pair>, calls: seq<Call>)
    requires forall call | call in calls :: Faultless(call)
    ensures Handed(Outputs(NewCursor(all), calls)) == if Advances(calls) < |all| then all[..Advances(calls)] else all
  {
    BatchingIsInvisible(NewCursor(all), calls);
    assert Remaining(NewCursor(all)) == all;
    PlainHandsOut(Plain(all, false), calls);
  }

  // ---- Order when calls fail ----

  /** `part` is `whole` with some elements left out. */
  predicate Subsequence(part: seq<Pair>, whole: seq<Pair>) {
    if part == [] then true
    else if whole == [] then false
    else (part[0] == whole[0] && Subsequence(part[1..], whole[1..])) || Subsequence(part, whole[1..])
  }

  lemma {:induction false} SubsequenceOfTail(part: seq<Pair>, whole: seq<Pair>, k: nat)
    requires k <= |whole| && Subsequence(part, whole[k..])
    ensures Subsequence(part, whole)
    decreases k
  {
    if k == 0 {
      assert whole[0..] == whole;
    } else {
      assert whole[1..][k - 1..] == whole[k..];
      SubsequenceOfTail(part, whole[1..], k - 1);
    }
  }

  lemma {:induction false} SubsequenceMembers(part: seq<Pair>, whole: seq<Pair>, p: Pair)
    requires Subsequence(part, whole) && p in part
    ensures p in whole
    decreases |whole|
  {
    if part[0] == whole[0] && Subsequence(part[1..], whole[1..]) {
      if p != part[0] { SubsequenceMembers(part[1..], whole[1..], p); }
    } else {
      SubsequenceMembers(part, whole[1..], p);
    }
  }

  ghost predicate KeysIncrease(ps: seq<Pair>) {
    forall i, j | 0 <= i < j < |ps| :: Less(ps[i].key, ps[j].key)
  }

  lemma {:induction false} SubsequenceIncreases(part: seq<Pair>, whole: seq<Pair>)
    requires Subsequence(part, whole) && KeysIncrease(whole)
    ensures KeysIncrease(part)
    decreases |whole|
  {
    if part != [] {
      assert forall i | 0 <= i < |whole| - 1 :: whole[1..][i] == whole[i + 1];
      if part[0] == whole[0] && Subsequence(part[1..], whole[1..]) {
        SubsequenceIncreases(part[1..], whole[1..]);
        forall j | 0 < j < |part| ensures Less(part[0].key, part[j].key) {
          assert part[j] == part[1..][j - 1];
          SubsequenceMembers(part[1..], whole[1..], part[j]);
        }
        assert forall i | 0 < i < |part| :: part[i] == part[1..][i - 1];
      } else {
        SubsequenceIncreases(part, whole[1..]);
      }
    }
  }

  /** A call hands out the next pair, or nothing, and then some pairs may be lost. */
  lemma StepInOrder(c: Cursor, call: Call)
    ensures var y, r, n := Yields(c, call), Remaining(c), Remaining(Do(c, call));
            if y.Some? then r != [] && y.value == r[0] && n == r[1..]
            else exists k | 0 <= k <= |r| :: n == r[k..]
  {
    var r := Remaining(c);
    assert r == r[0..];
    if (call.Next? || call.NextBorrowed?) && !c.dropped {
      if GoesWrong(c, call.fault) {
        LostTail(c, call.fault);
      } else {
        AdvanceIsNext(c);
        assert Remaining(Do(c, call)) == Remaining(Advance(c));
      }
    }
  }

  lemma LostTail(c: Cursor, fault: Fault)
    requires GoesWrong(c, fault)
    ensures exists k | 0 <= k <= |Remaining(c)| :: Remaining(Break(c, fault)) == Remaining(c)[k..]
  {
    var k := if fault.FreeFails? then 0 else if fault.lost < |c.rest| then fault.lost else |c.rest|;
    assert Remaining(c) == c.rest;
    assert Remaining(Break(c, fault)) == c.rest[k..];
  }

  /** Whatever fails: what is handed out is part of what the Rust iterator has, in order and
      nothing twice. */
  lemma {:induction false} FaultsKeepOrder(c: Cursor, calls: seq<Call>)
    ensures Subsequence(Handed(Outputs(c, calls)), Remaining(c))
    decreases |calls|
  {
    if calls != [] {
      var n, r := Do(c, calls[0]), Remaining(c);
      FaultsKeepOrder(n, calls[1..]);
      StepInOrder(c, calls[0]);
      HandedNext(c, calls);
      if Yields(c, calls[0]).None? {
        var k :| 0 <= k <= |r| && Remaining(n) == r[k..];
        SubsequenceOfTail(Handed(Outputs(c, calls)), r, k);
      } else {
        ConsTail(r[0], Handed(Outputs(n, calls[1..])));
      }
    }
  }

  lemma {:induction false} HandedNext(c: Cursor, calls: seq<Call>)
    requires calls != []
    ensures var y, rest := Yields(c, calls[0]), Handed(Outputs(Do(c, calls[0]), calls[1..]));
            Handed(Outputs(c, calls)) == if y.Some? then [y.value] + rest else rest
  {
    var y, rest := Yields(c, calls[0]), Outputs(Do(c, calls[0]), calls[1..]);
    ConsTail(y, rest);
  }

  // ---- From end to end ----

  function AsPairs(ps: seq<(Key, Value)>): (r: seq<Pair>)
    ensures |r| == |ps| && forall i | 0 <= i < |r| :: r[i] == Pair(ps[i].0, ps[i].1)
  {
    if ps == [] then [] else [Pair(ps[0].0, ps[0].1)] + AsPairs(ps[1..])
  }

  lemma {:induction false} AsPairsMembers(ps: seq<(Key, Value)>, p: Pair)
    ensures p in AsPairs(ps) <==> (p.key, p.value) in ps
  {
    if p in AsPairs(ps) {
      var i :| 0 <= i < |ps| && AsPairs(ps)[i] == p;
      assert ps[i] == (p.key, p.value);
    }
    if (p.key, p.value) in ps {
      var i :| 0 <= i < |ps| && ps[i] == (p.key, p.value);
      assert AsPairs(ps)[i] == p;
    }
  }

  /** What a cursor on a trie starts with: the map from the start key on, in key order. */
  lemma TriePairs(root: Option<Node>, start: Key, p: Pair)
    requires WellFormedTrie(root)
    ensures KeysIncrease(AsPairs(Range(root, start, None)))
    ensures p in AsPairs(Range(root, start, None)) <==> Leq(start, p.key) && Lookup(root, p.key) == Some(p.value)
  {
    RangeIsSortedMap(root, start, None);
    AsPairsMembers(Range(root, start, None), p);
  }

  /** A cursor on a trie hands out pairs of its map from the start key on, in strictly
      increasing key order, whatever fails. */
  lemma {:induction false} CursorStaysOnMap(root: Option<Node>, start: Key, calls: seq<Call>, p: Pair)
    requires WellFormedTrie(root)
    ensures var out := Handed(Outputs(NewCursor(AsPairs(Range(root, start, None))), calls));
            && KeysIncrease(out)
            && (p in out ==> Leq(start, p.key) && Lookup(root, p.key) == Some(p.value))
  {
    var all := AsPairs(Range(root, start, None));
    var out := Handed(Outputs(NewCursor(all), calls));
    TriePairs(root, start, p);
    HandedInOrder(all, calls);
    SubsequenceIncreases(out, all);
    if p in out { SubsequenceMembers(out, all, p); }
  }

  lemma {:induction false} HandedInOrder(all: seq<Pair>, calls: seq<Call>)
    ensures Subsequence(Handed(Outputs(NewCursor(all), calls)), all)
  {
    FaultsKeepOrder(NewCursor(all), calls);
    assert Remaining(NewCursor(all)) == all;
  }

  /** If nothing fails and there are enough calls, it hands out all of them. */
  lemma {:induction false} CursorWalksMap(root: Option<Node>, start: Key, calls: seq<Call>, p: Pair)
    requires WellFormedTrie(root) && (forall call | call in calls :: Faultless(call))
    requires Advances(calls) >= |Range(root, start, None)|
    ensures p in Handed(Outputs(NewCursor(AsPairs(Range(root, start, None))), calls)) <==>
            Leq(start, p.key) && Lookup(root, p.key) == Some(p.value)
  {
    CursorHandsOut(AsPairs(Range(root, start, None)), calls);
    TriePairs(root, start, p);
  }

  // ---- The objects ----

  /** `IteratorHandle`: the Rust iterator, let go of when it is exhausted. */
  class IteratorHandle {
    var iter: Option<seq<Pair>>

    constructor (all: seq<Pair>)
      ensures Rest() == all
    {
      iter := Some(all);
    }

    ghost function Rest(): seq<Pair>
      reads this
    {
      if iter.Some? then iter.value else []
    }

    /** `next`. */
    method Next() returns (r: Option<Pair>)
      modifies this
      ensures r == if old(Rest()) == [] then None else Some(old(Rest())[0])
      ensures Rest() == if old(Rest()) == [] then [] else old(Rest())[1..]
      ensures r.None? ==> iter.None?
    {
      if iter.None? {
        return None;
      }
      if iter.value == [] {
        iter := None;
        return None;
      }
      r := Some(iter.value[0]);
      iter := Some(iter.value[1..]);
    }

    /** A call that fails may have used up pairs: `iter_next_n` gives up those it has taken when
        a later one fails. */
    method Fail(lost: nat)
      modifies this
      ensures Rest() == Lose(old(Rest()), lost)
    {
      if iter.Some? { iter := Some(if lost < |iter.value| then iter.value[lost..] else []); }
    }

    /** `iter_next_n`. */
    method NextN(n: nat) returns (r: seq<Pair>)
      modifies this
      ensures var k := if n < |old(Rest())| then n else |old(Rest())|;
              r == old(Rest())[..k] && Rest() == old(Rest())[k..]
    {
      r := [];
      while |r| < n
        invariant |r| <= n && |r| <= |old(Rest())|
        invariant r == old(Rest())[..|r|] && Rest() == old(Rest())[|r|..]
        decreases n - |r|
      {
        var p := Next();
        if p.None? {
          return;
        }
        r := r + [p.value];
      }
    }
  }

  /** `Iterator` with its `iteratorHandle`: `handle` has the pointer and the lease, `rust` is
      what the pointer points to. */
  class Iterator {
    const handle: H.Handle
    const rust: IteratorHandle
    var batchSize: int
    var loaded: seq<Owned>
    var current: Option<Owned>
    var shown: Option<Shown>
    var resource: Option<nat>
    var err: bool
    var allocs: nat
    var freed: seq<nat>

    ghost function State(): Cursor
      reads this, rust, handle
    {
      Cursor(rust.Rest(), batchSize, loaded, current, shown, resource, handle.dropped, err, allocs, freed)
    }

    constructor (handle: H.Handle, all: seq<Pair>)
      requires !handle.dropped
      ensures this.handle == handle && fresh(rust) && State() == NewCursor(all)
    {
      this.handle := handle;
      rust := new IteratorHandle(all);
      batchSize, loaded, current, shown, resource := 0, [], None, None, None;
      err, allocs, freed := false, 0, [];
    }

    method FreeCurrentAllocation()
      modifies this`resource, this`freed
      ensures State() == FreeCurrent(old(State()))
    {
      if resource.Some? {
        freed := freed + [resource.value];
        resource := None;
      }
    }

    /** The Rust side allocates what it returns. */
    method Allocate() returns (a: nat)
      modifies this`allocs
      ensures a == old(allocs) && allocs == a + 1
    {
      a := allocs;
      allocs := allocs + 1;
    }

    /** `fwd_iter_next` and what is done with its answer. */
    method FetchOne()
      requires resource.None? && batchSize <= 1 && loaded == []
      modifies this, rust
      ensures State() == Fetch(old(State()))
    {
      var kv := rust.Next();
      if kv.None? {
        current := None;
        return;
      }
      var a := Allocate();
      current, resource := Some(Owned(kv.value, a)), Some(a);
    }

    /** `fwd_iter_next_n` and what is done with its answer. */
    method FetchBatch()
      requires resource.None? && batchSize > 1 && loaded == []
      modifies this, rust
      ensures State() == Fetch(old(State()))
    {
      var batch := rust.NextN(batchSize);
      var a := Allocate();
      var pairs := OwnAll(batch, a);
      if pairs != [] {
        current, loaded := Some(pairs[0]), pairs[1..];
      } else {
        current := None;
      }
      resource := Some(a);
    }

    method NextInternal(fault: Fault) returns (ok: bool)
      modifies this, rust
      ensures ok == !GoesWrong(old(State()), fault)
      ensures State() == if ok then Advance(old(State())) else Break(old(State()), fault)
    {
      if loaded != [] {
        current, loaded := Some(loaded[0]), loaded[1..];
        return true;
      }
      var held := resource.Some?;
      FreeCurrentAllocation();
      if held && fault.FreeFails? {
        return false;
      }
      if fault.FetchFails? {
        rust.Fail(fault.lost);
        return false;
      }
      if batchSize <= 1 {
        FetchOne();
      } else {
        FetchBatch();
      }
      return true;
    }

    method SetBatchSize(n: int)
      modifies this`batchSize
      ensures State() == Do(old(State()), Call.SetBatchSize(n)) && batchSize == n
    {
      batchSize := n;
    }

    /** `Next` and `NextBorrowed`. */
    method Move(borrow: bool, fault: Fault) returns (ok: bool)
      modifies this, rust
      ensures State() == Step(old(State()), borrow, fault)
      ensures ok <==> Yields(old(State()), if borrow then NextBorrowed(fault) else Next(fault)).Some?
      ensures ok ==>
                && current.Some? && shown.Some? && shown.value.pair == current.value.pair
                && shown.value.borrowed == if borrow then Some(current.value.alloc) else None
      ensures err <==> handle.dropped || GoesWrong(old(State()), fault)
    {
      if handle.dropped {
        err := true;
        return false;
      }
      var fine := NextInternal(fault);
      err := !fine;
      if current.None? || err {
        return false;
      }
      shown := Some(Shown(current.value.pair, if borrow then Some(current.value.alloc) else None));
      return true;
    }

    /** `Drop`: frees the current allocation, then the iterator's own pointer unless that has
        happened, and releases the lease. */
    method Drop()
      requires handle.Valid()
      modifies this, handle, handle.registry
      ensures State() == Do(old(State()), Call.Drop)
      ensures handle.Valid() && handle.dropped && handle.registry == null
      ensures handle.spent ==
              if old(handle.dropped) then old(handle.spent) else old(handle.spent) + [old(handle.ptr).value]
      ensures old(handle.registry) != null ==>
                old(handle.registry).State() == R.RemoveAndDecr(old(handle.registry.State()), handle.id)
    {
      FreeCurrentAllocation();
      handle.Drop();
    }
  }
}
