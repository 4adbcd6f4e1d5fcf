/** A queued revision that cannot be found by its hash: `commit_critical_section` takes the
    oldest revision's hash out of the index without looking which revision the entry names. */
module IndexGap {
  import opened Nibbles
  import opened Trie
  import opened Diff
  import opened DiffMap
  import opened Manager
  import opened HashIndex
  import opened Commits

  // ---- What a commit does to the index, exactly ----

  /** The reaping loop takes hash `h` out of the index. */
  predicate TakesOut(queue: seq<Revision>, maxRevisions: nat, referenced: set<Id>, mode: Mode, h: Hash)
    decreases |queue|
  {
    queue != [] && |queue| >= maxRevisions &&
    (IndexHash(mode, queue[0].contents) == Some(h) ||
     (queue[0].id !in referenced && TakesOut(queue[1..], maxRevisions, referenced, mode, h)))
  }

  /** How many revisions the loop tries to reap: those it reaps and one that is referenced. */
  function Tried(queue: seq<Revision>, maxRevisions: nat, referenced: set<Id>): (t: nat)
    ensures t <= |queue|
  {
    var k := Reapable(queue, maxRevisions, referenced);
    if k < |queue| && |queue| - k >= maxRevisions then k + 1 else k
  }

  lemma {:induction false} TakesOutTried(queue: seq<Revision>, maxRevisions: nat, referenced: set<Id>, mode: Mode,
                                         h: Hash)
    ensures TakesOut(queue, maxRevisions, referenced, mode, h) <==>
            exists i | 0 <= i < Tried(queue, maxRevisions, referenced) :: IndexHash(mode, queue[i].contents) == Some(h)
    decreases |queue|
  {
    if queue != [] && |queue| >= maxRevisions && queue[0].id !in referenced {
      var rest, t := queue[1..], Tried(queue, maxRevisions, referenced);
      TakesOutTried(rest, maxRevisions, referenced, mode, h);
      assert t == 1 + Tried(rest, maxRevisions, referenced);
      assert forall i | 0 < i < t :: queue[i] == rest[i - 1];
      assert forall i | 0 <= i < t - 1 :: rest[i] == queue[i + 1];
    }
  }

  /** The index after the loop, from the queue and the index alone. */
  function IndexAfter(queue: seq<Revision>, maxRevisions: nat, w: Answers, mode: Mode, byHash: map<Hash, Revision>)
    : map<Hash, Revision>
    decreases |queue|
  {
    if |queue| < maxRevisions || queue == [] then byHash
    else
      var left := Without(byHash, IndexHash(mode, queue[0].contents));
      if queue[0].id in w.referenced || w.reaps == 0 then left
      else IndexAfter(queue[1..], maxRevisions, w.(reaps := w.reaps - 1), mode, left)
  }

  lemma {:induction false} ReapsIndex(m: Manager, w: Answers)
    requires m.crit.Building?
    ensures AfterReaps(m, w).byHash == IndexAfter(m.revisions, m.maxRevisions, w, m.mode, m.byHash)
    decreases |m.revisions|
  {
    if m.revisions != [] && |m.revisions| >= m.maxRevisions && m.revisions[0].id !in w.referenced && w.reaps > 0 {
      ReapsIndex(Happen(m, ReapFront(false)), w.(reaps := w.reaps - 1));
    }
  }

  lemma {:induction false} IndexAfterHas(queue: seq<Revision>, maxRevisions: nat, w: Answers, mode: Mode,
                                         byHash: map<Hash, Revision>, h: Hash)
    requires Reapable(queue, maxRevisions, w.referenced) <= w.reaps
    ensures h in IndexAfter(queue, maxRevisions, w, mode, byHash) <==>
            h in byHash && !TakesOut(queue, maxRevisions, w.referenced, mode, h)
    decreases |queue|
  {
    if queue != [] && |queue| >= maxRevisions && queue[0].id !in w.referenced {
      IndexAfterHas(queue[1..], maxRevisions, w.(reaps := w.reaps - 1), mode,
                    Without(byHash, IndexHash(mode, queue[0].contents)), h);
    }
  }

  /** The index after a commit has a hash if it had it and the loop left it, or if it is the
      new revision's. */
  lemma {:induction false} CommitIndex(m: Manager, pid: Pid, w: Answers, h: Hash)
    requires m.crit.Free? && pid in m.table && m.revisions != [] && !m.aborted && Decide(m, pid, w).committed
    ensures h in AfterCritical(m, pid, w).byHash <==>
            || IndexHash(m.mode, m.table[pid].contents) == Some(h)
            || (h in m.byHash && !TakesOut(m.revisions, m.maxRevisions, w.referenced, m.mode, h))
  {
    var s := Start(m, pid);
    StartBuilds(m, pid);
    ReapsShorten(s, w);
    ReapsLeaveProposals(s, w);
    ReapsIndex(s, w);
    IndexAfterHas(m.revisions, m.maxRevisions, w, m.mode, m.byHash, h);
  }

  /** A commit that starts with every queued revision findable ends so exactly when no
      revision left in the queue has the hash of one that was reaped or tried, except for the
      hash of the new revision itself. */
  lemma CommitKeepsFindable(m: Manager, pid: Pid, w: Answers)
    requires m.crit.Free? && pid in m.table && m.revisions != [] && !m.aborted && Decide(m, pid, w).committed
    requires Findable(m.revisions, m.byHash, m.mode)
    ensures var n, k, t := AfterCritical(m, pid, w), Reapable(m.revisions, m.maxRevisions, w.referenced),
                           Tried(m.revisions, m.maxRevisions, w.referenced);
            Findable(n.revisions, n.byHash, m.mode) <==>
            forall i, j | 0 <= i < t && k <= j < |m.revisions| ::
              var h := IndexHash(m.mode, m.revisions[i].contents);
              h.Some? && h == IndexHash(m.mode, m.revisions[j].contents) ==> h == IndexHash(m.mode, m.table[pid].contents)
  {
    var n, k := AfterCritical(m, pid, w), Reapable(m.revisions, m.maxRevisions, w.referenced);
    CriticalDecides(m, pid, w);
    forall h
      ensures h in n.byHash <==>
              || IndexHash(m.mode, m.table[pid].contents) == Some(h)
              || (h in m.byHash && !Clashes(m, w, h))
    {
      CommitIndex(m, pid, w, h);
      TakesOutTried(m.revisions, m.maxRevisions, w.referenced, m.mode, h);
    }
    FindableLeft(m, pid, w, n);
  }

  /** Some revision that was reaped or tried has this hash. */
  ghost predicate Clashes(m: Manager, w: Answers, h: Hash) {
    exists i | 0 <= i < Tried(m.revisions, m.maxRevisions, w.referenced) ::
      IndexHash(m.mode, m.revisions[i].contents) == Some(h)
  }

  lemma FindableLeft(m: Manager, pid: Pid, w: Answers, n: Manager)
    requires pid in m.table && Findable(m.revisions, m.byHash, m.mode)
    requires n.revisions == m.revisions[Reapable(m.revisions, m.maxRevisions, w.referenced)..] +
                            [Become(m.table[pid], m.nextId)]
    requires forall h :: h in n.byHash <==>
               || IndexHash(m.mode, m.table[pid].contents) == Some(h)
               || (h in m.byHash && !Clashes(m, w, h))
    ensures Findable(n.revisions, n.byHash, m.mode) <==>
            forall i, j | 0 <= i < Tried(m.revisions, m.maxRevisions, w.referenced) &&
                          Reapable(m.revisions, m.maxRevisions, w.referenced) <= j < |m.revisions| ::
              var h := IndexHash(m.mode, m.revisions[i].contents);
              h.Some? && h == IndexHash(m.mode, m.revisions[j].contents) ==> h == IndexHash(m.mode, m.table[pid].contents)
  {
    var k := Reapable(m.revisions, m.maxRevisions, w.referenced);
    var q := |m.revisions| - k;
    assert forall l | 0 <= l < q :: n.revisions[l] == m.revisions[k + l];
    assert forall j | k <= j < |m.revisions| :: m.revisions[j] == n.revisions[j - k];
    assert n.revisions[q].contents == m.table[pid].contents;
  }

  // ---- A queued revision that cannot be found ----

  /** Nobody holds an old revision and the worker accepts everything. */
  const EASY := Answers(false, {}, 1, true)

  /** Someone can make a proposal `pid` on the latest revision. */
  predicate Open(m: Manager, pid: Pid) {
    m.crit.Free? && pid !in m.table && pid != 0 && m.history != [] && m.revisions != []
  }

  ghost function Offered(m: Manager, pid: Pid, ops: seq<BatchOp>): (p: Manager)
    requires Open(m, pid)
    ensures Can(p, StartCommit(pid))
  {
    Happen(m, ProposeOnRevision(pid, |m.history| - 1, ops, {}, {}))
  }

  lemma OfferedRuns(m: Manager, pid: Pid, ops: seq<BatchOp>)
    requires Open(m, pid)
    ensures Reachable(m, Offered(m, pid, ops))
  {
    ReachableSelf(m);
    ReachableOn(m, m, ProposeOnRevision(pid, |m.history| - 1, ops, {}, {}));
  }

  /** A proposal on the latest revision and its commit. */
  ghost function Next(m: Manager, pid: Pid, ops: seq<BatchOp>): Manager
    requires Open(m, pid)
  {
    AfterCritical(Offered(m, pid, ops), pid, EASY)
  }

  lemma NextRuns(m: Manager, pid: Pid, ops: seq<BatchOp>)
    requires Open(m, pid)
    ensures Reachable(m, Next(m, pid, ops))
  {
    OfferedRuns(m, pid, ops);
    CriticalRuns(Offered(m, pid, ops), pid, EASY);
    ReachableThen(m, Offered(m, pid, ops), Next(m, pid, ops));
  }

  /** What a commit does to the queue and the index, with room in the queue and without. */
  ghost predicate Appends(m: Manager, n: Manager, contents: Contents) {
    && QueueOk(m) && QueueOk(n) && n.crit.Free? && !n.aborted && n.mode == m.mode && n.maxRevisions == m.maxRevisions
    && Last(n.revisions).contents == contents
    && n.revisions == (if |m.revisions| < m.maxRevisions then m.revisions else m.revisions[1..]) + [Last(n.revisions)]
    && contents != map[] && n.byHash ==
       (if |m.revisions| < m.maxRevisions then m.byHash
        else Without(m.byHash, IndexHash(m.mode, m.revisions[0].contents)))[Hash(contents) := Last(n.revisions)]
  }

  /** The commit under way, before it makes room. */
  ghost function Begun(m: Manager, pid: Pid, ops: seq<BatchOp>): Manager
    requires Open(m, pid)
  {
    Start(Offered(m, pid, ops), pid)
  }

  lemma {:induction false} OfferFits(m: Manager, pid: Pid, ops: seq<BatchOp>)
    requires QueueOk(m) && Open(m, pid)
    ensures var p := Offered(m, pid, ops);
            && p.table[pid].contents == Apply(Last(m.revisions).contents, ops)
            && p.table[pid].parent == Committed(RootHash(Last(m.revisions).contents), Last(m.revisions).id)
            && p == m.(table := p.table, tracked := p.tracked, strong := p.strong, skipped := p.skipped)
            && p.table.Keys == m.table.Keys + {pid}
  {
    SuffixLast(m.revisions, m.history);
  }

  lemma {:induction false} Begins(m: Manager, pid: Pid, ops: seq<BatchOp>)
    requires QueueOk(m) && Open(m, pid) && !m.aborted
    requires Apply(Last(m.revisions).contents, ops) != Last(m.revisions).contents
    ensures var s := Begun(m, pid, ops);
            && s.crit.Building? && s.crit.rev.contents == Apply(Last(m.revisions).contents, ops)
            && s.revisions == m.revisions && s.byHash == m.byHash && s.history == m.history && s.aborted == m.aborted
            && s.mode == m.mode && s.maxRevisions == m.maxRevisions && s.table.Keys == m.table.Keys + {pid}
  {
    OfferFits(m, pid, ops);
  }

  lemma {:induction false} MakesRoom(s: Manager)
    requires QueueOk(s) && s.crit.Building? && |s.revisions| <= s.maxRevisions
    ensures var r := AfterReaps(s, EASY);
            && r.crit == s.crit && r.aborted == s.aborted && r.history == s.history && QueueOk(r)
            && r.mode == s.mode && r.maxRevisions == s.maxRevisions && r.table == s.table
            && r.revisions == (if |s.revisions| < s.maxRevisions then s.revisions else s.revisions[1..])
            && r.byHash == (if |s.revisions| < s.maxRevisions then s.byHash
                            else Without(s.byHash, IndexHash(s.mode, s.revisions[0].contents)))
  {
    if |s.revisions| == s.maxRevisions {
      var n := Happen(s, ReapFront(false));
      QueueKept(s, ReapFront(false));
      assert AfterReaps(n, EASY.(reaps := 0)) == n;
    }
  }

  lemma {:induction false} NextAppends(m: Manager, pid: Pid, ops: seq<BatchOp>)
    requires QueueOk(m) && Open(m, pid) && !m.aborted
    requires |m.revisions| <= m.maxRevisions
    requires var c := Last(m.revisions).contents; Apply(c, ops) != c && Apply(c, ops) != map[]
    ensures Appends(m, Next(m, pid, ops), Apply(Last(m.revisions).contents, ops))
    ensures Next(m, pid, ops).table.Keys == m.table.Keys + {pid}
  {
    Begins(m, pid, ops);
    var s := Begun(m, pid, ops);
    MakesRoom(s);
    var r := AfterReaps(s, EASY);
    QueueKept(r, PushRevision);
    QueueKept(Happen(r, PushRevision), IndexRevision);
    assert Next(m, pid, ops) == Happen(Happen(r, PushRevision), IndexRevision);
  }

  /** With three revisions kept, committing `a`, `b`, `a` again and then `c` leaves the second
      `a` in the queue, the middle one of three, and out of the index. Nothing is held and
      nothing fails. */
  lemma LostFromIndex(k: Key, x: Value, y: Value, z: Value)
    requires x != y && y != z && x != z
    ensures exists m | Reachable(OpenManager(MerkleDb, 3, map[k := x], {}), m) ::
              m.crit.Free? && !m.aborted && |m.revisions| == 3 && m.revisions[1].contents == map[k := x] &&
              Hash(map[k := x]) !in m.byHash
  {
    var m0 := OpenManager(MerkleDb, 3, map[k := x], {});
    var m1 := Changes(m0, 1, k, x, y);
    var m2 := Changes(m1, 2, k, y, x);
    var m3 := Changes(m2, 3, k, x, z);
    ReachableThen(m0, m1, m2);
    ReachableThen(m0, m2, m3);
    SecondIsLost(m0, m1, m2, m3, k, x, y, z);
  }

  lemma SecondIsLost(m0: Manager, m1: Manager, m2: Manager, m3: Manager, k: Key, x: Value, y: Value, z: Value)
    requires x != y && y != z && x != z && m0.mode == MerkleDb && m0.maxRevisions == 3 && |m0.revisions| == 1
    requires m0.revisions[0].contents == map[k := x]
    requires Appends(m0, m1, map[k := y]) && Appends(m1, m2, map[k := x]) && Appends(m2, m3, map[k := z])
    ensures |m3.revisions| == 3 && m3.revisions[1].contents == map[k := x] && Hash(map[k := x]) !in m3.byHash
  {
    assert map[k := x][k] != map[k := z][k];
    assert m2.revisions[0] == m0.revisions[0] && m2.revisions[2].contents == map[k := x];
    assert m3.revisions[1] == m2.revisions[2];
  }

  lemma Changes(m: Manager, pid: Pid, k: Key, x: Value, y: Value) returns (n: Manager)
    requires QueueOk(m) && Open(m, pid) && !m.aborted && |m.revisions| <= m.maxRevisions
    requires Last(m.revisions).contents == map[k := x] && x != y
    ensures Reachable(m, n) && Appends(m, n, map[k := y]) && n.table.Keys == m.table.Keys + {pid}
  {
    n := Next(m, pid, [Put(k, y)]);
    Puts(k, x, y);
    NextAppends(m, pid, [Put(k, y)]);
    NextRuns(m, pid, [Put(k, y)]);
  }

  lemma Puts(k: Key, x: Value, y: Value)
    requires x != y
    ensures Apply(map[k := x], [Put(k, y)]) == map[k := y] && map[k := y][k] != map[k := x][k]
  {
    assert [Put(k, y)][..0] == [];
  }
}
