/** The index of committed revisions by root hash: what its entries name, and when it has all
    revisions of the queue. */
module HashIndex {
  import opened Nibbles
  import opened DiffMap
  import opened Manager
  import opened Updates

  /** The queue as the index knows it: a revision just pushed is not indexed yet. */
  ghost function Shown(m: Manager): seq<Revision> {
    if m.crit.Queued? && m.revisions != [] then m.revisions[..|m.revisions| - 1] else m.revisions
  }

  /** `r` is the newest revision of the queue with index hash `h`. */
  ghost predicate NewestWith(queue: seq<Revision>, mode: Mode, h: Hash, r: Revision) {
    exists k | 0 <= k < |queue| :: NewestAt(queue, mode, h, r, k)
  }

  ghost predicate NewestAt(queue: seq<Revision>, mode: Mode, h: Hash, r: Revision, k: nat) {
    && k < |queue| && queue[k] == r && IndexHash(mode, r.contents) == Some(h)
    && forall l | k < l < |queue| :: IndexHash(mode, queue[l].contents) != Some(h)
  }

  ghost predicate EntriesNewest(queue: seq<Revision>, byHash: map<Hash, Revision>, mode: Mode) {
    forall h | h in byHash :: NewestWith(queue, mode, h, byHash[h])
  }

  ghost predicate LatestIndexed(queue: seq<Revision>, byHash: map<Hash, Revision>, mode: Mode) {
    queue != [] ==> var h := IndexHash(mode, Last(queue).contents); h.Some? ==> h.value in byHash
  }

  /** Every revision of the queue can be found by its hash. */
  ghost predicate Complete(queue: seq<Revision>, byHash: map<Hash, Revision>, mode: Mode) {
    forall k | 0 <= k < |queue| ::
      var h := IndexHash(mode, queue[k].contents); h.Some? ==> h.value in byHash && byHash[h.value] == queue[k]
  }

  /** No root hash has been committed twice. */
  ghost predicate NoRepeats(history: seq<Revision>) {
    forall i, j | 0 <= i < j < |history| :: history[i].contents != history[j].contents
  }

  /** Nobody is committing and no commit has failed. */
  predicate Quiet(m: Manager) {
    m.crit.Free? && !m.aborted
  }

  ghost predicate IndexOk(queue: seq<Revision>, byHash: map<Hash, Revision>, mode: Mode, quiet: bool, exact: bool) {
    && EntriesNewest(queue, byHash, mode)
    && (quiet ==> LatestIndexed(queue, byHash, mode))
    && (exact ==> Complete(queue, byHash, mode))
  }

  ghost predicate IndexInv(m: Manager) {
    IndexOk(Shown(m), m.byHash, m.mode, Quiet(m), !m.blocked && NoRepeats(m.history))
  }

  // ---- One step at a time ----

  lemma PopEntries(queue: seq<Revision>, byHash: map<Hash, Revision>, mode: Mode)
    requires EntriesNewest(queue, byHash, mode) && queue != []
    ensures var left := Without(byHash, IndexHash(mode, queue[0].contents));
            EntriesNewest(queue, left, mode) && EntriesNewest(queue[1..], left, mode)
  {
    var left := Without(byHash, IndexHash(mode, queue[0].contents));
    forall h | h in left ensures NewestWith(queue, mode, h, left[h]) && NewestWith(queue[1..], mode, h, left[h]) {
      assert NewestWith(queue, mode, h, byHash[h]);
      var k :| 0 <= k < |queue| && NewestAt(queue, mode, h, byHash[h], k);
      assert k > 0;
      assert NewestAt(queue[1..], mode, h, left[h], k - 1);
    }
  }

  lemma PushEntry(queue: seq<Revision>, byHash: map<Hash, Revision>, mode: Mode, rev: Revision)
    requires EntriesNewest(queue, byHash, mode)
    ensures var h := IndexHash(mode, rev.contents);
            EntriesNewest(queue + [rev], if h.Some? then byHash[h.value := rev] else byHash, mode)
  {
    var h := IndexHash(mode, rev.contents);
    var index := if h.Some? then byHash[h.value := rev] else byHash;
    forall g | g in index ensures NewestWith(queue + [rev], mode, g, index[g]) {
      if h == Some(g) {
        assert NewestAt(queue + [rev], mode, g, rev, |queue|);
      } else {
        assert NewestWith(queue, mode, g, byHash[g]);
        var k :| 0 <= k < |queue| && NewestAt(queue, mode, g, byHash[g], k);
        assert NewestAt(queue + [rev], mode, g, byHash[g], k);
      }
    }
  }

  /** The queue is a part of the history, so if no hash repeats there none repeats here. */
  lemma NoRepeatsInQueue(queue: seq<Revision>, history: seq<Revision>)
    requires Suffix(queue, history) && NoRepeats(history)
    ensures NoRepeats(queue)
  {
    var d := |history| - |queue|;
    forall i, j | 0 <= i < j < |queue| ensures queue[i].contents != queue[j].contents {
      assert queue[i] == history[d + i] && queue[j] == history[d + j];
    }
  }

  lemma PopComplete(queue: seq<Revision>, byHash: map<Hash, Revision>, mode: Mode)
    requires Complete(queue, byHash, mode) && NoRepeats(queue) && queue != []
    ensures Complete(queue[1..], Without(byHash, IndexHash(mode, queue[0].contents)), mode)
  {
    var left := Without(byHash, IndexHash(mode, queue[0].contents));
    forall k | 0 <= k < |queue[1..]| && IndexHash(mode, queue[1..][k].contents).Some?
      ensures var h := IndexHash(mode, queue[1..][k].contents).value; h in left && left[h] == queue[1..][k]
    {
      assert queue[1..][k] == queue[k + 1] && queue[0].contents != queue[k + 1].contents;
    }
  }

  lemma PushComplete(queue: seq<Revision>, byHash: map<Hash, Revision>, mode: Mode, rev: Revision)
    requires Complete(queue, byHash, mode) && NoRepeats(queue + [rev])
    ensures var h := IndexHash(mode, rev.contents);
            Complete(queue + [rev], if h.Some? then byHash[h.value := rev] else byHash, mode)
  {
    forall k | 0 <= k < |queue| ensures queue[k].contents != rev.contents {
      assert (queue + [rev])[k].contents != (queue + [rev])[|queue|].contents;
    }
  }

  lemma ReapIndexed(m: Manager, referenced: bool)
    requires QueueOk(m) && IndexInv(m) && Can(m, ReapFront(referenced))
    ensures IndexInv(Happen(m, ReapFront(referenced)))
  {
    PopEntries(m.revisions, m.byHash, m.mode);
    if !referenced && !m.blocked && NoRepeats(m.history) {
      NoRepeatsInQueue(m.revisions, m.history);
      PopComplete(m.revisions, m.byHash, m.mode);
    }
  }

  lemma PushIndexed(m: Manager)
    requires QueueOk(m) && IndexInv(m) && Can(m, PushRevision)
    ensures IndexInv(Happen(m, PushRevision))
  {
    var n := Happen(m, PushRevision);
    assert Shown(n) == m.revisions;
    if NoRepeats(n.history) {
      assert forall i | 0 <= i < |m.history| :: n.history[i] == m.history[i];
    }
  }

  lemma IndexIndexed(m: Manager)
    requires QueueOk(m) && IndexInv(m) && Can(m, IndexRevision) && Last(m.history) == m.crit.rev
    ensures IndexInv(Happen(m, IndexRevision))
  {
    var queue, rev := Shown(m), m.crit.rev;
    SuffixLast(m.revisions, m.history);
    assert queue + [rev] == m.revisions;
    PushEntry(queue, m.byHash, m.mode, rev);
    if !m.blocked && NoRepeats(m.history) {
      NoRepeatsInQueue(m.revisions, m.history);
      PushComplete(queue, m.byHash, m.mode, rev);
    }
  }

  /** No other event touches the queue or the index. */
  lemma OthersLeaveIndex(m: Manager, e: Event)
    requires Can(m, e) && !e.ReapFront? && !e.PushRevision? && !e.IndexRevision?
    ensures var n := Happen(m, e);
            && Shown(n) == Shown(m) && n.byHash == m.byHash && n.mode == m.mode
            && n.history == m.history && n.blocked == m.blocked && (Quiet(n) ==> Quiet(m))
  {
  }

  lemma IndexKept(m: Manager, e: Event)
    requires QueueOk(m) && CriticalFits(m.crit, m.table, m.history) && IndexInv(m) && Can(m, e)
    ensures IndexInv(Happen(m, e))
  {
    match e {
      case ReapFront(r) => ReapIndexed(m, r);
      case PushRevision => PushIndexed(m);
      case IndexRevision => IndexIndexed(m);
      case _ => OthersLeaveIndex(m, e);
    }
  }

  lemma IndexStart(mode: Mode, maxRevisions: nat, contents: Contents, nodes: set<NodeId>)
    ensures IndexInv(OpenManager(mode, maxRevisions, contents, nodes))
  {
    var m := OpenManager(mode, maxRevisions, contents, nodes);
    forall h | h in m.byHash ensures NewestWith(m.revisions, mode, h, m.byHash[h]) {
      assert NewestAt(m.revisions, mode, h, m.revisions[0], 0);
    }
  }

  lemma {:induction false} IndexRun(m: Manager, es: seq<Event>)
    requires ContentsInv(m) && IndexInv(m) && Happens(m, es)
    ensures ContentsInv(Later(m, es)) && IndexInv(Later(m, es))
    decreases |es|
  {
    if es != [] {
      ContentsKept(m, es[0]);
      IndexKept(m, es[0]);
      IndexRun(Happen(m, es[0]), es[1..]);
    }
  }

  /** In every reachable state the queue is not empty, each entry of the index names the
      newest queued revision with its hash, the latest revision is indexed unless a commit is
      under way or one has failed; and as long as no root hash repeats and no reap is blocked,
      the index has exactly the revisions of the queue. */
  lemma {:induction false} IndexIsSound(mode: Mode, maxRevisions: nat, contents: Contents, nodes: set<NodeId>,
                                        es: seq<Event>)
    requires 2 <= maxRevisions && Happens(OpenManager(mode, maxRevisions, contents, nodes), es)
    ensures var m := Later(OpenManager(mode, maxRevisions, contents, nodes), es);
            && m.revisions != []
            && EntriesNewest(Shown(m), m.byHash, m.mode)
            && (Quiet(m) ==> LatestIndexed(m.revisions, m.byHash, m.mode))
            && (!m.blocked && NoRepeats(m.history) ==> Complete(Shown(m), m.byHash, m.mode))
  {
    ContentsStart(mode, maxRevisions, contents, nodes);
    IndexStart(mode, maxRevisions, contents, nodes);
    IndexRun(OpenManager(mode, maxRevisions, contents, nodes), es);
  }

  /** Under Ethereum hashing every revision of the queue has an index hash; otherwise the empty
      ones have none, so that the index never names an empty revision. */
  lemma {:induction false} EmptyIsIndexed(mode: Mode, maxRevisions: nat, contents: Contents, nodes: set<NodeId>,
                                          es: seq<Event>, h: Hash)
    requires 2 <= maxRevisions && Happens(OpenManager(mode, maxRevisions, contents, nodes), es)
    ensures var m := Later(OpenManager(mode, maxRevisions, contents, nodes), es);
            && (h in m.byHash ==> m.byHash[h].contents == h.of && (h.of == map[] ==> m.mode.Ethereum?))
            && m.revisions != []
            && (Quiet(m) && (m.mode.Ethereum? || Last(m.revisions).contents != map[]) ==>
                  Hash(Last(m.revisions).contents) in m.byHash)
  {
    IndexIsSound(mode, maxRevisions, contents, nodes, es);
    var m := Later(OpenManager(mode, maxRevisions, contents, nodes), es);
    if h in m.byHash {
      assert NewestWith(Shown(m), m.mode, h, m.byHash[h]);
      var k :| 0 <= k < |Shown(m)| && NewestAt(Shown(m), m.mode, h, m.byHash[h], k);
    }
  }

  /** Every revision of the queue has its hash in the index. */
  ghost predicate Findable(queue: seq<Revision>, byHash: map<Hash, Revision>, mode: Mode) {
    forall k | 0 <= k < |queue| :: var h := IndexHash(mode, queue[k].contents); h.Some? ==> h.value in byHash
  }

  /** One reap in a complete index: every queued revision can still be found by its hash
      exactly when the oldest revision is really taken out and no other has its hash. */
  lemma ReapKeepsComplete(m: Manager, referenced: bool)
    requires QueueOk(m) && Can(m, ReapFront(referenced)) && Findable(m.revisions, m.byHash, m.mode)
    ensures var n, h := Happen(m, ReapFront(referenced)), IndexHash(m.mode, m.revisions[0].contents);
            Findable(n.revisions, n.byHash, n.mode) <==>
            h.None? || (!referenced && forall k | 0 < k < |m.revisions| :: IndexHash(m.mode, m.revisions[k].contents) != h)
  {
    var n, h := Happen(m, ReapFront(referenced)), IndexHash(m.mode, m.revisions[0].contents);
    if !referenced {
      assert forall k | 0 <= k < |n.revisions| :: n.revisions[k] == m.revisions[k + 1];
      assert forall k | 0 < k < |m.revisions| :: m.revisions[k] == n.revisions[k - 1];
    }
  }
}
