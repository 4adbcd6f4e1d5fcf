/** `Proposal::commit_with_rebase` (`firewood/src/db.rs`): commit a proposal even when its
    parent is no longer the latest revision, as a three-way merge. */
module Rebase {
  import opened Sequences
  import opened Nibbles
  import opened Trie
  import opened Diff
  import opened DiffMap
  import opened Manager
  import opened Updates
  import opened HashIndex
  import opened Commits

  /** What a three-way merge gives a key: the proposal's value or absence if the proposal
      changed it, and what is latest otherwise. */
  function Picked(base: Contents, mine: Contents, latest: Contents, k: Key): Option<Value> {
    if Find(base, k) != Find(mine, k) then Find(mine, k) else Find(latest, k)
  }

  function Merge(base: Contents, mine: Contents, latest: Contents): Contents {
    map k | k in mine.Keys + latest.Keys && Picked(base, mine, latest, k).Some? :: Picked(base, mine, latest, k).value
  }

  lemma MergePicks(base: Contents, mine: Contents, latest: Contents, k: Key)
    ensures Find(Merge(base, mine, latest), k) == Picked(base, mine, latest, k)
  {
  }

  lemma SameFinds(a: Contents, b: Contents)
    requires forall k: Key :: Find(a, k) == Find(b, k)
    ensures a == b
  {
    forall k: Key ensures k in a <==> k in b { assert Find(a, k) == Find(b, k); }
    forall k | k in a ensures a[k] == b[k] { assert Find(a, k) == Find(b, k); }
  }

  lemma MergeOntoBase(base: Contents, mine: Contents)
    ensures Merge(base, mine, base) == mine
  {
    forall k: Key ensures Find(Merge(base, mine, base), k) == Find(mine, k) { MergePicks(base, mine, base, k); }
    SameFinds(Merge(base, mine, base), mine);
  }

  /** Two proposals on the same parent can be rebased in either order with the same result
      exactly when every key they both change they change alike. */
  lemma MergeOrder(base: Contents, a: Contents, b: Contents)
    ensures Merge(base, a, b) == Merge(base, b, a) <==>
            forall k: Key :: Find(a, k) != Find(base, k) && Find(b, k) != Find(base, k) ==> Find(a, k) == Find(b, k)
  {
    forall k: Key
      ensures Find(Merge(base, a, b), k) == Picked(base, a, b, k) && Find(Merge(base, b, a), k) == Picked(base, b, a, k)
    {
      MergePicks(base, a, b, k);
      MergePicks(base, b, a, k);
    }
    if forall k: Key :: Find(a, k) != Find(base, k) && Find(b, k) != Find(base, k) ==> Find(a, k) == Find(b, k) {
      SameFinds(Merge(base, a, b), Merge(base, b, a));
    } else {
      var k: Key :| Find(a, k) != Find(base, k) && Find(b, k) != Find(base, k) && Find(a, k) != Find(b, k);
      assert Find(Merge(base, a, b), k) != Find(Merge(base, b, a), k);
    }
  }

  /** The trie holds these contents. */
  ghost predicate Holds(root: Option<Node>, c: Contents) {
    WellFormedTrie(root) && forall k: Key :: Find(c, k) == Lookup(root, k)
  }

  /** The tries of the stores, found by what they hold; an empty one has no root. */
  ghost predicate TriesHold(tries: map<Contents, Option<Node>>) {
    forall c | c in tries :: Holds(tries[c], c)
  }

  predicate Stored(tries: map<Contents, Option<Node>>, c: Contents) {
    c == map[] || c in tries
  }

  function TrieOf(tries: map<Contents, Option<Node>>, c: Contents): Option<Node>
    requires Stored(tries, c)
  {
    if c == map[] then None else tries[c]
  }

  lemma TrieHolds(tries: map<Contents, Option<Node>>, c: Contents)
    requires TriesHold(tries) && Stored(tries, c)
    ensures Holds(TrieOf(tries, c), c)
  {
  }

  /** Replaying the difference between the old parent and the proposal on the latest contents
      is the three-way merge. */
  lemma {:induction false} ReplayIsMerge(before: Option<Node>, after: Option<Node>, base: Contents, mine: Contents,
                                         latest: Contents)
    requires Holds(before, base) && Holds(after, mine)
    ensures Apply(latest, DiffOps(before, after, [])) == Merge(base, mine, latest)
  {
    forall k: Key ensures Find(Apply(latest, DiffOps(before, after, [])), k) == Find(Merge(base, mine, latest), k) {
      ApplyDiffMerges(before, after, latest, k);
      MergePicks(base, mine, latest, k);
    }
    SameFinds(Apply(latest, DiffOps(before, after, [])), Merge(base, mine, latest));
  }

  /** `diff.collect()`. */
  method Collect(before: Option<Node>, after: Option<Node>) returns (ops: seq<BatchOp>)
    requires WellFormedTrie(before) && WellFormedTrie(after)
    ensures ops == DiffOps(before, after, [])
  {
    var stream := new DiffMerkleNodeStream(before, after, _ => true, _ => true, []);
    ghost var all := stream.Pending();
    ops := [];
    while true
      invariant fresh(stream) && fresh(stream.left) && fresh(stream.right) && stream.Valid()
      invariant all == ops + stream.Pending()
      decreases |stream.Pending()|
    {
      ghost var pending := stream.Pending();
      var op := stream.Next();
      if op.None? {
        return;
      }
      ConcatAssociative(ops, [op.value], stream.Pending());
      HeadTail(pending);
      ops := ops + [op.value];
    }
  }

  /** The batch that the stale branch proposes: on any contents it is a merge. */
  method Difference(tries: map<Contents, Option<Node>>, base: Contents, mine: Contents) returns (ops: seq<BatchOp>)
    requires TriesHold(tries) && Stored(tries, base) && Stored(tries, mine)
    ensures forall latest :: Apply(latest, ops) == Merge(base, mine, latest)
  {
    var before, after := TrieOf(tries, base), TrieOf(tries, mine);
    TrieHolds(tries, base);
    TrieHolds(tries, mine);
    ops := Collect(before, after);
    forall latest ensures Apply(latest, ops) == Merge(base, mine, latest) {
      ReplayIsMerge(before, after, base, mine, latest);
    }
  }

  /** The proposal was made on a revision that is no longer the latest, or on a proposal. */
  predicate Stale(m: Manager, pid: Pid)
    requires pid in m.table && m.revisions != []
  {
    !(m.table[pid].parent.Committed? && m.table[pid].parent.id == Last(m.revisions).id)
  }

  /** What stands in the way of rebasing a stale proposal. */
  function Obstacle(db: RevisionManager, pid: Pid, failed: bool): (e: Option<Error>)
    requires pid in db.table
    reads db
    ensures db.table[pid].parent.Proposed? <==> e == Some(ParentNotCommitted)
    ensures e.Some? && e.value.RevisionNotFound? ==>
              db.table[pid].parent.Committed? && db.table[pid].parent.hash == Some(e.value.hash) && e.value.hash !in db.byHash
    ensures e.None? ==> !failed && db.table[pid].parent.Committed?
  {
    match db.table[pid].parent
    case Proposed(_) => Some(ParentNotCommitted)
    case Committed(h, _) =>
      if h.Some? && !db.CanFind(h.value) then Some(RevisionNotFound(h.value))
      else if failed then Some(PersistError) else None
  }

  /** The proposal of the replayed batch: it holds the merge and has the latest revision as
      its parent. */
  ghost predicate Replayed(m: Manager, pid: Pid, newPid: Pid, n: Manager) {
    && pid in m.table && m.revisions != [] && n.revisions == m.revisions && n.byHash == m.byHash
    && n.maxRevisions == m.maxRevisions && n.aborted == m.aborted
    && newPid in n.table && newPid in n.strong && !Stale(n, newPid)
    && n.table[newPid].contents == Merge(m.table[pid].base, m.table[pid].contents, Last(m.revisions).contents)
  }

  /** The events of the stale branch, on the batch `ops`. */
  ghost function Reproposal(m: Manager, newPid: Pid, ops: seq<BatchOp>, deleted: set<NodeId>, made: set<NodeId>): Event
    requires m.history != []
  {
    ProposeOnRevision(newPid, |m.history| - 1, ops, deleted, made)
  }

  lemma ReplayCan(m: Manager, pid: Pid, newPid: Pid, ops: seq<BatchOp>, deleted: set<NodeId>, made: set<NodeId>)
    requires QueueOk(m) && Can(m, Withdraw(pid)) && newPid !in m.table && newPid != 0
    requires NodesFit(newPid, Last(m.revisions).nodes, deleted, made)
    ensures var n := Happen(m, Withdraw(pid));
            && Can(n, Reproposal(m, newPid, ops, deleted, made))
            && n.revisions == m.revisions && n.history == m.history
            && m.history[|m.history| - 1] == Last(m.revisions)
  {
    SuffixLast(m.revisions, m.history);
  }

  lemma {:induction false} ReplayProposes(m: Manager, pid: Pid, newPid: Pid, ops: seq<BatchOp>, deleted: set<NodeId>,
                                          made: set<NodeId>)
    requires QueueOk(m) && Can(m, Withdraw(pid)) && newPid !in m.table && newPid != 0
    requires NodesFit(newPid, Last(m.revisions).nodes, deleted, made)
    requires Apply(Last(m.revisions).contents, ops) ==
             Merge(m.table[pid].base, m.table[pid].contents, Last(m.revisions).contents)
    ensures var n, e := Happen(m, Withdraw(pid)), Reproposal(m, newPid, ops, deleted, made);
            Can(n, e) && Replayed(m, pid, newPid, Happen(n, e))
  {
    ReplayCan(m, pid, newPid, ops, deleted, made);
  }

  /** The machine after the stale branch: a worker error stops it before the new proposal. */
  ghost function AfterReplay(m: Manager, pid: Pid, newPid: Pid, ops: seq<BatchOp>, deleted: set<NodeId>,
                             made: set<NodeId>, failed: bool): Manager
    requires QueueOk(m) && Can(m, Withdraw(pid)) && newPid !in m.table && newPid != 0
    requires NodesFit(newPid, Last(m.revisions).nodes, deleted, made)
  {
    ReplayCan(m, pid, newPid, ops, deleted, made);
    var n := Happen(m, Withdraw(pid));
    if failed then n else Happen(n, Reproposal(m, newPid, ops, deleted, made))
  }

  lemma ReplayRuns(m: Manager, pid: Pid, newPid: Pid, ops: seq<BatchOp>, deleted: set<NodeId>, made: set<NodeId>,
                   failed: bool)
    requires QueueOk(m) && Can(m, Withdraw(pid)) && newPid !in m.table && newPid != 0
    requires NodesFit(newPid, Last(m.revisions).nodes, deleted, made)
    ensures Reachable(m, AfterReplay(m, pid, newPid, ops, deleted, made, failed))
  {
    ReplayCan(m, pid, newPid, ops, deleted, made);
    ReachableSelf(m);
    ReachableOn(m, m, Withdraw(pid));
    ReachableOn(m, Happen(m, Withdraw(pid)), Reproposal(m, newPid, ops, deleted, made));
  }

  lemma ReplayLeaves(m: Manager, pid: Pid, newPid: Pid, ops: seq<BatchOp>, deleted: set<NodeId>, made: set<NodeId>,
                     failed: bool)
    requires QueueOk(m) && Can(m, Withdraw(pid)) && newPid !in m.table && newPid != 0 && m.strong <= m.table.Keys
    requires NodesFit(newPid, Last(m.revisions).nodes, deleted, made)
    ensures var n := AfterReplay(m, pid, newPid, ops, deleted, made, failed);
            && n.crit == m.crit && n.strong <= n.table.Keys && n.revisions == m.revisions && n.byHash == m.byHash
            && forall q :: q in n.tracked <==> (q in m.tracked && q != pid) || (!failed && q == newPid)
  {
  }

  lemma ReplayKeeps(m: Manager, pid: Pid, newPid: Pid, ops: seq<BatchOp>, deleted: set<NodeId>, made: set<NodeId>,
                    failed: bool)
    requires ContentsInv(m) && IndexInv(m) && Can(m, Withdraw(pid)) && newPid !in m.table && newPid != 0
    requires NodesFit(newPid, Last(m.revisions).nodes, deleted, made)
    ensures var n := AfterReplay(m, pid, newPid, ops, deleted, made, failed);
            Reachable(m, n) && ContentsInv(n) && IndexInv(n)
  {
    ReplayRuns(m, pid, newPid, ops, deleted, made, failed);
    InvariantsHold(m, AfterReplay(m, pid, newPid, ops, deleted, made, failed));
  }

  /** Takes the proposal off the list and proposes a batch on the latest revision. */
  method Repropose(db: RevisionManager, pid: Pid, newPid: Pid, ops: seq<BatchOp>, deleted: set<NodeId>,
                   made: set<NodeId>, failed: bool) returns (r: Result<Pid>)
    requires db.Same() && QueueOk(db.m) && Can(db.m, Withdraw(pid)) && newPid !in db.table && newPid != 0
    requires NodesFit(newPid, Last(db.revisions).nodes, deleted, made)
    modifies db
    ensures db.Same() && r == if failed then Err(PersistError) else Ok(newPid)
    ensures db.m == AfterReplay(old(db.m), pid, newPid, ops, deleted, made, failed)
  {
    ReplayCan(db.m, pid, newPid, ops, deleted, made);
    db.RemoveProposal(pid);
    r := db.ProposeOnCommitted(newPid, Last(db.revisions), db.latest, ops, deleted, made, failed);
  }

  /** The old parent of a stale proposal is found by its hash, unless it was empty, and what
      is found is what the proposal was made on. */
  method FindOldParent(db: RevisionManager, pid: Pid) returns (r: Result<Contents>)
    requires db.Valid() && pid in db.table
    ensures var o := Obstacle(db, pid, false); r == if o.Some? then Err(o.value) else Ok(db.table[pid].base)
  {
    ParentHash(db.m, pid);
    match db.table[pid].parent {
      case Proposed(_) => return Err(ParentNotCommitted);
      case Committed(h, _) =>
        if h.None? {
          return Ok(map[]);
        }
        r := db.FindRevision(h.value);
    }
  }

  lemma ParentHash(m: Manager, pid: Pid)
    requires ParentsFit(m.table, m.history) && pid in m.table
    ensures var p := m.table[pid]; p.parent.Committed? ==> p.parent.hash == RootHash(p.base)
  {
    assert ParentFits(m.table[pid], m.table, m.history);
  }

  /** The stale branch once the batch is there. */
  method ReplayOps(db: RevisionManager, pid: Pid, newPid: Pid, ops: seq<BatchOp>, deleted: set<NodeId>,
                   made: set<NodeId>, failed: bool) returns (r: Result<Pid>)
    requires db.Valid() && Can(db.m, Withdraw(pid)) && newPid !in db.table && newPid != 0
    requires NodesFit(newPid, Last(db.revisions).nodes, deleted, made)
    requires Apply(Last(db.revisions).contents, ops) ==
             Merge(db.table[pid].base, db.table[pid].contents, Last(db.revisions).contents)
    modifies db
    ensures db.Valid() && Reachable(old(db.m), db.m)
    ensures r == if failed then Err(PersistError) else Ok(newPid)
    ensures !failed ==> Replayed(old(db.m), pid, newPid, db.m)
    ensures db.revisions == old(db.revisions) && db.byHash == old(db.byHash)
    ensures forall q :: q in db.proposals <==> (q in old(db.proposals) && q != pid) || (!failed && q == newPid)
  {
    ReplayKeeps(db.m, pid, newPid, ops, deleted, made, failed);
    ReplayLeaves(db.m, pid, newPid, ops, deleted, made, failed);
    ReplayProposes(db.m, pid, newPid, ops, deleted, made);
    r := Repropose(db, pid, newPid, ops, deleted, made, failed);
  }

  /** The stale branch: diffs the proposal against its old parent and proposes the difference
      again on the latest revision. */
  method Replay(db: RevisionManager, pid: Pid, newPid: Pid, tries: map<Contents, Option<Node>>,
                deleted: set<NodeId>, made: set<NodeId>, failed: bool) returns (r: Result<Pid>)
    requires db.Valid() && Can(db.m, Withdraw(pid)) && newPid !in db.table && newPid != 0
    requires TriesHold(tries) && Stored(tries, db.table[pid].base) && Stored(tries, db.table[pid].contents)
    requires NodesFit(newPid, Last(db.revisions).nodes, deleted, made)
    modifies db
    ensures db.Valid() && Reachable(old(db.m), db.m)
    ensures old(Obstacle(db, pid, failed)).None? ==> r == Ok(newPid) && Replayed(old(db.m), pid, newPid, db.m)
    ensures old(Obstacle(db, pid, failed)).Some? ==> r == Err(old(Obstacle(db, pid, failed)).value)
    ensures db.revisions == old(db.revisions) && db.byHash == old(db.byHash)
    ensures if old(Obstacle(db, pid, false)).Some? then db.proposals == old(db.proposals)
            else forall q :: q in db.proposals <==> (q in old(db.proposals) && q != pid) || (!failed && q == newPid)
  {
    var found := FindOldParent(db, pid);
    if found.Err? {
      ReachableSelf(db.m);
      return Err(found.error);
    }
    var ops := Difference(tries, found.value, db.table[pid].contents);
    r := ReplayOps(db, pid, newPid, ops, deleted, made, failed);
  }

  /** The rebased commit is accepted: the worker is well and has room. */
  predicate Accepts(m: Manager, w: Answers) {
    !w.error && Reapable(m.revisions, m.maxRevisions, w.referenced) <= w.reaps && w.accepts
  }

  /** A commit on the latest revision fails only because of the worker. */
  lemma FreshCommits(m: Manager, p: Pid, w: Answers)
    requires p in m.table && m.revisions != [] && !Stale(m, p)
    ensures Decide(m, p, w).answer.Err? ==> Decide(m, p, w).answer.error == PersistError && !Accepts(m, w)
  {
  }

  lemma FreshIsMerged(m: Manager, pid: Pid)
    requires ContentsInv(m) && pid in m.table && pid in m.strong && !Stale(m, pid)
    ensures Replayed(m, pid, pid, m)
  {
    LatestParent(m, pid);
    SuffixLast(m.revisions, m.history);
    MergeOntoBase(m.table[pid].base, m.table[pid].contents);
  }

  /** The first half: a proposal on the latest revision that holds the merge. */
  method Prepare(db: RevisionManager, pid: Pid, newPid: Pid, tries: map<Contents, Option<Node>>,
                 deleted: set<NodeId>, made: set<NodeId>, failed: bool) returns (r: Result<Pid>)
    requires db.Valid() && pid in db.strong && Can(db.m, Withdraw(pid)) && newPid !in db.table && newPid != 0
    requires TriesHold(tries) && Stored(tries, db.table[pid].base) && Stored(tries, db.table[pid].contents)
    requires NodesFit(newPid, Last(db.revisions).nodes, deleted, made)
    modifies db
    ensures db.Valid() && Reachable(old(db.m), db.m)
    ensures r == if Stale(old(db.m), pid) && old(Obstacle(db, pid, failed)).Some?
                 then Err(old(Obstacle(db, pid, failed)).value)
                 else Ok(if Stale(old(db.m), pid) then newPid else pid)
    ensures r.Ok? ==> Replayed(old(db.m), pid, r.value, db.m)
    ensures r.Err? ==> db.revisions == old(db.revisions) && db.byHash == old(db.byHash)
    ensures if Stale(old(db.m), pid) && old(Obstacle(db, pid, false)).None? then pid !in db.proposals
            else db.proposals == old(db.proposals)
  {
    if db.table[pid].parent.Committed? && db.table[pid].parent.id == Last(db.revisions).id {
      ReachableSelf(db.m);
      FreshIsMerged(db.m, pid);
      return Ok(pid);
    }
    r := Replay(db, pid, newPid, tries, deleted, made, failed);
  }

  /** `commit_with_rebase`. When it succeeds the latest contents are the three-way merge of
      the proposal, what it was made on and what was latest, whether the parent was stale or
      not, and their hash is the answer. It never fails for being late. The proposal is off the
      list afterwards, unless its old parent could not be found or was a proposal. */
  method CommitWithRebase(db: RevisionManager, pid: Pid, newPid: Pid, tries: map<Contents, Option<Node>>,
                          deleted: set<NodeId>, made: set<NodeId>, failed: bool, w: Answers)
    returns (r: Result<Option<Hash>>)
    requires db.Valid() && pid in db.strong && Can(db.m, Withdraw(pid)) && newPid !in db.table && newPid != 0
    requires TriesHold(tries) && Stored(tries, db.table[pid].base) && Stored(tries, db.table[pid].contents)
    requires NodesFit(newPid, Last(db.revisions).nodes, deleted, made)
    requires db.m.aborted ==> w.error
    modifies db
    ensures db.Valid() && Reachable(old(db.m), db.m)
    ensures r.Ok? ==>
              && Last(db.revisions).contents ==
                 Merge(old(db.table)[pid].base, old(db.table)[pid].contents, Last(old(db.revisions)).contents)
              && r.value == RootHash(Last(db.revisions).contents)
    ensures if Stale(old(db.m), pid) && old(Obstacle(db, pid, failed)).Some?
            then r == Err(old(Obstacle(db, pid, failed)).value) && db.revisions == old(db.revisions)
            else r.Err? ==> r.error == PersistError && !Accepts(old(db.m), w)
    ensures r.Ok? || (Stale(old(db.m), pid) && old(Obstacle(db, pid, false)).None?) ==> pid !in db.proposals
    ensures Stale(old(db.m), pid) && old(Obstacle(db, pid, false)).Some? ==> db.proposals == old(db.proposals)
  {
    ghost var start := db.m;
    var p := Prepare(db, pid, newPid, tries, deleted, made, failed);
    if p.Err? {
      return Err(p.error);
    }
    ghost var ready := db.m;
    FreshCommits(ready, p.value, w);
    var hash := RootHash(db.table[p.value].contents);
    var done := db.Commit(p.value, w);
    ReachableThen(start, ready, db.m);
    r := if done.Ok? then Ok(hash) else Err(done.error);
  }
}
