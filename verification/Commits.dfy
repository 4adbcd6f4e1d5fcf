/** `RevisionManager` as the object it is (`firewood/src/manager.rs`).

    Each method is what one thread does under the locks it takes. A ghost copy of the machine
    of module Manager runs along, so that every call is a run of that machine.
 */
module Commits {
  import opened Nibbles
  import opened Diff
  import opened DiffMap
  import opened Manager
  import opened Updates
  import opened HashIndex

  datatype Error =
    | PersistError
    | NotLatest(provided: Option<Hash>, expected: Option<Hash>)
    | RevisionNotFound(hash: Hash)
    | ParentNotCommitted

  datatype Result<T> = Ok(value: T) | Err(error: Error)

  /** What the persist worker and the reference counts answer during one critical section:
      whether an error is recorded, which revisions are referenced elsewhere, how many reaps
      are accepted before the channel shuts, and whether the new revision is accepted. */
  datatype Answers = Answers(error: bool, referenced: set<Id>, reaps: nat, accepts: bool)

  /** How many revisions a commit takes off the front of the queue. */
  function Reapable(queue: seq<Revision>, maxRevisions: nat, referenced: set<Id>): (k: nat)
    ensures k <= |queue|
    ensures forall i | 0 <= i < k :: queue[i].id !in referenced
    ensures k == |queue| || |queue| - k < maxRevisions || queue[k].id in referenced
    ensures k > 0 ==> |queue| - k >= maxRevisions - 1
  {
    if queue == [] || |queue| < maxRevisions || queue[0].id in referenced then 0
    else 1 + Reapable(queue[1..], maxRevisions, referenced)
  }

  /** What `commit_critical_section` answers and what it leaves of the queue. */
  datatype Outcome = Outcome(answer: Result<Id>, queue: seq<Revision>, committed: bool)

  function Decide(m: Manager, pid: Pid, w: Answers): (o: Outcome)
    requires pid in m.table && m.revisions != []
  {
    var p, current := m.table[pid], Last(m.revisions);
    if w.error then Outcome(Err(PersistError), m.revisions, false)
    else if !(p.parent.Committed? && p.parent.id == current.id) then
      Outcome(Err(NotLatest(RootHash(p.contents), RootHash(current.contents))), m.revisions, false)
    else if RootHash(p.contents) == RootHash(current.contents) then Outcome(Ok(current.id), m.revisions, false)
    else
      var k := Reapable(m.revisions, m.maxRevisions, w.referenced);
      if w.reaps < k then Outcome(Err(PersistError), m.revisions[w.reaps + 1..], false)
      else if !w.accepts then Outcome(Err(PersistError), m.revisions[k..], false)
      else Outcome(Ok(m.nextId), m.revisions[k..] + [Become(p, m.nextId)], true)
  }

  /** The machine after the reaping loop of a commit. */
  ghost function AfterReaps(m: Manager, w: Answers): Manager
    requires m.crit.Building?
    decreases |m.revisions|
  {
    if |m.revisions| < m.maxRevisions || m.revisions == [] then m
    else if m.revisions[0].id in w.referenced then Happen(m, ReapFront(true))
    else
      var n := Happen(m, ReapFront(false));
      if w.reaps == 0 then Happen(n, AbortCommit) else AfterReaps(n, w.(reaps := w.reaps - 1))
  }

  ghost predicate SameProposals(m: Manager, n: Manager) {
    && n.mode == m.mode && n.maxRevisions == m.maxRevisions && n.table == m.table && n.tracked == m.tracked
    && n.strong == m.strong && n.nextId == m.nextId && n.history == m.history && n.cleanups == m.cleanups
  }

  lemma {:induction false} ReapsReach(m: Manager, w: Answers)
    requires m.crit.Building?
    ensures Reachable(m, AfterReaps(m, w))
    decreases |m.revisions|
  {
    if |m.revisions| < m.maxRevisions || m.revisions == [] {
      ReachableSelf(m);
    } else {
      var e := ReapFront(m.revisions[0].id in w.referenced);
      var n := Happen(m, e);
      if e.referenced {
        ReachableSelf(n);
      } else if w.reaps == 0 {
        ReachableSelf(Happen(n, AbortCommit));
        ReachableAfter(n, AbortCommit, Happen(n, AbortCommit));
      } else {
        ReapsReach(n, w.(reaps := w.reaps - 1));
      }
      ReachableAfter(m, e, AfterReaps(m, w));
    }
  }

  lemma {:induction false} ReapsLeaveProposals(m: Manager, w: Answers)
    requires m.crit.Building?
    ensures SameProposals(m, AfterReaps(m, w))
    decreases |m.revisions|
  {
    if m.revisions != [] && |m.revisions| >= m.maxRevisions && m.revisions[0].id !in w.referenced && w.reaps > 0 {
      ReapsLeaveProposals(Happen(m, ReapFront(false)), w.(reaps := w.reaps - 1));
    }
  }

  /** The same loop on the queue alone, and whether it gave up. */
  function QueueAfter(queue: seq<Revision>, maxRevisions: nat, w: Answers): (seq<Revision>, bool)
    decreases |queue|
  {
    if |queue| < maxRevisions || queue == [] || queue[0].id in w.referenced then (queue, true)
    else if w.reaps == 0 then (queue[1..], false)
    else QueueAfter(queue[1..], maxRevisions, w.(reaps := w.reaps - 1))
  }

  lemma {:induction false} QueueShortens(queue: seq<Revision>, maxRevisions: nat, w: Answers)
    ensures var k := Reapable(queue, maxRevisions, w.referenced);
            QueueAfter(queue, maxRevisions, w) == (queue[if k <= w.reaps then k else w.reaps + 1..], k <= w.reaps)
    decreases |queue|
  {
    if queue != [] && |queue| >= maxRevisions && queue[0].id !in w.referenced && w.reaps > 0 {
      QueueShortens(queue[1..], maxRevisions, w.(reaps := w.reaps - 1));
    }
  }

  lemma {:induction false} ReapsQueue(m: Manager, w: Answers)
    requires m.crit.Building?
    ensures var n, (queue, ok) := AfterReaps(m, w), QueueAfter(m.revisions, m.maxRevisions, w);
            n.revisions == queue && n.crit == if ok then m.crit else Free
    decreases |m.revisions|
  {
    if m.revisions != [] && |m.revisions| >= m.maxRevisions && m.revisions[0].id !in w.referenced && w.reaps > 0 {
      ReapsQueue(Happen(m, ReapFront(false)), w.(reaps := w.reaps - 1));
    }
  }

  /** The loop gives up after the last reap that is accepted, or goes on until the queue is
      short enough or its oldest revision is referenced. */
  lemma {:induction false} ReapsShorten(m: Manager, w: Answers)
    requires m.crit.Building?
    ensures var n, k := AfterReaps(m, w), Reapable(m.revisions, m.maxRevisions, w.referenced);
            && n.crit == (if k <= w.reaps then m.crit else Free)
            && n.revisions == m.revisions[if k <= w.reaps then k else w.reaps + 1..]
  {
    ReapsQueue(m, w);
    QueueShortens(m.revisions, m.maxRevisions, w);
  }

  /** The machine after `commit_critical_section`. */
  ghost function AfterCritical(m: Manager, pid: Pid, w: Answers): Manager
    requires m.crit.Free? && pid in m.table && m.revisions != []
  {
    var n := Start(m, pid);
    if w.error || !n.crit.Building? then if w.error then m else n
    else
      var r := AfterReaps(n, w);
      if !r.crit.Building? then r
      else if !w.accepts then Happen(r, AbortCommit)
      else Happen(Happen(r, PushRevision), IndexRevision)
  }

  lemma CriticalRuns(m: Manager, pid: Pid, w: Answers)
    requires Can(m, StartCommit(pid))
    ensures Reachable(m, AfterCritical(m, pid, w))
  {
    ReachableSelf(m);
    var n := Start(m, pid);
    if !w.error && n.crit.Building? {
      ReapsReach(n, w);
      ReachableAfter(m, StartCommit(pid), AfterReaps(n, w));
      var r := AfterReaps(n, w);
      if r.crit.Building? {
        if w.accepts {
          ReachableOn(m, r, PushRevision);
          ReachableOn(m, Happen(r, PushRevision), IndexRevision);
        } else {
          ReachableOn(m, r, AbortCommit);
        }
      }
    } else {
      ReachableOn(m, m, StartCommit(pid));
    }
  }

  lemma InvariantsHold(m: Manager, n: Manager)
    requires ContentsInv(m) && IndexInv(m) && Reachable(m, n)
    ensures ContentsInv(n) && IndexInv(n)
  {
    var es :| Happens(m, es) && n == Later(m, es);
    IndexRun(m, es);
  }

  lemma Installs(m: Manager)
    requires m.crit.Building?
    ensures var n := Happen(Happen(m, PushRevision), IndexRevision);
            && n.crit.Free? && n.revisions == m.revisions + [m.crit.rev]
            && Cleanup(m.crit.pid, m.crit.rev.id, Newest(n)) in n.cleanups
  {
  }

  ghost predicate Decided(m: Manager, pid: Pid, n: Manager, d: Outcome) {
    && n.crit.Free? && n.revisions == d.queue
    && (d.answer.Ok? ==> Cleanup(pid, d.answer.value, Newest(n)) in n.cleanups)
    && (!d.committed ==> n.history == m.history)
  }

  /** The end of a commit that has made room in `r`. */
  lemma RoomDecides(m: Manager, pid: Pid, w: Answers, r: Manager, p: Proposal)
    requires r.crit == Building(pid, Become(p, m.nextId)) && r.history == m.history
    ensures Decided(m, pid, Happen(r, AbortCommit), Outcome(Err(PersistError), r.revisions, false))
    ensures Decided(m, pid, Happen(Happen(r, PushRevision), IndexRevision),
                    Outcome(Ok(m.nextId), r.revisions + [Become(p, m.nextId)], true))
  {
    Installs(r);
  }

  lemma StartBuilds(m: Manager, pid: Pid)
    requires pid in m.table && m.revisions != [] && m.crit.Free? && Start(m, pid).crit.Building?
    ensures var s := Start(m, pid);
            && s.crit == Building(pid, Become(m.table[pid], m.nextId)) && s.revisions == m.revisions
            && s.history == m.history && s.maxRevisions == m.maxRevisions
  {
  }

  lemma {:induction false} BuildEnds(m: Manager, pid: Pid, w: Answers)
    requires m.crit.Free? && pid in m.table && m.revisions != [] && !w.error && Start(m, pid).crit.Building?
    ensures var r, a := AfterReaps(Start(m, pid), w), Decide(m, pid, w).answer;
            if !r.crit.Building? then AfterCritical(m, pid, w) == r && a == Err(PersistError)
            else
              && r.crit.rev == Become(m.table[pid], m.nextId)
              && if !w.accepts then AfterCritical(m, pid, w) == Happen(r, AbortCommit) && a == Err(PersistError)
                 else AfterCritical(m, pid, w) == Happen(Happen(r, PushRevision), IndexRevision) && a == Ok(m.nextId)
  {
    StartBuilds(m, pid);
    ReapsShorten(Start(m, pid), w);
  }

  lemma BuildDecides(m: Manager, pid: Pid, w: Answers)
    requires m.crit.Free? && pid in m.table && m.revisions != [] && !w.error && Start(m, pid).crit.Building?
    ensures Decided(m, pid, AfterCritical(m, pid, w), Decide(m, pid, w))
  {
    var s := Start(m, pid);
    var r := AfterReaps(s, w);
    StartBuilds(m, pid);
    ReapsShorten(s, w);
    ReapsLeaveProposals(s, w);
    if r.crit.Building? { RoomDecides(m, pid, w, r, m.table[pid]); }
  }

  /** What the critical section decides is what it does: the queue loses its reapable front
      and gains the new revision; a refused or trivial commit leaves it as it is. */
  lemma CriticalDecides(m: Manager, pid: Pid, w: Answers)
    requires m.crit.Free? && pid in m.table && m.revisions != [] && (m.aborted ==> w.error)
    ensures Decided(m, pid, AfterCritical(m, pid, w), Decide(m, pid, w))
  {
    if !w.error && Start(m, pid).crit.Building? { BuildDecides(m, pid, w); }
  }

  lemma CriticalLeavesProposals(m: Manager, pid: Pid, w: Answers)
    requires m.crit.Free? && pid in m.table && m.revisions != []
    ensures var n := AfterCritical(m, pid, w); n.table == m.table && n.tracked == m.tracked && n.strong == m.strong
  {
    if !w.error && Start(m, pid).crit.Building? { ReapsLeaveProposals(Start(m, pid), w); }
  }

  ghost predicate Kept(n: Manager, pid: Pid, d: Outcome) {
    && ContentsInv(n) && IndexInv(n) && n.crit.Free? && n.revisions == d.queue
    && (d.answer.Ok? ==> Cleanup(pid, d.answer.value, |n.history| - 1) in n.cleanups)
  }

  lemma DecidedIsKept(m: Manager, pid: Pid, n: Manager, d: Outcome)
    requires ContentsInv(m) && IndexInv(m) && Reachable(m, n) && Decided(m, pid, n, d)
    ensures Kept(n, pid, d)
  {
    InvariantsHold(m, n);
  }

  lemma CriticalKeeps(m: Manager, pid: Pid, w: Answers)
    requires ContentsInv(m) && IndexInv(m) && Can(m, StartCommit(pid)) && (m.aborted ==> w.error)
    ensures Kept(AfterCritical(m, pid, w), pid, Decide(m, pid, w))
  {
    CriticalRuns(m, pid, w);
    CriticalDecides(m, pid, w);
    DecidedIsKept(m, pid, AfterCritical(m, pid, w), Decide(m, pid, w));
  }

  /** A commit that succeeds makes the proposal's contents the latest, and the proposal was
      made on what was latest before. */
  lemma CommitIsLatest(m: Manager, pid: Pid, w: Answers)
    requires ContentsInv(m) && pid in m.table && Decide(m, pid, w).answer.Ok?
    ensures var p, queue := m.table[pid], Decide(m, pid, w).queue;
            && queue != [] && Last(queue).contents == p.contents
            && p.contents == Apply(Last(m.revisions).contents, p.ops)
            && p.base == Last(m.revisions).contents
  {
    LatestParent(m, pid);
    SuffixLast(m.revisions, m.history);
    assert ParentFits(m.table[pid], m.table, m.history);
  }

  /** The proposal was made on the revision that is the newest in the history. */
  ghost predicate OnLatest(m: Manager, pid: Pid)
    requires pid in m.table
  {
    m.table[pid].parent.Committed? && m.table[pid].baseNum == |m.history| - 1
  }

  /** The worker takes all reaps the commit asks for, and the new revision. */
  ghost predicate Room(m: Manager, w: Answers) {
    w.accepts && Reapable(m.revisions, m.maxRevisions, w.referenced) <= w.reaps
  }

  lemma LatestById(m: Manager, pid: Pid)
    requires ContentsInv(m) && pid in m.table
    ensures OnLatest(m, pid) <==> m.table[pid].parent.Committed? && m.table[pid].parent.id == Last(m.revisions).id
  {
    SuffixLast(m.revisions, m.history);
    assert ParentFits(m.table[pid], m.table, m.history);
  }

  /** What a commit answers. The worker's error comes first. A proposal that was not made on the
      latest revision is refused with its own hash and the latest one. One that changes nothing
      succeeds whatever room there is, and any other exactly if there is room. */
  lemma AnswerIsExact(m: Manager, pid: Pid, w: Answers)
    requires ContentsInv(m) && pid in m.table
    ensures var a, p, now := Decide(m, pid, w).answer, m.table[pid], Last(m.revisions);
            && (w.error ==> a == Err(PersistError))
            && (!w.error && !OnLatest(m, pid) ==> a == Err(NotLatest(RootHash(p.contents), RootHash(now.contents))))
            && (!w.error && OnLatest(m, pid) ==>
                  a == if p.contents == now.contents then Ok(now.id)
                       else if Room(m, w) then Ok(m.nextId) else Err(PersistError))
            && (a.Ok? && p.contents != now.contents ==>
                  Last(Decide(m, pid, w).queue) == Revision(m.nextId, p.contents, p.nodes, p.deleted, p.ancestors))
  {
    LatestById(m, pid);
  }

  // ---- Cleaning up ----

  lemma {:induction false} RetainSnoc(tracked: seq<Pid>, q: Pid, keep: set<Pid>)
    ensures Retain(tracked + [q], keep) == Retain(tracked, keep) + (if q in keep then [q] else [])
  {
    assert (tracked + [q])[..|tracked|] == tracked;
  }

  lemma ReparentSnoc(table: map<Pid, Proposal>, survivors: seq<Pid>, q: Pid, c: Cleanup)
    requires c.pid in table && q in table && c.pid !in survivors && q != c.pid
    ensures Reparent(table, survivors + [q], c) ==
            if table[q].parent == Proposed(c.pid)
            then Reparent(table, survivors, c)[q := table[q].(parent := Committed(RootHash(table[c.pid].contents), c.id),
                                                               baseNum := c.num)]
            else Reparent(table, survivors, c)
  {
    forall p ensures p in survivors + [q] <==> p in survivors || p == q {}
  }

  /** A proposal whose handle is dropped goes at the next cleanup; those that are still held stay,
      but for the committed one. */
  lemma DroppedIsDiscarded(m: Manager, pid: Pid, c: Cleanup, q: Pid)
    requires Can(m, DropHandle(pid)) && Can(Happen(m, DropHandle(pid)), CleanUp(c))
    ensures var n := Happen(Happen(m, DropHandle(pid)), CleanUp(c));
            q in n.tracked <==> q in m.tracked && q in m.strong && q != pid && q != c.pid
  {
  }

  /** The listed children of the committed proposal are children of its revision now, and nothing
      else about any proposal has changed. */
  ghost predicate Moved(before: map<Pid, Proposal>, after: map<Pid, Proposal>, listed: seq<Pid>, c: Cleanup) {
    && c.pid in before && after.Keys == before.Keys
    && forall q | q in before ::
         if q in listed && before[q].parent == Proposed(c.pid)
         then after[q] == before[q].(parent := Committed(RootHash(before[c.pid].contents), c.id), baseNum := c.num)
         else after[q] == before[q]
  }

  lemma CleanUpMoves(m: Manager, c: Cleanup)
    requires Can(m, CleanUp(c))
    ensures var n := Happen(m, CleanUp(c));
            && n.revisions == m.revisions && Moved(m.table, n.table, n.tracked, c)
            && forall q :: q in n.tracked <==> q in m.tracked && q in m.strong && q != c.pid
  {
  }

  lemma KeptByCleanUp(m: Manager, c: Cleanup)
    requires ContentsInv(m) && IndexInv(m) && c in m.cleanups
    ensures Can(m, CleanUp(c)) && ContentsInv(Happen(m, CleanUp(c))) && IndexInv(Happen(m, CleanUp(c)))
  {
    assert CleanupFits(c, m.table, m.history);
    ContentsKept(m, CleanUp(c));
    IndexKept(m, CleanUp(c));
  }

  /** What the index has under a hash has that hash. */
  lemma EntryContents(m: Manager, h: Hash)
    requires IndexInv(m) && h in m.byHash
    ensures m.byHash[h].contents == h.of
  {
    assert NewestWith(Shown(m), m.mode, h, m.byHash[h]);
    var k :| 0 <= k < |Shown(m)| && NewestAt(Shown(m), m.mode, h, m.byHash[h], k);
  }

  lemma OpenIsSound(mode: Mode, maxRevisions: nat, contents: Contents, nodes: set<NodeId>)
    requires 2 <= maxRevisions
    ensures var m := OpenManager(mode, maxRevisions, contents, nodes); ContentsInv(m) && IndexInv(m)
  {
    ContentsStart(mode, maxRevisions, contents, nodes);
    IndexStart(mode, maxRevisions, contents, nodes);
  }

  lemma CleanUpReached(m: Manager, n: Manager, c: Cleanup)
    requires Reachable(m, n) && ContentsInv(n) && IndexInv(n) && c in n.cleanups
    ensures Can(n, CleanUp(c)) && Reachable(m, Happen(n, CleanUp(c)))
  {
    KeptByCleanUp(n, c);
    ReachableOn(m, n, CleanUp(c));
  }

  /** The root store has each revision under its own hash. */
  ghost predicate StoreOk(store: Option<map<Hash, Revision>>) {
    store.Some? ==> forall h | h in store.value :: store.value[h].contents == h.of
  }

  class RevisionManager {
    const mode: Mode
    const maxRevisions: nat
    const rootStore: Option<map<Hash, Revision>>
    var revisions: seq<Revision>
    var byHash: map<Hash, Revision>
    var proposals: seq<Pid>
    var table: map<Pid, Proposal>
    var strong: set<Pid>
    var nextId: Id
    var latest: nat // the commit number of the last revision
    ghost var m: Manager

    /** The fields are those of the machine. */
    ghost predicate Same()
      reads this
    {
      && m.mode == mode && m.maxRevisions == maxRevisions
      && m.revisions == revisions && m.byHash == byHash && m.tracked == proposals
      && m.table == table && m.strong == strong && m.nextId == nextId && |m.history| == latest + 1
    }

    ghost predicate Valid()
      reads this
    {
      && Same() && m.crit.Free? && strong <= table.Keys && ContentsInv(m) && IndexInv(m)
      && StoreOk(rootStore)
    }

    constructor (mode: Mode, maxRevisions: nat, rootStore: Option<map<Hash, Revision>>, contents: Contents,
                 nodes: set<NodeId>)
      requires 2 <= maxRevisions
      requires StoreOk(rootStore)
      ensures Valid() && m == OpenManager(mode, maxRevisions, contents, nodes)
      ensures this.rootStore == rootStore
    {
      var first := Revision(0, contents, nodes, {}, {0});
      this.mode, this.maxRevisions, this.rootStore := mode, maxRevisions, rootStore;
      revisions := [first];
      byHash := Enter(map[], mode, first);
      proposals, table, strong, nextId, latest := [], map[], {}, 1, 0;
      ghost var start := OpenManager(mode, maxRevisions, contents, nodes);
      OpenIsSound(mode, maxRevisions, contents, nodes);
      m := start;
      new;
      assert m == start && m.mode == this.mode && m.maxRevisions == this.maxRevisions;
      assert m.revisions == revisions && m.byHash == byHash && m.tracked == proposals;
      assert m.table == table && m.strong == strong && m.nextId == nextId;
      assert |m.history| == latest + 1;
    }

    /** Takes the oldest revision off the queue and its hash out of the index; a revision that
        is still referenced goes back, but its hash does not. */
    method PopOldest(referenced: set<Id>) returns (popped: bool)
      requires Same() && Can(m, ReapFront(true))
      modifies this
      ensures popped <==> old(revisions)[0].id !in referenced
      ensures Same() && m == Happen(old(m), ReapFront(!popped))
    {
      var oldest := revisions[0];
      var h := IndexHash(mode, oldest.contents);
      revisions := revisions[1..];
      byHash := Without(byHash, h);
      popped := oldest.id !in referenced;
      if !popped { revisions := [oldest] + revisions; }
      m := Happen(m, ReapFront(!popped));
    }

    /** The loop that makes room for a new revision. */
    method ReapOld(w: Answers) returns (ok: bool)
      requires Same() && m.crit.Building?
      modifies this
      ensures Same() && m == AfterReaps(old(m), w) && ok == m.crit.Building?
    {
      var left := w.reaps;
      while revisions != [] && |revisions| >= maxRevisions
        invariant Same() && m.crit.Building?
        invariant AfterReaps(m, w.(reaps := left)) == AfterReaps(old(m), w)
        decreases |revisions|
      {
        var popped := PopOldest(w.referenced);
        if !popped {
          return true;
        }
        if left == 0 {
          m := Happen(m, AbortCommit);
          return false;
        }
        left := left - 1;
      }
      return true;
    }

    method Push(rev: Revision)
      requires Same() && m.crit.Building? && m.crit.rev == rev
      modifies this
      ensures Same() && m == Happen(old(m), PushRevision)
    {
      revisions, latest := revisions + [rev], latest + 1;
      m := Happen(m, PushRevision);
    }

    /** Puts a revision at the end of the queue and into the index. */
    method Install(rev: Revision)
      requires Same() && m.crit.Building? && m.crit.rev == rev
      modifies this
      ensures Same() && m == Happen(Happen(old(m), PushRevision), IndexRevision)
    {
      Push(rev);
      byHash := Enter(byHash, mode, rev);
      m := Happen(m, IndexRevision);
    }

    /** The new revision is made, with the next identifier. */
    method Begin(pid: Pid) returns (rev: Revision)
      requires Same() && pid in table && revisions != [] && m.crit.Free? && Start(m, pid).crit.Building?
      modifies this
      ensures Same() && m == Start(old(m), pid) && rev == Become(old(table)[pid], old(nextId))
    {
      rev := Become(table[pid], nextId);
      m, nextId := Start(m, pid), nextId + 1;
    }

    /** The part of `commit_critical_section` after its checks. */
    method Build(pid: Pid, w: Answers) returns (r: Result<Id>)
      requires Same() && m.crit.Free? && pid in table && revisions != [] && !w.error && Start(m, pid).crit.Building?
      modifies this
      ensures Same() && m == AfterCritical(old(m), pid, w) && r == Decide(old(m), pid, w).answer
    {
      BuildEnds(m, pid, w);
      var rev := Begin(pid);
      var ok := ReapOld(w);
      if !ok {
        return Err(PersistError);
      }
      if !w.accepts {
        m := Happen(m, AbortCommit);
        return Err(PersistError);
      }
      Install(rev);
      return Ok(rev.id);
    }

    /** `commit_critical_section`, as a run of the machine. */
    method Critical(pid: Pid, w: Answers) returns (r: Result<Id>)
      requires Same() && m.crit.Free? && pid in table && revisions != [] && (m.aborted ==> w.error)
      modifies this
      ensures Same() && m == AfterCritical(old(m), pid, w) && r == Decide(old(m), pid, w).answer
    {
      if w.error {
        return Err(PersistError);
      }
      var p, current := table[pid], Last(revisions);
      if !(p.parent.Committed? && p.parent.id == current.id) {
        return Err(NotLatest(RootHash(p.contents), RootHash(current.contents)));
      }
      if RootHash(p.contents) == RootHash(current.contents) {
        m := Start(m, pid);
        return Ok(current.id);
      }
      r := Build(pid, w);
    }

    /** `commit_critical_section`. */
    method CommitCriticalSection(pid: Pid, w: Answers) returns (r: Result<Id>)
      requires Valid() && pid in table && pid in strong && (m.aborted ==> w.error)
      modifies this
      ensures Valid() && m == AfterCritical(old(m), pid, w)
      ensures r == Decide(old(m), pid, w).answer && revisions == Decide(old(m), pid, w).queue
      ensures proposals == old(proposals) && table == old(table) && strong == old(strong)
      ensures r.Ok? ==> Cleanup(pid, r.value, latest) in m.cleanups
    {
      CriticalKeeps(m, pid, w);
      CriticalLeavesProposals(m, pid, w);
      r := Critical(pid, w);
    }

    /** `commit_cleanup`: drops the committed proposal and those nobody refers to from the
        list, and moves the children of the committed one onto the revision it became. */
    method CommitCleanup(c: Cleanup)
      requires Valid() && c in m.cleanups
      modifies this
      ensures Valid() && m == Happen(old(m), CleanUp(c)) && revisions == old(revisions) && latest == old(latest)
      ensures forall q :: q in proposals <==> q in old(proposals) && q in old(strong) && q != c.pid
      ensures Moved(old(table), table, proposals, c)
    {
      KeptByCleanUp(m, c);
      CleanUpMoves(m, c);
      Tidy(c);
    }

    method Tidy(c: Cleanup)
      requires Same() && Can(m, CleanUp(c)) && strong <= table.Keys
      modifies this
      ensures Same() && m == Happen(old(m), CleanUp(c))
    {
      var kept := RetainProposals(strong - {c.pid});
      ReparentAll(kept, c);
      proposals := kept;
      m := Happen(m, CleanUp(c));
    }

    /** `Vec::retain` on the proposal list. */
    method RetainProposals(keep: set<Pid>) returns (kept: seq<Pid>)
      ensures kept == Retain(proposals, keep)
    {
      kept := [];
      for i := 0 to |proposals|
        invariant kept == Retain(proposals[..i], keep)
      {
        var q := proposals[i];
        assert proposals[..i + 1] == proposals[..i] + [q];
        RetainSnoc(proposals[..i], q, keep);
        if q in keep { kept := kept + [q]; }
      }
      assert proposals[..|proposals|] == proposals;
    }

    /** The loop over `commit_reparent`. */
    method ReparentAll(survivors: seq<Pid>, c: Cleanup)
      requires c.pid in table && c.pid !in survivors && forall q | q in survivors :: q in table
      modifies this`table
      ensures table == Reparent(old(table), survivors, c)
    {
      assert table == Reparent(table, [], c);
      for i := 0 to |survivors|
        invariant table == Reparent(old(table), survivors[..i], c)
      {
        var q := survivors[i];
        assert survivors[..i + 1] == survivors[..i] + [q];
        ReparentSnoc(old(table), survivors[..i], q, c);
        if table[q].parent == Proposed(c.pid) {
          table := table[q := table[q].(parent := Committed(RootHash(table[c.pid].contents), c.id), baseNum := c.num)];
        }
      }
      assert survivors[..|survivors|] == survivors;
    }

    /** `remove_proposal`. */
    method RemoveProposal(pid: Pid)
      requires Same() && Can(m, Withdraw(pid))
      modifies this
      ensures Same() && m == Happen(old(m), Withdraw(pid))
      ensures forall q :: q in proposals <==> q in old(proposals) && q != pid
    {
      proposals := RetainProposals(Members(proposals) - {pid});
      m := Happen(m, Withdraw(pid));
    }

    /** `propose_with_parent` on a committed revision: `num` is its commit number. */
    method ProposeOnCommitted(pid: Pid, parent: Revision, num: nat, ops: seq<BatchOp>, deleted: set<NodeId>,
                              made: set<NodeId>, failed: bool) returns (r: Result<Pid>)
      requires Same() && num < |m.history| && m.history[num] == parent
      requires Can(m, ProposeOnRevision(pid, num, ops, deleted, made))
      modifies this
      ensures Same() && (r == if failed then Err(PersistError) else Ok(pid))
      ensures m == if failed then old(m) else Happen(old(m), ProposeOnRevision(pid, num, ops, deleted, made))
    {
      if failed {
        return Err(PersistError);
      }
      Track(pid, Proposal(Committed(RootHash(parent.contents), parent.id), Apply(parent.contents, ops),
                          parent.nodes - deleted + made, deleted, parent.contents, ops, num, parent.ancestors + {pid}));
      return Ok(pid);
    }

    /** `propose_with_parent` on another proposal, as `create_proposal` calls it. */
    method ProposeOnProposed(pid: Pid, parent: Pid, ops: seq<BatchOp>, deleted: set<NodeId>, made: set<NodeId>,
                             failed: bool) returns (r: Result<Pid>)
      requires Same() && Can(m, ProposeOnProposal(pid, parent, ops, deleted, made))
      modifies this
      ensures Same() && (r == if failed then Err(PersistError) else Ok(pid))
      ensures m == if failed then old(m) else Happen(old(m), ProposeOnProposal(pid, parent, ops, deleted, made))
    {
      if failed {
        return Err(PersistError);
      }
      var p := table[parent];
      Track(pid, Proposal(Proposed(parent), Apply(p.contents, ops), p.nodes - deleted + made, deleted, p.contents, ops,
                          0, p.ancestors + {pid}));
      return Ok(pid);
    }

    /** `add_proposal`. */
    method Track(pid: Pid, p: Proposal)
      requires Same()
      modifies this
      ensures Same() && m == AddProposal(old(m), pid, p)
    {
      table := table[pid := p];
      proposals := proposals + [pid];
      strong := strong + {pid};
      m := AddProposal(m, pid, p);
    }

    /** `revision`: the contents of the committed revision with this root hash. */
    method FindRevision(h: Hash) returns (r: Result<Contents>)
      requires Valid()
      ensures h in byHash || (mode.Ethereum? && h.of == map[]) || (rootStore.Some? && h in rootStore.value) ==>
                CanFind(h) && r == Ok(h.of)
      ensures h !in byHash && (mode.MerkleDb? || h.of != map[]) && (rootStore.None? || h !in rootStore.value) ==>
                !CanFind(h) && r == Err(RevisionNotFound(h))
    {
      if h in byHash {
        EntryContents(m, h);
        return Ok(byHash[h].contents);
      }
      if mode.Ethereum? && h == Hash(map[]) {
        return Ok(map[]);
      }
      if rootStore.None? || h !in rootStore.value {
        return Err(RevisionNotFound(h));
      }
      return Ok(rootStore.value[h].contents);
    }

    /** Some committed revision with this hash is in memory, is the empty one, or is stored. */
    predicate CanFind(h: Hash)
      reads this
    {
      h in byHash || (mode.Ethereum? && h == Hash(map[])) || (rootStore.Some? && h in rootStore.value)
    }

    predicate HasHash(q: Pid, h: Hash)
      reads this
    {
      q in table && RootHash(table[q].contents) == Some(h)
    }

    /** The first listed proposal with this root hash. */
    method ScanProposals(h: Hash) returns (found: Option<Pid>)
      ensures found.None? <==> forall q | q in proposals :: !HasHash(q, h)
      ensures found.Some? ==> HasHash(found.value, h) && exists i | 0 <= i < |proposals| ::
                proposals[i] == found.value && forall k | 0 <= k < i :: !HasHash(proposals[k], h)
    {
      for i := 0 to |proposals|
        invariant forall k | 0 <= k < i :: !HasHash(proposals[k], h)
      {
        if HasHash(proposals[i], h) {
          return Some(proposals[i]);
        }
      }
      return None;
    }

    /** `view`: a listed proposal with this root hash, or else the revision with it. What is
        found has that hash, and it is found whenever there is one. */
    method ViewOf(h: Hash) returns (r: Result<Contents>)
      requires Valid()
      ensures r == if CanFind(h) || exists q | q in proposals :: HasHash(q, h)
                   then Ok(h.of) else Err(RevisionNotFound(h))
    {
      var found := ScanProposals(h);
      if found.Some? {
        return Ok(table[found.value].contents);
      }
      r := FindRevision(h);
    }

    /** `commit`. When it succeeds the latest contents are the proposal's, which are its batch
        applied to what was latest, and the proposal has left the list. */
    method Commit(pid: Pid, w: Answers) returns (r: Result<Id>)
      requires Valid() && pid in table && pid in strong && (m.aborted ==> w.error)
      modifies this
      ensures Valid() && Reachable(old(m), m)
      ensures r == Decide(old(m), pid, w).answer && revisions == Decide(old(m), pid, w).queue
      ensures r.Ok? ==> forall q :: q in proposals <==> q in old(proposals) && q in old(strong) && q != pid
      ensures r.Ok? ==> Moved(old(table), table, proposals, Cleanup(pid, r.value, latest))
      ensures r.Err? ==> proposals == old(proposals) && table == old(table)
      ensures r.Ok? ==> Last(revisions).contents == Apply(Last(old(revisions)).contents, old(table)[pid].ops)
      ensures r.Ok? ==> Last(revisions).contents == old(table)[pid].contents
    {
      if Decide(m, pid, w).answer.Ok? { CommitIsLatest(m, pid, w); }
      CriticalRuns(m, pid, w);
      r := CommitCriticalSection(pid, w);
      if r.Ok? {
        ghost var start := m;
        CommitCleanup(Cleanup(pid, r.value, latest));
        CleanUpReached(old(m), start, Cleanup(pid, r.value, latest));
      }
    }
  }
}
