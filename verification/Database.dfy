/** The whole write path: the revision manager (`firewood/src/manager.rs`) and the persist
    worker (`firewood/src/persist_worker.rs`) running together, with the readers.

    Every event moves the manager, the queue-and-worker side, or both at once. The theorem is
    what the reference-counted garbage collection of the database rests on: reaping a revision
    frees the nodes that were taken out to make it, and nobody can reach those any more.
 */
module Database {
  import opened DiffMap
  import opened Updates
  import opened NodeLife
  import Persist
  import L = Lifecycle
  import M = Manager

  datatype Db = Db(l: L.Life, m: M.Manager)

  function OpenDb(c: L.Config, mode: M.Mode, contents: Contents, nodes: set<M.NodeId>): Db
    requires c.gap > 0
  {
    Db(L.Opened(c), M.OpenManager(mode, c.maxRevisions, contents, nodes))
  }

  datatype Event =
    | Commit(pid: M.Pid)
    | Reap
    | ReapEnd
    | Submit
    | Aside(e: M.Event)
    | Elsewhere(f: L.Event)

  /** What the manager does on its own: proposals, the index and the cleanup. */
  predicate ManagerOnly(e: M.Event) {
    !e.StartCommit? && !e.ReapFront? && !e.PushRevision? && !e.AbortCommit?
  }

  /** The background thread, the readers and the owner that closes the database. */
  predicate WorkerOnly(f: L.Event) {
    f.Thread? || f.Hold? || f.Unhold? || f.Close?
  }

  ghost predicate Can(d: Db, e: Event) {
    match e
    case Commit(pid) => L.Can(d.l, L.Begin) && M.Can(d.m, M.StartCommit(pid))
    case Reap => L.Can(d.l, L.ReapOldest) && M.Can(d.m, M.ReapFront(L.Referenced(d.l, d.l.front)))
    case ReapEnd => L.Can(d.l, L.ReapEnd)
    case Submit => L.Can(d.l, L.Submit) && M.Can(d.m, M.PushRevision)
    case Aside(a) => ManagerOnly(a) && M.Can(d.m, a)
    case Elsewhere(f) => WorkerOnly(f) && L.Can(d.l, f)
  }

  function Happen(d: Db, e: Event): Db
    requires Can(d, e)
  {
    match e
    case Commit(pid) =>
      var m := M.Happen(d.m, M.StartCommit(pid));
      Db(if m.crit.Building? then L.Happen(d.l, L.Begin) else d.l, m)
    case Reap =>
      var l, m := L.Happen(d.l, L.ReapOldest), M.Happen(d.m, M.ReapFront(L.Referenced(d.l, d.l.front)));
      Db(l, if l.phase.Idle? then M.Happen(m, M.AbortCommit) else m)
    case ReapEnd => d.(l := L.Happen(d.l, L.ReapEnd))
    case Submit =>
      var l := L.Happen(d.l, L.Submit);
      Db(l, if l.phase.Submitting? then d.m
            else if d.l.w.ch.shutdown then M.Happen(d.m, M.AbortCommit)
            else M.Happen(d.m, M.PushRevision))
    case Aside(a) => d.(m := M.Happen(d.m, a))
    case Elsewhere(f) => d.(l := L.Happen(d.l, f))
  }

  ghost predicate Happens(d: Db, es: seq<Event>)
    decreases |es|
  {
    es == [] || (Can(d, es[0]) && Happens(Happen(d, es[0]), es[1..]))
  }

  ghost function Later(d: Db, es: seq<Event>): Db
    requires Happens(d, es)
    decreases |es|
  {
    if es == [] then d else Later(Happen(d, es[0]), es[1..])
  }

  // ---- The two sides agree ----

  /** Both sides see the same queue, and a commit is in its critical section on both or on
      neither. */
  ghost predicate Linked(d: Db) {
    && |d.m.history| == d.l.w.pushed + 1
    && |d.m.history| == d.l.front + |d.m.revisions|
    && d.m.maxRevisions == d.l.cfg.maxRevisions
    && (d.m.crit.Building? <==> !d.l.phase.Idle?)
    && d.l.w.disk <= d.l.w.pushed
  }

  ghost predicate DbInv(d: Db) {
    L.Accepted(d.l.cfg) && L.LifeInv(d.l) && ContentsInv(d.m) && NodesInv(d.m) && Linked(d)
  }

  lemma LifeStep(l: L.Life, f: L.Event)
    requires L.Accepted(l.cfg) && L.LifeInv(l) && L.Can(l, f)
    ensures L.LifeInv(L.Happen(l, f)) && L.Happen(l, f).cfg == l.cfg
  {
    L.ShapeKept(l, f);
    L.GoneKept(l, f);
    L.CoveredKept(l, f);
  }

  lemma ManagerStep(m: M.Manager, e: M.Event)
    requires ContentsInv(m) && NodesInv(m) && M.Can(m, e)
    ensures ContentsInv(M.Happen(m, e)) && NodesInv(M.Happen(m, e))
  {
    ContentsKept(m, e);
    NodesKept(m, e);
  }

  lemma DiskStaysBehind(w: Persist.Worker, a: Persist.Step)
    requires Persist.WorkerInv(w) && Persist.Enabled(w, a) && w.disk <= w.pushed
    ensures Persist.Do(w, a).disk <= Persist.Do(w, a).pushed
  {
    Persist.StepAdvances(w, a);
  }

  lemma ElsewhereLinked(d: Db, f: L.Event)
    requires Linked(d) && L.LifeInv(d.l) && Can(d, Elsewhere(f))
    ensures Linked(Happen(d, Elsewhere(f)))
  {
    match f {
      case Thread(a) => DiskStaysBehind(d.l.w, a);
      case _ =>
    }
  }

  lemma AsideLinked(d: Db, a: M.Event)
    requires Linked(d) && Can(d, Aside(a))
    ensures Linked(Happen(d, Aside(a)))
  {
  }

  lemma CommitLinked(d: Db, pid: M.Pid)
    requires Linked(d) && Can(d, Commit(pid))
    ensures Linked(Happen(d, Commit(pid)))
  {
  }

  lemma ReapLinked(d: Db)
    requires Linked(d) && Can(d, Reap)
    ensures Linked(Happen(d, Reap))
  {
  }

  lemma SubmitLinked(d: Db)
    requires Linked(d) && Can(d, Submit)
    ensures Linked(Happen(d, Submit))
  {
  }

  lemma LinkedKept(d: Db, e: Event)
    requires Linked(d) && L.LifeInv(d.l) && Can(d, e)
    ensures Linked(Happen(d, e))
  {
    match e {
      case Commit(pid) => CommitLinked(d, pid);
      case Reap => ReapLinked(d);
      case ReapEnd =>
      case Submit => SubmitLinked(d);
      case Aside(a) => AsideLinked(d, a);
      case Elsewhere(f) => ElsewhereLinked(d, f);
    }
  }

  lemma ReapSides(d: Db)
    requires DbInv(d) && Can(d, Reap)
    ensures var n := Happen(d, Reap); L.LifeInv(n.l) && n.l.cfg == d.l.cfg && ContentsInv(n.m) && NodesInv(n.m)
  {
    LifeStep(d.l, L.ReapOldest);
    var r := M.ReapFront(L.Referenced(d.l, d.l.front));
    ManagerStep(d.m, r);
    ManagerStep(M.Happen(d.m, r), M.AbortCommit);
  }

  lemma SubmitSides(d: Db)
    requires DbInv(d) && Can(d, Submit)
    ensures var n := Happen(d, Submit); L.LifeInv(n.l) && n.l.cfg == d.l.cfg && ContentsInv(n.m) && NodesInv(n.m)
  {
    LifeStep(d.l, L.Submit);
    ManagerStep(d.m, M.PushRevision);
    ManagerStep(d.m, M.AbortCommit);
  }

  lemma SidesKept(d: Db, e: Event)
    requires DbInv(d) && Can(d, e)
    ensures var n := Happen(d, e); L.LifeInv(n.l) && n.l.cfg == d.l.cfg && ContentsInv(n.m) && NodesInv(n.m)
  {
    match e {
      case Commit(pid) =>
        LifeStep(d.l, L.Begin);
        ManagerStep(d.m, M.StartCommit(pid));
      case Reap => ReapSides(d);
      case ReapEnd => LifeStep(d.l, L.ReapEnd);
      case Submit => SubmitSides(d);
      case Aside(a) => ManagerStep(d.m, a);
      case Elsewhere(f) => LifeStep(d.l, f);
    }
  }

  lemma {:induction false} DbRun(d: Db, es: seq<Event>)
    requires DbInv(d) && Happens(d, es)
    ensures DbInv(Later(d, es))
    decreases |es|
  {
    if es != [] {
      SidesKept(d, es[0]);
      LinkedKept(d, es[0]);
      DbRun(Happen(d, es[0]), es[1..]);
    }
  }

  lemma DbStart(c: L.Config, mode: M.Mode, contents: Contents, nodes: set<M.NodeId>)
    requires L.Accepted(c) && Owned(nodes, {0})
    ensures DbInv(OpenDb(c, mode, contents, nodes))
  {
    L.LifeStarts(c);
    ContentsStart(mode, c.maxRevisions, contents, nodes);
    NodesStart(mode, c.maxRevisions, contents, nodes);
  }

  // ---- What reaping frees ----

  /** `reap_deleted` on revision `n` frees the nodes taken out to make it. */
  ghost function FreedBy(d: Db, n: nat): set<M.NodeId> {
    if n < |d.m.history| then d.m.history[n].deleted else {}
  }

  ghost predicate NoneFreed(d: Db, ns: set<M.NodeId>) {
    forall n | n in d.l.w.freed :: ns !! FreedBy(d, n)
  }

  lemma NewerIsIntact(d: Db, i: nat)
    requires HistoryNodes(d.m.history, d.m.settled) && i < |d.m.history| && L.AllAtMost(d.l.w.freed, i)
    ensures NoneFreed(d, d.m.history[i].nodes)
  {
    assert Clear(d.m.history[i].nodes, d.m.history, i);
  }

  /** A proposal made on a revision still in the queue. */
  ghost predicate Current(d: Db, p: M.Proposal) {
    p.parent.Committed? && d.l.front <= p.baseNum < |d.m.history|
  }

  lemma CurrentIsIntact(d: Db, pid: M.Pid)
    requires L.Gone(d.l) && TableNodes(d.m.table, d.m.history, d.m.settled)
    requires pid in d.m.table && Current(d, d.m.table[pid])
    ensures NoneFreed(d, d.m.table[pid].nodes)
  {
    L.FreedIsReaped(d.l);
    assert ProposalNodes(pid, d.m.table[pid], d.m.table, d.m.history, d.m.settled);
    assert Clear(d.m.table[pid].nodes, d.m.history, d.m.table[pid].baseNum);
  }

  ghost predicate QueuedIntact(d: Db) {
    forall r | r in d.m.revisions :: NoneFreed(d, r.nodes)
  }

  ghost predicate HeldIntact(d: Db) {
    forall n | n in d.l.held :: n < |d.m.history| && NoneFreed(d, d.m.history[n].nodes)
  }

  ghost predicate DiskIntact(d: Db) {
    d.l.w.disk < |d.m.history| && NoneFreed(d, d.m.history[d.l.w.disk].nodes)
  }

  /** Each proposal of the chain was made on the next, and the last on a queued revision. */
  ghost predicate Chain(d: Db, pids: seq<M.Pid>) {
    && pids != [] && (forall pid | pid in pids :: pid in d.m.table)
    && Current(d, d.m.table[pids[|pids| - 1]])
    && forall i | 0 <= i < |pids| - 1 :: d.m.table[pids[i]].parent == M.Proposed(pids[i + 1])
  }

  ghost predicate ProposalsIntact(d: Db) {
    forall pids | Chain(d, pids) :: NoneFreed(d, d.m.table[pids[0]].nodes)
  }

  lemma QueueIsIntact(d: Db)
    requires DbInv(d)
    ensures QueuedIntact(d)
  {
    L.FreedIsReaped(d.l);
    forall r | r in d.m.revisions ensures NoneFreed(d, r.nodes) {
      var k :| 0 <= k < |d.m.revisions| && d.m.revisions[k] == r;
      NewerIsIntact(d, d.l.front + k);
    }
  }

  lemma ReadersAreIntact(d: Db)
    requires DbInv(d)
    ensures HeldIntact(d)
  {
    L.FreedIsReaped(d.l);
    forall n | n in d.l.held ensures n < |d.m.history| && NoneFreed(d, d.m.history[n].nodes) { NewerIsIntact(d, n); }
  }

  /** A proposal on a proposal has its parent's nodes and its own, and no commit has taken out
      any of its own. */
  lemma ChildIsIntact(d: Db, pid: M.Pid)
    requires HistoryNodes(d.m.history, d.m.settled) && TableNodes(d.m.table, d.m.history, d.m.settled)
    requires pid in d.m.table && d.m.table[pid].parent.Proposed? && d.m.table[pid].parent.pid in d.m.table
    requires NoneFreed(d, d.m.table[d.m.table[pid].parent.pid].nodes)
    ensures NoneFreed(d, d.m.table[pid].nodes)
  {
    assert ProposalNodes(pid, d.m.table[pid], d.m.table, d.m.history, d.m.settled);
    forall n | n in d.l.w.freed ensures d.m.table[pid].nodes !! FreedBy(d, n) {
      if n < |d.m.history| { assert RevisionNodes(d.m.history[n], d.m.settled); }
    }
  }

  lemma {:induction false} ChainIsIntact(d: Db, pids: seq<M.Pid>)
    requires DbInv(d) && Chain(d, pids)
    ensures NoneFreed(d, d.m.table[pids[0]].nodes)
    decreases |pids|
  {
    if |pids| == 1 {
      CurrentIsIntact(d, pids[0]);
    } else {
      ChainTail(d, pids);
      ChainIsIntact(d, pids[1..]);
      ChildIsIntact(d, pids[0]);
    }
  }

  lemma ChainTail(d: Db, pids: seq<M.Pid>)
    requires Chain(d, pids) && |pids| > 1
    ensures Chain(d, pids[1..]) && pids[1..][0] == pids[1]
    ensures d.m.table[pids[0]].parent == M.Proposed(pids[1])
  {
    assert pids[0] in pids && pids[1] in pids;
    var rest := pids[1..];
    assert forall i | 0 <= i < |rest| :: rest[i] == pids[i + 1];
    assert forall pid | pid in rest :: pid in pids;
  }

  lemma ProposalsAreIntact(d: Db)
    requires DbInv(d)
    ensures ProposalsIntact(d)
  {
    forall pids | Chain(d, pids) ensures NoneFreed(d, d.m.table[pids[0]].nodes) { ChainIsIntact(d, pids); }
  }

  /** In every run of an accepted configuration, whatever fails on the way, no freed node can
      be reached from a queued revision, from a revision that a reader holds, from the root on
      disk or from a proposal made on a queued revision, directly or through other proposals. */
  lemma {:induction false} FreedIsUnreachable(c: L.Config, mode: M.Mode, contents: Contents, nodes: set<M.NodeId>,
                                              es: seq<Event>)
    requires L.Accepted(c) && Owned(nodes, {0}) && Happens(OpenDb(c, mode, contents, nodes), es)
    ensures var d := Later(OpenDb(c, mode, contents, nodes), es);
            QueuedIntact(d) && HeldIntact(d) && DiskIntact(d) && ProposalsIntact(d)
  {
    DbStart(c, mode, contents, nodes);
    DbRun(OpenDb(c, mode, contents, nodes), es);
    var d := Later(OpenDb(c, mode, contents, nodes), es);
    QueueIsIntact(d);
    ReadersAreIntact(d);
    NewerIsIntact(d, d.l.w.disk);
    ProposalsAreIntact(d);
  }

  /** No node is freed twice. */
  lemma {:induction false} FreedOnce(c: L.Config, mode: M.Mode, contents: Contents, nodes: set<M.NodeId>,
                                     es: seq<Event>)
    requires L.Accepted(c) && Owned(nodes, {0}) && Happens(OpenDb(c, mode, contents, nodes), es)
    ensures var d := Later(OpenDb(c, mode, contents, nodes), es);
            forall i, j | 0 <= i < j < |d.l.w.freed| :: FreedBy(d, d.l.w.freed[i]) !! FreedBy(d, d.l.w.freed[j])
  {
    DbStart(c, mode, contents, nodes);
    DbRun(OpenDb(c, mode, contents, nodes), es);
    var d := Later(OpenDb(c, mode, contents, nodes), es);
    L.FreedIsReaped(d.l);
    forall i, j | 0 <= i < j < |d.l.w.freed|
      ensures FreedBy(d, d.l.w.freed[i]) !! FreedBy(d, d.l.w.freed[j])
    {
      var a, b := d.l.w.freed[i], d.l.w.freed[j];
      if b < |d.m.history| { assert Clear(d.m.history[b].deleted, d.m.history, b - 1); }
    }
  }
}
