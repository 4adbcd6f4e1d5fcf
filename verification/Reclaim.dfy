/** What becomes of every node that was ever committed, over the whole write path: the revision
    manager and the persist worker together.

    A node that no queued revision has any more was taken out by a commit. It is freed when that
    commit's revision is reaped, unless an absorbed proposal took it out, and then never.
 */
module Reclaim {
  import opened DiffMap
  import opened NodeLife
  import opened Database
  import Persist
  import L = Lifecycle
  import M = Manager
  import K = Leaks

  ghost predicate ReclaimInv(d: Db) {
    DbInv(d) && K.LeakInv(d.m) && L.Complete(d.l)
  }

  lemma ReapLeaks(d: Db)
    requires ReclaimInv(d) && Can(d, Reap)
    ensures K.LeakInv(Happen(d, Reap).m)
  {
    var r := M.ReapFront(L.Referenced(d.l, d.l.front));
    K.LeaksKept(d.m, r);
    ManagerStep(d.m, r);
    K.LeaksKept(M.Happen(d.m, r), M.AbortCommit);
  }

  lemma LeaksKept(d: Db, e: Event)
    requires ReclaimInv(d) && Can(d, e)
    ensures K.LeakInv(Happen(d, e).m)
  {
    match e {
      case Commit(pid) => K.LeaksKept(d.m, M.StartCommit(pid));
      case Reap => ReapLeaks(d);
      case Submit =>
        K.LeaksKept(d.m, M.PushRevision);
        K.LeaksKept(d.m, M.AbortCommit);
      case Aside(a) => K.LeaksKept(d.m, a);
      case _ =>
    }
  }

  lemma CompleteKept(d: Db, e: Event)
    requires ReclaimInv(d) && Can(d, e)
    ensures L.Complete(Happen(d, e).l)
  {
    match e {
      case Commit(pid) => L.CompleteKept(d.l, L.Begin);
      case Reap => L.CompleteKept(d.l, L.ReapOldest);
      case ReapEnd => L.CompleteKept(d.l, L.ReapEnd);
      case Submit => L.CompleteKept(d.l, L.Submit);
      case Aside(_) =>
      case Elsewhere(f) => L.CompleteKept(d.l, f);
    }
  }

  lemma {:induction false} ReclaimRun(d: Db, es: seq<Event>)
    requires ReclaimInv(d) && Happens(d, es)
    ensures ReclaimInv(Later(d, es)) && Later(d, es).l.cfg == d.l.cfg
    decreases |es|
  {
    if es != [] {
      SidesKept(d, es[0]);
      LinkedKept(d, es[0]);
      LeaksKept(d, es[0]);
      CompleteKept(d, es[0]);
      ReclaimRun(Happen(d, es[0]), es[1..]);
    }
  }

  lemma ReclaimStart(c: L.Config, mode: M.Mode, contents: Contents, nodes: set<M.NodeId>)
    requires L.Accepted(c) && Owned(nodes, {0})
    ensures var d := OpenDb(c, mode, contents, nodes); ReclaimInv(d) && d.l.cfg == c
  {
    DbStart(c, mode, contents, nodes);
    L.CompleteStarts(c);
    K.LeaksStart(mode, c.maxRevisions, contents, nodes);
  }

  lemma {:induction false} ReclaimHolds(c: L.Config, mode: M.Mode, contents: Contents, nodes: set<M.NodeId>,
                                        es: seq<Event>)
    requires L.Accepted(c) && Owned(nodes, {0}) && Happens(OpenDb(c, mode, contents, nodes), es)
    ensures var d := Later(OpenDb(c, mode, contents, nodes), es); ReclaimInv(d) && d.l.cfg == c
  {
    ReclaimStart(c, mode, contents, nodes);
    ReclaimRun(OpenDb(c, mode, contents, nodes), es);
  }

  // ---- Following a node ----

  ghost predicate Queued(d: Db, x: M.NodeId) {
    exists r | r in d.m.revisions :: x in r.nodes
  }

  /** The oldest queued revision will free it when it is reaped. */
  ghost predicate Next(d: Db, x: M.NodeId) {
    d.m.revisions != [] && x in d.m.revisions[0].deleted
  }

  ghost predicate FreedAmong(d: Db, ns: seq<nat>, x: M.NodeId) {
    exists n | n in ns :: x in FreedBy(d, n)
  }

  /** A commit whose revision is no newer than the oldest in the queue has lost it. */
  ghost predicate LostBefore(d: Db, x: M.NodeId) {
    exists i | 0 < i <= d.l.front && i < |d.m.history| :: x in K.Lost(d.m, i)
  }

  /** No absorbed proposal took anything out. */
  ghost predicate AbsorbedKeptAll(m: M.Manager) {
    forall q | q in m.absorbed && q in m.table :: m.table[q].deleted == {}
  }

  /** From revision `j` on, until a commit takes the node out or the queue is reached. */
  lemma {:induction false} FollowNode(d: Db, x: M.NodeId, j: nat)
    requires j < |d.m.history| && x in d.m.history[j].nodes && DbInv(d)
    ensures Queued(d, x) || Next(d, x) || FreedAmong(d, L.UpTo(d.l.front), x) || LostBefore(d, x)
    decreases |d.m.history| - j
  {
    if j >= d.l.front {
      assert d.m.revisions[j - d.l.front] == d.m.history[j];
    } else if x in d.m.history[j + 1].nodes {
      FollowNode(d, x, j + 1);
    } else if x !in d.m.history[j + 1].deleted {
      assert x in K.Lost(d.m, j + 1);
    } else if j + 1 == d.l.front {
      assert d.m.revisions[0] == d.m.history[j + 1];
    } else {
      L.UpToAt(d.l.front, j + 1);
      assert j + 1 in L.UpTo(d.l.front) && x in FreedBy(d, j + 1);
    }
  }

  lemma NoneLost(d: Db, x: M.NodeId)
    requires K.LeakInv(d.m) && AbsorbedKeptAll(d.m)
    ensures !LostBefore(d, x)
  {
    forall i | 0 < i < |d.m.history| ensures x !in K.Lost(d.m, i) { K.LossAt(d.m, i); }
  }

  lemma NodeIsAccounted(d: Db, x: M.NodeId, j: nat)
    requires j < |d.m.history| && x in d.m.history[j].nodes
    requires !d.l.cfg.archival && !Persist.Failed(d.l.w) && ReclaimInv(d)
    ensures Queued(d, x) || Next(d, x) || FreedAmong(d, d.l.w.freed + L.Waiting(d.l.w), x) || LostBefore(d, x)
    ensures d.l.w.bg.Parked? ==> L.Waiting(d.l.w) == []
    ensures AbsorbedKeptAll(d.m) ==> !LostBefore(d, x)
  {
    FollowNode(d, x, j);
    if AbsorbedKeptAll(d.m) { NoneLost(d, x); }
  }

  /** In every run that is not archival and in which nothing failed, every node ever committed is
      in a queued revision, is freed when the oldest one of the queue is reaped, is freed already
      or waits in the worker to be, or was lost to an absorbed proposal; and when the worker
      sleeps nothing waits. */
  lemma {:induction false} EveryNodeIsAccounted(c: L.Config, mode: M.Mode, contents: Contents, nodes: set<M.NodeId>,
                                                es: seq<Event>,
                                                j: nat, x: M.NodeId)
    requires L.Accepted(c) && !c.archival && Owned(nodes, {0}) && Happens(OpenDb(c, mode, contents, nodes), es)
    requires var d := Later(OpenDb(c, mode, contents, nodes), es);
             !Persist.Failed(d.l.w) && j < |d.m.history| && x in d.m.history[j].nodes
    ensures var d := Later(OpenDb(c, mode, contents, nodes), es);
            && (Queued(d, x) || Next(d, x) || FreedAmong(d, d.l.w.freed + L.Waiting(d.l.w), x) || LostBefore(d, x))
            && (d.l.w.bg.Parked? ==> L.Waiting(d.l.w) == [])
            && (AbsorbedKeptAll(d.m) ==> !LostBefore(d, x))
  {
    ReclaimHolds(c, mode, contents, nodes, es);
    NodeIsAccounted(Later(OpenDb(c, mode, contents, nodes), es), x, j);
  }

  /** An archival database frees nothing. */
  lemma {:induction false} ArchivalFreesNothing(c: L.Config, mode: M.Mode, contents: Contents, nodes: set<M.NodeId>,
                                                es: seq<Event>)
    requires L.Accepted(c) && c.archival && Owned(nodes, {0}) && Happens(OpenDb(c, mode, contents, nodes), es)
    ensures var d := Later(OpenDb(c, mode, contents, nodes), es);
            d.l.w.freed == [] && L.Waiting(d.l.w) == []
  {
    ReclaimHolds(c, mode, contents, nodes, es);
  }
}
