/** No lost updates: every commit builds on the contents of the revision that was latest, so
    the latest contents are the committed batches applied in commit order. */
module Updates {
  import opened Diff
  import opened DiffMap
  import opened Manager

  /** A proposal is its batch applied to what its parent holds, and its parent holds it still. */
  ghost predicate ParentFits(p: Proposal, table: map<Pid, Proposal>, history: seq<Revision>) {
    && p.contents == Apply(p.base, p.ops)
    && match p.parent
       case Committed(h, id) =>
         && p.baseNum < |history|
         && history[p.baseNum].id == id
         && history[p.baseNum].contents == p.base
         && h == RootHash(p.base)
       case Proposed(q) => q in table && table[q].contents == p.base
  }

  ghost predicate ParentsFit(table: map<Pid, Proposal>, history: seq<Revision>) {
    forall pid | pid in table :: ParentFits(table[pid], table, history)
  }

  /** A cleanup names the revision its proposal lives in now. */
  ghost predicate CleanupFits(c: Cleanup, table: map<Pid, Proposal>, history: seq<Revision>) {
    && c.pid in table && c.num < |history|
    && history[c.num].id == c.id && history[c.num].contents == table[c.pid].contents
  }

  ghost predicate CleanupsFit(cs: set<Cleanup>, table: map<Pid, Proposal>, history: seq<Revision>) {
    forall c | c in cs :: CleanupFits(c, table, history)
  }

  /** The commit under way is of a child of the latest revision. */
  ghost predicate CriticalFits(crit: Critical, table: map<Pid, Proposal>, history: seq<Revision>) {
    match crit
    case Free => true
    case Building(pid, rev) =>
      && pid in table && rev == Become(table[pid], rev.id)
      && table[pid].parent.Committed? && table[pid].baseNum == |history| - 1
    case Queued(pid, rev) => pid in table && rev == Become(table[pid], rev.id) && history != [] && Last(history) == rev
  }

  function Fold(c: Contents, batches: seq<seq<BatchOp>>): Contents {
    if batches == [] then c else Apply(Fold(c, batches[..|batches| - 1]), Last(batches))
  }

  ghost predicate Folded(history: seq<Revision>, commits: seq<seq<BatchOp>>) {
    history != [] && Last(history).contents == Fold(history[0].contents, commits)
  }

  ghost predicate ContentsInv(m: Manager) {
    && QueueOk(m) && IdsOrdered(m)
    && ParentsFit(m.table, m.history)
    && CleanupsFit(m.cleanups, m.table, m.history)
    && CriticalFits(m.crit, m.table, m.history)
    && Folded(m.history, m.commits)
  }

  lemma {:induction false} FoldPush(c: Contents, batches: seq<seq<BatchOp>>, ops: seq<BatchOp>)
    ensures Fold(c, batches + [ops]) == Apply(Fold(c, batches), ops)
  {
    assert (batches + [ops])[..|batches|] == batches;
  }

  lemma {:induction false} FoldedPush(history: seq<Revision>, commits: seq<seq<BatchOp>>, rev: Revision,
                                      ops: seq<BatchOp>)
    requires Folded(history, commits) && rev.contents == Apply(Last(history).contents, ops)
    ensures Folded(history + [rev], commits + [ops])
  {
    FoldPush(history[0].contents, commits, ops);
  }

  lemma AddCleanup(cs: set<Cleanup>, table: map<Pid, Proposal>, history: seq<Revision>, c: Cleanup)
    requires CleanupsFit(cs, table, history) && CleanupFits(c, table, history)
    ensures CleanupsFit(cs + {c}, table, history)
  {
  }

  /** A proposal whose parent has the latest id was built on the latest contents. */
  lemma LatestParent(m: Manager, pid: Pid)
    requires QueueOk(m) && IdsOrdered(m) && ParentsFit(m.table, m.history) && pid in m.table
    requires m.table[pid].parent.Committed? && m.table[pid].parent.id == Last(m.revisions).id
    ensures m.table[pid].baseNum == |m.history| - 1
    ensures m.table[pid].base == Last(m.history).contents
  {
    SuffixLast(m.revisions, m.history);
    assert ParentFits(m.table[pid], m.table, m.history);
  }

  lemma HashIsContents(a: Contents, b: Contents)
    requires RootHash(a) == RootHash(b)
    ensures a == b
  {
  }

  // ---- Proposing ----

  lemma AddFits(table: map<Pid, Proposal>, history: seq<Revision>, pid: Pid, p: Proposal)
    requires ParentsFit(table, history) && pid !in table && ParentFits(p, table, history)
    ensures ParentsFit(table[pid := p], history)
  {
    var t := table[pid := p];
    forall q | q in t ensures ParentFits(t[q], t, history) {
      if q != pid { assert ParentFits(table[q], table, history); }
    }
  }

  lemma AddCleanupsFit(cs: set<Cleanup>, table: map<Pid, Proposal>, history: seq<Revision>, pid: Pid, p: Proposal)
    requires CleanupsFit(cs, table, history) && pid !in table
    ensures CleanupsFit(cs, table[pid := p], history)
  {
    forall c | c in cs ensures CleanupFits(c, table[pid := p], history) { assert CleanupFits(c, table, history); }
  }

  lemma AddCriticalFits(crit: Critical, table: map<Pid, Proposal>, history: seq<Revision>, pid: Pid, p: Proposal)
    requires CriticalFits(crit, table, history) && pid !in table
    ensures CriticalFits(crit, table[pid := p], history)
  {
  }

  lemma ProposeKeeps(m: Manager, e: Event)
    requires ContentsInv(m) && Can(m, e) && (e.ProposeOnRevision? || e.ProposeOnProposal?)
    ensures ContentsInv(Happen(m, e))
  {
    QueueKept(m, e);
    IdsKept(m, e);
    var p := Happen(m, e).table[e.pid];
    AddFits(m.table, m.history, e.pid, p);
    AddCleanupsFit(m.cleanups, m.table, m.history, e.pid, p);
    AddCriticalFits(m.crit, m.table, m.history, e.pid, p);
  }

  // ---- Committing ----

  /** A commit of what is latest anyway counts as a batch that changes nothing. */
  lemma TrivialFolds(m: Manager, pid: Pid)
    requires ParentsFit(m.table, m.history) && Folded(m.history, m.commits) && pid in m.table
    requires m.table[pid].base == Last(m.history).contents
    requires RootHash(m.table[pid].contents) == RootHash(Last(m.history).contents)
    ensures Folded(m.history, m.commits + [m.table[pid].ops])
    ensures m.table[pid].contents == Last(m.history).contents
  {
    HashIsContents(m.table[pid].contents, Last(m.history).contents);
    FoldPush(m.history[0].contents, m.commits, m.table[pid].ops);
    assert ParentFits(m.table[pid], m.table, m.history);
  }

  lemma StartTrivial(m: Manager, pid: Pid)
    requires ContentsInv(m) && pid in m.table && m.table[pid].base == Last(m.history).contents
    requires RootHash(m.table[pid].contents) == RootHash(Last(m.history).contents)
    ensures Folded(m.history, m.commits + [m.table[pid].ops])
    ensures CleanupsFit(m.cleanups + {Cleanup(pid, Last(m.history).id, Newest(m))}, m.table, m.history)
  {
    TrivialFolds(m, pid);
    AddCleanup(m.cleanups, m.table, m.history, Cleanup(pid, Last(m.history).id, Newest(m)));
  }

  lemma StartKeeps(m: Manager, pid: Pid)
    requires Can(m, StartCommit(pid)) && ContentsInv(m)
    ensures ContentsInv(Happen(m, StartCommit(pid)))
  {
    IdsKept(m, StartCommit(pid));
    var p, current := m.table[pid], Last(m.revisions);
    SuffixLast(m.revisions, m.history);
    if p.parent.Committed? && p.parent.id == current.id {
      LatestParent(m, pid);
      if RootHash(p.contents) == RootHash(current.contents) { StartTrivial(m, pid); }
    }
  }

  lemma PushFits(table: map<Pid, Proposal>, history: seq<Revision>, rev: Revision)
    requires ParentsFit(table, history)
    ensures ParentsFit(table, history + [rev])
  {
    forall q | q in table ensures ParentFits(table[q], table, history + [rev]) {
      assert ParentFits(table[q], table, history);
    }
  }

  lemma PushCleanupsFit(cs: set<Cleanup>, table: map<Pid, Proposal>, history: seq<Revision>, rev: Revision)
    requires CleanupsFit(cs, table, history)
    ensures CleanupsFit(cs, table, history + [rev])
  {
    forall c | c in cs ensures CleanupFits(c, table, history + [rev]) { assert CleanupFits(c, table, history); }
  }

  /** The commit under way holds its batch applied to the latest contents. */
  lemma BuildsOnLatest(m: Manager)
    requires ParentsFit(m.table, m.history) && CriticalFits(m.crit, m.table, m.history)
    requires m.crit.Building? && m.history != []
    ensures m.crit.rev.contents == Apply(Last(m.history).contents, m.table[m.crit.pid].ops)
  {
    assert ParentFits(m.table[m.crit.pid], m.table, m.history);
  }

  lemma PushKeeps(m: Manager)
    requires ContentsInv(m) && Can(m, PushRevision)
    ensures ContentsInv(Happen(m, PushRevision))
  {
    QueueKept(m, PushRevision);
    IdsKept(m, PushRevision);
    PushFits(m.table, m.history, m.crit.rev);
    PushCleanupsFit(m.cleanups, m.table, m.history, m.crit.rev);
    BuildsOnLatest(m);
    FoldedPush(m.history, m.commits, m.crit.rev, m.table[m.crit.pid].ops);
  }

  lemma IndexKeeps(m: Manager)
    requires ContentsInv(m) && Can(m, IndexRevision)
    ensures ContentsInv(Happen(m, IndexRevision))
  {
    QueueKept(m, IndexRevision);
    IdsKept(m, IndexRevision);
    IndexCleanup(m.crit, m.table, m.history);
    AddCleanup(m.cleanups, m.table, m.history, Cleanup(m.crit.pid, m.crit.rev.id, Newest(m)));
  }

  lemma IndexCleanup(crit: Critical, table: map<Pid, Proposal>, history: seq<Revision>)
    requires CriticalFits(crit, table, history) && crit.Queued?
    ensures CleanupFits(Cleanup(crit.pid, crit.rev.id, |history| - 1), table, history)
  {
  }

  // ---- Cleaning up ----

  lemma ReparentFits(table: map<Pid, Proposal>, history: seq<Revision>, survivors: seq<Pid>, c: Cleanup)
    requires ParentsFit(table, history) && CleanupFits(c, table, history)
    ensures ParentsFit(Reparent(table, survivors, c), history)
  {
    var t := Reparent(table, survivors, c);
    forall q | q in t ensures ParentFits(t[q], t, history) { assert ParentFits(table[q], table, history); }
  }

  lemma ReparentCleanupsFit(cs: set<Cleanup>, table: map<Pid, Proposal>, history: seq<Revision>,
                            survivors: seq<Pid>, c: Cleanup)
    requires CleanupsFit(cs, table, history) && c.pid in table
    ensures CleanupsFit(cs, Reparent(table, survivors, c), history)
  {
    forall d | d in cs ensures CleanupFits(d, Reparent(table, survivors, c), history) {
      assert CleanupFits(d, table, history);
    }
  }

  lemma CleanUpKeeps(m: Manager, c: Cleanup)
    requires ContentsInv(m) && Can(m, CleanUp(c))
    ensures ContentsInv(Happen(m, CleanUp(c)))
  {
    var survivors := Retain(m.tracked, m.strong - {c.pid});
    ReparentFits(m.table, m.history, survivors, c);
    ReparentCleanupsFit(m.cleanups - {c}, m.table, m.history, survivors, c);
  }

  lemma ContentsKept(m: Manager, e: Event)
    requires ContentsInv(m) && Can(m, e)
    ensures ContentsInv(Happen(m, e))
  {
    match e {
      case ProposeOnRevision(_, _, _, _, _) => ProposeKeeps(m, e);
      case ProposeOnProposal(_, _, _, _, _) => ProposeKeeps(m, e);
      case StartCommit(pid) => StartKeeps(m, pid);
      case PushRevision => PushKeeps(m);
      case IndexRevision => IndexKeeps(m);
      case CleanUp(c) => CleanUpKeeps(m, c);
      case _ =>
        QueueKept(m, e);
        IdsKept(m, e);
    }
  }

  lemma ContentsStart(mode: Mode, maxRevisions: nat, contents: Contents, nodes: set<NodeId>)
    requires 2 <= maxRevisions
    ensures ContentsInv(OpenManager(mode, maxRevisions, contents, nodes))
  {
  }

  lemma {:induction false} ContentsRun(m: Manager, es: seq<Event>)
    requires ContentsInv(m) && Happens(m, es)
    ensures ContentsInv(Later(m, es)) && Later(m, es).history[0] == m.history[0]
    decreases |es|
  {
    if es != [] {
      ContentsKept(m, es[0]);
      FirstStays(m, es[0]);
      ContentsRun(Happen(m, es[0]), es[1..]);
    }
  }

  lemma FirstStays(m: Manager, e: Event)
    requires m.history != [] && Can(m, e)
    ensures Happen(m, e).history != [] && Happen(m, e).history[0] == m.history[0]
  {
  }

  /** Over any interleaving of proposals, commits and cleanups, the latest contents are what
      the database was opened with and then the committed batches, in commit order. */
  lemma {:induction false} NoLostUpdates(mode: Mode, maxRevisions: nat, contents: Contents, nodes: set<NodeId>,
                                         es: seq<Event>)
    requires 2 <= maxRevisions && Happens(OpenManager(mode, maxRevisions, contents, nodes), es)
    ensures var m := Later(OpenManager(mode, maxRevisions, contents, nodes), es);
            && m.revisions != []
            && Last(m.revisions).contents == Fold(contents, m.commits)
            && (m.crit.Building? ==>
                  m.crit.pid in m.table && m.crit.rev.contents == Apply(Last(m.revisions).contents, m.table[m.crit.pid].ops))
  {
    ContentsStart(mode, maxRevisions, contents, nodes);
    ContentsRun(OpenManager(mode, maxRevisions, contents, nodes), es);
    var m := Later(OpenManager(mode, maxRevisions, contents, nodes), es);
    SuffixLast(m.revisions, m.history);
    if m.crit.Building? { BuildsOnLatest(m); }
  }

  /** A commit is taken up exactly when the proposal's parent is the latest revision, and then
      the proposal was built on the latest contents; one that is refused changes nothing. */
  lemma CommitBuildsOnLatest(m: Manager, pid: Pid)
    requires ContentsInv(m) && Can(m, StartCommit(pid)) && !m.aborted
    ensures var n, p := Happen(m, StartCommit(pid)), m.table[pid];
            && n.revisions == m.revisions && n.byHash == m.byHash && n.history == m.history
            && (n != m <==> p.parent.Committed? && p.parent.id == Last(m.revisions).id)
            && (n != m ==> p.contents == Apply(Last(m.revisions).contents, p.ops))
            && (n != m && n.crit.Free? ==> p.contents == Last(m.revisions).contents)
  {
    SuffixLast(m.revisions, m.history);
    var p := m.table[pid];
    if p.parent.Committed? && p.parent.id == Last(m.revisions).id {
      LatestParent(m, pid);
      assert ParentFits(p, m.table, m.history);
      if RootHash(p.contents) == RootHash(Last(m.revisions).contents) {
        HashIsContents(p.contents, Last(m.revisions).contents);
        assert |Happen(m, StartCommit(pid)).commits| == |m.commits| + 1;
      }
    }
  }

  lemma ChildIsReparented(m: Manager, c: Cleanup, q: Pid)
    requires CleanupsFit(m.cleanups, m.table, m.history) && ParentsFit(m.table, m.history) && Can(m, CleanUp(c))
    requires q in m.table && q != c.pid && q in m.tracked && q in m.strong && m.table[q].parent == Proposed(c.pid)
    ensures var p := Happen(m, CleanUp(c)).table[q];
            && p.parent == Committed(RootHash(m.table[c.pid].contents), c.id)
            && p.contents == Apply(m.history[c.num].contents, m.table[q].ops)
  {
    assert CleanupFits(c, m.table, m.history) && ParentFits(m.table[q], m.table, m.history);
  }

  lemma CleanUpLeavesQueue(m: Manager, c: Cleanup)
    requires Can(m, CleanUp(c))
    ensures var n := Happen(m, CleanUp(c));
            n.revisions == m.revisions && n.history == m.history && n.strong == m.strong && n.crit == m.crit &&
            n.aborted == m.aborted && n.table.Keys == m.table.Keys
  {
  }

  /** A tracked child of a committed proposal becomes a child of the revision the proposal
      lives in; if that is still the latest one, the child can be committed next. */
  lemma ChildFollowsParent(m: Manager, c: Cleanup, q: Pid)
    requires ContentsInv(m) && Can(m, CleanUp(c)) && q in m.table && q != c.pid
    requires q in m.tracked && q in m.strong && m.table[q].parent == Proposed(c.pid)
    ensures var n := Happen(m, CleanUp(c));
            && n.table[q].parent == Committed(RootHash(m.table[c.pid].contents), c.id)
            && n.table[q].contents == Apply(m.history[c.num].contents, m.table[q].ops)
            && (c.num == |m.history| - 1 && m.crit.Free? && !m.aborted ==>
                  Can(n, StartCommit(q)) && Happen(n, StartCommit(q)) != n)
  {
    var n := Happen(m, CleanUp(c));
    ChildIsReparented(m, c, q);
    CleanUpLeavesQueue(m, c);
    if c.num == |m.history| - 1 && m.crit.Free? && !m.aborted {
      assert CleanupFits(c, m.table, m.history);
      SuffixLast(m.revisions, m.history);
      CleanUpKeeps(m, c);
      CommitBuildsOnLatest(n, q);
    }
  }
}
