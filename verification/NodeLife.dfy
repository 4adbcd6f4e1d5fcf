/** Which trie nodes a committed revision can reach, over the whole history of commits.

    A commit records the nodes it took out of its parent; they are freed when the revision
    that took them out is reaped. No later revision can reach them, and no two revisions take
    out the same node.
 */
module NodeLife {
  import opened DiffMap
  import opened Manager
  import opened Updates

  ghost predicate Owned(ns: set<NodeId>, ps: set<Pid>) {
    forall x | x in ns :: x.owner in ps
  }

  /** `ns` has nothing that the first commits, up to number `num`, took out. */
  ghost predicate Clear(ns: set<NodeId>, history: seq<Revision>, num: nat) {
    forall j | 0 <= j < |history| && j <= num :: ns !! history[j].deleted
  }

  ghost predicate RevisionNodes(r: Revision, settled: set<Pid>) {
    Owned(r.nodes, r.ancestors) && Owned(r.deleted, r.ancestors) && r.ancestors <= settled
  }

  ghost predicate HistoryNodes(history: seq<Revision>, settled: set<Pid>) {
    && (forall i | 0 <= i < |history| :: RevisionNodes(history[i], settled))
    && (forall i | 0 <= i < |history| :: Clear(history[i].nodes, history, i))
    && (forall i | 0 < i < |history| :: Clear(history[i].deleted, history, i - 1))
  }

  ghost predicate ProposalNodes(pid: Pid, p: Proposal, table: map<Pid, Proposal>, history: seq<Revision>,
                                settled: set<Pid>) {
    && Owned(p.nodes, p.ancestors) && Owned(p.deleted, p.ancestors)
    && p.nodes !! p.deleted
    && p.ancestors <= table.Keys + {0}
    && match p.parent
       case Committed(_, _) =>
         && Clear(p.nodes, history, p.baseNum) && Clear(p.deleted, history, p.baseNum)
         && p.ancestors <= settled + {pid}
       case Proposed(q) =>
         && q in table
         && p.deleted <= table[q].nodes
         && (forall x | x in p.nodes :: x in table[q].nodes || x.owner == pid)
         && p.ancestors <= table[q].ancestors + {pid}
         && pid !in settled
  }

  ghost predicate TableNodes(table: map<Pid, Proposal>, history: seq<Revision>, settled: set<Pid>) {
    && settled <= table.Keys + {0}
    && forall pid | pid in table :: ProposalNodes(pid, table[pid], table, history, settled)
  }

  ghost predicate CleanupNodes(cs: set<Cleanup>, table: map<Pid, Proposal>, history: seq<Revision>, settled: set<Pid>) {
    forall c | c in cs ::
      && c.pid in table && c.pid in settled && table[c.pid].ancestors <= settled
      && Clear(table[c.pid].nodes, history, c.num)
  }

  ghost predicate NodesInv(m: Manager) {
    && HistoryNodes(m.history, m.settled)
    && TableNodes(m.table, m.history, m.settled)
    && CleanupNodes(m.cleanups, m.table, m.history, m.settled)
    && (m.crit.Queued? ==> m.crit.pid in m.settled && m.crit.pid in m.table && m.table[m.crit.pid].ancestors <= m.settled)
  }

  // ---- Proposing ----

  /** A new proposal's own nodes are unlike all others. */
  lemma MadeIsClear(pid: Pid, made: set<NodeId>, m: Manager, num: nat)
    requires NodesInv(m) && pid !in m.table && pid != 0 && (forall x | x in made :: x.owner == pid)
    ensures Clear(made, m.history, num)
  {
    forall j | 0 <= j < |m.history| && j <= num ensures made !! m.history[j].deleted {
      assert RevisionNodes(m.history[j], m.settled);
    }
  }

  lemma AddNodes(m: Manager, pid: Pid, p: Proposal)
    requires NodesInv(m) && pid !in m.table && pid != 0
    requires ProposalNodes(pid, p, m.table[pid := p], m.history, m.settled)
    ensures NodesInv(AddProposal(m, pid, p))
  {
    var t := m.table[pid := p];
    forall q | q in t ensures ProposalNodes(q, t[q], t, m.history, m.settled) {
      if q != pid { assert ProposalNodes(q, m.table[q], m.table, m.history, m.settled); }
    }
  }

  lemma ProposeOnRevisionNodes(m: Manager, e: Event)
    requires NodesInv(m) && Can(m, e) && e.ProposeOnRevision?
    ensures NodesInv(Happen(m, e))
  {
    var r := m.history[e.num];
    var p := Happen(m, e).table[e.pid];
    MadeIsClear(e.pid, e.made, m, e.num);
    assert RevisionNodes(r, m.settled) && Clear(r.nodes, m.history, e.num);
    AddNodes(m, e.pid, p);
  }

  lemma ProposeOnProposalNodes(m: Manager, e: Event)
    requires NodesInv(m) && Can(m, e) && e.ProposeOnProposal?
    ensures NodesInv(Happen(m, e))
  {
    var p := Happen(m, e).table[e.pid];
    assert ProposalNodes(e.on, m.table[e.on], m.table, m.history, m.settled);
    AddNodes(m, e.pid, p);
  }

  // ---- Committing ----

  lemma {:induction false} SettleNodes(table: map<Pid, Proposal>, history: seq<Revision>, settled: set<Pid>, pid: Pid)
    requires TableNodes(table, history, settled) && pid in table && table[pid].parent.Committed?
    ensures TableNodes(table, history, settled + {pid})
  {
    forall q | q in table ensures ProposalNodes(q, table[q], table, history, settled + {pid}) {
      assert ProposalNodes(q, table[q], table, history, settled);
    }
  }

  /** A proposal on the latest revision that is settled at once. */
  lemma TrivialNodes(m: Manager, pid: Pid, id: Id)
    requires NodesInv(m) && pid in m.table && m.table[pid].parent.Committed? && m.table[pid].baseNum == |m.history| - 1
    ensures HistoryNodes(m.history, m.settled + {pid}) && TableNodes(m.table, m.history, m.settled + {pid})
    ensures CleanupNodes(m.cleanups + {Cleanup(pid, id, Newest(m))}, m.table, m.history, m.settled + {pid})
  {
    assert ProposalNodes(pid, m.table[pid], m.table, m.history, m.settled);
    SettleNodes(m.table, m.history, m.settled, pid);
    SettleHistory(m.history, m.settled, pid);
    SettleCleanup(m.cleanups, m.table, m.history, m.settled, Cleanup(pid, id, Newest(m)));
  }

  lemma StartSettles(m: Manager, pid: Pid)
    requires Can(m, StartCommit(pid))
    ensures var n, p, id := Happen(m, StartCommit(pid)), m.table[pid], Last(m.revisions).id;
            && n.history == m.history && n.table == m.table && !n.crit.Queued?
            && ((n.settled == m.settled && n.cleanups == m.cleanups) ||
                (&& p.parent.Committed? && p.parent.id == id && n.settled == m.settled + {pid}
                 && n.cleanups == m.cleanups + {Cleanup(pid, id, Newest(m))}))
  {
  }

  lemma StartNodes(m: Manager, pid: Pid)
    requires Can(m, StartCommit(pid)) && ContentsInv(m) && NodesInv(m)
    ensures NodesInv(Happen(m, StartCommit(pid)))
  {
    var p := m.table[pid];
    StartSettles(m, pid);
    if p.parent.Committed? && p.parent.id == Last(m.revisions).id {
      LatestParent(m, pid);
      TrivialNodes(m, pid, p.parent.id);
    }
  }

  lemma SettleCleanup(cs: set<Cleanup>, table: map<Pid, Proposal>, history: seq<Revision>, settled: set<Pid>,
                      c: Cleanup)
    requires CleanupNodes(cs, table, history, settled)
    requires c.pid in table && table[c.pid].ancestors <= settled + {c.pid} && Clear(table[c.pid].nodes, history, c.num)
    ensures CleanupNodes(cs + {c}, table, history, settled + {c.pid})
  {
  }

  lemma SettleHistory(history: seq<Revision>, settled: set<Pid>, pid: Pid)
    requires HistoryNodes(history, settled)
    ensures HistoryNodes(history, settled + {pid})
  {
    forall i | 0 <= i < |history| ensures RevisionNodes(history[i], settled + {pid}) {
      assert RevisionNodes(history[i], settled);
    }
  }

  lemma ClearPush(ns: set<NodeId>, history: seq<Revision>, rev: Revision, num: nat)
    requires Clear(ns, history, num) && num < |history|
    ensures Clear(ns, history + [rev], num)
  {
  }

  /** The new revision reaches nothing that it or any earlier commit took out, and takes out
      nothing that was taken out before. */
  lemma PushHistory(history: seq<Revision>, settled: set<Pid>, rev: Revision)
    requires HistoryNodes(history, settled) && history != []
    requires RevisionNodes(rev, settled) && rev.nodes !! rev.deleted
    requires Clear(rev.nodes, history, |history| - 1) && Clear(rev.deleted, history, |history| - 1)
    ensures HistoryNodes(history + [rev], settled)
  {
    var h := history + [rev];
    forall i | 0 <= i < |h| ensures Clear(h[i].nodes, h, i) {
      if i < |history| { assert Clear(history[i].nodes, history, i); }
    }
    forall i | 0 < i < |h| ensures Clear(h[i].deleted, h, i - 1) {
      if i < |history| { assert Clear(history[i].deleted, history, i - 1); }
    }
    forall i | 0 <= i < |h| ensures RevisionNodes(h[i], settled) {
      if i < |history| { assert RevisionNodes(history[i], settled); }
    }
  }

  lemma PushTable(table: map<Pid, Proposal>, history: seq<Revision>, settled: set<Pid>, rev: Revision)
    requires TableNodes(table, history, settled) && ParentsFit(table, history)
    ensures TableNodes(table, history + [rev], settled)
  {
    forall q | q in table ensures ProposalNodes(q, table[q], table, history + [rev], settled) {
      var p := table[q];
      assert ProposalNodes(q, p, table, history, settled) && ParentFits(p, table, history);
      if p.parent.Committed? {
        ClearPush(p.nodes, history, rev, p.baseNum);
        ClearPush(p.deleted, history, rev, p.baseNum);
      }
    }
  }

  lemma PushCleanups(cs: set<Cleanup>, table: map<Pid, Proposal>, history: seq<Revision>, settled: set<Pid>,
                     pid: Pid, rev: Revision)
    requires CleanupNodes(cs, table, history, settled) && CleanupsFit(cs, table, history)
    ensures CleanupNodes(cs, table, history + [rev], settled + {pid})
  {
    forall c | c in cs ensures Clear(table[c.pid].nodes, history + [rev], c.num) {
      assert CleanupFits(c, table, history);
      ClearPush(table[c.pid].nodes, history, rev, c.num);
    }
  }

  lemma PushNodes(m: Manager)
    requires ContentsInv(m) && NodesInv(m) && Can(m, PushRevision)
    ensures NodesInv(Happen(m, PushRevision))
  {
    var pid, rev := m.crit.pid, m.crit.rev;
    assert ProposalNodes(pid, m.table[pid], m.table, m.history, m.settled);
    SettleHistory(m.history, m.settled, pid);
    SettleNodes(m.table, m.history, m.settled, pid);
    PushHistory(m.history, m.settled + {pid}, rev);
    PushTable(m.table, m.history, m.settled + {pid}, rev);
    PushCleanups(m.cleanups, m.table, m.history, m.settled, pid, rev);
  }

  lemma IndexNodes(m: Manager)
    requires ContentsInv(m) && NodesInv(m) && Can(m, IndexRevision)
    ensures NodesInv(Happen(m, IndexRevision))
  {
    assert Clear(Last(m.history).nodes, m.history, |m.history| - 1);
  }

  // ---- Cleaning up ----

  /** A child of a settled proposal has only nodes of that proposal and its own, so it can
      stand on the revision the proposal lives in. */
  lemma ReparentNodes(m: Manager, c: Cleanup)
    requires NodesInv(m) && CleanupsFit(m.cleanups, m.table, m.history) && Can(m, CleanUp(c))
    ensures TableNodes(Happen(m, CleanUp(c)).table, m.history, m.settled)
  {
    var survivors := Retain(m.tracked, m.strong - {c.pid});
    var t := Reparent(m.table, survivors, c);
    forall q | q in t ensures ProposalNodes(q, t[q], t, m.history, m.settled) { ReparentOne(m, c, survivors, q); }
  }

  lemma ReparentOne(m: Manager, c: Cleanup, survivors: seq<Pid>, q: Pid)
    requires NodesInv(m) && c in m.cleanups && c.pid in m.table && q in m.table
    ensures var t := Reparent(m.table, survivors, c); ProposalNodes(q, t[q], t, m.history, m.settled)
  {
    assert ProposalNodes(q, m.table[q], m.table, m.history, m.settled);
    if m.table[q].parent == Proposed(c.pid) { ChildIsClear(m, c, q); }
  }

  lemma ChildIsClear(m: Manager, c: Cleanup, q: Pid)
    requires NodesInv(m) && c in m.cleanups && q in m.table && m.table[q].parent == Proposed(c.pid)
    ensures Clear(m.table[q].nodes, m.history, c.num) && Clear(m.table[q].deleted, m.history, c.num)
    ensures m.table[q].ancestors <= m.settled + {q}
  {
    var p := m.table[q];
    assert ProposalNodes(q, p, m.table, m.history, m.settled);
    forall j | 0 <= j < |m.history| && j <= c.num
      ensures p.nodes !! m.history[j].deleted && p.deleted !! m.history[j].deleted
    {
      assert RevisionNodes(m.history[j], m.settled);
      assert m.table[c.pid].nodes !! m.history[j].deleted;
    }
  }

  lemma CleanUpNodes(m: Manager, c: Cleanup)
    requires ContentsInv(m) && NodesInv(m) && Can(m, CleanUp(c))
    ensures NodesInv(Happen(m, CleanUp(c)))
  {
    ReparentNodes(m, c);
    ReparentCleanupNodes(m.cleanups - {c}, m.table, m.history, m.settled, Retain(m.tracked, m.strong - {c.pid}), c);
  }

  lemma ReparentCleanupNodes(cs: set<Cleanup>, table: map<Pid, Proposal>, history: seq<Revision>, settled: set<Pid>,
                             survivors: seq<Pid>, c: Cleanup)
    requires CleanupNodes(cs, table, history, settled) && c.pid in table
    ensures CleanupNodes(cs, Reparent(table, survivors, c), history, settled)
  {
  }

  lemma NodesKept(m: Manager, e: Event)
    requires ContentsInv(m) && NodesInv(m) && Can(m, e)
    ensures NodesInv(Happen(m, e))
  {
    match e {
      case ProposeOnRevision(_, _, _, _, _) => ProposeOnRevisionNodes(m, e);
      case ProposeOnProposal(_, _, _, _, _) => ProposeOnProposalNodes(m, e);
      case StartCommit(pid) => StartNodes(m, pid);
      case PushRevision => PushNodes(m);
      case IndexRevision => IndexNodes(m);
      case CleanUp(c) => CleanUpNodes(m, c);
      case _ =>
    }
  }

  lemma NodesStart(mode: Mode, maxRevisions: nat, contents: Contents, nodes: set<NodeId>)
    requires Owned(nodes, {0})
    ensures NodesInv(OpenManager(mode, maxRevisions, contents, nodes))
  {
  }
}
