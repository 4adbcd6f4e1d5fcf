/** Where the nodes of a committed revision go: each is kept by the next revision, on its delete
    list, or lost, and lost are exactly those that an absorbed proposal took out.

    A commit whose contents are the latest anyway is absorbed: it makes no revision, and the
    nodes it took out are on no revision's delete list. A child of such a proposal is moved onto
    the latest revision, which still has those nodes.
 */
module Leaks {
  import opened Sequences
  import opened Nibbles
  import opened Trie
  import opened Diff
  import opened DiffMap
  import opened Manager
  import opened Updates
  import opened NodeLife

  /** A revision is the proposal it was made from. */
  ghost predicate IsProposal(r: Revision, p: Proposal) {
    r.contents == p.contents && r.nodes == p.nodes && r.deleted == p.deleted
  }

  ghost predicate MadeFrom(history: seq<Revision>, origins: seq<Pid>, table: map<Pid, Proposal>) {
    && |origins| == |history|
    && forall i | 0 < i < |history| :: origins[i] in table && IsProposal(history[i], table[origins[i]])
  }

  /** What was below is kept, taken out, or was taken out by an absorbed proposal in between. */
  ghost predicate Covered(below: set<NodeId>, kept: set<NodeId>, deleted: set<NodeId>, skipped: set<NodeId>) {
    below <= kept + deleted + skipped && skipped !! kept + deleted
  }

  ghost predicate ProposalCovered(pid: Pid, table: map<Pid, Proposal>, history: seq<Revision>,
                                  skipped: map<Pid, set<NodeId>>)
    requires pid in table
  {
    var p := table[pid];
    && pid in skipped
    && match p.parent
       case Committed(_, _) => p.baseNum < |history| && Covered(history[p.baseNum].nodes, p.nodes, p.deleted, skipped[pid])
       case Proposed(q) => q in table && Covered(table[q].nodes, p.nodes, p.deleted, {}) && skipped[pid] == {}
  }

  /** Skipped nodes were taken out by absorbed proposals. */
  ghost predicate SkippedKnown(ns: set<NodeId>, absorbed: set<Pid>, table: map<Pid, Proposal>, settled: set<Pid>) {
    Owned(ns, settled) && forall x | x in ns :: exists q | q in absorbed && q in table :: x in table[q].deleted
  }

  ghost predicate TableCovered(table: map<Pid, Proposal>, history: seq<Revision>, skipped: map<Pid, set<NodeId>>) {
    forall pid | pid in table :: ProposalCovered(pid, table, history, skipped)
  }

  ghost predicate AllKnown(skipped: map<Pid, set<NodeId>>, absorbed: set<Pid>, table: map<Pid, Proposal>,
                           settled: set<Pid>) {
    forall pid | pid in skipped :: SkippedKnown(skipped[pid], absorbed, table, settled)
  }

  ghost predicate HistoryCovered(history: seq<Revision>, origins: seq<Pid>, skipped: map<Pid, set<NodeId>>) {
    && |origins| == |history|
    && forall i | 0 < i < |history| ::
         origins[i] in skipped && Covered(history[i - 1].nodes, history[i].nodes, history[i].deleted, skipped[origins[i]])
  }

  /** A proposal a revision was made from stays where it is, on the revision before. */
  ghost predicate OriginsFixed(origins: seq<Pid>, table: map<Pid, Proposal>) {
    forall i | 0 < i < |origins| ::
      origins[i] in table && table[origins[i]].parent.Committed? && table[origins[i]].baseNum == i - 1
  }

  ghost predicate AbsorbedFit(absorbed: set<Pid>, table: map<Pid, Proposal>, history: seq<Revision>) {
    forall pid | pid in absorbed ::
      && pid in table && table[pid].parent.Committed? && table[pid].baseNum < |history|
      && table[pid].contents == history[table[pid].baseNum].contents
  }

  ghost predicate CleanupCovered(c: Cleanup, table: map<Pid, Proposal>, history: seq<Revision>, absorbed: set<Pid>) {
    && c.pid in table && table[c.pid].parent.Committed? && c.num < |history|
    && if c.pid in absorbed then table[c.pid].baseNum == c.num
       else table[c.pid].baseNum < c.num && history[c.num].nodes == table[c.pid].nodes
  }

  ghost predicate CleanupsCovered(cs: set<Cleanup>, table: map<Pid, Proposal>, history: seq<Revision>,
                                  absorbed: set<Pid>) {
    forall c | c in cs :: CleanupCovered(c, table, history, absorbed)
  }

  ghost predicate CriticalCovered(crit: Critical, table: map<Pid, Proposal>, history: seq<Revision>,
                                  absorbed: set<Pid>) {
    match crit
    case Free => true
    case Building(pid, rev) =>
      && pid in table && pid !in absorbed && table[pid].parent.Committed? && table[pid].baseNum == |history| - 1
      && IsProposal(rev, table[pid])
    case Queued(pid, rev) =>
      && pid in table && pid !in absorbed && table[pid].parent.Committed? && table[pid].baseNum < |history| - 1
      && |history| > 0 && history[|history| - 1].nodes == table[pid].nodes
  }

  ghost predicate LeakInv(m: Manager) {
    && MadeFrom(m.history, m.origins, m.table)
    && TableCovered(m.table, m.history, m.skipped)
    && AllKnown(m.skipped, m.absorbed, m.table, m.settled)
    && HistoryCovered(m.history, m.origins, m.skipped)
    && OriginsFixed(m.origins, m.table)
    && AbsorbedFit(m.absorbed, m.table, m.history)
    && CleanupsCovered(m.cleanups, m.table, m.history, m.absorbed)
    && CriticalCovered(m.crit, m.table, m.history, m.absorbed)
  }

  // ---- Proposing ----

  lemma AddCovered(m: Manager, pid: Pid, p: Proposal)
    requires LeakInv(m) && pid !in m.table
    requires ProposalCovered(pid, m.table[pid := p], m.history, m.skipped[pid := {}])
    ensures TableCovered(m.table[pid := p], m.history, m.skipped[pid := {}])
  {
    var t := m.table[pid := p];
    forall q | q in t ensures ProposalCovered(q, t, m.history, m.skipped[pid := {}]) {
      if q != pid { assert ProposalCovered(q, m.table, m.history, m.skipped); }
    }
  }

  lemma AddKnown(m: Manager, pid: Pid, p: Proposal)
    requires AllKnown(m.skipped, m.absorbed, m.table, m.settled) && pid !in m.table
    ensures AllKnown(m.skipped[pid := {}], m.absorbed, m.table[pid := p], m.settled)
  {
    var t, s := m.table[pid := p], m.skipped[pid := {}];
    forall q | q in s ensures SkippedKnown(s[q], m.absorbed, t, m.settled) {
      if q != pid { KnownInLarger(m.skipped[q], m.absorbed, m.table, m.settled, t); }
    }
  }

  lemma KnownInLarger(ns: set<NodeId>, absorbed: set<Pid>, table: map<Pid, Proposal>, settled: set<Pid>,
                      larger: map<Pid, Proposal>)
    requires SkippedKnown(ns, absorbed, table, settled)
    requires forall q | q in table :: q in larger && larger[q].deleted == table[q].deleted
    ensures SkippedKnown(ns, absorbed, larger, settled)
  {
    forall x | x in ns ensures exists q | q in absorbed && q in larger :: x in larger[q].deleted {
      var q :| q in absorbed && q in table && x in table[q].deleted;
      assert q in larger && x in larger[q].deleted;
    }
  }

  lemma AddHistory(m: Manager, pid: Pid, p: Proposal)
    requires LeakInv(m) && pid !in m.table
    ensures MadeFrom(m.history, m.origins, m.table[pid := p]) && OriginsFixed(m.origins, m.table[pid := p])
    ensures HistoryCovered(m.history, m.origins, m.skipped[pid := {}])
  {
  }

  lemma AddRest(m: Manager, pid: Pid, p: Proposal)
    requires LeakInv(m) && pid !in m.table
    ensures var t := m.table[pid := p];
            && AbsorbedFit(m.absorbed, t, m.history)
            && CleanupsCovered(m.cleanups, t, m.history, m.absorbed)
            && CriticalCovered(m.crit, t, m.history, m.absorbed)
  {
    forall c | c in m.cleanups ensures CleanupCovered(c, m.table[pid := p], m.history, m.absorbed) {
      assert CleanupCovered(c, m.table, m.history, m.absorbed);
    }
  }

  lemma ProposeLeaks(m: Manager, e: Event)
    requires LeakInv(m) && Can(m, e) && (e.ProposeOnRevision? || e.ProposeOnProposal?)
    ensures LeakInv(Happen(m, e))
  {
    var p := Happen(m, e).table[e.pid];
    AddCovered(m, e.pid, p);
    AddKnown(m, e.pid, p);
    AddHistory(m, e.pid, p);
    AddRest(m, e.pid, p);
  }

  // ---- Committing ----

  lemma AbsorbedMore(ns: set<NodeId>, absorbed: set<Pid>, table: map<Pid, Proposal>, settled: set<Pid>, pid: Pid)
    requires SkippedKnown(ns, absorbed, table, settled)
    ensures SkippedKnown(ns, absorbed + {pid}, table, settled + {pid})
    ensures SkippedKnown(ns, absorbed, table, settled + {pid})
  {
    forall x | x in ns ensures exists q | q in absorbed + {pid} && q in table :: x in table[q].deleted {
      var q :| q in absorbed && q in table && x in table[q].deleted;
      assert q in absorbed + {pid};
    }
  }

  lemma SettleKnown(skipped: map<Pid, set<NodeId>>, absorbed: set<Pid>, table: map<Pid, Proposal>, settled: set<Pid>,
                    pid: Pid)
    requires AllKnown(skipped, absorbed, table, settled)
    ensures AllKnown(skipped, absorbed + {pid}, table, settled + {pid})
    ensures AllKnown(skipped, absorbed, table, settled + {pid})
  {
    forall q | q in skipped
      ensures SkippedKnown(skipped[q], absorbed + {pid}, table, settled + {pid})
      ensures SkippedKnown(skipped[q], absorbed, table, settled + {pid})
    {
      AbsorbedMore(skipped[q], absorbed, table, settled, pid);
    }
  }

  /** A proposal on the latest revision has no cleanup of its own commit waiting. */
  lemma AbsorbCleanups(m: Manager, pid: Pid, id: Id)
    requires CleanupsCovered(m.cleanups, m.table, m.history, m.absorbed) && m.history != []
    requires pid in m.table && m.table[pid].parent.Committed? && m.table[pid].baseNum == |m.history| - 1
    ensures CleanupsCovered(m.cleanups + {Cleanup(pid, id, Newest(m))}, m.table, m.history, m.absorbed + {pid})
  {
    forall c | c in m.cleanups ensures CleanupCovered(c, m.table, m.history, m.absorbed + {pid}) {
      assert CleanupCovered(c, m.table, m.history, m.absorbed);
    }
  }

  lemma AbsorbedMoreFit(absorbed: set<Pid>, table: map<Pid, Proposal>, history: seq<Revision>, pid: Pid)
    requires AbsorbedFit(absorbed, table, history) && history != [] && pid in table
    requires table[pid].parent.Committed? && table[pid].baseNum == |history| - 1
    requires table[pid].contents == history[|history| - 1].contents
    ensures AbsorbedFit(absorbed + {pid}, table, history)
  {
  }

  lemma AbsorbFields(m: Manager, pid: Pid)
    requires Can(m, StartCommit(pid)) && !m.aborted && m.table[pid].parent.Committed?
    requires m.table[pid].parent.id == Last(m.revisions).id && m.table[pid].contents == Last(m.revisions).contents
    ensures var n := Happen(m, StartCommit(pid));
            && n.history == m.history && n.table == m.table && n.skipped == m.skipped && n.origins == m.origins
            && n.crit == m.crit && n.settled == m.settled + {pid} && n.absorbed == m.absorbed + {pid}
            && n.cleanups == m.cleanups + {Cleanup(pid, Last(m.revisions).id, Newest(m))}
  {
  }

  lemma AbsorbLeaks(m: Manager, pid: Pid)
    requires Can(m, StartCommit(pid)) && !m.aborted && m.table[pid].parent.Committed?
    requires m.table[pid].parent.id == Last(m.revisions).id && m.table[pid].contents == Last(m.revisions).contents
    requires ContentsInv(m) && LeakInv(m)
    ensures LeakInv(Happen(m, StartCommit(pid)))
  {
    SuffixLast(m.revisions, m.history);
    LatestParent(m, pid);
    AbsorbFields(m, pid);
    SettleKnown(m.skipped, m.absorbed, m.table, m.settled, pid);
    AbsorbCleanups(m, pid, Last(m.revisions).id);
    AbsorbedMoreFit(m.absorbed, m.table, m.history, pid);
  }

  lemma StartFields(m: Manager, pid: Pid)
    requires Can(m, StartCommit(pid))
    requires m.aborted || !m.table[pid].parent.Committed? || m.table[pid].parent.id != Last(m.revisions).id ||
             RootHash(m.table[pid].contents) != RootHash(Last(m.revisions).contents)
    ensures var n := Happen(m, StartCommit(pid));
            && n.history == m.history && n.table == m.table && n.skipped == m.skipped && n.origins == m.origins
            && n.settled == m.settled && n.absorbed == m.absorbed && n.cleanups == m.cleanups
            && (n.crit == m.crit ||
                (&& n.crit == Building(pid, Become(m.table[pid], m.nextId))
                 && m.table[pid].parent.Committed? && m.table[pid].parent.id == Last(m.revisions).id))
  {
  }

  lemma StartLeaks(m: Manager, pid: Pid)
    requires Can(m, StartCommit(pid)) && ContentsInv(m) && LeakInv(m)
    ensures LeakInv(Happen(m, StartCommit(pid)))
  {
    var p, current := m.table[pid], Last(m.revisions);
    if !m.aborted && p.parent.Committed? && p.parent.id == current.id && RootHash(p.contents) == RootHash(current.contents) {
      HashIsContents(p.contents, current.contents);
      AbsorbLeaks(m, pid);
    } else {
      StartFields(m, pid);
      SuffixLast(m.revisions, m.history);
      if p.parent.Committed? && p.parent.id == current.id {
        LatestParent(m, pid);
        NotAbsorbed(m, pid);
      }
    }
  }

  /** A proposal on the latest revision that changes something was not absorbed before. */
  lemma NotAbsorbed(m: Manager, pid: Pid)
    requires AbsorbedFit(m.absorbed, m.table, m.history) && pid in m.table && m.history != []
    requires m.table[pid].baseNum == |m.history| - 1
    ensures RootHash(m.table[pid].contents) != RootHash(m.history[|m.history| - 1].contents) ==> pid !in m.absorbed
  {
  }

  lemma PushTableCovered(table: map<Pid, Proposal>, history: seq<Revision>, skipped: map<Pid, set<NodeId>>,
                         rev: Revision)
    requires TableCovered(table, history, skipped)
    ensures TableCovered(table, history + [rev], skipped)
  {
    forall q | q in table ensures ProposalCovered(q, table, history + [rev], skipped) {
      assert ProposalCovered(q, table, history, skipped);
    }
  }

  lemma PushHistoryCovered(history: seq<Revision>, origins: seq<Pid>, skipped: map<Pid, set<NodeId>>, rev: Revision,
                           pid: Pid)
    requires HistoryCovered(history, origins, skipped) && history != [] && pid in skipped
    requires Covered(history[|history| - 1].nodes, rev.nodes, rev.deleted, skipped[pid])
    ensures HistoryCovered(history + [rev], origins + [pid], skipped)
  {
    var h, o := history + [rev], origins + [pid];
    forall i | 0 < i < |h| ensures o[i] in skipped && Covered(h[i - 1].nodes, h[i].nodes, h[i].deleted, skipped[o[i]]) {
      if i < |history| { assert Covered(history[i - 1].nodes, history[i].nodes, history[i].deleted, skipped[origins[i]]); }
    }
  }

  lemma PushMade(history: seq<Revision>, origins: seq<Pid>, table: map<Pid, Proposal>, rev: Revision, pid: Pid)
    requires MadeFrom(history, origins, table) && OriginsFixed(origins, table)
    requires pid in table && IsProposal(rev, table[pid]) && table[pid].parent.Committed?
    requires table[pid].baseNum == |history| - 1
    ensures MadeFrom(history + [rev], origins + [pid], table) && OriginsFixed(origins + [pid], table)
  {
  }

  lemma PushCleanupsCovered(cs: set<Cleanup>, table: map<Pid, Proposal>, history: seq<Revision>, absorbed: set<Pid>,
                            rev: Revision)
    requires CleanupsCovered(cs, table, history, absorbed)
    ensures CleanupsCovered(cs, table, history + [rev], absorbed)
  {
    forall c | c in cs ensures CleanupCovered(c, table, history + [rev], absorbed) {
      assert CleanupCovered(c, table, history, absorbed);
    }
  }

  lemma PushLeaks(m: Manager)
    requires Can(m, PushRevision) && m.history != [] && LeakInv(m)
    ensures LeakInv(Happen(m, PushRevision))
  {
    PushParts(m);
    PushFields(m);
  }

  lemma PushFields(m: Manager)
    requires Can(m, PushRevision)
    ensures var n := Happen(m, PushRevision);
            && n.history == m.history + [m.crit.rev] && n.origins == m.origins + [m.crit.pid]
            && n.settled == m.settled + {m.crit.pid} && n.crit == Queued(m.crit.pid, m.crit.rev)
            && n.table == m.table && n.skipped == m.skipped && n.absorbed == m.absorbed && n.cleanups == m.cleanups
  {
  }

  lemma PushParts(m: Manager)
    requires LeakInv(m) && m.history != [] && m.crit.Building?
    ensures var pid, rev := m.crit.pid, m.crit.rev;
            && MadeFrom(m.history + [rev], m.origins + [pid], m.table) && OriginsFixed(m.origins + [pid], m.table)
            && HistoryCovered(m.history + [rev], m.origins + [pid], m.skipped)
            && TableCovered(m.table, m.history + [rev], m.skipped)
            && CleanupsCovered(m.cleanups, m.table, m.history + [rev], m.absorbed)
            && AllKnown(m.skipped, m.absorbed, m.table, m.settled + {pid})
            && AbsorbedFit(m.absorbed, m.table, m.history + [rev])
            && CriticalCovered(Queued(pid, rev), m.table, m.history + [rev], m.absorbed)
  {
    var pid, rev := m.crit.pid, m.crit.rev;
    assert ProposalCovered(pid, m.table, m.history, m.skipped);
    PushMade(m.history, m.origins, m.table, rev, pid);
    PushHistoryCovered(m.history, m.origins, m.skipped, rev, pid);
    PushTableCovered(m.table, m.history, m.skipped, rev);
    PushCleanupsCovered(m.cleanups, m.table, m.history, m.absorbed, rev);
    SettleKnown(m.skipped, m.absorbed, m.table, m.settled, pid);
  }

  lemma IndexLeaks(m: Manager)
    requires Can(m, IndexRevision) && m.history != [] && LeakInv(m)
    ensures LeakInv(Happen(m, IndexRevision))
  {
    var n := Happen(m, IndexRevision);
    IndexFields(m);
    IndexCleanups(m, n.cleanups);
    SameParts(m, n);
  }

  lemma IndexCleanups(m: Manager, cs: set<Cleanup>)
    requires LeakInv(m) && m.crit.Queued? && cs == m.cleanups + {Cleanup(m.crit.pid, m.crit.rev.id, Newest(m))}
    ensures CleanupsCovered(cs, m.table, m.history, m.absorbed)
  {
    OneMoreCovered(m.cleanups, m.table, m.history, m.absorbed, m.crit);
  }

  lemma SameParts(m: Manager, n: Manager)
    requires LeakInv(m)
    requires n.history == m.history && n.origins == m.origins && n.settled == m.settled && n.crit == Free
    requires n.table == m.table && n.skipped == m.skipped && n.absorbed == m.absorbed
    requires CleanupsCovered(n.cleanups, m.table, m.history, m.absorbed)
    ensures LeakInv(n)
  {
  }

  lemma IndexFields(m: Manager)
    requires Can(m, IndexRevision)
    ensures var n := Happen(m, IndexRevision);
            && n.history == m.history && n.origins == m.origins && n.settled == m.settled && n.crit == Free
            && n.table == m.table && n.skipped == m.skipped && n.absorbed == m.absorbed
            && n.cleanups == m.cleanups + {Cleanup(m.crit.pid, m.crit.rev.id, Newest(m))}
  {
  }

  lemma OneMoreCovered(cs: set<Cleanup>, table: map<Pid, Proposal>, history: seq<Revision>, absorbed: set<Pid>,
                       crit: Critical)
    requires CleanupsCovered(cs, table, history, absorbed) && history != []
    requires crit.Queued? && CriticalCovered(crit, table, history, absorbed)
    ensures CleanupsCovered(cs + {Cleanup(crit.pid, crit.rev.id, |history| - 1)}, table, history, absorbed)
  {
  }

  // ---- Cleaning up ----

  /** A child of a committed proposal keeps account of the revision it is moved onto. */
  lemma ChildCovered(m: Manager, c: Cleanup, q: Pid)
    requires NodesInv(m) && LeakInv(m) && c in m.cleanups
    requires q in m.table && m.table[q].parent == Proposed(c.pid)
    ensures c.pid in m.skipped && c.num < |m.history|
    ensures Covered(m.history[c.num].nodes, m.table[q].nodes, m.table[q].deleted,
                    if c.pid in m.absorbed then m.skipped[c.pid] + m.table[c.pid].deleted else {})
  {
    var p, parent := m.table[q], m.table[c.pid];
    assert CleanupCovered(c, m.table, m.history, m.absorbed);
    assert ProposalCovered(q, m.table, m.history, m.skipped) && ProposalCovered(c.pid, m.table, m.history, m.skipped);
    assert ProposalNodes(q, p, m.table, m.history, m.settled);
    assert ProposalNodes(c.pid, parent, m.table, m.history, m.settled);
    if c.pid in m.absorbed {
      assert SkippedKnown(m.skipped[c.pid], m.absorbed, m.table, m.settled);
      assert Owned(parent.deleted, m.settled);
    }
  }

  lemma ReparentCovered(m: Manager, c: Cleanup)
    requires NodesInv(m) && LeakInv(m) && Can(m, CleanUp(c))
    ensures TableCovered(Happen(m, CleanUp(c)).table, m.history, Happen(m, CleanUp(c)).skipped)
  {
    var t, s := Happen(m, CleanUp(c)).table, Happen(m, CleanUp(c)).skipped;
    var survivors := Retain(m.tracked, m.strong - {c.pid});
    forall q | q in t ensures ProposalCovered(q, t, m.history, s) { ReparentOneCovered(m, c, survivors, q); }
  }

  lemma ReparentOneCovered(m: Manager, c: Cleanup, survivors: seq<Pid>, q: Pid)
    requires NodesInv(m) && LeakInv(m) && c in m.cleanups && c.pid in m.table && q in m.table
    ensures ProposalCovered(q, Reparent(m.table, survivors, c), m.history,
                            if c.pid in m.absorbed then Skip(m, survivors, c.pid) else m.skipped)
  {
    assert ProposalCovered(q, m.table, m.history, m.skipped);
    if m.table[q].parent == Proposed(c.pid) { ChildCovered(m, c, q); }
  }

  lemma SkipKnown(m: Manager, c: Cleanup, survivors: seq<Pid>)
    requires NodesInv(m) && LeakInv(m) && c in m.cleanups && c.pid in m.table && c.pid in m.absorbed
    ensures AllKnown(Skip(m, survivors, c.pid), m.absorbed, m.table, m.settled)
  {
    var s := Skip(m, survivors, c.pid);
    assert ProposalNodes(c.pid, m.table[c.pid], m.table, m.history, m.settled);
    forall q | q in s ensures SkippedKnown(s[q], m.absorbed, m.table, m.settled) {
      assert SkippedKnown(m.skipped[q], m.absorbed, m.table, m.settled);
      if s[q] != m.skipped[q] {
        assert SkippedKnown(m.skipped[c.pid], m.absorbed, m.table, m.settled);
        assert SkippedKnown(m.table[c.pid].deleted, m.absorbed, m.table, m.settled);
        KnownUnion(m.skipped[c.pid], m.table[c.pid].deleted, m.absorbed, m.table, m.settled);
      }
    }
  }

  lemma KnownUnion(a: set<NodeId>, b: set<NodeId>, absorbed: set<Pid>, table: map<Pid, Proposal>, settled: set<Pid>)
    requires SkippedKnown(a, absorbed, table, settled) && SkippedKnown(b, absorbed, table, settled)
    ensures SkippedKnown(a + b, absorbed, table, settled)
  {
  }

  lemma ReparentKnown(m: Manager, c: Cleanup)
    requires NodesInv(m) && LeakInv(m) && Can(m, CleanUp(c))
    ensures AllKnown(Happen(m, CleanUp(c)).skipped, m.absorbed, Happen(m, CleanUp(c)).table, m.settled)
  {
    var survivors := Retain(m.tracked, m.strong - {c.pid});
    var t, s := Reparent(m.table, survivors, c), Happen(m, CleanUp(c)).skipped;
    if c.pid in m.absorbed { SkipKnown(m, c, survivors); }
    AllKnownInLarger(s, m.absorbed, m.table, m.settled, t);
  }

  lemma AllKnownInLarger(skipped: map<Pid, set<NodeId>>, absorbed: set<Pid>, table: map<Pid, Proposal>,
                         settled: set<Pid>,
                         larger: map<Pid, Proposal>)
    requires AllKnown(skipped, absorbed, table, settled)
    requires forall q | q in table :: q in larger && larger[q].deleted == table[q].deleted
    ensures AllKnown(skipped, absorbed, larger, settled)
  {
    forall q | q in skipped ensures SkippedKnown(skipped[q], absorbed, larger, settled) {
      KnownInLarger(skipped[q], absorbed, table, settled, larger);
    }
  }

  /** Nothing changes for a proposal on a revision. */
  lemma ReparentKeeps(m: Manager, c: Cleanup)
    requires Can(m, CleanUp(c))
    ensures var n := Happen(m, CleanUp(c));
            && n.history == m.history && n.origins == m.origins && n.absorbed == m.absorbed && n.crit == m.crit
            && n.cleanups == m.cleanups - {c}
            && Fixes(m.table, n.table, m.skipped, n.skipped)
  {
    FixedBy(m, c, Retain(m.tracked, m.strong - {c.pid}));
  }

  ghost predicate Fixes(table: map<Pid, Proposal>, after: map<Pid, Proposal>, skipped: map<Pid, set<NodeId>>,
                        skippedAfter: map<Pid, set<NodeId>>) {
    && (forall q | q in table && table[q].parent.Committed? :: q in after && after[q] == table[q])
    && (forall q | q in table && table[q].parent.Committed? && q in skipped ::
          q in skippedAfter && skippedAfter[q] == skipped[q])
  }

  lemma FixedBy(m: Manager, c: Cleanup, survivors: seq<Pid>)
    requires c.pid in m.table
    ensures Fixes(m.table, Reparent(m.table, survivors, c), m.skipped, m.skipped)
    ensures Fixes(m.table, Reparent(m.table, survivors, c), m.skipped, Skip(m, survivors, c.pid))
  {
  }

  lemma CleanUpHistory(m: Manager, c: Cleanup)
    requires LeakInv(m) && Can(m, CleanUp(c))
    ensures var n := Happen(m, CleanUp(c));
            && MadeFrom(n.history, n.origins, n.table) && OriginsFixed(n.origins, n.table)
            && HistoryCovered(n.history, n.origins, n.skipped)
  {
    ReparentKeeps(m, c);
  }

  lemma CleanUpRest(m: Manager, c: Cleanup)
    requires LeakInv(m) && Can(m, CleanUp(c))
    ensures var n := Happen(m, CleanUp(c));
            && AbsorbedFit(n.absorbed, n.table, n.history)
            && CleanupsCovered(n.cleanups, n.table, n.history, n.absorbed)
            && CriticalCovered(n.crit, n.table, n.history, n.absorbed)
  {
    ReparentKeeps(m, c);
    forall d | d in m.cleanups ensures CleanupCovered(d, Happen(m, CleanUp(c)).table, m.history, m.absorbed) {
      assert CleanupCovered(d, m.table, m.history, m.absorbed);
    }
  }

  lemma CleanUpLeaks(m: Manager, c: Cleanup)
    requires NodesInv(m) && LeakInv(m) && Can(m, CleanUp(c))
    ensures LeakInv(Happen(m, CleanUp(c)))
  {
    ReparentCovered(m, c);
    ReparentKnown(m, c);
    CleanUpHistory(m, c);
    CleanUpRest(m, c);
  }

  lemma LeaksKept(m: Manager, e: Event)
    requires ContentsInv(m) && NodesInv(m) && LeakInv(m) && Can(m, e)
    ensures LeakInv(Happen(m, e))
  {
    match e {
      case ProposeOnRevision(_, _, _, _, _) => ProposeLeaks(m, e);
      case ProposeOnProposal(_, _, _, _, _) => ProposeLeaks(m, e);
      case StartCommit(pid) => StartLeaks(m, pid);
      case PushRevision => PushLeaks(m);
      case IndexRevision => IndexLeaks(m);
      case CleanUp(c) => CleanUpLeaks(m, c);
      case _ =>
    }
  }

  lemma LeaksStart(mode: Mode, maxRevisions: nat, contents: Contents, nodes: set<NodeId>)
    ensures LeakInv(OpenManager(mode, maxRevisions, contents, nodes))
  {
  }

  lemma {:induction false} LeaksRun(m: Manager, es: seq<Event>)
    requires ContentsInv(m) && NodesInv(m) && LeakInv(m) && Happens(m, es)
    ensures LeakInv(Later(m, es))
    decreases |es|
  {
    if es != [] {
      ContentsKept(m, es[0]);
      NodesKept(m, es[0]);
      LeaksKept(m, es[0]);
      LeaksRun(Happen(m, es[0]), es[1..]);
    }
  }

  lemma {:induction false} Reached(mode: Mode, maxRevisions: nat, contents: Contents, nodes: set<NodeId>,
                                   es: seq<Event>)
    requires 2 <= maxRevisions && Owned(nodes, {0}) && Happens(OpenManager(mode, maxRevisions, contents, nodes), es)
    ensures LeakInv(Later(OpenManager(mode, maxRevisions, contents, nodes), es))
  {
    ContentsStart(mode, maxRevisions, contents, nodes);
    NodesStart(mode, maxRevisions, contents, nodes);
    LeaksStart(mode, maxRevisions, contents, nodes);
    LeaksRun(OpenManager(mode, maxRevisions, contents, nodes), es);
  }

  /** In every run each revision but the first has the contents, the nodes and the delete list of
      a proposal made on the revision before it, and no proposal makes two revisions. */
  lemma {:induction false} RevisionsAreProposals(mode: Mode, maxRevisions: nat, contents: Contents,
                                                 nodes: set<NodeId>, es: seq<Event>)
    requires 2 <= maxRevisions && Owned(nodes, {0}) && Happens(OpenManager(mode, maxRevisions, contents, nodes), es)
    ensures var m := Later(OpenManager(mode, maxRevisions, contents, nodes), es);
            && |m.origins| == |m.history|
            && (forall i | 0 < i < |m.history| ::
                  && m.origins[i] in m.table && m.table[m.origins[i]].baseNum == i - 1
                  && m.history[i].contents == m.table[m.origins[i]].contents
                  && m.history[i].nodes == m.table[m.origins[i]].nodes
                  && m.history[i].deleted == m.table[m.origins[i]].deleted)
            && (forall i, j | 0 < i < j < |m.history| :: m.origins[i] != m.origins[j])
  {
    Reached(mode, maxRevisions, contents, nodes, es);
  }

  /** The nodes of revision `i - 1` that revision `i` neither keeps nor has on its delete list. */
  ghost function Lost(m: Manager, i: nat): set<NodeId>
    requires 0 < i < |m.history|
  {
    m.history[i - 1].nodes - m.history[i].nodes - m.history[i].deleted
  }

  /** What a commit loses is exactly what the absorbed proposals took out that its proposal was
      made on; so it loses nothing if and only if they took out nothing of the revision below,
      and nothing at all is lost where no absorbed proposal had a delete list. */
  lemma {:induction false} LossIsExact(mode: Mode, maxRevisions: nat, contents: Contents, nodes: set<NodeId>,
                                       es: seq<Event>, i: nat)
    requires 2 <= maxRevisions && Owned(nodes, {0}) && Happens(OpenManager(mode, maxRevisions, contents, nodes), es)
    requires 0 < i < |Later(OpenManager(mode, maxRevisions, contents, nodes), es).history|
    ensures var m := Later(OpenManager(mode, maxRevisions, contents, nodes), es);
            && i < |m.origins| && m.origins[i] in m.skipped
            && Lost(m, i) == m.history[i - 1].nodes * m.skipped[m.origins[i]]
            && (m.history[i - 1].nodes - m.history[i].nodes <= m.history[i].deleted <==>
                m.history[i - 1].nodes !! m.skipped[m.origins[i]])
            && ((forall q | q in m.absorbed && q in m.table :: m.table[q].deleted == {}) ==> Lost(m, i) == {})
  {
    Reached(mode, maxRevisions, contents, nodes, es);
    LossAt(Later(OpenManager(mode, maxRevisions, contents, nodes), es), i);
  }

  lemma LossAt(m: Manager, i: nat)
    requires LeakInv(m) && 0 < i < |m.history|
    ensures i < |m.origins| && m.origins[i] in m.skipped
    ensures Lost(m, i) == m.history[i - 1].nodes * m.skipped[m.origins[i]]
    ensures m.history[i - 1].nodes - m.history[i].nodes <= m.history[i].deleted <==>
            m.history[i - 1].nodes !! m.skipped[m.origins[i]]
    ensures (forall q | q in m.absorbed && q in m.table :: m.table[q].deleted == {}) ==> Lost(m, i) == {}
  {
    var o := m.origins[i];
    assert Covered(m.history[i - 1].nodes, m.history[i].nodes, m.history[i].deleted, m.skipped[o]);
    assert SkippedKnown(m.skipped[o], m.absorbed, m.table, m.settled);
  }

  // ---- A run that loses a node ----

  /** The database of the run: one key, one node. */
  function Origin(k: Key, x: Value): Revision {
    Revision(0, map[k := x], {NodeId(0, 0)}, {}, {0})
  }

  ghost predicate Calm(m: Manager, k: Key, x: Value) {
    m.crit.Free? && !m.aborted && m.history == [Origin(k, x)] && m.revisions == [Origin(k, x)] && 0 < m.nextId
  }

  /** Proposal 1 is on the revision and changes nothing. */
  ghost predicate First(m: Manager, k: Key, x: Value) {
    1 in m.table && 1 in m.strong && m.table[1].parent.Committed? && m.table[1].parent.id == 0 &&
    m.table[1].contents == map[k := x]
  }

  /** Proposal 2 changes the value and has none of the nodes. */
  ghost predicate Second(m: Manager, k: Key, y: Value) {
    2 in m.table && 2 in m.strong && 2 in m.tracked && m.table[2].contents == map[k := y] &&
    m.table[2].nodes == {} && m.table[2].deleted == {}
  }

  lemma {:induction false} OnePut(c: Contents, k: Key, x: Value)
    ensures Apply(c, [Put(k, x)]) == c[k := x]
  {
    assert [Put(k, x)][..0] == [];
  }

  lemma ProposeFirst(k: Key, x: Value) returns (m: Manager)
    ensures Reachable(OpenManager(MerkleDb, 2, map[k := x], {NodeId(0, 0)}), m)
    ensures Calm(m, k, x) && First(m, k, x) && m.table.Keys == {1} && m.table[1].nodes == {}
  {
    var m0 := OpenManager(MerkleDb, 2, map[k := x], {NodeId(0, 0)});
    var e := ProposeOnRevision(1, 0, [Put(k, x)], {NodeId(0, 0)}, {});
    OnePut(map[k := x], k, x);
    ReachableSelf(m0);
    ReachableOn(m0, m0, e);
    m := Happen(m0, e);
  }

  lemma ProposeSecond(m: Manager, k: Key, x: Value, y: Value) returns (n: Manager)
    requires Calm(m, k, x) && First(m, k, x) && m.table.Keys == {1} && m.table[1].nodes == {}
    ensures Reachable(m, n) && Calm(n, k, x) && First(n, k, x) && Second(n, k, y) && n.table[2].parent == Proposed(1)
  {
    var e := ProposeOnProposal(2, 1, [Put(k, y)], {}, {});
    OnePut(map[k := x], k, y);
    ReachableSelf(m);
    ReachableOn(m, m, e);
    n := Happen(m, e);
    SnocInit(m.tracked, 2);
  }

  lemma AbsorbFirst(m: Manager, k: Key, x: Value, y: Value) returns (n: Manager)
    requires Calm(m, k, x) && First(m, k, x) && Second(m, k, y) && m.table[2].parent == Proposed(1)
    ensures Reachable(m, n) && Calm(n, k, x) && First(n, k, x) && Second(n, k, y) && n.table[2].parent == Proposed(1)
    ensures Cleanup(1, 0, 0) in n.cleanups
  {
    ReachableSelf(m);
    ReachableOn(m, m, StartCommit(1));
    n := Happen(m, StartCommit(1));
  }

  lemma CleanFirst(m: Manager, k: Key, x: Value, y: Value) returns (n: Manager)
    requires Calm(m, k, x) && First(m, k, x) && Second(m, k, y) && m.table[2].parent == Proposed(1)
    requires Cleanup(1, 0, 0) in m.cleanups
    ensures Reachable(m, n) && Calm(n, k, x) && Second(n, k, y) && n.table[2].parent == Committed(RootHash(map[k := x]), 0)
  {
    var c := Cleanup(1, 0, 0);
    ReachableSelf(m);
    ReachableOn(m, m, CleanUp(c));
    n := Happen(m, CleanUp(c));
  }

  lemma CommitSecond(m: Manager, k: Key, x: Value, y: Value) returns (n: Manager)
    requires x != y && Calm(m, k, x) && Second(m, k, y) && m.table[2].parent == Committed(RootHash(map[k := x]), 0)
    ensures Reachable(m, n) && n.crit.Building? && !n.aborted && n.history == [Origin(k, x)]
    ensures n.crit.rev.nodes == {} && n.crit.rev.deleted == {}
  {
    assert map[k := x][k] != map[k := y][k];
    ReachableSelf(m);
    ReachableOn(m, m, StartCommit(2));
    n := Happen(m, StartCommit(2));
  }

  lemma PushSecond(m: Manager, k: Key, x: Value) returns (n: Manager)
    requires m.crit.Building? && !m.aborted && m.history == [Origin(k, x)]
    requires m.crit.rev.nodes == {} && m.crit.rev.deleted == {}
    ensures Reachable(m, n) && |n.history| == 2 && !n.aborted && Lost(n, 1) == {NodeId(0, 0)}
  {
    ReachableSelf(m);
    ReachableOn(m, m, PushRevision);
    n := Happen(m, PushRevision);
  }

  /** Such a run: a proposal that puts what is there already takes out a node and is absorbed;
      its child is committed, and that node is on no delete list. */
  lemma NodeIsLost(k: Key, x: Value, y: Value) returns (m: Manager)
    requires x != y
    ensures Reachable(OpenManager(MerkleDb, 2, map[k := x], {NodeId(0, 0)}), m)
    ensures |m.history| == 2 && !m.aborted && Lost(m, 1) == {NodeId(0, 0)}
  {
    var m0 := OpenManager(MerkleDb, 2, map[k := x], {NodeId(0, 0)});
    var m1 := ProposeFirst(k, x);
    var m2 := ProposeSecond(m1, k, x, y);
    ReachableThen(m0, m1, m2);
    var m3 := AbsorbFirst(m2, k, x, y);
    ReachableThen(m0, m2, m3);
    var m4 := CleanFirst(m3, k, x, y);
    ReachableThen(m0, m3, m4);
    var m5 := CommitSecond(m4, k, x, y);
    ReachableThen(m0, m4, m5);
    m := PushSecond(m5, k, x);
    ReachableThen(m0, m5, m);
  }
}
