/** `view` while a commit is under way: it looks through the proposal list first and through
    the index afterwards, and other threads can act in between. */
module View {
  import opened Nibbles
  import opened DiffMap
  import opened Manager
  import opened Updates
  import opened HashIndex

  /** Step 1 of `view`: some listed proposal has this root hash. */
  ghost predicate ScanFinds(m: Manager, h: Hash) {
    exists q | q in m.tracked :: q in m.table && RootHash(m.table[q].contents) == Some(h)
  }

  /** Step 2 of `view`: the index has a revision under this hash, and that is its hash. */
  ghost predicate IndexFinds(m: Manager, h: Hash) {
    h in m.byHash && RootHash(m.byHash[h].contents) == Some(h)
  }

  ghost predicate Listed(m: Manager) {
    && m.strong <= m.table.Keys
    && (forall c | c in m.cleanups :: c.pid in m.done)
    && (forall pid | pid in m.strong && pid !in m.withdrawn :: pid in m.tracked || pid in m.done)
  }

  /** A proposal whose commit is done is indexed under its hash until a reap takes that hash
      out. */
  ghost predicate DoneIndexed(done: set<Pid>, purged: set<Pid>, table: map<Pid, Proposal>, byHash: map<Hash,
                              Revision>) {
    && done <= table.Keys
    && forall pid | pid in done && pid !in purged ::
         pid in table && var h := RootHash(table[pid].contents); h.Some? ==> h.value in byHash
  }

  ghost predicate ViewInv(m: Manager) {
    ContentsInv(m) && IndexInv(m) && Listed(m) && DoneIndexed(m.done, m.purged, m.table, m.byHash)
  }

  lemma ListedKept(m: Manager, e: Event)
    requires Listed(m) && Can(m, e)
    ensures Listed(Happen(m, e))
  {
    match e {
      case CleanUp(c) =>
      case _ =>
    }
  }

  lemma OneMoreDone(done: set<Pid>, purged: set<Pid>, table: map<Pid, Proposal>, byHash: map<Hash, Revision>, pid: Pid)
    requires DoneIndexed(done, purged, table, byHash) && pid in table
    requires var h := RootHash(table[pid].contents); h.Some? ==> h.value in byHash
    ensures DoneIndexed(done + {pid}, purged, table, byHash)
  {
  }

  /** What is latest when nobody commits and nothing has failed can be found by its hash. */
  lemma LatestFound(m: Manager, c: Contents)
    requires IndexInv(m) && Quiet(m) && m.revisions != [] && RootHash(c) == RootHash(Last(m.revisions).contents)
    ensures RootHash(c).Some? ==> RootHash(c).value in m.byHash
  {
  }

  lemma StartDone(m: Manager, pid: Pid)
    requires Can(m, StartCommit(pid)) && IndexInv(m) && DoneIndexed(m.done, m.purged, m.table, m.byHash)
    ensures var n := Happen(m, StartCommit(pid)); DoneIndexed(n.done, n.purged, n.table, n.byHash)
  {
    var p := m.table[pid];
    if !m.aborted && RootHash(p.contents) == RootHash(Last(m.revisions).contents) {
      LatestFound(m, p.contents);
      OneMoreDone(m.done, m.purged, m.table, m.byHash, pid);
    }
  }

  lemma ReapDone(m: Manager, referenced: bool)
    requires DoneIndexed(m.done, m.purged, m.table, m.byHash) && Can(m, ReapFront(referenced))
    ensures var n := Happen(m, ReapFront(referenced)); DoneIndexed(n.done, n.purged, n.table, n.byHash)
  {
  }

  lemma IndexDone(m: Manager)
    requires DoneIndexed(m.done, m.purged, m.table, m.byHash) && Can(m, IndexRevision)
    requires m.crit.pid in m.table && m.table[m.crit.pid].contents == m.crit.rev.contents
    ensures var n := Happen(m, IndexRevision); DoneIndexed(n.done, n.purged, n.table, n.byHash)
  {
  }

  ghost predicate Extends(table: map<Pid, Proposal>, larger: map<Pid, Proposal>) {
    table.Keys <= larger.Keys && forall pid | pid in table :: larger[pid].contents == table[pid].contents
  }

  lemma ReparentExtends(table: map<Pid, Proposal>, survivors: seq<Pid>, c: Cleanup)
    requires c.pid in table
    ensures Extends(table, Reparent(table, survivors, c))
  {
  }

  lemma AddExtends(table: map<Pid, Proposal>, pid: Pid, p: Proposal)
    requires pid !in table
    ensures Extends(table, table[pid := p])
  {
  }

  /** Tables only grow, and a proposal's contents never change. */
  lemma TableStays(m: Manager, e: Event)
    requires Can(m, e)
    ensures Extends(m.table, Happen(m, e).table)
  {
    match e {
      case ProposeOnRevision(pid, _, _, _, _) => AddExtends(m.table, pid, Happen(m, e).table[pid]);
      case ProposeOnProposal(pid, _, _, _, _) => AddExtends(m.table, pid, Happen(m, e).table[pid]);
      case CleanUp(c) => ReparentExtends(m.table, Retain(m.tracked, m.strong - {c.pid}), c);
      case _ =>
    }
  }

  lemma OthersLeaveDone(m: Manager, e: Event)
    requires Can(m, e) && !e.ReapFront? && !e.IndexRevision? && !e.StartCommit?
    ensures var n := Happen(m, e); n.done == m.done && n.purged == m.purged && n.byHash == m.byHash
  {
  }

  lemma DoneTable(done: set<Pid>, purged: set<Pid>, table: map<Pid, Proposal>, larger: map<Pid, Proposal>,
                  byHash: map<Hash, Revision>)
    requires DoneIndexed(done, purged, table, byHash) && Extends(table, larger)
    ensures DoneIndexed(done, purged, larger, byHash)
  {
  }

  lemma DoneKept(m: Manager, e: Event)
    requires ViewInv(m) && Can(m, e)
    ensures var n := Happen(m, e); DoneIndexed(n.done, n.purged, n.table, n.byHash)
  {
    match e {
      case StartCommit(pid) => StartDone(m, pid);
      case ReapFront(r) => ReapDone(m, r);
      case IndexRevision => IndexDone(m);
      case _ =>
        TableStays(m, e);
        OthersLeaveDone(m, e);
        DoneTable(m.done, m.purged, m.table, Happen(m, e).table, m.byHash);
    }
  }

  lemma ViewKept(m: Manager, e: Event)
    requires ViewInv(m) && Can(m, e)
    ensures ViewInv(Happen(m, e))
  {
    ContentsKept(m, e);
    IndexKept(m, e);
    ListedKept(m, e);
    DoneKept(m, e);
  }

  lemma MoreDone(m: Manager, e: Event)
    requires Can(m, e)
    ensures m.done <= Happen(m, e).done && m.purged <= Happen(m, e).purged
  {
  }

  lemma {:induction false} ViewRun(m: Manager, es: seq<Event>)
    requires ViewInv(m) && Happens(m, es)
    ensures var n := Later(m, es);
            ViewInv(n) && m.done <= n.done && Extends(m.table, n.table)
    decreases |es|
  {
    if es != [] {
      ViewKept(m, es[0]);
      MoreDone(m, es[0]);
      TableStays(m, es[0]);
      ViewRun(Happen(m, es[0]), es[1..]);
    }
  }

  lemma ViewStart(mode: Mode, maxRevisions: nat, contents: Contents, nodes: set<NodeId>)
    requires 2 <= maxRevisions
    ensures ViewInv(OpenManager(mode, maxRevisions, contents, nodes))
  {
    ContentsStart(mode, maxRevisions, contents, nodes);
    IndexStart(mode, maxRevisions, contents, nodes);
  }

  /** A non-empty proposal that somebody holds, or whose commit is done, is never lost from
      sight: a `view` of its hash that scans the list at one moment and reads the index at any
      later one finds the hash, unless a later commit has taken it out of the index. */
  lemma {:induction false} ViewFindsCommitted(mode: Mode, maxRevisions: nat, contents: Contents, nodes: set<NodeId>,
                                              before: seq<Event>, between: seq<Event>, pid: Pid)
    requires 2 <= maxRevisions
    requires Happens(OpenManager(mode, maxRevisions, contents, nodes), before)
    requires Happens(Later(OpenManager(mode, maxRevisions, contents, nodes), before), between)
    ensures var scan := Later(OpenManager(mode, maxRevisions, contents, nodes), before);
            var read := Later(scan, between);
            && (pid in scan.done || (pid in scan.strong && pid !in scan.withdrawn))
            && pid in scan.table && RootHash(scan.table[pid].contents).Some? && pid !in read.purged ==>
              var h := RootHash(scan.table[pid].contents).value; ScanFinds(scan, h) || IndexFinds(read, h)
  {
    var m := OpenManager(mode, maxRevisions, contents, nodes);
    ViewStart(mode, maxRevisions, contents, nodes);
    ViewRun(m, before);
    var scan := Later(m, before);
    ViewRun(scan, between);
    var read := Later(scan, between);
    if pid in scan.table && RootHash(scan.table[pid].contents).Some? && pid in scan.done && pid !in read.purged {
      EntryHasHash(read, RootHash(scan.table[pid].contents).value);
    }
  }

  lemma EntryHasHash(m: Manager, h: Hash)
    requires IndexInv(m) && h in m.byHash && h.of != map[]
    ensures IndexFinds(m, h)
  {
    assert NewestWith(Shown(m), m.mode, h, m.byHash[h]);
    var k :| 0 <= k < |Shown(m)| && NewestAt(Shown(m), m.mode, h, m.byHash[h], k);
  }
}
