/** The history variables of the revision manager say what happened: each is tied to the events
    of the run, so that what is proved with them is about the run. */
module Ledger {
  import opened Sequences
  import opened Diff
  import opened DiffMap
  import opened Manager
  import opened Updates

  /** The commit of `pid` finds its contents latest already. */
  ghost predicate Absorbs(m: Manager, pid: Pid) {
    && !m.aborted && pid in m.table && m.revisions != []
    && m.table[pid].parent.Committed? && m.table[pid].parent.id == Last(m.revisions).id
    && m.table[pid].contents == Last(m.revisions).contents
  }

  /** The proposal whose commit this event makes succeed, as it is absorbed or as its revision
      is queued. */
  ghost function Won(m: Manager, e: Event): seq<Pid>
    requires Can(m, e)
  {
    match e
    case StartCommit(pid) => if Absorbs(m, pid) then [pid] else []
    case PushRevision => [m.crit.pid]
    case _ => []
  }

  /** The proposals whose commits succeed in the run, in that order. */
  ghost function Winners(m: Manager, es: seq<Event>): seq<Pid>
    requires Happens(m, es)
    decreases |es|
  {
    if es == [] then [] else Won(m, es[0]) + Winners(Happen(m, es[0]), es[1..])
  }

  /** Those of them that make a revision. */
  ghost function Makers(m: Manager, es: seq<Event>): seq<Pid>
    requires Happens(m, es)
    decreases |es|
  {
    if es == [] then [] else (if es[0].PushRevision? then [m.crit.pid] else []) + Makers(Happen(m, es[0]), es[1..])
  }

  /** And those that are absorbed. */
  ghost function Idlers(m: Manager, es: seq<Event>): seq<Pid>
    requires Happens(m, es)
    decreases |es|
  {
    if es == [] then [] else (if es[0].StartCommit? then Won(m, es[0]) else []) + Idlers(Happen(m, es[0]), es[1..])
  }

  /** The event takes the hash of `pid`, whose commit is done, out of the index. */
  ghost predicate Takes(m: Manager, e: Event, pid: Pid)
    requires Can(m, e)
  {
    && e.ReapFront? && pid in m.done && pid in m.table && RootHash(m.table[pid].contents).Some?
    && RootHash(m.table[pid].contents) == IndexHash(m.mode, m.revisions[0].contents)
  }

  ghost predicate HashReaped(m: Manager, es: seq<Event>, pid: Pid)
    requires Happens(m, es)
    decreases |es|
  {
    es != [] && (Takes(m, es[0], pid) || HashReaped(Happen(m, es[0]), es[1..], pid))
  }

  /** The batches of some proposals. */
  ghost function Batches(table: map<Pid, Proposal>, pids: seq<Pid>): seq<seq<BatchOp>> {
    if pids == [] then []
    else (if pids[0] in table then [table[pids[0]].ops] else []) + Batches(table, pids[1..])
  }

  // ---- Batches ----

  ghost predicate SameOps(t: map<Pid, Proposal>, u: map<Pid, Proposal>) {
    forall pid | pid in t :: pid in u && u[pid].ops == t[pid].ops
  }

  lemma AddSameOps(table: map<Pid, Proposal>, pid: Pid, p: Proposal)
    requires pid !in table
    ensures SameOps(table, table[pid := p])
  {
  }

  lemma OpsStay(m: Manager, e: Event)
    requires Can(m, e)
    ensures SameOps(m.table, Happen(m, e).table)
  {
    match e {
      case ProposeOnRevision(pid, _, _, _, _) => AddSameOps(m.table, pid, Happen(m, e).table[pid]);
      case ProposeOnProposal(pid, _, _, _, _) => AddSameOps(m.table, pid, Happen(m, e).table[pid]);
      case _ =>
    }
  }

  lemma {:induction false} OpsStayRun(m: Manager, es: seq<Event>)
    requires Happens(m, es)
    ensures SameOps(m.table, Later(m, es).table)
    decreases |es|
  {
    if es != [] {
      OpsStay(m, es[0]);
      OpsStayRun(Happen(m, es[0]), es[1..]);
    }
  }

  lemma {:induction false} BatchesStay(t: map<Pid, Proposal>, u: map<Pid, Proposal>, pids: seq<Pid>)
    requires SameOps(t, u) && forall pid | pid in pids :: pid in t
    ensures Batches(t, pids) == Batches(u, pids)
  {
    if pids != [] {
      assert pids[0] in pids;
      BatchesStay(t, u, pids[1..]);
    }
  }

  lemma {:induction false} BatchesConcat(t: map<Pid, Proposal>, a: seq<Pid>, b: seq<Pid>)
    ensures Batches(t, a + b) == Batches(t, a) + Batches(t, b)
  {
    if a == [] {
      assert a + b == b;
    } else {
      assert (a + b)[1..] == a[1..] + b;
      BatchesConcat(t, a[1..], b);
      ConcatAssociative(if a[0] in t then [t[a[0]].ops] else [], Batches(t, a[1..]), Batches(t, b));
    }
  }

  // ---- One event ----

  lemma StartWins(m: Manager, pid: Pid)
    requires Can(m, StartCommit(pid))
    ensures var n, ws := Happen(m, StartCommit(pid)), Won(m, StartCommit(pid));
            && n.commits == m.commits + Batches(m.table, ws) && n.origins == m.origins
            && n.settled == m.settled + Members(ws) && n.absorbed == m.absorbed + Members(ws)
  {
  }

  lemma PushWins(m: Manager)
    requires Can(m, PushRevision) && m.crit.pid in m.table
    ensures var n, ws := Happen(m, PushRevision), Won(m, PushRevision);
            && n.commits == m.commits + Batches(m.table, ws) && n.origins == m.origins + ws
            && n.settled == m.settled + Members(ws) && n.absorbed == m.absorbed
  {
  }

  lemma OthersWinNothing(m: Manager, e: Event)
    requires Can(m, e) && !e.StartCommit? && !e.PushRevision?
    ensures var n := Happen(m, e);
            n.commits == m.commits && n.origins == m.origins && n.settled == m.settled && n.absorbed == m.absorbed
  {
    match e {
      case ReapFront(_) =>
      case CleanUp(_) =>
      case _ =>
    }
  }

  /** The commit under way is of a known proposal. */
  predicate Known(m: Manager) {
    m.crit.Free? || m.crit.pid in m.table
  }

  lemma KnownStep(m: Manager, e: Event)
    requires Known(m) && Can(m, e)
    ensures Known(Happen(m, e))
  {
  }

  lemma CommitsStep(m: Manager, e: Event)
    requires Can(m, e) && Known(m)
    ensures var n, ws := Happen(m, e), Won(m, e);
            && n.commits == m.commits + Batches(m.table, ws)
            && n.settled == m.settled + Members(ws)
            && n.origins == m.origins + (if e.PushRevision? then [m.crit.pid] else [])
            && n.absorbed == m.absorbed + Members(if e.StartCommit? then ws else [])
            && forall pid | pid in ws :: pid in m.table
  {
    match e {
      case StartCommit(pid) => StartWins(m, pid);
      case PushRevision => PushWins(m);
      case _ => OthersWinNothing(m, e);
    }
  }

  lemma StartLeaves(m: Manager, pid: Pid)
    requires pid in m.table && m.revisions != []
    ensures var n := Start(m, pid); n.aborted == m.aborted && n.blocked == m.blocked && n.withdrawn == m.withdrawn
  {
  }

  lemma AbortedStep(m: Manager, e: Event)
    requires Can(m, e)
    ensures Happen(m, e).aborted <==> m.aborted || e == AbortCommit
  {
    if e.StartCommit? { StartLeaves(m, e.pid); }
  }

  lemma BlockedStep(m: Manager, e: Event)
    requires Can(m, e)
    ensures Happen(m, e).blocked <==> m.blocked || e == ReapFront(true)
  {
    if e.StartCommit? { StartLeaves(m, e.pid); }
  }

  lemma WithdrawnStep(m: Manager, e: Event)
    requires Can(m, e)
    ensures Happen(m, e).withdrawn == m.withdrawn + (if e.Withdraw? then {e.pid} else {})
  {
    if e.StartCommit? { StartLeaves(m, e.pid); }
  }

  lemma PurgedStep(m: Manager, e: Event, pid: Pid)
    requires Can(m, e)
    ensures pid in Happen(m, e).purged <==> pid in m.purged || Takes(m, e, pid)
  {
  }

  // ---- The run ----

  lemma MembersJoin(s: set<Pid>, a: seq<Pid>, b: seq<Pid>)
    ensures (s + Members(a)) + Members(b) == s + Members(a + b)
  {
  }

  lemma {:induction false} BatchesJoin(commits: seq<seq<BatchOp>>, t: map<Pid, Proposal>, u: map<Pid, Proposal>,
                                       a: seq<Pid>, b: seq<Pid>)
    requires SameOps(t, u) && forall pid | pid in a :: pid in t
    ensures (commits + Batches(t, a)) + Batches(u, b) == commits + Batches(u, a + b)
  {
    BatchesStay(t, u, a);
    BatchesConcat(u, a, b);
    ConcatAssociative(commits, Batches(u, a), Batches(u, b));
  }

  lemma {:induction false} CommitsRun(m: Manager, es: seq<Event>)
    requires Known(m) && Happens(m, es)
    ensures Later(m, es).commits == m.commits + Batches(Later(m, es).table, Winners(m, es))
    decreases |es|
  {
    if es != [] {
      CommitsStep(m, es[0]);
      KnownStep(m, es[0]);
      CommitsRun(Happen(m, es[0]), es[1..]);
      OpsStayRun(m, es);
      BatchesJoin(m.commits, m.table, Later(m, es).table, Won(m, es[0]), Winners(Happen(m, es[0]), es[1..]));
    }
  }

  lemma {:induction false} SettledRun(m: Manager, es: seq<Event>)
    requires Known(m) && Happens(m, es)
    ensures Later(m, es).settled == m.settled + Members(Winners(m, es))
    decreases |es|
  {
    if es != [] {
      CommitsStep(m, es[0]);
      KnownStep(m, es[0]);
      SettledRun(Happen(m, es[0]), es[1..]);
      MembersJoin(m.settled, Won(m, es[0]), Winners(Happen(m, es[0]), es[1..]));
    }
  }

  lemma {:induction false} MakersRun(m: Manager, es: seq<Event>)
    requires Known(m) && Happens(m, es)
    ensures Later(m, es).origins == m.origins + Makers(m, es)
    decreases |es|
  {
    if es != [] {
      CommitsStep(m, es[0]);
      KnownStep(m, es[0]);
      MakersRun(Happen(m, es[0]), es[1..]);
      ConcatAssociative(m.origins, if es[0].PushRevision? then [m.crit.pid] else [], Makers(Happen(m, es[0]), es[1..]));
    }
  }

  lemma {:induction false} AbsorbedRun(m: Manager, es: seq<Event>)
    requires Known(m) && Happens(m, es)
    ensures Later(m, es).absorbed == m.absorbed + Members(Idlers(m, es))
    decreases |es|
  {
    if es != [] {
      CommitsStep(m, es[0]);
      KnownStep(m, es[0]);
      AbsorbedRun(Happen(m, es[0]), es[1..]);
      MembersJoin(m.absorbed, if es[0].StartCommit? then Won(m, es[0]) else [], Idlers(Happen(m, es[0]), es[1..]));
    }
  }

  lemma {:induction false} FlagsRun(m: Manager, es: seq<Event>)
    requires Happens(m, es)
    ensures var n := Later(m, es);
            && (n.aborted <==> m.aborted || AbortCommit in es)
            && (n.blocked <==> m.blocked || ReapFront(true) in es)
            && (forall pid :: pid in n.withdrawn <==> pid in m.withdrawn || Withdraw(pid) in es)
    decreases |es|
  {
    if es != [] {
      AbortedStep(m, es[0]);
      BlockedStep(m, es[0]);
      WithdrawnStep(m, es[0]);
      FlagsRun(Happen(m, es[0]), es[1..]);
      assert forall e :: e in es <==> e == es[0] || e in es[1..];
    }
  }

  /** A hash counts as taken out of the index exactly if a reap took it out after the commit of
      its proposal was done. */
  lemma {:induction false} PurgedMeansReaped(m: Manager, es: seq<Event>, pid: Pid)
    requires Happens(m, es)
    ensures pid in Later(m, es).purged <==> pid in m.purged || HashReaped(m, es, pid)
    decreases |es|
  {
    if es != [] {
      PurgedStep(m, es[0], pid);
      PurgedMeansReaped(Happen(m, es[0]), es[1..], pid);
    }
  }

  ghost predicate SettledFits(m: Manager) {
    m.settled == {0} + m.done + if m.crit.Queued? then {m.crit.pid} else {}
  }

  lemma SettledFitsStep(m: Manager, e: Event)
    requires SettledFits(m) && Can(m, e)
    ensures SettledFits(Happen(m, e))
  {
  }

  lemma {:induction false} SettledFitsRun(m: Manager, es: seq<Event>)
    requires SettledFits(m) && Happens(m, es)
    ensures SettledFits(Later(m, es))
    decreases |es|
  {
    if es != [] {
      SettledFitsStep(m, es[0]);
      SettledFitsRun(Happen(m, es[0]), es[1..]);
    }
  }

  lemma HandlesStep(m: Manager, e: Event, pid: Pid)
    requires m.strong <= m.table.Keys && Can(m, e)
    ensures var n := Happen(m, e);
            && n.strong <= n.table.Keys && m.table.Keys <= n.table.Keys
            && (pid in n.strong <==> pid in n.table && (pid in m.table ==> pid in m.strong) && e != DropHandle(pid))
  {
    match e {
      case ProposeOnRevision(_, _, _, _, _) =>
      case ProposeOnProposal(_, _, _, _, _) =>
      case StartCommit(_) =>
      case _ =>
    }
  }

  lemma {:induction false} HandlesRun(m: Manager, es: seq<Event>, pid: Pid)
    requires m.strong <= m.table.Keys && Happens(m, es)
    ensures var n := Later(m, es);
            && m.table.Keys <= n.table.Keys
            && (pid in n.strong <==> pid in n.table && (pid in m.table ==> pid in m.strong) && DropHandle(pid) !in es)
    decreases |es|
  {
    if es != [] {
      HandlesStep(m, es[0], pid);
      HandlesRun(Happen(m, es[0]), es[1..], pid);
      assert forall e :: e in es <==> e == es[0] || e in es[1..];
    }
  }

  /** A proposal is held exactly if it was made and its handle was not dropped, and a commit that
      succeeded is done unless its revision is still to be indexed. */
  lemma {:induction false} HandlesAreTrue(mode: Mode, maxRevisions: nat, contents: Contents, nodes: set<NodeId>,
                                          es: seq<Event>, pid: Pid)
    requires Happens(OpenManager(mode, maxRevisions, contents, nodes), es)
    ensures var m := Later(OpenManager(mode, maxRevisions, contents, nodes), es);
            && (pid in m.strong <==> pid in m.table && DropHandle(pid) !in es)
            && m.settled == {0} + m.done + (if m.crit.Queued? then {m.crit.pid} else {})
  {
    HandlesRun(OpenManager(mode, maxRevisions, contents, nodes), es, pid);
    SettledFitsRun(OpenManager(mode, maxRevisions, contents, nodes), es);
  }

  /** In every run the batches committed are those of the proposals whose commits succeed, in that
      order, and applied in that order they make the latest contents; the revisions come from
      those that are not absorbed, in that order; and the flags tell which events there were. */
  lemma {:induction false} HistoryIsTrue(mode: Mode, maxRevisions: nat, contents: Contents, nodes: set<NodeId>,
                                         es: seq<Event>)
    requires 2 <= maxRevisions && Happens(OpenManager(mode, maxRevisions, contents, nodes), es)
    ensures var m0 := OpenManager(mode, maxRevisions, contents, nodes);
            var m := Later(m0, es);
            && m.commits == Batches(m.table, Winners(m0, es))
            && m.revisions != [] && Last(m.revisions).contents == Fold(contents, Batches(m.table, Winners(m0, es)))
            && m.settled == {0} + Members(Winners(m0, es))
            && m.origins == [0] + Makers(m0, es)
            && m.absorbed == Members(Idlers(m0, es))
            && (m.aborted <==> AbortCommit in es)
            && (m.blocked <==> ReapFront(true) in es)
            && (forall pid :: pid in m.withdrawn <==> Withdraw(pid) in es)
            && (forall pid :: pid in m.purged <==> HashReaped(m0, es, pid))
  {
    var m0 := OpenManager(mode, maxRevisions, contents, nodes);
    CommitsRun(m0, es);
    SettledRun(m0, es);
    MakersRun(m0, es);
    AbsorbedRun(m0, es);
    FlagsRun(m0, es);
    NoLostUpdates(mode, maxRevisions, contents, nodes, es);
    forall pid ensures pid in Later(m0, es).purged <==> HashReaped(m0, es, pid) { PurgedMeansReaped(m0, es, pid); }
  }
}
