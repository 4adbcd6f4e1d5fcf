/** The revision manager: proposals, commits, the revision queue and its index by root hash
    (`firewood/src/manager.rs`), as a machine whose events are the steps that other threads
    can see.

    A root hash is taken as collision-free: it is the contents it is the hash of. A trie node
    is named by the proposal that made it, so that a node made by one proposal is never
    mistaken for another's.
 */
module Manager {
  import opened Nibbles
  import opened Diff
  import opened DiffMap

  type Id = nat
  type Pid = nat

  datatype Hash = Hash(of: Contents)
  datatype Mode = MerkleDb | Ethereum
  datatype NodeId = NodeId(owner: Pid, k: nat)

  /** `NodeStore<Committed>`. `ancestors` are the proposals whose nodes may be in it. */
  datatype Revision = Revision(id: Id, contents: Contents, nodes: set<NodeId>, deleted: set<NodeId>,
                               ancestors: set<Pid>)

  /** `NodeStoreParent`. */
  datatype Parent = Committed(hash: Option<Hash>, id: Id) | Proposed(pid: Pid)

  /** `NodeStore<ImmutableProposal>`, with what it was made from: `base` is the contents of
      its parent, `ops` the batch, and `baseNum` the commit number of a committed parent. */
  datatype Proposal = Proposal(parent: Parent, contents: Contents, nodes: set<NodeId>, deleted: set<NodeId>,
                               base: Contents, ops: seq<BatchOp>, baseNum: nat, ancestors: set<Pid>)

  function RootHash(c: Contents): Option<Hash> {
    if c == map[] then None else Some(Hash(c))
  }

  /** The hash a revision is indexed under: an empty trie has no root, but under Ethereum
      hashing it has a default hash. */
  function IndexHash(mode: Mode, c: Contents): Option<Hash> {
    if c == map[] && mode.MerkleDb? then None else Some(Hash(c))
  }

  /** The commit that holds the write lock on the queue. */
  datatype Critical = Free | Building(pid: Pid, rev: Revision) | Queued(pid: Pid, rev: Revision)

  datatype Cleanup = Cleanup(pid: Pid, id: Id, num: nat)

  /** `revisions`, `byHash` and `tracked` are the manager's queue, index and proposal list;
      `table` holds every proposal made and `strong` those referenced outside the list. The
      rest are history variables: all revisions and batches committed, proposals settled by a
      commit, those whose critical section is over, those whose hash was taken out of the
      index since, those withdrawn by a rebase, and whether a commit failed or a reap was
      blocked; the proposal each revision was made from, the proposals that a trivial commit
      absorbed, and for each proposal the nodes that absorbed proposals took out between the
      revision it stands on and itself. */
  datatype Manager = Manager(
    mode: Mode, maxRevisions: nat,
    revisions: seq<Revision>, byHash: map<Hash, Revision>, tracked: seq<Pid>,
    table: map<Pid, Proposal>, strong: set<Pid>, crit: Critical, cleanups: set<Cleanup>, nextId: Id,
    history: seq<Revision>, commits: seq<seq<BatchOp>>, settled: set<Pid>, done: set<Pid>, purged: set<Pid>,
    withdrawn: set<Pid>, aborted: bool, blocked: bool,
    origins: seq<Pid>, absorbed: set<Pid>, skipped: map<Pid, set<NodeId>>)

  function Last<T>(s: seq<T>): T
    requires s != []
  {
    s[|s| - 1]
  }

  /** The commit number of the latest revision. */
  function Newest(m: Manager): nat {
    if m.history == [] then 0 else |m.history| - 1
  }

  /** The index with one more revision, if that has an index hash. */
  function Enter(byHash: map<Hash, Revision>, mode: Mode, r: Revision): map<Hash, Revision> {
    var h := IndexHash(mode, r.contents);
    if h.Some? then byHash[h.value := r] else byHash
  }

  function OpenManager(mode: Mode, maxRevisions: nat, contents: Contents, nodes: set<NodeId>): Manager {
    var first := Revision(0, contents, nodes, {}, {0});
    Manager(mode, maxRevisions, [first], Enter(map[], mode, first), [],
            map[], {}, Free, {}, 1, [first], [], {0}, {}, {}, {}, false, false, [0], {}, map[])
  }

  datatype Event =
    | ProposeOnRevision(pid: Pid, num: nat, ops: seq<BatchOp>, deleted: set<NodeId>, made: set<NodeId>)
    | ProposeOnProposal(pid: Pid, on: Pid, ops: seq<BatchOp>, deleted: set<NodeId>, made: set<NodeId>)
    | Withdraw(pid: Pid)
    | DropHandle(pid: Pid)
    | StartCommit(pid: Pid)
    | ReapFront(referenced: bool)
    | PushRevision
    | IndexRevision
    | AbortCommit
    | CleanUp(what: Cleanup)

  /** `made` are new nodes of proposal `pid`, `deleted` nodes of its parent. */
  ghost predicate NodesFit(pid: Pid, parentNodes: set<NodeId>, deleted: set<NodeId>, made: set<NodeId>) {
    deleted <= parentNodes && forall x | x in made :: x.owner == pid
  }

  predicate Busy(m: Manager, pid: Pid) {
    (!m.crit.Free? && m.crit.pid == pid) || exists c | c in m.cleanups :: c.pid == pid
  }

  ghost predicate Can(m: Manager, e: Event) {
    match e
    case ProposeOnRevision(pid, num, ops, deleted, made) =>
      pid !in m.table && pid != 0 && num < |m.history| && NodesFit(pid, m.history[num].nodes, deleted, made)
    case ProposeOnProposal(pid, q, ops, deleted, made) =>
      pid !in m.table && pid != 0 && q in m.table && NodesFit(pid, m.table[q].nodes, deleted, made)
    case Withdraw(pid) => pid in m.table && !Busy(m, pid)
    case DropHandle(pid) => pid in m.strong && !Busy(m, pid)
    case StartCommit(pid) => m.crit.Free? && pid in m.table && pid in m.strong && m.revisions != []
    case ReapFront(_) => m.crit.Building? && |m.revisions| >= m.maxRevisions && m.revisions != []
    case PushRevision => m.crit.Building?
    case IndexRevision => m.crit.Queued?
    case AbortCommit => m.crit.Building?
    case CleanUp(c) => c in m.cleanups && c.pid in m.table
  }

  function AddProposal(m: Manager, pid: Pid, p: Proposal): Manager {
    m.(table := m.table[pid := p], tracked := m.tracked + [pid], strong := m.strong + {pid},
       skipped := m.skipped[pid := {}])
  }

  function Without<K, V>(m: map<K, V>, k: Option<K>): map<K, V> {
    if k.Some? then m - {k.value} else m
  }

  function Members(tracked: seq<Pid>): set<Pid> {
    set q | q in tracked
  }

  /** `Vec::retain`. */
  function Retain(tracked: seq<Pid>, keep: set<Pid>): (r: seq<Pid>)
    ensures forall q :: q in r <==> q in tracked && q in keep
  {
    if tracked == [] then []
    else Retain(tracked[..|tracked| - 1], keep) + (if Last(tracked) in keep then [Last(tracked)] else [])
  }

  /** `commit_reparent` for every proposal left in the list: a child of the committed proposal
      becomes a child of the revision it now lives in. */
  function Reparent(table: map<Pid, Proposal>, survivors: seq<Pid>, c: Cleanup): (t: map<Pid, Proposal>)
    requires c.pid in table
    ensures t.Keys == table.Keys
  {
    map q | q in table ::
      if q in survivors && table[q].parent == Proposed(c.pid)
      then table[q].(parent := Committed(RootHash(table[c.pid].contents), c.id), baseNum := c.num)
      else table[q]
  }

  /** A child moved past an absorbed proposal stands on a revision whose nodes that proposal took
      out, though no commit will ever say so. */
  function Skip(m: Manager, survivors: seq<Pid>, pid: Pid): map<Pid, set<NodeId>>
    requires pid in m.table
  {
    map q | q in m.skipped ::
      if q in survivors && q in m.table && m.table[q].parent == Proposed(pid) && pid in m.skipped
      then m.skipped[pid] + m.table[pid].deleted
      else m.skipped[q]
  }

  function Become(p: Proposal, id: Id): Revision {
    Revision(id, p.contents, p.nodes, p.deleted, p.ancestors)
  }

  /** `view` finds committed revisions of this hash through the index only. */
  function PurgedBy(m: Manager, h: Option<Hash>): set<Pid> {
    if h.None? then {}
    else set pid | pid in m.done && pid in m.table && RootHash(m.table[pid].contents) == h
  }

  function Happen(m: Manager, e: Event): Manager
    requires Can(m, e)
  {
    match e
    case ProposeOnRevision(pid, num, ops, deleted, made) =>
      var r := m.history[num];
      AddProposal(m, pid, Proposal(Committed(RootHash(r.contents), r.id), Apply(r.contents, ops),
                                   r.nodes - deleted + made, deleted, r.contents, ops, num, r.ancestors + {pid}))
    case ProposeOnProposal(pid, q, ops, deleted, made) =>
      var p := m.table[q];
      AddProposal(m, pid, Proposal(Proposed(q), Apply(p.contents, ops), p.nodes - deleted + made, deleted,
                                   p.contents, ops, 0, p.ancestors + {pid}))
    case Withdraw(pid) =>
      m.(tracked := Retain(m.tracked, Members(m.tracked) - {pid}), withdrawn := m.withdrawn + {pid})
    case DropHandle(pid) => m.(strong := m.strong - {pid})
    case StartCommit(pid) => Start(m, pid)
    case ReapFront(referenced) =>
      var h := IndexHash(m.mode, m.revisions[0].contents);
      var gone := m.(byHash := Without(m.byHash, h), purged := m.purged + PurgedBy(m, h));
      if referenced then gone.(blocked := true) else gone.(revisions := m.revisions[1..])
    case PushRevision =>
      m.(crit := Queued(m.crit.pid, m.crit.rev), revisions := m.revisions + [m.crit.rev],
         history := m.history + [m.crit.rev], settled := m.settled + {m.crit.pid},
         origins := m.origins + [m.crit.pid],
         commits := m.commits + (if m.crit.pid in m.table then [m.table[m.crit.pid].ops] else []))
    case IndexRevision =>
      m.(crit := Free, byHash := Enter(m.byHash, m.mode, m.crit.rev),
         cleanups := m.cleanups + {Cleanup(m.crit.pid, m.crit.rev.id, Newest(m))},
         done := m.done + {m.crit.pid})
    case AbortCommit => m.(crit := Free, aborted := true)
    case CleanUp(c) =>
      var survivors := Retain(m.tracked, m.strong - {c.pid});
      m.(tracked := survivors, table := Reparent(m.table, survivors, c), cleanups := m.cleanups - {c},
         skipped := if c.pid in m.absorbed then Skip(m, survivors, c.pid) else m.skipped)
  }

  /** The checks at the top of `commit_critical_section`. */
  function Start(m: Manager, pid: Pid): Manager
    requires pid in m.table && m.revisions != []
  {
    var p, current := m.table[pid], Last(m.revisions);
    if m.aborted then m
    else if !(p.parent.Committed? && p.parent.id == current.id) then m
    else if RootHash(p.contents) == RootHash(current.contents) then
      m.(cleanups := m.cleanups + {Cleanup(pid, current.id, Newest(m))}, commits := m.commits + [p.ops],
         settled := m.settled + {pid}, done := m.done + {pid}, absorbed := m.absorbed + {pid})
    else m.(crit := Building(pid, Become(p, m.nextId)), nextId := m.nextId + 1)
  }

  // ---- The queue ----

  ghost predicate Ordered(history: seq<Revision>, bound: Id) {
    && (forall i, j | 0 <= i < j < |history| :: history[i].id < history[j].id)
    && (forall i | 0 <= i < |history| :: history[i].id < bound)
  }

  ghost predicate IdsOrdered(m: Manager) {
    && Ordered(m.history, m.nextId)
    && (m.crit.Building? ==> m.crit.rev.id < m.nextId && Ordered(m.history, m.crit.rev.id))
  }

  ghost predicate Suffix(part: seq<Revision>, whole: seq<Revision>) {
    1 <= |part| <= |whole| && part == whole[|whole| - |part|..]
  }

  /** The queue is the newest part of the history and never empty. */
  ghost predicate QueueOk(m: Manager) {
    2 <= m.maxRevisions && Suffix(m.revisions, m.history)
  }

  lemma SuffixPop(part: seq<Revision>, whole: seq<Revision>)
    requires Suffix(part, whole) && |part| >= 2
    ensures Suffix(part[1..], whole) && Last(part[1..]) == Last(part)
  {
  }

  lemma SuffixPush(part: seq<Revision>, whole: seq<Revision>, r: Revision)
    requires Suffix(part, whole)
    ensures Suffix(part + [r], whole + [r])
  {
  }

  lemma SuffixLast(part: seq<Revision>, whole: seq<Revision>)
    requires Suffix(part, whole)
    ensures Last(part) == Last(whole)
  {
  }

  lemma OrderedPush(history: seq<Revision>, r: Revision, bound: Id)
    requires Ordered(history, r.id) && r.id < bound
    ensures Ordered(history + [r], bound)
  {
  }

  lemma OthersLeaveQueue(m: Manager, e: Event)
    requires Can(m, e) && !e.ReapFront? && !e.PushRevision?
    ensures var n := Happen(m, e);
            n.revisions == m.revisions && n.history == m.history && n.maxRevisions == m.maxRevisions
  {
  }

  lemma ReapQueue(m: Manager, referenced: bool)
    requires QueueOk(m) && Can(m, ReapFront(referenced))
    ensures QueueOk(Happen(m, ReapFront(referenced)))
  {
    if !referenced { SuffixPop(m.revisions, m.history); }
  }

  lemma QueueKept(m: Manager, e: Event)
    requires QueueOk(m) && Can(m, e)
    ensures QueueOk(Happen(m, e))
  {
    match e {
      case ReapFront(referenced) => ReapQueue(m, referenced);
      case PushRevision => SuffixPush(m.revisions, m.history, m.crit.rev);
      case _ => OthersLeaveQueue(m, e);
    }
  }

  lemma IdsKept(m: Manager, e: Event)
    requires IdsOrdered(m) && Can(m, e)
    ensures IdsOrdered(Happen(m, e))
  {
    match e {
      case PushRevision => OrderedPush(m.history, m.crit.rev, m.nextId);
      case _ =>
    }
  }

  // ---- Runs ----

  ghost predicate Happens(m: Manager, es: seq<Event>)
    decreases |es|
  {
    es == [] || (Can(m, es[0]) && Happens(Happen(m, es[0]), es[1..]))
  }

  ghost function Later(m: Manager, es: seq<Event>): Manager
    requires Happens(m, es)
    decreases |es|
  {
    if es == [] then m else Later(Happen(m, es[0]), es[1..])
  }

  lemma {:induction false} OneMore(m: Manager, es: seq<Event>, e: Event)
    requires Happens(m, es) && Can(Later(m, es), e)
    ensures Happens(m, es + [e]) && Later(m, es + [e]) == Happen(Later(m, es), e)
    decreases |es|
  {
    if es == [] {
      assert (es + [e])[1..] == [];
      assert Happens(Happen(m, e), []);
    } else {
      assert (es + [e])[1..] == es[1..] + [e];
      OneMore(Happen(m, es[0]), es[1..], e);
    }
  }

  ghost predicate Reachable(m: Manager, n: Manager) {
    exists es :: Happens(m, es) && n == Later(m, es)
  }

  lemma ReachableAfter(m: Manager, e: Event, n: Manager)
    requires Can(m, e) && Reachable(Happen(m, e), n)
    ensures Reachable(m, n)
  {
    var es :| Happens(Happen(m, e), es) && n == Later(Happen(m, e), es);
    assert ([e] + es)[1..] == es;
    assert Happens(m, [e] + es);
  }

  lemma ReachableSelf(m: Manager)
    ensures Reachable(m, m)
  {
    assert Happens(m, []) && Later(m, []) == m;
  }

  lemma ReachableOn(m: Manager, n: Manager, e: Event)
    requires Reachable(m, n) && Can(n, e)
    ensures Reachable(m, Happen(n, e))
  {
    var es :| Happens(m, es) && n == Later(m, es);
    OneMore(m, es, e);
  }

  lemma ReachableThen(a: Manager, b: Manager, c: Manager)
    requires Reachable(a, b) && Reachable(b, c)
    ensures Reachable(a, c)
  {
    var es :| Happens(b, es) && c == Later(b, es);
    ReachableRun(a, b, es);
  }

  lemma {:induction false} ReachableRun(a: Manager, b: Manager, es: seq<Event>)
    requires Reachable(a, b) && Happens(b, es)
    ensures Reachable(a, Later(b, es))
    decreases |es|
  {
    if es != [] {
      ReachableOn(a, b, es[0]);
      ReachableRun(a, Happen(b, es[0]), es[1..]);
    }
  }
}
