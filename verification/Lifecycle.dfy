/** The life of a revision from commit to reaping, across the revision queue of
    `firewood/src/manager.rs` and the worker of `firewood/src/persist_worker.rs`.

    The queue is a run of consecutive commit numbers, from `front` to the worker's `pushed`.
    Any number of readers hold revisions; one commit at a time is in its critical section.
 */
module Lifecycle {
  import opened Sequences
  import opened Nibbles
  import opened Persist

  datatype Config = Config(maxRevisions: nat, gap: U64, archival: bool)

  /** `RevisionManager::new` refuses other configurations. */
  predicate Accepted(c: Config) {
    c.gap > 0 && c.maxRevisions > c.gap
  }

  /** A queue longer than the gap, or a gap of one: then only the latest revision can be
      missing on disk, and that one is still referenced. */
  predicate Safe(c: Config) {
    c.gap > 0 && (c.maxRevisions > c.gap || c.gap == 1)
  }

  /** How far the commit that holds the write lock has come. */
  datatype Phase = Idle | Reaping | Submitting

  datatype Life = Life(cfg: Config, front: nat, w: Worker, phase: Phase, held: multiset<nat>)

  function Opened(c: Config): Life
    requires c.gap > 0
  {
    Life(c, 0, NewWorker(c.gap), Idle, multiset{})
  }

  function Length(s: Life): int {
    s.w.pushed + 1 - s.front
  }

  /** Somebody else has a reference to revision `n`, so that `Arc::try_unwrap` fails: a
      reader, the channel or the cycle in flight. The one the worker keeps for its shutdown does
      not matter: nobody commits then. */
  predicate Referenced(s: Life, n: nat) {
    || n in s.held
    || s.w.ch.latest == Some(n)
    || (s.w.bg.Cycle? && s.w.bg.guard.revision == Some(n))
  }

  datatype Event =
    | Begin | ReapOldest | ReapEnd | Submit | Close
    | Thread(step: Step)
    | Hold(n: nat) | Unhold(n: nat)

  predicate Can(s: Life, e: Event) {
    match e
    case Begin => s.phase.Idle? && !s.w.error && s.w.last.None?
    case ReapOldest => s.phase.Reaping? && !s.w.parked && Length(s) >= s.cfg.maxRevisions && Length(s) > 0
    case ReapEnd => s.phase.Reaping? && Length(s) < s.cfg.maxRevisions
    case Submit => s.phase.Submitting? && !s.w.parked
    case Close => s.phase.Idle? && Enabled(s.w, CloseWorker)
    case Thread(a) => Background?(a) && Enabled(s.w, a)
    case Hold(n) => s.front <= n <= s.w.pushed
    case Unhold(n) => n in s.held
  }

  /** A commit whose reap or push finds the channel shut gives up: it ends with an error. */
  function Happen(s: Life, e: Event): Life
    requires Can(s, e)
  {
    match e
    case Begin => s.(phase := Reaping)
    case ReapOldest =>
      if Referenced(s, s.front) then s.(phase := Submitting)
      else if s.cfg.archival then s.(front := s.front + 1)
      else if s.w.ch.shutdown then s.(front := s.front + 1, phase := Idle)
      else s.(front := s.front + 1, w := Do(s.w, SendReap(s.front)))
    case ReapEnd => s.(phase := Submitting)
    case Submit =>
      if s.w.ch.shutdown then s.(phase := Idle)
      else
        var v := Do(s.w, SendRevision);
        s.(w := v, phase := if v.parked then Submitting else Idle)
    case Close => s.(w := Do(s.w, CloseWorker))
    case Thread(a) => s.(w := Do(s.w, a))
    case Hold(n) => s.(held := s.held[n := s.held[n] + 1])
    case Unhold(n) => s.(held := s.held[n := s.held[n] - 1])
  }

  ghost predicate Happens(s: Life, es: seq<Event>)
    decreases |es|
  {
    es == [] || (Can(s, es[0]) && Happens(Happen(s, es[0]), es[1..]))
  }

  ghost function Later(s: Life, es: seq<Event>): Life
    requires Happens(s, es)
    decreases |es|
  {
    if es == [] then s else Later(Happen(s, es[0]), es[1..])
  }

  // ---- Reaping is safe ----

  /** Revisions sent to be reaped and not yet reaped. */
  function Waiting(w: Worker): seq<nat> {
    (if w.bg.Cycle? then w.bg.guard.reaps else []) + w.ch.reaps
  }

  /** All revisions sent to be reaped, but for those a failure has dropped. */
  function Sent(w: Worker): seq<nat> {
    w.freed + Waiting(w)
  }

  ghost predicate AllAtMost(ns: seq<nat>, bound: int) {
    forall n | n in ns :: n <= bound
  }

  ghost predicate Increasing(ns: seq<nat>) {
    forall i, j | 0 <= i < j < |ns| :: ns[i] < ns[j]
  }

  /** The background thread moves revisions along and reorders nothing. */
  lemma ThreadMovesReaps(w: Worker, a: Step)
    requires Background?(a) && Enabled(w, a)
    ensures a != Fail ==> Sent(Do(w, a)) == Sent(w)
    ensures a == Fail ==> Sent(Do(w, a)) == w.freed + w.ch.reaps
    ensures !a.ReapNext? ==> Do(w, a).freed == w.freed
    ensures !a.ReapNext? && !a.Fail? ==> Waiting(Do(w, a)) == Waiting(w)
  {
    match a {
      case Pop => PopMovesReaps(w);
      case ReapNext => NextMovesReaps(w.freed, w.bg.guard.reaps, w.ch.reaps);
      case Fail => assert Waiting(Do(w, a)) == [] + w.ch.reaps == w.ch.reaps;
      case _ => OthersLeaveReaps(w, a);
    }
  }

  lemma PopMovesReaps(w: Worker)
    requires Enabled(w, Pop)
    ensures Waiting(Do(w, Pop)) == Waiting(w) && Do(w, Pop).freed == w.freed
  {
    assert [] + w.ch.reaps == w.ch.reaps + [];
  }

  lemma NextMovesReaps(freed: seq<nat>, taken: seq<nat>, queued: seq<nat>)
    requires taken != []
    ensures (freed + [taken[0]]) + (taken[1..] + queued) == freed + (taken + queued)
  {
    HeadTail(taken);
    ConcatAssociative([taken[0]], taken[1..], queued);
    ConcatAssociative(freed, [taken[0]], taken[1..] + queued);
  }

  lemma OthersLeaveReaps(w: Worker, a: Step)
    requires Background?(a) && Enabled(w, a) && !a.Pop? && !a.ReapNext? && !a.Fail?
    ensures Waiting(Do(w, a)) == Waiting(w) && Do(w, a).freed == w.freed
  {
  }

  ghost predicate Shape(s: Life) {
    && WorkerInv(s.w) && s.w.ch.max == s.cfg.gap
    && (s.w.parked ==> s.phase.Submitting?)
    && s.front <= s.w.pushed + 1
    && (forall n | n in s.held :: s.front <= n <= s.w.pushed)
  }

  /** What is reaped has left the queue, each revision once. */
  ghost predicate Gone(s: Life) {
    Increasing(Sent(s.w)) && AllAtMost(Sent(s.w), s.front - 1)
  }

  /** What is reaped, or may still be, is no newer than what is on disk. */
  ghost predicate Covered(s: Life) {
    AllAtMost(s.w.freed, s.w.disk) && (!Failed(s.w) ==> AllAtMost(Waiting(s.w), s.w.disk))
  }

  ghost predicate LifeInv(s: Life) {
    Shape(s) && Gone(s) && Covered(s)
  }

  /** The heart of the matter: the revision about to be reaped is not newer than the one on
      disk, because the queue is longer than the gap; with a gap of one, because the only
      revision that may not be on disk is in the worker's hands. */
  lemma OldestIsOnDisk(s: Life)
    requires Safe(s.cfg) && Shape(s) && Can(s, ReapOldest) && !Failed(s.w) && !Referenced(s, s.front)
    ensures s.front <= s.w.disk
  {
  }

  lemma ThreadShape(s: Life, a: Step)
    requires Shape(s) && Can(s, Thread(a))
    ensures Shape(Happen(s, Thread(a)))
  {
    WorkerKeeps(s.w, a);
  }

  lemma SubmitShape(s: Life)
    requires Shape(s) && Can(s, Submit)
    ensures Shape(Happen(s, Submit))
  {
    if !s.w.ch.shutdown { WorkerKeeps(s.w, SendRevision); }
  }

  lemma ShapeKept(s: Life, e: Event)
    requires Shape(s) && Can(s, e)
    ensures Shape(Happen(s, e))
  {
    match e {
      case ReapOldest => if !s.w.ch.shutdown { WorkerKeeps(s.w, SendReap(s.front)); }
      case Submit => SubmitShape(s);
      case Close => WorkerKeeps(s.w, CloseWorker);
      case Thread(a) => ThreadShape(s, a);
      case _ =>
    }
  }

  lemma AppendReap(ns: seq<nat>, n: nat)
    requires Increasing(ns) && AllAtMost(ns, n - 1)
    ensures Increasing(ns + [n]) && AllAtMost(ns + [n], n)
  {
    assert forall i | 0 <= i < |ns| :: ns[i] in ns;
  }

  lemma DropReaps(a: seq<nat>, b: seq<nat>, c: seq<nat>, bound: int)
    requires Increasing(a + (b + c)) && AllAtMost(a + (b + c), bound)
    ensures Increasing(a + c) && AllAtMost(a + c, bound)
  {
    var whole, part := a + (b + c), a + c;
    forall i, j | 0 <= i < j < |part| ensures part[i] < part[j] {
      assert part[i] == whole[if i < |a| then i else i + |b|];
      assert part[j] == whole[if j < |a| then j else j + |b|];
    }
    forall n | n in part ensures n <= bound { assert n in whole; }
  }

  lemma GoneKept(s: Life, e: Event)
    requires Gone(s) && Can(s, e)
    ensures Gone(Happen(s, e))
  {
    match e {
      case ReapOldest =>
        AppendReap(Sent(s.w), s.front);
        assert s.w.freed + (Waiting(s.w) + [s.front]) == Sent(s.w) + [s.front];
        assert Waiting(s.w.(ch := Reaped(s.w.ch, s.front))) == Waiting(s.w) + [s.front];
      case Thread(a) =>
        ThreadMovesReaps(s.w, a);
        if a.Fail? {
          DropReaps(s.w.freed, if s.w.bg.Cycle? then s.w.bg.guard.reaps else [], s.w.ch.reaps, s.front - 1);
        }
      case _ =>
    }
  }

  lemma ThreadCovers(w: Worker, a: Step)
    requires WorkerInv(w) && Background?(a) && Enabled(w, a)
    requires AllAtMost(w.freed, w.disk) && (!Failed(w) ==> AllAtMost(Waiting(w), w.disk))
    ensures var v := Do(w, a); AllAtMost(v.freed, v.disk) && (!Failed(v) ==> AllAtMost(Waiting(v), v.disk))
  {
    StepAdvances(w, a);
    ThreadMovesReaps(w, a);
    if a.ReapNext? {
      assert w.bg.guard.reaps[0] in Waiting(w);
      assert forall n | n in Waiting(Do(w, a)) :: n in Waiting(w);
    }
  }

  lemma CoveredKept(s: Life, e: Event)
    requires Safe(s.cfg) && Shape(s) && Covered(s) && Can(s, e)
    ensures Covered(Happen(s, e))
  {
    match e {
      case ReapOldest =>
        if !Failed(s.w) && !Referenced(s, s.front) { OldestIsOnDisk(s); }
        assert Waiting(s.w.(ch := Reaped(s.w.ch, s.front))) == Waiting(s.w) + [s.front];
      case Thread(a) => ThreadCovers(s.w, a);
      case _ =>
    }
  }

  lemma LifeStarts(c: Config)
    requires c.gap > 0
    ensures LifeInv(Opened(c))
  {
    WorkerStarts(c.gap);
  }

  lemma {:induction false} LifeKept(s: Life, es: seq<Event>)
    requires Safe(s.cfg) && LifeInv(s) && Happens(s, es)
    ensures LifeInv(Later(s, es)) && Later(s, es).cfg == s.cfg
    decreases |es|
  {
    if es != [] {
      ShapeKept(s, es[0]);
      GoneKept(s, es[0]);
      CoveredKept(s, es[0]);
      LifeKept(Happen(s, es[0]), es[1..]);
    }
  }

  lemma PrefixBehind(a: seq<nat>, b: seq<nat>, bound: int)
    requires Increasing(a + b) && AllAtMost(a + b, bound)
    ensures Increasing(a) && AllAtMost(a, bound)
  {
    assert forall i | 0 <= i < |a| :: a[i] == (a + b)[i];
    assert forall n | n in a :: n in a + b;
  }

  lemma FreedIsReaped(s: Life)
    requires Gone(s)
    ensures Increasing(s.w.freed) && AllAtMost(s.w.freed, s.front - 1)
  {
    PrefixBehind(s.w.freed, Waiting(s.w), s.front - 1);
  }

  /** In every run of a safe configuration, and every accepted one is safe, whatever fails on
      the way: a reaped revision
      has left the queue, so no reader holds it, it is reaped once, and it is no newer than
      the revision on disk. */
  lemma {:induction false} ReapedIsBehind(c: Config, es: seq<Event>)
    requires Safe(c) && Happens(Opened(c), es)
    ensures var s := Later(Opened(c), es);
            && Increasing(s.w.freed)
            && AllAtMost(s.w.freed, s.w.disk)
            && AllAtMost(s.w.freed, s.front - 1)
            && (forall n | n in s.held :: s.front <= n)
  {
    LifeStarts(c);
    LifeKept(Opened(c), es);
    FreedIsReaped(Later(Opened(c), es));
  }

  // ---- The bound is exact ----

  /** No run ever reaps a revision newer than the one on disk. */
  ghost predicate NeverAhead(c: Config)
    requires c.gap > 0
  {
    forall es | Happens(Opened(c), es) :: AllAtMost(Later(Opened(c), es).w.freed, Later(Opened(c), es).w.disk)
  }

  ghost function UpTo(n: nat): seq<nat> {
    if n == 0 then [] else UpTo(n - 1) + [n - 1]
  }

  /** How many revisions have been sent to be reaped after `k` commits. */
  function SentAfter(c: Config, k: nat): nat {
    if k + 1 <= c.maxRevisions then 0 else k + 1 - c.maxRevisions
  }

  /** The state after `k` commits during which the background thread never got to run. */
  ghost function Lagging(c: Config, k: nat): Life
    requires 0 < c.gap && k <= c.gap
  {
    var ch := NewChannel(c.gap).(permits := c.gap - k, reaps := UpTo(SentAfter(c, k)),
                                 latest := if k == 0 then None else Some(k));
    Opened(c).(front := SentAfter(c, k), w := NewWorker(c.gap).(ch := ch, pushed := k))
  }

  lemma {:induction false} HappensConcat(s: Life, a: seq<Event>, b: seq<Event>)
    requires Happens(s, a) && Happens(Later(s, a), b)
    ensures Happens(s, a + b) && Later(s, a + b) == Later(Later(s, a), b)
    decreases |a|
  {
    if a == [] {
      assert a + b == b;
    } else {
      assert (a + b)[1..] == a[1..] + b;
      HappensConcat(Happen(s, a[0]), a[1..], b);
    }
  }

  lemma {:induction false} OneEvent(s: Life, e: Event)
    requires Can(s, e)
    ensures Happens(s, [e]) && Later(s, [e]) == Happen(s, e)
  {
    assert [e][1..] == [];
    assert Happens(Happen(s, e), []);
  }

  /** `t` can be reached from `s`. */
  ghost predicate Leads(s: Life, t: Life) {
    exists es :: Happens(s, es) && Later(s, es) == t
  }

  lemma LeadsEvent(s: Life, e: Event)
    requires Can(s, e)
    ensures Leads(s, Happen(s, e))
  {
    OneEvent(s, e);
  }

  lemma LeadsOn(s: Life, t: Life, u: Life)
    requires Leads(s, t) && Leads(t, u)
    ensures Leads(s, u)
  {
    var a :| Happens(s, a) && Later(s, a) == t;
    var b :| Happens(t, b) && Later(t, b) == u;
    HappensConcat(s, a, b);
  }

  lemma LeadsThen(s: Life, t: Life, e: Event)
    requires Leads(s, t) && Can(t, e)
    ensures Leads(s, Happen(t, e))
  {
    LeadsEvent(t, e);
    LeadsOn(s, t, Happen(t, e));
  }

  /** The start of one more commit: if the queue is full the oldest revision is sent to be
      reaped before the new one is pushed. */
  lemma LaggingReaps(c: Config, k: nat) returns (t: Life)
    requires 0 < c.gap && 2 <= c.maxRevisions && !c.archival && k <= c.gap
    ensures Leads(Lagging(c, k), t)
    ensures t.phase.Reaping? && t.front == SentAfter(c, k + 1)
    ensures t == Lagging(c, k).(phase := Reaping, front := t.front,
                                w := Lagging(c, k).w.(ch := Lagging(c, k).w.ch.(reaps := UpTo(t.front))))
  {
    var s := Lagging(c, k);
    LeadsEvent(s, Begin);
    t := Happen(s, Begin);
    if Length(t) >= c.maxRevisions {
      LeadsThen(s, t, ReapOldest);
      t := Happen(t, ReapOldest);
    }
  }

  lemma LaggingCommits(c: Config, k: nat)
    requires 0 < c.gap && 2 <= c.maxRevisions && !c.archival && k < c.gap
    ensures Leads(Lagging(c, k), Lagging(c, k + 1))
  {
    var s := Lagging(c, k);
    var t := LaggingReaps(c, k);
    LeadsThen(s, t, ReapEnd);
    LeadsThen(s, Happen(t, ReapEnd), Submit);
    assert Happen(Happen(t, ReapEnd), Submit) == Lagging(c, k + 1);
  }

  lemma {:induction false} LaggingReached(c: Config, k: nat)
    requires 0 < c.gap && 2 <= c.maxRevisions && !c.archival && k <= c.gap
    ensures Leads(Opened(c), Lagging(c, k))
  {
    if k == 0 {
      assert Lagging(c, 0) == Opened(c);
      assert Happens(Opened(c), []) && Later(Opened(c), []) == Opened(c);
    } else {
      LaggingReached(c, k - 1);
      LaggingCommits(c, k - 1);
      LeadsOn(Opened(c), Lagging(c, k - 1), Lagging(c, k));
    }
  }

  /** Once a cycle has been taken, its reaps can all go through before anything is
      persisted. */
  lemma {:induction false} CycleReaps(s: Life)
    requires s.w.bg.Cycle? && s.w.bg.guard.reaps != []
    ensures exists t :: Leads(s, t) && t.w.disk == s.w.disk && s.w.bg.guard.reaps[|s.w.bg.guard.reaps| - 1] in t.w.freed
    decreases |s.w.bg.guard.reaps|
  {
    var rs := s.w.bg.guard.reaps;
    var t := Happen(s, Thread(ReapNext));
    LeadsEvent(s, Thread(ReapNext));
    if |rs| == 1 {
      assert rs[0] in t.w.freed;
    } else {
      CycleReaps(t);
      var u :| Leads(t, u) && u.w.disk == s.w.disk && rs[1..][|rs[1..]| - 1] in u.w.freed;
      LeadsOn(s, t, u);
    }
  }

  /** With a gap at least as large as the queue, a committer can outrun the thread so far that
      a revision newer than the one on disk is reaped. */
  lemma GapTooLarge(c: Config)
    requires 2 <= c.maxRevisions <= c.gap && !c.archival
    ensures !NeverAhead(c)
  {
    var s := Lagging(c, c.gap);
    LaggingReached(c, c.gap);
    var t := LaggingReaps(c, c.gap);
    LeadsOn(Opened(c), s, t);
    SentAhead(c, t);
  }

  /** A revision that was sent to be reaped before anything was persisted gets reaped. */
  lemma SentAhead(c: Config, t: Life)
    requires c.gap > 0 && Leads(Opened(c), t) && t.w.bg.Ready? && !t.w.ch.shutdown && t.w.disk == 0
    requires t.w.ch.reaps != [] && t.w.ch.reaps[|t.w.ch.reaps| - 1] > 0
    ensures !NeverAhead(c)
  {
    var u := Happen(t, Thread(Pop));
    LeadsThen(Opened(c), t, Thread(Pop));
    CycleReaps(u);
    var n := t.w.ch.reaps[|t.w.ch.reaps| - 1];
    var v :| Leads(u, v) && v.w.disk == 0 && n in v.w.freed;
    LeadsOn(Opened(c), u, v);
  }

  /** With a single revision kept, the first two commits fit a gap of two; the third reaps the
      first one, of which nobody has a reference any more. */
  lemma OneKept(c: Config)
    requires c.maxRevisions == 1 && 2 <= c.gap && !c.archival
    ensures !NeverAhead(c)
  {
    var s0 := Opened(c);
    LeadsEvent(s0, Begin);
    var s1 := Happen(s0, Begin);
    LeadsThen(s0, s1, ReapOldest);
    var s2 := Happen(s1, ReapOldest);
    LeadsThen(s0, s2, ReapEnd);
    var s3 := Happen(s2, ReapEnd);
    LeadsThen(s0, s3, Submit);
    var s4 := Happen(s3, Submit);
    assert s4.front == 1 && s4.w.pushed == 1 && s4.phase.Idle? && s4.w.ch.reaps == [0];
    SecondKept(c, s4);
  }

  lemma SecondKept(c: Config, s: Life)
    requires c.maxRevisions == 1 && 2 <= c.gap && !c.archival && Leads(Opened(c), s) && s.cfg == c && s.phase.Idle?
    requires s.w == NewWorker(c.gap).(ch := s.w.ch, pushed := 1) && s.front == 1 && s.held == multiset{}
    requires s.w.ch == NewChannel(c.gap).(permits := c.gap - 1, latest := Some(1), reaps := [0])
    ensures !NeverAhead(c)
  {
    var s0 := Opened(c);
    LeadsThen(s0, s, Begin);
    var s1 := Happen(s, Begin);
    LeadsThen(s0, s1, ReapOldest);
    var s2 := Happen(s1, ReapOldest);
    LeadsThen(s0, s2, Submit);
    var s3 := Happen(s2, Submit);
    LeadsThen(s0, s3, Begin);
    var s4 := Happen(s3, Begin);
    LeadsThen(s0, s4, ReapOldest);
    SentAhead(c, Happen(s4, ReapOldest));
  }

  /** Reaping never runs ahead of the disk exactly when the queue is longer than the gap, or
      the gap is one. So the check in `RevisionManager::new` turns away one safe
      configuration, a single revision with a gap of one, and is otherwise the weakest that
      makes reaping safe. */
  lemma BoundIsExact(c: Config)
    requires 0 < c.gap && 1 <= c.maxRevisions && !c.archival
    ensures NeverAhead(c) <==> Safe(c)
    ensures Safe(c) <==> Accepted(c) || (c.maxRevisions == 1 && c.gap == 1)
  {
    if Safe(c) {
      forall es | Happens(Opened(c), es)
        ensures AllAtMost(Later(Opened(c), es).w.freed, Later(Opened(c), es).w.disk)
      {
        ReapedIsBehind(c, es);
      }
    } else if c.maxRevisions == 1 {
      OneKept(c);
    } else {
      GapTooLarge(c);
    }
  }

  // ---- Commits end, readers are counted ----

  /** How many more of its own steps a commit takes at most. */
  function Ahead(s: Life): int {
    match s.phase
    case Idle => 0
    case Reaping => 2 + Length(s)
    case Submitting => 1
  }

  /** The commit's own steps. */
  predicate Committing(e: Event) {
    e.ReapOldest? || e.ReapEnd? || e.Submit?
  }

  /** A commit that is not parked can always go on, and each of its steps parks it, ends it or
      brings its end nearer; one that finds the channel shut ends. */
  lemma CommitMoves(s: Life)
    requires Shape(s) && 0 < s.cfg.maxRevisions && !s.phase.Idle? && !s.w.parked
    ensures exists e :: Committing(e) && Can(s, e)
    ensures forall e | Committing(e) && Can(s, e) ::
              Happen(s, e).w.parked || Happen(s, e).phase.Idle? || 0 < Ahead(Happen(s, e)) < Ahead(s)
    ensures s.phase.Submitting? && s.w.ch.shutdown ==>
              Happen(s, Submit).phase.Idle? && Happen(s, Submit).w.pushed == s.w.pushed
  {
    assert Can(s, ReapOldest) || Can(s, ReapEnd) || Can(s, Submit);
  }

  lemma ErrorStays(s: Life, e: Event)
    requires s.w.error && s.phase.Idle? && Can(s, e)
    ensures var n := Happen(s, e); n.w.error && n.phase.Idle? && n.w.pushed == s.w.pushed && n.front == s.front
  {
  }

  /** Once an error is recorded and no commit is under way, none is ever begun again. */
  lemma {:induction false} ErrorStopsCommits(s: Life, es: seq<Event>)
    requires s.w.error && s.phase.Idle? && Happens(s, es)
    ensures var n := Later(s, es); n.w.error && n.phase.Idle? && n.w.pushed == s.w.pushed && n.front == s.front
    decreases |es|
  {
    if es != [] {
      ErrorStays(s, es[0]);
      ErrorStopsCommits(Happen(s, es[0]), es[1..]);
    }
  }

  lemma HeldStep(s: Life, e: Event, n: nat)
    requires Can(s, e)
    ensures Happen(s, e).held[n] + (if e == Unhold(n) then 1 else 0) == s.held[n] + (if e == Hold(n) then 1 else 0)
  {
  }

  /** A revision is held as often as it was taken and not given back. */
  lemma {:induction false} HeldIsCounted(s: Life, es: seq<Event>, n: nat)
    requires Happens(s, es)
    ensures Later(s, es).held[n] + multiset(es)[Unhold(n)] == s.held[n] + multiset(es)[Hold(n)]
    decreases |es|
  {
    if es != [] {
      HeldStep(s, es[0], n);
      HeldIsCounted(Happen(s, es[0]), es[1..], n);
      HeadTail(es);
      assert multiset(es) == multiset{es[0]} + multiset(es[1..]);
    }
  }

  // ---- Reaping misses nothing ----

  /** In an archival database nothing is sent to be reaped. In any other, until a persist or a
      reap fails, every revision that left the queue was, in the order it left. */
  ghost predicate Complete(s: Life) {
    && (s.cfg.archival ==> Sent(s.w) == [])
    && (!s.cfg.archival && !Failed(s.w) ==> Sent(s.w) == UpTo(s.front))
    && (!s.phase.Idle? ==> s.w.last.None?)
  }

  lemma CompleteStarts(c: Config)
    requires c.gap > 0
    ensures Complete(Opened(c))
  {
    assert Sent(NewWorker(c.gap)) == [];
  }

  lemma ReapComplete(s: Life)
    requires Shape(s) && Complete(s) && Can(s, ReapOldest)
    ensures Complete(Happen(s, ReapOldest))
  {
    var w := s.w.(ch := Reaped(s.w.ch, s.front), bg := WakePersister(s.w.bg));
    assert Waiting(w) == Waiting(s.w) + [s.front];
    assert Sent(w) == Sent(s.w) + [s.front];
  }

  lemma ThreadComplete(s: Life, a: Step)
    requires Shape(s) && Complete(s) && Can(s, Thread(a))
    ensures Complete(Happen(s, Thread(a)))
  {
    ThreadMovesReaps(s.w, a);
  }

  lemma CompleteKept(s: Life, e: Event)
    requires Shape(s) && Complete(s) && Can(s, e)
    ensures Complete(Happen(s, e))
  {
    match e {
      case ReapOldest => ReapComplete(s);
      case Thread(a) => ThreadComplete(s, a);
      case _ =>
    }
  }

  lemma {:induction false} CompleteRun(s: Life, es: seq<Event>)
    requires Shape(s) && Complete(s) && Happens(s, es)
    ensures Shape(Later(s, es)) && Complete(Later(s, es)) && Later(s, es).cfg == s.cfg
    decreases |es|
  {
    if es != [] {
      ShapeKept(s, es[0]);
      CompleteKept(s, es[0]);
      CompleteRun(Happen(s, es[0]), es[1..]);
    }
  }

  /** In every run: an archival database reaps nothing. Any other, unless something failed, has
      reaped or has in hand exactly the revisions that left the queue, oldest first, and all are
      reaped whenever the background thread sleeps. */
  lemma {:induction false} NothingIsMissed(c: Config, es: seq<Event>)
    requires c.gap > 0 && Happens(Opened(c), es)
    ensures var s := Later(Opened(c), es);
            && (c.archival ==> s.w.freed == [] && Waiting(s.w) == [])
            && (!c.archival && !Failed(s.w) ==> s.w.freed + Waiting(s.w) == UpTo(s.front))
            && (!c.archival && !Failed(s.w) && s.w.bg.Parked? ==> s.w.freed == UpTo(s.front))
  {
    WorkerStarts(c.gap);
    CompleteStarts(c);
    CompleteRun(Opened(c), es);
  }

  lemma {:induction false} UpToAt(n: nat, i: nat)
    requires i < n
    ensures |UpTo(n)| == n && UpTo(n)[i] == i
  {
    if n > 1 { UpToAt(n - 1, if i == n - 1 then 0 else i); }
  }

  // ---- And what was sent gets reaped ----

  ghost function Pending(c: Channel): nat {
    if c.shutdown then 3 else if WorkPending(c) then |c.reaps| + 4 else 1
  }

  /** How many steps the background thread takes at most before it sleeps or is done, if nobody
      sends it anything and nothing fails. */
  ghost function Rest(w: Worker): nat {
    match w.bg
    case Cycle(g) => |g.reaps| + (if g.revision.Some? then 1 else 0) + 1 + Pending(w.ch)
    case Ready => Pending(w.ch)
    case Draining => 2
    case Dropping => 1
    case _ => 0
  }

  ghost predicate Stopped(w: Worker) {
    forall a | Background?(a) && a != Fail :: !Enabled(w, a)
  }

  lemma StepBringsRest(w: Worker, a: Step)
    requires WorkerInv(w) && !Failed(w) && Background?(a) && a != Fail && Enabled(w, a)
    ensures Rest(Do(w, a)) < Rest(w) && !Failed(Do(w, a))
    ensures Do(w, a).ch.shutdown <==> w.ch.shutdown
  {
  }

  lemma StoppedHasReaped(w: Worker)
    requires WorkerInv(w) && !Failed(w) && !w.ch.shutdown && Stopped(w)
    ensures w.freed == Sent(w)
  {
    assert !Enabled(w, Pop) && !Enabled(w, ReapNext) && !Enabled(w, PersistNow) && !Enabled(w, DropGuard);
    assert !Enabled(w, DrainNow) && !Enabled(w, DropLoop);
    assert w.bg.Parked?;
  }

  /** Left to itself the thread comes to rest within a bounded number of steps, and if nobody has
      closed the database it has then reaped everything it was sent. */
  lemma {:induction false} SentGetsReaped(w: Worker, steps: seq<Step>)
    requires WorkerInv(w) && !Failed(w) && Runs(w, steps) && (forall a | a in steps :: Background?(a) && a != Fail)
    ensures |steps| <= Rest(w)
    ensures !w.ch.shutdown && Stopped(After(w, steps)) ==> After(w, steps).freed == Sent(w)
    decreases |steps|
  {
    if steps == [] {
      if !w.ch.shutdown && Stopped(w) { StoppedHasReaped(w); }
    } else {
      assert steps[0] in steps;
      WorkerKeeps(w, steps[0]);
      StepBringsRest(w, steps[0]);
      ThreadMovesReaps(w, steps[0]);
      SentGetsReaped(Do(w, steps[0]), steps[1..]);
    }
  }
}
