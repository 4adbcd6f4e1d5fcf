/** Deferred persistence: the permit channel between committers and the background thread,
    and the thread's loop (`firewood/src/persist_worker.rs`).

    Revisions are named by their commit numbers; number 0 is the revision the database was
    opened with, which is on disk.
 */
module Persist {
  import opened Nibbles

  const U64_SIZE: nat := 0x1_0000_0000_0000_0000

  type U64 = n: nat | n < U64_SIZE

  function WrappingSub(a: U64, b: U64): U64 {
    if b <= a then a - b else a as int + U64_SIZE - b as int
  }

  function SaturatingAdd(a: U64, b: U64): U64 {
    if a as int + b as int < U64_SIZE then a as int + b as int else U64_SIZE - 1
  }

  function Min(a: U64, b: U64): U64 {
    if a <= b then a else b
  }

  /** `PersistChannelState`. */
  datatype Channel = Channel(permits: U64, max: U64, threshold: U64, shutdown: bool,
                             reaps: seq<nat>, latest: Option<nat>)

  /** What one turn inside the lock does to a thread: it goes on, it is told the channel is
      shut, or it parks on the condition variable. */
  datatype Turn<+T> = Go(value: T) | Shut | Park

  /** `PersistDataGuard`. */
  datatype Guard = Guard(release: U64, reaps: seq<nat>, revision: Option<nat>)

  /** `PersistWorker::new`: persistence is due once half of the permits, rounded up, are gone. */
  function NewChannel(max: U64): Channel
    requires max > 0
  {
    Channel(max, max, WrappingSub(max, max - max / 2), false, [], None)
  }

  function Pushed(c: Channel, n: nat): Channel {
    c.(latest := Some(n), permits := WrappingSub(c.permits, 1))
  }

  function Reaped(c: Channel, n: nat): Channel {
    c.(reaps := c.reaps + [n])
  }

  /** No permit is out: no commit waits to be persisted. */
  predicate AllBack(c: Channel) {
    c.permits == c.max
  }

  predicate PersistDue(c: Channel) {
    c.permits <= c.threshold && c.latest.Some?
  }

  /** There is something to wake up for. */
  predicate WorkPending(c: Channel) {
    c.shutdown || PersistDue(c) || c.reaps != []
  }

  function Popped(c: Channel): Channel {
    c.(reaps := [], latest := if PersistDue(c) then None else c.latest)
  }

  function Taken(c: Channel): Guard {
    if PersistDue(c) then Guard(WrappingSub(c.max, c.permits), c.reaps, c.latest) else Guard(0, c.reaps, None)
  }

  function Released(c: Channel, n: U64): Channel {
    if n == 0 then c else c.(permits := Min(SaturatingAdd(c.permits, n), c.max))
  }

  /** `PersistChannel`. Each method is one turn of its counterpart inside the mutex; the
      second result says whether it notifies the other side. */
  class PersistChannel {
    var permits: U64
    const max: U64
    const threshold: U64
    var shutdown: bool
    var reaps: seq<nat>
    var latest: Option<nat>

    ghost function State(): Channel
      reads this
    {
      Channel(permits, max, threshold, shutdown, reaps, latest)
    }

    constructor (max: U64)
      requires max > 0
      ensures State() == NewChannel(max)
      ensures threshold == max / 2
    {
      this.max := max;
      permits := max;
      threshold := WrappingSub(max, max - max / 2);
      shutdown := false;
      reaps := [];
      latest := None;
    }

    /** What this says about the disk when the thread asks is `EmptyMeansPersisted`. */
    method Empty() returns (r: bool)
      ensures r <==> AllBack(State())
    {
      r := permits == max;
    }

    method Reap(n: nat) returns (r: Turn<()>, notifyPersister: bool)
      modifies this
      ensures old(shutdown) ==> r == Shut && State() == old(State()) && !notifyPersister
      ensures !old(shutdown) ==> r == Go(()) && State() == Reaped(old(State()), n) && notifyPersister
    {
      if shutdown {
        return Shut, false;
      }
      reaps := reaps + [n];
      return Go(()), true;
    }

    method Push(n: nat) returns (r: Turn<()>, notifyPersister: bool)
      modifies this
      ensures r == Park <==> old(permits) == 0 && !old(shutdown)
      ensures r == Shut <==> old(shutdown)
      ensures r != Go(()) ==> State() == old(State()) && !notifyPersister
      ensures r == Go(()) ==> State() == Pushed(old(State()), n) && (notifyPersister <==> permits <= threshold)
    {
      if permits == 0 && !shutdown {
        return Park, false;
      }
      if shutdown {
        return Shut, false;
      }
      latest := Some(n);
      permits := WrappingSub(permits, 1);
      return Go(()), permits <= threshold;
    }

    method Pop() returns (r: Turn<Guard>)
      modifies this
      ensures r == Shut <==> old(shutdown)
      ensures r == Park <==> !WorkPending(old(State()))
      ensures r.Go? ==> r.value == Taken(old(State())) && State() == Popped(old(State()))
      ensures !old(shutdown) && old(permits) <= threshold && old(permits) <= max && old(latest).Some? ==>
                r == Go(Guard(max - old(permits), old(reaps), old(latest))) && latest == None && reaps == []
      ensures !old(shutdown) && (old(permits) > threshold || old(latest).None?) ==>
                && r == (if old(reaps) == [] then Park else Go(Guard(0, old(reaps), None)))
                && latest == old(latest) && reaps == []
      ensures !r.Go? ==> State() == old(State())
    {
      if shutdown {
        return Shut;
      }
      if permits <= threshold && latest.Some? {
        r := Go(Guard(WrappingSub(max, permits), reaps, latest));
        reaps := [];
        latest := None;
        return;
      }
      if reaps != [] {
        r := Go(Guard(0, reaps, None));
        reaps := [];
        return;
      }
      return Park;
    }

    /** `PersistDataGuard::drop`. */
    method Release(n: U64) returns (notifyCommitters: bool)
      modifies this
      ensures State() == Released(old(State()), n)
      ensures notifyCommitters <==> n != 0
    {
      if n == 0 {
        return false;
      }
      permits := Min(SaturatingAdd(permits, n), max);
      return true;
    }

    /** Both sides are woken, so that whoever is parked sees the shutdown. */
    method Close() returns (notifyPersister: bool, notifyCommitters: bool)
      modifies this
      ensures State() == old(State()).(shutdown := true)
      ensures notifyPersister && notifyCommitters
    {
      shutdown := true;
      return true, true;
    }
  }

  // ---- The worker: the channel, its background thread and the committer at its door ----

  /** Where the background thread is. `Unwinding` to `Dropping` is its way out of the loop:
      drop the guard, record the error, close the channel. */
  datatype Background =
    | Ready
    | Parked
    | Cycle(guard: Guard)
    | Unwinding(release: U64)
    | Erring
    | Draining
    | Dropping
    | Finished

  /** `pushed` counts accepted revisions, `popped` is that count at the last pop that took a
      revision, `disk` is the revision on disk, `log` all that have been there, and `freed`
      the revisions reaped so far. */
  datatype Worker = Worker(ch: Channel, bg: Background, parked: bool, error: bool, last: Option<nat>,
                           pushed: nat, popped: nat, disk: nat, log: seq<nat>, freed: seq<nat>)

  function NewWorker(gap: U64): Worker
    requires gap > 0
  {
    Worker(NewChannel(gap), Ready, false, false, None, 0, 0, 0, [0], [])
  }

  /** A notification moves a parked thread back to the top of its loop. */
  function WakePersister(bg: Background): Background {
    if bg.Parked? then Ready else bg
  }

  datatype Step =
    // the side that commits
    | SendReap(n: nat) | SendRevision | CloseWorker
    // the background thread
    | Pop | ReapNext | PersistNow | DropGuard | Fail | RecordError | DrainNow | DropLoop

  predicate Background?(a: Step) {
    !a.SendReap? && !a.SendRevision? && !a.CloseWorker?
  }

  /** When a step can be taken. There is one committer: while it is parked it takes no other
      step, and a worker is closed by its owner when nobody commits. */
  predicate Enabled(w: Worker, a: Step) {
    match a
    case SendReap(n) => !w.parked && !w.ch.shutdown
    case SendRevision => !w.parked && !w.ch.shutdown
    case CloseWorker => !w.parked && w.last.None?
    case Pop => w.bg.Ready?
    case ReapNext => w.bg.Cycle? && w.bg.guard.reaps != []
    case PersistNow => w.bg.Cycle? && w.bg.guard.reaps == [] && w.bg.guard.revision.Some?
    case DropGuard =>
      (w.bg.Cycle? && w.bg.guard.reaps == [] && w.bg.guard.revision.None?) || w.bg.Unwinding?
    case Fail =>
      || (w.bg.Cycle? && (w.bg.guard.reaps != [] || w.bg.guard.revision.Some?))
      || (w.bg.Draining? && MustDrain(w))
    case RecordError => w.bg.Erring?
    case DrainNow => w.bg.Draining?
    case DropLoop => w.bg.Dropping?
  }

  /** On shutdown the last revision is persisted unless all permits are back. */
  predicate MustDrain(w: Worker) {
    w.last.Some? && !AllBack(w.ch)
  }

  function OnDisk(w: Worker, n: nat): Worker {
    w.(disk := n, log := w.log + [n])
  }

  function Do(w: Worker, a: Step): Worker
    requires Enabled(w, a)
  {
    match a
    case SendReap(n) => w.(ch := Reaped(w.ch, n), bg := WakePersister(w.bg))
    case SendRevision =>
      if w.ch.permits == 0 then w.(parked := true)
      else
        var c := Pushed(w.ch, w.pushed + 1);
        w.(ch := c, pushed := w.pushed + 1, bg := if c.permits <= c.threshold then WakePersister(w.bg) else w.bg)
    case CloseWorker =>
      w.(last := Some(w.pushed), ch := w.ch.(shutdown := true), bg := WakePersister(w.bg))
    case Pop =>
      if w.ch.shutdown then w.(bg := Draining)
      else if !WorkPending(w.ch) then w.(bg := Parked)
      else w.(bg := Cycle(Taken(w.ch)), ch := Popped(w.ch), popped := if PersistDue(w.ch) then w.pushed else w.popped)
    case ReapNext =>
      var g := w.bg.guard;
      w.(bg := Cycle(g.(reaps := g.reaps[1..])), freed := w.freed + [g.reaps[0]])
    case PersistNow =>
      var g := w.bg.guard;
      OnDisk(w, g.revision.value).(bg := Cycle(g.(revision := None)))
    case DropGuard =>
      var n := if w.bg.Cycle? then w.bg.guard.release else w.bg.release;
      w.(ch := Released(w.ch, n), parked := w.parked && n == 0, bg := if w.bg.Cycle? then Ready else Erring)
    case Fail => w.(bg := if w.bg.Cycle? then Unwinding(w.bg.guard.release) else Erring)
    case RecordError => w.(error := true, bg := Dropping)
    case DrainNow => (if MustDrain(w) then OnDisk(w, w.last.value) else w).(bg := Dropping)
    case DropLoop => w.(ch := w.ch.(shutdown := true), parked := false, bg := Finished)
  }

  /** A persist or a reap has failed. */
  predicate Failed(w: Worker) {
    w.error || w.bg.Unwinding? || w.bg.Erring?
  }

  /** Permits in the hands of the background thread. */
  function Holding(w: Worker): U64 {
    match w.bg
    case Cycle(g) => g.release
    case Unwinding(n) => n
    case _ => 0
  }

  // ---- Invariants ----

  ghost predicate Conserved(w: Worker) {
    && 0 < w.ch.max
    && w.popped <= w.pushed
    && w.ch.permits + Holding(w) + (w.pushed - w.popped) == w.ch.max
    && w.ch.latest == (if w.pushed > w.popped then Some(w.pushed) else None)
  }

  ghost predicate Tracks(w: Worker) {
    match w.bg
    case Cycle(g) =>
      if g.revision.Some? then g.revision == Some(w.popped) && g.release > 0 && w.disk + g.release == w.popped
      else w.disk == w.popped
    case Dropping => w.disk == (if w.last.Some? then w.pushed else w.popped)
    case Finished => w.disk == (if w.last.Some? then w.pushed else w.popped)
    case _ => w.disk == w.popped
  }

  ghost predicate Closing(w: Worker) {
    && (w.last.Some? ==> w.last == Some(w.pushed) && w.ch.shutdown)
    && (w.ch.shutdown ==> w.last.Some? || w.bg.Finished?)
    && (w.bg.Draining? ==> w.last.Some?)
    && (w.bg.Dropping? || w.bg.Finished? ==> w.last.Some? || w.error)
    && (w.bg.Finished? ==> w.ch.shutdown)
    && (w.error ==> w.bg.Dropping? || w.bg.Finished?)
  }

  /** Nobody sleeps through something it waits for. */
  ghost predicate Awake(w: Worker) {
    && (w.bg.Parked? ==> !WorkPending(w.ch))
    && (w.parked ==> w.ch.permits == 0 && !w.ch.shutdown)
  }

  /** The revisions that were on disk follow each other with no gap over the maximum. */
  ghost predicate Dense(log: seq<nat>, disk: nat, gap: nat) {
    && |log| > 0 && log[0] == 0 && log[|log| - 1] == disk
    && forall i | 0 < i < |log| :: log[i - 1] < log[i] <= log[i - 1] + gap
  }

  ghost predicate WorkerInv(w: Worker) {
    Conserved(w) && Closing(w) && Awake(w) && Dense(w.log, w.disk, w.ch.max) && (!Failed(w) ==> Tracks(w))
  }

  lemma WorkerStarts(gap: U64)
    requires 0 < gap
    ensures WorkerInv(NewWorker(gap))
  {
  }

  /** A pop that takes a revision takes all permits spent since the last one did. */
  lemma PopConserves(w: Worker)
    requires Conserved(w) && Enabled(w, Pop)
    ensures Conserved(Do(w, Pop))
  {
  }

  lemma DropConserves(w: Worker)
    requires Conserved(w) && Enabled(w, DropGuard)
    ensures Conserved(Do(w, DropGuard))
  {
  }

  lemma KeepsConserved(w: Worker, a: Step)
    requires Conserved(w) && Enabled(w, a)
    ensures Conserved(Do(w, a))
  {
    match a {
      case Pop => PopConserves(w);
      case DropGuard => DropConserves(w);
      case _ =>
    }
  }

  lemma KeepsClosing(w: Worker, a: Step)
    requires Closing(w) && Enabled(w, a)
    ensures Closing(Do(w, a))
  {
  }

  lemma KeepsAwake(w: Worker, a: Step)
    requires Conserved(w) && Awake(w) && Enabled(w, a)
    ensures Awake(Do(w, a))
  {
  }

  lemma KeepsTracks(w: Worker, a: Step)
    requires WorkerInv(w) && Enabled(w, a) && !Failed(Do(w, a))
    ensures Tracks(Do(w, a))
  {
  }

  /** What goes on disk is ahead of what is there, by no more than the maximum. */
  lemma PersistAdvances(w: Worker, n: nat)
    requires Dense(w.log, w.disk, w.ch.max) && w.disk < n <= w.disk + w.ch.max
    ensures Dense(OnDisk(w, n).log, n, w.ch.max)
  {
  }

  ghost predicate Advances(w: Worker, a: Step)
    requires Enabled(w, a)
  {
    && (a.PersistNow? ==> w.disk < w.bg.guard.revision.value <= w.disk + w.ch.max)
    && (a.DrainNow? && MustDrain(w) ==> w.disk < w.last.value <= w.disk + w.ch.max)
  }

  lemma StepAdvances(w: Worker, a: Step)
    requires WorkerInv(w) && Enabled(w, a)
    ensures Advances(w, a)
  {
  }

  lemma KeepsDense(w: Worker, a: Step)
    requires Dense(w.log, w.disk, w.ch.max) && Enabled(w, a) && Advances(w, a)
    ensures Dense(Do(w, a).log, Do(w, a).disk, Do(w, a).ch.max)
  {
    match a {
      case PersistNow => PersistAdvances(w, w.bg.guard.revision.value);
      case DrainNow => if MustDrain(w) { PersistAdvances(w, w.last.value); }
      case _ =>
    }
  }

  lemma WorkerKeeps(w: Worker, a: Step)
    requires WorkerInv(w) && Enabled(w, a)
    ensures WorkerInv(Do(w, a)) && Do(w, a).ch.max == w.ch.max
  {
    KeepsConserved(w, a);
    KeepsClosing(w, a);
    KeepsAwake(w, a);
    if !Failed(Do(w, a)) { KeepsTracks(w, a); }
    StepAdvances(w, a);
    KeepsDense(w, a);
  }

  // ---- Runs ----

  ghost predicate Runs(w: Worker, steps: seq<Step>)
    decreases |steps|
  {
    steps == [] || (Enabled(w, steps[0]) && Runs(Do(w, steps[0]), steps[1..]))
  }

  ghost function After(w: Worker, steps: seq<Step>): Worker
    requires Runs(w, steps)
    decreases |steps|
  {
    if steps == [] then w else After(Do(w, steps[0]), steps[1..])
  }

  lemma {:induction false} RunKeeps(w: Worker, steps: seq<Step>)
    requires WorkerInv(w) && Runs(w, steps)
    ensures WorkerInv(After(w, steps)) && After(w, steps).ch.max == w.ch.max
    decreases |steps|
  {
    if steps != [] {
      WorkerKeeps(w, steps[0]);
      RunKeeps(Do(w, steps[0]), steps[1..]);
    }
  }

  /** Permits are conserved in every run, whatever fails: those available, those held by the
      thread and one per revision pushed since the last pop that took one make up the
      maximum. So no subtraction wraps, no addition saturates and the cap is never reached. */
  lemma {:induction false} PermitsConserved(gap: U64, steps: seq<Step>)
    requires 0 < gap && Runs(NewWorker(gap), steps)
    ensures var w := After(NewWorker(gap), steps);
            && w.popped <= w.pushed
            && w.ch.permits + Holding(w) + (w.pushed - w.popped) == gap
            && Taken(w.ch).release == (if PersistDue(w.ch) then gap - w.ch.permits else 0)
            && Released(w.ch, Holding(w)).permits == w.ch.permits + Holding(w)
            && (w.ch.permits > 0 ==> Pushed(w.ch, w.pushed + 1).permits == w.ch.permits - 1)
  {
    WorkerStarts(gap);
    RunKeeps(NewWorker(gap), steps);
  }

  /** Until a persist or a reap fails, the latest revision is at most the maximum gap ahead of
      the one on disk, consecutive persisted revisions are at most that far apart, and looking
      back that far from any revision finds one that was persisted. */
  lemma {:induction false} GapBounded(gap: U64, steps: seq<Step>, n: nat)
    requires 0 < gap && Runs(NewWorker(gap), steps)
    requires !Failed(After(NewWorker(gap), steps)) && n <= After(NewWorker(gap), steps).pushed
    ensures var w := After(NewWorker(gap), steps);
            && w.disk <= w.pushed <= w.disk + gap
            && Dense(w.log, w.disk, gap)
            && exists p | p in w.log :: p <= n <= p + gap
  {
    WorkerStarts(gap);
    RunKeeps(NewWorker(gap), steps);
    var w := After(NewWorker(gap), steps);
    LookBack(w.log, w.disk, gap, n, |w.log| - 1);
  }

  lemma {:induction false} LookBack(log: seq<nat>, disk: nat, gap: nat, n: nat, i: nat)
    requires Dense(log, disk, gap) && i < |log| && n <= log[i] + gap
    ensures exists p | p in log :: p <= n <= p + gap
  {
    if log[i] <= n {
      assert log[i] in log;
    } else {
      LookBack(log, disk, gap, n, i - 1);
    }
  }

  /** How many commits have to wait before they are persisted: half the gap, rounded up. */
  function Interval(gap: U64): nat {
    gap - gap / 2
  }

  /** The thread sleeps with fewer commits waiting than the persist interval, and a step moves
      on the count of commits taken exactly when it is a pop of an open channel that finds at
      least that many waiting; then it takes all of them. A commit wakes the sleeping thread
      exactly when it makes them that many. */
  lemma {:induction false} PersistsAtInterval(gap: U64, steps: seq<Step>, a: Step)
    requires 0 < gap && Runs(NewWorker(gap), steps) && Enabled(After(NewWorker(gap), steps), a)
    ensures var w := After(NewWorker(gap), steps);
            var v := Do(w, a);
            && (w.bg.Parked? ==> w.pushed - w.popped < Interval(gap))
            && (v.popped != w.popped <==> a.Pop? && !w.ch.shutdown && w.pushed - w.popped >= Interval(gap))
            && (v.popped != w.popped ==> v.popped == w.pushed && v.bg.Cycle? && v.bg.guard.revision == Some(w.pushed))
            && (a.SendRevision? && w.bg.Parked? && !v.parked ==> (v.bg.Ready? <==> v.pushed - v.popped >= Interval(gap)))
  {
    WorkerStarts(gap);
    RunKeeps(NewWorker(gap), steps);
    ThresholdStays(NewWorker(gap), steps);
  }

  /** A cycle goes in order: its reaps, then its revision, then its permits. */
  lemma CycleInOrder(w: Worker, a: Step)
    requires w.bg.Cycle? && Background?(a) && a != Fail && Enabled(w, a)
    ensures var v, g := Do(w, a), w.bg.guard;
            && (v.disk != w.disk || v.ch.permits != w.ch.permits ==> g.reaps == [] && v.freed == w.freed)
            && (v.ch.permits != w.ch.permits ==> g.revision.None? && v.disk == w.disk)
            && (v.bg.Cycle? ==> v.ch == w.ch && v.bg.guard.release == g.release)
  {
  }

  lemma {:induction false} ThresholdStays(w: Worker, steps: seq<Step>)
    requires Runs(w, steps)
    ensures After(w, steps).ch.threshold == w.ch.threshold
    decreases |steps|
  {
    if steps != [] { ThresholdStays(Do(w, steps[0]), steps[1..]); }
  }

  /** If `close` returns without an error, the latest revision is on disk: whether it was
      below the threshold, waiting or in flight when shutdown was signalled. */
  lemma {:induction false} CloseLeavesLatestOnDisk(gap: U64, steps: seq<Step>)
    requires 0 < gap && Runs(NewWorker(gap), steps)
    ensures var w := After(NewWorker(gap), steps);
            w.last.Some? && w.bg.Finished? && !w.error ==> w.disk == w.pushed && w.pushed in w.log
  {
    WorkerStarts(gap);
    RunKeeps(NewWorker(gap), steps);
  }

  /** When the thread has left its loop for a shutdown, all permits are back exactly when the
      latest revision is on disk: `empty` tells whether there is still something to persist. */
  lemma {:induction false} EmptyMeansPersisted(gap: U64, steps: seq<Step>)
    requires 0 < gap && Runs(NewWorker(gap), steps)
    ensures var w := After(NewWorker(gap), steps);
            w.bg.Draining? ==> (AllBack(w.ch) <==> w.disk == w.pushed)
  {
    WorkerStarts(gap);
    RunKeeps(NewWorker(gap), steps);
  }

  /** A committer that finds the channel shut, though nobody closed it, finds the error that
      shut it once it has joined the thread: no revision is refused silently. */
  lemma {:induction false} ShutMeansError(gap: U64, steps: seq<Step>)
    requires 0 < gap && Runs(NewWorker(gap), steps)
    ensures var w := After(NewWorker(gap), steps);
            w.ch.shutdown && w.last.None? ==> w.bg.Finished? && w.error
  {
    WorkerStarts(gap);
    RunKeeps(NewWorker(gap), steps);
  }

  // ---- Progress ----

  /** How many steps of the background thread a parked committer waits for at most. */
  ghost function Wait(w: Worker): nat {
    match w.bg
    case Cycle(g) =>
      |g.reaps| + (if g.revision.Some? then 1 else 0) + 4 + (if g.release > 0 then 0 else |w.ch.reaps| + 8)
    case Ready => |w.ch.reaps| + 7
    case Unwinding(_) => 4
    case Erring => 3
    case Dropping => 2
    case _ => 0
  }

  /** While a committer is parked the thread is never stuck: it is mid-cycle with permits to
      give back, or can take a revision, or is on its way out; and each of its steps wakes the
      committer or brings that closer. */
  lemma ParkedIsServed(w: Worker)
    requires WorkerInv(w) && w.parked
    ensures exists a :: Background?(a) && a != Fail && Enabled(w, a)
    ensures w.bg.Ready? ==> PersistDue(w.ch)
    ensures w.bg.Cycle? && w.bg.guard.release == 0 ==> PersistDue(w.ch)
    ensures forall a | Background?(a) && Enabled(w, a) :: !Do(w, a).parked || Wait(Do(w, a)) < Wait(w)
  {
    assert Enabled(w, Pop) || Enabled(w, ReapNext) || Enabled(w, PersistNow) || Enabled(w, DropGuard) ||
           Enabled(w, RecordError) || Enabled(w, DropLoop);
  }

  /** So a parked committer is released after a bounded number of steps of the background
      thread, however they go. */
  lemma {:induction false} ParkedIsReleased(w: Worker, steps: seq<Step>)
    requires WorkerInv(w) && Runs(w, steps) && (forall a | a in steps :: Background?(a))
    requires |steps| > Wait(w)
    ensures exists k | 0 <= k <= |steps| :: Runs(w, steps[..k]) && !After(w, steps[..k]).parked
    decreases |steps|
  {
    if !w.parked {
      assert Runs(w, steps[..0]) && !After(w, steps[..0]).parked;
    } else {
      ParkedIsServed(w);
      WorkerKeeps(w, steps[0]);
      var v := Do(w, steps[0]);
      assert steps[0] in steps;
      if !v.parked {
        var one := steps[..1];
        assert one[0] == steps[0] && one[1..] == [];
        assert After(w, one) == v;
        assert Runs(w, steps[..1]) && !After(w, steps[..1]).parked;
      } else {
        ParkedIsReleased(v, steps[1..]);
        var k :| 0 <= k <= |steps[1..]| && Runs(v, steps[1..][..k]) && !After(v, steps[1..][..k]).parked;
        assert steps[..k + 1][1..] == steps[1..][..k];
        assert Runs(w, steps[..k + 1]) && !After(w, steps[..k + 1]).parked;
      }
    }
  }

  /** The background thread sleeps only when nothing is pending, and otherwise can always go
      on until it is done. */
  lemma {:induction false} NeverSleepsOnWork(gap: U64, steps: seq<Step>)
    requires 0 < gap && Runs(NewWorker(gap), steps)
    ensures var w := After(NewWorker(gap), steps);
            && (w.bg.Parked? ==> !w.ch.shutdown && w.ch.reaps == [] && !PersistDue(w.ch))
            && (!w.bg.Parked? && !w.bg.Finished? ==> exists a :: Background?(a) && a != Fail && Enabled(w, a))
  {
    WorkerStarts(gap);
    RunKeeps(NewWorker(gap), steps);
    var w := After(NewWorker(gap), steps);
    assert w.bg.Parked? || w.bg.Finished? || Enabled(w, Pop) || Enabled(w, ReapNext) || Enabled(w, PersistNow) ||
           Enabled(w, DropGuard) || Enabled(w, RecordError) || Enabled(w, DrainNow) || Enabled(w, DropLoop);
  }
}
