/** Keep-alive leases over all goroutines (`ffi/keepalive.go` and its users in
    `ffi/firewood.go`, `ffi/proposal.go`, `ffi/reconstructed.go`): constructors in flight,
    drops, commits, reconstructions, garbage-collector cleanups and `Database.Close`, each cut
    into the steps that others can see.

    A lease's lock is held shared while a constructor derives a handle from it, and exclusively
    while the handle is dropped, committed or reconstructed. The database's handle lock is held
    shared by the constructors on the database and exclusively by `Close`.
 */
module KeepAlive {
  import opened Sequences
  import opened Nibbles
  import R = Registry

  type Hid = R.Lid
  type Tid = nat
  type Ptr = nat

  /** How far the holder of a lease's exclusive lock has come. */
  datatype Stage = Entered | Disowned

  datatype Lock = Free(readers: set<Tid>) | Held(stage: Stage, closer: bool)

  /** `proof` marks a handle made without a lease. `past` are all C pointers it ever held. */
  datatype Handle = Handle(ptr: Option<Ptr>, dropped: bool, attached: bool, proof: bool, lock: Lock, past: set<Ptr>)

  /** A constructor in flight, on the database or on a parent handle; `made` is the new
      object's pointer until its lease is attached. */
  datatype Task = Task(parent: Option<Hid>, made: Option<Ptr>)

  /** Where `Close` is. */
  datatype Closer =
    | NoClose
    | Forcing(todo: seq<Hid>, doing: Option<Hid>)
    | Checking
    | Waiting(w: R.Wid)
    | Drained

  /** Who has a C pointer; `Gone` is one that was freed or consumed. */
  datatype Place = InHandle(h: Hid) | InTask(t: Tid) | Gone

  /** `gone` lists the pointers in the order they were freed or consumed. */
  datatype World = World(reg: R.Registry, hs: map<Hid, Handle>, tasks: map<Tid, Task>, closer: Closer, open: bool,
                         place: map<Ptr, Place>, gone: seq<Ptr>)

  function Opened(): World {
    World(R.NewRegistry(), map[], map[], NoClose, true, map[], [])
  }

  datatype Event =
    // constructors
    | Make(t: Tid, parent: Option<Hid>) | CallRust(t: Tid, p: Ptr) | GiveUp(t: Tid) | AttachChild(t: Tid, h: Hid)
    | MakeProof(h: Hid, p: Ptr) | BindProof(h: Hid)
    // drop, commit, reconstruct, cleanup
    | Acquire(h: Hid, byCloser: bool) | Disown(h: Hid) | Swap(h: Hid, next: Option<Ptr>) | Unlock(h: Hid)
    // Close
    | BeginClose(force: bool, todo: seq<Hid>) | NextDrop | StopForce(fired: bool) | CheckDrained(w: R.Wid)
    | Wake | CancelClose | CloseDb

  /** `drops` lists the leases of the drop map. */
  ghost predicate Lists(drops: seq<Hid>, handles: set<Hid>) {
    Distinct(drops) && forall l :: l in drops <==> l in handles
  }

  ghost predicate Can(s: World, e: Event) {
    match e
    case Make(t, parent) =>
      && t !in s.tasks
      && match parent {
         case None => s.closer.NoClose? && s.open
         case Some(p) => p in s.hs && s.hs[p].lock.Free? && !s.hs[p].dropped && !s.hs[p].proof
         }
    case CallRust(t, p) => t in s.tasks && s.tasks[t].made.None? && p !in s.place
    case GiveUp(t) => t in s.tasks && s.tasks[t].made.None?
    case AttachChild(t, h) => t in s.tasks && s.tasks[t].made.Some? && h !in s.hs
    case MakeProof(h, p) => h !in s.hs && p !in s.place
    case BindProof(h) =>
      && s.open && s.closer.NoClose? && !s.reg.closed && h in s.hs && s.hs[h].lock == Free({}) && !s.hs[h].dropped
      && !s.hs[h].attached
    case Acquire(h, byCloser) =>
      h in s.hs && s.hs[h].lock == Free({}) && (byCloser ==> s.closer.Forcing? && s.closer.doing == Some(h))
    case Disown(h) => h in s.hs && s.hs[h].lock.Held? && s.hs[h].lock.stage.Entered?
    case Swap(h, p) =>
      && h in s.hs && s.hs[h].lock == Held(Entered, false) && !s.hs[h].dropped && !s.hs[h].proof
      && (p.Some? ==> p.value !in s.place)
    case Unlock(h) => h in s.hs && s.hs[h].lock.Held? && s.hs[h].lock.stage.Disowned?
    case BeginClose(force, todo) =>
      && s.closer.NoClose? && s.open && (forall t | t in s.tasks :: s.tasks[t].parent.Some?)
      && (force ==> Lists(todo, s.reg.handles))
    case NextDrop => s.closer.Forcing? && s.closer.doing.None? && s.closer.todo != []
    case StopForce(fired) => s.closer.Forcing? && s.closer.doing.None? && (fired || s.closer.todo == [])
    case CheckDrained(w) => s.closer.Checking? && w !in s.reg.seen
    case Wake => s.closer.Waiting? && s.closer.w in s.reg.rung
    case CancelClose => s.closer.Waiting? && s.closer.w in s.reg.seen && s.closer.w !in s.reg.left
    case CloseDb => s.closer.Drained?
  }

  /** A constructor is done: its parent's lock is let go. */
  function LetGo(hs: map<Hid, Handle>, t: Tid, parent: Option<Hid>): map<Hid, Handle> {
    if parent.Some? && parent.value in hs && hs[parent.value].lock.Free?
    then hs[parent.value := hs[parent.value].(lock := Free(hs[parent.value].lock.readers - {t}))]
    else hs
  }

  function Happen(s: World, e: Event): World
    requires Can(s, e)
  {
    match e
    case Make(t, parent) =>
      var n := s.(tasks := s.tasks[t := Task(parent, None)]);
      if parent.None? then n
      else
        var x := s.hs[parent.value];
        n.(hs := s.hs[parent.value := x.(lock := Free(x.lock.readers + {t}))])
    case CallRust(t, p) =>
      s.(tasks := s.tasks[t := s.tasks[t].(made := Some(p))], place := s.place[p := InTask(t)])
    case GiveUp(t) => s.(tasks := s.tasks - {t}, hs := LetGo(s.hs, t, s.tasks[t].parent))
    case AttachChild(t, h) => AttachTo(s, t, h)
    case MakeProof(h, p) =>
      s.(hs := s.hs[h := Handle(Some(p), false, false, true, Free({}), {p})], place := s.place[p := InHandle(h)])
    case BindProof(h) =>
      s.(reg := R.Do(s.reg, R.AttachTo(h)), hs := s.hs[h := s.hs[h].(attached := true)])
    case Acquire(h, byCloser) => s.(hs := s.hs[h := s.hs[h].(lock := Held(Entered, byCloser))])
    case Disown(h) => Disowning(s, h)
    case Swap(h, p) => Swapping(s, h, p)
    case Unlock(h) => Unlocking(s, h)
    case BeginClose(force, todo) =>
      if force then s.(reg := R.Do(s.reg, R.Shut), closer := Forcing(todo, None)) else s.(closer := Checking)
    case NextDrop => s.(closer := Forcing(s.closer.todo[1..], Some(s.closer.todo[0])))
    case StopForce(_) => s.(closer := Checking)
    case CheckDrained(w) => s.(reg := R.Do(s.reg, R.Wait(w)), closer := if s.reg.count == 0 then Drained else Waiting(w))
    case Wake => s.(closer := Drained)
    case CancelClose => s.(reg := R.Do(s.reg, R.Cancel(s.closer.w)), closer := NoClose)
    case CloseDb => s.(closer := NoClose, open := false)
  }

  /** `lease.attach` on a new handle: a closed registry refuses and the new object is freed. */
  function AttachTo(s: World, t: Tid, h: Hid): World
    requires Can(s, AttachChild(t, h))
  {
    var p := s.tasks[t].made.value;
    var n := s.(tasks := s.tasks - {t}, hs := LetGo(s.hs, t, s.tasks[t].parent));
    if s.reg.closed then n.(place := s.place[p := Gone], gone := s.gone + [p])
    else
      n.(reg := R.Do(s.reg, R.AttachTo(h)), place := s.place[p := InHandle(h)],
         hs := n.hs[h := Handle(Some(p), false, true, false, Free({}), {p})])
  }

  /** The disowning part of `Drop`, `Commit` and `CommitWithRebase`: the pointer, if there is
      one, goes to the call that frees or consumes it. */
  function Disowning(s: World, h: Hid): World
    requires Can(s, Disown(h))
  {
    var x := s.hs[h];
    var y := x.(ptr := None, dropped := true, lock := Held(Disowned, x.lock.closer));
    if x.ptr.None? then s.(hs := s.hs[h := y])
    else s.(hs := s.hs[h := y], place := s.place[x.ptr.value := Gone], gone := s.gone + [x.ptr.value])
  }

  /** `Reconstruct`: the old pointer is consumed whatever comes of it. */
  function Swapping(s: World, h: Hid, p: Option<Ptr>): World
    requires Can(s, Swap(h, p))
  {
    var x := s.hs[h];
    var spent := if x.ptr.None? then s else s.(place := s.place[x.ptr.value := Gone], gone := s.gone + [x.ptr.value]);
    match p
    case None => spent.(hs := s.hs[h := x.(ptr := None, dropped := true, lock := Held(Disowned, false))])
    case Some(q) => spent.(hs := s.hs[h := x.(ptr := Some(q), lock := Free({}), past := x.past + {q})],
                           place := spent.place[q := InHandle(h)])
  }

  /** `releaseLocked`, and the lock is let go. */
  function Unlocking(s: World, h: Hid): World
    requires Can(s, Unlock(h))
  {
    var x := s.hs[h];
    s.(reg := if x.attached then R.Do(s.reg, R.Release(h)) else s.reg,
       hs := s.hs[h := x.(attached := false, lock := Free({}))],
       closer := if x.lock.closer && s.closer.Forcing? then s.closer.(doing := None) else s.closer)
  }

  ghost predicate Happens(s: World, es: seq<Event>)
    decreases |es|
  {
    es == [] || (Can(s, es[0]) && Happens(Happen(s, es[0]), es[1..]))
  }

  ghost function Later(s: World, es: seq<Event>): World
    requires Happens(s, es)
    decreases |es|
  {
    if es == [] then s else Later(Happen(s, es[0]), es[1..])
  }

  // ---- Leases ----

  /** What a handle's fields say about each other: it has a pointer until it is dropped, and a
      lease from then on until its lock is let go. */
  predicate Coherent(x: Handle) {
    && (x.ptr.Some? <==> !x.dropped)
    && (x.dropped && x.attached ==> x.lock.Held? && x.lock.stage.Disowned?)
    && (!x.dropped && !x.attached ==> x.proof)
    && (x.lock.Held? && x.lock.stage.Disowned? ==> x.dropped)
    && (x.lock.Free? && x.lock.readers != {} ==> !x.dropped && x.attached)
  }

  ghost predicate HandlesOk(hs: map<Hid, Handle>) {
    forall h | h in hs :: Coherent(hs[h])
  }

  /** The drop map has the attached leases and no others. */
  ghost predicate LeasesOk(handles: set<Hid>, hs: map<Hid, Handle>) {
    handles <= hs.Keys && forall h | h in hs :: hs[h].attached <==> h in handles
  }

  /** The events that make handles, and those that take and let go of their locks. */
  predicate Making(e: Event) {
    e.Make? || e.CallRust? || e.GiveUp? || e.AttachChild? || e.MakeProof? || e.BindProof?
  }

  predicate Locking(e: Event) {
    e.Acquire? || e.Disown? || e.Swap? || e.Unlock?
  }

  lemma HandlesKeptMaking(s: World, e: Event)
    requires HandlesOk(s.hs) && Can(s, e) && Making(e)
    ensures HandlesOk(Happen(s, e).hs)
  {
  }

  lemma HandlesKeptLocking(s: World, e: Event)
    requires HandlesOk(s.hs) && Can(s, e) && Locking(e)
    ensures HandlesOk(Happen(s, e).hs)
  {
  }

  lemma HandlesKept(s: World, e: Event)
    requires HandlesOk(s.hs) && Can(s, e)
    ensures HandlesOk(Happen(s, e).hs)
  {
    if Making(e) {
      HandlesKeptMaking(s, e);
    } else if Locking(e) {
      HandlesKeptLocking(s, e);
    }
  }

  lemma LetGoLeases(handles: set<Hid>, hs: map<Hid, Handle>, t: Tid, parent: Option<Hid>)
    requires LeasesOk(handles, hs)
    ensures LeasesOk(handles, LetGo(hs, t, parent)) && LetGo(hs, t, parent).Keys == hs.Keys
  {
  }

  lemma LeasesKeptMaking(s: World, e: Event)
    requires LeasesOk(s.reg.handles, s.hs) && Can(s, e) && Making(e)
    ensures LeasesOk(Happen(s, e).reg.handles, Happen(s, e).hs)
  {
    match e {
      case AttachChild(t, h) => LetGoLeases(s.reg.handles, s.hs, t, s.tasks[t].parent);
      case GiveUp(t) => LetGoLeases(s.reg.handles, s.hs, t, s.tasks[t].parent);
      case _ =>
    }
  }

  lemma LeasesUpdate(handles: set<Hid>, hs: map<Hid, Handle>, h: Hid, x: Handle)
    requires LeasesOk(handles, hs) && h in hs && x.attached == hs[h].attached
    ensures LeasesOk(handles, hs[h := x])
  {
  }

  lemma LeasesUnlock(s: World, h: Hid)
    requires LeasesOk(s.reg.handles, s.hs) && Can(s, Unlock(h))
    ensures LeasesOk(Happen(s, Unlock(h)).reg.handles, Happen(s, Unlock(h)).hs)
  {
  }

  lemma LeasesKeptLocking(s: World, e: Event)
    requires LeasesOk(s.reg.handles, s.hs) && Can(s, e) && Locking(e)
    ensures LeasesOk(Happen(s, e).reg.handles, Happen(s, e).hs)
  {
    if e.Unlock? {
      LeasesUnlock(s, e.h);
    } else {
      LeasesUpdate(s.reg.handles, s.hs, e.h, Happen(s, e).hs[e.h]);
    }
  }

  lemma LeasesKept(s: World, e: Event)
    requires LeasesOk(s.reg.handles, s.hs) && Can(s, e)
    ensures LeasesOk(Happen(s, e).reg.handles, Happen(s, e).hs)
  {
    if Making(e) {
      LeasesKeptMaking(s, e);
    } else if Locking(e) {
      LeasesKeptLocking(s, e);
    }
  }

  /** What an event does to the registry is one of its steps, or nothing. */
  lemma RegistryKept(s: World, e: Event)
    requires R.RegOk(s.reg) && LeasesOk(s.reg.handles, s.hs) && Can(s, e)
    ensures R.RegOk(Happen(s, e).reg)
  {
    match e {
      case AttachChild(t, h) => R.StepKeeps(s.reg, R.AttachTo(h));
      case BindProof(h) => R.StepKeeps(s.reg, R.AttachTo(h));
      case Unlock(h) => if s.hs[h].attached { R.StepKeeps(s.reg, R.Release(h)); }
      case CheckDrained(w) => R.StepKeeps(s.reg, R.Wait(w));
      case CancelClose => R.StepKeeps(s.reg, R.Cancel(s.closer.w));
      case BeginClose(_, _) => R.StepKeeps(s.reg, R.Shut);
      case _ =>
    }
  }

  // ---- Constructors in flight ----

  /** A constructor holds its parent's lock shared, and nobody else holds it so. */
  ghost predicate TasksOk(tasks: map<Tid, Task>, hs: map<Hid, Handle>) {
    && (forall t | t in tasks && tasks[t].parent.Some? ::
          var p := tasks[t].parent.value; p in hs && hs[p].lock.Free? && t in hs[p].lock.readers)
    && (forall h, t | h in hs && hs[h].lock.Free? && t in hs[h].lock.readers :: t in tasks && tasks[t].parent == Some(h))
  }

  /** A handle that no constructor uses can change, or come to be, as long as none uses it
      afterwards. */
  lemma UnusedChanges(tasks: map<Tid, Task>, hs: map<Hid, Handle>, h: Hid, x: Handle)
    requires TasksOk(tasks, hs) && (h in hs ==> hs[h].lock.Held? || hs[h].lock.readers == {})
    requires x.lock.Held? || x.lock.readers == {}
    ensures TasksOk(tasks, hs[h := x])
  {
  }

  /** Nothing but its lock changes when a constructor is done with a handle. */
  lemma LetGoTasks(tasks: map<Tid, Task>, hs: map<Hid, Handle>, t: Tid)
    requires TasksOk(tasks, hs) && t in tasks
    ensures TasksOk(tasks - {t}, LetGo(hs, t, tasks[t].parent))
  {
  }

  lemma MakeTasks(s: World, t: Tid, parent: Option<Hid>)
    requires TasksOk(s.tasks, s.hs) && Can(s, Make(t, parent))
    ensures TasksOk(Happen(s, Make(t, parent)).tasks, Happen(s, Make(t, parent)).hs)
  {
  }

  lemma TasksKept(s: World, e: Event)
    requires TasksOk(s.tasks, s.hs) && Can(s, e)
    ensures TasksOk(Happen(s, e).tasks, Happen(s, e).hs)
  {
    match e {
      case Make(t, parent) => MakeTasks(s, t, parent);
      case GiveUp(t) => LetGoTasks(s.tasks, s.hs, t);
      case AttachChild(t, h) =>
        LetGoTasks(s.tasks, s.hs, t);
        if !s.reg.closed {
          UnusedChanges(s.tasks - {t}, LetGo(s.hs, t, s.tasks[t].parent), h, Happen(s, e).hs[h]);
        }
      case MakeProof(h, _) => UnusedChanges(s.tasks, s.hs, h, Happen(s, e).hs[h]);
      case BindProof(h) => UnusedChanges(s.tasks, s.hs, h, Happen(s, e).hs[h]);
      case Acquire(h, _) => UnusedChanges(s.tasks, s.hs, h, Happen(s, e).hs[h]);
      case Disown(h) => UnusedChanges(s.tasks, s.hs, h, Happen(s, e).hs[h]);
      case Swap(h, _) => UnusedChanges(s.tasks, s.hs, h, Happen(s, e).hs[h]);
      case Unlock(h) => UnusedChanges(s.tasks, s.hs, h, Happen(s, e).hs[h]);
      case _ =>
    }
  }

  // ---- Closing ----

  ghost predicate CloserOk(s: World) {
    && (!s.closer.NoClose? ==> s.open)
    && (!s.closer.NoClose? || !s.open ==> forall t | t in s.tasks :: s.tasks[t].parent.Some?)
    && (s.closer.Drained? || !s.open ==> s.reg.count == 0)
    && (s.closer.Waiting? && s.closer.w in s.reg.rung ==> s.reg.count == 0)
    && (s.closer.Waiting? ==> s.closer.w in s.reg.seen && s.closer.w !in s.reg.left)
  }

  lemma ParentsAreLeased(tasks: map<Tid, Task>, hs: map<Hid, Handle>, handles: set<Hid>)
    requires HandlesOk(hs) && LeasesOk(handles, hs) && TasksOk(tasks, hs)
    ensures forall t | t in tasks && tasks[t].parent.Some? :: tasks[t].parent.value in handles
  {
    forall t | t in tasks && tasks[t].parent.Some? ensures tasks[t].parent.value in handles {
      assert Coherent(hs[tasks[t].parent.value]);
    }
  }

  /** With a count of zero there is no attached lease, so no constructor on a handle can be in
      flight. */
  lemma NoneInFlight(s: World)
    requires HandlesOk(s.hs) && LeasesOk(s.reg.handles, s.hs) && R.RegOk(s.reg) && TasksOk(s.tasks, s.hs)
    requires s.reg.count == 0 && (forall t | t in s.tasks :: s.tasks[t].parent.Some?)
    ensures s.tasks.Keys == {} && forall h | h in s.hs :: !s.hs[h].attached
  {
    ParentsAreLeased(s.tasks, s.hs, s.reg.handles);
    assert s.reg.handles == {};
  }

  ghost predicate Settled(s: World) {
    HandlesOk(s.hs) && LeasesOk(s.reg.handles, s.hs) && R.RegOk(s.reg) && TasksOk(s.tasks, s.hs)
  }

  lemma SettledKept(s: World, e: Event)
    requires Settled(s) && Can(s, e)
    ensures Settled(Happen(s, e))
  {
    HandlesKept(s, e);
    LeasesKept(s, e);
    RegistryKept(s, e);
    TasksKept(s, e);
  }

  lemma AttachClosing(s: World, t: Tid, h: Hid)
    requires Settled(s) && CloserOk(s) && Can(s, AttachChild(t, h))
    ensures CloserOk(Happen(s, AttachChild(t, h)))
  {
    if s.reg.count == 0 && forall u | u in s.tasks :: s.tasks[u].parent.Some? { NoneInFlight(s); }
  }

  lemma UnlockClosing(s: World, h: Hid)
    requires LeasesOk(s.reg.handles, s.hs) && R.RegOk(s.reg) && CloserOk(s) && Can(s, Unlock(h))
    ensures CloserOk(Happen(s, Unlock(h)))
  {
  }

  lemma CloserKept(s: World, e: Event)
    requires Settled(s) && CloserOk(s) && Can(s, e)
    ensures CloserOk(Happen(s, e))
  {
    match e {
      case AttachChild(t, h) => AttachClosing(s, t, h);
      case Unlock(h) => UnlockClosing(s, h);
      case _ =>
    }
  }

  /** A forced close still has every registered lease before it. */
  ghost predicate ForcingOk(closer: Closer, reg: R.Registry) {
    closer.Forcing? ==> reg.closed && forall l | l in reg.handles :: l in closer.todo || closer.doing == Some(l)
  }

  /** The lock that a forced close holds is on the lease it is dropping. */
  ghost predicate CloserLocks(closer: Closer, hs: map<Hid, Handle>) {
    forall h | h in hs && hs[h].lock.Held? && hs[h].lock.closer :: closer.Forcing? && closer.doing == Some(h)
  }

  lemma CloserLocksKeptMaking(s: World, e: Event)
    requires CloserLocks(s.closer, s.hs) && Can(s, e) && Making(e)
    ensures CloserLocks(Happen(s, e).closer, Happen(s, e).hs)
  {
  }

  /** Only one handle changes, and it does not come into the close's hands. */
  lemma CloserLocksUpdate(closer: Closer, hs: map<Hid, Handle>, h: Hid, x: Handle)
    requires CloserLocks(closer, hs)
    requires x.lock.Held? && x.lock.closer ==> closer.Forcing? && closer.doing == Some(h)
    ensures CloserLocks(closer, hs[h := x])
  {
  }

  lemma CloserLocksUnlock(s: World, h: Hid)
    requires CloserLocks(s.closer, s.hs) && Can(s, Unlock(h))
    ensures CloserLocks(Happen(s, Unlock(h)).closer, Happen(s, Unlock(h)).hs)
  {
  }

  lemma CloserLocksKeptLocking(s: World, e: Event)
    requires CloserLocks(s.closer, s.hs) && Can(s, e) && Locking(e)
    ensures CloserLocks(Happen(s, e).closer, Happen(s, e).hs)
  {
    if e.Unlock? {
      CloserLocksUnlock(s, e.h);
    } else {
      CloserLocksUpdate(s.closer, s.hs, e.h, Happen(s, e).hs[e.h]);
    }
  }

  lemma CloserLocksKept(s: World, e: Event)
    requires CloserLocks(s.closer, s.hs) && Can(s, e)
    ensures CloserLocks(Happen(s, e).closer, Happen(s, e).hs)
  {
    if Making(e) {
      CloserLocksKeptMaking(s, e);
    } else if Locking(e) {
      CloserLocksKeptLocking(s, e);
    }
  }

  /** A forced close only goes after handles that exist. */
  ghost predicate TargetsOk(closer: Closer, known: set<Hid>) {
    closer.Forcing? ==>
      (forall h | h in closer.todo :: h in known) && (closer.doing.Some? ==> closer.doing.value in known)
  }

  lemma HandlesStay(s: World, e: Event)
    requires Can(s, e)
    ensures s.hs.Keys <= Happen(s, e).hs.Keys
  {
  }

  lemma TargetsKept(s: World, e: Event)
    requires LeasesOk(s.reg.handles, s.hs) && TargetsOk(s.closer, s.hs.Keys) && Can(s, e)
    ensures TargetsOk(Happen(s, e).closer, Happen(s, e).hs.Keys)
  {
    HandlesStay(s, e);
  }

  lemma UnlockForcing(s: World, h: Hid)
    requires LeasesOk(s.reg.handles, s.hs) && CloserLocks(s.closer, s.hs) && ForcingOk(s.closer, s.reg)
    requires Can(s, Unlock(h))
    ensures ForcingOk(Happen(s, Unlock(h)).closer, Happen(s, Unlock(h)).reg)
  {
  }

  lemma ForcingKept(s: World, e: Event)
    requires LeasesOk(s.reg.handles, s.hs) && CloserLocks(s.closer, s.hs) && ForcingOk(s.closer, s.reg) && Can(s, e)
    ensures ForcingOk(Happen(s, e).closer, Happen(s, e).reg)
  {
    match e {
      case NextDrop =>
        var todo := s.closer.todo;
        assert forall l | l in todo :: l == todo[0] || l in todo[1..];
      case Unlock(h) => UnlockForcing(s, h);
      case _ =>
    }
  }

  // ---- Pointers ----

  /** A pointer is gone when it has been freed or consumed, and that happens once. */
  ghost predicate GoneOk(place: map<Ptr, Place>, gone: seq<Ptr>) {
    Distinct(gone) && forall p: Ptr :: p in gone <==> p in place && place[p].Gone?
  }

  ghost predicate HeldOk(hs: map<Hid, Handle>, place: map<Ptr, Place>) {
    forall h | h in hs ::
      && (hs[h].ptr.Some? ==> hs[h].ptr.value in hs[h].past)
      && forall p | p in hs[h].past :: p in place && place[p] == if hs[h].ptr == Some(p) then InHandle(h) else Gone
  }

  ghost predicate MadeOk(tasks: map<Tid, Task>, place: map<Ptr, Place>) {
    forall t | t in tasks && tasks[t].made.Some? :: tasks[t].made.value in place && place[tasks[t].made.value] == InTask(t)
  }

  /** No pointer is lost. */
  ghost predicate PlacedOk(place: map<Ptr, Place>, hs: map<Hid, Handle>, tasks: map<Tid, Task>) {
    forall p | p in place ::
      match place[p]
      case InHandle(h) => h in hs && hs[h].ptr == Some(p)
      case InTask(t) => t in tasks && tasks[t].made == Some(p)
      case Gone => true
  }

  ghost predicate OwnersOk(place: map<Ptr, Place>, hs: map<Hid, Handle>, tasks: map<Tid, Task>) {
    HeldOk(hs, place) && MadeOk(tasks, place) && PlacedOk(place, hs, tasks)
  }

  ghost predicate PointersOk(s: World) {
    GoneOk(s.place, s.gone) && OwnersOk(s.place, s.hs, s.tasks)
  }

  /** No pointer is made, moved or spent. */
  ghost predicate SamePointers(s: World, n: World) {
    && n.place == s.place && n.gone == s.gone && n.hs.Keys == s.hs.Keys
    && (forall h | h in s.hs :: n.hs[h].ptr == s.hs[h].ptr && n.hs[h].past == s.hs[h].past)
    && (forall t | t in n.tasks && n.tasks[t].made.Some? :: t in s.tasks && s.tasks[t].made == n.tasks[t].made)
    && (forall t | t in s.tasks && s.tasks[t].made.Some? :: t in n.tasks && n.tasks[t].made == s.tasks[t].made)
  }

  predicate TouchesPointers(e: Event) {
    e.CallRust? || e.AttachChild? || e.MakeProof? || e.Disown? || e.Swap?
  }

  lemma TasksLeavePointers(s: World, e: Event)
    requires Can(s, e) && (e.Make? || e.GiveUp?)
    ensures SamePointers(s, Happen(s, e))
  {
  }

  lemma OthersLeavePointers(s: World, e: Event)
    requires Can(s, e) && !TouchesPointers(e)
    ensures SamePointers(s, Happen(s, e))
  {
    if e.Make? || e.GiveUp? { TasksLeavePointers(s, e); }
  }

  lemma SamePointersKeep(s: World, n: World)
    requires PointersOk(s) && SamePointers(s, n)
    ensures PointersOk(n)
  {
  }

  lemma Spend(place: map<Ptr, Place>, gone: seq<Ptr>, p: Ptr)
    requires GoneOk(place, gone) && p in place && !place[p].Gone?
    ensures GoneOk(place[p := Gone], gone + [p])
  {
    assert forall i | 0 <= i < |gone| :: gone[i] in gone;
  }

  lemma Fill(place: map<Ptr, Place>, gone: seq<Ptr>, p: Ptr, where: Place)
    requires GoneOk(place, gone) && (p in place ==> !place[p].Gone?) && !where.Gone?
    ensures GoneOk(place[p := where], gone)
  {
  }

  lemma CallRustPointers(s: World, t: Tid, p: Ptr)
    requires PointersOk(s) && Can(s, CallRust(t, p))
    ensures PointersOk(Happen(s, CallRust(t, p)))
  {
    Fill(s.place, s.gone, p, InTask(t));
  }

  /** A handle gives up its pointer. */
  lemma HandleSpends(place: map<Ptr, Place>, hs: map<Hid, Handle>, tasks: map<Tid, Task>, h: Hid, y: Handle)
    requires OwnersOk(place, hs, tasks) && h in hs && hs[h].ptr.Some? && y.ptr.None? && y.past == hs[h].past
    ensures OwnersOk(place[hs[h].ptr.value := Gone], hs[h := y], tasks)
  {
  }

  /** A handle without a pointer, or a new one, gets one. */
  lemma HandleGets(place: map<Ptr, Place>, hs: map<Hid, Handle>, tasks: map<Tid, Task>, h: Hid, z: Handle, q: Ptr)
    requires OwnersOk(place, hs, tasks) && (h in hs ==> hs[h].ptr.None? && z.past == hs[h].past + {q})
    requires h !in hs ==> z.past == {q}
    requires z.ptr == Some(q) && q !in place
    ensures OwnersOk(place[q := InHandle(h)], hs[h := z], tasks)
  {
  }

  /** A constructor gives up its pointer. */
  lemma TaskSpends(place: map<Ptr, Place>, hs: map<Hid, Handle>, tasks: map<Tid, Task>, t: Tid)
    requires OwnersOk(place, hs, tasks) && t in tasks && tasks[t].made.Some?
    ensures OwnersOk(place[tasks[t].made.value := Gone], hs, tasks - {t})
  {
  }

  /** A constructor hands its pointer to a new handle. */
  lemma TaskHandsOver(place: map<Ptr, Place>, hs: map<Hid, Handle>, tasks: map<Tid, Task>, t: Tid, h: Hid, z: Handle)
    requires OwnersOk(place, hs, tasks) && t in tasks && tasks[t].made.Some? && h !in hs
    requires z.ptr == tasks[t].made && z.past == {tasks[t].made.value}
    ensures OwnersOk(place[tasks[t].made.value := InHandle(h)], hs[h := z], tasks - {t})
  {
  }

  lemma LetGoOwners(place: map<Ptr, Place>, hs: map<Hid, Handle>, tasks: map<Tid, Task>, t: Tid, parent: Option<Hid>)
    requires OwnersOk(place, hs, tasks)
    ensures OwnersOk(place, LetGo(hs, t, parent), tasks) && LetGo(hs, t, parent).Keys == hs.Keys
  {
  }

  lemma AttachPointers(s: World, t: Tid, h: Hid)
    requires PointersOk(s) && Can(s, AttachChild(t, h))
    ensures PointersOk(Happen(s, AttachChild(t, h)))
  {
    var p, parent := s.tasks[t].made.value, s.tasks[t].parent;
    LetGoOwners(s.place, s.hs, s.tasks, t, parent);
    if s.reg.closed {
      Spend(s.place, s.gone, p);
      TaskSpends(s.place, LetGo(s.hs, t, parent), s.tasks, t);
    } else {
      Fill(s.place, s.gone, p, InHandle(h));
      TaskHandsOver(s.place, LetGo(s.hs, t, parent), s.tasks, t, h, Happen(s, AttachChild(t, h)).hs[h]);
    }
  }

  lemma MakeProofPointers(s: World, h: Hid, p: Ptr)
    requires PointersOk(s) && Can(s, MakeProof(h, p))
    ensures PointersOk(Happen(s, MakeProof(h, p)))
  {
    Fill(s.place, s.gone, p, InHandle(h));
    HandleGets(s.place, s.hs, s.tasks, h, Happen(s, MakeProof(h, p)).hs[h], p);
  }

  lemma DisownPointers(s: World, h: Hid)
    requires PointersOk(s) && Can(s, Disown(h))
    ensures PointersOk(Happen(s, Disown(h)))
  {
    if s.hs[h].ptr.Some? {
      Spend(s.place, s.gone, s.hs[h].ptr.value);
      HandleSpends(s.place, s.hs, s.tasks, h, Happen(s, Disown(h)).hs[h]);
    } else {
      assert SamePointers(s, Happen(s, Disown(h)));
      SamePointersKeep(s, Happen(s, Disown(h)));
    }
  }

  lemma SwapFails(s: World, h: Hid)
    requires PointersOk(s) && Can(s, Swap(h, None)) && s.hs[h].ptr.Some?
    ensures PointersOk(Happen(s, Swap(h, None)))
  {
    Spend(s.place, s.gone, s.hs[h].ptr.value);
    HandleSpends(s.place, s.hs, s.tasks, h, Happen(s, Swap(h, None)).hs[h]);
  }

  lemma SwapWorks(s: World, h: Hid, p: Ptr)
    requires PointersOk(s) && Can(s, Swap(h, Some(p))) && s.hs[h].ptr.Some?
    ensures PointersOk(Happen(s, Swap(h, Some(p))))
  {
    var x, z := s.hs[h], Happen(s, Swap(h, Some(p))).hs[h];
    var was, y := x.ptr.value, x.(ptr := None);
    Spend(s.place, s.gone, was);
    HandleSpends(s.place, s.hs, s.tasks, h, y);
    Fill(s.place[was := Gone], s.gone + [was], p, InHandle(h));
    HandleGets(s.place[was := Gone], s.hs[h := y], s.tasks, h, z, p);
    assert s.hs[h := y][h := z] == s.hs[h := z];
  }

  lemma OthersKeepPointers(s: World, e: Event)
    requires PointersOk(s) && Can(s, e) && !TouchesPointers(e)
    ensures PointersOk(Happen(s, e))
  {
    OthersLeavePointers(s, e);
    SamePointersKeep(s, Happen(s, e));
  }

  lemma PointersKept(s: World, e: Event)
    requires PointersOk(s) && HandlesOk(s.hs) && Can(s, e)
    ensures PointersOk(Happen(s, e))
  {
    match e {
      case CallRust(t, p) => CallRustPointers(s, t, p);
      case AttachChild(t, h) => AttachPointers(s, t, h);
      case MakeProof(h, p) => MakeProofPointers(s, h, p);
      case Disown(h) => DisownPointers(s, h);
      case Swap(h, p) => if p.None? { SwapFails(s, h); } else { SwapWorks(s, h, p.value); }
      case _ => OthersKeepPointers(s, e);
    }
  }

  // ---- All runs ----

  ghost predicate WorldInv(s: World) {
    && Settled(s) && CloserOk(s) && CloserLocks(s.closer, s.hs) && ForcingOk(s.closer, s.reg)
    && TargetsOk(s.closer, s.hs.Keys) && PointersOk(s)
  }

  lemma WorldKept(s: World, e: Event)
    requires WorldInv(s) && Can(s, e)
    ensures WorldInv(Happen(s, e))
  {
    SettledKept(s, e);
    CloserKept(s, e);
    CloserLocksKept(s, e);
    ForcingKept(s, e);
    TargetsKept(s, e);
    PointersKept(s, e);
  }

  lemma {:induction false} WorldRun(s: World, es: seq<Event>)
    requires WorldInv(s) && Happens(s, es)
    ensures WorldInv(Later(s, es))
    decreases |es|
  {
    if es != [] {
      WorldKept(s, es[0]);
      WorldRun(Happen(s, es[0]), es[1..]);
    }
  }

  lemma {:induction false} Reached(es: seq<Event>)
    requires Happens(Opened(), es)
    ensures WorldInv(Later(Opened(), es))
  {
    WorldRun(Opened(), es);
  }

  /** Only a proof that never took a lease still has its pointer. */
  ghost predicate OnlyLooseProofs(s: World) {
    forall p | p in s.place && !s.place[p].Gone? ::
      s.place[p].InHandle? && s.place[p].h in s.hs && s.hs[s.place[p].h].proof && !s.hs[s.place[p].h].attached
  }

  lemma ZeroIsLoose(s: World)
    requires WorldInv(s) && s.reg.count == 0 && (!s.closer.NoClose? || !s.open)
    ensures s.tasks.Keys == {} && s.reg.handles == {} && OnlyLooseProofs(s)
  {
    NoneInFlight(s);
    forall p | p in s.place && !s.place[p].Gone?
      ensures s.place[p].InHandle? && s.place[p].h in s.hs
      ensures s.hs[s.place[p].h].proof && !s.hs[s.place[p].h].attached
    {
      if s.place[p].InHandle? { assert Coherent(s.hs[s.place[p].h]); }
    }
  }

  /** `fwd_close_db` is reached only with no lease outstanding, no constructor in flight and
      every pointer that a lease ever guarded freed or consumed; and so it stays afterwards. */
  lemma {:induction false} CloseIsSafe(es: seq<Event>)
    requires Happens(Opened(), es)
    ensures var s := Later(Opened(), es);
            Can(s, CloseDb) || !s.open ==>
              s.reg.count == 0 && s.reg.handles == {} && s.tasks.Keys == {} && OnlyLooseProofs(s)
  {
    Reached(es);
    var s := Later(Opened(), es);
    if Can(s, CloseDb) || !s.open { ZeroIsLoose(s); }
  }

  /** Once the count is zero while `Close` holds the handle lock, nothing raises it. */
  lemma {:induction false} ZeroStays(es: seq<Event>, e: Event)
    requires Happens(Opened(), es) && Can(Later(Opened(), es), e)
    ensures var s := Later(Opened(), es);
            s.reg.count == 0 && (!s.closer.NoClose? || !s.open) ==> Happen(s, e).reg.count == 0
  {
    Reached(es);
    var s := Later(Opened(), es);
    if s.reg.count == 0 && (!s.closer.NoClose? || !s.open) { ZeroIsLoose(s); }
  }

  /** A `Close` that waits can go on exactly when the count is zero: the wakeup is neither
      missed nor early, and the next thing it does is to close the database. */
  lemma {:induction false} WakesAtZero(es: seq<Event>)
    requires Happens(Opened(), es)
    ensures var s := Later(Opened(), es); s.closer.Waiting? ==> (Can(s, Wake) <==> s.reg.count == 0)
    ensures var s := Later(Opened(), es);
            Can(s, Wake) ==> Can(Happen(s, Wake), CloseDb) && !Happen(Happen(s, Wake), CloseDb).open
  {
    Reached(es);
  }

  /** A forced close whose context does not fire leaves the registry empty, whatever others
      drop meanwhile; and no lease is added once the registry is closed. */
  lemma {:induction false} ForceDrains(es: seq<Event>)
    requires Happens(Opened(), es)
    ensures var s := Later(Opened(), es); Can(s, StopForce(false)) ==> s.reg.handles == {} && s.reg.count == 0
    ensures var s := Later(Opened(), es);
            s.reg.closed ==> forall e | Can(s, e) :: Happen(s, e).reg.closed && Happen(s, e).reg.handles <= s.reg.handles
  {
    Reached(es);
    var s := Later(Opened(), es);
    if Can(s, StopForce(false)) { assert s.reg.handles == {}; }
    if s.reg.closed {
      forall e | Can(s, e) ensures Happen(s, e).reg.closed && Happen(s, e).reg.handles <= s.reg.handles {
        ClosedKept(s, e);
      }
    }
  }

  lemma ClosedKept(s: World, e: Event)
    requires s.reg.closed && Can(s, e)
    ensures Happen(s, e).reg.closed && Happen(s, e).reg.handles <= s.reg.handles
  {
  }

  /** No pointer goes to two freeing or consuming calls, and all that a handle ever held have
      gone to one once it is dropped; until then only the current one has not. */
  lemma {:induction false} PointersGoOnce(es: seq<Event>)
    requires Happens(Opened(), es)
    ensures var s := Later(Opened(), es);
            && Distinct(s.gone)
            && forall h, p | h in s.hs && p in s.hs[h].past :: p in s.gone <==> s.hs[h].dropped || s.hs[h].ptr != Some(p)
  {
    Reached(es);
    var s := Later(Opened(), es);
    forall h, p | h in s.hs && p in s.hs[h].past ensures p in s.gone <==> s.hs[h].dropped || s.hs[h].ptr != Some(p) {
      assert Coherent(s.hs[h]);
    }
  }

  // ---- A forced close can always end ----

  /** Events that only carry on with what has begun. */
  predicate Finishing(e: Event) {
    e.GiveUp? || e.AttachChild? || (e.Acquire? && e.byCloser) || e.Disown? || e.Unlock? || e.NextDrop?
  }

  /** How many such events are between the close and being done with this handle. */
  function Away(x: Handle): nat {
    match x.lock
    case Free(readers) => |readers| + 3
    case Held(stage, closer) => (if stage.Entered? then 2 else 1) + (if closer then 0 else 3)
  }

  function Rank(s: World): nat {
    if s.closer.Forcing? && s.closer.doing.Some? && s.closer.doing.value in s.hs then Away(s.hs[s.closer.doing.value]) else 0
  }

  /** The event is possible, only carries on, and brings the forced close nearer to its end. */
  ghost predicate BringsNearer(s: World, e: Event) {
    && Can(s, e) && Finishing(e) && s.closer.Forcing?
    && var n := Happen(s, e);
       && n.closer.Forcing?
       && (|n.closer.todo| < |s.closer.todo| || (n.closer.todo == s.closer.todo && Rank(n) < Rank(s)))
  }

  lemma FreshHandle(known: set<Hid>) returns (h: Hid)
    ensures h !in known
  {
    h := Above(known);
  }

  lemma Above(known: set<Hid>) returns (h: Hid)
    ensures forall k | k in known :: k < h
    decreases known
  {
    h := 0;
    if known != {} {
      var k :| k in known;
      var g := Above(known - {k});
      h := if k < g then g else k + 1;
      assert forall l | l in known :: l == k || l in known - {k};
    }
  }

  /** Somebody derives a handle from the one to be dropped: the constructor can finish. */
  lemma ReaderFinishes(s: World, h: Hid, t: Tid) returns (e: Event)
    requires WorldInv(s) && s.closer.Forcing? && s.closer.doing == Some(h)
    requires h in s.hs && s.hs[h].lock.Free? && t in s.hs[h].lock.readers
    ensures BringsNearer(s, e)
  {
    if s.tasks[t].made.None? {
      e := GiveUp(t);
    } else {
      var child := FreshHandle(s.hs.Keys);
      e := AttachChild(t, child);
    }
    assert Happen(s, e).hs == LetGo(s.hs, t, Some(h));
  }

  lemma HolderFinishes(s: World, h: Hid) returns (e: Event)
    requires WorldInv(s) && s.closer.Forcing? && s.closer.doing == Some(h)
    requires h in s.hs && (s.hs[h].lock.Held? || s.hs[h].lock == Free({}))
    ensures BringsNearer(s, e)
  {
    var x := s.hs[h];
    e := if x.lock.Free? then Acquire(h, true) else if x.lock.stage.Entered? then Disown(h) else Unlock(h);
  }

  lemma ForceMoves(s: World) returns (e: Event)
    requires WorldInv(s) && s.closer.Forcing? && !Can(s, StopForce(false))
    ensures BringsNearer(s, e)
  {
    if s.closer.doing.None? {
      e := NextDrop;
    } else {
      var h := s.closer.doing.value;
      if s.hs[h].lock.Free? && s.hs[h].lock.readers != {} {
        var t :| t in s.hs[h].lock.readers;
        e := ReaderFinishes(s, h, t);
      } else {
        e := HolderFinishes(s, h);
      }
    }
  }

  ghost predicate CanEnd(s: World) {
    exists es :: Happens(s, es) && (forall e | e in es :: Finishing(e)) && Can(Later(s, es), StopForce(false))
  }

  lemma EndsAfter(s: World, e: Event)
    requires Can(s, e) && Finishing(e) && CanEnd(Happen(s, e))
    ensures CanEnd(s)
  {
    var es :| Happens(Happen(s, e), es) && (forall f | f in es :: Finishing(f)) &&
              Can(Later(Happen(s, e), es), StopForce(false));
    assert ([e] + es)[1..] == es;
    assert Happens(s, [e] + es);
    assert forall f | f in [e] + es :: Finishing(f);
  }

  lemma {:induction false} EndIsNear(s: World)
    requires WorldInv(s) && s.closer.Forcing?
    ensures CanEnd(s)
    decreases |s.closer.todo|, Rank(s)
  {
    if Can(s, StopForce(false)) {
      assert Happens(s, []) && Later(s, []) == s;
    } else {
      var e := ForceMoves(s);
      WorldKept(s, e);
      EndIsNear(Happen(s, e));
      EndsAfter(s, e);
    }
  }

  /** From every state of a forced close, what others have begun and the close itself can be
      carried to its end with nothing new begun: no lock that is held or asked for stands in
      the way. */
  lemma {:induction false} ForceCanEnd(es: seq<Event>)
    requires Happens(Opened(), es) && Later(Opened(), es).closer.Forcing?
    ensures CanEnd(Later(Opened(), es))
  {
    Reached(es);
    EndIsNear(Later(Opened(), es));
  }

  lemma {:induction false} OneMore(s: World, es: seq<Event>, e: Event)
    requires Happens(s, es) && Can(Later(s, es), e)
    ensures Happens(s, es + [e]) && Later(s, es + [e]) == Happen(Later(s, es), e)
    decreases |es|
  {
    if es == [] {
      assert (es + [e])[1..] == [];
      assert Happens(Happen(s, e), []);
    } else {
      assert (es + [e])[1..] == es[1..] + [e];
      OneMore(Happen(s, es[0]), es[1..], e);
    }
  }

  /** With no lease left, a close that has dropped them all goes through. */
  lemma {:induction false} EmptyCloses(s: World)
    requires Can(s, StopForce(false)) && s.reg.count == 0
    ensures exists more :: Happens(s, more) && !Later(s, more).open
  {
    var w := Above(s.reg.seen);
    var s1 := Happen(s, StopForce(false));
    var s2 := Happen(s1, CheckDrained(w));
    assert Happens(s, []) && Later(s, []) == s;
    OneMore(s, [], StopForce(false));
    OneMore(s, [StopForce(false)], CheckDrained(w));
    OneMore(s, [StopForce(false), CheckDrained(w)], CloseDb);
    assert !Happen(s2, CloseDb).open;
  }

  lemma {:induction false} HappensConcat(s: World, a: seq<Event>, b: seq<Event>)
    requires Happens(s, a) && Happens(Later(s, a), b)
    ensures Happens(s, a + b) && Later(s, a + b) == Later(Later(s, a), b)
    decreases |b|
  {
    if b == [] {
      assert a + b == a;
    } else {
      OneMore(s, a, b[0]);
      assert a + b == (a + [b[0]]) + b[1..];
      HappensConcat(s, a + [b[0]], b[1..]);
    }
  }

  /** And then the database can be closed: nothing is left to wait for. */
  lemma {:induction false} ForceCloses(es: seq<Event>)
    requires Happens(Opened(), es) && Later(Opened(), es).closer.Forcing?
    ensures var s := Later(Opened(), es); exists more :: Happens(s, more) && !Later(s, more).open
  {
    Reached(es);
    var s := Later(Opened(), es);
    EndIsNear(s);
    var a :| Happens(s, a) && Can(Later(s, a), StopForce(false));
    WorldRun(s, a);
    ForcedIsEmpty(Later(s, a));
    EmptyCloses(Later(s, a));
    var b :| Happens(Later(s, a), b) && !Later(Later(s, a), b).open;
    HappensConcat(s, a, b);
  }

  lemma ForcedIsEmpty(s: World)
    requires WorldInv(s) && Can(s, StopForce(false))
    ensures s.reg.count == 0
  {
    assert s.reg.handles == {};
  }

  // ---- What closes the registry ----

  predicate Forced(e: Event) {
    e.BeginClose? && e.force
  }

  lemma ClosedStep(s: World, e: Event)
    requires Can(s, e)
    ensures Happen(s, e).reg.closed <==> s.reg.closed || Forced(e)
    ensures Happen(s, e).open <==> s.open && e != CloseDb
  {
  }

  lemma {:induction false} ClosedRun(s: World, es: seq<Event>)
    requires Happens(s, es)
    ensures Later(s, es).reg.closed <==> s.reg.closed || exists e | e in es :: Forced(e)
    ensures Later(s, es).open <==> s.open && CloseDb !in es
    decreases |es|
  {
    if es != [] {
      ClosedStep(s, es[0]);
      ClosedRun(Happen(s, es[0]), es[1..]);
      assert forall e :: e in es <==> e == es[0] || e in es[1..];
    }
  }

  /** The registry is closed by a forced `Close` and nothing else, and stays so; the database by
      the last step of a `Close`. A new object's lease is refused, and the object freed, exactly
      if the registry is closed; otherwise the handle has the object and its lease is counted. */
  lemma {:induction false} OnlyForceRefuses(es: seq<Event>, t: Tid, h: Hid)
    requires Happens(Opened(), es)
    ensures var s := Later(Opened(), es);
            && (s.reg.closed <==> exists e | e in es :: Forced(e))
            && (s.open <==> CloseDb !in es)
            && (Can(s, AttachChild(t, h)) ==>
                  var p, n := s.tasks[t].made.value, Happen(s, AttachChild(t, h));
                  && t !in n.tasks
                  && if s.reg.closed then h !in n.hs && n.gone == s.gone + [p] && n.reg == s.reg
                     else h in n.hs && n.hs[h].ptr == Some(p) && n.hs[h].attached && n.gone == s.gone &&
                          n.reg.handles == s.reg.handles + {h} && n.reg.count == s.reg.count + 1)
  {
    ClosedRun(Opened(), es);
  }

  /** A close that gives up leaves the database open: constructors on it can start again, and its
      waiter is off the list. */
  lemma {:induction false} CancelReopens(es: seq<Event>, t: Tid)
    requires Happens(Opened(), es) && Can(Later(Opened(), es), CancelClose)
    ensures var s := Later(Opened(), es);
            var n := Happen(s, CancelClose);
            && n.open && s.closer.w !in n.reg.waiters && n.reg.handles == s.reg.handles && n.hs == s.hs
            && (t !in n.tasks ==> Can(n, Make(t, None)))
  {
    Reached(es);
    var s := Later(Opened(), es);
    R.RemoveMembers(s.reg.waiters, s.closer.w);
  }

  /** A forced close goes after every lease there is; one that is not forced drops none. A proof
      that is bound to the database is leased like any other handle. */
  lemma {:induction false} CloseTargets(es: seq<Event>, force: bool, todo: seq<Hid>, h: Hid)
    requires Happens(Opened(), es)
    ensures var s := Later(Opened(), es);
            && (Can(s, BeginClose(force, todo)) ==>
                  var n := Happen(s, BeginClose(force, todo));
                  && n.hs == s.hs && n.reg.handles == s.reg.handles
                  && if force then n.closer.Forcing? && forall l | l in n.reg.handles :: l in n.closer.todo
                     else n.closer == Checking)
            && (Can(s, BindProof(h)) ==>
                  var n := Happen(s, BindProof(h));
                  n.hs[h].attached && n.reg.handles == s.reg.handles + {h} && n.reg.count == s.reg.count + 1)
  {
    Reached(es);
  }

  /** A constructor on an open database goes through: it ends with a handle that has the new
      object and a lease. */
  lemma {:induction false} ConstructorGoesThrough(s: World, t: Tid, p: Ptr, h: Hid)
    requires s.open && s.closer.NoClose? && !s.reg.closed && t !in s.tasks && p !in s.place && h !in s.hs
    ensures var es := [Make(t, None), CallRust(t, p), AttachChild(t, h)];
            && Happens(s, es)
            && var n := Later(s, es);
               && h in n.hs && n.hs[h].ptr == Some(p) && n.hs[h].attached && n.place == s.place[p := InHandle(h)]
               && h in n.reg.handles && n.reg.count == s.reg.count + 1 && n.tasks == s.tasks
  {
    var s1 := Happen(s, Make(t, None));
    var s2 := Happen(s1, CallRust(t, p));
    var s3 := Happen(s2, AttachChild(t, h));
    assert s3.tasks == s.tasks;
    assert Happens(s, []) && Later(s, []) == s;
    OneMore(s, [], Make(t, None));
    OneMore(s, [Make(t, None)], CallRust(t, p));
    OneMore(s, [Make(t, None), CallRust(t, p)], AttachChild(t, h));
  }
}
