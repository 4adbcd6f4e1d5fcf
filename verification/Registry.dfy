/** `keepAliveRegistry` (`ffi/keepalive.go`): the count of outstanding leases on a database,
    the leases themselves, and those who wait for the count to reach zero.

    Everything here happens under the registry's mutex, one step at a time.
 */
module Registry {
  import opened Sequences

  type Lid = nat
  type Wid = nat

  /** `handles` are the leases in the drop map. `rung` lists the waiters' channels in the order
      they were closed; `seen` are all waiters that ever enrolled and `left` those that were
      cancelled. */
  datatype Registry = Registry(count: int, waiters: seq<Wid>, handles: set<Lid>, closed: bool,
                               rung: seq<Wid>, seen: set<Wid>, left: set<Wid>)

  function NewRegistry(): Registry {
    Registry(0, [], {}, false, [], {}, {})
  }

  /** `lease.attach`, in its critical section. */
  function Attach(r: Registry, l: Lid): Registry {
    if r.closed then r else r.(count := r.count + 1, handles := r.handles + {l})
  }

  /** `decrLocked`. */
  function Decr(r: Registry): Registry {
    if r.count == 1 then r.(count := 0, rung := r.rung + r.waiters, waiters := []) else r.(count := r.count - 1)
  }

  function RemoveAndDecr(r: Registry, l: Lid): Registry {
    Decr(r.(handles := r.handles - {l}))
  }

  /** `waitDrained`, before it blocks. */
  function Enroll(r: Registry, w: Wid): Registry {
    if r.count == 0 then r else r.(waiters := r.waiters + [w], seen := r.seen + {w})
  }

  function Remove(ws: seq<Wid>, w: Wid): seq<Wid> {
    if ws == [] then [] else if ws[0] == w then ws[1..] else [ws[0]] + Remove(ws[1..], w)
  }

  /** `waitDrained`, when its context fires. */
  function Leave(r: Registry, w: Wid): Registry {
    r.(waiters := Remove(r.waiters, w), left := r.left + {w})
  }

  datatype Step = AttachTo(l: Lid) | Release(l: Lid) | Wait(w: Wid) | Cancel(w: Wid) | Shut

  /** A lease is attached once and released while it is attached; a waiter enrolls once and
      leaves at most once. */
  predicate Can(r: Registry, s: Step) {
    match s
    case AttachTo(l) => l !in r.handles
    case Release(l) => l in r.handles
    case Wait(w) => w !in r.seen
    case Cancel(w) => w in r.seen && w !in r.left
    case Shut => true
  }

  function Do(r: Registry, s: Step): Registry {
    match s
    case AttachTo(l) => Attach(r, l)
    case Release(l) => RemoveAndDecr(r, l)
    case Wait(w) => Enroll(r, w)
    case Cancel(w) => Leave(r, w)
    case Shut => r.(closed := true)
  }

  ghost predicate Disjoint(a: seq<Wid>, b: seq<Wid>) {
    forall w | w in a :: w !in b
  }

  /** Whoever enrolled waits still, has been rung or has left. */
  ghost predicate Accounted(waiters: seq<Wid>, rung: seq<Wid>, seen: set<Wid>, left: set<Wid>) {
    && Distinct(waiters) && Distinct(rung) && Disjoint(waiters, rung) && left <= seen
    && (forall w | w in waiters :: w in seen && w !in left)
    && (forall w | w in rung :: w in seen)
    && (forall w | w in seen :: w in waiters || w in rung || w in left)
  }

  ghost predicate RegOk(r: Registry) {
    && r.count == |r.handles|
    && (r.waiters != [] ==> r.count > 0)
    && Accounted(r.waiters, r.rung, r.seen, r.left)
  }

  lemma {:induction false} RemoveMembers(ws: seq<Wid>, w: Wid)
    requires Distinct(ws)
    ensures forall v :: v in Remove(ws, w) <==> v in ws && v != w
  {
    if ws != [] {
      assert ws[0] !in ws[1..];
      assert forall v :: v in ws <==> v == ws[0] || v in ws[1..];
      if ws[0] != w { RemoveMembers(ws[1..], w); }
    }
  }

  lemma {:induction false} RemoveDistinct(ws: seq<Wid>, w: Wid)
    requires Distinct(ws)
    ensures Distinct(Remove(ws, w))
  {
    if ws != [] && ws[0] != w {
      RemoveDistinct(ws[1..], w);
      RemoveMembers(ws[1..], w);
      assert ws[0] !in ws[1..];
      assert forall i | 0 <= i < |Remove(ws[1..], w)| :: Remove(ws[1..], w)[i] in ws[1..];
    }
  }

  lemma RingAll(waiters: seq<Wid>, rung: seq<Wid>, seen: set<Wid>, left: set<Wid>)
    requires Accounted(waiters, rung, seen, left)
    ensures Accounted([], rung + waiters, seen, left)
  {
    var all := rung + waiters;
    forall i, j | 0 <= i < j < |all| ensures all[i] != all[j] {
      if i < |rung| <= j { assert all[i] in rung && all[j] in waiters; }
    }
  }

  lemma EnrollOne(waiters: seq<Wid>, rung: seq<Wid>, seen: set<Wid>, left: set<Wid>, w: Wid)
    requires Accounted(waiters, rung, seen, left) && w !in seen
    ensures Accounted(waiters + [w], rung, seen + {w}, left)
  {
    assert forall i | 0 <= i < |waiters| :: waiters[i] in waiters;
  }

  lemma StepKeeps(r: Registry, s: Step)
    requires RegOk(r) && Can(r, s)
    ensures RegOk(Do(r, s))
  {
    match s {
      case Release(l) => RingAll(r.waiters, r.rung, r.seen, r.left);
      case Wait(w) => EnrollOne(r.waiters, r.rung, r.seen, r.left, w);
      case Cancel(w) =>
        RemoveMembers(r.waiters, w);
        RemoveDistinct(r.waiters, w);
      case _ =>
    }
  }

  ghost predicate Runs(r: Registry, ss: seq<Step>)
    decreases |ss|
  {
    ss == [] || (Can(r, ss[0]) && Runs(Do(r, ss[0]), ss[1..]))
  }

  ghost function After(r: Registry, ss: seq<Step>): Registry
    requires Runs(r, ss)
    decreases |ss|
  {
    if ss == [] then r else After(Do(r, ss[0]), ss[1..])
  }

  lemma {:induction false} RunKeeps(r: Registry, ss: seq<Step>)
    requires RegOk(r) && Runs(r, ss)
    ensures RegOk(After(r, ss))
    ensures r.closed ==> After(r, ss).closed && After(r, ss).handles <= r.handles
    decreases |ss|
  {
    if ss != [] {
      StepKeeps(r, ss[0]);
      RunKeeps(Do(r, ss[0]), ss[1..]);
    }
  }

  /** In every run: the count is the number of attached leases, so it never goes below zero;
      somebody waits only while it is positive; no channel is closed twice; and when the count
      is zero everybody who enrolled and was not cancelled has been rung. */
  lemma {:induction false} RegistryIsSound(ss: seq<Step>)
    requires Runs(NewRegistry(), ss)
    ensures var r := After(NewRegistry(), ss);
            && r.count == |r.handles|
            && (r.waiters != [] ==> r.count > 0)
            && Distinct(r.rung)
            && (r.count == 0 ==> forall w | w in r.seen && w !in r.left :: w in r.rung)
  {
    RunKeeps(NewRegistry(), ss);
  }

  /** A channel is closed only by the release that brings the count to zero. */
  lemma RungAtZero(r: Registry, s: Step, w: Wid)
    requires RegOk(r) && Can(r, s) && w !in r.rung && w in Do(r, s).rung
    ensures s.Release? && Do(r, s).count == 0 && w in r.waiters
  {
  }

  /** Once the registry is closed no lease is ever added. */
  lemma {:induction false} ClosedShrinks(ss: seq<Step>, more: seq<Step>)
    requires Runs(NewRegistry(), ss) && After(NewRegistry(), ss).closed && Runs(After(NewRegistry(), ss), more)
    ensures After(After(NewRegistry(), ss), more).handles <= After(NewRegistry(), ss).handles
  {
    RunKeeps(NewRegistry(), ss);
    RunKeeps(After(NewRegistry(), ss), more);
  }

  class KeepAliveRegistry {
    var count: int
    var waiters: seq<Wid>
    var handles: set<Lid>
    var closed: bool
    var rung: seq<Wid>
    ghost var seen: set<Wid>
    ghost var left: set<Wid>

    ghost function State(): Registry
      reads this
    {
      Registry(count, waiters, handles, closed, rung, seen, left)
    }

    constructor ()
      ensures State() == NewRegistry()
    {
      count, waiters, handles, closed, rung, seen, left := 0, [], {}, false, [], {}, {};
    }

    /** The critical section of `lease.attach`. */
    method AttachLease(l: Lid) returns (ok: bool)
      requires RegOk(State()) && l !in handles
      modifies this
      ensures State() == Attach(old(State()), l) && RegOk(State()) && ok == !closed
    {
      StepKeeps(State(), AttachTo(l));
      if closed {
        return false;
      }
      count := count + 1;
      handles := handles + {l};
      return true;
    }

    /** `removeAndDecr` with `decrLocked`: the count cannot go below zero. */
    method RemoveLease(l: Lid)
      requires RegOk(State()) && l in handles
      modifies this
      ensures State() == RemoveAndDecr(old(State()), l) && RegOk(State())
    {
      StepKeeps(State(), Release(l));
      handles := handles - {l};
      count := count - 1;
      assert count >= 0;
      if count == 0 {
        for i := 0 to |waiters|
          invariant unchanged(`waiters) && rung == old(rung) + waiters[..i]
          invariant count == old(count) - 1 && handles == old(handles) - {l}
          invariant unchanged(`closed) && unchanged(`seen) && unchanged(`left)
        {
          assert waiters[..i + 1] == waiters[..i] + [waiters[i]];
          rung := rung + [waiters[i]];
        }
        assert waiters[..|waiters|] == waiters;
        waiters := [];
      }
    }

    /** The first half of `waitDrained`: drained already, or enrolled. */
    method EnrollWaiter(w: Wid) returns (drained: bool)
      requires RegOk(State()) && w !in seen
      modifies this
      ensures State() == Enroll(old(State()), w) && RegOk(State()) && drained == (count == 0)
    {
      StepKeeps(State(), Wait(w));
      if count == 0 {
        return true;
      }
      waiters := waiters + [w];
      seen := seen + {w};
      return false;
    }

    /** The second half, when the context fires: find the channel and take it out. It may be
        gone already. */
    method LeaveWaiters(w: Wid)
      requires RegOk(State()) && w in seen && w !in left
      modifies this
      ensures State() == Leave(old(State()), w) && RegOk(State())
    {
      StepKeeps(State(), Cancel(w));
      left := left + {w};
      for i := 0 to |waiters|
        invariant w !in waiters[..i]
        invariant waiters == old(waiters) && State() == old(State()).(left := old(left) + {w})
      {
        if waiters[i] == w {
          RemoveAt(waiters, w, i);
          waiters := waiters[..i] + waiters[i + 1..];
          return;
        }
      }
      RemoveNone(waiters, w);
    }

    /** The critical section of `closeAndForceDrop`: closes the registry and lists the leases
        to drop. */
    method CloseAndSnapshot() returns (drops: seq<Lid>)
      requires RegOk(State())
      modifies this`closed
      ensures State() == old(State()).(closed := true) && RegOk(State())
      ensures Distinct(drops) && forall l :: l in drops <==> l in handles
    {
      closed := true;
      drops := [];
      var todo := handles;
      while todo != {}
        invariant Distinct(drops) && todo <= handles
        invariant forall l :: l in drops <==> l in handles && l !in todo
        decreases todo
      {
        var l :| l in todo;
        drops := drops + [l];
        todo := todo - {l};
      }
    }
  }

  lemma {:induction false} RemoveAt(ws: seq<Wid>, w: Wid, i: nat)
    requires i < |ws| && ws[i] == w && w !in ws[..i]
    ensures Remove(ws, w) == ws[..i] + ws[i + 1..]
  {
    if i > 0 {
      assert ws[..i][0] == ws[0];
      assert ws[1..][..i - 1] == ws[..i][1..];
      RemoveAt(ws[1..], w, i - 1);
    }
  }

  lemma {:induction false} RemoveNone(ws: seq<Wid>, w: Wid)
    requires w !in ws
    ensures Remove(ws, w) == ws
  {
    if ws != [] { RemoveNone(ws[1..], w); }
  }
}
