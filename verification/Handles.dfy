/** A handle with its lease, and the forced drop of all of them, as the objects they are
    (`ffi/keepalive.go`, `ffi/proposal.go`, `ffi/reconstructed.go`). Each method is what one
    goroutine does with the lease's lock held. */
module Handles {
  import opened Sequences
  import opened Nibbles
  import opened Registry

  type Ptr = nat

  /** `spent` lists the pointers this handle gave to freeing or consuming calls. */
  class Handle {
    const id: Lid
    var ptr: Option<Ptr>
    var dropped: bool
    var registry: KeepAliveRegistry?
    var spent: seq<Ptr>

    /** The handle has its pointer until it is dropped, and no lease after that. */
    ghost predicate Valid()
      reads this, registry
    {
      && (ptr.Some? <==> !dropped)
      && (registry != null ==> !dropped && RegOk(registry.State()) && id in registry.handles)
    }

    constructor (id: Lid, ptr: Ptr)
      ensures Valid() && this.id == id && this.ptr == Some(ptr) && registry == null && spent == []
    {
      this.id, this.ptr, dropped, registry, spent := id, Some(ptr), false, null, [];
    }

    /** `lease.attach`: on a closed registry the handle is dropped on the spot. */
    method AttachTo(r: KeepAliveRegistry) returns (ok: bool)
      requires Valid() && !dropped && registry == null && RegOk(r.State()) && id !in r.handles
      modifies this, r
      ensures Valid() && ok == !old(r.closed) && r.State() == Attach(old(r.State()), id)
      ensures RegOk(r.State())
      ensures ok ==> registry == r && ptr == old(ptr) && spent == old(spent)
      ensures !ok ==> registry == null && dropped && spent == old(spent) + [old(ptr).value]
    {
      ok := r.AttachLease(id);
      if ok {
        registry := r;
      } else {
        Drop();
      }
    }

    /** `releaseLocked`. */
    method ReleaseLocked()
      requires registry != null ==> RegOk(registry.State()) && id in registry.handles
      modifies this`registry, registry
      ensures registry == null
      ensures old(registry) != null ==>
                old(registry).State() == RemoveAndDecr(old(registry.State()), id) && RegOk(old(registry).State())
    {
      if registry == null {
        return;
      }
      registry.RemoveLease(id);
      registry := null;
    }

    /** `Drop`, and `Commit` and `CommitWithRebase` with the consuming call in place of the
        freeing one: the pointer is spent if it has not been, and the lease is released
        whatever the call returns. A second one does nothing. */
    method Drop()
      requires Valid()
      modifies this, registry
      ensures Valid() && dropped && registry == null
      ensures spent == if old(dropped) then old(spent) else old(spent) + [old(ptr).value]
      ensures old(registry) != null ==>
                old(registry).State() == RemoveAndDecr(old(registry.State()), id) && RegOk(old(registry).State())
    {
      if !dropped {
        var p := ptr.value;
        ptr, dropped := None, true;
        spent := spent + [p];
      }
      ReleaseLocked();
    }

    /** `Reconstruct`: the old pointer is consumed in any case; on success the handle goes on
        with the new one, on failure it is dropped and its lease released. */
    method Reconstruct(result: Option<Ptr>) returns (ok: bool)
      requires Valid()
      modifies this, registry
      ensures Valid() && ok == (!old(dropped) && result.Some?)
      ensures spent == if old(dropped) then old(spent) else old(spent) + [old(ptr).value]
      ensures ok ==> ptr == result && registry == old(registry)
      ensures !ok ==> dropped && registry == null
      ensures ok && registry != null ==> registry.State() == old(registry.State())
      ensures !ok && old(registry) != null ==>
                old(registry).State() == RemoveAndDecr(old(registry.State()), id) && RegOk(old(registry).State())
    {
      if dropped {
        return false;
      }
      spent := spent + [ptr.value];
      ptr := None;
      if result.None? {
        dropped := true;
        ReleaseLocked();
        return false;
      }
      ptr := result;
      return true;
    }
  }

  /** The registered leases are those of the handles that have `r` as their registry. */
  ghost predicate Tracks(r: KeepAliveRegistry, objs: map<Lid, Handle>)
    reads r, objs.Values
  {
    && RegOk(r.State()) && r.handles <= objs.Keys
    && forall l | l in objs ::
         objs[l].id == l && (objs[l].ptr.Some? <==> !objs[l].dropped) &&
         if l in r.handles then objs[l].registry == r && !objs[l].dropped else objs[l].registry == null
  }

  /** The leases that are left to drop from number `i` on. */
  ghost function From(drops: seq<Lid>, i: nat): set<Lid>
    requires i <= |drops|
  {
    set l | l in drops[i..]
  }

  lemma FromNext(drops: seq<Lid>, i: nat)
    requires Distinct(drops) && i < |drops|
    ensures drops[i] in From(drops, i) && From(drops, i + 1) == From(drops, i) - {drops[i]}
  {
    assert drops[i..] == [drops[i]] + drops[i + 1..];
    assert drops[i] !in drops[i + 1..];
  }

  lemma {:induction false} FromSize(drops: seq<Lid>, i: nat)
    requires Distinct(drops) && i <= |drops|
    ensures |From(drops, i)| == |drops| - i
    decreases |drops| - i
  {
    if i < |drops| {
      FromNext(drops, i);
      FromSize(drops, i + 1);
    }
  }

  /** A handle whose lease was registered at the start and is no longer has been dropped once;
      the others are as they were. */
  ghost predicate DroppedOnce(x: Handle, was: bool, now: bool, ptr: Option<Ptr>, spent: seq<Ptr>)
    reads x
  {
    if was && !now then x.dropped && ptr.Some? && x.spent == spent + [ptr.value]
    else x.ptr == ptr && x.spent == spent
  }

  ghost predicate AllDroppedOnce(objs: map<Lid, Handle>, start: set<Lid>, now: set<Lid>, ptrs: map<Lid, Option<Ptr>>,
                                 spents: map<Lid, seq<Ptr>>)
    reads objs.Values
  {
    ptrs.Keys == objs.Keys && spents.Keys == objs.Keys &&
    forall l | l in objs :: DroppedOnce(objs[l], l in start, l in now, ptrs[l], spents[l])
  }

  /** The handles' pointers and what each of them has spent. */
  ghost function Ptrs(objs: map<Lid, Handle>): map<Lid, Option<Ptr>>
    reads objs.Values
  {
    map l | l in objs :: objs[l].ptr
  }

  ghost function Spents(objs: map<Lid, Handle>): map<Lid, seq<Ptr>>
    reads objs.Values
  {
    map l | l in objs :: objs[l].spent
  }

  /** One call of a registered drop function. */
  method DropOne(r: KeepAliveRegistry, objs: map<Lid, Handle>, l: Lid, ghost start: set<Lid>,
                 ghost ptrs: map<Lid, Option<Ptr>>, ghost spents: map<Lid, seq<Ptr>>)
    requires Tracks(r, objs) && l in r.handles && r.handles <= start && AllDroppedOnce(objs, start, r.handles, ptrs, spents)
    modifies r, objs[l]
    ensures Tracks(r, objs) && r.handles == old(r.handles) - {l} && r.closed == old(r.closed)
    ensures AllDroppedOnce(objs, start, r.handles, ptrs, spents)
  {
    assert DroppedOnce(objs[l], true, true, ptrs[l], spents[l]);
    objs[l].Drop();
  }

  /** The loop over the drop functions. */
  method DropAll(r: KeepAliveRegistry, objs: map<Lid, Handle>, drops: seq<Lid>, fires: nat,
                 ghost ptrs: map<Lid, Option<Ptr>>, ghost spents: map<Lid, seq<Ptr>>)
    requires Tracks(r, objs) && Distinct(drops) && From(drops, 0) == r.handles
    requires AllDroppedOnce(objs, r.handles, r.handles, ptrs, spents)
    modifies r, objs.Values
    ensures Tracks(r, objs) && r.closed == old(r.closed)
    ensures r.handles == From(drops, if fires < |drops| then fires else |drops|)
    ensures AllDroppedOnce(objs, old(r.handles), r.handles, ptrs, spents)
  {
    ghost var start, closed := r.handles, r.closed;
    var i := 0;
    while i < |drops| && i < fires
      invariant 0 <= i <= |drops| && i <= fires && Tracks(r, objs) && r.closed == closed
      invariant r.handles == From(drops, i) && r.handles <= start
      invariant AllDroppedOnce(objs, start, r.handles, ptrs, spents)
    {
      FromNext(drops, i);
      DropOne(r, objs, drops[i], start, ptrs, spents);
      i := i + 1;
    }
  }

  /** `closeAndForceDrop`: the context fires before drop number `fires`. What has been dropped
      is no longer registered and what has not still is, so another call can finish the job;
      if the context does not fire nothing is left. */
  method CloseAndForceDrop(r: KeepAliveRegistry, objs: map<Lid, Handle>, fires: nat)
    requires Tracks(r, objs)
    modifies r, objs.Values
    ensures Tracks(r, objs) && r.closed && r.handles <= old(r.handles)
    ensures r.count == |r.handles| == if fires < |old(r.handles)| then |old(r.handles)| - fires else 0
    ensures AllDroppedOnce(objs, old(r.handles), r.handles, old(Ptrs(objs)), old(Spents(objs)))
  {
    var drops := r.CloseAndSnapshot();
    assert From(drops, 0) == r.handles;
    FromSize(drops, 0);
    FromSize(drops, if fires < |drops| then fires else |drops|);
    DropAll(r, objs, drops, fires, Ptrs(objs), Spents(objs));
  }
}
