/** The list that `timers_tick` scans and its owners extend (src/timer.c). A timer is named by a
    number that stands for its address. */
module TimerTick {
  import opened Words
  import opened TimerWheel

  // ----- one scan of the list

  /** The entries whose lock is free when the scan comes by. */
  function Free(ids: seq<nat>, busy: set<nat>): (r: seq<nat>)
    ensures forall x :: x in r <==> x in ids && x !in busy
  {
    if ids == [] then []
    else (if ids[0] in busy then [] else [ids[0]]) + Free(ids[1..], busy)
  }

  /** Visits in list order. */
  function VisitAll(w: Wheel, ids: seq<nat>): Wheel
    decreases |ids|
  {
    if ids == [] then w
    else VisitAll(if ids[0] in w.timers then Visit(w, ids[0]) else w, ids[1..])
  }

  function VisitOps(ids: seq<nat>): (ops: seq<Op>)
    ensures |ops| == |ids| && forall i :: 0 <= i < |ids| ==> ops[i] == VisitOp(ids[i])
  {
    if ids == [] then [] else [VisitOp(ids[0])] + VisitOps(ids[1..])
  }

  lemma {:induction false} FreeDistinct(ids: seq<nat>, busy: set<nat>)
    requires Distinct(ids)
    ensures Distinct(Free(ids, busy))
  {
    if ids != [] {
      FreeDistinct(ids[1..], busy);
      assert ids[0] !in ids[1..];
    }
  }

  /** A scan is a run of single visits, so everything proved of runs holds of it. */
  lemma {:induction false} TickIsRun(w: Wheel, ids: seq<nat>)
    requires Distinct(ids) && forall x :: x in ids ==> x in w.timers
    ensures IsRun(w, VisitOps(ids)) && Run(w, VisitOps(ids)) == VisitAll(w, ids)
    decreases |ids|
  {
    if ids != [] {
      var w1 := Visit(w, ids[0]);
      assert ids[0] !in ids[1..];
      forall x | x in ids[1..]
        ensures x in w1.timers
      {
      }
      TickIsRun(w1, ids[1..]);
      assert VisitOps(ids)[0] == VisitOp(ids[0]) && VisitOps(ids)[1..] == VisitOps(ids[1..]);
    }
  }

  /** Nothing about timer `x` differs between the two states. */
  ghost predicate SameAt(w: Wheel, w': Wheel, x: nat) {
    && (x in w.timers <==> x in w'.timers)
    && (x in w.timers ==> w'.timers[x] == w.timers[x])
    && w'.spawned[x] == w.spawned[x] && w'.freed[x] == w.freed[x]
  }

  lemma {:induction false} VisitAllElsewhere(w: Wheel, ids: seq<nat>, x: nat)
    requires x !in ids
    ensures SameAt(w, VisitAll(w, ids), x) && VisitAll(w, ids).tick == w.tick
    decreases |ids|
  {
    if ids != [] {
      assert x != ids[0];
      VisitAllElsewhere(if ids[0] in w.timers then Visit(w, ids[0]) else w, ids[1..], x);
    }
  }

  /** What a scan does to a timer it visits. */
  ghost predicate Served(w: Wheel, w': Wheel, x: nat)
    requires x in w.timers
  {
    var t := w.timers[x];
    && w'.spawned[x] == w.spawned[x] + Count(Due(w, t))
    && w'.freed[x] == w.freed[x] + Count(t.cancelled && t.refcnt == 0 && t.hasArg && t.owned)
    && (x in w'.timers <==> !((t.cancelled || Due(w, t)) && t.refcnt == 0))
    && (x in w'.timers ==> !Due(w', w'.timers[x]))
  }

  /** One tick starts the handler of every due timer exactly once and of no other; it drops exactly
      the timers that are cancelled or dispatched and have no owner; it frees exactly the owned
      arguments that never reached a handler. The place in the list does not matter. */
  lemma {:induction false} TickServes(w: Wheel, ids: seq<nat>, x: nat)
    requires Distinct(ids) && x in ids && x in w.timers
    ensures Served(w, VisitAll(w, ids), x)
    decreases |ids|
  {
    if ids[0] == x {
      assert x !in ids[1..];
      VisitServes(w, x);
      VisitAllElsewhere(Visit(w, x), ids[1..], x);
    } else {
      VisitAllElsewhere(w, [ids[0]], x);
      assert [ids[0]][1..] == [];
      TickServes(VisitAll(w, [ids[0]]), ids[1..], x);
    }
  }

  lemma {:induction false} VisitServes(w: Wheel, x: nat)
    requires x in w.timers
    ensures Served(w, Visit(w, x), x) && Visit(w, x).tick == w.tick
  {
  }

  lemma {:induction false} ScanBusy(ids: seq<nat>, i: nat, busy: set<nat>)
    requires i < |ids| && ids[i] in busy
    ensures Free(ids[i..], busy) == Free(ids[i + 1..], busy)
  {
    assert ids[i..][1..] == ids[i + 1..];
  }

  lemma {:induction false} ScanFree(w: Wheel, ids: seq<nat>, i: nat, busy: set<nat>)
    requires i < |ids| && ids[i] !in busy && ids[i] in w.timers
    ensures VisitAll(w, Free(ids[i..], busy)) == VisitAll(Visit(w, ids[i]), Free(ids[i + 1..], busy))
  {
    assert ids[i..][1..] == ids[i + 1..];
    assert Free(ids[i..], busy)[1..] == Free(ids[i + 1..], busy);
  }

  /** The scan serves exactly the listed timers whose lock is free. */
  lemma {:induction false} ScanServes(w: Wheel, order: seq<nat>, busy: set<nat>)
    requires Distinct(order) && forall x :: x in order <==> x in w.timers
    ensures var w' := VisitAll(w, Free(order, busy));
      && (forall x: nat :: x in w.timers && x !in busy ==> Served(w, w', x))
      && (forall x: nat :: x !in w.timers || x in busy ==> SameAt(w, w', x))
  {
    var ids := Free(order, busy);
    FreeDistinct(order, busy);
    forall x: nat | x in w.timers && x !in busy
      ensures Served(w, VisitAll(w, ids), x)
    {
      TickServes(w, ids, x);
    }
    forall x: nat | x !in w.timers || x in busy
      ensures SameAt(w, VisitAll(w, ids), x)
    {
      VisitAllElsewhere(w, ids, x);
    }
  }

  lemma {:induction false} ThreadsConcat(before: multiset<nat>, a: seq<nat>, b: seq<nat>)
    ensures before + multiset(a) + multiset(b) == before + multiset(a + b)
  {
  }

  // ----- the object

  class TimerList {
    var tick: nat
    /** The timers in memory by address, and the order of the list. */
    var timers: map<nat, Timer>
    var order: seq<nat>
    var nextId: nat
    /** The same with its history. */
    ghost var wheel: Wheel

    ghost predicate Valid()
      reads this
    {
      && wheel.tick == tick && wheel.timers == timers && wheel.nextId == nextId
      && Distinct(order)
      && (forall x :: x in order <==> x in timers)
      && Inv(wheel)
    }

    constructor ()
      ensures Valid() && wheel == Empty()
    {
      tick, timers, order, nextId := 0, map[], [], 0;
      wheel := Empty();
    }

    /** `timer_add_with_release`; `timer_add` passes no release function. */
    method AddWithRelease(expire: nat, owned: bool) returns (id: nat)
      requires Valid()
      modifies this
      ensures Valid() && wheel == Add(old(wheel), expire, owned)
      ensures order == old(order) + [id] && id == old(wheel.nextId)
    {
      id := nextId;
      assert Ok(wheel, id);
      AddKeeps(wheel, expire, owned);
      timers := timers[id := Timer(1, tick + expire, false, true, owned)];
      order := order + [id];
      nextId := nextId + 1;
      wheel := Add(wheel, expire, owned);
    }

    method Oneshot(expire: nat)
      requires Valid()
      modifies this
      ensures Valid() && wheel == TimerWheel.Oneshot(old(wheel), expire)
    {
      assert Ok(wheel, nextId);
      OneshotKeeps(wheel, expire);
      timers := timers[nextId := Timer(0, tick + expire, false, true, false)];
      order := order + [nextId];
      nextId := nextId + 1;
      wheel := TimerWheel.Oneshot(wheel, expire);
    }

    /** `timer_release` of an owner pointer that may be NULL. */
    method Release(owner: Option<nat>)
      requires Valid() && (owner.Some? ==> owner.value in wheel.held)
      modifies this
      ensures Valid() && order == old(order)
      ensures owner.None? ==> wheel == old(wheel)
      ensures owner.Some? ==> owner.value in old(wheel.timers) && wheel == TimerWheel.Release(old(wheel), owner.value)
    {
      if owner.Some? {
        var id := owner.value;
        HeldIsListed(wheel, id);
        ReleaseKeeps(wheel, id);
        var t := timers[id];
        timers := timers[id := t.(refcnt := t.refcnt - 1)];
        wheel := TimerWheel.Release(wheel, id);
      }
    }

    /** `timer_cancel` of an owner pointer that may be NULL. */
    method Cancel(owner: Option<nat>)
      requires Valid() && (owner.Some? ==> owner.value in wheel.held)
      modifies this
      ensures Valid() && order == old(order)
      ensures owner.None? ==> wheel == old(wheel)
      ensures owner.Some? ==> owner.value in old(wheel.timers) && wheel == TimerWheel.Cancel(old(wheel), owner.value)
    {
      if owner.Some? {
        var id := owner.value;
        HeldIsListed(wheel, id);
        CancelKeeps(wheel, id);
        var t := timers[id];
        timers := timers[id := t.(refcnt := t.refcnt - 1, cancelled := true)];
        wheel := TimerWheel.Cancel(wheel, id);
      }
    }

    method Advance()
      requires Valid()
      modifies this
      ensures Valid() && wheel == TimerWheel.Advance(old(wheel))
    {
      AdvanceKeeps(wheel);
      tick := tick + 10;
      wheel := TimerWheel.Advance(wheel);
    }

    /** The body of the scan for a timer whose lock is free: `threads` names the handler
        thread to start, if any, and `gone` says that the timer has left the list and been freed. */
    method VisitAt(i: nat) returns (threads: seq<nat>, gone: bool)
      requires Valid() && i < |order|
      modifies this
      ensures Valid() && wheel == Visit(old(wheel), old(order)[i])
      ensures order == if gone then old(order)[..i] + old(order)[i + 1..] else old(order)
      ensures wheel.spawned == old(wheel.spawned) + multiset(threads)
    {
      var id := order[i];
      ghost var w := wheel;
      DispatchKeeps(w, id);
      CollectKeeps(Dispatch(w, id), id);
      var t := timers[id];
      threads := [];
      if !t.cancelled && t.expires < tick {
        threads := [id];
        t := t.(hasArg := false, cancelled := true);
        timers := timers[id := t];
      }
      gone := t.cancelled && t.refcnt == 0;
      if gone {
        timers := timers - {id};
        order := order[..i] + order[i + 1..];
      }
      wheel := Visit(w, id);
    }

    /** `timers_tick`: every listed timer whose lock is free is served; the others are left as they were.
        Returns the handler threads it starts. */
    method TimersTick(busy: set<nat>) returns (threads: seq<nat>)
      requires Valid()
      modifies this
      ensures Valid() && wheel == VisitAll(old(wheel), Free(old(order), busy))
      ensures wheel.spawned == old(wheel.spawned) + multiset(threads)
      ensures forall x: nat :: x in old(wheel.timers) && x !in busy ==> Served(old(wheel), wheel, x)
      ensures forall x: nat :: x !in old(wheel.timers) || x in busy ==> SameAt(old(wheel), wheel, x)
    {
      ScanServes(wheel, order, busy);
      threads := Scan(busy);
    }

    /** One round of the loop, and where it goes on: after a deletion at the same place. */
    method ScanAt(i: nat, busy: set<nat>) returns (started: seq<nat>, i': nat)
      requires Valid() && i < |order|
      modifies this
      ensures Valid() && i' <= |order| && |order| - i' < |old(order)| - i
      ensures VisitAll(wheel, Free(order[i'..], busy)) == VisitAll(old(wheel), Free(old(order)[i..], busy))
      ensures wheel.spawned == old(wheel.spawned) + multiset(started)
    {
      if order[i] in busy {
        ScanBusy(order, i, busy);
        return [], i + 1;
      }
      ghost var after := order[i + 1..];
      ScanFree(wheel, order, i, busy);
      var gone;
      started, gone := VisitAt(i);
      i' := if gone then i else i + 1;
      assert order[i'..] == after;
    }

    /** The loop: visits in list order, with deletions on the way. */
    method Scan(busy: set<nat>) returns (threads: seq<nat>)
      requires Valid()
      modifies this
      ensures Valid() && wheel == VisitAll(old(wheel), Free(old(order), busy))
      ensures wheel.spawned == old(wheel.spawned) + multiset(threads)
    {
      threads := [];
      var i: nat := 0;
      assert order[0..] == order;
      ghost var goal, before := VisitAll(wheel, Free(order, busy)), wheel.spawned;
      while i < |order|
        invariant i <= |order| && Valid()
        invariant VisitAll(wheel, Free(order[i..], busy)) == goal
        invariant wheel.spawned == before + multiset(threads)
        decreases |order| - i
      {
        var started;
        started, i := ScanAt(i, busy);
        ThreadsConcat(before, threads, started);
        threads := threads + started;
      }
    }
  }
}
