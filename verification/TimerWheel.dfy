/** The timer list of src/timer.c with its owners, its detached handler threads and the heap
    arguments it passes to them. Every access to a timer happens under that timer's lock, so one
    visit of `timers_tick` to one timer is one step; a timer that is busy is simply not visited.
    A timer and the argument allocated for it are named by the same number. */
module TimerWheel {

  /** `hasArg` is `arg != NULL`, `owned` is `arg_free != NULL`. */
  datatype Timer = Timer(refcnt: int, expires: nat, cancelled: bool, hasArg: bool, owned: bool)

  /** `held` names the timers some owner pointer refers to; `spawned` the handler threads that have
      started but not finished. The rest is history: handlers finished, arguments freed, the tick
      of each dispatch, the deadline each timer was created with, and which arguments are owned. */
  datatype Wheel = Wheel(
    tick: nat,
    timers: map<nat, Timer>,
    nextId: nat,
    held: set<nat>,
    spawned: multiset<nat>,
    finished: multiset<nat>,
    freed: multiset<nat>,
    dispatched: map<nat, nat>,
    deadline: map<nat, nat>,
    owned: set<nat>)

  function Empty(): Wheel {
    Wheel(0, map[], 0, {}, multiset{}, multiset{}, multiset{}, map[], map[], {})
  }

  // ----- the operations

  /** `timer_add_with_release`, or `timer_add` when `owned` is false. */
  function Add(w: Wheel, expire: nat, owned: bool): Wheel {
    var id := w.nextId;
    w.(timers := w.timers[id := Timer(1, w.tick + expire, false, true, owned)],
       nextId := id + 1,
       held := w.held + {id},
       deadline := w.deadline[id := w.tick + expire],
       owned := if owned then w.owned + {id} else w.owned)
  }

  /** `timer_oneshot`: nobody keeps a pointer. */
  function Oneshot(w: Wheel, expire: nat): Wheel {
    var id := w.nextId;
    w.(timers := w.timers[id := Timer(0, w.tick + expire, false, true, false)],
       nextId := id + 1,
       deadline := w.deadline[id := w.tick + expire])
  }

  function Release(w: Wheel, id: nat): Wheel
    requires id in w.timers
  {
    var t := w.timers[id];
    w.(timers := w.timers[id := t.(refcnt := t.refcnt - 1)], held := w.held - {id})
  }

  function Cancel(w: Wheel, id: nat): Wheel
    requires id in w.timers
  {
    var t := w.timers[id];
    w.(timers := w.timers[id := t.(refcnt := t.refcnt - 1, cancelled := true)], held := w.held - {id})
  }

  function Advance(w: Wheel): Wheel {
    w.(tick := w.tick + 10)
  }

  predicate Due(w: Wheel, t: Timer) {
    !t.cancelled && t.expires < w.tick
  }

  /** The dispatch half of a visit: the argument moves to the handler thread. */
  function Dispatch(w: Wheel, id: nat): Wheel
    requires id in w.timers
  {
    var t := w.timers[id];
    if !Due(w, t) then w
    else w.(timers := w.timers[id := t.(hasArg := false, cancelled := true)],
            spawned := w.spawned + multiset{id},
            dispatched := w.dispatched[id := w.tick])
  }

  /** The collection half of a visit: `timer_free` frees an argument that never left. */
  function Collect(w: Wheel, id: nat): Wheel
    requires id in w.timers
  {
    var t := w.timers[id];
    if t.cancelled && t.refcnt == 0 then
      w.(timers := w.timers - {id}, freed := if t.hasArg && t.owned then w.freed + multiset{id} else w.freed)
    else w
  }

  function Visit(w: Wheel, id: nat): Wheel
    requires id in w.timers
  {
    Collect(Dispatch(w, id), id)
  }

  /** A handler thread ends; the handlers of owned arguments free them on every path. */
  function Finish(w: Wheel, id: nat): Wheel {
    w.(spawned := w.spawned - multiset{id},
       finished := w.finished + multiset{id},
       freed := if id in w.owned then w.freed + multiset{id} else w.freed)
  }

  // ----- the invariant

  function Count(b: bool): nat {
    if b then 1 else 0
  }

  predicate Listed(w: Wheel, id: nat) {
    id in w.timers && w.timers[id].hasArg
  }

  /** The life of one timer that has been created. */
  ghost predicate Alive(w: Wheel, id: nat) {
    && id in w.deadline
    && (id in w.held ==> id in w.timers)
    && (id in w.timers ==>
          var t := w.timers[id];
          && t.refcnt == Count(id in w.held)
          && t.expires == w.deadline[id]
          && (t.owned <==> id in w.owned)
          && (!t.cancelled ==> t.hasArg)
          && (t.cancelled && id in w.held ==> id in w.dispatched)
          && (t.hasArg <==> id !in w.dispatched))
    && w.spawned[id] + w.finished[id] == Count(id in w.dispatched)
    && (id in w.dispatched ==> w.deadline[id] < w.dispatched[id] <= w.tick)
    && (if id in w.owned then Count(Listed(w, id)) + w.spawned[id] + w.freed[id] == 1 else w.freed[id] == 0)
  }

  ghost predicate Unborn(w: Wheel, id: nat) {
    && id !in w.timers && id !in w.held && id !in w.owned && id !in w.dispatched
    && w.spawned[id] == 0 && w.finished[id] == 0 && w.freed[id] == 0
  }

  ghost predicate Ok(w: Wheel, id: nat) {
    if id < w.nextId then Alive(w, id) else Unborn(w, id)
  }

  ghost predicate Inv(w: Wheel) {
    forall id: nat :: Ok(w, id)
  }

  // ----- every operation keeps it

  lemma {:induction false} AddKeeps(w: Wheel, expire: nat, owned: bool)
    requires Inv(w)
    ensures Inv(Add(w, expire, owned))
  {
    forall id: nat
      ensures Ok(Add(w, expire, owned), id)
    {
      assert Ok(w, id);
    }
  }

  lemma {:induction false} OneshotKeeps(w: Wheel, expire: nat)
    requires Inv(w)
    ensures Inv(Oneshot(w, expire))
  {
    forall id: nat
      ensures Ok(Oneshot(w, expire), id)
    {
      assert Ok(w, id);
    }
  }

  /** An owner pointer never dangles: what it names is in the list with one reference. */
  lemma {:induction false} HeldIsListed(w: Wheel, id: nat)
    requires Inv(w) && id in w.held
    ensures id < w.nextId && id in w.timers && w.timers[id].refcnt == 1
  {
    assert Ok(w, id);
  }

  lemma {:induction false} ReleaseKeeps(w: Wheel, id: nat)
    requires Inv(w) && id in w.held && id in w.timers
    ensures Inv(Release(w, id))
  {
    forall i: nat
      ensures Ok(Release(w, id), i)
    {
      assert Ok(w, i);
    }
  }

  lemma {:induction false} CancelKeeps(w: Wheel, id: nat)
    requires Inv(w) && id in w.held && id in w.timers
    ensures Inv(Cancel(w, id))
  {
    forall i: nat
      ensures Ok(Cancel(w, id), i)
    {
      assert Ok(w, i);
    }
  }

  lemma {:induction false} AdvanceKeeps(w: Wheel)
    requires Inv(w)
    ensures Inv(Advance(w))
  {
    forall i: nat
      ensures Ok(Advance(w), i)
    {
      assert Ok(w, i);
    }
  }

  lemma {:induction false} DispatchKeeps(w: Wheel, id: nat)
    requires Inv(w) && id in w.timers
    ensures Inv(Dispatch(w, id))
  {
    assert Ok(w, id);
    forall i: nat
      ensures Ok(Dispatch(w, id), i)
    {
      assert Ok(w, i);
    }
  }

  lemma {:induction false} CollectKeeps(w: Wheel, id: nat)
    requires Inv(w) && id in w.timers
    ensures Inv(Collect(w, id))
  {
    assert Ok(w, id);
    forall i: nat
      ensures Ok(Collect(w, id), i)
    {
      assert Ok(w, i);
    }
  }

  lemma {:induction false} FinishKeeps(w: Wheel, id: nat)
    requires Inv(w) && w.spawned[id] > 0
    ensures Inv(Finish(w, id))
  {
    assert Ok(w, id);
    forall i: nat
      ensures Ok(Finish(w, id), i)
    {
      assert Ok(w, i);
    }
  }

  // ----- every run

  datatype Op =
    | AddOp(expire: nat, owned: bool)
    | OneshotOp(expire: nat)
    | ReleaseOp(id: nat)
    | CancelOp(id: nat)
    | AdvanceOp
    | VisitOp(id: nat)
    | FinishOp(id: nat)

  /** Owners release or cancel only what they hold; the list is visited entry by entry; a handler
      ends only after it started. */
  predicate Enabled(w: Wheel, op: Op) {
    match op
    case ReleaseOp(id) => id in w.held && id in w.timers
    case CancelOp(id) => id in w.held && id in w.timers
    case VisitOp(id) => id in w.timers
    case FinishOp(id) => w.spawned[id] > 0
    case _ => true
  }

  function Apply(w: Wheel, op: Op): Wheel
    requires Enabled(w, op)
  {
    match op
    case AddOp(expire, owned) => Add(w, expire, owned)
    case OneshotOp(expire) => Oneshot(w, expire)
    case ReleaseOp(id) => Release(w, id)
    case CancelOp(id) => Cancel(w, id)
    case AdvanceOp => Advance(w)
    case VisitOp(id) => Visit(w, id)
    case FinishOp(id) => Finish(w, id)
  }

  lemma {:induction false} ApplyKeeps(w: Wheel, op: Op)
    requires Inv(w) && Enabled(w, op)
    ensures Inv(Apply(w, op))
  {
    match op
    case AddOp(expire, owned) => AddKeeps(w, expire, owned);
    case OneshotOp(expire) => OneshotKeeps(w, expire);
    case ReleaseOp(id) => ReleaseKeeps(w, id);
    case CancelOp(id) => CancelKeeps(w, id);
    case AdvanceOp => AdvanceKeeps(w);
    case VisitOp(id) => DispatchKeeps(w, id); CollectKeeps(Dispatch(w, id), id);
    case FinishOp(id) => FinishKeeps(w, id);
  }

  predicate IsRun(w: Wheel, ops: seq<Op>)
    decreases |ops|
  {
    ops != [] ==> Enabled(w, ops[0]) && IsRun(Apply(w, ops[0]), ops[1..])
  }

  function Run(w: Wheel, ops: seq<Op>): Wheel
    requires IsRun(w, ops)
    decreases |ops|
  {
    if ops == [] then w else Run(Apply(w, ops[0]), ops[1..])
  }

  lemma {:induction false} RunKeeps(w: Wheel, ops: seq<Op>)
    requires Inv(w) && IsRun(w, ops)
    ensures Inv(Run(w, ops))
    decreases |ops|
  {
    if ops != [] {
      ApplyKeeps(w, ops[0]);
      RunKeeps(Apply(w, ops[0]), ops[1..]);
    }
  }

  /** Over every run of owners, ticks and handler threads: a handler starts at most once and never
      before its deadline; each owned argument is in exactly one place (its timer, its handler, or
      freed, once); and a timer some owner still names is in the list with one reference. */
  lemma {:induction false} TimerLifeCycle(ops: seq<Op>, id: nat)
    requires IsRun(Empty(), ops) && id < Run(Empty(), ops).nextId
    ensures var w := Run(Empty(), ops);
      && w.spawned[id] + w.finished[id] <= 1
      && (w.spawned[id] + w.finished[id] == 1 ==>
            id in w.dispatched && id in w.deadline && w.deadline[id] < w.dispatched[id] <= w.tick)
      && (id in w.owned ==> Count(Listed(w, id)) + w.spawned[id] + w.freed[id] == 1)
      && (id !in w.owned ==> w.freed[id] == 0)
      && (id in w.held ==> id in w.timers && w.timers[id].refcnt == 1)
  {
    RunKeeps(Empty(), ops);
    assert Ok(Run(Empty(), ops), id);
  }
}
