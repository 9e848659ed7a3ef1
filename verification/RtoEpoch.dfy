/** The retransmission timer of one connection: `tcp_rearm_rto_timer`, `tcp_stop_rto_timer`,
    `tcp_release_rto_timer` and the timeout callback, interleaved in every way with the
    application, arriving segments, the tick thread and other timers, before and after the connection
    is closed. The peer is arbitrary: any segment may arrive at any time. */
module RtoEpoch {
  import opened Words
  import opened TcpData
  import opened TcpOutput
  import opened TcpInput
  import opened Transfer
  import Rtt
  import opened TimerWheel

  /** `slot` is `tsk->retransmit`; `epochOf` gives the epoch stored in the argument of each
      retransmission timer ever armed. `closed` is set once the connection is in TCP_CLOSING (after
      `tcp_done`) or, with `timeWait`, in TCP_TIME_WAIT. */
  datatype Conn = Conn(
    peer: Peer,
    wheel: Wheel,
    slot: Option<nat>,
    epoch: nat,
    epochOf: map<nat, nat>,
    est: Rtt.Estimate,
    backoff: u8,
    closed: bool,
    timeWait: bool)

  // ----- the timer helpers

  function ReleaseSlot(c: Conn): Conn {
    if c.slot.Some? && c.slot.value in c.wheel.timers
    then c.(wheel := Release(c.wheel, c.slot.value), slot := None)
    else c.(slot := None)
  }

  function RearmTimer(c: Conn): Conn {
    var c1 := ReleaseSlot(c);
    var id := c1.wheel.nextId;
    c1.(wheel := Add(c1.wheel, Max(c1.est.rto, 0), true),
        slot := Some(id),
        epoch := c1.epoch + 1,
        epochOf := c1.epochOf[id := c1.epoch + 1])
  }

  function StopTimer(c: Conn): Conn {
    var w := if c.slot.Some? && c.slot.value in c.wheel.timers then Cancel(c.wheel, c.slot.value) else c.wheel;
    c.(wheel := w, slot := None, backoff := 0, epoch := c.epoch + 1)
  }

  /** `tcp_rtt`: Karn's rule, then one measurement against the armed timer. */
  function SampleRtt(c: Conn): Conn {
    if c.backoff > 0 || c.slot.None? || c.slot.value !in c.wheel.timers then c
    else
      var r := c.wheel.tick - (c.wheel.timers[c.slot.value].expires - c.est.rto);
      if r < 0 then c else c.(est := Rtt.Measure(c.est, r))
  }

  function ApplyOp(c: Conn, op: RtoOp): Conn {
    match op
    case Sample => SampleRtt(c)
    case Stop => StopTimer(c)
    case Rearm => RearmTimer(c)
  }

  function ApplyOps(c: Conn, ops: seq<RtoOp>): Conn
    decreases |ops|
  {
    if ops == [] then c else ApplyOps(ApplyOp(c, ops[0]), ops[1..])
  }

  // ----- the steps

  function StepOps(p: Peer, a: Act): seq<RtoOp> {
    match a
    case SendSegment => SendChunk(p.sock, NextChunk(p).payload, NextChunk(p).psh).ops
    case Deliver(g) => Input(p.sock, g).ops
    case Late(g) => LateInput(p.sock, g).ops
    case _ => []
  }

  /** A segment that gets past the ACK field of a closing connection with nothing queued ends in
      TCP_TIME_WAIT. */
  predicate Settles(p: Peer, a: Act)
    requires a.RtoFires? ==> p.sock.tx.queue != []
  {
    a.Late? && PassesAck(p.sock, a.g) && PeerStep(p, a).peer.sock.tx.queue == []
  }

  function AppStep(c: Conn, a: Act): Conn
    requires !a.RtoFires?
  {
    ApplyOps(c.(peer := PeerStep(c.peer, a).peer, timeWait := c.timeWait || Settles(c.peer, a)), StepOps(c.peer, a))
  }

  /** `tcp_done`: the timer is stopped and the out-of-order queue emptied; the write queue stays. */
  function Done(c: Conn): Conn {
    StopTimer(c.(peer := PeerStep(c.peer, Discard).peer)).(closed := true, timeWait := false)
  }

  /** The body of `tcp_retransmission_timeout` once the epoch matches. */
  function Fire(c: Conn): Conn {
    var c1 := ReleaseSlot(c);
    if c.peer.sock.tx.queue == [] then c1.(backoff := 0)
    else
      var c2 := c1.(peer := PeerStep(c.peer, RtoFires).peer);
      if c.est.rto > 60000 then Done(c2)
      else RearmTimer(c2.(est := c.est.(rto := 2 * c.est.rto), backoff := Inc8(c.backoff)))
  }

  /** A spawned callback gets the socket lock: it checks its epoch and frees its argument. */
  function Callback(c: Conn, id: nat): Conn {
    var c1 := if id in c.epochOf && c.epochOf[id] == c.epoch then Fire(c) else c;
    c1.(wheel := Finish(c1.wheel, id))
  }

  /** `Abort` is `tcp_abort`, also from the user timeout; `Reset` is the arrival of an acceptable RST;
      `Linger` is `tcp_done` at the end of TCP_TIME_WAIT. */
  datatype Move =
    | App(act: Act)
    | CallbackRuns(id: nat)
    | Timers(op: TimerWheel.Op)
    | Abort
    | Reset
    | Linger

  /** Other owners and their handlers leave the retransmission timers alone. */
  predicate Foreign(c: Conn, op: TimerWheel.Op) {
    match op
    case ReleaseOp(id) => id !in c.epochOf
    case CancelOp(id) => id !in c.epochOf
    case FinishOp(id) => id !in c.epochOf
    case _ => true
  }

  predicate CanMove(c: Conn, m: Move) {
    match m
    case App(a) =>
      && CanAct(c, a) && Transfer.Enabled(c.peer, a, Inbox(a))
      && (a.SendSegment? ==> c.peer.sock.tx.sndNxt + |NextChunk(c.peer).payload| < 0x1_0000_0000)
    case CallbackRuns(id) => id in c.epochOf && c.wheel.spawned[id] > 0
    case Timers(op) => TimerWheel.Enabled(c.wheel, op) && Foreign(c, op)
    case Abort => true
    case Reset => true
    case Linger => c.closed
  }

  /** What the application and the network can do. A closed connection takes no new data to write, but a
      writer or reader that was asleep goes on, and segments still reach the socket. */
  predicate CanAct(c: Conn, a: Act) {
    if !c.closed then Regular(a) && !a.RtoFires?
    else a.SendSegment? || a.DelackFires? || a.Read? || (if c.timeWait then a.Mute? else a.Late?)
  }

  function Inbox(a: Act): set<Segment> {
    if a.Deliver? || a.Late? || a.Mute? then {a.g} else {}
  }

  function Next(c: Conn, m: Move): Conn
    requires CanMove(c, m)
  {
    match m
    case App(a) => AppStep(c, a)
    case CallbackRuns(id) => Callback(c, id)
    case Timers(op) => c.(wheel := Apply(c.wheel, op))
    case Abort => Done(c.(peer := PeerStep(c.peer, Forsake).peer))
    case Reset => StopTimer(c).(closed := true, timeWait := true)
    case Linger => Done(c)
  }

  // ----- the invariant

  /** The timer is armed. */
  predicate Live(c: Conn) {
    c.slot.Some?
  }

  /** Timer `id` carries the current epoch and can still act: it is pending, or its callback has
      been spawned and waits for the lock. */
  predicate Carrier(c: Conn, id: nat) {
    && id in c.epochOf && c.epochOf[id] == c.epoch
    && ((id in c.wheel.timers && !c.wheel.timers[id].cancelled) || c.wheel.spawned[id] > 0)
  }

  ghost predicate Epochs(c: Conn) {
    && (forall id :: id in c.epochOf ==> id < c.wheel.nextId && id in c.wheel.owned && c.epochOf[id] <= c.epoch)
    && (forall i, j :: i in c.epochOf && j in c.epochOf && c.epochOf[i] == c.epochOf[j] ==> i == j)
    && (forall id :: id in c.epochOf && id in c.wheel.held ==> c.slot == Some(id))
  }

  ghost predicate Armed(c: Conn, live: bool) {
    if live then
      && c.slot.Some? && c.slot.value in c.epochOf && c.epochOf[c.slot.value] == c.epoch
      && c.slot.value in c.wheel.held && c.wheel.finished[c.slot.value] == 0
    else
      c.slot == None && forall id :: id in c.epochOf ==> c.epochOf[id] != c.epoch
  }

  ghost predicate TimerInv(c: Conn, live: bool) {
    Inv(c.wheel) && Epochs(c) && Armed(c, live)
  }

  /** An armed timer has something to send again; while the connection is open, what is queued has an
      armed timer. */
  ghost predicate ConnInv(c: Conn) {
    && QueueInv(c.peer.sock.tx) && 0 < c.peer.sock.cc.smss
    && TimerInv(c, Live(c))
    && (Live(c) ==> c.peer.sock.tx.queue != [])
    && (!c.closed ==> SendInv(c.peer.sock.tx) && (c.peer.sock.tx.queue != [] ==> Live(c)))
  }

  // ----- the timer helpers keep it

  lemma {:induction false} ReleaseSlotKeeps(c: Conn, live: bool)
    requires TimerInv(c, live)
    ensures var c' := ReleaseSlot(c);
      && Inv(c'.wheel) && Epochs(c') && c'.slot == None
      && (forall id :: id in c'.epochOf ==> id !in c'.wheel.held)
  {
    if live {
      HeldIsListed(c.wheel, c.slot.value);
      ReleaseKeeps(c.wheel, c.slot.value);
    }
  }

  lemma {:induction false} RearmKeeps(c: Conn, live: bool)
    requires TimerInv(c, live)
    ensures TimerInv(RearmTimer(c), true)
  {
    ReleaseSlotKeeps(c, live);
    var c1 := ReleaseSlot(c);
    AddKeeps(c1.wheel, Max(c1.est.rto, 0), true);
    assert Ok(c1.wheel, c1.wheel.nextId);
  }

  lemma {:induction false} StopKeeps(c: Conn, live: bool)
    requires TimerInv(c, live)
    ensures TimerInv(StopTimer(c), false)
  {
    if live {
      HeldIsListed(c.wheel, c.slot.value);
      CancelKeeps(c.wheel, c.slot.value);
    }
  }

  function LiveAfter(ops: seq<RtoOp>, live: bool): bool
    decreases |ops|
  {
    if ops == [] then live
    else LiveAfter(ops[1..], match ops[0] case Sample => live case Stop => false case Rearm => true)
  }

  lemma {:induction false} OpsKeep(c: Conn, ops: seq<RtoOp>, live: bool)
    requires TimerInv(c, live)
    ensures TimerInv(ApplyOps(c, ops), LiveAfter(ops, live))
    ensures ApplyOps(c, ops).peer == c.peer
    ensures ApplyOps(c, ops).closed == c.closed && ApplyOps(c, ops).timeWait == c.timeWait
    decreases |ops|
  {
    if ops != [] {
      match ops[0] {
        case Sample =>
          OpsKeep(SampleRtt(c), ops[1..], live);
        case Stop =>
          StopKeeps(c, live);
          OpsKeep(StopTimer(c), ops[1..], false);
        case Rearm =>
          RearmKeeps(c, live);
          OpsKeep(RearmTimer(c), ops[1..], true);
      }
    }
  }

  // ----- the socket asks for the timer exactly while something is queued

  lemma {:induction false} InputOps(s: Sock, g: Segment)
    requires SendInv(s.tx)
    ensures LiveAfter(Input(s, g).ops, s.tx.queue != []) == (Input(s, g).sock.tx.queue != [])
  {
    NumbersAssigned(s.tx);
    if Verify(s.rx, g.seqno, |g.payload|) {
      if IsDupack(s, g) {
        DupackPathEffect(s);
      } else {
        InputTimerRequests(s, g);
        AckOps(s, g.ackno, s.tx.queue != []);
        LiveAfterAppend(AckPath(s, g.ackno).ops, [Rearm], s.tx.queue != []);
      }
    }
  }

  lemma {:induction false} SampleAndStop(live: bool, stop: bool)
    ensures LiveAfter([Sample] + (if stop then [Stop] else []), live) == (live && !stop)
  {
    if stop {
      assert ([Sample] + [Stop])[1..] == [Stop] && [Stop][1..] == [];
    } else {
      assert ([Sample] + [])[1..] == [];
    }
  }

  lemma {:induction false} AckOps(s: Sock, ackno: u32, live: bool)
    requires QueueInv(s.tx)
    ensures LiveAfter(AckPath(s, ackno).ops, live) ==
      (live && !(Advances(s.tx, ackno) && AckPath(s, ackno).sock.tx.queue == []))
    ensures QueueInv(AckPath(s, ackno).sock.tx) && (s.tx.queue == [] ==> AckPath(s, ackno).sock.tx.queue == [])
  {
    if Advances(s.tx, ackno) {
      CleanKeeps(s.tx, ackno);
      SampleAndStop(live, StopsTimer(Clean(s.tx.(sndUna := ackno), ackno)));
    }
  }

  lemma {:induction false} LiveAfterAppend(a: seq<RtoOp>, b: seq<RtoOp>, live: bool)
    ensures LiveAfter(a + b, live) == LiveAfter(b, LiveAfter(a, live))
    decreases |a|
  {
    if a == [] {
      assert a + b == b;
    } else {
      assert (a + b)[1..] == a[1..] + b;
      LiveAfterAppend(a[1..], b, match a[0] case Sample => live case Stop => false case Rearm => true);
    }
  }

  // ----- every step keeps the invariant

  lemma {:induction false} AppKeepsSender(p: Peer, a: Act)
    requires SendInv(p.sock.tx) && 0 < p.sock.cc.smss && Regular(a) && !a.RtoFires?
    requires Transfer.Enabled(p, a, Inbox(a))
    requires a.SendSegment? ==> p.sock.tx.sndNxt + |NextChunk(p).payload| < 0x1_0000_0000
    ensures var p' := PeerStep(p, a).peer;
      && SendInv(p'.sock.tx) && 0 < p'.sock.cc.smss
      && LiveAfter(StepOps(p, a), p.sock.tx.queue != []) == (p'.sock.tx.queue != [])
  {
    match a
    case SendSegment =>
      EnqueueKeeps(p.sock.tx, NextChunk(p).payload, NextChunk(p).psh);
      assert [Rearm][1..] == [];
    case Deliver(g) =>
      NumbersAssigned(p.sock.tx);
      InputKeepsSendInv(p.sock, g);
      InputOps(p.sock, g);
      SmssKept(p.sock, g);
    case _ =>
  }

  // ----- after the close

  /** The third duplicate ACK arrives in TCP_CLOSING. */
  predicate ThirdDuplicate(p: Peer, a: Act) {
    a.Late? && Verify(p.sock.rx, a.g.seqno, |a.g.payload|) && IsDupack(p.sock, a.g) && p.sock.cc.dupacks == 2
  }

  /** An acknowledgement of everything arrives in TCP_CLOSING. */
  predicate LastAck(p: Peer, a: Act) {
    && a.Late? && Verify(p.sock.rx, a.g.seqno, |a.g.payload|) && !IsDupack(p.sock, a.g)
    && Advances(p.sock.tx, a.g.ackno) && AckPath(p.sock, a.g.ackno).sock.tx.queue == []
  }

  /** What a closed connection asks of its timer. */
  lemma {:induction false} LateOps(p: Peer, a: Act, live: bool)
    requires a.Late? && QueueInv(p.sock.tx) && 0 < p.sock.cc.smss && (live ==> p.sock.tx.queue != [])
    ensures var p' := PeerStep(p, a).peer;
      && QueueInv(p'.sock.tx) && 0 < p'.sock.cc.smss
      && LiveAfter(StepOps(p, a), live) == (ThirdDuplicate(p, a) || (live && !LastAck(p, a)))
      && (LiveAfter(StepOps(p, a), live) ==> p'.sock.tx.queue != [])
  {
    var s, g := p.sock, a.g;
    NumbersAssigned(s.tx);
    assert 0 < LateInput(s, g).sock.cc.smss by {
      SmssKept(s, g);
    }
    if Verify(s.rx, g.seqno, |g.payload|) {
      if IsDupack(s, g) {
        LateDuplicate(s, g);
        assert [Rearm][1..] == [];
      } else {
        LateAck(s, g);
        AckOps(s, g.ackno, live);
      }
    }
  }

  lemma {:induction false} LateDuplicate(s: Sock, g: Segment)
    requires QueueInv(s.tx) && Numbered(s.tx) && Verify(s.rx, g.seqno, |g.payload|) && IsDupack(s, g)
    ensures LateInput(s, g).sock.tx == s.tx && s.tx.queue != []
    ensures LateInput(s, g).ops == if s.cc.dupacks == 2 then [Rearm] else []
  {
    DupackPathEffect(s);
  }

  lemma {:induction false} LateAck(s: Sock, g: Segment)
    requires Verify(s.rx, g.seqno, |g.payload|) && !IsDupack(s, g)
    ensures LateInput(s, g).sock.tx == AckPath(s, g.ackno).sock.tx && LateInput(s, g).ops == AckPath(s, g.ackno).ops
  {
    WindowUpdateIsDead(s, g);
  }

  lemma {:induction false} ClosedAppKeeps(p: Peer, a: Act, live: bool)
    requires QueueInv(p.sock.tx) && 0 < p.sock.cc.smss && (live ==> p.sock.tx.queue != [])
    requires a.SendSegment? || a.DelackFires? || a.Read? || a.Mute? || a.Late?
    requires Transfer.Enabled(p, a, Inbox(a))
    requires a.SendSegment? ==> p.sock.tx.sndNxt + |NextChunk(p).payload| < 0x1_0000_0000
    ensures var p', live' := PeerStep(p, a).peer, LiveAfter(StepOps(p, a), live);
      && QueueInv(p'.sock.tx) && 0 < p'.sock.cc.smss && (live' ==> p'.sock.tx.queue != [])
      && live' == (ThirdDuplicate(p, a) || (a.SendSegment? && p.sock.tx.queue == []) || (live && !LastAck(p, a)))
  {
    match a
    case SendSegment =>
      EnqueueKeeps(p.sock.tx, NextChunk(p).payload, NextChunk(p).psh);
      assert [Rearm][1..] == [];
    case Late(g) => LateOps(p, a, live);
    case _ =>
  }

  lemma {:induction false} AppKeeps(c: Conn, a: Act)
    requires ConnInv(c) && CanMove(c, App(a))
    ensures ConnInv(AppStep(c, a)) && AppStep(c, a).closed == c.closed
    ensures c.closed ==> (Live(AppStep(c, a)) <==>
      ThirdDuplicate(c.peer, a) || (a.SendSegment? && c.peer.sock.tx.queue == []) || (Live(c) && !LastAck(c.peer, a)))
  {
    var c1 := c.(peer := PeerStep(c.peer, a).peer, timeWait := c.timeWait || Settles(c.peer, a));
    if c.closed {
      ClosedAppKeeps(c.peer, a, Live(c));
    } else {
      AppKeepsSender(c.peer, a);
    }
    OpsKeep(c1, StepOps(c.peer, a), Live(c));
  }

  lemma {:induction false} RetransmitKeepsSender(p: Peer)
    requires QueueInv(p.sock.tx) && p.sock.tx.queue != []
    ensures QueueInv(PeerStep(p, RtoFires).peer.sock.tx) && PeerStep(p, RtoFires).peer.sock.tx.queue != []
    ensures SendInv(p.sock.tx) ==> SendInv(PeerStep(p, RtoFires).peer.sock.tx)
  {
    var tx := p.sock.tx;
    CoversCleared(tx.queue, Front(tx), tx.sndNxt);
    assert ClearSacked(tx.queue)[0] == tx.queue[0].(sacked := false);
  }

  lemma {:induction false} CurrentIsLive(c: Conn, id: nat)
    requires ConnInv(c) && id in c.epochOf && c.epochOf[id] == c.epoch
    ensures Live(c) && c.slot == Some(id)
  {
  }

  lemma {:induction false} FinishKeepsTimers(c: Conn, live: bool, id: nat)
    requires TimerInv(c, live) && c.wheel.spawned[id] > 0 && c.slot != Some(id)
    ensures TimerInv(c.(wheel := Finish(c.wheel, id)), live)
  {
    FinishKeeps(c.wheel, id);
  }

  /** The slot is released first, so the rearm in the callback starts from an empty slot. */
  lemma {:induction false} ReleaseThenRearm(c: Conn, c2: Conn)
    requires ConnInv(c) && c.slot.Some?
    requires c2 == ReleaseSlot(c).(peer := c2.peer, est := c2.est, backoff := c2.backoff)
    ensures TimerInv(RearmTimer(c2), true) && RearmTimer(c2).slot != c.slot
    ensures RearmTimer(c2).wheel.spawned == c.wheel.spawned
  {
    ReleaseSlotKeeps(c, Live(c));
    AddKeeps(c2.wheel, Max(c2.est.rto, 0), true);
    assert Ok(c2.wheel, c2.wheel.nextId);
  }

  lemma {:induction false} ReleaseThenStop(c: Conn, c2: Conn)
    requires ConnInv(c) && c2 == ReleaseSlot(c).(peer := c2.peer)
    ensures TimerInv(StopTimer(c2), false) && StopTimer(c2).slot == None
    ensures StopTimer(c2).wheel.spawned == c.wheel.spawned
  {
    ReleaseSlotKeeps(c, Live(c));
  }

  lemma {:induction false} RetryKeeps(c: Conn)
    requires ConnInv(c) && Live(c) && c.est.rto <= 60000
    ensures var c' := Fire(c);
      ConnInv(c') && c'.slot != c.slot && c'.wheel.spawned == c.wheel.spawned && Live(c') && c'.closed == c.closed
  {
    var p' := PeerStep(c.peer, RtoFires).peer;
    assert QueueInv(p'.sock.tx) && p'.sock.tx.queue != [] && p'.sock.cc.smss == c.peer.sock.cc.smss
      && (SendInv(c.peer.sock.tx) ==> SendInv(p'.sock.tx)) by {
      RetransmitKeepsSender(c.peer);
    }
    var c2 := ReleaseSlot(c).(peer := p', est := c.est.(rto := 2 * c.est.rto), backoff := Inc8(c.backoff));
    var c3 := RearmTimer(c2);
    assert TimerInv(c3, true) && c3.slot != c.slot && c3.wheel.spawned == c.wheel.spawned by {
      ReleaseThenRearm(c, c2);
    }
    assert Fire(c) == c3;
    RearmFields(c2);
  }

  /** `tcp_done` from any state. */
  lemma {:induction false} DoneKeeps(c: Conn, live: bool)
    requires TimerInv(c, live) && QueueInv(c.peer.sock.tx) && 0 < c.peer.sock.cc.smss
    ensures ConnInv(Done(c)) && Done(c).closed && Done(c).slot == None && Done(c).wheel.spawned == c.wheel.spawned
  {
    StopKeeps(c.(peer := PeerStep(c.peer, Discard).peer), live);
  }

  lemma {:induction false} GiveUpKeeps(c: Conn)
    requires ConnInv(c) && Live(c) && c.est.rto > 60000
    ensures var c' := Fire(c);
      ConnInv(c') && c'.slot == None && c'.closed && c'.wheel.spawned == c.wheel.spawned
  {
    RetransmitKeepsSender(c.peer);
    var c2 := ReleaseSlot(c).(peer := PeerStep(PeerStep(c.peer, RtoFires).peer, Discard).peer);
    ReleaseThenStop(c, c2);
    assert Fire(c) == StopTimer(c2).(closed := true, timeWait := false);
  }

  lemma {:induction false} FireKeeps(c: Conn, id: nat)
    requires ConnInv(c) && id in c.epochOf && c.epochOf[id] == c.epoch
    ensures var c' := Fire(c);
      && ConnInv(c') && c'.slot != Some(id) && c'.wheel.spawned == c.wheel.spawned
      && Live(c') == (c.est.rto <= 60000) && c'.closed == (c.closed || c.est.rto > 60000)
  {
    CurrentIsLive(c, id);
    if c.est.rto > 60000 {
      GiveUpKeeps(c);
    } else {
      RetryKeeps(c);
    }
  }

  lemma {:induction false} CallbackKeeps(c: Conn, id: nat)
    requires ConnInv(c) && CanMove(c, CallbackRuns(id))
    ensures ConnInv(Callback(c, id))
    ensures var fires := c.epochOf[id] == c.epoch;
      && Live(Callback(c, id)) == (if fires then c.est.rto <= 60000 else Live(c))
      && Callback(c, id).closed == (c.closed || (fires && c.est.rto > 60000))
  {
    if c.epochOf[id] == c.epoch {
      FireKeeps(c, id);
      FinishKeepsTimers(Fire(c), Live(Fire(c)), id);
    } else {
      FinishKeepsTimers(c, Live(c), id);
    }
  }

  lemma {:induction false} TimersKeep(c: Conn, op: TimerWheel.Op)
    requires ConnInv(c) && CanMove(c, Timers(op))
    ensures ConnInv(c.(wheel := Apply(c.wheel, op)))
  {
    ApplyKeeps(c.wheel, op);
    ForeignLeaves(c, op);
  }

  /** What the other users of the list leave alone. */
  lemma {:induction false} ForeignLeaves(c: Conn, op: TimerWheel.Op)
    requires Epochs(c) && CanMove(c, Timers(op))
    ensures var w, w' := c.wheel, Apply(c.wheel, op);
      && w.nextId <= w'.nextId && w.owned <= w'.owned
      && forall id :: id in c.epochOf ==> (id in w'.held <==> id in w.held) && w'.finished[id] == w.finished[id]
  {
  }

  lemma {:induction false} NextKeeps(c: Conn, m: Move)
    requires ConnInv(c) && CanMove(c, m)
    ensures ConnInv(Next(c, m))
  {
    match m
    case App(a) => AppKeeps(c, a);
    case CallbackRuns(id) => CallbackKeeps(c, id);
    case Timers(op) => TimersKeep(c, op);
    case Abort => DoneKeeps(c.(peer := PeerStep(c.peer, Forsake).peer), Live(c));
    case Reset => StopKeeps(c, Live(c));
    case Linger => DoneKeeps(c, Live(c));
  }

  // ----- every run

  predicate IsRun(c: Conn, ms: seq<Move>)
    decreases |ms|
  {
    ms != [] ==> CanMove(c, ms[0]) && IsRun(Next(c, ms[0]), ms[1..])
  }

  function Run(c: Conn, ms: seq<Move>): Conn
    requires IsRun(c, ms)
    decreases |ms|
  {
    if ms == [] then c else Run(Next(c, ms[0]), ms[1..])
  }

  /** An established connection, opened actively or passively, with nothing queued and no armed
      retransmission timer. Timers of its SYN may still be listed, or their callbacks be waiting for the
      lock; none of them carries the current epoch. Other timers are arbitrary. */
  ghost predicate Idle(c: Conn) {
    && !c.closed && SendInv(c.peer.sock.tx) && c.peer.sock.tx.queue == [] && 0 < c.peer.sock.cc.smss
    && Inv(c.wheel) && c.slot == None && Epochs(c)
    && (forall id :: id in c.epochOf ==> c.epochOf[id] != c.epoch)
  }

  lemma {:induction false} RunKeeps(c: Conn, ms: seq<Move>)
    requires ConnInv(c) && IsRun(c, ms)
    ensures ConnInv(Run(c, ms))
    decreases |ms|
  {
    if ms != [] {
      NextKeeps(c, ms[0]);
      RunKeeps(Next(c, ms[0]), ms[1..]);
    }
  }

  ghost function Carriers(c: Conn): set<nat> {
    set id | id in c.epochOf && Carrier(c, id)
  }

  lemma {:induction false} OneCarrier(c: Conn)
    requires ConnInv(c)
    ensures Carriers(c) == if Live(c) then {c.slot.value} else {}
  {
    if Live(c) {
      var id := c.slot.value;
      assert Ok(c.wheel, id);
      assert Carrier(c, id);
    }
  }

  // ----- the timer of a closed connection

  /** The move arms the timer of a closed connection: the third duplicate ACK, or a writer that was asleep
      and finds nothing queued. */
  predicate Revives(c: Conn, m: Move) {
    c.closed && m.App? && (ThirdDuplicate(c.peer, m.act) || (m.act.SendSegment? && c.peer.sock.tx.queue == []))
  }

  /** The move stops the timer of a closed connection: another abort, reset or end of TCP_TIME_WAIT, giving
      up once more, or an acknowledgement of everything. */
  predicate Stills(c: Conn, m: Move) {
    match m
    case App(a) => LastAck(c.peer, a)
    case CallbackRuns(id) => id in c.epochOf && c.epochOf[id] == c.epoch && c.est.rto > 60000
    case Timers(op) => false
    case _ => true
  }

  lemma {:induction false} ClosedStep(c: Conn, m: Move)
    requires ConnInv(c) && CanMove(c, m) && c.closed
    ensures Next(c, m).closed
    ensures Live(Next(c, m)) <==> Revives(c, m) || (Live(c) && !Stills(c, m))
  {
    match m
    case App(a) => AppKeeps(c, a);
    case CallbackRuns(id) =>
      CallbackKeeps(c, id);
      if c.epochOf[id] == c.epoch {
        CurrentIsLive(c, id);
      }
    case _ =>
  }

  /** No move of the run stops the timer. */
  predicate NeverStilled(c: Conn, ms: seq<Move>)
    requires IsRun(c, ms)
    decreases |ms|
  {
    ms == [] || (!Stills(c, ms[0]) && NeverStilled(Next(c, ms[0]), ms[1..]))
  }

  /** Some move of the run arms the timer of the closed connection, and none after it stops it. */
  predicate Revived(c: Conn, ms: seq<Move>)
    requires IsRun(c, ms)
    decreases |ms|
  {
    ms != [] &&
    ((Revives(c, ms[0]) && NeverStilled(Next(c, ms[0]), ms[1..])) || Revived(Next(c, ms[0]), ms[1..]))
  }

  lemma {:induction false} ClosedRun(c: Conn, ms: seq<Move>)
    requires ConnInv(c) && IsRun(c, ms) && c.closed
    ensures Run(c, ms).closed
    ensures Live(Run(c, ms)) <==> Revived(c, ms) || (Live(c) && NeverStilled(c, ms))
    decreases |ms|
  {
    if ms != [] {
      ClosedStep(c, ms[0]);
      NextKeeps(c, ms[0]);
      ClosedRun(Next(c, ms[0]), ms[1..]);
    }
  }

  /** The run closes the connection, and after that its timer is armed and not stopped again. */
  predicate RevivedAfterClose(c: Conn, ms: seq<Move>)
    requires IsRun(c, ms)
    decreases |ms|
  {
    ms != [] &&
    var d := Next(c, ms[0]);
    if !c.closed && d.closed then Revived(d, ms[1..]) else RevivedAfterClose(d, ms[1..])
  }

  /** The move that closes a connection leaves no timer. */
  lemma {:induction false} ClosingStops(c: Conn, m: Move)
    requires ConnInv(c) && CanMove(c, m) && !c.closed && Next(c, m).closed
    ensures !Live(Next(c, m))
  {
    match m
    case App(a) => AppKeeps(c, a);
    case CallbackRuns(id) => CallbackKeeps(c, id);
    case _ =>
  }

  lemma {:induction false} ClosedTimerIff(c: Conn, ms: seq<Move>)
    requires ConnInv(c) && IsRun(c, ms) && !c.closed && Run(c, ms).closed
    ensures Live(Run(c, ms)) <==> RevivedAfterClose(c, ms)
    decreases |ms|
  {
    if ms != [] {
      var d := Next(c, ms[0]);
      NextKeeps(c, ms[0]);
      if d.closed {
        ClosingStops(c, ms[0]);
        ClosedRun(d, ms[1..]);
      } else {
        ClosedTimerIff(d, ms[1..]);
      }
    }
  }

  /** In every interleaving of sends, arriving segments, ticks, spawned callbacks, other timers, aborts and
      resets: at most one pending timer or spawned callback carries the current epoch. While the connection
      is open there is one exactly while something is in flight. Once it is closed there is one exactly when
      since the close a third duplicate ACK, or a writer that was asleep and found nothing queued, has armed
      it and nothing has stopped it again. */
  lemma {:induction false} RtoTheorem(c: Conn, ms: seq<Move>)
    requires Idle(c) && IsRun(c, ms)
    ensures var d := Run(c, ms);
      && |Carriers(d)| == (if Live(d) then 1 else 0)
      && (!d.closed ==> (Live(d) <==> d.peer.sock.tx.inflight > 0))
      && (d.closed ==> (Live(d) <==> RevivedAfterClose(c, ms)))
      && (d.slot.Some? ==> d.slot.value in d.wheel.timers && d.wheel.timers[d.slot.value].refcnt == 1)
  {
    var d := Run(c, ms);
    RunKeeps(c, ms);
    OneCarrier(d);
    CoversOrdered(d.peer.sock.tx.queue, Front(d.peer.sock.tx), d.peer.sock.tx.sndNxt);
    if Live(d) {
      HeldIsListed(d.wheel, d.slot.value);
    }
    if d.closed {
      ClosedTimerIff(c, ms);
    }
  }

  /** A callback that lost the race leaves the connection as it found it; it only frees its own
      argument. */
  lemma {:induction false} StaleCallbackIsHarmless(c: Conn, ms: seq<Move>, id: nat)
    requires Idle(c) && IsRun(c, ms) && CanMove(Run(c, ms), CallbackRuns(id)) && !Carrier(Run(c, ms), id)
    ensures var d := Run(c, ms);
      && Callback(d, id) == d.(wheel := Finish(d.wheel, id))
      && Finish(d.wheel, id).timers == d.wheel.timers
      && Finish(d.wheel, id).freed[id] == 1
  {
    RunKeeps(c, ms);
    assert Ok(Run(c, ms).wheel, id);
  }

  /** A callback with the current epoch, in any reachable state, is the one the timer pointer names, and
      it finds something to send again. It finds an open connection, unless the timer of a closed one has
      been armed as `RevivedAfterClose` says. */
  lemma {:induction false} CurrentCallbackIsLive(c: Conn, ms: seq<Move>, id: nat)
    requires Idle(c) && IsRun(c, ms) && CanMove(Run(c, ms), CallbackRuns(id)) && Carrier(Run(c, ms), id)
    ensures var d := Run(c, ms);
      && d.peer.sock.tx.queue != [] && d.peer.sock.tx.inflight > 0 && d.slot == Some(id)
      && (!d.closed || RevivedAfterClose(c, ms))
  {
    var d := Run(c, ms);
    RunKeeps(c, ms);
    CurrentIsLive(d, id);
    CoversOrdered(d.peer.sock.tx.queue, Front(d.peer.sock.tx), d.peer.sock.tx.sndNxt);
    if d.closed {
      ClosedTimerIff(c, ms);
    }
  }

  // ----- without a timer there is no back-off

  ghost predicate Rested(c: Conn) {
    c.slot == None ==> c.backoff == 0
  }

  lemma {:induction false} OpsRest(c: Conn, ops: seq<RtoOp>)
    requires Rested(c)
    ensures Rested(ApplyOps(c, ops))
    decreases |ops|
  {
    if ops != [] {
      OpsRest(ApplyOp(c, ops[0]), ops[1..]);
    }
  }

  /** After every run, with any peer and open or closed: the next segment to be timed is measured, since no
      back-off is left over once the timer has been stopped or has found nothing to send. */
  lemma {:induction false} NoBackoffAtRest(c: Conn, ms: seq<Move>)
    requires Rested(c) && IsRun(c, ms)
    ensures Rested(Run(c, ms))
    decreases |ms|
  {
    if ms != [] {
      match ms[0] {
        case App(a) =>
          OpsRest(c.(peer := PeerStep(c.peer, a).peer, timeWait := c.timeWait || Settles(c.peer, a)), StepOps(c.peer, a));
        case _ =>
      }
      NoBackoffAtRest(Next(c, ms[0]), ms[1..]);
    }
  }

  // ----- consecutive timeouts

  /** The armed timer carries the current epoch. */
  predicate Ticking(c: Conn) {
    c.slot.Some? && c.slot.value in c.epochOf && c.epochOf[c.slot.value] == c.epoch
  }

  /** `d` is the open connection `c` after the callback of its armed timer. */
  ghost predicate TimesOut(c: Conn, d: Conn) {
    !c.closed && Ticking(c) && d == Callback(c, c.slot.value)
  }

  /** The effect of a current callback with something queued, open or closed. */
  lemma {:induction false} CallbackEffect(c: Conn, d: Conn)
    requires Ticking(c) && c.peer.sock.tx.queue != [] && d == Callback(c, c.slot.value)
    ensures d.closed == (c.closed || c.est.rto > 60000) && |d.peer.sock.tx.queue| == |c.peer.sock.tx.queue|
    ensures c.est.rto <= 60000 ==>
      d.est.rto == 2 * c.est.rto && d.backoff == Inc8(c.backoff) && Ticking(d) && d.peer == PeerStep(c.peer, RtoFires).peer
  {
    var f := Fire(c);
    assert d == f.(wheel := Finish(f.wheel, c.slot.value));
    if c.est.rto <= 60000 {
      RetryFields(c, f);
    } else {
      GiveUpFields(c, f);
    }
  }

  lemma {:induction false} RearmFields(c: Conn)
    ensures var d := RearmTimer(c);
      d.peer == c.peer && d.est == c.est && d.backoff == c.backoff && d.closed == c.closed && Ticking(d)
  {
  }

  lemma {:induction false} RetryFields(c: Conn, f: Conn)
    requires c.peer.sock.tx.queue != [] && c.est.rto <= 60000 && f == Fire(c)
    ensures f.closed == c.closed && f.est.rto == 2 * c.est.rto && f.backoff == Inc8(c.backoff) && Ticking(f)
    ensures f.peer == PeerStep(c.peer, RtoFires).peer && |f.peer.sock.tx.queue| == |c.peer.sock.tx.queue|
  {
    RearmFields(ReleaseSlot(c).(peer := PeerStep(c.peer, RtoFires).peer,
                                est := c.est.(rto := 2 * c.est.rto), backoff := Inc8(c.backoff)));
  }

  lemma {:induction false} GiveUpFields(c: Conn, f: Conn)
    requires c.peer.sock.tx.queue != [] && c.est.rto > 60000 && f == Fire(c)
    ensures f.closed && |f.peer.sock.tx.queue| == |c.peer.sock.tx.queue|
  {
  }

  lemma {:induction false} OneTimeout(c: Conn, d: Conn)
    requires TimesOut(c, d) && c.peer.sock.tx.queue != []
    ensures d.closed == (c.est.rto > 60000) && |d.peer.sock.tx.queue| == |c.peer.sock.tx.queue|
    ensures !d.closed ==> d.est.rto == 2 * c.est.rto && d.backoff == Inc8(c.backoff) && Ticking(d)
    ensures !d.closed ==> d.peer == PeerStep(c.peer, RtoFires).peer
  {
    CallbackEffect(c, d);
  }

  /** The connection `d` is what `Rtt.Backoff` foretells after `n` timeouts from `rto`. */
  ghost predicate AsForetold(rto: nat, backoff: u8, n: nat, d: Conn) {
    match Rtt.Backoff(rto, n)
    case Some(r) => !d.closed && d.est.rto == r && d.backoff == Count8(backoff, n)
    case None => d.closed
  }

  /** The 8-bit counter after `n` more timeouts. */
  function Count8(b: u8, n: nat): u8
    decreases n
  {
    if n == 0 then b else Count8(Inc8(b), n - 1)
  }

  /** Consecutive timeouts follow `Rtt.Backoff`: after the `n`-th the RTO is what that says, and the
      connection is closed exactly when that says it has been given up. */
  lemma {:induction false} TimeoutsFollowBackoff(cs: seq<Conn>, n: nat)
    requires n < |cs| && forall i :: 0 <= i < n ==> TimesOut(cs[i], cs[i + 1])
    requires !cs[0].closed && cs[0].peer.sock.tx.queue != [] && cs[0].est.rto >= 0
    ensures AsForetold(cs[0].est.rto, cs[0].backoff, n, cs[n])
    decreases n
  {
    if n > 0 {
      OneTimeout(cs[0], cs[1]);
      if n > 1 {
        assert TimesOut(cs[1], cs[2]);
      }
      var ds := cs[1..];
      forall i | 0 <= i < n - 1
        ensures TimesOut(ds[i], ds[i + 1])
      {
        assert TimesOut(cs[i + 1], cs[i + 2]);
      }
      if !cs[1].closed {
        TimeoutsFollowBackoff(ds, n - 1);
        assert AsForetold(2 * cs[0].est.rto, Inc8(cs[0].backoff), n - 1, cs[n]);
      }
    }
  }

  // ----- the timeout comes

  function Ticks(n: nat): (ms: seq<Move>)
    ensures |ms| == n && forall i :: 0 <= i < n ==> ms[i] == Timers(AdvanceOp)
  {
    if n == 0 then [] else [Timers(AdvanceOp)] + Ticks(n - 1)
  }

  lemma {:induction false} TicksRun(c: Conn, n: nat)
    ensures IsRun(c, Ticks(n)) && Run(c, Ticks(n)) == c.(wheel := c.wheel.(tick := c.wheel.tick + 10 * n))
    decreases n
  {
    if n > 0 {
      assert Ticks(n)[0] == Timers(AdvanceOp) && Ticks(n)[1..] == Ticks(n - 1);
      TicksRun(c.(wheel := Advance(c.wheel)), n - 1);
    }
  }

  lemma {:induction false} RunFront(c: Conn, m: Move, ms: seq<Move>)
    requires CanMove(c, m) && IsRun(Next(c, m), ms)
    ensures IsRun(c, [m] + ms) && Run(c, [m] + ms) == Run(Next(c, m), ms)
  {
    assert ([m] + ms)[1..] == ms;
  }

  lemma {:induction false} RunThen(c: Conn, ms: seq<Move>, ns: seq<Move>)
    requires IsRun(c, ms) && IsRun(Run(c, ms), ns)
    ensures IsRun(c, ms + ns) && Run(c, ms + ns) == Run(Run(c, ms), ns)
    decreases |ms|
  {
    if ms == [] {
      assert ms + ns == ns;
    } else {
      RunThen(Next(c, ms[0]), ms[1..], ns);
      RunFront(c, ms[0], ms[1..] + ns);
      assert [ms[0]] + (ms[1..] + ns) == ms + ns;
    }
  }

  ghost predicate TimersOnly(ms: seq<Move>) {
    forall i :: 0 <= i < |ms| ==> ms[i].Timers?
  }

  lemma {:induction false} VisitSpawns(c: Conn, id: nat)
    requires id in c.wheel.timers && Due(c.wheel, c.wheel.timers[id])
    ensures var visit := [Timers(VisitOp(id))];
      && IsRun(c, visit) && Run(c, visit) == c.(wheel := Run(c, visit).wheel)
      && Run(c, visit).wheel.spawned[id] > 0
  {
    assert [Timers(VisitOp(id))][1..] == [];
  }

  /** While something is in flight, the clock alone brings the current callback to the socket lock. */
  lemma {:induction false} TimeoutComes(c: Conn) returns (ms: seq<Move>)
    requires ConnInv(c) && Live(c)
    ensures IsRun(c, ms) && TimersOnly(ms)
    ensures var d := Run(c, ms);
      && d == c.(wheel := d.wheel) && ConnInv(d) && CanMove(d, CallbackRuns(c.slot.value))
  {
    var id := c.slot.value;
    assert Ok(c.wheel, id);
    if id in c.wheel.dispatched {
      ms := [];
    } else {
      var n := c.wheel.timers[id].expires + 1;
      TicksRun(c, n);
      var d := Run(c, Ticks(n));
      var visit := [Timers(VisitOp(id))];
      VisitSpawns(d, id);
      RunThen(c, Ticks(n), visit);
      ms := Ticks(n) + visit;
    }
    RunKeeps(c, ms);
  }
}
