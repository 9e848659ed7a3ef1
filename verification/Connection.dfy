/** The whole of it: two endpoints with their retransmission timers, epochs, RTO estimates and
    give-up, their timer lists, what happens after they are closed, and the network between them. Every run of this system is a run of
    `Transfer` once the timers are forgotten, so everything proved there holds here; and from every
    state it reaches, whatever the network has lost, the bytes of the side in step can still arrive. */
module Connection {
  import opened Words
  import opened Stream
  import opened Reassembly
  import opened TcpOutput
  import opened TcpInput
  import opened Transfer
  import opened TransferSafety
  import opened SenderWindow
  import opened Progress
  import opened Reach
  import opened Echo
  import opened Opening
  import opened Congestion
  import TimerWheel
  import Rtt
  import R = RtoEpoch

  datatype Net = Net(a: R.Conn, b: R.Conn, ab: set<Segment>, ba: set<Segment>)

  datatype Action = Action(side: Side, move: R.Move)

  /** The timeout callback finds its epoch current and something to send. */
  predicate Fires(c: R.Conn, id: nat) {
    id in c.epochOf && c.epochOf[id] == c.epoch && c.peer.sock.tx.queue != []
  }

  /** What a move of one endpoint puts into the network. An RST is not a segment here; that one arrives is
      the move `Reset`. */
  function Sent(c: R.Conn, m: R.Move): seq<Segment> {
    match m
    case App(a) => if a.RtoFires? then [] else PeerStep(c.peer, a).out
    case CallbackRuns(id) => if Fires(c, id) then PeerStep(c.peer, RtoFires).out else []
    case _ => []
  }

  predicate Allowed(c: R.Conn, m: R.Move, inbound: set<Segment>) {
    R.CanMove(c, m) && (m.App? ==> R.Inbox(m.act) <= inbound)
  }

  predicate Can(n: Net, x: Action) {
    match x.side
    case A => Allowed(n.a, x.move, n.ba)
    case B => Allowed(n.b, x.move, n.ab)
  }

  function Do(n: Net, x: Action): Net
    requires Can(n, x)
  {
    match x.side
    case A => n.(a := R.Next(n.a, x.move), ab := n.ab + ToSet(Sent(n.a, x.move)))
    case B => n.(b := R.Next(n.b, x.move), ba := n.ba + ToSet(Sent(n.b, x.move)))
  }

  predicate IsNetRun(n: Net, xs: seq<Action>)
    decreases |xs|
  {
    xs != [] ==> Can(n, xs[0]) && IsNetRun(Do(n, xs[0]), xs[1..])
  }

  function NetRun(n: Net, xs: seq<Action>): Net
    requires IsNetRun(n, xs)
    decreases |xs|
  {
    if xs == [] then n else NetRun(Do(n, xs[0]), xs[1..])
  }

  lemma {:induction false} NetRunFront(n: Net, x: Action, xs: seq<Action>)
    requires Can(n, x) && IsNetRun(Do(n, x), xs)
    ensures IsNetRun(n, [x] + xs) && NetRun(n, [x] + xs) == NetRun(Do(n, x), xs)
  {
    assert ([x] + xs)[1..] == xs;
  }

  lemma {:induction false} SeqFront(xs: seq<Action>, ys: seq<Action>)
    requires xs != []
    ensures xs + ys == [xs[0]] + (xs[1..] + ys)
  {
  }

  lemma {:induction false} NetRunThen(n: Net, xs: seq<Action>, ys: seq<Action>)
    requires IsNetRun(n, xs) && IsNetRun(NetRun(n, xs), ys)
    ensures IsNetRun(n, xs + ys) && NetRun(n, xs + ys) == NetRun(NetRun(n, xs), ys)
    decreases |xs|
  {
    if xs == [] {
      assert xs + ys == ys;
    } else {
      var x, rest := xs[0], xs[1..] + ys;
      NetRunThen(Do(n, x), xs[1..], ys);
      NetRunFront(n, x, rest);
      SeqFront(xs, ys);
      assert NetRun(n, xs + ys) == NetRun(Do(n, x), rest);
    }
  }

  // ----- forgetting the timers

  function Plainly(n: Net): System {
    System(n.a.peer, n.b.peer, n.ab, n.ba)
  }

  lemma {:induction false} OpsKeepPeer(c: R.Conn, ops: seq<RtoOp>)
    ensures R.ApplyOps(c, ops).peer == c.peer && R.ApplyOps(c, ops).closed == c.closed
    decreases |ops|
  {
    if ops != [] {
      OpsKeepPeer(R.ApplyOp(c, ops[0]), ops[1..]);
    }
  }

  /** The acts of `Transfer` that a move is. */
  function ActsOf(c: R.Conn, m: R.Move): seq<Act> {
    match m
    case App(a) => [a]
    case CallbackRuns(id) =>
      if Fires(c, id) then [RtoFires] + (if c.est.rto > 60000 then [Discard] else []) else []
    case Timers(op) => []
    case Abort => [Forsake, Discard]
    case Reset => []
    case Linger => [Discard]
  }

  /** The peer after an act and, possibly, the clearing that `tcp_done` does after it. */
  lemma {:induction false} MoveIsActs(c: R.Conn, m: R.Move, inbound: set<Segment>)
    requires Allowed(c, m, inbound)
    ensures var acts, p' := ActsOf(c, m), R.Next(c, m).peer;
      && |acts| <= 2
      && (acts == [] ==> p' == c.peer && Sent(c, m) == [])
      && (acts != [] ==> Enabled(c.peer, acts[0], inbound) && PeerStep(c.peer, acts[0]).out == Sent(c, m))
      && (|acts| == 1 ==> p' == PeerStep(c.peer, acts[0]).peer)
      && (|acts| == 2 ==> acts[1] == Discard && p' == PeerStep(PeerStep(c.peer, acts[0]).peer, Discard).peer)
  {
    match m
    case App(a) =>
      OpsKeepPeer(c.(peer := PeerStep(c.peer, a).peer, timeWait := c.timeWait || R.Settles(c.peer, a)), R.StepOps(c.peer, a));
    case CallbackRuns(id) => FireIsTimeout(c);
    case _ =>
  }

  lemma {:induction false} FireIsTimeout(c: R.Conn)
    ensures R.Fire(c).peer ==
      if c.peer.sock.tx.queue == [] then c.peer
      else if c.est.rto > 60000 then PeerStep(PeerStep(c.peer, RtoFires).peer, Discard).peer
      else PeerStep(c.peer, RtoFires).peer
  {
  }

  function EventsOf(side: Side, acts: seq<Act>): (es: seq<Event>)
    ensures |es| == |acts| && forall i :: 0 <= i < |acts| ==> es[i] == Event(side, acts[i])
  {
    if acts == [] then [] else [Event(side, acts[0])] + EventsOf(side, acts[1..])
  }

  lemma {:induction false} FirstActProjects(n: Net, x: Action, a: Act)
    requires Can(n, x) && ActsOf(Mover(n, x), x.move) != [] && a == ActsOf(Mover(n, x), x.move)[0]
    ensures CanStep(Plainly(n), Event(x.side, a))
    ensures Step(Plainly(n), Event(x.side, a)) ==
      if x.side == A then System(PeerStep(n.a.peer, a).peer, n.b.peer, Do(n, x).ab, n.ba)
      else System(n.a.peer, PeerStep(n.b.peer, a).peer, n.ab, Do(n, x).ba)
  {
    MoveIsActs(Mover(n, x), x.move, if x.side == A then n.ba else n.ab);
  }

  function Mover(n: Net, x: Action): R.Conn {
    if x.side == A then n.a else n.b
  }

  lemma {:induction false} DiscardsQuietly(s: System, side: Side)
    ensures Step(s, Event(side, Discard)) ==
      if side == A then s.(a := PeerStep(s.a, Discard).peer) else s.(b := PeerStep(s.b, Discard).peer)
  {
    assert s.ab + ToSet([]) == s.ab && s.ba + ToSet([]) == s.ba;
  }

  /** Every move of the whole system is a short run of `Transfer`. */
  lemma {:induction false} MoveProjects(n: Net, x: Action)
    requires Can(n, x)
    ensures var es := EventsOf(x.side, ActsOf(Mover(n, x), x.move));
      IsRun(Plainly(n), es) && Run(Plainly(n), es) == Plainly(Do(n, x))
  {
    var acts := ActsOf(Mover(n, x), x.move);
    MoveIsActs(Mover(n, x), x.move, if x.side == A then n.ba else n.ab);
    if acts == [] {
      assert n.ab + ToSet([]) == n.ab && n.ba + ToSet([]) == n.ba;
    } else {
      var e := Event(x.side, acts[0]);
      FirstActProjects(n, x, acts[0]);
      RunOne(Plainly(n), e);
      if |acts| == 2 {
        var s1 := Step(Plainly(n), e);
        DiscardsQuietly(s1, x.side);
        RunMore(Plainly(n), [e], Event(x.side, Discard));
        assert EventsOf(x.side, acts) == [e] + [Event(x.side, Discard)];
      } else {
        assert EventsOf(x.side, acts) == [e];
      }
    }
  }

  /** No abort by the side. */
  ghost predicate NoAbort(xs: seq<Action>, side: Side) {
    forall i :: 0 <= i < |xs| && xs[i].side == side ==> !xs[i].move.Abort?
  }

  lemma {:induction false} MoveStays(c: R.Conn, m: R.Move, side: Side, inbound: set<Segment>)
    requires Allowed(c, m, inbound) && !m.Abort?
    ensures Stays(EventsOf(side, ActsOf(c, m)), side)
  {
  }

  lemma {:induction false} StaysConcat(es: seq<Event>, fs: seq<Event>, side: Side)
    requires Stays(es, side) && Stays(fs, side)
    ensures Stays(es + fs, side)
  {
  }

  lemma {:induction false} MoveStaysBoth(n: Net, x: Action, side: Side)
    requires Can(n, x) && NoAbort([x], side)
    ensures Stays(EventsOf(x.side, ActsOf(Mover(n, x), x.move)), side)
  {
    assert [x][0] == x;
    if x.side == side {
      MoveStays(Mover(n, x), x.move, side, if x.side == A then n.ba else n.ab);
    }
  }

  lemma {:induction false} NoAbortFront(xs: seq<Action>, side: Side)
    requires xs != [] && NoAbort(xs, side)
    ensures NoAbort([xs[0]], side) && NoAbort(xs[1..], side)
  {
  }

  /** Every run of the whole system is a run of `Transfer`, in which a side that does not abort stays. */
  lemma {:induction false} RunProjects(n: Net, xs: seq<Action>) returns (es: seq<Event>)
    requires IsNetRun(n, xs)
    ensures IsRun(Plainly(n), es) && Run(Plainly(n), es) == Plainly(NetRun(n, xs))
    ensures NoAbort(xs, A) ==> Stays(es, A)
    ensures NoAbort(xs, B) ==> Stays(es, B)
    decreases |xs|
  {
    es := [];
    if xs != [] {
      var fs := EventsOf(xs[0].side, ActsOf(Mover(n, xs[0]), xs[0].move));
      MoveProjects(n, xs[0]);
      es := RunProjects(Do(n, xs[0]), xs[1..]);
      RunThen(Plainly(n), fs, es);
      ProjectionStays(n, xs, fs, es, A);
      ProjectionStays(n, xs, fs, es, B);
      es := fs + es;
    }
  }

  lemma {:induction false} ProjectionStays(n: Net, xs: seq<Action>, fs: seq<Event>, es: seq<Event>, side: Side)
    requires xs != [] && Can(n, xs[0]) && fs == EventsOf(xs[0].side, ActsOf(Mover(n, xs[0]), xs[0].move))
    requires NoAbort(xs[1..], side) ==> Stays(es, side)
    ensures NoAbort(xs, side) ==> Stays(fs + es, side)
  {
    if NoAbort(xs, side) {
      NoAbortFront(xs, side);
      MoveStaysBoth(n, xs[0], side);
      StaysConcat(fs, es, side);
    }
  }

  /** The prefix property of `Transfer` for the system with timers, epochs, give-up and closing: for every
      side that starts in step with its peer and does not abort. */
  lemma {:induction false} ConnectionTheorem(n: Net, xs: seq<Action>, p: u32, q: u32)
    requires Established(Plainly(n), p, q) && IsNetRun(n, xs)
    requires InRange(Plainly(NetRun(n, xs)), First(n.a.peer), First(n.b.peer))
    ensures var m := NetRun(n, xs);
      && (First(n.a.peer) == p && NoAbort(xs, A) ==> m.b.peer.delivered <= m.a.peer.written)
      && (First(n.b.peer) == q && NoAbort(xs, B) ==> m.a.peer.delivered <= m.b.peer.written)
  {
    var es := RunProjects(n, xs);
    TransferTheorem(Plainly(n), es, p, q);
  }

  // ----- a closed connection stays closed

  lemma {:induction false} ClosedForGood(c: R.Conn, m: R.Move)
    requires R.CanMove(c, m)
    ensures c.closed || m.Abort? ==> R.Next(c, m).closed
  {
    match m
    case App(a) =>
      OpsKeepPeer(c.(peer := PeerStep(c.peer, a).peer, timeWait := c.timeWait || R.Settles(c.peer, a)), R.StepOps(c.peer, a));
    case _ =>
  }

  /** A run that ends open has no abort. */
  lemma {:induction false} OpenMeansNoAbort(n: Net, xs: seq<Action>)
    requires IsNetRun(n, xs) && Open(NetRun(n, xs))
    ensures Open(n) && NoAbort(xs, A) && NoAbort(xs, B)
    decreases |xs|
  {
    if xs != [] {
      OpenMeansNoAbort(Do(n, xs[0]), xs[1..]);
      ClosedForGood(Mover(n, xs[0]), xs[0].move);
      assert xs == [xs[0]] + xs[1..];
    }
  }

  // ----- the timers keep their invariant

  lemma {:induction false} RunKeepsTimers(n: Net, xs: seq<Action>)
    requires R.ConnInv(n.a) && R.ConnInv(n.b) && IsNetRun(n, xs)
    ensures R.ConnInv(NetRun(n, xs).a) && R.ConnInv(NetRun(n, xs).b)
    decreases |xs|
  {
    if xs != [] {
      match xs[0].side {
        case A => R.NextKeeps(n.a, xs[0].move);
        case B => R.NextKeeps(n.b, xs[0].move);
      }
      RunKeepsTimers(Do(n, xs[0]), xs[1..]);
    }
  }

  // ----- plain steps are possible with timers too

  function Lifted(es: seq<Event>): (xs: seq<Action>)
    ensures |xs| == |es| && forall i :: 0 <= i < |es| ==> xs[i] == Action(es[i].side, R.App(es[i].act))
  {
    if es == [] then [] else [Action(es[0].side, R.App(es[0].act))] + Lifted(es[1..])
  }

  ghost predicate Open(n: Net) {
    !n.a.closed && !n.b.closed
  }

  lemma {:induction false} PlainStepLifts(n: Net, e: Event, p: nat, k: nat)
    requires Open(n) && CanStep(Plainly(n), e) && Plain(e)
    requires InOrder(Plainly(n), p, k) && p + |n.a.peer.written| < 0x1_0000_0000
    ensures var x := Action(e.side, R.App(e.act));
      Can(n, x) && Plainly(Do(n, x)) == Step(Plainly(n), e) && Open(Do(n, x))
  {
    var x := Action(e.side, R.App(e.act));
    if e.act.SendSegment? {
      NumbersInRange(Plainly(n), p, k);
    }
    assert Can(n, x);
    FirstActProjects(n, x, e.act);
    MoveIsActs(Mover(n, x), x.move, if x.side == A then n.ba else n.ab);
    var c := Mover(n, x);
    OpsKeepPeer(c.(peer := PeerStep(c.peer, e.act).peer, timeWait := c.timeWait || R.Settles(c.peer, e.act)), R.StepOps(c.peer, e.act));
  }

  lemma {:induction false} NumbersInRange(s: System, p: nat, k: nat)
    requires InOrder(s, p, k) && p + |s.a.written| < 0x1_0000_0000
    ensures s.a.sock.tx.sndNxt + |NextChunk(s.a).payload| < 0x1_0000_0000
  {
    var u: nat, acc: set<nat> :| Direction(s.a, s.b, s.ab, s.ba, p, u, acc);
    CutKeepsStream(s.a);
  }

  lemma {:induction false} PlainRunLifts(n: Net, es: seq<Event>, p: nat, k: nat)
    requires Open(n) && IsRun(Plainly(n), es) && forall i :: 0 <= i < |es| ==> Plain(es[i])
    requires InOrder(Plainly(n), p, k) && InRange(Plainly(n), p, k)
    ensures IsNetRun(n, Lifted(es)) && Open(NetRun(n, Lifted(es)))
    ensures Plainly(NetRun(n, Lifted(es))) == Run(Plainly(n), es)
    decreases |es|
  {
    if es != [] {
      var x := Action(es[0].side, R.App(es[0].act));
      PlainStepLifts(n, es[0], p, k);
      StepKeeps(Plainly(n), es[0], p, k);
      PlainRunLifts(Do(n, x), es[1..], p, k);
      NetRunFront(n, x, Lifted(es[1..]));
      assert Lifted(es) == [x] + Lifted(es[1..]);
    }
  }

  // ----- the timeout, when one is needed

  function OnA(ms: seq<R.Move>): (xs: seq<Action>)
    ensures |xs| == |ms| && forall i :: 0 <= i < |ms| ==> xs[i] == Action(A, ms[i])
  {
    if ms == [] then [] else [Action(A, ms[0])] + OnA(ms[1..])
  }

  lemma {:induction false} TimersLift(n: Net, ms: seq<R.Move>)
    requires R.IsRun(n.a, ms) && R.TimersOnly(ms)
    ensures IsNetRun(n, OnA(ms)) && NetRun(n, OnA(ms)) == n.(a := R.Run(n.a, ms))
    decreases |ms|
  {
    if ms != [] {
      assert ms[0].Timers?;
      var x, n1 := Action(A, ms[0]), n.(a := R.Next(n.a, ms[0]));
      assert Do(n, x) == n1 by {
        assert n.ab + ToSet([]) == n.ab;
      }
      TimersLift(n1, ms[1..]);
      NetRunFront(n, x, OnA(ms[1..]));
      assert OnA(ms) == [x] + OnA(ms[1..]);
    }
  }

  predicate IsCallback(x: Action) {
    x.move.CallbackRuns?
  }

  /** The number of timeout callbacks in a run. */
  function Callbacks(xs: seq<Action>): nat {
    if xs == [] then 0 else (if IsCallback(xs[0]) then 1 else 0) + Callbacks(xs[1..])
  }

  lemma {:induction false} CallbacksConcat(xs: seq<Action>, ys: seq<Action>)
    ensures Callbacks(xs + ys) == Callbacks(xs) + Callbacks(ys)
    decreases |xs|
  {
    if xs == [] {
      assert xs + ys == ys;
    } else {
      assert (xs + ys)[1..] == xs[1..] + ys;
      CallbacksConcat(xs[1..], ys);
    }
  }

  lemma {:induction false} NoCallbacks(xs: seq<Action>)
    requires forall i :: 0 <= i < |xs| ==> !IsCallback(xs[i])
    ensures Callbacks(xs) == 0
    decreases |xs|
  {
    if xs != [] {
      NoCallbacks(xs[1..]);
    }
  }

  lemma {:induction false} NetRunOne(n: Net, x: Action)
    requires Can(n, x)
    ensures IsNetRun(n, [x]) && NetRun(n, [x]) == Do(n, x)
  {
    assert [x][1..] == [];
  }

  lemma {:induction false} NetJoin(n: Net, ys: seq<Action>, zs: seq<Action>) returns (xs: seq<Action>)
    requires IsNetRun(n, ys) && IsNetRun(NetRun(n, ys), zs)
    ensures IsNetRun(n, xs) && NetRun(n, xs) == NetRun(NetRun(n, ys), zs)
    ensures Callbacks(xs) == Callbacks(ys) + Callbacks(zs)
  {
    NetRunThen(n, ys, zs);
    CallbacksConcat(ys, zs);
    xs := ys + zs;
  }

  lemma {:induction false} CallbackFires(n: Net)
    requires R.ConnInv(n.a) && Open(n) && n.a.peer.sock.tx.queue != [] && n.a.est.rto <= 60000
    requires R.CanMove(n.a, R.CallbackRuns(n.a.slot.value))
    ensures var x := Action(A, R.CallbackRuns(n.a.slot.value));
      && Can(n, x) && Open(Do(n, x)) && Plainly(Do(n, x)) == Step(Plainly(n), Event(A, RtoFires))
      && Do(n, x).a.est.rto == 2 * n.a.est.rto && Do(n, x).a.backoff == Inc8(n.a.backoff) && Do(n, x).b == n.b
  {
    var x := Action(A, R.CallbackRuns(n.a.slot.value));
    FirstActProjects(n, x, RtoFires);
    R.OneTimeout(n.a, R.Next(n.a, x.move));
  }

  /** While data is in flight and the RTO is not above 60 seconds, one timeout of `a` comes and leaves
      the connection open; forgetting the timers it is one `RtoFires`. */
  lemma {:induction false} TimeoutHappens(n: Net) returns (xs: seq<Action>)
    requires R.ConnInv(n.a) && Open(n) && n.a.peer.sock.tx.queue != [] && n.a.est.rto <= 60000
    ensures IsNetRun(n, xs) && Callbacks(xs) == 1 && Open(NetRun(n, xs))
    ensures Plainly(NetRun(n, xs)) == Step(Plainly(n), Event(A, RtoFires))
    ensures var m := NetRun(n, xs);
      m.a.est.rto == 2 * n.a.est.rto && m.a.backoff == Inc8(n.a.backoff) && m.b == n.b
  {
    var ms := R.TimeoutComes(n.a);
    TimersLift(n, ms);
    var n1, x := n.(a := R.Run(n.a, ms)), Action(A, R.CallbackRuns(n.a.slot.value));
    CallbackFires(n1);
    NetRunOne(n1, x);
    NoCallbacks(OnA(ms));
    xs := NetJoin(n, OnA(ms), [x]);
  }

  // ----- everything can arrive

  /** After the timeout the head is on its way; it comes over, and the rest by deliveries alone. */
  lemma {:induction false} AfterTimeout(s: System, p: nat, k: nat) returns (es: seq<Event>, t: System)
    requires Going(s, p, k) && s.a.sock.tx.queue != []
    ensures var s1 := Step(s, Event(A, RtoFires));
      Going(s1, p, k) && Leads(s1, es, t, p, k) && t.b.delivered == s.a.written
  {
    var s1 := Step(s, Event(A, RtoFires));
    StepGoing(s, Event(A, RtoFires), p, k);
    var u: nat, acc: set<nat> :| Direction(s.a, s.b, s.ab, s.ba, p, u, acc);
    var g := RetransmitHead(s.a.sock).out[0];
    assert s.a.sock.tx.queue[0].(sacked := false) == SkbAt(s.a.chunks, p, u);
    assert Carries(s1.a.chunks, p, g, u);
    assert g in PeerStep(s.a, RtoFires).out;
    var es1, t1 := HeadComesOver(s1, g, p, k);
    var es2;
    es2, t := ComesOver(t1, g, p, k);
    LeadsThen(s1, es1, t1, es2, t, p, k);
    es := es1 + es2;
  }

  /** The moves `xs` end with everything that `a` has written read by `b`; nothing more is written, the
      connection stays open, and at most one timeout strikes. */
  ghost predicate Finishes(n: Net, xs: seq<Action>) {
    && IsNetRun(n, xs) && Callbacks(xs) <= 1
    && var m := NetRun(n, xs);
       && Open(m) && m.b.peer.delivered == n.a.peer.written
       && m.a.peer.written == n.a.peer.written && m.b.peer.written == n.b.peer.written
  }

  lemma {:induction false} IdleGoesOn(n: Net, p: nat, k: nat) returns (xs: seq<Action>)
    requires Going(Plainly(n), p, k) && Open(n) && n.a.peer.sock.tx.queue == []
    ensures Finishes(n, xs)
  {
    var es, t := ComesOver(Plainly(n), PureAck(n.a.peer.sock), p, k);
    PlainRunLifts(n, es, p, k);
    xs := Lifted(es);
    NoCallbacks(xs);
    Concludes(n, xs, t);
  }

  lemma {:induction false} BusyGoesOn(n: Net, p: nat, k: nat) returns (xs: seq<Action>)
    requires Going(Plainly(n), p, k) && Open(n) && R.ConnInv(n.a)
    requires n.a.peer.sock.tx.queue != [] && n.a.est.rto <= 60000
    ensures Finishes(n, xs)
  {
    var ys := TimeoutHappens(n);
    var n1 := NetRun(n, ys);
    var es, t := AfterTimeout(Plainly(n), p, k);
    PlainRunLifts(n1, es, p, k);
    var zs := Lifted(es);
    NoCallbacks(zs);
    xs := NetJoin(n, ys, zs);
    Concludes(n, xs, t);
  }

  lemma {:induction false} Concludes(n: Net, xs: seq<Action>, t: System)
    requires IsNetRun(n, xs) && Callbacks(xs) <= 1 && Open(NetRun(n, xs)) && Plainly(NetRun(n, xs)) == t
    requires t.b.delivered == n.a.peer.written && SameWritten(Plainly(n), t)
    ensures Finishes(n, xs)
  {
  }

  /** A run of the whole system from the start of a connection: `a` in step with its peer, as an active
      opener is; `b` anywhere, as a passive opener may be. */
  ghost predicate Begun(n: Net, p: u32, q: u32) {
    && Established(Plainly(n), p, q) && First(n.a.peer) == p && InitialWindow(n.a.peer)
    && R.Idle(n.a) && R.Idle(n.b) && n.a.peer.sock.cc.smss <= n.a.peer.sock.tx.sndWnd
  }

  function NewPeer(tx: Tx, other: u32, wnd: u32, lastWin: u16): Peer {
    Peer(Sock(tx, InitialCc(536), Fresh(other, wnd), lastWin, 0, 0, 0, false), [], [], [], [], [])
  }

  function NewConn(peer: Peer, rto: nat): R.Conn {
    R.Conn(peer, TimerWheel.Empty(), None, 0, map[], Rtt.Estimate(0, 0, rto), 0, false, false)
  }

  /** An active and a passive opener right after their handshake, with the default SMSS. The active one
      has an RTO of one second, the passive one still has none; the window last seen is arbitrary. */
  function Handshaken(issA: u32, issB: u32, wnd: u32, winA: u16, winB: u16): Net
    requires issA + 1 < 0x1_0000_0000 && issB + 1 < 0x1_0000_0000
  {
    Net(NewConn(NewPeer(ActiveOpen(issA, wnd), issB + 1, wnd, winA), 1000),
        NewConn(NewPeer(PassiveOpen(issB, wnd), issA + 1, wnd, winB), 0), {}, {})
  }

  /** Such a pair meets what is asked of the start, and the passive one is attentive. */
  lemma {:induction false} HandshakeBegins(issA: u32, issB: u32, wnd: u32, winA: u16, winB: u16)
    requires 0 < issA && 0 < issB && 536 <= wnd
    requires issA + wnd + 540 < 0x1_0000_0000 && issB + wnd + 540 < 0x1_0000_0000
    ensures var n := Handshaken(issA, issB, wnd, winA, winB);
      Begun(n, issA + 1, issB + 1) && Open(n) && InBounds(Plainly(n), Plainly(n), issA + 1) && Attentive(Plainly(n))
  {
    FirstNumbers(issA, wnd);
    FirstNumbers(issB, wnd);
  }

  /** The state after `xs`, with only `ab` and `ba` left of what is in the network. */
  function Remaining(n: Net, xs: seq<Action>, ab: set<Segment>, ba: set<Segment>): Net
    requires IsNetRun(n, xs)
  {
    NetRun(n, xs).(ab := ab, ba := ba)
  }

  /** After every run, with any part of what is in the network lost (all of it, if one likes), there is a
      continuation without any further write after which `b` has read exactly what `a` wrote. It needs
      no timeout if nothing is in flight and a single one otherwise, and it keeps the connection open. */
  lemma {:induction false} EverythingCanArrive(n: Net, xs: seq<Action>, p: u32, q: u32, ab: set<Segment>, ba: set<Segment>)
    returns (more: seq<Action>)
    requires Begun(n, p, q) && IsNetRun(n, xs) && Open(NetRun(n, xs))
    requires InBounds(Plainly(n), Plainly(NetRun(n, xs)), p) && Attentive(Plainly(NetRun(n, xs)))
    requires ab <= NetRun(n, xs).ab && ba <= NetRun(n, xs).ba
    requires NetRun(n, xs).a.peer.sock.tx.queue != [] ==> NetRun(n, xs).a.est.rto <= 60000
    ensures Finishes(Remaining(n, xs, ab, ba), more)
  {
    var m := Remaining(n, xs, ab, ba);
    var es := RunProjects(n, xs);
    OpenMeansNoAbort(n, xs);
    RunGoing(Plainly(n), es, p, q, ab, ba);
    RunKeepsTimers(n, xs);
    if m.a.peer.sock.tx.queue == [] {
      more := IdleGoesOn(m, p, First(n.b.peer));
    } else {
      more := BusyGoesOn(m, p, First(n.b.peer));
    }
  }

  // ----- exactly when

  /** Some continuation without any further write ends with everything that `a` has written read. */
  ghost predicate CanFinish(m: Net) {
    exists xs :: IsNetRun(m, xs) && SameWritten(Plainly(m), Plainly(NetRun(m, xs)))
      && NetRun(m, xs).b.peer.delivered == m.a.peer.written
  }

  /** Once `a` expects, and so acknowledges, a number that `b` has not sent, `b` drops whatever `a`
      sends, whether they are open or not. */
  lemma {:induction false} CannotFinish(m: Net, xs: seq<Action>, p: nat, k: nat, got: seq<byte>)
    requires Deaf(Plainly(m), p, k, m.b.peer.sock.tx.sndNxt, got)
    requires got != m.a.peer.written && |got| <= |m.a.peer.written|
    requires InRange(Plainly(m), p, k) && k + |m.b.peer.written| + m.b.peer.sock.cc.smss < 0x1_0000_0000
    requires IsNetRun(m, xs) && SameWritten(Plainly(m), Plainly(NetRun(m, xs)))
    ensures NetRun(m, xs).b.peer.delivered != m.a.peer.written
  {
    var es := RunProjects(m, xs);
    NothingMoreArrives(Plainly(m), es, p, k, m.b.peer.sock.tx.sndNxt, got);
  }

  /** With the network empty and nothing left to send at `b`, what `a` has written and `b` has not received
      can still arrive exactly when `a` does not expect a number that `b` has never sent. A passive opener
      gets there by writing two bytes (`Opening.ExpectsUnsent`). */
  lemma {:induction false} ArrivesIff(n: Net, xs: seq<Action>, p: u32, q: u32)
    requires Begun(n, p, q) && IsNetRun(n, xs) && Open(NetRun(n, xs))
    requires InBounds(Plainly(n), Plainly(NetRun(n, xs)), p)
    requires NetRun(n, xs).a.peer.sock.tx.queue != [] ==> NetRun(n, xs).a.est.rto <= 60000
    requires var m := NetRun(n, xs);
      && m.b.peer.unsent == [] && Flat(m.b.peer.received) != m.a.peer.written
      && m.b.peer.sock.tx.sndNxt <= m.a.peer.sock.rx.rcvNxt + m.a.peer.sock.rx.rcvWnd < 0x1_0000_0000
    ensures var m := Remaining(n, xs, {}, {});
      CanFinish(m) <==> m.a.peer.sock.rx.rcvNxt <= m.b.peer.sock.tx.sndNxt
  {
    var m, k := Remaining(n, xs, {}, {}), First(n.b.peer);
    if m.a.peer.sock.rx.rcvNxt <= m.b.peer.sock.tx.sndNxt {
      var more := EverythingCanArrive(n, xs, p, q, {}, {});
      assert IsNetRun(m, more);
    } else {
      IsDeaf(n, xs, p, q);
      forall more | IsNetRun(m, more) && SameWritten(Plainly(m), Plainly(NetRun(m, more)))
        ensures NetRun(m, more).b.peer.delivered != m.a.peer.written
      {
        CannotFinish(m, more, p, k, Flat(m.b.peer.received));
      }
    }
  }

  lemma {:induction false} IsDeaf(n: Net, xs: seq<Action>, p: u32, q: u32)
    requires Begun(n, p, q) && IsNetRun(n, xs) && Open(NetRun(n, xs)) && InBounds(Plainly(n), Plainly(NetRun(n, xs)), p)
    requires NetRun(n, xs).b.peer.unsent == []
    requires NetRun(n, xs).a.peer.sock.rx.rcvNxt > NetRun(n, xs).b.peer.sock.tx.sndNxt
    ensures var m := Remaining(n, xs, {}, {});
      && Deaf(Plainly(m), p, First(n.b.peer), m.b.peer.sock.tx.sndNxt, Flat(m.b.peer.received))
      && |Flat(m.b.peer.received)| <= |m.a.peer.written| && m.b.peer.sock.cc.smss == n.b.peer.sock.cc.smss
  {
    var s := Plainly(n);
    var es := RunProjects(n, xs);
    OpenMeansNoAbort(n, xs);
    EstablishedCoupled(s, p, q);
    RunCoupled(s, es, p, First(n.b.peer));
    StartRegulated(s.a, p, q);
    RunKept(s, es, p, First(n.b.peer));
    var t := Run(s, es);
    SenderSpeaks(t, p, First(n.b.peer));
    var u: nat, acc: set<nat> :| Direction(t.a, t.b, t.ab, t.ba, p, u, acc);
    FlatOfPrefix(t.b.received, t.a.chunks);
  }
}
