/** Recovering a queue by timeouts alone: each round is a timeout, and the acknowledgement of the head
    that it has sent again. Karn's rule keeps the doubled RTO until the queue is empty, so a connection can
    be given up although every repeat is acknowledged. */
module Rounds {
  import opened Words
  import opened TcpData
  import opened TcpOutput
  import opened TcpInput
  import opened Transfer
  import opened TimerWheel
  import opened RtoEpoch
  import Rtt

  /** `g` acknowledges exactly the head of the queue. */
  predicate HeadAck(p: Peer, g: Segment) {
    && p.sock.tx.queue != [] && g.payload == [] && !g.psh && Verify(p.sock.rx, g.seqno, 0)
    && g.ackno == p.sock.tx.queue[0].endSeq && Advances(p.sock.tx, g.ackno)
  }

  /** An open connection with an armed timer and something queued. */
  ghost predicate Waiting(c: Conn) {
    !c.closed && SendInv(c.peer.sock.tx) && 0 < c.peer.sock.cc.smss && Ticking(c) && c.peer.sock.tx.queue != []
  }

  // ----- the acknowledgement

  lemma {:induction false} HeadLeaves(tx: Tx)
    requires SendInv(tx) && tx.queue != []
    ensures var una := tx.queue[0].endSeq;
      Clean(tx.(sndUna := una), una).queue == tx.queue[1..]
  {
    var q := tx.queue;
    if |q| > 1 {
      assert Covers(q[1..], q[0].endSeq, tx.sndNxt);
      assert q[1..][0].endSeq > q[0].endSeq;
    }
    assert Acked(q[1..], q[0].endSeq) == 0;
    assert Acked(q, q[0].endSeq) == 1;
  }

  /** With timeouts since the last measurement, an acceptable segment that is no duplicate ACK and leaves
      something queued changes neither the estimate nor the back-off (Karn's rule). */
  lemma {:induction false} KarnKeeps(c: Conn, g: Segment)
    requires Numbered(c.peer.sock.tx) && Verify(c.peer.sock.rx, g.seqno, |g.payload|) && !IsDupack(c.peer.sock, g)
    requires QueueInv(c.peer.sock.tx) && c.backoff > 0 && Input(c.peer.sock, g).sock.tx.queue != [] && Ticking(c)
    ensures var d := AppStep(c, Deliver(g));
      d.est == c.est && d.backoff == c.backoff && Ticking(d) && d.closed == c.closed
      && d.peer == PeerStep(c.peer, Deliver(g)).peer
  {
    var s := c.peer.sock;
    InputTimerRequests(s, g);
    var o1 := AckPath(s, g.ackno);
    assert o1.ops == [] || o1.ops == [Sample] by {
      if Advances(s.tx, g.ackno) {
        CleanKeeps(s.tx, g.ackno);
      }
    }
    var c1 := c.(peer := PeerStep(c.peer, Deliver(g)).peer);
    assert SampleRtt(c1) == c1;
    OpsApplied(c1, o1.ops, Input(s, g).ops);
  }

  lemma {:induction false} OpsApplied(c: Conn, some: seq<RtoOp>, ops: seq<RtoOp>)
    requires some == [] || some == [Sample]
    requires ops == some || ops == some + [Rearm]
    requires SampleRtt(c) == c
    ensures ApplyOps(c, ops) == c || ApplyOps(c, ops) == RearmTimer(c)
  {
    assert [Rearm][1..] == [] && [Sample][1..] == [] && ([Sample] + [Rearm])[1..] == [Rearm];
    assert [] + [Rearm] == [Rearm];
  }

  lemma {:induction false} AckTaken(c: Conn, g: Segment)
    requires Waiting(c) && HeadAck(c.peer, g)
    ensures var d := AppStep(c, Deliver(g));
      && d.peer.sock.tx.queue == c.peer.sock.tx.queue[1..] && !d.closed && d.peer.sock.rx == c.peer.sock.rx
      && SendInv(d.peer.sock.tx) && d.peer.sock.cc.smss == c.peer.sock.cc.smss
      && (d.peer.sock.tx.queue != [] && c.backoff > 0 ==> Waiting(d) && d.est == c.est && d.backoff == c.backoff)
  {
    var s := c.peer.sock;
    NumbersAssigned(s.tx);
    InputTimerRequests(s, g);
    InputEffect(s, g);
    HeadLeaves(s.tx);
    CleanKeeps(s.tx, g.ackno);
    SmssKept(s, g);
    OpsKeepState(c.(peer := PeerStep(c.peer, Deliver(g)).peer), StepOps(c.peer, Deliver(g)));
    if Input(s, g).sock.tx.queue != [] && c.backoff > 0 {
      KarnKeeps(c, g);
    }
  }

  lemma {:induction false} OpsKeepState(c: Conn, ops: seq<RtoOp>)
    ensures ApplyOps(c, ops).peer == c.peer && ApplyOps(c, ops).closed == c.closed
    decreases |ops|
  {
    if ops != [] {
      OpsKeepState(ApplyOp(c, ops[0]), ops[1..]);
    }
  }

  // ----- rounds

  /** One round: the timer list when the callback runs and when the acknowledgement arrives, whatever the
      tick thread and the other timers did in between, and the acknowledgement. */
  datatype Turn = Turn(callback: Wheel, arrival: Wheel, ack: Segment)

  function TimedOut(c: Conn, t: Turn): Conn
    requires c.slot.Some?
  {
    Callback(c.(wheel := t.callback), c.slot.value)
  }

  function Round(c: Conn, t: Turn): Conn
    requires c.slot.Some?
  {
    var c1 := TimedOut(c, t);
    if c1.closed then c1 else AppStep(c1.(wheel := t.arrival), Deliver(t.ack))
  }

  /** The connection `d` is `c` after one round in which the repeat is acknowledged. */
  ghost predicate Step(c: Conn, t: Turn, d: Conn) {
    Waiting(c) && HeadAck(c.peer, t.ack) && d == Round(c, t)
  }

  /** Rounds one after the other. */
  ghost predicate Chain(cs: seq<Conn>, ts: seq<Turn>) {
    |cs| == |ts| + 1 && forall i :: 0 <= i < |ts| ==> Step(cs[i], ts[i], cs[i + 1])
  }

  /** The queue is empty and the connection is open. */
  predicate Drained(c: Conn) {
    !c.closed && c.peer.sock.tx.queue == []
  }

  /** Rounds until the queue is empty or the connection is closed. */
  ghost predicate ToTheEnd(cs: seq<Conn>, ts: seq<Turn>) {
    Chain(cs, ts) && var d := cs[|ts|]; d.closed || d.peer.sock.tx.queue == []
  }

  lemma {:induction false} ChainRest(cs: seq<Conn>, ts: seq<Turn>, k: nat)
    requires Chain(cs, ts) && k <= |ts|
    ensures Chain(cs[k..], ts[k..]) && cs[k..][0] == cs[k]
    ensures ToTheEnd(cs, ts) ==> ToTheEnd(cs[k..], ts[k..])
    ensures cs[k..][|ts[k..]|] == cs[|ts|]
  {
    var ds, us := cs[k..], ts[k..];
    forall i | 0 <= i < |us|
      ensures Step(ds[i], us[i], ds[i + 1])
    {
      assert Step(cs[k + i], ts[k + i], cs[k + i + 1]);
    }
  }

  lemma {:induction false} OneRound(c: Conn, t: Turn, d: Conn)
    requires Step(c, t, d) && c.est.rto <= 60000
    ensures !d.closed && |d.peer.sock.tx.queue| == |c.peer.sock.tx.queue| - 1
    ensures d.peer.sock.tx.queue != [] && Inc8(c.backoff) > 0 ==>
      Waiting(d) && d.est == c.est.(rto := 2 * c.est.rto) && d.backoff == Inc8(c.backoff)
    ensures d.peer.sock.tx.queue != [] && Inc8(c.backoff) == 0 && c.est.srtt >= 0 ==>
      Waiting(d) && (d.est == c.est.(rto := 2 * c.est.rto) || d.est.rto >= 200) && d.backoff == 0
  {
    var c0 := c.(wheel := t.callback);
    var c1 := TimedOut(c, t);
    OneTimeout(c0, c1);
    TimeoutEstimate(c0);
    RetransmitKeepsSender(c.peer);
    var c2 := c1.(wheel := t.arrival);
    assert Waiting(c2) && HeadAck(c2.peer, t.ack);
    AckTaken(c2, t.ack);
    if |c.peer.sock.tx.queue| > 1 && Inc8(c.backoff) == 0 && c.est.srtt >= 0 {
      AckMeasures(c2, t.ack);
    }
  }

  lemma {:induction false} TimeoutEstimate(c: Conn)
    requires Ticking(c) && !c.closed && c.peer.sock.tx.queue != [] && c.est.rto <= 60000
    ensures Callback(c, c.slot.value).est == c.est.(rto := 2 * c.est.rto)
  {
    assert Callback(c, c.slot.value) == Fire(c).(wheel := Finish(Fire(c).wheel, c.slot.value));
  }

  lemma {:induction false} GivenUp(c: Conn, t: Turn, d: Conn)
    requires Step(c, t, d) && c.est.rto > 60000
    ensures d.closed
  {
    OneTimeout(c.(wheel := t.callback), TimedOut(c, t));
  }

  lemma {:induction false} AckMeasures(c: Conn, g: Segment)
    requires Waiting(c) && HeadAck(c.peer, g) && c.backoff == 0 && c.est.srtt >= 0 && |c.peer.sock.tx.queue| > 1
    ensures var d := AppStep(c, Deliver(g));
      Waiting(d) && d.backoff == 0 && (d.est == c.est || d.est.rto >= 200)
  {
    var s := c.peer.sock;
    AckTaken(c, g);
    NumbersAssigned(s.tx);
    InputTimerRequests(s, g);
    CleanKeeps(s.tx, g.ackno);
    HeadLeaves(s.tx);
    assert AckPath(s, g.ackno).ops == [Sample];
    var c1 := c.(peer := PeerStep(c.peer, Deliver(g)).peer);
    SampledOps(c1, Input(s, g).ops);
    MeasuresAtLeast(c1);
  }

  lemma {:induction false} SampledOps(c: Conn, ops: seq<RtoOp>)
    requires ops == [Sample] || ops == [Sample] + [Rearm]
    ensures ApplyOps(c, ops) == SampleRtt(c) || ApplyOps(c, ops) == RearmTimer(SampleRtt(c))
  {
    assert [Rearm][1..] == [] && [Sample][1..] == [] && ([Sample] + [Rearm])[1..] == [Rearm];
  }

  lemma {:induction false} MeasuresAtLeast(c: Conn)
    requires c.est.srtt >= 0
    ensures var d := SampleRtt(c);
      d == c.(est := d.est) && (d.est == c.est || d.est.rto >= 200)
  {
  }

  lemma {:induction false} NoRounds(cs: seq<Conn>, ts: seq<Turn>)
    requires Chain(cs, ts) && ts != [] && (cs[1].closed || cs[1].peer.sock.tx.queue == [])
    ensures |ts| == 1
  {
    if |ts| > 1 {
      NextWaits(cs, ts);
    }
  }

  lemma {:induction false} NextWaits(cs: seq<Conn>, ts: seq<Turn>)
    requires Chain(cs, ts) && |ts| > 1
    ensures Waiting(cs[1])
  {
    assert Step(cs[1], ts[1], cs[2]);
  }

  /** Recovering a queue by timeouts alone, every repeat being acknowledged: the queue is drained with the
      connection open exactly when it holds no more segments than the RTO survives timeouts. */
  lemma {:induction false} DrainsIff(cs: seq<Conn>, ts: seq<Turn>)
    requires ToTheEnd(cs, ts) && Waiting(cs[0])
    requires cs[0].est.rto >= 1 && cs[0].backoff + Rtt.Survives(cs[0].est.rto) < 255
    ensures Drained(cs[|ts|]) <==> |cs[0].peer.sock.tx.queue| <= Rtt.Survives(cs[0].est.rto)
    decreases |ts|
  {
    var c, d := cs[0], cs[1];
    assert Step(c, ts[0], d);
    ChainRest(cs, ts, 1);
    if c.est.rto > Rtt.MAX_RTO {
      GivenUp(c, ts[0], d);
      NoRounds(cs, ts);
    } else {
      OneRound(c, ts[0], d);
      if d.peer.sock.tx.queue == [] {
        NoRounds(cs, ts);
      } else {
        DrainsIff(cs[1..], ts[1..]);
      }
    }
  }

  /** With an RTO of zero nothing grows: while the 8-bit count does not wrap, everything is recovered. */
  lemma {:induction false} ZeroDrains(cs: seq<Conn>, ts: seq<Turn>)
    requires ToTheEnd(cs, ts) && Waiting(cs[0])
    requires cs[0].est.rto == 0 && cs[0].backoff + |cs[0].peer.sock.tx.queue| <= 256
    ensures Drained(cs[|ts|])
    decreases |ts|
  {
    var c, d := cs[0], cs[1];
    assert Step(c, ts[0], d);
    ChainRest(cs, ts, 1);
    OneRound(c, ts[0], d);
    if d.peer.sock.tx.queue == [] {
      NoRounds(cs, ts);
    } else {
      ZeroDrains(cs[1..], ts[1..]);
    }
  }

  /** `d` is `c` after `k` rounds with an RTO of zero, in which the count did not wrap. */
  ghost predicate ZeroAfter(c: Conn, d: Conn, k: nat) {
    && Waiting(d) && d.est == c.est && d.backoff == c.backoff + k
    && |d.peer.sock.tx.queue| == |c.peer.sock.tx.queue| - k
  }

  lemma {:induction false} ZeroNext(c: Conn, b: Conn, t: Turn, d: Conn, k: nat)
    requires ZeroAfter(c, b, k) && c.est.rto == 0 && Step(b, t, d)
    requires c.backoff + k + 1 < 256 && k + 1 < |c.peer.sock.tx.queue|
    ensures ZeroAfter(c, d, k + 1)
  {
    OneRound(b, t, d);
  }

  lemma {:induction false} ZeroGoesOn(cs: seq<Conn>, ts: seq<Turn>, k: nat)
    requires Chain(cs, ts) && Waiting(cs[0]) && cs[0].est.rto == 0 && cs[0].backoff + k < 256
    requires k <= |ts| && k < |cs[0].peer.sock.tx.queue|
    ensures ZeroAfter(cs[0], cs[k], k)
    decreases k
  {
    if k > 0 {
      ZeroGoesOn(cs, ts, k - 1);
      ZeroNext(cs[0], cs[k - 1], ts[k - 1], cs[k], k - 1);
    }
  }

  /** After 256 rounds the count is back at zero and the connection is open. Either nothing has been
      measured then, or the RTO is at least 200 and `DrainsIff` decides about the rest. */
  lemma {:induction false} ZeroWraps(cs: seq<Conn>, ts: seq<Turn>)
    requires ToTheEnd(cs, ts) && Waiting(cs[0]) && cs[0].est.rto == 0 && cs[0].backoff == 0 && cs[0].est.srtt >= 0
    requires 256 < |cs[0].peer.sock.tx.queue|
    ensures 256 <= |ts|
    ensures var d := cs[256];
      && Waiting(d) && d.backoff == 0 && |d.peer.sock.tx.queue| == |cs[0].peer.sock.tx.queue| - 256
      && (d.est.rto == 0 || d.est.rto >= 200) && ToTheEnd(cs[256..], ts[256..])
  {
    if |ts| < 256 {
      ZeroGoesOn(cs, ts, |ts|);
    }
    ZeroGoesOn(cs, ts, 255);
    assert Step(cs[255], ts[255], cs[256]);
    OneRound(cs[255], ts[255], cs[256]);
    ChainRest(cs, ts, 256);
  }

  // ----- a run that is given up

  /** The acknowledgement that a peer sends for the head. */
  function AckOfHead(p: Peer): Segment
    requires p.sock.tx.queue != []
  {
    Segment(p.sock.rx.rcvNxt, p.sock.tx.queue[0].endSeq, p.sock.lastAckWin, [], false)
  }

  lemma {:induction false} AckOfHeadIs(p: Peer)
    requires SendInv(p.sock.tx) && p.sock.tx.queue != [] && p.sock.rx.rcvNxt + p.sock.rx.rcvWnd < 0x1_0000_0000
    ensures HeadAck(p, AckOfHead(p))
  {
    var q := p.sock.tx.queue;
    CoversOrdered(q[1..], q[0].endSeq, p.sock.tx.sndNxt);
  }

  /** The timeout of an open connection with an RTO of at most 60 seconds, as moves. */
  lemma {:induction false} TimeoutMoves(c: Conn) returns (ms: seq<Move>, d: Conn)
    requires ConnInv(c) && !c.closed && c.peer.sock.tx.queue != []
    ensures RtoEpoch.IsRun(c, ms) && d == RtoEpoch.Run(c, ms) && ConnInv(d)
    ensures d.closed == (c.est.rto > 60000) && |d.peer.sock.tx.queue| == |c.peer.sock.tx.queue|
    ensures !d.closed ==> d.peer == PeerStep(c.peer, RtoFires).peer
    ensures !d.closed ==> d.est == c.est.(rto := 2 * c.est.rto) && d.backoff == Inc8(c.backoff)
  {
    var ns := TimeoutComes(c);
    var e := RtoEpoch.Run(c, ns);
    var m := CallbackRuns(c.slot.value);
    OneTimeout(e, Next(e, m));
    if c.est.rto <= 60000 {
      TimeoutEstimate(e);
    }
    assert [m][1..] == [];
    RtoEpoch.RunThen(c, ns, [m]);
    ms := ns + [m];
    d := Next(e, m);
    NextKeeps(e, m);
  }

  /** Every timeout is answered by the acknowledgement of the head it has sent, and after as many rounds as
      the RTO survives the connection is given up with the rest still queued. */
  lemma {:induction false} GivenUpAlthoughAcknowledged(c: Conn) returns (ms: seq<Move>)
    requires ConnInv(c) && !c.closed && c.est.rto >= 1 && c.backoff + Rtt.Survives(c.est.rto) < 255
    requires |c.peer.sock.tx.queue| > Rtt.Survives(c.est.rto)
    requires c.peer.sock.rx.rcvNxt + c.peer.sock.rx.rcvWnd < 0x1_0000_0000
    ensures RtoEpoch.IsRun(c, ms) && RtoEpoch.Run(c, ms).closed
    ensures |RtoEpoch.Run(c, ms).peer.sock.tx.queue| == |c.peer.sock.tx.queue| - Rtt.Survives(c.est.rto)
    decreases Rtt.Survives(c.est.rto)
  {
    var d;
    ms, d := TimeoutMoves(c);
    if c.est.rto <= Rtt.MAX_RTO {
      AckOfHeadIs(d.peer);
      var a := App(Deliver(AckOfHead(d.peer)));
      AckTaken(d, AckOfHead(d.peer));
      NextKeeps(d, a);
      var e := Next(d, a);
      var ns := GivenUpAlthoughAcknowledged(e);
      RunFront(d, a, ns);
      RtoEpoch.RunThen(c, ms, [a] + ns);
      ms := ms + ([a] + ns);
    }
  }

  // ----- the count in reachable states

  /** A count above zero bounds the RTO from below, unless that is zero. */
  ghost predicate Doubled(c: Conn) {
    && c.est.srtt >= 0 && c.est.rto >= 0
    && (c.backoff > 0 && c.est.rto >= 1 ==> Pow2(c.backoff) <= c.est.rto <= 120000)
  }

  lemma {:induction false} OpsDoubled(c: Conn, ops: seq<RtoOp>)
    requires Doubled(c)
    ensures Doubled(ApplyOps(c, ops))
    decreases |ops|
  {
    if ops != [] {
      OpsDoubled(ApplyOp(c, ops[0]), ops[1..]);
    }
  }

  lemma {:induction false} FireDoubled(c: Conn)
    requires Doubled(c)
    ensures Doubled(Fire(c))
  {
    assert Pow2(c.backoff + 1) == 2 * Pow2(c.backoff);
  }

  lemma {:induction false} RunDoubled(c: Conn, ms: seq<Move>)
    requires Doubled(c) && RtoEpoch.IsRun(c, ms)
    ensures Doubled(RtoEpoch.Run(c, ms))
    decreases |ms|
  {
    if ms != [] {
      var d := Next(c, ms[0]);
      match ms[0] {
        case App(a) =>
          OpsDoubled(c.(peer := PeerStep(c.peer, a).peer, timeWait := c.timeWait || Settles(c.peer, a)), StepOps(c.peer, a));
        case CallbackRuns(id) => FireDoubled(c);
        case _ =>
      }
      RunDoubled(d, ms[1..]);
    }
  }

  lemma {:induction false} PowGrows(a: nat, b: nat)
    requires a <= b
    ensures Pow2(a) <= Pow2(b)
    decreases b
  {
    if a < b {
      PowGrows(a, b - 1);
    }
  }

  lemma {:induction false} SmallCount(b: nat)
    ensures b >= 17 ==> Pow2(b) > 120000
  {
    assert Pow2(5) == 32;
    assert Pow2(11) == 64 * Pow2(5);
    assert Pow2(17) == 64 * Pow2(11);
    if b >= 17 {
      PowGrows(17, b);
    }
  }

  /** In every reachable state with a non-zero RTO the count is small, as `DrainsIff` asks. */
  lemma {:induction false} CountStaysSmall(c: Conn, ms: seq<Move>)
    requires c.backoff == 0 && c.est.srtt >= 0 && c.est.rto >= 0 && RtoEpoch.IsRun(c, ms)
    ensures var d := RtoEpoch.Run(c, ms);
      d.est.rto >= 1 ==> d.backoff + Rtt.Survives(d.est.rto) < 255
  {
    var d := RtoEpoch.Run(c, ms);
    RunDoubled(c, ms);
    if d.est.rto >= 1 {
      Rtt.SurvivesAtMostSixteen(d.est.rto);
      SmallCount(d.backoff);
    }
  }
}
