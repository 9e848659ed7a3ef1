/** What `tcp_rtt` measures (src/tcp.c). It has no record of when the timer was armed and computes that
    from the deadline and the present RTO, so the sample is the time since then exactly while the RTO has
    stayed the same. */
module RttSamples {
  import opened Words
  import opened TcpData
  import opened TcpOutput
  import opened TcpInput
  import opened Transfer
  import opened TimerWheel
  import opened RtoEpoch
  import Rtt

  /** Later states of a timer list: time has gone on, and every timer has kept the deadline it was created
      with. */
  ghost predicate Later(w: Wheel, w': Wheel) {
    && w.tick <= w'.tick && w.nextId <= w'.nextId
    && (forall id :: id in w.deadline && id < w.nextId ==> id in w'.deadline && w'.deadline[id] == w.deadline[id])
  }

  lemma {:induction false} ApplyLater(w: Wheel, op: TimerWheel.Op)
    requires TimerWheel.Enabled(w, op)
    ensures Later(w, Apply(w, op))
  {
  }

  lemma {:induction false} RearmLater(c: Conn)
    ensures Later(c.wheel, RearmTimer(c).wheel)
  {
    assert Later(c.wheel, ReleaseSlot(c).wheel);
  }

  lemma {:induction false} StopLater(c: Conn)
    ensures Later(c.wheel, StopTimer(c).wheel)
  {
  }

  lemma {:induction false} OpsLater(c: Conn, ops: seq<RtoOp>)
    ensures Later(c.wheel, ApplyOps(c, ops).wheel)
    decreases |ops|
  {
    if ops != [] {
      var d := ApplyOp(c, ops[0]);
      assert Later(c.wheel, d.wheel) by {
        match ops[0]
        case Sample =>
        case Stop => StopLater(c);
        case Rearm => RearmLater(c);
      }
      OpsLater(d, ops[1..]);
    }
  }

  lemma {:induction false} FireLater(c: Conn)
    ensures Later(c.wheel, Fire(c).wheel)
  {
    var c1 := ReleaseSlot(c);
    assert Later(c.wheel, c1.wheel);
    if c.peer.sock.tx.queue != [] {
      var c2 := c1.(peer := PeerStep(c.peer, RtoFires).peer);
      if c.est.rto > 60000 {
        StopLater(c2.(peer := PeerStep(c2.peer, Discard).peer));
      } else {
        RearmLater(c2.(est := c.est.(rto := 2 * c.est.rto), backoff := Inc8(c.backoff)));
      }
    }
  }

  lemma {:induction false} NextLater(c: Conn, m: Move)
    requires CanMove(c, m)
    ensures Later(c.wheel, Next(c, m).wheel)
  {
    match m
    case App(a) =>
      OpsLater(c.(peer := PeerStep(c.peer, a).peer, timeWait := c.timeWait || Settles(c.peer, a)), StepOps(c.peer, a));
    case CallbackRuns(id) => FireLater(c);
    case Timers(op) => ApplyLater(c.wheel, op);
    case Abort => StopLater(c.(peer := PeerStep(PeerStep(c.peer, Forsake).peer, Discard).peer));
    case Reset => StopLater(c);
    case Linger => StopLater(c.(peer := PeerStep(c.peer, Discard).peer));
  }

  lemma {:induction false} RunLater(c: Conn, ms: seq<Move>)
    requires RtoEpoch.IsRun(c, ms)
    ensures Later(c.wheel, RtoEpoch.Run(c, ms).wheel)
    decreases |ms|
  {
    if ms != [] {
      NextLater(c, ms[0]);
      RunLater(Next(c, ms[0]), ms[1..]);
    }
  }

  /** The timer has just been armed. */
  ghost predicate JustArmed(c: Conn) {
    && c.slot.Some? && c.slot.value in c.wheel.deadline && c.est.rto >= 0
    && c.wheel.deadline[c.slot.value] == c.wheel.tick + c.est.rto
  }

  lemma {:induction false} RearmArms(c: Conn)
    requires c.est.rto >= 0
    ensures JustArmed(RearmTimer(c))
  {
  }

  lemma {:induction false} KeepsDeadline(w: Wheel, w': Wheel, id: nat)
    requires Inv(w) && Inv(w') && Later(w, w') && id in w.held && id in w'.held && id in w.deadline
    ensures id in w'.timers && w'.timers[id].expires == w.deadline[id]
  {
    HeldIsListed(w, id);
    assert Ok(w', id);
  }

  /** A measurement at the end of any run that has not rearmed the timer nor seen a timeout: the sample
      is the time since the timer was armed plus whatever the RTO has grown meanwhile, and a negative sample
      is thrown away. With the RTO unchanged it is exactly the time that has passed. */
  lemma {:induction false} SampleTheorem(c: Conn, ms: seq<Move>)
    requires ConnInv(c) && JustArmed(c) && RtoEpoch.IsRun(c, ms)
    requires var d := RtoEpoch.Run(c, ms); d.slot == c.slot && d.backoff == 0
    ensures var d := RtoEpoch.Run(c, ms);
      var elapsed, growth := d.wheel.tick - c.wheel.tick, d.est.rto - c.est.rto;
      && elapsed >= 0
      && (elapsed + growth >= 0 ==> SampleRtt(d) == d.(est := Rtt.Measure(d.est, elapsed + growth)))
      && (elapsed + growth < 0 ==> SampleRtt(d) == d)
      && (growth == 0 ==> SampleRtt(d) == d.(est := Rtt.Measure(d.est, elapsed)))
  {
    var d, id := RtoEpoch.Run(c, ms), c.slot.value;
    assert id in d.wheel.timers && d.wheel.timers[id].expires == c.wheel.tick + c.est.rto && c.wheel.tick <= d.wheel.tick by {
      RtoEpoch.RunKeeps(c, ms);
      RunLater(c, ms);
      KeepsDeadline(c.wheel, d.wheel, id);
    }
  }

  /** An acknowledgement that leaves something queued and comes with a number other than `rcv_nxt` is
      measured without rearming the timer. */
  lemma {:induction false} MeasuredButNotRearmed(c: Conn, g: Segment)
    requires ConnInv(c) && !c.closed && Verify(c.peer.sock.rx, g.seqno, |g.payload|)
    requires Advances(c.peer.sock.tx, g.ackno) && g.seqno != c.peer.sock.rx.rcvNxt
    requires Input(c.peer.sock, g).sock.tx.queue != []
    ensures AppStep(c, Deliver(g)) == SampleRtt(c.(peer := PeerStep(c.peer, Deliver(g)).peer))
    ensures AppStep(c, Deliver(g)).slot == c.slot && AppStep(c, Deliver(g)).wheel == c.wheel
  {
    var s := c.peer.sock;
    NumbersAssigned(s.tx);
    InputTimerRequests(s, g);
    CleanKeeps(s.tx, g.ackno);
    UnexpectedOps(s, g);
    assert [Sample][1..] == [];
  }

  lemma {:induction false} UnexpectedOps(s: Sock, g: Segment)
    requires Verify(s.rx, g.seqno, |g.payload|) && Advances(s.tx, g.ackno) && g.seqno != s.rx.rcvNxt
    requires !StopsTimer(AckPath(s, g.ackno).sock.tx)
    ensures Input(s, g).ops == [Sample]
  {
    WindowUpdateIsDead(s, g);
    assert [Sample] + [] == [Sample];
  }
}
