/** The retransmission timer of a connection that `tcp_done` has closed can be armed again: the write
    queue and the bytes in flight stay, segments still reach the socket in TCP_CLOSING, and a writer that
    was asleep goes on. */
module AfterClose {
  import opened Words
  import opened Stream
  import opened TcpData
  import opened Congestion
  import opened TcpOutput
  import opened TcpInput
  import opened Transfer
  import opened RtoEpoch
  import opened Acceptance

  /** The current timer of `d` is due `rto` after the tick at which `c` stood. */
  ghost predicate ArmedFrom(c: Conn, d: Conn) {
    && d.closed && d.slot.Some? && Carrier(d, d.slot.value)
    && d.slot.value in d.wheel.timers && d.wheel.timers[d.slot.value].expires == c.wheel.tick + Max(c.est.rto, 0)
  }

  /** The queue, the receive side, the application and the estimate are as they were. */
  ghost predicate SameSide(c: Conn, d: Conn) {
    && d.peer.sock.tx == c.peer.sock.tx && d.peer.sock.rx == c.peer.sock.rx && d.est == c.est
    && d.peer.written == c.peer.written
  }

  lemma {:induction false} RearmIsCarrier(c: Conn, c1: Conn)
    requires c1 == c.(peer := c1.peer, timeWait := c1.timeWait) && c.closed
    ensures ArmedFrom(c, RearmTimer(c1))
  {
  }

  /** The third duplicate ACK after the close arms the timer again. */
  lemma {:induction false} ThirdDuplicateRevives(c: Conn, g: Segment)
    requires ConnInv(c) && c.closed && !c.timeWait && ThirdDuplicate(c.peer, Late(g))
    ensures CanMove(c, App(Late(g))) && ArmedFrom(c, Next(c, App(Late(g)))) && SameSide(c, Next(c, App(Late(g))))
  {
    NumbersAssigned(c.peer.sock.tx);
    LateDuplicate(c.peer.sock, g);
    var c1 := c.(peer := PeerStep(c.peer, Late(g)).peer, timeWait := c.timeWait || Settles(c.peer, Late(g)));
    assert [Rearm][1..] == [];
    assert Next(c, App(Late(g))) == RearmTimer(c1);
    RearmIsCarrier(c, c1);
  }

  /** So does a writer that was asleep and finds nothing queued. */
  lemma {:induction false} WriterRevives(c: Conn)
    requires c.closed && c.peer.sock.tx.queue == [] && CanMove(c, App(SendSegment))
    ensures ArmedFrom(c, Next(c, App(SendSegment)))
  {
    var c1 := c.(peer := PeerStep(c.peer, SendSegment).peer);
    assert [Rearm][1..] == [];
    assert Next(c, App(SendSegment)) == RearmTimer(c1);
    RearmIsCarrier(c, c1);
  }

  /** After a connection has been given up, such a timer is due more than sixty seconds later; the socket
      is freed ten seconds after the close. */
  lemma {:induction false} OutlivesTheSocket(c: Conn, d: Conn)
    requires ArmedFrom(c, d) && c.est.rto > 60000
    ensures d.wheel.timers[d.slot.value].expires > c.wheel.tick + 60000 > c.wheel.tick + 10000
  {
  }

  // ----- a run to such a state

  /** `h` is a duplicate ACK for the closed connection. */
  ghost predicate Duplicate(c: Conn, h: Segment) {
    && ConnInv(c) && c.closed && !c.timeWait
    && Verify(c.peer.sock.rx, h.seqno, |h.payload|) && IsDupack(c.peer.sock, h)
  }

  lemma {:induction false} OneDuplicate(c: Conn, h: Segment)
    requires Duplicate(c, h) && c.peer.sock.cc.dupacks < 2
    ensures CanMove(c, App(Late(h))) && !Revives(c, App(Late(h)))
    ensures var d := Next(c, App(Late(h)));
      Duplicate(d, h) && d.peer.sock.cc.dupacks == c.peer.sock.cc.dupacks + 1 && SameSide(c, d)
  {
    var s, d := c.peer.sock, Next(c, App(Late(h)));
    FirstDuplicates(s, h);
    assert d == c.(peer := c.peer.(sock := s.(cc := s.cc.(dupacks := s.cc.dupacks + 1))));
    assert ConnInv(d) by {
      AppKeeps(c, Late(h));
    }
  }

  /** The first two duplicates are only counted. */
  lemma {:induction false} FirstDuplicates(s: Sock, h: Segment)
    requires QueueInv(s.tx) && Verify(s.rx, h.seqno, |h.payload|) && IsDupack(s, h) && s.cc.dupacks < 2
    ensures LateInput(s, h).sock == s.(cc := s.cc.(dupacks := s.cc.dupacks + 1)) && LateInput(s, h).ops == []
  {
    NumbersAssigned(s.tx);
    DupackPathEffect(s);
  }

  lemma {:induction false} DuplicatesRevive(c: Conn, h: Segment) returns (ms: seq<Move>)
    requires Duplicate(c, h) && c.peer.sock.cc.dupacks <= 2
    ensures RtoEpoch.IsRun(c, ms) && RtoEpoch.Run(c, ms).closed && Live(RtoEpoch.Run(c, ms)) && Revived(c, ms)
    ensures SameSide(c, RtoEpoch.Run(c, ms)) && forall i :: 0 <= i < |ms| ==> ms[i] == App(Late(h))
    decreases 2 - c.peer.sock.cc.dupacks
  {
    var m := App(Late(h));
    if c.peer.sock.cc.dupacks == 2 {
      ThirdDuplicateRevives(c, h);
      ms := [m];
      assert ms[1..] == [];
    } else {
      OneDuplicate(c, h);
      var ns := DuplicatesRevive(Next(c, m), h);
      RunFront(c, m, ns);
      ms := [m] + ns;
      assert ms[1..] == ns;
    }
  }

  /** A duplicate ACK for a connection that has just been aborted: its number is `snd_nxt`. */
  function AbortDuplicate(c: Conn): Segment {
    Segment(c.peer.sock.rx.rcvNxt, c.peer.sock.tx.sndNxt, c.peer.sock.lastAckWin, [], false)
  }

  lemma {:induction false} AbortedHears(c: Conn)
    requires ConnInv(c) && c.peer.sock.tx.queue != [] && c.peer.sock.rx.rcvNxt + c.peer.sock.rx.rcvWnd < 0x1_0000_0000
    ensures Duplicate(Next(c, Abort), AbortDuplicate(c)) && Next(c, Abort).peer.sock.cc == c.peer.sock.cc
  {
    NextKeeps(c, Abort);
    CoversOrdered(c.peer.sock.tx.queue, Front(c.peer.sock.tx), c.peer.sock.tx.sndNxt);
  }

  /** Any connection with something queued, once aborted, has its timer armed again by three
      acknowledgements of `snd_nxt`. */
  lemma {:induction false} AbortThenArmed(c: Conn) returns (ms: seq<Move>)
    requires ConnInv(c) && c.peer.sock.tx.queue != [] && c.peer.sock.cc.dupacks <= 2
    requires c.peer.sock.rx.rcvNxt + c.peer.sock.rx.rcvWnd < 0x1_0000_0000
    ensures RtoEpoch.IsRun(c, ms) && RtoEpoch.Run(c, ms).closed && Live(RtoEpoch.Run(c, ms))
  {
    AbortedHears(c);
    var ns := DuplicatesRevive(Next(c, Abort), AbortDuplicate(c));
    RunFront(c, Abort, ns);
    ms := [Abort] + ns;
  }

  /** Writing one byte, aborting, and three acknowledgements of it: the connection is closed and its timer
      armed. */
  lemma {:induction false} AbortedButArmed(c: Conn, x: byte) returns (ms: seq<Move>)
    requires Idle(c) && c.peer.unsent == [] && c.peer.sock.cc.dupacks == 0
    requires 1 <= Min(c.peer.sock.cc.cwnd, c.peer.sock.tx.sndWnd) && c.peer.sock.tx.sndNxt + 1 < 0x1_0000_0000
    requires c.peer.sock.rx.rcvNxt + c.peer.sock.rx.rcvWnd < 0x1_0000_0000
    ensures RtoEpoch.IsRun(c, ms) && RtoEpoch.Run(c, ms).closed && |Carriers(RtoEpoch.Run(c, ms))| == 1
  {
    var write, send := App(Write([x])), App(SendSegment);
    var c1 := Next(c, write);
    ByteMaySend(c1.peer, x);
    NextKeeps(c, write);
    var c2 := Next(c1, send);
    NextKeeps(c1, send);
    SentByte(c1, x);
    var ns := AbortThenArmed(c2);
    RunFront(c1, send, ns);
    RunFront(c, write, [send] + ns);
    ms := [write] + ([send] + ns);
    RtoTheorem(c, ms);
  }

  lemma {:induction false} ByteMaySend(p: Peer, x: byte)
    requires p.unsent == [x] && p.sock.tx.queue == [] && SendInv(p.sock.tx) && 0 < p.sock.cc.smss
    requires 1 <= Min(p.sock.cc.cwnd, p.sock.tx.sndWnd)
    ensures NextChunk(p) == Chunk([x], true) && Transfer.Enabled(p, SendSegment, {})
  {
    Add32Small(0, 1);
  }

  lemma {:induction false} SentByte(c: Conn, x: byte)
    requires ConnInv(c) && !c.closed && CanMove(c, App(SendSegment))
    ensures var d := Next(c, App(SendSegment));
      && d.peer.sock.tx.queue != [] && d.peer.sock.rx == c.peer.sock.rx
      && d.peer.sock.cc == c.peer.sock.cc && d.peer.sock.lastAckWin == c.peer.sock.lastAckWin
  {
    OpsKeep(c.(peer := PeerStep(c.peer, SendSegment).peer), StepOps(c.peer, SendSegment), Live(c));
  }

  // ----- the end of TCP_CLOSING

  /** A segment in TCP_CLOSING leads to TCP_TIME_WAIT exactly if it starts inside the window, is no duplicate
      ACK, acknowledges nothing old or unsent, and leaves nothing queued: either nothing was, or it newly
      acknowledges everything. After an abort with data still queued it never does. */
  lemma {:induction false} TimeWaitIff(c: Conn, g: Segment)
    requires ConnInv(c) && c.closed && !c.timeWait
    ensures var tx := c.peer.sock.tx;
      AppStep(c, Late(g)).timeWait <==>
        && Inside(c.peer.sock.rx, g.seqno, |g.payload|) && !IsDupack(c.peer.sock, g)
        && tx.sndUna <= g.ackno <= tx.sndNxt && (tx.queue == [] || tx.sndUna < g.ackno == tx.sndNxt)
  {
    var s := c.peer.sock;
    OpsKeep(c.(peer := PeerStep(c.peer, Late(g)).peer, timeWait := Settles(c.peer, Late(g))), StepOps(c.peer, Late(g)), Live(c));
    VerifyIff(s.rx, g.seqno, |g.payload|);
    if Inside(s.rx, g.seqno, |g.payload|) && !IsDupack(s, g) {
      LateAck(s, g);
      if Advances(s.tx, g.ackno) {
        CleanKeeps(s.tx, g.ackno);
      }
    }
  }
}
