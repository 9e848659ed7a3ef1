/** Which segments the receive side takes (section 3.3 of RFC 793, and `tcp_verify_segment` in
    src/tcp_input.c), what the others get for an answer, and what this keeps true of the out-of-order
    queue over every run. */
module Acceptance {
  import opened Words
  import opened Stream
  import opened TcpData
  import opened Reassembly
  import opened TcpOutput
  import opened TcpInput
  import opened Transfer
  import opened TransferSafety

  // ----- the window test

  /** The number lies between `rcv_nxt` and the right edge of the window, the edge included, and a closed
      window takes no data. The edge must lie below 2^32: the code compares numbers as they are, so a
      window that wraps takes nothing at all. */
  predicate Inside(rx: Rx, seqno: nat, dlen: nat) {
    && rx.rcvNxt + rx.rcvWnd < 0x1_0000_0000
    && rx.rcvNxt <= seqno <= rx.rcvNxt + rx.rcvWnd
    && (dlen > 0 ==> rx.rcvWnd > 0)
  }

  lemma {:induction false} VerifyIff(rx: Rx, seqno: u32, dlen: nat)
    ensures Verify(rx, seqno, dlen) <==> Inside(rx, seqno, dlen)
  {
    if rx.rcvNxt + rx.rcvWnd >= 0x1_0000_0000 {
      Wraps(rx.rcvNxt + rx.rcvWnd, -1);
    }
  }

  // ----- the window field

  /** `win`, scaled up again, is the low half of the real window without its last `scale` bits. */
  ghost predicate Advertises(s: Sock, win: nat) {
    var low := s.rx.realRcvWnd % 0x1_0000;
    win * Pow2(s.rcvScale) <= low < (win + 1) * Pow2(s.rcvScale)
  }

  lemma {:induction false} ShiftLaw(w: u16, k: nat)
    ensures ShiftRight(w, k) * Pow2(k) <= w < (ShiftRight(w, k) + 1) * Pow2(k)
    decreases k
  {
    if k > 0 {
      ShiftLaw(w / 2, k - 1);
      Halves(w, ShiftRight(w, k), Pow2(k - 1));
    }
  }

  lemma {:induction false} Halves(w: nat, v: nat, p: nat)
    requires v * p <= w / 2 < (v + 1) * p
    ensures v * (2 * p) <= w < (v + 1) * (2 * p)
  {
    var x, y := v * p, (v + 1) * p;
    assert v * (2 * p) == 2 * x && (v + 1) * (2 * p) == 2 * y;
  }

  lemma {:induction false} FieldAdvertises(s: Sock)
    ensures Advertises(s, WindowField(s))
  {
    ShiftLaw(s.rx.realRcvWnd % 0x1_0000, s.rcvScale);
  }

  /** An arriving segment is answered with the window before or after it was taken in. */
  lemma {:induction false} InputWindow(s: Sock, g: Segment, x: Segment)
    requires Numbered(s.tx) && x in Input(s, g).out
    ensures x.win == WindowField(s) || x.win == WindowField(Input(s, g).sock)
  {
    if Verify(s.rx, g.seqno, |g.payload|) {
      if IsDupack(s, g) {
        DupackPathEffect(s);
      } else {
        TextWindow(s, g, x);
      }
    }
  }

  lemma {:induction false} TextWindow(s: Sock, g: Segment, x: Segment)
    requires Numbered(s.tx) && Verify(s.rx, g.seqno, |g.payload|) && !IsDupack(s, g)
    requires x in Input(s, g).out
    ensures x.win == WindowField(Input(s, g).sock)
  {
    WindowUpdateIsDead(s, g);
    AckPathKeeps(s, g.ackno);
    var s1 := AckPath(s, g.ackno).sock.(lastAckWin := g.win);
    AckPolicyEffect(DataPath(s1, g).sock, g, g.seqno == s1.rx.rcvNxt);
  }

  /** Every segment an endpoint ever sends advertises its real window, before or after the step. */
  lemma {:induction false} EverySegmentAdvertises(p: Peer, a: Act, inbound: set<Segment>, x: Segment)
    requires Numbered(p.sock.tx) && Enabled(p, a, inbound) && x in PeerStep(p, a).out
    ensures Advertises(p.sock, x.win) || Advertises(PeerStep(p, a).peer.sock, x.win)
  {
    FieldAdvertises(p.sock);
    FieldAdvertises(PeerStep(p, a).peer.sock);
    if a.Deliver? {
      InputWindow(p.sock, a.g, x);
    } else if a.Late? {
      LateWindow(p.sock, a.g, x);
    }
  }

  lemma {:induction false} LateWindow(s: Sock, g: Segment, x: Segment)
    requires Numbered(s.tx) && x in LateInput(s, g).out
    ensures x.win == WindowField(s)
  {
    if Verify(s.rx, g.seqno, |g.payload|) && IsDupack(s, g) {
      DupackPathEffect(s);
    }
  }

  // ----- what is not taken

  /** The one answer to a segment outside the window. */
  ghost predicate BareAck(s: Sock, out: seq<Segment>) {
    && |out| == 1
    && out[0].payload == [] && !out[0].psh
    && out[0].seqno == s.tx.sndNxt && out[0].ackno == s.rx.rcvNxt
    && Advertises(s, out[0].win)
  }

  /** A segment outside the window changes nothing, whatever it carries and in whatever state, and is
      answered by one empty segment that says where the window is. */
  lemma {:induction false} OutsideWindow(s: Sock, g: Segment)
    requires !Inside(s.rx, g.seqno, |g.payload|)
    ensures Input(s, g).sock == s && Input(s, g).ops == [] && BareAck(s, Input(s, g).out)
    ensures LateInput(s, g).sock == s && LateInput(s, g).ops == [] && BareAck(s, LateInput(s, g).out)
    ensures BareAck(s, MuteOut(s, g))
  {
    VerifyIff(s.rx, g.seqno, |g.payload|);
    FieldAdvertises(s);
  }

  /** In TCP_TIME_WAIT a segment inside the window is answered, in the same way, exactly if it is the one
      expected and nothing is queued. */
  lemma {:induction false} MuteAnswersIff(s: Sock, g: Segment)
    requires Inside(s.rx, g.seqno, |g.payload|)
    ensures if g.seqno == s.rx.rcvNxt && s.tx.queue == [] then BareAck(s, MuteOut(s, g)) else MuteOut(s, g) == []
  {
    VerifyIff(s.rx, g.seqno, |g.payload|);
    FieldAdvertises(s);
  }

  /** The delayed ACK is such an answer too. It settles the count and leaves the rest alone. */
  lemma {:induction false} DelackAnswers(s: Sock)
    ensures BareAck(s, Delack(s).out) && Delack(s).ops == []
    ensures Delack(s).sock == s.(delacks := 0, delackArmed := false)
  {
    FieldAdvertises(s);
  }

  /** Data is queued exactly when it starts inside the window and acknowledges nothing old or unsent. */
  lemma {:induction false} TextTakenIff(s: Sock, g: Segment)
    requires g.payload != []
    ensures Input(s, g).sock.rx ==
      if Inside(s.rx, g.seqno, |g.payload|) && s.tx.sndUna <= g.ackno <= s.tx.sndNxt
      then DataQueue(s.rx, Arrived(g.seqno, g.payload, g.psh)) else s.rx
  {
    VerifyIff(s.rx, g.seqno, |g.payload|);
    if Inside(s.rx, g.seqno, |g.payload|) {
      WindowUpdateIsDead(s, g);
    }
  }

  /** Data inside the window but ahead of what is expected is answered at once in the same way: this is the
      duplicate ACK that the sender counts. */
  lemma {:induction false} OutOfOrderAnswered(s: Sock, g: Segment)
    requires Inside(s.rx, g.seqno, |g.payload|) && g.payload != [] && g.seqno != s.rx.rcvNxt
    requires s.tx.sndUna <= g.ackno <= s.tx.sndNxt
    ensures BareAck(s, Input(s, g).out)
  {
    VerifyIff(s.rx, g.seqno, |g.payload|);
    WindowUpdateIsDead(s, g);
    var s1 := AckPath(s, g.ackno).sock.(lastAckWin := g.win);
    var s2 := DataPath(s1, g).sock;
    assert DataPath(s1, g).out == [PureAck(s2)];
    assert Input(s, g).out == [PureAck(s2)] + [];
    FieldAdvertises(s2);
  }

  // ----- the out-of-order queue

  /** No segment waits out of order beyond the right edge of the window. */
  ghost predicate WithinWindow(rx: Rx) {
    forall i :: 0 <= i < |rx.ofo| ==> rx.ofo[i].seqno <= rx.rcvNxt + rx.rcvWnd
  }

  /** A segment inside the window keeps the queue inside, as long as `rcv_nxt` does not wrap. */
  lemma {:induction false} DataQueueWithin(rx: Rx, s: Skb)
    requires WithinWindow(rx) && s.seqno <= rx.rcvNxt + rx.rcvWnd && rx.rcvNxt <= DataQueue(rx, s).rcvNxt
    ensures WithinWindow(DataQueue(rx, s))
  {
    var rx' := DataQueue(rx, s);
    DataQueueKeepsWindow(rx, s);
    forall i | 0 <= i < |rx'.ofo|
      ensures rx'.ofo[i].seqno <= rx'.rcvNxt + rx'.rcvWnd
    {
      DataQueueContents(rx, s, rx'.ofo[i]);
    }
  }

  /** For any arrival order and any duplication. */
  lemma {:induction false} ReassemblyWithinWindow(cs: seq<Chunk>, base: u32, window: u32, order: seq<nat>)
    requires NonEmpty(cs) && Reassembly.Fits(cs, base) && window > 0
    requires forall k :: 0 <= k < |order| ==> order[k] < |cs|
    ensures WithinWindow(ArriveAll(cs, base, Reassembly.Fresh(base, window), order))
  {
    if order != [] {
      var rx0, before, i := Reassembly.Fresh(base, window), order[..|order| - 1], order[|order| - 1];
      ReassemblyWithinWindow(cs, base, window, before);
      var rx, s := ArriveAll(cs, base, rx0, before), SkbAt(cs, base, i);
      VerifyIff(rx, s.seqno, |s.payload|);
      if Inside(rx, s.seqno, |s.payload|) {
        ReassemblyTheorem(cs, base, window, before);
        var acc := AcceptedOf(cs, base, rx0, before);
        var n := FirstMissing(cs, acc, 0);
        OffCompare(cs, i, n);
        DataQueueAccepts(cs, base, acc, n, rx, i);
        OffMonotone(cs, n, FirstMissing(cs, acc + {i}, n));
        DataQueueWithin(rx, s);
      }
    }
  }

  /** The same in the two-endpoint system: one step of the receiving side. */
  lemma {:induction false} ReceiverWithin(cs: seq<Chunk>, base: nat, acc: set<nat>, y: Peer, a: Act, inbound: set<Segment>)
    requires Receiving(cs, y, base, acc) && Numbered(y.sock.tx) && Enabled(y, a, inbound)
    requires (forall g :: g in inbound ==> DataOk(cs, base, g)) && WithinWindow(y.sock.rx)
    ensures WithinWindow(PeerStep(y, a).peer.sock.rx)
  {
    if a.Deliver? {
      var rx, rx', g := y.sock.rx, Input(y.sock, a.g).sock.rx, a.g;
      InputEffect(y.sock, g);
      if rx' != rx {
        VerifyIff(rx, g.seqno, |g.payload|);
        var acc' := InputReceives(cs, base, acc, y, g);
        OffMonotone(cs, |y.received|, |PeerStep(y, a).peer.received|);
        DataQueueWithin(rx, Arrived(g.seqno, g.payload, g.psh));
      }
    } else if a.Late? {
      LateEffect(y.sock, a.g);
    }
  }

  lemma {:induction false} RunWithin(s: System, es: seq<Event>, p: nat, n: nat)
    requires Transfer.IsRun(s, es) && InOrder(s, p, n) && Stays(es, A) && InRange(Transfer.Run(s, es), p, n)
    requires WithinWindow(s.b.sock.rx)
    ensures WithinWindow(Transfer.Run(s, es).b.sock.rx)
    decreases |es|
  {
    if es != [] {
      var e := es[0];
      StaysOn(es, A);
      WrittenGrows(Transfer.Step(s, e), es[1..]);
      TransferSafety.StepKeeps(s, e, p, n);
      if e.side == B {
        var u: nat, acc: set<nat> :| Direction(s.a, s.b, s.ab, s.ba, p, u, acc);
        ReceiverWithin(s.a.chunks, p, acc, s.b, e.act, s.ab);
      }
      RunWithin(Transfer.Step(s, e), es[1..], p, n);
    }
  }

  /** After every run of the two-endpoint system, for every side whose peer starts in step and does not
      abort: nothing waits out of order beyond the right edge of its receive window. */
  lemma {:induction false} WindowEdgeTheorem(s: System, es: seq<Event>, p: u32, q: u32)
    requires Established(s, p, q) && Transfer.IsRun(s, es) && InRange(Transfer.Run(s, es), First(s.a), First(s.b))
    ensures var t := Transfer.Run(s, es);
      && (First(s.a) == p && Stays(es, A) ==> WithinWindow(t.b.sock.rx))
      && (First(s.b) == q && Stays(es, B) ==> WithinWindow(t.a.sock.rx))
  {
    if First(s.a) == p && Stays(es, A) {
      EstablishedInOrder(s, p, q);
      RunWithin(s, es, p, First(s.b));
    }
    if First(s.b) == q && Stays(es, B) {
      SwapRun(s, es);
      SwapStays(es);
      EstablishedInOrder(Swap(s), q, p);
      RunWithin(Swap(s), SwapAll(es), q, First(s.a));
    }
  }
}
