/** The bytes of a side that is in step with its peer can always still arrive: from a state with one
    segment of it on its way, deliveries alone bring everything over. Lost segments are recovered by
    fast retransmit, so no timeout is needed after the first. */
module Progress {
  import opened Stream
  import opened TcpData
  import opened Reassembly
  import opened Congestion
  import opened TcpOutput
  import opened TcpInput
  import opened Transfer
  import opened TransferSafety
  import opened SenderWindow

  // ----- single arrivals

  /** The next chunk, or one before it, arrives with a current acknowledgement: afterwards the
      receiver is past it. */
  lemma {:induction false} ChunkArrives(cs: seq<Chunk>, base: nat, acc: set<nat>, y: Peer, g: Segment, i: nat)
    requires Receiving(cs, y, base, acc) && Numbered(y.sock.tx)
    requires Carries(cs, base, g, i) && i <= |y.received|
    requires y.sock.tx.sndUna <= g.ackno <= y.sock.tx.sndNxt
    requires y.sock.rx.rcvNxt + y.sock.rx.rcvWnd < 0x1_0000_0000
    ensures Input(y.sock, g).sock.rx.rcvNxt > g.seqno
  {
    var s, n := y.sock, |y.received|;
    OffCompare(cs, i, n);
    if i == n {
      var s2 := AckPath(s, g.ackno).sock.(lastAckWin := g.win);
      AckPathKeeps(s, g.ackno);
      WindowUpdateIsDead(s, g);
      AckPolicyEffect(DataPath(s2, g).sock, g, true);
      CarriedChunk(cs, base, acc, n, s.rx, g, i);
      DataQueueAccepts(cs, base, acc, n, s.rx, i);
      OffCompare(cs, n, FirstMissing(cs, acc + {i}, n));
    }
  }

  /** What any segment does to the numbers of the send side. */
  lemma {:induction false} NumbersAfter(s: Sock, g: Segment)
    requires Numbered(s.tx)
    ensures var tx' := Input(s, g).sock.tx;
      tx'.sndNxt == s.tx.sndNxt && (tx'.sndUna == s.tx.sndUna || tx'.sndUna == g.ackno)
  {
    InputEffect(s, g);
  }

  /** A chunk the receiver is already past is answered with a pure acknowledgement. */
  lemma {:induction false} OldChunkAnswered(s: Sock, g: Segment)
    requires g.seqno < s.rx.rcvNxt
    ensures Input(s, g) == Outcome(s, [PureAck(s)], [])
  {
  }

  ghost predicate Pure(h: Segment) {
    h.payload == [] && !h.psh
  }

  /** A pure acknowledgement of something new ends recovery and moves `snd_una`. */
  lemma {:induction false} NewAckArrives(s: Sock, h: Segment)
    requires Numbered(s.tx) && Pure(h) && Verify(s.rx, h.seqno, 0) && Advances(s.tx, h.ackno)
    ensures var s' := Input(s, h).sock;
      && s'.tx.sndUna == h.ackno && s'.tx.sndNxt == s.tx.sndNxt && !s'.cc.inRecovery
      && s'.rx == s.rx
  {
    InputTimerRequests(s, h);
    InputEffect(s, h);
  }

  /** A pure acknowledgement of nothing new counts as a duplicate if its window is the last one;
      otherwise it makes its window the last one. */
  lemma {:induction false} SameAckArrives(s: Sock, h: Segment)
    requires Numbered(s.tx) && Pure(h) && Verify(s.rx, h.seqno, 0)
    requires h.ackno == s.tx.sndUna <= s.tx.sndNxt && s.tx.inflight != 0
    ensures var o := Input(s, h);
      && o.sock.tx == s.tx && o.sock.rx == s.rx && o.sock.lastAckWin == h.win
      && o.sock.cc == (if s.lastAckWin == h.win then HandleDupack(s.cc, s.tx.inflight) else s.cc)
      && (s.cc.dupacks < 3 ==>
            && o.sock.cc.dupacks == s.cc.dupacks + (if s.lastAckWin == h.win then 1 else 0)
            && (o.sock.cc.dupacks == 3 ==> o.out == FastRetransmit(s)))
  {
    if s.lastAckWin == h.win {
      DupackPathEffect(s);
      var cc := HandleDupack(s.cc, s.tx.inflight);
      SendNextOutIsIdle(s.(cc := cc), if cc.dupacks < 3 then cc.dupacks * cc.smss else 0);
    } else {
      WindowUpdateIsDead(s, h);
      var s2 := s.(lastAckWin := h.win);
      TextPathEffect(s2, h);
      AckPolicyEffect(s2, h, h.seqno == s2.rx.rcvNxt);
    }
  }

  /** With no SACK marks, fast retransmit picks the head of the queue. */
  lemma {:induction false} CandidateIsHead(tx: Tx)
    requires SendInv(tx) && tx.queue != [] && Unmarked(tx.queue)
    ensures Candidate(tx) == 0
  {
    var i := FirstHole(tx.queue, tx.sackMaxRight);
    if 0 < i < |tx.queue| {
      CoversBounds(tx.queue, Front(tx), tx.sndNxt, i);
    }
  }

  // ----- what every step below keeps

  /** What `x` sends now is current at `y`, and what `y` answers is acceptable at `x`. */
  ghost predicate Hears(x: Peer, y: Peer) {
    && y.sock.tx.sndUna <= x.sock.rx.rcvNxt <= y.sock.tx.sndNxt
    && y.sock.tx.sndNxt <= x.sock.rx.rcvNxt + x.sock.rx.rcvWnd < 0x1_0000_0000
  }

  /** The numbers of the stream and the window above them stay below 2^32, and a full segment fits into
      the window of the peer. */
  ghost predicate Fits32(x: Peer, y: Peer, base: nat) {
    && Roomy(x) && base + |x.written| + y.sock.rx.rcvWnd < 0x1_0000_0000
    && x.sock.cc.smss <= x.sock.tx.sndWnd
  }

  ghost predicate Going(s: System, p: nat, n: nat) {
    && InOrder(s, p, n) && n + |s.b.written| < 0x1_0000_0000
    && Hears(s.a, s.b)
    && Regulated(s.a, p) && Fits32(s.a, s.b, p)
  }

  /** Segment size and both windows are fixed for the connection. */
  ghost predicate SameLimits(x: Peer, x': Peer) {
    && x'.sock.cc.smss == x.sock.cc.smss
    && x'.sock.tx.sndWnd == x.sock.tx.sndWnd
    && x'.sock.rx.rcvWnd == x.sock.rx.rcvWnd
  }

  lemma {:induction false} LimitsFixed(x: Peer, a: Act)
    requires Numbered(x.sock.tx) && (a.RtoFires? ==> x.sock.tx.queue != [])
    ensures SameLimits(x, PeerStep(x, a).peer)
  {
    if a.Deliver? || a.Late? {
      SmssKept(x.sock, a.g);
      InputEffect(x.sock, a.g);
      LateEffect(x.sock, a.g);
      DataQueueKeepsWindow(x.sock.rx, Arrived(a.g.seqno, a.g.payload, a.g.psh));
    }
  }

  ghost predicate SameWritten(s: System, t: System) {
    t.a.written == s.a.written && t.b.written == s.b.written
  }

  lemma {:induction false} StepGoing(s: System, e: Event, p: nat, n: nat)
    requires Going(s, p, n) && CanStep(s, e) && !e.act.Forsake? && SameWritten(s, Step(s, e))
    requires Hears(Step(s, e).a, Step(s, e).b)
    ensures Going(Step(s, e), p, n)
  {
    StepKeeps(s, e, p, n);
    match e.side
    case A =>
      LimitsFixed(s.a, e.act);
      StepRegulated(s.a, e.act, p);
    case B =>
      LimitsFixed(s.b, e.act);
  }

  // ----- runs of deliveries

  /** Deliveries on both sides, sending by `a` and reading by `b`: no timeout and no write. */
  predicate Plain(e: Event) {
    e.act.Deliver? || (e.side == A && e.act.SendSegment?) || (e.side == B && e.act.Read?)
  }

  /** `t` can be reached from `s` by the plain steps `es`, and everything stays in order. */
  ghost predicate Leads(s: System, es: seq<Event>, t: System, p: nat, n: nat) {
    && IsRun(s, es) && Run(s, es) == t && SameWritten(s, t) && Going(t, p, n)
    && (forall i :: 0 <= i < |es| ==> Plain(es[i]))
  }

  lemma {:induction false} LeadsOne(s: System, e: Event, p: nat, n: nat)
    requires Going(s, p, n) && CanStep(s, e) && Plain(e) && Hears(Step(s, e).a, Step(s, e).b)
    ensures Leads(s, [e], Step(s, e), p, n)
  {
    RunOne(s, e);
    StepGoing(s, e, p, n);
  }

  lemma {:induction false} LeadsThen(s: System, es: seq<Event>, t: System, fs: seq<Event>, v: System, p: nat, n: nat)
    requires Leads(s, es, t, p, n) && Leads(t, fs, v, p, n)
    ensures Leads(s, es + fs, v, p, n)
  {
    RunThen(s, es, fs);
  }

  // ----- one segment comes over and is acknowledged

  /** What `b` has received lies between what `a` has sent and what `a` has seen acknowledged. */
  lemma {:induction false} Between(s: System, p: nat, n: nat)
    requires InOrder(s, p, n)
    ensures s.a.sock.tx.sndUna <= s.b.sock.rx.rcvNxt <= s.a.sock.tx.sndNxt <= p + |s.a.written|
    ensures s.a.sock.tx.inflight == s.a.sock.tx.sndNxt - s.a.sock.tx.sndUna
    ensures s.a.sock.tx.queue == [] <==> s.a.sock.tx.sndUna == s.a.sock.tx.sndNxt
    ensures SendInv(s.a.sock.tx) && Numbered(s.a.sock.tx)
  {
    var u: nat, acc: set<nat> :| Direction(s.a, s.b, s.ab, s.ba, p, u, acc);
    OffMonotone(s.a.chunks, u, |s.b.received|);
    OffMonotone(s.a.chunks, |s.b.received|, |s.a.chunks|);
    OffCompare(s.a.chunks, u, |s.a.chunks|);
    FlatLength(s.a.chunks);
    SentInv(s.a.chunks, p, u, s.a.sock.tx);
  }

  /** `g` is the head of the queue of `a`, or an earlier segment, on its way with a current
      acknowledgement. */
  ghost predicate OnItsWay(s: System, g: Segment, p: nat) {
    && g in s.ab && g.ackno == s.a.sock.rx.rcvNxt
    && exists i: nat :: i <= |s.b.received| && Carries(s.a.chunks, p, g, i)
  }

  lemma {:induction false} Arrives(s: System, g: Segment, p: nat, n: nat)
    requires Going(s, p, n) && OnItsWay(s, g, p)
    ensures var e := Event(B, Deliver(g));
      var t := Step(s, e);
      Leads(s, [e], t, p, n) && t.b.sock.rx.rcvNxt > g.seqno && t.a == s.a && t.ab == s.ab
  {
    var u: nat, acc: set<nat> :| Direction(s.a, s.b, s.ab, s.ba, p, u, acc);
    var i: nat :| i <= |s.b.received| && Carries(s.a.chunks, p, g, i);
    Between(s, p, n);
    ChunkArrives(s.a.chunks, p, acc, s.b, g, i);
    NumbersAfter(s.b.sock, g);
    LeadsOne(s, Event(B, Deliver(g)), p, n);
  }

  lemma {:induction false} Answered(s: System, g: Segment, p: nat, n: nat)
    requires Going(s, p, n) && g in s.ab && s.b.sock.rx.rcvNxt > g.seqno
    ensures var e := Event(B, Deliver(g));
      var t := Step(s, e);
      Leads(s, [e], t, p, n) && PureAck(s.b.sock) in t.ba && t.a == s.a && t.b.sock == s.b.sock && t.ab == s.ab
  {
    OldChunkAnswered(s.b.sock, g);
    LeadsOne(s, Event(B, Deliver(g)), p, n);
    assert PureAck(s.b.sock) in PeerStep(s.b, Deliver(g)).out;
  }

  lemma {:induction false} AcknowledgedAnew(s: System, p: nat, n: nat)
    requires Going(s, p, n) && PureAck(s.b.sock) in s.ba && s.b.sock.rx.rcvNxt > s.a.sock.tx.sndUna
    ensures var e := Event(A, Deliver(PureAck(s.b.sock)));
      var t := Step(s, e);
      && Leads(s, [e], t, p, n) && t.b == s.b && s.ab <= t.ab
      && t.a.sock.tx.sndUna == s.b.sock.rx.rcvNxt && t.a.sock.tx.sndNxt == s.a.sock.tx.sndNxt
      && t.a.unsent == s.a.unsent && !t.a.sock.cc.inRecovery
  {
    Between(s, p, n);
    NewAckArrives(s.a.sock, PureAck(s.b.sock));
    LeadsOne(s, Event(A, Deliver(PureAck(s.b.sock))), p, n);
  }

  /** Progress: `snd_una` has moved up, and a segment that `b` is past is still in the network. */
  ghost predicate Further(s: System, t: System, g: Segment) {
    && s.a.sock.tx.sndUna < t.a.sock.tx.sndUna && t.a.sock.tx.sndNxt == s.a.sock.tx.sndNxt
    && t.a.unsent == s.a.unsent && !t.a.sock.cc.inRecovery
    && Probe(t, g)
  }

  ghost predicate Probe(s: System, g: Segment) {
    g in s.ab && g.seqno < s.b.sock.rx.rcvNxt
  }

  /** The head arrives, arrives once more, and is acknowledged. */
  lemma {:induction false} HeadComesOver(s: System, g: Segment, p: nat, n: nat) returns (es: seq<Event>, t: System)
    requires Going(s, p, n) && OnItsWay(s, g, p) && g.seqno == s.a.sock.tx.sndUna
    ensures Leads(s, es, t, p, n) && Further(s, t, g)
  {
    var d := Event(B, Deliver(g));
    Arrives(s, g, p, n);
    var s1 := Step(s, d);
    Answered(s1, g, p, n);
    var s2 := Step(s1, d);
    AcknowledgedAnew(s2, p, n);
    var e := Event(A, Deliver(PureAck(s2.b.sock)));
    t := Step(s2, e);
    LeadsThen(s1, [d], s2, [e], t, p, n);
    LeadsThen(s, [d], s1, [d] + [e], t, p, n);
    es := [d] + ([d] + [e]);
  }

  // ----- fast retransmit

  ghost predicate SameSides(s: System, t: System) {
    && t.b == s.b && t.a.sock.tx == s.a.sock.tx && t.a.sock.rx == s.a.sock.rx
    && t.a.unsent == s.a.unsent && t.a.chunks == s.a.chunks && s.ab <= t.ab && s.ba <= t.ba
  }

  ghost predicate Waiting(s: System, p: nat, n: nat) {
    && Going(s, p, n) && PureAck(s.b.sock) in s.ba
    && s.a.sock.tx.queue != [] && s.b.sock.rx.rcvNxt == s.a.sock.tx.sndUna
  }

  /** The same acknowledgement once more. */
  lemma {:induction false} Repeated(s: System, p: nat, n: nat)
    requires Waiting(s, p, n) && s.a.sock.cc.dupacks < 3
    ensures var h := PureAck(s.b.sock);
      var e := Event(A, Deliver(h));
      var t := Step(s, e);
      && Leads(s, [e], t, p, n) && SameSides(s, t) && t.a.sock.lastAckWin == h.win
      && t.a.sock.cc.dupacks == s.a.sock.cc.dupacks + (if s.a.sock.lastAckWin == h.win then 1 else 0)
      && (t.a.sock.cc.dupacks == 3 ==> forall x :: x in FastRetransmit(s.a.sock) ==> x in t.ab)
  {
    var h := PureAck(s.b.sock);
    var r := PeerStep(s.a, Deliver(h));
    Between(s, p, n);
    SameAckArrives(s.a.sock, h);
    assert r.peer.sock == Input(s.a.sock, h).sock && r.out == Input(s.a.sock, h).out;
    LeadsOne(s, Event(A, Deliver(h)), p, n);
  }

  /** The fast retransmit is the head of the queue, with a current acknowledgement. */
  lemma {:induction false} RetransmitIsHead(s: System, p: nat, n: nat) returns (g: Segment)
    requires Going(s, p, n) && s.a.sock.tx.queue != []
    ensures FastRetransmit(s.a.sock) == [g] && g.seqno == s.a.sock.tx.sndUna && g.ackno == s.a.sock.rx.rcvNxt
    ensures exists i: nat :: i <= |s.b.received| && Carries(s.a.chunks, p, g, i)
  {
    Between(s, p, n);
    CandidateIsHead(s.a.sock.tx);
    g := FastRetransmit(s.a.sock)[0];
    var u: nat, acc: set<nat> :| Direction(s.a, s.b, s.ab, s.ba, p, u, acc);
    assert s.a.sock.tx.queue[0].(sacked := false) == SkbAt(s.a.chunks, p, u);
    assert Carries(s.a.chunks, p, g, u);
  }

  /** Enough repetitions of the acknowledgement put the head on its way again. */
  lemma {:induction false} DuplicatesRetransmit(s: System, p: nat, n: nat) returns (es: seq<Event>, t: System, g: Segment)
    requires Waiting(s, p, n) && s.a.sock.cc.dupacks < 3
    ensures Leads(s, es, t, p, n) && SameSides(s, t)
    ensures OnItsWay(t, g, p) && g.seqno == t.a.sock.tx.sndUna
    decreases 3 - s.a.sock.cc.dupacks, s.a.sock.lastAckWin != PureAck(s.b.sock).win
  {
    var e := Event(A, Deliver(PureAck(s.b.sock)));
    Repeated(s, p, n);
    var s1 := Step(s, e);
    if s1.a.sock.cc.dupacks == 3 {
      es, t := [e], s1;
      g := RetransmitIsHead(s, p, n);
      assert g in FastRetransmit(s.a.sock);
    } else {
      var fs;
      fs, t, g := DuplicatesRetransmit(s1, p, n);
      LeadsThen(s, [e], s1, fs, t, p, n);
      es := [e] + fs;
    }
  }

  /** With a segment in the network that `b` is past, and outside recovery, one round moves `snd_una`. */
  lemma {:induction false} RoundAdvances(s: System, g: Segment, p: nat, n: nat) returns (es: seq<Event>, t: System, g': Segment)
    requires Going(s, p, n) && s.a.sock.tx.queue != [] && Probe(s, g) && !s.a.sock.cc.inRecovery
    ensures Leads(s, es, t, p, n) && Further(s, t, g')
  {
    var d := Event(B, Deliver(g));
    Answered(s, g, p, n);
    var s1 := Step(s, d);
    Between(s1, p, n);
    RegulatedNeverStuck(s1.a, p);
    if s1.b.sock.rx.rcvNxt > s1.a.sock.tx.sndUna {
      AcknowledgedAnew(s1, p, n);
      var e := Event(A, Deliver(PureAck(s1.b.sock)));
      t := Step(s1, e);
      LeadsThen(s, [d], s1, [e], t, p, n);
      es, g' := [d] + [e], g;
    } else {
      var fs, s2;
      fs, s2, g' := DuplicatesRetransmit(s1, p, n);
      var hs;
      hs, t := HeadComesOver(s2, g', p, n);
      LeadsThen(s1, fs, s2, hs, t, p, n);
      LeadsThen(s, [d], s1, fs + hs, t, p, n);
      es := [d] + (fs + hs);
    }
  }

  // ----- everything in flight, everything unsent, everything unread

  lemma {:induction false} Drains(s: System, g: Segment, p: nat, n: nat) returns (es: seq<Event>, t: System)
    requires Going(s, p, n) && (s.a.sock.tx.queue == [] || (Probe(s, g) && !s.a.sock.cc.inRecovery))
    ensures Leads(s, es, t, p, n) && t.a.sock.tx.queue == [] && t.a.unsent == s.a.unsent
    decreases s.a.sock.tx.sndNxt - s.a.sock.tx.sndUna
  {
    if s.a.sock.tx.queue == [] {
      es, t := [], s;
    } else {
      var es1, s1, g1 := RoundAdvances(s, g, p, n);
      Between(s1, p, n);
      var es2;
      es2, t := Drains(s1, g1, p, n);
      LeadsThen(s, es1, s1, es2, t, p, n);
      es := es1 + es2;
    }
  }

  /** An idle sender with a segment left is never blocked, and the segment is then on its way. */
  lemma {:induction false} IdleSends(s: System, p: nat, n: nat) returns (t: System, g: Segment)
    requires Going(s, p, n) && s.a.sock.tx.queue == [] && s.a.unsent != []
    ensures var e := Event(A, SendSegment);
      CanStep(s, e) && t == Step(s, e) && Leads(s, [e], t, p, n) && |t.a.unsent| < |s.a.unsent|
    ensures OnItsWay(t, g, p) && g.seqno == t.a.sock.tx.sndUna
  {
    var u: nat, acc: set<nat> :| Direction(s.a, s.b, s.ab, s.ba, p, u, acc);
    RegulatedNeverStuck(s.a, p);
    var e := Event(A, SendSegment);
    t := Step(s, e);
    LeadsOne(s, e, p, n);
    g := PeerStep(s.a, SendSegment).out[0];
    OffsAppend(s.a.chunks, NextChunk(s.a), |s.a.chunks|);
    assert Carries(t.a.chunks, p, g, |s.a.chunks|);
    assert |s.b.received| == |s.a.chunks|;
  }

  lemma {:induction false} Flushes(s: System, g: Segment, p: nat, n: nat) returns (es: seq<Event>, t: System)
    requires Going(s, p, n) && (s.a.sock.tx.queue == [] || (Probe(s, g) && !s.a.sock.cc.inRecovery))
    ensures Leads(s, es, t, p, n) && t.a.sock.tx.queue == [] && t.a.unsent == []
    decreases |s.a.unsent|
  {
    es, t := Drains(s, g, p, n);
    if t.a.unsent != [] {
      var e := Event(A, SendSegment);
      var t1, g1 := IdleSends(t, p, n);
      var es2, t2 := HeadComesOver(t1, g1, p, n);
      var es3, t3 := Flushes(t2, g1, p, n);
      LeadsThen(t1, es2, t2, es3, t3, p, n);
      LeadsThen(t, [e], t1, es2 + es3, t3, p, n);
      LeadsThen(s, es, t, [e] + (es2 + es3), t3, p, n);
      es, t := es + ([e] + (es2 + es3)), t3;
    }
  }

  /** With everything sent and acknowledged, one read hands over the rest. */
  lemma {:induction false} LastRead(s: System, p: nat, n: nat)
    requires Going(s, p, n) && s.a.sock.tx.queue == [] && s.a.unsent == []
    ensures var e := Event(B, Read(|Unread(s.b.sock.rx)|));
      Leads(s, [e], Step(s, e), p, n) && Step(s, e).b.delivered == s.a.written
  {
    var k := |Unread(s.b.sock.rx)|;
    LeadsOne(s, Event(B, Read(k)), p, n);
    var u: nat, acc: set<nat> :| Direction(s.a, s.b, s.ab, s.ba, p, u, acc);
    assert s.b.received == s.a.chunks;
    assert BytesRead(s.b.sock.rx, k) == Unread(s.b.sock.rx);
    assert s.a.written == Flat(s.a.chunks);
  }

  /** Deliveries alone bring everything over. */
  lemma {:induction false} ComesOver(s: System, g: Segment, p: nat, n: nat) returns (es: seq<Event>, t: System)
    requires Going(s, p, n) && (s.a.sock.tx.queue == [] || (Probe(s, g) && !s.a.sock.cc.inRecovery))
    ensures Leads(s, es, t, p, n) && t.b.delivered == s.a.written
  {
    es, t := Flushes(s, g, p, n);
    LastRead(t, p, n);
    var e := Event(B, Read(|Unread(t.b.sock.rx)|));
    LeadsThen(s, es, t, [e], Step(t, e), p, n);
    es, t := es + [e], Step(t, e);
  }
}
