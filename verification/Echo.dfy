/** What the numbers of one direction can be when its sender `b` need not be in step with its peer:
    acknowledgements never run ahead of what the peer expects, and that never runs more than one
    segment ahead of what has been sent. */
module Echo {
  import opened Words
  import opened Stream
  import opened TcpData
  import opened TcpOutput
  import opened TcpInput
  import opened Transfer
  import opened TransferSafety

  // ----- the receive side under a bound

  /** Everything queued out of order ends at or below `top`. */
  ghost predicate Below(q: seq<Skb>, top: nat) {
    forall i :: 0 <= i < |q| ==> q[i].seqno + |q[i].payload| <= top
  }

  ghost predicate Bounded(rx: Rx, top: nat) {
    rx.rcvNxt <= top && Below(rx.ofo, top)
  }

  lemma {:induction false} InsertBelow(q: seq<Skb>, s: Skb, top: nat)
    requires Below(q, top) && s.seqno + |s.payload| <= top
    ensures Below(Insert(q, s), top)
  {
    var r := Insert(q, s);
    forall i | 0 <= i < |r|
      ensures r[i].seqno + |r[i].payload| <= top
    {
      InsertContents(q, s, r[i]);
    }
  }

  lemma {:induction false} ConsumeBounded(rx: Rx, top: nat)
    requires Bounded(rx, top) && top < 0x1_0000_0000
    ensures Bounded(Consume(rx), top) && rx.rcvNxt <= Consume(rx).rcvNxt
    decreases |rx.ofo|
  {
    if rx.ofo != [] && rx.rcvNxt == rx.ofo[0].seqno {
      var s := rx.ofo[0];
      Add32Small(rx.rcvNxt, |s.payload|);
      ConsumeBounded(rx.(rcvNxt := Add32(rx.rcvNxt, |s.payload|), ofo := rx.ofo[1..], queue := rx.queue + [s]), top);
    }
  }

  /** An arrival that ends at or below `top` moves `rcv_nxt` up, and not beyond `top`. */
  lemma {:induction false} DataQueueBounded(rx: Rx, s: Skb, top: nat)
    requires Bounded(rx, top) && s.seqno + |s.payload| <= top < 0x1_0000_0000
    ensures Bounded(DataQueue(rx, s), top) && rx.rcvNxt <= DataQueue(rx, s).rcvNxt
  {
    InsertBelow(rx.ofo, s, top);
    if s.seqno == rx.rcvNxt {
      Add32Small(rx.rcvNxt, |s.payload|);
      ConsumeBounded(rx.(realRcvWnd := Sub32(rx.realRcvWnd, |s.payload|),
                         rcvNxt := Add32(rx.rcvNxt, |s.payload|), queue := rx.queue + [s]), top);
    }
  }

  // ----- the sender

  /** Queued buffers are no longer than one segment and end at or below `snd_nxt`. */
  ghost predicate Short(tx: Tx, smss: nat) {
    && tx.sndUna <= tx.sndNxt
    && (forall i :: 0 <= i < |tx.queue| ==> tx.queue[i].seqno + |tx.queue[i].payload| <= tx.sndNxt && |tx.queue[i].payload| <= smss)
  }

  /** How far the numbers of `b` can be echoed. */
  ghost function Top(b: Peer): nat {
    b.sock.tx.sndNxt + b.sock.cc.smss
  }

  /** `b` sends to `a`: nothing that `b` has sent, under whatever number, ends beyond one segment above its
      `snd_nxt`. */
  ghost predicate Echoes(s: System, n: nat) {
    && Speaks(s.b, n) && Short(s.b.sock.tx, s.b.sock.cc.smss)
    && (forall g :: g in s.ba ==> g.seqno + |g.payload| <= Top(s.b))
    && Bounded(s.a.sock.rx, Top(s.b))
  }

  /** What `b` has seen acknowledged, or may see, is at most what `a` expects. */
  ghost predicate AcksBehind(s: System) {
    && s.b.sock.tx.sndUna <= s.a.sock.rx.rcvNxt
    && (forall g :: g in s.ab ==> g.ackno <= s.a.sock.rx.rcvNxt)
  }

  lemma {:induction false} BoundedMore(rx: Rx, top: nat, top': nat)
    requires Bounded(rx, top) && top <= top'
    ensures Bounded(rx, top')
  {
  }

  /** A step of the listening side. */
  lemma {:induction false} ListenerEchoes(x: Peer, a: Act, inbound: set<Segment>, top: nat)
    requires Numbered(x.sock.tx) && Enabled(x, a, inbound) && Bounded(x.sock.rx, top) && top < 0x1_0000_0000
    requires forall g :: g in inbound ==> g.seqno + |g.payload| <= top
    ensures var r := PeerStep(x, a);
      && Bounded(r.peer.sock.rx, top) && x.sock.rx.rcvNxt <= r.peer.sock.rx.rcvNxt
      && forall g :: g in r.out ==> g.ackno <= r.peer.sock.rx.rcvNxt
  {
    if a.Deliver? || a.Late? {
      InputEffect(x.sock, a.g);
      LateEffect(x.sock, a.g);
      DataQueueBounded(x.sock.rx, Arrived(a.g.seqno, a.g.payload, a.g.psh), top);
    }
  }

  /** A step of the speaking side. */
  lemma {:induction false} SpeakerShort(y: Peer, a: Act, inbound: set<Segment>, n: nat)
    requires Speaks(y, n) && Short(y.sock.tx, y.sock.cc.smss) && Enabled(y, a, inbound)
    requires n + |PeerStep(y, a).peer.written| < 0x1_0000_0000
    ensures var y' := PeerStep(y, a).peer;
      && Short(y'.sock.tx, y'.sock.cc.smss) && y'.sock.cc.smss == y.sock.cc.smss
      && y.sock.tx.sndNxt <= y'.sock.tx.sndNxt
  {
    match a
    case SendSegment => Add32Small(y.sock.tx.sndNxt, |NextChunk(y).payload|);
    case Deliver(g) =>
      InputEffect(y.sock, g);
      SmssKept(y.sock, g);
    case Late(g) =>
      LateEffect(y.sock, g);
      SmssKept(y.sock, g);
    case _ =>
  }

  lemma {:induction false} SpeakerEchoes(y: Peer, a: Act, inbound: set<Segment>, n: nat)
    requires Speaks(y, n) && Short(y.sock.tx, y.sock.cc.smss) && Enabled(y, a, inbound)
    requires n + |PeerStep(y, a).peer.written| < 0x1_0000_0000
    ensures forall g :: g in PeerStep(y, a).out ==> g.seqno + |g.payload| <= Top(PeerStep(y, a).peer)
  {
    SpeakerShort(y, a, inbound, n);
    match a
    case SendSegment => Add32Small(y.sock.tx.sndNxt, |NextChunk(y).payload|);
    case Deliver(g) => AnswersShort(y.sock, g);
    case Late(g) => AnswersShort(y.sock, g);
    case _ =>
  }

  lemma {:induction false} AnswersShort(s: Sock, g: Segment)
    requires Numbered(s.tx) && Short(s.tx, s.cc.smss)
    ensures forall x :: x in Input(s, g).out ==> x.seqno + |x.payload| <= s.tx.sndNxt
    ensures forall x :: x in LateInput(s, g).out ==> x.seqno + |x.payload| <= s.tx.sndNxt
    ensures Input(s, g).sock.tx.sndNxt == LateInput(s, g).sock.tx.sndNxt == s.tx.sndNxt
  {
    InputEffect(s, g);
    LateEffect(s, g);
  }

  /** Acknowledgements that have been sent never run ahead. */
  lemma {:induction false} SpeakerHears(y: Peer, a: Act, inbound: set<Segment>, rcvNxt: nat)
    requires Numbered(y.sock.tx) && Enabled(y, a, inbound) && !a.Forsake?
    requires y.sock.tx.sndUna <= rcvNxt && forall g :: g in inbound ==> g.ackno <= rcvNxt
    ensures PeerStep(y, a).peer.sock.tx.sndUna <= rcvNxt
  {
    if a.Deliver? || a.Late? {
      InputEffect(y.sock, a.g);
      LateEffect(y.sock, a.g);
    }
  }

  lemma {:induction false} StepEchoes(s: System, e: Event, n: nat)
    requires Echoes(s, n) && Numbered(s.a.sock.tx) && CanStep(s, e)
    requires n + |Step(s, e).b.written| + s.b.sock.cc.smss < 0x1_0000_0000
    ensures Echoes(Step(s, e), n) && Step(s, e).b.sock.cc.smss == s.b.sock.cc.smss
    ensures s.a.sock.rx.rcvNxt <= Step(s, e).a.sock.rx.rcvNxt
  {
    match e.side
    case A =>
      ListenerEchoes(s.a, e.act, s.ba, Top(s.b));
    case B =>
      SpeaksKept(s.b, e.act, s.ab, n);
      SpeakerShort(s.b, e.act, s.ab, n);
      SpeakerEchoes(s.b, e.act, s.ab, n);
      BoundedMore(s.a.sock.rx, Top(s.b), Top(Step(s, e).b));
  }

  lemma {:induction false} StepBehind(s: System, e: Event, n: nat)
    requires Echoes(s, n) && AcksBehind(s) && Numbered(s.a.sock.tx) && CanStep(s, e) && Stays([e], B)
    requires n + |Step(s, e).b.written| + s.b.sock.cc.smss < 0x1_0000_0000
    ensures AcksBehind(Step(s, e))
  {
    assert [e][0] == e;
    match e.side
    case A => ListenerEchoes(s.a, e.act, s.ba, Top(s.b));
    case B => SpeakerHears(s.b, e.act, s.ab, s.a.sock.rx.rcvNxt);
  }

  /** The invariant of both directions at once: `a` in step, `b` anywhere. */
  ghost predicate Coupled(s: System, p: nat, n: nat) {
    InOrder(s, p, n) && Echoes(s, n) && AcksBehind(s)
  }

  lemma {:induction false} RunCoupled(s: System, es: seq<Event>, p: nat, n: nat)
    requires Coupled(s, p, n) && IsRun(s, es) && Stays(es, A) && Stays(es, B) && InRange(Run(s, es), p, n)
    requires n + |Run(s, es).b.written| + s.b.sock.cc.smss < 0x1_0000_0000
    ensures Coupled(Run(s, es), p, n)
    decreases |es|
  {
    if es != [] {
      StaysOn(es, A);
      StaysOn(es, B);
      WrittenGrows(Step(s, es[0]), es[1..]);
      SenderSpeaks(s, p, n);
      StepEchoes(s, es[0], n);
      StepBehind(s, es[0], n);
      StepKeeps(s, es[0], p, n);
      RunCoupled(Step(s, es[0]), es[1..], p, n);
    }
  }

  lemma {:induction false} SenderSpeaks(s: System, p: nat, n: nat)
    requires InOrder(s, p, n)
    ensures Speaks(s.a, p)
  {
    var u: nat, acc: set<nat> :| Direction(s.a, s.b, s.ab, s.ba, p, u, acc);
    SentInv(s.a.chunks, p, u, s.a.sock.tx);
    FlatLength(s.a.chunks);
  }

  lemma {:induction false} EstablishedCoupled(s: System, p: u32, q: u32)
    requires Established(s, p, q) && First(s.a) == p
    ensures Coupled(s, p, First(s.b))
  {
    EstablishedInOrder(s, p, q);
  }

  // ----- a listener that acknowledges what has not been sent

  /** Nothing in the network, and nothing that `a` will send, acknowledges a number that `b` has sent.
      `b` has received `got`, of which part has been read. */
  ghost predicate Deaf(s: System, p: nat, n: nat, top: nat, got: seq<byte>) {
    && Speaks(s.a, p) && Echoes(s, n)
    && s.b.unsent == [] && s.b.sock.tx.sndNxt == top < s.a.sock.rx.rcvNxt
    && (forall g :: g in s.ab ==> g.ackno > top)
    && s.b.delivered + Unread(s.b.sock.rx) == got
  }

  lemma {:induction false} Dropped(s: Sock, g: Segment)
    requires s.tx.sndUna <= s.tx.sndNxt < g.ackno
    ensures Input(s, g).sock == LateInput(s, g).sock == s
  {
  }

  lemma {:induction false} DeafStays(y: Peer, a: Act, inbound: set<Segment>, got: seq<byte>)
    requires Enabled(y, a, inbound) && y.sock.tx.sndUna <= y.sock.tx.sndNxt && y.unsent == []
    requires (forall g :: g in inbound ==> g.ackno > y.sock.tx.sndNxt) && PeerStep(y, a).peer.written == y.written
    requires y.delivered + Unread(y.sock.rx) == got
    ensures var y' := PeerStep(y, a).peer;
      y'.unsent == [] && y'.sock.tx.sndNxt == y.sock.tx.sndNxt && y'.delivered + Unread(y'.sock.rx) == got
  {
    match a
    case Deliver(g) => Dropped(y.sock, g);
    case Late(g) => Dropped(y.sock, g);
    case Read(len) =>
      DequeueTakesPrefix(y.sock.rx, len);
      ConcatAssociates(y.delivered, BytesRead(y.sock.rx, len), Unread(DataDequeue(y.sock.rx, len)));
    case _ =>
  }

  lemma {:induction false} AcksCurrent(x: Peer, a: Act, inbound: set<Segment>, top: nat)
    requires Numbered(x.sock.tx) && Enabled(x, a, inbound) && Bounded(x.sock.rx, top) && top < 0x1_0000_0000
    requires forall g :: g in inbound ==> g.seqno + |g.payload| <= top
    ensures forall g :: g in PeerStep(x, a).out ==> g.ackno >= x.sock.rx.rcvNxt
  {
    if a.Deliver? || a.Late? {
      InputEffect(x.sock, a.g);
      LateEffect(x.sock, a.g);
      DataQueueBounded(x.sock.rx, Arrived(a.g.seqno, a.g.payload, a.g.psh), top);
    }
  }

  lemma {:induction false} StepDeaf(s: System, e: Event, p: nat, n: nat, top: nat, got: seq<byte>)
    requires Deaf(s, p, n, top, got) && CanStep(s, e) && Step(s, e).b.written == s.b.written
    requires p + |Step(s, e).a.written| < 0x1_0000_0000
    requires n + |s.b.written| + s.b.sock.cc.smss < 0x1_0000_0000
    ensures Deaf(Step(s, e), p, n, top, got) && Step(s, e).b.sock.cc.smss == s.b.sock.cc.smss
  {
    StepEchoes(s, e, n);
    match e.side
    case A =>
      SpeaksKept(s.a, e.act, s.ba, p);
      AcksCurrent(s.a, e.act, s.ba, Top(s.b));
    case B =>
      DeafStays(s.b, e.act, s.ab, got);
  }

  /** From such a state on, as long as `b` writes nothing more, open or closed, no byte of `a` is ever
      accepted. */
  lemma {:induction false} NothingMoreArrives(s: System, es: seq<Event>, p: nat, n: nat, top: nat, got: seq<byte>)
    requires Deaf(s, p, n, top, got) && IsRun(s, es) && p + |Run(s, es).a.written| < 0x1_0000_0000
    requires Run(s, es).b.written == s.b.written && n + |s.b.written| + s.b.sock.cc.smss < 0x1_0000_0000
    ensures Run(s, es).b.delivered <= got
    decreases |es|
  {
    if es != [] {
      var s1 := Step(s, es[0]);
      WrittenGrows(s1, es[1..]);
      assert s.b.written <= s1.b.written <= s.b.written;
      StepDeaf(s, es[0], p, n, top, got);
      NothingMoreArrives(s1, es[1..], p, n, top, got);
    }
  }
}
