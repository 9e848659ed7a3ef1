/** Safety of data transfer over every run of the two-endpoint system. */
module TransferSafety {
  import opened Words
  import opened Stream
  import opened TcpData
  import opened Reassembly
  import opened TcpOutput
  import opened TcpInput
  import opened Transfer

  // ----- the receiver's steps

  lemma {:induction false} BytesAreFlat(q: seq<Skb>)
    ensures Bytes(q) == Flat(ChunksOf(q))
    decreases |q|
  {
    if q != [] {
      BytesAreFlat(q[1..]);
      FlatCons(ChunkOf(q[0]), ChunksOf(q[1..]));
    }
  }

  lemma {:induction false} ChunksOfSlice(cs: seq<Chunk>, base: nat, lo: nat, hi: nat)
    requires lo <= hi <= |cs| && Fits(cs, base)
    ensures ChunksOf(Slice(cs, base, lo, hi)) == cs[lo..hi]
    decreases hi - lo
  {
    if lo < hi {
      ChunksOfSlice(cs, base, lo + 1, hi);
    }
  }

  /** The bytes of a slice come right behind the bytes before it. */
  lemma {:induction false} SliceJoinsStream(cs: seq<Chunk>, base: nat, received: seq<Chunk>, delivered: seq<byte>, q: seq<Skb>, m: nat)
    requires received <= cs && |received| <= m <= |cs| && Fits(cs, base)
    requires Flat(received) == delivered + Bytes(q)
    ensures var added := Slice(cs, base, |received|, m);
      && received + ChunksOf(added) == cs[..m]
      && Flat(cs[..m]) == delivered + Bytes(q + added)
  {
    var added := Slice(cs, base, |received|, m);
    ChunksOfSlice(cs, base, |received|, m);
    assert received + cs[|received|..m] == cs[..m];
    BytesAreFlat(added);
    FlatConcat(received, ChunksOf(added));
    BytesConcat(q, added);
    ConcatAssociates(delivered, Bytes(q), Bytes(added));
  }

  /** Accepting chunk `i`: exactly the chunks that thereby come into order join the stream. */
  lemma {:induction false} ChunkReceived(cs: seq<Chunk>, base: nat, acc: set<nat>, received: seq<Chunk>, delivered: seq<byte>, rx: Rx, i: nat)
    requires ReceivedAs(cs, base, acc, received, delivered, rx) && |received| <= i < |cs|
    ensures var rx' := DataQueue(rx, SkbAt(cs, base, i));
      ReceivedAs(cs, base, acc + {i}, received + Joined(rx, rx'), delivered, rx')
  {
    var n := |received|;
    var rx', n' := DataQueue(rx, SkbAt(cs, base, i)), FirstMissing(cs, acc + {i}, n);
    DataQueueAccepts(cs, base, acc, n, rx, i);
    DataQueueKeepsWindow(rx, SkbAt(cs, base, i));
    assert rx'.queue[|rx.queue|..] == Slice(cs, base, n, n');
    SliceJoinsStream(cs, base, received, delivered, rx.queue, n');
  }

  /** A segment off the wire that carries chunk `i` and is acceptable is chunk `i` at or above the
      in-order point. */
  lemma {:induction false} CarriedChunk(cs: seq<Chunk>, base: nat, acc: set<nat>, n: nat, rx: Rx, g: Segment, i: nat)
    requires Reassembled(cs, base, acc, n, rx) && Carries(cs, base, g, i)
    requires Verify(rx, g.seqno, |g.payload|)
    ensures n <= i && Arrived(g.seqno, g.payload, g.psh) == SkbAt(cs, base, i)
  {
    OffCompare(cs, i, n);
    OffMonotone(cs, i + 1, |cs|);
  }

  lemma {:induction false} InputReceives(cs: seq<Chunk>, base: nat, acc: set<nat>, y: Peer, g: Segment) returns (acc': set<nat>)
    requires Receiving(cs, y, base, acc) && DataOk(cs, base, g) && Numbered(y.sock.tx)
    ensures var y' := PeerStep(y, Deliver(g)).peer;
      Receiving(cs, y', base, acc') && y.received <= y'.received
  {
    InputEffect(y.sock, g);
    var rx, rx' := y.sock.rx, Input(y.sock, g).sock.rx;
    if rx' == rx {
      acc' := acc;
      assert y.received + Joined(rx, rx') == y.received;
    } else {
      var i: nat :| Carries(cs, base, g, i);
      CarriedChunk(cs, base, acc, |y.received|, rx, g, i);
      ChunkReceived(cs, base, acc, y.received, y.delivered, rx, i);
      acc' := acc + {i};
    }
  }

  lemma {:induction false} ReadReceives(cs: seq<Chunk>, base: nat, acc: set<nat>, y: Peer, len: int)
    requires Receiving(cs, y, base, acc)
    ensures Receiving(cs, PeerStep(y, Read(len)).peer, base, acc)
  {
    DequeueTakesPrefix(y.sock.rx, len);
    ConcatAssociates(y.delivered, BytesRead(y.sock.rx, len), Bytes(DataDequeue(y.sock.rx, len).queue));
  }

  /** Emptying the out-of-order queue forgets the chunks above the in-order point. */
  lemma {:induction false} DiscardReceives(cs: seq<Chunk>, base: nat, acc: set<nat>, y: Peer) returns (acc': set<nat>)
    requires Receiving(cs, y, base, acc)
    ensures Receiving(cs, PeerStep(y, Discard).peer, base, acc')
  {
    var n := |y.received|;
    acc' := set j | j in acc && j < n;
    HeldAllBelow(cs, base, acc', n, n);
  }

  lemma {:induction false} HeldAllBelow(cs: seq<Chunk>, base: nat, acc: set<nat>, n: nat, lo: nat)
    requires Fits(cs, base) && n <= lo && forall j :: j in acc ==> j < n
    ensures Held(cs, base, acc, lo) == []
    decreases |cs| - lo
  {
    if lo < |cs| {
      HeldAllBelow(cs, base, acc, n, lo + 1);
    }
  }

  lemma {:induction false} RcvNxtIsBoundary(cs: seq<Chunk>, base: nat, acc: set<nat>, y: Peer, n: nat, g: Segment)
    requires Receiving(cs, y, base, acc) && |y.received| <= n && g.ackno == y.sock.rx.rcvNxt
    ensures AckOk(cs, base, n, g)
  {
    assert AckAt(cs, base, g.ackno, |y.received|);
  }

  // ----- a step of either side, seen from one direction

  lemma {:induction false} DataOkExtends(cs: seq<Chunk>, c: Chunk, base: nat, g: Segment)
    requires DataOk(cs, base, g)
    ensures DataOk(cs + [c], base, g)
  {
    if i: nat :| Carries(cs, base, g, i) {
      OffOfPrefix(cs, cs + [c], i);
      assert Carries(cs + [c], base, g, i);
    }
  }

  lemma {:induction false} AckOkExtends(cs: seq<Chunk>, c: Chunk, base: nat, n: nat, g: Segment)
    requires AckOk(cs, base, n, g)
    ensures AckOk(cs + [c], base, n, g)
  {
    var k: nat :| k <= n && AckAt(cs, base, g.ackno, k);
    OffOfPrefix(cs, cs + [c], k);
    assert AckAt(cs + [c], base, g.ackno, k);
  }

  lemma {:induction false} ReceivedExtends(cs: seq<Chunk>, c: Chunk, base: nat, acc: set<nat>, received: seq<Chunk>, delivered: seq<byte>, rx: Rx)
    requires ReceivedAs(cs, base, acc, received, delivered, rx)
    requires c.payload != [] && Fits(cs + [c], base)
    ensures ReceivedAs(cs + [c], base, acc, received, delivered, rx)
  {
    OffOfPrefix(cs, cs + [c], |received|);
    HeldExtends(cs, c, base, acc, |received|);
  }

  /** Sending one more segment. */
  lemma {:induction false} CutDirection(x: Peer, y: Peer, xy: set<Segment>, yx: set<Segment>, base: nat, u: nat, acc: set<nat>)
    requires Direction(x, y, xy, yx, base, u, acc) && x.unsent != []
    requires base + |x.written| < 0x1_0000_0000
    ensures var r := PeerStep(x, SendSegment);
      Direction(r.peer, y, xy + ToSet(r.out), yx, base, u, acc)
  {
    var r, c, cs := PeerStep(x, SendSegment), NextChunk(x), x.chunks;
    SendSegmentKeeps(x, base, u);
    ReceivedExtends(cs, c, base, acc, y.received, y.delivered, y.sock.rx);
    forall g | g in xy + ToSet(r.out)
      ensures DataOk(cs + [c], base, g)
    {
      if g in xy {
        DataOkExtends(cs, c, base, g);
      } else {
        OffOfPrefix(cs, cs + [c], |cs|);
        assert Carries(cs + [c], base, g, |cs|);
      }
    }
    forall g | g in yx
      ensures AckOk(cs + [c], base, |y.received|, g)
    {
      AckOkExtends(cs, c, base, |y.received|, g);
    }
  }

  lemma {:induction false} ClearSackedKeeps(cs: seq<Chunk>, base: nat, u: nat, tx: Tx)
    requires SentAs(cs, base, u, tx)
    ensures SentAs(cs, base, u, tx.(queue := ClearSacked(tx.queue), sackMaxRight := 0))
  {
  }

  /** The timeout repeats the head of the queue, and `snd_una` is its number. */
  lemma {:induction false} TimeoutSendsHead(cs: seq<Chunk>, base: nat, u: nat, s: Sock)
    requires SentAs(cs, base, u, s.tx) && s.tx.queue != []
    ensures s.tx.queue[0].seqno == s.tx.sndUna
    ensures DataOk(cs, base, RetransmitHead(s).out[0])
  {
    assert s.tx.queue[0].(sacked := false) == SkbAt(cs, base, u);
    assert Carries(cs, base, RetransmitHead(s).out[0], u);
  }

  /** A segment arriving at the sending side, open or closing. */
  lemma {:induction false} SenderHears(x: Peer, y: Peer, xy: set<Segment>, yx: set<Segment>, base: nat, u: nat, acc: set<nat>, g: Segment, late: bool)
    returns (u': nat)
    requires Direction(x, y, xy, yx, base, u, acc) && g in yx
    ensures var r := PeerStep(x, if late then Late(g) else Deliver(g));
      Direction(r.peer, y, xy + ToSet(r.out), yx, base, u', acc)
  {
    SentInv(x.chunks, base, u, x.sock.tx);
    InputEffect(x.sock, g);
    LateEffect(x.sock, g);
    SmssKept(x.sock, g);
    var o := if late then LateInput(x.sock, g) else Input(x.sock, g);
    u' := EffectSends(x.chunks, |y.received|, base, u, x.sock, g, o);
    EffectAnswers(x.chunks, base, u, x.sock, g, o);
  }

  /** Any step of the sending side keeps the direction. */
  lemma {:induction false} SenderActs(x: Peer, y: Peer, xy: set<Segment>, yx: set<Segment>, base: nat, u: nat, acc: set<nat>, a: Act)
    returns (u': nat)
    requires Direction(x, y, xy, yx, base, u, acc) && Enabled(x, a, yx) && !a.Forsake?
    requires base + |PeerStep(x, a).peer.written| < 0x1_0000_0000
    ensures var r := PeerStep(x, a);
      Direction(r.peer, y, xy + ToSet(r.out), yx, base, u', acc)
  {
    u' := u;
    match a
    case Write(data) =>
      assert x.written + data == Flat(x.chunks) + data;
    case SendSegment =>
      CutDirection(x, y, xy, yx, base, u, acc);
    case Deliver(g) =>
      u' := SenderHears(x, y, xy, yx, base, u, acc, g, false);
    case Late(g) =>
      u' := SenderHears(x, y, xy, yx, base, u, acc, g, true);
    case RtoFires =>
      ClearSackedKeeps(x.chunks, base, u, x.sock.tx);
      TimeoutSendsHead(x.chunks, base, u, x.sock);
    case DelackFires =>
    case Read(len) =>
    case Mute(g) =>
    case Discard =>
  }

  /** Every acknowledgement the receiving side emits is a chunk boundary it has reached. */
  lemma {:induction false} ReceiverAnswers(cs: seq<Chunk>, y: Peer, base: nat, acc: set<nat>, acc': set<nat>, a: Act)
    requires Receiving(cs, y, base, acc) && Numbered(y.sock.tx) && (a.RtoFires? ==> y.sock.tx.queue != [])
    requires Receiving(cs, PeerStep(y, a).peer, base, acc') && y.received <= PeerStep(y, a).peer.received
    ensures forall g :: g in PeerStep(y, a).out ==> AckOk(cs, base, |PeerStep(y, a).peer.received|, g)
  {
    var r := PeerStep(y, a);
    forall g | g in r.out
      ensures AckOk(cs, base, |r.peer.received|, g)
    {
      if a.Deliver? {
        InputEffect(y.sock, a.g);
      } else if a.Late? {
        LateEffect(y.sock, a.g);
      }
      if g.ackno == y.sock.rx.rcvNxt {
        RcvNxtIsBoundary(cs, base, acc, y, |r.peer.received|, g);
      } else {
        RcvNxtIsBoundary(cs, base, acc', r.peer, |r.peer.received|, g);
      }
    }
  }

  /** Any step of the receiving side keeps the direction. */
  lemma {:induction false} ReceiverActs(x: Peer, y: Peer, xy: set<Segment>, yx: set<Segment>, base: nat, u: nat, acc: set<nat>, a: Act)
    returns (acc': set<nat>)
    requires Direction(x, y, xy, yx, base, u, acc) && Enabled(y, a, xy) && Numbered(y.sock.tx)
    ensures var r := PeerStep(y, a);
      Direction(x, r.peer, xy, yx + ToSet(r.out), base, u, acc')
  {
    acc' := acc;
    var r := PeerStep(y, a);
    match a {
      case Deliver(g) => acc' := InputReceives(x.chunks, base, acc, y, g);
      case Read(len) => ReadReceives(x.chunks, base, acc, y, len);
      case Late(g) => LateEffect(y.sock, g);
      case Discard => acc' := DiscardReceives(x.chunks, base, acc, y);
      case _ =>
    }
    ReceiverAnswers(x.chunks, y, base, acc, acc', a);
    forall g | g in yx
      ensures AckOk(x.chunks, base, |r.peer.received|, g)
    {
      var k: nat :| k <= |y.received| && AckAt(x.chunks, base, g.ackno, k);
    }
  }

  // ----- the other side as a speaker

  /** Whatever it believes about its peer, the endpoint has numbered all it has queued, counting from
      `first`. */
  ghost predicate Speaks(y: Peer, first: nat) {
    && Numbered(y.sock.tx) && 0 < y.sock.cc.smss && 0 < first
    && |y.unsent| <= |y.written|
    && y.sock.tx.sndNxt == first + |y.written| - |y.unsent|
  }

  lemma {:induction false} SpeaksKept(y: Peer, a: Act, inbound: set<Segment>, first: nat)
    requires Speaks(y, first) && Enabled(y, a, inbound)
    requires first + |PeerStep(y, a).peer.written| < 0x1_0000_0000
    ensures Speaks(PeerStep(y, a).peer, first)
  {
    match a
    case SendSegment =>
      Add32Small(y.sock.tx.sndNxt, |NextChunk(y).payload|);
    case Deliver(g) =>
      InputEffect(y.sock, g);
      SmssKept(y.sock, g);
    case Late(g) =>
      LateEffect(y.sock, g);
      SmssKept(y.sock, g);
    case _ =>
  }

  // ----- every run

  /** The bytes of `a` are in order on their way to `b`: `a` numbers its stream from `p`. Nothing is
      asked of the bytes of `b` except that they are numbered, from `n`. */
  ghost predicate InOrder(s: System, p: nat, n: nat) {
    && (exists u: nat, acc: set<nat> :: Direction(s.a, s.b, s.ab, s.ba, p, u, acc))
    && Speaks(s.b, n)
  }

  /** Neither side has written past number 2^32; `p` and `n` are their first numbers. */
  ghost predicate InRange(s: System, p: nat, n: nat) {
    p + |s.a.written| < 0x1_0000_0000 && n + |s.b.written| < 0x1_0000_0000
  }

  lemma {:induction false} StepKeeps(s: System, e: Event, p: nat, n: nat)
    requires InOrder(s, p, n) && CanStep(s, e) && Stays([e], A) && InRange(Step(s, e), p, n)
    ensures InOrder(Step(s, e), p, n)
  {
    var u: nat, acc: set<nat> :| Direction(s.a, s.b, s.ab, s.ba, p, u, acc);
    assert [e][0] == e;
    match e.side
    case A =>
      var u' := SenderActs(s.a, s.b, s.ab, s.ba, p, u, acc, e.act);
    case B =>
      var acc' := ReceiverActs(s.a, s.b, s.ab, s.ba, p, u, acc, e.act);
      SpeaksKept(s.b, e.act, s.ab, n);
  }

  lemma {:induction false} WrittenGrows(s: System, es: seq<Event>)
    requires IsRun(s, es)
    ensures s.a.written <= Run(s, es).a.written && s.b.written <= Run(s, es).b.written
    decreases |es|
  {
    if es != [] {
      WrittenGrows(Step(s, es[0]), es[1..]);
    }
  }

  lemma {:induction false} StaysOn(es: seq<Event>, side: Side)
    requires es != [] && Stays(es, side)
    ensures Stays([es[0]], side) && Stays(es[1..], side)
  {
  }

  lemma {:induction false} RunKeeps(s: System, es: seq<Event>, p: nat, n: nat)
    requires IsRun(s, es) && InOrder(s, p, n) && Stays(es, A) && InRange(Run(s, es), p, n)
    ensures InOrder(Run(s, es), p, n)
    decreases |es|
  {
    if es != [] {
      StaysOn(es, A);
      WrittenGrows(Step(s, es[0]), es[1..]);
      StepKeeps(s, es[0], p, n);
      RunKeeps(Step(s, es[0]), es[1..], p, n);
    }
  }

  /** An endpoint right after the handshake: `una` and `nxt` are its `snd_una` and `snd_nxt`, it
      expects number `other`, and no data has been sent. Windows, scales and congestion counters are
      arbitrary. */
  ghost predicate Ready(p: Peer, una: u32, nxt: u32, other: u32) {
    && 0 < una <= nxt && 0 < p.sock.cc.smss
    && p == Peer(p.sock, [], [], [], [], [])
    && p.sock.tx == p.sock.tx.(sndUna := una, sndNxt := nxt, inflight := 0, queue := [])
    && p.sock.rx == Fresh(other, p.sock.rx.rcvWnd)
    && p.sock.rx.rcvWnd > 0
  }

  /** Each side expects the first number that the other has not seen acknowledged. An active opener
      also sends next under that number; a passive opener is one ahead of it. */
  ghost predicate Established(s: System, p: u32, q: u32) {
    && Ready(s.a, p, First(s.a), q) && Ready(s.b, q, First(s.b), p)
    && s.ab == {} && s.ba == {}
  }

  /** The number under which an endpoint sends its first byte. */
  ghost function First(x: Peer): u32 {
    x.sock.tx.sndNxt
  }

  lemma {:induction false} EstablishedInOrder(s: System, p: u32, q: u32)
    requires Established(s, p, q) && First(s.a) == p
    ensures InOrder(s, p, First(s.b))
  {
    assert Direction(s.a, s.b, s.ab, s.ba, p, 0, {});
  }

  lemma {:induction false} RunInOrder(s: System, es: seq<Event>, p: u32, q: u32)
    requires Established(s, p, q) && First(s.a) == p && IsRun(s, es) && Stays(es, A) && InRange(Run(s, es), p, First(s.b))
    ensures InOrder(Run(s, es), p, First(s.b))
  {
    EstablishedInOrder(s, p, q);
    RunKeeps(s, es, p, First(s.b));
  }

  lemma {:induction false} DeliveredIsPrefix(s: System, p: nat, n: nat)
    requires InOrder(s, p, n)
    ensures s.b.delivered <= s.a.written
  {
    var u: nat, acc: set<nat> :| Direction(s.a, s.b, s.ab, s.ba, p, u, acc);
    FlatOfPrefix(s.b.received, s.a.chunks);
  }

  /** The bytes read at one end are a prefix of the bytes written at the other, after every run of
      sends, timeouts, retransmissions, reads and deliveries in any order, with any loss, duplication
      and reordering, open or closed, for every side that starts in step with its peer and does not abort.
      An active opener starts in step and a passive opener does not; whatever the one that does not
      sends, the other direction holds. */
  lemma {:induction false} TransferTheorem(s: System, es: seq<Event>, p: u32, q: u32)
    requires Established(s, p, q) && IsRun(s, es) && InRange(Run(s, es), First(s.a), First(s.b))
    ensures var t := Run(s, es);
      && (First(s.a) == p && Stays(es, A) ==> t.b.delivered <= t.a.written)
      && (First(s.b) == q && Stays(es, B) ==> t.a.delivered <= t.b.written)
  {
    if First(s.a) == p && Stays(es, A) {
      RunInOrder(s, es, p, q);
      DeliveredIsPrefix(Run(s, es), p, First(s.b));
    }
    if First(s.b) == q && Stays(es, B) {
      SwapRun(s, es);
      SwapStays(es);
      RunInOrder(Swap(s), SwapAll(es), q, p);
      DeliveredIsPrefix(Swap(Run(s, es)), q, First(s.a));
    }
  }

  /** What a sender can rely on after every run: every acknowledgement in the network is a boundary
      of its segmentation, the head of its queue is numbered `snd_una`, the bytes in flight are
      exactly snd_nxt - snd_una, and `tcp_send_next` has nothing to send. */
  ghost predicate SenderFacts(x: Peer, base: nat, acks: set<Segment>) {
    && (forall g :: g in acks ==> AckOk(x.chunks, base, |x.chunks|, g))
    && (x.sock.tx.queue != [] ==> x.sock.tx.queue[0].seqno == x.sock.tx.sndUna)
    && x.sock.tx.inflight == x.sock.tx.sndNxt - x.sock.tx.sndUna
    && SendInv(x.sock.tx)
    && (forall extra: nat :: SendNextOut(x.sock, extra) == Outcome(x.sock, [], []))
  }

  lemma {:induction false} DirectionFacts(s: System, p: nat, n: nat)
    requires InOrder(s, p, n)
    ensures SenderFacts(s.a, p, s.ba)
  {
    var x := s.a;
    var u: nat, acc: set<nat> :| Direction(s.a, s.b, s.ab, s.ba, p, u, acc);
    SentInv(x.chunks, p, u, x.sock.tx);
    forall g | g in s.ba
      ensures AckOk(x.chunks, p, |x.chunks|, g)
    {
      var k: nat :| k <= |s.b.received| && AckAt(x.chunks, p, g.ackno, k);
    }
    forall extra: nat
      ensures SendNextOut(x.sock, extra) == Outcome(x.sock, [], [])
    {
      SendNextOutIsIdle(x.sock, extra);
    }
    if x.sock.tx.queue != [] {
      TimeoutSendsHead(x.chunks, p, u, x.sock);
    }
  }

  lemma {:induction false} SenderTheorem(s: System, es: seq<Event>, p: u32, q: u32)
    requires Established(s, p, q) && IsRun(s, es) && InRange(Run(s, es), First(s.a), First(s.b))
    ensures var t := Run(s, es);
      && (First(s.a) == p && Stays(es, A) ==> SenderFacts(t.a, p, t.ba))
      && (First(s.b) == q && Stays(es, B) ==> SenderFacts(t.b, q, t.ab))
  {
    if First(s.a) == p && Stays(es, A) {
      RunInOrder(s, es, p, q);
      DirectionFacts(Run(s, es), p, First(s.b));
    }
    if First(s.b) == q && Stays(es, B) {
      SwapRun(s, es);
      SwapStays(es);
      RunInOrder(Swap(s), SwapAll(es), q, p);
      DirectionFacts(Swap(Run(s, es)), q, First(s.a));
    }
  }
}
