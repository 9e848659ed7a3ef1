/** Two endpoints running this stack over a network that drops, duplicates and reorders. The
    network keeps every segment ever sent; delivery picks any of them, any number of times.
    Both directions carry data at once. */
module Transfer {
  import opened Words
  import opened Stream
  import opened TcpData
  import opened Reassembly
  import opened Congestion
  import opened TcpOutput
  import opened TcpInput

  /** An endpoint with its application. `unsent` is the rest of the buffer that `tcp_send` is
      working on; the other four record history: what the application wrote, how it was cut,
      which segments arrived in order, and what the reader has got. */
  datatype Peer = Peer(
    sock: Sock,
    written: seq<byte>,
    unsent: seq<byte>,
    chunks: seq<Chunk>,
    received: seq<Chunk>,
    delivered: seq<byte>)

  /** What can happen at an endpoint. The last four happen when a connection is closed and afterwards:
      a segment arrives in TCP_CLOSING or in TCP_TIME_WAIT, `tcp_done` empties the out-of-order queue,
      and `tcp_send_reset` sets `snd_una` to `snd_nxt`. */
  datatype Act =
    | Write(data: seq<byte>)
    | SendSegment
    | Deliver(g: Segment)
    | RtoFires
    | DelackFires
    | Read(len: int)
    | Late(g: Segment)
    | Mute(g: Segment)
    | Discard
    | Forsake

  /** `tcp_send` cuts one segment at a time and sleeps while the window is closed. A delayed-ACK
      thread that was spawned before its timer was stopped still sends, so that may happen any time. */
  predicate Enabled(p: Peer, a: Act, inbound: set<Segment>) {
    match a
    case Write(data) => p.unsent == []
    case SendSegment => p.unsent != [] && WindowOpen(p.sock.tx, p.sock.cc, |NextChunk(p).payload|)
    case Deliver(g) => g in inbound
    case RtoFires => p.sock.tx.queue != []
    case DelackFires => true
    case Read(len) => true
    case Late(g) => g in inbound
    case Mute(g) => g in inbound
    case Discard => true
    case Forsake => true
  }

  function NextChunk(p: Peer): Chunk {
    var n := Min(p.sock.cc.smss, |p.unsent|);
    Chunk(p.unsent[..n], n == |p.unsent|)
  }

  datatype PeerResult = PeerResult(peer: Peer, out: seq<Segment>)

  function ChunkOf(s: Skb): Chunk {
    Chunk(s.payload, s.psh)
  }

  function ChunksOf(q: seq<Skb>): (cs: seq<Chunk>)
    ensures |cs| == |q| && forall i :: 0 <= i < |q| ==> cs[i] == ChunkOf(q[i])
  {
    if q == [] then [] else [ChunkOf(q[0])] + ChunksOf(q[1..])
  }

  /** The segments an arrival moved to the receive queue. */
  function Joined(before: Rx, after: Rx): seq<Chunk> {
    if |before.queue| <= |after.queue| then ChunksOf(after.queue[|before.queue|..]) else []
  }

  function PeerStep(p: Peer, a: Act): PeerResult
    requires a.RtoFires? ==> p.sock.tx.queue != []
  {
    match a
    case Write(data) => PeerResult(p.(written := p.written + data, unsent := data), [])
    case SendSegment =>
      var c := NextChunk(p);
      var o := SendChunk(p.sock, c.payload, c.psh);
      PeerResult(p.(sock := o.sock, unsent := p.unsent[|c.payload|..], chunks := p.chunks + [c]), o.out)
    case Deliver(g) =>
      var o := Input(p.sock, g);
      PeerResult(p.(sock := o.sock, received := p.received + Joined(p.sock.rx, o.sock.rx)), o.out)
    case RtoFires =>
      var o := RetransmitHead(p.sock);
      PeerResult(p.(sock := o.sock), o.out)
    case DelackFires =>
      var o := Delack(p.sock);
      PeerResult(p.(sock := o.sock), o.out)
    case Read(len) =>
      PeerResult(p.(sock := p.sock.(rx := DataDequeue(p.sock.rx, len)),
                    delivered := p.delivered + BytesRead(p.sock.rx, len)), [])
    case Late(g) =>
      var o := LateInput(p.sock, g);
      PeerResult(p.(sock := o.sock), o.out)
    case Mute(g) => PeerResult(p, MuteOut(p.sock, g))
    case Discard => PeerResult(p.(sock := p.sock.(rx := p.sock.rx.(ofo := []))), [])
    case Forsake => PeerResult(p.(sock := p.sock.(tx := p.sock.tx.(sndUna := p.sock.tx.sndNxt))), [])
  }

  /** The acts of an endpoint whose connection is open. */
  predicate Regular(a: Act) {
    !a.Late? && !a.Mute? && !a.Discard? && !a.Forsake?
  }

  /** The side does not abort in the run. */
  ghost predicate Stays(es: seq<Event>, side: Side) {
    forall i :: 0 <= i < |es| && es[i].side == side ==> !es[i].act.Forsake?
  }

  // ----- the system

  datatype Side = A | B

  datatype System = System(a: Peer, b: Peer, ab: set<Segment>, ba: set<Segment>)

  datatype Event = Event(side: Side, act: Act)

  function ToSet(gs: seq<Segment>): set<Segment> {
    set g | g in gs
  }

  predicate CanStep(s: System, e: Event) {
    match e.side
    case A => Enabled(s.a, e.act, s.ba)
    case B => Enabled(s.b, e.act, s.ab)
  }

  function Step(s: System, e: Event): System
    requires CanStep(s, e)
  {
    match e.side
    case A =>
      var r := PeerStep(s.a, e.act);
      s.(a := r.peer, ab := s.ab + ToSet(r.out))
    case B =>
      var r := PeerStep(s.b, e.act);
      s.(b := r.peer, ba := s.ba + ToSet(r.out))
  }

  predicate IsRun(s: System, es: seq<Event>)
    decreases |es|
  {
    es != [] ==> CanStep(s, es[0]) && IsRun(Step(s, es[0]), es[1..])
  }

  function Run(s: System, es: seq<Event>): System
    requires IsRun(s, es)
    decreases |es|
  {
    if es == [] then s else Run(Step(s, es[0]), es[1..])
  }

  lemma {:induction false} RunThen(s: System, es: seq<Event>, fs: seq<Event>)
    requires IsRun(s, es) && IsRun(Run(s, es), fs)
    ensures IsRun(s, es + fs) && Run(s, es + fs) == Run(Run(s, es), fs)
    decreases |es|
  {
    if es == [] {
      assert es + fs == fs;
    } else {
      var gs := es + fs;
      assert gs != [] && gs[0] == es[0] && gs[1..] == es[1..] + fs;
      RunThen(Step(s, es[0]), es[1..], fs);
      assert Run(s, gs) == Run(Step(s, es[0]), gs[1..]);
    }
  }

  lemma {:induction false} RunOne(s: System, e: Event)
    requires CanStep(s, e)
    ensures IsRun(s, [e]) && Run(s, [e]) == Step(s, e)
  {
    assert [e][1..] == [];
  }

  /** One more step at the end of a run. */
  lemma {:induction false} RunMore(s: System, es: seq<Event>, e: Event)
    requires IsRun(s, es) && CanStep(Run(s, es), e)
    ensures IsRun(s, es + [e]) && Run(s, es + [e]) == Step(Run(s, es), e)
  {
    RunOne(Run(s, es), e);
    RunThen(s, es, [e]);
  }

  // ----- the same system seen from the other side

  function Swap(s: System): System {
    System(s.b, s.a, s.ba, s.ab)
  }

  function SwapEvent(e: Event): Event {
    Event(if e.side == A then B else A, e.act)
  }

  function SwapAll(es: seq<Event>): seq<Event> {
    if es == [] then [] else [SwapEvent(es[0])] + SwapAll(es[1..])
  }

  lemma {:induction false} SwapRun(s: System, es: seq<Event>)
    requires IsRun(s, es)
    ensures IsRun(Swap(s), SwapAll(es)) && Run(Swap(s), SwapAll(es)) == Swap(Run(s, es))
    decreases |es|
  {
    if es != [] {
      SwapRun(Step(s, es[0]), es[1..]);
      assert Step(Swap(s), SwapEvent(es[0])) == Swap(Step(s, es[0]));
      assert SwapAll(es)[1..] == SwapAll(es[1..]);
    }
  }

  lemma {:induction false} SwapStays(es: seq<Event>)
    ensures |SwapAll(es)| == |es|
    ensures Stays(es, B) ==> Stays(SwapAll(es), A)
  {
    if es != [] {
      SwapStays(es[1..]);
      if Stays(es, B) {
        assert !(es[0].side == B && es[0].act.Forsake?);
        assert forall i :: 0 <= i < |es[1..]| ==> es[1..][i] == es[i + 1];
      }
    }
  }

  // ----- one direction of the connection

  /** The stream is cut into `cs`; the queue is exactly the chunks from number `u` on, and
      everything below `u` is acknowledged. */
  ghost predicate SentAs(cs: seq<Chunk>, base: nat, u: nat, tx: Tx) {
    && 0 < base && NonEmpty(cs) && Fits(cs, base)
    && u <= |cs| && Queued(tx.queue, cs, base, u)
    && tx.sndUna == base + Off(cs, u)
    && tx.sndNxt == base + Off(cs, |cs|)
    && tx.inflight == Off(cs, |cs|) - Off(cs, u)
  }

  ghost predicate Sending(x: Peer, base: nat, u: nat) {
    && SentAs(x.chunks, base, u, x.sock.tx)
    && x.written == Flat(x.chunks) + x.unsent
    && 0 < x.sock.cc.smss
  }

  ghost predicate Queued(q: seq<Skb>, cs: seq<Chunk>, base: nat, u: nat)
    requires Fits(cs, base) && u <= |cs|
  {
    && |q| == |cs| - u
    && forall i :: 0 <= i < |q| ==> q[i].(sacked := false) == SkbAt(cs, base, u + i)
  }

  /** The chunks of `acc` have been accepted, `received` of them in order, and of those bytes
      `delivered` have been read; the rest wait in the receive queue. */
  ghost predicate ReceivedAs(cs: seq<Chunk>, base: nat, acc: set<nat>, received: seq<Chunk>, delivered: seq<byte>, rx: Rx) {
    && received <= cs
    && Reassembled(cs, base, acc, |received|, rx)
    && Flat(received) == delivered + Bytes(rx.queue)
    && rx.rcvWnd > 0
  }

  ghost predicate Receiving(cs: seq<Chunk>, y: Peer, base: nat, acc: set<nat>) {
    ReceivedAs(cs, base, acc, y.received, y.delivered, y.sock.rx)
  }

  /** `g` repeats chunk `i` under its own number. */
  ghost predicate Carries(cs: seq<Chunk>, base: nat, g: Segment, i: nat) {
    i < |cs| && g.seqno == base + Off(cs, i) && g.payload == cs[i].payload && g.psh == cs[i].psh
  }

  ghost predicate DataOk(cs: seq<Chunk>, base: nat, g: Segment) {
    (g.payload == [] && !g.psh) || exists i: nat :: Carries(cs, base, g, i)
  }

  /** An acknowledgement number is a boundary between chunks, at most the `n`-th. */
  ghost predicate AckAt(cs: seq<Chunk>, base: nat, ackno: nat, k: nat) {
    k <= |cs| && ackno == base + Off(cs, k)
  }

  ghost predicate AckOk(cs: seq<Chunk>, base: nat, n: nat, g: Segment) {
    exists k: nat :: k <= n && AckAt(cs, base, g.ackno, k)
  }

  ghost predicate Direction(x: Peer, y: Peer, xy: set<Segment>, yx: set<Segment>, base: nat, u: nat, acc: set<nat>) {
    && Sending(x, base, u)
    && Receiving(x.chunks, y, base, acc)
    && u <= |y.received|
    && (forall g :: g in xy ==> DataOk(x.chunks, base, g))
    && (forall g :: g in yx ==> AckOk(x.chunks, base, |y.received|, g))
  }

  // ----- the sender's steps

  lemma {:induction false} QueuedCovers(q: seq<Skb>, cs: seq<Chunk>, base: nat, u: nat)
    requires NonEmpty(cs) && Fits(cs, base) && u <= |cs| && Queued(q, cs, base, u)
    ensures Covers(q, base + Off(cs, u), base + Off(cs, |cs|))
    decreases |q|
  {
    if q != [] {
      assert q[0].(sacked := false) == SkbAt(cs, base, u);
      forall i | 0 <= i < |q[1..]|
        ensures q[1..][i].(sacked := false) == SkbAt(cs, base, u + 1 + i)
      {
        assert q[1..][i] == q[i + 1];
      }
      QueuedCovers(q[1..], cs, base, u + 1);
    }
  }

  lemma {:induction false} SentInv(cs: seq<Chunk>, base: nat, u: nat, tx: Tx)
    requires SentAs(cs, base, u, tx)
    ensures SendInv(tx) && Numbered(tx)
  {
    QueuedCovers(tx.queue, cs, base, u);
    if tx.queue != [] {
      assert tx.queue[0].(sacked := false) == SkbAt(cs, base, u);
    }
    NumbersAssigned(tx);
  }

  lemma {:induction false} QueuedExtends(q: seq<Skb>, cs: seq<Chunk>, c: Chunk, base: nat, u: nat)
    requires Fits(cs, base) && Fits(cs + [c], base) && u <= |cs| && Queued(q, cs, base, u)
    ensures Queued(q + [SkbAt(cs + [c], base, |cs|)], cs + [c], base, u)
  {
    var cs', q' := cs + [c], q + [SkbAt(cs + [c], base, |cs|)];
    forall i | 0 <= i < |q'|
      ensures q'[i].(sacked := false) == SkbAt(cs', base, u + i)
    {
      if i < |q| {
        assert q[i].(sacked := false) == SkbAt(cs, base, u + i);
        OffOfPrefix(cs, cs', u + i);
      }
    }
  }

  lemma {:induction false} CutKeepsStream(x: Peer)
    requires x.written == Flat(x.chunks) + x.unsent
    ensures var c := NextChunk(x);
      && x.written == Flat(x.chunks + [c]) + x.unsent[|c.payload|..]
      && Off(x.chunks + [c], |x.chunks|) == Off(x.chunks, |x.chunks|)
      && Off(x.chunks + [c], |x.chunks| + 1) <= |x.written|
  {
    var c, cs := NextChunk(x), x.chunks;
    FlatAppend(cs, c);
    assert x.unsent == c.payload + x.unsent[|c.payload|..];
    ConcatAssociates(Flat(cs), c.payload, x.unsent[|c.payload|..]);
    FlatLength(cs + [c]);
    OffOfPrefix(cs, cs + [c], |cs|);
  }

  lemma {:induction false} OffsAppend(cs: seq<Chunk>, c: Chunk, u: nat)
    requires u <= |cs|
    ensures Off(cs + [c], u) == Off(cs, u) <= Off(cs, |cs|) == Off(cs + [c], |cs|)
    ensures Off(cs + [c], |cs| + 1) == Off(cs, |cs|) + |c.payload|
  {
    OffOfPrefix(cs, cs + [c], |cs|);
    OffOfPrefix(cs, cs + [c], u);
    OffMonotone(cs, u, |cs|);
  }

  lemma {:induction false} EnqueueSent(cs: seq<Chunk>, c: Chunk, base: nat, u: nat, tx: Tx)
    requires SentAs(cs, base, u, tx) && c.payload != [] && Fits(cs + [c], base)
    ensures SentAs(cs + [c], base, u, Enqueue(tx, c.payload, c.psh))
  {
    OffsAppend(cs, c, u);
    Add32Small(tx.sndNxt, |c.payload|);
    Add32Small(tx.inflight, |c.payload|);
    QueuedExtends(tx.queue, cs, c, base, u);
  }

  /** Cutting and queueing one more chunk. */
  lemma {:induction false} SendSegmentKeeps(x: Peer, base: nat, u: nat)
    requires Sending(x, base, u) && x.unsent != []
    requires base + |x.written| < 0x1_0000_0000
    ensures Sending(PeerStep(x, SendSegment).peer, base, u)
  {
    CutKeepsStream(x);
    EnqueueSent(x.chunks, NextChunk(x), base, u, x.sock.tx);
  }

  lemma {:induction false} AckedCount(q: seq<Skb>, cs: seq<Chunk>, base: nat, u: nat, k: nat)
    requires 0 < base && NonEmpty(cs) && Fits(cs, base) && u <= k <= |cs| && Queued(q, cs, base, u)
    ensures base + Off(cs, k) < 0x1_0000_0000 && Acked(q, base + Off(cs, k)) == k - u
    decreases k - u
  {
    OffMonotone(cs, k, |cs|);
    if u < |cs| {
      assert q[0].(sacked := false) == SkbAt(cs, base, u);
      if u < k {
        OffMonotone(cs, u + 1, k);
        forall i | 0 <= i < |q[1..]|
          ensures q[1..][i].(sacked := false) == SkbAt(cs, base, u + 1 + i)
        {
          assert q[1..][i] == q[i + 1];
        }
        AckedCount(q[1..], cs, base, u + 1, k);
      }
    }
  }

  /** An acknowledgement of a chunk boundary removes exactly the chunks below it. */
  lemma {:induction false} AckKeeps(cs: seq<Chunk>, base: nat, u: nat, k: nat, tx: Tx, una: u32)
    requires SentAs(cs, base, u, tx) && u < k && AckAt(cs, base, una, k)
    ensures SentAs(cs, base, k, Clean(tx.(sndUna := una), una))
  {
    SentInv(cs, base, u, tx);
    OffMonotone(cs, u, k);
    OffMonotone(cs, k, |cs|);
    CleanKeeps(tx, una);
    AckedCount(tx.queue, cs, base, u, k);
    var q' := tx.queue[k - u..];
    forall i | 0 <= i < |q'|
      ensures q'[i].(sacked := false) == SkbAt(cs, base, k + i)
    {
      assert q'[i] == tx.queue[k - u + i];
    }
    if q' != [] {
      assert q'[0].(sacked := false) == SkbAt(cs, base, k);
    }
  }

  lemma {:induction false} RepeatsIsChunk(cs: seq<Chunk>, base: nat, u: nat, tx: Tx, o: Segment)
    requires SentAs(cs, base, u, tx) && Repeats(tx.queue, o)
    ensures DataOk(cs, base, o)
  {
    var q := tx.queue;
    var i :| 0 <= i < |q| && q[i].seqno == o.seqno && q[i].payload == o.payload && q[i].psh == o.psh;
    assert q[i].(sacked := false) == SkbAt(cs, base, u + i);
    assert Carries(cs, base, o, u + i);
  }

  lemma {:induction false} SmssKept(s: Sock, g: Segment)
    requires Numbered(s.tx)
    ensures Input(s, g).sock.cc.smss == s.cc.smss && LateInput(s, g).sock.cc.smss == s.cc.smss
  {
    InputEffect(s, g);
    LateEffect(s, g);
    AckAllSmss(s.cc, AckedLengths(s.tx, g.ackno));
  }

  /** Taking in a segment: for the send side only its acknowledgement number matters. */
  lemma {:induction false} EffectSends(cs: seq<Chunk>, n: nat, base: nat, u: nat, s: Sock, g: Segment, o: Outcome) returns (u': nat)
    requires SentAs(cs, base, u, s.tx) && u <= n <= |cs| && AckOk(cs, base, n, g) && Effect(s, g, o)
    ensures u <= u' <= n && SentAs(cs, base, u', o.sock.tx)
  {
    if o.sock.tx == s.tx {
      u' := u;
    } else {
      var k: nat :| k <= n && AckAt(cs, base, g.ackno, k);
      OffCompare(cs, u, k);
      AckKeeps(cs, base, u, k, s.tx, g.ackno);
      u' := k;
    }
  }

  /** Whatever goes out in answer carries nothing or repeats a chunk. */
  lemma {:induction false} EffectAnswers(cs: seq<Chunk>, base: nat, u: nat, s: Sock, g: Segment, o: Outcome)
    requires SentAs(cs, base, u, s.tx) && Effect(s, g, o)
    ensures forall x :: x in o.out ==> DataOk(cs, base, x)
  {
    forall x | x in o.out
      ensures DataOk(cs, base, x)
    {
      if Repeats(s.tx.queue, x) {
        RepeatsIsChunk(cs, base, u, s.tx, x);
      }
    }
  }
}
