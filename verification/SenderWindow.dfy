/** The send window of one endpoint over every run, whatever its peer does: any segment may arrive at
    any time. What may be in flight, that the congestion counters follow the runs of `CongestionRun`,
    and when the first segment can go out at all. */
module SenderWindow {
  import opened Words
  import opened Stream
  import opened TcpData
  import opened Congestion
  import CR = CongestionRun
  import opened TcpOutput
  import opened TcpInput
  import opened Transfer
  import opened TransferSafety

  // ----- runs of one endpoint

  predicate CanAct(x: Peer, a: Act) {
    Enabled(x, a, Inbox(a))
  }

  predicate IsPeerRun(x: Peer, acts: seq<Act>)
    decreases |acts|
  {
    acts != [] ==> CanAct(x, acts[0]) && IsPeerRun(PeerStep(x, acts[0]).peer, acts[1..])
  }

  function PeerRun(x: Peer, acts: seq<Act>): Peer
    requires IsPeerRun(x, acts)
    decreases |acts|
  {
    if acts == [] then x else PeerRun(PeerStep(x, acts[0]).peer, acts[1..])
  }

  function Inbox(a: Act): set<Segment> {
    if a.Deliver? || a.Late? || a.Mute? then {a.g} else {}
  }

  lemma {:induction false} RunWrites(x: Peer, acts: seq<Act>)
    requires IsPeerRun(x, acts)
    ensures |x.written| <= |PeerRun(x, acts).written|
    decreases |acts|
  {
    if acts != [] {
      RunWrites(PeerStep(x, acts[0]).peer, acts[1..]);
    }
  }

  // ----- the window gate

  ghost predicate Gated(s: Sock, s': Sock) {
    s'.tx.inflight > s.tx.inflight ==> s'.tx.inflight <= Min(s'.cc.cwnd, s'.tx.sndWnd)
  }

  lemma {:induction false} SettleDecreases(inflight: u32, q: seq<Skb>, k: nat)
    requires k <= |q|
    ensures Settle(inflight, q, k) <= inflight
    decreases k
  {
    if k > 0 {
      SettleDecreases(if inflight >= Dlen(q[0]) then inflight - Dlen(q[0]) else 0, q[1..], k - 1);
    }
  }

  /** Whatever happened while the writer slept, a step that puts bytes in flight leaves no more in
      flight than the smaller of the congestion window and the peer's window. */
  lemma {:induction false} InflightWithinWindow(x: Peer, a: Act)
    requires Numbered(x.sock.tx) && CanAct(x, a)
    ensures Gated(x.sock, PeerStep(x, a).peer.sock)
  {
    if a.Deliver? || a.Late? {
      InputEffect(x.sock, a.g);
      LateEffect(x.sock, a.g);
      SettleDecreases(x.sock.tx.inflight, x.sock.tx.queue, Acked(x.sock.tx.queue, a.g.ackno));
    }
  }

  lemma {:induction false} RunSpeaks(x: Peer, acts: seq<Act>, first: nat)
    requires Speaks(x, first) && IsPeerRun(x, acts) && first + |PeerRun(x, acts).written| < 0x1_0000_0000
    ensures Speaks(PeerRun(x, acts), first)
    decreases |acts|
  {
    if acts != [] {
      var x' := PeerStep(x, acts[0]).peer;
      RunWrites(x', acts[1..]);
      SpeaksKept(x, acts[0], Inbox(acts[0]), first);
      RunSpeaks(x', acts[1..], first);
    }
  }

  /** The gate at every step of every run, with any peer, for active and passive openers alike. */
  lemma {:induction false} GateTheorem(x: Peer, acts: seq<Act>, a: Act, una: u32, other: u32)
    requires Ready(x, una, First(x), other) && IsPeerRun(x, acts) && CanAct(PeerRun(x, acts), a)
    requires First(x) + |PeerRun(x, acts).written| < 0x1_0000_0000
    ensures Gated(PeerRun(x, acts).sock, PeerStep(PeerRun(x, acts), a).peer.sock)
  {
    RunSpeaks(x, acts, First(x));
    InflightWithinWindow(PeerRun(x, acts), a);
  }

  // ----- the queue as the unacknowledged end of what has been cut

  /** The queue holds the chunks from number `u` on, and the bytes in flight are exactly theirs. */
  ghost predicate Flows(cs: seq<Chunk>, u: nat, tx: Tx) {
    && u <= |cs| && Off(cs, |cs|) < 0x1_0000_0000
    && |tx.queue| == |cs| - u
    && (forall i :: 0 <= i < |tx.queue| ==> tx.queue[i].payload == cs[u + i].payload)
    && tx.inflight == Off(cs, |cs|) - Off(cs, u)
  }

  lemma {:induction false} FlowsCut(cs: seq<Chunk>, c: Chunk, u: nat, tx: Tx)
    requires Flows(cs, u, tx) && Off(cs, |cs|) + |c.payload| < 0x1_0000_0000
    ensures Flows(cs + [c], u, Enqueue(tx, c.payload, c.psh))
  {
    OffsAppend(cs, c, u);
    Add32Small(tx.inflight, |c.payload|);
  }

  /** The queue holds the chunks from number `u` on. */
  ghost predicate HoldsFrom(cs: seq<Chunk>, u: nat, q: seq<Skb>) {
    u + |q| == |cs| && forall i :: 0 <= i < |q| ==> q[i].payload == cs[u + i].payload
  }

  lemma {:induction false} HoldsRest(cs: seq<Chunk>, u: nat, q: seq<Skb>)
    requires HoldsFrom(cs, u, q) && q != [] && Off(cs, |cs|) < 0x1_0000_0000
    ensures HoldsFrom(cs, u + 1, q[1..]) && Off(cs, u + 1) == Off(cs, u) + Dlen(q[0]) <= Off(cs, |cs|)
  {
    assert q[0].payload == cs[u].payload;
    OffMonotone(cs, u + 1, |cs|);
    assert forall i :: 0 <= i < |q[1..]| ==> q[1..][i] == q[i + 1];
  }

  /** Removing the front `k` segments: `inflight` falls by exactly their bytes. */
  lemma {:induction false} SettleIsExact(cs: seq<Chunk>, u: nat, q: seq<Skb>, k: nat, inflight: u32)
    requires HoldsFrom(cs, u, q) && k <= |q| && Off(cs, |cs|) < 0x1_0000_0000
    requires inflight == Off(cs, |cs|) - Off(cs, u)
    ensures Settle(inflight, q, k) == Off(cs, |cs|) - Off(cs, u + k)
    decreases k
  {
    if k > 0 {
      HoldsRest(cs, u, q);
      SettleIsExact(cs, u + 1, q[1..], k - 1, inflight - Dlen(q[0]));
    }
  }

  lemma {:induction false} SumIsExact(cs: seq<Chunk>, u: nat, q: seq<Skb>, k: nat)
    requires HoldsFrom(cs, u, q) && k <= |q| && Off(cs, |cs|) < 0x1_0000_0000
    ensures Sum(Lengths(q[..k])) == Off(cs, u + k) - Off(cs, u)
    decreases k
  {
    if k > 0 {
      HoldsRest(cs, u, q);
      SumIsExact(cs, u + 1, q[1..], k - 1);
      SumFront(q, k);
    }
  }

  lemma {:induction false} SumFront(q: seq<Skb>, k: nat)
    requires 0 < k <= |q|
    ensures Sum(Lengths(q[..k])) == Dlen(q[0]) + Sum(Lengths(q[1..][..k - 1]))
  {
    assert q[..k][1..] == q[1..][..k - 1] && q[..k][0] == q[0];
  }

  lemma {:induction false} FlowsClean(cs: seq<Chunk>, u: nat, tx: Tx, una: u32)
    requires Flows(cs, u, tx)
    ensures var k := Acked(tx.queue, una);
      && Flows(cs, u + k, Clean(tx.(sndUna := una), una))
      && Sum(AckedLengths(tx, una)) == Off(cs, u + k) - Off(cs, u)
  {
    var k := Acked(tx.queue, una);
    assert HoldsFrom(cs, u, tx.queue);
    SettleIsExact(cs, u, tx.queue, k, tx.inflight);
    SumIsExact(cs, u, tx.queue, k);
  }

  // ----- congestion counters of a connection

  /** A connection that has cut `cs`, of which `u` chunks are acknowledged, seen as a state of the
      congestion run. */
  ghost function TrackOf(cs: seq<Chunk>, u: nat, cc: Cc, dups: nat, timedOut: bool): CR.Track
    requires u <= |cs|
  {
    CR.Track(cc, dups, timedOut, Off(cs, |cs|), Off(cs, u))
  }

  ghost predicate Controlled(cs: seq<Chunk>, u: nat, cc: Cc) {
    && u <= |cs|
    && (forall i :: 0 <= i < |cs| ==> |cs[i].payload| <= cc.smss)
    && exists dups: nat, timedOut: bool :: CR.Inv(TrackOf(cs, u, cc, dups, timedOut))
  }

  lemma {:induction false} LengthsBounded(cs: seq<Chunk>, u: nat, q: seq<Skb>, k: nat, smss: nat)
    requires u + |q| == |cs| && k <= |q|
    requires forall i :: 0 <= i < |q| ==> q[i].payload == cs[u + i].payload
    requires forall i :: 0 <= i < |cs| ==> |cs[i].payload| <= smss
    ensures forall i :: 0 <= i < k ==> Lengths(q[..k])[i] <= smss
  {
    forall i | 0 <= i < k
      ensures Lengths(q[..k])[i] <= smss
    {
      assert q[i].payload == cs[u + i].payload;
      DlenBounded(q[i]);
    }
  }

  lemma {:induction false} DlenBounded(s: Skb)
    ensures Dlen(s) <= |s.payload|
  {
  }

  lemma {:induction false} DupControlled(cs: seq<Chunk>, u: nat, tx: Tx, cc: Cc)
    requires Flows(cs, u, tx) && Controlled(cs, u, cc) && tx.inflight != 0
    requires CR.Room(TrackOf(cs, u, cc, 0, false))
    ensures Controlled(cs, u, HandleDupack(cc, tx.inflight))
  {
    var dups: nat, timedOut: bool :| CR.Inv(TrackOf(cs, u, cc, dups, timedOut));
    var t := TrackOf(cs, u, cc, dups, timedOut);
    assert CR.Inflight(t) == tx.inflight;
    CR.DupKeeps(t);
    var t' := CR.Step(t, CR.Dup);
    assert t'.cc == HandleDupack(cc, tx.inflight);
    assert t' == TrackOf(cs, u, HandleDupack(cc, tx.inflight), t'.dups, t'.timedOut);
  }

  lemma {:induction false} TimeoutControlled(cs: seq<Chunk>, u: nat, tx: Tx, cc: Cc)
    requires Flows(cs, u, tx) && Controlled(cs, u, cc)
    requires CR.Room(TrackOf(cs, u, cc, 0, false))
    ensures Controlled(cs, u, Timeout(cc, tx.inflight))
  {
    var dups: nat, timedOut: bool :| CR.Inv(TrackOf(cs, u, cc, dups, timedOut));
    var t := TrackOf(cs, u, cc, dups, timedOut);
    assert CR.Inflight(t) == tx.inflight;
    CR.RtoKeeps(t);
    var t' := CR.Step(t, CR.Rto);
    assert t'.cc == Timeout(cc, tx.inflight) && t'.cc.smss == cc.smss;
    assert t' == TrackOf(cs, u, Timeout(cc, tx.inflight), t'.dups, t'.timedOut);
  }

  lemma {:induction false} AdvanceControlled(cs: seq<Chunk>, u: nat, tx: Tx, cc: Cc, una: u32)
    requires Flows(cs, u, tx) && Controlled(cs, u, cc)
    requires CR.Room(TrackOf(cs, u, cc, 0, false))
    ensures Controlled(cs, u + Acked(tx.queue, una), NewAck(cc, AckedLengths(tx, una)))
  {
    var dups: nat, timedOut: bool :| CR.Inv(TrackOf(cs, u, cc, dups, timedOut));
    var t, segs, k := TrackOf(cs, u, cc, dups, timedOut), AckedLengths(tx, una), Acked(tx.queue, una);
    FlowsClean(cs, u, tx, una);
    LengthsBounded(cs, u, tx.queue, k, cc.smss);
    OffMonotone(cs, u + k, |cs|);
    assert CR.Enabled(t, CR.Advance(segs));
    CR.AdvanceKeeps(t, segs);
    CR.SmssFixed(t, CR.Advance(segs));
    var t' := CR.Step(t, CR.Advance(segs));
    assert t' == TrackOf(cs, u + k, NewAck(cc, segs), t'.dups, t'.timedOut);
  }

  lemma {:induction false} CutControlled(cs: seq<Chunk>, c: Chunk, u: nat, cc: Cc)
    requires Controlled(cs, u, cc) && |c.payload| <= cc.smss
    requires CR.Room(TrackOf(cs, u, cc, 0, false)) && CR.Room(TrackOf(cs + [c], u, cc, 0, false))
    ensures Controlled(cs + [c], u, cc)
  {
    var dups: nat, timedOut: bool :| CR.Inv(TrackOf(cs, u, cc, dups, timedOut));
    var t := TrackOf(cs, u, cc, dups, timedOut);
    OffsAppend(cs, c, u);
    CR.StepKeeps(t, CR.Sent(|c.payload|));
    assert CR.Step(t, CR.Sent(|c.payload|)) == TrackOf(cs + [c], u, cc, dups, timedOut);
  }

  // ----- every run

  /** Queue, bytes in flight and congestion counters agree; recovery lasts only while something is
      queued; nothing queued is marked as held by the peer. */
  ghost predicate Tended(cs: seq<Chunk>, tx: Tx, cc: Cc) {
    && |tx.queue| <= |cs|
    && Flows(cs, |cs| - |tx.queue|, tx)
    && Controlled(cs, |cs| - |tx.queue|, cc)
    && 1 <= cc.smss <= 2144
    && (tx.queue == [] ==> !cc.inRecovery)
    && Unmarked(tx.queue)
  }

  ghost predicate Unmarked(q: seq<Skb>) {
    forall i :: 0 <= i < |q| ==> !q[i].sacked
  }

  /** The bytes cut so far leave the room that the 32-bit window needs. */
  ghost predicate Spare(cs: seq<Chunk>) {
    Off(cs, |cs|) + 259 * 2144 < 0x1_0000_0000
  }

  lemma {:induction false} SpareRoom(cs: seq<Chunk>, u: nat, cc: Cc)
    requires Spare(cs) && u <= |cs| && 1 <= cc.smss <= 2144
    ensures CR.Room(TrackOf(cs, u, cc, 0, false))
  {
    OffMonotone(cs, u, |cs|);
  }

  lemma {:induction false} TendedCut(cs: seq<Chunk>, c: Chunk, tx: Tx, cc: Cc)
    requires Tended(cs, tx, cc) && Spare(cs) && Spare(cs + [c]) && |c.payload| <= cc.smss
    ensures Tended(cs + [c], Enqueue(tx, c.payload, c.psh), cc)
  {
    var u := |cs| - |tx.queue|;
    OffsAppend(cs, c, u);
    SpareRoom(cs, u, cc);
    SpareRoom(cs + [c], u, cc);
    FlowsCut(cs, c, u, tx);
    CutControlled(cs, c, u, cc);
  }

  lemma {:induction false} TendedTimeout(cs: seq<Chunk>, tx: Tx, cc: Cc)
    requires Tended(cs, tx, cc) && Spare(cs) && tx.queue != []
    ensures Tended(cs, tx.(queue := ClearSacked(tx.queue), sackMaxRight := 0), Timeout(cc, tx.inflight))
  {
    assert Controlled(cs, |cs| - |tx.queue|, Timeout(cc, tx.inflight)) by {
      SpareRoom(cs, |cs| - |tx.queue|, cc);
      TimeoutControlled(cs, |cs| - |tx.queue|, tx, cc);
    }
  }

  lemma {:induction false} TendedDup(cs: seq<Chunk>, tx: Tx, cc: Cc)
    requires Tended(cs, tx, cc) && Spare(cs) && tx.inflight != 0
    ensures Tended(cs, tx, HandleDupack(cc, tx.inflight))
  {
    SpareRoom(cs, |cs| - |tx.queue|, cc);
    DupControlled(cs, |cs| - |tx.queue|, tx, cc);
  }

  lemma {:induction false} TendedAdvance(cs: seq<Chunk>, tx: Tx, cc: Cc, una: u32)
    requires Tended(cs, tx, cc) && Spare(cs)
    ensures Tended(cs, Clean(tx.(sndUna := una), una), NewAck(cc, AckedLengths(tx, una)))
  {
    var u, k := |cs| - |tx.queue|, Acked(tx.queue, una);
    var tx', cc' := Clean(tx.(sndUna := una), una), NewAck(cc, AckedLengths(tx, una));
    assert Flows(cs, u + k, tx') by {
      FlowsClean(cs, u, tx, una);
    }
    assert Controlled(cs, u + k, cc') by {
      SpareRoom(cs, u, cc);
      AdvanceControlled(cs, u, tx, cc, una);
    }
    assert cc'.smss == cc.smss && !cc'.inRecovery by {
      AckAllSmss(cc, AckedLengths(tx, una));
    }
  }

  lemma {:induction false} TendedEffect(cs: seq<Chunk>, s: Sock, g: Segment, o: Outcome)
    requires Tended(cs, s.tx, s.cc) && Spare(cs) && Numbered(s.tx) && Effect(s, g, o)
    ensures Tended(cs, o.sock.tx, o.sock.cc)
  {
    TendedAdvance(cs, s.tx, s.cc, g.ackno);
    if IsDupack(s, g) {
      TendedDup(cs, s.tx, s.cc);
    }
  }

  lemma {:induction false} TendedArrival(cs: seq<Chunk>, s: Sock, g: Segment)
    requires Tended(cs, s.tx, s.cc) && Spare(cs) && Numbered(s.tx)
    ensures Tended(cs, Input(s, g).sock.tx, Input(s, g).sock.cc)
    ensures Tended(cs, LateInput(s, g).sock.tx, LateInput(s, g).sock.cc)
  {
    InputEffect(s, g);
    LateEffect(s, g);
    TendedEffect(cs, s, g, Input(s, g));
    TendedEffect(cs, s, g, LateInput(s, g));
  }

  ghost predicate Regulated(x: Peer, first: nat) {
    && Speaks(x, first)
    && x.written == Flat(x.chunks) + x.unsent
    && Tended(x.chunks, x.sock.tx, x.sock.cc)
  }

  ghost predicate Roomy(x: Peer) {
    |x.written| + 259 * 2144 < 0x1_0000_0000
  }

  lemma {:induction false} RoomySpares(x: Peer)
    requires x.written == Flat(x.chunks) + x.unsent && Roomy(x)
    ensures Spare(x.chunks)
  {
    FlatLength(x.chunks);
  }

  lemma {:induction false} CutRegulated(x: Peer, first: nat)
    requires Regulated(x, first) && Roomy(x) && CanAct(x, SendSegment) && first + |x.written| < 0x1_0000_0000
    ensures Regulated(PeerStep(x, SendSegment).peer, first)
  {
    var x', c := PeerStep(x, SendSegment).peer, NextChunk(x);
    CutKeepsStream(x);
    assert Tended(x'.chunks, x'.sock.tx, x'.sock.cc) by {
      RoomySpares(x);
      RoomySpares(x');
      TendedCut(x.chunks, c, x.sock.tx, x.sock.cc);
    }
    SpeaksKept(x, SendSegment, {}, first);
  }

  /** A step that sends nothing new. */
  lemma {:induction false} TendedStep(x: Peer, a: Act)
    requires Tended(x.chunks, x.sock.tx, x.sock.cc) && Spare(x.chunks) && Numbered(x.sock.tx)
    requires CanAct(x, a) && !a.SendSegment?
    ensures var x' := PeerStep(x, a).peer;
      x'.chunks == x.chunks && Tended(x.chunks, x'.sock.tx, x'.sock.cc)
  {
    if a.Deliver? || a.Late? {
      TendedArrival(x.chunks, x.sock, a.g);
    } else if a.RtoFires? {
      TendedTimeout(x.chunks, x.sock.tx, x.sock.cc);
    }
  }

  lemma {:induction false} StreamKept(x: Peer, a: Act)
    requires x.written == Flat(x.chunks) + x.unsent && CanAct(x, a) && !a.SendSegment?
    ensures var x' := PeerStep(x, a).peer;
      x'.chunks == x.chunks && x'.written == Flat(x.chunks) + x'.unsent
  {
    if a.Write? {
      assert x.written + a.data == Flat(x.chunks) + a.data;
    }
  }

  /** Every step of an endpoint keeps its congestion counters on a congestion run. */
  lemma {:induction false} StepRegulated(x: Peer, a: Act, first: nat)
    requires Regulated(x, first) && CanAct(x, a)
    requires Roomy(PeerStep(x, a).peer) && first + |PeerStep(x, a).peer.written| < 0x1_0000_0000
    ensures Regulated(PeerStep(x, a).peer, first)
  {
    if a.SendSegment? {
      CutRegulated(x, first);
    } else {
      SpeaksKept(x, a, Inbox(a), first);
      StreamKept(x, a);
      RoomySpares(PeerStep(x, a).peer);
      TendedStep(x, a);
    }
  }

  lemma {:induction false} RunRegulated(x: Peer, acts: seq<Act>, first: nat)
    requires Regulated(x, first) && IsPeerRun(x, acts)
    requires Roomy(PeerRun(x, acts)) && first + |PeerRun(x, acts).written| < 0x1_0000_0000
    ensures Regulated(PeerRun(x, acts), first)
    decreases |acts|
  {
    if acts != [] {
      var x' := PeerStep(x, acts[0]).peer;
      RunWrites(x', acts[1..]);
      StepRegulated(x, acts[0], first);
      RunRegulated(x', acts[1..], first);
    }
  }

  ghost predicate InitialWindow(x: Peer) {
    1 <= x.sock.cc.smss <= 2144 && x.sock.cc == InitialCc(x.sock.cc.smss)
  }

  lemma {:induction false} StartRegulated(x: Peer, una: u32, other: u32)
    requires Ready(x, una, First(x), other) && InitialWindow(x)
    ensures Regulated(x, First(x))
  {
    assert Tended([], x.sock.tx, x.sock.cc) by {
      StartTended(x.sock.tx, x.sock.cc.smss);
    }
    assert Flat([]) + [] == [];
  }

  lemma {:induction false} StartTended(tx: Tx, smss: u16)
    requires 1 <= smss <= 2144 && tx.queue == [] && tx.inflight == 0
    ensures Tended([], tx, InitialCc(smss))
  {
    var cc := InitialCc(smss);
    assert Off([], 0) == 0;
    CR.StartInv(smss);
    assert TrackOf([], 0, cc, 0, false) == CR.Start(smss);
    assert Controlled([], 0, cc);
  }

  /** What holds of an endpoint's windows: the congestion window is at least one SMSS and the
      threshold at least two; an idle sender whose peer offers one SMSS is never blocked. */
  ghost predicate NeverStuck(x: Peer) {
    && x.sock.cc.smss <= x.sock.cc.cwnd
    && 2 * x.sock.cc.smss <= x.sock.cc.ssthresh
    && (x.sock.tx.queue == [] && x.unsent != [] && x.sock.cc.smss <= x.sock.tx.sndWnd ==>
          Enabled(x, SendSegment, {}))
  }

  lemma {:induction false} RegulatedNeverStuck(x: Peer, first: nat)
    requires Regulated(x, first)
    ensures NeverStuck(x)
    ensures !x.sock.cc.inRecovery ==> x.sock.cc.dupacks < 3
  {
    var dups: nat, timedOut: bool :| CR.Inv(TrackOf(x.chunks, |x.chunks| - |x.sock.tx.queue|, x.sock.cc, dups, timedOut));
    if x.sock.tx.queue == [] {
      Add32Small(0, |NextChunk(x).payload|);
    }
  }

  lemma {:induction false} WindowTheorem(x: Peer, acts: seq<Act>, una: u32, other: u32)
    requires Ready(x, una, First(x), other) && InitialWindow(x) && IsPeerRun(x, acts)
    requires Roomy(PeerRun(x, acts)) && First(x) + |PeerRun(x, acts).written| < 0x1_0000_0000
    ensures NeverStuck(PeerRun(x, acts))
  {
    StartRegulated(x, una, other);
    RunRegulated(x, acts, First(x));
    RegulatedNeverStuck(PeerRun(x, acts), First(x));
  }

  // ----- the first segment, for any SMSS

  /** Nothing has been sent yet, and the counters are as the socket was created. */
  ghost predicate Untouched(x: Peer) {
    && x.sock.cc == InitialCc(x.sock.cc.smss)
    && x.chunks == [] && x.sock.tx.queue == [] && x.sock.tx.inflight == 0
  }

  /** While the queue is empty, outside recovery, nothing that happens changes the congestion counters
      or the peer's window. */
  lemma {:induction false} IdleWindowFrozen(x: Peer, a: Act)
    requires x.sock.tx.queue == [] && x.sock.tx.inflight == 0 && !x.sock.cc.inRecovery
    requires CanAct(x, a) && !a.SendSegment?
    ensures var s' := PeerStep(x, a).peer.sock;
      s'.cc == x.sock.cc && s'.tx.queue == [] && s'.tx.inflight == 0 && s'.tx.sndWnd == x.sock.tx.sndWnd
  {
    if a.Deliver? || a.Late? {
      InputEffect(x.sock, a.g);
      LateEffect(x.sock, a.g);
      assert AckedLengths(x.sock.tx, a.g.ackno) == [];
    }
  }

  lemma {:induction false} UntouchedKept(x: Peer, a: Act)
    requires Untouched(x) && CanAct(x, a) && !a.SendSegment?
    ensures var x' := PeerStep(x, a).peer;
      Untouched(x') && x'.sock.cc == x.sock.cc && x'.sock.tx.sndWnd == x.sock.tx.sndWnd
      && (x.unsent != [] ==> x'.unsent == x.unsent)
  {
    IdleWindowFrozen(x, a);
  }

  lemma {:induction false} FirstSegmentGuard(x: Peer)
    requires Untouched(x) && x.unsent != []
    ensures Enabled(x, SendSegment, {}) <==> |NextChunk(x).payload| <= Min(INITIAL_WINDOW, x.sock.tx.sndWnd)
  {
    Add32Small(0, |NextChunk(x).payload|);
  }

  lemma {:induction false} StaysBlocked(x: Peer, acts: seq<Act>)
    requires Untouched(x) && x.unsent != [] && IsPeerRun(x, acts)
    requires |NextChunk(x).payload| > Min(INITIAL_WINDOW, x.sock.tx.sndWnd)
    ensures PeerRun(x, acts).chunks == []
    decreases |acts|
  {
    if acts != [] {
      FirstSegmentGuard(x);
      UntouchedKept(x, acts[0]);
      StaysBlocked(PeerStep(x, acts[0]).peer, acts[1..]);
    }
  }

  ghost predicate EverSends(x: Peer) {
    exists acts :: IsPeerRun(x, acts) && PeerRun(x, acts).chunks != []
  }

  /** A writer that has sent nothing yet ever sends, in any run with any peer, exactly when its first
      segment fits into the initial window of 2144 bytes and the peer's window. A full segment of more
      than 2144 bytes waits for ever. */
  lemma {:induction false} FirstSegmentIff(x: Peer)
    requires Untouched(x) && x.unsent != []
    ensures EverSends(x) <==> |NextChunk(x).payload| <= Min(INITIAL_WINDOW, x.sock.tx.sndWnd)
  {
    FirstSegmentGuard(x);
    if |NextChunk(x).payload| <= Min(INITIAL_WINDOW, x.sock.tx.sndWnd) {
      var acts := [SendSegment];
      assert acts[1..] == [];
      assert PeerRun(x, acts).chunks == [NextChunk(x)];
    } else {
      forall acts | IsPeerRun(x, acts)
        ensures PeerRun(x, acts).chunks == []
      {
        StaysBlocked(x, acts);
      }
    }
  }
}
