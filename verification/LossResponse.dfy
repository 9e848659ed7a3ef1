/** What a loss does to the window (section 3.1, equation 4, of RFC 5681): the threshold becomes half of
    what was in flight, but at least two SMSS. Stated over every run of the counters, and for the two entry
    points of the socket that see a loss. */
module LossResponse {
  import opened Words
  import opened TcpData
  import opened Congestion
  import opened CongestionRun
  import opened TcpOutput
  import opened TcpInput

  /** The threshold is half of `flight`, rounded down, or two SMSS if that is more. */
  ghost predicate HalfOf(c: Cc, flight: int) {
    && 2 * c.smss <= c.ssthresh
    && flight <= 2 * c.ssthresh + 1
    && (c.ssthresh == 2 * c.smss || 2 * c.ssthresh <= flight)
  }

  // ----- over every run of the counters

  /** A timeout, or a duplicate ACK that enters recovery: the third of an episode or, since the counter has
      8 bits, the 259th, the 515th and so on. */
  predicate IsLoss(t: Track, e: Event) {
    e.Rto? || (e.Dup? && (t.dups + 1) % 256 == 3)
  }

  /** The bytes in flight at the last loss. */
  function LastFlight(t: Track, es: seq<Event>, last: Option<int>): Option<int>
    decreases |es|
  {
    if es == [] then last
    else LastFlight(CongestionRun.Step(t, es[0]), es[1..], if IsLoss(t, es[0]) then Some(t.sent - t.acked) else last)
  }

  /** Never are 2^32 bytes in flight. */
  ghost predicate Fits(t: Track, es: seq<Event>)
    decreases |es|
  {
    es != [] ==> 0 <= t.sent - t.acked < 0x1_0000_0000 && Fits(CongestionRun.Step(t, es[0]), es[1..])
  }

  ghost predicate Recorded(c: Cc, last: Option<int>) {
    match last
    case None => c.ssthresh == NO_LOSS
    case Some(flight) => HalfOf(c, flight)
  }

  /** The response itself: recovery starts three SMSS above the threshold, a timeout with one SMSS. */
  lemma {:induction false} LossStep(t: Track, e: Event)
    requires Episode(t) && IsLoss(t, e) && 0 <= t.sent - t.acked < 0x1_0000_0000
    ensures var c := CongestionRun.Step(t, e).cc;
      && HalfOf(c, t.sent - t.acked) && c.bytesAcked == 0
      && (if e.Rto? then c.cwnd == c.smss && c.inRecovery == t.cc.inRecovery
          else c.cwnd == c.ssthresh + 3 * c.smss && c.inRecovery)
  {
    assert Inflight(t) == t.sent - t.acked;
    if e.Dup? {
      DupEpisode(t);
    }
  }

  lemma {:induction false} OtherStep(t: Track, e: Event)
    requires Episode(t) && !IsLoss(t, e)
    ensures CongestionRun.Step(t, e).cc.ssthresh == t.cc.ssthresh
    ensures CongestionRun.Step(t, e).cc.smss == t.cc.smss
  {
    match e
    case Advance(segs) => AckAllLimits(t.cc, segs);
    case Dup => DupEpisode(t);
    case _ =>
  }

  lemma {:induction false} RunRecords(t: Track, es: seq<Event>, last: Option<int>)
    requires Episode(t) && Recorded(t.cc, last) && Fits(t, es)
    ensures Recorded(CongestionRun.Run(t, es).cc, LastFlight(t, es, last))
    decreases |es|
  {
    if es != [] {
      StepEpisode(t, es[0]);
      if IsLoss(t, es[0]) {
        LossStep(t, es[0]);
        RunRecords(CongestionRun.Step(t, es[0]), es[1..], Some(t.sent - t.acked));
      } else {
        OtherStep(t, es[0]);
        RunRecords(CongestionRun.Step(t, es[0]), es[1..], last);
      }
    }
  }

  /** After every run: before the first loss the threshold is out of reach, and from then on it is half of
      what was in flight at the last loss, but at least two SMSS. */
  lemma {:induction false} LossTheorem(smss: u16, es: seq<Event>)
    requires Fits(Start(smss), es)
    ensures var c, last := CongestionRun.Run(Start(smss), es).cc, LastFlight(Start(smss), es, None);
      match last
      case None => c.ssthresh == NO_LOSS
      case Some(flight) => HalfOf(c, flight)
  {
    RunRecords(Start(smss), es, None);
  }

  /** After a timeout outside recovery the window is n + 1 SMSS once n full segments are acknowledged, until
      that reaches the threshold. */
  lemma {:induction false} SlowStartAfterTimeout(t: Track, n: nat)
    requires 0 < t.cc.smss && !t.cc.inRecovery
    requires (n + 1) * t.cc.smss <= CongestionRun.Step(t, Rto).cc.ssthresh
    ensures NewAck(CongestionRun.Step(t, Rto).cc, Full(n, t.cc.smss)).cwnd == (n + 1) * t.cc.smss
  {
    var c := CongestionRun.Step(t, Rto).cc;
    CostClosedForm(0, c.smss, n);
    assert (n + 1) * c.smss == n * c.smss + c.smss;
    SlowStartLaw(c, n);
  }

  // ----- at the socket

  /** A buffer that the peer has not reported although it reported something behind it. */
  predicate Hole(tx: Tx, i: nat) {
    i < |tx.queue| && !tx.queue[i].sacked && tx.queue[i].endSeq <= tx.sackMaxRight
  }

  /** `i` is the first hole, or the head if there is none. */
  ghost predicate ToRepair(tx: Tx, i: nat) {
    && i < |tx.queue|
    && (if exists k :: Hole(tx, k) then Hole(tx, i) && forall k :: Hole(tx, k) ==> i <= k else i == 0)
  }

  /** `x` is buffer `i` once more, under its own number, with what has been received meanwhile. */
  ghost predicate Resends(s: Sock, x: Segment, i: nat) {
    && i < |s.tx.queue|
    && x.seqno == s.tx.queue[i].seqno && x.payload == s.tx.queue[i].payload && x.psh == s.tx.queue[i].psh
    && x.ackno == s.rx.rcvNxt
  }

  lemma {:induction false} CandidateRepairs(tx: Tx)
    requires QueueInv(tx) && tx.queue != []
    ensures ToRepair(tx, Candidate(tx))
  {
    var i := FirstHole(tx.queue, tx.sackMaxRight);
    if i < |tx.queue| {
      assert Hole(tx, i);
    }
    if k :| Hole(tx, k) {
      CoversBounds(tx.queue, Front(tx), tx.sndNxt, k);
    }
  }

  /** The third duplicate ACK, in any state of the send side: the threshold is half of the queued bytes, the
      window three SMSS above it, the timer is rearmed, and one segment goes out again: the first hole that
      the peer has reported, or the head. */
  lemma {:induction false} ThirdDuplicateHalves(s: Sock, g: Segment)
    requires QueueInv(s.tx) && Verify(s.rx, g.seqno, |g.payload|) && IsDupack(s, g) && s.cc.dupacks == 2
    ensures var o := Input(s, g);
      && HalfOf(o.sock.cc, s.tx.sndNxt - Front(s.tx)) && o.sock.cc.inRecovery
      && o.sock.cc.cwnd == o.sock.cc.ssthresh + 3 * s.cc.smss && o.sock.cc.smss == s.cc.smss
      && o.ops == [Rearm] && |o.out| == 1 && exists i :: ToRepair(s.tx, i) && Resends(s, o.out[0], i)
  {
    NumbersAssigned(s.tx);
    assert s.tx.queue != [];
    CandidateRepairs(s.tx);
    assert Resends(s, FastRetransmit(s)[0], Candidate(s.tx));
    DupackPathEffect(s);
    SendNextOutIsIdle(s.(cc := HandleDupack(s.cc, s.tx.inflight)), 0);
    assert DupackPath(s).out == FastRetransmit(s);
  }

  /** The timeout: the threshold is half of the queued bytes, the window one SMSS, and exactly the head goes
      out again. */
  lemma {:induction false} TimeoutHalves(s: Sock)
    requires QueueInv(s.tx) && s.tx.queue != []
    ensures var o := RetransmitHead(s);
      && HalfOf(o.sock.cc, s.tx.sndNxt - Front(s.tx)) && o.sock.cc.cwnd == s.cc.smss == o.sock.cc.smss
      && o.ops == [Rearm] && |o.out| == 1
      && o.out[0].seqno == s.tx.sndUna && o.out[0].payload == s.tx.queue[0].payload
      && o.out[0].psh == s.tx.queue[0].psh && o.out[0].ackno == s.rx.rcvNxt
      && o.sock.tx.sackMaxRight == 0 && forall i :: 0 <= i < |o.sock.tx.queue| ==> !o.sock.tx.queue[i].sacked
  {
  }
}
