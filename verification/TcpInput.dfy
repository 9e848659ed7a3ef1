/** Segment processing of an established connection (src/tcp_input.c, `tcp_input_state`; section
    3.9 of RFC 793, SEGMENT ARRIVES), together with the other entry points that touch the socket:
    the sending application, the retransmission timeout, the delayed ACK and the reader. */
module TcpInput {
  import opened Words
  import opened TcpData
  import opened Congestion
  import opened TcpOutput

  datatype Sock = Sock(
    tx: Tx,
    cc: Cc,
    rx: Rx,
    lastAckWin: u16,
    sndScale: u8,
    rcvScale: u8,
    delacks: u8,
    delackArmed: bool)

  /** What an entry point asks of the retransmission timer, in order. */
  datatype RtoOp = Sample | Stop | Rearm

  datatype Outcome = Outcome(sock: Sock, out: seq<Segment>, ops: seq<RtoOp>)

  // ----- tcp_transmit_skb

  function ShiftRight(w: u16, k: nat): u16 {
    if k == 0 then w else ShiftRight(w / 2, k - 1)
  }

  /** The 16-bit window field: the low half of the real window, shifted right. */
  function WindowBits(realRcvWnd: u32, scale: u8): u16 {
    ShiftRight(realRcvWnd % 0x1_0000, scale)
  }

  function WindowField(s: Sock): u16 {
    WindowBits(s.rx.realRcvWnd, s.rcvScale)
  }

  function Transmit(s: Sock, seqno: u32, payload: seq<byte>, psh: bool): Segment {
    Segment(seqno, s.rx.rcvNxt, WindowField(s), payload, psh)
  }

  function PureAck(s: Sock): Segment {
    Transmit(s, s.tx.sndNxt, [], false)
  }

  // ----- tcp_send, one segment

  function SendChunk(s: Sock, payload: seq<byte>, psh: bool): Outcome {
    var s1 := s.(tx := Enqueue(s.tx, payload, psh));
    Outcome(s1, [Transmit(s1, s.tx.sndNxt, payload, psh)], if s.tx.queue == [] then [Rearm] else [])
  }

  // ----- tcp_retransmission_timeout, after the epoch check, with a non-empty queue

  function RetransmitHead(s: Sock): Outcome
    requires s.tx.queue != []
  {
    var s1 := s.(cc := Timeout(s.cc, s.tx.inflight),
                 tx := s.tx.(queue := ClearSacked(s.tx.queue), sackMaxRight := 0));
    var head := s.tx.queue[0];
    Outcome(s1, [Transmit(s1, s.tx.sndUna, head.payload, head.psh)], [Rearm])
  }

  // ----- duplicate ACKs

  predicate IsDupack(s: Sock, g: Segment) {
    && g.ackno == s.tx.sndUna
    && g.payload == []
    && g.win == s.lastAckWin
    && s.tx.inflight != 0
  }

  function FastRetransmit(s: Sock): seq<Segment> {
    if s.tx.queue == [] then []
    else
      var skb := s.tx.queue[Candidate(s.tx)];
      [Transmit(s, skb.seqno, skb.payload, skb.psh)]
  }

  function SendNextOut(s: Sock, extra: nat): Outcome {
    var r := SendNext(s.tx, s.cc, 0, |s.tx.queue|, extra);
    Outcome(s.(tx := r.tx), TransmitAll(s, r.out), [])
  }

  function TransmitAll(s: Sock, skbs: seq<Skb>): seq<Segment> {
    if skbs == [] then []
    else [Transmit(s, skbs[0].seqno, skbs[0].payload, skbs[0].psh)] + TransmitAll(s, skbs[1..])
  }

  function DupackPath(s: Sock): Outcome {
    var cc := HandleDupack(s.cc, s.tx.inflight);
    var enters := cc.dupacks == 3;
    var extra := if cc.dupacks < 3 then cc.dupacks * cc.smss else 0;
    var next := SendNextOut(s.(cc := cc), extra);
    Outcome(next.sock, (if enters then FastRetransmit(s) else []) + next.out, if enters then [Rearm] else [])
  }

  // ----- an acknowledgement that advances

  predicate Advances(tx: Tx, ackno: u32) {
    tx.sndUna < ackno <= tx.sndNxt
  }

  function AckedLengths(tx: Tx, ackno: u32): seq<u32> {
    Lengths(tx.queue[..Acked(tx.queue, ackno)])
  }

  function AckPath(s: Sock, ackno: u32): Outcome {
    if !Advances(s.tx, ackno) then Outcome(s, [], [])
    else
      var tx := Clean(s.tx.(sndUna := ackno), ackno);
      Outcome(s.(tx := tx, cc := NewAck(s.cc, AckedLengths(s.tx, ackno))), [],
              [Sample] + if StopsTimer(tx) then [Stop] else [])
  }

  /** The later `update_snd_win` step, guarded by a second test of the same condition. */
  function WindowUpdate(s: Sock, g: Segment): Sock {
    if Advances(s.tx, g.ackno) then s.(tx := s.tx.(sndWnd := (g.win * Pow2(s.sndScale)) % 0x1_0000_0000))
    else s
  }

  // ----- segment text and the ACK policy

  function DataPath(s: Sock, g: Segment): Outcome {
    if !g.psh && g.payload == [] then Outcome(s, [], [])
    else
      var skb := Arrived(g.seqno, g.payload, g.psh);
      var s1 := s.(rx := DataQueue(s.rx, skb));
      Outcome(s1, if AcksAtOnce(s.rx, skb) then [PureAck(s1)] else [], [])
  }

  function AckPolicy(s: Sock, g: Segment, expected: bool): Outcome {
    if !expected then Outcome(s, [], [])
    else
      var s1 := s.(delackArmed := false);
      if s.tx.queue != [] then
        var next := SendNextOut(s1, 0);
        Outcome(next.sock, next.out, [Rearm])
      else if g.psh || (|g.payload| > 1000 && (s.delacks + 1) % 256 > 1) then
        Outcome(s1.(delacks := 0), [PureAck(s1)], [])
      else
        var s2 := if |g.payload| > 1000 then s1.(delacks := (s.delacks + 1) % 256) else s1;
        Outcome(if g.payload != [] then s2.(delackArmed := true) else s2, [], [])
  }

  /** Everything after the ACK field. */
  function TextPath(s: Sock, g: Segment): Outcome {
    var o3 := DataPath(s, g);
    var o4 := AckPolicy(o3.sock, g, g.seqno == s.rx.rcvNxt);
    Outcome(o4.sock, o3.out + o4.out, o4.ops)
  }

  // ----- tcp_input_state

  function Input(s: Sock, g: Segment): Outcome {
    if !Verify(s.rx, g.seqno, |g.payload|) then Outcome(s, [PureAck(s)], [])
    else if IsDupack(s, g) then
      var o := DupackPath(s);
      o.(sock := o.sock.(lastAckWin := g.win))
    else
      var o1 := AckPath(s, g.ackno);
      if g.ackno < o1.sock.tx.sndUna || g.ackno > o1.sock.tx.sndNxt then o1
      else
        var o2 := TextPath(WindowUpdate(o1.sock, g).(lastAckWin := g.win), g);
        Outcome(o2.sock, o2.out, o1.ops + o2.ops)
  }

  // ----- tcp_input_state after the connection has been closed

  /** In TCP_CLOSING: the sequence check and the ACK field as before, but no text and no policy. */
  function LateInput(s: Sock, g: Segment): Outcome {
    if !Verify(s.rx, g.seqno, |g.payload|) then Outcome(s, [PureAck(s)], [])
    else if IsDupack(s, g) then
      var o := DupackPath(s);
      o.(sock := o.sock.(lastAckWin := g.win))
    else
      var o1 := AckPath(s, g.ackno);
      if g.ackno < o1.sock.tx.sndUna || g.ackno > o1.sock.tx.sndNxt then o1
      else o1.(sock := WindowUpdate(o1.sock, g).(lastAckWin := g.win))
  }

  /** The segment got past the ACK field, so that an empty write queue leads to TCP_TIME_WAIT. */
  predicate PassesAck(s: Sock, g: Segment) {
    && Verify(s.rx, g.seqno, |g.payload|) && !IsDupack(s, g)
    && AckPath(s, g.ackno).sock.tx.sndUna <= g.ackno <= s.tx.sndNxt
  }

  /** In TCP_TIME_WAIT nothing changes; what is unacceptable, or expected while nothing is queued, is
      acknowledged. */
  function MuteOut(s: Sock, g: Segment): seq<Segment> {
    if !Verify(s.rx, g.seqno, |g.payload|) || (s.tx.queue == [] && g.seqno == s.rx.rcvNxt) then [PureAck(s)] else []
  }

  // ----- tcp_send_delack

  function Delack(s: Sock): Outcome {
    var s1 := s.(delacks := 0, delackArmed := false);
    Outcome(s1, [PureAck(s1)], [])
  }

  // ----- what one segment can do

  lemma {:induction false} SendNextOutIsIdle(s: Sock, extra: nat)
    requires Numbered(s.tx)
    ensures SendNextOut(s, extra) == Outcome(s, [], [])
  {
    SendNextIsIdle(s.tx, s.cc, 0, |s.tx.queue|, extra);
  }

  /** After an acknowledgement has been processed the guard of the window update is false. */
  lemma {:induction false} WindowUpdateIsDead(s: Sock, g: Segment)
    ensures WindowUpdate(AckPath(s, g.ackno).sock, g) == AckPath(s, g.ackno).sock
  {
  }

  /** A segment leaves the send side alone, counts as a duplicate ACK, or acknowledges part of the
      queue. */
  ghost predicate SendEffect(s: Sock, g: Segment, tx': Tx, cc': Cc) {
    || (tx' == s.tx && cc' == s.cc)
    || (IsDupack(s, g) && tx' == s.tx && cc' == HandleDupack(s.cc, s.tx.inflight))
    || (&& Advances(s.tx, g.ackno)
        && tx' == Clean(s.tx.(sndUna := g.ackno), g.ackno)
        && cc' == NewAck(s.cc, AckedLengths(s.tx, g.ackno)))
  }

  /** A segment leaves the receive side alone or, if it is acceptable, is queued there. */
  ghost predicate RxEffect(s: Sock, g: Segment, rx': Rx) {
    || rx' == s.rx
    || (&& Verify(s.rx, g.seqno, |g.payload|) && (g.psh || g.payload != [])
        && rx' == DataQueue(s.rx, Arrived(g.seqno, g.payload, g.psh)))
  }

  /** What goes out acknowledges the receive state before or after, and either carries nothing or
      repeats a queued buffer under its own number. */
  ghost predicate Answer(s: Sock, rx': Rx, x: Segment) {
    && (x.ackno == s.rx.rcvNxt || x.ackno == rx'.rcvNxt)
    && (Empty(s, x) || Repeats(s.tx.queue, x))
  }

  /** A segment that carries nothing, numbered `snd_nxt`. */
  ghost predicate Empty(s: Sock, x: Segment) {
    x.payload == [] && !x.psh && x.seqno == s.tx.sndNxt
  }

  ghost predicate Repeats(q: seq<Skb>, x: Segment) {
    exists i :: 0 <= i < |q| && q[i].seqno == x.seqno && q[i].payload == x.payload && q[i].psh == x.psh
  }

  lemma {:induction false} DupackPathEffect(s: Sock)
    requires Numbered(s.tx)
    ensures var o := DupackPath(s);
      && o.sock == s.(cc := HandleDupack(s.cc, s.tx.inflight))
      && (o.out == [] || o.out == FastRetransmit(s))
      && (forall x :: x in o.out ==> Answer(s, s.rx, x))
      && o.ops == if o.sock.cc.dupacks == 3 then [Rearm] else []
  {
    var cc := HandleDupack(s.cc, s.tx.inflight);
    SendNextOutIsIdle(s.(cc := cc), if cc.dupacks < 3 then cc.dupacks * cc.smss else 0);
    assert DupackPath(s).out == if cc.dupacks == 3 then FastRetransmit(s) else [];
    if s.tx.queue != [] {
      var skb := s.tx.queue[Candidate(s.tx)];
      assert Repeats(s.tx.queue, Transmit(s, skb.seqno, skb.payload, skb.psh));
    }
  }

  /** The policy step only answers and rearms. */
  lemma {:induction false} AckPolicyEffect(s: Sock, g: Segment, expected: bool)
    requires Numbered(s.tx)
    ensures var o := AckPolicy(s, g, expected);
      && o.sock == s.(delacks := o.sock.delacks, delackArmed := o.sock.delackArmed)
      && (o.out == [] || o.out == [PureAck(s)])
      && o.ops == if expected && s.tx.queue != [] then [Rearm] else []
  {
    SendNextOutIsIdle(s.(delackArmed := false), 0);
  }

  lemma {:induction false} AckPathKeeps(s: Sock, ackno: u32)
    requires Numbered(s.tx)
    ensures Numbered(AckPath(s, ackno).sock.tx)
  {
  }

  ghost predicate Effect(s: Sock, g: Segment, o: Outcome) {
    && SendEffect(s, g, o.sock.tx, o.sock.cc)
    && RxEffect(s, g, o.sock.rx)
    && (forall x :: x in o.out ==> Answer(s, o.sock.rx, x))
  }

  /** After the ACK field the send side is left alone; what goes out carries nothing. */
  ghost predicate TextEffect(s: Sock, g: Segment, o: Outcome) {
    && o.sock.tx == s.tx && o.sock.cc == s.cc
    && (o.sock.rx == s.rx || ((g.psh || g.payload != []) && o.sock.rx == DataQueue(s.rx, Arrived(g.seqno, g.payload, g.psh))))
    && (forall x :: x in o.out ==> Empty(s, x) && (x.ackno == s.rx.rcvNxt || x.ackno == o.sock.rx.rcvNxt))
    && (o.ops == [] || (o.ops == [Rearm] && s.tx.queue != []))
  }

  lemma {:induction false} DataPathEffect(s: Sock, g: Segment)
    ensures var o := DataPath(s, g);
      && o.sock == s.(rx := o.sock.rx) && o.ops == []
      && (o.sock.rx == s.rx || ((g.psh || g.payload != []) && o.sock.rx == DataQueue(s.rx, Arrived(g.seqno, g.payload, g.psh))))
      && (o.out == [] || o.out == [PureAck(o.sock)])
  {
  }

  lemma {:induction false} TextPathEffect(s: Sock, g: Segment)
    requires Numbered(s.tx)
    ensures TextEffect(s, g, TextPath(s, g))
  {
    var o3 := DataPath(s, g);
    var o4 := AckPolicy(o3.sock, g, g.seqno == s.rx.rcvNxt);
    DataPathEffect(s, g);
    AckPolicyEffect(o3.sock, g, g.seqno == s.rx.rcvNxt);
    JoinEffects(s, g, o3, o4, g.seqno == s.rx.rcvNxt);
  }

  lemma {:induction false} JoinEffects(s: Sock, g: Segment, o3: Outcome, o4: Outcome, expected: bool)
    requires o3.sock == s.(rx := o3.sock.rx)
    requires o3.sock.rx == s.rx
      || ((g.psh || g.payload != []) && o3.sock.rx == DataQueue(s.rx, Arrived(g.seqno, g.payload, g.psh)))
    requires o3.out == [] || o3.out == [PureAck(o3.sock)]
    requires o4.sock == o3.sock.(delacks := o4.sock.delacks, delackArmed := o4.sock.delackArmed)
    requires o4.out == [] || o4.out == [PureAck(o3.sock)]
    requires o4.ops == if expected && o3.sock.tx.queue != [] then [Rearm] else []
    ensures TextEffect(s, g, Outcome(o4.sock, o3.out + o4.out, o4.ops))
  {
    assert forall x :: x in o3.out + o4.out ==> x == PureAck(o3.sock);
  }

  lemma {:induction false} AcceptedEffect(s: Sock, g: Segment)
    requires Numbered(s.tx) && Verify(s.rx, g.seqno, |g.payload|) && !IsDupack(s, g)
    ensures Effect(s, g, Input(s, g))
  {
    var o1 := AckPath(s, g.ackno);
    AckPathKeeps(s, g.ackno);
    if o1.sock.tx.sndUna <= g.ackno <= o1.sock.tx.sndNxt {
      WindowUpdateIsDead(s, g);
      TextPathEffect(o1.sock.(lastAckWin := g.win), g);
    }
  }

  /** The whole effect of one arriving segment, for any segment from any peer. */
  lemma {:induction false} InputEffect(s: Sock, g: Segment)
    requires Numbered(s.tx)
    ensures Effect(s, g, Input(s, g))
  {
    if Verify(s.rx, g.seqno, |g.payload|) {
      if IsDupack(s, g) {
        DupackPathEffect(s);
      } else {
        AcceptedEffect(s, g);
      }
    }
  }

  /** An acceptable segment that is no duplicate ACK: the timer requests are those of the ACK path,
      followed by a rearm when the segment was expected and data is still queued. */
  lemma {:induction false} InputTimerRequests(s: Sock, g: Segment)
    requires Numbered(s.tx) && Verify(s.rx, g.seqno, |g.payload|) && !IsDupack(s, g)
    ensures var o, o1 := Input(s, g), AckPath(s, g.ackno);
      && o.sock.tx == o1.sock.tx
      && (o.ops == o1.ops || (o.ops == o1.ops + [Rearm] && o1.sock.tx.queue != []))
  {
    var o1 := AckPath(s, g.ackno);
    AckPathKeeps(s, g.ackno);
    if o1.sock.tx.sndUna <= g.ackno <= o1.sock.tx.sndNxt {
      WindowUpdateIsDead(s, g);
      TextPathEffect(o1.sock.(lastAckWin := g.win), g);
      assert o1.ops + [] == o1.ops;
    }
  }

  /** After the close a segment has the same effects, except that it is never queued. */
  lemma {:induction false} LateEffect(s: Sock, g: Segment)
    requires Numbered(s.tx)
    ensures Effect(s, g, LateInput(s, g)) && LateInput(s, g).sock.rx == s.rx
    ensures LateInput(s, g).sock.tx.sndWnd == s.tx.sndWnd
  {
    if Verify(s.rx, g.seqno, |g.payload|) {
      if IsDupack(s, g) {
        DupackPathEffect(s);
      } else {
        WindowUpdateIsDead(s, g);
      }
    }
  }

  /** The send-side invariant survives any segment from any peer. */
  lemma {:induction false} InputKeepsSendInv(s: Sock, g: Segment)
    requires SendInv(s.tx)
    ensures SendInv(Input(s, g).sock.tx)
    ensures Input(s, g).sock.tx.sndNxt == s.tx.sndNxt && Input(s, g).sock.tx.sndWnd == s.tx.sndWnd
  {
    NumbersAssigned(s.tx);
    InputEffect(s, g);
    SendEffectKeeps(s, g, Input(s, g).sock.tx, Input(s, g).sock.cc);
  }

  lemma {:induction false} SendEffectKeeps(s: Sock, g: Segment, tx': Tx, cc': Cc)
    requires SendInv(s.tx) && SendEffect(s, g, tx', cc')
    ensures SendInv(tx') && tx'.sndNxt == s.tx.sndNxt && tx'.sndWnd == s.tx.sndWnd
  {
    if Advances(s.tx, g.ackno) {
      CleanKeeps(s.tx, g.ackno);
    }
  }

  // ----- the promise to acknowledge

  /** An in-order data segment is answered at once, or a delayed ACK is armed for it, exactly when
      the receiver has nothing of its own queued. Otherwise `tcp_send_next` is trusted to carry the
      acknowledgement, and it sends nothing. */
  lemma {:induction false} AckPromisedIff(s: Sock, g: Segment)
    requires Numbered(s.tx) && s.rx.rcvWnd > 0 && g.seqno == s.rx.rcvNxt && g.payload != []
    ensures var o := TextPath(s, g);
      && ((o.out != [] || o.sock.delackArmed) <==> s.tx.queue == [])
      && (o.out == [] || o.out == [PureAck(o.sock)])
  {
    SendNextOutIsIdle(DataPath(s, g).sock.(delackArmed := false), 0);
  }

  lemma {:induction false} DelacksSmall(s: Sock, g: Segment)
    requires s.delacks <= 1
    ensures Input(s, g).sock.delacks <= 1
  {
  }

  /** In a stream of full-sized segments at least every second one is acknowledged at once
      (section 4.2.3.2 of RFC 1122). */
  lemma {:induction false} EverySecondSegment(s: Sock, g: Segment, h: Segment)
    requires Numbered(s.tx) && s.tx.queue == [] && s.rx.rcvWnd > 0 && s.delacks <= 1
    requires |g.payload| > 1000 && |h.payload| > 1000
    requires g.seqno == s.rx.rcvNxt && h.seqno == TextPath(s, g).sock.rx.rcvNxt
    ensures TextPath(s, g).out != [] || TextPath(TextPath(s, g).sock, h).out != []
  {
    TextPathEffect(s, g);
  }

  /** An expected segment while nothing is queued: it is acknowledged at once exactly if it carries PSH or is
      the second large one since the last acknowledgement, which settles the count and the timer; otherwise
      the delayed ACK is armed if it carries data, and a large one is counted. While something is queued
      nothing is sent or armed. */
  lemma {:induction false} AtOnceIff(s: Sock, g: Segment)
    requires Numbered(s.tx) && s.delacks <= 1 && s.rx.rcvWnd > 0 && g.seqno == s.rx.rcvNxt
    ensures var o := TextPath(s, g);
      if s.tx.queue != [] then o.out == [] && !o.sock.delackArmed && o.sock.delacks == s.delacks
      else if g.psh || (|g.payload| > 1000 && s.delacks == 1)
      then o.out == [PureAck(o.sock)] && o.sock.delacks == 0 && !o.sock.delackArmed
      else o.out == [] && o.sock.delacks == (if |g.payload| > 1000 then 1 else s.delacks)
           && o.sock.delackArmed == (g.payload != [])
  {
    DataPathEffect(s, g);
    assert DataPath(s, g).out == [];
    PolicyIs(DataPath(s, g).sock, g);
  }

  /** The policy step for an expected segment. */
  lemma {:induction false} PolicyIs(s: Sock, g: Segment)
    requires Numbered(s.tx) && s.delacks <= 1
    ensures var o := AckPolicy(s, g, true);
      if s.tx.queue != [] then o.out == [] && o.sock == s.(delackArmed := false)
      else if g.psh || (|g.payload| > 1000 && s.delacks == 1)
      then o.out == [PureAck(s)] && o.sock == s.(delackArmed := false, delacks := 0)
      else o.out == [] && o.sock == s.(delackArmed := g.payload != [], delacks := if |g.payload| > 1000 then 1 else s.delacks)
  {
    if s.tx.queue != [] {
      SendNextOutIsIdle(s.(delackArmed := false), 0);
    }
  }

  // ----- what counts as a duplicate

  /** A second copy of an acceptable acknowledgement without data counts as a duplicate exactly while
      something is still in flight. */
  lemma {:induction false} SecondCopyCountsIff(s: Sock, g: Segment)
    requires Numbered(s.tx) && Verify(s.rx, g.seqno, 0) && g.payload == [] && !g.psh
    requires s.tx.sndUna <= g.ackno <= s.tx.sndNxt
    ensures IsDupack(Input(s, g).sock, g) <==> Input(s, g).sock.tx.inflight != 0
    ensures IsDupack(LateInput(s, g).sock, g) <==> LateInput(s, g).sock.tx.inflight != 0
  {
    if IsDupack(s, g) {
      DupackPathEffect(s);
    } else {
      WindowUpdateIsDead(s, g);
      AckPathKeeps(s, g.ackno);
      TextPathEffect(AckPath(s, g.ackno).sock.(lastAckWin := g.win), g);
      TextKeepsWindow(AckPath(s, g.ackno).sock.(lastAckWin := g.win), g);
    }
  }

  lemma {:induction false} TextKeepsWindow(s: Sock, g: Segment)
    requires Numbered(s.tx)
    ensures TextPath(s, g).sock.lastAckWin == s.lastAckWin
  {
    AckPolicyEffect(DataPath(s, g).sock, g, g.seqno == s.rx.rcvNxt);
  }

  /** What never counts: data, another window than the last one, or nothing in flight. */
  lemma {:induction false} NeverCounts(s: Sock, g: Segment)
    requires Numbered(s.tx) && (g.payload != [] || g.win != s.lastAckWin || s.tx.inflight == 0)
    ensures Input(s, g).sock.cc.dupacks == s.cc.dupacks || Advances(s.tx, g.ackno)
    ensures LateInput(s, g).sock.cc.dupacks == s.cc.dupacks || Advances(s.tx, g.ackno)
  {
    InputEffect(s, g);
    LateEffect(s, g);
  }
}
