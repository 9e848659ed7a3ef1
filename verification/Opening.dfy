/** Where the two ends of a connection start. The handshake of src/tcp_output.c and src/tcp_input.c
    leaves an active opener in step with its peer and a passive opener one number ahead, because the
    SYN is counted twice; only a side that is in step delivers its bytes. */
module Opening {
  import opened Words
  import opened Stream
  import opened TcpData
  import opened Reassembly
  import opened TcpOutput
  import opened TcpInput
  import opened Transfer
  import opened TransferSafety

  // ----- what the handshake leaves behind

  /** A send side that has chosen its initial number and sent nothing. */
  function Chosen(iss: u32, wnd: u32): Tx {
    Tx(iss, iss, wnd, 0, [], 0)
  }

  /** `tcp_connect`: the SYN goes through the queue and counts once. */
  function SynSent(iss: u32, wnd: u32): Tx {
    var tx := Enqueue(Chosen(iss, wnd), [], false);
    tx.(sndNxt := Add32(tx.sndNxt, 1))
  }

  /** `tcp_synsent` on the SYN-ACK: clean the queue, then `snd_una` is set to `snd_nxt`. */
  function ActiveOpen(iss: u32, wnd: u32): Tx {
    var ack := Add32(iss, 1);
    var tx := Clean(SynSent(iss, wnd).(sndUna := ack), ack);
    tx.(sndUna := tx.sndNxt)
  }

  /** `tcp_listen`: `tcp_send_synack` counts the SYN, and so does its caller. */
  function SynAckSent(iss: u32, wnd: u32): Tx {
    var tx := SynSent(iss, wnd);
    tx.(sndNxt := Add32(tx.sndNxt, 1))
  }

  /** The ACK that completes a passive open, through the ordinary ACK path. */
  function PassiveOpen(iss: u32, wnd: u32): Tx {
    var ack := Add32(iss, 1);
    Clean(SynAckSent(iss, wnd).(sndUna := ack), ack)
  }

  /** The peer has set `rcv_nxt` to iss + 1. An active opener sends its first byte under that
      number, a passive opener under the one after it. */
  lemma {:induction false} FirstNumbers(iss: u32, wnd: u32)
    requires 0 < iss && iss + 2 < 0x1_0000_0000
    ensures ActiveOpen(iss, wnd) == Tx(iss + 1, iss + 1, wnd, 0, [], 0)
    ensures PassiveOpen(iss, wnd) == Tx(iss + 1, iss + 2, wnd, 0, [], 0)
  {
    var syn := Skb(iss, iss, [], false, false);
    assert SynSent(iss, wnd) == Tx(iss, iss + 1, wnd, 0, [syn], 0);
    assert [syn][1..] == [] && Acked([], iss + 1) == 0;
    assert Acked([syn], iss + 1) == 1;
    assert Settle(0, [syn], 1) == 0 by {
      assert Dlen(syn) == 0;
    }
  }

  // ----- a side that starts ahead of its peer sends its data twice

  /** There is room for a segment of `n` bytes, and the numbers used stay below 2^32. */
  ghost predicate Usable(s: System, p: u32, q: u32, n: nat) {
    && 1 <= n <= Min(s.a.sock.cc.smss, Min(s.a.sock.cc.cwnd, s.a.sock.tx.sndWnd))
    && First(s.a) + n < 0x1_0000_0000 && p + 2 * n + s.b.sock.rx.rcvWnd < 0x1_0000_0000
    && First(s.b) <= q + s.a.sock.rx.rcvWnd < 0x1_0000_0000
  }

  /** The state of a sender whose only segment, `data`, is numbered `w`. */
  ghost predicate OneOut(a: Peer, data: seq<byte>, w: nat, una: nat, q: nat) {
    && 0 < w && w + |data| < 0x1_0000_0000 && q < 0x1_0000_0000 && data != []
    && a.written == data && a.unsent == [] && a.received == []
    && a.sock.tx.queue == [Skb(w, w + |data|, data, true, false)]
    && a.sock.tx.sndUna == una && a.sock.tx.sndNxt == w + |data|
    && a.sock.rx == Fresh(q, a.sock.rx.rcvWnd)
  }

  lemma {:induction false} WriteAndSend(a: Peer, data: seq<byte>, p: u32, w: u32, q: u32)
    requires Ready(a, p, w, q) && w + |data| < 0x1_0000_0000
    requires 1 <= |data| <= Min(a.sock.cc.smss, Min(a.sock.cc.cwnd, a.sock.tx.sndWnd))
    ensures var a1 := PeerStep(a, Write(data)).peer;
      && Enabled(a1, SendSegment, {})
      && OneOut(PeerStep(a1, SendSegment).peer, data, w, p, q)
      && PeerStep(a1, SendSegment).peer.sock.rx == a.sock.rx
  {
    var a1 := PeerStep(a, Write(data)).peer;
    assert data[..|data|] == data;
    assert NextChunk(a1) == Chunk(data, true);
    Add32Small(w, |data|);
    Add32Small(0, |data|);
  }

  /** The timeout sends the data under the number `una`, whatever their own number is. */
  lemma {:induction false} Relabelled(a: Peer, data: seq<byte>, w: nat, una: nat, q: nat)
    requires OneOut(a, data, w, una, q)
    ensures var r := PeerStep(a, RtoFires);
      && OneOut(r.peer, data, w, una, q) && r.peer.sock.rx == a.sock.rx
      && |r.out| == 1
      && r.out[0].seqno == una && r.out[0].ackno == q && r.out[0].payload == data && r.out[0].psh
  {
    assert ClearSacked(a.sock.tx.queue) == a.sock.tx.queue;
  }

  /** The peer takes data that have the number it expects, and acknowledges them at once. */
  lemma {:induction false} DataTaken(b: Peer, g: Segment)
    requires b.sock.tx.queue == [] && b.sock.rx.ofo == [] && b.sock.rx.rcvWnd > 0
    requires g.seqno == b.sock.rx.rcvNxt && g.payload != [] && g.psh
    requires b.sock.tx.sndUna == g.ackno <= b.sock.tx.sndNxt
    requires b.sock.rx.rcvNxt + |g.payload| + b.sock.rx.rcvWnd < 0x1_0000_0000
    ensures var r := PeerStep(b, Deliver(g));
      && r.peer.sock.tx == b.sock.tx && r.peer.delivered == b.delivered
      && r.peer.written == b.written && r.peer.unsent == b.unsent
      && r.peer.sock.rx.ofo == [] && r.peer.sock.rx.rcvWnd == b.sock.rx.rcvWnd
      && r.peer.sock.rx.rcvNxt == b.sock.rx.rcvNxt + |g.payload|
      && Bytes(r.peer.sock.rx.queue) == Bytes(b.sock.rx.queue) + g.payload
      && PureAck(r.peer.sock) in r.out
  {
    var s := b.sock;
    var skb := Arrived(g.seqno, g.payload, g.psh);
    Add32Small(g.seqno, |g.payload|);
    assert DataQueue(s.rx, skb) == s.rx.(realRcvWnd := Sub32(s.rx.realRcvWnd, |g.payload|),
                                         rcvNxt := s.rx.rcvNxt + |g.payload|, queue := s.rx.queue + [skb]);
    BytesConcat(s.rx.queue, [skb]);
    assert [skb][1..] == [];
    var o := TextPath(s.(lastAckWin := g.win), g);
    assert o.out == [PureAck(o.sock)];
    assert Input(s, g) == o;
  }

  /** The acknowledgement does not cover the segment, which ends further up. */
  lemma {:induction false} AckTaken(a: Peer, h: Segment, data: seq<byte>, w: nat, una: nat, q: nat)
    requires OneOut(a, data, w, una, q) && una < h.ackno < w + |data| && h.payload == [] && !h.psh
    requires Verify(a.sock.rx, h.seqno, 0)
    ensures var a' := PeerStep(a, Deliver(h)).peer;
      OneOut(a', data, w, h.ackno, q) && a'.sock.rx == a.sock.rx
  {
    var s := a.sock;
    var o1 := AckPath(s, h.ackno);
    assert Acked(s.tx.queue, h.ackno) == 0 && s.tx.queue[0..] == s.tx.queue;
    InputTimerRequests(s, h);
    WindowUpdateIsDead(s, h);
    TextPathEffect(o1.sock.(lastAckWin := h.win), h);
    assert Joined(s.rx, s.rx) == [];
  }

  function Copies(data: seq<byte>, n: nat): seq<byte> {
    if n == 0 then [] else Copies(data, n - 1) + data
  }

  lemma {:induction false} CopiesLength(data: seq<byte>, n: nat)
    requires n <= 1
    ensures |Copies(data, n)| <= |data| && |Copies(data, n + 1)| == |Copies(data, n)| + |data|
  {
  }

  /** What the run below reaches: the data have been acknowledged `acked` times and taken by the peer
      `taken` times, and are still queued. */
  ghost predicate Doubling(s: System, t: System, data: seq<byte>, p: nat, q: nat, acked: nat, taken: nat) {
    && OneOut(t.a, data, First(s.a), p + |Copies(data, acked)|, q) && t.a.sock.rx == s.a.sock.rx
    && t.b.sock.tx == s.b.sock.tx && t.b.delivered == [] && t.b.written == [] && t.b.unsent == []
    && t.b.sock.rx.ofo == [] && t.b.sock.rx.rcvWnd == s.b.sock.rx.rcvWnd
    && t.b.sock.rx.rcvNxt == p + |Copies(data, taken)| && Bytes(t.b.sock.rx.queue) == Copies(data, taken)
    && (taken > acked ==> PureAck(t.b.sock) in t.ba)
    && (acked == 0 ==> t.a.sock.cc.dupacks == s.a.sock.cc.dupacks)
  }

  /** The state after the data have been written and sent. */
  lemma {:induction false} BeginState(s: System, data: seq<byte>, p: u32, q: u32)
    requires Established(s, p, q) && Usable(s, p, q, |data|)
    ensures CanStep(s, Event(A, Write(data)))
    ensures var s1 := Step(s, Event(A, Write(data)));
      CanStep(s1, Event(A, SendSegment)) && Doubling(s, Step(s1, Event(A, SendSegment)), data, p, q, 0, 0)
  {
    WriteAndSend(s.a, data, p, First(s.a), q);
  }

  /** A timeout and the delivery of what it sends, accepted once more. */
  lemma {:induction false} RepeatState(s: System, t: System, data: seq<byte>, p: u32, q: u32, n: nat) returns (g: Segment)
    requires Established(s, p, q) && Usable(s, p, q, |data|) && n <= 1 && Doubling(s, t, data, p, q, n, n)
    ensures CanStep(t, Event(A, RtoFires))
    ensures var t1 := Step(t, Event(A, RtoFires));
      CanStep(t1, Event(B, Deliver(g))) && Doubling(s, Step(t1, Event(B, Deliver(g))), data, p, q, n, n + 1)
  {
    CopiesLength(data, n);
    Relabelled(t.a, data, First(s.a), p + |Copies(data, n)|, q);
    g := PeerStep(t.a, RtoFires).out[0];
    DataTaken(Step(t, Event(A, RtoFires)).b, g);
  }

  /** The acknowledgement comes back and moves `snd_una` to a number that is no boundary. */
  lemma {:induction false} AcknowledgeState(s: System, t: System, data: seq<byte>, p: u32, q: u32)
    requires Established(s, p, q) && Usable(s, p, q, |data|) && First(s.a) > p && Doubling(s, t, data, p, q, 0, 1)
    ensures var e := Event(A, Deliver(PureAck(t.b.sock)));
      CanStep(t, e) && Doubling(s, Step(t, e), data, p, q, 1, 1)
  {
    AckTaken(t.a, PureAck(t.b.sock), data, First(s.a), p, q);
  }

  lemma {:induction false} Begin(s: System, data: seq<byte>, p: u32, q: u32) returns (es: seq<Event>)
    requires Established(s, p, q) && Usable(s, p, q, |data|)
    ensures IsRun(s, es) && Stays(es, A) && Doubling(s, Run(s, es), data, p, q, 0, 0)
  {
    BeginState(s, data, p, q);
    es := [Event(A, Write(data))];
    RunOne(s, es[0]);
    RunMore(s, es, Event(A, SendSegment));
    es := es + [Event(A, SendSegment)];
  }

  lemma {:induction false} Repeat(s: System, es: seq<Event>, data: seq<byte>, p: u32, q: u32, n: nat) returns (es': seq<Event>)
    requires Established(s, p, q) && Usable(s, p, q, |data|) && n <= 1
    requires IsRun(s, es) && Stays(es, A) && Doubling(s, Run(s, es), data, p, q, n, n)
    ensures IsRun(s, es') && Stays(es', A) && Doubling(s, Run(s, es'), data, p, q, n, n + 1)
  {
    var g := RepeatState(s, Run(s, es), data, p, q, n);
    var fire := Event(A, RtoFires);
    RunMore(s, es, fire);
    RunMore(s, es + [fire], Event(B, Deliver(g)));
    es' := es + [fire] + [Event(B, Deliver(g))];
  }

  lemma {:induction false} Acknowledge(s: System, es: seq<Event>, data: seq<byte>, p: u32, q: u32) returns (es': seq<Event>)
    requires Established(s, p, q) && Usable(s, p, q, |data|) && First(s.a) > p
    requires IsRun(s, es) && Stays(es, A) && Doubling(s, Run(s, es), data, p, q, 0, 1)
    ensures IsRun(s, es') && Stays(es', A) && Doubling(s, Run(s, es'), data, p, q, 1, 1)
  {
    AcknowledgeState(s, Run(s, es), data, p, q);
    var e := Event(A, Deliver(PureAck(Run(s, es).b.sock)));
    RunMore(s, es, e);
    es' := es + [e];
  }

  lemma {:induction false} ReadBoth(s: System, es: seq<Event>, data: seq<byte>, p: u32, q: u32) returns (es': seq<Event>)
    requires IsRun(s, es) && Stays(es, A) && Doubling(s, Run(s, es), data, p, q, 1, 2)
    ensures IsRun(s, es') && Stays(es', A) && Twice(s, Run(s, es'), data, p)
  {
    var t := Run(s, es);
    var all := data + data;
    assert Copies(data, 2) == all by {
      assert Copies(data, 1) == [] + data == data;
    }
    assert all[..|all|] == all;
    assert BytesRead(t.b.sock.rx, |all|) == all;
    RunMore(s, es, Event(B, Read(|all|)));
    es' := es + [Event(B, Read(|all|))];
  }

  /** The data have been written once and read twice; the reader expects the number after the second
      copy. */
  ghost predicate Twice(s: System, t: System, data: seq<byte>, p: nat) {
    && t.a.written == data && t.a.unsent == [] && t.b.delivered == data + data && t.b.written == []
    && t.a.sock.tx.sndNxt == First(s.a) + |data| && t.b.sock.rx.rcvNxt == p + 2 * |data|
  }

  /** A side whose first number is above the one its peer expects: write one segment of data, let the
      timeout send it, acknowledge it, let the timeout send it again, and the reader gets it twice. */
  lemma {:induction false} DataTwice(s: System, data: seq<byte>, p: u32, q: u32) returns (es: seq<Event>)
    requires Established(s, p, q) && Usable(s, p, q, |data|) && First(s.a) > p
    ensures IsRun(s, es) && Stays(es, A) && Twice(s, Run(s, es), data, p)
  {
    es := Begin(s, data, p, q);
    es := Repeat(s, es, data, p, q, 0);
    es := Acknowledge(s, es, data, p, q);
    es := Repeat(s, es, data, p, q, 1);
    es := ReadBoth(s, es, data, p, q);
  }

  /** If the data are longer than the sender is ahead, the reader ends up expecting, and acknowledging, a
      number that the sender has not sent. */
  lemma {:induction false} ExpectsUnsent(s: System, data: seq<byte>, p: u32, q: u32) returns (es: seq<Event>)
    requires Established(s, p, q) && Usable(s, p, q, |data|) && First(s.a) > p
    ensures IsRun(s, es) && Run(s, es).a.written == data && Run(s, es).a.unsent == []
    ensures |data| > First(s.a) - p ==> Run(s, es).b.sock.rx.rcvNxt > Run(s, es).a.sock.tx.sndNxt
  {
    es := DataTwice(s, data, p, q);
  }

  // ----- exactly when the transfer is right

  /** In every run in which `a` does not abort, what `b` reads is a prefix of what `a` wrote. */
  ghost predicate AlwaysPrefix(s: System) {
    forall es :: IsRun(s, es) && Stays(es, A) && InRange(Run(s, es), First(s.a), First(s.b)) ==>
      Run(s, es).b.delivered <= Run(s, es).a.written
  }

  /** All runs keep the prefix property exactly when the sender's `snd_nxt` is the number that its
      peer expects. */
  lemma {:induction false} PrefixIff(s: System, p: u32, q: u32)
    requires Established(s, p, q) && Usable(s, p, q, 1)
    ensures AlwaysPrefix(s) <==> s.a.sock.tx.sndNxt == s.b.sock.rx.rcvNxt
  {
    if First(s.a) == p {
      forall es | IsRun(s, es) && Stays(es, A) && InRange(Run(s, es), First(s.a), First(s.b))
        ensures Run(s, es).b.delivered <= Run(s, es).a.written
      {
        TransferTheorem(s, es, p, q);
      }
    } else {
      var es := DataTwice(s, [0], p, q);
      assert !(Run(s, es).b.delivered <= Run(s, es).a.written);
    }
  }

  /** So the bytes of an active opener arrive as written, and those of a passive opener need not. */
  lemma {:induction false} OnlyActiveOpenersAreSafe(s: System, p: u32, q: u32, iss: u32, wnd: u32)
    requires Established(s, p, q) && Usable(s, p, q, 1) && 0 < iss && iss + 2 < 0x1_0000_0000
    ensures s.a.sock.tx == ActiveOpen(iss, wnd) ==> AlwaysPrefix(s)
    ensures s.a.sock.tx == PassiveOpen(iss, wnd) ==> !AlwaysPrefix(s)
  {
    FirstNumbers(iss, wnd);
    PrefixIff(s, p, q);
  }
}
