/** What an abort can do to the peer. `tcp_send_reset` sets `snd_una` to `snd_nxt` and leaves the write queue;
    if the RST is lost, acknowledgements of the last byte count as duplicates and arm the timer, and the
    timeout sends the head of the queue under the number that the peer expects next. */
module Aborted {
  import opened Words
  import opened TcpData
  import opened TcpOutput
  import opened TcpInput
  import opened Transfer
  import opened TransferSafety
  import opened Opening
  import opened Connection
  import opened Misled
  import opened AfterClose
  import R = RtoEpoch

  // ----- moves of one endpoint in the whole system

  lemma {:induction false} MovesOnA(n: Net, ms: seq<R.Move>)
    requires R.IsRun(n.a, ms) && forall i :: 0 <= i < |ms| && ms[i].App? ==> R.Inbox(ms[i].act) <= n.ba
    ensures IsNetRun(n, OnA(ms))
    ensures var m := NetRun(n, OnA(ms));
      m.a == R.Run(n.a, ms) && m.b == n.b && m.ba == n.ba && n.ab <= m.ab
    decreases |ms|
  {
    if ms != [] {
      var x := Action(A, ms[0]);
      var n1 := Do(n, x);
      forall i | 0 <= i < |ms[1..]| && ms[1..][i].App?
        ensures R.Inbox(ms[1..][i].act) <= n1.ba
      {
        assert ms[1..][i] == ms[i + 1];
      }
      MovesOnA(n1, ms[1..]);
      NetRunFront(n, x, OnA(ms[1..]));
      assert OnA(ms) == [x] + OnA(ms[1..]);
    }
  }

  // ----- the aborted sender

  /** The sender has been aborted with `data` queued under number `w` and `snd_una` at their end. */
  ghost predicate Forsaken(c: R.Conn, data: seq<byte>, w: nat, q: nat) {
    && R.ConnInv(c) && c.closed && !c.timeWait && c.est.rto <= 60000
    && OneOut(c.peer, data, w, w + |data|, q)
  }

  lemma {:induction false} AbortForsakes(c: R.Conn, data: seq<byte>, w: nat, una: nat, q: nat)
    requires R.ConnInv(c) && c.est.rto <= 60000 && OneOut(c.peer, data, w, una, q)
    ensures Forsaken(R.Next(c, R.Abort), data, w, q) && R.Next(c, R.Abort).peer.sock.cc == c.peer.sock.cc
  {
    R.NextKeeps(c, R.Abort);
  }

  /** The peer's acknowledgement of everything. */
  ghost predicate AcksAll(c: R.Conn, h: Segment) {
    && h.payload == [] && !h.psh && h.ackno == c.peer.sock.tx.sndNxt
    && Verify(c.peer.sock.rx, h.seqno, 0)
  }

  /** The first one makes its window the last one seen, or already counts. */
  lemma {:induction false} FirstAck(c: R.Conn, h: Segment, data: seq<byte>, w: nat, q: nat)
    requires Forsaken(c, data, w, q) && AcksAll(c, h) && c.peer.sock.cc.dupacks == 0
    ensures R.CanMove(c, R.App(Late(h)))
    ensures var d := R.Next(c, R.App(Late(h)));
      Duplicate(d, h) && d.peer.sock.cc.dupacks <= 1 && SameSide(c, d) && d.peer.unsent == c.peer.unsent
  {
    var s := c.peer.sock;
    CoversOrdered(s.tx.queue, Front(s.tx), s.tx.sndNxt);
    if s.lastAckWin == h.win {
      OneDuplicate(c, h);
    } else {
      R.AppKeeps(c, Late(h));
      assert LateInput(s, h) == Outcome(s.(lastAckWin := h.win), [], []);
      assert R.Next(c, R.App(Late(h))) == c.(peer := PeerStep(c.peer, Late(h)).peer);
    }
  }

  /** Enough of them arm the timer, and nothing else changes. */
  lemma {:induction false} AcksArm(c: R.Conn, h: Segment, data: seq<byte>, w: nat, q: nat) returns (ms: seq<R.Move>)
    requires Forsaken(c, data, w, q) && AcksAll(c, h) && c.peer.sock.cc.dupacks == 0
    ensures R.IsRun(c, ms) && SameSide(c, R.Run(c, ms)) && R.Live(R.Run(c, ms)) && R.ConnInv(R.Run(c, ms))
    ensures forall i :: 0 <= i < |ms| ==> ms[i] == R.App(Late(h))
  {
    var m := R.App(Late(h));
    FirstAck(c, h, data, w, q);
    var d := R.Next(c, m);
    var ns := DuplicatesRevive(d, h);
    R.RunFront(c, m, ns);
    ms := [m] + ns;
    R.RunKeeps(c, ms);
  }

  /** The timeout of the closed connection sends the data under the number after them. */
  lemma {:induction false} LateTimeout(n: Net, data: seq<byte>, w: nat, q: nat) returns (xs: seq<Action>, g: Segment)
    requires R.ConnInv(n.a) && R.Live(n.a) && n.a.est.rto <= 60000 && w + |data| < 0x1_0000_0000
    requires n.a.peer.sock.tx.queue == [Skb0(w, data)]
    requires n.a.peer.sock.tx.sndUna == w + |data| && n.a.peer.sock.rx.rcvNxt == q
    ensures IsNetRun(n, xs) && NetRun(n, xs).b == n.b && g in NetRun(n, xs).ab
    ensures g.seqno == w + |data| && g.ackno == q && g.payload == data && g.psh
    ensures NetRun(n, xs).a.peer.written == n.a.peer.written
  {
    var ms := R.TimeoutComes(n.a);
    TimersLift(n, ms);
    var n1, x := n.(a := R.Run(n.a, ms)), Action(A, R.CallbackRuns(n.a.slot.value));
    g := PeerStep(n.a.peer, RtoFires).out[0];
    R.CallbackEffect(n1.a, R.Next(n1.a, x.move));
    assert g in Sent(n1.a, x.move);
    NetRunOne(n1, x);
    xs := NetJoin(n, OnA(ms), [x]);
  }

  function Skb0(w: nat, data: seq<byte>): Skb
    requires w + |data| < 0x1_0000_0000
  {
    Skb(w, w + |data|, data, true, false)
  }

  // ----- the whole run

  /** The receiver has taken the data once and acknowledged them, and the sender has been aborted. */
  ghost predicate AfterAbort(n0: Net, n: Net, data: seq<byte>, p: nat, q: nat) {
    && Forsaken(n.a, data, p, q) && n.a.peer.sock.cc.dupacks == 0 && n.a.peer.sock.rx == n0.a.peer.sock.rx
    && ReaderHas(n0, n, data, p, q) && PureAck(n.b.peer.sock) in n.ba
  }

  ghost predicate ReaderHas(n0: Net, n: Net, data: seq<byte>, p: nat, q: nat) {
    && n.b.peer.sock.tx == n0.b.peer.sock.tx && n.b.peer.delivered == [] && n.b.peer.sock.rx.ofo == []
    && n.b.peer.sock.rx.rcvWnd == n0.b.peer.sock.rx.rcvWnd && n.b.peer.sock.rx.rcvNxt == p + |data|
    && Bytes(n.b.peer.sock.rx.queue) == data && !n.b.closed && R.ConnInv(n.b)
  }

  lemma {:induction false} AbortHappens(n: Net, data: seq<byte>, p: u32, q: u32) returns (xs: seq<Action>)
    requires Set(n, data, p, q) && First(n.a.peer) == p && n.a.peer.sock.cc.dupacks == 0
    ensures IsNetRun(n, xs) && AfterAbort(n, NetRun(n, xs), data, p, q)
  {
    var ys := TakenOnce(n, data, p, q);
    var n1, x := NetRun(n, ys), Action(A, R.Abort);
    AbortState(n, n1, data, p, q);
    NetRunOne(n1, x);
    xs := NetJoin(n, ys, [x]);
    assert NetRun(n, xs) == Do(n1, x);
  }

  lemma {:induction false} AbortState(n0: Net, n: Net, data: seq<byte>, p: u32, q: u32)
    requires Stage(n0, n, data, p, q, 0, 1) && n.a.est.rto <= 60000
    requires First(n0.a.peer) == p && n0.a.peer.sock.cc.dupacks == 0
    ensures Can(n, Action(A, R.Abort)) && AfterAbort(n0, Do(n, Action(A, R.Abort)), data, p, q)
  {
    OneCopy(data);
    AbortForsakes(n.a, data, p, p, q);
  }

  lemma {:induction false} OneCopy(data: seq<byte>)
    ensures Copies(data, 0) == [] && Copies(data, 1) == data
  {
    assert Copies(data, 1) == [] + data;
  }

  /** The reader takes what the late timeout sends, and reads both copies. */
  lemma {:induction false} ReaderTakesAgain(n0: Net, n: Net, g: Segment, data: seq<byte>, p: u32, q: u32) returns (xs: seq<Action>)
    requires Set(n0, data, p, q) && ReaderHas(n0, n, data, p, q) && g in n.ab && !n.b.closed
    requires g.seqno == p + |data| && g.ackno == q && g.payload == data && g.psh
    ensures IsNetRun(n, xs) && NetRun(n, xs).b.peer.delivered == data + data && NetRun(n, xs).a == n.a
  {
    var both := data + data;
    DataTaken(n.b.peer, g);
    var take, read := Action(B, R.App(Deliver(g))), Action(B, R.App(Read(|both|)));
    BMoves(n, Deliver(g));
    var n1 := Do(n, take);
    assert Unread(n1.b.peer.sock.rx) == both && both[..|both|] == both;
    BMoves(n1, Read(|both|));
    NetRunOne(n1, read);
    NetRunFront(n, take, [read]);
    xs := [take] + [read];
  }

  lemma {:induction false} BMoves(n: Net, a: Act)
    requires !n.b.closed && (a.Read? || (a.Deliver? && a.g in n.ab))
    ensures var x := Action(B, R.App(a));
      Can(n, x) && Do(n, x).b.peer == PeerStep(n.b.peer, a).peer && Do(n, x).a == n.a && !Do(n, x).b.closed
  {
    var x := Action(B, R.App(a));
    OpsKeepPeer(n.b.(peer := PeerStep(n.b.peer, a).peer, timeWait := n.b.timeWait || R.Settles(n.b.peer, a)), R.StepOps(n.b.peer, a));
  }

  /** The acknowledgements arrive after the abort, and the timeout comes. */
  lemma {:induction false} SentAgain(n0: Net, n: Net, data: seq<byte>, p: u32, q: u32) returns (xs: seq<Action>, g: Segment)
    requires Set(n0, data, p, q) && AfterAbort(n0, n, data, p, q)
    ensures IsNetRun(n, xs) && NetRun(n, xs).b == n.b && g in NetRun(n, xs).ab && NetRun(n, xs).a.peer.written == data
    ensures g.seqno == p + |data| && g.ackno == q && g.payload == data && g.psh
  {
    var h := PureAck(n.b.peer.sock);
    var ms := AcksArm(n.a, h, data, p, q);
    MovesOnA(n, ms);
    var ys;
    ys, g := LateTimeout(NetRun(n, OnA(ms)), data, p, q);
    xs := NetJoin(n, OnA(ms), ys);
  }

  /** A sender in step that aborts: its data, written once and read before the abort was noticed, are read
      twice. */
  lemma {:induction false} AbortedDataTwice(n: Net, data: seq<byte>, p: u32, q: u32) returns (xs: seq<Action>)
    requires Set(n, data, p, q) && First(n.a.peer) == p && n.a.peer.sock.cc.dupacks == 0
    ensures IsNetRun(n, xs) && NetRun(n, xs).a.peer.written == data && NetRun(n, xs).b.peer.delivered == data + data
  {
    var ys := AbortHappens(n, data, p, q);
    var n1 := NetRun(n, ys);
    var zs, g := SentAgain(n, n1, data, p, q);
    var n2 := NetRun(n1, zs);
    var us := ReaderTakesAgain(n, n2, g, data, p, q);
    xs := NetJoin(n1, zs, us);
    xs := NetJoin(n, ys, xs);
  }

  /** From a handshake, with one byte. */
  lemma {:induction false} HandshakeToAbort(issA: u32, issB: u32, wnd: u32, winA: u16, winB: u16, x: byte) returns (xs: seq<Action>)
    requires 0 < issA && 0 < issB && 536 <= wnd
    requires issA + wnd + 540 < 0x1_0000_0000 && issB + wnd + 540 < 0x1_0000_0000
    ensures var n := Handshaken(issA, issB, wnd, winA, winB);
      IsNetRun(n, xs) && NetRun(n, xs).a.peer.written == [x] && NetRun(n, xs).b.peer.delivered == [x, x]
  {
    HandshakeBegins(issA, issB, wnd, winA, winB);
    FirstNumbers(issA, wnd);
    FirstNumbers(issB, wnd);
    var n := Handshaken(issA, issB, wnd, winA, winB);
    xs := AbortedDataTwice(n, [x], issA + 1, issB + 1);
    assert [x] + [x] == [x, x];
  }
}
