/** A run of the whole system, from the handshake of an active and a passive opener, after which the active
    opener expects a number that was never sent, and nothing it has written can arrive any more. */
module Misled {
  import opened Words
  import opened Stream
  import opened TcpData
  import opened TcpOutput
  import opened TcpInput
  import opened Transfer
  import opened TransferSafety
  import opened Reach
  import opened Opening
  import opened Connection
  import Rounds
  import R = RtoEpoch

  // ----- the whole system seen from the other side

  function SwapNet(n: Net): Net {
    Net(n.b, n.a, n.ba, n.ab)
  }

  function SwapAction(x: Action): Action {
    Action(if x.side == A then B else A, x.move)
  }

  function SwapActions(xs: seq<Action>): seq<Action> {
    if xs == [] then [] else [SwapAction(xs[0])] + SwapActions(xs[1..])
  }

  lemma {:induction false} SwapNetRun(n: Net, xs: seq<Action>)
    requires IsNetRun(n, xs)
    ensures IsNetRun(SwapNet(n), SwapActions(xs)) && NetRun(SwapNet(n), SwapActions(xs)) == SwapNet(NetRun(n, xs))
    decreases |xs|
  {
    if xs != [] {
      SwapNetRun(Do(n, xs[0]), xs[1..]);
      assert Do(SwapNet(n), SwapAction(xs[0])) == SwapNet(Do(n, xs[0]));
      NetRunFront(SwapNet(n), SwapAction(xs[0]), SwapActions(xs[1..]));
    }
  }

  // ----- single moves

  /** An event of `Transfer` at an open endpoint, other than a timeout, as a move. */
  lemma {:induction false} EventLifts(n: Net, e: Event)
    requires Open(n) && CanStep(Plainly(n), e) && Regular(e.act) && !e.act.RtoFires?
    requires R.ConnInv(n.a) && R.ConnInv(n.b)
    requires var c := if e.side == A then n.a else n.b;
      e.act.SendSegment? ==> c.peer.sock.tx.sndNxt + |NextChunk(c.peer).payload| < 0x1_0000_0000
    ensures var x := Action(e.side, R.App(e.act));
      && Can(n, x) && Plainly(Do(n, x)) == Step(Plainly(n), e) && Open(Do(n, x))
      && R.ConnInv(Do(n, x).a) && R.ConnInv(Do(n, x).b)
      && (if e.side == A then Do(n, x).b == n.b else Do(n, x).a == n.a)
  {
    var x := Action(e.side, R.App(e.act));
    FirstActProjects(n, x, e.act);
    MoveIsActs(Mover(n, x), x.move, if x.side == A then n.ba else n.ab);
    var c := Mover(n, x);
    R.NextKeeps(c, x.move);
    OpsKeepPeer(c.(peer := PeerStep(c.peer, e.act).peer, timeWait := c.timeWait || R.Settles(c.peer, e.act)), R.StepOps(c.peer, e.act));
  }

  /** Writing and sending leave the estimate and the count alone. */
  lemma {:induction false} QuietActs(c: R.Conn, a: Act)
    requires a.Write? || a.SendSegment?
    ensures R.AppStep(c, a).est == c.est && R.AppStep(c, a).backoff == c.backoff
  {
    assert [Rearm][1..] == [];
  }

  // ----- the run, with the passive opener in the role of `a`

  ghost predicate Stage(n0: Net, n: Net, data: seq<byte>, p: nat, q: nat, acked: nat, taken: nat) {
    && Doubling(Plainly(n0), Plainly(n), data, p, q, acked, taken)
    && Open(n) && R.ConnInv(n.a) && R.ConnInv(n.b)
  }

  lemma {:induction false} StageBegin(n: Net, data: seq<byte>, p: u32, q: u32) returns (xs: seq<Action>)
    requires Established(Plainly(n), p, q) && Usable(Plainly(n), p, q, |data|) && Open(n)
    requires R.ConnInv(n.a) && R.ConnInv(n.b)
    ensures IsNetRun(n, xs) && Stage(n, NetRun(n, xs), data, p, q, 0, 0)
    ensures NetRun(n, xs).a.est == n.a.est && NetRun(n, xs).a.backoff == n.a.backoff
  {
    var s := Plainly(n);
    BeginState(s, data, p, q);
    var w, d := Event(A, Write(data)), Event(A, SendSegment);
    EventLifts(n, w);
    QuietActs(n.a, Write(data));
    var n1 := Do(n, Action(A, R.App(Write(data))));
    WriteAndSend(n.a.peer, data, p, First(n.a.peer), q);
    assert NextChunk(n1.a.peer).payload == data by {
      assert data[..|data|] == data;
    }
    EventLifts(n1, d);
    QuietActs(n1.a, SendSegment);
    var x, y := Action(A, R.App(Write(data))), Action(A, R.App(SendSegment));
    NetRunOne(n1, y);
    NetRunFront(n, x, [y]);
    xs := [x] + [y];
  }

  lemma {:induction false} StageRepeat(n0: Net, n: Net, data: seq<byte>, p: u32, q: u32, k: nat) returns (xs: seq<Action>)
    requires Established(Plainly(n0), p, q) && Usable(Plainly(n0), p, q, |data|) && k <= 1
    requires Stage(n0, n, data, p, q, k, k) && n.a.est.rto <= 60000
    ensures IsNetRun(n, xs) && Stage(n0, NetRun(n, xs), data, p, q, k, k + 1)
    ensures NetRun(n, xs).a.est.rto == 2 * n.a.est.rto && NetRun(n, xs).a.backoff == Inc8(n.a.backoff)
  {
    var g := RepeatState(Plainly(n0), Plainly(n), data, p, q, k);
    var ys := TimeoutHappens(n);
    RunKeepsTimers(n, ys);
    var n1 := NetRun(n, ys);
    EventLifts(n1, Event(B, Deliver(g)));
    var x := Action(B, R.App(Deliver(g)));
    NetRunOne(n1, x);
    xs := NetJoin(n, ys, [x]);
  }

  lemma {:induction false} StageAck(n0: Net, n: Net, data: seq<byte>, p: u32, q: u32) returns (xs: seq<Action>)
    requires Established(Plainly(n0), p, q) && Usable(Plainly(n0), p, q, |data|) && First(n0.a.peer) > p
    requires Stage(n0, n, data, p, q, 0, 1) && n.a.backoff > 0
    ensures IsNetRun(n, xs) && Stage(n0, NetRun(n, xs), data, p, q, 1, 1)
    ensures NetRun(n, xs).a.est == n.a.est
  {
    var h := PureAck(n.b.peer.sock);
    AcknowledgeState(Plainly(n0), Plainly(n), data, p, q);
    EventLifts(n, Event(A, Deliver(h)));
    var x := Action(A, R.App(Deliver(h)));
    NumbersAssigned(n.a.peer.sock.tx);
    AckIsPlain(n0, n, data, p, q);
    Rounds.KarnKeeps(n.a, h);
    NetRunOne(n, x);
    xs := [x];
  }

  lemma {:induction false} AckIsPlain(n0: Net, n: Net, data: seq<byte>, p: u32, q: u32)
    requires Established(Plainly(n0), p, q) && Usable(Plainly(n0), p, q, |data|) && Stage(n0, n, data, p, q, 0, 1)
    ensures var s, h := n.a.peer.sock, PureAck(n.b.peer.sock);
      Verify(s.rx, h.seqno, |h.payload|) && !IsDupack(s, h) && R.Ticking(n.a)
  {
  }

  /** What is asked of the start of the run. */
  ghost predicate Set(n: Net, data: seq<byte>, p: u32, q: u32) {
    && Established(Plainly(n), p, q) && Usable(Plainly(n), p, q, |data|) && Open(n)
    && R.ConnInv(n.a) && R.ConnInv(n.b) && n.a.backoff == 0 && 0 <= n.a.est.rto <= 30000
  }

  lemma {:induction false} TakenOnce(n: Net, data: seq<byte>, p: u32, q: u32) returns (xs: seq<Action>)
    requires Set(n, data, p, q)
    ensures IsNetRun(n, xs) && Stage(n, NetRun(n, xs), data, p, q, 0, 1)
    ensures NetRun(n, xs).a.backoff > 0 && NetRun(n, xs).a.est.rto <= 60000
  {
    var ys := StageBegin(n, data, p, q);
    var n1 := NetRun(n, ys);
    var zs := StageRepeat(n, n1, data, p, q, 0);
    var n2 := NetRun(n1, zs);
    assert n2.a.backoff == 1 && n2.a.est.rto <= 60000;
    xs := NetJoin(n, ys, zs);
    assert NetRun(n, xs) == n2;
  }

  lemma {:induction false} AcknowledgedOnce(n: Net, data: seq<byte>, p: u32, q: u32) returns (xs: seq<Action>)
    requires Set(n, data, p, q) && First(n.a.peer) > p
    ensures IsNetRun(n, xs) && Stage(n, NetRun(n, xs), data, p, q, 1, 1) && NetRun(n, xs).a.est.rto <= 60000
  {
    var ys := TakenOnce(n, data, p, q);
    var zs := StageAck(n, NetRun(n, ys), data, p, q);
    xs := NetJoin(n, ys, zs);
  }

  /** The data have been taken twice; the reader expects the number after the second copy. */
  lemma {:induction false} TwiceTaken(n: Net, data: seq<byte>, p: u32, q: u32) returns (xs: seq<Action>)
    requires Set(n, data, p, q) && First(n.a.peer) > p
    ensures IsNetRun(n, xs) && Stage(n, NetRun(n, xs), data, p, q, 1, 2)
  {
    var ys := AcknowledgedOnce(n, data, p, q);
    var zs := StageRepeat(n, NetRun(n, ys), data, p, q, 1);
    xs := NetJoin(n, ys, zs);
  }

  /** And then the reader writes a byte of its own. */
  lemma {:induction false} ReaderWrites(n0: Net, n: Net, data: seq<byte>, p: u32, q: u32, y: byte)
    requires Stage(n0, n, data, p, q, 1, 2)
    ensures var x := Action(B, R.App(Write([y])));
      Can(n, x) && Open(Do(n, x)) && Do(n, x).b.peer == n.b.peer.(written := [y], unsent := [y]) && Do(n, x).a == n.a
  {
    var x := Action(B, R.App(Write([y])));
    EventLifts(n, Event(B, Write([y])));
  }

  // ----- from the handshake

  /** Two bytes from the passive opener, timed out twice, and a byte from the active opener: with the
      network lost, that byte cannot arrive any more, although both connections are open. */
  lemma {:induction false} HandshakeToDeadEnd(issA: u32, issB: u32, wnd: u32, winA: u16, winB: u16, y: byte)
    returns (xs: seq<Action>)
    requires 0 < issA && 0 < issB && 536 <= wnd
    requires issA + wnd + 259 * 2144 < 0x1_0000_0000 && issB + wnd + 540 < 0x1_0000_0000
    ensures var n := Handshaken(issA, issB, wnd, winA, winB);
      && IsNetRun(n, xs) && Open(NetRun(n, xs)) && NetRun(n, xs).a.peer.written == [y]
      && NetRun(n, xs).a.peer.sock.rx.rcvNxt > NetRun(n, xs).b.peer.sock.tx.sndNxt
      && !CanFinish(Remaining(n, xs, {}, {}))
  {
    var n, data: seq<byte> := Handshaken(issA, issB, wnd, winA, winB), [0, 0];
    HandshakeBegins(issA, issB, wnd, winA, winB);
    FirstNumbers(issB, wnd);
    FirstNumbers(issA, wnd);
    var m := SwapNet(n);
    var ys := TwiceTaken(m, data, issB + 1, issA + 1);
    var m1, x := NetRun(m, ys), Action(B, R.App(Write([y])));
    ReaderWrites(m, m1, data, issB + 1, issA + 1, y);
    NetRunOne(m1, x);
    ys := NetJoin(m, ys, [x]);
    SwapNetRun(m, ys);
    assert SwapNet(m) == n;
    xs := SwapActions(ys);
    DeadEnd(n, xs, issA + 1, issB + 1, y);
  }

  lemma {:induction false} DeadEnd(n: Net, xs: seq<Action>, p: u32, q: u32, y: byte)
    requires Begun(n, p, q) && IsNetRun(n, xs) && Open(NetRun(n, xs)) && InBounds(Plainly(n), Plainly(NetRun(n, xs)), p)
    requires var m := NetRun(n, xs);
      && m.a.peer.written == [y] && m.a.peer.sock.tx.queue == [] && m.b.peer.received == [] && m.b.peer.unsent == []
      && m.b.peer.sock.tx.sndNxt < m.a.peer.sock.rx.rcvNxt
      && m.a.peer.sock.rx.rcvNxt + m.a.peer.sock.rx.rcvWnd < 0x1_0000_0000
    ensures !CanFinish(Remaining(n, xs, {}, {}))
  {
    assert Flat([]) == [];
    ArrivesIff(n, xs, p, q);
  }
}
