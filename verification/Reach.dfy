/** Every run from an established connection reaches only states from which `Progress` can go on:
    the sender in step with its peer is regulated, limits stay fixed, and the two sides hear each
    other as long as the peer is attentive. */
module Reach {
  import opened Words
  import opened TcpOutput
  import opened TcpInput
  import opened Transfer
  import opened TransferSafety
  import opened SenderWindow
  import opened Progress
  import opened Echo

  // ----- order, regulation and limits

  ghost predicate Kept(s: System, p: nat, n: nat) {
    InOrder(s, p, n) && Regulated(s.a, p)
  }

  lemma {:induction false} StepKept(s: System, e: Event, p: nat, n: nat)
    requires Kept(s, p, n) && CanStep(s, e) && Stays([e], A) && InRange(Step(s, e), p, n) && Roomy(Step(s, e).a)
    ensures Kept(Step(s, e), p, n)
    ensures SameLimits(s.a, Step(s, e).a) && SameLimits(s.b, Step(s, e).b)
  {
    StepKeeps(s, e, p, n);
    match e.side
    case A =>
      LimitsFixed(s.a, e.act);
      StepRegulated(s.a, e.act, p);
    case B =>
      LimitsFixed(s.b, e.act);
  }

  lemma {:induction false} RunKept(s: System, es: seq<Event>, p: nat, n: nat)
    requires Kept(s, p, n) && IsRun(s, es) && Stays(es, A) && InRange(Run(s, es), p, n) && Roomy(Run(s, es).a)
    ensures Kept(Run(s, es), p, n)
    ensures SameLimits(s.a, Run(s, es).a) && SameLimits(s.b, Run(s, es).b)
    decreases |es|
  {
    if es != [] {
      StaysOn(es, A);
      WrittenGrows(Step(s, es[0]), es[1..]);
      StepKept(s, es[0], p, n);
      RunKept(Step(s, es[0]), es[1..], p, n);
    }
  }

  // ----- a peer that has written nothing

  /** `b` has sent nothing but acknowledgements, and nothing that `a` sends acknowledges anything. */
  ghost predicate Silent(s: System, q: nat, n: nat) {
    && s.b.written == [] && s.b.unsent == [] && s.b.sock.tx.queue == [] && s.b.sock.tx.inflight == 0
    && s.b.sock.tx.sndUna == q && s.b.sock.tx.sndNxt == n
    && s.a.sock.rx.rcvNxt == q
    && (forall g :: g in s.ba ==> Pure(g))
    && (forall g :: g in s.ab ==> g.ackno == q)
  }

  lemma {:induction false} SpeakerOfNothing(x: Peer, a: Act, inbound: set<Segment>, q: nat)
    requires Numbered(x.sock.tx) && Enabled(x, a, inbound) && x.sock.rx.rcvNxt == q
    requires forall g :: g in inbound ==> Pure(g)
    ensures var r := PeerStep(x, a);
      r.peer.sock.rx.rcvNxt == q && forall g :: g in r.out ==> g.ackno == q
  {
    if a.Deliver? || a.Late? {
      InputEffect(x.sock, a.g);
      LateEffect(x.sock, a.g);
    }
  }

  lemma {:induction false} ListenerOnly(y: Peer, a: Act, inbound: set<Segment>, q: nat)
    requires y.written == [] && y.unsent == [] && y.sock.tx.queue == [] && y.sock.tx.inflight == 0
    requires y.sock.tx.sndUna == q && Enabled(y, a, inbound) && !a.Forsake? && PeerStep(y, a).peer.written == []
    requires forall g :: g in inbound ==> g.ackno == q
    ensures var r := PeerStep(y, a);
      && r.peer.sock.tx == y.sock.tx && r.peer.unsent == []
      && forall g :: g in r.out ==> Pure(g)
  {
    if a.Deliver? || a.Late? {
      InputEffect(y.sock, a.g);
      LateEffect(y.sock, a.g);
    }
  }

  lemma {:induction false} StepSilent(s: System, e: Event, q: nat, n: nat)
    requires Silent(s, q, n) && CanStep(s, e) && Numbered(s.a.sock.tx) && Step(s, e).b.written == []
    requires !(e.side == B && e.act.Forsake?)
    ensures Silent(Step(s, e), q, n)
  {
    match e.side
    case A => SpeakerOfNothing(s.a, e.act, s.ba, q);
    case B => ListenerOnly(s.b, e.act, s.ab, q);
  }

  lemma {:induction false} RunSilent(s: System, es: seq<Event>, p: nat, q: nat, n: nat)
    requires Kept(s, p, n) && IsRun(s, es) && InRange(Run(s, es), p, n) && Roomy(Run(s, es).a)
    requires Stays(es, A) && Stays(es, B)
    requires Silent(s, q, n) && Run(s, es).b.written == []
    ensures Silent(Run(s, es), q, n)
    decreases |es|
  {
    if es != [] {
      StaysOn(es, A);
      StaysOn(es, B);
      assert !(es[0].side == B && es[0].act.Forsake?);
      WrittenGrows(Step(s, es[0]), es[1..]);
      Between(s, p, n);
      StepSilent(s, es[0], q, n);
      StepKept(s, es[0], p, n);
      RunSilent(Step(s, es[0]), es[1..], p, q, n);
    }
  }

  // ----- a peer that is in step

  ghost predicate WithinOffer(x: Peer) {
    x.sock.tx.inflight <= x.sock.tx.sndWnd
  }

  lemma {:induction false} OfferKept(x: Peer, a: Act, inbound: set<Segment>)
    requires Numbered(x.sock.tx) && Enabled(x, a, inbound) && WithinOffer(x)
    ensures WithinOffer(PeerStep(x, a).peer)
  {
    InflightWithinWindow(x, a);
    LimitsFixed(x, a);
  }

  /** No more is ever in flight than the peer offered. */
  lemma {:induction false} RunWithinOffer(s: System, es: seq<Event>, p: nat, n: nat)
    requires InOrder(s, p, n) && IsRun(s, es) && Stays(es, A) && InRange(Run(s, es), p, n) && WithinOffer(s.b)
    ensures WithinOffer(Run(s, es).b)
    decreases |es|
  {
    if es != [] {
      StaysOn(es, A);
      WrittenGrows(Step(s, es[0]), es[1..]);
      StepKeeps(s, es[0], p, n);
      if es[0].side == B {
        OfferKept(s.b, es[0].act, s.ab);
      }
      RunWithinOffer(Step(s, es[0]), es[1..], p, n);
    }
  }

  // ----- both sides hear each other

  /** What `a` acknowledges has been sent by `b`, and what `b` answers with lies in the window of `a`. */
  ghost predicate Attentive(t: System) {
    t.a.sock.rx.rcvNxt <= t.b.sock.tx.sndNxt <= t.a.sock.rx.rcvNxt + t.a.sock.rx.rcvWnd < 0x1_0000_0000
  }

  /** What the numbers of a run may reach. */
  ghost predicate InBounds(s: System, t: System, p: nat) {
    && InRange(t, p, First(s.b)) && Roomy(t.a)
    && p + |t.a.written| + s.b.sock.rx.rcvWnd < 0x1_0000_0000
    && First(s.b) + |t.b.written| + s.b.sock.cc.smss < 0x1_0000_0000
  }

  /** A peer that is in step and was offered no more than the receive window is always attentive, and so
      is one that has written nothing and is not ahead by more than that window. */
  lemma {:induction false} UsuallyAttentive(s: System, es: seq<Event>, p: u32, q: u32)
    requires Established(s, p, q) && First(s.a) == p && InitialWindow(s.a) && IsRun(s, es) && Stays(es, A) && Stays(es, B)
    requires InBounds(s, Run(s, es), p) && q + |Run(s, es).b.written| + s.a.sock.rx.rcvWnd < 0x1_0000_0000
    requires
      || (First(s.b) == q && s.b.sock.tx.sndWnd <= s.a.sock.rx.rcvWnd)
      || (Run(s, es).b.written == [] && First(s.b) <= q + s.a.sock.rx.rcvWnd)
    ensures Attentive(Run(s, es))
  {
    var n, t := First(s.b), Run(s, es);
    EstablishedInOrder(s, p, q);
    StartRegulated(s.a, p, q);
    RunKept(s, es, p, n);
    if t.b.written == [] && First(s.b) <= q + s.a.sock.rx.rcvWnd {
      assert Silent(s, q, n);
      RunSilent(s, es, p, q, n);
    } else {
      RunWithinOffer(s, es, p, n);
      SwapRun(s, es);
      SwapStays(es);
      RunInOrder(Swap(s), SwapAll(es), q, p);
      Between(Swap(t), q, p);
    }
  }

  /** From every state a run reaches in which the peer is attentive, with any part of the network lost,
      `Progress` can go on. */
  lemma {:induction false} RunGoing(s: System, es: seq<Event>, p: u32, q: u32, ab: set<Segment>, ba: set<Segment>)
    requires Established(s, p, q) && First(s.a) == p && InitialWindow(s.a) && IsRun(s, es) && Stays(es, A) && Stays(es, B)
    requires s.a.sock.cc.smss <= s.a.sock.tx.sndWnd
    requires InBounds(s, Run(s, es), p) && Attentive(Run(s, es))
    requires ab <= Run(s, es).ab && ba <= Run(s, es).ba
    ensures Going(Run(s, es).(ab := ab, ba := ba), p, First(s.b))
  {
    var n, t := First(s.b), Run(s, es);
    EstablishedCoupled(s, p, q);
    StartRegulated(s.a, p, q);
    RunKept(s, es, p, n);
    RunCoupled(s, es, p, n);
    var u: nat, acc: set<nat> :| Direction(t.a, t.b, t.ab, t.ba, p, u, acc);
    assert Direction(t.a, t.b, ab, ba, p, u, acc);
  }
}
