/** Every run of the congestion counters: sending, advancing ACKs, duplicate ACKs and timeouts
    in any order and number. */
module CongestionRun {
  import opened Words
  import opened Congestion

  /** The counters with the history the laws speak of: duplicate ACKs of the current episode
      (not reduced modulo 256), whether a timeout struck since recovery began, and the bytes
      sent and acknowledged so far. */
  datatype Track = Track(cc: Cc, dups: nat, timedOut: bool, sent: nat, acked: nat)

  datatype Event = Sent(n: nat) | Advance(segs: seq<u32>) | Dup | Rto

  function Inflight(t: Track): u32 {
    Sub32(t.sent, t.acked)
  }

  ghost predicate Enabled(t: Track, e: Event) {
    match e
    case Sent(n) => true
    case Advance(segs) =>
      && (forall i :: 0 <= i < |segs| ==> segs[i] <= t.cc.smss)
      && t.acked + Sum(segs) <= t.sent
    case Dup => t.acked < t.sent
    case Rto => t.acked <= t.sent
  }

  function Step(t: Track, e: Event): Track {
    match e
    case Sent(n) => t.(sent := t.sent + n)
    case Advance(segs) =>
      var t1 := t.(cc := NewAck(t.cc, segs), acked := t.acked + Sum(segs));
      if t.cc.inRecovery then t1.(dups := 0, timedOut := false) else t1
    case Dup => t.(cc := HandleDupack(t.cc, Inflight(t)), dups := t.dups + 1,
                   timedOut := if (t.dups + 1) % 256 == 3 then false else t.timedOut)
    case Rto => t.(cc := Timeout(t.cc, Inflight(t)), timedOut := true)
  }

  function Start(smss: u16): Track {
    Track(InitialCc(smss), 0, false, 0, 0)
  }

  ghost predicate Possible(t: Track, es: seq<Event>)
    decreases |es|
  {
    es != [] ==> Enabled(t, es[0]) && Possible(Step(t, es[0]), es[1..])
  }

  function Run(t: Track, es: seq<Event>): Track
    decreases |es|
  {
    if es == [] then t else Run(Step(t, es[0]), es[1..])
  }

  // ----- the invariant

  /** The 32-bit counters have room: the window can exceed the bytes sent by at most 259 SMSS. */
  ghost predicate Room(t: Track) {
    1 <= t.cc.smss <= 2144 && t.acked <= t.sent && t.sent + 259 * 2144 < 0x1_0000_0000
  }

  /** Recovery lasts from the third duplicate ACK of an episode until the next advancing ACK; the
      8-bit counter shows the count modulo 256. */
  ghost predicate Episode(t: Track) {
    && (t.cc.inRecovery <==> t.dups >= 3)
    && t.cc.dupacks == t.dups % 256
    && (t.cc.inRecovery ==> t.cc.bytesAcked == 0)
  }

  /** In recovery the window is inflated by one SMSS per duplicate ACK. */
  ghost predicate Inflated(t: Track) {
    && 2 * t.cc.smss <= t.cc.ssthresh
    && (t.cc.inRecovery ==>
          t.cc.cwnd <= t.cc.ssthresh + (if t.cc.dupacks >= 3 then Times(t.cc.dupacks, t.cc.smss) else Times(255, t.cc.smss)))
    && (t.cc.inRecovery && t.dups < 256 && !t.timedOut ==>
          t.cc.cwnd == t.cc.ssthresh + Times(t.cc.dupacks, t.cc.smss))
  }

  /** The window never falls below one SMSS and stays within the bytes sent plus a constant. */
  ghost predicate Bounded(t: Track) {
    && t.cc.smss <= t.cc.cwnd
    && t.cc.bytesAcked < t.cc.cwnd
    && (t.cc.cwnd < t.cc.ssthresh ==> t.cc.bytesAcked == 0)
    && (if t.cc.ssthresh == NO_LOSS
        then !t.cc.inRecovery && t.cc.bytesAcked == 0 && t.cc.cwnd <= INITIAL_WINDOW + t.acked
        else t.cc.ssthresh <= t.sent / 2 + 2 * t.cc.smss
             && 2 * t.cc.cwnd + t.cc.bytesAcked <= t.sent + t.acked + 514 * t.cc.smss)
  }

  ghost predicate Inv(t: Track) {
    Episode(t) && Inflated(t) && Bounded(t)
  }

  lemma {:induction false} StartInv(smss: u16)
    requires 1 <= smss <= 2144
    ensures Inv(Start(smss))
  {
  }

  lemma {:induction false} TimesMonotone(a: nat, b: nat, s: nat)
    requires a <= b
    ensures Times(a, s) <= Times(b, s)
    decreases b
  {
    if a < b {
      TimesMonotone(a, b - 1, s);
    }
  }

  lemma {:induction false} Times255(s: nat)
    ensures Times(255, s) == 255 * s
  {
    CostClosedForm(0, s, 255);
  }

  lemma {:induction false} Times3(s: nat)
    ensures Times(3, s) == 3 * s
  {
    assert Times(1, s) == s + Times(0, s);
    assert Times(2, s) == s + Times(1, s);
    assert Times(3, s) == s + Times(2, s);
  }

  /** One acknowledged segment outside recovery. */
  lemma {:induction false} AckStep(t: Track, a: u32)
    requires Room(t) && Bounded(t) && !t.cc.inRecovery
    requires a <= t.cc.smss && t.acked + a <= t.sent
    ensures var t' := t.(cc := CongAvoid(t.cc, a), acked := t.acked + a);
      && Room(t') && Bounded(t')
      && t'.cc == t.cc.(cwnd := t'.cc.cwnd, bytesAcked := t'.cc.bytesAcked)
  {
    CongAvoidStep(t.cc, a);
  }

  lemma {:induction false} AckAllSteps(t: Track, segs: seq<u32>)
    requires Room(t) && Bounded(t) && !t.cc.inRecovery
    requires forall i :: 0 <= i < |segs| ==> segs[i] <= t.cc.smss
    requires t.acked + Sum(segs) <= t.sent
    ensures var t' := t.(cc := AckAll(t.cc, segs), acked := t.acked + Sum(segs));
      && Room(t') && Bounded(t')
      && t'.cc == t.cc.(cwnd := t'.cc.cwnd, bytesAcked := t'.cc.bytesAcked)
    decreases |segs|
  {
    if segs != [] {
      AckStep(t, segs[0]);
      AckAllSteps(t.(cc := CongAvoid(t.cc, segs[0]), acked := t.acked + segs[0]), segs[1..]);
    }
  }

  lemma {:induction false} RecoveryIgnoresAcks(c: Cc, segs: seq<u32>)
    requires c.inRecovery
    ensures AckAll(c, segs) == c
    decreases |segs|
  {
    if segs != [] {
      RecoveryIgnoresAcks(c, segs[1..]);
    }
  }

  lemma {:induction false} AdvanceKeeps(t: Track, segs: seq<u32>)
    requires Room(t) && Inv(t) && Enabled(t, Advance(segs))
    ensures Inv(Step(t, Advance(segs)))
    ensures t.cc.inRecovery ==> Step(t, Advance(segs)).cc.cwnd == t.cc.ssthresh
  {
    if t.cc.inRecovery {
      RecoveryIgnoresAcks(t.cc, segs);
    } else {
      AckAllSteps(t, segs);
    }
  }

  lemma {:induction false} DupEpisode(t: Track)
    requires Episode(t)
    ensures Episode(Step(t, Dup))
    ensures Step(t, Dup).cc.dupacks == (t.dups + 1) % 256
  {
    assert (t.dups % 256 + 1) % 256 == (t.dups + 1) % 256;
  }

  lemma {:induction false} EnterFields(c: Cc, flight: u32)
    requires 2 * flight + 20 * c.smss < 0x2_0000_0000
    ensures var c' := EnterRecovery(c.(dupacks := 3), flight);
      && 2 * c.smss <= c'.ssthresh <= flight / 2 + 2 * c.smss
      && c' == c.(dupacks := 3, ssthresh := c'.ssthresh, cwnd := c'.ssthresh + 3 * c.smss, bytesAcked := 0, inRecovery := true)
  {
    Add32Small(Threshold(c, flight), 3 * c.smss);
  }

  /** The duplicate ACK that enters (or, after 256 of them, re-enters) recovery. */
  lemma {:induction false} DupEnters(t: Track)
    requires Room(t) && Inv(t) && Enabled(t, Dup) && (t.dups + 1) % 256 == 3
    ensures Inv(Step(t, Dup))
  {
    var t' := Step(t, Dup);
    assert Episode(t') && t'.cc.dupacks == 3 by {
      DupEpisode(t);
    }
    ThirdEnters(t.cc, Inflight(t));
    InflightIs(t);
    EnteredBounded(t, t'.dups);
  }

  lemma {:induction false} ThirdEnters(c: Cc, flight: u32)
    requires HandleDupack(c, flight).dupacks == 3
    ensures HandleDupack(c, flight) == EnterRecovery(c.(dupacks := 3), flight)
  {
  }

  lemma {:induction false} InflightIs(t: Track)
    requires 0 <= t.sent - t.acked < 0x1_0000_0000
    ensures Inflight(t) == t.sent - t.acked
  {
  }

  /** What holds of the counters right after recovery was entered. */
  lemma {:induction false} EnteredBounded(t: Track, dups: nat)
    requires Room(t) && Bounded(t)
    ensures var t' := t.(cc := EnterRecovery(t.cc.(dupacks := 3), t.sent - t.acked), dups := dups, timedOut := false);
      Inflated(t') && Bounded(t')
  {
    EnterFields(t.cc, t.sent - t.acked);
    Times3(t.cc.smss);
  }

  lemma {:induction false} OneMore(d: nat, s: nat)
    requires d < 255
    ensures Times(d + 1, s) == s + Times(d, s) <= 255 * s
  {
    TimesMonotone(d + 1, 255, s);
    Times255(s);
  }

  /** A later duplicate ACK inflates the window by one SMSS. */
  lemma {:induction false} DupInflates(t: Track)
    requires Room(t) && Inv(t) && Enabled(t, Dup) && (t.dups + 1) % 256 > 3
    ensures Inv(Step(t, Dup))
  {
    var t' := Step(t, Dup);
    assert Episode(t') && t'.cc.dupacks > 3 by {
      DupEpisode(t);
    }
    LaterInflates(t.cc, Inflight(t));
    InflatedBounded(t, t'.dups);
  }

  lemma {:induction false} LaterInflates(c: Cc, flight: u32)
    requires HandleDupack(c, flight).dupacks > 3
    ensures 3 <= c.dupacks < 255 && HandleDupack(c, flight) == c.(dupacks := c.dupacks + 1, cwnd := Add32(c.cwnd, c.smss))
  {
  }

  lemma {:induction false} InflatedBounded(t: Track, dups: nat)
    requires Room(t) && Inflated(t) && Bounded(t) && t.cc.inRecovery && t.cc.bytesAcked == 0
    requires 3 <= t.cc.dupacks < 255 && t.dups < dups
    ensures var t' := t.(cc := t.cc.(dupacks := t.cc.dupacks + 1, cwnd := Add32(t.cc.cwnd, t.cc.smss)), dups := dups);
      Inflated(t') && Bounded(t')
  {
    var s: nat := t.cc.smss;
    OneMore(t.cc.dupacks, s);
    assert t.cc.cwnd + s <= t.cc.ssthresh + 255 * s;
    Add32Small(t.cc.cwnd, s);
  }

  lemma {:induction false} DupKeeps(t: Track)
    requires Room(t) && Inv(t) && Enabled(t, Dup)
    ensures Inv(Step(t, Dup))
  {
    if (t.dups + 1) % 256 == 3 {
      DupEnters(t);
    } else if (t.dups + 1) % 256 > 3 {
      DupInflates(t);
    } else {
      DupEpisode(t);
      TimesMonotone(t.cc.dupacks, 255, t.cc.smss);
    }
  }

  lemma {:induction false} RtoKeeps(t: Track)
    requires Room(t) && Inv(t) && Enabled(t, Rto)
    ensures Inv(Step(t, Rto))
  {
  }

  lemma {:induction false} StepKeeps(t: Track, e: Event)
    requires Room(t) && Room(Step(t, e)) && Inv(t) && Enabled(t, e)
    ensures Inv(Step(t, e))
  {
    match e
    case Sent(n) =>
    case Advance(segs) => AdvanceKeeps(t, segs);
    case Dup => DupKeeps(t);
    case Rto => RtoKeeps(t);
  }

  lemma {:induction false} SentGrows(t: Track, es: seq<Event>)
    requires Possible(t, es) && t.acked <= t.sent
    ensures t.sent <= Run(t, es).sent
    ensures Run(t, es).acked <= Run(t, es).sent && Run(t, es).cc.smss == t.cc.smss
    decreases |es|
  {
    if es != [] {
      assert t.sent <= Step(t, es[0]).sent;
      SmssFixed(t, es[0]);
      SentGrows(Step(t, es[0]), es[1..]);
    }
  }

  lemma {:induction false} SmssFixed(t: Track, e: Event)
    ensures Step(t, e).cc.smss == t.cc.smss
  {
    if e.Advance? {
      AckAllSmss(t.cc, e.segs);
    }
  }

  lemma {:induction false} RunKeeps(t: Track, es: seq<Event>)
    requires Possible(t, es) && Room(t) && Room(Run(t, es)) && Inv(t)
    ensures Inv(Run(t, es))
    decreases |es|
  {
    if es != [] {
      var t1 := Step(t, es[0]);
      SmssFixed(t, es[0]);
      SentGrows(t1, es[1..]);
      StepKeeps(t, es[0]);
      RunKeeps(t1, es[1..]);
    }
  }

  // ----- what the 8-bit counter shows

  lemma {:induction false} AckAllKeepsEpisode(c: Cc, segs: seq<u32>)
    ensures var c' := AckAll(c, segs);
      c'.inRecovery == c.inRecovery && c'.dupacks == c.dupacks && (c.inRecovery ==> c' == c)
    decreases |segs|
  {
    if segs != [] {
      AckAllKeepsEpisode(CongAvoid(c, segs[0]), segs[1..]);
    }
  }

  lemma {:induction false} StepEpisode(t: Track, e: Event)
    requires Episode(t)
    ensures Episode(Step(t, e))
  {
    match e
    case Advance(segs) => AckAllKeepsEpisode(t.cc, segs);
    case Dup => DupEpisode(t);
    case _ =>
  }

  lemma {:induction false} RunEpisode(t: Track, es: seq<Event>)
    requires Episode(t)
    ensures Episode(Run(t, es))
    decreases |es|
  {
    if es != [] {
      StepEpisode(t, es[0]);
      RunEpisode(Step(t, es[0]), es[1..]);
    }
  }

  /** After every run, for every SMSS: `dupacks` at three or more is the same as being in recovery
      exactly when fewer than three duplicate ACKs have come in this episode or their number modulo
      256 is at least three. The 256th, 257th and 258th hide recovery, the 512th to 514th again. */
  lemma {:induction false} DupackCounterShowsRecoveryIff(smss: u16, es: seq<Event>)
    ensures var t := Run(Start(smss), es);
      (t.cc.inRecovery <==> t.cc.dupacks >= 3) <==> (t.dups < 3 || t.dups % 256 >= 3)
  {
    RunEpisode(Start(smss), es);
  }

  function Dups(n: nat): (es: seq<Event>)
    ensures |es| == n
  {
    if n == 0 then [] else [Dup] + Dups(n - 1)
  }

  lemma {:induction false} DupsPossible(t: Track, n: nat)
    requires t.acked < t.sent
    ensures Possible(t, Dups(n)) && Run(t, Dups(n)).dups == t.dups + n
    decreases n
  {
    if n > 0 {
      DupsPossible(Step(t, Dup), n - 1);
      assert Dups(n)[1..] == Dups(n - 1);
    }
  }

  /** Any number of duplicate ACKs can come in one episode, so the gap is reached. */
  lemma {:induction false} HiddenRecoveryIsReached(smss: u16, n: nat)
    requires n >= 3 && n % 256 < 3
    ensures var es := [Sent(1)] + Dups(n);
      && Possible(Start(smss), es)
      && var t := Run(Start(smss), es); t.dups == n && t.cc.inRecovery && t.cc.dupacks < 3
  {
    var es, t1 := [Sent(1)] + Dups(n), Step(Start(smss), Sent(1));
    assert es[1..] == Dups(n);
    DupsPossible(t1, n);
    RunEpisode(Start(smss), es);
  }

  /** The duplicate ACK after the gap, the 259th of an episode, enters recovery a second time: the
      threshold and the window are computed afresh. */
  lemma {:induction false} RecoveryIsReentered(t: Track)
    requires Episode(t) && t.dups >= 3 && t.dups % 256 == 2
    ensures var c := Step(t, Dup).cc;
      && t.cc.inRecovery && c.inRecovery
      && c.ssthresh == Threshold(t.cc, Inflight(t)) && c.cwnd == Add32(c.ssthresh, 3 * t.cc.smss)
  {
    DupEpisode(t);
  }

  /** In every run: recovery holds exactly from the third duplicate ACK on, `ssthresh` stays at
      least two SMSS, the window inflates by one SMSS per duplicate ACK while no timeout
      intervenes, and it never falls below one SMSS. */
  lemma {:induction false} CongestionTheorem(smss: u16, es: seq<Event>)
    requires 1 <= smss <= 2144 && Possible(Start(smss), es)
    requires Run(Start(smss), es).sent + 259 * 2144 < 0x1_0000_0000
    ensures var t := Run(Start(smss), es);
      && (t.cc.inRecovery <==> t.dups >= 3)
      && (t.dups < 256 ==> (t.cc.inRecovery <==> t.cc.dupacks >= 3))
      && 2 * smss <= t.cc.ssthresh
      && smss <= t.cc.cwnd
      && (t.cc.inRecovery && t.dups < 256 && !t.timedOut ==> t.cc.cwnd == t.cc.ssthresh + t.cc.dupacks * smss)
  {
    var t := Run(Start(smss), es);
    SentGrows(Start(smss), es);
    RunKeeps(Start(smss), es);
    CostClosedForm(0, smss, t.cc.dupacks);
  }

  // ----- exactly when the window stays at one SMSS or more

  /** What one acknowledged segment adds to the window. */
  function Raise(c: Cc, a: u32): nat {
    if a == 0 || c.inRecovery then 0
    else if c.cwnd < c.ssthresh then Min(a, c.smss)
    else if Add32(c.bytesAcked, a) >= c.cwnd then c.smss
    else 0
  }

  /** One acknowledged segment leaves the window at one SMSS or more exactly when the sum fits. */
  lemma {:induction false} SegmentAboveIff(c: Cc, a: u32)
    requires c.smss <= c.cwnd
    ensures CongAvoid(c, a).cwnd >= c.smss <==> c.cwnd + Raise(c, a) < 0x1_0000_0000
    ensures CongAvoid(c, a).smss == c.smss && CongAvoid(c, a).ssthresh == c.ssthresh
  {
  }

  /** A later duplicate ACK inflates by one SMSS; no other one can wrap. */
  lemma {:induction false} DupAboveIff(c: Cc, inflight: u32)
    requires c.smss <= c.cwnd
    ensures HandleDupack(c, inflight).cwnd >= c.smss <==>
      ((c.dupacks + 1) % 256 > 3 ==> c.cwnd + c.smss < 0x1_0000_0000)
  {
    Add32Small(Threshold(c, inflight), 3 * c.smss);
  }

  /** The window is at least one SMSS after each of the acknowledged segments. */
  predicate StaysAbove(c: Cc, segs: seq<u32>)
    decreases |segs|
  {
    segs == [] || (CongAvoid(c, segs[0]).cwnd >= c.smss && StaysAbove(CongAvoid(c, segs[0]), segs[1..]))
  }

  /** None of the acknowledged segments carries the window past 32 bits. */
  predicate NeverWraps(c: Cc, segs: seq<u32>)
    decreases |segs|
  {
    segs == [] || (c.cwnd + Raise(c, segs[0]) < 0x1_0000_0000 && NeverWraps(CongAvoid(c, segs[0]), segs[1..]))
  }

  lemma {:induction false} StaysAboveIff(c: Cc, segs: seq<u32>)
    requires c.smss <= c.cwnd
    ensures StaysAbove(c, segs) <==> NeverWraps(c, segs)
    ensures AckAll(c, segs).smss == c.smss && AckAll(c, segs).ssthresh == c.ssthresh
    ensures StaysAbove(c, segs) ==> c.smss <= AckAll(c, segs).cwnd
    decreases |segs|
  {
    if segs != [] {
      SegmentAboveIff(c, segs[0]);
      if CongAvoid(c, segs[0]).cwnd >= c.smss {
        StaysAboveIff(CongAvoid(c, segs[0]), segs[1..]);
      } else {
        AckAllLimits(c, segs);
      }
    }
  }

  lemma {:induction false} AckAllLimits(c: Cc, segs: seq<u32>)
    ensures AckAll(c, segs).smss == c.smss && AckAll(c, segs).ssthresh == c.ssthresh
    decreases |segs|
  {
    if segs != [] {
      AckAllLimits(CongAvoid(c, segs[0]), segs[1..]);
    }
  }

  /** The window is at least one SMSS at every moment of the run. */
  predicate RunAbove(t: Track, es: seq<Event>)
    decreases |es|
  {
    es == [] ||
    (&& (if es[0].Advance? then StaysAbove(t.cc, es[0].segs) else Step(t, es[0]).cc.cwnd >= t.cc.smss)
     && RunAbove(Step(t, es[0]), es[1..]))
  }

  /** No addition to the window in the run exceeds 32 bits. */
  predicate RunFits(t: Track, es: seq<Event>)
    decreases |es|
  {
    es == [] ||
    (&& (match es[0]
         case Advance(segs) => NeverWraps(t.cc, segs)
         case Dup => (t.cc.dupacks + 1) % 256 > 3 ==> t.cc.cwnd + t.cc.smss < 0x1_0000_0000
         case _ => true)
     && RunFits(Step(t, es[0]), es[1..]))
  }

  /** For every SMSS and every run: the window never falls below one SMSS exactly when no addition to
      it exceeds 32 bits. */
  lemma {:induction false} RunAboveIff(t: Track, es: seq<Event>)
    requires t.cc.smss <= t.cc.cwnd && t.cc.smss <= t.cc.ssthresh
    ensures RunAbove(t, es) <==> RunFits(t, es)
    decreases |es|
  {
    if es != [] {
      match es[0] {
        case Advance(segs) => StaysAboveIff(t.cc, segs);
        case Dup => DupAboveIff(t.cc, Inflight(t));
        case _ =>
      }
      SmssFixed(t, es[0]);
      var t' := Step(t, es[0]);
      if t'.cc.smss <= t'.cc.cwnd && t'.cc.smss <= t'.cc.ssthresh {
        RunAboveIff(t', es[1..]);
      }
    }
  }

  // ----- the same for full segments without loss, in closed form

  function Full(n: nat, smss: u32): (segs: seq<u32>)
    ensures |segs| == n && forall i :: 0 <= i < n ==> segs[i] == smss
  {
    if n == 0 then [] else [smss] + Full(n - 1, smss)
  }

  lemma {:induction false} FullFront(n: nat, smss: u32)
    requires n > 0
    ensures Full(n, smss)[0] == smss && Full(n, smss)[1..] == Full(n - 1, smss)
  {
  }

  /** Slow start adds one SMSS per full segment, up to the threshold. */
  lemma {:induction false} SlowStartLaw(c: Cc, n: nat)
    requires !c.inRecovery && c.smss > 0 && c.cwnd + Times(n, c.smss) <= c.ssthresh
    ensures AckAll(c, Full(n, c.smss)) == c.(cwnd := c.cwnd + Times(n, c.smss))
    decreases n
  {
    if n > 0 {
      FullFront(n, c.smss);
      SlowStartLaw(CongAvoid(c, c.smss), n - 1);
    }
  }

  /** After `k` full segments the window is exactly 2^32 - 1. */
  predicate Lands(w: nat, s: nat, k: nat) {
    w + Times(k, s) == NO_LOSS
  }

  lemma {:induction false} LandsLater(w: nat, s: nat, k: nat)
    ensures Lands(w, s, k + 1) <==> Lands(w + s, s, k)
  {
  }

  /** The sender has seen no loss and its window steps over 2^32 - 1. */
  lemma {:induction false} StepsOver(c: Cc, n: nat)
    requires !c.inRecovery && c.ssthresh == NO_LOSS && 0 < c.smss <= c.cwnd
    requires forall k: nat :: !Lands(c.cwnd, c.smss, k)
    ensures StaysAbove(c, Full(n, c.smss)) <==> c.cwnd + Times(n, c.smss) < 0x1_0000_0000
    decreases n
  {
    assert !Lands(c.cwnd, c.smss, 0);
    if n > 0 {
      FullFront(n, c.smss);
      SegmentAboveIff(c, c.smss);
      if c.cwnd + c.smss < 0x1_0000_0000 {
        var w := c.cwnd + c.smss;
        forall k: nat
          ensures !Lands(w, c.smss, k)
        {
          LandsLater(c.cwnd, c.smss, k);
        }
        StepsOver(CongAvoid(c, c.smss), n - 1);
      }
    }
  }

  /** The counter runs into 2^32 - 1 within `j` more full segments. */
  predicate Strikes(b: nat, s: nat, j: nat) {
    exists i :: 1 <= i <= j && StrikesAt(b, s, i)
  }

  predicate StrikesAt(b: nat, s: nat, i: nat) {
    (b + Times(i, s)) % 0x1_0000_0000 == NO_LOSS
  }

  lemma {:induction false} StrikeShifts(b: nat, s: nat, i: nat)
    ensures ((b + s) % 0x1_0000_0000 + Times(i, s)) % 0x1_0000_0000 == (b + Times(i + 1, s)) % 0x1_0000_0000
  {
    Add32Reduces(b + s, Times(i, s));
    assert Add32((b + s) % 0x1_0000_0000, Times(i, s)) == Add32(b + s, Times(i, s));
  }

  lemma {:induction false} StrikesStep(b: nat, s: nat, j: nat)
    requires j > 0
    ensures Strikes(b, s, j) <==> (b + s) % 0x1_0000_0000 == NO_LOSS || Strikes((b + s) % 0x1_0000_0000, s, j - 1)
  {
    var b' := (b + s) % 0x1_0000_0000;
    assert Times(1, s) == s + Times(0, s);
    if i :| 1 <= i <= j && StrikesAt(b, s, i) {
      if i > 1 {
        StrikeShifts(b, s, i - 1);
        assert StrikesAt(b', s, i - 1);
      }
    }
    if b' == NO_LOSS {
      assert StrikesAt(b, s, 1);
    }
    if i :| 1 <= i <= j - 1 && StrikesAt(b', s, i) {
      StrikeShifts(b, s, i);
      assert StrikesAt(b, s, i + 1);
    }
  }

  /** A window of exactly 2^32 - 1 is at the threshold; it grows, and wraps, when the 32-bit counter
      hits 2^32 - 1. */
  lemma {:induction false} AtTheTop(c: Cc, n: nat)
    requires !c.inRecovery && c.ssthresh == NO_LOSS == c.cwnd && 0 < c.smss
    ensures StaysAbove(c, Full(n, c.smss)) <==> !Strikes(c.bytesAcked, c.smss, n)
    decreases n
  {
    if n > 0 {
      FullFront(n, c.smss);
      StrikesStep(c.bytesAcked, c.smss, n);
      SegmentAboveIff(c, c.smss);
      if Add32(c.bytesAcked, c.smss) != NO_LOSS {
        AtTheTop(CongAvoid(c, c.smss), n - 1);
      }
    }
  }

  lemma {:induction false} LandsOnTop(c: Cc, n: nat, k: nat)
    requires !c.inRecovery && c.ssthresh == NO_LOSS && 0 < c.smss <= c.cwnd && Lands(c.cwnd, c.smss, k)
    ensures StaysAbove(c, Full(n, c.smss)) <==> n <= k || !Strikes(c.bytesAcked, c.smss, n - k)
    decreases k
  {
    if k == 0 {
      AtTheTop(c, n);
    } else if n > 0 {
      LandsLater(c.cwnd, c.smss, k - 1);
      FullFront(n, c.smss);
      SegmentAboveIff(c, c.smss);
      LandsOnTop(CongAvoid(c, c.smss), n - 1, k - 1);
    }
  }

  /** A sender that loses nothing, for every SMSS of at most 2144 bytes and every number of full
      segments: its window stays at one SMSS or more exactly while 2144 + n*SMSS is below 2^32; or,
      for an SMSS with which the window lands exactly on 2^32 - 1, exactly until the byte counter
      does. */
  lemma {:induction false} FullSegmentsIff(smss: u16, n: nat)
    requires 1 <= smss <= INITIAL_WINDOW
    ensures (forall k: nat :: !Lands(INITIAL_WINDOW, smss, k)) ==>
      (StaysAbove(InitialCc(smss), Full(n, smss)) <==> INITIAL_WINDOW + n * smss < 0x1_0000_0000)
    ensures forall k: nat :: Lands(INITIAL_WINDOW, smss, k) ==>
      (StaysAbove(InitialCc(smss), Full(n, smss)) <==> n <= k || !Strikes(0, smss, n - k))
  {
    CostClosedForm(0, smss, n);
    if forall k: nat :: !Lands(INITIAL_WINDOW, smss, k) {
      StepsOver(InitialCc(smss), n);
    }
    forall k: nat | Lands(INITIAL_WINDOW, smss, k)
      ensures StaysAbove(InitialCc(smss), Full(n, smss)) <==> n <= k || !Strikes(0, smss, n - k)
    {
      LandsOnTop(InitialCc(smss), n, k);
    }
  }

  /** With segments of 536 bytes the window survives 8012994 of them, just under 4 GiB, and wraps with
      the next. */
  lemma {:induction false} WindowWrapsBelowSmss()
    ensures StaysAbove(InitialCc(536), Full(8012994, 536))
    ensures !StaysAbove(InitialCc(536), Full(8012995, 536))
  {
    forall k: nat
      ensures !Lands(INITIAL_WINDOW, 536, k)
    {
      CostClosedForm(0, 536, k);
    }
    FullSegmentsIff(536, 8012994);
    FullSegmentsIff(536, 8012995);
  }
}
