/** Congestion control of src/tcp_input.c and src/tcp_output.c (RFC 5681, sections 3.1 and 3.2):
    the counters, the four transitions, and what holds of them over every run. */
module Congestion {
  import opened Words

  datatype Cc = Cc(
    smss: u16,
    cwnd: u32,
    ssthresh: u32,
    bytesAcked: u32,
    dupacks: u8,
    inRecovery: bool)

  /** `tcp_alloc_sock`: the initial window is four times the default SMSS of 536, whatever SMSS
      the connection ends up with. */
  const INITIAL_WINDOW: u32 := 2144
  const NO_LOSS: u32 := 0xFFFF_FFFF

  function InitialCc(smss: u16): Cc {
    Cc(smss, INITIAL_WINDOW, NO_LOSS, 0, 0, false)
  }

  // ----- the transitions

  function CongAvoid(c: Cc, acked: u32): Cc {
    if acked == 0 || c.inRecovery then c
    else if c.cwnd < c.ssthresh then c.(cwnd := Add32(c.cwnd, Min(acked, c.smss)))
    else
      var b := Add32(c.bytesAcked, acked);
      if b >= c.cwnd then c.(bytesAcked := b - c.cwnd, cwnd := Add32(c.cwnd, c.smss))
      else c.(bytesAcked := b)
  }

  /** One `tcp_cong_avoid` per segment that leaves the retransmission queue, in queue order. */
  function AckAll(c: Cc, segs: seq<u32>): Cc
    decreases |segs|
  {
    if segs == [] then c else AckAll(CongAvoid(c, segs[0]), segs[1..])
  }

  function Threshold(c: Cc, inflight: u32): u32 {
    Max(inflight / 2, 2 * c.smss)
  }

  function EnterRecovery(c: Cc, inflight: u32): Cc {
    var t := Threshold(c, inflight);
    c.(ssthresh := t, cwnd := Add32(t, 3 * c.smss), bytesAcked := 0, inRecovery := true)
  }

  function ExitRecovery(c: Cc): Cc {
    c.(cwnd := c.ssthresh, inRecovery := false, dupacks := 0, bytesAcked := 0)
  }

  function HandleDupack(c: Cc, inflight: u32): Cc {
    var c1 := c.(dupacks := (c.dupacks + 1) % 256);
    if c1.dupacks < 3 then c1
    else if c1.dupacks == 3 then EnterRecovery(c1, inflight)
    else c1.(cwnd := Add32(c1.cwnd, c1.smss))
  }

  /** The ACK path: grow for every segment acknowledged, then leave recovery if in it. */
  function NewAck(c: Cc, segs: seq<u32>): Cc {
    var c1 := AckAll(c, segs);
    if c1.inRecovery then ExitRecovery(c1) else c1
  }

  function Timeout(c: Cc, inflight: u32): Cc {
    c.(ssthresh := Threshold(c, inflight), cwnd := c.smss, bytesAcked := 0)
  }

  function Sum(segs: seq<u32>): nat {
    if segs == [] then 0 else segs[0] + Sum(segs[1..])
  }

  lemma {:induction false} AckAllSmss(c: Cc, segs: seq<u32>)
    ensures AckAll(c, segs).smss == c.smss
    decreases |segs|
  {
    if segs != [] {
      AckAllSmss(CongAvoid(c, segs[0]), segs[1..]);
    }
  }

  // ----- growth

  /** One acknowledged segment, as long as the 32-bit counters do not wrap. */
  lemma {:induction false} CongAvoidStep(c: Cc, a: u32)
    requires c.bytesAcked + a < 0x1_0000_0000
    requires c.cwnd + c.smss < 0x1_0000_0000 || (c.smss <= c.cwnd && c.cwnd + c.bytesAcked + a < 0x1_0000_0000)
    ensures var c1 := CongAvoid(c, a);
      && c1 == c.(cwnd := c1.cwnd, bytesAcked := c1.bytesAcked)
      && (c.inRecovery ==> c1 == c)
      && (!c.inRecovery && c.cwnd < c.ssthresh ==>
            c1.cwnd == c.cwnd + Min(a, c.smss) && c1.bytesAcked == c.bytesAcked)
      && (!c.inRecovery && c.ssthresh <= c.cwnd ==>
            || (c1.cwnd == c.cwnd && c1.bytesAcked == c.bytesAcked + a && (a > 0 ==> c.bytesAcked + a < c.cwnd))
            || (c1.cwnd == c.cwnd + c.smss && c1.bytesAcked == c.bytesAcked + a - c.cwnd && a > 0))
  {
    Add32Small(c.bytesAcked, a);
    if c.cwnd + c.smss < 0x1_0000_0000 {
      Add32Small(c.cwnd, c.smss);
      Add32Small(c.cwnd, Min(a, c.smss));
    } else {
      WrapsNot(c, a);
    }
  }

  /** Where there is no room for another SMSS, the counter cannot have filled the window. */
  lemma {:induction false} WrapsNot(c: Cc, a: u32)
    requires c.smss <= c.cwnd && c.cwnd + c.bytesAcked + a < 0x1_0000_0000 <= c.cwnd + c.smss
    ensures c.bytesAcked + a < c.cwnd && Add32(c.cwnd, Min(a, c.smss)) == c.cwnd + a == c.cwnd + Min(a, c.smss)
  {
    Add32Small(c.cwnd, a);
  }

  /** Acknowledging A bytes raises window plus counter by at most A, in slow start and in
      congestion avoidance alike. */
  lemma {:induction false} GrowthBounded(c: Cc, segs: seq<u32>)
    requires c.smss <= c.cwnd && c.cwnd + c.bytesAcked + Sum(segs) < 0x1_0000_0000
    ensures var c' := AckAll(c, segs);
      && c'.cwnd + c'.bytesAcked <= c.cwnd + c.bytesAcked + Sum(segs)
      && c.cwnd <= c'.cwnd
      && c' == c.(cwnd := c'.cwnd, bytesAcked := c'.bytesAcked)
    decreases |segs|
  {
    if segs != [] {
      CongAvoidStep(c, segs[0]);
      GrowthBounded(CongAvoid(c, segs[0]), segs[1..]);
    }
  }

  /** How often congestion avoidance raises the window while `segs` are acknowledged. */
  function Increments(c: Cc, segs: seq<u32>): nat
    decreases |segs|
  {
    if segs == [] then 0
    else
      var c1 := CongAvoid(c, segs[0]);
      (if c1.cwnd == c.cwnd then 0 else 1) + Increments(c1, segs[1..])
  }

  /** The bytes that k increments cost: one full window each, the window growing by `s`. */
  function Cost(w: nat, s: nat, k: nat): nat
    decreases k
  {
    if k == 0 then 0 else w + Cost(w + s, s, k - 1)
  }

  /** The exact law of congestion avoidance: every increment of one SMSS costs a full window of
      acknowledged bytes, and the counter keeps the remainder. */
  lemma {:induction false} AvoidanceLaw(c: Cc, segs: seq<u32>)
    requires !c.inRecovery && c.ssthresh <= c.cwnd && 0 < c.smss <= c.cwnd
    requires c.cwnd + c.bytesAcked + Sum(segs) < 0x1_0000_0000
    ensures var k, c' := Increments(c, segs), AckAll(c, segs);
      && c'.cwnd == c.cwnd + Times(k, c.smss)
      && c.bytesAcked + Sum(segs) == Cost(c.cwnd, c.smss, k) + c'.bytesAcked
    decreases |segs|
  {
    if segs != [] {
      CongAvoidStep(c, segs[0]);
      AvoidanceLaw(CongAvoid(c, segs[0]), segs[1..]);
    }
  }

  /** `k` steps of `s`, by repeated addition. */
  function Times(k: nat, s: nat): nat {
    if k == 0 then 0 else s + Times(k - 1, s)
  }

  /** The closed form of the law: k*cwnd + SMSS*k*(k-1)/2 bytes for k increments. */
  lemma {:induction false} CostClosedForm(w: nat, s: nat, k: nat)
    ensures Times(k, s) == k * s
    ensures 2 * Cost(w, s, k) == 2 * k * w + s * k * (k - 1)
    decreases k
  {
    if k > 0 {
      CostClosedForm(w + s, s, k - 1);
      QuadraticStep(w, s, k - 1);
    }
  }

  lemma {:induction false} QuadraticStep(w: int, s: int, j: int)
    ensures 2 * w + (2 * j * (w + s) + s * j * (j - 1)) == 2 * (j + 1) * w + s * (j + 1) * j
    ensures s + j * s == (j + 1) * s
  {
    assert j * (w + s) == j * w + j * s;
    assert s * j * (j - 1) == s * j * j - s * j;
    assert s * (j + 1) * j == s * j * j + s * j;
  }

  /** With segments of at most one SMSS the counter never reaches the window, so the law fixes
      both: the number of increments is as large as the acknowledged bytes allow. */
  lemma {:induction false} CounterBelowWindow(c: Cc, segs: seq<u32>)
    requires c.bytesAcked < c.cwnd && c.smss <= c.cwnd
    requires c.cwnd + c.bytesAcked + Sum(segs) < 0x1_0000_0000
    requires forall i :: 0 <= i < |segs| ==> segs[i] <= c.smss
    ensures AckAll(c, segs).bytesAcked < AckAll(c, segs).cwnd
    decreases |segs|
  {
    if segs != [] {
      CongAvoidStep(c, segs[0]);
      CounterBelowWindow(CongAvoid(c, segs[0]), segs[1..]);
    }
  }
}
