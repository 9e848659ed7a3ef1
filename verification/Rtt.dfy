/** Round-trip estimation and retransmission back-off (src/tcp.c `tcp_rtt`, src/tcp_output.c
    `tcp_retransmission_timeout`; sections 2 and 5 of RFC 6298). */
module Rtt {
  import opened Words

  datatype Estimate = Estimate(srtt: int, rttvar: int, rto: int)

  function Abs(x: int): nat {
    if x < 0 then -x else x
  }

  /** One measurement. The C code computes (1-beta)*rttvar + beta*|srtt-r| with beta = 1/4 and
      (1-alpha)*srtt + alpha*r with alpha = 1/8 in doubles and truncates on assignment; all
      intermediate values are non-negative multiples of 1/8, so this is integer division. */
  function Measure(e: Estimate, r: nat): Estimate {
    var e1 :=
      if e.srtt == 0 then e.(srtt := r, rttvar := r / 2)
      else e.(rttvar := (3 * e.rttvar + Abs(e.srtt - r)) / 4, srtt := (7 * e.srtt + r) / 8);
    e1.(rto := e1.srtt + Max(4 * e1.rttvar, 200))
  }

  function MeasureAll(e: Estimate, rs: seq<nat>): Estimate
    decreases |rs|
  {
    if rs == [] then e else MeasureAll(Measure(e, rs[0]), rs[1..])
  }

  ghost predicate Within(e: Estimate, lo: nat, hi: nat) {
    && lo <= e.srtt <= hi
    && 0 <= e.rttvar <= Max(hi / 2, hi - lo)
    && lo + 200 <= e.rto <= hi + Max(200, 4 * Max(hi / 2, hi - lo))
  }

  lemma {:induction false} MeasureWithin(e: Estimate, r: nat, lo: nat, hi: nat)
    requires lo <= r <= hi && (e.srtt == 0 || Within(e, lo, hi))
    ensures Within(Measure(e, r), lo, hi)
  {
  }

  /** After any non-empty run of samples between `lo` and `hi`, from any state that has not
      measured yet, the estimate and the timeout stay within bounds fixed by `lo` and `hi`. */
  lemma {:induction false} EstimateBounds(e: Estimate, rs: seq<nat>, lo: nat, hi: nat)
    requires rs != [] && forall i :: 0 <= i < |rs| ==> lo <= rs[i] <= hi
    requires e.srtt == 0 || Within(e, lo, hi)
    ensures Within(MeasureAll(e, rs), lo, hi)
    decreases |rs|
  {
    MeasureWithin(e, rs[0], lo, hi);
    if |rs| > 1 {
      EstimateBounds(Measure(e, rs[0]), rs[1..], lo, hi);
    }
  }

  // ----- back-off

  /** The RTO above which a timeout gives up. */
  const MAX_RTO: nat := 60000

  /** The timeout value after `n` timeouts in a row without an acknowledgement, or `None` once the
      connection has been given up. */
  function Backoff(rto: nat, n: nat): Option<nat>
    decreases n
  {
    if n == 0 then Some(rto)
    else if rto > MAX_RTO then None
    else Backoff(2 * rto, n - 1)
  }

  /** The number of timeouts an unanswered connection survives. */
  function Survives(rto: nat): nat
    requires rto >= 1
    decreases MAX_RTO - rto
  {
    if rto > MAX_RTO then 0 else 1 + Survives(2 * rto)
  }

  /** Timeouts double the RTO exactly, and the connection ends with the first timeout that finds
      it above 60 seconds. */
  lemma {:induction false} BackoffDoubles(rto: nat, n: nat)
    requires rto >= 1
    ensures Backoff(rto, n) == if n <= Survives(rto) then Some(rto * Pow2(n)) else None
    decreases n
  {
    if n > 0 && rto <= MAX_RTO {
      BackoffDoubles(2 * rto, n - 1);
      assert 2 * rto * Pow2(n - 1) == rto * (2 * Pow2(n - 1));
    }
  }

  /** The count is logarithmic: the last doubling is the first to exceed 60 seconds. */
  lemma {:induction false} SurvivesIsLogarithm(rto: nat)
    requires rto >= 1
    ensures var k := Survives(rto);
      && rto * Pow2(k) > MAX_RTO
      && (k > 0 ==> rto * Pow2(k - 1) <= MAX_RTO)
    decreases MAX_RTO - rto
  {
    if rto <= MAX_RTO {
      var k := Survives(2 * rto);
      SurvivesIsLogarithm(2 * rto);
      assert 2 * rto * Pow2(k) == rto * (2 * Pow2(k));
      if k > 0 {
        assert 2 * rto * Pow2(k - 1) == rto * (2 * Pow2(k - 1));
      }
    }
  }

  lemma {:induction false} SurvivesAtMost(rto: nat, j: nat)
    requires rto >= 1 && rto * Pow2(j) > MAX_RTO
    ensures Survives(rto) <= j
    decreases j
  {
    if rto <= MAX_RTO {
      assert j > 0;
      assert 2 * rto * Pow2(j - 1) == rto * (2 * Pow2(j - 1));
      SurvivesAtMost(2 * rto, j - 1);
    }
  }

  /** Sixteen doublings are enough from any non-zero RTO. */
  lemma {:induction false} SurvivesAtMostSixteen(rto: nat)
    requires rto >= 1
    ensures Survives(rto) <= 16
  {
    assert Pow2(16) == 65536 by {
      assert Pow2(4) == 16;
      assert Pow2(8) == 16 * Pow2(4);
      assert Pow2(12) == 16 * Pow2(8);
    }
    SurvivesAtMost(rto, 16);
  }

  lemma {:induction false} ZeroNeverGrows(n: nat)
    ensures Backoff(0, n) == Some(0)
    decreases n
  {
    if n > 0 {
      ZeroNeverGrows(n - 1);
    }
  }

  /** An unanswered connection is given up eventually exactly when its RTO is not zero. A passive
      opener that has taken no sample yet still has RTO zero. */
  lemma {:induction false} GivesUpIff(rto: nat)
    ensures (exists n: nat :: Backoff(rto, n) == None) <==> rto >= 1
  {
    if rto == 0 {
      forall n: nat
        ensures Backoff(rto, n) != None
      {
        ZeroNeverGrows(n);
      }
    } else {
      BackoffDoubles(rto, Survives(rto) + 1);
    }
  }
}
