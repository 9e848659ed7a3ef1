/** What the estimator of src/tcp.c `tcp_rtt` remembers of its samples: exponentially weighted sums with
    the gains 1/8 and 1/4 of section 2.3 of RFC 6298, up to a truncation error that never exceeds
    seven, respectively three, milliseconds. */
module Smoothing {
  import opened Words
  import opened Rtt

  // ----- weighted sums

  function Power(b: nat, n: nat): (p: nat)
    ensures b >= 1 ==> p >= 1
  {
    if n == 0 then 1 else b * Power(b, n - 1)
  }

  /** The samples with weight a^(n-1-k) * (a+1)^k for the k-th of n: the older, the less. */
  function Mix(a: nat, xs: seq<nat>): nat {
    if xs == [] then 0 else Power(a, |xs| - 1) * xs[0] + (a + 1) * Mix(a, xs[1..])
  }

  /** `s'` remembers `s` with weight (a/(a+1))^n and `xs` with the weights of `Mix`, all divided by
      (a+1)^n; truncation takes away less than `a` times one. */
  ghost predicate Remembers(a: nat, s: int, xs: seq<nat>, s': int) {
    var p, q := Power(a, |xs|), Power(a + 1, |xs|);
    && q * s' <= p * s + Mix(a, xs)
    && p * (s + a) + Mix(a, xs) <= q * (s' + a)
  }

  lemma {:induction false} Scaled(k: nat, x: int, y: int)
    requires x <= y
    ensures k * x <= k * y
  {
  }

  lemma {:induction false} Spread(b: int, p: int, s: int, m: int)
    ensures b * (p * s + m) == b * p * s + b * m
    ensures b * (p * s + m) == p * (b * s) + b * m
  {
  }

  /** One more sample in front, on plain numbers: p and q are the powers of `a` and `a + 1`. */
  lemma {:induction false} UpperStep(a: nat, p: nat, q: nat, x: nat, m: nat, s: int, s1: int, s': int)
    requires (a + 1) * s1 <= a * s + x && q * s' <= p * s1 + m
    ensures (a + 1) * q * s' <= a * p * s + (p * x + (a + 1) * m)
  {
    var b := a + 1;
    assert b * q * s' <= p * (b * s1) + b * m by {
      Spread(b, q, s', 0);
      Scaled(b, q * s', p * s1 + m);
      Spread(b, p, s1, m);
    }
    assert p * (b * s1) <= a * p * s + p * x by {
      Scaled(p, b * s1, a * s + x);
      Spread(p, a, s, x);
    }
  }

  lemma {:induction false} LowerStep(a: nat, p: nat, q: nat, x: nat, m: nat, s: int, s1: int, s': int)
    requires a * s + x <= (a + 1) * s1 + a && p * (s1 + a) + m <= q * (s' + a)
    ensures a * p * (s + a) + (p * x + (a + 1) * m) <= (a + 1) * q * (s' + a)
  {
    var b := a + 1;
    assert p * (b * (s1 + a)) + b * m <= b * q * (s' + a) by {
      Spread(b, q, s' + a, 0);
      Scaled(b, p * (s1 + a) + m, q * (s' + a));
      Spread(b, p, s1 + a, m);
    }
    assert a * p * (s + a) + p * x <= p * (b * (s1 + a)) by {
      assert a * (s + a) + x <= b * (s1 + a);
      Scaled(p, a * (s + a) + x, b * (s1 + a));
      Spread(p, a, s + a, x);
    }
  }

  lemma {:induction false} RemembersMore(a: nat, s: int, xs: seq<nat>, s1: int, s': int)
    requires xs != [] && (a + 1) * s1 <= a * s + xs[0] <= (a + 1) * s1 + a
    requires Remembers(a, s1, xs[1..], s')
    ensures Remembers(a, s, xs, s')
  {
    var p, q, m := Power(a, |xs| - 1), Power(a + 1, |xs| - 1), Mix(a, xs[1..]);
    UpperStep(a, p, q, xs[0], m, s, s1, s');
    LowerStep(a, p, q, xs[0], m, s, s1, s');
  }

  // ----- the estimator

  /** How far each sample lies from the smoothed value it meets. */
  function Deviations(e: Estimate, rs: seq<nat>): (ds: seq<nat>)
    ensures |ds| == |rs|
    decreases |rs|
  {
    if rs == [] then [] else [Abs(e.srtt - rs[0])] + Deviations(Measure(e, rs[0]), rs[1..])
  }

  /** No sample meets a smoothed value of zero, which the code takes for "not measured yet". */
  ghost predicate Steady(e: Estimate, rs: seq<nat>)
    decreases |rs|
  {
    rs != [] ==> e.srtt >= 1 && Steady(Measure(e, rs[0]), rs[1..])
  }

  /** The history is forgotten exactly when a sample of zero meets a smoothed value of one. */
  lemma {:induction false} ForgetsIff(e: Estimate, r: nat)
    requires e.srtt >= 1
    ensures Measure(e, r).srtt >= 0
    ensures Measure(e, r).srtt == 0 <==> e.srtt == 1 && r == 0
  {
  }

  lemma {:induction false} PositiveIsSteady(e: Estimate, rs: seq<nat>)
    requires e.srtt >= 1 && forall i :: 0 <= i < |rs| ==> rs[i] >= 1
    ensures Steady(e, rs)
    decreases |rs|
  {
    if rs != [] {
      ForgetsIff(e, rs[0]);
      PositiveIsSteady(Measure(e, rs[0]), rs[1..]);
    }
  }

  /** One sample: an eighth of it and a quarter of its deviation, and the truncation. */
  lemma {:induction false} OneSample(e: Estimate, r: nat)
    requires e.srtt >= 1
    ensures var m := Measure(e, r);
      && 8 * m.srtt <= 7 * e.srtt + r <= 8 * m.srtt + 7
      && 4 * m.rttvar <= 3 * e.rttvar + Abs(e.srtt - r) <= 4 * m.rttvar + 3
      && m.rto == m.srtt + Max(200, 4 * m.rttvar)
  {
  }

  /** Over any run of samples the smoothed round-trip time is the weighted sum with gain 1/8 and the
      variation that of the deviations with gain 1/4; the timeout follows from the two. */
  lemma {:induction false} SamplesRemembered(e: Estimate, rs: seq<nat>)
    requires Steady(e, rs)
    ensures var m := MeasureAll(e, rs);
      && Remembers(7, e.srtt, rs, m.srtt)
      && Remembers(3, e.rttvar, Deviations(e, rs), m.rttvar)
      && (rs != [] ==> m.rto == m.srtt + Max(200, 4 * m.rttvar))
    decreases |rs|
  {
    if rs != [] {
      var e1, m := Measure(e, rs[0]), MeasureAll(e, rs);
      SamplesRemembered(e1, rs[1..]);
      OneSample(e, rs[0]);
      RemembersMore(7, e.srtt, rs, e1.srtt, m.srtt);
      var ds := Deviations(e, rs);
      assert ds[1..] == Deviations(e1, rs[1..]);
      RemembersMore(3, e.rttvar, ds, e1.rttvar, m.rttvar);
    }
  }

  /** A new connection, for every run of samples: the first one r sets the smoothed value to r, the
      variation to r/2 and the timeout to r + max(200, 4*(r/2)); every later one enters with gain 1/8,
      its deviation with gain 1/4. */
  lemma {:induction false} EstimatorTheorem(e: Estimate, rs: seq<nat>)
    requires e.srtt == 0 && rs != [] && forall i :: 0 <= i < |rs| ==> rs[i] >= 1
    ensures var m, first := MeasureAll(e, rs), Measure(e, rs[0]);
      && Remembers(7, rs[0], rs[1..], m.srtt)
      && Remembers(3, rs[0] / 2, Deviations(first, rs[1..]), m.rttvar)
      && m.rto == m.srtt + Max(200, 4 * m.rttvar)
      && first.rto == rs[0] + Max(200, 4 * (rs[0] / 2))
  {
    var first := Measure(e, rs[0]);
    PositiveIsSteady(first, rs[1..]);
    SamplesRemembered(first, rs[1..]);
  }

  // ----- equal samples

  function Same(r: nat, n: nat): (rs: seq<nat>)
    ensures |rs| == n && forall i :: 0 <= i < n ==> rs[i] == r
  {
    if n == 0 then [] else [r] + Same(r, n - 1)
  }

  /** Equal samples weigh what the old value has lost. */
  lemma {:induction false} MixSame(a: nat, r: nat, n: nat)
    ensures Mix(a, Same(r, n)) == r * Power(a + 1, n) - r * Power(a, n)
  {
    if n > 0 {
      MixSame(a, r, n - 1);
      assert Same(r, n)[1..] == Same(r, n - 1);
      SameStep(a, r, Power(a, n - 1), Power(a + 1, n - 1));
    }
  }

  lemma {:induction false} SameStep(a: nat, r: nat, p: nat, q: nat)
    ensures p * r + (a + 1) * (r * q - r * p) == r * ((a + 1) * q) - r * (a * p)
  {
    Spread(a + 1, r, q, -(r * p));
    Spread(a, r, p, 0);
    assert (a + 1) * (r * p) == a * (r * p) + r * p;
  }

  lemma {:induction false} Shifted(q: int, s: int, r: int)
    ensures q * (s - r) == q * s - r * q
  {
  }

  /** The distance `s - r` after `n` equal samples: the factor a/(a+1) each, and no faster than
      truncation allows. */
  ghost predicate Approaches(a: nat, d: int, n: nat, d': int) {
    && Power(a + 1, n) * d' <= Power(a, n) * d
    && Power(a, n) * (d + a) <= Power(a + 1, n) * (d' + a)
  }

  lemma {:induction false} RemembersSame(a: nat, s: int, r: nat, n: nat, s': int)
    requires Remembers(a, s, Same(r, n), s')
    ensures Approaches(a, s - r, n, s' - r)
  {
    MixSame(a, r, n);
    var p, q := Power(a, n), Power(a + 1, n);
    Shifted(q, s', r);
    Shifted(p, s, r);
    Shifted(q, s' + a, r);
    Shifted(p, s + a, r);
    assert s' - r + a == s' + a - r && s - r + a == s + a - r;
  }

  /** Equal samples r pull the smoothed value towards r by one eighth of the distance each. */
  lemma {:induction false} EqualSamples(e: Estimate, r: nat, n: nat)
    requires e.srtt >= 1 && r >= 1
    ensures Approaches(7, e.srtt - r, n, MeasureAll(e, Same(r, n)).srtt - r)
  {
    PositiveIsSteady(e, Same(r, n));
    SamplesRemembered(e, Same(r, n));
    RemembersSame(7, e.srtt, r, n, MeasureAll(e, Same(r, n)).srtt);
  }

  lemma {:induction false} SettledStays(e: Estimate, n: nat)
    requires e.srtt >= 1
    ensures MeasureAll(e, Same(e.srtt, n)).srtt == e.srtt
    ensures Deviations(e, Same(e.srtt, n)) == Same(0, n)
    decreases n
  {
    if n > 0 {
      assert Same(e.srtt, n)[1..] == Same(e.srtt, n - 1);
      SettledStays(Measure(e, e.srtt), n - 1);
    }
  }

  /** Once the smoothed value has settled on r, the variation decays by a quarter per sample. */
  lemma {:induction false} VariationDecays(e: Estimate, n: nat)
    requires e.srtt >= 1
    ensures var m := MeasureAll(e, Same(e.srtt, n));
      m.srtt == e.srtt && Approaches(3, e.rttvar, n, m.rttvar)
  {
    SettledStays(e, n);
    PositiveIsSteady(e, Same(e.srtt, n));
    SamplesRemembered(e, Same(e.srtt, n));
    RemembersSame(3, e.rttvar, 0, n, MeasureAll(e, Same(e.srtt, n)).rttvar);
  }
}
