/** What the functions and constants of SHA-256 are, bit by bit and number by number (FIPS 180-4, sections
    4.1.2, 4.2.2 and 5.3.3), independently of how apps/curl-verify/sha256.c computes them. */
module Sha256Bits {
  import opened Words
  import opened BlockHash
  import opened Sha256

  /** Digit `i` of `x` in binary, counted from the right. */
  predicate Bit(x: nat, i: nat)
    decreases i
  {
    if i == 0 then x % 2 == 1 else Bit(x / 2, i - 1)
  }

  /** Exactly one of the three, or all of them. */
  predicate Parity(a: bool, b: bool, c: bool) {
    (a != b) != c
  }

  // ----- the operators

  lemma {:induction false} AndBit(x: nat, y: nat, i: nat)
    ensures Bit(AndBits(x, y), i) <==> Bit(x, i) && Bit(y, i)
    decreases i
  {
    if x == 0 {
      ZeroBit(i);
    } else if i > 0 {
      AndBit(x / 2, y / 2, i - 1);
    }
  }

  lemma {:induction false} OrBit(x: nat, y: nat, i: nat)
    ensures Bit(OrBits(x, y), i) <==> Bit(x, i) || Bit(y, i)
    decreases i
  {
    if x + y == 0 {
      ZeroBit(i);
    } else if i > 0 {
      OrBit(x / 2, y / 2, i - 1);
    }
  }

  lemma {:induction false} XorBit(x: nat, y: nat, i: nat)
    ensures Bit(XorBits(x, y), i) <==> Bit(x, i) != Bit(y, i)
    decreases i
  {
    if x + y == 0 {
      ZeroBit(i);
    } else {
      LastDigit(XorBits(x / 2, y / 2), (x + y) % 2);
      if i == 0 {
        ParityOfSum(x, y);
      } else {
        XorBit(x / 2, y / 2, i - 1);
      }
    }
  }

  lemma {:induction false} LastDigit(r: nat, d: nat)
    requires d < 2
    ensures (2 * r + d) / 2 == r && (2 * r + d) % 2 == d
  {
  }

  lemma {:induction false} ParityOfSum(x: nat, y: nat)
    ensures (x + y) % 2 == 1 <==> (x % 2 == 1) != (y % 2 == 1)
  {
  }

  lemma {:induction false} ZeroBit(i: nat)
    ensures !Bit(0, i)
    decreases i
  {
    if i > 0 {
      ZeroBit(i - 1);
    }
  }

  lemma {:induction false} ComplementBit(x: nat, n: nat, i: nat)
    requires x < Pow2(n) && i < n
    ensures Bit(Pow2(n) - 1 - x, i) <==> !Bit(x, i)
    decreases i
  {
    if i > 0 {
      assert (Pow2(n) - 1 - x) / 2 == Pow2(n - 1) - 1 - x / 2;
      ComplementBit(x / 2, n - 1, i - 1);
    }
  }

  lemma {:induction false} NotBit(x: u32, i: nat)
    requires i < 32
    ensures Bit(Not(x), i) <==> !Bit(x, i)
  {
    Pow32();
    ComplementBit(x, 32, i);
  }

  lemma {:induction false} DivTwice(x: nat, p: nat)
    requires p > 0
    ensures x / (2 * p) == x / 2 / p
  {
    var q, h := x / (2 * p), x / 2;
    var r := x - q * (2 * p);
    assert h == q * p + r / 2;
    assert 0 <= r / 2 < p;
    QuotientIs(h, p, q, r / 2);
  }

  lemma {:induction false} QuotientIs(h: nat, p: nat, q: nat, r: nat)
    requires p > 0 && h == q * p + r && r < p
    ensures h / p == q
  {
    var e := h / p - q;
    assert e * p == r - h % p;
    SmallMultiple(e, p);
  }

  lemma {:induction false} SmallMultiple(e: int, p: int)
    requires -p < e * p < p
    ensures e == 0
  {
  }

  function Quotient(x: nat, p: nat): nat
    requires p > 0
  {
    x / p
  }

  /** Shifting right moves every bit down. */
  lemma {:induction false} ShiftedBit(x: nat, n: nat, i: nat)
    ensures Bit(Quotient(x, Pow2(n)), i) <==> Bit(x, i + n)
    decreases n
  {
    if n > 0 {
      DivTwice(x, Pow2(n - 1));
      ShiftedBit(x / 2, n - 1, i);
    }
  }

  lemma {:induction false} HighBitsZero(x: nat, n: nat, i: nat)
    requires x < Pow2(n) && n <= i
    ensures !Bit(x, i)
    decreases n
  {
    if n == 0 {
      ZeroBit(i);
    } else {
      HighBitsZero(x / 2, n - 1, i - 1);
    }
  }

  /** Shifting left, cut off at `m` bits, moves every bit up. */
  lemma {:induction false} RaisedBit(x: nat, n: nat, m: nat, i: nat)
    requires i < m
    ensures Bit(x * Pow2(n) % Pow2(m), i) <==> i >= n && Bit(x, i - n)
    decreases m
  {
    var y := x * Pow2(n);
    RemainderHalves(y, Pow2(m - 1));
    if n == 0 {
      if i > 0 {
        RaisedBit(x / 2, 0, m - 1, i - 1);
      }
    } else {
      assert y == 2 * (x * Pow2(n - 1)) by {
        Reassociate(x, Pow2(n - 1));
      }
      if i > 0 {
        RaisedBit(x, n - 1, m - 1, i - 1);
      }
    }
  }

  lemma {:induction false} Reassociate(x: nat, p: nat)
    ensures x * (2 * p) == 2 * (x * p)
  {
  }

  lemma {:induction false} RemainderHalves(y: nat, p: nat)
    requires p > 0
    ensures y % (2 * p) % 2 == y % 2 && y % (2 * p) / 2 == y / 2 % p
  {
    DivTwice(y, p);
    var q := y / 2 / p;
    assert y % (2 * p) == y - q * (2 * p);
    Reassociate(q, p);
    assert y / 2 % p == y / 2 - q * p;
  }

  lemma {:induction false} UpperPart(x: u32, n: nat, p: u32, i: nat)
    requires p == Pow2(n)
    ensures Bit(Shr(x, p), i) <==> i + n < 32 && Bit(x, i + n)
  {
    ShiftedBit(x, n, i);
    assert Shr(x, p) == Quotient(x, p);
    if i + n >= 32 {
      Pow32();
      HighBitsZero(x, 32, i + n);
    }
  }

  lemma {:induction false} LowerPart(x: u32, n: nat, q: u32, i: nat)
    requires n <= 32 && i < 32 && q == Pow2(32 - n)
    ensures Bit((x * q) % 0x1_0000_0000, i) <==> i + n >= 32 && Bit(x, i + n - 32)
  {
    Pow32();
    RaisedBit(x, 32 - n, 32, i);
  }

  /** Rotating right by `n`. */
  lemma {:induction false} RotatedBit(x: u32, n: nat, p: u32, q: u32, i: nat)
    requires 0 < n < 32 && i < 32 && p == Pow2(n) && q == Pow2(32 - n)
    ensures Bit(Rotr(x, p, q), i) <==> Bit(x, (i + n) % 32)
  {
    var hi: nat, lo: nat := Shr(x, p), (x * q) % 0x1_0000_0000;
    assert Rotr(x, p, q) == OrBits(hi, lo);
    OrBit(hi, lo, i);
    UpperPart(x, n, p, i);
    LowerPart(x, n, q, i);
  }

  /** Two words with the same bits are the same, so the bits say all there is to say. */
  lemma {:induction false} SameBits(x: nat, y: nat, n: nat)
    requires x < Pow2(n) && y < Pow2(n) && forall i :: 0 <= i < n ==> Bit(x, i) == Bit(y, i)
    ensures x == y
    decreases n
  {
    if n > 0 {
      assert Bit(x, 0) == Bit(y, 0);
      forall i | 0 <= i < n - 1
        ensures Bit(x / 2, i) == Bit(y / 2, i)
      {
        assert Bit(x, i + 1) == Bit(y, i + 1);
      }
      SameBits(x / 2, y / 2, n - 1);
    }
  }

  // ----- the six functions

  /** Where x has a one, y is chosen, and elsewhere z. */
  lemma {:induction false} ChooseBit(x: u32, y: u32, z: u32, i: nat)
    requires i < 32
    ensures Bit(Ch(x, y, z), i) == if Bit(x, i) then Bit(y, i) else Bit(z, i)
  {
    XorBit(And(x, y), And(Not(x), z), i);
    AndBit(x, y, i);
    AndBit(Not(x), z, i);
    NotBit(x, i);
  }

  /** What at least two of the three agree on. */
  lemma {:induction false} MajorityBit(x: u32, y: u32, z: u32, i: nat)
    ensures Bit(Maj(x, y, z), i) == if Bit(x, i) == Bit(y, i) then Bit(x, i) else Bit(z, i)
  {
    XorBit(Xor(And(x, y), And(x, z)), And(y, z), i);
    XorBit(And(x, y), And(x, z), i);
    AndBit(x, y, i);
    AndBit(x, z, i);
    AndBit(y, z, i);
  }

  lemma {:induction false} ParityBit(x: u32, y: u32, z: u32, i: nat)
    ensures Bit(Xor(Xor(x, y), z), i) <==> Parity(Bit(x, i), Bit(y, i), Bit(z, i))
  {
    XorBit(Xor(x, y), z, i);
    XorBit(x, y, i);
  }

  lemma {:induction false} PowersOfTwo()
    ensures Pow2(2) == 0x4 && Pow2(3) == 0x8 && Pow2(6) == 0x40 && Pow2(7) == 0x80
    ensures Pow2(10) == 0x400 && Pow2(11) == 0x800 && Pow2(13) == 0x2000 && Pow2(14) == 0x4000
    ensures Pow2(15) == 0x8000 && Pow2(17) == 0x20000 && Pow2(18) == 0x40000 && Pow2(19) == 0x80000
    ensures Pow2(21) == 0x200000 && Pow2(22) == 0x400000 && Pow2(25) == 0x2000000 && Pow2(26) == 0x4000000
    ensures Pow2(30) == 0x40000000
  {
    assert Pow2(4) == 16;
    assert Pow2(8) == 256;
    assert Pow2(12) == 0x1000;
    assert Pow2(16) == 0x10000;
    assert Pow2(20) == 0x100000;
    assert Pow2(24) == 0x1000000;
    assert Pow2(28) == 0x10000000;
  }

  /** The rotations by 2, 13 and 22 bits. */
  lemma {:induction false} BigSigma0Bit(x: u32, i: nat)
    requires i < 32
    ensures Bit(BigSigma0(x), i) <==> Parity(Bit(x, (i + 2) % 32), Bit(x, (i + 13) % 32), Bit(x, (i + 22) % 32))
  {
    PowersOfTwo();
    ParityBit(Rotr(x, 0x4, 0x40000000), Rotr(x, 0x2000, 0x80000), Rotr(x, 0x400000, 0x400), i);
    RotatedBit(x, 2, 0x4, 0x40000000, i);
    RotatedBit(x, 13, 0x2000, 0x80000, i);
    RotatedBit(x, 22, 0x400000, 0x400, i);
  }

  /** The rotations by 6, 11 and 25 bits. */
  lemma {:induction false} BigSigma1Bit(x: u32, i: nat)
    requires i < 32
    ensures Bit(BigSigma1(x), i) <==> Parity(Bit(x, (i + 6) % 32), Bit(x, (i + 11) % 32), Bit(x, (i + 25) % 32))
  {
    PowersOfTwo();
    ParityBit(Rotr(x, 0x40, 0x4000000), Rotr(x, 0x800, 0x200000), Rotr(x, 0x2000000, 0x80), i);
    RotatedBit(x, 6, 0x40, 0x4000000, i);
    RotatedBit(x, 11, 0x800, 0x200000, i);
    RotatedBit(x, 25, 0x2000000, 0x80, i);
  }

  /** The rotations by 7 and 18 bits and the shift by 3. */
  lemma {:induction false} SmallSigma0Bit(x: u32, i: nat)
    requires i < 32
    ensures Bit(SmallSigma0(x), i) <==> Parity(Bit(x, (i + 7) % 32), Bit(x, (i + 18) % 32), i + 3 < 32 && Bit(x, i + 3))
  {
    PowersOfTwo();
    ParityBit(Rotr(x, 0x80, 0x2000000), Rotr(x, 0x40000, 0x4000), Shr(x, 0x8), i);
    RotatedBit(x, 7, 0x80, 0x2000000, i);
    RotatedBit(x, 18, 0x40000, 0x4000, i);
    UpperPart(x, 3, 0x8, i);
  }

  /** The rotations by 17 and 19 bits and the shift by 10. */
  lemma {:induction false} SmallSigma1Bit(x: u32, i: nat)
    requires i < 32
    ensures Bit(SmallSigma1(x), i) <==> Parity(Bit(x, (i + 17) % 32), Bit(x, (i + 19) % 32), i + 10 < 32 && Bit(x, i + 10))
  {
    PowersOfTwo();
    ParityBit(Rotr(x, 0x20000, 0x8000), Rotr(x, 0x80000, 0x2000), Shr(x, 0x400), i);
    RotatedBit(x, 17, 0x20000, 0x8000, i);
    RotatedBit(x, 19, 0x80000, 0x2000, i);
    UpperPart(x, 10, 0x400, i);
  }

  // ----- the recurrences (sections 6.2.2 and 6.1.2 of FIPS 180-4)

  lemma {:induction false} ScheduleStable(b: Block, m: nat, n: nat)
    requires m <= n
    ensures Schedule(b, m) == Schedule(b, n)[..m]
    decreases n
  {
    if m < n {
      ScheduleStable(b, m, n - 1);
      assert Schedule(b, n)[..m] == Schedule(b, n - 1)[..m];
    } else {
      assert Schedule(b, n)[..n] == Schedule(b, n);
    }
  }

  function Total(xs: seq<u32>): nat {
    if xs == [] then 0 else Total(xs[..|xs| - 1]) + xs[|xs| - 1]
  }

  /** The sum of some words, reduced at the end. */
  function Sum(xs: seq<u32>): u32 {
    Total(xs) % 0x1_0000_0000
  }

  lemma {:induction false} SumOne(x: u32)
    ensures Sum([x]) == x
  {
    assert [x][..0] == [];
    assert Total([x]) == Total([]) + x;
  }

  lemma {:induction false} SumGrows(xs: seq<u32>, x: u32)
    ensures Add32(Sum(xs), x) == Sum(xs + [x])
  {
    assert (xs + [x])[..|xs|] == xs;
    Add32Reduces(Total(xs), x);
  }

  lemma {:induction false} SumJoins(xs: seq<u32>, ys: seq<u32>)
    ensures Add32(Sum(xs), Sum(ys)) == Sum(xs + ys)
  {
    if ys == [] {
      assert xs + ys == xs;
    } else {
      var n := |ys| - 1;
      SumJoins(xs, ys[..n]);
      SumGrows(ys[..n], ys[n]);
      SumGrows(xs + ys[..n], ys[n]);
      assert ys[..n] + [ys[n]] == ys && xs + ys[..n] + [ys[n]] == xs + ys;
      Add32Twice(Sum(xs), Sum(ys[..n]), ys[n]);
      Add32Reduces(Sum(xs), Sum(ys[..n]) + ys[n]);
    }
  }

  lemma {:induction false} SumOfTwo(a: u32, b: u32)
    ensures Add32(a, b) == Sum([a, b])
  {
    SumOne(a);
    SumGrows([a], b);
    assert [a] + [b] == [a, b];
  }

  lemma {:induction false} SumOfFour(a: u32, b: u32, c: u32, d: u32)
    ensures Add32(Add32(Add32(a, b), c), d) == Sum([a, b, c, d])
  {
    SumOfTwo(a, b);
    SumGrows([a, b], c);
    SumGrows([a, b, c], d);
    assert [a, b] + [c] == [a, b, c] && [a, b, c] + [d] == [a, b, c, d];
  }

  lemma {:induction false} SumOfFive(a: u32, b: u32, c: u32, d: u32, e: u32)
    ensures Add32(Add32(Add32(Add32(a, b), c), d), e) == Sum([a, b, c, d, e])
  {
    SumOfFour(a, b, c, d);
    SumGrows([a, b, c, d], e);
    assert [a, b, c, d] + [e] == [a, b, c, d, e];
  }

  /** The first sixteen words of the schedule are the words of the block. */
  lemma {:induction false} BlockWord(b: Block, n: nat, t: nat)
    requires t < n && t < 16
    ensures Schedule(b, n)[t] ==
      0x100_0000 * (b[4 * t] as int) + 0x1_0000 * (b[4 * t + 1] as int) + 0x100 * (b[4 * t + 2] as int) + b[4 * t + 3]
  {
    ScheduleAt(b, n, t);
  }

  /** Every later one is the sum of four earlier ones, two of them mixed. */
  lemma {:induction false} ScheduleLaw(b: Block, n: nat, t: nat)
    requires 16 <= t < n
    ensures var w := Schedule(b, n);
      w[t] == Sum([SmallSigma1(w[t - 2]), w[t - 7], SmallSigma0(w[t - 15]), w[t - 16]])
  {
    ScheduleAt(b, n, t);
    LateWord(b, Schedule(b, n)[..t]);
  }

  lemma {:induction false} ScheduleAt(b: Block, n: nat, t: nat)
    requires t < n
    ensures Schedule(b, n)[t] == NextWord(b, Schedule(b, n)[..t])
  {
    var w := Schedule(b, n);
    ScheduleStable(b, t + 1, n);
    ScheduleStable(b, t, n);
    assert w[t] == w[..t + 1][t];
  }

  lemma {:induction false} LateWord(b: Block, ws: seq<u32>)
    requires |ws| >= 16
    ensures var t := |ws|;
      NextWord(b, ws) == Sum([SmallSigma1(ws[t - 2]), ws[t - 7], SmallSigma0(ws[t - 15]), ws[t - 16]])
  {
    var t := |ws|;
    SumOfFour(SmallSigma1(ws[t - 2]), ws[t - 7], SmallSigma0(ws[t - 15]), ws[t - 16]);
  }

  /** The rounds as two sequences: every round adds one word to each. */
  datatype Registers = Registers(a: seq<u32>, e: seq<u32>)

  function Begin(v: Hash): Registers {
    Registers([v[3], v[2], v[1], v[0]], [v[7], v[6], v[5], v[4]])
  }

  /** The five terms that go into both. */
  function Terms(h: u32, e: u32, f: u32, g: u32, k: u32, w: u32): seq<u32> {
    [h, BigSigma1(e), Ch(e, f, g), k, w]
  }

  ghost predicate Shift(r: Registers, k: u32, w: u32, r': Registers) {
    var j := |r.a|;
    && 4 <= j == |r.e|
    && var terms := Terms(r.e[j - 4], r.e[j - 1], r.e[j - 2], r.e[j - 3], k, w);
    r' == Registers(r.a + [Sum(terms + [BigSigma0(r.a[j - 1]), Maj(r.a[j - 1], r.a[j - 2], r.a[j - 3])])],
                    r.e + [Sum([r.a[j - 4]] + terms)])
  }

  /** The eight working variables are the last four words of each. */
  ghost predicate Ends(r: Registers, v: Hash) {
    var j := |r.a|;
    && 4 <= j == |r.e|
    && v == [r.a[j - 1], r.a[j - 2], r.a[j - 3], r.a[j - 4], r.e[j - 1], r.e[j - 2], r.e[j - 3], r.e[j - 4]]
  }

  lemma {:induction false} TwoSums(a: u32, b: u32, c: u32, d: u32, e: u32, y: u32, z: u32, u: u32)
    ensures var t1 := Add32(Add32(Add32(Add32(a, b), c), d), e);
      Add32(t1, Add32(y, z)) == Sum([a, b, c, d, e] + [y, z]) && Add32(u, t1) == Sum([u] + [a, b, c, d, e])
  {
    SumOfFive(a, b, c, d, e);
    SumOfTwo(y, z);
    SumJoins([a, b, c, d, e], [y, z]);
    SumOne(u);
    SumJoins([u], [a, b, c, d, e]);
  }

  /** One round: two new words, and the other six move on by one place. */
  lemma {:induction false} RoundWords(v: Hash, k: u32, w: u32)
    ensures var terms := Terms(v[7], v[4], v[5], v[6], k, w);
      Round(v, k, w) == [Sum(terms + [BigSigma0(v[0]), Maj(v[0], v[1], v[2])]), v[0], v[1], v[2],
                         Sum([v[3]] + terms), v[4], v[5], v[6]]
  {
    TwoSums(v[7], BigSigma1(v[4]), Ch(v[4], v[5], v[6]), k, w, BigSigma0(v[0]), Maj(v[0], v[1], v[2]), v[3]);
  }

  lemma {:induction false} EndsMove(r: Registers, v: Hash, x: u32, y: u32)
    requires Ends(r, v)
    ensures Ends(Registers(r.a + [x], r.e + [y]), [x, v[0], v[1], v[2], y, v[4], v[5], v[6]])
  {
  }

  lemma {:induction false} RoundShifts(r: Registers, v: Hash, k: u32, w: u32) returns (r': Registers)
    requires Ends(r, v)
    ensures Shift(r, k, w, r') && Ends(r', Round(v, k, w))
  {
    var v' := Round(v, k, w);
    r' := Registers(r.a + [v'[0]], r.e + [v'[4]]);
    RoundWords(v, k, w);
    EndsMove(r, v, v'[0], v'[4]);
  }

  ghost predicate Shifts(rs: seq<Registers>, ks: seq<u32>, ws: seq<u32>)
    decreases |ks|
  {
    && |rs| == |ks| + 1 == |ws| + 1
    && (ks != [] ==>
          var n := |ks| - 1;
          Shifts(rs[..n + 1], ks[..n], ws[..n]) && Shift(rs[n], ks[n], ws[n], rs[n + 1]))
  }

  lemma {:induction false} ShiftsMore(rs: seq<Registers>, ks: seq<u32>, ws: seq<u32>, r': Registers)
    requires ks != [] && |ks| == |ws| && Shifts(rs, ks[..|ks| - 1], ws[..|ks| - 1])
    requires Shift(rs[|ks| - 1], ks[|ks| - 1], ws[|ks| - 1], r')
    ensures Shifts(rs + [r'], ks, ws)
  {
    assert (rs + [r'])[..|ks|] == rs;
  }

  /** The rounds, from any start and for any constants and words: the sequences grow by `Shift` from the
      start values, and the result is their end. */
  lemma {:induction false} RoundsShift(v: Hash, ks: seq<u32>, ws: seq<u32>) returns (rs: seq<Registers>)
    requires |ks| == |ws|
    ensures Shifts(rs, ks, ws) && rs[0] == Begin(v) && Ends(rs[|ks|], Rounds(v, ks, ws))
  {
    if ks == [] {
      rs := [Begin(v)];
    } else {
      var n := |ks| - 1;
      rs := RoundsShift(v, ks[..n], ws[..n]);
      var r' := RoundShifts(rs[n], Rounds(v, ks[..n], ws[..n]), ks[n], ws[n]);
      ShiftsMore(rs, ks, ws, r');
      rs := rs + [r'];
    }
  }

  // ----- the constants

  /** The first 64 primes, by rows of eight. */
  const P0: seq<nat> := [2, 3, 5, 7, 11, 13, 17, 19]
  const P1: seq<nat> := [23, 29, 31, 37, 41, 43, 47, 53]
  const P2: seq<nat> := [59, 61, 67, 71, 73, 79, 83, 89]
  const P3: seq<nat> := [97, 101, 103, 107, 109, 113, 127, 131]
  const P4: seq<nat> := [137, 139, 149, 151, 157, 163, 167, 173]
  const P5: seq<nat> := [179, 181, 191, 193, 197, 199, 211, 223]
  const P6: seq<nat> := [227, 229, 233, 239, 241, 251, 257, 263]
  const P7: seq<nat> := [269, 271, 277, 281, 283, 293, 307, 311]

  const PRIMES: seq<nat> := P0 + P1 + P2 + P3 + P4 + P5 + P6 + P7

  /** `k` is the first 32 bits behind the point of the cube root of `p`, whose whole part is `c`. */
  predicate CubeRootAt(k: u32, p: nat, c: nat) {
    var r := c * 0x1_0000_0000 + k;
    r * r * r <= p * 0x1_0000_0000_0000_0000_0000_0000 < (r + 1) * (r + 1) * (r + 1)
  }

  ghost predicate CubeRoot(k: u32, p: nat) {
    exists c: nat :: CubeRootAt(k, p, c)
  }

  /** The same for the square root. */
  predicate SquareRootAt(k: u32, p: nat, c: nat) {
    var r := c * 0x1_0000_0000 + k;
    r * r <= p * 0x1_0000_0000_0000_0000 < (r + 1) * (r + 1)
  }

  ghost predicate SquareRoot(k: u32, p: nat) {
    exists c: nat :: SquareRootAt(k, p, c)
  }

  ghost predicate CubeRoots(ks: seq<u32>, ps: seq<nat>) {
    |ks| == |ps| && forall i :: 0 <= i < |ks| ==> CubeRoot(ks[i], ps[i])
  }

  lemma {:induction false} RootsJoin(ks: seq<u32>, ps: seq<nat>, ls: seq<u32>, qs: seq<nat>)
    requires CubeRoots(ks, ps) && CubeRoots(ls, qs)
    ensures CubeRoots(ks + ls, ps + qs)
  {
  }

  lemma {:induction false} RootsRow0()
    ensures CubeRoots(K0, P0)
  {
    assert CubeRootAt(0x428a2f98, 2, 1);
    assert CubeRootAt(0x71374491, 3, 1);
    assert CubeRootAt(0xb5c0fbcf, 5, 1);
    assert CubeRootAt(0xe9b5dba5, 7, 1);
    assert CubeRootAt(0x3956c25b, 11, 2);
    assert CubeRootAt(0x59f111f1, 13, 2);
    assert CubeRootAt(0x923f82a4, 17, 2);
    assert CubeRootAt(0xab1c5ed5, 19, 2);
  }

  lemma {:induction false} RootsRow1()
    ensures CubeRoots(K1, P1)
  {
    assert CubeRootAt(0xd807aa98, 23, 2);
    assert CubeRootAt(0x12835b01, 29, 3);
    assert CubeRootAt(0x243185be, 31, 3);
    assert CubeRootAt(0x550c7dc3, 37, 3);
    assert CubeRootAt(0x72be5d74, 41, 3);
    assert CubeRootAt(0x80deb1fe, 43, 3);
    assert CubeRootAt(0x9bdc06a7, 47, 3);
    assert CubeRootAt(0xc19bf174, 53, 3);
  }

  lemma {:induction false} RootsRow2()
    ensures CubeRoots(K2, P2)
  {
    assert CubeRootAt(0xe49b69c1, 59, 3);
    assert CubeRootAt(0xefbe4786, 61, 3);
    assert CubeRootAt(0x0fc19dc6, 67, 4);
    assert CubeRootAt(0x240ca1cc, 71, 4);
    assert CubeRootAt(0x2de92c6f, 73, 4);
    assert CubeRootAt(0x4a7484aa, 79, 4);
    assert CubeRootAt(0x5cb0a9dc, 83, 4);
    assert CubeRootAt(0x76f988da, 89, 4);
  }

  lemma {:induction false} RootsRow3()
    ensures CubeRoots(K3, P3)
  {
    assert CubeRootAt(0x983e5152, 97, 4);
    assert CubeRootAt(0xa831c66d, 101, 4);
    assert CubeRootAt(0xb00327c8, 103, 4);
    assert CubeRootAt(0xbf597fc7, 107, 4);
    assert CubeRootAt(0xc6e00bf3, 109, 4);
    assert CubeRootAt(0xd5a79147, 113, 4);
    assert CubeRootAt(0x06ca6351, 127, 5);
    assert CubeRootAt(0x14292967, 131, 5);
  }

  lemma {:induction false} RootsRow4()
    ensures CubeRoots(K4, P4)
  {
    assert CubeRootAt(0x27b70a85, 137, 5);
    assert CubeRootAt(0x2e1b2138, 139, 5);
    assert CubeRootAt(0x4d2c6dfc, 149, 5);
    assert CubeRootAt(0x53380d13, 151, 5);
    assert CubeRootAt(0x650a7354, 157, 5);
    assert CubeRootAt(0x766a0abb, 163, 5);
    assert CubeRootAt(0x81c2c92e, 167, 5);
    assert CubeRootAt(0x92722c85, 173, 5);
  }

  lemma {:induction false} RootsRow5()
    ensures CubeRoots(K5, P5)
  {
    assert CubeRootAt(0xa2bfe8a1, 179, 5);
    assert CubeRootAt(0xa81a664b, 181, 5);
    assert CubeRootAt(0xc24b8b70, 191, 5);
    assert CubeRootAt(0xc76c51a3, 193, 5);
    assert CubeRootAt(0xd192e819, 197, 5);
    assert CubeRootAt(0xd6990624, 199, 5);
    assert CubeRootAt(0xf40e3585, 211, 5);
    assert CubeRootAt(0x106aa070, 223, 6);
  }

  lemma {:induction false} RootsRow6()
    ensures CubeRoots(K6, P6)
  {
    assert CubeRootAt(0x19a4c116, 227, 6);
    assert CubeRootAt(0x1e376c08, 229, 6);
    assert CubeRootAt(0x2748774c, 233, 6);
    assert CubeRootAt(0x34b0bcb5, 239, 6);
    assert CubeRootAt(0x391c0cb3, 241, 6);
    assert CubeRootAt(0x4ed8aa4a, 251, 6);
    assert CubeRootAt(0x5b9cca4f, 257, 6);
    assert CubeRootAt(0x682e6ff3, 263, 6);
  }

  lemma {:induction false} RootsRow7()
    ensures CubeRoots(K7, P7)
  {
    assert CubeRootAt(0x748f82ee, 269, 6);
    assert CubeRootAt(0x78a5636f, 271, 6);
    assert CubeRootAt(0x84c87814, 277, 6);
    assert CubeRootAt(0x8cc70208, 281, 6);
    assert CubeRootAt(0x90befffa, 283, 6);
    assert CubeRootAt(0xa4506ceb, 293, 6);
    assert CubeRootAt(0xbef9a3f7, 307, 6);
    assert CubeRootAt(0xc67178f2, 311, 6);
  }

  /** The round constants are the fractional parts of the cube roots of the first 64 primes. */
  lemma {:induction false} RoundConstants()
    ensures |K| == 64 && CubeRoots(K, PRIMES)
  {
    RootsRow0();
    RootsRow1();
    RootsRow2();
    RootsRow3();
    RootsRow4();
    RootsRow5();
    RootsRow6();
    RootsRow7();
    RootsJoin(K0, P0, K1, P1);
    RootsJoin(K0 + K1, P0 + P1, K2, P2);
    RootsJoin(K0 + K1 + K2, P0 + P1 + P2, K3, P3);
    RootsJoin(K0 + K1 + K2 + K3, P0 + P1 + P2 + P3, K4, P4);
    RootsJoin(K0 + K1 + K2 + K3 + K4, P0 + P1 + P2 + P3 + P4, K5, P5);
    RootsJoin(K0 + K1 + K2 + K3 + K4 + K5, P0 + P1 + P2 + P3 + P4 + P5, K6, P6);
    RootsJoin(K0 + K1 + K2 + K3 + K4 + K5 + K6, P0 + P1 + P2 + P3 + P4 + P5 + P6, K7, P7);
  }

  /** The initial hash is the fractional parts of the square roots of the first eight. */
  lemma {:induction false} InitialHash(i: nat)
    requires i < 8
    ensures SquareRoot(H0[i], P0[i])
  {
    assert SquareRootAt(0x6a09e667, 2, 1);
    assert SquareRootAt(0xbb67ae85, 3, 1);
    assert SquareRootAt(0x3c6ef372, 5, 2);
    assert SquareRootAt(0xa54ff53a, 7, 2);
    assert SquareRootAt(0x510e527f, 11, 3);
    assert SquareRootAt(0x9b05688c, 13, 3);
    assert SquareRootAt(0x1f83d9ab, 17, 4);
    assert SquareRootAt(0x5be0cd19, 19, 4);
  }
}
