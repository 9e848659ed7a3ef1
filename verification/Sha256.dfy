/** SHA-256 (FIPS 180-4) as in apps/curl-verify/sha256.c: the compression function and its loops,
    and the streaming interface against the one-shot definition on the padded message. Words and
    bytes are numbers below 2^32 and 2^8; the bitwise operators are defined on their binary
    digits. */
module Sha256 {
  import opened Words
  import opened BlockHash

  // ----- bitwise operators on 32-bit words

  /** `x & y` */
  function AndBits(x: nat, y: nat): (r: nat)
    ensures r <= x
    decreases x
  {
    if x == 0 then 0 else 2 * AndBits(x / 2, y / 2) + if x % 2 == 1 && y % 2 == 1 then 1 else 0
  }

  /** `x | y` */
  function OrBits(x: nat, y: nat): nat
    decreases x + y
  {
    if x + y == 0 then 0 else 2 * OrBits(x / 2, y / 2) + if x % 2 == 1 || y % 2 == 1 then 1 else 0
  }

  /** `x ^ y` */
  function XorBits(x: nat, y: nat): nat
    decreases x + y
  {
    if x + y == 0 then 0 else 2 * XorBits(x / 2, y / 2) + (x + y) % 2
  }

  lemma {:induction false} BitsFit(x: nat, y: nat, n: nat)
    requires x < Pow2(n) && y < Pow2(n)
    ensures OrBits(x, y) < Pow2(n) && XorBits(x, y) < Pow2(n)
    decreases n
  {
    if n > 0 {
      BitsFit(x / 2, y / 2, n - 1);
    }
  }

  lemma {:induction false} Pow32()
    ensures Pow2(32) == 0x1_0000_0000
  {
    assert Pow2(8) == 256;
    assert Pow2(16) == 0x1_0000;
    assert Pow2(24) == 0x100_0000;
  }

  function And(x: u32, y: u32): u32 {
    AndBits(x, y)
  }

  function Xor(x: u32, y: u32): u32 {
    Pow32();
    BitsFit(x, y, 32);
    XorBits(x, y)
  }

  function Or(x: u32, y: u32): u32 {
    Pow32();
    BitsFit(x, y, 32);
    OrBits(x, y)
  }

  function Not(x: u32): u32 {
    0xFFFF_FFFF - x
  }

  /** `x >> n`, given p = 2^n. */
  function Shr(x: u32, p: u32): u32
    requires p > 0
  {
    x / p
  }

  /** `(x >> n) | (x << (32 - n))`, given p = 2^n and q = 2^(32-n). */
  function Rotr(x: u32, p: u32, q: u32): u32
    requires p > 0
  {
    Or(x / p, (x * q) % 0x1_0000_0000)
  }

  // ----- the compression function (sections 4.1.2, 4.2.2, 5.3.3 and 6.2.2)

  /** The round constants, by rows of eight. */
  const K0: seq<u32> := [0x428a2f98, 0x71374491, 0xb5c0fbcf, 0xe9b5dba5, 0x3956c25b, 0x59f111f1, 0x923f82a4, 0xab1c5ed5]
  const K1: seq<u32> := [0xd807aa98, 0x12835b01, 0x243185be, 0x550c7dc3, 0x72be5d74, 0x80deb1fe, 0x9bdc06a7, 0xc19bf174]
  const K2: seq<u32> := [0xe49b69c1, 0xefbe4786, 0x0fc19dc6, 0x240ca1cc, 0x2de92c6f, 0x4a7484aa, 0x5cb0a9dc, 0x76f988da]
  const K3: seq<u32> := [0x983e5152, 0xa831c66d, 0xb00327c8, 0xbf597fc7, 0xc6e00bf3, 0xd5a79147, 0x06ca6351, 0x14292967]
  const K4: seq<u32> := [0x27b70a85, 0x2e1b2138, 0x4d2c6dfc, 0x53380d13, 0x650a7354, 0x766a0abb, 0x81c2c92e, 0x92722c85]
  const K5: seq<u32> := [0xa2bfe8a1, 0xa81a664b, 0xc24b8b70, 0xc76c51a3, 0xd192e819, 0xd6990624, 0xf40e3585, 0x106aa070]
  const K6: seq<u32> := [0x19a4c116, 0x1e376c08, 0x2748774c, 0x34b0bcb5, 0x391c0cb3, 0x4ed8aa4a, 0x5b9cca4f, 0x682e6ff3]
  const K7: seq<u32> := [0x748f82ee, 0x78a5636f, 0x84c87814, 0x8cc70208, 0x90befffa, 0xa4506ceb, 0xbef9a3f7, 0xc67178f2]

  const K: seq<u32> := K0 + K1 + K2 + K3 + K4 + K5 + K6 + K7

  const H0: Hash := [
    0x6a09e667, 0xbb67ae85, 0x3c6ef372, 0xa54ff53a, 0x510e527f, 0x9b05688c, 0x1f83d9ab, 0x5be0cd19]

  function Ch(x: u32, y: u32, z: u32): u32 {
    Xor(And(x, y), And(Not(x), z))
  }

  function Maj(x: u32, y: u32, z: u32): u32 {
    Xor(Xor(And(x, y), And(x, z)), And(y, z))
  }

  function BigSigma0(x: u32): u32 {
    Xor(Xor(Rotr(x, 0x4, 0x40000000), Rotr(x, 0x2000, 0x80000)), Rotr(x, 0x400000, 0x400))
  }

  function BigSigma1(x: u32): u32 {
    Xor(Xor(Rotr(x, 0x40, 0x4000000), Rotr(x, 0x800, 0x200000)), Rotr(x, 0x2000000, 0x80))
  }

  function SmallSigma0(x: u32): u32 {
    Xor(Xor(Rotr(x, 0x80, 0x2000000), Rotr(x, 0x40000, 0x4000)), Shr(x, 0x8))
  }

  function SmallSigma1(x: u32): u32 {
    Xor(Xor(Rotr(x, 0x20000, 0x8000), Rotr(x, 0x80000, 0x2000)), Shr(x, 0x400))
  }

  function BigEndian(b0: u8, b1: u8, b2: u8, b3: u8): u32 {
    b0 as int * 0x100_0000 + b1 as int * 0x1_0000 + b2 as int * 0x100 + b3 as int
  }

  /** The next word of the message schedule after `ws`. */
  function NextWord(b: Block, ws: seq<u32>): u32 {
    var t := |ws|;
    if t < 16 then BigEndian(b[4 * t], b[4 * t + 1], b[4 * t + 2], b[4 * t + 3])
    else Add32(Add32(Add32(SmallSigma1(ws[t - 2]), ws[t - 7]), SmallSigma0(ws[t - 15])), ws[t - 16])
  }

  /** The first `t` words of the message schedule. */
  function Schedule(b: Block, t: nat): (ws: seq<u32>)
    ensures |ws| == t
  {
    if t == 0 then [] else
      var ws := Schedule(b, t - 1);
      ws + [NextWord(b, ws)]
  }

  /** One round on the eight working variables. */
  function Round(v: Hash, k: u32, w: u32): Hash {
    var t1 := Add32(Add32(Add32(Add32(v[7], BigSigma1(v[4])), Ch(v[4], v[5], v[6])), k), w);
    var t2 := Add32(BigSigma0(v[0]), Maj(v[0], v[1], v[2]));
    [Add32(t1, t2), v[0], v[1], v[2], Add32(v[3], t1), v[4], v[5], v[6]]
  }

  /** The working variables after one round per constant and schedule word. */
  function Rounds(v: Hash, ks: seq<u32>, ws: seq<u32>): Hash
    requires |ks| == |ws|
  {
    if ks == [] then v else
      var n := |ks| - 1;
      Round(Rounds(v, ks[..n], ws[..n]), ks[n], ws[n])
  }

  function AddHash(h: Hash, v: Hash): Hash {
    [Add32(h[0], v[0]), Add32(h[1], v[1]), Add32(h[2], v[2]), Add32(h[3], v[3]),
     Add32(h[4], v[4]), Add32(h[5], v[5]), Add32(h[6], v[6]), Add32(h[7], v[7])]
  }

  /** The compression function for a table of round constants; SHA-256 uses `K`. */
  function Compress(ks: seq<u32>, h: Hash, b: Block): Hash {
    AddHash(h, Rounds(h, ks, Schedule(b, |ks|)))
  }

  function Compressor(ks: seq<u32>): Compression {
    (h: Hash, b: Block) => Compress(ks, h, b)
  }

  // ----- the loops of sha256_transform

  lemma {:induction false} AddCommutes(a: u32, b: u32, c: u32, d: u32)
    ensures Add32(Add32(Add32(a, b), c), d) == Add32(Add32(Add32(d, c), b), a)
  {
    Add32Twice(Add32(a, b), c, d);
    Add32Twice(a, b, c + d);
    Add32Twice(Add32(d, c), b, a);
    Add32Twice(d, c, b + a);
  }

  lemma {:induction false} ScheduleGrows(b: Block, ws: seq<u32>)
    requires ws == Schedule(b, |ws|)
    ensures Schedule(b, |ws| + 1) == ws + [NextWord(b, ws)]
  {
  }

  /** One word of `w`: read from the block or derived from earlier words. */
  method ScheduleWord(b: Block, w: array<u32>, i: nat)
    requires i < w.Length && w[..i] == Schedule(b, i)
    modifies w
    ensures w[..i + 1] == Schedule(b, i + 1)
  {
    ghost var ws := w[..i];
    ScheduleGrows(b, ws);
    var x: u32;
    if i < 16 {
      x := BigEndian(b[4 * i], b[4 * i + 1], b[4 * i + 2], b[4 * i + 3]);
    } else {
      var t1 := SmallSigma0(w[i - 15]);
      var t2 := SmallSigma1(w[i - 2]);
      AddCommutes(w[i - 16], t1, w[i - 7], t2);
      x := Add32(Add32(Add32(w[i - 16], t1), w[i - 7]), t2);
    }
    w[i] := x;
    assert w[..i + 1] == ws + [x];
  }

  /** The two loops that fill `w`. */
  method ExpandSchedule(b: Block, n: nat) returns (w: array<u32>)
    ensures fresh(w) && w[..] == Schedule(b, n)
  {
    w := new u32[n](i => 0);
    for i := 0 to n
      invariant w[..i] == Schedule(b, i)
    {
      ScheduleWord(b, w, i);
    }
    assert w[..n] == w[..];
  }

  /** The body of the round loop: the eight working variables move one place. */
  method RoundStep(v: Hash, k: u32, w: u32) returns (v': Hash)
    ensures v' == Round(v, k, w)
  {
    var a, b, c, d := v[0], v[1], v[2], v[3];
    var e, f, g, h := v[4], v[5], v[6], v[7];
    var t1 := Add32(Add32(Add32(Add32(h, BigSigma1(e)), Ch(e, f, g)), k), w);
    var t2 := Add32(BigSigma0(a), Maj(a, b, c));
    h := g;
    g := f;
    f := e;
    e := Add32(d, t1);
    d := c;
    c := b;
    b := a;
    a := Add32(t1, t2);
    v' := [a, b, c, d, e, f, g, h];
  }

  method RoundLoop(state: Hash, ks: seq<u32>, ws: seq<u32>) returns (v: Hash)
    requires |ks| == |ws|
    ensures v == Rounds(state, ks, ws)
  {
    v := state;
    for i := 0 to |ks|
      invariant v == Rounds(state, ks[..i], ws[..i])
    {
      assert ks[..i + 1][..i] == ks[..i] && ws[..i + 1][..i] == ws[..i];
      v := RoundStep(v, ks[i], ws[i]);
    }
    assert ks[..|ks|] == ks && ws[..|ws|] == ws;
  }

  /** `sha256_transform` */
  method Transform(ks: seq<u32>, state: Hash, block: Block) returns (state': Hash)
    ensures state' == Compressor(ks)(state, block)
  {
    var w := ExpandSchedule(block, |ks|);
    var v := RoundLoop(state, ks, w[..]);
    state' := AddHash(state, v);
  }
}
