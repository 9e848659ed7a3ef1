/** Hashing by 64-byte blocks, for any compression function: padding a message and absorbing it
    (FIPS 180-4, sections 5.1.1, 5.2.1 and 6.2.2). */
module BlockHash {
  import opened Words

  type Hash = h: seq<u32> | |h| == 8 witness seq(8, i => 0)
  type Block = b: seq<u8> | |b| == 64 witness seq(64, i => 0)
  type Compression = (Hash, Block) -> Hash

  /** Compress the complete 64-byte blocks of `m`, front to back; an incomplete rest is ignored. */
  function Absorb(f: Compression, h: Hash, m: seq<u8>): Hash
    decreases |m|
  {
    if |m| < 64 then h else Absorb(f, f(h, m[..64]), m[64..])
  }

  // ----- padding

  /** The low `n` bytes of a number, most significant first. */
  function BigEndianField(v: nat, n: nat): (f: seq<u8>)
    ensures |f| == n
    decreases n
  {
    if n == 0 then [] else BigEndianField(v / 256, n - 1) + [v % 256]
  }

  /** The 64-bit length field. */
  function LengthField(bits: nat): (f: seq<u8>)
    ensures |f| == 8
  {
    BigEndianField(bits, 8)
  }

  function Pow256(n: nat): nat {
    if n == 0 then 1 else 256 * Pow256(n - 1)
  }

  lemma {:induction false} MulAssociates(a: nat, b: nat, c: nat)
    ensures a * b * c == a * (b * c)
  {
  }

  lemma {:induction false} FieldWraps(v: nat, q: nat, n: nat)
    ensures BigEndianField(v + Pow256(n) * q, n) == BigEndianField(v, n)
    decreases n
  {
    if n > 0 {
      var p := Pow256(n - 1) * q;
      MulAssociates(256, Pow256(n - 1), q);
      FieldWraps(v / 256, q, n - 1);
      assert (v + 256 * p) / 256 == v / 256 + p && (v + 256 * p) % 256 == v % 256;
    }
  }

  lemma {:induction false} PowEight()
    ensures Pow256(8) == 0x1_0000_0000_0000_0000
  {
    assert Pow256(2) == 0x1_0000;
    assert Pow256(4) == 0x1_0000 * Pow256(2);
    assert Pow256(6) == 0x1_0000 * Pow256(4);
  }

  /** A 64-bit counter that wraps around yields the same field as an unbounded one. */
  lemma {:induction false} LengthFieldWraps(bits: nat)
    ensures LengthField(Low64(bits)) == LengthField(bits)
  {
    PowEight();
    FieldWraps(Low64(bits), bits / 0x1_0000_0000_0000_0000, 8);
  }

  /** The value of a 64-bit counter. */
  function Low64(x: nat): nat {
    x % 0x1_0000_0000_0000_0000
  }

  /** Counting `n` more bytes. */
  lemma {:induction false} CountMore(a: nat, n: nat)
    ensures Low64(Low64(8 * a) + 8 * n) == Low64(8 * (a + n))
  {
    Wraps64(Low64(8 * a) + 8 * n, 8 * a / 0x1_0000_0000_0000_0000);
  }

  lemma {:induction false} Wraps64(x: nat, k: nat)
    ensures (x + 0x1_0000_0000_0000_0000 * k) % 0x1_0000_0000_0000_0000 == x % 0x1_0000_0000_0000_0000
  {
  }

  function ZeroBytes(n: nat): (z: seq<u8>)
    ensures |z| == n
  {
    seq(n, i => 0)
  }

  /** The smallest number of zero bytes that fills the padding up to a block boundary. */
  function FillLength(n: nat): (k: nat)
    ensures k < 64
  {
    var r := n % 64;
    if r <= 55 then 55 - r else 119 - r
  }

  lemma {:induction false} FillIsUnique(n: nat, k: nat, q: nat)
    requires k < 64 && n + 9 + k == 64 * q
    ensures FillLength(n) == k
  {
    var d := FillLength(n) - k;
    assert d % 64 == 0 && -64 < d < 64;
  }

  lemma {:induction false} BlockBoundary(q: nat, p: nat, r: nat)
    requires 64 * q == 64 * p + r && r < 64
    ensures r == 0
  {
  }

  lemma {:induction false} FillEnds(n: nat) returns (q: nat)
    ensures n + 9 + FillLength(n) == 64 * q
  {
    var r := n % 64;
    q := if r <= 55 then n / 64 + 1 else n / 64 + 2;
  }

  /** The padded message: a one bit, zeros, and the length in bits. */
  function Pad(m: seq<u8>): (p: seq<u8>)
    ensures |p| == |m| + 9 + FillLength(|m|)
  {
    m + [0x80] + ZeroBytes(FillLength(|m|)) + LengthField(8 * |m|)
  }

  function Serialize(h: Hash): (d: seq<u8>)
    ensures |d| == 32
  {
    Be32(h[0]) + Be32(h[1]) + Be32(h[2]) + Be32(h[3]) +
    Be32(h[4]) + Be32(h[5]) + Be32(h[6]) + Be32(h[7])
  }

  // ----- whole blocks

  function Join(bs: seq<Block>): (m: seq<u8>)
    ensures |m| == 64 * |bs|
  {
    if bs == [] then [] else Join(bs[..|bs| - 1]) + bs[|bs| - 1]
  }

  function Fold(f: Compression, h: Hash, bs: seq<Block>): Hash {
    if bs == [] then h else f(Fold(f, h, bs[..|bs| - 1]), bs[|bs| - 1])
  }

  lemma {:induction false} AbsorbOneMore(f: Compression, h: Hash, a: seq<u8>, b: Block, n: nat)
    requires |a| == 64 * n
    ensures Absorb(f, h, a + b) == f(Absorb(f, h, a), b)
    decreases n
  {
    if n == 0 {
      assert a + b == b && b[..64] == b && b[64..] == [];
    } else {
      assert (a + b)[..64] == a[..64] && (a + b)[64..] == a[64..] + b;
      AbsorbOneMore(f, f(h, a[..64]), a[64..], b, n - 1);
    }
  }

  /** Absorbing whole blocks is folding the compression function over them. */
  lemma {:induction false} AbsorbIsFold(f: Compression, h: Hash, bs: seq<Block>)
    ensures Absorb(f, h, Join(bs)) == Fold(f, h, bs)
    decreases |bs|
  {
    if bs != [] {
      var n := |bs| - 1;
      AbsorbIsFold(f, h, bs[..n]);
      AbsorbOneMore(f, h, Join(bs[..n]), bs[n], n);
    }
  }

  lemma {:induction false} OneMoreBlock(f: Compression, h: Hash, bs: seq<Block>, b: Block)
    ensures Join(bs + [b]) == Join(bs) + b && Fold(f, h, bs + [b]) == f(Fold(f, h, bs), b)
  {
    assert (bs + [b])[..|bs|] == bs;
  }
}
