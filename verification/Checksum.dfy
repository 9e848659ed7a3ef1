/** The Internet checksum of src/utils.c (RFC 1071) and the split computation that the TCP and IP
    layers share (src/tcp.c, src/ip_output.c, src/ipv6_output.c, src/icmpv6.c; section 8.1 of
    RFC 8200). Words are read as a little-endian host reads them. */
module Checksum {
  import opened Words

  function Word(lo: byte, hi: byte): u16 {
    lo as int + 256 * hi as int
  }

  /** The sum of all 16-bit words; an odd last byte counts as a word with a zero high byte. */
  function WordSum(s: seq<byte>): nat {
    if |s| == 0 then 0
    else if |s| == 1 then s[0] as int
    else Word(s[0], s[1]) + WordSum(s[2..])
  }

  /** The ones'-complement residue: zero only for zero, otherwise between 1 and 65535. */
  function Folded(sum: nat): u16 {
    if sum == 0 then 0 else (sum - 1) % 65535 + 1
  }

  function Complement(sum: nat): u16 {
    65535 - Folded(sum)
  }

  // ----- the code

  method SumEvery16Bits(s: seq<byte>) returns (sum: u32)
    ensures sum == Add32(0, WordSum(s))
  {
    sum := 0;
    var i := 0;
    while |s| - i > 1
      invariant 0 <= i <= |s|
      invariant Add32(sum, WordSum(s[i..])) == Add32(0, WordSum(s))
    {
      assert s[i..][2..] == s[i + 2..];
      Add32Twice(sum, Word(s[i], s[i + 1]), WordSum(s[i + 2..]));
      sum := Add32(sum, Word(s[i], s[i + 1]));
      i := i + 2;
    }
    if i < |s| {
      sum := Add32(sum, s[i] as int);
    }
  }

  lemma {:induction false} ModOfMultiple(x: nat, q: nat)
    ensures (x + 65535 * q) % 65535 == x % 65535
    decreases q
  {
    if q > 0 {
      ModOfMultiple(x, q - 1);
      assert x + 65535 * q == (x + 65535 * (q - 1)) + 65535;
    }
  }

  /** Folding the carries in keeps the residue. */
  lemma {:induction false} FoldStep(sum: nat)
    requires sum >= 0x1_0000
    ensures Folded(sum % 0x1_0000 + sum / 0x1_0000) == Folded(sum)
  {
    var r, q := sum % 0x1_0000, sum / 0x1_0000;
    ModOfMultiple(r + q - 1, q);
    assert sum - 1 == (r + q - 1) + 65535 * q;
  }

  /** The folding loop terminates and computes the residue. */
  method Fold(start: u32) returns (sum: u16)
    ensures sum == Folded(start)
  {
    var acc: u32 := start;
    while acc / 0x1_0000 != 0
      invariant Folded(acc) == Folded(start)
      decreases acc
    {
      FoldStep(acc);
      acc := acc % 0x1_0000 + acc / 0x1_0000;
    }
    sum := acc;
  }

  /** `checksum` */
  method InternetChecksum(s: seq<byte>, startSum: u32) returns (c: u16)
    ensures c == Complement(Add32(startSum, WordSum(s)))
  {
    var words := SumEvery16Bits(s);
    Add32Reduces(startSum, WordSum(s));
    var sum := Fold(Add32(startSum, words));
    c := 65535 - sum;
  }

  // ----- sums of parts

  lemma {:induction false} WordSumConcat(a: seq<byte>, b: seq<byte>)
    requires |a| % 2 == 0
    ensures WordSum(a + b) == WordSum(a) + WordSum(b)
    decreases |a|
  {
    if a == [] {
      assert a + b == b;
    } else {
      assert (a + b)[2..] == a[2..] + b;
      WordSumConcat(a[2..], b);
    }
  }

  lemma {:induction false} WordSumBound(s: seq<byte>)
    ensures 2 * WordSum(s) <= 65535 * (|s| + 1)
    decreases |s|
  {
    if |s| > 1 {
      WordSumBound(s[2..]);
    }
  }

  /** The message with the 16-bit value `v` stored at offset `i`. */
  function Store(m: seq<byte>, i: nat, v: u16): seq<byte>
    requires i + 1 < |m|
  {
    m[i := (v % 256) as byte][i + 1 := (v / 256) as byte]
  }

  lemma {:induction false} StoreAdds(m: seq<byte>, i: nat, v: u16)
    requires i % 2 == 0 && i + 1 < |m| && m[i] == 0 && m[i + 1] == 0
    ensures WordSum(Store(m, i, v)) == WordSum(m) + v
    decreases i
  {
    var m' := Store(m, i, v);
    if i == 0 {
      assert m'[2..] == m[2..];
    } else {
      StoreAdds(m[2..], i - 2, v);
      assert m'[2..] == Store(m[2..], i - 2, v);
    }
  }

  // ----- verification

  /** Adding the complement of a sum to it gives a sum whose complement is zero. */
  lemma {:induction false} ComplementCancels(sum: nat)
    ensures Complement(sum + Complement(sum)) == 0
  {
    if sum > 0 {
      var f := Folded(sum);
      var q := (sum - 1) / 65535;
      assert sum == 65535 * q + f;
      ModOfMultiple(65534, q);
      assert sum + Complement(sum) - 1 == 65534 + 65535 * q;
    }
  }

  /** Storing the checksum of a message of at most 65535 bytes in its zeroed, aligned checksum field
      makes the message verify: recomputing over everything gives zero. */
  lemma {:induction false} StoredChecksumVerifies(m: seq<byte>, i: nat, startSum: u32)
    requires i % 2 == 0 && i + 1 < |m| <= 65535 && m[i] == 0 && m[i + 1] == 0
    requires startSum < 0x7FFF_0000
    ensures var c := Complement(Add32(startSum, WordSum(m)));
      Complement(Add32(startSum, WordSum(Store(m, i, c)))) == 0
  {
    var sum := WordSum(m);
    assert startSum + sum + 65535 < 0x1_0000_0000 by {
      WordSumBound(m);
    }
    Add32Small(startSum, sum);
    var c := Complement(startSum + sum);
    StoreAdds(m, i, c);
    Add32Small(startSum, sum + c);
    ComplementCancels(startSum + sum);
  }

  // ----- the split over pseudo-header and segment

  const IP_TCP: byte := 6

  function Byte(v: nat): byte {
    (v % 256) as byte
  }

  /** Protocol and length part of the IPv4 pseudo-header. */
  function V4Tail(len: nat): seq<byte> {
    [0, IP_TCP, Byte(len / 256), Byte(len)]
  }

  /** Length and next-header part of the IPv6 pseudo-header. */
  function V6Tail(len: nat, nextHeader: byte): seq<byte> {
    [Byte(len / 0x100_0000), Byte(len / 0x1_0000), Byte(len / 256), Byte(len), 0, 0, 0, nextHeader]
  }

  lemma {:induction false} OneWord(lo: byte, hi: byte)
    ensures WordSum([lo, hi]) == lo as int + 256 * (hi as int)
  {
    assert [lo, hi][2..] == [];
  }

  lemma {:induction false} TwoWords(a: byte, b: byte, c: byte, d: byte)
    ensures WordSum([a, b, c, d]) == a as int + 256 * (b as int) + (c as int + 256 * (d as int))
  {
    OneWord(a, b);
    OneWord(c, d);
    assert [a, b, c, d] == [a, b] + [c, d];
    WordSumConcat([a, b], [c, d]);
  }

  lemma {:induction false} HighBytesZero(len: nat)
    requires len < 0x1_0000
    ensures Byte(len / 0x100_0000) == 0 && Byte(len / 0x1_0000) == 0
    ensures Byte(len / 256) as int == len / 256 && Byte(len) as int == len % 256
  {
  }

  /** What the two tails add to the sum, as the little-endian host sees it: the protocol number 6, or any next
      header, in the high byte of a word, and the length with its bytes swapped. */
  lemma {:induction false} TailSums(len: nat, nextHeader: byte)
    requires len < 0x1_0000
    ensures WordSum(V4Tail(len)) == 0x600 + len / 256 + 256 * (len % 256)
    ensures WordSum(V6Tail(len, nextHeader)) == 256 * (nextHeader as int) + len / 256 + 256 * (len % 256)
  {
    HighBytesZero(len);
    var hi, lo := Byte(len / 256), Byte(len);
    TwoWords(0, 6, hi, lo);
    TwoWords(0, 0, hi, lo);
    TwoWords(0, 0, 0, nextHeader);
    assert V6Tail(len, nextHeader) == [0, 0, hi, lo] + [0, 0, 0, nextHeader];
    WordSumConcat([0, 0, hi, lo], [0, 0, 0, nextHeader]);
  }

  method TcpV4Part(segment: seq<byte>) returns (csum: u32)
    ensures csum == Add32(WordSum(V4Tail(|segment|)), WordSum(segment))
  {
    csum := TailAndSegment(V4Tail(|segment|), segment);
  }

  method TcpV6Part(segment: seq<byte>) returns (csum: u32)
    ensures csum == Add32(WordSum(V6Tail(|segment|, IP_TCP)), WordSum(segment))
  {
    csum := TailAndSegment(V6Tail(|segment|, IP_TCP), segment);
  }

  method TailAndSegment(tail: seq<byte>, segment: seq<byte>) returns (csum: u32)
    ensures csum == Add32(WordSum(tail), WordSum(segment))
  {
    var a := SumEvery16Bits(tail);
    var b := SumEvery16Bits(segment);
    Add32Reduces(WordSum(tail), b);
    Add32Reduces(WordSum(tail), WordSum(segment));
    csum := Add32(a, b);
  }

  /** The address part, added where the addresses are known. */
  method AddressPart(saddr: seq<byte>, daddr: seq<byte>, csum: u32) returns (c: u16)
    ensures c == Complement(Add32(csum, WordSum(saddr + daddr)))
  {
    c := InternetChecksum(saddr + daddr, csum);
  }

  lemma {:induction false} SmallSums(saddr: seq<byte>, daddr: seq<byte>, tail: seq<byte>, segment: seq<byte>)
    requires |saddr + daddr| % 2 == 0 && |tail| % 2 == 0
    requires |saddr| + |daddr| + |tail| <= 40 && |segment| < 0x1_0000
    ensures WordSum(saddr + daddr + tail + segment) == WordSum(saddr + daddr) + WordSum(tail) + WordSum(segment)
    ensures WordSum(saddr + daddr + tail + segment) + 65535 < 0x1_0000_0000
  {
    WordSumConcat(saddr + daddr + tail, segment);
    WordSumConcat(saddr + daddr, tail);
    WordSumBound(saddr + daddr + tail + segment);
  }

  /** Summing the pseudo-header first is no different from summing it with the message. */
  lemma {:induction false} PseudoFirst(saddr: seq<byte>, daddr: seq<byte>, tail: seq<byte>, data: seq<byte>)
    requires |saddr + daddr| % 2 == 0 && |tail| % 2 == 0
    requires |saddr| + |daddr| + |tail| <= 40 && |data| < 0x1_0000
    ensures Add32(Add32(0, WordSum(saddr + daddr + tail)), WordSum(data)) == WordSum(saddr + daddr + tail + data)
  {
    SmallSums(saddr, daddr, tail, data);
    WordSumConcat(saddr + daddr, tail);
    Add32Small(0, WordSum(saddr + daddr + tail));
    Add32Small(WordSum(saddr + daddr + tail), WordSum(data));
  }

  method Icmpv6Checksum(saddr: seq<byte>, daddr: seq<byte>, data: seq<byte>) returns (c: u16)
    requires |saddr| == |daddr| == 16 && |data| < 0x1_0000
    ensures c == Complement(WordSum(saddr + daddr + V6Tail(|data|, 58) + data))
  {
    PseudoFirst(saddr, daddr, V6Tail(|data|, 58), data);
    var sum := SumEvery16Bits(saddr + daddr + V6Tail(|data|, 58));
    c := InternetChecksum(data, sum);
  }

  /** The TCP layer's part plus the IP layer's part is the checksum of the whole pseudo-header and
      segment, for any pseudo-header tail of even length. */
  lemma {:induction false} SplitIsWhole(saddr: seq<byte>, daddr: seq<byte>, tail: seq<byte>, segment: seq<byte>)
    requires |saddr + daddr| % 2 == 0 && |tail| % 2 == 0
    requires |saddr| + |daddr| + |tail| <= 40 && |segment| < 0x1_0000
    ensures Complement(Add32(Add32(WordSum(tail), WordSum(segment)), WordSum(saddr + daddr)))
         == Complement(WordSum(saddr + daddr + tail + segment))
  {
    SmallSums(saddr, daddr, tail, segment);
    Add32Small(WordSum(tail), WordSum(segment));
    Add32Small(WordSum(tail) + WordSum(segment), WordSum(saddr + daddr));
  }

  /** End to end: a TCP segment whose zeroed checksum field (offset 16) is filled by the split
      computation verifies against its pseudo-header at the receiver, over IPv4 and IPv6 alike. */
  lemma {:induction false} SegmentVerifies(saddr: seq<byte>, daddr: seq<byte>, tail: seq<byte>, segment: seq<byte>)
    requires |saddr + daddr| % 2 == 0 && |tail| % 2 == 0
    requires |saddr| + |daddr| + |tail| <= 40 && 20 <= |segment| < 0x1_0000
    requires segment[16] == 0 && segment[17] == 0
    ensures var c := Complement(Add32(Add32(WordSum(tail), WordSum(segment)), WordSum(saddr + daddr)));
      Complement(WordSum(saddr + daddr + tail + Store(segment, 16, c))) == 0
  {
    SplitIsWhole(saddr, daddr, tail, segment);
    SmallSums(saddr, daddr, tail, segment);
    var c := Complement(WordSum(saddr + daddr + tail + segment));
    StoreAdds(segment, 16, c);
    SmallSums(saddr, daddr, tail, Store(segment, 16, c));
    ComplementCancels(WordSum(saddr + daddr + tail + segment));
  }
}
