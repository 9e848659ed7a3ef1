/** The IPv6 routing table of src/route.c: longest-prefix match, insertion and path-MTU update. */
module Route6 {
  import opened Words

  type Addr = a: seq<u8> | |a| == 16 witness seq(16, i => 0)

  /** `v6` tells AF_INET6 entries from the AF_INET entries of the same list. */
  datatype Route = Route(v6: bool, dst: Addr, prefixLen: u8, pmtu: u16)

  // ----- agreement bit by bit

  /** `x >> n` */
  function Shr(x: nat, n: nat): (r: nat)
    ensures r <= x
  {
    if n == 0 then x else Shr(x, n - 1) / 2
  }

  /** `x << n` */
  function Shl(x: nat, n: nat): nat {
    if n == 0 then x else 2 * Shl(x, n - 1)
  }

  /** Bit `j` of a byte, the most significant first. */
  predicate BitOf(x: u8, j: nat)
    requires j < 8
  {
    Shr(x, 7 - j) % 2 == 1
  }

  /** `x & (uint8_t)(0xFF << n)`: the low `n` bits cleared. */
  function AndMask(x: u8, n: nat): nat {
    Shl(Shr(x, n), n)
  }

  predicate Bit(a: Addr, b: nat)
    requires b < 128
  {
    BitOf(a[b / 8], b % 8)
  }

  /** The first `len` bits of the two addresses are the same. */
  ghost predicate Agree(a: Addr, d: Addr, len: nat)
    requires len <= 128
  {
    forall b :: 0 <= b < len ==> Bit(a, b) == Bit(d, b)
  }

  /** The first `bits` bits of two bytes are the same. */
  predicate SameBits(x: u8, y: u8, bits: nat)
    requires bits <= 8
  {
    bits == 0 || (SameBits(x, y, bits - 1) && (BitOf(x, bits - 1) <==> BitOf(y, bits - 1)))
  }

  /** The number formed by the first `k` bits determines and is determined by them. */
  lemma {:induction false} LeadingBits(x: u8, y: u8, k: nat)
    requires 0 < k <= 8
    ensures Shr(x, 8 - k) == Shr(y, 8 - k) <==> SameBits(x, y, k)
    decreases k
  {
    if k > 1 {
      LeadingBits(x, y, k - 1);
      assert Shr(x, 8 - (k - 1)) == Shr(x, 8 - k) / 2 && Shr(y, 8 - (k - 1)) == Shr(y, 8 - k) / 2;
    } else {
      ShrHalves(x, 7, 128);
      ShrHalves(y, 7, 128);
    }
  }

  /** Shifting a number below 2 * w by log2 w leaves zero or one. */
  lemma {:induction false} ShrHalves(x: nat, n: nat, w: nat)
    requires w == Shl(1, n) && x < 2 * w
    ensures Shr(x, n) <= 1
    decreases n
  {
    if n > 0 {
      ShrOfHalf(x, n - 1);
      ShrHalves(x / 2, n - 1, Shl(1, n - 1));
    }
  }

  lemma {:induction false} ShrOfHalf(x: nat, n: nat)
    ensures Shr(x, n) / 2 == Shr(x / 2, n)
    decreases n
  {
    if n > 0 {
      ShrOfHalf(x, n - 1);
    }
  }

  lemma {:induction false} ShlInjective(x: nat, y: nat, n: nat)
    ensures Shl(x, n) == Shl(y, n) <==> x == y
    decreases n
  {
    if n > 0 {
      ShlInjective(x, y, n - 1);
    }
  }

  lemma {:induction false} MaskedBits(x: u8, y: u8, bits: nat)
    requires 0 < bits <= 8
    ensures AndMask(x, 8 - bits) == AndMask(y, 8 - bits) <==> SameBits(x, y, bits)
  {
    LeadingBits(x, y, bits);
    ShlInjective(Shr(x, 8 - bits), Shr(y, 8 - bits), 8 - bits);
  }

  /** Agreement up to the next bit position inside byte `i`. */
  lemma {:induction false} AgreeExtends(a: Addr, d: Addr, i: nat, bits: nat)
    requires i < 16 && bits <= 8
    ensures Agree(a, d, 8 * i + bits) <==> Agree(a, d, 8 * i) && SameBits(a[i], d[i], bits)
  {
    if bits > 0 {
      AgreeExtends(a, d, i, bits - 1);
      AgreeOneMore(a, d, 8 * i + bits - 1);
      assert (8 * i + bits - 1) / 8 == i && (8 * i + bits - 1) % 8 == bits - 1;
    }
  }

  lemma {:induction false} AgreeOneMore(a: Addr, d: Addr, b: nat)
    requires b < 128
    ensures Agree(a, d, b + 1) <==> Agree(a, d, b) && Bit(a, b) == Bit(d, b)
  {
  }

  // ----- the code

  /** The comparison inside `route6_lookup`: whole bytes first, then the masked rest. */
  method PrefixMatches(daddr: Addr, dst: Addr, prefixLen: u8) returns (ok: bool)
    requires prefixLen <= 128
    ensures ok <==> Agree(daddr, dst, prefixLen)
  {
    var bytes, bits := prefixLen / 8, prefixLen % 8;
    var i := 0;
    while i < bytes
      invariant 0 <= i <= bytes
      invariant Agree(daddr, dst, 8 * i)
    {
      AgreeExtends(daddr, dst, i, 8);
      LeadingBits(daddr[i], dst[i], 8);
      if daddr[i] != dst[i] {
        return false;
      }
      i := i + 1;
    }
    ok := true;
    if bits > 0 {
      MaskedBits(daddr[bytes], dst[bytes], bits);
      AgreeExtends(daddr, dst, bytes, bits);
      ok := AndMask(daddr[bytes], 8 - bits) == AndMask(dst[bytes], 8 - bits);
    }
  }

  // ----- longest-prefix match

  ghost predicate WellFormed(rs: seq<Route>) {
    forall i :: 0 <= i < |rs| && rs[i].v6 ==> rs[i].prefixLen <= 128
  }

  ghost predicate Matches(r: Route, a: Addr) {
    r.v6 && r.prefixLen <= 128 && Agree(a, r.dst, r.prefixLen)
  }

  /** `best` is the first entry of maximal prefix length among the matching ones, if any match. */
  ghost predicate IsBest(rs: seq<Route>, a: Addr, best: Option<nat>) {
    match best
    case None => forall i :: 0 <= i < |rs| ==> !Matches(rs[i], a)
    case Some(k) =>
      && k < |rs| && Matches(rs[k], a)
      && (forall i :: 0 <= i < |rs| && Matches(rs[i], a) ==> rs[i].prefixLen <= rs[k].prefixLen)
      && (forall i :: 0 <= i < k && Matches(rs[i], a) ==> rs[i].prefixLen < rs[k].prefixLen)
  }

  /** The answer is determined by the table. */
  lemma {:induction false} BestIsUnique(rs: seq<Route>, a: Addr, x: Option<nat>, y: Option<nat>)
    requires IsBest(rs, a, x) && IsBest(rs, a, y)
    ensures x == y
  {
    if x.Some? && y.Some? {
      assert Matches(rs[x.value], a) && Matches(rs[y.value], a);
    }
  }

  /** Appending an entry changes the answer for `a` exactly when the entry matches and is strictly
      longer than the previous answer, or nothing matched before. */
  lemma {:induction false} AppendChangesIff(rs: seq<Route>, r: Route, a: Addr, best: Option<nat>, best': Option<nat>)
    requires WellFormed(rs + [r]) && IsBest(rs, a, best) && IsBest(rs + [r], a, best')
    ensures best' != best <==> Matches(r, a) && (best.None? || r.prefixLen > rs[best.value].prefixLen)
    ensures best' == best || best' == Some(|rs|)
  {
    var rs' := rs + [r];
    assert forall i :: 0 <= i < |rs| ==> rs'[i] == rs[i];
    assert rs'[|rs|] == r;
    if Matches(r, a) && (best.None? || r.prefixLen > rs[best.value].prefixLen) {
      assert IsBest(rs', a, Some(|rs|));
      BestIsUnique(rs', a, Some(|rs|), best');
    } else {
      assert IsBest(rs', a, best);
      BestIsUnique(rs', a, best, best');
    }
  }

  class RouteTable {
    var routes: seq<Route>

    constructor ()
      ensures routes == []
    {
      routes := [];
    }

    /** `route6_add` appends. */
    method Add(dst: Addr, prefixLen: u8)
      requires WellFormed(routes) && prefixLen <= 128
      modifies this
      ensures WellFormed(routes) && routes == old(routes) + [Route(true, dst, prefixLen, 0)]
    {
      routes := routes + [Route(true, dst, prefixLen, 0)];
    }

    /** `route6_lookup` */
    method Lookup(daddr: Addr) returns (best: Option<nat>)
      requires WellFormed(routes)
      ensures IsBest(routes, daddr, best)
    {
      best := None;
      var bestLen := 0;
      for i := 0 to |routes|
        invariant IsBest(routes[..i], daddr, best)
        invariant best.Some? ==> bestLen == routes[best.value].prefixLen
      {
        assert routes[..i + 1] == routes[..i] + [routes[i]];
        var r := routes[i];
        if r.v6 {
          var ok := PrefixMatches(daddr, r.dst, r.prefixLen);
          if ok && (best.None? || r.prefixLen > bestLen) {
            best, bestLen := Some(i), r.prefixLen;
          }
        }
      }
      assert routes[..|routes|] == routes;
    }

    /** `route6_update_pmtu`: the entry that the lookup picks gets the MTU, at least 1280; every
        other entry, and so every lookup, is unaffected. */
    method UpdatePmtu(daddr: Addr, mtu: u16) returns (found: bool)
      requires WellFormed(routes)
      modifies this
      ensures found <==> !IsBest(old(routes), daddr, None)
      ensures !found ==> routes == old(routes)
      ensures found ==> (exists k: nat ::
          IsBest(old(routes), daddr, Some(k)) && routes == old(routes)[k := old(routes)[k].(pmtu := Max(mtu, 1280))])
      ensures forall a: Addr, b :: IsBest(routes, a, b) <==> IsBest(old(routes), a, b)
    {
      var m: u16 := if mtu < 1280 then 1280 else mtu;
      var rt := Lookup(daddr);
      if rt.None? {
        return false;
      }
      if IsBest(routes, daddr, None) {
        BestIsUnique(routes, daddr, None, rt);
      }
      SameAnswers(routes, rt.value, m);
      routes := routes[rt.value := routes[rt.value].(pmtu := m)];
      return true;
    }
  }

  lemma {:induction false} SameAnswers(rs: seq<Route>, k: nat, m: u16)
    requires k < |rs|
    ensures forall a: Addr, b :: IsBest(rs[k := rs[k].(pmtu := m)], a, b) <==> IsBest(rs, a, b)
  {
    var rs' := rs[k := rs[k].(pmtu := m)];
    forall a: Addr, b
      ensures IsBest(rs', a, b) <==> IsBest(rs, a, b)
    {
      assert forall i :: 0 <= i < |rs| ==> Matches(rs'[i], a) == Matches(rs[i], a) && rs'[i].prefixLen == rs[i].prefixLen;
    }
  }
}
