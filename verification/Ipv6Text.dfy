/** IPv6 addresses as text (src/ipv6.c; section 2.2 of RFC 4291). A C string is a Dafny string
    without its terminating NUL. */
module Ipv6Text {
  import opened Words

  // ----- hex groups

  predicate IsHex(c: char) {
    '0' <= c <= '9' || 'a' <= c <= 'f' || 'A' <= c <= 'F'
  }

  function HexVal(c: char): nat
    requires IsHex(c)
  {
    if c <= '9' then c as int - '0' as int
    else if c <= 'F' then c as int - 'A' as int + 10
    else c as int - 'a' as int + 10
  }

  predicate AllHex(s: string) {
    forall i :: 0 <= i < |s| ==> IsHex(s[i])
  }

  /** What `sscanf("%x")` reads from a string of hex digits. */
  function HexNumber(s: string): nat
    requires AllHex(s)
  {
    if s == "" then 0 else 16 * HexNumber(s[..|s| - 1]) + HexVal(s[|s| - 1])
  }

  function Pow16(n: nat): nat {
    if n == 0 then 1 else 16 * Pow16(n - 1)
  }

  lemma {:induction false} HexNumberBound(s: string)
    requires AllHex(s)
    ensures HexNumber(s) < Pow16(|s|)
    decreases |s|
  {
    if s != "" {
      HexNumberBound(s[..|s| - 1]);
    }
  }

  lemma {:induction false} HexNumberFits(s: string)
    requires AllHex(s) && |s| <= 4
    ensures HexNumber(s) < 0x1_0000
  {
    HexNumberBound(s);
    assert Pow16(1) == 16 && Pow16(2) == 256 && Pow16(3) == 4096 && Pow16(4) == 0x1_0000;
  }

  /** A written group: one to four hex digits. */
  predicate IsGroup(s: string) {
    1 <= |s| <= 4 && AllHex(s)
  }

  function GroupValue(s: string): u16
    requires IsGroup(s)
  {
    HexNumberFits(s);
    HexNumber(s)
  }

  /** `parse_hex_group` */
  method ParseHexGroup(s: string) returns (r: Option<u16>)
    ensures r == if IsGroup(s) then Some(GroupValue(s)) else None
  {
    if |s| <= 0 || |s| > 4 {
      return None;
    }
    for i := 0 to |s|
      invariant AllHex(s[..i])
    {
      if !IsHex(s[i]) {
        return None;
      }
    }
    assert s[..|s|] == s;
    var val := 0;
    for i := 0 to |s|
      invariant val == HexNumber(s[..i])
    {
      assert s[..i + 1][..i] == s[..i];
      val := 16 * val + HexVal(s[i]);
    }
    HexNumberFits(s);
    return Some(val);
  }

  // ----- the text between colons

  function SplitFrom(cur: string, s: string): (ps: seq<string>)
    ensures |ps| > 0
    decreases |s|
  {
    if s == "" then [cur]
    else if s[0] == ':' then [cur] + SplitFrom("", s[1..])
    else SplitFrom(cur + [s[0]], s[1..])
  }

  /** The pieces of `s` separated by colons; at least one. */
  function Split(s: string): (ps: seq<string>)
    ensures |ps| > 0
  {
    SplitFrom("", s)
  }

  function Init<T>(s: seq<T>): seq<T>
    requires s != []
  {
    s[..|s| - 1]
  }

  function Last<T>(s: seq<T>): T
    requires s != []
  {
    s[|s| - 1]
  }

  predicate AllGroups(ps: seq<string>) {
    forall i :: 0 <= i < |ps| ==> IsGroup(ps[i])
  }

  function Values(ps: seq<string>): (vs: seq<u16>)
    requires AllGroups(ps)
    ensures |vs| == |ps| && forall i :: 0 <= i < |ps| ==> vs[i] == GroupValue(ps[i])
  {
    seq(|ps|, i requires 0 <= i < |ps| => GroupValue(ps[i]))
  }

  /** A final colon is tolerated: an empty last piece does not count. */
  function Pieces(s: string): seq<string> {
    var ps := Split(s);
    if Last(ps) == "" then Init(ps) else ps
  }

  /** `strstr(s, "::")` */
  function FindDcolon(s: string): (d: Option<nat>)
    ensures d.Some? ==> d.value + 1 < |s| && s[d.value] == ':' && s[d.value + 1] == ':'
    ensures forall j :: 0 <= j && j + 1 < |s| && s[j] == ':' && s[j + 1] == ':' ==> d.Some? && d.value <= j
  {
    if |s| < 2 then None
    else if s[0] == ':' && s[1] == ':' then Some(0)
    else
      assert forall j :: 1 <= j && j + 1 < |s| && s[j] == ':' && s[j + 1] == ':' ==> s[1..][j - 1] == ':' && s[1..][j] == ':';
      match FindDcolon(s[1..])
      case None => None
      case Some(d) => Some(d + 1)
  }

  function Zeros(n: nat): seq<u16> {
    seq(n, i => 0)
  }

  /** The pieces `l`, a run of zeros and the pieces `r`, if that can be an address. */
  function Around(l: seq<string>, r: seq<string>): (a: Option<seq<u16>>)
    ensures a.Some? ==> |a.value| == 8
  {
    if AllGroups(l) && AllGroups(r) && |l| + |r| <= 8
    then Some(Values(l) + Zeros(8 - |l| - |r|) + Values(r))
    else None
  }

  function Whole(ps: seq<string>): (a: Option<seq<u16>>)
    ensures a.Some? ==> |a.value| == 8
  {
    if AllGroups(ps) && |ps| == 8 then Some(Values(ps)) else None
  }

  /** What `ipv6_parse_addr` accepts and returns: the groups before `::` without the last one, a
      run of zeros, and the groups after it. */
  function Parse(s: string): (r: Option<seq<u16>>)
    ensures r.Some? ==> |r.value| == 8
  {
    match FindDcolon(s)
    case None => Whole(Pieces(s))
    case Some(d) => Around(Init(Split(s[..d])), Pieces(s[d + 2..]))
  }

  /** One of the two scan loops: groups up to the last colon, and what is left behind it. */
  method ScanGroups(s: string) returns (ok: bool, groups: seq<u16>, rest: string)
    ensures ok <==> AllGroups(Init(Split(s))) && |Init(Split(s))| <= 8
    ensures ok ==> groups == Values(Init(Split(s))) && rest == Last(Split(s))
  {
    groups, rest := [], "";
    var start := 0;
    ghost var done: seq<string> := [];
    for p := 0 to |s|
      invariant start <= p && |done| == |groups| <= 8
      invariant Split(s) == done + SplitFrom(s[start..p], s[p..])
      invariant AllGroups(done) && groups == Values(done)
    {
      assert s[p..][1..] == s[p + 1..] && s[p..][0] == s[p];
      if s[p] == ':' {
        var g := ParseHexGroup(s[start..p]);
        assert Split(s) == done + [s[start..p]] + SplitFrom("", s[p + 1..]);
        assert Init(Split(s))[|done|] == s[start..p];
        if g.None? {
          return false, [], "";
        }
        done := done + [s[start..p]];
        groups := groups + [g.value];
        if |groups| > 8 {
          return false, [], "";
        }
        start := p + 1;
        assert s[start..p + 1] == "";
      } else {
        assert s[start..p] + [s[p]] == s[start..p + 1];
      }
    }
    assert s[start..|s|] == s[start..] && s[|s|..] == "";
    assert Split(s) == done + [s[start..]];
    assert Init(Split(s)) == done;
    return true, groups, s[start..];
  }

  /** A scan loop and the trailing group behind it. */
  method ScanAll(s: string) returns (ok: bool, groups: seq<u16>)
    ensures ok ==> AllGroups(Pieces(s)) && groups == Values(Pieces(s))
    ensures !ok ==> !AllGroups(Pieces(s)) || |Pieces(s)| > 8
  {
    var rest;
    ok, groups, rest := ScanGroups(s);
    assert Split(s) == Init(Split(s)) + [Last(Split(s))];
    if !ok {
      assert forall i :: 0 <= i < |Init(Split(s))| ==> Pieces(s)[i] == Init(Split(s))[i];
      return;
    }
    if rest != "" {
      var g := ParseHexGroup(rest);
      assert Last(Pieces(s)) == rest;
      if g.None? {
        return false, [];
      }
      groups := groups + [g.value];
    }
  }

  /** `ipv6_parse_addr`, up to the byte order of the result. */
  method ParseAddr(s: string) returns (r: Option<seq<u16>>)
    ensures r == Parse(s)
  {
    var d := FindDcolon(s);
    if d.None? {
      var ok, groups := ScanAll(s);
      return if ok && |groups| == 8 then Some(groups) else None;
    }
    r := ParseAround(s[..d.value], s[d.value + 2..]);
  }

  /** The two sides of `::`. */
  method ParseAround(a: string, b: string) returns (r: Option<seq<u16>>)
    ensures r == Around(Init(Split(a)), Pieces(b))
  {
    var okLeft, left, _ := ScanGroups(a);
    if !okLeft {
      return None;
    }
    var okRight, right := ScanAll(b);
    if !okRight || |left| + |right| > 8 {
      return None;
    }
    // The groups array starts zeroed; the right-hand groups go to its end.
    return Some(left + Zeros(8 - |left| - |right|) + right);
  }

  // ----- printing

  function HexDigit(v: nat): char
    requires v < 16
  {
    if v < 10 then (v + '0' as int) as char else (v - 10 + 'a' as int) as char
  }

  /** `%02x%02x` */
  function PrintGroup(hi: u8, lo: u8): string {
    [HexDigit(hi / 16), HexDigit(hi % 16), HexDigit(lo / 16), HexDigit(lo % 16)]
  }

  function Join(ps: seq<string>): string {
    if ps == [] then "" else if |ps| == 1 then ps[0] else ps[0] + ":" + Join(ps[1..])
  }

  function PrintedGroups(a: seq<u8>): (ps: seq<string>)
    requires |a| == 16
    ensures |ps| == 8
  {
    seq(8, i requires 0 <= i < 8 => PrintGroup(a[2 * i], a[2 * i + 1]))
  }

  /** `ipv6_addr_to_str` */
  function Print(a: seq<u8>): string
    requires |a| == 16
  {
    Join(PrintedGroups(a))
  }

  /** The network-order bytes that the parser stores. */
  function ToBytes(groups: seq<u16>): (a: seq<u8>)
    requires |groups| == 8
    ensures |a| == 16
  {
    seq(16, i requires 0 <= i < 16 => if i % 2 == 0 then groups[i / 2] / 256 else groups[i / 2] % 256)
  }

  // ----- splitting what was joined

  predicate NoColon(s: string) {
    ':' !in s
  }

  lemma {:induction false} SplitPrefix(cur: string, p: string, rest: string)
    requires NoColon(p)
    ensures SplitFrom(cur, p + rest) == SplitFrom(cur + p, rest)
    decreases |p|
  {
    if p == "" {
      assert p + rest == rest && cur + p == cur;
    } else {
      assert (p + rest)[0] == p[0] && (p + rest)[1..] == p[1..] + rest;
      SplitPrefix(cur + [p[0]], p[1..], rest);
      assert cur + [p[0]] + p[1..] == cur + p;
    }
  }

  lemma {:induction false} SplitOne(p: string)
    requires NoColon(p)
    ensures Split(p) == [p]
  {
    SplitPrefix("", p, "");
    assert p + "" == p && "" + p == p;
  }

  lemma {:induction false} SplitHead(p: string, t: string)
    requires NoColon(p)
    ensures Split(p + ":" + t) == [p] + Split(t)
  {
    var rest := ":" + t;
    assert p + ":" + t == p + rest;
    SplitPrefix("", p, rest);
    assert "" + p == p && rest[0] == ':' && rest[1..] == t;
  }

  lemma {:induction false} SplitJoin(ps: seq<string>)
    requires ps != [] && forall i :: 0 <= i < |ps| ==> NoColon(ps[i])
    ensures Split(Join(ps)) == ps
    decreases |ps|
  {
    if |ps| == 1 {
      SplitOne(ps[0]);
    } else {
      SplitJoin(ps[1..]);
      SplitHead(ps[0], Join(ps[1..]));
    }
  }

  lemma {:induction false} GroupsHaveNoColon(ps: seq<string>)
    requires AllGroups(ps)
    ensures forall i :: 0 <= i < |ps| ==> NoColon(ps[i])
  {
    forall i | 0 <= i < |ps|
      ensures NoColon(ps[i])
    {
      assert IsGroup(ps[i]);
    }
  }

  lemma {:induction false} PiecesJoin(ps: seq<string>)
    requires AllGroups(ps)
    ensures Pieces(Join(ps)) == ps
  {
    if ps != [] {
      GroupsHaveNoColon(ps);
      SplitJoin(ps);
      assert IsGroup(Last(ps));
    }
  }

  /** Joined groups neither contain a double colon nor end in a colon. */
  lemma {:induction false} JoinShape(ps: seq<string>)
    requires AllGroups(ps)
    ensures FindDcolon(Join(ps)) == None
    ensures ps != [] ==> Join(ps) != "" && Join(ps)[0] != ':' && Last(Join(ps)) != ':'
    decreases |ps|
  {
    if ps != [] {
      assert IsGroup(ps[0]);
      GroupsHaveNoColon(ps);
      if |ps| > 1 {
        var s, t := Join(ps), Join(ps[1..]);
        JoinShape(ps[1..]);
        assert s == ps[0] + ":" + t;
      }
    }
  }

  // ----- what the parser makes of a spelling

  /** Eight groups written out are read as they are. */
  lemma {:induction false} FullSpelling(ps: seq<string>)
    requires AllGroups(ps) && |ps| == 8
    ensures Parse(Join(ps)) == Some(Values(ps))
  {
    JoinShape(ps);
    PiecesJoin(ps);
  }

  function Compressed(l: seq<string>, r: seq<string>): string {
    Join(l) + "::" + Join(r)
  }

  lemma {:induction false} DcolonFound(a: string, b: string)
    requires FindDcolon(a) == None && (a == "" || Last(a) != ':')
    ensures FindDcolon(a + "::" + b) == Some(|a|)
    decreases |a|
  {
    var s := a + "::" + b;
    assert s[|a|] == ':' && s[|a| + 1] == ':';
  }

  lemma {:induction false} CompressedParts(l: seq<string>, r: seq<string>)
    requires AllGroups(l) && AllGroups(r)
    ensures var s, n := Compressed(l, r), |Join(l)|;
      && FindDcolon(s) == Some(n) && s[..n] == Join(l) && s[n + 2..] == Join(r)
      && Pieces(Join(r)) == r
      && Init(Split(Join(l))) == (if l == [] then [] else Init(l))
  {
    JoinShape(l);
    DcolonFound(Join(l), Join(r));
    PiecesJoin(r);
    if l != [] {
      GroupsHaveNoColon(l);
      SplitJoin(l);
    }
  }

  /** The exact result for any spelling with `::`: the group written right before it is dropped. */
  lemma {:induction false} CompressedSpelling(l: seq<string>, r: seq<string>)
    requires AllGroups(l) && AllGroups(r)
    ensures Parse(Compressed(l, r)) == Around(if l == [] then [] else Init(l), r)
  {
    CompressedParts(l, r);
  }

  /** The address a compressed spelling denotes (section 2.2 of RFC 4291). */
  function Meaning(l: seq<string>, r: seq<string>): seq<u16>
    requires AllGroups(l) && AllGroups(r) && |l| + |r| <= 8
  {
    Values(l) + Zeros(8 - |l| - |r|) + Values(r)
  }

  lemma {:induction false} ValuesLast(l: seq<string>)
    requires AllGroups(l) && l != []
    ensures Values(l) == Values(Init(l)) + [GroupValue(Last(l))]
  {
  }

  /** One more zero in place of `x` makes no difference exactly when `x` is zero. */
  lemma {:induction false} GapShows(a: seq<u16>, x: u16, z: nat, b: seq<u16>)
    ensures a + Zeros(z + 1) + b == a + [x] + Zeros(z) + b <==> x == 0
  {
    assert Zeros(z + 1) == [0] + Zeros(z);
    ConcatAssociates(a, [0], Zeros(z));
    var got, want := a + Zeros(z + 1) + b, a + [x] + Zeros(z) + b;
    assert got[|a|] == 0 && want[|a|] == x;
  }

  lemma {:induction false} DropIsSeen(l: seq<string>, r: seq<string>)
    requires AllGroups(l) && AllGroups(r) && |l| + |r| <= 8 && l != []
    ensures Around(Init(l), r) == Some(Meaning(l, r)) <==> GroupValue(Last(l)) == 0
  {
    var a, x, z := Values(Init(l)), GroupValue(Last(l)), 8 - |l| - |r|;
    assert Around(Init(l), r) == Some(a + Zeros(z + 1) + Values(r));
    assert Meaning(l, r) == a + [x] + Zeros(z) + Values(r) by {
      ValuesLast(l);
    }
    GapShows(a, x, z, Values(r));
  }

  /** A compressed spelling is read correctly exactly when `::` comes first or the group written
      right before it is zero. */
  lemma {:induction false} CompressedCorrectIff(l: seq<string>, r: seq<string>)
    requires AllGroups(l) && AllGroups(r) && |l| + |r| <= 8
    ensures Parse(Compressed(l, r)) == Some(Meaning(l, r)) <==> (l == [] || GroupValue(Last(l)) == 0)
  {
    CompressedSpelling(l, r);
    if l != [] {
      DropIsSeen(l, r);
    }
  }

  lemma {:induction false} Fe80()
    ensures IsGroup("fe80") && GroupValue("fe80") != 0 && IsGroup("1")
  {
    assert HexNumber("fe80") == 16 * HexNumber("fe80"[..3]) + 0;
    assert HexNumber("fe80"[..3]) == 16 * HexNumber("fe80"[..3][..2]) + 8;
  }

  /** The code reads fe80::1 as ::1, which is not what it means. */
  lemma {:induction false} LinkLocalIsMisread()
    ensures Parse("fe80::1") == Parse("::1") != None
    ensures IsGroup("fe80") && IsGroup("1") && Parse("fe80::1") != Some(Meaning(["fe80"], ["1"]))
  {
    Fe80();
    assert AllGroups(["fe80"]) && AllGroups(["1"]) && AllGroups([]);
    assert Compressed(["fe80"], ["1"]) == "fe80::1" && Compressed([], ["1"]) == "::1";
    CompressedSpelling(["fe80"], ["1"]);
    CompressedSpelling([], ["1"]);
    assert Init(["fe80"]) == [];
    CompressedCorrectIff(["fe80"], ["1"]);
  }

  // ----- printing and parsing

  lemma {:induction false} DigitReads(v: nat)
    requires v < 16
    ensures IsHex(HexDigit(v)) && HexVal(HexDigit(v)) == v
  {
  }

  function Word(hi: u8, lo: u8): u16 {
    256 * (hi as int) + lo as int
  }

  lemma {:induction false} PrintedGroupReads(hi: u8, lo: u8)
    ensures IsGroup(PrintGroup(hi, lo)) && GroupValue(PrintGroup(hi, lo)) == Word(hi, lo)
  {
    DigitReads(hi / 16);
    DigitReads(hi % 16);
    DigitReads(lo / 16);
    DigitReads(lo % 16);
    var s := PrintGroup(hi, lo);
    assert s[..3][..2] == s[..2] && s[..2][..1] == s[..1] && s[..1][..0] == "";
    assert HexNumber(s[..1]) == hi / 16;
    assert HexNumber(s[..2]) == hi;
    assert HexNumber(s[..3]) == 16 * hi + lo / 16;
  }

  lemma {:induction false} BytesOfWords(a: seq<u8>, groups: seq<u16>)
    requires |a| == 16 && |groups| == 8 && forall i :: 0 <= i < 8 ==> groups[i] == Word(a[2 * i], a[2 * i + 1])
    ensures ToBytes(groups) == a
  {
    var b := ToBytes(groups);
    forall i | 0 <= i < 16
      ensures b[i] == a[i]
    {
      assert groups[i / 2] == Word(a[2 * (i / 2)], a[2 * (i / 2) + 1]);
    }
  }

  /** Parsing the printed form of any address gives the address back. */
  lemma {:induction false} RoundTrip(a: seq<u8>)
    requires |a| == 16
    ensures Parse(Print(a)).Some? && ToBytes(Parse(Print(a)).value) == a
  {
    var ps := PrintedGroups(a);
    forall i | 0 <= i < 8
      ensures IsGroup(ps[i]) && GroupValue(ps[i]) == Word(a[2 * i], a[2 * i + 1])
    {
      PrintedGroupReads(a[2 * i], a[2 * i + 1]);
    }
    FullSpelling(ps);
    BytesOfWords(a, Values(ps));
  }

  // ----- a second double colon

  /** A colon at the start or right behind another colon leaves an empty piece before the last. */
  lemma {:induction false} EmptyPiece(cur: string, s: string, i: nat) returns (k: nat)
    requires i < |s| && s[i] == ':' && (if i == 0 then cur == "" else s[i - 1] == ':')
    ensures k < |SplitFrom(cur, s)| - 1 && SplitFrom(cur, s)[k] == ""
    decreases |s|
  {
    if i == 0 {
      k := 0;
    } else if s[0] == ':' {
      k := EmptyPiece("", s[1..], i - 1);
      k := k + 1;
    } else {
      k := EmptyPiece(cur + [s[0]], s[1..], i - 1);
    }
  }

  /** Any string with a second `::` behind the first is rejected. */
  lemma {:induction false} SecondDcolonRejected(s: string, j: nat)
    requires FindDcolon(s).Some? && FindDcolon(s).value < j && j + 1 < |s| && s[j] == ':' && s[j + 1] == ':'
    ensures Parse(s) == None
  {
    var d := FindDcolon(s).value;
    var t := s[d + 2..];
    var i := j - d - 1;
    assert t[i] == s[j + 1] && (i > 0 ==> t[i - 1] == s[j]);
    var k := EmptyPiece("", t, i);
    assert Pieces(t)[k] == "" && !IsGroup(Pieces(t)[k]);
  }
}
