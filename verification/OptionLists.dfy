/** The option parser on every list of well-formed options (section 3.1 of RFC 793, section 2 of RFC 1323,
    sections 2 and 3 of RFC 2018), among them what `tcp_write_syn_options` puts into a SYN. */
module OptionLists {
  import opened Words
  import opened Sack
  import opened TcpOptions

  // ----- options on the wire

  datatype TcpOption =
    | MaxSegment(mss: u16)
    | Padding
    | SackPermitted
    | Timestamps(stamps: seq<u8>)
    | WindowScale(shift: u8)
    | Selected(blocks: seq<SackBlock>)

  predicate WellFormed(o: TcpOption) {
    match o
    case Timestamps(stamps) => |stamps| == 8
    case Selected(blocks) => |blocks| <= 4
    case _ => true
  }

  function Wire(o: TcpOption): seq<u8>
    requires WellFormed(o)
  {
    match o
    case MaxSegment(mss) => [2, 4, mss / 256, mss % 256]
    case Padding => [1]
    case SackPermitted => [4, 2]
    case Timestamps(stamps) => [8, 10] + stamps
    case WindowScale(shift) => [3, 3, shift]
    case Selected(blocks) => [5, 2 + 8 * |blocks|] + EncodeBlocks(blocks)
  }

  predicate AllFormed(os: seq<TcpOption>) {
    forall i :: 0 <= i < |os| ==> WellFormed(os[i])
  }

  function WireAll(os: seq<TcpOption>): seq<u8>
    requires AllFormed(os)
  {
    if os == [] then [] else Wire(os[0]) + WireAll(os[1..])
  }

  lemma {:induction false} WireCons(o: TcpOption, os: seq<TcpOption>)
    requires WellFormed(o) && AllFormed(os)
    ensures AllFormed([o] + os) && WireAll([o] + os) == Wire(o) + WireAll(os)
  {
    assert ([o] + os)[1..] == os;
  }

  // ----- what a list says

  /** The scale that the list leaves behind: the last one in it, at most fourteen. */
  function ScaleAfter(os: seq<TcpOption>, before: u8): u8
    decreases |os|
  {
    if os == [] then before
    else ScaleAfter(os[1..], if os[0].WindowScale? then Min(os[0].shift, 14) else before)
  }

  /** The blocks that the list leaves behind: those of the last SACK option in it. */
  function BlocksAfter(os: seq<TcpOption>, before: Option<seq<SackBlock>>): Option<seq<SackBlock>>
    decreases |os|
  {
    if os == [] then before
    else BlocksAfter(os[1..], if os[0].Selected? then Some(os[0].blocks) else before)
  }

  /** The parser shows these blocks, and that it has seen an option with them. */
  ghost predicate Shows(c: Cursor, blocks: Option<seq<SackBlock>>) {
    && |c.blocks| == 4 && (c.seen <==> blocks.Some?)
    && (blocks.Some? ==> c.nblocks == |blocks.value| <= 4 && c.blocks[..c.nblocks] == blocks.value)
  }

  // ----- one option

  /** The parser moves over one option and changes only what the option is about. */
  ghost predicate ReadsOne(c: Cursor, o: TcpOption, d: Cursor)
    requires WellFormed(o)
  {
    && d.ptr == c.ptr + |Wire(o)| && d.optlen == c.optlen - |Wire(o)|
    && d.sndScale == (if o.WindowScale? then Min(o.shift, 14) else c.sndScale)
    && (!o.Selected? ==> d.blocks == c.blocks && d.nblocks == c.nblocks && d.seen == c.seen)
    && (o.Selected? ==> Shows(d, Some(o.blocks)))
  }

  lemma {:induction false} AtFirst(mem: Memory, i: nat, bytes: seq<u8>)
    requires At(mem, i, bytes)
    ensures |bytes| > 0 ==> mem(i) == bytes[0]
    ensures |bytes| > 1 ==> mem(i + 1) == bytes[1]
    ensures |bytes| > 2 ==> mem(i + 2) == bytes[2]
  {
    if |bytes| > 0 {
      assert mem(i + 0) == bytes[0];
    }
  }

  lemma {:induction false} PlainParses(mem: Memory, c: Cursor, o: TcpOption)
    requires WellFormed(o) && !o.Selected? && At(mem, c.ptr, Wire(o))
    requires |c.blocks| == 4 && |Wire(o)| <= c.optlen < 40
    ensures ReadsOne(c, o, TcpOptions.Step(mem, c))
  {
    AtFirst(mem, c.ptr, Wire(o));
  }

  /** The step over a SACK option with `n` blocks. */
  lemma {:induction false} SackStep(mem: Memory, c: Cursor, n: nat)
    requires |c.blocks| == 4 && n <= 4 && 2 + 8 * n <= c.optlen
    requires mem(c.ptr) == 5 && mem(c.ptr + 1) == 2 + 8 * n
    ensures TcpOptions.Step(mem, c) == AfterSack(c, ReadBlocks(mem, c.ptr + 2, c.blocks, n), n)
  {
    assert BlockCount(2 + 8 * n) == n;
  }

  lemma {:induction false} SelectedParses(mem: Memory, c: Cursor, o: TcpOption)
    requires WellFormed(o) && o.Selected? && At(mem, c.ptr, Wire(o))
    requires |c.blocks| == 4 && |Wire(o)| <= c.optlen < 40
    ensures ReadsOne(c, o, TcpOptions.Step(mem, c))
  {
    var n := |o.blocks|;
    var table := ReadBlocks(mem, c.ptr + 2, c.blocks, n);
    assert TcpOptions.Step(mem, c) == AfterSack(c, table, n) && table[..n] == o.blocks by {
      BlocksLength(o.blocks);
      SackBytes(mem, c.ptr, o.blocks);
      SackStep(mem, c, n);
      BlocksRead(mem, c, o.blocks);
    }
    SackReadsOne(c, o, table);
  }

  function AfterSack(c: Cursor, table: seq<SackBlock>, n: nat): Cursor
    requires 2 + 8 * n <= c.optlen
  {
    c.(ptr := c.ptr + 2 + 8 * n, optlen := c.optlen - (2 + 8 * n), blocks := table, nblocks := n, seen := true)
  }

  lemma {:induction false} SackReadsOne(c: Cursor, o: TcpOption, table: seq<SackBlock>)
    requires WellFormed(o) && o.Selected? && |table| == 4 && table[..|o.blocks|] == o.blocks && 2 + 8 * |o.blocks| <= c.optlen
    ensures ReadsOne(c, o, AfterSack(c, table, |o.blocks|))
  {
    BlocksLength(o.blocks);
  }

  lemma {:induction false} SackBytes(mem: Memory, i: nat, bs: seq<SackBlock>)
    requires |bs| <= 4 && At(mem, i, [5, 2 + 8 * |bs|] + EncodeBlocks(bs))
    ensures mem(i) == 5 && mem(i + 1) == 2 + 8 * |bs| && At(mem, i + 2, EncodeBlocks(bs))
  {
    var head: seq<u8> := [5, 2 + 8 * |bs|];
    AtSplit(mem, i, head, EncodeBlocks(bs));
    AtFirst(mem, i, head);
  }

  lemma {:induction false} BlocksRead(mem: Memory, c: Cursor, bs: seq<SackBlock>)
    requires |c.blocks| == 4 && |bs| <= 4 && At(mem, c.ptr + 2, EncodeBlocks(bs))
    ensures ReadBlocks(mem, c.ptr + 2, c.blocks, |bs|)[..|bs|] == bs
  {
    ReadBlocksInverts(mem, c.ptr + 2, c.blocks, bs, |bs|);
    assert bs[..|bs|] == bs;
  }

  lemma {:induction false} OptionParses(mem: Memory, c: Cursor, o: TcpOption) returns (d: Cursor)
    requires WellFormed(o) && At(mem, c.ptr, Wire(o))
    requires |c.blocks| == 4 && |Wire(o)| <= c.optlen < 40
    ensures |d.blocks| == 4 && ReadsOne(c, o, d) && Parse(mem, c) == Parse(mem, d)
  {
    d := TcpOptions.Step(mem, c);
    if o.Selected? {
      SelectedParses(mem, c, o);
    } else {
      PlainParses(mem, c, o);
    }
  }

  // ----- lists

  /** The parser has read the list `os` from `c` on. */
  ghost predicate ReadsAll(c: Cursor, os: seq<TcpOption>, blocks: Option<seq<SackBlock>>, d: Cursor)
    requires AllFormed(os)
  {
    && d.ptr == c.ptr + |WireAll(os)| && d.optlen == c.optlen - |WireAll(os)|
    && d.sndScale == ScaleAfter(os, c.sndScale)
    && Shows(d, BlocksAfter(os, blocks))
  }

  /** Any list is read option by option, whatever follows it. */
  lemma {:induction false} ListParses(mem: Memory, c: Cursor, os: seq<TcpOption>, blocks: Option<seq<SackBlock>>) returns (d: Cursor)
    requires AllFormed(os) && At(mem, c.ptr, WireAll(os))
    requires Shows(c, blocks) && |WireAll(os)| <= c.optlen < 40
    ensures ReadsAll(c, os, blocks, d) && Parse(mem, c) == Parse(mem, d)
    decreases |os|
  {
    if os == [] {
      d := c;
    } else {
      var c1 := FrontParses(mem, c, os, blocks);
      d := ListParses(mem, c1, os[1..], if os[0].Selected? then Some(os[0].blocks) else blocks);
      ReadsMore(c, os, blocks, c1, d);
    }
  }

  lemma {:induction false} FrontParses(mem: Memory, c: Cursor, os: seq<TcpOption>, blocks: Option<seq<SackBlock>>) returns (c1: Cursor)
    requires os != [] && AllFormed(os) && At(mem, c.ptr, WireAll(os))
    requires Shows(c, blocks) && |WireAll(os)| <= c.optlen < 40
    ensures |c1.blocks| == 4 && Parse(mem, c) == Parse(mem, c1) && ReadsOne(c, os[0], c1)
    ensures Shows(c1, if os[0].Selected? then Some(os[0].blocks) else blocks)
    ensures At(mem, c1.ptr, WireAll(os[1..])) && |WireAll(os[1..])| <= c1.optlen < 40
  {
    AtSplit(mem, c.ptr, Wire(os[0]), WireAll(os[1..]));
    c1 := OptionParses(mem, c, os[0]);
  }

  lemma {:induction false} ReadsMore(c: Cursor, os: seq<TcpOption>, blocks: Option<seq<SackBlock>>, c1: Cursor, d: Cursor)
    requires os != [] && AllFormed(os) && ReadsOne(c, os[0], c1)
    requires ReadsAll(c1, os[1..], if os[0].Selected? then Some(os[0].blocks) else blocks, d)
    ensures ReadsAll(c, os, blocks, d)
  {
  }

  /** Every list of well-formed options of less than forty bytes, in any order and with any repetition: the
      last window scale is adopted, capped at fourteen; the blocks are those of the last SACK option, and
      are reported as seen exactly if there is one; the parser ends at the end of the list. A list of forty
      bytes is not read at all. */
  lemma {:induction false} ListTheorem(mem: Memory, os: seq<TcpOption>, before: u8)
    requires AllFormed(os) && At(mem, 0, WireAll(os)) && |WireAll(os)| <= 40
    ensures var r := Parse(mem, TcpOptions.Start(|WireAll(os)|, before));
      if |WireAll(os)| < 40
      then r.ptr == |WireAll(os)| && r.optlen == 0 && r.sndScale == ScaleAfter(os, before) && Shows(r, BlocksAfter(os, None))
      else r.ptr == 0 && r.sndScale == before && !r.seen
  {
    if |WireAll(os)| < 40 {
      var d := ListParses(mem, TcpOptions.Start(|WireAll(os)|, before), os, None);
    }
  }

  /** A SACK option with any length byte: as many blocks are read as lie entirely within the length, at most
      four, and the parser moves over exactly those. */
  lemma {:induction false} AnySackLength(mem: Memory, c: Cursor)
    requires |c.blocks| == 4 && mem(c.ptr) == 5
    ensures var d, len := TcpOptions.Step(mem, c), mem(c.ptr + 1);
      && d.nblocks <= 4 && (d.nblocks > 0 ==> 2 + 8 * d.nblocks <= len) && (d.nblocks == 4 || len < 2 + 8 * (d.nblocks + 1))
      && d.ptr == c.ptr + 2 + 8 * d.nblocks && d.seen && InPlace(mem, c.ptr + 2, d.blocks, d.nblocks)
  {
    var n := BlockCount(mem(c.ptr + 1));
    SackFields(mem, c);
    CountIs(mem(c.ptr + 1));
    AllInPlace(mem, c.ptr + 2, c.blocks, n);
  }

  lemma {:induction false} AllInPlace(mem: Memory, ptr: nat, table: seq<SackBlock>, n: nat)
    requires |table| == 4 && n <= 4
    ensures InPlace(mem, ptr, ReadBlocks(mem, ptr, table, n), n)
  {
    forall i | 0 <= i < n
      ensures ReadBlocks(mem, ptr, table, n)[i] == BlockAt(mem, ptr + 8 * i)
    {
      BlocksInPlace(mem, ptr, table, n, i);
    }
  }

  /** The first `n` entries are the blocks in memory. */
  ghost predicate InPlace(mem: Memory, ptr: nat, table: seq<SackBlock>, n: nat)
    requires n <= |table|
  {
    forall i :: 0 <= i < n ==> table[i] == BlockAt(mem, ptr + 8 * i)
  }

  lemma {:induction false} SackFields(mem: Memory, c: Cursor)
    requires |c.blocks| == 4 && mem(c.ptr) == 5
    ensures var d, n := TcpOptions.Step(mem, c), BlockCount(mem(c.ptr + 1));
      && d.nblocks == n && d.seen && d.ptr == c.ptr + 2 + 8 * n
      && d.blocks == ReadBlocks(mem, c.ptr + 2, c.blocks, n)
  {
  }

  lemma {:induction false} CountIs(len: u8)
    ensures var n := BlockCount(len);
      n <= 4 && (n > 0 ==> 2 + 8 * n <= len) && (n == 4 || len < 2 + 8 * (n + 1))
  {
  }

  lemma {:induction false} BlocksInPlace(mem: Memory, ptr: nat, table: seq<SackBlock>, n: nat, i: nat)
    requires |table| == 4 && i < n <= 4
    ensures ReadBlocks(mem, ptr, table, n)[i] == BlockAt(mem, ptr + 8 * i)
    decreases n
  {
    if i < n - 1 {
      BlocksInPlace(mem, ptr, table, n - 1, i);
    }
  }

  /** The kinds the parser knows. */
  predicate Known(kind: u8) {
    kind == 1 || kind == 2 || kind == 3 || kind == 4 || kind == 5 || kind == 8
  }

  /** At an unknown kind, the end-of-options kind 0 among them, the parser counts down without moving. */
  lemma {:induction false} UnknownParses(mem: Memory, c: Cursor)
    requires |c.blocks| == 4 && c.optlen < 40 && !Known(mem(c.ptr))
    ensures Parse(mem, c) == c.(optlen := 0)
    decreases c.optlen
  {
    if c.optlen > 0 {
      var c1 := c.(optlen := c.optlen - 1);
      assert TcpOptions.Step(mem, c) == c1 by {
        UnknownStep(mem, c);
      }
      assert Parse(mem, c) == Parse(mem, c1);
      UnknownParses(mem, c1);
    }
  }

  lemma {:induction false} UnknownStep(mem: Memory, c: Cursor)
    requires |c.blocks| == 4 && 0 < c.optlen && !Known(mem(c.ptr))
    ensures TcpOptions.Step(mem, c) == c.(optlen := c.optlen - 1)
  {
  }

  /** So whatever comes behind the first unknown kind is ignored, and what comes before it is read. */
  lemma {:induction false} UnknownEnds(mem: Memory, os: seq<TcpOption>, optlen: u8, before: u8)
    requires AllFormed(os) && At(mem, 0, WireAll(os)) && |WireAll(os)| <= optlen < 40 && !Known(mem(|WireAll(os)|))
    ensures var r := Parse(mem, TcpOptions.Start(optlen, before));
      r.ptr == |WireAll(os)| && r.optlen == 0 && r.sndScale == ScaleAfter(os, before) && Shows(r, BlocksAfter(os, None))
  {
    var d := ListParses(mem, TcpOptions.Start(optlen, before), os, None);
    UnknownParses(mem, d);
  }

  // ----- tcp_write_options

  /** The list that `tcp_write_options` writes: a padded window scale if one is allowed, and the padded blocks
      if the peer takes them, there are any, and the first one is in use. */
  function PendingList(p: Pending): seq<TcpOption> {
    ScaleList(p) + BlocksList(p)
  }

  function ScaleList(p: Pending): seq<TcpOption> {
    if p.wso then [Padding, WindowScale(p.rcvScale)] else []
  }

  function BlocksList(p: Pending): seq<TcpOption> {
    if p.sackOk && |p.sacks| > 0 && p.sacks[0].left != 0 then [Padding, Padding, Selected(p.sacks)] else []
  }

  lemma {:induction false} WireJoins(os: seq<TcpOption>, ps: seq<TcpOption>)
    requires AllFormed(os) && AllFormed(ps)
    ensures AllFormed(os + ps) && WireAll(os + ps) == WireAll(os) + WireAll(ps)
  {
    if os == [] {
      assert os + ps == ps;
    } else {
      assert (os + ps)[1..] == os[1..] + ps;
      WireJoins(os[1..], ps);
      ConcatAssociates(Wire(os[0]), WireAll(os[1..]), WireAll(ps));
    }
  }

  lemma {:induction false} WireTwo(o: TcpOption, o': TcpOption)
    requires WellFormed(o) && WellFormed(o')
    ensures AllFormed([o, o']) && WireAll([o, o']) == Wire(o) + Wire(o')
  {
    WireCons(o', []);
    WireCons(o, [o']);
    assert [o'] + [] == [o'] && [o] + [o'] == [o, o'];
  }

  lemma {:induction false} BlocksOnWire(bs: seq<SackBlock>)
    requires |bs| <= 4
    ensures AllFormed([Padding, Padding, Selected(bs)])
    ensures WireAll([Padding, Padding, Selected(bs)]) == [1, 1, 5, 2 + 8 * |bs|] + EncodeBlocks(bs)
  {
    var o := Selected(bs);
    WireTwo(Padding, o);
    WireCons(Padding, [Padding, o]);
    assert [Padding] + [Padding, o] == [Padding, Padding, o];
    var one, head: seq<u8>, body := Wire(Padding), [5, 2 + 8 * |bs|], EncodeBlocks(bs);
    assert Wire(o) == head + body;
    assert one + (one + (head + body)) == one + one + head + body by {
      ConcatAssociates(one, head, body);
      ConcatAssociates(one, one + head, body);
      ConcatAssociates(one, one, head);
    }
    assert one + one + head == [1, 1, 5, 2 + 8 * |bs|];
  }

  lemma {:induction false} ScaleOnWire(shift: u8)
    ensures AllFormed([Padding, WindowScale(shift)]) && WireAll([Padding, WindowScale(shift)]) == [1, 3, 3, shift]
  {
    WireTwo(Padding, WindowScale(shift));
  }

  /** What `tcp_write_options` writes is that list, so `ListTheorem` says how it is read. */
  lemma {:induction false} PendingOnWire(p: Pending)
    requires |p.sacks| <= 4
    ensures AllFormed(PendingList(p)) && Encode(p) == WireAll(PendingList(p))
  {
    ScaleOnWire(p.rcvScale);
    BlocksOnWire(p.sacks);
    WireJoins(ScaleList(p), BlocksList(p));
  }

  // ----- tcp_syn_options and tcp_write_syn_options

  function SynList(mss: u16, sack: bool): seq<TcpOption> {
    [MaxSegment(mss)] + SackTail(sack)
  }

  lemma {:induction false} SynListOnWire(mss: u16, sack: bool)
    ensures AllFormed(SynList(mss, sack))
    ensures WireAll(SynList(mss, sack)) == [2, 4, mss / 256, mss % 256] + if sack then [1, 1, 4, 2] else []
  {
    WireCons(MaxSegment(mss), SackTail(sack));
    SackTailOnWire();
  }

  function SackTail(sack: bool): seq<TcpOption> {
    if sack then [Padding, Padding, SackPermitted] else []
  }

  lemma {:induction false} SackTailOnWire()
    ensures WireAll(SackTail(true)) == [1, 1, 4, 2]
  {
    WireCons(SackPermitted, []);
    assert [SackPermitted] + [] == [SackPermitted];
    WireCons(Padding, [SackPermitted]);
    WireCons(Padding, [Padding, SackPermitted]);
    assert [Padding] + [Padding, SackPermitted] == SackTail(true) && [Padding] + [SackPermitted] == [Padding, SackPermitted];
  }

  /** `tcp_syn_options`: the length, which is what `tcp_write_syn_options` will fill. */
  method SynOptionsLen(mss: u16, sackOk: bool) returns (optlen: nat)
    ensures AllFormed(SynList(mss, sackOk)) && optlen == |WireAll(SynList(mss, sackOk))| && optlen % 4 == 0
  {
    SynListOnWire(mss, sackOk);
    optlen := 4;
    if sackOk {
      optlen := optlen + 1 * 2;
      optlen := optlen + 2;
    }
  }

  /** `tcp_write_syn_options`; the result is the header length in words of four bytes. */
  method WriteSynOptions(data: array<u8>, mss: u16, sack: bool, optlen: nat) returns (hl: nat)
    requires 8 <= data.Length
    modifies data
    ensures AllFormed(SynList(mss, sack)) && |WireAll(SynList(mss, sack))| <= 8
    ensures data[..|WireAll(SynList(mss, sack))|] == WireAll(SynList(mss, sack))
    ensures hl == 5 + optlen / 4
  {
    SynListOnWire(mss, sack);
    var i := Put(data, 0, [MSS, 4, mss / 256, mss % 256]);
    if sack {
      i := Put(data, i, [NOOP, NOOP, SACK_OK, 2]);
    }
    return 5 + optlen / 4;
  }

  /** A SYN of this stack, with any options behind it, is read as those options alone. */
  lemma {:induction false} SynParses(mem: Memory, mss: u16, sack: bool, os: seq<TcpOption>, before: u8)
    requires AllFormed(SynList(mss, sack) + os) && At(mem, 0, WireAll(SynList(mss, sack) + os))
    requires |WireAll(SynList(mss, sack) + os)| < 40
    ensures var n := |WireAll(SynList(mss, sack) + os)|;
      var r := Parse(mem, TcpOptions.Start(n, before));
      r.ptr == n && r.optlen == 0 && r.sndScale == ScaleAfter(os, before) && Shows(r, BlocksAfter(os, None))
  {
    ListTheorem(mem, SynList(mss, sack) + os, before);
    SilentFront(SynList(mss, sack), os, before);
  }

  /** Options that carry neither a scale nor blocks leave no trace. */
  lemma {:induction false} SilentFront(silent: seq<TcpOption>, os: seq<TcpOption>, before: u8)
    requires forall i :: 0 <= i < |silent| ==> !silent[i].WindowScale? && !silent[i].Selected?
    ensures ScaleAfter(silent + os, before) == ScaleAfter(os, before)
    ensures BlocksAfter(silent + os, None) == BlocksAfter(os, None)
  {
    if silent == [] {
      assert silent + os == os;
    } else {
      assert (silent + os)[1..] == silent[1..] + os;
      SilentFront(silent[1..], os, before);
    }
  }
}
