/** TCP option encoding and parsing (src/tcp_output.c `tcp_options_len`, `tcp_write_options`;
    src/tcp_input.c `tcp_parse_opts`; RFC 2018 and RFC 1323). */
module TcpOptions {
  import opened Words
  import opened Sack

  const NOOP: u8 := 1
  const MSS: u8 := 2
  const WSO: u8 := 3
  const SACK_OK: u8 := 4
  const SACK: u8 := 5
  const TS: u8 := 8

  /** What the sender may put into a segment: a window scale and the pending SACK blocks. */
  datatype Pending = Pending(wso: bool, rcvScale: u8, sackOk: bool, sacks: seq<SackBlock>)

  /** The guard both functions share: there are blocks and the first one is in use. */
  predicate Selective(p: Pending) {
    p.sackOk && |p.sacks| > 0 && p.sacks[0].left != 0
  }

  // ----- length

  /** The padding loop: up to the next multiple of four. */
  method RoundUp(n: u8) returns (r: u8)
    requires n <= 40
    ensures r == (n + 3) / 4 * 4
  {
    r := n;
    while r % 4 > 0
      invariant n <= r <= (n + 3) / 4 * 4
      decreases 44 - r
    {
      r := r + 1;
    }
  }

  /** `tcp_options_len`: exactly the bytes that `tcp_write_options` will write. */
  method OptionsLen(p: Pending) returns (optlen: u8)
    requires |p.sacks| <= 4
    ensures optlen == |Encode(p)| && optlen % 4 == 0 && optlen <= 40
  {
    optlen := 0;
    if p.wso {
      optlen := optlen + 1 + 3;
    }
    if Selective(p) {
      BlocksLength(p.sacks);
      optlen := optlen + 2 + 2 + |p.sacks| * 8;
    }
    optlen := RoundUp(optlen);
  }

  // ----- encoding

  function EncodeBlocks(bs: seq<SackBlock>): seq<u8> {
    if bs == [] then [] else Be32(bs[0].left) + Be32(bs[0].right) + EncodeBlocks(bs[1..])
  }

  lemma {:induction false} BlocksLength(bs: seq<SackBlock>)
    ensures |EncodeBlocks(bs)| == 8 * |bs|
  {
    if bs != [] {
      BlocksLength(bs[1..]);
    }
  }

  function EncodeScale(p: Pending): seq<u8> {
    if p.wso then [NOOP, WSO, 3, p.rcvScale] else []
  }

  function EncodeSack(p: Pending): seq<u8>
    requires |p.sacks| <= 4
  {
    if Selective(p) then [NOOP, NOOP, SACK, 2 + 8 * |p.sacks|] + EncodeBlocks(p.sacks) else []
  }

  /** The option bytes `tcp_write_options` puts behind the header. */
  function Encode(p: Pending): seq<u8>
    requires |p.sacks| <= 4
  {
    EncodeScale(p) + EncodeSack(p)
  }

  /** Writing a run of bytes through a moving pointer. */
  method Put(data: array<u8>, ptr: nat, bytes: seq<u8>) returns (ptr': nat)
    requires ptr + |bytes| <= data.Length
    modifies data
    ensures ptr' == ptr + |bytes|
    ensures data[..ptr'] == old(data[..ptr]) + bytes
  {
    for i := 0 to |bytes|
      invariant data[..ptr + i] == old(data[..ptr]) + bytes[..i]
    {
      data[ptr + i] := bytes[i];
    }
    assert bytes[..|bytes|] == bytes;
    return ptr + |bytes|;
  }

  ghost function PendingIn(table: SackTable, wso: bool, rcvScale: u8, sackOk: bool): Pending
    reads table, table.sacks
    requires table.sacklen <= table.sacks.Length
  {
    Pending(wso, rcvScale, sackOk, table.sacks[..table.sacklen])
  }

  /** `tcp_write_options`: the bytes behind the header, and the table of blocks cleared once they have
      been written. */
  method WriteOptions(table: SackTable, wso: bool, rcvScale: u8, sackOk: bool, data: array<u8>) returns (n: nat)
    requires table.sacks.Length == 4 && table.sacklen <= 4
    requires |Encode(PendingIn(table, wso, rcvScale, sackOk))| <= data.Length
    modifies table, table.sacks, data
    ensures var p := old(PendingIn(table, wso, rcvScale, sackOk));
      && n == |Encode(p)| && data[..n] == Encode(p)
      && (if Selective(p) then table.sacklen == 0 && forall i :: 0 <= i < 4 ==> table.sacks[i] == SackBlock(0, 0)
          else table.sacklen == old(table.sacklen) && table.sacks[..] == old(table.sacks[..]))
  {
    var p := Pending(wso, rcvScale, sackOk, table.sacks[..table.sacklen]);
    n := WritePending(p, data);
    if Selective(p) {
      table.Clear();
    }
  }

  /** The bytes for given options. */
  method WritePending(p: Pending, data: array<u8>) returns (n: nat)
    requires |p.sacks| <= 4 && |Encode(p)| <= data.Length
    modifies data
    ensures n == |Encode(p)| && data[..n] == Encode(p)
  {
    n := 0;
    if p.wso {
      n := Put(data, n, [NOOP, WSO, 3, p.rcvScale]);
    }
    ghost var scale := EncodeScale(p);
    assert data[..n] == scale;
    if Selective(p) {
      BlocksLength(p.sacks);
      n := Put(data, n, [NOOP, NOOP, SACK, 2 + 8 * |p.sacks|]);
      ghost var pre := data[..n];
      n := WriteBlocks(p.sacks, data, n);
      ConcatAssociates(scale, [NOOP, NOOP, SACK, 2 + 8 * |p.sacks|], EncodeBlocks(p.sacks));
    }
  }

  method WriteBlocks(bs: seq<SackBlock>, data: array<u8>, ptr: nat) returns (n: nat)
    requires ptr + |EncodeBlocks(bs)| <= data.Length
    modifies data
    ensures n == ptr + |EncodeBlocks(bs)| && data[..n] == old(data[..ptr]) + EncodeBlocks(bs)
  {
    n := ptr;
    ghost var pre := data[..ptr];
    BlocksLength(bs);
    for i := 0 to |bs|
      invariant n == ptr + 8 * i
      invariant data[..n] == pre + EncodeBlocks(bs[..i])
    {
      EncodeOneMore(bs, i);
      ConcatAssociates(pre, EncodeBlocks(bs[..i]), Be32(bs[i].left) + Be32(bs[i].right));
      n := Put(data, n, Be32(bs[i].left) + Be32(bs[i].right));
    }
    assert bs[..|bs|] == bs;
  }

  lemma {:induction false} EncodeOneMore(bs: seq<SackBlock>, i: nat)
    requires i < |bs|
    ensures EncodeBlocks(bs[..i + 1]) == EncodeBlocks(bs[..i]) + (Be32(bs[i].left) + Be32(bs[i].right))
  {
    if i > 0 {
      EncodeOneMore(bs[1..], i - 1);
      assert bs[1..][..i] == bs[..i + 1][1..] && bs[1..][..i - 1] == bs[..i][1..];
    } else {
      assert bs[..1][1..] == [] && bs[..0] == [];
    }
  }

  // ----- parsing

  /** The memory behind the header, byte by byte. */
  type Memory = nat -> u8

  /** The parser's variables. `optlen` is an 8-bit counter; `blocks` are the four entries of
      `sack_blocks`. */
  datatype Cursor = Cursor(ptr: nat, optlen: u8, blocks: seq<SackBlock>, nblocks: nat, seen: bool, sndScale: u8)

  function Sub8(a: int, b: int): u8 {
    (a - b) % 256
  }

  lemma {:induction false} Sub8Twice(a: int, b: int, c: int)
    ensures Sub8(Sub8(a, b), c) == Sub8(a, b + c)
  {
  }

  function Be32At(mem: Memory, i: nat): u32 {
    mem(i) as int * 0x100_0000 + mem(i + 1) as int * 0x1_0000 + mem(i + 2) as int * 0x100 + mem(i + 3) as int
  }

  function BlockAt(mem: Memory, i: nat): SackBlock {
    SackBlock(Be32At(mem, i), Be32At(mem, i + 4))
  }

  /** `(sack_datalen - 2) / 8` with C's division, capped at four. */
  function BlockCount(datalen: u8): (n: nat)
    ensures n <= 4
  {
    if datalen < 2 then 0 else Min((datalen - 2) / 8, 4)
  }

  /** The first `n` entries overwritten by the blocks in memory. */
  function ReadBlocks(mem: Memory, ptr: nat, old_: seq<SackBlock>, n: nat): (bs: seq<SackBlock>)
    requires |old_| == 4 && n <= 4
    ensures |bs| == 4
  {
    if n == 0 then old_ else ReadBlocks(mem, ptr, old_, n - 1)[n - 1 := BlockAt(mem, ptr + 8 * (n - 1))]
  }

  /** One option. An unknown kind lowers the counter without moving the pointer. */
  function Step(mem: Memory, c: Cursor): (c': Cursor)
    requires |c.blocks| == 4
    ensures |c'.blocks| == 4
  {
    var kind := mem(c.ptr);
    if kind == MSS then c.(ptr := c.ptr + 4, optlen := Sub8(c.optlen, 4))
    else if kind == NOOP then c.(ptr := c.ptr + 1, optlen := Sub8(c.optlen, 1))
    else if kind == SACK_OK then c.(ptr := c.ptr + 2, optlen := Sub8(c.optlen, 2))
    else if kind == SACK then
      var n := BlockCount(mem(c.ptr + 1));
      c.(ptr := c.ptr + 2 + 8 * n, optlen := Sub8(c.optlen, 2 + 8 * n),
         blocks := ReadBlocks(mem, c.ptr + 2, c.blocks, n), nblocks := n, seen := true)
    else if kind == TS then c.(ptr := c.ptr + 10, optlen := Sub8(c.optlen, 10))
    else if kind == WSO then
      c.(ptr := c.ptr + 3, optlen := Sub8(c.optlen, 3), sndScale := Min(mem(c.ptr + 2), 14))
    else c.(optlen := Sub8(c.optlen, 1))
  }

  predicate More(c: Cursor) {
    0 < c.optlen < 40
  }

  /** Every option shrinks the counter or makes it wrap to at least 222, which ends the loop. */
  lemma {:induction false} StepShrinks(mem: Memory, c: Cursor)
    requires |c.blocks| == 4 && More(c)
    ensures Step(mem, c).optlen < c.optlen || Step(mem, c).optlen >= 222
  {
  }

  function Parse(mem: Memory, c: Cursor): Cursor
    requires |c.blocks| == 4
    decreases if More(c) then c.optlen else 0
  {
    if !More(c) then c
    else
      StepShrinks(mem, c);
      Parse(mem, Step(mem, c))
  }

  function Start(optlen: u8, sndScale: u8): Cursor {
    Cursor(0, optlen, [SackBlock(0, 0), SackBlock(0, 0), SackBlock(0, 0), SackBlock(0, 0)], 0, false, sndScale)
  }

  /** `tcp_parse_opts`: terminates on any memory and any counter. */
  method ParseOpts(mem: Memory, optlen: u8, sndScale: u8) returns (c: Cursor)
    ensures c == Parse(mem, Start(optlen, sndScale))
    ensures !More(c)
  {
    c := Start(optlen, sndScale);
    while More(c)
      invariant |c.blocks| == 4
      invariant Parse(mem, c) == Parse(mem, Start(optlen, sndScale))
      decreases if More(c) then c.optlen else 0
    {
      StepShrinks(mem, c);
      if mem(c.ptr) == SACK {
        c := SackOption(mem, c);
      } else {
        c := Step(mem, c);
      }
    }
  }

  /** The SACK branch with its copy loop. */
  method SackOption(mem: Memory, c: Cursor) returns (c': Cursor)
    requires |c.blocks| == 4 && mem(c.ptr) == SACK
    ensures c' == Step(mem, c)
  {
    var n := BlockCount(mem(c.ptr + 1));
    var ptr, optlen, blocks := CopyBlocks(mem, c.ptr + 2, Sub8(c.optlen, 2), c.blocks, n);
    Sub8Twice(c.optlen, 2, 8 * n);
    c' := c.(ptr := ptr, optlen := optlen, blocks := blocks, nblocks := n, seen := true);
  }

  method CopyBlocks(mem: Memory, start: nat, left: u8, table: seq<SackBlock>, n: nat)
    returns (ptr: nat, optlen: u8, blocks: seq<SackBlock>)
    requires |table| == 4 && n <= 4
    ensures ptr == start + 8 * n && optlen == Sub8(left, 8 * n)
    ensures blocks == ReadBlocks(mem, start, table, n)
  {
    ptr, optlen, blocks := start, left, table;
    for i := 0 to n
      invariant ptr == start + 8 * i && optlen == Sub8(left, 8 * i)
      invariant blocks == ReadBlocks(mem, start, table, i)
    {
      blocks := blocks[i := BlockAt(mem, ptr)];
      ptr := ptr + 8;
      Sub8Twice(left, 8 * i, 8);
      optlen := Sub8(optlen, 8);
    }
  }

  // ----- writing and reading back

  ghost predicate At(mem: Memory, i: nat, bytes: seq<u8>) {
    forall k :: 0 <= k < |bytes| ==> mem(i + k) == bytes[k]
  }

  lemma {:induction false} AtSplit(mem: Memory, i: nat, a: seq<u8>, b: seq<u8>)
    requires At(mem, i, a + b)
    ensures At(mem, i, a) && At(mem, i + |a|, b)
  {
    forall k | 0 <= k < |a|
      ensures mem(i + k) == a[k]
    {
      assert (a + b)[k] == a[k];
    }
    forall k | 0 <= k < |b|
      ensures mem(i + |a| + k) == b[k]
    {
      assert (a + b)[|a| + k] == b[k] && mem(i + (|a| + k)) == b[k];
    }
  }

  lemma {:induction false} AtFour(mem: Memory, i: nat, a: u8, b: u8, c: u8, d: u8)
    requires At(mem, i, [a, b, c, d])
    ensures mem(i) == a && mem(i + 1) == b && mem(i + 2) == c && mem(i + 3) == d
  {
    var s := [a, b, c, d];
    assert mem(i + 0) == s[0] && mem(i + 1) == s[1] && mem(i + 2) == s[2] && mem(i + 3) == s[3];
  }

  lemma {:induction false} Be32Reads(mem: Memory, i: nat, x: u32)
    requires At(mem, i, Be32(x))
    ensures Be32At(mem, i) == x
  {
    AtFour(mem, i, x / 0x100_0000, x / 0x1_0000 % 256, x / 256 % 256, x % 256);
    Digits(x);
  }

  lemma {:induction false} Digits(x: u32)
    ensures x / 0x100_0000 * 0x100_0000 + x / 0x1_0000 % 256 * 0x1_0000 + x / 256 % 256 * 256 + x % 256 == x
  {
    var y := x / 256;
    var z := y / 256;
    assert x / 0x1_0000 == z && x / 0x100_0000 == z / 256;
  }

  /** Reading back gives the encoded blocks in the first entries. */
  lemma {:induction false} ReadBlocksInverts(mem: Memory, ptr: nat, table: seq<SackBlock>, bs: seq<SackBlock>, n: nat)
    requires |table| == 4 && n <= |bs| <= 4 && At(mem, ptr, EncodeBlocks(bs))
    ensures ReadBlocks(mem, ptr, table, n)[..n] == bs[..n]
  {
    if n > 0 {
      ReadBlocksInverts(mem, ptr, table, bs, n - 1);
      BlockReads(mem, ptr, bs, n - 1);
    }
  }

  lemma {:induction false} BlockReads(mem: Memory, ptr: nat, bs: seq<SackBlock>, i: nat)
    requires i < |bs| && At(mem, ptr, EncodeBlocks(bs))
    ensures BlockAt(mem, ptr + 8 * i) == bs[i]
    decreases i
  {
    var first := Be32(bs[0].left) + Be32(bs[0].right);
    AtSplit(mem, ptr, first, EncodeBlocks(bs[1..]));
    if i > 0 {
      BlockReads(mem, ptr + 8, bs[1..], i - 1);
    } else {
      AtSplit(mem, ptr, Be32(bs[0].left), Be32(bs[0].right));
      Be32Reads(mem, ptr, bs[0].left);
      Be32Reads(mem, ptr + 4, bs[0].right);
    }
  }

  /** The window scale option, read from its first byte. */
  lemma {:induction false} ScaleParses(mem: Memory, c: Cursor, scale: u8)
    requires |c.blocks| == 4 && 4 <= c.optlen < 40 && At(mem, c.ptr, [NOOP, WSO, 3, scale])
    ensures Parse(mem, c) == Parse(mem, c.(ptr := c.ptr + 4, optlen := c.optlen - 4, sndScale := Min(scale, 14)))
  {
    AtFour(mem, c.ptr, NOOP, WSO, 3, scale);
    var c1 := c.(ptr := c.ptr + 1, optlen := c.optlen - 1);
    assert Step(mem, c) == c1;
    var c2 := c1.(ptr := c.ptr + 4, optlen := c.optlen - 4, sndScale := Min(scale, 14));
    assert Step(mem, c1) == c2;
    assert Parse(mem, c) == Parse(mem, c1) == Parse(mem, c2);
  }

  lemma {:induction false} NoopParses(mem: Memory, c: Cursor)
    requires |c.blocks| == 4 && More(c) && mem(c.ptr) == NOOP
    ensures Parse(mem, c) == Parse(mem, c.(ptr := c.ptr + 1, optlen := c.optlen - 1))
  {
  }

  lemma {:induction false} TwoNoopsParse(mem: Memory, c: Cursor)
    requires |c.blocks| == 4 && 1 < c.optlen < 40 && mem(c.ptr) == mem(c.ptr + 1) == NOOP
    ensures Parse(mem, c) == Parse(mem, c.(ptr := c.ptr + 2, optlen := c.optlen - 2))
  {
    NoopParses(mem, c);
    NoopParses(mem, c.(ptr := c.ptr + 1, optlen := c.optlen - 1));
  }

  /** A SACK option whose blocks use up the counter ends the loop. */
  lemma {:induction false} LastSackParses(mem: Memory, c: Cursor, n: nat)
    requires |c.blocks| == 4 && n <= 4 && c.optlen == 2 + 8 * n
    requires mem(c.ptr) == SACK && mem(c.ptr + 1) == 2 + 8 * n
    ensures Parse(mem, c) == c.(ptr := c.ptr + 2 + 8 * n, optlen := 0,
      blocks := ReadBlocks(mem, c.ptr + 2, c.blocks, n), nblocks := n, seen := true)
  {
    var r := Step(mem, c);
    assert r.optlen == 0;
    assert Parse(mem, c) == Parse(mem, r) == r;
  }

  lemma {:induction false} SackParses(mem: Memory, c: Cursor, bs: seq<SackBlock>)
    requires |c.blocks| == 4 && |bs| <= 4 && c.optlen == 2 + 8 * |bs|
    requires mem(c.ptr) == SACK && mem(c.ptr + 1) == 2 + 8 * |bs| && At(mem, c.ptr + 2, EncodeBlocks(bs))
    ensures SackResult(bs, c.sndScale, Parse(mem, c))
  {
    LastSackParses(mem, c, |bs|);
    ReadBlocksInverts(mem, c.ptr + 2, c.blocks, bs, |bs|);
    assert bs[..|bs|] == bs;
  }

  ghost predicate SackResult(bs: seq<SackBlock>, sndScale: u8, r: Cursor) {
    r.nblocks == |bs| <= |r.blocks| && r.blocks[..|bs|] == bs && r.seen && r.sndScale == sndScale
  }

  /** The SACK option with its padding, at the end of the header. */
  lemma {:induction false} PaddedSackParses(mem: Memory, c: Cursor, bs: seq<SackBlock>)
    requires |c.blocks| == 4 && |bs| <= 4 && c.optlen == 4 + 8 * |bs| < 40
    requires At(mem, c.ptr, [NOOP, NOOP, SACK, 2 + 8 * |bs|]) && At(mem, c.ptr + 4, EncodeBlocks(bs))
    ensures SackResult(bs, c.sndScale, Parse(mem, c))
  {
    AtFour(mem, c.ptr, NOOP, NOOP, SACK, 2 + 8 * |bs|);
    var c2 := c.(ptr := c.ptr + 2, optlen := c.optlen - 2);
    assert Parse(mem, c) == Parse(mem, c2) by {
      TwoNoopsParse(mem, c);
    }
    SackParses(mem, c2, bs);
  }

  /** The receiver of `p` knows what its sender put in: the same blocks in the same order, and the
      window scale capped at fourteen. */
  ghost predicate Conveyed(p: Pending, before: u8, r: Cursor) {
    && r.seen == Selective(p)
    && (Selective(p) ==> r.nblocks == |p.sacks| <= |r.blocks| && r.blocks[..r.nblocks] == p.sacks)
    && r.sndScale == (if p.wso then Min(p.rcvScale, 14) else before)
  }

  /** Parsing what `tcp_write_options` wrote gives back what was written, unless the options fill
      all forty bytes, which the parser's `optlen < 40` refuses to look at. Exactly the combination of
      a window scale with four blocks is lost. */
  lemma {:induction false} OptionsRoundTrip(p: Pending, mem: Memory, before: u8)
    requires |p.sacks| <= 4 && At(mem, 0, Encode(p))
    ensures |Encode(p)| <= 40
    ensures Conveyed(p, before, Parse(mem, Start(|Encode(p)|, before)))
      <==> !(p.wso && Selective(p) && |p.sacks| == 4)
  {
    BlocksLength(p.sacks);
    var c := Start(|Encode(p)|, before);
    AtSplit(mem, 0, EncodeScale(p), EncodeSack(p));
    if |Encode(p)| < 40 {
      if p.wso {
        ScaleParses(mem, c, p.rcvScale);
        c := c.(ptr := 4, optlen := c.optlen - 4, sndScale := Min(p.rcvScale, 14));
      }
      if Selective(p) {
        AtSplit(mem, c.ptr, [NOOP, NOOP, SACK, 2 + 8 * |p.sacks|], EncodeBlocks(p.sacks));
        PaddedSackParses(mem, c, p.sacks);
      }
    }
  }
}
