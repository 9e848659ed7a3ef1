/** The streaming interface of apps/curl-verify/sha256.c. */
module Sha256Stream {
  import opened Words
  import opened BlockHash
  import opened Sha256

  /** The one-shot definition. */
  function Digest(ks: seq<u32>, h0: Hash, m: seq<u8>): seq<u8> {
    Serialize(Absorb(Compressor(ks), h0, Pad(m)))
  }

  lemma {:induction false} TakeMore(data: seq<u8>, i: nat, n: nat)
    requires i + n <= |data|
    ensures data[..i] + data[i..i + n] == data[..i + n]
  {
  }

  /** `sha256_ctx`; `blocks` records the blocks compressed so far. */
  class Context {
    /** The round constants and the initial hash value. */
    const k: seq<u32>
    ghost const h0: Hash
    var state: Hash
    /** A 64-bit counter of the bits fed in, which wraps around. */
    var bitlen: nat
    var block: array<u8>
    var blocklen: nat
    ghost var blocks: seq<Block>

    /** Everything fed in so far. */
    ghost function Message(): seq<u8>
      reads this, block
      requires block.Length == 64 && blocklen <= 64
    {
      Join(blocks) + block[..blocklen]
    }

    ghost predicate Absorbed()
      reads this, block
    {
      && block.Length == 64 && blocklen < 64
      && state == Fold(Compressor(k), h0, blocks)
    }

    ghost predicate Valid()
      reads this, block
    {
      Absorbed() && bitlen == Low64(8 * |Message()|)
    }

    /** `sha256_init` */
    constructor (constants: seq<u32>, initial: Hash)
      ensures Valid() && Message() == [] && fresh(block)
      ensures k == constants && h0 == initial
    {
      k, h0 := constants, initial;
      state := initial;
      bitlen, blocklen := 0, 0;
      block := new u8[64];
      blocks := [];
    }

    /** The copy into the block buffer. */
    method CopyIn(data: seq<u8>)
      requires blocklen + |data| <= block.Length
      modifies block
      ensures block[..blocklen + |data|] == old(block[..blocklen]) + data
    {
      for i := 0 to |data|
        invariant block[..blocklen + i] == old(block[..blocklen]) + data[..i]
      {
        block[blocklen + i] := data[i];
      }
      assert data[..|data|] == data;
    }

    /** One round of the `sha256_update` loop: fill the block, compress it when full. */
    method Feed(data: seq<u8>)
      requires Absorbed() && blocklen + |data| <= 64
      modifies this`state, this`blocklen, this`blocks, block
      ensures Absorbed() && Message() == old(Message()) + data
    {
      ghost var done := Join(blocks);
      ConcatAssociates(done, block[..blocklen], data);
      CopyIn(data);
      blocklen := blocklen + |data|;
      if blocklen == 64 {
        OneMoreBlock(Compressor(k), h0, blocks, block[..]);
        assert block[..64] == block[..];
        state := Transform(k, state, block[..]);
        blocks := blocks + [block[..]];
        blocklen := 0;
      }
    }

    /** The loop of `sha256_update`. */
    method FeedPieces(data: seq<u8>)
      requires Absorbed()
      modifies this`state, this`blocklen, this`blocks, block
      ensures Absorbed() && Message() == old(Message()) + data
    {
      ghost var before := Message();
      var i := 0;
      while i < |data|
        invariant 0 <= i <= |data|
        invariant Absorbed() && Message() == before + data[..i]
      {
        var fill := if 64 - blocklen > |data| - i then |data| - i else 64 - blocklen;
        ghost var piece := data[i..i + fill];
        Feed(data[i..i + fill]);
        ConcatAssociates(before, data[..i], piece);
        TakeMore(data, i, fill);
        i := i + fill;
      }
      assert data[..|data|] == data;
    }

    /** `sha256_update` */
    method Update(data: seq<u8>)
      requires Valid()
      modifies this`state, this`blocklen, this`bitlen, this`blocks, block
      ensures Valid() && Message() == old(Message()) + data
    {
      CountMore(|Message()|, |data|);
      bitlen := Low64(bitlen + 8 * |data|);
      FeedPieces(data);
    }

    /** The one bit and the zeros of the padding. */
    method PadBits()
      requires Valid()
      modifies this`state, this`blocklen, this`bitlen, this`blocks, block
      ensures Valid() && Message() == old(Message()) + [0x80] + ZeroBytes(FillLength(|old(Message())|))
    {
      ghost var m := Message();
      Update([0x80]);
      var padlen: nat := if blocklen > 56 then 120 - blocklen else 56 - blocklen;
      FillIsUnique(|m|, padlen, |blocks| + if blocklen > 56 then 2 else 1);
      if padlen > 0 {
        Update(ZeroBytes(padlen));
      } else {
        assert Message() + ZeroBytes(padlen) == Message();
      }
    }

    /** The padding of `sha256_final`, fed through `sha256_update`. */
    method PadOut()
      requires Valid()
      modifies this`state, this`blocklen, this`bitlen, this`blocks, block
      ensures Valid() && Message() == Pad(old(Message()))
    {
      LengthFieldWraps(8 * |Message()|);
      var field := LengthField(bitlen);
      PadBits();
      Update(field);
    }

    /** `sha256_final`: pads, ends on a block boundary, and returns the digest of everything fed
        in. */
    method Final() returns (hash: seq<u8>)
      requires Valid()
      modifies this`state, this`blocklen, this`bitlen, this`blocks, block
      ensures hash == Digest(k, h0, old(Message()))
      ensures blocklen == 0
    {
      var q := FillEnds(|Message()|);
      PadOut();
      BlockBoundary(q, |blocks|, blocklen);
      assert Message() == Join(blocks);
      AbsorbIsFold(Compressor(k), h0, blocks);
      hash := Serialize(state);
    }
  }

  function Concat(pieces: seq<seq<u8>>): seq<u8> {
    if pieces == [] then [] else Concat(pieces[..|pieces| - 1]) + pieces[|pieces| - 1]
  }

  /** Any sequence of update calls. */
  method FeedAll(ctx: Context, pieces: seq<seq<u8>>)
    requires ctx.Valid() && ctx.Message() == []
    modifies ctx`state, ctx`blocklen, ctx`bitlen, ctx`blocks, ctx.block
    ensures ctx.Valid() && ctx.Message() == Concat(pieces)
  {
    for i := 0 to |pieces|
      invariant ctx.Valid() && ctx.Message() == Concat(pieces[..i])
    {
      assert pieces[..i + 1][..i] == pieces[..i];
      ctx.Update(pieces[i]);
    }
    assert pieces[..|pieces|] == pieces;
  }

  /** However a message is cut into update calls, the digest is that of the whole message. */
  method HashPieces(pieces: seq<seq<u8>>) returns (hash: seq<u8>)
    ensures hash == Digest(K, H0, Concat(pieces))
  {
    var ctx := new Context(K, H0);
    FeedAll(ctx, pieces);
    hash := ctx.Final();
  }
}
