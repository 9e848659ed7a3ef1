/** A byte stream cut once and for all into non-empty chunks. A sender that never re-cuts its
    data produces exactly such a segmentation; `Off` gives the stream offset of a chunk. */
module Stream {
  import opened Words

  datatype Chunk = Chunk(payload: seq<byte>, psh: bool)

  function Flat(cs: seq<Chunk>): seq<byte> {
    if cs == [] then [] else Flat(cs[..|cs| - 1]) + cs[|cs| - 1].payload
  }

  function Off(cs: seq<Chunk>, i: nat): nat
    requires i <= |cs|
  {
    if i == 0 then 0 else Off(cs, i - 1) + |cs[i - 1].payload|
  }

  ghost predicate NonEmpty(cs: seq<Chunk>) {
    forall i :: 0 <= i < |cs| ==> cs[i].payload != []
  }

  lemma {:induction false} OffOfPrefix(cs: seq<Chunk>, ds: seq<Chunk>, i: nat)
    requires cs <= ds && i <= |cs|
    ensures Off(cs, i) == Off(ds, i)
  {
    if i > 0 {
      OffOfPrefix(cs, ds, i - 1);
    }
  }

  lemma {:induction false} FlatLength(cs: seq<Chunk>)
    ensures |Flat(cs)| == Off(cs, |cs|)
  {
    if cs != [] {
      var init := cs[..|cs| - 1];
      FlatLength(init);
      OffOfPrefix(init, cs, |init|);
    }
  }

  /** Chunks are laid out one after the other without overlap. */
  lemma {:induction false} OffOrdered(cs: seq<Chunk>, i: nat, j: nat)
    requires i < j <= |cs|
    ensures Off(cs, i) + |cs[i].payload| <= Off(cs, j)
    decreases j
  {
    if i < j - 1 {
      OffOrdered(cs, i, j - 1);
    }
  }

  lemma {:induction false} OffMonotone(cs: seq<Chunk>, i: nat, j: nat)
    requires i <= j <= |cs|
    ensures Off(cs, i) <= Off(cs, j)
  {
    if i < j {
      OffOrdered(cs, i, j);
    }
  }

  /** Offsets identify chunks and are ordered as the chunks are. */
  lemma {:induction false} OffCompare(cs: seq<Chunk>, i: nat, j: nat)
    requires NonEmpty(cs) && i <= |cs| && j <= |cs|
    ensures Off(cs, i) == Off(cs, j) <==> i == j
    ensures Off(cs, i) < Off(cs, j) <==> i < j
  {
    if i < j {
      OffOrdered(cs, i, j);
    } else if j < i {
      OffOrdered(cs, j, i);
    }
  }

  lemma {:induction false} FlatAppend(cs: seq<Chunk>, c: Chunk)
    ensures Flat(cs + [c]) == Flat(cs) + c.payload
  {
    assert (cs + [c])[..|cs|] == cs;
  }

  lemma {:induction false} FlatConcat(cs: seq<Chunk>, ds: seq<Chunk>)
    ensures Flat(cs + ds) == Flat(cs) + Flat(ds)
  {
    if ds == [] {
      assert cs + ds == cs;
    } else {
      var init := ds[..|ds| - 1];
      assert (cs + ds)[..|cs + ds| - 1] == cs + init;
      FlatConcat(cs, init);
    }
  }

  lemma {:induction false} FlatCons(c: Chunk, cs: seq<Chunk>)
    ensures Flat([c] + cs) == c.payload + Flat(cs)
  {
    FlatConcat([c], cs);
    assert [c][..0] == [];
    assert Flat([c]) == c.payload;
  }

  lemma {:induction false} FlatOfPrefix(cs: seq<Chunk>, ds: seq<Chunk>)
    requires cs <= ds
    ensures Flat(cs) <= Flat(ds)
  {
    assert ds == cs + ds[|cs|..];
    FlatConcat(cs, ds[|cs|..]);
  }
}
