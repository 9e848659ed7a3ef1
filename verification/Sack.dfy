/** Selective acknowledgement blocks built from the out-of-order queue (src/tcp.c,
    `tcp_calculate_sacks`; RFC 2018, section 4). */
module Sack {
  import opened Words
  import opened Stream
  import opened TcpData
  import opened Reassembly

  datatype SackBlock = SackBlock(left: u32, right: u32)

  /** An out-of-order queue of non-empty segments, sorted and without overlap. */
  ghost predicate Disjoint(q: seq<Skb>) {
    && (forall i :: 0 <= i < |q| ==> 0 < q[i].seqno < q[i].endSeq)
    && (forall i, j :: 0 <= i < j < |q| ==> q[i].endSeq <= q[j].seqno)
  }

  lemma {:induction false} HeldIsDisjoint(cs: seq<Chunk>, base: nat, acc: set<nat>, lo: nat)
    requires 0 < base && NonEmpty(cs) && Fits(cs, base)
    ensures Disjoint(Held(cs, base, acc, lo))
    decreases |cs| - lo
  {
    if lo < |cs| {
      HeldIsDisjoint(cs, base, acc, lo + 1);
      if lo in acc {
        var rest := Held(cs, base, acc, lo + 1);
        forall k | 0 <= k < |rest|
          ensures SkbAt(cs, base, lo).endSeq <= rest[k].seqno
        {
          HeldFrom(cs, base, acc, lo + 1, k);
        }
      }
    }
  }

  lemma {:induction false} HeldContains(cs: seq<Chunk>, base: nat, acc: set<nat>, lo: nat, i: nat)
    requires Fits(cs, base) && lo <= i < |cs| && i in acc
    ensures SkbAt(cs, base, i) in Held(cs, base, acc, lo)
    decreases i - lo
  {
    if lo < i {
      HeldContains(cs, base, acc, lo + 1, i);
    }
  }

  /** What `Calculate` asks for holds whenever the receive path calls it: after an out-of-order
      chunk has been queued, the queue is sorted without overlap and holds that chunk. */
  lemma {:induction false} QueueIsReady(cs: seq<Chunk>, base: nat, acc: set<nat>, n: nat, rx: Rx, i: nat)
    requires 0 < base && Reassembled(cs, base, acc, n, rx) && n < i < |cs| && rx.rcvWnd > 0
    ensures var q := DataQueue(rx, SkbAt(cs, base, i)).ofo;
      Disjoint(q) && SkbAt(cs, base, i) in q
  {
    DataQueueAccepts(cs, base, acc, n, rx, i);
    var n' := FirstMissing(cs, acc + {i}, n);
    OffCompare(cs, n, i);
    FirstMissingUnique(cs, acc + {i}, n, n);
    HeldIsDisjoint(cs, base, acc + {i}, n');
    HeldContains(cs, base, acc + {i}, n', i);
  }

  ghost predicate HasByte(s: Skb, x: int) {
    s.seqno <= x < s.endSeq
  }

  /** Byte `x` has been received out of order. */
  ghost predicate HeldByte(q: seq<Skb>, x: int) {
    exists i :: 0 <= i < |q| && HasByte(q[i], x)
  }

  ghost predicate InBlock(b: SackBlock, x: int) {
    b.left <= x < b.right
  }

  ghost predicate Covered(bs: seq<SackBlock>, x: int) {
    exists i :: 0 <= i < |bs| && InBlock(bs[i], x)
  }

  /** The two blocks have no byte in common. */
  ghost predicate Separate(a: SackBlock, b: SackBlock) {
    a.right <= b.left || b.right <= a.left
  }

  /** A block of held bytes. */
  ghost predicate Honest(q: seq<Skb>, b: SackBlock) {
    0 < b.left < b.right && forall x :: InBlock(b, x) ==> HeldByte(q, x)
  }

  function BlockOf(s: Skb): SackBlock {
    SackBlock(s.seqno, s.endSeq)
  }

  // ----- the blocks after `n` queued segments have been looked at

  ghost predicate Built(q: seq<Skb>, trigger: Skb, bs: seq<SackBlock>, n: nat) {
    && n <= |q| && bs != [] && bs[0] == BlockOf(trigger)
    && (forall i :: 0 <= i < |bs| ==> Honest(q, bs[i]))
    && (forall i :: 1 <= i < |bs| ==> Separate(bs[0], bs[i]))
    && (forall i, j :: 1 <= i < j < |bs| ==> bs[i].right < bs[j].left)
    && (forall i, m :: 1 <= i < |bs| && n <= m < |q| ==> bs[i].right <= q[m].seqno)
  }

  ghost predicate Complete(q: seq<Skb>, bs: seq<SackBlock>, n: nat)
    requires n <= |q|
  {
    forall m, x :: 0 <= m < n && HasByte(q[m], x) ==> Covered(bs, x)
  }

  lemma {:induction false} SegmentIsHonest(q: seq<Skb>, n: nat)
    requires Disjoint(q) && n < |q|
    ensures Honest(q, BlockOf(q[n]))
  {
    forall x | InBlock(BlockOf(q[n]), x)
      ensures HeldByte(q, x)
    {
      assert HasByte(q[n], x);
    }
  }

  /** A queued segment other than the trigger lies entirely on one side of it. */
  lemma {:induction false} ApartFromTrigger(q: seq<Skb>, trigger: Skb, n: nat)
    requires Disjoint(q) && trigger in q && n < |q|
    ensures (q[n].seqno >= trigger.seqno && q[n].endSeq <= trigger.endSeq) <==> BlockOf(q[n]) == BlockOf(trigger)
    ensures BlockOf(q[n]) != BlockOf(trigger) ==> q[n].endSeq <= trigger.seqno || trigger.endSeq <= q[n].seqno
  {
    var t :| 0 <= t < |q| && q[t] == trigger;
    if t < n {
      assert q[t].endSeq <= q[n].seqno;
    } else if n < t {
      assert q[n].endSeq <= q[t].seqno;
    }
  }

  lemma {:induction false} StartBlock(q: seq<Skb>, trigger: Skb, bs: seq<SackBlock>, n: nat)
    requires Disjoint(q) && trigger in q && n < |q| && BlockOf(q[n]) != BlockOf(trigger)
    requires Built(q, trigger, bs, n) && Complete(q, bs, n) && (|bs| > 1 ==> bs[|bs| - 1].right != q[n].seqno)
    ensures Built(q, trigger, bs + [BlockOf(q[n])], n + 1) && Complete(q, bs + [BlockOf(q[n])], n + 1)
  {
    assert Built(q, trigger, bs + [BlockOf(q[n])], n + 1) by {
      SegmentIsHonest(q, n);
      ApartFromTrigger(q, trigger, n);
    }
    StartComplete(q, bs, n);
  }

  lemma {:induction false} StartComplete(q: seq<Skb>, bs: seq<SackBlock>, n: nat)
    requires n < |q| && Complete(q, bs, n)
    ensures Complete(q, bs + [BlockOf(q[n])], n + 1)
  {
    var bs' := bs + [BlockOf(q[n])];
    forall m, x | 0 <= m < n + 1 && HasByte(q[m], x)
      ensures Covered(bs', x)
    {
      if m < n {
        assert Covered(bs, x);
        var i :| 0 <= i < |bs| && InBlock(bs[i], x);
        assert InBlock(bs'[i], x);
      } else {
        assert InBlock(bs'[|bs|], x);
      }
    }
  }

  lemma {:induction false} SkipTrigger(q: seq<Skb>, trigger: Skb, bs: seq<SackBlock>, n: nat)
    requires n < |q| && BlockOf(q[n]) == BlockOf(trigger)
    requires Built(q, trigger, bs, n) && Complete(q, bs, n)
    ensures Built(q, trigger, bs, n + 1) && Complete(q, bs, n + 1)
  {
    forall m, x | 0 <= m < n + 1 && HasByte(q[m], x)
      ensures Covered(bs, x)
    {
      if m == n {
        assert InBlock(bs[0], x);
      }
    }
  }

  lemma {:induction false} GrowBlock(q: seq<Skb>, trigger: Skb, bs: seq<SackBlock>, n: nat)
    requires Disjoint(q) && trigger in q && n < |q| && BlockOf(q[n]) != BlockOf(trigger)
    requires Built(q, trigger, bs, n) && Complete(q, bs, n)
    requires |bs| > 1 && bs[|bs| - 1].right == q[n].seqno
    ensures var k := |bs| - 1;
      var bs' := bs[k := bs[k].(right := q[n].endSeq)];
      Built(q, trigger, bs', n + 1) && Complete(q, bs', n + 1)
  {
    var k := |bs| - 1;
    var bs' := bs[k := bs[k].(right := q[n].endSeq)];
    ApartFromTrigger(q, trigger, n);
    forall x | InBlock(bs'[k], x)
      ensures HeldByte(q, x)
    {
      if x < q[n].seqno {
        assert InBlock(bs[k], x);
      } else {
        assert HasByte(q[n], x);
      }
    }
    forall m, x | 0 <= m < n + 1 && HasByte(q[m], x)
      ensures Covered(bs', x)
    {
      if m < n {
        assert Covered(bs, x);
        var i :| 0 <= i < |bs| && InBlock(bs[i], x);
        assert InBlock(bs'[i], x);
      } else {
        assert InBlock(bs'[k], x);
      }
    }
  }

  class SackTable {
    /** `tsk->sacks`, four entries, and `tsk->sacklen`. */
    const sacks: array<SackBlock>
    var sacklen: nat

    constructor ()
      ensures sacks.Length == 4 && sacklen == 0 && fresh(sacks)
    {
      sacks := new SackBlock[4](i => SackBlock(0, 0));
      sacklen := 0;
    }

    method Clear()
      requires sacks.Length == 4
      modifies this, sacks
      ensures sacklen == 0 && forall i :: 0 <= i < 4 ==> sacks[i] == SackBlock(0, 0)
    {
      for i := 0 to 4
        invariant forall j :: 0 <= j < i ==> sacks[j] == SackBlock(0, 0)
      {
        sacks[i] := SackBlock(0, 0);
      }
      sacklen := 0;
    }

    /** The body of the scan loop for a segment other than the trigger: open a new block or extend
        the current one. An entry of `sacks` that is not in use yet has left edge zero. */
    method Record(next: Skb, sb: nat) returns (sb': nat)
      requires sacks.Length == 4 && 1 <= sacklen < 4 && 0 < next.seqno
      requires sb == (if sacklen == 1 then 1 else sacklen - 1)
      requires forall i :: sacklen <= i < 4 ==> sacks[i] == SackBlock(0, 0)
      requires sacklen > 1 ==> sacks[sacklen - 1].left > 0
      modifies this, sacks
      ensures 1 < sacklen <= 4 && sb' == sacklen - 1
      ensures forall i :: sacklen <= i < 4 ==> sacks[i] == SackBlock(0, 0)
      ensures if old(sacklen) > 1 && old(sacks[sb].right) == next.seqno
        then sacks[..sacklen] == old(sacks[..sacklen])[sb := old(sacks[sb]).(right := next.endSeq)]
        else sacks[..sacklen] == old(sacks[..sacklen]) + [BlockOf(next)]
    {
      sb' := sb;
      if sacks[sb].left == 0 {
        sacks[sb] := BlockOf(next);
        sacklen := sacklen + 1;
      } else if sacks[sb].right == next.seqno {
        sacks[sb] := sacks[sb].(right := next.endSeq);
      } else {
        sb' := sacklen;
        sacks[sb'] := BlockOf(next);
        sacklen := sacklen + 1;
      }
    }

    /** The state of the scan after `n` queued segments. */
    ghost predicate Scanning(q: seq<Skb>, trigger: Skb, allowed: nat, sb: nat, n: nat)
      reads this, sacks
    {
      && sacks.Length == 4 && n <= |q| && 1 <= sacklen <= Max(1, allowed) <= 4
      && sb == (if sacklen == 1 then 1 else sacklen - 1)
      && (forall i :: sacklen <= i < 4 ==> sacks[i] == SackBlock(0, 0))
      && Built(q, trigger, sacks[..sacklen], n)
      && Complete(q, sacks[..sacklen], n)
    }

    /** One round of the scan: skip the trigger, stop at the limit, or record the segment. */
    method Look(q: seq<Skb>, trigger: Skb, allowed: nat, sb: nat, n: nat) returns (sb': nat, stop: bool)
      requires Disjoint(q) && trigger in q && n < |q| && Scanning(q, trigger, allowed, sb, n)
      modifies this, sacks
      ensures Scanning(q, trigger, allowed, sb', if stop then n else n + 1)
      ensures stop ==> sacklen >= allowed
    {
      var next := q[n];
      ApartFromTrigger(q, trigger, n);
      ghost var bs := sacks[..sacklen];
      if next.seqno >= trigger.seqno && next.endSeq <= trigger.endSeq {
        SkipTrigger(q, trigger, bs, n);
        return sb, false;
      }
      if sacklen >= allowed {
        return sb, true;
      }
      if sacklen > 1 && bs[sacklen - 1].right == next.seqno {
        GrowBlock(q, trigger, bs, n);
      } else {
        StartBlock(q, trigger, bs, n);
      }
      assert Honest(q, bs[sacklen - 1]);
      sb' := Record(next, sb);
      return sb', false;
    }

    /** `tcp_calculate_sacks` after `trigger` went into the queue: the first block is the trigger;
        every block covers held bytes only; no two blocks share a byte; the others come in queue order with
        a gap between any two; the bytes at the front of the queue are covered, and when the limit was not
        reached, every held byte is. */
    method Calculate(q: seq<Skb>, trigger: Skb, allowed: nat)
      requires sacks.Length == 4 && Disjoint(q) && trigger in q && allowed <= 4
      modifies this, sacks
      ensures 1 <= sacklen <= Max(1, allowed) <= 4
      ensures var bs := sacks[..sacklen];
        && bs[0] == BlockOf(trigger)
        && (forall i :: 0 <= i < |bs| ==> Honest(q, bs[i]))
        && (forall i, j :: 0 <= i < j < |bs| ==> Separate(bs[i], bs[j]))
        && (forall i, j :: 1 <= i < j < |bs| ==> bs[i].right < bs[j].left)
        && (|bs| < allowed ==> forall x :: HeldByte(q, x) ==> Covered(bs, x))
        && (exists n :: 0 <= n <= |q| && (n < |q| ==> |bs| >= allowed) && Complete(q, bs, n))
    {
      Clear();
      sacks[0] := BlockOf(trigger);
      sacklen := 1;
      ghost var t :| 0 <= t < |q| && q[t] == trigger;
      SegmentIsHonest(q, t);
      assert sacks[..1] == [BlockOf(trigger)];
      var sb, n, stop := 1, 0, false;
      while n < |q| && !stop
        invariant Scanning(q, trigger, allowed, sb, n)
        invariant stop ==> sacklen >= allowed
        decreases |q| - n, !stop
      {
        sb, stop := Look(q, trigger, allowed, sb, n);
        if !stop {
          n := n + 1;
        }
      }
    }
  }
}
