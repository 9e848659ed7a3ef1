/** The send path of src/tcp_output.c and the retransmission queue of src/tcp_input.c, as
    functions on the send-side fields. */
module TcpOutput {
  import opened Words
  import opened TcpData
  import opened Congestion

  datatype Tx = Tx(
    sndUna: u32,
    sndNxt: u32,
    sndWnd: u32,
    inflight: u32,
    queue: seq<Skb>,
    sackMaxRight: u32)

  /** A segment on the wire, as far as an established connection looks at it. */
  datatype Segment = Segment(seqno: u32, ackno: u32, win: u16, payload: seq<byte>, psh: bool)

  // ----- tcp_wait_snd_wnd and tcp_queue_transmit_skb

  predicate WindowOpen(tx: Tx, cc: Cc, bytes: nat) {
    Add32(tx.inflight, bytes) <= Min(cc.cwnd, tx.sndWnd)
  }

  function Enqueue(tx: Tx, payload: seq<byte>, psh: bool): Tx {
    var next := Add32(tx.sndNxt, |payload|);
    tx.(sndNxt := next,
        inflight := Add32(tx.inflight, |payload|),
        queue := tx.queue + [Skb(tx.sndNxt, next, payload, psh, false)])
  }

  // ----- tcp_clean_rto_queue

  /** How many segments at the front of the queue `una` acknowledges in full. */
  function Acked(q: seq<Skb>, una: u32): (k: nat)
    ensures k <= |q|
  {
    if q != [] && q[0].seqno > 0 && q[0].endSeq <= una then 1 + Acked(q[1..], una) else 0
  }

  /** `skb->dlen`, a 32-bit field. */
  function Dlen(s: Skb): u32 {
    |s.payload| % 0x1_0000_0000
  }

  function Lengths(q: seq<Skb>): (ls: seq<u32>)
    ensures |ls| == |q| && forall i :: 0 <= i < |q| ==> ls[i] == Dlen(q[i])
  {
    if q == [] then [] else [Dlen(q[0])] + Lengths(q[1..])
  }

  /** `inflight` after the front `k` segments left: each subtraction stops at zero. */
  function Settle(inflight: u32, q: seq<Skb>, k: nat): u32
    requires k <= |q|
    decreases k
  {
    if k == 0 then inflight
    else Settle(if inflight >= Dlen(q[0]) then inflight - Dlen(q[0]) else 0, q[1..], k - 1)
  }

  function Clean(tx: Tx, una: u32): Tx {
    var k := Acked(tx.queue, una);
    tx.(queue := tx.queue[k..], inflight := Settle(tx.inflight, tx.queue, k))
  }

  predicate StopsTimer(tx: Tx) {
    tx.queue == [] || tx.inflight == 0
  }

  // ----- tcp_send_next

  datatype NextResult = NextResult(tx: Tx, out: seq<Skb>)

  /** The scan from queue index `i`: only a buffer without a number is ever transmitted. */
  function SendNext(tx: Tx, cc: Cc, i: nat, amount: nat, extra: nat): NextResult
    requires i <= |tx.queue|
    decreases |tx.queue| - i
  {
    if i == |tx.queue| || i >= amount then NextResult(tx, [])
    else if tx.queue[i].seqno != 0 then SendNext(tx, cc, i + 1, amount, extra)
    else
      var s := tx.queue[i];
      if Add32(tx.inflight, |s.payload|) > Min(Add32(cc.cwnd, extra), tx.sndWnd) then NextResult(tx, [])
      else
        var tx' := Number(tx, i);
        var rest := SendNext(tx', cc, i + 1, amount, extra);
        NextResult(rest.tx, [tx'.queue[i]] + rest.out)
  }

  /** Buffer `i` gets the next number and counts as in flight. */
  function Number(tx: Tx, i: nat): (tx': Tx)
    requires i < |tx.queue|
    ensures |tx'.queue| == |tx.queue|
  {
    var s, next := tx.queue[i], Add32(tx.sndNxt, |tx.queue[i].payload|);
    tx.(queue := tx.queue[i := s.(seqno := tx.sndNxt, endSeq := next)], sndNxt := next,
        inflight := Add32(tx.inflight, |s.payload|))
  }

  /** Every buffer gets its number when it is queued, so `tcp_send_next` transmits nothing. */
  lemma {:induction false} SendNextIsIdle(tx: Tx, cc: Cc, i: nat, amount: nat, extra: nat)
    requires i <= |tx.queue| && Numbered(tx)
    ensures SendNext(tx, cc, i, amount, extra) == NextResult(tx, [])
    decreases |tx.queue| - i
  {
    if i < |tx.queue| && i < amount {
      SendNextIsIdle(tx, cc, i + 1, amount, extra);
    }
  }

  /** The buffers without a number among those from index `i` up to `amount`. */
  function Unsent(q: seq<Skb>, i: nat, amount: nat): seq<Skb>
    decreases |q| - i
  {
    if i >= |q| || i >= amount then []
    else (if q[i].seqno == 0 then [q[i]] else []) + Unsent(q, i + 1, amount)
  }

  lemma {:induction false} UnsentTail(q: seq<Skb>, r: seq<Skb>, i: nat, amount: nat)
    requires |q| == |r| && forall k :: i <= k < |q| ==> q[k] == r[k]
    ensures Unsent(q, i, amount) == Unsent(r, i, amount)
    decreases |q| - i
  {
    if i < |q| && i < amount {
      assert q[i] == r[i];
      UnsentTail(q, r, i + 1, amount);
      var first: seq<Skb> := if q[i].seqno == 0 then [q[i]] else [];
      assert Unsent(q, i, amount) == first + Unsent(q, i + 1, amount);
      assert Unsent(r, i, amount) == first + Unsent(r, i + 1, amount);
    }
  }

  /** Buffers numbered one after the other, from `a` up to `b`, with `n` bytes. */
  ghost predicate Consecutive(out: seq<Skb>, a: u32, b: u32, n: nat)
    decreases |out|
  {
    if out == [] then a == b && n == 0
    else
      && out[0].seqno == a && out[0].endSeq == Add32(a, |out[0].payload|)
      && n >= |out[0].payload| && Consecutive(out[1..], out[0].endSeq, b, n - |out[0].payload|)
  }

  /** The first of `u`, with what is on them unchanged. */
  ghost predicate FrontOfUnsent(out: seq<Skb>, u: seq<Skb>) {
    |out| <= |u| && forall k :: 0 <= k < |out| ==> out[k].payload == u[k].payload && out[k].psh == u[k].psh
  }

  /** On any queue `tcp_send_next` numbers and transmits buffers that have no number yet, in order, as long as
      they fit into the smaller of the two windows, and stops at the first one that does not. */
  ghost predicate SendsWhatFits(tx: Tx, u: seq<Skb>, wnd: int, r: NextResult) {
    && FrontOfUnsent(r.out, u)
    && (exists n: nat :: Consecutive(r.out, tx.sndNxt, r.tx.sndNxt, n) && r.tx.inflight == Add32(tx.inflight, n))
    && (r.out != [] ==> r.tx.inflight <= wnd)
    && (|r.out| < |u| ==> Add32(r.tx.inflight, |u[|r.out|].payload|) > wnd)
  }

  lemma {:induction false} SendNextLaw(tx: Tx, cc: Cc, i: nat, amount: nat, extra: nat)
    requires i <= |tx.queue|
    ensures SendsWhatFits(tx, Unsent(tx.queue, i, amount), Min(Add32(cc.cwnd, extra), tx.sndWnd), SendNext(tx, cc, i, amount, extra))
    decreases |tx.queue| - i
  {
    var wnd, u := Min(Add32(cc.cwnd, extra), tx.sndWnd), Unsent(tx.queue, i, amount);
    assert Consecutive([], tx.sndNxt, tx.sndNxt, 0);
    if i < |tx.queue| && i < amount {
      var s := tx.queue[i];
      if s.seqno != 0 {
        SendNextLaw(tx, cc, i + 1, amount, extra);
      } else if Add32(tx.inflight, |s.payload|) <= wnd {
        var tx' := Number(tx, i);
        SendNextLaw(tx', cc, i + 1, amount, extra);
        UnsentTail(tx.queue, tx'.queue, i + 1, amount);
        OneMoreSent(tx, tx'.queue[i], tx', u, wnd, SendNext(tx', cc, i + 1, amount, extra));
      }
    }
  }

  lemma {:induction false} OneMoreSent(tx: Tx, s: Skb, tx': Tx, u: seq<Skb>, wnd: int, r: NextResult)
    requires u != [] && SendsWhatFits(tx', u[1..], wnd, r)
    requires s.seqno == tx.sndNxt && s.payload == u[0].payload && s.psh == u[0].psh
    requires s.endSeq == tx'.sndNxt == Add32(tx.sndNxt, |s.payload|)
    requires tx'.inflight == Add32(tx.inflight, |s.payload|) <= wnd
    ensures SendsWhatFits(tx, u, wnd, NextResult(r.tx, [s] + r.out))
  {
    var n: nat :| Consecutive(r.out, tx'.sndNxt, r.tx.sndNxt, n) && r.tx.inflight == Add32(tx'.inflight, n);
    var out := [s] + r.out;
    assert out[1..] == r.out;
    Add32Twice(tx.inflight, |s.payload|, n);
    assert Consecutive(out, tx.sndNxt, r.tx.sndNxt, |s.payload| + n);
    assert FrontOfUnsent(out, u) by {
      forall k | 0 <= k < |out|
        ensures out[k].payload == u[k].payload && out[k].psh == u[k].psh
      {
        if k > 0 {
          assert out[k] == r.out[k - 1] && u[k] == u[1..][k - 1];
        }
      }
    }
    if |out| < |u| {
      assert u[|out|] == u[1..][|r.out|];
    }
    if r.out == [] {
      assert n == 0;
    }
  }

  // ----- retransmission

  function ClearSacked(q: seq<Skb>): (r: seq<Skb>)
    ensures |r| == |q| && forall i :: 0 <= i < |q| ==> r[i] == q[i].(sacked := false)
  {
    if q == [] then [] else [q[0].(sacked := false)] + ClearSacked(q[1..])
  }

  /** The first hole below the highest SACKed number, if any. */
  function FirstHole(q: seq<Skb>, right: u32): (i: nat)
    ensures i <= |q|
    ensures i < |q| ==> !q[i].sacked && q[i].endSeq <= right
    ensures forall j :: 0 <= j < i ==> q[j].sacked || q[j].endSeq > right
  {
    if q == [] || (!q[0].sacked && q[0].endSeq <= right) then 0 else 1 + FirstHole(q[1..], right)
  }

  /** The queue index `tcp_retransmit_candidate` picks. */
  function Candidate(tx: Tx): (i: nat)
    requires tx.queue != []
    ensures i < |tx.queue|
  {
    var i := FirstHole(tx.queue, tx.sackMaxRight);
    if tx.sackMaxRight > 0 && i < |tx.queue| then i else 0
  }

  // ----- the send-side invariant, for any peer

  /** The queue covers the numbers from `a` up to `b` without gap or overlap. */
  ghost predicate Covers(q: seq<Skb>, a: nat, b: nat)
    decreases |q|
  {
    if q == [] then a == b
    else q[0].seqno == a && q[0].payload != [] && q[0].endSeq == a + |q[0].payload| && Covers(q[1..], q[0].endSeq, b)
  }

  ghost function FrontOf(q: seq<Skb>, end: nat): nat {
    if q == [] then end else q[0].seqno
  }

  ghost function Front(tx: Tx): nat {
    FrontOf(tx.queue, tx.sndNxt)
  }

  /** Queued segments are contiguous and end at `snd_nxt`, and the bytes in flight are exactly
      theirs. The first unacknowledged number may lie below them all: a passive opener counts its SYN
      twice, so its first segment starts one above `snd_una`. */
  ghost predicate QueueInv(tx: Tx) {
    && 0 < Front(tx)
    && Covers(tx.queue, Front(tx), tx.sndNxt)
    && tx.sndUna <= tx.sndNxt
    && tx.inflight == tx.sndNxt - Front(tx)
  }

  /** And none of them is acknowledged in full, as long as the connection has not been aborted. */
  ghost predicate SendInv(tx: Tx) {
    QueueInv(tx) && (tx.queue != [] ==> tx.sndUna < tx.queue[0].endSeq)
  }

  /** Every queued buffer has a number. */
  ghost predicate Numbered(tx: Tx) {
    forall i :: 0 <= i < |tx.queue| ==> tx.queue[i].seqno != 0
  }

  lemma {:induction false} CoversOrdered(q: seq<Skb>, a: nat, b: nat)
    requires Covers(q, a, b)
    ensures a <= b && (q != [] ==> a < b)
    decreases |q|
  {
    if q != [] {
      CoversOrdered(q[1..], q[0].endSeq, b);
    }
  }

  lemma {:induction false} CoversAppend(q: seq<Skb>, a: nat, b: nat, s: Skb)
    requires Covers(q, a, b) && s.seqno == b && s.payload != [] && s.endSeq == b + |s.payload|
    ensures Covers(q + [s], a, s.endSeq)
    decreases |q|
  {
    if q == [] {
      assert q + [s] == [s] && [s][1..] == [];
    } else {
      assert (q + [s])[1..] == q[1..] + [s];
      CoversAppend(q[1..], q[0].endSeq, b, s);
    }
  }

  /** Queueing a non-empty segment that stays below 2^32 keeps the invariant. */
  lemma {:induction false} EnqueueKeeps(tx: Tx, payload: seq<byte>, psh: bool)
    requires QueueInv(tx) && payload != [] && tx.sndNxt + |payload| < 0x1_0000_0000
    ensures QueueInv(Enqueue(tx, payload, psh)) && (SendInv(tx) ==> SendInv(Enqueue(tx, payload, psh)))
    ensures Enqueue(tx, payload, psh).inflight == tx.inflight + |payload|
  {
    CoversAppend(tx.queue, Front(tx), tx.sndNxt, Skb(tx.sndNxt, tx.sndNxt + |payload|, payload, psh, false));
    assert Front(Enqueue(tx, payload, psh)) == Front(tx);
  }

  lemma {:induction false} CoversCleared(q: seq<Skb>, a: nat, b: nat)
    requires Covers(q, a, b)
    ensures Covers(ClearSacked(q), a, b)
    decreases |q|
  {
    if q != [] {
      assert ClearSacked(q)[1..] == ClearSacked(q[1..]);
      CoversCleared(q[1..], q[0].endSeq, b);
    }
  }

  /** `r` is what is left up to `b` after `una`, with `left` bytes in flight. */
  ghost predicate Remains(r: seq<Skb>, a: nat, b: nat, una: nat, left: int) {
    && Covers(r, FrontOf(r, b), b)
    && a <= FrontOf(r, b) <= una
    && (r != [] ==> una < r[0].endSeq)
    && left == b - FrontOf(r, b)
  }

  /** Any acknowledged prefix leaves a contiguous queue whose front is the last boundary at or
      below `una`; nothing is clamped on the way. */
  lemma {:induction false} CleanCovers(q: seq<Skb>, a: nat, b: u32, una: u32, inflight: u32)
    requires Covers(q, a, b) && 0 < a <= una <= b && inflight == b - a
    ensures Remains(q[Acked(q, una)..], a, b, una, Settle(inflight, q, Acked(q, una)))
    decreases |q|
  {
    if q != [] && q[0].endSeq <= una {
      var t := q[1..];
      CoversOrdered(t, q[0].endSeq, b);
      CleanCovers(t, q[0].endSeq, b, una, inflight - |q[0].payload|);
      assert q[Acked(t, una) + 1..] == t[Acked(t, una)..];
    } else {
      assert q[0..] == q;
      CoversOrdered(q, a, b);
    }
  }

  /** A number below the queue acknowledges none of it. */
  lemma {:induction false} BelowFront(q: seq<Skb>, a: nat, b: nat, una: u32)
    requires Covers(q, a, b) && una < a
    ensures Acked(q, una) == 0 && q[0..] == q
  {
  }

  /** Whatever number in (snd_una, snd_nxt] is acknowledged, the queue stays contiguous and
      `inflight` stays exact, and a queue empties exactly when everything is acknowledged. */
  lemma {:induction false} CleanKeeps(tx: Tx, una: u32)
    requires QueueInv(tx) && tx.sndUna <= una <= tx.sndNxt
    ensures var tx' := Clean(tx.(sndUna := una), una);
      && SendInv(tx')
      && (tx'.queue == [] <==> tx.queue == [] || una == tx.sndNxt)
      && (StopsTimer(tx') <==> tx'.queue == [])
  {
    if Front(tx) <= una {
      CleanCovers(tx.queue, Front(tx), tx.sndNxt, una, tx.inflight);
    } else {
      BelowFront(tx.queue, Front(tx), tx.sndNxt, una);
    }
    var tx' := Clean(tx.(sndUna := una), una);
    CoversOrdered(tx'.queue, Front(tx'), tx'.sndNxt);
    if tx'.queue != [] {
      CoversOrdered(tx'.queue[1..], tx'.queue[0].endSeq, tx'.sndNxt);
    }
  }

  /** `una` is where some queued segment starts, or the end of the queue. */
  ghost predicate Boundary(q: seq<Skb>, una: nat, end: nat) {
    una == end || exists i :: 0 <= i < |q| && q[i].seqno == una
  }

  lemma {:induction false} CoversBounds(q: seq<Skb>, a: nat, b: nat, i: nat)
    requires Covers(q, a, b) && i < |q|
    ensures a <= q[i].seqno && q[i].endSeq == q[i].seqno + |q[i].payload| && q[i].payload != []
    ensures i > 0 ==> q[0].endSeq <= q[i].seqno
    decreases |q|
  {
    if i > 0 {
      CoversBounds(q[1..], q[0].endSeq, b, i - 1);
      assert q[i] == q[1..][i - 1];
    }
  }

  lemma {:induction false} BoundaryAtFront(q: seq<Skb>, a: nat, b: u32, una: u32)
    requires Covers(q, a, b) && 0 < a <= una <= b
    ensures var k := Acked(q, una);
      (if q[k..] == [] then una == b else q[k].seqno == una) <==> Boundary(q, una, b)
    decreases |q|
  {
    if q == [] {
    } else if q[0].endSeq <= una {
      var t := q[1..];
      CoversOrdered(t, q[0].endSeq, b);
      BoundaryAtFront(t, q[0].endSeq, b, una);
      var k := Acked(t, una);
      assert q[k + 1..] == t[k..] && (k < |t| ==> q[k + 1] == t[k]);
      assert Boundary(t, una, b) <==> Boundary(q, una, b) by {
        if i :| 0 <= i < |t| && t[i].seqno == una {
          assert q[i + 1].seqno == una;
        }
        if j :| 0 <= j < |q| && q[j].seqno == una {
          assert t[j - 1].seqno == una;
        }
      }
    } else {
      assert q[0..] == q;
      CoversOrdered(q[1..], q[0].endSeq, b);
      forall i | 0 <= i < |q| && q[i].seqno == una
        ensures i == 0
      {
        CoversBounds(q, a, b, i);
      }
    }
  }

  /** The timeout path sends the head of the queue under the number `snd_una`. That number is the
      head's own exactly when the acknowledgement fell on a segment boundary. */
  lemma {:induction false} TimeoutLabelIsRightIff(tx: Tx, una: u32)
    requires SendInv(tx) && tx.queue != [] && tx.sndUna < una <= tx.sndNxt
    ensures var tx' := Clean(tx.(sndUna := una), una);
      (tx'.queue != [] ==> tx'.queue[0].seqno == tx'.sndUna) <==> Boundary(tx.queue, una, tx.sndNxt)
  {
    CleanKeeps(tx, una);
    if Front(tx) <= una {
      BoundaryAtFront(tx.queue, Front(tx), tx.sndNxt, una);
    } else {
      BelowFront(tx.queue, Front(tx), tx.sndNxt, una);
      forall i | 0 <= i < |tx.queue|
        ensures tx.queue[i].seqno != una
      {
        CoversBounds(tx.queue, Front(tx), tx.sndNxt, i);
      }
      CoversOrdered(tx.queue, Front(tx), tx.sndNxt);
    }
  }

  lemma {:induction false} NumbersAssigned(tx: Tx)
    requires QueueInv(tx)
    ensures Numbered(tx)
  {
    forall i | 0 <= i < |tx.queue|
      ensures tx.queue[i].seqno != 0
    {
      CoversBounds(tx.queue, Front(tx), tx.sndNxt, i);
    }
  }
}
