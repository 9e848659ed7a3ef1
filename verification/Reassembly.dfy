/** What the receive path does to the segments of one fixed segmentation, whatever the order in
    which they arrive and however often: the state is a function of the set of accepted chunks. */
module Reassembly {
  import opened Words
  import opened Stream
  import opened TcpData

  /** The stream starting at sequence number `base` stays below 2^32. */
  ghost predicate Fits(cs: seq<Chunk>, base: nat) {
    base + Off(cs, |cs|) < 0x1_0000_0000
  }

  /** Chunk `i` of the stream as a received buffer. */
  function SkbAt(cs: seq<Chunk>, base: nat, i: nat): Skb
    requires i < |cs| && Fits(cs, base)
  {
    OffMonotone(cs, i + 1, |cs|);
    var at := base + Off(cs, i);
    Skb(at, at + |cs[i].payload|, cs[i].payload, cs[i].psh, false)
  }

  /** The accepted chunks from `lo` on, in stream order. */
  function Held(cs: seq<Chunk>, base: nat, acc: set<nat>, lo: nat): seq<Skb>
    requires Fits(cs, base)
    decreases |cs| - lo
  {
    if lo >= |cs| then []
    else
      var rest := Held(cs, base, acc, lo + 1);
      if lo in acc then [SkbAt(cs, base, lo)] + rest else rest
  }

  /** Chunks `lo` up to `hi` as received buffers. */
  function Slice(cs: seq<Chunk>, base: nat, lo: nat, hi: nat): seq<Skb>
    requires lo <= hi <= |cs| && Fits(cs, base)
    decreases hi - lo
  {
    if lo == hi then [] else [SkbAt(cs, base, lo)] + Slice(cs, base, lo + 1, hi)
  }

  /** The first chunk at or after `lo` that has not been accepted. */
  function FirstMissing(cs: seq<Chunk>, acc: set<nat>, lo: nat): (n: nat)
    requires lo <= |cs|
    ensures lo <= n <= |cs|
    ensures n < |cs| ==> n !in acc
    ensures forall j :: lo <= j < n ==> j in acc
    decreases |cs| - lo
  {
    if lo < |cs| && lo in acc then FirstMissing(cs, acc, lo + 1) else lo
  }

  /** The receive state with exactly the chunks of `acc` accepted, `n` of them in order. */
  ghost predicate Reassembled(cs: seq<Chunk>, base: nat, acc: set<nat>, n: nat, rx: Rx) {
    && NonEmpty(cs) && Fits(cs, base)
    && n <= |cs|
    && (forall j :: 0 <= j < n ==> j in acc) && n !in acc
    && (forall j :: j in acc ==> j < |cs|)
    && rx.rcvNxt == base + Off(cs, n)
    && rx.ofo == Held(cs, base, acc, n)
  }

  // ----- shape of the held list

  lemma {:induction false} HeldFrom(cs: seq<Chunk>, base: nat, acc: set<nat>, lo: nat, k: nat)
    requires Fits(cs, base) && k < |Held(cs, base, acc, lo)|
    ensures lo < |cs| && base + Off(cs, lo) <= Held(cs, base, acc, lo)[k].seqno
    decreases |cs| - lo
  {
    var q := Held(cs, base, acc, lo);
    OffOrdered(cs, lo, lo + 1);
    if lo !in acc {
      HeldFrom(cs, base, acc, lo + 1, k);
    } else if k > 0 {
      HeldFrom(cs, base, acc, lo + 1, k - 1);
    }
  }

  /** The held list is strictly sorted by sequence number. */
  lemma {:induction false} HeldSorted(cs: seq<Chunk>, base: nat, acc: set<nat>, lo: nat)
    requires NonEmpty(cs) && Fits(cs, base)
    ensures Sorted(Held(cs, base, acc, lo))
    decreases |cs| - lo
  {
    if lo < |cs| {
      HeldSorted(cs, base, acc, lo + 1);
      if lo in acc {
        var rest := Held(cs, base, acc, lo + 1);
        forall k | 0 <= k < |rest|
          ensures SkbAt(cs, base, lo).seqno < rest[k].seqno
        {
          OffOrdered(cs, lo, lo + 1);
          HeldFrom(cs, base, acc, lo + 1, k);
        }
      }
    }
  }

  /** When chunk `n` is missing, what is held lies strictly above it. */
  lemma {:induction false} HeldAbove(cs: seq<Chunk>, base: nat, acc: set<nat>, n: nat, k: nat)
    requires NonEmpty(cs) && Fits(cs, base) && n <= |cs| && (n < |cs| ==> n !in acc)
    requires k < |Held(cs, base, acc, n)|
    ensures base + Off(cs, n) < Held(cs, base, acc, n)[k].seqno
  {
    assert Held(cs, base, acc, n) == Held(cs, base, acc, n + 1);
    HeldFrom(cs, base, acc, n + 1, k);
    OffOrdered(cs, n, n + 1);
  }

  lemma {:induction false} HeldUnchanged(cs: seq<Chunk>, base: nat, acc: set<nat>, i: nat, lo: nat)
    requires Fits(cs, base) && i < lo
    ensures Held(cs, base, acc + {i}, lo) == Held(cs, base, acc, lo)
    decreases |cs| - lo
  {
    if lo < |cs| {
      HeldUnchanged(cs, base, acc, i, lo + 1);
    }
  }

  /** Cutting one more chunk off the stream does not disturb what is held. */
  lemma {:induction false} HeldExtends(cs: seq<Chunk>, c: Chunk, base: nat, acc: set<nat>, lo: nat)
    requires Fits(cs, base) && Fits(cs + [c], base) && |cs| !in acc
    ensures Held(cs + [c], base, acc, lo) == Held(cs, base, acc, lo)
    decreases |cs| - lo
  {
    if lo < |cs| {
      HeldExtends(cs, c, base, acc, lo + 1);
      OffOfPrefix(cs, cs + [c], lo);
    } else if lo == |cs| {
      assert Held(cs + [c], base, acc, lo + 1) == [];
    }
  }

  // ----- one arrival

  lemma {:induction false} InsertIsHeld(cs: seq<Chunk>, base: nat, acc: set<nat>, lo: nat, i: nat)
    requires NonEmpty(cs) && Fits(cs, base) && lo <= i < |cs|
    ensures Insert(Held(cs, base, acc, lo), SkbAt(cs, base, i)) == Held(cs, base, acc + {i}, lo)
    decreases i - lo
  {
    if lo == i {
      InsertAtHead(cs, base, acc, i);
    } else {
      InsertIsHeld(cs, base, acc, lo + 1, i);
      if lo in acc {
        OffCompare(cs, lo, i);
        InsertSkips(SkbAt(cs, base, lo), Held(cs, base, acc, lo + 1), SkbAt(cs, base, i));
      }
    }
  }

  lemma {:induction false} InsertSkips(h: Skb, t: seq<Skb>, s: Skb)
    requires h.seqno < s.seqno
    ensures Insert([h] + t, s) == [h] + Insert(t, s)
  {
    assert ([h] + t)[1..] == t;
  }

  lemma {:induction false} InsertAtHead(cs: seq<Chunk>, base: nat, acc: set<nat>, i: nat)
    requires NonEmpty(cs) && Fits(cs, base) && i < |cs|
    ensures Insert(Held(cs, base, acc, i), SkbAt(cs, base, i)) == Held(cs, base, acc + {i}, i)
  {
    HeldUnchanged(cs, base, acc, i, i + 1);
    var rest := Held(cs, base, acc, i + 1);
    if i in acc {
      assert acc + {i} == acc;
    } else if rest != [] {
      HeldFrom(cs, base, acc, i + 1, 0);
      OffOrdered(cs, i, i + 1);
    }
  }

  /** One round of the drain. */
  lemma {:induction false} ConsumeOne(rx: Rx, s: Skb, rest: seq<Skb>)
    requires rx.ofo == [s] + rest && rx.rcvNxt == s.seqno && s.seqno + |s.payload| < 0x1_0000_0000
    ensures Consume(rx) == Consume(rx.(rcvNxt := s.seqno + |s.payload|, ofo := rest, queue := rx.queue + [s]))
  {
    assert rx.ofo[0] == s && rx.ofo[1..] == rest;
    Add32Small(rx.rcvNxt, |s.payload|);
  }

  lemma {:induction false} SliceBehind(cs: seq<Chunk>, base: nat, q: seq<Skb>, lo: nat, hi: nat)
    requires lo < hi <= |cs| && Fits(cs, base)
    ensures q + [SkbAt(cs, base, lo)] + Slice(cs, base, lo + 1, hi) == q + Slice(cs, base, lo, hi)
  {
    ConcatAssociates(q, [SkbAt(cs, base, lo)], Slice(cs, base, lo + 1, hi));
  }

  lemma {:induction false} ConsumeDrains(cs: seq<Chunk>, base: nat, acc: set<nat>, n: nat, rx: Rx)
    requires NonEmpty(cs) && Fits(cs, base) && n <= |cs|
    requires rx.rcvNxt == base + Off(cs, n) && rx.ofo == Held(cs, base, acc, n)
    ensures Drained(cs, base, acc, n, rx, Consume(rx))
    decreases |cs| - n
  {
    if n < |cs| && n in acc {
      OffMonotone(cs, n + 1, |cs|);
      var s, rest := SkbAt(cs, base, n), Held(cs, base, acc, n + 1);
      ConsumeOne(rx, s, rest);
      var rx1 := rx.(rcvNxt := base + Off(cs, n + 1), ofo := rest, queue := rx.queue + [s]);
      ConsumeDrains(cs, base, acc, n + 1, rx1);
      DrainedOneMore(cs, base, acc, n, rx, rx1, Consume(rx1));
    } else {
      if rx.ofo != [] {
        HeldAbove(cs, base, acc, n, 0);
      }
      assert rx.queue + [] == rx.queue;
    }
  }

  lemma {:induction false} DrainedOneMore(cs: seq<Chunk>, base: nat, acc: set<nat>, n: nat, rx: Rx, rx1: Rx, rx': Rx)
    requires Fits(cs, base) && n < |cs| && n in acc && Drained(cs, base, acc, n + 1, rx1, rx')
    requires rx1 == rx.(rcvNxt := rx1.rcvNxt, ofo := rx1.ofo, queue := rx.queue + [SkbAt(cs, base, n)])
    ensures Drained(cs, base, acc, n, rx, rx')
  {
    SliceBehind(cs, base, rx.queue, n, FirstMissing(cs, acc, n));
  }

  ghost predicate Drained(cs: seq<Chunk>, base: nat, acc: set<nat>, n: nat, rx: Rx, rx': Rx)
    requires Fits(cs, base) && n <= |cs|
  {
    var m := FirstMissing(cs, acc, n);
    && rx'.rcvNxt == base + Off(cs, m)
    && rx'.ofo == Held(cs, base, acc, m)
    && rx'.queue == rx.queue + Slice(cs, base, n, m)
    && rx'.rcvWnd == rx.rcvWnd && rx'.realRcvWnd == rx.realRcvWnd && rx'.pshFlag == rx.pshFlag
  }

  lemma {:induction false} InOrderAccepted(cs: seq<Chunk>, base: nat, acc: set<nat>, n: nat, rx: Rx)
    requires Reassembled(cs, base, acc, n, rx) && n < |cs| && rx.rcvWnd > 0
    ensures Accepted(cs, base, acc, n, rx, n)
  {
    var s, acc' := SkbAt(cs, base, n), acc + {n};
    OffMonotone(cs, n + 1, |cs|);
    HeldUnchanged(cs, base, acc, n, n + 1);
    var rx1 := rx.(realRcvWnd := Sub32(rx.realRcvWnd, |s.payload|),
                   rcvNxt := base + Off(cs, n + 1), queue := rx.queue + [s]);
    assert Held(cs, base, acc, n) == Held(cs, base, acc, n + 1);
    ConsumeDrains(cs, base, acc', n + 1, rx1);
    assert DataQueue(rx, s) == Consume(rx1) by {
      Add32Small(rx.rcvNxt, |s.payload|);
    }
    SliceBehind(cs, base, rx.queue, n, FirstMissing(cs, acc', n));
  }

  ghost predicate Accepted(cs: seq<Chunk>, base: nat, acc: set<nat>, n: nat, rx: Rx, i: nat)
    requires Fits(cs, base) && n <= |cs| && i < |cs|
  {
    var n', rx' := FirstMissing(cs, acc + {i}, n), DataQueue(rx, SkbAt(cs, base, i));
    && Reassembled(cs, base, acc + {i}, n', rx')
    && rx'.queue == rx.queue + Slice(cs, base, n, n')
  }

  /** Accepting chunk `i` adds it to the accepted set; the in-order point moves to the first
      chunk still missing, and exactly the chunks passed on the way join the receive queue. */
  lemma {:induction false} DataQueueAccepts(cs: seq<Chunk>, base: nat, acc: set<nat>, n: nat, rx: Rx, i: nat)
    requires Reassembled(cs, base, acc, n, rx) && n <= i < |cs| && rx.rcvWnd > 0
    ensures Accepted(cs, base, acc, n, rx, i)
  {
    OffCompare(cs, n, i);
    if i == n {
      InOrderAccepted(cs, base, acc, n, rx);
    } else {
      InsertIsHeld(cs, base, acc, n, i);
      assert rx.queue + [] == rx.queue;
    }
  }

  // ----- every arrival order

  function Arrive(rx: Rx, s: Skb): Rx {
    if Verify(rx, s.seqno, |s.payload|) then DataQueue(rx, s) else rx
  }

  /** The receive state after the chunks numbered by `order` arrived one after the other. */
  function ArriveAll(cs: seq<Chunk>, base: nat, rx: Rx, order: seq<nat>): Rx
    requires Fits(cs, base) && (forall k :: 0 <= k < |order| ==> order[k] < |cs|)
  {
    if order == [] then rx
    else Arrive(ArriveAll(cs, base, rx, order[..|order| - 1]), SkbAt(cs, base, order[|order| - 1]))
  }

  /** The chunks that passed `tcp_verify_segment` during those arrivals. */
  function AcceptedOf(cs: seq<Chunk>, base: nat, rx: Rx, order: seq<nat>): set<nat>
    requires Fits(cs, base) && (forall k :: 0 <= k < |order| ==> order[k] < |cs|)
  {
    if order == [] then {}
    else
      var before := order[..|order| - 1];
      var i := order[|order| - 1];
      var s := SkbAt(cs, base, i);
      AcceptedOf(cs, base, rx, before) +
      if Verify(ArriveAll(cs, base, rx, before), s.seqno, |s.payload|) then {i} else {}
  }

  function Fresh(base: u32, window: u32): Rx {
    Rx(base, window, window, [], [], false)
  }

  lemma {:induction false} HeldNothing(cs: seq<Chunk>, base: nat, lo: nat)
    requires Fits(cs, base)
    ensures Held(cs, base, {}, lo) == []
    decreases |cs| - lo
  {
    if lo < |cs| {
      HeldNothing(cs, base, lo + 1);
    }
  }

  lemma {:induction false} SliceJoins(cs: seq<Chunk>, base: nat, a: nat, b: nat, c: nat)
    requires a <= b <= c <= |cs| && Fits(cs, base)
    ensures Slice(cs, base, a, b) + Slice(cs, base, b, c) == Slice(cs, base, a, c)
    decreases b - a
  {
    if a < b {
      SliceJoins(cs, base, a + 1, b, c);
    }
  }

  lemma {:induction false} FirstMissingUnique(cs: seq<Chunk>, acc: set<nat>, lo: nat, n: nat)
    requires lo <= n <= |cs| && n !in acc && forall j :: lo <= j < n ==> j in acc
    ensures FirstMissing(cs, acc, lo) == n
  {
  }

  /** For any arrival order and any duplication, the receiver holds exactly the accepted chunks:
      `rcv_nxt` is the start of the first chunk not accepted, the out-of-order queue is the
      sorted list of accepted chunks above it, and the receive queue is everything below. */
  lemma {:induction false} ReassemblyTheorem(cs: seq<Chunk>, base: u32, window: u32, order: seq<nat>)
    requires NonEmpty(cs) && Fits(cs, base) && window > 0
    requires forall k :: 0 <= k < |order| ==> order[k] < |cs|
    ensures
      var acc, rx := AcceptedOf(cs, base, Fresh(base, window), order), ArriveAll(cs, base, Fresh(base, window), order);
      var n := FirstMissing(cs, acc, 0);
      && Reassembled(cs, base, acc, n, rx)
      && rx.queue == Slice(cs, base, 0, n)
      && rx.rcvWnd == window
  {
    var rx0 := Fresh(base, window);
    if order == [] {
      HeldNothing(cs, base, 0);
    } else {
      var before, i := order[..|order| - 1], order[|order| - 1];
      ReassemblyTheorem(cs, base, window, before);
      var acc, rx := AcceptedOf(cs, base, rx0, before), ArriveAll(cs, base, rx0, before);
      var n := FirstMissing(cs, acc, 0);
      var s := SkbAt(cs, base, i);
      if Verify(rx, s.seqno, |s.payload|) {
        OffCompare(cs, i, n);
        DataQueueAccepts(cs, base, acc, n, rx, i);
        DataQueueKeepsWindow(rx, s);
        var n' := FirstMissing(cs, acc + {i}, n);
        SliceJoins(cs, base, 0, n, n');
        FirstMissingUnique(cs, acc + {i}, 0, n');
      } else {
        assert acc + {} == acc;
      }
    }
  }

  lemma {:induction false} ConsumeKeepsWindow(rx: Rx)
    ensures Consume(rx).rcvWnd == rx.rcvWnd && Consume(rx).realRcvWnd == rx.realRcvWnd
    ensures Consume(rx).pshFlag == rx.pshFlag
    decreases |rx.ofo|
  {
    if rx.ofo != [] && rx.rcvNxt == rx.ofo[0].seqno {
      ConsumeKeepsWindow(rx.(rcvNxt := Add32(rx.rcvNxt, |rx.ofo[0].payload|),
                             ofo := rx.ofo[1..], queue := rx.queue + [rx.ofo[0]]));
    }
  }

  /** Only an in-order arrival lowers the advertised window, and by its own length alone: the
      bytes it releases from the out-of-order queue are never charged. */
  lemma {:induction false} DataQueueKeepsWindow(rx: Rx, s: Skb)
    ensures var rx' := DataQueue(rx, s);
      && rx'.rcvWnd == rx.rcvWnd && rx'.pshFlag == rx.pshFlag
      && rx'.realRcvWnd ==
         if rx.rcvWnd > 0 && s.seqno == rx.rcvNxt then Sub32(rx.realRcvWnd, |s.payload|) else rx.realRcvWnd
  {
    ConsumeKeepsWindow(rx.(realRcvWnd := Sub32(rx.realRcvWnd, |s.payload|),
                           rcvNxt := Add32(rx.rcvNxt, |s.payload|), queue := rx.queue + [s]));
  }

  /** Two arrival orders that end with the same accepted chunks end in the same queues. */
  lemma {:induction false} OrderIndependence(cs: seq<Chunk>, base: u32, window: u32, order: seq<nat>, js: seq<nat>)
    requires NonEmpty(cs) && Fits(cs, base) && window > 0
    requires forall k :: 0 <= k < |order| ==> order[k] < |cs|
    requires forall k :: 0 <= k < |js| ==> js[k] < |cs|
    requires AcceptedOf(cs, base, Fresh(base, window), order) == AcceptedOf(cs, base, Fresh(base, window), js)
    ensures
      var rx, ry := ArriveAll(cs, base, Fresh(base, window), order), ArriveAll(cs, base, Fresh(base, window), js);
      rx.rcvNxt == ry.rcvNxt && rx.ofo == ry.ofo && rx.queue == ry.queue
  {
    ReassemblyTheorem(cs, base, window, order);
    ReassemblyTheorem(cs, base, window, js);
  }

  /** In every reassembly state the out-of-order queue is strictly sorted and above `rcv_nxt`. */
  lemma {:induction false} OutOfOrderQueueShape(cs: seq<Chunk>, base: nat, acc: set<nat>, n: nat, rx: Rx)
    requires Reassembled(cs, base, acc, n, rx)
    ensures Sorted(rx.ofo)
    ensures forall k :: 0 <= k < |rx.ofo| ==> rx.rcvNxt < rx.ofo[k].seqno
  {
    HeldSorted(cs, base, acc, n);
    forall k | 0 <= k < |rx.ofo|
      ensures rx.rcvNxt < rx.ofo[k].seqno
    {
      HeldAbove(cs, base, acc, n, k);
    }
  }

  lemma {:induction false} WideWindowAccepts(cs: seq<Chunk>, base: nat, acc: set<nat>, n: nat, rx: Rx, i: nat)
    requires Reassembled(cs, base, acc, n, rx) && i < |cs| && rx.rcvWnd > 0
    requires Off(cs, |cs|) <= rx.rcvWnd && base + Off(cs, |cs|) + rx.rcvWnd < 0x1_0000_0000
    ensures Verify(rx, SkbAt(cs, base, i).seqno, |cs[i].payload|) || i in acc
  {
    OffCompare(cs, i, n);
    OffMonotone(cs, i, |cs|);
    OffMonotone(cs, n, |cs|);
  }

  lemma {:induction false} LastIn(order: seq<nat>, before: seq<nat>, last: nat)
    requires order == before + [last]
    ensures (set i | i in order) == (set i | i in before) + {last}
  {
  }

  /** With a window that covers the stream, nothing that arrives is lost: the accepted chunks
      are exactly the chunks that arrived. */
  lemma {:induction false} WideWindowAcceptsAll(cs: seq<Chunk>, base: u32, window: u32, order: seq<nat>)
    requires NonEmpty(cs) && Fits(cs, base) && window > 0
    requires Off(cs, |cs|) <= window && base + Off(cs, |cs|) + window < 0x1_0000_0000
    requires forall k :: 0 <= k < |order| ==> order[k] < |cs|
    ensures AcceptedOf(cs, base, Fresh(base, window), order) == set i | i in order
  {
    if order != [] {
      var before, i, rx0 := order[..|order| - 1], order[|order| - 1], Fresh(base, window);
      WideWindowAcceptsAll(cs, base, window, before);
      ReassemblyTheorem(cs, base, window, before);
      var acc := AcceptedOf(cs, base, rx0, before);
      WideWindowAccepts(cs, base, acc, FirstMissing(cs, acc, 0), ArriveAll(cs, base, rx0, before), i);
      assert AcceptedOf(cs, base, rx0, order) == acc + {i};
      LastIn(order, before, i);
    }
  }
}
