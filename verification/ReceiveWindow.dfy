/** The window that the receiver advertises, `real_rcv_wnd`, over every run of arrivals and reads
    (src/tcp_data.c). In-order arrivals lower it, reads raise it; bytes that leave the out-of-order
    queue become readable without lowering it, so the law needs a term for them. */
module ReceiveWindow {
  import opened Words
  import opened TcpData
  import opened Reassembly

  datatype Step = Arrival(skb: Skb) | Reading(len: int)

  function After(rx: Rx, st: Step): Rx {
    match st
    case Arrival(skb) => Arrive(rx, skb)
    case Reading(len) => DataDequeue(rx, len)
  }

  function AfterAll(rx: Rx, sts: seq<Step>): Rx
    decreases |sts|
  {
    if sts == [] then rx else AfterAll(After(rx, sts[0]), sts[1..])
  }

  /** An arrival that fills the gap in front of the out-of-order queue. */
  predicate FillsGap(rx: Rx, st: Step) {
    st.Arrival? && Verify(rx, st.skb.seqno, |st.skb.payload|) && rx.rcvWnd > 0 && st.skb.seqno == rx.rcvNxt
  }

  function QueuedBytes(q: seq<Skb>): nat {
    |Bytes(q)|
  }

  /** The bytes that a step moves from the out-of-order queue to the reader. */
  function Released(rx: Rx, st: Step): int {
    if FillsGap(rx, st) then QueuedBytes(rx.ofo) - QueuedBytes(After(rx, st).ofo) else 0
  }

  function ReleasedAll(rx: Rx, sts: seq<Step>): int
    decreases |sts|
  {
    if sts == [] then 0 else Released(rx, sts[0]) + ReleasedAll(After(rx, sts[0]), sts[1..])
  }

  /** Draining moves bytes from one queue to the other and loses none. */
  lemma {:induction false} ConsumeConserves(rx: Rx)
    ensures QueuedBytes(Consume(rx).queue) + QueuedBytes(Consume(rx).ofo) == QueuedBytes(rx.queue) + QueuedBytes(rx.ofo)
    ensures QueuedBytes(Consume(rx).ofo) <= QueuedBytes(rx.ofo)
    decreases |rx.ofo|
  {
    if rx.ofo != [] && rx.rcvNxt == rx.ofo[0].seqno {
      var s := rx.ofo[0];
      BytesConcat(rx.queue, [s]);
      BytesOfOne(s);
      ConsumeConserves(rx.(rcvNxt := Add32(rx.rcvNxt, |s.payload|), ofo := rx.ofo[1..], queue := rx.queue + [s]));
    }
  }

  lemma {:induction false} BytesOfOne(s: Skb)
    ensures Bytes([s]) == s.payload
  {
    assert [s][1..] == [];
  }

  /** What the window and the unread bytes add up to. */
  function Committed(rx: Rx): u32 {
    Add32(rx.realRcvWnd, QueuedBytes(rx.queue))
  }

  lemma {:induction false} Shift(w: u32, n: int, a: int, b: int)
    ensures Add32(Sub32(w, a), n + a + b) == Add32(Add32(w, n), b)
    ensures Add32(Add32(w, a), n - a) == Add32(w, n)
  {
    Add32Reduces(w - a, n + a + b);
    Add32Twice(w, n, b);
    Add32Twice(w, a, n - a);
  }

  lemma {:induction false} ArrivalLaw(rx: Rx, s: Skb)
    ensures Committed(Arrive(rx, s)) == Add32(Committed(rx), Released(rx, Arrival(s)))
    ensures Released(rx, Arrival(s)) >= 0
  {
    DataQueueKeepsWindow(rx, s);
    if FillsGap(rx, Arrival(s)) {
      var rx1 := rx.(realRcvWnd := Sub32(rx.realRcvWnd, |s.payload|),
                     rcvNxt := Add32(rx.rcvNxt, |s.payload|), queue := rx.queue + [s]);
      ConsumeConserves(rx1);
      BytesConcat(rx.queue, [s]);
      BytesOfOne(s);
      Shift(rx.realRcvWnd, QueuedBytes(rx.queue), |s.payload|, Released(rx, Arrival(s)));
    }
  }

  lemma {:induction false} ReadingLaw(rx: Rx, len: int)
    ensures Committed(DataDequeue(rx, len)) == Committed(rx)
  {
    DropBytes(rx.queue, len);
    Shift(rx.realRcvWnd, QueuedBytes(rx.queue), Readable(rx, len), 0);
  }

  /** The exact law, for any arrivals and any reads: window plus unread bytes grows by precisely the
      bytes that have passed through the out-of-order queue, modulo 2^32. */
  lemma {:induction false} WindowLaw(rx: Rx, sts: seq<Step>)
    ensures Committed(AfterAll(rx, sts)) == Add32(Committed(rx), ReleasedAll(rx, sts))
    ensures ReleasedAll(rx, sts) >= 0
    decreases |sts|
  {
    if sts != [] {
      match sts[0] {
        case Arrival(s) => ArrivalLaw(rx, s);
        case Reading(len) => ReadingLaw(rx, len);
      }
      var rx1 := After(rx, sts[0]);
      WindowLaw(rx1, sts[1..]);
      Add32Twice(Committed(rx), Released(rx, sts[0]), ReleasedAll(rx1, sts[1..]));
    }
  }

  /** From a fresh receiver, the advertised window is the configured one less what is unread exactly
      when no byte ever came out of the out-of-order queue; with fewer than 2^32 such bytes it is too
      large by their number. */
  lemma {:induction false} WindowExactIff(base: u32, window: u32, sts: seq<Step>)
    requires ReleasedAll(Fresh(base, window), sts) < 0x1_0000_0000
    ensures var rx := AfterAll(Fresh(base, window), sts);
      rx.realRcvWnd == Sub32(window, QueuedBytes(rx.queue)) <==> ReleasedAll(Fresh(base, window), sts) == 0
  {
    WindowLaw(Fresh(base, window), sts);
    var rx := AfterAll(Fresh(base, window), sts);
    Cancel(rx.realRcvWnd, QueuedBytes(rx.queue), window, ReleasedAll(Fresh(base, window), sts));
  }

  lemma {:induction false} Cancel(w: u32, n: nat, window: u32, r: nat)
    requires Add32(w, n) == Add32(window, r)
    ensures w == Sub32(window + r, n)
    ensures r < 0x1_0000_0000 ==> (w == Sub32(window, n) <==> r == 0)
  {
    assert (w - (window + r - n)) % 0x1_0000_0000 == 0 by {
      assert (w + n - (window + r)) % 0x1_0000_0000 == 0;
    }
  }
}
