/** The receive path of src/tcp_data.c: the out-of-order queue, its drain into the receive
    queue, and the copy to the reader. `Rx` is the value of the receive-side fields;
    `ReceiveSide` is the object the C code updates in place. */
module TcpData {
  import opened Words

  datatype Skb = Skb(seqno: u32, endSeq: u32, payload: seq<byte>, psh: bool, sacked: bool)

  datatype Rx = Rx(
    rcvNxt: u32,
    rcvWnd: u32,
    realRcvWnd: u32,
    ofo: seq<Skb>,
    queue: seq<Skb>,
    pshFlag: bool)

  /** The buffer `tcp_init_segment` makes of an arriving segment. */
  function Arrived(seqno: u32, payload: seq<byte>, psh: bool): Skb {
    Skb(seqno, Add32(seqno, |payload|), payload, psh, false)
  }

  // ----- tcp_verify_segment

  predicate Verify(rx: Rx, seqno: u32, dlen: nat) {
    && !(dlen > 0 && rx.rcvWnd == 0)
    && rx.rcvNxt <= seqno <= Add32(rx.rcvNxt, rx.rcvWnd)
  }

  // ----- tcp_data_insert_ordered

  function Insert(q: seq<Skb>, s: Skb): seq<Skb> {
    if q == [] then [s]
    else if s.seqno < q[0].seqno then
      if s.endSeq > q[0].seqno then [q[0]] + Insert(q[1..], s) else [s] + q
    else if s.seqno == q[0].seqno then q
    else [q[0]] + Insert(q[1..], s)
  }

  /** The scan moves past a queued segment that is neither the place for `s` nor its duplicate. */
  lemma {:induction false} InsertScan(q: seq<Skb>, i: nat, s: Skb)
    requires i < |q| && s.seqno != q[i].seqno && (s.seqno < q[i].seqno ==> s.endSeq > q[i].seqno)
    ensures q[..i] + Insert(q[i..], s) == q[..i + 1] + Insert(q[i + 1..], s)
  {
    assert q[i..][0] == q[i] && q[i..][1..] == q[i + 1..];
  }

  ghost predicate Sorted(q: seq<Skb>) {
    forall i, j :: 0 <= i < j < |q| ==> q[i].seqno < q[j].seqno
  }

  ghost predicate Holds(q: seq<Skb>, n: u32) {
    exists i :: 0 <= i < |q| && q[i].seqno == n
  }

  /** A queued segment starts strictly inside `s`. */
  ghost predicate Straddles(q: seq<Skb>, s: Skb) {
    exists i :: 0 <= i < |q| && s.seqno < q[i].seqno < s.endSeq
  }

  /** Nothing but `s` is ever added, and every queued number stays queued. */
  lemma {:induction false} InsertContents(q: seq<Skb>, s: Skb, x: Skb)
    ensures x in Insert(q, s) ==> x in q || x == s
    ensures x in q ==> x in Insert(q, s)
  {
    if q != [] {
      InsertContents(q[1..], s, x);
    }
  }

  lemma {:induction false} InsertAtHeld(q: seq<Skb>, s: Skb, i: nat)
    requires Sorted(q) && i < |q| && q[i].seqno == s.seqno
    ensures Insert(q, s) == q
    decreases i
  {
    if i > 0 {
      assert q[0].seqno < q[i].seqno;
      InsertAtHeld(q[1..], s, i - 1);
    }
  }

  lemma {:induction false} InsertHeld(q: seq<Skb>, s: Skb)
    requires Sorted(q) && Holds(q, s.seqno)
    ensures Insert(q, s) == q
  {
    var i :| 0 <= i < |q| && q[i].seqno == s.seqno;
    InsertAtHeld(q, s, i);
  }

  lemma {:induction false} InsertUnheld(q: seq<Skb>, s: Skb)
    requires Sorted(q) && !Holds(q, s.seqno) && !Straddles(q, s)
    ensures Sorted(Insert(q, s))
    ensures |Insert(q, s)| == |q| + 1 && s in Insert(q, s)
  {
    if q != [] && q[0].seqno < s.seqno {
      var t := q[1..];
      assert forall i :: 0 <= i < |t| ==> t[i] == q[i + 1];
      InsertUnheld(t, s);
      InsertFront(q[0], t, s);
    } else if q != [] {
      assert q[0].seqno != s.seqno;
      assert !(s.seqno < q[0].seqno < s.endSeq);
    }
  }

  lemma {:induction false} InsertFront(h: Skb, t: seq<Skb>, s: Skb)
    requires h.seqno < s.seqno && Sorted([h] + t) && Sorted(Insert(t, s))
    ensures Sorted([h] + Insert(t, s))
  {
    var r := Insert(t, s);
    forall j | 0 <= j < |r|
      ensures h.seqno < r[j].seqno
    {
      InsertContents(t, s, r[j]);
      if r[j] in t {
        var k :| 0 <= k < |t| && t[k] == r[j];
        assert ([h] + t)[0].seqno < ([h] + t)[k + 1].seqno;
      }
    }
  }

  /** A segment that is already too far down the queue goes in behind a larger number. */
  lemma {:induction false} InsertTooLate(g: Skb, q: seq<Skb>, s: Skb)
    requires s.seqno < g.seqno
    requires forall j :: 0 <= j < |q| ==> s.seqno < q[j].seqno
    ensures !Sorted([g] + Insert(q, s))
    decreases |q|
  {
    var r := [g] + Insert(q, s);
    if q == [] || s.endSeq <= q[0].seqno {
      assert r[0].seqno > r[1].seqno;
    } else {
      InsertTooLate(q[0], q[1..], s);
      assert Insert(q, s) == r[1..];
    }
  }

  lemma {:induction false} InsertStraddling(q: seq<Skb>, s: Skb)
    requires Sorted(q) && Straddles(q, s) && !Holds(q, s.seqno)
    ensures !Sorted(Insert(q, s))
  {
    var w :| 0 <= w < |q| && s.seqno < q[w].seqno < s.endSeq;
    if q[0].seqno < s.seqno {
      assert q[1..][w - 1] == q[w];
      InsertStraddling(q[1..], s);
      assert Insert(q, s)[1..] == Insert(q[1..], s);
    } else {
      assert s.seqno < q[0].seqno <= q[w].seqno;
      InsertTooLate(q[0], q[1..], s);
    }
  }

  /** When the out-of-order queue stays sorted, for every sorted queue and every segment:
      exactly when the number is already held or no queued segment starts inside it. */
  lemma {:induction false} InsertKeepsOrderIff(q: seq<Skb>, s: Skb)
    requires Sorted(q)
    ensures Sorted(Insert(q, s)) <==> (Holds(q, s.seqno) || !Straddles(q, s))
  {
    if Holds(q, s.seqno) {
      InsertHeld(q, s);
    } else if !Straddles(q, s) {
      InsertUnheld(q, s);
    } else {
      InsertStraddling(q, s);
    }
  }

  // ----- tcp_consume_ofo_queue

  function Consume(rx: Rx): Rx
    decreases |rx.ofo|
  {
    if rx.ofo != [] && rx.rcvNxt == rx.ofo[0].seqno then
      Consume(rx.(rcvNxt := Add32(rx.rcvNxt, |rx.ofo[0].payload|),
                  ofo := rx.ofo[1..],
                  queue := rx.queue + [rx.ofo[0]]))
    else rx
  }

  // ----- tcp_data_queue

  function DataQueue(rx: Rx, s: Skb): Rx {
    if rx.rcvWnd == 0 then rx
    else if s.seqno == rx.rcvNxt then
      Consume(rx.(realRcvWnd := Sub32(rx.realRcvWnd, |s.payload|),
                  rcvNxt := Add32(rx.rcvNxt, |s.payload|),
                  queue := rx.queue + [s]))
    else rx.(ofo := Insert(rx.ofo, s))
  }

  /** Only an out-of-order segment is acknowledged on the spot. */
  predicate AcksAtOnce(rx: Rx, s: Skb) {
    rx.rcvWnd != 0 && s.seqno != rx.rcvNxt
  }

  // ----- what the queues hold

  /** The payload bytes of a queue, front to back. */
  function Bytes(q: seq<Skb>): seq<byte> {
    if q == [] then [] else q[0].payload + Bytes(q[1..])
  }

  lemma {:induction false} BytesConcat(q: seq<Skb>, r: seq<Skb>)
    ensures Bytes(q + r) == Bytes(q) + Bytes(r)
  {
    if q == [] {
      assert q + r == r;
    } else {
      assert (q + r)[1..] == q[1..] + r;
      BytesConcat(q[1..], r);
    }
  }

  function Unread(rx: Rx): seq<byte> {
    Bytes(rx.queue)
  }

  // ----- tcp_data_dequeue

  /** The queue after its first `n` bytes have been copied out. */
  function Drop(q: seq<Skb>, n: int): seq<Skb>
    decreases |q|
  {
    if q == [] || n <= 0 then q
    else if n < |q[0].payload| then [q[0].(payload := q[0].payload[n..])] + q[1..]
    else Drop(q[1..], n - |q[0].payload|)
  }

  /** Some segment used up by the copy carried PSH. */
  predicate PshDropped(q: seq<Skb>, n: int)
    decreases |q|
  {
    if q == [] || n <= 0 || n < |q[0].payload| then false
    else q[0].psh || PshDropped(q[1..], n - |q[0].payload|)
  }

  /** The segments that a copy of `n` bytes uses up. An empty segment behind the last byte is not looked
      at. */
  function Taken(q: seq<Skb>, n: int): seq<Skb>
    decreases |q|
  {
    if q == [] || n <= 0 || n < |q[0].payload| then [] else [q[0]] + Taken(q[1..], n - |q[0].payload|)
  }

  predicate HasPsh(q: seq<Skb>) {
    exists i :: 0 <= i < |q| && q[i].psh
  }

  /** What is used up is a front part of the queue, and all of it when there are fewer than `n` bytes. */
  lemma {:induction false} TakenIsFront(q: seq<Skb>, n: nat)
    ensures Taken(q, n) <= q
    ensures PshDropped(q, n) <==> HasPsh(Taken(q, n))
    ensures |Bytes(q)| < n ==> Taken(q, n) == q && Drop(q, n) == []
    decreases |q|
  {
    if q != [] && |q[0].payload| <= n && n > 0 {
      var t := Taken(q[1..], n - |q[0].payload|);
      TakenIsFront(q[1..], n - |q[0].payload|);
      assert Taken(q, n) == [q[0]] + t;
      HasPshEither([q[0]], t);
      assert HasPsh([q[0]]) <==> q[0].psh by {
        assert q[0].psh ==> [q[0]][0].psh;
      }
    }
  }

  lemma {:induction false} HasPshEither(q: seq<Skb>, r: seq<Skb>)
    ensures HasPsh(q + r) <==> HasPsh(q) || HasPsh(r)
  {
    if i :| 0 <= i < |q| && q[i].psh {
      assert (q + r)[i].psh;
    }
    if i :| 0 <= i < |r| && r[i].psh {
      assert (q + r)[|q| + i].psh;
    }
  }

  lemma {:induction false} TakenLength(q: seq<Skb>, n: nat)
    ensures |Bytes(Taken(q, n))| <= n
    decreases |q|
  {
    if q != [] && |q[0].payload| <= n && n > 0 {
      TakenLength(q[1..], n - |q[0].payload|);
      assert Taken(q, n)[1..] == Taken(q[1..], n - |q[0].payload|);
    }
  }

  lemma {:induction false} TakenBytes(q: seq<Skb>, n: nat)
    ensures Bytes(Taken(q, n)) <= Bytes(q) && |Bytes(Taken(q, n))| <= n
  {
    TakenIsFront(q, n);
    TakenLength(q, n);
    var k := |Taken(q, n)|;
    assert q == Taken(q, n) + q[k..];
    BytesConcat(Taken(q, n), q[k..]);
  }

  /** A segment that ends within the first `n` bytes is used up, unless the copy is full before it. */
  lemma {:induction false} TakenReaches(q: seq<Skb>, n: nat, i: nat)
    requires i < |q| && |Bytes(q[..i + 1])| <= n
    ensures |Bytes(q[..i])| < n ==> i < |Taken(q, n)|
    ensures |Bytes(q[..i])| >= n ==> |Bytes(q)| >= n
    decreases i
  {
    var m := n - |q[0].payload|;
    assert q[..i + 1][1..] == q[1..][..i] && q[..i + 1][0] == q[0];
    if i > 0 {
      assert q[..i][1..] == q[1..][..i - 1] && q[..i][0] == q[0];
      TakenReaches(q[1..], m, i - 1);
    }
  }

  /** The flag is set, or some segment with PSH lies within the first `len` unread bytes. */
  ghost predicate PshAhead(rx: Rx, len: nat) {
    rx.pshFlag || exists i :: 0 <= i < |rx.queue| && rx.queue[i].psh && |Bytes(rx.queue[..i + 1])| <= len
  }

  /** So is a segment with PSH among the first `n` bytes noticed, or the copy is full. */
  lemma {:induction false} PshNoticed(q: seq<Skb>, n: nat, i: nat)
    requires i < |q| && q[i].psh && |Bytes(q[..i + 1])| <= n
    ensures PshDropped(q, n) || |Bytes(q)| >= n
  {
    TakenReaches(q, n, i);
    TakenIsFront(q, n);
    if |Bytes(q[..i])| < n {
      assert Taken(q, n)[i].psh;
    }
  }

  /** The number of bytes a read of `len` returns. */
  function Readable(rx: Rx, len: int): (n: nat)
    ensures n <= |Unread(rx)|
  {
    Min(Max(len, 0), |Unread(rx)|)
  }

  function BytesRead(rx: Rx, len: int): seq<byte> {
    Unread(rx)[..Readable(rx, len)]
  }

  function DataDequeue(rx: Rx, len: int): Rx {
    rx.(queue := Drop(rx.queue, len),
        pshFlag := rx.pshFlag || PshDropped(rx.queue, len),
        realRcvWnd := Add32(rx.realRcvWnd, Readable(rx, len)))
  }

  lemma {:induction false} DropBytes(q: seq<Skb>, n: int)
    ensures Bytes(Drop(q, n)) == Bytes(q)[Min(Max(n, 0), |Bytes(q)|)..]
    decreases |q|
  {
    if q != [] && n > 0 {
      if n < |q[0].payload| {
        assert Drop(q, n)[1..] == q[1..];
      } else {
        DropBytes(q[1..], n - |q[0].payload|);
      }
    }
  }

  /** The queue after `d` bytes of its first segment have been copied. */
  function EatFront(q: seq<Skb>, d: nat): seq<Skb>
    requires q != [] && d <= |q[0].payload|
  {
    if d == |q[0].payload| then q[1..] else [q[0].(payload := q[0].payload[d..])] + q[1..]
  }

  lemma {:induction false} EatStep(q: seq<Skb>, n: nat, d: nat)
    requires q != [] && n > 0 && d == Min(n, |q[0].payload|)
    ensures Drop(q, n) == Drop(EatFront(q, d), n - d)
    ensures PshDropped(q, n) == ((d == |q[0].payload| && q[0].psh) || PshDropped(EatFront(q, d), n - d))
    ensures Bytes(q) == q[0].payload[..d] + Bytes(EatFront(q, d))
  {
    if d < |q[0].payload| {
      assert EatFront(q, d)[1..] == q[1..];
      assert q[0].payload == q[0].payload[..d] + q[0].payload[d..];
    }
  }

  /** One round of the copy loop on the receive state. */
  function EatRx(rx: Rx, n: nat): Rx
    requires rx.queue != []
  {
    var s := rx.queue[0];
    var d := Min(n, |s.payload|);
    rx.(queue := EatFront(rx.queue, d), realRcvWnd := Add32(rx.realRcvWnd, d),
        pshFlag := rx.pshFlag || (d == |s.payload| && s.psh))
  }

  /** A read of `n` is one round of the copy loop and a read of what is then left. */
  lemma {:induction false} DequeueStep(rx: Rx, n: nat)
    requires rx.queue != [] && n > 0
    ensures var d := Min(n, |rx.queue[0].payload|);
      && DataDequeue(rx, n) == DataDequeue(EatRx(rx, n), n - d)
      && BytesRead(rx, n) == rx.queue[0].payload[..d] + BytesRead(EatRx(rx, n), n - d)
  {
    var d := Min(n, |rx.queue[0].payload|);
    EatStep(rx.queue, n, d);
    Add32Twice(rx.realRcvWnd, d, Readable(EatRx(rx, n), n - d));
  }

  /** `out` has been copied of a read of `len` that began in `rx0`; the rest is still to come. */
  ghost predicate Reading(rx0: Rx, rx: Rx, len: nat, out: seq<byte>) {
    && |out| <= len
    && DataDequeue(rx, len - |out|) == DataDequeue(rx0, len)
    && out + BytesRead(rx, len - |out|) == BytesRead(rx0, len)
  }

  lemma {:induction false} ReadingStart(rx: Rx, len: nat)
    ensures Reading(rx, rx, len, [])
  {
  }

  lemma {:induction false} ReadingStep(rx0: Rx, rx: Rx, len: nat, out: seq<byte>)
    requires Reading(rx0, rx, len, out) && rx.queue != [] && |out| < len
    ensures var d := Min(len - |out|, |rx.queue[0].payload|);
      Reading(rx0, EatRx(rx, len - |out|), len, out + rx.queue[0].payload[..d])
  {
    DequeueStep(rx, len - |out|);
  }

  lemma {:induction false} ReadingDone(rx0: Rx, rx: Rx, len: nat, out: seq<byte>)
    requires Reading(rx0, rx, len, out) && (rx.queue == [] || |out| == len)
    ensures rx == DataDequeue(rx0, len) && out == BytesRead(rx0, len)
  {
    assert BytesRead(rx, len - |out|) == [];
  }

  // ----- a read in several rounds

  /** How far a read of `len` bytes has come: `used` are the segments used up so far, all of them read, and
      PSH was set before or among them exactly if the flag shows it. A read that is not full has emptied the
      queue. */
  ghost predicate Underway(rx: Rx, psh: bool, used: seq<Skb>, out: seq<byte>, len: nat) {
    && |out| <= len && Bytes(used) <= out
    && (rx.pshFlag <==> psh || HasPsh(used))
    && (|out| < len ==> rx.queue == [] && Bytes(used) == out)
  }

  lemma {:induction false} RoundGoesOn(rx: Rx, psh: bool, used: seq<Skb>, out: seq<byte>, len: nat)
    requires |out| < len && Bytes(used) == out && (rx.pshFlag <==> psh || HasPsh(used))
    ensures var n := len - |out|;
      Underway(DataDequeue(rx, n), psh, used + Taken(rx.queue, n), out + BytesRead(rx, n), len)
  {
    var n, t := len - |out|, Taken(rx.queue, len - |out|);
    TakenIsFront(rx.queue, n);
    HasPshEither(used, t);
    BytesConcat(used, t);
    TakenBytes(rx.queue, n);
  }

  lemma {:induction false} FirstRound(rx: Rx, len: nat)
    requires len > 0
    ensures Underway(DataDequeue(rx, len), rx.pshFlag, Taken(rx.queue, len), BytesRead(rx, len), len)
    ensures PshAhead(rx, len) ==> DataDequeue(rx, len).pshFlag || Readable(rx, len) == len
  {
    RoundGoesOn(rx, rx.pshFlag, [], [], len);
    assert [] + Taken(rx.queue, len) == Taken(rx.queue, len) && [] + BytesRead(rx, len) == BytesRead(rx, len);
    if i :| 0 <= i < |rx.queue| && rx.queue[i].psh && |Bytes(rx.queue[..i + 1])| <= len {
      PshNoticed(rx.queue, len, i);
    }
  }

  /** A read takes from the front of the unread bytes, in order, and leaves the rest. */
  lemma {:induction false} DequeueTakesPrefix(rx: Rx, len: int)
    ensures Unread(rx) == BytesRead(rx, len) + Unread(DataDequeue(rx, len))
  {
    DropBytes(rx.queue, len);
  }

  /** An arrival moves segments from queue to queue and adds nothing but itself. */
  lemma {:induction false} ConsumeContents(rx: Rx, x: Skb)
    ensures x in Consume(rx).ofo ==> x in rx.ofo
    ensures x in Consume(rx).queue ==> x in rx.queue || x in rx.ofo
    decreases |rx.ofo|
  {
    if rx.ofo != [] && rx.rcvNxt == rx.ofo[0].seqno {
      ConsumeContents(rx.(rcvNxt := Add32(rx.rcvNxt, |rx.ofo[0].payload|),
                          ofo := rx.ofo[1..], queue := rx.queue + [rx.ofo[0]]), x);
    }
  }

  lemma {:induction false} DataQueueContents(rx: Rx, s: Skb, x: Skb)
    ensures x in DataQueue(rx, s).ofo ==> x in rx.ofo || x == s
    ensures x in DataQueue(rx, s).queue ==> x in rx.queue || x in rx.ofo || x == s
  {
    ConsumeContents(rx.(realRcvWnd := Sub32(rx.realRcvWnd, |s.payload|),
                        rcvNxt := Add32(rx.rcvNxt, |s.payload|), queue := rx.queue + [s]), x);
    InsertContents(rx.ofo, s, x);
  }

  lemma {:induction false} ConsumeAppends(rx: Rx)
    ensures rx.queue <= Consume(rx).queue
    decreases |rx.ofo|
  {
    if rx.ofo != [] && rx.rcvNxt == rx.ofo[0].seqno {
      ConsumeAppends(rx.(rcvNxt := Add32(rx.rcvNxt, |rx.ofo[0].payload|),
                         ofo := rx.ofo[1..], queue := rx.queue + [rx.ofo[0]]));
    }
  }

  /** An arrival only ever adds bytes behind those already readable. */
  lemma {:induction false} DataQueueAppends(rx: Rx, s: Skb)
    ensures rx.queue <= DataQueue(rx, s).queue
    ensures Unread(rx) <= Unread(DataQueue(rx, s))
  {
    var q' := DataQueue(rx, s).queue;
    assert rx.queue <= q' by {
      ConsumeAppends(rx.(realRcvWnd := Sub32(rx.realRcvWnd, |s.payload|),
                         rcvNxt := Add32(rx.rcvNxt, |s.payload|), queue := rx.queue + [s]));
    }
    assert q' == rx.queue + q'[|rx.queue|..];
    BytesConcat(rx.queue, q'[|rx.queue|..]);
  }
}
