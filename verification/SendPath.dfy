/** The send side as the object the C code updates in place (src/tcp_output.c and the sender
    half of src/tcp_input.c). Every method is proved against the functions of `TcpOutput` and
    `Congestion`, which the run theorems use. */
module SendPath {
  import opened Words
  import opened Stream
  import opened TcpData
  import opened Congestion
  import opened TcpOutput
  import TcpInput
  import opened Sack

  // ----- the cut that tcp_send makes

  /** How `tcp_send` cuts a buffer: full segments, and PSH on the last one. */
  function Cut(buf: seq<byte>, mss: nat): seq<Chunk>
    requires mss > 0
    decreases |buf|
  {
    if buf == [] then []
    else
      var n := Min(mss, |buf|);
      [Chunk(buf[..n], n == |buf|)] + Cut(buf[n..], mss)
  }

  /** Nothing is lost, repeated or reordered by the cut; every segment but the last is full, none is
      empty, and PSH marks the last one and no other. */
  lemma {:induction false} CutIsExact(buf: seq<byte>, mss: nat)
    requires mss > 0
    ensures var cs := Cut(buf, mss);
      && Flat(cs) == buf
      && (forall i :: 0 <= i < |cs| ==> 0 < |cs[i].payload| <= mss)
      && (forall i :: 0 <= i < |cs| - 1 ==> |cs[i].payload| == mss)
      && (forall i :: 0 <= i < |cs| ==> (cs[i].psh <==> i == |cs| - 1))
    decreases |buf|
  {
    if buf != [] {
      var n := Min(mss, |buf|);
      CutIsExact(buf[n..], mss);
      var cs, rest := Cut(buf, mss), Cut(buf[n..], mss);
      FlatCons(cs[0], rest);
      assert Flat(cs) == buf[..n] + buf[n..] == buf;
      assert forall i :: 0 < i < |cs| ==> cs[i] == rest[i - 1];
      assert n < |buf| <==> rest != [];
    }
  }

  /** What is left of the buffer after `k` rounds of the loop, for any segment size. */
  function LeftAfter(buf: seq<byte>, mss: nat, k: nat): seq<byte>
    decreases k
  {
    if k == 0 then buf else LeftAfter(buf[Min(mss, |buf|)..], mss, k - 1)
  }

  lemma {:induction false} NothingCut(buf: seq<byte>, k: nat)
    ensures LeftAfter(buf, 0, k) == buf
    decreases k
  {
    if k > 0 {
      assert buf[0..] == buf;
      NothingCut(buf, k - 1);
    }
  }

  lemma {:induction false} AllCut(buf: seq<byte>, mss: nat)
    requires mss > 0
    ensures LeftAfter(buf, mss, |Cut(buf, mss)|) == []
    decreases |buf|
  {
    if buf != [] {
      AllCut(buf[Min(mss, |buf|)..], mss);
    }
  }

  /** The loop of `tcp_send` ends exactly when the buffer is empty or the SMSS is not zero. */
  lemma {:induction false} SendEndsIff(buf: seq<byte>, mss: nat)
    ensures (exists k: nat :: LeftAfter(buf, mss, k) == []) <==> buf == [] || mss > 0
  {
    if mss > 0 {
      AllCut(buf, mss);
    } else {
      forall k: nat
        ensures LeftAfter(buf, mss, k) == buf
      {
        NothingCut(buf, k);
      }
      assert LeftAfter(buf, mss, 0) == buf;
    }
  }

  // ----- what tcp_clean_rto_queue does per segment

  function PopHead(tx: Tx): Tx
    requires tx.queue != []
  {
    var acked := Dlen(tx.queue[0]);
    tx.(queue := tx.queue[1..], inflight := if tx.inflight >= acked then tx.inflight - acked else 0)
  }

  lemma {:induction false} CleanStep(tx: Tx, una: u32)
    requires tx.queue != [] && tx.queue[0].seqno > 0 && tx.queue[0].endSeq <= una
    ensures Clean(tx, una) == Clean(PopHead(tx), una)
    ensures TcpInput.AckedLengths(tx, una) == [Dlen(tx.queue[0])] + TcpInput.AckedLengths(PopHead(tx), una)
  {
    var q, t := tx.queue, tx.queue[1..];
    var k := Acked(t, una);
    assert q[k + 1..] == t[k..];
    assert q[..k + 1][0] == q[0] && q[..k + 1][1..] == t[..k];
  }

  // ----- sender-side SACK marking

  predicate CoveredBy(s: Skb, b: SackBlock) {
    s.seqno >= b.left && s.endSeq <= b.right
  }

  predicate SomeCovers(bs: seq<SackBlock>, s: Skb) {
    exists i :: 0 <= i < |bs| && CoveredBy(s, bs[i])
  }

  function MaxRight(bs: seq<SackBlock>): (m: u32)
    ensures forall i :: 0 <= i < |bs| ==> bs[i].right <= m
    ensures m == 0 || exists i :: 0 <= i < |bs| && bs[i].right == m
  {
    if bs == [] then 0
    else
      var m := MaxRight(bs[..|bs| - 1]);
      if bs[|bs| - 1].right > m then bs[|bs| - 1].right else m
  }

  function Mark(q: seq<Skb>, bs: seq<SackBlock>): (r: seq<Skb>)
    ensures |r| == |q|
    ensures forall i :: 0 <= i < |q| ==> r[i] == q[i].(sacked := q[i].sacked || SomeCovers(bs, q[i]))
  {
    if q == [] then [] else [q[0].(sacked := q[0].sacked || SomeCovers(bs, q[0]))] + Mark(q[1..], bs)
  }

  /** Blocks that cover only bytes the receiver holds never mark a segment the receiver lacks any
      byte of. */
  lemma {:induction false} MarkedIsHeld(q: seq<Skb>, bs: seq<SackBlock>, ofo: seq<Skb>, i: nat)
    requires i < |q| && !q[i].sacked && Mark(q, bs)[i].sacked
    requires forall j :: 0 <= j < |bs| ==> Honest(ofo, bs[j])
    ensures forall x :: HasByte(q[i], x) ==> HeldByte(ofo, x)
  {
    var j :| 0 <= j < |bs| && CoveredBy(q[i], bs[j]);
    forall x | HasByte(q[i], x)
      ensures HeldByte(ofo, x)
    {
      assert InBlock(bs[j], x);
    }
  }

  /** A segment is marked exactly if some block covers every byte of it. */
  lemma {:induction false} CoveredIff(s: Skb, b: SackBlock)
    requires s.payload != [] && s.endSeq == s.seqno + |s.payload|
    ensures CoveredBy(s, b) <==> forall x :: HasByte(s, x) ==> InBlock(b, x)
  {
    assert HasByte(s, s.seqno) && HasByte(s, s.endSeq - 1);
  }

  lemma {:induction false} CoversMarked(q: seq<Skb>, bs: seq<SackBlock>, a: nat, b: nat)
    requires Covers(q, a, b)
    ensures Covers(Mark(q, bs), a, b)
    decreases |q|
  {
    if q != [] {
      assert Mark(q, bs)[1..] == Mark(q[1..], bs);
      CoversMarked(q[1..], bs, q[0].endSeq, b);
    }
  }

  /** Marking keeps the send side consistent. */
  lemma {:induction false} MarkKeeps(tx: Tx, bs: seq<SackBlock>)
    ensures SendInv(tx) ==> forall right: u32 :: SendInv(tx.(queue := Mark(tx.queue, bs), sackMaxRight := right))
  {
    if SendInv(tx) {
      CoversMarked(tx.queue, bs, Front(tx), tx.sndNxt);
    }
  }

  // ----- the object

  /** The send-side fields as another thread left them while the writer slept. */
  datatype Wake = Wake(tx: Tx, cc: Cc)

  /** Sleeping from `before` until only `rest` of the wake-ups is left ends in `after`: nothing but the
      other threads changes the fields. */
  ghost predicate Woken(before: Wake, wakes: seq<Wake>, rest: seq<Wake>, after: Wake) {
    && |rest| <= |wakes| && rest == wakes[|wakes| - |rest|..]
    && after == if |rest| == |wakes| then before else wakes[|wakes| - |rest| - 1]
  }

  /** A transmission of new data, with the windows at that moment. */
  datatype Sent = Sent(chunk: Chunk, inflight: u32, cwnd: u32, sndWnd: u32)

  function Chunks(log: seq<Sent>): (cs: seq<Chunk>)
    ensures |cs| == |log| && forall i :: 0 <= i < |log| ==> cs[i] == log[i].chunk
  {
    if log == [] then [] else [log[0].chunk] + Chunks(log[1..])
  }

  class SendSide {
    var sndUna: u32
    var sndNxt: u32
    var sndWnd: u32
    var inflight: u32
    var queue: seq<Skb>
    var sackMaxRight: u32
    var smss: u16
    var cwnd: u32
    var ssthresh: u32
    var bytesAcked: u32
    var dupacks: u8
    var inRecovery: bool

    ghost function State(): Tx
      reads this
    {
      Tx(sndUna, sndNxt, sndWnd, inflight, queue, sackMaxRight)
    }

    ghost function Control(): Cc
      reads this
    {
      Cc(smss, cwnd, ssthresh, bytesAcked, dupacks, inRecovery)
    }

    constructor (tx: Tx, cc: Cc)
      ensures State() == tx && Control() == cc
    {
      sndUna, sndNxt, sndWnd := tx.sndUna, tx.sndNxt, tx.sndWnd;
      inflight, queue, sackMaxRight := tx.inflight, tx.queue, tx.sackMaxRight;
      smss, cwnd, ssthresh := cc.smss, cc.cwnd, cc.ssthresh;
      bytesAcked, dupacks, inRecovery := cc.bytesAcked, cc.dupacks, cc.inRecovery;
    }

    /** `tcp_cong_avoid` */
    method CongAvoid(acked: u32)
      modifies this`cwnd, this`bytesAcked
      ensures Control() == Congestion.CongAvoid(old(Control()), acked)
    {
      if acked == 0 || inRecovery {
        return;
      }
      if cwnd < ssthresh {
        cwnd := Add32(cwnd, Min(acked, smss));
      } else {
        bytesAcked := Add32(bytesAcked, acked);
        if bytesAcked >= cwnd {
          bytesAcked := bytesAcked - cwnd;
          cwnd := Add32(cwnd, smss);
        }
      }
    }

    /** `tcp_clean_rto_queue`: `stop` asks for `tcp_stop_rto_timer`. */
    method CleanRtoQueue(una: u32) returns (stop: bool)
      modifies this`queue, this`inflight, this`cwnd, this`bytesAcked
      ensures State() == Clean(old(State()), una)
      ensures Control() == AckAll(old(Control()), TcpInput.AckedLengths(old(State()), una))
      ensures stop == StopsTimer(State())
    {
      while queue != [] && queue[0].seqno > 0 && queue[0].endSeq <= una
        invariant Clean(State(), una) == Clean(old(State()), una)
        invariant AckAll(Control(), TcpInput.AckedLengths(State(), una))
               == AckAll(old(Control()), TcpInput.AckedLengths(old(State()), una))
        decreases |queue|
      {
        CleanStep(State(), una);
        var acked := Dlen(queue[0]);
        queue := queue[1..];
        inflight := if inflight >= acked then inflight - acked else 0;
        CongAvoid(acked);
      }
      stop := queue == [] || inflight == 0;
    }

    method NumberAt(i: nat)
      requires i < |queue|
      modifies this`queue, this`inflight, this`sndNxt
      ensures State() == Number(old(State()), i)
    {
      var s := queue[i];
      var next := Add32(sndNxt, |s.payload|);
      queue := queue[i := s.(seqno := sndNxt, endSeq := next)];
      sndNxt := next;
      inflight := Add32(inflight, |s.payload|);
    }

    /** `tcp_send_next`, with what it would transmit. */
    method SendNext(amount: nat, extra: nat) returns (out: seq<Skb>)
      modifies this`queue, this`inflight, this`sndNxt
      ensures TcpOutput.SendNext(old(State()), Control(), 0, amount, extra) == NextResult(State(), out)
    {
      var wnd := Min(Add32(cwnd, extra), sndWnd);
      out := [];
      var i := 0;
      ghost var goal := TcpOutput.SendNext(State(), Control(), 0, amount, extra);
      while i < |queue| && i < amount
        invariant i <= |queue|
        invariant var rest := TcpOutput.SendNext(State(), Control(), i, amount, extra);
          goal == NextResult(rest.tx, out + rest.out)
        decreases |queue| - i
      {
        if queue[i].seqno == 0 {
          if Add32(inflight, |queue[i].payload|) > wnd {
            return;
          }
          NumberAt(i);
          out := out + [queue[i]];
        }
        i := i + 1;
      }
    }

    /** `tcp_retransmit_candidate`, on a queue that is not empty. */
    method RetransmitCandidate() returns (i: nat)
      requires queue != []
      ensures i == Candidate(State())
    {
      if sackMaxRight == 0 {
        return 0;
      }
      i := 0;
      while i < |queue| && (queue[i].sacked || queue[i].endSeq > sackMaxRight)
        invariant i <= |queue|
        invariant FirstHole(queue, sackMaxRight) == i + FirstHole(queue[i..], sackMaxRight)
      {
        assert queue[i..][1..] == queue[i + 1..];
        i := i + 1;
      }
      if i == |queue| {
        return 0;
      }
    }

    /** `tcp_sack_clear` and the window part of `tcp_retransmission_timeout`. */
    method TimeoutWindow()
      modifies this`queue, this`sackMaxRight, this`ssthresh, this`cwnd, this`bytesAcked
      ensures Control() == Timeout(old(Control()), inflight)
      ensures State() == old(State()).(queue := ClearSacked(old(queue)), sackMaxRight := 0)
    {
      ssthresh := Max(inflight / 2, 2 * smss);
      cwnd := smss;
      bytesAcked := 0;
      ghost var q := queue;
      for i := 0 to |queue|
        invariant Control() == Timeout(old(Control()), inflight)
        invariant |queue| == |q|
        invariant forall j :: 0 <= j < i ==> queue[j] == q[j].(sacked := false)
        invariant forall j :: i <= j < |q| ==> queue[j] == q[j]
      {
        queue := queue[i := queue[i].(sacked := false)];
      }
      sackMaxRight := 0;
    }

    /** `tcp_handle_dupack` with `tcp_enter_fast_recovery`: `candidate` is the queue index sent again,
        if any. `tcp_send_next` follows in `TcpInput.DupackPath`. */
    method HandleDupack() returns (candidate: Option<nat>)
      modifies this`dupacks, this`ssthresh, this`cwnd, this`bytesAcked, this`inRecovery
      ensures Control() == Congestion.HandleDupack(old(Control()), inflight)
      ensures candidate == if dupacks == 3 && queue != [] then Some(Candidate(State())) else None
    {
      candidate := None;
      dupacks := (dupacks + 1) % 256;
      if dupacks == 3 {
        ssthresh := Max(inflight / 2, 2 * smss);
        if queue != [] {
          var i := RetransmitCandidate();
          candidate := Some(i);
        }
        cwnd := Add32(ssthresh, 3 * smss);
        bytesAcked := 0;
        inRecovery := true;
      } else if dupacks > 3 {
        cwnd := Add32(cwnd, smss);
      }
    }

    /** `tcp_sack_mark_write_queue` */
    method MarkWriteQueue(bs: seq<SackBlock>)
      modifies this`queue, this`sackMaxRight
      ensures State() == old(State()).(queue := Mark(old(queue), bs),
                                       sackMaxRight := Max(MaxRight(bs), old(sackMaxRight)))
      ensures old(SendInv(State())) ==> SendInv(State())
    {
      MarkKeeps(State(), bs);
      ghost var q := queue;
      for i := 0 to |queue|
        invariant |queue| == |q| && sackMaxRight == old(sackMaxRight)
        invariant forall j :: 0 <= j < i ==> queue[j] == q[j].(sacked := q[j].sacked || SomeCovers(bs, q[j]))
        invariant forall j :: i <= j < |q| ==> queue[j] == q[j]
      {
        var found := AnyCovers(bs, queue[i]);
        if found {
          queue := queue[i := queue[i].(sacked := true)];
        }
      }
      var maxRight: u32 := 0;
      for i := 0 to |bs|
        invariant maxRight == MaxRight(bs[..i])
        invariant queue == Mark(q, bs) && sackMaxRight == old(sackMaxRight)
      {
        assert bs[..i + 1][..i] == bs[..i];
        if bs[i].right > maxRight {
          maxRight := bs[i].right;
        }
      }
      assert bs[..|bs|] == bs;
      if maxRight > sackMaxRight {
        sackMaxRight := maxRight;
      }
    }

    /** `tcp_wait_snd_wnd`: each wake-up finds the fields in whatever state the other threads left
        them. The wait ends only with room for `bytes`; otherwise the writer is still asleep. */
    method WaitSndWnd(bytes: nat, wakes: seq<Wake>) returns (open: bool, rest: seq<Wake>)
      modifies this
      ensures open ==> WindowOpen(State(), Control(), bytes)
      ensures Woken(Wake(old(State()), old(Control())), wakes, rest, Wake(State(), Control()))
      ensures !open ==> rest == []
    {
      var i := 0;
      while Add32(inflight, bytes) > Min(cwnd, sndWnd)
        invariant i <= |wakes|
        invariant Woken(Wake(old(State()), old(Control())), wakes, wakes[i..], Wake(State(), Control()))
        decreases |wakes| - i
      {
        if i == |wakes| {
          return false, wakes[i..];
        }
        Resume(wakes[i]);
        i := i + 1;
      }
      return true, wakes[i..];
    }

    method Resume(w: Wake)
      modifies this
      ensures State() == w.tx && Control() == w.cc
    {
      sndUna, sndNxt, sndWnd := w.tx.sndUna, w.tx.sndNxt, w.tx.sndWnd;
      inflight, queue, sackMaxRight := w.tx.inflight, w.tx.queue, w.tx.sackMaxRight;
      smss, cwnd, ssthresh := w.cc.smss, w.cc.cwnd, w.cc.ssthresh;
      bytesAcked, dupacks, inRecovery := w.cc.bytesAcked, w.cc.dupacks, w.cc.inRecovery;
    }

    /** `tcp_queue_transmit_skb` after the wait: `rearm` asks for `tcp_rearm_rto_timer`. */
    method QueueTransmit(payload: seq<byte>, psh: bool) returns (rearm: bool)
      modifies this`queue, this`inflight, this`sndNxt
      ensures State() == Enqueue(old(State()), payload, psh)
      ensures rearm <==> old(queue) == []
    {
      rearm := queue == [];
      var seqno := sndNxt;
      sndNxt := Add32(sndNxt, |payload|);
      inflight := Add32(inflight, |payload|);
      queue := queue + [Skb(seqno, sndNxt, payload, psh, false)];
    }

    /** One round of `tcp_send`: wait, then queue and transmit. */
    method SendOne(c: Chunk, wakes: seq<Wake>) returns (ok: bool, x: Sent, rest: seq<Wake>)
      modifies this
      ensures ok ==> x.chunk == c && Within(x)
    {
      ok, rest := WaitSndWnd(|c.payload|, wakes);
      x := Sent(c, 0, 0, 0);
      if ok {
        var rearm := QueueTransmit(c.payload, c.psh);
        x := Sent(c, inflight, cwnd, sndWnd);
      }
    }

    /** `tcp_send`: whatever happens while the writer sleeps, the segments sent so far are the first of
        the cut, and none left more in flight than the windows of that moment allowed. A call that
        returns has sent exactly its buffer. */
    method Send(buf: seq<byte>, wakes: seq<Wake>) returns (done: bool, log: seq<Sent>)
      requires smss > 0
      modifies this
      ensures Chunks(log) <= Cut(buf, old(smss))
      ensures done ==> Chunks(log) == Cut(buf, old(smss)) && Flat(Chunks(log)) == buf
      ensures forall i :: 0 <= i < |log| ==> Within(log[i])
    {
      var mss := smss;
      var left, rest := buf, wakes;
      log := [];
      done := true;
      while |left| > 0
        invariant Cut(buf, mss) == Chunks(log) + Cut(left, mss)
        invariant forall i :: 0 <= i < |log| ==> Within(log[i])
        decreases |left|
      {
        var n := Min(mss, |left|);
        var ok, x, rest' := SendOne(Chunk(left[..n], n == |left|), rest);
        if !ok {
          return false, log;
        }
        LogGrows(buf, mss, log, left, x);
        log, left, rest := log + [x], left[n..], rest';
      }
      CutIsExact(buf, mss);
    }
  }

  /** No more in flight than the windows allow. */
  predicate Within(x: Sent) {
    x.inflight <= Min(x.cwnd, x.sndWnd)
  }

  lemma {:induction false} LogGrows(buf: seq<byte>, mss: nat, log: seq<Sent>, left: seq<byte>, x: Sent)
    requires mss > 0 && left != [] && Cut(buf, mss) == Chunks(log) + Cut(left, mss)
    requires x.chunk == Chunk(left[..Min(mss, |left|)], Min(mss, |left|) == |left|)
    ensures Cut(buf, mss) == Chunks(log + [x]) + Cut(left[Min(mss, |left|)..], mss)
  {
    ChunksAppend(log, x);
    ConcatAssociates(Chunks(log), [x.chunk], Cut(left[Min(mss, |left|)..], mss));
  }

  lemma {:induction false} ChunksAppend(log: seq<Sent>, x: Sent)
    ensures Chunks(log + [x]) == Chunks(log) + [x.chunk]
  {
  }

  /** The inner loop of the marking: stop at the first block that covers the segment. */
  method AnyCovers(bs: seq<SackBlock>, s: Skb) returns (found: bool)
    ensures found == SomeCovers(bs, s)
  {
    for i := 0 to |bs|
      invariant forall j :: 0 <= j < i ==> !CoveredBy(s, bs[j])
    {
      if CoveredBy(s, bs[i]) {
        return true;
      }
    }
    return false;
  }
}
