/** The receive path as the C code runs it: queues and counters of one socket, updated in place. */
module ReceivePath {
  import opened Words
  import opened TcpData

  /** How a call to `tcp_receive` ends: with bytes, with EAGAIN, or still asleep after the given
      wake-ups, having copied `n` bytes so far. */
  datatype Received = Got(n: nat) | WouldBlock | Asleep(n: nat)

  /** What arrives while the reader sleeps: segments and, after them, possibly an in-sequence FIN. */
  datatype Wakeup = Wakeup(segments: seq<Skb>, fin: bool)

  /** The segment was queued, in order or not, or arrived during one of the sleeps. */
  ghost predicate Came(x: Skb, queue: seq<Skb>, ofo: seq<Skb>, ws: seq<Wakeup>) {
    x in queue || x in ofo || exists k :: 0 <= k < |ws| && x in ws[k].segments
  }

  ghost predicate AllCame(xs: seq<Skb>, rx: Rx, ws: seq<Wakeup>) {
    forall x :: x in xs ==> Came(x, rx.queue, rx.ofo, ws)
  }

  lemma {:induction false} MoreCame(xs: seq<Skb>, front: seq<Skb>, ys: seq<Skb>, rx: Rx, ws: seq<Wakeup>)
    requires AllCame(xs, rx, ws) && AllCame(ys, rx, ws) && front <= ys
    ensures AllCame(xs + front, rx, ws)
  {
  }

  class ReceiveSide {
    var rcvNxt: u32
    var rcvWnd: u32
    var realRcvWnd: u32
    var ofo: seq<Skb>
    var queue: seq<Skb>
    var pshFlag: bool
    /** The peer has sent its FIN. */
    var finFlag: bool
    /** Every byte handed to the reader so far. */
    ghost var delivered: seq<byte>

    ghost function View(): Rx
      reads this
    {
      Rx(rcvNxt, rcvWnd, realRcvWnd, ofo, queue, pshFlag)
    }

    /** Every byte that has become readable so far, in order. */
    ghost function Readied(): seq<byte>
      reads this
    {
      delivered + Unread(View())
    }

    constructor (base: u32, window: u32)
      ensures View() == Rx(base, window, window, [], [], false) && delivered == [] && !finFlag
    {
      rcvNxt, rcvWnd, realRcvWnd := base, window, window;
      ofo, queue, pshFlag, finFlag := [], [], false, false;
      delivered := [];
    }

    method InsertOrdered(s: Skb)
      modifies this`ofo
      ensures ofo == Insert(old(ofo), s)
    {
      var i := 0;
      while i < |ofo|
        invariant 0 <= i <= |ofo| && ofo == old(ofo)
        invariant Insert(ofo, s) == ofo[..i] + Insert(ofo[i..], s)
      {
        var next := ofo[i];
        if s.seqno < next.seqno {
          if s.endSeq > next.seqno {
            // "Could not join skbs": reported, and the scan goes on.
            InsertScan(ofo, i, s);
          } else {
            ofo := ofo[..i] + ([s] + ofo[i..]);
            return;
          }
        } else if s.seqno == next.seqno {
          return;
        } else {
          InsertScan(ofo, i, s);
        }
        i := i + 1;
      }
      ofo := ofo + [s];
    }

    method ConsumeOfoQueue()
      modifies this`rcvNxt, this`ofo, this`queue
      ensures View() == Consume(old(View()))
    {
      while ofo != [] && rcvNxt == ofo[0].seqno
        invariant Consume(View()) == Consume(old(View()))
        decreases |ofo|
      {
        var s := ofo[0];
        rcvNxt := Add32(rcvNxt, |s.payload|);
        ofo := ofo[1..];
        queue := queue + [s];
      }
    }

    /** `tcp_data_queue`: the result says whether a duplicate ACK goes out at once. */
    method DataQueue(s: Skb) returns (ackNow: bool)
      modifies this`rcvNxt, this`realRcvWnd, this`ofo, this`queue
      ensures View() == TcpData.DataQueue(old(View()), s)
      ensures ackNow == AcksAtOnce(old(View()), s)
    {
      if rcvWnd == 0 {
        return false;
      }
      if s.seqno == rcvNxt {
        realRcvWnd := Sub32(realRcvWnd, |s.payload|);
        rcvNxt := Add32(rcvNxt, |s.payload|);
        queue := queue + [s];
        ConsumeOfoQueue();
        return false;
      } else {
        InsertOrdered(s);
        return true;
      }
    }

    /** One round of the copy loop: as much of the first segment as fits in `room` bytes. */
    method CopyFront(buf: array<byte>, at: nat, room: nat) returns (dlen: nat)
      requires queue != [] && 0 < room && at + room <= buf.Length
      modifies this`queue, this`realRcvWnd, this`pshFlag, buf
      ensures dlen == Min(room, |old(queue)[0].payload|)
      ensures View() == EatRx(old(View()), room)
      ensures buf[..at + dlen] == old(buf[..at]) + old(queue)[0].payload[..dlen]
    {
      var s := queue[0];
      dlen := if |s.payload| > room then room else |s.payload|;
      for i := 0 to dlen
        invariant buf[..at + i] == old(buf[..at]) + s.payload[..i]
        invariant View() == old(View())
      {
        buf[at + i] := s.payload[i];
      }
      realRcvWnd := Add32(realRcvWnd, dlen);
      if dlen == |s.payload| {
        pshFlag := pshFlag || s.psh;
        queue := queue[1..];
      } else {
        queue := [s.(payload := s.payload[dlen..])] + queue[1..];
      }
    }

    /** The read of `userlen` bytes that began in `rx0` has copied `out` behind `pre`. */
    ghost predicate Copying(buf: array<byte>, rx0: Rx, pre: seq<byte>, userlen: nat, out: seq<byte>)
      reads this, buf
    {
      && |pre| + userlen <= buf.Length
      && Reading(rx0, View(), userlen, out)
      && buf[..|pre| + |out|] == pre + out
    }

    method CopyRound(buf: array<byte>, at: nat, rlen: nat, userlen: nat, ghost rx0: Rx, ghost pre: seq<byte>, ghost out: seq<byte>)
      returns (dlen: nat, ghost out': seq<byte>)
      requires at == |pre| && rlen == |out| < userlen && queue != [] && Copying(buf, rx0, pre, userlen, out)
      modifies this`queue, this`realRcvWnd, this`pshFlag, buf
      ensures Copying(buf, rx0, pre, userlen, out') && |out'| == rlen + dlen
      ensures |queue| < |old(queue)| || (|queue| == |old(queue)| && dlen > 0)
    {
      ReadingStep(rx0, View(), userlen, out);
      ghost var front := queue[0].payload;
      dlen := CopyFront(buf, at + rlen, userlen - rlen);
      out' := out + front[..dlen];
      ConcatAssociates(pre, out, front[..dlen]);
    }

    /** `tcp_data_dequeue`: fills `buf` from index `at` with the next unread bytes. */
    method DataDequeue(buf: array<byte>, at: nat, userlen: nat) returns (rlen: nat)
      requires at + userlen <= buf.Length
      modifies this`queue, this`realRcvWnd, this`pshFlag, buf
      ensures View() == TcpData.DataDequeue(old(View()), userlen)
      ensures rlen == Readable(old(View()), userlen)
      ensures buf[..at + rlen] == old(buf[..at]) + BytesRead(old(View()), userlen)
    {
      ghost var rx0, pre, out := View(), buf[..at], [];
      rlen := 0;
      ReadingStart(rx0, userlen);
      while queue != [] && rlen < userlen
        invariant rlen == |out| && Copying(buf, rx0, pre, userlen, out)
        decreases |queue|, userlen - rlen
      {
        var dlen;
        dlen, out := CopyRound(buf, at, rlen, userlen, rx0, pre, out);
        rlen := rlen + dlen;
      }
      ReadingDone(rx0, View(), userlen, out);
    }

    /** The segments that arrive while the reader sleeps. */
    method Arrivals(ss: seq<Skb>)
      modifies this`rcvNxt, this`realRcvWnd, this`ofo, this`queue
      ensures old(Readied()) <= Readied()
      ensures rcvWnd == old(rcvWnd) && pshFlag == old(pshFlag)
      ensures forall x :: x in queue || x in ofo ==> x in old(queue) || x in old(ofo) || x in ss
    {
      for i := 0 to |ss|
        invariant old(Readied()) <= Readied()
        invariant forall x :: x in queue || x in ofo ==> x in old(queue) || x in old(ofo) || x in ss
      {
        ghost var rx := View();
        DataQueueAppends(rx, ss[i]);
        var _ := DataQueue(ss[i]);
        forall x | x in queue || x in ofo
          ensures x in rx.queue || x in rx.ofo || x == ss[i]
        {
          DataQueueContents(rx, ss[i], x);
        }
      }
    }

    /** The FIN takes one number and no room. */
    method FinArrives()
      modifies this`rcvNxt, this`finFlag
      ensures finFlag && View() == old(View()).(rcvNxt := Add32(old(rcvNxt), 1))
    {
      rcvNxt := Add32(rcvNxt, 1);
      finFlag := true;
    }

    method Sleep(w: Wakeup)
      modifies this`rcvNxt, this`realRcvWnd, this`ofo, this`queue, this`finFlag
      ensures old(Readied()) <= Readied()
      ensures finFlag == (old(finFlag) || w.fin) && pshFlag == old(pshFlag)
      ensures forall x :: x in queue || x in ofo ==> x in old(queue) || x in old(ofo) || x in w.segments
    {
      Arrivals(w.segments);
      if w.fin {
        FinArrives();
      }
    }

    /** One round of `tcp_receive`: moves bytes from unread to delivered. */
    method ReadRound(buf: array<byte>, at: nat, len: nat) returns (n: nat)
      requires at + len <= buf.Length
      modifies this`queue, this`realRcvWnd, this`pshFlag, this`delivered, buf
      ensures n == Readable(old(View()), len)
      ensures delivered == old(delivered) + BytesRead(old(View()), len)
      ensures buf[..at + n] == old(buf[..at]) + BytesRead(old(View()), len)
      ensures Readied() == old(Readied())
      ensures View() == TcpData.DataDequeue(old(View()), len)
    {
      DequeueTakesPrefix(View(), len);
      ConcatAssociates(delivered, BytesRead(View(), len), Unread(TcpData.DataDequeue(View(), len)));
      delivered := delivered + BytesRead(View(), len);
      n := DataDequeue(buf, at, len);
    }

    /** A read of `len` bytes that began in `rx0`, with `had` delivered and `ready` readied before, has copied
        `out`, using up the segments `used`. */
    ghost predicate InRead(buf: array<byte>, len: nat, rx0: Rx, had: seq<byte>, ready: seq<byte>, ws: seq<Wakeup>, out: seq<byte>, used: seq<Skb>)
      reads this, buf
    {
      && |out| <= len <= buf.Length && buf[..|out|] == out
      && delivered == had + out && ready <= Readied()
      && Underway(View(), rx0.pshFlag, used, out, len)
      && AllCame(used, rx0, ws) && AllCame(ofo, rx0, ws)
    }

    /** The round before any sleep. */
    method FirstRead(buf: array<byte>, len: nat, ghost ws: seq<Wakeup>) returns (rlen: nat, ghost out: seq<byte>, ghost used: seq<Skb>)
      requires 0 < len <= buf.Length
      modifies this`queue, this`realRcvWnd, this`pshFlag, this`delivered, buf
      ensures rlen == |out| == Readable(old(View()), len)
      ensures InRead(buf, len, old(View()), old(delivered), old(Readied()), ws, out, used)
      ensures PshAhead(old(View()), len) ==> pshFlag || rlen == len
    {
      ghost var rx := View();
      out := BytesRead(rx, len);
      used := Taken(rx.queue, len);
      FirstRound(rx, len);
      TakenIsFront(rx.queue, len);
      rlen := ReadRound(buf, 0, len);
      assert buf[..0] == [];
    }

    /** One sleep and the round after it. */
    method SleepAndRead(buf: array<byte>, len: nat, rlen: nat, ws: seq<Wakeup>, k: nat,
        ghost rx0: Rx, ghost had: seq<byte>, ghost ready: seq<byte>, ghost out: seq<byte>, ghost used: seq<Skb>)
      returns (cur: nat, ghost out': seq<byte>, ghost used': seq<Skb>)
      requires k < |ws| && rlen == |out| < len && InRead(buf, len, rx0, had, ready, ws, out, used)
      modifies this`rcvNxt, this`realRcvWnd, this`ofo, this`queue, this`pshFlag, this`finFlag, this`delivered, buf
      ensures |out'| == rlen + cur && InRead(buf, len, rx0, had, ready, ws, out', used')
      ensures finFlag == (old(finFlag) || ws[k].fin)
    {
      Sleep(ws[k]);
      ghost var rx := View();
      out' := out + BytesRead(rx, len - rlen);
      used' := used + Taken(rx.queue, len - rlen);
      ConcatAssociates(had, out, BytesRead(rx, len - rlen));
      RoundGoesOn(rx, rx0.pshFlag, used, out, len);
      assert AllCame(used', rx0, ws) && AllCame(rx.ofo, rx0, ws) by {
        assert AllCame(rx.queue, rx0, ws) && AllCame(rx.ofo, rx0, ws);
        TakenIsFront(rx.queue, len - rlen);
        MoreCame(used, Taken(rx.queue, len - rlen), rx.queue, rx0, ws);
      }
      cur := ReadRound(buf, rlen, len - rlen);
    }

    /** `tcp_receive`. A blocking reader sleeps between rounds; `wakeups[k]` holds what arrived during its
        k-th sleep. Whatever arrives meanwhile, the bytes copied are the next bytes of the stream, in
        order, and no byte is lost or duplicated. After the FIN nobody sleeps and nobody is told to try
        again. A segment with PSH among the bytes asked for ends the read at once; `used` are the segments
        used up, and a blocking reader that gets less than it asked for without a FIN has met PSH among
        them, or the flag was set before. */
    method Receive(buf: array<byte>, len: nat, nonblock: bool, wakeups: seq<Wakeup>) returns (r: Received, ghost used: seq<Skb>)
      requires len <= buf.Length
      modifies this`rcvNxt, this`realRcvWnd, this`ofo, this`queue, this`pshFlag, this`finFlag, this`delivered, buf
      ensures var n := if r.WouldBlock? then 0 else r.n;
        n <= len && delivered == old(delivered) + buf[..n]
      ensures old(Readied()) <= Readied()
      ensures r.WouldBlock? ==> nonblock && old(Unread(View())) == []
      ensures (nonblock || old(finFlag)) && r.Got? ==> r.n == Readable(old(View()), len)
      ensures nonblock ==> !r.Asleep?
      ensures old(finFlag) ==> r.Got?
      ensures len > 0 ==> !pshFlag
      ensures len > 0 && (old(pshFlag) || exists i :: 0 <= i < |old(queue)| && old(queue)[i].psh && |Bytes(old(queue)[..i + 1])| <= len)
        ==> r == Got(Readable(old(View()), len))
      ensures !nonblock && r.Got? && r.n < len && !finFlag ==> old(pshFlag) || HasPsh(used)
      ensures !r.WouldBlock? && r.n < len ==> Bytes(used) == buf[..r.n]
      ensures r.Asleep? ==> r.n < len && !finFlag && !old(pshFlag) && !HasPsh(used)
      ensures r.Asleep? ==> forall k :: 0 <= k < |wakeups| ==> !wakeups[k].fin
      ensures forall x :: x in used ==> Came(x, old(queue), old(ofo), wakeups)
    {
      if len == 0 {
        return Got(0), [];
      }
      ghost var rx0, had, ready, fin0 := View(), delivered, Readied(), finFlag;
      ghost var out;
      var rlen;
      rlen, out, used := FirstRead(buf, len, wakeups);
      var k := 0;
      while !pshFlag && !finFlag && rlen < len && !nonblock
        invariant rlen == |out| && k <= |wakeups| && InRead(buf, len, rx0, had, ready, wakeups, out, used)
        invariant k == 0 || (!nonblock && !fin0 && !PshAhead(rx0, len))
        invariant k == 0 ==> rlen == Readable(rx0, len) && (PshAhead(rx0, len) ==> pshFlag || rlen == len)
        invariant fin0 ==> finFlag
        invariant !finFlag ==> forall j :: 0 <= j < k ==> !wakeups[j].fin
        decreases |wakeups| - k
      {
        if k == |wakeups| {
          return Asleep(rlen), used;
        }
        var cur;
        cur, out, used := SleepAndRead(buf, len, rlen, wakeups, k, rx0, had, ready, out, used);
        k := k + 1;
        rlen := rlen + cur;
      }
      if pshFlag {
        pshFlag := false;
      } else if !finFlag && nonblock && rlen == 0 {
        return WouldBlock, used;
      }
      return Got(rlen), used;
    }
  }
}
