/** `tcp_input_state` of an established connection as the C code runs it, on a socket made of its
    send side and its receive side. The whole call is proved against `TcpInput.Input`. */
module TcpSocket {
  import opened Words
  import opened TcpData
  import opened TcpOutput
  import opened TcpInput
  import opened SendPath
  import opened ReceivePath

  class TcpSock {
    const snd: SendSide
    const rcv: ReceiveSide
    var lastAckWin: u16
    var sndScale: u8
    var rcvScale: u8
    var delacks: u8
    var delackArmed: bool

    ghost function View(): Sock
      reads this, snd, rcv
    {
      Sock(snd.State(), snd.Control(), rcv.View(), lastAckWin, sndScale, rcvScale, delacks, delackArmed)
    }

    constructor (s: SendSide, r: ReceiveSide, lastWin: u16, scaleOut: u8, scaleIn: u8)
      ensures snd == s && rcv == r
      ensures View() == Sock(s.State(), s.Control(), r.View(), lastWin, scaleOut, scaleIn, 0, false)
    {
      snd, rcv := s, r;
      lastAckWin, sndScale, rcvScale, delacks, delackArmed := lastWin, scaleOut, scaleIn, 0, false;
    }

    /** `tcp_transmit_skb`: the header fields at the moment of transmission. */
    method Emit(seqno: u32, payload: seq<byte>, psh: bool) returns (g: Segment)
      ensures g == Transmit(View(), seqno, payload, psh)
    {
      return Segment(seqno, rcv.rcvNxt, WindowBits(rcv.realRcvWnd, rcvScale), payload, psh);
    }

    method SendAck() returns (out: seq<Segment>)
      ensures out == [PureAck(View())]
    {
      var g := Emit(snd.sndNxt, [], false);
      return [g];
    }

    /** `tcp_send_next` with its transmissions. The header fields do not depend on the queue. */
    method EmitNext(extra: nat) returns (out: seq<Segment>)
      modifies snd`queue, snd`inflight, snd`sndNxt
      ensures SendNextOut(old(View()), extra) == Outcome(View(), out, [])
    {
      ghost var s := View();
      var skbs := snd.SendNext(|snd.queue|, extra);
      out := [];
      ghost var s' := View();
      for i := 0 to |skbs|
        invariant View() == s'
        invariant TransmitAll(s, skbs) == out + TransmitAll(s, skbs[i..])
      {
        assert skbs[i..][0] == skbs[i] && skbs[i..][1..] == skbs[i + 1..];
        var g := Emit(skbs[i].seqno, skbs[i].payload, skbs[i].psh);
        out := out + [g];
      }
    }

    /** `tcp_handle_dupack` */
    method Dupack() returns (out: seq<Segment>, ops: seq<RtoOp>)
      modifies snd
      ensures DupackPath(old(View())) == Outcome(View(), out, ops)
    {
      ghost var s := View();
      out, ops := [], [];
      var candidate := snd.HandleDupack();
      if candidate.Some? {
        var skb := snd.queue[candidate.value];
        var g := Emit(skb.seqno, skb.payload, skb.psh);
        out := [g];
      }
      if snd.dupacks == 3 {
        ops := [Rearm];
      }
      var extra := if snd.dupacks < 3 then snd.dupacks * snd.smss else 0;
      var more := EmitNext(extra);
      out := out + more;
    }

    /** The acknowledgement part: `tcp_rtt`, `tcp_clean_rto_queue`, `tcp_exit_fast_recovery`. */
    method Acknowledge(ackno: u32) returns (ops: seq<RtoOp>)
      modifies snd
      ensures AckPath(old(View()), ackno) == Outcome(View(), [], ops)
    {
      ops := [];
      if snd.sndUna < ackno <= snd.sndNxt {
        snd.sndUna := ackno;
        ops := [Sample];
        var stop := snd.CleanRtoQueue(ackno);
        if stop {
          ops := ops + [Stop];
        }
        if snd.inRecovery {
          snd.cwnd := snd.ssthresh;
          snd.inRecovery := false;
          snd.dupacks := 0;
          snd.bytesAcked := 0;
        }
      }
    }

    method Text(g: Segment) returns (out: seq<Segment>)
      modifies rcv`rcvNxt, rcv`realRcvWnd, rcv`ofo, rcv`queue
      ensures DataPath(old(View()), g) == Outcome(View(), out, [])
    {
      out := [];
      if g.psh || g.payload != [] {
        var now := rcv.DataQueue(Arrived(g.seqno, g.payload, g.psh));
        if now {
          out := SendAck();
        }
      }
    }

    /** The closing part: piggy-back, acknowledge at once, or arm the delayed ACK. */
    method Policy(g: Segment, expected: bool) returns (out: seq<Segment>, ops: seq<RtoOp>)
      modifies this`delacks, this`delackArmed, snd`queue, snd`inflight, snd`sndNxt
      ensures AckPolicy(old(View()), g, expected) == Outcome(View(), out, ops)
    {
      out, ops := [], [];
      if !expected {
        return;
      }
      delackArmed := false;
      if snd.queue != [] {
        out := EmitNext(0);
        ops := [Rearm];
        return;
      }
      var now := g.psh;
      if !now && |g.payload| > 1000 {
        delacks := (delacks + 1) % 256;
        now := delacks > 1;
      }
      if now {
        delacks := 0;
        out := SendAck();
      } else if g.payload != [] {
        delackArmed := true;
      }
    }

    /** The guarded `update_snd_win`. */
    method UpdateWindow(g: Segment)
      modifies snd`sndWnd
      ensures View() == WindowUpdate(old(View()), g)
    {
      if snd.sndUna < g.ackno <= snd.sndNxt {
        snd.sndWnd := (g.win * Pow2(sndScale)) % 0x1_0000_0000;
      }
    }

    /** `tcp_input_state` */
    method InputState(g: Segment) returns (out: seq<Segment>, ops: seq<RtoOp>)
      modifies this, snd, rcv`rcvNxt, rcv`realRcvWnd, rcv`ofo, rcv`queue
      ensures Input(old(View()), g) == Outcome(View(), out, ops)
    {
      out, ops := [], [];
      if (|g.payload| > 0 && rcv.rcvWnd == 0) || g.seqno < rcv.rcvNxt || g.seqno > Add32(rcv.rcvNxt, rcv.rcvWnd) {
        out := SendAck();
        return;
      }
      if g.ackno == snd.sndUna && g.payload == [] && g.win == lastAckWin && snd.inflight != 0 {
        out, ops := Dupack();
        lastAckWin := g.win;
        return;
      }
      ops := Acknowledge(g.ackno);
      if g.ackno < snd.sndUna || g.ackno > snd.sndNxt {
        return;
      }
      UpdateWindow(g);
      lastAckWin := g.win;
      out, ops := Rest(g, ops);
    }

    /** Segment text and policy, after the ACK field. */
    method Rest(g: Segment, before: seq<RtoOp>) returns (out: seq<Segment>, ops: seq<RtoOp>)
      modifies this`delacks, this`delackArmed, snd`queue, snd`inflight, snd`sndNxt
      modifies rcv`rcvNxt, rcv`realRcvWnd, rcv`ofo, rcv`queue
      ensures var o := TextPath(old(View()), g);
        View() == o.sock && out == o.out && ops == before + o.ops
    {
      var expected := g.seqno == rcv.rcvNxt;
      out := Text(g);
      var out2, ops2 := Policy(g, expected);
      return out + out2, before + ops2;
    }
  }
}
