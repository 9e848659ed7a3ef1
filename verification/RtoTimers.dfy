/** The retransmission timer as the C code keeps it: the fields of the socket, the epochs in the
    heap arguments and the shared timer list, updated in place. Every method is proved against the
    function of `RtoEpoch` that the run theorem is about; the send side of the connection, which the
    timer code does not look at, appears as a ghost parameter. */
module RtoTimers {
  import opened Words
  import opened Transfer
  import opened TimerWheel
  import opened TimerTick
  import opened RtoEpoch
  import Rtt

  /** The state of the connection, as far as `RtoEpoch` looks at it. */
  datatype State = State(closed: bool, timeWait: bool)

  class RtoTimer {
    const list: TimerList
    /** `tsk->retransmit` */
    var slot: Option<nat>
    var epoch: nat
    /** The epoch stored in the argument of each timer. */
    var args: map<nat, nat>
    var srtt: int
    var rttvar: int
    var rto: int
    var backoff: u8

    ghost predicate Valid()
      reads this, list
    {
      list.Valid() && (slot.Some? ==> slot.value in list.wheel.held)
    }

    ghost function View(peer: Peer, state: State): Conn
      reads this, list
    {
      Conn(peer, list.wheel, slot, epoch, args, Rtt.Estimate(srtt, rttvar, rto), backoff, state.closed, state.timeWait)
    }

    constructor (timers: TimerList)
      requires timers.Valid()
      ensures Valid() && list == timers && slot == None && epoch == 0 && args == map[]
      ensures srtt == rttvar == rto == 0 && backoff == 0
    {
      list := timers;
      slot, epoch, args := None, 0, map[];
      srtt, rttvar, rto, backoff := 0, 0, 0, 0;
    }

    /** `tcp_release_rto_timer` */
    method Release(ghost peer: Peer, ghost state: State)
      requires Valid()
      modifies this`slot, list
      ensures Valid() && slot == None
      ensures View(peer, state) == ReleaseSlot(old(View(peer, state)))
    {
      if slot.Some? {
        HeldIsListed(list.wheel, slot.value);
      }
      list.Release(slot);
      slot := None;
    }

    /** `tcp_stop_rto_timer` */
    method Stop(ghost peer: Peer, ghost state: State)
      requires Valid()
      modifies this`slot, this`backoff, this`epoch, list
      ensures Valid() && slot == None
      ensures View(peer, state) == StopTimer(old(View(peer, state)))
    {
      if slot.Some? {
        HeldIsListed(list.wheel, slot.value);
      }
      list.Cancel(slot);
      slot := None;
      backoff := 0;
      epoch := epoch + 1;
    }

    /** `tcp_rearm_rto_timer` of an established connection. */
    method Rearm(ghost peer: Peer, ghost state: State)
      requires Valid()
      modifies this`slot, this`epoch, this`args, list
      ensures Valid() && View(peer, state) == RearmTimer(old(View(peer, state)))
    {
      Release(peer, state);
      epoch := epoch + 1;
      var id := list.AddWithRelease(Max(rto, 0), true);
      args := args[id := epoch];
      slot := Some(id);
    }

    /** `tcp_rtt` */
    method Measure(ghost peer: Peer, ghost state: State)
      requires Valid()
      modifies this`srtt, this`rttvar, this`rto
      ensures Valid() && View(peer, state) == SampleRtt(old(View(peer, state)))
    {
      if backoff > 0 || slot.None? {
        return;
      }
      HeldIsListed(list.wheel, slot.value);
      var r := list.tick - (list.timers[slot.value].expires - rto);
      if r < 0 {
        return;
      }
      if srtt == 0 {
        srtt := r;
        rttvar := r / 2;
      } else {
        rttvar := (3 * rttvar + Rtt.Abs(srtt - r)) / 4;
        srtt := (7 * srtt + r) / 8;
      }
      var k := 4 * rttvar;
      if k < 200 {
        k := 200;
      }
      rto := srtt + k;
    }

    /** `tcp_retransmission_timeout` in the thread of timer `id`, once it has the socket lock, whatever the
        state of the connection. `idle` says that the write queue is empty. `resend` asks for the window
        cut and the head segment, `dead` for `tcp_done`. */
    method Timeout(id: nat, idle: bool, ghost peer: Peer, ghost state: State) returns (resend: bool, dead: bool)
      requires Valid() && (idle <==> peer.sock.tx.queue == [])
      modifies this, list
      ensures Valid()
      ensures resend <==> id in old(args) && old(args)[id] == old(epoch) && !idle
      ensures dead <==> resend && old(rto) > 60000
      ensures var peer1 := if resend then PeerStep(peer, RtoFires).peer else peer;
        var peer2 := if dead then PeerStep(peer1, Discard).peer else peer1;
        var c, c' := old(View(peer, state)), View(peer2, if dead then State(true, false) else state);
        c' == if id in c.epochOf && c.epochOf[id] == c.epoch then Fire(c) else c
    {
      if id !in args || args[id] != epoch {
        return false, false;
      }
      Release(peer, state);
      if idle {
        backoff := 0;
        return false, false;
      }
      ghost var peer' := PeerStep(peer, RtoFires).peer;
      if rto > 60000 {
        Stop(PeerStep(peer', Discard).peer, state);
        return true, true;
      }
      rto := 2 * rto;
      backoff := Inc8(backoff);
      Rearm(peer', state);
      return true, false;
    }
  }
}
