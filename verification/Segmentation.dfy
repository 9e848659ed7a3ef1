/** How the stream of an endpoint is cut, over every run with any peer: each write of the application by
    itself, into full segments and a last one with PSH, whatever happens between the segments. */
module Segmentation {
  import opened Words
  import opened Stream
  import opened TcpOutput
  import opened Transfer
  import opened TransferSafety
  import opened SenderWindow
  import opened SendPath

  /** The cuts of all writes, one after the other. */
  function CutWrites(acts: seq<Act>, smss: nat): seq<Chunk>
    requires smss > 0
  {
    if acts == [] then []
    else (if acts[0].Write? then Cut(acts[0].data, smss) else []) + CutWrites(acts[1..], smss)
  }

  /** What has been cut and what is still to be cut of the present write. */
  function Planned(x: Peer): seq<Chunk>
    requires x.sock.cc.smss > 0
  {
    x.chunks + Cut(x.unsent, x.sock.cc.smss)
  }

  lemma {:induction false} NextIsFirst(x: Peer)
    requires x.sock.cc.smss > 0 && x.unsent != []
    ensures var c := NextChunk(x);
      Cut(x.unsent, x.sock.cc.smss) == [c] + Cut(x.unsent[|c.payload|..], x.sock.cc.smss)
  {
  }

  lemma {:induction false} SendPlans(x: Peer)
    requires x.sock.cc.smss > 0 && x.unsent != []
    ensures var x' := PeerStep(x, SendSegment).peer;
      x'.sock.cc == x.sock.cc && Planned(x') == Planned(x)
  {
    var c := NextChunk(x);
    NextIsFirst(x);
    ConcatAssociates(x.chunks, [c], Cut(x.unsent[|c.payload|..], x.sock.cc.smss));
  }

  lemma {:induction false} WritePlans(x: Peer, data: seq<byte>)
    requires x.sock.cc.smss > 0 && x.unsent == []
    ensures Planned(PeerStep(x, Write(data)).peer) == Planned(x) + Cut(data, x.sock.cc.smss)
  {
    assert Planned(x) == x.chunks;
  }

  /** Nothing else cuts or changes the SMSS. */
  lemma {:induction false} OthersCutNothing(x: Peer, a: Act)
    requires Numbered(x.sock.tx) && CanAct(x, a) && !a.SendSegment? && !a.Write?
    ensures var x' := PeerStep(x, a).peer;
      x'.chunks == x.chunks && x'.unsent == x.unsent && x'.sock.cc.smss == x.sock.cc.smss
  {
    if a.Deliver? || a.Late? {
      SmssKept(x.sock, a.g);
    }
  }

  lemma {:induction false} StepPlans(x: Peer, a: Act)
    requires Numbered(x.sock.tx) && x.sock.cc.smss > 0 && CanAct(x, a)
    ensures var x' := PeerStep(x, a).peer;
      && x'.sock.cc.smss == x.sock.cc.smss
      && Planned(x') == Planned(x) + (if a.Write? then Cut(a.data, x.sock.cc.smss) else [])
  {
    if a.SendSegment? {
      SendPlans(x);
    } else if a.Write? {
      WritePlans(x, a.data);
    } else {
      OthersCutNothing(x, a);
    }
  }

  lemma {:induction false} RunPlans(x: Peer, acts: seq<Act>, first: nat)
    requires Speaks(x, first) && IsPeerRun(x, acts) && first + |PeerRun(x, acts).written| < 0x1_0000_0000
    ensures var x' := PeerRun(x, acts);
      && x'.sock.cc.smss == x.sock.cc.smss
      && Planned(x') == Planned(x) + CutWrites(acts, x.sock.cc.smss)
    decreases |acts|
  {
    if acts == [] {
      assert Planned(x) + [] == Planned(x);
    } else {
      var a, rest, smss := acts[0], acts[1..], x.sock.cc.smss;
      var x1 := PeerStep(x, a).peer;
      RunWrites(x1, rest);
      SpeaksKept(x, a, SenderWindow.Inbox(a), first);
      StepPlans(x, a);
      RunPlans(x1, rest, first);
      ConcatAssociates(Planned(x), if a.Write? then Cut(a.data, smss) else [], CutWrites(rest, smss));
    }
  }

  /** After every run from the handshake on, with any peer: the segments that were ever cut are the first
      ones of the cuts of all writes, and all of them once nothing is left to cut. */
  lemma {:induction false} SegmentationTheorem(x: Peer, acts: seq<Act>, una: u32, other: u32)
    requires Ready(x, una, First(x), other) && IsPeerRun(x, acts)
    requires First(x) + |PeerRun(x, acts).written| < 0x1_0000_0000
    ensures var x', plan := PeerRun(x, acts), CutWrites(acts, x.sock.cc.smss);
      x'.chunks <= plan && (x'.unsent == [] ==> x'.chunks == plan)
  {
    RunPlans(x, acts, First(x));
    var x', smss := PeerRun(x, acts), x.sock.cc.smss;
    assert Planned(x) == [];
    assert CutWrites(acts, smss) == x'.chunks + Cut(x'.unsent, smss);
  }
}
