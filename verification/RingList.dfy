/** The intrusive circular list of include/list.h and the buffer queue of include/skbuff.h, as the
    C code has them: nodes with `next` and `prev`, rewritten in place. A ghost sequence gives the
    ring its abstract value. */
module RingList {
  import opened Words

  class ListHead {
    var next: ListHead
    var prev: ListHead

    /** `list_init` */
    constructor ()
      ensures Ring([this])
    {
      next := this;
      prev := this;
    }
  }

  /** Following `next` from `r[0]` visits `r` in order and returns; `prev` goes the other way. */
  ghost predicate Ring(r: seq<ListHead>)
    reads r
  {
    && r != []
    && Distinct(r)
    && (forall i {:trigger r[i].next} :: 0 <= i < |r| - 1 ==> r[i].next == r[i + 1])
    && (forall i {:trigger r[i].prev} :: 0 < i < |r| ==> r[i].prev == r[i - 1])
    && r[|r| - 1].next == r[0] && r[0].prev == r[|r| - 1]
  }

  ghost function InsertBefore(r: seq<ListHead>, k: nat, n: ListHead): seq<ListHead>
    requires k < |r|
  {
    if k == 0 then r + [n] else r[..k] + [n] + r[k..]
  }

  ghost function Without(r: seq<ListHead>, k: nat): seq<ListHead>
    requires k < |r|
  {
    r[..k] + r[k + 1..]
  }

  ghost function Rotate(r: seq<ListHead>, k: nat): seq<ListHead>
    requires k <= |r|
  {
    r[k..] + r[..k]
  }

  /** A ring is a ring from wherever one starts. */
  lemma {:induction false} RotateRing(r: seq<ListHead>, k: nat)
    requires Ring(r) && k <= |r|
    ensures Ring(Rotate(r, k))
  {
    if 0 < k < |r| {
      var t, m := Rotate(r, k), |r| - k;
      assert forall i :: 0 <= i < m ==> t[i] == r[i + k];
      assert forall i :: m <= i < |r| ==> t[i] == r[i - m];
    } else {
      assert Rotate(r, k) == r;
    }
  }

  /** `list_add`: right behind the head. */
  method ListAdd(n: ListHead, head: ListHead, ghost r: seq<ListHead>)
    requires Ring(r) && r[0] == head && n !in r
    modifies n, head, head.next
    ensures Ring([head, n] + r[1..])
  {
    ghost var s := [head, n] + r[1..];
    assert forall i :: 2 <= i < |s| ==> s[i] == r[i - 1];
    assert |r| > 1 ==> head.next == r[1];
    head.next.prev := n;
    n.next := head.next;
    n.prev := head;
    head.next := n;
  }

  /** The body of `list_add_tail`, for a ring listed from `pos` on. */
  method HookBehindLast(n: ListHead, pos: ListHead, ghost t: seq<ListHead>)
    requires Ring(t) && t[0] == pos && n !in t
    modifies n, pos, pos.prev
    ensures Ring(t + [n])
  {
    pos.prev.next := n;
    n.prev := pos.prev;
    n.next := pos;
    pos.prev := n;
  }

  /** `list_add_tail`: right before any node of the ring, the head included. */
  method ListAddTail(n: ListHead, pos: ListHead, ghost r: seq<ListHead>, ghost k: nat)
    requires Ring(r) && k < |r| && r[k] == pos && n !in r
    modifies n, pos, pos.prev
    ensures Ring(InsertBefore(r, k, n))
  {
    ghost var t := Rotate(r, k);
    RotateRing(r, k);
    RotatedInsert(r, k, n);
    HookBehindLast(n, pos, t);
    InsertedRing(r, k, n);
  }

  lemma {:induction false} InsertedRing(r: seq<ListHead>, k: nat, n: ListHead)
    requires k < |r| && n !in r && Ring(Rotate(r, k) + [n])
    ensures Ring(InsertBefore(r, k, n))
  {
    RotatedInsert(r, k, n);
    RotateRing(Rotate(r, k) + [n], if k == 0 then 0 else |r| - k);
  }

  lemma {:induction false} RotatedInsert(r: seq<ListHead>, k: nat, n: ListHead)
    requires k < |r| && n !in r
    ensures n !in Rotate(r, k) && Rotate(r, k)[0] == r[k]
    ensures InsertBefore(r, k, n) == Rotate(Rotate(r, k) + [n], if k == 0 then 0 else |r| - k)
  {
  }

  lemma {:induction false} RotatedRemove(r: seq<ListHead>, k: nat)
    requires k < |r|
    ensures var t := Rotate(r, k + 1);
      t[|t| - 1] == r[k] && Without(r, k) == Rotate(t[..|t| - 1], |r| - (k + 1))
  {
  }

  lemma {:induction false} WithoutRing(r: seq<ListHead>, k: nat)
    requires k < |r| && |r| > 1 && Ring(Rotate(r, k + 1)[..|r| - 1])
    ensures Ring(Without(r, k))
  {
    RotatedRemove(r, k);
    RotateRing(Rotate(r, k + 1)[..|r| - 1], |r| - (k + 1));
  }

  /** The body of `list_del`, for a ring listed up to `e`. */
  method UnhookLast(e: ListHead, ghost t: seq<ListHead>)
    requires Ring(t) && |t| > 1 && t[|t| - 1] == e
    modifies e.prev, e.next
    ensures Ring(t[..|t| - 1])
  {
    var prev := e.prev;
    var next := e.next;
    prev.next := next;
    next.prev := prev;
  }

  /** `list_del`: any node of a ring with at least one other. */
  method ListDel(e: ListHead, ghost r: seq<ListHead>, ghost k: nat)
    requires Ring(r) && |r| > 1 && k < |r| && r[k] == e
    modifies e.prev, e.next
    ensures Ring(Without(r, k))
  {
    ghost var t := Rotate(r, k + 1);
    RotateRing(r, k + 1);
    RotatedRemove(r, k);
    UnhookLast(e, t);
    WithoutRing(r, k);
  }

  // ----- the buffer queue

  /** `struct sk_buff_head`: a list head and a length. A buffer is identified with the list node
      embedded in it. */
  class SkbQueue {
    const head: ListHead
    var qlen: u32
    /** The queued buffers, front to back. */
    ghost var nodes: seq<ListHead>

    ghost predicate Valid()
      reads this, head, nodes
    {
      && Ring([head] + nodes)
      && qlen == |nodes|
    }

    constructor ()
      ensures Valid() && nodes == [] && fresh(head)
    {
      head := new ListHead();
      qlen := 0;
      nodes := [];
      new;
      assert [head] + nodes == [head];
    }

    /** `skb_queue_empty`: by the length field. */
    method IsEmpty() returns (b: bool)
      requires Valid()
      ensures b <==> nodes == []
    {
      b := qlen < 1;
    }

    /** `skb_peek` */
    method Peek() returns (n: ListHead?)
      requires Valid()
      ensures n == if nodes == [] then null else nodes[0]
    {
      var none := IsEmpty();
      if none {
        return null;
      }
      ghost var r := [head] + nodes;
      assert r[0].next == r[1];
      return head.next;
    }

    /** `skb_queue_tail` */
    method Tail(n: ListHead)
      requires Valid() && n != head && n !in nodes && |nodes| + 1 < 0x1_0000_0000
      modifies this`qlen, this`nodes, n, head, head.prev
      ensures Valid() && nodes == old(nodes) + [n]
    {
      ghost var r := [head] + nodes;
      ListAddTail(n, head, r, 0);
      assert [head] + (nodes + [n]) == r + [n];
      qlen := Add32(qlen, 1);
      nodes := nodes + [n];
    }

    /** `skb_queue_add`: before the queued buffer `next`. */
    method AddBefore(n: ListHead, next: ListHead, ghost k: nat)
      requires Valid() && n != head && n !in nodes && |nodes| + 1 < 0x1_0000_0000
      requires k < |nodes| && nodes[k] == next
      modifies this`qlen, this`nodes, n, next, next.prev
      ensures Valid() && nodes == old(nodes)[..k] + [n] + old(nodes)[k..]
    {
      ghost var r := [head] + nodes;
      ListAddTail(n, next, r, k + 1);
      assert InsertBefore(r, k + 1, n) == [head] + (nodes[..k] + [n] + nodes[k..]);
      qlen := Add32(qlen, 1);
      nodes := nodes[..k] + [n] + nodes[k..];
    }

    /** `skb_dequeue`; callers have peeked first. */
    method Dequeue() returns (n: ListHead)
      requires Valid() && nodes != []
      modifies this`qlen, this`nodes, head, head.next.next
      ensures Valid() && n == old(nodes)[0] && nodes == old(nodes)[1..]
    {
      ghost var r := [head] + nodes;
      assert r[0].next == r[1] && r[1].prev == r[0];
      n := head.next;
      ListDel(n, r, 1);
      assert Without(r, 1) == [head] + nodes[1..];
      qlen := Sub32(qlen, 1);
      nodes := nodes[1..];
    }

    /** `skb_queue_free` empties the queue. */
    method Clear()
      requires Valid()
      modifies this`qlen, this`nodes, head, nodes
      ensures Valid() && nodes == []
    {
      while qlen >= 1
        invariant Valid()
        invariant forall n :: n in nodes ==> n in old(nodes)
        decreases |nodes|
      {
        ghost var r := [head] + nodes;
        assert r[0].next == r[1] && r[1].next == if |r| > 2 then r[2] else head;
        assert |r| > 2 ==> r[2] == nodes[1] && nodes[1] in nodes;
        var _ := Dequeue();
      }
    }
  }

  ghost predicate Apart(p: SkbQueue, q: SkbQueue)
    reads p, q
  {
    p != q && p.head != q.head && p.head !in q.nodes && q.head !in p.nodes && forall n :: n in p.nodes ==> n !in q.nodes
  }

  /** Moving the first buffer of one queue to the end of another, as `tcp_consume_ofo_queue` does:
      the two rings stay rings and stay apart. */
  method MoveFirst(from: SkbQueue, to: SkbQueue) returns (n: ListHead)
    requires from.Valid() && to.Valid() && Apart(from, to)
    requires from.nodes != [] && |to.nodes| + 1 < 0x1_0000_0000
    modifies from`qlen, from`nodes, to`qlen, to`nodes, from.head, from.nodes, to.head, to.nodes
    ensures from.Valid() && to.Valid() && Apart(from, to)
    ensures n == old(from.nodes)[0] && from.nodes == old(from.nodes)[1..] && to.nodes == old(to.nodes) + [n]
  {
    ghost var r, s := [from.head] + from.nodes, [to.head] + to.nodes;
    assert r[1] in from.nodes && (|r| > 2 ==> r[2] == from.nodes[1]);
    assert r[0].next == r[1] && r[1].next == if |r| > 2 then r[2] else r[0];
    assert Ring(s) && from.head !in s && (|r| > 2 ==> r[2] !in s);
    n := from.Dequeue();
    assert Ring(s);
    assert n !in from.nodes by {
      assert forall i :: 0 <= i < |from.nodes| ==> from.nodes[i] == r[i + 2];
    }
    assert s[0].prev == s[|s| - 1];
    to.Tail(n);
  }
}
