/** A C++ echo job: the reply it builds in a packet of the pool, and the connection it hands the packet to. */
module EchoJobs {
  import opened Bytes
  import opened Collections
  import opened Messages
  import opened PacketOwnership
  import opened Packets

  /** The slots of a connection's send ring, one of which stays free. */
  const SEND_SLOTS: nat := 65536

  /** What SendMsgTCP does with a packet. */
  function Answered(connected: bool, queued: nat, idle: bool, ioFails: bool): Answer {
    if !connected || queued + 1 >= SEND_SLOTS then Refused
    else if idle && ioFails then QueuedButFailed
    else Queued
  }

  /** A list of packets handed over one after another, each meeting the connection idle or not and the I/O failing or
      not: the ring afterwards and the answers. */
  datatype Call<P> = Call(p: P, idle: bool, ioFails: bool)

  function HandOver<P>(connected: bool, queue: seq<P>, calls: seq<Call<P>>): (seq<P>, seq<bool>)
    decreases |calls|
  {
    if calls == [] then (queue, [])
    else
      var a := Answered(connected, |queue|, calls[0].idle, calls[0].ioFails);
      var (later, oks) := HandOver(connected, SenderAfter(queue, calls[0].p, a), calls[1..]);
      (later, [a.Queued?] + oks)
  }

  function PacketsOf<P>(calls: seq<Call<P>>): (ps: seq<P>)
    ensures |ps| == |calls| && forall i :: 0 <= i < |calls| ==> ps[i] == calls[i].p
  {
    seq(|calls|, i requires 0 <= i < |calls| => calls[i].p)
  }

  /** What fits. */
  function Room<P>(connected: bool, queue: seq<P>, calls: seq<Call<P>>): (n: nat)
    ensures n <= |calls|
  {
    if !connected || |queue| >= SEND_SLOTS - 1 then 0
    else if |queue| + |calls| < SEND_SLOTS then |calls|
    else SEND_SLOTS - 1 - |queue|
  }

  /** The answers to a list of which the first n find room. */
  function AnswersTo<P>(calls: seq<Call<P>>, n: int): (oks: seq<bool>)
    ensures |oks| == |calls|
    ensures forall i :: 0 <= i < |calls| ==> (oks[i] <==> i < n && !(calls[i].idle && calls[i].ioFails))
  {
    seq(|calls|, i requires 0 <= i < |calls| => i < n && !(calls[i].idle && calls[i].ioFails))
  }

  lemma FirstAnswer<P>(calls: seq<Call<P>>, n: int)
    requires calls != []
    ensures AnswersTo(calls, n) == [0 < n && !(calls[0].idle && calls[0].ioFails)] + AnswersTo(calls[1..], n - 1)
  {
  }

  lemma FirstGoesIn<P>(queue: seq<P>, calls: seq<Call<P>>, n: nat)
    requires 0 < n <= |calls|
    ensures (queue + [calls[0].p]) + PacketsOf(calls[1..])[..n - 1] == queue + PacketsOf(calls)[..n]
  {
    assert PacketsOf(calls)[..n] == [calls[0].p] + PacketsOf(calls[1..])[..n - 1];
    Reassociate(queue, [calls[0].p], PacketsOf(calls[1..])[..n - 1]);
  }

  /** Whatever is idle and whatever fails, the packets stand in the ring in the order they were handed over, as many
      of them as there is room for, the others being refused; and a packet that stands there was answered false
      exactly when the connection was idle and the I/O failed. */
  lemma {:induction false} RingKeepsOrder<P>(connected: bool, queue: seq<P>, calls: seq<Call<P>>)
    ensures var n := Room(connected, queue, calls);
            HandOver(connected, queue, calls) == (queue + PacketsOf(calls)[..n], AnswersTo(calls, n))
    decreases |calls|
  {
    var n: int := Room(connected, queue, calls);
    if calls == [] {
      assert queue + PacketsOf(calls)[..n] == queue;
    } else {
      var a := Answered(connected, |queue|, calls[0].idle, calls[0].ioFails);
      var next := SenderAfter(queue, calls[0].p, a);
      RingKeepsOrder(connected, next, calls[1..]);
      FirstAnswer(calls, n);
      if n > 0 {
        FirstGoesIn(queue, calls, n);
      } else {
        assert queue + PacketsOf(calls)[..n] == queue + PacketsOf(calls[1..])[..n];
        assert AnswersTo(calls[1..], n - 1) == AnswersTo(calls[1..], n);
      }
    }
  }

  /** The sending side of a connection: the packets in its ring, oldest first. */
  class Connection {
    var connected: bool
    var queued: seq<PacketData>

    constructor ()
      ensures connected && queued == []
    {
      connected, queued := true, [];
    }

    /** idle: no send is under way. ioFails: WSASend reports an error other than pending. */
    method SendMsgTCP(p: PacketData?, idle: bool, ioFails: bool) returns (ok: bool)
      modifies this`queued
      ensures p == null ==> !ok && queued == old(queued)
      ensures p != null ==>
                var a := Answered(connected, |old(queued)|, idle, ioFails);
                ok == a.Queued? && queued == SenderAfter(old(queued), p, a)
      ensures var room := p != null && connected && |old(queued)| + 1 < SEND_SLOTS;
              && queued == old(queued) + (if room then [p] else [])
              && (ok <==> room && !(idle && ioFails))
    {
      if p == null || !connected {
        return false;
      }
      if |queued| + 1 >= SEND_SLOTS {
        return false;
      }
      queued := queued + [p];
      if idle {
        return !ioFails;
      }
      return true;
    }
  }

  /** EchoJob, with nobody else using the pool meanwhile. */
  class EchoJob {
    const pool: PacketPool
    const reqNo: uint32
    const param: seq<byte>
    var packet: PacketData?

    /** The job's packet is its own: not in the pool. */
    ghost predicate Valid()
      reads this, pool, pool.free, packet
    {
      && pool.Valid() && |param| + HEADER_SIZE < 0x1_0000_0000
      && (packet != null ==> packet !in pool.free && packet.Valid() && packet.data.Length == PACKET_SIZE)
    }

    constructor (pool: PacketPool, reqNo: uint32, param: seq<byte>)
      requires pool.Valid() && |param| + HEADER_SIZE < 0x1_0000_0000
      ensures Valid() && this.pool == pool && packet == null
    {
      this.pool, this.reqNo, this.param, packet := pool, reqNo, param, null;
    }

    /** Builds the reply in a packet of its own; a packet left from an earlier try goes back to the pool. */
    method Execute(exhausted: bool) returns (ok: bool)
      requires Valid()
      modifies this, pool, pool.free, packet, set p | p in pool.free :: p.data
      ensures Valid()
      ensures ok == ((old(pool.free) != [] || !exhausted) && |param| + HEADER_SIZE <= PACKET_SIZE)
      ensures ok ==> packet != null && packet.Contents() == Encode(Message(0, reqNo, param))
      ensures ok ==> pool.free == (if old(pool.free) == [] then [] else old(pool.free)[1..])
                                  + (if old(packet) == null then [] else [old(packet)])
      ensures !ok ==> packet == old(packet) && forall p :: p in old(pool.free) ==> p in pool.free
    {
      var next := pool.Allocate(exhausted);
      if next == null {
        return false;
      }
      var built := next.Init(0, reqNo, param);
      if !built {
        pool.Deallocate(next);
        return false;
      }
      if packet != null {
        pool.Deallocate(packet);
      }
      packet := next;
      return true;
    }

    /** A packet that was queued without trouble is let go. One that was queued although the send failed stays in the
        slot too, and then the job and the connection share it. */
    method SendRes(conn: Connection, idle: bool, ioFails: bool) returns (ok: bool)
      requires Valid()
      modifies this`packet, conn`queued
      ensures Valid()
      ensures old(packet) == null ==> !ok && packet == null && conn.queued == old(conn.queued)
      ensures old(packet) != null ==>
                var a := Answered(conn.connected, |old(conn.queued)|, idle, ioFails);
                && ok == a.Queued?
                && conn.queued == SenderAfter(old(conn.queued), old(packet), a)
                && (if packet == null then None else Some(packet)) == SlotAfter(old(packet), a)
                && (packet == null <==> ok)
                && conn.queued == old(conn.queued) + (if a.Refused? then [] else [old(packet)])
                && (a.Refused? <==> !conn.connected || |old(conn.queued)| + 1 >= SEND_SLOTS)
                && (!a.Refused? ==> (ok <==> !(idle && ioFails)))
                && (old(packet) !in old(conn.queued) ==>
                      (packet != null && packet in conn.queued <==> a.QueuedButFailed?))
    {
      ok := conn.SendMsgTCP(packet, idle, ioFails);
      if ok {
        packet := null;
      }
    }
  }
}
