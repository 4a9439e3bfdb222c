/** ClientContext: one connection's socket, its send buffer with the pump that drains it, and its receive
    buffer. Sockets are scripted: a socket carries the receives and send outcomes it will produce, so
    a statement for every script is a statement for every behaviour of the network. */
module ClientContexts {
  import opened Bytes
  import opened Collections
  import opened SlideBuffers
  import opened Framing

  /** What one SendAsync does: takes up to k bytes, raises SocketException (the connection is
      kept and the send retried), or raises anything else (SendMsg gives up). */
  datatype SendEvent = Sent(k: nat) | SocketFault | Fault

  datatype SendResult = Took(n: nat) | Raised(retry: bool)

  /** The next outcome for a segment of len bytes. When the script runs out the socket takes it all. */
  function NextSend(len: nat, script: seq<SendEvent>): (r: (SendResult, seq<SendEvent>))
  {
    if script == [] then (Took(len), [])
    else match script[0]
      case Sent(k) => (Took(if k < len then k else len), script[1..])
      case SocketFault => (Raised(true), script[1..])
      case Fault => (Raised(false), script[1..])
  }

  function Faults(script: seq<SendEvent>): nat {
    if script == [] then 0 else (if script[0].Fault? then 1 else 0) + Faults(script[1..])
  }

  datatype Pumped = Pumped(sent: seq<byte>, rest: seq<byte>, script: seq<SendEvent>, ok: bool)

  /** What one send is offered: all there is, or a full segment of it. */
  function SegmentLength(buf: seq<byte>): (n: nat)
    ensures n <= |buf| && n <= 1024 && (n == |buf| || n == 1024)
  {
    if |buf| > SEGMENT then SEGMENT else |buf|
  }

  /** The send loop run on a buffer that nobody else touches. */
  function Pump(buf: seq<byte>, script: seq<SendEvent>): Pumped
    decreases |script|, |buf|
  {
    if buf == [] then Pumped([], [], script, true)
    else
      var (r, later) := NextSend(SegmentLength(buf), script);
      match r
      case Took(n) => var p := Pump(buf[n..], later); p.(sent := buf[..n] + p.sent)
      case Raised(retry) => if retry then Pump(buf, later) else Pumped([], buf, later, false)
  }

  /** The send loop started with bytes already on the wire. */
  function PumpedOnto(wire: seq<byte>, buf: seq<byte>, script: seq<SendEvent>): Pumped {
    var p := Pump(buf, script);
    p.(sent := wire + p.sent)
  }

  lemma PumpStep(wire: seq<byte>, buf: seq<byte>, script: seq<SendEvent>)
    requires buf != []
    ensures var (r, later) := NextSend(SegmentLength(buf), script);
            PumpedOnto(wire, buf, script)
            == match r
               case Took(n) => PumpedOnto(wire + buf[..n], buf[n..], later)
               case Raised(retry) => if retry then PumpedOnto(wire, buf, later) else Pumped(wire, buf, later, false)
  {
    var (r, later) := NextSend(SegmentLength(buf), script);
    if r.Took? {
      Reassociate(wire, buf[..r.n], Pump(buf[r.n..], later).sent);
    } else {
      assert wire + [] == wire;
    }
  }

  /** Send loop correctness: bytes leave in order and none is lost or repeated; the loop ends
      normally exactly when it has sent everything without meeting a fault, and a fault ends it. */
  lemma {:induction false} PumpSendsInOrder(buf: seq<byte>, script: seq<SendEvent>)
    ensures var p := Pump(buf, script);
            && p.sent + p.rest == buf
            && (p.ok ==> p.rest == [])
            && Faults(script) == Faults(p.script) + (if p.ok then 0 else 1)
            && |p.script| <= |script|
    decreases |script|, |buf|
  {
    if buf != [] {
      var (r, later) := NextSend(SegmentLength(buf), script);
      match r
      case Took(n) =>
        PumpSendsInOrder(buf[n..], later);
        var p := Pump(buf[n..], later);
        Reassociate(buf[..n], p.sent, p.rest);
        SplitAt(buf, n);
      case Raised(retry) =>
        if retry {
          PumpSendsInOrder(buf, later);
        }
    }
  }

  /** Without a fault ahead the loop ends with an empty buffer, having sent exactly its contents. */
  lemma PumpDrains(buf: seq<byte>, script: seq<SendEvent>)
    requires Faults(script) == 0
    ensures var p := Pump(buf, script); p.ok && p.sent == buf && p.rest == [] && Faults(p.script) == 0
  {
    PumpSendsInOrder(buf, script);
  }

  /** Segments needed for so many bytes. */
  function Segments(n: nat): nat {
    (n + SEGMENT - 1) / SEGMENT
  }

  /** A socket that takes whatever it is offered is asked as often as there are segments, no more and no less. */
  lemma {:induction false} PumpSendsSegments(buf: seq<byte>, script: seq<SendEvent>)
    requires |script| >= Segments(|buf|)
    requires forall i :: 0 <= i < |script| ==> script[i].Sent? && script[i].k >= SEGMENT
    ensures Pump(buf, script) == Pumped(buf, [], script[Segments(|buf|)..], true)
    decreases |buf|
  {
    if buf != [] {
      var n := SegmentLength(buf);
      assert Segments(|buf|) == Segments(|buf[n..]|) + 1;
      PumpSendsSegments(buf[n..], script[1..]);
      SplitAt(buf, n);
    }
  }

  /** The sending half of a connection: whether the socket is there, the buffered bytes, the
      bytes on the wire, the messages accepted so far, and the socket's future. */
  datatype Conn = Conn(open: bool, buf: seq<byte>, wire: seq<byte>, accepted: seq<seq<byte>>,
                       script: seq<SendEvent>)

  /** Every byte on the wire or in the buffer comes from an accepted message, in order. */
  ghost predicate Accounted(c: Conn) {
    c.wire + c.buf == Flatten(c.accepted)
  }

  datatype Sending = Sending(conn: Conn, ok: bool, accepted: bool)

  /** SendMsg of the first n bytes of msg when no other sender overlaps it. */
  function Send(c: Conn, msg: seq<byte>, n: nat): Sending {
    if !c.open then Sending(c, false, false)
    else
      var e := Apply(Fifo(SEND_CAP, c.buf), Enqueue(msg, n));
      if !e.ok then Sending(c, false, false)
      else
        var p := Pump(e.fifo.held, c.script);
        Sending(Conn(true, p.rest, c.wire + p.sent, c.accepted + [e.accepted], p.script), p.ok, true)
  }

  /** A send keeps the account. */
  lemma SendKeepsAccount(c: Conn, msg: seq<byte>, n: nat)
    requires Accounted(c)
    ensures Accounted(Send(c, msg, n).conn)
  {
    var e := Apply(Fifo(SEND_CAP, c.buf), Enqueue(msg, n));
    if c.open && e.ok {
      var p := Pump(e.fifo.held, c.script);
      PumpSendsInOrder(e.fifo.held, c.script);
      assert e.fifo.held == c.buf + e.accepted;
      FlattenAppend(c.accepted, [e.accepted]);
      assert Flatten([e.accepted]) == e.accepted;
      Reassociate(c.wire, p.sent, p.rest);
      Reassociate(c.wire, c.buf, e.accepted);
    }
  }

  /** It is accepted exactly when the socket is there, n is within the message, and the bytes fit; then
      those bytes are one more accepted message. */
  lemma SendAccepts(c: Conn, msg: seq<byte>, n: nat)
    ensures var s := Send(c, msg, n);
            && s.accepted == (c.open && (n == 0 || (n <= |msg| && n <= SEND_CAP - |c.buf|)))
            && s.conn.accepted == (if s.accepted then c.accepted + [msg[..n]] else c.accepted)
            && (s.ok ==> s.accepted)
  {
  }

  /** What a send leaves, for every socket: a refused one changes nothing; an accepted one puts its bytes behind those
      already buffered, sends from the front only, and answers true exactly when it has sent everything, the
      others' bytes included, or has been stopped by a fault and answers false. */
  lemma SendDelivers(c: Conn, msg: seq<byte>, n: nat)
    ensures var s := Send(c, msg, n);
            && s.conn.open == c.open
            && (!s.accepted ==> s.conn == c && !s.ok)
            && (s.accepted ==> n <= |msg| || n == 0)
            && (s.accepted ==> c.wire <= s.conn.wire
                               && s.conn.wire + s.conn.buf == c.wire + c.buf + (if n == 0 then [] else msg[..n]))
            && (s.ok ==> s.conn.buf == [])
            && (s.accepted && !s.ok ==> Faults(s.conn.script) < Faults(c.script))
  {
    var e := Apply(Fifo(SEND_CAP, c.buf), Enqueue(msg, n));
    if c.open && e.ok {
      var p := Pump(e.fifo.held, c.script);
      PumpSendsInOrder(e.fifo.held, c.script);
      Reassociate(c.wire, p.sent, p.rest);
      Reassociate(c.wire, c.buf, e.accepted);
      assert e.fifo.held == c.buf + e.accepted;
    }
  }

  /** A send reports false after accepting its message exactly when it met a fault. */
  lemma SendFaults(c: Conn, msg: seq<byte>, n: nat)
    ensures var s := Send(c, msg, n);
            && (s.ok ==> s.accepted)
            && Faults(c.script) == Faults(s.conn.script) + (if s.accepted && !s.ok then 1 else 0)
  {
    PumpSendsInOrder(Apply(Fifo(SEND_CAP, c.buf), Enqueue(msg, n)).fifo.held, c.script);
  }

  /** What other flows do to a connection while this one waits: they send some of the buffered bytes,
      and another sender may put a message of its own in the buffer. */
  function Elapse(c: Conn, drained: nat, added: seq<byte>): Conn {
    if !c.open then c
    else
      var n := if drained < |c.buf| then drained else |c.buf|;
      var left := c.(buf := c.buf[n..], wire := c.wire + c.buf[..n]);
      if added == [] || SEND_CAP - |left.buf| < |added| then left
      else left.(buf := left.buf + added, accepted := left.accepted + [added])
  }

  lemma ElapseKeepsAccount(c: Conn, drained: nat, added: seq<byte>)
    requires Accounted(c)
    ensures Accounted(Elapse(c, drained, added))
  {
    if c.open {
      var n := if drained < |c.buf| then drained else |c.buf|;
      SplitAt(c.buf, n);
      Reassociate(c.wire, c.buf[..n], c.buf[n..]);
      FlattenAppend(c.accepted, [added]);
      assert Flatten([added]) == added;
      Reassociate(c.wire + c.buf[..n], c.buf[n..], added);
    }
  }

  /** The receiving half of a connection: bytes received and not yet cut into frames, and the
      receives still to come. */
  datatype Inbox = Inbox(pending: seq<byte>, incoming: seq<seq<byte>>)

  /** A receive that brought bytes: they are queued if they fit, and lost if they do not. */
  function AfterReceive(i: Inbox): Inbox
    requires i.incoming != []
  {
    var chunk := i.incoming[0];
    Inbox(Apply(Fifo(RECV_CAP, i.pending), Enqueue(chunk, |chunk|)).fifo.held, i.incoming[1..])
  }

  /** receives counts the receives made, and fails those of them that brought nothing or failed; last is what the last
      one returned. */
  class Socket {
    var incoming: seq<seq<byte>>
    ghost var receives: nat
    ghost var fails: nat
    ghost var last: int
    var wire: seq<byte>
    var script: seq<SendEvent>

    constructor (incoming: seq<seq<byte>>, script: seq<SendEvent>)
      ensures this.incoming == incoming && this.script == script && wire == []
    {
      this.incoming, this.script, wire := incoming, script, [];
    }

    /** A receive into area; -1 stands for an exception, which is how the script ends. */
    method ReceiveAsync(area: array<byte>) returns (n: int)
      requires incoming != [] ==> |incoming[0]| <= area.Length
      modifies this`incoming, this`receives, this`fails, this`last, area
      ensures receives == old(receives) + 1 && last == n
      ensures fails == old(fails) + if n > 0 then 0 else 1
      ensures old(incoming) == [] ==> n == -1 && incoming == [] && area[..] == old(area[..])
      ensures old(incoming) != [] ==> && n == |old(incoming)[0]|
                                      && incoming == old(incoming)[1..]
                                      && area[..] == old(incoming)[0] + old(area[..])[n..]
    {
      receives := receives + 1;
      if incoming == [] {
        last, fails := -1, fails + 1;
        return -1;
      }
      var chunk := incoming[0];
      forall i | 0 <= i < |chunk| {
        area[i] := chunk[i];
      }
      incoming := incoming[1..];
      n := |chunk|;
      last, fails := n, fails + if n > 0 then 0 else 1;
    }

    method SendAsync(segment: ArraySegment) returns (r: SendResult)
      requires segment.InBounds()
      modifies this`wire, this`script
      ensures (r, script) == NextSend(segment.count, old(script))
      ensures wire == old(wire) + (if r.Took? then segment.Bytes()[..r.n] else [])
    {
      var (result, later) := NextSend(segment.count, script);
      r, script := result, later;
      if r.Took? {
        wire := wire + segment.arr[segment.offset..segment.offset + r.n];
      }
    }
  }

  class ClientContext {
    const index: int
    const sendBuffer: SlideBuffer
    const recvBuffer: SlideBuffer
    const recvArea: array<byte>
    const socket: Socket
    /** False once Release has dropped the socket: m_Socket == null. */
    var open: bool
    ghost var accepted: seq<seq<byte>>

    ghost predicate Valid()
      reads this, sendBuffer, recvBuffer
    {
      && sendBuffer.Valid() && recvBuffer.Valid() && recvArea.Length == SEGMENT
      && sendBuffer.cap as int == SEND_CAP && recvBuffer.cap as int == RECV_CAP
      && sendBuffer != recvBuffer
      && sendBuffer.buffer != recvBuffer.buffer
      && recvArea != sendBuffer.buffer && recvArea != recvBuffer.buffer
    }

    /** The sending half as a value. */
    ghost function Sender(): Conn
      reads this, sendBuffer, sendBuffer.buffer, recvBuffer, socket
      requires Valid()
    {
      Conn(open, sendBuffer.Contents().held, socket.wire, accepted, socket.script)
    }

    /** The receiving half as a value. */
    ghost function Receiver(): Inbox
      reads this, sendBuffer, recvBuffer, recvBuffer.buffer, socket
      requires Valid()
    {
      Inbox(recvBuffer.Contents().held, if open then socket.incoming else [])
    }

    constructor (index: int, socket: Socket)
      ensures Valid() && this.index == index && this.socket == socket && open && accepted == []
      ensures fresh({sendBuffer, sendBuffer.buffer, recvBuffer, recvBuffer.buffer, recvArea})
      ensures Receiver().pending == [] && Sender().buf == []
    {
      this.index, this.socket, open, accepted := index, socket, true, [];
      sendBuffer := new SlideBuffer(SEND_CAP as uint32);
      recvBuffer := new SlideBuffer(RECV_CAP as uint32);
      recvArea := new byte[SEGMENT];
    }

    /** What the send loop, run from here, leaves in total: the wire at the end, the bytes still buffered,
        the rest of the script and the answer. */
    ghost function Outcome(): Pumped
      reads this, sendBuffer, sendBuffer.buffer, recvBuffer, socket
      requires Valid()
    {
      PumpedOnto(socket.wire, Sender().buf, socket.script)
    }

    /** Offer a window on the first msgSize bytes of the buffer and pop what was taken. */
    method SendFront(msgSize: uint32) returns (r: SendResult)
      requires Valid() && msgSize as nat <= |Sender().buf|
      modifies sendBuffer`size, sendBuffer.buffer, socket`wire, socket`script
      ensures Valid() && Receiver() == old(Receiver())
      ensures (r, socket.script) == NextSend(msgSize as nat, old(socket.script))
      ensures Sender().buf == if r.Took? then old(Sender().buf)[r.n..] else old(Sender().buf)
      ensures socket.wire == old(socket.wire) + if r.Took? then old(Sender().buf)[..r.n] else []
    {
      ghost var now := Sender().buf;
      var segment := ArraySegment(sendBuffer.buffer, 0, msgSize as nat);
      assert segment.Bytes() == now[..msgSize];
      r := socket.SendAsync(segment);
      if r.Took? {
        TakeTake(now, msgSize as nat, r.n);
      }
      if r.Took? && r.n > 0 {
        var popped := sendBuffer.Pop(r.n as uint32);
      }
    }

    /** One pass of the send loop over a non-empty buffer. */
    method SendSegment() returns (r: SendResult)
      requires Valid() && Sender().buf != []
      modifies sendBuffer`size, sendBuffer.buffer, socket`wire, socket`script
      ensures Valid() && Receiver() == old(Receiver())
      ensures (r, socket.script) == NextSend(SegmentLength(old(Sender().buf)), old(socket.script))
      ensures Sender().buf == if r.Took? then old(Sender().buf)[r.n..] else old(Sender().buf)
      ensures r.Took? || r.retry ==> Outcome() == old(Outcome())
      ensures r.Raised? && !r.retry ==> old(Outcome()) == Pumped(socket.wire, Sender().buf, socket.script, false)
    {
      var msgSize := sendBuffer.GetSize();
      if msgSize > SEGMENT as uint32 {
        msgSize := SEGMENT as uint32;
      }
      PumpStep(socket.wire, Sender().buf, socket.script);
      r := SendFront(msgSize);
    }

    /** The send loop of SendMsg: whatever is buffered goes out in segments until nothing is left or a
        send raises something other than SocketException. */
    method Drain() returns (ok: bool)
      requires Valid()
      modifies sendBuffer`size, sendBuffer.buffer, socket`wire, socket`script
      ensures Valid() && Receiver() == old(Receiver())
      ensures old(Outcome()) == Pumped(socket.wire, Sender().buf, socket.script, ok)
    {
      while true
        invariant Valid() && Receiver() == old(Receiver())
        invariant Outcome() == old(Outcome())
        decreases |socket.script|, |Sender().buf|
      {
        var msgSize := sendBuffer.GetSize();
        if msgSize == 0 {
          return true;
        }
        var r := SendSegment();
        if r.Raised? && !r.retry {
          return false;
        }
      }
    }

    /** SendMsg as written: the lock attempt is not awaited, so its result is never null and every
        caller whose message is accepted runs the loop. Here no other sender runs meanwhile. */
    method SendMsg(msg: array<byte>, n: uint32) returns (ok: bool)
      requires Valid()
      modifies this`accepted, sendBuffer`size, sendBuffer.buffer, socket`wire, socket`script
      ensures Valid() && Receiver() == old(Receiver())
      ensures var s := Send(old(Sender()), old(msg[..]), n as nat); Sender() == s.conn && ok == s.ok
    {
      if !open {
        return false;
      }
      ghost var taken := Apply(sendBuffer.Contents(), Enqueue(msg[..], n as nat)).accepted;
      ok := sendBuffer.Enqueue(msg, n);
      if !ok {
        return false;
      }
      accepted := accepted + [taken];
      ok := Drain();
    }

    /** Other flows send the first drained bytes of the buffer. */
    method DrainByOthers(drained: nat)
      requires Valid()
      modifies sendBuffer`size, sendBuffer.buffer, socket`wire, socket`script
      ensures Valid() && Sender() == Elapse(old(Sender()), drained, [])
      ensures Receiver() == old(Receiver())
    {
      if open {
        var held := sendBuffer.GetSize();
        var n := if drained < held as nat then drained else held as nat;
        socket.wire := socket.wire + sendBuffer.buffer[..n];
        assert sendBuffer.buffer[..n] == Sender().buf[..n];
        var popped := sendBuffer.Pop(n as uint32);
      }
    }

    /** Another sender's message may be buffered. */
    method AddByOthers(added: seq<byte>)
      requires Valid()
      modifies this`accepted, sendBuffer`size, sendBuffer.buffer
      ensures Valid() && Sender() == Elapse(old(Sender()), 0, added)
      ensures Receiver() == old(Receiver())
    {
      var held := sendBuffer.GetSize();
      if open && 0 < |added| <= SEND_CAP - held as nat {
        var msg := new byte[|added|];
        forall i | 0 <= i < |added| {
          msg[i] := added[i];
        }
        assert msg[..][..|added|] == added;
        var taken := sendBuffer.Enqueue(msg, |added| as uint32);
        accepted := accepted + [added];
      }
    }

    method OtherFlows(drained: nat, added: seq<byte>)
      requires Valid()
      modifies this`accepted, sendBuffer`size, sendBuffer.buffer, socket`wire, socket`script
      ensures Valid() && Sender() == Elapse(old(Sender()), drained, added)
      ensures Receiver() == old(Receiver())
    {
      DrainByOthers(drained);
      AddByOthers(added);
    }

    /** One receive into the receive buffer. The answer of Enqueue is ignored, as in the source. */
    method RecvAsync() returns (ok: bool)
      requires Valid() && forall c :: c in Receiver().incoming ==> |c| <= SEGMENT
      modifies recvBuffer`size, recvBuffer.buffer, recvArea, socket`incoming
      modifies socket`receives, socket`fails, socket`last
      ensures Valid() && Sender() == old(Sender())
      ensures ok == (old(Receiver().incoming) != [] && old(Receiver().incoming)[0] != [])
      ensures !ok ==> Receiver().pending == old(Receiver().pending)
      ensures ok ==> Receiver() == AfterReceive(old(Receiver()))
      ensures ok ==> var before, chunk := old(Receiver().pending), old(socket.incoming)[0];
                     Receiver().pending == before + if |before| + |chunk| <= RECV_CAP then chunk else []
      ensures socket.incoming == if old(open) && old(socket.incoming) != [] then old(socket.incoming)[1..]
                                 else old(socket.incoming)
      ensures open ==> && socket.receives == old(socket.receives) + 1
                       && socket.fails == old(socket.fails) + (if ok then 0 else 1) && (ok <==> socket.last > 0)
    {
      if !open {
        return false;
      }
      var received := socket.ReceiveAsync(recvArea);
      if received <= 0 {
        return false;
      }
      assert recvArea[..][..received] == old(Receiver().incoming)[0];
      var _ := recvBuffer.Enqueue(recvArea, received as uint32);
      return true;
    }

    method GetMsg(view: ArraySegment) returns (ok: bool, result: ArraySegment)
      requires Valid()
      ensures ok == HeadReady(Receiver().pending)
      ensures ok ==> && result == ArraySegment(recvBuffer.buffer, 0, PeekLength(Receiver().pending))
                     && result.InBounds()
                     && result.Bytes() == Receiver().pending[..PeekLength(Receiver().pending)]
    {
      ok, result := recvBuffer.GetMsg(view);
    }

    method PopMsg(view: ArraySegment) returns (ok: bool)
      requires Valid() && view.count < 0x1_0000_0000
      modifies recvBuffer`size, recvBuffer.buffer
      ensures Valid()
      ensures var e := Apply(Fifo(RECV_CAP, old(Receiver().pending)), Op.Pop(view.count));
              Receiver() == old(Receiver()).(pending := e.fifo.held) && ok == e.ok
      ensures Sender() == old(Sender())
    {
      ok := recvBuffer.Pop(view.count as uint32);
    }

    method Release()
      modifies this`open
      ensures !open
    {
      open := false;
    }
  }
}
