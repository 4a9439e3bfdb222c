/** ReqHandler: decoding a request frame, building its reply, and retrying until the send buffer takes it. */
module ReqHandlers {
  import opened Bytes
  import opened Collections
  import opened Framing
  import opened Messages
  import opened ClientContexts

  datatype ResultCode = Success | Fail | NotFinished | Rejected

  function CodeNumber(r: ResultCode): int32 {
    match r
    case Success => 0
    case Fail => 1
    case NotFinished => 2
    case Rejected => 3
  }

  const ECHO_PAYLOAD: nat := 80
  const ECHO_SIZE: nat := ECHO_PAYLOAD + 4

  datatype EchoParameter = EchoParameter(payloadSize: uint32, payload: seq<byte>)

  /** BytesToStruct<EchoParameter>; None is the ArgumentException for too few bytes. */
  function BytesToEcho(data: seq<byte>): (r: Option<EchoParameter>)
    ensures r.Some? ==> |r.value.payload| == ECHO_PAYLOAD
  {
    if |data| < ECHO_SIZE then None
    else Some(EchoParameter(DecodeUint32(data), data[4..ECHO_SIZE]))
  }

  /** The struct's memory image. */
  function EchoToBytes(p: EchoParameter): seq<byte> {
    EncodeUint32(p.payloadSize) + p.payload
  }

  /** The 96-byte message HandleEchoJob sends back. */
  function ReplyTo(p: EchoParameter): (reply: seq<byte>)
    requires |p.payload| == ECHO_PAYLOAD
    ensures |reply| == HEADER_SIZE + ECHO_SIZE
  {
    Encode(Message(0, 0, EchoToBytes(p)))
  }

  /** The header checks of HandleReq and the parameter check of HandleEchoJob: the
      parameter to echo, or None for a rejected frame. */
  function ParseRequest(frame: seq<byte>): (r: Option<EchoParameter>)
    ensures r.Some? ==> |r.value.payload| == ECHO_PAYLOAD
  {
    if |frame| < HEADER_SIZE then None
    else
      var header := ParseHeader(frame);
      if header.code >= 1 || header.code < 0 then None
      else BytesToEcho(frame[HEADER_SIZE..])
  }

  /** A well-formed echo request: 96 bytes or more with a zero type field. */
  predicate IsEchoRequest(frame: seq<byte>) {
    |frame| >= HEADER_SIZE + ECHO_SIZE && frame[4..8] == [0, 0, 0, 0]
  }

  /** The 96-byte reply: result Success, request number 0, and request bytes 12..96. */
  function EchoReply(frame: seq<byte>): seq<byte>
    requires IsEchoRequest(frame)
  {
    Encode(Message(0, 0, frame[HEADER_SIZE..HEADER_SIZE + ECHO_SIZE]))
  }

  lemma ZeroType(frame: seq<byte>)
    requires |frame| >= HEADER_SIZE
    ensures ParseHeader(frame).code == 0 <==> frame[4..8] == [0, 0, 0, 0]
  {
    assert frame[4..][..4] == frame[4..8];
    if ParseHeader(frame).code == 0 {
      EncodeDecode(frame[4..8]);
      assert DecodeUint32(frame[4..]) == DecodeUint32(frame[4..8]);
    }
  }

  /** Decoding accepts exactly the echo requests, and re-encoding the decoded parameter gives
      back the bytes it was read from. */
  lemma ParseAcceptsEchoRequests(frame: seq<byte>)
    ensures ParseRequest(frame).Some? <==> IsEchoRequest(frame)
    ensures IsEchoRequest(frame) ==>
              EchoToBytes(ParseRequest(frame).value) == frame[HEADER_SIZE..HEADER_SIZE + ECHO_SIZE]
  {
    if |frame| >= HEADER_SIZE {
      ZeroType(frame);
      var data := frame[HEADER_SIZE..];
      if |data| >= ECHO_SIZE {
        EncodeDecode(data[..4]);
        assert data[..4] + data[4..ECHO_SIZE] == data[..ECHO_SIZE];
        assert data[..ECHO_SIZE] == frame[HEADER_SIZE..HEADER_SIZE + ECHO_SIZE];
      }
    }
  }

  /** The reply, byte by byte. */
  lemma EchoReplyBytes(frame: seq<byte>)
    requires IsEchoRequest(frame)
    ensures EchoReply(frame) == [96, 0, 0, 0, 0, 0, 0, 0, 0, 0, 0, 0] + frame[12..96]
  {
    assert EncodeUint32(96) == [96, 0, 0, 0] && EncodeUint32(0) == [0, 0, 0, 0];
  }

  /** What one frame is answered with: its reply, or nothing. */
  function Answer(frame: seq<byte>): seq<seq<byte>> {
    if IsEchoRequest(frame) then [EchoReply(frame)] else []
  }

  function Replies(frames: seq<seq<byte>>): seq<seq<byte>> {
    if frames == [] then [] else Answer(frames[0]) + Replies(frames[1..])
  }

  /** Echo requests as messages, and what each should be answered with. */
  predicate IsEchoMessage(m: Message) {
    Sendable(m) && m.code == 0 && |m.payload| >= ECHO_SIZE
  }

  predicate AllEcho(ms: seq<Message>) {
    AllSendable(ms) && forall i :: 0 <= i < |ms| ==> IsEchoMessage(ms[i])
  }

  function Answers(ms: seq<Message>): (answers: seq<Message>)
    requires AllEcho(ms)
    ensures AllSendable(answers) && |answers| == |ms|
    ensures forall i :: 0 <= i < |ms| ==> answers[i] == Message(0, 0, ms[i].payload[..ECHO_SIZE])
  {
    if ms == [] then []
    else
      [Message(0, 0, ms[0].payload[..ECHO_SIZE])] + Answers(ms[1..])
  }

  lemma EncodedEchoIsRequest(m: Message)
    requires IsEchoMessage(m)
    ensures IsEchoRequest(Encode(m))
    ensures EchoReply(Encode(m)) == Encode(Message(0, 0, m.payload[..ECHO_SIZE]))
  {
    var s := Encode(m);
    DecodeEncodeMessage(m);
    ZeroType(s);
    assert s[HEADER_SIZE..][..ECHO_SIZE] == s[HEADER_SIZE..HEADER_SIZE + ECHO_SIZE];
  }

  lemma {:induction false} RepliesAreAnswers(ms: seq<Message>)
    requires AllEcho(ms)
    ensures Replies(EncodeAll(ms)) == EncodeAll(Answers(ms))
  {
    if ms != [] {
      EncodedEchoIsRequest(ms[0]);
      RepliesAreAnswers(ms[1..]);
    }
  }

  lemma {:induction false} RepliesAppend(a: seq<seq<byte>>, b: seq<seq<byte>>)
    ensures Replies(a + b) == Replies(a) + Replies(b)
  {
    if a == [] {
      assert a + b == b;
    } else {
      RepliesAppend(a[1..], b);
      DropFromAppend(a, b, 1);
      Reassociate(Answer(a[0]), Replies(a[1..]), Replies(b));
    }
  }

  /** What other flows do to the connection during one 20 ms wait: some buffered bytes are sent, another
      sender's message may arrive, and the client may be (de)registered. */
  datatype Delay = Delay(drained: nat, added: seq<byte>, registered: bool)

  /** A connection as a handler sees it: present in the client table or not, its sending half,
      and the waits still to come. */
  datatype Link = Link(registered: bool, conn: Conn, world: seq<Delay>)

  /** The outcome of a handler: its code, the connection, and where in the accepted list its own
      copies of the reply stand. NotFinished means the waits ran out while it was still retrying. */
  datatype Handled = Handled(code: ResultCode, link: Link, own: seq<nat>)

  /** CSSocketServer.SendMsg: the table lookup and the client's SendMsg. */
  function SendVia(l: Link, msg: seq<byte>): Sending {
    if l.registered then Send(l.conn, msg, |msg|) else Sending(l.conn, false, false)
  }

  /** The retry loop of HandleReq around HandleEchoJob. */
  function Retry(l: Link, reply: seq<byte>): Handled
    decreases |l.world|
  {
    var s := SendVia(l, reply);
    var mine := if s.accepted then [|l.conn.accepted|] else [];
    var next := l.(conn := s.conn);
    if s.ok then Handled(Success, next, mine)
    else if l.world == [] then Handled(NotFinished, next, mine)
    else
      var d := l.world[0];
      var h := Retry(Link(d.registered, Elapse(s.conn, d.drained, d.added), l.world[1..]), reply);
      h.(own := mine + h.own)
  }

  function HandleFrame(l: Link, frame: seq<byte>): Handled {
    match ParseRequest(frame)
    case None => Handled(Rejected, l, [])
    case Some(param) => Retry(l, ReplyTo(param))
  }

  /** On any connection, a handler rejects exactly what is not an echo request, and then does nothing. */
  lemma RejectedIff(l: Link, frame: seq<byte>)
    ensures var h := HandleFrame(l, frame);
            && (h.code == Rejected <==> !IsEchoRequest(frame))
            && (h.code == Rejected ==> h.link == l && h.own == [])
            && (IsEchoRequest(frame) ==> h == Retry(l, EchoReply(frame)))
  {
    ParseAcceptsEchoRequests(frame);
    if IsEchoRequest(frame) {
      RetryCopies(l, EchoReply(frame));
    }
  }

  /** A link after a failed try and the wait that follows it. */
  function AfterWait(l: Link, reply: seq<byte>): Link
    requires l.world != []
  {
    var d := l.world[0];
    var c := if l.registered then Send(l.conn, reply, |reply|).conn else l.conn;
    Link(d.registered, Elapse(c, d.drained, d.added), l.world[1..])
  }

  /** The link at try number k, when all tries before it have failed. */
  function TryAt(l: Link, reply: seq<byte>, k: nat): (at: Link)
    requires k <= |l.world|
    ensures at.world == l.world[k..]
  {
    if k == 0 then l else AfterWait(TryAt(l, reply, k - 1), reply)
  }

  lemma {:induction false} TryShift(l: Link, reply: seq<byte>, k: nat)
    requires k < |l.world|
    ensures TryAt(AfterWait(l, reply), reply, k) == TryAt(l, reply, k + 1)
  {
    if k > 0 {
      TryShift(l, reply, k - 1);
    }
  }

  /** A try goes through: the client is in the table, its socket is there, the reply fits, and no send faults. */
  predicate GoesThrough(l: Link, reply: seq<byte>) {
    && l.registered && l.conn.open && |l.conn.buf| + |reply| <= SEND_CAP
    && Faults(Send(l.conn, reply, |reply|).conn.script) == Faults(l.conn.script)
  }

  lemma TryIsOkIff(l: Link, reply: seq<byte>)
    requires reply != []
    ensures SendVia(l, reply).ok <==> GoesThrough(l, reply)
  {
    SendAccepts(l.conn, reply, |reply|);
    SendFaults(l.conn, reply, |reply|);
  }

  /** How many waits a handler has used. */
  function Waits(l: Link, h: Handled): int {
    |l.world| - |h.link.world|
  }

  /** It stops at the first try that goes through, or at the last. */
  lemma {:induction false} RetryStops(l: Link, reply: seq<byte>)
    requires reply != []
    ensures var h := Retry(l, reply);
            && (h.code == Success || (h.code == NotFinished && h.link.world == []))
            && 0 <= Waits(l, h) <= |l.world|
            && (h.code == Success <==> GoesThrough(TryAt(l, reply, Waits(l, h)), reply))
            && h.link.conn == SendVia(TryAt(l, reply, Waits(l, h)), reply).conn
            && forall k: nat :: k < Waits(l, h) ==> !GoesThrough(TryAt(l, reply, k), reply)
    decreases |l.world|
  {
    TryIsOkIff(l, reply);
    assert TryAt(l, reply, 0) == l;
    if !GoesThrough(l, reply) && l.world != [] {
      var next, h := AfterWait(l, reply), Retry(l, reply);
      RetryStops(next, reply);
      TryShift(l, reply, Waits(next, h));
      forall k: nat | k < Waits(l, h) ensures !GoesThrough(TryAt(l, reply, k), reply) {
        if k > 0 {
          TryShift(l, reply, k - 1);
        }
      }
    }
  }

  /** Retrying exactly, for every behaviour of the network, of the other senders and of the client table: a handler
      succeeds if and only if some try goes through, at the start or after one of the waits; it stops at the
      first that does; and it gives up at none, so that one still retrying has used up every wait. */
  lemma RetrySucceedsIff(l: Link, reply: seq<byte>)
    requires reply != []
    ensures var h := Retry(l, reply);
            && (h.code == Success <==> exists k: nat :: k <= |l.world| && GoesThrough(TryAt(l, reply, k), reply))
            && (h.code == NotFinished <==> h.code != Success)
            && (h.code == NotFinished ==> h.link.world == [])
            && 0 <= Waits(l, h) <= |l.world|
            && (forall k: nat :: k < Waits(l, h) ==> !GoesThrough(TryAt(l, reply, k), reply))
  {
    RetryStops(l, reply);
  }

  /** A handler keeps the account of the send stream. */
  lemma {:induction false} RetryKeepsAccount(l: Link, reply: seq<byte>)
    requires Accounted(l.conn)
    ensures Accounted(Retry(l, reply).link.conn)
    decreases |l.world|
  {
    var s := SendVia(l, reply);
    SendKeepsAccount(l.conn, reply, |reply|);
    if !s.ok && l.world != [] {
      var d := l.world[0];
      ElapseKeepsAccount(s.conn, d.drained, d.added);
      RetryKeepsAccount(Link(d.registered, Elapse(s.conn, d.drained, d.added), l.world[1..]), reply);
    }
  }

  /** Its copies of the reply stand at distinct, fresh places of the list of accepted messages. */
  lemma {:induction false} RetryPlaces(l: Link, reply: seq<byte>)
    ensures var h := Retry(l, reply);
            && l.conn.accepted <= h.link.conn.accepted
            && (forall k :: 0 <= k < |h.own| ==> |l.conn.accepted| <= h.own[k] < |h.link.conn.accepted|
                                                 && h.link.conn.accepted[h.own[k]] == reply)
            && (forall j, k :: 0 <= j < k < |h.own| ==> h.own[j] < h.own[k])
    decreases |l.world|
  {
    var s := SendVia(l, reply);
    SendAccepts(l.conn, reply, |reply|);
    if !s.ok && l.world != [] {
      var d := l.world[0];
      var c := Elapse(s.conn, d.drained, d.added);
      assert s.conn.accepted <= c.accepted;
      RetryPlaces(Link(d.registered, c, l.world[1..]), reply);
    }
  }

  /** Exactly-once under retry, for every behaviour of the network and of the other senders: the number of
      copies a handler has put in the stream is one for success plus one for every send fault it met. So
      a successful handler has put its reply in exactly once if and only if no send met a fault. */
  lemma {:induction false} RetryCopies(l: Link, reply: seq<byte>)
    ensures var h := Retry(l, reply);
            && |h.own| + Faults(h.link.conn.script)
               == Faults(l.conn.script) + (if h.code == Success then 1 else 0)
            && (h.code == Success || h.code == NotFinished)
            && (h.code == Success ==>
                  (|h.own| == 1 <==> Faults(h.link.conn.script) == Faults(l.conn.script)) && h.own != [])
    decreases |l.world|
  {
    var s := SendVia(l, reply);
    SendFaults(l.conn, reply, |reply|);
    if !s.ok && l.world != [] {
      var d := l.world[0];
      RetryCopies(Link(d.registered, Elapse(s.conn, d.drained, d.added), l.world[1..]), reply);
    }
  }

  lemma FaultedSend(c: Conn, reply: seq<byte>)
    requires c.open && c.buf == [] && c.script == [Fault] && 0 < |reply| <= SEND_CAP
    ensures Send(c, reply, |reply|)
         == Sending(c.(buf := reply, script := [], accepted := c.accepted + [reply]), false, true)
  {
    assert [] + reply[..|reply|] == reply && reply[..|reply|] == reply;
    assert [Fault][1..] == [];
    assert Pump(reply, [Fault]) == Pumped([], reply, [], false);
    assert c.wire + [] == c.wire;
  }

  lemma SecondSend(c: Conn, reply: seq<byte>)
    requires c.open && c.buf == reply && c.script == [] && 0 < |reply| <= SEND_CAP - |reply|
    ensures var s := Send(c, reply, |reply|); s.ok && s.accepted && s.conn.wire == c.wire + (reply + reply)
  {
    assert reply[..|reply|] == reply;
    PumpDrains(reply + reply, []);
  }

  /** One fault is enough, for any reply that fits twice: the send gives up with the reply buffered, the retry buffers
      it again, and both copies go out. */
  lemma FaultDuplicates(l: Link, reply: seq<byte>)
    requires l.registered && l.conn.open && l.conn.buf == [] && l.conn.script == [Fault]
    requires l.world == [Delay(0, [], true)] && 0 < |reply| <= SEND_CAP - |reply|
    ensures var h := Retry(l, reply);
            h.code == Success && |h.own| == 2 && h.link.conn.wire == l.conn.wire + (reply + reply)
  {
    FaultedSend(l.conn, reply);
    var c := Send(l.conn, reply, |reply|).conn;
    assert c.wire + [] == c.wire;
    assert Elapse(c, 0, []) == c;
    SecondSend(c, reply);
    var again := Retry(Link(true, c, []), reply);
    assert again.own == [|c.accepted|];
  }

  /** A reply of at most 4096 bytes to a healthy, idle connection goes out at once and whole. */
  lemma HealthySend(l: Link, reply: seq<byte>)
    requires l.registered && l.conn.open && l.conn.buf == [] && Faults(l.conn.script) == 0
    requires 0 < |reply| <= SEND_CAP
    ensures var h := Retry(l, reply);
            && h.code == Success && h.link.registered && h.link.conn.open && h.link.conn.buf == []
            && Faults(h.link.conn.script) == 0 && h.link.conn.wire == l.conn.wire + reply
  {
    assert l.conn.buf + reply[..|reply|] == reply;
    PumpDrains(reply, l.conn.script);
  }

  /** One frame on a healthy, idle connection: an echo request puts exactly its reply on the wire, any
      other frame puts nothing. */
  lemma HealthyFrame(l: Link, frame: seq<byte>)
    requires l.registered && l.conn.open && l.conn.buf == [] && Faults(l.conn.script) == 0
    ensures var h := HandleFrame(l, frame);
            && h.code == (if IsEchoRequest(frame) then Success else Rejected)
            && h.link.registered && h.link.conn.open && h.link.conn.buf == []
            && Faults(h.link.conn.script) == 0
            && h.link.conn.wire == l.conn.wire + (if IsEchoRequest(frame) then EchoReply(frame) else [])
  {
    ParseAcceptsEchoRequests(frame);
    if IsEchoRequest(frame) {
      HealthySend(l, EchoReply(frame));
    }
  }

  /** MakeMsg: a header stored at the front of a fresh buffer and the struct's image behind it. */
  method MakeMsg(res: ResultCode, reqNo: uint32, data: seq<byte>) returns (buffer: array<byte>)
    requires |data| + HEADER_SIZE < 0x8000_0000
    ensures fresh(buffer)
    ensures buffer[..] == Encode(Message(CodeNumber(res), reqNo, data))
  {
    var total := |data| + HEADER_SIZE;
    buffer := new byte[total];
    var header := EncodeUint32(total as uint32) + EncodeUint32(ToUnsigned(CodeNumber(res))) + EncodeUint32(reqNo);
    forall i | 0 <= i < HEADER_SIZE {
      buffer[i] := header[i];
    }
    forall i | 0 <= i < |data| {
      buffer[HEADER_SIZE + i] := data[i];
    }
    assert buffer[..] == header + data;
  }
}
