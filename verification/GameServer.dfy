/** The C# server's receive loop end to end: receives, reassembly, request handling, retries and replies. */
module GameServers {
  import opened Bytes
  import opened Collections
  import opened SlideBuffers
  import opened Framing
  import opened Messages
  import opened ClientContexts
  import opened ReqHandlers

  /** hung: the loop is waiting inside a handler that is still retrying. */
  datatype Served = Served(link: Link, hung: bool)

  /** OnReceive for each frame in turn. */
  function ServeFrames(l: Link, frames: seq<seq<byte>>): Served
    decreases |frames|
  {
    if frames == [] then Served(l, false)
    else
      var h := HandleFrame(l, frames[0]);
      if h.code == NotFinished then Served(h.link, true) else ServeFrames(h.link, frames[1..])
  }

  /** The inner loop: serve the head frame and pop it while there is one. Gives the bytes left as well. */
  function ServeBuffer(l: Link, pending: seq<byte>): (Served, seq<byte>)
    decreases |pending|
  {
    if !HeadReady(pending) then (Served(l, false), pending)
    else
      var n := PeekLength(pending);
      var h := HandleFrame(l, pending[..n]);
      if h.code == NotFinished then (Served(h.link, true), pending) else ServeBuffer(h.link, pending[n..])
  }

  /** The inner loop serves exactly the deframed frames, in order. */
  lemma {:induction false} ServeBufferIsDeframe(l: Link, pending: seq<byte>)
    ensures var (s, rest) := ServeBuffer(l, pending);
            && s == ServeFrames(l, Deframe(pending).frames)
            && (!s.hung ==> rest == Deframe(pending).rest)
    decreases |pending|
  {
    if HeadReady(pending) {
      var n := PeekLength(pending);
      DeframeHead(pending);
      var later := Deframe(pending[n..]).frames;
      assert ([pending[..n]] + later)[1..] == later;
      ServeBufferIsDeframe(HandleFrame(l, pending[..n]).link, pending[n..]);
    }
  }

  /** RecvLoop: receive, drain, repeat, until a receive brings nothing (closure) or fails. */
  function ServeChunks(l: Link, buf: seq<byte>, chunks: seq<seq<byte>>): Served
    decreases |chunks|
  {
    if chunks == [] || chunks[0] == [] then Served(l, false)
    else
      var fed := FeedOne(buf, chunks[0]);
      var s := ServeFrames(l, fed.frames);
      if s.hung then s else ServeChunks(s.link, fed.rest, chunks[1..])
  }

  /** A closure ends it, whatever would have come after. */
  lemma {:induction false} ClosureEnds(l: Link, buf: seq<byte>, before: seq<seq<byte>>, later: seq<seq<byte>>)
    ensures ServeChunks(l, buf, before + ([[]] + later)) == ServeChunks(l, buf, before)
    decreases |before|
  {
    var all := before + ([[]] + later);
    if before != [] && before[0] != [] {
      var fed := FeedOne(buf, before[0]);
      var s := ServeFrames(l, fed.frames);
      assert all[1..] == before[1..] + ([[]] + later);
      ClosureEnds(s.link, fed.rest, before[1..], later);
    }
  }

  ghost predicate Healthy(l: Link) {
    l.registered && l.conn.open && l.conn.buf == [] && Faults(l.conn.script) == 0
  }

  lemma {:induction false} HealthyFrames(l: Link, frames: seq<seq<byte>>)
    requires Healthy(l)
    ensures var s := ServeFrames(l, frames);
            !s.hung && Healthy(s.link) && s.link.conn.wire == l.conn.wire + Flatten(Replies(frames))
    decreases |frames|
  {
    if frames != [] {
      var h := HandleFrame(l, frames[0]);
      HealthyFrame(l, frames[0]);
      HealthyFrames(h.link, frames[1..]);
      assert l.conn.wire + [] == l.conn.wire;
      if IsEchoRequest(frames[0]) {
        FlattenCons(EchoReply(frames[0]), Replies(frames[1..]));
        Reassociate(l.conn.wire, EchoReply(frames[0]), Flatten(Replies(frames[1..])));
      } else {
        assert Replies(frames) == Replies(frames[1..]);
      }
    }
  }

  lemma {:induction false} HealthyChunks(l: Link, buf: seq<byte>, chunks: seq<seq<byte>>)
    requires Healthy(l)
    requires forall c :: c in chunks ==> 1 <= |c| <= SEGMENT
    ensures var s := ServeChunks(l, buf, chunks);
            !s.hung && Healthy(s.link)
            && s.link.conn.wire == l.conn.wire + Flatten(Replies(Feed(buf, chunks).frames))
    decreases |chunks|
  {
    if chunks != [] {
      assert 1 <= |chunks[0]|;
      var fed := FeedOne(buf, chunks[0]);
      var s := ServeFrames(l, fed.frames);
      var later := Feed(fed.rest, chunks[1..]).frames;
      HealthyFrames(l, fed.frames);
      HealthyChunks(s.link, fed.rest, chunks[1..]);
      RepliesAppend(fed.frames, later);
      FlattenAppend(Replies(fed.frames), Replies(later));
      Reassociate(l.conn.wire, Flatten(Replies(fed.frames)), Flatten(Replies(later)));
    }
  }

  /** Whatever the network and the other senders do, every byte on the wire or buffered at the end comes from an
      accepted message, in order, none repeated and none missing. */
  lemma {:induction false} FramesKeepAccount(l: Link, frames: seq<seq<byte>>)
    requires Accounted(l.conn)
    ensures Accounted(ServeFrames(l, frames).link.conn)
    decreases |frames|
  {
    if frames != [] {
      var param := ParseRequest(frames[0]);
      if param.Some? {
        RetryKeepsAccount(l, ReplyTo(param.value));
      }
      var h := HandleFrame(l, frames[0]);
      if h.code != NotFinished {
        FramesKeepAccount(h.link, frames[1..]);
      }
    }
  }

  lemma {:induction false} ServeKeepsAccount(l: Link, buf: seq<byte>, chunks: seq<seq<byte>>)
    requires Accounted(l.conn)
    ensures Accounted(ServeChunks(l, buf, chunks).link.conn)
    decreases |chunks|
  {
    if chunks != [] && chunks[0] != [] {
      var fed := FeedOne(buf, chunks[0]);
      var s := ServeFrames(l, fed.frames);
      FramesKeepAccount(l, fed.frames);
      if !s.hung {
        ServeKeepsAccount(s.link, fed.rest, chunks[1..]);
      }
    }
  }

  /** Echo refinement: however the network cuts the stream into receives and the replies into
      sends, what goes out is the replies to the frames of the one-shot deframer, in order, and nothing
      else. Frames that are not echo requests add nothing and disturb nothing. */
  lemma EchoRefinement(l: Link, stream: seq<byte>, chunks: seq<seq<byte>>)
    requires Healthy(l) && Fits(stream) && IsChunking(chunks, stream)
    ensures var s := ServeChunks(l, [], chunks);
            && !s.hung && s.link.conn.buf == []
            && s.link.conn.wire == l.conn.wire + Flatten(Replies(Deframe(stream).frames))
  {
    ChunkingIndependence(stream, chunks);
    HealthyChunks(l, [], chunks);
  }

  /** The same from the client's side: it sends a list of echo requests and reads back one answer to each,
      carrying the first 84 payload bytes, however either direction is cut. */
  lemma EchoConversation(l: Link, ms: seq<Message>, chunks: seq<seq<byte>>, back: seq<seq<byte>>)
    requires Healthy(l) && l.conn.wire == [] && AllEcho(ms)
    requires IsChunking(chunks, Flatten(EncodeAll(ms)))
    requires IsChunking(back, ServeChunks(l, [], chunks).link.conn.wire)
    ensures Delivers(Feed([], back), Answers(ms))
  {
    DeframeEncoded(ms);
    LegalLengthsFit(Flatten(EncodeAll(ms)));
    EchoRefinement(l, Flatten(EncodeAll(ms)), chunks);
    RepliesAreAnswers(ms);
    assert [] + Flatten(EncodeAll(Answers(ms))) == Flatten(EncodeAll(Answers(ms)));
    WireRoundTrip(Answers(ms), back);
  }

  /** Where the handlers of these frames have put their replies in the accepted list. */
  function FramePlaces(l: Link, frames: seq<seq<byte>>): seq<nat>
    decreases |frames|
  {
    if frames == [] then []
    else
      var h := HandleFrame(l, frames[0]);
      h.own + if h.code == NotFinished then [] else FramePlaces(h.link, frames[1..])
  }

  /** How many times, for each reply due. */
  function FrameCopies(l: Link, frames: seq<seq<byte>>): seq<nat>
    decreases |frames|
  {
    if frames == [] then []
    else
      var h := HandleFrame(l, frames[0]);
      (if h.code == Rejected then [] else [|h.own|])
      + if h.code == NotFinished then [] else FrameCopies(h.link, frames[1..])
  }

  function ChunkPlaces(l: Link, buf: seq<byte>, chunks: seq<seq<byte>>): seq<nat>
    decreases |chunks|
  {
    if chunks == [] || chunks[0] == [] then []
    else
      var fed := FeedOne(buf, chunks[0]);
      var s := ServeFrames(l, fed.frames);
      FramePlaces(l, fed.frames) + if s.hung then [] else ChunkPlaces(s.link, fed.rest, chunks[1..])
  }

  function ChunkCopies(l: Link, buf: seq<byte>, chunks: seq<seq<byte>>): seq<nat>
    decreases |chunks|
  {
    if chunks == [] || chunks[0] == [] then []
    else
      var fed := FeedOne(buf, chunks[0]);
      var s := ServeFrames(l, fed.frames);
      FrameCopies(l, fed.frames) + if s.hung then [] else ChunkCopies(s.link, fed.rest, chunks[1..])
  }

  /** Each message as often as counted. */
  function Repeat(msgs: seq<seq<byte>>, counts: seq<nat>): seq<seq<byte>>
    requires |msgs| == |counts|
  {
    if msgs == [] then [] else seq(counts[0], _ => msgs[0]) + Repeat(msgs[1..], counts[1..])
  }

  function Total(counts: seq<nat>): nat {
    if counts == [] then 0 else counts[0] + Total(counts[1..])
  }

  lemma {:induction false} RepeatAppend(a: seq<seq<byte>>, m: seq<nat>, b: seq<seq<byte>>, n: seq<nat>)
    requires |a| == |m| && |b| == |n|
    ensures Repeat(a + b, m + n) == Repeat(a, m) + Repeat(b, n) && Total(m + n) == Total(m) + Total(n)
  {
    if a == [] {
      assert a + b == b && m + n == n;
    } else {
      RepeatAppend(a[1..], m[1..], b, n);
      DropFromAppend(a, b, 1);
      DropFromAppend(m, n, 1);
      Reassociate(seq(m[0], _ => a[0]), Repeat(a[1..], m[1..]), Repeat(b, n));
    }
  }

  /** When n of the counts are positive and they come to no more than n, those are one each and the others nothing. */
  lemma {:induction false} RepeatOnce(msgs: seq<seq<byte>>, counts: seq<nat>, n: nat)
    requires |msgs| == |counts| && n <= |counts|
    requires forall i :: 0 <= i < n ==> counts[i] >= 1
    ensures Total(counts) >= n
    ensures Total(counts) == n ==> Repeat(msgs, counts) == msgs[..n]
  {
    if msgs != [] {
      var m := if n == 0 then 0 else n - 1;
      RepeatOnce(msgs[1..], counts[1..], m);
      if n > 0 {
        assert Total(counts) == n ==> seq(counts[0], _ => msgs[0]) == [msgs[0]];
        assert msgs[..n] == [msgs[0]] + msgs[1..][..m];
      } else {
        assert Total(counts) == n ==> seq(counts[0], _ => msgs[0]) == [];
      }
    }
  }

  /** At increasing places of the list, all from the given one on, stand these messages in order. */
  ghost predicate StandAt(list: seq<seq<byte>>, from: nat, places: seq<nat>, msgs: seq<seq<byte>>) {
    && |places| == |msgs|
    && (forall k :: 0 <= k < |places| ==> from <= places[k] < |list| && list[places[k]] == msgs[k])
    && (forall j, k :: 0 <= j < k < |places| ==> places[j] < places[k])
  }

  /** How many of the replies counted are done with: all but the one a handler is still retrying. */
  function Done(hung: bool, copies: seq<nat>): int {
    if hung then |copies| - 1 else |copies|
  }

  /** The handlers have got to the first |copies| of the replies due, and to all of them unless one is still retrying
      and has used up every wait. Each reply done with is in the accepted list at least once, one by one in order,
      with one more copy for every fault met. */
  ghost predicate Put(l: Link, s: Served, places: seq<nat>, copies: seq<nat>, due: seq<seq<byte>>) {
    && l.conn.accepted <= s.link.conn.accepted
    && |copies| <= |due|
    && (if s.hung then copies != [] && s.link.world == [] else |copies| == |due|)
    && StandAt(s.link.conn.accepted, |l.conn.accepted|, places, Repeat(due[..|copies|], copies))
    && Total(copies) + Faults(s.link.conn.script) == Faults(l.conn.script) + Done(s.hung, copies)
    && forall i :: 0 <= i < Done(s.hung, copies) ==> copies[i] >= 1
  }

  /** The same list, longer. */
  lemma StandThenStand(list: seq<seq<byte>>, from: nat, p: seq<nat>, a: seq<seq<byte>>,
                       longer: seq<seq<byte>>, q: seq<nat>, b: seq<seq<byte>>)
    requires from <= |list| && list <= longer && StandAt(list, from, p, a) && StandAt(longer, |list|, q, b)
    ensures StandAt(longer, from, p + q, a + b)
  {
    forall k | 0 <= k < |p| ensures longer[p[k]] == a[k] {
      assert list[p[k]] == a[k];
    }
  }

  /** One run of handlers after another. */
  lemma PutThenPut(l: Link, s: Served, p: seq<nat>, m: seq<nat>, due: seq<seq<byte>>,
                   t: Served, q: seq<nat>, n: seq<nat>, more: seq<seq<byte>>)
    requires Put(l, s, p, m, due) && !s.hung && Put(s.link, t, q, n, more)
    ensures Put(l, t, p + q, m + n, due + more)
  {
    assert due[..|m|] == due;
    assert (due + more)[..|m + n|] == due + more[..|n|];
    RepeatAppend(due, m, more[..|n|], n);
    StandThenStand(s.link.conn.accepted, |l.conn.accepted|, p, Repeat(due, m), t.link.conn.accepted, q,
                   Repeat(more[..|n|], n));
  }

  lemma RetryPutsReply(l: Link, reply: seq<byte>)
    requires reply != []
    ensures var h := Retry(l, reply);
            Put(l, Served(h.link, h.code == NotFinished), h.own, [|h.own|], [reply])
  {
    var n := |Retry(l, reply).own|;
    RetryPlaces(l, reply);
    RetryCopies(l, reply);
    RetrySucceedsIff(l, reply);
    assert [reply][..1] == [reply];
    OneRepeated(reply, n);
  }

  lemma OneRepeated(msg: seq<byte>, n: nat)
    ensures Repeat([msg], [n]) == seq(n, _ => msg) && Total([n]) == n
  {
    assert Repeat([msg], [n]) == seq(n, _ => msg) + Repeat([msg][1..], [n][1..]);
    assert Total([n]) == n + Total([n][1..]);
  }

  lemma FramePutsReply(l: Link, frame: seq<byte>)
    ensures var h := HandleFrame(l, frame);
            Put(l, Served(h.link, h.code == NotFinished), h.own, if h.code == Rejected then [] else [|h.own|],
                Answer(frame))
  {
    RejectedIff(l, frame);
    if IsEchoRequest(frame) {
      RetryPutsReply(l, EchoReply(frame));
    }
  }

  lemma {:induction false} FramesPutReplies(l: Link, frames: seq<seq<byte>>)
    ensures Put(l, ServeFrames(l, frames), FramePlaces(l, frames), FrameCopies(l, frames), Replies(frames))
    decreases |frames|
  {
    if frames != [] {
      var h, first := HandleFrame(l, frames[0]), Answer(frames[0]);
      FramePutsReply(l, frames[0]);
      var counts := if h.code == Rejected then [] else [|h.own|];
      if h.code == NotFinished {
        PutShort(l, Served(h.link, true), h.own, counts, first, Replies(frames[1..]));
      } else {
        FramesPutReplies(h.link, frames[1..]);
        PutThenPut(l, Served(h.link, false), h.own, counts, first, ServeFrames(h.link, frames[1..]),
                   FramePlaces(h.link, frames[1..]), FrameCopies(h.link, frames[1..]), Replies(frames[1..]));
      }
    }
  }

  /** A handler that is still retrying keeps the later replies waiting. */
  lemma PutShort(l: Link, s: Served, p: seq<nat>, m: seq<nat>, due: seq<seq<byte>>, more: seq<seq<byte>>)
    requires s.hung && Put(l, s, p, m, due)
    ensures Put(l, s, p + [], m + [], due + more)
  {
    assert p + [] == p && m + [] == m;
    TakeFromAppend(due, more, |m|);
  }

  lemma {:induction false} ChunksPutReplies(l: Link, buf: seq<byte>, chunks: seq<seq<byte>>)
    requires forall c :: c in chunks ==> 1 <= |c| <= SEGMENT
    ensures Put(l, ServeChunks(l, buf, chunks), ChunkPlaces(l, buf, chunks), ChunkCopies(l, buf, chunks),
                Replies(Feed(buf, chunks).frames))
    decreases |chunks|
  {
    if chunks != [] {
      assert 1 <= |chunks[0]|;
      var fed := FeedOne(buf, chunks[0]);
      var s, later := ServeFrames(l, fed.frames), Feed(fed.rest, chunks[1..]).frames;
      FramesPutReplies(l, fed.frames);
      RepliesAppend(fed.frames, later);
      if s.hung {
        PutShort(l, s, FramePlaces(l, fed.frames), FrameCopies(l, fed.frames), Replies(fed.frames), Replies(later));
      } else {
        ChunksPutReplies(s.link, fed.rest, chunks[1..]);
        PutThenPut(l, s, FramePlaces(l, fed.frames), FrameCopies(l, fed.frames), Replies(fed.frames),
                   ServeChunks(s.link, fed.rest, chunks[1..]), ChunkPlaces(s.link, fed.rest, chunks[1..]),
                   ChunkCopies(s.link, fed.rest, chunks[1..]), Replies(later));
      }
    }
  }

  /** The same on a connection in any condition, with a socket that may do anything: the client not yet (or no longer)
      in the table, the send buffer full, other senders' messages coming between, sends that fault. The handlers get
      to the replies of the one-shot deframer's frames in order, and to all of them unless one is still retrying,
      which it is only after every wait. Each reply done with stands in the send stream at least once, the copies of
      one before those of the next, and there is one copy too many for every fault met, and no other. Wire and send
      buffer together carry the accepted messages in order. */
  lemma EchoAtLeastOnce(l: Link, stream: seq<byte>, chunks: seq<seq<byte>>)
    requires Accounted(l.conn) && Fits(stream) && IsChunking(chunks, stream)
    ensures var s, copies := ServeChunks(l, [], chunks), ChunkCopies(l, [], chunks);
            && Put(l, s, ChunkPlaces(l, [], chunks), copies, Replies(Deframe(stream).frames))
            && s.link.conn.wire + s.link.conn.buf == Flatten(s.link.conn.accepted)
  {
    ChunkingIndependence(stream, chunks);
    ChunksPutReplies(l, [], chunks);
    ServeKeepsAccount(l, [], chunks);
  }

  /** So as long as no send meets a fault, each of them stands there exactly once. */
  lemma EchoUnderContention(l: Link, stream: seq<byte>, chunks: seq<seq<byte>>)
    requires Accounted(l.conn) && Faults(l.conn.script) == 0
    requires Fits(stream) && IsChunking(chunks, stream)
    ensures var s, places := ServeChunks(l, [], chunks), ChunkPlaces(l, [], chunks);
            var due := Replies(Deframe(stream).frames);
            && |places| <= |due| && (s.hung <==> |places| < |due|) && (s.hung ==> s.link.world == [])
            && StandAt(s.link.conn.accepted, |l.conn.accepted|, places, due[..|places|])
            && s.link.conn.wire + s.link.conn.buf == Flatten(s.link.conn.accepted)
  {
    EchoAtLeastOnce(l, stream, chunks);
    var s, copies, due := ServeChunks(l, [], chunks), ChunkCopies(l, [], chunks), Replies(Deframe(stream).frames);
    RepeatOnce(due[..|copies|], copies, Done(s.hung, copies));
    TakeTake(due, |copies|, Done(s.hung, copies));
  }

  /** OnConnect and OnDisconnect, which only log. */
  datatype Event = Connected(index: int) | Disconnected(index: int)

  /** The receives made before m_IsRun is seen false. */
  function Before(chunks: seq<seq<byte>>, checks: nat): seq<seq<byte>> {
    if checks < |chunks| then chunks[..checks] else chunks
  }

  lemma BeforeStep(chunks: seq<seq<byte>>, checks: nat)
    requires chunks != []
    ensures Before(chunks, checks + 1) != [] && Before(chunks, checks + 1)[0] == chunks[0]
    ensures Before(chunks, checks + 1)[1..] == Before(chunks[1..], checks)
  {
  }

  lemma StoppedServesNothing(l: Link, buf: seq<byte>, chunks: seq<seq<byte>>)
    ensures ServeChunks(l, buf, Before(chunks, 0)) == Served(l, false)
  {
  }

  /** checks: how many more looks at m_IsRun will find the server running. */
  class GameServer {
    var clients: map<int, ClientContext>
    var world: seq<Delay>
    var checks: nat
    var events: seq<Event>

    /** The table never maps this client's index to some other client. */
    ghost predicate Serves(cc: ClientContext)
      reads this`clients, cc, cc.sendBuffer, cc.recvBuffer
    {
      cc.Valid() && (cc.index in clients ==> clients[cc.index] == cc)
    }

    ghost function LinkTo(cc: ClientContext): Link
      reads this`clients, this`world, cc, cc.sendBuffer, cc.sendBuffer.buffer, cc.recvBuffer, cc.socket
      requires cc.Valid()
    {
      Link(cc.index in clients, cc.Sender(), world)
    }

    method SendMsg(index: int, msg: array<byte>, n: uint32, ghost cc: ClientContext) returns (ok: bool)
      requires Serves(cc) && cc.index == index
      modifies cc`accepted, cc.sendBuffer`size, cc.sendBuffer.buffer, cc.socket`wire, cc.socket`script
      ensures Serves(cc) && cc.Receiver() == old(cc.Receiver())
      ensures var l := old(LinkTo(cc));
              var s := if l.registered then Send(l.conn, old(msg[..]), n as nat) else Sending(l.conn, false, false);
              cc.Sender() == s.conn && ok == s.ok
    {
      if index !in clients {
        return false;
      }
      ok := clients[index].SendMsg(msg, n);
    }

    /** Task.Delay(20) in the retry loop, with whatever other flows do to this client meanwhile. */
    method Wait(cc: ClientContext)
      requires Serves(cc) && world != []
      modifies this`clients, this`world, cc`accepted
      modifies cc.sendBuffer`size, cc.sendBuffer.buffer, cc.socket`wire, cc.socket`script
      ensures Serves(cc) && cc.Receiver() == old(cc.Receiver())
      ensures var l, d := old(LinkTo(cc)), old(world)[0];
              LinkTo(cc) == Link(d.registered, Elapse(l.conn, d.drained, d.added), l.world[1..])
    {
      var d := world[0];
      world := world[1..];
      clients := if d.registered then clients[cc.index := cc] else clients - {cc.index};
      cc.OtherFlows(d.drained, d.added);
    }

    method HandleEchoJob(cc: ClientContext, param: EchoParameter) returns (code: ResultCode)
      requires Serves(cc) && |param.payload| == ECHO_PAYLOAD
      modifies cc`accepted, cc.sendBuffer`size, cc.sendBuffer.buffer, cc.socket`wire, cc.socket`script
      ensures Serves(cc) && cc.Receiver() == old(cc.Receiver())
      ensures var s := SendVia(old(LinkTo(cc)), ReplyTo(param));
              && LinkTo(cc) == old(LinkTo(cc)).(conn := s.conn)
              && code == if s.ok then Success else NotFinished
    {
      var buffer := MakeMsg(Success, 0, EchoToBytes(param));
      var sent := SendMsg(cc.index, buffer, buffer.Length as uint32, cc);
      code := if sent then Success else NotFinished;
    }

    /** The retry loop of HandleReq. Running out of waits stands for a handler that is still retrying when we
        stop looking. */
    method RetryEcho(cc: ClientContext, param: EchoParameter) returns (code: ResultCode)
      requires Serves(cc) && |param.payload| == ECHO_PAYLOAD
      modifies this`clients, this`world, cc`accepted
      modifies cc.sendBuffer`size, cc.sendBuffer.buffer, cc.socket`wire, cc.socket`script
      ensures Serves(cc) && cc.Receiver() == old(cc.Receiver())
      ensures var h := Retry(old(LinkTo(cc)), ReplyTo(param)); LinkTo(cc) == h.link && code == h.code
      ensures code == Success || (code == NotFinished && world == [])
    {
      ghost var goal := Retry(LinkTo(cc), ReplyTo(param));
      while true
        invariant Serves(cc) && cc.Receiver() == old(cc.Receiver())
        invariant var h := Retry(LinkTo(cc), ReplyTo(param)); h.code == goal.code && h.link == goal.link
        decreases |world|
      {
        code := HandleEchoJob(cc, param);
        if code != NotFinished {
          return;
        }
        if world == [] {
          return;
        }
        Wait(cc);
      }
    }

    method ParseView(view: ArraySegment) returns (param: Option<EchoParameter>)
      requires view.InBounds()
      ensures param == ParseRequest(view.Bytes())
    {
      param := ParseRequest(view.arr[view.offset..view.offset + view.count]);
    }

    method HandleReq(cc: ClientContext, view: ArraySegment) returns (code: ResultCode)
      requires Serves(cc) && view.InBounds()
      modifies this`clients, this`world, cc`accepted
      modifies cc.sendBuffer`size, cc.sendBuffer.buffer, cc.socket`wire, cc.socket`script
      ensures Serves(cc) && cc.Receiver() == old(cc.Receiver())
      ensures var h := HandleFrame(old(LinkTo(cc)), old(view.Bytes()));
              LinkTo(cc) == h.link && code == h.code
    {
      var param := ParseView(view);
      if param.None? {
        return Rejected;
      }
      code := RetryEcho(cc, param.value);
    }

    /** Hand the head frame to OnReceive, then pop it. */
    method ServeHead(cc: ClientContext, view: ArraySegment) returns (code: ResultCode)
      requires Serves(cc) && HeadReady(cc.Receiver().pending)
      requires view == ArraySegment(cc.recvBuffer.buffer, 0, PeekLength(cc.Receiver().pending))
      modifies this`clients, this`world, cc`accepted
      modifies cc.sendBuffer`size, cc.sendBuffer.buffer, cc.socket`wire, cc.socket`script
      modifies cc.recvBuffer`size, cc.recvBuffer.buffer
      ensures Serves(cc) && cc.Receiver().incoming == old(cc.Receiver().incoming)
      ensures var goal := ServeBuffer(old(LinkTo(cc)), old(cc.Receiver().pending));
              if code == NotFinished then goal.0 == Served(LinkTo(cc), true)
              else goal == ServeBuffer(LinkTo(cc), cc.Receiver().pending)
      ensures code != NotFinished ==> |cc.Receiver().pending| < |old(cc.Receiver().pending)|
    {
      assert view.Bytes() == cc.Receiver().pending[..PeekLength(cc.Receiver().pending)];
      code := HandleReq(cc, view);
      if code != NotFinished {
        var popped := cc.PopMsg(view);
      }
    }

    /** One pass of the inner loop: whether there was a frame, and whether its handler is still retrying. */
    method ServeNext(cc: ClientContext, view: ArraySegment) returns (ok: bool, hung: bool, next: ArraySegment)
      requires Serves(cc)
      modifies this`clients, this`world, cc`accepted
      modifies cc.sendBuffer`size, cc.sendBuffer.buffer, cc.socket`wire, cc.socket`script
      modifies cc.recvBuffer`size, cc.recvBuffer.buffer
      ensures Serves(cc) && cc.Receiver().incoming == old(cc.Receiver().incoming)
      ensures var goal := ServeBuffer(old(LinkTo(cc)), old(cc.Receiver().pending));
              if !ok then !hung && goal == (Served(LinkTo(cc), false), cc.Receiver().pending)
              else if hung then goal.0 == Served(LinkTo(cc), true)
              else goal == ServeBuffer(LinkTo(cc), cc.Receiver().pending)
                   && |cc.Receiver().pending| < |old(cc.Receiver().pending)|
    {
      ok, next := cc.GetMsg(view);
      hung := false;
      if ok {
        var code := ServeHead(cc, next);
        hung := code == NotFinished;
      }
    }

    /** The inner loop of RecvLoop. */
    method DrainFrames(cc: ClientContext) returns (hung: bool)
      requires Serves(cc)
      modifies this`clients, this`world, cc`accepted
      modifies cc.sendBuffer`size, cc.sendBuffer.buffer, cc.socket`wire, cc.socket`script
      modifies cc.recvBuffer`size, cc.recvBuffer.buffer
      ensures Serves(cc) && cc.Receiver().incoming == old(cc.Receiver().incoming)
      ensures var goal := ServeBuffer(old(LinkTo(cc)), old(cc.Receiver().pending));
              goal.0 == Served(LinkTo(cc), hung) && (!hung ==> cc.Receiver().pending == goal.1)
    {
      ghost var goal := ServeBuffer(LinkTo(cc), cc.Receiver().pending);
      var view, ok := ArraySegment(cc.recvArea, 0, 0), true;
      while ok
        invariant Serves(cc) && cc.Receiver().incoming == old(cc.Receiver().incoming)
        invariant if ok then ServeBuffer(LinkTo(cc), cc.Receiver().pending) == goal
                  else goal == (Served(LinkTo(cc), false), cc.Receiver().pending)
        decreases ok, |cc.Receiver().pending|
      {
        ok, hung, view := ServeNext(cc, view);
        if hung {
          return true;
        }
      }
      return false;
    }

    /** What the outer loop, run from here with so many looks at m_IsRun to come, comes to. */
    ghost function Outcome(cc: ClientContext, looks: nat): Served
      reads this`clients, this`world, cc, cc.sendBuffer, cc.sendBuffer.buffer, cc.recvBuffer, cc.recvBuffer.buffer
      reads cc.socket
      requires cc.Valid()
    {
      ServeChunks(LinkTo(cc), cc.Receiver().pending, Before(cc.Receiver().incoming, looks))
    }

    /** One pass of the outer loop, with later more looks at m_IsRun to come: receive, then serve what is complete. */
    method ReceiveAndServe(cc: ClientContext, ghost later: nat) returns (ok: bool, hung: bool)
      requires Serves(cc) && cc.open
      requires forall c :: c in cc.Receiver().incoming ==> |c| <= SEGMENT
      modifies this`clients, this`world, cc`accepted, cc.sendBuffer`size, cc.sendBuffer.buffer, cc.socket
      modifies cc.recvBuffer`size, cc.recvBuffer.buffer, cc.recvArea
      ensures Serves(cc) && cc.open
      ensures ok ==> forall c :: c in cc.Receiver().incoming ==> |c| <= SEGMENT
      ensures old(Outcome(cc, later + 1)) == if !ok || hung then Served(LinkTo(cc), hung) else Outcome(cc, later)
      ensures hung ==> ok
      ensures cc.socket.receives == old(cc.socket.receives) + 1 && (ok <==> cc.socket.last > 0)
      ensures cc.socket.fails == old(cc.socket.fails) + if ok then 0 else 1
      ensures |cc.socket.incoming| + 1 >= |old(cc.socket.incoming)|
    {
      ghost var chunks := cc.Receiver().incoming;
      if chunks != [] {
        BeforeStep(chunks, later);
      }
      ok := cc.RecvAsync();
      if !ok {
        return false, false;
      }
      ServeBufferIsDeframe(LinkTo(cc), cc.Receiver().pending);
      hung := DrainFrames(cc);
    }

    /** One look at m_IsRun that finds the server running, and one pass. */
    method LookAndServe(cc: ClientContext) returns (ok: bool, hung: bool)
      requires Serves(cc) && cc.open && checks > 0
      requires forall c :: c in cc.Receiver().incoming ==> |c| <= SEGMENT
      modifies this`clients, this`world, this`checks
      modifies cc`accepted, cc.sendBuffer`size, cc.sendBuffer.buffer, cc.socket
      modifies cc.recvBuffer`size, cc.recvBuffer.buffer, cc.recvArea
      ensures Serves(cc) && cc.open && checks == old(checks) - 1
      ensures ok ==> forall c :: c in cc.Receiver().incoming ==> |c| <= SEGMENT
      ensures old(Outcome(cc, checks)) == if !ok || hung then Served(LinkTo(cc), hung) else Outcome(cc, checks)
      ensures hung ==> ok
      ensures cc.socket.receives == old(cc.socket.receives) + 1 && (ok <==> cc.socket.last > 0)
      ensures cc.socket.fails == old(cc.socket.fails) + if ok then 0 else 1
      ensures |cc.socket.incoming| + 1 >= |old(cc.socket.incoming)|
    {
      checks := checks - 1;
      ok, hung := ReceiveAndServe(cc, checks);
    }

    /** Each look at m_IsRun that finds the server running is followed by one receive, which takes at most one chunk off
        the socket; and unless a handler is still retrying the loop goes on until it has seen the server stopped or
        a receive has brought nothing or failed, which then was the last. */
    twostate predicate OneReceivePerLook(cc: ClientContext, hung: bool)
      reads this, cc.socket
    {
      && checks <= old(checks) && cc.socket.receives + checks == old(cc.socket.receives + checks)
      && |cc.socket.incoming| + old(checks) >= |old(cc.socket.incoming)| + checks
      && (cc.socket.fails == old(cc.socket.fails)
          || (cc.socket.fails == old(cc.socket.fails) + 1 && cc.socket.last <= 0 && !hung))
      && (cc.socket.fails == old(cc.socket.fails) && !hung ==> checks == 0)
    }

    /** Nothing received, nothing accepted, nothing sent. */
    twostate predicate Untouched(cc: ClientContext)
      reads cc, cc.recvBuffer, cc.recvBuffer.buffer, cc.socket
      requires old(cc.recvBuffer.Valid()) && cc.recvBuffer.Valid()
    {
      && cc.socket.incoming == old(cc.socket.incoming) && cc.socket.wire == old(cc.socket.wire)
      && cc.accepted == old(cc.accepted) && cc.recvBuffer.Contents() == old(cc.recvBuffer.Contents())
    }

    /** The outer loop. The end of the receive script stands for an exception. */
    method ServeAll(cc: ClientContext) returns (hung: bool)
      requires Serves(cc) && cc.open
      requires forall c :: c in cc.Receiver().incoming ==> |c| <= SEGMENT
      modifies this`clients, this`world, this`checks
      modifies cc`accepted, cc.sendBuffer`size, cc.sendBuffer.buffer, cc.socket
      modifies cc.recvBuffer`size, cc.recvBuffer.buffer, cc.recvArea
      ensures Serves(cc) && cc.open
      ensures old(Outcome(cc, checks)) == Served(LinkTo(cc), hung)
      ensures OneReceivePerLook(cc, hung)
      ensures cc.socket.receives == old(cc.socket.receives) ==> Untouched(cc)
    {
      while checks > 0
        invariant Serves(cc) && cc.open
        invariant forall c :: c in cc.Receiver().incoming ==> |c| <= SEGMENT
        invariant Outcome(cc, checks) == old(Outcome(cc, checks))
        invariant checks <= old(checks) && cc.socket.receives + checks == old(cc.socket.receives + checks)
        invariant cc.socket.fails == old(cc.socket.fails)
        invariant |cc.socket.incoming| + old(checks) >= |old(cc.socket.incoming)| + checks
        invariant cc.socket.receives == old(cc.socket.receives) ==> Untouched(cc)
        decreases checks
      {
        var ok;
        ok, hung := LookAndServe(cc);
        if !ok || hung {
          return;
        }
      }
      StoppedServesNothing(LinkTo(cc), cc.Receiver().pending, cc.Receiver().incoming);
      return false;
    }

    /** RecvLoop for an accepted connection. */
    method RecvLoop(cc: ClientContext) returns (hung: bool)
      requires Serves(cc) && cc.open
      requires forall c :: c in cc.Receiver().incoming ==> |c| <= SEGMENT
      modifies this, cc, cc.sendBuffer`size, cc.sendBuffer.buffer, cc.socket
      modifies cc.recvBuffer`size, cc.recvBuffer.buffer, cc.recvArea
      ensures Serves(cc) && cc.open == hung
      ensures var s := old(Outcome(cc, checks));
              hung == s.hung && LinkTo(cc) == s.link.(conn := s.link.conn.(open := hung))
      ensures OneReceivePerLook(cc, hung)
      ensures old(checks) == 0 ==> Untouched(cc)
      ensures events == old(events) + [Connected(cc.index)] + if hung then [] else [Disconnected(cc.index)]
    {
      events := events + [Connected(cc.index)];
      hung := ServeAll(cc);
      if !hung {
        events := events + [Disconnected(cc.index)];
        cc.Release();
      }
    }
  }
}
