/** The steps of one sender that nobody interrupts are the send of the sequential model, for every socket. */
module SendRefinements {
  import opened Bytes
  import opened Collections
  import opened Framing
  import opened SendPumps
  import SlideBuffers
  import C = ClientContexts

  /** What a drain comes to: the state, what is left of the socket's script, and the answer. */
  datatype Drained = Drained(state: State, script: seq<C.SendEvent>, ok: bool)

  /** One pass of the send loop that takes k bytes. */
  ghost function AfterSend(s: State, t: Sender, k: nat, awaited: bool): State
    requires Shaped(s) && t in s.pc && s.pc[t] == Reading && k <= C.SegmentLength(s.buf) && s.buf != []
  {
    var read := Step(s, t, ReadSize, awaited);
    StepKeepsShape(s, t, ReadSize, awaited);
    var sent := Step(read, t, Send(k), awaited);
    StepKeepsShape(read, t, Send(k), awaited);
    if sent.pc[t].Reading? then sent else Step(sent, t, Pop, awaited)
  }

  lemma SentAndPopped(s: State, t: Sender, k: nat, awaited: bool)
    requires Shaped(s) && t in s.pc && s.pc[t] == Reading && k <= C.SegmentLength(s.buf) && s.buf != []
    ensures var s' := AfterSend(s, t, k, awaited);
            && Shaped(s') && s'.pc == s.pc && s'.wire == s.wire + s.buf[..k] && s'.buf == s.buf[k..]
            && s'.log == s.log && s'.permits == s.permits
  {
    var read := Step(s, t, ReadSize, awaited);
    StepKeepsShape(s, t, ReadSize, awaited);
    var sent := Step(read, t, Send(k), awaited);
    StepKeepsShape(read, t, Send(k), awaited);
    TakeFromAppend(s.buf, s.stale, k);
    if k > 0 {
      StepKeepsShape(sent, t, Pop, awaited);
    }
    assert s.pc[t := Reading] == s.pc;
  }

  /** The send loop from just after the lock attempt, the socket answering as its script says. */
  ghost function SoloDrain(s: State, t: Sender, script: seq<C.SendEvent>, awaited: bool): Drained
    requires Shaped(s) && t in s.pc && s.pc[t] == Reading
    decreases |script|, |s.buf|
  {
    var read := Step(s, t, ReadSize, awaited);
    StepKeepsShape(s, t, ReadSize, awaited);
    if read.pc[t].Leaving? then Drained(Step(read, t, Release, awaited), script, true)
    else
      var (r, later) := C.NextSend(read.pc[t].n, script);
      if r.Took? then
        SentAndPopped(s, t, r.n, awaited);
        SoloDrain(AfterSend(s, t, r.n, awaited), t, later, awaited)
      else
        RefusedSend(s, t, awaited);
        if r.retry then SoloDrain(Step(read, t, SocketFault, awaited), t, later, awaited)
        else Drained(Step(Step(read, t, Fault, awaited), t, Release, awaited), later, false)
  }

  /** A refused send leaves everything as it was. */
  lemma RefusedSend(s: State, t: Sender, awaited: bool)
    requires Shaped(s) && t in s.pc && s.pc[t] == Reading && s.buf != []
    ensures var read := Step(s, t, ReadSize, awaited);
            && Enabled(read, t, SocketFault) && Step(read, t, SocketFault, awaited) == s
            && Enabled(read, t, Fault)
            && Step(read, t, Fault, awaited) == s.(pc := s.pc[t := Failing])
  {
    assert s.pc[t := Reading] == s.pc;
  }

  lemma SoloPass(s: State, t: Sender, script: seq<C.SendEvent>, awaited: bool)
    requires Shaped(s) && t in s.pc && s.pc[t] == Reading && s.buf != []
    ensures var (r, later) := C.NextSend(C.SegmentLength(s.buf), script);
            if r.Took? then
              && Shaped(AfterSend(s, t, r.n, awaited)) && AfterSend(s, t, r.n, awaited).pc == s.pc
              && SoloDrain(s, t, script, awaited) == SoloDrain(AfterSend(s, t, r.n, awaited), t, later, awaited)
            else
              SoloDrain(s, t, script, awaited)
              == if r.retry then SoloDrain(s, t, later, awaited)
                 else Drained(s.(pc := s.pc[t := Idle], permits := if awaited then s.permits + 1 else s.permits,
                                 lastExit := Error), later, false)
  {
    StepKeepsShape(s, t, ReadSize, awaited);
    var (r, later) := C.NextSend(C.SegmentLength(s.buf), script);
    match r
    case Took(k) => SentAndPopped(s, t, k, awaited);
    case Raised(retry) => RefusedSend(s, t, awaited);
  }

  /** It leaves on the wire, in the buffer and in the socket what the pump leaves, gives the lock back, and touches no
      other sender and no message. */
  lemma {:induction false} SoloDrainIsPump(s: State, t: Sender, script: seq<C.SendEvent>, awaited: bool)
    requires Shaped(s) && t in s.pc && s.pc[t] == Reading
    ensures var d, p := SoloDrain(s, t, script, awaited), C.PumpedOnto(s.wire, s.buf, script);
            && C.Pumped(d.state.wire, d.state.buf, d.script, d.ok) == p
            && d.state.pc == s.pc[t := Idle] && d.state.log == s.log
            && d.state.permits == (if awaited then s.permits + 1 else s.permits)
            && d.state.lastExit == (if d.ok then Normal(|s.log|) else Error)
    decreases |script|, |s.buf|
  {
    if s.buf == [] {
      assert s.wire + [] == s.wire;
    } else {
      C.PumpStep(s.wire, s.buf, script);
      SoloPass(s, t, script, awaited);
      var (r, later) := C.NextSend(C.SegmentLength(s.buf), script);
      match r
      case Took(k) =>
        SentAndPopped(s, t, k, awaited);
        SoloDrainIsPump(AfterSend(s, t, k, awaited), t, later, awaited);
      case Raised(retry) =>
        if retry {
          SoloDrainIsPump(s, t, later, awaited);
        }
    }
  }

  /** In every state of either protocol, overlapping senders included, the steps on the buffer are the buffer's own
      operations: an Enqueue is a step exactly when it would be accepted, and a Pop of more than is left changes
      nothing. */
  lemma BufferSteps(s: State, t: Sender, msg: seq<byte>, awaited: bool)
    requires Shaped(s) && t in s.pc
    ensures s.pc[t] == Idle && msg != [] ==>
              var e := SlideBuffers.Apply(SlideBuffers.Fifo(SEND_CAP, s.buf), SlideBuffers.Enqueue(msg, |msg|));
              && (Enabled(s, t, Enqueue(msg)) <==> e.ok)
              && (e.ok ==> Step(s, t, Enqueue(msg), awaited).buf == e.fifo.held)
    ensures s.pc[t].Popping? ==>
              var e := SlideBuffers.Apply(SlideBuffers.Fifo(SEND_CAP, s.buf), SlideBuffers.Pop(s.pc[t].k));
              && Enabled(s, t, Pop)
              && Step(s, t, Pop, awaited).buf == e.fifo.held
              && Step(s, t, Pop, awaited).pc == s.pc[t := Reading]
              && (!e.ok ==> Step(s, t, Pop, awaited) == s.(pc := s.pc[t := Reading]))
  {
    assert msg[..|msg|] == msg;
    assert s.buf[0..] == s.buf;
    assert s.pc[t].Popping? && s.pc[t].k == 0 ==> Area(s)[|s.buf|..] == s.stale;
  }

  /** A whole SendMsg of an idle sender: enqueue, try the lock, and drain if the attempt wins. */
  ghost function SoloSend(s: State, t: Sender, msg: seq<byte>, script: seq<C.SendEvent>, awaited: bool): Drained
    requires Shaped(s) && t in s.pc && s.pc[t] == Idle && |msg| <= SEND_CAP - |s.buf|
  {
    var queued := Step(s, t, Enqueue(msg), awaited);
    StepKeepsShape(s, t, Enqueue(msg), awaited);
    var tried := Step(queued, t, TryLock, awaited);
    StepKeepsShape(queued, t, TryLock, awaited);
    if tried.pc[t].Reading? then SoloDrain(tried, t, script, awaited) else Drained(tried, script, true)
  }

  /** Refinement: when the attempt wins, which without awaiting it always does, an uninterrupted SendMsg leaves exactly
      what the sequential send leaves, for every socket: wire, buffer, socket and answer, with one more message
      accepted. When it loses, the message is buffered and the answer is true. */
  lemma SoloSendIsSend(s: State, t: Sender, msg: seq<byte>, script: seq<C.SendEvent>, awaited: bool,
                       accepted: seq<seq<byte>>)
    requires Shaped(s) && t in s.pc && s.pc[t] == Idle && |msg| <= SEND_CAP - |s.buf|
    ensures var d, c := SoloSend(s, t, msg, script, awaited), C.Conn(true, s.buf, s.wire, accepted, script);
            && d.state.pc == s.pc
            && |d.state.log| == |s.log| + 1 && d.state.log[|s.log|].msg == msg
            && d.state.log[..|s.log|] == s.log
            && if awaited && s.permits == 0 then
                 d.ok && d.script == script && d.state.wire == s.wire && d.state.buf == s.buf + msg
               else
                 C.Send(c, msg, |msg|)
                 == C.Sending(C.Conn(true, d.state.buf, d.state.wire, accepted + [msg], d.script), d.ok, true)
  {
    var queued := Step(s, t, Enqueue(msg), awaited);
    StepKeepsShape(s, t, Enqueue(msg), awaited);
    var tried := Step(queued, t, TryLock, awaited);
    StepKeepsShape(queued, t, TryLock, awaited);
    assert s.pc[t := Idle] == s.pc && msg[..|msg|] == msg;
    assert tried.log[..|s.log|] == s.log;
    if tried.pc[t].Reading? {
      SoloDrainIsPump(tried, t, script, awaited);
      if msg == [] {
        assert s.buf + msg == s.buf;
      }
    }
  }
}
