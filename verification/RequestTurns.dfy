/** The second C++ server's replacement for the retry queue. A client's requests stay in its receive buffer; workers
    take turns at them under the client's try-lock, and a turn that cannot finish leaves the stage it reached
    for the next one. The point of the change was that one client's requests are answered in order. */
module RequestTurns {
  import opened Bytes
  import opened Collections
  import opened JobFactories
  import PacketOwnership
  import SpinLocks

  type Thread = nat

  type Request = seq<byte>

  /** Where a turn is. Popping is the middle of ParseReq, with a job made and its message not yet popped. */
  datatype Stage = Parsing | Popping | Execute | Send

  /** Where a turn can be resumed. */
  type JobProcess = s: Stage | s != Popping witness Parsing

  /** The message a job was just made of: at the head of the inbox still, or gone from there with a disconnect. */
  datatype Hand = Nothing | Fresh(request: Request) | Stale(request: Request)

  datatype InfoCode = ReqFailed | NotFinished | OtherErr | NotMyTurn

  /** What one request meets on its way: memory for the job, the answer of Execute, and that of the send function.
      tear matters only when a disconnect has emptied the inbox before the message is popped: either there are too
      few new bytes and nothing is popped, or that many go, and what is left is cut into these messages. */
  datatype Luck = Luck(memory: bool, executes: bool, answer: PacketOwnership.Answer, tear: Option<seq<Request>>)

  /** One pass of a turn: the messages that arrive before it, and its luck. */
  datatype Pass = Pass(arrived: seq<Request>, luck: Luck)

  /** One client of an index: the stage to resume from, the messages not yet popped, the one being parsed, the
      request in the job slot, and the requests whose replies have been queued on its connection. The rest is history:
      what the index's previous client left behind in the send queue and in a job, what this client's bytes were cut
      into, how many replies were queued and yet reported as not sent, and whether its bytes were torn. */
  datatype Client = Client(process: JobProcess, inbox: seq<Request>, hand: Hand, slot: Option<Request>,
                           replies: seq<Request>, inherited: seq<Request>, received: seq<Request>, doubled: nat,
                           torn: bool)

  const NEW_CLIENT: Client := Client(Parsing, [], Nothing, None, [], [], [], 0, false)

  function Arrive(c: Client, messages: seq<Request>): Client {
    c.(inbox := c.inbox + messages, received := c.received + messages)
  }

  datatype Moved = On(client: Client, next: Stage) | Out(client: Client, code: InfoCode)

  /** PopReqMsg of as many bytes as the message had. */
  function Popped(c: Client, tear: Option<seq<Request>>): Client {
    if c.hand.Stale? then
      if tear.None? then c else c.(inbox := tear.value, received := tear.value, torn := true)
    else c.(inbox := if c.inbox == [] then [] else c.inbox[1..])
  }

  /** One stage of a turn: on to the next stage, or out with the stage to resume from. */
  function Advance(c: Client, stage: Stage, luck: Luck): Moved {
    match stage
    case Parsing =>
      if c.inbox == [] || !Creatable(c.inbox[0]) || !luck.memory then Out(c.(process := Parsing), ReqFailed)
      else On(c.(hand := Fresh(c.inbox[0])), Popping)
    case Popping =>
      if c.hand.Nothing? then Out(c.(process := Parsing), ReqFailed)
      else On(Popped(c, luck.tear).(hand := Nothing, slot := Some(c.hand.request)), Execute)
    case Execute =>
      if c.slot.None? || !luck.executes then Out(c.(process := Execute), NotFinished) else On(c, Send)
    case Send =>
      if c.slot.None? then Out(c.(process := Send), NotFinished)
      else
        match luck.answer
        case Refused => Out(c.(process := Send), NotFinished)
        case Queued => On(c.(replies := c.replies + [c.slot.value], slot := None), Parsing)
        case QueuedButFailed =>
          Out(c.(process := Send, replies := c.replies + [c.slot.value], doubled := c.doubled + 1), NotFinished)
  }

  const GOOD: Luck := Luck(true, true, PacketOwnership.Queued, None)

  /** The next pass. When the script runs out nothing more arrives and everything succeeds. */
  function NextPass(passes: seq<Pass>): (Pass, seq<Pass>) {
    if passes == [] then (Pass([], GOOD), []) else (passes[0], passes[1..])
  }

  function Arriving(passes: seq<Pass>): nat {
    if passes == [] then 0 else |passes[0].arrived| + Arriving(passes[1..])
  }

  function Rank(stage: Stage): nat {
    match stage
    case Popping => 0
    case Parsing => 1
    case Send => 2
    case Execute => 3
  }

  /** Nothing is half parsed, except at Popping, and then no disconnect has come between. */
  predicate Calm(c: Client, stage: Stage) {
    if stage == Popping then c.hand.Fresh? && c.inbox != [] else c.hand.Nothing?
  }

  /** A whole turn from a stage on. */
  function Turn(c: Client, stage: Stage, passes: seq<Pass>): (Client, InfoCode)
    requires Calm(c, stage)
    decreases |c.inbox| + Arriving(passes), Rank(stage), 1
  {
    var (now, later) := NextPass(passes);
    if stage == Parsing then
      match Advance(Arrive(c, now.arrived), Parsing, now.luck)
      case Out(left, code) => (left, code)
      case On(left, next) => Served(left, next, now.luck, later)
    else Served(c, stage, now.luck, later)
  }

  /** The rest of a pass, once there is a message to serve. */
  function Served(c: Client, stage: Stage, luck: Luck, later: seq<Pass>): (Client, InfoCode)
    requires stage != Parsing && Calm(c, stage)
    decreases |c.inbox| + Arriving(later), Rank(stage), 0
  {
    match Advance(c, stage, luck)
    case Out(left, code) => (left, code)
    case On(left, next) => if next == Parsing then Turn(left, Parsing, later) else Served(left, next, luck, later)
  }

  /** ParseReq within a turn. */
  lemma TurnParses(c: Client, passes: seq<Pass>)
    requires Calm(c, Parsing)
    ensures var (now, later) := NextPass(passes);
            var a := Arrive(c, now.arrived);
            Turn(c, Parsing, passes)
            == if a.inbox != [] && Creatable(a.inbox[0]) && now.luck.memory then
                 Served(a.(slot := Some(a.inbox[0]), inbox := a.inbox[1..]), Execute, now.luck, later)
               else (a.(process := Parsing), ReqFailed)
  {
    var (now, later) := NextPass(passes);
    var a := Arrive(c, now.arrived);
    if a.inbox != [] && Creatable(a.inbox[0]) && now.luck.memory {
      var half := a.(hand := Fresh(a.inbox[0]));
      assert Turn(c, Parsing, passes) == Served(half, Popping, now.luck, later);
      assert Advance(half, Popping, now.luck)
          == On(a.(slot := Some(a.inbox[0]), inbox := a.inbox[1..]), Execute);
    }
  }

  /** The request that has left the inbox and is not answered: in the slot, or on its way there. */
  function InSlot(c: Client): seq<Request> {
    if c.slot.Some? then [c.slot.value] else if c.hand.Stale? then [c.hand.request] else []
  }

  /** Every request of this client is, in order, answered, in the slot, or waiting. */
  predicate Conserved(c: Client) {
    !c.torn && c.replies + InSlot(c) + c.inbox == c.received
  }

  /** The same with what was left behind by the previous client in front. */
  predicate Continued(c: Client) {
    c.replies + InSlot(c) + c.inbox == c.inherited + c.received
  }

  /** What holds of a client at any stage. */
  ghost predicate Account(c: Client) {
    && (c.torn ==> c.inherited != [])
    && |c.replies| + |InSlot(c)| + |c.inbox| == |c.inherited| + |c.received| + c.doubled
    && (c.doubled == 0 ==> Continued(c))
    && |c.inbox| <= |c.received| && c.received[|c.received| - |c.inbox|..] == c.inbox
    && (forall i :: 0 <= i < |c.received| - |c.inbox| ==> Creatable(c.received[i]))
  }

  /** What the stage says of the job slot and the message in hand. */
  ghost predicate Placed(c: Client, stage: Stage) {
    (c.slot.Some? <==> stage == Execute || stage == Send) && HandFits(c, stage)
  }

  ghost predicate Sound(c: Client, stage: Stage) {
    Account(c) && Placed(c, stage)
  }

  ghost predicate HandFits(c: Client, stage: Stage) {
    match c.hand
    case Nothing => stage != Popping
    case Fresh(m) => stage == Popping && c.inbox != [] && c.inbox[0] == m && Creatable(m)
    case Stale(m) => stage == Popping && c.inbox == c.received && c.inherited != []
  }

  /** The head of the inbox moves to the slot. */
  lemma PoppedIsSound(c: Client)
    requires Sound(c, Popping) && c.hand.Fresh?
    ensures Sound(c.(hand := Nothing, slot := Some(c.inbox[0]), inbox := c.inbox[1..]), Execute)
  {
    var parsed := |c.received| - |c.inbox|;
    assert c.received[parsed] == c.received[parsed..][0];
    assert c.received[parsed + 1..] == c.received[parsed..][1..];
    assert c.replies + [] == c.replies;
    Reassociate(c.replies, [c.inbox[0]], c.inbox[1..]);
    assert [c.inbox[0]] + c.inbox[1..] == c.inbox;
  }

  /** The previous client's message moves to the slot, and perhaps bytes of this client go with it. */
  lemma StalePopIsSound(c: Client, tear: Option<seq<Request>>)
    requires Sound(c, Popping) && c.hand.Stale?
    ensures Sound(Popped(c, tear).(hand := Nothing, slot := Some(c.hand.request)), Execute)
  {
    if tear.Some? {
      TornIsAccounted(c, tear.value);
    }
  }

  lemma TornIsAccounted(c: Client, left: seq<Request>)
    requires Sound(c, Popping) && c.hand.Stale?
    ensures Account(c.(inbox := left, received := left, torn := true, hand := Nothing, slot := Some(c.hand.request)))
  {
    if c.doubled == 0 {
      CancelRight(c.replies + InSlot(c), c.inherited, c.inbox);
    }
  }

  /** The request in the slot moves to the replies. */
  lemma AnsweredIsSound(c: Client)
    requires Sound(c, Send)
    ensures Sound(c.(replies := c.replies + [c.slot.value], slot := None), Parsing)
  {
    assert c.replies + [c.slot.value] + [] == c.replies + [c.slot.value];
  }

  /** A turn that stops leaves everything where it was, except for a reply that was queued and reported as not sent. */
  lemma OutIsSound(c: Client, stage: Stage, luck: Luck)
    requires Sound(c, stage) && Advance(c, stage, luck).Out?
    ensures var left := Advance(c, stage, luck).client; Sound(left, left.process) && left.inherited == c.inherited
  {
  }

  lemma AdvanceKeepsSound(c: Client, stage: Stage, luck: Luck)
    requires Sound(c, stage)
    ensures var m := Advance(c, stage, luck);
            && Sound(m.client, if m.On? then m.next else m.client.process)
            && m.client.inherited == c.inherited
  {
    if Advance(c, stage, luck).Out? {
      OutIsSound(c, stage, luck);
    } else {
      match stage
      case Parsing =>
      case Popping =>
        if c.hand.Fresh? {
          PoppedIsSound(c);
        } else {
          StalePopIsSound(c, luck.tear);
        }
      case Execute =>
      case Send => AnsweredIsSound(c);
    }
  }

  lemma ArriveKeepsAccount(c: Client, messages: seq<Request>)
    requires Account(c)
    ensures Account(Arrive(c, messages))
  {
    Reassociate(c.replies + InSlot(c), c.inbox, messages);
    Reassociate(c.inherited, c.received, messages);
    DropFromAppend(c.received, messages, |c.received| - |c.inbox|);
  }

  /** The connection is reset and the index goes to a new client: the receive buffer is cleared, but neither the stage,
      nor the job slot, nor the last unsent replies in the send queue. */
  function AfterReset(c: Client, unsent: nat): Client
    requires unsent <= |c.replies|
  {
    var left := c.replies[|c.replies| - unsent..];
    var hand := if c.hand.Fresh? then Stale(c.hand.request) else c.hand;
    var kept := if c.hand.Fresh? then [c.hand.request] else InSlot(c);
    Client(c.process, [], hand, c.slot, left, left + kept, [], 0, false)
  }

  lemma ResetIsAccounted(c: Client, stage: Stage, unsent: nat)
    requires Placed(c, stage) && unsent <= |c.replies|
    ensures Account(AfterReset(c, unsent))
  {
    var r := AfterReset(c, unsent);
    assert r.replies + InSlot(r) + [] == r.replies + InSlot(r);
    assert r.inherited + [] == r.inherited;
  }

  /** A turn keeps the account, whatever arrives during it. */
  lemma {:induction false} TurnKeepsSound(c: Client, stage: Stage, passes: seq<Pass>)
    requires Sound(c, stage) && Calm(c, stage)
    ensures var left := Turn(c, stage, passes).0;
            Sound(left, left.process) && left.inherited == c.inherited && left.hand.Nothing?
    decreases |c.inbox| + Arriving(passes), Rank(stage), 1
  {
    var (now, later) := NextPass(passes);
    if stage == Parsing {
      ArriveKeepsAccount(c, now.arrived);
      var arrived := Arrive(c, now.arrived);
      AdvanceKeepsSound(arrived, Parsing, now.luck);
      var m := Advance(arrived, Parsing, now.luck);
      if m.On? {
        ServedKeepsSound(m.client, Popping, now.luck, later);
      }
    } else {
      ServedKeepsSound(c, stage, now.luck, later);
    }
  }

  lemma {:induction false} ServedKeepsSound(c: Client, stage: Stage, luck: Luck, later: seq<Pass>)
    requires Sound(c, stage) && stage != Parsing && Calm(c, stage)
    ensures var left := Served(c, stage, luck, later).0;
            Sound(left, left.process) && left.inherited == c.inherited && left.hand.Nothing?
    decreases |c.inbox| + Arriving(later), Rank(stage), 0
  {
    AdvanceKeepsSound(c, stage, luck);
    var m := Advance(c, stage, luck);
    if m.On? && m.next == Parsing {
      TurnKeepsSound(m.client, Parsing, later);
    } else if m.On? {
      ServedKeepsSound(m.client, m.next, luck, later);
    }
  }

  ghost predicate AllCreatable(messages: seq<Request>) {
    forall i :: 0 <= i < |messages| ==> Creatable(messages[i])
  }

  /** No pass fails, and whatever arrives can be made a job of. */
  ghost predicate Lucky(passes: seq<Pass>) {
    forall i :: 0 <= i < |passes| ==> passes[i].luck == GOOD && AllCreatable(passes[i].arrived)
  }

  lemma ParsedIsSound(c: Client)
    requires Sound(c, Parsing) && c.inbox != [] && Creatable(c.inbox[0])
    ensures var p := c.(slot := Some(c.inbox[0]), inbox := c.inbox[1..]); Sound(p, Execute) && Calm(p, Execute)
  {
    PoppedIsSound(c.(hand := Fresh(c.inbox[0])));
  }

  lemma ArrivalsKeepSound(c: Client, passes: seq<Pass>)
    requires Sound(c, Parsing) && Calm(c, Parsing)
    ensures var a := Arrive(c, NextPass(passes).0.arrived); Sound(a, Parsing) && Calm(a, Parsing)
  {
    ArriveKeepsAccount(c, NextPass(passes).0.arrived);
  }

  lemma {:induction false} LuckyTurn(c: Client, stage: Stage, passes: seq<Pass>)
    requires Sound(c, stage) && Calm(c, stage) && AllCreatable(c.inbox) && Lucky(passes)
    ensures var (left, code) := Turn(c, stage, passes);
            left.process == Parsing && left.inbox == [] && left.doubled == c.doubled && code == ReqFailed
    decreases |c.inbox| + Arriving(passes), Rank(stage), 1
  {
    var (now, later) := NextPass(passes);
    if stage == Parsing {
      TurnParses(c, passes);
      ArrivalsKeepSound(c, passes);
      var a := Arrive(c, now.arrived);
      if a.inbox != [] {
        ParsedIsSound(a);
        LuckyServed(a.(slot := Some(a.inbox[0]), inbox := a.inbox[1..]), Execute, later);
      }
    } else {
      LuckyServed(c, stage, later);
    }
  }

  lemma {:induction false} LuckyServed(c: Client, stage: Stage, later: seq<Pass>)
    requires Sound(c, stage) && stage != Parsing && Calm(c, stage) && AllCreatable(c.inbox) && Lucky(later)
    ensures var (left, code) := Served(c, stage, GOOD, later);
            left.process == Parsing && left.inbox == [] && left.doubled == c.doubled && code == ReqFailed
    decreases |c.inbox| + Arriving(later), Rank(stage), 0
  {
    AdvanceKeepsSound(c, stage, GOOD);
    var m := Advance(c, stage, GOOD);
    if m.next == Parsing {
      LuckyTurn(m.client, Parsing, later);
    } else {
      LuckyServed(m.client, m.next, later);
    }
  }

  /** A turn that meets no failure answers every waiting request and every one that arrives before it has found the
      inbox empty, and says so with REQ_FAILED: there was nothing left to parse. */
  lemma TurnAnswersAll(c: Client, stage: Stage, passes: seq<Pass>)
    requires Sound(c, stage) && Calm(c, stage) && c.doubled == 0 && AllCreatable(c.inbox) && Lucky(passes)
    ensures var (left, code) := Turn(c, stage, passes);
            && left.inbox == [] && left.slot == None && left.process == Parsing && code == ReqFailed
            && left.replies == c.inherited + left.received
  {
    LuckyTurn(c, stage, passes);
    TurnKeepsSound(c, stage, passes);
    var left := Turn(c, stage, passes).0;
    assert left.replies + [] + [] == left.replies;
  }

  /** All messages that arrive with these passes. */
  function Arrived(passes: seq<Pass>): (ms: seq<Request>)
    ensures |ms| == Arriving(passes)
  {
    if passes == [] then [] else passes[0].arrived + Arrived(passes[1..])
  }

  /** A request answered: parsed, executed and sent. */
  function Answered(c: Client): Client
    requires c.inbox != []
  {
    c.(inbox := c.inbox[1..], replies := c.replies + [c.inbox[0]])
  }

  /** Each of these passes finds a message that a job can be made of, and meets no failure. */
  ghost predicate AllServed(c: Client, passes: seq<Pass>)
    decreases |passes|
  {
    passes == [] ||
    var a := Arrive(c, passes[0].arrived);
    && passes[0].luck.memory && passes[0].luck.executes && passes[0].luck.answer == PacketOwnership.Queued
    && a.inbox != [] && Creatable(a.inbox[0]) && AllServed(Answered(a), passes[1..])
  }

  /** What the first pass of a turn does, for every kind of luck. */
  lemma PassOutcome(c: Client, now: Pass, later: seq<Pass>)
    requires Calm(c, Parsing) && c.slot.None?
    ensures var a := Arrive(c, now.arrived);
            Turn(c, Parsing, [now] + later)
            == if a.inbox == [] || !Creatable(a.inbox[0]) || !now.luck.memory then (a.(process := Parsing), ReqFailed)
               else
                 var p := a.(inbox := a.inbox[1..], slot := Some(a.inbox[0]));
                 if !now.luck.executes then (p.(process := Execute), NotFinished)
                 else
                   match now.luck.answer
                   case Refused => (p.(process := Send), NotFinished)
                   case QueuedButFailed =>
                     (p.(process := Send, replies := a.replies + [a.inbox[0]], doubled := a.doubled + 1), NotFinished)
                   case Queued => Turn(Answered(a), Parsing, later)
  {
    TurnParses(c, [now] + later);
    assert ([now] + later)[1..] == later;
    var a := Arrive(c, now.arrived);
    if a.inbox != [] && Creatable(a.inbox[0]) && now.luck.memory {
      var p := a.(inbox := a.inbox[1..], slot := Some(a.inbox[0]));
      assert Turn(c, Parsing, [now] + later) == Served(p, Execute, now.luck, later);
      if now.luck.executes {
        assert Advance(p, Execute, now.luck) == On(p, Send);
        assert Served(p, Execute, now.luck, later) == Served(p, Send, now.luck, later);
        if now.luck.answer == PacketOwnership.Queued {
          assert Advance(p, Send, now.luck) == On(Answered(a), Parsing);
        }
      }
    }
  }

  /** The client after passes without failure. */
  ghost function AfterPasses(c: Client, passes: seq<Pass>): (after: Client)
    requires AllServed(c, passes)
    ensures after.hand == c.hand && after.slot == c.slot
    decreases |passes|
  {
    if passes == [] then c else AfterPasses(Answered(Arrive(c, passes[0].arrived)), passes[1..])
  }

  lemma {:induction false} GoodPasses(c: Client, passes: seq<Pass>, later: seq<Pass>)
    requires Calm(c, Parsing) && c.slot.None? && AllServed(c, passes)
    ensures Turn(c, Parsing, passes + later) == Turn(AfterPasses(c, passes), Parsing, later)
    decreases |passes|
  {
    if passes == [] {
      assert passes + later == later;
    } else {
      PassOutcome(c, passes[0], passes[1..] + later);
      assert passes + later == [passes[0]] + (passes[1..] + later);
      GoodPasses(Answered(Arrive(c, passes[0].arrived)), passes[1..], later);
    }
  }

  /** One request moves from the front of the inbox to the back of the replies. */
  lemma MoveOne<T>(replies: seq<T>, all: seq<T>, n: nat)
    requires n < |all|
    ensures all[1..][n..] == all[n + 1..]
    ensures (replies + [all[0]]) + all[1..][..n] == replies + all[..n + 1]
  {
  }

  /** They answer one request each, in order. */
  lemma {:induction false} PassesAnswer(c: Client, passes: seq<Pass>)
    requires AllServed(c, passes)
    ensures var all, n := c.inbox + Arrived(passes), |passes|;
            && n <= |all|
            && AfterPasses(c, passes)
               == c.(inbox := all[n..], replies := c.replies + all[..n], received := c.received + Arrived(passes))
    decreases |passes|
  {
    if passes == [] {
      assert c.inbox + [] == c.inbox && c.replies + [] == c.replies && c.received + [] == c.received;
    } else {
      var a, rest := Arrive(c, passes[0].arrived), passes[1..];
      PassesAnswer(Answered(a), rest);
      Reassociate(c.inbox, passes[0].arrived, Arrived(rest));
      Reassociate(c.received, passes[0].arrived, Arrived(rest));
      DropFromAppend(a.inbox, Arrived(rest), 1);
      MoveOne(c.replies, a.inbox + Arrived(rest), |rest|);
    }
  }

  /** A turn stops at its first failure and nowhere before it, whatever arrives during it: the requests of the passes
      before are answered in order; a request without a job stays in the inbox, one whose Execute or send fails
      stays in the slot with that stage to resume from, and a reply queued and reported as not sent does too. */
  lemma TurnStopsAtFirstFailure(c: Client, good: seq<Pass>, bad: Pass, later: seq<Pass>)
    requires Calm(c, Parsing) && c.slot.None? && AllServed(c, good)
    ensures var (left, code) := Turn(c, Parsing, good + ([bad] + later));
            var all, n, luck := c.inbox + Arrived(good) + bad.arrived, |good|, bad.luck;
            var job := n < |all| && Creatable(all[n]) && luck.memory;
            && n <= |all|
            && (!job ==>
                  code == ReqFailed && left.process == Parsing && left.slot.None?
                  && left.replies == c.replies + all[..n] && left.inbox == all[n..])
            && (job && !luck.executes ==>
                  code == NotFinished && left.process == Execute && left.slot == Some(all[n])
                  && left.replies == c.replies + all[..n] && left.inbox == all[n + 1..])
            && (job && luck.executes && luck.answer.Refused? ==>
                  code == NotFinished && left.process == Send && left.slot == Some(all[n])
                  && left.replies == c.replies + all[..n] && left.inbox == all[n + 1..])
            && (job && luck.executes && luck.answer.QueuedButFailed? ==>
                  code == NotFinished && left.process == Send && left.slot == Some(all[n])
                  && left.replies == c.replies + all[..n] + [all[n]] && left.inbox == all[n + 1..])
  {
    GoodPasses(c, good, [bad] + later);
    PassesAnswer(c, good);
    var all, n := c.inbox + Arrived(good), |good|;
    var d := c.(inbox := all[n..], replies := c.replies + all[..n], received := c.received + Arrived(good));
    PassOutcome(d, bad, later);
    DropFromAppend(all, bad.arrived, n);
    TakeFromAppend(all, bad.arrived, n);
    var whole := all + bad.arrived;
    assert Arrive(d, bad.arrived).inbox == whole[n..];
    assert n < |whole| ==> whole[n..][0] == whole[n] && whole[n..][1..] == whole[n + 1..];
  }

  /** A turn resumed at Execute or Send goes on with the request in the slot. */
  lemma ResumedTurn(c: Client, stage: Stage, now: Pass, later: seq<Pass>)
    requires Calm(c, stage) && c.slot.Some? && (stage == Execute || stage == Send)
    ensures Turn(c, stage, [now] + later)
            == if stage == Execute && !now.luck.executes then (c.(process := Execute), NotFinished)
               else
                 match now.luck.answer
                 case Refused => (c.(process := Send), NotFinished)
                 case QueuedButFailed =>
                   (c.(process := Send, replies := c.replies + [c.slot.value], doubled := c.doubled + 1), NotFinished)
                 case Queued => Turn(c.(slot := None, replies := c.replies + [c.slot.value]), Parsing, later)
  {
    assert ([now] + later)[1..] == later;
    if stage == Execute && now.luck.executes {
      assert Served(c, Execute, now.luck, later) == Served(c, Send, now.luck, later);
    }
  }

  /** A client's lock, its stage, its receive buffer and its job slot. */
  class ClientTurns {
    const lock: SpinLocks.SpinLock
    var process: JobProcess
    var inbox: seq<Request>
    var slot: Option<Request>
    var replies: seq<Request>
    ghost var inherited: seq<Request>
    ghost var received: seq<Request>
    ghost var doubled: nat
    ghost var torn: bool

    ghost function Value(): Client
      reads this
    {
      Client(process, inbox, Nothing, slot, replies, inherited, received, doubled, torn)
    }

    constructor ()
      ensures fresh(lock) && lock.flag && Value() == NEW_CLIENT
    {
      lock := new SpinLocks.SpinLock();
      process, inbox, slot, replies := Parsing, [], None, [];
      inherited, received, doubled, torn := [], [], 0, false;
    }

    /** StorePartialMessage, as far as it completes messages. */
    method Store(messages: seq<Request>)
      modifies this`inbox, this`received
      ensures Value() == Arrive(old(Value()), messages)
      ensures inbox == old(inbox) + messages && received == old(received) + messages
    {
      inbox := inbox + messages;
      received := received + messages;
    }

    /** ResetConnection: of what the model holds, only the receive buffer is cleared. unsent: how many queued replies
        have not gone out. */
    method ResetConnection(unsent: nat)
      requires unsent <= |replies|
      modifies this`inbox, this`replies, this`inherited, this`received, this`doubled, this`torn
      ensures Value() == AfterReset(old(Value()), unsent)
      ensures inbox == [] && process == old(process) && slot == old(slot)
      ensures replies == old(replies)[|old(replies)| - unsent..] && received == []
      ensures inherited == replies + if slot.Some? then [slot.value] else []
    {
      inbox := [];
      var left := replies[|replies| - unsent..];
      inherited := left + if slot.Some? then [slot.value] else [];
      received, doubled, torn := [], 0, false;
      replies := left;
    }

    method ParseReq(memory: bool) returns (ok: bool)
      modifies this`inbox, this`slot
      ensures ok == (old(inbox) != [] && Creatable(old(inbox)[0]) && memory)
      ensures if ok then slot == Some(old(inbox)[0]) && inbox == old(inbox)[1..]
              else slot == old(slot) && inbox == old(inbox)
    {
      if inbox == [] {
        return false;
      }
      var sv := inbox[0];
      if !Creatable(sv) || !memory {
        return false;
      }
      slot := Some(sv);
      inbox := inbox[1..];
      return true;
    }

    method SendRes(answer: PacketOwnership.Answer) returns (ok: bool)
      modifies this`slot, this`replies, this`doubled
      ensures ok == (old(slot).Some? && answer.Queued?)
      ensures slot == if ok then None else old(slot)
      ensures if old(slot).Some? && !answer.Refused? then replies == old(replies) + [old(slot).value]
              else replies == old(replies)
      ensures doubled == old(doubled) + if old(slot).Some? && answer.QueuedButFailed? then 1 else 0
    {
      if slot.None? {
        return false;
      }
      match answer
      case Refused => return false;
      case Queued =>
        replies := replies + [slot.value];
        slot := None;
        return true;
      case QueuedButFailed =>
        replies := replies + [slot.value];
        doubled := doubled + 1;
        return false;
    }

    /** The stages from Execute or Send on; None when the loop goes on. */
    method ServeOne(stage: Stage, luck: Luck, ghost later: seq<Pass>) returns (code: Option<InfoCode>)
      requires stage == Execute || stage == Send
      modifies this`process, this`slot, this`replies, this`doubled
      ensures code == None ==> Served(old(Value()), stage, luck, later) == Turn(Value(), Parsing, later)
      ensures code != None ==> Served(old(Value()), stage, luck, later) == (Value(), code.value)
    {
      if stage == Execute {
        if slot.None? || !luck.executes {
          process := Execute;
          return Some(NotFinished);
        }
      }
      assert Served(Value(), stage, luck, later) == Served(Value(), Send, luck, later);
      var ok := SendRes(luck.answer);
      if !ok {
        process := Send;
        return Some(NotFinished);
      }
      return None;
    }

    /** The loop of HandleReq, with the client's lock held. */
    method RunStages(passes: seq<Pass>) returns (code: InfoCode)
      modifies this
      ensures (Value(), code) == Turn(old(Value()), old(process), passes)
    {
      ghost var goal := Turn(Value(), process, passes);
      var stage, later := process, passes;
      while true
        invariant stage != Popping && Turn(Value(), stage, later) == goal
        decreases |inbox| + Arriving(later), Rank(stage)
      {
        var (now, rest) := NextPass(later);
        if stage == Parsing {
          TurnParses(Value(), later);
          Store(now.arrived);
          var ok := ParseReq(now.luck.memory);
          if !ok {
            process := Parsing;
            return ReqFailed;
          }
          stage := Execute;
        }
        var out := ServeOne(stage, now.luck, rest);
        if out.Some? {
          return out.value;
        }
        stage, later := Parsing, rest;
      }
    }
  }

  /** HandleReq: out at once for an index out of range or a client some other worker is at; otherwise a turn, after
      which the lock is free again. */
  method HandleReq(clients: seq<ClientTurns>, index: nat, passes: seq<Pass>) returns (code: InfoCode)
    modifies if index < |clients| then {clients[index], clients[index].lock} else {}
    ensures index >= |clients| ==> code == OtherErr
    ensures index < |clients| ==>
              var c := clients[index];
              if old(c.lock.flag) then
                c.lock.flag && (c.Value(), code) == Turn(old(c.Value()), old(c.process), passes)
              else !c.lock.flag && c.Value() == old(c.Value()) && code == NotMyTurn
  {
    if index >= |clients| {
      return OtherErr;
    }
    var client := clients[index];
    var guard := new SpinLocks.SpinLockGuard.Try(client.lock);
    if !guard.locked {
      guard.Destroy();
      return NotMyTurn;
    }
    code := client.RunStages(passes);
    guard.Destroy();
  }

  /** Away from this client; in a turn at a stage; done with the stages, lock still held; lock given back, the thread
      pool not yet told. */
  datatype Pc = Away | In(stage: Stage) | Leaving(code: InfoCode) | Returning(code: InfoCode)

  /** How the stages of the last turn ended: at an empty inbox when so many of this client's messages had been
      received, at a request that got no job, or unfinished. */
  datatype Ended = Empty(seen: nat) | NoJob(request: Request) | Unfinished

  /** pending counts the wake-ups in the thread pool's queue. ended is history, and so is turned: the workers turned
      away since the stages of the last turn ended. */
  datatype State = State(pc: map<Thread, Pc>, locked: bool, client: Client, pending: nat, ended: Ended, turned: nat)

  datatype Action =
    | Receive(messages: seq<Request>)   // a receive completes any number of messages and wakes one worker
    | Reset(unsent: nat)                // the client is gone, and another one gets the index
    | Enter(t: Thread)                  // a worker takes a wake-up and tries the client's lock
    | Go(t: Thread, luck: Luck)         // the holder goes through one stage
    | Unlock(t: Thread)
    | Return(t: Thread)                 // NOT_FINISHED is queued again, everything else forgotten

  ghost predicate Init(s: State) {
    && (forall t :: t in s.pc ==> s.pc[t] == Away)
    && s == State(s.pc, false, NEW_CLIENT, 0, Empty(0), 0)
  }

  ghost predicate Enabled(s: State, a: Action) {
    match a
    case Receive(_) => true
    case Reset(unsent) => unsent <= |s.client.replies|
    case Enter(t) => t in s.pc && s.pc[t] == Away && s.pending > 0
    case Go(t, _) => t in s.pc && s.pc[t].In?
    case Unlock(t) => t in s.pc && s.pc[t].Leaving?
    case Return(t) => t in s.pc && s.pc[t].Returning?
  }

  function EndedWith(c: Client, code: InfoCode): Ended {
    if code != ReqFailed then Unfinished else if c.inbox == [] then Empty(|c.received|) else NoJob(c.inbox[0])
  }

  ghost function Step(s: State, a: Action): State
    requires Enabled(s, a)
  {
    match a
    case Receive(messages) => s.(client := Arrive(s.client, messages), pending := s.pending + 1)
    case Reset(unsent) =>
      s.(client := AfterReset(s.client, unsent), ended := if s.ended.Unfinished? then Unfinished else Empty(0))
    case Enter(t) =>
      if s.locked then s.(pending := s.pending - 1, turned := s.turned + 1)
      else s.(pc := s.pc[t := In(s.client.process)], locked := true, pending := s.pending - 1)
    case Go(t, luck) =>
      match Advance(s.client, s.pc[t].stage, luck) {
        case On(c, next) => s.(pc := s.pc[t := In(next)], client := c)
        case Out(c, code) => s.(pc := s.pc[t := Leaving(code)], client := c, ended := EndedWith(c, code), turned := 0)
      }
    case Unlock(t) => s.(pc := s.pc[t := Returning(s.pc[t].code)], locked := false)
    case Return(t) =>
      s.(pc := s.pc[t := Away], pending := if s.pc[t].code == NotFinished then s.pending + 1 else s.pending)
  }

  ghost predicate StepAt(run: seq<State>, i: nat) {
    i + 1 < |run| && exists a :: Enabled(run[i], a) && run[i + 1] == Step(run[i], a)
  }

  ghost predicate IsRun(run: seq<State>) {
    && run != [] && Init(run[0])
    && forall i: nat :: i < |run| - 1 ==> StepAt(run, i)
  }

  /** Holds the client's lock. */
  ghost predicate Inside(s: State, t: Thread) {
    t in s.pc && (s.pc[t].In? || s.pc[t].Leaving?)
  }

  ghost predicate NoneIn(s: State) {
    forall t :: t in s.pc ==> !s.pc[t].In?
  }

  ghost predicate Exclusive(s: State) {
    && (forall t, u :: Inside(s, t) && Inside(s, u) ==> t == u)
    && (s.locked <==> exists t :: Inside(s, t))
  }

  /** Where the client is: at the stage of the worker in a turn, or between turns. */
  ghost function StageNow(s: State): Stage {
    if t :| t in s.pc && s.pc[t].In? then s.pc[t].stage else s.client.process
  }

  ghost predicate AllSound(s: State) {
    Sound(s.client, StageNow(s))
  }

  ghost predicate WillReturn(s: State, t: Thread) {
    t in s.pc && (s.pc[t] == Leaving(NotFinished) || s.pc[t] == Returning(NotFinished))
  }

  /** Between turns: what is waiting is what arrived after the last look, and if anything did, a wake-up is queued or
      was turned away; an unfinished turn has a wake-up coming. */
  ghost predicate Woken(s: State) {
    && (NoneIn(s) && !s.ended.Unfinished? ==> s.client.process == Parsing)
    && (NoneIn(s) ==>
          match s.ended
          case Empty(m) => WaitingSince(s, m)
          case NoJob(request) => s.client.inbox != [] && s.client.inbox[0] == request
          case Unfinished => s.pending > 0 || exists t :: WillReturn(s, t))
    && (forall t :: t in s.pc && s.pc[t].Leaving? ==> (s.pc[t].code == NotFinished <==> s.ended.Unfinished?))
  }

  ghost predicate WaitingSince(s: State, m: nat) {
    && m <= |s.client.received| && s.client.inbox == s.client.received[m..]
    && (s.client.inbox != [] ==> s.pending + s.turned > 0)
  }

  ghost predicate Inv(s: State) {
    Exclusive(s) && AllSound(s) && Woken(s)
  }

  lemma StepKeepsExclusive(s: State, a: Action)
    requires Exclusive(s) && Enabled(s, a)
    ensures Exclusive(Step(s, a))
  {
    var s' := Step(s, a);
    match a
    case Receive(_) =>
      assert forall u :: Inside(s', u) <==> Inside(s, u);
    case Reset(_) =>
      assert forall u :: Inside(s', u) <==> Inside(s, u);
    case Enter(t) =>
      assert forall u :: u != t ==> (Inside(s', u) <==> Inside(s, u));
      assert s.locked ==> !Inside(s', t);
      assert !s.locked ==> Inside(s', t);
      if s.locked {
        var u :| Inside(s, u);
        assert Inside(s', u);
      }
    case Go(t, _) =>
      assert forall u :: u != t ==> (Inside(s', u) <==> Inside(s, u));
      assert Inside(s, t) && Inside(s', t);
    case Unlock(t) =>
      assert forall u :: u != t ==> (Inside(s', u) <==> Inside(s, u));
      assert Inside(s, t) && !Inside(s', t);
    case Return(t) =>
      assert forall u :: Inside(s', u) <==> Inside(s, u);
  }

  lemma StageOfHolder(s: State, t: Thread)
    requires Exclusive(s) && t in s.pc && s.pc[t].In?
    ensures StageNow(s) == s.pc[t].stage
  {
    assert Inside(s, t) && forall u :: u in s.pc && s.pc[u].In? ==> Inside(s, u);
  }

  /** The same workers are in a turn, at the same stages. */
  lemma SameStage(s: State, s': State)
    requires Exclusive(s) && Exclusive(s') && s'.client.process == s.client.process
    requires forall u :: u in s.pc && s.pc[u].In? ==> u in s'.pc && s'.pc[u] == s.pc[u]
    requires forall u :: u in s'.pc && s'.pc[u].In? ==> u in s.pc && s'.pc[u] == s.pc[u]
    ensures StageNow(s') == StageNow(s)
  {
    if t :| t in s.pc && s.pc[t].In? {
      StageOfHolder(s, t);
      StageOfHolder(s', t);
    }
  }

  lemma FreeMeansNoneIn(s: State)
    requires Exclusive(s) && !s.locked
    ensures NoneIn(s)
  {
    forall u | u in s.pc ensures !s.pc[u].In? {
      assert !Inside(s, u);
    }
  }

  /** Taking up a turn resumes it; giving the lock back and returning change nothing. */
  lemma OtherStepsKeepStage(s: State, a: Action)
    requires Exclusive(s) && Enabled(s, a) && !a.Go?
    ensures StageNow(Step(s, a)) == StageNow(s)
  {
    var s' := Step(s, a);
    StepKeepsExclusive(s, a);
    if a.Enter? && !s.locked {
      FreeMeansNoneIn(s);
      StageOfHolder(s', a.t);
    } else {
      SameStage(s, s');
    }
  }

  lemma GoStage(s: State, t: Thread, luck: Luck)
    requires Exclusive(s) && Enabled(s, Go(t, luck))
    ensures var s', m := Step(s, Go(t, luck)), Advance(s.client, s.pc[t].stage, luck);
            && StageNow(s) == s.pc[t].stage && s'.client == m.client
            && StageNow(s') == if m.On? then m.next else m.client.process
  {
    var s' := Step(s, Go(t, luck));
    StepKeepsExclusive(s, Go(t, luck));
    StageOfHolder(s, t);
    if s'.pc[t].In? {
      StageOfHolder(s', t);
    } else {
      assert Inside(s', t) && forall u :: u in s'.pc && s'.pc[u].In? ==> Inside(s', u);
    }
  }

  lemma StepKeepsSound(s: State, a: Action)
    requires Exclusive(s) && AllSound(s) && Enabled(s, a)
    ensures AllSound(Step(s, a))
  {
    match a
    case Go(t, luck) =>
      GoStage(s, t, luck);
      AdvanceKeepsSound(s.client, s.pc[t].stage, luck);
    case Receive(messages) =>
      OtherStepsKeepStage(s, a);
      ArriveKeepsAccount(s.client, messages);
    case Reset(unsent) =>
      OtherStepsKeepStage(s, a);
      ResetIsAccounted(s.client, StageNow(s), unsent);
    case _ => OtherStepsKeepStage(s, a);
  }

  lemma ReceiveKeepsWoken(s: State, messages: seq<Request>)
    requires Woken(s)
    ensures Woken(Step(s, Receive(messages)))
  {
    var s' := Step(s, Receive(messages));
    forall seen: nat | WaitingSince(s, seen) ensures WaitingSince(s', seen) {
      DropFromAppend(s.client.received, messages, seen);
    }
    forall t | WillReturn(s, t) ensures WillReturn(s', t) {
    }
  }

  lemma ResetKeepsWoken(s: State, unsent: nat)
    requires Woken(s) && Enabled(s, Reset(unsent))
    ensures Woken(Step(s, Reset(unsent)))
  {
    var s' := Step(s, Reset(unsent));
    forall t | WillReturn(s, t) ensures WillReturn(s', t) {
    }
  }

  lemma EnterKeepsWoken(s: State, t: Thread)
    requires Exclusive(s) && Woken(s) && Enabled(s, Enter(t))
    ensures Woken(Step(s, Enter(t)))
  {
    var s' := Step(s, Enter(t));
    if s.locked {
      var u :| Inside(s, u);
      assert s.ended.Unfinished? && NoneIn(s) ==> WillReturn(s', u);
    } else {
      assert s'.pc[t].In?;
      assert forall u :: u in s.pc && s.pc[u].Leaving? ==> Inside(s, u);
    }
  }

  lemma GoKeepsWoken(s: State, t: Thread, luck: Luck)
    requires Exclusive(s) && AllSound(s) && Enabled(s, Go(t, luck))
    ensures Woken(Step(s, Go(t, luck)))
  {
    var s' := Step(s, Go(t, luck));
    assert Inside(s, t) && forall u :: u in s.pc && s.pc[u].Leaving? ==> Inside(s, u);
    var m := Advance(s.client, s.pc[t].stage, luck);
    if m.On? {
      assert s'.pc[t].In?;
    } else if m.code == NotFinished {
      assert WillReturn(s', t);
    } else {
      assert s'.client.inbox == [] ==> s'.client.received[|s'.client.received|..] == [];
    }
  }

  lemma LeaveKeepsWoken(s: State, a: Action)
    requires Exclusive(s) && Woken(s) && Enabled(s, a) && (a.Unlock? || a.Return?)
    ensures Woken(Step(s, a))
  {
    var s' := Step(s, a);
    assert forall u :: u in s.pc && s.pc[u].In? ==> u in s'.pc && s'.pc[u].In?;
    forall u | WillReturn(s, u) ensures WillReturn(s', u) || s'.pending > 0 {
    }
  }

  lemma OtherStepsKeepWoken(s: State, a: Action)
    requires Exclusive(s) && Woken(s) && Enabled(s, a) && !a.Go?
    ensures Woken(Step(s, a))
  {
    match a
    case Receive(messages) => ReceiveKeepsWoken(s, messages);
    case Reset(unsent) => ResetKeepsWoken(s, unsent);
    case Enter(t) => EnterKeepsWoken(s, t);
    case _ => LeaveKeepsWoken(s, a);
  }

  lemma NewClientIsSound()
    ensures Sound(NEW_CLIENT, Parsing)
  {
  }

  lemma InitIsSound(s: State)
    requires Init(s)
    ensures Inv(s)
  {
    NewClientIsSound();
    assert forall t :: !Inside(s, t);
    assert NoneIn(s);
    assert s.client.received[0..] == s.client.inbox;
  }

  lemma {:induction false} TurnsInvariant(run: seq<State>, n: nat)
    requires IsRun(run) && n < |run|
    ensures Inv(run[n])
  {
    if n == 0 {
      InitIsSound(run[0]);
    } else {
      TurnsInvariant(run, n - 1);
      assert StepAt(run, n - 1);
      var a :| Enabled(run[n - 1], a) && run[n] == Step(run[n - 1], a);
      StepKeepsExclusive(run[n - 1], a);
      StepKeepsSound(run[n - 1], a);
      if a.Go? {
        GoKeepsWoken(run[n - 1], a.t, a.luck);
      } else {
        OtherStepsKeepWoken(run[n - 1], a);
      }
    }
  }

  lemma SoundNow(run: seq<State>, n: nat)
    requires IsRun(run) && n < |run|
    ensures Sound(run[n].client, StageNow(run[n]))
  {
    TurnsInvariant(run, n);
  }

  /** Order and exactly-once for one client, for any number of workers, any arrivals, any failures and retries, and any
      clients before it on the same index: the answered requests, the one in the slot and the waiting ones are its
      own requests in order, if and only if no reply was queued and yet reported as not sent, and the client before
      it had left nothing in the send queue or in a job. Without the former, what was left comes first. */
  lemma AnsweredInOrderIff(run: seq<State>, n: nat)
    requires IsRun(run) && n < |run|
    ensures var c := run[n].client;
            && (Conserved(c) <==> c.doubled == 0 && c.inherited == [])
            && (c.doubled == 0 ==> Continued(c))
  {
    SoundNow(run, n);
    var c := run[n].client;
    assert [] + c.received == c.received;
    if Conserved(c) {
      assert |c.replies + InSlot(c) + c.inbox| == |c.received|;
    }
  }

  /** A request that CreateJob refuses is never popped: what waits is always a tail of what this client sent, and it
      holds that request and all later ones. */
  lemma RefusedRequestBlocks(run: seq<State>, n: nat, k: nat)
    requires IsRun(run) && n < |run| && k < |run[n].client.received|
    requires !Creatable(run[n].client.received[k])
    ensures var c := run[n].client;
            && |c.inbox| <= |c.received| <= k + |c.inbox| && c.inbox == c.received[|c.received| - |c.inbox|..]
            && |c.replies| <= k + c.doubled + |c.inherited|
  {
    SoundNow(run, n);
  }

  /** At most one worker is in a turn at this client, and a job is in the slot exactly between its parsing and its
      sending; so ParseReq never finds an older job there to throw away. */
  lemma OneTurnAtATime(run: seq<State>, n: nat, t: Thread)
    requires IsRun(run) && n < |run| && t in run[n].pc && run[n].pc[t].In?
    ensures forall u :: Inside(run[n], u) ==> u == t
    ensures run[n].client.slot.Some? <==> run[n].pc[t].stage == Execute || run[n].pc[t].stage == Send
  {
    TurnsInvariant(run, n);
    assert Inside(run[n], t);
    StageOfHolder(run[n], t);
  }

  /** No step at this client is ever blocked, whatever it meets; giving the lock back frees it, and a worker that comes
      back with NOT_FINISHED, and no other, is queued again. */
  lemma StepsAreNeverBlocked(s: State, t: Thread, luck: Luck, messages: seq<Request>)
    requires t in s.pc
    ensures Enabled(s, Receive(messages)) && forall n: nat :: n <= |s.client.replies| ==> Enabled(s, Reset(n))
    ensures s.pc[t] == Away ==> (Enabled(s, Enter(t)) <==> s.pending > 0)
    ensures s.pc[t].In? ==> Enabled(s, Go(t, luck))
    ensures s.pc[t].Leaving? ==>
              && Enabled(s, Unlock(t))
              && Step(s, Unlock(t)) == s.(pc := s.pc[t := Returning(s.pc[t].code)], locked := false)
    ensures s.pc[t].Returning? ==>
              && Enabled(s, Return(t))
              && Step(s, Return(t)).pending == s.pending + (if s.pc[t].code == NotFinished then 1 else 0)
              && Step(s, Return(t)).client == s.client
  {
  }

  /** A worker that takes a wake-up gets its turn exactly when no other is at the client, resumes where the last one
      stopped, and is otherwise turned away; either way the wake-up is used up. */
  lemma EntersIff(run: seq<State>, n: nat, t: Thread)
    requires IsRun(run) && n < |run| && Enabled(run[n], Enter(t))
    ensures var s, s' := run[n], Step(run[n], Enter(t));
            && s'.pending == s.pending - 1 && s'.client == s.client
            && s'.pc == (if forall u :: !Inside(s, u) then s.pc[t := In(s.client.process)] else s.pc)
  {
    TurnsInvariant(run, n);
  }

  /** No worker is at this client and no wake-up is queued. */
  ghost predicate Quiet(s: State) {
    s.pending == 0 && forall t :: t in s.pc ==> s.pc[t] == Away
  }

  /** When nobody is left to do anything, no turn has been left unfinished, and nothing is waiting if and only if the
      last turn did not stop at a request without a job and no message of this client arrived after it found the inbox
      empty. What did arrive after that is all that is waiting, and then a worker was turned away between that look
      and the release of the lock. */
  lemma StrandedIff(run: seq<State>, n: nat)
    requires IsRun(run) && n < |run| && Quiet(run[n])
    ensures var s := run[n];
            && !s.ended.Unfinished? && s.client.slot.None?
            && (s.client.inbox == [] <==> s.ended == Empty(|s.client.received|))
            && (s.ended.Empty? ==>
                  && s.ended.seen <= |s.client.received|
                  && s.client.inbox == s.client.received[s.ended.seen..]
                  && (s.client.inbox != [] ==> s.turned > 0))
            && (s.ended.NoJob? ==> s.client.inbox != [] && s.client.inbox[0] == s.ended.request)
  {
    TurnsInvariant(run, n);
    QuietMeans(run[n]);
  }

  lemma QuietMeans(s: State)
    requires AllSound(s) && Woken(s) && Quiet(s)
    ensures !s.ended.Unfinished?
    ensures s.ended.NoJob? ==> s.client.inbox != [] && s.client.inbox[0] == s.ended.request
    ensures s.ended.Empty? ==> WaitingSince(s, s.ended.seen)
    ensures s.client.slot.None?
  {
    assert NoneIn(s);
    assert forall t :: !WillReturn(s, t);
  }

  lemma Extend(run: seq<State>, last: State, a: Action) returns (longer: seq<State>, next: State)
    requires IsRun(run) && run[|run| - 1] == last && Enabled(last, a)
    ensures next == Step(last, a) && longer == run + [next]
    ensures IsRun(longer) && longer[|longer| - 1] == next
  {
    next := Step(last, a);
    longer := run + [next];
    forall i: nat | i < |longer| - 1 ensures StepAt(longer, i) {
      if i < |run| - 1 {
        assert StepAt(run, i);
        assert longer[i] == run[i] && longer[i + 1] == run[i + 1];
      } else {
        assert Enabled(longer[i], a) && longer[i + 1] == next;
      }
    }
  }

  /** A worker is in a turn, with one message waiting. */
  lemma InTurn(m: Request) returns (run: seq<State>, s: State)
    ensures IsRun(run) && run[|run| - 1] == s
    ensures s == State(map[0 := In(Parsing), 1 := Away], true,
                       Client(Parsing, [m], Nothing, None, [], [], [m], 0, false), 0, Empty(0), 0)
  {
    s := State(map[0 := Away, 1 := Away], false, NEW_CLIENT, 0, Empty(0), 0);
    run := [s];
    run, s := Extend(run, s, Receive([m]));
    run, s := Extend(run, s, Enter(0));
    assert s.pc == map[0 := In(Parsing), 1 := Away];
  }

  /** It is about to send the reply. */
  lemma InSend(m: Request) returns (run: seq<State>, s: State)
    requires Creatable(m)
    ensures IsRun(run) && run[|run| - 1] == s
    ensures s == State(map[0 := In(Send), 1 := Away], true,
                       Client(Parsing, [], Nothing, Some(m), [], [], [m], 0, false), 0, Empty(0), 0)
  {
    run, s := InTurn(m);
    run, s := Extend(run, s, Go(0, GOOD));
    run, s := Extend(run, s, Go(0, GOOD));
    assert s.pc == map[0 := In(Execute), 1 := Away] && s.client.inbox == [];
    run, s := Extend(run, s, Go(0, GOOD));
    assert s.pc == map[0 := In(Send), 1 := Away];
  }

  /** A worker has answered a message, has found the inbox empty, and still holds the lock. */
  lemma AnsweredAndLeaving(m: Request) returns (run: seq<State>, s: State)
    requires Creatable(m)
    ensures IsRun(run) && run[|run| - 1] == s
    ensures s == State(map[0 := Leaving(ReqFailed), 1 := Away], true,
                       Client(Parsing, [], Nothing, None, [m], [], [m], 0, false), 0, Empty(1), 0)
  {
    run, s := InSend(m);
    run, s := Extend(run, s, Go(0, GOOD));
    run, s := Extend(run, s, Go(0, GOOD));
    assert s.pc == map[0 := Leaving(ReqFailed), 1 := Away];
  }

  /** Messages can be stranded that way, whatever they are and however many one receive brings: the one worker woken
      for them is turned away by the worker that has just looked for the last time. */
  lemma StrandedCanHappen(m: Request, more: seq<Request>) returns (run: seq<State>)
    requires Creatable(m)
    ensures IsRun(run) && Quiet(run[|run| - 1]) && run[|run| - 1].turned == 1
    ensures run[|run| - 1].client == Client(Parsing, more, Nothing, None, [m], [], [m] + more, 0, false)
  {
    var s;
    run, s := AnsweredAndLeaving(m);
    run, s := Extend(run, s, Receive(more));
    run, s := Extend(run, s, Enter(1));
    assert s.pc == map[0 := Leaving(ReqFailed), 1 := Away] && s.client.inbox == more;
    run, s := Extend(run, s, Unlock(0));
    run, s := Extend(run, s, Return(0));
    assert s.pc == map[0 := Away, 1 := Away];
  }

  /** A client can be answered a request it never made: the previous client of its index was gone when its reply was
      to be sent, and the turn was resumed for the new one. */
  lemma InheritedReplyHappens(m: Request) returns (run: seq<State>)
    requires Creatable(m)
    ensures IsRun(run)
    ensures var c := run[|run| - 1].client; c.received == [] && c.replies == [m] && c.doubled == 0
  {
    var s;
    run, s := InSend(m);
    run, s := Extend(run, s, Go(0, GOOD.(answer := PacketOwnership.Refused)));
    assert s.pc == map[0 := Leaving(NotFinished), 1 := Away];
    run, s := Extend(run, s, Unlock(0));
    run, s := Extend(run, s, Return(0));
    run, s := Extend(run, s, Reset(0));
    run, s := Extend(run, s, Enter(0));
    assert s.pc == map[0 := In(Send), 1 := Away] && s.client.slot == Some(m) && s.client.replies == [];
    run, s := Extend(run, s, Go(0, GOOD));
  }

  /** Worse, when the disconnect comes between making the job and popping its message: the pop takes the bytes of the
      new client's own request, which is never answered. */
  lemma TornRequestHappens(m: Request, b: Request) returns (run: seq<State>)
    requires Creatable(m) && |b| >= |m|
    ensures IsRun(run)
    ensures exists i :: 0 <= i < |run| && run[i].client.received == [b]
    ensures var c := run[|run| - 1].client; c.torn && c.replies == [m] && c.inbox == [] && c.slot == None
  {
    var s;
    run, s := InTurn(m);
    run, s := Extend(run, s, Go(0, GOOD));
    assert s.pc == map[0 := In(Popping), 1 := Away] && s.client.hand == Fresh(m);
    run, s := Extend(run, s, Reset(0));
    run, s := Extend(run, s, Receive([b]));
    var at := |run| - 1;
    assert run[at].client.received == [b];
    run, s := Extend(run, s, Go(0, GOOD.(tear := Some([]))));
    assert s.pc == map[0 := In(Execute), 1 := Away] && run[at].client.received == [b];
    run, s := Extend(run, s, Go(0, GOOD));
    run, s := Extend(run, s, Go(0, GOOD));
    assert run[at].client.received == [b];
  }
}
