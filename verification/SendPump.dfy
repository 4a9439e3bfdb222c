/** Any number of senders sharing one connection's send buffer. The protocol is the one the lock was written
    for: the lock attempt is awaited, and a sender that does not get the lock leaves its message to the
    holder. The same steps with the attempt not awaited, as line 54 of ClientContext.cs has it, are
    kept beside it to show what differs. */
module SendPumps {
  import opened Bytes
  import opened Collections
  import opened Framing

  type Sender = nat

  /** What the lock attempt of a message's sender found. Late: the holder had already read an empty
      buffer for the last time and was on its way out. */
  datatype Fate = Due | Won | Early | Late

  datatype Entry = Entry(msg: seq<byte>, fate: Fate)

  datatype Pc =
    | Idle
    | Trying(entry: nat)   // message buffered, lock attempt next
    | Reading              // holds the lock, GetSize next
    | Sending(n: nat)      // holds the lock, SendAsync of n bytes next
    | Popping(k: nat)      // holds the lock, k bytes sent, Pop next
    | Leaving(seen: nat)   // read size 0 when seen messages had been accepted; release next
    | Failing              // a send raised something other than SocketException; release next

  /** How the lock was last released. */
  datatype Exit = NoneYet | Normal(seen: nat) | Error

  /** The buffer's array is buf followed by stale, what earlier contents have left behind size. log, fates and
      lastExit are history: the code does not keep them. */
  datatype State = State(pc: map<Sender, Pc>, permits: nat, buf: seq<byte>, stale: seq<byte>, wire: seq<byte>,
                         log: seq<Entry>, lastExit: Exit)

  datatype Action =
    | Enqueue(msg: seq<byte>)
    | TryLock
    | ReadSize
    | Send(k: nat)
    | SocketFault
    | Fault
    | Pop
    | Release

  datatype Move = Move(who: Sender, action: Action)

  predicate Holding(p: Pc) {
    p.Reading? || p.Sending? || p.Popping? || p.Leaving? || p.Failing?
  }

  function Messages(log: seq<Entry>): seq<byte> {
    if log == [] then [] else log[0].msg + Messages(log[1..])
  }

  lemma {:induction false} MessagesAppend(a: seq<Entry>, b: seq<Entry>)
    ensures Messages(a + b) == Messages(a) + Messages(b)
  {
    if a == [] {
      assert a + b == b;
    } else {
      DropFromAppend(a, b, 1);
      MessagesAppend(a[1..], b);
      Reassociate(a[0].msg, Messages(a[1..]), Messages(b));
    }
  }

  lemma {:induction false} MessagesIgnoreFates(a: seq<Entry>, b: seq<Entry>)
    requires |a| == |b| && forall i :: 0 <= i < |a| ==> a[i].msg == b[i].msg
    ensures Messages(a) == Messages(b)
  {
    if a != [] {
      MessagesIgnoreFates(a[1..], b[1..]);
    }
  }

  lemma {:induction false} NothingInMessagesIff(log: seq<Entry>)
    ensures Messages(log) == [] <==> forall i :: 0 <= i < |log| ==> log[i].msg == []
  {
    if log != [] {
      NothingInMessagesIff(log[1..]);
      assert |Messages(log)| == |log[0].msg| + |Messages(log[1..])|;
      if Messages(log) == [] {
        assert forall i :: 1 <= i < |log| ==> log[i] == log[1..][i - 1];
      } else if log[0].msg == [] {
        var i :| 0 <= i < |log| - 1 && log[1..][i].msg != [];
        assert log[i + 1].msg != [];
      }
    }
  }

  ghost predicate Init(s: State) {
    && (forall t :: t in s.pc ==> s.pc[t] == Idle)
    && |s.stale| == SEND_CAP
    && s == State(s.pc, 1, [], s.stale, [], [], NoneYet)
  }

  /** The whole array, as SendAsync sees it. */
  function Area(s: State): seq<byte> {
    s.buf + s.stale
  }

  ghost predicate Enabled(s: State, t: Sender, a: Action) {
    t in s.pc && |Area(s)| == SEND_CAP &&
    match a
    case Enqueue(msg) => s.pc[t].Idle? && |msg| <= SEND_CAP - |s.buf|
    case TryLock => s.pc[t].Trying? && s.pc[t].entry < |s.log|
    case ReadSize => s.pc[t].Reading?
    case Send(k) => s.pc[t].Sending? && k <= s.pc[t].n <= SEGMENT
    case SocketFault => s.pc[t].Sending?
    case Fault => s.pc[t].Sending?
    case Pop => s.pc[t].Popping?
    case Release => s.pc[t].Leaving? || s.pc[t].Failing?
  }

  /** One atomic step of sender t. A message that finds no room changes nothing and is no step. A send takes the
      first k bytes of the array, whatever the size has become since it was read. With awaited false the
      attempt always counts as won and nothing ever gives the permit back. */
  ghost function Step(s: State, t: Sender, a: Action, awaited: bool): State
    requires Enabled(s, t, a)
  {
    match a
    case Enqueue(msg) =>
      s.(pc := s.pc[t := Trying(|s.log|)], buf := s.buf + msg, stale := s.stale[|msg|..],
         log := s.log + [Entry(msg, Due)])
    case TryLock =>
      var i := s.pc[t].entry;
      if s.permits > 0 || !awaited then
        s.(pc := s.pc[t := Reading], permits := 0, log := s.log[i := s.log[i].(fate := Won)])
      else
        var late := exists u :: u in s.pc && s.pc[u].Leaving?;
        s.(pc := s.pc[t := Idle], log := s.log[i := s.log[i].(fate := if late then Late else Early)])
    case ReadSize =>
      if |s.buf| == 0 then s.(pc := s.pc[t := Leaving(|s.log|)])
      else s.(pc := s.pc[t := Sending(if |s.buf| > SEGMENT then SEGMENT else |s.buf|)])
    case Send(k) =>
      s.(pc := s.pc[t := if k > 0 then Popping(k) else Reading], wire := s.wire + Area(s)[..k])
    case SocketFault => s.(pc := s.pc[t := Reading])
    case Fault => s.(pc := s.pc[t := Failing])
    case Pop =>
      var k := s.pc[t].k;
      if |s.buf| < k then s.(pc := s.pc[t := Reading])
      else s.(pc := s.pc[t := Reading], buf := s.buf[k..], stale := Area(s)[|s.buf| - k..])
    case Release =>
      s.(pc := s.pc[t := Idle], permits := if awaited then s.permits + 1 else s.permits,
         lastExit := if s.pc[t].Leaving? then Normal(s.pc[t].seen) else Error)
  }

  ghost predicate StepAt(run: seq<State>, acts: seq<Move>, i: nat, awaited: bool) {
    && i < |acts| && i + 1 < |run|
    && Enabled(run[i], acts[i].who, acts[i].action)
    && run[i + 1] == Step(run[i], acts[i].who, acts[i].action, awaited)
  }

  /** A run with its moves. */
  ghost predicate IsRun(run: seq<State>, acts: seq<Move>, awaited: bool) {
    && |run| == |acts| + 1 && Init(run[0])
    && forall i: nat :: i < |acts| ==> StepAt(run, acts, i, awaited)
  }

  /** What no step of either protocol touches: the array's length, and segments of 1 to 1024 bytes. */
  ghost predicate Shaped(s: State) {
    |Area(s)| == SEND_CAP && forall t :: t in s.pc && s.pc[t].Sending? ==> 1 <= s.pc[t].n <= SEGMENT
  }

  lemma StepKeepsShape(s: State, t: Sender, a: Action, awaited: bool)
    requires Shaped(s) && Enabled(s, t, a)
    ensures Shaped(Step(s, t, a, awaited))
  {
    var s' := Step(s, t, a, awaited);
    assert forall u :: u in s.pc && u != t ==> s'.pc[u] == s.pc[u];
  }

  lemma {:induction false} RunKeepsShape(run: seq<State>, acts: seq<Move>, awaited: bool, i: nat)
    requires IsRun(run, acts, awaited) && i < |run|
    ensures Shaped(run[i])
  {
    if i > 0 {
      RunKeepsShape(run, acts, awaited, i - 1);
      assert StepAt(run, acts, i - 1, awaited);
      StepKeepsShape(run[i - 1], acts[i - 1].who, acts[i - 1].action, awaited);
    }
  }

  /** In either protocol a sender about to send can always do so, with any number of bytes up to its segment. */
  lemma SendsAreNeverBlocked(run: seq<State>, acts: seq<Move>, awaited: bool, i: nat, t: Sender, k: nat)
    requires IsRun(run, acts, awaited) && i < |run| && t in run[i].pc
    requires run[i].pc[t].Sending? && k <= run[i].pc[t].n
    ensures Enabled(run[i], t, Send(k))
  {
    RunKeepsShape(run, acts, awaited, i);
  }

  ghost predicate NonePopping(s: State) {
    forall t :: t in s.pc ==> !s.pc[t].Popping?
  }

  /** The account of the stream: sent bytes, then the buffered bytes that are not already sent and
      waiting to be popped, are the accepted messages in Enqueue order. */
  ghost predicate Stream(s: State) {
    && (forall t :: t in s.pc && s.pc[t].Popping? ==>
          1 <= s.pc[t].k <= |s.buf| && s.wire + s.buf[s.pc[t].k..] == Messages(s.log))
    && (NonePopping(s) ==> s.wire + s.buf == Messages(s.log))
  }

  ghost predicate OnePopping(s: State) {
    forall t, u :: t in s.pc && u in s.pc && s.pc[t].Popping? && s.pc[u].Popping? ==> t == u
  }

  /** A send that goes wrong: it sends bytes that another sender has sent and not yet popped, or bytes behind the
      end of what is buffered. */
  ghost predicate Clash(s: State, t: Sender, a: Action) {
    a.Send? && (a.k > |s.buf| || (a.k > 0 && exists u :: u in s.pc && u != t && s.pc[u].Popping?))
  }

  /** Whatever the bytes, such a send breaks the account. */
  lemma ClashBreaksStream(s: State, t: Sender, a: Action, awaited: bool)
    requires Stream(s) && Enabled(s, t, a) && Clash(s, t, a)
    ensures !Stream(Step(s, t, a, awaited))
  {
    var s' := Step(s, t, a, awaited);
    assert s'.pc[t] == Popping(a.k) && |s'.wire| == |s.wire| + a.k;
    if a.k <= |s.buf| {
      var u :| u in s.pc && u != t && s.pc[u].Popping?;
      assert s'.pc[u] == s.pc[u];
      assert |s.wire + s.buf[s.pc[u].k..]| == |Messages(s.log)|;
      assert |s'.wire + s'.buf[s'.pc[u].k..]| == |Messages(s.log)| + a.k;
    }
  }

  lemma EnqueueKeepsStream(s: State, t: Sender, msg: seq<byte>, awaited: bool)
    requires Stream(s) && OnePopping(s) && Enabled(s, t, Enqueue(msg))
    ensures Stream(Step(s, t, Enqueue(msg), awaited)) && OnePopping(Step(s, t, Enqueue(msg), awaited))
  {
    var s' := Step(s, t, Enqueue(msg), awaited);
    assert forall u :: u in s.pc && u != t ==> s'.pc[u] == s.pc[u];
    assert NonePopping(s') ==> NonePopping(s);
    MessagesAppend(s.log, [Entry(msg, Due)]);
    assert Messages([Entry(msg, Due)]) == msg;
    Reassociate(s.wire, s.buf, msg);
    forall u | u in s'.pc && s'.pc[u].Popping?
      ensures s'.wire + s'.buf[s'.pc[u].k..] == Messages(s'.log)
    {
      DropFromAppend(s.buf, msg, s.pc[u].k);
      Reassociate(s.wire, s.buf[s.pc[u].k..], msg);
    }
  }

  /** Changing fates changes no bytes. */
  lemma RefateKeepsMessages(log: seq<Entry>, i: nat, f: Fate)
    requires i < |log|
    ensures Messages(log[i := log[i].(fate := f)]) == Messages(log)
  {
    MessagesIgnoreFates(log[i := log[i].(fate := f)], log);
  }

  /** A step that moves no byte, and whose sender has nothing to pop before or after. */
  lemma SameBytesKeepStream(s: State, s': State, t: Sender)
    requires Stream(s) && OnePopping(s) && t in s.pc && !s.pc[t].Popping?
    requires s'.pc.Keys == s.pc.Keys && !s'.pc[t].Popping?
    requires forall u :: u in s.pc && u != t ==> s'.pc[u] == s.pc[u]
    requires s'.buf == s.buf && s'.wire == s.wire && Messages(s'.log) == Messages(s.log)
    ensures Stream(s') && OnePopping(s')
  {
    assert NonePopping(s') ==> NonePopping(s);
  }

  lemma SendKeepsStream(s: State, t: Sender, k: nat, awaited: bool)
    requires Stream(s) && OnePopping(s) && Enabled(s, t, Send(k)) && !Clash(s, t, Send(k))
    ensures Stream(Step(s, t, Send(k), awaited)) && OnePopping(Step(s, t, Send(k), awaited))
  {
    var s' := Step(s, t, Send(k), awaited);
    assert forall u :: u in s.pc && u != t ==> s'.pc[u] == s.pc[u];
    TakeFromAppend(s.buf, s.stale, k);
    if k == 0 {
      assert s'.wire == s.wire;
      SameBytesKeepStream(s, s', t);
    } else {
      assert NonePopping(s) && s'.pc[t].Popping?;
      Reassociate(s.wire, s.buf[..k], s.buf[k..]);
      SplitAt(s.buf, k);
    }
  }

  lemma PopKeepsStream(s: State, t: Sender, awaited: bool)
    requires Stream(s) && OnePopping(s) && Enabled(s, t, Pop)
    ensures Stream(Step(s, t, Pop, awaited)) && OnePopping(Step(s, t, Pop, awaited))
  {
    var s' := Step(s, t, Pop, awaited);
    assert forall u :: u in s.pc && u != t ==> s'.pc[u] == s.pc[u];
  }

  /** Every other step keeps it. */
  lemma StepKeepsStream(s: State, t: Sender, a: Action, awaited: bool)
    requires Stream(s) && OnePopping(s) && Enabled(s, t, a) && !Clash(s, t, a)
    ensures Stream(Step(s, t, a, awaited)) && OnePopping(Step(s, t, a, awaited))
  {
    match a
    case Enqueue(msg) => EnqueueKeepsStream(s, t, msg, awaited);
    case Send(k) => SendKeepsStream(s, t, k, awaited);
    case Pop => PopKeepsStream(s, t, awaited);
    case TryLock =>
      var s' := Step(s, t, a, awaited);
      RefateKeepsMessages(s.log, s.pc[t].entry, s'.log[s.pc[t].entry].fate);
      SameBytesKeepStream(s, s', t);
    case _ => SameBytesKeepStream(s, Step(s, t, a, awaited), t);
  }

  lemma {:induction false} StreamUpTo(run: seq<State>, acts: seq<Move>, awaited: bool, i: nat)
    requires IsRun(run, acts, awaited) && i < |run|
    requires forall j :: 0 <= j < i ==> !Clash(run[j], acts[j].who, acts[j].action)
    ensures Stream(run[i]) && OnePopping(run[i])
  {
    if i > 0 {
      StreamUpTo(run, acts, awaited, i - 1);
      assert StepAt(run, acts, i - 1, awaited);
      StepKeepsStream(run[i - 1], acts[i - 1].who, acts[i - 1].action, awaited);
    }
  }

  /** The account exactly, for the code as written (awaited false) as well as for the awaited protocol, over every
      run of any number of senders: it holds in every state if and only if no send sent bytes that another
      sender had still to pop, and none sent bytes behind the end of what was buffered. */
  lemma StreamIff(run: seq<State>, acts: seq<Move>, awaited: bool)
    requires IsRun(run, acts, awaited)
    ensures (forall i :: 0 <= i < |run| ==> Stream(run[i]))
            <==> (forall i :: 0 <= i < |acts| ==> !Clash(run[i], acts[i].who, acts[i].action))
  {
    if i :| 0 <= i < |acts| && Clash(run[i], acts[i].who, acts[i].action) {
      assert StepAt(run, acts, i, awaited);
      if Stream(run[i]) {
        ClashBreaksStream(run[i], acts[i].who, acts[i].action, awaited);
        assert !Stream(run[i + 1]);
      }
    } else {
      forall i | 0 <= i < |run| ensures Stream(run[i]) {
        StreamUpTo(run, acts, awaited, i);
      }
    }
  }

  /** The senders do not overlap: one at most is between its lock attempt and its release. */
  ghost predicate OneHolder(s: State) {
    forall t, u :: t in s.pc && u in s.pc && Holding(s.pc[t]) && Holding(s.pc[u]) ==> t == u
  }

  /** What a sender is about to send is still buffered. */
  ghost predicate SegmentsBuffered(s: State) {
    forall t :: t in s.pc && s.pc[t].Sending? ==> 1 <= s.pc[t].n <= |s.buf|
  }

  lemma NoClashAlone(s: State, t: Sender, a: Action)
    requires OneHolder(s) && SegmentsBuffered(s) && Enabled(s, t, a)
    ensures !Clash(s, t, a)
  {
    if a.Send? {
      assert Holding(s.pc[t]);
      assert forall u :: u in s.pc && s.pc[u].Popping? ==> Holding(s.pc[u]);
    }
  }

  lemma StepKeepsSegments(s: State, t: Sender, a: Action, awaited: bool)
    requires OneHolder(s) && SegmentsBuffered(s) && Enabled(s, t, a)
    ensures SegmentsBuffered(Step(s, t, a, awaited))
  {
    var s' := Step(s, t, a, awaited);
    assert forall u :: u in s.pc && u != t ==> s'.pc[u] == s.pc[u];
    if a.Pop? {
      assert Holding(s.pc[t]) && forall u :: u in s.pc && s.pc[u].Sending? ==> Holding(s.pc[u]);
    }
  }

  lemma {:induction false} SegmentsAlone(run: seq<State>, acts: seq<Move>, awaited: bool, i: nat)
    requires IsRun(run, acts, awaited) && i < |run|
    requires forall j :: 0 <= j < |run| ==> OneHolder(run[j])
    ensures SegmentsBuffered(run[i])
  {
    if i > 0 {
      SegmentsAlone(run, acts, awaited, i - 1);
      assert StepAt(run, acts, i - 1, awaited);
      StepKeepsSegments(run[i - 1], acts[i - 1].who, acts[i - 1].action, awaited);
    }
  }

  /** So the code as written keeps the account as long as no two senders overlap. */
  lemma NonOverlappingSendersKeepStream(run: seq<State>, acts: seq<Move>, awaited: bool, i: nat)
    requires IsRun(run, acts, awaited) && i < |run|
    requires forall j :: 0 <= j < |run| ==> OneHolder(run[j])
    ensures Stream(run[i])
  {
    forall j | 0 <= j < |acts| ensures !Clash(run[j], acts[j].who, acts[j].action) {
      SegmentsAlone(run, acts, awaited, j);
      assert StepAt(run, acts, j, awaited);
      NoClashAlone(run[j], acts[j].who, acts[j].action);
    }
    StreamIff(run, acts, awaited);
  }

  /** At most one sender holds the lock, and the permit is out exactly then. */
  ghost predicate Exclusive(s: State) {
    && OneHolder(s)
    && s.permits <= 1
    && (s.permits == 0 <==> exists t :: t in s.pc && Holding(s.pc[t]))
  }

  /** From message number m on, everyone either still has to try the lock or tried it too late. */
  ghost predicate DrainedTo(s: State, m: nat) {
    && m <= |s.log|
    && s.wire == Messages(s.log[..m])
    && forall i :: m <= i < |s.log| ==> s.log[i].fate == Due || s.log[i].fate == Late
  }

  /** A holder on its way out has drained the buffer, or it is failing and has not. */
  ghost predicate LeavingDrained(s: State) {
    forall t :: t in s.pc ==>
      && (s.pc[t].Leaving? ==> DrainedTo(s, s.pc[t].seen))
      && (s.pc[t].Failing? ==> s.buf != [])
  }

  /** While the lock is free, the same holds of the last one that left. */
  ghost predicate FreeDrained(s: State) {
    s.permits == 1 ==>
      match s.lastExit
      case NoneYet => DrainedTo(s, 0)
      case Normal(m) => DrainedTo(s, m)
      case Error => s.buf != []
  }

  /** Every sender about to try has a message of its own that is still due. */
  ghost predicate TryingIsDue(s: State) {
    && (forall t :: t in s.pc && s.pc[t].Trying? ==> s.pc[t].entry < |s.log| && s.log[s.pc[t].entry].fate == Due)
    && (forall t, u :: t in s.pc && u in s.pc && s.pc[t].Trying? && s.pc[t] == s.pc[u] ==> t == u)
  }

  /** Every message that is still due has its sender about to try. */
  ghost predicate DueIsTrying(s: State) {
    forall i: nat :: i < |s.log| && s.log[i].fate == Due ==> exists t :: t in s.pc && s.pc[t] == Trying(i)
  }

  ghost predicate Inv(s: State) {
    && Exclusive(s) && Stream(s) && SegmentsBuffered(s)
    && LeavingDrained(s) && FreeDrained(s)
    && TryingIsDue(s) && DueIsTrying(s)
  }

  lemma StepKeepsExclusive(s: State, t: Sender, a: Action)
    requires Exclusive(s) && Enabled(s, t, a)
    ensures Exclusive(Step(s, t, a, true))
  {
    var s' := Step(s, t, a, true);
    if a.TryLock? && s.permits > 0 {
      assert Holding(s'.pc[t]);
    } else if !a.Enqueue? && !a.TryLock? {
      assert Holding(s.pc[t]);
      if !a.Release? {
        assert Holding(s'.pc[t]);
      }
    } else {
      assert forall u :: u in s.pc && Holding(s.pc[u]) ==> u != t && Holding(s'.pc[u]);
    }
  }

  lemma AtMostOnePops(s: State)
    requires Exclusive(s)
    ensures OnePopping(s)
  {
    assert forall u :: u in s.pc && s.pc[u].Popping? ==> Holding(s.pc[u]);
  }

  lemma EnqueueKeepsDrained(s: State, t: Sender, msg: seq<byte>)
    requires LeavingDrained(s) && FreeDrained(s) && Enabled(s, t, Enqueue(msg))
    ensures LeavingDrained(Step(s, t, Enqueue(msg), true)) && FreeDrained(Step(s, t, Enqueue(msg), true))
  {
    var s' := Step(s, t, Enqueue(msg), true);
    assert forall u :: u in s.pc && u != t ==> s'.pc[u] == s.pc[u];
    forall m: nat | DrainedTo(s, m) ensures DrainedTo(s', m) {
      assert s'.log[..m] == s.log[..m];
    }
  }

  lemma TryLockKeepsDrained(s: State, t: Sender)
    requires Exclusive(s) && LeavingDrained(s) && Enabled(s, t, TryLock)
    ensures LeavingDrained(Step(s, t, TryLock, true)) && FreeDrained(Step(s, t, TryLock, true))
  {
    var s' := Step(s, t, TryLock, true);
    assert forall u :: u in s.pc && u != t ==> s'.pc[u] == s.pc[u];
    if s.permits == 0 {
      forall u | u in s'.pc && s'.pc[u].Leaving? ensures DrainedTo(s', s'.pc[u].seen) {
        var m := s.pc[u].seen;
        MessagesIgnoreFates(s'.log[..m], s.log[..m]);
      }
    } else {
      assert forall u :: u in s.pc ==> !s.pc[u].Leaving? && !s.pc[u].Failing?;
    }
  }

  /** While the holder reads, sends and pops, nobody else is on the way out and the permit is out. */
  lemma HolderKeepsDrained(s: State, s': State, t: Sender)
    requires Exclusive(s) && t in s.pc && Holding(s.pc[t])
    requires s'.pc.Keys == s.pc.Keys && s'.permits == s.permits
    requires forall u :: u in s.pc && u != t ==> s'.pc[u] == s.pc[u]
    requires s'.pc[t].Leaving? ==> DrainedTo(s', s'.pc[t].seen)
    requires s'.pc[t].Failing? ==> s'.buf != []
    ensures LeavingDrained(s') && FreeDrained(s')
  {
    assert forall u :: u in s.pc && (s.pc[u].Leaving? || s.pc[u].Failing?) ==> Holding(s.pc[u]);
  }

  lemma ReadKeepsDrained(s: State, t: Sender)
    requires Exclusive(s) && Stream(s) && Enabled(s, t, ReadSize)
    ensures LeavingDrained(Step(s, t, ReadSize, true)) && FreeDrained(Step(s, t, ReadSize, true))
  {
    var s' := Step(s, t, ReadSize, true);
    if s.buf == [] {
      assert NonePopping(s) by {
        assert forall u :: u in s.pc && s.pc[u].Popping? ==> Holding(s.pc[u]);
      }
      assert s.wire + s.buf == s.wire;
      assert s'.log[..|s.log|] == s.log;
    }
    HolderKeepsDrained(s, s', t);
  }

  lemma ReleaseKeepsDrained(s: State, t: Sender)
    requires Exclusive(s) && LeavingDrained(s) && Enabled(s, t, Release)
    ensures LeavingDrained(Step(s, t, Release, true)) && FreeDrained(Step(s, t, Release, true))
  {
    var s' := Step(s, t, Release, true);
    assert forall u :: u in s.pc && u != t ==> s'.pc[u] == s.pc[u] && !Holding(s.pc[u]);
    assert s.pc[t].Leaving? ==> DrainedTo(s', s.pc[t].seen);
  }

  lemma StepKeepsDrained(s: State, t: Sender, a: Action)
    requires Inv(s) && Enabled(s, t, a)
    ensures LeavingDrained(Step(s, t, a, true)) && FreeDrained(Step(s, t, a, true))
  {
    match a
    case Enqueue(msg) => EnqueueKeepsDrained(s, t, msg);
    case TryLock => TryLockKeepsDrained(s, t);
    case ReadSize => ReadKeepsDrained(s, t);
    case Release => ReleaseKeepsDrained(s, t);
    case _ => HolderKeepsDrained(s, Step(s, t, a, true), t);
  }

  lemma TryLockKeepsTrying(s: State, t: Sender)
    requires TryingIsDue(s) && Enabled(s, t, TryLock)
    ensures TryingIsDue(Step(s, t, TryLock, true))
  {
    var s' := Step(s, t, TryLock, true);
    assert !s'.pc[t].Trying? && forall u :: u in s.pc && u != t ==> s'.pc[u] == s.pc[u];
  }

  /** The senders about to try and the messages they try for stay matched one to one. */
  lemma StepKeepsTrying(s: State, t: Sender, a: Action)
    requires TryingIsDue(s) && Enabled(s, t, a)
    ensures TryingIsDue(Step(s, t, a, true))
  {
    var s' := Step(s, t, a, true);
    assert forall u :: u in s.pc && u != t ==> s'.pc[u] == s.pc[u];
    if a.TryLock? {
      TryLockKeepsTrying(s, t);
    } else if !a.Enqueue? {
      assert s'.log == s.log && !s'.pc[t].Trying?;
    }
  }

  lemma StepKeepsDue(s: State, t: Sender, a: Action)
    requires DueIsTrying(s) && Enabled(s, t, a)
    ensures DueIsTrying(Step(s, t, a, true))
  {
    var s' := Step(s, t, a, true);
    forall i: nat | i < |s'.log| && s'.log[i].fate == Due
      ensures exists u :: u in s'.pc && s'.pc[u] == Trying(i)
    {
      if i == |s.log| {
        assert s'.pc[t] == Trying(i);
      } else {
        var u :| u in s.pc && s.pc[u] == Trying(i);
        assert s'.pc[u] == Trying(i);
      }
    }
  }

  lemma StepKeepsInv(s: State, t: Sender, a: Action)
    requires Inv(s) && Enabled(s, t, a)
    ensures Inv(Step(s, t, a, true))
  {
    StepKeepsExclusive(s, t, a);
    AtMostOnePops(s);
    NoClashAlone(s, t, a);
    StepKeepsStream(s, t, a, true);
    StepKeepsSegments(s, t, a, true);
    StepKeepsDrained(s, t, a);
    StepKeepsTrying(s, t, a);
    StepKeepsDue(s, t, a);
  }

  lemma InitIsSound(s: State)
    requires Init(s)
    ensures Inv(s)
  {
    assert s.log[..0] == [];
  }

  lemma {:induction false} ReachableInv(run: seq<State>, acts: seq<Move>, i: nat)
    requires IsRun(run, acts, true) && i < |run|
    ensures Inv(run[i])
  {
    if i == 0 {
      InitIsSound(run[0]);
    } else {
      ReachableInv(run, acts, i - 1);
      assert StepAt(run, acts, i - 1, true);
      StepKeepsInv(run[i - 1], acts[i - 1].who, acts[i - 1].action);
    }
  }

  /** Send pump safety: in every state of every run of the awaited protocol, at most one sender holds the lock and
      the stream is accounted for. */
  lemma PumpInvariant(run: seq<State>, acts: seq<Move>, i: nat)
    requires IsRun(run, acts, true) && i < |run|
    ensures OneHolder(run[i]) && Stream(run[i])
    ensures run[i].permits == 0 <==> exists t :: t in run[i].pc && Holding(run[i].pc[t])
  {
    ReachableInv(run, acts, i);
  }

  /** An awaited attempt wins exactly when nobody holds the lock. A sender that loses goes away, and its message counts
      as too late exactly when the holder has already read an empty buffer. Not awaited, every attempt wins. */
  lemma AttemptWinsIff(run: seq<State>, acts: seq<Move>, awaited: bool, i: nat, t: Sender)
    requires IsRun(run, acts, awaited) && i < |run| && Enabled(run[i], t, TryLock)
    ensures var s, s', e := run[i], Step(run[i], t, TryLock, awaited), run[i].pc[t].entry;
            var free := !awaited || forall u :: u in s.pc ==> !Holding(s.pc[u]);
            && s'.pc == s.pc[t := if free then Reading else Idle]
            && s'.buf == s.buf && s'.wire == s.wire
            && (s'.log[e].fate == Won <==> free)
            && (s'.log[e].fate == Late <==> !free && exists u :: u in s.pc && s.pc[u].Leaving?)
  {
    if awaited {
      ReachableInv(run, acts, i);
    }
  }

  /** The holder's Pop never fails: it always removes the bytes just sent. */
  lemma PopNeverFails(run: seq<State>, acts: seq<Move>, i: nat, t: Sender)
    requires IsRun(run, acts, true) && i < |run| && Enabled(run[i], t, Pop)
    ensures var s := run[i];
            && s.pc[t].k <= |s.buf|
            && s.wire + s.buf[s.pc[t].k..] == Messages(s.log)
            && Step(s, t, Pop, true).buf == s.buf[s.pc[t].k..]
  {
    ReachableInv(run, acts, i);
  }

  /** Exact drain guarantee, first half: a holder that leaves normally has sent, in order, every message accepted
      before its final read of the size, and nothing else. */
  lemma NormalExitHasDrained(run: seq<State>, acts: seq<Move>, i: nat, t: Sender)
    requires IsRun(run, acts, true) && i < |run| && t in run[i].pc && run[i].pc[t].Leaving?
    ensures run[i].pc[t].seen <= |run[i].log|
    ensures run[i].wire == Messages(run[i].log[..run[i].pc[t].seen])
  {
    ReachableInv(run, acts, i);
  }

  /** The lock is free and nobody is still due to try it. */
  ghost predicate Quiet(s: State) {
    s.permits == 1 && forall t :: t in s.pc ==> !s.pc[t].Trying?
  }

  /** How many messages had been accepted at the last holder's final read. */
  function LastSeen(s: State): nat {
    if s.lastExit.Normal? then s.lastExit.seen else 0
  }

  /** Exact drain guarantee, second half: in a quiet state whose last release was normal, what is left in the
      buffer is exactly the messages accepted after that holder's final read, and the sender of each
      of them failed its lock attempt between that read and the release. */
  lemma LeftoversCameTooLate(run: seq<State>, acts: seq<Move>, i: nat)
    requires IsRun(run, acts, true) && i < |run| && Quiet(run[i]) && !run[i].lastExit.Error?
    ensures var s, m := run[i], LastSeen(run[i]);
            && m <= |s.log|
            && s.wire == Messages(s.log[..m])
            && s.buf == Messages(s.log[m..])
            && forall j :: m <= j < |s.log| ==> s.log[j].fate == Late
  {
    var s, m := run[i], LastSeen(run[i]);
    ReachableInv(run, acts, i);
    QuietMeansLate(s);
    MessagesAppend(s.log[..m], s.log[m..]);
    SplitAt(s.log, m);
    CancelLeft(s.wire, s.buf, Messages(s.log[m..]));
  }

  lemma QuietMeansLate(s: State)
    requires Exclusive(s) && Stream(s) && FreeDrained(s) && DueIsTrying(s) && Quiet(s) && !s.lastExit.Error?
    ensures LastSeen(s) <= |s.log| && s.wire == Messages(s.log[..LastSeen(s)])
    ensures forall j :: LastSeen(s) <= j < |s.log| ==> s.log[j].fate == Late
    ensures s.wire + s.buf == Messages(s.log)
  {
    assert NonePopping(s) by {
      assert forall u :: u in s.pc && s.pc[u].Popping? ==> Holding(s.pc[u]);
    }
    assert forall j: nat :: j < |s.log| ==> s.log[j].fate != Due;
  }

  /** With error exits too: a quiet state has nothing left to send if and only if the last release was normal (or
      none has happened) and no message with bytes in it was accepted after that holder's final read. */
  lemma QuietIsDrainedIff(run: seq<State>, acts: seq<Move>, i: nat)
    requires IsRun(run, acts, true) && i < |run| && Quiet(run[i])
    ensures var s := run[i];
            s.buf == [] <==>
              !s.lastExit.Error? && forall j :: LastSeen(s) <= j < |s.log| ==> s.log[j].msg == []
  {
    var s, m := run[i], LastSeen(run[i]);
    ReachableInv(run, acts, i);
    if !s.lastExit.Error? {
      LeftoversCameTooLate(run, acts, i);
      NothingInMessagesIff(s.log[m..]);
      if s.buf == [] {
        assert forall j :: m <= j < |s.log| ==> s.log[j] == s.log[m..][j - m];
      }
    }
  }

  lemma Extend(run: seq<State>, acts: seq<Move>, last: State, t: Sender, a: Action, awaited: bool)
    returns (longer: seq<State>, moves: seq<Move>, next: State)
    requires IsRun(run, acts, awaited) && run[|run| - 1] == last && Enabled(last, t, a)
    ensures next == Step(last, t, a, awaited) && longer == run + [next] && moves == acts + [Move(t, a)]
    ensures IsRun(longer, moves, awaited) && longer[|longer| - 1] == next
  {
    next := Step(last, t, a, awaited);
    longer, moves := run + [next], acts + [Move(t, a)];
    forall i: nat | i < |moves| ensures StepAt(longer, moves, i, awaited) {
      if i < |acts| {
        assert StepAt(run, acts, i, awaited);
        assert longer[i] == run[i] && longer[i + 1] == run[i + 1] && moves[i] == acts[i];
      }
    }
  }

  const ZEROS: seq<byte> := seq(SEND_CAP, _ => 0)

  const TWO_IDLE: State := State(map[0 := Idle, 1 := Idle], 1, [], ZEROS, [], [], NoneYet)

  /** One sender buffers a byte, sends it, and is about to release the lock. */
  lemma OneSenderAboutToLeave() returns (run: seq<State>, acts: seq<Move>, s: State)
    ensures IsRun(run, acts, true) && run[|run| - 1] == s && |Area(s)| == SEND_CAP
    ensures s == State(map[0 := Leaving(1), 1 := Idle], 0, [], s.stale, [1], [Entry([1], Won)], NoneYet)
  {
    run, acts, s := [TWO_IDLE], [], TWO_IDLE;
    run, acts, s := Extend(run, acts, s, 0, Enqueue([1]), true);
    run, acts, s := Extend(run, acts, s, 0, TryLock, true);
    assert s == State(map[0 := Reading, 1 := Idle], 0, [1], s.stale, [], [Entry([1], Won)], NoneYet);
    run, acts, s := Extend(run, acts, s, 0, ReadSize, true);
    run, acts, s := Extend(run, acts, s, 0, Send(1), true);
    assert s == State(map[0 := Popping(1), 1 := Idle], 0, [1], s.stale, [1], [Entry([1], Won)], NoneYet);
    run, acts, s := Extend(run, acts, s, 0, Pop, true);
    run, acts, s := Extend(run, acts, s, 0, ReadSize, true);
  }

  /** The gap the drain guarantee leaves open is real: between the holder's final read and its release another
      sender can buffer a message and give up, and nobody is left to send it. */
  lemma LeftoversCanHappen() returns (run: seq<State>, acts: seq<Move>)
    ensures IsRun(run, acts, true)
    ensures var s := run[|run| - 1];
            Quiet(s) && s.lastExit == Normal(1) && s.wire == [1] && s.buf == [2]
            && s.pc == map[0 := Idle, 1 := Idle]
  {
    var s;
    run, acts, s := OneSenderAboutToLeave();
    run, acts, s := Extend(run, acts, s, 1, Enqueue([2]), true);
    assert s.pc == map[0 := Leaving(1), 1 := Trying(1)];
    run, acts, s := Extend(run, acts, s, 1, TryLock, true);
    assert s.pc == map[0 := Leaving(1), 1 := Idle];
    run, acts, s := Extend(run, acts, s, 0, Release, true);
  }

  /** With the attempt not awaited, two senders reach the send at once. */
  lemma TwoSendersInside() returns (run: seq<State>, acts: seq<Move>, s: State)
    ensures IsRun(run, acts, false) && run[|run| - 1] == s && |Area(s)| == SEND_CAP
    ensures s == State(map[0 := Sending(1), 1 := Sending(2)], 0, [1, 2], s.stale, [],
                       [Entry([1], Won), Entry([2], Won)], NoneYet)
  {
    run, acts, s := [TWO_IDLE], [], TWO_IDLE;
    run, acts, s := Extend(run, acts, s, 0, Enqueue([1]), false);
    run, acts, s := Extend(run, acts, s, 0, TryLock, false);
    run, acts, s := Extend(run, acts, s, 0, ReadSize, false);
    assert s == State(map[0 := Sending(1), 1 := Idle], 0, [1], s.stale, [], [Entry([1], Won)], NoneYet);
    run, acts, s := Extend(run, acts, s, 1, Enqueue([2]), false);
    run, acts, s := Extend(run, acts, s, 1, TryLock, false);
    assert s.log == [Entry([1], Won), Entry([2], Won)];
    run, acts, s := Extend(run, acts, s, 1, ReadSize, false);
  }

  /** Both kinds of clash happen in the code as written. Here both send the first message, and the second sender's
      Pop asks for more than is left. */
  lemma UnawaitedSendersDuplicate() returns (run: seq<State>, acts: seq<Move>)
    ensures IsRun(run, acts, false)
    ensures var s := run[|run| - 1];
            && Messages(s.log) == [1, 2] && s.wire == [1, 1, 2]
            && Enabled(s, 1, Pop) && s.pc[1].k > |s.buf|
  {
    var s;
    run, acts, s := TwoSendersInside();
    run, acts, s := Extend(run, acts, s, 0, Send(1), false);
    TakeFromAppend(s.buf, s.stale, 2);
    run, acts, s := Extend(run, acts, s, 1, Send(2), false);
    assert s.pc == map[0 := Popping(1), 1 := Popping(2)];
    run, acts, s := Extend(run, acts, s, 0, Pop, false);
    assert Messages(s.log[1..]) == [2] + Messages([]);
  }

  /** Here the first sender has finished when the second sends the two bytes it had seen, one of them stale. */
  lemma UnawaitedSenderSendsStale() returns (run: seq<State>, acts: seq<Move>)
    ensures IsRun(run, acts, false)
    ensures var s := run[|run| - 1]; Messages(s.log) == [1, 2] && s.wire == [1, 2, 2]
  {
    var s;
    run, acts, s := TwoSendersInside();
    ghost var stale := s.stale;
    run, acts, s := Extend(run, acts, s, 0, Send(1), false);
    assert Area(s)[1..] == [2] + stale;
    run, acts, s := Extend(run, acts, s, 0, Pop, false);
    assert s.buf == [2] && s.stale == [2] + stale;
    assert Area(s)[..2] == [2, 2];
    run, acts, s := Extend(run, acts, s, 1, Send(2), false);
    assert Messages(s.log[1..]) == [2] + Messages([]);
  }
}
