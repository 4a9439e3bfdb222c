/** The senders that share one send buffer, left alone: with no further messages they finish, and what they leave is
    what the drain guarantee allows. */
module SendProgress {
  import opened Collections
  import opened Framing
  import opened SendPumps

  /** Steps still to come for one sender, apart from three for every byte in the buffer. */
  function SenderWork(p: Pc): nat {
    match p
    case Idle => 0
    case Trying(_) => 4
    case Reading => 3
    case Sending(_) => 2
    case Popping(_) => 1
    case Leaving(_) => 1
    case Failing => 1
  }

  ghost function Works(pc: map<Sender, Pc>): map<Sender, nat> {
    map t | t in pc :: SenderWork(pc[t])
  }

  ghost function Work(s: State): nat {
    3 * |s.buf| + Sum(Works(s.pc))
  }

  lemma MoveWork(pc: map<Sender, Pc>, t: Sender, p: Pc)
    requires t in pc
    ensures Sum(Works(pc[t := p])) + SenderWork(pc[t]) == Sum(Works(pc)) + SenderWork(p)
  {
    assert Works(pc[t := p]) == Works(pc)[t := SenderWork(p)];
    SumUpdate(Works(pc), t, SenderWork(p));
  }

  /** A send that took nothing, or was refused and will be tried again. */
  ghost predicate NoProgress(a: Action) {
    a.SocketFault? || (a.Send? && a.k == 0)
  }

  lemma PopShrinksBuffer(s: State, t: Sender)
    requires Stream(s) && Enabled(s, t, Pop)
    ensures |Step(s, t, Pop, true).buf| < |s.buf|
  {
    assert 1 <= s.pc[t].k <= |s.buf|;
  }

  lemma OwnStepCosts(s: State, t: Sender, a: Action)
    requires Enabled(s, t, a) && !a.Enqueue? && !a.Pop?
    ensures SenderWork(Step(s, t, a, true).pc[t]) + 1 <= SenderWork(s.pc[t]) + if NoProgress(a) then 2 else 0
  {
  }

  /** Every step without a new message takes at least one off the work, except that a send without progress adds
      one. */
  lemma StepCosts(s: State, t: Sender, a: Action)
    requires Stream(s) && Enabled(s, t, a) && !a.Enqueue?
    ensures Work(Step(s, t, a, true)) + 1 <= Work(s) + if NoProgress(a) then 2 else 0
  {
    var s' := Step(s, t, a, true);
    MoveWork(s.pc, t, s'.pc[t]);
    if a.Pop? {
      PopShrinksBuffer(s, t);
    } else {
      OwnStepCosts(s, t, a);
    }
  }

  /** From move m on, no message is enqueued. */
  ghost predicate Settling(acts: seq<Move>, m: nat) {
    forall i :: m <= i < |acts| ==> !acts[i].action.Enqueue?
  }

  /** How many of the moves m..n-1 are sends without progress. */
  ghost function Idles(acts: seq<Move>, m: nat, n: nat): nat
    requires m <= n <= |acts|
    decreases n
  {
    if n == m then 0 else Idles(acts, m, n - 1) + if NoProgress(acts[n - 1].action) then 1 else 0
  }

  /** So the senders cannot go on for ever: every interleaving makes at most as many moves as there was work, and two
      more for every send without progress. */
  lemma {:induction false} SettlingRunsEnd(run: seq<State>, acts: seq<Move>, m: nat, n: nat)
    requires IsRun(run, acts, true) && m <= n < |run| && Settling(acts, m)
    ensures n - m + Work(run[n]) <= Work(run[m]) + 2 * Idles(acts, m, n)
    decreases n
  {
    if n > m {
      SettlingRunsEnd(run, acts, m, n - 1);
      ReachableInv(run, acts, n - 1);
      assert StepAt(run, acts, n - 1, true);
      StepCosts(run[n - 1], acts[n - 1].who, acts[n - 1].action);
    }
  }

  /** No sender in the middle of a send can do anything. */
  ghost predicate Stuck(s: State) {
    forall t, a :: !Enabled(s, t, a) || a.Enqueue?
  }

  /** What a sender in the middle of a send can do next. */
  function NextAction(p: Pc): Action {
    match p
    case Trying(_) => TryLock
    case Reading => ReadSize
    case Sending(_) => Send(0)
    case Popping(_) => Pop
    case _ => Release
  }

  lemma StuckMeansIdle(run: seq<State>, acts: seq<Move>, n: nat)
    requires IsRun(run, acts, true) && n < |run| && Stuck(run[n])
    ensures Quiet(run[n]) && forall t :: t in run[n].pc ==> run[n].pc[t] == Idle
  {
    var s := run[n];
    ReachableInv(run, acts, n);
    RunKeepsShape(run, acts, true, n);
    forall t | t in s.pc ensures s.pc[t] == Idle {
      if s.pc[t] != Idle {
        assert Enabled(s, t, NextAction(s.pc[t]));
      }
    }
  }

  /** Progress: from any reachable state of the awaited protocol on, if no more messages come, any interleaving that
      cannot be continued has made a bounded number of moves, every sender has returned, the lock is free, and the
      buffer is empty unless the last holder met a fault or a message with bytes in it was accepted after the last
      holder's final read. */
  lemma SendersFinish(run: seq<State>, acts: seq<Move>, m: nat)
    requires IsRun(run, acts, true) && m < |run| && Settling(acts, m) && Stuck(run[|run| - 1])
    ensures |acts| - m <= Work(run[m]) + 2 * Idles(acts, m, |acts|)
    ensures var last := run[|run| - 1];
            && Quiet(last) && (forall t :: t in last.pc ==> last.pc[t] == Idle)
            && (last.buf == [] <==>
                  !last.lastExit.Error? && forall j :: LastSeen(last) <= j < |last.log| ==> last.log[j].msg == [])
  {
    SettlingRunsEnd(run, acts, m, |acts|);
    StuckMeansIdle(run, acts, |acts|);
    QuietIsDrainedIff(run, acts, |acts|);
  }
}
