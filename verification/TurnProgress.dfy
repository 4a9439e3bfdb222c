/** The workers of the second C++ server, left alone: with no further messages and no disconnect they finish, and what
    they leave unanswered is delimited. */
module TurnProgress {
  import opened Collections
  import opened RequestTurns

  /** Steps still to come for a worker at this client, apart from four for every waiting request. Queuing a wake-up
      again makes six more. */
  const WAKE: nat := 6

  function WorkerWork(p: Pc): nat {
    match p
    case Away => 0
    case In(Popping) => 2
    case In(Parsing) => 3
    case In(Send) => 4
    case In(Execute) => 5
    case Leaving(code) => if code == NotFinished then WAKE + 2 else 2
    case Returning(code) => if code == NotFinished then WAKE + 1 else 1
  }

  ghost function Works(pc: map<Thread, Pc>): map<Thread, nat> {
    map t | t in pc :: WorkerWork(pc[t])
  }

  ghost function Work(s: State): nat {
    WAKE * s.pending + 4 * |s.client.inbox| + Sum(Works(s.pc))
  }

  lemma MoveWork(pc: map<Thread, Pc>, t: Thread, p: Pc)
    requires t in pc
    ensures Sum(Works(pc[t := p])) + WorkerWork(pc[t]) == Sum(Works(pc)) + WorkerWork(p)
  {
    assert Works(pc[t := p]) == Works(pc)[t := WorkerWork(p)];
    SumUpdate(Works(pc), t, WorkerWork(p));
  }

  ghost predicate WorkerStep(a: Action) {
    !a.Receive? && !a.Reset?
  }

  /** What a step may add to the work: an unfinished turn comes back, and a pop that a disconnect has overtaken may
      leave the new client's bytes cut differently. */
  function ExtraOf(c: Client, stage: Stage, luck: Luck): nat {
    var m := Advance(c, stage, luck);
    if m.Out? then if m.code == NotFinished then 5 else 0
    else if stage == Popping && c.hand.Stale? then 4 + if luck.tear.Some? then 4 * |luck.tear.value| else 0
    else 0
  }

  ghost function Extra(s: State, a: Action): nat
    requires Enabled(s, a)
  {
    if a.Go? then ExtraOf(s.client, s.pc[a.t].stage, a.luck) else 0
  }

  function Worker(a: Action): Thread
    requires !a.Receive? && !a.Reset?
  {
    a.t
  }

  /** A message that is being parsed and has not gone with a disconnect is still at the head of the inbox. */
  ghost predicate HandKept(s: State) {
    forall t :: t in s.pc && s.pc[t] == In(Popping) ==>
      s.client.hand.Stale? || (s.client.hand.Fresh? && s.client.inbox != [])
  }

  lemma SoundKeepsHand(s: State)
    requires Exclusive(s) && AllSound(s)
    ensures HandKept(s)
  {
    forall t | t in s.pc && s.pc[t] == In(Popping)
      ensures s.client.hand.Stale? || (s.client.hand.Fresh? && s.client.inbox != [])
    {
      StageOfHolder(s, t);
    }
  }

  /** What a step does to the worker's own share, the wake-ups and the waiting requests. */
  lemma StageCosts(s: State, a: Action)
    requires HandKept(s) && Enabled(s, a) && WorkerStep(a)
    ensures var s', t := Step(s, a), Worker(a);
            WAKE * s'.pending + 4 * |s'.client.inbox| + WorkerWork(s'.pc[t]) + 1
            <= WAKE * s.pending + 4 * |s.client.inbox| + WorkerWork(s.pc[t]) + Extra(s, a)
  {
    if a.Go? {
      assert s.pc[a.t] == In(s.pc[a.t].stage);
    }
  }

  /** Every step takes at least one off the work, but for what it adds. */
  lemma StepCosts(s: State, a: Action)
    requires HandKept(s) && Enabled(s, a) && WorkerStep(a)
    ensures Work(Step(s, a)) + 1 <= Work(s) + Extra(s, a)
  {
    var s' := Step(s, a);
    var t := Worker(a);
    MoveWork(s.pc, t, s'.pc[t]);
    StageCosts(s, a);
  }

  /** From state m of the run on, the workers are left alone: acts are the moves. */
  ghost predicate Settling(run: seq<State>, m: nat, acts: seq<Action>) {
    && |run| == m + |acts| + 1
    && forall i: nat :: i < |acts| ==> MoveAt(run, m, acts, i)
  }

  ghost predicate MoveAt(run: seq<State>, m: nat, acts: seq<Action>, i: nat) {
    && i < |acts| && m + i + 1 < |run|
    && Enabled(run[m + i], acts[i]) && WorkerStep(acts[i]) && run[m + i + 1] == Step(run[m + i], acts[i])
  }

  /** What the first n moves add to the work. */
  ghost function Added(run: seq<State>, m: nat, acts: seq<Action>, n: nat): nat
    requires Settling(run, m, acts) && n <= |acts|
  {
    if n == 0 then 0
    else
      assert MoveAt(run, m, acts, n - 1);
      Added(run, m, acts, n - 1) + Extra(run[m + n - 1], acts[n - 1])
  }

  /** So every interleaving makes at most as many moves as there was work and as was added: five for every unfinished
      turn, and for a message overtaken by a disconnect four and four for every message the rest is cut into. */
  lemma {:induction false} SettlingRunsEnd(run: seq<State>, m: nat, acts: seq<Action>, n: nat)
    requires IsRun(run) && Settling(run, m, acts) && n <= |acts|
    ensures n + Work(run[m + n]) <= Work(run[m]) + Added(run, m, acts, n)
  {
    if n > 0 {
      SettlingRunsEnd(run, m, acts, n - 1);
      ReachableKeepsHand(run, m + n - 1);
      assert MoveAt(run, m, acts, n - 1);
      StepCosts(run[m + n - 1], acts[n - 1]);
    }
  }

  lemma ReachableKeepsHand(run: seq<State>, n: nat)
    requires IsRun(run) && n < |run|
    ensures HandKept(run[n])
  {
    TurnsInvariant(run, n);
    SoundKeepsHand(run[n]);
  }

  lemma StepKeepsClient(s: State, a: Action)
    requires Enabled(s, a) && WorkerStep(a)
    ensures var s' := Step(s, a);
            && s'.pc.Keys == s.pc.Keys && s'.client.inherited == s.client.inherited
            && (s.client.hand.Stale? || (s'.client.received == s.client.received && !s'.client.hand.Stale?))
  {
  }

  lemma {:induction false} SettlingKeepsClient(run: seq<State>, m: nat, acts: seq<Action>, n: nat)
    requires Settling(run, m, acts) && n <= |acts|
    ensures run[m + n].pc.Keys == run[m].pc.Keys && run[m + n].client.inherited == run[m].client.inherited
    ensures run[m].client.hand.Stale?
            || (run[m + n].client.received == run[m].client.received && !run[m + n].client.hand.Stale?)
  {
    if n > 0 {
      SettlingKeepsClient(run, m, acts, n - 1);
      assert MoveAt(run, m, acts, n - 1);
      StepKeepsClient(run[m + n - 1], acts[n - 1]);
    }
  }

  ghost predicate Stuck(s: State) {
    forall a :: WorkerStep(a) ==> !Enabled(s, a)
  }

  lemma StuckMeansQuiet(s: State)
    requires Stuck(s) && s.pc != map[]
    ensures Quiet(s)
  {
    forall t | t in s.pc ensures s.pc[t] == Away {
      assert !Enabled(s, Go(t, GOOD)) && !Enabled(s, Unlock(t)) && !Enabled(s, Return(t));
    }
    var t :| t in s.pc;
    assert !Enabled(s, Enter(t));
  }

  /** What waits is a tail of what was received: it starts with a request that got no job, or it arrived after the last
      look and a worker was turned away. What comes before it has been answered in order. */
  ghost predicate Delimited(s: State) {
    var c := s.client;
    && c.slot.None? && c.hand.Nothing?
    && |c.inbox| <= |c.received| && c.inbox == c.received[|c.received| - |c.inbox|..]
    && (c.doubled == 0 ==> c.replies == c.inherited + c.received[..|c.received| - |c.inbox|])
    && (c.inbox == [] || s.ended == NoJob(c.inbox[0])
        || (s.ended == Empty(|c.received| - |c.inbox|) && s.turned > 0))
  }

  lemma QuietIsDelimited(s: State)
    requires Inv(s) && Quiet(s)
    ensures Delimited(s)
  {
    QuietMeans(s);
    assert NoneIn(s);
    if s.client.doubled == 0 {
      Answered(s.client);
    }
  }

  /** Progress: from any reachable point on, if nothing more arrives and the client stays, any interleaving of one or
      more workers that cannot be continued has made a bounded number of moves and left no turn unfinished. It has
      answered, in order, everything there was up to the first request that got no job, or up to the messages that
      arrived after the last look at the inbox; and there are such messages only if a worker was turned away. */
  lemma WorkersFinish(run: seq<State>, m: nat, acts: seq<Action>)
    requires IsRun(run) && Settling(run, m, acts) && run[m].pc != map[] && Stuck(run[|run| - 1])
    ensures |acts| <= Work(run[m]) + Added(run, m, acts, |acts|)
    ensures var last := run[|run| - 1];
            && Quiet(last) && Delimited(last)
            && (run[m].client.hand.Stale? || last.client.received == run[m].client.received)
  {
    SettlingRunsEnd(run, m, acts, |acts|);
    SettlingKeepsClient(run, m, acts, |acts|);
    TurnsInvariant(run, |run| - 1);
    var last := run[|run| - 1];
    assert last.pc.Keys != {};
    StuckMeansQuiet(last);
    QuietIsDelimited(last);
  }

  lemma Answered(c: Client)
    requires Sound(c, Parsing) && c.doubled == 0
    ensures c.replies == c.inherited + c.received[..|c.received| - |c.inbox|]
  {
    var parsed := |c.received| - |c.inbox|;
    SplitAt(c.received, parsed);
    Reassociate(c.inherited, c.received[..parsed], c.inbox);
    assert c.replies + [] == c.replies;
    CancelRight(c.replies, c.inherited + c.received[..parsed], c.inbox);
  }
}
