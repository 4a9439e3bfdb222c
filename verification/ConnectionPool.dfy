/** CSSocketServer's connection indices and its shutdown, under every interleaving of the accept loop, the
    receive tasks, their continuations and Close. */
module ConnectionPools {
  import opened Collections

  const MAX_CLIENTS: nat := 1024

  /** Contexts are numbered in the order they are created. */
  type ContextId = nat

  /** The shared collections, each of whose operations is atomic. */
  datatype Tables = Tables(free: seq<int>, clients: map<int, ContextId>, tasks: map<int, ContextId>) {
    function Take(): (Option<int>, Tables) {
      if free == [] then (None, this) else (Some(free[0]), this.(free := free[1..]))
    }

    function AddClient(i: int, c: ContextId): (bool, Tables) {
      if i in clients then (false, this) else (true, this.(clients := clients[i := c]))
    }

    function AddTask(i: int, c: ContextId): (bool, Tables) {
      if i in tasks then (false, this) else (true, this.(tasks := tasks[i := c]))
    }

    function Lookup(i: int): Option<ContextId> {
      if i in clients then Some(clients[i]) else None
    }

    function RemoveTask(i: int): Tables {
      this.(tasks := tasks - {i})
    }

    function RemoveClient(i: int): Tables {
      this.(clients := clients - {i})
    }

    function GiveBack(i: int): Tables {
      this.(free := free + [i])
    }
  }

  /** The server's fields and the operations its tasks perform on them. */
  class Registry {
    var free: seq<int>
    var clients: map<int, ContextId>
    var tasks: map<int, ContextId>

    function Value(): Tables
      reads this
    {
      Tables(free, clients, tasks)
    }

    constructor ()
      ensures Value() == Tables([], map[], map[])
    {
      free, clients, tasks := [], map[], map[];
    }

    method CreateIndexPool()
      modifies this`free
      ensures Value() == old(Value()).(free := UpTo(MAX_CLIENTS))
    {
      free := [];
      for i := 0 to MAX_CLIENTS
        invariant free == UpTo(i)
      {
        free := free + [i];
      }
    }

    method TryDequeue() returns (index: Option<int>)
      modifies this`free
      ensures (index, Value()) == old(Value()).Take()
      ensures if old(free) == [] then index == None && free == []
              else index == Some(old(free)[0]) && free == old(free)[1..]
    {
      if free == [] {
        return None;
      }
      index := Some(free[0]);
      free := free[1..];
    }

    /** The two TryAdds of AcceptLoop, when nothing comes between them. */
    method Publish(i: int, c: ContextId)
      modifies this`clients, this`tasks
      ensures Value() == old(Value()).AddClient(i, c).1.AddTask(i, c).1
      ensures clients == if i in old(clients) then old(clients) else old(clients)[i := c]
      ensures tasks == if i in old(tasks) then old(tasks) else old(tasks)[i := c]
    {
      if i !in clients {
        clients := clients[i := c];
      }
      if i !in tasks {
        tasks := tasks[i := c];
      }
    }

    /** The continuation of a receive task, when nothing comes between its steps. */
    method Continuation(i: int)
      modifies this
      ensures Value() == old(Value()).RemoveTask(i).RemoveClient(i).GiveBack(i)
      ensures tasks == old(tasks) - {i} && clients == old(clients) - {i} && free == old(free) + [i]
    {
      tasks := tasks - {i};
      clients := clients - {i};
      free := free + [i];
    }

    /** The lookup of SendMsg. */
    method TryGetClient(i: int) returns (c: Option<ContextId>)
      ensures c == Value().Lookup(i)
      ensures c == if i in clients then Some(clients[i]) else None
    {
      c := if i in clients then Some(clients[i]) else None;
    }
  }

  /** How far a context has come: created, in the client table, in the task table too, continuation attached,
      then removed from the tasks, from the clients, and its index returned. */
  datatype Phase = Created | InClients | InBoth | Watched | Untracked | Delisted | Returned

  /** Its receive task: in the loop, OnDisconnect done, Release done. */
  datatype Life = Receiving | Disconnected | Completed

  datatype Context = Context(index: int, phase: Phase, life: Life)

  datatype AcceptPc = AtLoop | Holding(index: int) | Adding(c: ContextId) | Ended

  datatype ClosePc = Open | Closing | Waiting(tasks: set<ContextId>) | Closed

  /** lost, failures, taken and returned are history: the indices dequeued for an accept that failed, how many there
      were, and all indices dequeued and given back so far. */
  datatype State = State(tables: Tables, isRun: bool, accept: AcceptPc, contexts: seq<Context>, close: ClosePc,
                         lost: set<int>, failures: nat, taken: seq<int>, returned: seq<int>)

  datatype Action =
    | TakeIndex
    | SeeStopped
    | AcceptOk
    | AcceptFault                   // SocketException: the loop goes on
    | AcceptDisposed                // ObjectDisposedException: the loop returns
    | AddClient
    | AddTask
    | Watch
    | Disconnect(c: ContextId)
    | Finish(c: ContextId)
    | Untrack(c: ContextId)
    | Delist(c: ContextId)
    | GiveBack(c: ContextId)
    | CloseBegin
    | CloseSnapshot
    | CloseReturn

  ghost predicate Init(s: State) {
    s == State(Tables(UpTo(MAX_CLIENTS), map[], map[]), true, AtLoop, [], Open, {}, 0, [], [])
  }

  ghost predicate AddingAt(s: State, p: Phase) {
    s.accept.Adding? && s.accept.c < |s.contexts| && s.contexts[s.accept.c].phase == p
  }

  ghost predicate ContextAt(s: State, c: ContextId, p: Phase) {
    c < |s.contexts| && s.contexts[c].phase == p
  }

  ghost predicate Done(s: State, c: ContextId) {
    c < |s.contexts| && s.contexts[c].life == Completed
  }

  ghost predicate Enabled(s: State, a: Action) {
    match a
    case TakeIndex => s.accept == AtLoop && s.isRun
    case SeeStopped => s.accept == AtLoop && !s.isRun
    case AcceptOk => s.accept.Holding?
    case AcceptFault => s.accept.Holding?
    case AcceptDisposed => s.accept.Holding? && s.close != Open
    case AddClient => AddingAt(s, Created)
    case AddTask => AddingAt(s, InClients)
    case Watch => AddingAt(s, InBoth)
    case Disconnect(c) => c < |s.contexts| && s.contexts[c].life == Receiving
    case Finish(c) => c < |s.contexts| && s.contexts[c].life == Disconnected
    case Untrack(c) => ContextAt(s, c, Watched) && Done(s, c)
    case Delist(c) => ContextAt(s, c, Untracked)
    case GiveBack(c) => ContextAt(s, c, Delisted)
    case CloseBegin => s.close == Open
    case CloseSnapshot => s.close == Closing && s.accept == Ended
    case CloseReturn => s.close.Waiting? && forall c :: c in s.close.tasks ==> Done(s, c)
  }

  ghost function InPhase(s: State, c: ContextId, p: Phase): State
    requires c < |s.contexts|
  {
    s.(contexts := s.contexts[c := s.contexts[c].(phase := p)])
  }

  ghost function InLife(s: State, c: ContextId, l: Life): State
    requires c < |s.contexts|
  {
    s.(contexts := s.contexts[c := s.contexts[c].(life := l)])
  }

  /** A failed accept: the dequeued index goes nowhere. */
  ghost function LoseIndex(s: State, next: AcceptPc): State
    requires s.accept.Holding?
  {
    s.(accept := next, lost := s.lost + {s.accept.index}, failures := s.failures + 1)
  }

  ghost function Step(s: State, a: Action): State
    requires Enabled(s, a)
  {
    match a
    case TakeIndex =>
      var (i, t) := s.tables.Take();
      if i.None? then s else s.(tables := t, accept := Holding(i.value), taken := s.taken + [i.value])
    case SeeStopped => s.(accept := Ended)
    case AcceptOk =>
      s.(contexts := s.contexts + [Context(s.accept.index, Created, Receiving)], accept := Adding(|s.contexts|))
    case AcceptFault => LoseIndex(s, AtLoop)
    case AcceptDisposed => LoseIndex(s, Ended)
    case AddClient =>
      var c := s.accept.c;
      InPhase(s.(tables := s.tables.AddClient(s.contexts[c].index, c).1), c, InClients)
    case AddTask =>
      var c := s.accept.c;
      InPhase(s.(tables := s.tables.AddTask(s.contexts[c].index, c).1), c, InBoth)
    case Watch => InPhase(s.(accept := AtLoop), s.accept.c, Watched)
    case Disconnect(c) => InLife(s, c, Disconnected)
    case Finish(c) => InLife(s, c, Completed)
    case Untrack(c) => InPhase(s.(tables := s.tables.RemoveTask(s.contexts[c].index)), c, Untracked)
    case Delist(c) => InPhase(s.(tables := s.tables.RemoveClient(s.contexts[c].index)), c, Delisted)
    case GiveBack(c) =>
      var i := s.contexts[c].index;
      InPhase(s.(tables := s.tables.GiveBack(i), returned := s.returned + [i]), c, Returned)
    case CloseBegin => s.(isRun := false, close := Closing)
    case CloseSnapshot => s.(close := Waiting(s.tables.tasks.Values))
    case CloseReturn => s.(close := Closed)
  }

  ghost predicate StepAt(run: seq<State>, i: nat) {
    i + 1 < |run| && exists a :: Enabled(run[i], a) && run[i + 1] == Step(run[i], a)
  }

  ghost predicate IsRun(run: seq<State>) {
    && run != [] && Init(run[0])
    && forall i: nat :: i < |run| - 1 ==> StepAt(run, i)
  }

  /** The context still owns its index. */
  ghost predicate Live(s: State, c: ContextId) {
    c < |s.contexts| && s.contexts[c].phase != Returned
  }

  ghost predicate InHand(s: State, i: int) {
    s.accept == Holding(i)
  }

  /** Every index is in exactly one place: the free queue (once), the accept loop's hand, one live context,
      or lost to a failed accept. */
  ghost predicate Partitioned(s: State) {
    && (forall j, k :: 0 <= j < k < |s.tables.free| ==> s.tables.free[j] != s.tables.free[k])
    && (forall i :: InHand(s, i) ==> i !in s.tables.free && i !in s.lost)
    && (forall i :: i in s.lost ==> i !in s.tables.free)
    && (forall c: nat :: Live(s, c) ==>
          var i := s.contexts[c].index; i !in s.tables.free && i !in s.lost && !InHand(s, i))
    && (forall c: nat, d: nat :: Live(s, c) && d < |s.contexts| && s.contexts[c].index == s.contexts[d].index ==>
          d <= c)
  }

  ghost predicate Somewhere(s: State, i: int) {
    i in s.tables.free || InHand(s, i) || i in s.lost || exists c: nat :: Live(s, c) && s.contexts[c].index == i
  }

  ghost predicate Covered(s: State) {
    forall i :: 0 <= i < MAX_CLIENTS <==> Somewhere(s, i)
  }

  ghost predicate Listed(p: Phase) {
    p.InClients? || p.InBoth? || p.Watched? || p.Untracked?
  }

  ghost predicate Tracked(p: Phase) {
    p.InBoth? || p.Watched?
  }

  /** The client table holds exactly the contexts whose phase says so. */
  ghost predicate ClientsMatch(s: State) {
    && (forall i :: i in s.tables.clients ==>
          var c := s.tables.clients[i]; c < |s.contexts| && s.contexts[c].index == i && Listed(s.contexts[c].phase))
    && (forall c: nat :: c < |s.contexts| && Listed(s.contexts[c].phase) ==>
          s.contexts[c].index in s.tables.clients && s.tables.clients[s.contexts[c].index] == c)
  }

  /** So does the task table. */
  ghost predicate TasksMatch(s: State) {
    && (forall i :: i in s.tables.tasks ==>
          var c := s.tables.tasks[i]; c < |s.contexts| && s.contexts[c].index == i && Tracked(s.contexts[c].phase))
    && (forall c: nat :: c < |s.contexts| && Tracked(s.contexts[c].phase) ==>
          s.contexts[c].index in s.tables.tasks && s.tables.tasks[s.contexts[c].index] == c)
  }

  ghost predicate BeingAdded(p: Phase) {
    p.Created? || p.InClients? || p.InBoth?
  }

  ghost predicate BeingRemoved(p: Phase) {
    p.Untracked? || p.Delisted? || p.Returned?
  }

  /** Only the context in the accept loop's hands is still being added, and removal follows completion. */
  ghost predicate Ordered(s: State) {
    && (forall c: nat :: c < |s.contexts| && BeingAdded(s.contexts[c].phase) ==> s.accept == Adding(c))
    && (s.accept.Adding? ==> s.accept.c < |s.contexts| && BeingAdded(s.contexts[s.accept.c].phase))
    && (forall c: nat :: c < |s.contexts| && BeingRemoved(s.contexts[c].phase) ==> Done(s, c))
  }

  /** Close waits for everything that can still be running. */
  ghost predicate ClosedInOrder(s: State) {
    && (s.isRun <==> s.close == Open)
    && (s.close.Waiting? || s.close.Closed? ==> s.accept == Ended)
    && (s.close.Waiting? ==> forall c: nat :: c < |s.contexts| && !Done(s, c) ==> c in s.close.tasks)
    && (s.close.Closed? ==> forall c: nat :: c < |s.contexts| ==> Done(s, c))
  }

  ghost predicate Inv(s: State) {
    && Partitioned(s) && Covered(s) && |s.lost| == s.failures
    && ClientsMatch(s) && TasksMatch(s) && Ordered(s) && ClosedInOrder(s)
  }

  /** No index moves. */
  ghost predicate SamePlaces(s: State, s': State) {
    && s'.tables.free == s.tables.free && s'.lost == s.lost
    && (forall i :: InHand(s', i) <==> InHand(s, i))
    && |s'.contexts| == |s.contexts|
    && (forall c: nat :: c < |s.contexts| ==> s'.contexts[c].index == s.contexts[c].index)
    && (forall c: nat :: Live(s', c) <==> Live(s, c))
  }

  lemma SamePlacesKeep(s: State, s': State)
    requires Partitioned(s) && Covered(s) && SamePlaces(s, s')
    ensures Partitioned(s') && Covered(s')
  {
    forall i ensures Somewhere(s', i) <==> Somewhere(s, i) {
      assert forall c: nat :: (Live(s, c) && s.contexts[c].index == i) <==> (Live(s', c) && s'.contexts[c].index == i);
    }
  }

  lemma TakeKeepsPlaces(s: State)
    requires Inv(s) && Enabled(s, TakeIndex)
    ensures Partitioned(Step(s, TakeIndex)) && Covered(Step(s, TakeIndex))
  {
    var s' := Step(s, TakeIndex);
    if s.tables.free != [] {
      assert s.tables.free[0] in s.tables.free;
      assert forall c: nat :: Live(s', c) <==> Live(s, c);
      forall i ensures Somewhere(s', i) <==> Somewhere(s, i) {
        assert i in s.tables.free <==> i == s.tables.free[0] || i in s'.tables.free;
        assert forall c: nat :: Live(s, c) && s.contexts[c].index == i <==> Live(s', c) && s'.contexts[c].index == i;
      }
    }
  }

  lemma AcceptKeepsPlaces(s: State)
    requires Inv(s) && Enabled(s, AcceptOk)
    ensures Partitioned(Step(s, AcceptOk)) && Covered(Step(s, AcceptOk))
  {
    var s' := Step(s, AcceptOk);
    assert InHand(s, s.accept.index);
    assert Live(s', |s.contexts|);
    assert forall c: nat :: Live(s, c) ==> Live(s', c) && s'.contexts[c] == s.contexts[c];
    forall i ensures Somewhere(s', i) <==> Somewhere(s, i) {
      if c: nat :| Live(s', c) && s'.contexts[c].index == i {
        assert c < |s.contexts| ==> Live(s, c);
      }
    }
  }

  lemma LoseKeepsPlaces(s: State, next: AcceptPc)
    requires Inv(s) && s.accept.Holding? && !next.Holding?
    ensures var s' := LoseIndex(s, next); Partitioned(s') && Covered(s') && |s'.lost| == s'.failures
  {
    var s' := LoseIndex(s, next);
    assert InHand(s, s.accept.index);
    assert forall c: nat :: Live(s', c) <==> Live(s, c);
    forall i ensures Somewhere(s', i) <==> Somewhere(s, i) {
      assert forall c: nat :: Live(s, c) && s.contexts[c].index == i <==> Live(s', c) && s'.contexts[c].index == i;
    }
  }

  lemma GiveBackKeepsPlaces(s: State, c: ContextId)
    requires Inv(s) && Enabled(s, GiveBack(c))
    ensures Partitioned(Step(s, GiveBack(c))) && Covered(Step(s, GiveBack(c)))
  {
    var s' := Step(s, GiveBack(c));
    var mine := s.contexts[c].index;
    assert Live(s, c);
    assert forall d: nat :: Live(s', d) <==> Live(s, d) && d != c;
    forall i ensures Somewhere(s', i) <==> Somewhere(s, i) {
      assert i in s'.tables.free <==> i == mine || i in s.tables.free;
      if d: nat :| Live(s, d) && s.contexts[d].index == i {
        assert d != c ==> Live(s', d) && s'.contexts[d].index == i;
      }
      if d: nat :| Live(s', d) && s'.contexts[d].index == i {
        assert Live(s, d) && s.contexts[d].index == i;
      }
    }
  }

  ghost predicate Moves(a: Action) {
    a.TakeIndex? || a.AcceptOk? || a.AcceptFault? || a.AcceptDisposed? || a.GiveBack?
  }

  lemma StepStaysInPlace(s: State, a: Action)
    requires Enabled(s, a) && !Moves(a)
    ensures SamePlaces(s, Step(s, a)) && Step(s, a).failures == s.failures
  {
  }

  lemma StepKeepsPlaces(s: State, a: Action)
    requires Inv(s) && Enabled(s, a)
    ensures Partitioned(Step(s, a)) && Covered(Step(s, a)) && |Step(s, a).lost| == Step(s, a).failures
  {
    match a
    case TakeIndex => TakeKeepsPlaces(s);
    case AcceptOk => AcceptKeepsPlaces(s);
    case AcceptFault => LoseKeepsPlaces(s, AtLoop);
    case AcceptDisposed => LoseKeepsPlaces(s, Ended);
    case GiveBack(c) => GiveBackKeepsPlaces(s, c);
    case _ =>
      StepStaysInPlace(s, a);
      SamePlacesKeep(s, Step(s, a));
  }

  /** Every action changes the phase of at most one context, or appends one. */
  ghost predicate OnlyChanges(s: State, s': State, c: ContextId) {
    && |s.contexts| <= |s'.contexts|
    && (forall d: nat :: d < |s.contexts| ==> s'.contexts[d].index == s.contexts[d].index)
    && (forall d: nat :: d < |s.contexts| && d != c ==> s'.contexts[d].phase == s.contexts[d].phase)
    && (forall d: nat :: |s.contexts| <= d < |s'.contexts| ==> s'.contexts[d].phase.Created?)
  }

  ghost function Subject(s: State, a: Action): ContextId
    requires Enabled(s, a)
  {
    match a
    case AddClient => s.accept.c
    case AddTask => s.accept.c
    case Watch => s.accept.c
    case Untrack(c) => c
    case Delist(c) => c
    case GiveBack(c) => c
    case _ => 0
  }

  lemma StepChangesOne(s: State, a: Action)
    requires Enabled(s, a)
    ensures OnlyChanges(s, Step(s, a), Subject(s, a))
  {
  }

  lemma AddClientKeepsClients(s: State)
    requires Partitioned(s) && ClientsMatch(s) && Enabled(s, AddClient)
    ensures ClientsMatch(Step(s, AddClient))
    ensures s.tables.AddClient(s.contexts[s.accept.c].index, s.accept.c).0
  {
    assert forall d: nat :: d < |s.contexts| && Listed(s.contexts[d].phase) ==> Live(s, d);
  }

  lemma DelistKeepsClients(s: State, c: ContextId)
    requires Partitioned(s) && ClientsMatch(s) && Enabled(s, Delist(c))
    ensures ClientsMatch(Step(s, Delist(c)))
  {
    assert forall d: nat :: d < |s.contexts| && Listed(s.contexts[d].phase) ==> Live(s, d);
  }

  lemma OthersLeaveClients(s: State, a: Action)
    requires Enabled(s, a) && !a.AddClient? && !a.Delist?
    ensures Step(s, a).tables.clients == s.tables.clients
    ensures forall d: nat :: d < |s.contexts| ==>
              (Listed(Step(s, a).contexts[d].phase) <==> Listed(s.contexts[d].phase))
  {
  }

  lemma StepKeepsClients(s: State, a: Action)
    requires Partitioned(s) && ClientsMatch(s) && Enabled(s, a)
    ensures ClientsMatch(Step(s, a))
  {
    match a
    case AddClient => AddClientKeepsClients(s);
    case Delist(c) => DelistKeepsClients(s, c);
    case _ =>
      StepChangesOne(s, a);
      OthersLeaveClients(s, a);
  }

  lemma AddTaskKeepsTasks(s: State)
    requires Partitioned(s) && TasksMatch(s) && Enabled(s, AddTask)
    ensures TasksMatch(Step(s, AddTask))
    ensures s.tables.AddTask(s.contexts[s.accept.c].index, s.accept.c).0
  {
    assert forall d: nat :: d < |s.contexts| && Tracked(s.contexts[d].phase) ==> Live(s, d);
  }

  lemma UntrackKeepsTasks(s: State, c: ContextId)
    requires Partitioned(s) && TasksMatch(s) && Enabled(s, Untrack(c))
    ensures TasksMatch(Step(s, Untrack(c)))
  {
    assert forall d: nat :: d < |s.contexts| && Tracked(s.contexts[d].phase) ==> Live(s, d);
  }

  lemma OthersLeaveTasks(s: State, a: Action)
    requires Enabled(s, a) && !a.AddTask? && !a.Untrack?
    ensures Step(s, a).tables.tasks == s.tables.tasks
    ensures forall d: nat :: d < |s.contexts| ==>
              (Tracked(Step(s, a).contexts[d].phase) <==> Tracked(s.contexts[d].phase))
  {
  }

  lemma StepKeepsTasks(s: State, a: Action)
    requires Partitioned(s) && TasksMatch(s) && Enabled(s, a)
    ensures TasksMatch(Step(s, a))
  {
    match a
    case AddTask => AddTaskKeepsTasks(s);
    case Untrack(c) => UntrackKeepsTasks(s, c);
    case _ =>
      StepChangesOne(s, a);
      OthersLeaveTasks(s, a);
  }

  lemma StepKeepsOrdered(s: State, a: Action)
    requires Ordered(s) && Enabled(s, a)
    ensures Ordered(Step(s, a))
  {
    var s' := Step(s, a);
    StepKeepsDone(s, a);
    if s.accept.Adding? {
      assert forall c: nat :: c < |s.contexts| && BeingAdded(s.contexts[c].phase) ==> c == s.accept.c;
    }
  }

  /** Completed tasks stay completed. */
  lemma StepKeepsDone(s: State, a: Action)
    requires Enabled(s, a)
    ensures forall c: nat :: Done(s, c) ==> Done(Step(s, a), c)
  {
  }

  /** When the accept loop has ended, whatever has not completed is in the task table. */
  lemma UnfinishedAreTracked(s: State)
    requires Ordered(s) && TasksMatch(s) && s.accept == Ended
    ensures forall c: nat :: c < |s.contexts| && !Done(s, c) ==> c in s.tables.tasks.Values
  {
    forall c: nat | c < |s.contexts| && !Done(s, c) ensures c in s.tables.tasks.Values {
      assert !BeingAdded(s.contexts[c].phase) && !BeingRemoved(s.contexts[c].phase);
      assert s.tables.tasks[s.contexts[c].index] == c;
    }
  }

  lemma StepKeepsClose(s: State, a: Action)
    requires Ordered(s) && TasksMatch(s) && ClosedInOrder(s) && Enabled(s, a)
    ensures ClosedInOrder(Step(s, a))
  {
    StepKeepsDone(s, a);
    if a.CloseReturn? {
      assert forall c: nat :: c < |s.contexts| ==> Done(s, c);
    }
    if a.CloseSnapshot? {
      UnfinishedAreTracked(s);
    }
  }

  lemma {:induction false} PoolInvariant(run: seq<State>, i: nat)
    requires IsRun(run) && i < |run|
    ensures Inv(run[i])
  {
    if i == 0 {
      forall k ensures 0 <= k < MAX_CLIENTS <==> Somewhere(run[0], k) {
        assert 0 <= k < MAX_CLIENTS ==> run[0].tables.free[k] == k;
      }
    } else {
      PoolInvariant(run, i - 1);
      var s := run[i - 1];
      assert StepAt(run, i - 1);
      var a :| Enabled(s, a) && run[i] == Step(s, a);
      StepKeepsPlaces(s, a);
      StepKeepsClients(s, a);
      StepKeepsTasks(s, a);
      StepKeepsOrdered(s, a);
      StepKeepsClose(s, a);
    }
  }

  /** Index safety: an index is never in two places at once. */
  lemma IndexInOnePlace(run: seq<State>, n: nat, i: int)
    requires IsRun(run) && n < |run|
    ensures var s := run[n];
            && (i in s.tables.free ==> !InHand(s, i) && forall c: nat :: Live(s, c) ==> s.contexts[c].index != i)
            && (InHand(s, i) ==> forall c: nat :: Live(s, c) ==> s.contexts[c].index != i)
            && (forall c: nat, d: nat ::
                  Live(s, c) && Live(s, d) && s.contexts[c].index == s.contexts[d].index == i ==>
                  c == d)
  {
    PoolInvariant(run, n);
  }

  /** Both TryAdds of the accept loop always succeed. */
  lemma TryAddsSucceed(run: seq<State>, n: nat)
    requires IsRun(run) && n < |run| && run[n].accept.Adding?
    ensures var s, c := run[n], run[n].accept.c;
            && c < |s.contexts|
            && (Enabled(s, AddClient) ==> s.tables.AddClient(s.contexts[c].index, c).0)
            && (Enabled(s, AddTask) ==> s.tables.AddTask(s.contexts[c].index, c).0)
  {
    PoolInvariant(run, n);
    if Enabled(run[n], AddClient) {
      AddClientKeepsClients(run[n]);
    }
    if Enabled(run[n], AddTask) {
      AddTaskKeepsTasks(run[n]);
    }
  }

  /** A lookup by index finds the newest context ever created for that index, and finds one exactly while a context
      of that index is listed. */
  lemma LookupFindsNewest(run: seq<State>, n: nat, i: int)
    requires IsRun(run) && n < |run|
    ensures var s, found := run[n], run[n].tables.Lookup(i);
            && (found.Some? <==>
                  exists c: nat :: c < |s.contexts| && s.contexts[c].index == i && Listed(s.contexts[c].phase))
            && (found.Some? ==>
                  && found.value < |s.contexts| && s.contexts[found.value].index == i
                  && forall d: nat :: found.value < d < |s.contexts| ==> s.contexts[d].index != i)
  {
    PoolInvariant(run, n);
    var found := run[n].tables.Lookup(i);
    assert found.Some? ==> Live(run[n], found.value);
  }

  function LiveIndices(s: State): set<int> {
    set c | 0 <= c < |s.contexts| && s.contexts[c].phase != Returned :: s.contexts[c].index
  }

  function HandIndices(s: State): set<int> {
    if s.accept.Holding? then {s.accept.index} else {}
  }

  function FreeIndices(s: State): set<int> {
    set i | i in s.tables.free
  }

  lemma LiveIndicesAre(s: State)
    ensures forall i :: i in LiveIndices(s) <==> exists c: nat :: Live(s, c) && s.contexts[c].index == i
    ensures forall i :: i in HandIndices(s) <==> InHand(s, i)
  {
    forall i ensures i in LiveIndices(s) <==> exists c: nat :: Live(s, c) && s.contexts[c].index == i {
      if c: nat :| Live(s, c) && s.contexts[c].index == i {
        assert s.contexts[c].index in LiveIndices(s);
      }
      if i in LiveIndices(s) {
        var c :| 0 <= c < |s.contexts| && s.contexts[c].phase != Returned && s.contexts[c].index == i;
        assert Live(s, c);
      }
    }
  }

  lemma PlacesAreDisjoint(s: State)
    requires Partitioned(s)
    ensures FreeIndices(s) !! HandIndices(s) !! s.lost !! LiveIndices(s)
  {
    LiveIndicesAre(s);
    forall i | i in LiveIndices(s) ensures i !in FreeIndices(s) && i !in s.lost && i !in HandIndices(s) {
      var c: nat :| Live(s, c) && s.contexts[c].index == i;
    }
    forall i | i in s.lost ensures i !in FreeIndices(s) && i !in HandIndices(s) {
      assert i !in s.tables.free && !InHand(s, i);
    }
    assert forall i :: i in HandIndices(s) ==> InHand(s, i);
    assert FreeIndices(s) !! HandIndices(s);
    assert (FreeIndices(s) + HandIndices(s)) !! s.lost;
    assert (FreeIndices(s) + HandIndices(s) + s.lost) !! LiveIndices(s);
  }

  lemma PlacesCover(s: State)
    requires Covered(s)
    ensures (set i | i in UpTo(MAX_CLIENTS)) == FreeIndices(s) + HandIndices(s) + s.lost + LiveIndices(s)
  {
    LiveIndicesAre(s);
    forall i ensures i in UpTo(MAX_CLIENTS) <==> i in FreeIndices(s) + HandIndices(s) + s.lost + LiveIndices(s) {
      assert 0 <= i < MAX_CLIENTS <==> Somewhere(s, i);
      assert 0 <= i < MAX_CLIENTS ==> UpTo(MAX_CLIENTS)[i] == i;
    }
  }

  /** Index conservation: queued, in hand and live indices always number 1024 less the failed accepts, whose
      indices are never returned. */
  lemma IndexConservation(run: seq<State>, n: nat)
    requires IsRun(run) && n < |run|
    ensures var s := run[n];
            |s.tables.free| + |HandIndices(s)| + |LiveIndices(s)| == MAX_CLIENTS - s.failures
  {
    PoolInvariant(run, n);
    PlacesAreDisjoint(run[n]);
    PlacesCover(run[n]);
    DistinctSize(run[n].tables.free);
    DistinctSize(UpTo(MAX_CLIENTS));
  }

  lemma OthersLeaveQueue(s: State, a: Action)
    requires Enabled(s, a) && !a.TakeIndex? && !a.GiveBack?
    ensures var s' := Step(s, a);
            (s'.tables.free, s'.taken, s'.returned) == (s.tables.free, s.taken, s.returned)
  {
  }

  lemma StepKeepsQueue(s: State, a: Action, first: seq<int>)
    requires Enabled(s, a) && s.taken + s.tables.free == first + s.returned
    ensures Step(s, a).taken + Step(s, a).tables.free == first + Step(s, a).returned
  {
    match a
    case TakeIndex =>
      if s.tables.free != [] {
        Reassociate(s.taken, [s.tables.free[0]], s.tables.free[1..]);
        assert [s.tables.free[0]] + s.tables.free[1..] == s.tables.free;
      }
    case GiveBack(c) =>
      Reassociate(s.taken, s.tables.free, [s.contexts[c].index]);
      Reassociate(first, s.returned, [s.contexts[c].index]);
    case _ => OthersLeaveQueue(s, a);
  }

  /** Indices are handed out first in, first out: the initial ones in order, then the returned ones in the order they
      came back. */
  lemma {:induction false} IndicesInOrder(run: seq<State>, n: nat)
    requires IsRun(run) && n < |run|
    ensures run[n].taken + run[n].tables.free == UpTo(MAX_CLIENTS) + run[n].returned
  {
    if n == 0 {
      assert [] + UpTo(MAX_CLIENTS) == UpTo(MAX_CLIENTS) == UpTo(MAX_CLIENTS) + [];
    } else {
      IndicesInOrder(run, n - 1);
      var s := run[n - 1];
      assert StepAt(run, n - 1);
      var a :| Enabled(s, a) && run[n] == Step(s, a);
      StepKeepsQueue(s, a, UpTo(MAX_CLIENTS));
    }
  }

  /** The running accept loop takes the front index exactly while fewer than 1024 indices are live or lost; otherwise it
      waits and changes nothing. */
  lemma TakesIndexIff(run: seq<State>, n: nat)
    requires IsRun(run) && n < |run| && run[n].accept == AtLoop && run[n].isRun
    ensures Enabled(run[n], TakeIndex)
    ensures var s, s' := run[n], Step(run[n], TakeIndex);
            && (s.tables.free != [] <==> |LiveIndices(s)| + s.failures < MAX_CLIENTS)
            && (s.tables.free == [] ==> s' == s)
            && (s.tables.free != [] ==> s'.accept == Holding(s.tables.free[0]) && s'.tables.free == s.tables.free[1..])
  {
    IndexConservation(run, n);
  }

  lemma Extend(run: seq<State>, last: State, a: Action) returns (longer: seq<State>, next: State)
    requires IsRun(run) && run[|run| - 1] == last && Enabled(last, a)
    ensures next == Step(last, a) && longer == run + [next]
    ensures IsRun(longer) && longer[|longer| - 1] == next
  {
    next := Step(last, a);
    longer := run + [next];
    forall i: nat | i < |longer| - 1 ensures StepAt(longer, i) {
      if i < |run| - 1 {
        assert StepAt(run, i);
        assert longer[i] == run[i] && longer[i + 1] == run[i + 1];
      } else {
        assert Enabled(longer[i], a) && longer[i + 1] == next;
      }
    }
  }

  /** A free index is in neither table. */
  lemma FreeIsUnlisted(s: State, i: int)
    requires Inv(s) && i in s.tables.free
    ensures i !in s.tables.clients && i !in s.tables.tasks
  {
    assert forall k :: k in s.tables.clients ==> Live(s, s.tables.clients[k]);
    assert forall k :: k in s.tables.tasks ==> Live(s, s.tables.tasks[k]);
  }

  /** An accept goes through: from any reachable state at the loop, with the server running and an index free, the five
      steps can be made one after another, whatever the tasks are doing, and leave a new context in both tables
      under the front index. */
  lemma AcceptGoesThrough(run: seq<State>) returns (longer: seq<State>)
    requires IsRun(run)
    requires var s := run[|run| - 1]; s.accept == AtLoop && s.isRun && s.tables.free != []
    ensures IsRun(longer) && |longer| == |run| + 5 && longer[..|run|] == run
    ensures var s, c := run[|run| - 1], |run[|run| - 1].contexts|;
            var i := s.tables.free[0];
            longer[|longer| - 1]
            == s.(tables := Tables(s.tables.free[1..], s.tables.clients[i := c], s.tables.tasks[i := c]),
                  contexts := s.contexts + [Context(i, Watched, Receiving)], taken := s.taken + [i])
  {
    var s, next := run[|run| - 1], run[|run| - 1];
    PoolInvariant(run, |run| - 1);
    FreeIsUnlisted(s, s.tables.free[0]);
    longer := run;
    longer, next := Extend(longer, next, TakeIndex);
    longer, next := Extend(longer, next, AcceptOk);
    longer, next := Extend(longer, next, AddClient);
    longer, next := Extend(longer, next, AddTask);
    longer, next := Extend(longer, next, Watch);
    assert next.contexts == s.contexts + [Context(s.tables.free[0], Watched, Receiving)];
  }

  /** So does a disconnect: in any reachable state a watched context can run down, and its index goes to the back of
      the queue. */
  lemma DisconnectGoesThrough(run: seq<State>, c: ContextId) returns (longer: seq<State>)
    requires IsRun(run) && c < |run[|run| - 1].contexts|
    requires var x := run[|run| - 1].contexts[c]; x.phase == Watched && x.life == Receiving
    ensures IsRun(longer) && |longer| == |run| + 5 && longer[..|run|] == run
    ensures var s := run[|run| - 1];
            var i := s.contexts[c].index;
            longer[|longer| - 1]
            == s.(tables := Tables(s.tables.free + [i], s.tables.clients - {i}, s.tables.tasks - {i}),
                  contexts := s.contexts[c := Context(i, Returned, Completed)], returned := s.returned + [i])
  {
    var s, next := run[|run| - 1], run[|run| - 1];
    longer := run;
    longer, next := Extend(longer, next, Disconnect(c));
    longer, next := Extend(longer, next, Finish(c));
    longer, next := Extend(longer, next, Untrack(c));
    longer, next := Extend(longer, next, Delist(c));
    longer, next := Extend(longer, next, GiveBack(c));
    assert next.contexts == s.contexts[c := Context(s.contexts[c].index, Returned, Completed)];
  }

  /** A failed accept costs its index and nothing else: the loop goes on. */
  lemma FailedAcceptGoesOn(run: seq<State>) returns (longer: seq<State>)
    requires IsRun(run) && run[|run| - 1].accept.Holding?
    ensures IsRun(longer) && |longer| == |run| + 1 && longer[..|run|] == run
    ensures var s := run[|run| - 1];
            longer[|run|] == s.(accept := AtLoop, lost := s.lost + {s.accept.index}, failures := s.failures + 1)
  {
    var next;
    longer, next := Extend(run, run[|run| - 1], AcceptFault);
  }

  /** Shutdown safety: when Close has returned, the accept loop has ended and every receive task ever started has
      completed, OnDisconnect and Release included. */
  lemma CloseWaitsForAll(run: seq<State>, n: nat)
    requires IsRun(run) && n < |run| && run[n].close == Closed
    ensures run[n].accept == Ended
    ensures forall c: nat :: c < |run[n].contexts| ==> run[n].contexts[c].life == Completed
  {
    PoolInvariant(run, n);
    ClosedMeansDone(run[n]);
  }

  /** And Close does return, once every receive task has completed, whether the accept loop is between accepts or
      waiting in one. */
  lemma CloseGoesThrough(run: seq<State>) returns (longer: seq<State>)
    requires IsRun(run) && run[|run| - 1].close == Open
    requires var s := run[|run| - 1];
             (s.accept == AtLoop || s.accept.Holding?) && forall c: nat :: c < |s.contexts| ==> Done(s, c)
    ensures IsRun(longer) && |longer| == |run| + 4 && longer[..|run|] == run
    ensures longer[|longer| - 1].close == Closed && !longer[|longer| - 1].isRun
  {
    var s, next := run[|run| - 1], run[|run| - 1];
    longer, next := Extend(run, s, CloseBegin);
    PoolInvariant(longer, |longer| - 1);
    longer, next := Extend(longer, next, if s.accept == AtLoop then SeeStopped else AcceptDisposed);
    longer, next := Extend(longer, next, CloseSnapshot);
    PoolInvariant(longer, |longer| - 1);
    assert next.contexts == s.contexts && next.tables.tasks == s.tables.tasks;
    TrackedAreContexts(next);
    assert next.close == Waiting(next.tables.tasks.Values);
    forall c | c in next.close.tasks ensures Done(next, c) {
      assert Done(s, c);
    }
    longer, next := Extend(longer, next, CloseReturn);
  }

  lemma TrackedAreContexts(s: State)
    requires TasksMatch(s)
    ensures forall c :: c in s.tables.tasks.Values ==> c < |s.contexts|
  {
    forall c | c in s.tables.tasks.Values ensures c < |s.contexts| {
      var i := KeyOf(s.tables.tasks, c);
    }
  }

  lemma ClosedMeansDone(s: State)
    requires ClosedInOrder(s) && s.close == Closed
    ensures s.accept == Ended && forall c: nat :: c < |s.contexts| ==> s.contexts[c].life == Completed
  {
    forall c: nat | c < |s.contexts| ensures s.contexts[c].life == Completed {
      assert Done(s, c);
    }
  }
}
