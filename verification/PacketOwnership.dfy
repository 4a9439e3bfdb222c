/** Who owns each packet and each memory block while any number of jobs execute, send and die: the free lists,
    the jobs, the connections' send buffers, or nobody because it was deleted. */
module PacketOwnership {
  import opened Collections
  import Messages
  import Packets

  /** Packets are numbered as they are created, and so are memory blocks. A job is known by its block. */
  type Packet = nat
  type Block = nat

  datatype Info = Info(size: nat, capacity: nat)

  /** Between the pool operations of Execute a job also has a packet in hand. In Storing its slot still points
      at the packet it has just given back. Dying: destroyed, its block not yet returned. */
  datatype Phase =
    | Ready
    | Filling(hand: Packet)     // allocated, Init next
    | Swapping(hand: Packet)    // Init done, old packet to be given back next
    | Storing(hand: Packet)     // m_pPacket = pPacket next
    | Dropping(hand: Packet)    // Init refused, give back next
    | Dying

  datatype Job = Job(slot: Option<Packet>, phase: Phase)

  datatype State = State(packets: seq<Info>, free: seq<Packet>, deleted: set<Packet>, sender: seq<Packet>,
                         jobs: map<Block, Job>, freeBlocks: seq<Block>, blocks: nat)

  /** The send function's answers: refused before the packet was queued; queued; or queued and then failed by
      WSASend, which SendMsgTCP reports as false although the packet stays queued. */
  datatype Answer = Refused | Queued | QueuedButFailed

  /** Where a packet handed to the send function ends up: in the connection's queue, and in the job's slot or not. */
  function SenderAfter<P>(queue: seq<P>, p: P, answer: Answer): seq<P> {
    if answer.Refused? then queue else queue + [p]
  }

  function SlotAfter<P>(p: P, answer: Answer): Option<P> {
    if answer.Queued? then None else Some(p)
  }

  datatype Action =
    | CreateJob
    | PoolAllocate(j: Block)
    | Init(j: Block, payload: nat)
    | GiveBackOld(j: Block)
    | Store(j: Block)
    | Drop(j: Block)
    | SendRes(j: Block, answer: Answer)
    | SenderReturns(i: nat)
    | Destroy(j: Block)
    | ReturnBlock(j: Block)

  ghost predicate Start(s: State, packets: nat, blocks: nat) {
    && s.packets == seq(packets, _ => Info(0, Packets.PACKET_SIZE))
    && s.free == seq(packets, i => i)
    && s.freeBlocks == seq(blocks, i => i)
    && s == State(s.packets, s.free, {}, [], map[], s.freeBlocks, blocks)
  }

  ghost predicate Enabled(s: State, a: Action) {
    match a
    case CreateJob => true
    case PoolAllocate(j) => j in s.jobs && s.jobs[j].phase.Ready?
    case Init(j, _) => j in s.jobs && s.jobs[j].phase.Filling? && s.jobs[j].phase.hand < |s.packets|
    case GiveBackOld(j) => j in s.jobs && s.jobs[j].phase.Swapping? && s.jobs[j].slot.Some?
                           && s.jobs[j].slot.value < |s.packets|
    case Store(j) => j in s.jobs && s.jobs[j].phase.Storing?
    case Drop(j) => j in s.jobs && s.jobs[j].phase.Dropping? && s.jobs[j].phase.hand < |s.packets|
    case SendRes(j, answer) => j in s.jobs && s.jobs[j].phase.Ready? && s.jobs[j].slot.Some?
    case SenderReturns(i) => i < |s.sender| && s.sender[i] < |s.packets|
    case Destroy(j) => j in s.jobs && s.jobs[j].phase.Ready?
    case ReturnBlock(j) => j in s.jobs && s.jobs[j].phase.Dying?
  }

  /** PacketPool::Deallocate: Clear, then onto the free list. */
  ghost function Released(s: State, p: Packet): State
    requires p < |s.packets|
  {
    s.(packets := s.packets[p := s.packets[p].(size := 0)], free := s.free + [p])
  }

  ghost function WithJob(s: State, j: Block, job: Job): State {
    s.(jobs := s.jobs[j := job])
  }

  ghost function Step(s: State, a: Action): State
    requires Enabled(s, a)
  {
    match a
    case CreateJob =>
      var created := Job(None, Ready);
      if s.freeBlocks == [] then WithJob(s.(blocks := s.blocks + 1), s.blocks, created)
      else WithJob(s.(freeBlocks := s.freeBlocks[1..]), s.freeBlocks[0], created)
    case PoolAllocate(j) =>
      if s.free == [] then
        WithJob(s.(packets := s.packets + [Info(0, Packets.PACKET_SIZE)]), j, s.jobs[j].(phase := Filling(|s.packets|)))
      else WithJob(s.(free := s.free[1..]), j, s.jobs[j].(phase := Filling(s.free[0])))
    case Init(j, n) =>
      var p := s.jobs[j].phase.hand;
      if n + Messages.HEADER_SIZE > Packets.PACKET_SIZE then WithJob(s, j, s.jobs[j].(phase := Dropping(p)))
      else
        WithJob(s.(packets := s.packets[p := s.packets[p].(size := n + Messages.HEADER_SIZE)]), j,
                s.jobs[j].(phase := if s.jobs[j].slot.Some? then Swapping(p) else Storing(p)))
    case GiveBackOld(j) =>
      WithJob(Released(s, s.jobs[j].slot.value), j, s.jobs[j].(phase := Storing(s.jobs[j].phase.hand)))
    case Store(j) => WithJob(s, j, Job(Some(s.jobs[j].phase.hand), Ready))
    case Drop(j) => WithJob(Released(s, s.jobs[j].phase.hand), j, s.jobs[j].(phase := Ready))
    case SendRes(j, answer) =>
      var p := s.jobs[j].slot.value;
      WithJob(s.(sender := SenderAfter(s.sender, p, answer)), j, Job(SlotAfter(p, answer), Ready))
    case SenderReturns(i) => Released(s.(sender := s.sender[..i] + s.sender[i + 1..]), s.sender[i])
    case Destroy(j) =>
      WithJob(if s.jobs[j].slot.Some? then s.(deleted := s.deleted + {s.jobs[j].slot.value}) else s,
              j, Job(None, Dying))
    case ReturnBlock(j) => s.(jobs := s.jobs - {j}, freeBlocks := s.freeBlocks + [j])
  }

  /** A run with its actions. */
  ghost predicate IsRun(run: seq<State>, acts: seq<Action>, packets: nat, blocks: nat) {
    && |run| == |acts| + 1 && Start(run[0], packets, blocks)
    && forall i: nat :: i < |acts| ==> Enabled(run[i], acts[i]) && run[i + 1] == Step(run[i], acts[i])
  }

  /** The job's slot owns the packet, unless it is the stale pointer of Storing. */
  ghost predicate Slot(s: State, j: Block, p: Packet) {
    j in s.jobs && s.jobs[j].slot == Some(p) && !s.jobs[j].phase.Storing?
  }

  ghost predicate Hand(s: State, j: Block, p: Packet) {
    && j in s.jobs
    && (s.jobs[j].phase.Filling? || s.jobs[j].phase.Swapping? || s.jobs[j].phase.Storing?
        || s.jobs[j].phase.Dropping?)
    && s.jobs[j].phase.hand == p
  }

  ghost predicate WithSomeJob(s: State, p: Packet) {
    exists j: Block :: Slot(s, j, p) || Hand(s, j, p)
  }

  /** No packet has two owners. */
  ghost predicate Exclusive(s: State) {
    && (forall i, k :: 0 <= i < k < |s.free| ==> s.free[i] != s.free[k])
    && (forall i, k :: 0 <= i < k < |s.sender| ==> s.sender[i] != s.sender[k])
    && (forall p :: p in s.free ==> p !in s.sender && p !in s.deleted && !WithSomeJob(s, p))
    && (forall p :: p in s.sender ==> p !in s.deleted && !WithSomeJob(s, p))
    && (forall p :: p in s.deleted ==> !WithSomeJob(s, p))
    && (forall j: Block, k: Block, p: Packet :: Slot(s, j, p) && Slot(s, k, p) ==> j == k)
    && (forall j: Block, k: Block, p: Packet :: Hand(s, j, p) && Hand(s, k, p) ==> j == k)
    && (forall j: Block, k: Block, p: Packet :: Slot(s, j, p) ==> !Hand(s, k, p))
  }

  ghost predicate Owned(s: State, p: Packet) {
    p in s.free || p in s.sender || p in s.deleted || WithSomeJob(s, p)
  }

  ghost predicate Complete(s: State) {
    forall p: Packet :: p < |s.packets| <==> Owned(s, p)
  }

  /** Every free packet is empty, and every packet has a pool packet's capacity and does not exceed it. */
  ghost predicate Sized(s: State) {
    && (forall p: Packet :: p in s.free && p < |s.packets| ==> s.packets[p].size == 0)
    && (forall p: Packet :: p < |s.packets| ==>
          s.packets[p].capacity == Packets.PACKET_SIZE && s.packets[p].size <= Packets.PACKET_SIZE)
  }

  /** Every memory block is on the free list once, or under exactly one job. */
  ghost predicate BlocksKept(s: State) {
    && (forall i, k :: 0 <= i < k < |s.freeBlocks| ==> s.freeBlocks[i] != s.freeBlocks[k])
    && (forall b: Block :: b < s.blocks <==> b in s.freeBlocks || b in s.jobs)
    && (forall b: Block :: b in s.freeBlocks ==> b !in s.jobs)
  }

  /** A destroyed job keeps no pointer. */
  ghost predicate DyingAreBare(s: State) {
    forall j: Block :: j in s.jobs && s.jobs[j].phase.Dying? ==> s.jobs[j].slot == None
  }

  ghost predicate Inv(s: State) {
    Exclusive(s) && Complete(s) && Sized(s) && BlocksKept(s) && DyingAreBare(s)
  }

  /** The step in which WSASend fails after the packet was queued. */
  predicate FailedPush(a: Action) {
    a.SendRes? && a.answer == QueuedButFailed
  }

  lemma CreateKeepsBlocks(s: State)
    requires BlocksKept(s)
    ensures BlocksKept(Step(s, CreateJob))
  {
    var s' := Step(s, CreateJob);
    var b := if s.freeBlocks == [] then s.blocks else s.freeBlocks[0];
    assert s'.jobs.Keys == s.jobs.Keys + {b};
    assert forall c: Block :: c in s'.jobs <==> c == b || c in s.jobs;
    if s.freeBlocks != [] {
      assert forall c: Block :: c in s.freeBlocks <==> c == b || c in s'.freeBlocks;
    }
  }

  lemma ReturnKeepsBlocks(s: State, j: Block)
    requires BlocksKept(s) && Enabled(s, ReturnBlock(j))
    ensures BlocksKept(Step(s, ReturnBlock(j)))
  {
    var s' := Step(s, ReturnBlock(j));
    assert forall c: Block :: c in s'.jobs <==> c in s.jobs && c != j;
    assert forall c: Block :: c in s'.freeBlocks <==> c == j || c in s.freeBlocks;
  }

  lemma StepKeepsBlocks(s: State, a: Action)
    requires BlocksKept(s) && Enabled(s, a)
    ensures BlocksKept(Step(s, a))
  {
    match a
    case CreateJob => CreateKeepsBlocks(s);
    case ReturnBlock(j) => ReturnKeepsBlocks(s, j);
    case _ =>
      assert forall b: Block :: b in Step(s, a).jobs <==> b in s.jobs;
  }

  lemma StepKeepsSized(s: State, a: Action)
    requires Sized(s) && Exclusive(s) && Enabled(s, a)
    ensures Sized(Step(s, a))
  {
    if a.Init? {
      assert Hand(s, a.j, s.jobs[a.j].phase.hand);
    }
  }

  /** Nothing changes hands. */
  ghost predicate SameOwners(s: State, s': State) {
    && s'.free == s.free && s'.sender == s.sender && s'.deleted == s.deleted && |s'.packets| == |s.packets|
    && (forall k: Block, p: Packet :: Slot(s', k, p) <==> Slot(s, k, p))
    && (forall k: Block, p: Packet :: Hand(s', k, p) <==> Hand(s, k, p))
  }

  lemma SameOwnersKeep(s: State, s': State)
    requires Exclusive(s) && Complete(s) && SameOwners(s, s')
    ensures Exclusive(s') && Complete(s')
  {
    forall p: Packet ensures WithSomeJob(s', p) <==> WithSomeJob(s, p) {
    }
    assert forall p: Packet :: Owned(s', p) <==> Owned(s, p);
  }

  lemma AllocateKeepsOwners(s: State, j: Block)
    requires Inv(s) && Enabled(s, PoolAllocate(j))
    ensures Exclusive(Step(s, PoolAllocate(j))) && Complete(Step(s, PoolAllocate(j)))
  {
    var s' := Step(s, PoolAllocate(j));
    var mine := if s.free == [] then |s.packets| else s.free[0];
    assert forall p :: p in s.free ==> p == mine || p in s'.free;
    assert forall k: Block, p: Packet :: Slot(s', k, p) <==> Slot(s, k, p);
    assert forall k: Block, p: Packet :: Hand(s', k, p) <==> Hand(s, k, p) || (k == j && p == mine);
    assert Owned(s, mine) <==> s.free != [];
    assert Hand(s', j, mine);
    forall p: Packet ensures WithSomeJob(s', p) <==> WithSomeJob(s, p) || p == mine {
    }
    assert forall p: Packet :: Owned(s', p) <==> Owned(s, p) || p == mine;
  }

  /** A packet moves from a job to somewhere outside the jobs. */
  lemma LeavingKeepsOwners(s: State, s': State, j: Block, mine: Packet)
    requires Exclusive(s) && Complete(s) && |s'.packets| == |s.packets|
    requires Slot(s, j, mine) || Hand(s, j, mine)
    requires forall k: Block, p: Packet :: Slot(s', k, p) <==> Slot(s, k, p) && !(k == j && p == mine)
    requires forall k: Block, p: Packet :: Hand(s', k, p) <==> Hand(s, k, p) && !(k == j && p == mine)
    requires || (s'.free == s.free + [mine] && s'.sender == s.sender && s'.deleted == s.deleted)
             || (s'.free == s.free && s'.sender == s.sender + [mine] && s'.deleted == s.deleted)
             || (s'.free == s.free && s'.sender == s.sender && s'.deleted == s.deleted + {mine})
    ensures Exclusive(s') && Complete(s')
  {
    assert WithSomeJob(s, mine);
    forall p: Packet ensures WithSomeJob(s', p) <==> WithSomeJob(s, p) && p != mine {
      if k: Block :| (Slot(s, k, p) || Hand(s, k, p)) && p != mine {
        assert Slot(s', k, p) || Hand(s', k, p);
      }
    }
    assert forall p: Packet :: Owned(s', p) <==> Owned(s, p);
  }

  lemma StoreKeepsOwners(s: State, j: Block)
    requires Inv(s) && Enabled(s, Store(j))
    ensures Exclusive(Step(s, Store(j))) && Complete(Step(s, Store(j)))
  {
    var s' := Step(s, Store(j));
    var mine := s.jobs[j].phase.hand;
    assert Hand(s, j, mine) && Slot(s', j, mine);
    assert forall k: Block, p: Packet :: Slot(s', k, p) <==> Slot(s, k, p) || (k == j && p == mine);
    assert forall k: Block, p: Packet :: Hand(s', k, p) <==> Hand(s, k, p) && k != j;
    forall p: Packet ensures WithSomeJob(s', p) <==> WithSomeJob(s, p) {
      if k: Block :| Slot(s, k, p) || Hand(s, k, p) {
        assert Slot(s', k, p) || Hand(s', k, p);
      }
    }
    assert forall p: Packet :: Owned(s', p) <==> Owned(s, p);
  }

  lemma RemoveAt(q: seq<Packet>, i: nat)
    requires i < |q| && forall j, k :: 0 <= j < k < |q| ==> q[j] != q[k]
    ensures var r := q[..i] + q[i + 1..];
            && (forall j, k :: 0 <= j < k < |r| ==> r[j] != r[k])
            && (forall p :: p in r <==> p in q && p != q[i])
  {
    var r := q[..i] + q[i + 1..];
    forall p ensures p in r <==> p in q && p != q[i] {
      if p in q && p != q[i] {
        var j :| 0 <= j < |q| && q[j] == p;
        assert p == if j < i then r[j] else r[j - 1];
      }
    }
  }

  lemma ReturnKeepsOwners(s: State, i: nat)
    requires Inv(s) && Enabled(s, SenderReturns(i))
    ensures Exclusive(Step(s, SenderReturns(i))) && Complete(Step(s, SenderReturns(i)))
  {
    var s', mine := Step(s, SenderReturns(i)), s.sender[i];
    RemoveAt(s.sender, i);
    assert mine in s.sender && forall p :: p in s'.free <==> p in s.free || p == mine;
    assert forall k: Block, p: Packet :: Slot(s', k, p) <==> Slot(s, k, p);
    assert forall k: Block, p: Packet :: Hand(s', k, p) <==> Hand(s, k, p);
    forall p: Packet ensures WithSomeJob(s', p) <==> WithSomeJob(s, p) {
    }
    assert forall p: Packet :: Owned(s', p) <==> Owned(s, p);
  }

  lemma GiveBackKeepsOwners(s: State, j: Block)
    requires Inv(s) && Enabled(s, GiveBackOld(j))
    ensures Exclusive(Step(s, GiveBackOld(j))) && Complete(Step(s, GiveBackOld(j)))
  {
    assert Slot(s, j, s.jobs[j].slot.value) && !Hand(s, j, s.jobs[j].slot.value);
    LeavingKeepsOwners(s, Step(s, GiveBackOld(j)), j, s.jobs[j].slot.value);
  }

  lemma DropKeepsOwners(s: State, j: Block)
    requires Inv(s) && Enabled(s, Drop(j))
    ensures Exclusive(Step(s, Drop(j))) && Complete(Step(s, Drop(j)))
  {
    assert Hand(s, j, s.jobs[j].phase.hand) && !Slot(s, j, s.jobs[j].phase.hand);
    LeavingKeepsOwners(s, Step(s, Drop(j)), j, s.jobs[j].phase.hand);
  }

  lemma QueueKeepsOwners(s: State, j: Block)
    requires Inv(s) && Enabled(s, SendRes(j, Queued))
    ensures Exclusive(Step(s, SendRes(j, Queued))) && Complete(Step(s, SendRes(j, Queued)))
  {
    assert Slot(s, j, s.jobs[j].slot.value) && !Hand(s, j, s.jobs[j].slot.value);
    LeavingKeepsOwners(s, Step(s, SendRes(j, Queued)), j, s.jobs[j].slot.value);
  }

  lemma DestroyKeepsOwners(s: State, j: Block)
    requires Inv(s) && Enabled(s, Destroy(j))
    ensures Exclusive(Step(s, Destroy(j))) && Complete(Step(s, Destroy(j)))
  {
    if s.jobs[j].slot.Some? {
      assert Slot(s, j, s.jobs[j].slot.value);
      LeavingKeepsOwners(s, Step(s, Destroy(j)), j, s.jobs[j].slot.value);
    } else {
      SameOwnersKeep(s, Step(s, Destroy(j)));
    }
  }

  lemma StepKeepsOwners(s: State, a: Action)
    requires Inv(s) && Enabled(s, a) && !FailedPush(a)
    ensures Exclusive(Step(s, a)) && Complete(Step(s, a))
  {
    match a
    case PoolAllocate(j) => AllocateKeepsOwners(s, j);
    case GiveBackOld(j) => GiveBackKeepsOwners(s, j);
    case Store(j) => StoreKeepsOwners(s, j);
    case Drop(j) => DropKeepsOwners(s, j);
    case SendRes(j, answer) =>
      if answer == Queued {
        QueueKeepsOwners(s, j);
      } else {
        assert Step(s, a).jobs == s.jobs;
      }
    case SenderReturns(i) => ReturnKeepsOwners(s, i);
    case Destroy(j) => DestroyKeepsOwners(s, j);
    case _ =>
      SameOwnersKeep(s, Step(s, a));
  }

  /** A packet that is queued and yet kept has two owners, whatever the state was. */
  lemma FailedPushShares(s: State, a: Action)
    requires Enabled(s, a) && FailedPush(a)
    ensures !Exclusive(Step(s, a))
  {
    var p := s.jobs[a.j].slot.value;
    assert Slot(Step(s, a), a.j, p) && p in Step(s, a).sender;
    assert WithSomeJob(Step(s, a), p);
  }

  lemma StartIsSound(s: State, packets: nat, blocks: nat)
    requires Start(s, packets, blocks)
    ensures Inv(s)
  {
    forall p: Packet ensures p < |s.packets| <==> Owned(s, p) {
      assert p < packets ==> s.free[p] == p;
    }
    forall b: Block ensures b < s.blocks <==> b in s.freeBlocks || b in s.jobs {
      assert b < blocks ==> s.freeBlocks[b] == b;
    }
  }

  lemma {:induction false} CleanRunsKeepInv(run: seq<State>, acts: seq<Action>, packets: nat, blocks: nat, n: nat)
    requires IsRun(run, acts, packets, blocks) && n < |run|
    requires forall i :: 0 <= i < n ==> !FailedPush(acts[i])
    ensures Inv(run[n])
  {
    if n == 0 {
      StartIsSound(run[0], packets, blocks);
    } else {
      CleanRunsKeepInv(run, acts, packets, blocks, n - 1);
      var s, a := run[n - 1], acts[n - 1];
      assert run[n - 1 + 1] == Step(s, a);
      StepKeepsBlocks(s, a);
      StepKeepsSized(s, a);
      StepKeepsOwners(s, a);
    }
  }

  /** Packet ownership, exactly: over a whole run each packet stays with a single owner if and only if no send
      was queued and then reported as failed. */
  lemma SingleOwnerIff(run: seq<State>, acts: seq<Action>, packets: nat, blocks: nat)
    requires IsRun(run, acts, packets, blocks)
    ensures (forall n :: 0 <= n < |run| ==> Exclusive(run[n]))
            <==> (forall i :: 0 <= i < |acts| ==> !FailedPush(acts[i]))
  {
    if i :| 0 <= i < |acts| && FailedPush(acts[i]) {
      assert run[i + 1] == Step(run[i], acts[i]);
      FailedPushShares(run[i], acts[i]);
    } else {
      forall n | 0 <= n < |run| ensures Exclusive(run[n]) {
        CleanRunsKeepInv(run, acts, packets, blocks, n);
      }
    }
  }

  /** It does come to that: one job, one packet, and a send that is queued and then fails. */
  lemma FailedPushHappens() returns (run: seq<State>, acts: seq<Action>)
    ensures IsRun(run, acts, 1, 1) && acts != [] && FailedPush(acts[|acts| - 1])
    ensures var s := run[|run| - 1]; s.sender == [0] && Slot(s, 0, 0) && !Exclusive(s)
  {
    var s0 := State([Info(0, Packets.PACKET_SIZE)], [0], {}, [], map[], [0], 1);
    var s1 := Step(s0, CreateJob);
    var s2 := Step(s1, PoolAllocate(0));
    var s3 := Step(s2, Init(0, 0));
    var s4 := Step(s3, Store(0));
    assert s4.jobs == map[0 := Job(Some(0), Ready)];
    var s5 := Step(s4, SendRes(0, QueuedButFailed));
    FailedPushShares(s4, SendRes(0, QueuedButFailed));
    run := [s0, s1, s2, s3, s4, s5];
    acts := [CreateJob, PoolAllocate(0), Init(0, 0), Store(0), SendRes(0, QueuedButFailed)];
  }

  /** In such a run nothing is lost either, every free packet is empty, the packet Init writes to has room for all it
      writes, and every memory block is free once or under one job. */
  lemma NothingLostNothingOverrun(run: seq<State>, acts: seq<Action>, packets: nat, blocks: nat, n: nat)
    requires IsRun(run, acts, packets, blocks) && n < |run|
    requires forall i :: 0 <= i < |acts| ==> !FailedPush(acts[i])
    ensures var s := run[n];
            && (forall p: Packet :: p < |s.packets| <==> Owned(s, p))
            && (forall p: Packet :: p in s.free ==> p < |s.packets| && s.packets[p] == Info(0, Packets.PACKET_SIZE))
            && (forall j: Block, k: nat :: Enabled(s, Init(j, k)) && k + Messages.HEADER_SIZE <= Packets.PACKET_SIZE ==>
                  k + Messages.HEADER_SIZE <= s.packets[s.jobs[j].phase.hand].capacity)
            && (forall b: Block :: b < s.blocks <==> b in s.freeBlocks || b in s.jobs)
            && (forall b: Block :: b in s.freeBlocks ==> b !in s.jobs)
            && (forall i, k :: 0 <= i < k < |s.freeBlocks| ==> s.freeBlocks[i] != s.freeBlocks[k])
  {
    CleanRunsKeepInv(run, acts, packets, blocks, n);
    assert forall p: Packet :: p in run[n].free ==> Owned(run[n], p);
  }

  /** Where the pool's next packet comes from, and what is left of the list. */
  function NextPacket(s: State): Packet {
    if s.free == [] then |s.packets| else s.free[0]
  }

  function LaterPackets(s: State): seq<Packet> {
    if s.free == [] then [] else s.free[1..]
  }

  /** The pool operations of Execute, run by one job without interruption. */
  ghost function SoloExecute(s: State, j: Block, payload: nat): State
    requires Inv(s) && j in s.jobs && s.jobs[j].phase.Ready?
  {
    assert s.free != [] ==> Owned(s, s.free[0]);
    assert s.jobs[j].slot.Some? ==> Slot(s, j, s.jobs[j].slot.value) && WithSomeJob(s, s.jobs[j].slot.value)
                                    && Owned(s, s.jobs[j].slot.value);
    var taken := Step(s, PoolAllocate(j));
    var tried := Step(taken, Init(j, payload));
    if tried.jobs[j].phase.Dropping? then Step(tried, Drop(j))
    else Step(if tried.jobs[j].phase.Swapping? then Step(tried, GiveBackOld(j)) else tried, Store(j))
  }

  /** They do what the method does: a payload that fits leaves the job with the pool's next packet, written, and its
      older one at the back of the list; one that does not leaves the job as it was and that packet at the back.
      The pool makes a new packet only when its list is empty. */
  lemma SoloExecuteMatches(s: State, j: Block, payload: nat)
    requires Inv(s) && j in s.jobs && s.jobs[j].phase.Ready?
    ensures var s', p := SoloExecute(s, j, payload), NextPacket(s);
            && (s'.sender, s'.deleted, s'.freeBlocks, s'.blocks) == (s.sender, s.deleted, s.freeBlocks, s.blocks)
            && |s'.packets| == |s.packets| + (if s.free == [] then 1 else 0) && p < |s'.packets|
            && if payload + 12 <= 8192 then
                 && s'.jobs == s.jobs[j := Job(Some(p), Ready)]
                 && s'.free == LaterPackets(s) + (if s.jobs[j].slot.None? then [] else [s.jobs[j].slot.value])
                 && s'.packets[p] == Info(payload + 12, 8192)
               else s'.jobs == s.jobs && s'.free == LaterPackets(s) + [p] && s'.packets[p] == Info(0, 8192)
  {
    assert s.free != [] ==> Owned(s, s.free[0]);
    assert s.jobs[j].slot.Some? ==> Slot(s, j, s.jobs[j].slot.value) && WithSomeJob(s, s.jobs[j].slot.value);
    assert s.jobs[j].slot.Some? ==> s.jobs[j].slot.value !in s.free && Owned(s, s.jobs[j].slot.value);
    assert s.jobs[j := s.jobs[j]] == s.jobs;
  }

  /** A sent packet goes, emptied, to the back of the pool's list, whichever completes first. */
  lemma SentPacketReturns(s: State, i: nat)
    requires Inv(s) && i < |s.sender|
    ensures Enabled(s, SenderReturns(i))
    ensures var s', p := Step(s, SenderReturns(i)), s.sender[i];
            && s'.free == s.free + [p] && s'.packets[p].size == 0 && s'.jobs == s.jobs
            && forall q :: q in s'.sender <==> q in s.sender && q != p
  {
    assert Owned(s, s.sender[i]);
    RemoveAt(s.sender, i);
  }

  /** A job that comes and goes takes the front block, a new one only when none is free, and gives it to the back; the
      packet it dies with is deleted and not given to the pool. */
  lemma BlocksGoRound(s: State, j: Block)
    requires Inv(s) && j in s.jobs && s.jobs[j].phase.Ready?
    ensures var s', b := Step(s, CreateJob), if s.freeBlocks == [] then s.blocks else s.freeBlocks[0];
            && s'.jobs == s.jobs[b := Job(None, Ready)] && b !in s.jobs
            && s'.freeBlocks == (if s.freeBlocks == [] then [] else s.freeBlocks[1..])
            && s'.blocks == s.blocks + (if s.freeBlocks == [] then 1 else 0)
    ensures var dead := Step(s, Destroy(j));
            && Enabled(dead, ReturnBlock(j)) && dead.free == s.free && dead.sender == s.sender
            && dead.deleted == s.deleted + (if s.jobs[j].slot.None? then {} else {s.jobs[j].slot.value})
            && var gone := Step(dead, ReturnBlock(j));
               gone.jobs == s.jobs - {j} && gone.freeBlocks == s.freeBlocks + [j] && gone.deleted == dead.deleted
  {
    assert s.freeBlocks != [] ==> s.freeBlocks[0] in s.freeBlocks;
  }
}
