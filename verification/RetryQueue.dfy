/** The first C++ server's job queue: OnReceive pushes jobs, and any number of worker threads pop, execute, and
    either deallocate a job or push it back to be tried again. */
module RetryQueues {
  import opened Collections

  type Job = nat

  type Worker = nat

  datatype InfoCode = ReqSuccess | ReqFailed | NotFinished | Undefined

  /** What CreateJob makes of each request message; None when it returns no job. */
  function Created(requests: seq<Option<Job>>): seq<Job> {
    if requests == [] then [] else CreatedOne(requests[0]) + Created(requests[1..])
  }

  function CreatedOne(request: Option<Job>): seq<Job> {
    if request.Some? then [request.value] else []
  }

  lemma {:induction false} CreatedAppend(a: seq<Option<Job>>, b: seq<Option<Job>>)
    ensures Created(a + b) == Created(a) + Created(b)
  {
    if a == [] {
      assert a + b == b;
    } else {
      CreatedAppend(a[1..], b);
      assert (a + b)[1..] == a[1..] + b;
      Reassociate(CreatedOne(a[0]), Created(a[1..]), Created(b));
    }
  }

  function Wanted(requests: seq<Option<Job>>): (bs: seq<bool>)
    ensures |bs| == |requests| && forall i :: 0 <= i < |requests| ==> bs[i] == requests[i].Some?
  {
    seq(|requests|, i requires 0 <= i < |requests| => requests[i].Some?)
  }

  /** Exactly the requests that a job came of, each at the place given by how many of those are before it. */
  lemma {:induction false} CreatedExactly(requests: seq<Option<Job>>)
    ensures |Created(requests)| == Trues(Wanted(requests))
    ensures forall i :: 0 <= i < |requests| && requests[i].Some? ==>
              var k := Trues(Wanted(requests[..i]));
              k < |Created(requests)| && Created(requests)[k] == requests[i].value
  {
    if requests != [] {
      var before, last := requests[..|requests| - 1], requests[|requests| - 1];
      CreatedExactly(before);
      CreatedAppend(before, [last]);
      assert requests == before + [last];
      TruesAppend(Wanted(before), last.Some?);
      assert Wanted(requests) == Wanted(before) + [last.Some?];
      assert Created([last]) == CreatedOne(last) + Created([]);
      assert forall i :: 0 <= i < |before| ==> requests[..i] == before[..i];
    }
  }

  /** The switch at the end of a worker's turn: where the job goes. */
  function QueueAfter(queue: seq<Job>, job: Job, code: InfoCode): seq<Job> {
    if code == NotFinished then queue + [job] else queue
  }

  function DeadAfter(dead: seq<Job>, job: Job, code: InfoCode): seq<Job> {
    if code == NotFinished then dead else dead + [job]
  }

  class JobQueue {
    var queue: seq<Job>
    var dead: seq<Job>
    var requests: seq<Option<Job>>

    /** OnReceive: every complete request is popped from the receive buffer, whether or not a job came of it, and
        the jobs are queued in request order. */
    method OnReceive()
      modifies this`queue, this`requests
      ensures requests == []
      ensures queue == old(queue) + Created(old(requests))
    {
      ghost var done: seq<Option<Job>> := [];
      while requests != []
        invariant done + requests == old(requests)
        invariant queue == old(queue) + Created(done)
        decreases |requests|
      {
        var job := requests[0];
        ghost var before := done;
        done := done + [job];
        CreatedAppend(before, [job]);
        Reassociate(before, [job], requests[1..]);
        assert [job] + requests[1..] == requests;
        if job.None? {
          requests := requests[1..];
          continue;
        }
        queue := queue + [job.value];
        requests := requests[1..];
      }
      assert done + requests == done;
    }

    /** The switch on the fields, as Step has it below. */
    method Settle(job: Job, code: InfoCode)
      modifies this`queue, this`dead
      ensures queue == QueueAfter(old(queue), job, code) && dead == DeadAfter(old(dead), job, code)
      ensures queue == old(queue) + if code == NotFinished then [job] else []
      ensures dead == old(dead) + if code == NotFinished then [] else [job]
    {
      match code
      case ReqSuccess => dead := dead + [job];
      case ReqFailed => dead := dead + [job];
      case NotFinished => queue := queue + [job];
      case Undefined => dead := dead + [job];
    }
  }

  /** A worker between jobs, which may or may not have found m_IsRun true already; holding a popped job; holding one
      whose Execute has answered; back from a job with m_IsRun false; or gone. */
  datatype Pc = Idle | Popped(job: Job) | Executed(job: Job, code: InfoCode) | Stopping | Gone

  /** pushLog and popLog are history. retries is the oracle for Execute: how many more times each job will
      answer NOT_FINISHED. */
  datatype State = State(isRun: bool, queue: seq<Job>, pc: map<Worker, Pc>, dead: seq<Job>, created: nat,
                         retries: map<Job, nat>, pushLog: seq<Job>, popLog: seq<Job>)

  datatype Action =
    | Create(retries: nat)           // OnReceive pushes a new job
    | Pop(w: Worker)
    | Execute(w: Worker, final: InfoCode)   // final: its answer once it needs no more retries
    | Settle(w: Worker)
    | Stop                           // m_IsRun becomes false
    | Leave(w: Worker)               // a worker sees it

  ghost predicate Init(s: State) {
    && (forall w :: w in s.pc ==> s.pc[w] == Idle)
    && s == State(true, [], s.pc, [], 0, map[], [], [])
  }

  ghost predicate Enabled(s: State, a: Action) {
    match a
    case Create(_) => true
    case Pop(w) => w in s.pc && s.pc[w].Idle? && s.queue != []
    case Execute(w, final) => w in s.pc && s.pc[w].Popped? && s.pc[w].job in s.retries && final != NotFinished
    case Settle(w) => w in s.pc && s.pc[w].Executed?
    case Stop => s.isRun
    case Leave(w) => !s.isRun && w in s.pc && (s.pc[w].Idle? || s.pc[w].Stopping?)
  }

  ghost function Step(s: State, a: Action): State
    requires Enabled(s, a)
  {
    match a
    case Create(n) =>
      var j := s.created;
      s.(created := s.created + 1, retries := s.retries[j := n], queue := s.queue + [j], pushLog := s.pushLog + [j])
    case Pop(w) =>
      s.(queue := s.queue[1..], pc := s.pc[w := Popped(s.queue[0])], popLog := s.popLog + [s.queue[0]])
    case Execute(w, final) =>
      var j := s.pc[w].job;
      if s.retries[j] > 0 then
        s.(pc := s.pc[w := Executed(j, NotFinished)], retries := s.retries[j := s.retries[j] - 1])
      else s.(pc := s.pc[w := Executed(j, final)])
    case Settle(w) =>
      var (j, code) := (s.pc[w].job, s.pc[w].code);
      s.(pc := s.pc[w := if s.isRun then Idle else Stopping],
         queue := QueueAfter(s.queue, j, code), dead := DeadAfter(s.dead, j, code),
         pushLog := QueueAfter(s.pushLog, j, code))
    case Stop => s.(isRun := false)
    case Leave(w) => s.(pc := s.pc[w := Gone])
  }

  ghost predicate StepAt(run: seq<State>, i: nat) {
    i + 1 < |run| && exists a :: Enabled(run[i], a) && run[i + 1] == Step(run[i], a)
  }

  ghost predicate IsRun(run: seq<State>) {
    && run != [] && Init(run[0])
    && forall i: nat :: i < |run| - 1 ==> StepAt(run, i)
  }

  ghost predicate Holds(s: State, w: Worker, j: Job) {
    w in s.pc && (s.pc[w].Popped? || s.pc[w].Executed?) && s.pc[w].job == j
  }

  /** No job is in two places, or twice in one. */
  ghost predicate Exclusive(s: State) {
    && (forall i, k :: 0 <= i < k < |s.queue| ==> s.queue[i] != s.queue[k])
    && (forall i, k :: 0 <= i < k < |s.dead| ==> s.dead[i] != s.dead[k])
    && (forall j :: j in s.queue ==> j !in s.dead)
    && (forall w, j :: Holds(s, w, j) ==> j !in s.queue && j !in s.dead)
    && (forall v, w, j :: Holds(s, v, j) && Holds(s, w, j) ==> v == w)
  }

  ghost predicate Somewhere(s: State, j: Job) {
    j in s.queue || j in s.dead || exists w :: Holds(s, w, j)
  }

  /** Every created job, and no other, is somewhere. */
  ghost predicate Complete(s: State) {
    && (forall j: Job :: j < s.created <==> Somewhere(s, j))
    && (forall j: Job :: j < s.created <==> j in s.retries)
  }

  /** Jobs leave the queue in the order they entered it, first entries and returns alike. */
  ghost predicate Fifo(s: State) {
    s.popLog + s.queue == s.pushLog
  }

  ghost predicate Inv(s: State) {
    Exclusive(s) && Complete(s) && Fifo(s)
  }

  lemma StepKeepsFifo(s: State, a: Action)
    requires Fifo(s) && Enabled(s, a)
    ensures Fifo(Step(s, a))
  {
    if a.Pop? {
      assert s.queue == [s.queue[0]] + s.queue[1..];
    }
  }

  lemma CreateKeeps(s: State, n: nat)
    requires Inv(s)
    ensures Exclusive(Step(s, Create(n))) && Complete(Step(s, Create(n)))
  {
    var s', mine := Step(s, Create(n)), s.created;
    assert forall j :: j in s'.queue <==> j == mine || j in s.queue;
    assert forall w, j :: Holds(s', w, j) <==> Holds(s, w, j);
    assert forall j :: Somewhere(s', j) <==> Somewhere(s, j) || j == mine;
    assert !Somewhere(s, mine);
  }

  lemma PopKeeps(s: State, w: Worker)
    requires Inv(s) && Enabled(s, Pop(w))
    ensures Exclusive(Step(s, Pop(w))) && Complete(Step(s, Pop(w)))
  {
    var s', mine := Step(s, Pop(w)), s.queue[0];
    assert forall j :: j in s.queue <==> j == mine || j in s'.queue;
    assert forall v, j :: Holds(s', v, j) <==> Holds(s, v, j) || (v == w && j == mine);
    assert Holds(s', w, mine);
    assert forall j :: Somewhere(s', j) <==> Somewhere(s, j);
  }

  lemma ExecuteKeeps(s: State, w: Worker, final: InfoCode)
    requires Inv(s) && Enabled(s, Execute(w, final))
    ensures Exclusive(Step(s, Execute(w, final))) && Complete(Step(s, Execute(w, final)))
  {
    var s' := Step(s, Execute(w, final));
    assert forall v, j :: Holds(s', v, j) <==> Holds(s, v, j);
    assert forall j :: Somewhere(s', j) <==> Somewhere(s, j);
  }

  lemma SettleKeeps(s: State, w: Worker)
    requires Inv(s) && Enabled(s, Settle(w))
    ensures Exclusive(Step(s, Settle(w))) && Complete(Step(s, Settle(w)))
  {
    var s', mine := Step(s, Settle(w)), s.pc[w].job;
    assert Holds(s, w, mine);
    assert forall v, j :: Holds(s', v, j) <==> Holds(s, v, j) && v != w;
    assert forall j :: j in s'.queue || j in s'.dead <==> j == mine || j in s.queue || j in s.dead;
    assert forall j :: Somewhere(s', j) <==> Somewhere(s, j);
  }

  lemma OthersKeep(s: State, a: Action)
    requires Inv(s) && Enabled(s, a) && (a.Stop? || a.Leave?)
    ensures Exclusive(Step(s, a)) && Complete(Step(s, a))
  {
    var s' := Step(s, a);
    assert forall v, j :: Holds(s', v, j) <==> Holds(s, v, j);
    assert forall j :: Somewhere(s', j) <==> Somewhere(s, j);
  }

  lemma StepKeepsInv(s: State, a: Action)
    requires Inv(s) && Enabled(s, a)
    ensures Inv(Step(s, a))
  {
    StepKeepsFifo(s, a);
    match a
    case Create(n) => CreateKeeps(s, n);
    case Pop(w) => PopKeeps(s, w);
    case Execute(w, final) => ExecuteKeeps(s, w, final);
    case Settle(w) => SettleKeeps(s, w);
    case _ => OthersKeep(s, a);
  }

  lemma InitIsSound(s: State)
    requires Init(s)
    ensures Inv(s)
  {
  }

  lemma {:induction false} QueueInvariant(run: seq<State>, n: nat)
    requires IsRun(run) && n < |run|
    ensures Inv(run[n])
  {
    if n == 0 {
      InitIsSound(run[0]);
    } else {
      QueueInvariant(run, n - 1);
      assert StepAt(run, n - 1);
      var a :| Enabled(run[n - 1], a) && run[n] == Step(run[n - 1], a);
      StepKeepsInv(run[n - 1], a);
    }
  }

  /** Each created job is in exactly one of the queue, one worker's hands, and the deallocated jobs, and stands in
      its list once: no job is lost, run by two workers at once, or deallocated twice. */
  lemma JobInOnePlace(run: seq<State>, n: nat, j: Job)
    requires IsRun(run) && n < |run|
    ensures var s := run[n];
            && (j < s.created <==> j in s.queue || j in s.dead || exists w :: Holds(s, w, j))
            && !(j in s.queue && j in s.dead)
            && (forall i, k :: 0 <= i < k < |s.queue| ==> s.queue[i] != s.queue[k])
            && (forall w :: Holds(s, w, j) ==> j !in s.queue && j !in s.dead)
            && (forall v, w :: Holds(s, v, j) && Holds(s, w, j) ==> v == w)
            && (forall i, k :: 0 <= i < k < |s.dead| ==> s.dead[i] != s.dead[k])
  {
    QueueInvariant(run, n);
    assert j < run[n].created <==> Somewhere(run[n], j);
  }

  lemma RunStepGrowsLogs(run: seq<State>, n: nat)
    requires IsRun(run) && n + 1 < |run|
    ensures run[n].pushLog <= run[n + 1].pushLog && run[n].popLog <= run[n + 1].popLog
  {
    assert StepAt(run, n);
    var a :| Enabled(run[n], a) && run[n + 1] == Step(run[n], a);
  }

  /** The logs only grow along a run. */
  lemma {:induction false} LogsGrow(run: seq<State>, m: nat, n: nat)
    requires IsRun(run) && m <= n < |run|
    ensures run[m].pushLog <= run[n].pushLog && run[m].popLog <= run[n].popLog
    decreases n - m
  {
    if m < n {
      LogsGrow(run, m, n - 1);
      RunStepGrowsLogs(run, n - 1);
    }
  }

  /** No overtaking: a job that is at position k of the queue at some moment comes out only after the k jobs then
      ahead of it have come out, in their order. The same holds for a job just pushed back, with the whole
      queue ahead of it. */
  lemma NoOvertaking(run: seq<State>, m: nat, n: nat, k: nat)
    requires IsRun(run) && m <= n < |run| && k < |run[m].queue|
    requires |run[n].popLog| > |run[m].popLog| + k
    ensures run[n].popLog[|run[m].popLog|..|run[m].popLog| + k + 1] == run[m].queue[..k + 1]
  {
    QueueInvariant(run, m);
    QueueInvariant(run, n);
    LogsGrow(run, m, n);
    LogsLineUp(run[m], run[n], k);
  }

  lemma LogsLineUp(early: State, late: State, k: nat)
    requires Fifo(early) && Fifo(late) && early.pushLog <= late.pushLog
    requires k < |early.queue| && |late.popLog| > |early.popLog| + k
    ensures late.popLog[|early.popLog|..|early.popLog| + k + 1] == early.queue[..k + 1]
  {
    var base := |early.popLog|;
    forall i | 0 <= i < k + 1 ensures late.popLog[base + i] == early.queue[i] {
      assert early.pushLog[base + i] == early.queue[i];
      assert late.pushLog[base + i] == late.popLog[base + i];
    }
  }

  ghost predicate WorkerStep(a: Action) {
    a.Pop? || a.Execute? || a.Settle?
  }

  /** Steps still to come for a job in a worker's hands, r being its remaining retries. */
  function HeldWork(p: Pc, r: nat): nat {
    match p
    case Popped(_) => 3 * r + 2
    case Executed(_, code) => if code == NotFinished then 3 * r + 4 else 1
    case _ => 0
  }

  /** Steps still to come for one job. */
  ghost function JobWork(s: State, j: Job): nat {
    if j !in s.retries then 0
    else if j in s.queue then 3 * s.retries[j] + 3
    else if w :| Holds(s, w, j) then HeldWork(s.pc[w], s.retries[j])
    else 0
  }

  /** Steps still to come for jobs 0..n-1. */
  ghost function TotalWork(s: State, n: nat): nat {
    if n == 0 then 0 else TotalWork(s, n - 1) + JobWork(s, n - 1)
  }

  /** The remaining retries plus one of every unfinished job, counted three steps each. */
  ghost function Work(s: State): nat {
    TotalWork(s, s.created)
  }

  lemma {:induction false} TotalUnchanged(s: State, s': State, n: nat)
    requires forall j: Job :: j < n ==> JobWork(s', j) == JobWork(s, j)
    ensures TotalWork(s', n) == TotalWork(s, n)
  {
    if n > 0 {
      TotalUnchanged(s, s', n - 1);
    }
  }

  lemma {:induction false} TotalOneLess(s: State, s': State, n: nat, mine: Job)
    requires mine < n && JobWork(s, mine) == JobWork(s', mine) + 1
    requires forall j: Job :: j < n && j != mine ==> JobWork(s', j) == JobWork(s, j)
    ensures TotalWork(s, n) == TotalWork(s', n) + 1
  {
    if mine == n - 1 {
      TotalUnchanged(s, s', n - 1);
    } else {
      TotalOneLess(s, s', n - 1, mine);
    }
  }

  /** A job that a step does not touch costs what it did. */
  lemma UntouchedJobWork(s: State, s': State, j: Job)
    requires Exclusive(s) && Exclusive(s')
    requires (j in s.retries <==> j in s'.retries) && (j in s.retries ==> s.retries[j] == s'.retries[j])
    requires j in s.queue <==> j in s'.queue
    requires forall w :: Holds(s, w, j) <==> Holds(s', w, j)
    requires forall w :: Holds(s, w, j) ==> s.pc[w] == s'.pc[w]
    ensures JobWork(s', j) == JobWork(s, j)
  {
    assert (exists w :: Holds(s, w, j)) <==> exists w :: Holds(s', w, j);
  }

  ghost function JobOf(s: State, a: Action): Job
    requires Enabled(s, a) && WorkerStep(a)
  {
    match a
    case Pop(w) => s.queue[0]
    case Execute(w, _) => s.pc[w].job
    case Settle(w) => s.pc[w].job
  }

  lemma OwnJobCostsOne(s: State, a: Action)
    requires Inv(s) && Enabled(s, a) && WorkerStep(a)
    ensures var s' := Step(s, a);
            JobOf(s, a) < s.created && JobWork(s, JobOf(s, a)) == JobWork(s', JobOf(s, a)) + 1
  {
    var s', mine := Step(s, a), JobOf(s, a);
    StepKeepsInv(s, a);
    match a
    case Pop(w) =>
      assert Somewhere(s, mine);
      assert Holds(s', w, mine);
    case Execute(w, final) =>
      assert Holds(s, w, mine) && Somewhere(s, mine) && Holds(s', w, mine);
    case Settle(w) =>
      assert Holds(s, w, mine) && Somewhere(s, mine);
      assert forall v :: v != w && Holds(s', v, mine) ==> Holds(s, v, mine);
  }

  lemma OtherJobsCostTheSame(s: State, a: Action, j: Job)
    requires Inv(s) && Enabled(s, a) && WorkerStep(a) && j != JobOf(s, a)
    ensures JobWork(Step(s, a), j) == JobWork(s, j)
  {
    var s' := Step(s, a);
    StepKeepsInv(s, a);
    assert forall w :: Holds(s, w, j) <==> Holds(s', w, j);
    if a.Pop? {
      assert s.queue == [s.queue[0]] + s.queue[1..];
    }
    UntouchedJobWork(s, s', j);
  }

  /** Every pop, execution and settlement takes exactly one step off the remaining work. */
  lemma WorkerStepCostsOne(s: State, a: Action)
    requires Inv(s) && Enabled(s, a) && WorkerStep(a)
    ensures Work(s) == Work(Step(s, a)) + 1
  {
    OwnJobCostsOne(s, a);
    forall j: Job | j < s.created && j != JobOf(s, a) ensures JobWork(Step(s, a), j) == JobWork(s, j) {
      OtherJobsCostTheSame(s, a, j);
    }
    TotalOneLess(s, Step(s, a), s.created, JobOf(s, a));
  }

  /** The workers left alone: from state s, any interleaving of worker steps. */
  ghost predicate IsWorkRun(run: seq<State>, s: State) {
    && run != [] && run[0] == s
    && forall i: nat :: i < |run| - 1 ==> WorkerStepAt(run, i)
  }

  ghost predicate WorkerStepAt(run: seq<State>, i: nat) {
    i + 1 < |run| && exists a :: Enabled(run[i], a) && WorkerStep(a) && run[i + 1] == Step(run[i], a)
  }

  lemma WorkRunStep(run: seq<State>, s: State, n: nat)
    requires IsWorkRun(run, s) && n + 1 < |run| && Inv(run[n])
    ensures Inv(run[n + 1]) && Work(run[n]) == Work(run[n + 1]) + 1
  {
    assert WorkerStepAt(run, n);
    var a :| Enabled(run[n], a) && WorkerStep(a) && run[n + 1] == Step(run[n], a);
    StepKeepsInv(run[n], a);
    WorkerStepCostsOne(run[n], a);
  }

  /** Termination: when every job answers NOT_FINISHED finitely often, every interleaving of the workers makes
      exactly as many steps as the work it removes, so none is longer than the work at its start. */
  lemma {:induction false} WorkRunsEnd(run: seq<State>, s: State, n: nat)
    requires Inv(s) && IsWorkRun(run, s) && n < |run|
    ensures Inv(run[n]) && n + Work(run[n]) == Work(s)
  {
    if n > 0 {
      WorkRunsEnd(run, s, n - 1);
      WorkRunStep(run, s, n - 1);
    }
  }

  ghost predicate Staffed(s: State) {
    s.isRun && s.pc != map[] && forall w :: w in s.pc ==> !s.pc[w].Gone? && !s.pc[w].Stopping?
  }

  lemma {:induction false} WorkRunsKeepStaff(run: seq<State>, s: State, n: nat)
    requires Staffed(s) && IsWorkRun(run, s) && n < |run|
    ensures Staffed(run[n]) && run[n].created == s.created
  {
    if n > 0 {
      WorkRunsKeepStaff(run, s, n - 1);
      assert WorkerStepAt(run, n - 1);
      var a :| Enabled(run[n - 1], a) && WorkerStep(a) && run[n] == Step(run[n - 1], a);
      assert run[n].pc.Keys != {};
    }
  }

  /** While the server runs and has workers, no worker being able to step means the queue is empty and every job
      ever created has been deallocated. */
  lemma StuckMeansDone(s: State)
    requires Inv(s) && Staffed(s) && forall a :: WorkerStep(a) ==> !Enabled(s, a)
    ensures s.queue == [] && forall j: Job :: j < s.created ==> j in s.dead
    ensures forall v, j :: !Holds(s, v, j)
  {
    var w :| w in s.pc;
    forall v, j ensures !Holds(s, v, j) {
      assert Holds(s, v, j) ==> Somewhere(s, j) && j in s.retries;
      assert Holds(s, v, j) ==> Enabled(s, Execute(v, ReqSuccess)) || Enabled(s, Settle(v));
    }
    assert s.pc[w].Idle? by {
      assert !s.pc[w].Idle? ==> Holds(s, w, s.pc[w].job);
    }
    assert !Enabled(s, Pop(w));
    forall j: Job | j < s.created ensures j in s.dead {
      assert Somewhere(s, j);
    }
  }

  lemma {:induction false} NothingLeft(s: State, n: nat)
    requires Inv(s) && n <= s.created && s.queue == [] && forall j: Job :: j < s.created ==> j in s.dead
    ensures TotalWork(s, n) == 0
  {
    if n > 0 {
      NothingLeft(s, n - 1);
    }
  }

  /** Together: from any reachable point on, if no more jobs are created and the server keeps running, any
      interleaving of the workers that cannot be continued has made exactly the work's number of steps and
      left the queue empty with every created job deallocated. */
  lemma WorkersFinish(run: seq<State>, m: nat, work: seq<State>)
    requires IsRun(run) && m < |run| && Staffed(run[m])
    requires IsWorkRun(work, run[m])
    requires forall a :: WorkerStep(a) ==> !Enabled(work[|work| - 1], a)
    ensures var last := work[|work| - 1];
            && last.queue == [] && last.created == run[m].created
            && (forall j: Job :: j < last.created ==> j in last.dead)
            && |work| - 1 == Work(run[m])
  {
    QueueInvariant(run, m);
    WorkRunsEnd(work, run[m], |work| - 1);
    WorkRunsKeepStaff(work, run[m], |work| - 1);
    StuckMeansDone(work[|work| - 1]);
    NothingLeft(work[|work| - 1], work[|work| - 1].created);
  }

  /** The workers that may still pop a job. */
  function IdleWorkers(s: State): set<Worker> {
    set w | w in s.pc && s.pc[w].Idle?
  }

  lemma StoppedStepPops(s: State, a: Action)
    requires !s.isRun && Enabled(s, a)
    ensures !Step(s, a).isRun
    ensures |Step(s, a).popLog| + |IdleWorkers(Step(s, a))| <= |s.popLog| + |IdleWorkers(s)|
  {
    var s' := Step(s, a);
    if a.Pop? || a.Leave? {
      assert IdleWorkers(s') == IdleWorkers(s) - {a.w};
    } else {
      assert IdleWorkers(s') == IdleWorkers(s);
    }
  }

  /** Once m_IsRun is false, each worker that was between jobs can still pop one more, since it may have looked before,
      and the others none, however many are queued. */
  lemma {:induction false} StopEndsPopping(run: seq<State>, m: nat, n: nat)
    requires IsRun(run) && m <= n < |run| && !run[m].isRun
    ensures !run[n].isRun
    ensures |run[n].popLog| + |IdleWorkers(run[n])| <= |run[m].popLog| + |IdleWorkers(run[m])|
    ensures forall w :: w in IdleWorkers(run[n]) && run[n].queue != [] ==> Enabled(run[n], Pop(w))
    decreases n - m
  {
    if m < n {
      StopEndsPopping(run, m, n - 1);
      assert StepAt(run, n - 1);
      var a :| Enabled(run[n - 1], a) && run[n] == Step(run[n - 1], a);
      StoppedStepPops(run[n - 1], a);
    }
  }

  ghost predicate AllStay(s: State) {
    s.isRun ==> forall w :: w in s.pc ==> !s.pc[w].Gone? && !s.pc[w].Stopping?
  }

  lemma StepKeepsWorkers(s: State, a: Action)
    requires AllStay(s) && Enabled(s, a)
    ensures AllStay(Step(s, a))
  {
  }

  /** No worker leaves before that. */
  lemma {:induction false} RunningKeepsWorkers(run: seq<State>, n: nat)
    requires IsRun(run) && n < |run|
    ensures run[n].isRun ==> forall w :: w in run[n].pc ==> !run[n].pc[w].Gone? && !run[n].pc[w].Stopping?
  {
    if n > 0 {
      assert StepAt(run, n - 1);
      var a :| Enabled(run[n - 1], a) && run[n] == Step(run[n - 1], a);
      RunningKeepsWorkers(run, n - 1);
      StepKeepsWorkers(run[n - 1], a);
    }
  }

  /** What the destructor's join waits for: when the stopped workers can do no more, all of them are gone, none with a
      job in hand, and every created job is deallocated or still queued. */
  lemma StoppedWorkersLeave(run: seq<State>, n: nat)
    requires IsRun(run) && n < |run| && !run[n].isRun
    requires forall a :: WorkerStep(a) || a.Leave? ==> !Enabled(run[n], a)
    ensures var s := run[n];
            && (forall w :: w in s.pc ==> s.pc[w].Gone?)
            && (forall j: Job :: j < s.created <==> j in s.queue || j in s.dead)
  {
    QueueInvariant(run, n);
    var s := run[n];
    forall w | w in s.pc ensures s.pc[w].Gone? {
      assert !Enabled(s, Leave(w)) && !Enabled(s, Settle(w));
      if s.pc[w].Popped? {
        assert Holds(s, w, s.pc[w].job) && Somewhere(s, s.pc[w].job);
        assert Enabled(s, Execute(w, ReqSuccess));
      }
    }
    forall j: Job ensures j < s.created <==> j in s.queue || j in s.dead {
      assert j < s.created <==> Somewhere(s, j);
    }
  }

  lemma Extend(run: seq<State>, last: State, a: Action) returns (longer: seq<State>, next: State)
    requires IsRun(run) && run[|run| - 1] == last && Enabled(last, a)
    ensures next == Step(last, a) && longer == run + [next]
    ensures IsRun(longer) && longer[|longer| - 1] == next
  {
    next := Step(last, a);
    longer := run + [next];
    forall i: nat | i < |longer| - 1 ensures StepAt(longer, i) {
      if i < |run| - 1 {
        assert StepAt(run, i);
        assert longer[i] == run[i] && longer[i + 1] == run[i + 1];
      } else {
        assert Enabled(longer[i], a) && longer[i + 1] == next;
      }
    }
  }

  /** Two jobs queued, the first of which has answered NOT_FINISHED and gone to the back. */
  lemma FirstJobGoesBack() returns (run: seq<State>, s: State)
    ensures IsRun(run) && run[|run| - 1] == s
    ensures s.isRun && s.queue == [1, 0] && s.dead == [] && s.pc == map[0 := Idle] && s.retries == map[0 := 0, 1 := 0]
  {
    s := State(true, [], map[0 := Idle], [], 0, map[], [], []);
    run := [s];
    run, s := Extend(run, s, Create(1));
    run, s := Extend(run, s, Create(0));
    assert s.queue == [0, 1] && s.retries == map[0 := 1, 1 := 0];
    run, s := Extend(run, s, Pop(0));
    assert s.queue == [1];
    run, s := Extend(run, s, Execute(0, ReqSuccess));
    run, s := Extend(run, s, Settle(0));
  }

  lemma OneTurn(run: seq<State>, s: State) returns (longer: seq<State>, next: State)
    requires IsRun(run) && run[|run| - 1] == s && s.isRun && s.pc == map[0 := Idle] && s.queue != []
    requires s.queue[0] in s.retries && s.retries[s.queue[0]] == 0
    ensures IsRun(longer) && longer[|longer| - 1] == next
    ensures next.isRun && next.pc == map[0 := Idle] && next.retries == s.retries
    ensures next.queue == s.queue[1..] && next.dead == s.dead + [s.queue[0]]
  {
    longer, next := Extend(run, s, Pop(0));
    longer, next := Extend(longer, next, Execute(0, ReqSuccess));
    longer, next := Extend(longer, next, Settle(0));
  }

  /** A retried job is finished after a later one, even with one worker. RetryOrders says exactly when. */
  lemma RetriedJobIsOvertaken() returns (run: seq<State>)
    ensures IsRun(run)
    ensures var s := run[|run| - 1]; s.queue == [] && s.dead == [1, 0]
  {
    var s;
    run, s := FirstJobGoesBack();
    run, s := OneTurn(run, s);
    run, s := OneTurn(run, s);
  }
}
