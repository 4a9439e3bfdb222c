/** In which order the retry queue begins and finishes its jobs. */
module RetryOrders {
  import opened Collections
  import opened RetryQueues

  /** A job still to be finished and how many more times it will answer NOT_FINISHED. */
  datatype Entry = Entry(job: Job, left: nat)

  function Load(q: seq<Entry>): nat {
    if q == [] then 0 else q[0].left + Load(q[1..])
  }

  lemma {:induction false} LoadAppend(q: seq<Entry>, e: Entry)
    ensures Load(q + [e]) == Load(q) + e.left
  {
    if q == [] {
      assert q + [e] == [e];
    } else {
      LoadAppend(q[1..], e);
      assert (q + [e])[1..] == q[1..] + [e];
    }
  }

  /** The order in which one turn after another finishes a queue: the head is finished or goes to the back. */
  function Finished(q: seq<Entry>): seq<Job>
    decreases Load(q), |q|
  {
    if q == [] then []
    else if q[0].left == 0 then [q[0].job] + Finished(q[1..])
    else
      var back := Entry(q[0].job, q[0].left - 1);
      LoadAppend(q[1..], back);
      Finished(q[1..] + [back])
  }

  function Jobs(q: seq<Entry>): (jobs: seq<Job>)
    ensures |jobs| == |q| && forall i :: 0 <= i < |q| ==> jobs[i] == q[i].job
  {
    if q == [] then [] else [q[0].job] + Jobs(q[1..])
  }

  ghost predicate Distinct(q: seq<Entry>) {
    forall i, k :: 0 <= i < k < |q| ==> q[i].job != q[k].job
  }

  ghost predicate NonDecreasing(q: seq<Entry>) {
    forall i, k :: 0 <= i < k < |q| ==> q[i].left <= q[k].left
  }

  /** It is finished in its own order. */
  ghost predicate InOrder(q: seq<Entry>) {
    Finished(q) == Jobs(q)
  }

  ghost predicate AllRetry(q: seq<Entry>) {
    forall i :: 0 <= i < |q| ==> q[i].left > 0
  }

  /** Everyone has been retried once. */
  function OneLess(q: seq<Entry>): (r: seq<Entry>)
    requires AllRetry(q)
    ensures |r| == |q| && forall i :: 0 <= i < |q| ==> r[i] == Entry(q[i].job, q[i].left - 1)
    ensures Load(r) == Load(q) - |q|
  {
    if q == [] then [] else [Entry(q[0].job, q[0].left - 1)] + OneLess(q[1..])
  }

  lemma HeadGoesBack(e: Entry, rest: seq<Entry>)
    requires e.left > 0
    ensures Finished([e] + rest) == Finished(rest + [Entry(e.job, e.left - 1)])
  {
    var q := [e] + rest;
    assert q[1..] == rest;
  }

  /** Jobs at the front that are all retried go to the back, keeping their order. */
  lemma {:induction false} FrontGoesBack(a: seq<Entry>, b: seq<Entry>)
    requires AllRetry(a)
    ensures Finished(a + b) == Finished(b + OneLess(a))
    decreases |a|
  {
    if a == [] {
      assert a + b == b && b + OneLess(a) == b;
    } else {
      var back := Entry(a[0].job, a[0].left - 1);
      FrontGoesBack(a[1..], b + [back]);
      SplitAt(a, 1);
      assert a[..1] == [a[0]];
      Reassociate([a[0]], a[1..], b);
      HeadGoesBack(a[0], a[1..] + b);
      Reassociate(a[1..], b, [back]);
      Reassociate(b, [back], OneLess(a[1..]));
    }
  }

  lemma {:induction false} FirstReady(q: seq<Entry>) returns (z: nat)
    requires !AllRetry(q)
    ensures z < |q| && q[z].left == 0 && AllRetry(q[..z])
  {
    if q[0].left == 0 {
      z := 0;
    } else {
      assert exists i :: 0 <= i < |q[1..]| && q[1..][i].left == 0 by {
        var i :| 0 <= i < |q| && q[i].left == 0;
        assert q[1..][i - 1].left == 0;
      }
      var y := FirstReady(q[1..]);
      z := y + 1;
      assert q[..z] == [q[0]] + q[1..][..y];
    }
  }

  /** When the head must be retried and another job need not, that other one is finished first. */
  lemma HeadIsOvertaken(q: seq<Entry>)
    requires Distinct(q) && q != [] && q[0].left > 0 && !AllRetry(q)
    ensures !InOrder(q)
  {
    var z := FirstReady(q);
    FrontGoesBack(q[..z], q[z..]);
    SplitAt(q, z);
    assert (q[z..] + OneLess(q[..z]))[0] == q[z];
    assert Finished(q)[0] == q[z].job;
  }

  lemma ReadyHeadKeepsOrder(q: seq<Entry>)
    requires q != [] && q[0].left == 0
    ensures InOrder(q) <==> InOrder(q[1..])
    ensures NonDecreasing(q) <==> NonDecreasing(q[1..])
  {
    var f, g := Finished(q[1..]), Jobs(q[1..]);
    assert ([q[0].job] + f)[1..] == f && ([q[0].job] + g)[1..] == g;
    assert forall k :: 1 <= k < |q| ==> q[k] == q[1..][k - 1];
  }

  lemma OneLessSameFinish(q: seq<Entry>)
    requires AllRetry(q)
    ensures Finished(OneLess(q)) == Finished(q)
  {
    var r := OneLess(q);
    FrontGoesBack(q, []);
    assert q + [] == q;
    assert [] + r == r;
  }

  lemma OneLessSameOrder(q: seq<Entry>)
    requires AllRetry(q)
    ensures NonDecreasing(OneLess(q)) <==> NonDecreasing(q)
    ensures Distinct(q) ==> Distinct(OneLess(q))
  {
    var r := OneLess(q);
    assert forall i :: 0 <= i < |q| ==> q[i].left == r[i].left + 1 && q[i].job == r[i].job;
  }

  lemma OneLessKeepsOrder(q: seq<Entry>)
    requires AllRetry(q)
    ensures InOrder(OneLess(q)) <==> InOrder(q)
  {
    OneLessSameFinish(q);
  }

  /** A queue is finished in its own order if and only if no job needs more retries than one behind it. */
  lemma {:induction false} FinishedInOrderIff(q: seq<Entry>)
    requires Distinct(q)
    ensures InOrder(q) <==> NonDecreasing(q)
    decreases Load(q), |q|
  {
    if q == [] {
    } else if q[0].left == 0 {
      FinishedInOrderIff(q[1..]);
      ReadyHeadKeepsOrder(q);
    } else if AllRetry(q) {
      OneLessKeepsOrder(q);
      OneLessSameOrder(q);
      FinishedInOrderIff(OneLess(q));
    } else {
      HeadIsOvertaken(q);
      var z := FirstReady(q);
      assert q[0].left > q[z].left;
    }
  }

  /** The queue with what its jobs still need. */
  function Entries(queue: seq<Job>, retries: map<Job, nat>): (q: seq<Entry>)
    ensures |q| == |queue|
    ensures forall i :: 0 <= i < |queue| ==>
              q[i] == Entry(queue[i], if queue[i] in retries then retries[queue[i]] else 0)
  {
    if queue == [] then []
    else
      [Entry(queue[0], if queue[0] in retries then retries[queue[0]] else 0)] + Entries(queue[1..], retries)
  }

  ghost function Queued(s: State): seq<Entry> {
    Entries(s.queue, s.retries)
  }

  /** No two workers have a job in hand. */
  ghost predicate OneAtATime(s: State) {
    forall v, w, j, k :: Holds(s, v, j) && Holds(s, w, k) ==> v == w
  }

  ghost predicate NoneInHand(s: State) {
    forall w, j :: !Holds(s, w, j)
  }

  /** What is still to be finished, in the order it will be, while w is the only worker with a job in hand. */
  ghost function ToFinishBy(s: State, w: Worker): seq<Job>
    requires w in s.pc && s.pc[w].Popped? ==> s.pc[w].job in s.retries
    requires w in s.pc && s.pc[w].Executed? ==> s.pc[w].job in s.retries
  {
    if w !in s.pc then Finished(Queued(s))
    else match s.pc[w]
      case Popped(j) => Finished([Entry(j, s.retries[j])] + Queued(s))
      case Executed(j, code) =>
        if code == NotFinished then Finished(Queued(s) + [Entry(j, s.retries[j])]) else [j] + Finished(Queued(s))
      case _ => Finished(Queued(s))
  }

  lemma PopKeepsOrder(s: State, w: Worker)
    requires Inv(s) && Enabled(s, Pop(w))
    ensures Somewhere(s, s.queue[0]) && s.queue[0] in s.retries
    ensures ToFinishBy(Step(s, Pop(w)), w) == Finished(Queued(s)) && Step(s, Pop(w)).dead == s.dead
  {
    assert Somewhere(s, s.queue[0]);
  }

  lemma ExecuteKeepsOrder(s: State, w: Worker, final: InfoCode)
    requires Inv(s) && Enabled(s, Execute(w, final))
    ensures ToFinishBy(Step(s, Execute(w, final)), w) == ToFinishBy(s, w)
    ensures Step(s, Execute(w, final)).dead == s.dead
  {
    var s', j := Step(s, Execute(w, final)), s.pc[w].job;
    assert Holds(s, w, j);
    assert Queued(s') == Queued(s);
    var q := [Entry(j, s.retries[j])] + Queued(s);
    assert q[1..] == Queued(s);
  }

  lemma SettleKeepsOrder(s: State, w: Worker)
    requires Inv(s) && Enabled(s, Settle(w))
    ensures s.pc[w].job in s.retries
    ensures Step(s, Settle(w)).dead + Finished(Queued(Step(s, Settle(w)))) == s.dead + ToFinishBy(s, w)
  {
    var s', j := Step(s, Settle(w)), s.pc[w].job;
    assert Holds(s, w, j) && Somewhere(s, j);
    if s.pc[w].code == NotFinished {
      assert Queued(s') == Queued(s) + [Entry(j, s.retries[j])];
    } else {
      Reassociate(s.dead, [j], Finished(Queued(s)));
    }
  }

  /** The jobs finished so far, then the rest in the order they will be finished, make up goal. */
  ghost predicate Heading(s: State, goal: seq<Job>) {
    && (NoneInHand(s) ==> s.dead + Finished(Queued(s)) == goal)
    && (forall w, j :: Holds(s, w, j) ==> j in s.retries && s.dead + ToFinishBy(s, w) == goal)
  }

  lemma StepKeepsHeading(s: State, a: Action, goal: seq<Job>)
    requires Inv(s) && Enabled(s, a) && WorkerStep(a)
    requires OneAtATime(s) && OneAtATime(Step(s, a)) && Heading(s, goal)
    ensures Heading(Step(s, a), goal)
  {
    var s' := Step(s, a);
    match a
    case Pop(w) =>
      PopKeepsOrder(s, w);
      assert Holds(s', w, s.queue[0]);
      assert forall v, j :: Holds(s, v, j) ==> Holds(s', v, j);
      assert forall v, j :: Holds(s', v, j) ==> v == w;
    case Execute(w, final) =>
      ExecuteKeepsOrder(s, w, final);
      assert Holds(s, w, s.pc[w].job) && Holds(s', w, s.pc[w].job);
    case Settle(w) =>
      SettleKeepsOrder(s, w);
      assert Holds(s, w, s.pc[w].job);
      assert forall v, j :: Holds(s', v, j) ==> Holds(s, v, j) && v != w;
  }

  lemma NextKeepsHeading(s: State, s': State, goal: seq<Job>)
    requires Inv(s) && OneAtATime(s) && OneAtATime(s') && Heading(s, goal)
    requires exists a :: Enabled(s, a) && WorkerStep(a) && s' == Step(s, a)
    ensures Heading(s', goal)
  {
    var a :| Enabled(s, a) && WorkerStep(a) && s' == Step(s, a);
    StepKeepsHeading(s, a, goal);
  }

  lemma {:induction false} WorkRunKeepsHeading(run: seq<State>, s: State, n: nat, goal: seq<Job>)
    requires Inv(s) && IsWorkRun(run, s) && n < |run| && Heading(s, goal)
    requires forall i :: 0 <= i < |run| ==> OneAtATime(run[i])
    ensures Heading(run[n], goal)
  {
    if n > 0 {
      WorkRunKeepsHeading(run, s, n - 1, goal);
      WorkRunsEnd(run, s, n - 1);
      assert WorkerStepAt(run, n - 1);
      NextKeepsHeading(run[n - 1], run[n], goal);
    }
  }

  lemma HeadingArrives(last: State, goal: seq<Job>)
    requires Heading(last, goal) && NoneInHand(last) && last.queue == []
    ensures last.dead == goal
  {
    assert last.dead + [] == last.dead;
  }

  lemma QueueDecides(s: State, dead: seq<Job>)
    requires Exclusive(s) && dead == s.dead + Finished(Queued(s))
    ensures dead == s.dead + s.queue <==> NonDecreasing(Queued(s))
  {
    var q := Queued(s);
    FinishedInOrderIff(q);
    assert Jobs(q) == s.queue;
    CancelLeft(s.dead, Finished(q), s.queue);
  }

  /** Order exactly, as long as no two workers have a job in hand at once: from any reachable moment with all hands
      empty until queue and hands are empty again, the queued jobs are finished in queue order if and only if no
      job needs more retries than one queued behind it. */
  lemma QueueFinishedInOrderIff(run: seq<State>, m: nat, work: seq<State>)
    requires IsRun(run) && m < |run| && NoneInHand(run[m]) && IsWorkRun(work, run[m])
    requires forall i :: 0 <= i < |work| ==> OneAtATime(work[i])
    requires work[|work| - 1].queue == [] && NoneInHand(work[|work| - 1])
    ensures work[|work| - 1].dead == run[m].dead + run[m].queue <==> NonDecreasing(Queued(run[m]))
  {
    var s, last := run[m], work[|work| - 1];
    QueueInvariant(run, m);
    var goal := s.dead + Finished(Queued(s));
    assert Heading(s, goal);
    WorkRunKeepsHeading(work, s, |work| - 1, goal);
    HeadingArrives(last, goal);
    QueueDecides(s, last.dead);
  }

  /** Before the first pop the queue holds the created jobs in order. */
  ghost predicate Untouched(s: State) {
    s.popLog == [] ==> s.dead == [] && NoneInHand(s) && |s.queue| == s.created
                       && forall i :: 0 <= i < s.created ==> s.queue[i] == i
  }

  lemma {:induction false} UntouchedUntilPop(run: seq<State>, n: nat)
    requires IsRun(run) && n < |run|
    ensures Untouched(run[n])
  {
    if n > 0 {
      UntouchedUntilPop(run, n - 1);
      assert StepAt(run, n - 1);
      var a :| Enabled(run[n - 1], a) && run[n] == Step(run[n - 1], a);
      if run[n].popLog == [] {
        assert !a.Pop? && run[n - 1].popLog == [];
        assert a.Settle? ==> Holds(run[n - 1], a.w, run[n - 1].pc[a.w].job);
        assert a.Execute? ==> Holds(run[n - 1], a.w, run[n - 1].pc[a.w].job);
        forall w, j ensures !Holds(run[n], w, j) {
          assert !Holds(run[n - 1], w, j);
        }
      }
    }
  }

  /** All jobs of a batch are deallocated, each at its own place. */
  ghost predicate InCreationOrder(s: State) {
    |s.dead| == s.created && forall j :: 0 <= j < s.created ==> s.dead[j] == j
  }

  lemma {:induction false} OneWorkerAlone(run: seq<State>, s: State, n: nat, w: Worker)
    requires s.pc.Keys == {w} && IsWorkRun(run, s) && n < |run|
    ensures run[n].pc.Keys == {w} && OneAtATime(run[n])
  {
    if n > 0 {
      OneWorkerAlone(run, s, n - 1, w);
      assert WorkerStepAt(run, n - 1);
      var a :| Enabled(run[n - 1], a) && WorkerStep(a) && run[n] == Step(run[n - 1], a);
    }
    assert forall v, j :: Holds(run[n], v, j) ==> v in run[n].pc.Keys;
  }

  lemma BatchFinished(s: State, last: State)
    requires s.dead == [] && |s.queue| == s.created && forall i :: 0 <= i < s.created ==> s.queue[i] == i
    requires last.created == s.created
    ensures InCreationOrder(last) <==> last.dead == s.dead + s.queue
  {
    assert s.dead + s.queue == s.queue;
  }

  lemma BatchOrder(s: State)
    requires Inv(s) && s.dead == [] && |s.queue| == s.created && forall i :: 0 <= i < s.created ==> s.queue[i] == i
    ensures forall j: Job :: j < s.created ==> j in s.retries
    ensures NonDecreasing(Queued(s)) <==> forall i: Job, j: Job :: i < j < s.created ==> s.retries[i] <= s.retries[j]
  {
    var q := Queued(s);
    assert forall j: Job :: j < s.created ==> q[j] == Entry(j, s.retries[j]);
  }

  /** One worker and a batch queued before its first pop: the jobs are deallocated in the order they were created if
      and only if their retry counts do not decrease. */
  lemma OneWorkerKeepsOrderIff(run: seq<State>, m: nat, w: Worker, work: seq<State>)
    requires IsRun(run) && m < |run| && run[m].popLog == []
    requires Staffed(run[m]) && run[m].pc.Keys == {w}
    requires IsWorkRun(work, run[m]) && forall a :: WorkerStep(a) ==> !Enabled(work[|work| - 1], a)
    ensures var s := run[m];
            && (forall j: Job :: j < s.created ==> j in s.retries)
            && (InCreationOrder(work[|work| - 1]) <==>
                  forall i: Job, j: Job :: i < j < s.created ==> s.retries[i] <= s.retries[j])
  {
    var s, last := run[m], work[|work| - 1];
    QueueInvariant(run, m);
    UntouchedUntilPop(run, m);
    WorkRunsEnd(work, s, |work| - 1);
    WorkRunsKeepStaff(work, s, |work| - 1);
    StuckMeansDone(last);
    forall i | 0 <= i < |work| ensures OneAtATime(work[i]) {
      OneWorkerAlone(work, s, i, w);
    }
    QueueFinishedInOrderIff(run, m, work);
    BatchFinished(s, last);
    BatchOrder(s);
  }

  /** A job's first pop comes after the first pops of all jobs created before it. */
  ghost predicate BegunInOrder(log: seq<Job>) {
    forall p, i: Job :: 0 <= p < |log| && i < log[p] ==> i in log[..p]
  }

  ghost predicate PushedInOrder(s: State) {
    BegunInOrder(s.pushLog) && forall i: Job :: i < s.created ==> i in s.pushLog
  }

  lemma PushKeepsOrder(log: seq<Job>, j: Job)
    requires BegunInOrder(log) && forall i: Job :: i < j ==> i in log
    ensures BegunInOrder(log + [j])
  {
    forall p, i: Job | 0 <= p < |log + [j]| && i < (log + [j])[p] ensures i in (log + [j])[..p] {
      assert (log + [j])[..p] == log[..p];
      assert log[..|log|] == log;
    }
  }

  lemma {:induction false} AllPushedInOrder(run: seq<State>, n: nat)
    requires IsRun(run) && n < |run|
    ensures PushedInOrder(run[n])
  {
    if n > 0 {
      AllPushedInOrder(run, n - 1);
      QueueInvariant(run, n - 1);
      var s := run[n - 1];
      assert StepAt(run, n - 1);
      var a :| Enabled(s, a) && run[n] == Step(s, a);
      if a.Create? {
        PushKeepsOrder(s.pushLog, s.created);
      } else if a.Settle? {
        assert Holds(s, a.w, s.pc[a.w].job) && Somewhere(s, s.pc[a.w].job);
        PushKeepsOrder(s.pushLog, s.pc[a.w].job);
      }
    }
  }

  /** Any number of workers: jobs are begun in the order they were created, however often they are retried. */
  lemma JobsBeginInOrder(run: seq<State>, n: nat)
    requires IsRun(run) && n < |run|
    ensures BegunInOrder(run[n].popLog)
  {
    AllPushedInOrder(run, n);
    QueueInvariant(run, n);
    var s := run[n];
    forall p, i: Job | 0 <= p < |s.popLog| && i < s.popLog[p] ensures i in s.popLog[..p] {
      assert s.pushLog[p] == s.popLog[p];
      assert s.pushLog[..p] == s.popLog[..p];
    }
  }

  lemma {:induction false} DeadWerePopped(run: seq<State>, n: nat)
    requires IsRun(run) && n < |run|
    ensures forall j :: j in run[n].dead ==> j in run[n].popLog
    ensures forall w, j :: Holds(run[n], w, j) ==> j in run[n].popLog
  {
    if n > 0 {
      DeadWerePopped(run, n - 1);
      var s := run[n - 1];
      assert StepAt(run, n - 1);
      var a :| Enabled(s, a) && run[n] == Step(s, a);
      assert a.Settle? || a.Execute? ==> Holds(s, a.w, s.pc[a.w].job);
      assert forall v, j :: Holds(run[n], v, j) ==> Holds(s, v, j) || (a.Pop? && j == s.queue[0]);
    }
  }

  /** Any number of workers: a job that a later one has overtaken has been begun. So it is in a worker's hands, or
      it has been retried and is queued again. */
  lemma OvertakenWereBegun(run: seq<State>, n: nat, i: Job, j: Job)
    requires IsRun(run) && n < |run| && i < j && j in run[n].dead && i !in run[n].dead
    ensures i in run[n].popLog
    ensures i in run[n].queue || exists w :: Holds(run[n], w, i)
  {
    QueueInvariant(run, n);
    DeadWerePopped(run, n);
    JobsBeginInOrder(run, n);
    var p :| 0 <= p < |run[n].popLog| && run[n].popLog[p] == j;
    assert i in run[n].popLog[..p];
    assert Somewhere(run[n], j);
    assert Somewhere(run[n], i);
  }
}
