/** AsyncLock: a SemaphoreSlim(1, 1) whose acquisitions are handed out as disposable handles. */
module AsyncLocks {

  const MAX_COUNT: nat := 1

  class Semaphore {
    var count: nat

    constructor ()
      ensures count == 1
    {
      count := 1;
    }
  }

  /** The handle's class. */
  class Handler {
    const semaphore: Semaphore
    var disposed: bool

    constructor (semaphore: Semaphore)
      ensures this.semaphore == semaphore && !disposed
    {
      this.semaphore, disposed := semaphore, false;
    }

    /** Dispose any number of times: only the first one releases. Full is SemaphoreFullException. */
    method Dispose() returns (full: bool)
      modifies this, semaphore
      ensures full == (!old(disposed) && old(semaphore.count) >= MAX_COUNT)
      ensures disposed == !full
      ensures semaphore.count == old(semaphore.count) + (if old(disposed) || full then 0 else 1)
    {
      if !disposed {
        if semaphore.count >= MAX_COUNT {
          return true;
        }
        semaphore.count := semaphore.count + 1;
        disposed := true;
      }
      return false;
    }
  }

  class AsyncLock {
    const semaphore: Semaphore

    constructor ()
      ensures fresh(semaphore) && semaphore.count == 1
    {
      semaphore := new Semaphore();
    }

    /** An immediate attempt: a handle, or null when the permit is out. */
    method TryLockAsync() returns (handle: Handler?)
      modifies semaphore
      ensures handle == null <==> old(semaphore.count) == 0
      ensures handle == null ==> semaphore.count == old(semaphore.count)
      ensures handle != null ==> && fresh(handle) && handle.semaphore == semaphore && !handle.disposed
                                 && semaphore.count == old(semaphore.count) - 1
    {
      if semaphore.count == 0 {
        return null;
      }
      semaphore.count := semaphore.count - 1;
      handle := new Handler(semaphore);
    }
  }

  type Flow = nat

  type Handle = nat

  /** A flow of execution: idle, waiting in LockAsync, or holding a handle. Dispose checks the flag, releases,
      and only then sets the flag. */
  datatype Pc = Idle | Queued | Using(h: Handle) | Releasing(h: Handle) | Marking(h: Handle)

  /** disposed[h] is the flag of the h-th handle given out. */
  datatype State = State(count: nat, disposed: seq<bool>, pc: map<Flow, Pc>, faulted: bool)

  datatype Action =
    | Wait                  // LockAsync begins
    | Acquire               // a waiter gets the permit
    | TryLock               // TryLockAsync
    | CheckDisposed         // Dispose reads the flag
    | ReleasePermit         // and releases
    | Mark                  // and sets the flag
    | Forget                // the handle goes out of use after its disposal

  ghost predicate Init(s: State) {
    s == State(1, [], s.pc, false) && forall f :: f in s.pc ==> s.pc[f] == Idle
  }

  ghost predicate Enabled(s: State, f: Flow, a: Action) {
    f in s.pc &&
    match a
    case Wait => s.pc[f] == Idle
    case Acquire => s.pc[f] == Queued && s.count > 0
    case TryLock => s.pc[f] == Idle
    case CheckDisposed => s.pc[f].Using? && s.pc[f].h < |s.disposed|
    case ReleasePermit => s.pc[f].Releasing?
    case Mark => s.pc[f].Marking? && s.pc[f].h < |s.disposed|
    case Forget => s.pc[f].Using? && s.pc[f].h < |s.disposed| && s.disposed[s.pc[f].h]
  }

  ghost function Grant(s: State, f: Flow): State
    requires s.count > 0
  {
    State(s.count - 1, s.disposed + [false], s.pc[f := Using(|s.disposed|)], s.faulted)
  }

  ghost function Step(s: State, f: Flow, a: Action): State
    requires Enabled(s, f, a)
  {
    match a
    case Wait => s.(pc := s.pc[f := Queued])
    case Acquire => Grant(s, f)
    case TryLock => if s.count > 0 then Grant(s, f) else s
    case CheckDisposed =>
      if s.disposed[s.pc[f].h] then s else s.(pc := s.pc[f := Releasing(s.pc[f].h)])
    case ReleasePermit =>
      if s.count >= MAX_COUNT then s.(faulted := true)
      else s.(count := s.count + 1, pc := s.pc[f := Marking(s.pc[f].h)])
    case Mark => s.(disposed := s.disposed[s.pc[f].h := true], pc := s.pc[f := Using(s.pc[f].h)])
    case Forget => s.(pc := s.pc[f := Idle])
  }

  ghost predicate StepAt(run: seq<State>, i: nat) {
    i + 1 < |run| && exists f, a :: Enabled(run[i], f, a) && run[i + 1] == Step(run[i], f, a)
  }

  ghost predicate IsRun(run: seq<State>) {
    && run != [] && Init(run[0])
    && forall i: nat :: i < |run| - 1 ==> StepAt(run, i)
  }

  ghost predicate Has(p: Pc, h: Handle) {
    p == Using(h) || p == Releasing(h) || p == Marking(h)
  }

  /** The flow is inside its critical section: it has a handle that has not been released. */
  ghost predicate Inside(s: State, f: Flow) {
    && f in s.pc
    && ((s.pc[f].Using? && s.pc[f].h < |s.disposed| && !s.disposed[s.pc[f].h]) || s.pc[f].Releasing?)
  }

  ghost predicate HasHandle(s: State, f: Flow, h: Handle) {
    f in s.pc && Has(s.pc[f], h)
  }

  ghost predicate Inv(s: State) {
    && (forall f, h: Handle :: HasHandle(s, f, h) ==> h < |s.disposed|)
    && (forall f, g, h: Handle :: HasHandle(s, f, h) && HasHandle(s, g, h) ==> f == g)
    && (forall f, g :: Inside(s, f) && Inside(s, g) ==> f == g)
    && s.count <= 1
    && (s.count == 0 <==> exists f :: Inside(s, f))
    && !s.faulted
  }

  /** The stepping flow keeps its handle, drops it, or is granted the next one. */
  lemma OwnHandle(s: State, f: Flow, a: Action, h: Handle)
    requires Inv(s) && Enabled(s, f, a) && HasHandle(Step(s, f, a), f, h)
    ensures h < |Step(s, f, a).disposed| && (HasHandle(s, f, h) || h == |s.disposed|)
  {
    var s' := Step(s, f, a);
    if (a.Acquire? || a.TryLock?) && s.count > 0 {
      assert s'.pc[f] == Using(|s.disposed|);
    } else {
      assert |s'.disposed| == |s.disposed|;
      assert HasHandle(s, f, h);
    }
  }

  lemma StepKeepsInv(s: State, f: Flow, a: Action)
    requires Inv(s) && Enabled(s, f, a)
    ensures Inv(Step(s, f, a))
  {
    var s' := Step(s, f, a);
    assert a.ReleasePermit? ==> Inside(s, f);
    assert forall g, h: Handle :: g != f ==> (HasHandle(s', g, h) <==> HasHandle(s, g, h));
    forall h: Handle | HasHandle(s', f, h)
      ensures h < |s'.disposed| && (HasHandle(s, f, h) || h == |s.disposed|)
    {
      OwnHandle(s, f, a, h);
    }
    forall g | g != f ensures Inside(s', g) <==> Inside(s, g) {
      if a.Mark? && g in s.pc && s.pc[g].Using? {
        assert HasHandle(s, f, s.pc[f].h) && HasHandle(s, g, s.pc[g].h);
      }
      if g in s.pc && s.pc[g].Using? {
        assert HasHandle(s, g, s.pc[g].h);
      }
    }
    if g :| Inside(s, g) && g != f {
      assert Inside(s', g);
    }
    assert Inside(s, f) ==> forall g :: Inside(s, g) ==> g == f;
    assert Inside(s', f) && !Inside(s, f) ==> s.count > 0;
  }

  /** AsyncLock safety, for any number of flows: at most one flow is inside, the permit is out exactly then, no
      two flows share a handle, and the semaphore is never released beyond its one permit, however often
      each handle is disposed. */
  lemma {:induction false} LockSafety(run: seq<State>, n: nat)
    requires IsRun(run) && n < |run|
    ensures Inv(run[n])
  {
    if n > 0 {
      LockSafety(run, n - 1);
      assert StepAt(run, n - 1);
      var f, a :| Enabled(run[n - 1], f, a) && run[n] == Step(run[n - 1], f, a);
      StepKeepsInv(run[n - 1], f, a);
    }
  }

  /** The lock is there to be had: an immediate attempt gets a handle, and a waiter can be granted one, exactly when no
      flow is inside. */
  lemma GrantedIff(run: seq<State>, n: nat, f: Flow)
    requires IsRun(run) && n < |run| && f in run[n].pc
    ensures var s := run[n];
            && (s.pc[f] == Idle ==>
                  && Enabled(s, f, TryLock)
                  && (Inside(Step(s, f, TryLock), f) <==> forall g :: !Inside(s, g))
                  && (!Inside(Step(s, f, TryLock), f) ==> Step(s, f, TryLock) == s))
            && (s.pc[f] == Queued ==> (Enabled(s, f, Acquire) <==> forall g :: !Inside(s, g)))
            && (Enabled(s, f, Acquire) ==> Inside(Step(s, f, Acquire), f))
  {
    LockSafety(run, n);
  }

  /** And it is given back: disposing a handle goes through and returns the permit, once; disposing it again changes
      nothing. */
  lemma DisposeReturnsPermit(run: seq<State>, n: nat, f: Flow)
    requires IsRun(run) && n < |run| && f in run[n].pc && run[n].pc[f].Using?
    ensures var s, h := run[n], run[n].pc[f].h;
            && h < |s.disposed| && Enabled(s, f, CheckDisposed)
            && (s.disposed[h] ==> Step(s, f, CheckDisposed) == s)
            && (!s.disposed[h] ==>
                  var checked := Step(s, f, CheckDisposed);
                  && s.count == 0 && Enabled(checked, f, ReleasePermit)
                  && var released := Step(checked, f, ReleasePermit);
                     && Enabled(released, f, Mark)
                     && Step(released, f, Mark) == s.(count := 1, disposed := s.disposed[h := true]))
  {
    LockSafety(run, n);
    var s := run[n];
    assert HasHandle(s, f, s.pc[f].h);
    if !s.disposed[s.pc[f].h] {
      assert Inside(s, f);
      assert s.pc[f := s.pc[f]] == s.pc;
    }
  }

  /** The handle is disposed and no flow is on its way to release it. */
  ghost predicate Settled(s: State, h: Handle) {
    && h < |s.disposed| && s.disposed[h]
    && forall f :: f in s.pc ==> s.pc[f] != Releasing(h) && s.pc[f] != Marking(h)
  }

  lemma StepSettles(s: State, f: Flow, a: Action, h: Handle)
    requires Inv(s) && Enabled(s, f, a)
    requires h < |s.disposed| && (s.disposed[h] ==> Settled(s, h))
    ensures Step(s, f, a).disposed[h] ==> Settled(Step(s, f, a), h)
    ensures s.disposed[h] ==> Step(s, f, a).disposed[h]
  {
    var s' := Step(s, f, a);
    forall g | g in s'.pc && s'.disposed[h] ensures s'.pc[g] != Releasing(h) && s'.pc[g] != Marking(h) {
      if g != f && !s.disposed[h] {
        assert HasHandle(s, f, h);
        assert HasHandle(s, g, h) ==> g == f;
      }
    }
  }

  lemma {:induction false} DisposedIsSettled(run: seq<State>, n: nat, h: Handle)
    requires IsRun(run) && n < |run| && h < |run[n].disposed| && run[n].disposed[h]
    ensures Settled(run[n], h)
  {
    if n > 0 {
      assert StepAt(run, n - 1);
      var f, a :| Enabled(run[n - 1], f, a) && run[n] == Step(run[n - 1], f, a);
      LockSafety(run, n - 1);
      if run[n - 1].disposed[h] {
        DisposedIsSettled(run, n - 1, h);
      }
      StepSettles(run[n - 1], f, a, h);
    }
  }

  /** Dispose releases once: from the moment its flag is set, a handle stays disposed and no flow ever gets to
      release it again. */
  lemma {:induction false} DisposedForGood(run: seq<State>, m: nat, n: nat, h: Handle)
    requires IsRun(run) && m <= n < |run| && h < |run[m].disposed| && run[m].disposed[h]
    ensures Settled(run[n], h)
    decreases n - m
  {
    if m < n {
      DisposedForGood(run, m, n - 1, h);
      assert StepAt(run, n - 1);
      var f, a :| Enabled(run[n - 1], f, a) && run[n] == Step(run[n - 1], f, a);
      LockSafety(run, n - 1);
      StepSettles(run[n - 1], f, a, h);
    } else {
      DisposedIsSettled(run, m, h);
    }
  }
}
