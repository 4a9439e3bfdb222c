/** SpinLock and SpinLockGuard for any number of threads. The flag is true while the lock is free. */
module SpinLocks {

  /** What one pass of the spin sees: the flag's value at that moment, and whether a weak exchange that
      should have succeeded fails spuriously. */
  datatype Attempt = Attempt(flag: bool, spurious: bool)

  /** compare_exchange_weak(expected, false): the answer, and the value left in expected. */
  function ExchangeWeak(a: Attempt, expected: bool): (bool, bool) {
    if a.flag == expected && !a.spurious then (true, expected) else (false, a.flag)
  }

  /** The lock was free and the exchange went through. */
  predicate Wins(a: Attempt) {
    a.flag && !a.spurious
  }

  class SpinLock {
    var flag: bool

    constructor ()
      ensures flag
    {
      flag := true;
    }

    /** The spin. Before each attempt other threads leave the flag as the attempt says. It stops at the first attempt
        that finds the lock free, never at one that finds it taken, and takes the flag down; until then it leaves
        the flag as the others have it. */
    method Spin(attempts: seq<Attempt>) returns (won: bool, at: nat)
      modifies this
      ensures won ==> at < |attempts| && Wins(attempts[at]) && !flag
      ensures forall i :: 0 <= i < (if won then at else |attempts|) ==> !Wins(attempts[i])
      ensures !won ==> flag == if attempts == [] then old(flag) else attempts[|attempts| - 1].flag
    {
      var expected := true;
      at := 0;
      while at < |attempts|
        invariant at <= |attempts| && expected
        invariant forall i :: 0 <= i < at ==> !Wins(attempts[i])
        invariant flag == if at == 0 then old(flag) else attempts[at - 1].flag
      {
        flag := attempts[at].flag;
        var (ok, left) := ExchangeWeak(attempts[at], expected);
        if ok {
          flag := false;
          return true, at;
        }
        expected := left;
        expected := true;
        at := at + 1;
      }
      return false, at;
    }

    method TryLock() returns (ok: bool)
      modifies this
      ensures ok == old(flag) && !flag
    {
      ok := flag;
      if ok {
        flag := false;
      }
    }

    method Unlock()
      modifies this
      ensures flag
    {
      flag := true;
    }
  }

  class SpinLockGuard {
    const lock: SpinLock
    var locked: bool

    /** The try_to_lock constructor. */
    constructor Try(lock: SpinLock)
      modifies lock
      ensures this.lock == lock && locked == old(lock.flag) && !lock.flag
    {
      this.lock, locked := lock, false;
      new;
      var ok := lock.TryLock();
      if ok {
        locked := true;
      }
    }

    /** Early unlock: gives the lock back once, and never one that is not held. */
    method Unlock()
      modifies this, lock
      ensures !locked
      ensures lock.flag == if old(locked) then true else old(lock.flag)
    {
      if locked {
        lock.Unlock();
        locked := false;
      }
    }

    /** The destructor, which leaves locked as it is. */
    method Destroy()
      modifies lock
      ensures lock.flag == if locked then true else old(lock.flag)
    {
      if locked {
        lock.Unlock();
      }
    }
  }

  type Guard = nat

  /** A guard's life: not built; in the lock loop, about to exchange or about to reset expected; in the
      try constructor; built, locked or not; between the two writes of unlock; destroyed. */
  datatype Pc =
    | Unbuilt
    | Exchanging(expected: bool)
    | Resetting
    | Trying
    | Built(locked: bool)
    | Unlocking
    | Destroyed

  datatype State = State(flag: bool, pc: map<Guard, Pc>)

  datatype Action =
    | StartLock
    | Exchange(spurious: bool)
    | Reset
    | StartTry
    | TryExchange
    | UnlockStore          // flag.store(true) of an early unlock
    | UnlockClear          // locked = false after it
    | Destroy

  ghost predicate Init(s: State) {
    s.flag && forall g :: g in s.pc ==> s.pc[g] == Unbuilt
  }

  ghost predicate Enabled(s: State, g: Guard, a: Action) {
    g in s.pc &&
    match a
    case StartLock => s.pc[g] == Unbuilt
    case Exchange(_) => s.pc[g].Exchanging?
    case Reset => s.pc[g] == Resetting
    case StartTry => s.pc[g] == Unbuilt
    case TryExchange => s.pc[g] == Trying
    case UnlockStore => s.pc[g] == Built(true)
    case UnlockClear => s.pc[g] == Unlocking
    case Destroy => s.pc[g].Built?
  }

  /** With resets false the loop keeps whatever the failed exchange left in expected. */
  ghost function Step(s: State, g: Guard, a: Action, resets: bool): State
    requires Enabled(s, g, a)
  {
    match a
    case StartLock => s.(pc := s.pc[g := Exchanging(true)])
    case Exchange(spurious) =>
      var (ok, left) := ExchangeWeak(Attempt(s.flag, spurious), s.pc[g].expected);
      if ok then State(false, s.pc[g := Built(true)])
      else s.(pc := s.pc[g := if resets then Resetting else Exchanging(left)])
    case Reset => s.(pc := s.pc[g := Exchanging(true)])
    case StartTry => s.(pc := s.pc[g := Trying])
    case TryExchange => State(false, s.pc[g := Built(s.flag)])
    case UnlockStore => State(true, s.pc[g := Unlocking])
    case UnlockClear => s.(pc := s.pc[g := Built(false)])
    case Destroy => State(if s.pc[g].locked then true else s.flag, s.pc[g := Destroyed])
  }

  ghost predicate StepAt(run: seq<State>, i: nat, resets: bool) {
    i + 1 < |run| && exists g, a :: Enabled(run[i], g, a) && run[i + 1] == Step(run[i], g, a, resets)
  }

  ghost predicate IsRun(run: seq<State>, resets: bool) {
    && run != [] && Init(run[0])
    && forall i: nat :: i < |run| - 1 ==> StepAt(run, i, resets)
  }

  /** The guard owns the lock. */
  ghost predicate Owns(s: State, g: Guard) {
    g in s.pc && s.pc[g] == Built(true)
  }

  ghost predicate Inv(s: State) {
    && (!s.flag <==> exists g :: Owns(s, g))
    && (forall g, h :: Owns(s, g) && Owns(s, h) ==> g == h)
    && (forall g :: g in s.pc && s.pc[g].Exchanging? ==> s.pc[g].expected)
  }

  lemma StepKeepsInv(s: State, g: Guard, a: Action)
    requires Inv(s) && Enabled(s, g, a)
    ensures Inv(Step(s, g, a, true))
  {
    var s' := Step(s, g, a, true);
    assert forall h :: h != g ==> (Owns(s', h) <==> Owns(s, h));
    if h :| Owns(s, h) && h != g {
      assert Owns(s', h);
    }
    assert Owns(s, g) ==> forall h :: Owns(s, h) ==> h == g;
    assert Owns(s', g) && !Owns(s, g) ==> s.flag;
  }

  /** Spin lock mutual exclusion, for any number of guards, any interleaving and any spurious failures: the flag is
      down exactly while one guard owns the lock, and no two ever do. */
  lemma {:induction false} MutualExclusion(run: seq<State>, n: nat)
    requires IsRun(run, true) && n < |run|
    ensures var s := run[n];
            && (!s.flag <==> exists g :: Owns(s, g))
            && (forall g, h :: Owns(s, g) && Owns(s, h) ==> g == h)
            && (forall g :: g in s.pc && s.pc[g].Exchanging? ==> s.pc[g].expected)
  {
    if n > 0 {
      MutualExclusion(run, n - 1);
      assert StepAt(run, n - 1, true);
      var g, a :| Enabled(run[n - 1], g, a) && run[n] == Step(run[n - 1], g, a, true);
      StepKeepsInv(run[n - 1], g, a);
    }
  }

  /** A free lock is there to be had: an exchange that does not fail spuriously, and a try, take the lock exactly when
      no guard owns it; a failed exchange is followed by a reset and another exchange, and a failed try by nothing. */
  lemma TakesIff(run: seq<State>, n: nat, g: Guard, a: Action)
    requires IsRun(run, true) && n < |run| && Enabled(run[n], g, a)
    ensures var s, s' := run[n], Step(run[n], g, a, true);
            && (a.TryExchange? ==> s'.pc[g] == Built(forall h :: !Owns(s, h)))
            && (a.Exchange? ==> (Owns(s', g) <==> !a.spurious && forall h :: !Owns(s, h)))
            && (a.Exchange? && !Owns(s', g) ==>
                  s'.pc[g] == Resetting && Step(s', g, Reset, true) == s'.(pc := s'.pc[g := Exchanging(true)]))
            && (forall h :: h != g ==> (Owns(s', h) <==> Owns(s, h)))
  {
    MutualExclusion(run, n);
  }

  /** A release happens only when its guard owns the lock, and takes the ownership with it: after an early
      unlock the destructor releases nothing. */
  lemma ReleasesOnce(run: seq<State>, n: nat, g: Guard, a: Action)
    requires IsRun(run, true) && n < |run| && Enabled(run[n], g, a)
    ensures var s, s' := run[n], Step(run[n], g, a, true);
            && (!s.flag && s'.flag ==> Owns(s, g) && forall h :: !Owns(s', h))
            && (Owns(s, g) && (a.UnlockStore? || a.Destroy?) ==> !s.flag && s'.flag)
            && (!Owns(s, g) && (a.UnlockClear? || a.Destroy?) ==> s'.flag == s.flag)
  {
    MutualExclusion(run, n);
    var s, s' := run[n], Step(run[n], g, a, true);
    assert Owns(s, g) ==> !s.flag;
    assert forall h :: h != g && Owns(s', h) ==> Owns(s, h);
    assert s'.pc[g] != Built(true) || !(a.UnlockStore? || a.Destroy?);
  }

  /** The reset matters: a loop that kept the value a failed exchange leaves behind would take a taken lock. */
  lemma WithoutResetTwoOwn() returns (run: seq<State>)
    ensures IsRun(run, false)
    ensures Owns(run[|run| - 1], 0) && Owns(run[|run| - 1], 1)
  {
    var s0 := State(true, map[0 := Unbuilt, 1 := Unbuilt]);
    var s1 := Step(s0, 0, StartLock, false);
    var s2 := Step(s1, 0, Exchange(false), false);
    var s3 := Step(s2, 1, StartLock, false);
    var s4 := Step(s3, 1, Exchange(false), false);
    var s5 := Step(s4, 1, Exchange(false), false);
    run := [s0, s1, s2, s3, s4, s5];
    assert s4.pc[1] == Exchanging(false) && !s4.flag;
    assert StepAt(run, 0, false) by { assert Enabled(run[0], 0, StartLock) && run[1] == s1; }
    assert StepAt(run, 1, false) by { assert Enabled(run[1], 0, Exchange(false)) && run[2] == s2; }
    assert StepAt(run, 2, false) by { assert Enabled(run[2], 1, StartLock) && run[3] == s3; }
    assert StepAt(run, 3, false) by { assert Enabled(run[3], 1, Exchange(false)) && run[4] == s4; }
    assert StepAt(run, 4, false) by { assert Enabled(run[4], 1, Exchange(false)) && run[5] == s5; }
  }
}
