/** UserManager: 1024 user objects moving between a pool and a table, each under its own lock, so that any number
    of AddUser and ReleaseUser calls interleave between the two critical sections. */
module UserManagers {
  import opened Collections

  const MAX_USERS: nat := 1024

  /** User objects by identity: 0..1023. */
  type User = int

  type Caller = nat

  datatype Outcome = Outcome(ok: bool, pool: seq<User>, users: map<int, User>)

  /** AddUser with nobody in between. A refused duplicate key costs the pool nothing: the user taken from the front
      goes to the back. */
  function Added(pool: seq<User>, users: map<int, User>, key: int): Outcome {
    if pool == [] then Outcome(false, pool, users)
    else if key in users then Outcome(false, pool[1..] + [pool[0]], users)
    else Outcome(true, pool[1..], users[key := pool[0]])
  }

  function Released(pool: seq<User>, users: map<int, User>, key: int): Outcome {
    if key in users then Outcome(true, pool + [users[key]], users - {key}) else Outcome(false, pool, users)
  }

  class UserManager {
    var pool: seq<User>
    var users: map<int, User>

    constructor ()
      ensures pool == UpTo(MAX_USERS) && users == map[]
    {
      pool, users := [], map[];
      new;
      for i := 0 to MAX_USERS
        invariant pool == UpTo(i) && users == map[]
      {
        pool := pool + [i];
      }
    }

    /** A call that nobody interrupts. */
    method AddUser(key: int) returns (ok: bool)
      modifies this
      ensures Outcome(ok, pool, users) == Added(old(pool), old(users), key)
      ensures ok <==> old(pool) != [] && key !in old(users)
      ensures users == if ok then old(users)[key := old(pool)[0]] else old(users)
      ensures pool == if ok then old(pool)[1..] else if old(pool) == [] then [] else old(pool)[1..] + [old(pool)[0]]
      ensures !ok ==> multiset(pool) == multiset(old(pool))
    {
      if |pool| == 0 {
        return false;
      }
      var user := pool[0];
      pool := pool[1..];
      assert old(pool) == [user] + pool;
      ok := key !in users;
      if ok {
        users := users[key := user];
      } else {
        pool := pool + [user];
      }
    }

    method ReleaseUser(key: int)
      modifies this
      ensures var r := Released(old(pool), old(users), key); pool == r.pool && users == r.users
      ensures users == old(users) - {key}
      ensures pool == old(pool) + if key in old(users) then [old(users)[key]] else []
    {
      if key in users {
        var user := users[key];
        users := users - {key};
        pool := pool + [user];
      }
    }
  }

  /** Between critical sections a caller may be carrying a user. */
  datatype Pc =
    | Idle
    | Taken(key: int, user: User)   // AddUser: popped from the pool, TryAdd next
    | Refused(user: User)           // AddUser: the key was there already, give back next
    | Removed(user: User)           // ReleaseUser: out of the table, give back next

  datatype State = State(pool: seq<User>, users: map<int, User>, pc: map<Caller, Pc>)

  datatype Action =
    | TakeFromPool(key: int)
    | TryAdd
    | RemoveFromTable(key: int)
    | GiveBack

  ghost predicate Init(s: State) {
    && s.pool == UpTo(MAX_USERS) && s.users == map[]
    && forall t :: t in s.pc ==> s.pc[t] == Idle
  }

  ghost predicate Enabled(s: State, t: Caller, a: Action) {
    t in s.pc &&
    match a
    case TakeFromPool(key) => s.pc[t].Idle?
    case TryAdd => s.pc[t].Taken?
    case RemoveFromTable(key) => s.pc[t].Idle?
    case GiveBack => s.pc[t].Refused? || s.pc[t].Removed?
  }

  /** One critical section. TakeFromPool with an empty pool is AddUser returning false; RemoveFromTable of an absent
      key is ReleaseUser doing nothing. */
  ghost function Step(s: State, t: Caller, a: Action): State
    requires Enabled(s, t, a)
  {
    match a
    case TakeFromPool(key) =>
      if s.pool == [] then s else State(s.pool[1..], s.users, s.pc[t := Taken(key, s.pool[0])])
    case TryAdd =>
      var key, user := s.pc[t].key, s.pc[t].user;
      if key in s.users then s.(pc := s.pc[t := Refused(user)])
      else State(s.pool, s.users[key := user], s.pc[t := Idle])
    case RemoveFromTable(key) =>
      if key in s.users then State(s.pool, s.users - {key}, s.pc[t := Removed(s.users[key])]) else s
    case GiveBack => State(s.pool + [s.pc[t].user], s.users, s.pc[t := Idle])
  }

  /** The critical sections of AddUser and ReleaseUser, run by one idle caller without interruption. */
  ghost function SoloAdd(s: State, t: Caller, key: int): State
    requires t in s.pc && s.pc[t].Idle?
  {
    var taken := Step(s, t, TakeFromPool(key));
    if taken.pc[t].Idle? then taken
    else
      var tried := Step(taken, t, TryAdd);
      if tried.pc[t].Idle? then tried else Step(tried, t, GiveBack)
  }

  ghost function SoloRelease(s: State, t: Caller, key: int): State
    requires t in s.pc && s.pc[t].Idle?
  {
    var removed := Step(s, t, RemoveFromTable(key));
    if removed.pc[t].Idle? then removed else Step(removed, t, GiveBack)
  }

  /** Uninterrupted, the steps do what the methods do, and the caller ends up carrying nothing. */
  lemma SoloCallsMatchMethods(s: State, t: Caller, key: int)
    requires t in s.pc && s.pc[t].Idle?
    ensures var a := Added(s.pool, s.users, key); SoloAdd(s, t, key) == State(a.pool, a.users, s.pc)
    ensures var r := Released(s.pool, s.users, key); SoloRelease(s, t, key) == State(r.pool, r.users, s.pc)
  {
    assert s.pc[t := Idle] == s.pc;
  }

  ghost predicate StepAt(run: seq<State>, i: nat) {
    i + 1 < |run| && exists t, a :: Enabled(run[i], t, a) && run[i + 1] == Step(run[i], t, a)
  }

  ghost predicate IsRun(run: seq<State>) {
    && run != [] && Init(run[0])
    && forall i: nat :: i < |run| - 1 ==> StepAt(run, i)
  }

  ghost predicate Carries(s: State, t: Caller, u: User) {
    t in s.pc && !s.pc[t].Idle? && s.pc[t].user == u
  }

  ghost predicate Seated(s: State, k: int, u: User) {
    k in s.users && s.users[k] == u
  }

  /** No user is in two places. */
  ghost predicate Exclusive(s: State) {
    && (forall i, j :: 0 <= i < j < |s.pool| ==> s.pool[i] != s.pool[j])
    && (forall t, u: User :: Carries(s, t, u) ==> u !in s.pool)
    && (forall k, u: User :: Seated(s, k, u) ==> u !in s.pool)
    && (forall t, t', u: User :: Carries(s, t, u) && Carries(s, t', u) ==> t == t')
    && (forall k, k', u: User :: Seated(s, k, u) && Seated(s, k', u) ==> k == k')
    && (forall t, k, u: User :: Carries(s, t, u) ==> !Seated(s, k, u))
  }

  ghost predicate Somewhere(s: State, u: User) {
    u in s.pool || (exists t :: Carries(s, t, u)) || (exists k :: Seated(s, k, u))
  }

  ghost predicate Complete(s: State) {
    forall u: User :: 0 <= u < MAX_USERS <==> Somewhere(s, u)
  }

  lemma TakeKeeps(s: State, t: Caller, key: int)
    requires Exclusive(s) && Complete(s) && Enabled(s, t, TakeFromPool(key))
    ensures Exclusive(Step(s, t, TakeFromPool(key))) && Complete(Step(s, t, TakeFromPool(key)))
  {
    var s' := Step(s, t, TakeFromPool(key));
    if s.pool != [] {
      var mine := s.pool[0];
      assert forall u: User :: u in s.pool <==> u == mine || u in s'.pool;
      assert forall v, u: User :: Carries(s', v, u) <==> Carries(s, v, u) || (v == t && u == mine);
      assert forall k, u: User :: Seated(s', k, u) <==> Seated(s, k, u);
      assert Carries(s', t, mine);
      assert forall u: User :: Somewhere(s', u) <==> Somewhere(s, u);
    }
  }

  lemma TryAddKeeps(s: State, t: Caller)
    requires Exclusive(s) && Complete(s) && Enabled(s, t, TryAdd)
    ensures Exclusive(Step(s, t, TryAdd)) && Complete(Step(s, t, TryAdd))
  {
    var s' := Step(s, t, TryAdd);
    var key, mine := s.pc[t].key, s.pc[t].user;
    assert Carries(s, t, mine);
    if key in s.users {
      assert forall v, u: User :: Carries(s', v, u) <==> Carries(s, v, u);
      assert forall k, u: User :: Seated(s', k, u) <==> Seated(s, k, u);
    } else {
      assert forall v, u: User :: Carries(s', v, u) <==> Carries(s, v, u) && v != t;
      assert forall k, u: User :: Seated(s', k, u) <==> Seated(s, k, u) || (k == key && u == mine);
      assert Seated(s', key, mine);
    }
    assert forall u: User :: Somewhere(s', u) <==> Somewhere(s, u);
  }

  lemma RemoveKeeps(s: State, t: Caller, key: int)
    requires Exclusive(s) && Complete(s) && Enabled(s, t, RemoveFromTable(key))
    ensures Exclusive(Step(s, t, RemoveFromTable(key))) && Complete(Step(s, t, RemoveFromTable(key)))
  {
    var s' := Step(s, t, RemoveFromTable(key));
    if key in s.users {
      var mine := s.users[key];
      assert Seated(s, key, mine);
      assert forall v, u: User :: Carries(s', v, u) <==> Carries(s, v, u) || (v == t && u == mine);
      assert forall k, u: User :: Seated(s', k, u) <==> Seated(s, k, u) && k != key;
      assert Carries(s', t, mine);
      assert forall u: User :: Somewhere(s', u) <==> Somewhere(s, u);
    }
  }

  lemma GiveBackKeeps(s: State, t: Caller)
    requires Exclusive(s) && Complete(s) && Enabled(s, t, GiveBack)
    ensures Exclusive(Step(s, t, GiveBack)) && Complete(Step(s, t, GiveBack))
  {
    var s' := Step(s, t, GiveBack);
    var mine := s.pc[t].user;
    assert Carries(s, t, mine);
    assert forall u: User :: u in s'.pool <==> u == mine || u in s.pool;
    assert forall v, u: User :: Carries(s', v, u) <==> Carries(s, v, u) && v != t;
    assert forall k, u: User :: Seated(s', k, u) <==> Seated(s, k, u);
    assert forall u: User :: Somewhere(s', u) <==> Somewhere(s, u);
  }

  /** User pool conservation under every interleaving: each of the 1024 users is in exactly one of the pool, the table
      and one caller's hand, and distinct keys hold distinct users. */
  lemma {:induction false} UsersConserved(run: seq<State>, n: nat)
    requires IsRun(run) && n < |run|
    ensures Exclusive(run[n]) && Complete(run[n])
  {
    if n == 0 {
      forall u: User ensures 0 <= u < MAX_USERS <==> Somewhere(run[0], u) {
        assert 0 <= u < MAX_USERS ==> run[0].pool[u] == u;
      }
    } else {
      UsersConserved(run, n - 1);
      var s := run[n - 1];
      assert StepAt(run, n - 1);
      var t, a :| Enabled(s, t, a) && run[n] == Step(s, t, a);
      match a
      case TakeFromPool(key) => TakeKeeps(s, t, key);
      case TryAdd => TryAddKeeps(s, t);
      case RemoveFromTable(key) => RemoveKeeps(s, t, key);
      case GiveBack => GiveBackKeeps(s, t);
    }
  }

  function InHands(s: State): set<Caller> {
    set t | t in s.pc && !s.pc[t].Idle?
  }

  ghost function HandMap(s: State): map<Caller, User> {
    map t | t in s.pc && !s.pc[t].Idle? :: s.pc[t].user
  }

  lemma PlacesPartition(s: State)
    requires Exclusive(s) && Complete(s)
    ensures (set u | u in s.pool) !! s.users.Values !! HandMap(s).Values
    ensures (set u | u in UpTo(MAX_USERS)) == (set u | u in s.pool) + s.users.Values + HandMap(s).Values
  {
    forall u: User
      ensures u in s.users.Values <==> exists k :: Seated(s, k, u)
      ensures u in HandMap(s).Values <==> exists t :: Carries(s, t, u)
    {
      if k :| Seated(s, k, u) {
        assert s.users[k] == u;
      }
      if u in s.users.Values {
        var k := KeyOf(s.users, u);
        assert Seated(s, k, u);
      }
      if t :| Carries(s, t, u) {
        assert HandMap(s)[t] == u;
      }
      if u in HandMap(s).Values {
        var t := KeyOf(HandMap(s), u);
        assert Carries(s, t, u);
      }
    }
    forall u: User
      ensures u in UpTo(MAX_USERS) <==> u in (set v | v in s.pool) + s.users.Values + HandMap(s).Values
    {
      assert 0 <= u < MAX_USERS <==> Somewhere(s, u);
      assert 0 <= u < MAX_USERS ==> UpTo(MAX_USERS)[u] == u;
    }
  }

  lemma TableSize(s: State)
    requires Exclusive(s)
    ensures |s.users.Values| == |s.users|
  {
    forall k, l | k in s.users && l in s.users && s.users[k] == s.users[l] ensures k == l {
      assert Seated(s, k, s.users[k]) && Seated(s, l, s.users[k]);
    }
    InjectiveSize(s.users);
  }

  lemma HandsSize(s: State)
    requires Exclusive(s)
    ensures |HandMap(s).Values| == |InHands(s)|
  {
    forall t, u | t in HandMap(s) && u in HandMap(s) && HandMap(s)[t] == HandMap(s)[u] ensures t == u {
      assert Carries(s, t, s.pc[t].user) && Carries(s, u, s.pc[t].user);
    }
    InjectiveSize(HandMap(s));
    assert HandMap(s).Keys == InHands(s);
  }

  lemma PlacesCount(s: State)
    requires Exclusive(s) && Complete(s)
    ensures |s.pool| + |s.users| + |InHands(s)| == MAX_USERS
  {
    PlacesPartition(s);
    DisjointSizes((set u | u in s.pool), s.users.Values, HandMap(s).Values);
    DistinctSize(s.pool);
    DistinctSize(UpTo(MAX_USERS));
    TableSize(s);
    HandsSize(s);
  }

  /** The numbers: pooled, seated and carried users always make 1024. So AddUser finds the pool empty exactly when
      the table and the other callers' hands hold all 1024, and once no call is in progress the pool and the
      table make 1024 by themselves. */
  lemma UserCount(run: seq<State>, n: nat)
    requires IsRun(run) && n < |run|
    ensures var s := run[n];
            && |s.pool| + |s.users| + |InHands(s)| == MAX_USERS
            && (s.pool == [] <==> |s.users| + |InHands(s)| == MAX_USERS)
  {
    UsersConserved(run, n);
    PlacesCount(run[n]);
  }

  /** And each critical section gets what is there, whatever the other callers are at: AddUser takes a user exactly
      while table and hands hold fewer than 1024, and seats it exactly when its key is not in the table; ReleaseUser
      takes the key's user exactly when there is one. */
  lemma SectionsSucceedIff(run: seq<State>, n: nat, t: Caller, key: int)
    requires IsRun(run) && n < |run| && t in run[n].pc
    ensures var s := run[n];
            && (s.pc[t].Idle? ==>
                  && Enabled(s, t, TakeFromPool(key)) && Enabled(s, t, RemoveFromTable(key))
                  && (Step(s, t, TakeFromPool(key)).pc[t].Taken? <==> |s.users| + |InHands(s)| < MAX_USERS)
                  && (Step(s, t, RemoveFromTable(key)).pc[t].Removed? <==> key in s.users))
            && (s.pc[t].Taken? ==>
                  && Enabled(s, t, TryAdd)
                  && (Step(s, t, TryAdd).pc[t].Idle? <==> s.pc[t].key !in s.users)
                  && (s.pc[t].key !in s.users ==> Seated(Step(s, t, TryAdd), s.pc[t].key, s.pc[t].user)))
            && (s.pc[t].Refused? || s.pc[t].Removed? ==>
                  && Enabled(s, t, GiveBack)
                  && Step(s, t, GiveBack) == State(s.pool + [s.pc[t].user], s.users, s.pc[t := Idle]))
  {
    UserCount(run, n);
  }
}
