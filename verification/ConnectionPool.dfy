/** The database connection pool: `acquire` waits on a condition variable, `release` returns a
    connection and notifies one waiter. Each critical section is one step. */
module ConnectionPool {
  import opened Wrappers

  type Client = nat
  type Conn = nat

  // A client absent from the map neither holds nor wants a connection.
  datatype Pc = Calling | Waiting | Woken | Holding(conn: Conn)

  // `holder` is history: who has each connection that is not available.
  datatype State = State(pool: set<Conn>, available: seq<Conn>, clients: map<Client, Pc>, holder: map<Conn, Client>)

  datatype Action =
    | Call(c: Client)
    | Enter(c: Client)                              // lock, test the predicate, take or wait
    | Release(c: Client, notified: Option<Client>)  // push_back and notify_one under the lock
    | SpuriousWake(c: Client)

  ghost predicate Enabled(s: State, a: Action) {
    match a
    case Call(c) => c !in s.clients
    case Enter(c) => c in s.clients && (s.clients[c].Calling? || s.clients[c].Woken?)
    case Release(c, n) =>
      && c in s.clients && s.clients[c].Holding?
      && (if n.None? then Asleep(s.clients) == {} else n.value in Asleep(s.clients))
    case SpuriousWake(c) => c in Asleep(s.clients)
  }

  ghost function Asleep(clients: map<Client, Pc>): set<Client> { set c | c in clients && clients[c].Waiting? }

  ghost function Awake(clients: map<Client, Pc>): set<Client> { set c | c in clients && clients[c].Woken? }

  ghost function Apply(s: State, a: Action): State
    requires Enabled(s, a)
  {
    match a
    case Call(c) => s.(clients := s.clients[c := Calling])
    case Enter(c) =>
      if s.available == [] then s.(clients := s.clients[c := Waiting])
      else
        var conn := s.available[|s.available| - 1];
        s.(available := s.available[..|s.available| - 1], clients := s.clients[c := Holding(conn)],
           holder := s.holder[conn := c])
    case Release(c, n) =>
      var conn := s.clients[c].conn;
      var rest := s.clients - {c};
      s.(available := s.available + [conn], holder := s.holder - {conn},
         clients := if n.Some? then rest[n.value := Woken] else rest)
    case SpuriousWake(c) => s.(clients := s.clients[c := Woken])
  }

  // Every connection is either available, once, or held by exactly one client.
  ghost predicate Partition(s: State) {
    && (forall i, j :: 0 <= i < j < |s.available| ==> s.available[i] != s.available[j])
    && (forall x :: x in s.available ==> x in s.pool && x !in s.holder)
    && (forall x :: x in s.pool ==> x in s.available || x in s.holder)
    && (forall x :: x in s.holder ==> x in s.pool && s.holder[x] in s.clients && s.clients[s.holder[x]] == Holding(x))
    && (forall c :: c in s.clients && s.clients[c].Holding? ==>
        s.clients[c].conn in s.holder && s.holder[s.clients[c].conn] == c)
  }

  // While somebody sleeps there are at least as many woken clients as idle connections.
  ghost predicate NoLostWakeup(s: State) {
    Asleep(s.clients) != {} ==> |s.available| <= |Awake(s.clients)|
  }

  ghost predicate Inv(s: State) { Partition(s) && NoLostWakeup(s) }

  lemma EnterKeepsPartition(s: State, a: Action)
    requires Partition(s) && Enabled(s, a) && a.Enter?
    ensures Partition(Apply(s, a))
  {
    if s.available != [] {
      var conn := s.available[|s.available| - 1];
      assert conn in s.available;
      assert forall x :: x in s.available <==> x in s.available[..|s.available| - 1] || x == conn;
    }
  }

  lemma ReleaseKeepsPartition(s: State, a: Action)
    requires Partition(s) && Enabled(s, a) && a.Release?
    ensures Partition(Apply(s, a))
  {
  }

  lemma StepKeepsPartition(s: State, a: Action)
    requires Partition(s) && Enabled(s, a)
    ensures Partition(Apply(s, a))
  {
    match a
    case Enter(_) => EnterKeepsPartition(s, a);
    case Release(_, _) => ReleaseKeepsPartition(s, a);
    case Call(c) => assert Apply(s, a) == s.(clients := s.clients[c := Calling]);
    case SpuriousWake(c) => assert Apply(s, a) == s.(clients := s.clients[c := Woken]);
  }

  lemma AwakeAfter(clients: map<Client, Pc>, c: Client, pc: Pc)
    ensures Awake(clients[c := pc]) == if pc.Woken? then Awake(clients) + {c} else Awake(clients) - {c}
    ensures Asleep(clients[c := pc]) == if pc.Waiting? then Asleep(clients) + {c} else Asleep(clients) - {c}
  {
  }

  lemma StepKeepsWakeup(s: State, a: Action)
    requires Partition(s) && NoLostWakeup(s) && Enabled(s, a)
    ensures NoLostWakeup(Apply(s, a))
  {
    var t := Apply(s, a);
    match a {
      case Call(c) => AwakeAfter(s.clients, c, Calling);
      case Enter(c) => AwakeAfter(s.clients, c, t.clients[c]);
      case SpuriousWake(c) => AwakeAfter(s.clients, c, Woken);
      case Release(c, n) =>
        var rest := s.clients - {c};
        assert Awake(rest) == Awake(s.clients) && Asleep(rest) == Asleep(s.clients);
        if n.Some? {
          AwakeAfter(rest, n.value, Woken);
          assert n.value !in Awake(rest);
        }
    }
  }

  lemma {:induction false} RunKeepsInv(states: seq<State>, acts: seq<Action>, i: nat)
    requires IsRun(states, acts) && i < |states|
    ensures Inv(states[i]) && states[i].pool == states[0].pool
  {
    if i > 0 {
      RunKeepsInv(states, acts, i - 1);
      StepKeepsPartition(states[i - 1], acts[i - 1]);
      StepKeepsWakeup(states[i - 1], acts[i - 1]);
    }
  }

  ghost predicate IsRun(states: seq<State>, acts: seq<Action>) {
    && |states| == |acts| + 1 && Fresh(states[0])
    && (forall i :: 0 <= i < |acts| ==> Enabled(states[i], acts[i]) && states[i + 1] == Apply(states[i], acts[i]))
  }

  ghost predicate Fresh(s: State) {
    && s.clients == map[] && s.holder == map[]
    && (forall i, j :: 0 <= i < j < |s.available| ==> s.available[i] != s.available[j])
    && (forall x :: x in s.available <==> x in s.pool)
  }

  function Members(xs: seq<Conn>): set<Conn> { set x | x in xs }

  lemma {:induction false} CountDistinct(xs: seq<Conn>)
    requires forall i, j :: 0 <= i < j < |xs| ==> xs[i] != xs[j]
    ensures |Members(xs)| == |xs|
  {
    if xs != [] {
      var n := |xs| - 1;
      CountDistinct(xs[..n]);
      assert xs == xs[..n] + [xs[n]];
      assert Members(xs) == Members(xs[..n]) + {xs[n]};
      assert xs[n] !in Members(xs[..n]);
    }
  }

  lemma PartitionCounts(s: State)
    requires Partition(s)
    ensures Members(s.available) + s.holder.Keys == s.pool
    ensures |s.available| + |s.holder| == |s.pool|
  {
    CountDistinct(s.available);
    assert Members(s.available) + s.holder.Keys == s.pool;
    assert Members(s.available) !! s.holder.Keys;
    assert |s.holder.Keys| == |s.holder|;
  }

  /** Whatever the clients do: available and held connections together are the whole pool, no
      connection has two holders, and whenever a client sleeps although a connection is idle,
      a woken client is on its way to take one. */
  lemma PoolIsConserved(states: seq<State>, acts: seq<Action>)
    requires IsRun(states, acts)
    ensures var s := states[|acts|];
      && Members(s.available) + s.holder.Keys == states[0].pool
      && |s.available| + |s.holder| == |states[0].pool|
      && (forall c, d :: c in s.clients && d in s.clients && c != d && s.clients[c].Holding?
                         && s.clients[d].Holding? ==>
            s.clients[c].conn != s.clients[d].conn)
      && (Asleep(s.clients) != {} && s.available != [] ==> Awake(s.clients) != {})
  {
    RunKeepsInv(states, acts, |acts|);
    var s := states[|acts|];
    PartitionCounts(s);
  }

  /** The connection released last is the one that is taken next, by whoever comes first; and the one at the
      front is taken only when it is the only one left. */
  lemma LastReleasedFirstTaken(s: State, released: Action, taken: Action)
    requires Enabled(s, released) && released.Release?
    requires Enabled(Apply(s, released), taken) && taken.Enter?
    ensures Apply(Apply(s, released), taken).clients[taken.c] == Holding(s.clients[released.c].conn)
    ensures Apply(Apply(s, released), taken).available == s.available
  {
  }

  lemma FrontTakenLast(s: State, taken: Action)
    requires Partition(s) && Enabled(s, taken) && taken.Enter? && s.available != []
    ensures Apply(s, taken).clients[taken.c] == Holding(s.available[0]) <==> |s.available| == 1
  {
  }
}
