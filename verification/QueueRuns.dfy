/** What the lock-free queue guarantees over whole runs, and the sequential methods as runs. */
module QueueRuns {
  import opened Wrappers
  import opened Fifo
  import opened QueueProtocol

  ghost predicate Path<T(!new)>(states: seq<State<T>>, acts: seq<Action<T>>) {
    && |states| == |acts| + 1
    && (forall i {:trigger acts[i]} :: 0 <= i < |acts| ==>
        Enabled(states[i], acts[i]) && states[i + 1] == Apply(states[i], acts[i]))
  }

  ghost predicate IsRun<T(!new)>(states: seq<State<T>>, acts: seq<Action<T>>) {
    Path(states, acts) && exists dummy: Addr :: states[0] == Init(dummy)
  }

  lemma {:induction false} RunKeepsInv<T(!new)>(states: seq<State<T>>, acts: seq<Action<T>>, i: nat)
    requires IsRun(states, acts) && i < |states|
    ensures Inv(states[i])
  {
    if i == 0 {
      var dummy: Addr :| states[0] == Init(dummy);
      InitInv<T>(dummy);
    } else {
      RunKeepsInv(states, acts, i - 1);
      StepKeepsInv(states[i - 1], acts[i - 1]);
    }
  }

  ghost predicate Reachable<T(!new)>(s: State<T>) {
    exists states: seq<State<T>>, acts: seq<Action<T>> :: IsRun(states, acts) && states[|acts|] == s
  }

  lemma ReachableKeepsInv<T(!new)>(s: State<T>)
    requires Reachable(s)
    ensures Inv(s)
  {
    var states: seq<State<T>>, acts: seq<Action<T>> :| IsRun(states, acts) && states[|acts|] == s;
    RunKeepsInv(states, acts, |acts|);
  }

  lemma ReachableStep<T(!new)>(s: State<T>, a: Action<T>)
    requires Reachable(s) && Enabled(s, a)
    ensures Reachable(Apply(s, a))
  {
    var states: seq<State<T>>, acts: seq<Action<T>> :| IsRun(states, acts) && states[|acts|] == s;
    assert IsRun(states + [Apply(s, a)], acts + [a]);
  }

  // ------------------------------------------------- the order is that of the calls' exchanges

  /** Read off the actions alone: the argument of each unfinished push, and the arguments of
      the finished exchanges in the order of those exchanges. */
  ghost function Calls<T>(acts: seq<Action<T>>): (map<Tid, T>, seq<T>) {
    if acts == [] then (map[], []) else
    var (args, exchanged) := Calls(acts[..|acts| - 1]);
    match acts[|acts| - 1]
    case NewNode(p, v, _) => (args[p := v], exchanged)
    case ExchangeTail(p) => (args, if p in args then exchanged + [args[p]] else exchanged)
    case _ => (args, exchanged)
  }

  ghost predicate Follows<T>(s: State<T>, args: map<Tid, T>, exchanged: seq<T>) {
    && s.pushed == exchanged
    && (forall p :: p in s.producers && s.producers[p].Holding? ==>
          p in args && s.producers[p].node in s.heap && s.heap[s.producers[p].node].value == Some(args[p]))
  }

  // A node held by a producer is written by nobody.
  lemma HeldNodeKept<T>(s: State<T>, a: Action<T>, p: Tid)
    requires Shape(s) && Enabled(s, a) && p in s.producers && s.producers[p].Holding?
    ensures var n := s.producers[p].node;
      n in s.heap && n in Apply(s, a).heap && Apply(s, a).heap[n].value == s.heap[n].value
  {
    assert ProducerOk(s, p, s.producers[p]);
    if a.LinkOldTail? {
      assert ProducerOk(s, a.p, s.producers[a.p]);
    }
  }

  lemma FollowsStep<T>(s: State<T>, a: Action<T>, args: map<Tid, T>, exchanged: seq<T>)
    requires Shape(s) && ValuesOk(s) && Enabled(s, a) && Follows(s, args, exchanged)
    ensures match a
            case NewNode(p, v, _) => Follows(Apply(s, a), args[p := v], exchanged)
            case ExchangeTail(p) => p in args && Follows(Apply(s, a), args, exchanged + [args[p]])
            case _ => Follows(Apply(s, a), args, exchanged)
  {
    forall p | p in s.producers && s.producers[p].Holding?
      ensures var n := s.producers[p].node;
        n in s.heap && n in Apply(s, a).heap && Apply(s, a).heap[n].value == s.heap[n].value
    {
      HeldNodeKept(s, a, p);
    }
  }

  lemma {:induction false} RunFollowsCalls<T(!new)>(states: seq<State<T>>, acts: seq<Action<T>>)
    requires IsRun(states, acts)
    ensures Follows(states[|acts|], Calls(acts).0, Calls(acts).1)
  {
    if acts != [] {
      var n := |acts| - 1;
      assert IsRun(states[..n + 1], acts[..n]);
      RunFollowsCalls(states[..n + 1], acts[..n]);
      RunKeepsInv(states, acts, n);
      FollowsStep(states[n], acts[n], Calls(acts[..n]).0, Calls(acts[..n]).1);
    }
  }

  /** Every interleaving: nothing freed is touched, and what try_pop hands out is a prefix of
      the pushed arguments in tail-exchange order. */
  lemma DeliveryIsPrefixOfExchanges<T(!new)>(states: seq<State<T>>, acts: seq<Action<T>>)
    requires IsRun(states, acts)
    ensures forall i :: 0 <= i < |states| ==> !states[i].fault
    ensures states[|acts|].delivered <= Calls(acts).1
  {
    forall i | 0 <= i < |states| ensures !states[i].fault {
      RunKeepsInv(states, acts, i);
    }
    RunFollowsCalls(states, acts);
    RunKeepsInv(states, acts, |acts|);
  }

  // ------------------------------------------------- the verdict of try_pop

  ghost predicate ReturnsFalse<T>(s: State<T>)
    requires s.consumer.Loaded?
  {
    Apply(s, LoadNext).consumer.Outside?
  }

  // The push that is next in exchange order has swung the tail but not stored its link.
  ghost predicate NextPushUnlinked<T>(s: State<T>) {
    && |s.delivered| < |s.pushed|
    && exists p :: p in s.producers && s.producers[p].Exchanged? && s.producers[p].oldTail == s.head
         && s.producers[p].node in s.heap && s.heap[s.producers[p].node].value == Some(s.pushed[|s.delivered|])
  }

  lemma FalseVerdict<T>(s: State<T>)
    requires Inv(s) && s.consumer.Loaded?
    ensures ReturnsFalse(s) <==> s.delivered == s.pushed || NextPushUnlinked(s)
  {
    assert |s.delivered| == s.first;
    if s.first < |s.linker| {
      var link := s.linker[s.first];
      assert LinkOk(s.heap, s.producers, s.order[s.first], s.order[s.first + 1], link, s.first);
      if link.Some? {
        assert s.heap[s.order[s.first + 1]].value == Some(s.pushed[s.first]);
      } else {
        forall p | p in s.producers && s.producers[p].Exchanged?
          ensures s.producers[p].oldTail != s.head
        {
          assert ProducerOk(s, p, s.producers[p]);
        }
      }
    }
  }

  ghost predicate NoPushInFlight<T>(s: State<T>) {
    forall p :: p in s.producers ==> !s.producers[p].Exchanged?
  }

  lemma FalseMeansDrainedWhenQuiet<T>(s: State<T>)
    requires Inv(s) && s.consumer.Loaded? && NoPushInFlight(s)
    ensures ReturnsFalse(s) <==> s.delivered == s.pushed
  {
    FalseVerdict(s);
  }

  // ------------------------------------------------- draining

  ghost predicate Leads<T(!new)>(s: State<T>, acts: seq<Action<T>>, t: State<T>) {
    exists states :: Path(states, acts) && states[0] == s && states[|acts|] == t
  }

  lemma LeadsAppend<T(!new)>(s: State<T>, xs: seq<Action<T>>, m: State<T>, ys: seq<Action<T>>, t: State<T>)
    requires Leads(s, xs, m) && Leads(m, ys, t)
    ensures Leads(s, xs + ys, t)
  {
    var first :| Path(first, xs) && first[0] == s && first[|xs|] == m;
    var second :| Path(second, ys) && second[0] == m && second[|ys|] == t;
    var all := first + second[1..];
    assert forall i :: |xs| <= i < |all| ==> all[i] == second[i - |xs|];
    assert forall i :: |xs| <= i < |xs + ys| ==> (xs + ys)[i] == ys[i - |xs|];
    assert Path(all, xs + ys);
  }

  lemma LeadsNowhere<T(!new)>(s: State<T>)
    ensures Leads(s, [], s)
  {
    assert Path([s], []);
  }

  ghost function Probe<T>(): seq<Action<T>> { [LoadHead, LoadNext] }

  ghost function Take<T>(): seq<Action<T>> { [CasHead(true), MoveValue, DeleteOldHead] }

  // One uninterrupted successful pop.
  ghost function PopActions<T>(): seq<Action<T>> { Probe() + Take() }

  ghost function PopTimes<T>(k: nat): seq<Action<T>> {
    if k == 0 then [] else PopActions() + PopTimes(k - 1)
  }

  ghost predicate Idle<T(!new)>(s: State<T>) { Reachable(s) && NoPushInFlight(s) && s.consumer.Outside? }

  // What one consumer step does while no push is in flight.
  lemma QuietStep<T(!new)>(s: State<T>, a: Action<T>)
    requires Reachable(s) && NoPushInFlight(s) && Enabled(s, a)
    requires a.LoadHead? || a.LoadNext? || a == CasHead(true) || a.MoveValue? || a.DeleteOldHead?
    ensures var t := Apply(s, a);
      && Reachable(t) && t.producers == s.producers && t.pushed == s.pushed
      && (a.LoadHead? ==> t.consumer == Loaded(t.head))
      && (a.LoadNext? ==>
          if s.delivered == s.pushed then t.consumer.Outside? else t.consumer.Chained? && t.head == t.consumer.oldHead)
      && (a.CasHead? ==> t.consumer.Swung?) && (a.MoveValue? ==> t.consumer.Moved?)
        && (a.DeleteOldHead? ==> t.consumer.Outside?)
      && t.delivered <= t.pushed && |t.delivered| == |s.delivered| + (if a.MoveValue? then 1 else 0)
  {
    ReachableStep(s, a);
    assert s.delivered <= s.pushed by { ReachableKeepsInv(s); }
    assert !Apply(s, a).fault by { ReachableKeepsInv(Apply(s, a)); }
    if a.LoadNext? {
      assert ReturnsFalse(s) <==> s.delivered == s.pushed by {
        ReachableKeepsInv(s);
        FalseMeansDrainedWhenQuiet(s);
      }
      assert s.head == s.consumer.oldHead by { ReachableKeepsInv(s); }
    }
    assert Apply(s, a).delivered <= Apply(s, a).pushed by { ReachableKeepsInv(Apply(s, a)); }
  }

  lemma PopFirstHalf<T(!new)>(s: State<T>) returns (t: State<T>)
    requires Idle(s) && s.delivered != s.pushed
    ensures Leads(s, Probe(), t) && Reachable(t) && t.consumer.Chained? && t.head == t.consumer.oldHead
    ensures t.producers == s.producers && t.pushed == s.pushed && t.delivered == s.delivered
  {
    QuietStep(s, LoadHead);
    var s1 := Apply(s, LoadHead);
    QuietStep(s1, LoadNext);
    t := Apply(s1, LoadNext);
    assert Path([s, s1, t], Probe());
  }

  lemma PopSecondHalf<T(!new)>(s: State<T>) returns (r: State<T>)
    requires Reachable(s) && NoPushInFlight(s) && s.consumer.Chained? && s.head == s.consumer.oldHead
    ensures Leads(s, Take(), r) && Reachable(r) && r.consumer.Outside?
    ensures r.producers == s.producers && r.pushed == s.pushed && r.delivered <= r.pushed
      && |r.delivered| == |s.delivered| + 1
  {
    QuietStep(s, CasHead(true));
    var s1 := Apply(s, CasHead(true));
    QuietStep(s1, MoveValue);
    var s2 := Apply(s1, MoveValue);
    QuietStep(s2, DeleteOldHead);
    r := Apply(s2, DeleteOldHead);
    assert Path([s, s1, s2, r], Take());
  }

  lemma OnePop<T(!new)>(s: State<T>) returns (r: State<T>)
    requires Idle(s) && s.delivered != s.pushed
    ensures Leads(s, PopActions(), r)
    ensures Idle(r) && r.pushed == s.pushed && r.delivered <= r.pushed && |r.delivered| == |s.delivered| + 1
  {
    var t := PopFirstHalf(s);
    r := PopSecondHalf(t);
    LeadsAppend(s, Probe(), t, Take(), r);
  }

  lemma QuietVerdict<T(!new)>(s: State<T>)
    requires Idle(s)
    ensures |s.delivered| <= |s.pushed|
    ensures ReturnsFalse(Apply(s, LoadHead)) <==> |s.delivered| == |s.pushed|
  {
    ReachableKeepsInv(s);
    QuietStep(s, LoadHead);
    QuietStep(Apply(s, LoadHead), LoadNext);
  }

  lemma {:induction false} PopsDeliver<T(!new)>(s: State<T>, k: nat) returns (t: State<T>)
    requires Idle(s) && s.delivered <= s.pushed && |s.delivered| + k <= |s.pushed|
    ensures Leads(s, PopTimes(k), t)
    ensures Idle(t) && t.pushed == s.pushed && t.delivered <= t.pushed && |t.delivered| == |s.delivered| + k
    decreases k
  {
    hide Leads, Reachable;
    if k == 0 {
      t := s;
      LeadsNowhere(s);
    } else {
      var r := OnePop(s);
      t := PopsDeliver(r, k - 1);
      LeadsAppend(s, PopActions(), r, PopTimes(k - 1), t);
    }
  }

  /** With no push in flight, exactly as many pops as values remain succeed and deliver them in
      order; the next one returns false. */
  lemma DrainTakesExactlyTheRemaining<T(!new)>(s: State<T>, k: nat) returns (t: State<T>)
    requires Idle(s) && |s.delivered| + k <= |s.pushed|
    ensures Leads(s, PopTimes(k), t) && Idle(t)
    ensures t.pushed == s.pushed && t.delivered == s.pushed[..|s.delivered| + k]
    ensures ReturnsFalse(Apply(t, LoadHead)) <==> |s.delivered| + k == |s.pushed|
  {
    assert s.delivered <= s.pushed by { ReachableKeepsInv(s); }
    t := PopsDeliver(s, k);
    QuietVerdict(t);
  }

  // ------------------------------------------------- refinement of the abstract queue

  ghost function Abs<T>(s: State<T>): Fifo<T> { Fifo(s.pushed, |s.delivered|) }

  /** Each step is a push (at the exchange), a pop of the oldest value (at the move), or nothing
      that the abstract queue can see. */
  lemma StepRefinesFifo<T>(s: State<T>, a: Action<T>)
    requires Inv(s) && Enabled(s, a)
    ensures Abs(s).Valid()
    ensures var t := Apply(s, a);
      match a
      case ExchangeTail(_) => exists v :: Abs(t) == Abs(s).Push(v)
      case MoveValue =>
        Abs(s).popped < |s.pushed| && Abs(t) == Abs(s).Pop() && t.delivered == s.delivered + [s.pushed[Abs(s).popped]]
      case _ => Abs(t) == Abs(s) && t.delivered == s.delivered
  {
    StepKeepsInv(s, a);
    if a.ExchangeTail? {
      assert ProducerOk(s, a.p, s.producers[a.p]);
      assert Abs(Apply(s, a)) == Abs(s).Push(s.heap[s.producers[a.p].node].value.value);
    }
  }

  // ------------------------------------------------- destruction

  /** The destructor's walk: delete the node at `at`, go on to its successor. `None` when it
      would touch an unallocated node or is still not at the end after `fuel` deletions. */
  ghost function Walk<T>(heap: map<Addr, Node<T>>, at: Option<Addr>, lives: seq<Life>, fuel: nat)
    : Option<(map<Addr, Node<T>>, seq<Life>)>
  {
    if at.None? then Some((heap, lives))
    else if fuel == 0 || at.value !in heap || heap[at.value].serial >= |lives| then None
    else Walk(heap - {at.value}, heap[at.value].next, Delete(lives, heap[at.value].serial), fuel - 1)
  }

  ghost predicate LinkedFrom<T>(heap: map<Addr, Node<T>>, order: seq<Addr>, i: nat) {
    && (forall k :: i <= k < |order| ==> 
          && order[k] in heap && heap[order[k]].role == InChain(k)
          && heap[order[k]].next == if k + 1 < |order| then Some(order[k + 1]) else None)
    && (forall a :: a in heap ==>
        heap[a].role.InChain? && i <= heap[a].role.index < |order| && order[heap[a].role.index] == a)
  }

  lemma {:induction false} WalkFreesAll<T>(heap: map<Addr, Node<T>>, order: seq<Addr>, i: nat, lives: seq<Life>)
    requires i <= |order| && LinkedFrom(heap, order, i) && LivesOk(heap, lives)
    ensures var at := if i < |order| then Some(order[i]) else None;
      var end := Walk(heap, at, lives, |order| - i);
      && end.Some? && end.value.0 == map[] && |end.value.1| == |lives|
      && forall k :: 0 <= k < |lives| ==> end.value.1[k].deletes == 1
    decreases |order| - i
  {
    if i == |order| {
      assert heap == map[];
    } else {
      FreeKeepsLives(heap, lives, order[i]);
      WalkFreesAll(heap - {order[i]}, order, i + 1, Delete(lives, heap[order[i]].serial));
    }
  }

  ghost predicate Settled<T>(s: State<T>) { Inv(s) && s.producers == map[] && s.consumer.Outside? }

  lemma SettledIsLinked<T>(s: State<T>)
    requires Settled(s)
    ensures LinkedFrom(s.heap, s.order, s.first)
  {
    forall k | s.first <= k < |s.order|
      ensures s.heap[s.order[k]].next == if k + 1 < |s.order| then Some(s.order[k + 1]) else None
    {
      if k < |s.linker| {
        assert LinkOk(s.heap, s.producers, s.order[k], s.order[k + 1], s.linker[k], k);
      }
    }
  }

  /** Over any run that ends with no push or pop in progress: the destructor stops after one
      deletion per node left, nothing stays allocated, and every node ever allocated, the first
      dummy included, has been deleted exactly once. */
  lemma DestructionDeletesEachNodeOnce<T(!new)>(states: seq<State<T>>, acts: seq<Action<T>>)
    requires IsRun(states, acts)
    requires var s := states[|acts|]; s.producers == map[] && s.consumer.Outside?
    ensures var s := states[|acts|];
      s.first < |s.order| &&
      var end := Walk(s.heap, Some(s.head), s.lives, |s.order| - s.first);
      && end.Some? && end.value.0 == map[] && |end.value.1| == |s.lives|
      && forall k :: 0 <= k < |s.lives| ==> end.value.1[k].deletes == 1
  {
    var s := states[|acts|];
    RunKeepsInv(states, acts, |acts|);
    SettledIsLinked(s);
    WalkFreesAll(s.heap, s.order, s.first, s.lives);
  }
}
