/** The alert queue: any number of threads in `enqueue_alert`, one worker in `process_alerts`,
    one call of `stop`, over a mutex and a condition variable that may also wake spuriously. */
module AlertMonitor {
  import opened Wrappers

  type Tid = nat

  datatype Owner = Worker | Enqueuer(p: Tid)

  datatype WorkerPc<A> =
    | LoopTest | WantLock
    | TestPredicate | GoingToSleep     // inside wait, mutex held
    | Asleep | WantRelock              // inside wait, mutex released
    | InnerTest | Popped(alert: A)     // mutex held
    | Delivering(alert: A) | WantInnerLock
    | Finished

  // A thread absent from the map is outside `enqueue_alert`.
  datatype EnqueuerPc<A> = Arrived(alert: A) | Locked(alert: A) | Stored | Unlocked

  datatype StopPc = NotCalled | Cleared | Notified

  datatype State<A> = State(
    queue: seq<A>, running: bool, mutex: Option<Owner>,
    worker: WorkerPc<A>, enqueuers: map<Tid, EnqueuerPc<A>>, stopper: StopPc,
    // history
    enqueued: seq<A>, delivered: seq<A>, stopMissed: bool)

  datatype Action<A> =
    | Arrive(p: Tid, alert: A) | Lock(p: Tid) | Store(p: Tid) | Unlock(p: Tid) | Notify(p: Tid)
    | WorkerStep | SpuriousWake
    | StopClear | StopNotify

  ghost function Init<A>(): State<A> {
    State([], true, None, LoopTest, map[], NotCalled, [], [], false)
  }

  ghost predicate Enabled<A>(s: State<A>, a: Action<A>) {
    match a
    case Arrive(p, _) => p !in s.enqueuers
    case Lock(p) => p in s.enqueuers && s.enqueuers[p].Arrived? && s.mutex.None?
    case Store(p) => p in s.enqueuers && s.enqueuers[p].Locked?
    case Unlock(p) => p in s.enqueuers && s.enqueuers[p].Stored?
    case Notify(p) => p in s.enqueuers && s.enqueuers[p].Unlocked?
    case WorkerStep => WorkerCanMove(s)
    case SpuriousWake => s.worker.Asleep?
    case StopClear => s.stopper.NotCalled?
    case StopNotify => s.stopper.Cleared?
  }

  ghost predicate WorkerCanMove<A>(s: State<A>) {
    match s.worker
    case WantLock => s.mutex.None?
    case WantRelock => s.mutex.None?
    case WantInnerLock => s.mutex.None?
    case Asleep => false
    case Finished => false
    case _ => true
  }

  ghost function Woken<A>(w: WorkerPc<A>): WorkerPc<A> { if w.Asleep? then WantRelock else w }

  // What the worker does next; its program is deterministic.
  ghost function WorkerNext<A>(s: State<A>): State<A>
    requires WorkerCanMove(s)
  {
    match s.worker
    case LoopTest => s.(worker := if s.running then WantLock else Finished)
    case WantLock => s.(worker := TestPredicate, mutex := Some(Worker))
    case WantRelock => s.(worker := TestPredicate, mutex := Some(Worker))
    case TestPredicate => s.(worker := if s.queue != [] || !s.running then InnerTest else GoingToSleep)
    case GoingToSleep => s.(worker := Asleep, mutex := None)
    case InnerTest =>
      if s.queue == [] then s.(worker := LoopTest, mutex := None)
      else s.(worker := Popped(s.queue[0]), queue := s.queue[1..])
    case Popped(alert) => s.(worker := Delivering(alert), mutex := None)
    case Delivering(alert) => s.(worker := WantInnerLock, delivered := s.delivered + [alert])
    case WantInnerLock => s.(worker := InnerTest, mutex := Some(Worker))
    case _ => s
  }

  ghost function Apply<A>(s: State<A>, a: Action<A>): State<A>
    requires Enabled(s, a)
  {
    match a
    case Arrive(p, alert) => s.(enqueuers := s.enqueuers[p := Arrived(alert)])
    case Lock(p) => s.(enqueuers := s.enqueuers[p := Locked(s.enqueuers[p].alert)], mutex := Some(Enqueuer(p)))
    case Store(p) =>
      s.(enqueuers := s.enqueuers[p := Stored],
         queue := s.queue + [s.enqueuers[p].alert], enqueued := s.enqueued + [s.enqueuers[p].alert])
    case Unlock(p) => s.(enqueuers := s.enqueuers[p := Unlocked], mutex := None)
    case Notify(p) => s.(enqueuers := s.enqueuers - {p}, worker := Woken(s.worker))
    case WorkerStep => WorkerNext(s)
    case SpuriousWake => s.(worker := Woken(s.worker))
    case StopClear => s.(stopper := Cleared, running := false)
    case StopNotify => s.(stopper := Notified, worker := Woken(s.worker), stopMissed := s.worker.GoingToSleep?)
  }

  // ------------------------------------------------- invariant

  function InHand<A>(w: WorkerPc<A>): seq<A> {
    if w.Popped? || w.Delivering? then [w.alert] else []
  }

  // The alerts that are somewhere on their way, oldest first.
  ghost function InOrder<A>(s: State<A>): seq<A> { s.delivered + InHand(s.worker) + s.queue }

  ghost predicate WorkerHolds<A>(w: WorkerPc<A>) { w.TestPredicate? || w.GoingToSleep? || w.InnerTest? || w.Popped? }

  ghost predicate MutexOk<A>(s: State<A>) {
    && (WorkerHolds(s.worker) <==> s.mutex == Some(Worker))
    && (forall p :: p in s.enqueuers ==>
        ((s.enqueuers[p].Locked? || s.enqueuers[p].Stored?) <==> s.mutex == Some(Enqueuer(p))))
    && (s.mutex.Some? && s.mutex.value.Enqueuer? ==> s.mutex.value.p in s.enqueuers)
  }

  // Some thread has stored its alert and has not notified yet.
  ghost predicate NotifyDue<A>(s: State<A>) {
    exists p :: p in s.enqueuers && (s.enqueuers[p].Stored? || s.enqueuers[p].Unlocked?)
  }

  ghost predicate Inv<A>(s: State<A>) {
    && InOrder(s) == s.enqueued
    && MutexOk(s)
    && (s.worker.GoingToSleep? ==> s.queue == [])
    && (s.worker.Asleep? && s.queue != [] ==> NotifyDue(s))
    && StopOk(s)
  }

  ghost predicate StopOk<A>(s: State<A>) {
    && (s.running <==> s.stopper.NotCalled?) && (s.running ==> !s.worker.Finished?)
    && (s.stopper.Notified? && !s.stopMissed ==> !s.worker.GoingToSleep? && !s.worker.Asleep?)
    && (s.stopMissed ==> s.stopper.Notified?)
  }

  lemma StepKeepsMutex<A>(s: State<A>, a: Action<A>)
    requires MutexOk(s) && Enabled(s, a)
    ensures MutexOk(Apply(s, a))
  {
  }

  lemma StepKeepsWakeup<A>(s: State<A>, a: Action<A>)
    requires Inv(s) && Enabled(s, a)
    ensures var t := Apply(s, a); t.worker.Asleep? && t.queue != [] ==> NotifyDue(t)
  {
    var t := Apply(s, a);
    if t.worker.Asleep? && t.queue != [] {
      if a.Store? {
        assert t.enqueuers[a.p].Stored?;
      } else {
        var p :| p in s.enqueuers && (s.enqueuers[p].Stored? || s.enqueuers[p].Unlocked?);
        assert p in t.enqueuers && (t.enqueuers[p].Stored? || t.enqueuers[p].Unlocked?);
      }
    }
  }

  lemma StoreAppends<A>(s: State<A>, a: Action<A>)
    requires Enabled(s, a) && a.Store?
    ensures InOrder(Apply(s, a)) == InOrder(s) + [s.enqueuers[a.p].alert]
  {
  }

  lemma TakenOut<A>(done: seq<A>, queue: seq<A>)
    requires queue != []
    ensures done + [] + queue == done + [queue[0]] + queue[1..]
  {
    assert queue == [queue[0]] + queue[1..];
  }

  lemma HandedOn<A>(done: seq<A>, alert: A, queue: seq<A>)
    ensures done + [alert] + queue == (done + [alert]) + [] + queue
  {
  }

  lemma WorkerKeepsOrder<A>(s: State<A>)
    requires WorkerCanMove(s)
    ensures InOrder(WorkerNext(s)) == InOrder(s) && WorkerNext(s).enqueued == s.enqueued
  {
    if s.worker.InnerTest? && s.queue != [] {
      TakenOut(s.delivered, s.queue);
    } else if s.worker.Delivering? {
      HandedOn(s.delivered, s.worker.alert, s.queue);
    } else {
      var t := WorkerNext(s);
      assert t.delivered == s.delivered && t.queue == s.queue && InHand(t.worker) == InHand(s.worker);
    }
  }

  lemma OthersKeepOrder<A>(s: State<A>, a: Action<A>)
    requires Enabled(s, a) && !a.Store? && !a.WorkerStep?
    ensures InOrder(Apply(s, a)) == InOrder(s) && Apply(s, a).enqueued == s.enqueued
  {
  }

  lemma StepKeepsOrder<A>(s: State<A>, a: Action<A>)
    requires InOrder(s) == s.enqueued && Enabled(s, a)
    ensures InOrder(Apply(s, a)) == Apply(s, a).enqueued
  {
    hide InOrder, WorkerNext;
    if a.Store? {
      StoreAppends(s, a);
    } else if a.WorkerStep? {
      WorkerKeepsOrder(s);
    } else {
      OthersKeepOrder(s, a);
    }
  }

  lemma StepKeepsSleep<A>(s: State<A>, a: Action<A>)
    requires MutexOk(s) && (s.worker.GoingToSleep? ==> s.queue == []) && Enabled(s, a)
    ensures var t := Apply(s, a); t.worker.GoingToSleep? ==> t.queue == []
  {
  }

  lemma StepKeepsStop<A>(s: State<A>, a: Action<A>)
    requires StopOk(s) && Enabled(s, a)
    ensures StopOk(Apply(s, a))
  {
  }

  lemma StepKeepsInv<A>(s: State<A>, a: Action<A>)
    requires Inv(s) && Enabled(s, a)
    ensures Inv(Apply(s, a))
  {
    hide MutexOk, NotifyDue, StopOk, Enabled, Apply, InOrder;
    StepKeepsOrder(s, a);
    StepKeepsMutex(s, a);
    StepKeepsSleep(s, a);
    StepKeepsWakeup(s, a);
    StepKeepsStop(s, a);
  }

  // ------------------------------------------------- whole runs

  ghost predicate Path<A(!new)>(states: seq<State<A>>, acts: seq<Action<A>>) {
    && |states| == |acts| + 1
    && (forall i {:trigger acts[i]} :: 0 <= i < |acts| ==>
        Enabled(states[i], acts[i]) && states[i + 1] == Apply(states[i], acts[i]))
  }

  lemma {:induction false} RunKeepsInv<A(!new)>(states: seq<State<A>>, acts: seq<Action<A>>, i: nat)
    requires Path(states, acts) && states[0] == Init() && i < |states|
    ensures Inv(states[i])
  {
    if i > 0 {
      RunKeepsInv(states, acts, i - 1);
      StepKeepsInv(states[i - 1], acts[i - 1]);
    }
  }

  // The alerts in the order in which they were stored, read off the actions.
  ghost function Accepted<A>(acts: seq<Action<A>>): (map<Tid, A>, seq<A>) {
    if acts == [] then (map[], []) else
    var (args, stored) := Accepted(acts[..|acts| - 1]);
    match acts[|acts| - 1]
    case Arrive(p, alert) => (args[p := alert], stored)
    case Store(p) => (args, if p in args then stored + [args[p]] else stored)
    case _ => (args, stored)
  }

  ghost predicate Remembers<A>(s: State<A>, args: map<Tid, A>, stored: seq<A>) {
    && s.enqueued == stored
    && forall p :: p in s.enqueuers && (s.enqueuers[p].Arrived? || s.enqueuers[p].Locked?) ==>
         p in args && args[p] == s.enqueuers[p].alert
  }

  lemma StepRemembers<A>(s: State<A>, a: Action<A>, args: map<Tid, A>, stored: seq<A>)
    requires Remembers(s, args, stored) && Enabled(s, a)
    ensures match a
            case Arrive(p, alert) => Remembers(Apply(s, a), args[p := alert], stored)
            case Store(p) => p in args && Remembers(Apply(s, a), args, stored + [args[p]])
            case _ => Remembers(Apply(s, a), args, stored)
  {
  }

  lemma {:induction false} RunStoresArguments<A(!new)>(states: seq<State<A>>, acts: seq<Action<A>>, i: nat)
    requires Path(states, acts) && states[0] == Init() && i <= |acts|
    ensures Remembers(states[i], Accepted(acts[..i]).0, Accepted(acts[..i]).1)
  {
    hide Remembers, Enabled, Apply;
    if i > 0 {
      RunStoresArguments(states, acts, i - 1);
      assert acts[..i][..i - 1] == acts[..i - 1];
      assert acts[..i][i - 1] == acts[i - 1];
      StepRemembers(states[i - 1], acts[i - 1], Accepted(acts[..i - 1]).0, Accepted(acts[..i - 1]).1);
    } else {
      NothingRemembered<A>();
    }
  }

  lemma NothingRemembered<A>()
    ensures Remembers(Init<A>(), map[], [])
  {
  }

  /** In every reachable state the alerts handed on, the one in hand and the queue are, in this
      order, the alerts accepted so far; and a sleeping worker never coexists with a non-empty
      queue unless a thread is about to notify. */
  lemma NothingLostNoWakeupLost<A(!new)>(states: seq<State<A>>, acts: seq<Action<A>>)
    requires Path(states, acts) && states[0] == Init()
    ensures var s := states[|acts|];
      && InOrder(s) == Accepted(acts).1
      && (s.worker.Asleep? && s.queue != [] ==> NotifyDue(s))
      && (s.worker.Asleep? && s.queue != [] && s.mutex.None? ==>
          exists p :: p in s.enqueuers && s.enqueuers[p].Unlocked?)
  {
    var s := states[|acts|];
    RunKeepsInv(states, acts, |acts|);
    RunStoresArguments(states, acts, |acts|);
    assert acts[..|acts|] == acts;
    if s.worker.Asleep? && s.queue != [] {
      var p :| p in s.enqueuers && (s.enqueuers[p].Stored? || s.enqueuers[p].Unlocked?);
    }
  }

  // ------------------------------------------------- the worker makes progress alone

  ghost function Rank<A>(w: WorkerPc<A>): nat {
    match w
    case Popped(_) => 12
    case Delivering(_) => 11
    case WantInnerLock => 10
    case LoopTest => 8
    case WantLock => 7
    case WantRelock => 7
    case TestPredicate => 6
    case InnerTest => 5
    case _ => 0
  }

  /** While no thread is inside `enqueue_alert` and the monitor runs, the worker by itself
      delivers everything that was accepted, in at most 20 steps per queued alert plus 12. */
  lemma {:induction false} WorkerDrains<A(!new)>(s: State<A>) returns (states: seq<State<A>>, acts: seq<Action<A>>)
    requires Inv(s) && s.running && s.enqueuers == map[]
    ensures Path(states, acts) && states[0] == s && forall i :: 0 <= i < |acts| ==> acts[i] == WorkerStep
    ensures |acts| <= 20 * |s.queue| + Rank(s.worker)
    ensures var t := states[|acts|]; t.queue == [] && t.delivered == t.enqueued == s.enqueued
    decreases 20 * |s.queue| + Rank(s.worker)
  {
    if s.queue == [] && InHand(s.worker) == [] {
      return [s], [];
    }
    assert WorkerCanMove(s);
    StepKeepsInv(s, WorkerStep);
    var states', acts' := WorkerDrains(WorkerNext(s));
    states, acts := [s] + states', [WorkerStep] + acts';
    assert forall i :: 1 <= i <= |acts| ==> states[i] == states'[i - 1];
    assert forall i :: 1 <= i < |acts| ==> acts[i] == acts'[i - 1];
  }

  // ------------------------------------------------- stop

  ghost predicate Parked<A>(s: State<A>) { s.worker.GoingToSleep? || s.worker.Asleep? }

  /** `stop` leaves the worker parked only if its notify_all fell between the worker's test of
      the predicate and its going to sleep. */
  lemma StopMissedOnlyInTheWindow<A(!new)>(states: seq<State<A>>, acts: seq<Action<A>>)
    requires Path(states, acts) && states[0] == Init()
    ensures states[|acts|].stopper.Notified? && Parked(states[|acts|]) ==>
      exists i :: 0 <= i < |acts| && acts[i].StopNotify? && states[i].worker.GoingToSleep?
  {
    RunKeepsInv(states, acts, |acts|);
    MissedHasCause(states, acts, |acts|);
  }

  lemma {:induction false} MissedHasCause<A(!new)>(states: seq<State<A>>, acts: seq<Action<A>>, n: nat)
    requires Path(states, acts) && states[0] == Init() && n <= |acts|
    ensures states[n].stopMissed ==> exists i :: 0 <= i < n && acts[i].StopNotify? && states[i].worker.GoingToSleep?
  {
    if n > 0 && states[n].stopMissed {
      if states[n - 1].stopMissed {
        MissedHasCause(states, acts, n - 1);
      } else {
        assert acts[n - 1].StopNotify?;
      }
    }
  }

  ghost predicate Wakes<A>(a: Action<A>) { a.Notify? || a.SpuriousWake? }

  // What happens after the notify_all at i, as long as nothing else wakes the worker.
  lemma {:induction false} AfterStop<A(!new)>(states: seq<State<A>>, acts: seq<Action<A>>, i: nat, n: nat)
    requires Path(states, acts) && states[0] == Init() && i < n <= |acts| && acts[i].StopNotify?
    requires forall j :: i < j < n ==> !Wakes(acts[j])
    ensures states[n].stopper.Notified? && (states[n].stopMissed <==> states[i].worker.GoingToSleep?)
    ensures states[n].stopMissed ==> Parked(states[n])
  {
    if n == i + 1 {
      assert acts[n - 1].StopNotify?;
    } else {
      AfterStop(states, acts, i, n - 1);
      assert !Wakes(acts[n - 1]);
    }
  }

  /** Until something else wakes it, the worker is parked after `stop` exactly when the notify_all
      fell in that window. */
  lemma ParkedIffMissed<A(!new)>(states: seq<State<A>>, acts: seq<Action<A>>, i: nat)
    requires Path(states, acts) && states[0] == Init() && i < |acts| && acts[i].StopNotify?
    requires forall j :: i < j < |acts| ==> !Wakes(acts[j])
    ensures Parked(states[|acts|]) <==> states[i].worker.GoingToSleep?
  {
    AfterStop(states, acts, i, |acts|);
    RunKeepsInv(states, acts, |acts|);
  }

  // The worker on its own, no other thread taking a step, comes to its end.
  ghost predicate EndsAlone<A(!new)>(s: State<A>) {
    exists states: seq<State<A>>, acts: seq<Action<A>> :: WorkerRun(s, states, acts) && states[|acts|].worker.Finished?
  }

  ghost predicate WorkerRun<A(!new)>(s: State<A>, states: seq<State<A>>, acts: seq<Action<A>>) {
    Path(states, acts) && states[0] == s && forall i :: 0 <= i < |acts| ==> acts[i] == WorkerStep
  }

  // After `stop`, with no thread inside `enqueue_alert`.
  ghost predicate Stopped<A>(s: State<A>) {
    Inv(s) && s.stopper.Notified? && s.enqueuers == map[]
  }

  lemma StepStaysStopped<A>(s: State<A>)
    requires Stopped(s) && WorkerCanMove(s)
    ensures Stopped(WorkerNext(s))
  {
    StepKeepsInv(s, WorkerStep);
  }

  // A worker that is not parked can move, and never parks again.
  lemma StaysAwake<A>(s: State<A>)
    requires Stopped(s) && !Parked(s) && !s.worker.Finished?
    ensures WorkerCanMove(s) && !Parked(WorkerNext(s))
    ensures StopRank(WorkerNext(s)) < StopRank(s)
  {
  }

  ghost function StopRank<A>(s: State<A>): nat {
    20 * |s.queue| +
    match s.worker
    case Popped(_) => 13
    case Delivering(_) => 12
    case WantInnerLock => 11
    case WantLock => 9
    case WantRelock => 9
    case TestPredicate => 8
    case InnerTest => 7
    case LoopTest => 2
    case _ => 0
  }

  // About to end, or ended, over a queue that is not empty.
  ghost predicate Drops<A>(s: State<A>) { (s.worker.LoopTest? || s.worker.Finished?) && s.queue != [] }

  lemma NeverDrops<A>(s: State<A>)
    requires Stopped(s) && !Drops(s) && WorkerCanMove(s)
    ensures !Drops(WorkerNext(s))
  {
  }

  lemma {:induction false} AwakeEnds<A(!new)>(s: State<A>) returns (states: seq<State<A>>, acts: seq<Action<A>>)
    requires Stopped(s) && !Parked(s)
    ensures WorkerRun(s, states, acts) && states[|acts|].worker.Finished? && Inv(states[|acts|])
    ensures !Drops(s) ==> states[|acts|].queue == []
    decreases StopRank(s)
  {
    if s.worker.Finished? {
      return [s], [];
    }
    StaysAwake(s);
    StepStaysStopped(s);
    if !Drops(s) { NeverDrops(s); }
    var states', acts' := AwakeEnds(WorkerNext(s));
    states, acts := [s] + states', [WorkerStep] + acts';
    assert forall i :: 1 <= i <= |acts| ==> states[i] == states'[i - 1];
    assert forall i :: 1 <= i < |acts| ==> acts[i] == acts'[i - 1];
  }

  lemma {:induction false} ParkedStays<A(!new)>(s: State<A>, states: seq<State<A>>, acts: seq<Action<A>>, i: nat)
    requires WorkerRun(s, states, acts) && Parked(s) && i < |states|
    ensures Parked(states[i])
  {
    if i > 0 {
      ParkedStays(s, states, acts, i - 1);
      assert acts[i - 1] == WorkerStep;
    }
  }

  lemma {:induction false} DroppingStays<A(!new)>(s: State<A>, states: seq<State<A>>, acts: seq<Action<A>>, i: nat)
    requires Stopped(s) && WorkerRun(s, states, acts) && Drops(s) && i < |states|
    ensures Drops(states[i]) && states[i].queue == s.queue && !states[i].running
  {
    if i > 0 {
      DroppingStays(s, states, acts, i - 1);
      assert acts[i - 1] == WorkerStep;
    }
  }

  // The worker on its own comes to its end, and everything enqueued has been delivered.
  ghost predicate EndsDelivered<A(!new)>(s: State<A>) {
    exists states: seq<State<A>>, acts: seq<Action<A>> ::
      WorkerRun(s, states, acts) && states[|acts|].worker.Finished? && AllDelivered(states[|acts|])
  }

  ghost predicate AllDelivered<A>(s: State<A>) { s.queue == [] && s.delivered == s.enqueued }

  /** After `stop` the worker comes to its end and leaves no alert behind exactly when it is not parked
      and not past its last look at a queue that is not empty. */
  lemma EndsDeliveredIff<A(!new)>(s: State<A>)
    requires Stopped(s)
    ensures EndsDelivered(s) <==> !Parked(s) && !Drops(s)
  {
    if Parked(s) {
      forall states: seq<State<A>>, acts: seq<Action<A>> | WorkerRun(s, states, acts)
        ensures !states[|acts|].worker.Finished?
      {
        ParkedStays(s, states, acts, |acts|);
      }
    } else if Drops(s) {
      forall states: seq<State<A>>, acts: seq<Action<A>> | WorkerRun(s, states, acts)
        ensures !AllDelivered(states[|acts|])
      {
        DroppingStays(s, states, acts, |acts|);
      }
    } else {
      var states, acts := AwakeEnds(s);
      assert WorkerRun(s, states, acts) && states[|acts|].worker.Finished? && AllDelivered(states[|acts|]);
    }
  }

  /** After `stop` the worker comes to its end exactly when it is not parked. */
  lemma EndsIffNotParked<A(!new)>(s: State<A>)
    requires Stopped(s)
    ensures EndsAlone(s) <==> !Parked(s)
  {
    if Parked(s) {
      forall states: seq<State<A>>, acts: seq<Action<A>> | WorkerRun(s, states, acts)
        ensures !states[|acts|].worker.Finished?
      {
        ParkedStays(s, states, acts, |acts|);
      }
    } else {
      var states, acts := AwakeEnds(s);
      assert WorkerRun(s, states, acts) && states[|acts|].worker.Finished?;
    }
  }

  /** `stop` ends the worker, no thread being inside `enqueue_alert`, exactly when its notify_all
      does not fall between the worker's test of the predicate and its going to sleep. */
  lemma StopEndsTheWorkerIff<A(!new)>(s: State<A>)
    requires Inv(s) && Enabled(s, StopNotify) && s.enqueuers == map[]
    ensures EndsAlone(Apply(s, StopNotify)) <==> !s.worker.GoingToSleep?
  {
    StepKeepsInv(s, StopNotify);
    EndsIffNotParked(Apply(s, StopNotify));
  }

  /** `stop` ends the worker with every alert delivered exactly when, moreover, the worker is not
      between two rounds, or at its end, with alerts in the queue. */
  lemma StopDeliversIff<A(!new)>(s: State<A>)
    requires Inv(s) && Enabled(s, StopNotify) && s.enqueuers == map[]
    ensures EndsDelivered(Apply(s, StopNotify)) <==> !s.worker.GoingToSleep? && !Drops(s)
  {
    StepKeepsInv(s, StopNotify);
    EndsDeliveredIff(Apply(s, StopNotify));
  }

  lemma PathOn<A(!new)>(states: seq<State<A>>, acts: seq<Action<A>>, a: Action<A>)
    requires Path(states, acts) && Enabled(states[|acts|], a)
    ensures Path(states + [Apply(states[|acts|], a)], acts + [a])
  {
    hide Enabled, Apply;
  }

  // An alert is enqueued while the worker is between two rounds.
  lemma AlertComesIn<A(!new)>(alert: A) returns (states: seq<State<A>>, acts: seq<Action<A>>)
    ensures Path(states, acts) && states[0] == Init()
    ensures |states| == |acts| + 1 && states[|acts|] == Init<A>().(queue := [alert], enqueued := [alert])
  {
    hide Path;
    states, acts := [Init()], [];
    assert Path(states, acts) by { NoSteps(Init<A>()); }
    PathOn(states, acts, Arrive(0, alert));
    states, acts := states + [Apply(states[|acts|], Arrive(0, alert))], acts + [Arrive(0, alert)];
    PathOn(states, acts, Lock(0));
    states, acts := states + [Apply(states[|acts|], Lock(0))], acts + [Lock(0)];
    PathOn(states, acts, Store(0));
    states, acts := states + [Apply(states[|acts|], Store(0))], acts + [Store(0)];
    PathOn(states, acts, Unlock(0));
    states, acts := states + [Apply(states[|acts|], Unlock(0))], acts + [Unlock(0)];
    PathOn(states, acts, Notify(0));
    states, acts := states + [Apply(states[|acts|], Notify(0))], acts + [Notify(0)];
  }

  lemma NoSteps<A(!new)>(s: State<A>)
    ensures Path([s], [])
  {
  }

  /** An input: an alert that is enqueued while the worker is between two rounds, just before `stop`,
      is never delivered, although the worker ends. */
  lemma StopCanDropAnAlert<A(!new)>(alert: A) returns (states: seq<State<A>>, acts: seq<Action<A>>)
    ensures Path(states, acts) && states[0] == Init()
    ensures var s := states[|acts|]; s.worker.Finished? && s.queue == [alert] && s.delivered == []
  {
    hide Path;
    states, acts := AlertComesIn(alert);
    PathOn(states, acts, StopClear);
    states, acts := states + [Apply(states[|acts|], StopClear)], acts + [StopClear];
    PathOn(states, acts, StopNotify);
    states, acts := states + [Apply(states[|acts|], StopNotify)], acts + [StopNotify];
    PathOn(states, acts, WorkerStep);
    states, acts := states + [Apply(states[|acts|], WorkerStep)], acts + [WorkerStep];
  }

  /** In that window it does happen: afterwards no step of the worker or of `stop` is possible,
      so the join in `stop` waits for an event from outside. */
  lemma StopCanMissTheWorker<A(!new)>() returns (states: seq<State<A>>, acts: seq<Action<A>>)
    ensures Path(states, acts) && states[0] == Init()
    ensures var s := states[|acts|];
      && s.stopper.Notified? && s.worker.Asleep? && s.enqueuers == map[]
      && !Enabled(s, WorkerStep) && !Enabled(s, StopClear) && !Enabled(s, StopNotify)
  {
    acts := [WorkerStep, WorkerStep, WorkerStep, StopClear, StopNotify, WorkerStep];
    var s0: State<A> := Init();
    var s1 := Apply(s0, acts[0]);
    var s2 := Apply(s1, acts[1]);
    var s3 := Apply(s2, acts[2]);
    var s4 := Apply(s3, acts[3]);
    var s5 := Apply(s4, acts[4]);
    states := [s0, s1, s2, s3, s4, s5, Apply(s5, acts[5])];
  }
}
