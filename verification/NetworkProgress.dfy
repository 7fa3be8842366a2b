/** The network of lock-free queues comes to an end too, once the parser's calls have returned: from
    every reachable state some stage can make a step that helps, and a bounded number of these do all
    the work. A poll of an empty queue, a read of a link not stored yet and a compare-exchange that
    fails do not help; a schedule may repeat them for ever. */
module NetworkProgress {
  import opened Common
  import opened Fifo
  import opened Stages
  import opened Wrappers
  import opened QueueNetwork
  import G = PipelineProgress
  import P = Pipeline
  import Q = QueueProtocol
  import R = QueueRuns

  // ------------------------------------------------- one queue

  ghost predicate Drained<T>(q: Q.State<T>) { |q.delivered| == |q.pushed| }

  ghost predicate Linking<T>(q: Q.State<T>) { exists p :: p in q.producers && q.producers[p].Exchanged? }

  // A push or a pop is under way that has to be finished before anything else.
  ghost predicate Busy<T>(q: Q.State<T>) { Linking(q) || !q.consumer.Outside? }

  ghost predicate Helps<T>(q: Q.State<T>, a: Q.Action<T>) {
    match a
    case LoadHead => !Drained(q)
    case LoadNext => q.consumer.Loaded? && q.consumer.oldHead in q.heap
                     && (Drained(q) || q.heap[q.consumer.oldHead].next.Some?)
    case CasHead(succeeds) => succeeds
    case _ => true
  }

  // The steps of a push and of a pop still to come, where an exchange and a move start new ones.
  ghost function PushLeft<T>(q: Q.State<T>): nat {
    if 0 !in q.producers then 2 else if q.producers[0].Holding? then 1 else 3
  }

  ghost function PopLeft<T>(q: Q.State<T>): nat {
    match q.consumer
    case Moved(_) => 6
    case Loaded(_) => if Drained(q) then 6 else 4
    case Outside => 5
    case Chained(_, _) => 3
    case Swung(_, _) => 2
  }

  ghost function Hidden<T>(q: Q.State<T>): nat { PushLeft(q) + PopLeft(q) }

  lemma PushStepHelps<T>(q: Q.State<T>, a: Q.Action<T>)
    requires Q.Inv(q) && Q.Enabled(q, a) && q.producers.Keys <= {0} && (a.NewNode? ==> a.p == 0)
    requires a.NewNode? || a.ExchangeTail? || a.LinkOldTail?
    ensures Hidden(Q.Apply(q, a)) <= if a.ExchangeTail? then Hidden(q) + 2 else Hidden(q) - 1
  {
    hide Q.Inv;
    Q.StepKeepsInv(q, a);
    InvBounds(q);
    InvBounds(Q.Apply(q, a));
  }

  lemma PopStepHelps<T>(q: Q.State<T>, a: Q.Action<T>)
    requires Q.Inv(q) && Q.Enabled(q, a) && Helps(q, a)
    requires !a.NewNode? && !a.ExchangeTail? && !a.LinkOldTail?
    ensures Hidden(Q.Apply(q, a)) <= if a.MoveValue? then Hidden(q) + 4 else Hidden(q) - 1
  {
    hide Q.Inv;
    Q.StepKeepsInv(q, a);
    InvBounds(q);
    InvBounds(Q.Apply(q, a));
  }

  lemma InvBounds<T>(q: Q.State<T>)
    requires Q.Inv(q)
    ensures !q.fault && |q.delivered| <= |q.pushed|
    ensures q.consumer.Loaded? && Drained(q) ==> q.consumer.oldHead in q.heap && q.heap[q.consumer.oldHead].next.None?
  {
  }

  // What is under way can be finished, by a step that helps.
  lemma BusyCanStep<T>(q: Q.State<T>) returns (a: Q.Action<T>)
    requires Q.Inv(q) && Busy(q) && (Linking(q) ==> q.producers.Keys <= {0})
    ensures Q.Enabled(q, a) && Helps(q, a) && !a.NewNode? && !a.LoadHead? && !a.ExchangeTail?
    ensures a.LinkOldTail? ==> Linking(q)
  {
    if Linking(q) {
      var p :| p in q.producers && q.producers[p].Exchanged?;
      a := Q.LinkOldTail(p);
    } else {
      match q.consumer
      case Loaded(_) => a := Q.LoadNext; LinkedOrDrained(q);
      case Chained(_, _) => a := Q.CasHead(true);
      case Swung(_, _) => a := Q.MoveValue;
      case Moved(_) => a := Q.DeleteOldHead;
    }
  }

  lemma LinkedOrDrained<T>(q: Q.State<T>)
    requires Q.Inv(q) && !Linking(q) && q.consumer.Loaded?
    ensures q.consumer.oldHead in q.heap && (Drained(q) || q.heap[q.consumer.oldHead].next.Some?)
  {
    R.FalseVerdict(q);
  }

  lemma {:induction false} FreshAddress(used: set<Q.Addr>) returns (addr: Q.Addr)
    ensures addr !in used && forall a :: a in used ==> a < addr
  {
    if used == {} {
      addr := 0;
    } else {
      var some :| some in used;
      var past := FreshAddress(used - {some});
      addr := if some < past then past else some + 1;
      assert used == (used - {some}) + {some};
    }
  }

  // A stage that is not finishing a push can go on with the next one.
  lemma PushCanStep<T>(q: Q.State<T>, v: T) returns (a: Q.Action<T>)
    requires !Linking(q) && q.producers.Keys <= {0}
    ensures Q.Enabled(q, a) && Helps(q, a) && !a.LoadHead?
    ensures a == Q.ExchangeTail(0) || (a.NewNode? && a.p == 0 && a.value == v)
  {
    if 0 in q.producers {
      a := Q.ExchangeTail(0);
    } else {
      var addr := FreshAddress(q.heap.Keys);
      a := Q.NewNode(0, v, addr);
    }
  }

  lemma NothingHeld<T>(q: Q.State<T>, wants: T -> bool, polling: bool)
    requires Wired(q, wants, polling) && !Linking(q) && forall v :: !wants(v)
    ensures Returned(q)
  {
    hide Q.Inv, Held, Linking;
    if 0 in q.producers { HeldOrLinking(q, wants, polling); }
    assert q.producers.Keys == {};
  }

  lemma HeldOrLinking<T>(q: Q.State<T>, wants: T -> bool, polling: bool)
    requires Wired(q, wants, polling) && 0 in q.producers
    ensures Linking(q) || exists v :: wants(v)
  {
    hide Q.Inv;
    if q.producers[0].Holding? { assert wants(q.heap[q.producers[0].node].value.value); }
  }

  // ------------------------------------------------- a step of the network

  // Not the parser's, and it helps the queue it is on.
  ghost predicate Advances(s: Step) {
    s.LaserIn? ==> !s.laser.NewNode? && !s.laser.ExchangeTail? && !s.laser.LinkOldTail?
  }

  ghost predicate HelpsWorld(w: World, s: Step) {
    match s
    case LaserIn(a) => Helps(w.laserIn, a)
    case AlertQ(a) => Helps(w.alertQ, a)
    case RouterQ(a) => Helps(w.routerQ, a)
    case CrackIn(a) => Helps(w.crackIn, a)
    case FatigueQ(a) => Helps(w.fatigueQ, a)
    case DemQ(a) => Helps(w.demQ, a)
    case PredictionQ(a) => Helps(w.predictionQ, a)
    case RepairQ(a) => Helps(w.repairQ, a)
    case _ => true
  }

  // A stage's or the alert module's step that helps.
  ghost predicate Useful(c: P.Setup, w: World, s: Step) { Enabled(c, w, s) && Advances(s) && HelpsWorld(w, s) }

  ghost function HiddenLeft(w: World): nat {
    Hidden(w.laserIn) + Hidden(w.alertQ) + Hidden(w.routerQ) + Hidden(w.crackIn)
    + Hidden(w.fatigueQ) + Hidden(w.predictionQ) + Hidden(w.demQ) + Hidden(w.repairQ)
  }

  // A bound on the useful steps to come.
  ghost function Bound(w: World): nat { 5 * G.Rank(View(w)) + HiddenLeft(w) }

  ghost predicate Good(c: P.Setup, w: World) { Joined(c, w) && G.Sound(c, View(w)) }

  lemma QueueHelps<T>(q: Q.State<T>, a: Q.Action<T>, wants: T -> bool, polling: bool, mayPush: bool, mayPoll: bool)
    requires Wired(q, wants, polling) && Allowed(q, a, wants, mayPush, mayPoll) && Helps(q, a)
    ensures Hidden(Q.Apply(q, a)) <= if a.ExchangeTail? || a.MoveValue? then Hidden(q) + 4 else Hidden(q) - 1
  {
    hide Q.Inv, Q.Apply, Q.Enabled, Hidden;
    if a.NewNode? || a.ExchangeTail? || a.LinkOldTail? { PushStepHelps(q, a); } else { PopStepHelps(q, a); }
  }

  lemma WiredInv<T>(q: Q.State<T>, wants: T -> bool, polling: bool)
    requires Wired(q, wants, polling)
    ensures Q.Inv(q)
  {
    hide Q.Inv;
  }

  lemma OfferedIsThere<T(!new)>(q: Q.State<T>, a: Q.Action<T>)
    requires Q.Inv(q) && Q.Enabled(q, a) && a.ExchangeTail?
    ensures Offers(q, a.p)
  {
    hide Q.Inv;
    ExchangeStep(q, a);
  }

  // What can be seen does one unit of work; what cannot takes one step less.
  ghost predicate Lowers(seen: Option<P.Action>, before: nat, after: nat) {
    after <= if seen.Some? then before + 4 else before - 1
  }

  lemma HiddenLowers(c: P.Setup, w: World, s: Step)
    requires Joined(c, w) && Useful(c, w, s)
    ensures Lowers(Seen(w, s), HiddenLeft(w), HiddenLeft(Apply(c, w, s)))
  {
    hide Q.Inv, Q.Apply, Q.Enabled, Hidden, Helps, Wired, Returned, AlertIdle, WantsPrimary, WantsExtra, WantsItem,
      WantsRepair,
      Ready, Popped, Offers, Offered, FanSent, FanTakes, WorkSent, WorkTakes, Route, Polls, View;
    match s {
      case LaserIn(a) => PopStepHelps(w.laserIn, a);
      case AlertQ(a) =>
        QueueHelps(w.alertQ, a, WantsPrimary(w.laserFan), true, w.laserIn.consumer.Outside? && Returned(w.routerQ),
                   AlertIdle(w));
      case RouterQ(a) =>
        QueueHelps(w.routerQ, a, WantsExtra(w.laserFan), w.router.Waiting?,
                   w.laserIn.consumer.Outside? && Returned(w.alertQ), w.router.Waiting? && Returned(w.crackIn));
      case CrackIn(a) =>
        QueueHelps(w.crackIn, a, WantsItem(Route, w.router), w.crackFan.Polling?, w.routerQ.consumer.Outside?,
                   w.crackFan.Polling? && Returned(w.fatigueQ) && Returned(w.demQ));
      case FatigueQ(a) =>
        QueueHelps(w.fatigueQ, a, WantsPrimary(w.crackFan), w.fatigue.Waiting?,
                   w.crackIn.consumer.Outside? && Returned(w.demQ), w.fatigue.Waiting? && Returned(w.predictionQ));
      case DemQ(a) =>
        QueueHelps(w.demQ, a, WantsExtra(w.crackFan), w.dem.Waiting?,
                   w.crackIn.consumer.Outside? && Returned(w.fatigueQ), w.dem.Waiting? && Returned(w.repairQ));
      case PredictionQ(a) =>
        QueueHelps(w.predictionQ, a, WantsItem(P.Forecasts(c), w.fatigue), true, w.fatigueQ.consumer.Outside?,
                   AlertIdle(w));
      case RepairQ(a) =>
        WiredInv(w.repairQ, WantsRepair(c, w.dem), true);
        if a.ExchangeTail? { OfferedIsThere(w.repairQ, a); }
        QueueHelps(w.repairQ, a, WantsRepair(c, w.dem), true, w.demQ.consumer.Outside?, AlertIdle(w));
      case _ =>
    }
  }

  /** Each step that helps brings the end of the work closer. */
  lemma UsefulLowersBound(c: P.Setup, w: World, s: Step)
    requires Good(c, w) && Useful(c, w, s)
    ensures Good(c, Apply(c, w, s)) && Bound(Apply(c, w, s)) < Bound(w)
  {
    hide Joined, G.Sound, View, HiddenLeft, G.Rank, Apply, P.Enabled, P.Apply, P.Inv;
    StepSimulates(c, w, s);
    HiddenLowers(c, w, s);
    if Seen(w, s).Some? {
      var a := Seen(w, s).value;
      assert !a.ParserPush?;
      G.StepLowersRank(c, View(w), a);
      G.StepStaysSound(c, View(w), a);
    }
  }

  // ------------------------------------------------- somebody can step

  // No call is under way in any queue.
  ghost predicate Calm(w: World) {
    && !Busy(w.laserIn) && !Busy(w.alertQ) && !Busy(w.routerQ) && !Busy(w.crackIn)
    && !Busy(w.fatigueQ) && !Busy(w.predictionQ) && !Busy(w.demQ) && !Busy(w.repairQ)
  }

  lemma BusyWorldCanStep(c: P.Setup, w: World) returns (s: Step)
    requires Joined(c, w) && Returned(w.laserIn) && !Calm(w)
    ensures Useful(c, w, s)
  {
    hide Q.Inv, Q.Enabled, Helps, Busy, Held, Polls;
    if Busy(w.laserIn) {
      var a := BusyCanStep(w.laserIn);
      s := LaserIn(a);
    } else if Busy(w.alertQ) {
      var a := BusyCanStep(w.alertQ);
      s := AlertQ(a);
    } else if Busy(w.routerQ) {
      var a := BusyCanStep(w.routerQ);
      s := RouterQ(a);
    } else if Busy(w.crackIn) {
      var a := BusyCanStep(w.crackIn);
      s := CrackIn(a);
    } else if Busy(w.fatigueQ) {
      var a := BusyCanStep(w.fatigueQ);
      s := FatigueQ(a);
    } else if Busy(w.predictionQ) {
      var a := BusyCanStep(w.predictionQ);
      s := PredictionQ(a);
    } else if Busy(w.demQ) {
      var a := BusyCanStep(w.demQ);
      s := DemQ(a);
    } else {
      var a := BusyCanStep(w.repairQ);
      s := RepairQ(a);
    }
  }

  // A queue in which no call is under way.
  lemma CalmQueue<T>(q: Q.State<T>)
    requires !Busy(q)
    ensures !Linking(q) && q.consumer.Outside?
  {
  }

  lemma PollCanStart<T>(q: Q.State<T>)
    requires !Busy(q) && R.Abs(q).popped < |R.Abs(q).pushed|
    ensures Q.Enabled(q, Q.LoadHead) && Helps(q, Q.LoadHead)
  {
  }

  // The stage that can step in the network of abstract queues can step here.
  lemma LaserFanCanStep(c: P.Setup, w: World, a: P.Action) returns (s: Step)
    requires Joined(c, w) && Calm(w) && P.Enabled(c, View(w), a)
    requires a.LaserFanPop? || a.LaserFanPrimary? || a.LaserFanExtra? || a.AlertPopLaser?
    ensures Useful(c, w, s)
  {
    hide Q.Inv, Q.Enabled, Helps, Busy, Held, Polls, R.Abs, Returned, Linking;
    CalmQueue(w.laserIn);
    CalmQueue(w.alertQ);
    CalmQueue(w.routerQ);
    CalmQueue(w.predictionQ);
    CalmQueue(w.repairQ);
    if !w.laserFan.Primary? { NothingHeld(w.alertQ, WantsPrimary(w.laserFan), true); }
    if !w.laserFan.Extra? { NothingHeld(w.routerQ, WantsExtra(w.laserFan), w.router.Waiting?); }
    match a {
      case LaserFanPop =>
        PollCanStart(w.laserIn);
        s := LaserIn(Q.LoadHead);
      case LaserFanPrimary =>
        var push := PushCanStep(w.alertQ, w.laserFan.msg);
        s := AlertQ(push);
      case LaserFanExtra =>
        var push := PushCanStep(w.routerQ, w.laserFan.msg);
        s := RouterQ(push);
      case AlertPopLaser =>
        PollCanStart(w.alertQ);
        s := AlertQ(Q.LoadHead);
    }
  }

  lemma RouterCanStep(c: P.Setup, w: World, a: P.Action) returns (s: Step)
    requires Joined(c, w) && Calm(w) && P.Enabled(c, View(w), a) && (a.RouterPop? || a.RouterPush? || a.RouterDone?)
    ensures Useful(c, w, s)
  {
    hide Q.Inv, Q.Enabled, Helps, Busy, Held, Polls, R.Abs, Returned, Linking, Route;
    CalmQueue(w.routerQ);
    CalmQueue(w.crackIn);
    if !a.RouterPush? { NothingHeld(w.crackIn, WantsItem(Route, w.router), w.crackFan.Polling?); }
    match a {
      case RouterPop =>
        PollCanStart(w.routerQ);
        s := RouterQ(Q.LoadHead);
      case RouterPush =>
        var push := PushCanStep(w.crackIn, Route(w.router.msg)[w.router.done]);
        s := CrackIn(push);
      case RouterDone => s := RouterDone;
    }
  }

  lemma CrackFanCanStep(c: P.Setup, w: World, a: P.Action) returns (s: Step)
    requires Joined(c, w) && Calm(w) && P.Enabled(c, View(w), a)
    requires a.CrackFanPop? || a.CrackFanPrimary? || a.CrackFanExtra?
    ensures Useful(c, w, s)
  {
    hide Q.Inv, Q.Enabled, Helps, Busy, Held, Polls, R.Abs, Returned, Linking, Route;
    CalmQueue(w.crackIn);
    CalmQueue(w.fatigueQ);
    CalmQueue(w.demQ);
    if !w.crackFan.Primary? { NothingHeld(w.fatigueQ, WantsPrimary(w.crackFan), w.fatigue.Waiting?); }
    if !w.crackFan.Extra? { NothingHeld(w.demQ, WantsExtra(w.crackFan), w.dem.Waiting?); }
    match a {
      case CrackFanPop =>
        PollCanStart(w.crackIn);
        s := CrackIn(Q.LoadHead);
      case CrackFanPrimary =>
        var push := PushCanStep(w.fatigueQ, w.crackFan.msg);
        s := FatigueQ(push);
      case CrackFanExtra =>
        var push := PushCanStep(w.demQ, w.crackFan.msg);
        s := DemQ(push);
    }
  }

  lemma FatigueCanStep(c: P.Setup, w: World, a: P.Action) returns (s: Step)
    requires Joined(c, w) && Calm(w) && P.Enabled(c, View(w), a)
    requires a.FatiguePop? || a.FatiguePush? || a.FatigueDone? || a.AlertPopPrediction?
    ensures Useful(c, w, s)
  {
    hide Q.Inv, Q.Enabled, Helps, Busy, Held, Polls, R.Abs, Returned, Linking, Route;
    CalmQueue(w.fatigueQ);
    CalmQueue(w.alertQ);
    CalmQueue(w.predictionQ);
    CalmQueue(w.repairQ);
    if a.FatiguePop? || a.FatigueDone? {
      NothingHeld(w.predictionQ, WantsItem(P.Forecasts(c), w.fatigue), true);
    }
    match a {
      case FatiguePop =>
        PollCanStart(w.fatigueQ);
        s := FatigueQ(Q.LoadHead);
      case FatiguePush =>
        var push := PushCanStep(w.predictionQ, ForecastOf(c.model, w.fatigue.msg)[w.fatigue.done]);
        s := PredictionQ(push);
      case FatigueDone => s := FatigueDone;
      case AlertPopPrediction =>
        PollCanStart(w.predictionQ);
        s := PredictionQ(Q.LoadHead);
    }
  }

  lemma DemCanStep(c: P.Setup, w: World, a: P.Action) returns (s: Step)
    requires Joined(c, w) && Calm(w) && P.Enabled(c, View(w), a)
    requires a.DemPop? || a.DemPush? || a.DemDone? || a.AlertPopRepair?
    ensures Useful(c, w, s)
  {
    hide Q.Inv, Q.Enabled, Helps, Busy, Held, Polls, R.Abs, Returned, Linking, Route;
    CalmQueue(w.demQ);
    CalmQueue(w.alertQ);
    CalmQueue(w.predictionQ);
    CalmQueue(w.repairQ);
    if a.DemPop? || a.DemDone? { NothingHeld(w.repairQ, WantsRepair(c, w.dem), true); }
    match a {
      case DemPop =>
        PollCanStart(w.demQ);
        s := DemQ(Q.LoadHead);
      case DemPush(repair) =>
        var push := PushCanStep(w.repairQ, RepairFor(c, w.dem.msg, w.dem.done, repair));
        s := RepairQ(push);
      case DemDone => s := DemDone;
      case AlertPopRepair =>
        PollCanStart(w.repairQ);
        s := RepairQ(Q.LoadHead);
    }
  }

  lemma CalmWorldCanStep(c: P.Setup, w: World, a: P.Action) returns (s: Step)
    requires Joined(c, w) && Calm(w) && G.Steps(c, View(w), a)
    ensures Useful(c, w, s)
  {
    hide Joined, Calm, P.Enabled, Useful, View;
    match a {
      case LaserFanPop => s := LaserFanCanStep(c, w, a);
      case LaserFanPrimary => s := LaserFanCanStep(c, w, a);
      case LaserFanExtra => s := LaserFanCanStep(c, w, a);
      case AlertPopLaser => s := LaserFanCanStep(c, w, a);
      case RouterPop => s := RouterCanStep(c, w, a);
      case RouterPush => s := RouterCanStep(c, w, a);
      case RouterDone => s := RouterCanStep(c, w, a);
      case CrackFanPop => s := CrackFanCanStep(c, w, a);
      case CrackFanPrimary => s := CrackFanCanStep(c, w, a);
      case CrackFanExtra => s := CrackFanCanStep(c, w, a);
      case FatiguePop => s := FatigueCanStep(c, w, a);
      case FatiguePush => s := FatigueCanStep(c, w, a);
      case FatigueDone => s := FatigueCanStep(c, w, a);
      case AlertPopPrediction => s := FatigueCanStep(c, w, a);
      case DemPop => s := DemCanStep(c, w, a);
      case DemPush(_) => s := DemCanStep(c, w, a);
      case DemDone => s := DemCanStep(c, w, a);
      case AlertPopRepair => s := DemCanStep(c, w, a);
    }
  }

  /** Once the parser's calls have returned, as long as anything is left to do there is a step that
      helps. */
  lemma SomebodyCanHelp(c: P.Setup, w: World) returns (s: Step)
    requires Good(c, w) && Returned(w.laserIn) && !G.Done(View(w))
    ensures Useful(c, w, s)
  {
    hide Joined, G.Sound, G.Done, View, Useful, Returned, Calm;
    if !Calm(w) {
      s := BusyWorldCanStep(c, w);
    } else {
      var a := G.SomebodyCanStep(c, View(w));
      s := CalmWorldCanStep(c, w, a);
    }
  }

  // ------------------------------------------------- whole runs

  // Steps that help, one after the other.
  ghost predicate HelpfulRun(c: P.Setup, worlds: seq<World>, steps: seq<Step>) {
    && |worlds| == |steps| + 1
    && forall i {:trigger steps[i]} :: 0 <= i < |steps| ==>
         Useful(c, worlds[i], steps[i]) && worlds[i + 1] == Apply(c, worlds[i], steps[i])
  }

  /** However they are chosen, there are never more of them than the bound says. */
  lemma {:induction false} HelpfulRunsEnd(c: P.Setup, worlds: seq<World>, steps: seq<Step>, i: nat)
    requires HelpfulRun(c, worlds, steps) && Good(c, worlds[0]) && i <= |steps|
    ensures Good(c, worlds[i]) && Bound(worlds[i]) + i <= Bound(worlds[0])
  {
    hide Good, Useful, Apply, Bound;
    if i > 0 {
      HelpfulRunsEnd(c, worlds, steps, i - 1);
      UsefulLowersBound(c, worlds[i - 1], steps[i - 1]);
    }
  }

  lemma ReturnedStays(c: P.Setup, w: World, s: Step)
    requires Useful(c, w, s) && Returned(w.laserIn)
    ensures Returned(Apply(c, w, s).laserIn)
  {
    hide Q.Enabled, Helps, Allowed;
    if s.LaserIn? { PopsKeepProducers(w.laserIn, s.laser); }
  }

  lemma PopsKeepProducers<T>(q: Q.State<T>, a: Q.Action<T>)
    requires Q.Enabled(q, a) && !a.NewNode? && !a.ExchangeTail? && !a.LinkOldTail?
    ensures Q.Apply(q, a).producers == q.producers
  {
  }

  /** So there is a schedule that does everything, from every state that a run has reached. */
  lemma {:induction false} CanBeFinished(c: P.Setup, w: World) returns (worlds: seq<World>, steps: seq<Step>)
    requires Good(c, w) && Returned(w.laserIn)
    ensures HelpfulRun(c, worlds, steps) && worlds[0] == w && G.Done(View(worlds[|steps|]))
    ensures |steps| <= Bound(w)
    decreases Bound(w)
  {
    hide Good, Enabled, Apply, Bound, G.Done, View, Returned;
    if G.Done(View(w)) {
      return [w], [];
    }
    var s := SomebodyCanHelp(c, w);
    UsefulLowersBound(c, w, s);
    ReturnedStays(c, w, s);
    var worlds', steps' := CanBeFinished(c, Apply(c, w, s));
    worlds, steps := [w] + worlds', [s] + steps';
    assert forall i :: 1 <= i <= |steps| ==> worlds[i] == worlds'[i - 1];
    assert forall i :: 1 <= i < |steps| ==> steps[i] == steps'[i - 1];
  }

  lemma JoinedIsSound(c: P.Setup, w: World)
    requires Joined(c, w) && P.Inv(c, View(w))
    ensures Good(c, w)
  {
    hide Q.Inv, Held, Polls, P.Inv;
    InvBounds(w.alertQ);
    InvBounds(w.predictionQ);
    InvBounds(w.repairQ);
  }

  lemma RunGoesOn(c: P.Setup, worlds: seq<World>, steps: seq<Step>, later: seq<World>, more: seq<Step>)
    requires IsRun(c, worlds, steps) && HelpfulRun(c, later, more) && later[0] == worlds[|steps|]
    ensures IsRun(c, worlds + later[1..], steps + more) && (worlds + later[1..])[|steps + more|] == later[|more|]
  {
    hide Enabled, Apply, Start, Advances, HelpsWorld;
    var all, acts := worlds + later[1..], steps + more;
    forall i | 0 <= i < |acts| ensures Enabled(c, all[i], acts[i]) && all[i + 1] == Apply(c, all[i], acts[i]) {
      if i < |steps| {
        assert acts[i] == steps[i];
      } else {
        assert acts[i] == more[i - |steps|] && all[i] == later[i - |steps|] && all[i + 1] == later[i - |steps| + 1];
      }
    }
  }

  lemma PopsPushNothing<T>(q: Q.State<T>, a: Q.Action<T>)
    requires Q.Enabled(q, a) && !a.NewNode? && !a.ExchangeTail? && !a.LinkOldTail?
    ensures Q.Apply(q, a).pushed == q.pushed
  {
  }

  lemma {:induction false} ParserIsSilent(c: P.Setup, worlds: seq<World>, steps: seq<Step>, i: nat)
    requires HelpfulRun(c, worlds, steps) && i <= |steps|
    ensures worlds[i].laserIn.pushed == worlds[0].laserIn.pushed
  {
    hide Q.Enabled, Q.Apply, Helps, Allowed;
    if i > 0 {
      ParserIsSilent(c, worlds, steps, i - 1);
      var w, s := worlds[i - 1], steps[i - 1];
      assert Useful(c, w, s);
      if s.LaserIn? { PopsPushNothing(w.laserIn, s.laser); }
    }
  }

  lemma AllDelivered<T>(q: Q.State<T>)
    requires Q.Inv(q) && R.Abs(q).popped == |R.Abs(q).pushed|
    ensures q.delivered == q.pushed
  {
  }

  // Everything has reached the alert module.
  ghost predicate AllReceived(c: P.Setup, w: World, input: seq<LaserMessage>) {
    && w.alertQ.delivered == input
    && w.predictionQ.delivered == P.Flat(P.Forecasts(c), P.Flat(Route, input))
    && Targets(w.repairQ.delivered) == P.Flat(P.Repairs(c), P.Flat(Route, input))
  }

  lemma DoneIsReceived(c: P.Setup, w: World, input: seq<LaserMessage>)
    requires Joined(c, w) && G.Done(View(w)) && P.Complete(c, View(w), input, P.Flat(Route, input))
    ensures AllReceived(c, w, input)
  {
    hide Q.Inv, Held, Polls, P.Flat, Route;
    AllDelivered(w.alertQ);
    AllDelivered(w.predictionQ);
    AllDelivered(w.repairQ);
  }

  /** Over the queues' own step systems: after any run in which the parser's calls have returned, a
      schedule of steps that help, no more of them than the bound, brings everything that the parser has
      pushed, and nothing else, to the alert module. */
  lemma NetworkFinishes(c: P.Setup, worlds: seq<World>, steps: seq<Step>) returns (later: seq<World>, more: seq<Step>)
    requires IsRun(c, worlds, steps) && Returned(worlds[|steps|].laserIn)
    ensures HelpfulRun(c, later, more) && later[0] == worlds[|steps|] && |more| <= Bound(worlds[|steps|])
    ensures IsRun(c, worlds + later[1..], steps + more) && Input(steps + more) == Input(steps)
    ensures G.Done(View(later[|more|])) && AllReceived(c, later[|more|], Input(steps))
  {
    hide Good, Useful, Joined, Enabled, Apply, Bound, G.Done, View, Returned, Input, P.Complete, P.Histories,
      AllReceived,
      Received, NoFault, Start, R.Follows;
    RunStaysJoined(c, worlds, steps, |steps|);
    JoinedIsSound(c, worlds[|steps|]);
    later, more := CanBeFinished(c, worlds[|steps|]);
    RunGoesOn(c, worlds, steps, later, more);
    var all, acts := worlds + later[1..], steps + more;
    SameInput(c, worlds, steps, all, acts, later, more);
    RunStaysJoined(c, all, acts, |acts|);
    QueuesCarryFunctionsOfInput(c, all, acts);
    assert P.Quiescent(View(later[|more|])) by { DoneIsQuiet(View(later[|more|])); }
    DoneIsReceived(c, later[|more|], Input(steps));
  }

  lemma DoneIsQuiet(n: P.Net)
    requires G.Done(n)
    ensures P.Quiescent(n)
  {
  }

  lemma SameInput(c: P.Setup, worlds: seq<World>, steps: seq<Step>, all: seq<World>, acts: seq<Step>,
                  later: seq<World>, more: seq<Step>)
    requires IsRun(c, worlds, steps) && IsRun(c, all, acts) && HelpfulRun(c, later, more)
    requires later[0] == worlds[|steps|] && later[|more|] == all[|acts|]
    ensures Input(acts) == Input(steps)
  {
    hide Useful, Enabled, Apply, Start, R.Calls, OnLaserIn;
    ParserIsSilent(c, later, more, |more|);
    RunFollowsParser(c, worlds, steps, |steps|);
    RunFollowsParser(c, all, acts, |acts|);
    assert steps[..|steps|] == steps && acts[..|acts|] == acts;
  }
}
