/** The pipeline comes to an end: how much work an input makes, that each step of a stage does one
    unit of it, and that some stage can move as long as any is left. */
module PipelineProgress {
  import opened Common
  import opened Fifo
  import opened Stages
  import opened Pipeline

  // ------------------------------------------------- the steps that a message will take

  function Left<T>(work: T -> nat, xs: seq<T>, i: nat): nat
    decreases |xs| - i
  {
    if i >= |xs| then 0 else work(xs[i]) + Left(work, xs, i + 1)
  }

  lemma {:induction false} LeftSnoc<T>(work: T -> nat, xs: seq<T>, x: T, i: nat)
    requires i <= |xs|
    ensures Left(work, xs + [x], i) == Left(work, xs, i) + work(x)
    decreases |xs| - i
  {
    if i < |xs| {
      assert (xs + [x])[i] == xs[i];
      LeftSnoc(work, xs, x, i + 1);
    } else {
      assert (xs + [x])[i] == x && Left(work, xs + [x], i + 1) == 0;
    }
  }

  // A message that the alert module takes.
  function One<T>(x: T): nat { 1 }

  // To take a detection, push one message per crack, which is taken too, and come back.
  function DetectionWork(d: Detection): nat { 2 + 2 * |d.cracks| }

  function CrackWork(d: Detection): nat { 3 + 2 * DetectionWork(d) }

  function RoutedWork(d: Detection): nat { 1 + CrackWork(d) }

  function RouterWork(m: LaserMessage): nat { 2 + Left(RoutedWork, Route(m), 0) }

  function LaserWork(m: LaserMessage): nat { 4 + RouterWork(m) }

  function Queued<T>(work: T -> nat, q: Fifo<T>): nat { Left(work, q.pushed, q.popped) }

  function FanLeft<T>(primary: T -> nat, extra: T -> nat, pc: FanPc<T>): nat {
    match pc
    case Polling => 0
    case Primary(msg) => 2 + primary(msg) + extra(msg)
    case Extra(msg) => 1 + extra(msg)
  }

  function DetectionLeft(pc: WorkPc<Detection>): nat {
    if pc.Waiting? then 0 else 1 + 2 * (if pc.done <= |pc.msg.cracks| then |pc.msg.cracks| - pc.done else 0)
  }

  function RouterLeft(pc: WorkPc<LaserMessage>): nat {
    if pc.Waiting? then 0 else 1 + Left(RoutedWork, Route(pc.msg), pc.done)
  }

  // The steps of stages that are still to come, if the parser pushes nothing more.
  function Rank(n: Net): nat {
    Queued(LaserWork, n.laserIn) + FanLeft(One, RouterWork, n.laserFan) + Queued(One, n.alertQ)
    + Queued(RouterWork, n.routerQ) + RouterLeft(n.router)
    + Queued(CrackWork, n.crackIn) + FanLeft(DetectionWork, DetectionWork, n.crackFan)
    + Queued(DetectionWork, n.fatigueQ) + DetectionLeft(n.fatigue) + Queued(One, n.predictionQ)
    + Queued(DetectionWork, n.demQ) + DetectionLeft(n.dem) + Queued(One, n.repairQ)
  }

  lemma PushQueues<T>(work: T -> nat, q: Fifo<T>, x: T)
    requires q.Valid()
    ensures Queued(work, q.Push(x)) == Queued(work, q) + work(x)
  {
    LeftSnoc(work, q.pushed, x, q.popped);
  }

  lemma PopTakes<T>(work: T -> nat, q: Fifo<T>)
    requires q.popped < |q.pushed|
    ensures Queued(work, q) == work(q.pushed[q.popped]) + Queued(work, q.Pop())
  {
  }

  // The queues of the alert module are well formed too.
  ghost predicate Sound(c: Setup, n: Net) {
    Inv(c, n) && n.alertQ.Valid() && n.predictionQ.Valid() && n.repairQ.Valid()
  }

  ghost predicate Steps(c: Setup, n: Net, a: Action) { Enabled(c, n, a) && !a.ParserPush? }

  lemma LaserStepLowers(c: Setup, n: Net, a: Action)
    requires Sound(c, n) && Steps(c, n, a)
      && (a.LaserFanPop? || a.LaserFanPrimary? || a.LaserFanExtra? || a.AlertPopLaser?)
    ensures Rank(Apply(c, n, a)) == Rank(n) - 1
  {
    hide Queued, RouterWork, CrackWork, DetectionWork, RouterLeft, DetectionLeft;
    match a {
      case LaserFanPop => PopTakes(LaserWork, n.laserIn);
      case LaserFanPrimary => PushQueues(One, n.alertQ, n.laserFan.msg);
      case LaserFanExtra => PushQueues(RouterWork, n.routerQ, n.laserFan.msg);
      case AlertPopLaser => PopTakes(One, n.alertQ);
    }
  }

  lemma RouterStepLowers(c: Setup, n: Net, a: Action)
    requires Sound(c, n) && Steps(c, n, a) && (a.RouterPop? || a.RouterPush? || a.RouterDone?)
    ensures Rank(Apply(c, n, a)) == Rank(n) - 1
  {
    hide Queued, LaserWork, CrackWork, DetectionWork, FanLeft, DetectionLeft, Route;
    match a {
      case RouterPop => PopTakes(RouterWork, n.routerQ);
      case RouterPush => PushQueues(CrackWork, n.crackIn, Route(n.router.msg)[n.router.done]);
      case RouterDone =>
    }
  }

  lemma CrackStepLowers(c: Setup, n: Net, a: Action)
    requires Sound(c, n) && Steps(c, n, a) && (a.CrackFanPop? || a.CrackFanPrimary? || a.CrackFanExtra?)
    ensures Rank(Apply(c, n, a)) == Rank(n) - 1
  {
    hide Queued, LaserWork, RouterWork, DetectionWork, RouterLeft, DetectionLeft;
    match a {
      case CrackFanPop => PopTakes(CrackWork, n.crackIn);
      case CrackFanPrimary => PushQueues(DetectionWork, n.fatigueQ, n.crackFan.msg);
      case CrackFanExtra => PushQueues(DetectionWork, n.demQ, n.crackFan.msg);
    }
  }

  lemma FatigueStepLowers(c: Setup, n: Net, a: Action)
    requires Sound(c, n) && Steps(c, n, a)
      && (a.FatiguePop? || a.FatiguePush? || a.FatigueDone? || a.AlertPopPrediction?)
    ensures Rank(Apply(c, n, a)) == Rank(n) - 1
  {
    hide Queued, LaserWork, RouterWork, CrackWork, FanLeft, RouterLeft;
    match a {
      case FatiguePop => PopTakes(DetectionWork, n.fatigueQ);
      case FatiguePush => PushQueues(One, n.predictionQ, ForecastOf(c.model, n.fatigue.msg)[n.fatigue.done]);
      case FatigueDone =>
      case AlertPopPrediction => PopTakes(One, n.predictionQ);
    }
  }

  lemma DemStepLowers(c: Setup, n: Net, a: Action)
    requires Sound(c, n) && Steps(c, n, a) && (a.DemPop? || a.DemPush? || a.DemDone? || a.AlertPopRepair?)
    ensures Rank(Apply(c, n, a)) == Rank(n) - 1
  {
    hide Queued, LaserWork, RouterWork, CrackWork, FanLeft, RouterLeft;
    match a {
      case DemPop => PopTakes(DetectionWork, n.demQ);
      case DemPush(repair) =>
        var crack := n.dem.msg.cracks[n.dem.done];
        PushQueues(One, n.repairQ, RepairMessage(crack, n.dem.msg.porcelainId, crack.id, c.material, repair));
      case DemDone =>
      case AlertPopRepair => PopTakes(One, n.repairQ);
    }
  }

  /** Every step of a stage does exactly one unit of the work left. */
  lemma StepLowersRank(c: Setup, n: Net, a: Action)
    requires Sound(c, n) && Steps(c, n, a)
    ensures Rank(Apply(c, n, a)) == Rank(n) - 1
  {
    hide Rank, Sound, Enabled;
    match a
    case LaserFanPop => LaserStepLowers(c, n, a);
    case LaserFanPrimary => LaserStepLowers(c, n, a);
    case LaserFanExtra => LaserStepLowers(c, n, a);
    case AlertPopLaser => LaserStepLowers(c, n, a);
    case RouterPop => RouterStepLowers(c, n, a);
    case RouterPush => RouterStepLowers(c, n, a);
    case RouterDone => RouterStepLowers(c, n, a);
    case CrackFanPop => CrackStepLowers(c, n, a);
    case CrackFanPrimary => CrackStepLowers(c, n, a);
    case CrackFanExtra => CrackStepLowers(c, n, a);
    case FatiguePop => FatigueStepLowers(c, n, a);
    case FatiguePush => FatigueStepLowers(c, n, a);
    case FatigueDone => FatigueStepLowers(c, n, a);
    case AlertPopPrediction => FatigueStepLowers(c, n, a);
    case DemPop => DemStepLowers(c, n, a);
    case DemPush(_) => DemStepLowers(c, n, a);
    case DemDone => DemStepLowers(c, n, a);
    case AlertPopRepair => DemStepLowers(c, n, a);
  }

  // ------------------------------------------------- while there is work, somebody can work

  // The pipeline is quiescent and the alert module has taken everything.
  ghost predicate Done(n: Net) {
    && Quiescent(n) && n.alertQ.popped == |n.alertQ.pushed|
    && n.predictionQ.popped == |n.predictionQ.pushed| && n.repairQ.popped == |n.repairQ.pushed|
  }

  lemma QueuedNothing<T>(work: T -> nat, q: Fifo<T>)
    requires q.Valid() && forall x :: work(x) > 0
    ensures Queued(work, q) == 0 <==> q.popped == |q.pushed|
  {
  }

  /** No work is left exactly when everything is done. */
  lemma NoWorkIffDone(c: Setup, n: Net)
    requires Sound(c, n)
    ensures Rank(n) == 0 <==> Done(n)
  {
    hide Queued, LaserWork, RouterWork, CrackWork, DetectionWork, RoutedWork, Route, Left, WorkOk, FanOk;
    SoundIsValid(c, n);
    WorkIsPositive();
    QueuedNothing(LaserWork, n.laserIn);
    QueuedNothing(One, n.alertQ);
    QueuedNothing(RouterWork, n.routerQ);
    QueuedNothing(CrackWork, n.crackIn);
    QueuedNothing(DetectionWork, n.fatigueQ);
    QueuedNothing(One, n.predictionQ);
    QueuedNothing(DetectionWork, n.demQ);
    QueuedNothing(One, n.repairQ);
  }

  lemma WorkIsPositive()
    ensures forall m :: LaserWork(m) > 0 && RouterWork(m) > 0
    ensures forall d :: CrackWork(d) > 0 && DetectionWork(d) > 0
  {
  }

  lemma SoundIsValid(c: Setup, n: Net)
    requires Sound(c, n)
    ensures n.laserIn.Valid() && n.routerQ.Valid() && n.crackIn.Valid() && n.fatigueQ.Valid() && n.demQ.Valid()
    ensures n.router.Working? ==> n.router.done <= |Route(n.router.msg)|
    ensures n.fatigue.Working? ==> n.fatigue.done <= |n.fatigue.msg.cracks|
    ensures n.dem.Working? ==> n.dem.done <= |n.dem.msg.cracks|
  {
    hide Flat, Route;
  }

  /** Until then some stage, or the alert module, can make a step. */
  lemma SomebodyCanStep(c: Setup, n: Net) returns (a: Action)
    requires Sound(c, n) && !Done(n)
    ensures Steps(c, n, a)
  {
    hide Route, Flat, WorkOk, FanOk;
    SoundIsValid(c, n);
    if !n.laserFan.Polling? {
      a := if n.laserFan.Primary? then LaserFanPrimary else LaserFanExtra;
    } else if n.router.Working? {
      a := if n.router.done < |Route(n.router.msg)| then RouterPush else RouterDone;
    } else if !n.crackFan.Polling? {
      a := if n.crackFan.Primary? then CrackFanPrimary else CrackFanExtra;
    } else if n.fatigue.Working? {
      a := if n.fatigue.done < |n.fatigue.msg.cracks| then FatiguePush else FatigueDone;
    } else if n.dem.Working? {
      a := if n.dem.done < |n.dem.msg.cracks| then DemPush(Repair(0, 0.0, 0.0, 0.0, 0.0)) else DemDone;
    } else {
      a := SomethingQueued(c, n);
    }
  }

  lemma SomethingQueued(c: Setup, n: Net) returns (a: Action)
    requires Sound(c, n) && !Done(n) && n.laserFan.Polling? && n.router.Waiting? && n.crackFan.Polling?
    requires n.fatigue.Waiting? && n.dem.Waiting?
    ensures Steps(c, n, a)
  {
    hide Route, Flat, WorkOk, FanOk;
    SoundIsValid(c, n);
    a := if n.laserIn.popped < |n.laserIn.pushed| then LaserFanPop
         else if n.routerQ.popped < |n.routerQ.pushed| then RouterPop
         else if n.crackIn.popped < |n.crackIn.pushed| then CrackFanPop
         else if n.fatigueQ.popped < |n.fatigueQ.pushed| then FatiguePop
         else if n.demQ.popped < |n.demQ.pushed| then DemPop
         else if n.alertQ.popped < |n.alertQ.pushed| then AlertPopLaser
         else if n.predictionQ.popped < |n.predictionQ.pushed| then AlertPopPrediction
         else AlertPopRepair;
  }

  // ------------------------------------------------- whole runs

  lemma StepStaysSound(c: Setup, n: Net, a: Action)
    requires Sound(c, n) && Enabled(c, n, a)
    ensures Sound(c, Apply(c, n, a))
  {
    hide Inv;
    StepKeepsInv(c, n, a);
  }

  lemma ParserAddsWork(c: Setup, n: Net, msg: LaserMessage)
    requires Sound(c, n)
    ensures Rank(Apply(c, n, ParserPush(msg))) == Rank(n) + LaserWork(msg)
  {
    hide Queued, LaserWork, RouterWork, CrackWork, DetectionWork, FanLeft, RouterLeft, DetectionLeft, WorkOk;
    PushQueues(LaserWork, n.laserIn, msg);
  }

  // The steps that are not the parser's.
  function StageSteps(acts: seq<Action>): nat {
    if acts == [] then 0 else
    StageSteps(acts[..|acts| - 1]) + (if acts[|acts| - 1].ParserPush? then 0 else 1)
  }

  // The steps that an input will take in all.
  ghost function WorkOf(input: seq<LaserMessage>): nat { Left(LaserWork, input, 0) }

  lemma {:induction false} RunDoesItsWork(c: Setup, nets: seq<Net>, acts: seq<Action>, i: nat)
    requires IsRun(c, nets, acts) && i <= |acts|
    ensures Sound(c, nets[i]) && Rank(nets[i]) + StageSteps(acts[..i]) == WorkOf(Input(acts[..i]))
  {
    hide Rank, Sound, Enabled, Apply, LaserWork, Input;
    if i == 0 {
      StartsIdle(c);
      assert acts[..0] == [];
    } else {
      var n, a, before := nets[i - 1], acts[i - 1], acts[..i - 1];
      RunDoesItsWork(c, nets, acts, i - 1);
      assert acts[..i] == before + [a] && acts[..i][..i - 1] == before;
      StepStaysSound(c, n, a);
      InputSnoc(before, a);
      if a.ParserPush? {
        ParserAddsWork(c, n, a.msg);
        LeftSnoc(LaserWork, Input(before), a.msg, 0);
      } else {
        StepLowersRank(c, n, a);
      }
    }
  }

  lemma StartsIdle(c: Setup)
    ensures Sound(c, Start()) && Rank(Start()) == 0 && WorkOf(Input([])) == 0
  {
    StartInv(c);
  }

  /** Every schedule ends: the stages never make more steps than the input takes, they have made all of
      them exactly when everything is done, and until then some stage can make one. */
  lemma StagesFinishTheInput(c: Setup, nets: seq<Net>, acts: seq<Action>)
    requires IsRun(c, nets, acts)
    ensures StageSteps(acts) <= WorkOf(Input(acts))
    ensures StageSteps(acts) == WorkOf(Input(acts)) <==> Done(nets[|acts|])
    ensures StageSteps(acts) < WorkOf(Input(acts)) ==> exists a :: Steps(c, nets[|acts|], a)
    ensures Done(nets[|acts|]) ==> Complete(c, nets[|acts|], Input(acts), Flat(Route, Input(acts)))
  {
    hide Rank, Enabled, Apply, LaserWork, Sound, Complete, Histories;
    var n := nets[|acts|];
    RunDoesItsWork(c, nets, acts, |acts|);
    assert acts[..|acts|] == acts;
    NoWorkIffDone(c, n);
    if !Done(n) { var a := SomebodyCanStep(c, n); }
    HistoriesAreFunctionsOfInput(c, nets, acts);
  }
}
