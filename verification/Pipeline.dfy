/** The wired pipeline as a network of threads over FIFO queues.

    parser -> laserIn -> [laser fan-out] -> alertQ  -> alert module
                                         -> routerQ -> [router] -> crackIn -> [crack fan-out]
      -> fatigueQ -> [fatigue] -> predictionQ -> alert module
      -> demQ     -> [dem]     -> repairQ     -> alert module

    A thread may stop anywhere for ever; a poll that finds nothing is not a step. */
module Pipeline {
  import opened Common
  import opened Fifo
  import opened Stages

  // ------------------------------------------------- functions of a whole history

  function Flat<A, B>(f: A -> seq<B>, xs: seq<A>): seq<B> {
    if xs == [] then [] else Flat(f, xs[..|xs| - 1]) + f(xs[|xs| - 1])
  }

  lemma FlatSnoc<A, B>(f: A -> seq<B>, xs: seq<A>, x: A)
    ensures Flat(f, xs + [x]) == Flat(f, xs) + f(x)
  {
    assert (xs + [x])[..|xs|] == xs;
  }

  lemma {:induction false} FlatPrefix<A, B>(f: A -> seq<B>, xs: seq<A>, ys: seq<A>)
    requires xs <= ys
    ensures Flat(f, xs) <= Flat(f, ys)
  {
    if xs != ys {
      assert xs <= ys[..|ys| - 1];
      FlatPrefix(f, xs, ys[..|ys| - 1]);
    }
  }

  // ------------------------------------------------- one duplicating stage

  datatype FanPc<T> = Polling | Primary(msg: T) | Extra(msg: T)

  /** Both outputs repeat the input; the message in hand is the only one they may lack. */
  ghost predicate FanOk<T>(input: Fifo<T>, pc: FanPc<T>, primary: seq<T>, extra: seq<T>) {
    && input.Valid()
    && (!pc.Polling? ==> input.popped > 0 && pc.msg == input.pushed[input.popped - 1])
    && primary == input.pushed[..input.popped - (if pc.Primary? then 1 else 0)]
    && extra == input.pushed[..input.popped - (if pc.Polling? then 0 else 1)]
  }

  // ------------------------------------------------- one expanding stage

  datatype WorkPc<T> = Waiting | Working(msg: T, done: nat)

  /** The output is the expansion of every finished message and the first `done` items of the
      one in hand. */
  ghost predicate WorkOk<A, B>(f: A -> seq<B>, input: Fifo<A>, pc: WorkPc<A>, output: seq<B>) {
    && input.Valid()
    && match pc
       case Waiting => output == Flat(f, input.pushed[..input.popped])
       case Working(msg, done) =>
         && input.popped > 0 && msg == input.pushed[input.popped - 1] && done <= |f(msg)|
         && output == Flat(f, input.pushed[..input.popped - 1]) + f(msg)[..done]
  }

  lemma WorkStart<A, B>(f: A -> seq<B>, input: Fifo<A>, output: seq<B>)
    requires WorkOk(f, input, Waiting, output) && input.popped < |input.pushed|
    ensures WorkOk(f, input.Pop(), Working(input.pushed[input.popped], 0), output)
  {
  }

  lemma WorkItem<A, B>(f: A -> seq<B>, input: Fifo<A>, msg: A, done: nat, output: seq<B>)
    requires WorkOk(f, input, Working(msg, done), output) && done < |f(msg)|
    ensures WorkOk(f, input, Working(msg, done + 1), output + [f(msg)[done]])
  {
  }

  lemma WorkFinish<A, B>(f: A -> seq<B>, input: Fifo<A>, msg: A, output: seq<B>)
    requires WorkOk(f, input, Working(msg, |f(msg)|), output)
    ensures WorkOk(f, input, Waiting, output)
  {
    assert input.pushed[..input.popped] == input.pushed[..input.popped - 1] + [msg];
    FlatSnoc(f, input.pushed[..input.popped - 1], msg);
    assert f(msg)[..|f(msg)|] == f(msg);
  }

  lemma WorkInputGrows<A, B>(f: A -> seq<B>, input: Fifo<A>, pc: WorkPc<A>, output: seq<B>, x: A)
    requires WorkOk(f, input, pc, output)
    ensures WorkOk(f, input.Push(x), pc, output)
  {
    assert (input.pushed + [x])[..input.popped] == input.pushed[..input.popped];
    if pc.Working? {
      assert (input.pushed + [x])[..input.popped - 1] == input.pushed[..input.popped - 1];
    }
  }

  lemma WorkIsPrefix<A, B>(f: A -> seq<B>, input: Fifo<A>, pc: WorkPc<A>, output: seq<B>)
    requires WorkOk(f, input, pc, output)
    ensures output <= Flat(f, input.pushed)
    ensures pc.Waiting? && input.popped == |input.pushed| ==> output == Flat(f, input.pushed)
  {
    if pc.Working? {
      var p := input.popped - 1;
      assert input.pushed[..p + 1] == input.pushed[..p] + [pc.msg];
      FlatSnoc(f, input.pushed[..p], pc.msg);
    }
    FlatPrefix(f, input.pushed[..input.popped], input.pushed);
    assert input.popped == |input.pushed| ==> input.pushed[..input.popped] == input.pushed;
  }

  // ------------------------------------------------- the network

  // Fixed for a run: the prediction model and the default repair material.
  datatype Setup = Setup(model: CrackInfo -> Forecast, material: int)

  datatype Net = Net(
    laserIn: Fifo<LaserMessage>, laserFan: FanPc<LaserMessage>, alertQ: Fifo<LaserMessage>,
    routerQ: Fifo<LaserMessage>, router: WorkPc<LaserMessage>,
    crackIn: Fifo<Detection>, crackFan: FanPc<Detection>,
    fatigueQ: Fifo<Detection>, fatigue: WorkPc<Detection>, predictionQ: Fifo<PredictionMessage>,
    demQ: Fifo<Detection>, dem: WorkPc<Detection>, repairQ: Fifo<RepairMessage>)

  datatype Action =
    | ParserPush(msg: LaserMessage)
    | LaserFanPop | LaserFanPrimary | LaserFanExtra
    | RouterPop | RouterPush | RouterDone
    | CrackFanPop | CrackFanPrimary | CrackFanExtra
    | FatiguePop | FatiguePush | FatigueDone
    | DemPop | DemPush(repair: Repair) | DemDone
    | AlertPopLaser | AlertPopPrediction | AlertPopRepair

  ghost function Start(): Net {
    Net(Empty(), Polling, Empty(), Empty(), Waiting, Empty(), Polling, Empty(), Waiting, Empty(), Empty(), Waiting,
        Empty())
  }

  ghost predicate Enabled(c: Setup, n: Net, a: Action) {
    match a
    case ParserPush(_) => true
    case LaserFanPop => n.laserFan.Polling? && n.laserIn.popped < |n.laserIn.pushed|
    case LaserFanPrimary => n.laserFan.Primary?
    case LaserFanExtra => n.laserFan.Extra?
    case RouterPop => n.router.Waiting? && n.routerQ.popped < |n.routerQ.pushed|
    case RouterPush => n.router.Working? && n.router.done < |Route(n.router.msg)|
    case RouterDone => n.router.Working? && n.router.done == |Route(n.router.msg)|
    case CrackFanPop => n.crackFan.Polling? && n.crackIn.popped < |n.crackIn.pushed|
    case CrackFanPrimary => n.crackFan.Primary?
    case CrackFanExtra => n.crackFan.Extra?
    case FatiguePop => n.fatigue.Waiting? && n.fatigueQ.popped < |n.fatigueQ.pushed|
    case FatiguePush => n.fatigue.Working? && n.fatigue.done < |n.fatigue.msg.cracks|
    case FatigueDone => n.fatigue.Working? && n.fatigue.done == |n.fatigue.msg.cracks|
    case DemPop => n.dem.Waiting? && n.demQ.popped < |n.demQ.pushed|
    case DemPush(_) => n.dem.Working? && n.dem.done < |n.dem.msg.cracks|
    case DemDone => n.dem.Working? && n.dem.done == |n.dem.msg.cracks|
    case AlertPopLaser => n.alertQ.popped < |n.alertQ.pushed|
    case AlertPopPrediction => n.predictionQ.popped < |n.predictionQ.pushed|
    case AlertPopRepair => n.repairQ.popped < |n.repairQ.pushed|
  }

  ghost function Apply(c: Setup, n: Net, a: Action): Net
    requires Enabled(c, n, a)
  {
    match a
    case ParserPush(msg) => n.(laserIn := n.laserIn.Push(msg))
    case LaserFanPop => n.(laserFan := Primary(n.laserIn.pushed[n.laserIn.popped]), laserIn := n.laserIn.Pop())
    case LaserFanPrimary => n.(laserFan := Extra(n.laserFan.msg), alertQ := n.alertQ.Push(n.laserFan.msg))
    case LaserFanExtra => n.(laserFan := Polling, routerQ := n.routerQ.Push(n.laserFan.msg))
    case RouterPop => n.(router := Working(n.routerQ.pushed[n.routerQ.popped], 0), routerQ := n.routerQ.Pop())
    case RouterPush =>
      n.(router := n.router.(done := n.router.done + 1),
         crackIn := n.crackIn.Push(Route(n.router.msg)[n.router.done]))
    case RouterDone => n.(router := Waiting)
    case CrackFanPop => n.(crackFan := Primary(n.crackIn.pushed[n.crackIn.popped]), crackIn := n.crackIn.Pop())
    case CrackFanPrimary => n.(crackFan := Extra(n.crackFan.msg), fatigueQ := n.fatigueQ.Push(n.crackFan.msg))
    case CrackFanExtra => n.(crackFan := Polling, demQ := n.demQ.Push(n.crackFan.msg))
    case FatiguePop => n.(fatigue := Working(n.fatigueQ.pushed[n.fatigueQ.popped], 0), fatigueQ := n.fatigueQ.Pop())
    case FatiguePush =>
      n.(fatigue := n.fatigue.(done := n.fatigue.done + 1),
         predictionQ := n.predictionQ.Push(ForecastOf(c.model, n.fatigue.msg)[n.fatigue.done]))
    case FatigueDone => n.(fatigue := Waiting)
    case DemPop => n.(dem := Working(n.demQ.pushed[n.demQ.popped], 0), demQ := n.demQ.Pop())
    case DemPush(repair) =>
      var crack := n.dem.msg.cracks[n.dem.done];
      n.(dem := n.dem.(done := n.dem.done + 1),
         repairQ := n.repairQ.Push(RepairMessage(crack, n.dem.msg.porcelainId, crack.id, c.material, repair)))
    case DemDone => n.(dem := Waiting)
    case AlertPopLaser => n.(alertQ := n.alertQ.Pop())
    case AlertPopPrediction => n.(predictionQ := n.predictionQ.Pop())
    case AlertPopRepair => n.(repairQ := n.repairQ.Pop())
  }

  ghost function Forecasts(c: Setup): Detection -> seq<PredictionMessage> { m => ForecastOf(c.model, m) }
  ghost function Repairs(c: Setup): Detection -> seq<RepairTarget> { m => TargetsOf(c.material, m) }

  ghost predicate Inv(c: Setup, n: Net) {
    && FanOk(n.laserIn, n.laserFan, n.alertQ.pushed, n.routerQ.pushed)
    && WorkOk(Route, n.routerQ, n.router, n.crackIn.pushed)
    && FanOk(n.crackIn, n.crackFan, n.fatigueQ.pushed, n.demQ.pushed)
    && WorkOk(Forecasts(c), n.fatigueQ, n.fatigue, n.predictionQ.pushed)
    && WorkOk(Repairs(c), n.demQ, n.dem, Targets(n.repairQ.pushed))
  }

  lemma StartInv(c: Setup)
    ensures Inv(c, Start())
  {
  }

  lemma LaserStepKeepsInv(c: Setup, n: Net, a: Action)
    requires Inv(c, n) && Enabled(c, n, a)
    requires a.ParserPush? || a.LaserFanPop? || a.LaserFanPrimary? || a.LaserFanExtra?
    ensures Inv(c, Apply(c, n, a))
  {
    if a.LaserFanExtra? {
      WorkInputGrows(Route, n.routerQ, n.router, n.crackIn.pushed, n.laserFan.msg);
    }
  }

  lemma AlertStepKeepsInv(c: Setup, n: Net, a: Action)
    requires Inv(c, n) && Enabled(c, n, a) && (a.AlertPopLaser? || a.AlertPopPrediction? || a.AlertPopRepair?)
    ensures Inv(c, Apply(c, n, a))
  {
  }

  lemma CrackFanPopKeepsInv(c: Setup, n: Net, a: Action)
    requires Inv(c, n) && Enabled(c, n, a) && a.CrackFanPop?
    ensures Inv(c, Apply(c, n, a))
  {
  }

  lemma CrackFanPrimaryKeepsInv(c: Setup, n: Net, a: Action)
    requires Inv(c, n) && Enabled(c, n, a) && a.CrackFanPrimary?
    ensures Inv(c, Apply(c, n, a))
  {
    WorkInputGrows(Forecasts(c), n.fatigueQ, n.fatigue, n.predictionQ.pushed, n.crackFan.msg);
  }

  lemma CrackFanExtraKeepsInv(c: Setup, n: Net, a: Action)
    requires Inv(c, n) && Enabled(c, n, a) && a.CrackFanExtra?
    ensures Inv(c, Apply(c, n, a))
  {
    WorkInputGrows(Repairs(c), n.demQ, n.dem, Targets(n.repairQ.pushed), n.crackFan.msg);
  }

  lemma RouterStepKeepsInv(c: Setup, n: Net, a: Action)
    requires Inv(c, n) && Enabled(c, n, a) && (a.RouterPop? || a.RouterPush? || a.RouterDone?)
    ensures Inv(c, Apply(c, n, a))
  {
    match a
    case RouterPop => WorkStart(Route, n.routerQ, n.crackIn.pushed);
    case RouterPush => WorkItem(Route, n.routerQ, n.router.msg, n.router.done, n.crackIn.pushed);
    case RouterDone => WorkFinish(Route, n.routerQ, n.router.msg, n.crackIn.pushed);
  }

  lemma FatigueStepKeepsInv(c: Setup, n: Net, a: Action)
    requires Inv(c, n) && Enabled(c, n, a) && (a.FatiguePop? || a.FatiguePush? || a.FatigueDone?)
    ensures Inv(c, Apply(c, n, a))
  {
    match a
    case FatiguePop => WorkStart(Forecasts(c), n.fatigueQ, n.predictionQ.pushed);
    case FatiguePush => WorkItem(Forecasts(c), n.fatigueQ, n.fatigue.msg, n.fatigue.done, n.predictionQ.pushed);
    case FatigueDone => WorkFinish(Forecasts(c), n.fatigueQ, n.fatigue.msg, n.predictionQ.pushed);
  }

  lemma DemStepKeepsInv(c: Setup, n: Net, a: Action)
    requires Inv(c, n) && Enabled(c, n, a) && (a.DemPop? || a.DemPush? || a.DemDone?)
    ensures Inv(c, Apply(c, n, a))
  {
    match a
    case DemPop => WorkStart(Repairs(c), n.demQ, Targets(n.repairQ.pushed));
    case DemPush(repair) =>
      WorkItem(Repairs(c), n.demQ, n.dem.msg, n.dem.done, Targets(n.repairQ.pushed));
      assert Targets(Apply(c, n, a).repairQ.pushed) == Targets(n.repairQ.pushed) + [Repairs(c)(n.dem.msg)[n.dem.done]];
    case DemDone => WorkFinish(Repairs(c), n.demQ, n.dem.msg, Targets(n.repairQ.pushed));
  }

  lemma StepKeepsInv(c: Setup, n: Net, a: Action)
    requires Inv(c, n) && Enabled(c, n, a)
    ensures Inv(c, Apply(c, n, a))
  {
    match a
    case RouterPop => RouterStepKeepsInv(c, n, a);
    case RouterPush => RouterStepKeepsInv(c, n, a);
    case RouterDone => RouterStepKeepsInv(c, n, a);
    case FatiguePop => FatigueStepKeepsInv(c, n, a);
    case FatiguePush => FatigueStepKeepsInv(c, n, a);
    case FatigueDone => FatigueStepKeepsInv(c, n, a);
    case DemPop => DemStepKeepsInv(c, n, a);
    case DemPush(_) => DemStepKeepsInv(c, n, a);
    case DemDone => DemStepKeepsInv(c, n, a);
    case CrackFanPop => CrackFanPopKeepsInv(c, n, a);
    case CrackFanPrimary => CrackFanPrimaryKeepsInv(c, n, a);
    case CrackFanExtra => CrackFanExtraKeepsInv(c, n, a);
    case AlertPopLaser => AlertStepKeepsInv(c, n, a);
    case AlertPopPrediction => AlertStepKeepsInv(c, n, a);
    case AlertPopRepair => AlertStepKeepsInv(c, n, a);
    case _ => LaserStepKeepsInv(c, n, a);
  }

  // ------------------------------------------------- whole runs

  ghost predicate IsRun(c: Setup, nets: seq<Net>, acts: seq<Action>) {
    && |nets| == |acts| + 1 && nets[0] == Start()
    && (forall i :: 0 <= i < |acts| ==> Enabled(c, nets[i], acts[i]) && nets[i + 1] == Apply(c, nets[i], acts[i]))
  }

  // The laser messages in the order in which the parser's pushes took effect.
  ghost function Input(acts: seq<Action>): seq<LaserMessage> {
    Flat((a: Action) => if a.ParserPush? then [a.msg] else [], acts)
  }

  lemma {:induction false} RunKeepsInv(c: Setup, nets: seq<Net>, acts: seq<Action>, i: nat)
    requires IsRun(c, nets, acts) && i < |nets|
    ensures Inv(c, nets[i])
  {
    if i == 0 {
      StartInv(c);
    } else {
      RunKeepsInv(c, nets, acts, i - 1);
      StepKeepsInv(c, nets[i - 1], acts[i - 1]);
    }
  }

  lemma InputSnoc(acts: seq<Action>, a: Action)
    ensures Input(acts + [a]) == if a.ParserPush? then Input(acts) + [a.msg] else Input(acts)
  {
    FlatSnoc((a: Action) => if a.ParserPush? then [a.msg] else [], acts, a);
  }

  lemma OnlyParserFeeds(c: Setup, n: Net, a: Action)
    requires Enabled(c, n, a)
    ensures Apply(c, n, a).laserIn.pushed == if a.ParserPush? then n.laserIn.pushed + [a.msg] else n.laserIn.pushed
  {
  }

  lemma {:induction false} RunConsumesInput(c: Setup, nets: seq<Net>, acts: seq<Action>, i: nat)
    requires IsRun(c, nets, acts) && i <= |acts|
    ensures nets[i].laserIn.pushed == Input(acts[..i])
  {
    if i > 0 {
      RunConsumesInput(c, nets, acts, i - 1);
      assert acts[..i] == acts[..i - 1] + [acts[i - 1]];
      InputSnoc(acts[..i - 1], acts[i - 1]);
      OnlyParserFeeds(c, nets[i - 1], acts[i - 1]);
    }
  }

  ghost predicate Quiescent(n: Net) {
    && n.laserFan.Polling? && n.router.Waiting? && n.crackFan.Polling? && n.fatigue.Waiting? && n.dem.Waiting?
    && n.laserIn.popped == |n.laserIn.pushed| && n.routerQ.popped == |n.routerQ.pushed|
    && n.crackIn.popped == |n.crackIn.pushed| && n.fatigueQ.popped == |n.fatigueQ.pushed|
    && n.demQ.popped == |n.demQ.pushed|
  }

  /** Whatever the schedule, each queue has carried a prefix of a fixed function of the laser
      input, the second branch of a fan-out is at most one message behind the first, and when
      nothing is left to do the prefixes are the whole. */
  lemma HistoriesAreFunctionsOfInput(c: Setup, nets: seq<Net>, acts: seq<Action>)
    requires IsRun(c, nets, acts)
    ensures var n := nets[|acts|];
      && Histories(c, n, Input(acts), Flat(Route, Input(acts)))
      && 0 <= |n.alertQ.pushed| - |n.routerQ.pushed| <= 1
      && 0 <= |n.fatigueQ.pushed| - |n.demQ.pushed| <= 1
      && (Quiescent(n) ==> Complete(c, n, Input(acts), Flat(Route, Input(acts))))
  {
    var n := nets[|acts|];
    RunConsumesInput(c, nets, acts, |acts|);
    assert acts[..|acts|] == acts;
    RunKeepsInv(c, nets, acts, |acts|);
    InvGivesHistories(c, n);
  }

  ghost predicate Histories(c: Setup, n: Net, laser: seq<LaserMessage>, cracks: seq<Detection>) {
    && n.alertQ.pushed <= laser && n.routerQ.pushed <= laser
    && n.crackIn.pushed <= cracks && n.fatigueQ.pushed <= cracks && n.demQ.pushed <= cracks
    && n.predictionQ.pushed <= Flat(Forecasts(c), cracks)
    && Targets(n.repairQ.pushed) <= Flat(Repairs(c), cracks)
  }

  // Nothing is missing any more.
  ghost predicate Complete(c: Setup, n: Net, laser: seq<LaserMessage>, cracks: seq<Detection>) {
    && n.alertQ.pushed == n.routerQ.pushed == laser
    && n.fatigueQ.pushed == n.demQ.pushed == cracks
    && n.predictionQ.pushed == Flat(Forecasts(c), cracks)
    && Targets(n.repairQ.pushed) == Flat(Repairs(c), cracks)
  }

  lemma InvGivesHistories(c: Setup, n: Net)
    requires Inv(c, n)
    ensures Histories(c, n, n.laserIn.pushed, Flat(Route, n.laserIn.pushed))
    ensures Quiescent(n) ==> Complete(c, n, n.laserIn.pushed, Flat(Route, n.laserIn.pushed))
  {
    hide Flat, Route, Targets, WorkOk;
    var cracks := Flat(Route, n.laserIn.pushed);
    WorkIsPrefix(Route, n.routerQ, n.router, n.crackIn.pushed);
    FlatPrefix(Route, n.routerQ.pushed, n.laserIn.pushed);
    WorkIsPrefix(Forecasts(c), n.fatigueQ, n.fatigue, n.predictionQ.pushed);
    FlatPrefix(Forecasts(c), n.fatigueQ.pushed, cracks);
    WorkIsPrefix(Repairs(c), n.demQ, n.dem, Targets(n.repairQ.pushed));
    FlatPrefix(Repairs(c), n.demQ.pushed, cracks);
    if Quiescent(n) {
      assert n.laserIn.pushed[..n.laserIn.popped] == n.laserIn.pushed;
      assert n.crackIn.pushed[..n.crackIn.popped] == n.crackIn.pushed;
    }
  }
}
