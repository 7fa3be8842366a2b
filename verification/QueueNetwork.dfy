/** The pipeline once more, wired with the step systems of its eight lock-free queues instead of
    abstract FIFO queues. A stage takes one queue step at a time: it starts a push only when its last
    push and its pop have returned, and polls only when its pushes have returned. A push counts at its
    tail exchange, when its node may not be linked yet, and a pop when it moves the value out. */
module QueueNetwork {
  import opened Common
  import opened Fifo
  import opened Stages
  import opened Wrappers
  import P = Pipeline
  import Q = QueueProtocol
  import R = QueueRuns

  // ------------------------------------------------- one queue between two stages

  // Who has prepared a node has prepared a value that the producing stage wants to push.
  ghost predicate Held<T>(q: Q.State<T>, wants: T -> bool) {
    forall p {:trigger q.producers[p]} :: p in q.producers && q.producers[p].Holding? ==>
      q.producers[p].node in q.heap && q.heap[q.producers[p].node].value.Some?
      && wants(q.heap[q.producers[p].node].value.value)
  }

  // A pop that has not moved its value yet was called by a stage that is polling.
  ghost predicate Polls<T>(q: Q.State<T>, polling: bool) {
    q.consumer.Loaded? || q.consumer.Chained? || q.consumer.Swung? ==> polling
  }

  ghost predicate Returned<T>(q: Q.State<T>) { q.producers == map[] }

  // The queue between a producing stage, which is a single thread, and a consuming one.
  ghost predicate Wired<T>(q: Q.State<T>, wants: T -> bool, polling: bool) {
    Q.Inv(q) && q.producers.Keys <= {0} && Held(q, wants) && Polls(q, polling)
  }

  // When a stage turns to something else.
  lemma Rewired<T(!new)>(q: Q.State<T>, wants: T -> bool, polling: bool, wants': T -> bool, polling': bool)
    requires Wired(q, wants, polling)
    requires (forall v :: !wants(v)) || wants' == wants
    requires !polling || polling'
    ensures Wired(q, wants', polling')
  {
    hide Q.Inv;
  }

  // The value that the next move takes out.
  ghost predicate Ready<T>(q: Q.State<T>) {
    q.consumer.Swung? && q.consumer.next in q.heap && q.heap[q.consumer.next].value.Some?
  }

  ghost function Popped<T>(q: Q.State<T>): T
    requires Ready(q)
  {
    q.heap[q.consumer.next].value.value
  }

  ghost predicate Offers<T>(q: Q.State<T>, p: Q.Tid) {
    p in q.producers && q.producers[p].Holding? && q.producers[p].node in q.heap
      && q.heap[q.producers[p].node].value.Some?
  }

  ghost function Offered<T>(q: Q.State<T>, p: Q.Tid): T
    requires Offers(q, p)
  {
    q.heap[q.producers[p].node].value.value
  }

  // The step is the queue's own, and a call that starts with it may be made.
  ghost predicate Allowed<T>(q: Q.State<T>, a: Q.Action<T>, wants: T -> bool, mayPush: bool, mayPoll: bool) {
    Q.Enabled(q, a) && (a.NewNode? ==> a.p == 0 && wants(a.value) && mayPush) && (a.LoadHead? ==> mayPoll)
  }

  lemma ExchangeStep<T(!new)>(q: Q.State<T>, a: Q.Action<T>)
    requires Q.Inv(q) && Q.Enabled(q, a) && a.ExchangeTail?
    ensures Offers(q, a.p) && R.Abs(Q.Apply(q, a)) == R.Abs(q).Push(Offered(q, a.p))
  {
    hide Q.LinksOk, Q.LivesOk, Q.ConsumerOk, Q.Accounted;
    assert Q.ProducerOk(q, a.p, q.producers[a.p]);
  }

  lemma MoveStep<T(!new)>(q: Q.State<T>, a: Q.Action<T>)
    requires Q.Inv(q) && Q.Enabled(q, a) && a.MoveValue?
    ensures Ready(q) && R.Abs(q).popped < |R.Abs(q).pushed| && Popped(q) == R.Abs(q).pushed[R.Abs(q).popped]
    ensures R.Abs(Q.Apply(q, a)) == R.Abs(q).Pop()
  {
    hide Q.Apply, Q.LinksOk, Q.LivesOk, Q.ProducersOk, Q.Accounted;
    Q.MoveState(q, a);
    assert q.heap[q.order[q.first]].value == Some(q.pushed[q.first - 1]);
  }

  lemma HiddenStep<T(!new)>(q: Q.State<T>, a: Q.Action<T>)
    requires Q.Inv(q) && Q.Enabled(q, a) && !a.ExchangeTail? && !a.MoveValue?
    ensures R.Abs(Q.Apply(q, a)) == R.Abs(q)
  {
    hide Q.Inv;
  }

  // A tail exchange pushes the value prepared, a move pops the oldest one, and nothing else shows.
  lemma QueueStep<T(!new)>(q: Q.State<T>, a: Q.Action<T>)
    requires Q.Inv(q) && Q.Enabled(q, a)
    ensures Q.Inv(Q.Apply(q, a))
    ensures a.ExchangeTail? ==> Offers(q, a.p) && R.Abs(Q.Apply(q, a)) == R.Abs(q).Push(Offered(q, a.p))
    ensures a.MoveValue? ==>
      Ready(q) && R.Abs(q).popped < |R.Abs(q).pushed| && Popped(q) == R.Abs(q).pushed[R.Abs(q).popped]
    ensures a.MoveValue? ==> R.Abs(Q.Apply(q, a)) == R.Abs(q).Pop()
    ensures !a.ExchangeTail? && !a.MoveValue? ==> R.Abs(Q.Apply(q, a)) == R.Abs(q)
  {
    hide Q.Inv, Q.Apply, Q.Enabled, R.Abs, Offers, Offered, Ready, Popped;
    Q.StepKeepsInv(q, a);
    if a.ExchangeTail? { ExchangeStep(q, a); } else if a.MoveValue? { MoveStep(q, a); } else { HiddenStep(q, a); }
  }

  lemma PollsStep<T>(q: Q.State<T>, a: Q.Action<T>, polling: bool, polling': bool)
    requires Polls(q, polling) && Q.Enabled(q, a) && (a.LoadHead? ==> polling) && (a.MoveValue? ==> Ready(q))
    requires polling' == polling || a.MoveValue?
    ensures Polls(Q.Apply(q, a), polling') && (a.MoveValue? ==> polling)
  {
  }

  lemma PollsMore<T>(q: Q.State<T>, polling: bool, polling': bool)
    requires Polls(q, polling) && (!polling || polling')
    ensures Polls(q, polling')
  {
  }

  lemma HeldStep<T(!new)>(q: Q.State<T>, a: Q.Action<T>, wants: T -> bool, wants': T -> bool)
    requires Q.Inv(q) && Q.Enabled(q, a) && q.producers.Keys <= {0} && Held(q, wants)
    requires a.NewNode? ==> a.p == 0 && wants(a.value)
    ensures Q.Apply(q, a).producers.Keys <= {0} && Held(Q.Apply(q, a), wants)
    ensures a.ExchangeTail? ==> a.p == 0 && Offers(q, 0) && wants(Offered(q, 0)) && Held(Q.Apply(q, a), wants')
  {
    var t := Q.Apply(q, a);
    assert Q.ProducersOk(q);
    forall p | p in q.producers && q.producers[p].Holding?
      ensures var n := q.producers[p].node; n in q.heap && n in t.heap && t.heap[n].value == q.heap[n].value
    {
      R.HeldNodeKept(q, a, p);
    }
  }

  // A step inside a push or a pop, or between them. After its tail exchange a stage may want something
  // else, and after its move it may no longer poll.
  lemma WiredStep<T(!new)>(q: Q.State<T>, a: Q.Action<T>, wants: T -> bool, polling: bool, mayPush: bool, mayPoll: bool,
                           wants': T -> bool, polling': bool)
    requires Wired(q, wants, polling) && Allowed(q, a, wants, mayPush, mayPoll) && (mayPoll ==> polling)
    requires wants' == wants || a.ExchangeTail?
    requires polling' == polling || a.MoveValue?
    ensures Wired(Q.Apply(q, a), wants', polling') && Q.Inv(q)
    ensures a.ExchangeTail? ==> Offers(q, a.p) && wants(Offered(q, a.p))
    ensures a.MoveValue? ==> polling
  {
    hide Q.Inv, Held, Polls, Q.Apply;
    QueueStep(q, a);
    PollsStep(q, a, polling, polling');
    HeldStep(q, a, wants, wants');
  }

  // ------------------------------------------------- the whole network

  datatype World = World(
    laserIn: Q.State<LaserMessage>, laserFan: P.FanPc<LaserMessage>, alertQ: Q.State<LaserMessage>,
    routerQ: Q.State<LaserMessage>, router: P.WorkPc<LaserMessage>,
    crackIn: Q.State<Detection>, crackFan: P.FanPc<Detection>,
    fatigueQ: Q.State<Detection>, fatigue: P.WorkPc<Detection>, predictionQ: Q.State<PredictionMessage>,
    demQ: Q.State<Detection>, dem: P.WorkPc<Detection>, repairQ: Q.State<RepairMessage>)

  // The network of abstract queues that it shows.
  ghost function View(w: World): P.Net {
    P.Net(R.Abs(w.laserIn), w.laserFan, R.Abs(w.alertQ), R.Abs(w.routerQ), w.router, R.Abs(w.crackIn), w.crackFan,
          R.Abs(w.fatigueQ), w.fatigue, R.Abs(w.predictionQ), R.Abs(w.demQ), w.dem, R.Abs(w.repairQ))
  }

  // A step of one queue, or the end of a stage's loop over what it sends for one message.
  datatype Step =
    | LaserIn(laser: Q.Action<LaserMessage>) | AlertQ(laser: Q.Action<LaserMessage>)
    | RouterQ(laser: Q.Action<LaserMessage>) | CrackIn(crack: Q.Action<Detection>)
    | FatigueQ(crack: Q.Action<Detection>) | DemQ(crack: Q.Action<Detection>)
    | PredictionQ(prediction: Q.Action<PredictionMessage>) | RepairQ(repair: Q.Action<RepairMessage>)
    | RouterDone | FatigueDone | DemDone

  // What a stage wants to push next.
  ghost function WantsPrimary<T>(pc: P.FanPc<T>): T -> bool { v => pc.Primary? && v == pc.msg }
  ghost function WantsExtra<T>(pc: P.FanPc<T>): T -> bool { v => pc.Extra? && v == pc.msg }

  ghost function WantsItem<A, B>(f: A -> seq<B>, pc: P.WorkPc<A>): B -> bool {
    v => pc.Working? && pc.done < |f(pc.msg)| && v == f(pc.msg)[pc.done]
  }

  ghost function WantsRepair(c: P.Setup, pc: P.WorkPc<Detection>): RepairMessage -> bool {
    (v: RepairMessage) => pc.Working? && pc.done < |pc.msg.cracks| && v == RepairFor(c, pc.msg, pc.done, v.repair)
  }

  ghost function RepairFor(c: P.Setup, msg: Detection, i: nat, repair: Repair): RepairMessage
    requires i < |msg.cracks|
  {
    RepairMessage(msg.cracks[i], msg.porcelainId, msg.cracks[i].id, c.material, repair)
  }

  // The alert module polls its three queues in one thread.
  ghost predicate AlertIdle(w: World) {
    w.alertQ.consumer.Outside? && w.predictionQ.consumer.Outside? && w.repairQ.consumer.Outside?
  }

  ghost predicate Enabled(c: P.Setup, w: World, s: Step) {
    match s
    case LaserIn(a) =>
      Q.Enabled(w.laserIn, a) && (a.LoadHead? ==> w.laserFan.Polling? && Returned(w.alertQ) && Returned(w.routerQ))
    case AlertQ(a) =>
      Allowed(w.alertQ, a, WantsPrimary(w.laserFan), w.laserIn.consumer.Outside? && Returned(w.routerQ), AlertIdle(w))
    case RouterQ(a) =>
      Allowed(w.routerQ, a, WantsExtra(w.laserFan), w.laserIn.consumer.Outside? && Returned(w.alertQ),
              w.router.Waiting? && Returned(w.crackIn))
    case CrackIn(a) =>
      Allowed(w.crackIn, a, WantsItem(Route, w.router), w.routerQ.consumer.Outside?,
              w.crackFan.Polling? && Returned(w.fatigueQ) && Returned(w.demQ))
    case FatigueQ(a) =>
      Allowed(w.fatigueQ, a, WantsPrimary(w.crackFan), w.crackIn.consumer.Outside? && Returned(w.demQ),
              w.fatigue.Waiting? && Returned(w.predictionQ))
    case DemQ(a) =>
      Allowed(w.demQ, a, WantsExtra(w.crackFan), w.crackIn.consumer.Outside? && Returned(w.fatigueQ),
              w.dem.Waiting? && Returned(w.repairQ))
    case PredictionQ(a) =>
      Allowed(w.predictionQ, a, WantsItem(P.Forecasts(c), w.fatigue), w.fatigueQ.consumer.Outside?, AlertIdle(w))
    case RepairQ(a) =>
      Allowed(w.repairQ, a, WantsRepair(c, w.dem), w.demQ.consumer.Outside?, AlertIdle(w))
    case RouterDone => P.Enabled(c, View(w), P.RouterDone) && Returned(w.crackIn)
    case FatigueDone => P.Enabled(c, View(w), P.FatigueDone) && Returned(w.predictionQ)
    case DemDone => P.Enabled(c, View(w), P.DemDone) && Returned(w.repairQ)
  }

  // How a step on the queue it polls, or on one it feeds, moves a stage on.
  ghost function FanTakes<T>(pc: P.FanPc<T>, q: Q.State<T>, a: Q.Action<T>): P.FanPc<T> {
    if a.MoveValue? && Ready(q) then P.Primary(Popped(q)) else pc
  }

  ghost function WorkTakes<T>(pc: P.WorkPc<T>, q: Q.State<T>, a: Q.Action<T>): P.WorkPc<T> {
    if a.MoveValue? && Ready(q) then P.Working(Popped(q), 0) else pc
  }

  ghost function FanSent<T>(pc: P.FanPc<T>, a: Q.Action<T>): P.FanPc<T> {
    if !a.ExchangeTail? then pc else if pc.Primary? then P.Extra(pc.msg) else P.Polling
  }

  ghost function WorkSent<A, B>(pc: P.WorkPc<A>, a: Q.Action<B>): P.WorkPc<A> {
    if a.ExchangeTail? && pc.Working? then pc.(done := pc.done + 1) else pc
  }

  ghost function Apply(c: P.Setup, w: World, s: Step): World
    requires Enabled(c, w, s)
  {
    match s
    case LaserIn(a) => w.(laserIn := Q.Apply(w.laserIn, a), laserFan := FanTakes(w.laserFan, w.laserIn, a))
    case AlertQ(a) => w.(alertQ := Q.Apply(w.alertQ, a), laserFan := FanSent(w.laserFan, a))
    case RouterQ(a) =>
      w.(routerQ := Q.Apply(w.routerQ, a), laserFan := FanSent(w.laserFan, a),
         router := WorkTakes(w.router, w.routerQ, a))
    case CrackIn(a) =>
      w.(crackIn := Q.Apply(w.crackIn, a), router := WorkSent(w.router, a),
         crackFan := FanTakes(w.crackFan, w.crackIn, a))
    case FatigueQ(a) =>
      w.(fatigueQ := Q.Apply(w.fatigueQ, a), crackFan := FanSent(w.crackFan, a),
         fatigue := WorkTakes(w.fatigue, w.fatigueQ, a))
    case DemQ(a) =>
      w.(demQ := Q.Apply(w.demQ, a), crackFan := FanSent(w.crackFan, a), dem := WorkTakes(w.dem, w.demQ, a))
    case PredictionQ(a) => w.(predictionQ := Q.Apply(w.predictionQ, a), fatigue := WorkSent(w.fatigue, a))
    case RepairQ(a) => w.(repairQ := Q.Apply(w.repairQ, a), dem := WorkSent(w.dem, a))
    case RouterDone => w.(router := P.Waiting)
    case FatigueDone => w.(fatigue := P.Waiting)
    case DemDone => w.(dem := P.Waiting)
  }

  // ------------------------------------------------- a step of the network

  ghost predicate Joined(c: P.Setup, w: World) {
    && Q.Inv(w.laserIn) && Polls(w.laserIn, w.laserFan.Polling?)
    && Wired(w.alertQ, WantsPrimary(w.laserFan), true) && Wired(w.routerQ, WantsExtra(w.laserFan), w.router.Waiting?)
    && Wired(w.crackIn, WantsItem(Route, w.router), w.crackFan.Polling?)
    && Wired(w.fatigueQ, WantsPrimary(w.crackFan), w.fatigue.Waiting?)
    && Wired(w.demQ, WantsExtra(w.crackFan), w.dem.Waiting?)
    && Wired(w.predictionQ, WantsItem(P.Forecasts(c), w.fatigue), true) && Wired(w.repairQ, WantsRepair(c, w.dem), true)
  }

  // What the network of abstract queues does meanwhile, if anything.
  ghost function Seen(w: World, s: Step): Option<P.Action> {
    match s
    case LaserIn(a) =>
      if a.ExchangeTail? && Offers(w.laserIn, a.p) then Some(P.ParserPush(Offered(w.laserIn, a.p)))
      else if a.MoveValue? then Some(P.LaserFanPop) else None
    case AlertQ(a) => Either(a, P.LaserFanPrimary, P.AlertPopLaser)
    case RouterQ(a) => Either(a, P.LaserFanExtra, P.RouterPop)
    case CrackIn(a) => Either(a, P.RouterPush, P.CrackFanPop)
    case FatigueQ(a) => Either(a, P.CrackFanPrimary, P.FatiguePop)
    case DemQ(a) => Either(a, P.CrackFanExtra, P.DemPop)
    case PredictionQ(a) => Either(a, P.FatiguePush, P.AlertPopPrediction)
    case RepairQ(a) =>
      if a.ExchangeTail? && Offers(w.repairQ, a.p) then Some(P.DemPush(Offered(w.repairQ, a.p).repair))
      else if a.MoveValue? then Some(P.AlertPopRepair) else None
    case RouterDone => Some(P.RouterDone)
    case FatigueDone => Some(P.FatigueDone)
    case DemDone => Some(P.DemDone)
  }

  ghost function Either<T>(a: Q.Action<T>, push: P.Action, pop: P.Action): Option<P.Action> {
    if a.ExchangeTail? then Some(push) else if a.MoveValue? then Some(pop) else None
  }

  ghost predicate Simulates(c: P.Setup, n: P.Net, seen: Option<P.Action>, n': P.Net) {
    match seen
    case None => n' == n
    case Some(act) => P.Enabled(c, n, act) && n' == P.Apply(c, n, act)
  }

  lemma LaserInStep(c: P.Setup, w: World, a: Q.Action<LaserMessage>)
    requires Joined(c, w) && Enabled(c, w, LaserIn(a))
    ensures var w' := Apply(c, w, LaserIn(a)); Joined(c, w') && Simulates(c, View(w), Seen(w, LaserIn(a)), View(w'))
  {
    hide Q.Inv, Q.Apply, Held, Polls, Wired, Offers, Ready, Offered, Popped;
    QueueStep(w.laserIn, a);
    var w' := Apply(c, w, LaserIn(a));
    PollsStep(w.laserIn, a, w.laserFan.Polling?, w'.laserFan.Polling?);
    Rewired(w.alertQ, WantsPrimary(w.laserFan), true, WantsPrimary(w'.laserFan), true);
    Rewired(w.routerQ, WantsExtra(w.laserFan), w.router.Waiting?, WantsExtra(w'.laserFan), w.router.Waiting?);
  }

  lemma AlertQStep(c: P.Setup, w: World, a: Q.Action<LaserMessage>)
    requires Joined(c, w) && Enabled(c, w, AlertQ(a))
    ensures var w' := Apply(c, w, AlertQ(a)); Joined(c, w') && Simulates(c, View(w), Seen(w, AlertQ(a)), View(w'))
  {
    hide Q.Inv, Q.Apply, Q.Enabled, Held, Polls, Wired, Offers, Ready, Offered, Popped, Returned, AlertIdle, R.Abs,
      Route, ForecastOf;
    var w' := Apply(c, w, AlertQ(a));
    WiredStep(w.alertQ, a, WantsPrimary(w.laserFan), true,
              w.laserIn.consumer.Outside? && Returned(w.routerQ), AlertIdle(w), WantsPrimary(w'.laserFan), true);
    QueueStep(w.alertQ, a);
    Rewired(w.routerQ, WantsExtra(w.laserFan), w.router.Waiting?, WantsExtra(w'.laserFan), w'.router.Waiting?);
  }

  lemma RouterQStep(c: P.Setup, w: World, a: Q.Action<LaserMessage>)
    requires Joined(c, w) && Enabled(c, w, RouterQ(a))
    ensures var w' := Apply(c, w, RouterQ(a)); Joined(c, w') && Simulates(c, View(w), Seen(w, RouterQ(a)), View(w'))
  {
    hide Q.Inv, Q.Apply, Q.Enabled, Held, Polls, Wired, Offers, Ready, Offered, Popped, Returned, AlertIdle, R.Abs,
      Route, ForecastOf;
    var w' := Apply(c, w, RouterQ(a));
    WiredStep(w.routerQ, a, WantsExtra(w.laserFan), w.router.Waiting?,
              w.laserIn.consumer.Outside? && Returned(w.alertQ), w.router.Waiting? && Returned(w.crackIn),
              WantsExtra(w'.laserFan), w'.router.Waiting?);
    QueueStep(w.routerQ, a);
    PollsMore(w.laserIn, w.laserFan.Polling?, w'.laserFan.Polling?);
    Rewired(w.alertQ, WantsPrimary(w.laserFan), true, WantsPrimary(w'.laserFan), true);
    Rewired(w.crackIn, WantsItem(Route, w.router), w.crackFan.Polling?, WantsItem(Route, w'.router),
            w'.crackFan.Polling?);
  }

  lemma CrackInStep(c: P.Setup, w: World, a: Q.Action<Detection>)
    requires Joined(c, w) && Enabled(c, w, CrackIn(a))
    ensures var w' := Apply(c, w, CrackIn(a)); Joined(c, w') && Simulates(c, View(w), Seen(w, CrackIn(a)), View(w'))
  {
    hide Q.Inv, Q.Apply, Q.Enabled, Held, Polls, Wired, Offers, Ready, Offered, Popped, Returned, AlertIdle, R.Abs,
      Route, ForecastOf;
    var w' := Apply(c, w, CrackIn(a));
    WiredStep(w.crackIn, a, WantsItem(Route, w.router), w.crackFan.Polling?,
              w.routerQ.consumer.Outside?, w.crackFan.Polling? && Returned(w.fatigueQ) && Returned(w.demQ),
              WantsItem(Route, w'.router), w'.crackFan.Polling?);
    QueueStep(w.crackIn, a);
    Rewired(w.routerQ, WantsExtra(w.laserFan), w.router.Waiting?, WantsExtra(w'.laserFan), w'.router.Waiting?);
    Rewired(w.fatigueQ, WantsPrimary(w.crackFan), w.fatigue.Waiting?, WantsPrimary(w'.crackFan), w'.fatigue.Waiting?);
    Rewired(w.demQ, WantsExtra(w.crackFan), w.dem.Waiting?, WantsExtra(w'.crackFan), w'.dem.Waiting?);
  }

  lemma FatigueQStep(c: P.Setup, w: World, a: Q.Action<Detection>)
    requires Joined(c, w) && Enabled(c, w, FatigueQ(a))
    ensures var w' := Apply(c, w, FatigueQ(a)); Joined(c, w') && Simulates(c, View(w), Seen(w, FatigueQ(a)), View(w'))
  {
    hide Q.Inv, Q.Apply, Q.Enabled, Held, Polls, Wired, Offers, Ready, Offered, Popped, Returned, AlertIdle, R.Abs,
      Route, ForecastOf;
    var w' := Apply(c, w, FatigueQ(a));
    WiredStep(w.fatigueQ, a, WantsPrimary(w.crackFan), w.fatigue.Waiting?,
              w.crackIn.consumer.Outside? && Returned(w.demQ), w.fatigue.Waiting? && Returned(w.predictionQ),
              WantsPrimary(w'.crackFan), w'.fatigue.Waiting?);
    QueueStep(w.fatigueQ, a);
    Rewired(w.crackIn, WantsItem(Route, w.router), w.crackFan.Polling?, WantsItem(Route, w'.router),
            w'.crackFan.Polling?);
    Rewired(w.demQ, WantsExtra(w.crackFan), w.dem.Waiting?, WantsExtra(w'.crackFan), w'.dem.Waiting?);
    Rewired(w.predictionQ, WantsItem(P.Forecasts(c), w.fatigue), true, WantsItem(P.Forecasts(c), w'.fatigue), true);
  }

  lemma DemQStep(c: P.Setup, w: World, a: Q.Action<Detection>)
    requires Joined(c, w) && Enabled(c, w, DemQ(a))
    ensures var w' := Apply(c, w, DemQ(a)); Joined(c, w') && Simulates(c, View(w), Seen(w, DemQ(a)), View(w'))
  {
    hide Q.Inv, Q.Apply, Q.Enabled, Held, Polls, Wired, Offers, Ready, Offered, Popped, Returned, AlertIdle, R.Abs,
      Route, ForecastOf;
    var w' := Apply(c, w, DemQ(a));
    WiredStep(w.demQ, a, WantsExtra(w.crackFan), w.dem.Waiting?,
              w.crackIn.consumer.Outside? && Returned(w.fatigueQ), w.dem.Waiting? && Returned(w.repairQ),
              WantsExtra(w'.crackFan), w'.dem.Waiting?);
    QueueStep(w.demQ, a);
    Rewired(w.crackIn, WantsItem(Route, w.router), w.crackFan.Polling?, WantsItem(Route, w'.router),
            w'.crackFan.Polling?);
    Rewired(w.fatigueQ, WantsPrimary(w.crackFan), w.fatigue.Waiting?, WantsPrimary(w'.crackFan), w'.fatigue.Waiting?);
    Rewired(w.repairQ, WantsRepair(c, w.dem), true, WantsRepair(c, w'.dem), true);
  }

  lemma PredictionQStep(c: P.Setup, w: World, a: Q.Action<PredictionMessage>)
    requires Joined(c, w) && Enabled(c, w, PredictionQ(a))
    ensures var w' := Apply(c, w, PredictionQ(a));
      Joined(c, w') && Simulates(c, View(w), Seen(w, PredictionQ(a)), View(w'))
  {
    hide Q.Inv, Q.Apply, Q.Enabled, Held, Polls, Wired, Offers, Ready, Offered, Popped, Returned, AlertIdle, R.Abs,
      Route;
    var w' := Apply(c, w, PredictionQ(a));
    WiredStep(w.predictionQ, a, WantsItem(P.Forecasts(c), w.fatigue), true,
              w.fatigueQ.consumer.Outside?, AlertIdle(w), WantsItem(P.Forecasts(c), w'.fatigue), true);
    QueueStep(w.predictionQ, a);
    Rewired(w.fatigueQ, WantsPrimary(w.crackFan), w.fatigue.Waiting?, WantsPrimary(w'.crackFan), w'.fatigue.Waiting?);
  }

  lemma RepairQStep(c: P.Setup, w: World, a: Q.Action<RepairMessage>)
    requires Joined(c, w) && Enabled(c, w, RepairQ(a))
    ensures var w' := Apply(c, w, RepairQ(a)); Joined(c, w') && Simulates(c, View(w), Seen(w, RepairQ(a)), View(w'))
  {
    hide Q.Inv, Q.Apply, Q.Enabled, Held, Polls, Wired, Offers, Ready, Offered, Popped, Returned, AlertIdle, R.Abs,
      Route, ForecastOf;
    var w' := Apply(c, w, RepairQ(a));
    WiredStep(w.repairQ, a, WantsRepair(c, w.dem), true,
              w.demQ.consumer.Outside?, AlertIdle(w), WantsRepair(c, w'.dem), true);
    QueueStep(w.repairQ, a);
    Rewired(w.demQ, WantsExtra(w.crackFan), w.dem.Waiting?, WantsExtra(w'.crackFan), w'.dem.Waiting?);
  }

  lemma StageEnds(c: P.Setup, w: World, s: Step)
    requires Joined(c, w) && Enabled(c, w, s) && (s.RouterDone? || s.FatigueDone? || s.DemDone?)
    ensures var w' := Apply(c, w, s); Joined(c, w') && Simulates(c, View(w), Seen(w, s), View(w'))
  {
    hide Q.Inv, Q.Apply, Q.Enabled, Held, Polls, Wired, Returned, R.Abs, Route, AlertIdle, Allowed;
    var w' := Apply(c, w, s);
    match s {
      case RouterDone =>
        Rewired(w.routerQ, WantsExtra(w.laserFan), false, WantsExtra(w.laserFan), true);
        Rewired(w.crackIn, WantsItem(Route, w.router), w.crackFan.Polling?, WantsItem(Route, w'.router),
                w.crackFan.Polling?);
      case FatigueDone =>
        Rewired(w.fatigueQ, WantsPrimary(w.crackFan), false, WantsPrimary(w.crackFan), true);
        Rewired(w.predictionQ, WantsItem(P.Forecasts(c), w.fatigue), true, WantsItem(P.Forecasts(c), w'.fatigue), true);
      case DemDone =>
        Rewired(w.demQ, WantsExtra(w.crackFan), false, WantsExtra(w.crackFan), true);
        Rewired(w.repairQ, WantsRepair(c, w.dem), true, WantsRepair(c, w'.dem), true);
    }
  }

  /** Each step of the network of lock-free queues is one of the network of abstract queues, or
      nothing that can be seen there. */
  lemma StepSimulates(c: P.Setup, w: World, s: Step)
    requires Joined(c, w) && Enabled(c, w, s)
    ensures Joined(c, Apply(c, w, s)) && Simulates(c, View(w), Seen(w, s), View(Apply(c, w, s)))
  {
    hide Joined, Enabled, Apply, Seen, Simulates, View;
    match s
    case LaserIn(a) => LaserInStep(c, w, a);
    case AlertQ(a) => AlertQStep(c, w, a);
    case RouterQ(a) => RouterQStep(c, w, a);
    case CrackIn(a) => CrackInStep(c, w, a);
    case FatigueQ(a) => FatigueQStep(c, w, a);
    case DemQ(a) => DemQStep(c, w, a);
    case PredictionQ(a) => PredictionQStep(c, w, a);
    case RepairQ(a) => RepairQStep(c, w, a);
    case RouterDone => StageEnds(c, w, s);
    case FatigueDone => StageEnds(c, w, s);
    case DemDone => StageEnds(c, w, s);
  }

  // ------------------------------------------------- whole runs

  // The queues as constructed, each with a dummy node at some address, and all stages polling.
  ghost predicate Fresh<T(!new)>(q: Q.State<T>) { exists dummy: Q.Addr :: q == Q.Init(dummy) }

  ghost predicate Start(w: World) {
    && Fresh(w.laserIn) && Fresh(w.alertQ) && Fresh(w.routerQ) && Fresh(w.crackIn)
    && Fresh(w.fatigueQ) && Fresh(w.predictionQ) && Fresh(w.demQ) && Fresh(w.repairQ)
    && w.laserFan.Polling? && w.router.Waiting? && w.crackFan.Polling? && w.fatigue.Waiting? && w.dem.Waiting?
  }

  ghost predicate IsRun(c: P.Setup, worlds: seq<World>, steps: seq<Step>) {
    && |worlds| == |steps| + 1 && Start(worlds[0])
    && forall i {:trigger steps[i]} :: 0 <= i < |steps| ==>
         Enabled(c, worlds[i], steps[i]) && worlds[i + 1] == Apply(c, worlds[i], steps[i])
  }

  lemma FreshIsWired<T(!new)>(q: Q.State<T>, wants: T -> bool, polling: bool)
    requires Fresh(q)
    ensures Wired(q, wants, polling) && Q.Inv(q) && R.Abs(q) == Empty() && Polls(q, polling)
  {
    var dummy: Q.Addr :| q == Q.Init(dummy);
    Q.InitInv<T>(dummy);
  }

  lemma StartJoined(c: P.Setup, w: World)
    requires Start(w)
    ensures Joined(c, w) && View(w) == P.Start()
  {
    hide Q.Inv, Wired, Fresh, Polls;
    FreshIsWired(w.laserIn, (_: LaserMessage) => true, true);
    FreshIsWired(w.alertQ, WantsPrimary(w.laserFan), true);
    FreshIsWired(w.routerQ, WantsExtra(w.laserFan), true);
    FreshIsWired(w.crackIn, WantsItem(Route, w.router), true);
    FreshIsWired(w.fatigueQ, WantsPrimary(w.crackFan), true);
    FreshIsWired(w.demQ, WantsExtra(w.crackFan), true);
    FreshIsWired(w.predictionQ, WantsItem(P.Forecasts(c), w.fatigue), true);
    FreshIsWired(w.repairQ, WantsRepair(c, w.dem), true);
  }

  lemma {:induction false} RunStaysJoined(c: P.Setup, worlds: seq<World>, steps: seq<Step>, i: nat)
    requires IsRun(c, worlds, steps) && i < |worlds|
    ensures Joined(c, worlds[i]) && P.Inv(c, View(worlds[i]))
  {
    hide Joined, P.Inv, View, Enabled, Apply, Seen, P.Enabled, P.Apply;
    if i == 0 {
      StartJoined(c, worlds[0]);
      P.StartInv(c);
    } else {
      var w, s := worlds[i - 1], steps[i - 1];
      RunStaysJoined(c, worlds, steps, i - 1);
      StepSimulates(c, w, s);
      if Seen(w, s).Some? { P.StepKeepsInv(c, View(w), Seen(w, s).value); }
    }
  }

  // The steps on the first queue, and with them the parser's calls.
  ghost function OnLaserIn(steps: seq<Step>): seq<Q.Action<LaserMessage>> {
    P.Flat((s: Step) => if s.LaserIn? then [s.laser] else [], steps)
  }

  lemma OnLaserInSnoc(steps: seq<Step>, s: Step)
    ensures OnLaserIn(steps + [s]) == if s.LaserIn? then OnLaserIn(steps) + [s.laser] else OnLaserIn(steps)
  {
    P.FlatSnoc((s: Step) => if s.LaserIn? then [s.laser] else [], steps, s);
  }

  // The arguments of the parser's pushes, in the order of their tail exchanges.
  ghost function Input(steps: seq<Step>): seq<LaserMessage> { R.Calls(OnLaserIn(steps)).1 }

  lemma FreshFollows<T(!new)>(q: Q.State<T>)
    requires Fresh(q)
    ensures R.Follows(q, R.Calls<T>([]).0, R.Calls<T>([]).1)
  {
  }

  lemma CallsSnoc<T>(q: Q.State<T>, acts: seq<Q.Action<T>>, a: Q.Action<T>)
    requires Q.Inv(q) && Q.Enabled(q, a) && R.Follows(q, R.Calls(acts).0, R.Calls(acts).1)
    ensures R.Follows(Q.Apply(q, a), R.Calls(acts + [a]).0, R.Calls(acts + [a]).1)
  {
    hide R.Follows, Q.Apply, Q.Enabled;
    assert (acts + [a])[..|acts|] == acts;
    R.FollowsStep(q, a, R.Calls(acts).0, R.Calls(acts).1);
  }

  lemma NoSteps()
    ensures OnLaserIn([]) == []
  {
  }

  lemma OnlyLaserInSteps(c: P.Setup, w: World, s: Step)
    requires Enabled(c, w, s)
    ensures if s.LaserIn? then Q.Enabled(w.laserIn, s.laser) && Apply(c, w, s).laserIn == Q.Apply(w.laserIn, s.laser)
            else Apply(c, w, s).laserIn == w.laserIn
  {
    hide Q.Apply, Q.Enabled;
  }

  lemma JoinedInv(c: P.Setup, w: World)
    requires Joined(c, w)
    ensures Q.Inv(w.laserIn)
  {
    hide Q.Inv;
  }

  lemma {:induction false} RunFollowsParser(c: P.Setup, worlds: seq<World>, steps: seq<Step>, i: nat)
    requires IsRun(c, worlds, steps) && i <= |steps|
    ensures R.Follows(worlds[i].laserIn, R.Calls(OnLaserIn(steps[..i])).0, Input(steps[..i]))
  {
    hide Joined, Enabled, Apply, R.Follows, R.Calls, OnLaserIn;
    if i == 0 {
      assert steps[..0] == [] && OnLaserIn([]) == [] by { NoSteps(); }
      FreshFollows(worlds[0].laserIn);
    } else {
      var w, s := worlds[i - 1], steps[i - 1];
      RunFollowsParser(c, worlds, steps, i - 1);
      assert steps[..i] == steps[..i - 1] + [s];
      OnLaserInSnoc(steps[..i - 1], s);
      OnlyLaserInSteps(c, w, s);
      if s.LaserIn? {
        RunStaysJoined(c, worlds, steps, i - 1);
        JoinedInv(c, w);
        CallsSnoc(w.laserIn, OnLaserIn(steps[..i - 1]), s.laser);
      }
    }
  }

  ghost predicate NoFault(w: World) {
    && !w.laserIn.fault && !w.alertQ.fault && !w.routerQ.fault && !w.crackIn.fault
    && !w.fatigueQ.fault && !w.predictionQ.fault && !w.demQ.fault && !w.repairQ.fault
  }

  // What the alert module has received.
  ghost predicate Received(c: P.Setup, w: World, laser: seq<LaserMessage>, cracks: seq<Detection>) {
    && w.alertQ.delivered <= laser && w.predictionQ.delivered <= P.Flat(P.Forecasts(c), cracks)
    && Targets(w.repairQ.delivered) <= P.Flat(P.Repairs(c), cracks)
  }

  lemma DeliveredPushed<T>(q: Q.State<T>, wants: T -> bool, polling: bool)
    requires Wired(q, wants, polling)
    ensures q.delivered <= q.pushed && !q.fault
  {
  }

  lemma JoinedReceives(c: P.Setup, w: World, laser: seq<LaserMessage>, cracks: seq<Detection>)
    requires Joined(c, w) && P.Histories(c, View(w), laser, cracks)
    ensures NoFault(w) && Received(c, w, laser, cracks)
  {
    hide Q.Inv, Wired;
    assert !w.laserIn.fault by { InvNoFault(w.laserIn); }
    DeliveredPushed(w.alertQ, WantsPrimary(w.laserFan), true);
    DeliveredPushed(w.routerQ, WantsExtra(w.laserFan), w.router.Waiting?);
    DeliveredPushed(w.crackIn, WantsItem(Route, w.router), w.crackFan.Polling?);
    DeliveredPushed(w.fatigueQ, WantsPrimary(w.crackFan), w.fatigue.Waiting?);
    DeliveredPushed(w.demQ, WantsExtra(w.crackFan), w.dem.Waiting?);
    DeliveredPushed(w.predictionQ, WantsItem(P.Forecasts(c), w.fatigue), true);
    DeliveredPushed(w.repairQ, WantsRepair(c, w.dem), true);
    TargetsPrefix(w.repairQ.delivered, w.repairQ.pushed);
  }

  lemma InvNoFault<T>(q: Q.State<T>)
    requires Q.Inv(q)
    ensures !q.fault
  {
  }

  lemma TargetsPrefix(xs: seq<RepairMessage>, ys: seq<RepairMessage>)
    requires xs <= ys
    ensures Targets(xs) <= Targets(ys)
  {
  }

  /** Any interleaving of the steps of all queues and stages: no freed node is touched, and each queue
      has carried a prefix of a fixed function of what the parser's calls pushed, in the order of their
      tail exchanges, linked or not. The alert module has received prefixes of these; the second branch
      of a fan-out is at most one message behind the first; and when nothing is left to do, nothing is
      missing. */
  lemma QueuesCarryFunctionsOfInput(c: P.Setup, worlds: seq<World>, steps: seq<Step>)
    requires IsRun(c, worlds, steps)
    ensures var w, input := worlds[|steps|], Input(steps);
      var n, cracks := View(w), P.Flat(Route, input);
      && NoFault(w) && P.Histories(c, n, input, cracks) && Received(c, w, input, cracks)
      && 0 <= |w.alertQ.pushed| - |w.routerQ.pushed| <= 1 && 0 <= |w.fatigueQ.pushed| - |w.demQ.pushed| <= 1
      && (P.Quiescent(n) ==> P.Complete(c, n, input, cracks))
  {
    hide Joined, P.Histories, P.Complete, P.Quiescent, Received, NoFault, P.WorkOk, Input, R.Calls;
    var w := worlds[|steps|];
    RunStaysJoined(c, worlds, steps, |steps|);
    RunFollowsParser(c, worlds, steps, |steps|);
    assert steps[..|steps|] == steps;
    P.InvGivesHistories(c, View(w));
    JoinedReceives(c, w, Input(steps), P.Flat(Route, Input(steps)));
  }
}
