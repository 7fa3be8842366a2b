/** What the messages at the end of the pipeline say about the scans at its beginning, in the messages'
    own fields. */
module PipelineContents {
  import opened Common
  import opened Pipeline
  import opened Stages
  import N = NetworkProgress
  import W = QueueNetwork

  // A crack of a scan, and the porcelain that the scan is of.
  datatype Found = Found(crack: CrackInfo, porcelainId: int)

  function FoundIn(msg: LaserMessage): seq<Found> {
    if !msg.data.crackDetected then [] else
    seq(|msg.data.cracks|, i requires 0 <= i < |msg.data.cracks| => Found(msg.data.cracks[i], msg.data.porcelainId))
  }

  // The cracks of all scans that report one, in order.
  function AllFound(input: seq<LaserMessage>): seq<Found> { Flat(FoundIn, input) }

  // The scans that report cracks.
  function Reporting(msg: LaserMessage): seq<LaserData> {
    if msg.data.crackDetected && msg.data.cracks != [] then [msg.data] else []
  }

  lemma {:induction false} FlatConcat<A, B>(f: A -> seq<B>, xs: seq<A>, ys: seq<A>)
    ensures Flat(f, xs + ys) == Flat(f, xs) + Flat(f, ys)
  {
    if ys == [] {
      assert xs + ys == xs;
    } else {
      assert (xs + ys)[..|xs + ys| - 1] == xs + ys[..|ys| - 1];
      FlatConcat(f, xs, ys[..|ys| - 1]);
    }
  }

  // ------------------------------------------------- what the messages say

  // Each forecast is the model's for its own crack, and the cracks are these.
  ghost predicate Forecasted(c: Setup, ms: seq<PredictionMessage>, found: seq<Found>) {
    && |ms| == |found|
    && forall i :: 0 <= i < |ms| ==>
         && Found(ms[i].crack, ms[i].porcelainId) == found[i]
         && ms[i].crackId == ms[i].crack.id && ms[i].forecast == c.model(ms[i].crack)
  }

  // Each repair is of its own crack with the default material, and the cracks are these.
  ghost predicate Repaired(c: Setup, ts: seq<RepairTarget>, found: seq<Found>) {
    && |ts| == |found|
    && forall i :: 0 <= i < |ts| ==>
         && Found(ts[i].crack, ts[i].porcelainId) == found[i]
         && ts[i].crackId == ts[i].crack.id && ts[i].materialId == c.material
  }

  // Each detection repeats its scan, and the scans are these.
  ghost predicate Detected(ds: seq<Detection>, scans: seq<LaserData>) {
    |ds| == |scans| && forall i :: 0 <= i < |ds| ==> Detects(ds[i], scans[i])
  }

  lemma ForecastConcat(c: Setup, a: seq<PredictionMessage>, b: seq<PredictionMessage>, x: seq<Found>, y: seq<Found>)
    requires Forecasted(c, a, x) && Forecasted(c, b, y)
    ensures Forecasted(c, a + b, x + y)
  {
  }

  lemma RepairedConcat(c: Setup, a: seq<RepairTarget>, b: seq<RepairTarget>, x: seq<Found>, y: seq<Found>)
    requires Repaired(c, a, x) && Repaired(c, b, y)
    ensures Repaired(c, a + b, x + y)
  {
  }

  lemma DetectedConcat(a: seq<Detection>, b: seq<Detection>, x: seq<LaserData>, y: seq<LaserData>)
    requires Detected(a, x) && Detected(b, y)
    ensures Detected(a + b, x + y)
  {
    hide Detects;
  }

  lemma NothingSaid(c: Setup)
    ensures Forecasted(c, [], []) && Repaired(c, [], []) && Detected([], [])
  {
  }

  lemma OneForecast(c: Setup, msg: LaserMessage)
    ensures Forecasted(c, Flat(Forecasts(c), Route(msg)), FoundIn(msg))
  {
    if Route(msg) != [] { FlatOne(Forecasts(c), Route(msg)[0]); }
  }

  lemma OneRepair(c: Setup, msg: LaserMessage)
    ensures Repaired(c, Flat(Repairs(c), Route(msg)), FoundIn(msg))
  {
    if Route(msg) != [] { FlatOne(Repairs(c), Route(msg)[0]); }
  }

  lemma OneDetection(msg: LaserMessage)
    ensures Detected(Route(msg), Reporting(msg))
  {
  }

  lemma FlatOne<A, B>(f: A -> seq<B>, x: A)
    ensures Flat(f, [x]) == f(x)
  {
    FlatSnoc(f, [], x);
    assert [] + [x] == [x];
  }

  /** The functions of the input that the queues carry, in terms of the scans. */
  lemma {:induction false} FunctionsOfInput(c: Setup, input: seq<LaserMessage>)
    ensures Detected(Flat(Route, input), Flat(Reporting, input))
    ensures Forecasted(c, Flat(Forecasts(c), Flat(Route, input)), AllFound(input))
    ensures Repaired(c, Flat(Repairs(c), Flat(Route, input)), AllFound(input))
  {
    hide Detected, Forecasted, Repaired, Forecasts, Repairs, Route, Reporting, FoundIn;
    if input == [] {
      NothingSaid(c);
    } else {
      var before, msg := input[..|input| - 1], input[|input| - 1];
      FunctionsOfInput(c, before);
      FlatConcat(Forecasts(c), Flat(Route, before), Route(msg));
      FlatConcat(Repairs(c), Flat(Route, before), Route(msg));
      OneForecast(c, msg);
      OneRepair(c, msg);
      OneDetection(msg);
      var ds, more := Flat(Route, before), Route(msg);
      ForecastConcat(c, Flat(Forecasts(c), ds), Flat(Forecasts(c), more), AllFound(before), FoundIn(msg));
      RepairedConcat(c, Flat(Repairs(c), ds), Flat(Repairs(c), more), AllFound(before), FoundIn(msg));
      DetectedConcat(ds, more, Flat(Reporting, before), Reporting(msg));
    }
  }

  // ------------------------------------------------- the network

  // Each repair message is for its own crack with the default material, and the cracks are these.
  ghost predicate RepairedBy(c: Setup, ms: seq<RepairMessage>, found: seq<Found>) {
    && |ms| == |found|
    && forall i :: 0 <= i < |ms| ==>
         && Found(ms[i].crack, ms[i].porcelainId) == found[i]
         && ms[i].crackId == ms[i].crack.id && ms[i].materialId == c.material
  }

  lemma TargetsRepair(c: Setup, ms: seq<RepairMessage>, found: seq<Found>)
    requires Repaired(c, Targets(ms), found)
    ensures RepairedBy(c, ms, found)
  {
    forall i | 0 <= i < |ms| ensures Targets(ms)[i] == TargetOf(ms[i]) {}
  }

  // What has come through, all of it or a beginning.
  ghost predicate Carried(c: Setup, cracks: seq<Detection>, predictions: seq<PredictionMessage>,
                          repairs: seq<RepairMessage>, input: seq<LaserMessage>)
  {
    && |cracks| <= |Flat(Reporting, input)| && Detected(cracks, Flat(Reporting, input)[..|cracks|])
    && |predictions| <= |AllFound(input)| && Forecasted(c, predictions, AllFound(input)[..|predictions|])
    && |repairs| <= |AllFound(input)| && RepairedBy(c, repairs, AllFound(input)[..|repairs|])
  }

  lemma PrefixesCarried(c: Setup, cracks: seq<Detection>, predictions: seq<PredictionMessage>,
                        repairs: seq<RepairMessage>, input: seq<LaserMessage>)
    requires cracks <= Flat(Route, input) && predictions <= Flat(Forecasts(c), Flat(Route, input))
    requires Targets(repairs) <= Flat(Repairs(c), Flat(Route, input))
    ensures Carried(c, cracks, predictions, repairs, input)
  {
    hide Flat, Detects, RepairedBy;
    FunctionsOfInput(c, input);
    assert |Targets(repairs)| == |repairs|;
    TargetsRepair(c, repairs, AllFound(input)[..|repairs|]);
  }

  /** In every reachable state of the network, whatever the schedule: the detections passed on repeat the
      scans that report cracks; each forecast passed on is the model's for the crack that its message is
      about, each repair is of that crack with the default material, and these cracks are, in order, those
      of the scans pushed by the parser. The same holds of what the alert module has received. */
  lemma MessagesFollowScans(c: Setup, worlds: seq<W.World>, steps: seq<W.Step>)
    requires W.IsRun(c, worlds, steps)
    ensures var w, input := worlds[|steps|], W.Input(steps);
      && Carried(c, w.crackIn.pushed, w.predictionQ.pushed, w.repairQ.pushed, input)
      && Carried(c, w.crackIn.delivered, w.predictionQ.delivered, w.repairQ.delivered, input)
  {
    hide Carried, Flat, Targets, W.Joined, W.NoFault, Complete, Quiescent, W.Input, W.Enabled, W.Apply;
    var w, input := worlds[|steps|], W.Input(steps);
    W.QueuesCarryFunctionsOfInput(c, worlds, steps);
    CrackInDelivered(c, worlds, steps);
    PrefixesCarried(c, w.crackIn.pushed, w.predictionQ.pushed, w.repairQ.pushed, input);
    PrefixesCarried(c, w.crackIn.delivered, w.predictionQ.delivered, w.repairQ.delivered, input);
  }

  lemma CrackInDelivered(c: Setup, worlds: seq<W.World>, steps: seq<W.Step>)
    requires W.IsRun(c, worlds, steps)
    ensures worlds[|steps|].crackIn.delivered <= worlds[|steps|].crackIn.pushed
  {
    hide W.Enabled, W.Apply, W.Wired;
    W.RunStaysJoined(c, worlds, steps, |steps|);
    var w := worlds[|steps|];
    W.DeliveredPushed(w.crackIn, W.WantsItem(Route, w.router), w.crackFan.Polling?);
  }

  /** And after any run in which the parser's calls have returned, further steps bring to the alert module
      one forecast and one repair for every crack of every scan that reports one, in order. */
  lemma EveryCrackIsAnswered(c: Setup, worlds: seq<W.World>, steps: seq<W.Step>)
    returns (later: seq<W.World>, more: seq<W.Step>)
    requires W.IsRun(c, worlds, steps) && W.Returned(worlds[|steps|].laserIn)
    ensures N.HelpfulRun(c, later, more) && later[0] == worlds[|steps|]
    ensures var w, found := later[|more|], AllFound(W.Input(steps));
      Forecasted(c, w.predictionQ.delivered, found) && RepairedBy(c, w.repairQ.delivered, found)
  {
    hide W.Enabled, W.Apply, N.Useful, N.Bound, N.G.Done, W.View, W.Input, Flat, Targets, RepairedBy, Forecasted;
    later, more := N.NetworkFinishes(c, worlds, steps);
    FunctionsOfInput(c, W.Input(steps));
    TargetsRepair(c, later[|more|].repairQ.delivered, AllFound(W.Input(steps)));
  }
}
