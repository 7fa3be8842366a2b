/** What each stage makes of one message, and the `process` methods that do it. */
module Stages {
  import opened Common

  // ------------------------------------------------- one message

  function Route(msg: LaserMessage): seq<Detection> {
    if !msg.data.crackDetected || msg.data.cracks == [] then []
    else [Detection(msg.data, msg.data.porcelainId, msg.data.cracks, PointsOf(msg.data.cracks))]
  }

  function PointsOf(cracks: seq<CrackInfo>): seq<seq<Point3D>> {
    seq(|cracks|, i requires 0 <= i < |cracks| => cracks[i].points)
  }

  function ForecastOf(model: CrackInfo -> Forecast, msg: Detection): seq<PredictionMessage> {
    seq(|msg.cracks|, i requires 0 <= i < |msg.cracks| =>
      PredictionMessage(msg.cracks[i], msg.porcelainId, msg.cracks[i].id, model(msg.cracks[i])))
  }

  // The part of a repair message that does not come from the random particle simulation.
  datatype RepairTarget = RepairTarget(crack: CrackInfo, porcelainId: int, crackId: int, materialId: int)

  function TargetOf(m: RepairMessage): RepairTarget { RepairTarget(m.crack, m.porcelainId, m.crackId, m.materialId) }

  function TargetsOf(material: int, msg: Detection): seq<RepairTarget> {
    seq(|msg.cracks|, i requires 0 <= i < |msg.cracks| =>
      RepairTarget(msg.cracks[i], msg.porcelainId, msg.cracks[i].id, material))
  }

  function Targets(ms: seq<RepairMessage>): seq<RepairTarget> {
    seq(|ms|, i requires 0 <= i < |ms| => TargetOf(ms[i]))
  }

  // ------------------------------------------------- the process methods

  class Channel<T> {
    var pushed: seq<T>

    constructor ()
      ensures pushed == []
    {
      pushed := [];
    }

    method Push(x: T)
      modifies this
      ensures pushed == old(pushed) + [x]
    {
      pushed := pushed + [x];
    }
  }

  // n copies of x have been appended.
  ghost predicate Served<T>(x: T, before: seq<T>, after: seq<T>, n: nat) {
    && |after| == |before| + n && after[..|before|] == before
    && forall i :: |before| <= i < |after| ==> after[i] == x
  }

  lemma ServedOnce<T>(x: T, before: seq<T>, after: seq<T>, n: nat)
    requires Served(x, before, after, n)
    ensures Served(x, before, after + [x], n + 1)
  {
  }

  lemma NothingServed<T>(x: T, before: seq<T>)
    ensures Served(x, before, before, 0)
  {
  }

  // How often a queue is among the first i outputs.
  ghost function Among<T>(outs: seq<Channel?<T>>, i: nat, q: Channel<T>): nat
    requires i <= |outs|
  {
    multiset(outs[..i])[q]
  }

  lemma NextOutput<T>(outs: seq<Channel?<T>>, i: nat)
    requires i < |outs|
    ensures forall q :: Among(outs, i + 1, q) == Among(outs, i, q) + if outs[i] == q then 1 else 0
  {
    assert outs[..i + 1] == outs[..i] + [outs[i]];
  }

  lemma FirstOutput<T>(outs: seq<Channel?<T>>)
    requires outs != []
    ensures forall q :: Among(outs, 1, q) == if outs[0] == q then 1 else 0
  {
    assert outs[..1] == [outs[0]];
  }

  lemma AllOutputs<T>(outs: seq<Channel?<T>>)
    ensures forall q: Channel<T> :: Among(outs, |outs|, q) == multiset(outs)[q]
  {
    assert outs[..|outs|] == outs;
  }

  class FanOut<T> {
    var primary: Channel?<T>
    var extras: seq<Channel?<T>>

    ghost function Outputs(): seq<Channel?<T>>
      reads this
    {
      [primary] + extras
    }

    constructor ()
      ensures primary == null && extras == []
    {
      primary, extras := null, [];
    }

    method AddOutput(q: Channel?<T>)
      modifies this
      ensures extras == old(extras) + [q] && primary == old(primary)
    {
      extras := extras + [q];
    }

    /** Every wired queue receives one copy for each time it is wired, in no other order than
        primary first; a queue that is not wired receives nothing. */
    method Process(msg: T)
      modifies set q | q in Outputs() && q != null
      ensures forall q: Channel<T> :: q in Outputs() ==>
        Served(msg, old(q.pushed), q.pushed, multiset(Outputs())[q])
      ensures primary == old(primary) && extras == old(extras)
    {
      hide Served, Among;
      ghost var outs := Outputs();
      FirstOutput(outs);
      AllOutputs(outs);
      forall q: Channel<T> | q in outs ensures Served(msg, q.pushed, q.pushed, 0) { NothingServed(msg, q.pushed); }
      if primary != null {
        ServedOnce(msg, primary.pushed, primary.pushed, 0);
        primary.Push(msg);
      }
      for i := 0 to |extras|
        invariant primary == old(primary) && extras == old(extras)
        invariant forall q: Channel<T> :: q in outs ==>
          Served(msg, old(q.pushed), q.pushed, Among(outs, i + 1, q))
      {
        NextOutput(outs, i + 1);
        if extras[i] != null {
          var q := extras[i];
          ServedOnce(msg, old(q.pushed), q.pushed, Among(outs, i + 1, q));
          q.Push(msg);
        }
      }
    }
  }

  /** A detection repeats its scan: porcelain, cracks, and the points of every crack. */
  ghost predicate Detects(d: Detection, data: LaserData) {
    && d.laser == data && d.porcelainId == data.porcelainId && d.cracks == data.cracks
    && |d.crackPoints| == |data.cracks|
    && forall i :: 0 <= i < |data.cracks| ==> d.crackPoints[i] == data.cracks[i].points
  }

  lemma RouteDetects(msg: LaserMessage)
    ensures if msg.data.crackDetected && msg.data.cracks != []
            then |Route(msg)| == 1 && Detects(Route(msg)[0], msg.data)
            else Route(msg) == []
  {
  }

  method RouterProcess(msg: LaserMessage, out: Channel?<Detection>)
    modifies if out == null then {} else {out}
    ensures out != null ==> out.pushed == old(out.pushed) + Route(msg)
    ensures out != null && (!msg.data.crackDetected || msg.data.cracks == []) ==> out.pushed == old(out.pushed)
    ensures out != null && msg.data.crackDetected && msg.data.cracks != [] ==>
      && |out.pushed| == |old(out.pushed)| + 1 && out.pushed[..|old(out.pushed)|] == old(out.pushed)
      && Detects(out.pushed[|old(out.pushed)|], msg.data)
  {
    RouteDetects(msg);
    if !msg.data.crackDetected || msg.data.cracks == [] {
      return;
    }
    var cracks: seq<CrackInfo>, points: seq<seq<Point3D>> := [], [];
    for i := 0 to |msg.data.cracks|
      invariant cracks == msg.data.cracks[..i] && points == PointsOf(cracks)
      invariant out != null ==> out.pushed == old(out.pushed)
    {
      cracks := cracks + [msg.data.cracks[i]];
      points := points + [msg.data.cracks[i].points];
    }
    assert msg.data.cracks[..|msg.data.cracks|] == msg.data.cracks;
    if out != null {
      out.Push(Detection(msg.data, msg.data.porcelainId, cracks, points));
    }
  }

  method FatigueProcess(model: CrackInfo -> Forecast, msg: Detection, out: Channel?<PredictionMessage>)
    modifies if out == null then {} else {out}
    ensures out != null ==> out.pushed == old(out.pushed) + ForecastOf(model, msg)
    ensures out != null ==>
      && |out.pushed| == |old(out.pushed)| + |msg.cracks| && out.pushed[..|old(out.pushed)|] == old(out.pushed)
      && forall i :: 0 <= i < |msg.cracks| ==>
           var m := out.pushed[|old(out.pushed)| + i];
           && m.crack == msg.cracks[i] && m.crackId == msg.cracks[i].id && m.porcelainId == msg.porcelainId
           && m.forecast == model(msg.cracks[i])
  {
    for i := 0 to |msg.cracks|
      invariant out != null ==> out.pushed == old(out.pushed) + ForecastOf(model, msg)[..i]
    {
      var crack := msg.cracks[i];
      var forecast := model(crack);
      if out != null {
        out.Push(PredictionMessage(crack, msg.porcelainId, crack.id, forecast));
      }
    }
  }

  /** `simulate` is one random outcome of the particle simulation per crack. */
  method DemProcess(simulate: nat -> Repair, material: int, msg: Detection, out: Channel?<RepairMessage>)
    modifies if out == null then {} else {out}
    ensures out != null ==>
      && old(out.pushed) <= out.pushed
      && Targets(out.pushed[|old(out.pushed)|..]) == TargetsOf(material, msg)
    ensures out != null ==>
      && |out.pushed| == |old(out.pushed)| + |msg.cracks|
      && forall i :: 0 <= i < |msg.cracks| ==>
           var m := out.pushed[|old(out.pushed)| + i];
           && m.crack == msg.cracks[i] && m.crackId == msg.cracks[i].id && m.porcelainId == msg.porcelainId
           && m.materialId == material && m.repair == simulate(i)
  {
    for i := 0 to |msg.cracks|
      invariant out != null ==>
        && old(out.pushed) <= out.pushed && |out.pushed| == |old(out.pushed)| + i
        && Targets(out.pushed[|old(out.pushed)|..]) == TargetsOf(material, msg)[..i]
        && forall j :: 0 <= j < i ==>
             out.pushed[|old(out.pushed)| + j] ==
             RepairMessage(msg.cracks[j], msg.porcelainId, msg.cracks[j].id, material, simulate(j))
    {
      var crack := msg.cracks[i];
      var repair := simulate(i);
      if out != null {
        label L:
        out.Push(RepairMessage(crack, msg.porcelainId, crack.id, material, repair));
        assert out.pushed[|old(out.pushed)|..] ==
          old@L(out.pushed)[|old(out.pushed)|..] + [RepairMessage(crack, msg.porcelainId, crack.id, material, repair)];
      }
    }
  }
}
