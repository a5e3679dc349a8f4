/** What the application asked for is what the client works on: no argument of a
    call is changed, no request is forgotten and none is made up. */
module Requested {
  import opened Mqtt
  import opened Seqs
  import PM = PublishModel
  import SM = SubscribeModel
  import opened PidOwnership

  /** A publish as the application asked for it, without its identifier. */
  function AsAsked(p: PM.OwnedPublish): seq<Asked> {
    [AskedPublish(p.Qos(), p.m.retain, p.m.topic, p.m.payload, p.uid)]
  }

  function PublishAsked(a: Asked): seq<Asked> { if a.AskedPublish? then [a] else [] }

  function RequestAsked(a: Asked): seq<Asked> { if a.AskedRequest? then [a] else [] }

  function AcceptedPublish(e: PM.Event): seq<Asked> { if e.Accepted? then AsAsked(e.pub) else [] }

  function AcceptedRequest(e: SM.Event): seq<Asked> {
    if e.Accepted? then [AskedRequest(e.request.topics, e.request.kind, e.request.uid)] else []
  }

  /** Every publish that was asked for waits, was accepted or was abandoned. */
  ghost predicate PublishesKept(g: System) {
    Bag(PublishAsked, g.asked)
    == Bag(AsAsked, g.callers) + Bag(AcceptedPublish, g.publishes.log) + Bag(AsAsked, g.abandoned)
  }

  /** Every request that was asked for was accepted, in this order. */
  ghost predicate RequestsKept(g: System) {
    FlatMap(RequestAsked, g.asked) == FlatMap(AcceptedRequest, g.subs.log)
  }

  lemma PublishesAccept(s: PM.Sender, a: PM.Step)
    requires PM.Enabled(s, a) && !a.StepAdmit?
    ensures Bag(AcceptedPublish, PM.Apply(s, a).log) == Bag(AcceptedPublish, s.log)
  {
    hide Position, FlatMap;
    var more := PM.Apply(s, a).log[|s.log|..];
    assert PM.Apply(s, a).log == s.log + more;
    FlatMapNothing(AcceptedPublish, s.log, more);
  }

  lemma RequestsAccept(s: SM.Subs, a: SM.Step)
    requires SM.Enabled(s, a) && !a.StepAccept?
    ensures FlatMap(AcceptedRequest, SM.Apply(s, a).log) == FlatMap(AcceptedRequest, s.log)
  {
    hide Position, FlatMap, SM.AnyFailure;
    var more := SM.Apply(s, a).log[|s.log|..];
    assert SM.Apply(s, a).log == s.log + more;
    FlatMapNothing(AcceptedRequest, s.log, more);
  }

  lemma KeptCall(g: System, a: Step, t: System)
    requires a.Call? && Enabled(g, a) && t == Apply(g, a) && PublishesKept(g) && RequestsKept(g)
    ensures PublishesKept(t) && RequestsKept(t)
  {
    hide FlatMap;
    var p := t.callers[|g.callers|];
    var asked := AskedPublish(a.qos, a.retain, a.topic, a.payload, a.uid);
    assert AsAsked(p) == [asked];
    BagSnoc(AsAsked, g.callers, p);
    BagSnoc(PublishAsked, g.asked, asked);
    FlatMapNothing(RequestAsked, g.asked, [asked]);
  }

  lemma KeptAdmit(g: System, k: nat, t: System)
    requires Enabled(g, Admit(k)) && t == Apply(g, Admit(k)) && PublishesKept(g) && RequestsKept(g)
    ensures PublishesKept(t) && RequestsKept(t)
  {
    hide FlatMap;
    BagRemove(AsAsked, g.callers, k);
    BagSnoc(AcceptedPublish, g.publishes.log, PM.Event.Accepted(g.callers[k]));
  }

  lemma KeptAbandon(g: System, k: nat, t: System)
    requires Enabled(g, Abandon(k)) && t == Apply(g, Abandon(k)) && PublishesKept(g) && RequestsKept(g)
    ensures PublishesKept(t) && RequestsKept(t)
  {
    hide FlatMap;
    BagRemove(AsAsked, g.callers, k);
    BagSnoc(AsAsked, g.abandoned, g.callers[k]);
  }

  lemma KeptRequest(g: System, a: Step, t: System)
    requires a.Request? && Enabled(g, a) && t == Apply(g, a) && PublishesKept(g) && RequestsKept(g)
    ensures PublishesKept(t) && RequestsKept(t)
  {
    hide FlatMap;
    var asked := AskedRequest(a.topics, a.kind, a.uid);
    FlatMapNothing(PublishAsked, g.asked, [asked]);
    FlatMapSnoc(RequestAsked, g.asked, asked);
    FlatMapSnoc(AcceptedRequest, g.subs.log, t.subs.log[|g.subs.log|]);
  }

  lemma KeptStep(g: System, a: Step, t: System)
    requires Enabled(g, a) && t == Apply(g, a) && PublishesKept(g) && RequestsKept(g)
    ensures PublishesKept(t) && RequestsKept(t)
  {
    hide FlatMap, Bag, PM.Apply, PM.Enabled, SM.Apply, SM.Enabled, Position;
    match a {
      case Call(_, _, _, _, _) => KeptCall(g, a, t);
      case Admit(k) => KeptAdmit(g, k, t);
      case Abandon(k) => KeptAbandon(g, k, t);
      case PublishStep(p) => PublishesAccept(g.publishes, p);
      case Request(_, _, _) => KeptRequest(g, a, t);
      case SubscribeStep(p) => RequestsAccept(g.subs, p);
      case AutoSubscribe =>
    }
  }

  lemma {:induction false} KeptRun(g: System, run: seq<Step>)
    requires CanRun(g, run) && PublishesKept(g) && RequestsKept(g)
    ensures PublishesKept(Run(g, run)) && RequestsKept(Run(g, run))
    decreases |run|
  {
    hide PublishesKept, RequestsKept, Enabled, Apply;
    if run != [] {
      KeptStep(g, run[0], Apply(g, run[0]));
      KeptRun(Apply(g, run[0]), run[1..]);
    }
  }

  lemma NothingAsked(cap: nat, wireTopicSize: nat)
    ensures PublishesKept(Init(cap, wireTopicSize)) && RequestsKept(Init(cap, wireTopicSize))
  {
  }

  /** In every run, with class, retain flag, topic, payload and label as the
      application gave them: the publishes asked for are those that wait, were
      accepted or were abandoned, as bags, and the requests asked for are those
      that were accepted, in order. */
  lemma AskedIsKept(g: System)
    requires Reachable(g)
    ensures Bag(PublishAsked, g.asked)
         == Bag(AsAsked, g.callers) + Bag(AcceptedPublish, g.publishes.log) + Bag(AsAsked, g.abandoned)
    ensures FlatMap(RequestAsked, g.asked) == FlatMap(AcceptedRequest, g.subs.log)
  {
    hide FlatMap, Bag, Enabled, Apply;
    var cap: nat, wireTopicSize: nat, run :|
      CanRun(Init(cap, wireTopicSize), run) && Run(Init(cap, wireTopicSize), run) == g;
    NothingAsked(cap, wireTopicSize);
    KeptRun(Init(cap, wireTopicSize), run);
  }
}
