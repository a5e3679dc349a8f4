/** An identifier serves one component at a time: while a subscribe request holds
    it no publish is given it, and the other way round. */
module Exclusive {
  import opened Mqtt
  import opened Seqs
  import opened PidPools
  import PM = PublishModel
  import PT = PublishTheorems
  import PL = PublishLifetimes
  import SM = SubscribeModel
  import SL = SubscribeLifetimes
  import Handshakes
  import opened PidOwnership

  /** From index `from` on a history gives the identifier no purpose among the
      publishes: none is accepted, first transmitted, completed or lost with it. */
  ghost predicate NoPublish(log: seq<PM.Event>, from: nat, pid: Pid) {
    from <= |log| && forall j :: from <= j < |log| ==> pid !in PL.Concerned(log[j])
  }

  /** ... and none among the subscribe and unsubscribe requests. */
  ghost predicate NoRequest(log: seq<SM.Event>, from: nat, pid: Pid) {
    from <= |log| && forall j :: from <= j < |log| ==> pid !in SL.Concerned(log[j])
  }

  lemma InBag<T, U>(f: T -> seq<U>, s: seq<T>, i: nat, y: U)
    requires i < |s| && y in f(s[i])
    ensures y in Bag(f, s)
  {
    FlatMapIn(f, s, y);
  }

  // ---- single steps ----

  /** A step of the publishes gives only identifiers a purpose that they own. */
  lemma PublishesUseOwned(s: PM.Sender, a: PM.Step, pid: Pid)
    requires PM.Enabled(s, a) && pid !in PT.OwnedPids(s)
    requires a.StepAdmit? ==> pid !in PT.PublishPid(a.pub)
    ensures s.log <= PM.Apply(s, a).log && NoPublish(PM.Apply(s, a).log, |s.log|, pid)
  {
    hide Bag, Position;
    match a {
      case StepTransmit(i, _) =>
        if pid in PT.PublishPid(s.sendPublish[i]) {
          InBag(PT.PublishPid, s.sendPublish, i, pid);
        }
      case StepPuback(p) =>
        if p == pid && PM.PubackIndex(s, p) < |s.awaitPuback| {
          InBag(PT.AwaitPid, s.awaitPuback, PM.PubackIndex(s, p), pid);
        }
      case StepPubrec(p) =>
        if p == pid && PM.PubrecIndex(s, p) < |s.awaitPubrec| {
          InBag(PT.AwaitPid, s.awaitPubrec, PM.PubrecIndex(s, p), pid);
        }
      case StepPubcomp(p) =>
        if p == pid && PM.PubcompIndex(s, p) < |s.awaitPubcomp| {
          InBag(PT.PubcompPid, s.awaitPubcomp, PM.PubcompIndex(s, p), pid);
        }
      case _ =>
    }
  }

  lemma RequestsUseOwned(s: SM.Subs, a: SM.Step, pid: Pid)
    requires SM.Enabled(s, a) && pid !in SubPids(s)
    requires a.StepAccept? ==> pid != a.request.pid
    ensures s.log <= SM.Apply(s, a).log && NoRequest(SM.Apply(s, a).log, |s.log|, pid)
  {
    hide Bag, Position, SM.AnyFailure;
    match a {
      case StepTransmit(_) =>
        if pid == s.sendRequest[0].pid {
          InBag(RequestPid, s.sendRequest, 0, pid);
        }
      case StepSuback(p, _) =>
        if p == pid && SM.SubackIndex(s, p) < |s.awaitAck| {
          InBag(AwaitPid, s.awaitAck, SM.SubackIndex(s, p), pid);
        }
      case StepUnsuback(p) =>
        if p == pid && SM.UnsubackIndex(s, p) < |s.awaitAck| {
          InBag(AwaitPid, s.awaitAck, SM.UnsubackIndex(s, p), pid);
        }
      case _ =>
    }
  }

  lemma OwnedParts(g: System, pid: Pid)
    requires Ledger(g)
    ensures Bag(PT.PublishPid, g.callers)[pid] + PT.OwnedPids(g.publishes)[pid] + SubPids(g.subs)[pid] <= 1
  {
    hide Bag, Ledger, PT.OwnedPids, SubPids;
    OncePerPid(g, pid);
    assert Owned(g)[pid] == Bag(PT.PublishPid, g.callers)[pid] + PT.OwnedPids(g.publishes)[pid] + SubPids(g.subs)[pid];
  }

  /** While a request holds the identifier, no step gives it to a publish. */
  lemma RequestExcludes(g: System, a: Step, pid: Pid)
    requires Enabled(g, a) && pid in SubPids(g.subs)
    requires Ledger(g)
    ensures g.publishes.log <= Apply(g, a).publishes.log
    ensures NoPublish(Apply(g, a).publishes.log, |g.publishes.log|, pid)
  {
    hide Bag, Ledger, PT.OwnedPids, SubPids, PM.Apply, PM.Enabled, SM.Apply, Position;
    OwnedParts(g, pid);
    if a.Admit? {
      AdmitIsStep(g.publishes, g.callers[a.k]);
      if pid in PT.PublishPid(g.callers[a.k]) {
        InBag(PT.PublishPid, g.callers, a.k, pid);
      }
      PublishesUseOwned(g.publishes, PM.StepAdmit(g.callers[a.k]), pid);
    } else if a.PublishStep? {
      PublishesUseOwned(g.publishes, a.publish, pid);
    }
  }

  /** While a publish holds it, no step gives it to a request. */
  lemma PublishExcludes(g: System, a: Step, pid: Pid)
    requires Enabled(g, a) && pid in PT.OwnedPids(g.publishes)
    requires Ledger(g)
    ensures g.subs.log <= Apply(g, a).subs.log
    ensures NoRequest(Apply(g, a).subs.log, |g.subs.log|, pid)
  {
    hide Bag, Ledger, PT.OwnedPids, SubPids, PM.Apply, PM.Enabled, SM.Apply, SM.Enabled, SM.Admit, Position;
    OwnedParts(g, pid);
    if a.Request? {
      IssuedUnheld(g);
      Handshakes.AcceptIsStep(g.subs, SM.SubRequest(a.topics, a.kind, Issued(g.pool).value, a.uid));
      RequestsUseOwned(g.subs, SM.StepAccept(SM.SubRequest(a.topics, a.kind, Issued(g.pool).value, a.uid)), pid);
    } else if a.SubscribeStep? {
      RequestsUseOwned(g.subs, a.subscribe, pid);
    }
  }

  // ---- over every run ----

  lemma NoPublishYet(log: seq<PM.Event>, pid: Pid)
    ensures NoPublish(log, |log|, pid)
  {
  }

  lemma NoRequestYet(log: seq<SM.Event>, pid: Pid)
    ensures NoRequest(log, |log|, pid)
  {
  }

  lemma NoPublishJoin(l: seq<PM.Event>, m: seq<PM.Event>, n: seq<PM.Event>, pid: Pid)
    requires l <= m <= n && NoPublish(m, |l|, pid) && NoPublish(n, |m|, pid)
    ensures NoPublish(n, |l|, pid)
  {
  }

  lemma NoRequestJoin(l: seq<SM.Event>, m: seq<SM.Event>, n: seq<SM.Event>, pid: Pid)
    requires l <= m <= n && NoRequest(m, |l|, pid) && NoRequest(n, |m|, pid)
    ensures NoRequest(n, |l|, pid)
  {
  }

  /** A request holds the identifier before every step of the run. */
  ghost predicate RequestHolds(g: System, run: seq<Step>, pid: Pid)
    requires CanRun(g, run)
    decreases |run|
  {
    run != [] ==> pid in SubPids(g.subs) && RequestHolds(Apply(g, run[0]), run[1..], pid)
  }

  ghost predicate PublishHolds(g: System, run: seq<Step>, pid: Pid)
    requires CanRun(g, run)
    decreases |run|
  {
    run != [] ==> pid in PT.OwnedPids(g.publishes) && PublishHolds(Apply(g, run[0]), run[1..], pid)
  }

  /** As long as a subscribe or unsubscribe request holds an identifier, no publish
      is accepted, transmitted, completed or lost with it. */
  lemma {:induction false} RequestKeepsPublishesOff(g: System, run: seq<Step>, pid: Pid)
    requires CanRun(g, run) && RequestHolds(g, run, pid)
    requires Inv(g)
    ensures g.publishes.log <= Run(g, run).publishes.log
    ensures NoPublish(Run(g, run).publishes.log, |g.publishes.log|, pid)
    decreases |run|
  {
    hide Enabled, Apply, SubPids, Ledger, Balanced, PT.Faithful, NoPublish;
    if run == [] {
      NoPublishYet(g.publishes.log, pid);
    } else {
      var h := Apply(g, run[0]);
      RequestExcludes(g, run[0], pid);
      InvStep(g, run[0]);
      RequestKeepsPublishesOff(h, run[1..], pid);
      NoPublishJoin(g.publishes.log, h.publishes.log, Run(g, run).publishes.log, pid);
    }
  }

  /** As long as a publish holds an identifier, no subscribe or unsubscribe request
      is accepted, transmitted or completed with it. */
  lemma {:induction false} PublishKeepsRequestsOff(g: System, run: seq<Step>, pid: Pid)
    requires CanRun(g, run) && PublishHolds(g, run, pid)
    requires Inv(g)
    ensures g.subs.log <= Run(g, run).subs.log
    ensures NoRequest(Run(g, run).subs.log, |g.subs.log|, pid)
    decreases |run|
  {
    hide Enabled, Apply, PT.OwnedPids, Ledger, Balanced, PT.Faithful, NoRequest;
    if run == [] {
      NoRequestYet(g.subs.log, pid);
    } else {
      var h := Apply(g, run[0]);
      PublishExcludes(g, run[0], pid);
      InvStep(g, run[0]);
      PublishKeepsRequestsOff(h, run[1..], pid);
      NoRequestJoin(g.subs.log, h.subs.log, Run(g, run).subs.log, pid);
    }
  }

  /** In every run of the identifier system, while one component holds an
      identifier the history of the other gives it no purpose. */
  lemma OneComponent(g: System, run: seq<Step>, pid: Pid)
    requires Reachable(g) && CanRun(g, run)
    ensures RequestHolds(g, run, pid) ==> NoPublish(Run(g, run).publishes.log, |g.publishes.log|, pid)
    ensures PublishHolds(g, run, pid) ==> NoRequest(Run(g, run).subs.log, |g.subs.log|, pid)
  {
    hide Reachable, Inv, RequestHolds, PublishHolds, NoPublish, NoRequest;
    ReachableInv(g);
    if RequestHolds(g, run, pid) {
      RequestKeepsPublishesOff(g, run, pid);
    }
    if PublishHolds(g, run, pid) {
      PublishKeepsRequestsOff(g, run, pid);
    }
  }
}
