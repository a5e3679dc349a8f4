/** What holds over every run of the outgoing publishes, and the proof that the
    send passes are such runs. */
module PublishRuns {
  import opened Mqtt
  import opened Seqs
  import opened PacketLink
  import opened PublishModel

  // ---- runs compose ----

  ghost predicate Leads(s: Sender, t: Sender) {
    exists run :: CanRun(s, run) && Run(s, run) == t
  }

  lemma {:induction false} RunConcat(s: Sender, a: seq<Step>, b: seq<Step>)
    requires CanRun(s, a) && CanRun(Run(s, a), b)
    ensures CanRun(s, a + b) && Run(s, a + b) == Run(Run(s, a), b)
    decreases |a|
  {
    hide Enabled, Apply;
    if a == [] {
      assert a + b == b;
    } else {
      RunConcat(Apply(s, a[0]), a[1..], b);
      assert (a + b)[1..] == a[1..] + b;
    }
  }

  lemma LeadsSelf(s: Sender)
    ensures Leads(s, s)
  {
    assert CanRun(s, []) && Run(s, []) == s;
  }

  lemma LeadsStep(s: Sender, a: Step)
    requires Enabled(s, a)
    ensures Leads(s, Apply(s, a))
  {
    assert [a][1..] == [];
    assert CanRun(Apply(s, a), []);
    assert CanRun(s, [a]) && Run(s, [a]) == Apply(s, a);
  }

  lemma LeadsTrans(s: Sender, t: Sender, u: Sender)
    requires Leads(s, t) && Leads(t, u)
    ensures Leads(s, u)
  {
    var a :| CanRun(s, a) && Run(s, a) == t;
    var b :| CanRun(t, b) && Run(t, b) == u;
    RunConcat(s, a, b);
  }

  lemma {:induction false} RunCap(s: Sender, run: seq<Step>)
    requires CanRun(s, run)
    ensures Run(s, run).cap == s.cap
    decreases |run|
  {
    if run != [] {
      RunCap(Apply(s, run[0]), run[1..]);
    }
  }

  lemma ReachableLeads(s: Sender, t: Sender)
    requires Reachable(s) && Leads(s, t)
    ensures Reachable(t)
  {
    var run :| CanRun(s, run) && Run(s, run) == t;
    RunCap(s, run);
    assert Leads(Init(s.cap), s);
    LeadsTrans(Init(s.cap), s, t);
  }

  lemma InitReachable(cap: nat)
    ensures Reachable(Init(cap))
  {
    assert CanRun(Init(cap), []) && Run(Init(cap), []) == Init(cap);
  }

  // ---- the send passes are runs ----

  predicate IsSend(a: Step) {
    a.StepTransmit? || a.StepTransmitPubrel? || a.StepRepeatPuback? || a.StepRepeatPubrec? || a.StepRepeatPubrel?
  }

  /** Steps of sending, at times that the clock shows. */
  ghost predicate AllSend(run: seq<Step>, clock: nat -> int) {
    forall i :: 0 <= i < |run| ==> IsSend(run[i]) && Shows(clock, run[i].now)
  }

  /** From `s` to `t` by sending alone. */
  ghost predicate Sends(s: Sender, t: Sender, clock: nat -> int) {
    exists run :: CanRun(s, run) && Run(s, run) == t && AllSend(run, clock)
  }

  lemma SendsSelf(s: Sender, clock: nat -> int)
    ensures Sends(s, s, clock)
  {
    assert CanRun(s, []) && Run(s, []) == s && AllSend([], clock);
  }

  lemma SendsStep(s: Sender, a: Step, clock: nat -> int)
    requires Enabled(s, a) && IsSend(a) && Shows(clock, a.now)
    ensures Sends(s, Apply(s, a), clock)
  {
    assert [a][1..] == [];
    assert CanRun(Apply(s, a), []);
    assert CanRun(s, [a]) && Run(s, [a]) == Apply(s, a) && AllSend([a], clock);
  }

  lemma SendsTrans(s: Sender, t: Sender, u: Sender, clock: nat -> int)
    requires Sends(s, t, clock) && Sends(t, u, clock)
    ensures Sends(s, u, clock)
  {
    hide Enabled, Apply, Shows;
    var a :| CanRun(s, a) && Run(s, a) == t && AllSend(a, clock);
    var b :| CanRun(t, b) && Run(t, b) == u && AllSend(b, clock);
    RunConcat(s, a, b);
    assert AllSend(a + b, clock);
  }

  lemma NowIsShown(l: Link)
    ensures Shows(l.clock, l.Now())
  {
    assert l.clock(l.attempts) == l.Now();
  }

  lemma {:induction false} SendPubrelsLeads(s: Sender, i: nat, l: Link)
    requires i <= |s.sendPubrel| && (i > 0 ==> |s.awaitPubcomp| >= s.cap)
    ensures SendPubrels(s, i, l).outcome != Panic ==> Sends(s, SendPubrels(s, i, l).state, l.clock)
    ensures SendPubrels(s, i, l).link.clock == l.clock
    decreases |s.sendPubrel| - i
  {
    hide Sends, Shows;
    SendsSelf(s, l.clock);
    if i < |s.sendPubrel| {
      if |s.awaitPubcomp| >= s.cap {
        SendPubrelsLeads(s, i + 1, l);
      } else if l.Answer(Pubrel(s.sendPubrel[0].pid)) == Accept && s.sendPubrel[0].uid.Some? {
        var m := l.Write(Pubrel(s.sendPubrel[0].pid));
        var t := TransmitPubrel(s, 0, m.Now());
        NowIsShown(m);
        SendsStep(s, StepTransmitPubrel(m.Now()), l.clock);
        SendPubrelsLeads(t, 0, m);
        if SendPubrels(s, i, l).outcome != Panic {
          SendsTrans(s, t, SendPubrels(t, 0, m).state, l.clock);
        }
      }
    }
  }

  /** The pass over the publishes starts only once the pubrels are blocked. */
  lemma {:induction false} SendPubrelsSentAll(s: Sender, i: nat, l: Link)
    requires i <= |s.sendPubrel| && (i > 0 ==> |s.awaitPubcomp| >= s.cap)
    requires SendPubrels(s, i, l).outcome == Ok(SentAll)
    ensures var t := SendPubrels(s, i, l).state;
            t.cap == s.cap && PubrelsBlocked(t)
    decreases |s.sendPubrel| - i
  {
    if i < |s.sendPubrel| {
      if |s.awaitPubcomp| >= s.cap {
        SendPubrelsSentAll(s, i + 1, l);
      } else {
        var m := l.Write(Pubrel(s.sendPubrel[i].pid));
        SendPubrelsSentAll(TransmitPubrel(s, i, m.Now()), i, m);
      }
    }
  }

  lemma {:induction false} SendPublishesLeads(s: Sender, i: nat, l: Link)
    requires i <= |s.sendPublish| && PubrelsBlocked(s)
    requires forall j :: 0 <= j < i ==> !HasSpace(s, s.sendPublish[j])
    ensures Sends(s, SendPublishes(s, i, l).state, l.clock) && SendPublishes(s, i, l).link.clock == l.clock
    decreases |s.sendPublish| - i
  {
    hide Sends, Shows;
    SendsSelf(s, l.clock);
    if i < |s.sendPublish| {
      if !HasSpace(s, s.sendPublish[i]) {
        SendPublishesLeads(s, i + 1, l);
      } else if l.Answer(Publish(s.sendPublish[i].m)) == Accept {
        var m := l.Write(Publish(s.sendPublish[i].m));
        var t := Transmit(s, i, m.Now());
        NowIsShown(m);
        SendsStep(s, StepTransmit(i, m.Now()), l.clock);
        forall j | 0 <= j < i
          ensures !HasSpace(t, t.sendPublish[j])
        {
          assert t.sendPublish[j] == s.sendPublish[j];
        }
        SendPublishesLeads(t, i, m);
        SendsTrans(s, t, SendPublishes(t, i, m).state, l.clock);
      }
    }
  }

  lemma {:induction false} ResendPubacksLeads(s: Sender, i: nat, now: int, l: Link)
    requires i <= |s.awaitPuback| && Shows(l.clock, now)
    ensures Sends(s, ResendPubacks(s, i, now, l).state, l.clock) && ResendPubacks(s, i, now, l).link.clock == l.clock
    decreases |s.awaitPuback| - i
  {
    hide Sends, Shows;
    SendsSelf(s, l.clock);
    if i < |s.awaitPuback| {
      if now - s.awaitPuback[i].sent <= RESEND_DURATION {
        ResendPubacksLeads(s, i + 1, now, l);
      } else if l.Answer(Publish(s.awaitPuback[i].publish.m)) == Accept {
        var m := l.Write(Publish(s.awaitPuback[i].publish.m));
        var t := RepeatPuback(s, i, now);
        SendsStep(s, StepRepeatPuback(i, now), l.clock);
        ResendPubacksLeads(t, i + 1, now, m);
        SendsTrans(s, t, ResendPubacks(t, i + 1, now, m).state, l.clock);
      }
    }
  }

  lemma {:induction false} ResendPubrecsLeads(s: Sender, i: nat, now: int, l: Link)
    requires i <= |s.awaitPubrec| && Shows(l.clock, now)
    ensures Sends(s, ResendPubrecs(s, i, now, l).state, l.clock) && ResendPubrecs(s, i, now, l).link.clock == l.clock
    decreases |s.awaitPubrec| - i
  {
    hide Sends, Shows;
    SendsSelf(s, l.clock);
    if i < |s.awaitPubrec| {
      if now - s.awaitPubrec[i].sent <= RESEND_DURATION {
        ResendPubrecsLeads(s, i + 1, now, l);
      } else if l.Answer(Publish(s.awaitPubrec[i].publish.m)) == Accept {
        var m := l.Write(Publish(s.awaitPubrec[i].publish.m));
        var t := RepeatPubrec(s, i, now);
        SendsStep(s, StepRepeatPubrec(i, now), l.clock);
        ResendPubrecsLeads(t, i + 1, now, m);
        SendsTrans(s, t, ResendPubrecs(t, i + 1, now, m).state, l.clock);
      }
    }
  }

  lemma {:induction false} ResendPubrelsLeads(s: Sender, i: nat, now: int, l: Link)
    requires i <= |s.awaitPubcomp| && Shows(l.clock, now)
    ensures Sends(s, ResendPubrels(s, i, now, l).state, l.clock) && ResendPubrels(s, i, now, l).link.clock == l.clock
    decreases |s.awaitPubcomp| - i
  {
    hide Sends, Shows;
    SendsSelf(s, l.clock);
    if i < |s.awaitPubcomp| {
      if now - s.awaitPubcomp[i].sent <= RESEND_DURATION {
        ResendPubrelsLeads(s, i + 1, now, l);
      } else if l.Answer(Pubrel(s.awaitPubcomp[i].pid)) == Accept {
        var m := l.Write(Pubrel(s.awaitPubcomp[i].pid));
        var t := RepeatPubrel(s, i, now);
        SendsStep(s, StepRepeatPubrel(i, now), l.clock);
        ResendPubrelsLeads(t, i + 1, now, m);
        SendsTrans(s, t, ResendPubrels(t, i + 1, now, m).state, l.clock);
      }
    }
  }

  /** A whole send pass, however the connection answers and the clock moves, is
      a run of the smallest sending steps. */
  lemma SendPacketsLeads(s: Sender, l: Link)
    ensures SendPackets(s, l).outcome != Panic ==> Sends(s, SendPackets(s, l).state, l.clock)
  {
    hide Sends, Shows, SendPubrels, SendPublishes, ResendPubacks, ResendPubrecs, ResendPubrels;
    var p1 := SendPubrels(s, 0, l);
    SendPubrelsLeads(s, 0, l);
    if p1.outcome == Ok(SentAll) {
      var p2 := SendPublishes(p1.state, 0, p1.link);
      SendPubrelsSentAll(s, 0, l);
      SendPublishesLeads(p1.state, 0, p1.link);
      SendsTrans(s, p1.state, p2.state, l.clock);
      if p2.outcome == Ok(SentAll) {
        var p3a := ResendPubacks(p2.state, 0, p2.link.Now(), p2.link);
        NowIsShown(p2.link);
        ResendPubacksLeads(p2.state, 0, p2.link.Now(), p2.link);
        SendsTrans(s, p2.state, p3a.state, l.clock);
        if p3a.outcome == Ok(SentAll) {
          var p3 := ResendPubrecs(p3a.state, 0, p3a.link.Now(), p3a.link);
          NowIsShown(p3a.link);
          ResendPubrecsLeads(p3a.state, 0, p3a.link.Now(), p3a.link);
          SendsTrans(s, p3a.state, p3.state, l.clock);
          if p3.outcome == Ok(SentAll) {
            NowIsShown(p3.link);
            ResendPubrelsLeads(p3.state, 0, p3.link.Now(), p3.link);
            SendsTrans(s, p3.state, SendPackets(s, l).state, l.clock);
          }
        }
      }
    }
  }

  /** Reachability is kept by everything the object of `Publishes` does. */
  lemma StepReachable(s: Sender, a: Step)
    requires Reachable(s) && Enabled(s, a)
    ensures Reachable(Apply(s, a))
  {
    LeadsStep(s, a);
    ReachableLeads(s, Apply(s, a));
  }

  lemma SendsLeads(s: Sender, t: Sender, clock: nat -> int)
    requires Sends(s, t, clock)
    ensures Leads(s, t)
  {
  }

  lemma SendPacketsReachable(s: Sender, l: Link)
    requires Reachable(s) && SendPackets(s, l).outcome != Panic
    ensures Reachable(SendPackets(s, l).state)
  {
    SendPacketsLeads(s, l);
    SendsLeads(s, SendPackets(s, l).state, l.clock);
    ReachableLeads(s, SendPackets(s, l).state);
  }

  // ---- the queues stay within their capacity and hold the right kinds ----

  ghost predicate Bounded(s: Sender) {
    && |s.sendPublish| <= s.cap
    && |s.awaitPuback| <= s.cap
    && |s.awaitPubrec| <= s.cap
    && |s.sendPubrel| <= s.cap
    && |s.awaitPubcomp| <= s.cap
    && (forall i :: 0 <= i < |s.awaitPuback| ==>
          s.awaitPuback[i].publish.m.dup && s.awaitPuback[i].publish.m.qospid == AtLeastOnce(s.awaitPuback[i].pid))
    && (forall i :: 0 <= i < |s.awaitPubrec| ==>
          s.awaitPubrec[i].publish.m.dup && s.awaitPubrec[i].publish.m.qospid == ExactlyOnce(s.awaitPubrec[i].pid))
  }

  lemma BoundedStep(s: Sender, a: Step)
    requires Bounded(s) && Enabled(s, a)
    ensures Bounded(Apply(s, a))
  {
    hide Position;
    match a {
      case StepTransmit(i, now) =>
        assert s.sendPublish[i].MarkDup().m.qospid == s.sendPublish[i].m.qospid;
      case StepPuback(pid) =>
      case StepPubrec(pid) =>
      case _ =>
    }
  }

  // ---- conservation: no publish disappears, none is completed twice ----

  function AcceptedUid(e: Event): seq<UniqueId> { if e.Accepted? then [e.pub.uid] else [] }

  function DoneUid(e: Event): seq<UniqueId> { if e.Done? then [e.uid] else [] }

  function LostUid(e: Event): seq<UniqueId> { if e.Lost? then [e.uid] else [] }

  function PublishUid(p: OwnedPublish): seq<UniqueId> { [p.uid] }

  function AwaitUid(e: AwaitAck): seq<UniqueId> { [e.publish.uid] }

  function PubrelUid(e: PubrelEntry): seq<UniqueId> { if e.uid.Some? then [e.uid.value] else [] }

  function PubcompUid(e: AwaitPubcomp): seq<UniqueId> { [e.uid] }

  ghost function AcceptedUids(s: Sender): multiset<UniqueId> { Bag(AcceptedUid, s.log) }

  ghost function DoneUids(s: Sender): multiset<UniqueId> { Bag(DoneUid, s.log) }

  ghost function LostUids(s: Sender): multiset<UniqueId> { Bag(LostUid, s.log) }

  ghost function QueuedUids(s: Sender): multiset<UniqueId> {
    Bag(PublishUid, s.sendPublish)
    + Bag(AwaitUid, s.awaitPuback)
    + Bag(AwaitUid, s.awaitPubrec)
    + Bag(PubrelUid, s.sendPubrel)
    + Bag(PubcompUid, s.awaitPubcomp)
  }

  ghost predicate Conserved(s: Sender) {
    AcceptedUids(s) == QueuedUids(s) + DoneUids(s) + LostUids(s)
  }

  /** How one more event changes the bags of a history. */
  lemma LogUids(log: seq<Event>, e: Event)
    ensures Bag(AcceptedUid, log + [e]) == Bag(AcceptedUid, log) + multiset(AcceptedUid(e))
    ensures Bag(DoneUid, log + [e]) == Bag(DoneUid, log) + multiset(DoneUid(e))
    ensures Bag(LostUid, log + [e]) == Bag(LostUid, log) + multiset(LostUid(e))
  {
    BagSnoc(AcceptedUid, log, e);
    BagSnoc(DoneUid, log, e);
    BagSnoc(LostUid, log, e);
  }

  lemma LogUids2(log: seq<Event>, e: Event, f: Event)
    ensures Bag(AcceptedUid, log + [e, f]) == Bag(AcceptedUid, log) + multiset(AcceptedUid(e)) + multiset(AcceptedUid(f))
    ensures Bag(DoneUid, log + [e, f]) == Bag(DoneUid, log) + multiset(DoneUid(e)) + multiset(DoneUid(f))
    ensures Bag(LostUid, log + [e, f]) == Bag(LostUid, log) + multiset(LostUid(e)) + multiset(LostUid(f))
  {
    BagSnoc2(AcceptedUid, log, e, f);
    BagSnoc2(DoneUid, log, e, f);
    BagSnoc2(LostUid, log, e, f);
  }

  lemma ConservedAdmit(s: Sender, pub: OwnedPublish)
    requires Conserved(s)
    ensures Conserved(Admit(s, pub))
  {
    hide Bag;
    LogUids(s.log, Event.Accepted(pub));
    BagSnoc(PublishUid, s.sendPublish, pub);
  }

  lemma ConservedTransmit0(s: Sender, i: nat, now: int)
    requires Conserved(s) && i < |s.sendPublish| && s.sendPublish[i].m.qospid.AtMostOnce?
    ensures Conserved(Transmit(s, i, now))
  {
    hide Bag;
    var p := s.sendPublish[i];
    BagRemove(PublishUid, s.sendPublish, i);
    LogUids2(s.log, Sent(p, now), Done(p.uid, AtMostOnce));
  }

  lemma ConservedTransmit1(s: Sender, i: nat, now: int)
    requires Conserved(s) && i < |s.sendPublish| && s.sendPublish[i].m.qospid.AtLeastOnce?
    ensures Conserved(Transmit(s, i, now))
  {
    hide Bag;
    var p := s.sendPublish[i];
    BagRemove(PublishUid, s.sendPublish, i);
    LogUids(s.log, Sent(p, now));
    BagSnoc(AwaitUid, s.awaitPuback, AwaitAck(p.m.qospid.pid, p.MarkDup(), now));
  }

  lemma ConservedTransmit2(s: Sender, i: nat, now: int)
    requires Conserved(s) && i < |s.sendPublish| && s.sendPublish[i].m.qospid.ExactlyOnce?
    ensures Conserved(Transmit(s, i, now))
  {
    hide Bag;
    var p := s.sendPublish[i];
    BagRemove(PublishUid, s.sendPublish, i);
    LogUids(s.log, Sent(p, now));
    BagSnoc(AwaitUid, s.awaitPubrec, AwaitAck(p.m.qospid.pid, p.MarkDup(), now));
  }

  lemma ConservedTransmit(s: Sender, i: nat, now: int)
    requires Conserved(s) && i < |s.sendPublish|
    ensures Conserved(Transmit(s, i, now))
  {
    hide Conserved;
    match s.sendPublish[i].m.qospid {
      case AtMostOnce => ConservedTransmit0(s, i, now);
      case AtLeastOnce(_) => ConservedTransmit1(s, i, now);
      case ExactlyOnce(_) => ConservedTransmit2(s, i, now);
    }
  }

  lemma ConservedTransmitPubrel(s: Sender, i: nat, now: int)
    requires Conserved(s) && i < |s.sendPubrel| && s.sendPubrel[i].uid.Some?
    ensures Conserved(TransmitPubrel(s, i, now))
  {
    hide Bag;
    var e := s.sendPubrel[i];
    BagRemove(PubrelUid, s.sendPubrel, i);
    BagSnoc(PubcompUid, s.awaitPubcomp, AwaitPubcomp(e.pid, now, e.uid.value));
    LogUids(s.log, SentPubrel(e.pid, e.uid, now));
  }

  lemma ConservedPuback(s: Sender, pid: Pid)
    requires Conserved(s)
    ensures Conserved(OnPuback(s, pid))
  {
    hide Bag;
    var i := PubackIndex(s, pid);
    LogUids(s.log, GotPuback(pid));
    if i < |s.awaitPuback| {
      BagRemove(AwaitUid, s.awaitPuback, i);
      LogUids2(s.log, GotPuback(pid), Done(s.awaitPuback[i].publish.uid, AtLeastOnce(pid)));
    }
  }

  lemma ConservedReleased(s: Sender, pid: Pid, i: nat)
    requires Conserved(s) && i == PubrecIndex(s, pid) < |s.awaitPubrec| && |s.sendPubrel| < s.cap
    ensures Conserved(OnPubrec(s, pid))
  {
    hide Bag, Position;
    BagRemove(AwaitUid, s.awaitPubrec, i);
    LogUids(s.log, GotPubrec(pid));
    BagSnoc(PubrelUid, s.sendPubrel, PubrelEntry(pid, Some(s.awaitPubrec[i].publish.uid)));
  }

  lemma ConservedLost(s: Sender, pid: Pid, i: nat)
    requires Conserved(s) && i == PubrecIndex(s, pid) < |s.awaitPubrec| && |s.sendPubrel| >= s.cap
    ensures Conserved(OnPubrec(s, pid))
  {
    hide Bag, Position;
    var uid := s.awaitPubrec[i].publish.uid;
    BagRemove(AwaitUid, s.awaitPubrec, i);
    assert OnPubrec(s, pid).log == s.log + [GotPubrec(pid), Lost(uid, pid)];
    LogUids2(s.log, GotPubrec(pid), Lost(uid, pid));
  }

  lemma ConservedKnownPubrec(s: Sender, pid: Pid, i: nat)
    requires Conserved(s) && i == PubrecIndex(s, pid) < |s.awaitPubrec|
    ensures Conserved(OnPubrec(s, pid))
  {
    hide Bag, Position, Conserved;
    if |s.sendPubrel| < s.cap {
      ConservedReleased(s, pid, i);
    } else {
      ConservedLost(s, pid, i);
    }
  }

  lemma ConservedPubrec(s: Sender, pid: Pid)
    requires Conserved(s)
    ensures Conserved(OnPubrec(s, pid))
  {
    hide Bag;
    var i := PubrecIndex(s, pid);
    LogUids(s.log, GotPubrec(pid));
    if i < |s.awaitPubrec| {
      ConservedKnownPubrec(s, pid, i);
    } else {
      BagSnoc(PubrelUid, s.sendPubrel, PubrelEntry(pid, None));
    }
  }

  lemma ConservedPubcomp(s: Sender, pid: Pid)
    requires Conserved(s)
    ensures Conserved(OnPubcomp(s, pid))
  {
    hide Bag;
    var i := PubcompIndex(s, pid);
    LogUids(s.log, GotPubcomp(pid));
    if i < |s.awaitPubcomp| {
      BagRemove(PubcompUid, s.awaitPubcomp, i);
      LogUids2(s.log, GotPubcomp(pid), Done(s.awaitPubcomp[i].uid, ExactlyOnce(pid)));
    }
  }

  lemma ConservedStep(s: Sender, a: Step)
    requires Conserved(s) && Enabled(s, a)
    ensures Conserved(Apply(s, a))
  {
    hide Bag;
    match a {
      case StepAdmit(pub) => ConservedAdmit(s, pub);
      case StepTransmit(i, now) => ConservedTransmit(s, i, now);
      case StepTransmitPubrel(now) => ConservedTransmitPubrel(s, 0, now);
      case StepRepeatPuback(i, now) =>
        BagSame(AwaitUid, s.awaitPuback, RepeatPuback(s, i, now).awaitPuback);
        LogUids(s.log, Resent(s.awaitPuback[i].publish, now));
      case StepRepeatPubrec(i, now) =>
        BagSame(AwaitUid, s.awaitPubrec, RepeatPubrec(s, i, now).awaitPubrec);
        LogUids(s.log, Resent(s.awaitPubrec[i].publish, now));
      case StepRepeatPubrel(i, now) =>
        BagSame(PubcompUid, s.awaitPubcomp, RepeatPubrel(s, i, now).awaitPubcomp);
        LogUids(s.log, ResentPubrel(s.awaitPubcomp[i].pid, s.awaitPubcomp[i].uid, now));
      case StepPuback(pid) => ConservedPuback(s, pid);
      case StepPubrec(pid) => ConservedPubrec(s, pid);
      case StepPubcomp(pid) => ConservedPubcomp(s, pid);
    }
  }

  // ---- per class, first transmissions follow the order of acceptance ----

  function QueuedOf(q: QoS): OwnedPublish -> seq<OwnedPublish> {
    (p: OwnedPublish) => if p.Qos() == q then [p] else []
  }

  function AcceptedOf(q: QoS): Event -> seq<OwnedPublish> {
    (e: Event) => if e.Accepted? && e.pub.Qos() == q then [e.pub] else []
  }

  function SentOf(q: QoS): Event -> seq<OwnedPublish> {
    (e: Event) => if e.Sent? && e.pub.Qos() == q then [e.pub] else []
  }

  ghost predicate Ordered(s: Sender, q: QoS) {
    FlatMap(SentOf(q), s.log) + FlatMap(QueuedOf(q), s.sendPublish) == FlatMap(AcceptedOf(q), s.log)
  }

  lemma {:induction false} NoneOf(q: QoS, ps: seq<OwnedPublish>)
    requires forall j :: 0 <= j < |ps| ==> ps[j].Qos() != q
    ensures FlatMap(QueuedOf(q), ps) == []
  {
    if ps != [] {
      NoneOf(q, ps[1..]);
    }
  }

  lemma LogOrder(log: seq<Event>, e: Event, q: QoS)
    ensures FlatMap(SentOf(q), log + [e]) == FlatMap(SentOf(q), log) + SentOf(q)(e)
    ensures FlatMap(AcceptedOf(q), log + [e]) == FlatMap(AcceptedOf(q), log) + AcceptedOf(q)(e)
  {
    FlatMapSnoc(SentOf(q), log, e);
    FlatMapSnoc(AcceptedOf(q), log, e);
  }

  lemma OrderedByOne(s: Sender, e: Event, q: QoS)
    requires Ordered(s, q) && !e.Sent? && !e.Accepted?
    ensures Ordered(s.(log := s.log + [e]), q)
  {
    hide FlatMap;
    LogOrder(s.log, e, q);
  }

  lemma OrderedByTwo(s: Sender, e: Event, f: Event, q: QoS)
    requires Ordered(s, q) && !e.Sent? && !e.Accepted? && !f.Sent? && !f.Accepted?
    ensures Ordered(s.(log := s.log + [e, f]), q)
  {
    hide FlatMap;
    OrderedByOne(s, e, q);
    OrderedByOne(s.(log := s.log + [e]), f, q);
    assert s.log + [e, f] == s.log + [e] + [f];
  }

  lemma OrderedTransmit(s: Sender, i: nat, now: int, q: QoS)
    requires Ordered(s, q) && Enabled(s, StepTransmit(i, now))
    ensures Ordered(Transmit(s, i, now), q)
  {
    hide FlatMap;
    var p := s.sendPublish[i];
    var t := s.(sendPublish := RemoveAt(s.sendPublish, i), log := s.log + [Sent(p, now)]);
    assert Ordered(t, q) by {
      FlatMapAt(QueuedOf(q), s.sendPublish, i);
      if p.Qos() == q {
        NoneOf(q, s.sendPublish[..i]);
      }
      LogOrder(s.log, Sent(p, now), q);
    }
    if p.m.qospid.AtMostOnce? {
      OrderedByOne(t, Done(p.uid, AtMostOnce), q);
      assert s.log + [Sent(p, now), Done(p.uid, AtMostOnce)] == t.log + [Done(p.uid, AtMostOnce)];
    }
  }

  lemma OrderedStep(s: Sender, a: Step, q: QoS)
    requires Ordered(s, q) && Enabled(s, a)
    ensures Ordered(Apply(s, a), q)
  {
    hide FlatMap, Position;
    match a {
      case StepAdmit(pub) =>
        LogOrder(s.log, Event.Accepted(pub), q);
        FlatMapSnoc(QueuedOf(q), s.sendPublish, pub);
      case StepTransmit(i, now) => OrderedTransmit(s, i, now, q);
      case StepTransmitPubrel(now) => OrderedByOne(s, SentPubrel(s.sendPubrel[0].pid, s.sendPubrel[0].uid, now), q);
      case StepRepeatPuback(i, now) => OrderedByOne(s, Resent(s.awaitPuback[i].publish, now), q);
      case StepRepeatPubrec(i, now) => OrderedByOne(s, Resent(s.awaitPubrec[i].publish, now), q);
      case StepRepeatPubrel(i, now) =>
        OrderedByOne(s, ResentPubrel(s.awaitPubcomp[i].pid, s.awaitPubcomp[i].uid, now), q);
      case StepPuback(pid) =>
        OrderedByOne(s, GotPuback(pid), q);
        var i := PubackIndex(s, pid);
        if i < |s.awaitPuback| {
          OrderedByTwo(s, GotPuback(pid), Done(s.awaitPuback[i].publish.uid, AtLeastOnce(pid)), q);
        }
      case StepPubrec(pid) =>
        OrderedByOne(s, GotPubrec(pid), q);
        var i := PubrecIndex(s, pid);
        if i < |s.awaitPubrec| {
          OrderedByTwo(s, GotPubrec(pid), Lost(s.awaitPubrec[i].publish.uid, pid), q);
          assert s.log + [GotPubrec(pid)] + [Lost(s.awaitPubrec[i].publish.uid, pid)]
              == s.log + [GotPubrec(pid), Lost(s.awaitPubrec[i].publish.uid, pid)];
        }
      case StepPubcomp(pid) =>
        OrderedByOne(s, GotPubcomp(pid), q);
        var i := PubcompIndex(s, pid);
        if i < |s.awaitPubcomp| {
          OrderedByTwo(s, GotPubcomp(pid), Done(s.awaitPubcomp[i].uid, ExactlyOnce(pid)), q);
        }
    }
  }

  // ---- a completion is caused by the whole handshake, in order ----

  /** The publish `uid` was transmitted with identifier and class `qp`. */
  ghost predicate PublishOut(log: seq<Event>, uid: UniqueId, qp: QosPid) {
    exists i :: 0 <= i < |log| && log[i].Sent? && log[i].pub.uid == uid && log[i].pub.m.qospid == qp
  }

  /** ... and after that its puback arrived. */
  ghost predicate PubackIn(log: seq<Event>, uid: UniqueId, pid: Pid) {
    exists i :: 0 <= i < |log| && log[i] == GotPuback(pid) && PublishOut(log[..i], uid, AtLeastOnce(pid))
  }

  /** ... and after that its pubrec arrived. */
  ghost predicate PubrecIn(log: seq<Event>, uid: UniqueId, pid: Pid) {
    exists i :: 0 <= i < |log| && log[i] == GotPubrec(pid) && PublishOut(log[..i], uid, ExactlyOnce(pid))
  }

  /** ... and after that its pubrel was transmitted. */
  ghost predicate PubrelOut(log: seq<Event>, uid: UniqueId, pid: Pid) {
    exists i :: 0 <= i < |log| && log[i].SentPubrel? && log[i].pid == pid && log[i].owner == Some(uid) && PubrecIn(log[..i], uid, pid)
  }

  /** ... and after that its pubcomp arrived. */
  ghost predicate PubcompIn(log: seq<Event>, uid: UniqueId, pid: Pid) {
    exists i :: 0 <= i < |log| && log[i] == GotPubcomp(pid) && PubrelOut(log[..i], uid, pid)
  }

  /** The completion at index `k` of a history comes after the handshake of its class. */
  ghost predicate Justified(log: seq<Event>, k: nat)
    requires k < |log|
  {
    match log[k]
    case Done(uid, AtMostOnce) => PublishOut(log[..k], uid, AtMostOnce)
    case Done(uid, AtLeastOnce(pid)) => PubackIn(log[..k], uid, pid)
    case Done(uid, ExactlyOnce(pid)) => PubcompIn(log[..k], uid, pid)
    case _ => true
  }

  ghost predicate Caused(s: Sender) {
    && (forall e :: e in s.awaitPuback ==> PublishOut(s.log, e.publish.uid, AtLeastOnce(e.pid)))
    && (forall e :: e in s.awaitPubrec ==> PublishOut(s.log, e.publish.uid, ExactlyOnce(e.pid)))
    && (forall e :: e in s.sendPubrel && e.uid.Some? ==> PubrecIn(s.log, e.uid.value, e.pid))
    && (forall e :: e in s.awaitPubcomp ==> PubrelOut(s.log, e.uid, e.pid))
    && (forall k :: 0 <= k < |s.log| ==> Justified(s.log, k))
  }

  /** What a history shows, every longer history shows. */
  lemma CausesPersist(log: seq<Event>, more: seq<Event>)
    ensures forall uid, qp :: PublishOut(log, uid, qp) ==> PublishOut(log + more, uid, qp)
    ensures forall uid, pid :: PubrecIn(log, uid, pid) ==> PubrecIn(log + more, uid, pid)
    ensures forall uid, pid :: PubrelOut(log, uid, pid) ==> PubrelOut(log + more, uid, pid)
    ensures forall k :: 0 <= k < |log| && Justified(log, k) ==> Justified(log + more, k)
  {
    var longer := log + more;
    assert forall i :: 0 <= i < |log| ==> log[i] == longer[i] && log[..i] == longer[..i];
  }

  lemma PubackFollows(log: seq<Event>, uid: UniqueId, pid: Pid)
    requires PublishOut(log, uid, AtLeastOnce(pid))
    ensures PubackIn(log + [GotPuback(pid)], uid, pid)
  {
    hide PublishOut;
    var longer := log + [GotPuback(pid)];
    assert longer[|log|] == GotPuback(pid) && longer[..|log|] == log;
  }

  lemma PubrecFollows(log: seq<Event>, uid: UniqueId, pid: Pid)
    requires PublishOut(log, uid, ExactlyOnce(pid))
    ensures PubrecIn(log + [GotPubrec(pid)], uid, pid)
  {
    hide PublishOut;
    var longer := log + [GotPubrec(pid)];
    assert longer[|log|] == GotPubrec(pid) && longer[..|log|] == log;
  }

  lemma PubrelFollows(log: seq<Event>, uid: UniqueId, pid: Pid, at: int)
    requires PubrecIn(log, uid, pid)
    ensures PubrelOut(log + [SentPubrel(pid, Some(uid), at)], uid, pid)
  {
    hide PubrecIn;
    var longer := log + [SentPubrel(pid, Some(uid), at)];
    assert longer[|log|] == SentPubrel(pid, Some(uid), at) && longer[..|log|] == log;
  }

  lemma PubcompFollows(log: seq<Event>, uid: UniqueId, pid: Pid)
    requires PubrelOut(log, uid, pid)
    ensures PubcompIn(log + [GotPubcomp(pid)], uid, pid)
  {
    hide PubrelOut;
    var longer := log + [GotPubcomp(pid)];
    assert longer[|log|] == GotPubcomp(pid) && longer[..|log|] == log;
  }

  /** One more event keeps everything caused, if it is itself justified. */
  lemma CausedByOne(s: Sender, e: Event)
    requires Caused(s)
    requires Justified(s.log + [e], |s.log|)
    ensures Caused(s.(log := s.log + [e]))
  {
    hide PublishOut, PubackIn, PubrecIn, PubrelOut, PubcompIn, Justified;
    CausesPersist(s.log, [e]);
  }

  lemma CausedDone(s: Sender, uid: UniqueId, qospid: QosPid)
    requires Caused(s)
    requires match qospid
             case AtMostOnce => PublishOut(s.log, uid, AtMostOnce)
             case AtLeastOnce(pid) => PubackIn(s.log, uid, pid)
             case ExactlyOnce(pid) => PubcompIn(s.log, uid, pid)
    ensures Caused(s.(log := s.log + [Done(uid, qospid)]))
  {
    hide PublishOut, PubackIn, PubrecIn, PubrelOut, PubcompIn;
    assert (s.log + [Done(uid, qospid)])[..|s.log|] == s.log;
    CausedByOne(s, Done(uid, qospid));
  }

  lemma CausedTransmit(s: Sender, i: nat, now: int)
    requires Caused(s) && i < |s.sendPublish|
    ensures Caused(Transmit(s, i, now))
  {
    hide PubackIn, PubrecIn, PubrelOut, PubcompIn;
    var p := s.sendPublish[i];
    var t := s.(sendPublish := RemoveAt(s.sendPublish, i), log := s.log + [Sent(p, now)]);
    CausedByOne(s, Sent(p, now));
    assert t.log[|s.log|] == Sent(p, now);
    assert PublishOut(t.log, p.uid, p.m.qospid);
    if p.m.qospid.AtMostOnce? {
      CausedDone(t, p.uid, AtMostOnce);
      assert s.log + [Sent(p, now), Done(p.uid, AtMostOnce)] == t.log + [Done(p.uid, AtMostOnce)];
    }
  }

  lemma CausedTransmitPubrel(s: Sender, now: int)
    requires Caused(s) && Enabled(s, StepTransmitPubrel(now))
    ensures Caused(TransmitPubrel(s, 0, now))
  {
    hide PublishOut, PubackIn, PubrecIn, PubrelOut, PubcompIn;
    var e := s.sendPubrel[0];
    assert e in s.sendPubrel;
    CausedByOne(s, SentPubrel(e.pid, e.uid, now));
    PubrelFollows(s.log, e.uid.value, e.pid, now);
  }

  lemma CausedPuback(s: Sender, pid: Pid)
    requires Caused(s)
    ensures Caused(OnPuback(s, pid))
  {
    hide Position, PublishOut, PubackIn, PubrecIn, PubrelOut, PubcompIn;
    CausedByOne(s, GotPuback(pid));
    var i := PubackIndex(s, pid);
    if i < |s.awaitPuback| {
      var uid := s.awaitPuback[i].publish.uid;
      assert s.awaitPuback[i] in s.awaitPuback;
      PubackFollows(s.log, uid, pid);
      CausedDone(s.(log := s.log + [GotPuback(pid)]), uid, AtLeastOnce(pid));
      assert s.log + [GotPuback(pid)] + [Done(uid, AtLeastOnce(pid))] == s.log + [GotPuback(pid), Done(uid, AtLeastOnce(pid))];
    }
  }

  lemma CausedPubrec(s: Sender, pid: Pid)
    requires Caused(s)
    ensures Caused(OnPubrec(s, pid))
  {
    hide Position, PublishOut, PubackIn, PubrecIn, PubrelOut, PubcompIn;
    CausedByOne(s, GotPubrec(pid));
    var i := PubrecIndex(s, pid);
    if i < |s.awaitPubrec| {
      var uid := s.awaitPubrec[i].publish.uid;
      assert s.awaitPubrec[i] in s.awaitPubrec;
      PubrecFollows(s.log, uid, pid);
      CausedByOne(s.(log := s.log + [GotPubrec(pid)]), Lost(uid, pid));
    }
  }

  lemma CausedPubcomp(s: Sender, pid: Pid)
    requires Caused(s)
    ensures Caused(OnPubcomp(s, pid))
  {
    hide Position, PublishOut, PubackIn, PubrecIn, PubrelOut, PubcompIn;
    CausedByOne(s, GotPubcomp(pid));
    var i := PubcompIndex(s, pid);
    if i < |s.awaitPubcomp| {
      var uid := s.awaitPubcomp[i].uid;
      assert s.awaitPubcomp[i] in s.awaitPubcomp;
      PubcompFollows(s.log, uid, pid);
      CausedDone(s.(log := s.log + [GotPubcomp(pid)]), uid, ExactlyOnce(pid));
      assert s.log + [GotPubcomp(pid)] + [Done(uid, ExactlyOnce(pid))] == s.log + [GotPubcomp(pid), Done(uid, ExactlyOnce(pid))];
    }
  }

  lemma CausedStep(s: Sender, a: Step)
    requires Caused(s) && Enabled(s, a)
    ensures Caused(Apply(s, a))
  {
    hide Position, PublishOut, PubackIn, PubrecIn, PubrelOut, PubcompIn;
    match a {
      case StepAdmit(pub) => CausedByOne(s, Event.Accepted(pub));
      case StepTransmit(i, now) => CausedTransmit(s, i, now);
      case StepTransmitPubrel(now) => CausedTransmitPubrel(s, now);
      case StepRepeatPuback(i, now) => CausedByOne(s, Resent(s.awaitPuback[i].publish, now));
      case StepRepeatPubrec(i, now) => CausedByOne(s, Resent(s.awaitPubrec[i].publish, now));
      case StepRepeatPubrel(i, now) =>
        CausedByOne(s, ResentPubrel(s.awaitPubcomp[i].pid, s.awaitPubcomp[i].uid, now));
      case StepPuback(pid) => CausedPuback(s, pid);
      case StepPubrec(pid) => CausedPubrec(s, pid);
      case StepPubcomp(pid) => CausedPubcomp(s, pid);
    }
  }

  // ---- together, over every run ----

  ghost predicate Inv(s: Sender) {
    && Bounded(s)
    && Conserved(s)
    && (forall q :: Ordered(s, q))
    && Caused(s)
  }

  lemma InvStep(s: Sender, a: Step)
    requires Inv(s) && Enabled(s, a)
    ensures Inv(Apply(s, a))
  {
    BoundedStep(s, a);
    ConservedStep(s, a);
    forall q
      ensures Ordered(Apply(s, a), q)
    {
      OrderedStep(s, a, q);
    }
    CausedStep(s, a);
  }

  lemma {:induction false} InvRun(s: Sender, run: seq<Step>)
    requires Inv(s) && CanRun(s, run)
    ensures Inv(Run(s, run))
    decreases |run|
  {
    if run != [] {
      InvStep(s, run[0]);
      InvRun(Apply(s, run[0]), run[1..]);
    }
  }

  lemma InvInit(cap: nat)
    ensures Inv(Init(cap))
  {
  }

  lemma ReachableInv(s: Sender)
    requires Reachable(s)
    ensures Inv(s)
  {
    var run :| CanRun(Init(s.cap), run) && Run(Init(s.cap), run) == s;
    InvInit(s.cap);
    InvRun(Init(s.cap), run);
  }
}
