/** The client's state (src/state/mod.rs): the components as objects that share
    one identifier pool. Every object of this class is in a state that a run of
    `PidOwnership` reaches, so what is proved there holds of the real queues. */
module SystemRuns {
  import TC = TcpConnections
  import PM = PublishModel
  import PR = PublishRuns
  import SM = SubscribeModel
  import SR = SubscribeRuns
  import opened PidOwnership

  lemma {:induction false} RunSnoc(g: System, run: seq<Step>, a: Step)
    requires CanRun(g, run) && Enabled(Run(g, run), a)
    ensures CanRun(g, run + [a]) && Run(g, run + [a]) == Apply(Run(g, run), a)
    decreases |run|
  {
    hide Enabled, Apply;
    if run == [] {
      assert run + [a] == [a] && [a][1..] == [];
    } else {
      assert (run + [a])[1..] == run[1..] + [a];
      RunSnoc(Apply(g, run[0]), run[1..], a);
    }
  }

  lemma StepReachable(g: System, a: Step)
    requires Enabled(g, a) && Reachable(g)
    ensures Reachable(Apply(g, a))
  {
    hide Enabled, Apply;
    var cap: nat, wireTopicSize: nat, run :|
      CanRun(Init(cap, wireTopicSize), run) && Run(Init(cap, wireTopicSize), run) == g;
    RunSnoc(Init(cap, wireTopicSize), run, a);
  }

  lemma InitReachable(cap: nat, wireTopicSize: nat)
    ensures Reachable(Init(cap, wireTopicSize))
  {
    var g := Init(cap, wireTopicSize);
    assert CanRun(g, []) && Run(g, []) == g;
  }

  lemma SendIsStep(g: System, a: PM.Step)
    requires PM.Enabled(g.publishes, a) && PR.IsSend(a)
    ensures Enabled(g, PublishStep(a)) && Apply(g, PublishStep(a)) == g.(publishes := PM.Apply(g.publishes, a))
  {
    hide PM.Enabled, PM.Apply;
    assert g.leaked + multiset{} == g.leaked;
  }

  /** Sending moves entries between queues and no identifier anywhere else. */
  lemma {:induction false} PublishSends(g: System, run: seq<PM.Step>)
    requires PM.CanRun(g.publishes, run) && (forall i :: 0 <= i < |run| ==> PR.IsSend(run[i]))
    requires Reachable(g)
    ensures Reachable(g.(publishes := PM.Run(g.publishes, run)))
    decreases |run|
  {
    hide PM.Enabled, PM.Apply, Reachable, Enabled, Apply;
    if run != [] {
      SendIsStep(g, run[0]);
      StepReachable(g, PublishStep(run[0]));
      PublishSends(g.(publishes := PM.Apply(g.publishes, run[0])), run[1..]);
    }
  }

  lemma PublishesSend(g: System, s: PM.Sender, clock: nat -> int)
    requires Reachable(g) && PR.Sends(g.publishes, s, clock)
    ensures Reachable(g.(publishes := s))
  {
    hide Reachable;
    var run :| PM.CanRun(g.publishes, run) && PM.Run(g.publishes, run) == s && PR.AllSend(run, clock);
    PublishSends(g, run);
  }

  lemma SubscribeIsStep(g: System, a: SM.Step)
    requires SM.Enabled(g.subs, a) && SR.IsSend(a)
    ensures Enabled(g, SubscribeStep(a)) && Apply(g, SubscribeStep(a)) == g.(subs := SM.Apply(g.subs, a))
  {
    hide SM.Enabled, SM.Apply;
  }

  lemma {:induction false} SubscribeSends(g: System, run: seq<SM.Step>)
    requires SM.CanRun(g.subs, run) && (forall i :: 0 <= i < |run| ==> SR.IsSend(run[i]))
    requires Reachable(g)
    ensures Reachable(g.(subs := SM.Run(g.subs, run)))
    decreases |run|
  {
    hide SM.Enabled, SM.Apply, Reachable, Enabled, Apply;
    if run != [] {
      SubscribeIsStep(g, run[0]);
      StepReachable(g, SubscribeStep(run[0]));
      SubscribeSends(g.(subs := SM.Apply(g.subs, run[0])), run[1..]);
    }
  }

  lemma SubscribesSend(g: System, s: SM.Subs)
    requires Reachable(g) && SR.Sends(g.subs, s)
    ensures Reachable(g.(subs := s))
  {
    hide Reachable;
    var run :| SM.CanRun(g.subs, run) && SM.Run(g.subs, run) == s
               && forall i :: 0 <= i < |run| ==> SR.IsSend(run[i]);
    SubscribeSends(g, run);
  }

  /** The system after so many automatic subscriptions. */
  ghost function AutoSubscribed(g: System, n: nat): (h: System)
    requires TC.TakenTimes(g.pool, n).Some?
    ensures h.pool == TC.TakenTimes(g.pool, n).value
    ensures h == g.(pool := h.pool, leaked := h.leaked, issued := h.issued)
  {
    if n == 0 then g else Apply(AutoSubscribed(g, n - 1), AutoSubscribe)
  }

  lemma {:induction false} AutoSubscribesReachable(g: System, n: nat)
    requires TC.TakenTimes(g.pool, n).Some? && Reachable(g)
    ensures Reachable(AutoSubscribed(g, n))
  {
    hide Reachable;
    if n > 0 {
      AutoSubscribesReachable(g, n - 1);
      StepReachable(AutoSubscribed(g, n - 1), AutoSubscribe);
    }
  }
}

module States {
  import opened Mqtt
  import opened Seqs
  import opened PidPools
  import opened PacketLink
  import opened Publishes
  import opened Receives
  import opened Subscribes
  import opened Pings
  import PM = PublishModel
  import PR = PublishRuns
  import RM = ReceiveModel
  import SM = SubscribeModel
  import SR = SubscribeRuns
  import PO = PidOwnership
  import SystemRuns
  import TC = TcpConnections

  /** Everything that a send pass of the client works on. */
  datatype Queues = Queues(
    publishes: PM.Sender,
    received: RM.Receiver,
    subscribes: SM.Subs,
    ping: PingStateInner,
    link: Link)

  /** SendResult::next: the following part runs unless something is left to
      send, and the two results are added. */
  function Next(r: Outcome<SendResult>, following: Outcome<SendResult>): Outcome<SendResult> {
    if r.Ok? && r.value != PartiallySent then
      if following.Ok? then Ok(r.value.Add(following.value)) else following
    else r
  }

  /** The chain of run_once as a function. */
  function SendQueues(q: Queues): (Queues, Outcome<SendResult>) {
    var p := PM.SendPackets(q.publishes, q.link);
    var r1 := p.outcome;
    var q1 := q.(publishes := p.state, link := p.link);
    if r1 != Ok(SentAll) then (q1, r1) else
    var d := RM.SendPackets(q1.received, q1.link);
    var r2 := Next(r1, d.outcome);
    var q2 := q1.(received := d.state, link := d.link);
    if r2 != Ok(SentAll) then (q2, r2) else
    var u := SM.Send(q2.subscribes, q2.link);
    var r3 := Next(r2, u.outcome);
    var q3 := q2.(subscribes := u.state, link := u.link);
    if r3 != Ok(SentAll) then (q3, r3) else
    var k := SendPing(q3.ping, q3.link);
    (q3.(ping := k.state, link := k.link), Next(r3, k.outcome))
  }

  /** The result of process_packet: a PUBACK or PUBCOMP that nobody waits for is an
      error, a PUBREC is one when there is no room for its pubrel, and a second
      CONNACK panics. */
  function ProcessResult(s: PM.Sender, d: RM.Receiver, p: Packet): Outcome<()> {
    match p
    case Connack(_) => Panic
    case Publish(m) => RM.OnPublish(d, m).1
    case Pubrel(pid) => RM.OnPubrel(d, pid).1
    case Pubrec(pid) => if |s.sendPubrel| < s.cap then Ok(()) else Err(QueueFull(ExactlyOnce(pid)))
    case Puback(pid) => if PM.PubackIndex(s, pid) < |s.awaitPuback| then Ok(()) else Err(UnexpectedAck(pid))
    case Pubcomp(pid) => if PM.PubcompIndex(s, pid) < |s.awaitPubcomp| then Ok(()) else Err(UnexpectedAck(pid))
    case _ => Ok(())
  }

  class State {
    const pool: PidPool
    const publishes: PublishesInner
    const received: ReceivesInner
    const subscribes: SubsInner
    const ping: PingState

    /** The publish requests whose futures wait for room in the queue. */
    var callers: seq<PM.OwnedPublish>
    ghost var leaked: multiset<Pid>
    ghost var dropped: multiset<Pid>
    ghost var issued: seq<Pid>
    ghost var freed: seq<Pid>
    ghost var asked: seq<PO.Asked>
    ghost var abandoned: seq<PM.OwnedPublish>

    ghost function Parts(): set<object> {
      {pool, publishes, received, subscribes, ping}
    }

    ghost function View(): PO.System
      reads this, pool, publishes, subscribes
    {
      PO.System(pool.View(), callers, publishes.View(), subscribes.View(), leaked, dropped, issued, freed,
                asked, abandoned)
    }

    /** The parts hold these values. */
    ghost predicate Same(g: PO.System, d: RM.Receiver, p: PingStateInner, t: Trace)
      reads this, Parts()
    {
      View() == g && received.View() == d && ping.inner == p && ping.trace == t
    }

    ghost predicate Valid()
      reads this, Parts()
    {
      PO.Reachable(View()) && received.Valid() && ping.Traced()
    }

    constructor (cap: nat, bufferSize: nat, topicSize: nat, wireTopicSize: nat, now: int)
      ensures Valid() && View() == PO.Init(cap, wireTopicSize)
      ensures received.View() == RM.Init(cap, RM.Limits(topicSize, bufferSize))
      ensures ping.inner == PingSuccess(now) && ping.Valid() && ping.trace.now == now
    {
      pool := new PidPool();
      publishes := new PublishesInner(cap, bufferSize, topicSize);
      received := new ReceivesInner(cap, RM.Limits(topicSize, bufferSize));
      subscribes := new SubsInner(cap, topicSize, wireTopicSize);
      ping := new PingState(now);
      callers := [];
      leaked, dropped, issued, freed, asked, abandoned := multiset{}, multiset{}, [], [], [], [];
      new;
      SystemRuns.InitReachable(cap, wireTopicSize);
    }

    /** The books after a step of the system. */
    ghost method Record(g: PO.System)
      modifies this`leaked, this`dropped, this`issued, this`freed, this`asked, this`abandoned
      ensures leaked == g.leaked && dropped == g.dropped && issued == g.issued && freed == g.freed
      ensures asked == g.asked && abandoned == g.abandoned
    {
      leaked, dropped, issued, freed := g.leaked, g.dropped, g.issued, g.freed;
      asked, abandoned := g.asked, g.abandoned;
    }

    /** The start of `publish`: an identifier is taken before the request waits
        for room. */
    method Call(qos: QoS, retain: bool, topic: string, payload: seq<Byte>, uid: UniqueId) returns (r: Outcome<()>)
      requires Valid()
      modifies this, pool
      ensures Valid()
      ensures var a := PO.Call(qos, retain, topic, payload, uid);
              if PO.Enabled(old(View()), a) then r == Ok(()) && View() == PO.Apply(old(View()), a)
              else r == Panic && View() == old(View())
      ensures r.Panic? <==> qos != QoS0 && old(pool.pool) == [] && old(pool.nextNewPid) == 65535
      ensures r.Ok? ==>
        && |callers| == |old(callers)| + 1 && old(callers) <= callers
        && var p := callers[|old(callers)|];
        && p.uid == uid && p.m.topic == topic && p.m.payload == payload && p.m.retain == retain && !p.m.dup
        && (qos == QoS0 <==> p.m.qospid == AtMostOnce)
        && (qos == QoS1 <==> p.m.qospid.AtLeastOnce?)
        && (qos == QoS2 <==> p.m.qospid.ExactlyOnce?)
        && (qos != QoS0 ==> p.m.qospid.pid == if old(pool.pool) != [] then old(pool.pool)[0] else old(pool.nextNewPid))
      ensures asked == if r.Ok? then old(asked) + [PO.AskedPublish(qos, retain, topic, payload, uid)] else old(asked)
    {
      hide PO.Reachable;
      ghost var g := View();
      ghost var a := PO.Call(qos, retain, topic, payload, uid);
      var qospid := AtMostOnce;
      if qos != QoS0 {
        var pid := pool.NextPid();
        if pid.Panic? {
          return Panic;
        }
        qospid := if qos == QoS1 then AtLeastOnce(pid.value) else ExactlyOnce(pid.value);
      }
      callers := callers + [PM.OwnedPublish(Message(false, qospid, retain, topic, payload), uid)];
      Record(PO.Apply(g, a));
      r := Ok(());
      SystemRuns.StepReachable(g, a);
    }

    /** One poll of a waiting request. */
    method Poll(k: nat) returns (r: Outcome<()>)
      requires Valid() && k < |callers|
      modifies this, publishes
      ensures Valid()
      ensures r == if |old(publishes.sendPublish)| >= publishes.cap then Pending
                   else if |old(callers[k]).m.topic| > publishes.topicSize
                        || |old(callers[k]).m.payload| > publishes.bufferSize then Panic
                   else Ok(())
      ensures r.Pending? ==> View() == old(View())
      ensures r.Panic? ==> View() == PO.Apply(old(View()), PO.Abandon(k))
      ensures r.Ok? ==> PO.Enabled(old(View()), PO.Admit(k)) && View() == PO.Apply(old(View()), PO.Admit(k))
    {
      hide PO.Reachable;
      ghost var g := View();
      r := publishes.Publish(callers[k].m, callers[k].uid);
      if r.Ok? {
        callers := RemoveAt(callers, k);
        SystemRuns.StepReachable(g, PO.Admit(k));
      } else if r.Panic? {
        callers := RemoveAt(callers, k);
        Record(PO.Apply(g, PO.Abandon(k)));
        SystemRuns.StepReachable(g, PO.Abandon(k));
      }
    }

    /** One poll of a subscribe or unsubscribe request. */
    method Request(topics: seq<string>, kind: SM.RequestType, uid: UniqueId) returns (r: Outcome<()>)
      requires Valid()
      modifies this, pool, subscribes
      ensures Valid()
      ensures r == Ok(()) || View() == old(View())
      ensures r == Ok(()) ==>
        && PO.Enabled(old(View()), PO.Request(topics, kind, uid))
        && View() == PO.Apply(old(View()), PO.Request(topics, kind, uid))
      ensures r == if |old(subscribes.sendRequest)| >= subscribes.cap then Pending
                   else if |topics| > 5 || (exists i :: 0 <= i < |topics| && |topics[i]| > subscribes.topicSize)
                        || (old(pool.pool) == [] && old(pool.nextNewPid) == 65535) then Panic
                   else Ok(())
      ensures r.Ok? ==>
        && |subscribes.sendRequest| == |old(subscribes.sendRequest)| + 1
        && old(subscribes.sendRequest) <= subscribes.sendRequest
        && var q := subscribes.sendRequest[|old(subscribes.sendRequest)|];
        && q.topics == topics && q.kind == kind && q.uid == uid
        && q.pid == if old(pool.pool) != [] then old(pool.pool)[0] else old(pool.nextNewPid)
    {
      hide PO.Reachable;
      ghost var g := View();
      r := subscribes.AddRequest(topics, kind, uid, pool);
      if r == Ok(()) {
        Record(PO.Apply(g, PO.Request(topics, kind, uid)));
        SystemRuns.StepReachable(g, PO.Request(topics, kind, uid));
      }
    }

    method ProcessPuback(pid: Pid) returns (r: Outcome<()>)
      requires Valid()
      modifies this, pool, publishes
      ensures Valid()
      ensures PO.Enabled(old(View()), PO.PublishStep(PM.StepPuback(pid)))
      ensures View() == PO.Apply(old(View()), PO.PublishStep(PM.StepPuback(pid)))
      ensures r == if PM.PubackIndex(old(publishes.View()), pid) < |old(publishes.awaitPuback)| then Ok(())
                   else Err(UnexpectedAck(pid))
    {
      hide PO.Reachable, PM.Reachable, PM.OnPuback, Position;
      ghost var g := View();
      r := publishes.ProcessPuback(pid, pool);
      Record(PO.Apply(g, PO.PublishStep(PM.StepPuback(pid))));
      SystemRuns.StepReachable(g, PO.PublishStep(PM.StepPuback(pid)));
    }

    method ProcessPubrec(pid: Pid) returns (r: Outcome<()>)
      requires Valid()
      modifies this, pool, publishes
      ensures Valid()
      ensures PO.Enabled(old(View()), PO.PublishStep(PM.StepPubrec(pid)))
      ensures View() == PO.Apply(old(View()), PO.PublishStep(PM.StepPubrec(pid)))
      ensures r == if |old(publishes.sendPubrel)| < publishes.cap then Ok(()) else Err(QueueFull(ExactlyOnce(pid)))
    {
      hide PO.Reachable, PM.Reachable, PM.OnPubrec, Position;
      ghost var g := View();
      r := publishes.ProcessPubrec(pid);
      Record(PO.Apply(g, PO.PublishStep(PM.StepPubrec(pid))));
      SystemRuns.StepReachable(g, PO.PublishStep(PM.StepPubrec(pid)));
    }

    method ProcessPubcomp(pid: Pid) returns (r: Outcome<()>)
      requires Valid()
      modifies this, pool, publishes
      ensures Valid()
      ensures PO.Enabled(old(View()), PO.PublishStep(PM.StepPubcomp(pid)))
      ensures View() == PO.Apply(old(View()), PO.PublishStep(PM.StepPubcomp(pid)))
      ensures r == if PM.PubcompIndex(old(publishes.View()), pid) < |old(publishes.awaitPubcomp)| then Ok(())
                   else Err(UnexpectedAck(pid))
    {
      hide PO.Reachable, PM.Reachable, PM.OnPubcomp, Position;
      ghost var g := View();
      r := publishes.ProcessPubcomp(pid, pool);
      Record(PO.Apply(g, PO.PublishStep(PM.StepPubcomp(pid))));
      SystemRuns.StepReachable(g, PO.PublishStep(PM.StepPubcomp(pid)));
    }

    method ProcessSubscription(p: Packet)
      requires Valid() && (p.Suback? || p.Unsuback?)
      modifies this, pool, subscribes
      ensures Valid()
      ensures PO.Enabled(old(View()), OnPacket(p).value) && View() == PO.Apply(old(View()), OnPacket(p).value)
    {
      hide PO.Reachable, SM.Reachable, SM.OnSuback, SM.OnUnsuback, Position;
      ghost var g := View();
      match p {
        case Suback(pid, codes) => subscribes.OnSuback(pid, codes, pool);
        case Unsuback(pid) => subscribes.OnUnsuback(pid, pool);
      }
      Record(PO.Apply(g, OnPacket(p).value));
      SystemRuns.StepReachable(g, OnPacket(p).value);
    }

    /** What a received packet does to the identifiers. */
    ghost static function OnPacket(p: Packet): Option<PO.Step> {
      match p
      case Puback(pid) => Some(PO.PublishStep(PM.StepPuback(pid)))
      case Pubrec(pid) => Some(PO.PublishStep(PM.StepPubrec(pid)))
      case Pubcomp(pid) => Some(PO.PublishStep(PM.StepPubcomp(pid)))
      case Suback(pid, codes) => Some(PO.SubscribeStep(SM.StepSuback(pid, codes)))
      case Unsuback(pid) => Some(PO.SubscribeStep(SM.StepUnsuback(pid)))
      case _ => None
    }

    /** process_packet hands a packet to the component it belongs to. */
    method ProcessPacket(p: Packet, now: int) returns (r: Outcome<()>)
      requires Valid()
      modifies this, Parts()
      ensures Valid()
      ensures match OnPacket(p)
              case Some(a) => PO.Enabled(old(View()), a) && View() == PO.Apply(old(View()), a)
              case None => View() == old(View())
      ensures ping.inner == if p.Pingresp? then PingSuccess(now) else old(ping.inner)
      ensures old(ping.Valid()) && now >= old(ping.trace.now) ==>
        ping.Valid() && old(ping.trace.now) <= ping.trace.now <= now
      ensures received.View() == (match p
                                  case Publish(m) => RM.OnPublish(old(received.View()), m).0
                                  case Pubrel(pid) => RM.OnPubrel(old(received.View()), pid).0
                                  case _ => old(received.View()))
      ensures r == ProcessResult(old(publishes.View()), old(received.View()), p)
    {
      hide PO.Reachable, RM.Reachable, RM.OnPublish, RM.OnPubrel, PO.Apply, PO.Enabled, Position;
      match p {
        case Connack(_) => r := Panic;
        case Publish(m) => r := received.OnPublish(m);
        case Pubrel(pid) => r := received.OnPubrel(pid);
        case Pingresp =>
          ping.OnPingResponse(now);
          r := Ok(());
        case Puback(pid) => r := ProcessPuback(pid);
        case Pubrec(pid) => r := ProcessPubrec(pid);
        case Pubcomp(pid) => r := ProcessPubcomp(pid);
        case Suback(_, _) =>
          ProcessSubscription(p);
          r := Ok(());
        case Unsuback(_) =>
          ProcessSubscription(p);
          r := Ok(());
        case _ => r := Ok(());
      }
    }

    ghost function Queued(connection: Connection): Queues
      reads this, Parts(), connection
    {
      Queues(publishes.View(), received.View(), subscribes.View(), ping.inner, connection.View())
    }

    /** The sending half of run_once: each component sends only when the ones
        before it have sent everything. Identifiers stay where they are. */
    method SendPackets(connection: Connection) returns (r: Outcome<SendResult>)
      requires Valid()
      requires connection.Valid()
      modifies Parts() - {pool}, connection
      ensures connection.Valid()
      ensures (Queued(connection), r) == SendQueues(old(Queued(connection)))
      ensures callers == old(callers) && pool.View() == old(pool.View())
      ensures r != Panic ==> Valid()
      ensures old(ping.Valid()) && NeverBefore(connection.clock, old(ping.trace.now)) ==> ping.Valid()
      ensures ping.trace == old(ping.trace) || Shows(connection.clock, ping.trace.now)
    {
      hide PO.Reachable, PM.SendPackets, RM.SendPackets, SM.Send, SendPing, Connection.Valid;
      hide NeverBefore, Shows, PingState.Valid;
      ghost var g, link := View(), connection.View();
      r := publishes.SendPackets(connection);
      if r != Panic {
        PR.SendPacketsLeads(g.publishes, link);
        SystemRuns.PublishesSend(g, publishes.View(), link.clock);
      }
      if r == Ok(SentAll) {
        var following := received.SendPackets(connection);
        r := Next(r, following);
        if r == Ok(SentAll) {
          g, link := View(), connection.View();
          following := subscribes.Send(connection);
          r := Next(r, following);
          SR.SendSends(g.subs, link);
          SystemRuns.SubscribesSend(g, subscribes.View());
          if r == Ok(SentAll) {
            following := ping.Send(connection);
            r := Next(r, following);
          }
        }
      }
    }

    /** Connects with the shared pool: the identifiers of the automatic
        subscriptions are taken, and never given back. */
    method Connect(connection: TC.TcpConnection) returns (r: Outcome<()>, ghost taken: nat)
      requires Valid() && connection.Valid() && connection.Idle()
      requires connection.state == None || connection.state == Some(TC.Error)
      requires connection.Repr() !! Parts() + {this}
      modifies connection.Repr(), pool, this
      ensures Valid() && connection.Valid() && connection.Idle()
      ensures r.Ok? <==> connection.state == Some(TC.Connected)
      ensures !r.Ok? ==> connection.state in {old(connection.state), Some(TC.ConnectSent), Some(TC.Error)}
      ensures TC.TakenTimes(old(pool.View()), taken).Some?
      ensures View() == SystemRuns.AutoSubscribed(old(View()), taken)
      ensures taken <= |TC.Chunks(connection.autoSubscribes)|
      ensures connection.network.Explains(old(connection.network.step), r)
      ensures r.Ok? ==> taken == |TC.Chunks(connection.autoSubscribes)|
    {
      hide PO.Reachable, TC.TakenTimes, TC.Chunks, TC.TcpConnection.Framed, TC.TcpConnection.Chunked, RM.Reachable;
      ghost var g := View();
      r, taken := connection.Connect(pool);
      Record(SystemRuns.AutoSubscribed(g, taken));
      SystemRuns.AutoSubscribesReachable(g, taken);
    }
  }
}
