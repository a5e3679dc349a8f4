/** What holds over every run of the subscribe and unsubscribe requests, for any
    interleaving of acceptance, sends, resends and acknowledgements. */
module SubscribeRuns {
  import opened Mqtt
  import opened Seqs
  import opened PacketLink
  import opened SubscribeModel

  // ---- the send pass is a run ----

  ghost predicate Leads(s: Subs, t: Subs) {
    exists run :: CanRun(s, run) && Run(s, run) == t
  }

  lemma {:induction false} RunConcat(s: Subs, a: seq<Step>, b: seq<Step>)
    requires CanRun(s, a) && CanRun(Run(s, a), b)
    ensures CanRun(s, a + b) && Run(s, a + b) == Run(Run(s, a), b)
    decreases |a|
  {
    hide Enabled, Apply;
    if a == [] {
      assert a + b == b;
    } else {
      RunConcat(Apply(s, a[0]), a[1..], b);
      assert (a + b)[1..] == a[1..] + b;
    }
  }

  lemma LeadsSelf(s: Subs)
    ensures Leads(s, s)
  {
    assert CanRun(s, []) && Run(s, []) == s;
  }

  lemma LeadsStep(s: Subs, a: Step)
    requires Enabled(s, a)
    ensures Leads(s, Apply(s, a))
  {
    assert [a][1..] == [];
    assert CanRun(Apply(s, a), []);
    assert CanRun(s, [a]) && Run(s, [a]) == Apply(s, a);
  }

  lemma LeadsTrans(s: Subs, t: Subs, u: Subs)
    requires Leads(s, t) && Leads(t, u)
    ensures Leads(s, u)
  {
    var a :| CanRun(s, a) && Run(s, a) == t;
    var b :| CanRun(t, b) && Run(t, b) == u;
    RunConcat(s, a, b);
  }

  lemma {:induction false} RunParameters(s: Subs, run: seq<Step>)
    requires CanRun(s, run)
    ensures Run(s, run).cap == s.cap && Run(s, run).wireTopicSize == s.wireTopicSize
    decreases |run|
  {
    hide Position;
    if run != [] {
      RunParameters(Apply(s, run[0]), run[1..]);
    }
  }

  lemma ReachableLeads(s: Subs, t: Subs)
    requires Reachable(s) && Leads(s, t)
    ensures Reachable(t)
  {
    var run :| CanRun(s, run) && Run(s, run) == t;
    RunParameters(s, run);
    assert Leads(Init(s.cap, s.wireTopicSize), s);
    LeadsTrans(Init(s.cap, s.wireTopicSize), s, t);
  }

  lemma InitReachable(cap: nat, wireTopicSize: nat)
    ensures Reachable(Init(cap, wireTopicSize))
  {
    assert CanRun(Init(cap, wireTopicSize), []) && Run(Init(cap, wireTopicSize), []) == Init(cap, wireTopicSize);
  }

  lemma StepReachable(s: Subs, a: Step)
    requires Reachable(s) && Enabled(s, a)
    ensures Reachable(Apply(s, a))
  {
    LeadsStep(s, a);
    ReachableLeads(s, Apply(s, a));
  }

  predicate IsSend(a: Step) {
    a.StepTransmit? || a.StepRepeat?
  }

  /** From `s` to `t` by sending alone. */
  ghost predicate Sends(s: Subs, t: Subs) {
    exists run :: CanRun(s, run) && Run(s, run) == t && forall i :: 0 <= i < |run| ==> IsSend(run[i])
  }

  lemma SendsSelf(s: Subs)
    ensures Sends(s, s)
  {
    assert CanRun(s, []) && Run(s, []) == s;
  }

  lemma SendsStep(s: Subs, a: Step)
    requires Enabled(s, a) && IsSend(a)
    ensures Sends(s, Apply(s, a))
  {
    assert [a][1..] == [];
    assert CanRun(Apply(s, a), []);
    assert CanRun(s, [a]) && Run(s, [a]) == Apply(s, a);
  }

  lemma SendsTrans(s: Subs, t: Subs, u: Subs)
    requires Sends(s, t) && Sends(t, u)
    ensures Sends(s, u)
  {
    hide Enabled, Apply;
    var a :| CanRun(s, a) && Run(s, a) == t && forall i :: 0 <= i < |a| ==> IsSend(a[i]);
    var b :| CanRun(t, b) && Run(t, b) == u && forall i :: 0 <= i < |b| ==> IsSend(b[i]);
    RunConcat(s, a, b);
  }

  lemma {:induction false} SendRequestsLeads(s: Subs, l: Link)
    ensures Sends(s, SendRequests(s, l).state)
    decreases |s.sendRequest|
  {
    hide Sends;
    SendsSelf(s);
    if s.sendRequest != [] && |s.awaitAck| < s.cap {
      var packet := CreatePacket(s.wireTopicSize, s.sendRequest[0]);
      if packet.Some? && l.Answer(packet.value) == Accept {
        var m := l.Write(packet.value);
        SendsStep(s, StepTransmit(m.Now()));
        SendRequestsLeads(Transmit(s, m.Now()), m);
        SendsTrans(s, Transmit(s, m.Now()), SendRequests(s, l).state);
      }
    }
  }

  lemma {:induction false} ResendRequestsLeads(s: Subs, i: nat, now: int, l: Link)
    requires i <= |s.awaitAck|
    ensures Sends(s, ResendRequests(s, i, now, l).state)
    decreases |s.awaitAck| - i
  {
    hide Sends;
    SendsSelf(s);
    if i < |s.awaitAck| {
      if now - s.awaitAck[i].sent <= RESEND_DURATION {
        ResendRequestsLeads(s, i + 1, now, l);
      } else {
        var packet := CreatePacket(s.wireTopicSize, s.awaitAck[i].request);
        if packet.Some? && l.Answer(packet.value) == Accept {
          var m := l.Write(packet.value);
          SendsStep(s, StepRepeat(i, now, m.Now()));
          ResendRequestsLeads(Repeat(s, i, now, m.Now()), i + 1, now, m);
          SendsTrans(s, Repeat(s, i, now, m.Now()), ResendRequests(s, i, now, l).state);
        }
      }
    }
  }

  /** A whole send pass is a run of the smallest sending steps. */
  lemma SendSends(s: Subs, l: Link)
    ensures Sends(s, Send(s, l).state)
  {
    hide Sends;
    var p := SendRequests(s, l);
    SendRequestsLeads(s, l);
    if p.outcome == Ok(SentAll) {
      ResendRequestsLeads(p.state, 0, p.link.Now(), p.link);
      SendsTrans(s, p.state, Send(s, l).state);
    }
  }

  lemma SendReachable(s: Subs, l: Link)
    requires Reachable(s)
    ensures Reachable(Send(s, l).state)
  {
    hide Reachable, Send;
    SendSends(s, l);
    ReachableLeads(s, Send(s, l).state);
  }

  // ---- order and conservation ----

  function AcceptedRequest(e: Event): seq<SubRequest> { if e.Accepted? then [e.request] else [] }

  function SentRequest(e: Event): seq<SubRequest> { if e.Sent? then [e.request] else [] }

  function AcceptedUid(e: Event): seq<UniqueId> { if e.Accepted? then [e.request.uid] else [] }

  function CompletedUid(e: Event): seq<UniqueId> {
    if e.SubscribeDone? || e.UnsubscribeDone? then [e.request.uid] else []
  }

  function RequestUid(r: SubRequest): seq<UniqueId> { [r.uid] }

  function AwaitUid(e: AwaitAck): seq<UniqueId> { [e.request.uid] }

  ghost predicate Conserved(s: Subs) {
    Bag(AcceptedUid, s.log) == Bag(RequestUid, s.sendRequest) + Bag(AwaitUid, s.awaitAck) + Bag(CompletedUid, s.log)
  }

  ghost predicate Ordered(s: Subs) {
    FlatMap(SentRequest, s.log) + s.sendRequest == FlatMap(AcceptedRequest, s.log)
  }

  lemma LogBags(log: seq<Event>, e: Event)
    ensures Bag(AcceptedUid, log + [e]) == Bag(AcceptedUid, log) + multiset(AcceptedUid(e))
    ensures Bag(CompletedUid, log + [e]) == Bag(CompletedUid, log) + multiset(CompletedUid(e))
  {
    BagSnoc(AcceptedUid, log, e);
    BagSnoc(CompletedUid, log, e);
  }

  lemma LogOrder(log: seq<Event>, e: Event)
    ensures FlatMap(SentRequest, log + [e]) == FlatMap(SentRequest, log) + SentRequest(e)
    ensures FlatMap(AcceptedRequest, log + [e]) == FlatMap(AcceptedRequest, log) + AcceptedRequest(e)
  {
    FlatMapSnoc(SentRequest, log, e);
    FlatMapSnoc(AcceptedRequest, log, e);
  }

  /** An acknowledgement `e`, and the completion `d` of the entry it removed. */
  lemma ConservedAck(s: Subs, i: nat, e: Event, d: Event)
    requires Conserved(s) && i < |s.awaitAck|
    requires e.GotSuback? || e.GotUnsuback?
    requires (d.SubscribeDone? || d.UnsubscribeDone?) && d.request == s.awaitAck[i].request
    ensures Conserved(s.(awaitAck := RemoveAt(s.awaitAck, i), log := s.log + [e, d]))
  {
    hide Bag;
    BagRemove(AwaitUid, s.awaitAck, i);
    BagSnoc2(AcceptedUid, s.log, e, d);
    BagSnoc2(CompletedUid, s.log, e, d);
  }

  lemma ConservedTransmit(s: Subs, now: int)
    requires Conserved(s) && s.sendRequest != []
    ensures Conserved(Transmit(s, now))
  {
    hide Bag;
    var r := s.sendRequest[0];
    LogBags(s.log, Sent(r, now));
    BagRemove(RequestUid, s.sendRequest, 0);
    assert RemoveAt(s.sendRequest, 0) == s.sendRequest[1..];
    BagSnoc(AwaitUid, s.awaitAck, AwaitAck(r, now));
  }

  lemma ConservedAdmit(s: Subs, r: SubRequest)
    requires Conserved(s)
    ensures Conserved(Admit(s, r))
  {
    hide Bag;
    LogBags(s.log, Event.Accepted(r));
    BagSnoc(RequestUid, s.sendRequest, r);
  }

  lemma ConservedRepeat(s: Subs, i: nat, due: int, now: int)
    requires Conserved(s) && i < |s.awaitAck|
    ensures Conserved(Repeat(s, i, due, now))
  {
    hide Bag;
    LogBags(s.log, Resent(s.awaitAck[i].request, due, now));
    BagSame(AwaitUid, s.awaitAck, Repeat(s, i, due, now).awaitAck);
  }

  lemma ConservedUnmatched(s: Subs, e: Event)
    requires Conserved(s) && (e.GotSuback? || e.GotUnsuback?)
    ensures Conserved(s.(log := s.log + [e]))
  {
    hide Bag;
    LogBags(s.log, e);
  }

  lemma ConservedStep(s: Subs, a: Step)
    requires Conserved(s) && Enabled(s, a)
    ensures Conserved(Apply(s, a))
  {
    hide Conserved, Position, AnyFailure;
    match a {
      case StepAccept(r) => ConservedAdmit(s, r);
      case StepTransmit(now) => ConservedTransmit(s, now);
      case StepRepeat(i, due, now) => ConservedRepeat(s, i, due, now);
      case StepSuback(pid, codes) =>
        ConservedUnmatched(s, GotSuback(pid, codes));
        var i := SubackIndex(s, pid);
        if i < |s.awaitAck| {
          var r := s.awaitAck[i].request;
          ConservedAck(s, i, GotSuback(pid, codes), SubscribeDone(r, SubscribeResult(codes, r)));
        }
      case StepUnsuback(pid) =>
        ConservedUnmatched(s, GotUnsuback(pid));
        var i := UnsubackIndex(s, pid);
        if i < |s.awaitAck| {
          ConservedAck(s, i, GotUnsuback(pid), UnsubscribeDone(s.awaitAck[i].request));
        }
    }
  }

  lemma OrderedByOne(s: Subs, e: Event)
    requires Ordered(s) && !e.Sent? && !e.Accepted?
    ensures Ordered(s.(log := s.log + [e]))
  {
    hide FlatMap;
    LogOrder(s.log, e);
  }

  lemma OrderedByTwo(s: Subs, e: Event, d: Event)
    requires Ordered(s) && !e.Sent? && !e.Accepted? && !d.Sent? && !d.Accepted?
    ensures Ordered(s.(log := s.log + [e, d]))
  {
    hide FlatMap;
    OrderedByOne(s, e);
    OrderedByOne(s.(log := s.log + [e]), d);
    assert s.log + [e, d] == s.log + [e] + [d];
  }

  lemma OrderedStep(s: Subs, a: Step)
    requires Ordered(s) && Enabled(s, a)
    ensures Ordered(Apply(s, a))
  {
    hide FlatMap, Position, AnyFailure;
    match a {
      case StepAccept(r) => LogOrder(s.log, Event.Accepted(r));
      case StepTransmit(now) =>
        LogOrder(s.log, Sent(s.sendRequest[0], now));
        assert [s.sendRequest[0]] + s.sendRequest[1..] == s.sendRequest;
      case StepRepeat(i, due, now) => OrderedByOne(s, Resent(s.awaitAck[i].request, due, now));
      case StepSuback(pid, codes) =>
        OrderedByOne(s, GotSuback(pid, codes));
        var i := SubackIndex(s, pid);
        if i < |s.awaitAck| {
          var r := s.awaitAck[i].request;
          OrderedByTwo(s, GotSuback(pid, codes), SubscribeDone(r, SubscribeResult(codes, r)));
        }
      case StepUnsuback(pid) =>
        OrderedByOne(s, GotUnsuback(pid));
        var i := UnsubackIndex(s, pid);
        if i < |s.awaitAck| {
          OrderedByTwo(s, GotUnsuback(pid), UnsubscribeDone(s.awaitAck[i].request));
        }
    }
  }

  // ---- a completion is caused by the acknowledgement of its own request ----

  ghost predicate WasSent(log: seq<Event>, r: SubRequest) {
    exists i :: 0 <= i < |log| && log[i].Sent? && log[i].request == r
  }

  /** The completion at index `k` directly follows the acknowledgement, with the
      identifier and of the kind, of a request that was transmitted before. */
  ghost predicate Justified(log: seq<Event>, k: nat)
    requires k < |log|
  {
    match log[k]
    case SubscribeDone(r, result) =>
      && k > 0 && log[k - 1].GotSuback? && log[k - 1].pid == r.pid && r.kind.SubscribeTo?
      && WasSent(log[..k - 1], r) && result == SubscribeResult(log[k - 1].codes, r)
    case UnsubscribeDone(r) =>
      && k > 0 && log[k - 1] == GotUnsuback(r.pid) && r.kind.UnsubscribeFrom?
      && WasSent(log[..k - 1], r)
    case _ => true
  }

  ghost predicate Caused(s: Subs) {
    && (forall e :: e in s.awaitAck ==> WasSent(s.log, e.request))
    && (forall k :: 0 <= k < |s.log| ==> Justified(s.log, k))
  }

  lemma CausesPersist(log: seq<Event>, more: seq<Event>)
    ensures forall r :: WasSent(log, r) ==> WasSent(log + more, r)
    ensures forall k :: 0 <= k < |log| && Justified(log, k) ==> Justified(log + more, k)
  {
    var longer := log + more;
    forall r | WasSent(log, r)
      ensures WasSent(longer, r)
    {
      var i :| 0 <= i < |log| && log[i].Sent? && log[i].request == r;
      assert longer[i].Sent? && longer[i].request == r;
    }
    forall k | 0 <= k < |log| && Justified(log, k)
      ensures Justified(longer, k)
    {
      assert longer[k] == log[k];
      if k > 0 {
        assert longer[k - 1] == log[k - 1] && longer[..k - 1] == log[..k - 1];
      }
    }
  }

  lemma CausedByOne(s: Subs, e: Event)
    requires Caused(s) && Justified(s.log + [e], |s.log|)
    ensures Caused(s.(log := s.log + [e]))
  {
    hide WasSent, Justified;
    CausesPersist(s.log, [e]);
  }

  lemma CausedAck(s: Subs, i: nat, e: Event, d: Event)
    requires Caused(s) && i < |s.awaitAck|
    requires var r := s.awaitAck[i].request;
             match e
             case GotSuback(pid, codes) =>
               r.pid == pid && r.kind.SubscribeTo? && d == SubscribeDone(r, SubscribeResult(codes, r))
             case GotUnsuback(pid) => r.pid == pid && r.kind.UnsubscribeFrom? && d == UnsubscribeDone(r)
             case _ => false
    ensures Caused(s.(awaitAck := RemoveAt(s.awaitAck, i), log := s.log + [e, d]))
  {
    hide WasSent, AnyFailure;
    var r := s.awaitAck[i].request;
    assert s.awaitAck[i] in s.awaitAck;
    CausedByOne(s, e);
    var t := s.(log := s.log + [e]);
    var longer := t.log + [d];
    assert longer[|s.log|] == e && longer[..|s.log|] == s.log;
    assert Justified(longer, |t.log|);
    CausedByOne(t, d);
    assert s.log + [e, d] == longer;
  }

  lemma SentLast(log: seq<Event>, r: SubRequest, now: int)
    ensures WasSent(log + [Sent(r, now)], r)
  {
    assert (log + [Sent(r, now)])[|log|] == Sent(r, now);
  }

  lemma CausedStep(s: Subs, a: Step)
    requires Caused(s) && Enabled(s, a)
    ensures Caused(Apply(s, a))
  {
    hide WasSent, Position;
    match a {
      case StepAccept(r) => CausedByOne(s, Event.Accepted(r));
      case StepTransmit(now) =>
        var r := s.sendRequest[0];
        CausedByOne(s, Sent(r, now));
        assert WasSent(s.log + [Sent(r, now)], r) by { SentLast(s.log, r, now); }
      case StepRepeat(i, due, now) =>
        CausedByOne(s, Resent(s.awaitAck[i].request, due, now));
        assert s.awaitAck[i] in s.awaitAck;
      case StepSuback(pid, codes) =>
        CausedByOne(s, GotSuback(pid, codes));
        var i := SubackIndex(s, pid);
        if i < |s.awaitAck| {
          var r := s.awaitAck[i].request;
          CausedAck(s, i, GotSuback(pid, codes), SubscribeDone(r, SubscribeResult(codes, r)));
        }
      case StepUnsuback(pid) =>
        CausedByOne(s, GotUnsuback(pid));
        var i := UnsubackIndex(s, pid);
        if i < |s.awaitAck| {
          CausedAck(s, i, GotUnsuback(pid), UnsubscribeDone(s.awaitAck[i].request));
        }
    }
  }

  // ---- over every run ----

  ghost predicate Inv(s: Subs) {
    && Conserved(s) && Ordered(s) && Caused(s)
    && |s.sendRequest| <= s.cap && |s.awaitAck| <= s.cap
  }

  lemma InvStep(s: Subs, a: Step)
    requires Inv(s) && Enabled(s, a)
    ensures Inv(Apply(s, a))
  {
    hide Conserved, Ordered, Caused, Position;
    ConservedStep(s, a);
    OrderedStep(s, a);
    CausedStep(s, a);
  }

  lemma {:induction false} InvRun(s: Subs, run: seq<Step>)
    requires Inv(s) && CanRun(s, run)
    ensures Inv(Run(s, run))
    decreases |run|
  {
    hide Inv, Enabled, Apply;
    if run != [] {
      InvStep(s, run[0]);
      InvRun(Apply(s, run[0]), run[1..]);
    }
  }

  lemma InvInit(cap: nat, wireTopicSize: nat)
    ensures Inv(Init(cap, wireTopicSize))
  {
  }

  lemma ReachableInv(s: Subs)
    requires Reachable(s)
    ensures Inv(s)
  {
    hide Inv;
    var run :| CanRun(Init(s.cap, s.wireTopicSize), run) && Run(Init(s.cap, s.wireTopicSize), run) == s;
    InvInit(s.cap, s.wireTopicSize);
    InvRun(Init(s.cap, s.wireTopicSize), run);
  }

  /** Requests are first transmitted in the order of acceptance and never lost:
      each is queued, awaits its acknowledgement or was completed once. */
  lemma RequestsInOrder(s: Subs, uid: UniqueId)
    requires Reachable(s)
    ensures FlatMap(AcceptedRequest, s.log) == FlatMap(SentRequest, s.log) + s.sendRequest
    ensures Bag(AcceptedUid, s.log)[uid]
         == Bag(RequestUid, s.sendRequest)[uid] + Bag(AwaitUid, s.awaitAck)[uid] + Bag(CompletedUid, s.log)[uid]
  {
    hide Bag, FlatMap, Reachable, Caused;
    ReachableInv(s);
  }

  lemma SentWitness(log: seq<Event>, r: SubRequest) returns (i: nat)
    requires WasSent(log, r)
    ensures i < |log| && log[i].Sent? && log[i].request == r
  {
    i :| 0 <= i < |log| && log[i].Sent? && log[i].request == r;
  }

  /** SubscribeDone comes only with a SUBACK for a transmitted subscribe request
      of the same identifier, and carries an error exactly if some return code
      that is paired with a topic of that request is a failure. `Handshakes` adds,
      for identifiers from the pool, that nothing else used the identifier. */
  lemma SubscribeDoneMeaning(s: Subs, k: nat) returns (sent: nat)
    requires Reachable(s) && k < |s.log| && s.log[k].SubscribeDone?
    ensures var r := s.log[k].request;
            && sent < k - 1 && s.log[sent].Sent? && s.log[sent].request == r && r.kind.SubscribeTo?
            && s.log[k - 1].GotSuback? && s.log[k - 1].pid == r.pid
            && (s.log[k].result == Err(SubscribeOrUnsubscribeFailed) <==> AnyFailure(s.log[k - 1].codes, r.topics))
            && (s.log[k].result.Err? || s.log[k].result == Ok(r.kind.qos))
  {
    hide Conserved, Ordered, Reachable, WasSent, AnyFailure;
    ReachableInv(s);
    assert Justified(s.log, k);
    sent := SentWitness(s.log[..k - 1], s.log[k].request);
  }

  /** UnsubscribeDone comes only with an UNSUBACK for a transmitted unsubscribe
      request of the same identifier. */
  lemma UnsubscribeDoneMeaning(s: Subs, k: nat) returns (sent: nat)
    requires Reachable(s) && k < |s.log| && s.log[k].UnsubscribeDone?
    ensures var r := s.log[k].request;
            && sent < k - 1 && s.log[sent].Sent? && s.log[sent].request == r && r.kind.UnsubscribeFrom?
            && s.log[k - 1] == GotUnsuback(r.pid)
  {
    hide Conserved, Ordered, Reachable, WasSent;
    ReachableInv(s);
    assert Justified(s.log, k);
    sent := SentWitness(s.log[..k - 1], s.log[k].request);
  }

  // ---- who an acknowledgement completes ----

  /** A SUBACK completes a subscribe request exactly if one with its identifier
      waits: that entry leaves, and its completion is the last event. */
  lemma SubackCompletes(s: Subs, pid: Pid, codes: seq<ReturnCode>)
    ensures var t := OnSuback(s, pid, codes);
      && t.sendRequest == s.sendRequest
      && if exists e :: e in s.awaitAck && e.request.pid == pid && e.request.kind.SubscribeTo? then
           exists e :: e in s.awaitAck && e.request.pid == pid && e.request.kind.SubscribeTo?
             && multiset(s.awaitAck) == multiset(t.awaitAck) + multiset{e}
             && t.log == s.log + [GotSuback(pid, codes), SubscribeDone(e.request, SubscribeResult(codes, e.request))]
         else t.awaitAck == s.awaitAck && t.log == s.log + [GotSuback(pid, codes)]
  {
    hide Position, AnyFailure;
    var i := SubackIndex(s, pid);
    if i < |s.awaitAck| {
      RemoveSplits(s.awaitAck, i);
      assert s.awaitAck[i] in s.awaitAck;
    } else {
      forall e | e in s.awaitAck
        ensures !(e.request.pid == pid && e.request.kind.SubscribeTo?)
      {
        var j :| 0 <= j < |s.awaitAck| && s.awaitAck[j] == e;
        assert !SubscribedWith(pid)(s.awaitAck[j]);
      }
    }
  }

  /** The same for UNSUBACK and unsubscribe requests. */
  lemma UnsubackCompletes(s: Subs, pid: Pid)
    ensures var t := OnUnsuback(s, pid);
      && t.sendRequest == s.sendRequest
      && if exists e :: e in s.awaitAck && e.request.pid == pid && e.request.kind.UnsubscribeFrom? then
           exists e :: e in s.awaitAck && e.request.pid == pid && e.request.kind.UnsubscribeFrom?
             && multiset(s.awaitAck) == multiset(t.awaitAck) + multiset{e}
             && t.log == s.log + [GotUnsuback(pid), UnsubscribeDone(e.request)]
         else t.awaitAck == s.awaitAck && t.log == s.log + [GotUnsuback(pid)]
  {
    hide Position;
    var i := UnsubackIndex(s, pid);
    if i < |s.awaitAck| {
      RemoveSplits(s.awaitAck, i);
      assert s.awaitAck[i] in s.awaitAck;
    } else {
      forall e | e in s.awaitAck
        ensures !(e.request.pid == pid && e.request.kind.UnsubscribeFrom?)
      {
        var j :| 0 <= j < |s.awaitAck| && s.awaitAck[j] == e;
        assert !UnsubscribedWith(pid)(s.awaitAck[j]);
      }
    }
  }
}
