/** What a send pass of the subscribe requests writes, how it ends, and when a
    request is repeated (section 3.8.4 of MQTT 3.1.1 leaves that to the client). */
module SubscribePasses {
  import opened Mqtt
  import opened Seqs
  import opened PacketLink
  import opened SubscribeModel

  /** The packet asks for what the request says: its identifier, its topics in
      their order, and for a subscription the class of the request for each. */
  predicate Asks(p: Packet, r: SubRequest) {
    match r.kind
    case SubscribeTo(qos) =>
      && p.Subscribe? && p.pid == r.pid && |p.subscriptions| == |r.topics|
      && forall i :: 0 <= i < |r.topics| ==> p.subscriptions[i].path == r.topics[i] && p.subscriptions[i].qos == qos
    case UnsubscribeFrom =>
      p.Unsubscribe? && p.pid == r.pid && p.topics == r.topics
  }

  predicate AskAll(packets: seq<Packet>, requests: seq<SubRequest>) {
    |packets| == |requests| && forall i :: 0 <= i < |packets| ==> Asks(packets[i], requests[i])
  }

  function Transmitted(e: Event): seq<SubRequest> {
    match e
    case Sent(r, _) => [r]
    case Resent(r, _, _) => [r]
    case _ => []
  }

  /** The times of an event are times that the clock shows. */
  ghost predicate OnClock(clock: nat -> int, e: Event) {
    match e
    case Sent(_, at) => Shows(clock, at)
    case Resent(_, due, at) => Shows(clock, due) && Shows(clock, at)
    case _ => true
  }

  /** The history of `t` continues that of `s` by the requests that were written
      between the links. */
  ghost predicate Accounts(s: Subs, l: Link, t: Subs, m: Link) {
    && s.log <= t.log && l.written <= m.written
    && AskAll(m.written[|l.written|..], FlatMap(Transmitted, t.log[|s.log|..]))
    && (forall k :: |s.log| <= k < |t.log| ==> OnClock(l.clock, t.log[k]))
    && |m.written| - |l.written| <= m.attempts - l.attempts
    && (m.attempts == l.attempts ==> m.last == l.last)
    && m.answers == l.answers && m.clock == l.clock
    && t.cap == s.cap && t.wireTopicSize == s.wireTopicSize
  }

  lemma AccountsTrans(s: Subs, l: Link, t: Subs, m: Link, u: Subs, n: Link)
    requires Accounts(s, l, t, m) && Accounts(t, m, u, n)
    ensures Accounts(s, l, u, n)
  {
    hide FlatMap, Asks, OnClock;
    var a, b := t.log[|s.log|..], u.log[|t.log|..];
    assert u.log[|s.log|..] == a + b;
    FlatMapConcat(Transmitted, a, b);
    assert n.written[|l.written|..] == m.written[|l.written|..] + n.written[|m.written|..];
    forall k | |s.log| <= k < |u.log|
      ensures OnClock(l.clock, u.log[k])
    {
      if k < |t.log| {
        assert u.log[k] == t.log[k];
      }
    }
  }

  lemma AccountsWrite(s: Subs, l: Link, t: Subs, p: Packet, e: Event)
    requires t.cap == s.cap && t.wireTopicSize == s.wireTopicSize && t.log == s.log + [e]
    requires |Transmitted(e)| == 1 && Asks(p, Transmitted(e)[0]) && OnClock(l.clock, e)
    ensures Accounts(s, l, t, l.Write(p))
  {
    assert t.log[|s.log|..] == [e];
    FlatMapOne(Transmitted, e);
    assert l.Write(p).written[|l.written|..] == [p];
  }

  lemma AccountsNothing(s: Subs, l: Link)
    ensures Accounts(s, l, s, l) && forall p :: Accounts(s, l, s, l.Skip(p))
  {
    assert s.log[|s.log|..] == [];
    assert l.written[|l.written|..] == [];
  }

  /** Some topic of the request does not fit into a packet. */
  predicate TooLong(wireTopicSize: nat, r: SubRequest) {
    exists i :: 0 <= i < |r.topics| && |r.topics[i]| > wireTopicSize
  }

  lemma CreatedAsks(wireTopicSize: nat, r: SubRequest)
    ensures CreatePacket(wireTopicSize, r).Some? ==> Asks(CreatePacket(wireTopicSize, r).value, r)
    ensures CreatePacket(wireTopicSize, r).None? <==> TooLong(wireTopicSize, r)
  {
  }

  ghost predicate SomeTooLong(s: Subs) {
    if s.sendRequest != [] then |s.awaitAck| < s.cap && TooLong(s.wireTopicSize, s.sendRequest[0])
    else exists e :: e in s.awaitAck && TooLong(s.wireTopicSize, e.request)
  }

  /** How a pass ends: with everything written, at an attempt that is refused or
      fails, at a full queue of waiting entries, or at a request that cannot be
      written; `waiting` says what can be waiting then. */
  ghost predicate Ends(l: Link, p: Pass<Subs>) {
    match p.outcome
    case Ok(SentAll) => AllAccepted(l, p.link)
    case Ok(PartiallySent) => Stopped(l, p.link, Refuse) || (AllAccepted(l, p.link) && Blocked(p.state))
    case Err(e) =>
      Stopped(l, p.link, Fail(e))
      || (AllAccepted(l, p.link) && e == TopicSizeError && SomeTooLong(p.state))
    case _ => false
  }

  ghost predicate Exact(s: Subs, l: Link, p: Pass<Subs>) {
    Accounts(s, l, p.state, p.link) && Ends(l, p)
  }

  lemma ExactStep(s: Subs, l: Link, t: Subs, m: Link, p: Pass<Subs>)
    requires Accounts(s, l, t, m) && AllAccepted(l, m) && Exact(t, m, p)
    ensures Exact(s, l, p)
  {
    hide AskAll, FlatMap, OnClock, SomeTooLong;
    AccountsTrans(s, l, t, m, p.state, p.link);
  }

  lemma {:induction false} SendRequestsExact(s: Subs, l: Link)
    ensures Exact(s, l, SendRequests(s, l))
    ensures SendRequests(s, l).outcome == Ok(SentAll) ==> SendRequests(s, l).state.sendRequest == []
    decreases |s.sendRequest|
  {
    hide Accounts, CreatePacket, Asks, TooLong, FlatMap;
    AccountsNothing(s, l);
    if s.sendRequest != [] && |s.awaitAck| < s.cap {
      var r := s.sendRequest[0];
      CreatedAsks(s.wireTopicSize, r);
      var packet := CreatePacket(s.wireTopicSize, r);
      if packet.Some? && l.Answer(packet.value) == Accept {
        var m := l.Write(packet.value);
        var t := Transmit(s, m.Now());
        assert Shows(l.clock, m.Now()) by { assert l.clock(m.attempts) == m.Now(); }
        AccountsWrite(s, l, t, packet.value, Sent(r, m.Now()));
        SendRequestsExact(t, m);
        ExactStep(s, l, t, m, SendRequests(t, m));
      }
    }
  }

  lemma {:induction false} ResendRequestsExact(s: Subs, i: nat, now: int, l: Link)
    requires i <= |s.awaitAck| && Shows(l.clock, now) && s.sendRequest == []
    ensures Exact(s, l, ResendRequests(s, i, now, l))
    ensures ResendRequests(s, i, now, l).state.sendRequest == []
    ensures ResendRequests(s, i, now, l).outcome == Ok(PartiallySent) ==>
      Stopped(l, ResendRequests(s, i, now, l).link, Refuse)
    decreases |s.awaitAck| - i
  {
    hide Accounts, CreatePacket, Asks, TooLong, FlatMap;
    AccountsNothing(s, l);
    if i < |s.awaitAck| {
      var e := s.awaitAck[i];
      if now - e.sent <= RESEND_DURATION {
        ResendRequestsExact(s, i + 1, now, l);
      } else {
        CreatedAsks(s.wireTopicSize, e.request);
        var packet := CreatePacket(s.wireTopicSize, e.request);
        if packet.Some? && l.Answer(packet.value) == Accept {
          var m := l.Write(packet.value);
          var t := Repeat(s, i, now, m.Now());
          assert Shows(l.clock, m.Now()) by { assert l.clock(m.attempts) == m.Now(); }
          AccountsWrite(s, l, t, packet.value, Resent(e.request, now, m.Now()));
          ResendRequestsExact(t, i + 1, now, m);
          ExactStep(s, l, t, m, ResendRequests(t, i + 1, now, m));
        } else {
          assert e in s.awaitAck;
        }
      }
    }
  }

  /** One call of send: what is written are the requests that the history records
      as sent and resent, in order, each as a packet that asks for just that, at
      times the clock shows. It reports SentAll only when no request is left and
      every attempt was accepted, PartiallySent exactly at a refusal or with a
      queued request and no room to await its answer, and an error exactly where
      the connection fails or a topic is too long. */
  lemma SendExact(s: Subs, l: Link)
    ensures Exact(s, l, Send(s, l))
    ensures Send(s, l).outcome == Ok(SentAll) ==> Send(s, l).state.sendRequest == []
  {
    hide Accounts, SomeTooLong, SendRequests, ResendRequests;
    var p := SendRequests(s, l);
    SendRequestsExact(s, l);
    if p.outcome == Ok(SentAll) {
      assert Shows(p.link.clock, p.link.Now()) by { assert p.link.clock(p.link.attempts) == p.link.Now(); }
      ResendRequestsExact(p.state, 0, p.link.Now(), p.link);
      ExactStep(s, l, p.state, p.link, Send(s, l));
    }
  }

  // ---- no entry is old after SentAll ----

  /** Not older than five seconds by the clock when the loop began, or stamped
      later in the same pass. */
  ghost predicate Young(clock: nat -> int, n: nat, last: nat, e: AwaitAck) {
    clock(n) - e.sent <= 5000 || exists m :: n < m <= last && e.sent == clock(m)
  }

  lemma {:induction false} ResendLeavesYoung(s: Subs, i: nat, l: Link, n: nat)
    requires i <= |s.awaitAck| && n <= l.attempts
    requires forall j :: 0 <= j < i ==> Young(l.clock, n, l.attempts, s.awaitAck[j])
    requires ResendRequests(s, i, l.clock(n), l).outcome == Ok(SentAll)
    ensures var p := ResendRequests(s, i, l.clock(n), l);
      p.link.attempts >= l.attempts && forall e :: e in p.state.awaitAck ==> Young(l.clock, n, p.link.attempts, e)
    decreases |s.awaitAck| - i
  {
    hide CreatePacket;
    if i < |s.awaitAck| {
      var e, now := s.awaitAck[i], l.clock(n);
      if now - e.sent <= RESEND_DURATION {
        ResendLeavesYoung(s, i + 1, l, n);
      } else {
        var m := l.Write(CreatePacket(s.wireTopicSize, e.request).value);
        var t := Repeat(s, i, now, m.Now());
        assert Young(l.clock, n, m.attempts, t.awaitAck[i]);
        forall j | 0 <= j < i
          ensures Young(l.clock, n, m.attempts, t.awaitAck[j])
        {
          assert Young(l.clock, n, l.attempts, s.awaitAck[j]);
        }
        ResendLeavesYoung(t, i + 1, m, n);
      }
    }
  }

  /** After SentAll no entry that waits is older than 5000 ms by the clock that the
      resend loop read, as long as the clock does not run backwards. */
  lemma SentAllIsYoung(s: Subs, l: Link) returns (n: nat)
    requires Send(s, l).outcome == Ok(SentAll)
    requires forall m, k :: 0 <= m <= k ==> l.clock(m) <= l.clock(k)
    ensures l.attempts <= n <= Send(s, l).link.attempts
    ensures forall e :: e in Send(s, l).state.awaitAck ==> l.clock(n) - e.sent <= 5000
  {
    hide ResendRequests, FlatMap;
    var p := SendRequests(s, l);
    SendRequestsExact(s, l);
    n := p.link.attempts;
    ResendLeavesYoung(p.state, 0, p.link, n);
  }
}

/** When requests are repeated, over every run with identifiers from the pool. */
module SubscribeTimes {
  import opened Mqtt
  import opened Seqs
  import opened PacketLink
  import opened SubscribeModel
  import opened PidPools
  import SP = SubscribePasses
  import PM = PublishModel
  import PR = PublishRuns
  import PT = PublishTheorems
  import SR = SubscribeRuns
  import SL = SubscribeLifetimes
  import Handshakes
  import SystemRuns
  import PO = PidOwnership

  /** The transmissions, first or repeated, of the request with an identifier. */
  function Carries(pid: Pid): Event -> bool {
    (e: Event) => (e.Sent? || e.Resent?) && e.request.pid == pid
  }

  function TimeOf(e: Event): int {
    match e
    case Sent(_, at) => at
    case Resent(_, _, at) => at
    case _ => 0
  }

  /** The latest transmission of the request happened at `time`. */
  ghost predicate LastAt(log: seq<Event>, pid: Pid, time: int) {
    Since(Carries(pid), log) != [] && TimeOf(Since(Carries(pid), log)[0]) == time
  }

  ghost predicate Late(log: seq<Event>, k: nat)
    requires k < |log|
  {
    match log[k]
    case Resent(r, due, _) => exists time :: LastAt(log[..k], r.pid, time) && due - time > 5000
    case _ => true
  }

  /** The time stamp of every waiting entry is that of its latest transmission,
      and every repetition so far was late enough. */
  ghost predicate Stamped(s: Subs) {
    && (forall e :: e in s.awaitAck ==> LastAt(s.log, e.request.pid, e.sent))
    && (forall k :: 0 <= k < |s.log| ==> Late(s.log, k))
  }

  lemma StampedByOne(s: Subs, t: Subs, e: Event)
    requires Stamped(s) && t.log == s.log + [e] && Late(t.log, |s.log|)
    requires forall a :: a in t.awaitAck ==>
      (a in s.awaitAck && !Carries(a.request.pid)(e)) || (Carries(a.request.pid)(e) && a.sent == TimeOf(e))
    ensures Stamped(t)
  {
    hide Since;
    forall a | a in t.awaitAck
      ensures LastAt(t.log, a.request.pid, a.sent)
    {
      SinceSnoc(Carries(a.request.pid), s.log, e);
    }
    forall k | 0 <= k < |t.log|
      ensures Late(t.log, k)
    {
      if k < |s.log| {
        assert t.log[..k] == s.log[..k];
        assert Late(s.log, k);
      }
    }
  }

  lemma StampedQuiet(s: Subs, t: Subs, e: Event)
    requires Stamped(s) && t.log == s.log + [e] && !e.Sent? && !e.Resent?
    requires forall a :: a in t.awaitAck ==> a in s.awaitAck
    ensures Stamped(t)
  {
    hide Stamped;
    StampedByOne(s, t, e);
  }

  lemma WaitsApart(q: seq<AwaitAck>, i: nat)
    requires i < |q| && Bag(PO.AwaitPid, q)[q[i].request.pid] <= 1
    ensures forall j :: 0 <= j < |q| && j != i ==> q[j].request.pid != q[i].request.pid
  {
    hide Bag;
    BagRemove(PO.AwaitPid, q, i);
    forall j | 0 <= j < |q| && j != i
      ensures q[j].request.pid != q[i].request.pid
    {
      var rest := RemoveAt(q, i);
      assert q[j] == rest[if j < i then j else j - 1];
      SL.AwaitIn(rest, q[j]);
    }
  }

  lemma StampedTransmit(s: Subs, now: int)
    requires Stamped(s) && s.sendRequest != [] && SL.Distinct(PO.SubPids(s))
    ensures Stamped(Transmit(s, now))
  {
    hide Stamped, Bag;
    var r := s.sendRequest[0];
    BagRemove(PO.RequestPid, s.sendRequest, 0);
    assert PO.SubPids(s)[r.pid] <= 1;
    forall e | e in s.awaitAck
      ensures e.request.pid != r.pid
    {
      SL.AwaitIn(s.awaitAck, e);
    }
    StampedByOne(s, Transmit(s, now), Sent(r, now));
  }

  lemma StampedRepeat(s: Subs, i: nat, due: int, now: int)
    requires Stamped(s) && Enabled(s, StepRepeat(i, due, now)) && SL.Distinct(PO.SubPids(s))
    ensures Stamped(Repeat(s, i, due, now))
  {
    hide Bag, Since;
    var e := s.awaitAck[i];
    assert e in s.awaitAck && PO.SubPids(s)[e.request.pid] <= 1;
    WaitsApart(s.awaitAck, i);
    var t := Repeat(s, i, due, now);
    assert t.log[..|s.log|] == s.log;
    assert LastAt(t.log[..|s.log|], e.request.pid, e.sent);
    StampedByOne(s, t, Resent(e.request, due, now));
  }

  lemma StampedStep(s: Subs, a: Step)
    requires Stamped(s) && Enabled(s, a) && SL.Distinct(PO.SubPids(s))
    ensures Stamped(Apply(s, a))
  {
    hide Stamped, Position, SL.Distinct, AnyFailure, PO.SubPids;
    match a {
      case StepAccept(r) => StampedQuiet(s, Admit(s, r), Accepted(r));
      case StepTransmit(now) => StampedTransmit(s, now);
      case StepRepeat(i, due, now) => StampedRepeat(s, i, due, now);
      case StepSuback(pid, codes) =>
        var i, u := SubackIndex(s, pid), s.(log := s.log + [GotSuback(pid, codes)]);
        StampedQuiet(s, u, GotSuback(pid, codes));
        if i < |s.awaitAck| {
          var r := s.awaitAck[i].request;
          var done := SubscribeDone(r, SubscribeResult(codes, r));
          assert u.log + [done] == s.log + [GotSuback(pid, codes), done];
          StampedQuiet(u, OnSuback(s, pid, codes), done);
        }
      case StepUnsuback(pid) =>
        var i, u := UnsubackIndex(s, pid), s.(log := s.log + [GotUnsuback(pid)]);
        StampedQuiet(s, u, GotUnsuback(pid));
        if i < |s.awaitAck| {
          var done := UnsubscribeDone(s.awaitAck[i].request);
          assert u.log + [done] == s.log + [GotUnsuback(pid), done];
          StampedQuiet(u, OnUnsuback(s, pid), done);
        }
    }
  }

  // ---- over every run ----

  lemma StampedSystemStep(g: PO.System, a: PO.Step)
    requires PO.Enabled(g, a) && PO.Inv(g) && Stamped(g.subs)
    ensures Stamped(PO.Apply(g, a).subs)
  {
    hide Stamped, PO.Ledger, PO.Balanced, PO.SubPids, Apply, Enabled, Admit, Position;
    hide PT.Faithful, PR.Inv, PM.Apply, PM.Enabled, SL.Distinct;
    Handshakes.SubPidsDistinct(g);
    if a.Request? {
      var r := SubRequest(a.topics, a.kind, Issued(g.pool).value, a.uid);
      Handshakes.AcceptIsStep(g.subs, r);
      StampedStep(g.subs, StepAccept(r));
    } else if a.SubscribeStep? {
      StampedStep(g.subs, a.subscribe);
    }
  }

  lemma {:induction false} StampedRun(g: PO.System, run: seq<PO.Step>)
    requires PO.CanRun(g, run) && PO.Inv(g) && Stamped(g.subs)
    ensures Stamped(PO.Run(g, run).subs)
    decreases |run|
  {
    hide PO.Inv, Stamped, PO.Enabled, PO.Apply;
    if run != [] {
      PO.InvStep(g, run[0]);
      StampedSystemStep(g, run[0]);
      StampedRun(PO.Apply(g, run[0]), run[1..]);
    }
  }

  lemma ReachableStamped(g: PO.System)
    requires PO.Reachable(g)
    ensures Stamped(g.subs)
  {
    hide PO.Inv;
    var cap: nat, wireTopicSize: nat, run :|
      PO.CanRun(PO.Init(cap, wireTopicSize), run) && PO.Run(PO.Init(cap, wireTopicSize), run) == g;
    PO.InvInit(cap, wireTopicSize);
    StampedRun(PO.Init(cap, wireTopicSize), run);
  }

  lemma LastWitness(log: seq<Event>, pid: Pid) returns (i: nat)
    requires Since(Carries(pid), log) != []
    ensures i < |log| && Carries(pid)(log[i]) && LastAt(log, pid, TimeOf(log[i]))
    ensures forall j :: i < j < |log| ==> !Carries(pid)(log[j])
  {
    hide Since;
    i := SinceAt(Carries(pid), log);
  }

  /** In every run a request is found overdue, and then repeated, more than 5000 ms
      after the latest earlier transmission of the same request. */
  lemma RepeatedLate(g: PO.System, k: nat) returns (earlier: nat)
    requires PO.Reachable(g) && k < |g.subs.log| && g.subs.log[k].Resent?
    ensures var log := g.subs.log;
      && earlier < k && Carries(log[k].request.pid)(log[earlier])
      && (forall j :: earlier < j < k ==> !Carries(log[k].request.pid)(log[j]))
      && log[k].due - TimeOf(log[earlier]) > 5000
  {
    hide PO.Reachable, Since;
    ReachableStamped(g);
    var log := g.subs.log;
    assert Late(log, k);
    earlier := LastWitness(log[..k], log[k].request.pid);
  }

  /** The time stamp of every waiting request is that of its latest transmission. */
  lemma StampIsLastTransmission(g: PO.System, e: AwaitAck) returns (last: nat)
    requires PO.Reachable(g) && e in g.subs.awaitAck
    ensures var log := g.subs.log;
      && last < |log| && Carries(e.request.pid)(log[last]) && TimeOf(log[last]) == e.sent
      && forall j :: last < j < |log| ==> !Carries(e.request.pid)(log[j])
  {
    hide PO.Reachable, Since;
    ReachableStamped(g);
    last := LastWitness(g.subs.log, e.request.pid);
  }

  /** While the clock stands still a pass repeats no request that it transmitted. */
  lemma OncePerPass(g: PO.System, l: Link, now: int, j: nat, k: nat)
    requires PO.Reachable(g)
    requires forall n :: l.clock(n) == now
    requires |g.subs.log| <= j < k < |Send(g.subs, l).state.log|
    requires Send(g.subs, l).state.log[k].Resent?
    ensures !Carries(Send(g.subs, l).state.log[k].request.pid)(Send(g.subs, l).state.log[j])
  {
    hide PO.Reachable, Send, SP.Ends;
    var log := Send(g.subs, l).state.log;
    SP.SendExact(g.subs, l);
    SR.SendSends(g.subs, l);
    SystemRuns.SubscribesSend(g, Send(g.subs, l).state);
    assert SP.OnClock(l.clock, log[k]);
    var earlier := RepeatedLate(g.(subs := Send(g.subs, l).state), k);
    assert earlier >= |g.subs.log| ==> SP.OnClock(l.clock, log[earlier]);
  }
}
