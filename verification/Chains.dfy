/** What the chain of run_once does: which component has its turn, what all of
    them write, and with which result (src/state/mod.rs:174-177). */
module Chains {
  import opened Mqtt
  import opened Seqs
  import opened PacketLink
  import opened States
  import PM = PublishModel
  import PP = PublishPasses
  import RM = ReceiveModel
  import RP = ReceivePasses
  import RT = ReceiveTheorems
  import SM = SubscribeModel
  import SP = SubscribePasses
  import PO = PidOwnership
  import Pings

  /** A component has its turn exactly if every one before it sent everything; a
      component without a turn is left alone, and the chain sent everything exactly
      if all four did. */
  lemma ChainTurns(q: Queues)
    ensures var (t, r) := SendQueues(q);
      var p := PM.SendPackets(q.publishes, q.link);
      var d := RM.SendPackets(q.received, p.link);
      var u := SM.Send(q.subscribes, d.link);
      var k := Pings.SendPing(q.ping, u.link);
      var second := p.outcome == Ok(SentAll);
      var third := second && d.outcome == Ok(SentAll);
      var fourth := third && u.outcome == Ok(SentAll);
      && t.publishes == p.state
      && t.received == (if second then d.state else q.received)
      && t.subscribes == (if third then u.state else q.subscribes)
      && t.ping == (if fourth then k.state else q.ping)
      && t.link == (if fourth then k.link else if third then u.link else if second then d.link else p.link)
      && r == (if fourth then k.outcome else if third then u.outcome else if second then d.outcome else p.outcome)
      && (r == Ok(SentAll) <==> fourth && k.outcome == Ok(SentAll))
  {
    hide PM.SendPackets, RM.SendPackets, SM.Send, Pings.SendPing;
  }

  /** A PINGREQ is written exactly if it is due and accepted. */
  lemma PingExact(s: Pings.PingStateInner, l: Link)
    ensures var k := Pings.SendPing(s, l);
      && EndsAsAnswered(l, k) && k.outcome != Panic
      && (k.link.attempts > l.attempts <==> s.Due(l.Now()))
      && ((k.link.written == l.written && k.state == s)
          || (k.link.written == l.written + [Pingreq] && s.Due(l.Now()) && k.state == s.Requested(l.Now())))
  {
  }

  /** What one call wrote: the packets of the publishes, of the receiver and of the
      requests, as their histories record them, then at most one PINGREQ. */
  datatype Written = Written(publishes: seq<Packet>, received: seq<Packet>, requests: seq<Packet>, ping: seq<Packet>)
  {
    function All(): seq<Packet> { publishes + received + requests + ping }
  }

  /** The packets are those that the four histories gained, in this order. */
  ghost predicate Records(q: Queues, t: Queues, w: Written) {
    && t.link.written == q.link.written + w.All()
    && q.publishes.log <= t.publishes.log
    && w.publishes == FlatMap(PP.Transmission, t.publishes.log[|q.publishes.log|..])
    && q.received.log <= t.received.log
    && w.received == FlatMap(RP.Transmission, t.received.log[|q.received.log|..])
    && q.subscribes.log <= t.subscribes.log
    && SP.AskAll(w.requests, FlatMap(SP.Transmitted, t.subscribes.log[|q.subscribes.log|..]))
    && ((w.ping == [] && t.ping == q.ping) || (w.ping == [Pingreq] && t.ping.AwaitingResponse?))
  }

  lemma NothingRecorded(q: Queues)
    ensures FlatMap(PP.Transmission, q.publishes.log[|q.publishes.log|..]) == []
    ensures FlatMap(RP.Transmission, q.received.log[|q.received.log|..]) == []
    ensures SP.AskAll([], FlatMap(SP.Transmitted, q.subscribes.log[|q.subscribes.log|..]))
  {
  }

  lemma PublishesWrite(s: PM.Sender, l: Link)
    ensures var p := PM.SendPackets(s, l);
      && s.log <= p.state.log
      && p.link.written == l.written + FlatMap(PP.Transmission, p.state.log[|s.log|..])
  {
    PP.SendPacketsExact(s, l);
  }

  lemma ReceiverWrites(s: RM.Receiver, l: Link)
    ensures var d := RM.SendPackets(s, l);
      && s.log <= d.state.log
      && d.link.written == l.written + FlatMap(RP.Transmission, d.state.log[|s.log|..])
  {
    RP.SendPacketsExact(s, l);
  }

  lemma RequestsWrite(s: SM.Subs, l: Link) returns (requests: seq<Packet>)
    ensures var u := SM.Send(s, l);
      && s.log <= u.state.log && u.link.written == l.written + requests
      && SP.AskAll(requests, FlatMap(SP.Transmitted, u.state.log[|s.log|..]))
  {
    hide SP.AskAll, FlatMap;
    SP.SendExact(s, l);
    requests := SM.Send(s, l).link.written[|l.written|..];
  }

  lemma PingWrites(s: Pings.PingStateInner, l: Link) returns (ping: seq<Packet>)
    ensures var k := Pings.SendPing(s, l);
      && k.link.written == l.written + ping
      && ((ping == [] && k.state == s) || (ping == [Pingreq] && k.state.AwaitingResponse?))
  {
    ping := if Pings.SendPing(s, l).link.written == l.written then [] else [Pingreq];
  }

  /** One call of the chain, on any connection: what was written are the packets
      that the histories gained. */
  lemma ChainWrites(q: Queues) returns (w: Written)
    ensures Records(q, SendQueues(q).0, w)
  {
    hide PM.SendPackets, RM.SendPackets, SM.Send, Pings.SendPing, SendQueues, FlatMap, SP.AskAll;
    ChainTurns(q);
    NothingRecorded(q);
    PublishesWrite(q.publishes, q.link);
    var t, p := SendQueues(q).0, PM.SendPackets(q.publishes, q.link);
    w := Written(FlatMap(PP.Transmission, t.publishes.log[|q.publishes.log|..]), [], [], []);
    if p.outcome == Ok(SentAll) {
      var d := RM.SendPackets(q.received, p.link);
      ReceiverWrites(q.received, p.link);
      w := w.(received := FlatMap(RP.Transmission, t.received.log[|q.received.log|..]));
      if d.outcome == Ok(SentAll) {
        var u := SM.Send(q.subscribes, d.link);
        var requests := RequestsWrite(q.subscribes, d.link);
        w := w.(requests := requests);
        if u.outcome == Ok(SentAll) {
          var ping := PingWrites(q.ping, u.link);
          w := w.(ping := ping);
        }
      }
    }
  }

  // ---- the result ----

  lemma PublishesEnd(s: PM.Sender, l: Link)
    ensures EndsAsAnswered(l, PM.SendPackets(s, l))
  {
    hide PM.SendPackets, EndsAsAnswered;
    PP.SendPacketsExact(s, l);
  }

  lemma ReceiverEnds(s: RM.Receiver, l: Link)
    ensures EndsAsAnswered(l, RM.SendPackets(s, l)) && RM.SendPackets(s, l).outcome != Panic
  {
    hide RM.SendPackets, EndsAsAnswered;
    RP.SendPacketsExact(s, l);
    RP.NeverPanics(s, l);
  }

  /** After a part that was accepted, the whole ends as the rest does. */
  lemma StoppedLater(l: Link, m: Link, n: Link)
    requires AllAccepted(l, m) && l.attempts <= m.attempts
    requires 0 <= |n.written| - |m.written| <= n.attempts - m.attempts
    ensures AllAccepted(l, n) <==> AllAccepted(m, n)
    ensures forall a :: Stopped(l, n, a) <==> Stopped(m, n, a)
  {
  }

  lemma ThenEnds<S>(l: Link, m: Link, p: Pass<S>)
    requires AllAccepted(l, m) && l.attempts <= m.attempts && (m.attempts == l.attempts ==> m.last == l.last)
    requires 0 <= |m.written| - |l.written|
    requires EndsAsAnswered(m, p)
    ensures EndsAsAnswered(l, p)
  {
    hide Stopped;
    StoppedLater(l, m, p.link);
  }

  lemma RequestsEnd(s: SM.Subs, l: Link)
    ensures var u := SM.Send(s, l);
      && (u.outcome == Ok(SentAll) ==> AllAccepted(l, u.link))
      && (u.outcome == Ok(PartiallySent) <==>
            Stopped(l, u.link, Refuse) || (AllAccepted(l, u.link) && SM.Blocked(u.state)))
      && (forall e :: u.outcome == Err(e) ==>
            Stopped(l, u.link, Fail(e)) || (AllAccepted(l, u.link) && e == TopicSizeError && SP.SomeTooLong(u.state)))
      && (forall e :: Stopped(l, u.link, Fail(e)) ==> u.outcome == Err(e))
      && u.outcome != Panic && u.outcome != Pending
      && 0 <= |u.link.written| - |l.written| <= u.link.attempts - l.attempts
      && (u.link.attempts == l.attempts ==> u.link.last == l.last)
  {
    hide SM.Send, SP.AskAll, FlatMap, SP.TooLong;
    SP.SendExact(s, l);
  }

  /** The result of one call, on any connection: SentAll only if every attempt was
      accepted, PartiallySent exactly if the last one was refused or the requests
      are blocked, and an error exactly for a failing connection or a topic of a
      request that is too long. */
  lemma ChainResult(q: Queues)
    ensures var (t, r) := SendQueues(q);
      var p := PM.SendPackets(q.publishes, q.link);
      var third := p.outcome == Ok(SentAll) && RM.SendPackets(q.received, p.link).outcome == Ok(SentAll);
      && (r == Ok(SentAll) ==> AllAccepted(q.link, t.link))
      && (r == Ok(PartiallySent) <==>
            Stopped(q.link, t.link, Refuse)
            || (third && AllAccepted(q.link, t.link) && SM.Blocked(t.subscribes)))
      && (forall e :: r == Err(e) ==>
            Stopped(q.link, t.link, Fail(e))
            || (third && AllAccepted(q.link, t.link) && e == TopicSizeError && SP.SomeTooLong(t.subscribes)))
      && (forall e :: Stopped(q.link, t.link, Fail(e)) ==> r == Err(e))
      && (r == Panic <==> p.outcome == Panic)
      && r != Pending
  {
    hide PM.SendPackets, RM.SendPackets, SM.Send, Pings.SendPing, SendQueues, SM.Blocked, SP.SomeTooLong;
    ChainTurns(q);
    var p := PM.SendPackets(q.publishes, q.link);
    PublishesEnd(q.publishes, q.link);
    var d := RM.SendPackets(q.received, p.link);
    ReceiverEnds(q.received, p.link);
    if p.outcome == Ok(SentAll) {
      ThenEnds(q.link, p.link, d);
      if d.outcome == Ok(SentAll) {
        var u := SM.Send(q.subscribes, d.link);
        RequestsEnd(q.subscribes, d.link);
        StoppedLater(q.link, d.link, u.link);
        if u.outcome == Ok(SentAll) {
          PingExact(q.ping, u.link);
          ThenEnds(q.link, u.link, Pings.SendPing(q.ping, u.link));
        }
      }
    }
  }

  /** After SentAll on a connection that accepts everything, the receiver has
      written the acknowledgements at even positions and keeps those at odd ones. */
  lemma SentAllAcknowledges(q: Queues)
    requires RT.Accepting(q.link) && SendQueues(q).1 == Ok(SentAll)
    ensures SendQueues(q).0.received.sendPuback == RT.Odds(q.received.sendPuback)
    ensures SendQueues(q).0.received.sendPubcomp == RT.Odds(q.received.sendPubcomp)
  {
    hide PM.SendPackets, RM.SendPackets, SM.Send, Pings.SendPing, SendQueues, RT.Odds;
    ChainTurns(q);
    PP.SendPacketsExact(q.publishes, q.link);
    RT.OnePass(q.received, PM.SendPackets(q.publishes, q.link).link);
  }

  // ---- received packets ----

  /** The result of handling a packet, kind by kind. */
  lemma PacketResults(s: PM.Sender, d: RM.Receiver, p: Packet)
    ensures p.Pingresp? || p.Suback? || p.Unsuback? ==> ProcessResult(s, d, p) == Ok(())
    ensures p.Connect? || p.Subscribe? || p.Unsubscribe? || p.Pingreq? || p.Disconnect? ==> ProcessResult(s, d, p) == Ok(())
    ensures p.Connack? <==> ProcessResult(s, d, p) == Panic
    ensures p.Puback? ==>
      if exists e :: e in s.awaitPuback && e.pid == p.pid then ProcessResult(s, d, p) == Ok(())
      else ProcessResult(s, d, p) == Err(UnexpectedAck(p.pid))
    ensures p.Pubcomp? ==>
      if exists e :: e in s.awaitPubcomp && e.pid == p.pid then ProcessResult(s, d, p) == Ok(())
      else ProcessResult(s, d, p) == Err(UnexpectedAck(p.pid))
    ensures p.Pubrec? ==>
      if |s.sendPubrel| < s.cap then ProcessResult(s, d, p) == Ok(())
      else ProcessResult(s, d, p) == Err(QueueFull(ExactlyOnce(p.pid)))
    ensures p.Pubrel? ==>
      if |d.sendPubcomp| < d.cap then ProcessResult(s, d, p) == Ok(())
      else ProcessResult(s, d, p) == Err(QueueFull(AtLeastOnce(p.pid)))
    ensures p.Publish? ==>
      var fits := |p.m.topic| <= d.limits.topicSize && |p.m.payload| <= d.limits.bufferSize;
      ProcessResult(s, d, p) == Ok(()) <==>
        match p.m.qospid
        case AtMostOnce => fits
        case AtLeastOnce(_) => fits && |d.sendPuback| < d.cap
        case ExactlyOnce(pid) =>
          |d.sendPubrec| < d.cap
          && (fits || pid in d.awaitPubrel || pid in d.sendPubrec || pid in d.sendPubcomp)
  {
    hide Position;
    match p {
      case Puback(pid) =>
        if e :| e in s.awaitPuback && e.pid == pid {
          var i :| 0 <= i < |s.awaitPuback| && s.awaitPuback[i] == e;
          assert PM.WaitsFor(pid)(s.awaitPuback[i]);
        }
      case Pubcomp(pid) =>
        if e :| e in s.awaitPubcomp && e.pid == pid {
          var i :| 0 <= i < |s.awaitPubcomp| && s.awaitPubcomp[i] == e;
          assert PM.WaitsForComp(pid)(s.awaitPubcomp[i]);
        }
      case _ =>
    }
  }

  /** An acknowledgement reaches the history of its component with its identifier,
      and a SUBACK with its return codes; no other packet touches these queues. */
  lemma AcknowledgementArrives(g: PO.System, p: Packet)
    ensures State.OnPacket(p).None? <==> !(p.Puback? || p.Pubrec? || p.Pubcomp? || p.Suback? || p.Unsuback?)
    ensures State.OnPacket(p).Some? ==> PO.Enabled(g, State.OnPacket(p).value)
    ensures State.OnPacket(p).Some? ==>
      var t, n, k := PO.Apply(g, State.OnPacket(p).value), |g.publishes.log|, |g.subs.log|;
      && (p.Puback? ==> |t.publishes.log| > n && t.publishes.log[n] == PM.GotPuback(p.pid) && t.subs == g.subs)
      && (p.Pubrec? ==> |t.publishes.log| > n && t.publishes.log[n] == PM.GotPubrec(p.pid) && t.subs == g.subs)
      && (p.Pubcomp? ==> |t.publishes.log| > n && t.publishes.log[n] == PM.GotPubcomp(p.pid) && t.subs == g.subs)
      && (p.Suback? ==> |t.subs.log| > k && t.subs.log[k] == SM.GotSuback(p.pid, p.codes) && t.publishes == g.publishes)
      && (p.Unsuback? ==> |t.subs.log| > k && t.subs.log[k] == SM.GotUnsuback(p.pid) && t.publishes == g.publishes)
  {
    hide Position, SM.AnyFailure;
  }
}
