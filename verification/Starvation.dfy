/** When the subscribe requests hold up everything behind them: resends of
    requests that wait for an acknowledgement, and the ping. */
module Starvation {
  import opened Mqtt
  import opened Seqs
  import opened PacketLink
  import opened SubscribeModel
  import PM = PublishModel
  import PP = PublishPasses
  import RM = ReceiveModel
  import RT = ReceiveTheorems
  import States

  lemma {:induction false} SendAttempts(s: Subs, l: Link)
    ensures SendRequests(s, l).link.attempts >= l.attempts
    decreases |s.sendRequest|
  {
    if s.sendRequest != [] && |s.awaitAck| < s.cap {
      var packet := CreatePacket(s.wireTopicSize, s.sendRequest[0]);
      if packet.Some? && l.Answer(packet.value) == Accept {
        SendAttempts(Transmit(s, l.Write(packet.value).Now()), l.Write(packet.value));
      }
    }
  }

  lemma {:induction false} ResendAttempts(s: Subs, i: nat, now: int, l: Link)
    requires i <= |s.awaitAck|
    ensures ResendRequests(s, i, now, l).link.attempts >= l.attempts
    ensures ResendRequests(s, i, now, l).outcome == Ok(PartiallySent) ==>
      ResendRequests(s, i, now, l).link.attempts > l.attempts
    decreases |s.awaitAck| - i
  {
    if i < |s.awaitAck| {
      if now - s.awaitAck[i].sent <= RESEND_DURATION {
        ResendAttempts(s, i + 1, now, l);
      } else {
        var packet := CreatePacket(s.wireTopicSize, s.awaitAck[i].request);
        if packet.Some? && l.Answer(packet.value) == Accept {
          var m := l.Write(packet.value);
          ResendAttempts(Repeat(s, i, now, m.Now()), i + 1, now, m);
        }
      }
    }
  }

  /** A pass gives up without any attempt to write exactly in this state; no
      waiting request is repeated then, however old it is. */
  lemma BlockedExactly(s: Subs, l: Link)
    ensures Send(s, l) == Pass(s, l, Ok(PartiallySent)) <==> Blocked(s)
  {
    hide CreatePacket, ResendRequests;
    if !Blocked(s) {
      if s.sendRequest == [] {
        ResendAttempts(s, 0, l.Now(), l);
      } else {
        var packet := CreatePacket(s.wireTopicSize, s.sendRequest[0]);
        if packet.Some? && l.Answer(packet.value) == Accept {
          var m := l.Write(packet.value);
          SendAttempts(Transmit(s, m.Now()), m);
          var p := SendRequests(s, l);
          if p.outcome == Ok(SentAll) {
            ResendAttempts(p.state, 0, p.link.Now(), p.link);
          }
        }
      }
    }
  }

  // ---- over runs ----

  /** What can happen to the requests: a new one, an acknowledgement, a pass. */
  datatype Turn = Ask(r: SubRequest) | Subscribed(pid: Pid, codes: seq<ReturnCode>) | Unsubscribed(pid: Pid) | Sending(l: Link)

  function After(s: Subs, t: Turn): Subs {
    match t
    case Ask(r) => if |s.sendRequest| < s.cap then Admit(s, r) else s
    case Subscribed(pid, codes) => OnSuback(s, pid, codes)
    case Unsubscribed(pid) => OnUnsuback(s, pid)
    case Sending(l) => Send(s, l).state
  }

  /** An acknowledgement that some entry waits for. */
  predicate Answers(s: Subs, t: Turn) {
    match t
    case Subscribed(pid, _) => SubackIndex(s, pid) < |s.awaitAck|
    case Unsubscribed(pid) => UnsubackIndex(s, pid) < |s.awaitAck|
    case _ => false
  }

  /** Some turn answers an entry. */
  predicate SomeAnswer(s: Subs, turns: seq<Turn>)
    decreases |turns|
  {
    turns != [] && (Answers(s, turns[0]) || SomeAnswer(After(s, turns[0]), turns[1..]))
  }

  function AfterAll(s: Subs, turns: seq<Turn>): Subs
    decreases |turns|
  {
    if turns == [] then s else AfterAll(After(s, turns[0]), turns[1..])
  }

  /** The packets that the passes of a run hand to their connections. */
  function WrittenBy(s: Subs, t: Turn): seq<Packet> {
    match t
    case Sending(l) =>
      var p := Send(s, l).link.written;
      if |l.written| <= |p| then p[|l.written|..] else []
    case _ => []
  }

  function Written(s: Subs, turns: seq<Turn>): seq<Packet>
    decreases |turns|
  {
    if turns == [] then [] else WrittenBy(s, turns[0]) + Written(After(s, turns[0]), turns[1..])
  }

  /** One turn: a blocked machine leaves the state exactly by an answer. */
  lemma BlockedTurn(s: Subs, t: Turn)
    requires Blocked(s) && |s.awaitAck| == s.cap
    ensures Blocked(After(s, t)) <==> !Answers(s, t)
    ensures !Answers(s, t) ==> After(s, t).awaitAck == s.awaitAck && After(s, t).cap == s.cap && WrittenBy(s, t) == []
  {
    hide Position, AnyFailure, CreatePacket;
    if t.Sending? {
      BlockedExactly(s, t.l);
    }
  }

  /** Over any run: as long as nothing is answered the machine stays blocked, its
      waiting entries stay as they are, and not one packet is written. */
  lemma {:induction false} BlockedUntilAnswered(s: Subs, turns: seq<Turn>)
    requires Blocked(s) && |s.awaitAck| == s.cap && !SomeAnswer(s, turns)
    ensures Blocked(AfterAll(s, turns)) && AfterAll(s, turns).awaitAck == s.awaitAck
    ensures Written(s, turns) == []
    decreases |turns|
  {
    hide Blocked, After, Answers, WrittenBy;
    if turns != [] {
      BlockedTurn(s, turns[0]);
      BlockedUntilAnswered(After(s, turns[0]), turns[1..]);
    }
  }

  // ---- when a pass reaches its end ----

  /** Every request that is queued or waits can be written. */
  ghost predicate Writable(s: Subs) {
    && (forall r :: r in s.sendRequest ==> CreatePacket(s.wireTopicSize, r).Some?)
    && (forall e :: e in s.awaitAck ==> CreatePacket(s.wireTopicSize, e.request).Some?)
  }

  lemma {:induction false} SendRequestsEnds(s: Subs, l: Link)
    requires RT.Accepting(l) && Writable(s) && |s.awaitAck| <= s.cap
    ensures var p := SendRequests(s, l);
      && (p.outcome == Ok(SentAll) <==> |s.sendRequest| + |s.awaitAck| <= s.cap)
      && (p.outcome in {Ok(SentAll), Ok(PartiallySent)})
      && RT.Accepting(p.link) && Writable(p.state)
    decreases |s.sendRequest|
  {
    hide CreatePacket;
    if s.sendRequest != [] && |s.awaitAck| < s.cap {
      var r := s.sendRequest[0];
      assert r in s.sendRequest;
      var m := l.Write(CreatePacket(s.wireTopicSize, r).value);
      SendRequestsEnds(Transmit(s, m.Now()), m);
    }
  }

  lemma {:induction false} ResendRequestsEnds(s: Subs, i: nat, now: int, l: Link)
    requires RT.Accepting(l) && Writable(s) && i <= |s.awaitAck|
    ensures ResendRequests(s, i, now, l).outcome == Ok(SentAll) && RT.Accepting(ResendRequests(s, i, now, l).link)
    decreases |s.awaitAck| - i
  {
    hide CreatePacket;
    if i < |s.awaitAck| {
      assert s.awaitAck[i] in s.awaitAck;
      if now - s.awaitAck[i].sent <= RESEND_DURATION {
        ResendRequestsEnds(s, i + 1, now, l);
      } else {
        var m := l.Write(CreatePacket(s.wireTopicSize, s.awaitAck[i].request).value);
        ResendRequestsEnds(Repeat(s, i, now, m.Now()), i + 1, now, m);
      }
    }
  }

  /** On a connection that accepts everything, a pass sends everything exactly if
      all requests fit into the queue of waiting entries. */
  lemma SendEnds(s: Subs, l: Link)
    requires RT.Accepting(l) && Writable(s) && |s.awaitAck| <= s.cap
    ensures Send(s, l).outcome == Ok(SentAll) <==> |s.sendRequest| + |s.awaitAck| <= s.cap
    ensures Send(s, l).outcome in {Ok(SentAll), Ok(PartiallySent)} && RT.Accepting(Send(s, l).link)
  {
    hide SendRequests, ResendRequests, Writable;
    SendRequestsEnds(s, l);
    var p := SendRequests(s, l);
    if p.outcome == Ok(SentAll) {
      ResendRequestsEnds(p.state, 0, p.link.Now(), p.link);
    }
  }

  lemma StillAccepting(s: PM.Sender, l: Link, p: Pass<PM.Sender>)
    requires RT.Accepting(l) && PP.Accounts(s, l, p.state, p.link)
    ensures RT.Accepting(p.link)
  {
  }

  /** The ping gets its turn exactly if all requests fit: otherwise, on the best
      of connections, the chain of run_once stops before it, and no PINGREQ can
      be written in time for the keep-alive. */
  lemma PingGetsItsTurn(q: States.Queues)
    requires RT.Accepting(q.link) && PM.SendPackets(q.publishes, q.link).outcome == Ok(SentAll)
    requires Writable(q.subscribes) && |q.subscribes.awaitAck| <= q.subscribes.cap
    ensures States.SendQueues(q).1 == Ok(SentAll) <==>
      |q.subscribes.sendRequest| + |q.subscribes.awaitAck| <= q.subscribes.cap
    ensures States.SendQueues(q).1 != Ok(SentAll) ==> States.SendQueues(q).0.ping == q.ping
  {
    hide Send, PM.SendPackets, RM.SendPackets, Writable, PP.Accounts;
    var p := PM.SendPackets(q.publishes, q.link);
    PP.SendPacketsExact(q.publishes, q.link);
    StillAccepting(q.publishes, q.link, p);
    var d := RM.SendPackets(q.received, p.link);
    RT.OnePass(q.received, p.link);
    SendEnds(q.subscribes, d.link);
  }

  /** While the requests are blocked, no number of passes over any connections
      changes the state of the ping. */
  lemma BlockedStarvesPing(q: States.Queues)
    requires Blocked(q.subscribes)
    ensures var t := States.SendQueues(q).0;
      t.ping == q.ping && t.subscribes == q.subscribes
    ensures States.SendQueues(q).1 != Ok(SentAll)
  {
    hide Send, PM.SendPackets, RM.SendPackets;
    var p := PM.SendPackets(q.publishes, q.link);
    var d := RM.SendPackets(q.received, p.link);
    BlockedExactly(q.subscribes, d.link);
  }
}
