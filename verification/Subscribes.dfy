/** The queues of src/state/sub2.rs as a mutable object, proved against
    `SubscribeModel`; every object is in a reachable state. */
module Subscribes {
  import opened Mqtt
  import opened Seqs
  import opened PacketLink
  import opened PidPools
  import SM = SubscribeModel
  import SR = SubscribeRuns

  class SubsInner {
    const cap: nat
    const topicSize: nat
    const wireTopicSize: nat
    var sendRequest: seq<SM.SubRequest>
    var awaitAck: seq<SM.AwaitAck>
    ghost var log: seq<SM.Event>

    ghost function View(): SM.Subs
      reads this
    {
      SM.Subs(cap, wireTopicSize, sendRequest, awaitAck, log)
    }

    ghost predicate Valid()
      reads this
    {
      SM.Reachable(View())
    }

    constructor (cap: nat, topicSize: nat, wireTopicSize: nat)
      ensures View() == SM.Init(cap, wireTopicSize) && this.topicSize == topicSize && Valid()
    {
      this.cap, this.topicSize, this.wireTopicSize := cap, topicSize, wireTopicSize;
      sendRequest, awaitAck := [], [];
      log := [];
      new;
      SR.InitReachable(cap, wireTopicSize);
    }

    /** Whether the topics can be copied into a request at all. */
    predicate Copyable(topics: seq<string>)
    {
      |topics| <= SM.MAX_TOPICS && forall i :: 0 <= i < |topics| ==> |topics[i]| <= topicSize
    }

    /** One poll of add_subscribe_request or add_unsubscribe_request. */
    method AddRequest(topics: seq<string>, kind: SM.RequestType, uid: UniqueId, pool: PidPool)
      returns (r: Outcome<()>)
      modifies this, pool
      ensures r == if |old(sendRequest)| >= cap then Pending
                   else if !Copyable(topics) || Issued(old(pool.View())).None? then Panic
                   else Ok(())
      ensures r == Ok(()) ==>
        && View() == SM.Admit(old(View()), SM.SubRequest(topics, kind, Issued(old(pool.View())).value, uid))
        && pool.View() == Taken(old(pool.View()))
      ensures r != Ok(()) ==> View() == old(View()) && pool.View() == old(pool.View())
      ensures old(Valid()) ==> Valid()
    {
      ghost var before := View();
      if |sendRequest| >= cap {
        return Pending;
      }
      if !Copyable(topics) {
        return Panic;
      }
      var pid := pool.NextPid();
      if pid.Panic? {
        return Panic;
      }
      var request := SM.SubRequest(topics, kind, pid.value, uid);
      sendRequest := sendRequest + [request];
      log := log + [SM.Event.Accepted(request)];
      r := Ok(());
      if SM.Reachable(before) {
        SR.StepReachable(before, SM.StepAccept(request));
      }
    }

    method SendRequests(connection: Connection) returns (r: Outcome<SendResult>)
      requires connection.Valid()
      modifies this, connection
      ensures connection.Valid()
      ensures Pass(View(), connection.View(), r) == SM.SendRequests(old(View()), old(connection.View()))
    {
      hide Connection.Valid;
      while sendRequest != []
        invariant connection.Valid()
        invariant SM.SendRequests(View(), connection.View()) == SM.SendRequests(old(View()), old(connection.View()))
        decreases |sendRequest|
      {
        var request := sendRequest[0];
        if |awaitAck| >= cap {
          return Ok(PartiallySent);
        }
        var packet := SM.CreatePacket(wireTopicSize, request);
        if packet.None? {
          return Err(TopicSizeError);
        }
        var sent := connection.TryWritePacket(packet.value);
        match sent {
          case Err(e) => return Err(e);
          case Ok(taken) =>
            if !taken {
              return Ok(PartiallySent);
            }
        }
        var now := connection.Now();
        sendRequest := sendRequest[1..];
        awaitAck := awaitAck + [SM.AwaitAck(request, now)];
        log := log + [SM.Sent(request, now)];
      }
      r := Ok(SentAll);
    }

    method ResendRequests(connection: Connection) returns (r: Outcome<SendResult>)
      requires connection.Valid()
      modifies this, connection
      ensures connection.Valid()
      ensures Pass(View(), connection.View(), r)
           == SM.ResendRequests(old(View()), 0, old(connection.View()).Now(), old(connection.View()))
    {
      hide Connection.Valid;
      var now := connection.Now();
      var i := 0;
      while i < |awaitAck|
        invariant connection.Valid()
        invariant i <= |awaitAck|
        invariant SM.ResendRequests(View(), i, now, connection.View())
               == SM.ResendRequests(old(View()), 0, now, old(connection.View()))
      {
        var pending := awaitAck[i];
        if now - pending.sent > SM.RESEND_DURATION {
          var packet := SM.CreatePacket(wireTopicSize, pending.request);
          if packet.None? {
            return Err(TopicSizeError);
          }
          var sent := connection.TryWritePacket(packet.value);
          match sent {
            case Err(e) => return Err(e);
            case Ok(taken) =>
              if !taken {
                return Ok(PartiallySent);
              }
          }
          var sentNow := connection.Now();
          awaitAck := awaitAck[i := pending.(sent := sentNow)];
          log := log + [SM.Resent(pending.request, now, sentNow)];
        }
        i := i + 1;
      }
      r := Ok(SentAll);
    }

    method Send(connection: Connection) returns (r: Outcome<SendResult>)
      requires connection.Valid()
      modifies this, connection
      ensures connection.Valid()
      ensures Pass(View(), connection.View(), r) == SM.Send(old(View()), old(connection.View()))
      ensures old(Valid()) ==> Valid()
    {
      hide Connection.Valid;
      ghost var before, link := View(), connection.View();
      r := SendRequests(connection);
      if r == Ok(SentAll) {
        r := ResendRequests(connection);
      }
      if SM.Reachable(before) {
        SR.SendReachable(before, link);
      }
    }

    method OnSuback(pid: Pid, codes: seq<ReturnCode>, pool: PidPool)
      modifies this, pool
      ensures View() == SM.OnSuback(old(View()), pid, codes)
      ensures pool.View() == if SM.SubackIndex(old(View()), pid) < |old(awaitAck)|
                             then Returned(old(pool.View()), pid) else old(pool.View())
      ensures old(Valid()) ==> Valid()
    {
      ghost var before := View();
      var index := Position(awaitAck, SM.SubscribedWith(pid));
      log := log + [SM.GotSuback(pid, codes)];
      if index < |awaitAck| {
        pool.FreePid(pid);
        var request := awaitAck[index].request;
        awaitAck := RemoveAt(awaitAck, index);
        var result := CheckSuback(codes, request);
        log := log + [SM.SubscribeDone(request, result)];
      }
      if SM.Reachable(before) {
        SR.StepReachable(before, SM.StepSuback(pid, codes));
      }
    }

    /** The result that the SubscribeDone event carries: an error as soon as one
        of the paired return codes is a failure. */
    static method CheckSuback(codes: seq<ReturnCode>, request: SM.SubRequest) returns (result: Outcome<QoS>)
      requires request.kind.SubscribeTo?
      ensures result == Err(SubscribeOrUnsubscribeFailed)
         <==> exists i :: 0 <= i < |codes| && i < |request.topics| && codes[i] == Failure
      ensures result.Err? || result == Ok(request.kind.qos)
      ensures result == SM.SubscribeResult(codes, request)
    {
      var i := 0;
      while i < |codes| && i < |request.topics|
        invariant forall j :: 0 <= j < i ==> j < |codes| && j < |request.topics| && codes[j] != Failure
      {
        if codes[i] == Failure {
          return Err(SubscribeOrUnsubscribeFailed);
        }
        i := i + 1;
      }
      result := Ok(request.kind.qos);
    }

    method OnUnsuback(pid: Pid, pool: PidPool)
      modifies this, pool
      ensures View() == SM.OnUnsuback(old(View()), pid)
      ensures pool.View() == if SM.UnsubackIndex(old(View()), pid) < |old(awaitAck)|
                             then Returned(old(pool.View()), pid) else old(pool.View())
      ensures old(Valid()) ==> Valid()
    {
      ghost var before := View();
      var index := Position(awaitAck, SM.UnsubscribedWith(pid));
      log := log + [SM.GotUnsuback(pid)];
      if index < |awaitAck| {
        var request := awaitAck[index].request;
        awaitAck := RemoveAt(awaitAck, index);
        pool.FreePid(request.pid);
        log := log + [SM.UnsubscribeDone(request)];
      }
      if SM.Reachable(before) {
        SR.StepReachable(before, SM.StepUnsuback(pid));
      }
    }
  }
}
