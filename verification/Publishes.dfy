/** The queues of src/state/publish2.rs as a mutable object. Every method is
    proved against the functions of `PublishModel`, and every object is in a
    state that a run of the smallest steps reaches. */
module Publishes {
  import opened Mqtt
  import opened Seqs
  import opened PacketLink
  import opened PidPools
  import PM = PublishModel
  import PR = PublishRuns

  /** SendResult::next and next_sync continue only after SentAll. */
  predicate Continues(r: Outcome<SendResult>) {
    r == Ok(SentAll)
  }

  class PublishesInner {
    const cap: nat
    const bufferSize: nat
    const topicSize: nat
    var sendPublish: seq<PM.OwnedPublish>
    var awaitPuback: seq<PM.AwaitAck>
    var awaitPubrec: seq<PM.AwaitAck>
    var sendPubrel: seq<PM.PubrelEntry>
    var awaitPubcomp: seq<PM.AwaitPubcomp>
    ghost var log: seq<PM.Event>

    ghost function View(): PM.Sender
      reads this
    {
      PM.Sender(cap, sendPublish, awaitPuback, awaitPubrec, sendPubrel, awaitPubcomp, log)
    }

    /** The state is one that a run of the smallest steps reaches, so that
        everything proved about reachable states holds of this object. */
    ghost predicate Valid()
      reads this
    {
      PM.Reachable(View())
    }

    constructor (cap: nat, bufferSize: nat, topicSize: nat)
      ensures View() == PM.Init(cap) && Valid()
      ensures this.bufferSize == bufferSize && this.topicSize == topicSize
    {
      this.cap, this.bufferSize, this.topicSize := cap, bufferSize, topicSize;
      sendPublish, awaitPuback, awaitPubrec, sendPubrel, awaitPubcomp := [], [], [], [], [];
      log := [];
      new;
      PR.InitReachable(cap);
    }

    /** One poll of Publishes::publish: pending while the queue is full; a topic
        or payload that does not fit makes the caller's unwrap panic. */
    method Publish(m: Message, uid: UniqueId) returns (r: Outcome<()>)
      modifies this
      ensures r == if |old(sendPublish)| >= cap then Pending
                   else if |m.topic| > topicSize || |m.payload| > bufferSize then Panic
                   else Ok(())
      ensures View() == if r.Ok? then PM.Admit(old(View()), PM.OwnedPublish(m, uid)) else old(View())
      ensures (View(), r) ==
        var (s, a) := PM.TryPublish(old(View()), topicSize, bufferSize, m, uid); (s, PM.Unwrapped(a))
      ensures old(Valid()) ==> Valid()
    {
      ghost var before := View();
      if |sendPublish| >= cap {
        return Pending;
      }
      if |m.topic| > topicSize || |m.payload| > bufferSize {
        return Panic;
      }
      var pub := PM.OwnedPublish(m, uid);
      sendPublish := sendPublish + [pub];
      log := log + [PM.Accepted(pub)];
      r := Ok(());
      if PM.Reachable(before) {
        PR.StepReachable(before, PM.StepAdmit(PM.OwnedPublish(m, uid)));
      }
    }

    method ProcessPuback(pid: Pid, pool: PidPool) returns (r: Outcome<()>)
      modifies this, pool
      ensures View() == PM.OnPuback(old(View()), pid)
      ensures var known := PM.PubackIndex(old(View()), pid) < |old(awaitPuback)|;
              && r == (if known then Ok(()) else Err(UnexpectedAck(pid)))
              && pool.View() == (if known then Returned(old(pool.View()), pid) else old(pool.View()))
      ensures old(Valid()) ==> Valid()
    {
      ghost var before := View();
      var index := Position(awaitPuback, PM.WaitsFor(pid));
      log := log + [PM.GotPuback(pid)];
      if index < |awaitPuback| {
        var publish := awaitPuback[index];
        awaitPuback := RemoveAt(awaitPuback, index);
        pool.FreePid(publish.pid);
        log := log + [PM.Done(publish.publish.uid, AtLeastOnce(publish.pid))];
        r := Ok(());
      } else {
        r := Err(UnexpectedAck(pid));
      }
      if PM.Reachable(before) {
        PR.StepReachable(before, PM.StepPuback(pid));
      }
    }

    method ProcessPubrec(pid: Pid) returns (r: Outcome<()>)
      modifies this
      ensures View() == PM.OnPubrec(old(View()), pid)
      ensures r == if |old(sendPubrel)| < cap then Ok(()) else Err(QueueFull(ExactlyOnce(pid)))
      ensures old(Valid()) ==> Valid()
    {
      ghost var before := View();
      var index := Position(awaitPubrec, PM.WaitsFor(pid));
      log := log + [PM.GotPubrec(pid)];
      var entry := PM.PubrelEntry(pid, None);
      if index < |awaitPubrec| {
        var awaiting := awaitPubrec[index];
        awaitPubrec := RemoveAt(awaitPubrec, index);
        entry := PM.PubrelEntry(awaiting.pid, Some(awaiting.publish.uid));
      }
      if |sendPubrel| < cap {
        sendPubrel := sendPubrel + [entry];
        r := Ok(());
      } else {
        if entry.uid.Some? {
          log := log + [PM.Lost(entry.uid.value, pid)];
        }
        r := Err(QueueFull(ExactlyOnce(pid)));
      }
      if PM.Reachable(before) {
        PR.StepReachable(before, PM.StepPubrec(pid));
      }
    }

    method ProcessPubcomp(pid: Pid, pool: PidPool) returns (r: Outcome<()>)
      modifies this, pool
      ensures View() == PM.OnPubcomp(old(View()), pid)
      ensures var known := PM.PubcompIndex(old(View()), pid) < |old(awaitPubcomp)|;
              && r == (if known then Ok(()) else Err(UnexpectedAck(pid)))
              && pool.View() == (if known then Returned(old(pool.View()), pid) else old(pool.View()))
      ensures old(Valid()) ==> Valid()
    {
      ghost var before := View();
      var index := Position(awaitPubcomp, PM.WaitsForComp(pid));
      log := log + [PM.GotPubcomp(pid)];
      if index < |awaitPubcomp| {
        var publish := awaitPubcomp[index];
        awaitPubcomp := RemoveAt(awaitPubcomp, index);
        pool.FreePid(publish.pid);
        log := log + [PM.Done(publish.uid, ExactlyOnce(publish.pid))];
        r := Ok(());
      } else {
        r := Err(UnexpectedAck(pid));
      }
      if PM.Reachable(before) {
        PR.StepReachable(before, PM.StepPubcomp(pid));
      }
    }

    /** A transmitted publish moves to the queue of its class. */
    method MoveOn(i: nat, now: int)
      requires i < |sendPublish|
      modifies this
      ensures View() == PM.Transmit(old(View()), i, now)
    {
      var current := sendPublish[i];
      sendPublish := RemoveAt(sendPublish, i);
      log := log + [PM.Sent(current, now)];
      current := current.MarkDup();
      match current.m.qospid {
        case AtMostOnce =>
          log := log + [PM.Done(current.uid, AtMostOnce)];
        case AtLeastOnce(pid) =>
          awaitPuback := awaitPuback + [PM.AwaitAck(pid, current, now)];
        case ExactlyOnce(pid) =>
          awaitPubrec := awaitPubrec + [PM.AwaitAck(pid, current, now)];
      }
    }

    method SendPendingPublishes(connection: Connection) returns (r: Outcome<SendResult>)
      requires connection.Valid()
      modifies this, connection
      ensures connection.Valid()
      ensures Pass(View(), connection.View(), r) == PM.SendPublishes(old(View()), 0, old(connection.View()))
    {
      hide Connection.Valid;
      var i := 0;
      while i < |sendPublish|
        invariant connection.Valid()
        invariant i <= |sendPublish|
        invariant PM.SendPublishes(View(), i, connection.View())
               == PM.SendPublishes(old(View()), 0, old(connection.View()))
        decreases |sendPublish| - i
      {
        var current := sendPublish[i];
        var hasSpace := match current.m.qospid
          case AtMostOnce => true
          case AtLeastOnce(_) => |awaitPuback| < cap
          case ExactlyOnce(_) => |awaitPubrec| < cap;
        if hasSpace {
          var sent := connection.TryWritePacket(Packet.Publish(current.m));
          match sent {
            case Err(e) => return Err(e);
            case Ok(taken) =>
              if !taken {
                return Ok(PartiallySent);
              }
          }
          var now := connection.Now();
          MoveOn(i, now);
        } else {
          i := i + 1;
        }
      }
      r := Ok(SentAll);
    }

    method SendPendingPubrel(connection: Connection) returns (r: Outcome<SendResult>)
      requires connection.Valid()
      modifies this, connection
      ensures connection.Valid()
      ensures Pass(View(), connection.View(), r) == PM.SendPubrels(old(View()), 0, old(connection.View()))
    {
      hide Connection.Valid;
      var i := 0;
      while i < |sendPubrel|
        invariant connection.Valid()
        invariant i <= |sendPubrel|
        invariant PM.SendPubrels(View(), i, connection.View())
               == PM.SendPubrels(old(View()), 0, old(connection.View()))
        decreases |sendPubrel| - i
      {
        var current := sendPubrel[i];
        if |awaitPubcomp| < cap {
          var sent := connection.TryWritePacket(Pubrel(current.pid));
          match sent {
            case Err(e) => return Err(e);
            case Ok(taken) =>
              if !taken {
                return Ok(PartiallySent);
              }
          }
          sendPubrel := RemoveAt(sendPubrel, i);
          log := log + [PM.SentPubrel(current.pid, current.uid, connection.View().Now())];
          if current.uid.None? {
            return Panic;
          }
          var now := connection.Now();
          awaitPubcomp := awaitPubcomp + [PM.AwaitPubcomp(current.pid, now, current.uid.value)];
        } else {
          i := i + 1;
        }
      }
      r := Ok(SentAll);
    }

    /** The first loop of resend_publishes. */
    method ResendPubacks(connection: Connection) returns (r: Outcome<SendResult>)
      requires connection.Valid()
      modifies this, connection
      ensures connection.Valid()
      ensures Pass(View(), connection.View(), r)
           == PM.ResendPubacks(old(View()), 0, old(connection.View()).Now(), old(connection.View()))
    {
      hide Connection.Valid;
      var now := connection.Now();
      var i := 0;
      while i < |awaitPuback|
        invariant connection.Valid()
        invariant i <= |awaitPuback|
        invariant PM.ResendPubacks(View(), i, now, connection.View())
               == PM.ResendPubacks(old(View()), 0, now, old(connection.View()))
      {
        var pending := awaitPuback[i];
        if now - pending.sent > PM.RESEND_DURATION {
          var sent := connection.TryWritePacket(Packet.Publish(pending.publish.m));
          match sent {
            case Err(e) => return Err(e);
            case Ok(taken) =>
              if !taken {
                return Ok(PartiallySent);
              }
          }
          awaitPuback := awaitPuback[i := pending.(sent := now)];
          log := log + [PM.Resent(pending.publish, now)];
        }
        i := i + 1;
      }
      r := Ok(SentAll);
    }

    /** The second loop of resend_publishes. */
    method ResendPubrecs(connection: Connection) returns (r: Outcome<SendResult>)
      requires connection.Valid()
      modifies this, connection
      ensures connection.Valid()
      ensures Pass(View(), connection.View(), r)
           == PM.ResendPubrecs(old(View()), 0, old(connection.View()).Now(), old(connection.View()))
    {
      hide Connection.Valid;
      var now := connection.Now();
      var i := 0;
      while i < |awaitPubrec|
        invariant connection.Valid()
        invariant i <= |awaitPubrec|
        invariant PM.ResendPubrecs(View(), i, now, connection.View())
               == PM.ResendPubrecs(old(View()), 0, now, old(connection.View()))
      {
        var pending := awaitPubrec[i];
        if now - pending.sent > PM.RESEND_DURATION {
          var sent := connection.TryWritePacket(Packet.Publish(pending.publish.m));
          match sent {
            case Err(e) => return Err(e);
            case Ok(taken) =>
              if !taken {
                return Ok(PartiallySent);
              }
          }
          awaitPubrec := awaitPubrec[i := pending.(sent := now)];
          log := log + [PM.Resent(pending.publish, now)];
        }
        i := i + 1;
      }
      r := Ok(SentAll);
    }

    method ResendPublishes(connection: Connection) returns (r: Outcome<SendResult>)
      requires connection.Valid()
      modifies this, connection
      ensures connection.Valid()
      ensures Pass(View(), connection.View(), r) == PM.ResendPublishes(old(View()), old(connection.View()))
    {
      hide Connection.Valid;
      r := ResendPubacks(connection);
      if Continues(r) {
        r := ResendPubrecs(connection);
      }
    }

    method ResendPubrel(connection: Connection) returns (r: Outcome<SendResult>)
      requires connection.Valid()
      modifies this, connection
      ensures connection.Valid()
      ensures Pass(View(), connection.View(), r)
           == PM.ResendPubrels(old(View()), 0, old(connection.View()).Now(), old(connection.View()))
    {
      hide Connection.Valid;
      var now := connection.Now();
      var i := 0;
      while i < |awaitPubcomp|
        invariant connection.Valid()
        invariant i <= |awaitPubcomp|
        invariant PM.ResendPubrels(View(), i, now, connection.View())
               == PM.ResendPubrels(old(View()), 0, now, old(connection.View()))
      {
        var pending := awaitPubcomp[i];
        if now - pending.sent > PM.RESEND_DURATION {
          var sent := connection.TryWritePacket(Pubrel(pending.pid));
          match sent {
            case Err(e) => return Err(e);
            case Ok(taken) =>
              if !taken {
                return Ok(PartiallySent);
              }
          }
          awaitPubcomp := awaitPubcomp[i := pending.(sent := now)];
          log := log + [PM.ResentPubrel(pending.pid, pending.uid, now)];
        }
        i := i + 1;
      }
      r := Ok(SentAll);
    }

    method SendPackets(connection: Connection) returns (r: Outcome<SendResult>)
      requires connection.Valid()
      modifies this, connection
      ensures connection.Valid()
      ensures Pass(View(), connection.View(), r) == PM.SendPackets(old(View()), old(connection.View()))
      ensures old(Valid()) && r != Panic ==> Valid()
    {
      hide Connection.Valid;
      ghost var before, link := View(), connection.View();
      r := SendPendingPubrel(connection);
      if Continues(r) {
        r := SendPendingPublishes(connection);
        if Continues(r) {
          r := ResendPublishes(connection);
          if Continues(r) {
            r := ResendPubrel(connection);
          }
        }
      }
      if PM.Reachable(before) && r != Panic {
        PR.SendPacketsReachable(before, link);
      }
    }
  }
}
