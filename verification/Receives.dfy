/** The queues of src/state/receives2.rs as a mutable object, proved against
    `ReceiveModel`; every object is in a reachable state. */
module Receives {
  import opened Mqtt
  import opened Seqs
  import opened PacketLink
  import RM = ReceiveModel
  import RR = ReceiveRuns

  class ReceivesInner {
    const cap: nat
    const limits: RM.Limits
    var sendPuback: seq<Pid>
    var sendPubrec: seq<Pid>
    var awaitPubrel: seq<Pid>
    var sendPubcomp: seq<Pid>
    ghost var log: seq<RM.Event>

    ghost function View(): RM.Receiver
      reads this
    {
      RM.Receiver(cap, limits, sendPuback, sendPubrec, awaitPubrel, sendPubcomp, log)
    }

    ghost predicate Valid()
      reads this
    {
      RM.Reachable(View())
    }

    constructor (cap: nat, limits: RM.Limits)
      ensures View() == RM.Init(cap, limits) && Valid()
    {
      this.cap, this.limits := cap, limits;
      sendPuback, sendPubrec, awaitPubrel, sendPubcomp := [], [], [], [];
      log := [];
      new;
      RR.InitReachable(cap, limits);
    }

    function IsDup(pid: Pid): (r: bool)
      reads this
    {
      pid in awaitPubrel || pid in sendPubrec || pid in sendPubcomp
    }

    /** Hands a publish to the subscribers. */
    method Deliver(m: Message) returns (r: Outcome<()>)
      modifies this`log
      ensures match RM.CopyError(limits, m)
              case Some(e) => r == Err(e) && log == old(log)
              case None => r == Ok(()) && log == old(log) + [RM.Delivered(m)]
    {
      match RM.CopyError(limits, m) {
        case Some(e) => r := Err(e);
        case None =>
          log := log + [RM.Delivered(m)];
          r := Ok(());
      }
    }

    method OnPublish(m: Message) returns (r: Outcome<()>)
      modifies this
      ensures (View(), r) == RM.OnPublish(old(View()), m)
      ensures old(Valid()) ==> Valid()
    {
      ghost var before := View();
      match m.qospid {
        case AtMostOnce =>
          r := Deliver(m);
        case AtLeastOnce(pid) =>
          r := Deliver(m);
          if r == Ok(()) {
            if |sendPuback| < cap {
              sendPuback := sendPuback + [pid];
            } else {
              r := Err(QueueFull(AtLeastOnce(pid)));
            }
          }
        case ExactlyOnce(pid) =>
          r := OnQos2Publish(m, pid);
      }
      if RM.Reachable(before) {
        RR.StepReachable(before, RM.StepPublish(m));
      }
    }

    method OnQos2Publish(m: Message, pid: Pid) returns (r: Outcome<()>)
      requires m.qospid == ExactlyOnce(pid)
      modifies this
      ensures (View(), r) == RM.OnPublish(old(View()), m)
    {
      var isDup := IsDup(pid);
      if |sendPubrec| >= cap {
        return Err(QueueFull(AtLeastOnce(pid)));
      }
      sendPubrec := sendPubrec + [pid];
      if !isDup {
        r := Deliver(m);
        if r.Err? {
          log := log + [RM.Suppressed(pid)];
        }
      } else {
        log := log + [RM.Suppressed(pid)];
        r := Ok(());
      }
    }

    method OnPubrel(pid: Pid) returns (r: Outcome<()>)
      modifies this
      ensures (View(), r) == RM.OnPubrel(old(View()), pid)
      ensures old(Valid()) ==> Valid()
    {
      ghost var before := View();
      if |sendPubcomp| >= cap {
        return Err(QueueFull(AtLeastOnce(pid)));
      }
      sendPubcomp := sendPubcomp + [pid];
      var index := Position(awaitPubrel, RM.Is(pid));
      if index < |awaitPubrel| {
        awaitPubrel := RemoveAt(awaitPubrel, index);
      }
      log := log + [RM.GotPubrel(pid)];
      r := Ok(());
      if RM.Reachable(before) {
        RR.StepReachable(before, RM.StepPubrel(pid));
      }
    }

    method SendPackets(connection: Connection) returns (r: Outcome<SendResult>)
      requires connection.Valid()
      modifies this, connection
      ensures connection.Valid()
      ensures Pass(View(), connection.View(), r) == RM.SendPackets(old(View()), old(connection.View()))
      ensures old(Valid()) ==> Valid()
    {
      hide Connection.Valid;
      ghost var before, link := View(), connection.View();
      r := SendAll(connection);
      if RM.Reachable(before) {
        RR.SendPacketsReachable(before, link);
      }
    }

    method SendAll(connection: Connection) returns (r: Outcome<SendResult>)
      requires connection.Valid()
      modifies this, connection
      ensures connection.Valid()
      ensures Pass(View(), connection.View(), r) == RM.SendPackets(old(View()), old(connection.View()))
    {
      hide Connection.Valid;
      var i := 0;
      while i < |sendPuback|
        invariant connection.Valid()
        invariant RM.SendPubacks(View(), i, connection.View())
               == RM.SendPubacks(old(View()), 0, old(connection.View()))
        decreases |sendPuback|
      {
        var pid := sendPuback[i];
        var sent := connection.TryWritePacket(Puback(pid));
        match sent {
          case Err(e) => return Err(e);
          case Ok(taken) =>
            if taken {
              sendPuback := RemoveAt(sendPuback, i);
              log := log + [RM.SentPuback(pid)];
            } else {
              return Ok(PartiallySent);
            }
        }
        i := i + 1;
      }

      i := 0;
      ghost var second, secondLink := View(), connection.View();
      while i < |sendPubrec|
        invariant connection.Valid()
        invariant RM.SendPubrecs(View(), i, connection.View()) == RM.SendPubrecs(second, 0, secondLink)
        decreases |sendPubrec|
      {
        if |awaitPubrel| >= cap {
          break;
        }
        var pid := sendPubrec[i];
        var sent := connection.TryWritePacket(Pubrec(pid));
        match sent {
          case Err(e) => return Err(e);
          case Ok(taken) =>
            if taken {
              sendPubrec := RemoveAt(sendPubrec, i);
              awaitPubrel := awaitPubrel + [pid];
              log := log + [RM.SentPubrec(pid)];
            } else {
              return Ok(PartiallySent);
            }
        }
        i := i + 1;
      }

      i := 0;
      ghost var third, thirdLink := View(), connection.View();
      while i < |sendPubcomp|
        invariant connection.Valid()
        invariant RM.SendPubcomps(View(), i, connection.View()) == RM.SendPubcomps(third, 0, thirdLink)
        decreases |sendPubcomp|
      {
        var pid := sendPubcomp[i];
        var sent := connection.TryWritePacket(Pubcomp(pid));
        match sent {
          case Err(e) => return Err(e);
          case Ok(taken) =>
            if taken {
              sendPubcomp := RemoveAt(sendPubcomp, i);
              log := log + [RM.SentPubcomp(pid)];
            } else {
              return Ok(PartiallySent);
            }
        }
        i := i + 1;
      }
      r := Ok(SentAll);
    }
  }
}
