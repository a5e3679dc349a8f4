/** Incoming publishes (src/state/receives2.rs) as a state machine over values:
    four bounded queues of packet identifiers and a history that no step reads. */
module ReceiveModel {
  import opened Mqtt
  import opened Seqs
  import opened PacketLink

  /** The sizes a received topic and payload are copied into. */
  datatype Limits = Limits(topicSize: nat, bufferSize: nat)

  /** `Suppressed` is a QoS 2 publish that will be answered but is not handed to
      the application: a duplicate, or one that does not fit. */
  datatype Event =
    | Delivered(m: Message)
    | Suppressed(pid: Pid)
    | GotPubrel(pid: Pid)
    | SentPuback(pid: Pid)
    | SentPubrec(pid: Pid)
    | SentPubcomp(pid: Pid)

  /** The messages that the application got. */
  function DeliveredMessage(e: Event): seq<Message> { if e.Delivered? then [e.m] else [] }

  datatype Receiver = Receiver(
    cap: nat,
    limits: Limits,
    sendPuback: seq<Pid>,
    sendPubrec: seq<Pid>,
    awaitPubrel: seq<Pid>,
    sendPubcomp: seq<Pid>,
    log: seq<Event>)

  function Init(cap: nat, limits: Limits): Receiver {
    Receiver(cap, limits, [], [], [], [], [])
  }

  /** The error of copying a publish that does not fit. */
  function CopyError(limits: Limits, m: Message): Option<MqttError> {
    if |m.topic| > limits.topicSize then Some(TopicSizeError)
    else if |m.payload| > limits.bufferSize then Some(BufferTooSmall)
    else None
  }

  function Is(pid: Pid): Pid -> bool { (p: Pid) => p == pid }

  /** Whether a QoS 2 publish with this identifier counts as a duplicate. */
  predicate IsDup(s: Receiver, pid: Pid) {
    pid in s.awaitPubrel || pid in s.sendPubrec || pid in s.sendPubcomp
  }

  function Deliver(s: Receiver, m: Message): Receiver {
    s.(log := s.log + [Delivered(m)])
  }

  /** An incoming PUBLISH: the new state and the result of on_publish. */
  function OnPublish(s: Receiver, m: Message): (Receiver, Outcome<()>) {
    match m.qospid
    case AtMostOnce =>
      (match CopyError(s.limits, m)
       case Some(e) => (s, Err(e))
       case None => (Deliver(s, m), Ok(())))
    case AtLeastOnce(pid) =>
      (match CopyError(s.limits, m)
       case Some(e) => (s, Err(e))
       case None =>
         if |s.sendPuback| < s.cap then (Deliver(s, m).(sendPuback := s.sendPuback + [pid]), Ok(()))
         else (Deliver(s, m), Err(QueueFull(AtLeastOnce(pid)))))
    case ExactlyOnce(pid) =>
      if |s.sendPubrec| >= s.cap then (s, Err(QueueFull(AtLeastOnce(pid)))) else
      var t := s.(sendPubrec := s.sendPubrec + [pid]);
      var u := t.(log := t.log + [Suppressed(pid)]);
      if IsDup(s, pid) then (u, Ok(())) else
      match CopyError(s.limits, m)
      case Some(e) => (u, Err(e))
      case None => (Deliver(t, m), Ok(()))
  }

  /** An incoming PUBREL. */
  function OnPubrel(s: Receiver, pid: Pid): (Receiver, Outcome<()>) {
    if |s.sendPubcomp| >= s.cap then (s, Err(QueueFull(AtLeastOnce(pid)))) else
    var i := Position(s.awaitPubrel, Is(pid));
    (s.(sendPubcomp := s.sendPubcomp + [pid],
        awaitPubrel := if i < |s.awaitPubrel| then RemoveAt(s.awaitPubrel, i) else s.awaitPubrel,
        log := s.log + [GotPubrel(pid)]),
     Ok(()))
  }

  // ---- the smallest sending steps ----

  function WritePuback(s: Receiver, i: nat): Receiver
    requires i < |s.sendPuback|
  {
    s.(sendPuback := RemoveAt(s.sendPuback, i), log := s.log + [SentPuback(s.sendPuback[i])])
  }

  function WritePubrec(s: Receiver, i: nat): Receiver
    requires i < |s.sendPubrec|
  {
    s.(sendPubrec := RemoveAt(s.sendPubrec, i),
       awaitPubrel := s.awaitPubrel + [s.sendPubrec[i]],
       log := s.log + [SentPubrec(s.sendPubrec[i])])
  }

  function WritePubcomp(s: Receiver, i: nat): Receiver
    requires i < |s.sendPubcomp|
  {
    s.(sendPubcomp := RemoveAt(s.sendPubcomp, i), log := s.log + [SentPubcomp(s.sendPubcomp[i])])
  }

  // ---- runs ----

  datatype Step =
    | StepPublish(m: Message)
    | StepPubrel(pid: Pid)
    | StepWritePuback(i: nat)
    | StepWritePubrec(i: nat)
    | StepWritePubcomp(i: nat)

  ghost predicate Enabled(s: Receiver, a: Step) {
    match a
    case StepWritePuback(i) => i < |s.sendPuback|
    case StepWritePubrec(i) => i < |s.sendPubrec| && |s.awaitPubrel| < s.cap
    case StepWritePubcomp(i) => i < |s.sendPubcomp|
    case _ => true
  }

  ghost function Apply(s: Receiver, a: Step): Receiver
    requires Enabled(s, a)
  {
    match a
    case StepPublish(m) => OnPublish(s, m).0
    case StepPubrel(pid) => OnPubrel(s, pid).0
    case StepWritePuback(i) => WritePuback(s, i)
    case StepWritePubrec(i) => WritePubrec(s, i)
    case StepWritePubcomp(i) => WritePubcomp(s, i)
  }

  ghost predicate CanRun(s: Receiver, run: seq<Step>)
    decreases |run|
  {
    run != [] ==> Enabled(s, run[0]) && CanRun(Apply(s, run[0]), run[1..])
  }

  ghost function Run(s: Receiver, run: seq<Step>): Receiver
    requires CanRun(s, run)
    decreases |run|
  {
    if run == [] then s else Run(Apply(s, run[0]), run[1..])
  }

  ghost predicate Reachable(s: Receiver) {
    exists run :: CanRun(Init(s.cap, s.limits), run) && Run(Init(s.cap, s.limits), run) == s
  }

  // ---- the send pass ----

  /** The puback loop from index `i` on. The index moves on after a removal, so
      the entry that slides into the gap waits for the next pass. */
  function SendPubacks(s: Receiver, i: nat, l: Link): Pass<Receiver>
    decreases |s.sendPuback|
  {
    if i >= |s.sendPuback| then Pass(s, l, Ok(SentAll)) else
    var packet := Puback(s.sendPuback[i]);
    match l.Answer(packet)
    case Fail(e) => Pass(s, l.Skip(packet), Err(e))
    case Refuse => Pass(s, l.Skip(packet), Ok(PartiallySent))
    case Accept => SendPubacks(WritePuback(s, i), i + 1, l.Write(packet))
  }

  /** The pubrec loop, which also stops when `awaitPubrel` is full. */
  function SendPubrecs(s: Receiver, i: nat, l: Link): Pass<Receiver>
    decreases |s.sendPubrec|
  {
    if i >= |s.sendPubrec| || |s.awaitPubrel| >= s.cap then Pass(s, l, Ok(SentAll)) else
    var packet := Pubrec(s.sendPubrec[i]);
    match l.Answer(packet)
    case Fail(e) => Pass(s, l.Skip(packet), Err(e))
    case Refuse => Pass(s, l.Skip(packet), Ok(PartiallySent))
    case Accept => SendPubrecs(WritePubrec(s, i), i + 1, l.Write(packet))
  }

  function SendPubcomps(s: Receiver, i: nat, l: Link): Pass<Receiver>
    decreases |s.sendPubcomp|
  {
    if i >= |s.sendPubcomp| then Pass(s, l, Ok(SentAll)) else
    var packet := Pubcomp(s.sendPubcomp[i]);
    match l.Answer(packet)
    case Fail(e) => Pass(s, l.Skip(packet), Err(e))
    case Refuse => Pass(s, l.Skip(packet), Ok(PartiallySent))
    case Accept => SendPubcomps(WritePubcomp(s, i), i + 1, l.Write(packet))
  }

  function SendPackets(s: Receiver, l: Link): Pass<Receiver> {
    var p1 := SendPubacks(s, 0, l);
    if p1.outcome != Ok(SentAll) then p1 else
    var p2 := SendPubrecs(p1.state, 0, p1.link);
    if p2.outcome != Ok(SentAll) then p2 else
    SendPubcomps(p2.state, 0, p2.link)
  }
}
