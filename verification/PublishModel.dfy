/** Outgoing publishes (src/state/publish2.rs) as a state machine over values:
    the five bounded queues, the smallest steps they make, and the send passes
    that string such steps together. Every state carries the history of what
    happened so far; no step reads it. */
module PublishModel {
  import opened Mqtt
  import opened Seqs
  import opened PacketLink

  /** Milliseconds without an acknowledgement after which a packet is repeated. */
  const RESEND_DURATION := 5000

  datatype OwnedPublish = OwnedPublish(m: Message, uid: UniqueId)
  {
    /** The copy that every retransmission sends (section 3.3.1.1 of MQTT 3.1.1). */
    function MarkDup(): OwnedPublish { this.(m := m.(dup := true)) }

    function Qos(): QoS { m.qospid.Qos() }
  }

  datatype AwaitAck = AwaitAck(pid: Pid, publish: OwnedPublish, sent: int)

  /** `uid` is `None` for a pubrel that answers a pubrec nobody waited for. */
  datatype PubrelEntry = PubrelEntry(pid: Pid, uid: Option<UniqueId>)

  datatype AwaitPubcomp = AwaitPubcomp(pid: Pid, sent: int, uid: UniqueId)

  /** History. `Sent` is a first transmission, `Resent` a repetition; `Done` is
      the PublishDone event, labelled with the class and identifier of its publish. */
  datatype Event =
    | Accepted(pub: OwnedPublish)
    | Sent(pub: OwnedPublish, at: int)
    | Resent(pub: OwnedPublish, at: int)
    | SentPubrel(pid: Pid, owner: Option<UniqueId>, at: int)
    | ResentPubrel(pid: Pid, uid: UniqueId, at: int)
    | GotPuback(pid: Pid)
    | GotPubrec(pid: Pid)
    | GotPubcomp(pid: Pid)
    | Done(uid: UniqueId, qospid: QosPid)
    | Lost(uid: UniqueId, pid: Pid)

  datatype Sender = Sender(
    cap: nat,
    sendPublish: seq<OwnedPublish>,
    awaitPuback: seq<AwaitAck>,
    awaitPubrec: seq<AwaitAck>,
    sendPubrel: seq<PubrelEntry>,
    awaitPubcomp: seq<AwaitPubcomp>,
    log: seq<Event>)

  function Init(cap: nat): Sender {
    Sender(cap, [], [], [], [], [], [])
  }

  // ---- the smallest steps ----

  function Admit(s: Sender, pub: OwnedPublish): Sender {
    s.(sendPublish := s.sendPublish + [pub], log := s.log + [Accepted(pub)])
  }

  /** The closure of Publishes::publish, for buffers of these sizes. */
  function TryPublish(s: Sender, topicSize: nat, bufferSize: nat, m: Message, uid: UniqueId): (Sender, Attempt) {
    if |s.sendPublish| >= s.cap then (s, Retry)
    else if |m.topic| > topicSize then (s, Failed(TopicSizeError))
    else if |m.payload| > bufferSize then (s, Failed(BufferTooSmall))
    else (Admit(s, OwnedPublish(m, uid)), Finished)
  }

  /** What publish makes of it: it waits, or unwraps the result. */
  function Unwrapped(a: Attempt): Outcome<()> {
    match a
    case Finished => Ok(())
    case Retry => Pending
    case Failed(_) => Panic
  }

  /** Whether the queue that `pub` moves to after its transmission has room. */
  predicate HasSpace(s: Sender, pub: OwnedPublish) {
    match pub.m.qospid
    case AtMostOnce => true
    case AtLeastOnce(_) => |s.awaitPuback| < s.cap
    case ExactlyOnce(_) => |s.awaitPubrec| < s.cap
  }

  /** The connection took `sendPublish[i]`. */
  function Transmit(s: Sender, i: nat, now: int): Sender
    requires i < |s.sendPublish|
  {
    var p := s.sendPublish[i];
    var t := s.(sendPublish := RemoveAt(s.sendPublish, i));
    match p.m.qospid
    case AtMostOnce =>
      t.(log := t.log + [Sent(p, now), Done(p.uid, AtMostOnce)])
    case AtLeastOnce(pid) =>
      t.(awaitPuback := t.awaitPuback + [AwaitAck(pid, p.MarkDup(), now)], log := t.log + [Sent(p, now)])
    case ExactlyOnce(pid) =>
      t.(awaitPubrec := t.awaitPubrec + [AwaitAck(pid, p.MarkDup(), now)], log := t.log + [Sent(p, now)])
  }

  /** The connection took the pubrel at index `i`, whose owner is known. */
  function TransmitPubrel(s: Sender, i: nat, now: int): Sender
    requires i < |s.sendPubrel| && s.sendPubrel[i].uid.Some?
  {
    var e := s.sendPubrel[i];
    s.(sendPubrel := RemoveAt(s.sendPubrel, i),
       awaitPubcomp := s.awaitPubcomp + [AwaitPubcomp(e.pid, now, e.uid.value)],
       log := s.log + [SentPubrel(e.pid, e.uid, now)])
  }

  function RepeatPuback(s: Sender, i: nat, now: int): Sender
    requires i < |s.awaitPuback|
  {
    var e := s.awaitPuback[i];
    s.(awaitPuback := s.awaitPuback[i := e.(sent := now)], log := s.log + [Resent(e.publish, now)])
  }

  function RepeatPubrec(s: Sender, i: nat, now: int): Sender
    requires i < |s.awaitPubrec|
  {
    var e := s.awaitPubrec[i];
    s.(awaitPubrec := s.awaitPubrec[i := e.(sent := now)], log := s.log + [Resent(e.publish, now)])
  }

  function RepeatPubrel(s: Sender, i: nat, now: int): Sender
    requires i < |s.awaitPubcomp|
  {
    var e := s.awaitPubcomp[i];
    s.(awaitPubcomp := s.awaitPubcomp[i := e.(sent := now)], log := s.log + [ResentPubrel(e.pid, e.uid, now)])
  }

  function WaitsFor(pid: Pid): AwaitAck -> bool { (e: AwaitAck) => e.pid == pid }

  function WaitsForComp(pid: Pid): AwaitPubcomp -> bool { (e: AwaitPubcomp) => e.pid == pid }

  function PubackIndex(s: Sender, pid: Pid): nat { Position(s.awaitPuback, WaitsFor(pid)) }

  function PubrecIndex(s: Sender, pid: Pid): nat { Position(s.awaitPubrec, WaitsFor(pid)) }

  function PubcompIndex(s: Sender, pid: Pid): nat { Position(s.awaitPubcomp, WaitsForComp(pid)) }

  /** A puback arrived; without a matching entry only the history changes. */
  function OnPuback(s: Sender, pid: Pid): Sender {
    var i := PubackIndex(s, pid);
    if i < |s.awaitPuback| then
      s.(awaitPuback := RemoveAt(s.awaitPuback, i),
         log := s.log + [GotPuback(pid), Done(s.awaitPuback[i].publish.uid, AtLeastOnce(pid))])
    else
      s.(log := s.log + [GotPuback(pid)])
  }

  /** A pubrec arrived. The matching entry leaves `awaitPubrec` even when there
      is no room for its pubrel: the publish is then lost. */
  function OnPubrec(s: Sender, pid: Pid): Sender {
    var i := PubrecIndex(s, pid);
    var t := s.(log := s.log + [GotPubrec(pid)]);
    if i < |s.awaitPubrec| then
      var uid := s.awaitPubrec[i].publish.uid;
      var u := t.(awaitPubrec := RemoveAt(s.awaitPubrec, i));
      if |s.sendPubrel| < s.cap then
        u.(sendPubrel := s.sendPubrel + [PubrelEntry(pid, Some(uid))])
      else
        u.(log := u.log + [Lost(uid, pid)])
    else if |s.sendPubrel| < s.cap then
      t.(sendPubrel := s.sendPubrel + [PubrelEntry(pid, None)])
    else
      t
  }

  function OnPubcomp(s: Sender, pid: Pid): Sender {
    var i := PubcompIndex(s, pid);
    if i < |s.awaitPubcomp| then
      s.(awaitPubcomp := RemoveAt(s.awaitPubcomp, i),
         log := s.log + [GotPubcomp(pid), Done(s.awaitPubcomp[i].uid, ExactlyOnce(pid))])
    else
      s.(log := s.log + [GotPubcomp(pid)])
  }

  // ---- runs ----

  datatype Step =
    | StepAdmit(pub: OwnedPublish)
    | StepTransmit(i: nat, now: int)
    | StepTransmitPubrel(now: int)
    | StepRepeatPuback(i: nat, now: int)
    | StepRepeatPubrec(i: nat, now: int)
    | StepRepeatPubrel(i: nat, now: int)
    | StepPuback(pid: Pid)
    | StepPubrec(pid: Pid)
    | StepPubcomp(pid: Pid)

  /** No pubrel can be sent: there is none, or no room to await its pubcomp. */
  predicate PubrelsBlocked(s: Sender) {
    s.sendPubrel != [] ==> |s.awaitPubcomp| >= s.cap
  }

  /** When a step can happen. A publish overtakes no pubrel that could be sent,
      and only publishes whose own queue is full; pubrels never overtake each other. */
  ghost predicate Enabled(s: Sender, a: Step) {
    match a
    case StepAdmit(_) => |s.sendPublish| < s.cap
    case StepTransmit(i, _) =>
      && PubrelsBlocked(s)
      && i < |s.sendPublish|
      && HasSpace(s, s.sendPublish[i])
      && forall j :: 0 <= j < i ==> !HasSpace(s, s.sendPublish[j])
    case StepTransmitPubrel(_) =>
      |s.sendPubrel| > 0 && |s.awaitPubcomp| < s.cap && s.sendPubrel[0].uid.Some?
    case StepRepeatPuback(i, now) => i < |s.awaitPuback| && now - s.awaitPuback[i].sent > RESEND_DURATION
    case StepRepeatPubrec(i, now) => i < |s.awaitPubrec| && now - s.awaitPubrec[i].sent > RESEND_DURATION
    case StepRepeatPubrel(i, now) => i < |s.awaitPubcomp| && now - s.awaitPubcomp[i].sent > RESEND_DURATION
    case _ => true
  }

  ghost function Apply(s: Sender, a: Step): Sender
    requires Enabled(s, a)
  {
    match a
    case StepAdmit(pub) => Admit(s, pub)
    case StepTransmit(i, now) => Transmit(s, i, now)
    case StepTransmitPubrel(now) => TransmitPubrel(s, 0, now)
    case StepRepeatPuback(i, now) => RepeatPuback(s, i, now)
    case StepRepeatPubrec(i, now) => RepeatPubrec(s, i, now)
    case StepRepeatPubrel(i, now) => RepeatPubrel(s, i, now)
    case StepPuback(pid) => OnPuback(s, pid)
    case StepPubrec(pid) => OnPubrec(s, pid)
    case StepPubcomp(pid) => OnPubcomp(s, pid)
  }

  ghost predicate CanRun(s: Sender, run: seq<Step>)
    decreases |run|
  {
    run != [] ==> Enabled(s, run[0]) && CanRun(Apply(s, run[0]), run[1..])
  }

  ghost function Run(s: Sender, run: seq<Step>): Sender
    requires CanRun(s, run)
    decreases |run|
  {
    if run == [] then s else Run(Apply(s, run[0]), run[1..])
  }

  ghost predicate Reachable(s: Sender) {
    exists run :: CanRun(Init(s.cap), run) && Run(Init(s.cap), run) == s
  }

  // ---- the send passes ----

  /** send_pending_pubrel from index `i` on. Turning an anonymous pubrel into
      an entry that awaits its pubcomp panics, after the packet was written. */
  function SendPubrels(s: Sender, i: nat, l: Link): Pass<Sender>
    requires i <= |s.sendPubrel|
    decreases |s.sendPubrel| - i
  {
    if i == |s.sendPubrel| then Pass(s, l, Ok(SentAll))
    else if |s.awaitPubcomp| >= s.cap then SendPubrels(s, i + 1, l)
    else
      var packet := Pubrel(s.sendPubrel[i].pid);
      match l.Answer(packet)
      case Fail(e) => Pass(s, l.Skip(packet), Err(e))
      case Refuse => Pass(s, l.Skip(packet), Ok(PartiallySent))
      case Accept =>
        var e := s.sendPubrel[i];
        var m := l.Write(packet);
        if e.uid.None? then
          Pass(s.(sendPubrel := RemoveAt(s.sendPubrel, i), log := s.log + [SentPubrel(e.pid, None, m.Now())]), m, Panic)
        else
          SendPubrels(TransmitPubrel(s, i, m.Now()), i, m)
  }

  /** send_pending_publishes from index `i` on. */
  function SendPublishes(s: Sender, i: nat, l: Link): Pass<Sender>
    requires i <= |s.sendPublish|
    decreases |s.sendPublish| - i
  {
    if i == |s.sendPublish| then Pass(s, l, Ok(SentAll))
    else if !HasSpace(s, s.sendPublish[i]) then SendPublishes(s, i + 1, l)
    else
      var packet := Publish(s.sendPublish[i].m);
      match l.Answer(packet)
      case Fail(e) => Pass(s, l.Skip(packet), Err(e))
      case Refuse => Pass(s, l.Skip(packet), Ok(PartiallySent))
      case Accept =>
        var m := l.Write(packet);
        SendPublishes(Transmit(s, i, m.Now()), i, m)
  }

  /** The first loop of resend_publishes from index `i` on, with its clock `now`. */
  function ResendPubacks(s: Sender, i: nat, now: int, l: Link): Pass<Sender>
    requires i <= |s.awaitPuback|
    decreases |s.awaitPuback| - i
  {
    if i == |s.awaitPuback| then Pass(s, l, Ok(SentAll))
    else if now - s.awaitPuback[i].sent <= RESEND_DURATION then ResendPubacks(s, i + 1, now, l)
    else
      var packet := Publish(s.awaitPuback[i].publish.m);
      match l.Answer(packet)
      case Fail(e) => Pass(s, l.Skip(packet), Err(e))
      case Refuse => Pass(s, l.Skip(packet), Ok(PartiallySent))
      case Accept =>
        ResendPubacks(RepeatPuback(s, i, now), i + 1, now, l.Write(packet))
  }

  /** The second loop of resend_publishes. */
  function ResendPubrecs(s: Sender, i: nat, now: int, l: Link): Pass<Sender>
    requires i <= |s.awaitPubrec|
    decreases |s.awaitPubrec| - i
  {
    if i == |s.awaitPubrec| then Pass(s, l, Ok(SentAll))
    else if now - s.awaitPubrec[i].sent <= RESEND_DURATION then ResendPubrecs(s, i + 1, now, l)
    else
      var packet := Publish(s.awaitPubrec[i].publish.m);
      match l.Answer(packet)
      case Fail(e) => Pass(s, l.Skip(packet), Err(e))
      case Refuse => Pass(s, l.Skip(packet), Ok(PartiallySent))
      case Accept =>
        ResendPubrecs(RepeatPubrec(s, i, now), i + 1, now, l.Write(packet))
  }

  /** The loop of resend_pubrel. */
  function ResendPubrels(s: Sender, i: nat, now: int, l: Link): Pass<Sender>
    requires i <= |s.awaitPubcomp|
    decreases |s.awaitPubcomp| - i
  {
    if i == |s.awaitPubcomp| then Pass(s, l, Ok(SentAll))
    else if now - s.awaitPubcomp[i].sent <= RESEND_DURATION then ResendPubrels(s, i + 1, now, l)
    else
      var packet := Pubrel(s.awaitPubcomp[i].pid);
      match l.Answer(packet)
      case Fail(e) => Pass(s, l.Skip(packet), Err(e))
      case Refuse => Pass(s, l.Skip(packet), Ok(PartiallySent))
      case Accept =>
        ResendPubrels(RepeatPubrel(s, i, now), i + 1, now, l.Write(packet))
  }

  /** resend_publishes: each loop reads the clock when it starts. */
  function ResendPublishes(s: Sender, l: Link): Pass<Sender> {
    var p := ResendPubacks(s, 0, l.Now(), l);
    if p.outcome != Ok(SentAll) then p else ResendPubrecs(p.state, 0, p.link.Now(), p.link)
  }

  /** send_packets: each pass runs only if the previous one sent everything. */
  function SendPackets(s: Sender, l: Link): Pass<Sender> {
    var p1 := SendPubrels(s, 0, l);
    if p1.outcome != Ok(SentAll) then p1 else
    var p2 := SendPublishes(p1.state, 0, p1.link);
    if p2.outcome != Ok(SentAll) then p2 else
    var p3 := ResendPublishes(p2.state, p2.link);
    if p3.outcome != Ok(SentAll) then p3 else
    ResendPubrels(p3.state, 0, p3.link.Now(), p3.link)
  }
}
