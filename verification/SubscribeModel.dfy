/** Subscribe and unsubscribe requests (src/state/sub2.rs) as a state machine
    over values, with a history that no step reads. */
module SubscribeModel {
  import opened Mqtt
  import opened Seqs
  import opened PacketLink

  const RESEND_DURATION := 5000
  const MAX_TOPICS := 5

  datatype RequestType = SubscribeTo(qos: QoS) | UnsubscribeFrom

  datatype SubRequest = SubRequest(topics: seq<string>, kind: RequestType, pid: Pid, uid: UniqueId)

  datatype AwaitAck = AwaitAck(request: SubRequest, sent: int)

  /** History. A completion is labelled with the request whose entry it removes;
      the event of the source carries the unique id of that request. */
  datatype Event =
    | Accepted(request: SubRequest)
    | Sent(request: SubRequest, at: int)
    | Resent(request: SubRequest, due: int, at: int)
    | GotSuback(pid: Pid, codes: seq<ReturnCode>)
    | GotUnsuback(pid: Pid)
    | SubscribeDone(request: SubRequest, result: Outcome<QoS>)
    | UnsubscribeDone(request: SubRequest)

  /** `wireTopicSize` is the longest topic that fits into a packet of the codec. */
  datatype Subs = Subs(
    cap: nat,
    wireTopicSize: nat,
    sendRequest: seq<SubRequest>,
    awaitAck: seq<AwaitAck>,
    log: seq<Event>)

  function Init(cap: nat, wireTopicSize: nat): Subs {
    Subs(cap, wireTopicSize, [], [], [])
  }

  /** All topics of a request are subscribed to with its one class. */
  function WithQos(topics: seq<string>, qos: QoS): seq<SubscribeTopic> {
    seq(|topics|, i requires 0 <= i < |topics| => SubscribeTopic(topics[i], qos))
  }

  /** The packet of a request, unless one of its topics is too long for it. */
  function CreatePacket(wireTopicSize: nat, r: SubRequest): Option<Packet> {
    if exists i :: 0 <= i < |r.topics| && |r.topics[i]| > wireTopicSize then None
    else match r.kind
         case SubscribeTo(qos) => Some(Subscribe(r.pid, WithQos(r.topics, qos)))
         case UnsubscribeFrom => Some(Unsubscribe(r.pid, r.topics))
  }

  /** Some topic that has a return code was refused. */
  predicate AnyFailure(codes: seq<ReturnCode>, topics: seq<string>) {
    exists i :: 0 <= i < |codes| && i < |topics| && codes[i] == Failure
  }

  function SubscribeResult(codes: seq<ReturnCode>, r: SubRequest): Outcome<QoS>
    requires r.kind.SubscribeTo?
  {
    if AnyFailure(codes, r.topics) then Err(SubscribeOrUnsubscribeFailed) else Ok(r.kind.qos)
  }

  // ---- the smallest steps ----

  function Admit(s: Subs, r: SubRequest): Subs {
    s.(sendRequest := s.sendRequest + [r], log := s.log + [Accepted(r)])
  }

  function Transmit(s: Subs, now: int): Subs
    requires s.sendRequest != []
  {
    var r := s.sendRequest[0];
    s.(sendRequest := s.sendRequest[1..], awaitAck := s.awaitAck + [AwaitAck(r, now)], log := s.log + [Sent(r, now)])
  }

  /** The connection took a waiting request again, which was overdue at `due`. */
  function Repeat(s: Subs, i: nat, due: int, now: int): Subs
    requires i < |s.awaitAck|
  {
    var e := s.awaitAck[i];
    s.(awaitAck := s.awaitAck[i := e.(sent := now)], log := s.log + [Resent(e.request, due, now)])
  }

  function SubscribedWith(pid: Pid): AwaitAck -> bool {
    (e: AwaitAck) => e.request.pid == pid && e.request.kind.SubscribeTo?
  }

  function UnsubscribedWith(pid: Pid): AwaitAck -> bool {
    (e: AwaitAck) => e.request.pid == pid && e.request.kind.UnsubscribeFrom?
  }

  function SubackIndex(s: Subs, pid: Pid): nat { Position(s.awaitAck, SubscribedWith(pid)) }

  function UnsubackIndex(s: Subs, pid: Pid): nat { Position(s.awaitAck, UnsubscribedWith(pid)) }

  function OnSuback(s: Subs, pid: Pid, codes: seq<ReturnCode>): Subs {
    var i := SubackIndex(s, pid);
    if i < |s.awaitAck| then
      var r := s.awaitAck[i].request;
      s.(awaitAck := RemoveAt(s.awaitAck, i),
         log := s.log + [GotSuback(pid, codes), SubscribeDone(r, SubscribeResult(codes, r))])
    else
      s.(log := s.log + [GotSuback(pid, codes)])
  }

  function OnUnsuback(s: Subs, pid: Pid): Subs {
    var i := UnsubackIndex(s, pid);
    if i < |s.awaitAck| then
      s.(awaitAck := RemoveAt(s.awaitAck, i),
         log := s.log + [GotUnsuback(pid), UnsubscribeDone(s.awaitAck[i].request)])
    else
      s.(log := s.log + [GotUnsuback(pid)])
  }

  // ---- runs ----

  datatype Step =
    | StepAccept(request: SubRequest)
    | StepTransmit(now: int)
    | StepRepeat(i: nat, due: int, now: int)
    | StepSuback(pid: Pid, codes: seq<ReturnCode>)
    | StepUnsuback(pid: Pid)

  ghost predicate Enabled(s: Subs, a: Step) {
    match a
    case StepAccept(_) => |s.sendRequest| < s.cap
    case StepTransmit(_) => s.sendRequest != [] && |s.awaitAck| < s.cap
    case StepRepeat(i, due, _) => i < |s.awaitAck| && due - s.awaitAck[i].sent > RESEND_DURATION
    case _ => true
  }

  ghost function Apply(s: Subs, a: Step): Subs
    requires Enabled(s, a)
  {
    match a
    case StepAccept(r) => Admit(s, r)
    case StepTransmit(now) => Transmit(s, now)
    case StepRepeat(i, due, now) => Repeat(s, i, due, now)
    case StepSuback(pid, codes) => OnSuback(s, pid, codes)
    case StepUnsuback(pid) => OnUnsuback(s, pid)
  }

  ghost predicate CanRun(s: Subs, run: seq<Step>)
    decreases |run|
  {
    run != [] ==> Enabled(s, run[0]) && CanRun(Apply(s, run[0]), run[1..])
  }

  ghost function Run(s: Subs, run: seq<Step>): Subs
    requires CanRun(s, run)
    decreases |run|
  {
    if run == [] then s else Run(Apply(s, run[0]), run[1..])
  }

  ghost predicate Reachable(s: Subs) {
    exists run :: CanRun(Init(s.cap, s.wireTopicSize), run) && Run(Init(s.cap, s.wireTopicSize), run) == s
  }

  /** A request is queued and no place is left to await its acknowledgement. */
  predicate Blocked(s: Subs) {
    s.sendRequest != [] && |s.awaitAck| >= s.cap
  }

  // ---- the send pass ----

  function SendRequests(s: Subs, l: Link): Pass<Subs>
    decreases |s.sendRequest|
  {
    if s.sendRequest == [] then Pass(s, l, Ok(SentAll))
    else if |s.awaitAck| >= s.cap then Pass(s, l, Ok(PartiallySent))
    else
      match CreatePacket(s.wireTopicSize, s.sendRequest[0])
      case None => Pass(s, l, Err(TopicSizeError))
      case Some(packet) =>
        match l.Answer(packet)
        case Fail(e) => Pass(s, l.Skip(packet), Err(e))
        case Refuse => Pass(s, l.Skip(packet), Ok(PartiallySent))
        case Accept =>
          var m := l.Write(packet);
          SendRequests(Transmit(s, m.Now()), m)
  }

  function ResendRequests(s: Subs, i: nat, now: int, l: Link): Pass<Subs>
    requires i <= |s.awaitAck|
    decreases |s.awaitAck| - i
  {
    if i == |s.awaitAck| then Pass(s, l, Ok(SentAll))
    else if now - s.awaitAck[i].sent <= RESEND_DURATION then ResendRequests(s, i + 1, now, l)
    else
      match CreatePacket(s.wireTopicSize, s.awaitAck[i].request)
      case None => Pass(s, l, Err(TopicSizeError))
      case Some(packet) =>
        match l.Answer(packet)
        case Fail(e) => Pass(s, l.Skip(packet), Err(e))
        case Refuse => Pass(s, l.Skip(packet), Ok(PartiallySent))
        case Accept =>
          var m := l.Write(packet);
          ResendRequests(Repeat(s, i, now, m.Now()), i + 1, now, m)
  }

  function Send(s: Subs, l: Link): Pass<Subs> {
    var p := SendRequests(s, l);
    if p.outcome != Ok(SentAll) then p else ResendRequests(p.state, 0, p.link.Now(), p.link)
  }
}
