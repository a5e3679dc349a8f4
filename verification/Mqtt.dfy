/** Vocabulary of MQTT 3.1.1 shared by every component: identifiers, packets,
    errors and the results of the client's operations. */
module Mqtt {

  datatype Option<+T> = None | Some(value: T)

  /** A packet identifier: a non-zero 16-bit number (section 2.3.1 of MQTT 3.1.1). */
  type Pid = p: int | 1 <= p <= 65535 witness 1

  function Min(a: nat, b: nat): nat { if a <= b then a else b }

  /** Names one request of the application; it never goes on the wire. */
  type UniqueId = nat

  newtype Byte = b: int | 0 <= b < 256

  datatype QoS = QoS0 | QoS1 | QoS2

  datatype QosPid = AtMostOnce | AtLeastOnce(pid: Pid) | ExactlyOnce(pid: Pid)
  {
    function Qos(): QoS {
      match this
      case AtMostOnce => QoS0
      case AtLeastOnce(_) => QoS1
      case ExactlyOnce(_) => QoS2
    }
  }

  /** The content of a PUBLISH packet. */
  datatype Message = Message(dup: bool, qospid: QosPid, retain: bool, topic: string, payload: seq<Byte>)

  datatype SubscribeTopic = SubscribeTopic(path: string, qos: QoS)

  datatype ReturnCode = Granted(qos: QoS) | Failure

  datatype ConnectCode = ConnectionAccepted | ConnectionRefused | BadCredentials

  datatype Packet =
    | Connect
    | Connack(code: ConnectCode)
    | Publish(m: Message)
    | Puback(pid: Pid)
    | Pubrec(pid: Pid)
    | Pubrel(pid: Pid)
    | Pubcomp(pid: Pid)
    | Subscribe(pid: Pid, subscriptions: seq<SubscribeTopic>)
    | Suback(pid: Pid, codes: seq<ReturnCode>)
    | Unsubscribe(pid: Pid, topics: seq<string>)
    | Unsuback(pid: Pid)
    | Pingreq
    | Pingresp
    | Disconnect

  datatype MqttError =
    | ConnectionFailed
    | DnsFailed
    | BufferTooSmall
    | ConnackError
    | AuthenticationError
    | CodecError
    | SubscribeOrUnsubscribeFailed
    | QueueFull(qospid: QosPid)
    | UnexpectedAck(ack: Pid)
    | TopicSizeError

  /** What a call ends with. `Panic` stands for a Rust panic, `Pending` for a
      future that the network has not completed yet. */
  datatype Outcome<+T> = Ok(value: T) | Err(error: MqttError) | Panic | Pending

  /** What the closure given to try_with_lock returns: done, not possible yet, or
      an error. */
  datatype Attempt = Finished | Retry | Failed(error: MqttError)

  datatype SendResult = PartiallySent | SentAll
  {
    /** Everything is sent only if both parts are. */
    function Add(rhs: SendResult): SendResult {
      if SentAll? && rhs.SentAll? then SentAll else PartiallySent
    }
  }
}

/** The connection as the queues see it: every attempt to write a packet is
    accepted, refused for now, or fails. The answers are an arbitrary function of
    the number of attempts, of what was taken before and of the packet, and the
    clock one of the number of attempts, so a statement about every `Link` is a
    statement about every behaviour of the connection. */
module PacketLink {
  import opened Mqtt

  datatype Answer = Accept | Refuse | Fail(error: MqttError)

  type Answers = (nat, seq<Packet>, Packet) -> Answer

  /** `tried` and `last` are the packet of the latest attempt and its answer. */
  datatype Link = Link(
    answers: Answers,
    clock: nat -> int,
    attempts: nat,
    written: seq<Packet>,
    tried: Option<Packet>,
    last: Option<Answer>)
  {
    function Answer(p: Packet): Answer { answers(attempts, written, p) }

    /** The clock, in milliseconds. */
    function Now(): int { clock(attempts) }

    function Skip(p: Packet): Link {
      this.(attempts := attempts + 1, tried := Some(p), last := Some(Answer(p)))
    }

    function Write(p: Packet): Link {
      this.(attempts := attempts + 1, written := written + [p], tried := Some(p), last := Some(Accept))
    }
  }

  /** The result of one pass of a send loop. */
  datatype Pass<S> = Pass(state: S, link: Link, outcome: Outcome<SendResult>)

  /** Every attempt between the two links put a packet on the connection. */
  predicate AllAccepted(l: Link, m: Link) {
    m.attempts - l.attempts == |m.written| - |l.written|
  }

  /** The last attempt between them was answered like this, and was not accepted. */
  predicate Stopped(l: Link, m: Link, a: Answer) {
    !AllAccepted(l, m) && m.attempts > l.attempts && m.last == Some(a)
  }

  /** A pass that goes on exactly while the connection accepts, and whose result
      is the answer that stopped it. */
  ghost predicate EndsAsAnswered<S>(l: Link, p: Pass<S>) {
    && (p.outcome in {Ok(SentAll), Panic} <==> AllAccepted(l, p.link))
    && p.outcome != Pending
    && (p.outcome == Ok(PartiallySent) <==> Stopped(l, p.link, Refuse))
    && (forall e :: p.outcome == Err(e) <==> Stopped(l, p.link, Fail(e)))
    && (p.link.attempts == l.attempts ==> p.link.last == l.last)
    && 0 <= |p.link.written| - |l.written| <= p.link.attempts - l.attempts
  }

  /** From now on the connection takes nothing. */
  ghost predicate Refuses(l: Link) {
    forall n: nat, taken, p :: n >= l.attempts ==> l.answers(n, taken, p) == Refuse
  }

  lemma RefusesSkip(l: Link)
    requires Refuses(l)
    ensures forall p :: l.Answer(p) == Refuse && Refuses(l.Skip(p))
  {
  }

  /** A connection that takes one packet and then no more. */
  function TakesOne(now: int): Link {
    Link((n: nat, taken: seq<Packet>, p: Packet) => if n == 0 then Accept else Refuse, (n: nat) => now, 0, [],
         None, None)
  }

  lemma TakesOneThenRefuses(now: int, p: Packet)
    ensures TakesOne(now).Answer(p) == Accept
    ensures Refuses(TakesOne(now).Write(p)) && TakesOne(now).Write(p).Now() == now
  {
  }

  /** The `k`-th packet was accepted after the ones before it. */
  ghost predicate AcceptedAt(l: Link, k: nat)
    requires k < |l.written|
  {
    exists n :: l.answers(n, l.written[..k], l.written[k]) == Accept
  }

  /** The latest attempt was answered like this after everything written. */
  ghost predicate Turned(l: Link) {
    l.tried.Some? && l.last.Some? && exists n :: l.answers(n, l.written, l.tried.value) == l.last.value
  }

  /** Nothing is written that was not accepted in its turn, and what was turned
      down last was turned down in its turn. */
  ghost predicate Sound(l: Link) {
    && (forall k :: 0 <= k < |l.written| ==> AcceptedAt(l, k))
    && (l.last.Some? && l.last != Some(Accept) ==> Turned(l))
  }

  lemma SoundWrite(l: Link, p: Packet)
    requires Sound(l) && l.Answer(p) == Accept
    ensures Sound(l.Write(p))
  {
    var m := l.Write(p);
    forall k | 0 <= k < |m.written|
      ensures AcceptedAt(m, k)
    {
      if k < |l.written| {
        assert AcceptedAt(l, k);
        var n :| l.answers(n, l.written[..k], l.written[k]) == Accept;
        assert m.written[..k] == l.written[..k];
        assert m.answers(n, m.written[..k], m.written[k]) == Accept;
      } else {
        assert m.written[..k] == l.written;
        assert m.answers(l.attempts, m.written[..k], m.written[k]) == Accept;
      }
    }
  }

  lemma SoundSkip(l: Link, p: Packet)
    requires Sound(l)
    ensures Sound(l.Skip(p))
  {
    assert l.answers(l.attempts, l.written, p) == l.Answer(p);
    forall k | 0 <= k < |l.written|
      ensures AcceptedAt(l.Skip(p), k)
    {
      assert AcceptedAt(l, k);
    }
  }

  /** The clock never shows an earlier time than this. */
  ghost predicate NeverBefore(clock: nat -> int, from: int) {
    forall n :: from <= clock(n)
  }

  /** The clock shows this time at some attempt. */
  ghost predicate Shows(clock: nat -> int, time: int) {
    exists n :: clock(n) == time
  }

  class Connection {
    const answers: Answers
    const clock: nat -> int
    var attempts: nat
    var written: seq<Packet>
    var tried: Option<Packet>
    var last: Option<Answer>

    constructor (answers: Answers, clock: nat -> int)
      ensures Valid() && View() == Link(answers, clock, 0, [], None, None)
    {
      this.answers := answers;
      this.clock := clock;
      attempts, written, tried, last := 0, [], None, None;
    }

    ghost function View(): Link
      reads this
    {
      Link(answers, clock, attempts, written, tried, last)
    }

    ghost predicate Valid()
      reads this
    {
      Sound(View())
    }

    method Now() returns (now: int)
      ensures now == View().Now()
    {
      now := clock(attempts);
    }

    method TryWritePacket(p: Packet) returns (r: Outcome<bool>)
      requires Valid()
      modifies this
      ensures Valid()
      ensures match old(View()).Answer(p)
              case Accept => r == Ok(true) && View() == old(View()).Write(p)
              case Refuse => r == Ok(false) && View() == old(View()).Skip(p)
              case Fail(e) => r == Err(e) && View() == old(View()).Skip(p)
    {
      var answer := answers(attempts, written, p);
      attempts, tried, last := attempts + 1, Some(p), Some(answer);
      match answer {
        case Accept =>
          SoundWrite(old(View()), p);
          written := written + [p];
          r := Ok(true);
        case Refuse =>
          SoundSkip(old(View()), p);
          r := Ok(false);
        case Fail(e) =>
          SoundSkip(old(View()), p);
          r := Err(e);
      }
    }
  }
}
