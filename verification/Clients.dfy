/** The driving loop of src/state/mod.rs: the components of `States` over the
    connection of `TcpConnections`. The application contributes arbitrary events. */
module Clients {
  import opened Mqtt
  import Seqs
  import opened PacketLink
  import opened StackBuffers
  import opened Codecs
  import opened TcpConnections
  import opened States
  import SM = SubscribeModel
  import PM = PublishModel
  import RM = ReceiveModel
  import PO = PidOwnership
  import Chains
  import Networks
  import Pings

  // ---- the answers that a send buffer gives ----

  /** The send buffer after these packets were put into it. */
  function Filled(c: Codec, out: Fifo, taken: seq<Packet>): Fifo
    decreases |taken|
  {
    if taken == [] then out
    else Filled(c, out, taken[..|taken| - 1]).Opened().Appended(Encoding(c)(taken[|taken| - 1]))
  }

  /** What try_write_packet answers, from this state of the send buffer on. */
  function BufferAnswers(c: Codec, out: Fifo): Answers {
    (n: nat, taken: seq<Packet>, p: Packet) =>
      match c.encode(p)
      case None => Fail(CodecError)
      case Some(b) => if |b| <= Filled(c, out, taken).Opened().Room() then Accept else Refuse
  }

  /** A packet that was accepted in its turn fits into the buffer as it then is. */
  lemma FitsNext(l: Link, k: nat, c: Codec, out: Fifo)
    requires Sound(l) && k < |l.written| && l.answers == BufferAnswers(c, out)
    ensures c.encode(l.written[k]).Some?
    ensures |c.encode(l.written[k]).value| <= Filled(c, out, l.written[..k]).Opened().Room()
  {
    hide Filled;
    assert AcceptedAt(l, k);
  }

  lemma SoundTried(l: Link)
    requires Sound(l)
    ensures l.last.Some? && l.last != Some(Accept) ==> l.tried.Some?
  {
  }

  /** A packet that was turned down cannot be encoded, or does not fit. */
  lemma TurnedDown(l: Link, c: Codec, out: Fifo)
    requires Sound(l) && l.last.Some? && l.last != Some(Accept) && l.answers == BufferAnswers(c, out)
    ensures l.tried.Some?
    ensures var bytes := c.encode(l.tried.value);
      if l.last.value == Refuse then bytes.Some? && |bytes.value| > Filled(c, out, l.written).Opened().Room()
      else bytes.None? && l.last == Some(Fail(CodecError))
  {
    hide Filled;
    assert Turned(l);
  }

  /** An event that ends an iteration before a packet has arrived. */
  datatype Interruption = Nothing | DisconnectRequest | OtherEvent

  /** What the tasks of the application do: they ask for a publish, have a future
      that waits for room polled, or ask for a subscription. */
  datatype Request =
    | ToPublish(qos: QoS, retain: bool, topic: string, payload: seq<Byte>, uid: UniqueId)
    | ToPoll(k: nat)
    | ToSubscribe(topics: seq<string>, kind: SM.RequestType, uid: UniqueId)

  /** What the surroundings contribute to one iteration: the requests made before
      it, the clock of its send pass and of its packet, an event that is ready
      before the connection is looked at, and one that arrives while it waits. */
  datatype Choice = Choice(
    requests: seq<Request>,
    clock: nat -> int,
    now: int,
    early: Interruption,
    late: Interruption)

  /** The clock of an iteration does not run backwards. */
  ghost predicate Ticks(c: Choice, from: int) {
    NeverBefore(c.clock, from) && from <= c.now && forall time :: Shows(c.clock, time) ==> time <= c.now
  }

  ghost predicate ClockRuns(choices: seq<Choice>, from: int) {
    choices != [] ==> Ticks(choices[0], from) && ClockRuns(choices[1..], choices[0].now)
  }

  /** The result of waiting in vain: only a disconnect request ends the loop. */
  predicate Interrupts(late: Interruption, r: Outcome<bool>) {
    match late
    case Nothing => r == Pending
    case DisconnectRequest => r == Ok(false)
    case OtherEvent => r == Ok(true)
  }

  /** Errors after which the loop connects again. */
  predicate Recoverable(e: MqttError) {
    e.ConnectionFailed? || e.ConnackError? || e.CodecError? || e.QueueFull? || e.UnexpectedAck?
  }

  /** What a request of the application does to the identifier system: a publish
      waits with an identifier if there is one, a future that is polled finds room
      and is admitted or abandoned, and a subscription is queued or left for later. */
  ghost predicate Asks(g: PO.System, request: Request, h: PO.System) {
    match request
    case ToPublish(qos, retain, topic, payload, uid) =>
      var a := PO.Call(qos, retain, topic, payload, uid);
      if PO.Enabled(g, a) then h == PO.Apply(g, a) else h == g
    case ToPoll(k) =>
      if k >= |g.callers| || |g.publishes.sendPublish| >= g.publishes.cap then h == g
      else (PO.Enabled(g, PO.Admit(k)) && h == PO.Apply(g, PO.Admit(k))) || h == PO.Apply(g, PO.Abandon(k))
    case ToSubscribe(topics, kind, uid) =>
      var a := PO.Request(topics, kind, uid);
      h == g || (PO.Enabled(g, a) && h == PO.Apply(g, a))
  }

  /** ... and all of them, one after the other. */
  ghost predicate AsksAll(g: PO.System, requests: seq<Request>, h: PO.System)
    decreases |requests|
  {
    if requests == [] then h == g
    else
      var n := |requests| - 1;
      exists m :: AsksAll(g, requests[..n], m) && Asks(m, requests[n], h)
  }

  lemma AsksMore(g: PO.System, requests: seq<Request>, m: PO.System, request: Request, h: PO.System)
    requires AsksAll(g, requests, m) && Asks(m, request, h)
    ensures AsksAll(g, requests + [request], h)
  {
    hide Asks;
    assert (requests + [request])[..|requests|] == requests;
  }

  /** The identifier system after a received packet, if there was one. */
  ghost function Handled(g: PO.System, packet: Option<Packet>): PO.System {
    if packet.None? then g else
    var a := State.OnPacket(packet.value);
    if a.Some? && PO.Enabled(g, a.value) then PO.Apply(g, a.value) else g
  }

  /** The client's components at one moment. */
  datatype Snapshot = Snapshot(system: PO.System, received: RM.Receiver, ping: Pings.PingStateInner)

  /** The components after a received packet, if there was one. */
  ghost function After(s: Snapshot, packet: Option<Packet>, now: int): Snapshot {
    match packet
    case None => s
    case Some(p) =>
      Snapshot(Handled(s.system, packet),
               match p
               case Publish(m) => RM.OnPublish(s.received, m).0
               case Pubrel(pid) => RM.OnPubrel(s.received, pid).0
               case _ => s.received,
               if p.Pingresp? then Pings.PingSuccess(now) else s.ping)
  }

  /** A packet reaches its component: an acknowledgement its queues, with its
      identifier and return codes; a publish and a pubrel the receiver; a PINGRESP
      the ping. It touches no other. */
  lemma PacketReaches(s: Snapshot, p: Packet, now: int)
    ensures var t, n, k := After(s, Some(p), now), |s.system.publishes.log|, |s.system.subs.log|;
      && (p.Puback? ==> |t.system.publishes.log| > n && t.system.publishes.log[n] == PM.GotPuback(p.pid))
      && (p.Pubrec? ==> |t.system.publishes.log| > n && t.system.publishes.log[n] == PM.GotPubrec(p.pid))
      && (p.Pubcomp? ==> |t.system.publishes.log| > n && t.system.publishes.log[n] == PM.GotPubcomp(p.pid))
      && (p.Suback? ==> |t.system.subs.log| > k && t.system.subs.log[k] == SM.GotSuback(p.pid, p.codes))
      && (p.Unsuback? ==> |t.system.subs.log| > k && t.system.subs.log[k] == SM.GotUnsuback(p.pid))
      && (!(p.Puback? || p.Pubrec? || p.Pubcomp?) ==> t.system.publishes == s.system.publishes)
      && (!(p.Suback? || p.Unsuback?) ==> t.system.subs == s.system.subs)
      && (p.Publish? ==> t.received == RM.OnPublish(s.received, p.m).0)
      && (p.Pubrel? ==> t.received == RM.OnPubrel(s.received, p.pid).0)
      && (!(p.Publish? || p.Pubrel?) ==> t.received == s.received)
      && (if p.Pingresp? then t.ping == Pings.PingSuccess(now) else t.ping == s.ping)
  {
    hide PO.Apply, PO.Enabled, RM.OnPublish, RM.OnPubrel;
    Chains.AcknowledgementArrives(s.system, p);
  }

  lemma NothingAfter(s: Snapshot, now: int)
    ensures After(s, None, now) == s
  {
  }

  function ToSeq<T>(x: Option<T>): seq<T> { if x.Some? then [x.value] else [] }

  /** The loop goes on: nothing happened, or an error after which it connects again. */
  predicate GoesOn(turn: Outcome<bool>) {
    turn == Ok(true)
    || (turn.Err?
        && (turn.error.ConnectionFailed? || turn.error.ConnackError? || turn.error.CodecError?
            || turn.error.QueueFull? || turn.error.UnexpectedAck?))
  }

  /** The turns of a run: their results, what happened in them, and the systems
      before, between and after them. */
  datatype Course = Course(turns: seq<Outcome<bool>>, rounds: seq<Round>, views: seq<Snapshot>)
  {
    predicate Whole() { |turns| == |rounds| && |views| == |turns| + 1 }

    /** The last turn did not go on. */
    predicate Over() { turns != [] && !GoesOn(turns[|turns| - 1]) }

    function Add(r: Outcome<bool>, round: Round, view: Snapshot): Course {
      Course(turns + [r], rounds + [round], views + [view])
    }
  }

  /** The errors of reading from the connection. */
  predicate IoFails(r: Outcome<bool>) {
    r.Err? && (r.error.ConnectionFailed? || r.error.CodecError? || r.error.BufferTooSmall?)
  }

  /** The loop goes on after a packet that was processed without an error. */
  function Again(processed: Outcome<()>): (r: Outcome<bool>)
    ensures processed.Ok? <==> r == Ok(true)
    ensures forall e :: processed == Err(e) <==> r == Err(e)
    ensures processed.Panic? <==> r.Panic?
  {
    match processed
    case Ok(_) => Ok(true)
    case Err(e) => Err(e)
    case Panic => Panic
    case Pending => Pending
  }

  /** How an iteration ends: as the sending did, unless everything was sent or the
      connection refused; then with the result of a packet, or, after everything was
      sent, with an event. A disconnect request that is ready ends the loop, and so
      does one that arrives while the network waits. */
  ghost predicate Iterates(c: Choice, q: Queues, sent: Outcome<SendResult>, handled: Option<Packet>, r: Outcome<bool>,
                           waits: bool) {
    match sent
    case Err(e) => handled.None? && r == Err(e)
    case Panic => handled.None? && r == Panic
    case Pending => handled.None? && r == Pending
    case Ok(PartiallySent) =>
      (match handled
       case Some(p) => r == Again(ProcessResult(q.publishes, q.received, p))
       case None => r == Ok(true) || (waits && r == Pending) || IoFails(r))
    case Ok(SentAll) =>
      (match c.early
       case DisconnectRequest => r == Ok(false) && handled.None?
       case OtherEvent => r == Ok(true) && handled.None?
       case Nothing =>
         match handled
         case Some(p) => r == Again(ProcessResult(q.publishes, q.received, p))
         case None => IoFails(r) || (waits && Interrupts(c.late, r)))
  }

  /** The components after a send pass. */
  function Sent(g: PO.System, q: Queues): Snapshot {
    Snapshot(g.(publishes := q.publishes, subs := q.subscribes), q.received, q.ping)
  }

  /** Connecting takes identifiers and nothing else. */
  predicate SameQueues(g: PO.System, h: PO.System) {
    g.callers == h.callers && g.publishes == h.publishes && g.subs == h.subs
  }

  /** A turn goes from `before` to `after`, with result `r`. */
  ghost predicate Happened(before: Snapshot, c: Choice, round: Round, r: Outcome<bool>, after: Snapshot) {
    && AsksAll(before.system, c.requests, round.asked)
    && round.start.received == before.received && round.start.ping == before.ping
    && SameQueues(round.asked, round.ready)
    && round.start.publishes == round.ready.publishes && round.start.subscribes == round.ready.subs
    && if round.connected then
         var (q, sent) := SendQueues(round.start);
         && Iterates(c, q, sent, round.handled, r, round.waits)
         && after == After(Sent(round.ready, q), round.handled, c.now)
       else
         !r.Ok? && round.handled.None? && after == Snapshot(round.ready, before.received, before.ping)
  }

  /** From `before` to `after`, each turn from where the one before it ended, and
      every one but the last went on. */
  ghost predicate Leads(before: Snapshot, choices: seq<Choice>, course: Course, after: Snapshot) {
    && course.Whole() && |course.turns| <= |choices|
    && course.views[0] == before && course.views[|course.turns|] == after
    && (forall i :: 0 <= i < |course.turns| ==>
          Happened(course.views[i], choices[i], course.rounds[i], course.turns[i], course.views[i + 1]))
    && (forall i :: 0 <= i < |course.turns| - 1 ==> GoesOn(course.turns[i]))
  }

  lemma NothingLeads(g: Snapshot, choices: seq<Choice>)
    ensures Leads(g, choices, Course([], [], [g]), g)
  {
  }

  lemma LeadsOn(before: Snapshot, choices: seq<Choice>, course: Course, after: Snapshot,
                r: Outcome<bool>, round: Round, view: Snapshot)
    requires Leads(before, choices, course, after) && !course.Over() && |course.turns| < |choices|
    requires Happened(after, choices[|course.turns|], round, r, view)
    ensures Leads(before, choices, course.Add(r, round, view), view)
  {
    hide Happened;
  }

  /** What the results of the iterations say about the result of the loop: it ends
      with the first one that does not go on, and otherwise with the choices. */
  predicate Concluded(course: Course, choices: nat, r: Outcome<()>) {
    if !course.Over() then |course.turns| == choices && r == Pending
    else match course.turns[|course.turns| - 1]
         case Ok(_) => r != Panic
         case Err(e) => r == Err(e)
         case Panic => r == Panic
         case Pending => r == Pending
  }

  /** The loop ended because it was asked to disconnect. */
  predicate AskedToEnd(course: Course) {
    course.turns != [] && course.turns[|course.turns| - 1] == Ok(false)
  }

  lemma ClockGoesOn(choices: seq<Choice>, i: nat, from: int, earlier: int)
    requires i < |choices| && ClockRuns(choices[i..], from) && earlier <= from
    ensures Ticks(choices[i], earlier) && ClockRuns(choices[i + 1..], choices[i].now)
  {
    assert choices[i..][1..] == choices[i + 1..];
  }

  /** What happened in one turn of the loop: the system after the requests of the
      application and, perhaps, connecting; what its send pass started from; whether
      it came to an iteration; and the packet it handled. */
  datatype Round = Round(
    asked: PO.System,
    ready: PO.System,
    start: Queues,
    connected: bool,
    handled: Option<Packet>,
    waits: bool)

  lemma IteratesLater(c: Choice, q: Queues, sent: Outcome<SendResult>, handled: Option<Packet>, r: Outcome<bool>,
                      waits: bool, still: bool)
    requires Iterates(c, q, sent, handled, r, waits) && (waits ==> still)
    ensures Iterates(c, q, sent, handled, r, still)
  {
  }

  /** A result that is none of the network's. */
  predicate NoNetwork<T(==)>(r: Outcome<T>) {
    r != Pending && r != Err(ConnectionFailed) && r != Err(DnsFailed)
  }

  lemma ProcessNoNetwork(s: PM.Sender, d: RM.Receiver, p: Packet)
    ensures NoNetwork(Again(ProcessResult(s, d, p)))
  {
    hide Seqs.Position;
  }

  /** Sending over a buffer fails only where a packet cannot be encoded. */
  lemma SendNoNetwork(q: Queues, c: Codec, out: Fifo)
    requires q.link.answers == BufferAnswers(c, out) && Sound(SendQueues(q).0.link)
    requires SendQueues(q).0.link.answers == q.link.answers
    ensures NoNetwork(SendQueues(q).1)
  {
    hide SendQueues, Filled, Sound;
    Chains.ChainResult(q);
    var l := SendQueues(q).0.link;
    if l.last.Some? && l.last != Some(Accept) {
      TurnedDown(l, c, out);
    }
  }

  lemma LinkIsSound(link: Connection)
    requires link.Valid()
    ensures Sound(link.View()) && link.View().answers == link.answers
  {
  }

  class Client {
    const connection: TcpConnection
    const state: State

    ghost predicate Apart() {
      connection.Repr() !! state.Parts() + {state}
    }

    ghost predicate Valid()
      reads connection.Repr(), state, state.Parts()
    {
      Apart() && connection.Valid() && connection.Idle() && state.Valid()
    }

    constructor (connection: TcpConnection, state: State)
      requires connection.Repr() !! state.Parts() + {state}
      requires connection.Valid() && connection.Idle() && state.Valid()
      ensures Valid() && this.connection == connection && this.state == state
    {
      this.connection, this.state := connection, state;
    }

    /** What a send pass starts from: the components, and a connection that
        answers as the send buffer does. */
    ghost function Start(clock: nat -> int): Queues
      reads connection.Repr(), state.Parts()
      requires connection.Valid()
    {
      Queues(state.publishes.View(), state.received.View(), state.subscribes.View(), state.ping.inner,
             Link(BufferAnswers(connection.codec, connection.Out()), clock, 0, [], None, None))
    }

    ghost function Snap(): Snapshot
      reads state, state.Parts()
    {
      Snapshot(state.View(), state.received.View(), state.ping.inner)
    }

    /** Puts packets that were accepted into the send buffer; none is refused. */
    method Forward(ghost l: Link, packets: seq<Packet>)
      requires connection.Valid() && connection.sendBuffer.borrows == 0
      requires Sound(l) && l.written == packets
      requires l.answers == BufferAnswers(connection.codec, connection.Out())
      modifies connection.SendSide(), connection`accepted
      ensures connection.Valid() && connection.sendBuffer.borrows == 0
      ensures connection.Out() == Filled(connection.codec, old(connection.Out()), packets)
      ensures connection.accepted == old(connection.accepted) + packets
    {
      hide TcpConnection.Framed, TcpConnection.Chunked, Encoding, StackBuffer.View, StackBuffer.Valid;
      hide Sound, AcceptedAt, BufferAnswers, TcpConnection.Stream;
      var i := 0;
      while i < |packets|
        invariant i <= |packets|
        invariant connection.Valid() && connection.sendBuffer.borrows == 0
        invariant connection.Out() == Filled(connection.codec, old(connection.Out()), packets[..i])
        invariant connection.accepted == old(connection.accepted) + packets[..i]
      {
        FitsNext(l, i, connection.codec, old(connection.Out()));
        var written := connection.TryWritePacket(packets[i]);
        assert written == Ok(true);
        assert packets[..i + 1] == packets[..i] + [packets[i]];
        i := i + 1;
      }
      assert packets[..|packets|] == packets;
    }

    /** A packet that was turned down is turned down by the buffer as well: refused
        for now, or as one that cannot be encoded. */
    method TurnDown(ghost l: Link, ghost out: Fifo, packet: Packet)
      requires connection.Valid() && connection.sendBuffer.borrows == 0
      requires Sound(l) && l.last.Some? && l.last != Some(Accept) && l.tried == Some(packet)
      requires l.answers == BufferAnswers(connection.codec, out)
      requires connection.Out() == Filled(connection.codec, out, l.written)
      modifies connection.SendSide(), connection`accepted
      ensures connection.Valid() && connection.sendBuffer.borrows == 0
      ensures connection.accepted == old(connection.accepted)
    {
      hide TcpConnection.Framed, TcpConnection.Chunked, BufferAnswers, Sound, Filled, StackBuffer.View, StackBuffer.Valid;
      TurnedDown(l, connection.codec, out);
      var taken := connection.TryWritePacket(packet);
      assert taken == (if l.last.value == Refuse then Ok(false) else Err(CodecError));
    }

    /** What the components wrote to `link`, a connection that answers as the send
        buffer does, goes into the send buffer, and the packet that was turned down
        is turned down by the buffer as well, with the same answer. */
    method Settle(link: Connection)
      requires Apart() && connection.Valid() && connection.Idle() && link.Valid()
      requires link.answers == BufferAnswers(connection.codec, connection.Out())
      modifies connection.SendSide(), connection`accepted
      ensures connection.Valid() && connection.Idle()
      ensures state.Same(old(state.View()), old(state.received.View()), old(state.ping.inner), old(state.ping.trace))
      ensures old(state.Valid()) ==> state.Valid()
      ensures connection.accepted == old(connection.accepted) + old(link.written)
    {
      hide TcpConnection.Framed, TcpConnection.Chunked, BufferAnswers, Filled, StackBuffer.View, StackBuffer.Valid;
      hide State.View, State.Valid, TcpConnection.Stream;
      SoundTried(link.View());
      Forward(link.View(), link.written);
      if link.last.Some? && link.last.value != Accept {
        TurnDown(link.View(), old(connection.Out()), link.tried.value);
      }
    }

    /** The components write what they have to send to a connection that answers as
        the send buffer does, which is left alone. */
    method Offer(clock: nat -> int) returns (r: Outcome<SendResult>, link: Connection)
      requires Valid()
      modifies state.publishes, state.received, state.subscribes, state.ping
      ensures connection.Valid() && connection.Idle() && (r != Panic ==> Valid())
      ensures fresh(link) && link.Valid()
      ensures link.answers == BufferAnswers(connection.codec, connection.Out()) && link.clock == clock
      ensures var (q, result) := SendQueues(old(Start(clock)));
        && result == r && link.View() == q.link
        && state.View() == old(state.View()).(publishes := q.publishes, subs := q.subscribes)
        && state.received.View() == q.received && state.ping.inner == q.ping
      ensures old(state.ping.Valid()) && NeverBefore(clock, old(state.ping.trace.now)) ==> state.ping.Valid()
      ensures state.ping.trace == old(state.ping.trace) || Shows(clock, state.ping.trace.now)
      ensures NoNetwork(r)
    {
      hide SendQueues, PO.Reachable, Connection.Valid, State.Valid, NeverBefore, Shows, Pings.PingState.Valid;
      hide TcpConnection.Framed, TcpConnection.Chunked, BufferAnswers, StackBuffer.View, StackBuffer.Valid;
      var out := connection.sendBuffer.buffer.Snapshot();
      link := new Connection(BufferAnswers(connection.codec, out), clock);
      ghost var q := state.Queued(link);
      r := state.SendPackets(link);
      LinkIsSound(link);
      SendNoNetwork(q, connection.codec, out);
    }

    /** The components write what they have to send. The send buffer answers them,
        and it holds what it accepted afterwards. */
    method SendPackets(clock: nat -> int) returns (r: Outcome<SendResult>)
      requires Valid()
      modifies state.publishes, state.received, state.subscribes, state.ping, connection.SendSide(), connection`accepted
      ensures connection.Valid() && connection.Idle() && (r != Panic ==> Valid())
      ensures var (q, result) := SendQueues(old(Start(clock)));
        && result == r
        && state.View() == old(state.View()).(publishes := q.publishes, subs := q.subscribes)
        && state.received.View() == q.received && state.ping.inner == q.ping
        && connection.accepted == old(connection.accepted) + q.link.written
      ensures old(state.ping.Valid()) && NeverBefore(clock, old(state.ping.trace.now)) ==> state.ping.Valid()
      ensures state.ping.trace == old(state.ping.trace) || Shows(clock, state.ping.trace.now)
      ensures NoNetwork(r)
    {
      hide TcpConnection.Framed, TcpConnection.Chunked, SendQueues, BufferAnswers, State.Valid;
      hide NeverBefore, Shows, Pings.PingState.Valid;
      hide StackBuffer.View, StackBuffer.Valid, Connection.Valid, State.View, TcpConnection.Valid, TcpConnection.Stream;
      var link;
      r, link := Offer(clock);
      Settle(link);
    }

    /** Hands a received packet to its component, which does not touch the buffers. */
    method Process(m: MappedPacket, now: int) returns (r: Outcome<bool>)
      requires Apart() && state.Valid() && connection.Valid()
      requires connection.Holds(m)
      modifies state, state.Parts()
      ensures state.Valid() && connection.Valid() && connection.Holds(m)
      ensures Snap() == After(old(Snap()), Some(m.packet), now)
      ensures r == Again(ProcessResult(old(state.publishes.View()), old(state.received.View()), m.packet))
      ensures NoNetwork(r)
      ensures old(state.ping.Valid()) && now >= old(state.ping.trace.now) ==>
        state.ping.Valid() && state.ping.trace.now <= now
    {
      hide TcpConnection.Valid, TcpConnection.Holds, State.Valid, ProcessResult, PO.Apply, PO.Enabled;
      ProcessNoNetwork(state.publishes.View(), state.received.View(), m.packet);
      var processed := state.ProcessPacket(m.packet, now);
      r := Again(processed);
    }

    /** Processes a received packet, then consumes its bytes. */
    method Handle(m: MappedPacket, now: int) returns (r: Outcome<bool>)
      requires Apart() && state.Valid() && connection.Valid() && connection.sendBuffer.borrows == 0
      requires connection.Holds(m)
      modifies state, state.Parts(), connection.recvBuffer, connection.recvBuffer.buffer, connection`returned
      ensures Valid() && connection.returned == old(connection.returned) + [m.packet]
      ensures Snap() == After(old(Snap()), Some(m.packet), now)
      ensures r == Again(ProcessResult(old(state.publishes.View()), old(state.received.View()), m.packet))
      ensures NoNetwork(r)
      ensures old(state.ping.Valid()) && now >= old(state.ping.trace.now) ==>
        state.ping.Valid() && state.ping.trace.now <= now
    {
      hide TcpConnection.Framed, TcpConnection.Chunked, State.Valid, State.View, Handled, ProcessResult, Again, TcpConnection.Holds;
      hide StackBuffer.View, StackBuffer.Valid, TcpConnection.Stream, Fifo.Consumed, Pings.PingState.Valid;
      r := Process(m, now);
      connection.DropPacket(m);
    }

    method Nonblocking(c: Choice) returns (r: Outcome<bool>, ghost handled: Option<Packet>)
      requires Valid() && connection.state == Some(Connected)
      modifies state, state.Parts(), connection.Repr()
      ensures Valid() && connection.state == Some(Connected)
      ensures connection.accepted == old(connection.accepted)
      ensures connection.returned == old(connection.returned) + ToSeq(handled)
      ensures Snap() == After(old(Snap()), handled, c.now)
      ensures old(state.ping.Valid()) && c.now >= old(state.ping.trace.now) ==>
        state.ping.Valid() && state.ping.trace.now <= c.now
      ensures connection.network.Explains(old(connection.network.step), r)
      ensures match handled
              case Some(p) => r == Again(ProcessResult(old(state.publishes.View()), old(state.received.View()), p))
              case None => r == Ok(true) || r.Pending? || IoFails(r)
    {
      hide TcpConnection.Framed, TcpConnection.Chunked, PO.Reachable, Handled, ProcessResult, Again;
      hide State.Valid, State.View, StackBuffer.View, StackBuffer.Valid, TcpConnection.Stream, Fifo.Consumed;
      hide TcpConnection.Holds, Pings.PingState.Valid;
      handled := None;
      NothingAfter(Snap(), c.now);
      var packet := connection.RunIoNonblocking();
      match packet {
        case Ok(Some(m)) =>
          handled := Some(m.packet);
          r := Handle(m, c.now);
        case Ok(None) => r := Ok(true);
        case Err(e) => r := Err(e);
        case Pending => r := Pending;
      }
    }

    /** Waits for a request, the ping pause or a packet, in this order. */
    method Blocking(c: Choice) returns (r: Outcome<bool>, ghost handled: Option<Packet>)
      requires Valid() && connection.state == Some(Connected)
      modifies state, state.Parts(), connection.Repr()
      ensures Valid() && connection.state == Some(Connected)
      ensures connection.accepted == old(connection.accepted)
      ensures connection.returned == old(connection.returned) + ToSeq(handled)
      ensures Snap() == After(old(Snap()), handled, c.now)
      ensures old(state.ping.Valid()) && c.now >= old(state.ping.trace.now) ==>
        state.ping.Valid() && state.ping.trace.now <= c.now
      ensures connection.network.Explains(old(connection.network.step), r)
      ensures c.early == DisconnectRequest ==> r == Ok(false) && handled.None?
      ensures c.early == OtherEvent ==> r == Ok(true) && handled.None?
      ensures c.early == Nothing ==>
        match handled
        case Some(p) => r == Again(ProcessResult(old(state.publishes.View()), old(state.received.View()), p))
        case None => IoFails(r) || (connection.network.Waits(old(connection.network.step)) && Interrupts(c.late, r))
    {
      hide TcpConnection.Framed, TcpConnection.Chunked, Networks.NeverEmpty, Handled, ProcessResult, Again;
      hide State.Valid, State.View, StackBuffer.View, StackBuffer.Valid, TcpConnection.Stream, Fifo.Consumed;
      hide TcpConnection.Holds, Pings.PingState.Valid;
      handled := None;
      NothingAfter(Snap(), c.now);
      if c.early != Nothing {
        r := if c.early == DisconnectRequest then Ok(false) else Ok(true);
        return;
      }
      var packet := connection.RunIo();
      match packet {
        case Ok(m) =>
          handled := Some(m.packet);
          r := Handle(m, c.now);
        case Err(e) => r := Err(e);
        case Pending =>
          r := match c.late
            case Nothing => Pending
            case DisconnectRequest => Ok(false)
            case OtherEvent => Ok(true);
      }
    }

    /** One iteration while connected: a pass over what the send buffer answers,
        then at most one received packet for its component. */
    method Iterate(c: Choice) returns (r: Outcome<bool>, ghost handled: Option<Packet>)
      requires Valid() && connection.state == Some(Connected)
      modifies state, state.Parts(), connection.Repr()
      ensures connection.Valid() && connection.Idle() && (r != Panic ==> Valid())
      ensures connection.state == Some(Connected)
      ensures var (q, sent) := SendQueues(old(Start(c.clock)));
        && connection.accepted == old(connection.accepted) + q.link.written
        && connection.returned == old(connection.returned) + ToSeq(handled)
        && Snap() == After(Sent(old(state.View()), q), handled, c.now)
        && Iterates(c, q, sent, handled, r, connection.network.Waits(old(connection.network.step)))
      ensures connection.network.Explains(old(connection.network.step), r)
      ensures old(state.ping.Valid()) && Ticks(c, old(state.ping.trace.now)) ==>
        state.ping.Valid() && state.ping.trace.now <= c.now
    {
      hide TcpConnection.Framed, TcpConnection.Chunked, SendQueues, Handled, PO.Reachable;
      handled := None;
      var sent := SendPackets(c.clock);
      NothingAfter(Snap(), c.now);
      match sent {
        case Ok(PartiallySent) => r, handled := Nonblocking(c);
        case Ok(SentAll) => r, handled := Blocking(c);
        case Err(e) => r := Err(e);
        case Panic => r := Panic;
        case Pending => r := Pending;
      }
    }

    /** Connects unless it is connected; the components keep what they have. */
    method EnsureConnected(ghost clock: nat -> int) returns (r: Outcome<()>)
      requires Valid()
      requires connection.state in {None, Some(Error), Some(Connected)}
      modifies state, state.pool, connection.Repr()
      ensures Valid()
      ensures r.Ok? <==> connection.state == Some(Connected)
      ensures connection.state != Some(Disconnected)
      ensures old(connection.state) == Some(Connected) ==> r.Ok? && Start(clock) == old(Start(clock))
      ensures Start(clock) == old(Start(clock)).(link := Start(clock).link)
      ensures SameQueues(old(state.View()), state.View())
      ensures Snap() == Snapshot(state.View(), Start(clock).received, Start(clock).ping)
      ensures connection.network.Explains(old(connection.network.step), r)
    {
      hide TcpConnection.Framed, TcpConnection.Chunked, TakenTimes, StackBuffer.View, StackBuffer.Valid, State.Valid;
      r := Ok(());
      if connection.state != Some(Connected) {
        ghost var taken;
        r, taken := state.Connect(connection);
      }
    }

    /** One iteration. It ends the loop only on a disconnect request, while
        connected, and after everything there was to send was accepted. */
    method RunOnce(c: Choice) returns (r: Outcome<bool>, ghost round: Round)
      requires Valid()
      requires connection.state in {None, Some(Error), Some(Connected)}
      modifies state, state.Parts(), connection.Repr()
      ensures connection.Valid() && connection.Idle() && (r != Panic ==> Valid())
      ensures r.Ok? ==> connection.state == Some(Connected)
      ensures connection.state != Some(Disconnected)
      ensures round.asked == old(state.View()) && SameQueues(round.asked, round.ready)
      ensures round.start == old(Start(c.clock)).(link := round.start.link)
      ensures round.waits == connection.network.Waits(old(connection.network.step))
      ensures if round.connected then
          var (q, sent) := SendQueues(round.start);
          && connection.state == Some(Connected)
          && Iterates(c, q, sent, round.handled, r, round.waits)
          && Snap() == After(Sent(round.ready, q), round.handled, c.now)
        else !r.Ok? && round.handled.None? && Snap() == Snapshot(round.ready, round.start.received, round.start.ping)
      ensures old(connection.state) == Some(Connected) ==> round.connected && round.start == old(Start(c.clock))
      ensures connection.network.Explains(old(connection.network.step), r)
      ensures old(state.ping.Valid()) && Ticks(c, old(state.ping.trace.now)) ==>
        state.ping.Valid() && state.ping.trace.now <= c.now
    {
      hide TcpConnection.Framed, TcpConnection.Chunked, SendQueues, Handled, PO.Reachable, Iterates, Start, State.Valid;
      hide StackBuffer.View, StackBuffer.Valid, TcpConnection.Stream, NeverBefore, Shows, Pings.PingState.Valid;
      hide State.View, After, SameQueues, Sent;
      ghost var asked, before := state.View(), connection.network.step;
      ghost var handled := None;
      var joined := EnsureConnected(c.clock);
      ghost var start, ready := Start(c.clock), state.View();
      match joined {
        case Ok(_) =>
          ghost var step := connection.network.step;
          r, handled := Iterate(c);
          IteratesLater(c, SendQueues(start).0, SendQueues(start).1, handled, r, connection.network.Waits(step),
                        connection.network.Waits(before));
        case Err(e) => r := Err(e);
        case Panic => r := Panic;
        case Pending => r := Pending;
      }
      round := Round(asked, ready, start, joined.Ok?, handled, connection.network.Waits(before));
    }

    /** The reasons for a DISCONNECT that does not go out. */
    ghost predicate DisconnectFails(r: Outcome<()>)
      reads connection, connection.sendBuffer.buffer, connection.sendBuffer.buffer.data
      requires connection.sendBuffer.buffer.Valid()
    {
      match r
      case Ok(_) => false
      case Pending => true
      case Panic => false
      case Err(e) =>
        e == ConnectionFailed
        || (e == CodecError && connection.codec.encode(Packet.Disconnect).None?)
        || (e == BufferTooSmall && |Encoding(connection.codec)(Packet.Disconnect)| > connection.Out().cap)
    }

    /** The DISCONNECT packet cannot be encoded, or not even into the empty buffer. */
    ghost predicate TooMuch()
      reads connection.sendBuffer.buffer, connection.sendBuffer.buffer.data
      requires connection.sendBuffer.buffer.Valid()
    {
      || connection.codec.encode(Packet.Disconnect).None?
      || |Encoding(connection.codec)(Packet.Disconnect)| > connection.Out().cap
    }

    /** A request of the application, which may wait, be accepted, or make its own
        task panic. */
    method Serve(request: Request)
      requires state.Valid()
      modifies state, state.pool, state.publishes, state.subscribes
      ensures state.Valid()
      ensures Asks(old(state.View()), request, state.View())
    {
      hide State.Valid, PO.Apply;
      match request {
        case ToPublish(qos, retain, topic, payload, uid) =>
          var _ := state.Call(qos, retain, topic, payload, uid);
        case ToPoll(k) =>
          if k < |state.callers| {
            var _ := state.Poll(k);
          }
        case ToSubscribe(topics, kind, uid) =>
          var _ := state.Request(topics, kind, uid);
      }
    }

    /** The requests made before an iteration. */
    method ServeAll(requests: seq<Request>)
      requires Valid()
      modifies state, state.pool, state.publishes, state.subscribes
      ensures Valid()
      ensures AsksAll(old(state.View()), requests, state.View())
    {
      hide TcpConnection.Valid, State.Valid, State.View, StackBuffer.View, StackBuffer.Valid, Asks;
      var i := 0;
      while i < |requests|
        invariant i <= |requests| && Valid()
        invariant AsksAll(old(state.View()), requests[..i], state.View())
      {
        ghost var m := state.View();
        Serve(requests[i]);
        AsksMore(old(state.View()), requests[..i], m, requests[i], state.View());
        assert requests[..i] + [requests[i]] == requests[..i + 1];
        i := i + 1;
      }
      assert requests[..|requests|] == requests;
    }

    /** One turn of the loop, with the requests made before it. */
    method Turn(c: Choice) returns (r: Outcome<bool>, ghost round: Round)
      requires Valid()
      requires connection.state in {None, Some(Error), Some(Connected)}
      modifies state, state.Parts(), connection.Repr()
      ensures connection.Valid() && connection.Idle() && (r != Panic ==> Valid())
      ensures r.Ok? ==> connection.state == Some(Connected)
      ensures connection.state != Some(Disconnected)
      ensures Happened(old(Snap()), c, round, r, Snap())
      ensures round.waits == connection.network.Waits(old(connection.network.step))
      ensures old(connection.state) == Some(Connected) ==> round.connected
      ensures connection.network.Explains(old(connection.network.step), r)
      ensures old(state.ping.Valid()) && Ticks(c, old(state.ping.trace.now)) ==>
        state.ping.Valid() && state.ping.trace.now <= c.now
    {
      hide TcpConnection.Valid, State.Valid, StackBuffer.View, StackBuffer.Valid, Ticks, SendQueues, Iterates, AsksAll;
      hide Handled, TcpConnection.Stream, Pings.PingState.Valid;
      ServeAll(c.requests);
      r, round := RunOnce(c);
    }

    /** One turn, after which the loop can go on: after an error of the connection in
        the state Error. */
    method TurnAround(c: Choice) returns (r: Outcome<bool>, ghost round: Round)
      requires Valid()
      requires connection.state in {None, Some(Error), Some(Connected)}
      modifies state, state.Parts(), connection.Repr()
      ensures connection.Valid() && connection.Idle() && (r != Panic ==> Valid())
      ensures GoesOn(r) ==> connection.state == (if r.Ok? then Some(Connected) else Some(Error))
      ensures r == Ok(false) ==> connection.state == Some(Connected)
      ensures Happened(old(Snap()), c, round, r, Snap())
      ensures connection.network.Explains(old(connection.network.step), r)
      ensures old(state.ping.Valid()) && Ticks(c, old(state.ping.trace.now)) ==>
        state.ping.Valid() && state.ping.trace.now <= c.now
    {
      hide TcpConnection.Framed, TcpConnection.Chunked, State.Valid, StackBuffer.View, StackBuffer.Valid, Ticks;
      hide Happened, State.View, Pings.PingState.Valid, TcpConnection.Stream;
      r, round := Turn(c);
      if r.Err? && Recoverable(r.error) {
        connection.SetError();
      }
    }

    /** One turn more of a course that began with `before`. */
    method NextTurn(choices: seq<Choice>, i: nat, ghost before: Snapshot, ghost course: Course)
      returns (r: Outcome<bool>, ghost longer: Course)
      requires Valid() && i < |choices|
      requires connection.state in {None, Some(Error), Some(Connected)}
      requires Leads(before, choices, course, Snap()) && |course.turns| == i && !course.Over()
      modifies state, state.Parts(), connection.Repr()
      ensures connection.Valid() && connection.Idle() && (r != Panic ==> Valid())
      ensures GoesOn(r) ==> connection.state == (if r.Ok? then Some(Connected) else Some(Error))
      ensures r == Ok(false) ==> connection.state == Some(Connected)
      ensures Leads(before, choices, longer, Snap()) && longer.turns == course.turns + [r]
      ensures connection.network.Explains(old(connection.network.step), r)
      ensures old(state.ping.Valid()) && Ticks(choices[i], old(state.ping.trace.now)) ==>
        state.ping.Valid() && state.ping.trace.now <= choices[i].now
    {
      hide TcpConnection.Framed, TcpConnection.Chunked, Happened, State.View, State.Valid, TcpConnection.Stream;
      hide StackBuffer.View, StackBuffer.Valid, Ticks, Pings.PingState.Valid, Leads;
      ghost var view := Snap();
      ghost var round;
      r, round := TurnAround(choices[i]);
      LeadsOn(before, choices, course, view, r, round, Snap());
      longer := course.Add(r, round, Snap());
    }

    /** The turns of the loop until one of them does not go on, or the choices are
        used up. `last` is what the loop ends with. */
    method Turns(choices: seq<Choice>) returns (last: Outcome<bool>, ghost course: Course)
      requires Valid()
      requires connection.state == None || connection.state == Some(Error)
      modifies state, state.Parts(), connection.Repr()
      ensures connection.Valid() && connection.Idle() && (last != Panic ==> Valid())
      ensures last == Ok(false) ==> connection.state == Some(Connected)
      ensures Leads(old(Snap()), choices, course, Snap())
      ensures if course.Over() then last == course.turns[|course.turns| - 1]
              else |course.turns| == |choices| && last == Pending
      ensures connection.network.step >= old(connection.network.step)
      ensures course.Over() ==> connection.network.Explains(old(connection.network.step), last)
      ensures old(state.ping.Valid()) && ClockRuns(choices, old(state.ping.trace.now)) ==> state.ping.Valid()
    {
      hide TcpConnection.Framed, TcpConnection.Chunked, Happened, State.View, State.Valid, TcpConnection.Stream;
      hide StackBuffer.View, StackBuffer.Valid, ClockRuns, Ticks, Pings.PingState.Valid, Leads, SameQueues;
      course := Course([], [], [Snap()]);
      NothingLeads(Snap(), choices);
      ghost var time := state.ping.trace.now;
      assert choices[0..] == choices;
      var i := 0;
      while i < |choices|
        invariant Valid() && |course.turns| == i && !course.Over()
        invariant Leads(old(Snap()), choices, course, Snap())
        invariant connection.network.step >= old(connection.network.step)
        invariant i <= |choices| && connection.state in {None, Some(Error), Some(Connected)}
        invariant old(state.ping.Valid()) && ClockRuns(choices, old(state.ping.trace.now)) ==>
            state.ping.Valid() && state.ping.trace.now <= time && ClockRuns(choices[i..], time)
        decreases |choices| - i
      {
        if ClockRuns(choices[i..], time) && state.ping.trace.now <= time {
          ClockGoesOn(choices, i, time, state.ping.trace.now);
        }
        time := choices[i].now;
        last, course := NextTurn(choices, i, old(Snap()), course);
        i := i + 1;
        if last != Ok(true) && !(last.Err? && Recoverable(last.error)) {
          return;
        }
      }
      last := Pending;
    }

    /** The end of the loop: it disconnects if it was asked to. */
    method Finish(last: Outcome<bool>) returns (r: Outcome<()>)
      requires connection.Valid() && connection.Idle() && Apart() && last != Ok(true)
      requires last == Ok(false) ==> connection.state == Some(Connected)
      modifies connection.Repr()
      ensures connection.Valid() && connection.Idle()
      ensures match last
              case Ok(_) => (r.Ok? || DisconnectFails(r)) && connection.network.Explains(old(connection.network.step), r)
              case Err(e) => r == Err(e)
              case Panic => r == Panic
              case Pending => r == Pending
      ensures connection.network.step >= old(connection.network.step)
      ensures last != Ok(false) ==> connection.network.step == old(connection.network.step)
      ensures r.Ok? ==>
        && connection.state == Some(Disconnected) && !connection.connection
        && connection.accepted != []
        && connection.accepted[|connection.accepted| - 1] == Packet.Disconnect
        && connection.network.sent == Frames(connection.codec, connection.accepted)
        && connection.network.flushed == |connection.network.sent|
    {
      hide TcpConnection.Framed, TcpConnection.Chunked, Frames, Encoding, Networks.Network.Cooperative;
      hide StackBuffer.View, StackBuffer.Valid, TcpConnection.Stream;
      match last {
        case Ok(_) => r := connection.Disconnect();
        case Err(e) => r := Err(e);
        case Panic => r := Panic;
        case Pending => r := Pending;
      }
    }

    /** The whole loop. Every call inside meets the assertions of the source:
        connecting only without a state or after an error, input and output and
        disconnecting only while connected, no buffer borrowed twice. Unless it
        panics, queues, identifiers, keep-alive and both byte streams are in
        states that their own runs reach. When it ends well, everything accepted
        on the last connection is on the wire, with a DISCONNECT packet last.
        The course says what happened in every turn; the last one decides. */
    method Run(choices: seq<Choice>) returns (r: Outcome<()>, ghost course: Course)
      requires Valid()
      requires connection.state == None || connection.state == Some(Error)
      modifies state, state.Parts(), connection.Repr()
      ensures connection.Valid() && connection.Idle() && (r != Panic ==> Valid())
      ensures r.Ok? ==>
        && connection.state == Some(Disconnected) && !connection.connection
        && connection.accepted != []
        && connection.accepted[|connection.accepted| - 1] == Packet.Disconnect
        && connection.network.sent == Frames(connection.codec, connection.accepted)
        && connection.network.flushed == |connection.network.sent|
      ensures Leads(old(Snap()), choices, course, Snap())
      ensures Concluded(course, |choices|, r)
      ensures r.Ok? ==> AskedToEnd(course)
      ensures AskedToEnd(course) ==> r.Ok? || DisconnectFails(r)
      ensures course.Over() ==> connection.network.Explains(old(connection.network.step), r)
      ensures old(state.ping.Valid()) && ClockRuns(choices, old(state.ping.trace.now)) ==> state.ping.Valid()
    {
      hide TcpConnection.Framed, TcpConnection.Chunked, Frames, ClockRuns, Networks.Network.Cooperative;
      hide State.Valid, StackBuffer.View, StackBuffer.Valid, TcpConnection.Stream, Pings.PingState.Valid;
      hide State.View, Leads, Encoding;
      var last;
      last, course := Turns(choices);
      assert last.Ok? ==> !last.value && AskedToEnd(course);
      r := Finish(last);
    }

    /** A loop that was asked to disconnect ends well, on a network that answered
        every call, unless the DISCONNECT packet cannot be written at all. */
    method RunServed(choices: seq<Choice>) returns (r: Outcome<()>, ghost course: Course)
      requires Valid()
      requires connection.state == None || connection.state == Some(Error)
      modifies state, state.Parts(), connection.Repr()
      ensures connection.Valid() && Leads(old(Snap()), choices, course, Snap())
      ensures AskedToEnd(course) && connection.network.Served(old(connection.network.step)) && !TooMuch() ==> r.Ok?
    {
      hide TcpConnection.Framed, TcpConnection.Chunked, Frames, State.Valid, StackBuffer.View, StackBuffer.Valid;
      hide State.View, Leads, Networks.Network.Served, Encoding, ClockRuns;
      r, course := Run(choices);
      if connection.network.Served(old(connection.network.step)) && course.Over() {
        connection.network.ServedExplains(old(connection.network.step), r);
      }
    }
  }
}
