/** Sender and receiver joined by two lossless channels, without retransmission:
    the exactly-once promise of section 4.3.3 of MQTT 3.1.1. */
module EndToEnd {
  import opened Mqtt
  import opened Seqs
  import opened PidPools
  import PM = PublishModel
  import PR = PublishRuns
  import PT = PublishTheorems
  import RM = ReceiveModel
  import SM = SubscribeModel
  import RR = ReceiveRuns
  import PO = PidOwnership

  type OwnedPublish = PM.OwnedPublish

  /** A packet on its way to the receiver. A publish keeps the label of its
      request, which neither side reads. */
  datatype Frame = PublishFrame(pub: OwnedPublish) | PubrelFrame(pid: Pid)

  datatype World = World(
    client: PO.System,
    up: seq<Frame>,
    peer: RM.Receiver,
    down: seq<Packet>,
    delivered: seq<OwnedPublish>)

  function Init(cap: nat, peerCap: nat, wireTopicSize: nat, limits: RM.Limits): World {
    World(PO.Init(cap, wireTopicSize), [], RM.Init(peerCap, limits), [], [])
  }

  datatype Step =
    | Local(a: PO.Step)
    | SendPublish(i: nat, now: int)
    | SendPubrel(now: int)
    | PeerTakes
    | PeerSends(b: RM.Step)
    | ClientTakes

  /** The client's own steps, in which no publish packet moves; a publish that
      does not fit into the buffers is not accepted by the client. */
  ghost predicate LocalEnabled(w: World, a: PO.Step) {
    && PO.Enabled(w.client, a)
    && !a.PublishStep?
    && (a.Call? ==> |a.topic| <= w.peer.limits.topicSize && |a.payload| <= w.peer.limits.bufferSize)
  }

  ghost predicate Enabled(w: World, a: Step) {
    match a
    case Local(b) => LocalEnabled(w, b)
    case SendPublish(i, now) => PM.Enabled(w.client.publishes, PM.StepTransmit(i, now))
    case SendPubrel(now) => PM.Enabled(w.client.publishes, PM.StepTransmitPubrel(now))
    case PeerTakes => w.up != []
    case PeerSends(b) => (b.StepWritePuback? || b.StepWritePubrec? || b.StepWritePubcomp?) && RM.Enabled(w.peer, b)
    case ClientTakes => w.down != []
  }

  /** The packet that a sending step of the receiver puts on the wire. */
  function Reply(s: RM.Receiver, b: RM.Step): Packet
    requires match b
             case StepWritePuback(i) => i < |s.sendPuback|
             case StepWritePubrec(i) => i < |s.sendPubrec|
             case StepWritePubcomp(i) => i < |s.sendPubcomp|
             case _ => false
  {
    match b
    case StepWritePuback(i) => Puback(s.sendPuback[i])
    case StepWritePubrec(i) => Pubrec(s.sendPubrec[i])
    case StepWritePubcomp(i) => Pubcomp(s.sendPubcomp[i])
  }

  /** The receiver handles the packet of a frame. */
  function PeerHandles(s: RM.Receiver, f: Frame): (RM.Receiver, Outcome<()>) {
    match f
    case PublishFrame(pub) => RM.OnPublish(s, pub.m)
    case PubrelFrame(pid) => RM.OnPubrel(s, pid)
  }

  /** The step that the client makes on an acknowledgement. */
  function ClientStep(p: Packet): PM.Step {
    match p
    case Puback(pid) => PM.StepPuback(pid)
    case Pubrec(pid) => PM.StepPubrec(pid)
    case Pubcomp(pid) => PM.StepPubcomp(pid)
    case _ => PM.StepPuback(1)
  }

  ghost function Apply(w: World, a: Step): World
    requires Enabled(w, a)
  {
    match a
    case Local(b) => w.(client := PO.Apply(w.client, b))
    case SendPublish(i, now) =>
      w.(client := PO.Apply(w.client, PO.PublishStep(PM.StepTransmit(i, now))),
         up := w.up + [PublishFrame(w.client.publishes.sendPublish[i])])
    case SendPubrel(now) =>
      w.(client := PO.Apply(w.client, PO.PublishStep(PM.StepTransmitPubrel(now))),
         up := w.up + [PubrelFrame(w.client.publishes.sendPubrel[0].pid)])
    case PeerTakes =>
      var peer := PeerHandles(w.peer, w.up[0]).0;
      w.(peer := peer, up := w.up[1..],
         delivered := if w.up[0].PublishFrame? && |peer.log| > |w.peer.log| && peer.log[|w.peer.log|].Delivered?
                      then w.delivered + [w.up[0].pub] else w.delivered)
    case PeerSends(b) => w.(peer := RM.Apply(w.peer, b), down := w.down + [Reply(w.peer, b)])
    case ClientTakes =>
      w.(client := PO.Apply(w.client, PO.PublishStep(ClientStep(w.down[0]))), down := w.down[1..])
  }

  ghost predicate CanRun(w: World, run: seq<Step>)
    decreases |run|
  {
    run != [] ==> Enabled(w, run[0]) && CanRun(Apply(w, run[0]), run[1..])
  }

  ghost function Run(w: World, run: seq<Step>): World
    requires CanRun(w, run)
    decreases |run|
  {
    if run == [] then w else Run(Apply(w, run[0]), run[1..])
  }

  lemma {:induction false} RunSnoc(w: World, run: seq<Step>, a: Step)
    requires CanRun(w, run) && Enabled(Run(w, run), a)
    ensures CanRun(w, run + [a]) && Run(w, run + [a]) == Apply(Run(w, run), a)
    decreases |run|
  {
    hide Enabled, Apply;
    if run == [] {
      assert run + [a] == [a] && [a][1..] == [];
    } else {
      assert (run + [a])[1..] == run[1..] + [a];
      RunSnoc(Apply(w, run[0]), run[1..], a);
    }
  }

  // ---- what travels ----

  function UpPublish1(f: Frame): seq<Pid> {
    if f.PublishFrame? && f.pub.m.qospid.AtLeastOnce? then [f.pub.m.qospid.pid] else []
  }

  function UpPublish2(f: Frame): seq<Pid> {
    if f.PublishFrame? && f.pub.m.qospid.ExactlyOnce? then [f.pub.m.qospid.pid] else []
  }

  function UpPubrel(f: Frame): seq<Pid> { if f.PubrelFrame? then [f.pid] else [] }

  function DownPuback(p: Packet): seq<Pid> { if p.Puback? then [p.pid] else [] }

  function DownPubrec(p: Packet): seq<Pid> { if p.Pubrec? then [p.pid] else [] }

  function DownPubcomp(p: Packet): seq<Pid> { if p.Pubcomp? then [p.pid] else [] }

  // ---- one token per identifier in flight ----

  /** What is held at one end is on its way out, queued at the other end, or on
      its way back. */
  ghost predicate Flow(held: multiset<Pid>, going: multiset<Pid>, queued: multiset<Pid>, coming: multiset<Pid>) {
    held == going + queued + coming
  }

  lemma FlowEnter(held: multiset<Pid>, going: multiset<Pid>, queued: multiset<Pid>, coming: multiset<Pid>, x: multiset<Pid>)
    requires Flow(held, going, queued, coming)
    ensures Flow(held + x, going + x, queued, coming)
  {
  }

  lemma FlowArrive(held: multiset<Pid>, going: multiset<Pid>, queued: multiset<Pid>, coming: multiset<Pid>, x: multiset<Pid>)
    requires Flow(held, x + going, queued, coming)
    ensures Flow(held, going, queued + x, coming)
  {
  }

  lemma FlowReply(held: multiset<Pid>, going: multiset<Pid>, queued: multiset<Pid>, coming: multiset<Pid>, x: multiset<Pid>)
    requires Flow(held, going, queued + x, coming)
    ensures Flow(held, going, queued, coming + x)
  {
  }

  lemma FlowLeave(held: multiset<Pid>, going: multiset<Pid>, queued: multiset<Pid>, coming: multiset<Pid>, x: multiset<Pid>)
    requires Flow(held + x, going, queued, x + coming)
    ensures Flow(held, going, queued, coming)
  {
    forall p
      ensures held[p] == (going + queued + coming)[p]
    {
      assert (held + x)[p] == (going + queued + (x + coming))[p];
    }
  }

  /** A publish that awaits its PUBACK is on its way up, or its PUBACK is due
      or on its way down. */
  ghost predicate PubackTokens(w: World) {
    Flow(Bag(PT.AwaitPid, w.client.publishes.awaitPuback),
         Bag(UpPublish1, w.up), multiset(w.peer.sendPuback), Bag(DownPuback, w.down))
  }

  /** ... likewise with its PUBREC ... */
  ghost predicate PubrecTokens(w: World) {
    Flow(Bag(PT.AwaitPid, w.client.publishes.awaitPubrec),
         Bag(UpPublish2, w.up), multiset(w.peer.sendPubrec), Bag(DownPubrec, w.down))
  }

  /** ... and a released publish with its PUBCOMP. */
  ghost predicate PubcompTokens(w: World) {
    Flow(Bag(PT.PubcompPid, w.client.publishes.awaitPubcomp),
         Bag(UpPubrel, w.up), multiset(w.peer.sendPubcomp), Bag(DownPubcomp, w.down))
  }

  /** The receiver remembers an identifier from its PUBREC to its PUBREL. */
  ghost predicate PubrelTokens(w: World) {
    Flow(multiset(w.peer.awaitPubrel),
         Bag(DownPubrec, w.down), Bag(PT.PubrelPid, w.client.publishes.sendPubrel), Bag(UpPubrel, w.up))
  }

  ghost predicate Tokens(w: World) {
    PubackTokens(w) && PubrecTokens(w) && PubcompTokens(w) && PubrelTokens(w)
  }

  predicate Fits(limits: RM.Limits, pub: OwnedPublish) {
    |pub.m.topic| <= limits.topicSize && |pub.m.payload| <= limits.bufferSize
  }

  /** Queues of the same capacity, as far as there are identifiers to fill them. */
  predicate Matching(cap: nat, peerCap: nat) {
    Min(cap, MOST_PIDS) == Min(peerCap, MOST_PIDS)
  }

  /** Identifiers run out before a client with this capacity has filled both of
      its queues for pubrels and has one more publish to release. */
  predicate Ample(cap: nat) {
    2 * cap + 1 > MOST_PIDS
  }

  /** Capacities for which back-pressure is enough. */
  predicate Suitable(cap: nat, peerCap: nat) {
    Matching(cap, peerCap) || (cap < peerCap && Ample(cap))
  }

  /** Every publish that awaits its PUBREC will find room for its pubrel. */
  predicate ReleaseRoom(s: PM.Sender) {
    |s.awaitPubrec| + |s.sendPubrel| <= s.cap
  }

  /** Sizes and kinds of what is queued and what travels. */
  ghost predicate Shapes(w: World) {
    && Suitable(w.client.publishes.cap, w.peer.cap)
    && (Ample(w.client.publishes.cap) ==> ReleaseRoom(w.client.publishes))
    && (forall p :: p in w.client.callers ==> Fits(w.peer.limits, p))
    && (forall p :: p in w.client.publishes.sendPublish ==> Fits(w.peer.limits, p))
    && (forall f :: f in w.up && f.PublishFrame? ==> Fits(w.peer.limits, f.pub))
    && (forall p :: p in w.down ==> p.Puback? || p.Pubrec? || p.Pubcomp?)
    && (forall e :: e in w.client.publishes.sendPubrel ==> e.uid.Some?)
  }

  lemma BagHead<T, U>(f: T -> seq<U>, s: seq<T>)
    requires s != []
    ensures Bag(f, s) == multiset(f(s[0])) + Bag(f, s[1..])
  {
    BagRemove(f, s, 0);
    assert RemoveAt(s, 0) == s[1..];
  }

  lemma PidsSnoc(q: seq<Pid>, p: Pid)
    ensures multiset(q + [p]) == multiset(q) + multiset{p}
  {
  }

  // ---- consequences of the tokens ----

  ghost predicate Inv(w: World) {
    PO.Inv(w.client) && RR.Bounded(w.peer) && Tokens(w) && Shapes(w)
  }

  lemma AwaitSizes(s: PM.Sender)
    ensures |Bag(PT.AwaitPid, s.awaitPuback)| == |s.awaitPuback|
    ensures |Bag(PT.AwaitPid, s.awaitPubrec)| == |s.awaitPubrec|
    ensures |Bag(PT.PubcompPid, s.awaitPubcomp)| == |s.awaitPubcomp|
  {
    FlatMapLength(PT.AwaitPid, s.awaitPuback);
    FlatMapLength(PT.AwaitPid, s.awaitPubrec);
    FlatMapLength(PT.PubcompPid, s.awaitPubcomp);
  }

  lemma PubrelSize(q: seq<PM.PubrelEntry>)
    requires forall e :: e in q ==> e.uid.Some?
    ensures |Bag(PT.PubrelPid, q)| == |q|
  {
    FlatMapLength(PT.PubrelPid, q);
  }

  lemma ClientBounds(s: PM.Sender)
    requires PR.Inv(s)
    ensures PR.Bounded(s)
  {
  }

  /** The awaiting queues are bounded by their capacity and by the identifiers. */
  lemma AwaitBounds(g: PO.System)
    requires PO.Inv(g)
    ensures |g.publishes.awaitPuback| <= Min(g.publishes.cap, MOST_PIDS)
    ensures |g.publishes.awaitPubrec| <= Min(g.publishes.cap, MOST_PIDS)
    ensures |g.publishes.awaitPubcomp| <= Min(g.publishes.cap, MOST_PIDS)
    ensures |g.publishes.awaitPubrec| + |Bag(PT.PubrelPid, g.publishes.sendPubrel)| + |g.publishes.awaitPubcomp| <= MOST_PIDS
  {
    hide Bag, PT.Faithful, PO.Ledger, PO.Balanced, PR.Inv;
    PO.HeldAtMost(g);
    ClientBounds(g.publishes);
    AwaitSizes(g.publishes);
  }

  /** The token equations at one identifier. */
  lemma TokenCounts(w: World, p: Pid)
    requires Tokens(w)
    ensures Bag(PT.AwaitPid, w.client.publishes.awaitPuback)[p]
         == Bag(UpPublish1, w.up)[p] + multiset(w.peer.sendPuback)[p] + Bag(DownPuback, w.down)[p]
    ensures Bag(PT.AwaitPid, w.client.publishes.awaitPubrec)[p]
         == Bag(UpPublish2, w.up)[p] + multiset(w.peer.sendPubrec)[p] + Bag(DownPubrec, w.down)[p]
    ensures Bag(PT.PubcompPid, w.client.publishes.awaitPubcomp)[p]
         == Bag(UpPubrel, w.up)[p] + multiset(w.peer.sendPubcomp)[p] + Bag(DownPubcomp, w.down)[p]
    ensures multiset(w.peer.awaitPubrel)[p]
         == Bag(DownPubrec, w.down)[p] + Bag(PT.PubrelPid, w.client.publishes.sendPubrel)[p] + Bag(UpPubrel, w.up)[p]
  {
    hide Bag;
  }

  /** The token equations in sizes. */
  lemma TokenSizes(w: World)
    requires Tokens(w)
    ensures |w.client.publishes.awaitPuback|
         == |Bag(UpPublish1, w.up)| + |w.peer.sendPuback| + |Bag(DownPuback, w.down)|
    ensures |w.client.publishes.awaitPubrec|
         == |Bag(UpPublish2, w.up)| + |w.peer.sendPubrec| + |Bag(DownPubrec, w.down)|
    ensures |w.client.publishes.awaitPubcomp|
         == |Bag(UpPubrel, w.up)| + |w.peer.sendPubcomp| + |Bag(DownPubcomp, w.down)|
    ensures |w.peer.awaitPubrel|
         == |Bag(DownPubrec, w.down)| + |Bag(PT.PubrelPid, w.client.publishes.sendPubrel)| + |Bag(UpPubrel, w.up)|
  {
    hide Bag;
    assert |multiset(w.peer.awaitPubrel)| == |w.peer.awaitPubrel|;
    AwaitSizes(w.client.publishes);
  }

  /** Nothing that is on its way up can overflow a queue of the receiver. */
  lemma RoomForArrivals(w: World)
    requires Inv(w)
    ensures |Bag(UpPublish1, w.up)| + |w.peer.sendPuback| <= w.peer.cap
    ensures |Bag(UpPublish2, w.up)| + |w.peer.sendPubrec| <= w.peer.cap
    ensures |Bag(UpPubrel, w.up)| + |w.peer.sendPubcomp| <= w.peer.cap
  {
    hide Bag, PO.Inv, RR.Bounded, Tokens;
    AwaitBounds(w.client);
    TokenSizes(w);
  }

  /** A QoS 2 publish that arrives is new to the receiver and finds room. */
  lemma PublishIsNew(w: World, p: OwnedPublish, pid: Pid)
    requires w.up != [] && w.up[0] == PublishFrame(p) && p.m.qospid == ExactlyOnce(pid)
    requires Inv(w)
    ensures !RM.IsDup(w.peer, pid) && |w.peer.sendPubrec| < w.peer.cap
  {
    hide Bag, PT.Faithful, PO.Ledger, PO.Balanced, PR.Inv, RR.Bounded, Shapes, Tokens;
    BagHead(UpPublish2, w.up);
    RoomForArrivals(w);
    PT.FaithfulOwnsOnce(w.client.publishes, pid);
    TokenCounts(w, pid);
    assert multiset(w.peer.sendPubrec)[pid] == 0;
    assert multiset(w.peer.awaitPubrel)[pid] == 0;
    assert multiset(w.peer.sendPubcomp)[pid] == 0;
  }

  lemma PubackHasRoom(w: World, p: OwnedPublish, pid: Pid)
    requires w.up != [] && w.up[0] == PublishFrame(p) && p.m.qospid == AtLeastOnce(pid)
    requires Inv(w)
    ensures |w.peer.sendPuback| < w.peer.cap
  {
    hide Bag, PO.Inv, RR.Bounded, Shapes, Tokens;
    BagHead(UpPublish1, w.up);
    RoomForArrivals(w);
  }

  /** A PUBREL that arrives finds its identifier and room for its pubcomp. */
  lemma PubrelIsKnown(w: World, pid: Pid)
    requires w.up != [] && w.up[0] == PubrelFrame(pid)
    requires Inv(w)
    ensures pid in w.peer.awaitPubrel && |w.peer.sendPubcomp| < w.peer.cap
  {
    hide Bag, PO.Inv, RR.Bounded, Shapes, Tokens;
    BagHead(UpPubrel, w.up);
    RoomForArrivals(w);
    TokenCounts(w, pid);
    assert pid in multiset(w.peer.awaitPubrel);
  }

  /** A PUBREC on its way down finds room for its pubrel. */
  lemma RoomForPubrel(w: World)
    requires Inv(w) && |Bag(DownPubrec, w.down)| >= 1
    ensures |w.client.publishes.sendPubrel| < w.client.publishes.cap
  {
    hide Bag, PO.Inv, Tokens;
    AwaitBounds(w.client);
    TokenSizes(w);
    PubrelSize(w.client.publishes.sendPubrel);
  }

  lemma FindAwait(q: seq<PM.AwaitAck>, pid: Pid)
    requires pid in Bag(PT.AwaitPid, q)
    ensures Position(q, PM.WaitsFor(pid)) < |q|
  {
    hide Position, Bag;
    var i := BagIn(PT.AwaitPid, q, pid);
    assert PM.WaitsFor(pid)(q[i]);
  }

  lemma FindPubcomp(q: seq<PM.AwaitPubcomp>, pid: Pid)
    requires pid in Bag(PT.PubcompPid, q)
    ensures Position(q, PM.WaitsForComp(pid)) < |q|
  {
    hide Position, Bag;
    var i := BagIn(PT.PubcompPid, q, pid);
    assert PM.WaitsForComp(pid)(q[i]);
  }

  /** An acknowledgement that the client waits for, with room for what follows. */
  ghost predicate Awaited(s: PM.Sender, p: Packet) {
    match p
    case Puback(pid) => PM.PubackIndex(s, pid) < |s.awaitPuback|
    case Pubrec(pid) => PM.PubrecIndex(s, pid) < |s.awaitPubrec| && |s.sendPubrel| < s.cap
    case Pubcomp(pid) => PM.PubcompIndex(s, pid) < |s.awaitPubcomp|
    case _ => false
  }

  /** An acknowledgement that arrives is awaited, and a PUBREC finds room for its
      pubrel: the receiver would not have written it otherwise. */
  lemma AckIsExpected(w: World, p: Packet)
    requires w.down != [] && w.down[0] == p
    requires Inv(w)
    ensures Awaited(w.client.publishes, p)
  {
    hide Bag, PO.Inv, RR.Bounded, Position, Tokens;
    assert p in w.down;
    match p {
      case Puback(pid) =>
        BagHead(DownPuback, w.down);
        TokenCounts(w, pid);
        FindAwait(w.client.publishes.awaitPuback, pid);
      case Pubrec(pid) =>
        BagHead(DownPubrec, w.down);
        TokenCounts(w, pid);
        FindAwait(w.client.publishes.awaitPubrec, pid);
        RoomForPubrel(w);
      case Pubcomp(pid) =>
        BagHead(DownPubcomp, w.down);
        TokenCounts(w, pid);
        FindPubcomp(w.client.publishes.awaitPubcomp, pid);
    }
  }

  // ---- what each step changes ----

  /** The parts that the invariants read, after a step of the client. */
  ghost predicate ClientMoved(w: World, t: World, s: PM.Sender) {
    t.client.publishes == s && t.client.callers == w.client.callers && t.peer == w.peer && t.delivered == w.delivered
  }

  lemma PublishStepEffect(g: PO.System, p: PM.Step)
    requires PO.Enabled(g, PO.PublishStep(p))
    ensures PO.Apply(g, PO.PublishStep(p)).publishes == PM.Apply(g.publishes, p)
    ensures PO.Apply(g, PO.PublishStep(p)).callers == g.callers
  {
    hide Position, PM.Apply, PM.Enabled;
  }

  lemma SendPublishEffect(w: World, i: nat, now: int)
    requires Enabled(w, SendPublish(i, now))
    ensures var t := Apply(w, SendPublish(i, now));
            && i < |w.client.publishes.sendPublish|
            && ClientMoved(w, t, PM.Transmit(w.client.publishes, i, now))
            && t.up == w.up + [PublishFrame(w.client.publishes.sendPublish[i])] && t.down == w.down
  {
    hide PO.Apply;
    PublishStepEffect(w.client, PM.StepTransmit(i, now));
  }

  lemma SendPubrelEffect(w: World, now: int)
    requires Enabled(w, SendPubrel(now))
    ensures var t := Apply(w, SendPubrel(now));
            && |w.client.publishes.sendPubrel| > 0 && w.client.publishes.sendPubrel[0].uid.Some?
            && ClientMoved(w, t, PM.TransmitPubrel(w.client.publishes, 0, now))
            && t.up == w.up + [PubrelFrame(w.client.publishes.sendPubrel[0].pid)] && t.down == w.down
  {
    hide PO.Apply;
    PublishStepEffect(w.client, PM.StepTransmitPubrel(now));
  }

  lemma ClientTakesEffect(w: World)
    requires Enabled(w, ClientTakes)
    ensures var t := Apply(w, ClientTakes);
            && w.down != []
            && ClientMoved(w, t, PM.Apply(w.client.publishes, ClientStep(w.down[0])))
            && t.up == w.up && t.down == w.down[1..]
  {
    hide PO.Apply, PM.Apply;
    PublishStepEffect(w.client, ClientStep(w.down[0]));
  }

  /** A publish that the receiver can take: it fits, and is new if it is QoS 2. */
  ghost predicate Takeable(s: RM.Receiver, p: OwnedPublish) {
    && Fits(s.limits, p)
    && match p.m.qospid
       case AtMostOnce => true
       case AtLeastOnce(_) => |s.sendPuback| < s.cap
       case ExactlyOnce(pid) => !RM.IsDup(s, pid) && |s.sendPubrec| < s.cap
  }

  /** A publish that the receiver accepts and delivers. */
  lemma PeerDelivers(w: World)
    requires w.up != [] && w.up[0].PublishFrame? && Takeable(w.peer, w.up[0].pub)
    ensures var m := w.up[0].pub.m;
            && PeerHandles(w.peer, w.up[0]).1 == Ok(())
            && Apply(w, PeerTakes) == w.(up := w.up[1..], delivered := w.delivered + [w.up[0].pub], peer := w.peer.(
                log := w.peer.log + [RM.Delivered(m)],
                sendPuback := if m.qospid.AtLeastOnce? then w.peer.sendPuback + [m.qospid.pid] else w.peer.sendPuback,
                sendPubrec := if m.qospid.ExactlyOnce? then w.peer.sendPubrec + [m.qospid.pid] else w.peer.sendPubrec))
  {
  }

  lemma KnownPubrelIndex(q: seq<Pid>, pid: Pid)
    requires pid in q
    ensures Position(q, RM.Is(pid)) < |q|
  {
    hide Position;
    var j :| 0 <= j < |q| && q[j] == pid;
    assert RM.Is(pid)(q[j]);
  }

  lemma PeerReleases(w: World)
    requires w.up != [] && w.up[0].PubrelFrame?
    requires w.up[0].pid in w.peer.awaitPubrel && |w.peer.sendPubcomp| < w.peer.cap
    ensures var pid := w.up[0].pid;
            var i := Position(w.peer.awaitPubrel, RM.Is(pid));
            && i < |w.peer.awaitPubrel|
            && PeerHandles(w.peer, w.up[0]).1 == Ok(())
            && Apply(w, PeerTakes) == w.(up := w.up[1..], peer := w.peer.(
                log := w.peer.log + [RM.GotPubrel(pid)],
                awaitPubrel := RemoveAt(w.peer.awaitPubrel, i),
                sendPubcomp := w.peer.sendPubcomp + [pid]))
  {
    hide Position;
    KnownPubrelIndex(w.peer.awaitPubrel, w.up[0].pid);
  }

  // ---- every step keeps the invariant ----

  lemma PeerBoundsStep(w: World, a: Step)
    requires Enabled(w, a) && RR.Bounded(w.peer)
    ensures RR.Bounded(Apply(w, a).peer)
  {
    hide Position, PO.Apply, PO.Enabled, PM.Enabled;
    match a {
      case PeerSends(b) => RR.BoundedStep(w.peer, b);
      case PeerTakes =>
        match w.up[0] {
          case PublishFrame(pub) => RR.BoundedStep(w.peer, RM.StepPublish(pub.m));
          case PubrelFrame(pid) => RR.BoundedStep(w.peer, RM.StepPubrel(pid));
        }
      case _ =>
    }
  }

  lemma LocalKeepsQueues(g: PO.System, b: PO.Step)
    requires PO.Enabled(g, b) && !b.PublishStep?
    ensures PO.Apply(g, b).publishes == if b.Admit? then PM.Admit(g.publishes, g.callers[b.k]) else g.publishes
  {
    hide Position, SM.Apply;
  }

  lemma TokensSendPublish(w: World, i: nat, now: int, t: World)
    requires Enabled(w, SendPublish(i, now)) && t == Apply(w, SendPublish(i, now)) && Tokens(w)
    ensures Tokens(t)
  {
    hide Bag, Apply, Enabled, Flow;
    SendPublishEffect(w, i, now);
    var s := w.client.publishes;
    var p := s.sendPublish[i];
    var f := PublishFrame(p);
    BagSnoc(UpPublish1, w.up, f);
    BagSnoc(UpPublish2, w.up, f);
    BagSnoc(UpPubrel, w.up, f);
    assert Bag(UpPubrel, t.up) == Bag(UpPubrel, w.up);
    match p.m.qospid {
      case AtMostOnce =>
        assert Bag(UpPublish1, t.up) == Bag(UpPublish1, w.up) && Bag(UpPublish2, t.up) == Bag(UpPublish2, w.up);
      case AtLeastOnce(pid) =>
        BagSnoc(PT.AwaitPid, s.awaitPuback, PM.AwaitAck(pid, p.MarkDup(), now));
        FlowEnter(Bag(PT.AwaitPid, s.awaitPuback), Bag(UpPublish1, w.up), multiset(w.peer.sendPuback),
                  Bag(DownPuback, w.down), multiset([pid]));
        assert Bag(UpPublish2, t.up) == Bag(UpPublish2, w.up);
      case ExactlyOnce(pid) =>
        BagSnoc(PT.AwaitPid, s.awaitPubrec, PM.AwaitAck(pid, p.MarkDup(), now));
        FlowEnter(Bag(PT.AwaitPid, s.awaitPubrec), Bag(UpPublish2, w.up), multiset(w.peer.sendPubrec),
                  Bag(DownPubrec, w.down), multiset([pid]));
        assert Bag(UpPublish1, t.up) == Bag(UpPublish1, w.up);
    }
  }

  lemma TokensSendPubrel(w: World, now: int, t: World)
    requires Enabled(w, SendPubrel(now)) && t == Apply(w, SendPubrel(now)) && Tokens(w)
    ensures Tokens(t)
  {
    hide Bag, Apply, Enabled, Flow;
    SendPubrelEffect(w, now);
    var s := w.client.publishes;
    var e := s.sendPubrel[0];
    var f := PubrelFrame(e.pid);
    BagSnoc(UpPublish1, w.up, f);
    BagSnoc(UpPublish2, w.up, f);
    BagSnoc(UpPubrel, w.up, f);
    assert Bag(UpPublish1, t.up) == Bag(UpPublish1, w.up) && Bag(UpPublish2, t.up) == Bag(UpPublish2, w.up);
    BagRemove(PT.PubrelPid, s.sendPubrel, 0);
    BagSnoc(PT.PubcompPid, s.awaitPubcomp, PM.AwaitPubcomp(e.pid, now, e.uid.value));
    FlowEnter(Bag(PT.PubcompPid, s.awaitPubcomp), Bag(UpPubrel, w.up), multiset(w.peer.sendPubcomp),
              Bag(DownPubcomp, w.down), multiset([e.pid]));
    FlowReply(multiset(w.peer.awaitPubrel), Bag(DownPubrec, w.down), Bag(PT.PubrelPid, t.client.publishes.sendPubrel),
              Bag(UpPubrel, w.up), multiset([e.pid]));
  }

  /** What the invariant says about an arriving publish. */
  lemma ArrivalIsGood(w: World, p: OwnedPublish)
    requires w.up != [] && w.up[0] == PublishFrame(p)
    requires Inv(w)
    ensures Takeable(w.peer, p)
  {
    hide PO.Inv, RR.Bounded, Tokens, RM.IsDup;
    assert w.up[0] in w.up;
    match p.m.qospid {
      case AtMostOnce =>
      case AtLeastOnce(pid) => PubackHasRoom(w, p, pid);
      case ExactlyOnce(pid) => PublishIsNew(w, p, pid);
    }
  }

  lemma TokensPeerTakesPublish(w: World, t: World)
    requires w.up != [] && w.up[0].PublishFrame? && t == Apply(w, PeerTakes)
    requires Inv(w)
    ensures Tokens(t)
  {
    hide Bag, PO.Inv, RR.Bounded, Flow, Apply, Takeable, PeerHandles, Shapes;
    ArrivalIsGood(w, w.up[0].pub);
    PeerDelivers(w);
    BagHead(UpPublish1, w.up);
    BagHead(UpPublish2, w.up);
    BagHead(UpPubrel, w.up);
    assert Bag(UpPubrel, t.up) == Bag(UpPubrel, w.up);
    match w.up[0].pub.m.qospid {
      case AtMostOnce =>
        assert Bag(UpPublish1, t.up) == Bag(UpPublish1, w.up) && Bag(UpPublish2, t.up) == Bag(UpPublish2, w.up);
      case AtLeastOnce(pid) =>
        PidsSnoc(w.peer.sendPuback, pid);
        FlowArrive(Bag(PT.AwaitPid, w.client.publishes.awaitPuback), Bag(UpPublish1, t.up),
                   multiset(w.peer.sendPuback), Bag(DownPuback, w.down), multiset([pid]));
        assert Bag(UpPublish2, t.up) == Bag(UpPublish2, w.up);
      case ExactlyOnce(pid) =>
        PidsSnoc(w.peer.sendPubrec, pid);
        FlowArrive(Bag(PT.AwaitPid, w.client.publishes.awaitPubrec), Bag(UpPublish2, t.up),
                   multiset(w.peer.sendPubrec), Bag(DownPubrec, w.down), multiset([pid]));
        assert Bag(UpPublish1, t.up) == Bag(UpPublish1, w.up);
    }
  }

  lemma TokensPeerTakesPubrel(w: World, t: World)
    requires w.up != [] && w.up[0].PubrelFrame? && t == Apply(w, PeerTakes)
    requires Inv(w)
    ensures Tokens(t)
  {
    hide Bag, PO.Inv, RR.Bounded, Position, Flow, Apply, PeerHandles, Shapes;
    var pid := w.up[0].pid;
    PubrelIsKnown(w, pid);
    PeerReleases(w);
    BagHead(UpPublish1, w.up);
    BagHead(UpPublish2, w.up);
    BagHead(UpPubrel, w.up);
    assert Bag(UpPublish1, t.up) == Bag(UpPublish1, w.up) && Bag(UpPublish2, t.up) == Bag(UpPublish2, w.up);
    RemoveSplits(w.peer.awaitPubrel, Position(w.peer.awaitPubrel, RM.Is(pid)));
    PidsSnoc(w.peer.sendPubcomp, pid);
    FlowArrive(Bag(PT.PubcompPid, w.client.publishes.awaitPubcomp), Bag(UpPubrel, t.up),
               multiset(w.peer.sendPubcomp), Bag(DownPubcomp, w.down), multiset([pid]));
    FlowLeave(multiset(t.peer.awaitPubrel), Bag(DownPubrec, w.down),
              Bag(PT.PubrelPid, w.client.publishes.sendPubrel), Bag(UpPubrel, t.up), multiset([pid]));
  }

  /** A reply adds to one of the three bags. */
  lemma DownSnoc(down: seq<Packet>, p: Packet)
    requires p.Puback? || p.Pubrec? || p.Pubcomp?
    ensures Bag(DownPuback, down + [p]) == if p.Puback? then Bag(DownPuback, down) + multiset([p.pid]) else Bag(DownPuback, down)
    ensures Bag(DownPubrec, down + [p]) == if p.Pubrec? then Bag(DownPubrec, down) + multiset([p.pid]) else Bag(DownPubrec, down)
    ensures Bag(DownPubcomp, down + [p]) == if p.Pubcomp? then Bag(DownPubcomp, down) + multiset([p.pid]) else Bag(DownPubcomp, down)
  {
    hide Bag;
    BagSnoc(DownPuback, down, p);
    BagSnoc(DownPubrec, down, p);
    BagSnoc(DownPubcomp, down, p);
  }

  lemma TokensSendsPuback(w: World, i: nat, t: World)
    requires i < |w.peer.sendPuback| && Tokens(w)
    requires t == w.(peer := RM.WritePuback(w.peer, i), down := w.down + [Puback(w.peer.sendPuback[i])])
    ensures Tokens(t)
  {
    hide Bag, Flow;
    var pid := w.peer.sendPuback[i];
    DownSnoc(w.down, Puback(pid));
    RemoveSplits(w.peer.sendPuback, i);
    FlowReply(Bag(PT.AwaitPid, w.client.publishes.awaitPuback), Bag(UpPublish1, w.up),
              multiset(t.peer.sendPuback), Bag(DownPuback, w.down), multiset([pid]));
  }

  lemma TokensSendsPubrec(w: World, i: nat, t: World)
    requires i < |w.peer.sendPubrec| && Tokens(w)
    requires t == w.(peer := RM.WritePubrec(w.peer, i), down := w.down + [Pubrec(w.peer.sendPubrec[i])])
    ensures Tokens(t)
  {
    hide Bag, Flow;
    var pid := w.peer.sendPubrec[i];
    DownSnoc(w.down, Pubrec(pid));
    RemoveSplits(w.peer.sendPubrec, i);
    FlowReply(Bag(PT.AwaitPid, w.client.publishes.awaitPubrec), Bag(UpPublish2, w.up),
              multiset(t.peer.sendPubrec), Bag(DownPubrec, w.down), multiset([pid]));
    PidsSnoc(w.peer.awaitPubrel, pid);
    FlowEnter(multiset(w.peer.awaitPubrel), Bag(DownPubrec, w.down),
              Bag(PT.PubrelPid, w.client.publishes.sendPubrel), Bag(UpPubrel, w.up), multiset([pid]));
  }

  lemma TokensSendsPubcomp(w: World, i: nat, t: World)
    requires i < |w.peer.sendPubcomp| && Tokens(w)
    requires t == w.(peer := RM.WritePubcomp(w.peer, i), down := w.down + [Pubcomp(w.peer.sendPubcomp[i])])
    ensures Tokens(t)
  {
    hide Bag, Flow;
    var pid := w.peer.sendPubcomp[i];
    DownSnoc(w.down, Pubcomp(pid));
    RemoveSplits(w.peer.sendPubcomp, i);
    FlowReply(Bag(PT.PubcompPid, w.client.publishes.awaitPubcomp), Bag(UpPubrel, w.up),
              multiset(t.peer.sendPubcomp), Bag(DownPubcomp, w.down), multiset([pid]));
  }

  lemma TokensPeerSends(w: World, b: RM.Step, t: World)
    requires Enabled(w, PeerSends(b)) && t == Apply(w, PeerSends(b)) && Tokens(w)
    ensures Tokens(t)
  {
    hide Tokens, RM.WritePuback, RM.WritePubrec, RM.WritePubcomp;
    match b {
      case StepWritePuback(i) => TokensSendsPuback(w, i, t);
      case StepWritePubrec(i) => TokensSendsPubrec(w, i, t);
      case StepWritePubcomp(i) => TokensSendsPubcomp(w, i, t);
    }
  }

  /** Taking the first packet changes one of the three bags. */
  lemma DownHead(down: seq<Packet>)
    requires down != []
    ensures Bag(DownPuback, down) == if down[0].Puback? then multiset([down[0].pid]) + Bag(DownPuback, down[1..])
                                     else Bag(DownPuback, down[1..])
    ensures Bag(DownPubrec, down) == if down[0].Pubrec? then multiset([down[0].pid]) + Bag(DownPubrec, down[1..])
                                     else Bag(DownPubrec, down[1..])
    ensures Bag(DownPubcomp, down) == if down[0].Pubcomp? then multiset([down[0].pid]) + Bag(DownPubcomp, down[1..])
                                      else Bag(DownPubcomp, down[1..])
  {
    hide Bag;
    BagHead(DownPuback, down);
    BagHead(DownPubrec, down);
    BagHead(DownPubcomp, down);
  }

  lemma TokensTakePuback(w: World, t: World)
    requires w.down != [] && w.down[0].Puback? && t == Apply(w, ClientTakes)
    requires Inv(w)
    ensures Tokens(t)
  {
    hide Bag, PO.Inv, RR.Bounded, Apply, Position, Flow, Shapes;
    var s := w.client.publishes;
    var pid := w.down[0].pid;
    AckIsExpected(w, w.down[0]);
    ClientTakesEffect(w);
    DownHead(w.down);
    assert t.client.publishes == PM.OnPuback(s, pid);
    BagRemove(PT.AwaitPid, s.awaitPuback, PM.PubackIndex(s, pid));
    FlowLeave(Bag(PT.AwaitPid, t.client.publishes.awaitPuback), Bag(UpPublish1, w.up),
              multiset(w.peer.sendPuback), Bag(DownPuback, t.down), multiset([pid]));
  }

  lemma TokensTakePubrec(w: World, t: World)
    requires w.down != [] && w.down[0].Pubrec? && t == Apply(w, ClientTakes)
    requires Inv(w)
    ensures Tokens(t)
  {
    hide Bag, PO.Inv, RR.Bounded, Apply, Position, Flow, Shapes;
    var s := w.client.publishes;
    var pid := w.down[0].pid;
    AckIsExpected(w, w.down[0]);
    ClientTakesEffect(w);
    DownHead(w.down);
    var i := PM.PubrecIndex(s, pid);
    BagRemove(PT.AwaitPid, s.awaitPubrec, i);
    FlowLeave(Bag(PT.AwaitPid, t.client.publishes.awaitPubrec), Bag(UpPublish2, w.up),
              multiset(w.peer.sendPubrec), Bag(DownPubrec, t.down), multiset([pid]));
    BagSnoc(PT.PubrelPid, s.sendPubrel, PM.PubrelEntry(pid, Some(s.awaitPubrec[i].publish.uid)));
    FlowArrive(multiset(w.peer.awaitPubrel), Bag(DownPubrec, t.down), Bag(PT.PubrelPid, s.sendPubrel),
               Bag(UpPubrel, w.up), multiset([pid]));
  }

  lemma TokensTakePubcomp(w: World, t: World)
    requires w.down != [] && w.down[0].Pubcomp? && t == Apply(w, ClientTakes)
    requires Inv(w)
    ensures Tokens(t)
  {
    hide Bag, PO.Inv, RR.Bounded, Apply, Position, Flow, Shapes;
    var s := w.client.publishes;
    var pid := w.down[0].pid;
    AckIsExpected(w, w.down[0]);
    ClientTakesEffect(w);
    DownHead(w.down);
    BagRemove(PT.PubcompPid, s.awaitPubcomp, PM.PubcompIndex(s, pid));
    FlowLeave(Bag(PT.PubcompPid, t.client.publishes.awaitPubcomp), Bag(UpPubrel, w.up),
              multiset(w.peer.sendPubcomp), Bag(DownPubcomp, t.down), multiset([pid]));
  }

  lemma TokensStep(w: World, a: Step, t: World)
    requires Enabled(w, a) && t == Apply(w, a) && Inv(w)
    ensures Tokens(t)
  {
    hide PO.Inv, RR.Bounded, Shapes, PO.Apply, PO.Enabled, PM.Enabled, Bag, Flow, Position;
    match a {
      case Local(b) => LocalKeepsQueues(w.client, b);
      case SendPublish(i, now) => TokensSendPublish(w, i, now, t);
      case SendPubrel(now) => TokensSendPubrel(w, now, t);
      case PeerTakes =>
        if w.up[0].PublishFrame? {
          TokensPeerTakesPublish(w, t);
        } else {
          TokensPeerTakesPubrel(w, t);
        }
      case PeerSends(b) => TokensPeerSends(w, b, t);
      case ClientTakes =>
        AckIsExpected(w, w.down[0]);
        match w.down[0] {
          case Puback(_) => TokensTakePuback(w, t);
          case Pubrec(_) => TokensTakePubrec(w, t);
          case Pubcomp(_) => TokensTakePubcomp(w, t);
        }
    }
  }

  /** The client's own step, seen as a step of the ownership system. */
  lemma ClientKeeps(w: World, a: Step)
    requires PO.Inv(w.client) && Enabled(w, a)
    ensures PO.Inv(Apply(w, a).client)
  {
    hide PO.Inv, PO.Apply;
    match a {
      case Local(b) => PO.InvStep(w.client, b);
      case SendPublish(i, now) => PO.InvStep(w.client, PO.PublishStep(PM.StepTransmit(i, now)));
      case SendPubrel(now) => PO.InvStep(w.client, PO.PublishStep(PM.StepTransmitPubrel(now)));
      case ClientTakes => PO.InvStep(w.client, PO.PublishStep(ClientStep(w.down[0])));
      case _ =>
    }
  }

  /** A publish goes out with pubrels waiting only when `awaitPubcomp` is full, and
      then the identifiers that are left fit into one more queue. */
  lemma ReleaseRoomSend(w: World, i: nat, now: int, t: World)
    requires Enabled(w, SendPublish(i, now)) && t == Apply(w, SendPublish(i, now))
    requires Shapes(w) && Ample(w.client.publishes.cap)
    requires PO.Inv(t.client)
    ensures ReleaseRoom(t.client.publishes)
  {
    hide Apply, PO.Inv, PT.AwaitPid;
    SendPublishEffect(w, i, now);
    AwaitBounds(t.client);
    PubrelSize(t.client.publishes.sendPubrel);
  }

  lemma ShapesLocal(w: World, b: PO.Step, t: World)
    requires LocalEnabled(w, b) && t == Apply(w, Local(b)) && Shapes(w)
    ensures Shapes(t)
  {
    hide Position;
  }

  lemma ShapesSend(w: World, a: Step, t: World)
    requires Enabled(w, a) && (a.SendPublish? || a.SendPubrel?) && t == Apply(w, a) && Shapes(w)
    requires PO.Inv(t.client)
    ensures Shapes(t)
  {
    hide Apply, PO.Inv;
    if a.SendPublish? {
      SendPublishEffect(w, a.i, a.now);
      if Ample(w.client.publishes.cap) {
        ReleaseRoomSend(w, a.i, a.now, t);
      }
    } else {
      SendPubrelEffect(w, a.now);
    }
  }

  lemma ShapesClientTakes(w: World, t: World)
    requires Enabled(w, ClientTakes) && t == Apply(w, ClientTakes) && Inv(w)
    ensures Shapes(t)
  {
    hide Apply, Position, PO.Inv, Tokens, RR.Bounded;
    AckIsExpected(w, w.down[0]);
    ClientTakesEffect(w);
  }

  lemma ShapesStep(w: World, a: Step, t: World)
    requires Enabled(w, a) && t == Apply(w, a) && Inv(w)
    requires PO.Inv(t.client)
    ensures Shapes(t)
  {
    hide PO.Inv, RR.Bounded, Tokens, PO.Apply, PO.Enabled, PM.Enabled, Position;
    match a {
      case Local(b) => ShapesLocal(w, b, t);
      case SendPublish(i, now) => ShapesSend(w, a, t);
      case SendPubrel(now) => ShapesSend(w, a, t);
      case ClientTakes => ShapesClientTakes(w, t);
      case _ =>
    }
  }

  lemma InvStep(w: World, a: Step)
    requires Inv(w) && Enabled(w, a)
    ensures Inv(Apply(w, a))
  {
    hide Tokens, Shapes, PO.Inv, RR.Bounded, Apply, Enabled;
    ClientKeeps(w, a);
    PeerBoundsStep(w, a);
    TokensStep(w, a, Apply(w, a));
    ShapesStep(w, a, Apply(w, a));
  }
}
