/** The end-to-end promises over every run of client, channels and receiver:
    order, exactly-once delivery, no unexpected packet and no overflow. */
module Delivery {
  import opened Mqtt
  import opened Seqs
  import PM = PublishModel
  import PR = PublishRuns
  import PT = PublishTheorems
  import RM = ReceiveModel
  import RR = ReceiveRuns
  import PO = PidOwnership
  import opened EndToEnd

  /** An identifier together with the request that holds it. */
  datatype Key = Key(pid: Pid, uid: UniqueId)

  function PublishKey(p: OwnedPublish): seq<Key> {
    match p.m.qospid
    case AtMostOnce => []
    case AtLeastOnce(pid) => [Key(pid, p.uid)]
    case ExactlyOnce(pid) => [Key(pid, p.uid)]
  }

  function AwaitKey(e: PM.AwaitAck): seq<Key> { [Key(e.pid, e.publish.uid)] }

  function PubrelKey(e: PM.PubrelEntry): seq<Key> { if e.uid.Some? then [Key(e.pid, e.uid.value)] else [] }

  function PubcompKey(e: PM.AwaitPubcomp): seq<Key> { [Key(e.pid, e.uid)] }

  function Done1Key(e: PM.Event): seq<Key> {
    if e.Done? && e.qospid.AtLeastOnce? then [Key(e.qospid.pid, e.uid)] else []
  }

  function Done2Key(e: PM.Event): seq<Key> {
    if e.Done? && e.qospid.ExactlyOnce? then [Key(e.qospid.pid, e.uid)] else []
  }

  function LostKey(e: PM.Event): seq<Key> { if e.Lost? then [Key(e.pid, e.uid)] else [] }

  function FrameOf(q: QoS): Frame -> seq<OwnedPublish> {
    (f: Frame) => if f.PublishFrame? && f.pub.Qos() == q then [f.pub] else []
  }

  /** The transmitted publishes of a class. */
  ghost function SentKeys(s: PM.Sender, q: QoS): multiset<Key> {
    Bag(PublishKey, FlatMap(PR.SentOf(q), s.log))
  }

  ghost function UpKeys(w: World, q: QoS): multiset<Key> {
    Bag(PublishKey, FlatMap(FrameOf(q), w.up))
  }

  ghost function DeliveredKeys(w: World, q: QoS): multiset<Key> {
    Bag(PublishKey, FlatMap(PR.QueuedOf(q), w.delivered))
  }

  // ---- the sender: what was transmitted is awaited, released, completed or lost ----

  ghost predicate Handled1(s: PM.Sender) {
    SentKeys(s, QoS1) == Bag(AwaitKey, s.awaitPuback) + Bag(Done1Key, s.log)
  }

  ghost predicate Handled2(s: PM.Sender) {
    SentKeys(s, QoS2)
    == Bag(AwaitKey, s.awaitPubrec) + Bag(PubrelKey, s.sendPubrel) + Bag(PubcompKey, s.awaitPubcomp)
     + Bag(Done2Key, s.log) + Bag(LostKey, s.log)
  }

  lemma SentKeysSnoc(log: seq<PM.Event>, e: PM.Event, q: QoS)
    ensures Bag(PublishKey, FlatMap(PR.SentOf(q), log + [e]))
         == Bag(PublishKey, FlatMap(PR.SentOf(q), log))
          + multiset(if e.Sent? && e.pub.Qos() == q then PublishKey(e.pub) else [])
  {
    hide FlatMap;
    FlatMapSnoc(PR.SentOf(q), log, e);
    if e.Sent? && e.pub.Qos() == q {
      BagSnoc(PublishKey, FlatMap(PR.SentOf(q), log), e.pub);
    } else {
      assert FlatMap(PR.SentOf(q), log) + [] == FlatMap(PR.SentOf(q), log);
    }
  }

  lemma LogKeys(log: seq<PM.Event>, e: PM.Event)
    ensures Bag(PublishKey, FlatMap(PR.SentOf(QoS1), log + [e]))
         == Bag(PublishKey, FlatMap(PR.SentOf(QoS1), log))
          + multiset(if e.Sent? && e.pub.Qos() == QoS1 then PublishKey(e.pub) else [])
    ensures Bag(PublishKey, FlatMap(PR.SentOf(QoS2), log + [e]))
         == Bag(PublishKey, FlatMap(PR.SentOf(QoS2), log))
          + multiset(if e.Sent? && e.pub.Qos() == QoS2 then PublishKey(e.pub) else [])
    ensures Bag(Done1Key, log + [e]) == Bag(Done1Key, log) + multiset(Done1Key(e))
    ensures Bag(Done2Key, log + [e]) == Bag(Done2Key, log) + multiset(Done2Key(e))
    ensures Bag(LostKey, log + [e]) == Bag(LostKey, log) + multiset(LostKey(e))
  {
    SentKeysSnoc(log, e, QoS1);
    SentKeysSnoc(log, e, QoS2);
    BagSnoc(Done1Key, log, e);
    BagSnoc(Done2Key, log, e);
    BagSnoc(LostKey, log, e);
  }

  /** An event that neither transmits, completes nor loses a publish that is
      acknowledged. */
  lemma HandledQuiet(s: PM.Sender, e: PM.Event)
    requires Handled1(s) && Handled2(s) && !e.Lost?
    requires e.Sent? ==> e.pub.m.qospid.AtMostOnce?
    requires e.Done? ==> e.qospid.AtMostOnce?
    ensures Handled1(s.(log := s.log + [e])) && Handled2(s.(log := s.log + [e]))
  {
    hide Bag, FlatMap;
    LogKeys(s.log, e);
  }

  lemma HandledTransmit0(s: PM.Sender, i: nat, now: int)
    requires Handled1(s) && Handled2(s) && i < |s.sendPublish| && s.sendPublish[i].m.qospid.AtMostOnce?
    ensures Handled1(PM.Transmit(s, i, now)) && Handled2(PM.Transmit(s, i, now))
  {
    hide Bag, FlatMap;
    var p := s.sendPublish[i];
    HandledQuiet(s, PM.Sent(p, now));
    HandledQuiet(s.(log := s.log + [PM.Sent(p, now)]), PM.Done(p.uid, AtMostOnce));
    assert s.log + [PM.Sent(p, now)] + [PM.Done(p.uid, AtMostOnce)] == s.log + [PM.Sent(p, now), PM.Done(p.uid, AtMostOnce)];
  }

  lemma HandledTransmit(s: PM.Sender, i: nat, now: int)
    requires Handled1(s) && Handled2(s) && i < |s.sendPublish|
    ensures Handled1(PM.Transmit(s, i, now)) && Handled2(PM.Transmit(s, i, now))
  {
    hide Bag, FlatMap;
    var p := s.sendPublish[i];
    if p.m.qospid.AtMostOnce? {
      HandledTransmit0(s, i, now);
    } else {
      LogKeys(s.log, PM.Sent(p, now));
      if p.m.qospid.AtLeastOnce? {
        BagSnoc(AwaitKey, s.awaitPuback, PM.AwaitAck(p.m.qospid.pid, p.MarkDup(), now));
      } else {
        BagSnoc(AwaitKey, s.awaitPubrec, PM.AwaitAck(p.m.qospid.pid, p.MarkDup(), now));
      }
    }
  }

  lemma HandledTransmitPubrel(s: PM.Sender, now: int)
    requires PM.Enabled(s, PM.StepTransmitPubrel(now)) && Handled1(s) && Handled2(s)
    ensures Handled1(PM.TransmitPubrel(s, 0, now)) && Handled2(PM.TransmitPubrel(s, 0, now))
  {
    hide Bag, FlatMap;
    var e := s.sendPubrel[0];
    HandledQuiet(s, PM.SentPubrel(e.pid, e.uid, now));
    BagRemove(PubrelKey, s.sendPubrel, 0);
    BagSnoc(PubcompKey, s.awaitPubcomp, PM.AwaitPubcomp(e.pid, now, e.uid.value));
  }

  lemma HandledPuback(s: PM.Sender, pid: Pid)
    requires Handled1(s) && Handled2(s)
    ensures Handled1(PM.OnPuback(s, pid)) && Handled2(PM.OnPuback(s, pid))
  {
    hide Bag, FlatMap, Position;
    HandledQuiet(s, PM.GotPuback(pid));
    var i := PM.PubackIndex(s, pid);
    if i < |s.awaitPuback| {
      var done := PM.Done(s.awaitPuback[i].publish.uid, AtLeastOnce(pid));
      BagRemove(AwaitKey, s.awaitPuback, i);
      LogKeys(s.log + [PM.GotPuback(pid)], done);
      assert s.log + [PM.GotPuback(pid)] + [done] == s.log + [PM.GotPuback(pid), done];
    }
  }

  lemma HandledPubrec(s: PM.Sender, pid: Pid)
    requires Handled1(s) && Handled2(s)
    ensures Handled1(PM.OnPubrec(s, pid)) && Handled2(PM.OnPubrec(s, pid))
  {
    hide Bag, FlatMap, Position;
    HandledQuiet(s, PM.GotPubrec(pid));
    var i := PM.PubrecIndex(s, pid);
    if i < |s.awaitPubrec| {
      var uid := s.awaitPubrec[i].publish.uid;
      BagRemove(AwaitKey, s.awaitPubrec, i);
      if |s.sendPubrel| < s.cap {
        BagSnoc(PubrelKey, s.sendPubrel, PM.PubrelEntry(pid, Some(uid)));
      } else {
        LogKeys(s.log + [PM.GotPubrec(pid)], PM.Lost(uid, pid));
      }
    } else {
      BagSnoc(PubrelKey, s.sendPubrel, PM.PubrelEntry(pid, None));
    }
  }

  lemma HandledPubcomp(s: PM.Sender, pid: Pid)
    requires Handled1(s) && Handled2(s)
    ensures Handled1(PM.OnPubcomp(s, pid)) && Handled2(PM.OnPubcomp(s, pid))
  {
    hide Bag, FlatMap, Position;
    HandledQuiet(s, PM.GotPubcomp(pid));
    var i := PM.PubcompIndex(s, pid);
    if i < |s.awaitPubcomp| {
      var done := PM.Done(s.awaitPubcomp[i].uid, ExactlyOnce(pid));
      BagRemove(PubcompKey, s.awaitPubcomp, i);
      LogKeys(s.log + [PM.GotPubcomp(pid)], done);
      assert s.log + [PM.GotPubcomp(pid)] + [done] == s.log + [PM.GotPubcomp(pid), done];
    }
  }

  lemma HandledStep(s: PM.Sender, a: PM.Step)
    requires PM.Enabled(s, a) && Handled1(s) && Handled2(s)
    ensures Handled1(PM.Apply(s, a)) && Handled2(PM.Apply(s, a))
  {
    hide Bag, FlatMap, Position;
    match a {
      case StepAdmit(pub) => HandledQuiet(s, PM.Event.Accepted(pub));
      case StepTransmit(i, now) => HandledTransmit(s, i, now);
      case StepTransmitPubrel(now) => HandledTransmitPubrel(s, now);
      case StepRepeatPuback(i, now) =>
        HandledQuiet(s, PM.Resent(s.awaitPuback[i].publish, now));
        BagSame(AwaitKey, s.awaitPuback, PM.RepeatPuback(s, i, now).awaitPuback);
      case StepRepeatPubrec(i, now) =>
        HandledQuiet(s, PM.Resent(s.awaitPubrec[i].publish, now));
        BagSame(AwaitKey, s.awaitPubrec, PM.RepeatPubrec(s, i, now).awaitPubrec);
      case StepRepeatPubrel(i, now) =>
        HandledQuiet(s, PM.ResentPubrel(s.awaitPubcomp[i].pid, s.awaitPubcomp[i].uid, now));
        BagSame(PubcompKey, s.awaitPubcomp, PM.RepeatPubrel(s, i, now).awaitPubcomp);
      case StepPuback(pid) => HandledPuback(s, pid);
      case StepPubrec(pid) => HandledPubrec(s, pid);
      case StepPubcomp(pid) => HandledPubcomp(s, pid);
    }
  }

  // ---- deliveries follow transmissions ----

  function MessageOf(p: OwnedPublish): seq<Message> { [p.m] }

  /** Per class: delivered, then on the way, is what was first transmitted. */
  ghost predicate InOrder(w: World, q: QoS) {
    FlatMap(PR.QueuedOf(q), w.delivered) + FlatMap(FrameOf(q), w.up)
    == FlatMap(PR.SentOf(q), w.client.publishes.log)
  }

  /** The labelled deliveries are the receiver's deliveries. */
  ghost predicate Labelled(w: World) {
    FlatMap(MessageOf, w.delivered) == FlatMap(RM.DeliveredMessage, w.peer.log)
  }

  /** A publish on its way still awaits its acknowledgement. */
  ghost predicate Pending(w: World) {
    && UpKeys(w, QoS1) <= Bag(AwaitKey, w.client.publishes.awaitPuback)
    && UpKeys(w, QoS2) <= Bag(AwaitKey, w.client.publishes.awaitPubrec)
  }

  ghost predicate Delivers(w: World) {
    && (forall q :: InOrder(w, q))
    && Labelled(w) && Pending(w)
    && Handled1(w.client.publishes) && Handled2(w.client.publishes)
  }

  lemma BagConcat<T, U>(f: T -> seq<U>, a: seq<T>, b: seq<T>)
    ensures Bag(f, a + b) == Bag(f, a) + Bag(f, b)
  {
    FlatMapConcat(f, a, b);
  }

  lemma FrameKeysSnoc(up: seq<Frame>, f: Frame, q: QoS)
    ensures Bag(PublishKey, FlatMap(FrameOf(q), up + [f]))
         == Bag(PublishKey, FlatMap(FrameOf(q), up)) + Bag(PublishKey, FrameOf(q)(f))
  {
    hide FlatMap;
    FlatMapSnoc(FrameOf(q), up, f);
    BagConcat(PublishKey, FlatMap(FrameOf(q), up), FrameOf(q)(f));
  }

  lemma FrameKeysHead(up: seq<Frame>, q: QoS)
    requires up != []
    ensures Bag(PublishKey, FlatMap(FrameOf(q), up))
         == Bag(PublishKey, FrameOf(q)(up[0])) + Bag(PublishKey, FlatMap(FrameOf(q), up[1..]))
  {
    BagConcat(PublishKey, FrameOf(q)(up[0]), FlatMap(FrameOf(q), up[1..]));
  }

  lemma KeyOfOne(p: OwnedPublish)
    ensures Bag(PublishKey, [p]) == multiset(PublishKey(p))
    ensures Bag(PublishKey, []) == multiset{}
  {
    FlatMapOne(PublishKey, p);
  }

  // ---- every step keeps the delivery invariant ----

  lemma InOrderSame(w: World, t: World, q: QoS)
    requires InOrder(w, q) && t.delivered == w.delivered && t.up == w.up
    requires FlatMap(PR.SentOf(q), t.client.publishes.log) == FlatMap(PR.SentOf(q), w.client.publishes.log)
    ensures InOrder(t, q)
  {
    hide FlatMap;
  }

  lemma DeliversLocal(w: World, b: PO.Step, t: World)
    requires LocalEnabled(w, b) && t == Apply(w, Local(b)) && Delivers(w)
    ensures Delivers(t)
  {
    hide FlatMap, Bag, PO.Apply, Handled1, Handled2;
    LocalKeepsQueues(w.client, b);
    if b.Admit? {
      var pub := w.client.callers[b.k];
      HandledStep(w.client.publishes, PM.StepAdmit(pub));
      forall q
        ensures InOrder(t, q)
      {
        assert InOrder(w, q);
        FlatMapNothing(PR.SentOf(q), w.client.publishes.log, [PM.Event.Accepted(pub)]);
        InOrderSame(w, t, q);
      }
    } else {
      forall q
        ensures InOrder(t, q)
      {
        assert InOrder(w, q);
        InOrderSame(w, t, q);
      }
    }
  }

  lemma InOrderSend(w: World, t: World, p: OwnedPublish, now: int, more: seq<PM.Event>, q: QoS)
    requires InOrder(w, q) && t.delivered == w.delivered && t.up == w.up + [PublishFrame(p)]
    requires t.client.publishes.log == w.client.publishes.log + [PM.Sent(p, now)] + more
    requires forall i :: 0 <= i < |more| ==> !more[i].Sent?
    ensures InOrder(t, q)
  {
    hide FlatMap;
    FlatMapSnoc(FrameOf(q), w.up, PublishFrame(p));
    FlatMapSnoc(PR.SentOf(q), w.client.publishes.log, PM.Sent(p, now));
    FlatMapNothing(PR.SentOf(q), w.client.publishes.log + [PM.Sent(p, now)], more);
  }

  lemma PendingSend(w: World, t: World, p: OwnedPublish, i: nat, now: int)
    requires Pending(w) && t.up == w.up + [PublishFrame(p)]
    requires i < |w.client.publishes.sendPublish| && p == w.client.publishes.sendPublish[i]
    requires t.client.publishes == PM.Transmit(w.client.publishes, i, now)
    ensures Pending(t)
  {
    hide FlatMap, Bag;
    var s := w.client.publishes;
    FrameKeysSnoc(w.up, PublishFrame(p), QoS1);
    FrameKeysSnoc(w.up, PublishFrame(p), QoS2);
    KeyOfOne(p);
    match p.m.qospid {
      case AtMostOnce =>
      case AtLeastOnce(pid) => BagSnoc(AwaitKey, s.awaitPuback, PM.AwaitAck(pid, p.MarkDup(), now));
      case ExactlyOnce(pid) => BagSnoc(AwaitKey, s.awaitPubrec, PM.AwaitAck(pid, p.MarkDup(), now));
    }
  }

  lemma DeliversSendPublish(w: World, i: nat, now: int, t: World)
    requires Enabled(w, SendPublish(i, now)) && t == Apply(w, SendPublish(i, now)) && Delivers(w)
    ensures Delivers(t)
  {
    hide FlatMap, Bag, Apply, Handled1, Handled2, InOrder, Pending, PM.Enabled;
    SendPublishEffect(w, i, now);
    var s := w.client.publishes;
    var p := s.sendPublish[i];
    HandledTransmit(s, i, now);
    var more := if p.m.qospid.AtMostOnce? then [PM.Done(p.uid, AtMostOnce)] else [];
    assert t.client.publishes.log == s.log + [PM.Sent(p, now)] + more;
    forall q
      ensures InOrder(t, q)
    {
      InOrderSend(w, t, p, now, more, q);
    }
    PendingSend(w, t, p, i, now);
  }

  lemma DeliversSendPubrel(w: World, now: int, t: World)
    requires Enabled(w, SendPubrel(now)) && t == Apply(w, SendPubrel(now)) && Delivers(w)
    ensures Delivers(t)
  {
    hide FlatMap, Bag, Apply, Handled1, Handled2;
    SendPubrelEffect(w, now);
    var s := w.client.publishes;
    var e := s.sendPubrel[0];
    HandledTransmitPubrel(s, now);
    forall q
      ensures InOrder(t, q)
    {
      assert InOrder(w, q);
      FlatMapSnoc(FrameOf(q), w.up, PubrelFrame(e.pid));
      FlatMapNothing(PR.SentOf(q), s.log, [PM.SentPubrel(e.pid, e.uid, now)]);
    }
    FrameKeysSnoc(w.up, PubrelFrame(e.pid), QoS1);
    FrameKeysSnoc(w.up, PubrelFrame(e.pid), QoS2);
    KeyOfOne(PM.OwnedPublish(Message(false, AtMostOnce, false, "", []), 0));
  }

  lemma InOrderTake(w: World, t: World, q: QoS)
    requires InOrder(w, q) && w.up != [] && w.up[0].PublishFrame? && t.up == w.up[1..]
    requires t.delivered == w.delivered + [w.up[0].pub] && t.client == w.client
    ensures InOrder(t, q)
  {
    FlatMapSnoc(PR.QueuedOf(q), w.delivered, w.up[0].pub);
    assert FrameOf(q)(w.up[0]) == PR.QueuedOf(q)(w.up[0].pub);
  }

  lemma PendingTake(w: World, t: World)
    requires Pending(w) && w.up != [] && t.up == w.up[1..] && t.client == w.client
    ensures Pending(t)
  {
    hide FlatMap, Bag;
    FrameKeysHead(w.up, QoS1);
    FrameKeysHead(w.up, QoS2);
  }

  lemma DeliversPeerTakesPublish(w: World, t: World)
    requires Enabled(w, PeerTakes) && w.up[0].PublishFrame? && t == Apply(w, PeerTakes) && Inv(w) && Delivers(w)
    ensures Delivers(t)
  {
    hide FlatMap, Bag, Apply, Handled1, Handled2, InOrder, Pending, PO.Inv, RR.Bounded, Tokens, Shapes, PeerHandles, Takeable;
    ArrivalIsGood(w, w.up[0].pub);
    PeerDelivers(w);
    forall q
      ensures InOrder(t, q)
    {
      InOrderTake(w, t, q);
    }
    PendingTake(w, t);
    FlatMapSnoc(MessageOf, w.delivered, w.up[0].pub);
    FlatMapSnoc(RM.DeliveredMessage, w.peer.log, RM.Delivered(w.up[0].pub.m));
  }

  lemma DeliversPeerTakesPubrel(w: World, t: World)
    requires Enabled(w, PeerTakes) && w.up[0].PubrelFrame? && t == Apply(w, PeerTakes) && Inv(w) && Delivers(w)
    ensures Delivers(t)
  {
    hide Bag, Apply, Handled1, Handled2, Pending, PO.Inv, RR.Bounded, Tokens, Shapes, PeerHandles, Position;
    PubrelIsKnown(w, w.up[0].pid);
    PeerReleases(w);
    forall q
      ensures InOrder(t, q)
    {
      assert InOrder(w, q);
      assert FlatMap(FrameOf(q), w.up) == FlatMap(FrameOf(q), w.up[1..]);
    }
    PendingTake(w, t);
    FlatMapNothing(RM.DeliveredMessage, w.peer.log, [RM.GotPubrel(w.up[0].pid)]);
  }

  lemma PendingSame(w: World, t: World)
    requires Pending(w) && t.up == w.up && t.client == w.client
    ensures Pending(t)
  {
  }

  lemma DeliversPeerSends(w: World, b: RM.Step, t: World)
    requires Enabled(w, PeerSends(b)) && t == Apply(w, PeerSends(b)) && Delivers(w)
    ensures Delivers(t)
  {
    hide FlatMap, Bag, Handled1, Handled2, Pending;
    var e := t.peer.log[|w.peer.log|];
    assert t.peer.log == w.peer.log + [e];
    FlatMapNothing(RM.DeliveredMessage, w.peer.log, [e]);
    forall q
      ensures InOrder(t, q)
    {
      assert InOrder(w, q);
      InOrderSame(w, t, q);
    }
    PendingSame(w, t);
  }

  /** An acknowledged publish is no longer on its way. */
  lemma NotPending(up: seq<Frame>, k: Key)
    ensures k.pid !in Bag(UpPublish1, up) ==> k !in Bag(PublishKey, FlatMap(FrameOf(QoS1), up))
    ensures k.pid !in Bag(UpPublish2, up) ==> k !in Bag(PublishKey, FlatMap(FrameOf(QoS2), up))
  {
    hide FlatMap;
    if k in Bag(PublishKey, FlatMap(FrameOf(QoS1), up)) {
      var i := BagIn(PublishKey, FlatMap(FrameOf(QoS1), up), k);
      var p := FlatMap(FrameOf(QoS1), up)[i];
      FlatMapIn(FrameOf(QoS1), up, p);
      var j :| 0 <= j < |up| && p in FrameOf(QoS1)(up[j]);
      FlatMapIn(UpPublish1, up, k.pid);
      assert k.pid in UpPublish1(up[j]);
    }
    if k in Bag(PublishKey, FlatMap(FrameOf(QoS2), up)) {
      var i := BagIn(PublishKey, FlatMap(FrameOf(QoS2), up), k);
      var p := FlatMap(FrameOf(QoS2), up)[i];
      FlatMapIn(FrameOf(QoS2), up, p);
      var j :| 0 <= j < |up| && p in FrameOf(QoS2)(up[j]);
      FlatMapIn(UpPublish2, up, k.pid);
      assert k.pid in UpPublish2(up[j]);
    }
  }

  lemma SubsetMinus(a: multiset<Key>, b: multiset<Key>, k: Key)
    requires a <= b + multiset{k} && k !in a
    ensures a <= b
  {
    forall x
      ensures a[x] <= b[x]
    {
      assert a[x] <= (b + multiset{k})[x];
    }
  }

  /** The token of the acknowledgement that arrives is the only one. */
  lemma AckIsOnlyToken(w: World, p: Packet)
    requires w.down != [] && p == w.down[0]
    requires Inv(w)
    ensures match p
            case Puback(pid) => pid !in Bag(UpPublish1, w.up)
            case Pubrec(pid) => pid !in Bag(UpPublish2, w.up)
            case _ => true
  {
    hide Bag, PT.Faithful, PO.Ledger, PO.Balanced, PR.Inv, Flow, Shapes;
    match p {
      case Puback(pid) =>
        BagHead(DownPuback, w.down);
        PT.FaithfulOwnsOnce(w.client.publishes, pid);
        TokenCounts(w, pid);
      case Pubrec(pid) =>
        BagHead(DownPubrec, w.down);
        PT.FaithfulOwnsOnce(w.client.publishes, pid);
        TokenCounts(w, pid);
      case _ =>
    }
  }

  lemma AckLog(s: PM.Sender, a: PM.Step) returns (more: seq<PM.Event>)
    requires a.StepPuback? || a.StepPubrec? || a.StepPubcomp?
    ensures PM.Apply(s, a).log == s.log + more
    ensures forall i :: 0 <= i < |more| ==> !more[i].Sent?
  {
    hide Position;
    more := PM.Apply(s, a).log[|s.log|..];
  }

  lemma PendingClientTakes(w: World, t: World)
    requires Enabled(w, ClientTakes) && t == Apply(w, ClientTakes) && Inv(w) && Pending(w)
    ensures Pending(t)
  {
    hide FlatMap, Bag, Apply, PO.Inv, RR.Bounded, Tokens, Shapes, Position;
    var s := w.client.publishes;
    ClientTakesEffect(w);
    AckIsExpected(w, w.down[0]);
    AckIsOnlyToken(w, w.down[0]);
    match w.down[0] {
      case Puback(pid) =>
        var i := PM.PubackIndex(s, pid);
        BagRemove(AwaitKey, s.awaitPuback, i);
        var k := Key(pid, s.awaitPuback[i].publish.uid);
        NotPending(w.up, k);
        SubsetMinus(UpKeys(w, QoS1), Bag(AwaitKey, RemoveAt(s.awaitPuback, i)), k);
      case Pubrec(pid) =>
        var i := PM.PubrecIndex(s, pid);
        BagRemove(AwaitKey, s.awaitPubrec, i);
        var k := Key(pid, s.awaitPubrec[i].publish.uid);
        NotPending(w.up, k);
        SubsetMinus(UpKeys(w, QoS2), Bag(AwaitKey, RemoveAt(s.awaitPubrec, i)), k);
      case Pubcomp(pid) =>
    }
  }

  lemma DeliversClientTakes(w: World, t: World)
    requires Enabled(w, ClientTakes) && t == Apply(w, ClientTakes) && Inv(w) && Delivers(w)
    ensures Delivers(t)
  {
    hide FlatMap, Bag, Apply, PM.Apply, Handled1, Handled2, PO.Inv, RR.Bounded, Tokens, Shapes, Position, Pending;
    var s := w.client.publishes;
    var a := ClientStep(w.down[0]);
    ClientTakesEffect(w);
    HandledStep(s, a);
    var more := AckLog(s, a);
    forall q
      ensures InOrder(t, q)
    {
      assert InOrder(w, q);
      FlatMapNothing(PR.SentOf(q), s.log, more);
      InOrderSame(w, t, q);
    }
    PendingClientTakes(w, t);
  }

  lemma DeliversStep(w: World, a: Step)
    requires Enabled(w, a) && Inv(w) && Delivers(w)
    ensures Delivers(Apply(w, a))
  {
    hide Delivers, Inv, PO.Apply, PO.Enabled, PM.Enabled, LocalEnabled, RM.Enabled;
    var t := Apply(w, a);
    match a {
      case Local(b) => DeliversLocal(w, b, t);
      case SendPublish(i, now) => DeliversSendPublish(w, i, now, t);
      case SendPubrel(now) => DeliversSendPubrel(w, now, t);
      case PeerTakes =>
        if w.up[0].PublishFrame? {
          DeliversPeerTakesPublish(w, t);
        } else {
          DeliversPeerTakesPubrel(w, t);
        }
      case PeerSends(b) => DeliversPeerSends(w, b, t);
      case ClientTakes => DeliversClientTakes(w, t);
    }
  }

  // ---- no publish is lost ----

  ghost predicate NoLoss(log: seq<PM.Event>) {
    forall k :: 0 <= k < |log| ==> !log[k].Lost?
  }

  /** Only a PUBREC that meets a full queue loses a publish. */
  lemma NoLossApply(s: PM.Sender, a: PM.Step)
    requires PM.Enabled(s, a) && NoLoss(s.log)
    requires a.StepPubrec? ==> |s.sendPubrel| < s.cap
    ensures NoLoss(PM.Apply(s, a).log)
  {
    hide Position;
  }

  lemma LocalEffect(w: World, b: PO.Step)
    requires Enabled(w, Local(b))
    ensures Apply(w, Local(b)).client == PO.Apply(w.client, b)
  {
    hide PO.Apply;
  }

  lemma PeerEffect(w: World, a: Step)
    requires Enabled(w, a) && (a.PeerTakes? || a.PeerSends?)
    ensures Apply(w, a).client == w.client
  {
  }

  lemma TransmitIsStep(s: PM.Sender, i: nat, now: int)
    requires PM.Enabled(s, PM.StepTransmit(i, now))
    ensures PM.Apply(s, PM.StepTransmit(i, now)) == PM.Transmit(s, i, now)
  {
  }

  lemma TransmitPubrelIsStep(s: PM.Sender, now: int)
    requires PM.Enabled(s, PM.StepTransmitPubrel(now))
    ensures PM.Apply(s, PM.StepTransmitPubrel(now)) == PM.TransmitPubrel(s, 0, now)
  {
  }

  lemma NoLossStep(w: World, a: Step)
    requires Enabled(w, a) && NoLoss(w.client.publishes.log)
    requires Inv(w)
    ensures NoLoss(Apply(w, a).client.publishes.log)
  {
    hide Inv, Apply, PO.Apply, PM.Apply, Position;
    var s := w.client.publishes;
    match a {
      case Local(b) =>
        LocalKeepsQueues(w.client, b);
        LocalEffect(w, b);
      case SendPublish(i, now) =>
        SendPublishEffect(w, i, now);
        NoLossApply(s, PM.StepTransmit(i, now));
        TransmitIsStep(s, i, now);
      case SendPubrel(now) =>
        SendPubrelEffect(w, now);
        NoLossApply(s, PM.StepTransmitPubrel(now));
        TransmitPubrelIsStep(s, now);
      case PeerTakes => PeerEffect(w, a);
      case PeerSends(_) => PeerEffect(w, a);
      case ClientTakes =>
        AckIsExpected(w, w.down[0]);
        ClientTakesEffect(w);
        NoLossApply(s, ClientStep(w.down[0]));
    }
  }

  // ---- over every run ----

  ghost predicate Kept(w: World) {
    Inv(w) && Delivers(w) && NoLoss(w.client.publishes.log)
  }

  lemma {:induction false} InvRun(w: World, run: seq<Step>)
    requires CanRun(w, run) && Kept(w)
    ensures Kept(Run(w, run))
    decreases |run|
  {
    hide Inv, Delivers, NoLoss, Enabled, Apply;
    if run != [] {
      InvStep(w, run[0]);
      DeliversStep(w, run[0]);
      NoLossStep(w, run[0]);
      InvRun(Apply(w, run[0]), run[1..]);
    }
  }

  /** A world in which client and receiver have queues of suitable capacity. */
  ghost predicate Reachable(w: World) {
    exists cap: nat, peerCap: nat, wireTopicSize: nat, limits, run ::
      && Suitable(cap, peerCap)
      && CanRun(Init(cap, peerCap, wireTopicSize, limits), run)
      && Run(Init(cap, peerCap, wireTopicSize, limits), run) == w
  }

  lemma ReachableStep(w: World, a: Step, t: World)
    requires Enabled(w, a) && t == Apply(w, a)
    requires Reachable(w)
    ensures Reachable(t)
  {
    hide Enabled, Apply, Suitable;
    var cap: nat, peerCap: nat, wireTopicSize: nat, limits, run :|
      && Suitable(cap, peerCap)
      && CanRun(Init(cap, peerCap, wireTopicSize, limits), run)
      && Run(Init(cap, peerCap, wireTopicSize, limits), run) == w;
    RunSnoc(Init(cap, peerCap, wireTopicSize, limits), run, a);
  }

  lemma TokensInit(cap: nat, peerCap: nat, wireTopicSize: nat, limits: RM.Limits)
    ensures Tokens(Init(cap, peerCap, wireTopicSize, limits))
  {
  }

  lemma DeliversInit(cap: nat, peerCap: nat, wireTopicSize: nat, limits: RM.Limits)
    ensures Delivers(Init(cap, peerCap, wireTopicSize, limits))
  {
  }

  lemma InvInit(cap: nat, peerCap: nat, wireTopicSize: nat, limits: RM.Limits)
    requires Suitable(cap, peerCap)
    ensures Kept(Init(cap, peerCap, wireTopicSize, limits))
  {
    hide PO.Inv, Tokens, Delivers;
    PO.InvInit(cap, wireTopicSize);
    TokensInit(cap, peerCap, wireTopicSize, limits);
    DeliversInit(cap, peerCap, wireTopicSize, limits);
  }

  lemma ReachableInv(w: World)
    requires Reachable(w)
    ensures Inv(w) && Delivers(w) && NoLoss(w.client.publishes.log)
  {
    hide Inv, Delivers, NoLoss, Suitable;
    var cap: nat, peerCap: nat, wireTopicSize: nat, limits, run :|
      && Suitable(cap, peerCap)
      && CanRun(Init(cap, peerCap, wireTopicSize, limits), run)
      && Run(Init(cap, peerCap, wireTopicSize, limits), run) == w;
    InvInit(cap, peerCap, wireTopicSize, limits);
    InvRun(Init(cap, peerCap, wireTopicSize, limits), run);
  }

  // ---- an identifier carries one request at a time ----

  /** Entries are counted by their key at most as often as by their identifier. */
  lemma {:induction false} KeyCount<T(!new)>(f: T -> seq<Key>, g: T -> seq<Pid>, s: seq<T>, k: Key)
    requires forall x :: multiset(f(x))[k] <= multiset(g(x))[k.pid]
    ensures Bag(f, s)[k] <= Bag(g, s)[k.pid]
  {
    if s != [] {
      KeyCount(f, g, s[1..], k);
      assert multiset(f(s[0]) + FlatMap(f, s[1..]))[k] == multiset(f(s[0]))[k] + Bag(f, s[1..])[k];
      assert multiset(g(s[0]) + FlatMap(g, s[1..]))[k.pid] == multiset(g(s[0]))[k.pid] + Bag(g, s[1..])[k.pid];
    }
  }

  /** The key of a queued publish of the class. */
  function QueuedKey(q: QoS): OwnedPublish -> seq<Key> {
    (p: OwnedPublish) => if p.Qos() == q then PublishKey(p) else []
  }

  lemma {:induction false} QueuedKeys(q: QoS, s: seq<OwnedPublish>)
    ensures FlatMap(PublishKey, FlatMap(PR.QueuedOf(q), s)) == FlatMap(QueuedKey(q), s)
  {
    if s != [] {
      QueuedKeys(q, s[1..]);
      FlatMapConcat(PublishKey, PR.QueuedOf(q)(s[0]), FlatMap(PR.QueuedOf(q), s[1..]));
      FlatMapOne(PublishKey, s[0]);
    }
  }

  lemma QueuedCount(q: QoS, s: seq<OwnedPublish>, k: Key)
    ensures Bag(QueuedKey(q), s)[k] <= Bag(PT.PublishPid, s)[k.pid]
  {
    hide Bag, FlatMap;
    forall p: OwnedPublish
      ensures multiset(QueuedKey(q)(p))[k] <= multiset(PT.PublishPid(p))[k.pid]
    {
    }
    KeyCount(QueuedKey(q), PT.PublishPid, s, k);
  }

  lemma AwaitCount(s: seq<PM.AwaitAck>, k: Key)
    ensures Bag(AwaitKey, s)[k] <= Bag(PT.AwaitPid, s)[k.pid]
  {
    hide Bag, FlatMap;
    KeyCount(AwaitKey, PT.AwaitPid, s, k);
  }

  lemma PubrelCount(s: seq<PM.PubrelEntry>, k: Key)
    ensures Bag(PubrelKey, s)[k] <= Bag(PT.PubrelPid, s)[k.pid]
  {
    hide Bag, FlatMap;
    KeyCount(PubrelKey, PT.PubrelPid, s, k);
  }

  lemma PubcompCount(s: seq<PM.AwaitPubcomp>, k: Key)
    ensures Bag(PubcompKey, s)[k] <= Bag(PT.PubcompPid, s)[k.pid]
  {
    hide Bag, FlatMap;
    KeyCount(PubcompKey, PT.PubcompPid, s, k);
  }

  /** No key is held by two entries of the client's queues. */
  lemma HeldOnce(s: PM.Sender, q: QoS, k: Key)
    requires PT.Faithful(s)
    ensures Bag(QueuedKey(q), s.sendPublish)[k] + Bag(AwaitKey, s.awaitPuback)[k] + Bag(AwaitKey, s.awaitPubrec)[k]
          + Bag(PubrelKey, s.sendPubrel)[k] + Bag(PubcompKey, s.awaitPubcomp)[k] <= 1
  {
    hide Bag, PT.Faithful, QueuedKey;
    PT.FaithfulOwnsOnce(s, k.pid);
    QueuedCount(q, s.sendPublish, k);
    AwaitCount(s.awaitPuback, k);
    AwaitCount(s.awaitPubrec, k);
    PubrelCount(s.sendPubrel, k);
    PubcompCount(s.awaitPubcomp, k);
  }

  lemma NothingLost(log: seq<PM.Event>)
    requires NoLoss(log)
    ensures Bag(LostKey, log) == multiset{}
  {
    FlatMapNothing(LostKey, [], log);
    assert [] + log == log;
  }

  // ---- the promises ----

  /** Per class, what the receiver delivered is a prefix of what the client
      accepted: the same messages, in the same order, none twice. */
  lemma DeliveredInOrder(w: World, q: QoS)
    requires Reachable(w)
    ensures FlatMap(PR.QueuedOf(q), w.delivered) <= FlatMap(PR.AcceptedOf(q), w.client.publishes.log)
    ensures FlatMap(MessageOf, w.delivered) == FlatMap(RM.DeliveredMessage, w.peer.log)
  {
    hide Reachable, FlatMap, PT.Faithful, PO.Ledger, PO.Balanced, Tokens, Shapes, Pending;
    ReachableInv(w);
    assert InOrder(w, q);
    assert PR.Ordered(w.client.publishes, q);
  }

  /** Every completed QoS 2 or QoS 1 publish has been delivered, at least as
      often as it was completed. */
  lemma CompletedWasDelivered(w: World)
    requires Reachable(w)
    ensures Bag(Done2Key, w.client.publishes.log) <= DeliveredKeys(w, QoS2)
    ensures Bag(Done1Key, w.client.publishes.log) <= DeliveredKeys(w, QoS1)
  {
    hide Reachable, FlatMap, Bag, PO.Inv, Tokens, Shapes;
    ReachableInv(w);
    var s := w.client.publishes;
    forall q
      ensures DeliveredKeys(w, q) + UpKeys(w, q) == SentKeys(s, q)
    {
      assert InOrder(w, q);
      BagConcat(PublishKey, FlatMap(PR.QueuedOf(q), w.delivered), FlatMap(FrameOf(q), w.up));
    }
    forall k
      ensures Bag(Done2Key, s.log)[k] <= DeliveredKeys(w, QoS2)[k]
      ensures Bag(Done1Key, s.log)[k] <= DeliveredKeys(w, QoS1)[k]
    {
      assert (DeliveredKeys(w, QoS2) + UpKeys(w, QoS2))[k] == SentKeys(s, QoS2)[k];
      assert (DeliveredKeys(w, QoS1) + UpKeys(w, QoS1))[k] == SentKeys(s, QoS1)[k];
    }
  }

  /** How often requests with a key were accepted and completed. */
  ghost function AcceptedKeys(w: World, q: QoS): multiset<Key> {
    Bag(PublishKey, FlatMap(PR.AcceptedOf(q), w.client.publishes.log))
  }

  ghost function DoneKeys(w: World, q: QoS): multiset<Key> {
    match q
    case QoS0 => multiset{}
    case QoS1 => Bag(Done1Key, w.client.publishes.log)
    case QoS2 => Bag(Done2Key, w.client.publishes.log)
  }

  lemma DeliveredWasAccepted(w: World, q: QoS, k: Key)
    requires Reachable(w)
    ensures DeliveredKeys(w, q)[k] <= AcceptedKeys(w, q)[k]
  {
    hide Reachable, FlatMap, Bag;
    DeliveredInOrder(w, q);
    var d, a := FlatMap(PR.QueuedOf(q), w.delivered), FlatMap(PR.AcceptedOf(q), w.client.publishes.log);
    assert a == d + a[|d|..];
    BagConcat(PublishKey, d, a[|d|..]);
  }

  lemma SentOrQueued(s: PM.Sender, q: QoS)
    requires PR.Inv(s)
    ensures Bag(PublishKey, FlatMap(PR.AcceptedOf(q), s.log)) == SentKeys(s, q) + Bag(QueuedKey(q), s.sendPublish)
  {
    hide FlatMap, PR.Bounded, PR.Conserved, PR.Caused;
    assert PR.Ordered(s, q);
    BagConcat(PublishKey, FlatMap(PR.SentOf(q), s.log), FlatMap(PR.QueuedOf(q), s.sendPublish));
    QueuedKeys(q, s.sendPublish);
  }

  /** At most one accepted request with a key is not completed yet. */
  lemma OneInFlight(w: World, q: QoS, k: Key)
    requires Reachable(w) && q != QoS0
    ensures AcceptedKeys(w, q)[k] <= DoneKeys(w, q)[k] + 1
  {
    hide Reachable, FlatMap, Bag, Tokens, Shapes, InOrder, Labelled, Pending, PO.Ledger, PO.Balanced, RR.Bounded;
    ReachableInv(w);
    var s := w.client.publishes;
    NothingLost(s.log);
    HeldOnce(s, q, k);
    SentOrQueued(s, q);
    assert AcceptedKeys(w, q)[k] == SentKeys(s, q)[k] + Bag(QueuedKey(q), s.sendPublish)[k];
  }

  /** Exactly once, also for identifiers and labels that are used again and again:
      a request is delivered before it is completed, never twice, and at most the
      one request that is not completed yet can be delivered already. A key that
      nobody holds was therefore delivered exactly as often as it was accepted. */
  lemma ExactlyOnceDelivery(w: World, q: QoS, k: Key)
    requires Reachable(w) && q != QoS0
    ensures DoneKeys(w, q)[k] <= DeliveredKeys(w, q)[k] <= AcceptedKeys(w, q)[k] <= DoneKeys(w, q)[k] + 1
    ensures AcceptedKeys(w, q)[k] == DoneKeys(w, q)[k] ==> DeliveredKeys(w, q)[k] == AcceptedKeys(w, q)[k]
  {
    hide Reachable, FlatMap, Bag;
    CompletedWasDelivered(w);
    DeliveredWasAccepted(w, q, k);
    OneInFlight(w, q, k);
  }

  lemma DeliveredLog(w: World)
    requires w.up != []
    ensures PeerHandles(w.peer, w.up[0]).0 == Apply(w, PeerTakes).peer
  {
  }

  /** Back-pressure: with suitable capacities the sender's own checks are enough.
      Whatever arrives at the receiver is accepted, and every publish that
      arrives is new and delivered. */
  lemma ReceiverAlwaysAccepts(w: World)
    requires w.up != [] && Reachable(w)
    ensures PeerHandles(w.peer, w.up[0]).1 == Ok(())
    ensures w.up[0].PublishFrame? ==> PeerHandles(w.peer, w.up[0]).0.log == w.peer.log + [RM.Delivered(w.up[0].pub.m)]
  {
    hide Reachable, PO.Inv, RR.Bounded, Tokens, Shapes, PeerHandles, Delivers;
    ReachableInv(w);
    if w.up[0].PublishFrame? {
      ArrivalIsGood(w, w.up[0].pub);
      PeerDelivers(w);
      DeliveredLog(w);
    } else {
      PubrelIsKnown(w, w.up[0].pid);
      PeerReleases(w);
    }
  }

  /** Whatever arrives at the client is an acknowledgement it waits for, and a
      PUBREC finds room for its pubrel: UnexpectedAck and QueueFull do not occur,
      nothing is lost, and the panic on an anonymous pubrel is out of reach. */
  lemma ClientAlwaysExpects(w: World)
    requires Reachable(w)
    ensures forall e :: e in w.client.publishes.sendPubrel ==> e.uid.Some?
    ensures NoLoss(w.client.publishes.log)
    ensures w.down != [] ==> Awaited(w.client.publishes, w.down[0])
  {
    hide Reachable, PO.Inv, RR.Bounded, Tokens, Delivers, Awaited, NoLoss;
    ReachableInv(w);
    if w.down != [] {
      AckIsExpected(w, w.down[0]);
    }
  }
}
