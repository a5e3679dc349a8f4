/** A completion belongs to its own request, also when labels and identifiers
    are used again: with identifiers from the pool, the whole handshake lies in
    the time in which the identifier is used for nothing else. */
module PublishLifetimes {
  import opened Mqtt
  import opened Seqs
  import opened PublishModel
  import PR = PublishRuns
  import PT = PublishTheorems

  /** The identifiers of the publish that an event accepts, first transmits,
      completes or loses. */
  function Concerned(e: Event): seq<Pid> {
    match e
    case Accepted(pub) => PT.PublishPid(pub)
    case Sent(pub, _) => PT.PublishPid(pub)
    case Done(_, AtLeastOnce(pid)) => [pid]
    case Done(_, ExactlyOnce(pid)) => [pid]
    case Lost(_, pid) => [pid]
    case _ => []
  }

  function Concerns(pid: Pid): Event -> bool { (e: Event) => pid in Concerned(e) }

  /** The history since the identifier was last given a new purpose. */
  function Life(log: seq<Event>, pid: Pid): seq<Event> { Since(Concerns(pid), log) }

  /** ... which begins with the first transmission of the request. */
  ghost predicate Begun(life: seq<Event>, uid: UniqueId, qp: QosPid) {
    life != [] && life[0].Sent? && life[0].pub.uid == uid && life[0].pub.m.qospid == qp
  }

  ghost predicate AckLife(log: seq<Event>, uid: UniqueId, qp: QosPid) {
    match qp
    case AtMostOnce => true
    case AtLeastOnce(pid) => Begun(Life(log, pid), uid, qp)
    case ExactlyOnce(pid) => Begun(Life(log, pid), uid, qp)
  }

  ghost predicate PubrelLife(log: seq<Event>, uid: UniqueId, pid: Pid) {
    Begun(Life(log, pid), uid, ExactlyOnce(pid)) && PR.PubrecIn(Life(log, pid), uid, pid)
  }

  ghost predicate PubcompLife(log: seq<Event>, uid: UniqueId, pid: Pid) {
    Begun(Life(log, pid), uid, ExactlyOnce(pid)) && PR.PubrelOut(Life(log, pid), uid, pid)
  }

  /** The completion at index `k` ends a life that holds its whole handshake. */
  ghost predicate OwnLife(log: seq<Event>, k: nat)
    requires k < |log|
  {
    match log[k]
    case Done(uid, AtLeastOnce(pid)) =>
      Begun(Life(log[..k], pid), uid, AtLeastOnce(pid)) && PR.PubackIn(Life(log[..k], pid), uid, pid)
    case Done(uid, ExactlyOnce(pid)) =>
      Begun(Life(log[..k], pid), uid, ExactlyOnce(pid)) && PR.PubcompIn(Life(log[..k], pid), uid, pid)
    case _ => true
  }

  ghost predicate Alive(s: Sender) {
    && (forall e :: e in s.awaitPuback ==> AckLife(s.log, e.publish.uid, AtLeastOnce(e.pid)))
    && (forall e :: e in s.awaitPubrec ==> AckLife(s.log, e.publish.uid, ExactlyOnce(e.pid)))
    && (forall e :: e in s.sendPubrel && e.uid.Some? ==> PubrelLife(s.log, e.uid.value, e.pid))
    && (forall e :: e in s.awaitPubcomp ==> PubcompLife(s.log, e.uid, e.pid))
    && (forall k :: 0 <= k < |s.log| ==> OwnLife(s.log, k))
  }

  /** The identifiers of the entries that wait for an acknowledgement. */
  ghost function Waiting(s: Sender): multiset<Pid> {
    Bag(PT.AwaitPid, s.awaitPuback) + Bag(PT.AwaitPid, s.awaitPubrec)
    + Bag(PT.PubrelPid, s.sendPubrel) + Bag(PT.PubcompPid, s.awaitPubcomp)
  }

  /** An event that gives the identifier no new purpose continues its life. */
  lemma LifeContinues(log: seq<Event>, e: Event, pid: Pid)
    requires pid !in Concerned(e)
    ensures Life(log, pid) != [] ==> Life(log + [e], pid) == Life(log, pid) + [e]
  {
    hide Since;
    SinceSnoc(Concerns(pid), log, e);
  }

  lemma LivesContinue(log: seq<Event>, e: Event, uid: UniqueId, pid: Pid)
    requires pid !in Concerned(e)
    ensures AckLife(log, uid, AtLeastOnce(pid)) ==> AckLife(log + [e], uid, AtLeastOnce(pid))
    ensures AckLife(log, uid, ExactlyOnce(pid)) ==> AckLife(log + [e], uid, ExactlyOnce(pid))
    ensures PubrelLife(log, uid, pid) ==> PubrelLife(log + [e], uid, pid)
    ensures PubcompLife(log, uid, pid) ==> PubcompLife(log + [e], uid, pid)
  {
    hide Life, PR.PubrecIn, PR.PubrelOut, PR.PublishOut;
    LifeContinues(log, e, pid);
    PR.CausesPersist(Life(log, pid), [e]);
  }

  lemma LifeStarts(log: seq<Event>, p: OwnedPublish, now: int)
    ensures AckLife(log + [Sent(p, now)], p.uid, p.m.qospid)
  {
    hide Since;
    match p.m.qospid {
      case AtMostOnce =>
      case AtLeastOnce(pid) => SinceSnoc(Concerns(pid), log, Sent(p, now));
      case ExactlyOnce(pid) => SinceSnoc(Concerns(pid), log, Sent(p, now));
    }
  }

  lemma AwaitIn(q: seq<AwaitAck>, e: AwaitAck)
    requires e in q
    ensures e.pid in Bag(PT.AwaitPid, q)
  {
    hide FlatMap;
    FlatMapIn(PT.AwaitPid, q, e.pid);
  }

  lemma PubrelIn(q: seq<PubrelEntry>, e: PubrelEntry)
    requires e in q && e.uid.Some?
    ensures e.pid in Bag(PT.PubrelPid, q)
  {
    hide FlatMap;
    FlatMapIn(PT.PubrelPid, q, e.pid);
  }

  lemma PubcompIn(q: seq<AwaitPubcomp>, e: AwaitPubcomp)
    requires e in q
    ensures e.pid in Bag(PT.PubcompPid, q)
  {
    hide FlatMap;
    FlatMapIn(PT.PubcompPid, q, e.pid);
  }

  lemma OwnLivesPersist(log: seq<Event>, e: Event)
    requires forall k :: 0 <= k < |log| ==> OwnLife(log, k)
    requires OwnLife(log + [e], |log|)
    ensures forall k :: 0 <= k < |log + [e]| ==> OwnLife(log + [e], k)
  {
    hide Life, PR.PubackIn, PR.PubcompIn;
    var longer := log + [e];
    forall k | 0 <= k < |log|
      ensures OwnLife(longer, k)
    {
      assert OwnLife(log, k);
      assert longer[k] == log[k] && longer[..k] == log[..k];
    }
  }

  /** One more event that gives none of the waiting identifiers a new purpose. */
  lemma AliveByOne(s: Sender, e: Event)
    requires Alive(s) && OwnLife(s.log + [e], |s.log|)
    requires forall pid :: pid in Concerned(e) ==> pid !in Waiting(s)
    ensures Alive(s.(log := s.log + [e]))
  {
    hide AckLife, PubrelLife, PubcompLife, OwnLife, Bag;
    var longer := s.log + [e];
    forall a | a in s.awaitPuback
      ensures AckLife(longer, a.publish.uid, AtLeastOnce(a.pid))
    {
      AwaitIn(s.awaitPuback, a);
      LivesContinue(s.log, e, a.publish.uid, a.pid);
    }
    forall a | a in s.awaitPubrec
      ensures AckLife(longer, a.publish.uid, ExactlyOnce(a.pid))
    {
      AwaitIn(s.awaitPubrec, a);
      LivesContinue(s.log, e, a.publish.uid, a.pid);
    }
    forall a | a in s.sendPubrel && a.uid.Some?
      ensures PubrelLife(longer, a.uid.value, a.pid)
    {
      PubrelIn(s.sendPubrel, a);
      LivesContinue(s.log, e, a.uid.value, a.pid);
    }
    forall a | a in s.awaitPubcomp
      ensures PubcompLife(longer, a.uid, a.pid)
    {
      PubcompIn(s.awaitPubcomp, a);
      LivesContinue(s.log, e, a.uid, a.pid);
    }
    OwnLivesPersist(s.log, e);
  }

  /** Fewer entries, and the same history. */
  lemma AliveFewer(s: Sender, t: Sender)
    requires Alive(s) && t.log == s.log
    requires forall e :: e in t.awaitPuback ==> e in s.awaitPuback
    requires forall e :: e in t.awaitPubrec ==> e in s.awaitPubrec
    requires forall e :: e in t.sendPubrel ==> e in s.sendPubrel
    requires forall e :: e in t.awaitPubcomp ==> e in s.awaitPubcomp
    ensures Alive(t)
  {
    hide AckLife, PubrelLife, PubcompLife, OwnLife;
  }

  // ---- every step ----

  /** What waits is owned, and nothing is owned twice. */
  lemma WaitingOwned(s: Sender, p: Pid)
    requires PT.Distinct(PT.OwnedPids(s))
    ensures Bag(PT.PublishPid, s.sendPublish)[p] + Waiting(s)[p] <= 1
    ensures p !in PT.OwnedPids(s) ==> p !in Waiting(s)
  {
    hide Bag;
    assert PT.OwnedPids(s)[p] <= 1;
  }

  lemma QueuedIn(q: seq<OwnedPublish>, i: nat, p: Pid)
    requires i < |q| && p in PT.PublishPid(q[i])
    ensures p in Bag(PT.PublishPid, q)
  {
    hide FlatMap;
    FlatMapIn(PT.PublishPid, q, p);
  }

  lemma AliveTransmit(s: Sender, i: nat, now: int)
    requires Alive(s) && PT.Distinct(PT.OwnedPids(s)) && i < |s.sendPublish|
    ensures Alive(Transmit(s, i, now))
  {
    hide AckLife, PubrelLife, PubcompLife, Bag, PT.OwnedPids, PT.Distinct, Waiting;
    var p := s.sendPublish[i];
    forall pid | pid in Concerned(Sent(p, now))
      ensures pid !in Waiting(s)
    {
      QueuedIn(s.sendPublish, i, pid);
      WaitingOwned(s, pid);
    }
    assert (s.log + [Sent(p, now)])[|s.log|] == Sent(p, now);
    AliveByOne(s, Sent(p, now));
    LifeStarts(s.log, p, now);
    var u := s.(log := s.log + [Sent(p, now)]);
    if p.m.qospid.AtMostOnce? {
      AliveByOne(u, Done(p.uid, AtMostOnce));
      assert s.log + [Sent(p, now), Done(p.uid, AtMostOnce)] == u.log + [Done(p.uid, AtMostOnce)];
    }
  }

  /** Only completions have to be justified. */
  lemma QuietIsOwn(log: seq<Event>, e: Event)
    requires !e.Done? || e.qospid.AtMostOnce?
    ensures OwnLife(log + [e], |log|)
  {
  }

  lemma PubrelStage(log: seq<Event>, uid: UniqueId, pid: Pid, now: int)
    requires PubrelLife(log, uid, pid)
    ensures PubcompLife(log + [SentPubrel(pid, Some(uid), now)], uid, pid)
  {
    hide Life, PR.PubrecIn, PR.PubrelOut;
    LifeContinues(log, SentPubrel(pid, Some(uid), now), pid);
    PR.PubrelFollows(Life(log, pid), uid, pid, now);
  }

  lemma AliveTransmitPubrel(s: Sender, now: int)
    requires Alive(s) && Enabled(s, StepTransmitPubrel(now))
    ensures Alive(TransmitPubrel(s, 0, now))
  {
    hide AckLife, OwnLife, Bag, Waiting;
    var e := s.sendPubrel[0];
    assert e in s.sendPubrel;
    assert (s.log + [SentPubrel(e.pid, e.uid, now)])[|s.log|] == SentPubrel(e.pid, e.uid, now);
    QuietIsOwn(s.log, SentPubrel(e.pid, e.uid, now));
    AliveByOne(s, SentPubrel(e.pid, e.uid, now));
    PubrelStage(s.log, e.uid.value, e.pid, now);
  }

  lemma PubrecStage(log: seq<Event>, uid: UniqueId, pid: Pid)
    requires AckLife(log, uid, ExactlyOnce(pid))
    ensures PubrelLife(log + [GotPubrec(pid)], uid, pid)
  {
    hide Life, PR.PubrecIn;
    LifeContinues(log, GotPubrec(pid), pid);
    assert PR.PublishOut(Life(log, pid), uid, ExactlyOnce(pid));
    PR.PubrecFollows(Life(log, pid), uid, pid);
  }

  /** The acknowledgement that ends a life. */
  lemma PubackStage(log: seq<Event>, uid: UniqueId, pid: Pid)
    requires AckLife(log, uid, AtLeastOnce(pid))
    ensures OwnLife(log + [GotPuback(pid), Done(uid, AtLeastOnce(pid))], |log| + 1)
  {
    hide Life, PR.PubackIn;
    LifeContinues(log, GotPuback(pid), pid);
    assert PR.PublishOut(Life(log, pid), uid, AtLeastOnce(pid));
    PR.PubackFollows(Life(log, pid), uid, pid);
    assert (log + [GotPuback(pid), Done(uid, AtLeastOnce(pid))])[..|log| + 1] == log + [GotPuback(pid)];
  }

  lemma PubcompStage(log: seq<Event>, uid: UniqueId, pid: Pid)
    requires PubcompLife(log, uid, pid)
    ensures OwnLife(log + [GotPubcomp(pid), Done(uid, ExactlyOnce(pid))], |log| + 1)
  {
    hide Life, PR.PubcompIn, PR.PubrelOut;
    LifeContinues(log, GotPubcomp(pid), pid);
    PR.PubcompFollows(Life(log, pid), uid, pid);
    assert (log + [GotPubcomp(pid), Done(uid, ExactlyOnce(pid))])[..|log| + 1] == log + [GotPubcomp(pid)];
  }

  /** After the entry that held an identifier is gone, nobody waits with it. */
  lemma ReleasedWaits(s: Sender, a: Step, pid: Pid)
    requires Enabled(s, a) && PT.Distinct(PT.OwnedPids(s)) && !a.StepAdmit?
    requires PT.Released(s, a) == multiset{pid}
    ensures pid !in Waiting(Apply(s, a))
  {
    hide Bag, PT.OwnedPids, Waiting, Apply, PT.Released;
    PT.OwnedPidsStep(s, a);
    PT.DistinctStep(s, a);
    WaitingOwned(Apply(s, a), pid);
    assert (PT.OwnedPids(Apply(s, a)) + multiset{pid})[pid] == PT.OwnedPids(s)[pid];
    assert PT.OwnedPids(s)[pid] <= 1;
  }

  lemma WaitingIgnoresLog(s: Sender, t: Sender)
    requires t == s.(log := t.log, sendPublish := t.sendPublish)
    ensures Waiting(t) == Waiting(s)
  {
  }

  /** An acknowledgement that removed entries and ended the life of `pid`. */
  lemma Finish(s: Sender, t: Sender, e: Event, d: Event, pid: Pid)
    requires Alive(s.(log := s.log + [e])) && t.log == s.log + [e, d]
    requires forall a :: a in t.awaitPuback ==> a in s.awaitPuback
    requires forall a :: a in t.awaitPubrec ==> a in s.awaitPubrec
    requires forall a :: a in t.sendPubrel ==> a in s.sendPubrel
    requires forall a :: a in t.awaitPubcomp ==> a in s.awaitPubcomp
    requires Concerned(d) == [pid] && pid !in Waiting(t) && OwnLife(t.log, |s.log| + 1)
    ensures Alive(t)
  {
    hide Alive, OwnLife, Waiting;
    var u := t.(log := s.log + [e]);
    AliveFewer(s.(log := s.log + [e]), u);
    WaitingIgnoresLog(t, u);
    assert u.log + [d] == t.log;
    AliveByOne(u, d);
  }

  lemma AlivePuback(s: Sender, pid: Pid)
    requires Alive(s) && PT.Distinct(PT.OwnedPids(s))
    ensures Alive(OnPuback(s, pid))
  {
    hide AckLife, PubrelLife, PubcompLife, OwnLife, Bag, Waiting, PT.OwnedPids, PT.Distinct, Position;
    var i := PubackIndex(s, pid);
    QuietIsOwn(s.log, GotPuback(pid));
    AliveByOne(s, GotPuback(pid));
    if i < |s.awaitPuback| {
      var uid := s.awaitPuback[i].publish.uid;
      assert s.awaitPuback[i] in s.awaitPuback;
      PubackStage(s.log, uid, pid);
      ReleasedWaits(s, StepPuback(pid), pid);
      Finish(s, OnPuback(s, pid), GotPuback(pid), Done(uid, AtLeastOnce(pid)), pid);
    }
  }

  lemma AlivePubcomp(s: Sender, pid: Pid)
    requires Alive(s) && PT.Distinct(PT.OwnedPids(s))
    ensures Alive(OnPubcomp(s, pid))
  {
    hide AckLife, PubrelLife, PubcompLife, OwnLife, Bag, Waiting, PT.OwnedPids, PT.Distinct, Position;
    var i := PubcompIndex(s, pid);
    QuietIsOwn(s.log, GotPubcomp(pid));
    AliveByOne(s, GotPubcomp(pid));
    if i < |s.awaitPubcomp| {
      var uid := s.awaitPubcomp[i].uid;
      assert s.awaitPubcomp[i] in s.awaitPubcomp;
      PubcompStage(s.log, uid, pid);
      ReleasedWaits(s, StepPubcomp(pid), pid);
      Finish(s, OnPubcomp(s, pid), GotPubcomp(pid), Done(uid, ExactlyOnce(pid)), pid);
    }
  }

  lemma LostIsOwn(log: seq<Event>, e: Event, d: Event)
    requires d.Lost?
    ensures OwnLife(log + [e, d], |log| + 1)
  {
  }

  lemma AlivePubrec(s: Sender, pid: Pid)
    requires Alive(s) && PT.Distinct(PT.OwnedPids(s))
    ensures Alive(OnPubrec(s, pid))
  {
    hide AckLife, PubrelLife, PubcompLife, OwnLife, Bag, Waiting, PT.OwnedPids, PT.Distinct, Position;
    var i := PubrecIndex(s, pid);
    QuietIsOwn(s.log, GotPubrec(pid));
    AliveByOne(s, GotPubrec(pid));
    if i < |s.awaitPubrec| {
      var uid := s.awaitPubrec[i].publish.uid;
      assert s.awaitPubrec[i] in s.awaitPubrec;
      if |s.sendPubrel| < s.cap {
        PubrecStage(s.log, uid, pid);
      } else {
        ReleasedWaits(s, StepPubrec(pid), pid);
        LostIsOwn(s.log, GotPubrec(pid), Lost(uid, pid));
        Finish(s, OnPubrec(s, pid), GotPubrec(pid), Lost(uid, pid), pid);
      }
    }
  }

  lemma AliveRepeat(s: Sender, a: Step)
    requires Alive(s) && Enabled(s, a)
    requires a.StepRepeatPuback? || a.StepRepeatPubrec? || a.StepRepeatPubrel?
    ensures Alive(Apply(s, a))
  {
    hide AckLife, PubrelLife, PubcompLife, OwnLife, Bag, Waiting;
    var e := Apply(s, a).log[|s.log|];
    QuietIsOwn(s.log, e);
    AliveByOne(s, e);
    match a {
      case StepRepeatPuback(i, _) => assert s.awaitPuback[i] in s.awaitPuback;
      case StepRepeatPubrec(i, _) => assert s.awaitPubrec[i] in s.awaitPubrec;
      case StepRepeatPubrel(i, _) => assert s.awaitPubcomp[i] in s.awaitPubcomp;
    }
  }

  lemma AliveAdmit(s: Sender, pub: OwnedPublish)
    requires Alive(s) && PT.Distinct(PT.OwnedPids(s)) && multiset(PT.PublishPid(pub)) !! PT.OwnedPids(s)
    ensures Alive(Admit(s, pub))
  {
    hide AckLife, PubrelLife, PubcompLife, OwnLife, Bag, Waiting, PT.OwnedPids, PT.Distinct;
    forall pid | pid in Concerned(Accepted(pub))
      ensures pid !in Waiting(s)
    {
      assert pid in multiset(PT.PublishPid(pub));
      WaitingOwned(s, pid);
    }
    QuietIsOwn(s.log, Accepted(pub));
    AliveByOne(s, Accepted(pub));
  }

  lemma AliveStep(s: Sender, a: Step)
    requires Alive(s) && Enabled(s, a) && PT.Distinct(PT.OwnedPids(s))
    requires a.StepAdmit? ==> multiset(PT.PublishPid(a.pub)) !! PT.OwnedPids(s)
    ensures Alive(Apply(s, a))
  {
    hide Alive, PT.OwnedPids, PT.Distinct, Position;
    match a {
      case StepAdmit(pub) => AliveAdmit(s, pub);
      case StepTransmit(i, now) => AliveTransmit(s, i, now);
      case StepTransmitPubrel(now) => AliveTransmitPubrel(s, now);
      case StepPuback(pid) => AlivePuback(s, pid);
      case StepPubrec(pid) => AlivePubrec(s, pid);
      case StepPubcomp(pid) => AlivePubcomp(s, pid);
      case _ => AliveRepeat(s, a);
    }
  }
}

/** The same for subscribe and unsubscribe requests. */
module SubscribeLifetimes {
  import opened Mqtt
  import opened Seqs
  import opened SubscribeModel
  import PO = PidOwnership

  function Concerned(e: Event): seq<Pid> {
    match e
    case Accepted(r) => [r.pid]
    case Sent(r, _) => [r.pid]
    case SubscribeDone(r, _) => [r.pid]
    case UnsubscribeDone(r) => [r.pid]
    case _ => []
  }

  function Concerns(pid: Pid): Event -> bool { (e: Event) => pid in Concerned(e) }

  /** The history since the identifier was last given a new purpose. */
  function Life(log: seq<Event>, pid: Pid): seq<Event> { Since(Concerns(pid), log) }

  /** ... which begins with the first transmission of the request. */
  ghost predicate Begun(log: seq<Event>, r: SubRequest) {
    Life(log, r.pid) != [] && Life(log, r.pid)[0].Sent? && Life(log, r.pid)[0].request == r
  }

  ghost predicate OwnLife(log: seq<Event>, k: nat)
    requires k < |log|
  {
    match log[k]
    case SubscribeDone(r, _) => k > 0 && Begun(log[..k - 1], r)
    case UnsubscribeDone(r) => k > 0 && Begun(log[..k - 1], r)
    case _ => true
  }

  ghost predicate Alive(s: Subs) {
    && (forall e :: e in s.awaitAck ==> Begun(s.log, e.request))
    && (forall k :: 0 <= k < |s.log| ==> OwnLife(s.log, k))
  }

  ghost predicate Distinct(b: multiset<Pid>) {
    forall p :: b[p] <= 1
  }

  lemma BegunContinues(log: seq<Event>, e: Event, r: SubRequest)
    requires Begun(log, r) && r.pid !in Concerned(e)
    ensures Begun(log + [e], r)
  {
    hide Since;
    SinceSnoc(Concerns(r.pid), log, e);
  }

  lemma BegunStarts(log: seq<Event>, r: SubRequest, now: int)
    ensures Begun(log + [Sent(r, now)], r)
  {
    hide Since;
    SinceSnoc(Concerns(r.pid), log, Sent(r, now));
  }

  lemma AwaitIn(q: seq<AwaitAck>, e: AwaitAck)
    requires e in q
    ensures e.request.pid in Bag(PO.AwaitPid, q)
  {
    hide FlatMap;
    FlatMapIn(PO.AwaitPid, q, e.request.pid);
  }

  lemma AliveByOne(s: Subs, e: Event)
    requires Alive(s) && OwnLife(s.log + [e], |s.log|)
    requires forall pid :: pid in Concerned(e) ==> pid !in Bag(PO.AwaitPid, s.awaitAck)
    ensures Alive(s.(log := s.log + [e]))
  {
    hide Begun, Bag;
    var longer := s.log + [e];
    forall a | a in s.awaitAck
      ensures Begun(longer, a.request)
    {
      AwaitIn(s.awaitAck, a);
      BegunContinues(s.log, e, a.request);
    }
    forall k | 0 <= k < |s.log|
      ensures OwnLife(longer, k)
    {
      assert OwnLife(s.log, k);
      assert longer[k] == s.log[k];
      if k > 0 {
        assert longer[..k - 1] == s.log[..k - 1];
      }
    }
  }

  lemma AliveTransmit(s: Subs, now: int)
    requires Alive(s) && s.sendRequest != [] && Distinct(PO.SubPids(s))
    ensures Alive(Transmit(s, now))
  {
    hide Begun, Bag;
    var r := s.sendRequest[0];
    BagRemove(PO.RequestPid, s.sendRequest, 0);
    assert PO.SubPids(s)[r.pid] <= 1;
    assert (s.log + [Sent(r, now)])[|s.log|] == Sent(r, now);
    AliveByOne(s, Sent(r, now));
    BegunStarts(s.log, r, now);
  }

  /** An acknowledgement `e` that completes the request of entry `i`. */
  lemma AliveAck(s: Subs, i: nat, e: Event, d: Event)
    requires Alive(s) && i < |s.awaitAck| && Distinct(PO.SubPids(s))
    requires e.GotSuback? || e.GotUnsuback?
    requires (d.SubscribeDone? || d.UnsubscribeDone?) && d.request == s.awaitAck[i].request
    ensures Alive(s.(awaitAck := RemoveAt(s.awaitAck, i), log := s.log + [e, d]))
  {
    hide Begun, Bag;
    var r := s.awaitAck[i].request;
    assert s.awaitAck[i] in s.awaitAck;
    BagRemove(PO.AwaitPid, s.awaitAck, i);
    assert PO.SubPids(s)[r.pid] <= 1;
    assert (s.log + [e])[|s.log|] == e;
    AliveByOne(s, e);
    var u := s.(awaitAck := RemoveAt(s.awaitAck, i), log := s.log + [e]);
    assert (u.log + [d])[|u.log|] == d && (u.log + [d])[..|s.log|] == s.log;
    AliveByOne(u, d);
    assert u.log + [d] == s.log + [e, d];
  }

  lemma AliveStep(s: Subs, a: Step)
    requires Alive(s) && Enabled(s, a) && Distinct(PO.SubPids(s))
    requires a.StepAccept? ==> a.request.pid !in PO.SubPids(s)
    ensures Alive(Apply(s, a))
  {
    hide Begun, Bag, Position, Distinct, AnyFailure;
    match a {
      case StepAccept(r) => AliveByOne(s, Accepted(r));
      case StepTransmit(now) => AliveTransmit(s, now);
      case StepRepeat(i, due, now) =>
        assert s.awaitAck[i] in s.awaitAck;
        AliveByOne(s, Resent(s.awaitAck[i].request, due, now));
      case StepSuback(pid, codes) =>
        AliveByOne(s, GotSuback(pid, codes));
        var i := SubackIndex(s, pid);
        if i < |s.awaitAck| {
          var r := s.awaitAck[i].request;
          AliveAck(s, i, GotSuback(pid, codes), SubscribeDone(r, SubscribeResult(codes, r)));
        }
      case StepUnsuback(pid) =>
        AliveByOne(s, GotUnsuback(pid));
        var i := UnsubackIndex(s, pid);
        if i < |s.awaitAck| {
          AliveAck(s, i, GotUnsuback(pid), UnsubscribeDone(s.awaitAck[i].request));
        }
    }
  }
}

/** Over every run of the identifier system: what a completion says about the
    one request that held its identifier. */
module Handshakes {
  import opened Mqtt
  import opened Seqs
  import opened PidPools
  import PM = PublishModel
  import PR = PublishRuns
  import PT = PublishTheorems
  import PL = PublishLifetimes
  import SM = SubscribeModel
  import SR = SubscribeRuns
  import SL = SubscribeLifetimes
  import opened PidOwnership

  lemma SubPidsDistinct(g: System)
    requires Ledger(g)
    ensures SL.Distinct(SubPids(g.subs))
  {
    hide Ledger, SubPids, PT.OwnedPids, Bag;
    forall p
      ensures SubPids(g.subs)[p] <= 1
    {
      OncePerPid(g, p);
    }
  }

  lemma RequestIsFresh(g: System)
    requires Ledger(g) && Issued(g.pool).Some?
    ensures Issued(g.pool).value !in SubPids(g.subs)
  {
    hide Ledger, SubPids, PT.OwnedPids, Bag;
    IssuedUnheld(g);
  }

  lemma PublishesStep(g: System, a: Step)
    requires Enabled(g, a) && Inv(g) && PL.Alive(g.publishes)
    ensures PL.Alive(Apply(g, a).publishes)
  {
    hide Ledger, Balanced, PR.Inv, PT.OwnedPids, PL.Alive, PM.Apply, PM.Enabled, PM.Admit, SM.Apply, Position;
    if a.Admit? {
      CallerIsFresh(g, a.k);
      PL.AliveStep(g.publishes, PM.StepAdmit(g.callers[a.k]));
      AdmitIsStep(g.publishes, g.callers[a.k]);
    } else if a.PublishStep? {
      PL.AliveStep(g.publishes, a.publish);
    }
  }

  lemma AcceptIsStep(s: SM.Subs, r: SM.SubRequest)
    requires |s.sendRequest| < s.cap
    ensures SM.Enabled(s, SM.StepAccept(r)) && SM.Apply(s, SM.StepAccept(r)) == SM.Admit(s, r)
  {
  }

  lemma SubscribesStep(g: System, a: Step)
    requires Enabled(g, a) && Inv(g) && SL.Alive(g.subs) && SM.Reachable(g.subs)
    ensures SL.Alive(Apply(g, a).subs) && SM.Reachable(Apply(g, a).subs)
  {
    hide SM.Reachable, Ledger, Balanced, PT.Faithful, PR.Inv, SubPids, SL.Alive, PM.Apply, SM.Apply, SM.Enabled, SM.Admit, Position;
    if a.Request? {
      RequestIsFresh(g);
      SubPidsDistinct(g);
      AcceptIsStep(g.subs, SM.SubRequest(a.topics, a.kind, Issued(g.pool).value, a.uid));
      SL.AliveStep(g.subs, SM.StepAccept(SM.SubRequest(a.topics, a.kind, Issued(g.pool).value, a.uid)));
      SR.StepReachable(g.subs, SM.StepAccept(SM.SubRequest(a.topics, a.kind, Issued(g.pool).value, a.uid)));
    } else if a.SubscribeStep? {
      SubPidsDistinct(g);
      SL.AliveStep(g.subs, a.subscribe);
      SR.StepReachable(g.subs, a.subscribe);
    }
  }

  lemma {:induction false} AliveRun(g: System, run: seq<Step>)
    requires CanRun(g, run) && Inv(g) && PL.Alive(g.publishes) && SL.Alive(g.subs) && SM.Reachable(g.subs)
    ensures PL.Alive(Run(g, run).publishes) && SL.Alive(Run(g, run).subs) && SM.Reachable(Run(g, run).subs)
    decreases |run|
  {
    hide Inv, PL.Alive, SL.Alive, SM.Reachable, Enabled, Apply;
    if run != [] {
      InvStep(g, run[0]);
      PublishesStep(g, run[0]);
      SubscribesStep(g, run[0]);
      AliveRun(Apply(g, run[0]), run[1..]);
    }
  }

  lemma ReachableAlive(g: System)
    requires Reachable(g)
    ensures PL.Alive(g.publishes) && SL.Alive(g.subs) && SM.Reachable(g.subs)
  {
    hide Inv, SM.Reachable;
    var cap: nat, wireTopicSize: nat, run :|
      CanRun(Init(cap, wireTopicSize), run) && Run(Init(cap, wireTopicSize), run) == g;
    InvInit(cap, wireTopicSize);
    SR.InitReachable(cap, wireTopicSize);
    AliveRun(Init(cap, wireTopicSize), run);
  }

  /** Between two moments of a history an identifier is given no new purpose:
      nothing is accepted, first transmitted, completed or lost with it. */
  ghost predicate Undisturbed(log: seq<PM.Event>, pid: Pid, from: nat, to: nat)
    requires to <= |log|
  {
    forall j :: from < j < to ==> pid !in PL.Concerned(log[j])
  }

  ghost predicate UndisturbedRequest(log: seq<SM.Event>, pid: Pid, from: nat, to: nat)
    requires to <= |log|
  {
    forall j :: from < j < to ==> pid !in SL.Concerned(log[j])
  }

  /** The beginning of the life that ends at index `k`. */
  lemma LifeBegins(log: seq<PM.Event>, k: nat, pid: Pid) returns (publish: nat)
    requires k < |log| && PL.Life(log[..k], pid) != []
    ensures publish < k && PL.Life(log[..k], pid) == log[publish..k] && Undisturbed(log, pid, publish, k)
  {
    hide Since;
    publish := SinceAt(PL.Concerns(pid), log[..k]);
    forall j | publish < j < k
      ensures pid !in PL.Concerned(log[j])
    {
      assert log[..k][j] == log[j];
      assert !PL.Concerns(pid)(log[..k][j]);
    }
  }

  /** The stages of a QoS 2 handshake in a history. */
  lemma Stages(log: seq<PM.Event>, uid: UniqueId, pid: Pid) returns (pubrec: nat, pubrel: nat, pubcomp: nat)
    requires PR.PubcompIn(log, uid, pid)
    ensures 0 < pubrec < pubrel < pubcomp < |log|
    ensures log[pubrec] == PM.GotPubrec(pid)
    ensures log[pubrel].SentPubrel? && log[pubrel].pid == pid && log[pubrel].owner == Some(uid)
    ensures log[pubcomp] == PM.GotPubcomp(pid)
  {
    hide PR.PubcompIn, PR.PubrelOut, PR.PubrecIn;
    pubcomp := PT.PubcompWitness(log, uid, pid);
    pubrel := PT.PubrelWitness(log[..pubcomp], uid, pid);
    var _, rec := PT.PubrecWitness(log[..pubcomp][..pubrel], uid, pid);
    pubrec := rec;
  }

  /** A QoS 2 completion comes after PUBLISH out, PUBREC in, PUBREL out and
      PUBCOMP in (section 4.3.3 of MQTT 3.1.1), all of its own request: in all
      that time the identifier has no other purpose. */
  lemma Qos2Handshake(g: System, k: nat, uid: UniqueId, pid: Pid)
    returns (publish: nat, pubrec: nat, pubrel: nat, pubcomp: nat)
    requires Reachable(g) && k < |g.publishes.log| && g.publishes.log[k] == PM.Done(uid, ExactlyOnce(pid))
    ensures var log := g.publishes.log;
      && publish < pubrec < pubrel < pubcomp < k
      && log[publish].Sent? && log[publish].pub.uid == uid && log[publish].pub.m.qospid == ExactlyOnce(pid)
      && log[pubrec] == PM.GotPubrec(pid)
      && log[pubrel].SentPubrel? && log[pubrel].pid == pid && log[pubrel].owner == Some(uid)
      && log[pubcomp] == PM.GotPubcomp(pid)
      && Undisturbed(log, pid, publish, k)
  {
    hide Reachable, PL.Life, PR.PubcompIn, Undisturbed;
    ReachableAlive(g);
    var log := g.publishes.log;
    assert PL.OwnLife(log, k);
    publish := LifeBegins(log, k, pid);
    var life := log[publish..k];
    var i2, i3, i4 := Stages(life, uid, pid);
    pubrec, pubrel, pubcomp := publish + i2, publish + i3, publish + i4;
    assert forall i :: 0 <= i < |life| ==> life[i] == log[publish + i];
  }

  /** A QoS 1 completion comes after PUBLISH out and PUBACK in (section 4.3.2),
      both of its own request. */
  lemma Qos1Handshake(g: System, k: nat, uid: UniqueId, pid: Pid) returns (publish: nat, puback: nat)
    requires Reachable(g) && k < |g.publishes.log| && g.publishes.log[k] == PM.Done(uid, AtLeastOnce(pid))
    ensures var log := g.publishes.log;
      && publish < puback < k
      && log[publish].Sent? && log[publish].pub.uid == uid && log[publish].pub.m.qospid == AtLeastOnce(pid)
      && log[puback] == PM.GotPuback(pid)
      && Undisturbed(log, pid, publish, k)
  {
    hide Reachable, PL.Life, PR.PublishOut;
    ReachableAlive(g);
    var log := g.publishes.log;
    assert PL.OwnLife(log, k);
    publish := LifeBegins(log, k, pid);
    var life := log[publish..k];
    assert life[0] == log[publish];
    var i :| 0 <= i < |life| && life[i] == PM.GotPuback(pid) && PR.PublishOut(life[..i], uid, AtLeastOnce(pid));
    puback := publish + i;
    assert log[publish] != PM.GotPuback(pid);
  }

  lemma RequestBegins(log: seq<SM.Event>, k: nat, pid: Pid) returns (sent: nat)
    requires 0 < k < |log| && SL.Life(log[..k - 1], pid) != []
    ensures sent < k - 1 && SL.Life(log[..k - 1], pid) == log[sent..k - 1] && UndisturbedRequest(log, pid, sent, k - 1)
  {
    hide Since;
    sent := SinceAt(SL.Concerns(pid), log[..k - 1]);
    forall j | sent < j < k - 1
      ensures pid !in SL.Concerned(log[j])
    {
      assert log[..k - 1][j] == log[j];
      assert !SL.Concerns(pid)(log[..k - 1][j]);
    }
  }

  /** SubscribeDone reports the request that was transmitted with the identifier
      of the SUBACK just before it, an identifier without any other purpose since
      then, and an error exactly if one of its own topics is refused. */
  lemma SubscribeCompletion(g: System, k: nat) returns (sent: nat)
    requires Reachable(g) && k < |g.subs.log| && g.subs.log[k].SubscribeDone?
    ensures var log, r := g.subs.log, g.subs.log[k].request;
      && sent < k - 1 && log[sent].Sent? && log[sent].request == r && r.kind.SubscribeTo? && UndisturbedRequest(log, r.pid, sent, k)
      && log[k - 1].GotSuback? && log[k - 1].pid == r.pid
      && (log[k].result == Err(SubscribeOrUnsubscribeFailed) <==> SM.AnyFailure(log[k - 1].codes, r.topics))
      && (log[k].result.Err? || log[k].result == Ok(r.kind.qos))
  {
    hide Reachable, SM.Reachable, SL.Life, SM.AnyFailure;
    ReachableAlive(g);
    var log := g.subs.log;
    var _ := SR.SubscribeDoneMeaning(g.subs, k);
    assert SL.OwnLife(log, k);
    sent := RequestBegins(log, k, log[k].request.pid);
    assert log[sent..k - 1][0] == log[sent];
  }

  lemma UnsubscribeCompletion(g: System, k: nat) returns (sent: nat)
    requires Reachable(g) && k < |g.subs.log| && g.subs.log[k].UnsubscribeDone?
    ensures var log, r := g.subs.log, g.subs.log[k].request;
      && sent < k - 1 && log[sent].Sent? && log[sent].request == r && r.kind.UnsubscribeFrom? && UndisturbedRequest(log, r.pid, sent, k)
      && log[k - 1] == SM.GotUnsuback(r.pid)
  {
    hide Reachable, SM.Reachable, SL.Life;
    ReachableAlive(g);
    var log := g.subs.log;
    var _ := SR.UnsubscribeDoneMeaning(g.subs, k);
    assert SL.OwnLife(log, k);
    sent := RequestBegins(log, k, log[k].request.pid);
    assert log[sent..k - 1][0] == log[sent];
  }
}
