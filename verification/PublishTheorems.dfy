/** The promises of the sender, stated for a reader: every theorem here is about
    every reachable state of the publish queues, or every send pass. */
module PublishTheorems {
  import opened Mqtt
  import opened Seqs
  import opened PublishModel
  import opened PublishRuns

  // ---- over whole runs ----

  /** What was accepted is queued, completed or lost, each exactly as often as
      it was accepted; a completion event repeats only if the request did. */
  lemma Conservation(s: Sender, uid: UniqueId)
    requires Reachable(s)
    ensures AcceptedUids(s)[uid] == QueuedUids(s)[uid] + DoneUids(s)[uid] + LostUids(s)[uid]
    ensures DoneUids(s)[uid] <= AcceptedUids(s)[uid]
  {
    ReachableInv(s);
  }

  /** The publish that a step loses. */
  function LostBy(s: Sender, a: Step): seq<UniqueId> {
    if a.StepPubrec? && |s.sendPubrel| >= s.cap && PubrecIndex(s, a.pid) < |s.awaitPubrec|
    then [s.awaitPubrec[PubrecIndex(s, a.pid)].publish.uid] else []
  }

  lemma LossEvent(s: Sender, a: Step)
    requires Enabled(s, a) && LostBy(s, a) != []
    ensures Apply(s, a).log == s.log + [GotPubrec(a.pid), Lost(LostBy(s, a)[0], a.pid)]
  {
    hide Position;
  }

  lemma NoLossEvent(s: Sender, a: Step)
    requires Enabled(s, a) && LostBy(s, a) == []
    ensures s.log <= Apply(s, a).log
    ensures forall k :: |s.log| <= k < |Apply(s, a).log| ==> !Apply(s, a).log[k].Lost?
  {
    hide Position;
  }

  /** A publish is lost exactly when its pubrec finds `sendPubrel` full. */
  lemma LossNeedsFullPubrelQueue(s: Sender, a: Step)
    requires Enabled(s, a)
    ensures LostUids(Apply(s, a)) == LostUids(s) + multiset(LostBy(s, a))
  {
    hide FlatMap, Position, Apply, Enabled;
    if LostBy(s, a) != [] {
      LossEvent(s, a);
      LogUids2(s.log, GotPubrec(a.pid), Lost(LostBy(s, a)[0], a.pid));
      assert LostBy(s, a) == [LostBy(s, a)[0]];
    } else {
      NoLossEvent(s, a);
      var more := Apply(s, a).log[|s.log|..];
      assert Apply(s, a).log == s.log + more;
      FlatMapNothing(LostUid, s.log, more);
    }
  }

  /** Per class, the first transmissions are a prefix of the accepted publishes;
      the rest still waits, in order. */
  lemma FirstInFirstOut(s: Sender, q: QoS)
    requires Reachable(s)
    ensures FlatMap(SentOf(q), s.log) <= FlatMap(AcceptedOf(q), s.log)
    ensures FlatMap(AcceptedOf(q), s.log)[|FlatMap(SentOf(q), s.log)|..] == FlatMap(QueuedOf(q), s.sendPublish)
  {
    ReachableInv(s);
    assert Ordered(s, q);
  }

  lemma PubrecWitness(log: seq<Event>, uid: UniqueId, pid: Pid) returns (publish: nat, pubrec: nat)
    requires PubrecIn(log, uid, pid)
    ensures publish < pubrec < |log| && log[pubrec] == GotPubrec(pid)
    ensures log[publish].Sent? && log[publish].pub.uid == uid && log[publish].pub.m.qospid == ExactlyOnce(pid)
  {
    pubrec :| 0 <= pubrec < |log| && log[pubrec] == GotPubrec(pid)
           && PublishOut(log[..pubrec], uid, ExactlyOnce(pid));
    var before := log[..pubrec];
    publish :| 0 <= publish < |before| && before[publish].Sent? && before[publish].pub.uid == uid
            && before[publish].pub.m.qospid == ExactlyOnce(pid);
  }

  lemma PubrelWitness(log: seq<Event>, uid: UniqueId, pid: Pid) returns (pubrel: nat)
    requires PubrelOut(log, uid, pid)
    ensures pubrel < |log| && log[pubrel].SentPubrel? && log[pubrel].pid == pid && log[pubrel].owner == Some(uid)
         &&  PubrecIn(log[..pubrel], uid, pid)
  {
    pubrel :| 0 <= pubrel < |log| && log[pubrel].SentPubrel? && log[pubrel].pid == pid && log[pubrel].owner == Some(uid)
         &&  PubrecIn(log[..pubrel], uid, pid);
  }

  lemma PubcompWitness(log: seq<Event>, uid: UniqueId, pid: Pid) returns (pubcomp: nat)
    requires PubcompIn(log, uid, pid)
    ensures pubcomp < |log| && log[pubcomp] == GotPubcomp(pid) && PubrelOut(log[..pubcomp], uid, pid)
  {
    pubcomp :| 0 <= pubcomp < |log| && log[pubcomp] == GotPubcomp(pid) && PubrelOut(log[..pubcomp], uid, pid);
  }

  /** A QoS 2 completion comes after PUBLISH out, PUBREC in, PUBREL out and
      PUBCOMP in, in that order (section 4.3.3 of MQTT 3.1.1). This holds for any
      use of identifiers; when one is given to two requests with the same label,
      the handshake may be that of the other one. `Handshakes` excludes this for
      identifiers from the pool. */
  lemma Qos2Handshake(s: Sender, k: nat, uid: UniqueId, pid: Pid)
    returns (publish: nat, pubrec: nat, pubrel: nat, pubcomp: nat)
    requires Reachable(s) && k < |s.log| && s.log[k] == Done(uid, ExactlyOnce(pid))
    ensures publish < pubrec < pubrel < pubcomp < k
    ensures s.log[publish].Sent? && s.log[publish].pub.uid == uid
    ensures s.log[publish].pub.m.qospid == ExactlyOnce(pid)
    ensures s.log[pubrec] == GotPubrec(pid)
    ensures s.log[pubrel].SentPubrel? && s.log[pubrel].pid == pid && s.log[pubrel].owner == Some(uid)
    ensures s.log[pubcomp] == GotPubcomp(pid)
  {
    hide Bounded, Conserved, Ordered, Reachable, PublishOut, PubrecIn, PubrelOut, PubcompIn, PubackIn;
    ReachableInv(s);
    assert Justified(s.log, k);
    pubcomp := PubcompWitness(s.log[..k], uid, pid);
    pubrel := PubrelWitness(s.log[..k][..pubcomp], uid, pid);
    publish, pubrec := PubrecWitness(s.log[..k][..pubcomp][..pubrel], uid, pid);
  }

  /** A QoS 1 completion comes after PUBLISH out, then PUBACK in (section 4.3.2). */
  lemma Qos1Handshake(s: Sender, k: nat, uid: UniqueId, pid: Pid) returns (publish: nat, puback: nat)
    requires Reachable(s) && k < |s.log| && s.log[k] == Done(uid, AtLeastOnce(pid))
    ensures publish < puback < k
    ensures s.log[publish].Sent? && s.log[publish].pub.uid == uid
    ensures s.log[publish].pub.m.qospid == AtLeastOnce(pid)
    ensures s.log[puback] == GotPuback(pid)
  {
    hide Bounded, Conserved, Ordered, Reachable, PubrecIn, PubrelOut, PubcompIn;
    ReachableInv(s);
    assert Justified(s.log, k);
    var l2 := s.log[..k];
    puback :| 0 <= puback < |l2| && l2[puback] == GotPuback(pid) && PublishOut(l2[..puback], uid, AtLeastOnce(pid));
    var l1 := l2[..puback];
    publish :| 0 <= publish < |l1| && l1[publish].Sent? && l1[publish].pub.uid == uid
            && l1[publish].pub.m.qospid == AtLeastOnce(pid);
  }

  // ---- retransmission fidelity (section 3.3.1.1 of MQTT 3.1.1) ----

  function PublishPid(p: OwnedPublish): seq<Pid> {
    match p.m.qospid
    case AtMostOnce => []
    case AtLeastOnce(pid) => [pid]
    case ExactlyOnce(pid) => [pid]
  }

  function AwaitPid(e: AwaitAck): seq<Pid> { [e.pid] }

  /** An anonymous pubrel names an identifier that this client does not own. */
  function PubrelPid(e: PubrelEntry): seq<Pid> { if e.uid.Some? then [e.pid] else [] }

  function PubcompPid(e: AwaitPubcomp): seq<Pid> { [e.pid] }

  /** The identifiers that the entries of the queues own. */
  ghost function OwnedPids(s: Sender): multiset<Pid> {
    Bag(PublishPid, s.sendPublish)
    + Bag(AwaitPid, s.awaitPuback)
    + Bag(AwaitPid, s.awaitPubrec)
    + Bag(PubrelPid, s.sendPubrel)
    + Bag(PubcompPid, s.awaitPubcomp)
  }

  /** A run in which no publish is accepted with an identifier still in use. */
  ghost predicate FreshRun(s: Sender, run: seq<Step>)
    requires CanRun(s, run)
    decreases |run|
  {
    run != [] ==>
      && (run[0].StepAdmit? ==> multiset(PublishPid(run[0].pub)) !! OwnedPids(s))
      && FreshRun(Apply(s, run[0]), run[1..])
  }

  ghost predicate Distinct(b: multiset<Pid>) {
    forall p :: b[p] <= 1
  }

  /** What is gained and lost by the owned identifiers in one step. */
  ghost function Acquired(s: Sender, a: Step): multiset<Pid> {
    if a.StepAdmit? then multiset(PublishPid(a.pub)) else multiset{}
  }

  ghost function Released(s: Sender, a: Step): multiset<Pid>
  {
    match a
    case StepPuback(pid) => if PubackIndex(s, pid) < |s.awaitPuback| then multiset{pid} else multiset{}
    case StepPubrec(pid) =>
      if PubrecIndex(s, pid) < |s.awaitPubrec| && |s.sendPubrel| >= s.cap then multiset{pid} else multiset{}
    case StepPubcomp(pid) => if PubcompIndex(s, pid) < |s.awaitPubcomp| then multiset{pid} else multiset{}
    case _ => multiset{}
  }

  lemma OwnedPidsTransmit(s: Sender, i: nat, now: int)
    requires i < |s.sendPublish|
    ensures OwnedPids(Transmit(s, i, now)) == OwnedPids(s)
  {
    hide Bag;
    var p := s.sendPublish[i];
    BagRemove(PublishPid, s.sendPublish, i);
    match p.m.qospid {
      case AtMostOnce =>
      case AtLeastOnce(pid) => BagSnoc(AwaitPid, s.awaitPuback, AwaitAck(pid, p.MarkDup(), now));
      case ExactlyOnce(pid) => BagSnoc(AwaitPid, s.awaitPubrec, AwaitAck(pid, p.MarkDup(), now));
    }
  }

  lemma OwnedPidsPuback(s: Sender, pid: Pid)
    ensures OwnedPids(OnPuback(s, pid)) + Released(s, StepPuback(pid)) == OwnedPids(s)
  {
    hide Bag;
    var i := PubackIndex(s, pid);
    if i < |s.awaitPuback| {
      BagRemove(AwaitPid, s.awaitPuback, i);
    }
  }

  lemma OwnedPidsPubrec(s: Sender, pid: Pid)
    ensures OwnedPids(OnPubrec(s, pid)) + Released(s, StepPubrec(pid)) == OwnedPids(s)
  {
    hide Bag;
    var i := PubrecIndex(s, pid);
    if i < |s.awaitPubrec| {
      BagRemove(AwaitPid, s.awaitPubrec, i);
      BagSnoc(PubrelPid, s.sendPubrel, PubrelEntry(pid, Some(s.awaitPubrec[i].publish.uid)));
    } else {
      BagSnoc(PubrelPid, s.sendPubrel, PubrelEntry(pid, None));
    }
  }

  lemma OwnedPidsPubcomp(s: Sender, pid: Pid)
    ensures OwnedPids(OnPubcomp(s, pid)) + Released(s, StepPubcomp(pid)) == OwnedPids(s)
  {
    hide Bag;
    var i := PubcompIndex(s, pid);
    if i < |s.awaitPubcomp| {
      BagRemove(PubcompPid, s.awaitPubcomp, i);
    }
  }

  lemma OwnedPidsAdmit(s: Sender, pub: OwnedPublish)
    ensures OwnedPids(Admit(s, pub)) == OwnedPids(s) + multiset(PublishPid(pub))
  {
    hide Bag;
    BagSnoc(PublishPid, s.sendPublish, pub);
  }

  lemma OwnedPidsTransmitPubrel(s: Sender, now: int)
    requires Enabled(s, StepTransmitPubrel(now))
    ensures OwnedPids(TransmitPubrel(s, 0, now)) == OwnedPids(s)
  {
    hide Bag;
    var e := s.sendPubrel[0];
    BagRemove(PubrelPid, s.sendPubrel, 0);
    BagSnoc(PubcompPid, s.awaitPubcomp, AwaitPubcomp(e.pid, now, e.uid.value));
  }

  lemma OwnedPidsRepeat(s: Sender, a: Step)
    requires Enabled(s, a) && (a.StepRepeatPuback? || a.StepRepeatPubrec? || a.StepRepeatPubrel?)
    ensures OwnedPids(Apply(s, a)) == OwnedPids(s)
  {
    hide Bag;
    match a {
      case StepRepeatPuback(i, now) => BagSame(AwaitPid, s.awaitPuback, RepeatPuback(s, i, now).awaitPuback);
      case StepRepeatPubrec(i, now) => BagSame(AwaitPid, s.awaitPubrec, RepeatPubrec(s, i, now).awaitPubrec);
      case StepRepeatPubrel(i, now) => BagSame(PubcompPid, s.awaitPubcomp, RepeatPubrel(s, i, now).awaitPubcomp);
    }
  }

  /** An identifier leaves the queues only through its puback or pubcomp, or
      with the publish that a full `sendPubrel` drops. */
  lemma OwnedPidsStep(s: Sender, a: Step)
    requires Enabled(s, a)
    ensures OwnedPids(Apply(s, a)) + Released(s, a) == OwnedPids(s) + Acquired(s, a)
  {
    hide OwnedPids, Position, Transmit, TransmitPubrel, OnPuback, OnPubrec, OnPubcomp;
    match a {
      case StepAdmit(pub) => OwnedPidsAdmit(s, pub);
      case StepTransmit(i, now) => OwnedPidsTransmit(s, i, now);
      case StepTransmitPubrel(now) => OwnedPidsTransmitPubrel(s, now);
      case StepPuback(pid) => OwnedPidsPuback(s, pid);
      case StepPubrec(pid) => OwnedPidsPubrec(s, pid);
      case StepPubcomp(pid) => OwnedPidsPubcomp(s, pid);
      case _ => OwnedPidsRepeat(s, a);
    }
  }

  lemma DistinctStep(s: Sender, a: Step)
    requires Enabled(s, a) && Distinct(OwnedPids(s))
    requires a.StepAdmit? ==> multiset(PublishPid(a.pub)) !! OwnedPids(s)
    ensures Distinct(OwnedPids(Apply(s, a)))
  {
    hide OwnedPids, Apply, Released;
    OwnedPidsStep(s, a);
    var before, after, released := OwnedPids(s), OwnedPids(Apply(s, a)), Released(s, a);
    forall p
      ensures after[p] <= 1
    {
      assert (after + released)[p] == after[p] + released[p];
      assert (before + Acquired(s, a))[p] == before[p] + Acquired(s, a)[p];
      if p in Acquired(s, a) {
        assert p !in before;
      }
    }
  }

  lemma WaitersDistinct(s: Sender, p: Pid)
    requires Distinct(OwnedPids(s))
    ensures Bag(AwaitPid, s.awaitPuback)[p] <= 1 && Bag(AwaitPid, s.awaitPubrec)[p] <= 1
  {
    hide Bag;
    assert OwnedPids(s)[p] <= 1;
  }

  /** An identifier is in at most one of the queues, and there only once. */
  lemma OwnedOnce(s: Sender, p: Pid)
    requires Distinct(OwnedPids(s))
    ensures Bag(PublishPid, s.sendPublish)[p] + Bag(AwaitPid, s.awaitPuback)[p]
          + Bag(AwaitPid, s.awaitPubrec)[p] + Bag(PubrelPid, s.sendPubrel)[p]
          + Bag(PubcompPid, s.awaitPubcomp)[p] <= 1
  {
    hide Bag;
    assert OwnedPids(s)[p] <= 1;
  }

  /** The acknowledgement that ends the retransmissions of a publish. */
  function AckOf(p: OwnedPublish): Event
    requires !p.m.qospid.AtMostOnce?
  {
    if p.m.qospid.AtLeastOnce? then GotPuback(p.m.qospid.pid) else GotPubrec(p.m.qospid.pid)
  }

  /** `copy` is the marked copy of the first transmission at index `i`, and no
      acknowledgement has ended it since. */
  ghost predicate RepeatedFrom(log: seq<Event>, i: nat, copy: OwnedPublish)
    requires i < |log| && !copy.m.qospid.AtMostOnce?
  {
    && log[i].Sent? && log[i].pub.MarkDup() == copy
    && (forall j :: i < j < |log| ==> log[j] != AckOf(copy))
  }

  /** `copy` repeats an earlier first transmission in `log`, unacknowledged since. */
  ghost predicate Repeats(log: seq<Event>, copy: OwnedPublish) {
    && !copy.m.qospid.AtMostOnce?
    && (exists i :: 0 <= i < |log| && RepeatedFrom(log, i, copy))
  }

  ghost predicate Faithful(s: Sender) {
    && Bounded(s)
    && Distinct(OwnedPids(s))
    && (forall e :: e in s.awaitPuback ==> Repeats(s.log, e.publish))
    && (forall e :: e in s.awaitPubrec ==> Repeats(s.log, e.publish))
    && (forall k :: 0 <= k < |s.log| && s.log[k].Resent? ==> Repeats(s.log[..k], s.log[k].pub))
  }

  lemma FaithfulOwnsOnce(s: Sender, p: Pid)
    requires Faithful(s)
    ensures Bag(PublishPid, s.sendPublish)[p] + Bag(AwaitPid, s.awaitPuback)[p]
          + Bag(AwaitPid, s.awaitPubrec)[p] + Bag(PubrelPid, s.sendPubrel)[p]
          + Bag(PubcompPid, s.awaitPubcomp)[p] <= 1
  {
    hide Bag, Repeats, OwnedPids;
    OwnedOnce(s, p);
  }

  lemma RepeatsPersists(log: seq<Event>, copy: OwnedPublish, e: Event)
    requires Repeats(log, copy) && e != AckOf(copy)
    ensures Repeats(log + [e], copy)
  {
    var i :| 0 <= i < |log| && RepeatedFrom(log, i, copy);
    assert RepeatedFrom(log + [e], i, copy);
  }

  lemma RepeatsStarts(log: seq<Event>, p: OwnedPublish, now: int)
    requires !p.m.qospid.AtMostOnce?
    ensures Repeats(log + [Sent(p, now)], p.MarkDup())
  {
    assert RepeatedFrom(log + [Sent(p, now)], |log|, p.MarkDup());
  }

  /** One more event that acknowledges none of the waiting publishes. */
  lemma FaithfulByOne(s: Sender, t: Sender, e: Event)
    requires Faithful(s) && Bounded(t) && Distinct(OwnedPids(t))
    requires t.log == s.log + [e]
    requires e.Resent? ==> Repeats(s.log, e.pub)
    requires forall a :: a in t.awaitPuback ==> (a in s.awaitPuback && e != AckOf(a.publish)) || Repeats(t.log, a.publish)
    requires forall a :: a in t.awaitPubrec ==> (a in s.awaitPubrec && e != AckOf(a.publish)) || Repeats(t.log, a.publish)
    ensures Faithful(t)
  {
    hide Repeats, Bounded, OwnedPids;
    forall a | a in t.awaitPuback
      ensures Repeats(t.log, a.publish)
    {
      if !Repeats(t.log, a.publish) {
        RepeatsPersists(s.log, a.publish, e);
      }
    }
    forall a | a in t.awaitPubrec
      ensures Repeats(t.log, a.publish)
    {
      if !Repeats(t.log, a.publish) {
        RepeatsPersists(s.log, a.publish, e);
      }
    }
    assert forall k :: 0 <= k < |s.log| ==> t.log[k] == s.log[k] && t.log[..k] == s.log[..k];
    assert t.log[..|s.log|] == s.log;
  }

  /** The owned identifiers do not depend on the history. */
  lemma OwnedPidsIgnoreLog(s: Sender, t: Sender)
    requires s == t.(log := s.log)
    ensures OwnedPids(s) == OwnedPids(t)
  {
  }

  lemma FaithfulTransmit(s: Sender, i: nat, now: int)
    requires Faithful(s) && Enabled(s, StepTransmit(i, now))
    ensures Faithful(Transmit(s, i, now))
  {
    hide Repeats, OwnedPids;
    var p := s.sendPublish[i];
    var u := Transmit(s, i, now);
    DistinctStep(s, StepTransmit(i, now));
    BoundedStep(s, StepTransmit(i, now));
    if p.m.qospid.AtMostOnce? {
      var t := u.(log := s.log + [Sent(p, now)]);
      OwnedPidsIgnoreLog(t, u);
      FaithfulByOne(s, t, Sent(p, now));
      FaithfulByOne(t, u, Done(p.uid, AtMostOnce));
    } else {
      RepeatsStarts(s.log, p, now);
      FaithfulByOne(s, u, Sent(p, now));
    }
  }

  /** Once the entry that waits for `pid` is gone, no other one waits for it. */
  lemma OnlyOneWaits(q: seq<AwaitAck>, i: nat, pid: Pid)
    requires i < |q| && q[i].pid == pid && Bag(AwaitPid, q)[pid] <= 1
    ensures forall e :: e in RemoveAt(q, i) ==> e.pid != pid && e in q
  {
    BagRemove(AwaitPid, q, i);
    forall e | e in RemoveAt(q, i)
      ensures e.pid != pid && e in q
    {
      var j :| 0 <= j < |q| - 1 && RemoveAt(q, i)[j] == e;
      BagRemove(AwaitPid, RemoveAt(q, i), j);
    }
  }

  lemma FaithfulPuback(s: Sender, pid: Pid)
    requires Faithful(s)
    ensures Faithful(OnPuback(s, pid))
  {
    hide Repeats, Position, OwnedPids, Bag;
    var i := PubackIndex(s, pid);
    var u := OnPuback(s, pid);
    DistinctStep(s, StepPuback(pid));
    BoundedStep(s, StepPuback(pid));
    if i < |s.awaitPuback| {
      WaitersDistinct(s, pid);
      OnlyOneWaits(s.awaitPuback, i, pid);
      var t := u.(log := s.log + [GotPuback(pid)]);
      OwnedPidsIgnoreLog(t, u);
      FaithfulByOne(s, t, GotPuback(pid));
      FaithfulByOne(t, u, Done(s.awaitPuback[i].publish.uid, AtLeastOnce(pid)));
    } else {
      FaithfulByOne(s, u, GotPuback(pid));
    }
  }

  lemma FaithfulPubrec(s: Sender, pid: Pid)
    requires Faithful(s)
    ensures Faithful(OnPubrec(s, pid))
  {
    hide Repeats, Position, OwnedPids, Bag;
    var i := PubrecIndex(s, pid);
    var u := OnPubrec(s, pid);
    DistinctStep(s, StepPubrec(pid));
    BoundedStep(s, StepPubrec(pid));
    if i < |s.awaitPubrec| {
      WaitersDistinct(s, pid);
      OnlyOneWaits(s.awaitPubrec, i, pid);
      var t := u.(log := s.log + [GotPubrec(pid)]);
      OwnedPidsIgnoreLog(t, u);
      FaithfulByOne(s, t, GotPubrec(pid));
      if |s.sendPubrel| >= s.cap {
        FaithfulByOne(t, u, Lost(s.awaitPubrec[i].publish.uid, pid));
      }
    } else {
      FaithfulByOne(s, u, GotPubrec(pid));
    }
  }

  lemma FaithfulPubcomp(s: Sender, pid: Pid)
    requires Faithful(s)
    ensures Faithful(OnPubcomp(s, pid))
  {
    hide Repeats, Position, OwnedPids, Bag;
    var i := PubcompIndex(s, pid);
    var u := OnPubcomp(s, pid);
    DistinctStep(s, StepPubcomp(pid));
    BoundedStep(s, StepPubcomp(pid));
    if i < |s.awaitPubcomp| {
      var t := u.(log := s.log + [GotPubcomp(pid)]);
      OwnedPidsIgnoreLog(t, u);
      FaithfulByOne(s, t, GotPubcomp(pid));
      FaithfulByOne(t, u, Done(s.awaitPubcomp[i].uid, ExactlyOnce(pid)));
    } else {
      FaithfulByOne(s, u, GotPubcomp(pid));
    }
  }

  lemma FaithfulResend(s: Sender, t: Sender, copy: OwnedPublish, now: int)
    requires Faithful(s) && Bounded(t) && Distinct(OwnedPids(t))
    requires t.log == s.log + [Resent(copy, now)] && Repeats(s.log, copy)
    requires |t.awaitPuback| == |s.awaitPuback| && |t.awaitPubrec| == |s.awaitPubrec|
    requires forall i :: 0 <= i < |s.awaitPuback| ==> t.awaitPuback[i].publish == s.awaitPuback[i].publish
    requires forall i :: 0 <= i < |s.awaitPubrec| ==> t.awaitPubrec[i].publish == s.awaitPubrec[i].publish
    ensures Faithful(t)
  {
    hide Repeats, OwnedPids;
    forall i | 0 <= i < |t.awaitPuback|
      ensures Repeats(t.log, t.awaitPuback[i].publish)
    {
      assert s.awaitPuback[i] in s.awaitPuback;
      RepeatsPersists(s.log, s.awaitPuback[i].publish, Resent(copy, now));
    }
    forall i | 0 <= i < |t.awaitPubrec|
      ensures Repeats(t.log, t.awaitPubrec[i].publish)
    {
      assert s.awaitPubrec[i] in s.awaitPubrec;
      RepeatsPersists(s.log, s.awaitPubrec[i].publish, Resent(copy, now));
    }
    FaithfulByOne(s, t, Resent(copy, now));
  }

  lemma FaithfulRepeat(s: Sender, a: Step)
    requires Faithful(s) && Enabled(s, a)
    requires a.StepRepeatPuback? || a.StepRepeatPubrec? || a.StepRepeatPubrel?
    ensures Faithful(Apply(s, a))
  {
    hide Repeats, OwnedPids;
    DistinctStep(s, a);
    BoundedStep(s, a);
    match a {
      case StepRepeatPuback(i, now) =>
        var e := s.awaitPuback[i];
        assert e in s.awaitPuback;
        FaithfulResend(s, Apply(s, a), e.publish, now);
      case StepRepeatPubrec(i, now) =>
        var e := s.awaitPubrec[i];
        assert e in s.awaitPubrec;
        FaithfulResend(s, Apply(s, a), e.publish, now);
      case StepRepeatPubrel(i, now) =>
        FaithfulByOne(s, Apply(s, a), ResentPubrel(s.awaitPubcomp[i].pid, s.awaitPubcomp[i].uid, now));
    }
  }

  lemma FaithfulStep(s: Sender, a: Step)
    requires Faithful(s) && Enabled(s, a)
    requires a.StepAdmit? ==> multiset(PublishPid(a.pub)) !! OwnedPids(s)
    ensures Faithful(Apply(s, a))
  {
    hide Repeats, OwnedPids, Bag;
    match a {
      case StepAdmit(pub) =>
        DistinctStep(s, a);
        BoundedStep(s, a);
        FaithfulByOne(s, Admit(s, pub), Event.Accepted(pub));
      case StepTransmit(i, now) => FaithfulTransmit(s, i, now);
      case StepTransmitPubrel(now) =>
        DistinctStep(s, a);
        BoundedStep(s, a);
        FaithfulByOne(s, TransmitPubrel(s, 0, now), SentPubrel(s.sendPubrel[0].pid, s.sendPubrel[0].uid, now));
      case StepPuback(pid) => FaithfulPuback(s, pid);
      case StepPubrec(pid) => FaithfulPubrec(s, pid);
      case StepPubcomp(pid) => FaithfulPubcomp(s, pid);
      case _ => FaithfulRepeat(s, a);
    }
  }

  lemma {:induction false} FaithfulRun(s: Sender, run: seq<Step>)
    requires Faithful(s) && CanRun(s, run) && FreshRun(s, run)
    ensures Faithful(Run(s, run))
    decreases |run|
  {
    if run != [] {
      FaithfulStep(s, run[0]);
      FaithfulRun(Apply(s, run[0]), run[1..]);
    }
  }

  lemma FaithfulInit(cap: nat)
    ensures Faithful(Init(cap))
  {
  }

  lemma RepeatWitness(log: seq<Event>, copy: OwnedPublish) returns (first: nat)
    requires Repeats(log, copy)
    ensures first < |log| && copy.m.qospid != AtMostOnce && RepeatedFrom(log, first, copy)
  {
    first :| 0 <= first < |log| && RepeatedFrom(log, first, copy);
  }

  /** Every retransmission is the DUP copy of an earlier first transmission,
      with the same identifier, topic, payload and retain flag, and comes before
      the PUBACK or PUBREC that ends it. QoS 0 is never retransmitted. */
  lemma RetransmissionFidelity(cap: nat, run: seq<Step>, k: nat) returns (first: nat)
    requires CanRun(Init(cap), run) && FreshRun(Init(cap), run)
    requires k < |Run(Init(cap), run).log| && Run(Init(cap), run).log[k].Resent?
    ensures var log := Run(Init(cap), run).log;
            var copy := log[k].pub;
            && first < k
            && log[first].Sent?
            && copy == log[first].pub.MarkDup()
            && copy.m.qospid != AtMostOnce
            && (forall j :: first < j < k ==> log[j] != AckOf(copy))
  {
    hide Repeats, Bounded, OwnedPids, CanRun, FreshRun, Run;
    var log := Run(Init(cap), run).log;
    FaithfulInit(cap);
    FaithfulRun(Init(cap), run);
    assert Repeats(log[..k], log[k].pub);
    first := RepeatWitness(log[..k], log[k].pub);
    assert forall j :: 0 <= j < k ==> log[..k][j] == log[j];
  }
}
