/** When packets are repeated: never within five seconds of the latest earlier
    transmission of the same entry, in any run. Times are milliseconds. */
module PublishTimes {
  import opened Mqtt
  import opened Seqs
  import opened PublishModel
  import PR = PublishRuns
  import PT = PublishTheorems
  import PL = PublishLifetimes

  function TimeOf(e: Event): int {
    match e
    case Sent(_, at) => at
    case Resent(_, at) => at
    case SentPubrel(_, _, at) => at
    case ResentPubrel(_, _, at) => at
    case _ => 0
  }

  /** The transmissions, first or repeated, of the publish with an identifier ... */
  function Carries(pid: Pid): Event -> bool {
    (e: Event) => (e.Sent? || e.Resent?) && pid in PT.PublishPid(e.pub)
  }

  /** ... and of its pubrel. */
  function Releases(pid: Pid): Event -> bool {
    (e: Event) => (e.SentPubrel? || e.ResentPubrel?) && e.pid == pid
  }

  /** The latest event of this kind happened at `time`. */
  ghost predicate LastAt(log: seq<Event>, test: Event -> bool, time: int) {
    Since(test, log) != [] && TimeOf(Since(test, log)[0]) == time
  }

  /** ... and that was more than five seconds before `time`. */
  ghost predicate Overdue(log: seq<Event>, test: Event -> bool, time: int) {
    Since(test, log) != [] && time - TimeOf(Since(test, log)[0]) > 5000
  }

  ghost predicate Late(log: seq<Event>, k: nat)
    requires k < |log|
  {
    match log[k]
    case Resent(p, at) => forall pid :: pid in PT.PublishPid(p) ==> Overdue(log[..k], Carries(pid), at)
    case ResentPubrel(pid, _, at) => Overdue(log[..k], Releases(pid), at)
    case _ => true
  }

  /** The time stamp of every waiting entry is that of its latest transmission,
      and every repetition so far was late enough. */
  ghost predicate Stamped(s: Sender) {
    && (forall e :: e in s.awaitPuback ==> LastAt(s.log, Carries(e.pid), e.sent))
    && (forall e :: e in s.awaitPubrec ==> LastAt(s.log, Carries(e.pid), e.sent))
    && (forall e :: e in s.awaitPubcomp ==> LastAt(s.log, Releases(e.pid), e.sent))
    && (forall k :: 0 <= k < |s.log| ==> Late(s.log, k))
  }

  lemma LastSnoc(log: seq<Event>, e: Event, test: Event -> bool, time: int)
    ensures test(e) ==> LastAt(log + [e], test, TimeOf(e))
    ensures !test(e) && LastAt(log, test, time) ==> LastAt(log + [e], test, time)
  {
    hide Since;
    SinceSnoc(test, log, e);
  }

  lemma LateStays(log: seq<Event>, e: Event, k: nat)
    requires k < |log| && Late(log, k)
    ensures Late(log + [e], k)
  {
    hide Overdue;
    assert (log + [e])[..k] == log[..k];
  }

  /** One more event `e`; the entries it does not transmit keep their stamps. */
  lemma StampedByOne(s: Sender, t: Sender, e: Event)
    requires Stamped(s) && t.log == s.log + [e] && Late(t.log, |s.log|)
    requires forall a :: a in t.awaitPuback ==>
      (a in s.awaitPuback && !Carries(a.pid)(e)) || (Carries(a.pid)(e) && a.sent == TimeOf(e))
    requires forall a :: a in t.awaitPubrec ==>
      (a in s.awaitPubrec && !Carries(a.pid)(e)) || (Carries(a.pid)(e) && a.sent == TimeOf(e))
    requires forall a :: a in t.awaitPubcomp ==>
      (a in s.awaitPubcomp && !Releases(a.pid)(e)) || (Releases(a.pid)(e) && a.sent == TimeOf(e))
    ensures Stamped(t)
  {
    hide LastAt, Late, Carries, Releases;
    forall a | a in t.awaitPuback
      ensures LastAt(t.log, Carries(a.pid), a.sent)
    {
      LastSnoc(s.log, e, Carries(a.pid), a.sent);
    }
    forall a | a in t.awaitPubrec
      ensures LastAt(t.log, Carries(a.pid), a.sent)
    {
      LastSnoc(s.log, e, Carries(a.pid), a.sent);
    }
    forall a | a in t.awaitPubcomp
      ensures LastAt(t.log, Releases(a.pid), a.sent)
    {
      LastSnoc(s.log, e, Releases(a.pid), a.sent);
    }
    forall k | 0 <= k < |t.log|
      ensures Late(t.log, k)
    {
      if k < |s.log| {
        LateStays(s.log, e, k);
      }
    }
  }

  /** An event that transmits nothing and repeats nothing. */
  lemma StampedQuiet(s: Sender, t: Sender, e: Event)
    requires Stamped(s) && t.log == s.log + [e]
    requires !e.Sent? && !e.Resent? && !e.SentPubrel? && !e.ResentPubrel?
    requires forall a :: a in t.awaitPuback ==> a in s.awaitPuback
    requires forall a :: a in t.awaitPubrec ==> a in s.awaitPubrec
    requires forall a :: a in t.awaitPubcomp ==> a in s.awaitPubcomp
    ensures Stamped(t)
  {
    hide Stamped;
    StampedByOne(s, t, e);
  }

  // ---- an identifier names one entry ----

  lemma AwaitApart(q: seq<AwaitAck>, i: nat)
    requires i < |q| && Bag(PT.AwaitPid, q)[q[i].pid] <= 1
    ensures forall j :: 0 <= j < |q| && j != i ==> q[j].pid != q[i].pid
  {
    hide Bag;
    PT.OnlyOneWaits(q, i, q[i].pid);
    forall j | 0 <= j < |q| && j != i
      ensures q[j].pid != q[i].pid
    {
      assert q[j] == RemoveAt(q, i)[if j < i then j else j - 1];
    }
  }

  lemma PubcompApart(q: seq<AwaitPubcomp>, i: nat)
    requires i < |q| && Bag(PT.PubcompPid, q)[q[i].pid] <= 1
    ensures forall j :: 0 <= j < |q| && j != i ==> q[j].pid != q[i].pid
  {
    hide Bag;
    BagRemove(PT.PubcompPid, q, i);
    forall j | 0 <= j < |q| && j != i
      ensures q[j].pid != q[i].pid
    {
      var rest := RemoveAt(q, i);
      assert q[j] == rest[if j < i then j else j - 1];
      PL.PubcompIn(rest, q[j]);
    }
  }

  /** Nobody waits with an identifier that is owned elsewhere. */
  lemma NobodyWaits(s: Sender, pid: Pid)
    requires PT.Distinct(PT.OwnedPids(s))
    ensures pid in Bag(PT.PublishPid, s.sendPublish) || pid in Bag(PT.PubrelPid, s.sendPubrel) ==>
      && (forall e :: e in s.awaitPuback ==> e.pid != pid)
      && (forall e :: e in s.awaitPubrec ==> e.pid != pid)
      && (forall e :: e in s.awaitPubcomp ==> e.pid != pid)
    ensures pid in Bag(PT.AwaitPid, s.awaitPuback) ==> forall e :: e in s.awaitPubrec ==> e.pid != pid
    ensures pid in Bag(PT.AwaitPid, s.awaitPubrec) ==> forall e :: e in s.awaitPuback ==> e.pid != pid
  {
    hide Bag, PT.OwnedPids, PT.Distinct;
    PT.OwnedOnce(s, pid);
    forall e | e in s.awaitPuback && e.pid == pid
      ensures pid in Bag(PT.AwaitPid, s.awaitPuback)
    {
      PL.AwaitIn(s.awaitPuback, e);
    }
    forall e | e in s.awaitPubrec && e.pid == pid
      ensures pid in Bag(PT.AwaitPid, s.awaitPubrec)
    {
      PL.AwaitIn(s.awaitPubrec, e);
    }
    forall e | e in s.awaitPubcomp && e.pid == pid
      ensures pid in Bag(PT.PubcompPid, s.awaitPubcomp)
    {
      PL.PubcompIn(s.awaitPubcomp, e);
    }
  }

  // ---- every step ----

  lemma StampedTransmit(s: Sender, i: nat, now: int)
    requires Stamped(s) && PT.Distinct(PT.OwnedPids(s)) && i < |s.sendPublish|
    ensures Stamped(Transmit(s, i, now))
  {
    hide Stamped, Bag, PT.OwnedPids, PT.Distinct;
    var p := s.sendPublish[i];
    var t := Transmit(s, i, now);
    var u := t.(log := s.log + [Sent(p, now)]);
    match p.m.qospid {
      case AtMostOnce =>
        StampedByOne(s, u, Sent(p, now));
        assert t.log == u.log + [Done(p.uid, AtMostOnce)];
        StampedQuiet(u, t, Done(p.uid, AtMostOnce));
      case AtLeastOnce(pid) =>
        PL.QueuedIn(s.sendPublish, i, pid);
        NobodyWaits(s, pid);
        StampedByOne(s, t, Sent(p, now));
      case ExactlyOnce(pid) =>
        PL.QueuedIn(s.sendPublish, i, pid);
        NobodyWaits(s, pid);
        StampedByOne(s, t, Sent(p, now));
    }
  }

  lemma StampedTransmitPubrel(s: Sender, now: int)
    requires Stamped(s) && PT.Distinct(PT.OwnedPids(s)) && Enabled(s, StepTransmitPubrel(now))
    ensures Stamped(TransmitPubrel(s, 0, now))
  {
    hide Stamped, Bag, PT.OwnedPids, PT.Distinct;
    var e := s.sendPubrel[0];
    PL.PubrelIn(s.sendPubrel, e);
    NobodyWaits(s, e.pid);
    StampedByOne(s, TransmitPubrel(s, 0, now), SentPubrel(e.pid, e.uid, now));
  }

  /** A waiting entry that is old enough is overdue. */
  lemma RepeatIsLate(log: seq<Event>, test: Event -> bool, sent: int, e: Event)
    requires LastAt(log, test, sent) && TimeOf(e) - sent > RESEND_DURATION
    ensures Overdue((log + [e])[..|log|], test, TimeOf(e))
  {
    assert (log + [e])[..|log|] == log;
  }

  lemma StampOf(s: Sender, pid: Pid, sent: int)
    requires Stamped(s)
    requires exists e :: (e in s.awaitPuback || e in s.awaitPubrec) && e.pid == pid && e.sent == sent
    ensures LastAt(s.log, Carries(pid), sent)
  {
    hide LastAt, Late;
  }

  lemma StampedRepeatPuback(s: Sender, i: nat, now: int)
    requires Stamped(s) && PR.Bounded(s) && PT.Distinct(PT.OwnedPids(s)) && Enabled(s, StepRepeatPuback(i, now))
    ensures Stamped(RepeatPuback(s, i, now))
  {
    hide Stamped, Bag, PT.OwnedPids, PT.Distinct, LastAt, Overdue;
    var e := s.awaitPuback[i];
    PL.AwaitIn(s.awaitPuback, e);
    PT.WaitersDistinct(s, e.pid);
    AwaitApart(s.awaitPuback, i);
    NobodyWaits(s, e.pid);
    StampOf(s, e.pid, e.sent);
    RepeatIsLate(s.log, Carries(e.pid), e.sent, Resent(e.publish, now));
    StampedByOne(s, RepeatPuback(s, i, now), Resent(e.publish, now));
  }

  lemma StampedRepeatPubrec(s: Sender, i: nat, now: int)
    requires Stamped(s) && PR.Bounded(s) && PT.Distinct(PT.OwnedPids(s)) && Enabled(s, StepRepeatPubrec(i, now))
    ensures Stamped(RepeatPubrec(s, i, now))
  {
    hide Stamped, Bag, PT.OwnedPids, PT.Distinct, LastAt, Overdue;
    var e := s.awaitPubrec[i];
    PL.AwaitIn(s.awaitPubrec, e);
    PT.WaitersDistinct(s, e.pid);
    AwaitApart(s.awaitPubrec, i);
    NobodyWaits(s, e.pid);
    StampOf(s, e.pid, e.sent);
    RepeatIsLate(s.log, Carries(e.pid), e.sent, Resent(e.publish, now));
    StampedByOne(s, RepeatPubrec(s, i, now), Resent(e.publish, now));
  }

  lemma StampOfPubrel(s: Sender, e: AwaitPubcomp)
    requires Stamped(s) && e in s.awaitPubcomp
    ensures LastAt(s.log, Releases(e.pid), e.sent)
  {
    hide LastAt, Late;
  }

  lemma StampedRepeatPubrel(s: Sender, i: nat, now: int)
    requires Stamped(s) && PT.Distinct(PT.OwnedPids(s)) && Enabled(s, StepRepeatPubrel(i, now))
    ensures Stamped(RepeatPubrel(s, i, now))
  {
    hide Stamped, Bag, PT.OwnedPids, PT.Distinct, LastAt, Overdue;
    var e := s.awaitPubcomp[i];
    PT.OwnedOnce(s, e.pid);
    PubcompApart(s.awaitPubcomp, i);
    StampOfPubrel(s, e);
    RepeatIsLate(s.log, Releases(e.pid), e.sent, ResentPubrel(e.pid, e.uid, now));
    StampedByOne(s, RepeatPubrel(s, i, now), ResentPubrel(e.pid, e.uid, now));
  }

  lemma StampedPuback(s: Sender, pid: Pid)
    requires Stamped(s)
    ensures Stamped(OnPuback(s, pid))
  {
    hide Stamped, Position;
    var t := OnPuback(s, pid);
    var i := PubackIndex(s, pid);
    if i < |s.awaitPuback| {
      var u := s.(log := s.log + [GotPuback(pid)]);
      StampedQuiet(s, u, GotPuback(pid));
      assert t.log == u.log + [Done(s.awaitPuback[i].publish.uid, AtLeastOnce(pid))];
      StampedQuiet(u, t, Done(s.awaitPuback[i].publish.uid, AtLeastOnce(pid)));
    } else {
      StampedQuiet(s, t, GotPuback(pid));
    }
  }

  lemma StampedPubrec(s: Sender, pid: Pid)
    requires Stamped(s)
    ensures Stamped(OnPubrec(s, pid))
  {
    hide Stamped, Position;
    var t := OnPubrec(s, pid);
    var i := PubrecIndex(s, pid);
    if i < |s.awaitPubrec| && |s.sendPubrel| >= s.cap {
      var u := s.(log := s.log + [GotPubrec(pid)]);
      StampedQuiet(s, u, GotPubrec(pid));
      assert t.log == u.log + [Lost(s.awaitPubrec[i].publish.uid, pid)];
      StampedQuiet(u, t, Lost(s.awaitPubrec[i].publish.uid, pid));
    } else {
      StampedQuiet(s, t, GotPubrec(pid));
    }
  }

  lemma StampedPubcomp(s: Sender, pid: Pid)
    requires Stamped(s)
    ensures Stamped(OnPubcomp(s, pid))
  {
    hide Stamped, Position;
    var t := OnPubcomp(s, pid);
    var i := PubcompIndex(s, pid);
    if i < |s.awaitPubcomp| {
      var u := s.(log := s.log + [GotPubcomp(pid)]);
      StampedQuiet(s, u, GotPubcomp(pid));
      assert t.log == u.log + [Done(s.awaitPubcomp[i].uid, ExactlyOnce(pid))];
      StampedQuiet(u, t, Done(s.awaitPubcomp[i].uid, ExactlyOnce(pid)));
    } else {
      StampedQuiet(s, t, GotPubcomp(pid));
    }
  }

  lemma StampedStep(s: Sender, a: Step)
    requires Stamped(s) && PR.Bounded(s) && PT.Distinct(PT.OwnedPids(s)) && Enabled(s, a)
    ensures Stamped(Apply(s, a))
  {
    hide Stamped, PT.OwnedPids, PT.Distinct, Position, PR.Bounded, Transmit, OnPuback, OnPubrec, OnPubcomp;
    match a {
      case StepAdmit(pub) => StampedQuiet(s, Admit(s, pub), Event.Accepted(pub));
      case StepTransmit(i, now) => StampedTransmit(s, i, now);
      case StepTransmitPubrel(now) => StampedTransmitPubrel(s, now);
      case StepRepeatPuback(i, now) => StampedRepeatPuback(s, i, now);
      case StepRepeatPubrec(i, now) => StampedRepeatPubrec(s, i, now);
      case StepRepeatPubrel(i, now) => StampedRepeatPubrel(s, i, now);
      case StepPuback(pid) => StampedPuback(s, pid);
      case StepPubrec(pid) => StampedPubrec(s, pid);
      case StepPubcomp(pid) => StampedPubcomp(s, pid);
    }
  }

  lemma StampedInit(cap: nat)
    ensures Stamped(Init(cap))
  {
  }

  // ---- a pass during which the clock stands still ----

  /** The identifiers of the publishes and of the pubrels that an event transmits. */
  function CarriedPids(e: Event): seq<Pid> { if e.Sent? || e.Resent? then PT.PublishPid(e.pub) else [] }

  function ReleasedPids(e: Event): seq<Pid> { if e.SentPubrel? || e.ResentPubrel? then [e.pid] else [] }

  ghost predicate WaitsSince(s: Sender, pid: Pid, now: int) {
    exists e :: (e in s.awaitPuback || e in s.awaitPubrec) && e.pid == pid && e.sent == now
  }

  ghost predicate CompSince(s: Sender, pid: Pid, now: int) {
    exists e :: e in s.awaitPubcomp && e.pid == pid && e.sent == now
  }

  ghost predicate CarriedOnce(s: Sender, from: nat, now: int)
    requires from <= |s.log|
  {
    && (forall pid :: Bag(CarriedPids, s.log[from..])[pid] <= 1)
    && (forall pid :: pid in Bag(CarriedPids, s.log[from..]) ==> WaitsSince(s, pid, now))
  }

  ghost predicate ReleasedOnce(s: Sender, from: nat, now: int)
    requires from <= |s.log|
  {
    && (forall pid :: Bag(ReleasedPids, s.log[from..])[pid] <= 1)
    && (forall pid :: pid in Bag(ReleasedPids, s.log[from..]) ==> CompSince(s, pid, now))
  }

  /** Since the history was as long as `from` nothing was transmitted twice, and
      what was transmitted waits, stamped with `now`. */
  ghost predicate OnceSince(s: Sender, from: nat, now: int)
    requires from <= |s.log|
  {
    CarriedOnce(s, from, now) && ReleasedOnce(s, from, now)
  }

  lemma CarriedByOne(s: Sender, t: Sender, from: nat, now: int, e: Event)
    requires from <= |s.log| && CarriedOnce(s, from, now) && t.log == s.log + [e]
    requires forall pid :: pid in CarriedPids(e) ==> !WaitsSince(s, pid, now) && WaitsSince(t, pid, now)
    requires forall pid :: WaitsSince(s, pid, now) ==> WaitsSince(t, pid, now)
    ensures CarriedOnce(t, from, now)
  {
    hide Bag, WaitsSince;
    assert t.log[from..] == s.log[from..] + [e];
    BagSnoc(CarriedPids, s.log[from..], e);
  }

  lemma ReleasedByOne(s: Sender, t: Sender, from: nat, now: int, e: Event)
    requires from <= |s.log| && ReleasedOnce(s, from, now) && t.log == s.log + [e]
    requires forall pid :: pid in ReleasedPids(e) ==> !CompSince(s, pid, now) && CompSince(t, pid, now)
    requires forall pid :: CompSince(s, pid, now) ==> CompSince(t, pid, now)
    ensures ReleasedOnce(t, from, now)
  {
    hide Bag, CompSince;
    assert t.log[from..] == s.log[from..] + [e];
    BagSnoc(ReleasedPids, s.log[from..], e);
  }

  /** One more transmission `e`, of something that was not transmitted since. */
  lemma OnceByOne(s: Sender, t: Sender, from: nat, now: int, e: Event)
    requires from <= |s.log| && OnceSince(s, from, now) && t.log == s.log + [e]
    requires forall pid :: pid in CarriedPids(e) ==> !WaitsSince(s, pid, now) && WaitsSince(t, pid, now)
    requires forall pid :: pid in ReleasedPids(e) ==> !CompSince(s, pid, now) && CompSince(t, pid, now)
    requires forall pid :: WaitsSince(s, pid, now) ==> WaitsSince(t, pid, now)
    requires forall pid :: CompSince(s, pid, now) ==> CompSince(t, pid, now)
    ensures OnceSince(t, from, now)
  {
    hide CarriedOnce, ReleasedOnce, WaitsSince, CompSince;
    CarriedByOne(s, t, from, now, e);
    ReleasedByOne(s, t, from, now, e);
  }

  lemma OnceTransmit(s: Sender, i: nat, from: nat, now: int)
    requires from <= |s.log| && OnceSince(s, from, now)
    requires PT.Distinct(PT.OwnedPids(s)) && i < |s.sendPublish|
    ensures OnceSince(Transmit(s, i, now), from, now)
  {
    hide Bag, OnceSince, PT.OwnedPids, PT.Distinct;
    var p := s.sendPublish[i];
    var t := Transmit(s, i, now);
    match p.m.qospid {
      case AtMostOnce =>
        var u := s.(log := s.log + [Sent(p, now)]);
        OnceByOne(s, u, from, now, Sent(p, now));
        assert t.log == u.log + [Done(p.uid, AtMostOnce)];
        OnceByOne(u, t, from, now, Done(p.uid, AtMostOnce));
      case AtLeastOnce(pid) =>
        PL.QueuedIn(s.sendPublish, i, pid);
        NobodyWaits(s, pid);
        assert t.awaitPuback[|s.awaitPuback|].sent == now;
        OnceByOne(s, t, from, now, Sent(p, now));
      case ExactlyOnce(pid) =>
        PL.QueuedIn(s.sendPublish, i, pid);
        NobodyWaits(s, pid);
        assert t.awaitPubrec[|s.awaitPubrec|].sent == now;
        OnceByOne(s, t, from, now, Sent(p, now));
    }
  }

  lemma OnceTransmitPubrel(s: Sender, from: nat, now: int)
    requires from <= |s.log| && OnceSince(s, from, now)
    requires PT.Distinct(PT.OwnedPids(s)) && Enabled(s, StepTransmitPubrel(now))
    ensures OnceSince(TransmitPubrel(s, 0, now), from, now)
  {
    hide Bag, OnceSince, PT.OwnedPids, PT.Distinct;
    var e := s.sendPubrel[0];
    var t := TransmitPubrel(s, 0, now);
    PL.PubrelIn(s.sendPubrel, e);
    NobodyWaits(s, e.pid);
    assert t.awaitPubcomp[|s.awaitPubcomp|].sent == now;
    OnceByOne(s, t, from, now, SentPubrel(e.pid, e.uid, now));
  }

  /** Replacing an old stamp by `now` adds one entry to those stamped with it. */
  lemma Restamped(q: seq<AwaitAck>, i: nat, now: int)
    requires i < |q| && q[i].sent != now && Bag(PT.AwaitPid, q)[q[i].pid] <= 1
    ensures var r := q[i := q[i].(sent := now)];
      && (forall e :: e in q && e.sent == now ==> e in r && e.pid != q[i].pid)
      && r[i].pid == q[i].pid && r[i].sent == now
  {
    hide Bag;
    AwaitApart(q, i);
    var r := q[i := q[i].(sent := now)];
    forall e | e in q && e.sent == now
      ensures e in r && e.pid != q[i].pid
    {
      var j :| 0 <= j < |q| && q[j] == e;
      assert r[j] == e;
    }
  }

  lemma OnceRepeatPuback(s: Sender, i: nat, from: nat, now: int)
    requires from <= |s.log| && OnceSince(s, from, now) && PR.Bounded(s)
    requires PT.Distinct(PT.OwnedPids(s)) && Enabled(s, StepRepeatPuback(i, now))
    ensures OnceSince(RepeatPuback(s, i, now), from, now)
  {
    hide Bag, OnceSince, PT.OwnedPids, PT.Distinct;
    var e := s.awaitPuback[i];
    var t := RepeatPuback(s, i, now);
    PL.AwaitIn(s.awaitPuback, e);
    PT.WaitersDistinct(s, e.pid);
    NobodyWaits(s, e.pid);
    Restamped(s.awaitPuback, i, now);
    assert t.awaitPuback[i] in t.awaitPuback;
    OnceByOne(s, t, from, now, Resent(e.publish, now));
  }

  lemma OnceRepeatPubrec(s: Sender, i: nat, from: nat, now: int)
    requires from <= |s.log| && OnceSince(s, from, now) && PR.Bounded(s)
    requires PT.Distinct(PT.OwnedPids(s)) && Enabled(s, StepRepeatPubrec(i, now))
    ensures OnceSince(RepeatPubrec(s, i, now), from, now)
  {
    hide Bag, OnceSince, PT.OwnedPids, PT.Distinct;
    var e := s.awaitPubrec[i];
    var t := RepeatPubrec(s, i, now);
    PL.AwaitIn(s.awaitPubrec, e);
    PT.WaitersDistinct(s, e.pid);
    NobodyWaits(s, e.pid);
    Restamped(s.awaitPubrec, i, now);
    assert t.awaitPubrec[i] in t.awaitPubrec;
    OnceByOne(s, t, from, now, Resent(e.publish, now));
  }

  lemma OnceRepeatPubrel(s: Sender, i: nat, from: nat, now: int)
    requires from <= |s.log| && OnceSince(s, from, now)
    requires PT.Distinct(PT.OwnedPids(s)) && Enabled(s, StepRepeatPubrel(i, now))
    ensures OnceSince(RepeatPubrel(s, i, now), from, now)
  {
    hide Bag, OnceSince, PT.OwnedPids, PT.Distinct;
    var e := s.awaitPubcomp[i];
    var t := RepeatPubrel(s, i, now);
    PT.OwnedOnce(s, e.pid);
    PubcompApart(s.awaitPubcomp, i);
    assert t.awaitPubcomp[i] in t.awaitPubcomp && t.awaitPubcomp[i].sent == now;
    forall pid | CompSince(s, pid, now)
      ensures CompSince(t, pid, now)
    {
      var j :| 0 <= j < |s.awaitPubcomp| && s.awaitPubcomp[j].pid == pid && s.awaitPubcomp[j].sent == now;
      assert t.awaitPubcomp[j] == s.awaitPubcomp[j];
    }
    OnceByOne(s, t, from, now, ResentPubrel(e.pid, e.uid, now));
  }

  lemma OnceStep(s: Sender, a: Step, from: nat)
    requires from <= |s.log| && PR.IsSend(a) && OnceSince(s, from, a.now)
    requires PR.Bounded(s) && PT.Distinct(PT.OwnedPids(s)) && Enabled(s, a)
    ensures from <= |Apply(s, a).log| && OnceSince(Apply(s, a), from, a.now)
  {
    hide OnceSince, PT.OwnedPids, PT.Distinct, PR.Bounded;
    match a {
      case StepTransmit(i, now) => OnceTransmit(s, i, from, now);
      case StepTransmitPubrel(now) => OnceTransmitPubrel(s, from, now);
      case StepRepeatPuback(i, now) => OnceRepeatPuback(s, i, from, now);
      case StepRepeatPubrec(i, now) => OnceRepeatPubrec(s, i, from, now);
      case StepRepeatPubrel(i, now) => OnceRepeatPubrel(s, i, from, now);
    }
  }

  lemma {:induction false} OnceRun(s: Sender, run: seq<Step>, from: nat, now: int)
    requires from <= |s.log| && OnceSince(s, from, now) && CanRun(s, run)
    requires forall i :: 0 <= i < |run| ==> PR.IsSend(run[i]) && run[i].now == now
    requires PR.Bounded(s) && PT.Distinct(PT.OwnedPids(s))
    ensures from <= |Run(s, run).log| && OnceSince(Run(s, run), from, now)
    decreases |run|
  {
    hide OnceSince, PT.OwnedPids, PT.Distinct, PR.Bounded, Apply, Enabled;
    if run != [] {
      OnceStep(s, run[0], from);
      PR.BoundedStep(s, run[0]);
      PT.DistinctStep(s, run[0]);
      OnceRun(Apply(s, run[0]), run[1..], from, now);
    }
  }
}

/** The same over every run with identifiers from the pool, and for every pass. */
module RepetitionTimes {
  import opened Mqtt
  import opened Seqs
  import opened PacketLink
  import PM = PublishModel
  import PR = PublishRuns
  import PT = PublishTheorems
  import PP = PublishPasses
  import opened PublishTimes
  import opened PidOwnership

  lemma StampedSystemStep(g: System, a: Step)
    requires Enabled(g, a) && Inv(g) && Stamped(g.publishes)
    ensures Stamped(Apply(g, a).publishes)
  {
    hide Ledger, Balanced, Stamped, PT.OwnedPids, PR.Conserved, PR.Ordered, PR.Caused;
    hide PM.Apply, PM.Enabled, PM.Admit, SM.Apply, Position;
    if a.Admit? {
      StampedStep(g.publishes, PM.StepAdmit(g.callers[a.k]));
      AdmitIsStep(g.publishes, g.callers[a.k]);
    } else if a.PublishStep? {
      StampedStep(g.publishes, a.publish);
    }
  }

  lemma {:induction false} StampedRun(g: System, run: seq<Step>)
    requires CanRun(g, run) && Inv(g) && Stamped(g.publishes)
    ensures Stamped(Run(g, run).publishes)
    decreases |run|
  {
    hide Inv, Stamped, Enabled, Apply;
    if run != [] {
      InvStep(g, run[0]);
      StampedSystemStep(g, run[0]);
      StampedRun(Apply(g, run[0]), run[1..]);
    }
  }

  lemma ReachableStamped(g: System)
    requires Reachable(g)
    ensures Stamped(g.publishes)
  {
    hide Inv, Stamped;
    var cap: nat, wireTopicSize: nat, run :|
      CanRun(Init(cap, wireTopicSize), run) && Run(Init(cap, wireTopicSize), run) == g;
    InvInit(cap, wireTopicSize);
    StampedInit(cap);
    StampedRun(Init(cap, wireTopicSize), run);
  }

  lemma LastWitness(log: seq<PM.Event>, test: PM.Event -> bool) returns (i: nat)
    requires Since(test, log) != []
    ensures i < |log| && test(log[i]) && TimeOf(log[i]) == TimeOf(Since(test, log)[0])
    ensures forall j :: i < j < |log| ==> !test(log[j])
  {
    hide Since;
    i := SinceAt(test, log);
  }

  /** In every run a publish is repeated more than 5000 ms after the latest
      earlier transmission of the same publish. */
  lemma PublishRepeatedLate(g: System, k: nat, pid: Pid) returns (earlier: nat)
    requires Reachable(g) && k < |g.publishes.log| && g.publishes.log[k].Resent?
    requires pid in PT.PublishPid(g.publishes.log[k].pub)
    ensures var log := g.publishes.log;
      && earlier < k && Carries(pid)(log[earlier])
      && (forall j :: earlier < j < k ==> !Carries(pid)(log[j]))
      && log[k].at - TimeOf(log[earlier]) > 5000
  {
    hide Reachable, Since;
    ReachableStamped(g);
    var log := g.publishes.log;
    assert Late(log, k);
    earlier := LastWitness(log[..k], Carries(pid));
  }

  /** ... and so is a pubrel. */
  lemma PubrelRepeatedLate(g: System, k: nat) returns (earlier: nat)
    requires Reachable(g) && k < |g.publishes.log| && g.publishes.log[k].ResentPubrel?
    ensures var log := g.publishes.log;
      && earlier < k && Releases(log[k].pid)(log[earlier])
      && (forall j :: earlier < j < k ==> !Releases(log[k].pid)(log[j]))
      && log[k].at - TimeOf(log[earlier]) > 5000
  {
    hide Reachable, Since;
    ReachableStamped(g);
    var log := g.publishes.log;
    assert Late(log, k);
    earlier := LastWitness(log[..k], Releases(log[k].pid));
  }

  /** The time stamp of every entry that waits for a PUBACK or PUBREC is the time
      of its latest transmission. */
  lemma StampIsLastTransmission(g: System, e: PM.AwaitAck) returns (last: nat)
    requires Reachable(g) && (e in g.publishes.awaitPuback || e in g.publishes.awaitPubrec)
    ensures var log := g.publishes.log;
      && last < |log| && Carries(e.pid)(log[last]) && TimeOf(log[last]) == e.sent
      && forall j :: last < j < |log| ==> !Carries(e.pid)(log[j])
  {
    hide Reachable, Since;
    ReachableStamped(g);
    last := LastWitness(g.publishes.log, Carries(e.pid));
  }

  lemma PubrelStampIsLastTransmission(g: System, e: PM.AwaitPubcomp) returns (last: nat)
    requires Reachable(g) && e in g.publishes.awaitPubcomp
    ensures var log := g.publishes.log;
      && last < |log| && Releases(e.pid)(log[last]) && TimeOf(log[last]) == e.sent
      && forall j :: last < j < |log| ==> !Releases(e.pid)(log[j])
  {
    hide Reachable, Since;
    ReachableStamped(g);
    last := LastWitness(g.publishes.log, Releases(e.pid));
  }

  // ---- one pass ----

  /** The identifiers of a written publish and of a written pubrel. */
  function PublishPids(p: Packet): seq<Pid> {
    if p.Publish? then PT.PublishPid(PM.OwnedPublish(p.m, 0)) else []
  }

  function PubrelPids(p: Packet): seq<Pid> { if p.Pubrel? then [p.pid] else [] }

  lemma {:induction false} PacketsOfEvents(events: seq<PM.Event>)
    ensures FlatMap(PublishPids, FlatMap(PP.Transmission, events)) == FlatMap(CarriedPids, events)
    ensures FlatMap(PubrelPids, FlatMap(PP.Transmission, events)) == FlatMap(ReleasedPids, events)
  {
    if events != [] {
      var sent := PP.Transmission(events[0]);
      PacketsOfEvents(events[1..]);
      FlatMapConcat(PublishPids, sent, FlatMap(PP.Transmission, events[1..]));
      FlatMapConcat(PubrelPids, sent, FlatMap(PP.Transmission, events[1..]));
      if sent != [] {
        FlatMapOne(PublishPids, sent[0]);
        FlatMapOne(PubrelPids, sent[0]);
      }
    }
  }

  lemma NothingSince(s: PM.Sender, now: int)
    ensures OnceSince(s, |s.log|, now)
  {
    assert s.log[|s.log|..] == [];
  }

  /** While the clock stands still a pass writes no publish and no pubrel twice. */
  lemma OncePerPass(g: System, l: Link, now: int)
    requires Reachable(g) && PM.SendPackets(g.publishes, l).outcome != Panic
    requires forall n :: l.clock(n) == now
    ensures var written := PM.SendPackets(g.publishes, l).link.written;
      && l.written <= written
      && forall pid :: Bag(PublishPids, written[|l.written|..])[pid] <= 1
                    && Bag(PubrelPids, written[|l.written|..])[pid] <= 1
  {
    hide Reachable, FlatMap, PM.SendPackets, PR.Conserved, PR.Ordered, PR.Caused, PT.OwnedPids, PT.Repeats, Ledger, Balanced;
    ReachableInv(g);
    var s, p := g.publishes, PM.SendPackets(g.publishes, l);
    PR.SendPacketsLeads(s, l);
    var run :| PM.CanRun(s, run) && PM.Run(s, run) == p.state && PR.AllSend(run, l.clock);
    NothingSince(s, now);
    OnceRun(s, run, |s.log|, now);
    PP.SendPacketsExact(s, l);
    var events := p.state.log[|s.log|..];
    assert p.link.written[|l.written|..] == FlatMap(PP.Transmission, events);
    PacketsOfEvents(events);
  }
}
