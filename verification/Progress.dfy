/** Back-pressure never deadlocks: a measure of the work that is left, which every
    move of a packet lowers by one, and a move for as long as it is positive. */
module Progress {
  import opened Mqtt
  import opened Seqs
  import PM = PublishModel
  import PR = PublishRuns
  import PT = PublishTheorems
  import RM = ReceiveModel
  import RR = ReceiveRuns
  import PO = PidOwnership
  import opened EndToEnd
  import opened Delivery

  // ---- how many moves a packet still causes ----

  function PublishWork(p: OwnedPublish): nat {
    match p.m.qospid
    case AtMostOnce => 2
    case AtLeastOnce(_) => 4
    case ExactlyOnce(_) => 8
  }

  function FrameWork(f: Frame): nat {
    match f
    case PublishFrame(pub) => PublishWork(pub) - 1
    case PubrelFrame(_) => 3
  }

  function AckWork(p: Packet): nat { if p.Pubrec? then 5 else 1 }

  function Sum<T>(f: T -> nat, s: seq<T>): nat {
    if s == [] then 0 else f(s[0]) + Sum(f, s[1..])
  }

  lemma {:induction false} SumConcat<T>(f: T -> nat, a: seq<T>, b: seq<T>)
    ensures Sum(f, a + b) == Sum(f, a) + Sum(f, b)
  {
    if a == [] {
      assert a + b == b;
    } else {
      assert (a + b)[1..] == a[1..] + b;
      SumConcat(f, a[1..], b);
    }
  }

  lemma SumOne<T>(f: T -> nat, x: T)
    ensures Sum(f, [x]) == f(x)
  {
  }

  lemma SumSnoc<T>(f: T -> nat, s: seq<T>, x: T)
    ensures Sum(f, s + [x]) == Sum(f, s) + f(x)
  {
    SumConcat(f, s, [x]);
    SumOne(f, x);
  }

  lemma {:induction false} SumRemove<T>(f: T -> nat, s: seq<T>, i: nat)
    requires i < |s|
    ensures Sum(f, s) == Sum(f, RemoveAt(s, i)) + f(s[i])
  {
    if i == 0 {
      assert RemoveAt(s, 0) == s[1..];
    } else {
      var rest := RemoveAt(s, i);
      assert rest[0] == s[0] && rest[1..] == RemoveAt(s[1..], i - 1);
      SumRemove(f, s[1..], i - 1);
    }
  }

  /** The moves that are left until nothing is queued and nothing travels. */
  function Work(w: World): nat {
    var s := w.client.publishes;
    Sum(PublishWork, s.sendPublish) + 4 * |s.sendPubrel|
    + Sum(FrameWork, w.up)
    + 2 * |w.peer.sendPuback| + 6 * |w.peer.sendPubrec| + 2 * |w.peer.sendPubcomp|
    + Sum(AckWork, w.down)
  }

  // ---- every move lowers it by one ----

  lemma WorkSendPublish(w: World, i: nat, now: int, t: World)
    requires Enabled(w, SendPublish(i, now)) && t == Apply(w, SendPublish(i, now))
    ensures Work(t) == Work(w) - 1 && t.client.publishes.cap == w.client.publishes.cap
  {
    hide Apply, Enabled, Sum;
    SendPublishEffect(w, i, now);
    var p := w.client.publishes.sendPublish[i];
    SumRemove(PublishWork, w.client.publishes.sendPublish, i);
    SumSnoc(FrameWork, w.up, PublishFrame(p));
  }

  lemma WorkSendPubrel(w: World, now: int, t: World)
    requires Enabled(w, SendPubrel(now)) && t == Apply(w, SendPubrel(now))
    ensures Work(t) == Work(w) - 1 && t.client.publishes.cap == w.client.publishes.cap
  {
    hide Apply, Enabled, Sum;
    SendPubrelEffect(w, now);
    SumSnoc(FrameWork, w.up, PubrelFrame(w.client.publishes.sendPubrel[0].pid));
  }

  lemma WorkPeerTakes(w: World, t: World)
    requires w.up != [] && t == Apply(w, PeerTakes)
    requires Inv(w)
    ensures Work(t) == Work(w) - 1 && t.client.publishes.cap == w.client.publishes.cap
  {
    hide PO.Inv, RR.Bounded, Tokens, Shapes, Apply, PeerHandles, Takeable, Sum, Position;
    SumRemove(FrameWork, w.up, 0);
    assert RemoveAt(w.up, 0) == w.up[1..];
    match w.up[0] {
      case PublishFrame(pub) =>
        ArrivalIsGood(w, pub);
        PeerDelivers(w);
      case PubrelFrame(pid) =>
        PubrelIsKnown(w, pid);
        PeerReleases(w);
    }
  }

  lemma WorkPeerSends(w: World, b: RM.Step, t: World)
    requires Enabled(w, PeerSends(b)) && t == Apply(w, PeerSends(b))
    ensures Work(t) == Work(w) - 1 && t.client.publishes.cap == w.client.publishes.cap
  {
    hide Sum;
    SumSnoc(AckWork, w.down, Reply(w.peer, b));
  }

  lemma WorkClientTakes(w: World, t: World)
    requires w.down != [] && t == Apply(w, ClientTakes)
    requires Inv(w)
    ensures Work(t) == Work(w) - 1 && t.client.publishes.cap == w.client.publishes.cap
  {
    hide PO.Inv, RR.Bounded, Tokens, Shapes, Apply, Sum, Position;
    SumRemove(AckWork, w.down, 0);
    assert RemoveAt(w.down, 0) == w.down[1..];
    AckIsExpected(w, w.down[0]);
    ClientTakesEffect(w);
  }

  lemma MoveCostsOne(w: World, a: Step)
    requires Enabled(w, a) && !a.Local?
    requires Inv(w)
    ensures Work(Apply(w, a)) == Work(w) - 1 && Apply(w, a).client.publishes.cap == w.client.publishes.cap
  {
    hide Inv, Apply, Work, PM.Enabled, RM.Enabled;
    var t := Apply(w, a);
    match a {
      case SendPublish(i, now) => WorkSendPublish(w, i, now, t);
      case SendPubrel(now) => WorkSendPubrel(w, now, t);
      case PeerTakes => WorkPeerTakes(w, t);
      case PeerSends(b) => WorkPeerSends(w, b, t);
      case ClientTakes => WorkClientTakes(w, t);
    }
  }

  // ---- while it is positive there is a move ----

  /** Nothing is queued at either end and nothing travels. */
  ghost predicate Quiet(w: World) {
    && w.client.publishes.sendPublish == [] && w.client.publishes.sendPubrel == []
    && w.client.publishes.awaitPuback == [] && w.client.publishes.awaitPubrec == []
    && w.client.publishes.awaitPubcomp == []
    && w.up == [] && w.down == []
    && w.peer.sendPuback == [] && w.peer.sendPubrec == [] && w.peer.sendPubcomp == [] && w.peer.awaitPubrel == []
  }

  lemma WorkZero(w: World)
    requires Work(w) == 0
    requires Tokens(w)
    ensures Quiet(w)
  {
    hide Tokens;
    TokenSizes(w);
  }

  lemma QuietWork(w: World)
    requires Quiet(w)
    ensures Work(w) == 0
  {
  }

  /** Nothing travels: what the client awaits is queued at the receiver. */
  lemma NothingTravels(w: World)
    requires w.up == [] && w.down == []
    requires Inv(w)
    ensures |w.client.publishes.awaitPuback| == |w.peer.sendPuback|
    ensures |w.client.publishes.awaitPubrec| == |w.peer.sendPubrec|
    ensures |w.client.publishes.awaitPubcomp| == |w.peer.sendPubcomp|
    ensures |w.peer.awaitPubrel| == |w.client.publishes.sendPubrel|
  {
    hide PO.Inv, RR.Bounded, Tokens;
    TokenSizes(w);
    PubrelSize(w.client.publishes.sendPubrel);
  }

  lemma NoSums()
    ensures Sum(PublishWork, []) == 0 && Sum(FrameWork, []) == 0 && Sum(AckWork, []) == 0
  {
  }

  /** While work is left some packet can be written or taken. */
  lemma NextMove(w: World) returns (a: Step)
    requires w.client.publishes.cap > 0 && Work(w) > 0
    requires Inv(w)
    ensures Enabled(w, a) && !a.Local?
  {
    hide PO.Inv, RR.Bounded, Tokens, Sum;
    var s := w.client.publishes;
    assert w.peer.cap > 0;
    if w.up != [] {
      a := PeerTakes;
    } else if w.down != [] {
      a := ClientTakes;
    } else if w.peer.sendPuback != [] {
      a := PeerSends(RM.StepWritePuback(0));
    } else if w.peer.sendPubrec != [] && |w.peer.awaitPubrel| < w.peer.cap {
      a := PeerSends(RM.StepWritePubrec(0));
    } else if w.peer.sendPubcomp != [] {
      a := PeerSends(RM.StepWritePubcomp(0));
    } else {
      NothingTravels(w);
      if s.sendPubrel != [] {
        assert s.sendPubrel[0] in s.sendPubrel;
        a := SendPubrel(0);
      } else {
        assert s.sendPublish != [] by { NoSums(); }
        a := SendPublish(0, 0);
      }
    }
  }

  // ---- over every run of moves ----

  predicate Moves(run: seq<Step>) {
    forall i :: 0 <= i < |run| ==> !run[i].Local?
  }

  /** A run of moves uses up the work step by step, so it cannot be longer. */
  lemma {:induction false} MovesUseWork(w: World, run: seq<Step>)
    requires Moves(run) && CanRun(w, run)
    requires Reachable(w)
    ensures |run| + Work(Run(w, run)) == Work(w)
    ensures Reachable(Run(w, run)) && Run(w, run).client.publishes.cap == w.client.publishes.cap
    decreases |run|
  {
    hide Reachable, Enabled, Apply, Work, Inv, Delivers, NoLoss;
    if run != [] {
      ReachableInv(w);
      MoveCostsOne(w, run[0]);
      var t := Apply(w, run[0]);
      ReachableStep(w, run[0], t);
      MovesUseWork(t, run[1..]);
    }
  }

  /** A packet can be written or taken. */
  ghost predicate CanMove(w: World) {
    exists a: Step :: !a.Local? && Enabled(w, a)
  }

  lemma InvTokens(w: World)
    requires Inv(w)
    ensures Tokens(w)
  {
  }

  /** Back-pressure never deadlocks: with room for at least one packet on both
      sides, nothing can move if and only if nothing is left to do. */
  lemma NeverStuck(w: World)
    requires Reachable(w) && w.client.publishes.cap > 0
    ensures CanMove(w) <==> !Quiet(w)
  {
    hide Reachable, Inv, Delivers, NoLoss, Enabled, Work, Quiet;
    ReachableInv(w);
    if Work(w) > 0 {
      var a := NextMove(w);
      if Quiet(w) {
        QuietWork(w);
      }
    } else {
      InvTokens(w);
      WorkZero(w);
      if CanMove(w) {
        var a: Step :| !a.Local? && Enabled(w, a);
        MoveCostsOne(w, a);
      }
    }
  }

  /** Every accepted request was delivered, and every one that is acknowledged was
      completed, exactly as often as it was accepted. */
  ghost predicate AllDone(w: World) {
    && (forall q :: FlatMap(PR.QueuedOf(q), w.delivered) == FlatMap(PR.AcceptedOf(q), w.client.publishes.log))
    && (forall q, k :: q != QoS0 ==> DoneKeys(w, q)[k] == DeliveredKeys(w, q)[k] == AcceptedKeys(w, q)[k])
  }

  lemma QuietDelivered(w: World, q: QoS)
    requires Reachable(w) && Quiet(w)
    ensures FlatMap(PR.QueuedOf(q), w.delivered) == FlatMap(PR.AcceptedOf(q), w.client.publishes.log)
  {
    hide Reachable, PT.Faithful, PO.Ledger, PO.Balanced, Tokens, Shapes, Delivery.Pending;
    ReachableInv(w);
    assert InOrder(w, q);
    assert PR.Ordered(w.client.publishes, q);
  }

  lemma EmptyBag<T, U>(f: T -> seq<U>)
    ensures Bag(f, []) == multiset{}
  {
  }

  lemma QuietCompleted(w: World, q: QoS, k: Key)
    requires Reachable(w) && Quiet(w) && q != QoS0
    ensures DoneKeys(w, q)[k] == DeliveredKeys(w, q)[k] == AcceptedKeys(w, q)[k]
  {
    hide Reachable, FlatMap, Tokens, Shapes, InOrder, Labelled, Delivery.Pending, PO.Ledger, PO.Balanced, RR.Bounded;
    ReachableInv(w);
    var s := w.client.publishes;
    NothingLost(s.log);
    SentOrQueued(s, q);
    EmptyBag(QueuedKey(q));
    EmptyBag(AwaitKey);
    EmptyBag(PubrelKey);
    EmptyBag(PubcompKey);
    ExactlyOnceDelivery(w, q, k);
  }

  lemma QuietIsDone(w: World)
    requires Reachable(w) && Quiet(w)
    ensures AllDone(w)
  {
    hide Reachable, Quiet, FlatMap, DoneKeys, DeliveredKeys, AcceptedKeys;
    forall q
      ensures FlatMap(PR.QueuedOf(q), w.delivered) == FlatMap(PR.AcceptedOf(q), w.client.publishes.log)
    {
      QuietDelivered(w, q);
    }
    forall q, k | q != QoS0
      ensures DoneKeys(w, q)[k] == DeliveredKeys(w, q)[k] == AcceptedKeys(w, q)[k]
    {
      QuietCompleted(w, q, k);
    }
  }

  /** However the two sides take turns: a run of moves that cannot go on has done
      exactly the work that was left, and every request is delivered and completed. */
  lemma EveryRunCompletes(w: World, run: seq<Step>)
    requires Moves(run) && CanRun(w, run) && w.client.publishes.cap > 0
    requires Reachable(w) && !CanMove(Run(w, run))
    ensures |run| == Work(w) && AllDone(Run(w, run))
  {
    hide Reachable, Quiet, CanMove, AllDone, Work;
    MovesUseWork(w, run);
    NeverStuck(Run(w, run));
    QuietIsDone(Run(w, run));
    QuietWork(Run(w, run));
  }
}
