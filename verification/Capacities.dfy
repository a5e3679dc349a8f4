/** For which two capacities the back-pressure between client and receiver is
    enough: for all others a run that overflows a queue. */
module Capacities {
  import opened Mqtt
  import opened PidPools
  import opened EndToEnd
  import PM = PublishModel
  import RM = ReceiveModel
  import PO = PidOwnership
  import Delivery

  const LIMITS := RM.Limits(10, 10)

  /** `w` can be reached in a world with these two capacities. */
  ghost predicate Reaches(cap: nat, peerCap: nat, w: World) {
    exists wireTopicSize: nat, limits, run ::
      CanRun(Init(cap, peerCap, wireTopicSize, limits), run) && Run(Init(cap, peerCap, wireTopicSize, limits), run) == w
  }

  lemma Next(cap: nat, peerCap: nat, w: World, a: Step, t: World)
    requires Enabled(w, a) && t == Apply(w, a)
    requires Reaches(cap, peerCap, w)
    ensures Reaches(cap, peerCap, t)
  {
    hide Enabled, Apply;
    var wireTopicSize: nat, limits, run :|
      CanRun(Init(cap, peerCap, wireTopicSize, limits), run) && Run(Init(cap, peerCap, wireTopicSize, limits), run) == w;
    RunSnoc(Init(cap, peerCap, wireTopicSize, limits), run, a);
  }

  lemma Start(cap: nat, peerCap: nat)
    ensures Reaches(cap, peerCap, Init(cap, peerCap, 10, LIMITS))
  {
    var w := Init(cap, peerCap, 10, LIMITS);
    assert CanRun(w, []) && Run(w, []) == w;
  }

  /** A request that is admitted at once. */
  lemma Ask(cap: nat, peerCap: nat, w: World, qos: QoS, uid: UniqueId) returns (t: World)
    requires Reaches(cap, peerCap, w)
    requires w.client.callers == [] && qos != QoS0 && Issued(w.client.pool).Some?
    requires |w.client.publishes.sendPublish| < w.client.publishes.cap
    ensures Reaches(cap, peerCap, t)
    ensures var pub := PM.OwnedPublish(Message(false, PO.CallQospid(w.client.pool, qos), false, "", []), uid);
      && t.client.callers == [] && t.client.pool == Taken(w.client.pool)
      && t.client.publishes == PM.Admit(w.client.publishes, pub)
      && t.up == w.up && t.down == w.down && t.peer == w.peer
  {
    hide Reaches;
    var a := Local(PO.Call(qos, false, "", [], uid));
    var s := Apply(w, a);
    Next(cap, peerCap, w, a, s);
    var b := Local(PO.Admit(0));
    t := Apply(s, b);
    Next(cap, peerCap, s, b, t);
  }

  // ---- a receiver with less room ----

  /** So many QoS 1 publishes are with a receiver that acknowledged none. */
  ghost predicate Unanswered(cap: nat, peerCap: nat, w: World, n: nat) {
    && n <= MOST_PIDS && Reaches(cap, peerCap, w)
    && w.client.callers == [] && w.client.pool == Pool([], n + 1)
    && w.client.publishes.cap == cap && w.client.publishes.sendPublish == []
    && |w.client.publishes.awaitPuback| == n && w.client.publishes.sendPubrel == []
    && w.up == [] && w.peer.cap == peerCap && |w.peer.sendPuback| == n
  }

  /** One more is on its way. */
  lemma SendOne(cap: nat, peerCap: nat, w: World, n: nat) returns (t: World)
    requires n < cap && n < MOST_PIDS && Unanswered(cap, peerCap, w, n)
    ensures Reaches(cap, peerCap, t) && t.peer == w.peer
    ensures t.client.callers == [] && t.client.pool == Pool([], n + 2)
    ensures t.client.publishes.cap == cap && t.client.publishes.sendPublish == []
    ensures |t.client.publishes.awaitPuback| == n + 1 && t.client.publishes.sendPubrel == []
    ensures t.up == [PublishFrame(PM.OwnedPublish(Message(false, AtLeastOnce(n + 1), false, "", []), 0))]
  {
    hide Reaches;
    var asked := Ask(cap, peerCap, w, QoS1, 0);
    t := Apply(asked, SendPublish(0, 0));
    Next(cap, peerCap, asked, SendPublish(0, 0), t);
  }

  lemma {:induction false} Collect(cap: nat, peerCap: nat, n: nat) returns (w: World)
    requires n <= peerCap && n <= cap && n < MOST_PIDS
    ensures Unanswered(cap, peerCap, w, n)
  {
    hide Reaches;
    if n == 0 {
      Start(cap, peerCap);
      w := Init(cap, peerCap, 10, LIMITS);
    } else {
      var v := Collect(cap, peerCap, n - 1);
      var sent := SendOne(cap, peerCap, v, n - 1);
      w := Apply(sent, PeerTakes);
      Next(cap, peerCap, sent, PeerTakes, w);
    }
  }

  // ---- a receiver with more room ----

  /** So many QoS 2 publishes have a PUBCOMP that the receiver did not get to write,
      and so many more are released without room for their pubrel to go out. */
  ghost predicate Held(cap: nat, peerCap: nat, w: World, comps: nat, rels: nat) {
    && comps + rels <= MOST_PIDS && Reaches(cap, peerCap, w)
    && w.client.callers == [] && w.client.pool == Pool([], comps + rels + 1)
    && w.client.publishes.cap == cap && w.client.publishes.sendPublish == []
    && w.client.publishes.awaitPubrec == [] && |w.client.publishes.awaitPubcomp| == comps
    && |w.client.publishes.sendPubrel| == rels
    && w.up == [] && w.down == []
    && w.peer.cap == peerCap && w.peer.sendPubrec == []
    && |w.peer.sendPubcomp| == comps && |w.peer.awaitPubrel| == rels
    && (forall p :: p in w.peer.sendPubcomp || p in w.peer.awaitPubrel ==> p <= comps + rels)
  }

  /** The next one can still be sent: no pubrel that could go out waits. */
  predicate MoreToCome(cap: nat, peerCap: nat, comps: nat, rels: nat) {
    && comps <= cap && rels <= cap && 0 < cap < peerCap && comps + rels < MOST_PIDS
    && (rels > 0 ==> comps == cap)
  }

  /** `t` has one more QoS 2 publish than `w`; receiver and channel are left open. */
  ghost predicate OneMore(cap: nat, peerCap: nat, w: World, comps: nat, rels: nat, t: World)
    requires MoreToCome(cap, peerCap, comps, rels)
  {
    && Reaches(cap, peerCap, t)
    && t.client.callers == [] && t.client.pool == Pool([], comps + rels + 2)
    && t.client.publishes.cap == cap && t.client.publishes.sendPublish == []
    && t.client.publishes.awaitPubcomp == w.client.publishes.awaitPubcomp
    && t.client.publishes.sendPubrel == w.client.publishes.sendPubrel
    && |t.client.publishes.awaitPubrec| == 1 && t.client.publishes.awaitPubrec[0].pid == comps + rels + 1
    && t.up == [] && t.peer.cap == peerCap && t.peer.sendPubcomp == w.peer.sendPubcomp
  }

  lemma SendNext(cap: nat, peerCap: nat, w: World, comps: nat, rels: nat) returns (t: World)
    requires MoreToCome(cap, peerCap, comps, rels) && Held(cap, peerCap, w, comps, rels)
    ensures Reaches(cap, peerCap, t)
    ensures t.client.callers == [] && t.client.pool == Pool([], comps + rels + 2)
    ensures t.client.publishes.cap == cap && t.client.publishes.sendPublish == []
    ensures t.client.publishes.awaitPubcomp == w.client.publishes.awaitPubcomp
    ensures t.client.publishes.sendPubrel == w.client.publishes.sendPubrel
    ensures |t.client.publishes.awaitPubrec| == 1 && t.client.publishes.awaitPubrec[0].pid == comps + rels + 1
    ensures t.up == [PublishFrame(PM.OwnedPublish(Message(false, ExactlyOnce(comps + rels + 1), false, "", []), 0))]
    ensures t.down == [] && t.peer == w.peer
  {
    hide Reaches;
    var asked := Ask(cap, peerCap, w, QoS2, 0);
    t := Apply(asked, SendPublish(0, 0));
    Next(cap, peerCap, asked, SendPublish(0, 0), t);
  }

  lemma BringOne(cap: nat, peerCap: nat, w: World, comps: nat, rels: nat) returns (t: World)
    requires MoreToCome(cap, peerCap, comps, rels) && Held(cap, peerCap, w, comps, rels)
    ensures OneMore(cap, peerCap, w, comps, rels, t)
    ensures t.down == [] && t.peer.awaitPubrel == w.peer.awaitPubrel && t.peer.sendPubrec == [comps + rels + 1]
  {
    hide Reaches;
    var sent := SendNext(cap, peerCap, w, comps, rels);
    t := Apply(sent, PeerTakes);
    Next(cap, peerCap, sent, PeerTakes, t);
  }

  lemma AnswerOne(cap: nat, peerCap: nat, w: World, comps: nat, rels: nat) returns (t: World)
    requires MoreToCome(cap, peerCap, comps, rels) && Held(cap, peerCap, w, comps, rels)
    ensures OneMore(cap, peerCap, w, comps, rels, t)
    ensures t.down == [Pubrec(comps + rels + 1)]
    ensures t.peer.awaitPubrel == w.peer.awaitPubrel + [comps + rels + 1] && t.peer.sendPubrec == []
  {
    hide Reaches;
    var v := BringOne(cap, peerCap, w, comps, rels);
    t := Apply(v, PeerSends(RM.StepWritePubrec(0)));
    Next(cap, peerCap, v, PeerSends(RM.StepWritePubrec(0)), t);
  }

  /** One publish further: released, its pubrel not sent yet ... */
  lemma ReleaseOne(cap: nat, peerCap: nat, w: World, comps: nat, rels: nat) returns (t: World)
    requires MoreToCome(cap, peerCap, comps, rels) && rels < cap && Held(cap, peerCap, w, comps, rels)
    ensures Held(cap, peerCap, t, comps, rels + 1)
    ensures t.client.publishes.sendPubrel[rels].pid == comps + rels + 1 && t.client.publishes.sendPubrel[rels].uid.Some?
    ensures t.peer.awaitPubrel == w.peer.awaitPubrel + [comps + rels + 1] && t.peer.sendPubcomp == w.peer.sendPubcomp
  {
    hide Reaches;
    var answered := AnswerOne(cap, peerCap, w, comps, rels);
    t := Apply(answered, ClientTakes);
    Next(cap, peerCap, answered, ClientTakes, t);
  }

  /** ... with its pubrel on the way ... */
  lemma PubrelGoes(cap: nat, peerCap: nat, w: World, comps: nat) returns (t: World)
    requires MoreToCome(cap, peerCap, comps, 0) && comps < cap && Held(cap, peerCap, w, comps, 0)
    ensures Reaches(cap, peerCap, t)
    ensures t.client.callers == [] && t.client.pool == Pool([], comps + 2)
    ensures t.client.publishes.cap == cap && t.client.publishes.sendPublish == []
    ensures t.client.publishes.awaitPubrec == [] && |t.client.publishes.awaitPubcomp| == comps + 1
    ensures t.client.publishes.sendPubrel == []
    ensures t.up == [PubrelFrame(comps + 1)] && t.down == [] && t.peer.cap == peerCap && t.peer.sendPubrec == []
    ensures |t.peer.sendPubcomp| == comps && t.peer.awaitPubrel == [comps + 1]
    ensures forall p :: p in t.peer.sendPubcomp ==> p <= comps
  {
    hide Reaches;
    var released := ReleaseOne(cap, peerCap, w, comps, 0);
    t := Apply(released, SendPubrel(0));
    Next(cap, peerCap, released, SendPubrel(0), t);
  }

  /** ... and taken by the receiver, which keeps its PUBCOMP. */
  lemma CompleteOne(cap: nat, peerCap: nat, w: World, comps: nat) returns (t: World)
    requires MoreToCome(cap, peerCap, comps, 0) && comps < cap && Held(cap, peerCap, w, comps, 0)
    ensures Held(cap, peerCap, t, comps + 1, 0)
  {
    hide Reaches;
    var sent := PubrelGoes(cap, peerCap, w, comps);
    t := Apply(sent, PeerTakes);
    Next(cap, peerCap, sent, PeerTakes, t);
  }

  lemma {:induction false} HoldComps(cap: nat, peerCap: nat, n: nat) returns (w: World)
    requires n <= cap && 0 < cap < peerCap && n < MOST_PIDS
    ensures Held(cap, peerCap, w, n, 0)
  {
    hide Reaches;
    if n == 0 {
      Start(cap, peerCap);
      w := Init(cap, peerCap, 10, LIMITS);
    } else {
      var v := HoldComps(cap, peerCap, n - 1);
      w := CompleteOne(cap, peerCap, v, n - 1);
    }
  }

  lemma {:induction false} HoldPubrels(cap: nat, peerCap: nat, n: nat) returns (w: World)
    requires n <= cap && 0 < cap < peerCap && cap + n < MOST_PIDS
    ensures Held(cap, peerCap, w, cap, n)
  {
    if n == 0 {
      w := HoldComps(cap, peerCap, cap);
    } else {
      var v := HoldPubrels(cap, peerCap, n - 1);
      w := ReleaseOne(cap, peerCap, v, cap, n - 1);
    }
  }

  // ---- overflow ----

  /** A packet has arrived that finds the queue it belongs into full. */
  predicate Overflows(w: World) {
    || (w.up != [] && PeerHandles(w.peer, w.up[0]).1.Err?)
    || (w.down != [] && w.down[0].Pubrec? && |w.client.publishes.sendPubrel| >= w.client.publishes.cap)
  }

  ghost predicate NeverOverflows(cap: nat, peerCap: nat) {
    forall w :: Reaches(cap, peerCap, w) ==> !Overflows(w)
  }

  lemma SmallerReceiverOverflows(cap: nat, peerCap: nat)
    requires peerCap < cap && peerCap < MOST_PIDS
    ensures !NeverOverflows(cap, peerCap)
  {
    hide Reaches;
    var w := Collect(cap, peerCap, peerCap);
    var t := SendOne(cap, peerCap, w, peerCap);
    assert Overflows(t);
  }

  /** Both queues for pubrels are full, and one more PUBREC arrives. */
  lemma LargerReceiverOverflows(cap: nat, peerCap: nat)
    requires 0 < cap < peerCap && !Ample(cap)
    ensures !NeverOverflows(cap, peerCap)
  {
    hide Reaches;
    var w := HoldPubrels(cap, peerCap, cap);
    var t := AnswerOne(cap, peerCap, w, cap, cap);
    assert Overflows(t);
  }

  lemma SuitableNeverOverflows(cap: nat, peerCap: nat, w: World)
    requires Suitable(cap, peerCap) && Reaches(cap, peerCap, w)
    ensures !Overflows(w)
  {
    hide PeerHandles, Init, Suitable;
    assert Delivery.Reachable(w);
    Delivery.ClientAlwaysExpects(w);
    if w.up != [] {
      Delivery.ReceiverAlwaysAccepts(w);
    }
  }

  // ---- a client without room ----

  /** A client whose queues have no room sends nothing at all. */
  ghost predicate Silent(w: World) {
    && w.client.publishes.cap == 0
    && w.client.publishes.sendPublish == [] && w.client.publishes.sendPubrel == []
    && w.up == [] && w.down == []
    && w.peer.sendPuback == [] && w.peer.sendPubrec == [] && w.peer.sendPubcomp == []
  }

  lemma SilentStep(w: World, a: Step)
    requires Enabled(w, a) && Silent(w)
    ensures Silent(Apply(w, a))
  {
    hide PO.Apply;
    match a {
      case Local(b) => LocalKeepsQueues(w.client, b);
      case _ =>
    }
  }

  lemma {:induction false} SilentRun(w: World, run: seq<Step>)
    requires CanRun(w, run) && Silent(w)
    ensures Silent(Run(w, run))
    decreases |run|
  {
    hide Enabled, Apply, Silent;
    if run != [] {
      SilentStep(w, run[0]);
      SilentRun(Apply(w, run[0]), run[1..]);
    }
  }

  lemma SilentNeverOverflows(peerCap: nat, w: World)
    requires Reaches(0, peerCap, w)
    ensures !Overflows(w)
  {
    hide Enabled, Apply;
    var wireTopicSize: nat, limits, run :|
      CanRun(Init(0, peerCap, wireTopicSize, limits), run) && Run(Init(0, peerCap, wireTopicSize, limits), run) == w;
    SilentRun(Init(0, peerCap, wireTopicSize, limits), run);
  }

  // ---- the exact condition, for all capacities ----

  /** The back-pressure of the composed system is enough exactly when the client
      can send nothing, or both sides have queues of the same capacity as far as
      there are identifiers to fill them, or the receiver has more room and the
      identifiers run out before the client can fill its queues for pubrels. */
  lemma CapacitiesMustMatch(cap: nat, peerCap: nat)
    ensures NeverOverflows(cap, peerCap)
       <==> cap == 0 || Matching(cap, peerCap) || (cap < peerCap && 2 * cap + 1 > MOST_PIDS)
  {
    hide Reaches, Overflows;
    if cap == 0 {
      forall w | Reaches(0, peerCap, w)
        ensures !Overflows(w)
      {
        SilentNeverOverflows(peerCap, w);
      }
    } else if Suitable(cap, peerCap) {
      forall w | Reaches(cap, peerCap, w)
        ensures !Overflows(w)
      {
        SuitableNeverOverflows(cap, peerCap, w);
      }
    } else if peerCap < cap {
      SmallerReceiverOverflows(cap, peerCap);
    } else {
      LargerReceiverOverflows(cap, peerCap);
    }
  }
}
