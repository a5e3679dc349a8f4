/** What holds over every run of the incoming publishes, whatever the peer
    sends and however the connection answers. */
module ReceiveRuns {
  import opened Mqtt
  import opened Seqs
  import opened PacketLink
  import opened ReceiveModel

  // ---- the send pass is a run ----

  ghost predicate Leads(s: Receiver, t: Receiver) {
    exists run :: CanRun(s, run) && Run(s, run) == t
  }

  lemma {:induction false} RunConcat(s: Receiver, a: seq<Step>, b: seq<Step>)
    requires CanRun(s, a) && CanRun(Run(s, a), b)
    ensures CanRun(s, a + b) && Run(s, a + b) == Run(Run(s, a), b)
    decreases |a|
  {
    hide Enabled, Apply;
    if a == [] {
      assert a + b == b;
    } else {
      RunConcat(Apply(s, a[0]), a[1..], b);
      assert (a + b)[1..] == a[1..] + b;
    }
  }

  lemma LeadsSelf(s: Receiver)
    ensures Leads(s, s)
  {
    assert CanRun(s, []) && Run(s, []) == s;
  }

  lemma LeadsStep(s: Receiver, a: Step)
    requires Enabled(s, a)
    ensures Leads(s, Apply(s, a))
  {
    assert [a][1..] == [];
    assert CanRun(Apply(s, a), []);
    assert CanRun(s, [a]) && Run(s, [a]) == Apply(s, a);
  }

  lemma LeadsTrans(s: Receiver, t: Receiver, u: Receiver)
    requires Leads(s, t) && Leads(t, u)
    ensures Leads(s, u)
  {
    var a :| CanRun(s, a) && Run(s, a) == t;
    var b :| CanRun(t, b) && Run(t, b) == u;
    RunConcat(s, a, b);
  }

  lemma {:induction false} RunParameters(s: Receiver, run: seq<Step>)
    requires CanRun(s, run)
    ensures Run(s, run).cap == s.cap && Run(s, run).limits == s.limits
    decreases |run|
  {
    hide Position;
    if run != [] {
      RunParameters(Apply(s, run[0]), run[1..]);
    }
  }

  lemma ReachableLeads(s: Receiver, t: Receiver)
    requires Reachable(s) && Leads(s, t)
    ensures Reachable(t)
  {
    var run :| CanRun(s, run) && Run(s, run) == t;
    RunParameters(s, run);
    assert Leads(Init(s.cap, s.limits), s);
    LeadsTrans(Init(s.cap, s.limits), s, t);
  }

  lemma InitReachable(cap: nat, limits: Limits)
    ensures Reachable(Init(cap, limits))
  {
    assert CanRun(Init(cap, limits), []) && Run(Init(cap, limits), []) == Init(cap, limits);
  }

  lemma StepReachable(s: Receiver, a: Step)
    requires Reachable(s) && Enabled(s, a)
    ensures Reachable(Apply(s, a))
  {
    LeadsStep(s, a);
    ReachableLeads(s, Apply(s, a));
  }

  lemma {:induction false} SendPubacksLeads(s: Receiver, i: nat, l: Link)
    ensures Leads(s, SendPubacks(s, i, l).state)
    decreases |s.sendPuback|
  {
    LeadsSelf(s);
    if i < |s.sendPuback| && l.Answer(Puback(s.sendPuback[i])) == Accept {
      LeadsStep(s, StepWritePuback(i));
      SendPubacksLeads(WritePuback(s, i), i + 1, l.Write(Puback(s.sendPuback[i])));
      LeadsTrans(s, WritePuback(s, i), SendPubacks(s, i, l).state);
    }
  }

  lemma {:induction false} SendPubrecsLeads(s: Receiver, i: nat, l: Link)
    ensures Leads(s, SendPubrecs(s, i, l).state)
    decreases |s.sendPubrec|
  {
    LeadsSelf(s);
    if i < |s.sendPubrec| && |s.awaitPubrel| < s.cap && l.Answer(Pubrec(s.sendPubrec[i])) == Accept {
      LeadsStep(s, StepWritePubrec(i));
      SendPubrecsLeads(WritePubrec(s, i), i + 1, l.Write(Pubrec(s.sendPubrec[i])));
      LeadsTrans(s, WritePubrec(s, i), SendPubrecs(s, i, l).state);
    }
  }

  lemma {:induction false} SendPubcompsLeads(s: Receiver, i: nat, l: Link)
    ensures Leads(s, SendPubcomps(s, i, l).state)
    decreases |s.sendPubcomp|
  {
    LeadsSelf(s);
    if i < |s.sendPubcomp| && l.Answer(Pubcomp(s.sendPubcomp[i])) == Accept {
      LeadsStep(s, StepWritePubcomp(i));
      SendPubcompsLeads(WritePubcomp(s, i), i + 1, l.Write(Pubcomp(s.sendPubcomp[i])));
      LeadsTrans(s, WritePubcomp(s, i), SendPubcomps(s, i, l).state);
    }
  }

  /** A whole send pass is a run of the smallest steps. */
  lemma SendPacketsLeads(s: Receiver, l: Link)
    ensures Leads(s, SendPackets(s, l).state)
  {
    hide Leads;
    var p1 := SendPubacks(s, 0, l);
    SendPubacksLeads(s, 0, l);
    if p1.outcome == Ok(SentAll) {
      var p2 := SendPubrecs(p1.state, 0, p1.link);
      SendPubrecsLeads(p1.state, 0, p1.link);
      LeadsTrans(s, p1.state, p2.state);
      if p2.outcome == Ok(SentAll) {
        SendPubcompsLeads(p2.state, 0, p2.link);
        LeadsTrans(s, p2.state, SendPackets(s, l).state);
      }
    }
  }

  lemma SendPacketsReachable(s: Receiver, l: Link)
    requires Reachable(s)
    ensures Reachable(SendPackets(s, l).state)
  {
    SendPacketsLeads(s, l);
    ReachableLeads(s, SendPackets(s, l).state);
  }

  // ---- at most once ----

  ghost predicate IsDelivery(e: Event, pid: Pid) {
    e.Delivered? && e.m.qospid == ExactlyOnce(pid)
  }

  /** `w` contains a PUBREC out for `pid`. */
  ghost predicate PubrecOut(w: seq<Event>, pid: Pid) {
    exists i :: 0 <= i < |w| && w[i] == SentPubrec(pid)
  }

  /** ... followed by a PUBREL in. */
  ghost predicate PubrelIn(w: seq<Event>, pid: Pid) {
    exists i :: 0 <= i < |w| && w[i] == GotPubrel(pid) && PubrecOut(w[..i], pid)
  }

  /** ... followed by a PUBCOMP out: the handshake is complete. */
  ghost predicate PubcompOut(w: seq<Event>, pid: Pid) {
    exists i :: 0 <= i < |w| && w[i] == SentPubcomp(pid) && PubrelIn(w[..i], pid)
  }

  /** Since a delivery of `pid` (`w` is the history after it) the handshake is
      complete, or the queue of its current stage still holds the identifier. */
  ghost predicate Tracked(s: Receiver, w: seq<Event>, pid: Pid) {
    || PubcompOut(w, pid)
    || (PubrelIn(w, pid) && pid in s.sendPubcomp)
    || (PubrecOut(w, pid) && pid in s.awaitPubrel)
    || pid in s.sendPubrec
  }

  ghost predicate Guarded(s: Receiver) {
    && (forall a, pid :: 0 <= a < |s.log| && IsDelivery(s.log[a], pid) ==> Tracked(s, s.log[a + 1..], pid))
    && (forall a, b, pid :: 0 <= a < b < |s.log| && IsDelivery(s.log[a], pid) && IsDelivery(s.log[b], pid)
          ==> PubcompOut(s.log[a + 1..b], pid))
  }

  lemma StagesPersist(w: seq<Event>, e: Event, pid: Pid)
    ensures PubrecOut(w, pid) ==> PubrecOut(w + [e], pid)
    ensures PubrelIn(w, pid) ==> PubrelIn(w + [e], pid)
    ensures PubcompOut(w, pid) ==> PubcompOut(w + [e], pid)
  {
    var longer := w + [e];
    assert forall i :: 0 <= i < |w| ==> w[i] == longer[i] && w[..i] == longer[..i];
  }

  lemma AdvancePubrel(w: seq<Event>, pid: Pid)
    requires PubrecOut(w, pid)
    ensures PubrelIn(w + [GotPubrel(pid)], pid)
  {
    var w1 := w + [GotPubrel(pid)];
    assert w1[|w|] == GotPubrel(pid) && w1[..|w|] == w;
  }

  lemma StagesAdvance(w: seq<Event>, pid: Pid)
    ensures PubrecOut(w + [SentPubrec(pid)], pid)
    ensures PubrecOut(w, pid) ==> PubrelIn(w + [GotPubrel(pid)], pid)
    ensures PubrelIn(w, pid) ==> PubcompOut(w + [SentPubcomp(pid)], pid)
  {
    hide PubrelIn;
    assert (w + [SentPubrec(pid)])[|w|] == SentPubrec(pid);
    if PubrecOut(w, pid) {
      AdvancePubrel(w, pid);
    }
    var w2 := w + [SentPubcomp(pid)];
    assert w2[|w|] == SentPubcomp(pid) && w2[..|w|] == w;
  }

  /** A step that logs `e`, and that moves every tracked identifier along. */
  lemma GuardedByOne(s: Receiver, t: Receiver, e: Event)
    requires Guarded(s) && t.log == s.log + [e]
    requires forall pid :: pid in s.sendPubrec ==> pid in t.sendPubrec || (e == SentPubrec(pid) && pid in t.awaitPubrel)
    requires forall pid :: pid in s.awaitPubrel ==> pid in t.awaitPubrel || (e == GotPubrel(pid) && pid in t.sendPubcomp)
    requires forall pid :: pid in s.sendPubcomp ==> pid in t.sendPubcomp || e == SentPubcomp(pid)
    requires forall pid :: IsDelivery(e, pid) ==> !IsDup(s, pid) && pid in t.sendPubrec
    ensures Guarded(t)
  {
    hide PubrecOut, PubrelIn, PubcompOut;
    forall a, pid | 0 <= a < |t.log| && IsDelivery(t.log[a], pid)
      ensures Tracked(t, t.log[a + 1..], pid)
    {
      if a < |s.log| {
        var w := s.log[a + 1..];
        assert t.log[a + 1..] == w + [e];
        assert IsDelivery(s.log[a], pid);
        assert Tracked(s, w, pid);
        StagesPersist(w, e, pid);
        StagesAdvance(w, pid);
      }
    }
    forall a, b, pid | 0 <= a < b < |t.log| && IsDelivery(t.log[a], pid) && IsDelivery(t.log[b], pid)
      ensures PubcompOut(t.log[a + 1..b], pid)
    {
      assert t.log[a + 1..b] == s.log[a + 1..b];
      assert IsDelivery(s.log[a], pid);
      if b == |s.log| {
        assert Tracked(s, s.log[a + 1..], pid);
        assert s.log[a + 1..b] == s.log[a + 1..];
      }
    }
  }

  lemma GuardedQuiet(s: Receiver, t: Receiver)
    requires Guarded(s) && t.log == s.log
    requires forall pid :: pid in s.sendPubrec ==> pid in t.sendPubrec
    requires forall pid :: pid in s.awaitPubrel ==> pid in t.awaitPubrel
    requires forall pid :: pid in s.sendPubcomp ==> pid in t.sendPubcomp
    ensures Guarded(t)
  {
    hide PubrecOut, PubrelIn, PubcompOut;
    forall a, pid | 0 <= a < |t.log| && IsDelivery(t.log[a], pid)
      ensures Tracked(t, t.log[a + 1..], pid)
    {
      assert Tracked(s, s.log[a + 1..], pid);
    }
  }

  /** What removing one entry leaves in a queue. */
  lemma RemoveAtMembers(q: seq<Pid>, i: nat)
    requires i < |q|
    ensures forall p :: p in q ==> p in RemoveAt(q, i) || p == q[i]
  {
    forall p | p in q
      ensures p in RemoveAt(q, i) || p == q[i]
    {
      var j :| 0 <= j < |q| && q[j] == p;
      if j < i {
        assert RemoveAt(q, i)[j] == p;
      } else if j > i {
        assert RemoveAt(q, i)[j - 1] == p;
      }
    }
  }

  lemma GuardedStep(s: Receiver, a: Step)
    requires Guarded(s) && Enabled(s, a)
    ensures Guarded(Apply(s, a))
  {
    hide Guarded, Position;
    var t := Apply(s, a);
    match a {
      case StepPublish(m) =>
        if t.log == s.log {
          GuardedQuiet(s, t);
        } else {
          GuardedByOne(s, t, t.log[|s.log|]);
        }
      case StepPubrel(pid) =>
        if t.log == s.log {
          GuardedQuiet(s, t);
        } else {
          var i := Position(s.awaitPubrel, Is(pid));
          if i < |s.awaitPubrel| {
            RemoveAtMembers(s.awaitPubrel, i);
          }
          assert pid in t.sendPubcomp;
          GuardedByOne(s, t, GotPubrel(pid));
        }
      case StepWritePuback(i) => GuardedByOne(s, t, SentPuback(s.sendPuback[i]));
      case StepWritePubrec(i) =>
        RemoveAtMembers(s.sendPubrec, i);
        GuardedByOne(s, t, SentPubrec(s.sendPubrec[i]));
      case StepWritePubcomp(i) =>
        RemoveAtMembers(s.sendPubcomp, i);
        GuardedByOne(s, t, SentPubcomp(s.sendPubcomp[i]));
    }
  }

  ghost predicate Bounded(s: Receiver) {
    && |s.sendPuback| <= s.cap && |s.sendPubrec| <= s.cap
    && |s.awaitPubrel| <= s.cap && |s.sendPubcomp| <= s.cap
  }

  lemma BoundedStep(s: Receiver, a: Step)
    requires Bounded(s) && Enabled(s, a)
    ensures Bounded(Apply(s, a))
  {
    hide Position;
  }

  lemma {:induction false} InvRun(s: Receiver, run: seq<Step>)
    requires Guarded(s) && Bounded(s) && CanRun(s, run)
    ensures Guarded(Run(s, run)) && Bounded(Run(s, run))
    decreases |run|
  {
    hide Guarded, Bounded, Enabled, Apply;
    if run != [] {
      GuardedStep(s, run[0]);
      BoundedStep(s, run[0]);
      InvRun(Apply(s, run[0]), run[1..]);
    }
  }

  lemma ReachableInv(s: Receiver)
    requires Reachable(s)
    ensures Guarded(s) && Bounded(s)
  {
    var run :| CanRun(Init(s.cap, s.limits), run) && Run(Init(s.cap, s.limits), run) == s;
    InvRun(Init(s.cap, s.limits), run);
  }

  lemma HandshakeWitness(w: seq<Event>, pid: Pid) returns (pubrec: nat, pubrel: nat, pubcomp: nat)
    requires PubcompOut(w, pid)
    ensures pubrec < pubrel < pubcomp < |w|
    ensures w[pubrec] == SentPubrec(pid) && w[pubrel] == GotPubrel(pid) && w[pubcomp] == SentPubcomp(pid)
  {
    pubcomp :| 0 <= pubcomp < |w| && w[pubcomp] == SentPubcomp(pid) && PubrelIn(w[..pubcomp], pid);
    var v := w[..pubcomp];
    pubrel :| 0 <= pubrel < |v| && v[pubrel] == GotPubrel(pid) && PubrecOut(v[..pubrel], pid);
    var u := v[..pubrel];
    pubrec :| 0 <= pubrec < |u| && u[pubrec] == SentPubrec(pid);
  }

  /** Between two deliveries of one QoS 2 identifier lies a complete handshake:
      PUBREC out, then PUBREL in, then PUBCOMP out. The peer may send anything
      and the connection may refuse anything. */
  lemma AtMostOnce(s: Receiver, pid: Pid, a: nat, b: nat) returns (pubrec: nat, pubrel: nat, pubcomp: nat)
    requires Reachable(s)
    requires a < b < |s.log| && IsDelivery(s.log[a], pid) && IsDelivery(s.log[b], pid)
    ensures a < pubrec < pubrel < pubcomp < b
    ensures s.log[pubrec] == SentPubrec(pid)
    ensures s.log[pubrel] == GotPubrel(pid)
    ensures s.log[pubcomp] == SentPubcomp(pid)
  {
    hide Reachable, Tracked, PubcompOut, Bounded;
    ReachableInv(s);
    var w := s.log[a + 1..b];
    var i, j, k := HandshakeWitness(w, pid);
    pubrec, pubrel, pubcomp := a + 1 + i, a + 1 + j, a + 1 + k;
  }
}
