/** What a send pass of the receiver writes, and how it ends, on any connection. */
module ReceivePasses {
  import opened Mqtt
  import opened Seqs
  import opened PacketLink
  import opened ReceiveModel

  /** The packet that an event of the history put on the connection. */
  function Transmission(e: Event): seq<Packet> {
    match e
    case SentPuback(pid) => [Puback(pid)]
    case SentPubrec(pid) => [Pubrec(pid)]
    case SentPubcomp(pid) => [Pubcomp(pid)]
    case _ => []
  }

  /** The history of `t` continues that of `s` by the packets between the links. */
  ghost predicate Accounts(s: Receiver, l: Link, t: Receiver, m: Link) {
    && s.log <= t.log
    && m.written == l.written + FlatMap(Transmission, t.log[|s.log|..])
    && l.attempts <= m.attempts
    && m.answers == l.answers && m.clock == l.clock
    && t.cap == s.cap && t.limits == s.limits
  }

  ghost predicate Exact(s: Receiver, l: Link, p: Pass<Receiver>) {
    Accounts(s, l, p.state, p.link) && EndsAsAnswered(l, p)
  }

  lemma AccountsTrans(s: Receiver, l: Link, t: Receiver, m: Link, u: Receiver, n: Link)
    requires Accounts(s, l, t, m) && Accounts(t, m, u, n)
    ensures Accounts(s, l, u, n)
  {
    hide FlatMap;
    assert u.log[|s.log|..] == t.log[|s.log|..] + u.log[|t.log|..];
    FlatMapConcat(Transmission, t.log[|s.log|..], u.log[|t.log|..]);
  }

  lemma AccountsNothing(s: Receiver, l: Link)
    ensures Accounts(s, l, s, l) && forall p :: Accounts(s, l, s, l.Skip(p))
  {
    assert s.log[|s.log|..] == [];
  }

  /** One packet more, and then the rest of the pass. */
  lemma ExactStep(s: Receiver, l: Link, t: Receiver, p: Packet, e: Event, q: Pass<Receiver>)
    requires t.cap == s.cap && t.limits == s.limits && t.log == s.log + [e] && Transmission(e) == [p]
    requires Exact(t, l.Write(p), q)
    ensures Exact(s, l, q)
  {
    hide FlatMap;
    assert t.log[|s.log|..] == [e];
    FlatMapOne(Transmission, e);
    assert Accounts(s, l, t, l.Write(p));
    AccountsTrans(s, l, t, l.Write(p), q.state, q.link);
  }

  lemma {:induction false} SendPubacksExact(s: Receiver, i: nat, l: Link)
    ensures Exact(s, l, SendPubacks(s, i, l))
    decreases |s.sendPuback|
  {
    hide Accounts;
    AccountsNothing(s, l);
    if i < |s.sendPuback| {
      var pid := s.sendPuback[i];
      if l.Answer(Puback(pid)) == Accept {
        var t, m := WritePuback(s, i), l.Write(Puback(pid));
        SendPubacksExact(t, i + 1, m);
        ExactStep(s, l, t, Puback(pid), SentPuback(pid), SendPubacks(t, i + 1, m));
      }
    }
  }

  lemma {:induction false} SendPubrecsExact(s: Receiver, i: nat, l: Link)
    ensures Exact(s, l, SendPubrecs(s, i, l))
    decreases |s.sendPubrec|
  {
    hide Accounts;
    AccountsNothing(s, l);
    if i < |s.sendPubrec| && |s.awaitPubrel| < s.cap {
      var pid := s.sendPubrec[i];
      if l.Answer(Pubrec(pid)) == Accept {
        var t, m := WritePubrec(s, i), l.Write(Pubrec(pid));
        SendPubrecsExact(t, i + 1, m);
        ExactStep(s, l, t, Pubrec(pid), SentPubrec(pid), SendPubrecs(t, i + 1, m));
      }
    }
  }

  lemma {:induction false} SendPubcompsExact(s: Receiver, i: nat, l: Link)
    ensures Exact(s, l, SendPubcomps(s, i, l))
    decreases |s.sendPubcomp|
  {
    hide Accounts;
    AccountsNothing(s, l);
    if i < |s.sendPubcomp| {
      var pid := s.sendPubcomp[i];
      if l.Answer(Pubcomp(pid)) == Accept {
        var t, m := WritePubcomp(s, i), l.Write(Pubcomp(pid));
        SendPubcompsExact(t, i + 1, m);
        ExactStep(s, l, t, Pubcomp(pid), SentPubcomp(pid), SendPubcomps(t, i + 1, m));
      }
    }
  }

  lemma ExactThen(s: Receiver, l: Link, p: Pass<Receiver>, q: Pass<Receiver>)
    requires Exact(s, l, p) && p.outcome == Ok(SentAll) && Exact(p.state, p.link, q)
    ensures Exact(s, l, q)
  {
    hide FlatMap;
    AccountsTrans(s, l, p.state, p.link, q.state, q.link);
  }

  /** One call of send_packets: the packets the connection took are the
      acknowledgements that the history records, in order. It reports SentAll
      exactly when every attempt was accepted, PartiallySent exactly when the last
      one was refused, and an error exactly when that was the answer. */
  lemma SendPacketsExact(s: Receiver, l: Link)
    ensures Exact(s, l, SendPackets(s, l))
  {
    hide Exact, SendPubacks, SendPubrecs, SendPubcomps;
    var p1 := SendPubacks(s, 0, l);
    SendPubacksExact(s, 0, l);
    if p1.outcome == Ok(SentAll) {
      var p2 := SendPubrecs(p1.state, 0, p1.link);
      SendPubrecsExact(p1.state, 0, p1.link);
      ExactThen(s, l, p1, p2);
      if p2.outcome == Ok(SentAll) {
        SendPubcompsExact(p2.state, 0, p2.link);
        ExactThen(s, l, p2, SendPackets(s, l));
      }
    }
  }

  lemma {:induction false} PubacksNeverPanic(s: Receiver, i: nat, l: Link)
    ensures SendPubacks(s, i, l).outcome != Panic
    decreases |s.sendPuback|
  {
    if i < |s.sendPuback| {
      PubacksNeverPanic(WritePuback(s, i), i + 1, l.Write(Puback(s.sendPuback[i])));
    }
  }

  lemma {:induction false} PubrecsNeverPanic(s: Receiver, i: nat, l: Link)
    ensures SendPubrecs(s, i, l).outcome != Panic
    decreases |s.sendPubrec|
  {
    if i < |s.sendPubrec| {
      PubrecsNeverPanic(WritePubrec(s, i), i + 1, l.Write(Pubrec(s.sendPubrec[i])));
    }
  }

  lemma {:induction false} PubcompsNeverPanic(s: Receiver, i: nat, l: Link)
    ensures SendPubcomps(s, i, l).outcome != Panic
    decreases |s.sendPubcomp|
  {
    if i < |s.sendPubcomp| {
      PubcompsNeverPanic(WritePubcomp(s, i), i + 1, l.Write(Pubcomp(s.sendPubcomp[i])));
    }
  }

  lemma NeverPanics(s: Receiver, l: Link)
    ensures SendPackets(s, l).outcome != Panic
  {
    hide SendPubacks, SendPubrecs, SendPubcomps;
    var p1 := SendPubacks(s, 0, l);
    PubacksNeverPanic(s, 0, l);
    var p2 := SendPubrecs(p1.state, 0, p1.link);
    PubrecsNeverPanic(p1.state, 0, p1.link);
    PubcompsNeverPanic(p2.state, 0, p2.link);
  }
}
