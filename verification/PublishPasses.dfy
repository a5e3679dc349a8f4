/** What the result of one send pass of the publish queues says. */
module PublishPasses {
  import opened Mqtt
  import opened Seqs
  import opened PacketLink
  import opened PublishModel
  import opened PublishRuns

  // ---- the history records exactly what the connection took ----

  /** The packet that an event puts on the wire. */
  function Transmission(e: Event): seq<Packet> {
    match e
    case Sent(p, _) => [Publish(p.m)]
    case Resent(p, _) => [Publish(p.m)]
    case SentPubrel(pid, _, _) => [Pubrel(pid)]
    case ResentPubrel(pid, _, _) => [Pubrel(pid)]
    case _ => []
  }

  /** The history of `t` continues that of `s` by the packets between the links. */
  ghost predicate Accounts(s: Sender, l: Link, t: Sender, m: Link) {
    && s.log <= t.log
    && m.written == l.written + FlatMap(Transmission, t.log[|s.log|..])
    && l.attempts <= m.attempts
    && m.answers == l.answers && m.clock == l.clock
    && t.cap == s.cap
  }

  lemma AccountsTrans(s: Sender, l: Link, t: Sender, m: Link, u: Sender, n: Link)
    requires Accounts(s, l, t, m) && Accounts(t, m, u, n)
    ensures Accounts(s, l, u, n)
  {
    hide FlatMap;
    assert u.log[|s.log|..] == t.log[|s.log|..] + u.log[|t.log|..];
    FlatMapConcat(Transmission, t.log[|s.log|..], u.log[|t.log|..]);
  }

  lemma AccountsWrite(s: Sender, l: Link, t: Sender, p: Packet, e: Event)
    requires t.cap == s.cap && t.log == s.log + [e] && Transmission(e) == [p]
    ensures Accounts(s, l, t, l.Write(p))
  {
    assert t.log[|s.log|..] == [e];
    FlatMapOne(Transmission, e);
  }

  lemma AccountsTransmit(s: Sender, l: Link, i: nat)
    requires i < |s.sendPublish|
    ensures var m := l.Write(Publish(s.sendPublish[i].m)); Accounts(s, l, Transmit(s, i, m.Now()), m)
  {
    var p := s.sendPublish[i];
    var m := l.Write(Publish(p.m));
    var t := Transmit(s, i, m.Now());
    if p.m.qospid.AtMostOnce? {
      assert t.log[|s.log|..] == [Sent(p, m.Now())] + [Done(p.uid, AtMostOnce)];
      FlatMapConcat(Transmission, [Sent(p, m.Now())], [Done(p.uid, AtMostOnce)]);
      FlatMapOne(Transmission, Sent(p, m.Now()));
      FlatMapOne(Transmission, Done(p.uid, AtMostOnce));
    } else {
      AccountsWrite(s, l, t, Publish(p.m), Sent(p, m.Now()));
    }
  }

  /** A pass accounts for what it wrote, and stops early exactly when the
      connection did not accept. */
  ghost predicate Exact(s: Sender, l: Link, p: Pass<Sender>) {
    Accounts(s, l, p.state, p.link) && EndsAsAnswered(l, p)
  }

  lemma ExactStep(s: Sender, l: Link, t: Sender, m: Link, p: Pass<Sender>)
    requires Accounts(s, l, t, m) && m.attempts == l.attempts + 1 && |m.written| == |l.written| + 1 && m.last == Some(Accept)
    requires Exact(t, m, p)
    ensures Exact(s, l, p)
  {
    AccountsTrans(s, l, t, m, p.state, p.link);
  }

  lemma AccountsNothing(s: Sender, l: Link)
    ensures Accounts(s, l, s, l) && forall p :: Accounts(s, l, s, l.Skip(p))
  {
    assert s.log[|s.log|..] == [];
  }

  lemma {:induction false} SendPubrelsExact(s: Sender, i: nat, l: Link)
    requires i <= |s.sendPubrel|
    ensures Exact(s, l, SendPubrels(s, i, l))
    decreases |s.sendPubrel| - i
  {
    hide Accounts, FlatMap;
    if i < |s.sendPubrel| && |s.awaitPubcomp| >= s.cap {
      SendPubrelsExact(s, i + 1, l);
    } else if i < |s.sendPubrel| && l.Answer(Pubrel(s.sendPubrel[i].pid)) == Accept {
      var e := s.sendPubrel[i];
      var m := l.Write(Pubrel(e.pid));
      if e.uid.None? {
        AccountsWrite(s, l, SendPubrels(s, i, l).state, Pubrel(e.pid), SentPubrel(e.pid, None, m.Now()));
      } else {
        var t := TransmitPubrel(s, i, m.Now());
        AccountsWrite(s, l, t, Pubrel(e.pid), SentPubrel(e.pid, e.uid, m.Now()));
        SendPubrelsExact(t, i, m);
        ExactStep(s, l, t, m, SendPubrels(t, i, m));
      }
    } else {
      AccountsNothing(s, l);
    }
  }

  lemma {:induction false} SendPublishesExact(s: Sender, i: nat, l: Link)
    requires i <= |s.sendPublish|
    ensures Exact(s, l, SendPublishes(s, i, l))
    decreases |s.sendPublish| - i
  {
    hide Accounts, FlatMap;
    if i < |s.sendPublish| && !HasSpace(s, s.sendPublish[i]) {
      SendPublishesExact(s, i + 1, l);
    } else if i < |s.sendPublish| && l.Answer(Publish(s.sendPublish[i].m)) == Accept {
      var m := l.Write(Publish(s.sendPublish[i].m));
      var t := Transmit(s, i, m.Now());
      AccountsTransmit(s, l, i);
      SendPublishesExact(t, i, m);
      ExactStep(s, l, t, m, SendPublishes(t, i, m));
    } else {
      AccountsNothing(s, l);
    }
  }

  lemma {:induction false} ResendPubacksExact(s: Sender, i: nat, now: int, l: Link)
    requires i <= |s.awaitPuback|
    ensures Exact(s, l, ResendPubacks(s, i, now, l))
    decreases |s.awaitPuback| - i
  {
    hide Accounts, FlatMap;
    if i < |s.awaitPuback| && now - s.awaitPuback[i].sent <= RESEND_DURATION {
      ResendPubacksExact(s, i + 1, now, l);
    } else if i < |s.awaitPuback| && l.Answer(Publish(s.awaitPuback[i].publish.m)) == Accept {
      var p := s.awaitPuback[i].publish;
      var t := RepeatPuback(s, i, now);
      AccountsWrite(s, l, t, Publish(p.m), Resent(p, now));
      ResendPubacksExact(t, i + 1, now, l.Write(Publish(p.m)));
      ExactStep(s, l, t, l.Write(Publish(p.m)), ResendPubacks(t, i + 1, now, l.Write(Publish(p.m))));
    } else {
      AccountsNothing(s, l);
    }
  }

  lemma {:induction false} ResendPubrecsExact(s: Sender, i: nat, now: int, l: Link)
    requires i <= |s.awaitPubrec|
    ensures Exact(s, l, ResendPubrecs(s, i, now, l))
    decreases |s.awaitPubrec| - i
  {
    hide Accounts, FlatMap;
    if i < |s.awaitPubrec| && now - s.awaitPubrec[i].sent <= RESEND_DURATION {
      ResendPubrecsExact(s, i + 1, now, l);
    } else if i < |s.awaitPubrec| && l.Answer(Publish(s.awaitPubrec[i].publish.m)) == Accept {
      var p := s.awaitPubrec[i].publish;
      var t := RepeatPubrec(s, i, now);
      AccountsWrite(s, l, t, Publish(p.m), Resent(p, now));
      ResendPubrecsExact(t, i + 1, now, l.Write(Publish(p.m)));
      ExactStep(s, l, t, l.Write(Publish(p.m)), ResendPubrecs(t, i + 1, now, l.Write(Publish(p.m))));
    } else {
      AccountsNothing(s, l);
    }
  }

  lemma {:induction false} ResendPubrelsExact(s: Sender, i: nat, now: int, l: Link)
    requires i <= |s.awaitPubcomp|
    ensures Exact(s, l, ResendPubrels(s, i, now, l))
    decreases |s.awaitPubcomp| - i
  {
    hide Accounts, FlatMap;
    if i < |s.awaitPubcomp| && now - s.awaitPubcomp[i].sent <= RESEND_DURATION {
      ResendPubrelsExact(s, i + 1, now, l);
    } else if i < |s.awaitPubcomp| && l.Answer(Pubrel(s.awaitPubcomp[i].pid)) == Accept {
      var e := s.awaitPubcomp[i];
      var t := RepeatPubrel(s, i, now);
      AccountsWrite(s, l, t, Pubrel(e.pid), ResentPubrel(e.pid, e.uid, now));
      ResendPubrelsExact(t, i + 1, now, l.Write(Pubrel(e.pid)));
      ExactStep(s, l, t, l.Write(Pubrel(e.pid)), ResendPubrels(t, i + 1, now, l.Write(Pubrel(e.pid))));
    } else {
      AccountsNothing(s, l);
    }
  }

  lemma ExactThen(s: Sender, l: Link, p: Pass<Sender>, q: Pass<Sender>)
    requires Exact(s, l, p) && p.outcome == Ok(SentAll) && Exact(p.state, p.link, q)
    ensures Exact(s, l, q)
  {
    AccountsTrans(s, l, p.state, p.link, q.state, q.link);
  }

  /** One call of send_packets: the packets the connection took are the
      transmissions in the history, in order; the call reports SentAll (or
      panics) exactly when every attempt was accepted, and PartiallySent
      exactly when its last attempt was refused. */
  lemma SendPacketsExact(s: Sender, l: Link)
    ensures Exact(s, l, SendPackets(s, l))
  {
    hide Exact, SendPubrels, SendPublishes, ResendPubacks, ResendPubrecs, ResendPubrels;
    var p1 := SendPubrels(s, 0, l);
    SendPubrelsExact(s, 0, l);
    if p1.outcome == Ok(SentAll) {
      var p2 := SendPublishes(p1.state, 0, p1.link);
      SendPublishesExact(p1.state, 0, p1.link);
      ExactThen(s, l, p1, p2);
      if p2.outcome == Ok(SentAll) {
        var p3a := ResendPubacks(p2.state, 0, p2.link.Now(), p2.link);
        ResendPubacksExact(p2.state, 0, p2.link.Now(), p2.link);
        ExactThen(s, l, p2, p3a);
        if p3a.outcome == Ok(SentAll) {
          var p3 := ResendPubrecs(p3a.state, 0, p3a.link.Now(), p3a.link);
          ResendPubrecsExact(p3a.state, 0, p3a.link.Now(), p3a.link);
          ExactThen(s, l, p3a, p3);
          if p3.outcome == Ok(SentAll) {
            ResendPubrelsExact(p3.state, 0, p3.link.Now(), p3.link);
            ExactThen(s, l, p3, SendPackets(s, l));
          }
        }
      }
    }
  }

  // ---- what SentAll means for the queues ----

  lemma {:induction false} SendPublishesSentAll(s: Sender, i: nat, l: Link)
    requires i <= |s.sendPublish|
    requires forall j :: 0 <= j < i ==> !HasSpace(s, s.sendPublish[j])
    requires SendPublishes(s, i, l).outcome == Ok(SentAll)
    ensures var t := SendPublishes(s, i, l).state;
            && t.cap == s.cap && t.sendPubrel == s.sendPubrel && t.awaitPubcomp == s.awaitPubcomp
            && (forall j :: 0 <= j < |t.sendPublish| ==> !HasSpace(t, t.sendPublish[j]))
    decreases |s.sendPublish| - i
  {
    if i < |s.sendPublish| {
      if !HasSpace(s, s.sendPublish[i]) {
        SendPublishesSentAll(s, i + 1, l);
      } else {
        var m := l.Write(Publish(s.sendPublish[i].m));
        var t := Transmit(s, i, m.Now());
        assert forall j :: 0 <= j < i ==> t.sendPublish[j] == s.sendPublish[j];
        SendPublishesSentAll(t, i, m);
      }
    }
  }

  /** `t` differs from `s` at most in history and send times. */
  ghost predicate SameShape(s: Sender, t: Sender) {
    && t.cap == s.cap && t.sendPublish == s.sendPublish && t.sendPubrel == s.sendPubrel
    && |t.awaitPuback| == |s.awaitPuback| && |t.awaitPubrec| == |s.awaitPubrec|
    && |t.awaitPubcomp| == |s.awaitPubcomp|
  }

  lemma {:induction false} ResendPubacksSentAll(s: Sender, i: nat, now: int, l: Link)
    requires i <= |s.awaitPuback|
    requires forall j :: 0 <= j < i ==> now - s.awaitPuback[j].sent <= RESEND_DURATION
    requires ResendPubacks(s, i, now, l).outcome == Ok(SentAll)
    ensures var t := ResendPubacks(s, i, now, l).state;
            && SameShape(s, t)
            && (forall e :: e in t.awaitPuback ==> now - e.sent <= RESEND_DURATION)
    decreases |s.awaitPuback| - i
  {
    if i < |s.awaitPuback| {
      if now - s.awaitPuback[i].sent <= RESEND_DURATION {
        ResendPubacksSentAll(s, i + 1, now, l);
      } else {
        ResendPubacksSentAll(RepeatPuback(s, i, now), i + 1, now, l.Write(Publish(s.awaitPuback[i].publish.m)));
      }
    }
  }

  lemma {:induction false} ResendPubrecsSentAll(s: Sender, i: nat, now: int, l: Link)
    requires i <= |s.awaitPubrec|
    requires forall j :: 0 <= j < i ==> now - s.awaitPubrec[j].sent <= RESEND_DURATION
    requires ResendPubrecs(s, i, now, l).outcome == Ok(SentAll)
    ensures var t := ResendPubrecs(s, i, now, l).state;
            && SameShape(s, t) && t.awaitPuback == s.awaitPuback
            && (forall e :: e in t.awaitPubrec ==> now - e.sent <= RESEND_DURATION)
    decreases |s.awaitPubrec| - i
  {
    if i < |s.awaitPubrec| {
      if now - s.awaitPubrec[i].sent <= RESEND_DURATION {
        ResendPubrecsSentAll(s, i + 1, now, l);
      } else {
        ResendPubrecsSentAll(RepeatPubrec(s, i, now), i + 1, now, l.Write(Publish(s.awaitPubrec[i].publish.m)));
      }
    }
  }

  lemma {:induction false} ResendPubrelsSentAll(s: Sender, i: nat, now: int, l: Link)
    requires i <= |s.awaitPubcomp|
    requires forall j :: 0 <= j < i ==> now - s.awaitPubcomp[j].sent <= RESEND_DURATION
    requires ResendPubrels(s, i, now, l).outcome == Ok(SentAll)
    ensures var t := ResendPubrels(s, i, now, l).state;
            && SameShape(s, t) && t.awaitPuback == s.awaitPuback && t.awaitPubrec == s.awaitPubrec
            && (forall e :: e in t.awaitPubcomp ==> now - e.sent <= RESEND_DURATION)
    decreases |s.awaitPubcomp| - i
  {
    if i < |s.awaitPubcomp| {
      if now - s.awaitPubcomp[i].sent <= RESEND_DURATION {
        ResendPubrelsSentAll(s, i + 1, now, l);
      } else {
        ResendPubrelsSentAll(RepeatPubrel(s, i, now), i + 1, now, l.Write(Pubrel(s.awaitPubcomp[i].pid)));
      }
    }
  }

  /** After SentAll every queue is blocked only by the next one, and no waiting
      entry is older than the resend time by a clock read during the pass:
      the attempt numbers `n1 <= n2 <= n3` say when the clock was read. */
  lemma SentAllMeaning(s: Sender, l: Link) returns (n1: nat, n2: nat, n3: nat)
    requires SendPackets(s, l).outcome == Ok(SentAll)
    ensures l.attempts <= n1 <= n2 <= n3 <= SendPackets(s, l).link.attempts
    ensures var t := SendPackets(s, l).state;
            && (t.sendPubrel != [] ==> |t.awaitPubcomp| >= t.cap)
            && (forall p :: p in t.sendPublish ==> !HasSpace(t, p))
            && (forall e :: e in t.awaitPuback ==> l.clock(n1) - e.sent <= RESEND_DURATION)
            && (forall e :: e in t.awaitPubrec ==> l.clock(n2) - e.sent <= RESEND_DURATION)
            && (forall e :: e in t.awaitPubcomp ==> l.clock(n3) - e.sent <= RESEND_DURATION)
  {
    hide FlatMap, AllAccepted, SendPubrels, SendPublishes, ResendPubacks, ResendPubrecs, ResendPubrels;
    var p1 := SendPubrels(s, 0, l);
    SendPubrelsSentAll(s, 0, l);
    SendPubrelsExact(s, 0, l);
    var p2 := SendPublishes(p1.state, 0, p1.link);
    SendPublishesSentAll(p1.state, 0, p1.link);
    SendPublishesExact(p1.state, 0, p1.link);
    n1 := p2.link.attempts;
    var p3 := ResendPubacks(p2.state, 0, p2.link.Now(), p2.link);
    ResendPubacksSentAll(p2.state, 0, p2.link.Now(), p2.link);
    ResendPubacksExact(p2.state, 0, p2.link.Now(), p2.link);
    n2 := p3.link.attempts;
    var p4 := ResendPubrecs(p3.state, 0, p3.link.Now(), p3.link);
    ResendPubrecsSentAll(p3.state, 0, p3.link.Now(), p3.link);
    ResendPubrecsExact(p3.state, 0, p3.link.Now(), p3.link);
    n3 := p4.link.attempts;
    ResendPubrelsSentAll(p4.state, 0, p4.link.Now(), p4.link);
    ResendPubrelsExact(p4.state, 0, p4.link.Now(), p4.link);
  }

  // ---- when sending a pubrel panics ----

  /** The index of the first pubrel that nobody waits for, or the queue length. */
  function FirstAnonymous(q: seq<PubrelEntry>): (i: nat)
    ensures i <= |q|
  {
    Position(q, (e: PubrelEntry) => e.uid.None?)
  }

  lemma FirstAnonymousRest(q: seq<PubrelEntry>)
    requires q != [] && q[0].uid.Some?
    ensures FirstAnonymous(q) == 1 + FirstAnonymous(q[1..])
    ensures FirstAnonymous(q) == |q| <==> FirstAnonymous(q[1..]) == |q[1..]|
  {
  }

  /** The connection accepts these pubrels one after the other. */
  predicate Accepts(l: Link, q: seq<PubrelEntry>)
    decreases |q|
  {
    q == [] || (l.Answer(Pubrel(q[0].pid)) == Accept && Accepts(l.Write(Pubrel(q[0].pid)), q[1..]))
  }

  ghost predicate WillPanic(s: Sender, l: Link) {
    var k := FirstAnonymous(s.sendPubrel);
    k < |s.sendPubrel| && |s.awaitPubcomp| + k < s.cap && Accepts(l, s.sendPubrel[..k + 1])
  }

  lemma FirstAnonymousHead(q: seq<PubrelEntry>)
    requires q != [] && q[0].uid.None?
    ensures FirstAnonymous(q) == 0
  {
  }

  lemma AcceptsHead(l: Link, q: seq<PubrelEntry>, k: nat)
    requires k < |q|
    ensures var p := Pubrel(q[0].pid);
      Accepts(l, q[..k + 1]) <==> l.Answer(p) == Accept && Accepts(l.Write(p), q[1..][..k])
  {
    assert q[..k + 1][1..] == q[1..][..k];
  }

  lemma AcceptsNothing(l: Link, q: seq<PubrelEntry>)
    requires q == []
    ensures Accepts(l, q)
  {
  }

  lemma AcceptsTwo(l: Link, e: PubrelEntry, f: PubrelEntry)
    requires l.Answer(Pubrel(e.pid)) == Accept && l.Write(Pubrel(e.pid)).Answer(Pubrel(f.pid)) == Accept
    ensures Accepts(l, [e, f])
  {
    assert [e, f][1..] == [f] && [f][1..] == [];
    assert Accepts(l.Write(Pubrel(e.pid)), [f]);
  }

  lemma {:induction false} PubrelsSkip(s: Sender, i: nat, l: Link)
    requires i <= |s.sendPubrel| && PubrelsBlocked(s)
    ensures SendPubrels(s, i, l) == Pass(s, l, Ok(SentAll))
    decreases |s.sendPubrel| - i
  {
    if i < |s.sendPubrel| {
      PubrelsSkip(s, i + 1, l);
    }
  }

  lemma BlockedWillNotPanic(s: Sender, l: Link)
    requires PubrelsBlocked(s)
    ensures !WillPanic(s, l)
  {
    hide FirstAnonymous;
  }

  /** The first pubrel is one that somebody waits for. */
  lemma WillPanicLater(s: Sender, l: Link)
    requires s.sendPubrel != [] && s.sendPubrel[0].uid.Some? && |s.awaitPubcomp| < s.cap
    ensures var m := l.Write(Pubrel(s.sendPubrel[0].pid));
      WillPanic(s, l) <==>
        l.Answer(Pubrel(s.sendPubrel[0].pid)) == Accept && WillPanic(TransmitPubrel(s, 0, m.Now()), m)
  {
    hide Accepts, FirstAnonymous;
    FirstAnonymousRest(s.sendPubrel);
    assert RemoveAt(s.sendPubrel, 0) == s.sendPubrel[1..];
    var k := FirstAnonymous(s.sendPubrel);
    if k < |s.sendPubrel| {
      AcceptsHead(l, s.sendPubrel, k);
    }
  }

  /** The first pubrel is one that nobody waits for. */
  lemma WillPanicNow(s: Sender, l: Link)
    requires s.sendPubrel != [] && s.sendPubrel[0].uid.None? && |s.awaitPubcomp| < s.cap
    ensures WillPanic(s, l) <==> l.Answer(Pubrel(s.sendPubrel[0].pid)) == Accept
  {
    hide Accepts, FirstAnonymous;
    FirstAnonymousHead(s.sendPubrel);
    AcceptsHead(l, s.sendPubrel, 0);
    AcceptsNothing(l.Write(Pubrel(s.sendPubrel[0].pid)), s.sendPubrel[1..][..0]);
  }

  lemma {:induction false} PubrelsPanic(s: Sender, l: Link)
    ensures SendPubrels(s, 0, l).outcome == Panic <==> WillPanic(s, l)
    decreases |s.sendPubrel|
  {
    hide WillPanic;
    if PubrelsBlocked(s) {
      PubrelsSkip(s, 0, l);
      BlockedWillNotPanic(s, l);
    } else if s.sendPubrel[0].uid.None? {
      WillPanicNow(s, l);
    } else {
      WillPanicLater(s, l);
      var packet := Pubrel(s.sendPubrel[0].pid);
      if l.Answer(packet) == Accept {
        var m := l.Write(packet);
        PubrelsPanic(TransmitPubrel(s, 0, m.Now()), m);
      }
    }
  }

  lemma {:induction false} PublishesNeverPanic(s: Sender, i: nat, l: Link)
    requires i <= |s.sendPublish|
    ensures SendPublishes(s, i, l).outcome != Panic
    decreases |s.sendPublish| - i
  {
    if i < |s.sendPublish| {
      if !HasSpace(s, s.sendPublish[i]) {
        PublishesNeverPanic(s, i + 1, l);
      } else if l.Answer(Publish(s.sendPublish[i].m)) == Accept {
        var m := l.Write(Publish(s.sendPublish[i].m));
        PublishesNeverPanic(Transmit(s, i, m.Now()), i, m);
      }
    }
  }

  lemma {:induction false} ResendsNeverPanic(s: Sender, i: nat, now: int, l: Link)
    ensures i <= |s.awaitPuback| ==> ResendPubacks(s, i, now, l).outcome != Panic
    ensures i <= |s.awaitPubrec| ==> ResendPubrecs(s, i, now, l).outcome != Panic
    ensures i <= |s.awaitPubcomp| ==> ResendPubrels(s, i, now, l).outcome != Panic
    decreases |s.awaitPuback| + |s.awaitPubrec| + |s.awaitPubcomp| - i
  {
    if i < |s.awaitPuback| || i < |s.awaitPubrec| || i < |s.awaitPubcomp| {
      ResendsNeverPanic(s, i + 1, now, l);
      if i < |s.awaitPuback| {
        ResendsNeverPanic(RepeatPuback(s, i, now), i + 1, now, l.Write(Publish(s.awaitPuback[i].publish.m)));
      }
      if i < |s.awaitPubrec| {
        ResendsNeverPanic(RepeatPubrec(s, i, now), i + 1, now, l.Write(Publish(s.awaitPubrec[i].publish.m)));
      }
      if i < |s.awaitPubcomp| {
        ResendsNeverPanic(RepeatPubrel(s, i, now), i + 1, now, l.Write(Pubrel(s.awaitPubcomp[i].pid)));
      }
    }
  }

  /** The later passes of send_packets never panic. */
  lemma OnlyPubrelsPanic(s: Sender, l: Link)
    ensures SendPackets(s, l).outcome == Panic <==> SendPubrels(s, 0, l).outcome == Panic
  {
    var p1 := SendPubrels(s, 0, l);
    if p1.outcome == Ok(SentAll) {
      PublishesNeverPanic(p1.state, 0, p1.link);
      var p2 := SendPublishes(p1.state, 0, p1.link);
      if p2.outcome == Ok(SentAll) {
        ResendsNeverPanic(p2.state, 0, p2.link.Now(), p2.link);
        var p3 := ResendPubacks(p2.state, 0, p2.link.Now(), p2.link);
        if p3.outcome == Ok(SentAll) {
          ResendsNeverPanic(p3.state, 0, p3.link.Now(), p3.link);
          var p4 := ResendPubrecs(p3.state, 0, p3.link.Now(), p3.link);
          ResendsNeverPanic(p4.state, 0, p4.link.Now(), p4.link);
        }
      }
    }
  }

  /** send_packets panics exactly when an unexpected pubrec left an anonymous
      pubrel within the free room of `awaitPubcomp`, and the connection accepts
      every pubrel up to and including it. */
  lemma PanicExactly(s: Sender, l: Link)
    ensures SendPackets(s, l).outcome == Panic <==> WillPanic(s, l)
  {
    hide WillPanic, SendPubrels, SendPackets;
    PubrelsPanic(s, l);
    OnlyPubrelsPanic(s, l);
  }

  /** A QoS 2 publish is sent, repeated after the resend time, and acknowledged twice. */
  lemma TwoPubrecs(cap: nat, pub: OwnedPublish, pid: Pid, sent: int, repeated: int) returns (s: Sender)
    requires cap >= 2 && pub.m.qospid == ExactlyOnce(pid) && repeated - sent > RESEND_DURATION
    ensures Reachable(s) && s.cap == cap && s.awaitPubcomp == []
    ensures s.sendPubrel == [PubrelEntry(pid, Some(pub.uid)), PubrelEntry(pid, None)]
  {
    hide Reachable;
    InitReachable(cap);
    var s1 := Admit(Init(cap), pub);
    StepReachable(Init(cap), StepAdmit(pub));
    var s2 := Transmit(s1, 0, sent);
    StepReachable(s1, StepTransmit(0, sent));
    var s3 := RepeatPubrec(s2, 0, repeated);
    StepReachable(s2, StepRepeatPubrec(0, repeated));
    var s4 := OnPubrec(s3, pid);
    StepReachable(s3, StepPubrec(pid));
    s := OnPubrec(s4, pid);
    StepReachable(s4, StepPubrec(pid));
  }

  /** One repetition that the broker also answers is enough for the panic. */
  lemma RepetitionCanPanic(cap: nat, pub: OwnedPublish, pid: Pid, sent: int, repeated: int, l: Link)
    requires cap >= 2 && pub.m.qospid == ExactlyOnce(pid) && repeated - sent > RESEND_DURATION
    requires l.Answer(Pubrel(pid)) == Accept && l.Write(Pubrel(pid)).Answer(Pubrel(pid)) == Accept
    ensures exists s :: Reachable(s) && s.cap == cap && SendPackets(s, l).outcome == Panic
  {
    hide Reachable, SendPackets;
    var s := TwoPubrecs(cap, pub, pid, sent, repeated);
    FirstAnonymousRest(s.sendPubrel);
    FirstAnonymousHead(s.sendPubrel[1..]);
    assert s.sendPubrel[..2] == s.sendPubrel;
    AcceptsTwo(l, s.sendPubrel[0], s.sendPubrel[1]);
    PanicExactly(s, l);
  }

  // ---- every first transmission is made by some pass ----

  /** A pass that left the state as it was, on a connection that takes nothing. */
  ghost predicate Idle(s: Sender, l: Link, p: Pass<Sender>) {
    p.state == s && p.link.written == l.written && Refuses(p.link)
  }

  lemma {:induction false} PubrelsIdle(s: Sender, i: nat, l: Link)
    requires i <= |s.sendPubrel| && Refuses(l)
    ensures Idle(s, l, SendPubrels(s, i, l))
    decreases |s.sendPubrel| - i
  {
    hide Refuses;
    RefusesSkip(l);
    if i < |s.sendPubrel| && |s.awaitPubcomp| >= s.cap {
      PubrelsIdle(s, i + 1, l);
    }
  }

  lemma {:induction false} PublishesIdle(s: Sender, i: nat, l: Link)
    requires i <= |s.sendPublish| && Refuses(l)
    ensures Idle(s, l, SendPublishes(s, i, l))
    decreases |s.sendPublish| - i
  {
    hide Refuses;
    RefusesSkip(l);
    if i < |s.sendPublish| && !HasSpace(s, s.sendPublish[i]) {
      PublishesIdle(s, i + 1, l);
    }
  }

  lemma {:induction false} ResendsIdle(s: Sender, i: nat, now: int, l: Link)
    requires Refuses(l)
    ensures i <= |s.awaitPuback| ==> Idle(s, l, ResendPubacks(s, i, now, l))
    ensures i <= |s.awaitPubrec| ==> Idle(s, l, ResendPubrecs(s, i, now, l))
    ensures i <= |s.awaitPubcomp| ==> Idle(s, l, ResendPubrels(s, i, now, l))
    decreases |s.awaitPuback| + |s.awaitPubrec| + |s.awaitPubcomp| - i
  {
    hide Refuses;
    RefusesSkip(l);
    if i < |s.awaitPuback| || i < |s.awaitPubrec| || i < |s.awaitPubcomp| {
      ResendsIdle(s, i + 1, now, l);
    }
  }

  /** The passes after the pubrels. */
  lemma RestIdle(s: Sender, l: Link, p2: Pass<Sender>)
    requires Idle(s, l, p2)
    ensures p2.outcome == Ok(SentAll) ==>
              var p3 := ResendPublishes(p2.state, p2.link);
              && Idle(s, l, p3)
              && Idle(s, l, ResendPubrels(p3.state, 0, p3.link.Now(), p3.link))
  {
    hide Refuses;
    ResendsIdle(s, 0, p2.link.Now(), p2.link);
    var p3a := ResendPubacks(s, 0, p2.link.Now(), p2.link);
    ResendsIdle(s, 0, p3a.link.Now(), p3a.link);
    var p3 := ResendPublishes(s, p2.link);
    ResendsIdle(s, 0, p3.link.Now(), p3.link);
  }

  /** A pass reaches the first publish whose next queue has room. */
  lemma {:induction false} PublishesSkip(s: Sender, i: nat, k: nat, l: Link)
    requires i <= k < |s.sendPublish|
    requires forall j :: i <= j < k ==> !HasSpace(s, s.sendPublish[j])
    ensures SendPublishes(s, i, l) == SendPublishes(s, k, l)
    decreases k - i
  {
    if i < k {
      PublishesSkip(s, i + 1, k, l);
    }
  }

  lemma PublishPass(s: Sender, i: nat, now: int)
    requires Enabled(s, StepTransmit(i, now))
    ensures var p := SendPackets(s, TakesOne(now));
            p.state == Transmit(s, i, now) && p.link.written == [Publish(s.sendPublish[i].m)]
  {
    hide Refuses, ResendPublishes, ResendPubrels;
    var l := TakesOne(now);
    PubrelsSkip(s, 0, l);
    PublishesSkip(s, 0, i, l);
    var packet := Publish(s.sendPublish[i].m);
    TakesOneThenRefuses(now, packet);
    var t, m := Transmit(s, i, now), l.Write(packet);
    assert i <= |t.sendPublish| && m.written == [packet];
    PublishesIdle(t, i, m);
    RestIdle(t, m, SendPublishes(t, i, m));
  }

  lemma PubrelPass(s: Sender, now: int)
    requires Enabled(s, StepTransmitPubrel(now))
    ensures var p := SendPackets(s, TakesOne(now));
            p.state == TransmitPubrel(s, 0, now) && p.link.written == [Pubrel(s.sendPubrel[0].pid)]
  {
    hide Refuses, ResendPublishes, ResendPubrels;
    var l := TakesOne(now);
    var packet := Pubrel(s.sendPubrel[0].pid);
    TakesOneThenRefuses(now, packet);
    var t, m := TransmitPubrel(s, 0, now), l.Write(packet);
    PubrelsIdle(t, 0, m);
    var p1 := SendPubrels(t, 0, m);
    if p1.outcome == Ok(SentAll) {
      PublishesIdle(t, 0, p1.link);
      RestIdle(t, m, SendPublishes(t, 0, p1.link));
    }
  }

  /** No first transmission is enabled that a pass would not make: on a connection
      that takes one packet, send_packets makes exactly this step. */
  lemma TransmissionIsPass(s: Sender, a: Step)
    requires Enabled(s, a) && (a.StepTransmit? || a.StepTransmitPubrel?)
    ensures exists l :: SendPackets(s, l).state == Apply(s, a) && |SendPackets(s, l).link.written| == |l.written| + 1
  {
    hide SendPackets;
    if a.StepTransmit? {
      PublishPass(s, a.i, a.now);
      assert SendPackets(s, TakesOne(a.now)).state == Apply(s, a);
    } else {
      PubrelPass(s, a.now);
      assert SendPackets(s, TakesOne(a.now)).state == Apply(s, a);
    }
  }
}
