/** How the receiver's send pass drains its queues, and where its duplicate
    detection goes too far. */
module ReceiveTheorems {
  import opened Mqtt
  import opened Seqs
  import opened PacketLink
  import opened ReceiveModel
  import opened ReceiveRuns

  /** The entries at positions 0, 2, 4, ... */
  function Evens<T>(q: seq<T>): seq<T> {
    if |q| == 0 then [] else if |q| == 1 then q else [q[0]] + Evens(q[2..])
  }

  /** The entries at positions 1, 3, 5, ... */
  function Odds<T>(q: seq<T>): seq<T> {
    if |q| <= 1 then [] else [q[1]] + Odds(q[2..])
  }

  lemma {:induction false} EvensAndOdds<T>(q: seq<T>)
    ensures |Evens(q)| == (|q| + 1) / 2 && |Odds(q)| == |q| / 2
    ensures forall j :: 0 <= j < |Evens(q)| ==> Evens(q)[j] == q[2 * j]
    ensures forall j :: 0 <= j < |Odds(q)| ==> Odds(q)[j] == q[2 * j + 1]
  {
    if |q| > 1 {
      var r := q[2..];
      EvensAndOdds(r);
      forall j | 0 <= j < |Evens(q)|
        ensures Evens(q)[j] == q[2 * j]
      {
        if j > 0 {
          assert Evens(q)[j] == Evens(r)[j - 1] == r[2 * (j - 1)];
        }
      }
      forall j | 0 <= j < |Odds(q)|
        ensures Odds(q)[j] == q[2 * j + 1]
      {
        if j > 0 {
          assert Odds(q)[j] == Odds(r)[j - 1] == r[2 * (j - 1) + 1];
        }
      }
    }
  }

  function PubackOf(pid: Pid): seq<Packet> { [Puback(pid)] }

  function PubcompOf(pid: Pid): seq<Packet> { [Pubcomp(pid)] }

  ghost predicate Accepting(l: Link) {
    forall n: nat, taken, p :: l.answers(n, taken, p) == Accept
  }

  /** What the loop at index `i` will leave of a queue ... */
  function Kept(q: seq<Pid>, i: nat): seq<Pid> {
    if i >= |q| then q else q[..i] + Odds(q[i..])
  }

  /** ... and what it will write. */
  function Due(q: seq<Pid>, i: nat): seq<Pid> {
    if i >= |q| then [] else Evens(q[i..])
  }

  lemma HalvesUnfold(q: seq<Pid>)
    requires |q| >= 2
    ensures Odds(q) == [q[1]] + Odds(q[2..]) && Evens(q) == [q[0]] + Evens(q[2..])
    ensures Odds<Pid>([]) == [] && Evens<Pid>([]) == []
  {
  }

  lemma HalvesBagTail(q: seq<Pid>, r: seq<Pid>)
    requires |q| > 1 && r == q[2..] && multiset(r) == multiset(Evens(r)) + multiset(Odds(r))
    ensures multiset(q) == multiset(Evens(q)) + multiset(Odds(q))
  {
    hide Evens, Odds;
    HalvesUnfold(q);
    assert q == [q[0]] + [q[1]] + r;
  }

  /** Nothing is lost or doubled between the two halves. */
  lemma {:induction false} HalvesBag(q: seq<Pid>)
    ensures multiset(q) == multiset(Evens(q)) + multiset(Odds(q))
  {
    if |q| > 1 {
      HalvesBag(q[2..]);
      HalvesBagTail(q, q[2..]);
    }
  }

  lemma HalvesOfOne(x: Pid)
    ensures Odds([x]) == [] && Evens([x]) == [x]
  {
  }

  lemma LoopStep(q: seq<Pid>, i: nat)
    requires i < |q|
    ensures Kept(q, i) == Kept(RemoveAt(q, i), i + 1)
    ensures Due(q, i) == [q[i]] + Due(RemoveAt(q, i), i + 1)
  {
    hide Odds, Evens;
    var r := RemoveAt(q, i);
    if i + 1 < |q| {
      assert q[i..][2..] == q[i + 2..] == r[i + 1..];
      assert q[i..][0] == q[i] && q[i..][1] == q[i + 1];
      HalvesUnfold(q[i..]);
      assert r[..i + 1] == q[..i] + [q[i + 1]];
      if i + 1 == |r| {
        assert r[..i + 1] == r;
        assert r[i + 1..] == [];
      }
    } else {
      HalvesOfOne(q[i]);
      assert q[i..] == [q[i]];
      assert r == q[..i];
    }
  }

  lemma LoopEnds(q: seq<Pid>, i: nat)
    ensures i >= |q| ==> Kept(q, i) == q && Due(q, i) == []
    ensures Kept(q, 0) == Odds(q) && Due(q, 0) == Evens(q)
  {
    assert q[0..] == q;
  }

  lemma {:induction false} PubacksDrain(s: Receiver, i: nat, l: Link)
    requires Accepting(l)
    ensures var p := SendPubacks(s, i, l);
            && p.outcome == Ok(SentAll)
            && p.state == s.(sendPuback := Kept(s.sendPuback, i), log := p.state.log)
            && p.link.written == l.written + FlatMap(PubackOf, Due(s.sendPuback, i))
            && Accepting(p.link)
    decreases |s.sendPuback|
  {
    hide Kept, Due;
    LoopEnds(s.sendPuback, i);
    if i < |s.sendPuback| {
      var t := WritePuback(s, i);
      PubacksDrain(t, i + 1, l.Write(Puback(s.sendPuback[i])));
      LoopStep(s.sendPuback, i);
      FlatMapConcat(PubackOf, [s.sendPuback[i]], Due(t.sendPuback, i + 1));
      FlatMapOne(PubackOf, s.sendPuback[i]);
    }
  }

  lemma {:induction false} PubcompsDrain(s: Receiver, i: nat, l: Link)
    requires Accepting(l)
    ensures var p := SendPubcomps(s, i, l);
            && p.outcome == Ok(SentAll)
            && p.state == s.(sendPubcomp := Kept(s.sendPubcomp, i), log := p.state.log)
            && p.link.written == l.written + FlatMap(PubcompOf, Due(s.sendPubcomp, i))
            && Accepting(p.link)
    decreases |s.sendPubcomp|
  {
    hide Kept, Due;
    LoopEnds(s.sendPubcomp, i);
    if i < |s.sendPubcomp| {
      var t := WritePubcomp(s, i);
      PubcompsDrain(t, i + 1, l.Write(Pubcomp(s.sendPubcomp[i])));
      LoopStep(s.sendPubcomp, i);
      FlatMapConcat(PubcompOf, [s.sendPubcomp[i]], Due(t.sendPubcomp, i + 1));
      FlatMapOne(PubcompOf, s.sendPubcomp[i]);
    }
  }

  function PubrecOf(pid: Pid): seq<Packet> { [Pubrec(pid)] }

  /** The identifiers that the pubrec loop moves on: those it would write, as far
      as `awaitPubrel` has room. */
  function Moved(s: Receiver, i: nat): seq<Pid> {
    var room := if |s.awaitPubrel| < s.cap then s.cap - |s.awaitPubrel| else 0;
    Due(s.sendPubrec, i)[..Min(|Due(s.sendPubrec, i)|, room)]
  }

  lemma MovedStep(s: Receiver, i: nat)
    requires i < |s.sendPubrec| && |s.awaitPubrel| < s.cap
    ensures Moved(s, i) == [s.sendPubrec[i]] + Moved(WritePubrec(s, i), i + 1)
    ensures Moved(s, i) == Due(s.sendPubrec, i) <==>
      Moved(WritePubrec(s, i), i + 1) == Due(WritePubrec(s, i).sendPubrec, i + 1)
  {
    hide Due, Kept;
    LoopStep(s.sendPubrec, i);
  }

  lemma PubrecsHead(written: seq<Packet>, pid: Pid, rest: seq<Pid>)
    ensures written + FlatMap(PubrecOf, [pid] + rest) == written + [Pubrec(pid)] + FlatMap(PubrecOf, rest)
  {
    FlatMapConcat(PubrecOf, [pid], rest);
    FlatMapOne(PubrecOf, pid);
  }

  lemma EntryMoves(q: seq<Pid>, i: nat, left: seq<Pid>, moved: seq<Pid>)
    requires i < |q| && multiset(left) + multiset(moved) == multiset(RemoveAt(q, i))
    ensures multiset(left) + multiset([q[i]] + moved) == multiset(q)
  {
    RemoveSplits(q, i);
  }

  lemma NothingMoves(s: Receiver, i: nat)
    requires i >= |s.sendPubrec| || |s.awaitPubrel| >= s.cap
    ensures Moved(s, i) == [] && FlatMap(PubrecOf, Moved(s, i)) == []
    ensures Moved(s, i) == Due(s.sendPubrec, i) ==> i >= |s.sendPubrec|
  {
    if i < |s.sendPubrec| {
      EvensAndOdds(s.sendPubrec[i..]);
    }
  }

  /** The pubrec loop reports SentAll however many entries it leaves behind. */
  lemma {:induction false} PubrecsDrain(s: Receiver, i: nat, l: Link)
    requires Accepting(l)
    ensures var p := SendPubrecs(s, i, l);
            && p.outcome == Ok(SentAll)
            && p.state == s.(sendPubrec := p.state.sendPubrec, awaitPubrel := s.awaitPubrel + Moved(s, i), log := p.state.log)
            && p.link.written == l.written + FlatMap(PubrecOf, Moved(s, i))
            && Accepting(p.link)
    decreases |s.sendPubrec|
  {
    hide Kept, Due, Moved, FlatMap;
    if i < |s.sendPubrec| && |s.awaitPubrel| < s.cap {
      var t, pid := WritePubrec(s, i), s.sendPubrec[i];
      PubrecsDrain(t, i + 1, l.Write(Pubrec(pid)));
      MovedStep(s, i);
      PubrecsHead(l.written, pid, Moved(t, i + 1));
    } else {
      NothingMoves(s, i);
    }
  }

  /** What it leaves: everything that it does not move, and the odd-positioned
      entries if it could move all others. */
  lemma {:induction false} PubrecsLeave(s: Receiver, i: nat, l: Link)
    requires Accepting(l)
    ensures var left := SendPubrecs(s, i, l).state.sendPubrec;
            && multiset(left) + multiset(Moved(s, i)) == multiset(s.sendPubrec)
            && (Moved(s, i) == Due(s.sendPubrec, i) ==> left == Kept(s.sendPubrec, i))
    decreases |s.sendPubrec|
  {
    hide Kept, Due, Moved;
    LoopEnds(s.sendPubrec, i);
    if i < |s.sendPubrec| && |s.awaitPubrel| < s.cap {
      var t, pid := WritePubrec(s, i), s.sendPubrec[i];
      PubrecsLeave(t, i + 1, l.Write(Pubrec(pid)));
      LoopStep(s.sendPubrec, i);
      MovedStep(s, i);
      EntryMoves(s.sendPubrec, i, SendPubrecs(t, i + 1, l.Write(Pubrec(pid))).state.sendPubrec, Moved(t, i + 1));
    } else {
      NothingMoves(s, i);
    }
  }

  /** One pass over a connection that accepts everything writes exactly the
      even-positioned pubacks, the even-positioned pubrecs as far as `awaitPubrel`
      has room, then the even-positioned pubcomps, keeps the others in order, and
      says SentAll. */
  lemma OnePass(s: Receiver, l: Link)
    requires Accepting(l)
    ensures var p := SendPackets(s, l);
            var room := if |s.awaitPubrel| < s.cap then s.cap - |s.awaitPubrel| else 0;
            var pubrecs := Evens(s.sendPubrec)[..Min(|Evens(s.sendPubrec)|, room)];
            && p.outcome == Ok(SentAll)
            && p.state.sendPuback == Odds(s.sendPuback)
            && p.state.sendPubcomp == Odds(s.sendPubcomp)
            && p.state.awaitPubrel == s.awaitPubrel + pubrecs
            && multiset(p.state.sendPubrec) + multiset(pubrecs) == multiset(s.sendPubrec)
            && (|Evens(s.sendPubrec)| <= room ==> p.state.sendPubrec == Odds(s.sendPubrec))
            && p.link.written == l.written + FlatMap(PubackOf, Evens(s.sendPuback)) + FlatMap(PubrecOf, pubrecs)
                                 + FlatMap(PubcompOf, Evens(s.sendPubcomp))
            && Accepting(p.link)
  {
    hide Kept, Due, FlatMap, Evens, Odds;
    var p1 := SendPubacks(s, 0, l);
    PubacksDrain(s, 0, l);
    LoopEnds(s.sendPuback, 0);
    var p2 := SendPubrecs(p1.state, 0, p1.link);
    PubrecsDrain(p1.state, 0, p1.link);
    PubrecsLeave(p1.state, 0, p1.link);
    LoopEnds(s.sendPubrec, 0);
    PubcompsDrain(p2.state, 0, p2.link);
    LoopEnds(s.sendPubcomp, 0);
  }

  /** The state after `k` passes without arrivals. */
  function Passes(s: Receiver, l: Link, k: nat): Pass<Receiver>
    decreases k
  {
    if k == 0 then Pass(s, l, Ok(SentAll))
    else var p := SendPackets(s, l); Passes(p.state, p.link, k - 1)
  }

  function Pow2(k: nat): nat {
    if k == 0 then 1 else 2 * Pow2(k - 1)
  }

  lemma HalfTwice(n: nat, k: nat)
    ensures n / 2 >= Pow2(k) <==> n >= Pow2(k + 1)
  {
  }

  /** Without arrivals, the acknowledgements are all written after `k` passes
      exactly if the queue was shorter than 2 to the k. */
  lemma {:induction false} PassesDrain(s: Receiver, l: Link, k: nat)
    requires Accepting(l)
    ensures Passes(s, l, k).state.sendPuback == [] <==> |s.sendPuback| < Pow2(k)
    ensures Passes(s, l, k).state.sendPubcomp == [] <==> |s.sendPubcomp| < Pow2(k)
    decreases k
  {
    hide SendPackets;
    if k > 0 {
      var p := SendPackets(s, l);
      OnePass(s, l);
      EvensAndOdds(s.sendPuback);
      EvensAndOdds(s.sendPubcomp);
      PassesDrain(p.state, p.link, k - 1);
      HalfTwice(|s.sendPuback|, k - 1);
      HalfTwice(|s.sendPubcomp|, k - 1);
    }
  }

  // ---- delivery of QoS 2 publishes ----

  /** A fitting QoS 2 publish is handed to the application exactly if none of
      the queues holds its identifier and `sendPubrec` has room. */
  lemma DeliveredExactly(s: Receiver, m: Message)
    requires m.qospid.ExactlyOnce? && CopyError(s.limits, m).None?
    ensures OnPublish(s, m).0.log == s.log + [Delivered(m)]
       <==> |s.sendPubrec| < s.cap && !IsDup(s, m.qospid.pid)
    ensures OnPublish(s, m).1 == Ok(()) <==> |s.sendPubrec| < s.cap
  {
    var t := OnPublish(s, m).0;
    if t.log == s.log + [Delivered(m)] {
      assert t.log[|s.log|] == Delivered(m);
    }
  }

  // ---- which identifiers count as duplicates, by the history alone ----

  /** A QoS 2 publish that was taken, handed over or not. */
  function TakenPid(e: Event): seq<Pid> {
    match e
    case Delivered(m) => if m.qospid.ExactlyOnce? then [m.qospid.pid] else []
    case Suppressed(pid) => [pid]
    case _ => []
  }

  function PubrecPid(e: Event): seq<Pid> { if e.SentPubrec? then [e.pid] else [] }

  function PubrelPid(e: Event): seq<Pid> { if e.GotPubrel? then [e.pid] else [] }

  function PubcompPid(e: Event): seq<Pid> { if e.SentPubcomp? then [e.pid] else [] }

  /** The PUBRECs out that no later PUBREL has released yet; a PUBREL that finds
      none releases nothing. */
  function Unreleased(log: seq<Event>, pid: Pid): nat {
    if log == [] then 0 else
    var before := Unreleased(log[..|log| - 1], pid);
    match log[|log| - 1]
    case SentPubrec(p) => if p == pid then before + 1 else before
    case GotPubrel(p) => if p == pid && before > 0 then before - 1 else before
    case _ => before
  }

  /** The queues hold what the history says is still to be answered. */
  ghost predicate Accounted(s: Receiver) {
    && Bag(TakenPid, s.log) == multiset(s.sendPubrec) + Bag(PubrecPid, s.log)
    && Bag(PubrelPid, s.log) == multiset(s.sendPubcomp) + Bag(PubcompPid, s.log)
    && forall pid :: multiset(s.awaitPubrel)[pid] == Unreleased(s.log, pid)
  }

  lemma LogBags(log: seq<Event>, e: Event)
    ensures Bag(TakenPid, log + [e]) == Bag(TakenPid, log) + multiset(TakenPid(e))
    ensures Bag(PubrecPid, log + [e]) == Bag(PubrecPid, log) + multiset(PubrecPid(e))
    ensures Bag(PubrelPid, log + [e]) == Bag(PubrelPid, log) + multiset(PubrelPid(e))
    ensures Bag(PubcompPid, log + [e]) == Bag(PubcompPid, log) + multiset(PubcompPid(e))
  {
    BagSnoc(TakenPid, log, e);
    BagSnoc(PubrecPid, log, e);
    BagSnoc(PubrelPid, log, e);
    BagSnoc(PubcompPid, log, e);
  }

  lemma UnreleasedSnoc(log: seq<Event>, e: Event, pid: Pid)
    ensures Unreleased(log + [e], pid) ==
      match e
      case SentPubrec(p) => if p == pid then Unreleased(log, pid) + 1 else Unreleased(log, pid)
      case GotPubrel(p) => if p == pid && Unreleased(log, pid) > 0 then Unreleased(log, pid) - 1 else Unreleased(log, pid)
      case _ => Unreleased(log, pid)
  {
    assert (log + [e])[..|log|] == log;
  }

  lemma AccountedSame(s: Receiver, t: Receiver)
    requires Accounted(s)
    requires t.log == s.log && t.sendPubrec == s.sendPubrec && t.awaitPubrel == s.awaitPubrel && t.sendPubcomp == s.sendPubcomp
    ensures Accounted(t)
  {
  }

  lemma AccountedTaken(s: Receiver, t: Receiver, e: Event)
    requires Accounted(s) && (e.Delivered? || e.Suppressed?) && t.log == s.log + [e]
    requires t.sendPubrec == s.sendPubrec + TakenPid(e) && t.awaitPubrel == s.awaitPubrel && t.sendPubcomp == s.sendPubcomp
    ensures Accounted(t)
  {
    hide Bag, Unreleased;
    LogBags(s.log, e);
    forall pid
      ensures Unreleased(t.log, pid) == Unreleased(s.log, pid)
    {
      UnreleasedSnoc(s.log, e, pid);
    }
  }

  lemma AccountedPublish(s: Receiver, m: Message)
    requires Accounted(s)
    ensures Accounted(OnPublish(s, m).0)
  {
    hide Accounted, IsDup, CopyError;
    var t := OnPublish(s, m).0;
    if |t.log| > |s.log| {
      AccountedTaken(s, t, t.log[|s.log|]);
    } else {
      AccountedSame(s, t);
    }
  }

  lemma AccountedPubrel(s: Receiver, pid: Pid)
    requires Accounted(s)
    ensures Accounted(OnPubrel(s, pid).0)
  {
    hide Bag, Unreleased, Position;
    var t := OnPubrel(s, pid).0;
    if t.log != s.log {
      LogBags(s.log, GotPubrel(pid));
      var i := Position(s.awaitPubrel, Is(pid));
      if i < |s.awaitPubrel| {
        RemoveSplits(s.awaitPubrel, i);
      } else {
        assert forall j :: 0 <= j < |s.awaitPubrel| ==> !Is(pid)(s.awaitPubrel[j]);
      }
      forall p
        ensures multiset(t.awaitPubrel)[p] == Unreleased(t.log, p)
      {
        UnreleasedSnoc(s.log, GotPubrel(pid), p);
      }
    }
  }

  /** A reply that leaves one of the queues. */
  lemma AccountedReply(s: Receiver, t: Receiver, e: Event)
    requires Accounted(s) && t.log == s.log + [e] && (e.SentPuback? || e.SentPubrec? || e.SentPubcomp?)
    requires multiset(s.sendPubrec) == multiset(t.sendPubrec) + multiset(PubrecPid(e))
    requires multiset(t.awaitPubrel) == multiset(s.awaitPubrel) + multiset(PubrecPid(e))
    requires multiset(s.sendPubcomp) == multiset(t.sendPubcomp) + multiset(PubcompPid(e))
    ensures Accounted(t)
  {
    hide Bag, Unreleased;
    LogBags(s.log, e);
    forall p
      ensures multiset(t.awaitPubrel)[p] == Unreleased(t.log, p)
    {
      UnreleasedSnoc(s.log, e, p);
    }
  }

  lemma AccountedWrite(s: Receiver, a: Step)
    requires Accounted(s) && Enabled(s, a) && (a.StepWritePuback? || a.StepWritePubrec? || a.StepWritePubcomp?)
    ensures Accounted(Apply(s, a))
  {
    hide Accounted;
    match a {
      case StepWritePuback(i) => AccountedReply(s, Apply(s, a), SentPuback(s.sendPuback[i]));
      case StepWritePubrec(i) =>
        RemoveSplits(s.sendPubrec, i);
        AccountedReply(s, Apply(s, a), SentPubrec(s.sendPubrec[i]));
      case StepWritePubcomp(i) =>
        RemoveSplits(s.sendPubcomp, i);
        AccountedReply(s, Apply(s, a), SentPubcomp(s.sendPubcomp[i]));
    }
  }

  lemma {:induction false} AccountedRun(s: Receiver, run: seq<Step>)
    requires Accounted(s) && CanRun(s, run)
    ensures Accounted(Run(s, run))
    decreases |run|
  {
    hide Accounted;
    if run != [] {
      match run[0] {
        case StepPublish(m) => AccountedPublish(s, m);
        case StepPubrel(pid) => AccountedPubrel(s, pid);
        case _ => AccountedWrite(s, run[0]);
      }
      AccountedRun(Apply(s, run[0]), run[1..]);
    }
  }

  lemma AccountedCounts(s: Receiver, pid: Pid)
    requires Accounted(s)
    ensures Bag(TakenPid, s.log)[pid] == multiset(s.sendPubrec)[pid] + Bag(PubrecPid, s.log)[pid]
    ensures Bag(PubrelPid, s.log)[pid] == multiset(s.sendPubcomp)[pid] + Bag(PubcompPid, s.log)[pid]
    ensures multiset(s.awaitPubrel)[pid] == Unreleased(s.log, pid)
  {
  }

  lemma AccountedInit(cap: nat, limits: Limits)
    ensures Accounted(Init(cap, limits))
  {
  }

  /** An identifier counts as a duplicate exactly while the history still owes it
      something: a PUBREC for a publish taken, a PUBREL for a PUBREC sent, or a
      PUBCOMP for a PUBREL received. */
  lemma DuplicateExactly(s: Receiver, pid: Pid)
    requires Reachable(s)
    ensures IsDup(s, pid) <==>
      || Bag(TakenPid, s.log)[pid] > Bag(PubrecPid, s.log)[pid]
      || Unreleased(s.log, pid) > 0
      || Bag(PubrelPid, s.log)[pid] > Bag(PubcompPid, s.log)[pid]
  {
    hide Bag, Unreleased;
    var run :| CanRun(Init(s.cap, s.limits), run) && Run(Init(s.cap, s.limits), run) == s;
    AccountedInit(s.cap, s.limits);
    AccountedRun(Init(s.cap, s.limits), run);
    AccountedCounts(s, pid);
    assert pid in s.awaitPubrel <==> pid in multiset(s.awaitPubrel);
    assert pid in s.sendPubrec <==> pid in multiset(s.sendPubrec);
    assert pid in s.sendPubcomp <==> pid in multiset(s.sendPubcomp);
  }

  /** A peer that sends a PUBREL only for a PUBREC it has not yet released. */
  ghost predicate Regular(log: seq<Event>, pid: Pid) {
    forall i :: 0 <= i <= |log| ==> Bag(PubrelPid, log[..i])[pid] <= Bag(PubrecPid, log[..i])[pid]
  }

  lemma EmptyBalance(pid: Pid)
    ensures Unreleased([], pid) == 0 && Bag(PubrecPid, [])[pid] == 0 && Bag(PubrelPid, [])[pid] == 0
  {
  }

  lemma {:induction false} UnreleasedBalance(log: seq<Event>, pid: Pid)
    requires Regular(log, pid)
    ensures Unreleased(log, pid) + Bag(PubrelPid, log)[pid] == Bag(PubrecPid, log)[pid]
    decreases |log|
  {
    hide Bag, Unreleased;
    assert log[..|log|] == log;
    if log == [] {
      EmptyBalance(pid);
    } else {
      var before, e := log[..|log| - 1], log[|log| - 1];
      assert log == before + [e];
      assert forall i :: 0 <= i <= |before| ==> before[..i] == log[..i];
      UnreleasedBalance(before, pid);
      UnreleasedSnoc(before, e, pid);
      LogBags(before, e);
    }
  }

  /** For such a peer an identifier is free for a new publish exactly when its
      handshakes balance: as many publishes taken as PUBRECs out, PUBRELs in and
      PUBCOMPs out. */
  lemma FreshExactly(s: Receiver, pid: Pid)
    requires Reachable(s) && Regular(s.log, pid)
    ensures !IsDup(s, pid) <==>
      && Bag(TakenPid, s.log)[pid] <= Bag(PubrecPid, s.log)[pid]
      && Bag(PubrecPid, s.log)[pid] == Bag(PubrelPid, s.log)[pid]
      && Bag(PubrelPid, s.log)[pid] <= Bag(PubcompPid, s.log)[pid]
  {
    hide Bag, Unreleased, IsDup, Reachable, Regular;
    DuplicateExactly(s, pid);
    UnreleasedBalance(s.log, pid);
  }

  /** A delivered publish, its PUBREC, and then its PUBREL twice. */
  lemma TwoPubrels(cap: nat, limits: Limits, m: Message, pid: Pid) returns (s: Receiver)
    requires cap >= 2 && m.qospid == ExactlyOnce(pid) && CopyError(limits, m).None?
    ensures Reachable(s)
    ensures s == Receiver(cap, limits, [], [], [], [pid, pid],
                          [Delivered(m), SentPubrec(pid), GotPubrel(pid), GotPubrel(pid)])
  {
    hide Reachable;
    InitReachable(cap, limits);
    var s1 := OnPublish(Init(cap, limits), m).0;
    StepReachable(Init(cap, limits), StepPublish(m));
    var s2 := WritePubrec(s1, 0);
    StepReachable(s1, StepWritePubrec(0));
    var s3 := OnPubrel(s2, pid).0;
    StepReachable(s2, StepPubrel(pid));
    s := OnPubrel(s3, pid).0;
    StepReachable(s3, StepPubrel(pid));
  }

  /** Duplicate detection goes too far: a peer that repeats its PUBREL, gets its
      PUBCOMP and then reuses the identifier for a new publish is answered as if
      that publish were a duplicate, and the application never sees it. The
      second pubcomp, skipped by the pass that wrote the first, hides it. */
  lemma RepeatedPubrelHidesPublish(cap: nat, limits: Limits, m: Message, second: Message, pid: Pid, l: Link)
    requires cap >= 2 && Accepting(l)
    requires m.qospid == ExactlyOnce(pid) && second.qospid == ExactlyOnce(pid)
    requires CopyError(limits, m).None? && CopyError(limits, second).None?
    ensures exists s ::
      && Reachable(s) && s.cap == cap && s.limits == limits
      && s.log == [Delivered(m), SentPubrec(pid), GotPubrel(pid), GotPubrel(pid), SentPubcomp(pid)]
      && OnPublish(s, second) == (s.(sendPubrec := [pid], log := s.log + [Suppressed(pid)]), Ok(()))
  {
    hide Reachable;
    var s := TwoPubrels(cap, limits, m, pid);
    var t := SendPackets(s, l).state;
    SendPacketsReachable(s, l);
    var v := WritePubcomp(s, 0);
    assert v.sendPubcomp == [pid];
    assert SendPubcomps(v, 1, l.Write(Pubcomp(pid))).state == v;
    assert SendPubrecs(s, 0, l) == SendPubacks(s, 0, l) == Pass(s, l, Ok(SentAll));
    assert t == v;
  }

  /** A publish taken twice, and both answers sent. */
  lemma TwoPublishes(cap: nat, limits: Limits, m: Message, pid: Pid) returns (s: Receiver)
    requires cap >= 2 && m.qospid == ExactlyOnce(pid) && CopyError(limits, m).None?
    ensures Reachable(s)
    ensures s == Receiver(cap, limits, [], [], [pid, pid], [],
                          [Delivered(m), Suppressed(pid), SentPubrec(pid), SentPubrec(pid)])
  {
    hide Reachable, CopyError;
    InitReachable(cap, limits);
    var s1 := OnPublish(Init(cap, limits), m).0;
    StepReachable(Init(cap, limits), StepPublish(m));
    assert s1 == Receiver(cap, limits, [], [pid], [], [], [Delivered(m)]);
    var s2 := OnPublish(s1, m).0;
    StepReachable(s1, StepPublish(m));
    assert s2 == Receiver(cap, limits, [], [pid, pid], [], [], [Delivered(m), Suppressed(pid)]);
    var s3 := WritePubrec(s2, 0);
    StepReachable(s2, StepWritePubrec(0));
    s := WritePubrec(s3, 0);
    StepReachable(s3, StepWritePubrec(0));
  }

  /** The same happens to a peer that repeats a PUBLISH, as this client does after
      five seconds, and then releases it once: each copy got its PUBREC, and the
      one PUBREL releases one of them only. */
  lemma RepeatedPublishHidesPublish(cap: nat, limits: Limits, m: Message, second: Message, pid: Pid)
    requires cap >= 2 && m.qospid == ExactlyOnce(pid) && second.qospid == ExactlyOnce(pid)
    requires CopyError(limits, m).None?
    ensures exists s ::
      && Reachable(s) && s.cap == cap && s.limits == limits
      && s.log == [Delivered(m), Suppressed(pid), SentPubrec(pid), SentPubrec(pid), GotPubrel(pid), SentPubcomp(pid)]
      && OnPublish(s, second) == (s.(sendPubrec := [pid], log := s.log + [Suppressed(pid)]), Ok(()))
  {
    hide Reachable, CopyError;
    var s4 := TwoPublishes(cap, limits, m, pid);
    var s5 := OnPubrel(s4, pid).0;
    StepReachable(s4, StepPubrel(pid));
    assert s5 == Receiver(cap, limits, [], [], [pid], [pid], s4.log + [GotPubrel(pid)]);
    var s6 := WritePubcomp(s5, 0);
    StepReachable(s5, StepWritePubcomp(0));
    assert s6.log == [Delivered(m), Suppressed(pid), SentPubrec(pid), SentPubrec(pid), GotPubrel(pid), SentPubcomp(pid)];
    assert s6 == Receiver(cap, limits, [], [], [pid], [], s6.log);
  }

  // ---- every arrival ----

  lemma NothingDelivered()
    ensures FlatMap(DeliveredMessage, []) == []
  {
  }

  /** What the arrival of a publish does: whether the application gets it, with
      every field as it came; which queue it adds its identifier to; and the result.
      A publish that is too long is never delivered, a QoS 1 publish is delivered
      even if its PUBACK finds no room, a QoS 2 publish only if it is new and its
      PUBREC found room. */
  lemma PublishArrives(s: Receiver, m: Message)
    ensures var (t, r) := OnPublish(s, m);
      var fits := |m.topic| <= s.limits.topicSize && |m.payload| <= s.limits.bufferSize;
      var tooLong := if |m.topic| > s.limits.topicSize then TopicSizeError else BufferTooSmall;
      var gets := match m.qospid
        case AtMostOnce => fits
        case AtLeastOnce(_) => fits
        case ExactlyOnce(pid) =>
          fits && |s.sendPubrec| < s.cap && pid !in s.awaitPubrel && pid !in s.sendPubrec && pid !in s.sendPubcomp;
      && FlatMap(DeliveredMessage, t.log) == FlatMap(DeliveredMessage, s.log) + (if gets then [m] else [])
      && t.awaitPubrel == s.awaitPubrel && t.sendPubcomp == s.sendPubcomp
      && match m.qospid
         case AtMostOnce =>
           && t.sendPuback == s.sendPuback && t.sendPubrec == s.sendPubrec
           && r == (if fits then Ok(()) else Err(tooLong))
         case AtLeastOnce(pid) =>
           && t.sendPubrec == s.sendPubrec
           && t.sendPuback == (if fits && |s.sendPuback| < s.cap then s.sendPuback + [pid] else s.sendPuback)
           && r == (if !fits then Err(tooLong) else if |s.sendPuback| < s.cap then Ok(())
                    else Err(QueueFull(AtLeastOnce(pid))))
         case ExactlyOnce(pid) =>
           && t.sendPuback == s.sendPuback
           && t.sendPubrec == (if |s.sendPubrec| < s.cap then s.sendPubrec + [pid] else s.sendPubrec)
           && r == (if |s.sendPubrec| >= s.cap then Err(QueueFull(AtLeastOnce(pid)))
                    else if pid in s.awaitPubrel || pid in s.sendPubrec || pid in s.sendPubcomp || fits then Ok(())
                    else Err(tooLong))
  {
    hide FlatMap;
    var t := OnPublish(s, m).0;
    var more := t.log[|s.log|..];
    assert t.log == s.log + more;
    FlatMapConcat(DeliveredMessage, s.log, more);
    NothingDelivered();
    if more != [] {
      assert more == [more[0]];
      FlatMapOne(DeliveredMessage, more[0]);
    }
  }

  lemma FirstRemoved(q: seq<Pid>, pid: Pid)
    ensures var i := Position(q, Is(pid));
      multiset(if i < |q| then RemoveAt(q, i) else q) == multiset(q) - multiset{pid}
  {
    hide Position;
    var i := Position(q, Is(pid));
    if i < |q| {
      RemoveSplits(q, i);
    } else {
      assert forall j :: 0 <= j < |q| ==> !Is(pid)(q[j]);
      assert pid !in q;
    }
  }

  /** What the arrival of a pubrel does: its PUBCOMP is queued, and the identifier
      leaves `awaitPubrel` once if it is there; without room nothing happens. */
  lemma PubrelArrives(s: Receiver, pid: Pid)
    ensures var (t, r) := OnPubrel(s, pid);
      && t.sendPuback == s.sendPuback && t.sendPubrec == s.sendPubrec
      && FlatMap(DeliveredMessage, t.log) == FlatMap(DeliveredMessage, s.log)
      && (|s.sendPubcomp| >= s.cap ==> r == Err(QueueFull(AtLeastOnce(pid))) && t == s)
      && (|s.sendPubcomp| < s.cap ==>
            && r == Ok(()) && t.sendPubcomp == s.sendPubcomp + [pid]
            && multiset(t.awaitPubrel) == multiset(s.awaitPubrel) - multiset{pid})
  {
    hide FlatMap, Position;
    if |s.sendPubcomp| < s.cap {
      FlatMapNothing(DeliveredMessage, s.log, [GotPubrel(pid)]);
      FirstRemoved(s.awaitPubrel, pid);
    }
  }

  // ---- a written PUBREC is made by a pass ----

  /** Without a puback the first pubrec is what a pass writes first: on a connection
      that takes one packet, send_packets makes exactly this step. */
  lemma PubrecIsPass(s: Receiver, now: int)
    requires Enabled(s, StepWritePubrec(0)) && s.sendPuback == []
    ensures SendPackets(s, TakesOne(now)).state == WritePubrec(s, 0)
    ensures SendPackets(s, TakesOne(now)).link.written == [Pubrec(s.sendPubrec[0])]
  {
    hide Refuses;
    var l, packet := TakesOne(now), Pubrec(s.sendPubrec[0]);
    TakesOneThenRefuses(now, packet);
    RefusesSkip(l.Write(packet));
    var p := SendPubrecs(WritePubrec(s, 0), 1, l.Write(packet));
    assert SendPackets(s, l) == if p.outcome != Ok(SentAll) then p else SendPubcomps(p.state, 0, p.link);
  }
}
