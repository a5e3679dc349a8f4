/** The identifier pool together with everything that holds identifiers: callers
    waiting in State::publish, the publish queues and the subscribe queues. The
    broker may acknowledge anything at any time. */
module PidOwnership {
  import opened Mqtt
  import opened Seqs
  import opened PidPools
  import PM = PublishModel
  import PR = PublishRuns
  import PT = PublishTheorems
  import SM = SubscribeModel

  /** What the application asked for: the arguments of its calls. */
  datatype Asked =
    | AskedPublish(qos: QoS, retain: bool, topic: string, payload: seq<Byte>, uid: UniqueId)
    | AskedRequest(topics: seq<string>, kind: SM.RequestType, uid: UniqueId)

  /** `leaked` identifiers will never be freed, `dropped` ones were freed when
      the pool had no room. `issued` and `freed` record the calls of the pool,
      `asked` those of the application, and `abandoned` its publishes that could
      not be copied. */
  datatype System = System(
    pool: Pool,
    callers: seq<PM.OwnedPublish>,
    publishes: PM.Sender,
    subs: SM.Subs,
    leaked: multiset<Pid>,
    dropped: multiset<Pid>,
    issued: seq<Pid>,
    freed: seq<Pid>,
    asked: seq<Asked>,
    abandoned: seq<PM.OwnedPublish>)

  function Init(cap: nat, wireTopicSize: nat): System {
    System(NEW_POOL, [], PM.Init(cap), SM.Init(cap, wireTopicSize), multiset{}, multiset{}, [], [], [], [])
  }

  datatype Step =
    | Call(qos: QoS, retain: bool, topic: string, payload: seq<Byte>, uid: UniqueId)
    | Admit(k: nat)
    | Abandon(k: nat)
    | PublishStep(publish: PM.Step)
    | Request(topics: seq<string>, kind: SM.RequestType, uid: UniqueId)
    | SubscribeStep(subscribe: SM.Step)
    | AutoSubscribe

  /** The class and, for QoS 1 and 2, the next identifier of the pool. */
  function CallQospid(pool: Pool, qos: QoS): QosPid
    requires qos != QoS0 ==> Issued(pool).Some?
  {
    match qos
    case QoS0 => AtMostOnce
    case QoS1 => AtLeastOnce(Issued(pool).value)
    case QoS2 => ExactlyOnce(Issued(pool).value)
  }

  ghost predicate Enabled(g: System, a: Step) {
    match a
    case Call(qos, _, _, _, _) => qos != QoS0 ==> Issued(g.pool).Some?
    case Admit(k) => k < |g.callers| && PM.Enabled(g.publishes, PM.StepAdmit(g.callers[k]))
    case Abandon(k) => k < |g.callers|
    case PublishStep(p) => !p.StepAdmit? && PM.Enabled(g.publishes, p)
    case Request(_, _, _) => |g.subs.sendRequest| < g.subs.cap && Issued(g.pool).Some?
    case SubscribeStep(p) => !p.StepAccept? && SM.Enabled(g.subs, p)
    case AutoSubscribe => Issued(g.pool).Some?
  }

  function Take(g: System): System
    requires Issued(g.pool).Some?
  {
    g.(pool := Taken(g.pool), issued := g.issued + [Issued(g.pool).value])
  }

  function Free(g: System, pid: Pid): System {
    g.(pool := Returned(g.pool, pid),
       dropped := if |g.pool.free| < POOL_SIZE then g.dropped else g.dropped + multiset{pid},
       freed := g.freed + [pid])
  }

  ghost function Apply(g: System, a: Step): System
    requires Enabled(g, a)
  {
    match a
    case Call(qos, retain, topic, payload, uid) =>
      var pub := PM.OwnedPublish(Message(false, CallQospid(g.pool, qos), retain, topic, payload), uid);
      var h := if qos == QoS0 then g else Take(g);
      h.(callers := g.callers + [pub], asked := g.asked + [AskedPublish(qos, retain, topic, payload, uid)])
    case Admit(k) =>
      g.(callers := RemoveAt(g.callers, k), publishes := PM.Admit(g.publishes, g.callers[k]))
    case Abandon(k) =>
      g.(callers := RemoveAt(g.callers, k), abandoned := g.abandoned + [g.callers[k]],
         leaked := g.leaked + multiset(PT.PublishPid(g.callers[k])))
    case PublishStep(p) =>
      var h := g.(publishes := PM.Apply(g.publishes, p));
      (match p
       case StepPuback(pid) => if PM.PubackIndex(g.publishes, pid) < |g.publishes.awaitPuback| then Free(h, pid) else h
       case StepPubcomp(pid) => if PM.PubcompIndex(g.publishes, pid) < |g.publishes.awaitPubcomp| then Free(h, pid) else h
       case _ => h.(leaked := h.leaked + PT.Released(g.publishes, p)))
    case Request(topics, kind, uid) =>
      Take(g).(subs := SM.Admit(g.subs, SM.SubRequest(topics, kind, Issued(g.pool).value, uid)),
               asked := g.asked + [AskedRequest(topics, kind, uid)])
    case SubscribeStep(p) =>
      var h := g.(subs := SM.Apply(g.subs, p));
      (match p
       case StepSuback(pid, _) => if SM.SubackIndex(g.subs, pid) < |g.subs.awaitAck| then Free(h, pid) else h
       case StepUnsuback(pid) => if SM.UnsubackIndex(g.subs, pid) < |g.subs.awaitAck| then Free(h, pid) else h
       case _ => h)
    case AutoSubscribe =>
      Take(g).(leaked := g.leaked + multiset{Issued(g.pool).value})
  }

  ghost predicate CanRun(g: System, run: seq<Step>)
    decreases |run|
  {
    run != [] ==> Enabled(g, run[0]) && CanRun(Apply(g, run[0]), run[1..])
  }

  ghost function Run(g: System, run: seq<Step>): System
    requires CanRun(g, run)
    decreases |run|
  {
    if run == [] then g else Run(Apply(g, run[0]), run[1..])
  }

  // ---- who owns what ----

  function RequestPid(r: SM.SubRequest): seq<Pid> { [r.pid] }

  function AwaitPid(e: SM.AwaitAck): seq<Pid> { [e.request.pid] }

  ghost function SubPids(s: SM.Subs): multiset<Pid> {
    Bag(RequestPid, s.sendRequest) + Bag(AwaitPid, s.awaitAck)
  }

  /** Every identifier held by a waiting caller or by an entry of a queue. */
  ghost function Owned(g: System): multiset<Pid> {
    Bag(PT.PublishPid, g.callers) + PT.OwnedPids(g.publishes) + SubPids(g.subs)
  }

  /** The identifiers below `next`, each once. */
  ghost function Below(next: int): multiset<Pid>
    requires 1 <= next <= 65535
  {
    if next == 1 then multiset{} else Below(next - 1) + multiset{next - 1}
  }

  lemma {:induction false} BelowCount(next: int, p: Pid)
    requires 1 <= next <= 65535
    ensures Below(next)[p] == if p < next then 1 else 0
  {
    if next > 1 {
      BelowCount(next - 1, p);
    }
  }

  /** Every identifier the counter has passed is in exactly one place. */
  ghost predicate Ledger(g: System) {
    multiset(g.pool.free) + Owned(g) + g.leaked + g.dropped == Below(g.pool.next)
  }

  /** Every issue is still held or was freed. */
  ghost predicate Balanced(g: System) {
    multiset(g.issued) == multiset(g.freed) + Owned(g) + g.leaked
  }

  ghost predicate Inv(g: System) {
    && Ledger(g) && Balanced(g)
    && PT.Faithful(g.publishes) && PR.Inv(g.publishes)
  }

  lemma BelowNext(next: int)
    requires 1 <= next < 65535
    ensures Below(next + 1) == Below(next) + multiset{next}
  {
  }

  lemma TakeMoves(p: Pool)
    requires Issued(p).Some?
    ensures Below(Taken(p).next) + multiset(p.free)
         == Below(p.next) + multiset(Taken(p).free) + multiset{Issued(p).value}
  {
    hide Below;
    if p.free == [] {
      BelowNext(p.next);
    } else {
      assert p.free == [p.free[0]] + p.free[1..];
      assert multiset(p.free) == multiset{p.free[0]} + multiset(p.free[1..]);
    }
  }

  lemma LogPid(log: seq<Pid>, p: Pid)
    ensures multiset(log + [p]) == multiset(log) + multiset{p}
  {
  }

  lemma TakeSum(free: multiset<Pid>, held: multiset<Pid>, below: multiset<Pid>,
                free': multiset<Pid>, held': multiset<Pid>, below': multiset<Pid>,
                rest: multiset<Pid>, p: multiset<Pid>)
    requires below' + free == below + free' + p && held' == held + p
    requires free + held + rest == below
    ensures free' + held' + rest == below'
  {
    forall x
      ensures (free' + held' + rest)[x] == below'[x]
    {
      assert (below' + free)[x] == (below + free' + p)[x];
    }
  }

  /** Taking an identifier for an owner keeps the books. */
  lemma TakeKeeps(g: System, h: System)
    requires Ledger(g) && Balanced(g) && Issued(g.pool).Some?
    requires h.pool == Taken(g.pool) && h.dropped == g.dropped && h.freed == g.freed
    requires h.issued == g.issued + [Issued(g.pool).value]
    requires Owned(h) + h.leaked == Owned(g) + g.leaked + multiset{Issued(g.pool).value}
    ensures Ledger(h) && Balanced(h)
  {
    hide Owned, Below, Taken;
    TakeMoves(g.pool);
    LogPid(g.issued, Issued(g.pool).value);
    assert multiset(g.pool.free) + Owned(g) + g.leaked + g.dropped
        == multiset(g.pool.free) + (Owned(g) + g.leaked) + g.dropped;
    TakeSum(multiset(g.pool.free), Owned(g) + g.leaked, Below(g.pool.next),
            multiset(h.pool.free), Owned(h) + h.leaked, Below(h.pool.next),
            g.dropped, multiset{Issued(g.pool).value});
    assert multiset(h.pool.free) + Owned(h) + h.leaked + h.dropped
        == multiset(h.pool.free) + (Owned(h) + h.leaked) + h.dropped;
    assert multiset(h.freed) + Owned(h) + h.leaked == multiset(h.freed) + (Owned(h) + h.leaked);
  }

  /** Giving an identifier back keeps the books. */
  lemma FreeKeeps(g: System, h: System, pid: Pid)
    requires Ledger(g) && Balanced(g)
    requires h.pool == Returned(g.pool, pid) && h.freed == g.freed + [pid] && h.issued == g.issued
    requires h.dropped == if |g.pool.free| < POOL_SIZE then g.dropped else g.dropped + multiset{pid}
    requires h.leaked == g.leaked && Owned(h) + multiset{pid} == Owned(g)
    ensures Ledger(h) && Balanced(h)
  {
    hide Owned, Below;
    LogPid(g.pool.free, pid);
    LogPid(g.freed, pid);
  }

  /** Moving identifiers between owners, or losing some for good. */
  lemma MoveKeeps(g: System, h: System)
    requires Ledger(g) && Balanced(g)
    requires h.pool == g.pool && h.dropped == g.dropped && h.issued == g.issued && h.freed == g.freed
    requires Owned(h) + h.leaked == Owned(g) + g.leaked
    ensures Ledger(h) && Balanced(h)
  {
    hide Owned, Below;
    assert multiset(h.pool.free) + Owned(h) + h.leaked + h.dropped
        == multiset(h.pool.free) + (Owned(h) + h.leaked) + h.dropped;
    assert multiset(h.freed) + Owned(h) + h.leaked == multiset(h.freed) + (Owned(h) + h.leaked);
  }

  lemma SubscribeReleases(s: SM.Subs, a: SM.Step)
    requires SM.Enabled(s, a) && !a.StepAccept?
    ensures SubPids(SM.Apply(s, a)) + multiset(
        match a
        case StepSuback(pid, _) => if SM.SubackIndex(s, pid) < |s.awaitAck| then [pid] else []
        case StepUnsuback(pid) => if SM.UnsubackIndex(s, pid) < |s.awaitAck| then [pid] else []
        case _ => []) == SubPids(s)
  {
    hide Bag, Position, SM.AnyFailure;
    match a {
      case StepTransmit(now) =>
        BagRemove(RequestPid, s.sendRequest, 0);
        assert RemoveAt(s.sendRequest, 0) == s.sendRequest[1..];
        BagSnoc(AwaitPid, s.awaitAck, SM.AwaitAck(s.sendRequest[0], now));
      case StepRepeat(i, due, now) => BagSame(AwaitPid, s.awaitAck, SM.Repeat(s, i, due, now).awaitAck);
      case StepSuback(pid, _) =>
        var i := SM.SubackIndex(s, pid);
        if i < |s.awaitAck| {
          BagRemove(AwaitPid, s.awaitAck, i);
        }
      case StepUnsuback(pid) =>
        var i := SM.UnsubackIndex(s, pid);
        if i < |s.awaitAck| {
          BagRemove(AwaitPid, s.awaitAck, i);
        }
    }
  }

  lemma CallKeeps(g: System, a: Step)
    requires Ledger(g) && Balanced(g) && Enabled(g, a) && a.Call?
    ensures Ledger(Apply(g, a)) && Balanced(Apply(g, a))
  {
    hide Bag, Ledger, Balanced, PT.OwnedPids, SubPids;
    var h := Apply(g, a);
    BagSnoc(PT.PublishPid, g.callers, h.callers[|g.callers|]);
    if a.qos == QoS0 {
      MoveKeeps(g, h);
    } else {
      TakeKeeps(g, h);
    }
  }

  lemma CallerKeeps(g: System, a: Step)
    requires Ledger(g) && Balanced(g) && Enabled(g, a) && (a.Admit? || a.Abandon?)
    ensures Ledger(Apply(g, a)) && Balanced(Apply(g, a))
  {
    hide Bag, Ledger, Balanced, PT.OwnedPids, SubPids;
    BagRemove(PT.PublishPid, g.callers, a.k);
    var h := Apply(g, a);
    var p := multiset(PT.PublishPid(g.callers[a.k]));
    assert Bag(PT.PublishPid, h.callers) + p == Bag(PT.PublishPid, g.callers);
    if a.Admit? {
      var step := PM.StepAdmit(g.callers[a.k]);
      PT.OwnedPidsStep(g.publishes, step);
      assert PT.Acquired(g.publishes, step) == p && PT.Released(g.publishes, step) == multiset{};
      assert PT.OwnedPids(h.publishes) == PT.OwnedPids(g.publishes) + p;
    }
    MoveKeeps(g, h);
  }

  lemma ReleaseSum(a: multiset<Pid>, b: multiset<Pid>, c: multiset<Pid>, b': multiset<Pid>, released: multiset<Pid>)
    requires b' + released == b
    ensures a + b' + c + released == a + b + c
  {
  }

  /** The parts of the system that freeing an identifier changes. */
  lemma FreeParts(g: System, pid: Pid)
    ensures Free(g, pid) == g.(pool := Returned(g.pool, pid), freed := g.freed + [pid],
                               dropped := if |g.pool.free| < POOL_SIZE then g.dropped else g.dropped + multiset{pid})
  {
  }

  lemma PublishKeeps(g: System, a: Step)
    requires Ledger(g) && Balanced(g) && Enabled(g, a) && a.PublishStep?
    ensures Ledger(Apply(g, a)) && Balanced(Apply(g, a))
  {
    hide Bag, Ledger, Balanced, PT.OwnedPids, SubPids, Position, Free, PM.Apply;
    var h := Apply(g, a);
    var p := a.publish;
    PT.OwnedPidsStep(g.publishes, p);
    assert PT.Acquired(g.publishes, p) == multiset{};
    assert h.publishes == PM.Apply(g.publishes, p) && h.callers == g.callers && h.subs == g.subs by {
      if p.StepPuback? || p.StepPubcomp? {
        FreeParts(g.(publishes := PM.Apply(g.publishes, p)), p.pid);
      }
    }
    var released := PT.Released(g.publishes, p);
    assert PT.OwnedPids(h.publishes) + released == PT.OwnedPids(g.publishes);
    ReleaseSum(Bag(PT.PublishPid, g.callers), PT.OwnedPids(g.publishes), SubPids(g.subs),
               PT.OwnedPids(h.publishes), released);
    assert Owned(h) + released == Owned(g);
    if p.StepPuback? && PM.PubackIndex(g.publishes, p.pid) < |g.publishes.awaitPuback| {
      FreeParts(g.(publishes := PM.Apply(g.publishes, p)), p.pid);
      FreeKeeps(g, h, p.pid);
    } else if p.StepPubcomp? && PM.PubcompIndex(g.publishes, p.pid) < |g.publishes.awaitPubcomp| {
      FreeParts(g.(publishes := PM.Apply(g.publishes, p)), p.pid);
      FreeKeeps(g, h, p.pid);
    } else {
      MoveKeeps(g, h);
    }
  }

  lemma RequestKeeps(g: System, a: Step)
    requires Ledger(g) && Balanced(g) && Enabled(g, a) && (a.Request? || a.AutoSubscribe?)
    ensures Ledger(Apply(g, a)) && Balanced(Apply(g, a))
  {
    hide Bag, Ledger, Balanced, PT.OwnedPids;
    var h := Apply(g, a);
    if a.Request? {
      BagSnoc(RequestPid, g.subs.sendRequest, h.subs.sendRequest[|g.subs.sendRequest|]);
    }
    TakeKeeps(g, h);
  }

  lemma SubscribeKeeps(g: System, a: Step)
    requires Ledger(g) && Balanced(g) && Enabled(g, a) && a.SubscribeStep?
    ensures Ledger(Apply(g, a)) && Balanced(Apply(g, a))
  {
    hide Bag, Ledger, Balanced, PT.OwnedPids, SubPids, Position, SM.Apply;
    var h := Apply(g, a);
    var p := a.subscribe;
    SubscribeReleases(g.subs, p);
    if p.StepSuback? && SM.SubackIndex(g.subs, p.pid) < |g.subs.awaitAck| {
      FreeKeeps(g, h, p.pid);
    } else if p.StepUnsuback? && SM.UnsubackIndex(g.subs, p.pid) < |g.subs.awaitAck| {
      FreeKeeps(g, h, p.pid);
    } else {
      MoveKeeps(g, h);
    }
  }

  lemma BooksStep(g: System, a: Step)
    requires Ledger(g) && Balanced(g) && Enabled(g, a)
    ensures Ledger(Apply(g, a)) && Balanced(Apply(g, a))
  {
    hide Ledger, Balanced, Enabled, Apply;
    match a {
      case Call(_, _, _, _, _) => CallKeeps(g, a);
      case Admit(_) => CallerKeeps(g, a);
      case Abandon(_) => CallerKeeps(g, a);
      case PublishStep(_) => PublishKeeps(g, a);
      case Request(_, _, _) => RequestKeeps(g, a);
      case AutoSubscribe => RequestKeeps(g, a);
      case SubscribeStep(_) => SubscribeKeeps(g, a);
    }
  }

  /** No identifier is held, pooled and written off more than once in all. */
  lemma OncePerPid(g: System, p: Pid)
    requires Ledger(g)
    ensures multiset(g.pool.free)[p] + Owned(g)[p] + g.leaked[p] + g.dropped[p] == if p < g.pool.next then 1 else 0
  {
    hide Owned, Below;
    BelowCount(g.pool.next, p);
    assert (multiset(g.pool.free) + Owned(g) + g.leaked + g.dropped)[p] == Below(g.pool.next)[p];
  }

  lemma {:induction false} BelowSize(next: int)
    requires 1 <= next <= 65535
    ensures |Below(next)| == next - 1
  {
    if next > 1 {
      BelowSize(next - 1);
    }
  }

  /** There are only so many identifiers to hold at a time. */
  lemma HeldAtMost(g: System)
    requires Ledger(g)
    ensures |PT.OwnedPids(g.publishes)| <= MOST_PIDS
  {
    hide PT.OwnedPids, Bag, SubPids, Below;
    BelowSize(g.pool.next);
    assert |multiset(g.pool.free) + Owned(g) + g.leaked + g.dropped| == g.pool.next - 1;
  }

  /** Nobody holds the next identifier to be issued. */
  lemma IssuedUnheld(g: System)
    requires Ledger(g) && Issued(g.pool).Some?
    ensures var p := Issued(g.pool).value; Owned(g)[p] == 0 && g.leaked[p] == 0 && g.dropped[p] == 0
  {
    hide Owned, Ledger;
    var p := Issued(g.pool).value;
    OncePerPid(g, p);
    if g.pool.free != [] {
      assert p in multiset(g.pool.free);
    }
  }

  /** The identifier of a waiting caller is not in any queue. */
  lemma CallerIsFresh(g: System, k: nat)
    requires Ledger(g) && k < |g.callers|
    ensures multiset(PT.PublishPid(g.callers[k])) !! PT.OwnedPids(g.publishes)
  {
    hide Bag, Ledger, PT.OwnedPids, SubPids;
    BagRemove(PT.PublishPid, g.callers, k);
    forall p | p in multiset(PT.PublishPid(g.callers[k]))
      ensures p !in PT.OwnedPids(g.publishes)
    {
      OncePerPid(g, p);
      assert Owned(g)[p] == Bag(PT.PublishPid, g.callers)[p] + PT.OwnedPids(g.publishes)[p] + SubPids(g.subs)[p];
    }
  }

  lemma AdmitIsStep(s: PM.Sender, pub: PM.OwnedPublish)
    requires PM.Enabled(s, PM.StepAdmit(pub))
    ensures PM.Apply(s, PM.StepAdmit(pub)) == PM.Admit(s, pub)
  {
  }

  lemma InvStep(g: System, a: Step)
    requires Inv(g) && Enabled(g, a)
    ensures Inv(Apply(g, a))
  {
    hide Ledger, Balanced, PT.Faithful, PR.Inv, PT.OwnedPids, PM.Apply, PM.Enabled, PM.Admit, SM.Apply;
    BooksStep(g, a);
    if a.Admit? {
      CallerIsFresh(g, a.k);
      var p := PM.StepAdmit(g.callers[a.k]);
      PT.FaithfulStep(g.publishes, p);
      PR.InvStep(g.publishes, p);
      AdmitIsStep(g.publishes, g.callers[a.k]);
    } else if a.PublishStep? {
      PT.FaithfulStep(g.publishes, a.publish);
      PR.InvStep(g.publishes, a.publish);
    }
  }

  lemma InvInit(cap: nat, wireTopicSize: nat)
    ensures Inv(Init(cap, wireTopicSize))
  {
    PT.FaithfulInit(cap);
    PR.InvInit(cap);
  }

  lemma {:induction false} InvRun(g: System, run: seq<Step>)
    requires Inv(g) && CanRun(g, run)
    ensures Inv(Run(g, run))
    decreases |run|
  {
    hide Inv, Enabled, Apply;
    if run != [] {
      InvStep(g, run[0]);
      InvRun(Apply(g, run[0]), run[1..]);
    }
  }

  ghost predicate Reachable(g: System) {
    exists cap: nat, wireTopicSize: nat, run ::
      CanRun(Init(cap, wireTopicSize), run) && Run(Init(cap, wireTopicSize), run) == g
  }

  lemma ReachableInv(g: System)
    requires Reachable(g)
    ensures Inv(g)
  {
    hide Inv;
    var cap: nat, wireTopicSize: nat, run :|
      CanRun(Init(cap, wireTopicSize), run) && Run(Init(cap, wireTopicSize), run) == g;
    InvInit(cap, wireTopicSize);
    InvRun(Init(cap, wireTopicSize), run);
  }

  // ---- the DUP flag ----

  /** Nothing that has not been transmitted yet carries the DUP flag, and no
      first transmission did. */
  ghost predicate Clear(g: System) {
    && (forall p :: p in g.callers ==> !p.m.dup)
    && (forall p :: p in g.publishes.sendPublish ==> !p.m.dup)
    && (forall k :: 0 <= k < |g.publishes.log| && g.publishes.log[k].Sent? ==> !g.publishes.log[k].pub.m.dup)
  }

  lemma ClearPublish(s: PM.Sender, p: PM.Step)
    requires PM.Enabled(s, p) && !p.StepAdmit?
    requires forall q :: q in s.sendPublish ==> !q.m.dup
    ensures var t := PM.Apply(s, p);
      && (forall q :: q in t.sendPublish ==> !q.m.dup)
      && s.log <= t.log
      && (forall k :: |s.log| <= k < |t.log| && t.log[k].Sent? ==> !t.log[k].pub.m.dup)
  {
    hide Position;
    var t := PM.Apply(s, p);
    assert forall q :: q in t.sendPublish ==> q in s.sendPublish;
    if p.StepTransmit? {
      assert s.sendPublish[p.i] in s.sendPublish;
    }
  }

  lemma ClearStep(g: System, a: Step)
    requires Clear(g) && Enabled(g, a)
    ensures Clear(Apply(g, a))
  {
    hide PM.Apply, PM.Enabled, SM.Apply, SM.Enabled, Position;
    if a.PublishStep? {
      ClearPublish(g.publishes, a.publish);
      assert Apply(g, a).publishes == PM.Apply(g.publishes, a.publish) && Apply(g, a).callers == g.callers;
    } else if a.Admit? {
      assert g.callers[a.k] in g.callers;
      assert forall p :: p in Apply(g, a).callers ==> p in g.callers;
    } else if a.Abandon? {
      assert forall p :: p in Apply(g, a).callers ==> p in g.callers;
    }
  }

  lemma {:induction false} ClearRun(g: System, run: seq<Step>)
    requires Clear(g) && CanRun(g, run)
    ensures Clear(Run(g, run))
    decreases |run|
  {
    hide Clear, Enabled, Apply;
    if run != [] {
      ClearStep(g, run[0]);
      ClearRun(Apply(g, run[0]), run[1..]);
    }
  }

  /** The first transmission of every publish has the DUP flag clear. */
  lemma FirstTransmissionsAreClear(g: System, k: nat)
    requires Reachable(g) && k < |g.publishes.log| && g.publishes.log[k].Sent?
    ensures !g.publishes.log[k].pub.m.dup
  {
    hide Enabled, Apply;
    var cap: nat, wireTopicSize: nat, run :|
      CanRun(Init(cap, wireTopicSize), run) && Run(Init(cap, wireTopicSize), run) == g;
    ClearRun(Init(cap, wireTopicSize), run);
  }

  // ---- the promises ----

  /** Every identifier the counter has passed is pooled, owned by exactly one
      caller or entry, leaked or dropped, and only one of these; every other
      identifier is none of them. */
  lemma EveryPidInOnePlace(g: System, p: Pid)
    requires Reachable(g)
    ensures multiset(g.pool.free)[p] + Owned(g)[p] + g.leaked[p] + g.dropped[p] == if p < g.pool.next then 1 else 0
  {
    hide Owned, Reachable;
    ReachableInv(g);
    OncePerPid(g, p);
  }

  /** The next identifier to be issued lies in 1..65534 and nobody holds it. */
  lemma IssuedIsUnused(g: System)
    requires Reachable(g) && Issued(g.pool).Some?
    ensures var p := Issued(g.pool).value;
            && 1 <= p <= MOST_PIDS
            && Owned(g)[p] == 0 && g.leaked[p] == 0 && g.dropped[p] == 0
  {
    hide Owned, Reachable, Ledger, Below, Balanced, PT.Faithful, PR.Inv;
    ReachableInv(g);
    IssuedUnheld(g);
    OncePerPid(g, Issued(g.pool).value);
    if g.pool.free != [] {
      assert g.pool.free[0] in multiset(g.pool.free);
    }
  }

  /** Each issue of an identifier is freed at most once, and never before it. */
  lemma FreedAtMostOnce(g: System, p: Pid)
    requires Reachable(g)
    ensures multiset(g.freed)[p] <= multiset(g.issued)[p] <= multiset(g.freed)[p] + 1
  {
    hide Owned, Reachable;
    ReachableInv(g);
    OncePerPid(g, p);
    assert multiset(g.issued)[p] == (multiset(g.freed) + Owned(g) + g.leaked)[p];
  }

  /** With identifiers from the pool, retransmissions are faithful in every run. */
  lemma RetransmissionsAreFaithful(g: System, k: nat) returns (first: nat)
    requires Reachable(g) && k < |g.publishes.log| && g.publishes.log[k].Resent?
    ensures var log := g.publishes.log;
            var copy := log[k].pub;
            && first < k && log[first].Sent?
            && copy == log[first].pub.MarkDup() && copy.m.qospid != AtMostOnce
            && (forall j :: first < j < k ==> log[j] != PT.AckOf(copy))
  {
    hide Reachable, PR.Inv, PT.OwnedPids, PT.Repeats, Ledger, Balanced;
    ReachableInv(g);
    var log := g.publishes.log;
    assert PT.Repeats(log[..k], log[k].pub);
    first := PT.RepeatWitness(log[..k], log[k].pub);
    assert forall j :: 0 <= j < k ==> log[..k][j] == log[j];
  }
}
