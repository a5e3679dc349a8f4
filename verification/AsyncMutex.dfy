/** The asynchronous mutex of src/mutex.rs as a state machine over values: one
    lock holder at a time, and no waiting future is forgotten. Every future
    belongs to a task of its own. */
module MutexModel {
  import opened Mqtt

  type Task = nat

  type Operation<!T> = T -> (T, Attempt)

  /** `blocked` tells when the operations of this mutex have to wait; for
      publishing it is a full `send_publish` queue. `lockers` wait in lock and
      `attempts` in try_with_lock; `woken` are the tasks whose waker was called
      since they were polled last. */
  datatype State<!T> = State(
    capacity: nat,
    blocked: T -> bool,
    value: T,
    locked: bool,
    wakers: seq<Task>,
    holder: Option<Task>,
    lockers: set<Task>,
    attempts: set<Task>,
    woken: set<Task>)

  function Init<T>(capacity: nat, blocked: T -> bool, value: T): State<T> {
    State(capacity, blocked, value, false, [], None, {}, {}, {})
  }

  /** Every registered waker is called and forgotten. */
  function Woken<T>(m: State<T>): State<T> {
    m.(wakers := [], woken := m.woken + set t | t in m.wakers)
  }

  /** A waker is registered; without a free slot all others are called first. */
  function Registered<T>(m: State<T>, task: Task): State<T> {
    if task in m.wakers then m
    else
      var n := if |m.wakers| == m.capacity then Woken(m) else m;
      n.(wakers := n.wakers + [task])
  }

  /** A lock future is polled: ready exactly when nobody holds the lock. */
  function PollLock<T>(m: State<T>, task: Task): (State<T>, bool) {
    var n := m.(woken := m.woken - {task});
    if m.locked then (Registered(n, task).(lockers := m.lockers + {task}), false)
    else (n.(locked := true, holder := Some(task), lockers := m.lockers - {task}), true)
  }

  /** A try_with_lock future is polled. Its operation runs only while nobody holds
      the lock, and it may change the value whatever it returns. */
  function PollWith<T>(m: State<T>, task: Task, operation: Operation<T>): (State<T>, Outcome<()>) {
    var n := m.(woken := m.woken - {task});
    if m.locked then (Registered(n, task).(attempts := m.attempts + {task}), Pending)
    else
      var (value, attempt) := operation(m.value);
      var u := n.(value := value);
      match attempt
      case Finished => (u.(attempts := m.attempts - {task}), Ok(()))
      case Retry => (Registered(u, task).(attempts := m.attempts + {task}), Pending)
      case Failed(e) => (u.(attempts := m.attempts - {task}), Err(e))
  }

  /** Dropping the lock wakes everybody who is registered. */
  function DropLock<T>(m: State<T>): State<T> {
    Woken(m.(locked := false, holder := None))
  }

  /** A future that is dropped before it is ready waits no longer. */
  function DropFuture<T>(m: State<T>, task: Task): State<T> {
    m.(lockers := m.lockers - {task}, attempts := m.attempts - {task})
  }

  // ---- runs ----

  datatype Step<!T> =
    | StepPollLock(task: Task)
    | StepPollWith(task: Task, operation: Operation<T>)
    | StepUpdate(task: Task, changed: T)
    | StepDropLock(task: Task)
    | StepDropFuture(task: Task)

  /** An operation that has to wait exactly while the value blocks it, and then
      leaves the value alone. */
  ghost predicate WaitsFor<T(!new)>(operation: Operation<T>, blocked: T -> bool) {
    forall v :: (operation(v).1.Retry? <==> blocked(v)) && (blocked(v) ==> operation(v).0 == v)
  }

  ghost predicate Enabled<T(!new)>(m: State<T>, a: Step<T>) {
    match a
    case StepPollLock(task) => task !in m.attempts
    case StepPollWith(task, _) => task !in m.lockers
    case StepUpdate(task, _) => m.holder == Some(task)
    case StepDropLock(task) => m.holder == Some(task)
    case StepDropFuture(_) => true
  }

  function Apply<T>(m: State<T>, a: Step<T>): State<T> {
    match a
    case StepPollLock(task) => PollLock(m, task).0
    case StepPollWith(task, operation) => PollWith(m, task, operation).0
    case StepUpdate(_, changed) => m.(value := changed)
    case StepDropLock(_) => DropLock(m)
    case StepDropFuture(task) => DropFuture(m, task)
  }

  ghost predicate CanRun<T(!new)>(m: State<T>, run: seq<Step<T>>)
    decreases |run|
  {
    run != [] ==> Enabled(m, run[0]) && CanRun(Apply(m, run[0]), run[1..])
  }

  function Run<T>(m: State<T>, run: seq<Step<T>>): State<T>
    decreases |run|
  {
    if run == [] then m else Run(Apply(m, run[0]), run[1..])
  }

  /** The operations of a run wait for nothing but the value that blocks them. */
  ghost predicate Careful<T(!new)>(blocked: T -> bool, run: seq<Step<T>>) {
    forall i :: 0 <= i < |run| && run[i].StepPollWith? ==> WaitsFor(run[i].operation, blocked)
  }

  /** A run that leads here; if `careful`, one of careful operations. */
  ghost predicate LeadsTo<T(!new)>(m: State<T>, value: T, run: seq<Step<T>>, careful: bool) {
    && m.capacity > 0
    && CanRun(Init(m.capacity, m.blocked, value), run) && Run(Init(m.capacity, m.blocked, value), run) == m
    && (careful ==> Careful(m.blocked, run))
  }

  ghost predicate Reachable<T(!new)>(m: State<T>, careful: bool) {
    exists value, run :: LeadsTo(m, value, run, careful)
  }

  lemma InitReachable<T(!new)>(capacity: nat, blocked: T -> bool, value: T)
    requires capacity > 0
    ensures Reachable(Init(capacity, blocked, value), true)
  {
    var m := Init(capacity, blocked, value);
    assert LeadsTo(m, value, [], true);
  }

  lemma {:induction false} RunSnoc<T(!new)>(m: State<T>, run: seq<Step<T>>, a: Step<T>)
    requires CanRun(m, run) && Enabled(Run(m, run), a)
    ensures CanRun(m, run + [a]) && Run(m, run + [a]) == Apply(Run(m, run), a)
    decreases |run|
  {
    hide Enabled, Apply;
    if run == [] {
      assert run + [a] == [a] && [a][1..] == [];
    } else {
      assert (run + [a])[1..] == run[1..] + [a];
      RunSnoc(Apply(m, run[0]), run[1..], a);
    }
  }

  lemma StepReachable<T(!new)>(m: State<T>, a: Step<T>, careful: bool)
    requires Enabled(m, a) && (careful && a.StepPollWith? ==> WaitsFor(a.operation, m.blocked))
    requires Reachable(m, careful)
    ensures Reachable(Apply(m, a), careful)
  {
    hide Enabled, WaitsFor;
    var value, run :| LeadsTo(m, value, run, careful);
    RunSnoc(Init(m.capacity, m.blocked, value), run, a);
    assert LeadsTo(Apply(m, a), value, run + [a], careful);
  }

  lemma CarefulIsReachable<T(!new)>(m: State<T>)
    requires Reachable(m, true)
    ensures Reachable(m, false)
  {
    var value, run :| LeadsTo(m, value, run, true);
    assert LeadsTo(m, value, run, false);
  }

  // ---- nobody is forgotten ----

  /** Whoever waits has a registered waker or was woken, and nobody waits unwoken
      for a lock that is free. If the operations are careful, a future that waits
      unwoken at a free mutex has a value that blocks it. */
  predicate Inv<T(!new)>(m: State<T>, careful: bool) {
    && m.capacity > 0 && |m.wakers| <= m.capacity
    && (m.locked <==> m.holder.Some?)
    && (forall t :: t in m.lockers + m.attempts ==> t in m.wakers || t in m.woken)
    && (!m.locked ==> m.lockers <= m.woken)
    && (careful && !m.locked && !(m.attempts <= m.woken) ==> m.blocked(m.value))
  }

  lemma InvStep<T(!new)>(m: State<T>, a: Step<T>, careful: bool)
    requires Inv(m, careful) && Enabled(m, a)
    requires careful && a.StepPollWith? ==> WaitsFor(a.operation, m.blocked)
    ensures Inv(Apply(m, a), careful)
  {
    match a {
      case StepPollLock(task) =>
      case StepPollWith(task, operation) =>
        assert m.attempts <= m.woken ==> m.attempts - {task} <= m.woken - {task};
      case StepUpdate(_, _) =>
      case StepDropLock(_) =>
      case StepDropFuture(task) =>
        assert m.attempts - {task} <= m.attempts && m.lockers - {task} <= m.lockers;
    }
  }

  lemma BlockedKept<T(!new)>(m: State<T>, a: Step<T>)
    ensures Apply(m, a).blocked == m.blocked
  {
  }

  lemma {:induction false} InvRun<T(!new)>(m: State<T>, run: seq<Step<T>>, careful: bool)
    requires Inv(m, careful) && CanRun(m, run) && (careful ==> Careful(m.blocked, run))
    ensures Inv(Run(m, run), careful)
    decreases |run|
  {
    hide Inv, Enabled, Apply, WaitsFor;
    if run != [] {
      BlockedKept(m, run[0]);
      InvStep(m, run[0], careful);
      InvRun(Apply(m, run[0]), run[1..], careful);
    }
  }

  lemma ReachableInv<T(!new)>(m: State<T>, careful: bool)
    requires Reachable(m, careful)
    ensures Inv(m, careful)
  {
    hide Enabled, Apply, WaitsFor, Careful;
    var value, run :| LeadsTo(m, value, run, careful);
    InvRun(Init(m.capacity, m.blocked, value), run, careful);
  }

  /** In every reachable state a future that waits at a free mutex without having
      been woken is one of try_with_lock, its waker is registered, and, if all
      operations are careful, the value blocks it: no wake-up is lost. */
  lemma NoLostWakeUp<T(!new)>(m: State<T>, task: Task, careful: bool)
    requires Reachable(m, careful)
    requires !m.locked && task in m.lockers + m.attempts && task !in m.woken
    ensures task in m.attempts && task in m.wakers
    ensures careful ==> m.blocked(m.value)
  {
    hide Reachable;
    ReachableInv(m, careful);
    assert !(m.attempts <= m.woken);
  }

  /** A future that is polled and has to wait is registered, and waits for a wake-up
      that is still to come. */
  lemma WaitsToBeWoken<T(!new)>(m: State<T>, task: Task, operation: Operation<T>)
    ensures !PollLock(m, task).1 ==>
      var t := PollLock(m, task).0; task in t.lockers && task in t.wakers && task !in t.woken
    ensures PollWith(m, task, operation).1 == Pending ==>
      var t := PollWith(m, task, operation).0; task in t.attempts && task in t.wakers && task !in t.woken
    ensures PollLock(m, task).1 <==> !m.locked
  {
  }

  /** After the lock is dropped everybody who waits has been woken. */
  lemma DropWakesAll<T(!new)>(m: State<T>, task: Task)
    requires Reachable(m, false) && m.holder == Some(task)
    ensures DropLock(m).lockers + DropLock(m).attempts <= DropLock(m).woken
  {
    hide Reachable;
    ReachableInv(m, false);
  }
}

module AsyncMutex {
  import opened Mqtt
  import opened MutexModel
  import PM = PublishModel
  import PR = PublishRuns

  class Mutex<T(!new)> {
    const capacity: nat
    ghost const blocked: T -> bool
    var value: T
    var locked: bool
    var wakers: seq<Task>
    ghost var holder: Option<Task>
    ghost var lockers: set<Task>
    ghost var attempts: set<Task>
    ghost var woken: set<Task>

    ghost function View(): State<T>
      reads this
    {
      State(capacity, blocked, value, locked, wakers, holder, lockers, attempts, woken)
    }

    /** The state is one that a run of `MutexModel` reaches, so nobody who waits
        is forgotten. */
    ghost predicate Valid()
      reads this
    {
      Reachable(View(), false)
    }

    /** ... and all operations so far waited for nothing but a blocking value. */
    ghost predicate Careful()
      reads this
    {
      Reachable(View(), true)
    }

    constructor (value: T, ghost blocked: T -> bool, capacity: nat)
      requires capacity > 0
      ensures Valid() && Careful() && View() == Init(capacity, blocked, value)
    {
      this.value, this.blocked, this.capacity := value, blocked, capacity;
      locked, wakers := false, [];
      holder, lockers, attempts, woken := None, {}, {}, {};
      new;
      InitReachable(capacity, blocked, value);
      CarefulIsReachable(View());
    }

    method Wake()
      modifies this`wakers, this`woken
      ensures View() == Woken(old(View()))
    {
      woken := woken + set t | t in wakers;
      wakers := [];
    }

    method Register(task: Task)
      modifies this`wakers, this`woken
      ensures View() == Registered(old(View()), task)
    {
      if task in wakers {
        return;
      }
      if |wakers| == capacity {
        Wake();
      }
      wakers := wakers + [task];
    }

    /** Polls a lock future: ready exactly when nobody holds the lock. */
    method Lock(task: Task) returns (ready: bool)
      requires Valid() && task !in attempts
      modifies this`locked, this`wakers, this`holder, this`lockers, this`woken
      ensures Valid() && locked && (old(Careful()) ==> Careful())
      ensures (View(), ready) == PollLock(old(View()), task)
      ensures ready == !old(locked)
      ensures holder == if ready then Some(task) else old(holder)
      ensures lockers == if ready then old(lockers) - {task} else old(lockers) + {task}
    {
      hide Reachable;
      StepReachable(View(), StepPollLock(task), false);
      if Careful() {
        StepReachable(View(), StepPollLock(task), true);
      }
      woken := woken - {task};
      if locked {
        Register(task);
        lockers := lockers + {task};
        ready := false;
      } else {
        locked := true;
        holder, lockers := Some(task), lockers - {task};
        ready := true;
      }
    }

    /** Polls a try_with_lock future, for any operation. */
    method TryWithLock(task: Task, operation: Operation<T>) returns (r: Outcome<()>)
      requires Valid() && task !in lockers
      modifies this`value, this`wakers, this`attempts, this`woken
      ensures Valid()
      ensures old(Careful()) && WaitsFor(operation, blocked) ==> Careful()
      ensures (View(), r) == PollWith(old(View()), task, operation)
      ensures if old(locked) then r == Pending && value == old(value)
              else
                && value == operation(old(value)).0
                && r == match operation(old(value)).1
                        case Finished => Ok(())
                        case Retry => Pending
                        case Failed(e) => Err(e)
      ensures attempts == if r.Pending? then old(attempts) + {task} else old(attempts) - {task}
    {
      hide Reachable, WaitsFor;
      StepReachable(View(), StepPollWith(task, operation), false);
      if Careful() && WaitsFor(operation, blocked) {
        StepReachable(View(), StepPollWith(task, operation), true);
      }
      woken := woken - {task};
      if locked {
        Register(task);
        attempts := attempts + {task};
        return Pending;
      }
      var (changed, attempt) := operation(value);
      value := changed;
      match attempt {
        case Finished =>
          attempts := attempts - {task};
          r := Ok(());
        case Retry =>
          Register(task);
          attempts := attempts + {task};
          r := Pending;
        case Failed(e) =>
          attempts := attempts - {task};
          r := Err(e);
      }
    }

    /** The lock holder changes the value. */
    method Update(task: Task, changed: T)
      requires Valid() && holder == Some(task)
      modifies this`value
      ensures Valid() && (old(Careful()) ==> Careful())
      ensures View() == old(View()).(value := changed)
    {
      hide Reachable;
      StepReachable(View(), StepUpdate(task, changed), false);
      if Careful() {
        StepReachable(View(), StepUpdate(task, changed), true);
      }
      value := changed;
    }

    /** Dropping the lock wakes everybody who waits. */
    method Unlock(task: Task)
      requires Valid() && holder == Some(task)
      modifies this`locked, this`wakers, this`holder, this`woken
      ensures Valid() && (old(Careful()) ==> Careful())
      ensures !locked && View() == DropLock(old(View()))
      ensures lockers + attempts <= woken
    {
      hide Reachable;
      DropWakesAll(View(), task);
      StepReachable(View(), StepDropLock(task), false);
      if Careful() {
        StepReachable(View(), StepDropLock(task), true);
      }
      locked := false;
      holder := None;
      Wake();
    }

    /** A future that is dropped before it is ready waits no longer, and no other
        one is forgotten. */
    ghost method Abandon(task: Task)
      requires Valid()
      modifies this`lockers, this`attempts
      ensures Valid() && (old(Careful()) ==> Careful())
      ensures View() == DropFuture(old(View()), task)
    {
      hide Reachable;
      StepReachable(View(), StepDropFuture(task), false);
      if Careful() {
        StepReachable(View(), StepDropFuture(task), true);
      }
      lockers, attempts := lockers - {task}, attempts - {task};
    }
  }

  // ---- publishing over the mutex ----

  function Full(s: PM.Sender): bool { |s.sendPublish| >= s.cap }

  /** The closure of Publishes::publish. */
  function Push(topicSize: nat, bufferSize: nat, m: Message, uid: UniqueId): Operation<PM.Sender> {
    (s: PM.Sender) => PM.TryPublish(s, topicSize, bufferSize, m, uid)
  }

  lemma PushWaitsForRoom(topicSize: nat, bufferSize: nat, m: Message, uid: UniqueId)
    ensures WaitsFor(Push(topicSize, bufferSize, m, uid), Full)
  {
  }

  /** One poll of a publish future: it waits while the lock is held or the queue is
      full, panics when the publish cannot be copied, and is queued otherwise. */
  method Publish(mutex: Mutex<PM.Sender>, topicSize: nat, bufferSize: nat, task: Task, m: Message, uid: UniqueId)
    returns (r: Outcome<()>)
    requires mutex.Valid() && mutex.blocked == Full && task !in mutex.lockers
    modifies mutex`value, mutex`wakers, mutex`attempts, mutex`woken
    ensures mutex.Valid() && (old(mutex.Careful()) ==> mutex.Careful())
    ensures r == if old(mutex.locked) || Full(old(mutex.value)) then Pending
                 else if |m.topic| > topicSize || |m.payload| > bufferSize then Panic
                 else Ok(())
    ensures mutex.value == if r.Ok? then PM.Admit(old(mutex.value), PM.OwnedPublish(m, uid)) else old(mutex.value)
    ensures task in mutex.attempts <==> r.Pending?
  {
    hide Reachable, WaitsFor;
    PushWaitsForRoom(topicSize, bufferSize, m, uid);
    r := mutex.TryWithLock(task, Push(topicSize, bufferSize, m, uid));
    if r.Err? {
      r := Panic;
    }
  }

  /** What the futures of the publishes do: they push, and whoever holds the lock
      moves the queues on as its own runs do. */
  ghost predicate Moves(s: PM.Sender, a: Step<PM.Sender>) {
    match a
    case StepPollWith(_, operation) =>
      exists topicSize: nat, bufferSize: nat, m, uid :: operation == Push(topicSize, bufferSize, m, uid)
    case StepUpdate(_, changed) => PR.Leads(s, changed)
    case _ => true
  }

  ghost predicate AllMove(m: State<PM.Sender>, run: seq<Step<PM.Sender>>)
    decreases |run|
  {
    run != [] ==> Moves(m.value, run[0]) && AllMove(Apply(m, run[0]), run[1..])
  }

  lemma QueuesStep(m: State<PM.Sender>, a: Step<PM.Sender>)
    requires Moves(m.value, a)
    requires PM.Reachable(m.value)
    ensures PM.Reachable(Apply(m, a).value)
  {
    hide PM.Reachable, PR.Leads;
    match a {
      case StepPollWith(task, operation) =>
        var topicSize: nat, bufferSize: nat, p, uid :| operation == Push(topicSize, bufferSize, p, uid);
        if operation(m.value).1 == Finished {
          PR.StepReachable(m.value, PM.StepAdmit(PM.OwnedPublish(p, uid)));
        }
      case StepUpdate(_, changed) => PR.ReachableLeads(m.value, changed);
      case StepPollLock(_) =>
      case StepDropLock(_) =>
      case StepDropFuture(_) =>
    }
  }

  /** However the tasks of publishers and of the loop interleave, the queues behind
      the mutex are in a state that the smallest steps of `PublishModel` reach. */
  lemma {:induction false} QueuesStayReachable(m: State<PM.Sender>, run: seq<Step<PM.Sender>>)
    requires AllMove(m, run)
    requires PM.Reachable(m.value)
    ensures PM.Reachable(Run(m, run).value)
    decreases |run|
  {
    hide PM.Reachable, Moves, Apply;
    if run != [] {
      QueuesStep(m, run[0]);
      QueuesStayReachable(Apply(m, run[0]), run[1..]);
    }
  }
}
