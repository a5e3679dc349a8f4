/** Keep-alive (src/state/ping.rs): when PINGREQ packets are sent, and how far
    apart they can be (section 3.1.2.10 of MQTT 3.1.1). Times are milliseconds. */
module Pings {
  import opened Mqtt
  import opened PacketLink

  const KEEP_ALIVE_DURATION := 60000
  const PING_RETRY_DURATION := 5000
  const ERROR_CORRECTING_DURATION := 10

  datatype PingStateInner =
    | PingSuccess(at: int)
    | AwaitingResponse(lastSuccess: int, requestSent: int)
  {
    /** The time since which, and how long, the state waits before it sends. */
    function Since(): int { if PingSuccess? then at else requestSent }

    function Wait(): int { if PingSuccess? then KEEP_ALIVE_DURATION / 2 else PING_RETRY_DURATION }

    /** The guard of `send`. */
    predicate Due(now: int) { now - Since() > Wait() }

    /** How long ping_pause sleeps. */
    function Pause(now: int): int {
      if Due(now) then 0 else Wait() - (now - Since()) + ERROR_CORRECTING_DURATION
    }

    /** The state after a PINGREQ was written. */
    function Requested(now: int): PingStateInner {
      AwaitingResponse(if PingSuccess? then at else lastSuccess, now)
    }
  }

  /** The `send` of the ping state as a pass over the connection. */
  function SendPing(s: PingStateInner, l: Link): Pass<PingStateInner> {
    if !s.Due(l.Now()) then Pass(s, l, Ok(SentAll))
    else
      match l.Answer(Pingreq)
      case Accept => Pass(s.Requested(l.Now()), l.Write(Pingreq), Ok(SentAll))
      case Refuse => Pass(s, l.Skip(Pingreq), Ok(PartiallySent))
      case Fail(e) => Pass(s, l.Skip(Pingreq), Err(e))
  }

  /** Sleeping for the pause is enough for `send` to act, also when the sleep
      takes longer; sleeping less than the correction allows is not. */
  lemma PauseEnablesSend(s: PingStateInner, now: int, slept: int)
    ensures slept >= s.Pause(now) ==> s.Due(now + slept)
    ensures s.Pause(now) > 0 && slept <= s.Pause(now) - ERROR_CORRECTING_DURATION ==> !s.Due(now + slept)
    ensures s.Pause(now) == 0 <==> s.Due(now)
  {
    match s {
      case PingSuccess(_) =>
      case AwaitingResponse(_, _) =>
    }
  }

  /** The times of the two states, in milliseconds: a PINGREQ is due more than 30 s
      after a success, or more than 5 s after a PINGREQ, and the pause ends 10 ms
      after half of the keep-alive or the retry time. */
  lemma PingTimes(s: PingStateInner, now: int)
    ensures s.PingSuccess? ==> (s.Due(now) <==> now - s.at > 30000)
    ensures s.AwaitingResponse? ==> (s.Due(now) <==> now - s.requestSent > 5000)
    ensures s.PingSuccess? && now - s.at <= 30000 ==> now + s.Pause(now) == s.at + 30010
    ensures s.AwaitingResponse? && now - s.requestSent <= 5000 ==> now + s.Pause(now) == s.requestSent + 5010
  {
  }

  // ---- over every run ----

  /** A run of the state machine, with the times of its packets. */
  datatype Trace = Trace(start: int, now: int, inner: PingStateInner, requests: seq<int>, responses: seq<int>)

  datatype Step = Request(at: int) | Response(at: int)

  function Init(start: int): Trace {
    Trace(start, start, PingSuccess(start), [], [])
  }

  function Apply(t: Trace, a: Step): Trace {
    match a
    case Request(at) => t.(now := at, inner := t.inner.Requested(at), requests := t.requests + [at])
    case Response(at) => t.(now := at, inner := PingSuccess(at), responses := t.responses + [at])
  }

  /** The clock does not run backwards and `send` obeys its guard. */
  predicate Enabled(t: Trace, a: Step) {
    a.at >= t.now && (a.Request? ==> t.inner.Due(a.at))
  }

  predicate EnabledRun(t: Trace, run: seq<Step>)
    decreases |run|
  {
    run != [] ==> Enabled(t, run[0]) && EnabledRun(Apply(t, run[0]), run[1..])
  }

  function Run(t: Trace, run: seq<Step>): Trace
    decreases |run|
  {
    if run == [] then t else Run(Apply(t, run[0]), run[1..])
  }

  /** A run of enabled steps leads here. */
  ghost predicate Reachable(t: Trace) {
    exists run :: EnabledRun(Init(t.start), run) && Run(Init(t.start), run) == t
  }

  lemma {:induction false} RunSnoc(t: Trace, run: seq<Step>, a: Step)
    requires EnabledRun(t, run) && Enabled(Run(t, run), a)
    ensures EnabledRun(t, run + [a]) && Run(t, run + [a]) == Apply(Run(t, run), a)
    decreases |run|
  {
    hide Enabled, Apply;
    if run == [] {
      assert run + [a] == [a] && [a][1..] == [];
    } else {
      assert (run + [a])[1..] == run[1..] + [a];
      RunSnoc(Apply(t, run[0]), run[1..], a);
    }
  }

  lemma InitReachable(start: int)
    ensures Reachable(Init(start))
  {
    assert EnabledRun(Init(start), []) && Run(Init(start), []) == Init(start);
  }

  lemma StepReachable(t: Trace, a: Step)
    requires Enabled(t, a) && Reachable(t)
    ensures Reachable(Apply(t, a))
  {
    hide Enabled;
    var run :| EnabledRun(Init(t.start), run) && Run(Init(t.start), run) == t;
    RunSnoc(Init(t.start), run, a);
  }

  /** The PINGRESP before now, or the start. */
  function LastResponse(t: Trace): int {
    if t.responses == [] then t.start else t.responses[|t.responses| - 1]
  }

  /** The state remembers the last success, and the last PINGREQ since then. */
  predicate Remembers(t: Trace) {
    match t.inner
    case PingSuccess(at) => at == LastResponse(t)
    case AwaitingResponse(lastSuccess, requestSent) =>
      lastSuccess == LastResponse(t) && t.requests != [] && requestSent == t.requests[|t.requests| - 1]
  }

  lemma {:induction false} RunRemembers(t: Trace, run: seq<Step>)
    requires Remembers(t)
    ensures Remembers(Run(t, run))
    decreases |run|
  {
    if run != [] {
      RunRemembers(Apply(t, run[0]), run[1..]);
    }
  }

  lemma ReachableRemembers(t: Trace)
    requires Reachable(t)
    ensures Remembers(t)
  {
    var run :| EnabledRun(Init(t.start), run) && Run(Init(t.start), run) == t;
    RunRemembers(Init(t.start), run);
  }

  // ---- timely runs ----

  /** When the sleep of ping_pause, started in this state, ends. */
  function WakeUp(s: PingStateInner): int {
    s.Since() + s.Pause(s.Since())
  }

  /** What the surroundings promise: a PINGREQ is written at most `delta` after
      the sleep of ping_pause ended, and a PINGRESP answers a PINGREQ, in order
      and within `latency`. A PINGREQ need not be answered at all. */
  predicate Timely(t: Trace, a: Step, latency: nat, delta: nat) {
    match a
    case Request(at) => at <= WakeUp(t.inner) + delta
    case Response(at) => |t.responses| < |t.requests| && at <= t.requests[|t.responses|] + latency
  }

  predicate CanRun(t: Trace, run: seq<Step>, latency: nat, delta: nat)
    decreases |run|
  {
    run != [] ==>
      && Enabled(t, run[0])
      && Timely(t, run[0], latency, delta)
      && CanRun(Apply(t, run[0]), run[1..], latency, delta)
  }

  /** A timely run leads here. */
  ghost predicate Punctual(t: Trace, latency: nat, delta: nat) {
    exists run :: CanRun(Init(t.start), run, latency, delta) && Run(Init(t.start), run) == t
  }

  lemma {:induction false} CanRunSnoc(t: Trace, run: seq<Step>, a: Step, latency: nat, delta: nat)
    requires CanRun(t, run, latency, delta)
    requires Enabled(Run(t, run), a) && Timely(Run(t, run), a, latency, delta)
    ensures CanRun(t, run + [a], latency, delta) && Run(t, run + [a]) == Apply(Run(t, run), a)
    decreases |run|
  {
    hide Enabled, Apply, Timely;
    if run == [] {
      assert run + [a] == [a] && [a][1..] == [];
    } else {
      assert (run + [a])[1..] == run[1..] + [a];
      CanRunSnoc(Apply(t, run[0]), run[1..], a, latency, delta);
    }
  }

  lemma StepPunctual(t: Trace, a: Step, latency: nat, delta: nat)
    requires Enabled(t, a) && Timely(t, a, latency, delta) && Punctual(t, latency, delta)
    ensures Punctual(Apply(t, a), latency, delta)
  {
    hide Enabled, Timely;
    var run :| CanRun(Init(t.start), run, latency, delta) && Run(Init(t.start), run) == t;
    CanRunSnoc(Init(t.start), run, a, latency, delta);
  }

  function Bound(latency: nat, delta: nat): nat {
    latency + KEEP_ALIVE_DURATION / 2 + ERROR_CORRECTING_DURATION + delta
  }

  /** The PINGREQ before the next one, or the start. */
  function LastRequest(t: Trace): int {
    if t.requests == [] then t.start else t.requests[|t.requests| - 1]
  }

  predicate Sorted(s: seq<int>) {
    forall i, j :: 0 <= i < j < |s| ==> s[i] <= s[j]
  }

  predicate Inv(t: Trace, latency: nat, delta: nat) {
    && Sorted(t.requests)
    && t.now >= LastRequest(t)
    && t.now >= t.inner.Since()
    && (t.inner.PingSuccess? ==> t.inner.at <= LastRequest(t) + latency)
    && (t.inner.AwaitingResponse? ==> t.inner.requestSent == LastRequest(t))
    && (t.requests != [] ==> t.requests[0] - t.start <= Bound(latency, delta))
    && forall i :: 1 <= i < |t.requests| ==> t.requests[i] - t.requests[i - 1] <= Bound(latency, delta)
  }

  lemma InvStep(t: Trace, a: Step, latency: nat, delta: nat)
    requires Inv(t, latency, delta) && Enabled(t, a) && Timely(t, a, latency, delta)
    ensures Inv(Apply(t, a), latency, delta)
  {
    match a {
      case Request(at) =>
        assert at - LastRequest(t) <= Bound(latency, delta);
        forall i | 0 <= i < |t.requests|
          ensures t.requests[i] <= at
        {
          assert t.requests[i] <= LastRequest(t);
        }
      case Response(at) =>
        assert t.requests[|t.responses|] <= LastRequest(t);
    }
  }

  lemma {:induction false} InvRun(t: Trace, run: seq<Step>, latency: nat, delta: nat)
    requires Inv(t, latency, delta) && CanRun(t, run, latency, delta)
    ensures Inv(Run(t, run), latency, delta)
    decreases |run|
  {
    if run != [] {
      InvStep(t, run[0], latency, delta);
      InvRun(Apply(t, run[0]), run[1..], latency, delta);
    }
  }

  lemma {:induction false} StartKept(t: Trace, run: seq<Step>)
    ensures Run(t, run).start == t.start
    decreases |run|
  {
    if run != [] {
      StartKept(Apply(t, run[0]), run[1..]);
    }
  }

  /** The keep-alive bound: in every timely run consecutive PINGREQs, and the
      last one and any moment at which no PINGREQ is overdue, are at most
      `latency + 30010 + delta` apart: less than the 60 s of the keep-alive if
      `latency + delta` is below 29990. */
  lemma KeepAlive(start: int, run: seq<Step>, latency: nat, delta: nat, now: int)
    requires CanRun(Init(start), run, latency, delta)
    ensures var t := Run(Init(start), run);
      && (forall i :: 1 <= i < |t.requests| ==> 0 <= t.requests[i] - t.requests[i - 1] <= Bound(latency, delta))
      && (t.requests != [] ==> t.requests[0] - start <= Bound(latency, delta))
      && (now <= WakeUp(t.inner) + delta ==> now - LastRequest(t) <= Bound(latency, delta))
    ensures latency + delta < 29990 <==> Bound(latency, delta) < KEEP_ALIVE_DURATION
  {
    InvRun(Init(start), run, latency, delta);
    StartKept(Init(start), run);
  }

  /** The bound is reached. */
  lemma KeepAliveIsTight(start: int, latency: nat, delta: nat) returns (run: seq<Step>)
    ensures CanRun(Init(start), run, latency, delta)
    ensures var t := Run(Init(start), run);
      |t.requests| == 2 && t.requests[1] - t.requests[0] == Bound(latency, delta)
  {
    var half := KEEP_ALIVE_DURATION / 2 + ERROR_CORRECTING_DURATION + delta;
    var first := start + half;
    var a, b, c := Request(first), Response(first + latency), Request(first + latency + half);
    run := [a, b, c];
    var t0 := Init(start);
    var t1 := Apply(t0, a);
    var t2 := Apply(t1, b);
    assert run[1..] == [b, c] && [b, c][1..] == [c] && [c][1..] == [];
    assert Run(t2, [c]) == Apply(t2, c);
    assert CanRun(t2, [c], latency, delta);
    assert CanRun(t1, [b, c], latency, delta);
    assert Run(t1, [b, c]) == Apply(t2, c);
  }

  // ---- the mutable object ----

  class PingState {
    var inner: PingStateInner

    /** The packets so far, as a run of `Trace`. */
    ghost var trace: Trace

    /** The trace is that of this object ... */
    ghost predicate Traced()
      reads this
    {
      trace.inner == inner
    }

    /** ... and a run of enabled steps leads to it, as long as the clock has not
        run backwards. */
    ghost predicate Valid()
      reads this
    {
      Traced() && Reachable(trace)
    }

    /** ... or even a timely one. */
    ghost predicate OnTime(latency: nat, delta: nat)
      reads this
    {
      Traced() && Punctual(trace, latency, delta)
    }

    constructor (now: int)
      ensures inner == PingSuccess(now) && trace == Init(now) && Valid()
      ensures forall latency, delta :: OnTime(latency, delta)
    {
      inner := PingSuccess(now);
      trace := Init(now);
      new;
      InitReachable(now);
      assert forall latency, delta :: CanRun(trace, [], latency, delta);
      assert Run(trace, []) == trace;
    }

    method PingPause(now: int) returns (duration: int)
      ensures duration == inner.Pause(now)
    {
      match inner {
        case PingSuccess(at) =>
          if now - at > KEEP_ALIVE_DURATION / 2 {
            duration := 0;
          } else {
            duration := KEEP_ALIVE_DURATION / 2 - (now - at) + ERROR_CORRECTING_DURATION;
          }
        case AwaitingResponse(_, requestSent) =>
          var diff := now - requestSent;
          if diff > PING_RETRY_DURATION {
            duration := 0;
          } else {
            duration := PING_RETRY_DURATION - diff + ERROR_CORRECTING_DURATION;
          }
      }
    }

    /** A PINGREQ that the connection takes is a step of the trace, and the guard
        of `send` is the guard of that step. */
    method Send(connection: Connection) returns (r: Outcome<SendResult>)
      requires Traced() && connection.Valid()
      modifies this, connection
      ensures Traced() && connection.Valid()
      ensures Pass(inner, connection.View(), r) == SendPing(old(inner), old(connection.View()))
      ensures var now := old(connection.View()).Now();
        if old(inner).Due(now) && old(connection.View()).Answer(Pingreq) == Accept then
          && trace == Apply(old(trace), Request(now))
          && (now >= old(trace).now ==> Enabled(old(trace), Request(now)))
        else trace == old(trace)
      ensures old(Valid()) && NeverBefore(connection.clock, old(trace).now) ==> Valid()
      ensures trace == old(trace) || Shows(connection.clock, trace.now)
    {
      hide Connection.Valid, Reachable;
      var now := connection.Now();
      ghost var before := trace;
      var lastSuccess;
      match inner {
        case PingSuccess(at) =>
          if now - at <= KEEP_ALIVE_DURATION / 2 {
            return Ok(SentAll);
          }
          lastSuccess := at;
        case AwaitingResponse(success, requestSent) =>
          if now - requestSent <= PING_RETRY_DURATION {
            return Ok(SentAll);
          }
          lastSuccess := success;
      }
      var sent := connection.TryWritePacket(Pingreq);
      match sent {
        case Ok(taken) =>
          if taken {
            inner := AwaitingResponse(lastSuccess, now);
            trace := Apply(trace, Request(now));
            r := Ok(SentAll);
            if Reachable(before) && now >= before.now {
              StepReachable(before, Request(now));
            }
          } else {
            r := Ok(PartiallySent);
          }
        case Err(e) => r := Err(e);
      }
    }

    method OnPingResponse(now: int)
      requires Traced()
      modifies this
      ensures Traced() && inner == PingSuccess(now)
      ensures trace == Apply(old(trace), Response(now))
      ensures old(Valid()) && now >= old(trace).now ==> Valid()
    {
      hide Reachable;
      if Reachable(trace) && now >= trace.now {
        StepReachable(trace, Response(now));
      }
      inner := PingSuccess(now);
      trace := Apply(trace, Response(now));
    }
  }

  /** The object keeps the bound: a step that is made in time, by a clock that does
      not run backwards, keeps a timely trace timely ... */
  twostate lemma StillOnTime(p: PingState, a: Step, latency: nat, delta: nat)
    requires old(p.OnTime(latency, delta)) && a.at >= old(p.trace).now
    requires a.Request? ==> old(p.inner).Due(a.at)
    requires Timely(old(p.trace), a, latency, delta)
    requires p.Traced() && p.trace == Apply(old(p.trace), a)
    ensures p.OnTime(latency, delta)
  {
    StepPunctual(old(p.trace), a, latency, delta);
  }

  /** ... and then its PINGREQs are as close together as KeepAlive says. */
  lemma ObjectKeepsAlive(p: PingState, latency: nat, delta: nat)
    requires p.OnTime(latency, delta)
    ensures var t := p.trace;
      && (forall i :: 1 <= i < |t.requests| ==> 0 <= t.requests[i] - t.requests[i - 1] <= Bound(latency, delta))
      && (t.requests != [] ==> t.requests[0] - t.start <= Bound(latency, delta))
  {
    var run :| CanRun(Init(p.trace.start), run, latency, delta) && Run(Init(p.trace.start), run) == p.trace;
    KeepAlive(p.trace.start, run, latency, delta, p.trace.start);
  }
}
