/** The circuit breaker (core/circuit_breaker.py) with many calls in flight.  Every
    locked method is one atomic step; admissions and completions come in any order. */
module CircuitBreaker {
  type Time = real

  datatype State = Closed | Open | HalfOpen

  datatype Config = Config(threshold: int, recovery: Time, maxProbes: int)

  /** The breaker's fields. */
  datatype Core = Core(state: State, failures: int, lastFailure: Time, halfOpenCalls: int)

  const FRESH: Core := Core(Closed, 0, 0.0, 0)

  /** `_check_state`: the new fields and whether the call is admitted. */
  function Check(c: Config, b: Core, now: Time): (Core, bool) {
    var b' := if b.state == Open && now - b.lastFailure >= c.recovery
                  then b.(state := HalfOpen, halfOpenCalls := 0) else b;
    match b'.state
    case Closed => (b', true)
    case Open => (b', false)
    case HalfOpen => if b'.halfOpenCalls >= c.maxProbes then (b', false)
                     else (b'.(halfOpenCalls := b'.halfOpenCalls + 1), true)
  }

  function Succeed(b: Core): Core {
    Core(Closed, 0, b.lastFailure, 0)
  }

  function Fail(c: Config, b: Core, now: Time): Core {
    Core(if b.failures + 1 >= c.threshold then Open else b.state, b.failures + 1, now, b.halfOpenCalls)
  }

  class Breaker {
    const config: Config
    var state: State
    var failures: int
    var lastFailureTime: Time
    var halfOpenCalls: int

    function Fields(): Core
      reads this
    {
      Core(state, failures, lastFailureTime, halfOpenCalls)
    }

    constructor (config: Config)
      ensures this.config == config && Fields() == FRESH
    {
      this.config := config;
      state, failures, lastFailureTime, halfOpenCalls := Closed, 0, 0.0, 0;
    }

    method CheckState(now: Time) returns (admitted: bool)
      modifies this
      ensures (Fields(), admitted) == Check(config, old(Fields()), now)
    {
      if state == Open {
        if now - lastFailureTime >= config.recovery {
          state := HalfOpen;
          halfOpenCalls := 0;
        } else {
          return false;
        }
      }
      if state == HalfOpen {
        if halfOpenCalls >= config.maxProbes {
          return false;
        }
        halfOpenCalls := halfOpenCalls + 1;
      }
      admitted := true;
    }

    method OnSuccess()
      modifies this
      ensures Fields() == Succeed(old(Fields()))
    {
      failures := 0;
      halfOpenCalls := 0;
      state := Closed;
    }

    method OnFailure(now: Time)
      modifies this
      ensures Fields() == Fail(config, old(Fields()), now)
    {
      failures := failures + 1;
      lastFailureTime := now;
      if failures >= config.threshold {
        state := Open;
      }
    }
  }

  // ----- arbitrary interleavings -----

  type CallId = nat

  /** What happens at the breaker.  `Abandon` is a guarded call that ends in an
      HTTPException, which the guard counts neither way. */
  datatype Act =
    | Enter(id: CallId, now: Time)
    | Success(id: CallId)
    | Failure(id: CallId, now: Time)
    | Abandon(id: CallId)

  datatype Event =
    | Admitted(at: Time) | Refused(at: Time)
    | Switched(at: Time)
    | Succeeded | Failed(at: Time) | Abandoned

  datatype Machine = Machine(core: Core, inFlight: set<CallId>, clock: Time, log: seq<Event>)

  const START: Machine := Machine(FRESH, {}, 0.0, [])

  /** A call enters once, at a time that never runs backwards, and ends once. */
  predicate Enabled(m: Machine, a: Act) {
    match a
    case Enter(id, now) => id !in m.inFlight && now >= m.clock
    case Success(id) => id in m.inFlight
    case Failure(id, now) => id in m.inFlight && now >= m.clock
    case Abandon(id) => id in m.inFlight
  }

  function Step(c: Config, m: Machine, a: Act): Machine {
    if !Enabled(m, a) then m else
    match a
    case Enter(id, now) =>
      var (core, admitted) := Check(c, m.core, now);
      Machine(core, if admitted then m.inFlight + {id} else m.inFlight, now,
              m.log + (if m.core.state == Open && core.state == HalfOpen then [Switched(now)] else [])
                    + [if admitted then Admitted(now) else Refused(now)])
    case Success(id) => Machine(Succeed(m.core), m.inFlight - {id}, m.clock, m.log + [Succeeded])
    case Failure(id, now) => Machine(Fail(c, m.core, now), m.inFlight - {id}, now, m.log + [Failed(now)])
    case Abandon(id) => m.(inFlight := m.inFlight - {id}, log := m.log + [Abandoned])
  }

  function Run(c: Config, m: Machine, acts: seq<Act>): Machine
    decreases |acts|
  {
    if acts == [] then m else Run(c, Step(c, m, acts[0]), acts[1..])
  }

  // ----- what the fields mean, read off the history -----

  /** Counted failures since the last success. */
  function FailuresSince(log: seq<Event>): nat {
    if log == [] then 0 else
    var rest := FailuresSince(log[..|log| - 1]);
    match log[|log| - 1]
    case Failed(_) => rest + 1
    case Succeeded => 0
    case _ => rest
  }

  function LastFailed(log: seq<Event>): Time {
    if log == [] then 0.0 else if log[|log| - 1].Failed? then log[|log| - 1].at else LastFailed(log[..|log| - 1])
  }

  /** No call has ended, in success or failure, since the last switch. */
  predicate Testing(log: seq<Event>) {
    if log == [] then false else
    match log[|log| - 1]
    case Switched(_) => true
    case Failed(_) => false
    case Succeeded => false
    case _ => Testing(log[..|log| - 1])
  }

  /** Admissions since the last switch to half-open, unless a success came after it. */
  function ProbesSince(log: seq<Event>): nat {
    if log == [] then 0 else
    var before := log[..|log| - 1];
    match log[|log| - 1]
    case Switched(_) => 0
    case Succeeded => 0
    case Admitted(_) => if SwitchedSinceSuccess(before) then ProbesSince(before) + 1 else 0
    case _ => ProbesSince(before)
  }

  predicate SwitchedSinceSuccess(log: seq<Event>) {
    if log == [] then false else
    match log[|log| - 1]
    case Switched(_) => true
    case Succeeded => false
    case _ => SwitchedSinceSuccess(log[..|log| - 1])
  }

  function Phase(c: Config, log: seq<Event>): State {
    if FailuresSince(log) < c.threshold then Closed else if Testing(log) then HalfOpen else Open
  }

  /** The fields are exactly this reading of the history. */
  ghost predicate Faithful(c: Config, m: Machine) {
    && m.core.state == Phase(c, m.log)
    && m.core.failures == FailuresSince(m.log)
    && m.core.lastFailure == LastFailed(m.log)
    && m.core.halfOpenCalls == ProbesSince(m.log)
    && (m.core.state == HalfOpen ==> SwitchedSinceSuccess(m.log))
    && (m.core.state == Closed ==> !SwitchedSinceSuccess(m.log))
    && (m.core.halfOpenCalls <= c.maxProbes || m.core.halfOpenCalls == 0)
  }

  lemma LogGrows(log: seq<Event>, e: Event)
    ensures FailuresSince(log + [e]) ==
            (if e.Failed? then FailuresSince(log) + 1 else if e.Succeeded? then 0 else FailuresSince(log))
    ensures LastFailed(log + [e]) == if e.Failed? then e.at else LastFailed(log)
    ensures Testing(log + [e]) == (e.Switched? || (Testing(log) && !e.Failed? && !e.Succeeded?))
    ensures SwitchedSinceSuccess(log + [e]) == (e.Switched? || (SwitchedSinceSuccess(log) && !e.Succeeded?))
    ensures ProbesSince(log + [e]) ==
            if e.Switched? || e.Succeeded? then 0
            else if e.Admitted? then if SwitchedSinceSuccess(log) then ProbesSince(log) + 1 else 0
            else ProbesSince(log)
  {
  }

  lemma {:induction false} NoSwitchNoProbes(log: seq<Event>)
    ensures !SwitchedSinceSuccess(log) ==> ProbesSince(log) == 0
  {
    if log != [] { NoSwitchNoProbes(log[..|log| - 1]); }
  }

  lemma FaithfulSwitch(c: Config, m: Machine, now: Time)
    requires c.threshold >= 1 && Faithful(c, m) && m.core.state == Open
    ensures Faithful(c, Machine(m.core.(state := HalfOpen, halfOpenCalls := 0),
                             m.inFlight, now, m.log + [Switched(now)]))
  {
  }

  lemma FaithfulAnswer(c: Config, m: Machine, id: CallId, now: Time)
    requires c.threshold >= 1 && Faithful(c, m) && Enabled(m, Enter(id, now))
    requires Check(c, m.core, now).0.state == m.core.state
    ensures Faithful(c, Step(c, m, Enter(id, now)))
  {
    var e := if Check(c, m.core, now).1 then Admitted(now) else Refused(now);
    var m' := Step(c, m, Enter(id, now));
    assert m'.log == m.log + [e];
    NoSwitchNoProbes(m.log);
    LogGrows(m.log, e);
    assert Phase(c, m'.log) == Phase(c, m.log) == m'.core.state;
  }

  lemma FaithfulEnter(c: Config, m: Machine, id: CallId, now: Time)
    requires c.threshold >= 1 && Faithful(c, m) && Enabled(m, Enter(id, now))
    ensures Faithful(c, Step(c, m, Enter(id, now)))
  {
    if m.core.state == Open && Check(c, m.core, now).0.state == HalfOpen {
      FaithfulSwitch(c, m, now);
      var mid := Machine(m.core.(state := HalfOpen, halfOpenCalls := 0), m.inFlight, now, m.log + [Switched(now)]);
      FaithfulAnswer(c, mid, id, now);
      assert Step(c, m, Enter(id, now)).log == Step(c, mid, Enter(id, now)).log;
    } else {
      FaithfulAnswer(c, m, id, now);
    }
  }

  lemma FaithfulStep(c: Config, m: Machine, a: Act)
    requires c.threshold >= 1 && Faithful(c, m)
    ensures Faithful(c, Step(c, m, a))
  {
    if Enabled(m, a) {
      match a
      case Enter(id, now) => FaithfulEnter(c, m, id, now);
      case Success(_) => LogGrows(m.log, Succeeded);
      case Failure(_, now) => LogGrows(m.log, Failed(now));
      case Abandon(_) => LogGrows(m.log, Abandoned);
    }
  }

  /** Under every interleaving: the breaker is closed iff fewer than `threshold`
      failures were counted since the last success, `failures` is that count, and
      the half-open quota counts, and bounds, the admissions since the switch. */
  lemma {:induction false} BreakerFaithful(c: Config, acts: seq<Act>)
    requires c.threshold >= 1
    ensures var m := Run(c, START, acts);
            && Faithful(c, m)
            && (m.core.state == Closed <==> m.core.failures < c.threshold)
            && (m.core.state == HalfOpen ==> ProbesSince(m.log) == m.core.halfOpenCalls)
            && (c.maxProbes >= 0 ==> ProbesSince(m.log) <= c.maxProbes)
  {
    FaithfulRun(c, START, acts);
  }

  lemma {:induction false} FaithfulRun(c: Config, m: Machine, acts: seq<Act>)
    requires c.threshold >= 1 && Faithful(c, m)
    ensures Faithful(c, Run(c, m, acts))
    decreases |acts|
  {
    if acts != [] {
      FaithfulStep(c, m, acts[0]);
      FaithfulRun(c, Step(c, m, acts[0]), acts[1..]);
    }
  }

  // ----- the answers -----

  /** What the history says about a call at `now`: turned away once the threshold is
      reached, either because the current test phase has its quota of probes or
      because the next one is not due yet (or may not have any). */
  predicate TurnedAway(c: Config, log: seq<Event>, now: Time) {
    && FailuresSince(log) >= c.threshold
    && if Testing(log) then ProbesSince(log) >= c.maxProbes
       else now - LastFailed(log) < c.recovery || c.maxProbes <= 0
  }

  /** Over every run a call is refused exactly when the history says so; otherwise it
      is in flight afterwards.  Below the threshold every call is admitted. */
  lemma {:induction false} RefusedExactly(c: Config, acts: seq<Act>, id: CallId, now: Time)
    requires c.threshold >= 1 && Enabled(Run(c, START, acts), Enter(id, now))
    ensures var m := Run(c, START, acts);
            var m' := Step(c, m, Enter(id, now));
            && m'.log != [] && m'.clock == now
            && m'.log[|m'.log| - 1] == (if TurnedAway(c, m.log, now) then Refused(now) else Admitted(now))
            && m'.inFlight == (if TurnedAway(c, m.log, now) then m.inFlight else m.inFlight + {id})
            && (FailuresSince(m.log) < c.threshold ==> m'.log == m.log + [Admitted(now)])
  {
    FaithfulRun(c, START, acts);
  }

  // ----- an outage -----

  predicate NoSuccess(log: seq<Event>, from: nat) {
    forall k | from <= k < |log| :: !log[k].Succeeded?
  }

  /** Events carry times up to the clock; once a probe round has failed, that failure
      is no older than the switch it followed. */
  ghost predicate Timely(m: Machine) {
    && (forall i | 0 <= i < |m.log| && (m.log[i].Switched? || m.log[i].Failed?) :: m.log[i].at <= m.clock)
    && (forall i | 0 <= i < |m.log| && m.log[i].Switched? && NoSuccess(m.log, i) && !Testing(m.log) ::
          LastFailed(m.log) >= m.log[i].at)
  }

  /** Two switches without a success between them are a recovery time apart. */
  ghost predicate SwitchesApart(c: Config, log: seq<Event>) {
    forall i, j | 0 <= i < j < |log| && log[i].Switched? && log[j].Switched? && NoSuccess(log[..j], i) ::
      log[j].at - log[i].at >= c.recovery
  }

  lemma ApartGrows(c: Config, log: seq<Event>, e: Event)
    requires SwitchesApart(c, log)
    requires e.Switched? ==>
        forall i | 0 <= i < |log| && log[i].Switched? && NoSuccess(log, i) :: e.at - log[i].at >= c.recovery
    ensures SwitchesApart(c, log + [e])
  {
    var log' := log + [e];
    forall i, j | 0 <= i < j < |log'| && log'[i].Switched? && log'[j].Switched? && NoSuccess(log'[..j], i)
      ensures log'[j].at - log'[i].at >= c.recovery
    {
      assert log'[..j] == log[..j];
      if j == |log| { assert log[..j] == log; }
    }
  }

  lemma TimelyGrows(m: Machine, e: Event, m': Machine)
    requires Timely(m) && m'.log == m.log + [e] && m'.clock >= m.clock
    requires e.Failed? || e.Switched? ==> e.at == m'.clock
    ensures Timely(m')
  {
  }

  lemma {:induction false} OutageStep(c: Config, m: Machine, a: Act)
    requires c.threshold >= 1 && Faithful(c, m) && Timely(m) && SwitchesApart(c, m.log)
    ensures Timely(Step(c, m, a)) && SwitchesApart(c, Step(c, m, a).log)
  {
    if Enabled(m, a) {
      var m' := Step(c, m, a);
      match a
      case Enter(_, now) =>
        var (core, admitted) := Check(c, m.core, now);
        var e := if admitted then Admitted(now) else Refused(now);
        if m.core.state == Open && core.state == HalfOpen {
          var mid := Machine(core, m.inFlight, now, m.log + [Switched(now)]);
          TimelyGrows(m, Switched(now), mid);
          ApartGrows(c, m.log, Switched(now));
          TimelyGrows(mid, e, m');
          ApartGrows(c, mid.log, e);
        } else {
          assert m'.log == m.log + [e];
          TimelyGrows(m, e, m');
          ApartGrows(c, m.log, e);
        }
      case Success(_) =>
        TimelyGrows(m, Succeeded, m');
        ApartGrows(c, m.log, Succeeded);
      case Failure(_, now) =>
        TimelyGrows(m, Failed(now), m');
        ApartGrows(c, m.log, Failed(now));
      case Abandon(_) =>
        TimelyGrows(m, Abandoned, m');
        ApartGrows(c, m.log, Abandoned);
    }
  }

  lemma {:induction false} OutageRun(c: Config, m: Machine, acts: seq<Act>)
    requires c.threshold >= 1 && Faithful(c, m) && Timely(m) && SwitchesApart(c, m.log)
    ensures SwitchesApart(c, Run(c, m, acts).log)
    decreases |acts|
  {
    if acts != [] {
      FaithfulStep(c, m, acts[0]);
      OutageStep(c, m, acts[0]);
      OutageRun(c, Step(c, m, acts[0]), acts[1..]);
    }
  }

  /** While a service stays down, it is probed in rounds that start at least a
      recovery time apart, each of at most `maxProbes` calls. */
  lemma OutageProbesSpaced(c: Config, acts: seq<Act>)
    requires c.threshold >= 1
    ensures SwitchesApart(c, Run(c, START, acts).log)
  {
    OutageRun(c, START, acts);
  }

  // ----- recovery -----

  /** No call is in flight and none will be admitted: the quota is used up, or there
      is none. */
  predicate Wedged(c: Config, m: Machine) {
    && m.inFlight == {}
    && ((m.core.state == HalfOpen && m.core.halfOpenCalls >= c.maxProbes) || (m.core.state == Open && c.maxProbes <= 0))
  }

  lemma {:induction false} WedgedForever(c: Config, m: Machine, acts: seq<Act>)
    requires Wedged(c, m)
    ensures Wedged(c, Run(c, m, acts)) && (m.core.state == HalfOpen ==> Run(c, m, acts).core == m.core)
    ensures forall now :: !Check(c, Run(c, m, acts).core, now).1
    decreases |acts|
  {
    if acts != [] {
      WedgedForever(c, Step(c, m, acts[0]), acts[1..]);
    }
  }

  lemma RunTwo(c: Config, m: Machine, a: Act, b: Act)
    ensures Run(c, m, [a, b]) == Step(c, Step(c, m, a), b)
  {
    assert [a, b][1..] == [b] && [b][1..] == [];
    assert Run(c, m, [a, b]) == Run(c, Step(c, m, a), [b]);
    assert Run(c, Step(c, m, a), [b]) == Run(c, Step(c, Step(c, m, a), b), []);
  }

  lemma {:induction false} RunAppend(c: Config, m: Machine, acts: seq<Act>, more: seq<Act>)
    ensures Run(c, m, acts + more) == Run(c, Run(c, m, acts), more)
    decreases |acts|
  {
    if acts == [] {
      assert acts + more == more;
    } else {
      assert (acts + more)[1..] == acts[1..] + more;
      RunAppend(c, Step(c, m, acts[0]), acts[1..], more);
    }
  }

  lemma RecoveringRun(c: Config, m: Machine) returns (acts: seq<Act>)
    requires !Wedged(c, m)
    ensures Run(c, m, acts).core.state == Closed
  {
    if m.core.state == Closed {
      acts := [];
    } else if m.inFlight != {} {
      var id :| id in m.inFlight;
      acts := [Success(id)];
      assert acts[1..] == [];
    } else {
      var id := 0;
      var due := m.core.lastFailure + c.recovery;
      var now := if due > m.clock then due else m.clock;
      acts := [Enter(id, now), Success(id)];
      RunTwo(c, m, Enter(id, now), Success(id));
    }
  }

  /** The breaker can always close again, unless it is wedged; then it refuses every
      call from there on. */
  lemma RecoverableExactly(c: Config, m: Machine)
    ensures (exists acts :: Run(c, m, acts).core.state == Closed) <==> !Wedged(c, m)
  {
    if Wedged(c, m) {
      forall acts ensures Run(c, m, acts).core.state != Closed { WedgedForever(c, m, acts); }
    } else {
      var acts := RecoveringRun(c, m);
    }
  }

  // ----- how it gets wedged -----

  function AtLeast(n: int, low: nat): nat { if n >= low then n else low }

  function FailedCalls(n: nat): seq<Act> {
    if n == 0 then [] else FailedCalls(n - 1) + [Enter(0, 0.0), Failure(0, 0.0)]
  }

  function AbandonedProbes(now: Time, n: nat): seq<Act> {
    if n == 0 then [] else AbandonedProbes(now, n - 1) + [Enter(0, now), Abandon(0)]
  }

  lemma {:induction false} Tripping(c: Config, n: nat)
    requires n <= AtLeast(c.threshold, 1)
    ensures var m := Run(c, START, FailedCalls(n));
            && m.core == Core(if 0 < n && n >= c.threshold then Open else Closed, n, 0.0, 0)
            && m.inFlight == {} && m.clock == 0.0
  {
    if n > 0 {
      Tripping(c, n - 1);
      RunAppend(c, START, FailedCalls(n - 1), [Enter(0, 0.0), Failure(0, 0.0)]);
      RunTwo(c, Run(c, START, FailedCalls(n - 1)), Enter(0, 0.0), Failure(0, 0.0));
    }
  }

  lemma {:induction false} UsedUp(c: Config, m: Machine, now: Time, n: nat)
    requires m.core.state == Open && m.inFlight == {} && now >= m.clock && now - m.core.lastFailure >= c.recovery
    requires 1 <= n <= c.maxProbes
    ensures var m' := Run(c, m, AbandonedProbes(now, n));
            m'.core.state == HalfOpen && m'.core.halfOpenCalls == n && m'.inFlight == {} && m'.clock == now
  {
    var before := Run(c, m, AbandonedProbes(now, n - 1));
    if n > 1 { UsedUp(c, m, now, n - 1); }
    RunAppend(c, m, AbandonedProbes(now, n - 1), [Enter(0, now), Abandon(0)]);
    RunTwo(c, before, Enter(0, now), Abandon(0));
  }

  /** A probe that ends in an HTTPException is what wedges it.  Under every
      configuration it takes no more than a trip followed by as many abandoned probes
      as the quota allows. */
  lemma AbandonedProbesWedge(c: Config)
    ensures var now := if c.recovery >= 0.0 then c.recovery else 0.0;
            Wedged(c, Run(c, START,
                FailedCalls(AtLeast(c.threshold, 1)) + AbandonedProbes(now, AtLeast(c.maxProbes, 0))))
  {
    var now := if c.recovery >= 0.0 then c.recovery else 0.0;
    var n, probes := AtLeast(c.threshold, 1), AbandonedProbes(now, AtLeast(c.maxProbes, 0));
    Tripping(c, n);
    RunAppend(c, START, FailedCalls(n), probes);
    if c.maxProbes >= 1 { UsedUp(c, Run(c, START, FailedCalls(n)), now, c.maxProbes); }
  }

  predicate NoneAbandoned(acts: seq<Act>) {
    forall a | a in acts :: !a.Abandon?
  }

  /** Every probe of the current round is still in flight. */
  ghost predicate ProbesInFlight(m: Machine) {
    m.core.state == HalfOpen ==> m.core.halfOpenCalls <= |m.inFlight|
  }

  lemma {:induction false} HealthyRun(c: Config, m: Machine, acts: seq<Act>)
    requires c.threshold >= 1 && Faithful(c, m) && ProbesInFlight(m) && NoneAbandoned(acts)
    ensures ProbesInFlight(Run(c, m, acts))
    decreases |acts|
  {
    if acts != [] {
      assert acts[0] in acts && forall a | a in acts[1..] :: a in acts;
      FaithfulStep(c, m, acts[0]);
      HealthyRun(c, Step(c, m, acts[0]), acts[1..]);
    }
  }

  /** When every admitted call ends in a success or a counted failure the breaker is
      never wedged: a used-up quota means that a probe is still running. */
  lemma NeverWedgedUnlessAbandoned(c: Config, acts: seq<Act>)
    requires c.threshold >= 1 && c.maxProbes >= 1 && NoneAbandoned(acts)
    ensures !Wedged(c, Run(c, START, acts))
  {
    HealthyRun(c, START, acts);
  }
}
