/** The sliding-window login limiter (middleware/rate_limit.py). */
module RateLimit {

  type Key = nat   // a client address
  type Time = int  // microseconds

  const SECOND: Time := 1_000_000

  datatype Config = Config(times: int, seconds: int) {
    function Window(): Time { seconds * SECOND }
  }

  type Calls = map<Key, seq<Time>>

  function Get(calls: Calls, key: Key): seq<Time> {
    if key in calls then calls[key] else []
  }

  /** `[t for t in calls if t > start]`. */
  function After(ts: seq<Time>, start: Time): seq<Time> {
    if ts == [] then [] else
    var last := ts[|ts| - 1];
    After(ts[..|ts| - 1], start) + if last > start then [last] else []
  }

  /** One request: prune, then refuse or record. */
  function Admit(c: Config, calls: Calls, key: Key, now: Time): (Calls, bool) {
    var recent := After(Get(calls, key), now - c.Window());
    if |recent| >= c.times then (calls[key := recent], false) else (calls[key := recent + [now]], true)
  }

  class LoginRateLimiter {
    const config: Config
    var calls: Calls

    constructor (times: int, seconds: int)
      ensures config == Config(times, seconds) && calls == map[]
    {
      config := Config(times, seconds);
      calls := map[];
    }

    /** Answers true when the request may pass, false for a 429. */
    method Call(key: Key, now: Time) returns (accepted: bool)
      modifies this
      ensures (calls, accepted) == Admit(config, old(calls), key, now)
    {
      var windowStart := now - config.Window();
      calls := calls[key := After(Get(calls, key), windowStart)];
      if |calls[key]| >= config.times {
        assert calls == old(calls)[key := After(Get(old(calls), key), windowStart)];
        return false;
      }
      calls := calls[key := calls[key] + [now]];
      assert calls == old(calls)[key := After(Get(old(calls), key), windowStart) + [now]];
      accepted := true;
    }
  }

  // ----- runs -----

  datatype Request = Request(key: Key, at: Time)

  datatype Answer = Answer(request: Request, accepted: bool)

  /** The limiter's memory and the full history of answers after some requests. */
  function Run(c: Config, rs: seq<Request>): (Calls, seq<Answer>) {
    if rs == [] then (map[], []) else
    var (calls, answers) := Run(c, rs[..|rs| - 1]);
    var last := rs[|rs| - 1];
    var (calls', accepted) := Admit(c, calls, last.key, last.at);
    (calls', answers + [Answer(last, accepted)])
  }

  /** Everything a key was ever granted, oldest first. */
  function Granted(answers: seq<Answer>, key: Key): seq<Time> {
    if answers == [] then [] else
    var last := answers[|answers| - 1];
    Granted(answers[..|answers| - 1], key) +
    if last.accepted && last.request.key == key then [last.request.at] else []
  }

  /** How many of the times lie in the window (lo, hi]. */
  function InWindow(ts: seq<Time>, lo: Time, hi: Time): nat {
    if ts == [] then 0 else
    InWindow(ts[..|ts| - 1], lo, hi) + if lo < ts[|ts| - 1] <= hi then 1 else 0
  }

  /** The calls in one window length behind `x`. */
  function Load(c: Config, ts: seq<Time>, x: Time): nat { InWindow(ts, x, x + c.Window()) }

  /** The clock never runs backwards. */
  predicate Clocked(rs: seq<Request>) {
    forall i, j | 0 <= i < j < |rs| :: rs[i].at <= rs[j].at
  }

  predicate AtMost(ts: seq<Time>, now: Time) {
    forall t | t in ts :: t <= now
  }

  function Limit(c: Config): nat { if c.times < 0 then 0 else c.times }

  ghost predicate Bounded(c: Config, ts: seq<Time>) {
    forall x: Time :: Load(c, ts, x) <= Limit(c)
  }

  lemma AfterAppend(ts: seq<Time>, t: Time, start: Time)
    ensures After(ts + [t], start) == After(ts, start) + if t > start then [t] else []
  {
  }

  lemma InWindowAppend(ts: seq<Time>, t: Time, lo: Time, hi: Time)
    ensures InWindow(ts + [t], lo, hi) == InWindow(ts, lo, hi) + if lo < t <= hi then 1 else 0
  {
  }

  lemma GrantedAppend(answers: seq<Answer>, a: Answer, key: Key)
    ensures Granted(answers + [a], key) ==
            Granted(answers, key) + if a.accepted && a.request.key == key then [a.request.at] else []
  {
  }

  /** Pruning twice is pruning at the later time. */
  lemma {:induction false} AfterAfter(ts: seq<Time>, early: Time, late: Time)
    requires early <= late
    ensures After(After(ts, early), late) == After(ts, late)
  {
    if ts != [] {
      var before, last := ts[..|ts| - 1], ts[|ts| - 1];
      AfterAfter(before, early, late);
      if last > early {
        AfterAppend(After(before, early), last, late);
      } else {
        assert After(ts, early) == After(before, early) && After(ts, late) == After(before, late);
      }
    }
  }

  lemma {:induction false} WindowAfter(ts: seq<Time>, start: Time, lo: Time, hi: Time)
    requires start <= lo
    ensures InWindow(ts, lo, hi) <= |After(ts, start)|
  {
    if ts != [] { WindowAfter(ts[..|ts| - 1], start, lo, hi); }
  }

  lemma {:induction false} WindowIsAfter(ts: seq<Time>, lo: Time, hi: Time)
    requires AtMost(ts, hi)
    ensures InWindow(ts, lo, hi) == |After(ts, lo)|
  {
    if ts != [] {
      var before := ts[..|ts| - 1];
      assert ts[|ts| - 1] in ts && forall t | t in before :: t in ts;
      WindowIsAfter(before, lo, hi);
    }
  }

  /** What is kept about a key is enough to prune its full history at any later time. */
  ghost predicate Remembers(kept: seq<Time>, granted: seq<Time>, start: Time) {
    forall later: Time | later >= start :: After(kept, later) == After(granted, later)
  }

  lemma RememberPruned(kept: seq<Time>, granted: seq<Time>, start: Time, later: Time)
    requires Remembers(kept, granted, start) && start <= later
    ensures After(kept, later) == After(granted, later) && Remembers(After(kept, later), granted, later)
  {
    forall late: Time | late >= later ensures After(After(kept, later), late) == After(granted, late) {
      AfterAfter(kept, later, late);
    }
  }

  lemma RememberAdded(kept: seq<Time>, granted: seq<Time>, start: Time, now: Time)
    requires Remembers(kept, granted, start)
    ensures Remembers(kept + [now], granted + [now], start)
  {
    forall later: Time | later >= start ensures After(kept + [now], later) == After(granted + [now], later) {
      AfterAppend(kept, now, later);
      AfterAppend(granted, now, later);
    }
  }

  lemma BoundedStep(c: Config, granted: seq<Time>, now: Time)
    requires Bounded(c, granted) && AtMost(granted, now) && |After(granted, now - c.Window())| < c.times
    ensures Bounded(c, granted + [now])
  {
    forall x: Time ensures Load(c, granted + [now], x) <= Limit(c) {
      assert Load(c, granted, x) <= Limit(c);
      InWindowAppend(granted, now, x, x + c.Window());
      if x + c.Window() >= now { WindowAfter(granted, now - c.Window(), x, x + c.Window()); }
    }
  }

  ghost predicate KeySound(c: Config, calls: Calls, answers: seq<Answer>, clock: Time, key: Key) {
    var granted := Granted(answers, key);
    Remembers(Get(calls, key), granted, clock - c.Window()) && AtMost(granted, clock) && Bounded(c, granted)
  }

  lemma OtherKeyStep(c: Config, kept: seq<Time>, granted: seq<Time>, clock: Time, now: Time)
    requires Remembers(kept, granted, clock - c.Window()) && AtMost(granted, clock) && clock <= now
    ensures Remembers(kept, granted, now - c.Window()) && AtMost(granted, now)
  {
  }

  lemma OwnKeyStep(c: Config, kept: seq<Time>, granted: seq<Time>, clock: Time, now: Time)
    requires Remembers(kept, granted, clock - c.Window()) && AtMost(granted, clock)
             && Bounded(c, granted) && clock <= now
    ensures var recent := After(kept, now - c.Window());
            && Remembers(recent, granted, now - c.Window())
            && Remembers(recent + [now], granted + [now], now - c.Window())
            && AtMost(granted + [now], now)
            && (|recent| < c.times ==> Bounded(c, granted + [now]))
  {
    var start := now - c.Window();
    var recent := After(kept, start);
    assert recent == After(granted, start) && Remembers(recent, granted, start) by {
      RememberPruned(kept, granted, clock - c.Window(), start);
    }
    assert Remembers(recent + [now], granted + [now], start) by { RememberAdded(recent, granted, start, now); }
    assert AtMost(granted, now);
    if |recent| < c.times { BoundedStep(c, granted, now); }
  }

  lemma KeySoundOther(c: Config, calls: Calls, answers: seq<Answer>, clock: Time, r: Request, key: Key)
    requires KeySound(c, calls, answers, clock, key) && clock <= r.at && key != r.key
    ensures var (calls', accepted) := Admit(c, calls, r.key, r.at);
            KeySound(c, calls', answers + [Answer(r, accepted)], r.at, key)
  {
    var (calls', accepted) := Admit(c, calls, r.key, r.at);
    GrantedAppend(answers, Answer(r, accepted), key);
    assert Granted(answers, key) + [] == Granted(answers, key);
    OtherKeyStep(c, Get(calls, key), Granted(answers, key), clock, r.at);
  }

  lemma KeySoundOwn(c: Config, calls: Calls, answers: seq<Answer>, clock: Time, r: Request)
    requires KeySound(c, calls, answers, clock, r.key) && clock <= r.at
    ensures var (calls', accepted) := Admit(c, calls, r.key, r.at);
            KeySound(c, calls', answers + [Answer(r, accepted)], r.at, r.key)
  {
    var (calls', accepted) := Admit(c, calls, r.key, r.at);
    var kept, granted := Get(calls, r.key), Granted(answers, r.key);
    var recent := After(kept, r.at - c.Window());
    OwnKeyStep(c, kept, granted, clock, r.at);
    GrantedAppend(answers, Answer(r, accepted), r.key);
    if accepted {
      assert Get(calls', r.key) == recent + [r.at];
    } else {
      assert granted + [] == granted;
      assert Get(calls', r.key) == recent;
    }
  }

  lemma KeySoundLater(c: Config, calls: Calls, answers: seq<Answer>, clock: Time, later: Time, key: Key)
    requires KeySound(c, calls, answers, clock, key) && clock <= later
    ensures KeySound(c, calls, answers, later, key)
  {
  }

  lemma {:induction false} RunSound(c: Config, rs: seq<Request>, clock: Time, key: Key)
    requires Clocked(rs) && forall r | r in rs :: r.at <= clock
    ensures KeySound(c, Run(c, rs).0, Run(c, rs).1, clock, key)
  {
    if rs == [] {
      assert Granted([], key) == [] && Get(map[], key) == [];
    } else {
      var before, last := rs[..|rs| - 1], rs[|rs| - 1];
      assert forall r | r in before :: r.at <= last.at;
      assert last in rs;
      RunSound(c, before, last.at, key);
      var (calls, answers) := Run(c, before);
      if key == last.key {
        KeySoundOwn(c, calls, answers, last.at, last);
      } else {
        KeySoundOther(c, calls, answers, last.at, last, key);
      }
      KeySoundLater(c, Run(c, rs).0, Run(c, rs).1, last.at, clock, key);
    }
  }

  /** No window (x, x + seconds] ever holds more accepted calls of a key than the limit. */
  lemma WindowBound(c: Config, rs: seq<Request>, key: Key, x: Time)
    requires Clocked(rs)
    ensures Load(c, Granted(Run(c, rs).1, key), x) <= Limit(c)
  {
    if rs == [] {
      assert Granted([], key) == [];
    } else {
      RunSound(c, rs, rs[|rs| - 1].at, key);
    }
  }

  lemma ClockedInit(rs: seq<Request>, r: Request)
    requires Clocked(rs + [r])
    ensures Clocked(rs) && forall q | q in rs :: q.at <= r.at
  {
    var more := rs + [r];
    assert forall i | 0 <= i < |rs| :: more[i] == rs[i];
    assert more[|rs|] == r;
  }

  lemma AdmitReads(c: Config, calls: Calls, answers: seq<Answer>, key: Key, now: Time)
    requires KeySound(c, calls, answers, now, key)
    ensures Admit(c, calls, key, now).1 <==> InWindow(Granted(answers, key), now - c.Window(), now) < c.times
  {
    WindowIsAfter(Granted(answers, key), now - c.Window(), now);
  }

  /** A request is refused exactly when the limit is already used up by the accepted
      calls of the full history in the window (now - seconds, now]. */
  lemma RefusedExactly(c: Config, rs: seq<Request>, r: Request)
    requires Clocked(rs + [r])
    ensures var (calls, answers) := Run(c, rs);
            Admit(c, calls, r.key, r.at).1 <==> InWindow(Granted(answers, r.key), r.at - c.Window(), r.at) < c.times
  {
    assert KeySound(c, Run(c, rs).0, Run(c, rs).1, r.at, r.key) by {
      ClockedInit(rs, r);
      RunSound(c, rs, r.at, r.key);
    }
    AdmitReads(c, Run(c, rs).0, Run(c, rs).1, r.key, r.at);
  }

  // ----- keys do not affect each other -----

  function Only(rs: seq<Request>, key: Key): seq<Request> {
    if rs == [] then [] else
    Only(rs[..|rs| - 1], key) + if rs[|rs| - 1].key == key then [rs[|rs| - 1]] else []
  }

  function AnswersTo(answers: seq<Answer>, key: Key): seq<Answer> {
    if answers == [] then [] else
    AnswersTo(answers[..|answers| - 1], key) +
    if answers[|answers| - 1].request.key == key then [answers[|answers| - 1]] else []
  }

  lemma RunAppend(c: Config, rs: seq<Request>, r: Request)
    ensures Run(c, rs + [r]) ==
            (var (calls', accepted) := Admit(c, Run(c, rs).0, r.key, r.at);
             (calls', Run(c, rs).1 + [Answer(r, accepted)]))
  {
  }

  lemma AnswersToAppend(answers: seq<Answer>, a: Answer, key: Key)
    ensures AnswersTo(answers + [a], key) ==
            if a.request.key == key then AnswersTo(answers, key) + [a] else AnswersTo(answers, key)
  {
  }

  lemma AdmitOwn(c: Config, calls: Calls, others: Calls, key: Key, now: Time)
    requires Get(calls, key) == Get(others, key)
    ensures Admit(c, calls, key, now).1 == Admit(c, others, key, now).1
    ensures Get(Admit(c, calls, key, now).0, key) == Get(Admit(c, others, key, now).0, key)
  {
  }

  lemma RunLast(c: Config, rs: seq<Request>)
    requires rs != []
    ensures var (calls, answers) := Run(c, rs[..|rs| - 1]);
            var last := rs[|rs| - 1];
            var (calls', accepted) := Admit(c, calls, last.key, last.at);
            Run(c, rs) == (calls', answers + [Answer(last, accepted)])
  {
  }

  lemma AdmitOther(c: Config, calls: Calls, key: Key, now: Time, other: Key)
    requires other != key
    ensures Get(Admit(c, calls, key, now).0, other) == Get(calls, other)
  {
  }

  /** A client is answered as if it were alone. */
  lemma {:induction false} KeysIndependent(c: Config, rs: seq<Request>, key: Key)
    ensures AnswersTo(Run(c, rs).1, key) == Run(c, Only(rs, key)).1
    ensures Get(Run(c, rs).0, key) == Get(Run(c, Only(rs, key)).0, key)
  {
    if rs != [] {
      var before, last := rs[..|rs| - 1], rs[|rs| - 1];
      var (calls, answers) := Run(c, before);
      KeysIndependent(c, before, key);
      RunLast(c, rs);
      AnswersToAppend(answers, Answer(last, Admit(c, calls, last.key, last.at).1), key);
      if last.key == key {
        AdmitOwn(c, calls, Run(c, Only(before, key)).0, key, last.at);
        RunAppend(c, Only(before, key), last);
      } else {
        assert Only(rs, key) == Only(before, key);
        AdmitOther(c, calls, last.key, last.at, key);
      }
    }
  }
}
