/** The lockout bound of login: guesses per account and time. */
module Lockout {
  import opened Options
  import opened Auth
  import opened AuthAnswers

  /** The request was a password verification of `u` that failed. */
  predicate FailsFor(db: Db, r: Request, u: UserId) {
    r.DoLogin? && r.user == u && Fails(db, r)
  }

  predicate SucceedsFor(db: Db, r: Request, u: UserId) {
    r.DoLogin? && r.user == u && Succeeds(db, r)
  }

  /** What a request does to the streak of failures of `u`. */
  function StreakStep(db: Db, r: Request, u: UserId, streak: seq<Time>): seq<Time> {
    if SucceedsFor(db, r, u) then [] else if FailsFor(db, r, u) then streak + [r.now] else streak
  }

  /** The times of the failed verifications of `u` since its last successful login. */
  function Streak(db: Db, rs: seq<Request>, u: UserId): seq<Time> {
    if rs == [] then [] else
    var before, last := rs[..|rs| - 1], rs[|rs| - 1];
    StreakStep(Run(db, before), last, u, Streak(db, before, u))
  }

  /** How many of the times lie in the half-open window [x, x + LOCKOUT). */
  function Guesses(ts: seq<Time>, x: Time): nat {
    if ts == [] then 0 else
    Guesses(ts[..|ts| - 1], x) + if x <= ts[|ts| - 1] < x + LOCKOUT then 1 else 0
  }

  ghost predicate Bounded(ts: seq<Time>) {
    forall x: Time :: Guesses(ts, x) <= MAX_FAILED_ATTEMPTS
  }

  ghost predicate Before(ts: seq<Time>, t: Time) {
    forall s | s in ts :: s <= t
  }

  lemma {:induction false} GuessesSplit(a: seq<Time>, b: seq<Time>, x: Time)
    ensures Guesses(a + b, x) == Guesses(a, x) + Guesses(b, x)
  {
    if b == [] {
      assert a + b == a;
    } else {
      assert (a + b)[..|a + b| - 1] == a + b[..|b| - 1];
      GuessesSplit(a, b[..|b| - 1], x);
    }
  }

  lemma {:induction false} GuessesAtMost(ts: seq<Time>, x: Time)
    ensures Guesses(ts, x) <= |ts|
    ensures Guesses(ts, x) > 0 ==> exists t :: t in ts && x <= t < x + LOCKOUT
  {
    if ts != [] {
      var before := ts[..|ts| - 1];
      GuessesAtMost(before, x);
      assert ts[|ts| - 1] in ts && forall t | t in before :: t in ts;
    }
  }

  /** The streak falls into locked-out rounds `past` and the current round `recent`. */
  ghost predicate Rounds(past: seq<Time>, recent: seq<Time>) {
    && Bounded(past) && |recent| <= MAX_FAILED_ATTEMPTS
    && forall s, t | s in past && t in recent :: s + LOCKOUT <= t
  }

  lemma RoundsBound(past: seq<Time>, recent: seq<Time>)
    requires Rounds(past, recent)
    ensures Bounded(past + recent)
  {
    forall x: Time ensures Guesses(past + recent, x) <= MAX_FAILED_ATTEMPTS {
      GuessesSplit(past, recent, x);
      GuessesAtMost(past, x);
      GuessesAtMost(recent, x);
    }
  }

  /** What the two columns of an account say about its streak. */
  ghost predicate Account(user: User, streak: seq<Time>, clock: Time) {
    && Before(streak, clock)
    && 0 <= user.failedCount <= |streak|
    && (user.lockedUntil.Some? <==> user.failedCount >= MAX_FAILED_ATTEMPTS)
    && (user.lockedUntil.Some? ==> Before(streak, user.lockedUntil.value - LOCKOUT))
    && (user.failedCount == 0 ==> streak == [])
    && Rounds(streak[..|streak| - user.failedCount], streak[|streak| - user.failedCount..])
  }

  lemma AccountFails(user: User, streak: seq<Time>, clock: Time, checked: Time, now: Time, user': User)
    requires Account(user, streak, clock) && clock <= checked <= now
    requires user.lockedUntil.Some? ==> checked >= user.lockedUntil.value
    requires var count := if user.lockedUntil.Some? then 0 else user.failedCount;
             user' == User(user.active, count + 1,
                  if count + 1 >= MAX_FAILED_ATTEMPTS then Some(now + LOCKOUT) else None)
    ensures Account(user', streak + [now], now)
  {
    var streak' := streak + [now];
    var split, split' := |streak| - user.failedCount, |streak'| - user'.failedCount;
    if user.lockedUntil.Some? {
      RoundsBound(streak[..split], streak[split..]);
      assert streak == streak[..split] + streak[split..];
      assert streak'[..split'] == streak && streak'[split'..] == [now];
    } else {
      assert split' == split && streak'[..split] == streak[..split] && streak'[split..] == streak[split..] + [now];
      var past, recent := streak[..split], streak[split..];
      forall s, t | s in past && t in recent + [now] ensures s + LOCKOUT <= t {
        assert t in recent || t == now;
        assert recent[0] in recent && recent[0] in streak;
        assert s + LOCKOUT <= recent[0] <= clock;
      }
      assert Rounds(past, recent + [now]);
    }
  }

  ghost predicate Fresh(db: Db) {
    forall u | u in db.users :: db.users[u].failedCount == 0 && db.users[u].lockedUntil == None
  }

  lemma AccountStep(db: Db, r: Request, u: UserId, streak: seq<Time>, clock: Time)
    requires u in db.users && Account(db.users[u], streak, clock)
    requires clock <= r.now && (r.DoLogin? ==> clock <= r.checked <= r.now)
    ensures u in Handle(db, r).0.users && Account(Handle(db, r).0.users[u], StreakStep(db, r, u, streak), r.now)
  {
    if FailsFor(db, r, u) {
      AccountFails(db.users[u], streak, clock, r.checked, r.now, Handle(db, r).0.users[u]);
    } else if SucceedsFor(db, r, u) {
      assert Account(User(true, 0, None), [], r.now);
    }
  }

  /** When the last request of a run looked at the lockout. */
  function StartOf(r: Request): Time {
    if r.DoLogin? then r.checked else r.now
  }

  lemma ClockedTail(rs: seq<Request>)
    requires Clocked(rs) && rs != []
    ensures var before, last := rs[..|rs| - 1], rs[|rs| - 1];
            && Clocked(before) && StartOf(last) <= last.now
            && (before != [] ==> before[|before| - 1].now <= StartOf(last))
  {
    var before := rs[..|rs| - 1];
    assert forall i | 0 <= i < |before| :: before[i] == rs[i];
  }

  lemma AccountLater(user: User, streak: seq<Time>, clock: Time, later: Time)
    requires Account(user, streak, clock) && clock <= later
    ensures Account(user, streak, later)
  {
  }

  lemma {:induction false} AccountRun(db: Db, rs: seq<Request>, u: UserId, clock: Time)
    requires Fresh(db) && u in db.users && Clocked(rs) && (rs != [] ==> clock >= rs[|rs| - 1].now)
    ensures u in Run(db, rs).users && Account(Run(db, rs).users[u], Streak(db, rs, u), clock)
  {
    if rs != [] {
      var before, last := rs[..|rs| - 1], rs[|rs| - 1];
      ClockedTail(rs);
      AccountRun(db, before, u, StartOf(last));
      AccountStep(Run(db, before), last, u, Streak(db, before, u), StartOf(last));
      AccountLater(Run(db, rs).users[u], Streak(db, rs, u), last.now, clock);
    }
  }

  lemma AccountBound(user: User, streak: seq<Time>, clock: Time)
    requires Account(user, streak, clock)
    ensures Bounded(streak)
  {
    var split := |streak| - user.failedCount;
    RoundsBound(streak[..split], streak[split..]);
    assert streak == streak[..split] + streak[split..];
  }

  /** From unlocked accounts, under one clock: since an account's last successful
      login at most 5 password verifications failed in any 15-minute window, and the
      account carries a lock exactly when its counter has reached 5. */
  lemma LockoutBound(db: Db, rs: seq<Request>, u: UserId, x: Time)
    requires Fresh(db) && u in db.users && Clocked(rs)
    ensures Guesses(Streak(db, rs, u), x) <= MAX_FAILED_ATTEMPTS
    ensures u in Run(db, rs).users
    ensures var user := Run(db, rs).users[u];
            user.lockedUntil.Some? <==> user.failedCount >= MAX_FAILED_ATTEMPTS
  {
    var clock := if rs == [] then 0 else rs[|rs| - 1].now;
    AccountRun(db, rs, u, clock);
    AccountBound(Run(db, rs).users[u], Streak(db, rs, u), clock);
  }

  // ----- when an attempt is turned away -----

  /** The two columns of an account are read off its streak: every fifth failure
      locks, and the failure after a lock starts the count again. */
  ghost predicate Counted(user: User, streak: seq<Time>) {
    && user.failedCount == (if streak == [] then 0 else (|streak| - 1) % MAX_FAILED_ATTEMPTS + 1)
    && user.lockedUntil == (if streak != [] && |streak| % MAX_FAILED_ATTEMPTS == 0
                            then Some(streak[|streak| - 1] + LOCKOUT) else None)
  }

  lemma CountNext(n: nat)
    ensures n > 0 && n % MAX_FAILED_ATTEMPTS != 0 ==> n % MAX_FAILED_ATTEMPTS == (n - 1) % MAX_FAILED_ATTEMPTS + 1
    ensures n % MAX_FAILED_ATTEMPTS + 1 == MAX_FAILED_ATTEMPTS <==> (n + 1) % MAX_FAILED_ATTEMPTS == 0
  {
  }

  lemma CountedStep(db: Db, r: Request, u: UserId, streak: seq<Time>)
    requires u in db.users && Counted(db.users[u], streak)
    ensures u in Handle(db, r).0.users && Counted(Handle(db, r).0.users[u], StreakStep(db, r, u, streak))
  {
    if FailsFor(db, r, u) { CountNext(|streak|); }
  }

  lemma {:induction false} CountedRun(db: Db, rs: seq<Request>, u: UserId)
    requires Fresh(db) && u in db.users
    ensures u in Run(db, rs).users && Counted(Run(db, rs).users[u], Streak(db, rs, u))
  {
    if rs != [] {
      var before, last := rs[..|rs| - 1], rs[|rs| - 1];
      CountedRun(db, before, u);
      CountedStep(Run(db, before), last, u, Streak(db, before, u));
    }
  }

  /** After any run from unlocked accounts an attempt is turned away exactly when the
      number of failures since the last success is a multiple of five and the latest
      of them is less than 15 minutes old, whatever the password. */
  lemma {:induction false} LockedExactly(db: Db, rs: seq<Request>, u: UserId, ok: bool, hash: Hash,
                             checked: Time, now: Time)
    requires Fresh(db) && u in db.users
    ensures var streak := Streak(db, rs, u);
            Handle(Run(db, rs), DoLogin(u, ok, hash, checked, now)).1 == Locked <==>
            streak != [] && |streak| % MAX_FAILED_ATTEMPTS == 0 && checked < streak[|streak| - 1] + LOCKOUT
  {
    CountedRun(db, rs, u);
  }

  /** The answers over whole runs: what is not turned away is judged by the password,
      then by the account, then by the token. */
  lemma {:induction false} AnswersInRun(db: Db, rs: seq<Request>, r: Request)
    requires Fresh(db) && r.DoLogin? && r.user in db.users
    ensures r.user in Run(db, rs).users
    ensures var now, streak := Run(db, rs), Streak(db, rs, r.user);
            var away := streak != [] && |streak| % MAX_FAILED_ATTEMPTS == 0
                        && r.checked < streak[|streak| - 1] + LOCKOUT;
            var answer := Handle(now, r).1;
            && (answer == Locked <==> away)
            && (answer == InvalidCredentials <==> !away && !r.passwordOk)
            && (answer == Disabled <==> !away && r.passwordOk && !now.users[r.user].active)
            && (answer == KeyClash <==> !away && r.passwordOk && now.users[r.user].active && r.hash in now.tokens)
            && (answer == LoggedIn <==> !away && r.passwordOk && now.users[r.user].active && r.hash !in now.tokens)
  {
    CountedRun(db, rs, r.user);
    LoginAnswer(Run(db, rs), r);
    LockedExactly(db, rs, r.user, r.passwordOk, r.hash, r.checked, r.now);
  }
}
