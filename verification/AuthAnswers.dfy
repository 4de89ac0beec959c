/** What login, refresh and logout answer and write, column by column. */
module AuthAnswers {
  import opened Options
  import opened Auth

  /** A lock that has not run out when it is looked at. */
  predicate LockHolds(user: User, checked: Time) {
    user.lockedUntil != None && checked < user.lockedUntil.value
  }

  /** The password of a known account is looked at. */
  predicate Verifies(db: Db, r: Request) {
    r.DoLogin? && r.user in db.users && !LockHolds(db.users[r.user], r.checked)
  }

  predicate Fails(db: Db, r: Request) {
    Verifies(db, r) && !r.passwordOk
  }

  /** The right password of an active account, and a token that is not taken. */
  predicate Succeeds(db: Db, r: Request) {
    Verifies(db, r) && r.passwordOk && db.users[r.user].active && r.hash !in db.tokens
  }

  /** The answer to a login attempt. */
  lemma LoginAnswer(db: Db, r: Request)
    requires r.DoLogin?
    ensures var answer := Handle(db, r).1;
            if r.user !in db.users then answer == InvalidCredentials else
            && (answer == Locked <==> !Verifies(db, r))
            && (answer == InvalidCredentials <==> Fails(db, r))
            && (answer == Disabled <==> Verifies(db, r) && r.passwordOk && !db.users[r.user].active)
            && (answer == KeyClash <==>
                  Verifies(db, r) && r.passwordOk && db.users[r.user].active && r.hash in db.tokens)
            && (answer == LoggedIn <==> Succeeds(db, r))
  {
  }

  /** What it writes: a failure counts and may lock, from the start again after an
      expired lock; a success clears both and adds one live token of that user;
      anything else writes nothing. */
  lemma LoginWrites(db: Db, r: Request)
    requires r.DoLogin?
    ensures var db' := Handle(db, r).0;
            && (!Fails(db, r) && !Succeeds(db, r) ==> db' == db)
            && (Fails(db, r) || Succeeds(db, r) ==>
                  && db'.users.Keys == db.users.Keys
                  && (forall v | v in db.users && v != r.user :: db'.users[v] == db.users[v])
                  && db'.users[r.user].active == db.users[r.user].active)
            && (Fails(db, r) ==>
                  var user, user' := db.users[r.user], db'.users[r.user];
                  && db'.tokens == db.tokens
                  && user'.failedCount == 1 + (if user.lockedUntil == None then user.failedCount else 0)
                  && user'.lockedUntil == (if user'.failedCount < 5 then None else Some(r.now + 15 * MINUTE)))
            && (Succeeds(db, r) ==>
                  && db'.users[r.user].failedCount == 0 && db'.users[r.user].lockedUntil == None
                  && db'.tokens.Keys == db.tokens.Keys + {r.hash}
                  && (forall h | h in db.tokens :: db'.tokens[h] == db.tokens[h])
                  && db'.tokens[r.hash].user == r.user && !db'.tokens[r.hash].revoked
                  && db'.tokens[r.hash].expires - r.now == 7 * 24 * 60 * MINUTE)
  {
  }

  /** The token is on record, not revoked and not expired, and its user is active. */
  predicate Good(db: Db, h: Hash, now: Time) {
    && h in db.tokens && !db.tokens[h].revoked && now <= db.tokens[h].expires
    && db.tokens[h].user in db.users && db.users[db.tokens[h].user].active
  }

  /** The answer to a refresh: a good token rotates if the new hash is free; otherwise
      the first thing that is wrong is reported. */
  lemma RefreshAnswer(db: Db, presented: Hash, hash: Hash, now: Time)
    ensures var answer := Refresh(db, presented, hash, now).1;
            && (answer == Rotated <==> Good(db, presented, now) && hash !in db.tokens)
            && (answer == KeyClash <==> Good(db, presented, now) && hash in db.tokens)
            && (answer == RevokedOrUnknown <==> presented !in db.tokens || db.tokens[presented].revoked)
            && (presented in db.tokens && !db.tokens[presented].revoked ==>
                  && (answer == Expired <==> db.tokens[presented].expires < now)
                  && (answer == UserGone <==> now <= db.tokens[presented].expires && !Good(db, presented, now)))
  {
  }

  /** What it writes: the presented token is revoked and a live one of the same user
      with a full lifetime is added; a refusal writes nothing. */
  lemma RefreshWrites(db: Db, presented: Hash, hash: Hash, now: Time)
    ensures var (db', answer) := Refresh(db, presented, hash, now);
            && (answer != Rotated ==> db' == db)
            && (answer == Rotated ==>
                  && db'.users == db.users && db'.tokens.Keys == db.tokens.Keys + {hash}
                  && presented in db.tokens && presented != hash
                  && (forall h | h in db.tokens && h != presented :: db'.tokens[h] == db.tokens[h])
                  && db'.tokens[presented].revoked
                  && db'.tokens[presented].user == db.tokens[presented].user
                  && db'.tokens[presented].expires == db.tokens[presented].expires
                  && db'.tokens[hash].user == db.tokens[presented].user && !db'.tokens[hash].revoked
                  && db'.tokens[hash].expires - now == 7 * 24 * 60 * MINUTE)
  {
  }

  /** Logout always answers the same; it marks the presented token revoked, if there
      is one, and writes nothing else. */
  lemma LogoutWrites(db: Db, presented: Hash)
    ensures var (db', answer) := Logout(db, presented);
            && answer == LoggedOut && db'.users == db.users && db'.tokens.Keys == db.tokens.Keys
            && (forall h | h in db.tokens && h != presented :: db'.tokens[h] == db.tokens[h])
            && (presented in db.tokens ==>
                  && db'.tokens[presented].revoked
                  && db'.tokens[presented].user == db.tokens[presented].user
                  && db'.tokens[presented].expires == db.tokens[presented].expires)
  {
  }
}
