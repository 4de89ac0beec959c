/** Rotation of refresh tokens: single use, permanent revocation, and the end of a
    chain. */
module RefreshRotation {
  import opened Auth

  predicate Live(db: Db, h: Hash) {
    h in db.tokens && !db.tokens[h].revoked
  }

  /** The unrevoked tokens of a user. */
  function LiveTokens(db: Db, u: UserId): set<Hash> {
    set h | h in db.tokens && db.tokens[h].user == u && !db.tokens[h].revoked
  }

  /** The successful refreshes of a run, as (presented, issued) pairs. */
  function Rotations(db: Db, rs: seq<Request>): seq<(Hash, Hash)> {
    if rs == [] then [] else
    var before, last := rs[..|rs| - 1], rs[|rs| - 1];
    Rotations(db, before) +
    if last.DoRefresh? && Handle(Run(db, before), last).1 == Rotated then [(last.presented, last.hash)] else []
  }

  // ----- one request -----

  /** No request brings a revoked token back or changes whose it is. */
  lemma RevocationStep(db: Db, r: Request, h: Hash)
    requires h in db.tokens
    ensures h in Handle(db, r).0.tokens
    ensures Handle(db, r).0.tokens[h].user == db.tokens[h].user
    ensures db.tokens[h].revoked ==> Handle(db, r).0.tokens[h] == db.tokens[h]
  {
  }

  /** A login adds one live token to its user, and none to anyone else. */
  lemma LoginAddsOne(db: Db, v: UserId, ok: bool, hash: Hash, checked: Time, now: Time, u: UserId)
    ensures var (db', outcome) := Login(db, v, ok, hash, checked, now);
            |LiveTokens(db', u)| == |LiveTokens(db, u)| + if outcome == LoggedIn && u == v then 1 else 0
  {
    var (db', outcome) := Login(db, v, ok, hash, checked, now);
    assert hash !in db.tokens ==> hash !in LiveTokens(db, u);
    assert LiveTokens(db', u) ==
        if outcome == LoggedIn && u == v then LiveTokens(db, u) + {hash} else LiveTokens(db, u);
  }

  /** A refresh keeps every user's number of live tokens: it trades the presented
      token for the new one. */
  lemma RefreshKeepsCount(db: Db, presented: Hash, hash: Hash, now: Time, u: UserId)
    ensures var (db', outcome) := Refresh(db, presented, hash, now);
            && |LiveTokens(db', u)| == |LiveTokens(db, u)|
            && (outcome == Rotated ==>
                  && !Live(db', presented) && Live(db', hash)
                  && db'.tokens[hash].user == db.tokens[presented].user)
  {
    var (db', outcome) := Refresh(db, presented, hash, now);
    assert hash !in db.tokens ==> hash !in LiveTokens(db, u);
    if outcome == Rotated && db.tokens[presented].user == u {
      assert presented in LiveTokens(db, u);
      assert LiveTokens(db', u) == LiveTokens(db, u) - {presented} + {hash};
    } else {
      assert LiveTokens(db', u) == LiveTokens(db, u);
    }
  }

  /** A logout revokes the live token it is shown and nothing else. */
  lemma {:induction false} LogoutDropsOne(db: Db, presented: Hash, u: UserId)
    ensures var db' := Logout(db, presented).0;
            && LiveTokens(db', u) == LiveTokens(db, u) - {presented}
            && |LiveTokens(db, u)| - 1 <= |LiveTokens(db', u)| <= |LiveTokens(db, u)|
  {
    var db' := Logout(db, presented).0;
    assert LiveTokens(db', u) == LiveTokens(db, u) - {presented};
  }

  // ----- runs -----

  lemma {:induction false} RevocationPermanent(db: Db, rs: seq<Request>, h: Hash)
    requires h in db.tokens && db.tokens[h].revoked
    ensures h in Run(db, rs).tokens && Run(db, rs).tokens[h] == db.tokens[h]
    ensures forall pair | pair in Rotations(db, rs) :: pair.0 != h && pair.1 != h
  {
    if rs != [] {
      RevocationPermanent(db, rs[..|rs| - 1], h);
      RevocationStep(Run(db, rs[..|rs| - 1]), rs[|rs| - 1], h);
    }
  }

  /** Both tokens of a rotation are on record afterwards, the presented one revoked. */
  lemma {:induction false} RotationsRecorded(db: Db, rs: seq<Request>)
    ensures forall pair | pair in Rotations(db, rs) ::
              && pair.0 in Run(db, rs).tokens && Run(db, rs).tokens[pair.0].revoked
              && pair.1 in Run(db, rs).tokens
  {
    if rs != [] {
      var before, last := rs[..|rs| - 1], rs[|rs| - 1];
      RotationsRecorded(db, before);
      forall pair | pair in Rotations(db, rs)
        ensures pair.0 in Run(db, rs).tokens && Run(db, rs).tokens[pair.0].revoked && pair.1 in Run(db, rs).tokens
      {
        if pair in Rotations(db, before) {
          RevocationStep(Run(db, before), last, pair.0);
          RevocationStep(Run(db, before), last, pair.1);
        }
      }
    }
  }

  /** Each token yields at most one successful refresh, and is issued by at most one. */
  lemma {:induction false} SingleUse(db: Db, rs: seq<Request>, i: nat, j: nat)
    requires i < j < |Rotations(db, rs)|
    ensures Rotations(db, rs)[i].0 != Rotations(db, rs)[j].0
    ensures Rotations(db, rs)[i].1 != Rotations(db, rs)[j].1
  {
    var before := rs[..|rs| - 1];
    var done := Rotations(db, before);
    if j < |done| {
      SingleUse(db, before, i, j);
    } else {
      RotationsRecorded(db, before);
      assert done[i] in done;
    }
  }

  // ----- chains -----

  /** The token `h` together with the tokens it was rotated from, read back through
      the rotations. */
  function Chain(rotations: seq<(Hash, Hash)>, h: Hash): set<Hash> {
    if rotations == [] then {h} else
    var (presented, issued) := rotations[|rotations| - 1];
    var before := rotations[..|rotations| - 1];
    if issued == h then {h} + Chain(before, presented) else Chain(before, h)
  }

  predicate Presented(rotations: seq<(Hash, Hash)>, t: Hash) {
    exists pair :: pair in rotations && pair.0 == t
  }

  lemma PresentedGrows(rotations: seq<(Hash, Hash)>, t: Hash)
    requires rotations != []
    ensures Presented(rotations[..|rotations| - 1], t) || rotations[|rotations| - 1].0 == t ==> Presented(rotations, t)
  {
  }

  lemma {:induction false} ChainUsed(rotations: seq<(Hash, Hash)>, h: Hash)
    ensures forall t | t in Chain(rotations, h) && t != h :: Presented(rotations, t)
  {
    if rotations != [] {
      var last := rotations[|rotations| - 1];
      ChainUsed(rotations[..|rotations| - 1], if last.1 == h then last.0 else h);
      forall t | t in Chain(rotations, h) && t != h ensures Presented(rotations, t) {
        PresentedGrows(rotations, t);
      }
    }
  }

  lemma {:induction false} ChainHolds(rotations: seq<(Hash, Hash)>, h: Hash)
    ensures h in Chain(rotations, h)
  {
    if rotations != [] { ChainHolds(rotations[..|rotations| - 1], h); }
  }

  /** Only the newest token of a chain can be live. */
  lemma OlderTokensRevoked(db: Db, rs: seq<Request>, h: Hash)
    ensures forall t | t in Chain(Rotations(db, rs), h) && t != h ::
          t in Run(db, rs).tokens && Run(db, rs).tokens[t].revoked
  {
    RotationsRecorded(db, rs);
    ChainUsed(Rotations(db, rs), h);
    forall t | t in Chain(Rotations(db, rs), h) && t != h
      ensures t in Run(db, rs).tokens && Run(db, rs).tokens[t].revoked {
      var pair :| pair in Rotations(db, rs) && pair.0 == t;
    }
  }

  ghost predicate Dead(db: Db, chain: set<Hash>) {
    forall t | t in chain :: t in db.tokens && db.tokens[t].revoked
  }

  /** A logout ends the chain of a live token exactly when it presents that newest
      token; presenting an older one of the chain changes nothing. */
  lemma LogoutEndsChain(db: Db, rs: seq<Request>, h: Hash, presented: Hash)
    requires Live(Run(db, rs), h) && presented in Chain(Rotations(db, rs), h)
    ensures var db' := Logout(Run(db, rs), presented).0;
            Dead(db', Chain(Rotations(db, rs), h)) <==> presented == h
    ensures presented != h ==> Logout(Run(db, rs), presented).0 == Run(db, rs)
  {
    OlderTokensRevoked(db, rs, h);
    ChainHolds(Rotations(db, rs), h);
  }

  /** From then on no token of the chain ever refreshes again, whatever follows. */
  lemma {:induction false} DeadChainStaysDead(db: Db, chain: set<Hash>, rs: seq<Request>)
    requires Dead(db, chain)
    ensures Dead(Run(db, rs), chain)
    ensures forall pair | pair in Rotations(db, rs) :: pair.0 !in chain && pair.1 !in chain
  {
    forall t | t in chain
      ensures t in Run(db, rs).tokens && Run(db, rs).tokens[t].revoked
      ensures forall pair | pair in Rotations(db, rs) :: pair.0 != t && pair.1 != t
    {
      RevocationPermanent(db, rs, t);
    }
  }
}
