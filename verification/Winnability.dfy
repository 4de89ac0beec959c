/** Which proposals can still be won: the exact condition, over all runs. */
module Winnability {
  import opened Cardinality
  import opened Options
  import opened Stages
  import opened Lifecycle
  import opened ReviewGate
  import opened StageHistory
  import opened LifecycleRuns

  predicate Refused(reviews: map<Id, ApprovalRow>) {
    exists a :: a in reviews && reviews[a].stage in PARALLEL_REVIEW_GROUP && reviews[a].status in {Rejected, Bypassed}
  }

  /** Still in front of the gate, with a review refused for good. */
  predicate Blocked(v: View) {
    (v.stage == Drafting || v.stage in PARALLEL_REVIEW_GROUP) && Refused(v.reviews)
  }

  lemma RefusedGate(reviews: map<Id, ApprovalRow>)
    requires Refused(reviews)
    ensures Gate(reviews) != Done
  {
    var a :| a in reviews && reviews[a].stage in PARALLEL_REVIEW_GROUP && reviews[a].status in {Rejected, Bypassed};
    assert a in ParallelOf(reviews) && ParallelOf(reviews)[a].stage in Unapproved(ParallelOf(reviews));
  }

  lemma RefusedStays(p: Id, v: View, r: Request)
    requires Refused(v.reviews)
    requires r.Transition? ==> KeysFree(v.reviews, r.keys, MissingReviews(v.stage, v.reviews, r.to))
    ensures Refused(ViewStep(p, v, r).reviews)
  {
    var a :| a in v.reviews && v.reviews[a].stage in PARALLEL_REVIEW_GROUP
             && v.reviews[a].status in {Rejected, Bypassed};
    var v' := ViewStep(p, v, r);
    assert a in v'.reviews && v'.reviews[a] == v.reviews[a];
  }

  lemma BlockedMove(from: Stage, reviews: map<Id, ApprovalRow>, to: Stage)
    requires (from == Drafting || from in PARALLEL_REVIEW_GROUP) && Gate(reviews) != Done
    requires MayMove(from, reviews, to) == Done
    ensures to == Drafting || to in PARALLEL_REVIEW_GROUP
  {
  }

  lemma BlockedStage(p: Id, v: View, r: Request)
    requires (v.stage == Drafting || v.stage in PARALLEL_REVIEW_GROUP) && Gate(v.reviews) != Done
    ensures ViewStep(p, v, r).stage == Drafting || ViewStep(p, v, r).stage in PARALLEL_REVIEW_GROUP
  {
    if r.Transition? {
      if MayMove(v.stage, v.reviews, r.to) == Done { BlockedMove(v.stage, v.reviews, r.to); }
    } else {
      assert ViewStep(p, v, r).stage == v.stage;
    }
  }

  lemma BlockedStep(p: Id, v: View, r: Request)
    requires Blocked(v)
    requires r.Transition? ==> KeysFree(v.reviews, r.keys, MissingReviews(v.stage, v.reviews, r.to))
    ensures Blocked(ViewStep(p, v, r))
  {
    RefusedStays(p, v, r);
    assert Gate(v.reviews) != Done by { RefusedGate(v.reviews); }
    BlockedStage(p, v, r);
  }

  /** Rejection is absorbing: from a refused review on, no run takes the proposal
      outside drafting and the three review stages. */
  lemma {:induction false} RefusalAbsorbs(db: Db, rs: seq<Request>, p: Id)
    requires Linked(db) && p in db.proposals && Blocked(ViewOf(db, p))
    ensures Linked(Run(db, rs)) && p in Run(db, rs).proposals && Blocked(ViewOf(Run(db, rs), p))
    ensures Run(db, rs).proposals[p].stage in PARALLEL_REVIEW_GROUP + {Drafting}
    decreases |rs|
  {
    if rs != [] {
      var r := rs[0];
      LinkedStep(db, r);
      StepView(db, r, p);
      if ViewOf(Step(db, r).0, p) != ViewOf(db, p) {
        if r.Transition? { KeysFreeInView(db, r); }
        BlockedStep(p, ViewOf(db, p), r);
      }
      RefusalAbsorbs(Step(db, r).0, rs[1..], p);
    }
  }

  lemma LostView(p: Id, v: View, r: Request)
    requires v.stage == ClosedLost
    ensures ViewStep(p, v, r).stage == ClosedLost
  {
    assert Allowed(ClosedLost) == {};
  }

  lemma LostStep(db: Db, r: Request, p: Id)
    requires Linked(db) && p in db.proposals && db.proposals[p].stage == ClosedLost
    ensures p in Step(db, r).0.proposals && Step(db, r).0.proposals[p].stage == ClosedLost
  {
    var v := ViewOf(db, p);
    StepView(db, r, p);
    LostView(p, v, r);
    assert ViewOf(Step(db, r).0, p).stage == ClosedLost;
  }

  lemma {:induction false} LostStaysLost(db: Db, rs: seq<Request>, p: Id)
    requires Linked(db) && p in db.proposals && db.proposals[p].stage == ClosedLost
    ensures p in Run(db, rs).proposals && Run(db, rs).proposals[p].stage == ClosedLost
    decreases |rs|
  {
    if rs != [] {
      LinkedStep(db, rs[0]);
      LostStep(db, rs[0], p);
      LostStaysLost(Step(db, rs[0]).0, rs[1..], p);
    }
  }

  // ----- the way to a win -----

  predicate Winnable(v: View) {
    v.stage != ClosedLost && !Refused(v.reviews)
  }

  function NextStage(stage: Stage): Stage
  {
    match stage
    case Intake => Qualification
    case Qualification => SmeAssignment
    case SmeAssignment => Drafting
    case Drafting => TechnicalReview
    case FinanceReview => Approval
    case LegalReview => Approval
    case Approval => Submission
    case Submission => ClientFollowup
    case ClientFollowup => ClosedWon
    case _ => FinanceReview
  }

  /** An accepted request keeps the tables sound and acts on the view. */
  lemma {:induction false} SoundView(db: Db, r: Request, p: Id)
    requires Sound(db) && p in db.proposals && !Clashes(db, r)
    ensures Sound(Step(db, r).0) && p in Step(db, r).0.proposals
    ensures ViewOf(Step(db, r).0, p) == ViewStep(p, ViewOf(db, p), r)
  {
    SoundStep(db, r);
    StepView(db, r, p);
  }

  function FreshKeys(k: Id): Keys {
    Keys(k, k + 1, k + 2)
  }

  lemma FreshNeverClash(db: Db, r: Request, k: Id)
    requires r.Transition? && r.keys == FreshKeys(k)
    requires forall a | a in db.approvals :: a < k
    ensures !Clashes(db, r)
  {
  }

  lemma {:induction false} GateOpens(v: View)
    requires ReviewsSound(v) && v.stage in PARALLEL_REVIEW_GROUP && AllApproved(v.reviews)
    ensures Gate(v.reviews) == Done
  {
    GateCounts(v.reviews);
  }

  lemma ForwardAllowed(stage: Stage, reviews: map<Id, ApprovalRow>)
    requires stage !in {ClosedWon, ClosedLost} && !stage.Unlisted?
    requires stage in PARALLEL_REVIEW_GROUP ==> Gate(reviews) == Done
    ensures MayMove(stage, reviews, NextStage(stage)) == Done
    ensures Progress(NextStage(stage)) > Progress(stage)
  {
  }

  lemma ForwardView(p: Id, v: View, r: Request)
    requires Winnable(v) && r.Transition? && r.proposal == p && MayMove(v.stage, v.reviews, r.to) == Done
    requires r.to != ClosedLost && KeysFree(v.reviews, r.keys, MissingReviews(v.stage, v.reviews, r.to))
    ensures Winnable(ViewStep(p, v, r)) && ViewStep(p, v, r).stage == r.to
  {
  }

  lemma KeysFreeView(db: Db, p: Id, stages: set<Stage>, k: Id)
    requires stages <= PARALLEL_REVIEW_GROUP && forall a | a in db.approvals :: a < k
    ensures KeysFree(ReviewsOf(db.approvals, p), FreshKeys(k), stages)
  {
  }

  /** The next move on the winning path, with unused keys. */
  lemma ForwardRequest(db: Db, p: Id, t: Time) returns (r: Request)
    requires p in db.proposals
    ensures r.Transition? && r.proposal == p && r.to == NextStage(db.proposals[p].stage)
            && r.now == t && !Clashes(db, r)
    ensures var v := ViewOf(db, p); KeysFree(v.reviews, r.keys, MissingReviews(v.stage, v.reviews, r.to))
  {
    var v := ViewOf(db, p);
    var to := NextStage(v.stage);
    var k := AboveAll(db.approvals.Keys);
    r := Transition(p, to, None, FreshKeys(k), Routing(map[], map[]), t);
    FreshNeverClash(db, r, k);
    KeysFreeView(db, p, MissingReviews(v.stage, v.reviews, to), k);
  }

  ghost predicate Wins(db: Db, p: Id, rs: seq<Request>) {
    p in Run(db, rs).proposals && Run(db, rs).proposals[p].stage == ClosedWon
  }

  predicate AllAt(rs: seq<Request>, t: Time) {
    forall r | r in rs :: r.now == t
  }

  /** The records that are not approved yet. */
  function OpenReviews(reviews: map<Id, ApprovalRow>): set<Id> {
    set a | a in reviews && reviews[a].status != Approved
  }

  lemma ApproveRow(reviews: map<Id, ApprovalRow>, a: Id, row: ApprovalRow)
    requires a in reviews && row.status == Approved
    ensures OpenReviews(reviews[a := row]) == OpenReviews(reviews) - {a}
    ensures !Refused(reviews) ==> !Refused(reviews[a := row])
  {
  }

  lemma ApproveView(p: Id, v: View, a: Id, r: Request, t: Time)
    requires ReviewsSound(v) && Winnable(v) && a in OpenReviews(v.reviews)
    requires r == Decide(a, Approved, None, None, t)
    ensures var v' := ViewStep(p, v, r);
            Winnable(v') && v'.stage == v.stage && OpenReviews(v'.reviews) == OpenReviews(v.reviews) - {a}
  {
    var row := v.reviews[a];
    assert row.stage in PARALLEL_REVIEW_GROUP;
    assert row.status in {Pending, Escalated};
    var row' := row.(status := Approved, note := None, decidedAt := Some(t));
    assert ViewStep(p, v, r) == v.(reviews := v.reviews[a := row']);
    ApproveRow(v.reviews, a, row');
  }

  /** How far the proposal is from winning: milestones ahead, then open reviews. */
  predicate Closer(v: View, v': View) {
    || Progress(v'.stage) > Progress(v.stage)
    || (v'.stage == v.stage && OpenReviews(v'.reviews) < OpenReviews(v.reviews))
  }

  lemma DecideNeverClashes(db: Db, r: Request)
    requires r.Decide?
    ensures !Clashes(db, r)
  {
  }

  lemma ApproveStep(db: Db, p: Id, t: Time) returns (r: Request)
    requires p in db.proposals && ReviewsSound(ViewOf(db, p)) && Winnable(ViewOf(db, p))
    requires !AllApproved(ViewOf(db, p).reviews)
    ensures !Clashes(db, r) && r.now == t
    ensures var v, v' := ViewOf(db, p), ViewStep(p, ViewOf(db, p), r); Winnable(v') && Closer(v, v')
  {
    var v := ViewOf(db, p);
    var a :| a in v.reviews && v.reviews[a].status != Approved;
    r := Decide(a, Approved, None, None, t);
    DecideNeverClashes(db, r);
    ApproveView(p, v, a, r, t);
    assert a in OpenReviews(v.reviews);
  }

  lemma {:induction false} MoveAllowed(v: View)
    requires ReviewsSound(v) && Winnable(v) && v.stage != ClosedWon
    requires v.stage in PARALLEL_REVIEW_GROUP ==> AllApproved(v.reviews)
    ensures MayMove(v.stage, v.reviews, NextStage(v.stage)) == Done
    ensures NextStage(v.stage) != ClosedLost && Progress(NextStage(v.stage)) > Progress(v.stage)
  {
    if v.stage in PARALLEL_REVIEW_GROUP { GateOpens(v); }
    ForwardAllowed(v.stage, v.reviews);
  }

  lemma MoveStep(db: Db, p: Id, t: Time) returns (r: Request)
    requires p in db.proposals && ReviewsSound(ViewOf(db, p))
             && Winnable(ViewOf(db, p)) && ViewOf(db, p).stage != ClosedWon
    requires ViewOf(db, p).stage in PARALLEL_REVIEW_GROUP ==> AllApproved(ViewOf(db, p).reviews)
    ensures !Clashes(db, r) && r.now == t
    ensures var v, v' := ViewOf(db, p), ViewStep(p, ViewOf(db, p), r); Winnable(v') && Closer(v, v')
  {
    var v := ViewOf(db, p);
    r := ForwardRequest(db, p, t);
    MoveAllowed(v);
    ForwardView(p, v, r);
  }

  /** One request that brings the win closer. */
  lemma {:induction false} Forward(db: Db, p: Id, t: Time) returns (r: Request)
    requires Sound(db) && p in db.proposals && Winnable(ViewOf(db, p)) && ViewOf(db, p).stage != ClosedWon
    ensures r.now == t
    ensures var db' := Step(db, r).0;
            && Sound(db') && p in db'.proposals && Winnable(ViewOf(db', p))
            && Closer(ViewOf(db, p), ViewOf(db', p))
  {
    var v := ViewOf(db, p);
    assert ViewSound(v);
    if v.stage in PARALLEL_REVIEW_GROUP && !AllApproved(v.reviews) {
      r := ApproveStep(db, p, t);
    } else {
      r := MoveStep(db, p, t);
    }
    SoundView(db, r, p);
  }

  lemma RunCons(db: Db, r: Request, rest: seq<Request>)
    ensures Run(db, [r] + rest) == Run(Step(db, r).0, rest)
  {
    assert ([r] + rest)[1..] == rest;
  }

  lemma {:induction false} WinningRun(db: Db, p: Id, t: Time) returns (rs: seq<Request>)
    requires Sound(db) && p in db.proposals && Winnable(ViewOf(db, p))
    ensures Wins(db, p, rs) && AllAt(rs, t)
    decreases MILESTONES - Progress(ViewOf(db, p).stage), OpenReviews(ViewOf(db, p).reviews)
  {
    if ViewOf(db, p).stage == ClosedWon {
      rs := [];
    } else {
      var r := Forward(db, p, t);
      var rest := WinningRun(Step(db, r).0, p, t);
      rs := [r] + rest;
      RunCons(db, r, rest);
    }
  }

  lemma {:induction false} UnwinnableBlocked(db: Db, p: Id)
    requires Sound(db) && p in db.proposals && !Winnable(ViewOf(db, p)) && db.proposals[p].stage != ClosedLost
    ensures Blocked(ViewOf(db, p))
  {
    var v := ViewOf(db, p);
    assert ViewSound(v);
    var a :| a in v.reviews && v.reviews[a].stage in PARALLEL_REVIEW_GROUP
             && v.reviews[a].status in {Rejected, Bypassed};
    assert v.reviews[a].stage in StagesOf(v.reviews);
  }

  lemma NeverWins(db: Db, p: Id, rs: seq<Request>)
    requires Linked(db) && p in db.proposals
    requires db.proposals[p].stage == ClosedLost || Blocked(ViewOf(db, p))
    ensures !Wins(db, p, rs)
  {
    if db.proposals[p].stage == ClosedLost { LostStaysLost(db, rs, p); } else { RefusalAbsorbs(db, rs, p); }
  }

  lemma WinnableIff(db: Db, p: Id, t: Time)
    requires Sound(db) && p in db.proposals
    ensures (exists rs :: Wins(db, p, rs)) <==> Winnable(ViewOf(db, p))
    ensures (exists rs :: Wins(db, p, rs) && AllAt(rs, t)) <==> Winnable(ViewOf(db, p))
  {
    if Winnable(ViewOf(db, p)) {
      var rs := WinningRun(db, p, t);
      assert Wins(db, p, rs) && AllAt(rs, t);
    } else {
      if db.proposals[p].stage != ClosedLost { UnwinnableBlocked(db, p); }
      forall rs ensures !Wins(db, p, rs) { NeverWins(db, p, rs); }
    }
  }

  /** A proposal can still be won exactly when it is not lost and none of its
      parallel reviews was rejected or bypassed; and then also at any given time, so
      for instance right after its history. */
  lemma WinnableExactly(history: seq<Request>, p: Id, t: Time)
    requires p in Run(EMPTY, history).proposals
    ensures var db := Run(EMPTY, history);
            var winnable := db.proposals[p].stage != ClosedLost && !Refused(ReviewsOf(db.approvals, p));
            && ((exists rs :: Wins(db, p, rs)) <==> winnable)
            && ((exists rs :: Wins(db, p, rs) && AllAt(rs, t)) <==> winnable)
  {
    SoundFromEmpty(history);
    WinnableIff(Run(EMPTY, history), p, t);
  }
}
