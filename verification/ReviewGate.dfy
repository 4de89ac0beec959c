/** The parallel-review gate and what it keeps over every interleaving of
    requests. */
module ReviewGate {
  import opened Cardinality
  import opened Stages
  import opened Lifecycle

  /** Only review stages, and no review stage twice. */
  predicate OneEach(reviews: map<Id, ApprovalRow>) {
    && (forall a | a in reviews :: reviews[a].stage in PARALLEL_REVIEW_GROUP)
    && (forall a, b | a in reviews && b in reviews && reviews[a].stage == reviews[b].stage :: a == b)
  }

  /** The review of `stage` was signed off, and it has no second record. */
  predicate SignedOff(reviews: map<Id, ApprovalRow>, stage: Stage) {
    && (exists a :: a in reviews && reviews[a].stage == stage && reviews[a].status == Approved)
    && (forall a, b | a in reviews && b in reviews && reviews[a].stage == stage == reviews[b].stage :: a == b)
  }

  lemma StagesOfExtend(reviews: map<Id, ApprovalRow>, more: map<Id, ApprovalRow>)
    requires reviews.Keys !! more.Keys
    ensures StagesOf(reviews + more) == StagesOf(reviews) + StagesOf(more)
  {
  }

  lemma StagesOfNew(p: Id, stages: set<Stage>, keys: Keys, routing: Routing, now: Time)
    requires KeysDistinct(keys, stages)
    ensures StagesOf(NewReviews(p, stages, keys, routing, now)) == stages
  {
    var more := NewReviews(p, stages, keys, routing, now);
    forall s | s in stages ensures s in StagesOf(more) {
      assert more[keys.Of(s)].stage == s;
    }
  }

  lemma WithoutOne(reviews: map<Id, ApprovalRow>, a: Id)
    requires OneEach(reviews) && a in reviews
    ensures OneEach(reviews - {a}) && reviews[a].stage !in StagesOf(reviews - {a})
    ensures StagesOf(reviews) == StagesOf(reviews - {a}) + {reviews[a].stage}
    ensures |reviews| == |reviews - {a}| + 1
  {
    var rest, one := reviews - {a}, map[a := reviews[a]];
    assert OneEach(rest) && reviews[a].stage !in StagesOf(rest);
    assert StagesOf(reviews) == StagesOf(rest) + {reviews[a].stage} by {
      assert reviews == rest + one;
      StagesOfExtend(rest, one);
      assert one[a].stage in StagesOf(one);
    }
  }

  lemma {:induction false} OneEachCount(reviews: map<Id, ApprovalRow>)
    requires OneEach(reviews)
    ensures |reviews| == |StagesOf(reviews)|
  {
    if reviews != map[] {
      var a :| a in reviews;
      WithoutOne(reviews, a);
      OneEachCount(reviews - {a});
    }
  }

  predicate AllApproved(reviews: map<Id, ApprovalRow>) {
    forall a | a in reviews :: reviews[a].status == Approved
  }

  lemma AllParallel(reviews: map<Id, ApprovalRow>)
    requires OneEach(reviews)
    ensures ParallelOf(reviews) == reviews && StagesOf(reviews) <= PARALLEL_REVIEW_GROUP
    ensures |reviews| >= |PARALLEL_REVIEW_GROUP| <==> StagesOf(reviews) == PARALLEL_REVIEW_GROUP
  {
    assert ParallelOf(reviews) == reviews;
    var stages := StagesOf(reviews);
    assert |reviews| == |stages| by { OneEachCount(reviews); }
    assert stages <= PARALLEL_REVIEW_GROUP;
    if |stages| >= |PARALLEL_REVIEW_GROUP| { SubsetSize(stages, PARALLEL_REVIEW_GROUP); }
  }

  lemma NoneUnapproved(reviews: map<Id, ApprovalRow>)
    ensures Unapproved(reviews) == {} <==> AllApproved(reviews)
  {
    if a :| a in reviews && reviews[a].status != Approved {
      assert reviews[a].stage in Unapproved(reviews);
    }
  }

  lemma {:induction false} GateCounts(reviews: map<Id, ApprovalRow>)
    requires OneEach(reviews)
    ensures Gate(reviews) == Done <==> StagesOf(reviews) == PARALLEL_REVIEW_GROUP && AllApproved(reviews)
    ensures StagesOf(reviews) == PARALLEL_REVIEW_GROUP ==> !Gate(reviews).NotInitialized?
  {
    AllParallel(reviews);
    NoneUnapproved(reviews);
  }

  lemma {:induction false} CompleteMeansSignedOff(reviews: map<Id, ApprovalRow>)
    requires OneEach(reviews)
    ensures StagesOf(reviews) == PARALLEL_REVIEW_GROUP && AllApproved(reviews) <==>
            forall s | s in PARALLEL_REVIEW_GROUP :: SignedOff(reviews, s)
  {
    if StagesOf(reviews) == PARALLEL_REVIEW_GROUP && AllApproved(reviews) {
      forall s | s in PARALLEL_REVIEW_GROUP ensures SignedOff(reviews, s) {
        assert s in StagesOf(reviews);
      }
    }
    if forall s | s in PARALLEL_REVIEW_GROUP :: SignedOff(reviews, s) {
      forall s | s in PARALLEL_REVIEW_GROUP ensures s in StagesOf(reviews) {
        assert SignedOff(reviews, s);
      }
      forall a | a in reviews ensures reviews[a].status == Approved {
        assert SignedOff(reviews, reviews[a].stage);
      }
    }
  }

  /** The gate only counts records and checks their status.  As long as no review
      stage has two records that is the same as requiring all three sign-offs. */
  lemma {:induction false} GateMeansSignedOff(reviews: map<Id, ApprovalRow>)
    requires OneEach(reviews)
    ensures Gate(reviews) == Done <==> forall s | s in PARALLEL_REVIEW_GROUP :: SignedOff(reviews, s)
  {
    GateCounts(reviews);
    CompleteMeansSignedOff(reviews);
  }

  /** The records of one stage decide about its sign-off. */
  lemma SignedOffSame(reviews: map<Id, ApprovalRow>, other: map<Id, ApprovalRow>, s: Stage)
    requires forall a | a in reviews && reviews[a].stage == s :: a in other && other[a] == reviews[a]
    requires forall a | a in other && other[a].stage == s :: a in reviews && reviews[a] == other[a]
    ensures SignedOff(reviews, s) ==> SignedOff(other, s)
  {
    if SignedOff(reviews, s) {
      var a :| a in reviews && reviews[a].stage == s && reviews[a].status == Approved;
      assert a in other && other[a] == reviews[a];
    }
  }

  lemma SignedOffParallel(reviews: map<Id, ApprovalRow>, s: Stage)
    requires s in PARALLEL_REVIEW_GROUP
    ensures SignedOff(reviews, s) <==> SignedOff(ParallelOf(reviews), s)
  {
    SignedOffSame(reviews, ParallelOf(reviews), s);
    SignedOffSame(ParallelOf(reviews), reviews, s);
  }

  lemma SignedOffOnce(parallel: map<Id, ApprovalRow>)
    requires forall s | s in PARALLEL_REVIEW_GROUP :: SignedOff(parallel, s)
    requires forall a | a in parallel :: parallel[a].stage in PARALLEL_REVIEW_GROUP
    ensures OneEach(parallel)
  {
    forall a, b | a in parallel && b in parallel && parallel[a].stage == parallel[b].stage ensures a == b {
      assert SignedOff(parallel, parallel[a].stage);
    }
  }

  /** Whatever records there are: the gate opens without the three sign-offs exactly
      when it opens although some review stage has two records. */
  lemma GateTooEarly(reviews: map<Id, ApprovalRow>)
    ensures Gate(reviews) == Done && !(forall s | s in PARALLEL_REVIEW_GROUP :: SignedOff(reviews, s)) <==>
            Gate(reviews) == Done && !OneEach(ParallelOf(reviews))
  {
    var parallel := ParallelOf(reviews);
    assert ParallelOf(parallel) == parallel;
    assert Gate(parallel) == Gate(reviews);
    forall s | s in PARALLEL_REVIEW_GROUP ensures SignedOff(reviews, s) <==> SignedOff(parallel, s) {
      SignedOffParallel(reviews, s);
    }
    if OneEach(parallel) {
      GateMeansSignedOff(parallel);
    } else if forall s | s in PARALLEL_REVIEW_GROUP :: SignedOff(parallel, s) {
      SignedOffOnce(parallel);
    }
  }

  /** For instance, three approved records of one review stage open it although two
      reviews have no record at all. */
  lemma GateTrustsUniqueness(row: ApprovalRow)
    requires row.stage == TechnicalReview && row.status == Approved
    ensures var reviews := map[0 := row, 1 := row, 2 := row];
            Gate(reviews) == Done && StagesOf(reviews) == {TechnicalReview}
  {
    var reviews := map[0 := row, 1 := row, 2 := row];
    assert reviews.Keys == {0, 1, 2};
    assert ParallelOf(reviews) == reviews;
    NoneUnapproved(reviews);
    assert reviews[0].stage in StagesOf(reviews);
  }

  lemma OneEachExtend(reviews: map<Id, ApprovalRow>, p: Id, stages: set<Stage>, keys: Keys, routing: Routing, now: Time)
    requires OneEach(reviews) && KeysFree(reviews, keys, stages)
    requires stages <= PARALLEL_REVIEW_GROUP && stages !! StagesOf(reviews)
    ensures OneEach(reviews + NewReviews(p, stages, keys, routing, now))
  {
  }

  lemma ReviewsAfterMove(p: Id, reviews: map<Id, ApprovalRow>, missing: set<Stage>,
                         keys: Keys, routing: Routing, now: Time)
    requires OneEach(reviews) && KeysFree(reviews, keys, missing)
    requires missing <= PARALLEL_REVIEW_GROUP && missing !! StagesOf(reviews)
    ensures var after := reviews + NewReviews(p, missing, keys, routing, now);
            && OneEach(after)
            && StagesOf(after) == StagesOf(reviews) + missing
            && (missing == {} ==> after == reviews)
  {
    OneEachExtend(reviews, p, missing, keys, routing, now);
    StagesOfExtend(reviews, NewReviews(p, missing, keys, routing, now));
    StagesOfNew(p, missing, keys, routing, now);
  }

  /** Stages and review records move in step along every edge of the graph. */
  predicate Synchronised(stage: Stage, reviews: map<Id, ApprovalRow>) {
    var stages := StagesOf(reviews);
    && !stage.Unlisted?
    && (BeforeDrafting(stage) ==> stages == {})
    && (stage == Drafting ==> stages == {} || stages == PARALLEL_REVIEW_GROUP)
    && (stage in PARALLEL_REVIEW_GROUP || PastGate(stage) ==> stages == PARALLEL_REVIEW_GROUP)
    && (PastGate(stage) ==> AllApproved(reviews))
  }

  lemma SynchronisedMove(from: Stage, reviews: map<Id, ApprovalRow>, to: Stage, after: map<Id, ApprovalRow>)
    requires Synchronised(from, reviews) && to in Allowed(from)
    requires from in PARALLEL_REVIEW_GROUP && to == FinanceReview ==> AllApproved(reviews)
    requires StagesOf(after) == StagesOf(reviews) + MissingReviews(from, reviews, to)
    requires MissingReviews(from, reviews, to) == {} ==> after == reviews
    ensures Synchronised(to, after)
  {
  }

  lemma DecideKeeps(reviews: map<Id, ApprovalRow>, a: Id, row: ApprovalRow)
    requires OneEach(reviews) && a in reviews && row.stage == reviews[a].stage
    ensures OneEach(reviews[a := row]) && StagesOf(reviews[a := row]) == StagesOf(reviews)
  {
    var after := reviews[a := row];
    assert forall b | b in reviews :: after[b].stage == reviews[b].stage;
    forall s | s in StagesOf(reviews) ensures s in StagesOf(after) {
      var b :| b in reviews && reviews[b].stage == s;
      assert after[b].stage == s;
    }
  }

  /** The reviews of a proposal are consistent with each other and with its stage. */
  predicate ReviewsSound(v: View) {
    OneEach(v.reviews) && Synchronised(v.stage, v.reviews)
  }

  lemma {:induction false} GatePassed(from: Stage, reviews: map<Id, ApprovalRow>, to: Stage)
    requires OneEach(reviews) && MayMove(from, reviews, to) == Done
    ensures to in Allowed(from)
    ensures from in PARALLEL_REVIEW_GROUP && to == FinanceReview ==> AllApproved(reviews)
  {
    if from in PARALLEL_REVIEW_GROUP && to == FinanceReview { GateCounts(reviews); }
  }

  lemma MissingFits(from: Stage, reviews: map<Id, ApprovalRow>, to: Stage)
    ensures MissingReviews(from, reviews, to) <= PARALLEL_REVIEW_GROUP
    ensures MissingReviews(from, reviews, to) !! StagesOf(reviews)
  {
  }

  lemma {:induction false} ReviewsSoundStep(p: Id, v: View, r: Request)
    requires ReviewsSound(v)
    requires r.Transition? ==> KeysFree(v.reviews, r.keys, MissingReviews(v.stage, v.reviews, r.to))
    ensures ReviewsSound(ViewStep(p, v, r))
  {
    if ViewStep(p, v, r) != v {
      if r.Transition? {
        GatePassed(v.stage, v.reviews, r.to);
        MissingFits(v.stage, v.reviews, r.to);
        ReviewsAfterMove(p, v.reviews, MissingReviews(v.stage, v.reviews, r.to), r.keys, r.routing, r.now);
        SynchronisedMove(v.stage, v.reviews, r.to, ViewStep(p, v, r).reviews);
      } else {
        DecideKeeps(v.reviews, r.approval, ViewStep(p, v, r).reviews[r.approval]);
      }
    }
  }

  /** A record that was approved, rejected or bypassed never changes again. */
  lemma FinalStaysFinal(db: Db, rs: seq<Request>, a: Id)
    requires a in db.approvals && db.approvals[a].status in {Approved, Rejected, Bypassed}
    ensures a in Run(db, rs).approvals && Run(db, rs).approvals[a] == db.approvals[a]
    decreases |rs|
  {
    if rs != [] {
      FinalStaysFinal(Step(db, rs[0]).0, rs[1..], a);
    }
  }
}
