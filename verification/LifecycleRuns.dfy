/** Safety of the proposal lifecycle over every interleaving of requests. */
module LifecycleRuns {
  import opened Options
  import opened Stages
  import opened Lifecycle
  import opened ReviewGate
  import opened StageHistory

  ghost predicate ViewSound(v: View) {
    ReviewsSound(v) && HistorySound(v)
  }

  ghost predicate Sound(db: Db) {
    && Linked(db)
    && forall p | p in db.proposals :: ViewSound(ViewOf(db, p))
  }

  lemma KeysFreeInView(db: Db, r: Request)
    requires r.Transition? && r.proposal in db.proposals && Step(db, r).1 == Done
    ensures var v := ViewOf(db, r.proposal);
            KeysFree(v.reviews, r.keys, MissingReviews(v.stage, v.reviews, r.to))
  {
  }

  lemma ViewSoundStep(db: Db, r: Request, p: Id)
    requires Linked(db) && p in db.proposals && ViewSound(ViewOf(db, p)) && p in Step(db, r).0.proposals
    ensures ViewSound(ViewOf(Step(db, r).0, p))
  {
    var v, v' := ViewOf(db, p), ViewOf(Step(db, r).0, p);
    StepView(db, r, p);
    if v' != v {
      HistorySoundStep(p, v, r);
      if r.Transition? { KeysFreeInView(db, r); }
      ReviewsSoundStep(p, v, r);
    }
  }

  lemma FreshSound()
    ensures ViewSound(View(Intake, Some(Intake), None, map[], []))
  {
  }

  lemma ViewSoundOpen(db: Db, r: Request, p: Id)
    requires Linked(db) && p !in db.proposals && p in Step(db, r).0.proposals
    ensures ViewSound(ViewOf(Step(db, r).0, p))
  {
    OpenView(db, r, p);
    FreshSound();
  }

  lemma SoundStep(db: Db, r: Request)
    requires Sound(db)
    ensures Sound(Step(db, r).0)
  {
    var db' := Step(db, r).0;
    LinkedStep(db, r);
    forall p | p in db'.proposals ensures ViewSound(ViewOf(db', p)) {
      if p in db.proposals { ViewSoundStep(db, r, p); } else { ViewSoundOpen(db, r, p); }
    }
  }

  lemma {:induction false} SoundRun(db: Db, rs: seq<Request>)
    requires Sound(db)
    ensures Sound(Run(db, rs))
    decreases |rs|
  {
    if rs != [] {
      SoundStep(db, rs[0]);
      SoundRun(Step(db, rs[0]).0, rs[1..]);
    }
  }

  lemma SoundFromEmpty(rs: seq<Request>)
    ensures Sound(Run(EMPTY, rs))
  {
    SoundRun(EMPTY, rs);
  }

  /** No proposal gets behind the gate unless each of the three parallel reviews
      has exactly one record and that record is approved. */
  lemma GateSafety(rs: seq<Request>, p: Id)
    requires p in Run(EMPTY, rs).proposals && PastGate(Run(EMPTY, rs).proposals[p].stage)
    ensures forall s | s in PARALLEL_REVIEW_GROUP :: SignedOff(ReviewsOf(Run(EMPTY, rs).approvals, p), s)
  {
    SoundFromEmpty(rs);
    CompleteMeansSignedOff(ViewOf(Run(EMPTY, rs), p).reviews);
  }

  lemma SignedOffLater(before: map<Id, ApprovalRow>, after: map<Id, ApprovalRow>, s: Stage)
    requires SignedOff(before, s) && OneEach(after)
    requires forall a | a in before && before[a].status == Approved :: a in after && after[a] == before[a]
    ensures SignedOff(after, s)
  {
  }

  /** Sign-offs are for good: a proposal that was once behind the gate keeps them,
      also when it is sent back to drafting and goes through review again. */
  lemma {:induction false} SignOffsLast(rs: seq<Request>, more: seq<Request>, p: Id)
    requires p in Run(EMPTY, rs).proposals && PastGate(Run(EMPTY, rs).proposals[p].stage)
    ensures p in Run(EMPTY, rs + more).proposals
    ensures forall s | s in PARALLEL_REVIEW_GROUP :: SignedOff(ReviewsOf(Run(EMPTY, rs + more).approvals, p), s)
  {
    var db := Run(EMPTY, rs);
    GateSafety(rs, p);
    RunAppend(EMPTY, rs, more);
    SoundFromEmpty(rs);
    ProposalsStay(db, more, p);
    SoundRun(db, more);
    assert ViewSound(ViewOf(Run(db, more), p));
    var before, after := ReviewsOf(db.approvals, p), ReviewsOf(Run(db, more).approvals, p);
    forall a | a in before && before[a].status == Approved ensures a in after && after[a] == before[a] {
      FinalStaysFinal(db, more, a);
    }
    forall s | s in PARALLEL_REVIEW_GROUP ensures SignedOff(after, s) { SignedOffLater(before, after, s); }
  }

  lemma {:induction false} ProposalsStay(db: Db, rs: seq<Request>, p: Id)
    requires Linked(db) && p in db.proposals
    ensures p in Run(db, rs).proposals
    decreases |rs|
  {
    if rs != [] {
      LinkedStep(db, rs[0]);
      ProposalsStay(Step(db, rs[0]).0, rs[1..], p);
    }
  }

  /** In every run a review stage has its three records, so the gate never answers
      that they are not initialized, and it opens exactly on the three sign-offs. */
  lemma GateIsExact(rs: seq<Request>, p: Id)
    requires p in Run(EMPTY, rs).proposals && Run(EMPTY, rs).proposals[p].stage in PARALLEL_REVIEW_GROUP
    ensures var reviews := ReviewsOf(Run(EMPTY, rs).approvals, p);
            && !Gate(reviews).NotInitialized?
            && (Gate(reviews) == Done <==> forall s | s in PARALLEL_REVIEW_GROUP :: SignedOff(reviews, s))
  {
    SoundFromEmpty(rs);
    var v := ViewOf(Run(EMPTY, rs), p);
    assert ViewSound(v);
    GateCounts(v.reviews);
    GateMeansSignedOff(v.reviews);
  }

  /** The rows are a faithful history: replaying them from intake gives the stage,
      which is also the stage of the linked opportunity. */
  lemma HistoryReplays(rs: seq<Request>, p: Id)
    requires p in Run(EMPTY, rs).proposals
    ensures var db := Run(EMPTY, rs);
            var row := db.proposals[p];
            && Replay(MovesOf(db.audit, p)) == Some(row.stage)
            && row.opportunity.Some? && row.opportunity.value in db.opportunities
            && db.opportunities[row.opportunity.value].stage == row.stage
  {
    SoundFromEmpty(rs);
    assert HistorySound(ViewOf(Run(EMPTY, rs), p));
  }

  /** Every won proposal went through qualification, SME assignment, drafting, a
      parallel review, finance review, approval, submission and client follow-up,
      in this order. */
  lemma WonTheLongWay(rs: seq<Request>, p: Id)
    requires p in Run(EMPTY, rs).proposals && Run(EMPTY, rs).proposals[p].stage == ClosedWon
    ensures exists at :: Itinerary(Visited(MovesOf(Run(EMPTY, rs).audit, p)), at) && |at| == MILESTONES
  {
    SoundFromEmpty(rs);
    WonView(ViewOf(Run(EMPTY, rs), p));
  }

  lemma {:induction false} WonView(v: View)
    requires HistorySound(v) && v.stage == ClosedWon
    ensures exists at :: Itinerary(Visited(v.moves), at) && |at| == MILESTONES
  {
  }

  /** A proposal is submitted at most once, and `submitted_at` is the time of that
      one transition, set exactly when it happened. */
  lemma SubmissionOnce(rs: seq<Request>, p: Id)
    requires p in Run(EMPTY, rs).proposals
    ensures var db := Run(EMPTY, rs);
            var moves := MovesOf(db.audit, p);
            && Entries(moves, Submission) <= 1
            && db.proposals[p].submittedAt == LastEntry(moves, Submission)
            && (db.proposals[p].submittedAt.Some? <==> Entries(moves, Submission) == 1)
  {
    SoundFromEmpty(rs);
    assert HistorySound(ViewOf(Run(EMPTY, rs), p));
    EntryTimed(MovesOf(Run(EMPTY, rs).audit, p), Submission);
  }

  lemma {:induction false} EntryTimed(moves: seq<Move>, stage: Stage)
    ensures LastEntry(moves, stage).Some? <==> Entries(moves, stage) > 0
  {
    if moves != [] { EntryTimed(moves[..|moves| - 1], stage); }
  }

  /** Every decision on record was taken by the assigned approver, by the system, or
      on a record without an approver; denied attempts leave a row of their own. */
  ghost predicate Authorized(db: Db) {
    forall i | 0 <= i < |db.audit| && db.audit[i].Decided? ::
      var row := db.audit[i];
      row.approval in db.approvals &&
      (row.actor.None? || db.approvals[row.approval].approver.None? || row.actor == db.approvals[row.approval].approver)
  }

  lemma ApproversStay(db: Db, r: Request, a: Id)
    requires a in db.approvals
    ensures a in Step(db, r).0.approvals && Step(db, r).0.approvals[a].approver == db.approvals[a].approver
  {
  }

  lemma AuthorizedStep(db: Db, r: Request)
    requires Authorized(db)
    ensures Authorized(Step(db, r).0)
  {
    var db' := Step(db, r).0;
    forall i | 0 <= i < |db'.audit| && db'.audit[i].Decided?
      ensures var row := db'.audit[i];
              && row.approval in db'.approvals
              && (row.actor.None? || db'.approvals[row.approval].approver.None? ||
                  row.actor == db'.approvals[row.approval].approver)
    {
      if i < |db.audit| {
        assert db'.audit[i] == db.audit[i];
        ApproversStay(db, r, db.audit[i].approval);
      }
    }
  }

  /** In every run nobody decides a review that is assigned to somebody else. */
  lemma {:induction false} DecisionsAuthorized(db: Db, rs: seq<Request>)
    requires Authorized(db)
    ensures Authorized(Run(db, rs))
    decreases |rs|
  {
    if rs != [] {
      AuthorizedStep(db, rs[0]);
      DecisionsAuthorized(Step(db, rs[0]).0, rs[1..]);
    }
  }
}
