/** What each request answers and writes, field by field. */
module LifecycleAnswers {
  import opened Options
  import opened Stages
  import opened Lifecycle
  import opened StageHistory

  // ----- the stage graph -----

  /** One milestone further; out of a review only to finance review. */
  predicate Forward(from: Stage, to: Stage) {
    && to != ClosedLost && !from.Unlisted? && !to.Unlisted? && from != ClosedLost
    && Progress(to) == Progress(from) + 1
    && !(from in PARALLEL_REVIEW_GROUP && to == LegalReview)
  }

  /** The edges: forward by one milestone, through legal review, back to drafting from
      a review or from approval, and lost after qualification, SME assignment or
      client follow-up. */
  lemma EdgesAre(from: Stage, to: Stage)
    ensures to in Allowed(from) <==>
            || Forward(from, to)
            || (from == FinanceReview && to == LegalReview)
            || (to == Drafting && (from in PARALLEL_REVIEW_GROUP || from == Approval))
            || (to == ClosedLost && from in {Qualification, SmeAssignment, ClientFollowup})
  {
  }

  // ----- transitions -----

  ghost predicate HasReview(db: Db, p: Id, s: Stage) {
    exists a :: a in db.approvals && db.approvals[a].proposal == p && db.approvals[a].stage == s
  }

  /** A review nobody has looked at: routed to the reviewer found for its stage, due
      when that stage's budget is used up. */
  predicate Untouched(row: ApprovalRow, p: Id, routing: Routing, now: Time) {
    && row.proposal == p && row.status == Pending && row.note == None && row.decidedAt == None
    && (row.approver.Some? <==> row.stage in routing.reviewer)
    && (row.approver.Some? ==> row.approver.value == routing.reviewer[row.stage])
    && (row.dueAt.Some? <==> row.stage in routing.slaHours)
    && (row.dueAt.Some? ==> row.dueAt.value - now == routing.slaHours[row.stage] * HOUR)
  }

  /** `b` is a record the step added. */
  predicate Added(db: Db, db': Db, b: Id) {
    b in db'.approvals && b !in db.approvals
  }

  lemma StagesHave(db: Db, p: Id, s: Stage)
    ensures s in StagesOf(ReviewsOf(db.approvals, p)) <==> HasReview(db, p, s)
  {
    var reviews := ReviewsOf(db.approvals, p);
    if s in StagesOf(reviews) {
      var a :| a in reviews && reviews[a].stage == s;
      assert a in db.approvals && db.approvals[a].proposal == p && db.approvals[a].stage == s;
    }
    if HasReview(db, p, s) {
      var a :| a in db.approvals && db.approvals[a].proposal == p && db.approvals[a].stage == s;
      assert a in reviews && reviews[a].stage == s;
    }
  }

  lemma NewRows(p: Id, missing: set<Stage>, keys: Keys, routing: Routing, now: Time, b: Id)
    requires KeysDistinct(keys, missing) && b in NewReviews(p, missing, keys, routing, now)
    ensures var row := NewReviews(p, missing, keys, routing, now)[b];
            row.stage in missing && keys.Of(row.stage) == b && Untouched(row, p, routing, now)
  {
  }

  lemma NewRowOf(p: Id, missing: set<Stage>, keys: Keys, routing: Routing, now: Time, s: Stage)
    requires KeysDistinct(keys, missing) && s in missing
    ensures var rows := NewReviews(p, missing, keys, routing, now);
            keys.Of(s) in rows && rows[keys.Of(s)].stage == s
  {
  }

  /** Entering review from drafting adds one untouched record for each review stage
      that had none, and nothing else; older records stay as they are. */
  lemma {:induction false} ReviewsCreated(db: Db, p: Id, to: Stage, actor: Option<Id>,
                                          keys: Keys, routing: Routing, now: Time)
    requires p in db.proposals && db.proposals[p].stage == Drafting && to in PARALLEL_REVIEW_GROUP
    requires Step(db, Transition(p, to, actor, keys, routing, now)).1 == Done
    ensures var db' := Step(db, Transition(p, to, actor, keys, routing, now)).0;
            && (forall a | a in db.approvals :: a in db'.approvals && db'.approvals[a] == db.approvals[a])
            && (forall b | Added(db, db', b) ::
                  && Untouched(db'.approvals[b], p, routing, now)
                  && db'.approvals[b].stage in PARALLEL_REVIEW_GROUP && !HasReview(db, p, db'.approvals[b].stage))
            && (forall b, c | Added(db, db', b) && Added(db, db', c) ::
                  db'.approvals[b].stage == db'.approvals[c].stage ==> b == c)
            && (forall s | s in PARALLEL_REVIEW_GROUP && !HasReview(db, p, s) ::
                  Added(db, db', keys.Of(s)) && db'.approvals[keys.Of(s)].stage == s)
  {
    var db' := Step(db, Transition(p, to, actor, keys, routing, now)).0;
    var missing := MissingReviews(Drafting, ReviewsOf(db.approvals, p), to);
    assert db'.approvals == db.approvals + NewReviews(p, missing, keys, routing, now);
    forall b | Added(db, db', b)
      ensures Untouched(db'.approvals[b], p, routing, now) && keys.Of(db'.approvals[b].stage) == b
      ensures db'.approvals[b].stage in PARALLEL_REVIEW_GROUP && !HasReview(db, p, db'.approvals[b].stage)
    {
      NewRows(p, missing, keys, routing, now, b);
      StagesHave(db, p, db'.approvals[b].stage);
    }
    forall s | s in PARALLEL_REVIEW_GROUP && !HasReview(db, p, s)
      ensures Added(db, db', keys.Of(s)) && db'.approvals[keys.Of(s)].stage == s
    {
      StagesHave(db, p, s);
      NewRowOf(p, missing, keys, routing, now, s);
    }
  }

  /** Every other accepted move leaves the records alone. */
  lemma ReviewsKept(db: Db, p: Id, to: Stage, actor: Option<Id>, keys: Keys, routing: Routing, now: Time)
    requires p in db.proposals && (db.proposals[p].stage != Drafting || to !in PARALLEL_REVIEW_GROUP)
    ensures Step(db, Transition(p, to, actor, keys, routing, now)).0.approvals == db.approvals
  {
    if Step(db, Transition(p, to, actor, keys, routing, now)).1 == Done {
      assert NewReviews(p, {}, keys, routing, now) == map[];
    }
  }

  /** What else an accepted move writes: the stage and its time, the submission time
      on entering submission only, the linked opportunity, and one audit row. */
  lemma MoveWrites(db: Db, p: Id, to: Stage, actor: Option<Id>, keys: Keys, routing: Routing, now: Time)
    requires Step(db, Transition(p, to, actor, keys, routing, now)).1 == Done
    ensures p in db.proposals
    ensures var db' := Step(db, Transition(p, to, actor, keys, routing, now)).0;
            var row, row' := db.proposals[p], db'.proposals[p];
            && db'.proposals.Keys == db.proposals.Keys && db'.opportunities.Keys == db.opportunities.Keys
            && row'.stage == to && row'.updatedAt == now && row'.opportunity == row.opportunity
            && (to == Submission ==> row'.submittedAt == Some(now))
            && (to != Submission ==> row'.submittedAt == row.submittedAt)
            && (forall q | q in db.proposals && q != p :: db'.proposals[q] == db.proposals[q])
            && (forall o | o in db.opportunities ::
                  if row.opportunity == Some(o)
                  then db'.opportunities[o].stage == to && db'.opportunities[o].updatedAt == now
                  else db'.opportunities[o] == db.opportunities[o])
            && |db'.audit| == |db.audit| + 1 && db.audit <= db'.audit
            && (var last := db'.audit[|db.audit|];
                && last.Moved? && last.proposal == p && last.actor == actor
                && last.from == row.stage && last.to == to && last.at == now)
  {
  }

  /** The reviews a move has to create. */
  ghost predicate Creates(db: Db, p: Id, to: Stage, s: Stage)
    requires p in db.proposals
  {
    && db.proposals[p].stage == Drafting && to in PARALLEL_REVIEW_GROUP
    && s in PARALLEL_REVIEW_GROUP && !HasReview(db, p, s)
  }

  ghost predicate KeysUsable(db: Db, p: Id, to: Stage, keys: Keys)
    requires p in db.proposals
  {
    && (forall s | Creates(db, p, to, s) :: keys.Of(s) !in db.approvals)
    && (forall s, t | Creates(db, p, to, s) && Creates(db, p, to, t) && s != t :: keys.Of(s) != keys.Of(t))
  }

  lemma CreatesMissing(db: Db, p: Id, to: Stage, s: Stage)
    requires p in db.proposals
    ensures Creates(db, p, to, s) <==> s in MissingReviews(db.proposals[p].stage, ReviewsOf(db.approvals, p), to)
  {
    StagesHave(db, p, s);
  }

  lemma KeysUsableFree(db: Db, p: Id, to: Stage, keys: Keys)
    requires p in db.proposals
    ensures KeysUsable(db, p, to, keys) <==>
            KeysFree(db.approvals, keys, MissingReviews(db.proposals[p].stage, ReviewsOf(db.approvals, p), to))
  {
    forall s
      ensures Creates(db, p, to, s) <==>
              s in MissingReviews(db.proposals[p].stage, ReviewsOf(db.approvals, p), to)
    {
      CreatesMissing(db, p, to, s);
    }
  }

  /** The parallel reviews of a proposal, counted and looked at one by one. */
  function Reviews(db: Db, p: Id): set<Id> {
    set a | a in db.approvals && db.approvals[a].proposal == p && db.approvals[a].stage in PARALLEL_REVIEW_GROUP
  }

  lemma ReviewsAre(db: Db, p: Id)
    ensures var parallel := ParallelOf(ReviewsOf(db.approvals, p));
            && parallel.Keys == Reviews(db, p) && |parallel| == |Reviews(db, p)|
            && (forall a | a in Reviews(db, p) :: parallel[a] == db.approvals[a])
  {
    var parallel := ParallelOf(ReviewsOf(db.approvals, p));
    assert parallel.Keys == Reviews(db, p);
    assert |parallel| == |parallel.Keys|;
  }

  /** The gate is in the way and three records are there, but not all approved. */
  predicate Awaiting(db: Db, p: Id) {
    |Reviews(db, p)| >= 3 && exists a :: a in Reviews(db, p) && db.approvals[a].status != Approved
  }

  lemma GateAnswers(db: Db, p: Id)
    ensures var verdict := Gate(ReviewsOf(db.approvals, p));
            && (verdict.NotInitialized? <==> |Reviews(db, p)| < 3)
            && (verdict.Incomplete? <==> Awaiting(db, p))
            && (verdict.NotInitialized? || verdict.Incomplete? || verdict == Done)
            && (verdict.NotInitialized? ==> forall s ::
                  s in verdict.missing <==> s in PARALLEL_REVIEW_GROUP && !HasReview(db, p, s))
            && (verdict.Incomplete? ==> forall s :: s in verdict.stages <==>
                  exists a :: a in Reviews(db, p) && db.approvals[a].stage == s && db.approvals[a].status != Approved)
  {
    var parallel := ParallelOf(ReviewsOf(db.approvals, p));
    ReviewsAre(db, p);
    assert |PARALLEL_REVIEW_GROUP| == 3;
    if a :| a in Reviews(db, p) && db.approvals[a].status != Approved {
      assert parallel[a].stage in Unapproved(parallel);
    }
    forall s ensures s in StagesOf(parallel) <==> s in PARALLEL_REVIEW_GROUP && HasReview(db, p, s) {
      ParallelStage(db, p, s);
    }
  }

  lemma ParallelStage(db: Db, p: Id, s: Stage)
    ensures s in StagesOf(ParallelOf(ReviewsOf(db.approvals, p))) <==> s in PARALLEL_REVIEW_GROUP && HasReview(db, p, s)
  {
    var parallel := ParallelOf(ReviewsOf(db.approvals, p));
    ReviewsAre(db, p);
    if s in PARALLEL_REVIEW_GROUP && HasReview(db, p, s) {
      var a :| a in db.approvals && db.approvals[a].proposal == p && db.approvals[a].stage == s;
      assert a in Reviews(db, p) && parallel[a].stage == s;
    }
  }

  /** The answer to a transition request: an unknown proposal, an edge the graph does
      not have, reviews not set up, reviews not approved, taken keys, or done; and
      without done nothing is written. */
  lemma {:induction false} TransitionAnswer(db: Db, p: Id, to: Stage, actor: Option<Id>,
                                            keys: Keys, routing: Routing, now: Time)
    ensures var (db', answer) := Step(db, Transition(p, to, actor, keys, routing, now));
            && (answer != Done ==> db' == db)
            && (answer == NotFound <==> p !in db.proposals)
            && (p in db.proposals ==>
                  var from := db.proposals[p].stage;
                  var edge, gated := to in Allowed(from), from in PARALLEL_REVIEW_GROUP && to == FinanceReview;
                  var ready := gated ==> |Reviews(db, p)| >= 3 && !Awaiting(db, p);
                  && (answer == InvalidTransition <==> !edge)
                  && (answer.NotInitialized? <==> edge && gated && |Reviews(db, p)| < 3)
                  && (answer.Incomplete? <==> edge && gated && Awaiting(db, p))
                  && (answer == KeyClash <==> edge && ready && !KeysUsable(db, p, to, keys))
                  && (answer == Done <==> edge && ready && KeysUsable(db, p, to, keys)))
  {
    if p in db.proposals {
      GateAnswers(db, p);
      KeysUsableFree(db, p, to, keys);
    }
  }

  // ----- decisions -----

  /** Nobody known is turned away in favour of somebody else known. */
  predicate MaySign(row: ApprovalRow, actor: Option<Id>) {
    actor == None || row.approver == None || actor == row.approver
  }

  /** The answer to a decision: the status must be one of the four, the record must
      exist and be open, and the actor must be its approver unless one of them is
      unknown. */
  lemma DecisionAnswer(db: Db, a: Id, status: Status, note: Option<string>, actor: Option<Id>, now: Time)
    ensures var (db', answer) := Step(db, Decide(a, status, note, actor, now));
            && (answer == BadStatus <==> status == Pending)
            && (answer == NotFound <==> status != Pending && a !in db.approvals)
            && (status != Pending && a in db.approvals ==>
                  var row := db.approvals[a];
                  var undecided := row.status == Pending || row.status == Escalated;
                  && (answer == Finalized(row.status) <==> !undecided)
                  && (answer == NotAuthorized <==> undecided && !MaySign(row, actor))
                  && (answer == Done <==> undecided && MaySign(row, actor)))
  {
  }

  /** What a decision writes: on acceptance the three columns of that record and one
      audit row; for the wrong actor one audit row that names the attempt; otherwise
      nothing. */
  lemma DecisionWrites(db: Db, a: Id, status: Status, note: Option<string>, actor: Option<Id>, now: Time)
    ensures var (db', answer) := Step(db, Decide(a, status, note, actor, now));
            && db'.proposals == db.proposals && db'.opportunities == db.opportunities
            && (answer == Done ==>
                  && a in db.approvals && db'.approvals.Keys == db.approvals.Keys
                  && (forall b | b in db.approvals && b != a :: db'.approvals[b] == db.approvals[b])
                  && (var row, row' := db.approvals[a], db'.approvals[a];
                      && row'.status == status && row'.note == note && row'.decidedAt == Some(now)
                      && row'.proposal == row.proposal && row'.stage == row.stage
                      && row'.approver == row.approver && row'.dueAt == row.dueAt)
                  && db'.audit == db.audit + [Decided(a, actor, Pending, status, now)])
            && (answer != Done ==> db'.approvals == db.approvals)
            && (answer == NotAuthorized ==>
                  && a in db.approvals
                  && db'.audit == db.audit + [Unauthorized(a, actor, db.approvals[a].status, status, now)])
            && (answer != Done && answer != NotAuthorized ==> db' == db)
  {
  }

  // ----- new opportunities -----

  lemma OpenWrites(db: Db, p: Id, o: Id, now: Time)
    ensures var (db', answer) := Step(db, Open(p, o, now));
            && (answer == Done <==> p !in db.proposals && o !in db.opportunities)
            && (answer != Done ==> answer == KeyClash && db' == db)
            && (answer == Done ==>
                  && db'.proposals.Keys == db.proposals.Keys + {p}
                  && db'.opportunities.Keys == db.opportunities.Keys + {o}
                  && (forall q | q in db.proposals :: db'.proposals[q] == db.proposals[q])
                  && (forall q | q in db.opportunities :: db'.opportunities[q] == db.opportunities[q])
                  && db'.proposals[p].stage == Intake && db'.proposals[p].opportunity == Some(o)
                  && db'.proposals[p].submittedAt == None && db'.proposals[p].updatedAt == now
                  && db'.opportunities[o].stage == Intake && db'.opportunities[o].updatedAt == now
                  && db'.approvals == db.approvals && db'.audit == db.audit + [Created(o, now)])
  {
  }
}
