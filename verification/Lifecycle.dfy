/** The proposal lifecycle as a transition system over the database tables that
    transition_proposal (routers/proposals.py) and decide (routers/approvals.py)
    read and write.  `Step` is what one request does to the committed tables. */
module Lifecycle {
  import opened Options
  import opened Stages

  type Id = nat
  type Time = int  // microseconds

  const HOUR: Time := 3_600_000_000

  datatype Status = Pending | Approved | Rejected | Escalated | Bypassed

  datatype ProposalRow = ProposalRow(stage: Stage, opportunity: Option<Id>, submittedAt: Option<Time>, updatedAt: Time)

  datatype OpportunityRow = OpportunityRow(stage: Stage, updatedAt: Time)

  datatype ApprovalRow = ApprovalRow(proposal: Id, stage: Stage, approver: Option<Id>, status: Status,
                                     note: Option<string>, decidedAt: Option<Time>, dueAt: Option<Time>)

  /** Rows of the audit log, one constructor per `action`. */
  datatype AuditRow =
    | Created(opportunity: Id, at: Time)
    | Moved(proposal: Id, actor: Option<Id>, from: Stage, to: Stage, at: Time)
    | Decided(approval: Id, actor: Option<Id>, held: Status, wanted: Status, at: Time)
    | Unauthorized(approval: Id, actor: Option<Id>, held: Status, wanted: Status, at: Time)

  datatype Db = Db(proposals: map<Id, ProposalRow>, opportunities: map<Id, OpportunityRow>,
                   approvals: map<Id, ApprovalRow>, audit: seq<AuditRow>)

  const EMPTY: Db := Db(map[], map[], map[], [])

  /** The lookups behind a new review record: the reviewer found for the stage's
      role, and the stage's SLA budget. */
  datatype Routing = Routing(reviewer: map<Stage, Id>, slaHours: map<Stage, int>)

  /** The primary keys drawn for the three review records a transition may insert. */
  datatype Keys = Keys(technical: Id, security: Id, delivery: Id) {
    function Of(stage: Stage): Id {
      match stage
      case TechnicalReview => technical
      case SecurityReview => security
      case _ => delivery
    }
  }

  datatype Request =
    | Open(proposal: Id, opportunity: Id, now: Time)
    | Transition(proposal: Id, to: Stage, actor: Option<Id>, keys: Keys, routing: Routing, now: Time)
    | Decide(approval: Id, status: Status, note: Option<string>, actor: Option<Id>, now: Time)

  datatype Outcome =
    | Done
    | NotFound
    | KeyClash
    | InvalidTransition
    | NotInitialized(missing: set<Stage>)
    | Incomplete(stages: set<Stage>)
    | BadStatus
    | Finalized(status: Status)
    | NotAuthorized

  // ----- one request -----

  /** The approval records of one proposal (`proposal.approvals`). */
  function ReviewsOf(approvals: map<Id, ApprovalRow>, p: Id): map<Id, ApprovalRow> {
    map a | a in approvals && approvals[a].proposal == p :: approvals[a]
  }

  function ParallelOf(reviews: map<Id, ApprovalRow>): map<Id, ApprovalRow> {
    map a | a in reviews && reviews[a].stage in PARALLEL_REVIEW_GROUP :: reviews[a]
  }

  function StagesOf(reviews: map<Id, ApprovalRow>): set<Stage> {
    set a | a in reviews :: reviews[a].stage
  }

  /** The stages of the records that are not approved. */
  function Unapproved(reviews: map<Id, ApprovalRow>): set<Stage> {
    set a | a in reviews && reviews[a].status != Approved :: reviews[a].stage
  }

  /** The gate in front of finance_review: first a count, then a status check. */
  function Gate(reviews: map<Id, ApprovalRow>): Outcome {
    var parallel := ParallelOf(reviews);
    if |parallel| < |PARALLEL_REVIEW_GROUP| then NotInitialized(PARALLEL_REVIEW_GROUP - StagesOf(parallel))
    else if Unapproved(parallel) != {} then Incomplete(Unapproved(parallel))
    else Done
  }

  /** Whether a proposal in stage `from` with these reviews may move to `to`. */
  function MayMove(from: Stage, reviews: map<Id, ApprovalRow>, to: Stage): Outcome {
    if to !in Allowed(from) then InvalidTransition
    else if from in PARALLEL_REVIEW_GROUP && to == FinanceReview then Gate(reviews)
    else Done
  }

  /** The review stages whose records a move creates. */
  function MissingReviews(from: Stage, reviews: map<Id, ApprovalRow>, to: Stage): set<Stage> {
    if from == Drafting && to in PARALLEL_REVIEW_GROUP then PARALLEL_REVIEW_GROUP - StagesOf(reviews) else {}
  }

  function NewReview(p: Id, stage: Stage, routing: Routing, now: Time): ApprovalRow {
    ApprovalRow(p, stage,
                if stage in routing.reviewer then Some(routing.reviewer[stage]) else None,
                Pending, None, None,
                if stage in routing.slaHours then Some(now + routing.slaHours[stage] * HOUR) else None)
  }

  predicate KeysDistinct(keys: Keys, stages: set<Stage>) {
    forall s, t | s in stages && t in stages && s != t :: keys.Of(s) != keys.Of(t)
  }

  /** An insert whose primary key is taken fails, and its request commits nothing. */
  predicate KeysFree(approvals: map<Id, ApprovalRow>, keys: Keys, stages: set<Stage>) {
    KeysDistinct(keys, stages) && forall s | s in stages :: keys.Of(s) !in approvals
  }

  function NewReviews(p: Id, stages: set<Stage>, keys: Keys, routing: Routing, now: Time): map<Id, ApprovalRow>
    requires KeysDistinct(keys, stages)
  {
    map s | s in stages :: keys.Of(s) := NewReview(p, s, routing, now)
  }

  lemma NewReviewsGrow(approvals: map<Id, ApprovalRow>, p: Id, seen: set<Stage>,
                       stage: Stage, keys: Keys, routing: Routing, now: Time)
    requires stage !in seen && KeysFree(approvals, keys, seen)
    ensures KeysFree(approvals, keys, seen + {stage}) <==>
            keys.Of(stage) !in approvals && keys.Of(stage) !in NewReviews(p, seen, keys, routing, now)
    ensures KeysDistinct(keys, seen + {stage}) ==>
              NewReviews(p, seen + {stage}, keys, routing, now) ==
              NewReviews(p, seen, keys, routing, now)[keys.Of(stage) := NewReview(p, stage, routing, now)]
  {
  }

  /** Whether one decision on a record is accepted. */
  function MayDecide(row: ApprovalRow, status: Status, actor: Option<Id>): Outcome {
    if row.status !in {Pending, Escalated} then Finalized(row.status)
    else if actor.Some? && row.approver.Some? && actor != row.approver then NotAuthorized
    else Done
  }

  function OpenProposal(db: Db, p: Id, o: Id, now: Time): (Db, Outcome) {
    if p in db.proposals || o in db.opportunities then (db, KeyClash)
    else (Db(db.proposals[p := ProposalRow(Intake, Some(o), None, now)],
             db.opportunities[o := OpportunityRow(Intake, now)],
             db.approvals,
             db.audit + [Created(o, now)]), Done)
  }

  function MoveProposal(db: Db, p: Id, to: Stage, actor: Option<Id>, keys: Keys, routing: Routing, now: Time)
    : (Db, Outcome) {
    if p !in db.proposals then (db, NotFound) else
    var row := db.proposals[p];
    var reviews := ReviewsOf(db.approvals, p);
    var verdict := MayMove(row.stage, reviews, to);
    var missing := MissingReviews(row.stage, reviews, to);
    if verdict != Done then (db, verdict)
    else if !KeysFree(db.approvals, keys, missing) then (db, KeyClash)
    else
      (Db(db.proposals[p := row.(stage := to, updatedAt := now,
                                 submittedAt := if to == Submission then Some(now) else row.submittedAt)],
          if row.opportunity.Some? && row.opportunity.value in db.opportunities
          then db.opportunities[row.opportunity.value := OpportunityRow(to, now)] else db.opportunities,
          db.approvals + NewReviews(p, missing, keys, routing, now),
          db.audit + [Moved(p, actor, row.stage, to, now)]), Done)
  }

  function DecideReview(db: Db, a: Id, status: Status, note: Option<string>, actor: Option<Id>, now: Time)
    : (Db, Outcome) {
    if status == Pending then (db, BadStatus)
    else if a !in db.approvals then (db, NotFound) else
    var row := db.approvals[a];
    match MayDecide(row, status, actor)
    case Done =>
      (db.(approvals := db.approvals[a := row.(status := status, note := note, decidedAt := Some(now))],
           audit := db.audit + [Decided(a, actor, Pending, status, now)]), Done)
    case NotAuthorized => (db.(audit := db.audit + [Unauthorized(a, actor, row.status, status, now)]), NotAuthorized)
    case verdict => (db, verdict)
  }

  function Step(db: Db, r: Request): (Db, Outcome) {
    match r
    case Open(p, o, now) => OpenProposal(db, p, o, now)
    case Transition(p, to, actor, keys, routing, now) => MoveProposal(db, p, to, actor, keys, routing, now)
    case Decide(a, status, note, actor, now) => DecideReview(db, a, status, note, actor, now)
  }

  /** Any interleaving of requests. */
  function Run(db: Db, rs: seq<Request>): Db
    decreases |rs|
  {
    if rs == [] then db else Run(Step(db, rs[0]).0, rs[1..])
  }

  lemma {:induction false} RunAppend(db: Db, rs: seq<Request>, more: seq<Request>)
    ensures Run(db, rs + more) == Run(Run(db, rs), more)
    decreases |rs|
  {
    if rs == [] {
      assert rs + more == more;
    } else {
      assert (rs + more)[1..] == rs[1..] + more;
      RunAppend(Step(db, rs[0]).0, rs[1..], more);
    }
  }

  // ----- one proposal's share of the tables -----

  datatype Move = Move(from: Stage, to: Stage, at: Time)

  /** The stage-transition rows of one proposal, in the order they were written. */
  function MovesOf(audit: seq<AuditRow>, p: Id): seq<Move> {
    if audit == [] then [] else
    var last := audit[|audit| - 1];
    MovesOf(audit[..|audit| - 1], p) +
    if last.Moved? && last.proposal == p then [Move(last.from, last.to, last.at)] else []
  }

  datatype View = View(stage: Stage, opportunityStage: Option<Stage>, submittedAt: Option<Time>,
                       reviews: map<Id, ApprovalRow>, moves: seq<Move>)

  function OpportunityStage(db: Db, o: Option<Id>): Option<Stage> {
    if o.Some? && o.value in db.opportunities then Some(db.opportunities[o.value].stage) else None
  }

  function ViewOf(db: Db, p: Id): View
    requires p in db.proposals
  {
    var row := db.proposals[p];
    View(row.stage, OpportunityStage(db, row.opportunity), row.submittedAt,
         ReviewsOf(db.approvals, p), MovesOf(db.audit, p))
  }

  /** What a request does to the share of proposal `p`. */
  function ViewStep(p: Id, v: View, r: Request): View {
    match r
    case Open(_, _, _) => v
    case Transition(q, to, _, keys, routing, now) =>
      var missing := MissingReviews(v.stage, v.reviews, to);
      if q != p || MayMove(v.stage, v.reviews, to) != Done || !KeysDistinct(keys, missing) then v
      else View(to, if v.opportunityStage.Some? then Some(to) else None,
                if to == Submission then Some(now) else v.submittedAt,
                v.reviews + NewReviews(p, missing, keys, routing, now),
                v.moves + [Move(v.stage, to, now)])
    case Decide(a, status, note, actor, now) =>
      if a !in v.reviews || status == Pending || MayDecide(v.reviews[a], status, actor) != Done then v
      else v.(reviews := v.reviews[a := v.reviews[a].(status := status, note := note, decidedAt := Some(now))])
  }

  /** Table consistency: every record belongs to a proposal, and each opportunity
      to at most one. */
  ghost predicate Linked(db: Db) {
    && (forall a | a in db.approvals :: db.approvals[a].proposal in db.proposals)
    && (forall i | 0 <= i < |db.audit| && db.audit[i].Moved? :: db.audit[i].proposal in db.proposals)
    && (forall p | p in db.proposals ::
          db.proposals[p].opportunity.Some? && db.proposals[p].opportunity.value in db.opportunities)
    && (forall p, q | p in db.proposals && q in db.proposals && p != q ::
          db.proposals[p].opportunity != db.proposals[q].opportunity)
  }

  /** The request was turned away because a primary key was already taken. */
  predicate Clashes(db: Db, r: Request) {
    Step(db, r).1 == KeyClash
  }

  lemma MovesOfAppend(audit: seq<AuditRow>, row: AuditRow, p: Id)
    ensures MovesOf(audit + [row], p) ==
            MovesOf(audit, p) + if row.Moved? && row.proposal == p then [Move(row.from, row.to, row.at)] else []
  {
  }

  lemma {:induction false} NoMoves(audit: seq<AuditRow>, p: Id)
    requires forall i | 0 <= i < |audit| && audit[i].Moved? :: audit[i].proposal != p
    ensures MovesOf(audit, p) == []
  {
    if audit != [] { NoMoves(audit[..|audit| - 1], p); }
  }

  lemma LinkedTransition(db: Db, r: Request)
    requires Linked(db) && r.Transition?
    ensures Linked(Step(db, r).0)
  {
  }

  lemma {:induction false} LinkedStep(db: Db, r: Request)
    requires Linked(db)
    ensures Linked(Step(db, r).0)
    ensures forall p | p in db.proposals :: p in Step(db, r).0.proposals
  {
    if r.Transition? { LinkedTransition(db, r); }
  }

  lemma ReviewsOfUpdate(approvals: map<Id, ApprovalRow>, a: Id, row: ApprovalRow, p: Id)
    requires a in approvals && row.proposal == approvals[a].proposal
    ensures ReviewsOf(approvals[a := row], p) ==
            if row.proposal == p then ReviewsOf(approvals, p)[a := row] else ReviewsOf(approvals, p)
  {
  }

  lemma ReviewsOfExtend(approvals: map<Id, ApprovalRow>, more: map<Id, ApprovalRow>, q: Id, p: Id)
    requires approvals.Keys !! more.Keys
    requires forall a | a in more :: more[a].proposal == q
    ensures ReviewsOf(approvals + more, p) == if p == q then ReviewsOf(approvals, p) + more else ReviewsOf(approvals, p)
  {
  }

  lemma {:induction false} TransitionView(db: Db, r: Request, p: Id)
    requires Linked(db) && p in db.proposals && r.Transition? && !Clashes(db, r)
    ensures ViewOf(Step(db, r).0, p) == ViewStep(p, ViewOf(db, p), r)
  {
    if Step(db, r).1 == Done {
      var from := db.proposals[r.proposal].stage;
      MovesOfAppend(db.audit, Moved(r.proposal, r.actor, from, r.to, r.now), p);
      var missing := MissingReviews(from, ReviewsOf(db.approvals, r.proposal), r.to);
      ReviewsOfExtend(db.approvals, NewReviews(r.proposal, missing, r.keys, r.routing, r.now), r.proposal, p);
    }
  }

  lemma {:induction false} DecideView(db: Db, r: Request, p: Id)
    requires p in db.proposals && r.Decide?
    ensures ViewOf(Step(db, r).0, p) == ViewStep(p, ViewOf(db, p), r)
  {
    var a, status, actor := r.approval, r.status, r.actor;
    if status != Pending && a in db.approvals {
      var row := db.approvals[a];
      match MayDecide(row, status, actor)
      case Done =>
        MovesOfAppend(db.audit, Decided(a, actor, Pending, status, r.now), p);
        ReviewsOfUpdate(db.approvals, a, row.(status := status, note := r.note, decidedAt := Some(r.now)), p);
      case NotAuthorized =>
        MovesOfAppend(db.audit, Unauthorized(a, actor, row.status, status, r.now), p);
      case _ =>
    }
  }

  /** The tables refine independent per-proposal machines: a request changes the
      share of exactly the proposal it addresses, and in the way `ViewStep` says. */
  lemma {:induction false} StepView(db: Db, r: Request, p: Id)
    requires Linked(db) && p in db.proposals
    ensures p in Step(db, r).0.proposals
    ensures ViewOf(Step(db, r).0, p) == if Clashes(db, r) then ViewOf(db, p) else ViewStep(p, ViewOf(db, p), r)
  {
    match r {
      case Open(_, o, now) =>
        if !Clashes(db, r) {
          MovesOfAppend(db.audit, Created(o, now), p);
          assert ReviewsOf(Step(db, r).0.approvals, p) == ReviewsOf(db.approvals, p);
        }
      case Transition(_, _, _, _, _, _) => if !Clashes(db, r) { TransitionView(db, r, p); }
      case Decide(_, _, _, _, _) => DecideView(db, r, p);
    }
  }

  /** A proposal opened by a request starts in intake with nothing attached to it. */
  lemma OpenView(db: Db, r: Request, p: Id)
    requires Linked(db) && p !in db.proposals && p in Step(db, r).0.proposals
    ensures ViewOf(Step(db, r).0, p) == View(Intake, Some(Intake), None, map[], [])
  {
    var db' := Step(db, r).0;
    assert r.Open? && db'.audit == db.audit + [Created(r.opportunity, r.now)];
    MovesOfAppend(db.audit, Created(r.opportunity, r.now), p);
    NoMoves(db.audit, p);
    assert ReviewsOf(db'.approvals, p) == map[];
  }
}
