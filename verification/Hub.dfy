/** The request handlers themselves, over mutable tables.  Each handler is proved
    to commit exactly what `Lifecycle.Step` says and to answer accordingly. */
module Hub {
  import opened Options
  import opened Stages
  import opened Lifecycle

  class Store {
    var proposals: map<Id, ProposalRow>
    var opportunities: map<Id, OpportunityRow>
    var approvals: map<Id, ApprovalRow>
    var audit: seq<AuditRow>

    function Tables(): Db
      reads this
    {
      Db(proposals, opportunities, approvals, audit)
    }

    constructor ()
      ensures Tables() == EMPTY
    {
      proposals, opportunities, approvals, audit := map[], map[], map[], [];
    }

    method CreateOpportunity(p: Id, o: Id, now: Time) returns (outcome: Outcome)
      modifies this
      ensures (Tables(), outcome) == Step(old(Tables()), Open(p, o, now))
    {
      if p in proposals || o in opportunities {
        return KeyClash;
      }
      opportunities := opportunities[o := OpportunityRow(Intake, now)];
      proposals := proposals[p := ProposalRow(Intake, Some(o), None, now)];
      audit := audit + [Created(o, now)];
      outcome := Done;
    }

    /** The records for the missing review stages, staged one at a time; `clash`
        when a drawn key is already in use. */
    method StageReviews(p: Id, existing: set<Stage>, keys: Keys, routing: Routing, now: Time)
      returns (added: map<Id, ApprovalRow>, clash: bool)
      ensures var missing := PARALLEL_REVIEW_GROUP - existing;
              && clash == !KeysFree(approvals, keys, missing)
              && (!clash ==> added == NewReviews(p, missing, keys, routing, now))
    {
      added, clash := map[], false;
      ghost var seen: set<Stage> := {};
      for i := 0 to |SORTED_REVIEW_GROUP|
        invariant forall s :: s in seen <==> s in SORTED_REVIEW_GROUP[..i] && s !in existing
        invariant clash == !KeysFree(approvals, keys, seen)
        invariant !clash ==> added == NewReviews(p, seen, keys, routing, now)
      {
        var stage := SORTED_REVIEW_GROUP[i];
        if stage !in existing {
          if !clash {
            NewReviewsGrow(approvals, p, seen, stage, keys, routing, now);
          }
          seen := seen + {stage};
          if keys.Of(stage) in approvals || keys.Of(stage) in added {
            clash := true;
          } else {
            added := added[keys.Of(stage) := NewReview(p, stage, routing, now)];
          }
        }
      }
      forall s ensures s in seen <==> s in PARALLEL_REVIEW_GROUP && s !in existing {
        assert SORTED_REVIEW_GROUP[..|SORTED_REVIEW_GROUP|] == SORTED_REVIEW_GROUP;
        SortedReviewGroup(s);
      }
      assert seen == PARALLEL_REVIEW_GROUP - existing;
    }

    /** The edge check and the gate, before anything is written. */
    method CheckMove(from: Stage, reviews: map<Id, ApprovalRow>, to: Stage) returns (verdict: Outcome)
      ensures verdict == MayMove(from, reviews, to)
    {
      if to !in Allowed(from) {
        return InvalidTransition;
      }
      if from in PARALLEL_REVIEW_GROUP && to == FinanceReview {
        var parallel := ParallelOf(reviews);
        if |parallel| < |PARALLEL_REVIEW_GROUP| {
          return NotInitialized(PARALLEL_REVIEW_GROUP - StagesOf(parallel));
        }
        var incomplete := Unapproved(parallel);
        if incomplete != {} {
          return Incomplete(incomplete);
        }
      }
      verdict := Done;
    }

    method TransitionProposal(p: Id, to: Stage, actor: Option<Id>, keys: Keys, routing: Routing, now: Time)
      returns (outcome: Outcome)
      modifies this
      ensures (Tables(), outcome) == Step(old(Tables()), Transition(p, to, actor, keys, routing, now))
    {
      if p !in proposals {
        return NotFound;
      }
      var proposal := proposals[p];
      var reviews := ReviewsOf(approvals, p);
      outcome := CheckMove(proposal.stage, reviews, to);
      if outcome != Done {
        return;
      }
      var added: map<Id, ApprovalRow>, clash := map[], false;
      if to in PARALLEL_REVIEW_GROUP && proposal.stage == Drafting {
        added, clash := StageReviews(p, StagesOf(reviews), keys, routing, now);
      }
      ghost var missing := MissingReviews(proposal.stage, reviews, to);
      assert clash == !KeysFree(approvals, keys, missing);
      if clash {
        return KeyClash;  // the commit fails and nothing is written
      }
      assert added == NewReviews(p, missing, keys, routing, now);
      approvals := approvals + added;
      var row := proposal.(stage := to, updatedAt := now);
      if to == Submission {
        row := row.(submittedAt := Some(now));
      }
      proposals := proposals[p := row];
      if proposal.opportunity.Some? && proposal.opportunity.value in opportunities {
        opportunities := opportunities[proposal.opportunity.value := OpportunityRow(to, now)];
      }
      audit := audit + [Moved(p, actor, proposal.stage, to, now)];
      outcome := Done;
    }

    method DecideApproval(a: Id, status: Status, note: Option<string>, actor: Option<Id>, now: Time)
      returns (outcome: Outcome)
      modifies this
      ensures (Tables(), outcome) == Step(old(Tables()), Decide(a, status, note, actor, now))
    {
      if status !in {Status.Approved, Rejected, Escalated, Bypassed} {
        return BadStatus;
      }
      if a !in approvals {
        return NotFound;
      }
      var row := approvals[a];
      if row.status !in {Pending, Escalated} {
        return Finalized(row.status);
      }
      if actor.Some? && row.approver.Some? && actor != row.approver {
        audit := audit + [Unauthorized(a, actor, row.status, status, now)];
        return NotAuthorized;
      }
      approvals := approvals[a := row.(status := status, note := note, decidedAt := Some(now))];
      audit := audit + [Decided(a, actor, Pending, status, now)];
      outcome := Done;
    }
  }
}
