/** The proposal stage graph (models/proposal.py). */
module Stages {

  datatype Stage =
    | Intake | Qualification | SmeAssignment | Drafting
    | TechnicalReview | SecurityReview | DeliveryReview
    | FinanceReview | LegalReview | Approval
    | Submission | ClientFollowup | ClosedWon | ClosedLost
    | Unlisted(name: string)  // any text that is not one of the valid stages

  /** `TRANSITIONS.get(stage, [])`; only membership is ever asked. */
  function Allowed(stage: Stage): set<Stage> {
    match stage
    case Intake => {Qualification}
    case Qualification => {SmeAssignment, ClosedLost}
    case SmeAssignment => {Drafting, ClosedLost}
    case Drafting => {TechnicalReview, SecurityReview, DeliveryReview}
    case TechnicalReview => {FinanceReview, Drafting}
    case SecurityReview => {FinanceReview, Drafting}
    case DeliveryReview => {FinanceReview, Drafting}
    case FinanceReview => {LegalReview, Approval}
    case LegalReview => {Approval}
    case Approval => {Submission, Drafting}
    case Submission => {ClientFollowup}
    case ClientFollowup => {ClosedWon, ClosedLost}
    case ClosedWon => {}
    case ClosedLost => {}
    case Unlisted(_) => {}
  }

  const PARALLEL_REVIEW_GROUP: set<Stage> := {TechnicalReview, SecurityReview, DeliveryReview}

  /** `sorted(PARALLEL_REVIEW_GROUP)`. */
  const SORTED_REVIEW_GROUP: seq<Stage> := [DeliveryReview, SecurityReview, TechnicalReview]

  lemma SortedReviewGroup(s: Stage)
    ensures s in SORTED_REVIEW_GROUP <==> s in PARALLEL_REVIEW_GROUP
  {
  }

  /** The stages that lie behind the parallel-review gate. */
  predicate PastGate(stage: Stage) {
    stage in {FinanceReview, LegalReview, Approval, Submission, ClientFollowup, ClosedWon}
  }

  /** The stages before the first draft, where no review can exist yet. */
  predicate BeforeDrafting(stage: Stage) {
    stage in {Intake, Qualification, SmeAssignment}
  }
}
