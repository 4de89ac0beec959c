/** What the stage-transition rows of one proposal say about its past. */
module StageHistory {
  import opened Options
  import opened Stages
  import opened Lifecycle

  /** Replays the rows from intake; `None` when a row does not continue from the
      stage reached so far, or uses an edge the graph does not have. */
  function Replay(moves: seq<Move>): Option<Stage> {
    if moves == [] then Some(Intake) else
    var last := moves[|moves| - 1];
    if Replay(moves[..|moves| - 1]) == Some(last.from) && last.to in Allowed(last.from) then Some(last.to) else None
  }

  /** The stages the proposal has been in, oldest first. */
  function Visited(moves: seq<Move>): seq<Stage> {
    if moves == [] then [Intake] else Visited(moves[..|moves| - 1]) + [moves[|moves| - 1].to]
  }

  /** The way to a win, in order. */
  predicate Milestone(k: nat, stage: Stage) {
    match k
    case 0 => stage == Qualification
    case 1 => stage == SmeAssignment
    case 2 => stage == Drafting
    case 3 => stage in PARALLEL_REVIEW_GROUP
    case 4 => stage == FinanceReview
    case 5 => stage == Approval
    case 6 => stage == Submission
    case 7 => stage == ClientFollowup
    case _ => stage == ClosedWon
  }

  const MILESTONES: nat := 9

  /** How many milestones a stage stands for. */
  function Progress(stage: Stage): (p: nat)
    ensures p <= MILESTONES
  {
    match stage
    case Intake => 0
    case Qualification => 1
    case SmeAssignment => 2
    case Drafting => 3
    case TechnicalReview => 4
    case SecurityReview => 4
    case DeliveryReview => 4
    case FinanceReview => 5
    case LegalReview => 5
    case Approval => 6
    case Submission => 7
    case ClientFollowup => 8
    case ClosedWon => 9
    case ClosedLost => 1
    case Unlisted(_) => 0
  }

  /** `at` picks the first `|at|` milestones out of `visited`, in order. */
  ghost predicate Itinerary(visited: seq<Stage>, at: seq<nat>) {
    && (forall k | 0 <= k < |at| :: at[k] < |visited| && Milestone(k, visited[at[k]]))
    && (forall j, k | 0 <= j < k < |at| :: at[j] < at[k])
  }

  function Entries(moves: seq<Move>, stage: Stage): nat {
    if moves == [] then 0 else
    Entries(moves[..|moves| - 1], stage) + if moves[|moves| - 1].to == stage then 1 else 0
  }

  /** When the stage was last entered. */
  function LastEntry(moves: seq<Move>, stage: Stage): Option<Time> {
    if moves == [] then None
    else if moves[|moves| - 1].to == stage then Some(moves[|moves| - 1].at)
    else LastEntry(moves[..|moves| - 1], stage)
  }

  /** `submission` can be entered again only before it was entered. */
  predicate SubmittedOnce(stage: Stage, entries: nat) {
    if stage in {Submission, ClientFollowup, ClosedWon} then entries == 1
    else if stage == ClosedLost then entries <= 1
    else entries == 0
  }

  ghost predicate HistorySound(v: View) {
    && Replay(v.moves) == Some(v.stage) == v.opportunityStage
    && (exists at :: Itinerary(Visited(v.moves), at) && |at| == Progress(v.stage))
    && SubmittedOnce(v.stage, Entries(v.moves, Submission))
    && v.submittedAt == LastEntry(v.moves, Submission)
  }

  lemma ItineraryStep(visited: seq<Stage>, at: seq<nat>, from: Stage, to: Stage) returns (at': seq<nat>)
    requires Itinerary(visited, at) && |at| == Progress(from) && to in Allowed(from)
    ensures Itinerary(visited + [to], at') && |at'| == Progress(to)
  {
    assert Progress(to) <= Progress(from) + 1;
    if Progress(to) <= Progress(from) {
      at' := at[..Progress(to)];
    } else {
      at' := at + [|visited|];
      assert Milestone(Progress(from), to);
    }
  }

  lemma MoveRecorded(moves: seq<Move>, m: Move)
    ensures Visited(moves + [m]) == Visited(moves) + [m.to]
    ensures forall s :: Entries(moves + [m], s) == Entries(moves, s) + if m.to == s then 1 else 0
    ensures forall s :: LastEntry(moves + [m], s) == if m.to == s then Some(m.at) else LastEntry(moves, s)
    ensures Replay(moves) == Some(m.from) && m.to in Allowed(m.from) ==> Replay(moves + [m]) == Some(m.to)
  {
    assert (moves + [m])[..|moves|] == moves;
  }

  lemma HistorySoundMove(v: View, to: Stage, now: Time, v': View)
    requires HistorySound(v) && to in Allowed(v.stage)
    requires v'.moves == v.moves + [Move(v.stage, to, now)] && v'.stage == to && v'.opportunityStage == Some(to)
    requires v'.submittedAt == if to == Submission then Some(now) else v.submittedAt
    ensures HistorySound(v')
  {
    var visited := Visited(v.moves);
    var at :| Itinerary(visited, at) && |at| == Progress(v.stage);
    var at' := ItineraryStep(visited, at, v.stage, to);
    MoveRecorded(v.moves, Move(v.stage, to, now));
    assert Itinerary(Visited(v'.moves), at');
    assert SubmittedOnce(to, Entries(v'.moves, Submission));
  }

  lemma {:induction false} HistorySoundStep(p: Id, v: View, r: Request)
    requires HistorySound(v)
    ensures HistorySound(ViewStep(p, v, r))
  {
    var v' := ViewStep(p, v, r);
    if v'.moves != v.moves {
      HistorySoundMove(v, r.to, r.now, v');
    }
  }
}
