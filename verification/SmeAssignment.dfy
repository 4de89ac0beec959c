/** `assign_sme` (routers/proposals.py): who gets the work, and how much fits. */
module SmeAssignment {
  import opened Sorting

  type Skill = nat

  datatype Role = Sme | SolutionArchitect | SecurityReviewer | OtherRole

  datatype Stakeholder = Stakeholder(role: Role, expertise: set<Skill>, workload: int)

  const CAPACITY: int := 4

  predicate Assignable(s: Stakeholder) {
    s.role in {Sme, SolutionArchitect, SecurityReviewer}
  }

  predicate Available(s: Stakeholder) {
    Assignable(s) && s.workload < CAPACITY
  }

  function Matches(required: seq<Skill>, expertise: set<Skill>): nat {
    if required == [] then 0 else (if required[0] in expertise then 1 else 0) + Matches(required[1..], expertise)
  }

  function Score(s: Stakeholder, required: seq<Skill>): int {
    Matches(required, s.expertise) * 10 - s.workload * 2
  }

  datatype Candidate = Candidate(index: nat, score: int)

  predicate HigherScore(a: Candidate, b: Candidate) { a.score >= b.score }

  /** The available stakeholders in the order of the table. */
  function Candidates(staff: seq<Stakeholder>, required: seq<Skill>): seq<Candidate> {
    if staff == [] then [] else
    var last := |staff| - 1;
    Candidates(staff[..last], required) +
    if Available(staff[last]) then [Candidate(last, Score(staff[last], required))] else []
  }

  function Ranked(staff: seq<Stakeholder>, required: seq<Skill>): seq<Candidate> {
    SortBy(Candidates(staff, required), HigherScore)
  }

  datatype Request = Request(proposalExists: bool, rules: seq<Skill>, skills: seq<Skill>)

  datatype Outcome = Assigned(index: nat) | NotFound | NoRules | AtCapacity

  function Required(r: Request): seq<Skill> { if r.skills != [] then r.skills else r.rules }

  predicate Acceptable(r: Request) {
    r.proposalExists && (r.rules != [] || r.skills != [])
  }

  lemma {:induction false} CandidatesAre(staff: seq<Stakeholder>, required: seq<Skill>)
    ensures forall c :: c in Candidates(staff, required) <==>
              c.index < |staff| && Available(staff[c.index]) && c.score == Score(staff[c.index], required)
  {
    if staff != [] {
      CandidatesAre(staff[..|staff| - 1], required);
    }
  }

  lemma {:induction false} CandidatesInOrder(staff: seq<Stakeholder>, required: seq<Skill>)
    ensures forall i, j | 0 <= i < j < |Candidates(staff, required)| ::
              Candidates(staff, required)[i].index < Candidates(staff, required)[j].index
  {
    if staff != [] {
      var before := staff[..|staff| - 1];
      CandidatesInOrder(before, required);
      CandidatesAre(before, required);
      assert forall i | 0 <= i < |Candidates(before, required)| ::
          Candidates(before, required)[i] in Candidates(before, required);
    }
  }

  /** `i` is the first of the available stakeholders with the highest score. */
  ghost predicate FirstBest(staff: seq<Stakeholder>, required: seq<Skill>, i: nat) {
    && i < |staff| && Available(staff[i])
    && (forall j | 0 <= j < |staff| && Available(staff[j]) :: Score(staff[j], required) <= Score(staff[i], required))
    && (forall j | 0 <= j < i && Available(staff[j]) :: Score(staff[j], required) < Score(staff[i], required))
  }

  lemma HigherScorePreorder()
    ensures TotalPreorder(HigherScore)
  {
  }

  /** The head of the ranking is the first best, and there is one iff somebody is available. */
  lemma TopIsFirstBest(staff: seq<Stakeholder>, required: seq<Skill>)
    ensures Ranked(staff, required) != [] <==> exists i :: 0 <= i < |staff| && Available(staff[i])
    ensures Ranked(staff, required) != [] ==> FirstBest(staff, required, Ranked(staff, required)[0].index)
  {
    var all := Candidates(staff, required);
    CandidatesAre(staff, required);
    SortPermutes(all, HigherScore);
    if all != [] {
      assert all[0] in all && Available(staff[all[0].index]);
      HigherScorePreorder();
      var k := SortHeadIsFirstLeast(all, HigherScore);
      FirstOfAll(staff, required, k);
    }
    if i :| 0 <= i < |staff| && Available(staff[i]) {
      assert Candidate(i, Score(staff[i], required)) in all;
    }
  }

  lemma FirstOfAll(staff: seq<Stakeholder>, required: seq<Skill>, k: nat)
    requires k < |Candidates(staff, required)|
    requires forall j | 0 <= j < |Candidates(staff, required)| ::
        HigherScore(Candidates(staff, required)[k], Candidates(staff, required)[j])
    requires forall j | 0 <= j < k :: !HigherScore(Candidates(staff, required)[j], Candidates(staff, required)[k])
    ensures FirstBest(staff, required, Candidates(staff, required)[k].index)
  {
    var all := Candidates(staff, required);
    CandidatesAre(staff, required);
    CandidatesInOrder(staff, required);
    var i := all[k].index;
    assert all[k] in all;
    forall j | 0 <= j < |staff| && Available(staff[j])
      ensures Score(staff[j], required) <= Score(staff[i], required)
      ensures j < i ==> Score(staff[j], required) < Score(staff[i], required)
    {
      var c := Candidate(j, Score(staff[j], required));
      assert c in all;
      var m :| 0 <= m < |all| && all[m] == c;
      assert HigherScore(all[k], all[m]);
    }
  }

  function Assign(staff: seq<Stakeholder>, r: Request): (seq<Stakeholder>, Outcome) {
    if !r.proposalExists then (staff, NotFound)
    else if r.rules == [] && r.skills == [] then (staff, NoRules)
    else var ranked := Ranked(staff, Required(r));
    if ranked == [] then (staff, AtCapacity) else
    TopIsFirstBest(staff, Required(r));
    var top := ranked[0].index;
    (staff[top := staff[top].(workload := staff[top].workload + 1)], Assigned(top))
  }

  lemma RankedEmpty(staff: seq<Stakeholder>, required: seq<Skill>)
    ensures Ranked(staff, required) == [] <==> Candidates(staff, required) == []
  {
  }

  class Roster {
    var staff: seq<Stakeholder>

    constructor (staff: seq<Stakeholder>)
      ensures this.staff == staff
    {
      this.staff := staff;
    }

    method AssignSme(r: Request) returns (outcome: Outcome)
      modifies this
      ensures (staff, outcome) == Assign(old(staff), r)
    {
      if !r.proposalExists {
        return NotFound;
      }
      if r.rules == [] && r.skills == [] {
        return NoRules;
      }
      var required := if r.skills != [] then r.skills else r.rules;
      var available := Candidates(staff, required);
      RankedEmpty(staff, required);
      TopIsFirstBest(staff, required);
      if available == [] {
        return AtCapacity;
      }
      var ranked := SortBy(available, HigherScore);
      var top := ranked[0].index;
      staff := staff[top := staff[top].(workload := staff[top].workload + 1)];
      outcome := Assigned(top);
    }
  }

  /** An assignment goes to the first best available stakeholder and adds one to that
      workload; a refusal has its reason and changes nothing. */
  lemma AssignMeaning(staff: seq<Stakeholder>, r: Request)
    ensures var (after, outcome) := Assign(staff, r);
            match outcome
            case Assigned(i) => FirstBest(staff, Required(r), i) && |after| == |staff|
                                && after[i] == staff[i].(workload := staff[i].workload + 1)
                                && after[i].workload <= CAPACITY
                                && forall j | 0 <= j < |staff| && j != i :: after[j] == staff[j]
            case AtCapacity => after == staff && Acceptable(r) && forall j | 0 <= j < |staff| :: !Available(staff[j])
            case NotFound => after == staff && !r.proposalExists
            case NoRules => after == staff && r.rules == [] == r.skills
  {
    TopIsFirstBest(staff, Required(r));
  }

  // ----- capacity over whole runs -----

  /** The assignments one stakeholder can still take. */
  function SpareOf(s: Stakeholder): nat {
    if Available(s) then CAPACITY - s.workload else 0
  }

  function Spare(staff: seq<Stakeholder>): nat {
    if staff == [] then 0 else SpareOf(staff[0]) + Spare(staff[1..])
  }

  function Run(staff: seq<Stakeholder>, rs: seq<Request>): seq<Stakeholder>
    decreases |rs|
  {
    if rs == [] then staff else Run(Assign(staff, rs[0]).0, rs[1..])
  }

  function Successes(staff: seq<Stakeholder>, rs: seq<Request>): nat
    decreases |rs|
  {
    if rs == [] then 0 else
    (if Assign(staff, rs[0]).1.Assigned? then 1 else 0) + Successes(Assign(staff, rs[0]).0, rs[1..])
  }

  function AcceptableCount(rs: seq<Request>): nat {
    if rs == [] then 0 else (if Acceptable(rs[0]) then 1 else 0) + AcceptableCount(rs[1..])
  }

  lemma {:induction false} SpareUpdate(staff: seq<Stakeholder>, i: nat, s: Stakeholder)
    requires i < |staff|
    ensures Spare(staff[i := s]) == Spare(staff) - SpareOf(staff[i]) + SpareOf(s)
  {
    if i == 0 {
      assert staff[i := s][1..] == staff[1..];
    } else {
      assert staff[i := s][1..] == staff[1..][i - 1 := s];
      SpareUpdate(staff[1..], i - 1, s);
    }
  }

  lemma {:induction false} SpareSomewhere(staff: seq<Stakeholder>)
    ensures Spare(staff) > 0 <==> exists i :: 0 <= i < |staff| && Available(staff[i])
  {
    if staff != [] {
      SpareSomewhere(staff[1..]);
      if i :| 0 <= i < |staff| - 1 && Available(staff[1..][i]) { assert Available(staff[i + 1]); }
      if i :| 0 < i < |staff| && Available(staff[i]) { assert Available(staff[1..][i - 1]); }
    }
  }

  lemma AssignSpends(staff: seq<Stakeholder>, r: Request)
    ensures Assign(staff, r).1.Assigned? <==> Acceptable(r) && Spare(staff) > 0
    ensures Spare(Assign(staff, r).0) == Spare(staff) - if Assign(staff, r).1.Assigned? then 1 else 0
  {
    SpareSomewhere(staff);
    TopIsFirstBest(staff, Required(r));
    if Assign(staff, r).1.Assigned? {
      var i := Assign(staff, r).1.index;
      SpareUpdate(staff, i, staff[i].(workload := staff[i].workload + 1));
    }
  }

  /** Capacity: over any run exactly as many assignments succeed as there are
      acceptable requests, up to the free places there were at the start. */
  lemma {:induction false} CapacityExactly(staff: seq<Stakeholder>, rs: seq<Request>)
    ensures Successes(staff, rs) == if AcceptableCount(rs) <= Spare(staff) then AcceptableCount(rs) else Spare(staff)
    decreases |rs|
  {
    if rs != [] {
      AssignSpends(staff, rs[0]);
      CapacityExactly(Assign(staff, rs[0]).0, rs[1..]);
    }
  }

  /** No run pushes a workload above the limit, and none ever lowers one. */
  lemma {:induction false} NeverOverloaded(staff: seq<Stakeholder>, rs: seq<Request>, i: nat)
    requires i < |staff|
    ensures |Run(staff, rs)| == |staff|
    ensures staff[i].workload <= Run(staff, rs)[i].workload
    ensures Run(staff, rs)[i].workload <= CAPACITY || Run(staff, rs)[i] == staff[i]
    decreases |rs|
  {
    if rs != [] {
      TopIsFirstBest(staff, Required(rs[0]));
      NeverOverloaded(Assign(staff, rs[0]).0, rs[1..], i);
    }
  }

  // ----- the scores and the answers -----

  /** The required skills, counted as often as they are required, that are there. */
  function Covered(required: seq<Skill>, expertise: set<Skill>): set<nat> {
    set k: nat | k < |required| && required[k] in expertise
  }

  lemma {:induction false} MatchesCovered(required: seq<Skill>, expertise: set<Skill>)
    ensures Matches(required, expertise) == |Covered(required, expertise)|
  {
    if required == [] {
      assert Covered(required, expertise) == {};
    } else {
      var n := |required| - 1;
      var before := Covered(required[..n], expertise);
      MatchesCovered(required[..n], expertise);
      MatchesSnoc(required[..n], required[n], expertise);
      assert required == required[..n] + [required[n]];
      assert Covered(required, expertise) == if required[n] in expertise then before + {n} else before;
    }
  }

  lemma {:induction false} MatchesSnoc(required: seq<Skill>, last: Skill, expertise: set<Skill>)
    ensures Matches(required + [last], expertise) == Matches(required, expertise) + if last in expertise then 1 else 0
  {
    if required == [] {
      assert required + [last] == [last];
    } else {
      assert (required + [last])[1..] == required[1..] + [last];
      MatchesSnoc(required[1..], last, expertise);
    }
  }

  /** One covered skill outweighs four pieces of work and ties with five. */
  lemma ScoresCompare(s: Stakeholder, t: Stakeholder, required: seq<Skill>)
    ensures Score(s, required) <= Score(t, required) <==>
            s.workload - t.workload >= 5 * (|Covered(required, s.expertise)| - |Covered(required, t.expertise)|)
  {
    MatchesCovered(required, s.expertise);
    MatchesCovered(required, t.expertise);
  }

  /** Somebody in one of the three roles has less than four pieces of work. */
  predicate SomeoneFree(staff: seq<Stakeholder>) {
    exists i | 0 <= i < |staff| :: staff[i].role != OtherRole && staff[i].workload < 4
  }

  /** The answer: no proposal, nothing to go by, nobody free, or an assignment; the
      skills asked for take the place of the routing rules. */
  lemma AssignAnswer(staff: seq<Stakeholder>, r: Request)
    ensures var answer := Assign(staff, r).1;
            && (answer == NotFound <==> !r.proposalExists)
            && (answer == NoRules <==> r.proposalExists && |r.rules| == |r.skills| == 0)
            && (answer == AtCapacity <==> r.proposalExists && |r.rules| + |r.skills| > 0 && !SomeoneFree(staff))
            && (answer.Assigned? <==> r.proposalExists && |r.rules| + |r.skills| > 0 && SomeoneFree(staff))
            && (answer.Assigned? ==>
                  && answer.index < |staff| && staff[answer.index].role != OtherRole && staff[answer.index].workload < 4
                  && FirstBest(staff, if r.skills == [] then r.rules else r.skills, answer.index))
  {
    TopIsFirstBest(staff, Required(r));
    assert forall s :: Available(s) <==> s.role != OtherRole && s.workload < 4;
  }
}
