/** The analytics reports what really happened: for any run of the proposal
    lifecycle, the samples reconstructed from the audit log are the stays that an
    observer of the proposals' stages would have timed. */
module ThroughputRefinement {
  import opened Options
  import opened Stages
  import opened Sorting
  import opened Groups
  import opened Throughput
  import opened Lifecycle
  import opened LifecycleRuns

  // ----- what an observer sees -----

  datatype Stay = Stay(stage: Stage, enter: Time, exit: Time)

  function StageNow(db: Db, p: Id): Option<Stage> {
    if p in db.proposals then Some(db.proposals[p].stage) else None
  }

  /** The stay that ends when the stage changes from `stage` to `stage'`, if its
      start was seen. */
  function Seen(stage: Option<Stage>, stage': Option<Stage>, since: Option<Time>, now: Time): seq<Stay> {
    if stage.Some? && stage' != stage && since.Some? then [Stay(stage.value, since.value, now)] else []
  }

  function Since(stage: Option<Stage>, stage': Option<Stage>, since: Option<Time>, now: Time): Option<Time> {
    if stage.Some? && stage' != stage then Some(now) else since
  }

  /** Watches proposal `p` through a run and times every stay it sees both ends of.
      `since` is the time of the last stage change seen so far. */
  function Observed(db: Db, rs: seq<Request>, p: Id, since: Option<Time>): seq<Stay>
    decreases |rs|
  {
    if rs == [] then [] else
    var db' := Step(db, rs[0]).0;
    Seen(StageNow(db, p), StageNow(db', p), since, rs[0].now) +
    Observed(db', rs[1..], p, Since(StageNow(db, p), StageNow(db', p), since, rs[0].now))
  }

  /** The sample a stay should give. */
  function Timed(p: Id, stay: Stay): (Stage, Sample) {
    (stay.stage, Sample(Hours(stay.exit - stay.enter), p))
  }

  function AllTimed(p: Id, stays: seq<Stay>): seq<(Stage, Sample)> {
    if stays == [] then [] else AllTimed(p, stays[..|stays| - 1]) + [Timed(p, stays[|stays| - 1])]
  }

  // ----- what the audit log says -----

  /** The stage-transition rows of the log, as the analytics query returns them. */
  function AuditRows(audit: seq<AuditRow>): seq<Row> {
    if audit == [] then [] else
    var last := audit[|audit| - 1];
    AuditRows(audit[..|audit| - 1]) +
    if last.Moved? then [Row(Some(last.proposal), Some(last.from), Some(last.to), last.at)] else []
  }

  function MoveRow(p: Id, m: Move): Row { Row(Some(p), Some(m.from), Some(m.to), m.at) }

  function MoveRows(p: Id, moves: seq<Move>): seq<Row> {
    if moves == [] then [] else MoveRows(p, moves[..|moves| - 1]) + [MoveRow(p, moves[|moves| - 1])]
  }

  /** The stays between consecutive moves. */
  function StaysBetween(moves: seq<Move>): seq<Stay> {
    if |moves| < 2 then [] else
    StaysBetween(moves[..|moves| - 1]) + [Stay(moves[|moves| - 2].to, moves[|moves| - 2].at, moves[|moves| - 1].at)]
  }

  predicate StrictTimes(moves: seq<Move>) {
    forall i, j | 0 <= i < j < |moves| :: moves[i].at < moves[j].at
  }

  predicate InOrder(moves: seq<Move>) {
    forall i, j | 0 <= i < j < |moves| :: moves[i].at <= moves[j].at
  }

  function LastTime(moves: seq<Move>): Option<Time> {
    if moves == [] then None else Some(moves[|moves| - 1].at)
  }

  // ----- the log against the observer -----

  lemma ObserveView(p: Id, v: View, r: Request)
    ensures var v' := ViewStep(p, v, r);
            v'.moves == if v'.stage != v.stage then v.moves + [Move(v.stage, v'.stage, r.now)] else v.moves
  {
  }

  /** One request: the observer and the log notice the same stage change. */
  lemma ObserveStep(db: Db, r: Request, p: Id)
    requires Linked(db)
    ensures var db' := Step(db, r).0;
            var stage, stage' := StageNow(db, p), StageNow(db', p);
            && (stage.Some? ==> stage'.Some?)
            && (stage.None? ==> MovesOf(db.audit, p) == [])
            && MovesOf(db'.audit, p) ==
               if stage.Some? && stage' != stage then MovesOf(db.audit, p) + [Move(stage.value, stage'.value, r.now)]
               else MovesOf(db.audit, p)
  {
    if p in db.proposals {
      StepView(db, r, p);
      ObserveView(p, ViewOf(db, p), r);
    } else {
      NoMoves(db.audit, p);
      if p in Step(db, r).0.proposals {
        OpenView(db, r, p);
      } else {
        LinkedStep(db, r);
        NoMoves(Step(db, r).0.audit, p);
      }
    }
  }

  lemma LastStage(db: Db, p: Id)
    requires Sound(db) && p in db.proposals
    ensures var moves := MovesOf(db.audit, p); moves != [] ==> moves[|moves| - 1].to == db.proposals[p].stage
  {
  }

  lemma StaysStep(moves: seq<Move>, stage: Option<Stage>, stage': Option<Stage>, now: Time)
    requires moves != [] ==> stage == Some(moves[|moves| - 1].to)
    requires stage.Some? ==> stage'.Some?
    ensures var moves' := if stage.Some? && stage' != stage then moves + [Move(stage.value, stage'.value, now)]
                        else moves;
            && StaysBetween(moves') == StaysBetween(moves) + Seen(stage, stage', LastTime(moves), now)
            && LastTime(moves') == Since(stage, stage', LastTime(moves), now)
  {
  }

  lemma {:induction false} ObserveSound(db: Db, r: Request, p: Id)
    requires Sound(db)
    ensures var db' := Step(db, r).0;
            var moves, moves' := MovesOf(db.audit, p), MovesOf(db'.audit, p);
            var seen := Seen(StageNow(db, p), StageNow(db', p), LastTime(moves), r.now);
            && StaysBetween(moves') == StaysBetween(moves) + seen
            && LastTime(moves') == Since(StageNow(db, p), StageNow(db', p), LastTime(moves), r.now)
  {
    ObserveStep(db, r, p);
    if p in db.proposals { LastStage(db, p); }
    StaysStep(MovesOf(db.audit, p), StageNow(db, p), StageNow(Step(db, r).0, p), r.now);
  }

  lemma ObservedCons(db: Db, rs: seq<Request>, p: Id, since: Option<Time>)
    requires rs != []
    ensures var db' := Step(db, rs[0]).0;
            Observed(db, rs, p, since) ==
            Seen(StageNow(db, p), StageNow(db', p), since, rs[0].now) +
            Observed(db', rs[1..], p, Since(StageNow(db, p), StageNow(db', p), since, rs[0].now))
  {
  }

  lemma Joined(past: seq<Stay>, seen: seq<Stay>, future: seq<Stay>)
    ensures past + (seen + future) == (past + seen) + future
  {
  }

  lemma {:induction false} ObservedStays(db: Db, rs: seq<Request>, p: Id)
    requires Sound(db)
    ensures StaysBetween(MovesOf(Run(db, rs).audit, p)) ==
            StaysBetween(MovesOf(db.audit, p)) + Observed(db, rs, p, LastTime(MovesOf(db.audit, p)))
    decreases |rs|
  {
    if rs != [] {
      var db', since := Step(db, rs[0]).0, LastTime(MovesOf(db.audit, p));
      var seen := Seen(StageNow(db, p), StageNow(db', p), since, rs[0].now);
      var since' := Since(StageNow(db, p), StageNow(db', p), since, rs[0].now);
      var past, future := StaysBetween(MovesOf(db.audit, p)), Observed(db', rs[1..], p, since');
      assert StaysBetween(MovesOf(db'.audit, p)) == past + seen && LastTime(MovesOf(db'.audit, p)) == since' by {
        ObserveSound(db, rs[0], p);
      }
      assert StaysBetween(MovesOf(Run(db', rs[1..]).audit, p)) == (past + seen) + future by {
        SoundStep(db, rs[0]);
        ObservedStays(db', rs[1..], p);
      }
      assert Observed(db, rs, p, since) == seen + future by { ObservedCons(db, rs, p, since); }
      Joined(past, seen, future);
    }
  }

  lemma ObservedFromEmpty(rs: seq<Request>, p: Id)
    ensures StaysBetween(MovesOf(Run(EMPTY, rs).audit, p)) == Observed(EMPTY, rs, p, None)
  {
    ObservedStays(EMPTY, rs, p);
  }

  // ----- the analytics against the log -----

  lemma KeyedAppend(rows: seq<Row>, row: Row)
    ensures Keyed(rows + [row]) == Keyed(rows) + if row.entity.Some? then [(row.entity.value, row)] else []
  {
  }

  lemma MoveRowsAppend(p: Id, moves: seq<Move>, m: Move)
    ensures MoveRows(p, moves + [m]) == MoveRows(p, moves) + [MoveRow(p, m)]
  {
  }

  lemma {:induction false} ValuesOfAudit(audit: seq<AuditRow>, p: Id)
    ensures Values(Keyed(AuditRows(audit)), p) == MoveRows(p, MovesOf(audit, p))
  {
    if audit != [] {
      var before, last := audit[..|audit| - 1], audit[|audit| - 1];
      ValuesOfAudit(before, p);
      if last.Moved? {
        var row := Row(Some(last.proposal), Some(last.from), Some(last.to), last.at);
        KeyedAppend(AuditRows(before), row);
        ValuesAppend(Keyed(AuditRows(before)), [(last.proposal, row)], p);
        assert Values([(last.proposal, row)], p) == if last.proposal == p then [row] else [] by {
          assert [(last.proposal, row)][..0] == [];
        }
        assert AuditRows(audit) == AuditRows(before) + [row];
        if last.proposal == p {
          MoveRowsAppend(p, MovesOf(before, p), Move(last.from, last.to, last.at));
        } else {
          assert MovesOf(audit, p) == MovesOf(before, p);
        }
      } else {
        assert AuditRows(audit) == AuditRows(before) && MovesOf(audit, p) == MovesOf(before, p);
      }
    }
  }

  lemma {:induction false} KeyedCount(rows: seq<Row>, p: Id, r: Row)
    ensures multiset(Keyed(rows))[(p, r)] == if r.entity == Some(p) then multiset(rows)[r] else 0
  {
    if rows != [] {
      assert rows == rows[..|rows| - 1] + [rows[|rows| - 1]];
      KeyedCount(rows[..|rows| - 1], p, r);
    }
  }

  /** The order in which the rows arrive does not matter to what a proposal's list holds. */
  lemma {:induction false} PermutedValues(rows: seq<Row>, other: seq<Row>, p: Id)
    requires multiset(rows) == multiset(other)
    ensures multiset(Values(Keyed(rows), p)) == multiset(Values(Keyed(other), p))
  {
    forall r ensures multiset(Values(Keyed(rows), p))[r] == multiset(Values(Keyed(other), p))[r] {
      ValuesCount(Keyed(rows), p, r);
      ValuesCount(Keyed(other), p, r);
      KeyedCount(rows, p, r);
      KeyedCount(other, p, r);
    }
  }

  lemma {:induction false} MoveRowsAt(p: Id, moves: seq<Move>)
    ensures |MoveRows(p, moves)| == |moves|
    ensures forall i | 0 <= i < |moves| :: MoveRows(p, moves)[i] == MoveRow(p, moves[i])
  {
    if moves != [] { MoveRowsAt(p, moves[..|moves| - 1]); }
  }

  lemma StrictRowsOrdered(p: Id, moves: seq<Move>)
    requires StrictTimes(moves)
    ensures Ordered(MoveRows(p, moves), Earlier) && Antisymmetric(MoveRows(p, moves), Earlier)
  {
    MoveRowsAt(p, moves);
  }

  /** Sorting recovers the order of the moves. */
  lemma SortRecovers(rows: seq<Row>, p: Id, moves: seq<Move>)
    requires StrictTimes(moves) && multiset(rows) == multiset(MoveRows(p, moves))
    ensures Chronological(rows) == MoveRows(p, moves)
  {
    StrictRowsOrdered(p, moves);
    SortPermutes(rows, Earlier);
    SortOrders(rows, Earlier);
    OrderedUnique(MoveRows(p, moves), Chronological(rows), Earlier);
  }

  lemma LastStepIsStay(p: Id, x: Move, y: Move)
    requires x.at <= y.at
    ensures StepPair(p, MoveRow(p, x), MoveRow(p, y)) == [Timed(p, Stay(x.to, x.at, y.at))]
  {
  }

  lemma AllTimedAppend(p: Id, stays: seq<Stay>, stay: Stay)
    ensures AllTimed(p, stays + [stay]) == AllTimed(p, stays) + [Timed(p, stay)]
  {
    assert (stays + [stay])[..|stays|] == stays;
  }

  lemma {:induction false} StepsAreStays(p: Id, moves: seq<Move>)
    requires InOrder(moves)
    ensures Steps(p, MoveRows(p, moves)) == AllTimed(p, StaysBetween(moves))
  {
    MoveRowsAt(p, moves);
    if |moves| > 1 {
      var n, rows := |moves|, MoveRows(p, moves);
      var before, x, y := moves[..n - 1], moves[n - 2], moves[n - 1];
      StepsAreStays(p, before);
      assert rows[..n - 1] == MoveRows(p, before);
      LastStepIsStay(p, x, y);
      AllTimedAppend(p, StaysBetween(before), Stay(x.to, x.at, y.at));
    }
  }

  lemma {:induction false} StepsName(p: Id, sorted: seq<Row>)
    ensures forall pair | pair in Steps(p, sorted) :: pair.1.proposal == p
  {
    if |sorted| > 1 { StepsName(p, sorted[..|sorted| - 1]); }
  }

  /** The stream of all steps holds, for each proposal, exactly that proposal's steps. */
  lemma {:induction false} AllStepsCount(g: Groups<Id, Row>, keys: seq<Id>, pair: (Stage, Sample))
    requires forall i, j | 0 <= i < j < |keys| :: keys[i] != keys[j]
    ensures var p := pair.1.proposal;
            multiset(AllSteps(g, keys))[pair] ==
                if p in keys then multiset(Steps(p, Chronological(g.Get(p))))[pair] else 0
  {
    if keys != [] {
      var q := keys[|keys| - 1];
      AllStepsCount(g, keys[..|keys| - 1], pair);
      StepsName(q, Chronological(g.Get(q)));
      var p := pair.1.proposal;
      assert p in keys <==> p == q || p in keys[..|keys| - 1];
      if p != q {
        assert pair !in Steps(q, Chronological(g.Get(q)));
        assert pair !in multiset(Steps(q, Chronological(g.Get(q))));
      }
    }
  }

  lemma {:induction false} StepsOfProposal(rows: seq<Row>, audit: seq<AuditRow>, p: Id)
    requires multiset(rows) == multiset(AuditRows(audit)) && StrictTimes(MovesOf(audit, p))
    ensures Steps(p, Chronological(ByProposal(rows).Get(p))) == AllTimed(p, StaysBetween(MovesOf(audit, p)))
  {
    CollectPartitions(Keyed(rows));
    PermutedValues(rows, AuditRows(audit), p);
    ValuesOfAudit(audit, p);
    SortRecovers(ByProposal(rows).Get(p), p, MovesOf(audit, p));
    StepsAreStays(p, MovesOf(audit, p));
  }

  lemma SamplesOfProposal(rows: seq<Row>, stage: Stage, sample: Sample)
    ensures multiset(Durations(rows).Get(stage))[sample] ==
            multiset(Steps(sample.proposal, Chronological(ByProposal(rows).Get(sample.proposal))))[(stage, sample)]
  {
    var p, g := sample.proposal, ByProposal(rows);
    CollectPartitions(Keyed(rows));
    CollectPartitions(Pairs(rows));
    ValuesCount(Pairs(rows), stage, sample);
    AllStepsCount(g, g.keys, (stage, sample));
    if p !in g.keys {
      assert g.Get(p) == [];
    }
  }

  /** Analytics refines reality.  After any run, over the audit rows in any order,
      and for any proposal whose transitions have strictly increasing times: each
      stage's samples name that proposal with a given duration exactly as often as
      the proposal really stayed that long in that stage. */
  lemma AnalyticsRefinesReality(rs: seq<Request>, rows: seq<Row>, stage: Stage, sample: Sample)
    requires multiset(rows) == multiset(AuditRows(Run(EMPTY, rs).audit))
    requires StrictTimes(MovesOf(Run(EMPTY, rs).audit, sample.proposal))
    ensures multiset(Durations(rows).Get(stage))[sample] ==
            multiset(AllTimed(sample.proposal, Observed(EMPTY, rs, sample.proposal, None)))[(stage, sample)]
  {
    ObservedFromEmpty(rs, sample.proposal);
    StepsOfProposal(rows, Run(EMPTY, rs).audit, sample.proposal);
    SamplesOfProposal(rows, stage, sample);
  }
}
