/** When the analytics is exact: strictly increasing times are not only enough for it
    to be right in every order of arrival, they are also needed. */
module ThroughputTies {
  import opened Cardinality
  import opened Options
  import opened Stages
  import opened Sorting
  import opened Groups
  import opened Throughput
  import opened Lifecycle
  import opened StageHistory
  import opened LifecycleRuns
  import opened ThroughputRefinement

  /** The stage-transition rows of a proposal after a run. */
  function Logged(rs: seq<Request>, p: Id): seq<Move> {
    MovesOf(Run(EMPTY, rs).audit, p)
  }

  /** The rows of a run, in some order. */
  ghost predicate Arrival(rs: seq<Request>, rows: seq<Row>) {
    multiset(rows) == multiset(AuditRows(Run(EMPTY, rs).audit))
  }

  /** How often the analytics lists a sample for a stage. */
  function Listed(rows: seq<Row>, stage: Stage, sample: Sample): nat {
    multiset(Durations(rows).Get(stage))[sample]
  }

  /** How often an observer of the run times it. */
  function Real(rs: seq<Request>, stage: Stage, sample: Sample): nat {
    multiset(AllTimed(sample.proposal, Observed(EMPTY, rs, sample.proposal, None)))[(stage, sample)]
  }

  /** What the analytics says about proposal `p` is what happened. */
  ghost predicate Truthful(rs: seq<Request>, rows: seq<Row>, p: Id) {
    forall stage, hours :: Listed(rows, stage, Sample(hours, p)) == Real(rs, stage, Sample(hours, p))
  }

  lemma StrictTruthful(rs: seq<Request>, rows: seq<Row>, p: Id)
    requires Arrival(rs, rows) && StrictTimes(Logged(rs, p))
    ensures Truthful(rs, rows, p)
  {
    forall stage, hours ensures Listed(rows, stage, Sample(hours, p)) == Real(rs, stage, Sample(hours, p)) {
      AnalyticsRefinesReality(rs, rows, stage, Sample(hours, p));
    }
  }

  /** The two sides in terms of one proposal's rows. */
  lemma CountsAre(rs: seq<Request>, rows: seq<Row>, stage: Stage, sample: Sample)
    ensures var p := sample.proposal;
            && Listed(rows, stage, sample) == multiset(Steps(p, Chronological(Values(Keyed(rows), p))))[(stage, sample)]
            && Real(rs, stage, sample) == multiset(AllTimed(p, StaysBetween(Logged(rs, p))))[(stage, sample)]
  {
    SamplesOfProposal(rows, stage, sample);
    CollectPartitions(Keyed(rows));
    ObservedFromEmpty(rs, sample.proposal);
  }

  // ----- rows in the order of the log -----

  lemma OrderedRows(p: Id, moves: seq<Move>)
    requires InOrder(moves)
    ensures Ordered(MoveRows(p, moves), Earlier)
  {
    MoveRowsAt(p, moves);
  }

  lemma InOrderTruthful(rs: seq<Request>, p: Id)
    requires InOrder(Logged(rs, p))
    ensures Truthful(rs, AuditRows(Run(EMPTY, rs).audit), p)
  {
    var moves, rows := Logged(rs, p), AuditRows(Run(EMPTY, rs).audit);
    ValuesOfAudit(Run(EMPTY, rs).audit, p);
    OrderedRows(p, moves);
    SortKeepsOrdered(MoveRows(p, moves), Earlier);
    StepsAreStays(p, moves);
    forall stage, hours ensures Listed(rows, stage, Sample(hours, p)) == Real(rs, stage, Sample(hours, p)) {
      CountsAre(rs, rows, stage, Sample(hours, p));
    }
  }

  lemma {:induction false} StepsNotNegative(p: Id, sorted: seq<Row>)
    ensures forall pair | pair in Steps(p, sorted) :: pair.1.hours >= 0.0
  {
    if |sorted| > 1 { StepsNotNegative(p, sorted[..|sorted| - 1]); }
  }

  lemma {:induction false} StayTimed(p: Id, moves: seq<Move>, k: nat)
    requires k + 1 < |moves|
    ensures Timed(p, Stay(moves[k].to, moves[k].at, moves[k + 1].at)) in AllTimed(p, StaysBetween(moves))
  {
    var before := moves[..|moves| - 1];
    var last := Stay(moves[|moves| - 2].to, moves[|moves| - 2].at, moves[|moves| - 1].at);
    assert (StaysBetween(before) + [last])[..|StaysBetween(before)|] == StaysBetween(before);
    if k + 2 < |moves| { StayTimed(p, before, k); }
  }

  lemma {:induction false} Decrease(moves: seq<Move>) returns (k: nat)
    requires !InOrder(moves)
    ensures k + 1 < |moves| && moves[k].at > moves[k + 1].at
  {
    var n := |moves|;
    if n >= 2 && moves[n - 2].at > moves[n - 1].at {
      k := n - 2;
    } else {
      if InOrder(moves[..n - 1]) {
        forall i, j | 0 <= i < j < n ensures moves[i].at <= moves[j].at {
          assert i == n - 2 || j == n - 1 || moves[..n - 1][i].at <= moves[..n - 1][j].at;
          assert i == n - 2 || moves[..n - 1][i].at <= moves[..n - 1][n - 2].at;
        }
      }
      k := Decrease(moves[..n - 1]);
    }
  }

  /** A clock that runs backwards gives a negative stay, which no sample shows. */
  lemma BackwardsUntruthful(rs: seq<Request>, rows: seq<Row>, p: Id)
    requires !InOrder(Logged(rs, p))
    ensures !Truthful(rs, rows, p)
  {
    var moves := Logged(rs, p);
    var k := Decrease(moves);
    var stay := Stay(moves[k].to, moves[k].at, moves[k + 1].at);
    var (stage, sample) := Timed(p, stay);
    StayTimed(p, moves, k);
    StepsNotNegative(p, Chronological(Values(Keyed(rows), p)));
    CountsAre(rs, rows, stage, sample);
    assert sample.hours < 0.0;
    assert (stage, sample) in multiset(AllTimed(p, StaysBetween(moves)));
    assert (stage, sample) !in multiset(Steps(p, Chronological(Values(Keyed(rows), p))));
    assert Listed(rows, stage, Sample(sample.hours, p)) != Real(rs, stage, Sample(sample.hours, p));
  }

  // ----- ties -----

  /** Move `e` is the last of those at the time of the earlier move `i`. */
  ghost predicate GroupEnd(moves: seq<Move>, i: nat, e: nat) {
    && i < e < |moves| && moves[i].at == moves[e].at
    && (e + 1 < |moves| ==> moves[e].at < moves[e + 1].at)
  }

  lemma Tie(moves: seq<Move>) returns (i: nat)
    requires InOrder(moves) && !StrictTimes(moves)
    ensures GroupEnd(moves, i, i + 1)
  {
    var a, b :| 0 <= a < b < |moves| && moves[a].at >= moves[b].at;
    i := a;
    while i + 2 < |moves| && moves[i + 1].at == moves[i + 2].at
      invariant i + 1 < |moves| && moves[i].at == moves[i + 1].at
    {
      i := i + 1;
    }
  }

  function CountIn(steps: seq<(Stage, Sample)>, pair: (Stage, Sample)): nat {
    multiset(steps)[pair]
  }

  lemma CountSnoc(steps: seq<(Stage, Sample)>, last: (Stage, Sample), pair: (Stage, Sample))
    ensures CountIn(steps + [last], pair) == CountIn(steps, pair) + if last == pair then 1 else 0
  {
  }

  /** The last of the rows at its time. */
  predicate IsEnd(rows: seq<Row>, k: nat) {
    k < |rows| && (k + 1 < |rows| ==> rows[k].at < rows[k + 1].at)
  }

  /** The times whose last row enters `stage`. */
  function Ends(rows: seq<Row>, stage: Stage): set<Time> {
    set k | 0 <= k < |rows| && IsEnd(rows, k) && rows[k].to == Some(stage) :: rows[k].at
  }

  /** How many rows enter `stage`. */
  function Occurs(rows: seq<Row>, stage: Stage): nat {
    if rows == [] then 0 else
    Occurs(rows[..|rows| - 1], stage) + if rows[|rows| - 1].to == Some(stage) then 1 else 0
  }

  ghost predicate Timeline(rows: seq<Row>) {
    Ordered(rows, Earlier) && forall r | r in rows :: r.to.Some?
  }

  lemma TimelineInit(rows: seq<Row>)
    requires Timeline(rows) && |rows| > 1
    ensures var before, x := rows[..|rows| - 1], rows[|rows| - 2];
            && Timeline(before) && before[|before| - 1] == x && x.to.Some? && x.at <= rows[|rows| - 1].at
            && (forall r | r in before :: r.at <= x.at)
  {
    var before, x := rows[..|rows| - 1], rows[|rows| - 2];
    assert forall k | 0 <= k < |before| :: before[k] == rows[k];
    assert Earlier(x, rows[|rows| - 1]) && x in rows;
  }

  /** The last row is the end of its time, and the only one. */
  lemma LastEnds(rows: seq<Row>, stage: Stage)
    requires Timeline(rows) && rows != []
    ensures rows[|rows| - 1].at in Ends(rows, stage) <==> rows[|rows| - 1].to == Some(stage)
  {
    var n := |rows| - 1;
    assert IsEnd(rows, n);
    forall k | 0 <= k < n && IsEnd(rows, k) ensures rows[k].at < rows[n].at {
      assert k + 1 == n || Earlier(rows[k + 1], rows[n]);
    }
  }

  /** The end of one time comes before every later row. */
  lemma EndEarlier(rows: seq<Row>, k: nat, j: nat)
    requires Ordered(rows, Earlier) && IsEnd(rows, k) && k < j < |rows|
    ensures rows[k].at < rows[j].at
  {
    assert k + 1 == j || Earlier(rows[k + 1], rows[j]);
  }

  /** The ends up to the last row but one, without its time if the last row shares it. */
  function EndsKept(rows: seq<Row>, stage: Stage): set<Time>
    requires |rows| > 1
  {
    var before, x, z := rows[..|rows| - 1], rows[|rows| - 2], rows[|rows| - 1];
    if x.at == z.at then Ends(before, stage) - {x.at} else Ends(before, stage)
  }

  lemma EndKept(rows: seq<Row>, stage: Stage, k: nat)
    requires Timeline(rows) && k < |rows| - 1 && IsEnd(rows, k) && rows[k].to == Some(stage)
    ensures rows[k].at in EndsKept(rows, stage)
  {
    var before := rows[..|rows| - 1];
    assert before[k] == rows[k] && IsEnd(before, k);
    if k < |rows| - 2 { EndEarlier(rows, k, |rows| - 2); }
  }

  lemma KeptEnds(rows: seq<Row>, stage: Stage, k: nat)
    requires Timeline(rows) && k < |rows| - 1 && IsEnd(rows[..|rows| - 1], k) && rows[k].to == Some(stage)
    requires rows[|rows| - 2].at == rows[|rows| - 1].at ==> rows[k].at != rows[|rows| - 2].at
    ensures rows[k].at in Ends(rows, stage)
  {
    var before := rows[..|rows| - 1];
    if k < |rows| - 2 {
      assert before[k + 1] == rows[k + 1] && before[k] == rows[k];
    } else {
      assert Earlier(rows[|rows| - 2], rows[|rows| - 1]);
    }
    assert IsEnd(rows, k);
  }

  lemma KeptIsEnd(rows: seq<Row>, stage: Stage, t: Time)
    requires Timeline(rows) && |rows| > 1 && t in EndsKept(rows, stage)
    ensures t in Ends(rows, stage)
  {
    var before := rows[..|rows| - 1];
    assert t in Ends(before, stage);
    var k :| 0 <= k < |before| && IsEnd(before, k) && before[k].to == Some(stage) && before[k].at == t;
    KeptEnds(rows, stage, k);
  }

  lemma EndIsKept(rows: seq<Row>, stage: Stage, t: Time)
    requires Timeline(rows) && |rows| > 1 && t in Ends(rows, stage)
    ensures t in EndsKept(rows, stage) || (rows[|rows| - 1].to == Some(stage) && t == rows[|rows| - 1].at)
  {
    var k :| 0 <= k < |rows| && IsEnd(rows, k) && rows[k].to == Some(stage) && rows[k].at == t;
    if k < |rows| - 1 { EndKept(rows, stage, k); }
  }

  lemma EndsBefore(rows: seq<Row>, stage: Stage)
    requires Timeline(rows) && |rows| > 1
    ensures var z := rows[|rows| - 1];
            Ends(rows, stage) == EndsKept(rows, stage) + (if z.to == Some(stage) then {z.at} else {})
  {
    var z := rows[|rows| - 1];
    var ends, kept, last := Ends(rows, stage), EndsKept(rows, stage), if z.to == Some(stage) then {z.at} else {};
    assert ends <= kept + last by {
      forall t | t in ends ensures t in kept + last { EndIsKept(rows, stage, t); }
    }
    assert kept <= ends by {
      forall t | t in kept ensures t in ends { KeptIsEnd(rows, stage, t); }
    }
    assert last <= ends by { LastEnds(rows, stage); }
  }

  lemma EndsGrow(rows: seq<Row>, stage: Stage)
    requires Timeline(rows) && |rows| > 1
    ensures var before, x, z := rows[..|rows| - 1], rows[|rows| - 2], rows[|rows| - 1];
            |Ends(rows, stage)| == |Ends(before, stage)|
                                   - (if x.at == z.at && x.to == Some(stage) then 1 else 0)
                                   + (if z.to == Some(stage) then 1 else 0)
  {
    var before, x, z := rows[..|rows| - 1], rows[|rows| - 2], rows[|rows| - 1];
    TimelineInit(rows);
    EndsBefore(rows, stage);
    LastEnds(before, stage);
    assert forall t | t in Ends(before, stage) :: t <= x.at;
    assert z.at !in EndsKept(rows, stage);
  }

  lemma ZeroStep(p: Id, x: Row, z: Row, stage: Stage)
    requires x.to.Some? && x.at <= z.at
    ensures |StepPair(p, x, z)| == 1
    ensures StepPair(p, x, z)[0] == (stage, Sample(0.0, p)) <==> x.to == Some(stage) && x.at == z.at
  {
  }

  lemma ZeroNone(p: Id, rows: seq<Row>, stage: Stage)
    requires Timeline(rows) && |rows| <= 1
    ensures CountIn(Steps(p, rows), (stage, Sample(0.0, p))) == Occurs(rows, stage) - |Ends(rows, stage)|
  {
    if |rows| == 1 {
      assert Occurs(rows[..0], stage) == 0;
      assert IsEnd(rows, 0);
      assert Ends(rows, stage) == if rows[0].to == Some(stage) then {rows[0].at} else {};
    } else {
      assert Ends(rows, stage) == {};
    }
  }

  /** Stays of no length: every row that enters the stage gives one, except the last
      row of its time. */
  lemma {:induction false} ZeroStays(p: Id, rows: seq<Row>, stage: Stage)
    requires Timeline(rows)
    ensures CountIn(Steps(p, rows), (stage, Sample(0.0, p))) == Occurs(rows, stage) - |Ends(rows, stage)|
  {
    if |rows| <= 1 {
      ZeroNone(p, rows, stage);
    } else {
      var before, x, z := rows[..|rows| - 1], rows[|rows| - 2], rows[|rows| - 1];
      TimelineInit(rows);
      ZeroStays(p, before, stage);
      ZeroStep(p, x, z, stage);
      assert Steps(p, rows) == Steps(p, before) + [StepPair(p, x, z)[0]];
      CountSnoc(Steps(p, before), StepPair(p, x, z)[0], (stage, Sample(0.0, p)));
      EndsGrow(rows, stage);
    }
  }

  // ----- orders of the same rows -----

  lemma {:induction false} OccursJoin(a: seq<Row>, b: seq<Row>, stage: Stage)
    ensures Occurs(a + b, stage) == Occurs(a, stage) + Occurs(b, stage)
  {
    if b == [] {
      assert a + b == a;
    } else {
      assert (a + b)[..|a + b| - 1] == a + b[..|b| - 1];
      OccursJoin(a, b[..|b| - 1], stage);
    }
  }

  lemma OccursTakenOut(a: seq<Row>, z: Row, b: seq<Row>, stage: Stage)
    ensures Occurs(a + [z] + b, stage) == Occurs(a + b, stage) + if z.to == Some(stage) then 1 else 0
  {
    OccursJoin(a + [z], b, stage);
    OccursJoin(a, b, stage);
    assert (a + [z])[..|a|] == a;
  }

  lemma Remainder(rows: seq<Row>, z: Row, a: seq<Row>, b: seq<Row>)
    requires multiset(rows + [z]) == multiset(a + [z] + b)
    ensures multiset(rows) == multiset(a + b)
  {
    assert multiset(rows) == multiset(rows + [z]) - multiset{z};
    assert multiset(a + b) == multiset(a + [z] + b) - multiset{z};
  }

  lemma {:induction false} OccursPermuted(rows: seq<Row>, other: seq<Row>, stage: Stage)
    requires multiset(rows) == multiset(other)
    ensures Occurs(rows, stage) == Occurs(other, stage)
  {
    SameLength(rows, other);
    if rows != [] {
      var before, z := rows[..|rows| - 1], rows[|rows| - 1];
      assert rows == before + [z];
      assert z in multiset(other);
      var k :| 0 <= k < |other| && other[k] == z;
      var a, b := other[..k], other[k + 1..];
      assert other == a + [z] + b;
      Remainder(before, z, a, b);
      OccursPermuted(before, a + b, stage);
      OccursTakenOut(a, z, b, stage);
    }
  }

  /** The times at which the rows enter `stage`. */
  function TimesOf(rows: seq<Row>, stage: Stage): set<Time> {
    set r | r in rows && r.to == Some(stage) :: r.at
  }

  lemma SameMembers(rows: seq<Row>, other: seq<Row>)
    requires multiset(rows) == multiset(other)
    ensures forall r :: r in rows <==> r in other
  {
    assert forall r :: r in rows <==> r in multiset(rows);
    assert forall r :: r in other <==> r in multiset(other);
  }

  lemma EndsWithin(rows: seq<Row>, stage: Stage)
    ensures Ends(rows, stage) <= TimesOf(rows, stage)
  {
  }

  lemma LastOfGroup(moves: seq<Move>, k: nat) returns (e: nat)
    requires InOrder(moves) && k < |moves|
    ensures e == k || GroupEnd(moves, k, e)
    ensures e < |moves| && (e + 1 < |moves| ==> moves[e].at < moves[e + 1].at)
  {
    e := k;
    while e + 1 < |moves| && moves[e].at == moves[e + 1].at
      invariant k <= e < |moves| && moves[k].at == moves[e].at
    {
      e := e + 1;
    }
  }

  /** The stage is entered and left again within one time, where another is last. */
  ghost predicate PassedThrough(moves: seq<Move>, stage: Stage) {
    exists i: nat, e: nat :: GroupEnd(moves, i, e) && moves[i].to == stage && moves[e].to != stage
  }

  lemma EndsAll(p: Id, moves: seq<Move>, stage: Stage)
    requires InOrder(moves) && !PassedThrough(moves, stage)
    ensures Ends(MoveRows(p, moves), stage) == TimesOf(MoveRows(p, moves), stage)
  {
    var rows := MoveRows(p, moves);
    MoveRowsAt(p, moves);
    EndsWithin(rows, stage);
    forall t | t in TimesOf(rows, stage) ensures t in Ends(rows, stage) {
      var r :| r in rows && r.to == Some(stage) && r.at == t;
      var k :| 0 <= k < |rows| && rows[k] == r;
      var e := LastOfGroup(moves, k);
      assert IsEnd(rows, e) && rows[e].to == Some(stage) && rows[e].at == t;
    }
  }

  // ----- an arrival with the tie exchanged -----

  function Others(rows: seq<Row>, p: Id): seq<Row> {
    if rows == [] then [] else
    Others(rows[..|rows| - 1], p) + if rows[|rows| - 1].entity == Some(p) then [] else [rows[|rows| - 1]]
  }

  lemma OthersAppend(rows: seq<Row>, row: Row, p: Id)
    ensures Others(rows + [row], p) == Others(rows, p) + if row.entity == Some(p) then [] else [row]
  {
  }

  lemma AuditSplitsStep(rows: seq<Row>, own: seq<Row>, row: Row, p: Id)
    requires multiset(rows) == multiset(own) + multiset(Others(rows, p))
    ensures multiset(rows + [row]) ==
            multiset(if row.entity == Some(p) then own + [row] else own) + multiset(Others(rows + [row], p))
  {
    OthersAppend(rows, row, p);
  }

  lemma {:induction false} AuditSplits(audit: seq<AuditRow>, p: Id)
    ensures multiset(AuditRows(audit)) ==
                multiset(MoveRows(p, MovesOf(audit, p))) + multiset(Others(AuditRows(audit), p))
  {
    if audit != [] {
      var before, last := audit[..|audit| - 1], audit[|audit| - 1];
      var own := MoveRows(p, MovesOf(before, p));
      AuditSplits(before, p);
      if last.Moved? {
        var row := Row(Some(last.proposal), Some(last.from), Some(last.to), last.at);
        assert AuditRows(audit) == AuditRows(before) + [row];
        assert MoveRows(p, MovesOf(audit, p)) == if row.entity == Some(p) then own + [row] else own by {
          if last.proposal == p {
            MoveRowsAppend(p, MovesOf(before, p), Move(last.from, last.to, last.at));
          } else {
            assert MovesOf(audit, p) == MovesOf(before, p);
          }
        }
        AuditSplitsStep(AuditRows(before), own, row, p);
      } else {
        assert AuditRows(audit) == AuditRows(before) && MovesOf(audit, p) == MovesOf(before, p);
      }
    }
  }

  lemma {:induction false} KeyedJoin(a: seq<Row>, b: seq<Row>)
    ensures Keyed(a + b) == Keyed(a) + Keyed(b)
  {
    if b == [] {
      assert a + b == a;
    } else {
      assert (a + b)[..|a + b| - 1] == a + b[..|b| - 1];
      KeyedJoin(a, b[..|b| - 1]);
    }
  }

  lemma ValuesSnoc(pairs: seq<(Id, Row)>, q: Id, row: Row, p: Id)
    ensures Values(pairs + [(q, row)], p) == Values(pairs, p) + if q == p then [row] else []
  {
    assert (pairs + [(q, row)])[..|pairs|] == pairs;
  }

  lemma {:induction false} OwnValues(rows: seq<Row>, p: Id)
    requires forall r | r in rows :: r.entity == Some(p)
    ensures Values(Keyed(rows), p) == rows
  {
    if rows != [] {
      var before, last := rows[..|rows| - 1], rows[|rows| - 1];
      OwnValues(before, p);
      assert rows == before + [last] && last in rows;
      ValuesSnoc(Keyed(before), p, last, p);
    }
  }

  lemma {:induction false} OthersValues(rows: seq<Row>, p: Id)
    ensures Values(Keyed(Others(rows, p)), p) == []
  {
    if rows != [] {
      var before, last := rows[..|rows| - 1], rows[|rows| - 1];
      OthersValues(before, p);
      if last.entity != Some(p) {
        KeyedAppend(Others(before, p), last);
        if last.entity.Some? {
          ValuesSnoc(Keyed(Others(before, p)), last.entity.value, last, p);
        } else {
          assert Keyed(Others(rows, p)) == Keyed(Others(before, p));
        }
      } else {
        assert Others(rows, p) == Others(before, p);
      }
    }
  }

  /** The proposal's own rows in the given order, then all others. */
  lemma OwnFirst(own: seq<Row>, rest: seq<Row>, p: Id)
    requires forall r | r in own :: r.entity == Some(p)
    ensures Values(Keyed(own + Others(rest, p)), p) == own
  {
    KeyedJoin(own, Others(rest, p));
    ValuesAppend(Keyed(own), Keyed(Others(rest, p)), p);
    OwnValues(own, p);
    OthersValues(rest, p);
  }

  /** Consecutive moves lead to different stages. */
  lemma {:induction false} MovesDiffer(moves: seq<Move>, i: nat)
    requires Replay(moves).Some? && i + 1 < |moves|
    ensures moves[i].to != moves[i + 1].to
  {
    var n := |moves|;
    if i + 2 < n {
      MovesDiffer(moves[..n - 1], i);
    } else {
      var before := moves[..n - 1];
      assert Replay(before) == Some(moves[n - 1].from) && before[|before| - 1] == moves[n - 2];
    }
  }

  lemma LoggedReplays(rs: seq<Request>, p: Id)
    ensures Replay(Logged(rs, p)).Some?
  {
    SoundFromEmpty(rs);
    if p in Run(EMPTY, rs).proposals {
      HistoryReplays(rs, p);
    } else {
      NoMoves(Run(EMPTY, rs).audit, p);
    }
  }

  /** Rows `i` and `e` exchanged. */
  function Swapped(rows: seq<Row>, i: nat, e: nat): seq<Row>
    requires i < e < |rows|
  {
    rows[i := rows[e]][e := rows[i]]
  }

  lemma SwappedTimeline(rows: seq<Row>, i: nat, e: nat)
    requires i < e < |rows| && rows[i].at == rows[e].at && Timeline(rows)
    ensures Timeline(Swapped(rows, i, e)) && multiset(Swapped(rows, i, e)) == multiset(rows)
  {
    var swapped := Swapped(rows, i, e);
    assert multiset(swapped) == multiset(rows);
    SameMembers(swapped, rows);
    assert forall k | 0 <= k < |rows| :: swapped[k].at == rows[k].at;
    forall j, k | 0 <= j < k < |rows| ensures Earlier(swapped[j], swapped[k]) { assert Earlier(rows[j], rows[k]); }
  }

  lemma SwappedEnd(rows: seq<Row>, i: nat, e: nat, k: nat)
    requires i < e < |rows| && rows[i].at == rows[e].at && k < |rows|
    ensures IsEnd(Swapped(rows, i, e), k) <==> IsEnd(rows, k)
    ensures Swapped(rows, i, e)[k].at == rows[k].at
  {
  }

  lemma OnlyEnd(rows: seq<Row>, e: nat, k: nat)
    requires Ordered(rows, Earlier) && IsEnd(rows, e) && IsEnd(rows, k) && rows[k].at == rows[e].at
    ensures k == e
  {
    if k < e { EndEarlier(rows, k, e); } else if e < k { EndEarlier(rows, e, k); }
  }

  /** Then another stage is last at that time, and nothing else changes. */
  lemma SwappedEnds(rows: seq<Row>, i: nat, e: nat, stage: Stage)
    requires Timeline(rows) && i < e && IsEnd(rows, e) && rows[i].at == rows[e].at
    requires rows[i].to == Some(stage) && rows[e].to != Some(stage)
    ensures |Ends(Swapped(rows, i, e), stage)| == |Ends(rows, stage)| + 1
  {
    var swapped, t := Swapped(rows, i, e), rows[e].at;
    assert !IsEnd(rows, i) by { if IsEnd(rows, i) { OnlyEnd(rows, e, i); } }
    forall s | s in Ends(rows, stage) ensures s != t && s in Ends(swapped, stage) {
      var k :| 0 <= k < |rows| && IsEnd(rows, k) && rows[k].to == Some(stage) && rows[k].at == s;
      if s == t { OnlyEnd(rows, e, k); }
      SwappedEnd(rows, i, e, k);
      assert swapped[k] == rows[k];
    }
    forall s | s in Ends(swapped, stage) && s != t ensures s in Ends(rows, stage) {
      var k :| 0 <= k < |swapped| && IsEnd(swapped, k) && swapped[k].to == Some(stage) && swapped[k].at == s;
      SwappedEnd(rows, i, e, k);
      assert swapped[k] == rows[k];
    }
    SwappedEnd(rows, i, e, e);
    assert t in Ends(swapped, stage);
    assert Ends(swapped, stage) == Ends(rows, stage) + {t};
  }

  /** The proposal's rows as given, the others in the order of the log. */
  lemma Rearranged(rs: seq<Request>, p: Id, own: seq<Row>) returns (rows: seq<Row>)
    requires multiset(own) == multiset(MoveRows(p, Logged(rs, p))) && Ordered(own, Earlier)
    requires forall r | r in own :: r.entity == Some(p)
    ensures Arrival(rs, rows)
    ensures forall stage, hours ::
          Listed(rows, stage, Sample(hours, p)) == CountIn(Steps(p, own), (stage, Sample(hours, p)))
  {
    var log := AuditRows(Run(EMPTY, rs).audit);
    rows := own + Others(log, p);
    AuditSplits(Run(EMPTY, rs).audit, p);
    OwnFirst(own, log, p);
    SortKeepsOrdered(own, Earlier);
    forall stage, hours
      ensures Listed(rows, stage, Sample(hours, p)) == CountIn(Steps(p, own), (stage, Sample(hours, p))) {
      CountsAre(rs, rows, stage, Sample(hours, p));
    }
  }

  lemma RealSteps(rs: seq<Request>, p: Id, stage: Stage, hours: real)
    requires InOrder(Logged(rs, p))
    ensures Real(rs, stage, Sample(hours, p)) ==
            CountIn(Steps(p, MoveRows(p, Logged(rs, p))), (stage, Sample(hours, p)))
  {
    StepsAreStays(p, Logged(rs, p));
    ObservedFromEmpty(rs, p);
  }

  lemma LogTimeline(rs: seq<Request>, p: Id)
    requires InOrder(Logged(rs, p))
    ensures Timeline(MoveRows(p, Logged(rs, p)))
    ensures forall r | r in MoveRows(p, Logged(rs, p)) :: r.entity == Some(p)
  {
    MoveRowsAt(p, Logged(rs, p));
    OrderedRows(p, Logged(rs, p));
  }

  /** A stage that was passed through within one time loses a stay of no length in
      some order of arrival. */
  lemma TieMisattributed(rs: seq<Request>, p: Id, i: nat, e: nat) returns (rows: seq<Row>)
    requires InOrder(Logged(rs, p)) && GroupEnd(Logged(rs, p), i, e) && Logged(rs, p)[i].to != Logged(rs, p)[e].to
    ensures Arrival(rs, rows)
    ensures var stage, sample := Logged(rs, p)[i].to, Sample(0.0, p);
            Listed(rows, stage, sample) == Real(rs, stage, sample) - 1
  {
    var log, stage := MoveRows(p, Logged(rs, p)), Logged(rs, p)[i].to;
    MoveRowsAt(p, Logged(rs, p));
    LogTimeline(rs, p);
    var own := Swapped(log, i, e);
    SwappedTimeline(log, i, e);
    SameMembers(own, log);
    rows := Rearranged(rs, p, own);
    RealSteps(rs, p, stage, 0.0);
    ZeroStays(p, log, stage);
    ZeroStays(p, own, stage);
    OccursPermuted(own, log, stage);
    SwappedEnds(log, i, e, stage);
  }

  /** A proposal's sorted rows are an ordered permutation of its log. */
  lemma SortedLog(rs: seq<Request>, rows: seq<Row>, p: Id) returns (sorted: seq<Row>)
    requires Arrival(rs, rows) && InOrder(Logged(rs, p))
    ensures sorted == Chronological(Values(Keyed(rows), p))
    ensures Timeline(sorted) && multiset(sorted) == multiset(MoveRows(p, Logged(rs, p)))
  {
    var own, log := Values(Keyed(rows), p), MoveRows(p, Logged(rs, p));
    sorted := Chronological(own);
    PermutedValues(rows, AuditRows(Run(EMPTY, rs).audit), p);
    ValuesOfAudit(Run(EMPTY, rs).audit, p);
    SortPermutes(own, Earlier);
    SortOrders(own, Earlier);
    LogTimeline(rs, p);
    SameMembers(sorted, log);
  }

  lemma NothingLost(rs: seq<Request>, rows: seq<Row>, p: Id, stage: Stage)
    requires Arrival(rs, rows) && InOrder(Logged(rs, p)) && !PassedThrough(Logged(rs, p), stage)
    ensures Listed(rows, stage, Sample(0.0, p)) >= Real(rs, stage, Sample(0.0, p))
  {
    var log := MoveRows(p, Logged(rs, p));
    var sorted := SortedLog(rs, rows, p);
    LogTimeline(rs, p);
    CountsAre(rs, rows, stage, Sample(0.0, p));
    RealSteps(rs, p, stage, 0.0);
    ZeroStays(p, sorted, stage);
    ZeroStays(p, log, stage);
    OccursPermuted(sorted, log, stage);
    EndsAll(p, Logged(rs, p), stage);
    assert TimesOf(sorted, stage) == TimesOf(log, stage) by { SameMembers(sorted, log); }
    EndsWithin(sorted, stage);
    SubsetSize(Ends(sorted, stage), TimesOf(sorted, stage));
  }

  /** Under a clock that never runs backwards, a stage is denied a stay of no length
      in some order of arrival exactly when the proposal passed through it within one
      time, ending that time in another stage. */
  lemma TieLosesExactly(rs: seq<Request>, p: Id, stage: Stage)
    requires InOrder(Logged(rs, p))
    ensures (exists rows :: Arrival(rs, rows) &&
                        Listed(rows, stage, Sample(0.0, p)) < Real(rs, stage, Sample(0.0, p))) <==>
            PassedThrough(Logged(rs, p), stage)
  {
    var moves := Logged(rs, p);
    if PassedThrough(moves, stage) {
      var i: nat, e: nat :| GroupEnd(moves, i, e) && moves[i].to == stage && moves[e].to != stage;
      var rows := TieMisattributed(rs, p, i, e);
    } else {
      forall rows | Arrival(rs, rows) ensures Listed(rows, stage, Sample(0.0, p)) >= Real(rs, stage, Sample(0.0, p)) {
        NothingLost(rs, rows, p, stage);
      }
    }
  }

  // ----- exactness -----

  /** The analytics is right about a proposal in every order of arrival if and only
      if the times of its transitions strictly increase. */
  lemma TruthfulExactly(rs: seq<Request>, p: Id)
    ensures (forall rows | Arrival(rs, rows) :: Truthful(rs, rows, p)) <==> StrictTimes(Logged(rs, p))
  {
    if StrictTimes(Logged(rs, p)) {
      forall rows | Arrival(rs, rows) ensures Truthful(rs, rows, p) { StrictTruthful(rs, rows, p); }
    } else {
      var rows := UntruthfulRows(rs, p);
    }
  }

  lemma UntruthfulRows(rs: seq<Request>, p: Id) returns (rows: seq<Row>)
    requires !StrictTimes(Logged(rs, p))
    ensures Arrival(rs, rows) && !Truthful(rs, rows, p)
  {
    if InOrder(Logged(rs, p)) {
      var i := Tie(Logged(rs, p));
      LoggedReplays(rs, p);
      MovesDiffer(Logged(rs, p), i);
      rows := TieMisattributed(rs, p, i, i + 1);
      assert Listed(rows, Logged(rs, p)[i].to, Sample(0.0, p)) != Real(rs, Logged(rs, p)[i].to, Sample(0.0, p));
    } else {
      rows := AuditRows(Run(EMPTY, rs).audit);
      BackwardsUntruthful(rs, rows, p);
    }
  }

  /** In the order of the log it is right if and only if the times never decrease. */
  lemma LogOrderExactly(rs: seq<Request>, p: Id)
    ensures Truthful(rs, AuditRows(Run(EMPTY, rs).audit), p) <==> InOrder(Logged(rs, p))
  {
    if InOrder(Logged(rs, p)) {
      InOrderTruthful(rs, p);
    } else {
      BackwardsUntruthful(rs, AuditRows(Run(EMPTY, rs).audit), p);
    }
  }

  // ----- a run with a tie -----

  lemma RunThree(db: Db, a: Request, b: Request, c: Request)
    ensures Run(db, [a, b, c]) == Step(Step(Step(db, a).0, b).0, c).0
  {
    assert [a, b, c][1..] == [b, c] && [b, c][1..] == [c] && [c][1..] == [];
    assert Run(db, [a, b, c]) == Run(Step(db, a).0, [b, c]);
    assert Run(Step(db, a).0, [b, c]) == Run(Step(Step(db, a).0, b).0, [c]);
  }

  lemma EarlyMove(db: Db, p: Id, to: Stage, keys: Keys, routing: Routing, t: Time)
    requires p in db.proposals && db.proposals[p].stage in {Intake, Qualification}
               && to in Allowed(db.proposals[p].stage)
    ensures var db' := Step(db, Transition(p, to, None, keys, routing, t)).0;
            && p in db'.proposals && db'.proposals[p].stage == to
            && MovesOf(db'.audit, p) == MovesOf(db.audit, p) + [Move(db.proposals[p].stage, to, t)]
  {
    var row := Moved(p, None, db.proposals[p].stage, to, t);
    assert Step(db, Transition(p, to, None, keys, routing, t)).0.audit == db.audit + [row];
    MovesOfAppend(db.audit, row, p);
  }

  lemma TwoMoves(db: Db, p: Id, keys: Keys, routing: Routing, t: Time)
    requires p in db.proposals && db.proposals[p].stage == Intake && MovesOf(db.audit, p) == []
    ensures var qualified := Step(db, Transition(p, Qualification, None, keys, routing, t)).0;
            MovesOf(Step(qualified, Transition(p, SmeAssignment, None, keys, routing, t)).0.audit, p) ==
            [Move(Intake, Qualification, t), Move(Qualification, SmeAssignment, t)]
  {
    EarlyMove(db, p, Qualification, keys, routing, t);
    EarlyMove(Step(db, Transition(p, Qualification, None, keys, routing, t)).0, p, SmeAssignment, keys, routing, t);
  }

  lemma JustOpened(p: Id, o: Id, t: Time)
    ensures var db := Step(EMPTY, Open(p, o, t)).0;
            p in db.proposals && db.proposals[p].stage == Intake && MovesOf(db.audit, p) == []
  {
    MovesOfAppend([], Created(o, t), p);
  }

  lemma LoggedTwo(p: Id, o: Id, keys: Keys, routing: Routing, t: Time, rs: seq<Request>)
    requires rs == [Open(p, o, t), Transition(p, Qualification, None, keys, routing, t),
                    Transition(p, SmeAssignment, None, keys, routing, t)]
    ensures Logged(rs, p) == [Move(Intake, Qualification, t), Move(Qualification, SmeAssignment, t)]
  {
    RunThree(EMPTY, rs[0], rs[1], rs[2]);
    JustOpened(p, o, t);
    TwoMoves(Step(EMPTY, rs[0]).0, p, keys, routing, t);
  }

  /** A proposal that is qualified and sent to SME assignment in the same microsecond
      spent no time in qualification; in some order of the rows the analytics does
      not list that stay at all. */
  lemma TwoMovesAtOnce(p: Id, o: Id, keys: Keys, routing: Routing, t: Time) returns (rows: seq<Row>)
    ensures var rs := [Open(p, o, t), Transition(p, Qualification, None, keys, routing, t),
                       Transition(p, SmeAssignment, None, keys, routing, t)];
            && Arrival(rs, rows)
            && Real(rs, Qualification, Sample(0.0, p)) == 1 && Listed(rows, Qualification, Sample(0.0, p)) == 0
  {
    var rs := [Open(p, o, t), Transition(p, Qualification, None, keys, routing, t),
               Transition(p, SmeAssignment, None, keys, routing, t)];
    LoggedTwo(p, o, keys, routing, t, rs);
    rows := TieMisattributed(rs, p, 0, 1);
    OneStay(rs, p, Logged(rs, p)[0], Logged(rs, p)[1]);
  }

  lemma OneStay(rs: seq<Request>, p: Id, x: Move, y: Move)
    requires Logged(rs, p) == [x, y] && x.at == y.at
    ensures Real(rs, x.to, Sample(0.0, p)) == 1
  {
    var stay := Stay(x.to, x.at, y.at);
    ObservedFromEmpty(rs, p);
    assert [x, y][..1] == [x];
    assert StaysBetween([x]) == [];
    assert StaysBetween([x, y]) == [] + [stay];
    AllTimedAppend(p, [], stay);
    assert AllTimed(p, [stay]) == [(x.to, Sample(0.0, p))];
  }
}
