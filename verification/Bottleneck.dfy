/** The workflow bottleneck predictor (decision_engine/predictors/bottleneck.py). */
module Bottleneck {
  import opened Reals
  import opened Stages
  import opened Sorting
  import opened Groups

  type Id = nat

  datatype Snapshot = Snapshot(proposal: Id, stage: Stage, elapsed: real, sla: int, pending: int) {
    function Ratio(): real { if sla > 0 then elapsed / sla as real else 1.0 }
    predicate Breached() { elapsed > sla as real }
  }

  datatype Severity = High | Medium | Low

  datatype Factor = Simultaneous | SlaConsumed | AlreadyBreached | PendingApprovals

  datatype Prediction = Prediction(stage: Stage, severity: Severity, affected: seq<Id>, count: nat, avgRatio: real,
                                   delay: real, factors: seq<Factor>)

  const TERMINAL_STAGES: set<Stage> := {ClosedWon, ClosedLost, Submission}

  function SeverityOf(count: nat, avgRatio: real, anyBreached: bool): Severity {
    if anyBreached || count >= 3 then High
    else if count >= 2 || avgRatio >= 0.5 then Medium
    else Low
  }

  function RatioOf(s: Snapshot): real { s.Ratio() }
  function SlaOf(s: Snapshot): real { s.sla as real }

  function Pending(snaps: seq<Snapshot>): int {
    if snaps == [] then 0 else snaps[0].pending + Pending(snaps[1..])
  }

  function Proposals(snaps: seq<Snapshot>): seq<Id> {
    if snaps == [] then [] else [snaps[0].proposal] + Proposals(snaps[1..])
  }

  function AvgRatio(snaps: seq<Snapshot>): real
    requires snaps != []
  {
    Sum(snaps, RatioOf) / |snaps| as real
  }

  predicate AnyBreached(snaps: seq<Snapshot>) {
    exists s :: s in snaps && s.Breached()
  }

  /** Worth reporting: several proposals, or half the budget gone, or a breach. */
  predicate Noteworthy(snaps: seq<Snapshot>) {
    snaps != [] && (|snaps| >= 2 || AvgRatio(snaps) >= 0.5 || AnyBreached(snaps))
  }

  /** The average budget times the share of it that is left, growing with the queue. */
  function DelayOf(totalSla: real, avgRatio: real, count: nat): real
    requires count > 0
  {
    (totalSla / count as real) * (1.0 - avgRatio) * (0.5 + count as real * 0.1)
  }

  function Reasons(simultaneous: bool, consumed: bool, breached: bool, pending: bool): seq<Factor> {
    (if simultaneous then [Simultaneous] else []) + (if consumed then [SlaConsumed] else [])
    + (if breached then [AlreadyBreached] else []) + if pending then [PendingApprovals] else []
  }

  function Predict(stage: Stage, snaps: seq<Snapshot>): Prediction
    requires snaps != []
  {
    var count, avg, breached := |snaps|, AvgRatio(snaps), AnyBreached(snaps);
    Prediction(stage, SeverityOf(count, avg, breached), Proposals(snaps), count, avg,
               DelayOf(Sum(snaps, SlaOf), avg, count),
               Reasons(count >= 2, avg >= 0.7, breached, Pending(snaps) >= 3))
  }

  /** The snapshots that count, under their stage. */
  function Keyed(snaps: seq<Snapshot>): seq<(Stage, Snapshot)> {
    if snaps == [] then [] else
    var last := snaps[|snaps| - 1];
    Keyed(snaps[..|snaps| - 1]) + if last.stage in TERMINAL_STAGES then [] else [(last.stage, last)]
  }

  function Predictions(g: Groups<Stage, Snapshot>, keys: seq<Stage>): seq<Prediction> {
    if keys == [] then [] else
    var k := keys[|keys| - 1];
    Predictions(g, keys[..|keys| - 1]) + if Noteworthy(g.Get(k)) then [Predict(k, g.Get(k))] else []
  }

  function Order(s: Severity): nat {
    match s case High => 0 case Medium => 1 case Low => 2
  }

  /** `(order[severity], -count)`, ascending. */
  predicate MoreUrgent(a: Prediction, b: Prediction) {
    Order(a.severity) < Order(b.severity) || (a.severity == b.severity && a.count >= b.count)
  }

  function Detected(snaps: seq<Snapshot>): seq<Prediction> {
    var g := Collect(Keyed(snaps));
    SortBy(Predictions(g, g.keys), MoreUrgent)
  }

  method DetectBottlenecks(snaps: seq<Snapshot>) returns (predictions: seq<Prediction>)
    ensures predictions == Detected(snaps)
  {
    var byStage := Groups([], map[]);
    for i := 0 to |snaps|
      invariant byStage == Collect(Keyed(snaps[..i]))
    {
      assert snaps[..i + 1][..i] == snaps[..i];
      if snaps[i].stage !in TERMINAL_STAGES {
        CollectAppend(Keyed(snaps[..i]), (snaps[i].stage, snaps[i]));
        byStage := byStage.Append(snaps[i].stage, snaps[i]);
      } else {
        assert Keyed(snaps[..i + 1]) == Keyed(snaps[..i]);
      }
    }
    assert snaps[..|snaps|] == snaps;
    CollectPartitions(Keyed(snaps));
    predictions := Surfaced(byStage);
    predictions := SortBy(predictions, MoreUrgent);
  }

  method Surfaced(byStage: Groups<Stage, Snapshot>) returns (predictions: seq<Prediction>)
    requires forall k | k in byStage.keys :: byStage.Get(k) != []
    ensures predictions == Predictions(byStage, byStage.keys)
  {
    var keys := byStage.keys;
    predictions := [];
    for i := 0 to |keys|
      invariant predictions == Predictions(byStage, keys[..i])
    {
      assert keys[..i + 1][..i] == keys[..i];
      var snaps := byStage.Get(keys[i]);
      if !(|snaps| < 2 && AvgRatio(snaps) < 0.5 && !AnyBreached(snaps)) {
        predictions := predictions + [Predict(keys[i], snaps)];
      }
    }
    assert keys[..|keys|] == keys;
  }

  // ----- what is reported -----

  /** The snapshots of one stage. */
  function InStage(snaps: seq<Snapshot>, stage: Stage): seq<Snapshot> {
    if snaps == [] then [] else
    InStage(snaps[..|snaps| - 1], stage) + if snaps[|snaps| - 1].stage == stage then [snaps[|snaps| - 1]] else []
  }

  lemma ValuesStep(pairs: seq<(Stage, Snapshot)>, last: Snapshot, stage: Stage)
    ensures Values(pairs + [(last.stage, last)], stage) ==
            Values(pairs, stage) + if last.stage == stage then [last] else []
  {
    assert (pairs + [(last.stage, last)])[..|pairs|] == pairs;
  }

  lemma {:induction false} ValuesInStage(snaps: seq<Snapshot>, stage: Stage)
    ensures Values(Keyed(snaps), stage) == if stage in TERMINAL_STAGES then [] else InStage(snaps, stage)
  {
    if snaps != [] {
      var before, last := snaps[..|snaps| - 1], snaps[|snaps| - 1];
      ValuesInStage(before, stage);
      if last.stage in TERMINAL_STAGES {
        assert Keyed(snaps) == Keyed(before);
        assert last.stage == stage || InStage(snaps, stage) == InStage(before, stage);
      } else {
        assert Keyed(snaps) == Keyed(before) + [(last.stage, last)];
        ValuesStep(Keyed(before), last, stage);
      }
    }
  }

  lemma {:induction false} PredictionsAre(g: Groups<Stage, Snapshot>, keys: seq<Stage>)
    requires Distinct(keys)
    ensures forall p :: p in Predictions(g, keys) <==>
              p.stage in keys && Noteworthy(g.Get(p.stage)) && p == Predict(p.stage, g.Get(p.stage))
    ensures Distinct(Predictions(g, keys))
  {
    if keys != [] {
      var before, k := keys[..|keys| - 1], keys[|keys| - 1];
      PredictionsAre(g, before);
      assert keys == before + [k];
      assert k !in before;
    }
  }

  /** Exactly the noteworthy non-terminal stages are reported, each in one entry that
      describes precisely the proposals in it. */
  lemma {:induction false} ReportedExactly(snaps: seq<Snapshot>, p: Prediction)
    ensures Distinct(Detected(snaps))
    ensures p in Detected(snaps) <==>
            && p.stage !in TERMINAL_STAGES
            && Noteworthy(InStage(snaps, p.stage))
            && p == Predict(p.stage, InStage(snaps, p.stage))
  {
    var g := Collect(Keyed(snaps));
    CollectPartitions(Keyed(snaps));
    PredictionsAre(g, g.keys);
    SortDistinct(Predictions(g, g.keys), MoreUrgent);
    SortMembers(Predictions(g, g.keys), MoreUrgent, p);
    ValuesInStage(snaps, p.stage);
  }

  lemma MoreUrgentPreorder()
    ensures TotalPreorder(MoreUrgent)
  {
  }

  /** Most urgent first, and nothing of low severity. */
  lemma UrgencyOrder(snaps: seq<Snapshot>)
    ensures Ordered(Detected(snaps), MoreUrgent)
    ensures forall p | p in Detected(snaps) :: p.severity != Low && p.count == |InStage(snaps, p.stage)|
  {
    MoreUrgentPreorder();
    var g := Collect(Keyed(snaps));
    SortOrders(Predictions(g, g.keys), MoreUrgent);
    forall p | p in Detected(snaps) ensures p.severity != Low && p.count == |InStage(snaps, p.stage)| {
      ReportedExactly(snaps, p);
    }
  }

  /** In plain terms: high before medium, the longer queue first. */
  lemma UrgentFirst(snaps: seq<Snapshot>, i: nat, j: nat)
    requires i < j < |Detected(snaps)|
    ensures var a, b := Detected(snaps)[i], Detected(snaps)[j];
            && (a.severity == High || (a.severity == Medium && b.severity == Medium))
            && (a.severity == b.severity ==> a.count >= b.count)
  {
    UrgencyOrder(snaps);
    var a, b := Detected(snaps)[i], Detected(snaps)[j];
    assert MoreUrgent(a, b);
    assert a in Detected(snaps) && b in Detected(snaps);
  }

  /** Stages of equal rank stay in the order in which they were found. */
  lemma DetectedStable(snaps: seq<Snapshot>, p: Prediction)
    ensures var g := Collect(Keyed(snaps));
            Ties(Detected(snaps), p, MoreUrgent) == Ties(Predictions(g, g.keys), p, MoreUrgent)
  {
    MoreUrgentPreorder();
    var g := Collect(Keyed(snaps));
    SortStable(Predictions(g, g.keys), p, MoreUrgent);
  }

  /** The stages nobody has to work on any more. */
  lemma TerminalIs(stage: Stage)
    ensures stage in TERMINAL_STAGES <==> stage.ClosedWon? || stage.ClosedLost? || stage.Submission?
  {
  }

  lemma SumOne(x: Snapshot, weight: Snapshot -> real)
    ensures Sum([x], weight) == weight(x)
  {
    assert [x][1..] == [];
  }

  /** A stage is reported iff it is open and worth it. */
  lemma StageReported(snaps: seq<Snapshot>, stage: Stage)
    ensures (exists p :: p in Detected(snaps) && p.stage == stage) <==>
            stage !in TERMINAL_STAGES && Noteworthy(InStage(snaps, stage))
  {
    var here := InStage(snaps, stage);
    forall p | p in Detected(snaps) && p.stage == stage ensures stage !in TERMINAL_STAGES && Noteworthy(here) {
      ReportedExactly(snaps, p);
    }
    if here != [] { ReportedExactly(snaps, Predict(stage, here)); }
  }

  lemma Alone(snap: Snapshot)
    ensures AvgRatio([snap]) == snap.Ratio() && Sum([snap], SlaOf) == snap.sla as real
    ensures AnyBreached([snap]) <==> snap.Breached()
  {
    SumOne(snap, RatioOf);
    SumOne(snap, SlaOf);
    if snap.Breached() { assert snap in [snap]; }
  }

  /** What the header of the source asks for: two proposals and more than half the
      budget on average. */
  predicate Documented(here: seq<Snapshot>) {
    |here| >= 2 && AvgRatio(here) > 0.5
  }

  /** The code asks for either, or a breach.  Code and header agree on a stage exactly
      when it is terminal, or has two proposals past half their budget on average, or
      a single one that is neither at half its budget nor past it, or none. */
  lemma DocumentedExactly(snaps: seq<Snapshot>, stage: Stage)
    ensures var here := InStage(snaps, stage);
            ((exists p :: p in Detected(snaps) && p.stage == stage) <==>
              stage !in TERMINAL_STAGES && Documented(here)) <==>
            (stage in TERMINAL_STAGES ||
             if |here| >= 2 then AvgRatio(here) > 0.5
             else here == [] || (here[0].Ratio() < 0.5 && !here[0].Breached()))
  {
    var here := InStage(snaps, stage);
    StageReported(snaps, stage);
    if |here| == 1 {
      assert here == [here[0]];
      Alone(here[0]);
    }
  }

  /** So one proposal is enough, beside whatever other stages hold: it is reported
      exactly when half its budget is gone or it is past it. */
  lemma OneProposalIsEnough(snaps: seq<Snapshot>, snap: Snapshot)
    requires InStage(snaps, snap.stage) == [snap]
    ensures (exists p :: p in Detected(snaps) && p.stage == snap.stage) <==>
            snap.stage !in TERMINAL_STAGES && (snap.Ratio() >= 0.5 || snap.Breached())
  {
    StageReported(snaps, snap.stage);
    Alone(snap);
  }

  /** And so are two, however little of their budgets is gone. */
  lemma TwoProposalsAreEnough(snaps: seq<Snapshot>, stage: Stage)
    requires stage !in TERMINAL_STAGES && |InStage(snaps, stage)| >= 2
    ensures exists p :: p in Detected(snaps) && p.stage == stage
  {
    StageReported(snaps, stage);
  }

  // ----- the estimated delay -----

  lemma ProductNegative(a: real, b: real)
    ensures a * b < 0.0 <==> (a > 0.0 && b < 0.0) || (a < 0.0 && b > 0.0)
  {
  }

  lemma QuotientSign(a: real, n: real)
    requires n > 0.0
    ensures (a / n > 0.0 <==> a > 0.0) && (a / n < 0.0 <==> a < 0.0)
  {
  }

  lemma DelaySign(sla: real, avg: real, count: nat)
    requires count > 0
    ensures DelayOf(sla, avg, count) < 0.0 <==>
            (sla > 0.0 && avg > 1.0) || (sla < 0.0 && avg < 1.0)
  {
    QuotientSign(sla, count as real);
    var share, left := sla / count as real, 1.0 - avg;
    ProductNegative(share, left);
    ProductNegative(share * left, 0.5 + count as real * 0.1);
  }

  /** The estimated delay of a reported stage is negative exactly when its proposals
      have used more than their budgets on average, the budgets being positive in
      total; or less than that, the budgets being negative in total. */
  lemma {:induction false} DelayNegativeExactly(snaps: seq<Snapshot>, p: Prediction)
    requires p in Detected(snaps)
    ensures var sla := Sum(InStage(snaps, p.stage), SlaOf);
            p.delay < 0.0 <==> (sla > 0.0 && p.avgRatio > 1.0) || (sla < 0.0 && p.avgRatio < 1.0)
  {
    ReportedExactly(snaps, p);
    var here := InStage(snaps, p.stage);
    DelaySign(Sum(here, SlaOf), AvgRatio(here), |here|);
  }

  lemma OverrunRatio(elapsed: real, sla: real)
    requires elapsed > sla > 0.0
    ensures elapsed / sla > 1.0
  {
    assert elapsed / sla * sla == elapsed;
  }

  /** So a lone proposal past a positive budget is reported with a negative delay. */
  lemma DelayCanBeNegative(snaps: seq<Snapshot>, snap: Snapshot)
    requires InStage(snaps, snap.stage) == [snap]
    requires snap.stage !in TERMINAL_STAGES && snap.sla > 0 && snap.Breached()
    ensures exists p :: p in Detected(snaps) && p.stage == snap.stage && p.delay < 0.0
  {
    var p := Predict(snap.stage, [snap]);
    Alone(snap);
    ReportedExactly(snaps, p);
    assert p.avgRatio > 1.0 by { OverrunRatio(snap.elapsed, snap.sla as real); }
    DelayNegativeExactly(snaps, p);
  }

  // ----- what an entry says -----

  function PendingOf(s: Snapshot): real { s.pending as real }

  lemma {:induction false} PendingAdds(snaps: seq<Snapshot>)
    ensures Pending(snaps) as real == Sum(snaps, PendingOf)
  {
    if snaps != [] { PendingAdds(snaps[1..]); }
  }

  lemma {:induction false} ProposalsAt(snaps: seq<Snapshot>)
    ensures |Proposals(snaps)| == |snaps|
    ensures forall i | 0 <= i < |snaps| :: Proposals(snaps)[i] == snaps[i].proposal
  {
    if snaps != [] { ProposalsAt(snaps[1..]); }
  }

  lemma RatioIs(s: Snapshot)
    ensures s.sla > 0 ==> s.Ratio() * s.sla as real == s.elapsed
    ensures s.sla <= 0 ==> s.Ratio() == 1.0
  {
  }

  lemma AvgIs(snaps: seq<Snapshot>)
    requires snaps != []
    ensures Averages(AvgRatio(snaps), |snaps|, Sum(snaps, RatioOf))
  {
    QuotientAverages(Sum(snaps, RatioOf), |snaps|);
  }

  lemma BreachedSome(snaps: seq<Snapshot>)
    ensures AnyBreached(snaps) <==> exists s :: s in snaps && s.elapsed > s.sla as real
  {
    if s :| s in snaps && s.elapsed > s.sla as real { assert s.Breached(); }
  }

  lemma ReasonsAre(simultaneous: bool, consumed: bool, breached: bool, pending: bool)
    ensures var reasons := Reasons(simultaneous, consumed, breached, pending);
            && Distinct(reasons)
            && (Simultaneous in reasons <==> simultaneous) && (SlaConsumed in reasons <==> consumed)
            && (AlreadyBreached in reasons <==> breached) && (PendingApprovals in reasons <==> pending)
  {
  }

  /** Each reason is listed once, exactly when it applies. */
  lemma FactorsOf(stage: Stage, here: seq<Snapshot>)
    requires here != []
    ensures var p := Predict(stage, here);
            && Distinct(p.factors)
            && (Simultaneous in p.factors <==> |here| > 1)
            && (SlaConsumed in p.factors <==> p.avgRatio >= 0.7)
            && (AlreadyBreached in p.factors <==> AnyBreached(here))
            && (PendingApprovals in p.factors <==> Pending(here) >= 3)
  {
    ReasonsAre(|here| >= 2, AvgRatio(here) >= 0.7, AnyBreached(here), Pending(here) >= 3);
  }

  lemma SeverityIs(stage: Stage, here: seq<Snapshot>)
    requires here != [] && Noteworthy(here)
    ensures var p := Predict(stage, here);
            && (p.severity == High <==> |here| > 2 || AnyBreached(here))
            && (p.severity == Medium <==> p.severity != High)
  {
  }

  /** What a stage is listed with: its proposals in order, its average ratio, high
      severity for a breach or three proposals and medium otherwise, and each reason
      once, exactly when it applies. */
  lemma {:induction false} EntryDescribes(snaps: seq<Snapshot>, p: Prediction)
    requires p in Detected(snaps)
    ensures var here := InStage(snaps, p.stage);
            && p.count == |here| == |p.affected|
            && (forall i | 0 <= i < |here| :: p.affected[i] == here[i].proposal)
            && Averages(p.avgRatio, p.count, Sum(here, RatioOf))
            && (p.severity == High <==> p.count > 2 || exists s :: s in here && s.elapsed > s.sla as real)
            && (p.severity == Medium <==> p.severity != High)
            && Distinct(p.factors)
            && (Simultaneous in p.factors <==> p.count > 1)
            && (SlaConsumed in p.factors <==> p.avgRatio >= 0.7)
            && (AlreadyBreached in p.factors <==> exists s :: s in here && s.elapsed > s.sla as real)
            && (PendingApprovals in p.factors <==> Sum(here, PendingOf) >= 3.0)
  {
    ReportedExactly(snaps, p);
    var here := InStage(snaps, p.stage);
    assert p.count == |here| && p.affected == Proposals(here) && p.avgRatio == AvgRatio(here);
    ProposalsAt(here);
    PendingAdds(here);
    BreachedSome(here);
    SeverityIs(p.stage, here);
    FactorsOf(p.stage, here);
    AvgIs(here);
  }

  /** The estimated delay: per proposal, the budget left on average, by half plus a
      tenth for every proposal in the queue. */
  lemma {:induction false} DelayDescribes(snaps: seq<Snapshot>, p: Prediction, budget: real)
    requires p in Detected(snaps)
    requires var here := InStage(snaps, p.stage); Averages(budget, |here|, Sum(here, SlaOf))
    ensures p.delay == budget * (1.0 - p.avgRatio) * ((5 + p.count) as real / 10.0)
  {
    ReportedExactly(snaps, p);
    var here := InStage(snaps, p.stage);
    QuotientAverages(Sum(here, SlaOf), |here|);
    AverageUnique(budget, Sum(here, SlaOf) / |here| as real, |here|, Sum(here, SlaOf));
    assert 0.5 + |here| as real * 0.1 == (5 + |here|) as real / 10.0;
  }
}
