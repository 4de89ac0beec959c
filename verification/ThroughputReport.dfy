/** What the entries of the throughput report say about the samples they summarise. */
module ThroughputReport {
  import opened Options
  import opened Reals
  import opened Stages
  import opened Sorting
  import opened Groups
  import opened Percentiles
  import opened Throughput
  import opened ThroughputLaws
  import L = Lifecycle

  /** The samples that took longer than a non-zero budget. */
  function OverBudget(samples: seq<Sample>, budget: Option<int>): set<nat> {
    set i: nat | i < |samples| && budget != None && budget.value != 0 && samples[i].hours > budget.value as real
  }

  lemma {:induction false} BreachesCounted(samples: seq<Sample>, budget: Option<int>)
    ensures Breaches(samples, budget) == |OverBudget(samples, budget)|
  {
    if samples == [] {
      assert OverBudget(samples, budget) == {};
    } else {
      var n := |samples| - 1;
      var before := OverBudget(samples[..n], budget);
      BreachesCounted(samples[..n], budget);
      assert OverBudget(samples, budget) == if n in OverBudget(samples, budget) then before + {n} else before;
    }
  }

  /** The hours of a stage's samples. */
  ghost predicate AreHours(hours: seq<real>, samples: seq<Sample>) {
    |hours| == |samples| && forall i | 0 <= i < |samples| :: hours[i] == samples[i].hours
  }

  /** The columns, with the means still as such. */
  lemma EntryColumns(stage: Stage, samples: seq<Sample>, sla: Option<int>)
    requires samples != []
    ensures var m, n := MetricsFor(stage, samples, sla), |samples|;
            && m.count == n && m.sla == sla
            && m.avg == Mean(Sum(samples, SampleHours), n)
            && m.breachRate == Mean(Breaches(samples, sla) as real, n)
            && m.p50 == Percentile(HoursList(samples), 0.5) && m.p90 == Percentile(HoursList(samples), 0.9)
            && |m.sampleIds| == (if n < 3 then n else 3)
            && forall i | 0 <= i < |m.sampleIds| :: m.sampleIds[i] == samples[i].proposal
  {
  }

  lemma MeanIs(avg: real, total: real, n: nat)
    requires n > 0 && avg == Mean(total, n)
    ensures Averages(avg, n, total)
  {
    QuotientAverages(total, n);
  }

  /** How many samples there are, their total, how many are over the budget, and whose
      the first three are. */
  ghost predicate EntryCounts(m: StageMetrics, samples: seq<Sample>, sla: Option<int>) {
    && m.count == |samples| && m.sla == sla
    && Averages(m.avg, m.count, Sum(samples, SampleHours))
    && Averages(m.breachRate, m.count, |OverBudget(samples, sla)| as real)
    && |m.sampleIds| == (if m.count < 3 then m.count else 3)
    && forall i | 0 <= i < |m.sampleIds| :: m.sampleIds[i] == samples[i].proposal
  }

  /** The median and the 90th percentile, in this order. */
  ghost predicate EntryPercentiles(m: StageMetrics, hours: seq<real>) {
    m.p50 == Percentile(hours, 0.5) && m.p90 == Percentile(hours, 0.9) && m.p50 <= m.p90
  }

  lemma CountsOf(m: StageMetrics, stage: Stage, samples: seq<Sample>, sla: Option<int>)
    requires samples != [] && m == MetricsFor(stage, samples, sla)
    ensures EntryCounts(m, samples, sla)
  {
    EntryColumns(stage, samples, sla);
    BreachesCounted(samples, sla);
    assert Averages(m.avg, m.count, Sum(samples, SampleHours)) by { MeanIs(m.avg, Sum(samples, SampleHours), m.count); }
    assert Averages(m.breachRate, m.count, |OverBudget(samples, sla)| as real) by {
      MeanIs(m.breachRate, |OverBudget(samples, sla)| as real, m.count);
    }
  }

  lemma PercentilesOf(m: StageMetrics, stage: Stage, samples: seq<Sample>, sla: Option<int>, hours: seq<real>)
    requires samples != [] && AreHours(hours, samples) && m == MetricsFor(stage, samples, sla)
    ensures EntryPercentiles(m, hours)
  {
    assert HoursList(samples) == hours;
    assert m.p50 == Percentile(hours, 0.5) && m.p90 == Percentile(hours, 0.9);
    PercentileMonotone(hours, 0.5, 0.9);
  }

  /** Every entry of the report describes the samples of its stage. */
  lemma EntryDescribes(rows: seq<Row>, sla: map<Stage, int>, m: StageMetrics, hours: seq<real>)
    requires m in ReportedEntries(rows, sla) && AreHours(hours, Durations(rows).Get(m.stage))
    ensures Durations(rows).Get(m.stage) != []
    ensures var budget := if m.stage in sla then Some(sla[m.stage]) else None;
            EntryCounts(m, Durations(rows).Get(m.stage), budget) && EntryPercentiles(m, hours)
  {
    ReportLayout(rows, sla, m);
    CountsOf(m, m.stage, Durations(rows).Get(m.stage), Budget(sla, m.stage));
    PercentilesOf(m, m.stage, Durations(rows).Get(m.stage), Budget(sla, m.stage), hours);
  }

  function ReportedEntries(rows: seq<Row>, sla: map<Stage, int>): seq<StageMetrics> {
    DurationsValid(rows);
    ReportOf(Durations(rows), sla).metrics
  }

  lemma AllSamples(rows: seq<Row>)
    ensures var g := Durations(rows);
            && |Flatten(g, g.keys)| == |Pairs(rows)|
            && Sum(Flatten(g, g.keys), SampleHours) == TotalOf(Pairs(rows), SampleHours)
  {
    var g := Durations(rows);
    CollectConserves(Pairs(rows), SampleHours);
    CollectConserves(Pairs(rows), One);
    TotalOnes(Pairs(rows));
    FlattenTotals(g, g.keys, SampleHours);
    FlattenTotals(g, g.keys, One);
    SumOnes(Flatten(g, g.keys));
  }

  lemma OverallIs(g: Groups<Stage, Sample>, sla: map<Stage, int>)
    requires forall k | k in g.keys :: g.Get(k) != []
    ensures var all := Flatten(g, g.keys);
            ReportOf(g, sla).overall == if all == [] then 0.0 else Mean(Sum(all, SampleHours), |all|)
  {
  }

  lemma CountsAdd(rows: seq<Row>, sla: map<Stage, int>)
    requires forall k | k in Durations(rows).keys :: Durations(rows).Get(k) != []
    ensures Sum(ReportOf(Durations(rows), sla).metrics, Count) == |Pairs(rows)| as real
  {
    var g := Durations(rows);
    MetricsCounts(g, sla, g.keys);
    SumSort(MetricsOf(g, sla, g.keys), Slower, Count);
    CollectConserves(Pairs(rows), One);
    TotalOnes(Pairs(rows));
  }

  /** The overall average is that of all samples, also over incomplete rows, and the
      counts are those of all samples. */
  lemma OverallDescribes(rows: seq<Row>, sla: map<Stage, int>)
    ensures forall k | k in Durations(rows).keys :: Durations(rows).Get(k) != []
    ensures var report, n := ReportOf(Durations(rows), sla), |Pairs(rows)|;
            && Sum(report.metrics, Count) == n as real
            && (n > 0 ==> Averages(report.overall, n, TotalOf(Pairs(rows), SampleHours)))
            && (n == 0 ==> report.overall == 0.0)
  {
    DurationsValid(rows);
    CountsAdd(rows, sla);
    OverallIs(Durations(rows), sla);
    AllSamples(rows);
    var overall, total := ReportOf(Durations(rows), sla).overall, TotalOf(Pairs(rows), SampleHours);
    if |Pairs(rows)| > 0 {
      assert overall == Mean(total, |Pairs(rows)|);
      MeanIs(overall, total, |Pairs(rows)|);
    }
  }

  /** A pair of consecutive rows charges the stage the first one entered, or if it
      does not say, the one it left, with the time in between, but never less than
      nothing. */
  lemma PairCharges(p: Id, prev: Row, curr: Row)
    ensures StepPair(p, prev, curr) == [] <==> prev.to == None && prev.from == None
    ensures StepPair(p, prev, curr) != [] ==>
              var (stage, sample) := StepPair(p, prev, curr)[0];
              && |StepPair(p, prev, curr)| == 1
              && Some(stage) == (if prev.to != None then prev.to else prev.from)
              && sample.proposal == p
              && (prev.at <= curr.at ==> sample.hours * L.HOUR as real == (curr.at - prev.at) as real)
              && (curr.at <= prev.at ==> sample.hours == 0.0)
  {
  }

  /** Slower stages first, and equally slow ones in the order of first use. */
  lemma EntriesDescend(rows: seq<Row>, sla: map<Stage, int>, i: nat, j: nat)
    requires i < j < |ReportedEntries(rows, sla)|
    ensures ReportedEntries(rows, sla)[i].avg >= ReportedEntries(rows, sla)[j].avg
  {
    var entries := ReportedEntries(rows, sla);
    ReportLayout(rows, sla, entries[i]);
    assert Slower(entries[i], entries[j]);
  }
}
