/** `compute_throughput` (decision_engine/analytics/throughput.py): time per stage
    reconstructed from the audit log. */
module Throughput {
  import opened Options
  import opened Reals
  import opened Stages
  import opened Sorting
  import opened Groups
  import opened Percentiles
  import L = Lifecycle

  type Id = L.Id
  type Time = L.Time

  /** A stage-transition row as the analytics sees it; any text column may be empty. */
  datatype Row = Row(entity: Option<Id>, from: Option<Stage>, to: Option<Stage>, at: Time)

  datatype Sample = Sample(hours: real, proposal: Id)

  datatype StageMetrics = StageMetrics(stage: Stage, count: nat, avg: real, p50: real, p90: real, breachRate: real,
                                       sla: Option<int>, sampleIds: seq<Id>)

  datatype Report = Report(metrics: seq<StageMetrics>, overall: real, topBottleneck: Option<Stage>)

  function Hours(d: int): real { d as real / L.HOUR as real }

  function Mean(total: real, n: nat): real
    requires n > 0
  {
    total / n as real
  }

  predicate Earlier(a: Row, b: Row) { a.at <= b.at }

  predicate Slower(a: StageMetrics, b: StageMetrics) { a.avg >= b.avg }

  /** The stage whose time a pair of consecutive rows measures. */
  function StageOf(row: Row): Option<Stage> {
    if row.to.Some? then row.to else row.from
  }

  // ----- what is collected -----

  /** The rows that name a proposal, under that name. */
  function Keyed(rows: seq<Row>): seq<(Id, Row)> {
    if rows == [] then [] else
    var last := rows[|rows| - 1];
    Keyed(rows[..|rows| - 1]) + if last.entity.Some? then [(last.entity.value, last)] else []
  }

  function SampleOf(p: Id, prev: Row, curr: Row): Sample {
    Sample(Max(0.0, Hours(curr.at - prev.at)), p)
  }

  /** What one step from `prev` to `curr` adds. */
  function StepPair(p: Id, prev: Row, curr: Row): seq<(Stage, Sample)> {
    match StageOf(prev)
    case Some(stage) => [(stage, SampleOf(p, prev, curr))]
    case None => []
  }

  /** All consecutive steps of one proposal's sorted rows. */
  function Steps(p: Id, sorted: seq<Row>): seq<(Stage, Sample)> {
    if |sorted| < 2 then [] else
    Steps(p, sorted[..|sorted| - 1]) + StepPair(p, sorted[|sorted| - 2], sorted[|sorted| - 1])
  }

  function Chronological(rows: seq<Row>): seq<Row> { SortBy(rows, Earlier) }

  function AllSteps(g: Groups<Id, Row>, keys: seq<Id>): seq<(Stage, Sample)> {
    if keys == [] then [] else
    var p := keys[|keys| - 1];
    AllSteps(g, keys[..|keys| - 1]) + Steps(p, Chronological(g.Get(p)))
  }

  function ByProposal(rows: seq<Row>): Groups<Id, Row> { Collect(Keyed(rows)) }

  function Pairs(rows: seq<Row>): seq<(Stage, Sample)> {
    AllSteps(ByProposal(rows), ByProposal(rows).keys)
  }

  /** `stage_durations`: the samples of each stage. */
  function Durations(rows: seq<Row>): Groups<Stage, Sample> { Collect(Pairs(rows)) }

  // ----- what is reported -----

  function SampleHours(s: Sample): real { s.hours }

  function One<T>(x: T): real { 1.0 }

  function HoursList(samples: seq<Sample>): seq<real> {
    seq(|samples|, i requires 0 <= i < |samples| => samples[i].hours)
  }

  /** Samples over the budget; a budget of zero counts as none. */
  function Breaches(samples: seq<Sample>, sla: Option<int>): nat {
    if samples == [] then 0 else
    var last := samples[|samples| - 1];
    Breaches(samples[..|samples| - 1], sla) +
    if sla.Some? && sla.value != 0 && last.hours > sla.value as real then 1 else 0
  }

  function MetricsFor(stage: Stage, samples: seq<Sample>, sla: Option<int>): StageMetrics
    requires samples != []
  {
    var n := |samples|;
    StageMetrics(stage, n, Mean(Sum(samples, SampleHours), n),
                 Percentile(HoursList(samples), 0.5), Percentile(HoursList(samples), 0.9),
                 Mean(Breaches(samples, sla) as real, n), sla,
                 seq(if n < 3 then n else 3, i requires 0 <= i < n => samples[i].proposal))
  }

  function Budget(sla: map<Stage, int>, stage: Stage): Option<int> {
    if stage in sla then Some(sla[stage]) else None
  }

  function MetricsOf(g: Groups<Stage, Sample>, sla: map<Stage, int>, keys: seq<Stage>): seq<StageMetrics>
    requires forall k | k in keys :: g.Get(k) != []
  {
    if keys == [] then [] else
    var k := keys[|keys| - 1];
    MetricsOf(g, sla, keys[..|keys| - 1]) + [MetricsFor(k, g.Get(k), Budget(sla, k))]
  }

  function Flatten(g: Groups<Stage, Sample>, keys: seq<Stage>): seq<Sample> {
    if keys == [] then [] else Flatten(g, keys[..|keys| - 1]) + g.Get(keys[|keys| - 1])
  }

  function ReportOf(g: Groups<Stage, Sample>, sla: map<Stage, int>): Report
    requires forall k | k in g.keys :: g.Get(k) != []
  {
    var metrics := SortBy(MetricsOf(g, sla, g.keys), Slower);
    var all := Flatten(g, g.keys);
    Report(metrics,
           if all == [] then 0.0 else Mean(Sum(all, SampleHours), |all|),
           if metrics == [] then None else Some(metrics[0].stage))
  }

  lemma DurationsValid(rows: seq<Row>)
    ensures ByProposal(rows).Valid() && Durations(rows).Valid()
    ensures forall k | k in Durations(rows).keys :: Durations(rows).Get(k) != []
  {
    CollectPartitions(Keyed(rows));
    CollectPartitions(Pairs(rows));
  }

  method GroupRows(rows: seq<Row>) returns (byProposal: Groups<Id, Row>)
    ensures byProposal == ByProposal(rows)
  {
    byProposal := Groups([], map[]);
    for i := 0 to |rows|
      invariant byProposal == ByProposal(rows[..i])
    {
      assert rows[..i + 1][..i] == rows[..i];
      var row := rows[i];
      if row.entity.Some? {
        CollectAppend(Keyed(rows[..i]), (row.entity.value, row));
        byProposal := byProposal.Append(row.entity.value, row);
      } else {
        assert Keyed(rows[..i + 1]) == Keyed(rows[..i]);
      }
    }
    assert rows[..|rows|] == rows;
  }

  lemma CollectStep(pairs: seq<(Stage, Sample)>, p: Id, sorted: seq<Row>, i: nat)
    requires 1 <= i < |sorted|
    ensures var stage, soFar := StageOf(sorted[i - 1]), Collect(pairs + Steps(p, sorted[..i]));
            Collect(pairs + Steps(p, sorted[..i + 1])) ==
            if stage.Some? then soFar.Append(stage.value, SampleOf(p, sorted[i - 1], sorted[i])) else soFar
  {
    assert sorted[..i + 1][..i] == sorted[..i];
    var done, more := Steps(p, sorted[..i]), StepPair(p, sorted[i - 1], sorted[i]);
    assert pairs + (done + more) == (pairs + done) + more;
    if more == [] {
      assert done + more == done;
    } else {
      CollectAppend(pairs + done, more[0]);
    }
  }

  /** The inner loop: one proposal's rows, sorted and differenced. */
  method AddSteps(before: Groups<Stage, Sample>, p: Id, rows: seq<Row>, ghost pairs: seq<(Stage, Sample)>)
    returns (durations: Groups<Stage, Sample>)
    requires before == Collect(pairs) && rows != []
    ensures durations == Collect(pairs + Steps(p, Chronological(rows)))
  {
    var sorted := Chronological(rows);
    SortPermutes(rows, Earlier);
    durations := before;
    assert pairs + Steps(p, sorted[..1]) == pairs;
    for i := 1 to |sorted|
      invariant durations == Collect(pairs + Steps(p, sorted[..i]))
    {
      CollectStep(pairs, p, sorted, i);
      var stage := StageOf(sorted[i - 1]);
      if stage.Some? {
        durations := durations.Append(stage.value, SampleOf(p, sorted[i - 1], sorted[i]));
      }
    }
    assert sorted[..|sorted|] == sorted;
  }

  method CollectSteps(byProposal: Groups<Id, Row>) returns (durations: Groups<Stage, Sample>)
    requires forall p | p in byProposal.keys :: byProposal.Get(p) != []
    ensures durations == Collect(AllSteps(byProposal, byProposal.keys))
  {
    var keys := byProposal.keys;
    durations := Groups([], map[]);
    for n := 0 to |keys|
      invariant durations == Collect(AllSteps(byProposal, keys[..n]))
    {
      assert keys[..n + 1][..n] == keys[..n];
      durations := AddSteps(durations, keys[n], byProposal.Get(keys[n]), AllSteps(byProposal, keys[..n]));
    }
    assert keys[..|keys|] == keys;
  }

  lemma MetricsGrow(g: Groups<Stage, Sample>, sla: map<Stage, int>, keys: seq<Stage>, i: nat)
    requires i < |keys| && forall k | k in keys :: g.Get(k) != []
    ensures MetricsOf(g, sla, keys[..i + 1]) ==
            MetricsOf(g, sla, keys[..i]) + [MetricsFor(keys[i], g.Get(keys[i]), Budget(sla, keys[i]))]
  {
    assert keys[..i + 1][..i] == keys[..i];
  }

  method Summarise(durations: Groups<Stage, Sample>, sla: map<Stage, int>) returns (metrics: seq<StageMetrics>)
    requires forall k | k in durations.keys :: durations.Get(k) != []
    ensures metrics == MetricsOf(durations, sla, durations.keys)
  {
    var keys := durations.keys;
    metrics := [];
    for i := 0 to |keys|
      invariant metrics == MetricsOf(durations, sla, keys[..i])
    {
      MetricsGrow(durations, sla, keys, i);
      metrics := metrics + [MetricsFor(keys[i], durations.Get(keys[i]), Budget(sla, keys[i]))];
    }
    assert keys[..|keys|] == keys;
  }

  /** The phases of `compute_throughput`, in its order: group, then sort and difference
      each proposal's rows, then summarise each stage, then sort the summaries. */
  method ComputeThroughput(rows: seq<Row>, sla: map<Stage, int>) returns (report: Report)
    ensures forall k | k in Durations(rows).keys :: Durations(rows).Get(k) != []
    ensures report == ReportOf(Durations(rows), sla)
  {
    DurationsValid(rows);
    var byProposal := GroupRows(rows);
    var durations := CollectSteps(byProposal);
    var metrics := Summarise(durations, sla);
    metrics := SortBy(metrics, Slower);
    var all := Flatten(durations, durations.keys);
    var overall := 0.0;
    if all != [] {
      overall := Mean(Sum(all, SampleHours), |all|);
    }
    report := Report(metrics, overall, if metrics == [] then None else Some(metrics[0].stage));
  }
}
