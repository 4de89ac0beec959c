/** What the throughput report conserves, and how it is laid out. */
module ThroughputLaws {
  import opened Options
  import opened Stages
  import opened Sorting
  import opened Groups
  import opened Throughput

  /** Rows with the columns the reconstruction needs. */
  predicate Complete(rows: seq<Row>) {
    forall r | r in rows :: r.entity.Some? && StageOf(r).Some?
  }

  /** The first and the last time of a proposal's rows, found without sorting. */
  function Earliest(rows: seq<Row>): Time
    requires rows != []
  {
    if |rows| == 1 then rows[0].at else
    var t := Earliest(rows[1..]); if rows[0].at <= t then rows[0].at else t
  }

  function Latest(rows: seq<Row>): Time
    requires rows != []
  {
    if |rows| == 1 then rows[0].at else
    var t := Latest(rows[1..]); if rows[0].at >= t then rows[0].at else t
  }

  lemma {:induction false} EarliestIsLeast(rows: seq<Row>)
    requires rows != []
    ensures (forall r | r in rows :: Earliest(rows) <= r.at <= Latest(rows))
    ensures (exists r :: r in rows && r.at == Earliest(rows)) && (exists r :: r in rows && r.at == Latest(rows))
  {
    assert rows[0] in rows;
    if |rows| > 1 {
      EarliestIsLeast(rows[1..]);
      assert forall r :: r in rows <==> r == rows[0] || r in rows[1..];
    }
  }

  /** The transitions of all proposals that end a measured stay. */
  function MovesCompleted(g: Groups<Id, Row>, keys: seq<Id>): int {
    if keys == [] then 0 else MovesCompleted(g, keys[..|keys| - 1]) + |g.Get(keys[|keys| - 1])| - 1
  }

  /** First to last transition, summed over the proposals. */
  function CycleHours(g: Groups<Id, Row>, keys: seq<Id>): real
    requires forall p | p in keys :: g.Get(p) != []
  {
    if keys == [] then 0.0 else
    var rows := g.Get(keys[|keys| - 1]);
    CycleHours(g, keys[..|keys| - 1]) + Hours(Latest(rows) - Earliest(rows))
  }

  lemma StepTotal(p: Id, prev: Row, curr: Row, start: int)
    requires StageOf(prev).Some? && prev.at <= curr.at
    ensures |StepPair(p, prev, curr)| == 1
    ensures Hours(prev.at - start) + TotalOf(StepPair(p, prev, curr), SampleHours) == Hours(curr.at - start)
  {
  }

  lemma OrderedPrefix(sorted: seq<Row>)
    requires |sorted| > 1 && Ordered(sorted, Earlier) && Complete(sorted)
    ensures var before := sorted[..|sorted| - 1]; Ordered(before, Earlier) && Complete(before)
    ensures Earlier(sorted[|sorted| - 2], sorted[|sorted| - 1]) && StageOf(sorted[|sorted| - 2]).Some?
  {
    var before := sorted[..|sorted| - 1];
    assert forall i | 0 <= i < |before| :: before[i] == sorted[i];
    assert sorted[|sorted| - 2] in sorted;
  }

  /** Telescoping: the steps of one proposal count its rows and span its time. */
  lemma {:induction false} StepsTelescope(p: Id, sorted: seq<Row>)
    requires sorted != [] && Ordered(sorted, Earlier) && Complete(sorted)
    ensures |Steps(p, sorted)| == |sorted| - 1
    ensures TotalOf(Steps(p, sorted), SampleHours) == Hours(sorted[|sorted| - 1].at - sorted[0].at)
  {
    var n := |sorted|;
    if n > 1 {
      var before, prev, curr := sorted[..n - 1], sorted[n - 2], sorted[n - 1];
      OrderedPrefix(sorted);
      StepsTelescope(p, before);
      StepTotal(p, prev, curr, sorted[0].at);
      TotalOfAppend(Steps(p, before), StepPair(p, prev, curr), SampleHours);
    }
  }

  lemma EarlierPreorder()
    ensures TotalPreorder(Earlier)
  {
  }

  lemma SortedEnds(sorted: seq<Row>, r: Row)
    requires Ordered(sorted, Earlier) && r in sorted
    ensures sorted[0].at <= r.at <= sorted[|sorted| - 1].at
  {
  }

  lemma SortedSame(rows: seq<Row>)
    ensures var sorted := Chronological(rows);
            |sorted| == |rows| && Ordered(sorted, Earlier) && (forall r :: r in sorted <==> r in rows)
  {
    EarlierPreorder();
    SortOrders(rows, Earlier);
    SortPermutes(rows, Earlier);
    forall r ensures r in Chronological(rows) <==> r in rows { SortMembers(rows, Earlier, r); }
  }

  lemma SortedFirst(rows: seq<Row>)
    requires rows != []
    ensures Chronological(rows) != [] && Chronological(rows)[0].at == Earliest(rows)
  {
    var sorted := Chronological(rows);
    SortedSame(rows);
    EarliestIsLeast(rows);
    var first :| first in rows && first.at == Earliest(rows);
    SortedEnds(sorted, first);
    assert sorted[0] in sorted;
  }

  lemma SortedLast(rows: seq<Row>)
    requires rows != []
    ensures |Chronological(rows)| == |rows| && Chronological(rows)[|rows| - 1].at == Latest(rows)
  {
    var sorted := Chronological(rows);
    SortedSame(rows);
    EarliestIsLeast(rows);
    var last :| last in rows && last.at == Latest(rows);
    SortedEnds(sorted, last);
    assert sorted[|rows| - 1] in sorted;
  }

  lemma SortedSpan(rows: seq<Row>)
    requires rows != []
    ensures var sorted := Chronological(rows);
            && |sorted| == |rows| && Ordered(sorted, Earlier)
            && sorted[0].at == Earliest(rows) && sorted[|rows| - 1].at == Latest(rows)
            && (forall r :: r in sorted <==> r in rows)
  {
    SortedSame(rows);
    SortedFirst(rows);
    SortedLast(rows);
  }

  lemma {:induction false} StepsConserve(g: Groups<Id, Row>, keys: seq<Id>)
    requires forall p | p in keys :: g.Get(p) != [] && Complete(g.Get(p))
    ensures |AllSteps(g, keys)| == MovesCompleted(g, keys)
    ensures TotalOf(AllSteps(g, keys), SampleHours) == CycleHours(g, keys)
  {
    if keys != [] {
      var p := keys[|keys| - 1];
      StepsConserve(g, keys[..|keys| - 1]);
      SortedSpan(g.Get(p));
      StepsTelescope(p, Chronological(g.Get(p)));
      TotalOfAppend(AllSteps(g, keys[..|keys| - 1]), Steps(p, Chronological(g.Get(p))), SampleHours);
    }
  }

  lemma {:induction false} KeyedComplete(rows: seq<Row>, p: Id)
    requires Complete(rows)
    ensures Complete(Values(Keyed(rows), p))
  {
    if rows != [] {
      KeyedComplete(rows[..|rows| - 1], p);
      assert rows[|rows| - 1] in rows;
      assert Keyed(rows) == Keyed(rows[..|rows| - 1]) + [(rows[|rows| - 1].entity.value, rows[|rows| - 1])];
      ValuesAppend(Keyed(rows[..|rows| - 1]), [(rows[|rows| - 1].entity.value, rows[|rows| - 1])], p);
    }
  }

  // ----- the report -----

  function Count(m: StageMetrics): real { m.count as real }

  function TotalTime(m: StageMetrics): real { m.count as real * m.avg }

  lemma {:induction false} SumOnes<T>(s: seq<T>)
    ensures Sum(s, One) == |s| as real
  {
    if s != [] { SumOnes(s[1..]); }
  }

  lemma TimeOfMean(m: StageMetrics, total: real)
    requires m.count > 0 && m.avg == Mean(total, m.count)
    ensures TotalTime(m) == total
  {
  }

  lemma MetricsCountsStep(metrics: seq<StageMetrics>, m: StageMetrics, samples: seq<Sample>)
    requires m.count == |samples|
    ensures Sum(metrics + [m], Count) == Sum(metrics, Count) + Sum(samples, One)
  {
    SumAppend(metrics, [m], Count);
    SumOnes(samples);
    assert [m][1..] == [];
  }

  lemma MetricsTimesStep(metrics: seq<StageMetrics>, m: StageMetrics, samples: seq<Sample>)
    requires m.count == |samples| > 0 && m.avg == Mean(Sum(samples, SampleHours), m.count)
    ensures Sum(metrics + [m], TotalTime) == Sum(metrics, TotalTime) + Sum(samples, SampleHours)
  {
    SumAppend(metrics, [m], TotalTime);
    TimeOfMean(m, Sum(samples, SampleHours));
    assert [m][1..] == [];
  }

  lemma {:induction false} MetricsCounts(g: Groups<Stage, Sample>, sla: map<Stage, int>, keys: seq<Stage>)
    requires forall k | k in keys :: g.Get(k) != []
    ensures Sum(MetricsOf(g, sla, keys), Count) == TotalOver(g, keys, One)
  {
    if keys != [] {
      var before, k := keys[..|keys| - 1], keys[|keys| - 1];
      assert keys == before + [k];
      MetricsCounts(g, sla, before);
      MetricsCountsStep(MetricsOf(g, sla, before), MetricsFor(k, g.Get(k), Budget(sla, k)), g.Get(k));
      TotalOverAppend(g, before, k, One);
    }
  }

  lemma {:induction false} MetricsTimes(g: Groups<Stage, Sample>, sla: map<Stage, int>, keys: seq<Stage>)
    requires forall k | k in keys :: g.Get(k) != []
    ensures Sum(MetricsOf(g, sla, keys), TotalTime) == TotalOver(g, keys, SampleHours)
  {
    if keys != [] {
      var before, k := keys[..|keys| - 1], keys[|keys| - 1];
      assert keys == before + [k];
      MetricsTimes(g, sla, before);
      MetricsTimesStep(MetricsOf(g, sla, before), MetricsFor(k, g.Get(k), Budget(sla, k)), g.Get(k));
      TotalOverAppend(g, before, k, SampleHours);
    }
  }

  lemma {:induction false} FlattenTotals(g: Groups<Stage, Sample>, keys: seq<Stage>, weight: Sample -> real)
    ensures Sum(Flatten(g, keys), weight) == TotalOver(g, keys, weight)
  {
    if keys != [] {
      var before, k := keys[..|keys| - 1], keys[|keys| - 1];
      assert keys == before + [k];
      assert Sum(Flatten(g, before), weight) == TotalOver(g, before, weight) by { FlattenTotals(g, before, weight); }
      SumAppend(Flatten(g, before), g.Get(k), weight);
      TotalOverAppend(g, before, k, weight);
    }
  }

  lemma {:induction false} TotalOnes<K(!new), V>(pairs: seq<(K, V)>)
    ensures TotalOf(pairs, One) == |pairs| as real
  {
    if pairs != [] { TotalOnes(pairs[..|pairs| - 1]); }
  }

  /** Conservation.  Over complete rows the stage counts add up to the transitions
      that end a stay, the stage times add up to the time from each proposal's first
      to its last transition, and the overall average is that time over that count. */
  lemma ThroughputConserves(rows: seq<Row>, sla: map<Stage, int>)
    requires Complete(rows)
    ensures forall k | k in Durations(rows).keys :: Durations(rows).Get(k) != []
    ensures forall p | p in ByProposal(rows).keys :: ByProposal(rows).Get(p) != []
    ensures var report, g := ReportOf(Durations(rows), sla), ByProposal(rows);
            var moves, hours := MovesCompleted(g, g.keys) as real, CycleHours(g, g.keys);
            && Sum(report.metrics, Count) == moves
            && Sum(report.metrics, TotalTime) == hours
            && report.overall == if moves == 0.0 then 0.0 else hours / moves
  {
    DurationsValid(rows);
    var durations, g := Durations(rows), ByProposal(rows);
    CollectPartitions(Keyed(rows));
    forall p | p in g.keys ensures Complete(g.Get(p)) { KeyedComplete(rows, p); }
    StepsConserve(g, g.keys);
    CollectConserves(Pairs(rows), SampleHours);
    CollectConserves(Pairs(rows), One);
    TotalOnes(Pairs(rows));
    MetricsCounts(durations, sla, durations.keys);
    MetricsTimes(durations, sla, durations.keys);
    FlattenTotals(durations, durations.keys, SampleHours);
    FlattenTotals(durations, durations.keys, One);
    SumOnes(Flatten(durations, durations.keys));
    SumSort(MetricsOf(durations, sla, durations.keys), Slower, Count);
    SumSort(MetricsOf(durations, sla, durations.keys), Slower, TotalTime);
  }

  lemma {:induction false} MetricsEntry(g: Groups<Stage, Sample>, sla: map<Stage, int>, keys: seq<Stage>, i: nat)
    requires i < |keys| && forall k | k in keys :: g.Get(k) != []
    ensures |MetricsOf(g, sla, keys)| == |keys|
    ensures MetricsOf(g, sla, keys)[i] == MetricsFor(keys[i], g.Get(keys[i]), Budget(sla, keys[i]))
  {
    MetricsLength(g, sla, keys);
    MetricsLength(g, sla, keys[..|keys| - 1]);
    if i < |keys| - 1 { MetricsEntry(g, sla, keys[..|keys| - 1], i); }
  }

  lemma {:induction false} MetricsLength(g: Groups<Stage, Sample>, sla: map<Stage, int>, keys: seq<Stage>)
    requires forall k | k in keys :: g.Get(k) != []
    ensures |MetricsOf(g, sla, keys)| == |keys|
  {
    if keys != [] { MetricsLength(g, sla, keys[..|keys| - 1]); }
  }

  lemma MetricsEntries(g: Groups<Stage, Sample>, sla: map<Stage, int>, m: StageMetrics)
    requires forall k | k in g.keys :: g.Get(k) != []
    ensures m in MetricsOf(g, sla, g.keys) <==>
                m.stage in g.keys && m == MetricsFor(m.stage, g.Get(m.stage), Budget(sla, m.stage))
  {
    MetricsLength(g, sla, g.keys);
    if m in MetricsOf(g, sla, g.keys) {
      var i :| 0 <= i < |g.keys| && MetricsOf(g, sla, g.keys)[i] == m;
      MetricsEntry(g, sla, g.keys, i);
    }
    if m.stage in g.keys {
      var i :| 0 <= i < |g.keys| && g.keys[i] == m.stage;
      MetricsEntry(g, sla, g.keys, i);
    }
  }

  /** Layout.  The report has exactly one entry per measured stage, the one computed
      from that stage's samples, and slower stages come first. */
  lemma ReportLayout(rows: seq<Row>, sla: map<Stage, int>, m: StageMetrics)
    ensures forall k | k in Durations(rows).keys :: Durations(rows).Get(k) != []
    ensures var g, metrics := Durations(rows), ReportOf(Durations(rows), sla).metrics;
            && |metrics| == |g.keys| && Ordered(metrics, Slower)
            && (m in metrics <==> m.stage in g.keys && m == MetricsFor(m.stage, g.Get(m.stage), Budget(sla, m.stage)))
  {
    DurationsValid(rows);
    var g := Durations(rows);
    var unsorted := MetricsOf(g, sla, g.keys);
    MetricsEntries(g, sla, m);
    MetricsLength(g, sla, g.keys);
    SortPermutes(unsorted, Slower);
    SortMembers(unsorted, Slower, m);
    SlowerPreorder();
    SortOrders(unsorted, Slower);
  }

  lemma SlowerPreorder()
    ensures TotalPreorder(Slower)
  {
  }

  /** The bottleneck is a measured stage with the greatest average time. */
  lemma BottleneckIsSlowest(rows: seq<Row>, sla: map<Stage, int>)
    ensures forall k | k in Durations(rows).keys :: Durations(rows).Get(k) != []
    ensures var report := ReportOf(Durations(rows), sla);
            && (report.topBottleneck.None? <==> report.metrics == [])
            && (report.metrics != [] ==>
                  && report.topBottleneck == Some(report.metrics[0].stage)
                  && forall m | m in report.metrics :: report.metrics[0].avg >= m.avg)
  {
    DurationsValid(rows);
    SlowerPreorder();
    SortOrders(MetricsOf(Durations(rows), sla, Durations(rows).keys), Slower);
    var metrics := ReportOf(Durations(rows), sla).metrics;
    forall m | m in metrics ensures metrics[0].avg >= m.avg {
      var i :| 0 <= i < |metrics| && metrics[i] == m;
      assert i == 0 || Slower(metrics[0], metrics[i]);
    }
  }
}
