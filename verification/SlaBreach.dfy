/** The SLA breach predictor (decision_engine/predictors/sla_breach.py). */
module SlaBreach {
  import opened Reals
  import opened Sorting

  datatype Risk = Low | Medium | High | Critical

  datatype Factor = AlreadyBreached | TimeElapsed | PendingApprovals | SmeOverload

  datatype BreachScore = BreachScore(probability: real, hoursToBreach: real, risk: Risk, factors: seq<Factor>)

  function Classify(prob: real): Risk {
    if prob >= 0.80 then Critical else if prob >= 0.50 then High else if prob >= 0.20 then Medium else Low
  }

  function Level(r: Risk): nat {
    match r case Low => 0 case Medium => 1 case High => 2 case Critical => 3
  }

  function Hours(seconds: real): real { Max(0.0, seconds) / 3600.0 }

  function ElapsedRatio(elapsed: real, sla: int): real {
    if sla <= 0 then 1.0 else Min(1.0, elapsed / sla as real)
  }

  function Penalties(pending: int, workload: int): real {
    Min(pending as real * 0.12, 0.30) + Min((workload as real / 4.0) * 0.20, 0.20)
  }

  function Combined(ratio: real, penalties: real): real {
    Min(1.0, ratio * ratio + penalties)
  }

  /** The probability for an elapsed time in hours. */
  function Probability(elapsed: real, sla: int, pending: int, workload: int): real {
    if elapsed > sla as real then 1.0
    else Combined(ElapsedRatio(elapsed, sla), Penalties(pending, workload))
  }

  /** `seconds` is the time since the stage was entered. */
  method PredictBreach(seconds: real, sla: int, pending: int, workload: int) returns (score: BreachScore)
    ensures score.probability == Probability(Hours(seconds), sla, pending, workload)
    ensures score.risk == Classify(score.probability)
    ensures score.hoursToBreach == Max(0.0, sla as real - Hours(seconds))
    ensures AlreadyBreached in score.factors <==> Hours(seconds) > sla as real
    ensures TimeElapsed in score.factors <==> Hours(seconds) <= sla as real
    ensures PendingApprovals in score.factors <==> Hours(seconds) <= sla as real && pending != 0
    ensures SmeOverload in score.factors <==> Hours(seconds) <= sla as real && workload > 2
    ensures Distinct(score.factors)
  {
    var elapsed := Hours(seconds);
    var remaining := Max(0.0, sla as real - elapsed);
    if elapsed > sla as real {
      return BreachScore(1.0, 0.0, Critical, [AlreadyBreached]);
    }
    var ratio := ElapsedRatio(elapsed, sla);
    var probability := Combined(ratio, Penalties(pending, workload));
    var factors := [TimeElapsed];
    if pending != 0 {
      factors := factors + [PendingApprovals];
    }
    if workload > 2 {
      factors := factors + [SmeOverload];
    }
    score := BreachScore(probability, if elapsed > 0.0 then remaining else sla as real, Classify(probability), factors);
  }

  lemma CombinedMonotone(ratio: real, penalties: real, ratio': real, penalties': real)
    requires 0.0 <= ratio <= ratio' && 0.0 <= penalties <= penalties'
    ensures 0.0 <= Combined(ratio, penalties) <= Combined(ratio', penalties') <= 1.0
  {
  }

  lemma RatioMonotone(elapsed: real, later: real, sla: int)
    requires 0.0 <= elapsed <= later
    ensures 0.0 <= ElapsedRatio(elapsed, sla) <= ElapsedRatio(later, sla) <= 1.0
  {
  }

  lemma PenaltiesMonotone(pending: int, workload: int, pending': int, workload': int)
    requires 0 <= pending <= pending' && 0 <= workload <= workload'
    ensures 0.0 <= Penalties(pending, workload) <= Penalties(pending', workload')
  {
  }

  /** The probability stays between 0 and 1 and never falls when more time has
      passed, more approvals are pending or the SME has more work, also across the
      point where the budget runs out; so does the risk level. */
  lemma BreachMonotone(elapsed: real, sla: int, pending: int, workload: int,
                         elapsed': real, pending': int, workload': int)
    requires 0.0 <= elapsed <= elapsed' && 0 <= pending <= pending' && 0 <= workload <= workload'
    ensures var p, p' := Probability(elapsed, sla, pending, workload), Probability(elapsed', sla, pending', workload');
            0.0 <= p <= p' <= 1.0 && Level(Classify(p)) <= Level(Classify(p'))
  {
    RatioMonotone(elapsed, elapsed', sla);
    PenaltiesMonotone(pending, workload, pending', workload');
    CombinedMonotone(ElapsedRatio(elapsed, sla), Penalties(pending, workload),
                     ElapsedRatio(elapsed', sla), Penalties(pending', workload'));
  }

  /** Certainty is reached when the budget is used up, breached or not. */
  lemma CertainAtTheLimit(elapsed: real, sla: int, pending: int, workload: int)
    requires 0.0 <= elapsed && 0 <= pending && 0 <= workload && elapsed >= sla as real
    ensures Probability(elapsed, sla, pending, workload) == 1.0
  {
  }

  /** A breach is certain to be critical; before it the risk level counts the marks
      0.2, 0.5 and 0.8 that the probability has reached. */
  lemma RiskMarks(prob: real)
    ensures Level(Classify(prob)) ==
            (if prob >= 0.2 then 1 else 0) + (if prob >= 0.5 then 1 else 0) + (if prob >= 0.8 then 1 else 0)
  {
  }

  /** The square of the used share of a positive budget is the probability by itself. */
  lemma UsedShare(elapsed: real, sla: int, share: real)
    requires sla > 0 && 0.0 <= elapsed <= sla as real && share * sla as real == elapsed
    ensures Probability(elapsed, sla, 0, 0) == share * share && share <= 1.0
  {
    ShareIs(elapsed, sla as real, share);
    assert ElapsedRatio(elapsed, sla) == share;
    assert Penalties(0, 0) == 0.0;
    ShareSquared(share);
  }

  lemma ShareIs(elapsed: real, sla: real, share: real)
    requires sla > 0.0 && 0.0 <= elapsed <= sla && share * sla == elapsed
    ensures elapsed / sla == share && 0.0 <= share <= 1.0
  {
    var quotient := elapsed / sla;
    assert quotient * sla == elapsed;
    if quotient < share { TimesLess(quotient, share, sla); }
    if share < quotient { TimesLess(share, quotient, sla); }
    if share < 0.0 { TimesLess(share, 0.0, sla); }
    if share > 1.0 { TimesLess(1.0, share, sla); }
  }

  lemma ShareSquared(share: real)
    requires 0.0 <= share <= 1.0
    ensures 0.0 <= share * share <= 1.0
  {
    if share == 0.0 || share == 1.0 {
      assert share * share == share;
    } else {
      TimesLess(0.0, share, share);
      TimesLess(share, 1.0, share);
    }
  }

  /** What pending approvals and the SME's workload add: 0.12 for each approval up to
      0.3, and 0.05 for each proposal up to 0.2, until certainty is reached. */
  lemma PenaltiesAdd(elapsed: real, sla: int, pending: nat, workload: nat)
    requires 0.0 <= elapsed <= sla as real
    ensures var approvals := if pending >= 3 then 0.3 else [0.0, 0.12, 0.24][pending];
            var load := if workload >= 4 then 0.2 else workload as real * 0.05;
            Probability(elapsed, sla, pending, workload) == Min(1.0, Probability(elapsed, sla, 0, 0) + approvals + load)
  {
    var ratio := ElapsedRatio(elapsed, sla);
    RatioMonotone(elapsed, elapsed, sla);
    ShareSquared(ratio);
  }

  /** Seconds in hours; a stage entered in the future has taken no time. */
  lemma HoursIs(seconds: real)
    ensures seconds >= 0.0 ==> 3600.0 * Hours(seconds) == seconds
    ensures seconds <= 0.0 ==> Hours(seconds) == 0.0
  {
  }
}
