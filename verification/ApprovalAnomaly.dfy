/** `detect_sequential_self_approval` (decision_engine/anomaly_detection/approval_anomaly.py). */
module ApprovalAnomaly {
  import opened Options
  import opened Stages
  import L = Lifecycle

  type Id = L.Id
  type Status = L.Status

  datatype Record = Record(id: Id, approver: Option<Id>, stage: Stage, status: Status)

  datatype Anomaly = Anomaly(approval: Id, actor: Id, previousStage: Stage, currentStage: Stage)

  /** Bypasses are not decisions here. */
  predicate Decision(r: Record) {
    r.status in {L.Status.Approved, L.Status.Rejected, L.Status.Escalated}
  }

  /** A decision that has an actor. */
  predicate Decided(r: Record) {
    Decision(r) && r.approver.Some?
  }

  predicate DecidedBy(r: Record, actor: Id) {
    Decided(r) && r.approver == Some(actor)
  }

  /** Approvals, rejections and escalations are decisions. */
  lemma DecisionIs(r: Record)
    ensures Decision(r) <==> r.status != L.Status.Pending && r.status != L.Status.Bypassed
  {
  }

  /** The stage of the actor's latest decision. */
  function Previous(chain: seq<Record>, actor: Id): Option<Stage> {
    if chain == [] then None
    else if DecidedBy(chain[|chain| - 1], actor) then Some(chain[|chain| - 1].stage)
    else Previous(chain[..|chain| - 1], actor)
  }

  /** What the last record of a chain adds. */
  function Flag(before: seq<Record>, r: Record): seq<Anomaly> {
    if Decided(r) && Previous(before, r.approver.value).Some?
    then [Anomaly(r.id, r.approver.value, Previous(before, r.approver.value).value, r.stage)] else []
  }

  function Flags(chain: seq<Record>): seq<Anomaly> {
    if chain == [] then [] else Flags(chain[..|chain| - 1]) + Flag(chain[..|chain| - 1], chain[|chain| - 1])
  }

  method DetectSequentialSelfApproval(chain: seq<Record>) returns (results: seq<Anomaly>)
    ensures results == Flags(chain)
  {
    results := [];
    var seen: map<Id, Stage> := map[];
    for i := 0 to |chain|
      invariant results == Flags(chain[..i])
      invariant forall a: Id :: Previous(chain[..i], a) == if a in seen then Some(seen[a]) else None
    {
      var r := chain[i];
      assert chain[..i + 1][..i] == chain[..i];
      if r.status !in {L.Status.Approved, L.Status.Rejected, L.Status.Escalated} {
        assert Flag(chain[..i], r) == [];
        continue;
      }
      if r.approver.Some? && r.approver.value in seen {
        results := results + [Anomaly(r.id, r.approver.value, seen[r.approver.value], r.stage)];
      }
      if r.approver.Some? {
        seen := seen[r.approver.value := r.stage];
      }
    }
    assert chain[..|chain|] == chain;
  }

  // ----- what is flagged -----

  /** Decision `i` was taken by an actor who had decided before. */
  predicate Repeats(chain: seq<Record>, i: nat) {
    i < |chain| && Decided(chain[i]) && exists j | 0 <= j < i :: DecidedBy(chain[j], chain[i].approver.value)
  }

  /** The positions of the flagged records. */
  function Flagged(chain: seq<Record>): seq<nat> {
    if chain == [] then [] else
    var n := |chain| - 1;
    Flagged(chain[..n]) + if Flag(chain[..n], chain[n]) != [] then [n] else []
  }

  /** The actors of the decisions. */
  function Actors(chain: seq<Record>): set<Id> {
    if chain == [] then {} else
    Actors(chain[..|chain| - 1]) + if Decided(chain[|chain| - 1]) then {chain[|chain| - 1].approver.value} else {}
  }

  function Decisions(chain: seq<Record>): nat {
    if chain == [] then 0 else Decisions(chain[..|chain| - 1]) + if Decided(chain[|chain| - 1]) then 1 else 0
  }

  /** An actor has a previous stage iff there is a decision of that actor; it is the
      stage of the latest one. */
  lemma {:induction false} PreviousIsLatest(chain: seq<Record>, actor: Id)
    ensures Previous(chain, actor).None? <==> forall j | 0 <= j < |chain| :: !DecidedBy(chain[j], actor)
    ensures Previous(chain, actor).Some? ==>
              exists j | 0 <= j < |chain| :: DecidedBy(chain[j], actor) &&
                                        chain[j].stage == Previous(chain, actor).value
                                             && forall k | j < k < |chain| :: !DecidedBy(chain[k], actor)
    ensures Previous(chain, actor).Some? <==> actor in Actors(chain)
  {
    if chain != [] {
      var before := chain[..|chain| - 1];
      PreviousIsLatest(before, actor);
      assert forall j | 0 <= j < |before| :: before[j] == chain[j];
      if !DecidedBy(chain[|chain| - 1], actor) && Previous(before, actor).Some? {
        var j :| 0 <= j < |before| && DecidedBy(before[j], actor) && before[j].stage == Previous(before, actor).value
                 && forall k | j < k < |before| :: !DecidedBy(before[k], actor);
        assert DecidedBy(chain[j], actor) && forall k | j < k < |chain| :: !DecidedBy(chain[k], actor);
      }
    }
  }

  lemma LastFlagged(before: seq<Record>, r: Record)
    ensures Flag(before, r) != [] <==> Repeats(before + [r], |before|)
    ensures |Flag(before, r)| <= 1
  {
    if Decided(r) { PreviousIsLatest(before, r.approver.value); }
    assert forall j | 0 <= j < |before| :: (before + [r])[j] == before[j];
  }

  lemma RepeatsStays(chain: seq<Record>, r: Record, i: nat)
    requires i < |chain|
    ensures Repeats(chain + [r], i) <==> Repeats(chain, i)
  {
    assert forall j | 0 <= j < |chain| :: (chain + [r])[j] == chain[j];
  }

  /** Exactly the decisions whose actor had decided before are flagged. */
  lemma {:induction false} FlaggedExactly(chain: seq<Record>, i: nat)
    ensures i in Flagged(chain) <==> Repeats(chain, i)
  {
    if chain != [] {
      var n := |chain| - 1;
      FlaggedExactly(chain[..n], i);
      LastFlagged(chain[..n], chain[n]);
      assert chain == chain[..n] + [chain[n]];
      if i < n { RepeatsStays(chain[..n], chain[n], i); }
    }
  }

  /** The flag of record `i`: who decided it and where, and the stage of that actor's
      latest earlier decision. */
  ghost predicate FlagOf(chain: seq<Record>, i: nat, flag: Anomaly) {
    && i < |chain| && Decided(chain[i])
    && flag.approval == chain[i].id && Some(flag.actor) == chain[i].approver && flag.currentStage == chain[i].stage
    && exists j | 0 <= j < i :: DecidedBy(chain[j], flag.actor) && chain[j].stage == flag.previousStage
                                && forall k | j < k < i :: !DecidedBy(chain[k], flag.actor)
  }

  lemma LastFlagOf(before: seq<Record>, r: Record)
    requires Flag(before, r) != []
    ensures FlagOf(before + [r], |before|, Flag(before, r)[0])
  {
    var actor, chain := r.approver.value, before + [r];
    PreviousIsLatest(before, actor);
    var j :| 0 <= j < |before| && DecidedBy(before[j], actor) && before[j].stage == Previous(before, actor).value
             && forall k | j < k < |before| :: !DecidedBy(before[k], actor);
    assert DecidedBy(chain[j], actor) && forall k | j < k < |before| :: !DecidedBy(chain[k], actor);
  }

  lemma FlagOfStays(chain: seq<Record>, r: Record, i: nat, flag: Anomaly)
    requires FlagOf(chain, i, flag)
    ensures FlagOf(chain + [r], i, flag)
  {
    var more := chain + [r];
    var j :| 0 <= j < i && DecidedBy(chain[j], flag.actor) && chain[j].stage == flag.previousStage
             && forall k | j < k < i :: !DecidedBy(chain[k], flag.actor);
    assert DecidedBy(more[j], flag.actor) && forall k | j < k < i :: !DecidedBy(more[k], flag.actor);
  }

  /** One flag for each, in order, with all its columns. */
  lemma {:induction false} FlaggedInOrder(chain: seq<Record>)
    ensures |Flags(chain)| == |Flagged(chain)|
    ensures forall m | 0 <= m < |Flagged(chain)| :: FlagOf(chain, Flagged(chain)[m], Flags(chain)[m])
    ensures forall m, n | 0 <= m < n < |Flagged(chain)| :: Flagged(chain)[m] < Flagged(chain)[n]
  {
    if chain != [] {
      var n := |chain| - 1;
      var before, r := chain[..n], chain[n];
      FlaggedInOrder(before);
      LastFlagged(before, r);
      assert chain == before + [r];
      if Flag(before, r) != [] { LastFlagOf(before, r); }
      forall m | 0 <= m < |Flagged(before)| ensures FlagOf(chain, Flagged(before)[m], Flags(before)[m]) {
        FlagOfStays(before, r, Flagged(before)[m], Flags(before)[m]);
      }
    }
  }

  /** So there are as many flags as decisions beyond each actor's first. */
  lemma {:induction false} FlagCount(chain: seq<Record>)
    ensures |Flags(chain)| == Decisions(chain) - |Actors(chain)|
  {
    if chain != [] {
      var before, last := chain[..|chain| - 1], chain[|chain| - 1];
      FlagCount(before);
      if Decided(last) {
        PreviousIsLatest(before, last.approver.value);
        if last.approver.value in Actors(before) { assert Actors(chain) == Actors(before); }
      } else {
        assert Actors(chain) == Actors(before);
      }
    }
  }

  // ----- what the documentation promises -----

  /** The documentation: the same actor in consecutive stages, that is, the decision
      right before this one was the same actor's. */
  ghost predicate Consecutive(chain: seq<Record>, i: nat) {
    && i < |chain| && Decided(chain[i])
    && exists j: nat :: j < i && DecidedBy(chain[j], chain[i].approver.value) && NoDecision(chain, j + 1, i)
  }

  predicate NoDecision(chain: seq<Record>, from: nat, to: nat) {
    forall k | from <= k < to && k < |chain| :: !Decision(chain[k])
  }

  /** Nobody comes back after somebody else's decision. */
  ghost predicate Uninterrupted(chain: seq<Record>) {
    forall i: nat, j: nat, k: nat | i < j < k < |chain| && Returns(chain, i, j, k) ::
      DecidedBy(chain[j], chain[i].approver.value)
  }

  /** Records `i` and `k` are decisions of one actor, with the decision `j` between them. */
  predicate Returns(chain: seq<Record>, i: nat, j: nat, k: nat)
    requires i < j < k < |chain|
  {
    Decided(chain[i]) && Decision(chain[j]) && DecidedBy(chain[k], chain[i].approver.value)
  }

  lemma ConsecutiveRepeats(chain: seq<Record>, i: nat)
    requires Consecutive(chain, i)
    ensures Repeats(chain, i)
  {
  }

  /** The last decision in front of `i`. */
  lemma LastDecision(chain: seq<Record>, i: nat, j: nat) returns (last: nat)
    requires j < i < |chain| && Decision(chain[j])
    ensures j <= last < i && Decision(chain[last]) && NoDecision(chain, last + 1, i)
  {
    last := i - 1;
    while !Decision(chain[last])
      invariant j <= last < i && NoDecision(chain, last + 1, i)
      decreases last
    {
      last := last - 1;
    }
  }

  lemma UninterruptedConsecutive(chain: seq<Record>, i: nat)
    requires Uninterrupted(chain) && Repeats(chain, i)
    ensures Consecutive(chain, i)
  {
    var actor := chain[i].approver.value;
    var j: nat :| j < i && DecidedBy(chain[j], actor);
    var last := LastDecision(chain, i, j);
    assert DecidedBy(chain[last], actor) by {
      if j < last { assert Returns(chain, j, last, i); }
    }
  }

  /** The actor's first decision after `j`. */
  lemma FirstReturn(chain: seq<Record>, actor: Id, j: nat, k: nat) returns (first: nat)
    requires j < k < |chain| && DecidedBy(chain[k], actor)
    ensures j < first <= k && DecidedBy(chain[first], actor)
    ensures forall m | j < m < first :: !DecidedBy(chain[m], actor)
  {
    first := j + 1;
    while !DecidedBy(chain[first], actor)
      invariant j < first <= k
      invariant forall m | j < m < first :: !DecidedBy(chain[m], actor)
      decreases k - first
    {
      first := first + 1;
    }
  }

  lemma ReturnNotConsecutive(chain: seq<Record>, i: nat, j: nat, k: nat) returns (first: nat)
    requires i < j < k < |chain| && Returns(chain, i, j, k) && !DecidedBy(chain[j], chain[i].approver.value)
    ensures Repeats(chain, first) && !Consecutive(chain, first)
  {
    var actor := chain[i].approver.value;
    first := FirstReturn(chain, actor, j, k);
    assert DecidedBy(chain[i], actor);
    forall m: nat | m < first && DecidedBy(chain[m], actor) ensures !NoDecision(chain, m + 1, first) {
      assert m < j && Decision(chain[j]);
    }
  }

  /** The code flags what the documentation says exactly for the chains in which
      nobody decides again after somebody else did. */
  lemma DocumentedExactly(chain: seq<Record>)
    ensures (forall i: nat :: i in Flagged(chain) <==> Consecutive(chain, i)) <==> Uninterrupted(chain)
  {
    forall i: nat ensures i in Flagged(chain) <==> Repeats(chain, i) { FlaggedExactly(chain, i); }
    if Uninterrupted(chain) {
      forall i: nat ensures Repeats(chain, i) <==> Consecutive(chain, i) {
        if Repeats(chain, i) { UninterruptedConsecutive(chain, i); }
        if Consecutive(chain, i) { ConsecutiveRepeats(chain, i); }
      }
    } else {
      var i: nat, j: nat, k: nat :| i < j < k < |chain| && Returns(chain, i, j, k)
                                    && !DecidedBy(chain[j], chain[i].approver.value);
      var first := ReturnNotConsecutive(chain, i, j, k);
      assert first in Flagged(chain);
    }
  }

  /** The shortest such chain: one actor, another decision, the same actor again. */
  lemma ReturnIsFlagged(x: Record, y: Record, z: Record)
    requires Decided(x) && Decision(y) && y.approver != x.approver && DecidedBy(z, x.approver.value)
    ensures 2 in Flagged([x, y, z]) && !Consecutive([x, y, z], 2)
  {
    var chain := [x, y, z];
    assert DecidedBy(chain[0], x.approver.value) && Returns(chain, 0, 1, 2);
    FlaggedExactly(chain, 2);
    assert !DecidedBy(chain[1], x.approver.value) && Decision(chain[1]);
  }
}
