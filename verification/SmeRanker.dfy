/** The SME recommendation ranker (decision_engine/recommendations/sme_ranker.py). */
module SmeRanker {
  import opened Cardinality
  import opened Reals
  import opened Sorting

  type Tag(==) = nat
  type RawTag = string
  type Id = nat

  datatype Candidate = Candidate(id: Id, expertise: seq<RawTag>, workload: int)

  datatype Ranking = Ranking(id: Id, composite: real, expertiseMatch: real, workloadScore: real, success: real,
                             matching: set<Tag>, missing: set<Tag>)

  const MAX_WORKLOAD: int := 4

  /** `{tag.lower().strip() for tag in tags}`; the normalisation is a parameter. */
  function TagSet(norm: RawTag -> Tag, tags: seq<RawTag>): set<Tag> {
    set t | t in tags :: norm(t)
  }

  function Jaccard(a: set<Tag>, b: set<Tag>): real {
    if a + b == {} then 0.0 else |a * b| as real / |a + b| as real
  }

  function WorkloadScore(workload: int): real {
    var score := 1.0 - workload as real / MAX_WORKLOAD as real;
    if score > 0.0 then score else 0.0
  }

  function Composite(match_: real, workload: real, success: real): real {
    match_ * 0.45 + workload * 0.30 + success * 0.25
  }

  function Success(history: map<Id, real>, id: Id): real {
    if id in history then history[id] else 0.5
  }

  function Rank(norm: RawTag -> Tag, required: seq<RawTag>, history: map<Id, real>, c: Candidate): Ranking {
    var wanted, has := TagSet(norm, required), TagSet(norm, c.expertise);
    var m, w, h := Jaccard(wanted, has), WorkloadScore(c.workload), Success(history, c.id);
    Ranking(c.id, Composite(m, w, h), m, w, h, wanted * has, wanted - has)
  }

  function RankAll(norm: RawTag -> Tag, required: seq<RawTag>, history: map<Id, real>, cs: seq<Candidate>)
    : seq<Ranking> {
    if cs == [] then [] else
    RankAll(norm, required, history, cs[..|cs| - 1]) + [Rank(norm, required, history, cs[|cs| - 1])]
  }

  lemma RankAllGrows(norm: RawTag -> Tag, required: seq<RawTag>, history: map<Id, real>, cs: seq<Candidate>, i: nat)
    requires i < |cs|
    ensures RankAll(norm, required, history, cs[..i + 1]) ==
            RankAll(norm, required, history, cs[..i]) + [Rank(norm, required, history, cs[i])]
  {
    assert cs[..i + 1][..i] == cs[..i];
  }

  predicate Better(a: Ranking, b: Ranking) { a.composite >= b.composite }

  /** The loop of `rank_sme_candidates`, then its sort. */
  method RankSmeCandidates(norm: RawTag -> Tag, required: seq<RawTag>,
                          candidates: seq<Candidate>, history: map<Id, real>)
    returns (ranked: seq<Ranking>)
    ensures multiset(ranked) == multiset(RankAll(norm, required, history, candidates)) && |ranked| == |candidates|
    ensures Ordered(ranked, Better)
    ensures forall i, j | 0 <= i < j < |ranked| :: ranked[i].composite >= ranked[j].composite
    ensures forall r :: Ties(ranked, r, Better) == Ties(RankAll(norm, required, history, candidates), r, Better)
  {
    var wanted := TagSet(norm, required);
    ranked := [];
    for i := 0 to |candidates|
      invariant ranked == RankAll(norm, required, history, candidates[..i]) && |ranked| == i
    {
      RankAllGrows(norm, required, history, candidates, i);
      var c := candidates[i];
      var has := TagSet(norm, c.expertise);
      var m, w, h := Jaccard(wanted, has), WorkloadScore(c.workload), Success(history, c.id);
      ranked := ranked + [Ranking(c.id, Composite(m, w, h), m, w, h, wanted * has, wanted - has)];
    }
    assert candidates[..|candidates|] == candidates;
    RankingSorted(ranked);
    ranked := SortBy(ranked, Better);
  }

  lemma BetterPreorder()
    ensures TotalPreorder(Better)
  {
  }

  /** The sort puts higher composites first and keeps ties in order. */
  lemma RankingSorted(all: seq<Ranking>)
    ensures var ranked := SortBy(all, Better);
            && multiset(ranked) == multiset(all) && |ranked| == |all| && Ordered(ranked, Better)
            && (forall i, j | 0 <= i < j < |ranked| :: ranked[i].composite >= ranked[j].composite)
            && (forall r :: Ties(ranked, r, Better) == Ties(all, r, Better))
  {
    BetterPreorder();
    SortPermutes(all, Better);
    SortOrders(all, Better);
    var ranked := SortBy(all, Better);
    forall i, j | 0 <= i < j < |ranked| ensures ranked[i].composite >= ranked[j].composite {
      assert Better(ranked[i], ranked[j]);
    }
    forall r ensures Ties(ranked, r, Better) == Ties(all, r, Better) { SortStable(all, r, Better); }
  }

  lemma RatioInUnit(n: nat, d: nat)
    requires n <= d && 0 < d
    ensures 0.0 <= n as real / d as real <= 1.0
  {
  }

  lemma RatioGrows(n: nat, d: nat)
    requires 0 < d
    ensures n as real / d as real < (n + 1) as real / d as real
  {
  }

  lemma RatioShrinks(n: nat, d: nat)
    requires 0 < d
    ensures (n as real / (d + 1) as real) <= n as real / d as real
    ensures n > 0 ==> (n as real / (d + 1) as real) < n as real / d as real
  {
  }

  lemma JaccardInUnit(a: set<Tag>, b: set<Tag>)
    ensures 0.0 <= Jaccard(a, b) <= 1.0
  {
    if a + b != {} {
      SubsetSize(a * b, a + b);
      RatioInUnit(|a * b|, |a + b|);
    }
  }

  /** Every score lies between 0 and 1 for sensible inputs. */
  lemma {:induction false} CompositeInUnit(norm: RawTag -> Tag, required: seq<RawTag>, history: map<Id, real>,
                                        c: Candidate)
    requires c.workload >= 0 && 0.0 <= Success(history, c.id) <= 1.0
    ensures 0.0 <= Rank(norm, required, history, c).composite <= 1.0
  {
    JaccardInUnit(TagSet(norm, required), TagSet(norm, c.expertise));
  }

  lemma JaccardAddWanted(a: set<Tag>, b: set<Tag>, x: Tag)
    requires x in a && x !in b
    ensures Jaccard(a, b + {x}) > Jaccard(a, b)
  {
    assert a + (b + {x}) == a + b && a * (b + {x}) == a * b + {x} && x !in a * b;
    assert x in a + b;
    RatioGrows(|a * b|, |a + b|);
  }

  lemma JaccardAddOther(a: set<Tag>, b: set<Tag>, x: Tag)
    requires x !in a && x !in b
    ensures Jaccard(a, b + {x}) <= Jaccard(a, b)
    ensures a * b != {} ==> Jaccard(a, b + {x}) < Jaccard(a, b)
  {
    assert a + (b + {x}) == a + b + {x} && a * (b + {x}) == a * b && x !in a + b;
    if a + b != {} { RatioShrinks(|a * b|, |a + b|); }
  }

  /** What one more tag does to a candidate: a missing required tag raises the
      composite, a tag it has changes nothing, an unrequired tag never helps. */
  lemma {:induction false} ExtraTag(norm: RawTag -> Tag, required: seq<RawTag>, history: map<Id, real>,
                                   c: Candidate, tag: RawTag)
    ensures var before := Rank(norm, required, history, c);
            var after := Rank(norm, required, history, c.(expertise := c.expertise + [tag]));
            var wanted, has := TagSet(norm, required), TagSet(norm, c.expertise);
            && (norm(tag) in has ==> after == before)
            && (norm(tag) in wanted - has ==> after.composite > before.composite)
            && (norm(tag) !in wanted ==> after.composite <= before.composite)
            && (norm(tag) !in wanted + has && wanted * has != {} ==> after.composite < before.composite)
  {
    var wanted, has := TagSet(norm, required), TagSet(norm, c.expertise);
    var x := norm(tag);
    assert TagSet(norm, c.expertise + [tag]) == has + {x} by {
      forall t | t in c.expertise ensures norm(t) in TagSet(norm, c.expertise + [tag]) {
        assert t in c.expertise + [tag];
      }
      assert tag in c.expertise + [tag];
    }
    if x in has {
      assert has + {x} == has;
    } else if x in wanted {
      JaccardAddWanted(wanted, has, x);
    } else {
      JaccardAddOther(wanted, has, x);
    }
  }

  // ----- what a ranking says -----

  lemma {:induction false} RankAllAt(norm: RawTag -> Tag, required: seq<RawTag>, history: map<Id, real>,
                                     cs: seq<Candidate>)
    ensures |RankAll(norm, required, history, cs)| == |cs|
    ensures forall i | 0 <= i < |cs| :: RankAll(norm, required, history, cs)[i] == Rank(norm, required, history, cs[i])
  {
    if cs != [] {
      var before := cs[..|cs| - 1];
      RankAllAt(norm, required, history, before);
      assert forall i | 0 <= i < |before| :: before[i] == cs[i];
    }
  }

  /** Free capacity in quarters, none from four pieces of work on. */
  lemma WorkloadScoreIs(workload: int)
    ensures workload <= 4 ==> 4.0 * WorkloadScore(workload) == (4 - workload) as real
    ensures workload >= 4 ==> WorkloadScore(workload) == 0.0
  {
  }

  lemma JaccardIs(a: set<Tag>, b: set<Tag>)
    ensures Averages(Jaccard(a, b), |a + b|, |a * b| as real)
    ensures a == {} == b ==> Jaccard(a, b) == 0.0
  {
    if a + b == {} {
      assert a * b == {};
    } else {
      QuotientAverages(|a * b| as real, |a + b|);
    }
  }

  ghost predicate Describes(r: Ranking, wanted: set<Tag>, has: set<Tag>, success: real, c: Candidate) {
    && r.id == c.id && r.success == success
    && r.matching == wanted * has && r.missing == wanted - has
    && Averages(r.expertiseMatch, |wanted + has|, |r.matching| as real)
    && (wanted == {} == has ==> r.expertiseMatch == 0.0)
    && (c.workload <= 4 ==> 4.0 * r.workloadScore == (4 - c.workload) as real)
    && (c.workload >= 4 ==> r.workloadScore == 0.0)
  }

  lemma CompositeIs(match_: real, workload: real, success: real)
    ensures 20.0 * Composite(match_, workload, success) == 9.0 * match_ + 6.0 * workload + 5.0 * success
  {
  }

  /** Every column of a ranking: the share of all tags that match, the free capacity,
      the recorded success or a half, and 45, 30 and 25 percent of them. */
  lemma RankDescribes(norm: RawTag -> Tag, required: seq<RawTag>, history: map<Id, real>, c: Candidate)
    ensures var r := Rank(norm, required, history, c);
            var success := if c.id in history.Keys then history[c.id] else 0.5;
            && Describes(r, TagSet(norm, required), TagSet(norm, c.expertise), success, c)
            && 20.0 * r.composite == 9.0 * r.expertiseMatch + 6.0 * r.workloadScore + 5.0 * r.success
  {
    var r := Rank(norm, required, history, c);
    var wanted, has := TagSet(norm, required), TagSet(norm, c.expertise);
    assert r.expertiseMatch == Jaccard(wanted, has) && r.workloadScore == WorkloadScore(c.workload);
    assert Describes(r, wanted, has, Success(history, c.id), c) by {
      JaccardIs(wanted, has);
      WorkloadScoreIs(c.workload);
    }
    CompositeIs(r.expertiseMatch, r.workloadScore, r.success);
  }
}
