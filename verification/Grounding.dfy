/** The grounding validator and its hard gate (copilot_engine/grounding/validator.py).
    The regular expressions are parameters; all that is asked of them is that blank
    text holds neither a citation nor a word. */
module Grounding {
  import opened Cardinality
  import opened Reals
  import opened Text

  const HARD_MIN: real := 0.35

  datatype Pattern = Pattern(matches: string -> bool, message: string)

  datatype Matcher = Matcher(cites: string -> bool, words: string -> set<string>, fabrications: seq<Pattern>) {
    ghost predicate Valid() {
      forall t: string | Blank(t) :: !cites(t) && words(t) == {}
    }
  }

  datatype Warning = NoContext | CitationRequired

  datatype Report = Report(score: real, hasCitations: bool, overlap: real, flags: seq<string>, warnings: seq<Warning>)

  function Join(parts: seq<string>, separator: string): string {
    if parts == [] then "" else if |parts| == 1 then parts[0]
    else parts[0] + separator + Join(parts[1..], separator)
  }

  function Shared(m: Matcher, text: string, chunks: seq<string>): set<string> {
    m.words(text) * m.words(Join(chunks, " "))
  }

  function Overlap(m: Matcher, text: string, chunks: seq<string>): real {
    if Join(chunks, " ") == "" || m.words(text) == {} then 0.0
    else |Shared(m, text, chunks)| as real / |m.words(text)| as real
  }

  function Flags(patterns: seq<Pattern>, text: string): seq<string> {
    if patterns == [] then [] else
    var last := patterns[|patterns| - 1];
    Flags(patterns[..|patterns| - 1], text) + if last.matches(text) then [last.message] else []
  }

  /** `round(x, 3)`: to the nearest thousandth, ties to even. */
  function Round3(x: real): real {
    var y := x * 1000.0;
    var n := y.Floor;
    var up := y - n as real > 0.5 || (y - n as real == 0.5 && n % 2 == 1);
    (if up then n + 1 else n) as real / 1000.0
  }

  function Score(hasCitations: bool, overlap: real, flags: nat): real {
    var raw := (if hasCitations then 0.3 else 0.0) + Min(overlap * 0.7, 0.7) - flags as real * 0.1;
    Round3(Max(0.0, Min(1.0, raw)))
  }

  /** `validate_grounding(..., require_citations=True)`. */
  function Validated(m: Matcher, text: string, chunks: seq<string>): Report {
    var overlap, flags := Overlap(m, text, chunks), Flags(m.fabrications, text);
    Report(Score(m.cites(text), overlap, |flags|), m.cites(text), overlap, flags,
           (if chunks == [] then [NoContext] else []) + if m.cites(text) then [] else [CitationRequired])
  }

  method ValidateGrounding(m: Matcher, text: string, chunks: seq<string>) returns (report: Report)
    ensures report == Validated(m, text, chunks)
  {
    var hasCitations := m.cites(text);
    var overlap := 0.0;
    var contextText := Join(chunks, " ");
    if contextText != "" {
      var contextWords, responseWords := m.words(contextText), m.words(text);
      if responseWords != {} {
        overlap := |responseWords * contextWords| as real / |responseWords| as real;
      }
    }
    var flags := [];
    for i := 0 to |m.fabrications|
      invariant flags == Flags(m.fabrications[..i], text)
    {
      assert m.fabrications[..i + 1][..i] == m.fabrications[..i];
      if m.fabrications[i].matches(text) {
        flags := flags + [m.fabrications[i].message];
      }
    }
    assert m.fabrications[..|m.fabrications|] == m.fabrications;
    var warnings: seq<Warning> := [];
    if chunks == [] {
      warnings := warnings + [NoContext];
    }
    if !hasCitations {
      warnings := warnings + [CitationRequired];
    }
    report := Report(Score(hasCitations, overlap, |flags|), hasCitations, overlap, flags, warnings);
  }

  predicate PassesHardGate(report: Report, minScore: real, allowEmptyContext: bool) {
    && (allowEmptyContext || NoContext !in report.warnings)
    && report.flags == []
    && report.score >= minScore
  }

  /** The gate of the drafting graph. */
  predicate Grounded(m: Matcher, text: string, chunks: seq<string>) {
    PassesHardGate(Validated(m, text, chunks), HARD_MIN, false)
  }

  /** Rounding comes before the comparison, so the gate starts at 0.3495. */
  lemma {:induction false} RoundedThreshold(x: real)
    ensures Round3(x) >= HARD_MIN <==> x >= 0.3495
  {
    var y := x * 1000.0;
    var n := y.Floor;
    if y >= 349.5 {
      assert n >= 349;
      assert n == 349 ==> n % 2 == 1;
    } else {
      assert n <= 349;
    }
  }

  lemma ScoreThreshold(hasCitations: bool, overlap: real)
    requires 0.0 <= overlap <= 1.0
    ensures Score(hasCitations, overlap, 0) >= HARD_MIN <==>
            (if hasCitations then 0.3 else 0.0) + overlap * 0.7 >= 0.3495
  {
  }

  lemma RatioThreshold(shared: nat, all: nat, bound: real)
    requires 0 < all && shared <= all
    ensures 0.0 <= shared as real / all as real <= 1.0
    ensures shared as real / all as real * 0.7 >= bound <==> shared as real * 0.7 >= bound * all as real
  {
  }

  /** What it takes to pass, in whole words: some context, no fabrication flag, and
      enough of the response's words in the context. */
  lemma GroundedExactly(m: Matcher, text: string, chunks: seq<string>)
    ensures Grounded(m, text, chunks) <==>
            && chunks != []
            && Flags(m.fabrications, text) == []
            && Join(chunks, " ") != "" && m.words(text) != {}
            && 7000 * |Shared(m, text, chunks)| >= (if m.cites(text) then 495 else 3495) * |m.words(text)|
  {
    var all, shared := |m.words(text)|, |Shared(m, text, chunks)|;
    SubsetSize(Shared(m, text, chunks), m.words(text));
    if Join(chunks, " ") == "" || m.words(text) == {} {
      ScoreThreshold(m.cites(text), 0.0);
    } else {
      RatioThreshold(shared, all, if m.cites(text) then 0.0495 else 0.3495);
      ScoreThreshold(m.cites(text), Overlap(m, text, chunks));
    }
  }

  /** Passing text has a word of the context in it, so it is not blank. */
  lemma {:induction false} GroundedNotBlank(m: Matcher, text: string, chunks: seq<string>)
    requires m.Valid() && Grounded(m, text, chunks)
    ensures !Blank(text) && Shared(m, text, chunks) != {}
  {
    GroundedExactly(m, text, chunks);
  }

  // ----- what a report says -----

  /** To the nearest thousandth, in the middle to the even one. */
  lemma RoundsToNearest(x: real) returns (n: int)
    ensures 1000.0 * Round3(x) == n as real
    ensures n as real - 0.5 <= 1000.0 * x <= n as real + 0.5
    ensures 1000.0 * x == n as real - 0.5 || 1000.0 * x == n as real + 0.5 ==> n % 2 == 0
  {
    var y := x * 1000.0;
    var floor := y.Floor;
    var up := y - floor as real > 0.5 || (y - floor as real == 0.5 && floor % 2 == 1);
    n := if up then floor + 1 else floor;
  }

  /** Ten times the score before rounding: three for citations, seven for full overlap,
      and one less for each flag, but never less than nothing. */
  function Tenths(cited: bool, overlap: real, flags: nat): real {
    Max(0.0, (if cited then 3.0 else 0.0) + 7.0 * overlap - flags as real)
  }

  lemma ScoreRounds(cited: bool, overlap: real, flags: nat)
    requires 0.0 <= overlap <= 1.0
    ensures Score(cited, overlap, flags) == Round3(Tenths(cited, overlap, flags) / 10.0)
  {
  }

  lemma OverlapIs(m: Matcher, text: string, chunks: seq<string>)
    ensures 0.0 <= Overlap(m, text, chunks) <= 1.0
    ensures Join(chunks, " ") != "" ==>
              Averages(Overlap(m, text, chunks), |m.words(text)|, |Shared(m, text, chunks)| as real)
    ensures Join(chunks, " ") == "" || m.words(text) == {} ==> Overlap(m, text, chunks) == 0.0
  {
    if Join(chunks, " ") != "" && m.words(text) != {} {
      SubsetSize(Shared(m, text, chunks), m.words(text));
      RatioThreshold(|Shared(m, text, chunks)|, |m.words(text)|, 0.0);
      QuotientAverages(|Shared(m, text, chunks)| as real, |m.words(text)|);
    } else if m.words(text) == {} {
      assert Shared(m, text, chunks) == {};
    }
  }

  /** The patterns that match, by position. */
  function Matching(patterns: seq<Pattern>, text: string): seq<nat> {
    if patterns == [] then [] else
    var n := |patterns| - 1;
    Matching(patterns[..n], text) + if patterns[n].matches(text) then [n] else []
  }

  lemma {:induction false} MatchingAre(patterns: seq<Pattern>, text: string)
    ensures forall i: nat :: i in Matching(patterns, text) <==> i < |patterns| && patterns[i].matches(text)
    ensures forall j, k | 0 <= j < k < |Matching(patterns, text)| ::
              Matching(patterns, text)[j] < Matching(patterns, text)[k]
  {
    if patterns != [] {
      var n := |patterns| - 1;
      MatchingAre(patterns[..n], text);
      assert forall j | 0 <= j < |Matching(patterns[..n], text)| ::
          Matching(patterns[..n], text)[j] in Matching(patterns[..n], text);
    }
  }

  lemma {:induction false} FlagsAre(patterns: seq<Pattern>, text: string, k: nat)
    ensures |Flags(patterns, text)| == |Matching(patterns, text)|
    ensures k < |Matching(patterns, text)| ==>
              Matching(patterns, text)[k] < |patterns|
              && Flags(patterns, text)[k] == patterns[Matching(patterns, text)[k]].message
  {
    if patterns != [] { FlagsAre(patterns[..|patterns| - 1], text, k); }
  }

  /** The flags of a report are the messages of the matching patterns, in order. */
  lemma FlagsDescribe(m: Matcher, text: string, chunks: seq<string>)
    ensures var flags, matching := Validated(m, text, chunks).flags, Matching(m.fabrications, text);
            && |flags| == |matching|
            && (forall i: nat :: i in matching <==> i < |m.fabrications| && m.fabrications[i].matches(text))
            && (forall j, k | 0 <= j < k < |matching| :: matching[j] < matching[k])
            && (forall k | 0 <= k < |flags| ::
                  matching[k] < |m.fabrications| && flags[k] == m.fabrications[matching[k]].message)
  {
    var flags, matching := Flags(m.fabrications, text), Matching(m.fabrications, text);
    MatchingAre(m.fabrications, text);
    FlagsAre(m.fabrications, text, 0);
    forall k | 0 <= k < |flags|
      ensures matching[k] < |m.fabrications| && flags[k] == m.fabrications[matching[k]].message
    {
      FlagsAre(m.fabrications, text, k);
    }
  }

  /** Its other columns: the share of the response's words found in the context, the
      warnings, and the nearest thousandth to the tenths earned. */
  lemma ReportDescribes(m: Matcher, text: string, chunks: seq<string>)
    ensures var r := Validated(m, text, chunks);
            && r.hasCitations == m.cites(text)
            && (Join(chunks, " ") != "" ==> Averages(r.overlap, |m.words(text)|, |Shared(m, text, chunks)| as real))
            && (Join(chunks, " ") == "" || m.words(text) == {} ==> r.overlap == 0.0)
            && (NoContext in r.warnings <==> chunks == [])
            && (CitationRequired in r.warnings <==> !r.hasCitations)
            && |r.warnings| == (if chunks == [] then 1 else 0) + (if r.hasCitations then 0 else 1)
            && r.score == Round3(Tenths(r.hasCitations, r.overlap, |r.flags|) / 10.0)
  {
    var r := Validated(m, text, chunks);
    assert r.overlap == Overlap(m, text, chunks) && r.hasCitations == m.cites(text);
    OverlapIs(m, text, chunks);
    ScoreRounds(r.hasCitations, r.overlap, |r.flags|);
  }
}
