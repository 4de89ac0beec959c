/** The section parser `_split_sections` and the printer of `run_draft_graph`
    (copilot_engine/graphs/draft_graph.py). */
module Sections {
  import opened Text

  datatype Section = Section(key: string, body: string)

  /** A `dict[str, str]`: entries with distinct keys, in insertion order. */
  type SectionMap = seq<Section>

  predicate DistinctKeys(d: SectionMap) {
    forall i, j | 0 <= i < j < |d| :: d[i].key != d[j].key
  }

  predicate HasKey(d: SectionMap, key: string) {
    exists i | 0 <= i < |d| :: d[i].key == key
  }

  /** `d[key] = body`. */
  function Put(d: SectionMap, key: string, body: string): SectionMap {
    if d == [] then [Section(key, body)]
    else if d[0].key == key then [Section(key, body)] + d[1..]
    else [d[0]] + Put(d[1..], key, body)
  }

  /** `d.setdefault(key, body)`. */
  function SetDefault(d: SectionMap, key: string, body: string): SectionMap {
    if HasKey(d, key) then d else d + [Section(key, body)]
  }

  // ----- parsing -----

  /** `##\s+` matches at `j`. */
  predicate HeadAt(t: string, j: nat) {
    j + 2 < |t| && t[j] == '#' && t[j + 1] == '#' && IsSpace(t[j + 2])
  }

  /** `\n(?=##\s+)` matches at `i`. */
  predicate Cut(t: string, i: nat) {
    i < |t| && t[i] == '\n' && HeadAt(t, i + 1)
  }

  function NextCut(t: string, from: nat): (i: nat)
    requires from <= |t|
    ensures from <= i <= |t| && (i < |t| ==> Cut(t, i))
    ensures forall j | from <= j < i :: !Cut(t, j)
    decreases |t| - from
  {
    if from == |t| || Cut(t, from) then from else NextCut(t, from + 1)
  }

  /** `re.split(r"\n(?=##\s+)", t)`. */
  function Parts(t: string): seq<string>
    decreases |t|
  {
    var i := NextCut(t, 0);
    if i == |t| then [t] else [t[..i]] + Parts(t[i + 1..])
  }

  function LStripHashes(s: string): string {
    if s != "" && s[0] == '#' then LStripHashes(s[1..]) else s
  }

  function LineEnd(s: string): (n: nat)
    ensures n <= |s| && (n < |s| ==> s[n] == '\n') && '\n' !in s[..n]
  {
    if s == "" || s[0] == '\n' then 0 else
    assert s[..1 + LineEnd(s[1..])] == [s[0]] + s[1..][..LineEnd(s[1..])];
    1 + LineEnd(s[1..])
  }

  /** What one part does to the map. */
  function AddPart(out: SectionMap, part: string): SectionMap {
    var p := Strip(part);
    if p == "" then out
    else if "##" <= p then
      var n := LineEnd(p);
      var heading := Strip(LStripHashes(p[..n]));
      var body := if n < |p| then Strip(p[n + 1..]) else "";
      if body != "" then Put(out, NormKey(heading), body) else out
    else SetDefault(out, "exec_summary", p)
  }

  function AddParts(out: SectionMap, parts: seq<string>): SectionMap
    decreases |parts|
  {
    if parts == [] then out else AddParts(AddPart(out, parts[0]), parts[1..])
  }

  function Split(text: string): SectionMap {
    if Strip(text) == "" then [] else
    var out := AddParts([], Parts(Strip(text)));
    if out == [] then [Section("exec_summary", Strip(text))] else out
  }

  /** The loop of `_split_sections`. */
  method SplitSections(text: string) returns (out: SectionMap)
    ensures out == Split(text)
  {
    if text == "" || Strip(text) == "" {
      return [];
    }
    var parts := Parts(Strip(text));
    out := [];
    for i := 0 to |parts|
      invariant AddParts(out, parts[i..]) == AddParts([], parts)
    {
      assert parts[i..][1..] == parts[i + 1..];
      ghost var before := out;
      var part := Strip(parts[i]);
      if part != "" {
        if "##" <= part {
          var n := LineEnd(part);
          var heading := Strip(LStripHashes(part[..n]));
          var body := if n < |part| then Strip(part[n + 1..]) else "";
          var key := NormKey(heading);
          if body != "" {
            out := Put(out, key, body);
          }
        } else {
          out := SetDefault(out, "exec_summary", part);
        }
      }
      assert out == AddPart(before, parts[i]);
    }
    if out == [] {
      out := [Section("exec_summary", Strip(text))];
    }
  }

  // ----- printing -----

  function Block(s: Section): string { "## " + s.key + "\n" + s.body }

  /** The blocks of the map joined by blank lines. */
  function Print(d: SectionMap): string {
    if d == [] then ""
    else if |d| == 1 then Block(d[0])
    else Block(d[0]) + "\n\n" + Print(d[1..])
  }

  // ----- what the parser returns -----

  /** Distinct canonical keys, trimmed non-empty bodies. */
  predicate WellFormed(d: SectionMap) {
    && DistinctKeys(d)
    && forall s | s in d :: Canonical(s.key) && s.body != "" && Trimmed(s.body)
  }

  lemma HasKeyCons(s: Section, d: SectionMap, k: string)
    ensures HasKey([s] + d, k) <==> HasKey(d, k) || k == s.key
  {
    if HasKey(d, k) {
      var i :| 0 <= i < |d| && d[i].key == k;
      assert ([s] + d)[i + 1].key == k;
    }
    if k == s.key { assert ([s] + d)[0].key == k; }
  }

  lemma {:induction false} PutHasKey(d: SectionMap, key: string, body: string, k: string)
    ensures HasKey(Put(d, key, body), k) <==> HasKey(d, k) || k == key
  {
    if d == [] {
      HasKeyCons(Section(key, body), [], k);
    } else {
      assert d == [d[0]] + d[1..];
      HasKeyCons(d[0], d[1..], k);
      if d[0].key == key {
        HasKeyCons(Section(key, body), d[1..], k);
      } else {
        PutHasKey(d[1..], key, body, k);
        HasKeyCons(d[0], Put(d[1..], key, body), k);
      }
    }
  }

  lemma DistinctCons(s: Section, d: SectionMap)
    ensures DistinctKeys([s] + d) <==> DistinctKeys(d) && !HasKey(d, s.key)
  {
    var t := [s] + d;
    if DistinctKeys(t) {
      forall i, j | 0 <= i < j < |d| ensures d[i].key != d[j].key { assert t[i + 1].key != t[j + 1].key; }
      forall i | 0 <= i < |d| ensures d[i].key != s.key { assert t[0].key != t[i + 1].key; }
    }
  }

  lemma {:induction false} PutKeys(d: SectionMap, key: string, body: string)
    requires DistinctKeys(d)
    ensures DistinctKeys(Put(d, key, body)) && Put(d, key, body) != []
    ensures forall s | s in Put(d, key, body) :: s in d || s == Section(key, body)
    ensures !HasKey(d, key) ==> Put(d, key, body) == d + [Section(key, body)]
  {
    if d != [] {
      var rest := d[1..];
      assert d == [d[0]] + rest;
      DistinctCons(d[0], rest);
      HasKeyCons(d[0], rest, key);
      if d[0].key == key {
        DistinctCons(Section(key, body), rest);
      } else {
        PutKeys(rest, key, body);
        PutHasKey(rest, key, body, d[0].key);
        DistinctCons(d[0], Put(rest, key, body));
      }
    }
  }

  lemma PutWellFormed(out: SectionMap, key: string, body: string)
    requires WellFormed(out) && Canonical(key) && body != "" && Trimmed(body)
    ensures WellFormed(Put(out, key, body))
  {
    PutKeys(out, key, body);
  }

  lemma SetDefaultWellFormed(out: SectionMap, body: string)
    requires WellFormed(out) && body != "" && Trimmed(body)
    ensures WellFormed(SetDefault(out, "exec_summary", body))
  {
    ExecSummaryCanonical();
    if !HasKey(out, "exec_summary") {
      forall i | 0 <= i < |out| ensures out[i].key != "exec_summary" {}
    }
  }

  lemma {:induction false} AddPartWellFormed(out: SectionMap, part: string)
    requires WellFormed(out)
    ensures WellFormed(AddPart(out, part))
  {
    var p := Strip(part);
    StripTrims(part);
    if p != "" {
      if "##" <= p {
        var n := LineEnd(p);
        if n < |p| && Strip(p[n + 1..]) != "" {
          var heading := Strip(LStripHashes(p[..n]));
          NormKeyCanonical(heading);
          StripTrims(p[n + 1..]);
          PutWellFormed(out, NormKey(heading), Strip(p[n + 1..]));
        }
      } else {
        SetDefaultWellFormed(out, p);
      }
    }
  }

  lemma ExecSummaryCanonical()
    ensures Canonical("exec_summary")
  {
  }

  lemma {:induction false} AddPartsWellFormed(out: SectionMap, parts: seq<string>)
    requires WellFormed(out)
    ensures WellFormed(AddParts(out, parts))
    decreases |parts|
  {
    if parts != [] {
      AddPartWellFormed(out, parts[0]);
      AddPartsWellFormed(AddPart(out, parts[0]), parts[1..]);
    }
  }

  /** Parsing always gives distinct canonical keys with trimmed, non-empty bodies,
      and gives nothing exactly on blank input. */
  lemma SplitWellFormed(text: string)
    ensures WellFormed(Split(text))
    ensures Split(text) == [] <==> Blank(text)
  {
    StripTrims(text);
    AddPartsWellFormed([], Parts(Strip(text)));
    ExecSummaryCanonical();
  }
}
