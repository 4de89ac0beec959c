/** What the section parser keeps of a text, part by part. */
module SectionLookup {
  import opened Options
  import opened Text
  import opened Sections
  import opened SectionRoundTrip

  // ----- the parts -----

  /** The parts put back together with line breaks. */
  function Lines(parts: seq<string>): string {
    if parts == [] then "" else if |parts| == 1 then parts[0] else parts[0] + "\n" + Lines(parts[1..])
  }

  /** `##` followed by white space, which may have been cut off. */
  predicate Starts(part: string) {
    "##" <= part && (|part| > 2 ==> IsSpace(part[2]))
  }

  /** The parts are the text cut in front of its headings: put back together they are
      the text, none can be cut further, and all but the first start with a heading. */
  lemma {:induction false} PartsExactly(t: string)
    ensures Parts(t) != [] && Lines(Parts(t)) == t
    ensures forall k | 0 <= k < |Parts(t)| :: NoCut(Parts(t)[k]) && (k > 0 ==> Starts(Parts(t)[k]))
    decreases |t|
  {
    var i := NextCut(t, 0);
    if i == |t| {
      assert Parts(t) == [t];
    } else {
      var first, rest := t[..i], t[i + 1..];
      PartsExactly(rest);
      FirstUncut(t, i);
      assert Parts(t) == [first] + Parts(rest);
      assert Parts(t)[1..] == Parts(rest);
      assert t == first + "\n" + rest;
      forall k | 0 <= k < |Parts(t)| ensures NoCut(Parts(t)[k]) && (k > 0 ==> Starts(Parts(t)[k])) {
        if k > 0 {
          assert Parts(t)[k] == Parts(rest)[k - 1];
          if k == 1 { FirstStarts(rest); }
        }
      }
    }
  }

  lemma FirstUncut(t: string, i: nat)
    requires i == NextCut(t, 0) < |t|
    ensures NoCut(t[..i]) && HeadAt(t[i + 1..], 0)
  {
    forall j: nat | j < i ensures !Cut(t[..i], j) { assert !Cut(t, j); }
  }

  lemma FirstStarts(t: string)
    requires HeadAt(t, 0)
    ensures Parts(t) != [] && Starts(Parts(t)[0])
  {
    assert t[0] == '#' && t[1] == '#';
    assert NextCut(t, 0) >= 2;
  }

  // ----- what each part contributes -----

  /** A heading with this key and a body below it. */
  ghost predicate Headed(part: string, key: string, body: string) {
    var p := Strip(part);
    && "##" <= p
    && exists line, below :: p == line + "\n" + below && '\n' !in line
                             && NormKey(Strip(LStripHashes(line))) == key && Strip(below) == body != ""
  }

  /** Text that is not under a heading. */
  predicate Preamble(part: string, body: string) {
    Strip(part) == body && body != "" && !("##" <= body)
  }

  /** The body a map holds for a key. */
  function Lookup(d: SectionMap, key: string): Option<string> {
    if d == [] then None else if d[0].key == key then Some(d[0].body) else Lookup(d[1..], key)
  }

  lemma {:induction false} LookupPut(d: SectionMap, key: string, body: string, k: string)
    ensures Lookup(Put(d, key, body), k) == if k == key then Some(body) else Lookup(d, k)
  {
    if d != [] && d[0].key != key { LookupPut(d[1..], key, body, k); }
  }

  lemma {:induction false} LookupKey(d: SectionMap, k: string)
    ensures Lookup(d, k).Some? <==> HasKey(d, k)
  {
    if d != [] {
      LookupKey(d[1..], k);
      HasKeyCons(d[0], d[1..], k);
      assert d == [d[0]] + d[1..];
    }
  }

  lemma {:induction false} LookupSnoc(d: SectionMap, s: Section, k: string)
    ensures Lookup(d + [s], k) == if Lookup(d, k).Some? then Lookup(d, k) else if k == s.key then Some(s.body) else None
  {
    if d == [] {
      assert d + [s] == [s];
    } else {
      assert (d + [s])[1..] == d[1..] + [s];
      LookupSnoc(d[1..], s, k);
    }
  }

  lemma FirstLine(p: string, line: string, below: string)
    requires p == line + "\n" + below && '\n' !in line
    ensures LineEnd(p) == |line| < |p| && p[..|line|] == line && p[|line| + 1..] == below
  {
    LineEndAt(line, "\n" + below);
    assert line + ("\n" + below) == p;
  }

  /** A part contributes under a heading exactly one key and body, or none. */
  lemma HeadedIs(part: string, key: string, body: string)
    ensures var p := Strip(part);
            Headed(part, key, body) <==>
            && "##" <= p && LineEnd(p) < |p|
            && NormKey(Strip(LStripHashes(p[..LineEnd(p)]))) == key && Strip(p[LineEnd(p) + 1..]) == body != ""
  {
    var p := Strip(part);
    var n := LineEnd(p);
    if Headed(part, key, body) {
      var line, below :| p == line + "\n" + below && '\n' !in line
                         && NormKey(Strip(LStripHashes(line))) == key && Strip(below) == body != "";
      FirstLine(p, line, below);
    }
    if n < |p| { assert p == p[..n] + "\n" + p[n + 1..]; }
  }

  /** What one part does to the entry of one key: a heading sets it, text without a
      heading fills a missing `exec_summary`, anything else leaves it. */
  lemma PartSets(out: SectionMap, part: string, key: string)
    ensures forall body | Headed(part, key, body) :: Lookup(AddPart(out, part), key) == Some(body)
    ensures (forall body :: !Headed(part, key, body)) ==>
              Lookup(AddPart(out, part), key) ==
              if key == "exec_summary" && Lookup(out, key) == None && Preamble(part, Strip(part)) then Some(Strip(part))
              else Lookup(out, key)
  {
    var p := Strip(part);
    if "##" <= p {
      var n := LineEnd(p);
      forall body | Headed(part, key, body) ensures Lookup(AddPart(out, part), key) == Some(body) {
        HeadedIs(part, key, body);
        LookupPut(out, key, body, key);
      }
      if n < |p| && Strip(p[n + 1..]) != "" {
        var k, body := NormKey(Strip(LStripHashes(p[..n]))), Strip(p[n + 1..]);
        HeadedIs(part, k, body);
        LookupPut(out, k, body, key);
      }
    } else {
      LookupKey(out, "exec_summary");
      LookupSnoc(out, Section("exec_summary", p), key);
    }
  }

  lemma {:induction false} AddPartsSnoc(out: SectionMap, parts: seq<string>, last: string)
    ensures AddParts(out, parts + [last]) == AddPart(AddParts(out, parts), last)
    decreases |parts|
  {
    if parts == [] {
      assert parts + [last] == [last] && [last][1..] == [];
    } else {
      assert (parts + [last])[1..] == parts[1..] + [last];
      AddPartsSnoc(AddPart(out, parts[0]), parts[1..], last);
    }
  }

  /** No part from `k` on is under a heading with this key. */
  ghost predicate NoneHeaded(parts: seq<string>, k: nat, key: string) {
    forall m, body | k <= m < |parts| :: !Headed(parts[m], key, body)
  }

  /** No part before `k` is without a heading. */
  predicate NonePreamble(parts: seq<string>, k: nat) {
    forall m | 0 <= m < k && m < |parts| :: !Preamble(parts[m], Strip(parts[m]))
  }

  lemma {:induction false} LookupHeaded(parts: seq<string>, key: string, k: nat, body: string)
    requires k < |parts| && Headed(parts[k], key, body) && NoneHeaded(parts, k + 1, key)
    ensures Lookup(AddParts([], parts), key) == Some(body)
  {
    var before, last := parts[..|parts| - 1], parts[|parts| - 1];
    assert parts == before + [last];
    AddPartsSnoc([], before, last);
    PartSets(AddParts([], before), last, key);
    if k < |before| {
      assert forall m | 0 <= m < |before| :: before[m] == parts[m];
      LookupHeaded(before, key, k, body);
    }
  }

  lemma {:induction false} LookupPreamble(parts: seq<string>, k: nat)
    requires k < |parts| && Preamble(parts[k], Strip(parts[k])) && NonePreamble(parts, k)
    requires NoneHeaded(parts, 0, "exec_summary")
    ensures Lookup(AddParts([], parts), "exec_summary") == Some(Strip(parts[k]))
  {
    var before, last := parts[..|parts| - 1], parts[|parts| - 1];
    assert parts == before + [last];
    assert forall m | 0 <= m < |before| :: before[m] == parts[m];
    AddPartsSnoc([], before, last);
    PartSets(AddParts([], before), last, "exec_summary");
    if k < |before| {
      LookupPreamble(before, k);
    } else {
      LookupNone(before, "exec_summary");
    }
  }

  lemma {:induction false} LookupNone(parts: seq<string>, key: string)
    requires NoneHeaded(parts, 0, key) && (key == "exec_summary" ==> NonePreamble(parts, |parts|))
    ensures Lookup(AddParts([], parts), key) == None
  {
    if parts != [] {
      var before, last := parts[..|parts| - 1], parts[|parts| - 1];
      assert parts == before + [last];
      assert forall m | 0 <= m < |before| :: before[m] == parts[m];
      AddPartsSnoc([], before, last);
      PartSets(AddParts([], before), last, key);
      LookupNone(before, key);
    }
  }

  /** Nothing in the text counts as a section. */
  ghost predicate Barren(parts: seq<string>) {
    (forall key :: NoneHeaded(parts, 0, key)) && NonePreamble(parts, |parts|)
  }

  lemma LookupOwnKey(d: SectionMap)
    ensures d == [] <==> forall k :: Lookup(d, k) == None
  {
    if d != [] { assert Lookup(d, d[0].key) == Some(d[0].body); }
  }

  lemma SplitParts(text: string)
    ensures !Blank(text) && AddParts([], Parts(Strip(text))) != [] ==> Split(text) == AddParts([], Parts(Strip(text)))
    ensures !Blank(text) && AddParts([], Parts(Strip(text))) == [] ==>
              Split(text) == [Section("exec_summary", Strip(text))]
    ensures Blank(text) ==> Split(text) == []
  {
    StripTrims(text);
  }

  lemma BarrenEmpty(parts: seq<string>)
    ensures Barren(parts) ==> AddParts([], parts) == []
  {
    if Barren(parts) {
      forall k ensures Lookup(AddParts([], parts), k) == None { LookupNone(parts, k); }
      LookupOwnKey(AddParts([], parts));
    }
  }

  lemma BlankParts(text: string)
    ensures Blank(text) ==> Parts(Strip(text)) == [""] && Barren([""])
  {
    StripTrims(text);
    assert Strip("") == "";
    forall key, body ensures !Headed("", key, body) { HeadedIs("", key, body); }
  }

  lemma HeadedBarren(parts: seq<string>, k: nat, key: string, body: string)
    requires k < |parts| && Headed(parts[k], key, body)
    ensures !Barren(parts)
  {
    assert !NoneHeaded(parts, 0, key);
  }

  /** The last heading with a key decides its body. */
  lemma SplitHeaded(text: string, key: string, k: nat, body: string)
    requires var parts := Parts(Strip(text));
             k < |parts| && Headed(parts[k], key, body) && NoneHeaded(parts, k + 1, key)
    ensures Lookup(Split(text), key) == Some(body)
  {
    var parts := Parts(Strip(text));
    BlankParts(text);
    HeadedBarren(parts, k, key, body);
    LookupHeaded(parts, key, k, body);
    SplitParts(text);
  }

  /** Text in front of the first heading is the executive summary, unless a heading
      says so too. */
  lemma SplitPreamble(text: string, k: nat)
    requires var parts := Parts(Strip(text));
             k < |parts| && Preamble(parts[k], Strip(parts[k])) && NonePreamble(parts, k)
             && NoneHeaded(parts, 0, "exec_summary")
    ensures Lookup(Split(text), "exec_summary") == Some(Strip(Parts(Strip(text))[k]))
  {
    var parts := Parts(Strip(text));
    BlankParts(text);
    assert !Barren(parts);
    LookupPreamble(parts, k);
    SplitParts(text);
  }

  /** A text without anything that counts is one executive summary; other keys than
      the ones above are absent. */
  lemma SplitRest(text: string, key: string)
    requires NoneHeaded(Parts(Strip(text)), 0, key)
    requires key == "exec_summary" ==> NonePreamble(Parts(Strip(text)), |Parts(Strip(text))|)
    ensures Lookup(Split(text), key) ==
            if key == "exec_summary" && !Blank(text) && Barren(Parts(Strip(text))) then Some(Strip(text)) else None
  {
    var parts := Parts(Strip(text));
    LookupNone(parts, key);
    SplitParts(text);
    BarrenEmpty(parts);
    if AddParts([], parts) == [] { EmptyBarren(parts); }
  }

  lemma EmptyBarren(parts: seq<string>)
    requires AddParts([], parts) == []
    ensures Barren(parts)
  {
    forall key ensures NoneHeaded(parts, 0, key) {
      if !NoneHeaded(parts, 0, key) { LastHeaded(parts, key); }
    }
    if !NonePreamble(parts, |parts|) { FirstPreamble(parts); }
  }

  lemma LastHeaded(parts: seq<string>, key: string)
    requires !NoneHeaded(parts, 0, key)
    ensures Lookup(AddParts([], parts), key).Some?
  {
    var m, b :| 0 <= m < |parts| && Headed(parts[m], key, b);
    var k: nat, body := m, b;
    while !NoneHeaded(parts, k + 1, key)
      invariant k < |parts| && Headed(parts[k], key, body)
      decreases |parts| - k
    {
      var next, other :| k + 1 <= next < |parts| && Headed(parts[next], key, other);
      k, body := next, other;
    }
    LookupHeaded(parts, key, k, body);
  }

  lemma LeastPreamble(parts: seq<string>, m: nat) returns (k: nat)
    requires m < |parts| && Preamble(parts[m], Strip(parts[m]))
    ensures k <= m && Preamble(parts[k], Strip(parts[k])) && NonePreamble(parts, k)
  {
    k := 0;
    while !Preamble(parts[k], Strip(parts[k]))
      invariant k <= m && NonePreamble(parts, k)
      decreases m - k
    {
      k := k + 1;
    }
  }

  lemma FirstPreamble(parts: seq<string>)
    requires !NonePreamble(parts, |parts|)
    ensures Lookup(AddParts([], parts), "exec_summary").Some?
  {
    if NoneHeaded(parts, 0, "exec_summary") {
      var m :| 0 <= m < |parts| && Preamble(parts[m], Strip(parts[m]));
      var k := LeastPreamble(parts, m);
      LookupPreamble(parts, k);
    } else {
      LastHeaded(parts, "exec_summary");
    }
  }

  // ----- the order of the sections -----

  function KeysOf(d: SectionMap): seq<string> {
    if d == [] then [] else [d[0].key] + KeysOf(d[1..])
  }

  lemma {:induction false} KeysOfSnoc(d: SectionMap, s: Section)
    ensures KeysOf(d + [s]) == KeysOf(d) + [s.key]
  {
    if d == [] {
      assert d + [s] == [s];
    } else {
      assert (d + [s])[1..] == d[1..] + [s];
      KeysOfSnoc(d[1..], s);
    }
  }

  lemma {:induction false} PutKeepsOrder(d: SectionMap, key: string, body: string)
    ensures KeysOf(d) <= KeysOf(Put(d, key, body))
  {
    if d != [] && d[0].key != key {
      PutKeepsOrder(d[1..], key, body);
      assert ([d[0]] + Put(d[1..], key, body))[1..] == Put(d[1..], key, body);
    } else if d != [] {
      assert ([Section(key, body)] + d[1..])[1..] == d[1..];
    }
  }

  lemma PartKeepsOrder(out: SectionMap, part: string)
    ensures KeysOf(out) <= KeysOf(AddPart(out, part))
  {
    var p := Strip(part);
    if "##" <= p {
      var n := LineEnd(p);
      PutKeepsOrder(out, NormKey(Strip(LStripHashes(p[..n]))), if n < |p| then Strip(p[n + 1..]) else "");
    } else {
      KeysOfSnoc(out, Section("exec_summary", p));
    }
  }

  /** Sections stay where they first appeared: the keys found in the first parts are
      the first keys of the result. */
  lemma {:induction false} OrderOfFirstUse(parts: seq<string>, k: nat)
    requires k <= |parts|
    ensures KeysOf(AddParts([], parts[..k])) <= KeysOf(AddParts([], parts))
  {
    if k == |parts| {
      assert parts[..k] == parts;
    } else {
      var before, last := parts[..|parts| - 1], parts[|parts| - 1];
      assert parts == before + [last] && parts[..k] == before[..k];
      OrderOfFirstUse(before, k);
      AddPartsSnoc([], before, last);
      PartKeepsOrder(AddParts([], before), last);
    }
  }
}
