/** Exactly which section maps survive printing and parsing. */
module SectionReadBack {
  import opened Text
  import opened Sections
  import opened SectionRoundTrip

  // ----- how much text the parser keeps -----

  /** The body that one part contributes. */
  function BodyOf(part: string): string {
    var p := Strip(part);
    if "##" <= p then
      var n := LineEnd(p);
      if n < |p| then Strip(p[n + 1..]) else ""
    else p
  }

  /** The total length of the bodies. */
  function Weight(d: SectionMap): nat {
    if d == [] then 0 else |d[0].body| + Weight(d[1..])
  }

  function PartsWeight(parts: seq<string>): nat {
    if parts == [] then 0 else |BodyOf(parts[0])| + PartsWeight(parts[1..])
  }

  lemma {:induction false} WeightAppend(d: SectionMap, s: Section)
    ensures Weight(d + [s]) == Weight(d) + |s.body|
  {
    if d == [] {
      assert d + [s] == [s] && [s][1..] == [];
    } else {
      assert (d + [s])[1..] == d[1..] + [s];
      WeightAppend(d[1..], s);
    }
  }

  lemma {:induction false} PutWeight(d: SectionMap, key: string, body: string)
    ensures Weight(Put(d, key, body)) <= Weight(d) + |body|
  {
    if d == [] {
      assert [Section(key, body)][1..] == [];
    } else if d[0].key == key {
      assert ([Section(key, body)] + d[1..])[1..] == d[1..];
    } else {
      PutWeight(d[1..], key, body);
      var rest := Put(d[1..], key, body);
      assert ([d[0]] + rest)[1..] == rest;
    }
  }

  lemma AddPartWeight(out: SectionMap, part: string)
    ensures Weight(AddPart(out, part)) <= Weight(out) + |BodyOf(part)|
  {
    var p := Strip(part);
    if "##" <= p {
      var n := LineEnd(p);
      PutWeight(out, NormKey(Strip(LStripHashes(p[..n]))), BodyOf(part));
    } else {
      WeightAppend(out, Section("exec_summary", p));
    }
  }

  lemma {:induction false} AddPartsWeight(out: SectionMap, parts: seq<string>)
    ensures Weight(AddParts(out, parts)) <= Weight(out) + PartsWeight(parts)
    decreases |parts|
  {
    if parts != [] {
      AddPartWeight(out, parts[0]);
      AddPartsWeight(AddPart(out, parts[0]), parts[1..]);
    }
  }

  // ----- bounds on what one text keeps -----

  lemma {:induction false} LStripShorter(s: string)
    ensures |LStrip(s)| <= |s|
  {
    if s != "" && IsSpace(s[0]) { LStripShorter(s[1..]); }
  }

  /** `RStrip` keeps a prefix, and at least what ends in no space. */
  lemma {:induction false} RStripPrefix(s: string, n: nat)
    requires n <= |s| && (n > 0 ==> !IsSpace(s[n - 1]))
    ensures RStrip(s) <= s && n <= |RStrip(s)|
  {
    if s != "" && IsSpace(s[|s| - 1]) {
      RStripPrefix(s[..|s| - 1], n);
    }
  }

  lemma StripShorter(s: string)
    ensures |Strip(s)| <= |s|
  {
    LStripShorter(s);
    RStripPrefix(LStrip(s), 0);
  }

  lemma HeadedAlone(head: string)
    requires "##" <= head && '\n' !in head && !IsSpace(head[|head| - 1])
    ensures BodyOf(head) == ""
  {
    assert head[0] == '#';
    RStripPrefix(head, |head|);
    LineEndAt(head, "");
    assert head + "" == head;
  }

  lemma StrippedHeaded(head: string, rest: string)
    requires "##" <= head && '\n' !in head && !IsSpace(head[|head| - 1])
    ensures var p := Strip(head + "\n" + rest);
            p <= head + "\n" + rest && head <= p && LineEnd(p) == |head|
  {
    var t := head + "\n" + rest;
    assert head[0] == '#' && t[0] == '#' && t[|head| - 1] == head[|head| - 1];
    RStripPrefix(t, |head|);
    var p := Strip(t);
    assert p[..|head|] == head;
    assert head + p[|head|..] == p;
    LineEndAt(head, p[|head|..]);
  }

  /** A heading line, alone or with text behind it, keeps no more than that text. */
  lemma HeadedKeeps(head: string, rest: string)
    requires "##" <= head && '\n' !in head && !IsSpace(head[|head| - 1])
    ensures |BodyOf(head + "\n" + rest)| <= |rest|
  {
    StrippedHeaded(head, rest);
    var p := Strip(head + "\n" + rest);
    assert p[0] == head[0] && p[1] == head[1];
    if |head| < |p| { StripShorter(p[|head| + 1..]); }
  }

  lemma HeadingKeepsLess(part: string)
    requires "##" <= part
    ensures |BodyOf(part)| == 0 || |BodyOf(part)| + 3 <= |part|
  {
    RStripPrefix(part, 2);
    var p := Strip(part);
    assert p[0] == '#' && p[1] == '#' && "##" <= p;
    var n := LineEnd(p);
    assert n >= 2;
    if n < |p| { StripShorter(p[n + 1..]); }
  }

  lemma BodyShorter(part: string)
    ensures |BodyOf(part)| <= |part|
  {
    var p := Strip(part);
    StripShorter(part);
    if "##" <= p {
      var n := LineEnd(p);
      if n < |p| { StripShorter(p[n + 1..]); }
    }
  }

  /** A text keeps no more than its length, and loses three characters to a heading. */
  lemma {:induction false} PartsKeep(t: string)
    ensures PartsWeight(Parts(t)) <= |t|
    ensures HeadAt(t, 0) ==> PartsWeight(Parts(t)) + 3 <= |t|
    decreases |t|
  {
    var i := NextCut(t, 0);
    if i == |t| {
      BodyShorter(t);
      if HeadAt(t, 0) { HeadingKeepsLess(t); }
      assert [t][1..] == [];
    } else {
      var first, rest := t[..i], t[i + 1..];
      PartsKeep(rest);
      BodyShorter(first);
      assert ([first] + Parts(rest))[1..] == Parts(rest);
      if HeadAt(t, 0) {
        assert i >= 2;
        HeadingKeepsLess(first);
      }
    }
  }

  // ----- one printed block -----

  lemma NoEarlierCut(p: string, q: string, i: nat)
    requires p != "" && p[|p| - 1] == '\n' && i <= |p| && forall j: nat | j < i :: !Cut(p, j)
    ensures forall j: nat | j < i :: !Cut(p + "\n" + q, j)
  {
    forall j: nat | j < i ensures !Cut(p + "\n" + q, j) {
      if Cut(p + "\n" + q, j) { CutInside(p, q, j); }
    }
  }

  lemma CutStays(p: string, q: string, i: nat)
    requires Cut(p, i)
    ensures Cut(p + "\n" + q, i)
  {
    var t := p + "\n" + q;
    assert t[i] == p[i] && t[i + 1] == p[i + 1] && t[i + 2] == p[i + 2] && t[i + 3] == p[i + 3];
  }

  lemma FirstCut(t: string, i: nat)
    requires Cut(t, i) && forall j: nat | j < i :: !Cut(t, j)
    ensures NextCut(t, 0) == i
  {
  }

  lemma JoinStep(p: string, q: string, i: nat)
    requires p != "" && p[|p| - 1] == '\n' && i == NextCut(p, 0) < |p|
    ensures Parts(p + "\n" + q) == [p[..i]] + Parts(p[i + 1..] + "\n" + q)
  {
    var t := p + "\n" + q;
    NoEarlierCut(p, q, i);
    CutStays(p, q, i);
    FirstCut(t, i);
    assert t[..i] == p[..i] && t[i + 1..] == p[i + 1..] + "\n" + q;
  }

  /** A text that ends in a line break and a text that starts with a heading are cut
      up separately. */
  lemma {:induction false} PartsJoin(p: string, q: string)
    requires p != "" && p[|p| - 1] == '\n' && HeadAt(q, 0)
    ensures Parts(p + "\n" + q) == Parts(p) + Parts(q)
    decreases |p|
  {
    var i := NextCut(p, 0);
    if i == |p| {
      NoEarlierCut(p, q, i);
      PartsAtHead(p, q);
    } else {
      var first, rest := p[..i], p[i + 1..];
      JoinStep(p, q, i);
      PartsJoin(rest, q);
      assert [first] + (Parts(rest) + Parts(q)) == ([first] + Parts(rest)) + Parts(q);
    }
  }

  lemma {:induction false} PartsWeightAppend(a: seq<string>, b: seq<string>)
    ensures PartsWeight(a + b) == PartsWeight(a) + PartsWeight(b)
  {
    if a == [] {
      assert a + b == b;
    } else {
      assert (a + b)[1..] == a[1..] + b;
      PartsWeightAppend(a[1..], b);
    }
  }

  /** A line of the text that reads as a heading is a cut of the printed block. */
  lemma HeadLineCuts(first: string, rest: string)
    requires !NoHeadLine(rest)
    ensures !NoCut(first + "\n" + rest)
  {
    var j: nat :| j < |rest| && (j == 0 || rest[j - 1] == '\n') && HeadAt(rest, j);
    var t := first + "\n" + rest;
    var i := |first| + j;
    assert t[i] == '\n';
    assert t[i + 1] == rest[j] && t[i + 2] == rest[j + 1] && t[i + 3] == rest[j + 2];
    assert Cut(t, i);
  }

  lemma NextCutFinds(t: string)
    requires !NoCut(t)
    ensures NextCut(t, 0) < |t|
  {
  }

  /** What lies before the first cut of a block keeps no more than its own text. */
  lemma FirstKeeps(head: string, rest: string, i: nat)
    requires "##" <= head && '\n' !in head && !IsSpace(head[|head| - 1])
    requires |head| <= i <= |head| + 1 + |rest|
    ensures i == |head| ==> BodyOf((head + "\n" + rest)[..i]) == ""
    ensures i > |head| ==> |BodyOf((head + "\n" + rest)[..i])| <= i - |head| - 1
  {
    var first := (head + "\n" + rest)[..i];
    if i == |head| {
      assert first == head;
      HeadedAlone(head);
    } else {
      assert first == head + "\n" + rest[..i - |head| - 1];
      HeadedKeeps(head, rest[..i - |head| - 1]);
    }
  }

  lemma FirstCutKeeps(t: string, i: nat)
    requires i == NextCut(t, 0) < |t|
    ensures PartsWeight(Parts(t)) + 3 <= |BodyOf(t[..i])| + |t| - i - 1
  {
    var q := t[i + 1..];
    assert q[0] == t[i + 1] && q[1] == t[i + 2] && q[2] == t[i + 3];
    PartsKeep(q);
    assert ([t[..i]] + Parts(q))[1..] == Parts(q);
  }

  lemma CutBlock(head: string, rest: string)
    requires "##" <= head && '\n' !in head && !IsSpace(head[|head| - 1])
    requires !NoHeadLine(rest)
    ensures PartsWeight(Parts(head + "\n" + rest)) + 2 <= |rest|
  {
    var t := head + "\n" + rest;
    var i := NextCut(t, 0);
    assert Cut(t, i) by {
      HeadLineCuts(head, rest);
      NextCutFinds(t);
    }
    assert |head| <= i by { CutIsHeadLine(head, rest, i); }
    FirstKeeps(head, rest, i);
    FirstCutKeeps(t, i);
  }

  /** A printed block keeps its whole body exactly when no line of it reads as a heading. */
  lemma BlockKeeps(s: Section, end: string)
    requires Entry(s) && (end == "" || end == "\n")
    ensures PartsWeight(Parts(Block(s) + end)) <= |s.body|
    ensures !NoHeadLine(s.body + end) ==> PartsWeight(Parts(Block(s) + end)) < |s.body|
  {
    var head, rest := "## " + s.key, s.body + end;
    CanonicalPlain(s.key);
    assert head[|head| - 1] == s.key[|s.key| - 1] && head[..2] == "##";
    assert head + "\n" + rest == Block(s) + end;
    if NoHeadLine(rest) {
      BlockUncut(s, end);
      PartsWhole(Block(s) + end);
      BlockBody(s, end);
      assert [Block(s) + end][1..] == [];
    } else {
      CutBlock(head, rest);
    }
  }

  lemma BlockBody(s: Section, end: string)
    requires Entry(s) && (end == "" || end == "\n")
    ensures BodyOf(Block(s) + end) == s.body
  {
    BlockShape(s);
    assert Block(s) + "" == Block(s);
    StripBreak(Block(s));
    StripBreak(s.body);
  }

  // ----- whole maps -----

  lemma JoinKeeps(s: Section, q: string)
    requires Entry(s) && HeadAt(q, 0)
    ensures PartsWeight(Parts(Block(s) + "\n\n" + q)) <= |s.body| + PartsWeight(Parts(q))
    ensures !NoHeadLine(s.body + "\n") ==> PartsWeight(Parts(Block(s) + "\n\n" + q)) < |s.body| + PartsWeight(Parts(q))
  {
    var p := Block(s) + "\n";
    var a, b := Parts(p), Parts(q);
    BlockKeeps(s, "\n");
    assert Block(s) + "\n\n" + q == p + "\n" + q;
    assert Parts(Block(s) + "\n\n" + q) == a + b by { PartsJoin(p, q); }
    assert PartsWeight(a + b) == PartsWeight(a) + PartsWeight(b) by { PartsWeightAppend(a, b); }
  }

  lemma {:induction false} PrintKeeps(d: SectionMap)
    requires d != [] && forall s | s in d :: Entry(s)
    ensures PartsWeight(Parts(Print(d))) <= Weight(d)
    ensures !BodiesPlain(d) ==> PartsWeight(Parts(Print(d))) < Weight(d)
  {
    if |d| == 1 {
      assert Block(d[0]) + "" == Block(d[0]) && d[0].body + "" == d[0].body;
      BlockKeeps(d[0], "");
      assert d[1..] == [];
    } else {
      PrintStarts(d[1..]);
      PrintKeeps(d[1..]);
      JoinKeeps(d[0], Print(d[1..]));
      PlainCons(d);
    }
  }

  lemma PlainCons(d: SectionMap)
    requires |d| > 1
    ensures NoHeadLine(d[0].body + "\n") && BodiesPlain(d[1..]) ==> BodiesPlain(d)
  {
    if NoHeadLine(d[0].body + "\n") && BodiesPlain(d[1..]) {
      forall i | 0 <= i < |d| ensures NoHeadLine(if i < |d| - 1 then d[i].body + "\n" else d[i].body) {
        if i > 0 { assert d[1..][i - 1] == d[i]; }
      }
    }
  }

  lemma {:induction false} PrintLonger(d: SectionMap)
    requires d != []
    ensures |Print(d)| > Weight(d)
  {
    if |d| == 1 { assert d[1..] == []; } else { PrintLonger(d[1..]); }
  }

  /** What parsing gives is no heavier than its parts, unless it is the text as a whole. */
  lemma SplitWeight(text: string)
    requires Trimmed(text) && text != ""
    ensures Weight(Split(text)) <= PartsWeight(Parts(text)) || Weight(Split(text)) == |text|
  {
    StripOfTrimmed(text);
    AddPartsWeight([], Parts(text));
    if AddParts([], Parts(text)) == [] { assert Split(text)[1..] == []; }
  }

  lemma ReadBackPlain(d: SectionMap)
    requires d != [] && WellFormed(d) && Split(Print(d)) == d
    ensures BodiesPlain(d)
  {
    PrintStarts(d);
    SplitWeight(Print(d));
    PrintLonger(d);
    PrintKeeps(d);
  }

  /** The exact round trip: a map is read back as it was printed if and only if its
      keys are canonical and distinct, its bodies trimmed and not empty, and no body
      line reads as a heading. */
  lemma RoundTripExactly(d: SectionMap)
    ensures Split(Print(d)) == d <==> Printable(d)
  {
    if Printable(d) {
      RoundTrip(d);
    } else if d != [] && Split(Print(d)) == d {
      SplitWellFormed(Print(d));
      ReadBackPlain(d);
    }
  }

  /** Emitted content is the print of what a text was parsed into.  Reading it back
      gives the same sections if and only if no body line reads as a heading. */
  lemma EmittedReadsBack(text: string)
    ensures Split(Print(Split(text))) == Split(text) <==> BodiesPlain(Split(text))
  {
    SplitWellFormed(text);
    RoundTripExactly(Split(text));
  }

  /** When they are not read back: a heading at the top of a body starts a section of
      its own, and the section it was in is lost. */
  lemma {:induction false} HeadLineSplits(key: string, s: Section)
    requires Canonical(key) && Entry(s) && NoHeadLine(s.body)
    ensures Split(Print([Section(key, Block(s))])) == [s]
  {
    var t := "## " + key + "\n" + Block(s);
    HeadPart(key, s);
    EmptySection(key);
    AddBlock([], s, Block(s));
    assert Print([Section(key, Block(s))]) == t;
    assert AddParts(AddPart([], "## " + key), [Block(s)]) == AddParts([s], []) by {
      assert [Block(s)][1..] == [];
    }
    assert Parts(t)[1..] == [Block(s)];
  }

  lemma HeadPart(key: string, s: Section)
    requires Canonical(key) && Entry(s) && NoHeadLine(s.body)
    ensures var t := "## " + key + "\n" + Block(s);
            Strip(t) == t && Parts(t) == ["## " + key, Block(s)]
  {
    var p := "## " + key;
    var t := p + "\n" + Block(s);
    BlockShape(s);
    CanonicalPlain(key);
    assert t[0] == '#' && t[|t| - 1] == Block(s)[|Block(s)| - 1];
    StripOfTrimmed(t);
    forall i: nat | i < |p| ensures !Cut(t, i) { assert t[i] == p[i] && p[i] in p; }
    PartsAtHead(p, Block(s));
    assert s.body + "" == s.body && Block(s) + "" == Block(s);
    BlockUncut(s, "");
    PartsWhole(Block(s));
  }

  lemma EmptySection(key: string)
    requires Canonical(key)
    ensures AddPart([], "## " + key) == []
  {
    var p := "## " + key;
    CanonicalPlain(key);
    assert p[|p| - 1] == key[|key| - 1];
    StripOfTrimmed(p);
    assert p + "" == p;
    LineEndAt(p, "");
  }

  lemma StripSpaced(s: string)
    requires Trimmed(s) && s != ""
    ensures Strip(" " + s) == s
  {
    assert (" " + s)[1..] == s;
    assert LStrip(" " + s) == LStrip(s);
  }

  lemma PlainJoin(first: string, rest: string)
    requires first != "" && first[0] != '#' && '\n' !in first && NoHeadLine(rest)
    ensures NoHeadLine(first + "\n" + rest)
  {
    var t := first + "\n" + rest;
    forall j: nat | j < |t| && (j == 0 || t[j - 1] == '\n') ensures !HeadAt(t, j) {
      if j > 0 && Cut(t, j - 1) { CutIsHeadLine(first, rest, j - 1); }
    }
  }

  lemma AddHeaded(key: string, rest: string)
    requires Canonical(key) && rest != "" && Strip(rest) != "" && !IsSpace(rest[|rest| - 1])
    ensures AddPart([], "## " + key + "\n" + rest) == [Section(key, Strip(rest))]
  {
    var head := "## " + key;
    var t := head + "\n" + rest;
    CanonicalPlain(key);
    assert t[0] == '#' && t[1] == '#' && t[|t| - 1] == rest[|rest| - 1] && "##" <= t;
    StripOfTrimmed(t);
    LineEndAt(head, "\n" + rest);
    assert head + ("\n" + rest) == t;
    assert t[..|head|] == head && t[|head| + 1..] == rest;
    HeadingOf(key);
    CanonicalFixed(key);
  }

  lemma SplitWhole(t: string)
    requires Trimmed(t) && Parts(t) == [t] && AddPart([], t) != []
    ensures Split(t) == AddPart([], t)
  {
    StripOfTrimmed(t);
    assert [t][1..] == [];
    assert AddParts([], [t]) == AddParts(AddPart([], t), []);
  }

  /** A text of one part under a heading. */
  lemma SplitOne(key: string, rest: string)
    requires Canonical(key) && rest != "" && Strip(rest) != "" && NoHeadLine(rest) && !IsSpace(rest[|rest| - 1])
    ensures Split("## " + key + "\n" + rest) == [Section(key, Strip(rest))]
  {
    var t := "## " + key + "\n" + rest;
    assert Trimmed(t) by { assert t[0] == '#' && t[|t| - 1] == rest[|rest| - 1]; }
    assert Parts(t) == [t] by {
      CanonicalPlain(key);
      NoCutIn("## " + key, rest);
      PartsWhole(t);
    }
    assert AddPart([], t) == [Section(key, Strip(rest))] by { AddHeaded(key, rest); }
    SplitWhole(t);
  }

  lemma SpacedBlock(s: Section)
    requires Entry(s) && NoHeadLine(s.body)
    ensures var rest := " " + Block(s);
            NoHeadLine(rest) && Strip(rest) == Block(s) && !IsSpace(rest[|rest| - 1])
  {
    var first := " ## " + s.key;
    assert first + "\n" + s.body == " " + Block(s);
    assert '\n' !in first by { CanonicalPlain(s.key); }
    PlainJoin(first, s.body);
    assert Trimmed(Block(s)) by { BlockShape(s); }
    StripSpaced(Block(s));
  }

  /** A text for which they differ: an indented heading is body text, but loses its
      indentation at the top of a body, and is a heading when the print is read back. */
  lemma {:induction false} IndentedHeadingLost(key: string, s: Section)
    requires Canonical(key) && Entry(s) && NoHeadLine(s.body) && key != s.key
    ensures var text := "## " + key + "\n " + Block(s);
            Split(text) == [Section(key, Block(s))] && Split(Print(Split(text))) == [s]
  {
    var rest := " " + Block(s);
    SpacedBlock(s);
    assert "## " + key + "\n" + rest == "## " + key + "\n " + Block(s);
    SplitOne(key, rest);
    HeadLineSplits(key, s);
  }
}
