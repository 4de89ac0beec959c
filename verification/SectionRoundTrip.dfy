/** Parsing undoes printing. */
module SectionRoundTrip {
  import opened Text
  import opened Sections

  /** No line of `t` starts with `##` followed by white space. */
  predicate NoHeadLine(t: string) {
    forall j: nat | j < |t| && (j == 0 || t[j - 1] == '\n') :: !HeadAt(t, j)
  }

  /** No body line looks like a heading.  A body that another section follows is
      followed by a line break, so there a last line `##` counts as well. */
  predicate BodiesPlain(d: SectionMap) {
    forall i | 0 <= i < |d| :: NoHeadLine(if i < |d| - 1 then d[i].body + "\n" else d[i].body)
  }

  /** What may be printed and read back. */
  predicate Printable(d: SectionMap) {
    WellFormed(d) && BodiesPlain(d)
  }

  predicate NoCut(t: string) {
    forall i: nat | i < |t| :: !Cut(t, i)
  }

  lemma CutIsHeadLine(first: string, rest: string, i: nat)
    requires '\n' !in first && Cut(first + "\n" + rest, i)
    ensures i >= |first| && HeadAt(rest, i - |first|)
    ensures i > |first| ==> rest[i - |first| - 1] == '\n'
  {
  }

  lemma NoCutIn(first: string, rest: string)
    requires '\n' !in first && NoHeadLine(rest)
    ensures NoCut(first + "\n" + rest)
  {
    forall i: nat | i < |first + "\n" + rest| ensures !Cut(first + "\n" + rest, i) {
      if Cut(first + "\n" + rest, i) { CutIsHeadLine(first, rest, i); }
    }
  }

  lemma CutInside(p: string, q: string, i: nat)
    requires p != "" && p[|p| - 1] == '\n' && i < |p| && Cut(p + "\n" + q, i)
    ensures Cut(p, i)
  {
  }

  /** A piece without cuts in front of a heading is cut off as a whole. */
  lemma {:induction false} PartsAtHead(p: string, q: string)
    requires HeadAt(q, 0) && forall i: nat | i < |p| :: !Cut(p + "\n" + q, i)
    ensures Parts(p + "\n" + q) == [p] + Parts(q)
  {
    var t := p + "\n" + q;
    assert t[|p| + 1] == q[0] && t[|p| + 2] == q[1] && t[|p| + 3] == q[2];
    assert Cut(t, |p|);
    assert NextCut(t, 0) == |p|;
    assert t[..|p|] == p && t[|p| + 1..] == q;
  }

  /** So is a piece that ends in a line break. */
  lemma {:induction false} PartsCut(p: string, q: string)
    requires p != "" && p[|p| - 1] == '\n' && NoCut(p) && HeadAt(q, 0)
    ensures Parts(p + "\n" + q) == [p] + Parts(q)
  {
    forall i: nat | i < |p| ensures !Cut(p + "\n" + q, i) {
      if Cut(p + "\n" + q, i) { CutInside(p, q, i); }
    }
    PartsAtHead(p, q);
  }

  lemma PartsWhole(t: string)
    requires NoCut(t)
    ensures Parts(t) == [t]
  {
  }

  lemma AlnumNotSpace(c: char)
    requires Alnum(c) || c == '_'
    ensures !IsSpace(c) && c != '\n' && c != '#'
  {
  }

  lemma CanonicalPlain(key: string)
    requires Canonical(key)
    ensures Trimmed(key) && '\n' !in key && key[0] != '#'
  {
    forall c | c in key ensures !IsSpace(c) && c != '\n' && c != '#' { AlnumNotSpace(c); }
    assert key[0] in key && key[|key| - 1] in key;
  }

  predicate Entry(s: Section) {
    Canonical(s.key) && s.body != "" && Trimmed(s.body)
  }

  lemma {:induction false} LineEndAt(first: string, rest: string)
    requires '\n' !in first && (rest == "" || rest[0] == '\n')
    ensures LineEnd(first + rest) == |first|
  {
    if first == "" {
      assert first + rest == rest;
    } else {
      assert (first + rest)[1..] == first[1..] + rest && first[0] in first;
      LineEndAt(first[1..], rest);
    }
  }

  lemma BlockShape(s: Section)
    requires Entry(s)
    ensures Trimmed(Block(s)) && "##" <= Block(s) && HeadAt(Block(s), 0)
    ensures LineEnd(Block(s)) == |s.key| + 3
    ensures Block(s)[..|s.key| + 3] == "## " + s.key && Block(s)[|s.key| + 4..] == s.body
  {
    var b, n := Block(s), |s.key| + 3;
    CanonicalPlain(s.key);
    assert b[..n] == "## " + s.key && b[n] == '\n' && b[n + 1..] == s.body;
    assert b[|b| - 1] == s.body[|s.body| - 1];
    assert b[0] == '#' && b[1] == '#' && b[2] == ' ';
    LineEndAt("## " + s.key, "\n" + s.body);
    assert b == ("## " + s.key) + ("\n" + s.body);
  }

  lemma HeadingOf(key: string)
    requires Canonical(key)
    ensures Strip(LStripHashes("## " + key)) == key
  {
    CanonicalPlain(key);
    var two, one, none := "## " + key, "# " + key, " " + key;
    assert two[1..] == one && one[1..] == none && none[1..] == key;
    assert LStripHashes(one) == LStripHashes(none) == none;
    assert LStrip(none) == LStrip(key) == key;
  }

  lemma StripBreak(s: string)
    requires Trimmed(s) && s != ""
    ensures Strip(s) == s && Strip(s + "\n") == s
  {
  }

  /** A printed block, with or without the line break behind it, adds its entry. */
  lemma AddBlock(out: SectionMap, s: Section, part: string)
    requires Entry(s) && DistinctKeys(out) && !HasKey(out, s.key)
    requires part == Block(s) || part == Block(s) + "\n"
    ensures AddPart(out, part) == out + [s]
  {
    BlockShape(s);
    StripBreak(Block(s));
    HeadingOf(s.key);
    StripBreak(s.body);
    CanonicalFixed(s.key);
    PutKeys(out, s.key, s.body);
  }

  /** The pieces a printed map is cut into. */
  function Blocks(d: SectionMap): seq<string> {
    if d == [] then [] else if |d| == 1 then [Block(d[0])] else [Block(d[0]) + "\n"] + Blocks(d[1..])
  }

  lemma PrintableTail(d: SectionMap)
    requires Printable(d) && |d| > 1
    ensures Printable(d[1..]) && Entry(d[0]) && NoHeadLine(d[0].body + "\n")
  {
  }

  lemma BlockUncut(s: Section, end: string)
    requires Entry(s) && NoHeadLine(s.body + end)
    ensures NoCut(Block(s) + end)
  {
    CanonicalPlain(s.key);
    NoCutIn("## " + s.key, s.body + end);
    assert "## " + s.key + "\n" + (s.body + end) == Block(s) + end;
  }

  lemma {:induction false} PrintStarts(d: SectionMap)
    requires d != [] && forall s | s in d :: Entry(s)
    ensures HeadAt(Print(d), 0) && Trimmed(Print(d))
  {
    BlockShape(d[0]);
    var b := Block(d[0]);
    if |d| > 1 {
      PrintStarts(d[1..]);
      var rest := Print(d[1..]);
      assert Print(d) == b + "\n\n" + rest;
      assert Print(d)[|Print(d)| - 1] == rest[|rest| - 1];
      assert Print(d)[0] == b[0] && Print(d)[1] == b[1] && Print(d)[2] == b[2];
    }
  }

  lemma PartsStep(s: Section, q: string)
    requires Entry(s) && NoHeadLine(s.body + "\n") && HeadAt(q, 0)
    ensures Parts(Block(s) + "\n\n" + q) == [Block(s) + "\n"] + Parts(q)
  {
    BlockUncut(s, "\n");
    PartsCut(Block(s) + "\n", q);
    assert Block(s) + "\n\n" + q == Block(s) + "\n" + "\n" + q;
  }

  lemma {:induction false} PartsOfPrint(d: SectionMap)
    requires Printable(d) && d != []
    ensures Parts(Print(d)) == Blocks(d)
  {
    if |d| == 1 {
      assert d[0] in d && d[0].body + "" == d[0].body && Block(d[0]) + "" == Block(d[0]);
      BlockUncut(d[0], "");
      PartsWhole(Block(d[0]));
    } else {
      PrintableTail(d);
      PartsOfPrint(d[1..]);
      PrintStarts(d[1..]);
      PartsStep(d[0], Print(d[1..]));
    }
  }

  lemma NextEntry(out: SectionMap, d: SectionMap)
    requires WellFormed(out + d) && d != []
    ensures DistinctKeys(out) && !HasKey(out, d[0].key) && Entry(d[0])
    ensures out + d == (out + [d[0]]) + d[1..]
  {
    assert (out + d)[|out|] == d[0] && d[0] in out + d;
    assert forall i | 0 <= i < |out| :: (out + d)[i] == out[i];
  }

  lemma {:induction false} AddBlocks(out: SectionMap, d: SectionMap)
    requires WellFormed(out + d)
    ensures AddParts(out, Blocks(d)) == out + d
    decreases |d|
  {
    if d == [] {
      assert out + d == out;
    } else {
      NextEntry(out, d);
      AddBlock(out, d[0], Blocks(d)[0]);
      AddBlocks(out + [d[0]], d[1..]);
      assert Blocks(d)[1..] == Blocks(d[1..]);
    }
  }

  /** Round trip: reading back a printed map gives the same entries, in order. */
  lemma {:induction false} RoundTrip(d: SectionMap)
    requires Printable(d)
    ensures Split(Print(d)) == d
  {
    if d != [] {
      PrintStarts(d);
      StripOfTrimmed(Print(d));
      PartsOfPrint(d);
      assert [] + d == d;
      AddBlocks([], d);
    }
  }
}
