/** What a section key keeps of its heading. */
module SectionKeys {
  import opened Text

  /** Stripping removes white space at the two ends and nothing else. */
  lemma StripKeeps(s: string) returns (before: string, after: string)
    ensures s == before + Strip(s) + after && Blank(before) && Blank(after)
  {
    before := LStripKeeps(s);
    after := RStripKeeps(LStrip(s));
  }

  lemma {:induction false} LStripKeeps(s: string) returns (before: string)
    ensures s == before + LStrip(s) && Blank(before)
  {
    if s != "" && IsSpace(s[0]) {
      var rest := LStripKeeps(s[1..]);
      before := [s[0]] + rest;
    } else {
      before := "";
    }
  }

  lemma {:induction false} RStripKeeps(s: string) returns (after: string)
    ensures s == RStrip(s) + after && Blank(after)
  {
    if s != "" && IsSpace(s[|s| - 1]) {
      var rest := RStripKeeps(s[..|s| - 1]);
      after := rest + [s[|s| - 1]];
    } else {
      after := "";
    }
  }

  // ----- the words of a heading -----

  /** The length of the leading run of letters and digits. */
  function RunEnd(s: string): (n: nat)
    ensures n <= |s| && (forall i | 0 <= i < n :: Alnum(s[i])) && (n < |s| ==> !Alnum(s[n]))
    ensures s != "" && Alnum(s[0]) ==> n > 0
  {
    if s != "" && Alnum(s[0]) then 1 + RunEnd(s[1..]) else 0
  }

  /** The maximal runs of letters and digits. */
  function Words(s: string): seq<string>
    decreases |s|
  {
    if s == "" then []
    else if !Alnum(s[0]) then Words(s[1..])
    else [s[..RunEnd(s)]] + Words(s[RunEnd(s)..])
  }

  /** The words with single underscores between them. */
  function Snake(words: seq<string>): string {
    if words == [] then "" else if |words| == 1 then words[0] else words[0] + "_" + Snake(words[1..])
  }

  lemma {:induction false} SquashRun(s: string)
    requires s != "" && Alnum(s[0])
    ensures var n := RunEnd(s);
            Squash(s, true) == Squash(s, false) == s[..n] + if n == |s| then "" else "_" + Squash(s[n + 1..], true)
  {
    var n, rest := RunEnd(s), s[1..];
    assert s[..n] == [s[0]] + rest[..n - 1];
    if rest != "" && Alnum(rest[0]) {
      SquashRun(rest);
      assert RunEnd(rest) == n - 1;
      assert n < |s| ==> rest[n..] == s[n + 1..];
    } else {
      assert n == 1;
    }
  }

  /** A gap after the last word leaves one underscore. */
  function Tail(s: string): string {
    if Words(s) != [] && !Alnum(s[|s| - 1]) then "_" else ""
  }

  lemma {:induction false} WordsShape(s: string)
    ensures forall w | w in Words(s) :: w != "" && forall c | c in w :: Alnum(c)
    ensures Words(s) != [] ==> s != ""
    decreases |s|
  {
    if s != "" {
      if Alnum(s[0]) { WordsShape(s[RunEnd(s)..]); } else { WordsShape(s[1..]); }
    }
  }

  lemma {:induction false} GapOnly(s: string)
    requires Words(s) == []
    ensures forall i | 0 <= i < |s| :: !Alnum(s[i])
  {
    if s != "" { GapOnly(s[1..]); }
  }

  lemma WordsFirst(s: string, n: nat)
    requires s != "" && Alnum(s[0]) && n == RunEnd(s) < |s|
    ensures Words(s) == [s[..n]] + Words(s[n + 1..])
  {
    assert s[n..][1..] == s[n + 1..];
    assert Words(s[n..]) == Words(s[n + 1..]);
  }

  lemma SnakeCons(word: string, words: seq<string>)
    ensures Snake([word] + words) == if words == [] then word else word + "_" + Snake(words)
  {
    if words != [] { assert ([word] + words)[1..] == words; }
  }

  lemma TailStep(s: string, n: nat)
    requires s != "" && Alnum(s[0]) && n == RunEnd(s) < |s|
    ensures Words(s) != [] && Tail(s) == if Words(s[n + 1..]) == [] then "_" else Tail(s[n + 1..])
  {
    var rest := s[n + 1..];
    WordsFirst(s, n);
    if Words(rest) == [] { GapOnly(rest); }
    if rest != "" { assert s[|s| - 1] == rest[|rest| - 1]; }
    WordsShape(rest);
  }

  lemma Regroup(word: string, snake: string, tail: string)
    ensures (word + "_" + snake) + tail == word + "_" + (snake + tail)
  {
  }

  /** A word, a gap and what follows. */
  lemma WordsStep(s: string, n: nat)
    requires s != "" && Alnum(s[0]) && n == RunEnd(s) < |s|
    ensures Snake(Words(s)) + Tail(s) == s[..n] + "_" + (Snake(Words(s[n + 1..])) + Tail(s[n + 1..]))
  {
    var word, words, tail := s[..n], Words(s[n + 1..]), Tail(s[n + 1..]);
    assert Snake(Words(s)) == if words == [] then word else word + "_" + Snake(words) by {
      WordsFirst(s, n);
      SnakeCons(word, words);
    }
    assert Tail(s) == if words == [] then "_" else tail by { TailStep(s, n); }
    if words == [] {
      assert tail == "" && Snake(words) == "";
    } else {
      Regroup(word, Snake(words), tail);
    }
  }

  lemma {:induction false} SquashWords(s: string)
    ensures Words(s) != [] ==> s != ""
    ensures Squash(s, true) == Snake(Words(s)) + Tail(s)
    decreases |s|
  {
    if s != "" {
      if !Alnum(s[0]) {
        SquashWords(s[1..]);
      } else {
        var n := RunEnd(s);
        SquashRun(s);
        if n == |s| {
          assert Words(s) == [s[..n]];
        } else {
          SquashWords(s[n + 1..]);
          WordsStep(s, n);
        }
      }
    }
  }

  lemma {:induction false} SnakeEnds(words: seq<string>)
    requires words != [] && forall w | w in words :: w != "" && forall c | c in w :: Alnum(c)
    ensures var s := Snake(words); s != "" && Alnum(s[0]) && Alnum(s[|s| - 1])
  {
    var w := words[0];
    assert w in words && w[0] in w && w[|w| - 1] in w;
    if |words| > 1 {
      assert forall v | v in words[1..] :: v in words;
      SnakeEnds(words[1..]);
      var rest := Snake(words[1..]);
      assert Snake(words)[|Snake(words)| - 1] == rest[|rest| - 1];
      assert Snake(words)[0] == w[0];
    }
  }

  lemma SquashLeading(s: string)
    ensures LStripUnderscore(Squash(s, false)) == Squash(s, true)
  {
    SquashWords(s);
    WordsShape(s);
    if Words(s) != [] { SnakeEnds(Words(s)); }
    if s != "" {
      if Alnum(s[0]) {
        SquashRun(s);
      } else {
        assert Squash(s, false) == "_" + Squash(s, true);
        assert ("_" + Squash(s, true))[1..] == Squash(s, true);
      }
    }
  }

  lemma RStripOne(s: string)
    requires s == "" || s[|s| - 1] != '_'
    ensures RStripUnderscore(s) == s && RStripUnderscore(s + "_") == s
  {
    assert (s + "_")[..|s|] == s;
  }

  /** A key is made of the words of the lower-case heading, in order, with single
      underscores between them; a heading without words has the key `section`. */
  lemma KeyIsWords(heading: string)
    ensures var words := Words(Lower(heading));
            NormKey(heading) == if words == [] then "section" else Snake(words)
  {
    var s := Lower(heading);
    SquashLeading(s);
    SquashWords(s);
    WordsShape(s);
    if Words(s) != [] { SnakeEnds(Words(s)); }
    RStripOne(Snake(Words(s)));
    assert Snake(Words(s)) + "" == Snake(Words(s));
  }

  /** The same letter, or its upper case. */
  predicate CaseOf(lower: char, c: char) {
    c == lower || ('a' <= lower <= 'z' && c as int + 32 == lower as int)
  }

  lemma {:induction false} LowerCaseBlind(s: string, t: string)
    requires |s| == |t| && forall i | 0 <= i < |s| :: CaseOf(s[i], t[i])
    ensures Lower(s) == Lower(t)
  {
    if s != "" {
      LowerCaseBlind(s[1..], t[1..]);
      assert CaseOf(s[0], t[0]);
    }
  }

  /** The case of letters makes no difference. */
  lemma KeyCaseBlind(s: string, t: string)
    requires |s| == |t| && forall i | 0 <= i < |s| :: CaseOf(s[i], t[i])
    ensures NormKey(s) == NormKey(t)
  {
    LowerCaseBlind(s, t);
  }
}
