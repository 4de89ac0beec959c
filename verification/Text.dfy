/** The string operations of the section parser: `strip`, `lower`, and the key
    normalisation built from them. */
module Text {

  /** The characters `str.strip()` removes and `\s` matches. */
  predicate IsSpace(c: char) {
    || '\t' <= c <= '\r'
    || '\U{1C}' <= c <= ' '
    || c == '\U{85}' || c == '\U{A0}' || c == '\U{1680}'
    || '\U{2000}' <= c <= '\U{200A}'
    || c == '\U{2028}' || c == '\U{2029}' || c == '\U{202F}' || c == '\U{205F}' || c == '\U{3000}'
  }

  predicate Blank(s: string) {
    forall c | c in s :: IsSpace(c)
  }

  /** Neither starts nor ends with white space. */
  predicate Trimmed(s: string) {
    s != "" ==> !IsSpace(s[0]) && !IsSpace(s[|s| - 1])
  }

  function LStrip(s: string): string {
    if s != "" && IsSpace(s[0]) then LStrip(s[1..]) else s
  }

  function RStrip(s: string): string {
    if s != "" && IsSpace(s[|s| - 1]) then RStrip(s[..|s| - 1]) else s
  }

  function Strip(s: string): string { RStrip(LStrip(s)) }

  lemma {:induction false} LStripDrops(s: string)
    ensures LStrip(s) != "" ==> !IsSpace(LStrip(s)[0])
    ensures LStrip(s) == "" <==> Blank(s)
  {
    if s != "" {
      assert s == [s[0]] + s[1..];
      if IsSpace(s[0]) { LStripDrops(s[1..]); }
    }
  }

  lemma {:induction false} RStripTrims(s: string)
    requires s != "" ==> !IsSpace(s[0])
    ensures Trimmed(RStrip(s))
    ensures RStrip(s) == "" <==> s == ""
  {
    if s != "" && IsSpace(s[|s| - 1]) { RStripTrims(s[..|s| - 1]); }
  }

  /** Stripping gives a trimmed text, empty exactly for blank input. */
  lemma StripTrims(s: string)
    ensures Trimmed(Strip(s))
    ensures Strip(s) == "" <==> Blank(s)
  {
    LStripDrops(s);
    RStripTrims(LStrip(s));
  }

  lemma StripOfTrimmed(s: string)
    requires Trimmed(s)
    ensures Strip(s) == s
  {
  }

  // ----- section keys -----

  predicate Alnum(c: char) {
    'a' <= c <= 'z' || '0' <= c <= '9'
  }

  /** `str.lower()` as far as the key pattern can tell: the upper-case letters, and
      the two further characters whose lower case holds a letter of the pattern. */
  function LowerChar(c: char): string {
    if 'A' <= c <= 'Z' then [(c as int + 32) as char]
    else if c == '\U{212A}' then "k"
    else if c == '\U{130}' then "i\U{307}"
    else [c]
  }

  function Lower(s: string): string {
    if s == "" then "" else LowerChar(s[0]) + Lower(s[1..])
  }

  /** `re.sub(r"[^a-z0-9]+", "_", s)`, where `inGap` says that the current run of
      other characters already has its underscore. */
  function Squash(s: string, inGap: bool): string {
    if s == "" then ""
    else if Alnum(s[0]) then [s[0]] + Squash(s[1..], false)
    else if inGap then Squash(s[1..], true)
    else "_" + Squash(s[1..], true)
  }

  function LStripUnderscore(s: string): string {
    if s != "" && s[0] == '_' then LStripUnderscore(s[1..]) else s
  }

  function RStripUnderscore(s: string): string {
    if s != "" && s[|s| - 1] == '_' then RStripUnderscore(s[..|s| - 1]) else s
  }

  function NormKey(heading: string): string {
    var key := RStripUnderscore(LStripUnderscore(Squash(Lower(heading), false)));
    if key == "" then "section" else key
  }

  /** Lower-case alphanumeric runs separated by single underscores. */
  predicate Spaced(s: string) {
    && (forall c | c in s :: Alnum(c) || c == '_')
    && (forall i | 0 <= i < |s| - 1 :: !(s[i] == '_' && s[i + 1] == '_'))
  }

  predicate Canonical(key: string) {
    key != "" && Spaced(key) && key[0] != '_' && key[|key| - 1] != '_'
  }

  lemma {:induction false} SquashSpaced(s: string, inGap: bool)
    ensures Spaced(Squash(s, inGap))
    ensures inGap && Squash(s, inGap) != "" ==> Squash(s, inGap)[0] != '_'
  {
    if s != "" {
      SquashSpaced(s[1..], !Alnum(s[0]));
      var rest := Squash(s[1..], !Alnum(s[0]));
      if Alnum(s[0]) {
        assert Squash(s, inGap) == [s[0]] + rest;
      } else if !inGap {
        assert Squash(s, inGap) == "_" + rest;
      }
    }
  }

  lemma {:induction false} LStripUnderscoreSpaced(s: string)
    requires Spaced(s)
    ensures Spaced(LStripUnderscore(s)) && (LStripUnderscore(s) != "" ==> LStripUnderscore(s)[0] != '_')
  {
  }

  lemma {:induction false} RStripUnderscoreSpaced(s: string)
    requires Spaced(s) && (s != "" ==> s[0] != '_')
    ensures var r := RStripUnderscore(s); Spaced(r) && (r != "" ==> r[0] != '_' && r[|r| - 1] != '_')
  {
  }

  /** Every normalised key is canonical. */
  lemma NormKeyCanonical(heading: string)
    ensures Canonical(NormKey(heading))
  {
    var squashed := Squash(Lower(heading), false);
    SquashSpaced(Lower(heading), false);
    LStripUnderscoreSpaced(squashed);
    RStripUnderscoreSpaced(LStripUnderscore(squashed));
  }

  lemma {:induction false} LowerFixes(s: string)
    requires forall c | c in s :: Alnum(c) || c == '_'
    ensures Lower(s) == s
  {
    if s != "" {
      LowerFixes(s[1..]);
      assert s[0] in s && LowerChar(s[0]) == [s[0]];
    }
  }

  lemma {:induction false} SquashFixes(s: string, inGap: bool)
    requires Spaced(s) && (inGap && s != "" ==> s[0] != '_')
    ensures Squash(s, inGap) == s
  {
    if s != "" { SquashFixes(s[1..], s[0] == '_'); }
  }

  /** Canonical keys are exactly the fixed points of normalisation. */
  lemma CanonicalFixed(key: string)
    ensures NormKey(key) == key <==> Canonical(key)
  {
    NormKeyCanonical(key);
    if Canonical(key) {
      LowerFixes(key);
      SquashFixes(key, false);
    }
  }

  /** Normalising twice changes nothing. */
  lemma NormKeyIdempotent(heading: string)
    ensures NormKey(NormKey(heading)) == NormKey(heading)
  {
    NormKeyCanonical(heading);
    CanonicalFixed(NormKey(heading));
  }
}
