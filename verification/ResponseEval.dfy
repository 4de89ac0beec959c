/** The bare-object path of `_extract_json` (copilot_engine/evaluators/response_eval.py):
    a scan for the outermost braces. */
module ResponseEval {

  /** Opening minus closing braces. */
  function Depth(s: string): int {
    var opening: int, closing: int := multiset(s)['{'], multiset(s)['}'];
    opening - closing
  }

  /** As many closing as opening braces, and at least one pair. */
  predicate Balanced(s: string) {
    '{' in s && Depth(s) == 0
  }

  /** `text.find("{")`. */
  function Find(text: string): (i: int)
    ensures -1 <= i < |text|
    ensures i == -1 ==> '{' !in text
    ensures i >= 0 ==> text[i] == '{' && '{' !in text[..i]
  {
    if text == "" then -1 else if text[0] == '{' then 0 else
    var i := Find(text[1..]);
    assert text == [text[0]] + text[1..];
    if i == -1 then -1 else
    assert text[..i + 1] == [text[0]] + text[1..][..i]; i + 1
  }

  /** text[start..end] is the shortest balanced block that starts at the first brace. */
  ghost predicate ShortestBlock(text: string, start: int, end: int) {
    && 0 <= start < end <= |text| && text[start] == '{' && '{' !in text[..start]
    && Balanced(text[start..end])
    && forall j | start < j < end :: !Balanced(text[start..j])
  }

  lemma DepthStep(text: string, start: nat, i: nat)
    requires start <= i < |text|
    ensures Depth(text[start..i + 1]) ==
            Depth(text[start..i]) + if text[i] == '{' then 1 else if text[i] == '}' then -1 else 0
    ensures text[start] in text[start..i + 1]
  {
    assert text[start..i + 1] == text[start..i] + [text[i]];
    assert text[start..i + 1][0] == text[start];
  }

  /** The scan returns the shortest balanced block from the first brace on, and the
      empty string exactly when no block from there on is balanced. */
  method ExtractObject(text: string) returns (block: string)
    ensures block != "" ==> exists start, end :: ShortestBlock(text, start, end) && block == text[start..end]
    ensures block == "" <==> forall start, end :: !ShortestBlock(text, start, end)
  {
    var start := Find(text);
    if start == -1 {
      return "";
    }
    var depth := 0;
    for i := start to |text|
      invariant depth == Depth(text[start..i]) && (i > start ==> depth > 0)
      invariant forall j | start < j <= i :: !Balanced(text[start..j])
    {
      DepthStep(text, start, i);
      if text[i] == '{' {
        depth := depth + 1;
      } else if text[i] == '}' {
        depth := depth - 1;
        if depth == 0 {
          assert ShortestBlock(text, start, i + 1);
          return text[start..i + 1];
        }
      }
    }
    block := "";
  }
}
