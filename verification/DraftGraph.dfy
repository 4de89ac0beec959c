/** The drafting graph (copilot_engine/graphs/draft_graph.py): draft, validate,
    at most one repair, fall back to a template. */
module DraftGraph {
  import opened Options
  import opened Text
  import opened Sections
  import opened Grounding

  datatype Chunk = Chunk(section: string, content: string)

  datatype Mode = Unset | Groq | Repaired | TemplateFallback

  datatype Node = LoadContext | ScrubInputs | Retrieve | GraphExpand | Draft | Validate | Repair | Fallback | Emit
                | End     // the graph returned
                | Raised  // the provider's exception left the graph

  /** Everything the graph gets from outside: the database and retriever answers,
      the scrubbed brief, and the provider, whose k-th call returns `replies(k)` or
      raises. */
  datatype Env = Env(found: bool, brief: string, retrieved: seq<Chunk>, anyBu: seq<Chunk>, expanded: Option<seq<Chunk>>,
                     llm: bool, replies: nat -> Option<string>, matcher: Matcher, texts: Texts)

  datatype DraftState = DraftState(error: bool, brief: string, chunks: seq<Chunk>,
                                   llmOutput: string, sections: SectionMap,
                                   mode: Mode, repairCount: nat, grounding: Option<Report>, llmCalls: nat)

  const START: DraftState := DraftState(false, "", [], "", [], Unset, 0, None, 0)

  function Contents(chunks: seq<Chunk>): seq<string> {
    if chunks == [] then [] else [chunks[0].content] + Contents(chunks[1..])
  }

  // ----- the template -----

  function Take(s: string, n: nat): string { if |s| <= n then s else s[..n] }

  function Slice(s: string, lo: nat, hi: nat): string
    requires lo <= hi
  {
    if |s| <= lo then "" else Take(s, hi)[lo..]
  }

  function Or(s: string, default: string): string { if s == "" then default else s }

  function Excerpts(chunks: seq<Chunk>): seq<string> {
    if chunks == [] then [] else
    ["[" + Or(chunks[0].section, "excerpt") + "]\n" + Take(chunks[0].content, 800)] + Excerpts(chunks[1..])
  }

  /** The fixed sentences of the template. */
  datatype Texts = Texts(noCorpus: string, noScope: string, intro: string, scope: string,
                         methodology: string, assumptions: string)

  function Template(texts: Texts, chunks: seq<Chunk>, brief: string): (d: SectionMap)
    ensures d != []
  {
    if chunks == [] then
      [Section("exec_summary", texts.noCorpus), Section("scope", Or(brief, texts.noScope))]
    else
      var joined := Join(Excerpts(if |chunks| <= 6 then chunks else chunks[..6]), "\n\n");
      [Section("exec_summary", texts.intro + Take(joined, 1500)),
       Section("scope", Or(brief, texts.scope)),
       Section("technical_approach", Or(Slice(joined, 1500, 3500), Take(chunks[0].content, 1200))),
       Section("methodology", texts.methodology),
       Section("assumptions", texts.assumptions)]
  }

  // ----- the nodes: each returns the state with its update merged in -----

  function LoadContextNode(env: Env, s: DraftState): DraftState {
    if env.found then s else s.(error := true, mode := TemplateFallback)
  }

  function ScrubInputsNode(env: Env, s: DraftState): DraftState { s.(brief := env.brief) }

  function RetrieveNode(env: Env, s: DraftState): DraftState {
    s.(chunks := if env.retrieved != [] then env.retrieved else env.anyBu)
  }

  function GraphExpandNode(env: Env, s: DraftState): DraftState {
    if env.expanded.Some? then s.(chunks := env.expanded.value) else s
  }

  function DraftNode(env: Env, s: DraftState): Option<DraftState> {
    if !env.llm then Some(s.(sections := Template(env.texts, s.chunks, s.brief), mode := TemplateFallback))
    else match env.replies(s.llmCalls)
      case None => None
      case Some(reply) => Some(s.(llmOutput := reply, sections := Split(reply),
                                  mode := Groq, llmCalls := s.llmCalls + 1))
  }

  function ValidateNode(env: Env, s: DraftState): DraftState {
    var text := if s.llmOutput != "" then s.llmOutput else Print(s.sections);
    s.(grounding := Some(Validated(env.matcher, text, Contents(s.chunks))))
  }

  function AfterValidate(s: DraftState): Node {
    if s.mode == TemplateFallback then Emit
    else if s.grounding.Some? && PassesHardGate(s.grounding.value, HARD_MIN, false) then Emit
    else if s.repairCount < 1 then Repair
    else Fallback
  }

  function RepairNode(env: Env, s: DraftState): Option<DraftState> {
    if !env.llm then Some(s.(mode := TemplateFallback))
    else match env.replies(s.llmCalls)
      case None => None
      case Some(reply) => Some(s.(repairCount := s.repairCount + 1, llmOutput := reply, sections := Split(reply),
                                  mode := Repaired, llmCalls := s.llmCalls + 1))
  }

  function FallbackNode(env: Env, s: DraftState): DraftState {
    s.(sections := Template(env.texts, s.chunks, s.brief), mode := TemplateFallback)
  }

  function EmitNode(env: Env, s: DraftState): DraftState {
    if s.sections == [] then s.(sections := Template(env.texts, s.chunks, s.brief)) else s
  }

  // ----- the outcome, said without the graph -----

  /** The chunks every node after expansion works with. */
  function ChunksOf(env: Env): seq<Chunk> {
    if env.expanded.Some? then env.expanded.value else if env.retrieved != [] then env.retrieved else env.anyBu
  }

  predicate Accepts(env: Env, text: string) {
    Grounded(env.matcher, text, Contents(ChunksOf(env)))
  }

  datatype Verdict = UseReply(k: nat) | UseTemplate | ProviderRaises

  /** Accept the first reply if it passes the gate, else the second if that does,
      else use the template; a provider exception ends the run. */
  function VerdictOf(env: Env): Verdict {
    if !env.llm then UseTemplate
    else if env.replies(0).None? then ProviderRaises
    else if Accepts(env, env.replies(0).value) then UseReply(0)
    else if env.replies(1).None? then ProviderRaises
    else if Accepts(env, env.replies(1).value) then UseReply(1)
    else UseTemplate
  }

  predicate Outcome(env: Env, node: Node, s: DraftState) {
    && s.error == !env.found
    && match VerdictOf(env)
       case ProviderRaises => node == Raised
       case UseTemplate => node == End && s.mode == TemplateFallback
                           && s.sections == Template(env.texts, ChunksOf(env), env.brief)
                           && s.llmCalls == (if env.llm then 2 else 0) && s.repairCount == (if env.llm then 1 else 0)
       case UseReply(k) => node == End && s.mode == (if k == 0 then Groq else Repaired)
                           && env.replies(k).Some? && s.sections == Split(env.replies(k).value)
                           && s.llmCalls == k + 1 && s.repairCount == k
  }

  /** The text the validator sees is the reply, also when the reply is empty. */
  lemma ValidatedText(reply: string)
    ensures (if reply != "" then reply else Print(Split(reply))) == reply
  {
  }

  lemma AcceptedNotEmpty(env: Env, reply: string)
    requires env.matcher.Valid() && Accepts(env, reply)
    ensures Split(reply) != []
  {
    GroundedNotBlank(env.matcher, reply, Contents(ChunksOf(env)));
    SplitWellFormed(reply);
  }

  /** The first draft is waiting for its verdict, or the repaired one is. */
  predicate Drafted(env: Env, s: DraftState) {
    && env.llm && s.brief == env.brief && s.chunks == ChunksOf(env) && s.sections == Split(s.llmOutput)
    && s.repairCount <= 1 && s.llmCalls == s.repairCount + 1
    && env.replies(s.repairCount) == Some(s.llmOutput)
    && s.mode == (if s.repairCount == 0 then Groq else Repaired)
    && (s.repairCount == 1 ==> env.replies(0).Some? && !Accepts(env, env.replies(0).value))
  }

  predicate Untouched(s: DraftState) {
    s.llmCalls == 0 == s.repairCount && s.llmOutput == ""
  }

  predicate FromTemplate(env: Env, s: DraftState) {
    && !env.llm && Untouched(s) && s.brief == env.brief && s.chunks == ChunksOf(env)
    && s.mode == TemplateFallback && s.sections == Template(env.texts, s.chunks, s.brief)
  }

  /** Where a run can be between two nodes. */
  predicate Reached(env: Env, node: Node, s: DraftState) {
    && (node != LoadContext ==> s.error == !env.found)
    && match node
       case LoadContext => s == START
       case ScrubInputs => Untouched(s)
       case Retrieve => Untouched(s) && s.brief == env.brief
       case GraphExpand => Untouched(s) && s.brief == env.brief && s.chunks == RetrieveNode(env, s).chunks
       case Draft => Untouched(s) && s.brief == env.brief && s.chunks == ChunksOf(env)
       case Validate => Drafted(env, s) || FromTemplate(env, s)
       case Repair => Drafted(env, s) && s.repairCount == 0 && !Accepts(env, s.llmOutput)
       case Fallback => Drafted(env, s) && s.repairCount == 1 && !Accepts(env, s.llmOutput)
       case Emit => s.sections != [] && Outcome(env, End, s)
       case _ => Outcome(env, node, s) && (node == End ==> s.sections != [])
  }

  function Rank(node: Node, s: DraftState): nat {
    match node
    case Draft => 7
    case Validate => if s.repairCount == 0 then 6 else 3
    case Repair => 5
    case Fallback => 2
    case Emit => 1
    case _ => 0
  }

  lemma DraftStep(env: Env, s: DraftState)
    requires Reached(env, Draft, s)
    ensures match DraftNode(env, s)
            case None => Reached(env, Raised, s)
            case Some(s') => Reached(env, Validate, s') && s'.llmCalls <= 1 && s'.repairCount == 0
  {
  }

  lemma ValidateStep(env: Env, s: DraftState)
    requires env.matcher.Valid() && Reached(env, Validate, s)
    ensures var s' := ValidateNode(env, s);
            && Reached(env, AfterValidate(s'), s') && Rank(AfterValidate(s'), s') < Rank(Validate, s)
            && s'.llmCalls == s.llmCalls && s'.repairCount == s.repairCount
  {
    if env.llm {
      ValidatedText(s.llmOutput);
      if Accepts(env, s.llmOutput) { AcceptedNotEmpty(env, s.llmOutput); }
    }
  }

  lemma RepairStep(env: Env, s: DraftState)
    requires Reached(env, Repair, s)
    ensures env.llm  // a repair without a provider cannot be reached
    ensures match RepairNode(env, s)
            case None => Reached(env, Raised, s)
            case Some(s') => Reached(env, Validate, s') && s'.llmCalls == 2 && s'.repairCount == 1
  {
  }

  lemma EarlyStep(env: Env, s: DraftState)
    ensures Reached(env, LoadContext, s) ==> Reached(env, ScrubInputs, LoadContextNode(env, s))
    ensures Reached(env, ScrubInputs, s) ==> Reached(env, Retrieve, ScrubInputsNode(env, s))
    ensures Reached(env, Retrieve, s) ==> Reached(env, GraphExpand, RetrieveNode(env, s))
    ensures Reached(env, GraphExpand, s) ==> Reached(env, Draft, GraphExpandNode(env, s))
  {
  }

  lemma FallbackStep(env: Env, s: DraftState)
    requires Reached(env, Fallback, s)
    ensures Reached(env, Emit, FallbackNode(env, s))
  {
  }

  lemma EmitStep(env: Env, s: DraftState)
    requires Reached(env, Emit, s)
    ensures Reached(env, End, EmitNode(env, s)) && EmitNode(env, s) == s
  {
  }

  /** The nodes up to the first draft, which always run in this order. */
  method Prepare(env: Env) returns (s: DraftState)
    ensures Reached(env, Draft, s)
  {
    EarlyStep(env, START);
    s := LoadContextNode(env, START);
    EarlyStep(env, s);
    s := ScrubInputsNode(env, s);
    EarlyStep(env, s);
    s := RetrieveNode(env, s);
    EarlyStep(env, s);
    s := GraphExpandNode(env, s);
  }

  /** Running the graph: it always returns or lets a provider exception through, and
      what it returns is decided by the replies and the gate alone. */
  method RunDraftGraph(env: Env) returns (node: Node, s: DraftState)
    requires env.matcher.Valid()
    ensures Outcome(env, node, s)
    ensures node == End ==> s.sections != []
    ensures s.llmCalls <= 2 && s.repairCount <= 1
  {
    s := Prepare(env);
    node := Draft;
    while node != End && node != Raised
      invariant Reached(env, node, s) && node in {Draft, Validate, Repair, Fallback, Emit, End, Raised}
      invariant s.llmCalls <= 2 && s.repairCount <= 1
      decreases Rank(node, s)
    {
      match node {
        case Draft =>
          DraftStep(env, s);
          match DraftNode(env, s) {
            case None => node := Raised;
            case Some(s') => s, node := s', Validate;
          }
        case Validate =>
          ValidateStep(env, s);
          s := ValidateNode(env, s);
          node := AfterValidate(s);
        case Repair =>
          RepairStep(env, s);
          match RepairNode(env, s) {
            case None => node := Raised;
            case Some(s') => s, node := s', Validate;
          }
        case Fallback =>
          FallbackStep(env, s);
          s, node := FallbackNode(env, s), Emit;
        case Emit =>
          EmitStep(env, s);
          s, node := EmitNode(env, s), End;
      }
    }
  }

  /** What an accepted text has: a passing score, context, no fabrication flag, words
      of the context. */
  ghost predicate WellGrounded(env: Env, text: string) {
    && Validated(env.matcher, text, Contents(ChunksOf(env))).score >= HARD_MIN
    && ChunksOf(env) != [] && Flags(env.matcher.fabrications, text) == []
    && Shared(env.matcher, text, Contents(ChunksOf(env))) != {} && !Blank(text)
  }

  lemma AcceptedIsWellGrounded(env: Env, text: string)
    requires env.matcher.Valid() && Accepts(env, text)
    ensures WellGrounded(env, text)
  {
    GroundedNotBlank(env.matcher, text, Contents(ChunksOf(env)));
    GroundedExactly(env.matcher, text, Contents(ChunksOf(env)));
  }

  lemma VerdictReply(env: Env)
    requires VerdictOf(env).UseReply?
    ensures var k := VerdictOf(env).k; k <= 1 && env.replies(k).Some? && Accepts(env, env.replies(k).value)
  {
  }

  /** Safety of what is emitted: sections that do not come from the template are the
      split of the provider's last reply, and that reply is well grounded. */
  lemma {:induction false} EmittedDraftIsGrounded(env: Env, s: DraftState)
    requires env.matcher.Valid() && Outcome(env, End, s) && s.mode != TemplateFallback
    ensures s.llmCalls > 0 && env.replies(s.llmCalls - 1).Some?
    ensures var reply := env.replies(s.llmCalls - 1).value;
            && s.sections == Split(reply) && WellFormed(s.sections) && s.sections != []
            && WellGrounded(env, reply)
  {
    assert VerdictOf(env).UseReply?;
    VerdictReply(env);
    var reply := env.replies(s.llmCalls - 1).value;
    AcceptedIsWellGrounded(env, reply);
    SplitWellFormed(reply);
  }

  /** A missing proposal does not stop a draft: the template mode that node sets is
      overwritten later on.  A run that returns ends in template mode exactly when
      there is no provider or both replies fail the gate, and apart from the error
      flag it ends as if the proposal had been found. */
  lemma MissingProposalStillDrafts(env: Env, node: Node, s: DraftState)
    requires Outcome(env, node, s) && !env.found
    ensures node == End ==> s.error
    ensures node == End ==> (s.mode == TemplateFallback <==>
              !env.llm || (!(env.replies(0).Some? && Accepts(env, env.replies(0).value)) &&
                           !(env.replies(1).Some? && Accepts(env, env.replies(1).value))))
    ensures Outcome(env.(found := true), node, s.(error := false))
  {
    var found := env.(found := true);
    assert ChunksOf(found) == ChunksOf(env) && VerdictOf(found) == VerdictOf(env);
  }

  // ----- the outcome in terms of the replies -----

  /** The k-th reply came and passes the gate. */
  predicate Passes(env: Env, k: nat) {
    env.replies(k).Some? && Grounded(env.matcher, env.replies(k).value, Contents(ChunksOf(env)))
  }

  /** The k-th reply came and does not pass. */
  predicate Misses(env: Env, k: nat) {
    env.replies(k).Some? && !Grounded(env.matcher, env.replies(k).value, Contents(ChunksOf(env)))
  }

  /** How a run ends.  With a provider: in mode groq if the first reply passes, in mode
      repaired if only the second does, in template mode after two misses, and with
      the provider's exception if a reply it needs does not come.  Without one: in
      template mode.  Passing replies are emitted as they parse. */
  lemma DraftEnds(env: Env, node: Node, s: DraftState)
    requires Outcome(env, node, s)
    ensures s.error <==> !env.found
    ensures node == Raised <==> env.llm && (env.replies(0) == None || (Misses(env, 0) && env.replies(1) == None))
    ensures node == End <==> node != Raised
    ensures node == End ==>
              && (s.mode == Groq <==> env.llm && Passes(env, 0))
              && (s.mode == Repaired <==> env.llm && Misses(env, 0) && Passes(env, 1))
              && (s.mode == TemplateFallback <==> !env.llm || (Misses(env, 0) && Misses(env, 1)))
              && s.llmCalls == (if !env.llm then 0 else if s.mode == Groq then 1 else 2)
              && s.repairCount == (if s.llmCalls == 2 then 1 else 0)
              && (s.mode == Groq ==> s.sections == Split(env.replies(0).value))
              && (s.mode == Repaired ==> s.sections == Split(env.replies(1).value))
              && (s.mode == TemplateFallback ==> s.sections == Template(env.texts, ChunksOf(env), env.brief))
  {
  }

  /** The chunks that count: the expanded ones, and if that failed those retrieved for
      the business unit, or for any unit if there are none. */
  lemma ContextIs(env: Env)
    ensures env.expanded != None ==> ChunksOf(env) == env.expanded.value
    ensures env.expanded == None && |env.retrieved| > 0 ==> ChunksOf(env) == env.retrieved
    ensures env.expanded == None && |env.retrieved| == 0 ==> ChunksOf(env) == env.anyBu
  {
  }

  // ----- the template -----

  /** The chunk's section in brackets, or `excerpt`, over its first 800 characters. */
  predicate ExcerptOf(part: string, chunk: Chunk) {
    var title := "[" + (if chunk.section == "" then "excerpt" else chunk.section) + "]\n";
    && title <= part && part[|title|..] <= chunk.content
    && |part| - |title| == (if |chunk.content| < 800 then |chunk.content| else 800)
  }

  ghost predicate Excerpted(parts: seq<string>, chunks: seq<Chunk>) {
    |parts| == |chunks| && forall i | 0 <= i < |chunks| :: ExcerptOf(parts[i], chunks[i])
  }

  lemma ExcerptIs(chunk: Chunk)
    ensures ExcerptOf("[" + Or(chunk.section, "excerpt") + "]\n" + Take(chunk.content, 800), chunk)
  {
    var title := "[" + Or(chunk.section, "excerpt") + "]\n";
    assert (title + Take(chunk.content, 800))[|title|..] == Take(chunk.content, 800);
  }

  lemma {:induction false} ExcerptsAre(chunks: seq<Chunk>)
    ensures Excerpted(Excerpts(chunks), chunks)
  {
    if chunks != [] {
      ExcerptsAre(chunks[1..]);
      ExcerptIs(chunks[0]);
      var rest := Excerpts(chunks[1..]);
      forall i | 0 <= i < |chunks| ensures ExcerptOf(Excerpts(chunks)[i], chunks[i]) {
        if i > 0 { assert ExcerptOf(rest[i - 1], chunks[1..][i - 1]); }
      }
    }
  }

  /** The two parts of the excerpts the template quotes follow each other: together
      they are the first 3500 characters. */
  lemma QuotesFollow(joined: string)
    ensures Take(joined, 1500) + Slice(joined, 1500, 3500) == Take(joined, 3500)
    ensures Take(joined, 3500) <= joined && |Take(joined, 3500)| == if |joined| < 3500 then |joined| else 3500
  {
  }

  lemma SixChunks(chunks: seq<Chunk>) returns (parts: seq<string>)
    ensures Excerpted(parts, if |chunks| <= 6 then chunks else chunks[..6])
    ensures chunks != [] ==> parts == Excerpts(if |chunks| <= 6 then chunks else chunks[..6])
  {
    parts := Excerpts(if |chunks| <= 6 then chunks else chunks[..6]);
    ExcerptsAre(if |chunks| <= 6 then chunks else chunks[..6]);
  }

  /** What the fallback says.  Without chunks: that there are none, and the brief or
      the fixed scope.  With chunks: the fixed sentences, the brief or the fixed scope,
      and the excerpts of the first six chunks, up to 1500 characters of them in the
      summary and the next 2000 in the approach, or else the start of the first chunk. */
  lemma TemplateSays(texts: Texts, chunks: seq<Chunk>, brief: string) returns (parts: seq<string>)
    ensures chunks == [] ==>
              Template(texts, chunks, brief) ==
              [Section("exec_summary", texts.noCorpus), Section("scope", if brief == "" then texts.noScope else brief)]
    ensures chunks != [] ==>
              var d, joined := Template(texts, chunks, brief), Join(parts, "\n\n");
              && Excerpted(parts, if |chunks| <= 6 then chunks else chunks[..6])
              && |d| == 5
              && d[0].key == "exec_summary" && texts.intro <= d[0].body
              && d[1] == Section("scope", if brief == "" then texts.scope else brief)
              && d[2].key == "technical_approach"
              && d[3] == Section("methodology", texts.methodology)
              && d[4] == Section("assumptions", texts.assumptions)
              && (var quoted := d[0].body[|texts.intro|..];
                  && |quoted| <= 1500 && quoted <= joined
                  && (|joined| <= 1500 ==> quoted == joined && d[2].body == Take(chunks[0].content, 1200))
                  && (|joined| > 1500 ==>
                        && |quoted| == 1500
                        && quoted + d[2].body <= joined
                        && |quoted + d[2].body| == (if |joined| < 3500 then |joined| else 3500)))
  {
    parts := SixChunks(chunks);
    if chunks != [] {
      var joined := Join(parts, "\n\n");
      var d := Template(texts, chunks, brief);
      assert d[0] == Section("exec_summary", texts.intro + Take(joined, 1500));
      assert d[0].body[|texts.intro|..] == Take(joined, 1500);
      assert d[2] == Section("technical_approach", Or(Slice(joined, 1500, 3500), Take(chunks[0].content, 1200)));
      QuotesFollow(joined);
    }
  }
}
