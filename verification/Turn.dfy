/**
 * One chat turn as a state machine: fifteen nodes, the routers between them, two
 * retry loops and the iteration budget. What the models, the retrievers and the
 * stores answer is an arbitrary input to each step.
 */
module Turn {
  import opened Evidence
  import opened Options
  import opened SemanticCache
  import Assembler
  import Citations
  import Text

  datatype Node =
    | InputGuard | CacheLookup | Router | MetadataLookup | Planner | Retriever | RetrievalGrader | Rewrite
    | Generator | HallucinationGrader | RetryGeneration | FinalizeAnswer | CacheWriter | InsufficientAnswer
    | EvalQueue

  datatype Role = User | Assistant

  datatype Message = Message(role: Role, content: string)

  datatype Intent = TextIntent | VisualIntent | MetadataIntent | MultiDocIntent

  /** The circuit-breaker counters. */
  datatype Counters = Counters(iterations: nat, retrievalRetries: nat, generationRetries: nat)

  /** The graph state; absent keys read as empty, zero or false. */
  datatype Thread = Thread(
    query: string, allowedIds: seq<IdText>, messages: seq<Message>, counters: Counters, intent: Intent,
    chunks: seq<Passage>, pageHits: seq<PageHit>, answer: string, citations: seq<Source>,
    cacheHit: bool, relevanceOk: bool, grounded: bool, insufficient: bool)
  {
    function Allowed(): set<nat> {
      ParsedIds(allowedIds)
    }
  }

  datatype Settings = Settings(maxIterations: nat, maxRetrievalRetries: nat, maxGenerationRetries: nat,
                               hallucinationCheck: bool, multimodal: bool, tokenBudget: nat, maxImages: nat)

  /** What the outside world answers during one step. */
  datatype Input = Input(hit: Option<Entry>, intent: Intent, listed: seq<Passage>,
                         found: seq<Passage>, pages: seq<PageHit>, verdict: bool, text: string,
                         store: Assembler.Store)

  // ---------------------------------------------------------------- nodes

  /** The collections the chunks behind an entry gave for a document. */
  function CollsOf(e: Entry, doc: nat): set<nat> {
    set p | p in e.pairs && p.0 == doc :: p.1
  }

  function BareSources(e: Entry, docs: seq<nat>): seq<Source> {
    if docs == [] then [] else [Bare(docs[0], CollsOf(e, docs[0]))] + BareSources(e, docs[1..])
  }

  /** The stored citations, or bare documents when there are none. */
  function HitSources(e: Entry): seq<Source> {
    if e.citations != [] then e.citations else BareSources(e, Ascending(e.Docs()))
  }

  function FullSources(cs: seq<Citations.Citation>): seq<Source> {
    if cs == [] then [] else FullSources(cs[..|cs| - 1]) + [Full(cs[|cs| - 1])]
  }

  function Context(cfg: Settings, st: Thread, store: Assembler.Store): Assembler.Assembled {
    Assembler.SimpleForm(st.chunks, st.pageHits, st.Allowed(), store, cfg.tokenBudget,
                         if cfg.multimodal then cfg.maxImages else 0)
  }

  function Say(messages: seq<Message>, content: string): seq<Message> {
    messages + [Message(Assistant, content)]
  }

  function InputGuardNode(st: Thread): Thread {
    if Text.Blank(st.query) then
      st.(insufficient := true, answer := "Empty query.", messages := Say(st.messages, "Empty query."))
    else st
  }

  function CacheLookupNode(st: Thread, input: Input): Thread {
    if st.Allowed() != {} && input.hit.Some? then
      var e := input.hit.value;
      st.(cacheHit := true, answer := e.answer, citations := HitSources(e), messages := Say(st.messages, e.answer))
    else st.(cacheHit := false)
  }

  function RetrieverNode(st: Thread, input: Input): Thread {
    st.(chunks := if st.Allowed() != {} then input.found else [],
        pageHits := if st.intent == VisualIntent && st.Allowed() != {} then input.pages else [])
  }

  function GeneratorNode(cfg: Settings, st: Thread, input: Input): Thread {
    var answer := Citations.Normalize(input.text);
    st.(answer := answer, citations := FullSources(Citations.Extract(answer, Context(cfg, st, input.store).packed)))
  }

  function HallucinationGraderNode(cfg: Settings, st: Thread, input: Input): Thread {
    if cfg.hallucinationCheck then st.(grounded := input.verdict)
    else
      var answer := Text.Strip(st.answer);
      st.(grounded := answer != "" && answer != Citations.INSUFFICIENT_ANSWER)
  }

  function InsufficientNode(st: Thread): Thread {
    st.(insufficient := true, answer := Citations.INSUFFICIENT_ANSWER, citations := [],
        messages := Say(st.messages, Citations.INSUFFICIENT_ANSWER))
  }

  /** The partial update of one node applied to the state. */
  function Update(cfg: Settings, node: Node, st: Thread, input: Input): Thread {
    match node
    case InputGuard => InputGuardNode(st)
    case CacheLookup => CacheLookupNode(st, input)
    case Router => st.(intent := input.intent)
    case MetadataLookup => st.(chunks := if st.Allowed() != {} then input.listed else [])
    case Planner => st
    case Retriever => RetrieverNode(st, input)
    case RetrievalGrader => st.(relevanceOk := st.chunks != [] && input.verdict)
    case Rewrite => st.(counters := st.counters.(retrievalRetries := st.counters.retrievalRetries + 1))
    case Generator => GeneratorNode(cfg, st, input)
    case HallucinationGrader => HallucinationGraderNode(cfg, st, input)
    case RetryGeneration => st.(counters := st.counters.(generationRetries := st.counters.generationRetries + 1))
    case FinalizeAnswer => st.(messages := Say(st.messages, st.answer))
    case CacheWriter => st
    case InsufficientAnswer => InsufficientNode(st)
    case EvalQueue => st
  }

  /** Every node bumps the iteration counter. */
  function RunNode(cfg: Settings, node: Node, st: Thread, input: Input): Thread {
    var next := Update(cfg, node, st, input);
    next.(counters := next.counters.(iterations := st.counters.iterations + 1))
  }

  // ---------------------------------------------------------------- routers

  predicate OverBudget(cfg: Settings, st: Thread) {
    st.counters.iterations >= cfg.maxIterations
  }

  function AfterRouter(cfg: Settings, st: Thread): Node {
    if OverBudget(cfg, st) then InsufficientAnswer
    else if st.intent == MultiDocIntent then Planner
    else if st.intent == MetadataIntent then MetadataLookup
    else Retriever
  }

  function AfterMetadata(cfg: Settings, st: Thread): Node {
    if OverBudget(cfg, st) then InsufficientAnswer else if st.chunks != [] then Generator else Retriever
  }

  function AfterGrade(cfg: Settings, st: Thread): Node {
    if OverBudget(cfg, st) then InsufficientAnswer
    else if st.relevanceOk then Generator
    else if st.counters.retrievalRetries < cfg.maxRetrievalRetries then Rewrite
    else if st.chunks != [] then Generator
    else InsufficientAnswer
  }

  function AfterHalluc(cfg: Settings, st: Thread): Node {
    if OverBudget(cfg, st) then InsufficientAnswer
    else if st.grounded then FinalizeAnswer
    else if st.counters.generationRetries < cfg.maxGenerationRetries then RetryGeneration
    else InsufficientAnswer
  }

  /** The edges of the graph; `None` is the end. */
  function NextNode(cfg: Settings, node: Node, st: Thread): Option<Node> {
    match node
    case InputGuard => Some(if st.insufficient then EvalQueue else CacheLookup)
    case CacheLookup => Some(if st.cacheHit then EvalQueue else Router)
    case Router => Some(AfterRouter(cfg, st))
    case MetadataLookup => Some(AfterMetadata(cfg, st))
    case Planner => Some(Retriever)
    case Retriever => Some(RetrievalGrader)
    case RetrievalGrader => Some(AfterGrade(cfg, st))
    case Rewrite => Some(Retriever)
    case Generator => Some(HallucinationGrader)
    case HallucinationGrader => Some(AfterHalluc(cfg, st))
    case RetryGeneration => Some(Generator)
    case FinalizeAnswer => Some(CacheWriter)
    case CacheWriter => Some(EvalQueue)
    case InsufficientAnswer => Some(EvalQueue)
    case EvalQueue => None
  }

  /** Where a turn stands: the node to run next, if any, and the state. */
  datatype Position = Position(node: Option<Node>, st: Thread)

  function Step(cfg: Settings, p: Position, input: Input): Position
    requires p.node.Some?
  {
    var st := RunNode(cfg, p.node.value, p.st, input);
    Position(NextNode(cfg, p.node.value, st), st)
  }

  /** Position `i + 1` comes from running the node at position `i`. */
  ghost predicate Follows(cfg: Settings, ps: seq<Position>, inputs: seq<Input>, i: nat)
    requires i < |inputs| && |ps| == |inputs| + 1
  {
    ps[i].node.Some? && ps[i + 1] == Step(cfg, ps[i], inputs[i])
  }

  /** A turn so far, from a thread with the counters reset: one node for each input. */
  ghost predicate IsTurn(cfg: Settings, st: Thread, ps: seq<Position>, inputs: seq<Input>) {
    && Resets(st)
    && |ps| == |inputs| + 1
    && ps[0] == Start(st)
    && forall i | 0 <= i < |inputs| :: Follows(cfg, ps, inputs, i)
  }

  /** What the cache writer stores: nothing when an identifier of a chunk does not parse. */
  function Writes(st: Thread, at: real): Option<Entry> {
    if st.answer != "" && st.chunks != [] && !st.insufficient && AllParse(st.chunks)
    then Some(Entry(st.answer, st.query, Pairs(st.chunks), st.citations, ScopeHash(st.Allowed()), at))
    else None
  }

  predicate AllParse(cs: seq<Passage>) {
    forall i | 0 <= i < |cs| :: cs[i].doc.Parsed().Some? && cs[i].coll.Parsed().Some?
  }

  function Pairs(cs: seq<Passage>): set<(nat, nat)>
    requires AllParse(cs)
  {
    set i | 0 <= i < |cs| :: (cs[i].doc.Parsed().value, cs[i].coll.Parsed().value)
  }

  /** A turn starts with the counters reset; every other key may be left over from the thread. */
  predicate Resets(st: Thread) {
    st.counters == Counters(0, 0, 0)
  }

  function Start(st: Thread): Position {
    Position(Some(InputGuard), st)
  }
}
