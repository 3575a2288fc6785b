/** Which node follows which, and what the nodes of a turn work on, told from the answers of the outside world. */
module TurnRoutes {
  import opened Evidence
  import opened Options
  import opened SemanticCache
  import opened Turn
  import opened TurnOutcome
  import opened TurnProperties
  import Citations
  import Text

  // ---------------------------------------------------------------- one edge

  predicate IsHit(st: Thread, input: Input) {
    st.Allowed() != {} && input.hit.Some?
  }

  predicate Lists(st: Thread, input: Input) {
    st.Allowed() != {} && input.listed != []
  }

  /** The edges up to the first retrieval. */
  lemma EarlyEdges(cfg: Settings, node: Node, st: Thread, input: Input)
    ensures var next := RunNode(cfg, node, st, input);
            var to, left := NextNode(cfg, node, next), st.counters.iterations + 1 < cfg.maxIterations;
            var refused := Text.Blank(st.query) || st.insufficient;
            && (to == Some(CacheLookup) <==> node == InputGuard && !refused)
            && (to == Some(Router) <==> node == CacheLookup && !IsHit(st, input))
            && (to == Some(Planner) <==> node == Router && left && input.intent == MultiDocIntent)
            && (to == Some(MetadataLookup) <==> node == Router && left && input.intent == MetadataIntent)
            && (to == Some(Retriever) <==>
                  || node == Planner || node == Rewrite
                  || (node == Router && left && (input.intent == TextIntent || input.intent == VisualIntent))
                  || (node == MetadataLookup && left && !Lists(st, input)))
            && (to == Some(EvalQueue) <==>
                  || (node == InputGuard && refused) || (node == CacheLookup && IsHit(st, input))
                  || node == CacheWriter || node == InsufficientAnswer)
            && (to == None <==> node == EvalQueue)
  {
    hide Text.Blank, Text.Strip, Citations.Normalize, Citations.Extract,
         Context, FullSources, HitSources, Thread.Allowed, Say;
  }

  /** The edges of the two retry loops. */
  lemma LateEdges(cfg: Settings, node: Node, st: Thread, input: Input)
    ensures var next := RunNode(cfg, node, st, input);
            var to, left := NextNode(cfg, node, next), st.counters.iterations + 1 < cfg.maxIterations;
            var relevant, accepted := st.chunks != [] && input.verdict, Accepts(cfg, st.answer, input.verdict);
            var rewrites := st.counters.retrievalRetries < cfg.maxRetrievalRetries;
            var regenerates := st.counters.generationRetries < cfg.maxGenerationRetries;
            && (to == Some(RetrievalGrader) <==> node == Retriever)
            && (to == Some(Rewrite) <==> node == RetrievalGrader && left && !relevant && rewrites)
            && (to == Some(Generator) <==>
                  || node == RetryGeneration || (node == MetadataLookup && left && Lists(st, input))
                  || (node == RetrievalGrader && left && st.chunks != [] && (input.verdict || !rewrites)))
            && (to == Some(HallucinationGrader) <==> node == Generator)
            && (to == Some(FinalizeAnswer) <==> node == HallucinationGrader && left && accepted)
            && (to == Some(RetryGeneration) <==> node == HallucinationGrader && left && !accepted && regenerates)
            && (to == Some(CacheWriter) <==> node == FinalizeAnswer)
            && (to == Some(InsufficientAnswer) <==>
                  || (!left && (node == Router || node == MetadataLookup
                                || node == RetrievalGrader || node == HallucinationGrader))
                  || (node == RetrievalGrader && st.chunks == [] && !rewrites)
                  || (node == HallucinationGrader && !accepted && !regenerates))
  {
    hide Text.Blank, Text.Strip, Citations.Normalize, Citations.Extract,
         Context, FullSources, HitSources, Thread.Allowed, Say;
  }

  // ---------------------------------------------------------------- every turn

  /** How often the node ran before position `i`. */
  function Visits(ps: seq<Position>, node: Node, i: nat): nat
    requires i <= |ps|
  {
    if i == 0 then 0 else Visits(ps, node, i - 1) + (if ps[i - 1].node == Some(node) then 1 else 0)
  }

  lemma StepCounts(cfg: Settings, ps: seq<Position>, inputs: seq<Input>, i: nat)
    requires |ps| == |inputs| + 1 && i < |inputs| && Follows(cfg, ps, inputs, i)
    ensures ps[i + 1].st.counters == AfterNode(ps[i].node.value, ps[i].st.counters)
  {
    hide RunNode, NextNode, AfterNode;
    RunNodeCounts(cfg, ps[i].node.value, ps[i].st, inputs[i]);
  }

  /** The counters count the nodes run before position `i`. */
  ghost predicate Counted(ps: seq<Position>, i: nat)
    requires i < |ps|
  {
    ps[i].st.counters == Counters(i, Visits(ps, Rewrite, i), Visits(ps, RetryGeneration, i))
  }

  lemma CountedStep(ps: seq<Position>, i: nat)
    requires i + 1 < |ps| && ps[i].node.Some? && Counted(ps, i)
    requires ps[i + 1].st.counters == AfterNode(ps[i].node.value, ps[i].st.counters)
    ensures Counted(ps, i + 1)
  {
  }

  lemma StepIsCounted(cfg: Settings, ps: seq<Position>, inputs: seq<Input>, i: nat)
    requires |ps| == |inputs| + 1 && i < |inputs| && Follows(cfg, ps, inputs, i) && Counted(ps, i)
    ensures Counted(ps, i + 1)
  {
    StepCounts(cfg, ps, inputs, i);
    assert ps[i].node.Some?;
    hide Follows, AfterNode, Counted;
    CountedStep(ps, i);
  }

  lemma {:induction false} TurnIsCounted(cfg: Settings, start: Thread, ps: seq<Position>, inputs: seq<Input>, i: nat)
    requires IsTurn(cfg, start, ps, inputs) && i < |ps|
    ensures Counted(ps, i)
  {
    if i > 0 {
      hide Follows, Counted;
      TurnIsCounted(cfg, start, ps, inputs, i - 1);
      StepIsCounted(cfg, ps, inputs, i - 1);
    }
  }

  /** The counters of the state count the nodes run. */
  lemma CountersCountVisits(cfg: Settings, start: Thread, ps: seq<Position>, inputs: seq<Input>, i: nat)
    requires IsTurn(cfg, start, ps, inputs) && i < |ps|
    ensures ps[i].st.counters == Counters(i, Visits(ps, Rewrite, i), Visits(ps, RetryGeneration, i))
  {
    TurnIsCounted(cfg, start, ps, inputs, i);
    hide IsTurn, Visits;
  }

  /** The intent decides where the router sends a turn that has budget left. */
  lemma IntentIsFollowed(cfg: Settings, start: Thread, ps: seq<Position>, inputs: seq<Input>, i: nat)
    requires IsTurn(cfg, start, ps, inputs) && i < |inputs| && ps[i].node == Some(Router)
    ensures i + 1 >= cfg.maxIterations ==> ps[i + 1].node == Some(InsufficientAnswer)
    ensures i + 1 < cfg.maxIterations ==>
              && (inputs[i].intent == MultiDocIntent ==> ps[i + 1].node == Some(Planner))
              && (inputs[i].intent == MetadataIntent ==> ps[i + 1].node == Some(MetadataLookup))
              && (inputs[i].intent == TextIntent || inputs[i].intent == VisualIntent ==> ps[i + 1].node == Some(Retriever))
  {
    CountersCountVisits(cfg, start, ps, inputs, i);
    assert Follows(cfg, ps, inputs, i);
    hide RunNode, NextNode, IsTurn, Visits, Accepts, Thread.Allowed, Text.Blank;
    EarlyEdges(cfg, Router, ps[i].st, inputs[i]);
    LateEdges(cfg, Router, ps[i].st, inputs[i]);
  }

  /**
   * The generator only runs on listed documents, for a retry, on a retrieval found
   * relevant, or on a rejected one once every rewrite is used up.
   */
  lemma GeneratorIsEntered(cfg: Settings, start: Thread, ps: seq<Position>, inputs: seq<Input>, i: nat)
    requires IsTurn(cfg, start, ps, inputs) && i < |inputs|
    ensures ps[i + 1].node == Some(Generator) <==>
              || ps[i].node == Some(RetryGeneration)
              || (ps[i].node == Some(MetadataLookup) && i + 1 < cfg.maxIterations && Lists(ps[i].st, inputs[i]))
              || (ps[i].node == Some(RetrievalGrader) && i + 1 < cfg.maxIterations && ps[i].st.chunks != []
                  && (inputs[i].verdict || Visits(ps, Rewrite, i) >= cfg.maxRetrievalRetries))
  {
    CountersCountVisits(cfg, start, ps, inputs, i);
    assert Follows(cfg, ps, inputs, i);
    hide RunNode, NextNode, IsTurn, Visits, Accepts, Lists;
    LateEdges(cfg, ps[i].node.value, ps[i].st, inputs[i]);
  }

  /** A rejected retrieval with a rewrite and budget left, and no other, is rewritten and retrieved again. */
  lemma RejectedRetrievalIsRewritten(cfg: Settings, start: Thread, ps: seq<Position>, inputs: seq<Input>, i: nat)
    requires IsTurn(cfg, start, ps, inputs) && i < |inputs|
    ensures ps[i + 1].node == Some(Rewrite) <==>
              && ps[i].node == Some(RetrievalGrader) && i + 1 < cfg.maxIterations
              && (ps[i].st.chunks == [] || !inputs[i].verdict)
              && Visits(ps, Rewrite, i) < cfg.maxRetrievalRetries
    ensures ps[i].node == Some(Rewrite) ==> ps[i + 1].node == Some(Retriever)
    ensures ps[i].node == Some(Retriever) ==> ps[i + 1].node == Some(RetrievalGrader)
  {
    CountersCountVisits(cfg, start, ps, inputs, i);
    assert Follows(cfg, ps, inputs, i);
    hide RunNode, NextNode, IsTurn, Visits, Accepts, Lists, IsHit, Text.Blank;
    LateEdges(cfg, ps[i].node.value, ps[i].st, inputs[i]);
    EarlyEdges(cfg, ps[i].node.value, ps[i].st, inputs[i]);
  }

  /** A graded answer is accepted, generated again while a retry is left, or given up; out of budget it is given up. */
  lemma GradedAnswerIsRouted(cfg: Settings, start: Thread, ps: seq<Position>, inputs: seq<Input>, i: nat)
    requires IsTurn(cfg, start, ps, inputs) && i < |inputs| && ps[i].node == Some(HallucinationGrader)
    ensures var left, accepted := i + 1 < cfg.maxIterations, Accepts(cfg, ps[i].st.answer, inputs[i].verdict);
            var retries := Visits(ps, RetryGeneration, i) < cfg.maxGenerationRetries;
            && (ps[i + 1].node == Some(FinalizeAnswer) <==> left && accepted)
            && (ps[i + 1].node == Some(RetryGeneration) <==> left && !accepted && retries)
            && (ps[i + 1].node == Some(InsufficientAnswer) <==> !left || (!accepted && !retries))
  {
    CountersCountVisits(cfg, start, ps, inputs, i);
    assert Follows(cfg, ps, inputs, i);
    hide RunNode, NextNode, IsTurn, Visits, Accepts, Lists;
    LateEdges(cfg, HallucinationGrader, ps[i].st, inputs[i]);
  }

  /** A turn is served from the cache exactly if it passes the guard, has a scope and gets a hit. */
  lemma HitIsServed(cfg: Settings, start: Thread, ps: seq<Position>, inputs: seq<Input>)
    requires IsTurn(cfg, start, ps, inputs) && |inputs| >= 2
    ensures ps[1].node == Some(CacheLookup) <==> !Text.Blank(start.query) && !start.insufficient
    ensures ps[1].node == Some(CacheLookup) && IsHit(start, inputs[1]) ==>
              ps[2].node == Some(EvalQueue) && ps[2].st.answer == inputs[1].hit.value.answer
              && ps[2].st.citations == HitSources(inputs[1].hit.value) && ps[2].st.cacheHit
    ensures ps[1].node == Some(CacheLookup) && !IsHit(start, inputs[1]) ==> ps[2].node == Some(Router)
  {
    assert Follows(cfg, ps, inputs, 0) && Follows(cfg, ps, inputs, 1);
    EarlyEdges(cfg, InputGuard, ps[0].st, inputs[0]);
    EarlyEdges(cfg, ps[1].node.value, ps[1].st, inputs[1]);
    hide IsTurn, NextNode, Text.Blank, HitSources, ParsedIds, Say;
  }

  // ---------------------------------------------------------------- what a turn works on

  predicate Fetches(node: Option<Node>) {
    node == Some(Retriever) || node == Some(MetadataLookup)
  }

  /** What the fetching node was given, or nothing for an empty scope. */
  function Fetched(start: Thread, node: Option<Node>, input: Input): seq<Passage> {
    if start.Allowed() == {} then [] else if node == Some(Retriever) then input.found else input.listed
  }

  lemma NodeKeepsQuestion(cfg: Settings, node: Node, st: Thread, input: Input)
    ensures var next := RunNode(cfg, node, st, input); next.query == st.query && next.allowedIds == st.allowedIds
  {
    hide Text.Blank, Text.Strip, Citations.Normalize, Citations.Extract,
         Context, FullSources, HitSources, Thread.Allowed, Say;
  }

  /** What each node leaves of the chunks. */
  lemma NodeFetches(cfg: Settings, node: Node, st: Thread, input: Input)
    ensures RunNode(cfg, node, st, input).chunks
            == (if Fetches(Some(node)) then Fetched(st, Some(node), input) else st.chunks)
  {
    hide Text.Blank, Text.Strip, Citations.Normalize, Citations.Extract,
         Context, FullSources, HitSources, ParsedIds, Say;
  }

  /** Page images are only fetched for a visual question, by the retriever; the intent is the router's. */
  lemma NodeFetchesPages(cfg: Settings, node: Node, st: Thread, input: Input)
    ensures var next := RunNode(cfg, node, st, input);
            && next.pageHits == (if node != Retriever then st.pageHits
                                 else if st.intent == VisualIntent && st.Allowed() != {} then input.pages else [])
            && next.intent == (if node == Router then input.intent else st.intent)
  {
    hide Text.Blank, Text.Strip, Citations.Normalize, Citations.Extract,
         Context, FullSources, HitSources, ParsedIds, Say;
  }

  lemma {:induction false} QuestionStays(cfg: Settings, start: Thread, ps: seq<Position>, inputs: seq<Input>, i: nat)
    requires IsTurn(cfg, start, ps, inputs) && i < |ps|
    ensures ps[i].st.query == start.query && ps[i].st.allowedIds == start.allowedIds
  {
    if i > 0 {
      QuestionStays(cfg, start, ps, inputs, i - 1);
      assert Follows(cfg, ps, inputs, i - 1);
      hide RunNode, NextNode, IsTurn;
      NodeKeepsQuestion(cfg, ps[i - 1].node.value, ps[i - 1].st, inputs[i - 1]);
    }
  }

  /** The chunks at `i` are what node `j` fetched, and no node fetched between. */
  ghost predicate FetchedAt(start: Thread, ps: seq<Position>, inputs: seq<Input>, i: nat, j: nat)
    requires |ps| == |inputs| + 1 && i < |ps|
  {
    && j < i && Fetches(ps[j].node) && ps[i].st.chunks == Fetched(start, ps[j].node, inputs[j])
    && forall k | j < k < i :: !Fetches(ps[k].node)
  }

  predicate WorksOnChunks(node: Option<Node>) {
    node == Some(RetrievalGrader) || node == Some(Generator) || node == Some(HallucinationGrader)
    || node == Some(RetryGeneration) || node == Some(FinalizeAnswer) || node == Some(CacheWriter)
  }

  lemma IntoChunks(cfg: Settings, node: Node, st: Thread, input: Input)
    ensures WorksOnChunks(NextNode(cfg, node, RunNode(cfg, node, st, input))) ==>
              Fetches(Some(node)) || WorksOnChunks(Some(node))
  {
    hide RunNode, OverBudget;
  }

  /** The relevance check, the generator and all that follows work on exactly the chunks fetched last. */
  lemma {:induction false} ChunksAreFetched(cfg: Settings, start: Thread, ps: seq<Position>, inputs: seq<Input>, i: nat)
    returns (j: nat)
    requires IsTurn(cfg, start, ps, inputs) && i < |ps| && WorksOnChunks(ps[i].node)
    ensures FetchedAt(start, ps, inputs, i, j)
  {
    QuestionStays(cfg, start, ps, inputs, i - 1);
    assert Follows(cfg, ps, inputs, i - 1);
    IntoChunks(cfg, ps[i - 1].node.value, ps[i - 1].st, inputs[i - 1]);
    NodeFetches(cfg, ps[i - 1].node.value, ps[i - 1].st, inputs[i - 1]);
    if Fetches(ps[i - 1].node) {
      j := i - 1;
    } else {
      j := ChunksAreFetched(cfg, start, ps, inputs, i - 1);
    }
    hide IsTurn, RunNode, NextNode;
  }

  // ---------------------------------------------------------------- where the answer comes from

  /** The generator writes an answer and the sources its markers name. */
  lemma GeneratorAnswers(cfg: Settings, st: Thread, input: Input)
    ensures var next := RunNode(cfg, Generator, st, input);
            && next.answer == Citations.Normalize(input.text)
            && next.citations == FullSources(Citations.Extract(next.answer, Context(cfg, st, input.store).packed))
  {
    hide Citations.Normalize, Citations.Extract, Context, FullSources;
  }

  lemma HitAnswers(cfg: Settings, st: Thread, input: Input)
    ensures IsHit(st, input) ==>
              var next := RunNode(cfg, CacheLookup, st, input);
              next.answer == input.hit.value.answer && next.citations == HitSources(input.hit.value)
  {
    hide HitSources, Thread.Allowed, Say;
  }

  lemma AbstainingAnswers(cfg: Settings, st: Thread, input: Input)
    ensures var next := RunNode(cfg, InsufficientAnswer, st, input);
            next.answer == Citations.INSUFFICIENT_ANSWER && next.citations == []
  {
    hide Say;
  }

  predicate TouchesAnswer(node: Node) {
    node == InputGuard || node == CacheLookup || node == Generator || node == InsufficientAnswer
  }

  lemma OthersKeepAnswer(cfg: Settings, node: Node, st: Thread, input: Input)
    requires !TouchesAnswer(node)
    ensures var next := RunNode(cfg, node, st, input); next.answer == st.answer && next.citations == st.citations
  {
    hide Text.Blank, Text.Strip, InputGuardNode, CacheLookupNode, GeneratorNode, InsufficientNode, Thread.Allowed, Say;
  }

  /** A hit brings its answer and sources, abstaining its own, and no other node but the guard touches them. */
  lemma OthersAnswer(cfg: Settings, node: Node, st: Thread, input: Input)
    requires node != Generator
    ensures var next := RunNode(cfg, node, st, input);
            && (node == CacheLookup && IsHit(st, input) ==>
                  next.answer == input.hit.value.answer && next.citations == HitSources(input.hit.value))
            && (node == InsufficientAnswer ==> next.answer == Citations.INSUFFICIENT_ANSWER && next.citations == [])
            && (node != CacheLookup && node != InsufficientAnswer && node != InputGuard ==>
                  next.answer == st.answer && next.citations == st.citations)
  {
    hide RunNode;
    HitAnswers(cfg, st, input);
    AbstainingAnswers(cfg, st, input);
    if !TouchesAnswer(node) {
      OthersKeepAnswer(cfg, node, st, input);
    }
  }

  /** The answer at `i` is what the model wrote at `j`, its markers rewritten, with the sources they name there. */
  ghost predicate GeneratedAt(cfg: Settings, ps: seq<Position>, inputs: seq<Input>, i: nat, j: nat)
    requires |ps| == |inputs| + 1 && i < |ps|
  {
    && j < i && ps[j].node == Some(Generator)
    && ps[i].st.answer == Citations.Normalize(inputs[j].text)
    && ps[i].st.citations
       == FullSources(Citations.Extract(ps[i].st.answer, Context(cfg, ps[j].st, inputs[j].store).packed))
    && forall k | j < k < i :: ps[k].node != Some(Generator)
  }

  lemma JustGenerated(cfg: Settings, ps: seq<Position>, inputs: seq<Input>, i: nat)
    requires |ps| == |inputs| + 1 && 0 < i < |ps| && ps[i - 1].node == Some(Generator)
    requires ps[i].st == RunNode(cfg, Generator, ps[i - 1].st, inputs[i - 1])
    ensures GeneratedAt(cfg, ps, inputs, i, i - 1)
  {
    hide RunNode, Context, FullSources;
    GeneratorAnswers(cfg, ps[i - 1].st, inputs[i - 1]);
  }

  lemma StillGenerated(cfg: Settings, ps: seq<Position>, inputs: seq<Input>, i: nat, j: nat)
    requires |ps| == |inputs| + 1 && 0 < i < |ps| && GeneratedAt(cfg, ps, inputs, i - 1, j)
    requires ps[i - 1].node != Some(Generator)
    requires ps[i].st.answer == ps[i - 1].st.answer && ps[i].st.citations == ps[i - 1].st.citations
    ensures GeneratedAt(cfg, ps, inputs, i, j)
  {
    hide Context, FullSources;
  }

  lemma IntoGenerated(cfg: Settings, node: Node, st: Thread, input: Input)
    ensures var next := RunNode(cfg, node, st, input);
            HoldsGenerated(NextNode(cfg, node, next)) && node != Generator ==>
              HoldsGenerated(Some(node)) && next.answer == st.answer && next.citations == st.citations
  {
    if node != Generator {
      OthersAnswer(cfg, node, st, input);
    }
    hide RunNode, OverBudget;
  }

  /** What is graded, accepted, said and cached is the answer generated last. */
  lemma {:induction false} AnswerIsGenerated(cfg: Settings, start: Thread, ps: seq<Position>, inputs: seq<Input>, i: nat)
    returns (j: nat)
    requires IsTurn(cfg, start, ps, inputs) && i < |ps| && HoldsGenerated(ps[i].node)
    ensures GeneratedAt(cfg, ps, inputs, i, j)
  {
    hide RunNode, NextNode, Context, FullSources, GeneratedAt;
    assert Follows(cfg, ps, inputs, i - 1);
    var node := ps[i - 1].node.value;
    IntoGenerated(cfg, node, ps[i - 1].st, inputs[i - 1]);
    if node == Generator {
      j := i - 1;
      JustGenerated(cfg, ps, inputs, i);
    } else {
      j := AnswerIsGenerated(cfg, start, ps, inputs, i - 1);
      StillGenerated(cfg, ps, inputs, i, j);
    }
  }

  /** How the answer of a finished turn that passed the guard came about. */
  datatype Origin = FromCache(at: nat) | FromModel(at: nat) | Abstained

  ghost predicate HasOrigin(cfg: Settings, ps: seq<Position>, inputs: seq<Input>, st: Thread, o: Origin)
    requires |ps| == |inputs| + 1
  {
    match o
    case FromCache(at) =>
      at < |inputs| && ps[at].node == Some(CacheLookup) && IsHit(ps[at].st, inputs[at])
      && st.answer == inputs[at].hit.value.answer && st.citations == HitSources(inputs[at].hit.value) && !st.insufficient
    case FromModel(at) =>
      at < |inputs| && ps[at].node == Some(Generator)
      && st.answer == Citations.Normalize(inputs[at].text) && !st.insufficient
      && st.citations == FullSources(Citations.Extract(st.answer, Context(cfg, ps[at].st, inputs[at].store).packed))
    case Abstained =>
      st.answer == Citations.INSUFFICIENT_ANSWER && st.citations == [] && st.insufficient
  }

  lemma NodeFlags(cfg: Settings, node: Node, st: Thread, input: Input)
    ensures RunNode(cfg, node, st, input).insufficient
            <==> st.insufficient || node == InsufficientAnswer || (node == InputGuard && Text.Blank(st.query))
  {
    hide Text.Blank, Text.Strip, Citations.Normalize, Citations.Extract,
         Context, FullSources, HitSources, ParsedIds, Say;
  }

  lemma IntoEvalQueue(cfg: Settings, node: Node, st: Thread, input: Input)
    ensures NextNode(cfg, node, RunNode(cfg, node, st, input)) == Some(EvalQueue) ==>
              || (node == InputGuard && (Text.Blank(st.query) || st.insufficient))
              || (node == CacheLookup && IsHit(st, input)) || node == CacheWriter || node == InsufficientAnswer
  {
    EarlyEdges(cfg, node, st, input);
    hide RunNode, NextNode, IsHit, Lists, Text.Blank;
  }

  lemma NotInsufficientYet(cfg: Settings, start: Thread, ps: seq<Position>, inputs: seq<Input>, i: nat)
    requires IsTurn(cfg, start, ps, inputs) && i < |ps| && !Text.Blank(start.query) && !start.insufficient
    ensures ps[i].node == Some(InputGuard) ==> ps[i].st == start
    ensures ps[i].node == Some(CacheLookup) || ps[i].node == Some(CacheWriter) ==> !ps[i].st.insufficient
  {
    TurnKeepsBefore(cfg, start, ps, inputs, i);
    hide IsTurn, Text.Blank, Outcome, Say;
  }

  /** Into the evaluation queue a turn comes with an answer of one of the three origins. */
  lemma IntoEvaluation(cfg: Settings, start: Thread, ps: seq<Position>, inputs: seq<Input>, i: nat) returns (o: Origin)
    requires IsTurn(cfg, start, ps, inputs) && i < |ps| && ps[i].node == Some(EvalQueue)
    requires !Text.Blank(start.query) && !start.insufficient
    ensures HasOrigin(cfg, ps, inputs, ps[i].st, o)
  {
    assert Follows(cfg, ps, inputs, i - 1);
    NotInsufficientYet(cfg, start, ps, inputs, i - 1);
    var node, st := ps[i - 1].node.value, ps[i - 1].st;
    hide RunNode, NextNode, Context, FullSources, HitSources, Text.Blank, Say, GeneratedAt, Lists;
    IntoEvalQueue(cfg, node, st, inputs[i - 1]);
    OthersAnswer(cfg, node, st, inputs[i - 1]);
    NodeFlags(cfg, node, st, inputs[i - 1]);
    if node == CacheLookup {
      o := FromCache(i - 1);
    } else if node == InsufficientAnswer {
      o := Abstained;
    } else {
      var j := AnswerIsGenerated(cfg, start, ps, inputs, i - 1);
      o := FromModel(j);
      IsFromModel(cfg, ps, inputs, i, j);
    }
  }

  lemma IsFromModel(cfg: Settings, ps: seq<Position>, inputs: seq<Input>, i: nat, j: nat)
    requires |ps| == |inputs| + 1 && 0 < i < |ps| && GeneratedAt(cfg, ps, inputs, i - 1, j)
    requires ps[i].st.answer == ps[i - 1].st.answer && ps[i].st.citations == ps[i - 1].st.citations && !ps[i].st.insufficient
    ensures HasOrigin(cfg, ps, inputs, ps[i].st, FromModel(j))
  {
    hide Context, FullSources;
  }

  /**
   * The answer of a finished turn that passed the guard is that of the cache hit with its
   * sources, or what the model wrote last with exactly the sources its markers name, or
   * the abstaining answer without sources.
   */
  lemma FinalAnswerHasOrigin(cfg: Settings, start: Thread, ps: seq<Position>, inputs: seq<Input>) returns (o: Origin)
    requires IsTurn(cfg, start, ps, inputs) && ps[|inputs|].node.None?
    requires !Text.Blank(start.query) && !start.insufficient
    ensures HasOrigin(cfg, ps, inputs, ps[|inputs|].st, o)
  {
    var i := |inputs| - 1;
    assert Follows(cfg, ps, inputs, i);
    EarlyEdges(cfg, ps[i].node.value, ps[i].st, inputs[i]);
    OthersAnswer(cfg, EvalQueue, ps[i].st, inputs[i]);
    NodeFlags(cfg, EvalQueue, ps[i].st, inputs[i]);
    hide RunNode, NextNode, Context, FullSources, HitSources, Text.Blank;
    o := IntoEvaluation(cfg, start, ps, inputs, i);
    hide IsTurn;
  }

  // ---------------------------------------------------------------- what a hit cites

  lemma {:induction false} BareSourcesAre(e: Entry, docs: seq<nat>)
    ensures |BareSources(e, docs)| == |docs|
    ensures forall i | 0 <= i < |docs| :: BareSources(e, docs)[i] == Bare(docs[i], CollsOf(e, docs[i]))
  {
    if docs != [] {
      BareSourcesAre(e, docs[1..]);
    }
  }

  /**
   * A hit cites what was stored with it; without stored citations, each of its documents
   * once, in increasing order, with the collections its chunks came from.
   */
  lemma HitCites(e: Entry)
    ensures e.citations != [] ==> HitSources(e) == e.citations
    ensures e.citations == [] ==>
              var ss := HitSources(e);
              && (forall i | 0 <= i < |ss| :: ss[i].Bare? && ss[i].colls == set p | p in e.pairs && p.0 == ss[i].doc :: p.1)
              && (forall i, j | 0 <= i < j < |ss| :: ss[i].doc < ss[j].doc)
              && (forall d :: d in e.Docs() <==> exists i :: 0 <= i < |ss| && ss[i].doc == d)
  {
    if e.citations == [] {
      var docs, ss := Ascending(e.Docs()), HitSources(e);
      AscendingIncreases(e.Docs());
      BareSourcesAre(e, docs);
      hide BareSources, Ascending;
      forall d ensures d in e.Docs() <==> exists i :: 0 <= i < |ss| && ss[i].doc == d {
        if d in docs {
          var i :| 0 <= i < |docs| && docs[i] == d;
          assert ss[i].doc == d;
        }
      }
    }
  }

  // ---------------------------------------------------------------- what is cached

  /**
   * The cache writer stores an entry exactly if the answer is not empty, the turn did not
   * abstain, and there are chunks whose identifiers all parse; the entry holds the
   * question, the answer, its sources, the asker's whole scope, and the document and
   * collection of each chunk.
   */
  lemma WhatIsWritten(st: Thread, at: real)
    ensures Writes(st, at).Some? <==>
              && st.answer != "" && !st.insufficient && st.chunks != []
              && forall i | 0 <= i < |st.chunks| :: st.chunks[i].doc.Parsed().Some? && st.chunks[i].coll.Parsed().Some?
    ensures Writes(st, at).Some? ==>
              var e := Writes(st, at).value;
              && e.answer == st.answer && e.query == st.query && e.citations == st.citations
              && e.scopeHash == ScopeHash(st.Allowed()) && e.createdAt == at
              && forall d, c :: (d, c) in e.pairs <==>
                   exists i :: 0 <= i < |st.chunks| && st.chunks[i].doc.Parsed() == Some(d) && st.chunks[i].coll.Parsed() == Some(c)
  {
    hide Thread.Allowed;
    if AllParse(st.chunks) {
      forall d, c
        ensures (d, c) in Pairs(st.chunks) <==>
                  exists i :: 0 <= i < |st.chunks| && st.chunks[i].doc.Parsed() == Some(d) && st.chunks[i].coll.Parsed() == Some(c)
      {
        if (d, c) in Pairs(st.chunks) {
          var i :| 0 <= i < |st.chunks| && (st.chunks[i].doc.Parsed().value, st.chunks[i].coll.Parsed().value) == (d, c);
          assert st.chunks[i].doc.Parsed() == Some(d) && st.chunks[i].coll.Parsed() == Some(c);
        }
        if i :| 0 <= i < |st.chunks| && st.chunks[i].doc.Parsed() == Some(d) && st.chunks[i].coll.Parsed() == Some(c) {
          assert (st.chunks[i].doc.Parsed().value, st.chunks[i].coll.Parsed().value) == (d, c);
        }
      }
    }
  }
}
