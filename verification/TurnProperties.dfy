/** What every run of a chat turn keeps, whatever the models and retrievers answer. */
module TurnProperties {
  import opened Options
  import opened SemanticCache
  import opened Turn
  import Citations
  import Text

  // ---------------------------------------------------------------- every turn ends

  function Max(a: int, b: int): int {
    if a < b then b else a
  }

  /** An upper bound on the nodes still to run, from the retries left. */
  function Rank(cfg: Settings, node: Option<Node>, c: Counters): int {
    var r, g := cfg.maxRetrievalRetries - c.retrievalRetries, cfg.maxGenerationRetries - c.generationRetries;
    if node.None? then 0
    else match node.value
         case InputGuard => 11 + 3 * r + 3 * g
         case CacheLookup => 10 + 3 * r + 3 * g
         case Router => 9 + 3 * r + 3 * g
         case MetadataLookup => 8 + 3 * r + 3 * g
         case Planner => 8 + 3 * r + 3 * g
         case Retriever => 7 + 3 * r + 3 * g
         case RetrievalGrader => 6 + 3 * r + 3 * g
         case Rewrite => 5 + 3 * r + 3 * g
         case Generator => 5 + 3 * g
         case HallucinationGrader => 4 + 3 * g
         case RetryGeneration => 3 + 3 * g
         case FinalizeAnswer => 3
         case CacheWriter => 2
         case InsufficientAnswer => 2
         case EvalQueue => 1
  }

  /** The most nodes that can have run before this one under the iteration cap. */
  function IterationLimit(cfg: Settings, node: Option<Node>): int {
    var m := cfg.maxIterations;
    if node.None? then Max(m + 4, 5)
    else match node.value
         case InputGuard => 0
         case CacheLookup => 1
         case Router => 2
         case MetadataLookup => if m > 3 then 3 else m - 1
         case Planner => if m > 3 then 3 else m - 1
         case Retriever => m
         case RetrievalGrader => m + 1
         case Rewrite => m - 1
         case Generator => m
         case HallucinationGrader => m + 1
         case RetryGeneration => m - 1
         case FinalizeAnswer => m - 1
         case CacheWriter => m
         case InsufficientAnswer => Max(m + 2, 3)
         case EvalQueue => Max(m + 3, 4)
  }

  /** The retry nodes are only entered with a retry left. */
  ghost predicate WithinRetries(cfg: Settings, node: Option<Node>, c: Counters) {
    && c.retrievalRetries <= cfg.maxRetrievalRetries
    && c.generationRetries <= cfg.maxGenerationRetries
    && (node == Some(Rewrite) ==> c.retrievalRetries < cfg.maxRetrievalRetries)
    && (node == Some(RetryGeneration) ==> c.generationRetries < cfg.maxGenerationRetries)
  }

  ghost predicate WithinLimits(cfg: Settings, node: Option<Node>, c: Counters) {
    && WithinRetries(cfg, node, c)
    && c.iterations + Rank(cfg, node, c) <= 11 + 3 * cfg.maxRetrievalRetries + 3 * cfg.maxGenerationRetries
    && c.iterations <= IterationLimit(cfg, node)
  }

  /** One node run: each counts as an iteration, and the two retry nodes count their retry. */
  function AfterNode(node: Node, c: Counters): Counters {
    Counters(c.iterations + 1,
             c.retrievalRetries + (if node == Rewrite then 1 else 0),
             c.generationRetries + (if node == RetryGeneration then 1 else 0))
  }

  lemma RunNodeCounts(cfg: Settings, node: Node, st: Thread, input: Input)
    ensures RunNode(cfg, node, st, input).counters == AfterNode(node, st.counters)
  {
    hide Text.Blank, Text.Strip, Citations.Normalize, Citations.Extract,
         Context, FullSources, HitSources, Thread.Allowed, Say;
  }

  /** Every edge takes at least one off the rank, whatever else the node wrote. */
  lemma EdgeLowersRank(cfg: Settings, node: Node, c: Counters, st: Thread)
    requires WithinRetries(cfg, Some(node), c) && st.counters == AfterNode(node, c)
    ensures var next := NextNode(cfg, node, st);
            WithinRetries(cfg, next, st.counters) && Rank(cfg, next, st.counters) + 1 <= Rank(cfg, Some(node), c)
  {
  }

  /** The routers that test the budget keep every node within its iteration limit. */
  lemma EdgeKeepsIterationLimit(cfg: Settings, node: Node, c: Counters, st: Thread)
    requires c.iterations <= IterationLimit(cfg, Some(node)) && st.counters == AfterNode(node, c)
    ensures st.counters.iterations <= IterationLimit(cfg, NextNode(cfg, node, st))
  {
  }

  lemma StepStaysWithinLimits(cfg: Settings, p: Position, input: Input)
    requires p.node.Some? && WithinLimits(cfg, p.node, p.st.counters)
    ensures var q := Step(cfg, p, input); WithinLimits(cfg, q.node, q.st.counters)
                                          && q.st.counters.iterations == p.st.counters.iterations + 1
  {
    hide WithinRetries, Rank, IterationLimit, RunNode, NextNode;
    var node, st := p.node.value, RunNode(cfg, p.node.value, p.st, input);
    RunNodeCounts(cfg, node, p.st, input);
    EdgeLowersRank(cfg, node, p.st.counters, st);
    EdgeKeepsIterationLimit(cfg, node, p.st.counters, st);
  }

  lemma {:induction false} TurnStaysWithinLimits(cfg: Settings, st: Thread, ps: seq<Position>, inputs: seq<Input>, i: nat)
    requires IsTurn(cfg, st, ps, inputs) && i < |ps|
    ensures WithinLimits(cfg, ps[i].node, ps[i].st.counters) && ps[i].st.counters.iterations == i
  {
    if i > 0 {
      TurnStaysWithinLimits(cfg, st, ps, inputs, i - 1);
      assert Follows(cfg, ps, inputs, i - 1);
      hide WithinLimits, Step;
      StepStaysWithinLimits(cfg, ps[i - 1], inputs[i - 1]);
    }
  }

  /**
   * For any leftover keys of the thread and any inputs: no turn runs more than
   * 11 + 3R + 3G nodes, nor more than max(M + 4, 5), which keeps it below the recursion
   * limit 3M + 10; `iterations` counts the nodes run and the retries stay within their
   * caps. A turn with a node still to run is strictly below both bounds.
   */
  lemma EveryTurnIsBounded(cfg: Settings, st: Thread, ps: seq<Position>, inputs: seq<Input>)
    requires IsTurn(cfg, st, ps, inputs)
    ensures var n, c, more := |inputs|, ps[|inputs|].st.counters, if ps[|inputs|].node.Some? then 1 else 0;
            && c.iterations == n
            && n + more <= 11 + 3 * cfg.maxRetrievalRetries + 3 * cfg.maxGenerationRetries
            && n + more <= Max(cfg.maxIterations + 4, 5) < 3 * cfg.maxIterations + 10
            && c.retrievalRetries <= cfg.maxRetrievalRetries
            && c.generationRetries <= cfg.maxGenerationRetries
  {
    TurnStaysWithinLimits(cfg, st, ps, inputs, |inputs|);
    hide IsTurn;
  }

  lemma TurnGrows(cfg: Settings, st: Thread, ps: seq<Position>, inputs: seq<Input>, input: Input)
    requires IsTurn(cfg, st, ps, inputs) && ps[|inputs|].node.Some?
    ensures IsTurn(cfg, st, ps + [Step(cfg, ps[|inputs|], input)], inputs + [input])
  {
    hide Step;
    var qs, more := ps + [Step(cfg, ps[|inputs|], input)], inputs + [input];
    forall i | 0 <= i < |more| ensures Follows(cfg, qs, more, i) {
      assert i < |inputs| ==> Follows(cfg, ps, inputs, i);
    }
  }

  /** Running the graph to its end: whatever the outside answers, every turn ends. */
  method Invoke(cfg: Settings, st: Thread, answers: nat -> Input) returns (ps: seq<Position>, inputs: seq<Input>)
    requires Resets(st)
    ensures IsTurn(cfg, st, ps, inputs) && ps[|inputs|].node.None?
    ensures forall i | 0 <= i < |inputs| :: inputs[i] == answers(i)
    ensures |inputs| <= Max(cfg.maxIterations + 4, 5)
  {
    hide Step;
    ps, inputs := [Start(st)], [];
    while ps[|inputs|].node.Some?
      invariant IsTurn(cfg, st, ps, inputs)
      invariant forall i | 0 <= i < |inputs| :: inputs[i] == answers(i)
      decreases 11 + 3 * cfg.maxRetrievalRetries + 3 * cfg.maxGenerationRetries - |inputs|
    {
      EveryTurnIsBounded(cfg, st, ps, inputs);
      var input := answers(|inputs|);
      TurnGrows(cfg, st, ps, inputs, input);
      hide IsTurn;
      ps, inputs := ps + [Step(cfg, ps[|inputs|], input)], inputs + [input];
    }
    EveryTurnIsBounded(cfg, st, ps, inputs);
  }
}
