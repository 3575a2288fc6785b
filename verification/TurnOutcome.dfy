/** What a chat turn says, when it generates, what it caches, and what it cites. */
module TurnOutcome {
  import opened Evidence
  import opened Options
  import opened SemanticCache
  import opened Turn
  import Assembler
  import Citations
  import Text

  // ---------------------------------------------------------------- what a turn says

  /** Nothing has been said yet, and the guard let the turn pass. */
  predicate Silent(start: Thread, st: Thread) {
    st.messages == start.messages && !st.insufficient && !start.insufficient && !Text.Blank(start.query)
  }

  /**
   * How a turn ends: an empty query is refused; a thread left insufficient by an
   * earlier turn says nothing and changes nothing; any other turn says its answer,
   * and when it abstains it cites nothing.
   */
  predicate Outcome(start: Thread, st: Thread) {
    if Text.Blank(start.query) then
      st == start.(counters := st.counters, insufficient := true, answer := "Empty query.",
                   messages := Say(start.messages, "Empty query."))
    else if start.insufficient then st == start.(counters := st.counters)
    else
      && st.messages == Say(start.messages, st.answer)
      && (st.insufficient ==> st.answer == Citations.INSUFFICIENT_ANSWER && st.citations == [])
  }

  /** What is known of the state when a node is about to run. */
  predicate Before(node: Option<Node>, start: Thread, st: Thread) {
    match node
    case None => Outcome(start, st)
    case Some(EvalQueue) => Outcome(start, st)
    case Some(InputGuard) => st == start
    case Some(CacheWriter) =>
      st.messages == Say(start.messages, st.answer) && !st.insufficient && st.chunks != [] && !start.insufficient
      && !Text.Blank(start.query)
    case Some(Generator) => Silent(start, st) && st.chunks != []
    case Some(HallucinationGrader) => Silent(start, st) && st.chunks != []
    case Some(RetryGeneration) => Silent(start, st) && st.chunks != []
    case Some(FinalizeAnswer) => Silent(start, st) && st.chunks != []
    case Some(_) => Silent(start, st)
  }

  lemma NodeKeepsBefore(cfg: Settings, node: Node, start: Thread, st: Thread, input: Input)
    requires Before(Some(node), start, st)
    ensures var next := RunNode(cfg, node, st, input); Before(NextNode(cfg, node, next), start, next)
  {
    hide Text.Blank, Text.Strip, Citations.Normalize, Citations.Extract,
         Context, FullSources, HitSources, Thread.Allowed, OverBudget, Say;
    var next := RunNode(cfg, node, st, input);
    match node {
      case InputGuard =>
      case CacheLookup =>
      case RetrievalGrader =>
      case Generator =>
      case HallucinationGrader =>
      case _ =>
    }
  }

  lemma StepKeepsBefore(cfg: Settings, start: Thread, p: Position, input: Input)
    requires p.node.Some? && Before(p.node, start, p.st)
    ensures var q := Step(cfg, p, input); Before(q.node, start, q.st)
  {
    hide Before, RunNode, NextNode;
    NodeKeepsBefore(cfg, p.node.value, start, p.st, input);
  }

  lemma {:induction false} TurnKeepsBefore(cfg: Settings, start: Thread, ps: seq<Position>, inputs: seq<Input>, i: nat)
    requires IsTurn(cfg, start, ps, inputs) && i < |ps|
    ensures Before(ps[i].node, start, ps[i].st)
  {
    if i == 0 {
      hide Text.Blank;
    } else {
      TurnKeepsBefore(cfg, start, ps, inputs, i - 1);
      assert Follows(cfg, ps, inputs, i - 1);
      hide Before, Step;
      StepKeepsBefore(cfg, start, ps[i - 1], inputs[i - 1]);
    }
  }

  /**
   * A finished turn has appended exactly one assistant message, its final answer, if
   * and only if the query is empty or the thread was not left insufficient; otherwise
   * it has changed nothing but the counters.
   */
  lemma TurnSaysItsAnswer(cfg: Settings, start: Thread, ps: seq<Position>, inputs: seq<Input>)
    requires IsTurn(cfg, start, ps, inputs) && ps[|inputs|].node.None?
    ensures var end := ps[|inputs|].st;
            && (end.messages == start.messages + [Message(Assistant, end.answer)]
                <==> Text.Blank(start.query) || !start.insufficient)
            && (!Text.Blank(start.query) && start.insufficient ==> end == start.(counters := end.counters))
  {
    TurnKeepsBefore(cfg, start, ps, inputs, |inputs|);
    hide Text.Blank, IsTurn;
    assert |start.messages + [Message(Assistant, ps[|inputs|].st.answer)]| > |start.messages|;
  }

  // ---------------------------------------------------------------- what a turn caches

  /** The hallucination check lets the answer through. */
  predicate Accepts(cfg: Settings, answer: string, verdict: bool) {
    if cfg.hallucinationCheck then verdict
    else Text.Strip(answer) != "" && Text.Strip(answer) != Citations.INSUFFICIENT_ANSWER
  }

  /** The state at a node is the one the hallucination check just accepted, but for what was said and counted since. */
  predicate IsGraded(st: Thread, graded: Thread) {
    st.answer == graded.answer && st.citations == graded.citations && st.chunks == graded.chunks
  }

  lemma IntoCacheWriter(cfg: Settings, node: Node, st: Thread, input: Input)
    ensures var next := RunNode(cfg, node, st, input);
            && (NextNode(cfg, node, next) == Some(CacheWriter) ==> node == FinalizeAnswer && IsGraded(next, st))
            && (NextNode(cfg, node, next) == Some(FinalizeAnswer) ==>
                  node == HallucinationGrader && IsGraded(next, st) && Accepts(cfg, st.answer, input.verdict))
  {
    hide Text.Blank, Text.Strip, Citations.Normalize, Citations.Extract,
         Context, FullSources, HitSources, Thread.Allowed, OverBudget, Say;
  }

  lemma IntoCacheWriterStep(cfg: Settings, ps: seq<Position>, inputs: seq<Input>, i: nat)
    requires |ps| == |inputs| + 1 && i < |inputs| && Follows(cfg, ps, inputs, i)
    ensures ps[i + 1].node == Some(CacheWriter) ==> ps[i].node == Some(FinalizeAnswer) && IsGraded(ps[i + 1].st, ps[i].st)
    ensures ps[i + 1].node == Some(FinalizeAnswer) ==>
              && ps[i].node == Some(HallucinationGrader) && IsGraded(ps[i + 1].st, ps[i].st)
              && Accepts(cfg, ps[i].st.answer, inputs[i].verdict)
  {
    hide RunNode, NextNode, IsGraded, Accepts;
    IntoCacheWriter(cfg, ps[i].node.value, ps[i].st, inputs[i]);
  }

  /** The generator only ever runs with chunks. */
  lemma GeneratorHasChunks(cfg: Settings, start: Thread, ps: seq<Position>, inputs: seq<Input>, i: nat)
    requires IsTurn(cfg, start, ps, inputs) && i < |ps| && ps[i].node == Some(Generator)
    ensures ps[i].st.chunks != []
  {
    TurnKeepsBefore(cfg, start, ps, inputs, i);
    hide IsTurn, Silent, Outcome;
  }

  /**
   * The cache writer only runs two nodes after the hallucination check accepted this very answer,
   * with the chunks it was graded against.
   */
  lemma CacheWriterSeesTheGradedAnswer(cfg: Settings, start: Thread, ps: seq<Position>, inputs: seq<Input>, i: nat)
    requires IsTurn(cfg, start, ps, inputs) && i < |ps| && ps[i].node == Some(CacheWriter)
    ensures i >= 2 && ps[i - 2].node == Some(HallucinationGrader) && IsGraded(ps[i].st, ps[i - 2].st)
    ensures Accepts(cfg, ps[i - 2].st.answer, inputs[i - 2].verdict)
  {
    hide Accepts, Follows, Resets;
    IntoCacheWriterStep(cfg, ps, inputs, i - 1);
    IntoCacheWriterStep(cfg, ps, inputs, i - 2);
  }

  /** After the cache writer only the evaluation queue is left, and the turn did not abstain. */
  lemma AfterCacheWriter(cfg: Settings, start: Thread, ps: seq<Position>, inputs: seq<Input>, i: nat)
    requires IsTurn(cfg, start, ps, inputs) && i < |ps| && ps[i].node == Some(CacheWriter)
    ensures |inputs| <= i + 2 && !ps[|inputs|].st.insufficient
  {
    TurnKeepsBefore(cfg, start, ps, inputs, i);
    assert i < |inputs| ==> Follows(cfg, ps, inputs, i);
    assert i + 1 < |inputs| ==> Follows(cfg, ps, inputs, i + 1);
    assert i + 2 < |inputs| ==> Follows(cfg, ps, inputs, i + 2);
    hide Text.Blank, Say, IsTurn;
  }

  /** A turn that ends insufficient abstains without citations and never writes the cache. */
  lemma AbstainingTurn(cfg: Settings, start: Thread, ps: seq<Position>, inputs: seq<Input>, i: nat)
    requires IsTurn(cfg, start, ps, inputs) && i < |ps|
    requires ps[|inputs|].node.None? && ps[|inputs|].st.insufficient
    ensures ps[i].node != Some(CacheWriter)
    ensures !Text.Blank(start.query) && !start.insufficient ==>
              ps[|inputs|].st.answer == Citations.INSUFFICIENT_ANSWER && ps[|inputs|].st.citations == []
    ensures Text.Blank(start.query) || start.insufficient ==> ps[|inputs|].st.citations == start.citations
  {
    TurnKeepsBefore(cfg, start, ps, inputs, |inputs|);
    hide Text.Blank, IsTurn;
    if ps[i].node == Some(CacheWriter) {
      AfterCacheWriter(cfg, start, ps, inputs, i);
    }
  }

  // ---------------------------------------------------------------- abstaining, and the turn after it

  /** The outside world has nothing to offer: no cache hit, no listed document, no retrieved chunk. */
  predicate OffersNothing(input: Input) {
    input.hit == None && input.listed == [] && input.found == []
  }

  /** Where a turn can stand that was offered nothing. */
  predicate Fruitless(node: Option<Node>, st: Thread) {
    match node
    case None => st.insufficient
    case Some(EvalQueue) => st.insufficient
    case Some(RetrievalGrader) => st.chunks == []
    case Some(other) =>
      other != Generator && other != HallucinationGrader && other != RetryGeneration && other != FinalizeAnswer
      && other != CacheWriter
  }

  lemma NodeKeepsFruitless(cfg: Settings, node: Node, st: Thread, input: Input)
    requires Fruitless(Some(node), st) && OffersNothing(input)
    ensures var next := RunNode(cfg, node, st, input); Fruitless(NextNode(cfg, node, next), next)
  {
    hide Text.Blank, Text.Strip, Citations.Normalize, Citations.Extract,
         Context, FullSources, HitSources, Thread.Allowed, OverBudget, Say;
  }

  lemma {:induction false} TurnStaysFruitless(cfg: Settings, start: Thread, ps: seq<Position>, inputs: seq<Input>, i: nat)
    requires IsTurn(cfg, start, ps, inputs) && i < |ps|
    requires forall k | 0 <= k < |inputs| :: OffersNothing(inputs[k])
    ensures Fruitless(ps[i].node, ps[i].st)
  {
    if i > 0 {
      TurnStaysFruitless(cfg, start, ps, inputs, i - 1);
      assert Follows(cfg, ps, inputs, i - 1);
      hide Fruitless, RunNode, NextNode, OffersNothing;
      NodeKeepsFruitless(cfg, ps[i - 1].node.value, ps[i - 1].st, inputs[i - 1]);
    }
  }

  /** A turn that is offered nothing ends insufficient, whatever the settings and the verdicts. */
  lemma NothingFoundAbstains(cfg: Settings, start: Thread, ps: seq<Position>, inputs: seq<Input>)
    requires IsTurn(cfg, start, ps, inputs) && ps[|inputs|].node.None?
    requires forall k | 0 <= k < |inputs| :: OffersNothing(inputs[k])
    ensures ps[|inputs|].st.insufficient
  {
    TurnStaysFruitless(cfg, start, ps, inputs, |inputs|);
    hide IsTurn, OffersNothing;
  }

  /** The next turn on a thread: what was there, the new query and its message, and the counters reset. */
  function NextTurn(end: Thread, query: string, allowedIds: seq<IdText>): Thread {
    end.(query := query, allowedIds := allowedIds, messages := end.messages + [Message(User, query)],
         counters := Counters(0, 0, 0))
  }

  /**
   * Once a turn has ended insufficient, the next question on the thread is not answered,
   * whatever it is and whatever could be found for it: nothing is said, and the old
   * answer and sources are handed back.
   */
  lemma InsufficientThreadStaysSilent(cfg: Settings, start: Thread, ps: seq<Position>, inputs: seq<Input>,
                                      query: string, allowedIds: seq<IdText>, qs: seq<Position>, more: seq<Input>)
    requires IsTurn(cfg, start, ps, inputs) && ps[|inputs|].node.None? && ps[|inputs|].st.insufficient
    requires IsTurn(cfg, NextTurn(ps[|inputs|].st, query, allowedIds), qs, more) && qs[|more|].node.None?
    requires !Text.Blank(query)
    ensures var end, after := ps[|inputs|].st, qs[|more|].st;
            && after.insufficient && after.answer == end.answer && after.citations == end.citations
            && after.messages == end.messages + [Message(User, query)]
  {
    TurnSaysItsAnswer(cfg, NextTurn(ps[|inputs|].st, query, allowedIds), qs, more);
    hide IsTurn, Text.Blank;
  }

  /** Such a thread arises: an empty query is enough. */
  lemma SomeThreadIsLeftInsufficient(cfg: Settings, start: Thread, input: Input) returns (ps: seq<Position>, inputs: seq<Input>)
    requires Resets(start) && Text.Blank(start.query)
    ensures IsTurn(cfg, start, ps, inputs) && ps[|inputs|].node.None? && ps[|inputs|].st.insufficient
  {
    var first := Start(start);
    var second := Step(cfg, first, input);
    var third := Step(cfg, second, input);
    ps, inputs := [first, second, third], [input, input];
    hide Text.Blank, Say;
    assert Follows(cfg, ps, inputs, 0) && Follows(cfg, ps, inputs, 1);
  }

  // ---------------------------------------------------------------- what a turn cites

  predicate SourceInScope(s: Source, allowed: set<nat>) {
    match s
    case Full(c) => InScope(c.coll, allowed)
    case Bare(_, colls) => colls != {} && colls <= allowed
  }

  predicate Sourced(ss: seq<Source>, allowed: set<nat>) {
    forall i | 0 <= i < |ss| :: SourceInScope(ss[i], allowed)
  }

  /** What a cache hit must be for its sources to be in scope. */
  predicate SafeHit(hit: Option<Entry>, allowed: set<nat>) {
    hit.Some? ==> hit.value.Colls() <= allowed && Sourced(hit.value.citations, allowed)
  }

  lemma {:induction false} BareSourcesInScope(e: Entry, docs: seq<nat>, allowed: set<nat>)
    requires e.Colls() <= allowed && forall i | 0 <= i < |docs| :: docs[i] in e.Docs()
    ensures Sourced(BareSources(e, docs), allowed)
  {
    if docs != [] {
      BareSourcesInScope(e, docs[1..], allowed);
      assert docs[0] in e.Docs();
      var p :| p in e.pairs && p.0 == docs[0];
      assert p.1 in CollsOf(e, docs[0]);
      assert CollsOf(e, docs[0]) <= e.Colls();
    }
  }

  lemma HitSourcesInScope(e: Entry, allowed: set<nat>)
    requires SafeHit(Some(e), allowed)
    ensures Sourced(HitSources(e), allowed)
  {
    if e.citations == [] {
      var docs := Ascending(e.Docs());
      forall i | 0 <= i < |docs| ensures docs[i] in e.Docs() {
        assert docs[i] in docs;
      }
      BareSourcesInScope(e, docs, allowed);
    }
  }

  lemma {:induction false} FullSourcesAreThose(cs: seq<Citations.Citation>)
    ensures |FullSources(cs)| == |cs|
    ensures forall i | 0 <= i < |cs| :: FullSources(cs)[i] == Full(cs[i])
  {
    if cs != [] {
      FullSourcesAreThose(cs[..|cs| - 1]);
    }
  }

  /** Generated citations come from chunks that passed the assembler's access check. */
  lemma GeneratedInScope(cfg: Settings, st: Thread, store: Assembler.Store, answer: string)
    ensures Sourced(FullSources(Citations.Extract(answer, Context(cfg, st, store).packed)), st.Allowed())
  {
    var packed := Context(cfg, st, store).packed;
    Assembler.PackedAreInScope(st.chunks, cfg.tokenBudget, st.Allowed());
    assert Assembler.AllInScope(packed, st.Allowed());
    hide Thread.Allowed, Context, Citations.Extract;
    var cs := Citations.Extract(answer, packed);
    FullSourcesAreThose(cs);
    Citations.ExtractsExactlyTheMarkers(answer, packed);
    forall i | 0 <= i < |cs| ensures SourceInScope(Full(cs[i]), st.Allowed()) {
      assert Citations.CitesPassage(cs[i], answer, packed);
    }
  }

  /** No node leaves the scope, given that a cache hit is safe for it. */
  lemma NodeKeepsSourced(cfg: Settings, node: Node, st: Thread, input: Input)
    requires Sourced(st.citations, st.Allowed())
    requires node == CacheLookup ==> SafeHit(input.hit, st.Allowed())
    ensures var next := RunNode(cfg, node, st, input);
            next.allowedIds == st.allowedIds && Sourced(next.citations, st.Allowed())
  {
    if node == CacheLookup && input.hit.Some? {
      HitSourcesInScope(input.hit.value, st.Allowed());
    }
    if node == Generator {
      GeneratedInScope(cfg, st, input.store, Citations.Normalize(input.text));
    }
    hide Text.Blank, Text.Strip, Citations.Normalize, Citations.Extract,
         Context, FullSources, HitSources, Thread.Allowed, Say, SourceInScope;
  }

  /** Where the sources of a turn come from: the thread, until the turn has sources of its own in scope. */
  predicate CitesAt(node: Option<Node>, start: Thread, st: Thread) {
    var own, kept := Sourced(st.citations, start.Allowed()), st.citations == start.citations;
    && st.allowedIds == start.allowedIds
    && match node
       case None => own || (kept && (Text.Blank(start.query) || start.insufficient))
       case Some(EvalQueue) => own || (kept && (Text.Blank(start.query) || start.insufficient))
       case Some(InputGuard) => st == start
       case Some(HallucinationGrader) => own
       case Some(RetryGeneration) => own
       case Some(FinalizeAnswer) => own
       case Some(CacheWriter) => own
       case Some(_) => own || kept
  }

  lemma NodeKeepsCitesAt(cfg: Settings, node: Node, start: Thread, st: Thread, input: Input)
    requires CitesAt(Some(node), start, st)
    requires node == CacheLookup ==> SafeHit(input.hit, start.Allowed())
    ensures var next := RunNode(cfg, node, st, input); CitesAt(NextNode(cfg, node, next), start, next)
  {
    if node == CacheLookup && input.hit.Some? {
      HitSourcesInScope(input.hit.value, st.Allowed());
    }
    if node == Generator {
      GeneratedInScope(cfg, st, input.store, Citations.Normalize(input.text));
    }
    hide Text.Blank, Text.Strip, Citations.Normalize, Citations.Extract,
         Context, FullSources, HitSources, ParsedIds, Say, SourceInScope, OverBudget;
  }

  /** Every cache hit of the turn is safe for its scope. */
  ghost predicate SafeHits(start: Thread, ps: seq<Position>, inputs: seq<Input>)
    requires |ps| == |inputs| + 1
  {
    forall i | 0 <= i < |inputs| && ps[i].node == Some(CacheLookup) :: SafeHit(inputs[i].hit, start.Allowed())
  }

  lemma {:induction false} TurnKeepsCitesAt(cfg: Settings, start: Thread, ps: seq<Position>, inputs: seq<Input>, i: nat)
    requires IsTurn(cfg, start, ps, inputs) && SafeHits(start, ps, inputs) && i < |ps|
    ensures CitesAt(ps[i].node, start, ps[i].st)
  {
    if i == 0 {
      hide Text.Blank, Thread.Allowed, Sourced;
    } else {
      TurnKeepsCitesAt(cfg, start, ps, inputs, i - 1);
      assert Follows(cfg, ps, inputs, i - 1);
      hide CitesAt, RunNode, NextNode, SafeHit;
      NodeKeepsCitesAt(cfg, ps[i - 1].node.value, start, ps[i - 1].st, inputs[i - 1]);
    }
  }

  lemma EndCites(cfg: Settings, start: Thread, ps: seq<Position>, inputs: seq<Input>)
    requires IsTurn(cfg, start, ps, inputs) && ps[|inputs|].node.None?
    requires CitesAt(None, start, ps[|inputs|].st)
    ensures Sourced(ps[|inputs|].st.citations, start.Allowed())
            <==> Sourced(start.citations, start.Allowed()) || (!Text.Blank(start.query) && !start.insufficient)
  {
    TurnKeepsBefore(cfg, start, ps, inputs, |inputs|);
    hide IsTurn, Sourced, Thread.Allowed, Text.Blank, Say;
  }

  /**
   * With safe hits, what a finished turn hands back is in its scope if and only if what
   * the thread began with is, or the guard let the turn pass; a turn refused at the
   * guard hands back what an earlier turn cited, whatever has become of the permissions.
   */
  lemma SourcesAtTheEnd(cfg: Settings, start: Thread, ps: seq<Position>, inputs: seq<Input>)
    requires IsTurn(cfg, start, ps, inputs) && ps[|inputs|].node.None? && SafeHits(start, ps, inputs)
    ensures Sourced(ps[|inputs|].st.citations, start.Allowed())
            <==> Sourced(start.citations, start.Allowed()) || (!Text.Blank(start.query) && !start.insufficient)
  {
    TurnKeepsCitesAt(cfg, start, ps, inputs, |inputs|);
    EndCites(cfg, start, ps, inputs);
  }

  /** A source whose permission was withdrawn comes back: a blank message on its thread is enough. */
  lemma WithdrawnSourceComesBack(cfg: Settings, start: Thread, input: Input) returns (ps: seq<Position>, inputs: seq<Input>)
    requires Resets(start) && Text.Blank(start.query) && !Sourced(start.citations, start.Allowed())
    ensures IsTurn(cfg, start, ps, inputs) && ps[|inputs|].node.None?
    ensures ps[|inputs|].st.citations == start.citations && !Sourced(ps[|inputs|].st.citations, start.Allowed())
  {
    ps, inputs := SomeThreadIsLeftInsufficient(cfg, start, input);
    AbstainingTurn(cfg, start, ps, inputs, 0);
  }

  // ---------------------------------------------------------------- what the cited sources are

  /** A full citation of one of the chunks. */
  predicate CitesOneOf(s: Source, chunks: seq<Passage>) {
    s.Full? && exists j :: 0 <= j < |chunks| && s.citation.doc == chunks[j].doc && s.citation.coll == chunks[j].coll
  }

  ghost predicate CitesChunks(st: Thread) {
    forall i | 0 <= i < |st.citations| :: CitesOneOf(st.citations[i], st.chunks)
  }

  predicate HoldsGenerated(node: Option<Node>) {
    node == Some(HallucinationGrader) || node == Some(FinalizeAnswer) || node == Some(CacheWriter)
  }

  lemma GeneratedCitesChunks(cfg: Settings, st: Thread, input: Input)
    ensures CitesChunks(GeneratorNode(cfg, st, input))
  {
    var answer, packed, next := Citations.Normalize(input.text), Context(cfg, st, input.store).packed, GeneratorNode(cfg, st, input);
    Assembler.PackedAreTaken(Assembler.Allowed(st.chunks, st.Allowed()), cfg.tokenBudget);
    assert Assembler.TakenFrom(packed, Assembler.Allowed(st.chunks, st.Allowed()));
    hide Thread.Allowed, Context, Citations.Extract, Citations.Normalize, Assembler.Allowed, Assembler.TakenFrom;
    var cs := Citations.Extract(answer, packed);
    assert next.citations == FullSources(cs);
    FullSourcesAreThose(cs);
    Citations.ExtractsExactlyTheMarkers(answer, packed);
    hide GeneratorNode, Citations.Marked, CitesOneOf;
    CitedAreAmong(cs, answer, packed, st.chunks, st.Allowed());
  }

  lemma CitedAreAmong(cs: seq<Citations.Citation>, answer: string, packed: seq<Passage>, chunks: seq<Passage>, allowed: set<nat>)
    requires Assembler.TakenFrom(packed, Assembler.Allowed(chunks, allowed))
    requires forall i | 0 <= i < |cs| :: Citations.CitesPassage(cs[i], answer, packed)
    ensures forall i | 0 <= i < |cs| :: CitesOneOf(Full(cs[i]), chunks)
  {
    hide Assembler.TakenFrom, Assembler.Allowed, Assembler.Among, Citations.Marked, CitesOneOf;
    forall i | 0 <= i < |cs| ensures CitesOneOf(Full(cs[i]), chunks) {
      assert Citations.CitesPassage(cs[i], answer, packed);
      Assembler.TakenAreAmong(packed, chunks, allowed, cs[i].marker - 1);
      CitedIsAmong(cs[i], packed[cs[i].marker - 1], chunks);
    }
  }

  lemma CitedIsAmong(c: Citations.Citation, p: Passage, chunks: seq<Passage>)
    requires c.doc == p.doc && c.coll == p.coll && Assembler.Among(p, chunks)
    ensures CitesOneOf(Full(c), chunks)
  {
  }

  /** From the generator to the cache writer the citations are of the chunks in the state. */
  lemma NodeKeepsCitesChunks(cfg: Settings, node: Node, st: Thread, input: Input)
    requires HoldsGenerated(Some(node)) ==> CitesChunks(st)
    ensures var next := RunNode(cfg, node, st, input); HoldsGenerated(NextNode(cfg, node, next)) ==> CitesChunks(next)
  {
    var next := RunNode(cfg, node, st, input);
    IntoCacheWriter(cfg, node, st, input);
    if node == Generator {
      GeneratedCitesChunks(cfg, st, input);
    }
    hide GeneratorNode, HallucinationGraderNode, CacheLookupNode, InputGuardNode, RetrieverNode, InsufficientNode, OverBudget;
  }
}
