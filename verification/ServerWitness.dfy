/** A run after which only the subset check keeps an answer from a requester of the very same scope. */
module ServerWitness {
  import opened Evidence
  import opened Options
  import opened SemanticCache
  import opened Turn
  import opened TurnOutcome
  import opened Server
  import Assembler
  import Citations
  import Text
  import TurnProperties

  lemma {:induction false} RunGrows(cfg: Settings, ttl: real, w: World, events: seq<Event>, mid: World, e: Event)
    requires Server.IsRun(cfg, ttl, w, events, mid) && Enabled(mid, e)
    ensures Server.IsRun(cfg, ttl, w, events + [e], Happens(cfg, ttl, mid, e))
    decreases |events|
  {
    hide Enabled, CacheAfter, TurnsAfter;
    if events == [] {
      assert ([] + [e])[1..] == [];
      assert Server.IsRun(cfg, ttl, Happens(cfg, ttl, mid, e), [], Happens(cfg, ttl, mid, e));
    } else {
      RunGrows(cfg, ttl, Happens(cfg, ttl, w, events[0]), events[1..], mid, e);
      assert (events + [e])[1..] == events[1..] + [e];
    }
  }

  function Alone(start: Thread, ps: seq<Position>, inputs: seq<Input>): World {
    World(map[0 := Session(start, ps, inputs)], EMPTY)
  }

  lemma {:induction false} NothingCached(hash: Digest, ranked: seq<nat>, limit: nat)
    ensures Candidates(EMPTY.points, hash, ranked, limit) == []
  {
    if ranked != [] && limit > 0 {
      NothingCached(hash, ranked[1..], limit);
    }
  }

  lemma OneStepAlone(cfg: Settings, ttl: real, start: Thread, ps: seq<Position>, inputs: seq<Input>, input: Input)
    requires ps != [] && ps[|ps| - 1].node.Some? && ps[|ps| - 1].node != Some(CacheWriter) && input.hit == None
    ensures var w, e := Alone(start, ps, inputs), Advance(0, input, [], 0.0, false, NotSaved, 0);
            Enabled(w, e)
            && Happens(cfg, ttl, w, e) == Alone(start, ps + [Step(cfg, ps[|ps| - 1], input)], inputs + [input])
  {
    hide Step, Thread.Allowed, Text.Blank;
    var w, e := Alone(start, ps, inputs), Advance(0, input, [], 0.0, false, NotSaved, 0);
    var p := Now(w.turns[0]);
    NothingCached(ScopeHash(p.st.Allowed()), [], LIMIT);
    assert Answered(ttl, w, p, e) == input;
  }

  lemma TurnWithoutLast(cfg: Settings, start: Thread, ps: seq<Position>, inputs: seq<Input>, n: nat)
    requires IsTurn(cfg, start, ps, inputs) && |inputs| == n + 1
    ensures IsTurn(cfg, start, ps[..n + 1], inputs[..n])
    ensures ps[n].node.Some? && ps == ps[..n + 1] + [Step(cfg, ps[n], inputs[n])] && inputs == inputs[..n] + [inputs[n]]
  {
    hide Step, Resets;
    assert Follows(cfg, ps, inputs, n);
    var qs, fewer := ps[..n + 1], inputs[..n];
    forall i | 0 <= i < n ensures Follows(cfg, qs, fewer, i) {
      assert Follows(cfg, ps, inputs, i);
    }
  }

  lemma JustBegun(cfg: Settings, ttl: real, start: Thread)
    requires Resets(start)
    ensures Server.IsRun(cfg, ttl, START, [] + [Begin(0, start)], Alone(start, [Turn.Start(start)], []))
  {
    var e := Begin(0, start);
    assert Enabled(START, e) && Happens(cfg, ttl, START, e) == Alone(start, [Turn.Start(start)], []);
    assert Server.IsRun(cfg, ttl, START, [], START);
    RunGrows(cfg, ttl, START, [], START, e);
  }

  /** Every turn that is not served from the cache and does not write it is a run of the server. */
  lemma {:induction false} TurnAlone(cfg: Settings, ttl: real, start: Thread, ps: seq<Position>, inputs: seq<Input>)
    returns (events: seq<Event>)
    requires IsTurn(cfg, start, ps, inputs)
    requires forall i | 0 <= i < |inputs| :: inputs[i].hit == None && ps[i].node != Some(CacheWriter)
    ensures Server.IsRun(cfg, ttl, START, events, Alone(start, ps, inputs))
    decreases |inputs|
  {
    if inputs == [] {
      JustBegun(cfg, ttl, start);
      events := [] + [Begin(0, start)];
      assert ps == [Turn.Start(start)];
    } else {
      var n := |inputs| - 1;
      TurnWithoutLast(cfg, start, ps, inputs, n);
      var qs, fewer := ps[..n + 1], inputs[..n];
      hide Server.IsRun, IsTurn, Step, Enabled, Happens;
      var before := TurnAlone(cfg, ttl, start, qs, fewer);
      OneStepAlone(cfg, ttl, start, qs, fewer, inputs[n]);
      var e := Advance(0, inputs[n], [], 0.0, false, NotSaved, 0);
      RunGrows(cfg, ttl, START, before, Alone(start, qs, fewer), e);
      events := before + [e];
    }
  }

  // ---------------------------------------------------------------- the turn

  /** A chunk of collection 2, which the requester, allowed collection 1 only, should not have been given. */
  const STRAY := Passage(0, Canonical(7), Canonical(2), "stray", "")

  function Asking(): Thread {
    Thread("q", [Canonical(1)], [Message(User, "q")], Counters(0, 0, 0), TextIntent, [], [], "", [], false, false, false, false)
  }

  /** Each step of the outside world: no hit, a text intent, the stray chunk, a yes, and an answer without markers. */
  function Answering(store: Assembler.Store): Input {
    Input(None, TextIntent, [], [STRAY], [], true, "x", store)
  }

  lemma AllowsOne(ids: seq<IdText>)
    requires ids == [Canonical(1)]
    ensures ParsedIds(ids) == {1}
  {
    assert ids[0].Parsed() == Some(1);
  }

  /** The assembler drops the stray chunk, so no citation comes of it. */
  lemma StrayIsDropped(cfg: Settings, st: Thread, store: Assembler.Store)
    requires st.chunks == [STRAY] && st.Allowed() == {1}
    ensures Context(cfg, st, store).packed == []
    ensures GeneratorNode(cfg, st, Answering(store)).citations == []
    ensures GeneratorNode(cfg, st, Answering(store)).answer == "x"
  {
    assert [STRAY][..0] == [];
    assert Assembler.Allowed([STRAY], {1}) == [];
    assert Context(cfg, st, store).packed == [];
    assert Citations.NoNative("x") && Citations.NoNative("");
    Citations.NormalizeIdempotent("x");
    assert Citations.Extract("x", []) == [];
    assert FullSources([]) == [];
  }

  function NodesRun(i: nat): Counters {
    Counters(i, 0, 0)
  }

  /** The turn up to the cache writer. */
  function At(i: nat): Position
    requires i <= 8
  {
    var asked := Asking().(counters := NodesRun(i));
    var found := asked.(chunks := [STRAY]);
    var answered := found.(relevanceOk := true, answer := "x");
    if i == 0 then Position(Some(InputGuard), asked)
    else if i == 1 then Position(Some(CacheLookup), asked)
    else if i == 2 then Position(Some(Router), asked)
    else if i == 3 then Position(Some(Retriever), asked)
    else if i == 4 then Position(Some(RetrievalGrader), found)
    else if i == 5 then Position(Some(Generator), found.(relevanceOk := true))
    else if i == 6 then Position(Some(HallucinationGrader), answered)
    else if i == 7 then Position(Some(FinalizeAnswer), answered.(grounded := true))
    else Position(Some(CacheWriter), answered.(grounded := true, messages := Say(Asking().messages, "x")))
  }

  predicate Roomy(cfg: Settings) {
    cfg.maxIterations >= 8 && cfg.hallucinationCheck
  }

  lemma EarlyStepIs(cfg: Settings, store: Assembler.Store, i: nat)
    requires Roomy(cfg) && i < 4
    ensures Step(cfg, At(i), Answering(store)) == At(i + 1)
  {
    AllowsOne([Canonical(1)]);
    assert !Text.Blank("q") by {
      assert "q"[0] == 'q';
    }
    hide Context, Citations.Extract, Citations.Normalize, FullSources, HitSources, ParsedIds, Text.Blank, Text.Strip, Say,
         AfterGrade, AfterHalluc, AfterMetadata;
  }

  lemma LateStepIs(cfg: Settings, store: Assembler.Store, i: nat)
    requires Roomy(cfg) && 4 <= i < 8
    ensures Step(cfg, At(i), Answering(store)) == At(i + 1)
  {
    AllowsOne([Canonical(1)]);
    if i == 5 {
      StrayIsDropped(cfg, At(5).st, store);
    }
    hide Context, Citations.Extract, Citations.Normalize, FullSources, HitSources, ParsedIds, Text.Blank, Text.Strip, Say,
         AfterRouter, AfterMetadata;
  }

  lemma StepIs(cfg: Settings, store: Assembler.Store, i: nat)
    requires Roomy(cfg) && i < 8
    ensures Step(cfg, At(i), Answering(store)) == At(i + 1)
  {
    if i < 4 {
      EarlyStepIs(cfg, store, i);
    } else {
      LateStepIs(cfg, store, i);
    }
    hide Step, At, Answering;
  }

  lemma {:induction false} TurnIs(cfg: Settings, store: Assembler.Store, n: nat) returns (ps: seq<Position>, inputs: seq<Input>)
    requires Roomy(cfg) && n <= 8
    ensures IsTurn(cfg, Asking(), ps, inputs) && |inputs| == n
    ensures forall i | 0 <= i <= n :: ps[i] == At(i)
    ensures forall i | 0 <= i < n :: inputs[i] == Answering(store)
  {
    hide At;
    if n == 0 {
      ps, inputs := [Turn.Start(Asking())], [];
      AtStart();
    } else {
      ps, inputs := TurnIs(cfg, store, n - 1);
      StepIs(cfg, store, n - 1);
      AtRuns(n - 1);
      TurnProperties.TurnGrows(cfg, Asking(), ps, inputs, Answering(store));
      hide IsTurn, Step;
      ps, inputs := ps + [At(n)], inputs + [Answering(store)];
    }
  }

  lemma AtStart()
    ensures At(0) == Turn.Start(Asking())
  {
  }

  lemma AtRuns(i: nat)
    requires i < 8
    ensures At(i).node.Some? && At(i).node != Some(CacheWriter)
  {
  }

  // ---------------------------------------------------------------- the entry

  /** What the turn caches: the answer, tagged with the stray chunk's collection, for the scope of the asker. */
  function Kept(): Entry {
    Entry("x", "q", {(7, 2)}, [], ScopeHash({1}), 0.0)
  }

  lemma KeptIsWritten()
    ensures Writes(At(8).st, 0.0) == Some(Kept())
  {
    AllowsOne([Canonical(1)]);
    var chunks := At(8).st.chunks;
    assert chunks == [STRAY] && STRAY.doc.Parsed() == Some(7) && STRAY.coll.Parsed() == Some(2);
    assert AllParse(chunks);
    assert (chunks[0].doc.Parsed().value, chunks[0].coll.Parsed().value) in Pairs(chunks);
    assert Pairs(chunks) == {(7, 2)};
    hide ParsedIds;
  }

  lemma KeptIsOutside()
    ensures 2 in Kept().Colls() && !(Kept().Colls() <= {1})
    ensures !Sourced(HitSources(Kept()), {1})
  {
    assert (7, 2) in Kept().pairs;
    var e := Kept();
    assert EntrySafe(e);
    SubsetCheckGuardsBareDocuments(e, {1});
  }

  lemma LookupPassesOver(s: State, ttl: real)
    requires s.points == map[0 := Kept()] && ttl >= 0.0
    ensures Candidates(s.points, ScopeHash({1}), [0], LIMIT) == [0] && !IsStale(Kept(), 0.0, ttl)
    ensures Lookup(s, {1}, "q", [0], 0.0, ttl) == None
  {
    KeptIsOutside();
    assert [0][1..] == [];
    assert Candidates(s.points, ScopeHash({1}), [], LIMIT - 1) == [];
    assert FirstHit(s, [], {1}, 0.0, ttl) == None;
    hide Text.Blank;
  }

  /**
   * A reachable cache in which the scope hash matches and only the subset check passes an
   * entry over: a stray chunk was retrieved, the assembler dropped it, the answer cites
   * nothing, and the entry is tagged with a collection the requester may not read. Had
   * the entry been served, its document would have been handed back as the source.
   */
  lemma SubsetCheckIsNeeded(cfg: Settings, ttl: real, store: Assembler.Store) returns (events: seq<Event>, w: World)
    requires Roomy(cfg) && ttl >= 0.0
    ensures Server.IsRun(cfg, ttl, START, events, w)
    ensures 0 in w.turns && w.turns[0].start.Allowed() == {1}
    ensures var e := Kept();
            && w.cache.points == map[0 := e] && e.scopeHash == ScopeHash({1}) && e.citations == []
            && Candidates(w.cache.points, ScopeHash({1}), [0], LIMIT) == [0] && !IsStale(e, 0.0, ttl)
            && Lookup(w.cache, {1}, "q", [0], 0.0, ttl) == None
            && !(e.Colls() <= {1}) && !Sourced(HitSources(e), {1})
  {
    var ps, inputs := TurnIs(cfg, store, 8);
    forall i | 0 <= i < 8 ensures inputs[i].hit == None && ps[i].node != Some(CacheWriter) {
      AtRuns(i);
      assert inputs[i] == Answering(store) && ps[i] == At(i);
    }
    var before := TurnAlone(cfg, ttl, Asking(), ps, inputs);
    var mid := Alone(Asking(), ps, inputs);
    var e := Advance(0, Answering(store), [], 0.0, false, Complete, 0);
    KeptIsWritten();
    KeptIsOutside();
    AllowsOne([Canonical(1)]);
    WriterStores(cfg, ttl, ps, inputs, e);
    hide Server.IsRun, IsTurn, Step, Enabled, Happens, At, Kept, Entry.Colls;
    RunGrows(cfg, ttl, START, before, mid, e);
    events, w := before + [e], Happens(cfg, ttl, mid, e);
    LookupPassesOver(w.cache, ttl);
  }

  lemma WriterStores(cfg: Settings, ttl: real, ps: seq<Position>, inputs: seq<Input>, e: Event)
    requires ps != [] && ps[|ps| - 1] == At(8) && e.Advance? && e.tid == 0 && e.saves.Complete? && e.id == 0 && e.at == 0.0
    requires Writes(At(8).st, 0.0) == Some(Kept())
    ensures var mid := Alone(Asking(), ps, inputs);
            && Enabled(mid, e)
            && Happens(cfg, ttl, mid, e).cache.points == map[0 := Kept()]
            && 0 in Happens(cfg, ttl, mid, e).turns && Happens(cfg, ttl, mid, e).turns[0].start == Asking()
  {
    hide Writes, Step, Kept, Entry.Tags, Thread.Allowed;
  }
}
