/** When the subset check of the cache is redundant: as long as retrieval stays in the requester's scope. */
module ServerScope {
  import opened Evidence
  import opened Options
  import opened SemanticCache
  import opened Turn
  import opened Server
  import Citations
  import Text

  /** Every chunk whose collection parses is of an allowed collection. */
  ghost predicate Within(cs: seq<Passage>, allowed: set<nat>) {
    forall i | 0 <= i < |cs| && cs[i].coll.Parsed().Some? :: cs[i].coll.Parsed().value in allowed
  }

  /** What a turn caches lies in the scope its key hashes exactly if the chunks it holds do. */
  lemma WrittenWithin(st: Thread, at: real)
    requires Writes(st, at).Some?
    ensures Writes(st, at).value.scopeHash == ScopeHash(st.Allowed())
    ensures Writes(st, at).value.Colls() <= st.Allowed() <==> Within(st.chunks, st.Allowed())
  {
    var e, allowed := Writes(st, at).value, st.Allowed();
    hide Thread.Allowed;
    if e.Colls() <= allowed {
      forall i | 0 <= i < |st.chunks| && st.chunks[i].coll.Parsed().Some? ensures st.chunks[i].coll.Parsed().value in allowed {
        assert (st.chunks[i].doc.Parsed().value, st.chunks[i].coll.Parsed().value) in e.pairs;
        assert st.chunks[i].coll.Parsed().value in e.Colls();
      }
    }
    if Within(st.chunks, allowed) {
      forall c | c in e.Colls() ensures c in allowed {
        var p :| p in e.pairs && p.1 == c;
        assert p in Pairs(st.chunks);
      }
    }
  }

  // ---------------------------------------------------------------- turns

  /** The nodes that read chunks this turn retrieved or listed. */
  predicate HoldsChunks(node: Option<Node>) {
    node == Some(RetrievalGrader) || node == Some(Generator) || node == Some(HallucinationGrader)
    || node == Some(RetryGeneration) || node == Some(FinalizeAnswer) || node == Some(CacheWriter)
  }

  ghost predicate WithinAt(node: Option<Node>, start: Thread, st: Thread) {
    st.allowedIds == start.allowedIds && (HoldsChunks(node) ==> Within(st.chunks, start.Allowed()))
  }

  /** What retrieval and the document list hand to the turn is in its scope. */
  ghost predicate Faithful(input: Input, start: Thread) {
    Within(input.found, start.Allowed()) && Within(input.listed, start.Allowed())
  }

  lemma NodeKeepsWithinAt(cfg: Settings, node: Node, start: Thread, st: Thread, input: Input)
    requires WithinAt(Some(node), start, st) && Faithful(input, start)
    ensures var next := RunNode(cfg, node, st, input); WithinAt(NextNode(cfg, node, next), start, next)
  {
    assert Within([], start.Allowed());
    hide Text.Blank, Text.Strip, Citations.Normalize, Citations.Extract,
         Context, FullSources, HitSources, Thread.Allowed, Say, OverBudget, Within;
  }

  // ---------------------------------------------------------------- runs

  ghost predicate SessionWithin(s: Session) {
    s.ps != [] && WithinAt(Now(s).node, s.start, Now(s).st)
  }

  ghost predicate EntriesWithin(s: State) {
    forall id | id in s.points :: s.points[id].Colls() <= s.points[id].scopeHash.scope
  }

  ghost predicate WorldWithin(w: World) {
    EntriesWithin(w.cache) && forall tid | tid in w.turns :: SessionWithin(w.turns[tid])
  }

  ghost predicate FaithfulEvent(w: World, e: Event)
    requires Enabled(w, e)
  {
    e.Advance? ==> Faithful(e.input, w.turns[e.tid].start)
  }

  /** In the whole run retrieval and the document list stay in the scope of the turn they serve. */
  ghost predicate FaithfulRun(cfg: Settings, ttl: real, w: World, events: seq<Event>)
    decreases |events|
  {
    events != [] && Enabled(w, events[0]) ==>
      FaithfulEvent(w, events[0]) && FaithfulRun(cfg, ttl, Happens(cfg, ttl, w, events[0]), events[1..])
  }

  lemma WriterWithin(w: World, e: Event)
    requires WorldWithin(w) && Enabled(w, e) && Written(w, e).Some?
    ensures Written(w, e).value.Colls() <= Written(w, e).value.scopeHash.scope
  {
    var s := w.turns[e.tid];
    assert SessionWithin(s);
    WrittenWithin(Now(s).st, e.at);
    hide Writes, Within, Runs, Fresh, Entry.Colls;
  }

  lemma ApplyKeepsWithin(s: State, op: Op, ttl: real)
    requires EntriesWithin(s) && (op.StoreOp? ==> op.e.Colls() <= op.e.scopeHash.scope)
    ensures EntriesWithin(Apply(s, op, ttl))
  {
    hide Candidates, StaleIds, Expired, Listed, Entry.Tags, Entry.Colls;
  }

  lemma EventKeepsWithin(cfg: Settings, ttl: real, w: World, e: Event)
    requires WorldWithin(w) && Enabled(w, e) && FaithfulEvent(w, e)
    ensures WorldWithin(Happens(cfg, ttl, w, e))
  {
    if Written(w, e).Some? {
      WriterWithin(w, e);
    }
    if CacheOp(ttl, w, e).Some? {
      assert CacheOp(ttl, w, e).value.StoreOp? ==> Written(w, e).Some? && CacheOp(ttl, w, e).value.e == Written(w, e).value;
      hide Written, Apply, Fresh, Entry.Colls;
      ApplyKeepsWithin(w.cache, CacheOp(ttl, w, e).value, ttl);
    }
    var t := Happens(cfg, ttl, w, e);
    assert EntriesWithin(t.cache);
    forall tid | tid in t.turns ensures SessionWithin(t.turns[tid]) {
      TurnKeepsWithin(cfg, ttl, w, e, tid);
    }
  }

  lemma TurnKeepsWithin(cfg: Settings, ttl: real, w: World, e: Event, tid: nat)
    requires WorldWithin(w) && Enabled(w, e) && FaithfulEvent(w, e) && tid in TurnsAfter(cfg, ttl, w, e)
    ensures SessionWithin(TurnsAfter(cfg, ttl, w, e)[tid])
  {
    assert tid in w.turns ==> SessionWithin(w.turns[tid]);
    hide EntriesWithin, Within, Fresh, Lookup, Thread.Allowed, RunNode, NextNode;
    if e.Advance? && tid == e.tid {
      var s := w.turns[tid];
      var input := Answered(ttl, w, Now(s), e);
      assert Faithful(input, s.start);
      NodeKeepsWithinAt(cfg, Now(s).node.value, s.start, Now(s).st, input);
    }
  }

  lemma {:induction false} RunKeepsWithin(cfg: Settings, ttl: real, w: World, events: seq<Event>, end: World)
    requires WorldWithin(w) && Server.IsRun(cfg, ttl, w, events, end) && FaithfulRun(cfg, ttl, w, events)
    ensures WorldWithin(end)
    decreases |events|
  {
    hide WorldWithin, FaithfulEvent, Enabled, CacheAfter, TurnsAfter;
    if events != [] {
      EventKeepsWithin(cfg, ttl, w, events[0]);
      RunKeepsWithin(cfg, ttl, Happens(cfg, ttl, w, events[0]), events[1..], end);
    }
  }

  // ---------------------------------------------------------------- the check

  /** The candidate loop without its subset check. */
  function FirstFresh(s: State, ids: seq<nat>, now: real, ttl: real): Option<Entry> {
    if ids == [] then None
    else if ids[0] in s.points && !IsStale(s.points[ids[0]], now, ttl) then Some(s.points[ids[0]])
    else FirstFresh(s, ids[1..], now, ttl)
  }

  lemma {:induction false} CheckPassesNothingOver(s: State, ids: seq<nat>, allowed: set<nat>, now: real, ttl: real)
    requires EntriesWithin(s)
    requires forall i | 0 <= i < |ids| :: ids[i] in s.points && s.points[ids[i]].scopeHash == ScopeHash(allowed)
    ensures FirstHit(s, ids, allowed, now, ttl) == FirstFresh(s, ids, now, ttl)
  {
    hide Entry.Colls, IsStale;
    if ids != [] {
      CheckPassesNothingOver(s, ids[1..], allowed, now, ttl);
    }
  }

  /**
   * In every run in which retrieval and the document list stay in the scope of their turn,
   * every entry lies in the scope its key hashes, and dropping the subset check would
   * change no lookup of any requester: there it is trivially true once the hash matches.
   */
  lemma SubsetCheckIsRedundant(cfg: Settings, ttl: real, events: seq<Event>, w: World,
                               allowed: set<nat>, ranked: seq<nat>, now: real)
    requires Server.IsRun(cfg, ttl, START, events, w) && FaithfulRun(cfg, ttl, START, events)
    ensures forall id | id in w.cache.points && w.cache.points[id].scopeHash == ScopeHash(allowed) ::
              w.cache.points[id].Colls() <= allowed
    ensures var ids := Candidates(w.cache.points, ScopeHash(allowed), ranked, LIMIT);
            FirstHit(w.cache, ids, allowed, now, ttl) == FirstFresh(w.cache, ids, now, ttl)
  {
    RunKeepsWithin(cfg, ttl, START, events, w);
    hide Server.IsRun, FaithfulRun, Candidates, Entry.Colls, FirstHit, FirstFresh;
    CandidatesMatch(w.cache, ScopeHash(allowed), ranked, LIMIT);
    CheckPassesNothingOver(w.cache, Candidates(w.cache.points, ScopeHash(allowed), ranked, LIMIT), allowed, now, ttl);
  }
}
