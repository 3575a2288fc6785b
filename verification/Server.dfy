/** Interleaved chat turns of users with arbitrary scopes, sharing one semantic cache. */
module Server {
  import opened Evidence
  import opened Options
  import opened SemanticCache
  import opened Turn
  import opened TurnOutcome
  import Text
  import TurnProperties

  /** A turn in flight or finished: where it started and every position since. */
  datatype Session = Session(start: Thread, ps: seq<Position>, inputs: seq<Input>)

  /** Where a turn stands now. */
  function Now(s: Session): Position
    requires s.ps != []
  {
    s.ps[|s.ps| - 1]
  }

  datatype World = World(turns: map<nat, Session>, cache: State)

  /** How far a cache write gets: not at all, to the point but not to its tags, or through. */
  datatype Saving = NotSaved | PointOnly | Complete

  datatype Event =
    | Begin(tid: nat, start: Thread)
      /** One node runs; `saves` says how far a cache write gets, under a fresh `id`. */
    | Advance(tid: nat, input: Input, ranked: seq<nat>, at: real, deletes: bool, saves: Saving, id: nat)
    | Invalidate(tag: Tag)
    | Purge(at: real)

  const START := World(map[], EMPTY)

  predicate Runs(w: World, tid: nat) {
    tid in w.turns && w.turns[tid].ps != [] && Now(w.turns[tid]).node.Some?
  }

  /** A turn begins with the counters reset; every other key may be left over. Identifiers are fresh. */
  predicate Enabled(w: World, e: Event) {
    match e
    case Begin(tid, start) => tid !in w.turns && Resets(start)
    case Advance(tid, _, _, _, _, _, id) => Runs(w, tid) && Fresh(w.cache, id)
    case _ => true
  }

  /** The cache answers the lookup node, and only when some collection is allowed. */
  function Answered(ttl: real, w: World, p: Position, e: Event): Input
    requires e.Advance?
  {
    if p.node == Some(CacheLookup) && p.st.Allowed() != {}
    then e.input.(hit := Lookup(w.cache, p.st.Allowed(), p.st.query, e.ranked, e.at, ttl))
    else e.input.(hit := None)
  }

  /** What the event writes to the cache. */
  function Written(w: World, e: Event): Option<Entry>
    requires Enabled(w, e)
  {
    if e.Advance? && !e.saves.NotSaved? && Now(w.turns[e.tid]).node == Some(CacheWriter)
    then Writes(Now(w.turns[e.tid]).st, e.at)
    else None
  }

  /** What the event looks up, evicts, purges or writes in the cache. */
  function CacheOp(ttl: real, w: World, e: Event): Option<Op>
    requires Enabled(w, e)
  {
    match e
    case Begin(_, _) => None
    case Invalidate(tag) => Some(InvalidateOp(tag))
    case Purge(at) => Some(PurgeOp(at))
    case Advance(tid, _, ranked, at, deletes, saves, id) =>
      var p := Now(w.turns[tid]);
      if Written(w, e).Some? then Some(StoreOp(id, Written(w, e).value, saves.Complete?))
      else if p.node == Some(CacheLookup) && p.st.Allowed() != {}
      then Some(LookupOp(p.st.Allowed(), p.st.query, ranked, at, deletes))
      else None
  }

  function CacheAfter(ttl: real, w: World, e: Event): State
    requires Enabled(w, e)
  {
    var op := CacheOp(ttl, w, e);
    if op.Some? then Apply(w.cache, op.value, ttl) else w.cache
  }

  function TurnsAfter(cfg: Settings, ttl: real, w: World, e: Event): map<nat, Session>
    requires Enabled(w, e)
  {
    match e
    case Begin(tid, start) => w.turns[tid := Session(start, [Start(start)], [])]
    case Advance(tid, _, _, _, _, _, _) =>
      var s := w.turns[tid];
      var input := Answered(ttl, w, Now(s), e);
      w.turns[tid := Session(s.start, s.ps + [Step(cfg, Now(s), input)], s.inputs + [input])]
    case _ => w.turns
  }

  function Happens(cfg: Settings, ttl: real, w: World, e: Event): World
    requires Enabled(w, e)
  {
    World(TurnsAfter(cfg, ttl, w, e), CacheAfter(ttl, w, e))
  }

  ghost predicate IsRun(cfg: Settings, ttl: real, w: World, events: seq<Event>, end: World)
    decreases |events|
  {
    if events == [] then end == w
    else Enabled(w, events[0]) && IsRun(cfg, ttl, Happens(cfg, ttl, w, events[0]), events[1..], end)
  }

  // ---------------------------------------------------------------- what every run keeps

  /** A stored source is a full citation in the scope the entry is keyed by, of a chunk the entry is tagged with. */
  predicate CitesPair(s: Source, e: Entry) {
    && s.Full?
    && InScope(s.citation.coll, e.scopeHash.scope)
    && s.citation.doc.Parsed().Some?
    && (s.citation.doc.Parsed().value, s.citation.coll.id) in e.pairs
  }

  ghost predicate EntrySafe(e: Entry) {
    forall i | 0 <= i < |e.citations| :: CitesPair(e.citations[i], e)
  }

  ghost predicate CacheSafe(s: State) {
    Tagged(s) && forall id | id in s.points :: EntrySafe(s.points[id])
  }

  /** A turn is a run of the graph, and what it holds to cite of its own is in the scope it began with. */
  ghost predicate SessionSafe(cfg: Settings, s: Session) {
    && IsTurn(cfg, s.start, s.ps, s.inputs)
    && CitesAt(Now(s).node, s.start, Now(s).st)
    && (HoldsGenerated(Now(s).node) ==> CitesChunks(Now(s).st))
  }

  ghost predicate Safe(cfg: Settings, w: World) {
    CacheSafe(w.cache) && forall tid | tid in w.turns :: SessionSafe(cfg, w.turns[tid])
  }

  // ---------------------------------------------------------------- a hit

  /** The sources of a hit are in scope as soon as the collections of the entry are. */
  lemma EntryHitInScope(e: Entry, allowed: set<nat>)
    requires EntrySafe(e) && e.Colls() <= allowed
    ensures SafeHit(Some(e), allowed)
  {
    forall i | 0 <= i < |e.citations| ensures SourceInScope(e.citations[i], allowed) {
      assert CitesPair(e.citations[i], e);
      assert (e.citations[i].citation.doc.Parsed().value, e.citations[i].citation.coll.id) in e.pairs;
    }
  }

  lemma {:induction false} BareSourceOf(e: Entry, docs: seq<nat>, doc: nat)
    requires doc in docs
    ensures exists i :: 0 <= i < |BareSources(e, docs)| && BareSources(e, docs)[i] == Bare(doc, CollsOf(e, doc))
  {
    if docs[0] == doc {
      assert BareSources(e, docs)[0] == Bare(doc, CollsOf(e, doc));
    } else {
      BareSourceOf(e, docs[1..], doc);
      var i :| 0 <= i < |BareSources(e, docs[1..])| && BareSources(e, docs[1..])[i] == Bare(doc, CollsOf(e, doc));
      assert BareSources(e, docs)[i + 1] == BareSources(e, docs[1..])[i];
    }
  }

  /**
   * For an entry of the very same scope hash, the subset re-check is what keeps the
   * bare documents in scope: without stored citations the sources are in scope if and
   * only if every collection of the entry is allowed. Stored citations need no re-check.
   */
  lemma SubsetCheckGuardsBareDocuments(e: Entry, allowed: set<nat>)
    requires EntrySafe(e) && e.scopeHash == ScopeHash(allowed)
    ensures Sourced(HitSources(e), allowed) <==> e.citations != [] || e.Colls() <= allowed
  {
    if e.citations != [] {
      forall i | 0 <= i < |e.citations| ensures SourceInScope(e.citations[i], allowed) {
        assert CitesPair(e.citations[i], e);
      }
    } else if e.Colls() <= allowed {
      EntryHitInScope(e, allowed);
      HitSourcesInScope(e, allowed);
    } else if Sourced(HitSources(e), allowed) {
      forall c | c in e.Colls() ensures c in allowed {
        var p :| p in e.pairs && p.1 == c;
        var docs := Ascending(e.Docs());
        assert p.0 in e.Docs() && p.0 in docs;
        BareSourceOf(e, docs, p.0);
        assert c in CollsOf(e, p.0);
      }
    }
  }

  // ---------------------------------------------------------------- one event

  /** What the cache writer stores is cited in the scope of its key and tagged with what it cites. */
  lemma WrittenIsSafe(st: Thread, at: real)
    requires CitesChunks(st) && Sourced(st.citations, st.Allowed()) && Writes(st, at).Some?
    ensures EntrySafe(Writes(st, at).value)
  {
    var e := Writes(st, at).value;
    hide Thread.Allowed;
    forall i | 0 <= i < |e.citations| ensures CitesPair(e.citations[i], e) {
      assert CitesOneOf(st.citations[i], st.chunks) && SourceInScope(st.citations[i], st.Allowed());
      var c := st.citations[i].citation;
      var j :| 0 <= j < |st.chunks| && c.doc == st.chunks[j].doc && c.coll == st.chunks[j].coll;
      assert (c.doc.Parsed().value, c.coll.Parsed().value) in Pairs(st.chunks);
    }
  }

  lemma ApplyKeepsCacheSafe(s: State, op: Op, ttl: real)
    requires CacheSafe(s) && (op.StoreOp? ==> Fresh(s, op.id) && EntrySafe(op.e))
    ensures CacheSafe(Apply(s, op, ttl))
  {
    ApplyKeepsTagged(s, op, ttl);
    hide Tagged, EntrySafe, Candidates, StaleIds, Expired, Listed, Entry.Tags, Fresh;
  }

  lemma WriterIsSafe(cfg: Settings, ttl: real, w: World, e: Event)
    requires Safe(cfg, w) && Enabled(w, e) && Written(w, e).Some?
    ensures EntrySafe(Written(w, e).value)
  {
    assert SessionSafe(cfg, w.turns[e.tid]);
    hide IsTurn, CacheSafe, EntrySafe, CitesChunks, Sourced, Writes, Runs, Fresh, Safe;
    WrittenIsSafe(Now(w.turns[e.tid]).st, e.at);
  }

  lemma EventKeepsCacheSafe(cfg: Settings, ttl: real, w: World, e: Event)
    requires Safe(cfg, w) && Enabled(w, e)
    ensures CacheSafe(CacheAfter(ttl, w, e))
  {
    if Written(w, e).Some? {
      WriterIsSafe(cfg, ttl, w, e);
    }
    hide CacheSafe, EntrySafe, Apply, Written, Runs, Fresh, SessionSafe, Thread.Allowed;
    if CacheOp(ttl, w, e).Some? {
      ApplyKeepsCacheSafe(w.cache, CacheOp(ttl, w, e).value, ttl);
    }
  }

  /** A hit on a safe cache is safe for the scope that looked it up. */
  lemma LookupIsSafeHit(s: State, allowed: set<nat>, query: string, ranked: seq<nat>, now: real, ttl: real)
    requires CacheSafe(s)
    ensures SafeHit(Lookup(s, allowed, query, ranked, now, ttl), allowed)
  {
    var hit := Lookup(s, allowed, query, ranked, now, ttl);
    hide Lookup, Tagged;
    if hit.Some? {
      LookupIsSafe(s, allowed, query, ranked, now, ttl);
      EntryHitInScope(hit.value, allowed);
    }
  }

  lemma AdvanceKeepsSessionSafe(cfg: Settings, s: Session, input: Input)
    requires SessionSafe(cfg, s) && Now(s).node.Some?
    requires Now(s).node == Some(CacheLookup) ==> SafeHit(input.hit, s.start.Allowed())
    ensures SessionSafe(cfg, Session(s.start, s.ps + [Step(cfg, Now(s), input)], s.inputs + [input]))
  {
    var p := Now(s);
    TurnProperties.TurnGrows(cfg, s.start, s.ps, s.inputs, input);
    hide IsTurn, HoldsGenerated, CitesChunks, Sourced, SafeHit, RunNode, NextNode;
    NodeKeepsCitesAt(cfg, p.node.value, s.start, p.st, input);
    NodeKeepsCitesChunks(cfg, p.node.value, p.st, input);
  }

  lemma EventKeepsSessionSafe(cfg: Settings, ttl: real, w: World, e: Event, tid: nat)
    requires Safe(cfg, w) && Enabled(w, e) && tid in TurnsAfter(cfg, ttl, w, e)
    ensures SessionSafe(cfg, TurnsAfter(cfg, ttl, w, e)[tid])
  {
    assert tid in w.turns ==> SessionSafe(cfg, w.turns[tid]);
    match e {
      case Begin(_, start) =>
        hide Thread.Allowed;
      case Advance(_, _, ranked, at, _, _, _) =>
        if tid == e.tid {
          var s := w.turns[tid];
          LookupIsSafeHit(w.cache, Now(s).st.Allowed(), Now(s).st.query, ranked, at, ttl);
          hide SafeHit, Lookup, CacheSafe, Step, Fresh, IsTurn, CitesChunks, Sourced, HoldsGenerated;
          AdvanceKeepsSessionSafe(cfg, s, Answered(ttl, w, Now(s), e));
        }
      case _ =>
    }
  }

  lemma {:induction false} RunKeepsSafe(cfg: Settings, ttl: real, w: World, events: seq<Event>, end: World)
    requires Safe(cfg, w) && IsRun(cfg, ttl, w, events, end)
    ensures Safe(cfg, end)
    decreases |events|
  {
    if events != [] {
      var next := Happens(cfg, ttl, w, events[0]);
      EventKeepsCacheSafe(cfg, ttl, w, events[0]);
      forall tid | tid in next.turns ensures SessionSafe(cfg, next.turns[tid]) {
        EventKeepsSessionSafe(cfg, ttl, w, events[0], tid);
      }
      hide SessionSafe, CacheSafe, CacheAfter, TurnsAfter, Enabled;
      RunKeepsSafe(cfg, ttl, next, events[1..], end);
    }
  }

  /**
   * However the turns of any users interleave over one cache with invalidations and
   * purges, and whatever the models, retrievers and threads hold: every turn is a run of
   * the graph, and its sources are in the set of collections it began with or still
   * those its thread began with. When it is finished they are in that set if and only
   * if the thread's were, or the guard let the turn pass.
   */
  lemma EveryCitationIsInScope(cfg: Settings, ttl: real, events: seq<Event>, w: World, tid: nat)
    requires IsRun(cfg, ttl, START, events, w) && tid in w.turns
    ensures var s := w.turns[tid];
            && IsTurn(cfg, s.start, s.ps, s.inputs)
            && (Sourced(Now(s).st.citations, s.start.Allowed()) || Now(s).st.citations == s.start.citations)
            && (s.start.citations == [] ==> Sourced(Now(s).st.citations, s.start.Allowed()))
            && (Now(s).node.None? ==>
                  (Sourced(Now(s).st.citations, s.start.Allowed())
                   <==> Sourced(s.start.citations, s.start.Allowed())
                        || (!Text.Blank(s.start.query) && !s.start.insufficient)))
  {
    RunKeepsSafe(cfg, ttl, START, events, w);
    var s := w.turns[tid];
    assert SessionSafe(cfg, s);
    hide IsRun, IsTurn, SourceInScope, Thread.Allowed, CitesChunks, Text.Blank;
    if Now(s).node.None? {
      hide CitesAt;
      EndCites(cfg, s.start, s.ps, s.inputs);
    }
  }

  // ---------------------------------------------------------------- after an invalidation

  predicate CitesDocument(s: Source, doc: nat) {
    match s
    case Full(c) => c.doc.Parsed() == Some(doc)
    case Bare(d, _) => d == doc
  }

  /** No turn in the run caches an answer built on what the tag names. */
  ghost predicate NeverWrites(cfg: Settings, ttl: real, w: World, events: seq<Event>, tag: Tag)
    decreases |events|
  {
    events != [] && Enabled(w, events[0]) ==>
      && (Written(w, events[0]).Some? ==> tag !in Written(w, events[0]).value.Tags())
      && NeverWrites(cfg, ttl, Happens(cfg, ttl, w, events[0]), events[1..], tag)
  }

  lemma EventKeepsNoneNames(ttl: real, w: World, e: Event, tag: Tag, spared: set<nat>)
    requires NoneNames(w.cache, tag, spared) && Enabled(w, e)
    requires Written(w, e).Some? ==> tag !in Written(w, e).value.Tags()
    ensures NoneNames(CacheAfter(ttl, w, e), tag, spared)
  {
    hide NoneNames, Apply, Written, Runs, Fresh, Thread.Allowed, Entry.Tags;
    if CacheOp(ttl, w, e).Some? {
      ApplyKeepsNoneNames(w.cache, CacheOp(ttl, w, e).value, ttl, tag, spared);
    }
  }

  lemma {:induction false} RunKeepsNoneNames(cfg: Settings, ttl: real, w: World, events: seq<Event>, end: World, tag: Tag,
                                             spared: set<nat>)
    requires IsRun(cfg, ttl, w, events, end) && NoneNames(w.cache, tag, spared) && NeverWrites(cfg, ttl, w, events, tag)
    ensures NoneNames(end.cache, tag, spared)
    decreases |events|
  {
    if events != [] {
      hide Enabled, NoneNames, CacheAfter, TurnsAfter, Written, Entry.Tags;
      EventKeepsNoneNames(ttl, w, events[0], tag, spared);
      RunKeepsNoneNames(cfg, ttl, Happens(cfg, ttl, w, events[0]), events[1..], end, tag, spared);
    }
  }

  lemma UnnamedIsUncited(e: Entry, doc: nat, i: nat)
    requires EntrySafe(e) && DocTag(doc) !in e.Tags() && i < |HitSources(e)|
    ensures !CitesDocument(HitSources(e)[i], doc)
  {
    assert doc !in e.Docs();
    if e.citations != [] {
      assert CitesPair(e.citations[i], e);
      var c := e.citations[i].citation;
      assert (c.doc.Parsed().value, c.coll.id) in e.pairs;
    } else {
      BareSourceNames(e, Ascending(e.Docs()), i);
    }
  }

  lemma {:induction false} BareSourceNames(e: Entry, docs: seq<nat>, i: nat)
    requires i < |BareSources(e, docs)|
    ensures BareSources(e, docs)[i].Bare? && BareSources(e, docs)[i].doc in docs
  {
    if i > 0 {
      BareSourceNames(e, docs[1..], i - 1);
    }
  }

  /**
   * Once a document is invalidated, no cache hit cites it, in any later state of any
   * run, until some turn caches an answer built on it again; but for an entry whose
   * store had died between its point and its tags.
   */
  lemma InvalidatedDocumentIsNeverCited(cfg: Settings, ttl: real, before: seq<Event>, w: World, doc: nat,
                                        after: seq<Event>, end: World,
                                        allowed: set<nat>, query: string, ranked: seq<nat>, now: real)
    requires IsRun(cfg, ttl, START, before, w)
    requires IsRun(cfg, ttl, Happens(cfg, ttl, w, Invalidate(DocTag(doc))), after, end)
    requires NeverWrites(cfg, ttl, Happens(cfg, ttl, w, Invalidate(DocTag(doc))), after, DocTag(doc))
    ensures var hit := Lookup(end.cache, allowed, query, ranked, now, ttl);
            hit.Some? && !IsStray(end.cache, w.cache.died, hit.value) ==>
              forall i | 0 <= i < |HitSources(hit.value)| :: !CitesDocument(HitSources(hit.value)[i], doc)
  {
    RunKeepsSafe(cfg, ttl, START, before, w);
    var cut := Happens(cfg, ttl, w, Invalidate(DocTag(doc)));
    EvictedKeepsTagged(w.cache, DocTag(doc));
    assert NoneNames(cut.cache, DocTag(doc), w.cache.died);
    EventKeepsCacheSafe(cfg, ttl, w, Invalidate(DocTag(doc)));
    assert Safe(cfg, cut);
    hide Happens, Lookup, HitSources, CitesDocument, Entry.Tags, EntrySafe, SessionSafe, IsRun, NeverWrites;
    RunKeepsSafe(cfg, ttl, cut, after, end);
    RunKeepsNoneNames(cfg, ttl, cut, after, end, DocTag(doc), w.cache.died);
    var hit := Lookup(end.cache, allowed, query, ranked, now, ttl);
    if hit.Some? && !IsStray(end.cache, w.cache.died, hit.value) {
      LookupIsSafe(end.cache, allowed, query, ranked, now, ttl);
      forall i | 0 <= i < |HitSources(hit.value)| ensures !CitesDocument(HitSources(hit.value)[i], doc) {
        UnnamedIsUncited(hit.value, doc, i);
      }
    }
  }
}
