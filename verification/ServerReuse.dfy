/** What the cache is for: an answer cached by one turn is given again to a later one of the same scope. */
module ServerReuse {
  import opened Options
  import opened SemanticCache
  import opened Turn
  import opened Server
  import Text

  // ---------------------------------------------------------------- the cache

  /** A live point is only listed under tags of its own. */
  ghost predicate ListedAsOwn(s: State) {
    forall id, tag | id in s.points && id in Listed(s, tag) :: tag in s.points[id].Tags()
  }

  lemma StoreKeepsListedAsOwn(s: State, id: nat, e: Entry, tagged: bool)
    requires ListedAsOwn(s) && Fresh(s, id)
    ensures ListedAsOwn(Stored(s, id, e, tagged))
  {
    var t := Stored(s, id, e, tagged);
    hide Entry.Tags;
    forall i, tag | i in t.points && i in Listed(t, tag) ensures tag in t.points[i].Tags() {
      if i == id {
        assert id !in Listed(s, tag);
      } else {
        assert i in s.points && i in Listed(s, tag);
      }
    }
  }

  lemma FewerKeepListedAsOwn(s: State, t: State)
    requires ListedAsOwn(s)
    requires forall id | id in t.points :: id in s.points && t.points[id] == s.points[id]
    requires forall tag, id | id in Listed(t, tag) :: id in Listed(s, tag)
    ensures ListedAsOwn(t)
  {
    hide Entry.Tags, Listed;
  }

  lemma ApplyKeepsListedAsOwn(s: State, op: Op, ttl: real)
    requires ListedAsOwn(s) && (op.StoreOp? ==> Fresh(s, op.id))
    ensures ListedAsOwn(Apply(s, op, ttl))
  {
    hide Candidates, StaleIds, Expired, ListedAsOwn, Fresh, Entry.Tags;
    match op {
      case StoreOp(id, e, tagged) => StoreKeepsListedAsOwn(s, id, e, tagged);
      case _ => FewerKeepListedAsOwn(s, Apply(s, op, ttl));
    }
  }

  /** The operation does not reach the entry: it comes within its lifetime, and invalidates nothing it is built on. */
  predicate Spares(op: Op, x: Entry, ttl: real) {
    match op
    case StoreOp(_, _, _) => true
    case LookupOp(_, _, _, at, _) => at - x.createdAt <= ttl
    case InvalidateOp(tag) => tag !in x.Tags()
    case PurgeOp(at) => at - x.createdAt <= ttl
  }

  lemma ApplyKeepsEntry(s: State, op: Op, ttl: real, id: nat)
    requires ListedAsOwn(s) && (op.StoreOp? ==> Fresh(s, op.id))
    requires id in s.points && Spares(op, s.points[id], ttl)
    ensures id in Apply(s, op, ttl).points && Apply(s, op, ttl).points[id] == s.points[id]
  {
    hide Candidates, Entry.Tags;
  }

  // ---------------------------------------------------------------- one event

  /** What an event does to the turns and to the points of the cache. */
  lemma EventChanges(cfg: Settings, ttl: real, w: World, e: Server.Event)
    requires Enabled(w, e)
    ensures var v := Happens(cfg, ttl, w, e);
            && (forall tid | tid in w.turns && !(e.Advance? && e.tid == tid) :: tid in v.turns && v.turns[tid] == w.turns[tid])
            && (e.Begin? ==> v.cache == w.cache && v.turns == w.turns[e.tid := Session(e.start, [Start(e.start)], [])])
            && (e.Invalidate? ==> v.turns == w.turns && forall id :: id in v.cache.points <==>
                  id in w.cache.points && id !in Listed(w.cache, e.tag))
            && (e.Purge? ==> v.turns == w.turns && forall id :: id in v.cache.points <==>
                  id in w.cache.points && w.cache.points[id].createdAt >= e.at - ttl)
            && (e.Advance? && Written(w, e) == None && Now(w.turns[e.tid]).node != Some(CacheLookup) ==> v.cache == w.cache)
            && (e.Advance? && Now(w.turns[e.tid]).node == Some(CacheLookup) && Now(w.turns[e.tid]).st.Allowed() != {} ==>
                  var p := Now(w.turns[e.tid]);
                  v.cache == LookedUp(w.cache, p.st.Allowed(), p.st.query, e.ranked, e.at, ttl, e.deletes))
  {
    hide Thread.Allowed, Writes, Step, LookedUp, Stored, Fresh, Lookup;
  }

  // ---------------------------------------------------------------- runs

  predicate SparesEvent(e: Server.Event, x: Entry, ttl: real) {
    match e
    case Begin(_, _) => true
    case Advance(_, _, _, at, _, _, _) => at - x.createdAt <= ttl
    case Invalidate(tag) => tag !in x.Tags()
    case Purge(at) => at - x.createdAt <= ttl
  }

  lemma EventKeepsListedAsOwn(ttl: real, w: World, e: Server.Event)
    requires ListedAsOwn(w.cache) && Enabled(w, e)
    ensures ListedAsOwn(CacheAfter(ttl, w, e))
  {
    hide ListedAsOwn, Apply, Written, Runs, Fresh, Thread.Allowed;
    if CacheOp(ttl, w, e).Some? {
      ApplyKeepsListedAsOwn(w.cache, CacheOp(ttl, w, e).value, ttl);
    }
  }

  lemma EventKeepsEntry(ttl: real, w: World, e: Server.Event, id: nat)
    requires ListedAsOwn(w.cache) && Enabled(w, e) && id in w.cache.points && SparesEvent(e, w.cache.points[id], ttl)
    ensures id in CacheAfter(ttl, w, e).points && CacheAfter(ttl, w, e).points[id] == w.cache.points[id]
  {
    hide ListedAsOwn, Apply, Written, Runs, Fresh, Thread.Allowed, Entry.Tags;
    if CacheOp(ttl, w, e).Some? {
      ApplyKeepsEntry(w.cache, CacheOp(ttl, w, e).value, ttl, id);
    }
  }

  lemma {:induction false} RunKeepsListedAsOwn(cfg: Settings, ttl: real, w: World, events: seq<Server.Event>, end: World)
    requires Server.IsRun(cfg, ttl, w, events, end) && ListedAsOwn(w.cache)
    ensures ListedAsOwn(end.cache)
    decreases |events|
  {
    hide ListedAsOwn, Enabled, CacheAfter, TurnsAfter;
    if events != [] {
      EventKeepsListedAsOwn(ttl, w, events[0]);
      RunKeepsListedAsOwn(cfg, ttl, Happens(cfg, ttl, w, events[0]), events[1..], end);
    }
  }

  /** An entry stays as it is through every run that spares it. */
  lemma {:induction false} RunKeepsEntry(cfg: Settings, ttl: real, w: World, events: seq<Server.Event>, end: World, id: nat)
    requires Server.IsRun(cfg, ttl, w, events, end) && ListedAsOwn(w.cache) && id in w.cache.points
    requires forall i | 0 <= i < |events| :: SparesEvent(events[i], w.cache.points[id], ttl)
    ensures id in end.cache.points && end.cache.points[id] == w.cache.points[id]
    decreases |events|
  {
    hide ListedAsOwn, Enabled, CacheAfter, TurnsAfter, SparesEvent;
    if events != [] {
      EventKeepsListedAsOwn(ttl, w, events[0]);
      EventKeepsEntry(ttl, w, events[0], id);
      RunKeepsEntry(cfg, ttl, Happens(cfg, ttl, w, events[0]), events[1..], end, id);
    }
  }

  // ---------------------------------------------------------------- the turn that caches, and the turn that is served

  /** The event runs a cache writer that has something to store, and gets at least to the point. */
  ghost predicate Caches(w: World, e: Server.Event) {
    && Enabled(w, e) && e.Advance? && !e.saves.NotSaved?
    && Now(w.turns[e.tid]).node == Some(CacheWriter) && Writes(Now(w.turns[e.tid]).st, e.at).Some?
  }

  lemma CachedUnderItsId(cfg: Settings, ttl: real, w: World, e: Server.Event)
    requires Caches(w, e)
    ensures var st, cache := Now(w.turns[e.tid]).st, Happens(cfg, ttl, w, e).cache;
            && e.id in cache.points && cache.points[e.id] == Writes(st, e.at).value
            && cache.points[e.id].answer == st.answer && cache.points[e.id].citations == st.citations
            && cache.points[e.id].scopeHash == Digest(st.Allowed()) && cache.points[e.id].createdAt == e.at
  {
    hide Thread.Allowed, Fresh, AllParse, Pairs;
  }

  /** The event runs a cache lookup of a turn with a scope and a question. */
  ghost predicate LooksUp(w: World, e: Server.Event) {
    && Enabled(w, e) && e.Advance? && Now(w.turns[e.tid]).node == Some(CacheLookup)
    && Now(w.turns[e.tid]).st.Allowed() != {} && !Text.Blank(Now(w.turns[e.tid]).st.query)
  }

  /** The first id of the ranking that can answer is served, and the turn is over but for its evaluation. */
  lemma FirstAnswerIsServed(cfg: Settings, ttl: real, w: World, e: Server.Event, i: nat)
    requires LooksUp(w, e)
    requires var scope := Now(w.turns[e.tid]).st.Allowed();
             && Answers(w.cache.points, scope, e.ranked, e.at, ttl, 5, i)
             && forall k | 0 <= k < i :: !Answers(w.cache.points, scope, e.ranked, e.at, ttl, 5, k)
    ensures var p, q, x := Now(w.turns[e.tid]), Now(Happens(cfg, ttl, w, e).turns[e.tid]), w.cache.points[e.ranked[i]];
            && q.node == Some(EvalQueue) && q.st.cacheHit
            && q.st.answer == x.answer && q.st.citations == HitSources(x)
            && q.st.messages == p.st.messages + [Message(Assistant, x.answer)]
  {
    var p := Now(w.turns[e.tid]);
    LookupServesTheFirst(w.cache, p.st.Allowed(), p.st.query, e.ranked, e.at, ttl);
    hide Answers, Lookup, HitSources, Thread.Allowed, Text.Blank, Fresh, CacheAfter;
  }

  lemma NextListedAsOwn(cfg: Settings, ttl: real, w: World, e: Server.Event)
    requires ListedAsOwn(w.cache) && Enabled(w, e)
    ensures ListedAsOwn(Happens(cfg, ttl, w, e).cache)
  {
    EventKeepsListedAsOwn(ttl, w, e);
    hide ListedAsOwn, CacheAfter;
  }

  /** A cached answer stays, with its citations, under its key and with its time, through every run that spares it. */
  lemma CachedAnswerStays(cfg: Settings, ttl: real, before: seq<Server.Event>, w: World, e: Server.Event,
                          after: seq<Server.Event>, v: World)
    requires Server.IsRun(cfg, ttl, START, before, w) && Caches(w, e)
    requires Server.IsRun(cfg, ttl, Happens(cfg, ttl, w, e), after, v)
    requires forall k | 0 <= k < |after| :: SparesEvent(after[k], Writes(Now(w.turns[e.tid]).st, e.at).value, ttl)
    ensures var st := Now(w.turns[e.tid]).st;
            && e.id in v.cache.points && v.cache.points[e.id] == Writes(st, e.at).value
            && v.cache.points[e.id].answer == st.answer && v.cache.points[e.id].citations == st.citations
            && v.cache.points[e.id].scopeHash == Digest(st.Allowed()) && v.cache.points[e.id].createdAt == e.at
  {
    assert ListedAsOwn(START.cache);
    hide Happens, ListedAsOwn, SparesEvent, Server.IsRun, Thread.Allowed, Writes, Enabled;
    RunKeepsListedAsOwn(cfg, ttl, START, before, w);
    CachedUnderItsId(cfg, ttl, w, e);
    NextListedAsOwn(cfg, ttl, w, e);
    RunKeepsEntry(cfg, ttl, Happens(cfg, ttl, w, e), after, v, e.id);
  }

  /** The lookup finds the point with this id first among what can answer. */
  ghost predicate FindsFirst(v: World, f: Server.Event, id: nat, ttl: real, i: nat) {
    && LooksUp(v, f) && i < |f.ranked| && f.ranked[i] == id
    && var points, scope := v.cache.points, Now(v.turns[f.tid]).st.Allowed();
       && RankedBefore(points, scope, f.ranked, i) < 5
       && forall k | 0 <= k < i :: !Answers(points, scope, f.ranked, f.at, ttl, 5, k)
  }

  lemma FoundFirstIsServed(cfg: Settings, ttl: real, v: World, f: Server.Event, id: nat, i: nat)
    requires FindsFirst(v, f, id, ttl, i) && id in v.cache.points
    requires v.cache.points[id].scopeHash == Digest(Now(v.turns[f.tid]).st.Allowed())
    requires v.cache.points[id].Colls() <= Now(v.turns[f.tid]).st.Allowed() && f.at - v.cache.points[id].createdAt <= ttl
    ensures var q, x := Now(Happens(cfg, ttl, v, f).turns[f.tid]), v.cache.points[id];
            q.node == Some(EvalQueue) && q.st.answer == x.answer && q.st.citations == HitSources(x)
  {
    hide Happens, HitSources, Thread.Allowed, RankedBefore, Entry.Colls, Fresh;
    var scope := Now(v.turns[f.tid]).st.Allowed();
    assert Answers(v.cache.points, scope, f.ranked, f.at, ttl, 5, i);
    hide Answers, LooksUp;
    FirstAnswerIsServed(cfg, ttl, v, f, i);
  }

  /**
   * An answer cached by a turn, whose chunks were all of its scope, is given again with its
   * citations to every later turn of the same scope that finds it first among what can answer,
   * within its lifetime, unless something it is built on was invalidated in between; whatever
   * other turns ran meanwhile, and although the store may have died before the tags.
   */
  lemma CachedAnswerIsReused(cfg: Settings, ttl: real, before: seq<Server.Event>, w: World, e: Server.Event,
                             after: seq<Server.Event>, v: World, f: Server.Event, i: nat)
    requires Server.IsRun(cfg, ttl, START, before, w) && Caches(w, e)
    requires Server.IsRun(cfg, ttl, Happens(cfg, ttl, w, e), after, v) && FindsFirst(v, f, e.id, ttl, i)
    requires forall k | 0 <= k < |after| :: SparesEvent(after[k], Writes(Now(w.turns[e.tid]).st, e.at).value, ttl)
    requires Now(v.turns[f.tid]).st.Allowed() == Now(w.turns[e.tid]).st.Allowed() && f.at - e.at <= ttl
    requires Writes(Now(w.turns[e.tid]).st, e.at).value.Colls() <= Now(w.turns[e.tid]).st.Allowed()
    ensures var st, q := Now(w.turns[e.tid]).st, Now(Happens(cfg, ttl, v, f).turns[f.tid]);
            && q.node == Some(EvalQueue) && q.st.answer == st.answer
            && (st.citations != [] ==> q.st.citations == st.citations)
  {
    CachedAnswerStays(cfg, ttl, before, w, e, after, v);
    hide Happens, SparesEvent, Server.IsRun, Thread.Allowed, Enabled, Entry.Colls, Writes;
    FoundFirstIsServed(cfg, ttl, v, f, e.id, i);
  }
}
