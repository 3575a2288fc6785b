/** The permission-scoped semantic cache: a point store and tag sets for targeted invalidation. */
module SemanticCache {
  import opened Options
  import Citations
  import Text

  /** A source handed back with an answer: a full citation, or a bare document of the given collections. */
  datatype Source = Full(citation: Citations.Citation) | Bare(doc: nat, colls: set<nat>)

  /** The scope hash; SHA-256 is taken to be injective, so it stands for the hashed scope. */
  datatype Digest = Digest(scope: set<nat>)

  function ScopeHash(ids: set<nat>): Digest {
    Digest(ids)
  }

  /** `pairs` are the (document, collection) pairs of the chunks the answer was derived from. */
  datatype Entry = Entry(answer: string, query: string, pairs: set<(nat, nat)>, citations: seq<Source>,
                         scopeHash: Digest, createdAt: real) {
    function Colls(): set<nat> {
      set p | p in pairs :: p.1
    }

    function Docs(): set<nat> {
      set p | p in pairs :: p.0
    }

    /** The invalidation tags the entry is listed under. */
    function Tags(): set<Tag> {
      (set c | c in Colls() :: CollTag(c)) + (set d | d in Docs() :: DocTag(d))
    }
  }

  datatype Tag = CollTag(id: nat) | DocTag(id: nat)

  /**
   * Points by id, and the ids listed under each tag; `died` names the stores so far that
   * wrote their point but not its tags, which is history and not stored.
   */
  datatype State = State(points: map<nat, Entry>, tags: map<Tag, set<nat>>, died: set<nat>)

  const EMPTY := State(map[], map[], {})

  const LIMIT := 5

  // ---------------------------------------------------------------- the operations on values

  function Listed(s: State, tag: Tag): set<nat> {
    if tag in s.tags then s.tags[tag] else {}
  }

  /** `uuid4` gives an id that no point and no tag has, nor had a store that died. */
  predicate Fresh(s: State, id: nat) {
    id !in s.points && id !in s.died && forall tag | tag in s.tags :: id !in s.tags[tag]
  }

  /** The point is written first; its tags follow, unless the store dies before. */
  function Stored(s: State, id: nat, e: Entry, tagged: bool): State {
    if !tagged then State(s.points[id := e], s.tags, s.died + {id})
    else State(s.points[id := e],
               map tag | tag in s.tags.Keys + e.Tags() ::
                 Listed(s, tag) + (if tag in e.Tags() then {id} else {}),
               s.died)
  }

  function Evicted(s: State, tag: Tag): State {
    if Listed(s, tag) == {} then s else State(s.points - s.tags[tag], s.tags - {tag}, s.died)
  }

  function Expired(s: State, now: real, ttl: real): set<nat> {
    set id | id in s.points && s.points[id].createdAt < now - ttl
  }

  function Purged(s: State, now: real, ttl: real): State {
    s.(points := s.points - Expired(s, now, ttl))
  }

  /** The first `limit` ids of a similarity ranking that hold an entry with this scope hash. */
  function Candidates(points: map<nat, Entry>, hash: Digest, ranked: seq<nat>, limit: nat): seq<nat> {
    if ranked == [] || limit == 0 then []
    else if ranked[0] in points && points[ranked[0]].scopeHash == hash
    then [ranked[0]] + Candidates(points, hash, ranked[1..], limit - 1)
    else Candidates(points, hash, ranked[1..], limit)
  }

  predicate IsStale(e: Entry, now: real, ttl: real) {
    now - e.createdAt > ttl
  }

  predicate Servable(e: Entry, allowed: set<nat>, now: real, ttl: real) {
    !IsStale(e, now, ttl) && e.Colls() <= allowed
  }

  /** The first candidate that is neither stale nor outside the scope. */
  function FirstHit(s: State, ids: seq<nat>, allowed: set<nat>, now: real, ttl: real): Option<Entry> {
    if ids == [] then None
    else if ids[0] in s.points && Servable(s.points[ids[0]], allowed, now, ttl) then Some(s.points[ids[0]])
    else FirstHit(s, ids[1..], allowed, now, ttl)
  }

  function StaleIds(s: State, ids: seq<nat>, now: real, ttl: real): set<nat> {
    set id | id in ids && id in s.points && IsStale(s.points[id], now, ttl)
  }

  function Lookup(s: State, allowed: set<nat>, query: string, ranked: seq<nat>, now: real, ttl: real): Option<Entry> {
    if Text.Blank(query) then None
    else FirstHit(s, Candidates(s.points, ScopeHash(allowed), ranked, LIMIT), allowed, now, ttl)
  }

  /** What a lookup leaves behind; its deletion of stale points is best effort. */
  function LookedUp(s: State, allowed: set<nat>, query: string, ranked: seq<nat>, now: real, ttl: real, deleted: bool): State {
    if Text.Blank(query) || !deleted then s
    else s.(points := s.points - StaleIds(s, Candidates(s.points, ScopeHash(allowed), ranked, LIMIT), now, ttl))
  }

  // ---------------------------------------------------------------- what a lookup finds

  /** The id ranked at `i` is that of a live point written under this very scope. */
  predicate OfScope(points: map<nat, Entry>, scope: set<nat>, ranked: seq<nat>, i: nat) {
    i < |ranked| && ranked[i] in points && points[ranked[i]].scopeHash == Digest(scope)
  }

  /** How many of the ids ranked before `i` are those of live points of this scope. */
  function RankedBefore(points: map<nat, Entry>, scope: set<nat>, ranked: seq<nat>, i: nat): nat
    requires i <= |ranked|
  {
    if i == 0 then 0
    else (if OfScope(points, scope, ranked, 0) then 1 else 0) + RankedBefore(points, scope, ranked[1..], i - 1)
  }

  /** The id ranked at `i` is among the `limit` first of this scope. */
  predicate Considered(points: map<nat, Entry>, scope: set<nat>, ranked: seq<nat>, limit: nat, i: nat) {
    OfScope(points, scope, ranked, i) && RankedBefore(points, scope, ranked, i) < limit
  }

  /** The id ranked at `i` can answer: considered, not past its lifetime, and built only on what is allowed. */
  predicate Answers(points: map<nat, Entry>, scope: set<nat>, ranked: seq<nat>, now: real, ttl: real, limit: nat, i: nat) {
    && Considered(points, scope, ranked, limit, i)
    && now - points[ranked[i]].createdAt <= ttl
    && points[ranked[i]].Colls() <= scope
  }

  lemma ConsideredTail(points: map<nat, Entry>, scope: set<nat>, ranked: seq<nat>, limit: nat, i: nat)
    requires 0 < i < |ranked|
    ensures var taken := if OfScope(points, scope, ranked, 0) then 1 else 0;
            Considered(points, scope, ranked, limit, i)
            <==> taken <= limit && Considered(points, scope, ranked[1..], limit - taken, i - 1)
  {
  }

  lemma {:induction false} FirstAnswers(s: State, scope: set<nat>, ranked: seq<nat>, now: real, ttl: real, limit: nat, i: nat)
    requires Answers(s.points, scope, ranked, now, ttl, limit, i)
    requires forall k | 0 <= k < i :: !Answers(s.points, scope, ranked, now, ttl, limit, k)
    ensures FirstHit(s, Candidates(s.points, ScopeHash(scope), ranked, limit), scope, now, ttl)
            == Some(s.points[ranked[i]])
  {
    var rest := Candidates(s.points, ScopeHash(scope), ranked, limit);
    if i == 0 {
      assert rest[0] == ranked[0];
    } else {
      ConsideredTail(s.points, scope, ranked, limit, i);
      var taken := if OfScope(s.points, scope, ranked, 0) then 1 else 0;
      var tail, left := ranked[1..], limit - taken;
      forall k | 0 <= k < i - 1 ensures !Answers(s.points, scope, tail, now, ttl, left, k) {
        ConsideredTail(s.points, scope, ranked, limit, k + 1);
        assert !Answers(s.points, scope, ranked, now, ttl, limit, k + 1);
      }
      FirstAnswers(s, scope, tail, now, ttl, left, i - 1);
      if taken == 1 {
        assert !Answers(s.points, scope, ranked, now, ttl, limit, 0);
        assert rest[1..] == Candidates(s.points, ScopeHash(scope), ranked[1..], limit - 1);
      }
    }
  }

  lemma {:induction false} SomeAnswers(s: State, scope: set<nat>, ranked: seq<nat>, now: real, ttl: real, limit: nat)
    returns (i: nat)
    requires FirstHit(s, Candidates(s.points, ScopeHash(scope), ranked, limit), scope, now, ttl).Some?
    ensures Answers(s.points, scope, ranked, now, ttl, limit, i)
  {
    var ids := Candidates(s.points, ScopeHash(scope), ranked, limit);
    var taken := if OfScope(s.points, scope, ranked, 0) then 1 else 0;
    if taken == 1 && Servable(s.points[ranked[0]], scope, now, ttl) {
      i := 0;
    } else {
      if taken == 1 {
        assert ids[1..] == Candidates(s.points, ScopeHash(scope), ranked[1..], limit - 1);
      }
      var k := SomeAnswers(s, scope, ranked[1..], now, ttl, limit - taken);
      ConsideredTail(s.points, scope, ranked, limit, k + 1);
      i := k + 1;
    }
  }

  /**
   * A lookup hits exactly if the question is not blank and some id in the ranking is that
   * of a live point of this scope within its lifetime, built only on what is allowed, with
   * fewer than five live points of the scope ranked before it; the first of these is served.
   */
  lemma LookupServesTheFirst(s: State, allowed: set<nat>, query: string, ranked: seq<nat>, now: real, ttl: real)
    ensures var hit := Lookup(s, allowed, query, ranked, now, ttl);
            && (hit.Some? <==> !Text.Blank(query) && exists i: nat :: Answers(s.points, allowed, ranked, now, ttl, 5, i))
            && (forall i: nat | Answers(s.points, allowed, ranked, now, ttl, 5, i)
                           && forall k | 0 <= k < i :: !Answers(s.points, allowed, ranked, now, ttl, 5, k) ::
                  !Text.Blank(query) ==> hit == Some(s.points[ranked[i]]))
  {
    hide Text.Blank, FirstHit, Candidates, Answers;
    if exists i: nat :: Answers(s.points, allowed, ranked, now, ttl, 5, i) {
      var i := Least(s.points, allowed, ranked, now, ttl, 5);
      FirstAnswers(s, allowed, ranked, now, ttl, 5, i);
    } else if !Text.Blank(query) && Lookup(s, allowed, query, ranked, now, ttl).Some? {
      var i := SomeAnswers(s, allowed, ranked, now, ttl, 5);
    }
  }

  lemma Least(points: map<nat, Entry>, scope: set<nat>, ranked: seq<nat>, now: real, ttl: real, limit: nat)
    returns (i: nat)
    requires exists j: nat :: Answers(points, scope, ranked, now, ttl, limit, j)
    ensures Answers(points, scope, ranked, now, ttl, limit, i)
    ensures forall k | 0 <= k < i :: !Answers(points, scope, ranked, now, ttl, limit, k)
  {
    hide Answers;
    var j: nat :| Answers(points, scope, ranked, now, ttl, limit, j);
    i := 0;
    while !Answers(points, scope, ranked, now, ttl, limit, i)
      invariant forall k | 0 <= k < i :: !Answers(points, scope, ranked, now, ttl, limit, k)
      invariant i <= j
      decreases j - i
    {
      i := i + 1;
    }
  }

  lemma {:induction false} CandidatesAreConsidered(points: map<nat, Entry>, scope: set<nat>, ranked: seq<nat>, limit: nat, id: nat)
    ensures id in Candidates(points, ScopeHash(scope), ranked, limit)
            <==> exists i :: 0 <= i < |ranked| && ranked[i] == id && Considered(points, scope, ranked, limit, i)
  {
    var ids := Candidates(points, ScopeHash(scope), ranked, limit);
    if ranked != [] && limit > 0 {
      var taken := if OfScope(points, scope, ranked, 0) then 1 else 0;
      var rest := ranked[1..];
      CandidatesAreConsidered(points, scope, rest, limit - taken, id);
      assert id in ids <==> (taken == 1 && ranked[0] == id) || id in Candidates(points, ScopeHash(scope), rest, limit - taken);
      hide Candidates;
      if i :| 0 <= i < |ranked| && ranked[i] == id && Considered(points, scope, ranked, limit, i) && i > 0 {
        ConsideredTail(points, scope, ranked, limit, i);
        assert rest[i - 1] == id;
      }
      if i :| 0 <= i < |rest| && rest[i] == id && Considered(points, scope, rest, limit - taken, i) {
        ConsideredTail(points, scope, ranked, limit, i + 1);
        assert ranked[i + 1] == id;
      }
      if taken == 1 && ranked[0] == id {
        assert Considered(points, scope, ranked, limit, 0);
      }
    }
  }

  /**
   * A lookup deletes, if its deletion goes through, exactly the considered points past
   * their lifetime, and nothing for a blank question; nothing else changes.
   */
  lemma LookupEvictsTheStale(s: State, allowed: set<nat>, query: string, ranked: seq<nat>, now: real, ttl: real, deleted: bool)
    ensures var t := LookedUp(s, allowed, query, ranked, now, ttl, deleted);
            && t.tags == s.tags && t.died == s.died
            && (forall id :: id in t.points <==>
                  && id in s.points
                  && !(deleted && !Text.Blank(query) && now - s.points[id].createdAt > ttl
                       && exists i :: 0 <= i < |ranked| && ranked[i] == id && Considered(s.points, allowed, ranked, 5, i)))
            && (forall id | id in t.points :: t.points[id] == s.points[id])
  {
    forall id
      ensures id in Candidates(s.points, ScopeHash(allowed), ranked, 5)
              <==> exists i :: 0 <= i < |ranked| && ranked[i] == id && Considered(s.points, allowed, ranked, 5, i)
    {
      CandidatesAreConsidered(s.points, allowed, ranked, 5, id);
    }
    hide Text.Blank, Candidates, Considered;
  }

  // ---------------------------------------------------------------- the cache as it runs

  class Cache {
    var points: map<nat, Entry>
    var tags: map<Tag, set<nat>>
    ghost var died: set<nat>
    const ttl: real

    constructor (ttl: real)
      ensures Now() == EMPTY && this.ttl == ttl
    {
      points, tags, died := map[], map[], {};
      this.ttl := ttl;
    }

    ghost function Now(): State
      reads this
    {
      State(points, tags, died)
    }

    /** `ranked` is the store's similarity ranking; `deletes` says whether the eviction call succeeds. */
    method LookupEntry(allowed: set<nat>, query: string, ranked: seq<nat>, now: real, deletes: bool)
      returns (hit: Option<Entry>)
      modifies this
      ensures hit == Lookup(old(Now()), allowed, query, ranked, now, ttl)
      ensures Now() == LookedUp(old(Now()), allowed, query, ranked, now, ttl, deletes)
      ensures hit.Some? <==> !Text.Blank(query) && exists i: nat :: Answers(old(points), allowed, ranked, now, ttl, 5, i)
      ensures forall i: nat | Answers(old(points), allowed, ranked, now, ttl, 5, i)
                         && forall k | 0 <= k < i :: !Answers(old(points), allowed, ranked, now, ttl, 5, k) ::
                !Text.Blank(query) ==> hit == Some(old(points)[ranked[i]])
      ensures tags == old(tags)
      ensures forall id :: id in points <==>
                && id in old(points)
                && !(deletes && !Text.Blank(query) && now - old(points)[id].createdAt > ttl
                     && exists i :: 0 <= i < |ranked| && ranked[i] == id && Considered(old(points), allowed, ranked, 5, i))
      ensures forall id | id in points :: points[id] == old(points)[id]
    {
      hit := None;
      hide Answers, Considered;
      if Text.Blank(query) {
        return;
      }
      ghost var s := Now();
      var response := Candidates(points, ScopeHash(allowed), ranked, LIMIT);
      CandidatesMatch(s, ScopeHash(allowed), ranked, LIMIT);
      hide Candidates, Text.Blank;
      var stale: set<nat> := {};
      for i := 0 to |response|
        invariant Now() == s
        invariant stale == StaleIds(s, response[..i], now, ttl)
        invariant FirstHit(s, response, allowed, now, ttl)
                  == if hit.Some? then hit else FirstHit(s, response[i..], allowed, now, ttl)
      {
        var payload := points[response[i]];
        assert response[i..][1..] == response[i + 1..];
        assert response[..i + 1] == response[..i] + [response[i]];
        if now - payload.createdAt > ttl {
          stale := stale + {response[i]};
          continue;
        }
        if !(payload.Colls() <= allowed) {
          continue;
        }
        if hit == None {
          hit := Some(payload);
        }
      }
      assert response[..|response|] == response;
      LookupServesTheFirst(s, allowed, query, ranked, now, ttl);
      LookupEvictsTheStale(s, allowed, query, ranked, now, ttl, deletes);
      if stale != {} && deletes {
        points := points - stale;
      }
    }

    /**
     * The point is there; if the store gets to its tags it is listed under each of them,
     * and otherwise under none. No other point and no other listing changes.
     */
    method Store(id: nat, e: Entry, tagged: bool)
      requires Fresh(Now(), id)
      modifies this
      ensures Now() == Stored(old(Now()), id, e, tagged)
      ensures id in points && points[id] == e
      ensures forall tag | tag in e.Tags() :: id in Listed(Now(), tag) <==> tagged
      ensures forall other | other != id :: (other in points <==> other in old(points))
                                            && (other in points ==> points[other] == old(points)[other])
      ensures forall other, tag | other != id :: other in Listed(Now(), tag) <==> other in Listed(old(Now()), tag)
      ensures old(Tagged(Now())) ==> Tagged(Now())
    {
      ghost var s := Now();
      if Tagged(s) {
        StoredKeepsTagged(s, id, e, tagged);
      }
      points := points[id := e];
      if !tagged {
        died := died + {id};
        return;
      }
      tags := map tag | tag in tags.Keys + e.Tags() ::
                (if tag in tags then tags[tag] else {}) + (if tag in e.Tags() then {id} else {});
    }

    /**
     * Nothing built on what the tag names is left but points whose store died before
     * their tags; points not listed under it and the other listings stay as they are.
     */
    method Evict(tag: Tag) returns (n: nat)
      modifies this
      ensures Now() == Evicted(old(Now()), tag)
      ensures n == |Listed(old(Now()), tag)|
      ensures old(Tagged(Now())) ==> Tagged(Now()) && NoneNames(Now(), tag, died)
      ensures forall id | id in old(points) && id !in Listed(old(Now()), tag) :: id in points && points[id] == old(points)[id]
      ensures forall other | other != tag :: Listed(Now(), other) == Listed(old(Now()), other)
    {
      ghost var s := Now();
      if Tagged(s) {
        EvictedKeepsTagged(s, tag);
      }
      var ids := if tag in tags then tags[tag] else {};
      if ids == {} {
        return 0;
      }
      points := points - ids;
      tags := tags - {tag};
      return |ids|;
    }

    method InvalidateDocument(doc: nat) returns (n: nat)
      modifies this
      ensures Now() == Evicted(old(Now()), DocTag(doc))
    {
      n := Evict(DocTag(doc));
    }

    method InvalidateCollection(coll: nat) returns (n: nat)
      modifies this
      ensures Now() == Evicted(old(Now()), CollTag(coll))
    {
      n := Evict(CollTag(coll));
    }

    /** Exactly the points past their lifetime go; what stays stays as it was and listed. */
    method PurgeExpired(now: real) returns (before: nat)
      modifies this
      ensures Now() == Purged(old(Now()), now, ttl)
      ensures forall id :: id in points <==> id in old(points) && old(points)[id].createdAt >= now - ttl
      ensures forall id | id in points :: points[id] == old(points)[id]
      ensures old(Tagged(Now())) ==> Tagged(Now())
      ensures before == |Expired(old(Now()), now, ttl)|
    {
      ghost var s := Now();
      if Tagged(s) {
        FewerPointsTagged(s, Purged(s, now, ttl));
      }
      var expired := set id | id in points && points[id].createdAt < now - ttl;
      before := |expired|;
      if before != 0 {
        points := points - expired;
      }
    }
  }

  // ---------------------------------------------------------------- a lookup

  lemma {:induction false} CandidatesMatch(s: State, hash: Digest, ranked: seq<nat>, limit: nat)
    ensures var ids := Candidates(s.points, hash, ranked, limit);
            |ids| <= limit && forall i | 0 <= i < |ids| :: ids[i] in s.points && s.points[ids[i]].scopeHash == hash
  {
    if ranked != [] && limit > 0 {
      if ranked[0] in s.points && s.points[ranked[0]].scopeHash == hash {
        CandidatesMatch(s, hash, ranked[1..], limit - 1);
      } else {
        CandidatesMatch(s, hash, ranked[1..], limit);
      }
    }
  }

  lemma {:induction false} FirstHitIsServable(s: State, ids: seq<nat>, allowed: set<nat>, now: real, ttl: real)
    requires FirstHit(s, ids, allowed, now, ttl).Some?
    ensures exists i :: 0 <= i < |ids| && ids[i] in s.points
                        && s.points[ids[i]] == FirstHit(s, ids, allowed, now, ttl).value
    ensures Servable(FirstHit(s, ids, allowed, now, ttl).value, allowed, now, ttl)
  {
    hide Servable;
    if !(ids[0] in s.points && Servable(s.points[ids[0]], allowed, now, ttl)) {
      FirstHitIsServable(s, ids[1..], allowed, now, ttl);
      var i :| 0 <= i < |ids[1..]| && ids[1..][i] in s.points
               && s.points[ids[1..][i]] == FirstHit(s, ids[1..], allowed, now, ttl).value;
      assert ids[i + 1] == ids[1..][i];
    }
  }

  /** A hit is a live point of the very same scope, fresh, and built only on allowed collections. */
  lemma LookupIsSafe(s: State, allowed: set<nat>, query: string, ranked: seq<nat>, now: real, ttl: real)
    requires Lookup(s, allowed, query, ranked, now, ttl).Some?
    ensures var e := Lookup(s, allowed, query, ranked, now, ttl).value;
            && (exists id :: id in s.points && s.points[id] == e)
            && e.scopeHash == ScopeHash(allowed)
            && e.Colls() <= allowed
            && now - e.createdAt <= ttl
  {
    var ids := Candidates(s.points, ScopeHash(allowed), ranked, LIMIT);
    CandidatesMatch(s, ScopeHash(allowed), ranked, LIMIT);
    FirstHitIsServable(s, ids, allowed, now, ttl);
  }

  lemma {:induction false} PurgeKeepsFirstHit(s: State, hash: Digest, ranked: seq<nat>, n: nat, m: nat, allowed: set<nat>,
                                              now: real, later: real, ttl: real)
    requires now <= later && n <= m
    requires FirstHit(s, Candidates(s.points, hash, ranked, n), allowed, later, ttl).Some?
    ensures FirstHit(Purged(s, now, ttl), Candidates(Purged(s, now, ttl).points, hash, ranked, m), allowed, later, ttl)
            == FirstHit(s, Candidates(s.points, hash, ranked, n), allowed, later, ttl)
    decreases |ranked|
  {
    var p := Purged(s, now, ttl);
    if ranked != [] && n > 0 {
      var id := ranked[0];
      if id in s.points && s.points[id].scopeHash == hash {
        assert Candidates(s.points, hash, ranked, n)[1..] == Candidates(s.points, hash, ranked[1..], n - 1);
        if id !in p.points {
          PurgeKeepsFirstHit(s, hash, ranked[1..], n - 1, m, allowed, now, later, ttl);
        } else {
          assert Candidates(p.points, hash, ranked, m)[1..] == Candidates(p.points, hash, ranked[1..], m - 1);
          if !Servable(s.points[id], allowed, later, ttl) {
            PurgeKeepsFirstHit(s, hash, ranked[1..], n - 1, m - 1, allowed, now, later, ttl);
          }
        }
      } else {
        PurgeKeepsFirstHit(s, hash, ranked[1..], n, m, allowed, now, later, ttl);
      }
    }
  }

  /** A purge costs no lookup its hit, then or later: what it deletes would not be served. */
  lemma PurgeKeepsHits(s: State, allowed: set<nat>, query: string, ranked: seq<nat>, now: real, later: real, ttl: real)
    requires now <= later && Lookup(s, allowed, query, ranked, later, ttl).Some?
    ensures Lookup(Purged(s, now, ttl), allowed, query, ranked, later, ttl) == Lookup(s, allowed, query, ranked, later, ttl)
  {
    PurgeKeepsFirstHit(s, ScopeHash(allowed), ranked, LIMIT, LIMIT, allowed, now, later, ttl);
  }

  // ---------------------------------------------------------------- every sequence of operations

  datatype Op =
    | StoreOp(id: nat, e: Entry, tagged: bool)
    | LookupOp(allowed: set<nat>, query: string, ranked: seq<nat>, at: real, deleted: bool)
    | InvalidateOp(tag: Tag)
    | PurgeOp(at: real)

  function Apply(s: State, op: Op, ttl: real): State {
    match op
    case StoreOp(id, e, tagged) => Stored(s, id, e, tagged)
    case LookupOp(allowed, query, ranked, at, deleted) => LookedUp(s, allowed, query, ranked, at, ttl, deleted)
    case InvalidateOp(tag) => Evicted(s, tag)
    case PurgeOp(at) => Purged(s, at, ttl)
  }

  /** The state after the operations; a store uses a fresh id. */
  ghost predicate IsRun(s: State, ops: seq<Op>, ttl: real, end: State)
    decreases |ops|
  {
    if ops == [] then end == s
    else (ops[0].StoreOp? ==> Fresh(s, ops[0].id)) && IsRun(Apply(s, ops[0], ttl), ops[1..], ttl, end)
  }

  /** An entry is tagged with exactly the collections and the documents of the chunks it was derived from. */
  lemma TagsNameTheChunks(e: Entry, id: nat)
    ensures CollTag(id) in e.Tags() <==> exists d :: (d, id) in e.pairs
    ensures DocTag(id) in e.Tags() <==> exists c :: (id, c) in e.pairs
  {
    if CollTag(id) in e.Tags() {
      var p :| p in e.pairs && p.1 == id;
      assert (p.0, id) in e.pairs;
    }
    if d :| (d, id) in e.pairs {
      assert (d, id).1 in e.Colls();
    }
    if DocTag(id) in e.Tags() {
      var p :| p in e.pairs && p.0 == id;
      assert (id, p.1) in e.pairs;
    }
    if c :| (id, c) in e.pairs {
      assert (id, c).0 in e.Docs();
    }
  }

  /** A live point is listed under the tag of each of its collections and documents, or under none if its store died. */
  ghost predicate Tagged(s: State) {
    forall id, tag | id in s.points && tag in s.points[id].Tags() :: id in Listed(s, tag) <==> id !in s.died
  }

  lemma StoredKeepsTagged(s: State, id: nat, e: Entry, tagged: bool)
    requires Tagged(s) && Fresh(s, id)
    ensures Tagged(Stored(s, id, e, tagged))
  {
    var t := Stored(s, id, e, tagged);
    hide Entry.Tags;
    forall i, tag | i in t.points && tag in t.points[i].Tags() ensures i in Listed(t, tag) <==> i !in t.died {
      if i != id {
        assert i in s.points && (i in Listed(s, tag) <==> i !in s.died);
      } else {
        assert id !in Listed(s, tag);
      }
    }
  }

  /** The points an eviction leaves that name the tag: exactly those whose store died before their tags. */
  lemma EvictedKeepsTagged(s: State, tag: Tag)
    requires Tagged(s)
    ensures Tagged(Evicted(s, tag))
    ensures forall id :: id in Evicted(s, tag).points && tag in Evicted(s, tag).points[id].Tags()
                         <==> id in s.points && tag in s.points[id].Tags() && id in s.died
  {
    var t := Evicted(s, tag);
    hide Entry.Tags;
    forall i, k | i in t.points && k in t.points[i].Tags() ensures i in Listed(t, k) <==> i !in t.died {
      assert i in s.points && (i in Listed(s, k) <==> i !in s.died);
      assert i in Listed(s, tag) ==> i !in t.points;
    }
  }

  lemma ApplyKeepsTagged(s: State, op: Op, ttl: real)
    requires Tagged(s) && (op.StoreOp? ==> Fresh(s, op.id))
    ensures Tagged(Apply(s, op, ttl))
  {
    hide Candidates, StaleIds, Tagged, Expired, Fresh;
    match op {
      case StoreOp(id, e, tagged) => StoredKeepsTagged(s, id, e, tagged);
      case InvalidateOp(tag) => EvictedKeepsTagged(s, tag);
      case LookupOp(allowed, query, ranked, at, deleted) =>
        FewerPointsTagged(s, Apply(s, op, ttl));
      case PurgeOp(at) => FewerPointsTagged(s, Apply(s, op, ttl));
    }
  }

  lemma FewerPointsTagged(s: State, t: State)
    requires Tagged(s) && t.tags == s.tags && t.died == s.died
    requires forall id | id in t.points :: id in s.points && t.points[id] == s.points[id]
    ensures Tagged(t)
  {
    hide Entry.Tags;
    forall i, k | i in t.points && k in t.points[i].Tags() ensures i in Listed(t, k) <==> i !in t.died {
      assert i in Listed(s, k) <==> i !in s.died;
    }
  }

  lemma {:induction false} RunKeepsTagged(s: State, ops: seq<Op>, ttl: real, end: State)
    requires Tagged(s) && IsRun(s, ops, ttl, end)
    ensures Tagged(end)
    decreases |ops|
  {
    hide Tagged, Apply;
    if ops != [] {
      ApplyKeepsTagged(s, ops[0], ttl);
      RunKeepsTagged(Apply(s, ops[0], ttl), ops[1..], ttl, end);
    }
  }

  /** In every run, every live point is listed under all its tags exactly if none of them comes from a store that died. */
  lemma EveryPointIsListed(ops: seq<Op>, s: State, ttl: real)
    requires IsRun(EMPTY, ops, ttl, s)
    ensures (forall id, tag | id in s.points && tag in s.points[id].Tags() :: id in Listed(s, tag))
            <==> (forall id | id in s.points && id in s.died :: s.points[id].Tags() == {})
  {
    RunKeepsTagged(EMPTY, ops, ttl, s);
    hide Entry.Tags, Listed, IsRun;
    if forall id, tag | id in s.points && tag in s.points[id].Tags() :: id in Listed(s, tag) {
      forall id | id in s.points && id in s.died ensures s.points[id].Tags() == {} {
        forall tag ensures tag !in s.points[id].Tags() {
          assert tag in s.points[id].Tags() ==> id in Listed(s, tag);
        }
      }
    }
  }

  /** No live point but those of `spared` is built on what the tag names. */
  ghost predicate NoneNames(s: State, tag: Tag, spared: set<nat>) {
    forall id | id in s.points && id !in spared :: tag !in s.points[id].Tags()
  }

  ghost predicate NeverStores(ops: seq<Op>, tag: Tag) {
    forall i | 0 <= i < |ops| :: ops[i].StoreOp? ==> tag !in ops[i].e.Tags()
  }

  lemma ApplyKeepsNoneNames(s: State, op: Op, ttl: real, tag: Tag, spared: set<nat>)
    requires NoneNames(s, tag, spared) && (op.StoreOp? ==> tag !in op.e.Tags())
    ensures NoneNames(Apply(s, op, ttl), tag, spared)
  {
    hide Candidates, StaleIds, Entry.Tags;
  }

  lemma {:induction false} RunKeepsNoneNames(s: State, ops: seq<Op>, ttl: real, end: State, tag: Tag, spared: set<nat>)
    requires NoneNames(s, tag, spared) && NeverStores(ops, tag) && IsRun(s, ops, ttl, end)
    ensures NoneNames(end, tag, spared)
    decreases |ops|
  {
    if ops != [] {
      ApplyKeepsNoneNames(s, ops[0], ttl, tag, spared);
      assert NeverStores(ops[1..], tag);
      hide Apply, NoneNames, Entry.Tags;
      RunKeepsNoneNames(Apply(s, ops[0], ttl), ops[1..], ttl, end, tag, spared);
    }
  }

  /** The entry is that of a point whose store died before its tags. */
  ghost predicate IsStray(s: State, died: set<nat>, e: Entry) {
    exists id :: id in died && id in s.points && s.points[id] == e
  }

  /**
   * After any history, once a document or collection is invalidated, no lookup returns an
   * entry built on it, through any further operations, until a store names it again;
   * but for the points of stores that had died between the point and its tags, which
   * are exactly the ones the eviction leaves.
   */
  lemma InvalidatedIsNeverServed(before: seq<Op>, s: State, tag: Tag, after: seq<Op>, end: State, ttl: real,
                                 allowed: set<nat>, query: string, ranked: seq<nat>, now: real)
    requires IsRun(EMPTY, before, ttl, s)
    requires NeverStores(after, tag) && IsRun(Evicted(s, tag), after, ttl, end)
    ensures Tagged(s)
    ensures forall id :: id in Evicted(s, tag).points && tag in Evicted(s, tag).points[id].Tags()
                         <==> id in s.points && tag in s.points[id].Tags() && id in s.died
    ensures var hit := Lookup(end, allowed, query, ranked, now, ttl);
            hit.Some? && tag in hit.value.Tags() ==> IsStray(end, s.died, hit.value)
    ensures s.died == {} && Lookup(end, allowed, query, ranked, now, ttl).Some?
            ==> tag !in Lookup(end, allowed, query, ranked, now, ttl).value.Tags()
  {
    RunKeepsTagged(EMPTY, before, ttl, s);
    EvictedKeepsTagged(s, tag);
    RunKeepsNoneNames(Evicted(s, tag), after, ttl, end, tag, s.died);
    if Lookup(end, allowed, query, ranked, now, ttl).Some? {
      LookupIsSafe(end, allowed, query, ranked, now, ttl);
    }
  }

  /** A store that dies before its tags leaves a point that no invalidation of its document evicts. */
  lemma DeadStoreSurvivesEviction(id: nat, e: Entry, tag: Tag, ttl: real)
    requires tag in e.Tags()
    ensures IsRun(EMPTY, [StoreOp(id, e, false), InvalidateOp(tag)], ttl, Stored(EMPTY, id, e, false))
    ensures id in Stored(EMPTY, id, e, false).points
  {
    var ops, s := [StoreOp(id, e, false), InvalidateOp(tag)], Stored(EMPTY, id, e, false);
    assert ops[1..] == [InvalidateOp(tag)] && ops[1..][1..] == [];
    assert Evicted(s, tag) == s;
    assert IsRun(s, [], ttl, s);
    assert IsRun(s, ops[1..], ttl, s);
  }

  // ---------------------------------------------------------------- the hashed text

  predicate Separable(ids: seq<string>) {
    forall i | 0 <= i < |ids| :: ids[i] != "" && NoBar(ids[i])
  }

  predicate NoBar(id: string) {
    forall j | 0 <= j < |id| :: id[j] != '|'
  }

  lemma JoinHead(a: seq<string>, i: nat)
    requires a != [] && i <= |a[0]|
    ensures |a[0]| <= |Text.Join(a, "|")|
    ensures i < |a[0]| ==> Text.Join(a, "|")[i] == a[0][i]
    ensures |a| == 1 ==> Text.Join(a, "|") == a[0]
    ensures |a| > 1 ==> |Text.Join(a, "|")| > |a[0]| && Text.Join(a, "|")[|a[0]|] == '|'
                        && Text.Join(a, "|")[|a[0]| + 1..] == Text.Join(a[1..], "|")
  {
  }

  lemma HeadsAgree(a: seq<string>, b: seq<string>)
    requires a != [] && b != [] && Separable(a) && Separable(b) && Text.Join(a, "|") == Text.Join(b, "|")
    ensures |a[0]| >= |b[0]|
  {
    JoinHead(a, 0);
    JoinHead(b, if |a[0]| < |b[0]| then |a[0]| else 0);
    assert NoBar(b[0]);
  }

  /** The joined text that is hashed determines the list of ids, as UUIDs hold no separator. */
  lemma {:induction false} ScopeTextDeterminesIds(a: seq<string>, b: seq<string>)
    requires Separable(a) && Separable(b) && Text.Join(a, "|") == Text.Join(b, "|")
    ensures a == b
  {
    if a != [] { JoinHead(a, 0); }
    if b != [] { JoinHead(b, 0); }
    if a != [] && b != [] {
      HeadsAgree(a, b);
      HeadsAgree(b, a);
      forall i | 0 <= i < |a[0]| ensures a[0][i] == b[0][i] {
        JoinHead(a, i);
        JoinHead(b, i);
      }
      assert a[0] == b[0];
      hide Text.Join;
      if |a| > 1 {
        ScopeTextDeterminesIds(a[1..], b[1..]);
        assert a == [a[0]] + a[1..] && b == [b[0]] + b[1..];
      }
    }
  }
}
