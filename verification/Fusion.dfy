/** Reciprocal rank fusion of the text ranking and the page ranking. */
module Fusion {
  import opened Evidence

  datatype Item = ChunkItem(chunk: Passage) | PageItem(page: PageHit)

  datatype Candidate = Candidate(item: Item, score: real)

  /** The score of the item with the given rank (from 1). */
  function Score(k: nat, rank: nat): real
    requires rank > 0
  {
    1.0 / (k + rank) as real
  }

  lemma ScoreDecreases(k: nat, a: nat, b: nat)
    requires 0 < a < b
    ensures Score(k, a) > Score(k, b)
  {
    var x, y := (k + a) as real, (k + b) as real;
    assert 1.0 / x - 1.0 / y == (y - x) / (x * y);
  }

  /** Chunks with ranks `r`, `r + 1`, ... */
  function ScoredChunks(cs: seq<Passage>, k: nat, r: nat): seq<Candidate>
    requires r > 0
  {
    if cs == [] then [] else [Candidate(ChunkItem(cs[0]), Score(k, r))] + ScoredChunks(cs[1..], k, r + 1)
  }

  function ScoredPages(ps: seq<PageHit>, k: nat, r: nat): seq<Candidate>
    requires r > 0
  {
    if ps == [] then [] else [Candidate(PageItem(ps[0]), Score(k, r))] + ScoredPages(ps[1..], k, r + 1)
  }

  // ---------------------------------------------------------------- the stable sort

  /** Put `x` after every candidate that scores at least as much. */
  function Insert(x: Candidate, s: seq<Candidate>): seq<Candidate> {
    if s == [] || s[0].score < x.score then [x] + s else [s[0]] + Insert(x, s[1..])
  }

  /** `sort(key=score, reverse=True)`, which keeps the order of equal scores. */
  function Sort(s: seq<Candidate>): seq<Candidate> {
    if s == [] then [] else Insert(s[|s| - 1], Sort(s[..|s| - 1]))
  }

  predicate Descending(s: seq<Candidate>) {
    |s| <= 1 || (s[0].score >= s[1].score && Descending(s[1..]))
  }

  /** The candidates with exactly this score, in order. */
  function OfScore(s: seq<Candidate>, v: real): seq<Candidate> {
    if s == [] then [] else (if s[0].score == v then [s[0]] else []) + OfScore(s[1..], v)
  }

  lemma {:induction false} InsertFacts(x: Candidate, s: seq<Candidate>, v: real)
    requires Descending(s)
    ensures Descending(Insert(x, s))
    ensures Insert(x, s) != []
    ensures s == [] || s[0].score < x.score ==> Insert(x, s)[0] == x
    ensures s != [] && s[0].score >= x.score ==> Insert(x, s)[0] == s[0]
    ensures OfScore(Insert(x, s), v) == OfScore(s, v) + (if x.score == v then [x] else [])
  {
    if s == [] || s[0].score < x.score {
      assert ([x] + s)[1..] == s;
      if x.score == v {
        NoneOfScore(s, v);
      }
    } else {
      InsertFacts(x, s[1..], v);
      assert ([s[0]] + Insert(x, s[1..]))[1..] == Insert(x, s[1..]);
    }
  }

  lemma {:induction false} NoneOfScore(s: seq<Candidate>, v: real)
    requires Descending(s) && (s != [] ==> s[0].score < v)
    ensures OfScore(s, v) == []
  {
    if s != [] {
      NoneOfScore(s[1..], v);
    }
  }

  lemma {:induction false} OfScoreAppend(s: seq<Candidate>, x: Candidate, v: real)
    ensures OfScore(s + [x], v) == OfScore(s, v) + (if x.score == v then [x] else [])
  {
    if s == [] {
      assert ([] + [x])[1..] == [];
    } else {
      OfScoreAppend(s[1..], x, v);
      assert (s + [x])[1..] == s[1..] + [x];
    }
  }

  /** The sort is descending and, score by score, keeps exactly the items in their order. */
  lemma {:induction false} SortIsStable(s: seq<Candidate>, v: real)
    ensures Descending(Sort(s))
    ensures OfScore(Sort(s), v) == OfScore(s, v)
  {
    if s != [] {
      var init, x := s[..|s| - 1], s[|s| - 1];
      SortIsStable(init, v);
      InsertFacts(x, Sort(init), v);
      OfScoreAppend(init, x, v);
      assert init + [x] == s;
    }
  }

  // ---------------------------------------------------------------- the merge

  function RrfMerge(cs: seq<Passage>, ps: seq<PageHit>, k: nat): seq<Candidate> {
    Sort(ScoredChunks(cs, k, 1) + ScoredPages(ps, k, 1))
  }

  /** Text first, then pages, one of each in turn, then what is left of the longer list. */
  function Alternate(cs: seq<Passage>, ps: seq<PageHit>): seq<Item> {
    if cs == [] && ps == [] then []
    else (if cs == [] then [] else [ChunkItem(cs[0])])
         + (if ps == [] then [] else [PageItem(ps[0])])
         + Alternate(if cs == [] then [] else cs[1..], if ps == [] then [] else ps[1..])
  }

  function ScoredAlternate(cs: seq<Passage>, ps: seq<PageHit>, k: nat, r: nat): seq<Candidate>
    requires r > 0
    decreases |cs| + |ps|
  {
    if cs == [] then ScoredPages(ps, k, r)
    else if ps == [] then ScoredChunks(cs, k, r)
    else [Candidate(ChunkItem(cs[0]), Score(k, r)), Candidate(PageItem(ps[0]), Score(k, r))]
         + ScoredAlternate(cs[1..], ps[1..], k, r + 1)
  }

  function Items(s: seq<Candidate>): seq<Item> {
    if s == [] then [] else [s[0].item] + Items(s[1..])
  }

  lemma {:induction false} ChunksBelow(x: Candidate, cs: seq<Passage>, k: nat, r: nat)
    requires r > 0 && x.score <= Score(k, r + |cs|)
    ensures Insert(x, ScoredChunks(cs, k, r)) == ScoredChunks(cs, k, r) + [x]
  {
    if cs != [] {
      ScoreDecreases(k, r, r + |cs|);
      ChunksBelow(x, cs[1..], k, r + 1);
      hide Score;
      assert ScoredChunks(cs, k, r)[1..] == ScoredChunks(cs[1..], k, r + 1);
    }
  }

  lemma {:induction false} ScoredChunksAppend(cs: seq<Passage>, c: Passage, k: nat, r: nat)
    requires r > 0
    ensures ScoredChunks(cs + [c], k, r) == ScoredChunks(cs, k, r) + [Candidate(ChunkItem(c), Score(k, r + |cs|))]
  {
    hide Score;
    if cs == [] {
      assert (cs + [c])[1..] == [];
    } else {
      ScoredChunksAppend(cs[1..], c, k, r + 1);
      assert (cs + [c])[1..] == cs[1..] + [c];
    }
  }

  lemma SortStep(s: seq<Candidate>, x: Candidate)
    ensures Sort(s + [x]) == Insert(x, Sort(s))
  {
    assert (s + [x])[..|s|] == s;
  }

  lemma {:induction false} SortedChunks(cs: seq<Passage>, k: nat)
    ensures Sort(ScoredChunks(cs, k, 1)) == ScoredChunks(cs, k, 1)
  {
    if cs == [] {
    } else {
      hide Score, ScoredChunks, Sort, Insert;
      var init, c := cs[..|cs| - 1], cs[|cs| - 1];
      var x := Candidate(ChunkItem(c), Score(k, |cs|));
      SortedChunks(init, k);
      ScoredChunksAppend(init, c, k, 1);
      ChunksBelow(x, init, k, 1);
      SortStep(ScoredChunks(init, k, 1), x);
      assert init + [c] == cs;
    }
  }

  lemma {:induction false} InsertBelowPages(x: Candidate, ps: seq<PageHit>, k: nat, r: nat)
    requires r > 0 && x.score <= Score(k, r + |ps|)
    ensures Insert(x, ScoredPages(ps, k, r)) == ScoredPages(ps, k, r) + [x]
  {
    if ps != [] {
      ScoreDecreases(k, r, r + |ps|);
      InsertBelowPages(x, ps[1..], k, r + 1);
      hide Score;
      assert ScoredPages(ps, k, r)[1..] == ScoredPages(ps[1..], k, r + 1);
    }
  }

  lemma {:induction false} ScoredPagesAppend(ps: seq<PageHit>, p: PageHit, k: nat, r: nat)
    requires r > 0
    ensures ScoredPages(ps + [p], k, r) == ScoredPages(ps, k, r) + [Candidate(PageItem(p), Score(k, r + |ps|))]
  {
    hide Score;
    if ps == [] {
      assert (ps + [p])[1..] == [];
    } else {
      ScoredPagesAppend(ps[1..], p, k, r + 1);
      assert (ps + [p])[1..] == ps[1..] + [p];
    }
  }

  /** A page goes right after the chunk of the same rank. */
  lemma {:induction false} InsertPage(cs: seq<Passage>, ps: seq<PageHit>, p: PageHit, k: nat, r: nat)
    requires r > 0
    ensures Insert(Candidate(PageItem(p), Score(k, r + |ps|)), ScoredAlternate(cs, ps, k, r))
            == ScoredAlternate(cs, ps + [p], k, r)
    decreases |cs|
  {
    var x := Candidate(PageItem(p), Score(k, r + |ps|));
    if cs == [] {
      InsertBelowPages(x, ps, k, r);
      ScoredPagesAppend(ps, p, k, r);
    } else if ps == [] {
      InsertFirstPage(cs, p, k, r);
    } else {
      InsertPage(cs[1..], ps[1..], p, k, r + 1);
      ScoreDecreases(k, r, r + |ps|);
      hide Score;
      assert (ps + [p])[1..] == ps[1..] + [p];
      var c0, p0 := Candidate(ChunkItem(cs[0]), Score(k, r)), Candidate(PageItem(ps[0]), Score(k, r));
      InsertPastTwo(x, c0, p0, ScoredAlternate(cs[1..], ps[1..], k, r + 1));
    }
  }

  lemma InsertPastTwo(x: Candidate, a: Candidate, b: Candidate, s: seq<Candidate>)
    requires a.score >= x.score && b.score >= x.score
    ensures Insert(x, [a, b] + s) == [a, b] + Insert(x, s)
  {
    assert ([a, b] + s)[1..] == [b] + s;
    assert ([b] + s)[1..] == s;
  }

  lemma InsertFirstPage(cs: seq<Passage>, p: PageHit, k: nat, r: nat)
    requires r > 0 && cs != []
    ensures Insert(Candidate(PageItem(p), Score(k, r)), ScoredChunks(cs, k, r)) == ScoredAlternate(cs, [p], k, r)
  {
    var x, c := Candidate(PageItem(p), Score(k, r)), Candidate(ChunkItem(cs[0]), Score(k, r));
    var rest := ScoredChunks(cs[1..], k, r + 1);
    ScoreDecreases(k, r, r + 1);
    assert ScoredChunks(cs, k, r)[1..] == rest;
    assert Insert(x, rest) == [x] + rest;
    assert [p][1..] == [];
    assert ScoredAlternate(cs[1..], [], k, r + 1) == rest;
    hide Score, ScoredChunks;
    assert [c] + ([x] + rest) == [c, x] + rest;
  }

  lemma {:induction false} MergeIsScoredAlternate(cs: seq<Passage>, ps: seq<PageHit>, k: nat)
    ensures RrfMerge(cs, ps, k) == ScoredAlternate(cs, ps, k, 1)
    decreases |ps|
  {
    var chunks := ScoredChunks(cs, k, 1);
    if ps == [] {
      SortedChunks(cs, k);
      assert chunks + ScoredPages(ps, k, 1) == chunks;
    } else {
      var init, p := ps[..|ps| - 1], ps[|ps| - 1];
      MergeIsScoredAlternate(cs, init, k);
      InsertPage(cs, init, p, k, 1);
      ScoredPagesAppend(init, p, k, 1);
      assert init + [p] == ps;
      hide Score, ScoredChunks, ScoredPages, ScoredAlternate, Insert, Sort;
      var x, before := Candidate(PageItem(p), Score(k, |ps|)), chunks + ScoredPages(init, k, 1);
      assert chunks + ScoredPages(ps, k, 1) == before + [x];
      SortStep(before, x);
    }
  }

  lemma {:induction false} ItemsOfAlternate(cs: seq<Passage>, ps: seq<PageHit>, k: nat, r: nat)
    requires r > 0
    ensures Items(ScoredAlternate(cs, ps, k, r)) == Alternate(cs, ps)
    decreases |cs| + |ps|
  {
    hide Score;
    var s := ScoredAlternate(cs, ps, k, r);
    if cs == [] && ps == [] {
    } else if cs == [] {
      ItemsOfAlternate([], ps[1..], k, r + 1);
      assert s[1..] == ScoredAlternate([], ps[1..], k, r + 1);
    } else if ps == [] {
      ItemsOfAlternate(cs[1..], [], k, r + 1);
      assert s[1..] == ScoredAlternate(cs[1..], [], k, r + 1);
    } else {
      var rest := ScoredAlternate(cs[1..], ps[1..], k, r + 1);
      ItemsOfAlternate(cs[1..], ps[1..], k, r + 1);
      assert s[1..][1..] == rest;
      assert Items(s) == [s[0].item] + ([s[1].item] + Items(rest));
    }
  }

  /** Whatever the damping constant, the merge alternates strictly, text first. */
  lemma MergeAlternates(cs: seq<Passage>, ps: seq<PageHit>, k: nat)
    ensures Items(RrfMerge(cs, ps, k)) == Alternate(cs, ps)
  {
    MergeIsScoredAlternate(cs, ps, k);
    ItemsOfAlternate(cs, ps, k, 1);
  }

  function Min(a: nat, b: nat): nat {
    if a < b then a else b
  }

  /** Where each item stands in the merged list, and its score, from its place in its own list. */
  lemma {:induction false} MergedPlaces(cs: seq<Passage>, ps: seq<PageHit>, k: nat, r: nat, i: nat)
    requires r > 0
    ensures var s := ScoredAlternate(cs, ps, k, r);
            && |s| == |cs| + |ps|
            && (i < |cs| ==> s[i + Min(i, |ps|)] == Candidate(ChunkItem(cs[i]), 1.0 / (k + r + i) as real))
            && (i < |ps| ==> s[i + Min(i + 1, |cs|)] == Candidate(PageItem(ps[i]), 1.0 / (k + r + i) as real))
    decreases |cs| + |ps|
  {
    if cs != [] && ps != [] {
      MergedPlaces(cs[1..], ps[1..], k, r + 1, if i == 0 then 0 else i - 1);
    } else {
      ChunkPlaces(cs, k, r, i);
      PagePlaces(ps, k, r, i);
    }
  }

  lemma {:induction false} ChunkPlaces(cs: seq<Passage>, k: nat, r: nat, i: nat)
    requires r > 0
    ensures |ScoredChunks(cs, k, r)| == |cs|
    ensures i < |cs| ==> ScoredChunks(cs, k, r)[i] == Candidate(ChunkItem(cs[i]), 1.0 / (k + r + i) as real)
  {
    if cs != [] {
      ChunkPlaces(cs[1..], k, r + 1, if i == 0 then 0 else i - 1);
    }
  }

  lemma {:induction false} PagePlaces(ps: seq<PageHit>, k: nat, r: nat, i: nat)
    requires r > 0
    ensures |ScoredPages(ps, k, r)| == |ps|
    ensures i < |ps| ==> ScoredPages(ps, k, r)[i] == Candidate(PageItem(ps[i]), 1.0 / (k + r + i) as real)
  {
    if ps != [] {
      PagePlaces(ps[1..], k, r + 1, if i == 0 then 0 else i - 1);
    }
  }

  lemma AllPlaces(cs: seq<Passage>, ps: seq<PageHit>, k: nat)
    ensures var s := ScoredAlternate(cs, ps, k, 1);
            && |s| == |cs| + |ps|
            && (forall i | 0 <= i < |cs| :: s[i + Min(i, |ps|)] == Candidate(ChunkItem(cs[i]), 1.0 / (k + 1 + i) as real))
            && (forall i | 0 <= i < |ps| :: s[i + Min(i + 1, |cs|)] == Candidate(PageItem(ps[i]), 1.0 / (k + 1 + i) as real))
  {
    var s := ScoredAlternate(cs, ps, k, 1);
    hide ScoredAlternate;
    MergedPlaces(cs, ps, k, 1, 0);
    forall i | 0 <= i < |cs| ensures s[i + Min(i, |ps|)] == Candidate(ChunkItem(cs[i]), 1.0 / (k + 1 + i) as real) {
      MergedPlaces(cs, ps, k, 1, i);
    }
    forall i | 0 <= i < |ps| ensures s[i + Min(i + 1, |cs|)] == Candidate(PageItem(ps[i]), 1.0 / (k + 1 + i) as real) {
      MergedPlaces(cs, ps, k, 1, i);
    }
  }

  /**
   * The merge as it runs: the result alternates strictly, text first, each item keeps
   * the score of its rank in its own list, and the scores never rise.
   */
  method Merge(cs: seq<Passage>, ps: seq<PageHit>, k: nat) returns (fused: seq<Candidate>)
    ensures Items(fused) == Alternate(cs, ps)
    ensures fused == ScoredAlternate(cs, ps, k, 1)
    ensures Descending(fused)
    ensures |fused| == |cs| + |ps|
    ensures forall i | 0 <= i < |cs| :: fused[i + Min(i, |ps|)] == Candidate(ChunkItem(cs[i]), 1.0 / (k + 1 + i) as real)
    ensures forall i | 0 <= i < |ps| :: fused[i + Min(i + 1, |cs|)] == Candidate(PageItem(ps[i]), 1.0 / (k + 1 + i) as real)
  {
    fused := ScoredChunks(cs, k, 1);
    fused := fused + ScoredPages(ps, k, 1);
    SortIsStable(fused, 0.0);
    fused := Sort(fused);
    hide Score, ScoredAlternate, ScoredChunks, ScoredPages, Alternate, Items, Sort, Descending, OfScore, Min;
    MergeIsScoredAlternate(cs, ps, k);
    ItemsOfAlternate(cs, ps, k, 1);
    AllPlaces(cs, ps, k);
  }
}
