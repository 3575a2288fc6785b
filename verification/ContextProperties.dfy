/** Which chunks and which page images the assembler hands on, and what becomes of every other one. */
module ContextProperties {
  import opened Assembler
  import opened Evidence
  import opened Text
  import Turn

  // ---------------------------------------------------------------- the filters

  /** The access filter works chunk by chunk: each passes by the canonical text of its collection, or is counted. */
  lemma {:induction false} AccessIsChunkByChunk(a: seq<Passage>, b: seq<Passage>, x: Passage, allowed: set<nat>)
    ensures Allowed(a + b, allowed) == Allowed(a, allowed) + Allowed(b, allowed)
    ensures Outside(a + b, allowed) == Outside(a, allowed) + Outside(b, allowed)
    ensures Allowed([x], allowed) == if x.coll.Canonical? && x.coll.id in allowed then [x] else []
    ensures Outside([x], allowed) == if x.coll.Canonical? && x.coll.id in allowed then 0 else 1
    ensures Allowed([], allowed) == [] && Outside([], allowed) == 0
  {
    AllowedStep([], x, allowed);
    assert [] + [x] == [x];
    if b == [] {
      assert a + b == a;
    } else {
      var init, last := b[..|b| - 1], b[|b| - 1];
      AccessIsChunkByChunk(a, init, x, allowed);
      Snoc(a, b);
      AllowedStep(a + init, last, allowed);
      AllowedStep(init, last, allowed);
    }
    hide Allowed, Outside;
  }

  /** And page by page. */
  lemma {:induction false} AccessIsPageByPage(a: seq<PageHit>, b: seq<PageHit>, x: PageHit, allowed: set<nat>)
    ensures AllowedPages(a + b, allowed) == AllowedPages(a, allowed) + AllowedPages(b, allowed)
    ensures OutsidePages(a + b, allowed) == OutsidePages(a, allowed) + OutsidePages(b, allowed)
    ensures AllowedPages([x], allowed) == if x.coll.Canonical? && x.coll.id in allowed then [x] else []
    ensures OutsidePages([x], allowed) == if x.coll.Canonical? && x.coll.id in allowed then 0 else 1
    ensures AllowedPages([], allowed) == [] && OutsidePages([], allowed) == 0
  {
    AllowedPagesStep([], x, allowed);
    assert [] + [x] == [x];
    if b == [] {
      assert a + b == a;
    } else {
      var init, last := b[..|b| - 1], b[|b| - 1];
      AccessIsPageByPage(a, init, x, allowed);
      Snoc(a, b);
      AllowedPagesStep(a + init, last, allowed);
      AllowedPagesStep(init, last, allowed);
    }
    hide AllowedPages, OutsidePages;
  }

  // ---------------------------------------------------------------- the estimate

  /** The estimate is the nearest to a token for 3.8 characters, but at least 1; a budget pays for 3.8 characters a token. */
  lemma EstimateIsNearest(length: nat, budget: nat)
    ensures EstimateTokens(length) >= 1
    ensures length >= 2 ==> -19 <= 38 * EstimateTokens(length) - 10 * length <= 19
    ensures 5 * BudgetChars(budget) <= 19 * budget < 5 * BudgetChars(budget) + 5
  {
  }

  // ---------------------------------------------------------------- which chunks are packed

  /** Positions in a list of the given length, in order. */
  ghost predicate IsSelection(kept: seq<nat>, length: nat) {
    && (forall i | 0 <= i < |kept| :: kept[i] < length)
    && forall i, j | 0 <= i < j < |kept| :: kept[i] < kept[j]
  }

  /** Position `j` comes after the first `i` kept ones and before the others. */
  predicate Between(kept: seq<nat>, i: nat, j: nat)
    requires i <= |kept|
  {
    (i == 0 || kept[i - 1] < j) && (i == |kept| || j < kept[i])
  }

  /**
   * The packed passages are those kept, whole; each was kept because it fitted beside
   * those before it, and each left out did not.
   */
  ghost predicate IsGreedyChoice(cs: seq<Passage>, budget: nat, packed: seq<Passage>, kept: seq<nat>) {
    && IsSelection(kept, |cs|) && |packed| == |kept|
    && (forall i | 0 <= i < |kept| :: packed[i] == cs[kept[i]])
    && (forall i | 0 <= i <= |kept| :: TokenSum(packed[..i]) <= budget)
    && forall i, j | 0 <= i <= |kept| && 0 <= j < |cs| && Between(kept, i, j) ::
         TokenSum(packed[..i]) + EstimateTokens(|cs[j].content|) > budget
  }

  lemma SameLength(cs: seq<Passage>, budget: nat, packed: seq<Passage>, kept: seq<nat>)
    requires IsGreedyChoice(cs, budget, packed, kept)
    ensures |packed| == |kept|
  {
  }

  lemma GreedyKeeps(cs: seq<Passage>, c: Passage, budget: nat, packed: seq<Passage>, kept: seq<nat>)
    requires IsGreedyChoice(cs, budget, packed, kept)
    requires TokenSum(packed) + EstimateTokens(|c.content|) <= budget
    ensures IsGreedyChoice(cs + [c], budget, packed + [c], kept + [|cs|])
  {
    hide EstimateTokens, TokenSum;
    var more, now := packed + [c], kept + [|cs|];
    TokenSumStep(packed, c);
    forall i | 0 <= i <= |now| ensures TokenSum(more[..i]) <= budget {
      assert more[..i] == if i <= |packed| then packed[..i] else more;
    }
    forall i, j | 0 <= i <= |now| && 0 <= j < |cs| + 1 && Between(now, i, j)
      ensures TokenSum(more[..i]) + EstimateTokens(|(cs + [c])[j].content|) > budget
    {
      assert i <= |kept| && j < |cs| && Between(kept, i, j);
      assert more[..i] == packed[..i];
    }
  }

  lemma GreedyDrops(cs: seq<Passage>, c: Passage, budget: nat, packed: seq<Passage>, kept: seq<nat>)
    requires IsGreedyChoice(cs, budget, packed, kept)
    requires TokenSum(packed) + EstimateTokens(|c.content|) > budget
    ensures IsGreedyChoice(cs + [c], budget, packed, kept)
  {
    hide EstimateTokens, TokenSum;
    forall i, j | 0 <= i <= |kept| && 0 <= j < |cs| + 1 && Between(kept, i, j)
      ensures TokenSum(packed[..i]) + EstimateTokens(|(cs + [c])[j].content|) > budget
    {
      if j == |cs| {
        assert i == |kept| && packed[..i] == packed;
      }
    }
  }

  /**
   * With a budget, and unless the first accessible chunk alone exceeds it, a chunk is left
   * out if and only if its estimate does not fit beside the chunks packed from before it.
   */
  lemma {:induction false} ChunksArePackedGreedily(cs: seq<Passage>, budget: nat) returns (kept: seq<nat>)
    requires budget > 0 && (cs == [] || EstimateTokens(|cs[0].content|) <= budget)
    ensures IsGreedyChoice(cs, budget, PackAll(cs, budget).packed, kept)
    ensures PackAll(cs, budget).dropped == |cs| - |kept|
    ensures cs != [] ==> kept != []
  {
    if cs == [] {
      kept := [];
    } else {
      hide IsGreedyChoice, EstimateTokens, TokenSum, BudgetChars;
      var init, c := cs[..|cs| - 1], cs[|cs| - 1];
      kept := ChunksArePackedGreedily(init, budget);
      var p := PackAll(init, budget);
      TokensWithinBudget(init, budget);
      SameLength(init, budget, p.packed, kept);
      assert init + [c] == cs;
      if p.tokens + EstimateTokens(|c.content|) <= budget {
        GreedyKeeps(init, c, budget, p.packed, kept);
        kept := kept + [|init|];
      } else {
        GreedyDrops(init, c, budget, p.packed, kept);
      }
    }
  }

  /** The passage at `j` is the first that has text. */
  predicate FirstWithText(cs: seq<Passage>, j: nat) {
    j < |cs| && cs[j].content != "" && forall k | 0 <= k < j :: cs[k].content == ""
  }

  /** Without a budget nothing is handed on but the first chunk that has text, emptied. */
  lemma {:induction false} NoBudgetPacksNothing(cs: seq<Passage>)
    ensures (forall j | 0 <= j < |cs| :: cs[j].content == "") ==> PackAll(cs, 0).packed == []
    ensures forall j: nat | FirstWithText(cs, j) :: PackAll(cs, 0).packed == [cs[j].(content := "")]
  {
    if cs != [] {
      var init, last := cs[..|cs| - 1], |cs| - 1;
      NoBudgetPacksNothing(init);
      forall j: nat | FirstWithText(cs, j) ensures PackAll(cs, 0).packed == [cs[j].(content := "")] {
        if j < last {
          assert FirstWithText(init, j);
        } else {
          assert forall k | 0 <= k < |init| :: init[k].content == "";
          assert cs[last].content[..0] == "";
        }
      }
    }
  }

  /** Every accessible chunk is packed or counted as dropped. */
  lemma {:induction false} EveryChunkIsPackedOrDropped(cs: seq<Passage>, budget: nat)
    ensures var p := PackAll(cs, budget); |p.packed| + p.dropped == |cs|
  {
    if cs != [] {
      EveryChunkIsPackedOrDropped(cs[..|cs| - 1], budget);
      hide EstimateTokens, BudgetChars;
    }
  }

  // ---------------------------------------------------------------- which images are taken

  /** The images of the pages whose address can be read, page by page. */
  lemma {:induction false} LoadedPageByPage(a: seq<PageHit>, p: PageHit, store: Store)
    ensures Loadable([], store) == []
    ensures Loadable(a + [p], store)
            == if p.uri == "" || store(p.uri).None? then Loadable(a, store)
               else Loadable(a, store) + [Image(p.doc, p.pageNumber, p.uri, store(p.uri).value)]
  {
    assert (a + [p])[..|a|] == a;
  }

  /** The first `n` pages are the shortest run from the front that gives `maxImages` images, or all pages. */
  predicate IsShortestRun(ps: seq<PageHit>, store: Store, maxImages: nat, n: nat) {
    && n <= |ps|
    && |Loadable(ps[..n], store)| <= maxImages
    && (n < |ps| ==> |Loadable(ps[..n], store)| == maxImages)
    && (n > 0 ==> |Loadable(ps[..n - 1], store)| < maxImages)
  }

  lemma RunGrows(init: seq<PageHit>, p: PageHit, store: Store, maxImages: nat)
    requires |Loadable(init, store)| < maxImages
    ensures IsShortestRun(init + [p], store, maxImages, |init| + 1)
  {
    LoadedPageByPage(init, p, store);
    hide Loadable;
    assert (init + [p])[..|init| + 1] == init + [p] && (init + [p])[..|init|] == init;
  }

  lemma RunIsFull(init: seq<PageHit>, p: PageHit, store: Store, maxImages: nat, n: nat)
    requires IsShortestRun(init, store, maxImages, n) && |Loadable(init[..n], store)| == maxImages
    ensures IsShortestRun(init + [p], store, maxImages, n) && (init + [p])[..n] == init[..n]
  {
    hide Loadable;
    assert (init + [p])[..n] == init[..n];
    assert n > 0 ==> (init + [p])[..n - 1] == init[..n - 1];
  }

  /**
   * The images are those of the shortest run of pages from the front that gives as many as are
   * allowed, or of all pages when there are fewer; the pages after that run are the dropped ones.
   */
  lemma {:induction false} ImagesAreTheFirst(ps: seq<PageHit>, store: Store, maxImages: nat) returns (n: nat)
    ensures IsShortestRun(ps, store, maxImages, n)
    ensures FirstImages(ps, store, maxImages) == Loadable(ps[..n], store)
    ensures SkippedPages(ps, store, maxImages) == |ps| - n
  {
    if ps == [] {
      n := 0;
    } else {
      hide IsShortestRun, ImageOf, SkippedPages, Loadable;
      var init, p := ps[..|ps| - 1], ps[|ps| - 1];
      assert init + [p] == ps;
      n := ImagesAreTheFirst(init, store, maxImages);
      ImagesStep(init, p, store, maxImages);
      ShortOrFull(init, store, maxImages, n);
      if |Loadable(init[..n], store)| < maxImages {
        RunGrows(init, p, store, maxImages);
        n := |ps|;
        assert ps[..n] == ps;
        GrowsByPage(init, p, store, maxImages);
      } else {
        RunIsFull(init, p, store, maxImages, n);
      }
    }
  }

  lemma ShortOrFull(ps: seq<PageHit>, store: Store, maxImages: nat, n: nat)
    requires IsShortestRun(ps, store, maxImages, n)
    ensures n <= |ps| && |Loadable(ps[..n], store)| <= maxImages
    ensures |Loadable(ps[..n], store)| < maxImages ==> n == |ps| && ps[..n] == ps
  {
    hide Loadable;
  }

  lemma GrowsByPage(init: seq<PageHit>, p: PageHit, store: Store, maxImages: nat)
    requires |Loadable(init, store)| < maxImages
    ensures FirstImages(init + [p], store, maxImages) == Loadable(init + [p], store)
  {
    LoadedPageByPage(init, p, store);
    hide Loadable;
  }

  // ---------------------------------------------------------------- in a turn

  /**
   * The chunks a turn gives its generator: every accessible one when they fit the configured
   * budget together; otherwise a greedy choice, or the first one cut down if it alone is too long.
   */
  lemma TurnPacksWhatFits(cfg: Turn.Settings, st: Turn.Thread, store: Store)
    requires cfg.tokenBudget > 0
    ensures var mine, out := Allowed(st.chunks, st.Allowed()), Turn.Context(cfg, st, store);
            && out.tokens == TokenSum(out.packed) <= cfg.tokenBudget
            && (TokenSum(mine) <= cfg.tokenBudget ==> out.packed == mine)
            && (mine == [] || EstimateTokens(|mine[0].content|) <= cfg.tokenBudget ==>
                  exists kept :: IsGreedyChoice(mine, cfg.tokenBudget, out.packed, kept))
            && (mine != [] && EstimateTokens(|mine[0].content|) > cfg.tokenBudget ==>
                  |out.packed| == 1 && out.packed[0].content <= mine[0].content && out.tokens == cfg.tokenBudget)
  {
    ContextPacks(cfg, st, store);
    PackingIs(Allowed(st.chunks, st.Allowed()), cfg.tokenBudget);
    hide *;
  }

  lemma ContextPacks(cfg: Turn.Settings, st: Turn.Thread, store: Store)
    ensures var p, out := PackAll(Allowed(st.chunks, st.Allowed()), cfg.tokenBudget), Turn.Context(cfg, st, store);
            out.packed == p.packed && out.tokens == p.tokens
  {
    hide PackAll, Allowed, AllowedPages, Loadable, Turn.Thread.Allowed;
  }

  lemma PackingIs(cs: seq<Passage>, budget: nat)
    requires budget > 0
    ensures var p := PackAll(cs, budget);
            && p.tokens == TokenSum(p.packed) <= budget
            && (TokenSum(cs) <= budget ==> p.packed == cs)
            && (cs == [] || EstimateTokens(|cs[0].content|) <= budget ==> exists kept :: IsGreedyChoice(cs, budget, p.packed, kept))
            && (cs != [] && EstimateTokens(|cs[0].content|) > budget ==>
                  |p.packed| == 1 && p.packed[0].content <= cs[0].content && p.tokens == budget)
  {
    hide TokenSum, PackAll, IsGreedyChoice, EstimateTokens;
    TokensWithinBudget(cs, budget);
    if TokenSum(cs) <= budget {
      WhatFitsIsPacked(cs, budget);
    }
    if cs == [] || EstimateTokens(|cs[0].content|) <= budget {
      var kept := ChunksArePackedGreedily(cs, budget);
    } else {
      OversizedFirstBlock(cs, budget);
    }
  }

  /** Its images, for a multimodal model: those of the shortest run of accessible pages that gives the configured number. */
  lemma TurnTakesTheFirstImages(cfg: Turn.Settings, st: Turn.Thread, store: Store) returns (n: nat)
    ensures var pages, images := AllowedPages(st.pageHits, st.Allowed()), Turn.Context(cfg, st, store).images;
            if cfg.multimodal then IsShortestRun(pages, store, cfg.maxImages, n) && images == Loadable(pages[..n], store)
            else images == []
  {
    var pages := AllowedPages(st.pageHits, st.Allowed());
    n := ImagesAreTheFirst(pages, store, cfg.maxImages);
    hide Loadable, AllowedPages, Allowed, PackAll, Turn.Thread.Allowed, IsShortestRun;
  }
}
