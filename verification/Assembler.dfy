/** The context assembler: the last gate before the generator. */
module Assembler {
  import opened Evidence
  import opened Options
  import opened Fusion
  import opened Text

  /** Token estimate at 3.8 characters a token, rounded to the nearest, at least 1. */
  function EstimateTokens(length: nat): nat {
    var rounded := (10 * length + 19) / 38;
    if rounded < 1 then 1 else rounded
  }

  /** The longest text the budget pays for: `int(budget * 3.8)` characters. */
  function BudgetChars(budget: nat): nat {
    19 * budget / 5
  }

  datatype Image = Image(doc: IdText, pageNumber: int, uri: string, b64: string)

  /** `blocks` are the contents of `packed`, in order. */
  datatype Assembled = Assembled(blocks: seq<string>, packed: seq<Passage>, images: seq<Image>, tokens: nat,
                                 droppedAcl: nat, droppedBudget: nat)

  /** What the object store gives for a page's address, if it can be read. */
  type Store = string -> Option<string>

  // ---------------------------------------------------------------- the simple form

  function Allowed(cs: seq<Passage>, allowed: set<nat>): seq<Passage> {
    if cs == [] then []
    else Allowed(cs[..|cs| - 1], allowed)
         + (if InScope(cs[|cs| - 1].coll, allowed) then [cs[|cs| - 1]] else [])
  }

  function AllowedPages(ps: seq<PageHit>, allowed: set<nat>): seq<PageHit> {
    if ps == [] then []
    else AllowedPages(ps[..|ps| - 1], allowed)
         + (if InScope(ps[|ps| - 1].coll, allowed) then [ps[|ps| - 1]] else [])
  }

  /** Packed passages, their tokens, and how many did not fit. */
  datatype Packing = Packing(packed: seq<Passage>, tokens: nat, dropped: nat)

  function PackOne(p: Packing, c: Passage, budget: nat): Packing {
    var cost := EstimateTokens(|c.content|);
    if p.tokens + cost <= budget then Packing(p.packed + [c], p.tokens + cost, p.dropped)
    else if p.packed == [] && c.content != "" then
      var cut := if BudgetChars(budget) <= |c.content| then c.content[..BudgetChars(budget)] else c.content;
      Packing([c.(content := cut)], EstimateTokens(|cut|), p.dropped)
    else p.(dropped := p.dropped + 1)
  }

  function PackAll(cs: seq<Passage>, budget: nat): Packing {
    if cs == [] then Packing([], 0, 0) else PackOne(PackAll(cs[..|cs| - 1], budget), cs[|cs| - 1], budget)
  }

  function ImageOf(p: PageHit, store: Store): Option<Image> {
    if p.uri == "" then None
    else match store(p.uri)
         case None => None
         case Some(b64) => Some(Image(p.doc, p.pageNumber, p.uri, b64))
  }

  function Loadable(ps: seq<PageHit>, store: Store): seq<Image> {
    if ps == [] then []
    else match ImageOf(ps[|ps| - 1], store)
         case None => Loadable(ps[..|ps| - 1], store)
         case Some(image) => Loadable(ps[..|ps| - 1], store) + [image]
  }

  function FirstImages(ps: seq<PageHit>, store: Store, maxImages: nat): seq<Image> {
    var all := Loadable(ps, store);
    if maxImages <= |all| then all[..maxImages] else all
  }

  /** Pages passed over because the image budget was already spent. */
  function SkippedPages(ps: seq<PageHit>, store: Store, maxImages: nat): nat {
    if ps == [] then 0
    else
      var init := ps[..|ps| - 1];
      SkippedPages(init, store, maxImages) + (if |FirstImages(init, store, maxImages)| >= maxImages then 1 else 0)
  }

  function Contents(cs: seq<Passage>): seq<string> {
    if cs == [] then [] else Contents(cs[..|cs| - 1]) + [cs[|cs| - 1].content]
  }

  /** The two kinds apart: filter each by access, pack the chunks, take the first images. */
  function SimpleForm(cs: seq<Passage>, ps: seq<PageHit>, allowed: set<nat>, store: Store, budget: nat, maxImages: nat)
    : Assembled
  {
    var chunks, pages := Allowed(cs, allowed), AllowedPages(ps, allowed);
    var p := PackAll(chunks, budget);
    Assembled(Contents(p.packed), p.packed, FirstImages(pages, store, maxImages), p.tokens,
              Outside(cs, allowed) + OutsidePages(ps, allowed),
              p.dropped + SkippedPages(pages, store, maxImages))
  }

  function Outside(cs: seq<Passage>, allowed: set<nat>): nat {
    if cs == [] then 0
    else Outside(cs[..|cs| - 1], allowed) + (if InScope(cs[|cs| - 1].coll, allowed) then 0 else 1)
  }

  function OutsidePages(ps: seq<PageHit>, allowed: set<nat>): nat {
    if ps == [] then 0
    else OutsidePages(ps[..|ps| - 1], allowed) + (if InScope(ps[|ps| - 1].coll, allowed) then 0 else 1)
  }

  /** The sum of the estimates over the packed passages. */
  function TokenSum(cs: seq<Passage>): nat {
    if cs == [] then 0 else TokenSum(cs[..|cs| - 1]) + EstimateTokens(|cs[|cs| - 1].content|)
  }

  /** Passages that fit the budget together are all packed, none cut and none dropped. */
  lemma {:induction false} WhatFitsIsPacked(cs: seq<Passage>, budget: nat)
    requires TokenSum(cs) <= budget
    ensures PackAll(cs, budget) == Packing(cs, TokenSum(cs), 0)
  {
    if cs != [] {
      var init, c := cs[..|cs| - 1], cs[|cs| - 1];
      assert cs == init + [c];
      TokenSumStep(init, c);
      PackStep(init, c, budget);
      hide PackAll, TokenSum, EstimateTokens, BudgetChars;
      WhatFitsIsPacked(init, budget);
    }
  }

  lemma {:induction false} ContentsInOrder(cs: seq<Passage>)
    ensures |Contents(cs)| == |cs| && forall i | 0 <= i < |cs| :: Contents(cs)[i] == cs[i].content
  {
    if cs != [] {
      ContentsInOrder(cs[..|cs| - 1]);
    }
  }

  lemma FormPacksWhatFits(cs: seq<Passage>, ps: seq<PageHit>, allowed: set<nat>, store: Store, budget: nat, maxImages: nat)
    requires TokenSum(Allowed(cs, allowed)) <= budget
    ensures var mine, form := Allowed(cs, allowed), SimpleForm(cs, ps, allowed, store, budget, maxImages);
            form.packed == mine && form.tokens == TokenSum(mine)
  {
    WhatFitsIsPacked(Allowed(cs, allowed), budget);
    hide TokenSum, Allowed, AllowedPages, PackAll, Contents, FirstImages, SkippedPages, Outside, OutsidePages;
  }

  // ---------------------------------------------------------------- the loop

  function ChunksOf(items: seq<Item>): seq<Passage> {
    if items == [] then []
    else
      var before := ChunksOf(items[..|items| - 1]);
      match items[|items| - 1] case ChunkItem(c) => before + [c] case PageItem(_) => before
  }

  function PagesOf(items: seq<Item>): seq<PageHit> {
    if items == [] then []
    else
      var before := PagesOf(items[..|items| - 1]);
      match items[|items| - 1] case ChunkItem(_) => before case PageItem(p) => before + [p]
  }

  lemma ItemsStep(items: seq<Item>, x: Item)
    ensures ChunksOf(items + [x]) == if x.ChunkItem? then ChunksOf(items) + [x.chunk] else ChunksOf(items)
    ensures PagesOf(items + [x]) == if x.PageItem? then PagesOf(items) + [x.page] else PagesOf(items)
  {
    assert (items + [x])[..|items|] == items;
  }

  lemma AllowedStep(cs: seq<Passage>, c: Passage, allowed: set<nat>)
    ensures Allowed(cs + [c], allowed) == if InScope(c.coll, allowed) then Allowed(cs, allowed) + [c] else Allowed(cs, allowed)
    ensures Outside(cs + [c], allowed) == Outside(cs, allowed) + (if InScope(c.coll, allowed) then 0 else 1)
  {
    assert (cs + [c])[..|cs|] == cs;
  }

  lemma AllowedPagesStep(ps: seq<PageHit>, p: PageHit, allowed: set<nat>)
    ensures AllowedPages(ps + [p], allowed)
            == if InScope(p.coll, allowed) then AllowedPages(ps, allowed) + [p] else AllowedPages(ps, allowed)
    ensures OutsidePages(ps + [p], allowed) == OutsidePages(ps, allowed) + (if InScope(p.coll, allowed) then 0 else 1)
  {
    assert (ps + [p])[..|ps|] == ps;
  }

  lemma PackStep(cs: seq<Passage>, c: Passage, budget: nat)
    ensures PackAll(cs + [c], budget) == PackOne(PackAll(cs, budget), c, budget)
  {
    assert (cs + [c])[..|cs|] == cs;
  }

  lemma ContentsStep(cs: seq<Passage>, c: Passage)
    ensures Contents(cs + [c]) == Contents(cs) + [c.content]
    ensures Contents([c]) == [c.content] && Contents([]) == []
  {
    assert (cs + [c])[..|cs|] == cs;
  }

  lemma ImagesStep(ps: seq<PageHit>, p: PageHit, store: Store, maxImages: nat)
    ensures var before := FirstImages(ps, store, maxImages);
            && |before| <= maxImages
            && FirstImages(ps + [p], store, maxImages)
               == (if |before| < maxImages && ImageOf(p, store).Some? then before + [ImageOf(p, store).value] else before)
            && SkippedPages(ps + [p], store, maxImages)
               == SkippedPages(ps, store, maxImages) + (if |before| >= maxImages then 1 else 0)
  {
    assert (ps + [p])[..|ps|] == ps;
    hide ImageOf;
  }

  /** One round of the loop on the running result. */
  function Take(out: Assembled, x: Item, allowed: set<nat>, store: Store, budget: nat, maxImages: nat): Assembled {
    match x
    case ChunkItem(c) =>
      if !InScope(c.coll, allowed) then out.(droppedAcl := out.droppedAcl + 1)
      else
        var p := PackOne(Packing(out.packed, out.tokens, out.droppedBudget), c, budget);
        out.(packed := p.packed, blocks := Contents(p.packed), tokens := p.tokens, droppedBudget := p.dropped)
    case PageItem(p) =>
      if !InScope(p.coll, allowed) then out.(droppedAcl := out.droppedAcl + 1)
      else if |out.images| >= maxImages then out.(droppedBudget := out.droppedBudget + 1)
      else match ImageOf(p, store)
           case None => out
           case Some(image) => out.(images := out.images + [image])
  }

  /** Each round keeps the running result equal to the simple form of what was read. */
  lemma TakeKeepsSimpleForm(items: seq<Item>, x: Item, allowed: set<nat>, store: Store, budget: nat, maxImages: nat)
    ensures Take(SimpleForm(ChunksOf(items), PagesOf(items), allowed, store, budget, maxImages),
                 x, allowed, store, budget, maxImages)
            == SimpleForm(ChunksOf(items + [x]), PagesOf(items + [x]), allowed, store, budget, maxImages)
  {
    ItemsStep(items, x);
    var cs, ps := ChunksOf(items), PagesOf(items);
    match x {
      case ChunkItem(c) =>
        AllowedStep(cs, c, allowed);
        PackStep(Allowed(cs, allowed), c, budget);
        PackOneDropped(PackAll(Allowed(cs, allowed), budget), c, budget,
                       SkippedPages(AllowedPages(ps, allowed), store, maxImages));
      case PageItem(p) =>
        AllowedPagesStep(ps, p, allowed);
        ImagesStep(AllowedPages(ps, allowed), p, store, maxImages);
    }
    hide ChunksOf, PagesOf, Allowed, AllowedPages, Outside, OutsidePages, PackAll, PackOne,
         FirstImages, SkippedPages, Contents, ImageOf, InScope;
  }

  lemma PackOneDropped(p: Packing, c: Passage, budget: nat, extra: nat)
    ensures PackOne(p.(dropped := p.dropped + extra), c, budget)
            == var q := PackOne(p, c, budget); q.(dropped := q.dropped + extra)
  {
    hide EstimateTokens, BudgetChars;
  }

  function Head(cs: seq<Passage>, ps: seq<PageHit>): seq<Item> {
    (if cs == [] then [] else [ChunkItem(cs[0])]) + (if ps == [] then [] else [PageItem(ps[0])])
  }

  function Tail<T>(s: seq<T>): seq<T> {
    if s == [] then [] else s[1..]
  }

  lemma AlternateStep(cs: seq<Passage>, ps: seq<PageHit>)
    requires cs != [] || ps != []
    ensures Alternate(cs, ps) == Head(cs, ps) + Alternate(Tail(cs), Tail(ps))
  {
  }

  lemma OfOne(x: Item)
    ensures ChunksOf([x]) == (if x.ChunkItem? then [x.chunk] else [])
    ensures PagesOf([x]) == (if x.PageItem? then [x.page] else [])
    ensures ChunksOf([]) == [] && PagesOf([]) == []
  {
    assert [x][..0] == [];
  }

  lemma HeadApart(cs: seq<Passage>, ps: seq<PageHit>)
    ensures ChunksOf(Head(cs, ps)) + Tail(cs) == cs
    ensures PagesOf(Head(cs, ps)) + Tail(ps) == ps
  {
    hide ChunksOf, PagesOf;
    var a: seq<Item> := if cs == [] then [] else [ChunkItem(cs[0])];
    var b: seq<Item> := if ps == [] then [] else [PageItem(ps[0])];
    if cs != [] {
      OfOne(ChunkItem(cs[0]));
    }
    if ps != [] {
      OfOne(PageItem(ps[0]));
    }
    NoItems();
    ApartConcat(a, b);
  }

  lemma NoItems()
    ensures ChunksOf([]) == [] && PagesOf([]) == []
  {
  }

  lemma {:induction false} AlternateApart(cs: seq<Passage>, ps: seq<PageHit>)
    ensures ChunksOf(Alternate(cs, ps)) == cs && PagesOf(Alternate(cs, ps)) == ps
    decreases |cs| + |ps|
  {
    if cs != [] || ps != [] {
      AlternateApart(Tail(cs), Tail(ps));
      AlternateStep(cs, ps);
      HeadApart(cs, ps);
      ApartConcat(Head(cs, ps), Alternate(Tail(cs), Tail(ps)));
      hide Alternate, Head, Tail, ChunksOf, PagesOf;
    }
  }

  lemma {:induction false} ApartConcat(a: seq<Item>, b: seq<Item>)
    ensures ChunksOf(a + b) == ChunksOf(a) + ChunksOf(b)
    ensures PagesOf(a + b) == PagesOf(a) + PagesOf(b)
  {
    if b == [] {
      assert a + b == a;
    } else {
      var init, x := b[..|b| - 1], b[|b| - 1];
      ApartConcat(a, init);
      Snoc(a, b);
      ItemsStep(a + init, x);
      ItemsStep(init, x);
      hide ChunksOf, PagesOf;
      if x.ChunkItem? {
        Regroup(ChunksOf(a), ChunksOf(init), [x.chunk]);
      } else {
        Regroup(PagesOf(a), PagesOf(init), [x.page]);
      }
    }
  }

  lemma {:induction false} ItemsLength(s: seq<Candidate>)
    ensures |Items(s)| == |s| && forall i | 0 <= i < |s| :: Items(s)[i] == s[i].item
  {
    if s != [] {
      ItemsLength(s[1..]);
    }
  }

  /** The loop body for one fused item. */
  method TakeItem(before: Assembled, x: Item, allowed: set<nat>, store: Store, budget: nat, maxImages: nat)
    returns (out: Assembled)
    requires before.blocks == Contents(before.packed)
    ensures out == Take(before, x, allowed, store, budget, maxImages)
    ensures out.blocks == Contents(out.packed)
  {
    hide EstimateTokens, BudgetChars, ImageOf, InScope, Contents;
    out := before;
    match x {
      case ChunkItem(item) =>
        if !InScope(item.coll, allowed) {
          out := out.(droppedAcl := out.droppedAcl + 1);
        } else {
          var cost := EstimateTokens(|item.content|);
          if out.tokens + cost > budget {
            if out.packed == [] && item.content != "" {
              var content := if BudgetChars(budget) <= |item.content| then item.content[..BudgetChars(budget)] else item.content;
              ContentsStep([], item.(content := content));
              assert out.packed + [item.(content := content)] == [item.(content := content)];
              assert out.blocks + [content] == [content];
              out := out.(blocks := out.blocks + [content],
                          packed := out.packed + [item.(content := content)],
                          tokens := EstimateTokens(|content|));
            } else {
              out := out.(droppedBudget := out.droppedBudget + 1);
            }
          } else {
            ContentsStep(out.packed, item);
            out := out.(blocks := out.blocks + [item.content],
                        packed := out.packed + [item],
                        tokens := out.tokens + cost);
          }
        }
      case PageItem(item) =>
        if !InScope(item.coll, allowed) {
          out := out.(droppedAcl := out.droppedAcl + 1);
        } else if |out.images| >= maxImages {
          out := out.(droppedBudget := out.droppedBudget + 1);
        } else {
          var image := ImageOf(item, store);
          if image.Some? {
            out := out.(images := out.images + [image.value]);
          }
        }
    }
  }

  /**
   * The assembler as it runs over the fused list. Whatever the damping constant, its
   * result is the simple form: chunks and pages each filtered by access on their own.
   */
  method Assemble(cs: seq<Passage>, ps: seq<PageHit>, allowed: set<nat>, store: Store, budget: nat, maxImages: nat, k: nat)
    returns (out: Assembled)
    ensures out == SimpleForm(cs, ps, allowed, store, budget, maxImages)
    ensures var mine := Allowed(cs, allowed);
            TokenSum(mine) <= budget ==> out.packed == mine && out.tokens == TokenSum(mine)
    ensures |out.blocks| == |out.packed| && forall i | 0 <= i < |out.packed| :: out.blocks[i] == out.packed[i].content
  {
    hide Items, Alternate, ScoredAlternate, Descending, Score;
    out := Assembled([], [], [], 0, 0, 0);
    var fused := Merge(cs, ps, k);
    ghost var items := Items(fused);
    ItemsLength(fused);
    assert out == SimpleForm(ChunksOf([]), PagesOf([]), allowed, store, budget, maxImages);
    assert Contents([]) == [];
    hide SimpleForm, ChunksOf, PagesOf, Contents, Take, TokenSum, Allowed;
    for i := 0 to |fused|
      invariant out == SimpleForm(ChunksOf(items[..i]), PagesOf(items[..i]), allowed, store, budget, maxImages)
      invariant out.blocks == Contents(out.packed)
    {
      TakeKeepsSimpleForm(items[..i], items[i], allowed, store, budget, maxImages);
      assert items[..i + 1] == items[..i] + [items[i]];
      out := TakeItem(out, fused[i].item, allowed, store, budget, maxImages);
    }
    assert items[..|fused|] == items;
    AlternateApart(cs, ps);
    ContentsInOrder(out.packed);
    if TokenSum(Allowed(cs, allowed)) <= budget {
      FormPacksWhatFits(cs, ps, allowed, store, budget, maxImages);
    }
  }

  // ---------------------------------------------------------------- what the result keeps

  /** A text of exactly the characters the budget pays for costs exactly the budget. */
  lemma BudgetCharsCostBudget(budget: nat, length: nat)
    requires budget > 0 && EstimateTokens(length) > budget
    ensures BudgetChars(budget) <= length
    ensures EstimateTokens(BudgetChars(budget)) == budget
  {
  }

  /** The token count is the sum over the blocks and within the budget, always. */
  lemma {:induction false} TokensWithinBudget(cs: seq<Passage>, budget: nat)
    requires budget > 0
    ensures PackAll(cs, budget).tokens == TokenSum(PackAll(cs, budget).packed)
    ensures PackAll(cs, budget).tokens <= budget
  {
    if cs != [] {
      var init, c := cs[..|cs| - 1], cs[|cs| - 1];
      var p, q := PackAll(init, budget), PackOne(PackAll(init, budget), c, budget);
      TokensWithinBudget(init, budget);
      TokenSumStep(p.packed, c);
      if p.packed == [] && EstimateTokens(|c.content|) > budget {
        BudgetCharsCostBudget(budget, |c.content|);
        TokenSumStep([], c.(content := c.content[..BudgetChars(budget)]));
        assert p.tokens == 0;
        hide EstimateTokens, BudgetChars, PackAll;
        assert [] + [c.(content := c.content[..BudgetChars(budget)])] == [c.(content := c.content[..BudgetChars(budget)])];
      }
    }
  }

  lemma TokenSumStep(cs: seq<Passage>, c: Passage)
    ensures TokenSum(cs + [c]) == TokenSum(cs) + EstimateTokens(|c.content|)
    ensures TokenSum([]) == 0
  {
    assert (cs + [c])[..|cs|] == cs;
  }

  /** When the first accessible passage alone exceeds the budget, it is the only block, cut to cost the budget. */
  lemma {:induction false} OversizedFirstBlock(cs: seq<Passage>, budget: nat)
    requires budget > 0 && cs != [] && EstimateTokens(|cs[0].content|) > budget
    ensures BudgetChars(budget) <= |cs[0].content|
    ensures PackAll(cs, budget).packed == [cs[0].(content := cs[0].content[..BudgetChars(budget)])]
    ensures PackAll(cs, budget).tokens == budget
  {
    BudgetCharsCostBudget(budget, |cs[0].content|);
    if |cs| == 1 {
      assert cs[..0] == [];
      assert cs[0].content != "";
    } else {
      OversizedFirstBlock(cs[..|cs| - 1], budget);
      assert EstimateTokens(|cs[|cs| - 1].content|) >= 1;
    }
  }

  /** Same passage, perhaps with shorter content. */
  predicate CutOf(p: Passage, c: Passage) {
    p == c.(content := p.content) && p.content <= c.content
  }

  /** `packed` are, in order and possibly cut, some of `cs`. */
  ghost predicate TakenFrom(packed: seq<Passage>, cs: seq<Passage>) {
    if packed == [] then true
    else if cs == [] then false
    else if CutOf(packed[|packed| - 1], cs[|cs| - 1]) && TakenFrom(packed[..|packed| - 1], cs[..|cs| - 1]) then true
    else TakenFrom(packed, cs[..|cs| - 1])
  }

  lemma {:induction false} PackedAreTaken(cs: seq<Passage>, budget: nat)
    ensures TakenFrom(PackAll(cs, budget).packed, cs)
  {
    if cs != [] {
      var init, c := cs[..|cs| - 1], cs[|cs| - 1];
      PackedAreTaken(init, budget);
      var p := PackAll(init, budget);
      var q := PackOne(p, c, budget);
      hide EstimateTokens, BudgetChars;
      if |q.packed| > |p.packed| {
        assert q.packed[..|q.packed| - 1] == p.packed;
      }
    }
  }

  ghost predicate AllInScope(cs: seq<Passage>, allowed: set<nat>) {
    forall i | 0 <= i < |cs| :: InScope(cs[i].coll, allowed)
  }

  lemma {:induction false} AllowedAreInScope(cs: seq<Passage>, allowed: set<nat>)
    ensures AllInScope(Allowed(cs, allowed), allowed)
  {
    if cs != [] {
      AllowedAreInScope(cs[..|cs| - 1], allowed);
    }
  }

  lemma {:induction false} PackKeepsScope(cs: seq<Passage>, budget: nat, allowed: set<nat>)
    requires AllInScope(cs, allowed)
    ensures AllInScope(PackAll(cs, budget).packed, allowed)
  {
    if cs != [] {
      PackKeepsScope(cs[..|cs| - 1], budget, allowed);
      hide EstimateTokens, BudgetChars;
    }
  }

  /** Only passages of allowed collections are packed. */
  lemma PackedAreInScope(cs: seq<Passage>, budget: nat, allowed: set<nat>)
    ensures AllInScope(PackAll(Allowed(cs, allowed), budget).packed, allowed)
  {
    AllowedAreInScope(cs, allowed);
    PackKeepsScope(Allowed(cs, allowed), budget, allowed);
  }

  /** The passage is one of `cs`, perhaps cut. */
  ghost predicate Among(p: Passage, cs: seq<Passage>) {
    exists j :: 0 <= j < |cs| && CutOf(p, cs[j])
  }

  lemma {:induction false} TakenAreAmong(packed: seq<Passage>, cs: seq<Passage>, allowed: set<nat>, i: nat)
    requires TakenFrom(packed, Allowed(cs, allowed)) && i < |packed|
    ensures Among(packed[i], cs)
  {
    if cs != [] {
      var init, c, ok := cs[..|cs| - 1], cs[|cs| - 1], Allowed(cs, allowed);
      if InScope(c.coll, allowed) {
        assert ok == Allowed(init, allowed) + [c];
        assert ok[|ok| - 1] == c && ok[..|ok| - 1] == Allowed(init, allowed);
        var last := |packed| - 1;
        assert TakenFrom(packed, ok[..|ok| - 1]) || (CutOf(packed[last], ok[|ok| - 1]) && TakenFrom(packed[..last], ok[..|ok| - 1]));
        hide TakenFrom, CutOf, Allowed, InScope;
        if i == last && CutOf(packed[i], c) {
          assert CutOf(packed[i], cs[|cs| - 1]);
        } else if TakenFrom(packed, Allowed(init, allowed)) {
          TakenAreAmong(packed, init, allowed, i);
        } else {
          TakenAreAmong(packed[..last], init, allowed, i);
        }
      } else {
        assert ok == Allowed(init, allowed);
        TakenAreAmong(packed, init, allowed, i);
      }
    }
  }

  lemma {:induction false} DeniedChunkIsInvisible(a: seq<Passage>, c: Passage, b: seq<Passage>, allowed: set<nat>)
    requires !InScope(c.coll, allowed)
    ensures Allowed(a + [c] + b, allowed) == Allowed(a + b, allowed)
  {
    if b == [] {
      AllowedStep(a, c, allowed);
      assert a + [c] + b == a + [c] && a + b == a;
    } else {
      var init, last := b[..|b| - 1], b[|b| - 1];
      hide Allowed, Outside;
      DeniedChunkIsInvisible(a, c, init, allowed);
      AllowedStep(a + [c] + init, last, allowed);
      AllowedStep(a + init, last, allowed);
      Snoc(a + [c], b);
      Snoc(a, b);
    }
  }

  lemma {:induction false} DeniedPageIsInvisible(a: seq<PageHit>, p: PageHit, b: seq<PageHit>, allowed: set<nat>)
    requires !InScope(p.coll, allowed)
    ensures AllowedPages(a + [p] + b, allowed) == AllowedPages(a + b, allowed)
  {
    if b == [] {
      AllowedPagesStep(a, p, allowed);
      assert a + [p] + b == a + [p] && a + b == a;
    } else {
      var init, last := b[..|b| - 1], b[|b| - 1];
      hide AllowedPages, OutsidePages;
      DeniedPageIsInvisible(a, p, init, allowed);
      AllowedPagesStep(a + [p] + init, last, allowed);
      AllowedPagesStep(a + init, last, allowed);
      Snoc(a + [p], b);
      Snoc(a, b);
    }
  }

  /** What the generator sees, without the count of refused items. */
  ghost predicate SameContext(x: Assembled, y: Assembled) {
    x.blocks == y.blocks && x.packed == y.packed && x.images == y.images && x.tokens == y.tokens
    && x.droppedBudget == y.droppedBudget
  }

  /** Inserting an out-of-scope chunk or page anywhere changes nothing the generator sees. */
  lemma OutOfScopeIsInvisible(a: seq<Passage>, c: Passage, b: seq<Passage>, pa: seq<PageHit>, p: PageHit, pb: seq<PageHit>,
                              allowed: set<nat>, store: Store, budget: nat, maxImages: nat)
    requires !InScope(c.coll, allowed) && !InScope(p.coll, allowed)
    ensures SameContext(SimpleForm(a + [c] + b, pa + [p] + pb, allowed, store, budget, maxImages),
                        SimpleForm(a + b, pa + pb, allowed, store, budget, maxImages))
    ensures SameContext(SimpleForm(a + [c] + b, pa, allowed, store, budget, maxImages),
                        SimpleForm(a + b, pa, allowed, store, budget, maxImages))
    ensures SameContext(SimpleForm(a, pa + [p] + pb, allowed, store, budget, maxImages),
                        SimpleForm(a, pa + pb, allowed, store, budget, maxImages))
  {
    DeniedChunkIsInvisible(a, c, b, allowed);
    DeniedPageIsInvisible(pa, p, pb, allowed);
    hide Allowed, AllowedPages, PackAll, FirstImages, SkippedPages, Contents;
  }
}
