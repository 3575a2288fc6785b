/** What the chunk builder's result is: a cut of the elements, bounded, on its pages, named by its captions. */
module ChunkProperties {
  import opened Options
  import opened Text
  import opened Packing
  import opened PageMarks
  import opened Chunker
  import Markdown
  import RowChunks

  // ---------------------------------------------------------------- what the segments are

  function Length(g: Segment): nat {
    if g.Run? then |g.els| else 1
  }

  /** Where segment `k` starts when the first one starts at `a`. */
  function Start(gs: seq<Segment>, a: nat, k: nat): nat
    requires k <= |gs|
  {
    if k == 0 then a else Start(gs, a, k - 1) + Length(gs[k - 1])
  }

  ghost predicate SameSectionText(els: seq<Element>, a: nat, b: nat)
    requires a < b <= |els|
  {
    forall i | a <= i < b :: els[i].kind == TextKind && els[i].section == els[a].section
  }

  /** A visual with its hint, or a run of same-section text that cannot go on, at `p`. */
  ghost predicate IsSegmentAt(g: Segment, els: seq<Element>, p: nat) {
    && p + Length(g) <= |els|
    && match g
       case Visual(el, hint) =>
         && el == els[p] && el.kind != TextKind
         && hint == if p > 0 && els[p - 1].kind == TextKind then CaptionHint(els[p - 1].content) else None
       case Run(run) =>
         && run != [] && run == els[p..p + |run|]
         && SameSectionText(els, p, p + |run|)
         && (p + |run| < |els| ==> els[p + |run|].kind != TextKind || els[p + |run|].section != els[p].section)
  }

  ghost predicate IsCut(gs: seq<Segment>, els: seq<Element>, a: nat) {
    && Start(gs, a, |gs|) == |els|
    && forall k | 0 <= k < |gs| :: IsSegment(gs, els, a, k)
  }

  ghost predicate IsSegment(gs: seq<Segment>, els: seq<Element>, a: nat, k: nat)
    requires k < |gs|
  {
    IsSegmentAt(gs[k], els, Start(gs, a, k))
  }

  lemma {:induction false} RunIsMaximal(els: seq<Element>, a: nat, b: nat)
    requires a < b <= |els| && SameSectionText(els, a, b)
    ensures !Continues(els, a, RunEnd(els, a, b))
    ensures SameSectionText(els, a, RunEnd(els, a, b))
    decreases |els| - b
  {
    if Continues(els, a, b) {
      RunIsMaximal(els, a, b + 1);
    }
  }

  lemma {:induction false} StartShift(g: Segment, gs: seq<Segment>, a: nat, k: nat)
    requires k <= |gs|
    ensures Start([g] + gs, a, k + 1) == Start(gs, a + Length(g), k)
  {
    if k > 0 {
      StartShift(g, gs, a, k - 1);
    }
  }

  lemma CutCons(g: Segment, gs: seq<Segment>, els: seq<Element>, a: nat)
    requires IsSegmentAt(g, els, a) && IsCut(gs, els, a + Length(g))
    ensures IsCut([g] + gs, els, a)
  {
    var all := [g] + gs;
    StartShift(g, gs, a, |gs|);
    assert Start(all, a, 0) == a;
    hide IsSegmentAt, Length, Start;
    forall k | 0 <= k < |all| ensures IsSegment(all, els, a, k) {
      if k > 0 {
        StartShift(g, gs, a, k - 1);
        assert IsSegment(gs, els, a + Length(g), k - 1);
      }
    }
  }

  lemma RunIsSegment(els: seq<Element>, a: nat)
    requires a < |els| && els[a].kind == TextKind
    ensures IsSegmentAt(Run(els[a..RunEnd(els, a, a + 1)]), els, a)
  {
    assert SameSectionText(els, a, a + 1);
    RunIsMaximal(els, a, a + 1);
    hide RunEnd, SameSectionText;
  }

  lemma VisualIsSegment(els: seq<Element>, a: nat)
    requires a < |els| && els[a].kind != TextKind
    ensures IsSegmentAt(Visual(els[a], HintAt(els, a)), els, a)
  {
    hide CaptionHint;
  }

  /** The segments cut the elements into visuals and maximal same-section runs, in order. */
  lemma {:induction false} SegmentsCut(els: seq<Element>, a: nat)
    requires a <= |els|
    ensures IsCut(SegmentsFrom(els, a), els, a)
    decreases |els| - a
  {
    if a == |els| {
      assert SegmentsFrom(els, a) == [] && Start([], a, 0) == a;
    } else {
      hide IsSegmentAt, IsCut, HintAt, RunEnd;
      if els[a].kind == TextKind {
        var b := RunEnd(els, a, a + 1);
        RunIsSegment(els, a);
        SegmentsCut(els, b);
        CutCons(Run(els[a..b]), SegmentsFrom(els, b), els, a);
      } else {
        VisualIsSegment(els, a);
        SegmentsCut(els, a + 1);
        CutCons(Visual(els[a], HintAt(els, a)), SegmentsFrom(els, a + 1), els, a);
      }
    }
  }

  // ---------------------------------------------------------------- sizes

  ghost predicate TextBounded(chunks: seq<Chunk>, l: Limits) {
    forall i | 0 <= i < |chunks| :: chunks[i].kind == TextKind ==> ChunkSize(chunks[i].raw, l)
  }

  lemma {:induction false} TextChunkAt(pieces: seq<string>, marks: seq<Mark>, section: Option<string>, s: Settings, i: nat)
    requires i < |pieces|
    ensures |TextChunks(pieces, marks, section, s)| == |pieces|
    ensures TextChunks(pieces, marks, section, s)[i]
            == TextChunk(pieces[i], PageAt(marks, Consumed(pieces[..i], s)), section)
  {
    hide Consumed, PageAt, TextChunk;
    var init := pieces[..|pieces| - 1];
    if init != [] {
      TextChunkAt(init, marks, section, s, if i < |init| then i else 0);
    }
    assert i < |init| ==> init[..i] == pieces[..i];
  }

  lemma TextRunBounded(run: seq<Element>, s: Settings)
    requires run != [] && s.limits.Valid()
    ensures TextBounded(ChunkTextRun(run, s), s.limits)
  {
    var pieces := Pack(ParagraphsFrom(Join(NormalizedParts(run, s), GAP), 0), s.limits);
    PackSizes(ParagraphsFrom(Join(NormalizedParts(run, s), GAP), 0), s.limits);
    hide Pack, ParagraphsFrom, NormalizedParts, ChunkSize, PageFor, Consumed, PageAt;
    forall i | 0 <= i < |ChunkTextRun(run, s)| ensures ChunkSize(ChunkTextRun(run, s)[i].raw, s.limits) {
      if pieces != [] {
        TextChunkAt(pieces, PageFor(run, s), run[0].section, s, if i < |pieces| then i else 0);
      }
    }
  }

  lemma TableKinds(el: Element, hint: Option<string>, s: Settings)
    ensures forall i | 0 <= i < |ChunkTable(el, hint, s)| :: ChunkTable(el, hint, s)[i].kind == TableKind
  {
    hide Markdown.ToMarkdown, TableSummary, UntabledSummary, RowChunks.ChunksFrom, SerializeRows;
  }

  lemma SegmentBounded(g: Segment, s: Settings)
    requires s.limits.Valid() && (g.Run? ==> g.els != []) && (g.Visual? ==> g.el.kind != TextKind)
    ensures TextBounded(SegmentChunks(g, s), s.limits)
  {
    hide ChunkTextRun, ChunkTable;
    match g
    case Run(els) => TextRunBounded(els, s);
    case Visual(el, hint) => TableKinds(el, hint, s);
  }

  lemma BoundedConcat(a: seq<Chunk>, b: seq<Chunk>, l: Limits)
    requires TextBounded(a, l) && TextBounded(b, l)
    ensures TextBounded(a + b, l)
  {
    hide ChunkSize;
  }

  lemma {:induction false} AllBounded(gs: seq<Segment>, s: Settings)
    requires s.limits.Valid() && NoEmptyRun(gs)
    requires forall i | 0 <= i < |gs| :: gs[i].Visual? ==> gs[i].el.kind != TextKind
    ensures TextBounded(AllChunks(gs, s), s.limits)
  {
    if gs != [] {
      SegmentBounded(gs[0], s);
      AllBounded(gs[1..], s);
      BoundedConcat(SegmentChunks(gs[0], s), AllChunks(gs[1..], s), s.limits);
    }
  }

  /**
   * The builder's result: the chunks, in order, of visuals and maximal same-section
   * runs cut from the elements, numbered from 0, no text chunk longer than a window
   * with its overlap and a blank line, or than 1.2 windows and a blank line.
   */
  lemma ChunksAreCutNumberedAndBounded(els: seq<Element>, s: Settings)
    requires s.limits.Valid()
    ensures IsCut(SegmentsFrom(els, 0), els, 0)
    ensures forall i | 0 <= i < |Chunks(els, s)| ::
              && Chunks(els, s)[i].index == i
              && Chunks(els, s)[i] == AllChunks(SegmentsFrom(els, 0), s)[i].(index := i)
    ensures TextBounded(Chunks(els, s), s.limits)
  {
    var gs := SegmentsFrom(els, 0);
    SegmentsCut(els, 0);
    forall i | 0 <= i < |gs| ensures gs[i].Visual? ==> gs[i].el.kind != TextKind {
      assert IsSegment(gs, els, 0, i);
    }
    AllBounded(gs, s);
    hide AllChunks, SegmentsFrom, ChunkSize, IsCut;
  }

  // ---------------------------------------------------------------- pages

  ghost predicate EachBefore(marks: seq<Mark>, end: nat) {
    forall k | 0 <= k < |marks| :: marks[k].offset < end
  }

  lemma LaidSnoc(marks: seq<Mark>, end: nat, page: Option<int>, length: nat)
    requires Laid(marks) && EachBefore(marks, end) && length > 0 && (marks == [] ==> end == 0)
    ensures Laid(marks + [Mark(end, page)]) && EachBefore(marks + [Mark(end, page)], end + length)
  {
  }

  /** The parts of a run follow one another, each with the page of its element. */
  lemma {:induction false} PartsAreLaid(run: seq<Element>, s: Settings)
    ensures Laid(PageFor(run, s)) && EachBefore(PageFor(run, s), Offset(NormalizedParts(run, s)))
    ensures |PageFor(run, s)| == |NormalizedParts(run, s)|
  {
    if run != [] {
      var init, last := run[..|run| - 1], run[|run| - 1];
      var marks, before, text := PageFor(init, s), NormalizedParts(init, s), s.normalize(last.content);
      PartsAreLaid(init, s);
      if text == "" {
        assert PageFor(run, s) == marks && NormalizedParts(run, s) == before;
      } else {
        LaidSnoc(marks, Offset(before), last.page, |text| + |GAP|);
        assert NormalizedParts(run, s) == before + [text];
        assert (before + [text])[..|before|] == before;
      }
    }
  }

  lemma {:induction false} ConsumedGrows(pieces: seq<string>, s: Settings, i: nat, j: nat)
    requires i <= j <= |pieces|
    ensures Consumed(pieces[..i], s) <= Consumed(pieces[..j], s)
  {
    if i < j {
      ConsumedGrows(pieces, s, i, j - 1);
      assert pieces[..j][..j - 1] == pieces[..j - 1];
    }
  }

  /**
   * With the parts laid out as a run lays them, each text chunk is on the page of the
   * part its window is taken to begin in: the first on that of the first part, and, when
   * the parts come in page order, none before the page of an earlier chunk.
   */
  lemma TextPagesFollowParts(pieces: seq<string>, marks: seq<Mark>, section: Option<string>, s: Settings, i: nat, j: nat)
    requires Laid(marks) && marks != [] && i <= j < |pieces|
    ensures |TextChunks(pieces, marks, section, s)| == |pieces|
    ensures exists k: nat :: FallsTo(marks, Consumed(pieces[..i], s), k) && TextChunks(pieces, marks, section, s)[i].page == marks[k].page
    ensures TextChunks(pieces, marks, section, s)[0].page == marks[0].page
    ensures PagesAscend(marks) ==>
              NotAfter(TextChunks(pieces, marks, section, s)[i].page, TextChunks(pieces, marks, section, s)[j].page)
  {
    hide PageAt, FallsTo, NotAfter, Consumed;
    TextChunkAt(pieces, marks, section, s, 0);
    TextChunkAt(pieces, marks, section, s, i);
    TextChunkAt(pieces, marks, section, s, j);
    ConsumedGrows(pieces, s, i, j);
    FirstPage(marks);
    assert pieces[..0] == [];
    NothingConsumed(s);
    var k := PageIsOfPart(marks, Consumed(pieces[..i], s));
    if PagesAscend(marks) {
      LaterWindowsOnLaterPages(marks, Consumed(pieces[..i], s), Consumed(pieces[..j], s));
    }
  }

  lemma NothingConsumed(s: Settings)
    ensures Consumed([], s) == 0
  {
  }

  /** What the packer cuts a run's text into. */
  function Pieces(run: seq<Element>, s: Settings): seq<string>
    requires s.limits.Valid()
  {
    Pack(ParagraphsFrom(Join(NormalizedParts(run, s), GAP), 0), s.limits)
  }

  lemma NoPartsNoPieces(run: seq<Element>, s: Settings)
    requires s.limits.Valid()
    ensures PageFor(run, s) == [] ==> Pieces(run, s) == []
  {
    PartsAreLaid(run, s);
    if NormalizedParts(run, s) == [] {
      assert Join([], GAP) == "";
      assert ParagraphsFrom("", 0) == [];
      assert Units([], s.limits) == [];
    }
  }

  /** The chunks of a run are its pieces, on the pages its parts were laid out with. */
  lemma RunIsPaged(run: seq<Element>, s: Settings)
    requires run != [] && s.limits.Valid()
    ensures ChunkTextRun(run, s) == TextChunks(Pieces(run, s), PageFor(run, s), run[0].section, s)
  {
    hide Pack, ParagraphsFrom, NormalizedParts, TextChunks, PageFor;
  }

  /** The pages of a run's chunks follow the pages of its elements. */
  ghost predicate FollowsParts(chunks: seq<Chunk>, pieces: seq<string>, marks: seq<Mark>, s: Settings) {
    && |chunks| == |pieces|
    && (forall i | 0 <= i < |chunks| ::
          exists k: nat :: FallsTo(marks, Consumed(pieces[..i], s), k) && chunks[i].page == marks[k].page)
    && (chunks != [] ==> marks != [] && chunks[0].page == marks[0].page)
    && (PagesAscend(marks) ==> forall i, j | 0 <= i <= j < |chunks| :: NotAfter(chunks[i].page, chunks[j].page))
  }

  lemma LaidPagesFollow(pieces: seq<string>, marks: seq<Mark>, section: Option<string>, s: Settings)
    requires Laid(marks) && (marks == [] ==> pieces == [])
    ensures FollowsParts(TextChunks(pieces, marks, section, s), pieces, marks, s)
  {
    var chunks := TextChunks(pieces, marks, section, s);
    hide Consumed, NotAfter, PagesAscend, Laid;
    if pieces != [] {
      TextPagesFollowParts(pieces, marks, section, s, 0, 0);
      hide TextChunks;
      forall i | 0 <= i < |chunks|
        ensures exists k: nat :: FallsTo(marks, Consumed(pieces[..i], s), k) && chunks[i].page == marks[k].page
      {
        TextPagesFollowParts(pieces, marks, section, s, i, i);
      }
      if PagesAscend(marks) {
        forall i, j | 0 <= i <= j < |chunks| ensures NotAfter(chunks[i].page, chunks[j].page) {
          TextPagesFollowParts(pieces, marks, section, s, i, j);
        }
      }
    }
  }

  /** In every run of text each chunk is on the page of the part its window is taken to begin in. */
  lemma RunPagesFollowParts(run: seq<Element>, s: Settings)
    requires run != [] && s.limits.Valid()
    ensures FollowsParts(ChunkTextRun(run, s), Pieces(run, s), PageFor(run, s), s)
  {
    RunIsPaged(run, s);
    PartsAreLaid(run, s);
    NoPartsNoPieces(run, s);
    hide Pieces, ChunkTextRun, PageFor, TextChunks, FollowsParts, Laid;
    LaidPagesFollow(Pieces(run, s), PageFor(run, s), run[0].section, s);
  }

  // ---------------------------------------------------------------- captions

  lemma {:induction false} ContainsMiddle(a: string, part: string, b: string)
    ensures Contains(a + part + b, part)
  {
    if a == "" {
      assert a + part + b == part + b;
    } else {
      ContainsMiddle(a[1..], part, b);
      assert (a + part + b)[1..] == a[1..] + part + b;
    }
  }

  lemma {:induction false} ContainsMore(s: string, part: string, b: string)
    requires Contains(s, part)
    ensures Contains(s + b, part)
  {
    if !(part <= s) {
      ContainsMore(s[1..], part, b);
      assert (s + b)[1..] == s[1..] + b;
    }
  }

  lemma {:induction false} ContainsThrough(s: string, mid: string, part: string)
    requires Contains(s, mid) && Contains(mid, part)
    ensures Contains(s, part)
  {
    if mid <= s {
      ContainsMore(mid, part, s[|mid|..]);
      assert mid + s[|mid|..] == s;
    } else {
      ContainsThrough(s[1..], mid, part);
    }
  }

  lemma {:induction false} JoinContains(parts: seq<string>, i: nat, sep: string)
    requires i < |parts|
    ensures Contains(Join(parts, sep), parts[i])
  {
    hide Contains;
    if |parts| == 1 {
      ContainsMiddle("", parts[0], "");
      assert "" + parts[0] + "" == parts[0];
    } else if i == 0 {
      ContainsMiddle("", parts[0], sep + Join(parts[1..], sep));
      assert "" + parts[0] + (sep + Join(parts[1..], sep)) == Join(parts, sep);
    } else {
      JoinContains(parts[1..], i - 1, sep);
      var rest := Join(parts[1..], sep);
      ContainsMiddle(parts[0] + sep, rest, "");
      assert parts[0] + sep + rest + "" == Join(parts, sep);
      ContainsThrough(Join(parts, sep), rest, parts[i]);
    }
  }

  lemma SummaryNamesHint(t: Markdown.Table, section: Option<string>, hint: string)
    requires Trimmed(hint)
    ensures Contains(TableSummary(t, "", section, Some(hint)), hint)
  {
    StripOfTrimmed(hint);
    hide Contains, Decimal, Filled, Strip;
    var parts := SummaryParts(t, "", section, Some(hint));
    assert parts[1] == "(" + hint + ")";
    hide SummaryParts;
    ContainsMiddle("(", hint, ")");
    JoinContains(parts, 1, " ");
    ContainsThrough(Join(parts, " "), parts[1], hint);
    ContainsMore(Join(parts, " "), hint, ".");
  }

  lemma UntabledNamesHint(section: Option<string>, hint: string)
    ensures Contains(UntabledSummary(section, Some(hint)), hint)
  {
    hide Contains;
    ContainsMiddle("Tabelle (Abschnitt: ", hint, ").");
  }

  lemma WholeTableChunk(el: Element, hint: Option<string>, s: Settings)
    ensures var t := Markdown.Table(el.meta.rows, el.meta.header);
            ChunkTable(el, hint, s)[0].normalized
            == (if t.rows != [] then TableSummary(t, el.meta.caption, el.section, hint) + "\n\n" + Markdown.ToMarkdown(t)
                else UntabledSummary(el.section, hint) + "\n\n" + el.content)
    ensures |ChunkTable(el, hint, s)| > 1 ==> |el.meta.rows| > 0 && |el.meta.rows| > s.rowThreshold
  {
    hide Markdown.ToMarkdown, TableSummary, UntabledSummary, SerializeRows, RowChunks.ChunksFrom;
  }

  lemma RowChunkAt(el: Element, hint: Option<string>, s: Settings, k: nat)
    requires |el.meta.rows| > 0 && |el.meta.rows| > s.rowThreshold && 0 < k < |ChunkTable(el, hint, s)|
    ensures var t := Markdown.Table(el.meta.rows, el.meta.header);
            var rows := RowChunks.ChunksFrom(TableSummary(t, el.meta.caption, el.section, hint),
                                             SerializeRows(t.rows, t.header), s.rowMaxChars, 0);
            |ChunkTable(el, hint, s)| == |rows| + 1 && ChunkTable(el, hint, s)[k] == RowChunkOf(el, rows[k - 1])
  {
    hide Markdown.ToMarkdown, TableSummary, UntabledSummary, SerializeRows, RowChunks.ChunksFrom, RowChunkOf;
  }

  lemma WholeChunkNamesHint(el: Element, hint: string, s: Settings)
    requires Trimmed(hint) && el.meta.caption == ""
    ensures Contains(ChunkTable(el, Some(hint), s)[0].normalized, hint)
  {
    var t := Markdown.Table(el.meta.rows, el.meta.header);
    WholeTableChunk(el, Some(hint), s);
    hide Contains, ChunkTable, TableSummary, UntabledSummary, Markdown.ToMarkdown;
    if t.rows == [] {
      UntabledNamesHint(el.section, hint);
      StillNamesHint(UntabledSummary(el.section, Some(hint)), hint, el.content);
    } else {
      SummaryNamesHint(t, el.section, hint);
      StillNamesHint(TableSummary(t, "", el.section, Some(hint)), hint, Markdown.ToMarkdown(t));
    }
  }

  lemma TableChunksNameHint(el: Element, hint: string, s: Settings, i: nat)
    requires Trimmed(hint) && el.meta.caption == "" && i < |ChunkTable(el, Some(hint), s)|
    ensures Contains(ChunkTable(el, Some(hint), s)[i].normalized, hint)
  {
    WholeChunkNamesHint(el, hint, s);
    if i > 0 {
      WholeTableChunk(el, Some(hint), s);
      RowChunkAt(el, Some(hint), s, i);
      hide Contains, ChunkTable, TableSummary, SerializeRows, RowChunks.ChunksFrom, Trimmed;
      var t := Markdown.Table(el.meta.rows, el.meta.header);
      SummaryNamesHint(t, el.section, hint);
      RowChunkNamesHint(TableSummary(t, "", el.section, Some(hint)), SerializeRows(t.rows, t.header), s.rowMaxChars, hint, i - 1);
    }
  }

  lemma StillNamesHint(summary: string, hint: string, body: string)
    requires Contains(summary, hint)
    ensures Contains(summary + "\n\n" + body, hint)
  {
    ContainsMore(summary, hint, "\n\n" + body);
    Regroup(summary, "\n\n", body);
    hide Contains;
  }

  lemma RowChunkNamesHint(summary: string, lines: seq<string>, maxChars: nat, hint: string, k: nat)
    requires Contains(summary, hint) && k < |RowChunks.ChunksFrom(summary, lines, maxChars, 0)|
    ensures Contains(RowChunks.ChunksFrom(summary, lines, maxChars, 0)[k].body, hint)
  {
    RowChunks.ChunksPartition(summary, lines, maxChars, 0);
    var c := RowChunks.ChunksFrom(summary, lines, maxChars, 0)[k];
    assert RowChunks.Covers(RowChunks.ChunksFrom(summary, lines, maxChars, 0), summary, lines, maxChars, 0, k);
    hide Contains, RowChunks.ChunksFrom, RowChunks.Fits, Join;
    var rows := Join(lines[c.rowFrom - 1..c.rowTo], "\n");
    ContainsMore(summary, hint, "\n" + rows);
    Regroup(summary, "\n", rows);
  }

  lemma FigureNamesHint(el: Element, hint: string, s: Settings)
    requires el.meta.caption == ""
    ensures var c := VisualChunk(el, Some(hint), s);
            && Contains(c.normalized, hint)
            && (c.normalized == PlainText(el, s) || c.normalized == hint + "\n\n" + PlainText(el, s))
  {
    var text := PlainText(el, s);
    hide Contains, PlainText;
    ContainsMiddle("", hint, "\n\n" + text);
    assert "" + hint + ("\n\n" + text) == hint + "\n\n" + text;
  }

  /**
   * The line above a visual without a caption of its own can be found in every chunk
   * made of it: in the Markdown chunk and each row chunk of a table, and in the text of
   * a figure, which otherwise is its own text.
   */
  lemma VisualNamesItsCaption(el: Element, above: string, s: Settings, i: nat)
    requires CaptionHint(above).Some? && el.meta.caption == ""
    requires i < |VisualChunks(el, CaptionHint(above), s)|
    ensures var c, hint := VisualChunks(el, CaptionHint(above), s)[i], CaptionHint(above).value;
            && Contains(c.normalized, hint)
            && 0 < |hint| <= CAPTION_HINT_MAX
            && (el.kind != TableKind ==>
                  && c.raw == el.content && c.kind == el.kind
                  && (c.normalized == PlainText(el, s) || c.normalized == hint + "\n\n" + PlainText(el, s)))
  {
    var hint := CaptionHint(above).value;
    assert Trimmed(hint) && 0 < |hint| <= CAPTION_HINT_MAX;
    hide ChunkTable, CaptionHint, Contains, PlainText;
    if el.kind == TableKind {
      TableChunksNameHint(el, hint, s, i);
    } else {
      FigureNamesHint(el, hint, s);
      hide VisualChunk;
    }
  }
}
