/** What the chunks say: the paragraphs of a run, the line above a visual, and the rows of a table. */
module ChunkContents {
  import opened Options
  import opened Text
  import opened Packing
  import opened PageMarks
  import opened Chunker
  import opened ChunkProperties
  import Markdown
  import RowChunks

  // ---------------------------------------------------------------- paragraphs

  /** The characters of a text that are not white space. */
  function Visible(s: string): string {
    if s == "" then "" else (if IsSpace(s[0]) then "" else [s[0]]) + Visible(s[1..])
  }

  function VisibleOf(pieces: seq<string>): string {
    if pieces == [] then "" else Visible(pieces[0]) + VisibleOf(pieces[1..])
  }

  lemma VisibleStep(s: string)
    ensures s != "" ==> Visible(s) == (if IsSpace(s[0]) then "" else [s[0]]) + Visible(s[1..])
    ensures Visible("") == ""
  {
  }

  lemma {:induction false} VisibleConcat(a: string, b: string)
    ensures Visible(a + b) == Visible(a) + Visible(b)
  {
    hide Visible, IsSpace;
    VisibleStep(a);
    if a == "" {
      assert a + b == b;
    } else {
      VisibleConcat(a[1..], b);
      VisibleStep(a + b);
      assert (a + b)[1..] == a[1..] + b;
    }
  }

  lemma {:induction false} BlankIsInvisible(s: string)
    requires Blank(s)
    ensures Visible(s) == ""
  {
    if s != "" {
      BlankIsInvisible(s[1..]);
    }
  }

  lemma StripKeepsVisible(s: string)
    ensures Visible(Strip(s)) == Visible(s)
  {
    var a, b := StripSplits(s);
    var r := Strip(s);
    hide Visible, Strip;
    BlankIsInvisible(a);
    BlankIsInvisible(b);
    VisibleConcat(a + r, b);
    VisibleConcat(a, r);
  }

  lemma VisibleAcrossGap(a: string, b: string)
    ensures Visible(a + GAP + b) == Visible(a) + Visible(b)
  {
    BlankIsInvisible(GAP);
    VisibleConcat(a + GAP, b);
    VisibleConcat(a, GAP);
    hide Visible;
  }

  lemma CutAtGap(text: string, from: nat, i: nat)
    requires from <= i && BlankLineAt(text, i)
    ensures text[from..] == text[from..i] + GAP + text[i + 2..]
  {
    assert text[i..i + 2] == GAP;
  }

  /** The paragraphs of a text, in order, hold every visible character of it, and no other. */
  lemma {:induction false} ParagraphsHoldTheText(text: string, from: nat)
    requires from <= |text|
    ensures VisibleOf(ParagraphsFrom(text, from)) == Visible(text[from..])
    decreases |text| - from
  {
    hide Visible, VisibleOf, Strip, FirstBlankLine, Keep, BlankLineAt;
    var i := FirstBlankLine(text, from);
    var piece := Strip(text[from..i]);
    StripKeepsVisible(text[from..i]);
    if i == |text| {
      assert text[from..i] == text[from..];
      KeptVisible(piece, []);
    } else {
      ParagraphsHoldTheText(text, i + 2);
      FirstBlankLineIsFirst(text, from);
      CutAtGap(text, from, i);
      VisibleAcrossGap(text[from..i], text[i + 2..]);
      KeptVisible(piece, ParagraphsFrom(text, i + 2));
    }
  }

  lemma KeptVisible(piece: string, rest: seq<string>)
    ensures VisibleOf(Keep(piece, rest)) == Visible(piece) + VisibleOf(rest)
    ensures VisibleOf([]) == ""
  {
    if piece != "" {
      assert ([piece] + rest)[1..] == rest;
    }
  }

  /** `text.split("\n\n")`: the pieces joined by blank lines are the text, and each ends at the first one in it. */
  ghost predicate IsSplit(pieces: seq<string>, text: string) {
    && pieces != [] && Join(pieces, GAP) == text
    && forall k | 0 <= k < |pieces| :: EndsAtFirst(pieces, k)
  }

  ghost predicate EndsAtFirst(pieces: seq<string>, k: nat)
    requires k < |pieces|
  {
    NoneBefore(if k < |pieces| - 1 then pieces[k] + GAP else pieces[k], |pieces[k]|)
  }

  /** No blank line begins in the first `n` characters. */
  predicate NoneBefore(s: string, n: nat) {
    forall j: nat | j < n :: !BlankLineAt(s, j)
  }

  /** Each piece stripped, and the empty ones dropped. */
  function Stripped(pieces: seq<string>): seq<string> {
    if pieces == [] then []
    else (if Blank(pieces[0]) then [] else [Strip(pieces[0])]) + Stripped(pieces[1..])
  }

  lemma SplitCons(piece: string, rest: seq<string>, text: string)
    requires IsSplit(rest, text) && NoneBefore(piece + GAP, |piece|)
    ensures IsSplit([piece] + rest, piece + GAP + text)
  {
    hide NoneBefore;
    var all := [piece] + rest;
    assert all[1..] == rest;
    forall k | 0 <= k < |all| ensures EndsAtFirst(all, k) {
      if k > 0 {
        assert EndsAtFirst(rest, k - 1) && all[k] == rest[k - 1];
        assert k < |all| - 1 <==> k - 1 < |rest| - 1;
      } else {
        assert 0 < |all| - 1 && all[0] == piece;
      }
    }
  }

  lemma NoGapBefore(text: string, from: nat, i: nat)
    requires from <= i <= |text| && forall j: nat | from <= j < i :: !BlankLineAt(text, j)
    ensures NoneBefore(text[from..i], i - from)
    ensures BlankLineAt(text, i) ==> NoneBefore(text[from..i] + GAP, i - from)
  {
    var piece := text[from..i];
    forall j: nat | j < |piece|
      ensures !BlankLineAt(piece, j) && (BlankLineAt(text, i) ==> !BlankLineAt(piece + GAP, j))
    {
      assert !BlankLineAt(text, from + j);
      if BlankLineAt(text, i) {
        assert (piece + GAP)[j] == text[from + j] && (piece + GAP)[j + 1] == text[from + j + 1];
      }
    }
  }

  lemma LastPiece(piece: string)
    requires NoneBefore(piece, |piece|)
    ensures IsSplit([piece], piece)
  {
    assert EndsAtFirst([piece], 0);
  }

  lemma StrippedCons(piece: string, rest: seq<string>)
    ensures Stripped([piece] + rest) == Keep(Strip(piece), Stripped(rest))
    ensures Stripped([]) == []
  {
    assert ([piece] + rest)[1..] == rest;
  }

  /** The paragraphs are the stripped pieces of the text between its blank lines. */
  lemma {:induction false} ParagraphsAreStripped(text: string, from: nat) returns (pieces: seq<string>)
    requires from <= |text|
    ensures IsSplit(pieces, text[from..]) && ParagraphsFrom(text, from) == Stripped(pieces)
    decreases |text| - from
  {
    hide Strip, FirstBlankLine, IsSplit, NoneBefore, Stripped, Keep;
    var i := FirstBlankLine(text, from);
    FirstBlankLineIsFirst(text, from);
    NoGapBefore(text, from, i);
    var piece := text[from..i];
    if i == |text| {
      pieces := [piece];
      LastPiece(piece);
      assert piece == text[from..] && [piece] + [] == [piece];
      StrippedCons(piece, []);
    } else {
      var rest := ParagraphsAreStripped(text, i + 2);
      CutAtGap(text, from, i);
      SplitCons(piece, rest, text[i + 2..]);
      StrippedCons(piece, rest);
      pieces := [piece] + rest;
    }
  }

  // ---------------------------------------------------------------- the parts of a run

  /** A run's text is the normalized contents of its elements, in order, without the empty ones. */
  lemma {:induction false} PartsInOrder(a: seq<Element>, b: seq<Element>, el: Element, s: Settings)
    ensures NormalizedParts(a + b, s) == NormalizedParts(a, s) + NormalizedParts(b, s)
    ensures NormalizedParts([el], s) == if s.normalize(el.content) == "" then [] else [s.normalize(el.content)]
    ensures NormalizedParts([], s) == []
  {
    assert [el][..0] == [];
    if b == [] {
      assert a + b == a;
    } else {
      PartsInOrder(a, b[..|b| - 1], el, s);
      assert (a + b)[..|a + b| - 1] == a + b[..|b| - 1];
    }
  }

  /** Each piece uses up its length less what counts as repeated, but at least one character. */
  lemma PiecesUseUp(pieces: seq<string>, piece: string, s: Settings)
    ensures var rest := |piece| - s.repeated(|piece|);
            Consumed(pieces + [piece], s) == Consumed(pieces, s) + (if rest > 1 then rest else 1)
  {
    assert (pieces + [piece])[..|pieces|] == pieces;
  }

  /** The chunks of the segments follow one another in the order of the segments. */
  lemma {:induction false} ChunksInOrder(a: seq<Segment>, b: seq<Segment>, s: Settings)
    requires s.limits.Valid() && NoEmptyRun(a) && NoEmptyRun(b)
    ensures AllChunks(a + b, s) == AllChunks(a, s) + AllChunks(b, s)
    ensures |b| == 1 ==> AllChunks(b, s) == SegmentChunks(b[0], s)
    ensures AllChunks([], s) == []
  {
    hide SegmentChunks;
    if a == [] {
      assert a + b == b;
    } else {
      ChunksInOrder(a[1..], b, s);
      assert (a + b)[1..] == a[1..] + b;
    }
    if |b| == 1 {
      assert b[1..] == [];
    }
  }

  /** The chunks of a run of text are the packer's pieces, word for word, under the section of the run. */
  lemma RunChunksAreItsPieces(run: seq<Element>, s: Settings, i: nat)
    requires run != [] && s.limits.Valid()
    ensures |ChunkTextRun(run, s)| == |Pieces(run, s)|
    ensures i < |Pieces(run, s)| ==>
              var c := ChunkTextRun(run, s)[i];
              && c.kind == TextKind && c.raw == c.normalized == Pieces(run, s)[i]
              && c.section == run[0].section && c.origin == NoOrigin
  {
    RunIsPaged(run, s);
    var pieces := Pieces(run, s);
    hide Pieces, ChunkTextRun, PageFor, TextChunks, Consumed, PageAt;
    if pieces == [] {
      NoTextChunks(PageFor(run, s), run[0].section, s);
    } else {
      TextChunkAt(pieces, PageFor(run, s), run[0].section, s, if i < |pieces| then i else 0);
    }
  }

  lemma NoTextChunks(marks: seq<Mark>, section: Option<string>, s: Settings)
    ensures TextChunks([], marks, section, s) == []
  {
  }

  // ---------------------------------------------------------------- the line above a visual

  /**
   * A figure keeps its content and place; its text is led by the line above only if it has
   * no caption and does not hold that line.
   */
  lemma FigureKeepsItsText(el: Element, hint: Option<string>, s: Settings)
    ensures var c, text := VisualChunk(el, hint, s), s.normalize(el.content);
            var plain := if text == "" then el.content else text;
            && c.kind == el.kind && c.raw == el.content && c.page == el.page && c.section == el.section
            && c.origin == Whole(el.meta, el.bbox)
            && (hint == None || el.meta.caption != "" || Contains(plain, hint.value) ==> c.normalized == plain)
            && (hint.Some? && el.meta.caption == "" && !Contains(plain, hint.value) ==>
                  c.normalized == hint.value + "\n\n" + plain)
  {
    hide Contains;
  }

  predicate OneLine(s: string) {
    forall i | 0 <= i < |s| :: !IsLineEnd(s[i])
  }

  lemma {:induction false} FirstLineSplits(s: string) returns (rest: string)
    ensures s == FirstLine(s) + rest && OneLine(FirstLine(s)) && (rest == "" || IsLineEnd(rest[0]))
  {
    if s == "" || IsLineEnd(s[0]) {
      rest := s;
    } else {
      rest := FirstLineSplits(s[1..]);
    }
  }

  lemma WithinLine(a: string, l: string, b: string)
    requires OneLine(a + l + b)
    ensures OneLine(l) && OneLine(b)
  {
    forall i | 0 <= i < |l| ensures !IsLineEnd(l[i]) {
      assert (a + l + b)[|a| + i] == l[i];
    }
    forall i | 0 <= i < |b| ensures !IsLineEnd(b[i]) {
      assert (a + l + b)[|a + l| + i] == b[i];
    }
  }

  /**
   * What names a visual is the first line of the text above that is not blank, trimmed, as
   * long as it has at most 160 characters: nothing visible is before it, and after it the
   * line ends or the text does.
   */
  lemma HintIsTheFirstLine(content: string) returns (a: string, line: string, b: string, rest: string)
    requires !Blank(content)
    ensures content == a + line + b + rest
    ensures Blank(a) && line != "" && Trimmed(line) && OneLine(line) && Blank(b) && OneLine(b)
    ensures Blank(rest) || IsLineEnd(rest[0])
    ensures CaptionHint(content) == if |line| <= 160 then Some(line) else None
  {
    var t := Strip(content);
    var before, after := StripSplits(content);
    var more := FirstLineSplits(t);
    var first := FirstLine(t);
    FirstIsVisible(t, first, more);
    var left, right := StripSplits(first);
    line := Strip(first);
    hide Strip, FirstLine;
    assert first == left + line + right;
    WithinLine(left, line, right);
    a, b, rest := before + left, right, more + after;
    hide IsSpace, Trimmed, OneLine, IsLineEnd;
    Regroup6(before, left, line, right, more, after);
    BlankConcat(before, left);
    if more == "" {
      assert rest == after;
    } else {
      assert rest[0] == more[0];
    }
  }

  lemma Regroup6(a: string, b: string, c: string, d: string, e: string, f: string)
    ensures a + (b + c + d + e) + f == (a + b) + c + d + (e + f)
  {
  }

  lemma BlankConcat(a: string, b: string)
    requires Blank(a) && Blank(b)
    ensures Blank(a + b)
  {
  }

  lemma FirstIsVisible(t: string, first: string, more: string)
    requires t != "" && Trimmed(t) && t == first + more && (more == "" || IsLineEnd(more[0]))
    ensures !Blank(first)
  {
    assert more != "" ==> IsSpace(more[0]);
    assert first != "";
    assert first[0] == t[0];
  }

  lemma BlankTextNamesNothing(content: string)
    requires Blank(content)
    ensures CaptionHint(content) == None
  {
    assert Strip(content) == "";
    assert FirstLine("") == "" && Strip("") == "";
  }

  // ---------------------------------------------------------------- the rows of a table

  /** Columns of a row, in order. */
  ghost predicate IsSelection(kept: seq<nat>, length: nat) {
    && (forall k | 0 <= k < |kept| :: kept[k] < length)
    && forall i, j | 0 <= i < j < |kept| :: kept[i] < kept[j]
  }

  /** `column=cell`, with the default name where the header is too short. */
  function NamedCell(row: seq<string>, header: seq<string>, i: nat): string
    requires i < |row|
  {
    Strip(if i < |header| then header[i] else "Spalte" + Decimal(i + 1)) + "=" + Strip(row[i])
  }

  /** The columns from `from` on whose cells are not blank, in order. */
  ghost predicate AreTheCells(kept: seq<nat>, row: seq<string>, from: nat) {
    IsSelection(kept, |row|) && forall i: nat | i < |row| :: i in kept <==> from <= i && !Blank(row[i])
  }

  lemma NoCellsLeft(row: seq<string>)
    ensures AreTheCells([], row, |row|)
  {
  }

  lemma CellSkipped(kept: seq<nat>, row: seq<string>, from: nat)
    requires from < |row| && AreTheCells(kept, row, from + 1) && Blank(row[from])
    ensures AreTheCells(kept, row, from)
  {
    hide Blank;
  }

  lemma CellKept(kept: seq<nat>, row: seq<string>, from: nat)
    requires from < |row| && AreTheCells(kept, row, from + 1) && !Blank(row[from])
    ensures AreTheCells([from] + kept, row, from)
  {
    hide Blank;
    forall k | 0 <= k < |kept| ensures from < kept[k] {
      assert kept[k] in kept;
    }
  }

  /** A row line names exactly the cells that are not blank, in order. */
  lemma {:induction false} RowNamesItsCells(row: seq<string>, header: seq<string>, from: nat) returns (kept: seq<nat>)
    requires from <= |row|
    ensures AreTheCells(kept, row, from)
    ensures NamesCells(FilledCells(row, header, from), row, header, kept)
    decreases |row| - from
  {
    if from == |row| {
      kept := [];
      NoCellsLeft(row);
      assert FilledCells(row, header, from) == [];
    } else {
      hide Blank, FilledCells, AreTheCells, Strip, NamesCells;
      kept := RowNamesItsCells(row, header, from + 1);
      assert Strip(row[from]) == "" <==> Blank(row[from]);
      if Strip(row[from]) == "" {
        CellIsLeftOut(row, header, from);
        CellSkipped(kept, row, from);
      } else {
        CellIsNamed(row, header, from);
        CellKept(kept, row, from);
        NamesOneMore(FilledCells(row, header, from + 1), row, header, kept, from);
        kept := [from] + kept;
      }
    }
  }

  /** The texts are `column=cell` for the kept columns of the row. */
  ghost predicate NamesCells(texts: seq<string>, row: seq<string>, header: seq<string>, kept: seq<nat>) {
    && |texts| == |kept|
    && forall k | 0 <= k < |kept| :: kept[k] < |row| && texts[k] == NamedCell(row, header, kept[k])
  }

  lemma NamesOneMore(texts: seq<string>, row: seq<string>, header: seq<string>, kept: seq<nat>, from: nat)
    requires NamesCells(texts, row, header, kept) && from < |row|
    ensures NamesCells([NamedCell(row, header, from)] + texts, row, header, [from] + kept)
  {
    hide NamedCell;
  }

  lemma CellIsLeftOut(row: seq<string>, header: seq<string>, from: nat)
    requires from < |row| && Strip(row[from]) == ""
    ensures FilledCells(row, header, from) == FilledCells(row, header, from + 1)
  {
  }

  lemma CellIsNamed(row: seq<string>, header: seq<string>, from: nat)
    requires from < |row| && Strip(row[from]) != ""
    ensures FilledCells(row, header, from) == [NamedCell(row, header, from)] + FilledCells(row, header, from + 1)
  {
  }

  /** The rows are serialized one line each, numbered from 1. */
  lemma {:induction false} LinesAreNumbered(rows: seq<seq<string>>, header: seq<string>)
    ensures |SerializeRows(rows, header)| == |rows|
    ensures forall i | 0 <= i < |rows| ::
              SerializeRows(rows, header)[i] == "Zeile " + Decimal(i + 1) + ": " + Join(FilledCells(rows[i], header, 0), ", ")
  {
    hide Decimal, Join, FilledCells;
    if rows != [] {
      LinesAreNumbered(rows[..|rows| - 1], header);
    }
  }

  // ---------------------------------------------------------------- the chunks of a table

  /** Everything the parser said of a table but its rows and header. */
  ghost predicate CarriesMeta(m: Meta, el: Element) {
    m.rows == [] && m.header == [] && m.caption == el.meta.caption && m.rest == el.meta.rest
  }

  /** A table gives one chunk of its summary and its Markdown, or its content when it has no rows. */
  lemma FirstTableChunk(el: Element, hint: Option<string>, s: Settings)
    ensures var cs, t := ChunkTable(el, hint, s), Markdown.Table(el.meta.rows, el.meta.header);
            && cs != [] && cs[0].origin.MarkdownTable? && CarriesMeta(cs[0].origin.meta, el)
            && (t.rows == [] ==> cs[0].raw == UntabledSummary(el.section, hint) + "\n\n" + el.content)
            && (t.rows != [] ==>
                  cs[0].raw == TableSummary(t, el.meta.caption, el.section, hint) + "\n\n" + Markdown.ToMarkdown(t))
            && (|t.rows| <= s.rowThreshold ==> |cs| == 1)
            && forall k | 0 <= k < |cs| :: cs[k].normalized == cs[k].raw && cs[k].page == el.page && cs[k].section == el.section
  {
    hide Markdown.ToMarkdown, TableSummary, UntabledSummary, SerializeRows, RowChunks.ChunksFrom;
  }

  function SummaryOf(el: Element, hint: Option<string>): string {
    TableSummary(Markdown.Table(el.meta.rows, el.meta.header), el.meta.caption, el.section, hint)
  }

  /** A chunk of the summary and some rows of the table, from `first` on. */
  ghost predicate HoldsRows(c: Chunk, el: Element, hint: Option<string>, first: nat) {
    && c.origin.RowRange? && CarriesMeta(c.origin.meta, el)
    && 1 <= first == c.origin.rowFrom <= c.origin.rowTo <= |el.meta.rows|
    && c.raw == SummaryOf(el, hint) + "\n" + Join(LinesBetween(el, c.origin.rowFrom - 1, c.origin.rowTo), "\n")
  }

  /** The packed ranges of a table's rows. */
  function Ranges(el: Element, hint: Option<string>, s: Settings): seq<RowChunks.RowChunk> {
    RowChunks.ChunksFrom(SummaryOf(el, hint), SerializeRows(el.meta.rows, el.meta.header), s.rowMaxChars, 0)
  }

  lemma TableOfRanges(el: Element, hint: Option<string>, s: Settings)
    requires |el.meta.rows| > 0 && |el.meta.rows| > s.rowThreshold
    ensures var cs, rows := ChunkTable(el, hint, s), Ranges(el, hint, s);
            |cs| == 1 + |rows| && forall k | 0 <= k < |rows| :: cs[k + 1] == RowChunkOf(el, rows[k])
  {
    hide Markdown.ToMarkdown, TableSummary, UntabledSummary, SerializeRows, RowChunks.ChunksFrom, RowChunkOf;
  }

  lemma RangeHoldsRows(el: Element, hint: Option<string>, s: Settings, k: nat)
    requires k < |Ranges(el, hint, s)|
    ensures var rows := Ranges(el, hint, s);
            && HoldsRows(RowChunkOf(el, rows[k]), el, hint, if k == 0 then 1 else rows[k - 1].rowTo + 1)
            && (k == |rows| - 1 ==> rows[k].rowTo == |el.meta.rows|)
  {
    var summary, lines := SummaryOf(el, hint), SerializeRows(el.meta.rows, el.meta.header);
    LinesAreNumbered(el.meta.rows, el.meta.header);
    RowChunks.ChunksPartition(summary, lines, s.rowMaxChars, 0);
    assert RowChunks.Covers(Ranges(el, hint, s), summary, lines, s.rowMaxChars, 0, k);
    hide SerializeRows, RowChunks.ChunksFrom, SummaryOf, Join, RowChunks.Fits, Decimal, Ranges;
  }

  lemma SomeRange(el: Element, hint: Option<string>, s: Settings)
    requires |el.meta.rows| > 0
    ensures Ranges(el, hint, s) != []
  {
    LinesAreNumbered(el.meta.rows, el.meta.header);
    RowChunks.ChunksPartition(SummaryOf(el, hint), SerializeRows(el.meta.rows, el.meta.header), s.rowMaxChars, 0);
    hide SerializeRows, RowChunks.ChunksFrom, SummaryOf;
  }

  lemma LastRowOf(el: Element, c: RowChunks.RowChunk)
    ensures LastRow(RowChunkOf(el, c)) == c.rowTo
  {
  }

  lemma RowChunkHolds(el: Element, hint: Option<string>, s: Settings, k: nat)
    requires |el.meta.rows| > 0 && |el.meta.rows| > s.rowThreshold && 0 < k < |ChunkTable(el, hint, s)|
    ensures var cs := ChunkTable(el, hint, s); HoldsRows(cs[k], el, hint, if k == 1 then 1 else LastRow(cs[k - 1]) + 1)
  {
    hide *;
    var cs, rows := ChunkTable(el, hint, s), Ranges(el, hint, s);
    TableOfRanges(el, hint, s);
    assert cs[(k - 1) + 1] == RowChunkOf(el, rows[k - 1]);
    RangeHoldsRows(el, hint, s, k - 1);
    if k > 1 {
      assert cs[(k - 2) + 1] == RowChunkOf(el, rows[k - 2]);
      LastRowOf(el, rows[k - 2]);
    }
  }

  /** The row after the last one of the chunk before. */
  function FirstRow(cs: seq<Chunk>, k: nat): nat
    requires k <= |cs|
  {
    if k <= 1 then 1 else LastRow(cs[k - 1]) + 1
  }

  /**
   * A table has row chunks exactly when it has more rows than the threshold: consecutive
   * ranges that begin at row 1 and end at the last, each of the summary and its rows.
   */
  lemma RowChunksOfTable(el: Element, hint: Option<string>, s: Settings)
    requires |el.meta.rows| > 0 && |el.meta.rows| > s.rowThreshold
    ensures var cs := ChunkTable(el, hint, s);
            && |cs| > 1 && LastRow(cs[|cs| - 1]) == |el.meta.rows|
            && forall k | 0 < k < |cs| :: HoldsRows(cs[k], el, hint, FirstRow(cs, k))
  {
    var cs, rows := ChunkTable(el, hint, s), Ranges(el, hint, s);
    hide ChunkTable, HoldsRows, LastRow, Ranges, RowChunkOf;
    TableOfRanges(el, hint, s);
    SomeRange(el, hint, s);
    RangeHoldsRows(el, hint, s, |rows| - 1);
    LastRowOf(el, rows[|rows| - 1]);
    assert cs[(|rows| - 1) + 1] == RowChunkOf(el, rows[|rows| - 1]);
    forall k | 0 < k < |cs| ensures HoldsRows(cs[k], el, hint, FirstRow(cs, k)) {
      RowChunkHolds(el, hint, s, k);
    }
  }

  /** The serialized rows from `a` up to `b`. */
  function LinesBetween(el: Element, a: nat, b: nat): seq<string> {
    var lines := SerializeRows(el.meta.rows, el.meta.header);
    if a <= b <= |lines| then lines[a..b] else []
  }

  function LastRow(c: Chunk): nat {
    if c.origin.RowRange? then c.origin.rowTo else 0
  }

  /**
   * The summary of a table counts its rows and columns and names it by its own caption, or
   * else by the line above it, or else by its section.
   */
  lemma SummaryNamesTable(t: Markdown.Table, caption: string, section: Option<string>, hint: Option<string>)
    ensures var summary := TableSummary(t, caption, section, hint);
            && ("Tabelle mit " + Decimal(|t.rows|) + " Zeilen und " + Decimal(t.Cols()) + " Spalten") <= summary
            && (caption != "" ==> Contains(summary, "(" + Strip(caption) + ")"))
            && (caption == "" && hint.Some? ==> Contains(summary, "(" + Strip(hint.value) + ")"))
            && (caption == "" && hint.None? && section.Some? && section.value != "" ==>
                  Contains(summary, "(Abschnitt: " + Strip(section.value) + ")"))
            && (t.header != [] ==> Contains(summary, "— Spalten: " + Join(Filled(t.header), ", ")))
            && (caption != "" ==> summary == TableSummary(t, caption, None, None))
            && (caption == "" && hint.Some? ==> summary == TableSummary(t, "", None, hint))
  {
    var parts := SummaryParts(t, caption, section, hint);
    hide Contains, Decimal, Filled, Strip, Join, Markdown.Table.Cols;
    PartContained(parts, 0);
    StartsWithFirst(parts);
    if caption != "" || hint.Some? || (section.Some? && section.value != "") {
      PartContained(parts, 1);
    }
    if t.header != [] {
      PartContained(parts, |parts| - 1);
    }
  }

  lemma PartContained(parts: seq<string>, i: nat)
    requires i < |parts|
    ensures Contains(Join(parts, " ") + ".", parts[i])
  {
    JoinContains(parts, i, " ");
    ContainsMore(Join(parts, " "), parts[i], ".");
  }

  lemma StartsWithFirst(parts: seq<string>)
    requires parts != []
    ensures parts[0] <= Join(parts, " ") + "."
  {
  }
}
