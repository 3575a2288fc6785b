/**
 * The chunk builder: same-section runs of text are packed into windows, tables
 * and visual elements become chunks of their own, and all are numbered in order.
 */
module Chunker {
  import opened Options
  import opened Text
  import opened Packing
  import opened PageMarks
  import Markdown
  import RowChunks

  datatype Kind = TextKind | TableKind | Image | Chart | Diagram | Form | Ocr

  datatype Box = Box(x0: real, y0: real, x1: real, y1: real)

  /** A parser's metadata; absent and empty rows, header and caption read the same. */
  datatype Meta = Meta(rows: seq<seq<string>>, header: seq<string>, caption: string, rest: map<string, string>)

  datatype Element = Element(kind: Kind, content: string, page: Option<int>, section: Option<string>,
                             bbox: Option<Box>, meta: Meta)

  datatype Origin =
    | NoOrigin
    | Whole(meta: Meta, bbox: Option<Box>)
    | MarkdownTable(meta: Meta, bbox: Option<Box>)
    | RowRange(meta: Meta, bbox: Option<Box>, rowFrom: nat, rowTo: nat)

  datatype Chunk = Chunk(kind: Kind, raw: string, normalized: string, index: nat, page: Option<int>,
                         section: Option<string>, origin: Origin)

  /**
   * Settings of the chunker, the text normalizer it calls, and how many characters of a
   * piece of a given length count as repeated (the overlap ratio of it, cut to a whole number).
   */
  datatype Settings = Settings(limits: Limits, rowThreshold: nat, rowMaxChars: nat, normalize: string -> string,
                               repeated: nat -> nat)

  const CAPTION_HINT_MAX := 160

  // ---------------------------------------------------------------- tables

  function FilledCells(row: seq<string>, header: seq<string>, from: nat): seq<string>
    requires from <= |row|
    decreases |row| - from
  {
    if from == |row| then []
    else if Strip(row[from]) == "" then FilledCells(row, header, from + 1)
    else
      var column := if from < |header| then header[from] else "Spalte" + Decimal(from + 1);
      [Strip(column) + "=" + Strip(row[from])] + FilledCells(row, header, from + 1)
  }

  function SerializeRow(row: seq<string>, header: seq<string>, rowNo: nat): string {
    "Zeile " + Decimal(rowNo) + ": " + Join(FilledCells(row, header, 0), ", ")
  }

  function SerializeRows(rows: seq<seq<string>>, header: seq<string>): seq<string> {
    if rows == [] then []
    else SerializeRows(rows[..|rows| - 1], header) + [SerializeRow(rows[|rows| - 1], header, |rows|)]
  }

  function Filled(names: seq<string>): seq<string> {
    if names == [] then []
    else Filled(names[..|names| - 1]) + (if Strip(names[|names| - 1]) == "" then [] else [Strip(names[|names| - 1])])
  }

  function SummaryParts(t: Markdown.Table, caption: string, section: Option<string>, hint: Option<string>): seq<string> {
    var about :=
      if caption != "" then ["(" + Strip(caption) + ")"]
      else if hint.Some? then ["(" + Strip(hint.value) + ")"]
      else if section.Some? && section.value != "" then ["(Abschnitt: " + Strip(section.value) + ")"]
      else [];
    var columns := if t.header == [] then [] else ["— Spalten: " + Join(Filled(t.header), ", ")];
    var size := "Tabelle mit " + Decimal(|t.rows|) + " Zeilen und " + Decimal(t.Cols()) + " Spalten";
    [size] + about + columns
  }

  function TableSummary(t: Markdown.Table, caption: string, section: Option<string>, hint: Option<string>): string {
    Join(SummaryParts(t, caption, section, hint), " ") + "."
  }

  function UntabledSummary(section: Option<string>, hint: Option<string>): string {
    if hint.Some? then "Tabelle (Abschnitt: " + hint.value + ")."
    else if section.Some? && section.value != "" then "Tabelle (Abschnitt: " + section.value + ")."
    else "Tabelle."
  }

  function BaseMeta(m: Meta): Meta {
    m.(rows := [], header := [])
  }

  function RowChunkOf(el: Element, c: RowChunks.RowChunk): Chunk {
    Chunk(TableKind, c.body, c.body, 0, el.page, el.section,
          RowRange(BaseMeta(el.meta), el.bbox, c.rowFrom, c.rowTo))
  }

  /** One Markdown chunk, and row chunks when the table is large. */
  function ChunkTable(el: Element, hint: Option<string>, s: Settings): seq<Chunk> {
    var t := Markdown.Table(el.meta.rows, el.meta.header);
    var summary := if t.rows != [] then TableSummary(t, el.meta.caption, el.section, hint)
                   else UntabledSummary(el.section, hint);
    var body := summary + "\n\n" + (if t.rows != [] then Markdown.ToMarkdown(t) else el.content);
    var whole := Chunk(TableKind, body, body, 0, el.page, el.section, MarkdownTable(BaseMeta(el.meta), el.bbox));
    if t.rows != [] && |t.rows| > s.rowThreshold then
      var rowChunks := RowChunks.ChunksFrom(summary, SerializeRows(t.rows, t.header), s.rowMaxChars, 0);
      [whole] + Map(c => RowChunkOf(el, c), rowChunks)
    else [whole]
  }

  method BuildTableChunks(el: Element, hint: Option<string>, s: Settings) returns (out: seq<Chunk>)
    ensures out == ChunkTable(el, hint, s)
  {
    hide Markdown.ToMarkdown, TableSummary, UntabledSummary, SerializeRow, RowChunks.ChunksFrom;
    var t := Markdown.Table(el.meta.rows, el.meta.header);
    var summary := UntabledSummary(el.section, hint);
    var md := el.content;
    if t.rows != [] {
      md := Markdown.TableToMarkdown(t);
      summary := TableSummary(t, el.meta.caption, el.section, hint);
    }
    var body := summary + "\n\n" + md;
    out := [Chunk(TableKind, body, body, 0, el.page, el.section, MarkdownTable(BaseMeta(el.meta), el.bbox))];
    if t.rows != [] && |t.rows| > s.rowThreshold {
      var lines := [];
      for i := 0 to |t.rows|
        invariant lines == SerializeRows(t.rows[..i], t.header)
      {
        lines := lines + [SerializeRow(t.rows[i], t.header, i + 1)];
        assert t.rows[..i + 1][..i] == t.rows[..i];
      }
      assert t.rows[..|t.rows|] == t.rows;
      var rowChunks := RowChunks.PackRows(summary, lines, s.rowMaxChars);
      out := out + Map(c => RowChunkOf(el, c), rowChunks);
    }
  }

  // ---------------------------------------------------------------- text runs

  function NormalizedParts(run: seq<Element>, s: Settings): seq<string> {
    if run == [] then []
    else
      var text := s.normalize(run[|run| - 1].content);
      NormalizedParts(run[..|run| - 1], s) + (if text == "" then [] else [text])
  }

  function Keep(piece: string, rest: seq<string>): seq<string> {
    if piece == "" then rest else [piece] + rest
  }

  /** `text.split("\n\n")` from `from` on, each piece stripped, empty ones dropped. */
  function ParagraphsFrom(text: string, from: nat): seq<string>
    requires from <= |text|
    decreases |text| - from
  {
    var i := FirstBlankLine(text, from);
    Keep(Strip(text[from..i]), if i == |text| then [] else ParagraphsFrom(text, i + 2))
  }

  lemma KeepProper(piece: string, rest: seq<string>)
    requires Trimmed(piece) && Proper(rest)
    ensures Proper(Keep(piece, rest))
  {
    hide Trimmed;
  }

  /** The packer always gets trimmed paragraphs that are not empty. */
  lemma {:induction false} ParagraphsAreProper(text: string, from: nat)
    requires from <= |text|
    ensures Proper(ParagraphsFrom(text, from))
    decreases |text| - from
  {
    hide Strip, Proper, Blank, Trimmed, Keep;
    var i := FirstBlankLine(text, from);
    if i < |text| {
      ParagraphsAreProper(text, i + 2);
      KeepProper(Strip(text[from..i]), ParagraphsFrom(text, i + 2));
    } else {
      NoneProper();
      KeepProper(Strip(text[from..i]), []);
    }
  }

  lemma NoneProper()
    ensures Proper([])
  {
  }

  /** The length of the joined parts, each with the gap after it. */
  function Offset(parts: seq<string>): nat {
    if parts == [] then 0 else Offset(parts[..|parts| - 1]) + |parts[|parts| - 1]| + |GAP|
  }

  /** Where each part of the joined text starts, with the page of its element. */
  function PageFor(run: seq<Element>, s: Settings): seq<Mark> {
    if run == [] then []
    else
      var init, last := run[..|run| - 1], run[|run| - 1];
      PageFor(init, s) + (if s.normalize(last.content) == "" then [] else [Mark(Offset(NormalizedParts(init, s)), last.page)])
  }

  /** How far the text is taken to be used up by a piece. */
  function Advance(piece: string, s: Settings): nat {
    if |piece| < s.repeated(|piece|) + 1 then 1 else |piece| - s.repeated(|piece|)
  }

  function Consumed(pieces: seq<string>, s: Settings): nat {
    if pieces == [] then 0 else Consumed(pieces[..|pieces| - 1], s) + Advance(pieces[|pieces| - 1], s)
  }

  function TextChunk(piece: string, page: Option<int>, section: Option<string>): Chunk {
    Chunk(TextKind, piece, piece, 0, page, section, NoOrigin)
  }

  function TextChunks(pieces: seq<string>, marks: seq<Mark>, section: Option<string>, s: Settings): seq<Chunk> {
    if pieces == [] then []
    else
      var init := pieces[..|pieces| - 1];
      TextChunks(init, marks, section, s) + [TextChunk(pieces[|init|], PageAt(marks, Consumed(init, s)), section)]
  }

  /** The chunks of one same-section run of text. */
  function ChunkTextRun(run: seq<Element>, s: Settings): seq<Chunk>
    requires run != [] && s.limits.Valid()
  {
    var text := Join(NormalizedParts(run, s), GAP);
    TextChunks(Pack(ParagraphsFrom(text, 0), s.limits), PageFor(run, s), run[0].section, s)
  }

  // ---------------------------------------------------------------- visuals

  predicate IsLineEnd(c: char) {
    var k := c as int;
    0x0A <= k <= 0x0D || 0x1C <= k <= 0x1E || k == 0x85 || k == 0x2028 || k == 0x2029
  }

  function FirstLine(s: string): string {
    if s == "" || IsLineEnd(s[0]) then "" else [s[0]] + FirstLine(s[1..])
  }

  /** The first line of a text, when it is short enough to be a caption. */
  function CaptionHint(content: string): Option<string> {
    var line := Strip(FirstLine(Strip(content)));
    if line == "" || |line| > CAPTION_HINT_MAX then None else Some(line)
  }

  predicate Contains(s: string, part: string) {
    part <= s || (s != "" && Contains(s[1..], part))
  }

  /** The normalized text of a visual, or its content when that leaves nothing. */
  function PlainText(el: Element, s: Settings): string {
    var plain := s.normalize(el.content);
    if plain == "" then el.content else plain
  }

  function VisualChunk(el: Element, hint: Option<string>, s: Settings): Chunk {
    var text := PlainText(el, s);
    var normalized := if hint.Some? && el.meta.caption == "" && !Contains(text, hint.value)
                      then hint.value + "\n\n" + text else text;
    Chunk(el.kind, el.content, normalized, 0, el.page, el.section, Whole(el.meta, el.bbox))
  }

  function VisualChunks(el: Element, hint: Option<string>, s: Settings): seq<Chunk> {
    if el.kind == TableKind then ChunkTable(el, hint, s) else [VisualChunk(el, hint, s)]
  }

  // ---------------------------------------------------------------- the plain specification

  datatype Segment = Run(els: seq<Element>) | Visual(el: Element, hint: Option<string>)

  /** A visual takes its hint from the element right before it, if that is text. */
  function HintAt(els: seq<Element>, i: nat): Option<string>
    requires i < |els|
  {
    if i > 0 && els[i - 1].kind == TextKind then CaptionHint(els[i - 1].content) else None
  }

  predicate Continues(els: seq<Element>, a: nat, b: nat)
    requires a < |els|
  {
    b < |els| && els[b].kind == TextKind && els[b].section == els[a].section
  }

  /** The end of the run that starts at `a` and already reaches `b`. */
  function RunEnd(els: seq<Element>, a: nat, b: nat): (e: nat)
    requires a < b <= |els|
    ensures b <= e <= |els|
    decreases |els| - b
  {
    if Continues(els, a, b) then RunEnd(els, a, b + 1) else b
  }

  function SegmentsFrom(els: seq<Element>, a: nat): (gs: seq<Segment>)
    requires a <= |els|
    ensures NoEmptyRun(gs)
    decreases |els| - a
  {
    if a == |els| then []
    else if els[a].kind == TextKind then
      var b := RunEnd(els, a, a + 1);
      [Run(els[a..b])] + SegmentsFrom(els, b)
    else [Visual(els[a], HintAt(els, a))] + SegmentsFrom(els, a + 1)
  }

  function SegmentChunks(g: Segment, s: Settings): seq<Chunk>
    requires s.limits.Valid() && (g.Run? ==> g.els != [])
  {
    match g
    case Run(els) => ChunkTextRun(els, s)
    case Visual(el, hint) => VisualChunks(el, hint, s)
  }

  predicate NoEmptyRun(gs: seq<Segment>) {
    forall i | 0 <= i < |gs| :: gs[i].Run? ==> gs[i].els != []
  }

  function AllChunks(gs: seq<Segment>, s: Settings): seq<Chunk>
    requires s.limits.Valid() && NoEmptyRun(gs)
  {
    if gs == [] then [] else SegmentChunks(gs[0], s) + AllChunks(gs[1..], s)
  }

  function Number(chunks: seq<Chunk>): (r: seq<Chunk>)
    ensures |r| == |chunks| && forall i | 0 <= i < |r| :: r[i] == chunks[i].(index := i)
  {
    seq(|chunks|, i requires 0 <= i < |chunks| => chunks[i].(index := i))
  }

  /** What the chunker should return. */
  function Chunks(els: seq<Element>, s: Settings): seq<Chunk>
    requires s.limits.Valid()
  {
    Number(AllChunks(SegmentsFrom(els, 0), s))
  }

  // ---------------------------------------------------------------- the loop

  function Rest(els: seq<Element>, a: nat, s: Settings): seq<Chunk>
    requires a <= |els| && s.limits.Valid()
  {
    AllChunks(SegmentsFrom(els, a), s)
  }

  /** Before element `i`: elements from `a` on are the current run, `out` holds what is before. */
  ghost predicate Building(els: seq<Element>, s: Settings, out: seq<Chunk>, run: seq<Element>, a: nat, i: nat)
    requires s.limits.Valid()
  {
    && a <= i <= |els|
    && run == els[a..i]
    && out + Rest(els, a, s) == Rest(els, 0, s)
    && (a < i ==> els[a].kind == TextKind && RunEnd(els, a, a + 1) == RunEnd(els, a, i))
  }

  lemma BuildStart(els: seq<Element>, s: Settings)
    requires s.limits.Valid()
    ensures Building(els, s, [], [], 0, 0)
  {
    hide AllChunks, SegmentsFrom;
  }

  lemma RestOfRun(els: seq<Element>, s: Settings, a: nat)
    requires s.limits.Valid() && a < |els| && els[a].kind == TextKind
    ensures var b := RunEnd(els, a, a + 1);
            Rest(els, a, s) == ChunkTextRun(els[a..b], s) + Rest(els, b, s)
  {
    hide ChunkTextRun, RunEnd;
    var b := RunEnd(els, a, a + 1);
    assert SegmentsFrom(els, a)[1..] == SegmentsFrom(els, b);
  }

  lemma RestOfVisual(els: seq<Element>, s: Settings, a: nat)
    requires s.limits.Valid() && a < |els| && els[a].kind != TextKind
    ensures Rest(els, a, s) == VisualChunks(els[a], HintAt(els, a), s) + Rest(els, a + 1, s)
  {
    hide VisualChunks, HintAt;
    assert SegmentsFrom(els, a)[1..] == SegmentsFrom(els, a + 1);
  }

  lemma BuildFlush(els: seq<Element>, s: Settings, out: seq<Chunk>, run: seq<Element>, a: nat, i: nat)
    requires s.limits.Valid() && Building(els, s, out, run, a, i) && a < i && !Continues(els, a, i)
    ensures Building(els, s, out + ChunkTextRun(run, s), [], i, i)
  {
    RestOfRun(els, s, a);
    assert RunEnd(els, a, i) == i;
    hide ChunkTextRun, Rest, RunEnd;
    Regroup(out, ChunkTextRun(run, s), Rest(els, i, s));
  }

  lemma BuildText(els: seq<Element>, s: Settings, out: seq<Chunk>, run: seq<Element>, a: nat, i: nat)
    requires s.limits.Valid() && Building(els, s, out, run, a, i)
    requires i < |els| && els[i].kind == TextKind && (a < i ==> Continues(els, a, i))
    ensures Building(els, s, out, run + [els[i]], a, i + 1)
  {
    hide Rest, RunEnd, Continues;
    if a < i {
      GrowRun(els, a, i);
    }
    assert els[a..i + 1] == run + [els[i]];
  }

  lemma GrowRun(els: seq<Element>, a: nat, i: nat)
    requires a < i < |els| && Continues(els, a, i)
    ensures RunEnd(els, a, i) == RunEnd(els, a, i + 1)
  {
  }

  lemma BuildVisual(els: seq<Element>, s: Settings, out: seq<Chunk>, i: nat)
    requires s.limits.Valid() && Building(els, s, out, [], i, i) && i < |els| && els[i].kind != TextKind
    ensures Building(els, s, out + VisualChunks(els[i], HintAt(els, i), s), [], i + 1, i + 1)
  {
    RestOfVisual(els, s, i);
    hide VisualChunks, HintAt, Rest;
    Regroup(out, VisualChunks(els[i], HintAt(els, i), s), Rest(els, i + 1, s));
  }

  lemma BuildEnd(els: seq<Element>, s: Settings, out: seq<Chunk>)
    requires s.limits.Valid() && Building(els, s, out, [], |els|, |els|)
    ensures out == AllChunks(SegmentsFrom(els, 0), s)
  {
    assert Rest(els, |els|, s) == [];
  }

  method BuildTextChunks(run: seq<Element>, s: Settings) returns (out: seq<Chunk>)
    requires run != [] && s.limits.Valid()
    ensures out == ChunkTextRun(run, s)
  {
    hide Pack, ParagraphsFrom, PageAt, Advance;
    var pageFor: seq<Mark> := [];
    var parts: seq<string> := [];
    var offset := 0;
    for i := 0 to |run|
      invariant parts == NormalizedParts(run[..i], s) && pageFor == PageFor(run[..i], s)
      invariant offset == Offset(parts)
    {
      assert run[..i + 1][..i] == run[..i];
      var normalized := s.normalize(run[i].content);
      if normalized == "" {
        continue;
      }
      pageFor := pageFor + [Mark(offset, run[i].page)];
      assert (parts + [normalized])[..|parts|] == parts;
      parts := parts + [normalized];
      offset := offset + |normalized| + 2;
    }
    assert run[..|run|] == run;
    var pieces := PackParagraphs(ParagraphsFrom(Join(parts, GAP), 0), s.limits);
    out := [];
    var consumed := 0;
    for i := 0 to |pieces|
      invariant out == TextChunks(pieces[..i], pageFor, run[0].section, s)
      invariant consumed == Consumed(pieces[..i], s)
    {
      assert pieces[..i + 1][..i] == pieces[..i];
      var page := FindPage(pageFor, consumed);
      out := out + [TextChunk(pieces[i], page, run[0].section)];
      consumed := consumed + Advance(pieces[i], s);
    }
    assert pieces[..|pieces|] == pieces;
  }

  method BuildVisualChunks(el: Element, lastText: Option<Element>, s: Settings) returns (out: seq<Chunk>)
    ensures out == VisualChunks(el, if lastText.Some? then CaptionHint(lastText.value.content) else None, s)
  {
    hide ChunkTable, CaptionHint, VisualChunk;
    var hint: Option<string> := None;
    if lastText.Some? {
      hint := CaptionHint(lastText.value.content);
    }
    if el.kind == TableKind {
      out := BuildTableChunks(el, hint, s);
    } else {
      out := [VisualChunk(el, hint, s)];
    }
  }

  /** The text element right above element `i`, if there is one. */
  function TextAbove(els: seq<Element>, i: nat): Option<Element>
    requires i <= |els|
  {
    if i > 0 && els[i - 1].kind == TextKind then Some(els[i - 1]) else None
  }

  /** The builder as it runs, with its current run and the text above. */
  method BuildChunks(els: seq<Element>, s: Settings) returns (chunks: seq<Chunk>)
    requires s.limits.Valid()
    ensures chunks == Chunks(els, s)
  {
    hide Building, ChunkTextRun, VisualChunks, AllChunks;
    var out: seq<Chunk> := [];
    var run: seq<Element> := [];
    var lastText: Option<Element> := None;
    ghost var a := 0;
    BuildStart(els, s);
    for i := 0 to |els|
      invariant Building(els, s, out, run, a, i)
      invariant a <= i && run == els[a..i]
      invariant lastText == TextAbove(els, i)
    {
      var el := els[i];
      if el.kind == TextKind {
        if run != [] && el.section != run[0].section {
          BuildFlush(els, s, out, run, a, i);
          var closed := BuildTextChunks(run, s);
          out, run, a := out + closed, [], i;
        }
        BuildText(els, s, out, run, a, i);
        run := run + [el];
        lastText := Some(el);
      } else {
        if run != [] {
          BuildFlush(els, s, out, run, a, i);
          var closed := BuildTextChunks(run, s);
          out, run, a := out + closed, [], i;
        }
        BuildVisual(els, s, out, i);
        var own := BuildVisualChunks(el, lastText, s);
        out, a := out + own, i + 1;
        lastText := None;
      }
    }
    if run != [] {
      BuildFlush(els, s, out, run, a, |els|);
      var closed := BuildTextChunks(run, s);
      out := out + closed;
    }
    BuildEnd(els, s, out);
    chunks := out;
    for i := 0 to |out|
      invariant |chunks| == |out|
      invariant forall k | 0 <= k < |out| :: chunks[k] == if k < i then out[k].(index := k) else out[k]
    {
      chunks := chunks[i := chunks[i].(index := i)];
    }
  }
}
