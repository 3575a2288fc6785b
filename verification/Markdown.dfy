/**
 * The Markdown printer for tables, and a reader for the table rule of section 4.10
 * of the GitHub Flavored Markdown Spec that undoes it.
 */
module Markdown {
  import opened Text

  /** A table as the parser emits it; no header is the empty header. */
  datatype Table = Table(rows: seq<seq<string>>, header: seq<string>) {
    function Cols(): nat {
      Max(Widest(rows), |header|)
    }

    function HeaderOrDefault(): seq<string> {
      if header != [] then header else seq(Cols(), i requires 0 <= i => "Spalte " + Decimal(i + 1))
    }
  }

  function Max(a: nat, b: nat): nat {
    if a < b then b else a
  }

  function Widest(rows: seq<seq<string>>): (w: nat)
    ensures forall i | 0 <= i < |rows| :: |rows[i]| <= w
  {
    if rows == [] then 0 else Max(Widest(rows[..|rows| - 1]), |rows[|rows| - 1]|)
  }

  // ---------------------------------------------------------------- printing

  function EscapePipes(s: string): string {
    if s == "" then "" else (if s[0] == '|' then "\\|" else [s[0]]) + EscapePipes(s[1..])
  }

  /** `s.replace("\n", " ")` */
  function Unline(s: string): string {
    if s == "" then "" else [if s[0] == '\n' then ' ' else s[0]] + Unline(s[1..])
  }

  function MdEscape(cell: string): string {
    Strip(Unline(EscapePipes(cell)))
  }

  function EscapeAll(cells: seq<string>): seq<string> {
    seq(|cells|, i requires 0 <= i < |cells| => MdEscape(cells[i]))
  }

  /** `cells + [""] * (n - len(cells))` */
  function Pad(cells: seq<string>, n: nat): seq<string> {
    if |cells| < n then cells + seq(n - |cells|, i => "") else cells
  }

  function Line(cells: seq<string>): string {
    "| " + Join(cells, " | ") + " |"
  }

  function Dashes(cols: nat): seq<string> {
    seq(cols, i => " --- ")
  }

  function DelimiterLine(cols: nat): string {
    "|" + Join(Dashes(cols), "|") + "|"
  }

  /** One printed row. */
  function RowLine(row: seq<string>, cols: nat): string {
    Line(Pad(EscapeAll(row), cols))
  }

  function RowLines(rows: seq<seq<string>>, cols: nat): seq<string> {
    Map(row => RowLine(row, cols), rows)
  }

  /** The two lines before the rows. */
  function HeadLines(t: Table): seq<string> {
    [RowLine(t.HeaderOrDefault(), t.Cols()), DelimiterLine(t.Cols())]
  }

  function Lines(t: Table): seq<string> {
    HeadLines(t) + RowLines(t.rows, t.Cols())
  }

  function ToMarkdown(t: Table): string {
    Join(Lines(t), "\n")
  }

  lemma RowLinesAppend(rows: seq<seq<string>>, row: seq<string>, cols: nat)
    ensures RowLines(rows + [row], cols) == RowLines(rows, cols) + [RowLine(row, cols)]
  {
    MapAppend(r => RowLine(r, cols), rows, row);
  }

  method TableToMarkdown(t: Table) returns (md: string)
    ensures md == ToMarkdown(t)
  {
    hide RowLine, Table.Cols, HeadLines;
    var cols := t.Cols();
    var lines := HeadLines(t);
    for i := 0 to |t.rows|
      invariant lines == HeadLines(t) + RowLines(t.rows[..i], cols)
    {
      var line := RowLine(t.rows[i], cols);
      RowLinesAppend(t.rows[..i], t.rows[i], cols);
      assert t.rows[..i + 1] == t.rows[..i] + [t.rows[i]];
      lines := lines + [line];
    }
    assert t.rows[..|t.rows|] == t.rows;
    md := Join(lines, "\n");
  }

  // ---------------------------------------------------------------- reading

  /** Pieces between pipes; a pipe right after a backslash does not separate. */
  function SplitPipes(s: string, escaped: bool): (pieces: seq<string>)
    ensures pieces != []
  {
    if s == "" then [""]
    else if s[0] == '|' && !escaped then [""] + SplitPipes(s[1..], false)
    else
      var rest := SplitPipes(s[1..], s[0] == '\\');
      [[s[0]] + rest[0]] + rest[1..]
  }

  function UnescapePipes(s: string): string {
    if |s| >= 2 && s[0] == '\\' && s[1] == '|' then "|" + UnescapePipes(s[2..])
    else if s == "" then ""
    else [s[0]] + UnescapePipes(s[1..])
  }

  function LTrim(s: string): string {
    if s != "" && (s[0] == ' ' || s[0] == '\t') then LTrim(s[1..]) else s
  }

  function RTrim(s: string): string {
    if s != "" && (s[|s| - 1] == ' ' || s[|s| - 1] == '\t') then RTrim(s[..|s| - 1]) else s
  }

  function ReadCell(piece: string): string {
    UnescapePipes(RTrim(LTrim(piece)))
  }

  /** The pieces of a line inside its first and last pipe. */
  function Inner(line: string): seq<string> {
    var pieces := SplitPipes(line, false);
    if |pieces| < 2 then [] else pieces[1..|pieces| - 1]
  }

  function ReadRow(line: string): seq<string> {
    seq(|Inner(line)|, i requires 0 <= i < |Inner(line)| => ReadCell(Inner(line)[i]))
  }

  /** A line end is a newline, a carriage return, or both together (section 2.1 of the GitHub Flavored Markdown Spec). */
  function SplitLines(s: string): (lines: seq<string>)
    ensures lines != []
  {
    if s == "" then [""]
    else if |s| >= 2 && s[0] == '\r' && s[1] == '\n' then [""] + SplitLines(s[2..])
    else if s[0] == '\n' || s[0] == '\r' then [""] + SplitLines(s[1..])
    else
      var rest := SplitLines(s[1..]);
      [[s[0]] + rest[0]] + rest[1..]
  }

  predicate IsDelimiterCell(piece: string) {
    var c := RTrim(LTrim(piece));
    c != "" && forall i | 0 <= i < |c| :: c[i] == '-'
  }

  datatype Reading = NoTable | Read(header: seq<string>, rows: seq<seq<string>>)

  function ReadRows(lines: seq<string>): seq<seq<string>> {
    seq(|lines|, i requires 0 <= i < |lines| => ReadRow(lines[i]))
  }

  predicate DelimiterFor(delimiter: string, header: string) {
    && |Inner(delimiter)| == |Inner(header)|
    && forall i | 0 <= i < |Inner(delimiter)| :: IsDelimiterCell(Inner(delimiter)[i])
  }

  /** A header row, a delimiter row with as many cells, and the data rows. */
  function ReadLines(lines: seq<string>): Reading {
    if |lines| < 2 || !DelimiterFor(lines[1], lines[0]) then NoTable
    else Read(ReadRow(lines[0]), ReadRows(lines[2..]))
  }

  function ReadTable(text: string): Reading {
    ReadLines(SplitLines(text))
  }

  /** What a reader should get back for one cell. */
  function Clean(cell: string): string {
    Strip(Unline(cell))
  }

  function CleanAll(cells: seq<string>): seq<string> {
    seq(|cells|, i requires 0 <= i < |cells| => Clean(cells[i]))
  }

  /** The cells of a row a reader should get back, padded to the table's width. */
  function CleanRow(row: seq<string>, cols: nat): (xs: seq<string>)
    ensures |row| <= cols ==> |xs| == cols
    ensures forall i | 0 <= i < |xs| :: Trimmed(xs[i])
  {
    Pad(CleanAll(row), cols)
  }

  function CleanRows(rows: seq<seq<string>>, cols: nat): seq<seq<string>> {
    seq(|rows|, i requires 0 <= i < |rows| => CleanRow(rows[i], cols))
  }

  function Expected(t: Table): Reading {
    Read(CleanRow(t.HeaderOrDefault(), t.Cols()), CleanRows(t.rows, t.Cols()))
  }

  // ---------------------------------------------------------------- one cell

  lemma {:induction false} EscapeAppend(s: string, c: char)
    ensures EscapePipes(s + [c]) == EscapePipes(s) + (if c == '|' then "\\|" else [c])
  {
    if s != "" {
      EscapeAppend(s[1..], c);
      assert (s + [c])[1..] == s[1..] + [c];
    }
  }

  lemma {:induction false} EscapeUnline(s: string)
    ensures Unline(EscapePipes(s)) == EscapePipes(Unline(s))
  {
    if s != "" {
      EscapeUnline(s[1..]);
      assert Unline(s)[1..] == Unline(s[1..]);
      if s[0] == '|' {
        assert EscapePipes(s) == "\\" + ("|" + EscapePipes(s[1..]));
        assert EscapePipes(s)[1..] == "|" + EscapePipes(s[1..]);
        assert EscapePipes(s)[1..][1..] == EscapePipes(s[1..]);
      } else {
        assert EscapePipes(s)[1..] == EscapePipes(s[1..]);
      }
    }
  }

  lemma LStripCons(c: char, rest: string)
    ensures LStrip([c] + rest) == if IsSpace(c) then LStrip(rest) else [c] + rest
  {
    assert ([c] + rest)[1..] == rest;
  }

  lemma EscapeCons(s: string)
    requires s != ""
    ensures EscapePipes(s) == (if s[0] == '|' then ['\\'] + ("|" + EscapePipes(s[1..])) else [s[0]] + EscapePipes(s[1..]))
  {
  }

  lemma {:induction false} EscapeLStrip(s: string)
    ensures LStrip(EscapePipes(s)) == EscapePipes(LStrip(s))
  {
    if s != "" {
      EscapeCons(s);
      hide EscapePipes, LStrip;
      var rest := EscapePipes(s[1..]);
      assert [s[0]] + s[1..] == s;
      LStripCons(s[0], s[1..]);
      if s[0] == '|' {
        LStripCons('\\', "|" + rest);
      } else {
        LStripCons(s[0], rest);
        EscapeLStrip(s[1..]);
      }
    }
  }

  lemma {:induction false} EscapeRStrip(s: string)
    ensures RStrip(EscapePipes(s)) == EscapePipes(RStrip(s))
  {
    if s != "" {
      var init, c := s[..|s| - 1], s[|s| - 1];
      assert s == init + [c];
      EscapeAppend(init, c);
      if IsSpace(c) {
        EscapeRStrip(init);
        assert EscapePipes(s)[..|EscapePipes(s)| - 1] == EscapePipes(init);
      }
    }
  }

  lemma {:induction false} UnescapeEscape(s: string)
    ensures UnescapePipes(EscapePipes(s)) == s
    ensures EscapePipes(s) == "" || EscapePipes(s)[0] != '|'
  {
    if s != "" {
      UnescapeEscape(s[1..]);
      var e := EscapePipes(s);
      if s[0] == '|' {
        assert e[2..] == EscapePipes(s[1..]);
      } else {
        assert e[1..] == EscapePipes(s[1..]);
      }
    }
  }

  /** Escaping commutes with trimming and with the removal of newlines. */
  lemma EscapeIsCleanEscaped(cell: string)
    ensures MdEscape(cell) == EscapePipes(Clean(cell))
  {
    EscapeUnline(cell);
    EscapeLStrip(Unline(cell));
    EscapeRStrip(LStrip(Unline(cell)));
  }

  lemma {:induction false} EscapeEnds(s: string)
    requires s != ""
    ensures EscapePipes(s) != ""
    ensures EscapePipes(s)[0] == if s[0] == '|' then '\\' else s[0]
    ensures EscapePipes(s)[|EscapePipes(s)| - 1] == s[|s| - 1]
  {
    EscapeAppend(s[..|s| - 1], s[|s| - 1]);
    assert s == s[..|s| - 1] + [s[|s| - 1]];
  }

  predicate Padded(c: char) {
    c == ' ' || c == '\t'
  }

  lemma TrimsSpaces(e: string)
    requires e != "" ==> !Padded(e[0]) && !Padded(e[|e| - 1])
    ensures RTrim(LTrim(" " + e + " ")) == e
  {
    var s := e + " ";
    assert (" " + e + " ")[1..] == s;
    assert LTrim(" " + e + " ") == LTrim(s);
    if e == "" {
      assert s[1..] == "";
      assert LTrim(s) == LTrim("") == "";
    } else {
      assert LTrim(s) == s;
      assert s[..|e|] == e;
      assert RTrim(s) == RTrim(e);
    }
  }

  lemma ReadsCellBack(x: string)
    requires Trimmed(x)
    ensures ReadCell(" " + EscapePipes(x) + " ") == x
  {
    UnescapeEscape(x);
    if x != "" {
      EscapeEnds(x);
    }
    hide EscapePipes, UnescapePipes, LTrim, RTrim;
    assert x == "" ==> EscapePipes(x) == "" by { EscapeNothing(); }
    TrimsSpaces(EscapePipes(x));
  }

  lemma EscapeNothing()
    ensures EscapePipes("") == ""
  {
  }

  // ---------------------------------------------------------------- one line

  /** No pipe of `u` separates, when `escaped` says whether a backslash precedes `u`. */
  predicate NoSeparator(u: string, escaped: bool) {
    u == "" || (!(u[0] == '|' && !escaped) && NoSeparator(u[1..], u[0] == '\\'))
  }

  predicate EndsInBackslash(u: string, escaped: bool) {
    if u == "" then escaped else u[|u| - 1] == '\\'
  }

  lemma {:induction false} SplitThrough(u: string, v: string, escaped: bool)
    requires NoSeparator(u, escaped) && !EndsInBackslash(u, escaped)
    ensures SplitPipes(u + "|" + v, escaped) == [u] + SplitPipes(v, false)
  {
    var s := u + "|" + v;
    if u == "" {
      assert s[1..] == v;
    } else {
      SplitThrough(u[1..], v, u[0] == '\\');
      assert s[1..] == u[1..] + "|" + v;
      assert [u[0]] + u[1..] == u;
      assert ([u[1..]] + SplitPipes(v, false))[1..] == SplitPipes(v, false);
    }
  }

  lemma {:induction false} EscapedHasNoSeparator(x: string, escaped: bool)
    ensures NoSeparator(EscapePipes(x) + " ", escaped)
  {
    var s := EscapePipes(x) + " ";
    if x != "" {
      EscapedHasNoSeparator(x[1..], x[0] == '\\');
      if x[0] == '|' {
        assert s[1..][1..] == EscapePipes(x[1..]) + " ";
      } else {
        assert s[1..] == EscapePipes(x[1..]) + " ";
      }
    }
  }

  /** Pieces, each closed by a pipe. */
  function Body(pieces: seq<string>): string {
    if pieces == [] then "" else pieces[0] + "|" + Body(pieces[1..])
  }

  predicate Separable(pieces: seq<string>) {
    forall i | 0 <= i < |pieces| :: NoSeparator(pieces[i], false) && !EndsInBackslash(pieces[i], false)
  }

  lemma {:induction false} SplitBody(pieces: seq<string>)
    requires Separable(pieces)
    ensures SplitPipes(Body(pieces), false) == pieces + [""]
  {
    if pieces != [] {
      SplitBody(pieces[1..]);
      SplitThrough(pieces[0], Body(pieces[1..]), false);
    }
  }

  lemma InnerOfBody(pieces: seq<string>)
    requires Separable(pieces)
    ensures Inner("|" + Body(pieces)) == pieces
  {
    SplitBody(pieces);
    assert ("|" + Body(pieces))[1..] == Body(pieces);
    assert SplitPipes("|" + Body(pieces), false) == [""] + (pieces + [""]);
  }

  function Spaced(cells: seq<string>): seq<string> {
    seq(|cells|, i requires 0 <= i < |cells| => " " + cells[i] + " ")
  }

  lemma {:induction false} JoinIsBody(cells: seq<string>)
    requires cells != []
    ensures " " + Join(cells, " | ") + " |" == Body(Spaced(cells))
  {
    var first := " " + cells[0] + " ";
    assert Spaced(cells)[1..] == Spaced(cells[1..]);
    if |cells| == 1 {
      assert Body(Spaced(cells)) == first + "|" + "";
    } else {
      var rest := Join(cells[1..], " | ");
      JoinIsBody(cells[1..]);
      assert " " + (cells[0] + " | " + rest) + " |" == first + "|" + (" " + rest + " |");
    }
  }

  lemma LineIsBody(cells: seq<string>)
    requires cells != []
    ensures Line(cells) == "|" + Body(Spaced(cells))
  {
    JoinIsBody(cells);
    assert Line(cells) == "|" + (" " + Join(cells, " | ") + " |");
  }

  lemma SpacedIsSeparable(xs: seq<string>)
    ensures Separable(Spaced(seq(|xs|, i requires 0 <= i < |xs| => EscapePipes(xs[i]))))
  {
    var ps := Spaced(seq(|xs|, i requires 0 <= i < |xs| => EscapePipes(xs[i])));
    forall i | 0 <= i < |ps| ensures NoSeparator(ps[i], false) && !EndsInBackslash(ps[i], false) {
      EscapedHasNoSeparator(xs[i], false);
      assert ps[i][1..] == EscapePipes(xs[i]) + " ";
    }
  }

  function EscapeClean(xs: seq<string>): seq<string> {
    seq(|xs|, i requires 0 <= i < |xs| => EscapePipes(xs[i]))
  }

  /** Escaping and padding a row, in terms of the cells a reader should get back. */
  lemma PaddedRow(row: seq<string>, cols: nat)
    ensures Pad(EscapeAll(row), cols) == EscapeClean(Pad(CleanAll(row), cols))
  {
    forall i | 0 <= i < |row| ensures EscapeAll(row)[i] == EscapePipes(CleanAll(row)[i]) {
      EscapeIsCleanEscaped(row[i]);
    }
  }

  /** A line of trimmed cells reads back as those cells. */
  lemma ReadsLineBack(xs: seq<string>)
    requires xs != [] && forall i | 0 <= i < |xs| :: Trimmed(xs[i])
    ensures |Inner(Line(EscapeClean(xs)))| == |xs|
    ensures ReadRow(Line(EscapeClean(xs))) == xs
  {
    var cells := EscapeClean(xs);
    LineIsBody(cells);
    SpacedIsSeparable(xs);
    InnerOfBody(Spaced(cells));
    forall i | 0 <= i < |xs| ensures ReadCell(Inner(Line(cells))[i]) == xs[i] {
      ReadsCellBack(xs[i]);
    }
  }

  lemma {:induction false} DelimiterIsBody(cols: nat)
    requires cols > 0
    ensures Join(Dashes(cols), "|") + "|" == Body(Dashes(cols))
  {
    var d := Dashes(cols);
    assert d[1..] == Dashes(cols - 1);
    if cols > 1 {
      DelimiterIsBody(cols - 1);
      assert Join(d, "|") + "|" == d[0] + "|" + (Join(d[1..], "|") + "|");
    } else {
      assert Body(d) == d[0] + "|" + "";
    }
  }

  lemma ReadsDelimiterBack(cols: nat)
    requires cols > 0
    ensures |Inner(DelimiterLine(cols))| == cols
    ensures forall i | 0 <= i < cols :: IsDelimiterCell(Inner(DelimiterLine(cols))[i])
  {
    var d := Dashes(cols);
    DelimiterIsBody(cols);
    assert DelimiterLine(cols) == "|" + (Join(d, "|") + "|");
    DashPiece();
    InnerOfBody(d);
  }

  lemma DashPiece()
    ensures NoSeparator(" --- ", false) && !EndsInBackslash(" --- ", false) && IsDelimiterCell(" --- ")
  {
    var p := " --- ";
    assert p[1..] == "--- " && p[1..][1..] == "-- " && p[1..][1..][1..] == "- " && p[1..][1..][1..][1..] == " ";
    assert LTrim(p) == "--- ";
    assert "--- "[..3] == "---" && RTrim("--- ") == "---";
  }

  // ---------------------------------------------------------------- all lines

  predicate NoBreak(s: string) {
    forall i | 0 <= i < |s| :: s[i] != '\n' && s[i] != '\r'
  }

  lemma {:induction false} SplitAtNewline(u: string, v: string)
    requires u == "" || u[|u| - 1] != '\r'
    ensures SplitLines(u + "\n" + v) == SplitLines(u) + SplitLines(v)
    decreases |u|
  {
    hide SplitLines;
    var s := u + "\n" + v;
    if u == "" {
      assert s[1..] == v;
      assert SplitLines("") == [""] by { EmptyLine(); }
      SplitLinesStep(s, SplitLines(v));
    } else if StartsWithCrLf(u) {
      SplitAtNewline(u[2..], v);
      assert s[2..] == u[2..] + "\n" + v;
      SplitLinesSkip(u);
      SplitLinesSkip(s);
    } else {
      SplitAtNewline(u[1..], v);
      assert s[1..] == u[1..] + "\n" + v;
      assert !StartsWithCrLf(s) by {
        assert |u| >= 2 ==> s[1] == u[1];
      }
      var a, b := SplitLines(u[1..]), SplitLines(v);
      SplitLinesStep(u, a);
      SplitLinesStep(s, a + b);
      assert (a + b)[1..] == a[1..] + b;
      if s[0] == '\n' || s[0] == '\r' {
        Regroup([""], a, b);
      } else {
        Regroup([[s[0]] + a[0]], a[1..], b);
      }
    }
  }

  lemma EmptyLine()
    ensures SplitLines("") == [""]
  {
  }

  predicate StartsWithCrLf(s: string) {
    |s| >= 2 && s[0] == '\r' && s[1] == '\n'
  }

  lemma SplitLinesSkip(s: string)
    requires StartsWithCrLf(s)
    ensures SplitLines(s) == [""] + SplitLines(s[2..])
  {
  }

  lemma SplitLinesStep(s: string, lines: seq<string>)
    requires s != "" && SplitLines(s[1..]) == lines && !StartsWithCrLf(s)
    ensures SplitLines(s) == if s[0] == '\n' || s[0] == '\r' then [""] + lines
                             else [[s[0]] + lines[0]] + lines[1..]
  {
  }

  lemma {:induction false} OneLine(s: string)
    ensures NoBreak(s) ==> SplitLines(s) == [s]
    ensures !NoBreak(s) ==> |SplitLines(s)| >= 2
    decreases |s|
  {
    if s != "" {
      OneLine(s[1..]);
      assert [s[0]] + s[1..] == s;
    }
  }

  lemma NoBreakConcat(a: string, b: string)
    ensures NoBreak(a + b) <==> NoBreak(a) && NoBreak(b)
  {
    if NoBreak(a + b) {
      assert forall i | 0 <= i < |a| :: a[i] == (a + b)[i];
      assert forall i | 0 <= i < |b| :: b[i] == (a + b)[|a| + i];
    }
  }

  lemma {:induction false} EscapeKeepsBreaks(x: string)
    ensures NoBreak(EscapePipes(x)) <==> NoBreak(x)
  {
    if x != "" {
      EscapeKeepsBreaks(x[1..]);
      NoBreakConcat(if x[0] == '|' then "\\|" else [x[0]], EscapePipes(x[1..]));
      NoBreakConcat([x[0]], x[1..]);
      assert [x[0]] + x[1..] == x;
    }
  }

  predicate AllUnbroken(lines: seq<string>) {
    forall i | 0 <= i < |lines| :: NoBreak(lines[i])
  }

  lemma {:induction false} BodyBreaks(pieces: seq<string>)
    ensures NoBreak(Body(pieces)) <==> AllUnbroken(pieces)
  {
    if pieces != [] {
      BodyBreaks(pieces[1..]);
      NoBreakConcat(pieces[0] + "|", Body(pieces[1..]));
      NoBreakConcat(pieces[0], "|");
      assert pieces == [pieces[0]] + pieces[1..];
    }
  }

  /** A printed line has a line break exactly when one of its cells has one. */
  lemma LineBreaks(xs: seq<string>)
    requires xs != []
    ensures NoBreak(Line(EscapeClean(xs))) <==> AllUnbroken(xs)
  {
    var cells := EscapeClean(xs);
    LineIsBody(cells);
    BodyBreaks(Spaced(cells));
    NoBreakConcat("|", Body(Spaced(cells)));
    assert NoBreak("|") && NoBreak(" ");
    hide NoBreak, Body, EscapePipes, Line;
    forall i | 0 <= i < |xs| ensures NoBreak(Spaced(cells)[i]) <==> NoBreak(xs[i]) {
      EscapeKeepsBreaks(xs[i]);
      NoBreakConcat(" " + cells[i], " ");
      NoBreakConcat(" ", cells[i]);
    }
  }

  predicate EndsInPipe(line: string) {
    line != "" && line[|line| - 1] == '|'
  }

  predicate EachEndsInPipe(lines: seq<string>) {
    forall i | 0 <= i < |lines| :: EndsInPipe(lines[i])
  }

  lemma LinesOfConcat(a: seq<string>, b: seq<string>)
    ensures AllUnbroken(a + b) <==> AllUnbroken(a) && AllUnbroken(b)
    ensures EachEndsInPipe(a) && EachEndsInPipe(b) ==> EachEndsInPipe(a + b)
  {
    if AllUnbroken(a + b) {
      assert forall i | 0 <= i < |a| :: a[i] == (a + b)[i];
      assert forall i | 0 <= i < |b| :: b[i] == (a + b)[|a| + i];
    }
  }

  lemma {:induction false} SplitJoined(lines: seq<string>)
    requires lines != [] && EachEndsInPipe(lines)
    ensures AllUnbroken(lines) ==> SplitLines(Join(lines, "\n")) == lines
    ensures !AllUnbroken(lines) ==> |SplitLines(Join(lines, "\n"))| > |lines|
    ensures |SplitLines(Join(lines, "\n"))| >= |lines|
  {
    OneLine(lines[0]);
    hide SplitLines, NoBreak;
    if |lines| > 1 {
      var rest := lines[1..];
      SplitJoined(rest);
      SplitAtNewline(lines[0], Join(rest, "\n"));
      assert lines == [lines[0]] + rest;
      LinesOfConcat([lines[0]], rest);
    }
  }

  // ---------------------------------------------------------------- the table

  /** No cell keeps a carriage return after trimming. */
  predicate NoCarriageReturn(row: seq<string>) {
    forall i | 0 <= i < |row| :: '\r' !in Clean(row[i])
  }

  lemma {:induction false} UnlineHasNoNewline(s: string)
    ensures '\n' !in Unline(s)
  {
    if s != "" {
      UnlineHasNoNewline(s[1..]);
    }
  }

  lemma CleanBreaks(cell: string)
    ensures NoBreak(Clean(cell)) <==> '\r' !in Clean(cell)
  {
    UnlineHasNoNewline(cell);
    if '\n' in Clean(cell) {
      StripIsWithin(Unline(cell), '\n');
    }
  }

  lemma RowBreaks(row: seq<string>, cols: nat)
    requires |row| <= cols
    ensures AllUnbroken(CleanRow(row, cols)) <==> NoCarriageReturn(row)
  {
    var xs := CleanRow(row, cols);
    assert forall i | |row| <= i < cols :: xs[i] == "";
    assert NoBreak("");
    hide NoBreak, Clean;
    forall i | 0 <= i < |row| ensures NoBreak(xs[i]) <==> '\r' !in Clean(row[i]) {
      CleanBreaks(row[i]);
      assert xs[i] == Clean(row[i]);
    }
    if NoCarriageReturn(row) {
      forall i | 0 <= i < cols ensures NoBreak(xs[i]) {
        assert i < |row| || xs[i] == "";
      }
    }
  }

  /** One printed row: what it reads back as, and when it stays one line. */
  lemma PrintedRow(row: seq<string>, cols: nat)
    requires |row| <= cols && cols > 0
    ensures var line := RowLine(row, cols);
            && EndsInPipe(line)
            && (NoBreak(line) <==> NoCarriageReturn(row))
            && |Inner(line)| == cols
            && ReadRow(line) == CleanRow(row, cols)
  {
    PaddedRow(row, cols);
    RowBreaks(row, cols);
    LineBreaks(CleanRow(row, cols));
    ReadsLineBack(CleanRow(row, cols));
  }

  predicate CarriageReturnFree(t: Table) {
    NoCarriageReturn(t.HeaderOrDefault()) && forall i | 0 <= i < |t.rows| :: NoCarriageReturn(t.rows[i])
  }

  lemma DelimiterUnbroken(cols: nat)
    requires cols > 0
    ensures NoBreak(DelimiterLine(cols)) && EndsInPipe(DelimiterLine(cols))
  {
    DelimiterIsBody(cols);
    assert DelimiterLine(cols) == "|" + (Join(Dashes(cols), "|") + "|");
    DashesUnbroken(cols);
    BodyBreaks(Dashes(cols));
    NoBreakConcat("|", Body(Dashes(cols)));
  }

  lemma DashesUnbroken(cols: nat)
    ensures AllUnbroken(Dashes(cols))
  {
    assert NoBreak(" --- ");
  }

  lemma PrintedRows(rows: seq<seq<string>>, cols: nat)
    requires cols > 0 && forall i | 0 <= i < |rows| :: |rows[i]| <= cols
    ensures EachEndsInPipe(RowLines(rows, cols))
    ensures AllUnbroken(RowLines(rows, cols)) <==> forall i | 0 <= i < |rows| :: NoCarriageReturn(rows[i])
    ensures ReadRows(RowLines(rows, cols)) == CleanRows(rows, cols)
  {
    var ls := RowLines(rows, cols);
    forall i | 0 <= i < |rows|
      ensures EndsInPipe(ls[i]) && ReadRow(ls[i]) == CleanRow(rows[i], cols)
      ensures NoBreak(ls[i]) <==> NoCarriageReturn(rows[i])
    {
      PrintedRow(rows[i], cols);
    }
  }

  lemma PrintedHead(header: seq<string>, cols: nat)
    requires 0 < cols && |header| <= cols
    ensures var h, d := RowLine(header, cols), DelimiterLine(cols);
            && EachEndsInPipe([h, d])
            && (AllUnbroken([h, d]) <==> NoCarriageReturn(header))
            && DelimiterFor(d, h)
            && ReadRow(h) == CleanRow(header, cols)
  {
    var h, d := RowLine(header, cols), DelimiterLine(cols);
    PrintedRow(header, cols);
    DelimiterUnbroken(cols);
    ReadsDelimiterBack(cols);
    PairOfLines(h, d);
  }

  lemma PairOfLines(h: string, d: string)
    ensures AllUnbroken([h, d]) <==> NoBreak(h) && NoBreak(d)
    ensures EndsInPipe(h) && EndsInPipe(d) ==> EachEndsInPipe([h, d])
  {
    assert [h, d][0] == h && [h, d][1] == d;
  }

  lemma PrintedLines(t: Table)
    requires t.Cols() > 0
    ensures AllUnbroken(Lines(t)) <==> CarriageReturnFree(t)
    ensures EachEndsInPipe(Lines(t))
    ensures ReadLines(Lines(t)) == Expected(t)
  {
    var rs := RowLines(t.rows, t.Cols());
    PrintedHead(t.HeaderOrDefault(), t.Cols());
    PrintedRows(t.rows, t.Cols());
    LinesOfConcat(HeadLines(t), rs);
    assert Lines(t)[2..] == rs;
  }

  lemma WidthlessRows(rows: seq<seq<string>>)
    requires forall i | 0 <= i < |rows| :: rows[i] == []
    ensures EachEndsInPipe(RowLines(rows, 0)) && AllUnbroken(RowLines(rows, 0))
  {
    forall i | 0 <= i < |rows| ensures RowLines(rows, 0)[i] == "|  |" {
      assert EscapeAll([]) == [];
    }
  }

  /** Without a column the header line still reads as one empty cell. */
  lemma WidthlessTable(t: Table)
    requires t.Cols() == 0
    ensures ReadTable(ToMarkdown(t)) != Expected(t)
  {
    var ls := Lines(t);
    WidthlessLines(t);
    SplitJoined(ls);
    RowsRead(ls);
    OneBlankCell();
  }

  lemma WidthlessLines(t: Table)
    requires t.Cols() == 0
    ensures EachEndsInPipe(Lines(t)) && AllUnbroken(Lines(t)) && Lines(t)[0] == "|  |"
    ensures Expected(t).header == []
  {
    WidthlessHead(t);
    assert forall i | 0 <= i < |t.rows| :: t.rows[i] == [];
    hide RowLine, Table.Cols;
    WidthlessRows(t.rows);
    PairOfLines("|  |", "||");
    LinesOfConcat(HeadLines(t), RowLines(t.rows, 0));
  }

  lemma WidthlessHead(t: Table)
    requires t.Cols() == 0
    ensures HeadLines(t) == ["|  |", "||"]
    ensures CleanRow(t.HeaderOrDefault(), 0) == []
  {
    assert t.HeaderOrDefault() == [];
    assert EscapeAll([]) == [] && CleanAll([]) == [];
    assert Line([]) == "|  |";
    assert Dashes(0) == [];
    assert Join([], "|") == "";
    assert DelimiterLine(0) == "||";
  }

  lemma OneBlankCell()
    ensures |Inner("|  |")| == 1
  {
    assert Body(["  "]) == "  " + "|" + Body([]);
    assert "  "[1..] == " " && " "[1..] == "";
    InnerOfBody(["  "]);
    assert "|  |" == "|" + Body(["  "]);
  }

  lemma RowsRead(lines: seq<string>)
    ensures ReadLines(lines).Read? ==> |ReadLines(lines).rows| == |lines| - 2
  {
  }

  lemma WideTable(t: Table)
    requires t.Cols() > 0
    ensures ReadTable(ToMarkdown(t)) == Expected(t) <==> CarriageReturnFree(t)
  {
    PrintedLines(t);
    SplitJoined(Lines(t));
    RowsRead(SplitLines(ToMarkdown(t)));
    RowsRead(Lines(t));
  }

  /**
   * Printing can be undone: a reader of the table rule gets the header and every row
   * back, padded, trimmed and on one line each, whatever pipes and backslashes the
   * cells hold, exactly when the table has a column and no cell keeps a carriage
   * return inside (which the printer, unlike the newline, does not replace).
   */
  lemma MarkdownRoundTrip(t: Table)
    ensures ReadTable(ToMarkdown(t)) == Expected(t) <==> t.Cols() > 0 && CarriageReturnFree(t)
  {
    if t.Cols() == 0 {
      WidthlessTable(t);
    } else {
      WideTable(t);
    }
  }

  /** Every newline becomes a space, and no other character changes. */
  lemma {:induction false} UnlineEachCharacter(s: string, i: nat)
    ensures |Unline(s)| == |s|
    ensures i < |s| ==> Unline(s)[i] == if s[i] == '\n' then ' ' else s[i]
  {
    if s != "" {
      UnlineEachCharacter(s[1..], if i == 0 then 0 else i - 1);
    }
  }

  /** The table is as wide as its header or its widest row. */
  lemma {:induction false} ColsIsTheWidest(t: Table)
    ensures |t.header| <= t.Cols() && forall i | 0 <= i < |t.rows| :: |t.rows[i]| <= t.Cols()
    ensures t.Cols() == |t.header| || exists i :: 0 <= i < |t.rows| && |t.rows[i]| == t.Cols()
    decreases |t.rows|
  {
    if t.rows != [] {
      var last := |t.rows| - 1;
      ColsIsTheWidest(Table(t.rows[..last], t.header));
      if t.Cols() != |t.header| && |t.rows[last]| < t.Cols() {
        var i :| 0 <= i < last && |t.rows[..last][i]| == t.Cols();
        assert |t.rows[i]| == t.Cols();
      }
    }
  }

  /**
   * Cell by cell, a reader of a printed table without inner carriage returns gets the cells of
   * each row, then blanks up to the width; and the header's cells, or numbered columns without one.
   */
  lemma ReaderGetsEveryCell(t: Table, i: nat, j: nat)
    requires t.Cols() > 0 && CarriageReturnFree(t) && j < t.Cols()
    ensures var r := ReadTable(ToMarkdown(t));
            && r.Read? && |r.header| == t.Cols() && |r.rows| == |t.rows|
            && r.header[j] == (if t.header == [] then Strip(Unline("Spalte " + Decimal(j + 1)))
                               else if j < |t.header| then Strip(Unline(t.header[j])) else "")
            && (i < |t.rows| ==>
                  |r.rows[i]| == t.Cols()
                  && r.rows[i][j] == if j < |t.rows[i]| then Strip(Unline(t.rows[i][j])) else "")
  {
    MarkdownRoundTrip(t);
    ColsIsTheWidest(t);
    hide ReadTable, ToMarkdown, CarriageReturnFree, Table.Cols, Strip, Unline, Decimal;
  }

  /** A carriage return inside a cell does: the printed row ends early for a reader. */
  lemma SomeTableIsMisread()
    ensures var t := Table([["a\rb"]], ["h"]); ReadTable(ToMarkdown(t)) != Expected(t)
  {
    var t, cell := Table([["a\rb"]], ["h"]), "a\rb";
    assert t.rows[0] == [cell] && t.rows[0][0] == cell;
    assert Unline(cell) == cell by {
      assert cell[1..] == "\rb" && "\rb"[1..] == "b" && "b"[1..] == "";
    }
    StripOfTrimmed(cell);
    assert Clean(cell)[1] == '\r';
    hide ToMarkdown, ReadTable, Expected, Clean;
    assert !NoCarriageReturn(t.rows[0]);
    assert !CarriageReturnFree(t);
    MarkdownRoundTrip(t);
  }
}
