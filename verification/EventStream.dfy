/** The incremental reader of the chat event stream in the admin interface. */
module EventStream {
  import opened Options
  import opened Text

  /** A parsed JSON value: null, or one whose `token` member is a text or missing. */
  datatype Payload = Null | Value(token: Option<string>, json: string)

  /** A handler call; the errors are an `error` event, a broken stream and an abort. */
  datatype Call = OnToken(text: string) | OnDone(payload: Payload) | OnServerError | OnBroken | OnAborted

  datatype Reaction = Returns | Throws(aborted: bool)

  /**
   * `parse` is `JSON.parse`, or nothing where it throws; `react` is what the handler does
   * on the last of the calls so far, perhaps by throwing, perhaps an abort.
   */
  datatype Client = Client(parse: string -> Option<Payload>, react: seq<Call> -> Reaction)

  // ---------------------------------------------------------------- text

  predicate IsJsSpace(c: char) {
    || '\t' <= c <= '\r' || c == ' ' || c == '\U{00A0}' || c == '\U{1680}' || '\U{2000}' <= c <= '\U{200A}'
    || c == '\U{2028}' || c == '\U{2029}' || c == '\U{202F}' || c == '\U{205F}' || c == '\U{3000}' || c == '\U{FEFF}'
  }

  function Trim(s: string): string {
    if s == "" then ""
    else if IsJsSpace(s[0]) then Trim(s[1..])
    else if IsJsSpace(s[|s| - 1]) then Trim(s[..|s| - 1])
    else s
  }

  predicate StartsWith(s: string, p: string) {
    |p| <= |s| && s[..|p|] == p
  }

  /** The text without its carriage returns. */
  function StripCr(s: string): string {
    if s == "" then ""
    else StripCr(s[..|s| - 1]) + (if s[|s| - 1] == '\r' then "" else [s[|s| - 1]])
  }

  predicate NoCr(s: string) {
    forall i | 0 <= i < |s| :: s[i] != '\r'
  }

  ghost predicate NoBlankLine(s: string) {
    forall i: nat :: !BlankLineAt(s, i)
  }

  /** The lines of a block. */
  function Lines(s: string): seq<string> {
    if s == "" then [""]
    else
      var before := Lines(s[..|s| - 1]);
      if s[|s| - 1] == '\n' || before == [] then before + [""]
      else before[|before| - 1 := before[|before| - 1] + [s[|s| - 1]]]
  }

  // ---------------------------------------------------------------- one block

  datatype Fields = Fields(event: string, data: string)

  function AddLine(f: Fields, line: string): Fields {
    if StartsWith(line, "event:") then f.(event := Trim(line[6..]))
    else if StartsWith(line, "data:") then f.(data := f.data + Trim(line[5..]))
    else f
  }

  function FieldsOf(lines: seq<string>): Fields {
    if lines == [] then Fields("message", "") else AddLine(FieldsOf(lines[..|lines| - 1]), lines[|lines| - 1])
  }

  /** The values of the data lines, in order. */
  function DataValues(lines: seq<string>): seq<string> {
    if lines == [] then []
    else
      var last := lines[|lines| - 1];
      DataValues(lines[..|lines| - 1]) + (if StartsWith(last, "data:") then [Trim(last[5..])] else [])
  }

  /** The data as section 9.2.5 of the WHATWG HTML Standard joins it: a newline between two lines. */
  function StandardData(lines: seq<string>): string {
    Join(DataValues(lines), "\n")
  }

  lemma {:induction false} DataIsConcat(lines: seq<string>)
    ensures FieldsOf(lines).data == Join(DataValues(lines), "")
  {
    if lines != [] {
      var init, last := lines[..|lines| - 1], lines[|lines| - 1];
      DataIsConcat(init);
      assert StartsWith(last, "data:") ==> !StartsWith(last, "event:") by {
        assert "data:"[0] == 'd' && "event:"[0] == 'e';
      }
      var before, value := DataValues(init), if StartsWith(last, "data:") then Trim(last[5..]) else "";
      if !StartsWith(last, "data:") {
        assert DataValues(lines) == before;
      } else if before == [] {
        assert DataValues(lines) == [value];
      } else {
        JoinAppend(before, value, "");
        assert Join(before, "") + "" + value == Join(before, "") + value;
      }
    }
  }

  lemma {:induction false} SeparatorsCount(values: seq<string>)
    ensures |Join(values, "\n")| == |Join(values, "")| + (if values == [] then 0 else |values| - 1)
  {
    if |values| > 1 {
      SeparatorsCount(values[1..]);
    }
  }

  /** The reader's data is the standard's exactly for blocks with at most one data line. */
  lemma DataDeviates(lines: seq<string>)
    ensures FieldsOf(lines).data == StandardData(lines) <==> |DataValues(lines)| <= 1
  {
    DataIsConcat(lines);
    SeparatorsCount(DataValues(lines));
  }

  /** Two data lines: the reader runs their values together. */
  lemma SomeDataDeviates()
    ensures var lines := ["data:a", "data:b"]; FieldsOf(lines).data == "ab" && StandardData(lines) == "a\nb"
  {
    var a, b := "data:a", "data:b";
    assert StartsWith(a, "data:") && StartsWith(b, "data:") && a[5..] == "a" && b[5..] == "b";
    assert Trim("a") == "a" && Trim("b") == "b";
    assert [a, b][..1] == [a];
    assert DataValues([a]) == DataValues([a][..0]) + ["a"] == ["a"];
    assert DataValues([a, b]) == ["a", "b"];
    DataIsConcat([a, b]);
    assert ["a", "b"][1..] == ["b"];
    hide DataValues, FieldsOf, Trim;
    assert Join(["a", "b"], "") == "a" + "" + "b" == "ab";
    assert Join(["a", "b"], "\n") == "a" + "\n" + "b" == "a\nb";
  }

  /** What a block makes the reader do; reading `token` off null throws. */
  datatype Effect = Nothing | Emit(call: Call) | Throw

  function EffectOf(f: Fields, client: Client): Effect {
    if f.data == "" then Nothing
    else match client.parse(f.data)
         case None => Nothing
         case Some(payload) =>
           if f.event == "token" then
             if payload.Null? then Throw
             else Emit(OnToken(if payload.token.Some? then payload.token.value else ""))
           else if f.event == "done" then Emit(OnDone(payload))
           else if f.event == "error" then Emit(OnServerError)
           else Nothing
  }

  /** The calls made so far; once broken, no more blocks are read. */
  datatype Progress = Progress(calls: seq<Call>, broken: bool)

  function AfterBlock(p: Progress, block: string, client: Client): Progress {
    if p.broken then p
    else match EffectOf(FieldsOf(Lines(block)), client)
         case Nothing => p
         case Emit(call) => AfterCall(p.calls + [call], client)
         case Throw => Progress(p.calls + [OnBroken], true)
  }

  /** A handler that throws breaks the stream, which the error handler is told. */
  function AfterCall(calls: seq<Call>, client: Client): Progress {
    match client.react(calls)
    case Returns => Progress(calls, false)
    case Throws(aborted) => Progress(calls + [if aborted then OnAborted else OnBroken], true)
  }

  function AfterBlocks(p: Progress, blocks: seq<string>, client: Client): Progress {
    if blocks == [] then p else AfterBlock(AfterBlocks(p, blocks[..|blocks| - 1], client), blocks[|blocks| - 1], client)
  }

  // ---------------------------------------------------------------- splitting the whole text once

  function Blocks(s: string): seq<string>
    decreases |s|
  {
    var i := FirstBlankLine(s, 0);
    if i == |s| then [] else [s[..i]] + Blocks(s[i + 2..])
  }

  /** What follows the last complete block. */
  function Tail(s: string): string
    decreases |s|
  {
    var i := FirstBlankLine(s, 0);
    if i == |s| then s else Tail(s[i + 2..])
  }

  function Concat(pieces: seq<string>): string {
    if pieces == [] then "" else Concat(pieces[..|pieces| - 1]) + pieces[|pieces| - 1]
  }

  /** Everything the reader does for a text: the carriage returns removed, then split once. */
  function Reading(text: string, client: Client): Progress {
    AfterBlocks(Progress([], false), Blocks(StripCr(text)), client)
  }

  // ---------------------------------------------------------------- the splitting is the only one

  function Assembled(blocks: seq<string>, tail: string): string {
    if blocks == [] then tail else blocks[0] + "\n\n" + Assembled(blocks[1..], tail)
  }

  /** Each block ends at the first blank line after it starts; the tail has none. */
  ghost predicate IsSplit(s: string, blocks: seq<string>, tail: string) {
    && s == Assembled(blocks, tail)
    && (forall i | 0 <= i < |blocks| :: NoBlankLine(blocks[i] + "\n"))
    && NoBlankLine(tail)
  }

  lemma {:induction false} SplitsIntoBlocks(s: string)
    ensures IsSplit(s, Blocks(s), Tail(s))
    decreases |s|
  {
    var i := FirstBlankLine(s, 0);
    FirstBlankLineIsFirst(s, 0);
    if i < |s| {
      SplitsIntoBlocks(s[i + 2..]);
      assert s == s[..i] + "\n\n" + s[i + 2..];
      forall j: nat ensures !BlankLineAt(s[..i] + "\n", j) {
        assert BlankLineAt(s[..i] + "\n", j) ==> BlankLineAt(s, j) && j < i;
      }
    }
  }

  lemma FirstAfterBlock(block: string, rest: string)
    requires NoBlankLine(block + "\n")
    ensures FirstBlankLine(block + "\n\n" + rest, 0) == |block|
  {
    var s := block + "\n\n" + rest;
    assert BlankLineAt(s, |block|);
    forall j: nat | j < |block| ensures !BlankLineAt(s, j) {
      assert BlankLineAt(s, j) ==> BlankLineAt(block + "\n", j);
    }
    FirstIs(s, |block|);
  }

  /** There is exactly one way to split a text into blocks and a tail. */
  lemma {:induction false} SplitIsUnique(s: string, blocks: seq<string>, tail: string)
    ensures IsSplit(s, blocks, tail) <==> blocks == Blocks(s) && tail == Tail(s)
    decreases |blocks|
  {
    if IsSplit(s, blocks, tail) {
      if blocks == [] {
        FirstBlankLineIsFirst(s, 0);
      } else {
        var rest := Assembled(blocks[1..], tail);
        FirstAfterBlock(blocks[0], rest);
        SplitIsUnique(rest, blocks[1..], tail);
        assert s[..|blocks[0]|] == blocks[0] && s[|blocks[0]| + 2..] == rest;
      }
    }
    SplitsIntoBlocks(s);
  }

  // ---------------------------------------------------------------- reading in pieces

  lemma FirstStaysFirst(a: string, b: string)
    requires FirstBlankLine(a, 0) < |a|
    ensures FirstBlankLine(a + b, 0) == FirstBlankLine(a, 0)
  {
    var i := FirstBlankLine(a, 0);
    FirstBlankLineIsFirst(a, 0);
    forall j: nat | j < i ensures !BlankLineAt(a + b, j) {
      assert !BlankLineAt(a, j);
    }
    FirstIs(a + b, i);
  }

  /** Splitting more text goes on from the tail of what was split before. */
  lemma {:induction false} SplitsOn(a: string, b: string)
    ensures Blocks(a + b) == Blocks(a) + Blocks(Tail(a) + b)
    ensures Tail(a + b) == Tail(Tail(a) + b)
    decreases |a|
  {
    hide FirstBlankLine;
    var i := FirstBlankLine(a, 0);
    if i < |a| {
      FirstStaysFirst(a, b);
      SplitsOn(a[i + 2..], b);
      assert (a + b)[..i] == a[..i] && (a + b)[i + 2..] == a[i + 2..] + b;
    }
  }

  lemma {:induction false} StripCrAppend(a: string, b: string)
    ensures StripCr(a + b) == StripCr(a) + StripCr(b)
  {
    if b == "" {
      assert a + b == a;
    } else {
      StripCrAppend(a, b[..|b| - 1]);
      assert (a + b)[..|a + b| - 1] == a + b[..|b| - 1];
    }
  }

  lemma {:induction false} StripCrIsClean(s: string)
    ensures NoCr(StripCr(s))
    ensures NoCr(s) ==> StripCr(s) == s
  {
    if s != "" {
      StripCrIsClean(s[..|s| - 1]);
    }
  }

  lemma {:induction false} TailIsClean(s: string)
    requires NoCr(s)
    ensures NoCr(Tail(s))
    decreases |s|
  {
    var i := FirstBlankLine(s, 0);
    if i < |s| {
      TailIsClean(s[i + 2..]);
    }
  }

  lemma {:induction false} AfterMoreBlocks(p: Progress, a: seq<string>, b: seq<string>, client: Client)
    ensures AfterBlocks(p, a + b, client) == AfterBlocks(AfterBlocks(p, a, client), b, client)
  {
    if b == [] {
      assert a + b == a;
    } else {
      hide AfterBlock;
      AfterMoreBlocks(p, a, b[..|b| - 1], client);
      assert (a + b)[..|a + b| - 1] == a + b[..|b| - 1];
    }
  }

  /** One more piece: the tail of the text so far is where the buffer stands. */
  lemma OneMorePiece(text: string, piece: string, client: Client)
    ensures var buf := StripCr(Tail(StripCr(text)) + piece);
            && Reading(text + piece, client) == AfterBlocks(Reading(text, client), Blocks(buf), client)
            && Tail(StripCr(text + piece)) == Tail(buf)
  {
    var clean := StripCr(text);
    StripCrAppend(text, piece);
    StripCrIsClean(text);
    TailIsClean(clean);
    StripCrIsClean(Tail(clean));
    StripCrAppend(Tail(clean), piece);
    SplitsOn(clean, StripCr(piece));
    AfterMoreBlocks(Progress([], false), Blocks(clean), Blocks(Tail(clean) + StripCr(piece)), client);
    hide StripCr, Tail, Blocks, AfterBlocks, NoCr;
  }

  // ---------------------------------------------------------------- the reader

  method FieldsOfBlock(block: string) returns (event: string, data: string)
    ensures Fields(event, data) == FieldsOf(Lines(block))
  {
    event, data := "message", "";
    var lines := Lines(block);
    for i := 0 to |lines|
      invariant Fields(event, data) == FieldsOf(lines[..i])
    {
      assert lines[..i + 1][..i] == lines[..i];
      if StartsWith(lines[i], "event:") {
        event := Trim(lines[i][6..]);
      } else if StartsWith(lines[i], "data:") {
        data := data + Trim(lines[i][5..]);
      }
    }
    assert lines[..|lines|] == lines;
  }

  lemma {:induction false} BrokenStays(p: Progress, blocks: seq<string>, client: Client)
    requires p.broken
    ensures AfterBlocks(p, blocks, client) == p
  {
    if blocks != [] {
      BrokenStays(p, blocks[..|blocks| - 1], client);
    }
  }

  /** A stream that broke in its first pieces is read no further. */
  lemma {:induction false} BrokenReading(pieces: seq<string>, i: nat, client: Client)
    requires i <= |pieces| && Reading(Concat(pieces[..i]), client).broken
    ensures Reading(Concat(pieces), client) == Reading(Concat(pieces[..i]), client)
  {
    hide Reading;
    if i == |pieces| {
      assert pieces[..i] == pieces;
    } else {
      var init, last := pieces[..|pieces| - 1], pieces[|pieces| - 1];
      assert init[..i] == pieces[..i];
      BrokenReading(init, i, client);
      OneMorePiece(Concat(init), last, client);
      BrokenStays(Reading(Concat(init), client), Blocks(StripCr(Tail(StripCr(Concat(init))) + last)), client);
    }
  }

  lemma {:induction false} FirstBlockThenRest(p: Progress, s: string, client: Client)
    requires FirstBlankLine(s, 0) < |s|
    ensures var i := FirstBlankLine(s, 0);
            && AfterBlocks(p, Blocks(s), client) == AfterBlocks(AfterBlock(p, s[..i], client), Blocks(s[i + 2..]), client)
            && Tail(s) == Tail(s[i + 2..])
  {
    hide FirstBlankLine, AfterBlock;
    var i := FirstBlankLine(s, 0);
    AfterMoreBlocks(p, [s[..i]], Blocks(s[i + 2..]), client);
    assert [s[..i]][..0] == [];
  }

  /** The complete blocks of the buffer are taken off and handled. */
  method TakeBlocks(full: string, before: seq<Call>, client: Client) returns (calls: seq<Call>, broken: bool, buf: string)
    ensures Progress(calls, broken) == AfterBlocks(Progress(before, false), Blocks(full), client)
    ensures !broken ==> buf == Tail(full)
  {
    hide AfterBlocks, EffectOf, FieldsOf, Lines, FirstBlankLine;
    calls, broken, buf := before, false, full;
    var idx := FirstBlankLine(buf, 0);
    while idx < |buf|
      invariant idx == FirstBlankLine(buf, 0)
      invariant !broken
      invariant AfterBlocks(Progress(calls, false), Blocks(buf), client) == AfterBlocks(Progress(before, false), Blocks(full), client)
      invariant Tail(buf) == Tail(full)
      decreases |buf|
    {
      FirstBlockThenRest(Progress(calls, false), buf, client);
      var block := buf[..idx];
      buf := buf[idx + 2..];
      idx := FirstBlankLine(buf, 0);
      var event, data := FieldsOfBlock(block);
      match EffectOf(Fields(event, data), client) {
        case Nothing =>
        case Emit(call) =>
          calls := calls + [call];
          match client.react(calls) {
            case Returns =>
            case Throws(aborted) =>
              calls, broken := calls + [if aborted then OnAborted else OnBroken], true;
          }
        case Throw =>
          calls, broken := calls + [OnBroken], true;
      }
      if broken {
        BrokenStays(Progress(calls, true), Blocks(buf), client);
        return;
      }
    }
    NoBlocks(Progress(calls, false), buf, client);
  }

  lemma NoBlocks(p: Progress, s: string, client: Client)
    requires FirstBlankLine(s, 0) == |s|
    ensures AfterBlocks(p, Blocks(s), client) == p && Tail(s) == s
  {
  }

  /**
   * Reads the stream piece by piece. However the text is cut, inside a CRLF or a blank
   * line too, the handlers are called as for the whole text split once, and unless the
   * stream broke the same unfinished tail is left. `failure` is what the source throws
   * at the end instead of closing, if anything.
   */
  method ReadStream(pieces: seq<string>, failure: Option<Call>, client: Client) returns (calls: seq<Call>, broken: bool, buf: string)
    ensures var whole := Reading(Concat(pieces), client);
            && (failure == None || whole.broken ==> calls == whole.calls && broken == whole.broken)
            && (failure.Some? && !whole.broken ==> calls == whole.calls + [failure.value] && broken)
            && (!whole.broken ==> buf == Tail(StripCr(Concat(pieces))))
  {
    calls, broken, buf := [], false, "";
    assert Concat(pieces[..0]) == "" && Reading("", client) == Progress([], false);
    hide Reading, AfterBlocks, Blocks, StripCr;
    for i := 0 to |pieces|
      invariant !broken
      invariant Reading(Concat(pieces[..i]), client) == Progress(calls, false)
      invariant buf == Tail(StripCr(Concat(pieces[..i])))
    {
      assert pieces[..i + 1][..i] == pieces[..i];
      OneMorePiece(Concat(pieces[..i]), pieces[i], client);
      calls, broken, buf := TakeBlocks(StripCr(buf + pieces[i]), calls, client);
      if broken {
        BrokenReading(pieces, i + 1, client);
        return;
      }
    }
    assert pieces[..|pieces|] == pieces;
    if failure.Some? {
      calls, broken := calls + [failure.value], true;
    }
  }
}
