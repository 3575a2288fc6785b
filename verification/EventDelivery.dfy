/** What the reader of the event stream makes of one block, from the block's text. */
module EventDelivery {
  import opened EventStream
  import opened Text

  // ---------------------------------------------------------------- text

  predicate NoNewline(s: string) {
    forall i | 0 <= i < |s| :: s[i] != '\n'
  }

  predicate AllJsSpace(s: string) {
    forall i | 0 <= i < |s| :: IsJsSpace(s[i])
  }

  predicate JsTrimmed(s: string) {
    s == "" || (!IsJsSpace(s[0]) && !IsJsSpace(s[|s| - 1]))
  }

  lemma TrimStep(s: string)
    requires s != ""
    ensures IsJsSpace(s[0]) ==> Trim(s) == Trim(s[1..])
    ensures !IsJsSpace(s[0]) && IsJsSpace(s[|s| - 1]) ==> Trim(s) == Trim(s[..|s| - 1])
    ensures !IsJsSpace(s[0]) && !IsJsSpace(s[|s| - 1]) ==> Trim(s) == s
  {
  }

  /** White space, a text, and white space again. */
  predicate IsPadded(s: string, a: string, t: string, b: string) {
    s == a + t + b && AllJsSpace(a) && AllJsSpace(b)
  }

  lemma PaddedBefore(c: char, s: string, a: string, t: string, b: string)
    requires IsPadded(s, a, t, b) && IsJsSpace(c)
    ensures IsPadded([c] + s, [c] + a, t, b)
  {
    hide IsJsSpace;
    assert [c] + (a + t + b) == ([c] + a) + t + b;
  }

  lemma PaddedAfter(s: string, a: string, t: string, b: string, c: char)
    requires IsPadded(s, a, t, b) && IsJsSpace(c)
    ensures IsPadded(s + [c], a, t, b + [c])
  {
    hide IsJsSpace;
    assert (a + t + b) + [c] == a + t + (b + [c]);
  }

  lemma NotPadded(s: string)
    ensures IsPadded(s, "", s, "")
  {
  }

  /** Trimming drops white space at the two ends and nothing else. */
  lemma {:induction false} TrimSplits(s: string) returns (a: string, b: string)
    ensures IsPadded(s, a, Trim(s), b) && JsTrimmed(Trim(s))
    decreases |s|
  {
    a, b := "", "";
    NotPadded(s);
    if s != "" {
      hide Trim, IsJsSpace, IsPadded;
      TrimStep(s);
      if IsJsSpace(s[0]) {
        var tail := s[1..];
        a, b := TrimSplits(tail);
        PaddedBefore(s[0], tail, a, Trim(tail), b);
        assert s == [s[0]] + tail;
        a := [s[0]] + a;
      } else if IsJsSpace(s[|s| - 1]) {
        var init, c := s[..|s| - 1], s[|s| - 1];
        a, b := TrimSplits(init);
        PaddedAfter(init, a, Trim(init), b, c);
        assert s == init + [c];
        b := b + [c];
      }
    }
  }

  lemma TrimOfSpaced(s: string)
    requires JsTrimmed(s)
    ensures Trim(" " + s) == s && Trim(s) == s
  {
    assert (" " + s)[1..] == s;
  }

  /** Carriage returns go, every other character stays. */
  lemma StripCrOfOne(c: char)
    ensures StripCr([c]) == if c == '\r' then "" else [c]
    ensures StripCr("") == ""
  {
    assert [c][..0] == "";
  }

  lemma {:induction false} LinesGrow(s: string, line: string)
    requires NoNewline(line)
    ensures Lines(s) != []
    ensures Lines(s + "\n" + line) == Lines(s) + [line]
  {
    LinesNonempty(s);
    if line == "" {
      assert s + "\n" + line == s + "\n" && (s + "\n")[..|s|] == s;
    } else {
      var init, c := line[..|line| - 1], line[|line| - 1];
      LinesGrow(s, init);
      var t := s + "\n" + line;
      assert t[..|t| - 1] == s + "\n" + init && t[|t| - 1] == c;
      assert init + [c] == line;
    }
  }

  lemma {:induction false} LinesNonempty(s: string)
    ensures Lines(s) != []
  {
    if s != "" {
      LinesNonempty(s[..|s| - 1]);
    }
  }

  lemma {:induction false} OneLine(line: string)
    requires NoNewline(line)
    ensures Lines(line) == [line]
  {
    if line != "" {
      var init := line[..|line| - 1];
      OneLine(init);
      assert init + [line[|line| - 1]] == line;
    }
  }

  /** The lines of joined lines are those lines. */
  lemma {:induction false} LinesOfJoined(lines: seq<string>)
    requires lines != [] && forall i | 0 <= i < |lines| :: NoNewline(lines[i])
    ensures Lines(Join(lines, "\n")) == lines
  {
    if |lines| == 1 {
      OneLine(lines[0]);
    } else {
      var init, last := lines[..|lines| - 1], lines[|lines| - 1];
      LinesOfJoined(init);
      JoinAppend(init, last, "\n");
      assert init + [last] == lines;
      LinesGrow(Join(init, "\n"), last);
    }
  }

  // ---------------------------------------------------------------- fields

  /** The event of a block is that of its last event line, or `message` when there is none. */
  lemma {:induction false} EventIsTheLast(lines: seq<string>)
    ensures (forall i | 0 <= i < |lines| :: !StartsWith(lines[i], "event:")) ==> FieldsOf(lines).event == "message"
    ensures forall k | IsLastEvent(lines, k) :: FieldsOf(lines).event == Trim(lines[k][6..])
  {
    if lines != [] {
      var init, last := lines[..|lines| - 1], |lines| - 1;
      EventIsTheLast(init);
      hide Trim;
      forall k | IsLastEvent(lines, k) ensures FieldsOf(lines).event == Trim(lines[k][6..]) {
        if k < last {
          assert IsLastEvent(init, k);
        }
      }
    }
  }

  ghost predicate IsLastEvent(lines: seq<string>, k: int) {
    0 <= k < |lines| && StartsWith(lines[k], "event:") && forall j | k < j < |lines| :: !StartsWith(lines[j], "event:")
  }

  lemma FieldsOfTwo(event: string, data: string)
    requires JsTrimmed(event) && JsTrimmed(data)
    ensures FieldsOf(["event: " + event, "data: " + data]) == Fields(event, data)
  {
    var a, b := "event: " + event, "data: " + data;
    TrimOfSpaced(event);
    TrimOfSpaced(data);
    hide Trim;
    assert a[..6] == "event:" && a[6..] == " " + event;
    assert b[0] == 'd' && "event:"[0] == 'e' && b[..5] == "data:" && b[5..] == " " + data;
    var one := [a];
    assert [a, b][..1] == one && one[..0] == [];
    assert FieldsOf(one) == Fields(event, "");
    assert !StartsWith(b, "event:");
  }

  lemma NoNewlineAfter(a: string, b: string)
    requires NoNewline(a) && NoNewline(b)
    ensures NoNewline(a + b)
  {
  }

  lemma BlockFields(event: string, data: string)
    requires JsTrimmed(event) && JsTrimmed(data) && NoNewline(event) && NoNewline(data)
    ensures FieldsOf(Lines("event: " + event + "\n" + "data: " + data)) == Fields(event, data)
  {
    var a, b := "event: " + event, "data: " + data;
    FieldsOfTwo(event, data);
    hide FieldsOf, Lines, StartsWith, Trim;
    NoNewlineAfter("event: ", event);
    NoNewlineAfter("data: ", data);
    hide NoNewline;
    OneLine(a);
    LinesGrow(a, b);
    assert [a] + [b] == [a, b];
    Text.Regroup(a, "\n", b);
    Text.Regroup(a + "\n", "data: ", data);
  }

  // ---------------------------------------------------------------- what a block does

  /** The calls so far with one more, and the reader's own call if the handler throws. */
  function WithCall(calls: seq<Call>, call: Call, client: Client): Progress {
    match client.react(calls + [call])
    case Returns => Progress(calls + [call], false)
    case Throws(aborted) => Progress(calls + [call] + [if aborted then OnAborted else OnBroken], true)
  }

  /**
   * A block of an event and its data, as the server writes it: a token is handed on, empty
   * when the payload has none; the end with its payload; an error without; anything else and
   * data that does not parse are passed over; and null in a token event breaks the stream.
   */
  lemma BlockIsDelivered(calls: seq<Call>, event: string, data: string, client: Client)
    requires JsTrimmed(event) && JsTrimmed(data) && NoNewline(event) && NoNewline(data) && data != ""
    ensures AfterBlock(Progress(calls, false), "event: " + event + "\n" + "data: " + data, client)
            == match client.parse(data)
               case None => Progress(calls, false)
               case Some(Value(token, json)) =>
                 if event == "token" then WithCall(calls, OnToken(if token.Some? then token.value else ""), client)
                 else if event == "done" then WithCall(calls, OnDone(Value(token, json)), client)
                 else if event == "error" then WithCall(calls, OnServerError, client)
                 else Progress(calls, false)
               case Some(Null) =>
                 if event == "token" then Progress(calls + [OnBroken], true)
                 else if event == "done" then WithCall(calls, OnDone(Null), client)
                 else if event == "error" then WithCall(calls, OnServerError, client)
                 else Progress(calls, false)
  {
    BlockFields(event, data);
    hide Lines, FieldsOf, Trim;
  }

  /** A block without data, of any event, does nothing. */
  lemma BlockWithoutDataIsPassedOver(p: Progress, lines: seq<string>, client: Client)
    requires lines != [] && forall i | 0 <= i < |lines| :: NoNewline(lines[i]) && !StartsWith(lines[i], "data:")
    ensures AfterBlock(p, Join(lines, "\n"), client) == p
  {
    LinesOfJoined(lines);
    NoDataLines(lines);
    hide Lines, FieldsOf, StartsWith, Join;
  }

  lemma {:induction false} NoDataLines(lines: seq<string>)
    requires forall i | 0 <= i < |lines| :: !StartsWith(lines[i], "data:")
    ensures FieldsOf(lines).data == ""
  {
    if lines != [] {
      NoDataLines(lines[..|lines| - 1]);
    }
  }
}
