/** Packing the serialized rows of a large table into row chunks. */
module RowChunks {
  import opened Text

  /** Rows `rowFrom` to `rowTo`, counted from 1, and the chunk's text. */
  datatype RowChunk = RowChunk(rowFrom: nat, rowTo: nat, body: string)

  function Body(summary: string, lines: seq<string>): string {
    summary + "\n" + Join(lines, "\n")
  }

  /** `sum(len(x) + 1 for x in lines)` */
  function Weight(lines: seq<string>): nat {
    if lines == [] then 0 else Weight(lines[..|lines| - 1]) + |lines[|lines| - 1]| + 1
  }

  /** The test the loop makes before it adds the last line: one line always fits. */
  predicate Fits(summary: string, lines: seq<string>, maxChars: nat) {
    |lines| <= 1 || |summary| + Weight(lines) <= maxChars + 1
  }

  /** The end of the chunk that starts at line `a` and already reaches `b`. */
  function ChunkEnd(summary: string, lines: seq<string>, maxChars: nat, a: nat, b: nat): (e: nat)
    requires a < b <= |lines|
    ensures b <= e <= |lines|
    decreases |lines| - b
  {
    if b == |lines| || !Fits(summary, lines[a..b + 1], maxChars) then b
    else ChunkEnd(summary, lines, maxChars, a, b + 1)
  }

  function ChunksFrom(summary: string, lines: seq<string>, maxChars: nat, a: nat): seq<RowChunk>
    requires a <= |lines|
    decreases |lines| - a
  {
    if a == |lines| then []
    else
      var b := ChunkEnd(summary, lines, maxChars, a, a + 1);
      [RowChunk(a + 1, b, Body(summary, lines[a..b]))] + ChunksFrom(summary, lines, maxChars, b)
  }

  lemma WeightAppend(lines: seq<string>, line: string)
    ensures Weight(lines + [line]) == Weight(lines) + |line| + 1
  {
    assert (lines + [line])[..|lines|] == lines;
  }

  lemma CloseChunk(summary: string, lines: seq<string>, maxChars: nat, a: nat, i: nat)
    requires a < i <= |lines|
    requires ChunkEnd(summary, lines, maxChars, a, a + 1) == ChunkEnd(summary, lines, maxChars, a, i)
    requires i < |lines| ==> !Fits(summary, lines[a..i + 1], maxChars)
    ensures ChunksFrom(summary, lines, maxChars, a)
            == [RowChunk(a + 1, i, Body(summary, lines[a..i]))] + ChunksFrom(summary, lines, maxChars, i)
  {
  }

  lemma GrowChunk(summary: string, lines: seq<string>, maxChars: nat, a: nat, i: nat)
    requires a < i < |lines| && Fits(summary, lines[a..i + 1], maxChars)
    ensures ChunkEnd(summary, lines, maxChars, a, i) == ChunkEnd(summary, lines, maxChars, a, i + 1)
  {
  }

  lemma AddingLine(summary: string, lines: seq<string>, maxChars: nat, a: nat, i: nat)
    requires a < i < |lines|
    ensures Fits(summary, lines[a..i + 1], maxChars)
            <==> |summary| + Weight(lines[a..i]) + |lines[i]| <= maxChars
  {
    WeightAppend(lines[a..i], lines[i]);
    assert lines[a..i + 1] == lines[a..i] + [lines[i]];
  }

  /** After line `i`: the closed chunks, and the lines of the chunk being filled. */
  ghost predicate Packing(out: seq<RowChunk>, buf: seq<string>, firstRow: nat, i: nat,
                          summary: string, lines: seq<string>, maxChars: nat) {
    && 1 <= firstRow <= i <= |lines|
    && buf == lines[firstRow - 1..i]
    && out + ChunksFrom(summary, lines, maxChars, firstRow - 1) == ChunksFrom(summary, lines, maxChars, 0)
    && ChunkEnd(summary, lines, maxChars, firstRow - 1, firstRow) == ChunkEnd(summary, lines, maxChars, firstRow - 1, i)
  }

  lemma PackFirst(summary: string, lines: seq<string>, maxChars: nat)
    requires lines != []
    ensures Packing([], [lines[0]], 1, 1, summary, lines, maxChars)
  {
    hide ChunksFrom, ChunkEnd;
  }

  lemma PackFlush(out: seq<RowChunk>, buf: seq<string>, firstRow: nat, i: nat,
                  summary: string, lines: seq<string>, maxChars: nat)
    requires Packing(out, buf, firstRow, i, summary, lines, maxChars) && i < |lines|
    requires |summary| + Weight(buf) + |lines[i]| > maxChars
    ensures Packing(out + [RowChunk(firstRow, i, Body(summary, buf))], [lines[i]], i + 1, i + 1, summary, lines, maxChars)
  {
    AddingLine(summary, lines, maxChars, firstRow - 1, i);
    CloseChunk(summary, lines, maxChars, firstRow - 1, i);
    hide ChunksFrom, ChunkEnd, Body, Fits, Weight;
    Regroup(out, [RowChunk(firstRow, i, Body(summary, buf))], ChunksFrom(summary, lines, maxChars, i));
  }

  lemma PackGrow(out: seq<RowChunk>, buf: seq<string>, firstRow: nat, i: nat,
                 summary: string, lines: seq<string>, maxChars: nat)
    requires Packing(out, buf, firstRow, i, summary, lines, maxChars) && i < |lines|
    requires |summary| + Weight(buf) + |lines[i]| <= maxChars
    ensures Packing(out, buf + [lines[i]], firstRow, i + 1, summary, lines, maxChars)
  {
    AddingLine(summary, lines, maxChars, firstRow - 1, i);
    GrowChunk(summary, lines, maxChars, firstRow - 1, i);
    hide ChunksFrom, ChunkEnd, Fits, Weight;
  }

  lemma PackLast(out: seq<RowChunk>, buf: seq<string>, firstRow: nat,
                 summary: string, lines: seq<string>, maxChars: nat)
    requires Packing(out, buf, firstRow, |lines|, summary, lines, maxChars)
    ensures out + [RowChunk(firstRow, |lines|, Body(summary, buf))] == ChunksFrom(summary, lines, maxChars, 0)
  {
    CloseChunk(summary, lines, maxChars, firstRow - 1, |lines|);
    NoChunks(summary, lines, maxChars);
    hide ChunksFrom, ChunkEnd, Body;
  }

  /** The loop over the rows, as it runs. */
  method PackRows(summary: string, lines: seq<string>, maxChars: nat) returns (out: seq<RowChunk>)
    ensures out == ChunksFrom(summary, lines, maxChars, 0)
  {
    out := [];
    var buf: seq<string> := [];
    var firstRow := 1;
    NoChunks(summary, lines, maxChars);
    hide Weight, Body, Packing, ChunksFrom;
    for i := 0 to |lines|
      invariant i == 0 ==> out == [] && buf == [] && firstRow == 1
      invariant i > 0 ==> buf != [] && Packing(out, buf, firstRow, i, summary, lines, maxChars)
    {
      var line := lines[i];
      if i == 0 {
        PackFirst(summary, lines, maxChars);
      }
      if buf != [] && |summary| + Weight(buf) + |line| > maxChars {
        PackFlush(out, buf, firstRow, i, summary, lines, maxChars);
        out := out + [RowChunk(firstRow, i, Body(summary, buf))];
        buf, firstRow := [], i + 1;
      } else if buf != [] {
        PackGrow(out, buf, firstRow, i, summary, lines, maxChars);
      }
      buf := buf + [line];
      assert [] + [line] == [line];
    }
    if buf != [] {
      PackLast(out, buf, firstRow, summary, lines, maxChars);
      out := out + [RowChunk(firstRow, |lines|, Body(summary, buf))];
    }
  }

  lemma NoChunks(summary: string, lines: seq<string>, maxChars: nat)
    ensures ChunksFrom(summary, lines, maxChars, |lines|) == []
  {
  }

  // ---------------------------------------------------------------- partition

  ghost predicate Covers(chunks: seq<RowChunk>, summary: string, lines: seq<string>, maxChars: nat, a: nat, k: nat)
    requires k < |chunks|
  {
    && chunks[k].rowFrom == (if k == 0 then a + 1 else chunks[k - 1].rowTo + 1)
    && chunks[k].rowFrom <= chunks[k].rowTo <= |lines|
    && (k == |chunks| - 1 ==> chunks[k].rowTo == |lines|)
    && chunks[k].body == Body(summary, lines[chunks[k].rowFrom - 1..chunks[k].rowTo])
    && Fits(summary, lines[chunks[k].rowFrom - 1..chunks[k].rowTo], maxChars)
  }

  lemma {:induction false} ChunkEndFits(summary: string, lines: seq<string>, maxChars: nat, a: nat, b: nat)
    requires a < b <= |lines| && Fits(summary, lines[a..b], maxChars)
    ensures var e := ChunkEnd(summary, lines, maxChars, a, b);
            && Fits(summary, lines[a..e], maxChars)
            && (e < |lines| ==> !Fits(summary, lines[a..e + 1], maxChars))
    decreases |lines| - b
  {
    hide Fits;
    if b < |lines| && Fits(summary, lines[a..b + 1], maxChars) {
      ChunkEndFits(summary, lines, maxChars, a, b + 1);
    }
  }

  lemma {:induction false} ChunksPartition(summary: string, lines: seq<string>, maxChars: nat, a: nat)
    requires a <= |lines|
    ensures var chunks := ChunksFrom(summary, lines, maxChars, a);
            && (chunks == [] <==> a == |lines|)
            && forall k | 0 <= k < |chunks| :: Covers(chunks, summary, lines, maxChars, a, k)
    decreases |lines| - a
  {
    if a < |lines| {
      var b := ChunkEnd(summary, lines, maxChars, a, a + 1);
      ChunkEndFits(summary, lines, maxChars, a, a + 1);
      ChunksPartition(summary, lines, maxChars, b);
      var chunks, rest := ChunksFrom(summary, lines, maxChars, a), ChunksFrom(summary, lines, maxChars, b);
      assert chunks == [RowChunk(a + 1, b, Body(summary, lines[a..b]))] + rest;
      hide Fits, Body, ChunkEnd, ChunksFrom;
      forall k | 0 <= k < |chunks| ensures Covers(chunks, summary, lines, maxChars, a, k) {
        if k > 0 {
          assert chunks[k] == rest[k - 1];
          assert Covers(rest, summary, lines, maxChars, b, k - 1);
        }
      }
    }
  }

  // ---------------------------------------------------------------- optimality

  /** Cut points of any in-order split of the lines into parts that pass the test. */
  ghost predicate ValidSplit(cuts: seq<nat>, summary: string, lines: seq<string>, maxChars: nat) {
    && cuts != [] && cuts[0] == 0 && cuts[|cuts| - 1] == |lines|
    && forall j | 0 <= j < |cuts| - 1 :: PassingPart(cuts, summary, lines, maxChars, j)
  }

  ghost predicate PassingPart(cuts: seq<nat>, summary: string, lines: seq<string>, maxChars: nat, j: nat)
    requires j + 1 < |cuts|
  {
    cuts[j] < cuts[j + 1] <= |lines| && Fits(summary, lines[cuts[j]..cuts[j + 1]], maxChars)
  }

  lemma {:induction false} WeightConcat(a: seq<string>, b: seq<string>)
    ensures Weight(a + b) == Weight(a) + Weight(b)
  {
    if b == [] {
      assert a + b == a;
    } else {
      WeightConcat(a, b[..|b| - 1]);
      assert (a + b)[..|a + b| - 1] == a + b[..|b| - 1];
    }
  }

  /** A part inside a part that passes the test passes it too. */
  lemma FitsInside(summary: string, lines: seq<string>, maxChars: nat, a: nat, a': nat, b': nat, b: nat)
    requires a <= a' < b' <= b <= |lines| && Fits(summary, lines[a..b], maxChars)
    ensures Fits(summary, lines[a'..b'], maxChars)
  {
    hide Weight;
    WeightConcat(lines[a..a'], lines[a'..b']);
    WeightConcat(lines[a..b'], lines[b'..b]);
    assert lines[a..b'] == lines[a..a'] + lines[a'..b'];
    assert lines[a..b] == lines[a..b'] + lines[b'..b];
  }

  lemma FirstChunk(summary: string, lines: seq<string>, maxChars: nat, a: nat)
    requires a < |lines|
    ensures |ChunksFrom(summary, lines, maxChars, a)|
            == 1 + |ChunksFrom(summary, lines, maxChars, ChunkEnd(summary, lines, maxChars, a, a + 1))|
  {
    hide Body, ChunkEnd;
  }

  /** The greedy chunk from a line inside a part of a valid split reaches the end of that part. */
  lemma GreedyReaches(cuts: seq<nat>, summary: string, lines: seq<string>, maxChars: nat, a: nat, j: nat)
    requires ValidSplit(cuts, summary, lines, maxChars)
    requires j + 1 < |cuts| && cuts[j] <= a < |lines|
    ensures cuts[j + 1] <= ChunkEnd(summary, lines, maxChars, a, a + 1)
  {
    var e := ChunkEnd(summary, lines, maxChars, a, a + 1);
    ChunkEndFits(summary, lines, maxChars, a, a + 1);
    assert PassingPart(cuts, summary, lines, maxChars, j);
    hide Fits, ChunkEnd;
    if e < cuts[j + 1] {
      FitsInside(summary, lines, maxChars, cuts[j], a, e + 1, cuts[j + 1]);
      assert false;
    }
  }

  /** Greedy from line `a` needs no more chunks than a split whose cut `j` is not beyond `a`. */
  lemma {:induction false} GreedyStaysAhead(cuts: seq<nat>, summary: string, lines: seq<string>, maxChars: nat,
                                            a: nat, j: nat)
    requires ValidSplit(cuts, summary, lines, maxChars)
    requires j < |cuts| && cuts[j] <= a <= |lines|
    ensures |ChunksFrom(summary, lines, maxChars, a)| + 1 <= |cuts| - j
    decreases |cuts| - j
  {
    if a < |lines| {
      assert j + 1 < |cuts|;
      FirstChunk(summary, lines, maxChars, a);
      GreedyReaches(cuts, summary, lines, maxChars, a, j);
      hide ChunksFrom, ChunkEnd, ValidSplit;
      GreedyStaysAhead(cuts, summary, lines, maxChars, ChunkEnd(summary, lines, maxChars, a, a + 1), j + 1);
    } else {
      NoChunks(summary, lines, maxChars);
      hide ChunksFrom;
    }
  }

  /** A chunk is one row, or at most one character longer than the limit. */
  lemma {:induction false} BodyLength(summary: string, lines: seq<string>)
    requires lines != []
    ensures |Body(summary, lines)| == |summary| + Weight(lines)
  {
    if |lines| > 1 {
      var init, last := lines[..|lines| - 1], lines[|lines| - 1];
      BodyLength(summary, init);
      JoinAppend(init, last, "\n");
      assert init + [last] == lines;
    }
  }

  /** The loop's sum is a test on the text of the chunk: one row, or at most one character over the limit. */
  lemma FitsIsAboutTheText(summary: string, lines: seq<string>, maxChars: nat)
    requires lines != []
    ensures Fits(summary, lines, maxChars) <==> |lines| == 1 || |summary + "\n" + Join(lines, "\n")| <= maxChars + 1
    ensures Body(summary, lines) == summary + "\n" + Join(lines, "\n")
  {
    BodyLength(summary, lines);
    hide Join, Weight;
  }

  /**
   * The row chunks are consecutive ranges that partition rows 1 to n in order, each
   * holds exactly its rows and is one row or at most `maxChars + 1` characters, and
   * no in-order split whose parts pass the same test has fewer parts.
   */
  lemma RowChunksAreOptimal(summary: string, lines: seq<string>, maxChars: nat)
    ensures var chunks := ChunksFrom(summary, lines, maxChars, 0);
            && (chunks == [] <==> lines == [])
            && (forall k | 0 <= k < |chunks| :: Covers(chunks, summary, lines, maxChars, 0, k))
            && (forall k | 0 <= k < |chunks| ::
                  chunks[k].rowFrom == chunks[k].rowTo || |chunks[k].body| <= maxChars + 1)
            && (forall cuts | ValidSplit(cuts, summary, lines, maxChars) :: |chunks| <= |cuts| - 1)
            && (exists cuts :: ValidSplit(cuts, summary, lines, maxChars) && |chunks| == |cuts| - 1)
  {
    var chunks := ChunksFrom(summary, lines, maxChars, 0);
    ChunksPartition(summary, lines, maxChars, 0);
    forall k | 0 <= k < |chunks|
      ensures chunks[k].rowFrom == chunks[k].rowTo || |chunks[k].body| <= maxChars + 1
    {
      assert Covers(chunks, summary, lines, maxChars, 0, k);
      BodyLength(summary, lines[chunks[k].rowFrom - 1..chunks[k].rowTo]);
    }
    forall cuts | ValidSplit(cuts, summary, lines, maxChars) ensures |chunks| <= |cuts| - 1 {
      GreedyStaysAhead(cuts, summary, lines, maxChars, 0, 0);
    }
    GreedyIsValid(summary, lines, maxChars);
  }

  lemma GreedyIsValid(summary: string, lines: seq<string>, maxChars: nat)
    ensures exists cuts :: ValidSplit(cuts, summary, lines, maxChars)
                           && |ChunksFrom(summary, lines, maxChars, 0)| == |cuts| - 1
  {
    var chunks := ChunksFrom(summary, lines, maxChars, 0);
    ChunksPartition(summary, lines, maxChars, 0);
    hide Fits, Body, ChunksFrom;
    var cuts := Ends(chunks);
    forall j | 0 <= j < |cuts| - 1 ensures PassingPart(cuts, summary, lines, maxChars, j) {
      assert Covers(chunks, summary, lines, maxChars, 0, j);
    }
    if chunks != [] {
      assert Covers(chunks, summary, lines, maxChars, 0, |chunks| - 1);
    }
    assert ValidSplit(cuts, summary, lines, maxChars);
  }

  /** 0 and the last row of each chunk. */
  function Ends(chunks: seq<RowChunk>): (cuts: seq<nat>)
    ensures |cuts| == |chunks| + 1 && cuts[0] == 0
    ensures forall i | 0 <= i < |chunks| :: cuts[i + 1] == chunks[i].rowTo
  {
    seq(|chunks| + 1, i requires 0 <= i <= |chunks| => if i == 0 then 0 else chunks[i - 1].rowTo)
  }
}
