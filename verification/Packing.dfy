/**
 * The window packer of the semantic chunker: paragraphs are cut into units no
 * longer than a window, units are packed greedily into windows, and every
 * window after the first starts with the end of its predecessor.
 */
module Packing {
  import opened Text

  /** Window sizes in characters: smallest wanted, largest allowed, and carried over. */
  datatype Limits = Limits(minC: nat, maxC: nat, overlap: nat) {
    predicate Valid() {
      overlap < maxC
    }
  }

  /** The blank line between two units of one window. */
  const GAP := "\n\n"

  // ---------------------------------------------------------------- cutting

  /** One paragraph cut into units: each continuation repeats `overlap` characters. */
  function HardSplit(p: string, l: Limits): seq<string>
    requires l.Valid()
    decreases |p|
  {
    if |p| > l.maxC then [p[..l.maxC]] + HardSplit(p[l.maxC - l.overlap..], l)
    else if !Blank(p) then [p]
    else []
  }

  function Units(ps: seq<string>, l: Limits): seq<string>
    requires l.Valid()
  {
    if ps == [] then [] else Units(ps[..|ps| - 1], l) + HardSplit(ps[|ps| - 1], l)
  }

  // ---------------------------------------------------------------- packing

  /** The packer between two units: closed windows and the window being filled. */
  datatype Filling = Filling(chunks: seq<string>, buf: string) {
    function Windows(): seq<string> {
      if buf == "" then chunks else chunks + [buf]
    }
  }

  /** The end of a closed window that the next one repeats. */
  function Tail(w: string, l: Limits): string {
    if |w| <= l.overlap then w else w[|w| - l.overlap..]
  }

  /** What the window after `w` starts with, before its own units. */
  function Carry(w: string, l: Limits): string {
    if Tail(w, l) == "" then "" else Tail(w, l) + GAP
  }

  predicate Closes(buf: string, unit: string, l: Limits) {
    buf != "" && |buf| + |GAP| + |unit| > l.maxC
  }

  function AddUnit(f: Filling, unit: string, l: Limits): Filling {
    if Closes(f.buf, unit, l) then Filling(f.chunks + [f.buf], Carry(f.buf, l) + unit)
    else Filling(f.chunks, if f.buf == "" then unit else f.buf + GAP + unit)
  }

  function Fill(units: seq<string>, l: Limits): Filling {
    if units == [] then Filling([], "")
    else AddUnit(Fill(units[..|units| - 1], l), units[|units| - 1], l)
  }

  /** A short last window joins its predecessor when both stay below 1.2 windows. */
  predicate MergesTail(f: Filling, l: Limits) {
    && f.chunks != []
    && |f.buf| < l.minC
    && 5 * (|f.chunks[|f.chunks| - 1]| + |f.buf|) < 6 * l.maxC
  }

  function Finish(f: Filling, l: Limits): seq<string> {
    if Blank(f.buf) then f.chunks
    else if MergesTail(f, l) then
      var last := |f.chunks| - 1;
      f.chunks[..last] + [f.chunks[last] + GAP + f.buf]
    else f.chunks + [f.buf]
  }

  function Pack(ps: seq<string>, l: Limits): seq<string>
    requires l.Valid()
  {
    Finish(Fill(Units(ps, l), l), l)
  }

  lemma SplitLong(p: string, l: Limits, before: seq<string>)
    requires l.Valid() && |p| > l.maxC
    ensures before + HardSplit(p, l) == before + [p[..l.maxC]] + HardSplit(p[l.maxC - l.overlap..], l)
  {
  }

  lemma SplitShort(p: string, l: Limits, before: seq<string>)
    requires l.Valid() && |p| <= l.maxC
    ensures before + HardSplit(p, l) == if Blank(p) then before else before + [p]
  {
  }

  /** The first loop of the packer: every paragraph longer than a window is cut. */
  method CutParagraphs(paragraphs: seq<string>, l: Limits) returns (units: seq<string>)
    requires l.Valid()
    ensures units == Units(paragraphs, l)
  {
    hide Strip, HardSplit;
    units := [];
    for i := 0 to |paragraphs|
      invariant units == Units(paragraphs[..i], l)
    {
      var p := paragraphs[i];
      ghost var before := units;
      while |p| > l.maxC
        invariant units + HardSplit(p, l) == before + HardSplit(paragraphs[i], l)
        decreases |p|
      {
        SplitLong(p, l, units);
        units := units + [p[..l.maxC]];
        p := p[l.maxC - l.overlap..];
      }
      SplitShort(p, l, units);
      if Strip(p) != "" {
        units := units + [p];
      }
      assert paragraphs[..i + 1][..i] == paragraphs[..i];
    }
    assert paragraphs[..|paragraphs|] == paragraphs;
  }

  lemma FillStep(units: seq<string>, i: nat, l: Limits)
    requires i < |units|
    ensures Fill(units[..i + 1], l) == AddUnit(Fill(units[..i], l), units[i], l)
  {
    assert units[..i + 1][..i] == units[..i];
  }

  /** The second loop of the packer: windows are filled as far as they go. */
  method FillWindows(units: seq<string>, l: Limits) returns (chunks: seq<string>, buf: string)
    ensures Filling(chunks, buf) == Fill(units, l)
  {
    chunks, buf := [], "";
    assert Fill([], l) == Filling([], "");
    hide Fill;
    for i := 0 to |units|
      invariant Filling(chunks, buf) == Fill(units[..i], l)
    {
      var unit := units[i];
      var candidate := if buf != "" then buf + GAP + unit else unit;
      FillStep(units, i, l);
      if buf != "" && |candidate| > l.maxC {
        chunks := chunks + [buf];
        var tail := if l.overlap != 0 then Tail(buf, l) else "";
        buf := if tail != "" then tail + GAP + unit else unit;
      } else {
        buf := candidate;
      }
    }
    assert units[..|units|] == units;
  }

  method PackParagraphs(paragraphs: seq<string>, l: Limits) returns (chunks: seq<string>)
    requires l.Valid()
    ensures chunks == Pack(paragraphs, l)
  {
    var units := CutParagraphs(paragraphs, l);
    var buf;
    chunks, buf := FillWindows(units, l);
    if Strip(buf) != "" {
      if chunks != [] && |buf| < l.minC
         && (|chunks[|chunks| - 1]| + |buf|) as real < l.maxC as real * 1.2 {
        chunks := chunks[..|chunks| - 1] + [chunks[|chunks| - 1] + GAP + buf];
      } else {
        chunks := chunks + [buf];
      }
    }
  }

  // ------------------------------------------------- nothing lost in cutting

  /** Glue units back: drop from every continuation the characters it repeats. */
  function Rejoin(units: seq<string>, overlap: nat): string {
    if units == [] then "" else units[0] + RejoinRest(units[1..], overlap)
  }

  function RejoinRest(units: seq<string>, overlap: nat): string {
    if units == [] then ""
    else (if overlap <= |units[0]| then units[0][overlap..] else "") + RejoinRest(units[1..], overlap)
  }

  /** A piece that ends in a visible character. */
  predicate EndsVisibly(p: string) {
    p != "" && !IsSpace(p[|p| - 1])
  }

  predicate EachFilled(units: seq<string>) {
    forall i | 0 <= i < |units| :: units[i] != ""
  }

  predicate EachAtMost(units: seq<string>, size: nat) {
    forall i | 0 <= i < |units| :: |units[i]| <= size
  }

  lemma EachOfConcat(a: seq<string>, b: seq<string>, size: nat)
    ensures EachFilled(a) && EachFilled(b) ==> EachFilled(a + b)
    ensures EachAtMost(a, size) && EachAtMost(b, size) ==> EachAtMost(a + b, size)
  {
  }

  lemma {:induction false} SplitShape(p: string, l: Limits)
    requires l.Valid() && EndsVisibly(p)
    ensures HardSplit(p, l) != []
    ensures EndsVisibly(HardSplit(p, l)[|HardSplit(p, l)| - 1])
    ensures EachFilled(HardSplit(p, l))
    decreases |p|
  {
    if |p| > l.maxC {
      var rest := p[l.maxC - l.overlap..];
      SplitShape(rest, l);
      EachOfConcat([p[..l.maxC]], HardSplit(rest, l), l.maxC);
    } else {
      assert !Blank(p);
    }
  }

  lemma RejoinRestCons(unit: string, rest: seq<string>, overlap: nat)
    requires overlap <= |unit|
    ensures RejoinRest([unit] + rest, overlap) == unit[overlap..] + RejoinRest(rest, overlap)
  {
    assert ([unit] + rest)[1..] == rest;
  }

  lemma RejoinCons(unit: string, rest: seq<string>, overlap: nat)
    ensures Rejoin([unit] + rest, overlap) == unit + RejoinRest(rest, overlap)
  {
    assert ([unit] + rest)[1..] == rest;
  }

  /** The units of a piece, each without what it repeats, are the piece from `overlap` on. */
  lemma {:induction false} SplitRejoins(p: string, l: Limits)
    requires l.Valid() && EndsVisibly(p) && l.overlap <= |p|
    ensures RejoinRest(HardSplit(p, l), l.overlap) == p[l.overlap..]
    decreases |p|
  {
    if |p| > l.maxC {
      SplitLong(p, l, []);
      assert [] + HardSplit(p, l) == HardSplit(p, l);
      hide HardSplit, RejoinRest;
      var head, rest := p[..l.maxC], p[l.maxC - l.overlap..];
      assert [] + [head] == [head];
      SplitRejoins(rest, l);
      RejoinRestCons(head, HardSplit(rest, l), l.overlap);
      assert head[l.overlap..] + rest[l.overlap..] == p[l.overlap..];
    } else {
      assert !Blank(p);
      RejoinRestCons(p, [], l.overlap);
    }
  }

  lemma GlueCut(p: string, l: Limits)
    requires l.Valid() && |p| > l.maxC
    ensures p[..l.maxC] + p[l.maxC - l.overlap..][l.overlap..] == p
  {
  }

  /** Cutting a trimmed paragraph and gluing the units gives the paragraph back. */
  lemma {:induction false} HardSplitRoundTrip(p: string, l: Limits)
    requires l.Valid() && EndsVisibly(p)
    ensures Rejoin(HardSplit(p, l), l.overlap) == p
  {
    assert [] + HardSplit(p, l) == HardSplit(p, l);
    if |p| > l.maxC {
      SplitLong(p, l, []);
      var head, rest := p[..l.maxC], p[l.maxC - l.overlap..];
      RejoinCons(head, HardSplit(rest, l), l.overlap);
      hide HardSplit, Rejoin, RejoinRest;
      SplitRejoins(rest, l);
      assert [] + [head] == [head];
      GlueCut(p, l);
    } else {
      SplitShort(p, l, []);
      assert !Blank(p);
      hide HardSplit;
      RejoinCons(p, [], l.overlap);
    }
  }

  // ------------------------------------------------- nothing lost in packing

  /** Which units each window holds. */
  function Groups(units: seq<string>, l: Limits): seq<seq<string>> {
    if units == [] then []
    else
      var init, unit := units[..|units| - 1], units[|units| - 1];
      AddToGroups(Groups(init, l), Closes(Fill(init, l).buf, unit, l), unit)
  }

  function AddToGroups(gs: seq<seq<string>>, closes: bool, unit: string): seq<seq<string>> {
    if gs == [] || closes then gs + [[unit]]
    else gs[..|gs| - 1] + [gs[|gs| - 1] + [unit]]
  }

  function Flatten<T>(gs: seq<seq<T>>): seq<T> {
    if gs == [] then [] else Flatten(gs[..|gs| - 1]) + gs[|gs| - 1]
  }

  /** What window `i` repeats from its predecessor. */
  function Carried(ws: seq<string>, i: nat, l: Limits): string
    requires i < |ws|
  {
    if i == 0 then "" else Carry(ws[i - 1], l)
  }

  /** Window `i` is what it repeats from its predecessor, then its group. */
  ghost predicate HoldsGroup(ws: seq<string>, gs: seq<seq<string>>, i: nat, l: Limits)
    requires i < |ws| == |gs|
  {
    gs[i] != [] && ws[i] == Carried(ws, i, l) + Join(gs[i], GAP)
  }

  ghost predicate HoldsGroups(ws: seq<string>, gs: seq<seq<string>>, l: Limits) {
    && |ws| == |gs|
    && forall i | 0 <= i < |ws| :: HoldsGroup(ws, gs, i, l)
  }

  lemma HoldsNew(ws: seq<string>, gs: seq<seq<string>>, unit: string, l: Limits)
    requires HoldsGroups(ws, gs, l) && ws != []
    ensures HoldsGroups(ws + [Carry(ws[|ws| - 1], l) + unit], gs + [[unit]], l)
  {
    assert Join([unit], GAP) == unit;
    hide Join, Carry;
    var ws', gs' := ws + [Carry(ws[|ws| - 1], l) + unit], gs + [[unit]];
    forall i | 0 <= i < |ws'| ensures HoldsGroup(ws', gs', i, l) {
      if i < |ws| {
        assert HoldsGroup(ws, gs, i, l);
        assert Carried(ws', i, l) == Carried(ws, i, l);
        assert ws'[i] == ws[i] && gs'[i] == gs[i];
      } else {
        assert Carried(ws', i, l) == Carry(ws[|ws| - 1], l);
        assert gs'[i] == [unit];
      }
    }
  }

  lemma GrownWindow(carried: string, group: seq<string>, unit: string)
    requires group != []
    ensures carried + Join(group, GAP) + GAP + unit == carried + Join(group + [unit], GAP)
  {
    JoinAppend(group, unit, GAP);
    hide Join;
    Regroup(carried, Join(group, GAP) + GAP, unit);
    Regroup(carried, Join(group, GAP), GAP);
  }

  lemma HoldsGrow(ws: seq<string>, gs: seq<seq<string>>, unit: string, l: Limits)
    requires HoldsGroups(ws, gs, l) && ws != []
    ensures var k := |ws| - 1;
            HoldsGroups(ws[..k] + [ws[k] + GAP + unit], gs[..k] + [gs[k] + [unit]], l)
  {
    var k := |ws| - 1;
    var ws', gs' := ws[..k] + [ws[k] + GAP + unit], gs[..k] + [gs[k] + [unit]];
    assert HoldsGroup(ws, gs, k, l);
    GrownWindow(Carried(ws, k, l), gs[k], unit);
    hide Join, Carry;
    forall i | 0 <= i < |ws'| ensures HoldsGroup(ws', gs', i, l) {
      assert HoldsGroup(ws, gs, i, l);
      assert Carried(ws', i, l) == Carried(ws, i, l);
      if i < k {
        assert ws'[i] == ws[i] && gs'[i] == gs[i];
      }
    }
  }

  /**
   * The windows hold every unit once and in order: the groups concatenate to the
   * unit list, and each window is the end of its predecessor and then its group.
   */
  lemma {:induction false} WindowsHoldUnits(units: seq<string>, l: Limits)
    requires EachFilled(units)
    ensures HoldsGroups(Fill(units, l).Windows(), Groups(units, l), l)
    ensures (units == []) == (Fill(units, l).buf == "")
  {
    if units != [] {
      var init, unit := units[..|units| - 1], units[|units| - 1];
      WindowsHoldUnits(init, l);
      var f, gs := Fill(init, l), Groups(init, l);
      WindowsStep(f, gs, unit, l);
    }
  }

  lemma WindowsStep(f: Filling, gs: seq<seq<string>>, unit: string, l: Limits)
    requires unit != "" && HoldsGroups(f.Windows(), gs, l) && (f.buf == "" ==> f.chunks == [])
    ensures HoldsGroups(AddUnit(f, unit, l).Windows(), AddToGroups(gs, Closes(f.buf, unit, l), unit), l)
    ensures AddUnit(f, unit, l).buf != ""
  {
    var ws, k := f.Windows(), |f.Windows()| - 1;
    if Closes(f.buf, unit, l) {
      HoldsNew(ws, gs, unit, l);
      assert AddUnit(f, unit, l).Windows() == ws + [Carry(ws[k], l) + unit];
    } else if f.buf == "" {
      assert Join([unit], GAP) == unit;
    } else {
      HoldsGrow(ws, gs, unit, l);
      assert AddUnit(f, unit, l).Windows() == ws[..k] + [ws[k] + GAP + unit];
    }
  }

  lemma AddToGroupsFlatten(gs: seq<seq<string>>, closes: bool, unit: string)
    ensures Flatten(AddToGroups(gs, closes, unit)) == Flatten(gs) + [unit]
  {
    var k := |gs| - 1;
    if gs == [] || closes {
      assert (gs + [[unit]])[..|gs|] == gs;
    } else {
      assert (gs[..k] + [gs[k] + [unit]])[..k] == gs[..k];
    }
  }

  lemma {:induction false} GroupsFlatten(units: seq<string>, l: Limits)
    ensures Flatten(Groups(units, l)) == units
  {
    if units != [] {
      var init, unit := units[..|units| - 1], units[|units| - 1];
      var closes := Closes(Fill(init, l).buf, unit, l);
      assert Groups(units, l) == AddToGroups(Groups(init, l), closes, unit);
      hide Groups, AddToGroups, Flatten, Fill, Closes;
      GroupsFlatten(init, l);
      AddToGroupsFlatten(Groups(init, l), closes, unit);
      assert init + [unit] == units;
    }
  }

  /** Window `i` without what it repeats. */
  function Fresh(ws: seq<string>, i: nat, l: Limits): string
    requires i < |ws|
  {
    if |Carried(ws, i, l)| <= |ws[i]| then ws[i][|Carried(ws, i, l)|..] else ""
  }

  function FreshParts(ws: seq<string>, l: Limits): seq<string> {
    seq(|ws|, i requires 0 <= i < |ws| => Fresh(ws, i, l))
  }

  function JoinEach(gs: seq<seq<string>>): seq<string> {
    seq(|gs|, i requires 0 <= i < |gs| => Join(gs[i], GAP))
  }

  lemma {:induction false} JoinConcat(a: seq<string>, b: seq<string>)
    requires a != [] && b != []
    ensures Join(a + b, GAP) == Join(a, GAP) + GAP + Join(b, GAP)
  {
    if |a| == 1 {
      assert (a + b)[1..] == b;
    } else {
      JoinConcat(a[1..], b);
      assert (a + b)[1..] == a[1..] + b;
    }
  }

  lemma {:induction false} JoinOfGroups(gs: seq<seq<string>>)
    requires forall i | 0 <= i < |gs| :: gs[i] != []
    ensures Join(JoinEach(gs), GAP) == Join(Flatten(gs), GAP)
    ensures gs != [] ==> Flatten(gs) != []
  {
    if |gs| == 1 {
      assert Flatten(gs) == Flatten(gs[..0]) + gs[0] == gs[0];
    } else if gs != [] {
      var init, last := gs[..|gs| - 1], gs[|gs| - 1];
      JoinOfGroups(init);
      JoinConcat(Flatten(init), last);
      JoinAppend(JoinEach(init), Join(last, GAP), GAP);
      assert JoinEach(gs) == JoinEach(init) + [Join(last, GAP)];
    }
  }

  lemma FreshPartsAreGroups(ws: seq<string>, gs: seq<seq<string>>, l: Limits)
    requires HoldsGroups(ws, gs, l)
    ensures FreshParts(ws, l) == JoinEach(gs)
  {
    hide Join, Carry;
    forall i | 0 <= i < |ws| ensures Fresh(ws, i, l) == Join(gs[i], GAP) {
      assert HoldsGroup(ws, gs, i, l);
    }
  }

  /** Dropping the repeated part of every window and joining gives the joined units. */
  lemma FreshPartsRecoverUnits(units: seq<string>, l: Limits)
    requires EachFilled(units)
    ensures Join(FreshParts(Fill(units, l).Windows(), l), GAP) == Join(units, GAP)
  {
    var ws, gs := Fill(units, l).Windows(), Groups(units, l);
    WindowsHoldUnits(units, l);
    GroupsFlatten(units, l);
    FreshPartsAreGroups(ws, gs, l);
    forall i | 0 <= i < |gs| ensures gs[i] != [] {
      assert HoldsGroup(ws, gs, i, l);
    }
    JoinOfGroups(gs);
  }

  /** Paragraphs as the caller passes them: trimmed and not empty. */
  predicate Proper(ps: seq<string>) {
    forall i | 0 <= i < |ps| :: ps[i] != "" && Trimmed(ps[i])
  }

  function SplitEach(ps: seq<string>, l: Limits): seq<seq<string>>
    requires l.Valid()
  {
    seq(|ps|, i requires 0 <= i < |ps| => HardSplit(ps[i], l))
  }

  lemma {:induction false} UnitsFlatten(ps: seq<string>, l: Limits)
    requires l.Valid()
    ensures Units(ps, l) == Flatten(SplitEach(ps, l))
  {
    if ps != [] {
      var init := ps[..|ps| - 1];
      UnitsFlatten(init, l);
      assert SplitEach(ps, l)[..|init|] == SplitEach(init, l);
    }
  }

  lemma {:induction false} UnitsOfProper(ps: seq<string>, l: Limits)
    requires l.Valid() && Proper(ps)
    ensures EachFilled(Units(ps, l))
    ensures ps != [] ==> Units(ps, l) != [] && EndsVisibly(Units(ps, l)[|Units(ps, l)| - 1])
  {
    if ps != [] {
      UnitsOfProper(ps[..|ps| - 1], l);
      SplitShape(ps[|ps| - 1], l);
      EachOfConcat(Units(ps[..|ps| - 1], l), HardSplit(ps[|ps| - 1], l), l.maxC);
    }
  }

  /** The window being filled ends with the last unit. */
  lemma BufferEndsVisibly(units: seq<string>, l: Limits)
    requires units != [] && EndsVisibly(units[|units| - 1])
    ensures EndsVisibly(Fill(units, l).buf)
  {
  }

  lemma FinishKeepsWindows(f: Filling, l: Limits)
    requires EndsVisibly(f.buf)
    ensures var ws, n := f.Windows(), |f.Windows()|;
            || Finish(f, l) == ws
            || (n >= 2 && Finish(f, l) == ws[..n - 2] + [ws[n - 2] + GAP + ws[n - 1]])
  {
    assert !Blank(f.buf);
    assert f.Windows() == f.chunks + [f.buf];
    if MergesTail(f, l) {
      var k := |f.chunks| - 1;
      assert f.Windows()[..k] == f.chunks[..k];
    }
  }

  /**
   * The packer loses and reorders nothing. With `ws` the windows before the merge
   * of a short tail: each window is the end of its predecessor and then its group of
   * units, the unrepeated parts join to the units, the units are the paragraphs'
   * cuts in order, and each paragraph is its own cuts glued back.
   * The result is `ws`, or `ws` with its last two windows joined by a blank line.
   */
  lemma PackLosesNothing(ps: seq<string>, l: Limits)
    requires l.Valid() && Proper(ps)
    ensures var ws, n := Fill(Units(ps, l), l).Windows(), |Fill(Units(ps, l), l).Windows()|;
            && HoldsGroups(ws, Groups(Units(ps, l), l), l)
            && Flatten(Groups(Units(ps, l), l)) == Units(ps, l)
            && Join(FreshParts(ws, l), GAP) == Join(Units(ps, l), GAP)
            && Units(ps, l) == Flatten(SplitEach(ps, l))
            && (forall i | 0 <= i < |ps| :: Rejoin(SplitEach(ps, l)[i], l.overlap) == ps[i])
            && (Pack(ps, l) == ws
                || (n >= 2 && Pack(ps, l) == ws[..n - 2] + [ws[n - 2] + GAP + ws[n - 1]]))
  {
    var units := Units(ps, l);
    UnitsOfProper(ps, l);
    UnitsFlatten(ps, l);
    WindowsHoldUnits(units, l);
    GroupsFlatten(units, l);
    FreshPartsRecoverUnits(units, l);
    forall i | 0 <= i < |ps| ensures Rejoin(SplitEach(ps, l)[i], l.overlap) == ps[i] {
      HardSplitRoundTrip(ps[i], l);
    }
    if ps != [] {
      BufferEndsVisibly(units, l);
      FinishKeepsWindows(Fill(units, l), l);
    }
  }

  // ---------------------------------------------------------------- size

  ghost predicate WindowSize(w: string, l: Limits) {
    |w| <= l.maxC + l.overlap + |GAP|
  }

  lemma {:induction false} WindowSizes(units: seq<string>, l: Limits)
    requires EachAtMost(units, l.maxC)
    ensures forall i | 0 <= i < |Fill(units, l).chunks| :: WindowSize(Fill(units, l).chunks[i], l)
    ensures WindowSize(Fill(units, l).buf, l)
  {
    if units != [] {
      WindowSizes(units[..|units| - 1], l);
    }
  }

  lemma {:induction false} UnitSizes(ps: seq<string>, l: Limits)
    requires l.Valid()
    ensures EachAtMost(Units(ps, l), l.maxC)
  {
    if ps != [] {
      UnitSizes(ps[..|ps| - 1], l);
      HardSplitSizes(ps[|ps| - 1], l);
      EachOfConcat(Units(ps[..|ps| - 1], l), HardSplit(ps[|ps| - 1], l), l.maxC);
    }
  }

  lemma {:induction false} HardSplitSizes(p: string, l: Limits)
    requires l.Valid()
    ensures EachAtMost(HardSplit(p, l), l.maxC)
    decreases |p|
  {
    if |p| > l.maxC {
      var rest := p[l.maxC - l.overlap..];
      HardSplitSizes(rest, l);
      EachOfConcat([p[..l.maxC]], HardSplit(rest, l), l.maxC);
    }
  }

  /** At most a window, its overlap and a blank line; or 1.2 windows and a blank line. */
  ghost predicate ChunkSize(c: string, l: Limits) {
    WindowSize(c, l) || 5 * |c| < 6 * l.maxC + 5 * |GAP|
  }

  lemma FinishSizes(f: Filling, l: Limits)
    requires forall i | 0 <= i < |f.chunks| :: WindowSize(f.chunks[i], l)
    requires WindowSize(f.buf, l)
    ensures forall i | 0 <= i < |Finish(f, l)| :: ChunkSize(Finish(f, l)[i], l)
  {
    forall i | 0 <= i < |Finish(f, l)| ensures ChunkSize(Finish(f, l)[i], l) {
      var last := |f.chunks| - 1;
      if Blank(f.buf) {
      } else if MergesTail(f, l) {
        assert i == last ==> Finish(f, l)[i] == f.chunks[last] + GAP + f.buf;
      } else {
        assert i > last ==> Finish(f, l)[i] == f.buf;
      }
    }
  }

  /** No chunk is longer than a window with its overlap, or than 1.2 windows, plus a blank line. */
  lemma PackSizes(ps: seq<string>, l: Limits)
    requires l.Valid()
    ensures forall i | 0 <= i < |Pack(ps, l)| :: ChunkSize(Pack(ps, l)[i], l)
  {
    UnitSizes(ps, l);
    WindowSizes(Units(ps, l), l);
    FinishSizes(Fill(Units(ps, l), l), l);
  }

  // ---------------------------------------------------------------- exactly when a window is too long

  /** A window of one unit that, after what it repeats, does not fit. */
  predicate Overflows(ws: seq<string>, gs: seq<seq<string>>, i: nat, l: Limits)
    requires i < |ws| == |gs|
  {
    |gs[i]| == 1 && |Carried(ws, i, l)| + |gs[i][0]| > l.maxC
  }

  /** What is known of window `i` from its group. */
  ghost predicate Measured(ws: seq<string>, gs: seq<seq<string>>, i: nat, l: Limits)
    requires i < |ws| == |gs|
  {
    gs[i] != [] && (|ws[i]| > l.maxC <==> Overflows(ws, gs, i, l))
  }

  ghost predicate AllMeasured(ws: seq<string>, gs: seq<seq<string>>, l: Limits) {
    |ws| == |gs| && forall i | 0 <= i < |ws| :: Measured(ws, gs, i, l)
  }

  lemma MeasuredNew(ws: seq<string>, gs: seq<seq<string>>, w: string, unit: string, l: Limits)
    requires AllMeasured(ws, gs, l) && |unit| <= l.maxC
    requires w == (if ws == [] then unit else Carry(ws[|ws| - 1], l) + unit)
    ensures AllMeasured(ws + [w], gs + [[unit]], l)
  {
    var ws', gs' := ws + [w], gs + [[unit]];
    hide Carry;
    forall i | 0 <= i < |ws'| ensures Measured(ws', gs', i, l) {
      if i < |ws| {
        assert Measured(ws, gs, i, l);
        assert Carried(ws', i, l) == Carried(ws, i, l) && ws'[i] == ws[i] && gs'[i] == gs[i];
      } else {
        assert gs'[i] == [unit] && ws'[i] == Carried(ws', i, l) + unit;
      }
    }
  }

  /** A window only grows while it stays within the limit, so it only overflows with one unit. */
  lemma MeasuredGrow(ws: seq<string>, gs: seq<seq<string>>, unit: string, l: Limits)
    requires AllMeasured(ws, gs, l) && ws != [] && |ws[|ws| - 1]| + |GAP| + |unit| <= l.maxC
    ensures var k := |ws| - 1;
            AllMeasured(ws[..k] + [ws[k] + GAP + unit], gs[..k] + [gs[k] + [unit]], l)
  {
    var k := |ws| - 1;
    var ws', gs' := ws[..k] + [ws[k] + GAP + unit], gs[..k] + [gs[k] + [unit]];
    hide Carry;
    assert Measured(ws, gs, k, l);
    forall i | 0 <= i < |ws'| ensures Measured(ws', gs', i, l) {
      assert Measured(ws, gs, i, l);
      assert Carried(ws', i, l) == Carried(ws, i, l);
      if i < k {
        assert ws'[i] == ws[i] && gs'[i] == gs[i];
      } else {
        assert gs'[i] == gs[k] + [unit];
      }
    }
  }

  lemma MeasuredStep(f: Filling, gs: seq<seq<string>>, unit: string, l: Limits)
    requires unit != "" && |unit| <= l.maxC && AllMeasured(f.Windows(), gs, l) && (f.buf == "" ==> f.chunks == [])
    ensures AllMeasured(AddUnit(f, unit, l).Windows(), AddToGroups(gs, Closes(f.buf, unit, l), unit), l)
  {
    var ws, k := f.Windows(), |f.Windows()| - 1;
    if Closes(f.buf, unit, l) {
      MeasuredNew(ws, gs, Carry(ws[k], l) + unit, unit, l);
      assert AddUnit(f, unit, l).Windows() == ws + [Carry(ws[k], l) + unit];
    } else if f.buf == "" {
      MeasuredNew(ws, gs, unit, unit, l);
    } else {
      MeasuredGrow(ws, gs, unit, l);
      assert AddUnit(f, unit, l).Windows() == ws[..k] + [ws[k] + GAP + unit];
    }
  }

  /** A window exceeds the largest size exactly if its only unit does not fit after what it repeats. */
  lemma {:induction false} OversizedWindows(units: seq<string>, l: Limits)
    requires EachFilled(units) && EachAtMost(units, l.maxC)
    ensures AllMeasured(Fill(units, l).Windows(), Groups(units, l), l)
    ensures (units == []) == (Fill(units, l).buf == "")
  {
    if units != [] {
      var init, unit := units[..|units| - 1], units[|units| - 1];
      OversizedWindows(init, l);
      MeasuredStep(Fill(init, l), Groups(init, l), unit, l);
    }
  }

  /** The last closed window was closed because the one after it does not fit behind it. */
  lemma {:induction false} LastTwoExceed(units: seq<string>, l: Limits)
    ensures var f := Fill(units, l);
            f.chunks != [] ==> |f.chunks[|f.chunks| - 1]| + |GAP| + |f.buf| > l.maxC
  {
    if units != [] {
      LastTwoExceed(units[..|units| - 1], l);
    }
  }

  /**
   * Exactly which chunks exceed the largest window: those that are one unit which does
   * not fit after the carried overlap, and a short tail merged into its predecessor,
   * which always does.
   */
  lemma OversizedChunks(ps: seq<string>, l: Limits)
    requires l.Valid() && Proper(ps)
    ensures var f, gs := Fill(Units(ps, l), l), Groups(Units(ps, l), l);
            var ws, cs := f.Windows(), Pack(ps, l);
            && |ws| == |gs|
            && |cs| == (if MergesTail(f, l) then |ws| - 1 else |ws|)
            && forall i | 0 <= i < |cs| ::
                 |cs[i]| > l.maxC <==> Overflows(ws, gs, i, l) || (MergesTail(f, l) && i == |cs| - 1)
  {
    var units, f, cs := Units(ps, l), Fill(Units(ps, l), l), Pack(ps, l);
    var ws, gs := f.Windows(), Groups(units, l);
    UnitsOfProper(ps, l);
    UnitSizes(ps, l);
    OversizedWindows(units, l);
    LastTwoExceed(units, l);
    if ps != [] {
      BufferEndsVisibly(units, l);
      assert ws == f.chunks + [f.buf] && !Blank(f.buf);
    }
    hide Groups, Fill, Units, Carry, Overflows;
    forall i | 0 <= i < |cs|
      ensures |cs[i]| > l.maxC <==> Overflows(ws, gs, i, l) || (MergesTail(f, l) && i == |cs| - 1)
    {
      assert Measured(ws, gs, i, l);
      if MergesTail(f, l) && i < |cs| - 1 {
        assert cs[i] == f.chunks[i];
      }
    }
  }

  /** Any two paragraphs of a full window each make a chunk that exceeds it, as long as there is an overlap. */
  lemma FullParagraphsExceed(a: string, b: string, l: Limits)
    requires l.Valid() && l.overlap > 0 && l.minC <= l.maxC
    requires Proper([a, b]) && |a| == |b| == l.maxC
    ensures Pack([a, b], l) == [a, a[|a| - l.overlap..] + GAP + b]
    ensures |Pack([a, b], l)[1]| == l.overlap + |GAP| + l.maxC
  {
    assert [a, b][0] == a && [a, b][1] == b;
    assert a != "" && !IsSpace(a[0]) && b != "" && !IsSpace(b[|b| - 1]);
    var window := Carry(a, l) + b;
    assert window == a[|a| - l.overlap..] + GAP + b;
    assert window[|window| - 1] == b[|b| - 1] && !Blank(window);
    TwoUnits(a, b, l);
    TwoWindows(a, b, l);
    hide Units, Fill, Carry, Blank;
    assert [] + [window] == [window];
  }

  lemma TwoUnits(a: string, b: string, l: Limits)
    requires l.Valid() && |a| == |b| == l.maxC && !Blank(a) && !Blank(b)
    ensures Units([a, b], l) == [a, b]
  {
    hide Blank;
    assert HardSplit(a, l) == [a] && HardSplit(b, l) == [b];
    assert [a, b][..1] == [a];
    assert Units([a], l) == Units([a][..0], l) + [a] == [a];
  }

  lemma TwoWindows(a: string, b: string, l: Limits)
    requires |a| + |GAP| + |b| > l.maxC && a != ""
    ensures Fill([a, b], l) == Filling([a], Carry(a, l) + b)
  {
    hide Carry;
    assert [a, b][..1] == [a];
    assert Fill([a][..0], l) == Filling([], "");
    assert Fill([a], l) == Filling([], a);
  }

  lemma SomeChunkExceeds()
    ensures Pack(["aaaa", "bbbb"], Limits(0, 4, 1)) == ["aaaa", "a\n\nbbbb"]
  {
    var a, b := "aaaa", "bbbb";
    assert a[0] == 'a' && a[3] == 'a' && b[0] == 'b' && b[3] == 'b';
    assert Proper([a, b]);
    hide Pack;
    FullParagraphsExceed(a, b, Limits(0, 4, 1));
    assert a[3..] + GAP + b == "a\n\nbbbb";
  }
}
