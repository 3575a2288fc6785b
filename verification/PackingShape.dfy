/** The exact places where the packer cuts, closes and merges, in characters. */
module PackingShape {
  import opened Text
  import opened Packing

  // ---------------------------------------------------------------- where a long paragraph is cut

  /** Where cut `i` of a paragraph begins: each a window less the overlap after the one before. */
  function CutAt(l: Limits, i: nat): (at: int)
    requires l.Valid()
    ensures at >= 0
  {
    if i == 0 then 0 else CutAt(l, i - 1) + (l.maxC - l.overlap)
  }

  lemma {:induction false} CutAtIsMultiple(l: Limits, i: nat)
    requires l.Valid()
    ensures CutAt(l, i) == i * (l.maxC - l.overlap)
  {
    if i > 0 {
      CutAtIsMultiple(l, i - 1);
      var step := l.maxC - l.overlap;
      assert (i - 1) * step + step == i * step;
    }
  }

  lemma {:induction false} CutAtShift(l: Limits, i: nat)
    requires l.Valid()
    ensures CutAt(l, i + 1) == (l.maxC - l.overlap) + CutAt(l, i)
  {
  }

  /** Cut `i` of the paragraph is a full window from its place on, and the last one is what is left. */
  ghost predicate IsCutOf(us: seq<string>, p: string, l: Limits, i: nat)
    requires l.Valid() && i < |us|
  {
    && CutAt(l, i) <= |p|
    && if i < |us| - 1 then CutAt(l, i) + l.maxC < |p| && us[i] == p[CutAt(l, i)..CutAt(l, i) + l.maxC]
       else |p| <= CutAt(l, i) + l.maxC && us[i] == p[CutAt(l, i)..]
  }

  lemma CutsShift(us: seq<string>, p: string, l: Limits, i: nat)
    requires l.Valid() && |p| > l.maxC && i < |us| && IsCutOf(us, p[l.maxC - l.overlap..], l, i)
    ensures IsCutOf([p[..l.maxC]] + us, p, l, i + 1)
  {
    CutAtShift(l, i);
    hide CutAt;
    var rest, at := p[l.maxC - l.overlap..], CutAt(l, i);
    assert ([p[..l.maxC]] + us)[i + 1] == us[i];
    if i < |us| - 1 {
      assert rest[at..at + l.maxC] == p[CutAt(l, i + 1)..CutAt(l, i + 1) + l.maxC];
    } else {
      assert rest[at..] == p[CutAt(l, i + 1)..];
    }
  }

  /**
   * A trimmed paragraph is cut at every window less the overlap: all cuts but the last are
   * full windows, and the last is the first that reaches the end.
   */
  lemma {:induction false} CutsAreFull(p: string, l: Limits)
    requires l.Valid() && EndsVisibly(p)
    ensures HardSplit(p, l) != []
    ensures forall i | 0 <= i < |HardSplit(p, l)| :: IsCutOf(HardSplit(p, l), p, l, i)
    decreases |p|
  {
    SplitShape(p, l);
    var us := HardSplit(p, l);
    if |p| > l.maxC {
      var rest := p[l.maxC - l.overlap..];
      CutsAreFull(rest, l);
      assert us == [p[..l.maxC]] + HardSplit(rest, l);
      hide HardSplit, IsCutOf;
      forall i | 0 <= i < |us| ensures IsCutOf(us, p, l, i) {
        if i > 0 {
          CutsShift(HardSplit(rest, l), p, l, i - 1);
        } else {
          FirstCut(us, p, l);
        }
      }
    } else {
      assert !Blank(p) && us == [p];
    }
  }

  lemma FirstCut(us: seq<string>, p: string, l: Limits)
    requires l.Valid() && |p| > l.maxC && |us| > 1 && us[0] == p[..l.maxC]
    ensures IsCutOf(us, p, l, 0)
  {
  }

  // ---------------------------------------------------------------- when a window is closed

  /** Window `i` was closed because the first unit of the next one does not fit behind it. */
  ghost predicate ClosedInTime(ws: seq<string>, gs: seq<seq<string>>, i: nat, l: Limits)
    requires i + 1 < |ws| == |gs|
  {
    gs[i + 1] != [] && |ws[i]| + 2 + |gs[i + 1][0]| > l.maxC
  }

  ghost predicate AllClosedInTime(ws: seq<string>, gs: seq<seq<string>>, l: Limits) {
    && |ws| == |gs|
    && (forall i | 0 <= i < |ws| :: gs[i] != [])
    && forall i | 0 <= i < |ws| - 1 :: ClosedInTime(ws, gs, i, l)
  }

  lemma ClosedNew(ws: seq<string>, gs: seq<seq<string>>, w: string, unit: string, l: Limits)
    requires AllClosedInTime(ws, gs, l)
    requires ws != [] ==> |ws[|ws| - 1]| + 2 + |unit| > l.maxC
    ensures AllClosedInTime(ws + [w], gs + [[unit]], l)
  {
    var ws', gs' := ws + [w], gs + [[unit]];
    forall i | 0 <= i < |ws'| - 1 ensures ClosedInTime(ws', gs', i, l) {
      if i < |ws| - 1 {
        assert ClosedInTime(ws, gs, i, l);
      }
    }
  }

  lemma ClosedGrow(ws: seq<string>, gs: seq<seq<string>>, unit: string, l: Limits)
    requires AllClosedInTime(ws, gs, l) && ws != []
    ensures var k := |ws| - 1;
            AllClosedInTime(ws[..k] + [ws[k] + GAP + unit], gs[..k] + [gs[k] + [unit]], l)
  {
    var k := |ws| - 1;
    var ws', gs' := ws[..k] + [ws[k] + GAP + unit], gs[..k] + [gs[k] + [unit]];
    forall i | 0 <= i < |ws'| - 1 ensures ClosedInTime(ws', gs', i, l) {
      assert ClosedInTime(ws, gs, i, l);
      assert ws'[i] == ws[i] && gs'[i + 1][0] == gs[i + 1][0];
    }
  }

  lemma ClosedStep(f: Filling, gs: seq<seq<string>>, unit: string, l: Limits)
    requires unit != "" && AllClosedInTime(f.Windows(), gs, l) && (f.buf == "" ==> f.chunks == [])
    ensures AllClosedInTime(AddUnit(f, unit, l).Windows(), AddToGroups(gs, Closes(f.buf, unit, l), unit), l)
  {
    hide AllClosedInTime;
    var ws, k := f.Windows(), |f.Windows()| - 1;
    SameLength(ws, gs, l);
    if Closes(f.buf, unit, l) {
      ClosedNew(ws, gs, Carry(ws[k], l) + unit, unit, l);
      assert AddUnit(f, unit, l).Windows() == ws + [Carry(ws[k], l) + unit];
    } else if f.buf == "" {
      ClosedNew(ws, gs, unit, unit, l);
    } else {
      ClosedGrow(ws, gs, unit, l);
      assert AddUnit(f, unit, l).Windows() == ws[..k] + [ws[k] + GAP + unit];
    }
  }

  lemma SameLength(ws: seq<string>, gs: seq<seq<string>>, l: Limits)
    requires AllClosedInTime(ws, gs, l)
    ensures |ws| == |gs|
  {
  }

  lemma {:induction false} FillClosesInTime(units: seq<string>, l: Limits)
    requires EachFilled(units)
    ensures AllClosedInTime(Fill(units, l).Windows(), Groups(units, l), l)
    ensures (units == []) == (Fill(units, l).buf == "")
  {
    if units != [] {
      var init, unit := units[..|units| - 1], units[|units| - 1];
      FillClosesInTime(init, l);
      ClosedStep(Fill(init, l), Groups(init, l), unit, l);
    }
  }

  /** What a window repeats of `w`: its last `overlap` characters, or all of it, and a blank line; nothing without overlap. */
  lemma CarryIsTheEnd(w: string, l: Limits)
    requires w != ""
    ensures l.overlap == 0 ==> Carry(w, l) == ""
    ensures l.overlap > 0 ==>
              Carry(w, l) == (if l.overlap < |w| then w[|w| - l.overlap..] else w) + "\n\n"
  {
  }

  /**
   * The windows are filled greedily: one takes in more units only up to the largest size,
   * and is closed only when the next unit does not fit behind it; the next one starts with its end.
   */
  lemma WindowsAreGreedy(units: seq<string>, l: Limits)
    requires EachFilled(units) && EachAtMost(units, l.maxC)
    ensures var ws, gs := Fill(units, l).Windows(), Groups(units, l);
            && |ws| == |gs| && Flatten(gs) == units
            && (forall i | 0 <= i < |ws| - 1 :: ClosedInTime(ws, gs, i, l))
            && (forall i | 0 <= i < |ws| :: gs[i] != [] && (|gs[i]| > 1 ==> |ws[i]| <= l.maxC))
            && forall i | 0 <= i < |ws| :: HoldsGroup(ws, gs, i, l)
  {
    var ws, gs := Fill(units, l).Windows(), Groups(units, l);
    FillClosesInTime(units, l);
    OversizedWindows(units, l);
    WindowsHoldUnits(units, l);
    GroupsFlatten(units, l);
    hide HoldsGroup, ClosedInTime, Filling.Windows, Fill, Groups, Flatten;
    forall i | 0 <= i < |ws| ensures gs[i] != [] && (|gs[i]| > 1 ==> |ws[i]| <= l.maxC) {
      assert Measured(ws, gs, i, l);
    }
  }

  /**
   * The packer joins the last two windows exactly if the last is shorter than the smallest
   * wanted and the two together stay below 1.2 windows; otherwise it gives the windows.
   */
  lemma TailIsMerged(ps: seq<string>, l: Limits)
    requires l.Valid() && Proper(ps)
    ensures var ws := Fill(Units(ps, l), l).Windows(); var n := |ws|;
            Pack(ps, l) == if n >= 2 && |ws[n - 1]| < l.minC && 10 * (|ws[n - 2]| + |ws[n - 1]|) < 12 * l.maxC
                           then ws[..n - 2] + [ws[n - 2] + "\n\n" + ws[n - 1]] else ws
  {
    var units := Units(ps, l);
    var f := Fill(units, l);
    UnitsOfProper(ps, l);
    if ps == [] {
      assert f == Filling([], "");
    } else {
      BufferEndsVisibly(units, l);
      assert !Blank(f.buf);
      assert f.Windows() == f.chunks + [f.buf];
      var ws, n := f.Windows(), |f.Windows()|;
      hide Fill, Units, Blank;
      if f.chunks != [] {
        assert ws[n - 2] == f.chunks[n - 2] && ws[..n - 2] == f.chunks[..n - 2];
      }
    }
  }
}
