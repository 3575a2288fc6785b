/** Citation markers: rewriting the model's native form, and mapping markers to passages. */
module Citations {
  import opened Evidence
  import opened Options
  import opened Text

  const OPEN := '\U{3010}'
  const CLOSE := '\U{3011}'
  const DAGGER := '\U{2020}'

  const INSUFFICIENT_ANSWER: string :=
    "I don't have enough supporting evidence in the documents you can access to answer that confidently."

  predicate IsDigit(c: char) {
    '0' <= c <= '9'
  }

  predicate AllDigits(ds: string) {
    ds != "" && forall i | 0 <= i < |ds| :: IsDigit(ds[i])
  }

  // ---------------------------------------------------------------- native markers

  /** What follows the first closing bracket. */
  function AfterClose(s: string): (rest: Option<string>)
    ensures rest.Some? ==> |rest.value| < |s|
  {
    if s == "" then None else if s[0] == CLOSE then Some(s[1..]) else AfterClose(s[1..])
  }

  /** What follows `\s*(?:†[^】]*)?】`. */
  function AfterSuffix(s: string): (rest: Option<string>)
    ensures rest.Some? ==> |rest.value| < |s|
  {
    if s == "" then None
    else if IsSpace(s[0]) then AfterSuffix(s[1..])
    else if s[0] == DAGGER then AfterClose(s[1..])
    else if s[0] == CLOSE then Some(s[1..])
    else None
  }

  /** What follows `\d*` and the suffix. */
  function AfterDigits(s: string): (rest: Option<string>)
    ensures rest.Some? ==> |rest.value| < |s|
  {
    if s != "" && IsDigit(s[0]) then AfterDigits(s[1..]) else AfterSuffix(s)
  }

  /** What follows `\s*\d+` and the suffix. */
  function AfterBody(s: string): (rest: Option<string>)
    ensures rest.Some? ==> |rest.value| < |s|
  {
    if s == "" then None
    else if IsSpace(s[0]) then AfterBody(s[1..])
    else if IsDigit(s[0]) then AfterDigits(s[1..])
    else None
  }

  /** What follows a native marker that starts the text. */
  function AfterNative(s: string): (rest: Option<string>)
    ensures rest.Some? ==> |rest.value| < |s|
  {
    if s == "" || s[0] != OPEN then None else AfterBody(s[1..])
  }

  function LeadingDigits(s: string): string {
    if s != "" && IsDigit(s[0]) then [s[0]] + LeadingDigits(s[1..]) else ""
  }

  /** Every native marker, leftmost first, becomes `[n]`. */
  function Normalize(s: string): string
    decreases |s|
  {
    if s == "" then ""
    else match AfterNative(s)
         case Some(rest) => "[" + LeadingDigits(LStrip(s[1..])) + "]" + Normalize(rest)
         case None => [s[0]] + Normalize(s[1..])
  }

  predicate NoNative(s: string) {
    s == "" || (AfterNative(s).None? && NoNative(s[1..]))
  }

  lemma {:induction false} CloseComesFromClose(s: string)
    ensures AfterClose(Normalize(s)).Some? ==> AfterClose(s).Some?
    decreases |s|
  {
    if s != "" {
      match AfterNative(s) {
        case Some(rest) => NativeHasClose(s);
        case None =>
          CloseComesFromClose(s[1..]);
          assert Normalize(s)[1..] == Normalize(s[1..]);
      }
    }
  }

  lemma {:induction false} NativeHasClose(s: string)
    ensures AfterSuffix(s).Some? ==> AfterClose(s).Some?
    ensures AfterDigits(s).Some? ==> AfterClose(s).Some?
    ensures AfterBody(s).Some? ==> AfterClose(s).Some?
    ensures AfterNative(s).Some? ==> AfterClose(s).Some?
  {
    if s != "" {
      NativeHasClose(s[1..]);
    }
  }

  /** The first character survives, unless a marker started there. */
  lemma NormalizeHead(s: string)
    requires s != ""
    ensures Normalize(s) != ""
    ensures if AfterNative(s).Some? then Normalize(s)[0] == '['
            else Normalize(s)[0] == s[0] && Normalize(s)[1..] == Normalize(s[1..])
  {
  }

  lemma {:induction false} SuffixSurvives(s: string)
    ensures AfterSuffix(Normalize(s)).Some? ==> AfterSuffix(s).Some?
  {
    if s != "" {
      NormalizeHead(s);
      SuffixSurvives(s[1..]);
      CloseComesFromClose(s[1..]);
      hide Normalize;
    }
  }

  lemma {:induction false} DigitsSurvive(s: string)
    ensures AfterDigits(Normalize(s)).Some? ==> AfterDigits(s).Some?
  {
    SuffixSurvives(s);
    if s != "" {
      NormalizeHead(s);
      DigitsSurvive(s[1..]);
      hide Normalize;
    }
  }

  lemma {:induction false} BodySurvives(s: string)
    ensures AfterBody(Normalize(s)).Some? ==> AfterBody(s).Some?
  {
    if s != "" {
      NormalizeHead(s);
      DigitsSurvive(s[1..]);
      BodySurvives(s[1..]);
      hide Normalize;
    }
  }

  lemma {:induction false} BracketedHasNoNative(ds: string, rest: string)
    requires NoNative(rest) && (forall i | 0 <= i < |ds| :: ds[i] != OPEN)
    ensures NoNative(ds + rest)
  {
    if ds == "" {
      assert ds + rest == rest;
    } else {
      BracketedHasNoNative(ds[1..], rest);
      assert (ds + rest)[1..] == ds[1..] + rest;
    }
  }

  lemma {:induction false} LeadingDigitsAreDigits(s: string)
    ensures forall i | 0 <= i < |LeadingDigits(s)| :: IsDigit(LeadingDigits(s)[i])
  {
    if s != "" && IsDigit(s[0]) {
      LeadingDigitsAreDigits(s[1..]);
    }
  }

  /** A substitution never creates a new marker: none is left anywhere. */
  lemma {:induction false} NormalizeLeavesNoNative(s: string)
    ensures NoNative(Normalize(s))
    decreases |s|
  {
    if s != "" {
      match AfterNative(s) {
        case Some(rest) =>
          NormalizeLeavesNoNative(rest);
          var ds := LeadingDigits(LStrip(s[1..]));
          LeadingDigitsAreDigits(LStrip(s[1..]));
          BracketedHasNoNative("[" + ds + "]", Normalize(rest));
        case None =>
          NormalizeLeavesNoNative(s[1..]);
          NormalizeHead(s);
          BodySurvives(s[1..]);
      }
    }
  }

  lemma {:induction false} NormalizeKeepsPlain(s: string)
    requires NoNative(s)
    ensures Normalize(s) == s
  {
    if s != "" {
      NormalizeKeepsPlain(s[1..]);
    }
  }

  /** Normalizing twice is normalizing once. */
  lemma NormalizeIdempotent(s: string)
    ensures NoNative(Normalize(s))
    ensures Normalize(Normalize(s)) == Normalize(s)
    ensures Normalize(s) == s <==> NoNative(s)
  {
    NormalizeLeavesNoNative(s);
    NormalizeKeepsPlain(Normalize(s));
    if NoNative(s) {
      NormalizeKeepsPlain(s);
    }
  }

  // ---------------------------------------------------------------- [n] markers

  /** `int(digits)` */
  function Value(ds: string): nat {
    if ds == "" then 0
    else 10 * Value(ds[..|ds| - 1])
         + (if IsDigit(ds[|ds| - 1]) then ds[|ds| - 1] as int - '0' as int else 0)
  }

  /** The digits of a marker `[digits]` that starts the text; empty when there is none. */
  function MarkerDigits(s: string): (ds: string)
    ensures ds != "" ==> |ds| + 2 <= |s|
  {
    if s == "" || s[0] != '[' then ""
    else
      var ds := LeadingDigits(s[1..]);
      if LeadingPrefix(s[1..]) + 1 < |s| && s[|ds| + 1] == ']' then ds else ""
  }

  function LeadingPrefix(s: string): (n: nat)
    ensures n == |LeadingDigits(s)| <= |s|
  {
    if s != "" && IsDigit(s[0]) then 1 + LeadingPrefix(s[1..]) else 0
  }

  /** `findall`: the markers, leftmost first, without overlap. */
  function Markers(s: string): seq<nat>
    decreases |s|
  {
    if s == "" then []
    else
      var ds := MarkerDigits(s);
      if ds != "" then [Value(ds)] + Markers(s[|ds| + 2..]) else Markers(s[1..])
  }

  /** The text holds the marker `[n]`, in any spelling of the number. */
  ghost predicate Marked(s: string, n: nat) {
    exists a: string, ds: string, b: string :: IsMarkerIn(s, a, ds, b) && Value(ds) == n
  }

  predicate IsMarkerIn(s: string, a: string, ds: string, b: string) {
    AllDigits(ds) && s == a + "[" + ds + "]" + b
  }

  lemma {:induction false} LeadingOf(ds: string, b: string)
    requires (forall i | 0 <= i < |ds| :: IsDigit(ds[i])) && (b == "" || !IsDigit(b[0]))
    ensures LeadingDigits(ds + b) == ds
  {
    if ds == "" {
      assert ds + b == b;
    } else {
      LeadingOf(ds[1..], b);
      assert (ds + b)[1..] == ds[1..] + b;
    }
  }

  lemma {:induction false} LeadingIsPrefix(s: string)
    ensures LeadingDigits(s) == s[..LeadingPrefix(s)]
  {
    if s != "" && IsDigit(s[0]) {
      LeadingIsPrefix(s[1..]);
    }
  }

  lemma MarkerDigitsSplit(s: string)
    requires MarkerDigits(s) != ""
    ensures IsMarkerIn(s, "", MarkerDigits(s), s[|MarkerDigits(s)| + 2..])
  {
    var ds := MarkerDigits(s);
    LeadingIsPrefix(s[1..]);
    LeadingDigitsAreDigits(s[1..]);
    hide LeadingDigits, LeadingPrefix;
    assert s == "[" + ds + "]" + s[|ds| + 2..];
  }

  lemma MarkerDigitsOf(ds: string, b: string)
    requires AllDigits(ds)
    ensures MarkerDigits("[" + ds + "]" + b) == ds
  {
    var s := "[" + ds + "]" + b;
    assert s[1..] == ds + ("]" + b);
    LeadingOf(ds, "]" + b);
  }

  lemma MarkedAfter(p: string, s: string, n: nat)
    requires Marked(s, n)
    ensures Marked(p + s, n)
  {
    var a, ds, b :| IsMarkerIn(s, a, ds, b) && Value(ds) == n;
    hide Value;
    assert p + s == (p + a) + "[" + ds + "]" + b;
    assert IsMarkerIn(p + s, p + a, ds, b);
  }

  lemma MarkedFirst(s: string, ds: string)
    requires |ds| + 2 <= |s| && IsMarkerIn(s, "", ds, s[|ds| + 2..])
    ensures Marked(s, Value(ds))
  {
  }

  lemma {:induction false} MarkersAreMarked(s: string, n: nat)
    requires n in Markers(s)
    ensures Marked(s, n)
    decreases |s|
  {
    hide Value, MarkerDigits, Marked;
    var ds := MarkerDigits(s);
    if ds != "" {
      MarkerDigitsSplit(s);
      if n == Value(ds) {
        assert Marked(s, n) by { MarkedFirst(s, ds); }
      }
      var rest := s[|ds| + 2..];
      if n != Value(ds) {
        MarkersAreMarked(rest, n);
        MarkedAfter("[" + ds + "]", rest, n);
        assert s == "[" + ds + "]" + rest;
      }
    } else {
      MarkersAreMarked(s[1..], n);
      MarkedAfter([s[0]], s[1..], n);
      assert [s[0]] + s[1..] == s;
    }
  }

  /** Only the first character of a marker is an opening bracket. */
  lemma MarkerInside(s: string, ds: string)
    requires AllDigits(ds) && |ds| + 2 <= |s| && s == "[" + ds + "]" + s[|ds| + 2..]
    ensures forall i | 0 < i < |ds| + 2 :: s[i] != '['
  {
    forall i | 0 < i < |ds| + 2 ensures s[i] != '[' {
      assert s[i] == ("[" + ds + "]")[i];
    }
  }

  lemma MarkersStep(s: string)
    requires s != ""
    ensures MarkerDigits(s) == "" ==> Markers(s) == Markers(s[1..])
    ensures MarkerDigits(s) != "" ==> Markers(s) == [Value(MarkerDigits(s))] + Markers(s[|MarkerDigits(s)| + 2..])
  {
  }

  lemma {:induction false} MarkedIsFound(s: string, a: string, ds: string, b: string)
    requires IsMarkerIn(s, a, ds, b)
    ensures Value(ds) in Markers(s)
    decreases |s|
  {
    hide Value, Markers, MarkerDigits;
    var first := MarkerDigits(s);
    MarkersStep(s);
    if a == "" {
      MarkerDigitsOf(ds, b);
      assert s == "[" + ds + "]" + b;
    } else if first == "" {
      assert s[1..] == a[1..] + "[" + ds + "]" + b;
      MarkedIsFound(s[1..], a[1..], ds, b);
    } else {
      MarkerDigitsSplit(s);
      MarkerInside(s, first);
      CutMarker(s, a, ds, b, |first| + 2);
      MarkedIsFound(s[|first| + 2..], a[|first| + 2..], ds, b);
    }
  }

  lemma CutMarker(s: string, a: string, ds: string, b: string, cut: nat)
    requires IsMarkerIn(s, a, ds, b) && 0 < cut <= |s| && a != ""
    requires forall i | 0 < i < cut :: s[i] != '['
    ensures cut <= |a| && IsMarkerIn(s[cut..], a[cut..], ds, b)
  {
    assert s[|a|] == '[';
    assert s[cut..] == a[cut..] + "[" + ds + "]" + b;
  }

  lemma MarkersIffMarked(s: string, n: nat)
    ensures n in Markers(s) <==> Marked(s, n)
  {
    if n in Markers(s) {
      MarkersAreMarked(s, n);
    }
    if Marked(s, n) {
      var a, ds, b :| IsMarkerIn(s, a, ds, b) && Value(ds) == n;
      MarkedIsFound(s, a, ds, b);
    }
  }

  // ---------------------------------------------------------------- what a native marker is, and what becomes of it

  /** White space, and then perhaps a dagger with anything but a closing bracket. */
  predicate IsSuffix(x: string) {
    x == "" || (IsSpace(x[0]) && IsSuffix(x[1..])) || (x[0] == DAGGER && CLOSE !in x[1..])
  }

  /** `s` is a native marker of the digits `ds` and then `b`. */
  predicate IsNativeIn(s: string, w: string, ds: string, x: string, b: string) {
    Blank(w) && AllDigits(ds) && IsSuffix(x) && s == [OPEN] + (w + (ds + (x + ([CLOSE] + b))))
  }

  ghost predicate StartsNative(s: string) {
    exists w: string, ds: string, x: string, b: string :: IsNativeIn(s, w, ds, x, b)
  }

  lemma {:induction false} ClosePassed(x: string, b: string)
    requires CLOSE !in x
    ensures AfterClose(x + ([CLOSE] + b)) == Some(b)
  {
    if x == "" {
      assert x + ([CLOSE] + b) == [CLOSE] + b;
    } else {
      ClosePassed(x[1..], b);
      assert (x + ([CLOSE] + b))[1..] == x[1..] + ([CLOSE] + b);
    }
  }

  lemma {:induction false} SuffixPassed(x: string, b: string)
    requires IsSuffix(x)
    ensures AfterSuffix(x + ([CLOSE] + b)) == Some(b)
  {
    if x == "" {
      assert x + ([CLOSE] + b) == [CLOSE] + b;
    } else {
      assert (x + ([CLOSE] + b))[1..] == x[1..] + ([CLOSE] + b);
      if x[0] == DAGGER {
        ClosePassed(x[1..], b);
      } else {
        SuffixPassed(x[1..], b);
      }
    }
  }

  lemma {:induction false} DigitsPassed(ds: string, x: string, b: string)
    requires (forall i | 0 <= i < |ds| :: IsDigit(ds[i])) && IsSuffix(x)
    ensures AfterDigits(ds + (x + ([CLOSE] + b))) == Some(b)
  {
    var rest := x + ([CLOSE] + b);
    if ds == "" {
      SuffixPassed(x, b);
      assert ds + rest == rest;
    } else {
      DigitsPassed(ds[1..], x, b);
      assert (ds + rest)[1..] == ds[1..] + rest;
    }
  }

  lemma SpaceSkipped(c: char, s: string)
    requires IsSpace(c)
    ensures AfterBody([c] + s) == AfterBody(s) && LStrip([c] + s) == LStrip(s)
  {
    assert ([c] + s)[1..] == s;
  }

  lemma BodyAtDigits(ds: string, x: string, b: string)
    requires AllDigits(ds) && IsSuffix(x)
    ensures var rest := ds + (x + ([CLOSE] + b)); AfterBody(rest) == Some(b) && LStrip(rest) == rest
  {
    var rest := ds + (x + ([CLOSE] + b));
    assert rest[1..] == ds[1..] + (x + ([CLOSE] + b));
    assert IsDigit(rest[0]) && !IsSpace(rest[0]);
    DigitsPassed(ds[1..], x, b);
    hide AfterDigits, IsSuffix, IsSpace, IsDigit;
  }

  lemma {:induction false} BodyPassed(w: string, ds: string, x: string, b: string)
    requires Blank(w) && AllDigits(ds) && IsSuffix(x)
    ensures var rest := ds + (x + ([CLOSE] + b)); AfterBody(w + rest) == Some(b) && LStrip(w + rest) == rest
  {
    hide AfterBody, LStrip, IsSpace, AllDigits, IsSuffix;
    var rest := ds + (x + ([CLOSE] + b));
    if w == "" {
      assert w + rest == rest;
      BodyAtDigits(ds, x, b);
    } else {
      BodyPassed(w[1..], ds, x, b);
      SpaceSkipped(w[0], w[1..] + rest);
      assert w + rest == [w[0]] + (w[1..] + rest);
    }
  }

  lemma NativePassed(s: string, w: string, ds: string, x: string, b: string)
    requires IsNativeIn(s, w, ds, x, b)
    ensures AfterNative(s) == Some(b) && LeadingDigits(LStrip(s[1..])) == ds
  {
    BodyPassed(w, ds, x, b);
    hide LStrip, AfterBody, IsSuffix;
    assert s[1..] == w + (ds + (x + ([CLOSE] + b)));
    NoDigitAfter(x, b);
    LeadingOf(ds, x + ([CLOSE] + b));
  }

  lemma NoDigitAfter(x: string, b: string)
    requires IsSuffix(x)
    ensures !IsDigit((x + ([CLOSE] + b))[0])
  {
  }

  lemma {:induction false} CloseSplits(s: string) returns (x: string)
    requires AfterClose(s).Some?
    ensures CLOSE !in x && s == x + ([CLOSE] + AfterClose(s).value)
  {
    if s[0] == CLOSE {
      x := "";
    } else {
      x := CloseSplits(s[1..]);
      x := [s[0]] + x;
    }
  }

  lemma {:induction false} SuffixSplits(s: string) returns (x: string)
    requires AfterSuffix(s).Some?
    ensures IsSuffix(x) && s == x + ([CLOSE] + AfterSuffix(s).value)
  {
    if IsSpace(s[0]) {
      var y := SuffixSplits(s[1..]);
      x := [s[0]] + y;
      assert x[1..] == y;
    } else if s[0] == DAGGER {
      var y := CloseSplits(s[1..]);
      x := [s[0]] + y;
      assert x[1..] == y;
    } else {
      x := "";
    }
  }

  lemma {:induction false} DigitsSplit(s: string) returns (ds: string, x: string)
    requires AfterDigits(s).Some?
    ensures (forall i | 0 <= i < |ds| :: IsDigit(ds[i])) && IsSuffix(x)
    ensures s == ds + (x + ([CLOSE] + AfterDigits(s).value))
  {
    if s != "" && IsDigit(s[0]) {
      var b := AfterDigits(s).value;
      assert AfterDigits(s[1..]) == Some(b);
      hide AfterDigits, IsSuffix;
      var more;
      more, x := DigitsSplit(s[1..]);
      ds := [s[0]] + more;
      assert s == [s[0]] + s[1..];
      Regroup([s[0]], more, x + ([CLOSE] + b));
    } else {
      x := SuffixSplits(s);
      ds := "";
      hide IsSuffix;
      assert s == "" + s;
    }
  }

  lemma {:induction false} BodySplits(s: string) returns (w: string, ds: string, x: string)
    requires AfterBody(s).Some?
    ensures Blank(w) && AllDigits(ds) && IsSuffix(x) && s == w + (ds + (x + ([CLOSE] + AfterBody(s).value)))
  {
    var b := AfterBody(s).value;
    assert s == [s[0]] + s[1..];
    if IsSpace(s[0]) {
      assert AfterBody(s[1..]) == Some(b);
      hide AfterBody, IsSuffix, IsSpace, AllDigits;
      var more;
      more, ds, x := BodySplits(s[1..]);
      w := [s[0]] + more;
      Regroup([s[0]], more, ds + (x + ([CLOSE] + b)));
    } else {
      assert AfterDigits(s[1..]) == Some(b) && IsDigit(s[0]);
      hide AfterBody, AfterDigits, IsSuffix, IsDigit;
      var more, y := DigitsSplit(s[1..]);
      w, ds, x := "", [s[0]] + more, y;
      Regroup([s[0]], more, y + ([CLOSE] + b));
      assert s == "" + s;
    }
  }

  /** The scan recognises exactly the native markers. */
  lemma AfterNativeIff(s: string)
    ensures AfterNative(s).Some? <==> StartsNative(s)
  {
    if AfterNative(s).Some? {
      var w, ds, x := BodySplits(s[1..]);
      assert IsNativeIn(s, w, ds, x, AfterNative(s).value);
    }
    if w, ds, x, b :| IsNativeIn(s, w, ds, x, b) {
      NativePassed(s, w, ds, x, b);
    }
  }

  /** What stands before the first native marker stays, the marker becomes its own digits in brackets, and so on behind it. */
  lemma {:induction false} MarkerIsRewritten(s: string, a: string, w: string, ds: string, x: string, b: string)
    requires a <= s && IsNativeIn(s[|a|..], w, ds, x, b)
    requires forall i | 0 <= i < |a| :: !StartsNative(s[i..])
    ensures Normalize(s) == a + ("[" + ds + "]" + Normalize(b))
  {
    hide StartsNative, IsNativeIn, LeadingDigits, AfterNative, LStrip;
    if a == "" {
      assert s[|a|..] == s;
      NativePassed(s, w, ds, x, b);
    } else {
      assert s[0..] == s;
      AfterNativeIff(s);
      var rest := s[1..];
      assert rest[|a[1..]|..] == s[|a|..];
      forall i | 0 <= i < |a[1..]| ensures !StartsNative(rest[i..]) {
        assert rest[i..] == s[i + 1..];
      }
      MarkerIsRewritten(rest, a[1..], w, ds, x, b);
      assert a == [s[0]] + a[1..];
    }
  }

  lemma {:induction false} NoNativeIff(s: string)
    ensures NoNative(s) <==> forall i | 0 <= i <= |s| :: !StartsNative(s[i..])
  {
    hide StartsNative, AfterNative;
    AfterNativeIff(s);
    assert s[0..] == s;
    if s != "" {
      var rest := s[1..];
      NoNativeIff(rest);
      assert forall i | 0 <= i <= |rest| :: rest[i..] == s[i + 1..];
      assert forall i | 0 < i <= |s| :: s[i..] == rest[i - 1..];
    } else {
      EmptyHasNoNative();
    }
  }

  lemma EmptyHasNoNative()
    ensures AfterNative("").None?
  {
  }

  /**
   * A text without native markers stays as it is; otherwise its first marker, of any
   * spelling, is cited by its own number in what comes out.
   */
  lemma NormalizeKeepsTheNumber(s: string, a: string, w: string, ds: string, x: string, b: string)
    ensures (forall i | 0 <= i <= |s| :: !StartsNative(s[i..])) ==> Normalize(s) == s
    ensures a <= s && IsNativeIn(s[|a|..], w, ds, x, b) && (forall i | 0 <= i < |a| :: !StartsNative(s[i..])) ==>
              Normalize(s) == a + ("[" + ds + "]" + Normalize(b)) && Marked(Normalize(s), Value(ds))
  {
    NoNativeIff(s);
    NormalizeIdempotent(s);
    hide StartsNative, Normalize, NoNative, Value;
    if a <= s && IsNativeIn(s[|a|..], w, ds, x, b) && forall i | 0 <= i < |a| :: !StartsNative(s[i..]) {
      MarkerIsRewritten(s, a, w, ds, x, b);
      var out := Normalize(s);
      assert out == a + "[" + ds + "]" + Normalize(b);
      assert IsMarkerIn(out, a, ds, Normalize(b));
    }
  }

  /** A printed number is read back. */
  lemma {:induction false} ValueOfDecimal(n: nat)
    ensures Value(Decimal(n)) == n && AllDigits(Decimal(n))
  {
    if n >= 10 {
      ValueOfDecimal(n / 10);
      assert Decimal(n)[..|Decimal(n)| - 1] == Decimal(n / 10);
    }
  }

  // ---------------------------------------------------------------- extraction

  /** A citation with the passage's identifiers and text; `coll` is the passage's collection. */
  datatype Citation = Citation(marker: nat, doc: IdText, chunkId: nat, content: string, details: string, coll: IdText)

  function Cite(n: nat, c: Passage): Citation {
    Citation(n, c.doc, c.chunkId, c.content, c.details, c.coll)
  }

  /** Citations for the markers up to `bound`, in increasing order. */
  function CitedUpTo(marks: seq<nat>, chunks: seq<Passage>, bound: nat): seq<Citation> {
    if bound == 0 then []
    else CitedUpTo(marks, chunks, bound - 1)
         + (if bound in marks && bound <= |chunks| then [Cite(bound, chunks[bound - 1])] else [])
  }

  predicate CitesNothing(answer: string) {
    answer == "" || Strip(answer) == INSUFFICIENT_ANSWER
  }

  function Extract(answer: string, chunks: seq<Passage>): seq<Citation> {
    if CitesNothing(answer) then [] else CitedUpTo(Markers(answer), chunks, |chunks|)
  }

  predicate Increasing(ns: seq<nat>) {
    forall i | 0 < i < |ns| :: ns[i - 1] < ns[i]
  }

  function InsertNew(n: nat, ns: seq<nat>): seq<nat> {
    if ns == [] || n < ns[0] then [n] + ns
    else if n == ns[0] then ns
    else [ns[0]] + InsertNew(n, ns[1..])
  }

  /** `sorted({...})`: each number once, in increasing order. */
  function SortedSet(ns: seq<nat>): seq<nat> {
    if ns == [] then [] else InsertNew(ns[|ns| - 1], SortedSet(ns[..|ns| - 1]))
  }

  lemma IncreasingTail(ns: seq<nat>)
    requires Increasing(ns) && ns != []
    ensures Increasing(ns[1..]) && (|ns| > 1 ==> ns[0] < ns[1..][0])
  {
    assert forall i | 0 < i < |ns[1..]| :: ns[1..][i - 1] == ns[i] && ns[1..][i] == ns[i + 1];
  }

  lemma IncreasingCons(n: nat, ns: seq<nat>)
    requires Increasing(ns) && (ns != [] ==> n < ns[0])
    ensures Increasing([n] + ns)
  {
  }

  lemma {:induction false} InsertNewSorts(n: nat, ns: seq<nat>)
    requires Increasing(ns)
    ensures Increasing(InsertNew(n, ns)) && InsertNew(n, ns) != []
    ensures InsertNew(n, ns)[0] == if ns == [] || n < ns[0] then n else ns[0]
    ensures forall x :: x in InsertNew(n, ns) <==> x == n || x in ns
  {
    if ns == [] || n < ns[0] {
      IncreasingCons(n, ns);
    } else if n > ns[0] {
      IncreasingTail(ns);
      InsertNewSorts(n, ns[1..]);
      IncreasingCons(ns[0], InsertNew(n, ns[1..]));
      hide Increasing;
      assert ns == [ns[0]] + ns[1..];
    }
  }

  lemma {:induction false} SortedSetSorts(ns: seq<nat>)
    ensures Increasing(SortedSet(ns))
    ensures forall x :: x in SortedSet(ns) <==> x in ns
  {
    if ns != [] {
      SortedSetSorts(ns[..|ns| - 1]);
      InsertNewSorts(ns[|ns| - 1], SortedSet(ns[..|ns| - 1]));
      assert ns == ns[..|ns| - 1] + [ns[|ns| - 1]];
    }
  }

  lemma {:induction false} NothingBetween(marks: seq<nat>, chunks: seq<Passage>, a: nat, b: nat)
    requires a <= b && forall n | a < n <= b :: n !in marks || n > |chunks|
    ensures CitedUpTo(marks, chunks, b) == CitedUpTo(marks, chunks, a)
  {
    if a < b {
      NothingBetween(marks, chunks, a, b - 1);
    }
  }

  lemma {:induction false} IncreasingOrders(ns: seq<nat>, i: nat, j: nat)
    requires Increasing(ns) && i < j < |ns|
    ensures ns[i] < ns[j]
  {
    if i + 1 < j {
      IncreasingOrders(ns, i, j - 1);
    }
  }

  lemma BetweenSorted(ns: seq<nat>, i: nat)
    requires Increasing(ns) && i <= |ns|
    ensures i < |ns| ==> forall n | (if i == 0 then 0 else ns[i - 1]) < n < ns[i] :: n !in ns
    ensures i == |ns| ==> forall n | (if i == 0 then 0 else ns[i - 1]) < n :: n !in ns
  {
    forall j: nat, k: nat | j < k < |ns| ensures ns[j] < ns[k] {
      IncreasingOrders(ns, j, k);
    }
  }

  /** The marker before the `i`th in a sorted list, or 0. */
  function Previous(ns: seq<nat>, i: nat): nat
    requires i <= |ns|
  {
    if i == 0 then 0 else ns[i - 1]
  }

  lemma ExtractStep(found: seq<nat>, markers: seq<nat>, chunks: seq<Passage>, i: nat)
    requires i < |markers| && markers == SortedSet(found)
    ensures CitedUpTo(found, chunks, markers[i])
            == CitedUpTo(found, chunks, Previous(markers, i))
               + (if 1 <= markers[i] <= |chunks| then [Cite(markers[i], chunks[markers[i] - 1])] else [])
  {
    SortedSetSorts(found);
    BetweenSorted(markers, i);
    assert i > 0 ==> markers[i - 1] < markers[i];
    hide SortedSet, Increasing;
    assert markers[i] in found;
    if markers[i] > 0 {
      NothingBetween(found, chunks, Previous(markers, i), markers[i] - 1);
    }
  }

  lemma ExtractEnd(found: seq<nat>, markers: seq<nat>, chunks: seq<Passage>)
    requires markers == SortedSet(found)
    ensures CitedUpTo(found, chunks, Previous(markers, |markers|)) == CitedUpTo(found, chunks, |chunks|)
  {
    SortedSetSorts(found);
    BetweenSorted(markers, |markers|);
    hide SortedSet, Increasing;
    var last := Previous(markers, |markers|);
    if last <= |chunks| {
      NothingBetween(found, chunks, last, |chunks|);
    } else {
      NothingBetween(found, chunks, |chunks|, last);
    }
  }

  /** The extraction loop, as it runs. */
  method ExtractCitations(answer: string, chunks: seq<Passage>) returns (citations: seq<Citation>)
    ensures citations == Extract(answer, chunks)
  {
    hide CitesNothing, Markers, SortedSet;
    if CitesNothing(answer) {
      return [];
    }
    var found := Markers(answer);
    var markers := SortedSet(found);
    citations := [];
    for i := 0 to |markers|
      invariant citations == CitedUpTo(found, chunks, Previous(markers, i))
    {
      var n := markers[i];
      ExtractStep(found, markers, chunks, i);
      if 1 <= n <= |chunks| {
        citations := citations + [Cite(n, chunks[n - 1])];
      }
    }
    ExtractEnd(found, markers, chunks);
  }

  predicate CitesMark(c: Citation, marks: seq<nat>, chunks: seq<Passage>, bound: nat) {
    1 <= c.marker <= bound && c.marker <= |chunks| && c.marker in marks && c == Cite(c.marker, chunks[c.marker - 1])
  }

  predicate MarkersIncrease(cs: seq<Citation>) {
    forall i | 0 < i < |cs| :: cs[i - 1].marker < cs[i].marker
  }

  /** Citations of marks up to the bound, each with its passage, in increasing order. */
  ghost predicate CitesMarks(cs: seq<Citation>, marks: seq<nat>, chunks: seq<Passage>, bound: nat) {
    MarkersIncrease(cs) && forall i | 0 <= i < |cs| :: CitesMark(cs[i], marks, chunks, bound)
  }

  lemma OneMoreMark(cs: seq<Citation>, marks: seq<nat>, chunks: seq<Passage>, bound: nat)
    requires CitesMarks(cs, marks, chunks, bound)
    ensures CitesMarks(cs, marks, chunks, bound + 1)
    ensures bound + 1 in marks && bound + 1 <= |chunks| ==>
              CitesMarks(cs + [Cite(bound + 1, chunks[bound])], marks, chunks, bound + 1)
  {
    forall i | 0 <= i < |cs| ensures CitesMark(cs[i], marks, chunks, bound + 1) && cs[i].marker <= bound {
      assert CitesMark(cs[i], marks, chunks, bound);
    }
    hide Cite;
  }

  lemma {:induction false} CitedUpToFacts(marks: seq<nat>, chunks: seq<Passage>, bound: nat)
    ensures CitesMarks(CitedUpTo(marks, chunks, bound), marks, chunks, bound)
  {
    if bound > 0 {
      CitedUpToFacts(marks, chunks, bound - 1);
      OneMoreMark(CitedUpTo(marks, chunks, bound - 1), marks, chunks, bound - 1);
      hide CitesMarks, Cite;
    }
  }

  lemma {:induction false} CitedUpToComplete(marks: seq<nat>, chunks: seq<Passage>, bound: nat, n: nat)
    requires 1 <= n <= bound && n <= |chunks| && n in marks
    ensures Cite(n, chunks[n - 1]) in CitedUpTo(marks, chunks, bound)
  {
    if n < bound {
      CitedUpToComplete(marks, chunks, bound - 1, n);
    }
  }

  ghost predicate CitesPassage(c: Citation, answer: string, chunks: seq<Passage>) {
    && 1 <= c.marker <= |chunks| && Marked(answer, c.marker)
    && var p := chunks[c.marker - 1]; c == Citation(c.marker, p.doc, p.chunkId, p.content, p.details, p.coll)
  }

  /**
   * Exactly the in-range markers of the answer are cited, in strictly increasing
   * order, each with the passage it numbers; the abstaining answer cites nothing.
   */
  lemma ExtractsExactlyTheMarkers(answer: string, chunks: seq<Passage>)
    ensures forall i | 0 <= i < |Extract(answer, chunks)| :: CitesPassage(Extract(answer, chunks)[i], answer, chunks)
    ensures MarkersIncrease(Extract(answer, chunks))
    ensures answer == "" || Strip(answer) == INSUFFICIENT_ANSWER ==> Extract(answer, chunks) == []
    ensures answer != "" && Strip(answer) != INSUFFICIENT_ANSWER ==>
              forall n | 1 <= n <= |chunks| && Marked(answer, n) :: Cite(n, chunks[n - 1]) in Extract(answer, chunks)
  {
    if !CitesNothing(answer) {
      var marks, cs := Markers(answer), CitedUpTo(Markers(answer), chunks, |chunks|);
      assert Extract(answer, chunks) == cs;
      CitedUpToFacts(marks, chunks, |chunks|);
      hide CitesNothing, Markers, Marked, Extract, CitedUpTo;
      forall i | 0 <= i < |cs| ensures CitesPassage(cs[i], answer, chunks) {
        assert CitesMark(cs[i], marks, chunks, |chunks|);
        MarkersIffMarked(answer, cs[i].marker);
      }
      forall n | 1 <= n <= |chunks| && Marked(answer, n) ensures Cite(n, chunks[n - 1]) in cs {
        MarkersIffMarked(answer, n);
        CitedUpToComplete(marks, chunks, |chunks|, n);
      }
    }
  }
}
