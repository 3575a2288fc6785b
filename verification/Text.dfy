/** String operations of Python's `str` that several parts of the model share. */
module Text {

  /** `str.isspace` on one character; also what `\s` matches in a text pattern. */
  predicate IsSpace(c: char) {
    var k := c as int;
    || 0x09 <= k <= 0x0D
    || 0x1C <= k <= 0x20
    || k == 0x85
    || k == 0xA0
    || k == 0x1680
    || 0x2000 <= k <= 0x200A
    || k == 0x2028
    || k == 0x2029
    || k == 0x202F
    || k == 0x205F
    || k == 0x3000
  }

  predicate Blank(s: string) {
    forall i | 0 <= i < |s| :: IsSpace(s[i])
  }

  function LStrip(s: string): string {
    if s == "" || !IsSpace(s[0]) then s else LStrip(s[1..])
  }

  function RStrip(s: string): string {
    if s == "" || !IsSpace(s[|s| - 1]) then s else RStrip(s[..|s| - 1])
  }

  /** `LStrip` drops exactly the leading white space. */
  lemma {:induction false} LStripDrops(s: string)
    ensures |LStrip(s)| <= |s| && LStrip(s) == s[|s| - |LStrip(s)|..]
    ensures Blank(s[..|s| - |LStrip(s)|])
    ensures LStrip(s) == "" || !IsSpace(LStrip(s)[0])
  {
    if s != "" && IsSpace(s[0]) {
      LStripDrops(s[1..]);
    }
  }

  /** `RStrip` drops exactly the trailing white space. */
  lemma {:induction false} RStripDrops(s: string)
    ensures |RStrip(s)| <= |s| && RStrip(s) == s[..|RStrip(s)|]
    ensures Blank(s[|RStrip(s)|..])
    ensures RStrip(s) == "" || !IsSpace(RStrip(s)[|RStrip(s)| - 1])
  {
    if s != "" && IsSpace(s[|s| - 1]) {
      var init := s[..|s| - 1];
      RStripDrops(init);
      assert s[|RStrip(init)|..] == init[|RStrip(init)|..] + [s[|s| - 1]];
    }
  }

  function Strip(s: string): (r: string)
    ensures r == "" <==> Blank(s)
    ensures Trimmed(r)
    ensures |r| <= |s|
  {
    StripFacts(s);
    RStrip(LStrip(s))
  }

  lemma StripFacts(s: string)
    ensures var r := RStrip(LStrip(s));
            (r == "" <==> Blank(s)) && Trimmed(r) && |r| <= |s|
  {
    var l := LStrip(s);
    LStripDrops(s);
    RStripDrops(l);
    hide LStrip, RStrip;
    if l == "" {
      assert s[..|s|] == s;
    } else {
      assert s[|s| - |l|] == l[0];
      assert l[0..] == l;
    }
  }

  /** Stripping drops white space at the two ends and nothing else. */
  lemma StripSplits(s: string) returns (a: string, b: string)
    ensures s == a + Strip(s) + b && Blank(a) && Blank(b)
  {
    var l := LStrip(s);
    LStripDrops(s);
    RStripDrops(l);
    a, b := s[..|s| - |l|], l[|RStrip(l)|..];
    hide LStrip, RStrip, Blank;
    assert l == RStrip(l) + b;
  }

  lemma StripIsWithin(s: string, c: char)
    requires c in Strip(s)
    ensures c in s
  {
    var l := LStrip(s);
    LStripDrops(s);
    RStripDrops(l);
    var i :| 0 <= i < |Strip(s)| && Strip(s)[i] == c;
    hide LStrip, RStrip;
    assert l[i] == c;
    assert s[|s| - |l| + i] == l[i];
  }

  /** A text that neither starts nor ends with white space. */
  predicate Trimmed(s: string) {
    s == "" || (!IsSpace(s[0]) && !IsSpace(s[|s| - 1]))
  }

  lemma StripOfTrimmed(s: string)
    requires Trimmed(s)
    ensures Strip(s) == s
  {}

  /** `sep.join(parts)` */
  function Join(parts: seq<string>, sep: string): string {
    if parts == [] then ""
    else if |parts| == 1 then parts[0]
    else parts[0] + sep + Join(parts[1..], sep)
  }

  lemma {:induction false} JoinAppend(parts: seq<string>, last: string, sep: string)
    requires parts != []
    ensures Join(parts + [last], sep) == Join(parts, sep) + sep + last
  {
    if |parts| == 1 {
      assert (parts + [last])[1..] == [last];
    } else {
      JoinAppend(parts[1..], last, sep);
      assert (parts + [last])[1..] == parts[1..] + [last];
    }
  }

  /** Decimal digits of a natural number, as `str(n)` prints them. */
  function Decimal(n: nat): (s: string)
    ensures s != ""
  {
    if n < 10 then [Digit(n)] else Decimal(n / 10) + [Digit(n % 10)]
  }

  function Digit(d: nat): char
    requires d < 10
  {
    ('0' as int + d) as char
  }

  predicate BlankLineAt(s: string, i: nat) {
    i + 2 <= |s| && s[i] == '\n' && s[i + 1] == '\n'
  }

  /** Where the first blank line (two adjacent newlines) begins, at or after `from`; the length if there is none. */
  function FirstBlankLine(s: string, from: nat): (i: nat)
    requires from <= |s|
    ensures from <= i <= |s|
    ensures i < |s| ==> i + 2 <= |s|
    decreases |s| - from
  {
    if from == |s| || BlankLineAt(s, from) then from else FirstBlankLine(s, from + 1)
  }

  lemma {:induction false} FirstBlankLineIsFirst(s: string, from: nat)
    requires from <= |s|
    ensures var i := FirstBlankLine(s, from);
            && (i < |s| ==> BlankLineAt(s, i))
            && (forall j: nat | from <= j < i :: !BlankLineAt(s, j))
            && (i == |s| ==> forall j: nat | from <= j :: !BlankLineAt(s, j))
    decreases |s| - from
  {
    if from < |s| && !BlankLineAt(s, from) {
      FirstBlankLineIsFirst(s, from + 1);
    }
  }

  /** The first blank line is the only place with that property. */
  lemma FirstIs(s: string, i: nat)
    requires BlankLineAt(s, i) && forall j: nat | j < i :: !BlankLineAt(s, j)
    ensures FirstBlankLine(s, 0) == i
  {
    FirstBlankLineIsFirst(s, 0);
  }

  /** `[f(x) for x in s]` */
  function Map<A, B>(f: A -> B, s: seq<A>): (r: seq<B>)
    ensures |r| == |s| && forall i | 0 <= i < |s| :: r[i] == f(s[i])
  {
    if s == [] then [] else Map(f, s[..|s| - 1]) + [f(s[|s| - 1])]
  }

  lemma MapAppend<A, B>(f: A -> B, s: seq<A>, x: A)
    ensures Map(f, s + [x]) == Map(f, s) + [f(x)]
  {
    assert (s + [x])[..|s|] == s;
  }

  lemma Regroup<T>(a: seq<T>, b: seq<T>, c: seq<T>)
    ensures a + (b + c) == a + b + c
  {
  }

  lemma Snoc<T>(a: seq<T>, b: seq<T>)
    requires b != []
    ensures b == b[..|b| - 1] + [b[|b| - 1]]
    ensures a + b == a + b[..|b| - 1] + [b[|b| - 1]]
  {
  }
}
