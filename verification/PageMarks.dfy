/** Which page a packed window of text is attributed to, from the offsets of the parts it was joined from. */
module PageMarks {
  import opened Options

  /** A part of the joined text starts at `offset` and stems from `page`. */
  datatype Mark = Mark(offset: nat, page: Option<int>)

  /** The page of the last part that starts at or before `consumed`. */
  function PageAt(marks: seq<Mark>, consumed: nat): Option<int> {
    if marks == [] then None
    else if marks[|marks| - 1].offset <= consumed then marks[|marks| - 1].page
    else PageAt(marks[..|marks| - 1], consumed)
  }

  method FindPage(marks: seq<Mark>, consumed: nat) returns (page: Option<int>)
    ensures page == PageAt(marks, consumed)
  {
    page := None;
    for i := 0 to |marks|
      invariant page == PageAt(marks[..i], consumed)
    {
      assert marks[..i + 1][..i] == marks[..i];
      if marks[i].offset <= consumed {
        page := marks[i].page;
      }
    }
    assert marks[..|marks|] == marks;
  }

  /** Parts follow one another, the first at the start of the text. */
  ghost predicate Laid(marks: seq<Mark>) {
    && (marks != [] ==> marks[0].offset == 0)
    && forall i, j | 0 <= i < j < |marks| :: marks[i].offset < marks[j].offset
  }

  /** Character `consumed` of the joined text falls to part `k` or the gap after it. */
  ghost predicate FallsTo(marks: seq<Mark>, consumed: nat, k: nat) {
    && k < |marks| && marks[k].offset <= consumed
    && forall j | k < j < |marks| :: consumed < marks[j].offset
  }

  /** A window is attributed to the part its beginning falls to. */
  lemma {:induction false} PageIsOfPart(marks: seq<Mark>, consumed: nat) returns (k: nat)
    requires Laid(marks) && marks != []
    ensures FallsTo(marks, consumed, k) && PageAt(marks, consumed) == marks[k].page
  {
    var last := |marks| - 1;
    if marks[last].offset <= consumed {
      k := last;
    } else {
      k := PageIsOfPart(marks[..last], consumed);
    }
  }

  predicate NotAfter(a: Option<int>, b: Option<int>) {
    a.Some? && b.Some? ==> a.value <= b.value
  }

  /** The pages of the parts never go back. */
  ghost predicate PagesAscend(marks: seq<Mark>) {
    forall i, j | 0 <= i < j < |marks| :: NotAfter(marks[i].page, marks[j].page)
  }

  /** Where the parts are in page order, so are the windows. */
  lemma LaterWindowsOnLaterPages(marks: seq<Mark>, a: nat, b: nat)
    requires Laid(marks) && PagesAscend(marks) && a <= b
    ensures NotAfter(PageAt(marks, a), PageAt(marks, b))
  {
    if marks != [] {
      var i := PageIsOfPart(marks, a);
      var j := PageIsOfPart(marks, b);
    }
  }

  lemma FirstPage(marks: seq<Mark>)
    requires Laid(marks) && marks != []
    ensures PageAt(marks, 0) == marks[0].page
  {
    var k := PageIsOfPart(marks, 0);
  }
}
