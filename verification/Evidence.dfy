/** What retrieval hands to a chat turn: text passages and page images, with their identifiers. */
module Evidence {
  import opened Options

  /**
   * An identifier as it stands in a dictionary: absent, not a UUID, the canonical
   * text of a UUID, or another spelling of one (upper case, braces).
   */
  datatype IdText = Absent | Malformed(raw: nat) | Canonical(id: nat) | Alias(id: nat) {
    /** `uuid.UUID(text)`, or nothing where that raises. */
    function Parsed(): Option<nat> {
      match this
      case Canonical(id) => Some(id)
      case Alias(id) => Some(id)
      case _ => None
    }
  }

  /** A retrieved text chunk; `details` stands for the display fields carried along. */
  datatype Passage = Passage(chunkId: nat, doc: IdText, coll: IdText, content: string, details: string)

  datatype PageHit = PageHit(pointId: nat, doc: IdText, coll: IdText, pageNumber: int, uri: string)

  /** The text compare of the access check: only the canonical text of an allowed id passes. */
  predicate InScope(coll: IdText, allowed: set<nat>) {
    coll.Canonical? && coll.id in allowed
  }

  /** The ids that parse; the others are skipped. */
  function ParsedIds(ids: seq<IdText>): set<nat> {
    set i | 0 <= i < |ids| && ids[i].Parsed().Some? :: ids[i].Parsed().value
  }

  method Uuids(ids: seq<IdText>) returns (out: set<nat>)
    ensures out == ParsedIds(ids)
    ensures forall id :: id in out <==> exists i :: 0 <= i < |ids| && (ids[i] == Canonical(id) || ids[i] == Alias(id))
  {
    out := {};
    for i := 0 to |ids|
      invariant out == ParsedIds(ids[..i])
    {
      match ids[i].Parsed() {
        case Some(id) => out := out + {id};
        case None =>
      }
    }
    assert ids[..|ids|] == ids;
  }

  lemma {:induction false} LeastExists(s: set<nat>)
    requires s != {}
    ensures exists m :: IsLeast(m, s)
  {
    var y :| y in s;
    var rest := s - {y};
    if rest == {} {
      assert IsLeast(y, s) by {
        assert forall x | x in s :: x == y || x in rest;
      }
    } else {
      LeastExists(rest);
      var m :| IsLeast(m, rest);
      var least := if m < y then m else y;
      assert IsLeast(least, s) by {
        assert forall x | x in s :: x == y || x in rest;
      }
    }
  }

  predicate IsLeast(m: nat, s: set<nat>) {
    m in s && forall x | x in s :: m <= x
  }

  /** The ids of a set as a list. */
  function Ascending(s: set<nat>): (r: seq<nat>)
    ensures forall x :: x in r <==> x in s
  {
    if s == {} then []
    else
      LeastExists(s);
      var m :| m in s && IsLeast(m, s);
      [m] + Ascending(s - {m})
  }

  predicate Increases(s: seq<nat>) {
    forall i, j | 0 <= i < j < |s| :: s[i] < s[j]
  }

  lemma IncreasesCons(m: nat, rest: seq<nat>)
    requires Increases(rest) && forall x | x in rest :: m < x
    ensures Increases([m] + rest)
  {
    forall j | 0 <= j < |rest| ensures m < rest[j] {
      assert rest[j] in rest;
    }
  }

  lemma AscendingStep(s: set<nat>) returns (m: nat)
    requires s != {}
    ensures m in s && IsLeast(m, s) && Ascending(s) == [m] + Ascending(s - {m})
  {
    var all := Ascending(s);
    m := all[0];
    assert all[1..] == Ascending(s - {m});
    assert all == [m] + all[1..];
  }

  /** And in increasing order. */
  lemma {:induction false} AscendingIncreases(s: set<nat>)
    ensures Increases(Ascending(s))
  {
    if s != {} {
      hide Ascending, Increases;
      var m := AscendingStep(s);
      AscendingIncreases(s - {m});
      IncreasesCons(m, Ascending(s - {m}));
    }
  }
}
