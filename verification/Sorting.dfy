/** Ascending order of id sets, as Python's `sorted` gives it. */
module Sorting {
  import opened Walks

  ghost predicate Ascending(s: seq<Id>) {
    forall i, j :: 0 <= i < j < |s| ==> s[i] < s[j]
  }

  ghost predicate IsLeast(ids: set<Id>, least: Id) {
    least in ids && forall x :: x in ids ==> least <= x
  }

  lemma HasLeast(ids: set<Id>)
    requires ids != {}
    ensures exists least :: IsLeast(ids, least)
  {
    var some :| some in ids;
    var rest := ids - {some};
    assert ids == rest + {some};
    if rest == {} {
      assert IsLeast(ids, some);
    } else {
      HasLeast(rest);
      var least :| IsLeast(rest, least);
      assert IsLeast(ids, if some <= least then some else least);
    }
  }

  function Least(ids: set<Id>): (least: Id)
    requires ids != {}
    ensures IsLeast(ids, least)
  {
    HasLeast(ids);
    var least :| least in ids && forall x :: x in ids ==> least <= x;
    least
  }

  function SortedIds(ids: set<Id>): (s: seq<Id>)
    ensures Ascending(s)
    ensures forall x :: x in s <==> x in ids
  {
    if ids == {} then []
    else
      var least := Least(ids);
      [least] + SortedIds(ids - {least})
  }

  /** An ascending sequence is determined by its elements. */
  lemma {:induction false} AscendingUnique(s: seq<Id>, t: seq<Id>)
    requires Ascending(s) && Ascending(t)
    requires forall x :: x in s <==> x in t
    ensures s == t
  {
    assert |s| > 0 ==> s[0] in s;
    assert |t| > 0 ==> t[0] in t;
    if |s| > 0 && |t| > 0 {
      assert s[0] in t && t[0] in s;
      forall x ensures x in s[1..] <==> x in t[1..] {
        assert x in s[1..] <==> x in s && x != s[0];
        assert x in t[1..] <==> x in t && x != t[0];
      }
      AscendingUnique(s[1..], t[1..]);
      assert s == [s[0]] + s[1..] && t == [t[0]] + t[1..];
    }
  }
}
