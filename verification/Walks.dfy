/** Undirected connectivity over a finite set of pairs: the reference notion against which both the
    lab graph's breadth-first searches and the identity union-find are proved. */
module Walks {
  /** Ids are strings in the program. Only equality and order of ids matter to the algorithms here,
      and every finite set of strings embeds in the naturals with its order. */
  type Id = nat

  type Pairs = set<(Id, Id)>

  ghost predicate Adjacent(pairs: Pairs, a: Id, b: Id) {
    (a, b) in pairs || (b, a) in pairs
  }

  /** A walk is a nonempty sequence of nodes, consecutive ones adjacent. */
  ghost predicate IsWalk(pairs: Pairs, walk: seq<Id>) {
    && walk != []
    && forall i :: 0 <= i < |walk| - 1 ==> Adjacent(pairs, walk[i], walk[i + 1])
  }

  ghost predicate Joins(pairs: Pairs, walk: seq<Id>, a: Id, b: Id) {
    IsWalk(pairs, walk) && walk[0] == a && walk[|walk| - 1] == b
  }

  ghost predicate Connected(pairs: Pairs, a: Id, b: Id) {
    exists walk :: Joins(pairs, walk, a, b)
  }

  ghost predicate Closed(pairs: Pairs, nodes: set<Id>) {
    forall a, b :: a in nodes && Adjacent(pairs, a, b) ==> b in nodes
  }

  lemma Reflexive(pairs: Pairs, a: Id)
    ensures Connected(pairs, a, a)
  {
    assert Joins(pairs, [a], a, a);
  }

  lemma Step(pairs: Pairs, a: Id, b: Id, c: Id)
    requires Connected(pairs, a, b) && Adjacent(pairs, b, c)
    ensures Connected(pairs, a, c)
  {
    var walk :| Joins(pairs, walk, a, b);
    assert Joins(pairs, walk + [c], a, c);
  }

  lemma {:induction false} Symmetric(pairs: Pairs, a: Id, b: Id)
    requires Connected(pairs, a, b)
    ensures Connected(pairs, b, a)
  {
    var walk :| Joins(pairs, walk, a, b);
    var back := seq(|walk|, i requires 0 <= i < |walk| => walk[|walk| - 1 - i]);
    forall i | 0 <= i < |back| - 1
      ensures Adjacent(pairs, back[i], back[i + 1])
    {
      var j := |walk| - 2 - i;
      assert Adjacent(pairs, walk[j], walk[j + 1]);
    }
    assert Joins(pairs, back, b, a);
  }

  lemma Transitive(pairs: Pairs, a: Id, b: Id, c: Id)
    requires Connected(pairs, a, b) && Connected(pairs, b, c)
    ensures Connected(pairs, a, c)
  {
    var first :| Joins(pairs, first, a, b);
    var second :| Joins(pairs, second, b, c);
    var whole := first + second[1..];
    forall i | 0 <= i < |whole| - 1
      ensures Adjacent(pairs, whole[i], whole[i + 1])
    {
      if i >= |first| - 1 {
        var j := i - (|first| - 1);
        assert whole[i] == second[j] && whole[i + 1] == second[j + 1];
      } else {
        assert whole[i] == first[i] && whole[i + 1] == first[i + 1];
      }
    }
    assert Joins(pairs, whole, a, c);
  }

  lemma Monotone(small: Pairs, large: Pairs, a: Id, b: Id)
    requires small <= large && Connected(small, a, b)
    ensures Connected(large, a, b)
  {
    var walk :| Joins(small, walk, a, b);
    assert Joins(large, walk, a, b);
  }

  lemma {:induction false} WalkStays(pairs: Pairs, nodes: set<Id>, walk: seq<Id>)
    requires Closed(pairs, nodes) && IsWalk(pairs, walk) && walk[0] in nodes
    ensures walk[|walk| - 1] in nodes
  {
    if |walk| > 1 {
      var init := walk[..|walk| - 1];
      assert forall i :: 0 <= i < |init| - 1 ==> Adjacent(pairs, init[i], init[i + 1]);
      WalkStays(pairs, nodes, init);
      assert Adjacent(pairs, walk[|walk| - 2], walk[|walk| - 1]);
    }
  }

  /** The nodes connected to `a` are the least closed set containing it. */
  lemma StaysInside(pairs: Pairs, nodes: set<Id>, a: Id, b: Id)
    requires Closed(pairs, nodes) && a in nodes && Connected(pairs, a, b)
    ensures b in nodes
  {
    var walk :| Joins(pairs, walk, a, b);
    WalkStays(pairs, nodes, walk);
  }

  /** Everything connected to `a` is `a` itself or an endpoint of some pair. */
  ghost function Ends(pairs: Pairs): set<Id> {
    (set p | p in pairs :: p.0) + (set p | p in pairs :: p.1)
  }

  lemma InEnds(pairs: Pairs, a: Id, b: Id)
    requires Connected(pairs, a, b)
    ensures b == a || b in Ends(pairs)
  {
    var walk :| Joins(pairs, walk, a, b);
    if |walk| > 1 {
      assert Adjacent(pairs, walk[|walk| - 2], walk[|walk| - 1]);
    }
  }

  /** The set of nodes connected to `a`. */
  ghost function Component(pairs: Pairs, a: Id): (nodes: set<Id>)
    ensures forall b :: b in nodes <==> Connected(pairs, a, b)
  {
    assert forall b :: Connected(pairs, a, b) ==> b in {a} + Ends(pairs) by {
      forall b | Connected(pairs, a, b) ensures b in {a} + Ends(pairs) { InEnds(pairs, a, b); }
    }
    set b | b in {a} + Ends(pairs) && Connected(pairs, a, b)
  }

  lemma ComponentClosed(pairs: Pairs, a: Id)
    ensures a in Component(pairs, a) && Closed(pairs, Component(pairs, a))
  {
    Reflexive(pairs, a);
    forall b, c | b in Component(pairs, a) && Adjacent(pairs, b, c)
      ensures c in Component(pairs, a)
    {
      Step(pairs, a, b, c);
    }
  }

  lemma ClosedUnion(pairs: Pairs, left: set<Id>, right: set<Id>)
    requires Closed(pairs, left) && Closed(pairs, right)
    ensures Closed(pairs, left + right)
  {
  }

  /** Adding a pair keeps a set closed when the pair does not cross its border. */
  lemma ClosedExtended(pairs: Pairs, nodes: set<Id>, x: Id, y: Id)
    requires Closed(pairs, nodes) && (x in nodes <==> y in nodes)
    ensures Closed(pairs + {(x, y)}, nodes)
  {
  }

  lemma ComponentWithin(pairs: Pairs, nodes: set<Id>, a: Id)
    requires Closed(pairs, nodes) && a in nodes
    ensures Component(pairs, a) <= nodes
  {
    forall b: Id | Connected(pairs, a, b) ensures b in nodes {
      StaysInside(pairs, nodes, a, b);
    }
  }
}
