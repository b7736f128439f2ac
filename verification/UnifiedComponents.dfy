/** Merging provider entities: union-find over confirmed links, and the identity state of each merged
    record (`backend/app/unified_reconciliation.py`). */
module UnifiedComponents {
  import opened Common
  import opened Walks
  import opened Sorting
  import opened Identity

  type Parents = map<Id, Id>

  ghost predicate Hangs(parents: Parents, x: Id) {
    x in parents && parents[x] in parents && parents[x] <= x
  }

  /** Every parent is a key and is no larger than its child, so following parents ends at a root. */
  ghost predicate Forest(parents: Parents) {
    forall x: Id {:trigger Hangs(parents, x)} :: x in parents ==> Hangs(parents, x)
  }

  ghost function Root(parents: Parents, x: Id): (root: Id)
    requires Forest(parents) && x in parents
    ensures root in parents && parents[root] == root && root <= x
    decreases x
  {
    assert Hangs(parents, x);
    if parents[x] == x then x else Root(parents, parents[x])
  }

  ghost predicate SameRoots(parents: Parents, others: Parents) {
    && Forest(parents) && Forest(others) && parents.Keys == others.Keys
    && forall x: Id {:trigger Root(parents, x)} {:trigger Root(others, x)} ::
         x in parents ==> Root(parents, x) == Root(others, x)
  }

  function Halved(parents: Parents, v: Id): Parents
    requires v in parents && parents[v] in parents
  {
    parents[v := parents[parents[v]]]
  }

  lemma HalvedForest(parents: Parents, v: Id)
    requires Forest(parents) && v in parents
    ensures Hangs(parents, v) && Forest(Halved(parents, v)) && Halved(parents, v).Keys == parents.Keys
  {
    assert Hangs(parents, v) && Hangs(parents, parents[v]);
    forall x: Id | x in Halved(parents, v) ensures Hangs(Halved(parents, v), x) {
      assert Hangs(parents, x);
    }
  }

  lemma {:induction false} HalvingKeepsRoot(parents: Parents, v: Id, x: Id)
    requires Forest(parents) && v in parents && Hangs(parents, v) && x in parents && Forest(Halved(parents, v))
    ensures Root(Halved(parents, v), x) == Root(parents, x)
    decreases x
  {
    assert Hangs(parents, x) && Hangs(parents, parents[x]);
    if parents[x] != x {
      HalvingKeepsRoot(parents, v, parents[x]);
      if x == v && parents[parents[x]] != parents[x] {
        HalvingKeepsRoot(parents, v, parents[parents[x]]);
      }
    }
  }

  lemma HalvingKeepsRoots(parents: Parents, v: Id)
    requires Forest(parents) && v in parents
    ensures Hangs(parents, v) && SameRoots(parents, Halved(parents, v))
  {
    HalvedForest(parents, v);
    forall x: Id | x in parents ensures Root(Halved(parents, v), x) == Root(parents, x) {
      HalvingKeepsRoot(parents, v, x);
    }
  }

  /** Find with path halving: the root is found and no entity's root changes. */
  method Find(parents: Parents, start: Id) returns (parents': Parents, root: Id)
    requires Forest(parents) && start in parents
    ensures SameRoots(parents, parents') && root == Root(parents, start)
  {
    parents', root := parents, start;
    while parents'[root] != root
      invariant SameRoots(parents, parents')
      invariant root in parents' && Root(parents', root) == Root(parents, start)
      decreases root
    {
      HalvingKeepsRoots(parents', root);
      assert Hangs(parents', parents'[root]);
      assert Root(parents', root) == Root(parents', parents'[root]) == Root(parents', parents'[parents'[root]]);
      parents' := parents'[root := parents'[parents'[root]]];
      root := parents'[root];
    }
  }

  lemma {:induction false} LinkingRoots(parents: Parents, low: Id, high: Id, x: Id)
    requires Forest(parents) && low in parents && high in parents && x in parents
    requires parents[low] == low && parents[high] == high && low < high
    ensures Forest(parents[high := low])
    ensures Root(parents[high := low], x) == if Root(parents, x) == high then low else Root(parents, x)
    decreases x
  {
    var linked := parents[high := low];
    forall y: Id | y in linked ensures Hangs(linked, y) {
      assert Hangs(parents, y);
    }
    assert Hangs(parents, x);
    if parents[x] != x {
      LinkingRoots(parents, low, high, parents[x]);
    }
  }

  /** The forest stands for the equivalence generated by the pairs. */
  ghost predicate Represents(parents: Parents, pairs: Pairs) {
    && Forest(parents)
    && (forall p :: p in pairs ==> p.0 in parents && p.1 in parents && Root(parents, p.0) == Root(parents, p.1))
    && forall x: Id {:trigger Root(parents, x)} :: x in parents ==> Connected(pairs, x, Root(parents, x))
  }

  lemma {:induction false} SameRootAlongWalk(parents: Parents, pairs: Pairs, walk: seq<Id>)
    requires Represents(parents, pairs) && IsWalk(pairs, walk) && walk[0] in parents
    ensures walk[|walk| - 1] in parents && Root(parents, walk[0]) == Root(parents, walk[|walk| - 1])
  {
    if |walk| > 1 {
      var init := walk[..|walk| - 1];
      assert forall i :: 0 <= i < |init| - 1 ==> Adjacent(pairs, init[i], init[i + 1]);
      SameRootAlongWalk(parents, pairs, init);
      assert Adjacent(pairs, walk[|walk| - 2], walk[|walk| - 1]);
    }
  }

  lemma RootsDecide(parents: Parents, pairs: Pairs, x: Id, y: Id)
    requires Represents(parents, pairs) && x in parents && y in parents
    ensures Connected(pairs, x, y) <==> Root(parents, x) == Root(parents, y)
  {
    if Connected(pairs, x, y) {
      var walk :| Joins(pairs, walk, x, y);
      SameRootAlongWalk(parents, pairs, walk);
    }
    if Root(parents, x) == Root(parents, y) {
      Symmetric(pairs, y, Root(parents, y));
      Transitive(pairs, x, Root(parents, x), y);
    }
  }

  lemma AlreadyJoined(parents: Parents, pairs: Pairs, left: Id, right: Id)
    requires Represents(parents, pairs) && left in parents && right in parents
    requires Root(parents, left) == Root(parents, right)
    ensures Represents(parents, pairs + {(left, right)})
  {
    forall x: Id | x in parents ensures Connected(pairs + {(left, right)}, x, Root(parents, x)) {
      Monotone(pairs, pairs + {(left, right)}, x, Root(parents, x));
    }
  }

  /** Through the new pair, everything on one side reaches the root of the other. */
  lemma Bridged(pairs: Pairs, forest: Parents, left: Id, right: Id, x: Id)
    requires Forest(forest) && left in forest && right in forest && x in forest && (left, right) in pairs
    requires forall y: Id {:trigger Root(forest, y)} :: y in forest ==> Connected(pairs, y, Root(forest, y))
    ensures Root(forest, x) == Root(forest, left) ==> Connected(pairs, x, Root(forest, right))
    ensures Root(forest, x) == Root(forest, right) ==> Connected(pairs, x, Root(forest, left))
  {
    var a, b := Root(forest, left), Root(forest, right);
    Symmetric(pairs, left, a);
    Symmetric(pairs, right, b);
    assert Adjacent(pairs, left, right) && Adjacent(pairs, right, left);
    Step(pairs, a, left, right);
    Transitive(pairs, a, right, b);
    Step(pairs, b, right, left);
    Transitive(pairs, b, left, a);
    if Root(forest, x) == a { Transitive(pairs, x, a, b); }
    if Root(forest, x) == b { Transitive(pairs, x, b, a); }
  }

  lemma NowJoined(parents: Parents, pairs: Pairs, left: Id, right: Id, low: Id, high: Id)
    requires Represents(parents, pairs) && left in parents && right in parents && low < high
    requires {low, high} == {Root(parents, left), Root(parents, right)}
    ensures Represents(parents[high := low], pairs + {(left, right)})
  {
    var more, linked := pairs + {(left, right)}, parents[high := low];
    assert low in {low, high} && high in {low, high};
    forall x: Id | x in parents ensures Connected(more, x, Root(parents, x)) {
      Monotone(pairs, more, x, Root(parents, x));
    }
    LinkingRoots(parents, low, high, left);
    forall x: Id | x in linked
      ensures Root(linked, x) == if Root(parents, x) == high then low else Root(parents, x)
      ensures Connected(more, x, Root(linked, x))
    {
      LinkingRoots(parents, low, high, x);
      Bridged(more, parents, left, right, x);
    }
  }

  method Union(parents: Parents, left: Id, right: Id, ghost pairs: Pairs) returns (parents': Parents)
    requires Represents(parents, pairs) && left in parents && right in parents
    ensures parents'.Keys == parents.Keys && Represents(parents', pairs + {(left, right)})
  {
    var a, b;
    parents', a := Find(parents, left);
    parents', b := Find(parents', right);
    assert Represents(parents', pairs);
    if a == b {
      AlreadyJoined(parents', pairs, left, right);
    } else {
      var low, high := if a < b then a else b, if a < b then b else a;
      NowJoined(parents', pairs, left, right, low, high);
      parents' := parents'[high := low];
    }
  }

  // ----- the partition -----

  function ConfirmedPairs(links: seq<Link>): Pairs {
    set k | k in links && k.state == Confirmed :: (k.left, k.right)
  }

  ghost function ClassOf(ids: set<Id>, pairs: Pairs, x: Id): set<Id> {
    ids * Component(pairs, x)
  }

  /** The least id of each class. */
  ghost function Heads(ids: set<Id>, pairs: Pairs): set<Id> {
    set x | x in ids && forall y :: y in ClassOf(ids, pairs, x) ==> x <= y
  }

  /** The classes, each ascending, in the order of their least ids: a function of sets alone, so the order
      of the entities and of the links cannot matter. */
  ghost function Partition(ids: set<Id>, pairs: Pairs): seq<seq<Id>> {
    var heads := SortedIds(Heads(ids, pairs));
    seq(|heads|, i requires 0 <= i < |heads| => SortedIds(ClassOf(ids, pairs, heads[i])))
  }

  ghost predicate Distinct(ids: seq<Id>) {
    forall i, j :: 0 <= i < j < |ids| ==> ids[i] != ids[j]
  }

  function Elements(ids: seq<Id>): set<Id> {
    set x | x in ids
  }

  type Grouping = map<Id, seq<Id>>

  function GroupOf(grouped: Grouping, root: Id): seq<Id> {
    if root in grouped then grouped[root] else []
  }

  lemma PairsNext(links: seq<Link>, i: nat)
    requires i < |links|
    ensures links[i].state == Confirmed ==>
              ConfirmedPairs(links[..i + 1]) == ConfirmedPairs(links[..i]) + {(links[i].left, links[i].right)}
    ensures links[i].state != Confirmed ==> ConfirmedPairs(links[..i + 1]) == ConfirmedPairs(links[..i])
  {
    assert links[..i + 1] == links[..i] + [links[i]];
    assert forall k :: k in links[..i + 1] <==> k in links[..i] || k == links[i];
  }

  lemma SingletonsRepresent(parents: Parents)
    requires forall x: Id :: x in parents ==> parents[x] == x
    ensures Represents(parents, {})
  {
    forall x: Id | x in parents ensures Hangs(parents, x) && Connected({}, x, parents[x]) {
      Reflexive({}, x);
    }
  }

  /** What the grouping dictionary holds: under each root, the ids with that root. */
  ghost predicate Groups(grouped: Grouping, ids: seq<Id>, forest: Parents)
    requires Forest(forest) && forall x :: x in ids ==> x in forest
  {
    && (forall r: Id :: r in grouped ==> grouped[r] != [])
    && forall r: Id, x: Id :: x in GroupOf(grouped, r) <==> x in ids && Root(forest, x) == r
  }

  lemma GroupsNext(grouped: Grouping, ids: seq<Id>, i: nat, forest: Parents, root: Id)
    requires i < |ids| && Forest(forest) && forall x :: x in ids ==> x in forest
    requires Groups(grouped, ids[..i], forest) && root == Root(forest, ids[i])
    ensures Groups(grouped[root := GroupOf(grouped, root) + [ids[i]]], ids[..i + 1], forest)
  {
    var grouped' := grouped[root := GroupOf(grouped, root) + [ids[i]]];
    assert ids[..i + 1] == ids[..i] + [ids[i]];
    forall r: Id, x: Id ensures x in GroupOf(grouped', r) <==>
      x in GroupOf(grouped, r) || (r == root && x == ids[i]) { }
  }

  /** The ids under each root are distinct, so sorting the list and sorting its set agree. */
  method Listing(grouped: Grouping, ghost all: set<Id>, ghost pairs: Pairs) returns (groups: seq<seq<Id>>)
    requires grouped.Keys == Heads(all, pairs)
    requires forall r: Id :: r in grouped ==> Elements(grouped[r]) == ClassOf(all, pairs, r)
    ensures groups == Partition(all, pairs)
  {
    var heads := SortedIds(grouped.Keys);
    groups := [];
    for i := 0 to |heads|
      invariant |groups| == i
      invariant forall j :: 0 <= j < i ==> groups[j] == SortedIds(ClassOf(all, pairs, heads[j]))
    {
      groups := groups + [SortedIds(Elements(grouped[heads[i]]))];
    }
  }

  lemma GroupsAreClasses(ids: seq<Id>, forest: Parents, pairs: Pairs, grouped: Grouping)
    requires forest.Keys == Elements(ids) && Represents(forest, pairs) && Groups(grouped, ids, forest)
    ensures grouped.Keys == Heads(Elements(ids), pairs)
    ensures forall r: Id :: r in grouped ==> Elements(grouped[r]) == ClassOf(Elements(ids), pairs, r)
  {
    var all := Elements(ids);
    forall r: Id | r in grouped ensures r in Heads(all, pairs) && Elements(grouped[r]) == ClassOf(all, pairs, r) {
      var x := grouped[r][0];
      assert x in GroupOf(grouped, r) && Root(forest, x) == r && Root(forest, r) == r;
      forall y: Id | y in all ensures y in GroupOf(grouped, r) <==> y in ClassOf(all, pairs, r) {
        RootsDecide(forest, pairs, r, y);
      }
      forall y | y in ClassOf(all, pairs, r) ensures r <= y {
        RootsDecide(forest, pairs, r, y);
      }
    }
    forall r: Id | r in Heads(all, pairs) ensures r in grouped {
      RootsDecide(forest, pairs, r, Root(forest, r));
      assert Root(forest, r) in ClassOf(all, pairs, r);
      assert r in GroupOf(grouped, r);
    }
  }

  method Group(ids: seq<Id>, forest: Parents, ghost pairs: Pairs) returns (groups: seq<seq<Id>>)
    requires Distinct(ids) && forest.Keys == Elements(ids) && Represents(forest, pairs)
    ensures groups == Partition(Elements(ids), pairs)
  {
    var parents := forest;
    var grouped: Grouping := map[];
    for i := 0 to |ids|
      invariant SameRoots(forest, parents)
      invariant Groups(grouped, ids[..i], forest)
    {
      var root;
      parents, root := Find(parents, ids[i]);
      GroupsNext(grouped, ids, i, forest, root);
      grouped := grouped[root := GroupOf(grouped, root) + [ids[i]]];
    }
    assert ids[..|ids|] == ids;
    GroupsAreClasses(ids, forest, pairs, grouped);
    groups := Listing(grouped, Elements(ids), pairs);
  }

  method Components(ids: seq<Id>, links: seq<Link>) returns (groups: seq<seq<Id>>)
    requires Distinct(ids)
    requires forall k :: k in links && k.state == Confirmed ==> k.left in ids && k.right in ids
    ensures groups == Partition(Elements(ids), ConfirmedPairs(links))
  {
    var parents := map x | x in Elements(ids) :: x;
    SingletonsRepresent(parents);
    assert ConfirmedPairs(links[..0]) == {};
    for i := 0 to |links|
      invariant parents.Keys == Elements(ids)
      invariant Represents(parents, ConfirmedPairs(links[..i]))
    {
      var link := links[i];
      PairsNext(links, i);
      if link.state == Confirmed {
        parents := Union(parents, link.left, link.right, ConfirmedPairs(links[..i]));
      }
    }
    assert links[..|links|] == links;
    groups := Group(ids, parents, ConfirmedPairs(links));
  }

  // ----- what the partition means -----

  ghost predicate Together(groups: seq<seq<Id>>, x: Id, y: Id) {
    exists k :: 0 <= k < |groups| && x in groups[k] && y in groups[k]
  }

  lemma HeadOf(ids: set<Id>, pairs: Pairs, x: Id) returns (head: Id)
    requires x in ids
    ensures head in Heads(ids, pairs) && Connected(pairs, head, x) && head <= x
  {
    Reflexive(pairs, x);
    assert x in ClassOf(ids, pairs, x);
    head := Least(ClassOf(ids, pairs, x));
    Symmetric(pairs, x, head);
    forall y | y in ClassOf(ids, pairs, head) ensures head <= y {
      Transitive(pairs, x, head, y);
      assert y in ClassOf(ids, pairs, x);
    }
  }

  lemma OneHeadPerClass(ids: set<Id>, pairs: Pairs, a: Id, b: Id)
    requires a in Heads(ids, pairs) && b in Heads(ids, pairs) && Connected(pairs, a, b)
    ensures a == b
  {
    Symmetric(pairs, a, b);
    assert b in ClassOf(ids, pairs, a) && a in ClassOf(ids, pairs, b);
  }

  /** Two entities land in one group exactly when confirmed links connect them. */
  lemma TogetherExactlyWhenConnected(ids: set<Id>, pairs: Pairs, x: Id, y: Id)
    requires x in ids && y in ids
    ensures Together(Partition(ids, pairs), x, y) <==> Connected(pairs, x, y)
  {
    var groups, heads := Partition(ids, pairs), SortedIds(Heads(ids, pairs));
    if Together(groups, x, y) {
      var k :| 0 <= k < |groups| && x in groups[k] && y in groups[k];
      Symmetric(pairs, heads[k], x);
      Transitive(pairs, x, heads[k], y);
    }
    if Connected(pairs, x, y) {
      var head := HeadOf(ids, pairs, x);
      Transitive(pairs, head, x, y);
      var k :| 0 <= k < |heads| && heads[k] == head;
      assert x in groups[k] && y in groups[k];
    }
  }

  /** Groups are ascending, begin with the least id of their class, follow one another in that order, and
      share no member. */
  lemma PartitionShape(ids: set<Id>, pairs: Pairs)
    ensures var groups := Partition(ids, pairs);
            && (forall k :: 0 <= k < |groups| ==> groups[k] != [] && Ascending(groups[k]))
            && (forall j, k :: 0 <= j < k < |groups| ==>
                 groups[j] != [] && groups[k] != [] && groups[j][0] < groups[k][0])
            && (forall j, k, x :: 0 <= j < k < |groups| && x in groups[j] ==> x !in groups[k])
  {
    var groups, heads := Partition(ids, pairs), SortedIds(Heads(ids, pairs));
    forall k | 0 <= k < |groups| ensures groups[k] != [] && groups[k][0] == heads[k] {
      assert heads[k] in Heads(ids, pairs);
      Reflexive(pairs, heads[k]);
      assert heads[k] in groups[k];
      assert groups[k][0] in groups[k];
    }
    forall j, k, x | 0 <= j < k < |groups| && x in groups[j] ensures x !in groups[k] {
      if x in groups[k] {
        assert heads[j] in Heads(ids, pairs) && heads[k] in Heads(ids, pairs);
        Symmetric(pairs, heads[k], x);
        Transitive(pairs, heads[j], x, heads[k]);
        OneHeadPerClass(ids, pairs, heads[j], heads[k]);
      }
    }
  }

  /** Together they hold every id and nothing else. */
  lemma PartitionCovers(ids: set<Id>, pairs: Pairs, x: Id)
    ensures x in ids <==> exists k :: 0 <= k < |Partition(ids, pairs)| && x in Partition(ids, pairs)[k]
  {
    if x in ids {
      Reflexive(pairs, x);
      TogetherExactlyWhenConnected(ids, pairs, x, x);
    }
  }

  // ----- the merged records -----

  datatype IdentityState = Agreed | InConflict | Ambiguous | ProviderOnly

  datatype Unified = Unified(members: seq<Id>, state: IdentityState)

  function ProvidersOf(entities: seq<Entity>, members: seq<Id>): set<nat> {
    set e | e in entities && e.id in members :: e.provider
  }

  predicate InPairs(x: Id, pairs: set<(Id, Id)>) {
    exists p :: p in pairs && (p.0 == x || p.1 == x)
  }

  function CandidatePairs(links: seq<Link>): set<(Id, Id)> {
    set k | k in links && k.state == Candidate :: (k.left, k.right)
  }

  /** More than one provider means agreed; only then do conflicts and candidates count. */
  function StateOf(entities: seq<Entity>, members: seq<Id>, conflicted: set<(Id, Id)>,
                   candidates: set<(Id, Id)>): IdentityState {
    if |ProvidersOf(entities, members)| > 1 then Agreed
    else if exists x :: x in members && InPairs(x, conflicted) then InConflict
    else if exists x :: x in members && InPairs(x, candidates) then Ambiguous
    else ProviderOnly
  }

  // ----- what becomes of a pair -----

  /** What the operator has said about a pair; clearing a decision is saying nothing. */
  function Ruling(decisions: map<LinkId, Decision>, x: Entity, y: Entity): Option<Decision> {
    var id := PairId(x.id, y.id);
    if id in decisions && decisions[id] != Clear then Some(decisions[id]) else None
  }

  /** Joined by proof and not rejected, or open and confirmed by the operator. */
  ghost predicate Joined(entities: seq<Entity>, decisions: map<LinkId, Decision>, x: Entity, y: Entity) {
    || (FinalState(entities, x, y) == Confirmed && Ruling(decisions, x, y) != Some(Reject))
    || (FinalState(entities, x, y) == Candidate && Ruling(decisions, x, y) == Some(Confirm))
  }

  /** Open, and left open by the operator. */
  ghost predicate Open(entities: seq<Entity>, decisions: map<LinkId, Decision>, x: Entity, y: Entity) {
    FinalState(entities, x, y) == Candidate && Ruling(decisions, x, y).None?
  }

  ghost predicate Ruled(entities: seq<Entity>, decisions: map<LinkId, Decision>, resolved: seq<Link>, links: seq<Link>,
                        x: Entity, y: Entity) {
    && ((x.id, y.id) in ConfirmedPairs(links) <==> Joined(entities, decisions, x, y))
    && ((x.id, y.id) in CandidatePairs(links) <==> Open(entities, decisions, x, y))
    && ((x.id, y.id) in ConflictedPairs(resolved) <==> PairState(x, y) == Conflicted)
  }

  lemma OneWithId(entities: seq<Entity>, x: Entity, y: Entity)
    requires DistinctIds(entities) && x in entities && y in entities && x.id == y.id
    ensures x == y
  {
  }

  /** The link at a position that joins the two is the link of that pair. */
  lemma LinkOfPair(entities: seq<Entity>, resolved: seq<Link>, i: nat, x: Entity, y: Entity)
    requires DistinctIds(entities) && Sound(entities, resolved) && i < |resolved| && x in entities && y in entities
    requires resolved[i].left == x.id && resolved[i].right == y.id
    ensures IsLink(entities, x, y, resolved[i])
  {
    assert resolved[i] in resolved;
    var l, r :| IsLink(entities, l, r, resolved[i]);
    OneWithId(entities, l, x);
    OneWithId(entities, r, y);
  }

  /** A stored rejection parts a pair, a confirmation joins an open one, and without either the resolution stands;
      a conflict stands whatever was said. */
  lemma DecisionsRule(entities: seq<Entity>, decisions: map<LinkId, Decision>, resolved: seq<Link>, links: seq<Link>,
                      x: Entity, y: Entity)
    requires DistinctIds(entities) && Sound(entities, resolved) && Covers(entities, resolved, x, y)
    requires |links| == |resolved| && forall i :: 0 <= i < |links| ==> links[i] == Decided(resolved[i], decisions)
    requires x in entities && y in entities && x.provider < y.provider
    ensures Ruled(entities, decisions, resolved, links, x, y)
  {
    forall k | k in links && k.left == x.id && k.right == y.id
      ensures k.state == Confirmed <==> Joined(entities, decisions, x, y)
      ensures k.state == Candidate <==> Open(entities, decisions, x, y)
    {
      var i :| 0 <= i < |links| && links[i] == k;
      LinkOfPair(entities, resolved, i, x, y);
    }
    forall k | k in resolved && k.left == x.id && k.right == y.id ensures k.state == FinalState(entities, x, y) {
      var i :| 0 <= i < |resolved| && resolved[i] == k;
      LinkOfPair(entities, resolved, i, x, y);
    }
    if FinalState(entities, x, y) != Rejected {
      var link :| link in resolved && IsLink(entities, x, y, link);
      var i :| 0 <= i < |resolved| && resolved[i] == link;
      assert links[i] in links && links[i].left == x.id && links[i].right == y.id;
    }
  }

  function IdsOf(entities: seq<Entity>): (ids: seq<Id>)
    ensures |ids| == |entities| && forall i :: 0 <= i < |ids| ==> ids[i] == entities[i].id
  {
    seq(|entities|, i requires 0 <= i < |entities| => entities[i].id)
  }

  /** Resolve, apply the stored decisions, merge: the identity part of `reconcile_unified_state`. */
  method Reconcile(entities: seq<Entity>, decisions: map<LinkId, Decision>)
    returns (resolved: seq<Link>, links: seq<Link>, unified: seq<Unified>)
    requires DistinctIds(entities)
    ensures Sound(entities, resolved)
    ensures forall l, r :: l in entities && r in entities ==> Covers(entities, resolved, l, r)
    ensures |links| == |resolved| && forall i :: 0 <= i < |links| ==> links[i] == Decided(resolved[i], decisions)
    ensures var groups := Partition(Elements(IdsOf(entities)), ConfirmedPairs(links));
            && |unified| == |groups|
            && forall k :: 0 <= k < |unified| ==>
                 unified[k] == Unified(groups[k], StateOf(entities, groups[k], ConflictedPairs(resolved),
                   CandidatePairs(links)))
    ensures forall x, y :: x in entities && y in entities && x.provider < y.provider ==>
              Ruled(entities, decisions, resolved, links, x, y)
  {
    var conflicts;
    resolved, conflicts := ResolveAll(entities);
    links := ApplyDecisions(resolved, decisions);
    forall k | k in links ensures k.left in IdsOf(entities) && k.right in IdsOf(entities) {
      var i :| 0 <= i < |links| && links[i] == k;
      assert resolved[i] in resolved;
      var l, r :| IsLink(entities, l, r, resolved[i]);
      assert l in entities && r in entities;
      var a :| 0 <= a < |entities| && entities[a] == l;
      var b :| 0 <= b < |entities| && entities[b] == r;
      assert IdsOf(entities)[a] == k.left && IdsOf(entities)[b] == k.right;
    }
    forall x, y | x in entities && y in entities && x.provider < y.provider
      ensures Ruled(entities, decisions, resolved, links, x, y)
    {
      DecisionsRule(entities, decisions, resolved, links, x, y);
    }
    var groups := Components(IdsOf(entities), links);
    var conflicted, candidates := ConflictPairs(conflicts), CandidatePairs(links);
    assert conflicted == ConflictedPairs(resolved);
    unified := [];
    for k := 0 to |groups|
      invariant |unified| == k
      invariant forall j :: 0 <= j < k ==>
                              unified[j] == Unified(groups[j], StateOf(entities, groups[j], conflicted, candidates))
    {
      unified := unified + [Unified(groups[k], StateOf(entities, groups[k], conflicted, candidates))];
    }
  }

  // ----- what a record's state says -----

  /** The links of a reconciliation, before and after the decisions. */
  ghost predicate Reconciled(entities: seq<Entity>, decisions: map<LinkId, Decision>, resolved: seq<Link>,
                             links: seq<Link>) {
    && DistinctIds(entities) && Sound(entities, resolved) && |links| == |resolved|
    && (forall i :: 0 <= i < |links| ==> links[i] == Decided(resolved[i], decisions))
    && (forall x, y :: x in entities && y in entities && x.provider < y.provider ==>
          Ruled(entities, decisions, resolved, links, x, y))
  }

  ghost predicate InClash(entities: seq<Entity>, x: Entity) {
    exists y :: y in entities && PairState(x, y) == Conflicted
  }

  ghost predicate InDoubt(entities: seq<Entity>, decisions: map<LinkId, Decision>, x: Entity) {
    exists y :: y in entities && Open(entities, decisions, x, y)
  }

  ghost predicate HoldsTwoProviders(entities: seq<Entity>, members: seq<Id>) {
    exists x, y ::
      x in entities && y in entities && x.id in members && y.id in members && x.provider != y.provider
  }

  lemma OpenSymmetric(entities: seq<Entity>, decisions: map<LinkId, Decision>, x: Entity, y: Entity)
    ensures Open(entities, decisions, x, y) <==> Open(entities, decisions, y, x)
    ensures Joined(entities, decisions, x, y) <==> Joined(entities, decisions, y, x)
  {
    FinalStateSymmetric(entities, x, y);
  }

  /** Every link joins two entities, of different providers. */
  lemma EndsOfLink(entities: seq<Entity>, decisions: map<LinkId, Decision>, resolved: seq<Link>, links: seq<Link>,
                   p: (Id, Id)) returns (x: Entity, y: Entity)
    requires Reconciled(entities, decisions, resolved, links)
    requires p in ConflictedPairs(resolved) || p in CandidatePairs(links) || p in ConfirmedPairs(links)
    ensures x in entities && y in entities && x.provider < y.provider && p == (x.id, y.id)
  {
    var i :| 0 <= i < |resolved| && p == (resolved[i].left, resolved[i].right);
    assert resolved[i] in resolved;
    x, y :| IsLink(entities, x, y, resolved[i]);
  }

  lemma PairsMean(entities: seq<Entity>, decisions: map<LinkId, Decision>, resolved: seq<Link>, links: seq<Link>,
                  x: Entity)
    requires Reconciled(entities, decisions, resolved, links) && x in entities
    ensures InPairs(x.id, ConflictedPairs(resolved)) <==> InClash(entities, x)
    ensures InPairs(x.id, CandidatePairs(links)) <==> InDoubt(entities, decisions, x)
  {
    forall p | (p in ConflictedPairs(resolved) || p in CandidatePairs(links)) && (p.0 == x.id || p.1 == x.id)
      ensures p in ConflictedPairs(resolved) ==> InClash(entities, x)
      ensures p in CandidatePairs(links) ==> InDoubt(entities, decisions, x)
    {
      var a, b := EndsOfLink(entities, decisions, resolved, links, p);
      var other := if p.0 == x.id then b else a;
      OneWithId(entities, if p.0 == x.id then a else b, x);
      assert Ruled(entities, decisions, resolved, links, a, b);
      PairStateSymmetric(a, b);
      OpenSymmetric(entities, decisions, a, b);
      assert other in entities;
    }
    forall y | y in entities && (PairState(x, y) == Conflicted || Open(entities, decisions, x, y))
      ensures PairState(x, y) == Conflicted ==> InPairs(x.id, ConflictedPairs(resolved))
      ensures Open(entities, decisions, x, y) ==> InPairs(x.id, CandidatePairs(links))
    {
      PairStateSymmetric(x, y);
      OpenSymmetric(entities, decisions, x, y);
      var a, b := if x.provider < y.provider then x else y, if x.provider < y.provider then y else x;
      assert Ruled(entities, decisions, resolved, links, a, b);
      assert ((a.id, b.id).0 == x.id || (a.id, b.id).1 == x.id);
    }
  }

  lemma TwoProviders(entities: seq<Entity>, members: seq<Id>)
    ensures |ProvidersOf(entities, members)| > 1 <==> HoldsTwoProviders(entities, members)
  {
    var providers := ProvidersOf(entities, members);
    forall x, y | x in entities && y in entities && x.id in members && y.id in members && x.provider != y.provider
      ensures |providers| > 1
    {
      assert providers == {x.provider} + (providers - {x.provider});
      assert y.provider in providers - {x.provider};
    }
    if |providers| > 1 {
      var p :| p in providers;
      assert providers == {p} + (providers - {p});
      var q :| q in providers - {p};
      var x :| x in entities && x.id in members && x.provider == p;
      var y :| y in entities && y.id in members && y.provider == q;
    }
  }

  lemma MembersMean(entities: seq<Entity>, decisions: map<LinkId, Decision>, resolved: seq<Link>, links: seq<Link>,
                    members: seq<Id>)
    requires Reconciled(entities, decisions, resolved, links)
    requires forall id :: id in members ==> exists x :: x in entities && x.id == id
    ensures (exists id :: id in members && InPairs(id, ConflictedPairs(resolved))) <==>
            exists x :: x in entities && x.id in members && InClash(entities, x)
    ensures (exists id :: id in members && InPairs(id, CandidatePairs(links))) <==>
            exists x :: x in entities && x.id in members && InDoubt(entities, decisions, x)
  {
    forall x | x in entities
      ensures InPairs(x.id, ConflictedPairs(resolved)) <==> InClash(entities, x)
      ensures InPairs(x.id, CandidatePairs(links)) <==> InDoubt(entities, decisions, x)
    {
      PairsMean(entities, decisions, resolved, links, x);
    }
  }

  /** A record is agreed when it holds two providers; otherwise it is in conflict when a member contradicts some
      entity, ambiguous when one is open to some entity, and else says nothing but what its provider does. */
  lemma StateMeans(entities: seq<Entity>, decisions: map<LinkId, Decision>, resolved: seq<Link>, links: seq<Link>,
                   members: seq<Id>)
    requires Reconciled(entities, decisions, resolved, links)
    requires forall id :: id in members ==> exists x :: x in entities && x.id == id
    ensures var state := StateOf(entities, members, ConflictedPairs(resolved), CandidatePairs(links));
            var agreed := HoldsTwoProviders(entities, members);
            var clash := exists x :: x in entities && x.id in members && InClash(entities, x);
            var doubt := exists x :: x in entities && x.id in members && InDoubt(entities, decisions, x);
            state == if agreed then Agreed else if clash then InConflict else if doubt then Ambiguous else ProviderOnly
  {
    TwoProviders(entities, members);
    MembersMean(entities, decisions, resolved, links, members);
  }

  /** An id that no pair joins with another makes a group of its own. */
  lemma AloneInPartition(ids: set<Id>, pairs: Pairs, x: Id)
    requires x in ids && forall p :: p in pairs ==> p.0 != x && p.1 != x
    ensures exists k :: 0 <= k < |Partition(ids, pairs)| && Partition(ids, pairs)[k] == [x]
  {
    assert Closed(pairs, {x});
    ComponentWithin(pairs, {x}, x);
    Reflexive(pairs, x);
    assert ClassOf(ids, pairs, x) == {x};
    var heads := SortedIds(Heads(ids, pairs));
    assert x in Heads(ids, pairs);
    var k :| 0 <= k < |heads| && heads[k] == x;
    AscendingUnique(SortedIds({x}), [x]);
    assert Partition(ids, pairs)[k] == [x];
  }

  lemma NothingJoins(entities: seq<Entity>, decisions: map<LinkId, Decision>, resolved: seq<Link>, links: seq<Link>,
                     x: Entity)
    requires Reconciled(entities, decisions, resolved, links) && x in entities
    requires forall y :: y in entities ==> !Joined(entities, decisions, x, y)
    ensures forall p :: p in ConfirmedPairs(links) ==> p.0 != x.id && p.1 != x.id
    ensures StateOf(entities, [x.id], ConflictedPairs(resolved), CandidatePairs(links)) ==
            if InClash(entities, x) then InConflict else if InDoubt(entities, decisions, x) then Ambiguous
            else ProviderOnly
  {
    forall p | p in ConfirmedPairs(links) ensures p.0 != x.id && p.1 != x.id {
      var a, b := EndsOfLink(entities, decisions, resolved, links, p);
      assert Ruled(entities, decisions, resolved, links, a, b);
      OpenSymmetric(entities, decisions, a, b);
    }
    StateMeans(entities, decisions, resolved, links, [x.id]);
    forall e | e in entities && e.id in [x.id] ensures e == x {
      OneWithId(entities, e, x);
    }
  }

  /** A record that nothing joins, by proof or by the operator, comes out alone: provider-only unless it
      contradicts some record or is open to one. So two records whose link was rejected stay two. */
  method ReconcileApart(entities: seq<Entity>, decisions: map<LinkId, Decision>, x: Entity)
    returns (unified: seq<Unified>)
    requires DistinctIds(entities) && x in entities
    requires forall y :: y in entities ==> !Joined(entities, decisions, x, y)
    ensures Unified([x.id], if InClash(entities, x) then InConflict
                            else if InDoubt(entities, decisions, x) then Ambiguous else ProviderOnly) in unified
  {
    var resolved, links;
    resolved, links, unified := Reconcile(entities, decisions);
    var i :| 0 <= i < |entities| && entities[i] == x;
    assert IdsOf(entities)[i] == x.id;
    NothingJoins(entities, decisions, resolved, links, x);
    AloneInPartition(Elements(IdsOf(entities)), ConfirmedPairs(links), x.id);
    ghost var groups := Partition(Elements(IdsOf(entities)), ConfirmedPairs(links));
    ghost var k :| 0 <= k < |groups| && groups[k] == [x.id];
    assert unified[k] in unified;
  }

  /** A conflicted pair that other confirmed links connect is presented as agreed, not as a conflict. */
  lemma ConflictHiddenByMerge(entities: seq<Entity>, l: Entity, r: Entity, members: seq<Id>,
                              conflicted: set<(Id, Id)>, candidates: set<(Id, Id)>)
    requires l in entities && r in entities && l.id in members && r.id in members && PairState(l, r) == Conflicted
    ensures StateOf(entities, members, conflicted, candidates) == Agreed
  {
    var providers := ProvidersOf(entities, members);
    assert l.provider in providers && r.provider in providers;
    assert {l.provider, r.provider} <= providers;
    assert providers == {l.provider} + (providers - {l.provider});
    assert r.provider in providers - {l.provider};
  }

  /** The two halves of a conflicted pair end in one record if and only if confirmed links connect them, and that
      record is then presented as agreed. */
  lemma ConflictedPairMergesExactly(entities: seq<Entity>, pairs: Pairs, l: Entity, r: Entity,
                                    conflicted: set<(Id, Id)>, candidates: set<(Id, Id)>)
    requires l in entities && r in entities && PairState(l, r) == Conflicted
    ensures var groups := Partition(Elements(IdsOf(entities)), pairs);
            && (Together(groups, l.id, r.id) <==> Connected(pairs, l.id, r.id))
            && (forall k :: 0 <= k < |groups| && l.id in groups[k] && r.id in groups[k] ==>
                  StateOf(entities, groups[k], conflicted, candidates) == Agreed)
  {
    var groups := Partition(Elements(IdsOf(entities)), pairs);
    var i :| 0 <= i < |entities| && entities[i] == l;
    var j :| 0 <= j < |entities| && entities[j] == r;
    assert IdsOf(entities)[i] == l.id && IdsOf(entities)[j] == r.id;
    TogetherExactlyWhenConnected(Elements(IdsOf(entities)), pairs, l.id, r.id);
    forall k | 0 <= k < |groups| && l.id in groups[k] && r.id in groups[k]
      ensures StateOf(entities, groups[k], conflicted, candidates) == Agreed
    {
      ConflictHiddenByMerge(entities, l, r, groups[k], conflicted, candidates);
    }
  }

  lemma SharedAddressConfirms(entities: seq<Entity>, e: Entity, m: Entity, mac: Token)
    requires e.provider != m.provider && Tokens(m, KindsOf(SerialNumber)) == {}
    requires Proves(entities, e, m, (HardwareMac, mac))
    ensures FinalState(entities, e, m) == Confirmed
  {
    assert mac in Tokens(e, KindsOf(HardwareMac)) * Tokens(m, KindsOf(HardwareMac));
    assert Agrees(e, m, HardwareMac) && !Disagrees(e, m, HardwareMac) && !Disagrees(e, m, SerialNumber);
  }

  /** A record confirmed with each of two others connects them, whatever those two are to each other. */
  lemma ThirdRecordConnects(entities: seq<Entity>, links: seq<Link>, l: Entity, r: Entity, m: Entity)
    requires Covers(entities, links, l, m) && l.provider < m.provider && FinalState(entities, l, m) == Confirmed
    requires Covers(entities, links, r, m) && r.provider < m.provider && FinalState(entities, r, m) == Confirmed
    ensures Connected(ConfirmedPairs(links), l.id, r.id)
  {
    var pairs := ConfirmedPairs(links);
    var first :| first in links && IsLink(entities, l, m, first);
    var second :| second in links && IsLink(entities, r, m, second);
    assert (l.id, m.id) in pairs && (r.id, m.id) in pairs;
    Reflexive(pairs, l.id);
    Step(pairs, l.id, l.id, m.id);
    Step(pairs, l.id, m.id, r.id);
  }

  const FIRST: Entity := Entity(1, 0, [Identifier(Serial, 1, false), Identifier(DeviceMac, 10, true),
    Identifier(Name, 9, false)])
  const SECOND: Entity := Entity(2, 1, [Identifier(Serial, 2, false), Identifier(DeviceMac, 20, true),
    Identifier(Name, 9, false)])
  const THIRD: Entity := Entity(3, 2, [Identifier(DeviceMac, 10, true), Identifier(DeviceMac, 20, true)])

  lemma TokensOfThree(e: Entity, serial: Token, mac: Token)
    requires e.identifiers == [Identifier(Serial, serial, false), Identifier(DeviceMac, mac, true),
             Identifier(Name, 9, false)]
    ensures Tokens(e, KindsOf(SerialNumber)) == {serial} && Tokens(e, KindsOf(HardwareMac)) == {mac} &&
            Tokens(e, {Name}) == {9}
  {
    var ids := e.identifiers;
    assert ids[0] in ids && ids[1] in ids && ids[2] in ids;
  }

  lemma ThreeTokens()
    ensures Disagrees(FIRST, SECOND, SerialNumber) && Shares(FIRST, SECOND, {Name})
    ensures Tokens(THIRD, KindsOf(SerialNumber)) == {} && Tokens(THIRD, KindsOf(HardwareMac)) == {10, 20}
    ensures Tokens(FIRST, KindsOf(HardwareMac)) == {10} && Tokens(SECOND, KindsOf(HardwareMac)) == {20}
  {
    TokensOfThree(FIRST, 1, 10);
    TokensOfThree(SECOND, 2, 20);
    assert 9 in Tokens(FIRST, {Name}) * Tokens(SECOND, {Name});
    var ids := THIRD.identifiers;
    assert ids[0] in ids && ids[1] in ids;
  }

  lemma FirstHolds()
    ensures Proves([FIRST, SECOND, THIRD], FIRST, THIRD, (HardwareMac, 10))
  {
    ThreeTokens();
  }

  lemma SecondHolds()
    ensures Proves([FIRST, SECOND, THIRD], SECOND, THIRD, (HardwareMac, 20))
  {
    ThreeTokens();
  }

  /** Such a trio exists, and its two conflicted records do merge: the serial numbers of the first two
      differ while their names agree, and the third shares one hardware address with each. */
  lemma ConflictedYetMerged()
    ensures PairState(FIRST, SECOND) == Conflicted
    ensures FinalState([FIRST, SECOND, THIRD], FIRST, THIRD) == Confirmed
    ensures FinalState([FIRST, SECOND, THIRD], SECOND, THIRD) == Confirmed
  {
    ThreeTokens();
    FirstHolds();
    SecondHolds();
    SharedAddressConfirms([FIRST, SECOND, THIRD], FIRST, THIRD, 10);
    SharedAddressConfirms([FIRST, SECOND, THIRD], SECOND, THIRD, 20);
  }

  /** All ids connected to the least one make one group. */
  lemma OneGroup(ids: seq<Id>, pairs: Pairs)
    requires ids != [] && Ascending(ids)
    requires forall x :: x in ids ==> Connected(pairs, ids[0], x)
    ensures Partition(Elements(ids), pairs) == [ids]
  {
    var all, head := Elements(ids), ids[0];
    forall x | x in all ensures ClassOf(all, pairs, x) == all {
      Symmetric(pairs, head, x);
      forall y | y in all ensures Connected(pairs, x, y) {
        Transitive(pairs, x, head, y);
      }
    }
    assert head in all;
    assert forall x :: x in all ==> head <= x;
    assert Heads(all, pairs) == {head};
    AscendingUnique(SortedIds({head}), [head]);
    AscendingUnique(SortedIds(all), ids);
  }

  /** Exactly three entities, two of them in conflict, each confirmed with the third. */
  ghost predicate MergingTrio(entities: seq<Entity>, l: Entity, r: Entity, m: Entity) {
    && l in entities && r in entities && m in entities && IdsOf(entities) == [l.id, r.id, m.id]
    && l.provider < r.provider < m.provider && l.id < r.id < m.id
    && PairState(l, r) == Conflicted
    && FinalState(entities, l, m) == Confirmed && FinalState(entities, r, m) == Confirmed
  }

  /** A pair of that outcome is among the links of that state. */
  lemma LinkBetween(entities: seq<Entity>, links: seq<Link>, x: Entity, y: Entity)
    requires Covers(entities, links, x, y) && x.provider < y.provider
    ensures FinalState(entities, x, y) == Confirmed ==> (x.id, y.id) in ConfirmedPairs(links)
    ensures FinalState(entities, x, y) == Conflicted ==> (x.id, y.id) in ConflictedPairs(links)
  {
    if FinalState(entities, x, y) != Rejected {
      var link :| link in links && IsLink(entities, x, y, link);
    }
  }

  lemma TwoPairsOneGroup(pairs: Pairs, a: Id, b: Id, c: Id)
    requires a < b < c && (a, c) in pairs && (b, c) in pairs
    ensures Partition(Elements([a, b, c]), pairs) == [[a, b, c]]
  {
    Reflexive(pairs, a);
    Step(pairs, a, a, c);
    Step(pairs, a, c, b);
    OneGroup([a, b, c], pairs);
  }

  /** The three make one group. */
  lemma ThreeConnect(entities: seq<Entity>, links: seq<Link>, l: Entity, r: Entity, m: Entity)
    requires forall x, y :: x in entities && y in entities ==> Covers(entities, links, x, y)
    ensures MergingTrio(entities, l, r, m) ==>
            && (l.id, r.id) in ConflictedPairs(links)
            && Partition(Elements([l.id, r.id, m.id]), ConfirmedPairs(links)) == [[l.id, r.id, m.id]]
  {
    if MergingTrio(entities, l, r, m) {
      LinkBetween(entities, links, l, r);
      LinkBetween(entities, links, l, m);
      LinkBetween(entities, links, r, m);
      TwoPairsOneGroup(ConfirmedPairs(links), l.id, r.id, m.id);
    }
  }

  lemma ThreeIds(l: Entity, r: Entity, m: Entity)
    requires l.id < r.id < m.id
    ensures IdsOf([l, r, m]) == [l.id, r.id, m.id] && DistinctIds([l, r, m])
  {
  }

  /** Reconciling any such trio gives one record, shown as agreed, though two of its parts are in conflict. */
  method ReconcileThree(entities: seq<Entity>, l: Entity, r: Entity, m: Entity)
    returns (resolved: seq<Link>, unified: seq<Unified>)
    requires DistinctIds(entities)
    ensures MergingTrio(entities, l, r, m) ==>
            && (l.id, r.id) in ConflictedPairs(resolved)
            && unified == [Unified([l.id, r.id, m.id], Agreed)]
  {
    var links;
    resolved, links, unified := Reconcile(entities, map[]);
    assert links == resolved;
    ThreeConnect(entities, resolved, l, r, m);
    if MergingTrio(entities, l, r, m) {
      ConflictHiddenByMerge(entities, l, r, [l.id, r.id, m.id], ConflictedPairs(resolved), CandidatePairs(links));
    }
  }

  /** The trio above, reconciled. */
  method ReconcileTrio() returns (resolved: seq<Link>, unified: seq<Unified>)
    ensures (FIRST.id, SECOND.id) in ConflictedPairs(resolved)
    ensures unified == [Unified([FIRST.id, SECOND.id, THIRD.id], Agreed)]
  {
    ConflictedYetMerged();
    ThreeIds(FIRST, SECOND, THIRD);
    resolved, unified := ReconcileThree([FIRST, SECOND, THIRD], FIRST, SECOND, THIRD);
  }
}
