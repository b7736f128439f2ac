/** Conservative identity resolution between entities reported by different providers
    (`backend/app/identity_resolution.py`). Protected identifier values are abstract tokens. */
module Identity {
  import opened Common
  import opened Walks

  type Token = nat

  datatype Kind = Serial | ChassisMac | DeviceMac | ManagementAddress | ProviderId
                | DirectAdjacency | ReciprocalAdjacency | Name | Model

  datatype Identifier = Identifier(kind: Kind, token: Token, globallyAdministered: bool)

  datatype Entity = Entity(id: Id, provider: nat, identifiers: seq<Identifier>)

  /** The two strong families; chassis and device addresses are one hardware identity. */
  datatype Family = SerialNumber | HardwareMac

  datatype LinkState = Confirmed | Candidate | Rejected | Conflicted

  datatype ReasonKind = Agreement | Conflict | Support | Hint | Operator

  datatype Reason = Reason(kind: ReasonKind, field: Option<Kind>)

  /** The link id hashes the sorted pair of entity ids. */
  datatype LinkId = LinkId(low: Id, high: Id)

  datatype Link = Link(id: LinkId, left: Id, right: Id, state: LinkState, automatic: bool, reasons: seq<Reason>)

  datatype IdentityConflict = IdentityConflict(left: Id, right: Id, field: Kind)

  function PairId(a: Id, b: Id): LinkId {
    if a <= b then LinkId(a, b) else LinkId(b, a)
  }

  /** A locally administered hardware address never takes part. */
  predicate Admissible(i: Identifier) {
    (i.kind == ChassisMac || i.kind == DeviceMac) ==> i.globallyAdministered
  }

  function Tokens(e: Entity, kinds: set<Kind>): set<Token> {
    set i | i in e.identifiers && Admissible(i) && i.kind in kinds :: i.token
  }

  function KindsOf(f: Family): set<Kind> {
    match f
    case SerialNumber => {Serial}
    case HardwareMac => {ChassisMac, DeviceMac}
  }

  /** The kind under which a family's agreement or conflict is recorded. */
  function FieldOf(f: Family): Kind {
    match f
    case SerialNumber => Serial
    case HardwareMac => ChassisMac
  }

  predicate Shares(l: Entity, r: Entity, kinds: set<Kind>) {
    Tokens(l, kinds) * Tokens(r, kinds) != {}
  }

  predicate Agrees(l: Entity, r: Entity, f: Family) {
    Shares(l, r, KindsOf(f))
  }

  /** Both sides report the family and have no value in common. */
  predicate Disagrees(l: Entity, r: Entity, f: Family) {
    Tokens(l, KindsOf(f)) != {} && Tokens(r, KindsOf(f)) != {} && !Agrees(l, r, f)
  }

  predicate IsSupporting(k: Kind) {
    k == ManagementAddress || k == DirectAdjacency || k == ReciprocalAdjacency
  }

  ghost predicate StrongAgreement(l: Entity, r: Entity) {
    exists f: Family :: Agrees(l, r, f)
  }

  ghost predicate StrongDisagreement(l: Entity, r: Entity) {
    exists f: Family :: Disagrees(l, r, f)
  }

  ghost predicate SupportingAgreement(l: Entity, r: Entity) {
    exists k: Kind :: IsSupporting(k) && Shares(l, r, {k})
  }

  /** Something other than a shared model makes the pair plausible. */
  ghost predicate Plausible(l: Entity, r: Entity) {
    StrongAgreement(l, r) || SupportingAgreement(l, r) || Shares(l, r, {Name})
  }

  /** The documented rules, as a function of the two entities. */
  ghost function PairState(l: Entity, r: Entity): LinkState {
    if l.provider == r.provider then Rejected
    else if StrongDisagreement(l, r) && Plausible(l, r) then Conflicted
    else if StrongAgreement(l, r) then Confirmed
    else if SupportingAgreement(l, r) || Shares(l, r, {Name}) || Shares(l, r, {Model}) then Candidate
    else Rejected
  }

  const STRONG_GROUPS: seq<Family> := [SerialNumber, HardwareMac]

  /** The supporting and weak kinds in sorted order. */
  const SOFT_KINDS: seq<Kind> := [DirectAdjacency, ManagementAddress, Model, Name, ReciprocalAdjacency]

  /** The first loop: strong families that agree, and those that disagree. */
  method ScanStrong(left: Entity, right: Entity)
    returns (agreements: nat, disagreements: seq<Family>, reasons: seq<Reason>)
    ensures agreements > 0 <==> StrongAgreement(left, right)
    ensures forall f: Family :: f in disagreements <==> Disagrees(left, right, f)
    ensures forall x :: x in reasons ==> x.kind == Agreement
  {
    agreements, disagreements, reasons := 0, [], [];
    for i := 0 to |STRONG_GROUPS|
      invariant agreements > 0 <==> exists j :: 0 <= j < i && Agrees(left, right, STRONG_GROUPS[j])
      invariant forall f: Family :: f in disagreements <==>
                exists j :: 0 <= j < i && f == STRONG_GROUPS[j] && Disagrees(left, right, f)
      invariant forall x :: x in reasons ==> x.kind == Agreement
    {
      var family := STRONG_GROUPS[i];
      var leftValues, rightValues := Tokens(left, KindsOf(family)), Tokens(right, KindsOf(family));
      if leftValues != {} && rightValues != {} {
        if leftValues * rightValues != {} {
          agreements := agreements + 1;
          reasons := reasons + [Reason(Agreement, Some(FieldOf(family)))];
        } else {
          disagreements := disagreements + [family];
        }
      }
    }
    assert STRONG_GROUPS[0] == SerialNumber && STRONG_GROUPS[1] == HardwareMac;
  }

  /** The second loop: supporting kinds and weak hints that agree. */
  method ScanSoft(left: Entity, right: Entity, strong: seq<Reason>)
    returns (supporting: nat, weak: nat, reasons: seq<Reason>)
    requires forall x :: x in strong ==> x.kind == Agreement
    ensures supporting > 0 <==> SupportingAgreement(left, right)
    ensures weak > 0 <==> Shares(left, right, {Name}) || Shares(left, right, {Model})
    ensures Reason(Hint, Some(Name)) in reasons <==> Shares(left, right, {Name})
    ensures forall x :: x in reasons ==> x.kind != Conflict
  {
    supporting, weak, reasons := 0, 0, strong;
    for i := 0 to |SOFT_KINDS|
      invariant supporting > 0 <==>
                exists j :: 0 <= j < i && IsSupporting(SOFT_KINDS[j]) && Shares(left, right, {SOFT_KINDS[j]})
      invariant weak > 0 <==>
                exists j :: 0 <= j < i && !IsSupporting(SOFT_KINDS[j]) && Shares(left, right, {SOFT_KINDS[j]})
      invariant Reason(Hint, Some(Name)) in reasons <==> i > 3 && Shares(left, right, {Name})
      invariant forall x :: x in reasons ==> x.kind != Conflict
    {
      var kind := SOFT_KINDS[i];
      if Tokens(left, {kind}) * Tokens(right, {kind}) != {} {
        if IsSupporting(kind) {
          supporting := supporting + 1;
          reasons := reasons + [Reason(Support, Some(kind))];
        } else {
          weak := weak + 1;
          reasons := reasons + [Reason(Hint, Some(kind))];
        }
      }
    }
    assert SOFT_KINDS[0] == DirectAdjacency && SOFT_KINDS[1] == ManagementAddress && SOFT_KINDS[2] == Model
           && SOFT_KINDS[3] == Name && SOFT_KINDS[4] == ReciprocalAdjacency;
  }

  method RecordConflicts(left: Entity, right: Entity, disagreements: seq<Family>, soft: seq<Reason>)
    returns (conflicts: seq<IdentityConflict>, reasons: seq<Reason>)
    ensures forall c :: c in conflicts <==>
              exists f: Family :: f in disagreements && c == IdentityConflict(left.id, right.id, FieldOf(f))
    ensures forall x :: x in reasons <==>
              x in soft || exists f: Family :: f in disagreements && x == Reason(Conflict, Some(FieldOf(f)))
  {
    conflicts, reasons := [], soft;
    for i := 0 to |disagreements|
      invariant forall c :: c in conflicts <==>
                  exists f: Family :: f in disagreements[..i] && c == IdentityConflict(left.id, right.id, FieldOf(f))
      invariant forall x :: x in reasons <==>
                  x in soft || exists f: Family :: f in disagreements[..i] && x == Reason(Conflict, Some(FieldOf(f)))
    {
      var conflict := IdentityConflict(left.id, right.id, FieldOf(disagreements[i]));
      conflicts := conflicts + [conflict];
      reasons := reasons + [Reason(Conflict, Some(conflict.field))];
    }
  }

  method ResolvePair(left: Entity, right: Entity) returns (link: Link, conflicts: seq<IdentityConflict>)
    ensures link.id == PairId(left.id, right.id) && link.left == left.id && link.right == right.id && link.automatic
    ensures link.state == PairState(left, right)
    ensures forall c :: c in conflicts <==>
                          link.state == Conflicted && exists f: Family ::
                            Disagrees(left, right, f) && c == IdentityConflict(left.id, right.id, FieldOf(f))
    ensures link.state == Conflicted <==> exists x :: x in link.reasons && x.kind == Conflict
  {
    var id := PairId(left.id, right.id);
    if left.provider == right.provider {
      return Link(id, left.id, right.id, Rejected, true, []), [];
    }
    var strongAgreements, disagreements, strong := ScanStrong(left, right);
    var supporting, weak, reasons := ScanSoft(left, right, strong);
    var nameAgreement := Reason(Hint, Some(Name)) in reasons;
    if disagreements != [] && (strongAgreements > 0 || supporting > 0 || nameAgreement) {
      assert disagreements[0] in disagreements;
      conflicts, reasons := RecordConflicts(left, right, disagreements, reasons);
      assert Reason(Conflict, Some(FieldOf(disagreements[0]))) in reasons;
      return Link(id, left.id, right.id, Conflicted, true, reasons), conflicts;
    }
    var state := if strongAgreements > 0 then Confirmed else if supporting > 0 || weak > 0 then Candidate else Rejected;
    assert StrongDisagreement(left, right) ==> exists f: Family :: f in disagreements;
    return Link(id, left.id, right.id, state, true, reasons), [];
  }

  /** Neither provider takes precedence. */
  lemma PairStateSymmetric(l: Entity, r: Entity)
    ensures PairState(l, r) == PairState(r, l)
  {
    forall kinds: set<Kind> ensures Shares(l, r, kinds) == Shares(r, l, kinds) {
      assert Tokens(l, kinds) * Tokens(r, kinds) == Tokens(r, kinds) * Tokens(l, kinds);
    }
    assert forall f: Family :: Agrees(l, r, f) == Agrees(r, l, f) && Disagrees(l, r, f) == Disagrees(r, l, f);
  }

  /** A strong disagreement never confirms by itself, but it is a conflict only for a plausible pair: when
      nothing but the model agrees the pair stays open to the operator. */
  lemma DisagreementOutcome(l: Entity, r: Entity)
    requires l.provider != r.provider && StrongDisagreement(l, r)
    ensures PairState(l, r) != Confirmed
    ensures PairState(l, r) == Candidate <==> !Plausible(l, r) && Shares(l, r, {Model})
    ensures PairState(l, r) == Conflicted <==> Plausible(l, r)
  {
  }

  /** A value counts when it was reported under that kind; a hardware address only if it is globally administered. */
  lemma TokensMean(e: Entity, kinds: set<Kind>, t: Token)
    ensures t in Tokens(e, kinds) <==>
            exists i :: i in e.identifiers && i.kind in kinds && i.token == t &&
              (i.kind == ChassisMac || i.kind == DeviceMac ==> i.globallyAdministered)
  {
  }

  /** What each outcome takes, in terms of the values that the two entities report. */
  lemma OutcomesMean(l: Entity, r: Entity)
    requires l.provider != r.provider
    ensures var serials := (Tokens(l, {Serial}), Tokens(r, {Serial}));
            var macs := (Tokens(l, {ChassisMac, DeviceMac}), Tokens(r, {ChassisMac, DeviceMac}));
            var agree := serials.0 * serials.1 != {} || macs.0 * macs.1 != {};
            var disagree := (serials.0 != {} && serials.1 != {} && serials.0 * serials.1 == {}) ||
                (macs.0 != {} && macs.1 != {} && macs.0 * macs.1 == {});
            var corroborated := Shares(l, r, {Name}) || Shares(l, r, {ManagementAddress}) ||
                Shares(l, r, {DirectAdjacency}) || Shares(l, r, {ReciprocalAdjacency});
            && (PairState(l, r) == Confirmed <==> agree && !disagree)
            && (PairState(l, r) == Conflicted <==> disagree && (agree || corroborated))
            && (PairState(l, r) == Candidate <==>
                !agree && ((!disagree && corroborated) || (!corroborated && Shares(l, r, {Model}))))
  {
    assert Agrees(l, r, SerialNumber) <==> Tokens(l, {Serial}) * Tokens(r, {Serial}) != {};
    assert Agrees(l, r, HardwareMac) <==> Tokens(l, {ChassisMac, DeviceMac}) * Tokens(r, {ChassisMac, DeviceMac}) != {};
    assert StrongAgreement(l, r) <==> Agrees(l, r, SerialNumber) || Agrees(l, r, HardwareMac);
    assert StrongDisagreement(l, r) <==> Disagrees(l, r, SerialNumber) || Disagrees(l, r, HardwareMac);
    assert SupportingAgreement(l, r) <==>
      Shares(l, r, {ManagementAddress}) || Shares(l, r, {DirectAdjacency}) || Shares(l, r, {ReciprocalAdjacency});
  }

  // ----- every pair at once -----

  type Strong = (Family, Token)

  function StrongTokens(e: Entity): (tokens: set<Strong>)
    ensures forall f: Family, t: Token :: (f, t) in tokens <==> t in Tokens(e, KindsOf(f))
  {
    (set t | t in Tokens(e, KindsOf(SerialNumber)) :: (SerialNumber, t)) +
    (set t | t in Tokens(e, KindsOf(HardwareMac)) :: (HardwareMac, t))
  }

  /** No other entity of the same provider reports the token. */
  ghost predicate OnlyHolder(entities: seq<Entity>, e: Entity, token: Strong) {
    && token in StrongTokens(e)
    && forall x :: x in entities && x.provider == e.provider && token in StrongTokens(x) ==> x == e
  }

  ghost predicate Proves(entities: seq<Entity>, l: Entity, r: Entity, token: Strong) {
    OnlyHolder(entities, l, token) && OnlyHolder(entities, r, token)
  }

  /** A confirmation stands only on a token that is unique within each provider. */
  ghost function FinalState(entities: seq<Entity>, l: Entity, r: Entity): LinkState {
    if PairState(l, r) == Confirmed && !(exists token :: Proves(entities, l, r, token)) then Candidate
    else PairState(l, r)
  }

  ghost predicate DistinctIds(entities: seq<Entity>) {
    forall i, j :: 0 <= i < j < |entities| ==> entities[i].id != entities[j].id
  }

  function Holders(entities: seq<Entity>, provider: nat, token: Strong): nat {
    if entities == [] then 0
    else Holders(entities[..|entities| - 1], provider, token) +
         (if entities[|entities| - 1].provider == provider && token in StrongTokens(entities[|entities| - 1]) then 1
           else 0)
  }

  lemma {:induction false} HoldersZero(entities: seq<Entity>, provider: nat, token: Strong)
    ensures Holders(entities, provider, token) == 0 <==>
            forall x :: x in entities && x.provider == provider ==> token !in StrongTokens(x)
  {
    if entities != [] {
      var init, last := entities[..|entities| - 1], entities[|entities| - 1];
      HoldersZero(init, provider, token);
      assert entities == init + [last];
    }
  }

  /** Counting one holder and being the only holder are the same. */
  lemma {:induction false} HoldersOne(entities: seq<Entity>, e: Entity, token: Strong)
    requires DistinctIds(entities) && e in entities && token in StrongTokens(e)
    ensures Holders(entities, e.provider, token) == 1 <==> OnlyHolder(entities, e, token)
  {
    var init, last := entities[..|entities| - 1], entities[|entities| - 1];
    assert entities == init + [last];
    HoldersZero(init, e.provider, token);
    if last == e {
      assert forall x :: x in init ==> x != e;
    } else {
      HoldersOne(init, e, token);
    }
  }

  type Counts = map<(nat, Strong), nat>

  function CountOf(counts: Counts, key: (nat, Strong)): nat {
    if key in counts then counts[key] else 0
  }

  method CountStrong(entities: seq<Entity>) returns (counts: Counts)
    ensures forall p: nat, t: Strong :: CountOf(counts, (p, t)) == Holders(entities, p, t)
  {
    counts := map[];
    for i := 0 to |entities|
      invariant forall p: nat, t: Strong :: CountOf(counts, (p, t)) == Holders(entities[..i], p, t)
    {
      var entity := entities[i];
      assert entities[..i + 1][..i] == entities[..i];
      var pending := StrongTokens(entity);
      ghost var before, done := counts, {};
      while pending != {}
        invariant pending + done == StrongTokens(entity) && pending !! done
        invariant forall p: nat, t: Strong :: CountOf(counts, (p, t)) ==
                                              CountOf(before, (p, t)) +
                                                (if p == entity.provider && t in done then 1 else 0)
      {
        var token :| token in pending;
        pending, done := pending - {token}, done + {token};
        var key := (entity.provider, token);
        counts := counts[key := CountOf(counts, key) + 1];
      }
    }
    assert entities[..|entities|] == entities;
  }

  /** Provider first, then id. */
  predicate Before(l: Entity, r: Entity) {
    l.provider < r.provider || (l.provider == r.provider && l.id <= r.id)
  }

  function Insert(e: Entity, sorted: seq<Entity>): (r: seq<Entity>)
    ensures multiset(r) == multiset(sorted) + multiset{e}
  {
    if sorted == [] || Before(e, sorted[0]) then [e] + sorted
    else
      assert sorted == [sorted[0]] + sorted[1..];
      [sorted[0]] + Insert(e, sorted[1..])
  }

  function Ordered(entities: seq<Entity>): (r: seq<Entity>)
    ensures multiset(r) == multiset(entities)
  {
    if entities == [] then []
    else
      assert entities == [entities[0]] + entities[1..];
      Insert(entities[0], Ordered(entities[1..]))
  }

  ghost predicate InOrder(entities: seq<Entity>) {
    forall i, j :: 0 <= i < j < |entities| ==> Before(entities[i], entities[j])
  }

  lemma {:induction false} InsertInOrder(e: Entity, sorted: seq<Entity>)
    requires InOrder(sorted)
    ensures InOrder(Insert(e, sorted))
  {
    if sorted != [] && !Before(e, sorted[0]) {
      InsertInOrder(e, sorted[1..]);
      var tail := Insert(e, sorted[1..]);
      forall x | x in tail ensures Before(sorted[0], x) {
        assert x in multiset(tail);
        assert x in sorted[1..] || x == e;
      }
    }
  }

  lemma {:induction false} OrderedInOrder(entities: seq<Entity>)
    ensures InOrder(Ordered(entities))
  {
    if entities != [] {
      OrderedInOrder(entities[1..]);
      InsertInOrder(entities[0], Ordered(entities[1..]));
    }
  }

  lemma TwiceInSeq(s: seq<Entity>, i: nat, j: nat)
    requires i < j < |s| && s[i] == s[j]
    ensures multiset(s)[s[i]] >= 2
  {
    assert s == s[..j] + s[j..];
    assert s[..j][i] in multiset(s[..j]);
    assert s[j..][0] in multiset(s[j..]);
  }

  lemma {:induction false} OnceInSeq(s: seq<Entity>, x: Entity)
    requires DistinctIds(s)
    ensures multiset(s)[x] <= 1
  {
    if s != [] {
      OnceInSeq(s[1..], x);
      assert s == [s[0]] + s[1..];
      if s[0] == x {
        assert x !in s[1..];
        assert x !in multiset(s[1..]);
      }
    }
  }

  lemma OrderedSame(entities: seq<Entity>)
    ensures forall x :: x in Ordered(entities) <==> x in entities
    ensures DistinctIds(entities) ==> DistinctIds(Ordered(entities))
  {
    var ordered := Ordered(entities);
    forall x ensures x in ordered <==> x in entities {
      assert x in multiset(ordered) <==> x in multiset(entities);
    }
    if DistinctIds(entities) {
      forall i, j | 0 <= i < j < |ordered| ensures ordered[i].id != ordered[j].id {
        if ordered[i].id == ordered[j].id {
          assert ordered[i] in entities && ordered[j] in entities;
          TwiceInSeq(ordered, i, j);
          OnceInSeq(entities, ordered[i]);
        }
      }
    }
  }

  /** `link` is the outcome for the pair, the side with the smaller provider on the left. */
  ghost predicate IsLink(entities: seq<Entity>, l: Entity, r: Entity, link: Link) {
    && l in entities && r in entities && l.provider < r.provider
    && link.id == PairId(l.id, r.id) && link.left == l.id && link.right == r.id && link.automatic
    && link.state == FinalState(entities, l, r) && link.state != Rejected
  }

  ghost predicate Sound(entities: seq<Entity>, links: seq<Link>) {
    forall link :: link in links ==> exists l, r :: IsLink(entities, l, r, link)
  }

  ghost predicate Covers(entities: seq<Entity>, links: seq<Link>, l: Entity, r: Entity) {
    l.provider < r.provider && FinalState(entities, l, r) != Rejected ==>
      exists link :: link in links && IsLink(entities, l, r, link)
  }

  function ConflictPairs(conflicts: seq<IdentityConflict>): set<(Id, Id)> {
    set c | c in conflicts :: (c.left, c.right)
  }

  function ConflictedPairs(links: seq<Link>): set<(Id, Id)> {
    set k | k in links && k.state == Conflicted :: (k.left, k.right)
  }

  lemma PairsAppend(links: seq<Link>, link: Link, conflicts: seq<IdentityConflict>, more: seq<IdentityConflict>)
    ensures ConflictedPairs(links + [link]) ==
            ConflictedPairs(links) + (if link.state == Conflicted then {(link.left, link.right)} else {})
    ensures ConflictPairs(conflicts + more) == ConflictPairs(conflicts) + ConflictPairs(more)
  {
    assert forall k :: k in links + [link] <==> k in links || k == link;
    assert forall c :: c in conflicts + more <==> c in conflicts || c in more;
  }

  lemma ConflictRecorded(l: Entity, r: Entity, link: Link, conflicts: seq<IdentityConflict>)
    requires link.left == l.id && link.right == r.id && link.state == PairState(l, r)
    requires forall c :: c in conflicts <==>
                           link.state == Conflicted && exists f: Family ::
                             Disagrees(l, r, f) && c == IdentityConflict(l.id, r.id, FieldOf(f))
    ensures ConflictPairs(conflicts) == if link.state == Conflicted then {(l.id, r.id)} else {}
  {
    if link.state == Conflicted {
      var f: Family :| Disagrees(l, r, f);
      assert IdentityConflict(l.id, r.id, FieldOf(f)) in conflicts;
    }
  }

  /** One step of the double loop: resolve the pair, then demote an ambiguous confirmation. */
  method LinkPair(ghost entities: seq<Entity>, counts: Counts, left: Entity, right: Entity)
    returns (link: Link, conflicts: seq<IdentityConflict>)
    requires DistinctIds(entities) && left in entities && right in entities
    requires forall p: nat, t: Strong :: CountOf(counts, (p, t)) == Holders(entities, p, t)
    ensures link.id == PairId(left.id, right.id) && link.left == left.id && link.right == right.id && link.automatic
    ensures link.state == FinalState(entities, left, right)
    ensures ConflictPairs(conflicts) == if link.state == Conflicted then {(left.id, right.id)} else {}
  {
    link, conflicts := ResolvePair(left, right);
    ConflictRecorded(left, right, link, conflicts);
    if link.state == Confirmed {
      var shared := StrongTokens(left) * StrongTokens(right);
      var unique := exists token :: token in shared && CountOf(counts, (left.provider, token)) == 1
                                                    && CountOf(counts, (right.provider, token)) == 1;
      forall token | token in shared
        ensures Proves(entities, left, right, token) <==>
                CountOf(counts, (left.provider, token)) == 1 && CountOf(counts, (right.provider, token)) == 1
      {
        HoldersOne(entities, left, token);
        HoldersOne(entities, right, token);
      }
      if !unique {
        var hardware := exists token :: token in shared && token.0 == HardwareMac;
        link := link.(state := Candidate, reasons := link.reasons +
          [Reason(Support, Some(if hardware then ChassisMac else Serial))]);
      } else {
        var token :| token in shared && CountOf(counts, (left.provider, token)) == 1 &&
          CountOf(counts, (right.provider, token)) == 1;
        assert Proves(entities, left, right, token);
      }
    }
  }

  ghost predicate CoversRow(entities: seq<Entity>, links: seq<Link>, ordered: seq<Entity>, a: nat, upTo: nat) {
    forall b :: a < b < upTo && b < |ordered| ==> Covers(entities, links, ordered[a], ordered[b])
  }

  ghost predicate CoversRows(entities: seq<Entity>, links: seq<Link>, ordered: seq<Entity>, upTo: nat) {
    forall a: nat :: a < upTo && a < |ordered| ==> CoversRow(entities, links, ordered, a, |ordered|)
  }

  lemma CoversMonotone(entities: seq<Entity>, links: seq<Link>, links': seq<Link>)
    requires links <= links'
    ensures forall l, r :: Covers(entities, links, l, r) ==> Covers(entities, links', l, r)
  {
    forall l, r | Covers(entities, links, l, r) ensures Covers(entities, links', l, r) {
      if l.provider < r.provider && FinalState(entities, l, r) != Rejected {
        var k :| k in links && IsLink(entities, l, r, k);
        assert k in links';
      }
    }
  }

  lemma RowMonotone(entities: seq<Entity>, links: seq<Link>, links': seq<Link>, ordered: seq<Entity>, a: nat)
    requires a < |ordered| && CoversRow(entities, links, ordered, a, |ordered|) && links <= links'
    ensures CoversRow(entities, links', ordered, a, |ordered|)
  {
    CoversMonotone(entities, links, links');
  }

  lemma RowsMonotone(entities: seq<Entity>, links: seq<Link>, links': seq<Link>, ordered: seq<Entity>, i: nat)
    requires CoversRows(entities, links, ordered, i) && links <= links' && i < |ordered|
    requires CoversRow(entities, links', ordered, i, |ordered|)
    ensures CoversRows(entities, links', ordered, i + 1)
  {
    forall a: nat | a < i + 1 ensures CoversRow(entities, links', ordered, a, |ordered|) {
      if a < i {
        RowMonotone(entities, links, links', ordered, a);
      }
    }
  }

  lemma RowExtends(entities: seq<Entity>, links: seq<Link>, links': seq<Link>, ordered: seq<Entity>, i: nat, j: nat)
    requires CoversRow(entities, links, ordered, i, j) && links <= links' && i < j < |ordered|
    requires Covers(entities, links', ordered[i], ordered[j])
    ensures CoversRow(entities, links', ordered, i, j + 1)
  {
    CoversMonotone(entities, links, links');
  }

  /** Outcomes depend only on which entities there are, not on their order. */
  lemma SameFinal(entities: seq<Entity>, others: seq<Entity>, l: Entity, r: Entity)
    requires forall x :: x in entities <==> x in others
    ensures FinalState(entities, l, r) == FinalState(others, l, r)
  {
    assert forall token :: Proves(entities, l, r, token) <==> Proves(others, l, r, token);
  }

  /** The inner loop: one entity against every later one. */
  method LinkRow(ghost entities: seq<Entity>, ordered: seq<Entity>, counts: Counts, i: nat,
                 links: seq<Link>, conflicts: seq<IdentityConflict>)
    returns (links': seq<Link>, conflicts': seq<IdentityConflict>)
    requires i < |ordered| && DistinctIds(ordered) && InOrder(ordered)
    requires forall x :: x in ordered <==> x in entities
    requires forall p: nat, t: Strong :: CountOf(counts, (p, t)) == Holders(ordered, p, t)
    requires Sound(entities, links) && ConflictPairs(conflicts) == ConflictedPairs(links)
    ensures Sound(entities, links') && links <= links' && ConflictPairs(conflicts') == ConflictedPairs(links')
    ensures CoversRow(entities, links', ordered, i, |ordered|)
  {
    links', conflicts' := links, conflicts;
    for j := i + 1 to |ordered|
      invariant Sound(entities, links') && links <= links' && ConflictPairs(conflicts') == ConflictedPairs(links')
      invariant CoversRow(entities, links', ordered, i, j)
    {
      var left, right := ordered[i], ordered[j];
      ghost var before := links';
      assert Before(left, right) && left in entities && right in entities;
      if left.provider != right.provider {
        var link, more := LinkPair(ordered, counts, left, right);
        SameFinal(entities, ordered, left, right);
        PairsAppend(links', link, conflicts', more);
        if link.state != Rejected {
          assert IsLink(entities, left, right, link);
          links' := links' + [link];
          assert link in links';
        }
        conflicts' := conflicts' + more;
      }
      RowExtends(entities, before, links', ordered, i, j);
    }
  }

  lemma PairVisited(entities: seq<Entity>, links: seq<Link>, ordered: seq<Entity>, l: Entity, r: Entity)
    requires InOrder(ordered) && l in ordered && r in ordered
    requires CoversRows(entities, links, ordered, |ordered|)
    ensures Covers(entities, links, l, r)
  {
    if l.provider < r.provider {
      var a :| 0 <= a < |ordered| && ordered[a] == l;
      var b :| 0 <= b < |ordered| && ordered[b] == r;
      assert b < a ==> Before(ordered[b], ordered[a]);
      assert CoversRow(entities, links, ordered, a, |ordered|);
    }
  }

  /** All cross-provider links: exactly the pairs whose outcome is not `rejected`. */
  method ResolveAll(entities: seq<Entity>) returns (links: seq<Link>, conflicts: seq<IdentityConflict>)
    requires DistinctIds(entities)
    ensures Sound(entities, links)
    ensures forall l, r :: l in entities && r in entities ==> Covers(entities, links, l, r)
    ensures ConflictPairs(conflicts) == ConflictedPairs(links)
  {
    var ordered := Ordered(entities);
    OrderedSame(entities);
    OrderedInOrder(entities);
    var counts := CountStrong(ordered);
    links, conflicts := [], [];
    for i := 0 to |ordered|
      invariant Sound(entities, links)
      invariant CoversRows(entities, links, ordered, i) && ConflictPairs(conflicts) == ConflictedPairs(links)
    {
      var links', conflicts' := LinkRow(entities, ordered, counts, i, links, conflicts);
      RowsMonotone(entities, links, links', ordered, i);
      links, conflicts := links', conflicts';
    }
    forall l, r | l in entities && r in entities ensures Covers(entities, links, l, r) {
      PairVisited(entities, links, ordered, l, r);
    }
  }

  // ----- what the outcomes promise -----

  /** An automatic confirmation contradicts no strong identifier, and rests on a token no other entity of
      either provider reports. */
  lemma ConfirmedIsSafe(entities: seq<Entity>, l: Entity, r: Entity)
    requires FinalState(entities, l, r) == Confirmed
    ensures !StrongDisagreement(l, r)
    ensures exists token :: Proves(entities, l, r, token)
  {
    assert StrongAgreement(l, r) ==> Plausible(l, r);
  }

  /** So no token confirms two pairs between the same two providers. */
  lemma TokenProvesOnePair(entities: seq<Entity>, token: Strong, l: Entity, r: Entity, l': Entity, r': Entity)
    requires l in entities && r in entities && l' in entities && r' in entities
    requires l.provider == l'.provider && r.provider == r'.provider
    requires Proves(entities, l, r, token) && Proves(entities, l', r', token)
    ensures l == l' && r == r'
  {
  }

  lemma FinalStateSymmetric(entities: seq<Entity>, l: Entity, r: Entity)
    ensures FinalState(entities, l, r) == FinalState(entities, r, l)
  {
    PairStateSymmetric(l, r);
    assert forall token :: Proves(entities, l, r, token) <==> Proves(entities, r, l, token);
  }

  // ----- operator decisions -----

  datatype Decision = Confirm | Reject | Clear

  /** A stored decision settles an open link; a conflicted one is never touched. */
  function Decided(link: Link, decisions: map<LinkId, Decision>): Link {
    if link.id !in decisions || link.state == Conflicted || decisions[link.id] == Clear then link
    else link.(state := if decisions[link.id] == Confirm then Confirmed else Rejected, automatic := false,
               reasons := link.reasons + [Reason(Operator, None)])
  }

  method ApplyDecisions(links: seq<Link>, decisions: map<LinkId, Decision>) returns (decided: seq<Link>)
    ensures |decided| == |links|
    ensures forall i :: 0 <= i < |links| ==> decided[i] == Decided(links[i], decisions)
  {
    decided := links;
    for k := 0 to |links|
      invariant |decided| == |links|
      invariant forall i :: 0 <= i < |links| ==> decided[i] == if i < k then Decided(links[i], decisions) else links[i]
    {
      var link := decided[k];
      if link.id in decisions {
        var decision := decisions[link.id];
        if link.state != Conflicted {
          match decision {
            case Confirm => link := link.(state := Confirmed);
            case Reject => link := link.(state := Rejected);
            case Clear =>
          }
          if decision != Clear {
            link := link.(automatic := false, reasons := link.reasons + [Reason(Operator, None)]);
            decided := decided[k := link];
          }
        }
      }
    }
  }

  /** No decision changes a conflicted link, and none turns a link into an automatic confirmation. */
  lemma DecisionsNeverWaiveConflicts(entities: seq<Entity>, l: Entity, r: Entity, link: Link,
                                    decisions: map<LinkId, Decision>)
    requires IsLink(entities, l, r, link)
    ensures link.state == Conflicted ==> Decided(link, decisions) == link
    ensures Decided(link, decisions).state == Confirmed && Decided(link, decisions).automatic ==>
              !StrongDisagreement(l, r) && exists token :: Proves(entities, l, r, token)
  {
    if Decided(link, decisions).state == Confirmed && Decided(link, decisions).automatic {
      ConfirmedIsSafe(entities, l, r);
    }
  }

  /** Yet an operator can confirm a pair whose strong identifiers disagree, exactly when the two share a
      model and nothing else made the pair plausible: such a pair was never recorded as a conflict. */
  lemma ConfirmedDespiteDisagreement(entities: seq<Entity>, l: Entity, r: Entity, link: Link,
                                    decisions: map<LinkId, Decision>)
    requires IsLink(entities, l, r, link) && StrongDisagreement(l, r)
    ensures Decided(link, decisions).state == Confirmed <==>
              !Plausible(l, r) && Shares(l, r, {Model}) && link.id in decisions && decisions[link.id] == Confirm
  {
    DisagreementOutcome(l, r);
  }

  const LEFT: Entity := Entity(1, 0, [Identifier(Serial, 1, false), Identifier(Model, 7, false)])
  const RIGHT: Entity := Entity(2, 1, [Identifier(Serial, 2, false), Identifier(Model, 7, false)])

  lemma TokensOfPair(e: Entity, serial: Token)
    requires e.identifiers == [Identifier(Serial, serial, false), Identifier(Model, 7, false)]
    ensures Tokens(e, {Serial}) == {serial} && Tokens(e, {Model}) == {7}
    ensures Tokens(e, {ChassisMac, DeviceMac}) == {} && Tokens(e, {Name}) == {}
    ensures forall k: Kind :: IsSupporting(k) ==> Tokens(e, {k}) == {}
  {
    var ids := e.identifiers;
    assert ids[0] in ids && ids[1] in ids;
  }

  /** Such a pair: two serial numbers, one model. A stored confirmation confirms it. */
  lemma ModelAloneIsOpen(link: Link, decisions: map<LinkId, Decision>)
    requires IsLink([LEFT, RIGHT], LEFT, RIGHT, link) && link.id in decisions && decisions[link.id] == Confirm
    ensures StrongDisagreement(LEFT, RIGHT) && link.state == Candidate && Decided(link, decisions).state == Confirmed
  {
    TokensOfPair(LEFT, 1);
    TokensOfPair(RIGHT, 2);
    assert Disagrees(LEFT, RIGHT, SerialNumber);
    assert 7 in Tokens(LEFT, {Model}) * Tokens(RIGHT, {Model});
    DisagreementOutcome(LEFT, RIGHT);
  }
}
