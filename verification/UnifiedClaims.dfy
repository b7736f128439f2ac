/** What merged records say: attributes and relationships without provider precedence
    (`backend/app/unified_reconciliation.py`). */
module UnifiedClaims {
  import opened Common
  import opened Walks

  type Provider = nat

  /** `attachment` and `relationship` name relationships, every other field an attribute only. */
  datatype Field = Attachment | Relationship | OtherField(code: nat)

  /** A claimed value; a number carries its printed form. */
  datatype Value = Text(text: string) | Flag(on: bool) | Number(printed: string)

  datatype Claim = Claim(id: Id, provider: Provider, subject: Id, field: Field, value: Option<Value>,
                         target: Option<Id>, stale: bool)

  /** `str(value)`, which tells a text from a flag or a number no longer. */
  function Str(v: Value): string {
    match v
    case Text(text) => text
    case Flag(on) => if on then "True" else "False"
    case Number(printed) => printed
  }

  function TextOf(c: Claim): string {
    if c.value.Some? then Str(c.value.value) else "None"
  }

  // ----- attributes -----

  datatype State = Unknown | Stale | Ambiguous | ProviderOnly | Agreed | Conflict

  datatype Resolution = Resolution(state: State, value: Option<Value>, reported: map<Provider, set<string>>,
                                   claims: seq<Id>)

  predicate IsRelevant(c: Claim, field: Field, members: set<Id>) {
    c.subject in members && c.field == field && c.value.Some?
  }

  function Relevant(claims: seq<Claim>, field: Field, members: set<Id>): (rel: seq<Claim>)
    ensures forall c :: c in rel <==> c in claims && IsRelevant(c, field, members)
  {
    if claims == [] then []
    else
      var last := claims[|claims| - 1];
      Relevant(claims[..|claims| - 1], field, members) + (if IsRelevant(last, field, members) then [last] else [])
  }

  ghost predicate AllStale(rel: seq<Claim>) {
    forall c :: c in rel ==> c.stale
  }

  predicate SameText(a: Claim, b: Claim) {
    TextOf(a) == TextOf(b)
  }

  predicate SameProvider(a: Claim, b: Claim) {
    a.provider == b.provider
  }

  ghost predicate OneText(rel: seq<Claim>) {
    forall a, b {:trigger SameText(a, b)} :: a in rel && b in rel ==> SameText(a, b)
  }

  ghost predicate OneProvider(rel: seq<Claim>) {
    forall a, b {:trigger SameProvider(a, b)} :: a in rel && b in rel ==> SameProvider(a, b)
  }

  ghost predicate EachProviderAtOne(rel: seq<Claim>) {
    forall a, b {:trigger SameText(a, b)} :: a in rel && b in rel && SameProvider(a, b) ==> SameText(a, b)
  }

  /** The claims that count for an attribute of a merged record. */
  lemma RelevantMeans(claims: seq<Claim>, field: Field, members: set<Id>, c: Claim)
    ensures c in Relevant(claims, field, members) <==>
            c in claims && c.field == field && c.subject in members && c.value.Some?
  {
  }

  /** How the claims stand to each other, whoever made them and in whatever order. */
  ghost function Reading(rel: seq<Claim>): State {
    if rel == [] then Unknown
    else if AllStale(rel) then Stale
    else if !EachProviderAtOne(rel) then Ambiguous
    else if OneProvider(rel) then ProviderOnly
    else if OneText(rel) then Agreed
    else Conflict
  }

  predicate Settled(s: State) {
    s == ProviderOnly || s == Agreed
  }

  /** A settled attribute takes the value claimed last. */
  ghost function ResolvedValue(rel: seq<Claim>): Option<Value> {
    if rel != [] && Settled(Reading(rel)) then rel[|rel| - 1].value else None
  }

  function IdsOf(rel: seq<Claim>): (ids: seq<Id>)
    ensures |ids| == |rel| && forall i :: 0 <= i < |ids| ==> ids[i] == rel[i].id
  {
    seq(|rel|, i requires 0 <= i < |rel| => rel[i].id)
  }

  function ProvidersOf(rel: seq<Claim>): set<Provider> {
    set c | c in rel :: c.provider
  }

  function TextsOf(rel: seq<Claim>): set<string> {
    set c | c in rel :: TextOf(c)
  }

  function TextsFrom(rel: seq<Claim>, p: Provider): set<string> {
    set c | c in rel && c.provider == p :: TextOf(c)
  }

  lemma Single<T>(s: set<T>, x: T)
    requires x in s
    ensures |s| > 1 <==> exists y :: y in s && y != x
    ensures |s| == 1 <==> s == {x}
  {
    assert s == {x} + (s - {x});
    if s - {x} != {} {
      var y :| y in s - {x};
    }
  }

  lemma TextsNext(rel: seq<Claim>, c: Claim)
    ensures forall p :: TextsFrom(rel + [c], p) == TextsFrom(rel, p) + if p == c.provider then {TextOf(c)} else {}
    ensures ProvidersOf(rel + [c]) == ProvidersOf(rel) + {c.provider}
  {
    assert forall d :: d in rel + [c] <==> d in rel || d == c;
    assert forall x :: x in ProvidersOf(rel + [c]) <==> exists d :: d in rel + [c] && d.provider == x;
    forall p ensures TextsFrom(rel + [c], p) == TextsFrom(rel, p) + if p == c.provider then {TextOf(c)} else {} {
      assert forall x :: x in TextsFrom(rel + [c], p) <==>
        exists d :: d in rel + [c] && d.provider == p && TextOf(d) == x;
      assert forall x :: x in TextsFrom(rel, p) <==> exists d :: d in rel && d.provider == p && TextOf(d) == x;
    }
  }

  method Collect(rel: seq<Claim>) returns (reported: map<Provider, set<string>>, raw: map<string, Value>)
    requires rel != [] && forall c :: c in rel ==> c.value.Some?
    ensures reported.Keys == ProvidersOf(rel) && forall p :: p in reported ==> reported[p] == TextsFrom(rel, p)
    ensures TextOf(rel[|rel| - 1]) in raw && Some(raw[TextOf(rel[|rel| - 1])]) == rel[|rel| - 1].value
  {
    reported, raw := map[], map[];
    for i := 0 to |rel|
      invariant reported.Keys == ProvidersOf(rel[..i])
      invariant forall p :: p in reported ==> reported[p] == TextsFrom(rel[..i], p)
      invariant i > 0 ==> TextOf(rel[i - 1]) in raw && Some(raw[TextOf(rel[i - 1])]) == rel[i - 1].value
    {
      var c := rel[i];
      PrefixNext(rel, i);
      TextsNext(rel[..i], c);
      var known := if c.provider in reported then reported[c.provider] else {};
      reported := reported[c.provider := known + {TextOf(c)}];
      raw := raw[TextOf(c) := c.value.value];
    }
    assert rel[..|rel|] == rel;
  }

  /** Counting providers and texts tells one from several. */
  lemma CountsDecide(rel: seq<Claim>)
    requires rel != []
    ensures |ProvidersOf(rel)| == 1 <==> OneProvider(rel)
    ensures |TextsOf(rel)| == 1 <==> OneText(rel)
  {
    var first := rel[0];
    Single(ProvidersOf(rel), first.provider);
    Single(TextsOf(rel), TextOf(first));
    assert forall c :: c in rel ==> c.provider in ProvidersOf(rel) && TextOf(c) in TextsOf(rel);
    if OneProvider(rel) {
      forall c | c in rel ensures c.provider == first.provider {
        assert SameProvider(c, first);
      }
    }
    if OneText(rel) {
      forall c | c in rel ensures TextOf(c) == TextOf(first) {
        assert SameText(c, first);
      }
    }
  }

  /** Counting texts per provider finds exactly the providers that contradict themselves. */
  lemma Varied(rel: seq<Claim>, reported: map<Provider, set<string>>)
    requires reported.Keys == ProvidersOf(rel) && forall p :: p in reported ==> reported[p] == TextsFrom(rel, p)
    ensures (exists p :: p in reported && |reported[p]| > 1) <==> !EachProviderAtOne(rel)
  {
    if !EachProviderAtOne(rel) {
      var a, b :| a in rel && b in rel && SameProvider(a, b) && !SameText(a, b);
      assert a.provider in reported && TextOf(a) in reported[a.provider] && TextOf(b) in reported[a.provider];
      Single(reported[a.provider], TextOf(a));
    }
    forall p | p in reported && |reported[p]| > 1 ensures !EachProviderAtOne(rel) {
      var c :| c in rel && c.provider == p;
      assert TextOf(c) in reported[p];
      Single(reported[p], TextOf(c));
      var y :| y in reported[p] && y != TextOf(c);
      var d :| d in rel && d.provider == p && TextOf(d) == y;
      assert SameProvider(c, d) && !SameText(c, d);
    }
  }

  /** Claims of which some are current. */
  method Weigh(rel: seq<Claim>) returns (r: Resolution)
    requires rel != [] && !AllStale(rel) && forall c :: c in rel ==> c.value.Some?
    ensures r.state == Reading(rel) && r.claims == IdsOf(rel) && r.reported.Keys == ProvidersOf(rel)
    ensures r.value == ResolvedValue(rel)
    ensures forall p :: p in r.reported ==> r.reported[p] == TextsFrom(rel, p)
  {
    var reported, raw := Collect(rel);
    var last := rel[|rel| - 1];
    var state := if exists p :: p in reported && |reported[p]| > 1 then Ambiguous
                 else if |reported.Keys| == 1 then ProviderOnly
                 else if |TextsOf(rel)| == 1 then Agreed
                 else Conflict;
    Varied(rel, reported);
    CountsDecide(rel);
    var value := if Settled(state) then Some(raw[TextOf(last)]) else None;
    r := Resolution(state, value, reported, IdsOf(rel));
  }

  /** `_resolve_attribute`. A settled value is the last claimed. */
  method ResolveAttribute(field: Field, members: set<Id>, claims: seq<Claim>) returns (r: Resolution)
    ensures var rel := Relevant(claims, field, members);
            && r.state == Reading(rel)
            && r.claims == IdsOf(rel)
            && r.value == ResolvedValue(rel)
            && r.reported.Keys == (if r.state.Unknown? || r.state.Stale? then {} else ProvidersOf(rel))
            && (forall p :: p in r.reported ==> r.reported[p] == TextsFrom(rel, p))
  {
    var rel := Relevant(claims, field, members);
    if rel == [] {
      return Resolution(Unknown, None, map[], []);
    }
    if forall c :: c in rel ==> c.stale {
      return Resolution(Stale, None, map[], IdsOf(rel));
    }
    r := Weigh(rel);
  }

  // ----- no precedence -----

  ghost predicate Renamed(rel: seq<Claim>, others: seq<Claim>, rename: Provider -> Provider) {
    && |rel| == |others|
    && (forall i :: 0 <= i < |rel| ==> others[i] == rel[i].(provider := rename(rel[i].provider)))
    && (forall p, q :: rename(p) == rename(q) ==> p == q)
  }

  /** The two lists agree on which claims say the same and which come from the same provider. */
  ghost predicate SamePairs(a: seq<Claim>, b: seq<Claim>) {
    && |a| == |b|
    && (forall i, j :: 0 <= i < |a| && 0 <= j < |a| ==> (SameText(a[i], a[j]) <==> SameText(b[i], b[j])))
    && (forall i, j :: 0 <= i < |a| && 0 <= j < |a| ==> (SameProvider(a[i], a[j]) <==> SameProvider(b[i], b[j])))
  }

  lemma PairsCarryOver(a: seq<Claim>, b: seq<Claim>)
    requires SamePairs(a, b)
    ensures EachProviderAtOne(a) ==> EachProviderAtOne(b)
    ensures OneProvider(a) ==> OneProvider(b)
    ensures OneText(a) ==> OneText(b)
  {
    forall c, d | c in b && d in b
      ensures EachProviderAtOne(a) && SameProvider(c, d) ==> SameText(c, d)
      ensures OneProvider(a) ==> SameProvider(c, d)
      ensures OneText(a) ==> SameText(c, d)
    {
      var i :| 0 <= i < |b| && b[i] == c;
      var j :| 0 <= j < |b| && b[j] == d;
      assert a[i] in a && a[j] in a;
    }
  }

  lemma PairsRenamed(rel: seq<Claim>, others: seq<Claim>, rename: Provider -> Provider)
    requires Renamed(rel, others, rename)
    ensures EachProviderAtOne(others) <==> EachProviderAtOne(rel)
    ensures OneProvider(others) <==> OneProvider(rel)
    ensures OneText(others) <==> OneText(rel)
  {
    PairsCarryOver(rel, others);
    PairsCarryOver(others, rel);
  }

  lemma SameReading(a: seq<Claim>, b: seq<Claim>)
    requires (a == [] <==> b == []) && (AllStale(a) <==> AllStale(b))
    requires EachProviderAtOne(a) <==> EachProviderAtOne(b)
    requires (OneProvider(a) <==> OneProvider(b)) && (OneText(a) <==> OneText(b))
    ensures Reading(a) == Reading(b)
  {
  }

  /** Who the providers are makes no difference: only which claims come from the same one. */
  lemma NoPrecedence(rel: seq<Claim>, others: seq<Claim>, rename: Provider -> Provider)
    requires Renamed(rel, others, rename)
    ensures Reading(others) == Reading(rel) && ResolvedValue(others) == ResolvedValue(rel)
  {
    assert AllStale(rel) <==> AllStale(others) by {
      forall i | 0 <= i < |rel| ensures rel[i] in rel && others[i] in others && rel[i].stale == others[i].stale { }
    }
    PairsRenamed(rel, others, rename);
    SameReading(others, rel);
  }

  ghost predicate OneValue(rel: seq<Claim>) {
    forall x, y :: x in rel && y in rel ==> x.value == y.value
  }

  /** The order of the claims makes no difference to the state, nor to the value when all of them carry the same
      value and not merely the same text. */
  lemma OrderIsImmaterial(a: seq<Claim>, b: seq<Claim>)
    requires forall c :: c in a <==> c in b
    ensures Reading(a) == Reading(b)
    ensures OneValue(a) ==> ResolvedValue(a) == ResolvedValue(b)
  {
    assert a != [] ==> a[0] in a && a[|a| - 1] in a;
    assert b != [] ==> b[0] in b && b[|b| - 1] in b;
  }

  lemma {:induction false} LastRelevant(claims: seq<Claim>, field: Field, members: set<Id>, j: nat)
    requires j < |claims| && IsRelevant(claims[j], field, members)
    requires forall k :: j < k < |claims| ==> !IsRelevant(claims[k], field, members)
    ensures var rel := Relevant(claims, field, members); rel != [] && rel[|rel| - 1] == claims[j]
  {
    if j < |claims| - 1 {
      LastRelevant(claims[..|claims| - 1], field, members, j);
    }
  }

  lemma LatestRelevant(claims: seq<Claim>, field: Field, members: set<Id>) returns (j: nat)
    requires Relevant(claims, field, members) != []
    ensures j < |claims| && IsRelevant(claims[j], field, members)
    ensures forall k :: j < k < |claims| ==> !IsRelevant(claims[k], field, members)
  {
    if IsRelevant(claims[|claims| - 1], field, members) {
      j := |claims| - 1;
    } else {
      j := LatestRelevant(claims[..|claims| - 1], field, members);
    }
  }

  lemma ExchangeKeeps<T>(s: seq<T>, i: nat, j: nat)
    requires i < j < |s|
    ensures multiset(s[i := s[j]][j := s[i]]) == multiset(s)
  {
  }

  lemma SameElements(a: seq<Claim>, b: seq<Claim>)
    requires multiset(a) == multiset(b)
    ensures forall c :: c in a <==> c in b
  {
    forall c ensures c in a <==> c in b {
      assert c in a <==> c in multiset(a);
      assert c in b <==> c in multiset(b);
    }
  }

  /** Exchanging a relevant claim of another value with the last relevant one changes the value. */
  lemma ExchangeDecides(claims: seq<Claim>, field: Field, members: set<Id>, i: nat, j: nat)
    requires i < j < |claims| && IsRelevant(claims[i], field, members) && IsRelevant(claims[j], field, members)
    requires forall k :: j < k < |claims| ==> !IsRelevant(claims[k], field, members)
    requires Settled(Reading(Relevant(claims, field, members))) && claims[i].value != claims[j].value
    ensures var other := claims[i := claims[j]][j := claims[i]];
            ResolvedValue(Relevant(other, field, members)) != ResolvedValue(Relevant(claims, field, members))
  {
    var other := claims[i := claims[j]][j := claims[i]];
    ExchangeKeeps(claims, i, j);
    SameElements(claims, other);
    LastRelevant(claims, field, members, j);
    LastRelevant(other, field, members, j);
    OrderIsImmaterial(Relevant(claims, field, members), Relevant(other, field, members));
  }

  lemma SomeExchangeDecides(claims: seq<Claim>, field: Field, members: set<Id>) returns (other: seq<Claim>)
    requires Settled(Reading(Relevant(claims, field, members))) && !OneValue(Relevant(claims, field, members))
    ensures multiset(other) == multiset(claims)
    ensures ResolvedValue(Relevant(other, field, members)) != ResolvedValue(Relevant(claims, field, members))
  {
    var rel := Relevant(claims, field, members);
    var j := LatestRelevant(claims, field, members);
    var x, y :| x in rel && y in rel && x.value != y.value;
    var c := if x.value != claims[j].value then x else y;
    var i :| 0 <= i < |claims| && claims[i] == c;
    ExchangeKeeps(claims, i, j);
    ExchangeDecides(claims, field, members, i, j);
    other := claims[i := claims[j]][j := claims[i]];
  }

  /** Every order of the claims resolves an attribute to the same value if and only if the attribute is not
      settled, or all its relevant claims carry the same value. */
  lemma OrderMattersExactly(claims: seq<Claim>, field: Field, members: set<Id>)
    ensures var rel := Relevant(claims, field, members);
            (forall other :: multiset(other) == multiset(claims) ==>
               ResolvedValue(Relevant(other, field, members)) == ResolvedValue(rel))
            <==> (Settled(Reading(rel)) ==> OneValue(rel))
  {
    var rel := Relevant(claims, field, members);
    if Settled(Reading(rel)) && !OneValue(rel) {
      var other := SomeExchangeDecides(claims, field, members);
    } else {
      forall other | multiset(other) == multiset(claims)
        ensures ResolvedValue(Relevant(other, field, members)) == ResolvedValue(rel)
      {
        SameElements(claims, other);
        OrderIsImmaterial(rel, Relevant(other, field, members));
      }
    }
  }

  /** And two claims can agree in text but not in value. */
  lemma SameTextOtherValue()
    ensures var a := Claim(1, 0, 0, Attachment, Some(Text("True")), None, false);
            var b := Claim(2, 1, 0, Attachment, Some(Flag(true)), None, false);
            Reading([a, b]) == Agreed && !OneValue([a, b])
  {
    var a := Claim(1, 0, 0, Attachment, Some(Text("True")), None, false);
    var b := Claim(2, 1, 0, Attachment, Some(Flag(true)), None, false);
    assert a in [a, b] && b in [a, b] && !SameProvider(a, b);
  }

  // ----- stale claims beside current ones -----

  function CurrentOf(rel: seq<Claim>): (current: seq<Claim>)
    ensures forall c :: c in current <==> c in rel && !c.stale
  {
    if rel == [] then []
    else
      var last := rel[|rel| - 1];
      CurrentOf(rel[..|rel| - 1]) + (if last.stale then [] else [last])
  }

  /** A settled reading holds of the current claims alone, except that agreement may rest on one provider's stale
      word; it is agreement between current claims exactly when two providers have one. */
  lemma SettledIsCurrent(rel: seq<Claim>)
    requires Settled(Reading(rel))
    ensures var current := CurrentOf(rel);
            Settled(Reading(current)) && OneText(current) && (Reading(current) == Agreed <==> !OneProvider(current))
  {
    var current := CurrentOf(rel);
    var c :| c in rel && !c.stale;
    assert c in current && current != [];
  }

  lemma CurrentDecides(rel: seq<Claim>)
    ensures CurrentOf(rel) == [] <==> AllStale(rel)
    ensures !AllStale(CurrentOf(rel)) || CurrentOf(rel) == []
  {
    if CurrentOf(rel) != [] {
      assert CurrentOf(rel)[0] in CurrentOf(rel);
    }
  }

  /** A stale claim that the same provider contradicts. */
  ghost predicate StaleContradicted(rel: seq<Claim>) {
    exists s, d :: s in rel && d in rel && s.stale && SameProvider(s, d) && !SameText(s, d)
  }

  /** Ambiguity need not be about current values: an attribute is called ambiguous, though its current claims
      alone are not, exactly when each provider has one current text and some provider once said something else. */
  lemma StaleMakesAmbiguousExactly(rel: seq<Claim>)
    ensures Reading(rel) == Ambiguous && Reading(CurrentOf(rel)) != Ambiguous <==>
            CurrentOf(rel) != [] && EachProviderAtOne(CurrentOf(rel)) && StaleContradicted(rel)
  {
    var current := CurrentOf(rel);
    CurrentDecides(rel);
    if !EachProviderAtOne(rel) {
      var a, b :| a in rel && b in rel && SameProvider(a, b) && !SameText(a, b);
      assert a in current <==> !a.stale;
      assert b in current <==> !b.stale;
      assert SameProvider(b, a) && !SameText(b, a);
    }
  }

  /** A stale claim that says something else than a current one. */
  ghost predicate StaleDiffers(rel: seq<Claim>) {
    exists s, d :: s in rel && d in rel && s.stale && !d.stale && !SameText(s, d)
  }

  lemma DiffersFromCurrent(rel: seq<Claim>)
    requires OneText(CurrentOf(rel)) && CurrentOf(rel) != []
    ensures OneText(rel) <==> !StaleDiffers(rel)
  {
    var current := CurrentOf(rel);
    var c := current[0];
    assert c in current;
    if !OneText(rel) {
      var a, b :| a in rel && b in rel && !SameText(a, b);
      var s := if SameText(a, c) then b else a;
      assert s in current <==> !s.stale;
      assert s in rel && !SameText(s, c);
    }
  }

  /** Nor need a conflict: providers are said to differ, though their current claims do not, exactly when no
      provider contradicts itself, the current claims share one text and some stale claim has another. */
  lemma StaleMakesConflictExactly(rel: seq<Claim>)
    ensures Reading(rel) == Conflict && Reading(CurrentOf(rel)) != Conflict <==>
            EachProviderAtOne(rel) && OneText(CurrentOf(rel)) && StaleDiffers(rel)
  {
    CurrentDecides(rel);
    if OneText(CurrentOf(rel)) && CurrentOf(rel) != [] {
      DiffersFromCurrent(rel);
    }
  }

  /** And any settled attribute can come to that, by one stale claim of a provider it has. */
  lemma OneStaleClaimSuffices(rel: seq<Claim>, c: Claim, stale: Claim)
    requires c in rel && Settled(Reading(rel)) && stale.stale && SameProvider(stale, c) && !SameText(stale, c)
    ensures Reading([stale] + rel) == Ambiguous
  {
    var more := [stale] + rel;
    assert forall d :: d in rel ==> d in more;
    assert stale in more;
  }

  /** One stale claim of a provider it does not have, of another text, makes it a conflict. */
  lemma OneStaleStrangerSuffices(rel: seq<Claim>, c: Claim, stale: Claim)
    requires c in rel && Settled(Reading(rel)) && stale.stale && !SameText(stale, c)
    requires forall d :: d in rel ==> !SameProvider(stale, d)
    ensures Reading([stale] + rel) == Conflict
  {
    var more := [stale] + rel;
    assert forall d :: d in more <==> d == stale || d in rel;
    assert stale in more;
  }

  // ----- relationships -----

  datatype Key = Key(subject: Id, peer: Id, relation: Field)

  datatype Link = Link(key: Key, state: State, claims: seq<Id>)

  predicate Contributes(c: Claim, unified: map<Id, Id>) {
    && !c.field.OtherField? && c.target.Some? && c.subject in unified && c.target.value in unified
    && unified[c.subject] != unified[c.target.value]
  }

  function KeyOf(c: Claim, unified: map<Id, Id>): Key
    requires Contributes(c, unified)
  {
    Key(unified[c.subject], unified[c.target.value], c.field)
  }

  function Matching(claims: seq<Claim>, unified: map<Id, Id>, key: Key): (items: seq<Claim>)
    ensures forall c :: c in items <==> c in claims && Contributes(c, unified) && KeyOf(c, unified) == key
  {
    if claims == [] then []
    else
      var last := claims[|claims| - 1];
      Matching(claims[..|claims| - 1], unified, key) +
      (if Contributes(last, unified) && KeyOf(last, unified) == key then [last] else [])
  }

  /** One provider counts as one voice here even when it contradicts itself. */
  ghost function LinkReading(items: seq<Claim>): State {
    if AllStale(items) then Stale
    else if OneProvider(items) then ProviderOnly
    else if OneText(items) then Agreed
    else Conflict
  }

  /** A relationship needs two providers to be agreed or in conflict, and a current claim not to be stale. */
  lemma LinkStatesMean(items: seq<Claim>)
    ensures LinkReading(items) == Stale <==> forall c :: c in items ==> c.stale
    ensures LinkReading(items) == Agreed || LinkReading(items) == Conflict <==>
            (exists c :: c in items && !c.stale) &&
            (exists c, d :: c in items && d in items && c.provider != d.provider)
    ensures LinkReading(items) == Conflict ==> exists c, d :: c in items && d in items && TextOf(c) != TextOf(d)
    ensures LinkReading(items) == Agreed ==> forall c, d :: c in items && d in items ==> TextOf(c) == TextOf(d)
  {
    if !OneProvider(items) {
      var a, b :| a in items && b in items && !SameProvider(a, b);
    }
    if exists c, d :: c in items && d in items && c.provider != d.provider {
      var c, d :| c in items && d in items && c.provider != d.provider;
      assert !SameProvider(c, d);
    }
    if !OneText(items) {
      var a, b :| a in items && b in items && !SameText(a, b);
    } else {
      forall c, d | c in items && d in items ensures TextOf(c) == TextOf(d) {
        assert SameText(c, d);
      }
    }
  }

  function Rank(f: Field): nat {
    if f.Attachment? then 0 else 1
  }

  predicate KeyBefore(a: Key, b: Key) {
    a.subject < b.subject ||
    (a.subject == b.subject && (a.peer < b.peer || (a.peer == b.peer && Rank(a.relation) < Rank(b.relation))))
  }

  predicate IsLeastKey(key: Key, keys: set<Key>) {
    key in keys && forall k :: k in keys ==> k == key || KeyBefore(key, k)
  }

  predicate Proper(keys: set<Key>) {
    forall k :: k in keys ==> !k.relation.OtherField?
  }

  lemma {:induction false} HasLeastKey(keys: set<Key>)
    requires keys != {} && Proper(keys)
    ensures exists key :: IsLeastKey(key, keys)
  {
    var x :| x in keys;
    var rest := keys - {x};
    assert keys == rest + {x};
    if rest == {} {
      assert IsLeastKey(x, keys);
    } else {
      HasLeastKey(rest);
      var least :| IsLeastKey(least, rest);
      assert IsLeastKey(if KeyBefore(x, least) then x else least, keys);
    }
  }

  method StateOfItems(items: seq<Claim>) returns (state: State)
    requires items != []
    ensures state == LinkReading(items)
  {
    CountsDecide(items);
    state := if forall c :: c in items ==> c.stale then Stale
             else if |ProvidersOf(items)| == 1 then ProviderOnly
             else if |TextsOf(items)| == 1 then Agreed
             else Conflict;
  }

  type Grouping = map<Key, seq<Claim>>

  ghost predicate GroupsClaims(grouped: Grouping, claims: seq<Claim>, unified: map<Id, Id>) {
    && (forall key :: key in grouped <==> Matching(claims, unified, key) != [])
    && (forall key :: key in grouped ==> grouped[key] == Matching(claims, unified, key))
  }

  method GroupClaims(claims: seq<Claim>, unified: map<Id, Id>) returns (grouped: Grouping)
    ensures GroupsClaims(grouped, claims, unified)
  {
    grouped := map[];
    for i := 0 to |claims|
      invariant GroupsClaims(grouped, claims[..i], unified)
    {
      var c := claims[i];
      assert claims[..i + 1][..i] == claims[..i];
      if Contributes(c, unified) {
        var key := KeyOf(c, unified);
        grouped := grouped[key := (if key in grouped then grouped[key] else []) + [c]];
      }
    }
    assert claims[..|claims|] == claims;
  }

  /** The link names exactly the claims that connect its ends, and its state is how they stand. */
  ghost predicate RestsOnClaims(l: Link, claims: seq<Claim>, unified: map<Id, Id>) {
    l.claims == IdsOf(Matching(claims, unified, l.key)) && l.state == LinkReading(Matching(claims, unified, l.key))
  }

  ghost predicate Lists(links: seq<Link>, key: Key) {
    exists l :: l in links && l.key == key
  }

  lemma ListsNext(links: seq<Link>, link: Link)
    ensures forall key :: Lists(links + [link], key) <==> Lists(links, key) || key == link.key
  {
    assert forall l :: l in links + [link] <==> l in links || l == link;
  }

  lemma GroupsAreProper(grouped: Grouping, claims: seq<Claim>, unified: map<Id, Id>)
    requires GroupsClaims(grouped, claims, unified)
    ensures Proper(grouped.Keys)
  {
    forall key | key in grouped ensures !key.relation.OtherField? {
      assert Matching(claims, unified, key)[0] in Matching(claims, unified, key);
    }
  }

  /** `_relationships`: one for every pair of merged records and relationship that some claim connects, listed in
      order, resting on exactly the claims that connect them. */
  method Relationships(claims: seq<Claim>, unified: map<Id, Id>) returns (links: seq<Link>)
    ensures forall i, j :: 0 <= i < j < |links| ==> KeyBefore(links[i].key, links[j].key)
    ensures forall key :: Lists(links, key) <==> Matching(claims, unified, key) != []
    ensures forall l :: l in links ==> RestsOnClaims(l, claims, unified)
  {
    var grouped := GroupClaims(claims, unified);
    GroupsAreProper(grouped, claims, unified);
    var pending := grouped.Keys;
    links := [];
    while pending != {}
      invariant pending <= grouped.Keys
      invariant forall key :: Lists(links, key) <==> key in grouped && key !in pending
      invariant forall i, k :: 0 <= i < |links| && k in pending ==> KeyBefore(links[i].key, k)
      invariant forall i, j :: 0 <= i < j < |links| ==> KeyBefore(links[i].key, links[j].key)
      invariant forall l :: l in links ==> RestsOnClaims(l, claims, unified)
    {
      HasLeastKey(pending);
      var key :| IsLeastKey(key, pending);
      var state := StateOfItems(grouped[key]);
      ListsNext(links, Link(key, state, IdsOf(grouped[key])));
      links := links + [Link(key, state, IdsOf(grouped[key]))];
      pending := pending - {key};
    }
  }

  /** No record is related to itself, and a claim supports one relationship at most, that of its own ends. */
  lemma ClaimSupportsOne(claims: seq<Claim>, unified: map<Id, Id>, c: Claim, k: Key, k': Key)
    requires c in Matching(claims, unified, k) && c in Matching(claims, unified, k')
    ensures k == k' && k.subject != k.peer
  {
  }
}
