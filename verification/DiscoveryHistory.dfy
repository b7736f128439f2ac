/** The discovery store of one device: which entities and evidence are active, since when, and what becomes
    history, over any run of complete and incomplete observations
    (`backend/app/discovery_store.py`, `backend/app/discovery_evidence.py`). */
module DiscoveryHistory {
  import opened Common

  type Id = nat

  /** Seconds. */
  type Time = int

  datatype Freshness = Current | Aging | Stale | Historical

  datatype EvidenceType = InterfaceLink | InterfaceDescription | CdpNeighbor | LldpNeighbor | MacLearned | ArpEntry
                        | LocalHostMac | OuiVendor | UserIntent | AcceptedPlan | PriorObservation

  // ----- freshness -----

  /** How long a fact counts as current; none means it does not age. */
  function CurrentSeconds(t: EvidenceType): Option<nat> {
    match t
    case InterfaceLink => Some(20)
    case InterfaceDescription => None
    case UserIntent => None
    case AcceptedPlan => None
    case PriorObservation => Some(0)
    case _ => Some(180)
  }

  function FreshnessFor(t: EvidenceType, observedAt: Time, referenceAt: Time, revoked: bool): Freshness {
    if revoked || t == PriorObservation then Historical
    else match CurrentSeconds(t)
      case None => Current
      case Some(window) =>
        var age := if referenceAt > observedAt then referenceAt - observedAt else 0;
        if age <= window then Current else if age <= 4 * window then Aging else Stale
  }

  function Rank(f: Freshness): nat {
    match f case Current => 0 case Aging => 1 case Stale => 2 case Historical => 3
  }

  /** Waiting never makes a fact fresher, and never makes it history: only revocation does. */
  lemma AgeingIsNotHistory(t: EvidenceType, observedAt: Time, sooner: Time, later: Time)
    requires sooner <= later
    ensures Rank(FreshnessFor(t, observedAt, sooner, false)) <= Rank(FreshnessFor(t, observedAt, later, false))
    ensures FreshnessFor(t, observedAt, later, false) == Historical <==> t == PriorObservation
    ensures FreshnessFor(t, observedAt, later, true) == Historical
  {
  }

  /** A link is current for 20 seconds and aging for 80, an announcement or a learned address for 180 and 720; what is
      only intended never ages. */
  lemma AgesInSteps(t: EvidenceType, observedAt: Time, now: Time)
    ensures var age, f := now - observedAt, FreshnessFor(t, observedAt, now, false);
            && (t == InterfaceLink ==>
                  (f == Current <==> age <= 20) && (f == Aging <==> 20 < age <= 80) && (f == Stale <==> age > 80))
            && (t in {CdpNeighbor, LldpNeighbor, MacLearned, ArpEntry, LocalHostMac, OuiVendor} ==>
                  (f == Current <==> age <= 180) && (f == Aging <==> 180 < age <= 720) && (f == Stale <==> age > 720))
            && (t in {InterfaceDescription, UserIntent, AcceptedPlan} ==> f == Current)
  {
  }

  // ----- tables -----

  /** `D` is the stored document. */
  datatype Row<D> = Row(firstSeen: Time, lastSeen: Time, active: bool, document: D)

  type Table<D> = map<Id, Row<D>>

  function ActiveIds<D>(table: Table<D>): set<Id> {
    set id | id in table && table[id].active
  }

  datatype Entity = Entity(id: Id, online: bool, freshness: Freshness, historical: bool, firstSeen: Time,
                           lastSeen: Time, details: nat)

  datatype Link = Link(to: Id, freshness: Freshness, statusKnown: bool)

  datatype Stored = Stored(entity: Entity, link: Option<Link>)

  datatype Evidence = Evidence(id: Id, kind: EvidenceType, freshness: Freshness, revoked: bool)

  datatype Topology = Topology(root: Id, devices: seq<Entity>, links: seq<Link>, evidence: seq<Evidence>)

  function IdsOf(entities: seq<Entity>): set<Id> {
    set e | e in entities :: e.id
  }

  function EvidenceIds(evidence: seq<Evidence>): set<Id> {
    set e | e in evidence :: e.id
  }

  function Others(devices: seq<Entity>, root: Id): (others: seq<Entity>)
    ensures forall e :: e in others <==> e in devices && e.id != root
  {
    if devices == [] then []
    else (if devices[0].id != root then [devices[0]] else []) + Others(devices[1..], root)
  }

  function FirstWith(devices: seq<Entity>, id: Id): (found: Option<Entity>)
    ensures found.Some? <==> id in IdsOf(devices)
    ensures found.Some? ==> found.value in devices && found.value.id == id
  {
    if devices == [] then None
    else if devices[0].id == id then Some(devices[0])
    else FirstWith(devices[1..], id)
  }

  /** One observation's effect on when things were seen and whether they are active: the seen ids become
      active now; a complete observation deactivates the others; an incomplete one says nothing about them. */
  ghost predicate Observed<D>(before: Table<D>, after: Table<D>, seen: set<Id>, complete: bool, at: Time) {
    && after.Keys == before.Keys + seen
    && forall id :: id in after ==>
         && after[id].firstSeen == (if id in before then before[id].firstSeen else at)
         && after[id].lastSeen == (if id in seen then at else if id in before then before[id].lastSeen else at)
         && after[id].active == (id in seen || (!complete && id in before && before[id].active))
  }

  function Deactivated<D>(table: Table<D>): Table<D> {
    map id | id in table :: table[id].(active := false)
  }

  /** Insert, or update keeping the first sighting. */
  function Upsert<D>(table: Table<D>, id: Id, at: Time, document: D): Table<D> {
    table[id := Row(if id in table then table[id].firstSeen else at, at, true, document)]
  }

  function UpsertAll<D>(table: Table<D>, rows: seq<(Id, D)>, at: Time): Table<D> {
    if rows == [] then table
    else Upsert(UpsertAll(table, rows[..|rows| - 1], at), rows[|rows| - 1].0, at, rows[|rows| - 1].1)
  }

  ghost function Keys<D>(rows: seq<(Id, D)>): set<Id> {
    set r | r in rows :: r.0
  }

  /** Updating row by row, repetitions included, comes to one observation of all the ids. */
  lemma {:induction false} UpsertAllObserves<D>(table: Table<D>, rows: seq<(Id, D)>, at: Time)
    ensures var after := UpsertAll(table, rows, at);
            && after.Keys == table.Keys + Keys(rows)
            && (forall id :: id in after && id !in Keys(rows) ==> id in table && after[id] == table[id])
            && (forall id :: id in Keys(rows) ==>
                  && after[id].firstSeen == (if id in table then table[id].firstSeen else at)
                  && after[id].lastSeen == at && after[id].active && (id, after[id].document) in rows)
  {
    if rows != [] {
      var init, last := rows[..|rows| - 1], rows[|rows| - 1];
      UpsertAllObserves(table, init, at);
      assert rows == init + [last];
      assert Keys(rows) == Keys(init) + {last.0};
      assert (last.0, last.1) == last && last in rows;
    }
  }

  function Retired(stored: Stored): Stored {
    stored.(entity := stored.entity.(freshness := Historical, historical := true, online := false))
  }

  /** Every row is about its own id, and an active one is not documented as history. */
  ghost predicate Coherent(table: Table<Stored>) {
    forall id :: id in table ==>
      table[id].document.entity.id == id && (table[id].active ==> !table[id].document.entity.historical)
  }

  ghost predicate OwnIds(table: Table<Evidence>) {
    forall id :: id in table ==> table[id].document.id == id
  }

  type Observations = map<(Id, Time), bool>

  /** Shown as of its last sighting, and online only while that is current. */
  predicate CarriedOver(e: Entity, lastSeen: Time, at: Time) {
    e.freshness == FreshnessFor(InterfaceLink, lastSeen, at, false) && (e.online ==> e.freshness == Current)
  }

  /** The stored record with the freshness its last sighting gives it now. */
  function ReAged(row: Row<Evidence>, at: Time): Evidence {
    row.document.(freshness := FreshnessFor(row.document.kind, row.lastSeen, at, false))
  }

  ghost predicate RowsAbout(rows: seq<(Id, Stored)>, seen: set<Id>) {
    Keys(rows) == seen && forall r :: r in rows ==> r.1.entity.id == r.0 && !r.1.entity.historical
  }

  /** A complete observation starts from inactive rows, an incomplete one from those stored. */
  lemma ObservedTable(previous: Table<Stored>, rows: seq<(Id, Stored)>, seen: set<Id>, complete: bool, at: Time)
    requires Coherent(previous) && RowsAbout(rows, seen)
    ensures var after := UpsertAll(if complete then Deactivated(previous) else previous, rows, at);
            Observed(previous, after, seen, complete, at) && Coherent(after) &&
            ActiveIds(after) == seen + (if complete then {} else ActiveIds(previous)) &&
            forall id :: id in previous && id !in seen ==> after[id].document == previous[id].document
  {
    UpsertAllObserves(if complete then Deactivated(previous) else previous, rows, at);
  }

  /** Rewriting the documents of inactive rows changes nothing else. */
  lemma RetiredTable(previous: Table<Stored>, table: Table<Stored>, after: Table<Stored>, seen: set<Id>, at: Time)
    requires Coherent(previous) && Coherent(table) && Observed(previous, table, seen, true, at) &&
             ActiveIds(table) == seen
    requires after.Keys == table.Keys
    requires forall id :: id in after ==>
               after[id] == if id in ActiveIds(previous) - seen
                 then table[id].(document := Retired(previous[id].document)) else table[id]
    ensures Observed(previous, after, seen, true, at) && ActiveIds(after) == seen && Coherent(after)
  {
    forall id ensures id in ActiveIds(after) <==> id in ActiveIds(table) { }
  }

  function Revoked(e: Evidence): Evidence {
    e.(revoked := true, freshness := Historical)
  }

  /** Two links to one entity: the later wins. */
  function LinksByEntity(links: seq<Link>): map<Id, Link> {
    if links == [] then map[]
    else LinksByEntity(links[..|links| - 1])[links[|links| - 1].to := links[|links| - 1]]
  }

  lemma RowKeys(rows: seq<(Id, Stored)>, current: seq<Entity>, updated: seq<Entity>)
    requires |rows| == |current| == |updated|
    requires forall i :: 0 <= i < |current| ==>
               rows[i].0 == current[i].id == updated[i].id && rows[i].1.entity == updated[i]
    ensures Keys(rows) == IdsOf(current) == IdsOf(updated)
    ensures forall r :: r in rows ==> r.1.entity.id == r.0 && r.1.entity in updated
  {
    forall id | id in IdsOf(current) ensures id in Keys(rows) && id in IdsOf(updated) {
      var i :| 0 <= i < |current| && current[i].id == id;
      assert rows[i] in rows && updated[i] in updated;
    }
    forall r | r in rows ensures r.0 in IdsOf(current) && r.1.entity.id == r.0 && r.1.entity in updated {
      var i :| 0 <= i < |rows| && rows[i] == r;
      assert current[i] in current;
    }
    forall u | u in updated ensures u.id in IdsOf(current) {
      var i :| 0 <= i < |updated| && updated[i] == u;
      assert current[i] in current;
    }
  }

  function EvidenceRows(records: seq<Evidence>): (rows: seq<(Id, Evidence)>)
    ensures |rows| == |records| && forall i :: 0 <= i < |rows| ==> rows[i] == (records[i].id, records[i])
  {
    seq(|records|, i requires 0 <= i < |records| => (records[i].id, records[i]))
  }

  lemma EvidenceKeys(records: seq<Evidence>)
    ensures Keys(EvidenceRows(records)) == EvidenceIds(records)
    ensures forall r :: r in EvidenceRows(records) ==> r.1.id == r.0
  {
    var rows := EvidenceRows(records);
    forall e | e in records ensures e.id in Keys(rows) {
      var i :| 0 <= i < |records| && records[i] == e;
      assert rows[i] in rows;
    }
  }

  /** A device seen by this observation says so, and says when it was first seen. */
  predicate SeenNow(e: Entity, table: Table<Stored>, at: Time) {
    e.id in table && e.firstSeen == table[e.id].firstSeen && e.lastSeen == at
  }

  lemma AllSeenNow(previous: Table<Stored>, present: seq<Entity>, after: Table<Stored>, complete: bool, at: Time)
    requires Observed(previous, after, IdsOf(present), complete, at)
    requires forall e :: e in present ==>
               e.firstSeen == (if e.id in previous then previous[e.id].firstSeen else at) && e.lastSeen == at
    ensures forall e :: e in present ==> SeenNow(e, after, at)
  {
    assert forall e :: e in present ==> e.id in IdsOf(present);
  }

  /** The link of a missing entity, as it is returned while nobody sees it. */
  function AgedLink(row: Row<Stored>, at: Time): Option<Link> {
    match row.document.link
    case None => None
    case Some(l) => Some(l.(freshness := FreshnessFor(InterfaceLink, row.lastSeen, at, false), statusKnown := false))
  }

  /** Exactly the links of the missing entities, aged. */
  ghost predicate KeptLinks(links: seq<Link>, missing: set<Id>, previous: Table<Stored>, at: Time) {
    forall l :: l in links <==> exists id :: id in missing && id in previous && AgedLink(previous[id], at) == Some(l)
  }

  lemma KeptNext(links: seq<Link>, done: set<Id>, id: Id, previous: Table<Stored>, at: Time)
    requires KeptLinks(links, done, previous, at) && id in previous
    ensures var l := AgedLink(previous[id], at);
            KeptLinks(links + (if l.Some? then [l.value] else []), done + {id}, previous, at)
  {
    var l := AgedLink(previous[id], at);
    var more := links + (if l.Some? then [l.value] else []);
    assert forall x :: x in more <==> x in links || l == Some(x);
  }

  ghost predicate Extends(after: Observations, before: Observations) {
    forall k :: k in before ==> k in after && after[k] == before[k]
  }

  class DiscoveryStore {
    var entities: Table<Stored>
    var evidence: Table<Evidence>
    /** Which evidence was recorded at which time, and whether as a revocation. */
    var observations: Observations

    constructor ()
      ensures entities == map[] && evidence == map[] && observations == map[]
    {
      entities, evidence, observations := map[], map[], map[];
    }

    method UpsertEntities(current: seq<Entity>, previous: Table<Stored>, links: map<Id, Link>, at: Time)
      returns (updated: seq<Entity>, ghost rows: seq<(Id, Stored)>)
      modifies this`entities
      ensures entities == UpsertAll(old(entities), rows, at)
      ensures |updated| == |current| == |rows|
      ensures forall i :: 0 <= i < |current| ==>
                && updated[i] == current[i].(firstSeen := if current[i].id in previous
                     then previous[current[i].id].firstSeen else at, lastSeen := at)
                && rows[i].0 == current[i].id && rows[i].1.entity == updated[i]
      ensures forall e :: e in updated ==>
                e.firstSeen == (if e.id in previous then previous[e.id].firstSeen else at) && e.lastSeen == at
    {
      updated, rows := [], [];
      for i := 0 to |current|
        invariant entities == UpsertAll(old(entities), rows, at) && |updated| == |rows| == i
        invariant forall j :: 0 <= j < i ==>
                    && updated[j] == current[j].(firstSeen := if current[j].id in previous
                         then previous[current[j].id].firstSeen else at, lastSeen := at)
                    && rows[j].0 == current[j].id && rows[j].1.entity == updated[j]
        invariant forall e :: e in updated ==>
                    e.firstSeen == (if e.id in previous then previous[e.id].firstSeen else at) && e.lastSeen == at
      {
        var id := current[i].id;
        var firstSeen := if id in previous then previous[id].firstSeen else at;
        var entity := current[i].(firstSeen := firstSeen, lastSeen := at);
        var stored := Stored(entity, if id in links then Some(links[id]) else None);
        assert (rows + [(id, stored)])[..|rows|] == rows;
        entities := Upsert(entities, id, at, stored);
        updated, rows := updated + [entity], rows + [(id, stored)];
      }
    }

    /** `INSERT OR IGNORE`: a record at the same time is left as it is. */
    method Note(id: Id, at: Time, revoked: bool)
      modifies this`observations
      ensures observations == if (id, at) in old(observations) then old(observations)
              else old(observations)[(id, at) := revoked]
    {
      if (id, at) !in observations {
        observations := observations[(id, at) := revoked];
      }
    }

    method UpsertEvidence(records: seq<Evidence>, at: Time)
      modifies this`evidence, this`observations
      ensures evidence == UpsertAll(old(evidence), EvidenceRows(records), at)
      ensures Extends(observations, old(observations))
      ensures forall r :: r in records ==> (r.id, at) in observations
    {
      for i := 0 to |records|
        invariant evidence == UpsertAll(old(evidence), EvidenceRows(records[..i]), at)
        invariant Extends(observations, old(observations))
        invariant forall j :: 0 <= j < i ==> (records[j].id, at) in observations
      {
        var record := records[i];
        assert EvidenceRows(records[..i + 1])[..i] == EvidenceRows(records[..i]);
        evidence := Upsert(evidence, record.id, at, record);
        Note(record.id, at, record.revoked);
      }
      assert records[..|records|] == records;
    }

    /** Document as history what a complete observation no longer shows. */
    method RetireEntities(gone: set<Id>, previous: Table<Stored>)
      requires gone <= previous.Keys && gone <= entities.Keys
      modifies this`entities
      ensures entities.Keys == old(entities).Keys
      ensures forall id :: id in entities ==>
                entities[id] == if id in gone then old(entities)[id].(document := Retired(previous[id].document))
                  else old(entities)[id]
    {
      var pending := gone;
      while pending != {}
        invariant pending <= gone && entities.Keys == old(entities).Keys
        invariant forall id :: id in entities ==>
                    entities[id] == if id in gone - pending
                      then old(entities)[id].(document := Retired(previous[id].document)) else old(entities)[id]
      {
        var id :| id in pending;
        pending := pending - {id};
        entities := entities[id := entities[id].(document := Retired(previous[id].document))];
      }
    }

    method RevokeEvidence(gone: set<Id>, previous: Table<Evidence>, at: Time)
      requires gone <= previous.Keys && gone <= evidence.Keys
      modifies this`evidence, this`observations
      ensures evidence.Keys == old(evidence).Keys && Extends(observations, old(observations))
      ensures forall id :: id in evidence ==>
                evidence[id] == if id in gone then old(evidence)[id].(document := Revoked(previous[id].document))
                  else old(evidence)[id]
      ensures forall id :: id in gone ==>
                (id, at) in observations && ((id, at) !in old(observations) ==> observations[(id, at)])
    {
      var pending := gone;
      while pending != {}
        invariant pending <= gone && evidence.Keys == old(evidence).Keys && Extends(observations, old(observations))
        invariant forall id :: id in evidence ==>
                    evidence[id] == if id in gone - pending
                      then old(evidence)[id].(document := Revoked(previous[id].document)) else old(evidence)[id]
        invariant forall id :: id in gone - pending ==>
                    (id, at) in observations && ((id, at) !in old(observations) ==> observations[(id, at)])
        invariant forall id :: id in pending && (id, at) !in old(observations) ==> (id, at) !in observations
      {
        var id :| id in pending;
        pending := pending - {id};
        evidence := evidence[id := evidence[id].(document := Revoked(previous[id].document))];
        Note(id, at, true);
      }
    }

    /** During an incomplete observation the missing entities stay, visibly aged. */
    method CarryOver(missing: set<Id>, previous: Table<Stored>, at: Time) returns (kept: seq<Entity>, links: seq<Link>)
      requires Coherent(previous) && forall id :: id in missing ==> id in previous && previous[id].active
      ensures IdsOf(kept) == missing
      ensures forall e :: e in kept ==>
                !e.historical && e.id in previous && CarriedOver(e, previous[e.id].lastSeen, at)
      ensures KeptLinks(links, missing, previous, at)
    {
      kept, links := [], [];
      var pending := missing;
      while pending != {}
        invariant pending <= missing && IdsOf(kept) == missing - pending
        invariant forall e :: e in kept ==>
                    && e.id in missing && !e.historical && (e.online ==> e.freshness == Current)
                    && e.freshness == FreshnessFor(InterfaceLink, previous[e.id].lastSeen, at, false)
        invariant KeptLinks(links, missing - pending, previous, at)
      {
        var id :| id in pending;
        pending := pending - {id};
        KeptNext(links, missing - pending - {id}, id, previous, at);
        assert missing - pending == missing - pending - {id} + {id};
        var stored := previous[id].document;
        var freshness := FreshnessFor(InterfaceLink, previous[id].lastSeen, at, false);
        var prior := stored.entity.(freshness := freshness, online := freshness == Current && stored.entity.online);
        assert IdsOf(kept + [prior]) == IdsOf(kept) + {prior.id};
        kept := kept + [prior];
        if stored.link.Some? {
          links := links + [stored.link.value.(freshness := freshness, statusKnown := false)];
        }
      }
    }

    /** The rows of what was seen, in both kinds of observation; a complete one first deactivates all rows. */
    method Persist(current: seq<Entity>, links: map<Id, Link>, complete: bool, at: Time) returns (present: seq<Entity>)
      requires Coherent(entities) && forall e :: e in current ==> !e.historical
      modifies this`entities
      ensures Coherent(entities) && Observed(old(entities), entities, IdsOf(current), complete, at)
      ensures ActiveIds(entities) == IdsOf(current) + (if complete then {} else ActiveIds(old(entities)))
      ensures IdsOf(present) == IdsOf(current)
      ensures forall e :: e in present ==> !e.historical && SeenNow(e, entities, at)
      ensures forall id :: id in old(entities) && id !in IdsOf(current) ==>
                entities[id].document == old(entities)[id].document
    {
      var previous := entities;
      if complete {
        entities := Deactivated(entities);
      }
      ghost var rows;
      present, rows := UpsertEntities(current, previous, links, at);
      RowKeys(rows, current, present);
      ObservedTable(previous, rows, IdsOf(current), complete, at);
      AllSeenNow(previous, present, entities, complete, at);
    }

    /** A complete observation: what it does not show is documented as history. */
    method ObserveAll(current: seq<Entity>, links: map<Id, Link>, at: Time) returns (present: seq<Entity>)
      requires Coherent(entities) && forall e :: e in current ==> !e.historical
      modifies this`entities
      ensures Coherent(entities) && Observed(old(entities), entities, IdsOf(current), true, at)
      ensures IdsOf(present) == ActiveIds(entities) && IdsOf(present) == IdsOf(current)
      ensures forall e :: e in present ==> !e.historical && SeenNow(e, entities, at)
      ensures forall id :: id in ActiveIds(old(entities)) - IdsOf(current) ==>
                entities[id].document == Retired(old(entities)[id].document)
    {
      var previous, seen := entities, IdsOf(current);
      present := Persist(current, links, true, at);
      ghost var table := entities;
      RetireEntities(ActiveIds(previous) - seen, previous);
      RetiredTable(previous, table, entities, seen, at);
    }

    /** An incomplete observation: what it does not show stays, visibly aged. */
    method ObserveSome(current: seq<Entity>, links: map<Id, Link>, at: Time)
      returns (present: seq<Entity>, kept: seq<Entity>, keptLinks: seq<Link>)
      requires Coherent(entities) && forall e :: e in current ==> !e.historical
      modifies this`entities
      ensures Coherent(entities) && Observed(old(entities), entities, IdsOf(current), false, at)
      ensures IdsOf(present) == IdsOf(current) && IdsOf(kept) == ActiveIds(old(entities)) - IdsOf(current)
      ensures IdsOf(present) + IdsOf(kept) == ActiveIds(entities)
      ensures forall e :: e in present ==> !e.historical && SeenNow(e, entities, at)
      ensures forall e :: e in kept ==>
                !e.historical && e.id in old(entities) && CarriedOver(e, old(entities)[e.id].lastSeen, at)
      ensures forall id :: id in ActiveIds(old(entities)) - IdsOf(current) ==>
                entities[id].document == old(entities)[id].document
      ensures KeptLinks(keptLinks, ActiveIds(old(entities)) - IdsOf(current), old(entities), at)
    {
      var previous := entities;
      present := Persist(current, links, false, at);
      kept, keptLinks := CarryOver(ActiveIds(previous) - IdsOf(current), previous, at);
    }

    method ObserveEntities(current: seq<Entity>, links: map<Id, Link>, complete: bool, at: Time)
      returns (present: seq<Entity>, keptLinks: seq<Link>)
      requires Coherent(entities) && forall e :: e in current ==> !e.historical
      modifies this`entities
      ensures Coherent(entities) && Observed(old(entities), entities, IdsOf(current), complete, at)
      ensures IdsOf(present) == ActiveIds(entities)
      ensures forall e :: e in present ==> !e.historical
      ensures forall e :: e in present && e.id !in IdsOf(current) ==>
                !complete && e.id in old(entities) && CarriedOver(e, old(entities)[e.id].lastSeen, at)
      ensures forall id :: id in ActiveIds(old(entities)) - IdsOf(current) ==>
                entities[id].document == if complete then Retired(old(entities)[id].document)
                  else old(entities)[id].document
      ensures forall e :: e in present && e.id in IdsOf(current) ==> SeenNow(e, entities, at)
      ensures KeptLinks(keptLinks, if complete then {} else ActiveIds(old(entities)) - IdsOf(current),
                        old(entities), at)
    {
      keptLinks := [];
      if complete {
        present := ObserveAll(current, links, at);
      } else {
        var kept;
        present, kept, keptLinks := ObserveSome(current, links, at);
        assert IdsOf(present + kept) == IdsOf(present) + IdsOf(kept);
        assert forall e :: e in kept ==> e.id in IdsOf(kept);
        present := present + kept;
      }
    }

    method ObserveEvidence(records: seq<Evidence>, complete: bool, at: Time)
      requires OwnIds(evidence)
      modifies this`evidence, this`observations
      ensures OwnIds(evidence) && Observed(old(evidence), evidence, EvidenceIds(records), complete, at)
      ensures !complete ==> forall id :: id in old(evidence) && id !in EvidenceIds(records) ==>
              evidence[id] == old(evidence)[id]
      ensures Extends(observations, old(observations))
      ensures forall r :: r in records ==> (r.id, at) in observations
      ensures complete ==> forall id :: id in ActiveIds(old(evidence)) - EvidenceIds(records) ==>
              (id, at) in observations
    {
      var previous, seen := evidence, EvidenceIds(records);
      if complete {
        evidence := Deactivated(evidence);
      }
      ghost var table := evidence;
      UpsertEvidence(records, at);
      UpsertAllObserves(table, EvidenceRows(records), at);
      EvidenceKeys(records);
      if complete {
        RevokeEvidence(ActiveIds(previous) - seen, previous, at);
      }
    }

    /** During an incomplete observation the evidence still active is returned too, as old as it is. */
    method CachedEvidence(seen: set<Id>, at: Time) returns (cached: seq<Evidence>)
      requires OwnIds(evidence)
      ensures EvidenceIds(cached) == ActiveIds(evidence) - seen
      ensures forall e :: e in cached ==> e.id in evidence && e == ReAged(evidence[e.id], at)
    {
      cached := [];
      var pending := ActiveIds(evidence) - seen;
      while pending != {}
        invariant pending <= ActiveIds(evidence) - seen
        invariant EvidenceIds(cached) == ActiveIds(evidence) - seen - pending
        invariant forall e :: e in cached ==> e.id in evidence && e == ReAged(evidence[e.id], at)
      {
        var id :| id in pending;
        pending := pending - {id};
        assert EvidenceIds(cached + [ReAged(evidence[id], at)]) == EvidenceIds(cached) + {id};
        cached := cached + [ReAged(evidence[id], at)];
      }
    }

    /** The evidence of an observation, persisted, and returned with what an incomplete one could not see. */
    method EnrichEvidence(records: seq<Evidence>, complete: bool, at: Time) returns (all: seq<Evidence>)
      requires OwnIds(evidence)
      modifies this`evidence, this`observations
      ensures OwnIds(evidence) && Observed(old(evidence), evidence, EvidenceIds(records), complete, at)
      ensures EvidenceIds(all) == ActiveIds(evidence) && records <= all
      ensures forall e :: e in all && e.id !in EvidenceIds(records) ==>
                !complete && e.id in ActiveIds(old(evidence)) && e == ReAged(old(evidence)[e.id], at)
      ensures Extends(observations, old(observations))
      ensures forall r :: r in records ==> (r.id, at) in observations
      ensures complete ==> forall id :: id in ActiveIds(old(evidence)) - EvidenceIds(records) ==>
              (id, at) in observations
    {
      ObserveEvidence(records, complete, at);
      var cached := [];
      if !complete {
        cached := CachedEvidence(EvidenceIds(records), at);
      }
      assert EvidenceIds(records + cached) == EvidenceIds(records) + EvidenceIds(cached);
      all := records + cached;
    }

    /** One topology observation: persisted, then enriched with what an incomplete poll could not see. */
    method ApplyObservation(topology: Topology, complete: bool, at: Time) returns (out: Topology)
      requires Coherent(entities) && OwnIds(evidence)
      requires forall e :: e in topology.devices ==> !e.historical
      modifies this
      ensures Coherent(entities) && OwnIds(evidence)
      ensures Observed(old(entities), entities, IdsOf(Others(topology.devices, topology.root)), complete, at)
      ensures Observed(old(evidence), evidence, EvidenceIds(topology.evidence), complete, at)
      // Current devices are the root and exactly the active entities, none of them history.
      ensures IdsOf(out.devices) == ActiveIds(entities) + (IdsOf(topology.devices) * {topology.root})
      ensures forall e :: e in out.devices ==> !e.historical
      // What an incomplete observation missed is returned too, no fresher than its last sighting.
      ensures forall e :: e in out.devices && e.id !in IdsOf(topology.devices) ==>
                !complete && e.id in old(entities) && CarriedOver(e, old(entities)[e.id].lastSeen, at)
      // What it saw says since when, and the links of what it missed come back aged.
      ensures forall e :: e in out.devices && e.id in IdsOf(Others(topology.devices, topology.root)) ==>
                SeenNow(e, entities, at)
      ensures topology.links <= out.links
      ensures KeptLinks(out.links[|topology.links|..], if complete then {}
                        else ActiveIds(old(entities)) - IdsOf(Others(topology.devices, topology.root)),
                        old(entities), at)
      // So is the evidence still active, re-aged; nothing else is added to this observation's own.
      ensures EvidenceIds(out.evidence) == ActiveIds(evidence) && topology.evidence <= out.evidence
      ensures forall e :: e in out.evidence && e.id !in EvidenceIds(topology.evidence) ==>
                !complete && e.id in ActiveIds(old(evidence)) && e == ReAged(old(evidence)[e.id], at)
      // What stops being active is documented as history, and nothing missing becomes so otherwise.
      ensures forall id :: id in ActiveIds(old(entities)) - IdsOf(Others(topology.devices, topology.root)) ==>
                entities[id].document == if complete then Retired(old(entities)[id].document)
                  else old(entities)[id].document
      // Nothing recorded is rewritten; what was seen, and what a complete observation revokes, is recorded.
      ensures Extends(observations, old(observations))
      ensures forall r :: r in topology.evidence ==> (r.id, at) in observations
      ensures complete ==> forall id :: id in ActiveIds(old(evidence)) - EvidenceIds(topology.evidence) ==>
              (id, at) in observations
    {
      var root := FirstWith(topology.devices, topology.root);
      var rootList := if root.Some? then [root.value] else [];
      assert IdsOf(rootList) == IdsOf(topology.devices) * {topology.root};
      var current := Others(topology.devices, topology.root);
      var present, keptLinks := ObserveEntities(current, LinksByEntity(topology.links), complete, at);
      var records := EnrichEvidence(topology.evidence, complete, at);
      assert IdsOf(rootList + present) == IdsOf(rootList) + IdsOf(present);
      out := Topology(topology.root, rootList + present, topology.links + keptLinks, records);
    }
  }

  // ----- any run of observations -----

  datatype Observation = Observation(seen: set<Id>, complete: bool, at: Time)

  /** The tables along a run that starts empty. */
  ghost predicate IsRun<D>(tables: seq<Table<D>>, run: seq<Observation>) {
    && |tables| == |run| + 1 && tables[0] == map[]
    && forall i :: 0 <= i < |run| ==> Observed(tables[i], tables[i + 1], run[i].seen, run[i].complete, run[i].at)
  }

  /** Where the last complete observation is; the beginning if there is none. */
  function LastComplete(run: seq<Observation>): (k: nat)
    ensures k < |run| || (run == [] && k == 0)
  {
    if run == [] || |run| == 1 then 0
    else if run[|run| - 1].complete then |run| - 1
    else LastComplete(run[..|run| - 1])
  }

  ghost predicate SeenSince(run: seq<Observation>, from: nat, id: Id) {
    exists i :: from <= i < |run| && id in run[i].seen
  }

  /** The active ids are exactly those seen in the last complete observation or since. */
  lemma {:induction false} ActiveExactlySinceLastComplete<D>(tables: seq<Table<D>>, run: seq<Observation>, id: Id)
    requires IsRun(tables, run)
    ensures id in ActiveIds(tables[|run|]) <==> SeenSince(run, LastComplete(run), id)
  {
    if run != [] {
      var n := |run| - 1;
      var init, last := run[..n], run[n];
      assert IsRun(tables[..|run|], init);
      ActiveExactlySinceLastComplete(tables[..|run|], init, id);
      assert Observed(tables[n], tables[n + 1], last.seen, last.complete, last.at);
      if id in last.seen {
        assert SeenSince(run, LastComplete(run), id);
      } else if !last.complete {
        if SeenSince(init, LastComplete(init), id) {
          var i :| LastComplete(init) <= i < |init| && id in init[i].seen;
          assert id in run[i].seen;
        }
        if SeenSince(run, LastComplete(run), id) {
          var i :| LastComplete(run) <= i < |run| && id in run[i].seen;
          assert id in init[i].seen;
        }
      }
    }
  }

  ghost predicate FirstAt(run: seq<Observation>, id: Id, i: nat) {
    i < |run| && id in run[i].seen && forall j :: 0 <= j < i ==> id !in run[j].seen
  }

  ghost predicate LastAt(run: seq<Observation>, id: Id, i: nat) {
    i < |run| && id in run[i].seen && forall j :: i < j < |run| ==> id !in run[j].seen
  }

  lemma SeenOneMore(run: seq<Observation>, id: Id)
    requires run != []
    ensures SeenSince(run, 0, id) <==> SeenSince(run[..|run| - 1], 0, id) || id in run[|run| - 1].seen
  {
    var init := run[..|run| - 1];
    if SeenSince(init, 0, id) {
      var i :| 0 <= i < |init| && id in init[i].seen;
      assert id in run[i].seen;
    }
    if SeenSince(run, 0, id) && id !in run[|run| - 1].seen {
      var i :| 0 <= i < |run| && id in run[i].seen;
      assert id in init[i].seen;
    }
  }

  lemma {:induction false} FirstTimes<D>(tables: seq<Table<D>>, run: seq<Observation>, id: Id)
    requires IsRun(tables, run)
    ensures id in tables[|run|] <==> SeenSince(run, 0, id)
    ensures forall i: nat :: FirstAt(run, id, i) ==> id in tables[|run|] && tables[|run|][id].firstSeen == run[i].at
  {
    if run != [] {
      var n := |run| - 1;
      var init, last := run[..n], run[n];
      assert IsRun(tables[..|run|], init);
      FirstTimes(tables[..|run|], init, id);
      assert Observed(tables[n], tables[n + 1], last.seen, last.complete, last.at);
      SeenOneMore(run, id);
      forall i: nat | FirstAt(run, id, i) ensures id in tables[|run|] && tables[|run|][id].firstSeen == run[i].at {
        if i < n {
          assert FirstAt(init, id, i);
        } else {
          assert !SeenSince(init, 0, id);
        }
      }
    }
  }

  lemma {:induction false} LastTimes<D>(tables: seq<Table<D>>, run: seq<Observation>, id: Id, i: nat)
    requires IsRun(tables, run) && LastAt(run, id, i)
    ensures id in tables[|run|] && tables[|run|][id].lastSeen == run[i].at
  {
    var n := |run| - 1;
    assert Observed(tables[n], tables[n + 1], run[n].seen, run[n].complete, run[n].at);
    if i < n {
      assert IsRun(tables[..|run|], run[..n]) && LastAt(run[..n], id, i);
      LastTimes(tables[..|run|], run[..n], id, i);
    }
  }

  /** A row exists for exactly the ids ever seen, and records the first and the last time of each. */
  lemma FirstAndLastTimes<D>(tables: seq<Table<D>>, run: seq<Observation>, id: Id)
    requires IsRun(tables, run)
    ensures id in tables[|run|] <==> SeenSince(run, 0, id)
    ensures forall i: nat :: FirstAt(run, id, i) ==> id in tables[|run|] && tables[|run|][id].firstSeen == run[i].at
    ensures forall i: nat :: LastAt(run, id, i) ==> id in tables[|run|] && tables[|run|][id].lastSeen == run[i].at
  {
    FirstTimes(tables, run, id);
    forall i: nat | LastAt(run, id, i) ensures id in tables[|run|] && tables[|run|][id].lastSeen == run[i].at {
      LastTimes(tables, run, id, i);
    }
  }

  lemma {:induction false} NoneComplete(run: seq<Observation>)
    requires run != [] && !run[LastComplete(run)].complete
    ensures LastComplete(run) == 0
  {
    if |run| > 1 && !run[|run| - 1].complete {
      NoneComplete(run[..|run| - 1]);
    }
  }

  /** Only a complete observation that omits an id ends its activity; so an id that is inactive after a run was
      omitted by a complete observation after its last sighting. */
  lemma InactiveOnlyByOmission<D>(tables: seq<Table<D>>, run: seq<Observation>, id: Id)
    requires IsRun(tables, run) && id in tables[|run|] && !tables[|run|][id].active
    ensures exists k :: 0 <= k < |run| && run[k].complete && (forall j :: k <= j < |run| ==> id !in run[j].seen)
  {
    FirstAndLastTimes(tables, run, id);
    ActiveExactlySinceLastComplete(tables, run, id);
    var k := LastComplete(run);
    assert !SeenSince(run, k, id);
    if !run[k].complete {
      NoneComplete(run);
    }
  }
}
