/** The topology builder's loop over interfaces (`backend/app/topology.py`), and its governing rule: what a
    port is observed to carry depends on telemetry alone, never on a description or a recorded intent. */
module TopologyBuilder {
  import opened Common
  import opened DiscoveryHistory

  type Port = nat

  type Mac = nat

  type Ip = nat

  datatype Category = UnknownCategory | Desktop | OtherCategory(code: nat)

  datatype Role = Uplink | Access | UnknownRole

  /** What a text says a device is. */
  datatype Classification = Classification(category: Category, vendor: Option<string>, model: Option<string>)

  /** A CDP or LLDP neighbour, with the classification of its own announcement. */
  datatype Neighbor = Neighbor(name: string, ip: Option<Ip>, remoteInterface: Option<string>, says: Classification)

  datatype LocalEndpoint = LocalEndpoint(port: Port, confirmed: bool, name: string, ip: Option<Ip>)

  datatype Interface = Interface(port: Port, description: string, up: bool, vlan: string)

  datatype Stored = StoredIntent(port: Port, name: string, category: Category, byUser: bool)

  /** Everything telemetry says, indexed by port as the builder's dictionaries are. */
  datatype Telemetry = Telemetry(macs: map<Port, seq<Mac>>, cdp: map<Port, seq<Neighbor>>,
                                 lldp: map<Port, seq<Neighbor>>, arp: seq<(Mac, Ip)>, local: Option<LocalEndpoint>)

  /** The text rules and the vendor registry, left abstract. */
  datatype Rules = Rules(role: (string, string) -> Role, meaningful: string -> bool, classify: string -> Classification,
                         strip: string -> string, oui: Mac -> Option<string>, vendorsClash: (string, string) -> bool)

  /** Entity and evidence ids are hashes of these keys. */
  datatype EntityKey = NeighborKey(name: string, ip: Option<Ip>) | LocalHostKey | MacKey(mac: Mac)
                     | PresenceKey(port: Port)

  datatype FactValue = LinkUp | LinkDown | TextValue(text: string) | MacValue(mac: Mac) | ArpValue(ip: Ip, mac: Mac)
                     | Matched

  datatype EvidenceKey = EvidenceKey(kind: EvidenceType, port: Port, entity: Option<EntityKey>, value: FactValue)

  datatype Relation = AttachedEndpoint | DirectNeighbour | LearnedBehind | ExpectedNeighbour

  /** A record; `binds` when it establishes a relationship or an attachment. */
  datatype Record = Record(key: EvidenceKey, binds: bool, relation: Option<Relation>)

  datatype Confidence = NoConfidence | Low | Medium | High | Confirmed

  datatype Source = NoSource | Cdp | Lldp | LocalHost | MacOui

  datatype Stage = UnknownStage | ByCategory | ByVendor | ByModel

  datatype Level = UnknownLevel | OnPort | Direct

  datatype Endpoint = Endpoint(
    id: EntityKey, category: Category, vendor: Option<string>, model: Option<string>, name: string,
    mac: Option<Mac>, ip: Option<Ip>, confidence: Confidence, stage: Stage, port: Port, level: Level, source: Source,
    expectedName: Option<string>, expectedCategory: Option<Category>, learnedCount: nat, role: Role,
    existence: Confidence, identity: Confidence, evidence: seq<EvidenceKey>, relation: Relation,
    macs: seq<Mac>, ips: seq<Ip>, conflicts: nat)

  datatype PortLink = PortLink(port: Port, target: EntityKey, toInterface: Option<string>, up: bool,
                               confidence: Confidence,
                               level: Level, learnedCount: nat, relation: Relation, evidence: seq<EvidenceKey>)

  datatype Expectation = Expectation(port: Port, name: string, category: Category)

  /** What one port contributes. */
  datatype Outcome = Outcome(endpoint: Option<Endpoint>, link: Option<PortLink>, evidence: seq<Record>,
                             expectation: Option<Expectation>)

  function At<T>(m: map<Port, seq<T>>, port: Port): seq<T> {
    if port in m then m[port] else []
  }

  /** What telemetry says about one port. */
  datatype Facts = Facts(port: Port, up: bool, learned: seq<Mac>, cdp: seq<Neighbor>, lldp: seq<Neighbor>,
                         local: Option<LocalEndpoint>, arp: seq<(Mac, Ip)>)

  function FactsOf(i: Interface, t: Telemetry): Facts {
    Facts(i.port, i.up, At(t.macs, i.port), At(t.cdp, i.port), At(t.lldp, i.port),
          if t.local.Some? && t.local.value.confirmed && t.local.value.port == i.port then t.local else None, t.arp)
  }

  function Dedup<T(==)>(s: seq<T>): seq<T> {
    if s == [] then []
    else
      var init := Dedup(s[..|s| - 1]);
      if s[|s| - 1] in s[..|s| - 1] then init else init + [s[|s| - 1]]
  }

  function IpsOf(arp: seq<(Mac, Ip)>, mac: Mac): seq<Ip> {
    if arp == [] then []
    else IpsOf(arp[..|arp| - 1], mac) + (if arp[|arp| - 1].0 == mac then [arp[|arp| - 1].1] else [])
  }

  // ----- confidence -----

  function Kinds(records: seq<EvidenceKey>): set<EvidenceType> {
    set r | r in records :: r.kind
  }

  /** `existence_confidence` over current records that all establish existence or nothing. */
  function ExistenceConfidence(kinds: set<EvidenceType>, existence: bool): Confidence {
    if LocalHostMac in kinds || CdpNeighbor in kinds || LldpNeighbor in kinds then Confirmed
    else if InterfaceLink in kinds && MacLearned in kinds then High
    else if InterfaceLink in kinds then Medium
    else if existence then Low
    else NoConfidence
  }

  function Lowered(c: Confidence): Confidence {
    match c case Confirmed => High case High => Medium case Medium => Low case _ => NoConfidence
  }

  function IdentityConfidence(kinds: set<EvidenceType>, conflicts: nat): Confidence {
    var plain :=
      if LocalHostMac in kinds then Confirmed
      else if CdpNeighbor in kinds || LldpNeighbor in kinds then High
      else if OuiVendor in kinds && ArpEntry in kinds && MacLearned in kinds then Medium
      else if OuiVendor in kinds then Low
      else NoConfidence;
    if conflicts > 0 then Lowered(plain) else plain
  }

  // ----- endpoints as first built -----

  function StageOf(c: Classification): Stage {
    if c.model.Some? then ByModel else if c.vendor.Some? then ByVendor
      else if c.category != UnknownCategory then ByCategory else UnknownStage
  }

  function Named(text: string): Option<string> {
    if text == "" then None else Some(text)
  }

  function Blank(port: Port, name: string, count: nat, role: Role): Endpoint {
    Endpoint(PresenceKey(port), UnknownCategory, None, None, name, None, None, Low, UnknownStage, port, OnPort,
      NoSource, None, None, count, role, NoConfidence, NoConfidence, [], AttachedEndpoint, [], [], 0)
  }

  function FromNeighbor(n: Neighbor, source: Source, port: Port, count: nat, role: Role, described: string): Endpoint {
    Blank(port, n.name, count, role).(category := n.says.category, vendor := n.says.vendor, model := n.says.model,
      ip := n.ip,
      confidence := High, stage := StageOf(n.says), level := Direct, source := source, expectedName := Named(described))
  }

  function FromLocalHost(l: LocalEndpoint, port: Port, role: Role, described: string): Endpoint {
    Blank(port, l.name, 1, role).(category := Desktop, ip := l.ip, confidence := High, stage := ByCategory,
      source := LocalHost, expectedName := Named(described))
  }

  function FromLearned(learned: seq<Mac>, port: Port, role: Role, described: Option<string>,
                       category: Option<Category>): Endpoint {
    Blank(port, "Unidentified device", |learned|, role).(mac := if |learned| == 1 then Some(learned[0]) else None,
      expectedName := described, expectedCategory := category)
  }

  function FromPresence(port: Port, role: Role, expectation: Option<Expectation>): Endpoint {
    Blank(port, "Unidentified endpoint", 0, role).(
      expectedName := if expectation.Some? then Some(expectation.value.name) else None,
      expectedCategory := if expectation.Some? then Some(expectation.value.category) else None)
  }

  // ----- what telemetry alone determines -----

  function EntityOf(f: Facts): EntityKey {
    if f.cdp != [] then NeighborKey(f.cdp[0].name, f.cdp[0].ip)
    else if f.lldp != [] then NeighborKey(f.lldp[0].name, f.lldp[0].ip)
    else if f.local.Some? then LocalHostKey
    else if |f.learned| == 1 then MacKey(f.learned[0])
    else PresenceKey(f.port)
  }

  function ArpRecords(f: Facts, entity: Option<EntityKey>, mac: Mac, ips: seq<Ip>): seq<Record> {
    if ips == [] then []
    else ArpRecords(f, entity, mac, ips[..|ips| - 1]) +
         [Record(EvidenceKey(ArpEntry, f.port, entity, ArpValue(ips[|ips| - 1], mac)), f.up,
           if f.up then Some(LearnedBehind) else None)]
  }

  /** The records about one learned address. */
  function MacRecords(rules: Rules, f: Facts, mac: Mac, relation: Relation): seq<Record> {
    var entity := if |f.learned| == 1 then Some(EntityOf(f)) else None;
    [Record(EvidenceKey(MacLearned, f.port, entity, MacValue(mac)), f.up, if f.up then Some(relation) else None)] +
    (match rules.oui(mac)
     case None => []
     case Some(vendor) => [Record(EvidenceKey(OuiVendor, f.port, entity, TextValue(vendor)), false, None)]) +
    ArpRecords(f, entity, mac, IpsOf(f.arp, mac))
  }

  function LinkRecord(f: Facts): Record {
    Record(EvidenceKey(InterfaceLink, f.port, None, if f.up then LinkUp else LinkDown), f.up,
      if f.up then Some(AttachedEndpoint) else None)
  }

  /** The record of a neighbour or local host announcing itself on a live port. */
  function DirectRecords(f: Facts): seq<Record> {
    if f.cdp != [] then [Record(EvidenceKey(CdpNeighbor, f.port, Some(EntityOf(f)), TextValue(f.cdp[0].name)), true,
      Some(DirectNeighbour))]
    else if f.lldp != [] then [Record(EvidenceKey(LldpNeighbor, f.port, Some(EntityOf(f)), TextValue(f.lldp[0].name)),
      true, Some(DirectNeighbour))]
    else if f.local.Some? then [Record(EvidenceKey(LocalHostMac, f.port, Some(EntityOf(f)), Matched), true,
      Some(AttachedEndpoint))]
    else []
  }

  /** The records about the endpoint, for a given reading of a sole address's relationship. */
  function EntityRecords(rules: Rules, f: Facts, relation: Relation): seq<Record> {
    [LinkRecord(f)] + (if |f.learned| == 1 then MacRecords(rules, f, f.learned[0], relation) else []) + DirectRecords(f)
  }

  function KeysOf(records: seq<Record>): (keys: seq<EvidenceKey>)
    ensures |keys| == |records| && forall i :: 0 <= i < |keys| ==> keys[i] == records[i].key
  {
    seq(|records|, i requires 0 <= i < |records| => records[i].key)
  }

  function Binding(records: seq<Record>): seq<EvidenceKey> {
    if records == [] then []
    else Binding(records[..|records| - 1]) + (if records[|records| - 1].binds then [records[|records| - 1].key] else [])
  }

  lemma {:induction false} BindingByPosition(left: seq<Record>, right: seq<Record>)
    requires |left| == |right|
    requires forall i :: 0 <= i < |left| ==> left[i].key == right[i].key && left[i].binds == right[i].binds
    ensures Binding(left) == Binding(right)
  {
    if left != [] {
      BindingByPosition(left[..|left| - 1], right[..|right| - 1]);
    }
  }

  /** Only the relation of the first record depends on how a sole address's relationship is read. */
  lemma MacRecordsAlike(rules: Rules, f: Facts, mac: Mac, a: Relation, b: Relation)
    ensures var left, right := MacRecords(rules, f, mac, a), MacRecords(rules, f, mac, b);
            |left| == |right| &&
            forall i :: 0 <= i < |left| ==> left[i].(relation := None) == right[i].(relation := None)
  {
    var left, right := MacRecords(rules, f, mac, a), MacRecords(rules, f, mac, b);
    assert left[1..] == right[1..];
    assert left == [left[0]] + left[1..] && right == [right[0]] + right[1..];
  }

  /** Neither the keys nor which records bind depends on that reading. */
  lemma RelationIsCosmetic(rules: Rules, f: Facts, a: Relation, b: Relation)
    ensures KeysOf(EntityRecords(rules, f, a)) == KeysOf(EntityRecords(rules, f, b))
    ensures Binding(EntityRecords(rules, f, a)) == Binding(EntityRecords(rules, f, b))
  {
    if |f.learned| == 1 {
      MacRecordsAlike(rules, f, f.learned[0], a, b);
    }
    var left, right := EntityRecords(rules, f, a), EntityRecords(rules, f, b);
    assert |left| == |right|;
    assert forall i :: 0 <= i < |left| ==> left[i].(relation := None) == right[i].(relation := None);
    BindingByPosition(left, right);
  }

  lemma {:induction false} BindingAppend(a: seq<Record>, b: seq<Record>)
    ensures Binding(a + b) == Binding(a) + Binding(b)
  {
    if b == [] {
      assert a + b == a;
    } else {
      assert (a + b)[..|a + b| - 1] == a + b[..|b| - 1];
      BindingAppend(a, b[..|b| - 1]);
    }
  }

  lemma {:induction false} NothingBinds(records: seq<Record>)
    requires forall r :: r in records ==> !r.binds
    ensures Binding(records) == []
  {
    if records != [] {
      NothingBinds(records[..|records| - 1]);
    }
  }

  function AllMacRecords(rules: Rules, f: Facts, macs: seq<Mac>, relation: Relation): seq<Record> {
    if macs == [] then []
    else AllMacRecords(rules, f, macs[..|macs| - 1], relation) + MacRecords(rules, f, macs[|macs| - 1], relation)
  }

  lemma {:induction false} AllMacsCosmetic(rules: Rules, f: Facts, macs: seq<Mac>, a: Relation, b: Relation)
    ensures Binding(AllMacRecords(rules, f, macs, a)) == Binding(AllMacRecords(rules, f, macs, b))
  {
    if macs != [] {
      var init, last := macs[..|macs| - 1], macs[|macs| - 1];
      AllMacsCosmetic(rules, f, init, a, b);
      var left, right := MacRecords(rules, f, last, a), MacRecords(rules, f, last, b);
      MacRecordsAlike(rules, f, last, a, b);
      BindingByPosition(left, right);
      BindingAppend(AllMacRecords(rules, f, init, a), left);
      BindingAppend(AllMacRecords(rules, f, init, b), right);
    }
  }

  /** The keys of the records of a port that bind. */
  function BindingOn(rules: Rules, f: Facts): seq<EvidenceKey> {
    Binding([LinkRecord(f)]) + Binding(AllMacRecords(rules, f, f.learned, AttachedEndpoint)) +
    (if f.up then Binding(DirectRecords(f)) else [])
  }

  /** Intent stands between the link and the addresses, and binds nothing. */
  lemma IntentBindsNothing(rules: Rules, f: Facts, intent: seq<Record>, relation: Relation)
    requires forall r :: r in intent ==> !r.binds
    ensures var seen := [LinkRecord(f)] + intent + AllMacRecords(rules, f, f.learned, relation);
            Binding(if f.up then seen + DirectRecords(f) else seen) == BindingOn(rules, f)
  {
    var macs := AllMacRecords(rules, f, f.learned, relation);
    NothingBinds(intent);
    AllMacsCosmetic(rules, f, f.learned, relation, AttachedEndpoint);
    BindingAppend([LinkRecord(f)], intent);
    BindingAppend([LinkRecord(f)] + intent, macs);
    BindingAppend([LinkRecord(f)] + intent + macs, DirectRecords(f));
  }

  // ----- all records that are not of intent -----

  predicate IsIntent(kind: EvidenceType) {
    kind == UserIntent || kind == AcceptedPlan || kind == InterfaceDescription
  }

  /** The records of what was observed or inferred, apart from how a sole address's relationship is read. */
  function Observations(records: seq<Record>): seq<Record> {
    if records == [] then []
    else
      var last := records[|records| - 1];
      Observations(records[..|records| - 1]) + (if IsIntent(last.key.kind) then [] else [last.(relation := None)])
  }

  lemma {:induction false} ObservationsAppend(a: seq<Record>, b: seq<Record>)
    ensures Observations(a + b) == Observations(a) + Observations(b)
  {
    if b == [] {
      assert a + b == a;
    } else {
      assert (a + b)[..|a + b| - 1] == a + b[..|b| - 1];
      ObservationsAppend(a, b[..|b| - 1]);
    }
  }

  lemma {:induction false} NothingObserved(records: seq<Record>)
    requires forall r :: r in records ==> IsIntent(r.key.kind)
    ensures Observations(records) == []
  {
    if records != [] {
      NothingObserved(records[..|records| - 1]);
    }
  }

  lemma {:induction false} ObservationsByPosition(left: seq<Record>, right: seq<Record>)
    requires |left| == |right|
    requires forall i :: 0 <= i < |left| ==> left[i].(relation := None) == right[i].(relation := None)
    ensures Observations(left) == Observations(right)
  {
    if left != [] {
      ObservationsByPosition(left[..|left| - 1], right[..|right| - 1]);
    }
  }

  lemma {:induction false} ObservationsOfMacs(rules: Rules, f: Facts, macs: seq<Mac>, a: Relation, b: Relation)
    ensures Observations(AllMacRecords(rules, f, macs, a)) == Observations(AllMacRecords(rules, f, macs, b))
  {
    if macs != [] {
      var init, last := macs[..|macs| - 1], macs[|macs| - 1];
      ObservationsOfMacs(rules, f, init, a, b);
      var left, right := MacRecords(rules, f, last, a), MacRecords(rules, f, last, b);
      MacRecordsAlike(rules, f, last, a, b);
      ObservationsByPosition(left, right);
      ObservationsAppend(AllMacRecords(rules, f, init, a), left);
      ObservationsAppend(AllMacRecords(rules, f, init, b), right);
    }
  }

  /** What the records of a port say, by telemetry alone. */
  function ObservationsOn(rules: Rules, f: Facts): seq<Record> {
    Observations([LinkRecord(f)]) + Observations(AllMacRecords(rules, f, f.learned, AttachedEndpoint)) +
    (if f.up then Observations(DirectRecords(f)) else [])
  }

  /** Intent adds no such record, nor changes one. */
  lemma IntentObservesNothing(rules: Rules, f: Facts, intent: seq<Record>, relation: Relation)
    requires forall r :: r in intent ==> IsIntent(r.key.kind)
    ensures var seen := [LinkRecord(f)] + intent + AllMacRecords(rules, f, f.learned, relation);
            Observations(if f.up then seen + DirectRecords(f) else seen) == ObservationsOn(rules, f)
  {
    var macs := AllMacRecords(rules, f, f.learned, relation);
    NothingObserved(intent);
    ObservationsOfMacs(rules, f, f.learned, relation, AttachedEndpoint);
    ObservationsAppend([LinkRecord(f)], intent);
    ObservationsAppend([LinkRecord(f)] + intent, macs);
    ObservationsAppend([LinkRecord(f)] + intent + macs, DirectRecords(f));
  }

  /** The endpoint as telemetry determines it, before a sole address refines it. */
  function Announced(f: Facts): Endpoint {
    if f.cdp != [] then FromNeighbor(f.cdp[0], Cdp, f.port, |f.learned|, UnknownRole, "")
    else if f.lldp != [] then FromNeighbor(f.lldp[0], Lldp, f.port, |f.learned|, UnknownRole, "")
    else if f.local.Some? then FromLocalHost(f.local.value, f.port, UnknownRole, "")
    else if f.learned != [] then FromLearned(f.learned, f.port, UnknownRole, None, None)
    else FromPresence(f.port, UnknownRole, None)
  }

  function RelationOf(f: Facts): Relation {
    if f.cdp != [] || f.lldp != [] then DirectNeighbour else AttachedEndpoint
  }

  function Addressed(e: Endpoint, mac: Mac, ips: seq<Ip>): Endpoint {
    e.(macs := [mac], mac := Some(mac), ips := Dedup(ips), ip := if e.ip.None? && ips != [] then Some(ips[0]) else e.ip)
  }

  /** The registered vendor of the address fills a gap, or contradicts the announced vendor. */
  function Hinted(rules: Rules, known: Endpoint, mac: Mac, kinds: set<EvidenceType>): Endpoint {
    match rules.oui(mac)
    case None => known
    case Some(vendor) =>
      if known.vendor.Some? then
        if rules.vendorsClash(known.vendor.value, vendor)
        then known.(conflicts := known.conflicts + 1, identity := IdentityConfidence(kinds, known.conflicts + 1))
        else known
      else known.(vendor := Some(vendor), source := if known.source == NoSource then MacOui else known.source,
                  stage := ByVendor, identity := IdentityConfidence(kinds, 0))
  }

  /** A sole learned address adds its address, its correlated IPs and its registered vendor. */
  function Refined(rules: Rules, f: Facts, e: Endpoint, kinds: set<EvidenceType>): Endpoint {
    if |f.learned| != 1 then e
      else Hinted(rules, Addressed(e, f.learned[0], IpsOf(f.arp, f.learned[0])), f.learned[0], kinds)
  }

  function Settled(e: Endpoint): Endpoint {
    e.(confidence := if e.identity == NoConfidence then Low else if e.identity == Confirmed then High else e.identity)
  }

  /** Identity and confidence from the records about the endpoint. */
  function Attributed(f: Facts, e: Endpoint, keys: seq<EvidenceKey>, relation: Relation): Endpoint {
    var kinds := Kinds(keys);
    e.(id := EntityOf(f), evidence := Dedup(keys), existence := ExistenceConfidence(kinds, true),
       identity := IdentityConfidence(kinds, 0), relation := relation)
  }

  /** The observed endpoint of a port: a function of telemetry. */
  function ObservedEndpoint(rules: Rules, f: Facts): Option<Endpoint> {
    if !f.up then None
    else
      var keys := KeysOf(EntityRecords(rules, f, AttachedEndpoint));
      Some(Settled(Refined(rules, f, Attributed(f, Announced(f), keys, RelationOf(f)), Kinds(keys))))
  }

  function ObservedLink(rules: Rules, f: Facts): Option<PortLink> {
    if !f.up then None
    else
      var announced := f.cdp != [] || f.lldp != [];
      Some(PortLink(f.port, EntityOf(f), if f.cdp != [] then f.cdp[0].remoteInterface else None, true,
                    if announced || f.local.Some? || f.learned != [] then High else Medium,
                    if announced then Direct else OnPort, |f.learned|, RelationOf(f),
                    Binding(EntityRecords(rules, f, AttachedEndpoint))))
  }

  /** Everything about an endpoint except what intent contributes. */
  function ObservedPart(e: Endpoint): Endpoint {
    e.(expectedName := None, expectedCategory := None, role := UnknownRole)
  }

  // ----- the builder -----

  /** What is expected on a port: the recorded intent, else a description that means something. */
  function ExpectedOn(rules: Rules, i: Interface, stored: map<Port, Stored>): Option<Expectation> {
    if i.port in stored then Some(Expectation(i.port, stored[i.port].name, stored[i.port].category))
    else if rules.meaningful(i.description) then
      Some(Expectation(i.port, rules.strip(i.description), rules.classify(i.description).category))
    else None
  }

  method ExpectationFor(rules: Rules, i: Interface, stored: map<Port, Stored>)
    returns (expectation: Option<Expectation>, records: seq<Record>)
    ensures expectation == ExpectedOn(rules, i, stored)
    ensures forall r :: r in records ==> !r.binds && IsIntent(r.key.kind)
  {
    expectation, records := None, [];
    if i.port in stored {
      var s := stored[i.port];
      expectation := Some(Expectation(i.port, s.name, s.category));
      var key := EvidenceKey(if s.byUser then UserIntent else AcceptedPlan, i.port, None, TextValue(s.name));
      records := records + [Record(key, false, Some(ExpectedNeighbour))];
    }
    if rules.meaningful(i.description) {
      var text := rules.strip(i.description);
      records := records + [Record(EvidenceKey(InterfaceDescription, i.port, None, TextValue(text)), false,
        Some(ExpectedNeighbour))];
      if expectation.None? {
        expectation := Some(Expectation(i.port, text, rules.classify(i.description).category));
      }
    }
  }

  /** The address loop: all records for the port, and those that are about the endpoint. */
  method LearnedRecords(rules: Rules, f: Facts, relation: Relation) returns (all: seq<Record>, entity: seq<Record>)
    ensures entity == if |f.learned| == 1 then MacRecords(rules, f, f.learned[0], relation) else []
    ensures all == AllMacRecords(rules, f, f.learned, relation)
  {
    all, entity := [], [];
    for k := 0 to |f.learned|
      invariant all == AllMacRecords(rules, f, f.learned[..k], relation)
      invariant entity == if |f.learned| == 1 && k == 1 then MacRecords(rules, f, f.learned[0], relation) else []
    {
      var records := MacRecords(rules, f, f.learned[k], relation);
      PrefixNext(f.learned, k);
      assert f.learned[..k + 1][..k] == f.learned[..k];
      all := all + records;
      if |f.learned| == 1 {
        entity := entity + records;
      }
    }
    assert f.learned[..|f.learned|] == f.learned;
  }

  /** The endpoint as first built, from the best announcement there is. */
  method BuildEndpoint(rules: Rules, f: Facts, i: Interface, role: Role, expectation: Option<Expectation>)
    returns (endpoint: Endpoint, linkConfidence: Confidence, level: Level, relation: Relation)
    ensures ObservedPart(endpoint) == Announced(f) && endpoint.conflicts == 0
    ensures relation == RelationOf(f) && (level == if relation.DirectNeighbour? then Direct else OnPort)
    ensures linkConfidence == if relation.DirectNeighbour? || f.local.Some? || f.learned != [] then High else Medium
  {
    linkConfidence, level, relation := High, OnPort, AttachedEndpoint;
    var described := rules.strip(i.description);
    if f.cdp != [] {
      endpoint := FromNeighbor(f.cdp[0], Cdp, f.port, |f.learned|, role, described);
      level, relation := Direct, DirectNeighbour;
    } else if f.lldp != [] {
      endpoint := FromNeighbor(f.lldp[0], Lldp, f.port, |f.learned|, role, described);
      level, relation := Direct, DirectNeighbour;
    } else if f.local.Some? {
      endpoint := FromLocalHost(f.local.value, f.port, role, described);
    } else if f.learned != [] {
      var meant := rules.meaningful(i.description);
      endpoint := FromLearned(f.learned, f.port, role, if meant then Some(described) else None,
                              if meant then Some(rules.classify(i.description).category) else None);
    } else {
      endpoint := FromPresence(f.port, role, expectation);
      linkConfidence := Medium;
    }
  }

  /** The endpoint names exactly what is expected on its port. */
  predicate Expects(e: Endpoint, expectation: Option<Expectation>) {
    && e.expectedName == (if expectation.Some? then Some(expectation.value.name) else None)
    && e.expectedCategory == (if expectation.Some? then Some(expectation.value.category) else None)
  }

  /** Refining and settling neither read nor write what intent contributes. */
  lemma IntentStaysOut(rules: Rules, f: Facts, e: Endpoint, kinds: set<EvidenceType>)
    ensures ObservedPart(Settled(Refined(rules, f, e, kinds))) == Settled(Refined(rules, f, ObservedPart(e), kinds))
  {
    if |f.learned| == 1 {
      var mac := f.learned[0];
      var known := Addressed(e, mac, IpsOf(f.arp, mac));
      assert ObservedPart(known) == Addressed(ObservedPart(e), mac, IpsOf(f.arp, mac));
      assert ObservedPart(Hinted(rules, known, mac, kinds)) == Hinted(rules, ObservedPart(known), mac, kinds);
    }
    var refined := Refined(rules, f, e, kinds);
    assert ObservedPart(Settled(refined)) == Settled(ObservedPart(refined));
  }

  method Refine(rules: Rules, f: Facts, start: Endpoint, kinds: set<EvidenceType>) returns (e: Endpoint)
    requires start.conflicts == 0
    ensures e == Refined(rules, f, start, kinds)
  {
    e := start;
    if |f.learned| == 1 {
      var mac := f.learned[0];
      var ips := IpsOf(f.arp, mac);
      e := e.(macs := [mac], mac := Some(mac), ips := Dedup(ips));
      if e.ip.None? && ips != [] {
        e := e.(ip := Some(ips[0]));
      }
      var hint := rules.oui(mac);
      if hint.Some? {
        if e.vendor.Some? {
          if rules.vendorsClash(e.vendor.value, hint.value) {
            e := e.(conflicts := e.conflicts + 1);
            e := e.(identity := IdentityConfidence(kinds, e.conflicts));
          }
        } else {
          e := e.(vendor := Some(hint.value));
          if e.source == NoSource {
            e := e.(source := MacOui);
          }
          e := e.(stage := ByVendor, identity := IdentityConfidence(kinds, 0));
        }
      }
    }
  }

  /** The fields assigned once an endpoint exists. */
  method Finish(rules: Rules, f: Facts, built: Endpoint, records: seq<Record>, relation: Relation,
                expectation: Option<Expectation>)
    returns (e: Endpoint)
    requires built.conflicts == 0
    ensures Expects(e, expectation)
    ensures ObservedPart(e) == Settled(Refined(rules, f,
            Attributed(f, ObservedPart(built), KeysOf(records), relation), Kinds(KeysOf(records))))
  {
    e := Attributed(f, built, KeysOf(records), relation);
    e := e.(expectedName := if expectation.Some? then Some(expectation.value.name) else None,
            expectedCategory := if expectation.Some? then Some(expectation.value.category) else None);
    ghost var attributed := e;
    e := Refine(rules, f, e, Kinds(KeysOf(records)));
    IntentStaysOut(rules, f, attributed, Kinds(KeysOf(records)));
    e := e.(confidence := if e.identity == NoConfidence then Low else if e.identity == Confirmed then High
      else e.identity);
  }

  /** The records of one turn: all of them, and those about the endpoint. */
  method Gather(rules: Rules, f: Facts, role: Role, intent: seq<Record>)
    returns (evidence: seq<Record>, records: seq<Record>)
    requires forall r :: r in intent ==> !r.binds && IsIntent(r.key.kind)
    ensures Binding(evidence) == BindingOn(rules, f) && Observations(evidence) == ObservationsOn(rules, f)
    ensures KeysOf(records) == KeysOf(EntityRecords(rules, f, AttachedEndpoint))
    ensures Binding(records) == Binding(EntityRecords(rules, f, AttachedEndpoint))
  {
    var relationRead := if |f.learned| == 1 && role == Access then AttachedEndpoint else LearnedBehind;
    var all, about := LearnedRecords(rules, f, relationRead);
    evidence := [LinkRecord(f)] + intent + all;
    IntentBindsNothing(rules, f, intent, relationRead);
    IntentObservesNothing(rules, f, intent, relationRead);
    records := [LinkRecord(f)] + about + DirectRecords(f);
    assert records == EntityRecords(rules, f, relationRead);
    RelationIsCosmetic(rules, f, relationRead, AttachedEndpoint);
    if f.up {
      evidence := evidence + DirectRecords(f);
    }
  }

  /** One turn of the builder's loop. */
  method BuildPort(rules: Rules, i: Interface, stored: map<Port, Stored>, t: Telemetry) returns (out: Outcome)
    ensures out.endpoint.Some? <==> i.up
    ensures out.endpoint.Some? ==> Some(ObservedPart(out.endpoint.value)) == ObservedEndpoint(rules, FactsOf(i, t))
    ensures out.link == ObservedLink(rules, FactsOf(i, t))
    ensures Binding(out.evidence) == BindingOn(rules, FactsOf(i, t))
    ensures Observations(out.evidence) == ObservationsOn(rules, FactsOf(i, t))
    ensures out.expectation == ExpectedOn(rules, i, stored)
    ensures out.endpoint.Some? ==> Expects(out.endpoint.value, out.expectation)
  {
    var f := FactsOf(i, t);
    var role := rules.role(i.description, i.vlan);
    var expectation, intent := ExpectationFor(rules, i, stored);
    var entity := EntityOf(f);
    var evidence, records := Gather(rules, f, role, intent);
    if !i.up {
      return Outcome(None, None, evidence, expectation);
    }
    var endpoint, linkConfidence, level, relation := BuildEndpoint(rules, f, i, role, expectation);
    endpoint := Finish(rules, f, endpoint, records, relation, expectation);
    var remote := if f.cdp != [] then f.cdp[0].remoteInterface else None;
    var link := PortLink(f.port, entity, remote, true, linkConfidence, level, |f.learned|, relation, Binding(records));
    out := Outcome(Some(endpoint), Some(link), evidence, expectation);
  }

  // ----- the whole topology -----

  function FactsOfAll(interfaces: seq<Interface>, t: Telemetry): (facts: seq<Facts>)
    ensures |facts| == |interfaces| && forall k :: 0 <= k < |facts| ==> facts[k] == FactsOf(interfaces[k], t)
  {
    seq(|interfaces|, k requires 0 <= k < |interfaces| => FactsOf(interfaces[k], t))
  }

  function ObservedEndpoints(rules: Rules, facts: seq<Facts>): seq<Endpoint> {
    if facts == [] then []
    else
      var last := ObservedEndpoint(rules, facts[|facts| - 1]);
      ObservedEndpoints(rules, facts[..|facts| - 1]) + (if last.Some? then [last.value] else [])
  }

  function ObservedLinks(rules: Rules, facts: seq<Facts>): seq<PortLink> {
    if facts == [] then []
    else
      var last := ObservedLink(rules, facts[|facts| - 1]);
      ObservedLinks(rules, facts[..|facts| - 1]) + (if last.Some? then [last.value] else [])
  }

  /** The keys of all records that bind, port by port. */
  function Bindings(rules: Rules, facts: seq<Facts>): seq<EvidenceKey> {
    if facts == [] then [] else Bindings(rules, facts[..|facts| - 1]) + BindingOn(rules, facts[|facts| - 1])
  }

  function AllObservations(rules: Rules, facts: seq<Facts>): seq<Record> {
    if facts == [] then []
    else AllObservations(rules, facts[..|facts| - 1]) + ObservationsOn(rules, facts[|facts| - 1])
  }

  function Expectations(rules: Rules, interfaces: seq<Interface>, stored: map<Port, Stored>): seq<Expectation> {
    if interfaces == [] then []
    else
      var last := ExpectedOn(rules, interfaces[|interfaces| - 1], stored);
      Expectations(rules, interfaces[..|interfaces| - 1], stored) + (if last.Some? then [last.value] else [])
  }

  function ObservedParts(endpoints: seq<Endpoint>): (parts: seq<Endpoint>)
    ensures |parts| == |endpoints| && forall k :: 0 <= k < |parts| ==> parts[k] == ObservedPart(endpoints[k])
  {
    seq(|endpoints|, k requires 0 <= k < |endpoints| => ObservedPart(endpoints[k]))
  }

  function Listed<T>(o: Option<T>): seq<T> {
    if o.Some? then [o.value] else []
  }

  lemma PartsAppend(endpoints: seq<Endpoint>, more: Option<Endpoint>)
    ensures ObservedParts(endpoints + Listed(more)) ==
            ObservedParts(endpoints) + if more.Some? then [ObservedPart(more.value)] else []
  {
  }

  /** What one more interface adds. */
  lemma NextInterface(rules: Rules, interfaces: seq<Interface>, stored: map<Port, Stored>, t: Telemetry, k: nat)
    requires k < |interfaces|
    ensures var so, next, f := FactsOfAll(interfaces[..k], t), FactsOfAll(interfaces[..k + 1], t),
            FactsOf(interfaces[k], t);
            && ObservedEndpoints(rules, next) == ObservedEndpoints(rules, so) + Listed(ObservedEndpoint(rules, f))
            && ObservedLinks(rules, next) == ObservedLinks(rules, so) + Listed(ObservedLink(rules, f))
            && Bindings(rules, next) == Bindings(rules, so) + BindingOn(rules, f)
            && AllObservations(rules, next) == AllObservations(rules, so) + ObservationsOn(rules, f)
    ensures Expectations(rules, interfaces[..k + 1], stored) ==
            Expectations(rules, interfaces[..k], stored) + Listed(ExpectedOn(rules, interfaces[k], stored))
  {
    var so, next := FactsOfAll(interfaces[..k], t), FactsOfAll(interfaces[..k + 1], t);
    assert next[..k] == so && next[k] == FactsOf(interfaces[k], t);
    assert interfaces[..k + 1][..k] == interfaces[..k];
  }

  /** `build_topology`, apart from the switch's own entry. */
  method BuildTopology(rules: Rules, interfaces: seq<Interface>, stored: map<Port, Stored>, t: Telemetry)
    returns (endpoints: seq<Endpoint>, links: seq<PortLink>, evidence: seq<Record>, expectations: seq<Expectation>)
    ensures ObservedParts(endpoints) == ObservedEndpoints(rules, FactsOfAll(interfaces, t))
    ensures links == ObservedLinks(rules, FactsOfAll(interfaces, t))
    ensures Binding(evidence) == Bindings(rules, FactsOfAll(interfaces, t))
    ensures Observations(evidence) == AllObservations(rules, FactsOfAll(interfaces, t))
    ensures expectations == Expectations(rules, interfaces, stored)
  {
    endpoints, links, evidence, expectations := [], [], [], [];
    for k := 0 to |interfaces|
      invariant ObservedParts(endpoints) == ObservedEndpoints(rules, FactsOfAll(interfaces[..k], t))
      invariant links == ObservedLinks(rules, FactsOfAll(interfaces[..k], t))
      invariant Binding(evidence) == Bindings(rules, FactsOfAll(interfaces[..k], t))
      invariant Observations(evidence) == AllObservations(rules, FactsOfAll(interfaces[..k], t))
      invariant expectations == Expectations(rules, interfaces[..k], stored)
    {
      var out := BuildPort(rules, interfaces[k], stored, t);
      NextInterface(rules, interfaces, stored, t, k);
      BindingAppend(evidence, out.evidence);
      ObservationsAppend(evidence, out.evidence);
      evidence := evidence + out.evidence;
      expectations := expectations + Listed(out.expectation);
      PartsAppend(endpoints, out.endpoint);
      endpoints := endpoints + Listed(out.endpoint);
      links := links + Listed(out.link);
    }
    assert interfaces[..|interfaces|] == interfaces;
  }

  /** The same ports with the same telemetry; descriptions may differ. */
  ghost predicate SameTelemetry(a: seq<Interface>, b: seq<Interface>) {
    |a| == |b| && forall k :: 0 <= k < |a| ==> a[k].(description := "") == b[k].(description := "")
  }

  /** Two builds over the same telemetry, whatever the descriptions and the recorded intents of each: the same
      endpoints, alike in everything but the expectation and role fields, the very same links, and the same
      evidence for all of them. */
  method IntentDoesNotInterfere(rules: Rules, t: Telemetry, a: seq<Interface>, b: seq<Interface>,
                                storedA: map<Port, Stored>, storedB: map<Port, Stored>)
    returns (endpointsA: seq<Endpoint>, endpointsB: seq<Endpoint>, linksA: seq<PortLink>, linksB: seq<PortLink>,
             evidenceA: seq<Record>, evidenceB: seq<Record>)
    requires SameTelemetry(a, b)
    ensures |endpointsA| == |endpointsB|
    ensures forall k :: 0 <= k < |endpointsA| ==> ObservedPart(endpointsA[k]) == ObservedPart(endpointsB[k])
    ensures linksA == linksB && Binding(evidenceA) == Binding(evidenceB)
    ensures Observations(evidenceA) == Observations(evidenceB)
  {
    var expectations;
    endpointsA, linksA, evidenceA, expectations := BuildTopology(rules, a, storedA, t);
    endpointsB, linksB, evidenceB, expectations := BuildTopology(rules, b, storedB, t);
    assert forall k :: 0 <= k < |a| ==> FactsOf(a[k], t) == FactsOf(b[k], t);
    assert FactsOfAll(a, t) == FactsOfAll(b, t);
    assert ObservedParts(endpointsA) == ObservedParts(endpointsB);
  }

  // ----- identities come only from announcements -----

  predicate Announces(t: Telemetry, port: Port) {
    At(t.cdp, port) != [] || At(t.lldp, port) != [] ||
      (t.local.Some? && t.local.value.confirmed && t.local.value.port == port)
  }

  predicate Identifies(s: Source) {
    s == Cdp || s == Lldp || s == LocalHost
  }

  // ----- how sure an endpoint is -----

  predicate ByNeighbour(f: Facts) {
    f.cdp != [] || f.lldp != []
  }

  /** A sole learned address with a registered vendor. */
  predicate HasVendor(rules: Rules, f: Facts) {
    |f.learned| == 1 && rules.oui(f.learned[0]).Some?
  }

  lemma KindsAppend(a: seq<Record>, b: seq<Record>)
    ensures Kinds(KeysOf(a + b)) == Kinds(KeysOf(a)) + Kinds(KeysOf(b))
  {
    var keys := KeysOf(a + b);
    assert keys == KeysOf(a) + KeysOf(b);
    assert forall k :: k in keys <==> k in KeysOf(a) || k in KeysOf(b);
  }

  lemma KindsOfFew(r: Record)
    ensures Kinds(KeysOf([r])) == {r.key.kind} && Kinds(KeysOf([])) == {}
  {
    assert KeysOf([r]) == [r.key];
  }

  lemma {:induction false} ArpKinds(f: Facts, entity: Option<EntityKey>, mac: Mac, ips: seq<Ip>)
    ensures Kinds(KeysOf(ArpRecords(f, entity, mac, ips))) == if ips == [] then {} else {ArpEntry}
  {
    if ips != [] {
      var init := ArpRecords(f, entity, mac, ips[..|ips| - 1]);
      ArpKinds(f, entity, mac, ips[..|ips| - 1]);
      var all := ArpRecords(f, entity, mac, ips);
      KindsAppend(init, [all[|all| - 1]]);
      KindsOfFew(all[|all| - 1]);
    }
  }

  lemma MacKinds(rules: Rules, f: Facts, mac: Mac, relation: Relation)
    ensures Kinds(KeysOf(MacRecords(rules, f, mac, relation))) ==
            {MacLearned} + (if rules.oui(mac).Some? then {OuiVendor} else {})
            + (if IpsOf(f.arp, mac) != [] then {ArpEntry} else {})
  {
    var entity := if |f.learned| == 1 then Some(EntityOf(f)) else None;
    var macs := MacRecords(rules, f, mac, relation);
    var first, arps := [macs[0]], ArpRecords(f, entity, mac, IpsOf(f.arp, mac));
    var vendor := if rules.oui(mac).Some? then [macs[1]] else [];
    assert macs == first + vendor + arps;
    KindsAppend(first + vendor, arps);
    KindsAppend(first, vendor);
    KindsOfFew(macs[0]);
    if rules.oui(mac).Some? {
      KindsOfFew(macs[1]);
    }
    ArpKinds(f, entity, mac, IpsOf(f.arp, mac));
  }

  function DirectKinds(f: Facts): set<EvidenceType> {
    if f.cdp != [] then {CdpNeighbor} else if f.lldp != [] then {LldpNeighbor}
      else if f.local.Some? then {LocalHostMac} else {}
  }

  lemma DirectKindsOf(f: Facts)
    ensures Kinds(KeysOf(DirectRecords(f))) == DirectKinds(f)
  {
    if DirectRecords(f) != [] {
      KindsOfFew(DirectRecords(f)[0]);
      assert DirectRecords(f) == [DirectRecords(f)[0]];
    } else {
      KindsOfFew(LinkRecord(f));
    }
  }

  /** The kinds of evidence behind an endpoint. */
  lemma EntityKinds(rules: Rules, f: Facts, k: EvidenceType)
    ensures k in Kinds(KeysOf(EntityRecords(rules, f, AttachedEndpoint))) <==>
            || k == InterfaceLink
            || (k == MacLearned && |f.learned| == 1)
            || (k == OuiVendor && HasVendor(rules, f))
            || (k == ArpEntry && |f.learned| == 1 && IpsOf(f.arp, f.learned[0]) != [])
            || k in DirectKinds(f)
  {
    var macs := if |f.learned| == 1 then MacRecords(rules, f, f.learned[0], AttachedEndpoint) else [];
    if |f.learned| == 1 {
      MacKinds(rules, f, f.learned[0], AttachedEndpoint);
    }
    KindsAppend([LinkRecord(f)] + macs, DirectRecords(f));
    KindsAppend([LinkRecord(f)], macs);
    KindsOfFew(LinkRecord(f));
    DirectKindsOf(f);
  }

  /** How sure the identity is before any contradiction. */
  function PlainIdentity(rules: Rules, f: Facts): Confidence {
    if ByNeighbour(f) then High
    else if f.local.Some? then Confirmed
    else if !HasVendor(rules, f) then NoConfidence
    else if IpsOf(f.arp, f.learned[0]) != [] then Medium
    else Low
  }

  lemma KindsDecide(rules: Rules, f: Facts)
    ensures var kinds := Kinds(KeysOf(EntityRecords(rules, f, AttachedEndpoint)));
            && IdentityConfidence(kinds, 0) == PlainIdentity(rules, f)
            && ExistenceConfidence(kinds, true) == (if ByNeighbour(f) || f.local.Some? then Confirmed
                                                    else if |f.learned| == 1 then High else Medium)
  {
    forall k: EvidenceType {
      EntityKinds(rules, f, k);
    }
  }

  /** Existence is confirmed by an announcement, and likelier with a sole address than with none or many. Identity
      comes from a neighbour's announcement, else the local machine, else the registered vendor of a sole address,
      likelier when an ARP entry matches it; it loses one step when that vendor contradicts the announcement. */
  lemma ConfidenceMeans(rules: Rules, f: Facts)
    requires f.up
    ensures var e := ObservedEndpoint(rules, f).value;
            var announced := ByNeighbour(f) || f.local.Some?;
            && e.existence == (if announced then Confirmed else if |f.learned| == 1 then High else Medium)
            && e.identity == (if e.conflicts == 0 then PlainIdentity(rules, f) else Medium)
            && (e.conflicts > 0 ==> ByNeighbour(f) && HasVendor(rules, f))
  {
    KindsDecide(rules, f);
    var kinds := Kinds(KeysOf(EntityRecords(rules, f, AttachedEndpoint)));
    assert forall n: nat :: n > 0 ==> IdentityConfidence(kinds, n) == Lowered(IdentityConfidence(kinds, 0));
    if HasVendor(rules, f) && Announced(f).vendor.Some? {
      assert ByNeighbour(f);
    }
  }

  lemma EndpointSource(rules: Rules, i: Interface, t: Telemetry)
    requires i.up
    ensures var e := ObservedEndpoint(rules, FactsOf(i, t)).value;
            e.port == i.port && (Identifies(e.source) <==> Announces(t, i.port))
  {
  }

  /** Which source an endpoint's identity comes from, in this order: CDP, LLDP, the local machine, the registered
      vendor of a sole address. */
  lemma SourceOrder(rules: Rules, f: Facts)
    requires f.up
    ensures var e := ObservedEndpoint(rules, f).value;
            && (e.source == Cdp <==> f.cdp != [])
            && (e.source == Lldp <==> f.cdp == [] && f.lldp != [])
            && (e.source == LocalHost <==> !ByNeighbour(f) && f.local.Some?)
            && (e.source == MacOui <==> !ByNeighbour(f) && f.local.None? && HasVendor(rules, f))
            && (f.cdp != [] ==> e.name == f.cdp[0].name && e.id == NeighborKey(f.cdp[0].name, f.cdp[0].ip))
            && (e.source == Lldp ==> e.name == f.lldp[0].name && e.id == NeighborKey(f.lldp[0].name, f.lldp[0].ip))
            && (e.id.MacKey? <==> !ByNeighbour(f) && f.local.None? && |f.learned| == 1)
  {
  }

  lemma {:induction false} EndpointSources(rules: Rules, interfaces: seq<Interface>, t: Telemetry, e: Endpoint)
    requires e in ObservedEndpoints(rules, FactsOfAll(interfaces, t))
    ensures Identifies(e.source) <==> Announces(t, e.port)
  {
    if interfaces != [] {
      var n := |interfaces| - 1;
      assert FactsOfAll(interfaces, t)[..n] == FactsOfAll(interfaces[..n], t);
      if interfaces[n].up {
        EndpointSource(rules, interfaces[n], t);
      }
      if e in ObservedEndpoints(rules, FactsOfAll(interfaces[..n], t)) {
        EndpointSources(rules, interfaces[..n], t, e);
      }
    }
  }
}
