/** Comparing the assurance snapshots taken before and after a change
    (`backend/app/change_assurance.py`). Fingerprints are abstract ids. */
module SnapshotCompare {
  import opened Common
  import opened Walks
  import opened Sorting
  import opened Operations
  import InterfaceNames
  import IosConfig
  import ChangeSessions

  datatype Field = AdminState | OperState | DescriptionText | Vlan | Speed | Duplex | PoeAdmin | PoeOper | ErrorTotal
                 | LearnedMacCount

  const FIELDS: seq<Field> := [AdminState, OperState, DescriptionText, Vlan, Speed, Duplex, PoeAdmin, PoeOper,
    ErrorTotal, LearnedMacCount]

  datatype Value = Text(text: string) | Number(number: int) | Flag(flag: bool) | Ids(ids: seq<Id>)

  datatype Interface = Interface(port: Id, present: bool, adminState: string, operState: string, description: string,
                                 vlan: string, speed: string, duplex: string, poeAdmin: string, poeOper: string,
                                 errorTotal: int, learnedMacCount: int)

  function Get(f: Field, i: Interface): Value {
    match f
    case AdminState => Text(i.adminState)
    case OperState => Text(i.operState)
    case DescriptionText => Text(i.description)
    case Vlan => Text(i.vlan)
    case Speed => Text(i.speed)
    case Duplex => Text(i.duplex)
    case PoeAdmin => Text(i.poeAdmin)
    case PoeOper => Text(i.poeOper)
    case ErrorTotal => Number(i.errorTotal)
    case LearnedMacCount => Number(i.learnedMacCount)
  }

  datatype Snapshot = Snapshot(target: Interface, others: seq<Interface>, running: Id, startup: Id,
                               attached: seq<Id>, learnedBehind: seq<Id>, otherTopology: Id,
                               deviceHealth: string, targetHealth: string, connection: string)

  datatype Assessment = AsExpected | Info | Warning

  datatype Scope = Target | Unrelated | Configuration | Topology | Health

  /** What a difference is about. */
  datatype Subject = Property(field: Field) | Presence | RunningText | StartupText | Attachments | LearnedBehind
                   | OtherTopology | DeviceState | TargetState | ConnectionState | MoreErrors

  datatype Difference = Difference(scope: Scope, subject: Subject, port: Option<Id>, before: Value, after: Value,
                                   assessment: Assessment)

  datatype Direct = Met | NotMet | Undetermined

  datatype Comparison = Comparison(direct: Direct, differences: seq<Difference>, warnings: seq<Difference>)

  /** The declared effects of each operation on its target. */
  function Allowed(kind: Kind): set<Field> {
    match kind
    case DescriptionSet => {DescriptionText}
    case AdminUp => {AdminState, OperState, LearnedMacCount}
    case AdminDown => {AdminState, OperState, LearnedMacCount}
    case _ => {PoeAdmin, PoeOper, OperState, LearnedMacCount}
  }

  function DirectOutcome(kind: Kind, value: string, target: Interface): Direct {
    if !target.present then Undetermined
    else
      var met := match kind
        case AdminDown => target.adminState == "down"
        case AdminUp => target.adminState == "up"
        case DescriptionSet => target.description == value
        case _ => InterfaceNames.Lower(target.poeAdmin) == Wanted(kind);
      if met then Met else NotMet
  }

  /** One entry per port; the last of two with the same port wins. */
  function ByPort(others: seq<Interface>): map<Id, Interface> {
    if others == [] then map[]
    else ByPort(others[..|others| - 1])[others[|others| - 1].port := others[|others| - 1]]
  }

  lemma {:induction false} LastOnPortWins(others: seq<Interface>, k: nat)
    requires k < |others| && forall j :: k < j < |others| ==> others[j].port != others[k].port
    ensures others[k].port in ByPort(others) && ByPort(others)[others[k].port] == others[k]
  {
    if k < |others| - 1 {
      LastOnPortWins(others[..|others| - 1], k);
    }
  }

  /** The same on all ten compared fields. */
  ghost predicate SameFields(a: Interface, b: Interface) {
    forall f: Field :: Get(f, a) == Get(f, b)
  }

  ghost predicate SameAt(before: map<Id, Interface>, after: map<Id, Interface>, p: Id) {
    p in before && p in after && SameFields(before[p], after[p])
  }

  ghost predicate SameOthers(before: map<Id, Interface>, after: map<Id, Interface>, ports: set<Id>) {
    forall p :: p in ports ==> SameAt(before, after, p)
  }

  function Elems(s: seq<Id>): set<Id> {
    set x | x in s
  }

  ghost predicate RestAgrees(before: Snapshot, after: Snapshot) {
    && before.startup == after.startup && before.otherTopology == after.otherTopology
    && before.deviceHealth == after.deviceHealth && before.targetHealth == after.targetHealth
    && before.connection == after.connection
  }

  /** What a warning-free comparison establishes. */
  ghost predicate Agrees(kind: Kind, before: Snapshot, after: Snapshot) {
    && ByPort(before.others).Keys == ByPort(after.others).Keys
    && SameOthers(ByPort(before.others), ByPort(after.others), ByPort(before.others).Keys)
    && (forall f: Field :: f !in Allowed(kind) ==> Get(f, before.target) == Get(f, after.target))
    && (kind == DescriptionSet ==> SortedIds(Elems(before.attached)) == SortedIds(Elems(after.attached)) &&
                                   before.learnedBehind == after.learnedBehind)
    && RestAgrees(before, after)
  }

  /** What a comparison without any difference establishes. */
  ghost predicate Unchanged(before: Snapshot, after: Snapshot) {
    && ByPort(before.others).Keys == ByPort(after.others).Keys
    && SameOthers(ByPort(before.others), ByPort(after.others), ByPort(before.others).Keys)
    && SameFields(before.target, after.target)
    && before.running == after.running
    && SortedIds(Elems(before.attached)) == SortedIds(Elems(after.attached))
    && before.learnedBehind == after.learnedBehind
    && RestAgrees(before, after)
  }

  /** The two lists under construction. */
  datatype Findings = Findings(differences: seq<Difference>, warnings: seq<Difference>)

  /** Every difference listed is one, and the warnings are those assessed so. */
  ghost predicate Genuine(f: Findings) {
    && (forall d :: d in f.differences ==> d.before != d.after)
    && (forall w :: w in f.warnings <==> w in f.differences && w.assessment == Warning)
  }

  /** The one difference, if it is one. */
  ghost function OneIf(d: Difference): seq<Difference> {
    if d.before == d.after then [] else [d]
  }

  /** The local function `diff`. */
  method Diff(f: Findings, scope: Scope, subject: Subject, port: Option<Id>, before: Value, after: Value,
              assessment: Assessment)
    returns (r: Findings)
    requires Genuine(f)
    ensures Genuine(r)
    ensures r.differences == f.differences + OneIf(Difference(scope, subject, port, before, after, assessment))
  {
    if before == after {
      return f;
    }
    var d := Difference(scope, subject, port, before, after, assessment);
    r := Findings(f.differences + [d], if assessment == Warning then f.warnings + [d] else f.warnings);
  }

  // ----- what is listed, in order -----

  ghost function OnTarget(kind: Kind, before: Interface, after: Interface, x: Field): Difference {
    Difference(Target, Property(x), Some(after.port), Get(x, before), Get(x, after),
               if x in Allowed(kind) then AsExpected else Warning)
  }

  /** After what was listed before, the first `n` fields of the target that differ. */
  ghost function WithTarget(ds: seq<Difference>, kind: Kind, before: Interface, after: Interface, n: nat):
      seq<Difference>
    requires n <= |FIELDS|
  {
    if n == 0 then ds
    else WithTarget(ds, kind, before, after, n - 1) + OneIf(OnTarget(kind, before, after, FIELDS[n - 1]))
  }

  ghost function WithFields(ds: seq<Difference>, port: Id, before: Interface, after: Interface, n: nat):
      seq<Difference>
    requires n <= |FIELDS|
  {
    if n == 0 then ds
    else
      var x := FIELDS[n - 1];
      WithFields(ds, port, before, after, n - 1) +
      OneIf(Difference(Unrelated, Property(x), Some(port), Get(x, before), Get(x, after), Warning))
  }

  /** Of one unrelated port: that it came or went, or what changed on it. */
  ghost function WithPort(ds: seq<Difference>, before: map<Id, Interface>, after: map<Id, Interface>, port: Id):
      seq<Difference> {
    if port in before && port in after then WithFields(ds, port, before[port], after[port], |FIELDS|)
    else ds + OneIf(Difference(Unrelated, Presence, Some(port), Flag(port in before), Flag(port in after), Warning))
  }

  ghost function WithOthers(ds: seq<Difference>, before: map<Id, Interface>, after: map<Id, Interface>, ports: seq<Id>,
                            n: nat): seq<Difference>
    requires n <= |ports|
  {
    if n == 0 then ds else WithPort(WithOthers(ds, before, after, ports, n - 1), before, after, ports[n - 1])
  }

  /** The configuration and what hangs on the target. Only a description leaves attachments alone; a change of the
      running text is expected when there is something to save. */
  ghost function WithTexts(ds: seq<Difference>, kind: Kind, before: Snapshot, after: Snapshot, requiresSave: bool):
      seq<Difference> {
    var port := Some(after.target.port);
    var disruptive := if kind == DescriptionSet then Warning else AsExpected;
    ds + OneIf(Difference(Configuration, RunningText, None, Number(before.running), Number(after.running),
                          if requiresSave then AsExpected else Info))
    + OneIf(Difference(Configuration, StartupText, None, Number(before.startup), Number(after.startup), Warning))
    + OneIf(Difference(Topology, Attachments, port, Ids(SortedIds(Elems(before.attached))),
                       Ids(SortedIds(Elems(after.attached))), disruptive))
    + OneIf(Difference(Topology, LearnedBehind, port, Ids(before.learnedBehind), Ids(after.learnedBehind), disruptive))
  }

  ghost function WithHealth(ds: seq<Difference>, before: Snapshot, after: Snapshot): seq<Difference> {
    ds + OneIf(Difference(Topology, OtherTopology, None, Number(before.otherTopology), Number(after.otherTopology),
                          Warning))
    + OneIf(Difference(Health, DeviceState, None, Text(before.deviceHealth), Text(after.deviceHealth), Warning))
    + OneIf(Difference(Health, TargetState, Some(after.target.port), Text(before.targetHealth),
                       Text(after.targetHealth), Warning))
    + OneIf(Difference(Health, ConnectionState, None, Text(before.connection), Text(after.connection), Warning))
  }

  ghost function WithRest(ds: seq<Difference>, kind: Kind, before: Snapshot, after: Snapshot, requiresSave: bool):
      seq<Difference> {
    WithHealth(WithTexts(ds, kind, before, after, requiresSave), before, after)
  }

  /** A target error counter that went up is listed once more. */
  ghost function WithErrors(ds: seq<Difference>, before: Interface, after: Interface): seq<Difference> {
    if after.errorTotal <= before.errorTotal then ds
    else ds + OneIf(Difference(Health, MoreErrors, Some(after.port), Number(before.errorTotal),
                               Number(after.errorTotal), Warning))
  }

  /** Everything the comparison lists. */
  ghost function AllDifferences(kind: Kind, before: Snapshot, after: Snapshot, requiresSave: bool): seq<Difference> {
    var was, now := ByPort(before.others), ByPort(after.others);
    var ports := SortedIds(was.Keys + now.Keys);
    var target := WithTarget([], kind, before.target, after.target, |FIELDS|);
    var interfaces := WithOthers(target, was, now, ports, |ports|);
    WithErrors(WithRest(interfaces, kind, before, after, requiresSave), before.target, after.target)
  }

  // ----- when nothing is listed, and when no warning is -----

  /** Nothing in it is a warning. */
  ghost predicate Clean(ds: seq<Difference>) {
    forall d :: d in ds ==> d.assessment != Warning
  }

  lemma CleanNext(ds: seq<Difference>, d: Difference)
    ensures Clean(ds + OneIf(d)) <==> Clean(ds) && (d.before == d.after || d.assessment != Warning)
    ensures ds + OneIf(d) == [] <==> ds == [] && d.before == d.after
  {
    assert forall x :: x in ds + OneIf(d) <==> x in ds || (x == d && d.before != d.after);
  }

  lemma EmptyWarnings(f: Findings)
    requires Genuine(f)
    ensures f.warnings == [] <==> Clean(f.differences)
  {
    if f.warnings != [] {
      assert f.warnings[0] in f.warnings;
    }
  }

  ghost predicate SameUpTo(before: Interface, after: Interface, skip: set<Field>, n: nat)
    requires n <= |FIELDS|
  {
    forall j :: 0 <= j < n && FIELDS[j] !in skip ==> Get(FIELDS[j], before) == Get(FIELDS[j], after)
  }

  lemma SameNext(before: Interface, after: Interface, skip: set<Field>, n: nat)
    requires n < |FIELDS|
    ensures SameUpTo(before, after, skip, n + 1) <==>
            SameUpTo(before, after, skip, n) &&
              (FIELDS[n] in skip || Get(FIELDS[n], before) == Get(FIELDS[n], after))
  {
  }

  /** Comparing field by field down the list compares every field. */
  lemma EveryField(a: Interface, b: Interface, skip: set<Field>)
    ensures (forall x: Field :: x !in skip ==> Get(x, a) == Get(x, b)) <==> SameUpTo(a, b, skip, |FIELDS|)
  {
    if SameUpTo(a, b, skip, |FIELDS|) {
      forall x: Field | x !in skip ensures Get(x, a) == Get(x, b) {
        var j := match x
          case AdminState => 0 case OperState => 1 case DescriptionText => 2 case Vlan => 3 case Speed => 4
          case Duplex => 5 case PoeAdmin => 6 case PoeOper => 7 case ErrorTotal => 8 case LearnedMacCount => 9;
        assert FIELDS[j] == x;
      }
    }
  }

  lemma {:induction false} TargetClean(kind: Kind, before: Interface, after: Interface, n: nat)
    requires n <= |FIELDS|
    ensures WithTarget([], kind, before, after, n) == [] <==> SameUpTo(before, after, {}, n)
    ensures Clean(WithTarget([], kind, before, after, n)) <==> SameUpTo(before, after, Allowed(kind), n)
  {
    if n > 0 {
      TargetClean(kind, before, after, n - 1);
      CleanNext(WithTarget([], kind, before, after, n - 1), OnTarget(kind, before, after, FIELDS[n - 1]));
      SameNext(before, after, {}, n - 1);
      SameNext(before, after, Allowed(kind), n - 1);
    }
  }

  lemma {:induction false} FieldsClean(ds: seq<Difference>, port: Id, before: Interface, after: Interface, n: nat)
    requires n <= |FIELDS|
    ensures WithFields(ds, port, before, after, n) == [] <==> ds == [] && SameUpTo(before, after, {}, n)
    ensures Clean(WithFields(ds, port, before, after, n)) <==> Clean(ds) && SameUpTo(before, after, {}, n)
  {
    if n > 0 {
      var x := FIELDS[n - 1];
      FieldsClean(ds, port, before, after, n - 1);
      CleanNext(WithFields(ds, port, before, after, n - 1),
                Difference(Unrelated, Property(x), Some(port), Get(x, before), Get(x, after), Warning));
      SameNext(before, after, {}, n - 1);
    }
  }

  lemma PortClean(ds: seq<Difference>, before: map<Id, Interface>, after: map<Id, Interface>, port: Id)
    requires port in before || port in after
    ensures WithPort(ds, before, after, port) == [] <==> ds == [] && SameAt(before, after, port)
    ensures Clean(WithPort(ds, before, after, port)) <==> Clean(ds) && SameAt(before, after, port)
  {
    if port in before && port in after {
      FieldsClean(ds, port, before[port], after[port], |FIELDS|);
      EveryField(before[port], after[port], {});
    } else {
      CleanNext(ds, Difference(Unrelated, Presence, Some(port), Flag(port in before), Flag(port in after), Warning));
    }
  }

  ghost predicate PortsSame(before: map<Id, Interface>, after: map<Id, Interface>, ports: seq<Id>, n: nat)
    requires n <= |ports|
  {
    forall i :: 0 <= i < n ==> SameAt(before, after, ports[i])
  }

  lemma PortsSameNext(before: map<Id, Interface>, after: map<Id, Interface>, ports: seq<Id>, n: nat)
    requires n < |ports|
    ensures PortsSame(before, after, ports, n + 1) <==>
            PortsSame(before, after, ports, n) && SameAt(before, after, ports[n])
  {
  }

  lemma {:induction false} OthersClean(ds: seq<Difference>, before: map<Id, Interface>, after: map<Id, Interface>,
                                       ports: seq<Id>, n: nat)
    requires n <= |ports| && forall p :: p in ports ==> p in before || p in after
    ensures WithOthers(ds, before, after, ports, n) == [] <==> ds == [] && PortsSame(before, after, ports, n)
    ensures Clean(WithOthers(ds, before, after, ports, n)) <==> Clean(ds) && PortsSame(before, after, ports, n)
  {
    if n > 0 {
      OthersClean(ds, before, after, ports, n - 1);
      PortClean(WithOthers(ds, before, after, ports, n - 1), before, after, ports[n - 1]);
      PortsSameNext(before, after, ports, n - 1);
    }
  }

  lemma SamePorts(was: map<Id, Interface>, now: map<Id, Interface>, ports: seq<Id>)
    requires forall p :: p in ports <==> p in was || p in now
    ensures PortsSame(was, now, ports, |ports|) <==>
            SameOthers(was, now, was.Keys + now.Keys)
    ensures SameOthers(was, now, was.Keys + now.Keys) <==> was.Keys == now.Keys && SameOthers(was, now, was.Keys)
  {
    assert forall p :: p in ports <==> exists i :: 0 <= i < |ports| && ports[i] == p;
    if was.Keys == now.Keys {
      assert was.Keys + now.Keys == was.Keys;
    }
  }

  lemma CleanFour(ds: seq<Difference>, a: Difference, b: Difference, c: Difference, d: Difference)
    ensures var all := ds + OneIf(a) + OneIf(b) + OneIf(c) + OneIf(d);
            && (all == [] <==> ds == [] && a.before == a.after && b.before == b.after && c.before == c.after &&
                               d.before == d.after)
            && (Clean(all) <==> Clean(ds) && (forall x :: x in [a, b, c, d] ==>
                                              x.before == x.after || x.assessment != Warning))
  {
    CleanNext(ds, a);
    CleanNext(ds + OneIf(a), b);
    CleanNext(ds + OneIf(a) + OneIf(b), c);
    CleanNext(ds + OneIf(a) + OneIf(b) + OneIf(c), d);
  }

  lemma TextsClean(ds: seq<Difference>, kind: Kind, before: Snapshot, after: Snapshot, requiresSave: bool)
    ensures WithTexts(ds, kind, before, after, requiresSave) == [] <==>
            ds == [] && before.running == after.running && before.startup == after.startup &&
            SortedIds(Elems(before.attached)) == SortedIds(Elems(after.attached)) &&
            before.learnedBehind == after.learnedBehind
    ensures Clean(WithTexts(ds, kind, before, after, requiresSave)) <==>
            Clean(ds) && before.startup == after.startup &&
            (kind == DescriptionSet ==> SortedIds(Elems(before.attached)) == SortedIds(Elems(after.attached)) &&
                                        before.learnedBehind == after.learnedBehind)
  {
    var port := Some(after.target.port);
    var disruptive := if kind == DescriptionSet then Warning else AsExpected;
    CleanFour(ds, Difference(Configuration, RunningText, None, Number(before.running), Number(after.running),
                             if requiresSave then AsExpected else Info),
              Difference(Configuration, StartupText, None, Number(before.startup), Number(after.startup), Warning),
              Difference(Topology, Attachments, port, Ids(SortedIds(Elems(before.attached))),
                         Ids(SortedIds(Elems(after.attached))), disruptive),
              Difference(Topology, LearnedBehind, port, Ids(before.learnedBehind), Ids(after.learnedBehind),
                         disruptive));
  }

  lemma HealthClean(ds: seq<Difference>, before: Snapshot, after: Snapshot)
    ensures var same := before.otherTopology == after.otherTopology && before.deviceHealth == after.deviceHealth &&
                before.targetHealth == after.targetHealth && before.connection == after.connection;
            && (WithHealth(ds, before, after) == [] <==> ds == [] && same)
            && (Clean(WithHealth(ds, before, after)) <==> Clean(ds) && same)
  {
    CleanFour(ds, Difference(Topology, OtherTopology, None, Number(before.otherTopology), Number(after.otherTopology),
                             Warning),
              Difference(Health, DeviceState, None, Text(before.deviceHealth), Text(after.deviceHealth), Warning),
              Difference(Health, TargetState, Some(after.target.port), Text(before.targetHealth),
                         Text(after.targetHealth), Warning),
              Difference(Health, ConnectionState, None, Text(before.connection), Text(after.connection), Warning));
  }

  lemma RestClean(ds: seq<Difference>, kind: Kind, before: Snapshot, after: Snapshot, requiresSave: bool)
    ensures WithRest(ds, kind, before, after, requiresSave) == [] <==>
            ds == [] && before.running == after.running &&
            SortedIds(Elems(before.attached)) == SortedIds(Elems(after.attached)) &&
            before.learnedBehind == after.learnedBehind && RestAgrees(before, after)
    ensures Clean(WithRest(ds, kind, before, after, requiresSave)) <==>
            Clean(ds) && RestAgrees(before, after) &&
            (kind == DescriptionSet ==> SortedIds(Elems(before.attached)) == SortedIds(Elems(after.attached)) &&
                                        before.learnedBehind == after.learnedBehind)
  {
    TextsClean(ds, kind, before, after, requiresSave);
    HealthClean(WithTexts(ds, kind, before, after, requiresSave), before, after);
  }

  /** A counter that went up differs, outside the declared effects of any operation. */
  lemma ErrorsShow(ds: seq<Difference>, kind: Kind, before: Interface, after: Interface)
    ensures after.errorTotal > before.errorTotal ==>
              ErrorTotal !in Allowed(kind) && Get(ErrorTotal, before) != Get(ErrorTotal, after)
    ensures WithErrors(ds, before, after) == [] <==> ds == [] && after.errorTotal <= before.errorTotal
    ensures Clean(WithErrors(ds, before, after)) <==> Clean(ds) && after.errorTotal <= before.errorTotal
  {
    CleanNext(ds, Difference(Health, MoreErrors, Some(after.port), Number(before.errorTotal), Number(after.errorTotal),
                             Warning));
  }

  /** Nothing is listed exactly for snapshots that agree altogether, and no warning for those that agree outside the
      declared effects. */
  lemma AllClean(kind: Kind, before: Snapshot, after: Snapshot, requiresSave: bool)
    ensures AllDifferences(kind, before, after, requiresSave) == [] <==> Unchanged(before, after)
    ensures Clean(AllDifferences(kind, before, after, requiresSave)) <==> Agrees(kind, before, after)
  {
    var was, now := ByPort(before.others), ByPort(after.others);
    var ports := SortedIds(was.Keys + now.Keys);
    var target := WithTarget([], kind, before.target, after.target, |FIELDS|);
    var interfaces := WithOthers(target, was, now, ports, |ports|);
    TargetClean(kind, before.target, after.target, |FIELDS|);
    EveryField(before.target, after.target, {});
    EveryField(before.target, after.target, Allowed(kind));
    OthersClean(target, was, now, ports, |ports|);
    SamePorts(was, now, ports);
    RestClean(interfaces, kind, before, after, requiresSave);
    ErrorsShow(WithRest(interfaces, kind, before, after, requiresSave), kind, before.target, after.target);
  }

  // ----- the comparison -----

  method CompareTarget(kind: Kind, before: Interface, after: Interface, f: Findings) returns (r: Findings)
    requires Genuine(f)
    ensures Genuine(r) && r.differences == WithTarget(f.differences, kind, before, after, |FIELDS|)
  {
    r := f;
    for i := 0 to |FIELDS|
      invariant Genuine(r) && r.differences == WithTarget(f.differences, kind, before, after, i)
    {
      r := Diff(r, Target, Property(FIELDS[i]), Some(after.port), Get(FIELDS[i], before), Get(FIELDS[i], after),
                if FIELDS[i] in Allowed(kind) then AsExpected else Warning);
    }
  }

  method CompareFields(port: Id, before: Interface, after: Interface, f: Findings) returns (r: Findings)
    requires Genuine(f)
    ensures Genuine(r) && r.differences == WithFields(f.differences, port, before, after, |FIELDS|)
  {
    r := f;
    for i := 0 to |FIELDS|
      invariant Genuine(r) && r.differences == WithFields(f.differences, port, before, after, i)
    {
      r := Diff(r, Unrelated, Property(FIELDS[i]), Some(port), Get(FIELDS[i], before), Get(FIELDS[i], after), Warning);
    }
  }

  method CompareOthers(before: map<Id, Interface>, after: map<Id, Interface>, f: Findings) returns (r: Findings)
    requires Genuine(f)
    ensures Genuine(r)
    ensures var ports := SortedIds(before.Keys + after.Keys);
            r.differences == WithOthers(f.differences, before, after, ports, |ports|)
    ensures r.differences == [] <==> f.differences == [] && SameOthers(before, after, before.Keys + after.Keys)
    ensures r.warnings == [] <==> f.warnings == [] && SameOthers(before, after, before.Keys + after.Keys)
  {
    r := f;
    var ports := SortedIds(before.Keys + after.Keys);
    for i := 0 to |ports|
      invariant Genuine(r) && r.differences == WithOthers(f.differences, before, after, ports, i)
    {
      var port := ports[i];
      if port !in before || port !in after {
        r := Diff(r, Unrelated, Presence, Some(port), Flag(port in before), Flag(port in after), Warning);
      } else {
        r := CompareFields(port, before[port], after[port], r);
      }
    }
    OthersClean(f.differences, before, after, ports, |ports|);
    SamePorts(before, after, ports);
    EmptyWarnings(f);
    EmptyWarnings(r);
  }

  /** Everything but the interfaces. */
  method CompareRest(kind: Kind, before: Snapshot, after: Snapshot, requiresSave: bool, f: Findings)
    returns (r: Findings)
    requires Genuine(f)
    ensures Genuine(r) && r.differences == WithRest(f.differences, kind, before, after, requiresSave)
  {
    var port := Some(after.target.port);
    var disruptive := if kind != DescriptionSet then AsExpected else Warning;
    r := Diff(f, Configuration, RunningText, None, Number(before.running), Number(after.running),
      if requiresSave then AsExpected else Info);
    r := Diff(r, Configuration, StartupText, None, Number(before.startup), Number(after.startup), Warning);
    r := Diff(r, Topology, Attachments, port, Ids(SortedIds(Elems(before.attached))),
      Ids(SortedIds(Elems(after.attached))), disruptive);
    r := Diff(r, Topology, LearnedBehind, port, Ids(before.learnedBehind), Ids(after.learnedBehind), disruptive);
    r := Diff(r, Topology, OtherTopology, None, Number(before.otherTopology), Number(after.otherTopology), Warning);
    r := Diff(r, Health, DeviceState, None, Text(before.deviceHealth), Text(after.deviceHealth), Warning);
    r := Diff(r, Health, TargetState, port, Text(before.targetHealth), Text(after.targetHealth), Warning);
    r := Diff(r, Health, ConnectionState, None, Text(before.connection), Text(after.connection), Warning);
  }

  method CompareAll(kind: Kind, before: Snapshot, after: Snapshot, requiresSave: bool) returns (f: Findings)
    ensures Genuine(f) && f.differences == AllDifferences(kind, before, after, requiresSave)
  {
    f := CompareTarget(kind, before.target, after.target, Findings([], []));
    f := CompareOthers(ByPort(before.others), ByPort(after.others), f);
    f := CompareRest(kind, before, after, requiresSave, f);
    if after.target.errorTotal > before.target.errorTotal {
      f := Diff(f, Health, MoreErrors, Some(after.target.port), Number(before.target.errorTotal),
        Number(after.target.errorTotal), Warning);
    }
  }

  /** `compare_snapshots`. */
  method CompareSnapshots(kind: Kind, value: string, before: Snapshot, after: Snapshot, requiresSave: bool)
    returns (c: Comparison)
    ensures c.direct == DirectOutcome(kind, value, after.target)
    ensures c.differences == AllDifferences(kind, before, after, requiresSave)
    ensures c.warnings == [] <==> Agrees(kind, before, after)
    ensures c.differences == [] <==> Unchanged(before, after)
    ensures Genuine(Findings(c.differences, c.warnings))
  {
    var f := CompareAll(kind, before, after, requiresSave);
    AllClean(kind, before, after, requiresSave);
    EmptyWarnings(f);
    c := Comparison(DirectOutcome(kind, value, after.target), f.differences, f.warnings);
  }

  /** The snapshot shows the interface's own configuration as it is. */
  predicate ShowsTruly(i: Interface, p: IosConfig.Properties) {
    && i.present && (i.adminState == "down" <==> p.shutdown) && (i.adminState == "up" <==> !p.shutdown)
    && i.description == p.description && InterfaceNames.Lower(i.poeAdmin) == p.poe
  }

  /** On a snapshot that shows the truth the declared state is met exactly when the operation achieved what it is for,
      but for padding around a description, which the comparison does not forgive. */
  lemma MetMeansAchieved(kind: Kind, value: string, target: Interface, p: IosConfig.Properties)
    requires ShowsTruly(target, p)
    ensures kind != DescriptionSet ==> (DirectOutcome(kind, value, target) == Met <==> Achieved(kind, value, p))
    ensures kind == DescriptionSet ==> (DirectOutcome(kind, value, target) == Met <==> p.description == value)
    ensures DirectOutcome(kind, value, target) == Met ==> Achieved(kind, value, p)
  {
  }

  /** What the operation's own line changes is among its declared effects, and no other configured property is. */
  lemma EffectsAreDeclared(kind: Kind, value: string, before: Interface, after: Interface,
                           p: IosConfig.Properties)
    requires ShowsTruly(before, p) && ShowsTruly(after, ApplyTo(p, Forward(kind, value)))
    ensures before.adminState != after.adminState ==> AdminState in Allowed(kind)
    ensures before.description != after.description ==> DescriptionText in Allowed(kind)
    ensures InterfaceNames.Lower(before.poeAdmin) != InterfaceNames.Lower(after.poeAdmin) ==> PoeAdmin in Allowed(kind)
    ensures AdminState in Allowed(kind) <==> kind == AdminUp || kind == AdminDown
    ensures (DescriptionText in Allowed(kind) <==> kind == DescriptionSet) &&
            (PoeAdmin in Allowed(kind) <==> IsPoe(kind))
    ensures Allowed(kind) !! {Vlan, Speed, Duplex, ErrorTotal}
  {
  }

  /** A session ends `succeeded` exactly when the primitive succeeded, the declared state was observed, and the
      two snapshots agree on everything outside the operation's declared effects. */
  lemma SucceededExactlyWhen(kind: Kind, before: Snapshot, after: Snapshot, c: Comparison,
                             primitive: ChangeSessions.PrimitiveResult)
    requires c.warnings == [] <==> Agrees(kind, before, after)
    ensures ChangeSessions.FinalStatus(primitive, ChangeSessions.AfterCaptured(c.direct == Met, c.warnings != [])) ==
            ChangeSessions.Succeeded <==>
            primitive.PrimitiveReturned? && primitive.success && !primitive.rolledBack && c.direct == Met &&
              Agrees(kind, before, after)
  {
  }

  /** The end of `execute`, once both snapshots are there: compared, and the session settled. */
  method Settle(kind: Kind, value: string, before: Snapshot, after: Snapshot, requiresSave: bool,
                primitive: ChangeSessions.PrimitiveResult)
    returns (c: Comparison, status: ChangeSessions.Status)
    ensures status == ChangeSessions.Succeeded <==>
            primitive.PrimitiveReturned? && primitive.success && !primitive.rolledBack &&
              DirectOutcome(kind, value, after.target) == Met && Agrees(kind, before, after)
    ensures status == ChangeSessions.SucceededWithWarnings <==>
            primitive.PrimitiveReturned? && primitive.success && !primitive.rolledBack &&
              DirectOutcome(kind, value, after.target) == Met && !Agrees(kind, before, after)
    ensures status == ChangeSessions.RolledBack <==> primitive.PrimitiveReturned? && primitive.rolledBack
    ensures ChangeSessions.Terminal(status)
  {
    c := CompareSnapshots(kind, value, before, after, requiresSave);
    status := ChangeSessions.FinalStatus(primitive, ChangeSessions.AfterCaptured(c.direct == Met, c.warnings != []));
    SucceededExactlyWhen(kind, before, after, c, primitive);
  }

  /** Snapshots that are equal differ nowhere. */
  lemma EqualSnapshotsAgree(kind: Kind, s: Snapshot)
    ensures Agrees(kind, s, s) && Unchanged(s, s)
  {
  }
}
