/** Failure scenarios of the lab graph: who loses the path from the primary device when an edge or a
    device goes (`backend/app/lab_assurance.py`), and what the reported paths say about it. */
module LabFailures {
  import opened Common
  import opened Walks
  import opened Sorting
  import opened LabGraph

  datatype TargetKind = Uplink | Adjacency | SwitchLoss | GatewayLoss | AccessPointLoss

  datatype Scenario = Scenario(target: Id, kind: TargetKind, affected: seq<Id>)

  function AllIds(devices: seq<Device>): set<Id> {
    set d | d in devices :: d.id
  }

  /** The devices with a path from the primary before any loss. */
  ghost function Baseline(edges: seq<Edge>, primary: Id): set<Id> {
    Component(Graph(edges, None, None), primary)
  }

  ghost function WithoutEdge(edges: seq<Edge>, edge: Id): Pairs {
    Graph(edges, None, Some(edge))
  }

  ghost function WithoutDevice(edges: seq<Edge>, device: Id): Pairs {
    Graph(edges, Some(device), None)
  }

  predicate LosableEdge(e: Edge) {
    e.kind == Physical || e.kind == RoutingAdjacency
  }

  predicate LosableDevice(d: Device, primary: Id) {
    d.id != primary && (d.role == Switch || d.role == Router || d.role == Gateway || d.role == AccessPoint)
  }

  function DeviceKind(d: Device): TargetKind {
    match d.role
    case AccessPoint => AccessPointLoss
    case Gateway => GatewayLoss
    case _ => SwitchLoss
  }

  ghost function EdgeScenario(devices: seq<Device>, edges: seq<Edge>, primary: Id, e: Edge): Scenario {
    Scenario(e.id, if e.kind == RoutingAdjacency then Adjacency else Uplink,
             SortedIds(AllIds(devices) - Component(WithoutEdge(edges, e.id), primary)))
  }

  ghost function DeviceScenario(devices: seq<Device>, edges: seq<Edge>, primary: Id, d: Device): Scenario {
    Scenario(d.id, DeviceKind(d),
             SortedIds(AllIds(devices) - Component(WithoutDevice(edges, d.id), primary) - {d.id}))
  }

  ghost function EdgeScenarios(devices: seq<Device>, edges: seq<Edge>, primary: Id, upTo: nat): seq<Scenario>
    requires upTo <= |edges|
  {
    if upTo == 0 then []
    else EdgeScenarios(devices, edges, primary, upTo - 1) +
         (if LosableEdge(edges[upTo - 1]) then [EdgeScenario(devices, edges, primary, edges[upTo - 1])] else [])
  }

  ghost function DeviceScenarios(devices: seq<Device>, edges: seq<Edge>, primary: Id, upTo: nat): seq<Scenario>
    requires upTo <= |devices|
  {
    if upTo == 0 then []
    else DeviceScenarios(devices, edges, primary, upTo - 1) +
         (if LosableDevice(devices[upTo - 1], primary)
          then [DeviceScenario(devices, edges, primary, devices[upTo - 1])] else [])
  }

  /** The edge and device scenarios of `_failures`, in the order they are appended. */
  method Failures(devices: seq<Device>, edges: seq<Edge>) returns (result: seq<Scenario>)
    ensures FirstPrimary(devices).None? ==> result == []
    ensures FirstPrimary(devices).Some? ==>
              var primary := FirstPrimary(devices).value.id;
              result == EdgeScenarios(devices, edges, primary, |edges|) +
                DeviceScenarios(devices, edges, primary, |devices|)
  {
    result := [];
    var first := FirstPrimary(devices);
    if first.None? {
      return;
    }
    var primary := first.value.id;
    var allIds := AllIds(devices);
    for i := 0 to |edges|
      invariant result == EdgeScenarios(devices, edges, primary, i)
    {
      if LosableEdge(edges[i]) {
        var reachable := Reachable(primary, edges, None, Some(edges[i].id));
        result := result + [Scenario(edges[i].id, if edges[i].kind == RoutingAdjacency then Adjacency else Uplink,
                                     SortedIds(allIds - reachable))];
      }
    }
    for i := 0 to |devices|
      invariant result == EdgeScenarios(devices, edges, primary, |edges|) + DeviceScenarios(devices, edges, primary, i)
    {
      if LosableDevice(devices[i], primary) {
        var reachable := Reachable(primary, edges, Some(devices[i].id), None);
        result := result + [Scenario(devices[i].id, DeviceKind(devices[i]),
                                     SortedIds(allIds - reachable - {devices[i].id}))];
      }
    }
  }

  ghost predicate TellsOfEdge(devices: seq<Device>, edges: seq<Edge>, primary: Id, e: Edge, s: Scenario) {
    && s.target == e.id
    && ((e.kind == Physical && s.kind == Uplink) || (e.kind == RoutingAdjacency && s.kind == Adjacency))
    && s.affected == SortedIds(AllIds(devices) - Component(WithoutEdge(edges, e.id), primary))
  }

  /** Which edges and devices the scenarios are about, and as what each is reported. */
  lemma {:induction false} EdgesReported(devices: seq<Device>, edges: seq<Edge>, primary: Id, upTo: nat, s: Scenario)
    requires upTo <= |edges|
    ensures s in EdgeScenarios(devices, edges, primary, upTo) <==>
            exists e :: e in edges[..upTo] && TellsOfEdge(devices, edges, primary, e, s)
  {
    if upTo > 0 {
      var last := edges[upTo - 1];
      EdgesReported(devices, edges, primary, upTo - 1, s);
      assert edges[..upTo] == edges[..upTo - 1] + [last];
      assert LosableEdge(last) && s == EdgeScenario(devices, edges, primary, last) <==>
        TellsOfEdge(devices, edges, primary, last, s);
    }
  }

  ghost predicate TellsOfDevice(devices: seq<Device>, edges: seq<Edge>, primary: Id, d: Device, s: Scenario) {
    && s.target == d.id && d.id != primary
    && (((d.role == Switch || d.role == Router) && s.kind == SwitchLoss) ||
        (d.role == Gateway && s.kind == GatewayLoss) || (d.role == AccessPoint && s.kind == AccessPointLoss))
    && s.affected == SortedIds(AllIds(devices) - Component(WithoutDevice(edges, d.id), primary) - {d.id})
  }

  lemma {:induction false} DevicesReported(devices: seq<Device>, edges: seq<Edge>, primary: Id, upTo: nat, s: Scenario)
    requires upTo <= |devices|
    ensures s in DeviceScenarios(devices, edges, primary, upTo) <==>
            exists d :: d in devices[..upTo] && TellsOfDevice(devices, edges, primary, d, s)
  {
    if upTo > 0 {
      var last := devices[upTo - 1];
      DevicesReported(devices, edges, primary, upTo - 1, s);
      assert devices[..upTo] == devices[..upTo - 1] + [last];
      assert LosableDevice(last, primary) && s == DeviceScenario(devices, edges, primary, last) <==>
        TellsOfDevice(devices, edges, primary, last, s);
    }
  }

  // ----- losing one edge -----

  ghost predicate UniqueId(edges: seq<Edge>, e: Edge) {
    e in edges && forall f :: f in edges && f.id == e.id ==> f == e
  }

  /** The devices that had a path and lose it. */
  ghost function LostByEdge(edges: seq<Edge>, primary: Id, edge: Id): set<Id> {
    Baseline(edges, primary) - Component(WithoutEdge(edges, edge), primary)
  }

  /** The edge is the only link between its two sides of the primary's component. */
  ghost predicate IsBridge(edges: seq<Edge>, primary: Id, e: Edge) {
    && Keeps(e, None, None)
    && e.from in Baseline(edges, primary)
    && !Connected(WithoutEdge(edges, e.id), e.from, e.to)
  }

  lemma GraphWithEdge(edges: seq<Edge>, e: Edge)
    requires UniqueId(edges, e)
    ensures Graph(edges, None, None) ==
            WithoutEdge(edges, e.id) + (if Keeps(e, None, None) then {(e.from, e.to)} else {})
  {
    var whole, rest := Graph(edges, None, None), WithoutEdge(edges, e.id);
    forall p | p in whole ensures p in rest || (Keeps(e, None, None) && p == (e.from, e.to)) {
      var f :| f in edges && Keeps(f, None, None) && p == (f.from, f.to);
      if f.id != e.id { assert Keeps(f, None, Some(e.id)); }
    }
    forall p | p in rest ensures p in whole {
      var f :| f in edges && Keeps(f, None, Some(e.id)) && p == (f.from, f.to);
      assert Keeps(f, None, None);
    }
  }

  /** Whatever is lost, one endpoint of the edge is lost and the other kept. */
  lemma OneEndpointLost(edges: seq<Edge>, primary: Id, e: Edge)
    requires UniqueId(edges, e) && LostByEdge(edges, primary, e.id) != {}
    ensures Keeps(e, None, None)
    ensures (e.from in LostByEdge(edges, primary, e.id)) != (e.to in LostByEdge(edges, primary, e.id))
    ensures var kept := Component(WithoutEdge(edges, e.id), primary); (e.from in kept) != (e.to in kept)
  {
    var whole, rest := Graph(edges, None, None), WithoutEdge(edges, e.id);
    var kept := Component(rest, primary);
    GraphWithEdge(edges, e);
    ComponentClosed(rest, primary);
    if Keeps(e, None, None) && (e.from in kept <==> e.to in kept) {
      ClosedExtended(rest, kept, e.from, e.to);
      ComponentWithin(whole, kept, primary);
    }
    assert !Keeps(e, None, None) ==> whole == rest;
    var near, far := if e.from in kept then e.from else e.to, if e.from in kept then e.to else e.from;
    Monotone(rest, whole, primary, near);
    Step(whole, primary, near, far);
  }

  /** The lost devices are exactly those the lost endpoint still reaches without the edge. */
  lemma LostSideOfEdge(edges: seq<Edge>, primary: Id, e: Edge, far: Id)
    requires UniqueId(edges, e) && (far == e.from || far == e.to)
    requires far in LostByEdge(edges, primary, e.id)
    ensures LostByEdge(edges, primary, e.id) == Component(WithoutEdge(edges, e.id), far)
  {
    var whole, rest := Graph(edges, None, None), WithoutEdge(edges, e.id);
    var kept, side := Component(rest, primary), Component(rest, far);
    OneEndpointLost(edges, primary, e);
    GraphWithEdge(edges, e);
    ComponentClosed(rest, primary);
    ComponentClosed(rest, far);
    ClosedUnion(rest, kept, side);
    ClosedExtended(rest, kept + side, e.from, e.to);
    ComponentWithin(whole, kept + side, primary);
    forall v: Id | v in side ensures v in Baseline(edges, primary) && v !in kept {
      Monotone(rest, whole, far, v);
      Transitive(whole, primary, far, v);
      if v in kept {
        Symmetric(rest, far, v);
        Transitive(rest, primary, v, far);
      }
    }
  }

  /** Losing an edge cuts something off exactly when the edge is a bridge of the primary's component. */
  lemma LostExactlyByBridges(edges: seq<Edge>, primary: Id, e: Edge)
    requires UniqueId(edges, e)
    ensures LostByEdge(edges, primary, e.id) != {} <==> IsBridge(edges, primary, e)
  {
    var whole, rest := Graph(edges, None, None), WithoutEdge(edges, e.id);
    GraphWithEdge(edges, e);
    ComponentClosed(whole, primary);
    if LostByEdge(edges, primary, e.id) != {} {
      OneEndpointLost(edges, primary, e);
      assert Adjacent(whole, e.from, e.to);
      if Connected(rest, e.from, e.to) {
        Symmetric(rest, e.from, e.to);
        if e.from in Component(rest, primary) {
          Transitive(rest, primary, e.from, e.to);
        } else {
          Transitive(rest, primary, e.to, e.from);
        }
      }
    } else if IsBridge(edges, primary, e) {
      assert Adjacent(whole, e.from, e.to);
      assert e.to in Baseline(edges, primary) && e.to !in LostByEdge(edges, primary, e.id);
      assert e.from in Baseline(edges, primary) && e.from !in LostByEdge(edges, primary, e.id);
      assert e.from in Component(rest, primary) && e.to in Component(rest, primary);
      Symmetric(rest, primary, e.from);
      Transitive(rest, e.from, primary, e.to);
    }
  }

  lemma SubgraphWithoutEdge(edges: seq<Edge>, edge: Id)
    ensures WithoutEdge(edges, edge) <= Graph(edges, None, None)
  {
    forall p | p in WithoutEdge(edges, edge) ensures p in Graph(edges, None, None) {
      var f :| f in edges && Keeps(f, None, Some(edge)) && p == (f.from, f.to);
      assert Keeps(f, None, None);
    }
  }

  /** `affectedIds` also lists every device that had no path to begin with. */
  lemma AffectedByEdge(devices: seq<Device>, edges: seq<Edge>, primary: Id, e: Edge, v: Id)
    ensures v in EdgeScenario(devices, edges, primary, e).affected <==>
            v in AllIds(devices) && (v !in Baseline(edges, primary) || v in LostByEdge(edges, primary, e.id))
  {
    if v in Component(WithoutEdge(edges, e.id), primary) {
      SubgraphWithoutEdge(edges, e.id);
      Monotone(WithoutEdge(edges, e.id), Graph(edges, None, None), primary, v);
    }
  }

  // ----- losing one device -----

  ghost function LostByDevice(edges: seq<Edge>, primary: Id, device: Id): set<Id> {
    Baseline(edges, primary) - Component(WithoutDevice(edges, device), primary) - {device}
  }

  /** A device loss cuts off exactly the devices all of whose walks from the primary visit it. */
  lemma LostExactlyBehindDevice(edges: seq<Edge>, primary: Id, device: Id, v: Id)
    requires device != primary && v != device && v in Baseline(edges, primary)
    ensures v in LostByDevice(edges, primary, device) <==>
            forall walk :: Joins(Graph(edges, None, None), walk, primary, v) ==> device in walk
  {
    var whole, rest := Graph(edges, None, None), WithoutDevice(edges, device);
    if v in Component(rest, primary) {
      var walk :| Joins(rest, walk, primary, v);
      forall i | 0 <= i < |walk| - 1 ensures Adjacent(whole, walk[i], walk[i + 1]) && walk[i] != device {
        assert Adjacent(rest, walk[i], walk[i + 1]);
        var f :| f in edges && Keeps(f, Some(device), None) && Touches(f, walk[i], walk[i + 1]);
        assert Keeps(f, None, None);
      }
      assert Joins(whole, walk, primary, v) && device !in walk;
    } else {
      forall walk | Joins(whole, walk, primary, v) ensures device in walk {
        if device !in walk {
          forall i | 0 <= i < |walk| - 1 ensures Adjacent(rest, walk[i], walk[i + 1]) {
            assert Adjacent(whole, walk[i], walk[i + 1]);
            var f :| f in edges && Keeps(f, None, None) && Touches(f, walk[i], walk[i + 1]);
            assert Touches(f, walk[i], walk[i + 1]) && walk[i] != device && walk[i + 1] != device;
            assert Keeps(f, Some(device), None);
          }
          assert Joins(rest, walk, primary, v);
        }
      }
    }
  }

  /** Losing a device affects, itself apart, everything that losing any one of its edges affects. */
  lemma DeviceLossCoversEdgeLoss(devices: seq<Device>, edges: seq<Edge>, primary: Id, d: Device, e: Edge, v: Id)
    requires UniqueId(edges, e) && (e.from == d.id || e.to == d.id)
    requires v in EdgeScenario(devices, edges, primary, e).affected && v != d.id
    ensures v in DeviceScenario(devices, edges, primary, d).affected
  {
    var small, large := WithoutDevice(edges, d.id), WithoutEdge(edges, e.id);
    forall p | p in small ensures p in large {
      var f :| f in edges && Keeps(f, Some(d.id), None) && p == (f.from, f.to);
      assert Keeps(f, None, Some(e.id));
    }
    if v in Component(small, primary) {
      Monotone(small, large, primary, v);
    }
  }

  // ----- what the reported paths say about it -----

  ghost predicate UsesExpected(chain: seq<ChainLink>) {
    exists i :: 0 <= i < |chain| && chain[i].via.Some? && chain[i].via.value.kind == Expected
  }

  /** Any route to a device that the loss of an edge affects uses that edge, unless it leans on an
      EXPECTED edge, which failure analysis ignores. */
  lemma RouteUsesLostEdge(edges: seq<Edge>, primary: Id, edge: Id, target: Id, chain: seq<ChainLink>)
    requires IsRoute(edges, primary, target, chain) && target in LostByEdge(edges, primary, edge)
    ensures UsesExpected(chain) || exists i :: 0 <= i < |chain| && chain[i].via.Some? && chain[i].via.value.id == edge
  {
    if !UsesExpected(chain) && forall i :: 0 <= i < |chain| && chain[i].via.Some? ==> chain[i].via.value.id != edge {
      var rest := WithoutEdge(edges, edge);
      forall i | 0 <= i < |chain| - 1 ensures Adjacent(rest, Nodes(chain)[i], Nodes(chain)[i + 1]) {
        assert Linked(edges, chain[i], chain[i + 1]);
        assert Keeps(chain[i + 1].via.value, None, Some(edge));
      }
      assert Joins(rest, Nodes(chain), primary, target);
    }
  }

  lemma RoutePassesLostDevice(edges: seq<Edge>, primary: Id, device: Id, target: Id, chain: seq<ChainLink>)
    requires IsRoute(edges, primary, target, chain) && target in LostByDevice(edges, primary, device)
    ensures UsesExpected(chain) || device in Nodes(chain)
  {
    if !UsesExpected(chain) && device !in Nodes(chain) {
      var rest := WithoutDevice(edges, device);
      forall i | 0 <= i < |chain| - 1 ensures Adjacent(rest, Nodes(chain)[i], Nodes(chain)[i + 1]) {
        assert Linked(edges, chain[i], chain[i + 1]);
        assert Nodes(chain)[i] != device && Nodes(chain)[i + 1] != device;
        assert Keeps(chain[i + 1].via.value, Some(device), None);
      }
      assert Joins(rest, Nodes(chain), primary, target);
    }
  }

  ghost predicate ExpectedStaysInside(edges: seq<Edge>, nodes: set<Id>) {
    forall e :: e in edges && e.kind == Expected ==> (e.from in nodes <==> e.to in nodes)
  }

  lemma PathStepInside(edges: seq<Edge>, nodes: set<Id>, a: Id, b: Id)
    requires Closed(Graph(edges, None, None), nodes) && ExpectedStaysInside(edges, nodes)
    requires a in nodes && Adjacent(PathGraph(edges), a, b)
    ensures b in nodes
  {
    var e :| e in edges && e.kind != PortChannelMember && Touches(e, a, b);
    if e.kind != Expected {
      assert Keeps(e, None, None);
      assert (e.from, e.to) in Graph(edges, None, None);
      assert Touches(e, a, b);
      assert Adjacent(Graph(edges, None, None), a, b);
    }
  }

  /** Path reports and failure analysis agree on who is reachable exactly when no EXPECTED edge leaves the
      part of the graph that the primary reaches without it. */
  lemma PathsAgreeWithBaseline(edges: seq<Edge>, primary: Id)
    ensures Component(PathGraph(edges), primary) == Baseline(edges, primary) <==>
            ExpectedStaysInside(edges, Baseline(edges, primary))
  {
    var paths, whole := PathGraph(edges), Graph(edges, None, None);
    var base := Baseline(edges, primary);
    ComponentClosed(whole, primary);
    ComponentClosed(paths, primary);
    forall v: Id | v in base ensures v in Component(paths, primary) {
      assert whole <= paths;
      Monotone(whole, paths, primary, v);
    }
    if Component(paths, primary) == base {
      forall e | e in edges && e.kind == Expected ensures e.from in base <==> e.to in base {
        assert (e.from, e.to) in paths;
        assert Adjacent(paths, e.from, e.to) && Adjacent(paths, e.to, e.from);
      }
    }
    if ExpectedStaysInside(edges, base) {
      forall a: Id, b: Id | a in base && Adjacent(paths, a, b) ensures b in base {
        PathStepInside(edges, base, a, b);
      }
      ComponentWithin(paths, base, primary);
    }
  }
}
