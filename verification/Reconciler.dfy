/** Comparing what a port is observed to carry with what is expected there (`backend/app/reconciliation.py`). */
module Reconciler {
  import opened Common
  import opened TopologyBuilder
  import RE = ReconciliationEvents

  /** An assertion about a port, with the label tokens that matching uses. */
  datatype Claim = Claim(text: string, identified: bool, conflicted: bool, tokens: set<string>)

  /** Significant words: of a label with a vendor and a model, and of a neighbour's own announcement. */
  datatype Labels = Labels(words: (string, Option<string>, Option<string>) -> set<string>,
                           announced: Neighbor -> set<string>)

  datatype Sighting = Sighting(tokens: set<string>)

  predicate ContainsAt(s: string, part: string, i: nat) {
    i + |part| <= |s| && s[i..i + |part|] == part
  }

  predicate Contains(s: string, part: string) {
    exists i: nat :: i <= |s| && ContainsAt(s, part, i)
  }

  /** A shared token, or a long enough token inside another. */
  predicate TokensMatch(left: set<string>, right: set<string>) {
    left != {} && right != {} &&
    (left * right != {} ||
     exists a, b :: a in left && b in right && ((|a| >= 4 && Contains(b, a)) || (|b| >= 4 && Contains(a, b))))
  }

  /** Words of fewer than four letters match only when shared; a longer one also inside another word. */
  lemma ShortWordsMustBeShared(left: set<string>, right: set<string>)
    ensures left * right != {} ==> TokensMatch(left, right)
    ensures (forall t :: t in left || t in right ==> |t| < 4) ==> (TokensMatch(left, right) <==> left * right != {})
    ensures forall a, b :: a in left && b in right && |a| >= 4 && Contains(b, a) ==> TokensMatch(left, right)
  {
  }

  const UNIDENTIFIED: string := "Unidentified device"

  function FirstOn(endpoints: seq<Endpoint>, port: Port): (found: Option<Endpoint>)
    ensures found.Some? ==> found.value in endpoints && found.value.port == port
  {
    if endpoints == [] then None
    else if endpoints[0].port == port then Some(endpoints[0])
    else FirstOn(endpoints[1..], port)
  }

  /** `_observed_for`: from the topology when there is one with an endpoint on the port, else from the raw
      tables. */
  function ObservedFor(topology: Option<seq<Endpoint>>, f: Facts, labels: Labels): Option<Claim> {
    if !f.up then None
    else if topology.Some? && FirstOn(topology.value, f.port).Some? then
      var e := FirstOn(topology.value, f.port).value;
      var identified := Identifies(e.source);
      var text := if identified then e.name else UNIDENTIFIED;
      Some(Claim(text, identified, e.conflicts > 0, labels.words(text, e.vendor, e.model)))
    else if f.cdp != [] then Some(Claim(f.cdp[0].name, true, false, labels.announced(f.cdp[0])))
    else if f.lldp != [] then Some(Claim(f.lldp[0].name, true, false, labels.announced(f.lldp[0])))
    else if f.local.Some? then Some(Claim(f.local.value.name, true, false,
      labels.words(f.local.value.name, None, None)))
    else Some(Claim(UNIDENTIFIED, false, false, labels.words(UNIDENTIFIED, None, None)))
  }

  function Verdict(observed: Option<Claim>, expected: Option<Claim>, sightings: seq<Sighting>,
                   suppressed: bool): (RE.Status, RE.DriftKind) {
    if suppressed then (RE.NotApplicable, RE.NoDrift)
    else if observed.None? && expected.None? then (RE.NotApplicable, RE.NoDrift)
    else if observed.None? then
      if exists s :: s in sightings && TokensMatch(expected.value.tokens, s.tokens) then (RE.Drift, RE.LocationDrift)
      else (RE.ExpectedNotObserved, RE.NoDrift)
    else if expected.None? then (RE.Unexpected, RE.NoDrift)
    else if observed.value.conflicted then (RE.Uncertain, RE.NoDrift)
    else if !observed.value.identified then (RE.Uncertain, RE.NoDrift)
    else if TokensMatch(observed.value.tokens, expected.value.tokens) then (RE.Aligned, RE.NoDrift)
    else (RE.Drift, RE.IdentityDrift)
  }

  lemma TokensMatchSymmetric(left: set<string>, right: set<string>)
    ensures TokensMatch(left, right) <==> TokensMatch(right, left)
  {
    assert left * right == right * left;
  }

  /** The expectation's words were seen on some other port. */
  ghost predicate SeenElsewhere(expected: Claim, sightings: seq<Sighting>) {
    exists s :: s in sightings && TokensMatch(expected.tokens, s.tokens)
  }

  /** When each verdict is given. A port that carries what is expected is aligned only when what it carries has
      identified itself and is in conflict with nothing. */
  lemma VerdictsMean(observed: Option<Claim>, expected: Option<Claim>, sightings: seq<Sighting>, suppressed: bool)
    ensures var v := Verdict(observed, expected, sightings, suppressed);
            var both := !suppressed && observed.Some? && expected.Some?;
            var proven := both && observed.value.identified && !observed.value.conflicted;
            var matching := both && TokensMatch(observed.value.tokens, expected.value.tokens);
            var missing := !suppressed && observed.None? && expected.Some?;
            && (v == (RE.Aligned, RE.NoDrift) <==> proven && matching)
            && (v == (RE.Drift, RE.IdentityDrift) <==> proven && !matching)
            && (v == (RE.Uncertain, RE.NoDrift) <==> both && !proven)
            && (v == (RE.Drift, RE.LocationDrift) <==> missing && SeenElsewhere(expected.value, sightings))
            && (v == (RE.ExpectedNotObserved, RE.NoDrift) <==> missing && !SeenElsewhere(expected.value, sightings))
            && (v == (RE.Unexpected, RE.NoDrift) <==> !suppressed && observed.Some? && expected.None?)
            && (v == (RE.NotApplicable, RE.NoDrift) <==> suppressed || (observed.None? && expected.None?))
  {
  }

  function AsAssertion(c: Option<Claim>): Option<RE.Assertion> {
    if c.Some? then Some(RE.Assertion(c.value.text, c.value.identified)) else None
  }

  /** `reconcile_interface`: the verdict, and separately whether the port changed since last time. */
  function ReconcileInterface(port: Port, observed: Option<Claim>, expected: Option<Claim>, historical: Option<Claim>,
                              sightings: seq<Sighting>, suppressed: bool): RE.Result {
    var (status, drift) := Verdict(observed, expected, sightings, suppressed);
    var wasConnected := historical.Some? && historical.value.text != "No link";
    var summary :=
      if historical.None? then ""
      else if wasConnected != observed.Some? then (if observed.Some? then "came up" else "lost its link")
      else if historical.value.identified && observed.Some? && observed.value.identified &&
        historical.value.text != observed.value.text
      then "announced neighbour changed"
      else "";
    RE.Result(port, status, drift, AsAssertion(observed), AsAssertion(expected), AsAssertion(historical),
      summary != "", summary)
  }

  /** What the port's row is told of: drift, something missing and something unexpected; no other verdict. */
  lemma EventfulVerdicts(observed: Option<Claim>, expected: Option<Claim>, sightings: seq<Sighting>, suppressed: bool)
    ensures RE.Eventful(Verdict(observed, expected, sightings, suppressed).0) <==>
            !suppressed && (observed.Some? || expected.Some?) &&
            (observed.None? || expected.None? ||
             (observed.value.identified && !observed.value.conflicted &&
              !TokensMatch(observed.value.tokens, expected.value.tokens)))
  {
  }

  /** A change of neighbour is news exactly when both the remembered and the present one identified themselves and
      the port either came up or carries another name. */
  lemma NeighbourChangeExactly(port: Port, observed: Option<Claim>, expected: Option<Claim>, historical: Option<Claim>,
                               sightings: seq<Sighting>, suppressed: bool, stored: Option<string>)
    ensures var r := ReconcileInterface(port, observed, expected, historical, sightings, suppressed);
            RE.NeighbourChanged(port) in RE.EventsOf(stored, r) <==>
            && historical.Some? && historical.value.identified && observed.Some? && observed.value.identified
            && (historical.value.text == "No link" || historical.value.text != observed.value.text)
  {
  }

  // ----- an up port's own endpoint is found first -----

  lemma {:induction false} FirstOnJoin(first: seq<Endpoint>, rest: seq<Endpoint>, port: Port)
    ensures FirstOn(first + rest, port) == if FirstOn(first, port).Some? then FirstOn(first, port)
            else FirstOn(rest, port)
  {
    if first == [] {
      assert first + rest == rest;
    } else {
      assert (first + rest)[1..] == first[1..] + rest;
      FirstOnJoin(first[1..], rest, port);
    }
  }

  lemma {:induction false} FoundIfThere(endpoints: seq<Endpoint>, e: Endpoint)
    requires e in endpoints
    ensures FirstOn(endpoints, e.port).Some?
  {
    if endpoints[0] != e {
      FoundIfThere(endpoints[1..], e);
    }
  }

  lemma {:induction false} EndpointListed(rules: Rules, facts: seq<Facts>, k: nat)
    requires k < |facts| && ObservedEndpoint(rules, facts[k]).Some?
    ensures ObservedEndpoint(rules, facts[k]).value in ObservedEndpoints(rules, facts)
  {
    if k < |facts| - 1 {
      EndpointListed(rules, facts[..|facts| - 1], k);
    }
  }

  /** Whatever is listed after the endpoints of this poll, an up port's endpoint is this poll's, and its source is an
      announcement exactly when something announced itself there. */
  lemma FreshEndpointFirst(rules: Rules, interfaces: seq<Interface>, polled: seq<Endpoint>, carried: seq<Endpoint>,
                           t: Telemetry, i: Interface)
    requires ObservedParts(polled) == ObservedEndpoints(rules, FactsOfAll(interfaces, t))
    requires i in interfaces && i.up
    ensures var found := FirstOn(polled + carried, i.port);
            found == FirstOn(polled, i.port) && found.Some? &&
              (Identifies(found.value.source) <==> Announces(t, i.port))
  {
    var n :| 0 <= n < |interfaces| && interfaces[n] == i;
    EndpointListed(rules, FactsOfAll(interfaces, t), n);
    EndpointSource(rules, i, t);
    var e := ObservedEndpoint(rules, FactsOf(i, t)).value;
    var j :| 0 <= j < |polled| && ObservedParts(polled)[j] == e;
    FoundIfThere(polled, polled[j]);
    FirstOnJoin(polled, carried, i.port);
    var found := FirstOn(polled, i.port).value;
    var k :| 0 <= k < |polled| && polled[k] == found;
    assert ObservedParts(polled)[k] in ObservedEndpoints(rules, FactsOfAll(interfaces, t));
    EndpointSources(rules, interfaces, t, ObservedParts(polled)[k]);
  }

  /** The topology the reconciler is given: this poll's endpoints, and whatever the discovery store carried over
      from earlier polls after them. */
  function Given(withTopology: bool, polled: seq<Endpoint>, carried: seq<Endpoint>): Option<seq<Endpoint>> {
    if withTopology then Some(polled + carried) else None
  }

  /** A port on which nothing announced itself in this poll is never called aligned or drifted in identity, whatever
      is carried over, expected, remembered or seen elsewhere, and whichever description it carries. */
  lemma UnannouncedIsNeverIdentified(rules: Rules, interfaces: seq<Interface>, polled: seq<Endpoint>,
                                     carried: seq<Endpoint>, t: Telemetry, i: Interface, withTopology: bool,
                                     labels: Labels, expected: Option<Claim>, historical: Option<Claim>,
                                     sightings: seq<Sighting>, suppressed: bool)
    requires ObservedParts(polled) == ObservedEndpoints(rules, FactsOfAll(interfaces, t)) && i in interfaces
    requires !Announces(t, i.port)
    ensures var observed := ObservedFor(Given(withTopology, polled, carried), FactsOf(i, t), labels);
            var result := ReconcileInterface(i.port, observed, expected, historical, sightings, suppressed);
            && (observed.Some? ==> !observed.value.identified)
            && result.status != RE.Aligned && result.drift != RE.IdentityDrift
            && (i.up && expected.Some? && !suppressed ==> result.status == RE.Uncertain)
  {
    if i.up {
      FreshEndpointFirst(rules, interfaces, polled, carried, t, i);
    }
  }

  /** A port carries something observed exactly when it is up, and that is identified exactly when something announced
      itself there in this poll; with a topology and without. */
  lemma ObservedExactly(rules: Rules, interfaces: seq<Interface>, polled: seq<Endpoint>, carried: seq<Endpoint>,
                        t: Telemetry, i: Interface, withTopology: bool, labels: Labels)
    requires ObservedParts(polled) == ObservedEndpoints(rules, FactsOfAll(interfaces, t)) && i in interfaces
    ensures var observed := ObservedFor(Given(withTopology, polled, carried), FactsOf(i, t), labels);
            (observed.Some? <==> i.up) && (i.up ==> (observed.value.identified <==> Announces(t, i.port)))
  {
    if i.up {
      FreshEndpointFirst(rules, interfaces, polled, carried, t, i);
    }
  }

  /** What was carried over never decides: the observation is the one this poll alone would give. */
  lemma CarriedOverNeverDecides(rules: Rules, interfaces: seq<Interface>, polled: seq<Endpoint>, carried: seq<Endpoint>,
                                t: Telemetry, i: Interface, labels: Labels)
    requires ObservedParts(polled) == ObservedEndpoints(rules, FactsOfAll(interfaces, t)) && i in interfaces
    ensures ObservedFor(Some(polled + carried), FactsOf(i, t), labels) ==
            ObservedFor(Some(polled), FactsOf(i, t), labels)
  {
    if i.up {
      FreshEndpointFirst(rules, interfaces, polled, carried, t, i);
    }
  }

  /** Conversely, a verdict about identity needs a live port, an announcement and an expectation. */
  lemma IdentityVerdictsNeedAnnouncement(rules: Rules, interfaces: seq<Interface>, polled: seq<Endpoint>,
                                         carried: seq<Endpoint>, t: Telemetry, i: Interface, withTopology: bool,
                                         labels: Labels, expected: Option<Claim>, sightings: seq<Sighting>,
                                         suppressed: bool)
    requires ObservedParts(polled) == ObservedEndpoints(rules, FactsOfAll(interfaces, t)) && i in interfaces
    requires var observed := ObservedFor(Given(withTopology, polled, carried), FactsOf(i, t), labels);
             var verdict := Verdict(observed, expected, sightings, suppressed);
             verdict.0 == RE.Aligned || verdict.1 == RE.IdentityDrift
    ensures i.up && expected.Some? && !suppressed && Announces(t, i.port)
  {
    if !Announces(t, i.port) {
      UnannouncedIsNeverIdentified(rules, interfaces, polled, carried, t, i, withTopology, labels, expected, None,
        sightings, suppressed);
    }
  }
}
