/** Turning reconciliation results into events: one event per change of situation, however often the same
    situation is refreshed (`backend/app/reconciliation.py`, `backend/app/intent_store.py`). */
module ReconciliationEvents {
  import opened Common

  type Port = nat

  type Time = int

  datatype Status = Aligned | Drift | ExpectedNotObserved | Unexpected | Uncertain | NotApplicable

  datatype DriftKind = NoDrift | IdentityDrift | LocationDrift

  datatype Assertion = Assertion(text: string, identified: bool)

  datatype Result = Result(port: Port, status: Status, drift: DriftKind, observed: Option<Assertion>,
                           expected: Option<Assertion>,
                           historical: Option<Assertion>, changed: bool, changeSummary: string)

  predicate Eventful(s: Status) {
    s == Drift || s == ExpectedNotObserved || s == Unexpected
  }

  function StatusText(s: Status): string {
    match s
    case Aligned => "aligned"
    case Drift => "drift"
    case ExpectedNotObserved => "expected-not-observed"
    case Unexpected => "unexpected"
    case Uncertain => "uncertain"
    case NotApplicable => "not-applicable"
  }

  function DriftText(d: DriftKind): string {
    match d case NoDrift => "none" case IdentityDrift => "identity" case LocationDrift => "location"
  }

  function LabelText(a: Option<Assertion>): string {
    match a case None => "-" case Some(x) => x.text
  }

  /** `reconciliation_signature`: four texts joined by bars. */
  function Signature(r: Result): string {
    StatusText(r.status) + "|" + (DriftText(r.drift) + "|" + (LabelText(r.observed) + "|" + LabelText(r.expected)))
  }

  // ----- reading a signature back -----

  /** What precedes the first bar. */
  function Head(s: string): string {
    if s == "" || s[0] == '|' then "" else [s[0]] + Head(s[1..])
  }

  predicate NoBar(s: string) {
    forall i :: 0 <= i < |s| ==> s[i] != '|'
  }

  lemma {:induction false} HeadOfJoin(first: string, rest: string)
    requires NoBar(first)
    ensures Head(first + "|" + rest) == first
  {
    if first == "" {
      assert first + "|" + rest == "|" + rest;
    } else {
      assert (first + "|" + rest)[1..] == first[1..] + "|" + rest;
      HeadOfJoin(first[1..], rest);
    }
  }

  lemma StatusTextsDiffer(a: Status, b: Status)
    ensures StatusText(a) == StatusText(b) <==> a == b
    ensures NoBar(StatusText(a))
  {
    assert |StatusText(a)| == |StatusText(b)| ==> a == b;
  }

  lemma DriftTextsDiffer(a: DriftKind, b: DriftKind)
    ensures DriftText(a) == DriftText(b) <==> a == b
    ensures NoBar(DriftText(a))
  {
  }

  /** `was_eventful`: the stored signature's first part names an eventful status. */
  predicate WasEventful(previous: Option<string>) {
    previous.Some? && previous.value != "" &&
    (Head(previous.value) == "drift" || Head(previous.value) == "expected-not-observed" ||
      Head(previous.value) == "unexpected")
  }

  lemma WasEventfulReadsStatus(r: Result)
    ensures WasEventful(Some(Signature(r))) <==> Eventful(r.status)
  {
    StatusTextsDiffer(r.status, Drift);
    StatusTextsDiffer(r.status, ExpectedNotObserved);
    StatusTextsDiffer(r.status, Unexpected);
    HeadOfJoin(StatusText(r.status), DriftText(r.drift) + "|" + (LabelText(r.observed) + "|" + LabelText(r.expected)));
  }

  lemma JoinInjective(first: string, rest: string, first': string, rest': string)
    requires NoBar(first) && NoBar(first')
    requires first + "|" + rest == first' + "|" + rest'
    ensures first == first' && rest == rest'
  {
    HeadOfJoin(first, rest);
    HeadOfJoin(first', rest');
    assert (first + "|" + rest)[|first| + 1..] == rest;
    assert (first' + "|" + rest')[|first'| + 1..] == rest';
  }

  /** The label parts of equal signatures with equal status and drift texts. */
  lemma SameSignatureParts(a: Result, b: Result)
    requires Signature(a) == Signature(b)
    ensures a.status == b.status && a.drift == b.drift
    ensures LabelText(a.observed) + "|" + LabelText(a.expected) == LabelText(b.observed) + "|" + LabelText(b.expected)
  {
    StatusTextsDiffer(a.status, b.status);
    StatusTextsDiffer(b.status, a.status);
    DriftTextsDiffer(a.drift, b.drift);
    DriftTextsDiffer(b.drift, a.drift);
    var tailA := LabelText(a.observed) + "|" + LabelText(a.expected);
    var tailB := LabelText(b.observed) + "|" + LabelText(b.expected);
    JoinInjective(StatusText(a.status), DriftText(a.drift) + "|" + tailA, StatusText(b.status),
      DriftText(b.drift) + "|" + tailB);
    JoinInjective(DriftText(a.drift), tailA, DriftText(b.drift), tailB);
  }

  /** Equal signatures mean equal status, drift and label texts, as long as no observed label contains a bar. */
  lemma SignatureIdentifies(a: Result, b: Result)
    requires NoBar(LabelText(a.observed)) && NoBar(LabelText(b.observed))
    ensures Signature(a) == Signature(b) <==>
            a.status == b.status && a.drift == b.drift &&
            LabelText(a.observed) == LabelText(b.observed) && LabelText(a.expected) == LabelText(b.expected)
  {
    if Signature(a) == Signature(b) {
      SameSignatureParts(a, b);
      JoinInjective(LabelText(a.observed), LabelText(a.expected), LabelText(b.observed), LabelText(b.expected));
    }
  }

  // ----- what a signature does not tell apart -----

  predicate HasBar(s: string) {
    '|' in s
  }

  predicate OtherLabels(a: Result, b: Result) {
    LabelText(a.observed) != LabelText(b.observed) || LabelText(a.expected) != LabelText(b.expected)
  }

  ghost predicate Ambiguous(r: Result) {
    exists b: Result :: Signature(b) == Signature(r) && OtherLabels(b, r)
  }

  function Relabelled(r: Result, observed: string, expected: string): Result {
    r.(observed := Some(Assertion(observed, false)), expected := Some(Assertion(expected, false)))
  }

  /** A bar splits the text that holds it. */
  lemma SplitAtBar(s: string) returns (before: string, after: string)
    requires HasBar(s)
    ensures s == before + "|" + after
  {
    var i :| 0 <= i < |s| && s[i] == '|';
    before, after := s[..i], s[i + 1..];
  }

  /** Only one way to split a text that has its only bar there. */
  lemma OneBarOneSplit(x: string, y: string, x': string, y': string)
    requires !HasBar(x) && !HasBar(y) && x + "|" + y == x' + "|" + y'
    ensures x == x' && y == y'
  {
    var s := x + "|" + y;
    assert s[|x'|] == '|' by {
      assert (x' + "|" + y')[|x'|] == '|';
    }
    assert forall k :: 0 <= k < |s| && k != |x| ==> s[k] in x || s[k] in y;
    assert s[..|x|] == x && s[..|x'|] == x';
    assert s[|x| + 1..] == y && s[|x'| + 1..] == y';
  }

  /** Some other label texts share a situation's signature if and only if one of its own contains a bar. An
      absent label and one that reads "-" are the same text. */
  lemma BarsCollideExactly(r: Result)
    ensures Ambiguous(r) <==> HasBar(LabelText(r.observed)) || HasBar(LabelText(r.expected))
  {
    var observed, expected := LabelText(r.observed), LabelText(r.expected);
    if HasBar(observed) {
      var before, after := SplitAtBar(observed);
      assert before + "|" + (after + "|" + expected) == observed + "|" + expected;
      var b := Relabelled(r, before, after + "|" + expected);
      assert Signature(b) == Signature(r) && OtherLabels(b, r);
    } else if HasBar(expected) {
      var before, after := SplitAtBar(expected);
      assert (observed + "|" + before) + "|" + after == observed + "|" + expected;
      var b := Relabelled(r, observed + "|" + before, after);
      assert Signature(b) == Signature(r) && OtherLabels(b, r);
    } else {
      forall b: Result | Signature(b) == Signature(r) ensures !OtherLabels(b, r) {
        SameSignatureParts(b, r);
        OneBarOneSplit(observed, expected, LabelText(b.observed), LabelText(b.expected));
      }
    }
  }

  // ----- the store -----

  datatype Row = Row(signature: string, status: Status, observed: Option<string>, identified: bool, firstSeen: Time,
                     lastSeen: Time)

  /** The row after one more observation of the port. */
  function Observed(row: Option<Row>, r: Result, at: Time): Row {
    Row(Signature(r), r.status, if r.observed.Some? then Some(r.observed.value.text) else None,
        r.observed.Some? && r.observed.value.identified,
        if row.Some? && row.value.signature == Signature(r) then row.value.firstSeen else at, at)
  }

  datatype Event = NeighbourChanged(port: Port) | Discrepancy(port: Port, status: Status) | Resolved(port: Port)

  /** The events of one result, given the signature stored before it. */
  function EventsOf(previous: Option<string>, r: Result): seq<Event> {
    (if r.changed && r.changeSummary != "" && r.historical.Some? && r.historical.value.identified
        && r.observed.Some? && r.observed.value.identified then [NeighbourChanged(r.port)] else []) +
    (if previous == Some(Signature(r)) then []
     else if Eventful(r.status) then [Discrepancy(r.port, r.status)]
     else if WasEventful(previous) then [Resolved(r.port)]
     else [])
  }

  /** And then the other situation, arriving second, raises neither a discrepancy nor a resolution, though it is
      just as eventful, and alone it would have been reported. */
  lemma CollisionIsSilent(r: Result)
    requires Eventful(r.status) && Ambiguous(r)
    ensures exists b: Result ::
              && Signature(b) == Signature(r) && OtherLabels(b, r) && Eventful(b.status)
              && (forall e :: e in EventsOf(Some(Signature(r)), b) ==> e.NeighbourChanged?)
              && Discrepancy(b.port, b.status) in EventsOf(None, b)
  {
    var b: Result :| Signature(b) == Signature(r) && OtherLabels(b, r);
    SameSignatureParts(b, r);
    var events := EventsOf(None, b);
    assert events[|events| - 1] == Discrepancy(b.port, b.status);
  }

  function RowOf(rows: map<Port, Row>, port: Port): Option<Row> {
    if port in rows then Some(rows[port]) else None
  }

  function SignatureOf(rows: map<Port, Row>, port: Port): Option<string> {
    if port in rows then Some(rows[port].signature) else None
  }

  function RowsAfter(rows: map<Port, Row>, results: seq<Result>, at: Time): map<Port, Row> {
    if results == [] then rows
    else
      var before := RowsAfter(rows, results[..|results| - 1], at);
      var r := results[|results| - 1];
      before[r.port := Observed(RowOf(before, r.port), r, at)]
  }

  function AllEvents(rows: map<Port, Row>, results: seq<Result>, at: Time): seq<Event> {
    if results == [] then []
    else
      var r := results[|results| - 1];
      AllEvents(rows, results[..|results| - 1], at) +
      EventsOf(SignatureOf(RowsAfter(rows, results[..|results| - 1], at), r.port), r)
  }

  class IntentStore {
    /** The reconciliation rows of one device. */
    var rows: map<Port, Row>

    constructor ()
      ensures rows == map[]
    {
      rows := map[];
    }

    /** The first-seen time returned is the one stored before this call. */
    method ObserveReconciliation(r: Result, signature: string, at: Time)
      returns (changed: bool, previous: Option<string>, firstSeen: Option<Time>)
      requires signature == Signature(r)
      modifies this
      ensures rows == old(rows)[r.port := Observed(RowOf(old(rows), r.port), r, at)]
      ensures previous == SignatureOf(old(rows), r.port) && (changed <==> previous != Some(signature))
      ensures firstSeen == if r.port in old(rows) then Some(old(rows)[r.port].firstSeen) else None
    {
      previous := if r.port in rows then Some(rows[r.port].signature) else None;
      firstSeen := if r.port in rows then Some(rows[r.port].firstSeen) else None;
      changed := previous != Some(signature);
      var text := if r.observed.Some? then Some(r.observed.value.text) else None;
      var identified := r.observed.Some? && r.observed.value.identified;
      if r.port in rows {
        var row := rows[r.port];
        rows := rows[r.port := Row(signature, r.status, text, identified,
                                   if row.signature == signature then row.firstSeen else at, at)];
      } else {
        rows := rows[r.port := Row(signature, r.status, text, identified, at, at)];
      }
    }

    method ForgetReconciliation()
      modifies this
      ensures rows == map[]
    {
      rows := map[];
    }

    /** One result: store it, and raise its events. */
    method ObserveOne(r: Result, at: Time) returns (raised: seq<Event>)
      modifies this
      ensures rows == old(rows)[r.port := Observed(RowOf(old(rows), r.port), r, at)]
      ensures raised == EventsOf(SignatureOf(old(rows), r.port), r)
    {
      var changed, previous, _ := ObserveReconciliation(r, Signature(r), at);
      raised := [];
      if r.changed && r.changeSummary != "" && r.historical.Some? && r.historical.value.identified
         && r.observed.Some? && r.observed.value.identified {
        raised := raised + [NeighbourChanged(r.port)];
      }
      if changed {
        if Eventful(r.status) {
          raised := raised + [Discrepancy(r.port, r.status)];
        } else if WasEventful(previous) {
          raised := raised + [Resolved(r.port)];
        }
      }
    }

    /** `reconciliation_events`: every result of a summary in turn. */
    method ReconciliationEvents(results: seq<Result>, at: Time) returns (events: seq<Event>)
      modifies this
      ensures rows == RowsAfter(old(rows), results, at)
      ensures events == AllEvents(old(rows), results, at)
    {
      events := [];
      for i := 0 to |results|
        invariant rows == RowsAfter(old(rows), results[..i], at)
        invariant events == AllEvents(old(rows), results[..i], at)
      {
        assert results[..i + 1][..i] == results[..i];
        var raised := ObserveOne(results[i], at);
        events := events + raised;
      }
      assert results[..|results|] == results;
    }
  }

  // ----- one port over any run -----

  datatype Moment = Seen(result: Result, at: Time) | Forgotten

  type Timeline = seq<Moment>

  function RowAt(t: Timeline): Option<Row> {
    if t == [] then None
    else match t[|t| - 1]
      case Forgotten => None
      case Seen(r, at) => Some(Observed(RowAt(t[..|t| - 1]), r, at))
  }

  function Stored(row: Option<Row>): Option<string> {
    if row.Some? then Some(row.value.signature) else None
  }

  /** The events raised at one moment of the timeline. */
  function Raised(t: Timeline, i: nat): seq<Event>
    requires i < |t|
  {
    match t[i]
    case Forgotten => []
    case Seen(r, _) => EventsOf(Stored(RowAt(t[..i])), r)
  }

  /** What a summary contributes to one port's timeline. */
  function MomentsOf(results: seq<Result>, port: Port, at: Time): Timeline {
    if results == [] then []
    else MomentsOf(results[..|results| - 1], port, at) +
         (if results[|results| - 1].port == port then [Seen(results[|results| - 1], at)] else [])
  }

  /** The store keeps, for each port, the row its own timeline determines, whatever else a summary holds. */
  lemma {:induction false} StoreFollowsTimelines(rows: map<Port, Row>, t: Timeline, results: seq<Result>, port: Port,
                                                 at: Time)
    requires RowOf(rows, port) == RowAt(t)
    ensures RowOf(RowsAfter(rows, results, at), port) == RowAt(t + MomentsOf(results, port, at))
  {
    if results == [] {
      assert t + MomentsOf(results, port, at) == t;
    } else {
      var init, r := results[..|results| - 1], results[|results| - 1];
      StoreFollowsTimelines(rows, t, init, port, at);
      var before := t + MomentsOf(init, port, at);
      if r.port == port {
        assert t + MomentsOf(results, port, at) == before + [Seen(r, at)];
        assert (before + [Seen(r, at)])[..|before|] == before;
      } else {
        assert t + MomentsOf(results, port, at) == before;
      }
    }
  }

  /** The situation just before a moment: none at the beginning and after forgetting. */
  function Previous(t: Timeline, i: nat): Option<Result>
    requires i <= |t|
  {
    if i > 0 && t[i - 1].Seen? then Some(t[i - 1].result) else None
  }

  lemma StoredIsPrevious(t: Timeline, i: nat)
    requires i <= |t|
    ensures Stored(RowAt(t[..i])) == if Previous(t, i).Some? then Some(Signature(Previous(t, i).value)) else None
  {
    if i > 0 {
      assert t[..i][..i - 1] == t[..i - 1];
    }
  }

  datatype EventKind = OfNeighbour | OfDiscrepancy | OfResolution

  function KindOf(e: Event): EventKind {
    match e case NeighbourChanged(_) => OfNeighbour case Discrepancy(_, _) => OfDiscrepancy
      case Resolved(_) => OfResolution
  }

  /** The kinds of events raised at one moment. */
  function KindsRaised(t: Timeline, i: nat): set<EventKind>
    requires i < |t|
  {
    set e | e in Raised(t, i) :: KindOf(e)
  }

  datatype Standing = Troubled | Untroubled

  /** Troubled when the port is seen in an eventful situation. */
  function StandingAt(t: Timeline, i: nat): Standing
    requires i < |t|
  {
    if t[i].Seen? && Eventful(t[i].result.status) then Troubled else Untroubled
  }

  lemma RaisedKinds(stored: Option<string>, r: Result)
    ensures (exists e :: e in EventsOf(stored, r) && KindOf(e) == OfDiscrepancy) <==>
            stored != Some(Signature(r)) && Eventful(r.status)
    ensures (exists e :: e in EventsOf(stored, r) && KindOf(e) == OfResolution) <==>
            stored != Some(Signature(r)) && !Eventful(r.status) && WasEventful(stored)
  {
    var events := EventsOf(stored, r);
    if stored != Some(Signature(r)) {
      if Eventful(r.status) {
        assert events[|events| - 1] == Discrepancy(r.port, r.status) && Discrepancy(r.port, r.status) in events;
      } else if WasEventful(stored) {
        assert events[|events| - 1] == Resolved(r.port) && Resolved(r.port) in events;
      }
    }
  }

  /** A discrepancy fires exactly when the signature changes to that of an eventful situation; a resolution
      exactly on the step from an eventful situation to one that is not. */
  lemma EventsExactlyOnChange(t: Timeline, i: nat)
    requires i < |t|
    ensures OfDiscrepancy in KindsRaised(t, i) <==>
            StandingAt(t, i) == Troubled && (Previous(t, i).Some? ==>
              Signature(Previous(t, i).value) != Signature(t[i].result))
    ensures OfResolution in KindsRaised(t, i) <==>
            t[i].Seen? && StandingAt(t, i) == Untroubled && i > 0 && StandingAt(t, i - 1) == Troubled
  {
    if t[i].Seen? {
      var r := t[i].result;
      var stored := Stored(RowAt(t[..i]));
      StoredIsPrevious(t, i);
      if Previous(t, i).Some? {
        var p := Previous(t, i).value;
        WasEventfulReadsStatus(p);
        WasEventfulReadsStatus(r);
      }
      RaisedKinds(stored, r);
    }
  }

  lemma EventfulStepFires(t: Timeline, k: nat)
    requires 0 < k < |t| && StandingAt(t, k) == Troubled && StandingAt(t, k - 1) == Untroubled
    ensures OfDiscrepancy in KindsRaised(t, k)
  {
    EventsExactlyOnChange(t, k);
    if Previous(t, k).Some? {
      WasEventfulReadsStatus(t[k].result);
      WasEventfulReadsStatus(Previous(t, k).value);
    }
  }

  lemma {:induction false} DiscrepancyBetween(t: Timeline, low: nat, high: nat)
    requires low < |t| && StandingAt(t, low) == Untroubled && low <= high < |t| && StandingAt(t, high) == Troubled
    ensures exists k :: low < k <= high && OfDiscrepancy in KindsRaised(t, k)
    decreases high
  {
    if StandingAt(t, high - 1) == Troubled {
      DiscrepancyBetween(t, low, high - 1);
    } else {
      EventfulStepFires(t, high);
    }
  }

  /** So between two resolutions of a port there is always a discrepancy. */
  lemma ResolutionsAlternate(t: Timeline, i: nat, j: nat)
    requires i < j < |t|
    ensures OfResolution in KindsRaised(t, i) && OfResolution in KindsRaised(t, j) ==>
            exists k :: i < k < j && OfDiscrepancy in KindsRaised(t, k)
  {
    EventsExactlyOnChange(t, i);
    EventsExactlyOnChange(t, j);
    if StandingAt(t, i) == Untroubled && StandingAt(t, j - 1) == Troubled {
      DiscrepancyBetween(t, i, j - 1);
    }
  }

  /** The moments from `k` to the end all show the same signature, and the one before `k`, if any, another. */
  ghost predicate CurrentRun(t: Timeline, k: nat) {
    && k < |t| && (forall i :: k <= i < |t| ==> t[i].Seen?)
    && (forall i :: k <= i < |t| ==> Signature(t[i].result) == Signature(t[k].result))
    && (Previous(t, k).Some? ==> Signature(Previous(t, k).value) != Signature(t[k].result))
  }

  lemma RunShortens(t: Timeline, k: nat)
    requires CurrentRun(t, k) && k < |t| - 1
    ensures CurrentRun(t[..|t| - 1], k)
  {
  }

  /** The stored first-seen time is the start of the current maximal run of equal signatures. */
  lemma {:induction false} FirstSeenStartsCurrentRun(t: Timeline, k: nat)
    requires CurrentRun(t, k)
    ensures RowAt(t).Some? && RowAt(t).value.firstSeen == t[k].at && RowAt(t).value.lastSeen == t[|t| - 1].at
    ensures RowAt(t).value.signature == Signature(t[k].result)
    decreases |t|
  {
    var init := t[..|t| - 1];
    StoredIsPrevious(t, |t| - 1);
    if k == |t| - 1 {
      assert Stored(RowAt(init)) != Some(Signature(t[k].result));
    } else {
      RunShortens(t, k);
      FirstSeenStartsCurrentRun(init, k);
      assert RowAt(init).value.signature == Signature(t[|t| - 1].result);
    }
  }
}
