/** Error-counter deltas (`backend/app/telemetry_store.py`). The stored total of a port is the sum of nine error
    columns (`backend/app/parsers/errors.py`), each a 32-bit device counter. */
module CounterDelta {
  import opened Common

  const WORD: nat := 0x1_0000_0000

  const COUNTER_MAX: nat := WORD - 1

  /** `int(COUNTER_MAX * 0.9)` and `int(COUNTER_MAX * 0.1)`. */
  const NEAR_TOP: nat := 3865470565

  const NEAR_ZERO: nat := 429496729

  datatype State = First | Unchanged | Increased | Wrapped | Reset

  datatype Delta = Delta(amount: Option<int>, state: State)

  function CounterDelta(previous: Option<nat>, current: nat): Delta {
    match previous
    case None => Delta(None, First)
    case Some(before) =>
      if current == before then Delta(Some(0), Unchanged)
      else if current > before then Delta(Some(current - before), Increased)
      else if before >= NEAR_TOP && current <= NEAR_ZERO then Delta(Some((COUNTER_MAX - before) + 1 + current), Wrapped)
      else Delta(None, Reset)
  }

  // ----- what the device really counted -----

  /** True counts, one per column; the device shows each modulo 2^32. */
  type Columns = seq<nat>

  function Shown(c: Columns): nat {
    if c == [] then 0 else Shown(c[1..]) + c[0] % WORD
  }

  /** No column ever goes down. */
  predicate Grows(b: Columns, a: Columns) {
    |b| == |a| && forall i :: 0 <= i < |a| ==> b[i] <= a[i]
  }

  function Growth(b: Columns, a: Columns): nat
    requires Grows(b, a)
  {
    if a == [] then 0 else Growth(b[1..], a[1..]) + (a[0] - b[0])
  }

  /** How often a column passed 2^32 in between. */
  function Wraps(b: Columns, a: Columns): int
    requires |b| == |a|
  {
    if a == [] then 0 else Wraps(b[1..], a[1..]) + (a[0] / WORD - b[0] / WORD)
  }

  lemma {:induction false} ShownAfter(b: Columns, a: Columns)
    requires Grows(b, a)
    ensures Shown(a) == Shown(b) + Growth(b, a) - WORD * Wraps(b, a)
    ensures Wraps(b, a) >= 0
  {
    if a != [] {
      ShownAfter(b[1..], a[1..]);
      assert a[0] == WORD * (a[0] / WORD) + a[0] % WORD && b[0] == WORD * (b[0] / WORD) + b[0] % WORD;
    }
  }

  /** For growth below 2^32 between polls: a number is the true growth exactly when at most one column wrapped,
      and it is negative when two or more did. */
  lemma NumberIsGrowth(b: Columns, a: Columns)
    requires Grows(b, a) && Growth(b, a) < WORD
    ensures var d := CounterDelta(Some(Shown(b)), Shown(a));
            d.amount.Some? ==>
              (d.amount.value == Growth(b, a) <==> Wraps(b, a) <= 1) && (d.amount.value < 0 <==> Wraps(b, a) >= 2)
    ensures CounterDelta(Some(Shown(b)), Shown(a)).state == Wrapped ==> Wraps(b, a) >= 1
  {
    ShownAfter(b, a);
  }

  /** No number at all exactly when a column wrapped away from both thresholds. */
  lemma ResetExactly(b: Columns, a: Columns)
    requires Grows(b, a) && Growth(b, a) < WORD
    ensures CounterDelta(Some(Shown(b)), Shown(a)).state == Reset <==>
            Wraps(b, a) >= 1 && (Shown(b) < NEAR_TOP || Shown(a) > NEAR_ZERO)
  {
    ShownAfter(b, a);
  }

  /** While the total fits 32 bits, as one counter's does: every number is the true growth, and growth of at most
      429,496,730 is never taken for a reset. */
  lemma WithinOneWord(b: Columns, a: Columns)
    requires Grows(b, a) && Growth(b, a) < WORD && Shown(b) <= COUNTER_MAX
    ensures var d := CounterDelta(Some(Shown(b)), Shown(a));
            (d.amount.Some? ==> d.amount.value == Growth(b, a)) && (Growth(b, a) <= 429496730 ==> d.state != Reset)
  {
    ShownAfter(b, a);
  }

  /** One more, and a wrap can be taken for a reset. */
  lemma BoundIsTight()
    ensures var b, a := [COUNTER_MAX], [COUNTER_MAX + 429496731];
            Grows(b, a) && Growth(b, a) == 429496731 && CounterDelta(Some(Shown(b)), Shown(a)).state == Reset
  {
    var b, a := [COUNTER_MAX], [COUNTER_MAX + 429496731];
    assert b[1..] == [] && a[1..] == [];
    assert Growth(b[1..], a[1..]) == 0;
    assert Shown(b) == COUNTER_MAX && Shown(a) == 429496730;
  }

  /** Two columns wrapping together: a growth of two errors is stored as more than four thousand million
      errors taken back. */
  lemma TwoWrapsGoNegative()
    ensures var b, a := [COUNTER_MAX, COUNTER_MAX], [WORD, WORD];
            Grows(b, a) && Growth(b, a) == 2 && CounterDelta(Some(Shown(b)), Shown(a)) == Delta(Some(2 - WORD), Wrapped)
  {
    var b, a := [COUNTER_MAX, COUNTER_MAX], [WORD, WORD];
    assert b[1..] == [COUNTER_MAX] && a[1..] == [WORD];
    assert b[1..][1..] == [] && a[1..][1..] == [];
    assert Growth(b[1..], a[1..]) == 1;
    assert Shown(b[1..]) == COUNTER_MAX && Shown(a[1..]) == 0;
  }

  // ----- a run of polls -----

  ghost predicate Run(polls: seq<Columns>) {
    forall k :: 0 <= k < |polls| - 1 ==> Grows(polls[k], polls[k + 1])
  }

  function Step(polls: seq<Columns>, k: nat): Delta
    requires k + 1 < |polls|
  {
    CounterDelta(Some(Shown(polls[k])), Shown(polls[k + 1]))
  }

  /** The sum of the amounts of steps before `n`. */
  function Sum(polls: seq<Columns>, n: nat): int
    requires n < |polls|
  {
    if n == 0 then 0
    else Sum(polls, n - 1) + (if Step(polls, n - 1).amount.Some? then Step(polls, n - 1).amount.value else 0)
  }

  lemma {:induction false} GrowthAdds(x: Columns, y: Columns, z: Columns)
    requires Grows(x, y) && Grows(y, z)
    ensures Grows(x, z) && Growth(x, z) == Growth(x, y) + Growth(y, z)
  {
    if z != [] {
      GrowthAdds(x[1..], y[1..], z[1..]);
    }
  }

  lemma {:induction false} NoGrowth(x: Columns)
    ensures Grows(x, x) && Growth(x, x) == 0
  {
    if x != [] {
      NoGrowth(x[1..]);
    }
  }

  /** Over a run without resets the amounts add up to the whole growth. */
  lemma {:induction false} AmountsAddUp(polls: seq<Columns>, n: nat)
    requires n < |polls| && Run(polls)
    requires forall k: nat :: k < n ==> Growth(polls[k], polls[k + 1]) < WORD && Wraps(polls[k], polls[k + 1]) <= 1
    requires forall k: nat :: k < n ==> Step(polls, k).state != Reset
    ensures Grows(polls[0], polls[n]) && Sum(polls, n) == Growth(polls[0], polls[n])
  {
    if n == 0 {
      NoGrowth(polls[0]);
    } else {
      AmountsAddUp(polls, n - 1);
      NumberIsGrowth(polls[n - 1], polls[n]);
      assert Step(polls, n - 1).state != Reset;
      GrowthAdds(polls[0], polls[n - 1], polls[n]);
    }
  }

  // ----- the store -----

  type Port = nat

  function Lookup(rows: map<Port, nat>, port: Port): Option<nat> {
    if port in rows then Some(rows[port]) else None
  }

  /** A port the error table does not list counts as zero. */
  function TotalOf(totals: map<Port, nat>, port: Port): nat {
    if port in totals then totals[port] else 0
  }

  /** The rows a snapshot leaves. */
  function Recorded(interfaces: seq<Port>, totals: map<Port, nat>): map<Port, nat> {
    map p | p in interfaces :: TotalOf(totals, p)
  }

  function StoredDelta(rows: map<Port, nat>, totals: map<Port, nat>, port: Port): Delta {
    CounterDelta(Lookup(rows, port), TotalOf(totals, port))
  }

  /** What a table keeps back of the total its columns show: all of it without the port's row, some of it
      when a block of columns is missing. */
  function Missed(totals: map<Port, nat>, port: Port, c: Columns): int {
    Shown(c) - TotalOf(totals, port)
  }

  /** A stored number misses the true growth by exactly what the tables kept back of the two totals, and by 2^32
      for every wrap beyond the one it allows for. */
  lemma StoredError(interfaces: seq<Port>, before: map<Port, nat>, after: map<Port, nat>, port: Port, b: Columns,
                    a: Columns)
    requires Grows(b, a) && Growth(b, a) < WORD
    ensures var d := StoredDelta(Recorded(interfaces, before), after, port);
            && (d.amount.Some? ==>
                  port in interfaces &&
                  d.amount.value == Growth(b, a) + Missed(before, port, b) - Missed(after, port, a)
                                    - WORD * (Wraps(b, a) - if d.state == Wrapped then 1 else 0))
            && (d.state == First <==> port !in interfaces)
  {
    ShownAfter(b, a);
  }

  /** With nothing kept back it is the true growth if and only if one column wrapped at most. */
  lemma StoredIsGrowthExactly(interfaces: seq<Port>, before: map<Port, nat>, after: map<Port, nat>, port: Port,
                              b: Columns, a: Columns)
    requires Grows(b, a) && Growth(b, a) < WORD
    requires Missed(before, port, b) == 0 && Missed(after, port, a) == 0
    ensures var d := StoredDelta(Recorded(interfaces, before), after, port);
            d.amount.Some? ==> (d.amount.value == Growth(b, a) <==> Wraps(b, a) <= 1)
  {
    if port in interfaces {
      NumberIsGrowth(b, a);
    }
  }

  /** While both totals fit 32 bits a stored number is the true growth if and only if both tables kept back the
      same, as they do when neither kept back anything. */
  lemma StoredInOneWordExactly(interfaces: seq<Port>, before: map<Port, nat>, after: map<Port, nat>, port: Port,
                               b: Columns, a: Columns)
    requires Grows(b, a) && Growth(b, a) < WORD
    requires TotalOf(before, port) <= Shown(b) <= COUNTER_MAX && TotalOf(after, port) <= Shown(a) <= COUNTER_MAX
    ensures var d := StoredDelta(Recorded(interfaces, before), after, port);
            d.amount.Some? ==>
              (d.amount.value == Growth(b, a) <==> Missed(before, port, b) == Missed(after, port, a))
  {
    StoredError(interfaces, before, after, port, b, a);
    ShownAfter(b, a);
  }

  /** Beyond one word a missing row can come out right by accident: the total it hides is 2^32 exactly. */
  lemma MissedRowComesOutRight()
    ensures var b, a := [COUNTER_MAX, 1], [COUNTER_MAX + 1, 1];
            && Grows(b, a) && Growth(b, a) == 1 && Shown(b) == WORD && Shown(a) == 1
            && StoredDelta(Recorded([0], map[]), map[0 := Shown(a)], 0) == Delta(Some(1), Increased)
  {
    var b, a := [COUNTER_MAX, 1], [COUNTER_MAX + 1, 1];
    assert b[1..] == [1] && a[1..] == [1];
    assert b[1..][1..] == [] && a[1..][1..] == [];
    assert Growth(b[1..][1..], a[1..][1..]) == 0 && Shown(b[1..][1..]) == 0 && Shown(a[1..][1..]) == 0;
    assert b[1..][0] == 1 && a[1..][0] == 1;
    assert Growth(b[1..], a[1..]) == 0 && Shown(b[1..]) == 1 && Shown(a[1..]) == 1;
    assert 0 in [0];
  }

  class TelemetryStore {
    /** The rows of the latest snapshot. */
    var latest: map<Port, nat>

    constructor ()
      ensures latest == map[]
    {
      latest := map[];
    }

    /** `record_snapshot`: one delta per interface against the latest snapshot, which this one then replaces. */
    method RecordSnapshot(interfaces: seq<Port>, totals: map<Port, nat>) returns (deltas: seq<Delta>)
      modifies this
      ensures |deltas| == |interfaces|
      ensures forall k :: 0 <= k < |interfaces| ==> deltas[k] == StoredDelta(old(latest), totals, interfaces[k])
      ensures latest == Recorded(interfaces, totals)
    {
      deltas := [];
      var rows: map<Port, nat> := map[];
      for k := 0 to |interfaces|
        invariant |deltas| == k && latest == old(latest)
        invariant forall j :: 0 <= j < k ==> deltas[j] == StoredDelta(old(latest), totals, interfaces[j])
        invariant forall p :: p in rows <==> p in interfaces[..k]
        invariant forall p :: p in rows ==> rows[p] == TotalOf(totals, p)
      {
        deltas := deltas + [StoredDelta(latest, totals, interfaces[k])];
        rows := rows[interfaces[k] := TotalOf(totals, interfaces[k])];
        PrefixNext(interfaces, k);
      }
      assert interfaces[..|interfaces|] == interfaces;
      assert rows == Recorded(interfaces, totals);
      latest := rows;
    }

    /** Two snapshots in a row, whatever was stored before, whichever ports each lists and whichever rows each
        error table has: the numbers of the second, for a port whose columns stood at `b` and then at `a`. */
    method TwoSnapshots(interfaces: seq<Port>, before: map<Port, nat>, interfaces': seq<Port>, after: map<Port, nat>,
                        k: nat, ghost b: Columns, ghost a: Columns)
      returns (d: Delta)
      requires k < |interfaces'|
      requires Grows(b, a) && Growth(b, a) < WORD
      modifies this
      ensures d.amount.Some? ==>
                d.amount.value == Growth(b, a) + Missed(before, interfaces'[k], b) - Missed(after, interfaces'[k], a)
                                  - WORD * (Wraps(b, a) - if d.state == Wrapped then 1 else 0)
      ensures d.state == First <==> interfaces'[k] !in interfaces
    {
      var first := RecordSnapshot(interfaces, before);
      var second := RecordSnapshot(interfaces', after);
      StoredError(interfaces, before, after, interfaces'[k], b, a);
      d := second[k];
    }

    /** One table without the port's row, between two that have it: a reset or a wrap that did not happen, and
        then the whole total in place of the growth. */
    method MissedRow(interfaces: seq<Port>, tables: seq<map<Port, nat>>, k: nat)
      returns (gap: Delta, next: Delta)
      requires |tables| == 3 && k < |interfaces|
      requires interfaces[k] in tables[0] && interfaces[k] !in tables[1] && interfaces[k] in tables[2]
      modifies this
      ensures tables[0][interfaces[k]] > 0 ==> gap.state == Reset || gap.state == Wrapped
      ensures next.amount == Some(tables[2][interfaces[k]])
    {
      var first := RecordSnapshot(interfaces, tables[0]);
      var second := RecordSnapshot(interfaces, tables[1]);
      var third := RecordSnapshot(interfaces, tables[2]);
      gap, next := second[k], third[k];
    }
  }
}
