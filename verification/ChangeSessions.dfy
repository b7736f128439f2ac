/** Durable change sessions: the guarded service calls, a crash at any point of an execution, and recovery
    when the store is next opened (`backend/app/change_assurance.py`, `backend/app/change_store.py`). */
module ChangeSessions {
  import opened Common

  type SessionId = nat

  datatype Status = Planned | Preflight | Blocked | Ready
                  | Executing | Verifying | RollingBack
                  | RolledBack | Succeeded | SucceededWithWarnings | Indeterminate

  /** A stored record; `revision` counts its saves, so equal records were not written in between. */
  datatype Session = Session(status: Status, revision: nat)

  type Sessions = map<SessionId, Session>

  predicate InFlight(s: Status) {
    s == Executing || s == Verifying || s == RollingBack
  }

  predicate Terminal(s: Status) {
    s == RolledBack || s == Succeeded || s == SucceededWithWarnings || s == Indeterminate
  }

  // ----- what a call does, event by event -----

  datatype Event = Saved(id: SessionId, status: Status) | PrimitiveStarted(id: SessionId) | CommandSent(id: SessionId)

  /** The store, how often each session ran the primitive, and which sessions may have touched the device. */
  datatype State = State(sessions: Sessions, runs: map<SessionId, nat>, sent: set<SessionId>)

  const START: State := State(map[], map[], {})

  function Revision(sessions: Sessions, id: SessionId): nat {
    if id in sessions then sessions[id].revision else 0
  }

  function Save(sessions: Sessions, id: SessionId, status: Status): Sessions {
    sessions[id := Session(status, Revision(sessions, id) + 1)]
  }

  function RunsOf(s: State, id: SessionId): nat {
    if id in s.runs then s.runs[id] else 0
  }

  function Happen(s: State, e: Event): State {
    match e
    case Saved(id, status) => s.(sessions := Save(s.sessions, id, status))
    case PrimitiveStarted(id) => s.(runs := s.runs[id := RunsOf(s, id) + 1])
    case CommandSent(id) => s.(sent := s.sent + {id})
  }

  function HappenAll(s: State, events: seq<Event>): State {
    if events == [] then s
    else Happen(HappenAll(s, events[..|events| - 1]), events[|events| - 1])
  }

  lemma {:induction false} HappenAppend(s: State, first: seq<Event>, second: seq<Event>)
    ensures HappenAll(s, first + second) == HappenAll(HappenAll(s, first), second)
  {
    if second == [] {
      assert first + second == first;
    } else {
      assert (first + second)[..|first + second| - 1] == first + second[..|second| - 1];
      HappenAppend(s, first, second[..|second| - 1]);
    }
  }

  /** `_recover_incomplete`: an interrupted write is never presented as running or successful. */
  function Recovered(sessions: Sessions): Sessions {
    map id | id in sessions ::
      if InFlight(sessions[id].status) then Session(Indeterminate, sessions[id].revision + 1) else sessions[id]
  }

  // ----- executing -----

  datatype StageName = Precheck | Backup | ExecuteStage | VerifyStage | RollbackStage | Audit

  /** What the primitive reports while it runs: the stage it enters, or a command on its way to the device. */
  datatype Progress = Stage(name: StageName) | Command

  function StageStatus(name: StageName): Status {
    match name
    case VerifyStage => Verifying
    case RollbackStage => RollingBack
    case _ => Executing
  }

  function ProgressEvent(id: SessionId, p: Progress): Event {
    match p
    case Stage(name) => Saved(id, StageStatus(name))
    case Command => CommandSent(id)
  }

  datatype PrimitiveResult = PrimitiveRaised | PrimitiveReturned(success: bool, rolledBack: bool)

  datatype AfterState = AfterUnavailable | AfterCaptured(postconditionMet: bool, warnings: bool)

  /** Everything outside the service that an execution meets. */
  datatype Outside = Outside(guardsOpen: bool, beforeCaptured: bool, stillReady: bool, progress: seq<Progress>,
                             primitive: PrimitiveResult, after: AfterState)

  function FinalStatus(primitive: PrimitiveResult, after: AfterState): Status {
    if primitive.PrimitiveRaised? || after.AfterUnavailable? then Indeterminate
    else if primitive.rolledBack then RolledBack
    else if !primitive.success || !after.postconditionMet then Indeterminate
    else if after.warnings then SucceededWithWarnings
    else Succeeded
  }

  function ProgressEvents(id: SessionId, progress: seq<Progress>): (events: seq<Event>)
    ensures |events| == |progress| && forall i :: 0 <= i < |events| ==> events[i] == ProgressEvent(id, progress[i])
  {
    seq(|progress|, i requires 0 <= i < |progress| => ProgressEvent(id, progress[i]))
  }

  /** The events of `execute` on a stored status, in order. */
  function ExecuteEvents(id: SessionId, stored: Status, o: Outside): seq<Event> {
    if stored != Ready || !o.guardsOpen then []
    else if !o.beforeCaptured || !o.stillReady then [Saved(id, Executing), Saved(id, Blocked)]
    else
      [Saved(id, Executing), Saved(id, Executing), PrimitiveStarted(id)] + ProgressEvents(id, o.progress) +
      (if o.primitive.PrimitiveRaised? then [] else [Saved(id, Verifying)]) +
      [Saved(id, FinalStatus(o.primitive, o.after))]
  }

  // ----- the service -----

  lemma HappenOne(s: State, e: Event)
    ensures HappenAll(s, [e]) == Happen(s, e)
  {
    assert [e][..0] == [];
  }

  lemma HappenTwo(s: State, e: Event, f: Event)
    ensures HappenAll(s, [e, f]) == Happen(Happen(s, e), f)
  {
    HappenOne(s, e);
    assert [e, f][..1] == [e];
  }

  lemma HappenNext(s: State, events: seq<Event>, e: Event)
    ensures HappenAll(s, events + [e]) == Happen(HappenAll(s, events), e)
  {
    assert (events + [e])[..|events|] == events;
  }

  function PreflightEvents(sessions: Sessions, id: SessionId, captured: bool, clear: bool): seq<Event> {
    if id !in sessions || InFlight(sessions[id].status) || Terminal(sessions[id].status) then []
    else [Saved(id, Preflight), Saved(id, if captured && clear then Ready else Blocked)]
  }

  function BlockEvents(sessions: Sessions, id: SessionId): seq<Event> {
    if id in sessions && sessions[id].status in {Planned, Preflight, Ready} then [Saved(id, Blocked)] else []
  }

  class Service {
    var sessions: Sessions
    /** Everything the calls have done, event by event; the stored records are its visible part. */
    ghost var history: State

    ghost predicate Valid()
      reads this
    {
      history.sessions == sessions
    }

    method RecoverIncomplete()
      modifies this`sessions
      ensures sessions == Recovered(old(sessions))
    {
      var pending := set id | id in sessions && InFlight(sessions[id].status);
      ghost var was, done := sessions, {};
      while pending != {}
        invariant sessions.Keys == was.Keys && pending !! done
        invariant pending + done == set id | id in was && InFlight(was[id].status)
        invariant forall id :: id in was ==>
                                 sessions[id] == if id in done then Session(Indeterminate, was[id].revision + 1)
                                   else was[id]
      {
        var id :| id in pending;
        sessions := Save(sessions, id, Indeterminate);
        pending, done := pending - {id}, done + {id};
      }
    }

    /** Opening the store recovers what was interrupted. */
    constructor (stored: Sessions)
      ensures Valid() && sessions == Recovered(stored) && history == State(sessions, map[], {})
    {
      sessions := stored;
      new;
      RecoverIncomplete();
      history := State(sessions, map[], {});
    }

    method SaveSession(id: SessionId, status: Status)
      requires Valid()
      modifies this
      ensures Valid() && history == Happen(old(history), Saved(id, status))
    {
      sessions := Save(sessions, id, status);
      history := Happen(history, Saved(id, status));
    }

    method CreatePlan(id: SessionId)
      requires Valid() && id !in sessions
      modifies this
      ensures Valid() && history == Happen(old(history), Saved(id, Planned))
    {
      SaveSession(id, Planned);
    }

    /** False stands for the exception: the session is unknown, in flight or terminal. */
    method RunPreflight(id: SessionId, captured: bool, clear: bool) returns (accepted: bool)
      requires Valid()
      modifies this
      ensures Valid() && history == HappenAll(old(history), PreflightEvents(old(sessions), id, captured, clear))
      ensures accepted <==>
              id in old(sessions) && !InFlight(old(sessions)[id].status) && !Terminal(old(sessions)[id].status)
    {
      if id !in sessions || InFlight(sessions[id].status) || Terminal(sessions[id].status) {
        return false;
      }
      var verdict := if captured && clear then Ready else Blocked;
      HappenTwo(history, Saved(id, Preflight), Saved(id, verdict));
      SaveSession(id, Preflight);
      SaveSession(id, verdict);
      accepted := true;
    }

    /** A late request never overwrites an in-flight or terminal record. */
    method BlockBeforeExecution(id: SessionId)
      requires Valid()
      modifies this
      ensures Valid() && history == HappenAll(old(history), BlockEvents(old(sessions), id))
    {
      if id !in sessions {
        return;
      }
      var status := sessions[id].status;
      if status != Planned && status != Preflight && status != Ready {
        return;
      }
      HappenOne(history, Saved(id, Blocked));
      SaveSession(id, Blocked);
    }

    /** As written: no look at the status. */
    method BlockPreflightUnavailable(id: SessionId)
      requires Valid()
      modifies this
      ensures Valid()
      ensures history == if id in old(sessions) then Happen(old(history), Saved(id, Blocked)) else old(history)
    {
      if id in sessions {
        SaveSession(id, Blocked);
      }
    }

    /** The progress callback saves the session at every stage. */
    method RunPrimitive(id: SessionId, progress: seq<Progress>)
      requires Valid()
      modifies this
      ensures Valid() && history == HappenAll(old(history), ProgressEvents(id, progress))
    {
      ghost var was := history;
      for i := 0 to |progress|
        invariant Valid() && history == HappenAll(was, ProgressEvents(id, progress[..i]))
      {
        ghost var e := ProgressEvent(id, progress[i]);
        assert ProgressEvents(id, progress[..i + 1]) == ProgressEvents(id, progress[..i]) + [e];
        HappenNext(was, ProgressEvents(id, progress[..i]), e);
        match progress[i] {
          case Stage(name) => SaveSession(id, StageStatus(name));
          case Command => history := Happen(history, CommandSent(id));
        }
      }
      assert progress[..|progress|] == progress;
    }

    method Execute(id: SessionId, o: Outside)
      requires Valid()
      modifies this
      ensures Valid()
      ensures history == HappenAll(old(history),
                                   if id in old(sessions) then ExecuteEvents(id, old(sessions)[id].status, o) else [])
    {
      if id !in sessions || sessions[id].status != Ready || !o.guardsOpen {
        return;
      }
      if !o.beforeCaptured || !o.stillReady {
        HappenTwo(history, Saved(id, Executing), Saved(id, Blocked));
        SaveSession(id, Executing);
        SaveSession(id, Blocked);
        return;
      }
      ghost var was := history;
      ghost var entry := [Saved(id, Executing), Saved(id, Executing), PrimitiveStarted(id)];
      HappenTwo(was, Saved(id, Executing), Saved(id, Executing));
      HappenNext(was, entry[..2], PrimitiveStarted(id));
      assert entry == entry[..2] + [PrimitiveStarted(id)] && entry[..2] == [Saved(id, Executing), Saved(id, Executing)];
      SaveSession(id, Executing);
      SaveSession(id, Executing);
      history := Happen(history, PrimitiveStarted(id));
      RunPrimitive(id, o.progress);
      HappenAppend(was, entry, ProgressEvents(id, o.progress));
      ghost var during := entry + ProgressEvents(id, o.progress);
      if o.primitive.PrimitiveReturned? {
        SaveSession(id, Verifying);
        HappenNext(was, during, Saved(id, Verifying));
        during := during + [Saved(id, Verifying)];
      }
      HappenNext(was, during, Saved(id, FinalStatus(o.primitive, o.after)));
      assert during + [Saved(id, FinalStatus(o.primitive, o.after))] == ExecuteEvents(id, Ready, o);
      SaveSession(id, FinalStatus(o.primitive, o.after));
    }
  }

  // ----- runs with crashes -----

  datatype Call =
    | Create(id: SessionId)
    | RunPreflightCall(id: SessionId, captured: bool, clear: bool)
    | Block(id: SessionId)
    | BlockUnavailable(id: SessionId)
    | ExecuteCall(id: SessionId, o: Outside)

  /** The events of a whole call on the stored records. */
  function Events(sessions: Sessions, call: Call): seq<Event> {
    match call
    case Create(id) => if id in sessions then [] else [Saved(id, Planned)]
    case RunPreflightCall(id, captured, clear) => PreflightEvents(sessions, id, captured, clear)
    case Block(id) => BlockEvents(sessions, id)
    case BlockUnavailable(id) => if id in sessions then [Saved(id, Blocked)] else []
    case ExecuteCall(id, o) => if id in sessions then ExecuteEvents(id, sessions[id].status, o) else []
  }

  /** A call runs to its end, or the process stops after some of its events and the store is reopened. */
  datatype Occurrence = Complete(call: Call) | Crashed(call: Call, after: nat)

  function Occur(s: State, o: Occurrence): State {
    match o
    case Complete(call) => HappenAll(s, Events(s.sessions, call))
    case Crashed(call, after) =>
      var events := Events(s.sessions, call);
      var done := HappenAll(s, events[..if after < |events| then after else |events|]);
      done.(sessions := Recovered(done.sessions))
  }

  function Run(occurrences: seq<Occurrence>): State {
    if occurrences == [] then START
    else Occur(Run(occurrences[..|occurrences| - 1]), occurrences[|occurrences| - 1])
  }

  // ----- one session at a time -----

  /** What a run has done to one session. */
  datatype View = View(stored: Option<Session>, runs: nat, sent: bool)

  function ViewOf(s: State, id: SessionId): View {
    View(if id in s.sessions then Some(s.sessions[id]) else None, RunsOf(s, id), id in s.sent)
  }

  function Advance(v: View, e: Event): View {
    match e
    case Saved(_, status) => v.(stored := Some(Session(status,
      (if v.stored.Some? then v.stored.value.revision else 0) + 1)))
    case PrimitiveStarted(_) => v.(runs := v.runs + 1)
    case CommandSent(_) => v.(sent := true)
  }

  function AdvanceAll(v: View, events: seq<Event>): View {
    if events == [] then v else Advance(AdvanceAll(v, events[..|events| - 1]), events[|events| - 1])
  }

  lemma OneEvent(s: State, e: Event, id: SessionId)
    ensures ViewOf(Happen(s, e), id) == if id == e.id then Advance(ViewOf(s, id), e) else ViewOf(s, id)
  {
  }

  /** Events about one session leave every other as it was. */
  lemma {:induction false} ViewAfter(s: State, events: seq<Event>, about: SessionId, id: SessionId)
    requires forall e :: e in events ==> e.id == about
    ensures ViewOf(HappenAll(s, events), id) == if id == about then AdvanceAll(ViewOf(s, id), events) else ViewOf(s, id)
  {
    if events != [] {
      var init, last := events[..|events| - 1], events[|events| - 1];
      assert last in events && forall e :: e in init ==> e in events;
      ViewAfter(s, init, about, id);
      OneEvent(HappenAll(s, init), last, id);
    }
  }

  lemma {:induction false} AdvanceAppend(v: View, first: seq<Event>, second: seq<Event>)
    ensures AdvanceAll(v, first + second) == AdvanceAll(AdvanceAll(v, first), second)
  {
    if second == [] {
      assert first + second == first;
    } else {
      assert (first + second)[..|first + second| - 1] == first + second[..|second| - 1];
      AdvanceAppend(v, first, second[..|second| - 1]);
    }
  }

  predicate HasStatus(v: View, s: Status) {
    match v.stored
    case None => false
    case Some(session) => session.status == s
  }

  predicate IsInFlight(v: View) {
    match v.stored
    case None => false
    case Some(session) => InFlight(session.status)
  }

  predicate IsTerminal(v: View) {
    match v.stored
    case None => false
    case Some(session) => Terminal(session.status)
  }

  /** Once the primitive has been started the session is in flight or settled; it runs at most once; and only
      then can a command have been sent. */
  predicate Safe(v: View) {
    && (v.runs > 0 ==> IsInFlight(v) || IsTerminal(v))
    && v.runs <= 1
    && (v.sent ==> v.runs > 0)
  }

  /** Safe, and nothing in flight: how every call finds a session. */
  predicate Quiet(v: View) {
    Safe(v) && !IsInFlight(v)
  }

  /** The primitive is under way. */
  predicate Running(v: View) {
    IsInFlight(v) && v.runs == 1
  }

  function Interrupted(v: View): View {
    if IsInFlight(v) then v.(stored := Some(Session(Indeterminate, v.stored.value.revision + 1))) else v
  }

  lemma AdvanceFew(v: View, e: Event, f: Event)
    ensures AdvanceAll(v, []) == v && AdvanceAll(v, [e]) == Advance(v, e)
    ensures AdvanceAll(v, [e, f]) == Advance(Advance(v, e), f)
  {
    assert [e][..0] == [] && [e, f][..1] == [e];
  }

  lemma {:induction false} ProgressRuns(v: View, id: SessionId, progress: seq<Progress>)
    requires Running(v)
    ensures Running(AdvanceAll(v, ProgressEvents(id, progress)))
  {
    if progress != [] {
      ProgressRuns(v, id, progress[..|progress| - 1]);
      assert ProgressEvents(id, progress)[..|progress| - 1] == ProgressEvents(id, progress[..|progress| - 1]);
    }
  }

  /** The view after at most two more events. */
  lemma PrefixOfTwo(v: View, events: seq<Event>, k: nat)
    requires k <= |events| <= 2
    ensures AdvanceAll(v, events[..k]) ==
            if k == 0 then v else if k == 1 then Advance(v, events[0]) else Advance(Advance(v, events[0]), events[1])
  {
    if k > 0 {
      AdvanceFew(v, events[0], events[|events| - 1]);
    }
    assert k == 0 ==> events[..k] == [];
    assert k == 1 ==> events[..k] == [events[0]];
    assert k == 2 ==> events[..k] == [events[0], events[1]];
  }

  /** From a running primitive, safe through the closing saves. */
  lemma ClosingSafe(v: View, id: SessionId, closing: seq<Event>, final: Status, k: nat)
    requires Running(v) && Terminal(final)
    requires closing == [Saved(id, final)] || closing == [Saved(id, Verifying), Saved(id, final)]
    requires k <= |closing|
    ensures Safe(AdvanceAll(v, closing[..k])) && (k == |closing| ==> !IsInFlight(AdvanceAll(v, closing[..k])))
  {
    PrefixOfTwo(v, closing, k);
  }

  lemma StartSafe(v: View, id: SessionId, k: nat)
    requires Quiet(v) && HasStatus(v, Ready) && k <= 3
    ensures var head := [Saved(id, Executing), Saved(id, Executing), PrimitiveStarted(id)];
            && Safe(AdvanceAll(v, head[..k]))
            && (k == 3 ==> Running(AdvanceAll(v, head[..k])))
  {
    var head := [Saved(id, Executing), Saved(id, Executing), PrimitiveStarted(id)];
    PrefixOfTwo(v, head[..2], if k < 2 then k else 2);
    if k < 3 {
      assert head[..k] == head[..2][..k];
    } else {
      assert head[..3][..2] == head[..2] && head[..2][..2] == head[..2];
    }
  }

  /** The whole time that the primitive is under way. */
  lemma StillRunning(v: View, id: SessionId, progress: seq<Progress>, i: nat)
    requires i <= |progress|
    requires Running(AdvanceAll(v, [Saved(id, Executing), Saved(id, Executing), PrimitiveStarted(id)]))
    ensures var head := [Saved(id, Executing), Saved(id, Executing), PrimitiveStarted(id)];
            Running(AdvanceAll(v, head + ProgressEvents(id, progress)[..i]))
  {
    var head := [Saved(id, Executing), Saved(id, Executing), PrimitiveStarted(id)];
    assert ProgressEvents(id, progress)[..i] == ProgressEvents(id, progress[..i]);
    ProgressRuns(AdvanceAll(v, head), id, progress[..i]);
    AdvanceAppend(v, head, ProgressEvents(id, progress[..i]));
  }

  lemma LongPrefixSafe(v: View, id: SessionId, progress: seq<Progress>, closing: seq<Event>, final: Status, k: nat)
    requires Quiet(v) && HasStatus(v, Ready) && Terminal(final) && k <= 3 + |progress| + |closing|
    requires closing == [Saved(id, final)] || closing == [Saved(id, Verifying), Saved(id, final)]
    ensures var events := [Saved(id, Executing), Saved(id, Executing), PrimitiveStarted(id)] +
            ProgressEvents(id, progress) + closing;
            && Safe(AdvanceAll(v, events[..k]))
            && (k == |events| ==> !IsInFlight(AdvanceAll(v, events[..k])))
  {
    var head, middle := [Saved(id, Executing), Saved(id, Executing), PrimitiveStarted(id)],
      ProgressEvents(id, progress);
    var events := head + middle + closing;
    StartSafe(v, id, if k < 3 then k else 3);
    assert head[..3] == head && middle[..|middle|] == middle;
    if k <= 3 {
      assert events[..k] == head[..k];
    } else if k <= 3 + |middle| {
      assert events[..k] == head + middle[..k - 3];
      StillRunning(v, id, progress, k - 3);
    } else {
      var rest := closing[..k - 3 - |middle|];
      assert events[..k] == head + middle + rest;
      StillRunning(v, id, progress, |middle|);
      ClosingSafe(AdvanceAll(v, head + middle), id, closing, final, |rest|);
      AdvanceAppend(v, head + middle, rest);
    }
  }

  /** After any prefix of an execution's events the session is safe, and after all of them it is quiet. */
  lemma ExecutePrefixSafe(v: View, id: SessionId, o: Outside, k: nat)
    requires Quiet(v) && HasStatus(v, Ready) && k <= |ExecuteEvents(id, Ready, o)|
    ensures Safe(AdvanceAll(v, ExecuteEvents(id, Ready, o)[..k]))
    ensures k == |ExecuteEvents(id, Ready, o)| ==> !IsInFlight(AdvanceAll(v, ExecuteEvents(id, Ready, o)[..k]))
  {
    var events := ExecuteEvents(id, Ready, o);
    if |events| <= 2 {
      PrefixOfTwo(v, events, k);
    } else {
      var head := [Saved(id, Executing), Saved(id, Executing), PrimitiveStarted(id)];
      var final := FinalStatus(o.primitive, o.after);
      var closing := if o.primitive.PrimitiveRaised? then [Saved(id, final)]
        else [Saved(id, Verifying), Saved(id, final)];
      assert events == head + ProgressEvents(id, o.progress) + closing;
      LongPrefixSafe(v, id, o.progress, closing, final, k);
    }
  }

  // ----- whole runs -----

  /** The call looks at the stored status before it writes, or finds it unsettled. Only marking a preflight
      unavailable does not look. */
  predicate Guarded(sessions: Sessions, c: Call) {
    c.BlockUnavailable? && c.id in sessions ==> !Terminal(sessions[c.id].status)
  }

  lemma EventsAreAbout(sessions: Sessions, c: Call)
    ensures forall e :: e in Events(sessions, c) ==> e.id == c.id
  {
  }

  /** Any prefix of any guarded call keeps the session safe, and a whole call leaves it quiet. */
  lemma CallPrefixSafe(s: State, c: Call, k: nat)
    requires Guarded(s.sessions, c) && Quiet(ViewOf(s, c.id)) && k <= |Events(s.sessions, c)|
    ensures Safe(AdvanceAll(ViewOf(s, c.id), Events(s.sessions, c)[..k]))
    ensures k == |Events(s.sessions, c)| ==> !IsInFlight(AdvanceAll(ViewOf(s, c.id), Events(s.sessions, c)[..k]))
  {
    var v, events := ViewOf(s, c.id), Events(s.sessions, c);
    if events != [] && !c.ExecuteCall? {
      AdvanceFew(v, events[0], events[|events| - 1]);
      assert k == 0 ==> events[..k] == [];
      assert k == 1 ==> events[..k] == [events[0]];
      assert k == 2 ==> events[..k] == [events[0], events[1]];
    } else if events != [] {
      ExecutePrefixSafe(v, c.id, c.o, k);
    }
  }

  ghost predicate AllQuiet(s: State) {
    forall id: SessionId {:trigger ViewOf(s, id)} :: Quiet(ViewOf(s, id))
  }

  /** The state in the middle of a call. */
  function Middle(s: State, c: Call, k: nat): State
    requires k <= |Events(s.sessions, c)|
  {
    HappenAll(s, Events(s.sessions, c)[..k])
  }

  lemma MiddleSafe(s: State, c: Call, k: nat, id: SessionId)
    requires Guarded(s.sessions, c) && AllQuiet(s) && k <= |Events(s.sessions, c)|
    ensures Safe(ViewOf(Middle(s, c, k), id))
    ensures k == |Events(s.sessions, c)| ==> !IsInFlight(ViewOf(Middle(s, c, k), id))
  {
    EventsAreAbout(s.sessions, c);
    ViewAfter(s, Events(s.sessions, c)[..k], c.id, id);
    CallPrefixSafe(s, c, k);
    assert Quiet(ViewOf(s, id));
  }

  lemma OccurrenceKeepsQuiet(s: State, o: Occurrence)
    requires Guarded(s.sessions, o.call) && AllQuiet(s)
    ensures AllQuiet(Occur(s, o))
  {
    var events := Events(s.sessions, o.call);
    var k := if o.Complete? || o.after >= |events| then |events| else o.after;
    assert events[..|events|] == events;
    forall id: SessionId ensures Quiet(ViewOf(Occur(s, o), id)) {
      MiddleSafe(s, o.call, k, id);
      if o.Crashed? {
        assert ViewOf(Occur(s, o), id) == Interrupted(ViewOf(Middle(s, o.call, k), id));
      }
    }
  }

  predicate AllGuarded(run: seq<Occurrence>) {
    run == [] || (AllGuarded(run[..|run| - 1]) && Guarded(Run(run[..|run| - 1]).sessions, run[|run| - 1].call))
  }

  lemma {:induction false} RunIsQuiet(run: seq<Occurrence>)
    requires AllGuarded(run)
    ensures AllQuiet(Run(run))
  {
    if run != [] {
      RunIsQuiet(run[..|run| - 1]);
      OccurrenceKeepsQuiet(Run(run[..|run| - 1]), run[|run| - 1]);
    }
  }

  /** In every run of guarded calls, with crashes anywhere, and at every point inside the next call: once a
      command may have reached the device the stored status is not planned, preflight, blocked or ready, and
      the primitive has run exactly once. */
  lemma SentIsNeverForgotten(run: seq<Occurrence>, c: Call, k: nat, id: SessionId)
    requires AllGuarded(run) && Guarded(Run(run).sessions, c) && k <= |Events(Run(run).sessions, c)|
    ensures var now := Middle(Run(run), c, k);
            && (id in now.sent ==>
                  id in now.sessions && RunsOf(now, id) == 1 &&
                  now.sessions[id].status !in {Planned, Preflight, Blocked, Ready})
            && RunsOf(now, id) <= 1
  {
    RunIsQuiet(run);
    MiddleSafe(Run(run), c, k, id);
  }

  // ----- what clears an execution -----

  /** The call found its session ready, both guards open, the before-state captured and the preflight repeated
      under the guards clear. */
  predicate Cleared(sessions: Sessions, c: Call) {
    && c.ExecuteCall? && c.id in sessions && sessions[c.id].status == Ready
    && c.o.guardsOpen && c.o.beforeCaptured && c.o.stillReady
  }

  lemma {:induction false} SavesOnly(v: View, events: seq<Event>)
    requires forall e :: e in events ==> e.Saved?
    ensures AdvanceAll(v, events).runs == v.runs && AdvanceAll(v, events).sent == v.sent
  {
    if events != [] {
      SavesOnly(v, events[..|events| - 1]);
      assert events[|events| - 1] in events;
    }
  }

  lemma {:induction false} StartsNothing(v: View, events: seq<Event>)
    requires forall e :: e in events ==> !e.PrimitiveStarted?
    ensures AdvanceAll(v, events).runs == v.runs
  {
    if events != [] {
      StartsNothing(v, events[..|events| - 1]);
      assert events[|events| - 1] in events;
    }
  }

  /** The primitive starts, and a command goes out, only in a cleared execution of that session: at every point of
      every call, whatever happened before. */
  lemma PrimitiveNeedsClearance(run: seq<Occurrence>, c: Call, k: nat, id: SessionId)
    requires k <= |Events(Run(run).sessions, c)|
    ensures var before, now := Run(run), Middle(Run(run), c, k);
            RunsOf(now, id) != RunsOf(before, id) || (id in now.sent && id !in before.sent) ==>
              c.id == id && Cleared(before.sessions, c)
  {
    var s := Run(run);
    var events := Events(s.sessions, c)[..k];
    EventsAreAbout(s.sessions, c);
    ViewAfter(s, events, c.id, id);
    if !Cleared(s.sessions, c) {
      assert forall e :: e in Events(s.sessions, c) ==> e.Saved?;
      SavesOnly(ViewOf(s, c.id), events);
    }
  }

  /** A completed execution starts the primitive exactly when it was cleared. When only the before-state or the
      repeated preflight fails, the session is blocked; otherwise nothing happens at all. */
  lemma ExecutionStartsExactlyWhenCleared(s: State, id: SessionId, o: Outside)
    ensures var c, after := ExecuteCall(id, o), Occur(s, Complete(ExecuteCall(id, o)));
            && (Cleared(s.sessions, c) ==> RunsOf(after, id) == RunsOf(s, id) + 1)
            && (!Cleared(s.sessions, c) ==> after.runs == s.runs && after.sent == s.sent)
            && (!Cleared(s.sessions, c) ==>
                  if id in s.sessions && s.sessions[id].status == Ready && o.guardsOpen
                    then HasStatus(ViewOf(after, id), Blocked) else after == s)
  {
    var c := ExecuteCall(id, o);
    var events := Events(s.sessions, c);
    if Cleared(s.sessions, c) {
      var head, rest := [Saved(id, Executing), Saved(id, Executing), PrimitiveStarted(id)], events[3..];
      assert events == head + rest;
      EventsAreAbout(s.sessions, c);
      ViewAfter(s, events, id, id);
      AdvanceAppend(ViewOf(s, id), head, rest);
      StartsNothing(AdvanceAll(ViewOf(s, id), head), rest);
      assert head[..2] == [Saved(id, Executing), Saved(id, Executing)];
      StartsNothing(ViewOf(s, id), head[..2]);
    } else if events != [] {
      HappenTwo(s, Saved(id, Executing), Saved(id, Blocked));
    }
  }

  /** And then the status says what was observed: nothing conclusive without both the primitive's result and an
      after-state. */
  lemma ExecutionEndsAsObserved(s: State, id: SessionId, o: Outside)
    requires Cleared(s.sessions, ExecuteCall(id, o))
    ensures var v := ViewOf(Occur(s, Complete(ExecuteCall(id, o))), id);
            var observed := o.primitive.PrimitiveReturned? && o.after.AfterCaptured?;
            var achieved := observed && o.primitive.success && !o.primitive.rolledBack && o.after.postconditionMet;
            && (HasStatus(v, Succeeded) <==> achieved && !o.after.warnings)
            && (HasStatus(v, SucceededWithWarnings) <==> achieved && o.after.warnings)
            && (HasStatus(v, RolledBack) <==> observed && o.primitive.rolledBack)
            && (HasStatus(v, Indeterminate) <==> !achieved && !(observed && o.primitive.rolledBack))
  {
    var events := Events(s.sessions, ExecuteCall(id, o));
    EventsAreAbout(s.sessions, ExecuteCall(id, o));
    ViewAfter(s, events, id, id);
    assert events[|events| - 1] == Saved(id, FinalStatus(o.primitive, o.after));
  }

  lemma {:induction false} StatusWasSaved(v: View, events: seq<Event>, status: Status)
    requires HasStatus(AdvanceAll(v, events), status) && !HasStatus(v, status)
    ensures exists e :: e in events && e.Saved? && e.status == status
  {
    var last := events[|events| - 1];
    if last.Saved? {
      assert last in events;
    } else {
      StatusWasSaved(v, events[..|events| - 1], status);
    }
  }

  lemma SavesReady(sessions: Sessions, c: Call, e: Event)
    requires e in Events(sessions, c) && e.Saved? && e.status == Ready
    ensures c == RunPreflightCall(e.id, true, true)
  {
    EventsAreAbout(sessions, c);
  }

  /** A session becomes ready only by a preflight that captured its evidence and found it clear. */
  lemma ReadyNeedsClearPreflight(run: seq<Occurrence>, c: Call, k: nat, id: SessionId)
    requires k <= |Events(Run(run).sessions, c)|
    requires HasStatus(ViewOf(Middle(Run(run), c, k), id), Ready) && !HasStatus(ViewOf(Run(run), id), Ready)
    ensures c == RunPreflightCall(id, true, true)
  {
    var s := Run(run);
    var events := Events(s.sessions, c);
    EventsAreAbout(s.sessions, c);
    ViewAfter(s, events[..k], c.id, id);
    StatusWasSaved(ViewOf(s, id), events[..k], Ready);
    var e :| e in events[..k] && e.Saved? && e.status == Ready;
    SavesReady(s.sessions, c, e);
  }

  /** While the primitive runs the record shows where it is. */
  lemma StagesShow(s: State, id: SessionId, name: StageName)
    ensures var v := ViewOf(Happen(s, ProgressEvent(id, Stage(name))), id);
            && (HasStatus(v, Verifying) <==> name == VerifyStage)
            && (HasStatus(v, RollingBack) <==> name == RollbackStage)
            && (HasStatus(v, Executing) <==> name != VerifyStage && name != RollbackStage)
  {
  }

  /** The other calls, completed on a session they accept. */
  lemma OtherCallsEnd(s: State, id: SessionId, captured: bool, clear: bool)
    ensures id !in s.sessions ==> HasStatus(ViewOf(Occur(s, Complete(Create(id))), id), Planned)
    ensures id in s.sessions && s.sessions[id].status in {Planned, Preflight, Blocked, Ready} ==>
              HasStatus(ViewOf(Occur(s, Complete(RunPreflightCall(id, captured, clear))), id),
                        if captured && clear then Ready else Blocked)
    ensures id in s.sessions && s.sessions[id].status in {Planned, Preflight, Ready} ==>
              HasStatus(ViewOf(Occur(s, Complete(Block(id))), id), Blocked)
  {
    HappenOne(s, Saved(id, Planned));
    HappenOne(s, Saved(id, Blocked));
    HappenTwo(s, Saved(id, Preflight), Saved(id, if captured && clear then Ready else Blocked));
  }

  /** A settled record is never written again: not by any guarded call, not by a crash. */
  lemma TerminalIsAbsorbing(run: seq<Occurrence>, o: Occurrence, id: SessionId)
    requires AllGuarded(run) && Guarded(Run(run).sessions, o.call)
    requires id in Run(run).sessions && Terminal(Run(run).sessions[id].status)
    ensures id in Occur(Run(run), o).sessions && Occur(Run(run), o).sessions[id] == Run(run).sessions[id]
  {
    var s := Run(run);
    var events := Events(s.sessions, o.call);
    var k := if o.Complete? || o.after >= |events| then |events| else o.after;
    assert events[..|events|] == events;
    EventsAreAbout(s.sessions, o.call);
    ViewAfter(s, events[..k], o.call.id, id);
    if id == o.call.id {
      assert events == [];
      AdvanceFew(ViewOf(s, id), Saved(id, Blocked), Saved(id, Blocked));
    }
    assert ViewOf(Middle(s, o.call, k), id) == ViewOf(s, id);
  }

  ghost predicate RecordsSpared(before: Sessions, after: Sessions) {
    forall id :: id in before && Terminal(before[id].status) ==> id in after && after[id] == before[id]
  }

  lemma UnavailableEffect(s: State, id: SessionId)
    requires id in s.sessions
    ensures Occur(s, Complete(BlockUnavailable(id))) == Happen(s, Saved(id, Blocked))
  {
    HappenOne(s, Saved(id, Blocked));
  }

  /** The exception. Marking a preflight unavailable leaves every terminal record as it was if and only if the
      session's own stored record is not terminal; and then nothing else is lost either. */
  lemma UnavailableSparesExactlyTheUnsettled(run: seq<Occurrence>, id: SessionId)
    requires AllGuarded(run) && id in Run(run).sessions
    ensures var before, after := Run(run), Occur(Run(run), Complete(BlockUnavailable(id)));
            && (RecordsSpared(before.sessions, after.sessions) <==> !Terminal(before.sessions[id].status))
            && (!Terminal(before.sessions[id].status) ==> AllQuiet(after))
  {
    var s := Run(run);
    UnavailableEffect(s, id);
    assert Happen(s, Saved(id, Blocked)).sessions[id] != s.sessions[id];
    if !Terminal(s.sessions[id].status) {
      RunIsQuiet(run);
      OccurrenceKeepsQuiet(s, Complete(BlockUnavailable(id)));
    }
  }

  /** How much of it concerns the device: a second run of the primitive stays ruled out exactly when there has
      been no first. A terminal record may be rewritten even so. */
  lemma UnavailableRunsOnceExactlyBeforeExecution(run: seq<Occurrence>, id: SessionId)
    requires AllGuarded(run) && id in Run(run).sessions
    ensures AllQuiet(Occur(Run(run), Complete(BlockUnavailable(id)))) <==> RunsOf(Run(run), id) == 0
  {
    var s, s' := Run(run), Occur(Run(run), Complete(BlockUnavailable(id)));
    RunIsQuiet(run);
    UnavailableEffect(s, id);
    forall other: SessionId
      ensures ViewOf(s', other) == if other == id then Advance(ViewOf(s, id), Saved(id, Blocked)) else ViewOf(s, other)
    {
      OneEvent(s, Saved(id, Blocked), other);
    }
    assert Quiet(ViewOf(s, id));
    if RunsOf(s, id) == 0 {
      forall other: SessionId ensures Quiet(ViewOf(s', other)) {
        assert Quiet(ViewOf(s, other));
      }
    } else {
      assert !Quiet(ViewOf(s', id));
    }
  }

  const SUCCESS: Outside := Outside(true, true, true, [Command], PrimitiveReturned(true, false),
    AfterCaptured(true, false))

  /** And the exception is reached: asking for a preflight of a session that succeeded raises, the handler
      marks the preflight unavailable, and the same session can then be prepared and executed again. */
  const TWICE: seq<Occurrence> := [
    Complete(Create(0)), Complete(RunPreflightCall(0, true, true)), Complete(ExecuteCall(0, SUCCESS)),
    Complete(RunPreflightCall(0, true, true)), Complete(BlockUnavailable(0)),
    Complete(RunPreflightCall(0, true, true)), Complete(ExecuteCall(0, SUCCESS))]

  function StatusAfter(run: seq<Occurrence>, n: nat): Option<Status>
    requires n <= |run|
  {
    var s := Run(run[..n]);
    if 0 in s.sessions then Some(s.sessions[0].status) else None
  }

  lemma Unroll(run: seq<Occurrence>, n: nat)
    requires 0 < n <= |run|
    ensures Run(run[..n]) == Occur(Run(run[..n - 1]), run[n - 1])
  {
    assert run[..n][..n - 1] == run[..n - 1];
  }

  lemma PreparedAgain(s: State, c: Call)
    requires c == Create(0) || c == RunPreflightCall(0, true, true) || c == BlockUnavailable(0)
    ensures RunsOf(Occur(s, Complete(c)), 0) == RunsOf(s, 0)
    ensures c.Create? && 0 !in s.sessions ==> HasStatus(ViewOf(Occur(s, Complete(c)), 0), Planned)
    ensures c.RunPreflightCall? && 0 in s.sessions && s.sessions[0].status in {Planned, Blocked} ==>
              HasStatus(ViewOf(Occur(s, Complete(c)), 0), Ready)
    ensures c.BlockUnavailable? && 0 in s.sessions ==> HasStatus(ViewOf(Occur(s, Complete(c)), 0), Blocked)
  {
    var events := Events(s.sessions, c);
    ViewAfter(s, events, 0, 0);
    if events != [] {
      AdvanceFew(ViewOf(s, 0), events[0], events[|events| - 1]);
      assert |events| == 1 ==> events == [events[0]];
      assert |events| == 2 ==> events == [events[0], events[1]];
    }
  }

  lemma ExecutedOnce(s: State)
    requires 0 in s.sessions && s.sessions[0].status == Ready
    ensures RunsOf(Occur(s, Complete(ExecuteCall(0, SUCCESS))), 0) == RunsOf(s, 0) + 1
    ensures HasStatus(ViewOf(Occur(s, Complete(ExecuteCall(0, SUCCESS))), 0), Succeeded)
  {
    var events := ExecuteEvents(0, Ready, SUCCESS);
    var v := ViewOf(s, 0);
    assert events == [Saved(0, Executing), Saved(0, Executing)] + [PrimitiveStarted(0), CommandSent(0)] +
      [Saved(0, Verifying), Saved(0, Succeeded)];
    ViewAfter(s, events, 0, 0);
    AdvanceAppend(v, [Saved(0, Executing), Saved(0, Executing)] + [PrimitiveStarted(0), CommandSent(0)],
      [Saved(0, Verifying), Saved(0, Succeeded)]);
    AdvanceAppend(v, [Saved(0, Executing), Saved(0, Executing)], [PrimitiveStarted(0), CommandSent(0)]);
    AdvanceFew(v, Saved(0, Executing), Saved(0, Executing));
    var v2 := AdvanceAll(v, [Saved(0, Executing), Saved(0, Executing)]);
    AdvanceFew(v2, PrimitiveStarted(0), CommandSent(0));
    AdvanceFew(AdvanceAll(v2, [PrimitiveStarted(0), CommandSent(0)]), Saved(0, Verifying), Saved(0, Succeeded));
  }

  lemma SucceedsThenRunsAgain()
    ensures StatusAfter(TWICE, 3) == Some(Succeeded) && RunsOf(Run(TWICE[..3]), 0) == 1
    ensures Run(TWICE[..4]) == Run(TWICE[..3])
    ensures StatusAfter(TWICE, 5) == Some(Blocked)
    ensures RunsOf(Run(TWICE), 0) == 2
  {
    Unroll(TWICE, 1);
    Unroll(TWICE, 2);
    Unroll(TWICE, 3);
    Unroll(TWICE, 4);
    Unroll(TWICE, 5);
    Unroll(TWICE, 6);
    Unroll(TWICE, 7);
    assert TWICE[..0] == [] && TWICE[..7] == TWICE;
    PreparedAgain(Run(TWICE[..0]), Create(0));
    PreparedAgain(Run(TWICE[..1]), RunPreflightCall(0, true, true));
    ExecutedOnce(Run(TWICE[..2]));
    PreparedAgain(Run(TWICE[..4]), BlockUnavailable(0));
    PreparedAgain(Run(TWICE[..5]), RunPreflightCall(0, true, true));
    ExecutedOnce(Run(TWICE[..6]));
  }

  /** Nor does it take a success: a crash before the primitive started settles the session as indeterminate, and
      the same handler turns that record into a blocked one. */
  const CUT_SHORT: seq<Occurrence> := [
    Complete(Create(0)), Complete(RunPreflightCall(0, true, true)), Crashed(ExecuteCall(0, SUCCESS), 1),
    Complete(BlockUnavailable(0))]

  lemma {:induction false} NoMarkIsGuarded(run: seq<Occurrence>)
    requires forall o :: o in run ==> !o.call.BlockUnavailable?
    ensures AllGuarded(run)
  {
    if run != [] {
      NoMarkIsGuarded(run[..|run| - 1]);
    }
  }

  lemma CutShort(s: State)
    requires 0 in s.sessions && s.sessions[0].status == Ready
    ensures var after := Occur(s, Crashed(ExecuteCall(0, SUCCESS), 1));
            HasStatus(ViewOf(after, 0), Indeterminate) && RunsOf(after, 0) == RunsOf(s, 0)
  {
    var events := ExecuteEvents(0, Ready, SUCCESS);
    assert events[..1] == [Saved(0, Executing)];
    HappenOne(s, Saved(0, Executing));
  }

  lemma InterruptedIsRewritten()
    ensures AllGuarded(CUT_SHORT[..3]) && RunsOf(Run(CUT_SHORT[..3]), 0) == 0
    ensures HasStatus(ViewOf(Run(CUT_SHORT[..3]), 0), Indeterminate)
    ensures HasStatus(ViewOf(Run(CUT_SHORT), 0), Blocked)
  {
    assert CUT_SHORT[..0] == [] && CUT_SHORT[..4] == CUT_SHORT;
    NoMarkIsGuarded(CUT_SHORT[..3]);
    Unroll(CUT_SHORT, 1);
    Unroll(CUT_SHORT, 2);
    Unroll(CUT_SHORT, 3);
    Unroll(CUT_SHORT, 4);
    PreparedAgain(Run(CUT_SHORT[..0]), Create(0));
    PreparedAgain(Run(CUT_SHORT[..1]), RunPreflightCall(0, true, true));
    CutShort(Run(CUT_SHORT[..2]));
    UnavailableEffect(Run(CUT_SHORT[..3]), 0);
  }
}
