/** The two nested guards around every device write under every interleaving of the calls that take them. */
module WriteGuards {
  import opened Common
  import opened GuardPrograms

  // ----- what every interleaving keeps -----

  ghost predicate Holds(shared: Shared, fact: Fact) {
    match fact
    case SessionUnlocked => shared.unlocked
    case WritesControlled => shared.policy.valid && shared.policy.controlled
    case PortOperable(host, port) => IsOperable(shared.policy, host, port)
  }

  ghost predicate ThreadOk(shared: Shared, th: Thread) {
    && Disciplined(th.code, Abs(th.held, th.facts))
    && Guarded(Abs(th.held, th.facts))
    && forall f :: f in th.facts ==> Holds(shared, f)
  }

  /** No two threads hold the same lock. */
  ghost predicate Exclusive(s: System) {
    forall t, u, l: Lock :: t in s.threads && u in s.threads && t != u && l in s.threads[t].held ==>
      l !in s.threads[u].held
  }

  ghost predicate Inv(s: System) {
    Exclusive(s) && forall t :: t in s.threads ==> ThreadOk(s.shared, s.threads[t])
  }

  lemma {:induction false} UnwindDisciplined(held: seq<Lock>, facts: set<Fact>)
    ensures Disciplined(Unwind(held), Abs(held, facts))
  {
    if held != [] {
      var rest := held[..|held| - 1];
      UnwindDisciplined(rest, StillGuarded(facts, rest));
      assert Unwind(held)[1..] == Unwind(rest);
    }
  }

  /** Shared state guarded by a lock changes only under that lock. */
  lemma EffectRespectsLocks(shared: Shared, instr: Instr, a: Abs, fact: Fact)
    requires CheckOne(instr, a).Some? && GuardOf(fact) !in a.held && Holds(shared, fact)
    ensures Holds(Effect(shared, instr), fact)
  {
  }

  lemma AdvanceOk(shared: Shared, th: Thread)
    requires ThreadOk(shared, th) && th.code != []
    ensures ThreadOk(Effect(shared, th.code[0]), Advance(shared, th))
  {
    var instr := th.code[0];
    if Refused(shared, instr) {
      UnwindDisciplined(th.held, th.facts);
    } else {
      assert CheckOne(instr, Abs(th.held, th.facts)).Some?;
    }
  }

  lemma StepKeepsInv(s: System, s': System, t: ThreadId)
    requires Inv(s) && Steps(s, s', t)
    ensures Inv(s')
  {
    var th := s.threads[t];
    AdvanceOk(s.shared, th);
    assert CheckOne(th.code[0], Abs(th.held, th.facts)).Some?;
    forall u | u in s'.threads ensures ThreadOk(s'.shared, s'.threads[u]) {
      if u != t {
        forall f | f in s.threads[u].facts ensures Holds(s'.shared, f) {
          EffectRespectsLocks(s.shared, th.code[0], Abs(th.held, th.facts), f);
        }
      }
    }
  }

  lemma MoveKeepsInv(s: System, s': System)
    requires Inv(s) && Moves(s, s')
    ensures Inv(s')
  {
    if t :| Steps(s, s', t) {
      StepKeepsInv(s, s', t);
    } else if t :| Leaves(s, s', t) {
      UnwindDisciplined(s.threads[t].held, s.threads[t].facts);
    } else {
      var t, call :| Begins(s, s', t, call);
      ProgramsDisciplined(call);
    }
  }

  lemma {:induction false} RunKeepsInv(run: seq<System>, i: nat)
    requires IsRun(run) && i < |run|
    ensures Inv(run[i])
  {
    if i > 0 {
      RunKeepsInv(run, i - 1);
      assert Moves(run[i - 1], run[i - 1 + 1]);
      MoveKeepsInv(run[i - 1], run[i]);
    }
  }

  /** Whenever an interface command is about to be sent, forward or back, the session is unlocked, writes are
      on and the port is operable, in every interleaving of the calls. */
  lemma SendsAreAuthorized(run: seq<System>, i: nat, t: ThreadId)
    requires IsRun(run) && i < |run|
    requires Unfinished(run[i], t) && run[i].threads[t].code[0].Send?
    ensures run[i].shared.unlocked
    ensures run[i].shared.policy.valid && run[i].shared.policy.controlled
    ensures var send := run[i].threads[t].code[0]; IsOperable(run[i].shared.policy, send.host, send.port)
  {
    RunKeepsInv(run, i);
    var th := run[i].threads[t];
    var send := th.code[0];
    assert CheckOne(send, Abs(th.held, th.facts)).Some?;
    assert SessionUnlocked in th.facts && WritesControlled in th.facts &&
      PortOperable(send.host, send.port) in th.facts;
  }

  /** A save is sent only from an unlocked session; whether writes are still on is not held stable. */
  lemma SavesAreUnlocked(run: seq<System>, i: nat, t: ThreadId)
    requires IsRun(run) && i < |run|
    requires Unfinished(run[i], t) && run[i].threads[t].code[0].Save?
    ensures run[i].shared.unlocked
  {
    RunKeepsInv(run, i);
    var th := run[i].threads[t];
    assert CheckOne(Save, Abs(th.held, th.facts)).Some?;
    assert SessionUnlocked in th.facts;
  }

  // ----- progress -----

  /** A thread stops only for a lock, and the one holding the policy lock does not stop for the write lock
      unless it holds that too. */
  lemma BlockedOnlyForLocks(s: System, t: ThreadId)
    requires Inv(s) && Unfinished(s, t) && !Enabled(s, t)
    ensures s.threads[t].code[0].Acquire?
    ensures s.threads[t].code[0].l == WriteLock ==> PolicyLock !in s.threads[t].held
    ensures s.threads[t].code[0].l !in s.threads[t].held
    ensures exists u :: u in s.threads && u != t && s.threads[t].code[0].l in s.threads[u].held
  {
    var th := s.threads[t];
    assert CheckOne(th.code[0], Abs(th.held, th.facts)).Some?;
  }

  lemma HolderUnfinished(s: System, t: ThreadId, l: Lock)
    requires Inv(s) && t in s.threads && l in s.threads[t].held
    ensures Unfinished(s, t)
  {
  }

  /** Whoever holds the policy lock can move. */
  lemma PolicyHolderMoves(s: System, t: ThreadId)
    requires Inv(s) && t in s.threads && PolicyLock in s.threads[t].held
    ensures Enabled(s, t)
  {
    HolderUnfinished(s, t, PolicyLock);
    if !Enabled(s, t) {
      BlockedOnlyForLocks(s, t);
    }
  }

  /** The order of the two locks rules out deadlock: while any call is unfinished, some call can move. */
  lemma NeverDeadlocked(run: seq<System>, i: nat, t: ThreadId)
    requires IsRun(run) && i < |run| && Unfinished(run[i], t)
    ensures exists u :: Enabled(run[i], u)
  {
    var s := run[i];
    RunKeepsInv(run, i);
    if !Enabled(s, t) {
      BlockedOnlyForLocks(s, t);
      var u :| u in s.threads && u != t && s.threads[t].code[0].l in s.threads[u].held;
      HolderUnfinished(s, u, s.threads[t].code[0].l);
      if !Enabled(s, u) {
        BlockedOnlyForLocks(s, u);
        var v :| v in s.threads && v != u && s.threads[u].code[0].l in s.threads[v].held;
        if s.threads[u].code[0].l == PolicyLock {
          PolicyHolderMoves(s, v);
        } else {
          PolicyHolderMoves(s, u);
        }
      }
    }
  }

  lemma {:induction false} EnoughReleases(code: Code, a: Abs)
    requires Disciplined(code, a)
    ensures |code| >= |a.held|
  {
    if code != [] {
      EnoughReleases(code[1..], CheckOne(code[0], a).value);
    }
  }

  lemma UnwindLength(held: seq<Lock>)
    ensures |Unwind(held)| == |held|
  {
  }

  /** And every step brings its call nearer to its end, and so does leaving early, at a refused check or anywhere. */
  lemma StepsShorten(s: System, s': System, t: ThreadId)
    requires Inv(s) && (Steps(s, s', t) || Leaves(s, s', t))
    ensures |s'.threads[t].code| < |s.threads[t].code|
  {
    var th := s.threads[t];
    if Refused(s.shared, th.code[0]) || Leaves(s, s', t) {
      EnoughReleases(th.code[1..], CheckOne(th.code[0], Abs(th.held, th.facts)).value);
      UnwindLength(th.held);
    }
  }

  // ----- every call does what it was asked -----

  /** The instruction is one the call was asked for, with its own arguments; locks, checks and reads are anybody's. */
  predicate Asked(call: Call, instr: Instr) {
    match instr
    case SetUnlocked(on) => call == if on then UnlockSession else LockSession
    case SetControlled(on) => call == SetControlledWrites(on)
    case SetState(host, port, state) => call == SetInterfaceState(host, port, state)
    case Protect(host, port) => call == EnsureProtected(host, port)
    case Send(host, port) =>
      (call.Operation? || call.ExecuteChange?) && call.precheckHost == host && call.port == port
    case Save => call == SaveConfig
    case _ => true
  }

  lemma OperationAsked(call: Call, guardHost: Host, precheckHost: Host, port: Port)
    requires (call.Operation? || call.ExecuteChange?) && call.precheckHost == precheckHost && call.port == port
    ensures forall x :: x in RunOperation(guardHost, precheckHost, port) ==> Asked(call, x)
  {
  }

  lemma ProgramsAsked(call: Call)
    ensures forall x :: x in Program(call) ==> Asked(call, x)
  {
    match call
    case Operation(guardHost, precheckHost, port) => OperationAsked(call, guardHost, precheckHost, port);
    case ExecuteChange(host, innerHost, precheckHost, port) =>
      OperationAsked(call, innerHost, precheckHost, port);
    case _ =>
  }

  predicate OnlyReleases(code: Code) {
    forall i :: 0 <= i < |code| ==> code[i].Release?
  }

  predicate At(th: Thread, pc: nat) {
    pc <= |Program(th.call)| && th.code == Program(th.call)[pc..]
  }

  /** The call is somewhere in its program, or on its way out. */
  ghost predicate OnCourse(th: Thread) {
    OnlyReleases(th.code) || exists pc: nat :: At(th, pc)
  }

  lemma {:induction false} UnwindReleases(held: seq<Lock>)
    ensures OnlyReleases(Unwind(held))
  {
    if held != [] {
      UnwindReleases(held[..|held| - 1]);
    }
  }

  /** What a move may do to one thread. */
  lemma OneThread(s: System, s': System, t: ThreadId)
    requires Moves(s, s') && t in s'.threads
    ensures t !in s.threads ==> At(s'.threads[t], 0)
    ensures t in s.threads ==>
              || s'.threads[t] == s.threads[t]
              || Steps(s, s', t)
              || s'.threads[t] == Raised(s.threads[t])
  {
  }

  lemma NextOnCourse(shared: Shared, th: Thread)
    requires OnCourse(th) && th.code != []
    ensures OnCourse(Advance(shared, th))
    ensures !Refused(shared, th.code[0]) ==> Advance(shared, th).code == th.code[1..]
    ensures forall pc: nat :: At(th, pc) && !Refused(shared, th.code[0]) ==> At(Advance(shared, th), pc + 1)
  {
    UnwindReleases(th.held);
    var next := Advance(shared, th);
    if !Refused(shared, th.code[0]) {
      forall pc: nat | At(th, pc) ensures At(next, pc + 1) {
        assert Program(th.call)[pc..][1..] == Program(th.call)[pc + 1..];
      }
    }
  }

  lemma {:induction false} StaysOnCourse(run: seq<System>, i: nat, t: ThreadId)
    requires IsRun(run) && i < |run| && t in run[i].threads
    ensures OnCourse(run[i].threads[t])
  {
    if i > 0 {
      assert Moves(run[i - 1], run[i - 1 + 1]);
      OneThread(run[i - 1], run[i], t);
      if t in run[i - 1].threads {
        StaysOnCourse(run, i - 1, t);
        var th := run[i - 1].threads[t];
        UnwindReleases(th.held);
        if Steps(run[i - 1], run[i], t) {
          NextOnCourse(run[i - 1].shared, th);
        }
      }
    }
  }

  /** In every interleaving, what a call is about to do is what it was asked to do: commands go to the port and host
      it named, and only an unlocking call unlocks. */
  lemma CallsDoWhatWasAsked(run: seq<System>, i: nat, t: ThreadId)
    requires IsRun(run) && i < |run| && Unfinished(run[i], t)
    ensures Asked(run[i].threads[t].call, run[i].threads[t].code[0])
  {
    var th := run[i].threads[t];
    StaysOnCourse(run, i, t);
    ProgramsAsked(th.call);
    if !OnlyReleases(th.code) {
      var pc: nat :| At(th, pc);
      assert th.code[0] in Program(th.call);
    }
  }

  /** At this index the thread took that instruction of its program, and was not refused. */
  ghost predicate Took(run: seq<System>, j: nat, t: ThreadId, call: Call, pc: nat) {
    && j + 1 < |run| && t in run[j].threads && run[j].threads[t].call == call
    && pc < |Program(call)| && At(run[j].threads[t], pc)
    && Steps(run[j], run[j + 1], t) && !Refused(run[j].shared, Program(call)[pc])
  }

  lemma OneEarlier(program: Code, before: Code, after: Code, at: nat, pc: nat)
    requires at <= |program| && pc <= |program| && before != [] && after == before[1..]
    requires before == program[at..] && after == program[pc..]
    ensures pc == at + 1 && before[0] == program[at]
  {
    assert |after| == |program| - pc;
  }

  lemma LastTaken(s: System, s': System, t: ThreadId, pc: nat)
    requires Moves(s, s') && t in s.threads && t in s'.threads && s'.threads[t] != s.threads[t]
    requires OnCourse(s.threads[t]) && At(s'.threads[t], pc) && !OnlyReleases(s'.threads[t].code)
    ensures Steps(s, s', t) && s.threads[t].call == s'.threads[t].call && pc > 0 && At(s.threads[t], pc - 1)
    ensures !Refused(s.shared, Program(s.threads[t].call)[pc - 1])
  {
    var th := s.threads[t];
    OneThread(s, s', t);
    UnwindReleases(th.held);
    NextOnCourse(s.shared, th);
    assert !OnlyReleases(th.code);
    var at: nat :| At(th, at);
    OneEarlier(Program(th.call), th.code, s'.threads[t].code, at, pc);
  }

  /** A thread that is past an instruction, and not on its way out, has taken it. */
  lemma {:induction false} HasTaken(run: seq<System>, i: nat, t: ThreadId, pc: nat) returns (j: nat)
    requires IsRun(run) && i < |run| && t in run[i].threads
    requires At(run[i].threads[t], pc) && !OnlyReleases(run[i].threads[t].code) && pc > 0
    ensures j < i && Took(run, j, t, run[i].threads[t].call, pc - 1)
  {
    var th := run[i].threads[t];
    assert |th.code| < |Program(th.call)|;
    assert i > 0 && Moves(run[i - 1], run[i - 1 + 1]);
    OneThread(run[i - 1], run[i], t);
    if run[i - 1].threads[t] == th {
      j := HasTaken(run, i - 1, t, pc);
    } else {
      j := i - 1;
      StaysOnCourse(run, j, t);
      LastTaken(run[j], run[j + 1], t, pc);
    }
  }

  // ----- locking and unlocking the session -----

  lemma UnlockProgram()
    ensures var p := Program(UnlockSession);
            |p| == 6 && p[1] == RequireControlled && p[4] == SetUnlocked(true) &&
            forall k :: 0 <= k < |p| && k != 4 ==> !p[k].SetUnlocked?
  {
  }

  /** At this index a call asked to unlock found writes controlled. */
  ghost predicate FoundControlled(run: seq<System>, j: nat, t: ThreadId) {
    Took(run, j, t, UnlockSession, 1) && run[j].shared.policy.valid && run[j].shared.policy.controlled
  }

  /** The step by which a call asked to unlock, which found writes controlled before, unlocks the session. */
  ghost predicate Unlocks(run: seq<System>, m: nat, t: ThreadId) {
    Took(run, m, t, UnlockSession, 4) && exists j: nat :: j < m && FoundControlled(run, j, t)
  }

  lemma UnlockingFoundControlled(run: seq<System>, m: nat, t: ThreadId, pc: nat)
    requires IsRun(run) && Took(run, m, t, UnlockSession, pc) && 1 <= pc <= 4
    ensures pc == 1 ==> FoundControlled(run, m, t)
    ensures pc > 1 ==> exists j: nat :: j < m && FoundControlled(run, j, t)
    decreases pc
  {
    UnlockProgram();
    if pc > 1 {
      assert run[m].threads[t].code[4 - pc] == Program(UnlockSession)[4];
      var j := HasTaken(run, m, t, pc);
      UnlockingFoundControlled(run, j, t, pc - 1);
    }
  }

  /** Nothing else unlocks a session, in any interleaving. */
  lemma OnlyUnlockingUnlocks(run: seq<System>, m: nat)
    requires IsRun(run) && m + 1 < |run| && !run[m].shared.unlocked && run[m + 1].shared.unlocked
    ensures exists t :: Unlocks(run, m, t)
  {
    assert Moves(run[m], run[m + 1]);
    var t :| Steps(run[m], run[m + 1], t);
    var th := run[m].threads[t];
    assert th.code[0] == SetUnlocked(true);
    CallsDoWhatWasAsked(run, m, t);
    StaysOnCourse(run, m, t);
    var pc: nat :| At(th, pc);
    UnlockProgram();
    assert Program(UnlockSession)[pc] == SetUnlocked(true);
    UnlockingFoundControlled(run, m, t, 4);
    assert Unlocks(run, m, t);
  }

  /** Every change of the thread so far was a step that was not refused: it neither left early nor was turned away. */
  ghost predicate RanThrough(run: seq<System>, i: nat, t: ThreadId) {
    && i < |run| && t in run[i].threads
    && forall j :: 0 <= j < i && t in run[j].threads && t in run[j + 1].threads &&
                   run[j].threads[t] != run[j + 1].threads[t] ==>
         Steps(run[j], run[j + 1], t) && !Refused(run[j].shared, run[j].threads[t].code[0])
  }

  /** Then it has taken every instruction so far. */
  lemma {:induction false} HasTakenAll(run: seq<System>, i: nat, t: ThreadId, k: nat) returns (pc: nat, j: nat)
    requires IsRun(run) && RanThrough(run, i, t) && k < |Program(run[i].threads[t].call)|
    ensures At(run[i].threads[t], pc) && (k < pc ==> j < i && Took(run, j, t, run[i].threads[t].call, k))
  {
    j := 0;
    var th := run[i].threads[t];
    if i == 0 || t !in run[i - 1].threads {
      assert i > 0 && Moves(run[i - 1], run[i - 1 + 1]);
      OneThread(run[i - 1], run[i], t);
      pc := 0;
    } else {
      assert Moves(run[i - 1], run[i - 1 + 1]);
      OneThread(run[i - 1], run[i], t);
      var before := run[i - 1].threads[t];
      pc, j := HasTakenAll(run, i - 1, t, k);
      if before != th {
        NextOnCourse(run[i - 1].shared, before);
        if pc == k {
          j := i - 1;
          assert before.code[0] == Program(th.call)[k];
        }
        pc := pc + 1;
      }
    }
  }

  /** What a call that changes something is for. */
  predicate Achieved(call: Call, shared: Shared) {
    match call
    case LockSession => !shared.unlocked
    case UnlockSession => shared.unlocked
    case SetControlledWrites(on) => shared.policy.valid && shared.policy.controlled == on
    case SetInterfaceState(host, port, state) => shared.policy.valid && StateOf(shared.policy, host, port) == state
    case EnsureProtected(host, port) => shared.policy.valid ==> StateOf(shared.policy, host, port) == Protected
    case _ => true
  }

  /** A call that ran to its end without leaving early or being refused has, at some step, achieved what it is for. */
  lemma FinishedCallAchieved(run: seq<System>, i: nat, t: ThreadId) returns (j: nat)
    requires IsRun(run) && RanThrough(run, i, t) && run[i].threads[t].code == []
    ensures j < i && t in run[j].threads && Steps(run[j], run[j + 1], t)
    ensures Achieved(run[i].threads[t].call, run[j + 1].shared)
  {
    var call := run[i].threads[t].call;
    var k := if call.UnlockSession? then 4 else if call.IsUnlockedQuery? then 0 else 1;
    assert k < |Program(call)|;
    var pc;
    pc, j := HasTakenAll(run, i, t, k);
    assert pc == |Program(call)|;
  }

  lemma {:induction false} LastUnlocking(run: seq<System>, j: nat, k: nat) returns (m: nat)
    requires j <= k < |run| && !run[j].shared.unlocked && run[k].shared.unlocked
    ensures j <= m < k && !run[m].shared.unlocked && run[m + 1].shared.unlocked
  {
    if run[k - 1].shared.unlocked {
      m := LastUnlocking(run, j, k - 1);
    } else {
      m := k - 1;
    }
  }

  /** So a session that was locked is unlocked at a later point only if, since then, a call asked to unlock it that
      had found writes controlled has done so. */
  lemma LockHolds(run: seq<System>, i: nat, t: ThreadId, k: nat) returns (j: nat, m: nat, u: ThreadId)
    requires IsRun(run) && RanThrough(run, i, t) && run[i].threads[t].code == []
    requires run[i].threads[t].call == LockSession && i <= k < |run| && run[k].shared.unlocked
    ensures j < i && t in run[j].threads && Steps(run[j], run[j + 1], t) && !run[j + 1].shared.unlocked
    ensures j < m < k && Unlocks(run, m, u)
  {
    j := FinishedCallAchieved(run, i, t);
    m := LastUnlocking(run, j + 1, k);
    OnlyUnlockingUnlocks(run, m);
    u :| Unlocks(run, m, u);
  }
}
