/** The calls that take the two nested re-entrant guards around every device write
    (`backend/app/operations.py`, `backend/app/interface_policy.py`), each as the sequence of atomic steps it takes on
    the shared state, and the discipline that each follows. */
module GuardPrograms {
  import opened Common

  type Host = nat

  datatype Port = Port(physical: bool, index: nat)

  type ThreadId = nat

  datatype PolicyState = Protected | Operable | Unmanaged

  /** `valid` is false when the stored policy cannot be loaded. */
  datatype Policy = Policy(valid: bool, controlled: bool, states: map<(Host, Port), PolicyState>)

  datatype Shared = Shared(unlocked: bool, policy: Policy)

  /** The write lock's re-entrant lock, and the policy store's. */
  datatype Lock = WriteLock | PolicyLock

  datatype Instr =
    | Acquire(l: Lock)
    | Release(l: Lock)
    | RequireUnlocked
    | RequireControlled
    | RequireOperable(host: Host, port: Port)
    | ReadPolicy
    | SetUnlocked(on: bool)
    | SetControlled(on: bool)
    | SetState(host: Host, port: Port, state: PolicyState)
    | Protect(host: Host, port: Port)
    | Send(host: Host, port: Port)
    | Save

  type Code = seq<Instr>

  function StateOf(policy: Policy, host: Host, port: Port): PolicyState {
    if (host, port) in policy.states then policy.states[(host, port)] else Unmanaged
  }

  predicate IsOperable(policy: Policy, host: Host, port: Port) {
    policy.valid && port.physical && StateOf(policy, host, port) == Operable
  }

  // ----- the calls -----

  /** `WriteLock.operation_guard`. */
  function UnderWriteLock(body: Code): Code {
    [Acquire(WriteLock), RequireUnlocked] + [Acquire(PolicyLock), RequireControlled, Release(PolicyLock)] +
    body + [Release(WriteLock)]
  }

  function AssertOperable(host: Host, port: Port): Code {
    [Acquire(PolicyLock), RequireOperable(host, port), Release(PolicyLock)]
  }

  /** `InterfacePolicyStore.operation_guard`. */
  function UnderPolicy(host: Host, port: Port, body: Code): Code {
    [Acquire(PolicyLock), RequireControlled] + AssertOperable(host, port) + body + [Release(PolicyLock)]
  }

  /** `WriteLock.unlocked`, which reads the policy while holding the write lock. */
  function QueryUnlocked(): Code {
    [Acquire(WriteLock), Acquire(PolicyLock), ReadPolicy, Release(PolicyLock), Release(WriteLock)]
  }

  function ReadUnderLock(): Code {
    [Acquire(PolicyLock), ReadPolicy, Release(PolicyLock)]
  }

  /** `run_operation`: the guard reads the configured host once and the precheck reads it again. A command
      goes forward, and possibly another back. */
  function RunOperation(guardHost: Host, precheckHost: Host, port: Port): Code {
    UnderWriteLock(UnderPolicy(guardHost, port,
      AssertOperable(precheckHost, port) + [Send(precheckHost, port), Send(precheckHost, port)]))
  }

  /** `ChangeAssuranceService.execute` takes both guards, queries them in its preflight, and re-enters them
      through `run_operation`. */
  function Execute(host: Host, innerHost: Host, precheckHost: Host, port: Port): Code {
    UnderWriteLock(UnderPolicy(host, port,
      ReadUnderLock() + ReadUnderLock() + QueryUnlocked() + RunOperation(innerHost, precheckHost, port)))
  }

  datatype Call =
    | LockSession
    | UnlockSession
    | IsUnlockedQuery
    | SetControlledWrites(on: bool)
    | SetInterfaceState(host: Host, port: Port, state: PolicyState)
    | EnsureProtected(host: Host, port: Port)
    | Operation(guardHost: Host, precheckHost: Host, port: Port)
    | ExecuteChange(host: Host, innerHost: Host, precheckHost: Host, port: Port)
    | SaveConfig

  function Program(call: Call): Code {
    match call
    case LockSession => [Acquire(WriteLock), SetUnlocked(false), Release(WriteLock)]
    case UnlockSession =>
      [Acquire(PolicyLock), RequireControlled, Release(PolicyLock)] +
      [Acquire(WriteLock), SetUnlocked(true), Release(WriteLock)]
    case IsUnlockedQuery => QueryUnlocked()
    case SetControlledWrites(on) => [Acquire(PolicyLock), SetControlled(on), Release(PolicyLock)]
    case SetInterfaceState(host, port, state) => [Acquire(PolicyLock), SetState(host, port, state), Release(PolicyLock)]
    case EnsureProtected(host, port) => [Acquire(PolicyLock), Protect(host, port), Release(PolicyLock)]
    case Operation(guardHost, precheckHost, port) => RunOperation(guardHost, precheckHost, port)
    case ExecuteChange(host, innerHost, precheckHost, port) => Execute(host, innerHost, precheckHost, port)
    case SaveConfig => UnderWriteLock([Save])
  }

  // ----- steps -----

  datatype Fact = SessionUnlocked | WritesControlled | PortOperable(host: Host, port: Port)

  /** A running call: what was asked, what is left of it, the locks it holds (innermost last), and, as bookkeeping
      for the proof, what it has checked under locks it still holds. */
  datatype Thread = Thread(call: Call, code: Code, held: seq<Lock>, facts: set<Fact>)

  datatype System = System(shared: Shared, threads: map<ThreadId, Thread>)

  function GuardOf(fact: Fact): Lock {
    if fact.SessionUnlocked? then WriteLock else PolicyLock
  }

  /** What survives a release: the facts whose lock is still held. */
  function StillGuarded(facts: set<Fact>, held: seq<Lock>): set<Fact> {
    set f | f in facts && GuardOf(f) in held
  }

  /** Leaving by an exception: release what is held, innermost first. */
  function Unwind(held: seq<Lock>): Code {
    if held == [] then [] else [Release(held[|held| - 1])] + Unwind(held[..|held| - 1])
  }

  /** A re-entrant lock is available unless another thread holds it. */
  ghost predicate Available(s: System, t: ThreadId, l: Lock) {
    forall u :: u in s.threads && u != t ==> l !in s.threads[u].held
  }

  ghost predicate Unfinished(s: System, t: ThreadId) {
    t in s.threads && s.threads[t].code != []
  }

  ghost predicate Enabled(s: System, t: ThreadId) {
    && Unfinished(s, t)
    && (s.threads[t].code[0].Acquire? ==> Available(s, t, s.threads[t].code[0].l))
  }

  function Next(th: Thread): Thread
    requires th.code != []
  {
    th.(code := th.code[1..])
  }

  function Raised(th: Thread): Thread {
    th.(code := Unwind(th.held))
  }

  /** The shared state after an instruction that changes it. */
  function Effect(shared: Shared, instr: Instr): Shared {
    match instr
    case SetUnlocked(on) => shared.(unlocked := on)
    case SetControlled(on) =>
      if shared.policy.valid then shared.(policy := shared.policy.(controlled := on)) else shared
    case SetState(host, port, state) =>
      if !shared.policy.valid || (state == Operable && !port.physical) then shared
      else if state == Unmanaged then shared.(policy := shared.policy.(states := shared.policy.states - {(host, port)}))
      else shared.(policy := shared.policy.(states := shared.policy.states[(host, port) := state]))
    case Protect(host, port) =>
      if shared.policy.valid then shared.(policy := shared.policy.(states :=
        shared.policy.states[(host, port) := Protected]))
      else shared
    case _ => shared
  }

  predicate Refused(shared: Shared, instr: Instr) {
    match instr
    case RequireUnlocked => !shared.unlocked
    case RequireControlled => !shared.policy.valid || !shared.policy.controlled
    case RequireOperable(host, port) => !IsOperable(shared.policy, host, port)
    case SetControlled(_) => !shared.policy.valid
    case SetState(_, port, state) => !shared.policy.valid || (state == Operable && !port.physical)
    case _ => false
  }

  /** What the thread knows after the instruction went through. */
  function Learned(facts: set<Fact>, instr: Instr): set<Fact> {
    match instr
    case RequireUnlocked => facts + {SessionUnlocked}
    case RequireControlled => facts + {WritesControlled}
    case RequireOperable(host, port) => facts + {PortOperable(host, port)}
    case SetUnlocked(_) => facts - {SessionUnlocked}
    case SetControlled(_) => facts - {WritesControlled}
    case SetState(_, _, _) => set f | f in facts && !f.PortOperable?
    case Protect(_, _) => set f | f in facts && !f.PortOperable?
    case _ => facts
  }

  /** The thread after its next instruction. */
  function Advance(shared: Shared, th: Thread): Thread
    requires th.code != []
  {
    var instr := th.code[0];
    if Refused(shared, instr) then Raised(th)
    else match instr
      case Acquire(l) => Next(th).(held := th.held + [l])
      case Release(_) =>
        var held := if th.held == [] then [] else th.held[..|th.held| - 1];
        Next(th).(held := held, facts := StillGuarded(th.facts, held))
      case _ => Next(th).(facts := Learned(th.facts, instr))
  }

  ghost predicate Steps(s: System, s': System, t: ThreadId) {
    && Enabled(s, t)
    && s' == System(Effect(s.shared, s.threads[t].code[0]), s.threads[t := Advance(s.shared, s.threads[t])])
  }

  /** A call leaves early, by a return or an exception of the device or of anything else it awaits: at any
      point but the release of a lock. */
  ghost predicate Leaves(s: System, s': System, t: ThreadId) {
    && Unfinished(s, t) && !s.threads[t].code[0].Release?
    && s' == s.(threads := s.threads[t := Raised(s.threads[t])])
  }

  /** A new call begins on a fresh thread. */
  ghost predicate Begins(s: System, s': System, t: ThreadId, call: Call) {
    && t !in s.threads
    && s' == s.(threads := s.threads[t := Thread(call, Program(call), [], {})])
  }

  ghost predicate Moves(s: System, s': System) {
    || (exists t :: Steps(s, s', t))
    || (exists t :: Leaves(s, s', t))
    || (exists t, call :: Begins(s, s', t, call))
  }

  /** Any interleaving: a run is a sequence of systems, each one step, one early exit or one new call after the last. */
  ghost predicate IsRun(run: seq<System>) {
    && run != [] && run[0].threads == map[]
    && forall i :: 0 <= i < |run| - 1 ==> Moves(run[i], run[i + 1])
  }

  // ----- the discipline each call follows -----

  datatype Abs = Abs(held: seq<Lock>, facts: set<Fact>)

  /** The write lock is never first taken while holding the policy lock; state is read and written under
      its lock; a command is sent only when everything has been checked under locks still held. */
  function CheckOne(instr: Instr, a: Abs): Option<Abs> {
    match instr
    case Acquire(l) =>
      if l == WriteLock && PolicyLock in a.held && WriteLock !in a.held then None else Some(a.(held := a.held + [l]))
    case Release(l) =>
      if a.held == [] || a.held[|a.held| - 1] != l then None
      else Some(Abs(a.held[..|a.held| - 1], StillGuarded(a.facts, a.held[..|a.held| - 1])))
    case RequireUnlocked => if WriteLock in a.held then Some(a.(facts := Learned(a.facts, instr))) else None
    case SetUnlocked(_) => if WriteLock in a.held then Some(a.(facts := Learned(a.facts, instr))) else None
    case Send(host, port) =>
      if {SessionUnlocked, WritesControlled, PortOperable(host, port)} <= a.facts then Some(a) else None
    case Save => if SessionUnlocked in a.facts then Some(a) else None
    case _ => if PolicyLock in a.held then Some(a.(facts := Learned(a.facts, instr))) else None
  }

  function Check(code: Code, a: Abs): Option<Abs> {
    if code == [] then Some(a)
    else match CheckOne(code[0], a)
      case None => None
      case Some(next) => Check(code[1..], next)
  }

  lemma {:induction false} CheckConcat(first: Code, second: Code, a: Abs)
    ensures Check(first + second, a) == match Check(first, a) case None => None case Some(b) => Check(second, b)
  {
    if first == [] {
      assert first + second == second;
    } else {
      assert (first + second)[1..] == first[1..] + second;
      match CheckOne(first[0], a)
      case None =>
      case Some(next) => CheckConcat(first[1..], second, next);
    }
  }

  /** Following the discipline from `a` to the end, with nothing held at the end. */
  ghost predicate Disciplined(code: Code, a: Abs) {
    match Check(code, a)
    case None => false
    case Some(b) => b.held == []
  }

  // ----- every call follows it -----

  function Then(a: Option<Abs>, instr: Instr): Option<Abs> {
    match a
    case None => None
    case Some(b) => CheckOne(instr, b)
  }

  lemma CheckUpToThree(i: Instr, j: Instr, k: Instr, a: Abs)
    ensures Check([i], a) == Then(Some(a), i)
    ensures Check([i, j], a) == Then(Then(Some(a), i), j)
    ensures Check([i, j, k], a) == Then(Then(Then(Some(a), i), j), k)
  {
    assert forall x: Instr, b: Abs :: Check([x], b) == CheckOne(x, b) by {
      forall x: Instr, b: Abs ensures Check([x], b) == CheckOne(x, b) {
        assert [x][1..] == [];
      }
    }
    assert [i, j][1..] == [j];
    assert [j, k][1..] == [k] && [i, j, k][1..] == [j, k];
  }

  ghost predicate Guarded(a: Abs) {
    forall f :: f in a.facts ==> GuardOf(f) in a.held
  }

  /** The code follows the discipline from `a` and gives back every lock it takes. */
  ghost predicate Balanced(code: Code, a: Abs) {
    match Check(code, a)
    case None => false
    case Some(b) => b.held == a.held && Guarded(b)
  }

  /** One check or read under the policy lock; what it learns survives if the lock was already held. */
  lemma PolicySection(instr: Instr, a: Abs)
    requires Guarded(a) && (instr.ReadPolicy? || instr.RequireControlled? || instr.RequireOperable?)
    ensures var code := [Acquire(PolicyLock), instr, Release(PolicyLock)];
            Balanced(code, a) && Check(code, a).value.facts == StillGuarded(Learned(a.facts, instr), a.held)
  {
    CheckUpToThree(Acquire(PolicyLock), instr, Release(PolicyLock), a);
    assert (a.held + [PolicyLock])[..|a.held|] == a.held;
  }

  ghost predicate InsideWrite(a: Abs, b: Abs) {
    b.held == a.held + [WriteLock] && Guarded(b) && SessionUnlocked in b.facts
  }

  /** Releasing the one lock taken restores the balance. */
  lemma LeaveBalanced(code: Code, l: Lock, a: Abs)
    requires Check(code, a).Some? && Check(code, a).value.held == a.held + [l]
    ensures Balanced(code + [Release(l)], a)
  {
    CheckConcat(code, [Release(l)], a);
    CheckUpToThree(Release(l), ReadPolicy, ReadPolicy, Check(code, a).value);
    assert (a.held + [l])[..|a.held|] == a.held;
  }

  /** A body that is balanced wherever the session is known to be unlocked is balanced under the write guard. */
  lemma UnderWriteLockBalanced(body: Code, a: Abs)
    requires Guarded(a) && (PolicyLock in a.held ==> WriteLock in a.held)
    requires forall b :: InsideWrite(a, b) ==> Balanced(body, b)
    ensures Balanced(UnderWriteLock(body), a)
  {
    var enter, probe := [Acquire(WriteLock), RequireUnlocked],
      [Acquire(PolicyLock), RequireControlled, Release(PolicyLock)];
    var entered := Abs(a.held + [WriteLock], a.facts + {SessionUnlocked});
    CheckUpToThree(Acquire(WriteLock), RequireUnlocked, ReadPolicy, a);
    PolicySection(RequireControlled, entered);
    CheckConcat(enter, probe, a);
    var inside := Check(enter + probe, a).value;
    assert InsideWrite(a, inside);
    CheckConcat(enter + probe, body, a);
    LeaveBalanced(enter + probe + body, WriteLock, a);
  }

  ghost predicate InsidePolicy(a: Abs, b: Abs) {
    b.held == a.held + [PolicyLock] && Guarded(b) && a.facts <= b.facts && WritesControlled in b.facts
  }

  lemma UnderPolicyBalanced(host: Host, port: Port, body: Code, a: Abs)
    requires Guarded(a)
    requires forall b :: InsidePolicy(a, b) ==> Balanced(body, b)
    ensures Balanced(UnderPolicy(host, port, body), a)
  {
    var enter := [Acquire(PolicyLock), RequireControlled];
    var entered := Abs(a.held + [PolicyLock], a.facts + {WritesControlled});
    CheckUpToThree(Acquire(PolicyLock), RequireControlled, ReadPolicy, a);
    PolicySection(RequireOperable(host, port), entered);
    CheckConcat(enter, AssertOperable(host, port), a);
    assert InsidePolicy(a, Check(enter + AssertOperable(host, port), a).value);
    CheckConcat(enter + AssertOperable(host, port), body, a);
    LeaveBalanced(enter + AssertOperable(host, port) + body, PolicyLock, a);
  }

  /** Under both guards a command may go to the port the precheck has just found operable. */
  lemma SendsBalanced(host: Host, port: Port, a: Abs)
    requires Guarded(a) && WriteLock in a.held && PolicyLock in a.held
    requires {SessionUnlocked, WritesControlled} <= a.facts
    ensures Balanced(AssertOperable(host, port) + [Send(host, port), Send(host, port)], a)
  {
    PolicySection(RequireOperable(host, port), a);
    CheckUpToThree(Send(host, port), Send(host, port), ReadPolicy, Check(AssertOperable(host, port), a).value);
    CheckConcat(AssertOperable(host, port), [Send(host, port), Send(host, port)], a);
  }

  /** An operation may start with neither lock, or re-enter both. */
  lemma OperationBalanced(guardHost: Host, precheckHost: Host, port: Port, a: Abs)
    requires Guarded(a) && (PolicyLock in a.held ==> WriteLock in a.held)
    ensures Balanced(RunOperation(guardHost, precheckHost, port), a)
  {
    var sends := AssertOperable(precheckHost, port) + [Send(precheckHost, port), Send(precheckHost, port)];
    forall b | InsideWrite(a, b) ensures Balanced(UnderPolicy(guardHost, port, sends), b) {
      forall c | InsidePolicy(b, c) ensures Balanced(sends, c) {
        SendsBalanced(precheckHost, port, c);
      }
      UnderPolicyBalanced(guardHost, port, sends, b);
    }
    UnderWriteLockBalanced(UnderPolicy(guardHost, port, sends), a);
  }

  lemma QueryBalanced(a: Abs)
    requires Guarded(a) && (PolicyLock in a.held ==> WriteLock in a.held)
    ensures Balanced(QueryUnlocked(), a)
  {
    var entered := a.(held := a.held + [WriteLock]);
    CheckUpToThree(Acquire(WriteLock), ReadPolicy, ReadPolicy, a);
    PolicySection(ReadPolicy, entered);
    CheckConcat([Acquire(WriteLock)], ReadUnderLock(), a);
    LeaveBalanced([Acquire(WriteLock)] + ReadUnderLock(), WriteLock, a);
    assert [Acquire(WriteLock)] + ReadUnderLock() + [Release(WriteLock)] == QueryUnlocked();
  }

  lemma ExecuteBalanced(host: Host, innerHost: Host, precheckHost: Host, port: Port, a: Abs)
    requires a == Abs([], {})
    ensures Balanced(Execute(host, innerHost, precheckHost, port), a)
  {
    var inner := RunOperation(innerHost, precheckHost, port);
    var body := ReadUnderLock() + ReadUnderLock() + QueryUnlocked() + inner;
    forall b | InsideWrite(a, b) ensures Balanced(UnderPolicy(host, port, body), b) {
      forall c | InsidePolicy(b, c) ensures Balanced(body, c) {
        PolicySection(ReadPolicy, c);
        var c1 := Check(ReadUnderLock(), c).value;
        PolicySection(ReadPolicy, c1);
        CheckConcat(ReadUnderLock(), ReadUnderLock(), c);
        var c2 := Check(ReadUnderLock(), c1).value;
        QueryBalanced(c2);
        CheckConcat(ReadUnderLock() + ReadUnderLock(), QueryUnlocked(), c);
        var c3 := Check(QueryUnlocked(), c2).value;
        OperationBalanced(innerHost, precheckHost, port, c3);
        CheckConcat(ReadUnderLock() + ReadUnderLock() + QueryUnlocked(), inner, c);
      }
      UnderPolicyBalanced(host, port, body, b);
    }
    UnderWriteLockBalanced(UnderPolicy(host, port, body), a);
  }

  /** A single change under the lock that guards it. */
  lemma ChangeDisciplined(l: Lock, instr: Instr)
    requires (instr.SetUnlocked? && l == WriteLock) ||
             ((instr.SetControlled? || instr.SetState? || instr.Protect?) && l == PolicyLock)
    ensures Disciplined([Acquire(l), instr, Release(l)], Abs([], {}))
  {
    var inside := Abs([l], {});
    CheckUpToThree(Acquire(l), instr, Release(l), Abs([], {}));
    assert CheckOne(Acquire(l), Abs([], {})) == Some(inside) by { assert [] + [l] == [l]; }
    assert CheckOne(instr, inside).value.held == [l];
    assert [l][..0] == [];
  }

  /** Every call follows the discipline. */
  lemma ProgramsDisciplined(call: Call)
    ensures Disciplined(Program(call), Abs([], {}))
  {
    match call
    case LockSession => ChangeDisciplined(WriteLock, SetUnlocked(false));
    case UnlockSession =>
      PolicySection(RequireControlled, Abs([], {}));
      assert StillGuarded({} + {WritesControlled}, []) == {};
      ChangeDisciplined(WriteLock, SetUnlocked(true));
      CheckConcat([Acquire(PolicyLock), RequireControlled, Release(PolicyLock)],
                  [Acquire(WriteLock), SetUnlocked(true), Release(WriteLock)], Abs([], {}));
    case IsUnlockedQuery => QueryBalanced(Abs([], {}));
    case SetControlledWrites(on) => ChangeDisciplined(PolicyLock, SetControlled(on));
    case SetInterfaceState(host, port, state) => ChangeDisciplined(PolicyLock, SetState(host, port, state));
    case EnsureProtected(host, port) => ChangeDisciplined(PolicyLock, Protect(host, port));
    case Operation(guardHost, precheckHost, port) => OperationBalanced(guardHost, precheckHost, port, Abs([], {}));
    case ExecuteChange(host, innerHost, precheckHost, port) =>
      ExecuteBalanced(host, innerHost, precheckHost, port, Abs([], {}));
    case SaveConfig =>
      forall b | InsideWrite(Abs([], {}), b) ensures Balanced([Save], b) {
        CheckUpToThree(Save, ReadPolicy, ReadPolicy, b);
      }
      UnderWriteLockBalanced([Save], Abs([], {}));
  }
}
