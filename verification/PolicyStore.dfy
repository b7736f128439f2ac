/** The objects behind the guards: the local policy file (`backend/app/interface_policy.py`) and the session's write
    lock (`backend/app/operations.py`). Their methods are the atomic effects that the interleaving model takes. */
module PolicyStore {
  import opened Common
  import opened GuardPrograms
  import opened WriteGuards

  /** The file as written, which load validates every time. */
  datatype Disk = Missing | Unreadable | Stored(controlled: bool, states: map<(Host, Port), PolicyState>)

  predicate Acceptable(states: map<(Host, Port), PolicyState>) {
    forall k :: k in states ==> !(states[k] == Operable && !k.1.physical)
  }

  const EMPTY: Policy := Policy(true, false, map[])

  /** What the file means; an unacceptable file means an empty policy that is not valid. */
  function Meaning(disk: Disk): Policy {
    match disk
    case Missing => EMPTY
    case Unreadable => EMPTY.(valid := false)
    case Stored(controlled, states) => if Acceptable(states) then Policy(true, controlled, states)
      else EMPTY.(valid := false)
  }

  datatype Refusal = NoDevice | NotWritable | InvalidPolicy | WritesDisabled | IsProtected | IsUnmanaged

  class InterfacePolicyStore {
    var disk: Disk

    constructor ()
      ensures disk == Missing
    {
      disk := Missing;
    }

    function Policy(): (p: GuardPrograms.Policy)
      reads this
    {
      Meaning(disk)
    }

    function Shared(unlocked: bool): GuardPrograms.Shared
      reads this
    {
      GuardPrograms.Shared(unlocked, Policy())
    }

    method SetControlledWrites(on: bool) returns (r: Result<(), Refusal>)
      modifies this
      ensures r.Ok? <==> !Refused(old(Shared(false)), SetControlled(on))
      ensures Shared(false) == Effect(old(Shared(false)), SetControlled(on))
      ensures r.Err? ==> disk == old(disk)
    {
      var data := Meaning(disk);
      if !data.valid {
        return Err(InvalidPolicy);
      }
      disk := Stored(on, data.states);
      r := Ok(());
    }

    method SetInterfaceState(host: Option<Host>, port: Port, state: PolicyState) returns (r: Result<(), Refusal>)
      modifies this
      ensures r.Ok? <==> host.Some? && !Refused(old(Shared(false)), SetState(host.value, port, state))
      ensures r.Err? ==> disk == old(disk)
      ensures host.Some? ==> Shared(false) == Effect(old(Shared(false)), SetState(host.value, port, state))
    {
      if host.None? {
        return Err(NoDevice);
      }
      if state == Operable && !port.physical {
        return Err(NotWritable);
      }
      var data := Meaning(disk);
      if !data.valid {
        return Err(InvalidPolicy);
      }
      disk := Stored(data.controlled,
                     if state == Unmanaged then data.states - {(host.value, port)}
                       else data.states[(host.value, port) := state]);
      r := Ok(());
    }

    /** Protects silently, or does nothing; a file that is already right is not rewritten. */
    method EnsureProtected(host: Option<Host>, port: Option<Port>)
      modifies this
      ensures host.None? || port.None? ==> disk == old(disk)
      ensures host.Some? && port.Some? ==> Shared(false) == Effect(old(Shared(false)), Protect(host.value, port.value))
      ensures host.Some? && port.Some? && StateOf(old(Policy()), host.value, port.value) == Protected ==>
              disk == old(disk)
    {
      if host.None? || port.None? {
        return;
      }
      var data := Meaning(disk);
      if !data.valid || StateOf(data, host.value, port.value) == Protected {
        ghost var k := (host.value, port.value);
        assert k in data.states ==> data.states[k := data.states[k]] == data.states;
        return;
      }
      disk := Stored(data.controlled, data.states[(host.value, port.value) := Protected]);
    }

    /** Everything but a valid policy that says this physical port is operable is refused. */
    method CheckOperable(host: Option<Host>, port: Port) returns (r: Result<Port, Refusal>)
      ensures r.Ok? <==> host.Some? && !Refused(Shared(false), RequireOperable(host.value, port))
      ensures r.Ok? ==> r.value == port
      ensures r == Err(IsProtected) <==>
              port.physical && host.Some? && Policy().valid && StateOf(Policy(), host.value, port) == Protected
    {
      if !port.physical {
        return Err(NotWritable);
      }
      if host.None? {
        return Err(NoDevice);
      }
      var data := Meaning(disk);
      if !data.valid {
        return Err(InvalidPolicy);
      }
      var state := StateOf(data, host.value, port);
      if state == Protected {
        return Err(IsProtected);
      }
      if state != Operable {
        return Err(IsUnmanaged);
      }
      r := Ok(port);
    }

    /** Entering `operation_guard`. */
    method EnterGuard(host: Option<Host>, port: Port) returns (r: Result<Port, Refusal>)
      ensures r.Ok? <==>
              && host.Some? && !Refused(Shared(false), RequireControlled)
              && !Refused(Shared(false), RequireOperable(host.value, port))
    {
      var data := Meaning(disk);
      if !data.valid || !data.controlled {
        return Err(WritesDisabled);
      }
      r := CheckOperable(host, port);
    }
  }

  class SessionLock {
    var unlocked: bool

    constructor ()
      ensures !unlocked
    {
      unlocked := false;
    }

    method Unlock(store: InterfacePolicyStore) returns (r: Result<(), Refusal>)
      modifies this
      ensures r.Ok? <==> !Refused(store.Shared(old(unlocked)), RequireControlled)
      ensures unlocked == (old(unlocked) || r.Ok?)
      ensures r.Ok? ==> store.Shared(unlocked) == Effect(store.Shared(old(unlocked)), SetUnlocked(true)) &&
                        Achieved(UnlockSession, store.Shared(unlocked))
    {
      var data := Meaning(store.disk);
      if !data.valid || !data.controlled {
        return Err(WritesDisabled);
      }
      unlocked := true;
      r := Ok(());
    }

    method Lock()
      modifies this
      ensures !unlocked
      ensures GuardPrograms.Shared(unlocked, EMPTY) ==
              Effect(GuardPrograms.Shared(old(unlocked), EMPTY), SetUnlocked(false))
      ensures forall policy: GuardPrograms.Policy :: Achieved(LockSession, GuardPrograms.Shared(unlocked, policy))
    {
      unlocked := false;
    }

    /** Entering `operation_guard`: both halves are required, though only the first stays as it was found. */
    method EnterGuard(store: InterfacePolicyStore) returns (r: Result<(), Refusal>)
      ensures r.Ok? <==>
              !Refused(store.Shared(unlocked), RequireUnlocked) && !Refused(store.Shared(unlocked), RequireControlled)
    {
      var data := Meaning(store.disk);
      if !unlocked || !data.valid || !data.controlled {
        return Err(WritesDisabled);
      }
      r := Ok(());
    }
  }

  // ----- what a history of edits leaves -----

  predicate IsEdit(i: Instr) {
    i.SetControlled? || i.SetState? || i.Protect?
  }

  function Edited(shared: Shared, edits: seq<Instr>): Shared {
    if edits == [] then shared else Effect(Edited(shared, edits[..|edits| - 1]), edits[|edits| - 1])
  }

  /** The edit decides the port's state. */
  predicate Decides(i: Instr, host: Host, port: Port) {
    (i.SetState? && i.host == host && i.port == port && !(i.state == Operable && !port.physical)) ||
    (i.Protect? && i.host == host && i.port == port)
  }

  /** The state given by the last edit that decided it. */
  function LastDecided(edits: seq<Instr>, host: Host, port: Port): PolicyState {
    if edits == [] then Unmanaged
    else
      var last := edits[|edits| - 1];
      if Decides(last, host, port) then (if last.Protect? then Protected else last.state)
      else LastDecided(edits[..|edits| - 1], host, port)
  }

  lemma EditDecides(shared: Shared, i: Instr, host: Host, port: Port)
    requires IsEdit(i) && shared.policy.valid
    ensures var policy := Effect(shared, i).policy;
            policy.valid &&
            StateOf(policy, host, port) ==
              if Decides(i, host, port) then (if i.Protect? then Protected else i.state)
                else StateOf(shared.policy, host, port)
    ensures Acceptable(shared.policy.states) ==> Acceptable(Effect(shared, i).policy.states)
  {
  }

  /** From a missing file on, a port is in the state last given to it, and in none by any other edit; the policy
      stays valid, and would be accepted when loaded again. */
  lemma {:induction false} StateIsLastDecided(edits: seq<Instr>, host: Host, port: Port)
    requires forall i :: 0 <= i < |edits| ==> IsEdit(edits[i])
    ensures var policy := Edited(Shared(false, EMPTY), edits).policy;
            policy.valid && Acceptable(policy.states) && StateOf(policy, host, port) == LastDecided(edits, host, port)
  {
    if edits != [] {
      var init, last := edits[..|edits| - 1], edits[|edits| - 1];
      StateIsLastDecided(init, host, port);
      EditDecides(Edited(Shared(false, EMPTY), init), last, host, port);
    }
  }

  /** So a port may be operated on exactly when it is physical and the last word on it was OPERABLE. */
  lemma OperableExactlyWhenLastWord(edits: seq<Instr>, host: Host, port: Port)
    requires forall i :: 0 <= i < |edits| ==> IsEdit(edits[i])
    ensures IsOperable(Edited(Shared(false, EMPTY), edits).policy, host, port) <==>
            port.physical && LastDecided(edits, host, port) == Operable
  {
    StateIsLastDecided(edits, host, port);
  }

  /** Automatic protection never grants authority, on any policy, and takes it from no other port. */
  lemma ProtectionOnlyTakesAway(shared: Shared, host: Host, port: Port, h: Host, p: Port)
    ensures var after := Effect(shared, Protect(host, port)).policy;
            IsOperable(after, h, p) <==> IsOperable(shared.policy, h, p) && (h, p) != (host, port)
  {
  }
}
