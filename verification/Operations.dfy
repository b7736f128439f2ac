/** One bounded configuration change from precheck to rollback, against a device that reads truthfully but
    may fail any read and may raise on, reject, ignore or apply any command (`backend/app/operations.py`). */
module Operations {
  import opened Common
  import opened Text
  import opened IosConfig

  datatype Kind = AdminUp | AdminDown | PoeAuto | PoeNever | DescriptionSet

  predicate IsPoe(kind: Kind) {
    kind == PoeAuto || kind == PoeNever
  }

  function Wanted(kind: Kind): string {
    if kind == PoeAuto then "auto" else "never"
  }

  /** The one line an operation puts inside the interface. */
  function Forward(kind: Kind, value: string): Action {
    match kind
    case AdminUp => ClearShutdown
    case AdminDown => SetShutdown
    case DescriptionSet => SetDescription(value)
    case _ => SetPower(Wanted(kind))
  }

  /** `_rollback_commands`: the restoring line, if the old value can be expressed at all. */
  function Rollback(kind: Kind, before: Properties): Option<Action> {
    match kind
    case AdminUp => Some(if before.shutdown then SetShutdown else ClearShutdown)
    case AdminDown => Some(if before.shutdown then SetShutdown else ClearShutdown)
    case DescriptionSet =>
      if before.description == "" then Some(ClearDescription)
      else (match Sanitize(before.description)
            case Err(_) => None
            case Ok(text) => Some(SetDescription(text)))
    case _ => if before.poe == "auto" || before.poe == "never" then Some(SetPower(before.poe)) else None
  }

  function ApplyTo(p: Properties, action: Action): Properties {
    match action
    case SetShutdown => p.(shutdown := true)
    case ClearShutdown => p.(shutdown := false)
    case SetPower(mode) => p.(poe := mode)
    case SetDescription(text) => p.(description := text)
    case ClearDescription => p.(description := "")
  }

  /** Forward and then back restores every bounded property, except that a description with space at either
      end comes back without it. */
  lemma RollbackRestores(kind: Kind, value: string, before: Properties)
    requires Rollback(kind, before).Some?
    ensures ApplyTo(ApplyTo(before, Forward(kind, value)), Rollback(kind, before).value) == before <==>
            (kind == DescriptionSet ==> Trimmed(before.description))
  {
    StripTrims(before.description);
  }

  /** A description with a leading space comes back without it. */
  lemma PaddingIsLost(value: string)
    ensures var before := Properties(" x", false, "auto");
            && Rollback(DescriptionSet, before).Some?
            && ApplyTo(ApplyTo(before, Forward(DescriptionSet, value)),
                       Rollback(DescriptionSet, before).value).description == "x"
  {
    assert StripLeft(" x") == "x" && StripRight("x") == "x";
    assert forall i :: 0 <= i < |"x"| ==> "x"[i] == 'x';
  }

  /** The same on the simulator: rendering, reading, acting, undoing and reading again. The rendered
      description is the overriding one, so there too only an untrimmed fixture description is lost. */
  lemma SimulatedRollbackRestores(kind: Kind, value: string, ov: Overrides, name: Name, fixture: Properties)
    requires Bounded(Forward(kind, value))
    requires Rollback(kind, Overridden(ov, name, fixture)).Some?
    ensures var before := Overridden(ov, name, fixture);
            var after := Applied(Applied(ov, name, Forward(kind, value)), name, Rollback(kind, before).value);
            Overridden(after, name, fixture) == before <==> (kind == DescriptionSet ==> Trimmed(before.description))
  {
    var before := Overridden(ov, name, fixture);
    match kind
    case DescriptionSet =>
      StripTrims(before.description);
      StripTwice(before.description);
      var undo := Rollback(kind, before).value;
      var forward := Applied(ov, name, Forward(kind, value));
      var after := Applied(forward, name, undo);
      assert after.description[name] == Strip(before.description) by {
        if before.description == "" { assert Strip("") == ""; }
      }
      assert after.admin == ov.admin && after.poe == ov.poe;
    case AdminUp =>
    case AdminDown =>
    case PoeAuto =>
    case PoeNever =>
  }

  function Commands(name: Name, action: Action): seq<Command> {
    [ConfigureTerminal, EnterInterface(name), Do(action), End]
  }

  // ----- the device -----

  datatype LinkStatus = Disabled | Connected | NotConnect | OtherStatus

  datatype Row = Row(status: LinkStatus, name: string)

  type Running = map<Name, Properties>

  datatype DeviceReply = Ok_ | Refused | Lost

  /** What a command sequence does when it is applied: one line inside one interface. */
  function Effect(running: Running, commands: seq<Command>): Running {
    if |commands| == 4 && commands[1].EnterInterface? && commands[2].Do? && commands[1].name in running
    then running[commands[1].name := ApplyTo(running[commands[1].name], commands[2].action)]
    else running
  }

  lemma EffectOf(running: Running, name: Name, action: Action)
    requires name in running
    ensures Effect(running, Commands(name, action)) == running[name := ApplyTo(running[name], action)]
  {
  }

  datatype ReadFailed = ReadFailed

  /** One command sequence as the device took it: its reply, and the faults there had been when it was sent. */
  datatype Exchange = Exchange(reply: DeviceReply, faults: nat)

  class ManagedSwitch {
    var running: Running
    var startup: Running
    var sent: seq<seq<Command>>
    /** Interfaces whose row the status and power tables show under the looked-up name. */
    const rows: set<Name>
    const poeRows: set<Name>
    /** How often something other than the plain course of events has happened. */
    ghost var faults: nat
    /** One entry for each sequence sent. */
    ghost var exchanges: seq<Exchange>

    method ReadRow(name: Name) returns (r: Result<Option<Row>, ReadFailed>)
      modifies this`faults
      ensures faults >= old(faults) && (r.Err? ==> faults > old(faults))
      ensures r.Ok? ==> (r.value.Some? <==> name in rows)
      ensures r.Ok? && r.value.Some? && name in running ==>
              (r.value.value.status == Disabled <==> running[name].shutdown)
    {
      if * {
        faults := faults + 1;
        return Err(ReadFailed);
      }
      if name !in rows {
        return Ok(None);
      }
      if name in running && running[name].shutdown {
        return Ok(Some(Row(Disabled, running[name].description)));
      }
      return Ok(Some(Row(NotConnect, "")));
    }

    method ReadPoe(name: Name) returns (r: Result<Option<string>, ReadFailed>)
      modifies this`faults
      ensures faults >= old(faults) && (r.Err? ==> faults > old(faults))
      ensures r.Ok? ==> r.value == if name in poeRows && name in running then Some(running[name].poe) else None
    {
      if * {
        faults := faults + 1;
        return Err(ReadFailed);
      }
      return Ok(if name in poeRows && name in running then Some(running[name].poe) else None);
    }

    method ReadConfig(name: Name) returns (r: Result<Option<Properties>, ReadFailed>)
      modifies this`faults
      ensures faults >= old(faults) && (r.Err? ==> faults > old(faults))
      ensures r.Ok? ==> r.value == if name in running then Some(running[name]) else None
    {
      if * {
        faults := faults + 1;
        return Err(ReadFailed);
      }
      return Ok(if name in running then Some(running[name]) else None);
    }

    /** A refused sequence changes nothing; a lost or an accepted one may or may not have taken effect. */
    method SendRaw(commands: seq<Command>) returns (reply: DeviceReply)
      modifies this`running, this`sent, this`faults, this`exchanges
      ensures sent == old(sent) + [commands] && faults >= old(faults)
      ensures exchanges == old(exchanges) + [Exchange(reply, old(faults))]
      ensures running == old(running) || running == Effect(old(running), commands)
      ensures reply == Refused ==> running == old(running)
      ensures faults == old(faults) ==> reply == Ok_ && running == Effect(old(running), commands)
    {
      sent := sent + [commands];
      ghost var before := faults;
      reply := Ok_;
      if * {
        running := Effect(running, commands);
      } else {
        faults := faults + 1;
        if * {
          running := Effect(running, commands);
          reply := Lost;
        } else if * {
          reply := Lost;
        } else if * {
          reply := Refused;
        }
      }
      exchanges := exchanges + [Exchange(reply, before)];
    }
  }

  class AuditTrail {
    var attempts: nat

    method Record() returns (stored: bool)
      modifies this
      ensures attempts == old(attempts) + 1
    {
      attempts := attempts + 1;
      stored := *;
    }
  }

  // ----- judging what was read -----

  /** `_postcondition_met`. */
  function PostconditionMet(kind: Kind, row: Option<Row>, poe: Option<string>, value: string,
                            config: Option<Properties>): bool {
    row.Some? &&
    match kind
    case AdminDown => row.value.status == Disabled
    case AdminUp => row.value.status != Disabled
    case DescriptionSet =>
      Strip(if config.Some? then config.value.description else row.value.name) == Strip(value)
    case _ => (if poe.Some? then poe.value else "") == Wanted(kind)
  }

  /** `_rollback_verified`. */
  function RollbackVerified(kind: Kind, before: Properties, row: Option<Row>, poe: Option<string>,
                            config: Option<Properties>): bool {
    row.Some? && config.Some? &&
    match kind
    case DescriptionSet => config.value.description == before.description
    case AdminUp => config.value.shutdown == before.shutdown
    case AdminDown => config.value.shutdown == before.shutdown
    case _ => (if poe.Some? then poe.value else "") == before.poe && config.value.poe == before.poe
  }

  /** What an operation is for. */
  predicate Achieved(kind: Kind, value: string, p: Properties) {
    match kind
    case AdminDown => p.shutdown
    case AdminUp => !p.shutdown
    case DescriptionSet => Strip(p.description) == Strip(value)
    case _ => p.poe == Wanted(kind)
  }

  // ----- the transaction -----

  datatype Status = Blocked | Success | RolledBack | Failed

  datatype OperationResult = OperationResult(status: Status, commands: seq<seq<Command>>, rolledBack: Option<bool>,
                                             requiresSave: bool)

  /** The change may be attempted: the port is operable, the value is clean, the interface shows in the status
      table and the configuration, and its old value can be put back. */
  predicate Admissible(running: Running, rows: set<Name>, kind: Kind, name: Name, value: string, operable: bool) {
    && operable && (kind == DescriptionSet ==> Sanitize(value).Ok?)
    && name in rows && name in running && Rollback(kind, running[name]).Some?
  }

  /** The properties the operation is not about are the same. */
  predicate OnlyProperty(kind: Kind, p: Properties, q: Properties) {
    && (kind != DescriptionSet ==> p.description == q.description)
    && (!IsPoe(kind) ==> p.poe == q.poe)
    && (kind != AdminUp && kind != AdminDown ==> p.shutdown == q.shutdown)
  }

  /** Only the one property of the one interface may differ. */
  predicate Confined(kind: Kind, name: Name, running: Running, before: Running) {
    && running.Keys == before.Keys
    && (forall other :: other in running && other != name ==> running[other] == before[other])
    && (name in running ==> OnlyProperty(kind, running[name], before[name]))
  }

  /** The line is about the operation's own property. */
  predicate Concerns(kind: Kind, action: Action) {
    match action
    case SetShutdown => kind == AdminUp || kind == AdminDown
    case ClearShutdown => kind == AdminUp || kind == AdminDown
    case SetPower(_) => IsPoe(kind)
    case _ => kind == DescriptionSet
  }

  lemma LinesConcern(kind: Kind, value: string, before: Properties)
    ensures Concerns(kind, Forward(kind, value))
    ensures Rollback(kind, before).Some? ==> Concerns(kind, Rollback(kind, before).value)
  {
  }

  lemma ConfinedStep(kind: Kind, name: Name, running: Running, before: Running, action: Action)
    requires Confined(kind, name, running, before) && name in running && Concerns(kind, action)
    ensures Confined(kind, name, running[name := ApplyTo(running[name], action)], before)
  {
  }

  /** The operation's own property. */
  predicate SameProperty(kind: Kind, p: Properties, q: Properties) {
    match kind
    case DescriptionSet => p.description == q.description
    case AdminUp => p.shutdown == q.shutdown
    case AdminDown => p.shutdown == q.shutdown
    case _ => p.poe == q.poe
  }

  lemma ConfinedAndRestored(kind: Kind, name: Name, running: Running, before: Running)
    requires Confined(kind, name, running, before) && name in running
    requires SameProperty(kind, running[name], before[name])
    ensures running == before
  {
    assert running[name] == before[name];
  }

  /** The restoring line brings the property back, whatever it was in between, but for a padded description. */
  lemma RestoringLine(kind: Kind, before: Properties, now: Properties)
    requires Rollback(kind, before).Some?
    ensures SameProperty(kind, ApplyTo(now, Rollback(kind, before).value), before) <==>
            (kind == DescriptionSet ==> Trimmed(before.description))
  {
    StripTrims(before.description);
  }

  /** What became of the sequences sent. One whose forward line was accepted without the intended state being
      observed is always followed by its restoring line. */
  predicate FollowedUp(result: OperationResult, exchanges: seq<Exchange>) {
    && |exchanges| == |result.commands| <= 2
    && (result.rolledBack.Some? <==> |exchanges| == 2)
    && (|exchanges| == 1 ==> (result.status == Success <==> exchanges[0].reply == Ok_))
    && (|exchanges| == 2 ==> result.status != Success && exchanges[0].reply == Ok_)
    && (|exchanges| == 1 ==> (result.requiresSave <==> exchanges[0].reply != Refused))
    && (|exchanges| == 2 ==> (result.requiresSave <==> result.status != RolledBack))
  }

  /** Whether a restoration that went through can be seen: the power table must show the port, and the old
      description must not have been padded. */
  predicate Restorable(kind: Kind, before: Properties, shown: bool) {
    (IsPoe(kind) ==> shown) && (kind == DescriptionSet ==> Trimmed(before.description))
  }

  /** The outcome when nothing goes wrong. A power operation on a port the power table does not show can
      neither be verified nor be seen undone, so it fails. */
  function PlainOutcome(running: Running, rows: set<Name>, poeRows: set<Name>, kind: Kind, name: Name, value: string,
                        operable: bool, backupWorks: bool): Status {
    if !Admissible(running, rows, kind, name, value, operable) then Blocked
    else if (IsPoe(kind) ==> name in poeRows) && Achieved(kind, value, running[name]) then Success
    else if !backupWorks then Blocked
    else if IsPoe(kind) && name !in poeRows then Failed
    else Success
  }

  /** Blocked before anything is sent exactly when the change is not permitted, or is needed and no backup can be
      taken; failed exactly when a power change that is sent cannot be seen. */
  lemma PlainOutcomesMean(running: Running, rows: set<Name>, poeRows: set<Name>, kind: Kind, name: Name, value: string,
                          operable: bool, backupWorks: bool)
    ensures var outcome := PlainOutcome(running, rows, poeRows, kind, name, value, operable, backupWorks);
            var permitted := operable && name in rows && name in running && Rollback(kind, running[name]).Some? &&
                (kind == DescriptionSet ==> Sanitize(value).Ok?);
            var needed := permitted && !(Achieved(kind, value, running[name]) && (IsPoe(kind) ==> name in poeRows));
            && (outcome == Blocked <==> !permitted || (needed && !backupWorks))
            && (outcome == Failed <==> needed && backupWorks && IsPoe(kind) && name !in poeRows)
            && outcome != RolledBack
  {
  }

  datatype Precheck = Stop | Proceed(before: Properties, rollback: Action, value: string, already: bool)

  /** Everything that happens before a backup; only reads. */
  method Check(device: ManagedSwitch, kind: Kind, name: Name, value: string, operable: bool) returns (r: Precheck)
    modifies device`faults
    ensures device.faults >= old(device.faults)
    ensures r.Proceed? ==> Admissible(device.running, device.rows, kind, name, value, operable)
    ensures device.faults == old(device.faults) && Admissible(device.running, device.rows, kind, name, value, operable)
            ==> r.Proceed?
    ensures r.Proceed? ==>
              && r.before == device.running[name] && Rollback(kind, r.before) == Some(r.rollback)
              && r.value == Strip(value)
              && (r.already <==> (IsPoe(kind) ==> name in device.poeRows) && Achieved(kind, value, r.before))
  {
    if !operable {
      return Stop;
    }
    var safe := Strip(value);
    if kind == DescriptionSet {
      var clean := Sanitize(value);
      if clean.Err? {
        return Stop;
      }
      safe := clean.value;
    }
    StripTwice(value);
    var row := device.ReadRow(name);
    if row.Err? {
      return Stop;
    }
    var poe: Option<string> := None;
    if IsPoe(kind) {
      var read := device.ReadPoe(name);
      if read.Err? {
        return Stop;
      }
      poe := read.value;
    }
    if row.value.None? {
      return Stop;
    }
    var config := device.ReadConfig(name);
    if config.Err? || config.value.None? {
      return Stop;
    }
    var rollback := Rollback(kind, config.value.value);
    if rollback.None? {
      return Stop;
    }
    r := Proceed(config.value.value, rollback.value, safe, PostconditionMet(kind, row.value, poe, safe, config.value));
  }

  /** Read the new state back; a read that fails counts as not met. */
  method Verify(device: ManagedSwitch, kind: Kind, name: Name, value: string) returns (met: bool)
    requires name in device.running
    modifies device`faults
    ensures device.faults >= old(device.faults)
    ensures met ==> name in device.rows && (IsPoe(kind) ==> name in device.poeRows)
    ensures met ==> Achieved(kind, value, device.running[name])
    ensures device.faults == old(device.faults) && name in device.rows ==>
              (met <==> (IsPoe(kind) ==> name in device.poeRows) && Achieved(kind, value, device.running[name]))
  {
    var row := device.ReadRow(name);
    if row.Err? {
      return false;
    }
    var poe: Option<string> := None;
    if IsPoe(kind) {
      var read := device.ReadPoe(name);
      if read.Err? {
        return false;
      }
      poe := read.value;
    }
    var config: Option<Properties> := None;
    if kind == DescriptionSet {
      var read := device.ReadConfig(name);
      if read.Err? {
        return false;
      }
      config := read.value;
    }
    met := PostconditionMet(kind, row.value, poe, value, config);
  }

  /** Send the restoring line and read back; only an observed restoration counts. */
  method Undo(device: ManagedSwitch, kind: Kind, name: Name, before: Properties, rollback: Action)
    returns (restored: bool)
    requires name in device.running && name in device.rows && Rollback(kind, before) == Some(rollback)
    modifies device`running, device`sent, device`faults, device`exchanges
    ensures device.sent == old(device.sent) + [Commands(name, rollback)] && device.faults >= old(device.faults)
    ensures |device.exchanges| == |old(device.exchanges)| + 1 && old(device.exchanges) <= device.exchanges
    ensures device.exchanges[|old(device.exchanges)|].faults == old(device.faults)
    ensures device.running == old(device.running) ||
            device.running == old(device.running)[name := ApplyTo(old(device.running)[name], rollback)]
    ensures restored ==> SameProperty(kind, device.running[name], before)
    ensures restored && IsPoe(kind) ==> name in device.poeRows || before.poe == ""
    ensures device.faults == old(device.faults) ==>
              device.running[name] == ApplyTo(old(device.running)[name], rollback) &&
              (restored <==> Restorable(kind, before, name in device.poeRows))
  {
    RestoringLine(kind, before, device.running[name]);
    EffectOf(device.running, name, rollback);
    var reply := device.SendRaw(Commands(name, rollback));
    if reply == Lost {
      return false;
    }
    var row := device.ReadRow(name);
    if row.Err? {
      return false;
    }
    var poe: Option<string> := None;
    if IsPoe(kind) {
      var read := device.ReadPoe(name);
      if read.Err? {
        return false;
      }
      poe := read.value;
    }
    var config := device.ReadConfig(name);
    if config.Err? {
      return false;
    }
    restored := reply == Ok_ && RollbackVerified(kind, before, row.value, poe, config.value);
  }

  /** Undo, seen from the state before the forward line. */
  method Recover(device: ManagedSwitch, kind: Kind, name: Name, before: Properties, rollback: Action,
                 ghost was: Running)
    returns (restored: bool)
    requires name in was && was[name] == before && Confined(kind, name, device.running, was)
    requires name in device.rows && Rollback(kind, before) == Some(rollback)
    modifies device`running, device`sent, device`faults, device`exchanges
    ensures device.sent == old(device.sent) + [Commands(name, rollback)] && device.faults >= old(device.faults)
    ensures |device.exchanges| == |old(device.exchanges)| + 1 && old(device.exchanges) <= device.exchanges
    ensures device.exchanges[|old(device.exchanges)|].faults == old(device.faults)
    ensures Confined(kind, name, device.running, was)
    ensures restored ==> device.running == was
    ensures device.faults == old(device.faults) ==> (restored <==> Restorable(kind, before, name in device.poeRows))
    ensures device.faults == old(device.faults) && (kind == DescriptionSet ==> Trimmed(before.description)) ==>
              device.running == was
  {
    LinesConcern(kind, "", before);
    ConfinedStep(kind, name, device.running, was, rollback);
    RestoringLine(kind, before, device.running[name]);
    restored := Undo(device, kind, name, before, rollback);
    if SameProperty(kind, device.running[name], before) {
      ConfinedAndRestored(kind, name, device.running, was);
    }
  }

  lemma ForwardAchieves(kind: Kind, value: string, before: Properties)
    ensures Achieved(kind, value, ApplyTo(before, Forward(kind, value)))
  {
  }

  /** From the forward line on. */
  method Attempt(device: ManagedSwitch, kind: Kind, name: Name, value: string, before: Properties, rollback: Action)
    returns (result: OperationResult)
    requires name in device.running && device.running[name] == before && Rollback(kind, before) == Some(rollback)
    requires name in device.rows
    modifies device`running, device`sent, device`faults, device`exchanges
    ensures device.sent == old(device.sent) + result.commands && device.faults >= old(device.faults)
    ensures old(device.exchanges) <= device.exchanges
    ensures FollowedUp(result, device.exchanges[|old(device.exchanges)|..])
    ensures |result.commands| == 2 && device.faults == device.exchanges[|old(device.exchanges)| + 1].faults ==>
              (result.status == RolledBack <==> Restorable(kind, before, name in device.poeRows))
    ensures device.faults == old(device.faults) && result.status != Success ==> device.running == old(device.running)
    ensures result.commands == [Commands(name, Forward(kind, value))] ||
            result.commands == [Commands(name, Forward(kind, value)), Commands(name, rollback)]
    ensures Confined(kind, name, device.running, old(device.running))
    ensures result.status != Blocked
    ensures result.status == Success ==> Achieved(kind, value, device.running[name])
    ensures result.status == RolledBack <==> result.rolledBack == Some(true)
    ensures result.status == RolledBack ==> |result.commands| == 2
    ensures !result.requiresSave || result.status == RolledBack ==> device.running == old(device.running)
    ensures result.status == Success ==> result.requiresSave && result.rolledBack.None?
    ensures result.status == RolledBack ==> !result.requiresSave
    ensures device.faults == old(device.faults) ==>
              result.status == if IsPoe(kind) && name !in device.poeRows then Failed else Success
  {
    ghost var was := device.running;
    var forward := Commands(name, Forward(kind, value));
    LinesConcern(kind, value, before);
    EffectOf(was, name, Forward(kind, value));
    ConfinedStep(kind, name, was, was, Forward(kind, value));
    ForwardAchieves(kind, value, before);
    var reply := device.SendRaw(forward);
    if reply == Lost {
      return OperationResult(Failed, [forward], None, true);
    }
    if reply == Refused {
      return OperationResult(Failed, [forward], None, false);
    }
    var met := Verify(device, kind, name, value);
    if met {
      return OperationResult(Success, [forward], None, true);
    }
    var restored := Recover(device, kind, name, before, rollback, was);
    result := OperationResult(if restored then RolledBack else Failed, [forward, Commands(name, rollback)],
                              Some(restored), !restored);
    assert old(device.sent) + [forward] + [Commands(name, rollback)] == old(device.sent) + result.commands;
  }

  /** `_run_operation_authorized`. */
  method RunAuthorized(device: ManagedSwitch, audit: AuditTrail, kind: Kind, name: Name, value: string, operable: bool,
                       backupWorks: bool)
    returns (result: OperationResult)
    modifies device`running, device`sent, device`faults, device`exchanges, audit
    // One audit record is attempted, and the result lists exactly what was sent.
    ensures audit.attempts == old(audit.attempts) + 1
    ensures device.sent == old(device.sent) + result.commands
    // Nothing is sent to a port that is not operable or not shown, nor with a value that is not clean.
    ensures result.commands != [] || result.status == Success ==>
              operable && name in device.rows && name in old(device.running) &&
              (kind == DescriptionSet ==> Sanitize(value).Ok?)
    // At most the forward line and its restoring line go out, both into the one interface.
    ensures result.commands != [] ==>
            Admissible(old(device.running), device.rows, kind, name, value, operable) && backupWorks
    ensures result.commands == [] || result.commands == [Commands(name, Forward(kind, Strip(value)))] ||
            result.commands == [Commands(name, Forward(kind, Strip(value))),
                                Commands(name, Rollback(kind, old(device.running)[name]).value)]
    // A forward line that was accepted ends in success or is followed by the restoring line, never neither.
    ensures old(device.exchanges) <= device.exchanges
    ensures FollowedUp(result, device.exchanges[|old(device.exchanges)|..])
    // Unless that goes wrong too, it is reported as rolled back exactly when the restoration can be seen.
    ensures |result.commands| == 2 && device.faults == device.exchanges[|old(device.exchanges)| + 1].faults ==>
              (result.status == RolledBack <==>
               Restorable(kind, old(device.running)[name], name in device.poeRows))
    // Startup is never touched, and in running only the one property can differ.
    ensures Confined(kind, name, device.running, old(device.running))
    // What each status promises.
    ensures result.status == Blocked ==> result.commands == [] && device.running == old(device.running)
    ensures result.status == Success ==> name in device.running && Achieved(kind, value, device.running[name])
    ensures result.status == RolledBack <==> result.rolledBack == Some(true)
    ensures result.status == RolledBack ==> device.running == old(device.running) && |result.commands| == 2
    ensures !result.requiresSave ==> device.running == old(device.running)
    ensures result.status == Success ==> (result.requiresSave <==> result.commands != [])
    ensures result.status == Blocked || result.status == RolledBack ==> !result.requiresSave
    // Without a fault the outcome is determined, and only a success leaves a change behind.
    ensures device.faults == old(device.faults) && result.status != Success ==> device.running == old(device.running)
    ensures device.faults == old(device.faults) ==>
              result.status == PlainOutcome(old(device.running), device.rows, device.poeRows, kind, name, value,
                operable, backupWorks)
  {
    var check := Check(device, kind, name, value, operable);
    if check.Stop? {
      result := OperationResult(Blocked, [], None, false);
    } else if check.already {
      result := OperationResult(Success, [], None, false);
    } else if !backupWorks {
      result := OperationResult(Blocked, [], None, false);
    } else {
      result := Attempt(device, kind, name, check.value, check.before, check.rollback);
      StripTrims(value);
    }
    assert result.commands == [] ==> device.exchanges[|old(device.exchanges)|..] == [];
    var _ := audit.Record();
  }
}
