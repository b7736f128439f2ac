/** Running configuration as interface blocks of lines, the reader that takes the bounded properties from a
    block, and the simulator that renders overrides into it (`backend/app/operations.py`,
    `backend/app/switch_client.py`). */
module IosConfig {
  import opened Common
  import opened Text

  /** A canonical interface name. */
  datatype Name = Name(physical: bool, index: nat)

  /** One line of configuration, stripped. */
  datatype Line = Header(name: Name) | Bang | Shutdown | NoShutdown | Description(text: string)
                | PowerInline(mode: string) | Other(text: string)

  type Config = seq<Line>

  /** The reversible properties of one interface. */
  datatype Properties = Properties(description: string, shutdown: bool, poe: string)

  const DEFAULTS: Properties := Properties("", false, "auto")

  predicate EndsBlock(l: Line) {
    l.Bang? || l.Header?
  }

  /** The lines of a block, up to the `!` or the next header. */
  function BodyOf(lines: seq<Line>): (body: seq<Line>)
    ensures body <= lines && forall i :: 0 <= i < |body| ==> !EndsBlock(body[i])
  {
    if lines == [] || EndsBlock(lines[0]) then [] else [lines[0]] + BodyOf(lines[1..])
  }

  /** The body of the first block with the name. */
  function Body(config: Config, name: Name): (body: Option<seq<Line>>)
    ensures body.Some? ==> forall i :: 0 <= i < |body.value| ==> !EndsBlock(body.value[i])
  {
    if config == [] then None
    else if config[0] == Header(name) then Some(BodyOf(config[1..]))
    else Body(config[1..], name)
  }

  /** One line's bearing on the properties; a later line overrides an earlier. */
  function Read(p: Properties, l: Line): Properties {
    match l
    case Description(text) => p.(description := text)
    case Shutdown => p.(shutdown := true)
    case NoShutdown => p.(shutdown := false)
    case PowerInline(mode) => p.(poe := mode)
    case _ => p
  }

  function ReadBody(p: Properties, body: seq<Line>): Properties
    decreases body
  {
    if body == [] then p else ReadBody(Read(p, body[0]), body[1..])
  }

  /** `_interface_config`. */
  function InterfaceConfig(config: Config, name: Name): Option<Properties> {
    match Body(config, name)
    case None => None
    case Some(body) => Some(ReadBody(DEFAULTS, body))
  }

  /** Every block ends with `!`. */
  ghost predicate WellFormed(config: Config) {
    config == [] ||
    (WellFormed(config[1..]) &&
     (config[0].Header? ==> |BodyOf(config[1..])| < |config| - 1 && config[1..][|BodyOf(config[1..])|] == Bang))
  }

  // ----- the simulator -----

  /** The bounded commands. */
  datatype Action = SetShutdown | ClearShutdown | SetPower(mode: string) | SetDescription(text: string)
                  | ClearDescription

  datatype Overrides = Overrides(admin: map<Name, bool>, description: map<Name, string>, poe: map<Name, string>)

  const NO_OVERRIDES: Overrides := Overrides(map[], map[], map[])

  predicate Changed(ov: Overrides, name: Name) {
    name in ov.admin || name in ov.description || name in ov.poe
  }

  predicate Superseded(ov: Overrides, name: Name, l: Line) {
    || (name in ov.admin && (l.Shutdown? || l.NoShutdown?))
    || (name in ov.description && l.Description?)
    || (name in ov.poe && l.PowerInline?)
  }

  function Kept(ov: Overrides, name: Name, body: seq<Line>): seq<Line> {
    if body == [] then []
    else (if Superseded(ov, name, body[0]) then [] else [body[0]]) + Kept(ov, name, body[1..])
  }

  /** The overriding lines; an empty description, an enabled port and automatic power need none. */
  function Appended(ov: Overrides, name: Name): seq<Line> {
    (if name in ov.description && ov.description[name] != "" then [Description(ov.description[name])] else []) +
    (if name in ov.admin && ov.admin[name] then [Shutdown] else []) +
    (if name in ov.poe && ov.poe[name] == "never" then [PowerInline("never")] else [])
  }

  function NewBody(ov: Overrides, name: Name, body: seq<Line>): seq<Line> {
    Kept(ov, name, body) + Appended(ov, name)
  }

  /** What the overrides make of the fixture's properties. */
  function Overridden(ov: Overrides, name: Name, p: Properties): Properties {
    Properties(if name in ov.description then ov.description[name] else p.description,
               if name in ov.admin then ov.admin[name] else p.shutdown,
               if name in ov.poe then (if ov.poe[name] == "never" then "never" else "auto") else p.poe)
  }

  function BangAt(lines: seq<Line>): (k: nat)
    ensures k <= |lines| && (k < |lines| ==> lines[k] == Bang)
    ensures forall i :: 0 <= i < k ==> lines[i] != Bang
  {
    if lines == [] || lines[0] == Bang then 0 else 1 + BangAt(lines[1..])
  }

  /** Replace the body of the first block with the name, up to its `!`. */
  function ReplaceBody(config: Config, name: Name, body: seq<Line>): Option<Config> {
    if config == [] then None
    else if config[0] == Header(name) then
      var bang := BangAt(config[1..]);
      if bang == |config| - 1 then None else Some([config[0]] + body + config[1..][bang..])
    else match ReplaceBody(config[1..], name, body)
      case None => None
      case Some(rest) => Some([config[0]] + rest)
  }

  function BodyUpToBang(config: Config, name: Name): Option<seq<Line>> {
    if config == [] then None
    else if config[0] == Header(name) then
      var bang := BangAt(config[1..]);
      if bang == |config| - 1 then None else Some(config[1..][..bang])
    else BodyUpToBang(config[1..], name)
  }

  datatype RenderError = BlockMissing(name: Name)

  lemma {:induction false} BodyEndsAtBang(lines: seq<Line>)
    requires |BodyOf(lines)| < |lines| && lines[|BodyOf(lines)|] == Bang
    ensures BangAt(lines) == |BodyOf(lines)| && lines[..BangAt(lines)] == BodyOf(lines)
  {
    if !EndsBlock(lines[0]) {
      BodyEndsAtBang(lines[1..]);
    }
  }

  /** With every block closed, the two readings of where a block ends agree. */
  lemma {:induction false} SameBody(config: Config, name: Name)
    requires WellFormed(config)
    ensures BodyUpToBang(config, name) == Body(config, name)
  {
    if config != [] {
      if config[0] == Header(name) {
        var rest := config[1..];
        BodyEndsAtBang(rest);
      } else {
        SameBody(config[1..], name);
      }
    }
  }

  lemma {:induction false} BodyOfAppend(body: seq<Line>, rest: seq<Line>)
    requires forall i :: 0 <= i < |body| ==> !EndsBlock(body[i])
    requires rest != [] && EndsBlock(rest[0])
    ensures BodyOf(body + rest) == body
  {
    if body == [] {
      assert body + rest == rest;
    } else {
      assert (body + rest)[1..] == body[1..] + rest;
      BodyOfAppend(body[1..], rest);
    }
  }

  lemma {:induction false} WellFormedAppend(body: seq<Line>, rest: seq<Line>)
    requires forall i :: 0 <= i < |body| ==> !EndsBlock(body[i])
    requires WellFormed(rest)
    ensures WellFormed(body + rest)
  {
    if body == [] {
      assert body + rest == rest;
    } else {
      assert (body + rest)[1..] == body[1..] + rest;
      WellFormedAppend(body[1..], rest);
    }
  }

  lemma {:induction false} WellFormedTail(config: Config, k: nat)
    requires WellFormed(config) && k <= |config|
    ensures WellFormed(config[k..])
  {
    if k > 0 {
      WellFormedTail(config[1..], k - 1);
      assert config[1..][k - 1..] == config[k..];
    }
  }

  /** Reading past a header. */
  lemma AfterHeader(name: Name, lines: seq<Line>)
    ensures Body([Header(name)] + lines, name) == Some(BodyOf(lines))
    ensures forall other :: other != name ==> Body([Header(name)] + lines, other) == Body(lines, other)
    ensures WellFormed([Header(name)] + lines) <==>
            WellFormed(lines) && |BodyOf(lines)| < |lines| && lines[|BodyOf(lines)|] == Bang
  {
    assert ([Header(name)] + lines)[1..] == lines;
  }

  lemma HereIsReplaced(rest: seq<Line>, name: Name, body: seq<Line>)
    requires BangAt(rest) < |rest|
    ensures ReplaceBody([Header(name)] + rest, name, body) == Some([Header(name)] + (body + rest[BangAt(rest)..]))
  {
    assert ([Header(name)] + rest)[1..] == rest;
    assert [Header(name)] + body + rest[BangAt(rest)..] == [Header(name)] + (body + rest[BangAt(rest)..]);
  }

  lemma {:induction false} SkipBody(body: seq<Line>, rest: seq<Line>, other: Name)
    requires forall i :: 0 <= i < |body| ==> !EndsBlock(body[i])
    ensures Body(body + rest, other) == Body(rest, other)
  {
    if body == [] {
      assert body + rest == rest;
    } else {
      assert (body + rest)[1..] == body[1..] + rest;
      SkipBody(body[1..], rest, other);
    }
  }

  lemma OthersSkip(rest: seq<Line>, bang: nat, body: seq<Line>, other: Name)
    requires bang <= |rest| && forall i :: 0 <= i < |body| ==> !EndsBlock(body[i])
    requires forall i :: 0 <= i < bang ==> !EndsBlock(rest[i])
    ensures Body(body + rest[bang..], other) == Body(rest, other)
  {
    SkipBody(body, rest[bang..], other);
    SkipBody(rest[..bang], rest[bang..], other);
    assert rest == rest[..bang] + rest[bang..];
  }

  /** The block is the first one. */
  lemma ReplaceHere(rest: seq<Line>, name: Name, body: seq<Line>)
    requires WellFormed([Header(name)] + rest) && forall i :: 0 <= i < |body| ==> !EndsBlock(body[i])
    ensures var config' := ReplaceBody([Header(name)] + rest, name, body);
            && config'.Some? && WellFormed(config'.value) && Body(config'.value, name) == Some(body)
            && (forall other :: other != name ==> Body(config'.value, other) == Body([Header(name)] + rest, other))
  {
    AfterHeader(name, rest);
    BodyEndsAtBang(rest);
    var bang := BangAt(rest);
    var tail := rest[bang..];
    WellFormedTail(rest, bang);
    WellFormedAppend(body, tail);
    BodyOfAppend(body, tail);
    AfterHeader(name, body + tail);
    HereIsReplaced(rest, name, body);
    forall other | other != name ensures Body(body + tail, other) == Body(rest, other) {
      OthersSkip(rest, bang, body, other);
    }
  }

  /** What precedes the replaced block's header is untouched, so a block that ended before it still does. */
  lemma {:induction false} PrefixKept(lines: seq<Line>, name: Name, body: seq<Line>)
    requires |BodyOf(lines)| < |lines| && lines[|BodyOf(lines)|] == Bang
    requires ReplaceBody(lines, name, body).Some?
    ensures var lines' := ReplaceBody(lines, name, body).value;
            BodyOf(lines') == BodyOf(lines) && |BodyOf(lines)| < |lines'| && lines'[|BodyOf(lines)|] == Bang
  {
    var lines' := ReplaceBody(lines, name, body).value;
    if !EndsBlock(lines[0]) {
      PrefixKept(lines[1..], name, body);
      assert lines'[1..] == ReplaceBody(lines[1..], name, body).value;
    }
  }

  /** Replacing one block gives that block the new body and leaves every other block, and the closing of
      every block, as it was. */
  lemma {:induction false} ReplaceOnlyOne(config: Config, name: Name, body: seq<Line>)
    requires WellFormed(config) && forall i :: 0 <= i < |body| ==> !EndsBlock(body[i])
    ensures ReplaceBody(config, name, body).Some? <==> Body(config, name).Some?
    ensures ReplaceBody(config, name, body).Some? ==>
              var config' := ReplaceBody(config, name, body).value;
              && WellFormed(config')
              && Body(config', name) == Some(body)
              && (forall other :: other != name ==> Body(config', other) == Body(config, other))
  {
    if config != [] {
      var rest := config[1..];
      if config[0] == Header(name) {
        assert config == [Header(name)] + rest;
        ReplaceHere(rest, name, body);
      } else {
        assert config == [config[0]] + rest;
        ReplaceOnlyOne(rest, name, body);
        if ReplaceBody(rest, name, body).Some? {
          var rest' := ReplaceBody(rest, name, body).value;
          assert ([config[0]] + rest')[1..] == rest';
          if config[0].Header? {
            PrefixKept(rest, name, body);
          }
        }
      }
    }
  }

  // ----- reading back what was rendered -----

  lemma {:induction false} ReadAppend(p: Properties, first: seq<Line>, second: seq<Line>)
    ensures ReadBody(p, first + second) == ReadBody(ReadBody(p, first), second)
    decreases first
  {
    if first == [] {
      assert first + second == second;
    } else {
      assert (first + second)[1..] == first[1..] + second;
      ReadAppend(Read(p, first[0]), first[1..], second);
    }
  }

  /** `p` and `q` agree on whatever the overrides leave alone. */
  ghost predicate AgreeElsewhere(ov: Overrides, name: Name, p: Properties, q: Properties) {
    && (name !in ov.description ==> p.description == q.description)
    && (name !in ov.admin ==> p.shutdown == q.shutdown)
    && (name !in ov.poe ==> p.poe == q.poe)
  }

  /** The kept lines say the same about untouched properties and nothing about overridden ones. */
  lemma {:induction false} KeptReads(ov: Overrides, name: Name, p: Properties, q: Properties, body: seq<Line>)
    requires AgreeElsewhere(ov, name, p, q)
    ensures var kept := ReadBody(p, Kept(ov, name, body));
            && AgreeElsewhere(ov, name, kept, ReadBody(q, body))
            && (name in ov.description ==> kept.description == p.description)
            && (name in ov.admin ==> kept.shutdown == p.shutdown)
            && (name in ov.poe ==> kept.poe == p.poe)
    decreases body
  {
    if body != [] {
      var l, rest := body[0], body[1..];
      if Superseded(ov, name, l) {
        assert Kept(ov, name, body) == Kept(ov, name, rest);
        KeptReads(ov, name, p, Read(q, l), rest);
      } else {
        assert Kept(ov, name, body) == [l] + Kept(ov, name, rest);
        KeptReads(ov, name, Read(p, l), Read(q, l), rest);
      }
    }
  }

  lemma ReadAtMostOne(p: Properties, body: seq<Line>)
    requires |body| <= 1
    ensures ReadBody(p, body) == if body == [] then p else Read(p, body[0])
  {
    if body != [] {
      assert body[1..] == [];
    }
  }

  lemma NewBodyReads(ov: Overrides, name: Name, body: seq<Line>)
    ensures ReadBody(DEFAULTS, NewBody(ov, name, body)) == Overridden(ov, name, ReadBody(DEFAULTS, body))
  {
    KeptReads(ov, name, DEFAULTS, DEFAULTS, body);
    var kept := ReadBody(DEFAULTS, Kept(ov, name, body));
    ReadAppend(DEFAULTS, Kept(ov, name, body), Appended(ov, name));
    var d := if name in ov.description && ov.description[name] != "" then [Description(ov.description[name])] else [];
    var a := if name in ov.admin && ov.admin[name] then [Shutdown] else [];
    var w := if name in ov.poe && ov.poe[name] == "never" then [PowerInline("never")] else [];
    ReadAppend(kept, d + a, w);
    ReadAppend(kept, d, a);
    ReadAtMostOne(kept, d);
    ReadAtMostOne(ReadBody(kept, d), a);
    ReadAtMostOne(ReadBody(ReadBody(kept, d), a), w);
  }

  lemma {:induction false} KeptSubset(ov: Overrides, name: Name, body: seq<Line>)
    ensures forall l :: l in Kept(ov, name, body) ==> l in body
  {
    if body != [] {
      KeptSubset(ov, name, body[1..]);
    }
  }

  lemma {:induction false} NewBodyHasNoEnd(ov: Overrides, name: Name, body: seq<Line>)
    requires forall i :: 0 <= i < |body| ==> !EndsBlock(body[i])
    ensures forall l :: l in NewBody(ov, name, body) ==> !EndsBlock(l)
  {
    KeptSubset(ov, name, body);
  }

  /** The rendered configuration: overridden properties where something was overridden, the fixture's
      otherwise, and the very same block where nothing was. */
  ghost predicate Renders(fixture: Config, ov: Overrides, config: Config, done: set<Name>) {
    && WellFormed(config)
    && forall name :: Body(config, name) ==
                      if name in done && Body(fixture, name).Some?
                        then Some(NewBody(ov, name, Body(fixture, name).value))
                      else Body(fixture, name)
  }

  lemma RenderedReads(fixture: Config, ov: Overrides, config: Config, done: set<Name>, name: Name)
    requires Renders(fixture, ov, config, done) && (Changed(ov, name) ==> name in done)
    requires Body(fixture, name).Some?
    ensures InterfaceConfig(config, name) == Some(Overridden(ov, name, InterfaceConfig(fixture, name).value))
  {
    NewBodyReads(ov, name, Body(fixture, name).value);
  }

  datatype Command = ConfigureTerminal | EnterInterface(name: Name) | Do(action: Action) | End | WriteMemory | Unknown

  datatype Reply = Accepted | RejectedInput | Raised

  /** The overrides after one accepted action. */
  function Applied(ov: Overrides, name: Name, action: Action): Overrides {
    match action
    case SetShutdown => ov.(admin := ov.admin[name := true])
    case ClearShutdown => ov.(admin := ov.admin[name := false])
    case SetPower(mode) => ov.(poe := ov.poe[name := mode])
    case SetDescription(text) => ov.(description := ov.description[name := Strip(text)])
    case ClearDescription => ov.(description := ov.description[name := ""])
  }

  predicate Bounded(action: Action) {
    match action
    case SetPower(mode) => mode == "auto" || mode == "never"
    case SetDescription(text) => Sanitize(text).Ok?
    case _ => true
  }

  /** The only command sequences the simulator carries out, saving apart. */
  predicate IsBoundedAction(commands: seq<Command>) {
    && |commands| == 4 && commands[0] == ConfigureTerminal && commands[3] == End
    && commands[1].EnterInterface? && commands[1].name.physical
    && commands[2].Do? && Bounded(commands[2].action)
  }

  function ChangedNames(ov: Overrides): set<Name> {
    ov.admin.Keys + ov.description.Keys + ov.poe.Keys
  }

  /** `MockSwitchClient`, as far as configuration goes. */
  class Simulator {
    const fixture: Config
    var overrides: Overrides
    var startup: Config

    constructor (fixture: Config)
      ensures this.fixture == fixture && overrides == NO_OVERRIDES && startup == fixture
    {
      this.fixture := fixture;
      overrides := NO_OVERRIDES;
      startup := fixture;
    }

    method RenderRunningConfig() returns (r: Result<Config, RenderError>)
      requires WellFormed(fixture)
      ensures r.Ok? <==> forall name :: Changed(overrides, name) ==> Body(fixture, name).Some?
      ensures r.Ok? ==> Renders(fixture, overrides, r.value, ChangedNames(overrides))
    {
      var config, pending := fixture, ChangedNames(overrides);
      ghost var done: set<Name> := {};
      while pending != {}
        invariant pending + done == ChangedNames(overrides) && pending !! done
        invariant Renders(fixture, overrides, config, done)
        invariant forall name :: name in done ==> Body(fixture, name).Some?
      {
        var name :| name in pending;
        pending := pending - {name};
        SameBody(config, name);
        var body := BodyUpToBang(config, name);
        assert name in ChangedNames(overrides);
        if body.None? {
          assert Changed(overrides, name) && Body(fixture, name).None?;
          return Err(BlockMissing(name));
        }
        assert body == Body(fixture, name);
        NewBodyHasNoEnd(overrides, name, body.value);
        ReplaceOnlyOne(config, name, NewBody(overrides, name, body.value));
        config := ReplaceBody(config, name, NewBody(overrides, name, body.value)).value;
        done := done + {name};
      }
      assert done == ChangedNames(overrides);
      r := Ok(config);
    }

    method RunRawAction(commands: seq<Command>) returns (reply: Reply)
      requires WellFormed(fixture)
      modifies this
      ensures reply != Accepted ==> overrides == old(overrides) && startup == old(startup)
      ensures reply == Accepted && commands == [WriteMemory] ==>
                overrides == old(overrides) && Renders(fixture, overrides, startup, ChangedNames(overrides))
      ensures commands == [WriteMemory] ==>
                (reply == Accepted <==> forall name :: Changed(overrides, name) ==> Body(fixture, name).Some?)
      ensures commands != [WriteMemory] ==> (reply == Accepted <==> IsBoundedAction(commands))
      ensures reply == Accepted && commands != [WriteMemory] ==>
                overrides == Applied(old(overrides), commands[1].name, commands[2].action) && startup == old(startup)
    {
      if commands == [WriteMemory] {
        var rendered := RenderRunningConfig();
        if rendered.Err? {
          return Raised;
        }
        startup := rendered.value;
        return Accepted;
      }
      if |commands| != 4 || commands[0] != ConfigureTerminal || commands[3] != End || !commands[1].EnterInterface? {
        return RejectedInput;
      }
      var name := commands[1].name;
      if !name.physical {
        return Raised;
      }
      if !commands[2].Do? {
        return RejectedInput;
      }
      match commands[2].action {
        case SetShutdown => overrides := overrides.(admin := overrides.admin[name := true]);
        case ClearShutdown => overrides := overrides.(admin := overrides.admin[name := false]);
        case SetPower(mode) =>
          if mode != "auto" && mode != "never" {
            return RejectedInput;
          }
          overrides := overrides.(poe := overrides.poe[name := mode]);
        case ClearDescription => overrides := overrides.(description := overrides.description[name := ""]);
        case SetDescription(text) =>
          var clean := Sanitize(text);
          if clean.Err? {
            return Raised;
          }
          overrides := overrides.(description := overrides.description[name := clean.value]);
      }
      reply := Accepted;
    }
  }

  // ----- any sequence of actions -----

  type History = seq<(Name, Action)>

  /** The overrides after a whole history of accepted actions. */
  function After(history: History): Overrides {
    if history == [] then NO_OVERRIDES
    else
      var (name, action) := history[|history| - 1];
      Applied(After(history[..|history| - 1]), name, action)
  }

  /** The last value a history gives one property of one interface. */
  function Last<T>(history: History, name: Name, value: Action -> Option<T>): Option<T> {
    if history == [] then None
    else
      var (last, action) := history[|history| - 1];
      if last == name && value(action).Some? then value(action) else Last(history[..|history| - 1], name, value)
  }

  function AdminValue(a: Action): Option<bool> {
    match a case SetShutdown => Some(true) case ClearShutdown => Some(false) case _ => None
  }

  function DescriptionValue(a: Action): Option<string> {
    match a case SetDescription(text) => Some(Strip(text)) case ClearDescription => Some("") case _ => None
  }

  function PowerValue(a: Action): Option<string> {
    match a case SetPower(mode) => Some(mode) case _ => None
  }

  function Or<T>(o: Option<T>, default: T): T {
    match o case Some(v) => v case None => default
  }

  ghost predicate AllBounded(history: History) {
    forall i :: 0 <= i < |history| ==> Bounded(history[i].1)
  }

  lemma {:induction false} OverridesAreLast(history: History, name: Name)
    requires AllBounded(history)
    ensures var ov := After(history);
            && Last(history, name, AdminValue) == (if name in ov.admin then Some(ov.admin[name]) else None)
            && Last(history, name, DescriptionValue) ==
                 (if name in ov.description then Some(ov.description[name]) else None)
            && Last(history, name, PowerValue) == (if name in ov.poe then Some(ov.poe[name]) else None)
            && (name in ov.poe ==> ov.poe[name] == "auto" || ov.poe[name] == "never")
  {
    if history != [] {
      OverridesAreLast(history[..|history| - 1], name);
      assert Bounded(history[|history| - 1].1);
    }
  }

  /** After any history of bounded actions, reading the rendered configuration gives, for each interface, the
      last value set for each property, and the fixture's value where none was. */
  lemma ReadsLastValues(fixture: Config, history: History, config: Config, name: Name)
    requires AllBounded(history) && Body(fixture, name).Some?
    requires Renders(fixture, After(history), config, ChangedNames(After(history)))
    ensures var p := InterfaceConfig(fixture, name).value;
            InterfaceConfig(config, name) ==
            Some(Properties(Or(Last(history, name, DescriptionValue), p.description),
                            Or(Last(history, name, AdminValue), p.shutdown),
                            Or(Last(history, name, PowerValue), p.poe)))
  {
    OverridesAreLast(history, name);
    RenderedReads(fixture, After(history), config, ChangedNames(After(history)), name);
  }
}
