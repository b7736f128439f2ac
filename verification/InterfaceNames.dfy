/** Interface names (`backend/app/command_registry.py`): many spellings in, one canonical name out, and the short
    form used as a key elsewhere. ASCII text. */
module InterfaceNames {
  import opened Common
  import opened Text

  datatype Kind = FastEthernet | GigabitEthernet | TenGigabitEthernet | TwentyFiveGigE | FortyGigabitEthernet
                | HundredGigE

  /** What a name denotes. */
  datatype Name = Physical(kind: Kind, numbers: seq<nat>) | Vlan(id: nat)

  datatype NameError = EmptyName | ControlCharacter | InvalidVlan | UnsupportedPrefix | MalformedSuffix

  // ----- characters and digits -----

  predicate IsControl(c: char) {
    c < ' ' || c == 127 as char
  }

  predicate IsDigit(c: char) {
    '0' <= c <= '9'
  }

  predicate Digits(s: string) {
    s != "" && forall i :: 0 <= i < |s| ==> IsDigit(s[i])
  }

  function LowerChar(c: char): char {
    if 'A' <= c <= 'Z' then (c as int + 32) as char else c
  }

  function Lower(s: string): (r: string)
    ensures |r| == |s| && forall i :: 0 <= i < |s| ==> r[i] == LowerChar(s[i])
  {
    seq(|s|, i requires 0 <= i < |s| => LowerChar(s[i]))
  }

  /** `int` of a digit string. */
  function Value(s: string): nat
    requires Digits(s)
  {
    var last := s[|s| - 1] as int - '0' as int;
    if |s| == 1 then last else 10 * Value(s[..|s| - 1]) + last
  }

  function DigitChar(d: nat): char
    requires d < 10
  {
    ('0' as int + d) as char
  }

  /** `str` of a natural number. */
  function Decimal(n: nat): (s: string)
    ensures Digits(s)
  {
    if n < 10 then [DigitChar(n)] else Decimal(n / 10) + [DigitChar(n % 10)]
  }

  lemma {:induction false} ValueOfDecimal(n: nat)
    ensures Value(Decimal(n)) == n
  {
    if n >= 10 {
      ValueOfDecimal(n / 10);
      var s := Decimal(n);
      assert s[..|s| - 1] == Decimal(n / 10);
    }
  }

  // ----- the numeric suffix -----

  /** `str.split("/")`. */
  function Split(s: string): (parts: seq<string>)
    ensures parts != []
  {
    if s == "" then [""]
    else
      var rest := Split(s[1..]);
      if s[0] == '/' then [""] + rest else [[s[0]] + rest[0]] + rest[1..]
  }

  function Join(numbers: seq<nat>): string
    requires numbers != []
  {
    if |numbers| == 1 then Decimal(numbers[0]) else Decimal(numbers[0]) + "/" + Join(numbers[1..])
  }

  lemma {:induction false} SplitDigits(s: string, rest: string)
    requires Digits(s) && (rest == "" || rest[0] == '/')
    ensures Split(s + rest) == [s] + (if rest == "" then [] else Split(rest[1..]))
  {
    assert (s + rest)[1..] == s[1..] + rest;
    if |s| == 1 {
      assert s[1..] + rest == rest && s == [s[0]];
      assert Split(rest) == [""] + (if rest == "" then [] else Split(rest[1..]));
      assert [s[0]] + "" == s;
      assert Split(s + rest) == [[s[0]] + Split(rest)[0]] + Split(rest)[1..];
    } else {
      SplitDigits(s[1..], rest);
      assert [s[0]] + s[1..] == s;
      assert Split(s + rest) == [[s[0]] + Split(s[1..] + rest)[0]] + Split(s[1..] + rest)[1..];
    }
  }

  function DecimalsOf(numbers: seq<nat>): (parts: seq<string>)
    ensures |parts| == |numbers| && forall i :: 0 <= i < |parts| ==> parts[i] == Decimal(numbers[i])
  {
    seq(|numbers|, i requires 0 <= i < |numbers| => Decimal(numbers[i]))
  }

  lemma {:induction false} SplitOfJoin(numbers: seq<nat>)
    requires numbers != []
    ensures Split(Join(numbers)) == DecimalsOf(numbers)
  {
    if |numbers| == 1 {
      SplitDigits(Decimal(numbers[0]), "");
      assert Decimal(numbers[0]) + "" == Decimal(numbers[0]);
    } else {
      SplitOfJoin(numbers[1..]);
      SplitDigits(Decimal(numbers[0]), "/" + Join(numbers[1..]));
      assert Decimal(numbers[0]) + ("/" + Join(numbers[1..])) == Join(numbers);
      assert ("/" + Join(numbers[1..]))[1..] == Join(numbers[1..]);
      assert DecimalsOf(numbers) == [Decimal(numbers[0])] + DecimalsOf(numbers[1..]);
    }
  }

  predicate AllDigits(parts: seq<string>) {
    forall i :: 0 <= i < |parts| ==> Digits(parts[i])
  }

  function Values(parts: seq<string>): (numbers: seq<nat>)
    requires AllDigits(parts)
    ensures |numbers| == |parts| && forall i :: 0 <= i < |parts| ==> numbers[i] == Value(parts[i])
  {
    seq(|parts|, i requires 0 <= i < |parts| => Value(parts[i]))
  }

  /** Two or three digit groups between slashes. */
  function ParseSuffix(s: string): Option<seq<nat>> {
    var parts := Split(s);
    if 2 <= |parts| <= 3 && AllDigits(parts) then Some(Values(parts)) else None
  }

  lemma ValuesOfDecimals(numbers: seq<nat>)
    ensures AllDigits(DecimalsOf(numbers)) && Values(DecimalsOf(numbers)) == numbers
  {
    forall i | 0 <= i < |numbers| ensures Value(Decimal(numbers[i])) == numbers[i] {
      ValueOfDecimal(numbers[i]);
    }
  }

  lemma SuffixRoundTrip(numbers: seq<nat>)
    requires 2 <= |numbers| <= 3
    ensures ParseSuffix(Join(numbers)) == Some(numbers)
  {
    SplitOfJoin(numbers);
    ValuesOfDecimals(numbers);
    assert Split(Join(numbers)) == DecimalsOf(numbers);
  }

  // ----- prefixes -----

  function Long(k: Kind): string {
    match k
    case FastEthernet => "FastEthernet"
    case GigabitEthernet => "GigabitEthernet"
    case TenGigabitEthernet => "TenGigabitEthernet"
    case TwentyFiveGigE => "TwentyFiveGigE"
    case FortyGigabitEthernet => "FortyGigabitEthernet"
    case HundredGigE => "HundredGigE"
  }

  function Abbreviation(k: Kind): string {
    match k
    case FastEthernet => "Fa"
    case GigabitEthernet => "Gi"
    case TenGigabitEthernet => "Te"
    case TwentyFiveGigE => "Twe"
    case FortyGigabitEthernet => "Fo"
    case HundredGigE => "Hu"
  }

  const PREFIX_COUNT: nat := 13

  function PrefixKind(i: nat): Kind
    requires i < PREFIX_COUNT
  {
    if i == 0 || i == 11 then FortyGigabitEthernet else if i == 1 || i == 9 then TenGigabitEthernet
    else if i == 2 || i == 8 then GigabitEthernet else if i == 3 || i == 6 || i == 10 then TwentyFiveGigE
    else if i == 4 || i == 7 then FastEthernet else HundredGigE
  }

  /** The accepted prefixes, longest first. */
  function PrefixText(i: nat): string
    requires i < PREFIX_COUNT
  {
    if i == 0 then "fortygigabitethernet" else if i == 1 then "tengigabitethernet" else if i == 2 then "gigabitethernet"
    else if i == 3 then "twentyfivegige" else if i == 4 then "fastethernet" else if i == 5 then "hundredgige"
    else if i == 6 then "twe" else if i == 7 then "fa" else if i == 8 then "gi" else if i == 9 then "te"
    else if i == 10 then "tw" else if i == 11 then "fo" else "hu"
  }

  predicate StartsWith(s: string, prefix: string) {
    prefix <= s
  }

  /** The first prefix, from the k-th on, that `lower` starts with. */
  function FirstMatch(lower: string, k: nat): Option<nat>
    requires k <= PREFIX_COUNT
    ensures FirstMatch(lower, k).Some? ==>
            FirstMatch(lower, k).value < PREFIX_COUNT && StartsWith(lower, PrefixText(FirstMatch(lower, k).value))
    decreases PREFIX_COUNT - k
  {
    if k == PREFIX_COUNT then None
    else if StartsWith(lower, PrefixText(k)) then Some(k)
    else FirstMatch(lower, k + 1)
  }

  function Parse(text: string): Result<Name, NameError> {
    if text == "" then Err(EmptyName)
    else if exists i :: 0 <= i < |text| && IsControl(text[i]) then Err(ControlCharacter)
    else
      var stripped := Strip(text);
      var lower := Lower(stripped);
      if StartsWith(lower, "vlan") then
        if Digits(lower[4..]) then Ok(Vlan(Value(lower[4..]))) else Err(InvalidVlan)
      else
        match FirstMatch(lower, 0)
        case None => Err(UnsupportedPrefix)
        case Some(k) =>
          match ParseSuffix(stripped[|PrefixText(k)|..])
          case None => Err(MalformedSuffix)
          case Some(numbers) => Ok(Physical(PrefixKind(k), numbers))
  }

  predicate Printable(n: Name) {
    n.Physical? ==> 2 <= |n.numbers| <= 3
  }

  function Print(n: Name): string
    requires Printable(n)
  {
    match n
    case Physical(kind, numbers) => Long(kind) + Join(numbers)
    case Vlan(id) => "Vlan" + Decimal(id)
  }

  lemma ParsedIsPrintable(text: string)
    ensures Parse(text).Ok? ==> Printable(Parse(text).value)
  {
  }

  /** `normalize_interface`. */
  function Normalize(text: string): Result<string, NameError> {
    match Parse(text)
    case Err(e) => Err(e)
    case Ok(name) => ParsedIsPrintable(text); Ok(Print(name))
  }

  // ----- both printed forms parse back -----

  lemma {:induction false} FirstMatchAt(lower: string, k: nat, at: nat)
    requires k <= at < PREFIX_COUNT && StartsWith(lower, PrefixText(at))
    requires forall i :: k <= i < at ==> !StartsWith(lower, PrefixText(i))
    ensures FirstMatch(lower, k) == Some(at)
    decreases at - k
  {
    if k == at {
      assert StartsWith(lower, PrefixText(k));
    } else {
      assert !StartsWith(lower, PrefixText(k));
      FirstMatchAt(lower, k + 1, at);
    }
  }

  /** Where an earlier prefix departs from the form of prefix `at` followed by a digit. */
  function Departure(i: nat, at: nat): nat {
    if i == 0 then (if at == 4 || at == 7 then 1 else if at == 11 then 2 else 0)
    else if i == 1 then (if at == 3 || at == 6 || at == 10 then 1 else if at == 9 then 2 else 0)
    else if i == 2 then (if at == 8 then 2 else 0)
    else if i == 3 then (if at == 6 then 3 else if at == 9 then 1 else if at == 10 then 2 else 0)
    else if i == 4 then (if at == 7 then 2 else if at == 11 then 1 else 0)
    else if i == 5 then (if at == 12 then 2 else 0)
    else if i == 6 then (if at == 9 then 1 else if at == 10 then 2 else 0)
    else if i == 7 then (if at == 11 then 1 else 0)
    else if i == 9 then (if at == 10 then 1 else 0)
    else 0
  }

  lemma Departs(i: nat, at: nat)
    requires i < at < PREFIX_COUNT
    ensures var j := Departure(i, at);
            j < |PrefixText(i)| && j <= |PrefixText(at)| &&
            (if j < |PrefixText(at)| then PrefixText(at)[j] != PrefixText(i)[j] else !IsDigit(PrefixText(i)[j]))
  {
  }

  lemma MatchesAt(at: nat, rest: string)
    requires at < PREFIX_COUNT && rest != "" && IsDigit(rest[0])
    ensures FirstMatch(PrefixText(at) + rest, 0) == Some(at)
  {
    var lower := PrefixText(at) + rest;
    forall i | 0 <= i < at ensures !StartsWith(lower, PrefixText(i)) {
      Departs(i, at);
      var j := Departure(i, at);
      assert lower[j] != PrefixText(i)[j];
    }
    FirstMatchAt(lower, 0, at);
  }

  lemma {:induction false} JoinIsClean(numbers: seq<nat>)
    requires numbers != []
    ensures var s := Join(numbers);
            s != "" && IsDigit(s[0]) && IsDigit(s[|s| - 1]) && forall i :: 0 <= i < |s| ==> IsDigit(s[i]) || s[i] == '/'
  {
    if |numbers| > 1 {
      JoinIsClean(numbers[1..]);
    }
  }

  predicate IsLetter(c: char) {
    'a' <= c <= 'z' || 'A' <= c <= 'Z'
  }

  lemma CleanText(text: string)
    requires text != "" && forall i :: 0 <= i < |text| ==> IsLetter(text[i]) || IsDigit(text[i]) || text[i] == '/'
    ensures Strip(text) == text && forall i :: 0 <= i < |text| ==> !IsControl(text[i])
  {
    StripTrims(text);
  }

  lemma ParsesAs(text: string, at: nat, numbers: seq<nat>)
    requires text != "" && Strip(text) == text && forall i :: 0 <= i < |text| ==> !IsControl(text[i])
    requires !StartsWith(Lower(text), "vlan")
    requires at < PREFIX_COUNT && FirstMatch(Lower(text), 0) == Some(at)
    requires ParseSuffix(text[|PrefixText(at)|..]) == Some(numbers)
    ensures Parse(text) == Ok(Physical(PrefixKind(at), numbers))
  {
  }

  lemma LowerParts(form: string, rest: string)
    requires forall i :: 0 <= i < |rest| ==> !('A' <= rest[i] <= 'Z')
    ensures Lower(form + rest) == Lower(form) + rest
  {
  }

  lemma NotVlan(at: nat, rest: string)
    requires at < PREFIX_COUNT
    ensures !StartsWith(PrefixText(at) + rest, "vlan")
  {
    assert (PrefixText(at) + rest)[0] != 'v';
  }

  predicate Letters(s: string) {
    forall i :: 0 <= i < |s| ==> IsLetter(s[i])
  }

  /** Letters that lower to an accepted prefix, then numbers. */
  lemma FormParses(form: string, at: nat, numbers: seq<nat>)
    requires at < PREFIX_COUNT && Lower(form) == PrefixText(at) && 2 <= |numbers| <= 3
    requires Letters(form)
    ensures Parse(form + Join(numbers)) == Ok(Physical(PrefixKind(at), numbers))
  {
    var rest := Join(numbers);
    JoinIsClean(numbers);
    CleanText(form + rest);
    LowerParts(form, rest);
    MatchesAt(at, rest);
    NotVlan(at, rest);
    assert (form + rest)[|form|..] == rest;
    SuffixRoundTrip(numbers);
    ParsesAs(form + rest, at, numbers);
  }

  lemma FortyGigabitName()
    ensures Lower("FortyGigabitEthernet") == "fortygigabitethernet" && Letters("FortyGigabitEthernet")
  {
  }

  lemma TenGigabitName()
    ensures Lower("TenGigabitEthernet") == "tengigabitethernet" && Letters("TenGigabitEthernet")
  {
  }

  lemma GigabitNames()
    ensures Lower("GigabitEthernet") == "gigabitethernet" && Letters("GigabitEthernet")
    ensures Lower("TwentyFiveGigE") == "twentyfivegige" && Letters("TwentyFiveGigE")
  {
  }

  lemma OtherNames()
    ensures Lower("FastEthernet") == "fastethernet" && Letters("FastEthernet")
    ensures Lower("HundredGigE") == "hundredgige" && Letters("HundredGigE")
  {
  }

  /** The prefix that the long or the short form of a kind starts with. */
  function LongAt(k: Kind): nat {
    match k
    case FortyGigabitEthernet => 0
    case TenGigabitEthernet => 1
    case GigabitEthernet => 2
    case TwentyFiveGigE => 3
    case FastEthernet => 4
    case HundredGigE => 5
  }

  function ShortAt(k: Kind): nat {
    match k
    case TwentyFiveGigE => 6
    case FastEthernet => 7
    case GigabitEthernet => 8
    case TenGigabitEthernet => 9
    case FortyGigabitEthernet => 11
    case HundredGigE => 12
  }

  lemma LongLowers(k: Kind)
    ensures Lower(Long(k)) == PrefixText(LongAt(k)) && Letters(Long(k)) && PrefixKind(LongAt(k)) == k
  {
    match k {
      case TenGigabitEthernet => TenGigabitName();
      case FortyGigabitEthernet => FortyGigabitName();
      case GigabitEthernet => GigabitNames();
      case TwentyFiveGigE => GigabitNames();
      case _ => OtherNames();
    }
  }

  lemma ShortLowers(k: Kind)
    ensures Lower(Abbreviation(k)) == PrefixText(ShortAt(k)) && Letters(Abbreviation(k)) && PrefixKind(ShortAt(k)) == k
  {
    assert Lower("Fa") == "fa" && Lower("Gi") == "gi" && Lower("Te") == "te";
    assert Lower("Twe") == "twe" && Lower("Fo") == "fo" && Lower("Hu") == "hu";
  }

  lemma LongParses(k: Kind, numbers: seq<nat>)
    requires 2 <= |numbers| <= 3
    ensures Parse(Long(k) + Join(numbers)) == Ok(Physical(k, numbers))
  {
    LongLowers(k);
    FormParses(Long(k), LongAt(k), numbers);
  }

  lemma ShortParses(k: Kind, numbers: seq<nat>)
    requires 2 <= |numbers| <= 3
    ensures Parse(Abbreviation(k) + Join(numbers)) == Ok(Physical(k, numbers))
  {
    ShortLowers(k);
    FormParses(Abbreviation(k), ShortAt(k), numbers);
  }

  lemma TwLowers()
    ensures Lower("Tw") == PrefixText(10) && Letters("Tw") && PrefixKind(10) == TwentyFiveGigE
  {
    assert Lower("Tw") == "tw";
  }

  /** The shortest spelling of all, which no printed form uses. */
  lemma TwParses(numbers: seq<nat>)
    requires 2 <= |numbers| <= 3
    ensures Parse("Tw" + Join(numbers)) == Ok(Physical(TwentyFiveGigE, numbers))
  {
    TwLowers();
    FormParses("Tw", 10, numbers);
  }

  lemma VlanParses(id: nat)
    ensures Parse("Vlan" + Decimal(id)) == Ok(Vlan(id))
  {
    var text := "Vlan" + Decimal(id);
    CleanText(text);
    LowerParts("Vlan", Decimal(id));
    assert Lower("Vlan") == "vlan";
    assert ("vlan" + Decimal(id))[4..] == Decimal(id);
    ValueOfDecimal(id);
  }

  lemma PrintParses(n: Name)
    requires Printable(n)
    ensures Parse(Print(n)) == Ok(n)
  {
    match n {
      case Physical(kind, numbers) =>
        LongParses(kind, numbers);
      case Vlan(id) =>
        VlanParses(id);
    }
  }

  /** Normalizing is idempotent, and two accepted spellings come out the same exactly when they denote the same
      interface, whatever their case, padding or leading zeros. */
  lemma NormalizeTwice(text: string)
    ensures Normalize(text).Ok? ==> Normalize(Normalize(text).value) == Normalize(text)
  {
    if Parse(text).Ok? {
      ParsedIsPrintable(text);
      PrintParses(Parse(text).value);
    }
  }

  lemma SameNameExactly(a: string, b: string)
    ensures Normalize(a).Ok? && Normalize(b).Ok? ==> (Normalize(a) == Normalize(b) <==> Parse(a) == Parse(b))
  {
    if Parse(a).Ok? && Parse(b).Ok? {
      ParsedIsPrintable(a);
      ParsedIsPrintable(b);
      PrintParses(Parse(a).value);
      PrintParses(Parse(b).value);
    }
  }

  // ----- the short form -----

  const KINDS: seq<Kind> := [FastEthernet, GigabitEthernet, TenGigabitEthernet, TwentyFiveGigE, FortyGigabitEthernet,
    HundredGigE]

  /** The abbreviation of the first long prefix that fits. */
  function Shorten(canonical: string, k: nat): string
    requires k <= |KINDS|
    decreases |KINDS| - k
  {
    if k == |KINDS| then canonical
    else if StartsWith(canonical, Long(KINDS[k])) then Abbreviation(KINDS[k]) + canonical[|Long(KINDS[k])|..]
    else Shorten(canonical, k + 1)
  }

  /** `short_interface`. */
  function Short(text: string): Result<string, NameError> {
    match Normalize(text)
    case Err(e) => Err(e)
    case Ok(canonical) => Ok(Shorten(canonical, 0))
  }

  lemma OneLongFits(kind: Kind, other: Kind, rest: string)
    ensures StartsWith(Long(kind) + rest, Long(other)) <==> kind == other
  {
    var text := Long(kind) + rest;
    assert text[0] == Long(kind)[0] && text[1] == Long(kind)[1];
    if kind != other {
      assert Long(kind)[0] != Long(other)[0] || Long(kind)[1] != Long(other)[1];
    }
  }

  lemma {:induction false} ShortenFrom(kind: Kind, rest: string, k: nat)
    requires k <= |KINDS| && kind in KINDS[k..]
    ensures Shorten(Long(kind) + rest, k) == Abbreviation(kind) + rest
    decreases |KINDS| - k
  {
    OneLongFits(kind, KINDS[k], rest);
    if KINDS[k] == kind {
      assert (Long(kind) + rest)[|Long(kind)|..] == rest;
    } else {
      ShortenFrom(kind, rest, k + 1);
    }
  }

  lemma ShortenPhysical(kind: Kind, numbers: seq<nat>)
    requires numbers != []
    ensures Shorten(Long(kind) + Join(numbers), 0) == Abbreviation(kind) + Join(numbers)
  {
    assert KINDS[0] == FastEthernet && KINDS[1] == GigabitEthernet && KINDS[2] == TenGigabitEthernet;
    assert KINDS[3] == TwentyFiveGigE && KINDS[4] == FortyGigabitEthernet && KINDS[5] == HundredGigE;
    ShortenFrom(kind, Join(numbers), 0);
  }

  lemma {:induction false} ShortenVlan(rest: string, k: nat)
    requires k <= |KINDS|
    ensures Shorten("Vlan" + rest, k) == "Vlan" + rest
    decreases |KINDS| - k
  {
    if k < |KINDS| {
      assert ("Vlan" + rest)[0] == 'V' && Long(KINDS[k])[0] != 'V';
      ShortenVlan(rest, k + 1);
    }
  }

  /** The short form of an accepted name denotes the same interface, so it normalizes to the same canonical name. */
  lemma ShortNormalizesBack(text: string)
    ensures Short(text).Ok? ==>
            Parse(Short(text).value) == Parse(text) && Normalize(Short(text).value) == Normalize(text)
  {
    if Parse(text).Err? {
      return;
    }
    ParsedIsPrintable(text);
    match Parse(text).value {
      case Physical(kind, numbers) =>
        ShortenPhysical(kind, numbers);
        ShortParses(kind, numbers);
      case Vlan(id) =>
        ShortenVlan(Decimal(id), 0);
        VlanParses(id);
    }
    assert Parse(Short(text).value) == Parse(text);
  }

  // ----- the key the write path looks a status row up by -----

  const REPLACED: string := "GigabitEthernet"

  /** `canonical.replace("GigabitEthernet", "Gi")`. */
  function RowKey(s: string): string {
    if StartsWith(s, REPLACED) then "Gi" + RowKey(s[|REPLACED|..])
    else if s == "" then ""
    else [s[0]] + RowKey(s[1..])
  }

  lemma {:induction false} RowKeyKeeps(s: string)
    requires forall i :: 0 <= i < |s| ==> s[i] != 'G'
    ensures RowKey(s) == s
  {
    if s != "" {
      RowKeyKeeps(s[1..]);
    }
  }

  lemma RowKeySkips(s: string)
    requires s != "" && s[0] != 'G'
    ensures RowKey(s) == [s[0]] + RowKey(s[1..])
  {
    assert REPLACED[0] == 'G';
  }

  /** The long name goes on past the abbreviation's length, and its first capital G, if any, comes later. */
  lemma LateCapitalG(kind: Kind)
    requires kind != GigabitEthernet
    ensures var at, long := |Abbreviation(kind)|, Long(kind);
            2 <= at < |long| && 'a' <= long[at] <= 'z' && forall i :: 0 <= i <= at ==> long[i] != 'G'
  {
    assert Long(kind)[0] != 'G' && Long(kind)[1] != 'G' && Long(kind)[2] != 'G' && Long(kind)[3] == Long(kind)[3];
  }

  /** The key keeps what comes before the first capital G. */
  lemma {:induction false} RowKeyPrefix(head: string, tail: string)
    requires forall i :: 0 <= i < |head| ==> head[i] != 'G'
    ensures RowKey(head + tail) == head + RowKey(tail)
  {
    if head == "" {
      assert head + tail == tail;
    } else {
      var s, rest := head + tail, head[1..] + RowKey(tail);
      assert s[1..] == head[1..] + tail;
      RowKeyPrefix(head[1..], tail);
      RowKeySkips(s);
      assert [head[0]] + rest == head + RowKey(tail);
    }
  }

  /** Past the abbreviation the key still shows the long name's next letter. */
  lemma RowKeyStart(kind: Kind, long: string, at: nat, rest: string)
    requires at < |long| && forall i :: 0 <= i <= at ==> long[i] != 'G'
    ensures at < |RowKey(long + rest)| && RowKey(long + rest)[at] == long[at]
  {
    assert long + rest == long[..at + 1] + (long[at + 1..] + rest);
    RowKeyPrefix(long[..at + 1], long[at + 1..] + rest);
  }

  /** The key is the port's short name, as the device prints it, for GigabitEthernet ports and for no other kind. */
  lemma RowKeyIsShortExactlyForGigabit(text: string)
    requires Parse(text).Ok? && Parse(text).value.Physical?
    ensures Lower(RowKey(Normalize(text).value)) == Lower(Short(text).value) <==>
            Parse(text).value.kind == GigabitEthernet
  {
    ParsedIsPrintable(text);
    var kind, numbers := Parse(text).value.kind, Parse(text).value.numbers;
    var rest := Join(numbers);
    ShortenPhysical(kind, numbers);
    JoinIsClean(numbers);
    var canonical := Long(kind) + rest;
    if kind == GigabitEthernet {
      RowKeyKeeps(rest);
      assert canonical[|REPLACED|..] == rest;
    } else {
      var at := |Abbreviation(kind)|;
      LateCapitalG(kind);
      RowKeyStart(kind, Long(kind), at, rest);
      assert Lower(Short(text).value)[at] == rest[0];
      assert Lower(RowKey(canonical))[at] == Long(kind)[at];
    }
  }
}
