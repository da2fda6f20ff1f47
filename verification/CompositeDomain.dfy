/** The composable climate commands of one model: the printer of command strings and the check that
    recognizes them (local_control_composite_domain.py), and the overlay that lets two modes carry
    the current setpoint (local_control_confirmed_features.py). */
module CompositeDomain {
  import opened Wrappers
  import opened DecimalText

  datatype Component = ModeComponent | FanComponent

  datatype Interlock = Interlock(whenComponent: Component, equals: string, requireComponent: Component, values: seq<string>)

  predicate Satisfied(interlocks: seq<Interlock>, mode: string, fan: string) {
    forall i :: 0 <= i < |interlocks| ==>
      var lock := interlocks[i];
      var trigger := if lock.whenComponent.ModeComponent? then mode else fan;
      var required := if lock.requireComponent.ModeComponent? then mode else fan;
      trigger != lock.equals || required in lock.values
  }

  datatype TargetRange = TargetRange(min: real, max: real, step: real)

  datatype ComfortRange = ComfortRange(min: int, max: int, step: int, appliesTo: seq<string>)

  /** A command for the composite encoder.  `target` is a number, so it has one spelling. */
  datatype Command =
    | Celsius(mode: string, fan: string, target: Decimal)
    | Comfort(mode: string, fan: string, preference: int)

  predicate IsCommand(c: Command) {
    c.Celsius? ==> Canonical(c.target)
  }

  function ComfortText(preference: int): string {
    "comfort:" + PrintInt(preference)
  }

  function CelsiusText(target: Decimal): string {
    PrintDecimal(target) + "C"
  }

  function ArgumentText(c: Command): string {
    if c.Celsius? then CelsiusText(c.target) else ComfortText(c.preference)
  }

  function CommandText(c: Command): string {
    Fields3(c.mode, c.fan, ArgumentText(c))
  }

  /** `_COMFORT_TUPLE`'s `comfort:(-2|-1|0|1|2)`. */
  function ReadComfort(s: string): Option<int> {
    if s == "comfort:-2" then Some(-2)
    else if s == "comfort:-1" then Some(-1)
    else if s == "comfort:0" then Some(0)
    else if s == "comfort:1" then Some(1)
    else if s == "comfort:2" then Some(2)
    else None
  }

  /** The literal before the final `C`. */
  function ReadCelsius(s: string): Option<Decimal> {
    if s != "" && s[|s| - 1] == 'C' then ParseDecimal(s[..|s| - 1]) else None
  }

  function Utf8Length(s: string): nat {
    if s == "" then 0
    else
      var c := s[0] as int;
      (if c < 0x80 then 1 else if c < 0x800 then 2 else if c < 0x10000 then 3 else 4) + Utf8Length(s[1..])
  }

  /** `math.isclose(steps, round(steps), rel_tol=0.0, abs_tol=1e-9)` */
  predicate NearlyWhole(steps: real) {
    var nearest := (steps + 0.5).Floor as real;
    -0.000000001 <= steps - nearest <= 0.000000001
  }

  datatype InputDomain = InputDomain(
    modes: seq<string>, fans: seq<string>, ranges: map<string, TargetRange>,
    comfort: ComfortRange, interlocks: seq<Interlock>, preserved: seq<string>)
  {
    /** What the artifact parser leaves to rely on, with names free of the separator. */
    predicate WellFormed() {
      && (forall i :: 0 <= i < |modes| ==> modes[i] != "" && NoBar(modes[i]))
      && (forall i :: 0 <= i < |fans| ==> fans[i] != "" && NoBar(fans[i]))
      && comfort.appliesTo == ["auto"] && comfort.step > 0
      && (forall mode :: mode in ranges ==> ranges[mode].step > 0.0)
    }

    predicate ComponentsAuthorized(mode: string, fan: string) {
      mode in modes && fan in fans && Satisfied(interlocks, mode, fan)
    }

    predicate OnGrid(mode: string, target: Decimal)
      requires WellFormed() && Canonical(target)
    {
      && mode in ranges
      && var range := ranges[mode];
         range.min <= Value(target) <= range.max && NearlyWhole((Value(target) - range.min) / range.step)
    }

    function RenderTemperature(mode: string, fan: string, target: Decimal): Option<string>
      requires WellFormed() && Canonical(target)
    {
      if !ComponentsAuthorized(mode, fan) then None
      else if !OnGrid(mode, target) then None
      else Some(Fields3(mode, fan, CelsiusText(target)))
    }

    function RenderComfort(mode: string, fan: string, preference: int): Option<string>
      requires WellFormed()
    {
      if !ComponentsAuthorized(mode, fan) || mode !in comfort.appliesTo
         || preference < comfort.min || preference > comfort.max
         || (preference - comfort.min) % comfort.step != 0 then None
      else Some(Fields3(mode, fan, ComfortText(preference)))
    }

    function Render(c: Command): Option<string>
      requires WellFormed() && IsCommand(c)
    {
      match c
      case Celsius(mode, fan, target) => RenderTemperature(mode, fan, target)
      case Comfort(mode, fan, preference) => RenderComfort(mode, fan, preference)
    }

    predicate Authorizes(value: string)
      requires WellFormed()
    {
      if Utf8Length(value) > 512 then false
      else
        match Split3(value)
        case None => false
        case Some((mode, fan, argument)) =>
          if mode == "" || fan == "" then false
          else if mode == "auto" && ReadComfort(argument).Some? then
            RenderComfort(mode, fan, ReadComfort(argument).value) == Some(value)
          else if ReadCelsius(argument).Some? && IsLiteral(ReadCelsius(argument).value) then
            RenderTemperature(mode, fan, Number(ReadCelsius(argument).value)) == Some(value)
          else false
    }

    /** Overlay of the two modes that carry the current setpoint on the grid of cooling. */
    function WithPreserved(added: seq<string>): InputDomain
      requires "cool" in ranges
    {
      this.(modes := AddMissing(modes, added),
            ranges := ranges + (map mode | mode in added :: ranges["cool"]),
            preserved := added)
    }
  }

  function AddMissing(names: seq<string>, added: seq<string>): seq<string>
    decreases |added|
  {
    if added == [] then names
    else AddMissing(if added[0] in names then names else names + [added[0]], added[1..])
  }

  // ---- The recognizer accepts exactly what the printer prints -----------------------------------

  lemma ComfortTexts()
    ensures ComfortText(-2) == "comfort:-2" && ComfortText(-1) == "comfort:-1" && ComfortText(0) == "comfort:0"
    ensures ComfortText(1) == "comfort:1" && ComfortText(2) == "comfort:2"
  {
  }

  lemma ReadPrintedArgument(c: Command)
    requires IsCommand(c)
    ensures c.Comfort? && -2 <= c.preference <= 2 ==> ReadComfort(ArgumentText(c)) == Some(c.preference)
    ensures c.Celsius? ==> ReadComfort(ArgumentText(c)) == None && ReadCelsius(ArgumentText(c)) == Some(c.target)
  {
    if c.Comfort? {
      ComfortTexts();
      if -2 <= c.preference <= 2 {
        assert c.preference in {-2, -1, 0, 1, 2};
      }
    } else {
      var s := CelsiusText(c.target);
      assert s[|s| - 1] == 'C' && s[..|s| - 1] == PrintDecimal(c.target);
      ParsePrinted(c.target);
    }
  }

  /** The only command with these fields and this argument. */
  function CommandOf(mode: string, fan: string, argument: string): Option<Command> {
    if mode == "auto" && ReadComfort(argument).Some? then Some(Comfort(mode, fan, ReadComfort(argument).value))
    else if ReadCelsius(argument).Some? && Canonical(ReadCelsius(argument).value) then Some(Celsius(mode, fan, ReadCelsius(argument).value))
    else None
  }

  /** Comfort steps the request pattern can spell. */
  predicate Spellable(c: Command) {
    c.Comfort? ==> -2 <= c.preference <= 2
  }

  lemma {:induction false} ReadCommand(d: InputDomain, c: Command)
    requires d.WellFormed() && IsCommand(c) && Spellable(c) && d.Render(c).Some?
    ensures Split3(CommandText(c)) == Some((c.mode, c.fan, ArgumentText(c)))
    ensures CommandOf(c.mode, c.fan, ArgumentText(c)) == Some(c)
    ensures c.mode != "" && c.fan != "" && d.Render(c) == Some(CommandText(c))
  {
    assert c.mode in d.modes && c.fan in d.fans;
    Split3Joined(c.mode, c.fan, ArgumentText(c));
    ReadPrintedArgument(c);
  }

  /** Whatever the printer prints is recognized, if it fits in a request. */
  lemma PrintedIsAuthorized(d: InputDomain, c: Command)
    requires d.WellFormed() && IsCommand(c) && Spellable(c) && d.Render(c).Some?
    ensures d.Authorizes(d.Render(c).value) <==> Utf8Length(d.Render(c).value) <= 512
  {
    ReadCommand(d, c);
    ReadPrintedArgument(c);
    if c.Celsius? {
      NumberKeepsValue(c.target);
    }
  }

  /** Whatever is recognized is what the printer prints for the command that can be read off it. */
  lemma AuthorizedIsPrinted(d: InputDomain, s: string) returns (c: Command)
    requires d.WellFormed() && d.Authorizes(s)
    ensures IsCommand(c) && Spellable(c) && d.Render(c) == Some(s)
  {
    JoinedSplit3(s);
    var (mode, fan, argument) := Split3(s).value;
    if mode == "auto" && ReadComfort(argument).Some? {
      c := Comfort(mode, fan, ReadComfort(argument).value);
    } else {
      c := Celsius(mode, fan, Number(ReadCelsius(argument).value));
    }
  }

  lemma PrintedOnce(d: InputDomain, c: Command, c': Command)
    requires d.WellFormed() && IsCommand(c) && IsCommand(c') && Spellable(c) && Spellable(c')
    requires d.Render(c).Some? && d.Render(c) == d.Render(c')
    ensures c == c'
  {
    ReadCommand(d, c);
    ReadCommand(d, c');
  }

  /** The recognizer decides membership in the printer's image, and each member has one reading. */
  lemma {:induction false} RecognizerIsPrinterImage(d: InputDomain, s: string)
    requires d.WellFormed()
    ensures d.Authorizes(s) <==>
              Utf8Length(s) <= 512 && exists c :: IsCommand(c) && Spellable(c) && d.Render(c) == Some(s)
    ensures forall c, c' :: (IsCommand(c) && IsCommand(c') && Spellable(c) && Spellable(c') &&
                             d.Render(c) == Some(s) && d.Render(c') == Some(s)) ==> c == c'
  {
    if d.Authorizes(s) {
      var c := AuthorizedIsPrinted(d, s);
    }
    if c :| IsCommand(c) && Spellable(c) && d.Render(c) == Some(s) {
      PrintedIsAuthorized(d, c);
    }
    forall c, c' | IsCommand(c) && IsCommand(c') && Spellable(c) && Spellable(c') && d.Render(c) == Some(s) && d.Render(c') == Some(s)
      ensures c == c'
    {
      PrintedOnce(d, c, c');
    }
  }

  // ---- The overlay for modes that preserve the setpoint -----------------------------------------

  type Key = (string, string)

  /** What the overlay reads of one confirmed feature.  `declared` says that every mode of `preserve`
      starts one of the feature's values. */
  datatype ClimateFeature = ClimateFeature(key: Key, preserve: Option<seq<string>>, exactWebDomain: bool, declared: bool)

  predicate OverlayAllowed(domains: map<Key, InputDomain>, f: ClimateFeature)
    requires f.preserve.Some?
  {
    && f.key in domains && f.preserve.value == ["dry", "fan_only"] && f.exactWebDomain
    && "cool" in domains[f.key].ranges && f.declared
  }

  /** Every feature's overlay in turn; one that does not fit refuses the whole catalogue. */
  function Augmented(domains: map<Key, InputDomain>, features: seq<ClimateFeature>): Option<map<Key, InputDomain>> {
    if features == [] then Some(domains)
    else
      var before := Augmented(domains, features[..|features| - 1]);
      var f := features[|features| - 1];
      if before.None? || f.preserve.None? then before
      else if !OverlayAllowed(before.value, f) then None
      else Some(before.value[f.key := before.value[f.key].WithPreserved(f.preserve.value)])
  }

  method AugmentConfirmedClimateDomain(domains: map<Key, InputDomain>, features: seq<ClimateFeature>)
    returns (r: Option<map<Key, InputDomain>>)
    ensures r == Augmented(domains, features)
  {
    var capabilities := domains;
    for n := 0 to |features|
      invariant Augmented(domains, features[..n]) == Some(capabilities)
    {
      assert features[..n + 1][..n] == features[..n];
      var f := features[n];
      if f.preserve.Some? {
        if !OverlayAllowed(capabilities, f) {
          RefusalStays(domains, features, n + 1);
          return None;
        }
        capabilities := capabilities[f.key := capabilities[f.key].WithPreserved(f.preserve.value)];
      }
    }
    assert features[..|features|] == features;
    return Some(capabilities);
  }

  lemma {:induction false} RefusalStays(domains: map<Key, InputDomain>, features: seq<ClimateFeature>, n: nat)
    requires n <= |features| && Augmented(domains, features[..n]) == None
    ensures Augmented(domains, features) == None
    decreases |features| - n
  {
    if n < |features| {
      assert features[..n + 1][..n] == features[..n];
      RefusalStays(domains, features, n + 1);
    } else {
      assert features[..n] == features;
    }
  }

  predicate Preserving(mode: string) {
    mode == "dry" || mode == "fan_only"
  }

  lemma {:induction false} AddedModes(names: seq<string>, added: seq<string>)
    ensures forall mode :: mode in AddMissing(names, added) <==> mode in names || mode in added
    decreases |added|
  {
    if added != [] {
      AddedModes(if added[0] in names then names else names + [added[0]], added[1..]);
      assert added == [added[0]] + added[1..];
    }
  }

  /** What the overlay of the two modes makes of one mode. */
  lemma PreservedAt(d: InputDomain, mode: string)
    requires "cool" in d.ranges
    ensures var d' := d.WithPreserved(["dry", "fan_only"]);
      && (mode in d'.modes <==> mode in d.modes || Preserving(mode))
      && (mode in d'.ranges <==> mode in d.ranges || Preserving(mode))
      && (mode in d'.ranges ==> d'.ranges[mode] == if Preserving(mode) then d.ranges["cool"] else d.ranges[mode])
  {
    AddedModes(d.modes, ["dry", "fan_only"]);
    assert mode in ["dry", "fan_only"] <==> Preserving(mode);
  }

  lemma PreservedKeepsWellFormed(d: InputDomain)
    requires d.WellFormed() && "cool" in d.ranges
    ensures d.WithPreserved(["dry", "fan_only"]).WellFormed()
  {
    var d' := d.WithPreserved(["dry", "fan_only"]);
    forall i | 0 <= i < |d'.modes| ensures d'.modes[i] != "" && NoBar(d'.modes[i]) {
      PreservedAt(d, d'.modes[i]);
      assert d'.modes[i] in d'.modes;
    }
    forall mode | mode in d'.ranges ensures d'.ranges[mode].step > 0.0 {
      PreservedAt(d, mode);
    }
  }

  lemma PreservedKeepsOtherModes(d: InputDomain, c: Command)
    requires d.WellFormed() && "cool" in d.ranges && d.WithPreserved(["dry", "fan_only"]).WellFormed()
    requires IsCommand(c) && !Preserving(c.mode)
    ensures d.WithPreserved(["dry", "fan_only"]).Render(c) == d.Render(c)
  {
    PreservedAt(d, c.mode);
  }

  predicate AllWellFormed(domains: map<Key, InputDomain>) {
    forall key :: key in domains ==> domains[key].WellFormed()
  }

  /** An accepted catalogue adds no capability and leaves every other mode's commands as they were. */
  lemma {:induction false} OverlayKeepsOtherModes(domains: map<Key, InputDomain>, features: seq<ClimateFeature>)
    requires AllWellFormed(domains) && Augmented(domains, features).Some?
    ensures var after := Augmented(domains, features).value;
            && after.Keys == domains.Keys && AllWellFormed(after)
            && forall key, c :: key in domains && IsCommand(c) && !Preserving(c.mode) ==> after[key].Render(c) == domains[key].Render(c)
  {
    if features != [] {
      var n := |features| - 1;
      OverlayKeepsOtherModes(domains, features[..n]);
      if features[n].preserve.Some? {
        var d := Augmented(domains, features[..n]).value[features[n].key];
        PreservedKeepsWellFormed(d);
        forall c | IsCommand(c) && !Preserving(c.mode) ensures d.WithPreserved(["dry", "fan_only"]).Render(c) == d.Render(c) {
          PreservedKeepsOtherModes(d, c);
        }
      }
    }
  }

  /** So is the recognizer on every request that does not name one of the two modes. */
  lemma OverlayKeepsOtherRequests(domains: map<Key, InputDomain>, features: seq<ClimateFeature>, key: Key, s: string)
    requires AllWellFormed(domains) && Augmented(domains, features).Some? && key in domains
    requires Split3(s).Some? ==> !Preserving(Split3(s).value.0)
    ensures key in Augmented(domains, features).value && Augmented(domains, features).value[key].WellFormed()
    ensures Augmented(domains, features).value[key].Authorizes(s) == domains[key].Authorizes(s)
  {
    OverlayKeepsOtherModes(domains, features);
    var d, d' := domains[key], Augmented(domains, features).value[key];
    if Split3(s).Some? {
      var (mode, fan, argument) := Split3(s).value;
      if ReadComfort(argument).Some? {
        assert d'.Render(Comfort(mode, fan, ReadComfort(argument).value)) == d.Render(Comfort(mode, fan, ReadComfort(argument).value));
      }
      if ReadCelsius(argument).Some? && IsLiteral(ReadCelsius(argument).value) {
        var target := Number(ReadCelsius(argument).value);
        assert d'.Render(Celsius(mode, fan, target)) == d.Render(Celsius(mode, fan, target));
      }
    }
  }

  /** In an overlaid mode the targets are those of cooling; only fan and mode are checked anew. */
  lemma PreservedModeCarriesTheCoolGrid(d: InputDomain, mode: string, fan: string, target: Decimal)
    requires d.WellFormed() && "cool" in d.ranges && Preserving(mode) && Canonical(target)
    ensures d.WithPreserved(["dry", "fan_only"]).WellFormed()
    ensures d.WithPreserved(["dry", "fan_only"]).RenderTemperature(mode, fan, target).Some? <==>
              d.OnGrid("cool", target) && fan in d.fans && Satisfied(d.interlocks, mode, fan)
  {
    PreservedKeepsWellFormed(d);
    PreservedAt(d, mode);
  }
}
