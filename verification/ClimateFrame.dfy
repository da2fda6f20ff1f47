/** Composing one climate command from what the appliance reports (local_command.py).

    The appliance takes whole frames `mode|fan|argument`, so a request that names one part has the
    others filled in from the shadow of reported fields, each of which ages on its own.  Instants are
    whole microseconds; temperatures count half degrees. */
module ClimateFrame {
  import opened Wrappers
  import opened DecimalText
  import CompositeDomain

  /** Ten minutes, in microseconds. */
  const MAX_SHADOW_AGE: int := 600_000_000

  datatype FieldName = ModeField | FanField | TargetField | ComfortField

  /** A reported value.  `Half(h)` is the float h / 2; `Junk` is any other value, a non-finite float
      included. */
  datatype Value = Null | Text(text: string) | Int(n: int) | Half(halves: int) | Junk

  datatype Field = Field(value: Value, observedAt: Option<int>)

  type Shadow = map<FieldName, Field>

  datatype Argument = Target(halves: int) | Comfort(step: int)

  /** What a frame writes, and equally what the appliance is expected to be set to before it. */
  datatype Frame = Frame(mode: string, fan: string, argument: Argument)

  /** The parts a command names; the retained values may only fill a gap. */
  datatype Request = Request(mode: Option<string>, fan: Option<string>, target: Option<int>, comfort: Option<int>,
                             retainedTarget: Option<int>, retainedComfort: Option<int>)

  function ObservedAt(shadow: Shadow, f: FieldName): Option<int> {
    if f in shadow then shadow[f].observedAt else None
  }

  function RawValue(shadow: Shadow, f: FieldName): Value {
    if f in shadow then shadow[f].value else Null
  }

  predicate IsFresh(shadow: Shadow, f: FieldName, now: int) {
    ObservedAt(shadow, f).Some? && now - ObservedAt(shadow, f).value <= MAX_SHADOW_AGE
  }

  /** The reported value, or nothing when it is too old to build a command from. */
  function Fresh(shadow: Shadow, f: FieldName, now: int): Value {
    if IsFresh(shadow, f, now) then RawValue(shadow, f) else Null
  }

  function HalvesOf(v: Value): Option<int> {
    match v
    case Int(n) => Some(2 * n)
    case Half(halves) => Some(halves)
    case _ => None
  }

  function NumberOf(halves: int): Value {
    if halves % 2 == 0 then Int(halves / 2) else Half(halves)
  }

  /** The argument a mode carries: a comfort step in AUTO, a Celsius target elsewhere. */
  function ArgumentField(mode: Value): FieldName {
    if mode == Text("auto") then ComfortField else TargetField
  }

  predicate InVariant(mode: Value, f: FieldName) {
    f == ModeField || f == FanField || f == ArgumentField(mode)
  }

  function ReadArgument(mode: Value, v: Value): Option<Argument> {
    if mode == Text("auto") then (if v.Int? && -2 <= v.n <= 2 then Some(Comfort(v.n)) else None)
    else if HalvesOf(v).Some? then Some(Target(HalvesOf(v).value)) else None
  }

  /** The tuple sent along for the bridge to compare with, or nothing if any part is missing. */
  function ClimateExpectedState(shadow: Shadow, now: int): Option<Frame> {
    var mode, fan := Fresh(shadow, ModeField, now), Fresh(shadow, FanField, now);
    var argument := ReadArgument(mode, Fresh(shadow, ArgumentField(mode), now));
    if mode.Text? && fan.Text? && argument.Some? then Some(Frame(mode.text, fan.text, argument.value)) else None
  }

  const ORDINARY_MODES := {"cool", "dry", "fan_only"}
  const ORDINARY_FANS := {"very low", "low", "medium", "high", "auto"}

  /** Modes that carry the live target but let nobody edit it. */
  predicate PreservesTarget(mode: string) {
    mode == "dry" || mode == "fan_only"
  }

  /** The frame for a request, or nothing when a part would have to be guessed.  The router has
      obtained the expected state first, so mode, fan and argument are fresh and well typed. */
  function ClimateTuple(shadow: Shadow, req: Request, now: int): Option<Frame>
    requires ClimateExpectedState(shadow, now).Some?
  {
    var reportedMode, reportedFan := Fresh(shadow, ModeField, now).text, Fresh(shadow, FanField, now).text;
    var mode := if req.mode.Some? then req.mode.value else reportedMode;
    var fan := if req.fan.Some? then req.fan.value else reportedFan;
    if req.target.Some? && req.comfort.Some? then None
    else if mode == "auto" then
      if req.target.Some? || fan == "power" then None
      else
        var preference :=
          if req.comfort.Some? then Int(req.comfort.value)
          else if reportedMode == "auto" && reportedFan != "power" then Fresh(shadow, ComfortField, now)
          else if req.retainedComfort.Some? then Int(req.retainedComfort.value)
          else Null;
        if preference.Int? && -2 <= preference.n <= 2 then Some(Frame(mode, fan, Comfort(preference.n))) else None
    else if req.comfort.Some? then None
    else
      var current := Fresh(shadow, TargetField, now);
      if PreservesTarget(mode) &&
         (req.target.Some? || reportedMode !in ORDINARY_MODES || reportedFan !in ORDINARY_FANS || HalvesOf(current).None?) then None
      else if req.target.Some? && fan == "power" then None
      else
        var halves :=
          if req.target.Some? then req.target
          else if reportedFan == "power" then req.retainedTarget
          else if reportedMode == "auto" then req.retainedTarget
          else HalvesOf(current);
        if fan == "power" && mode != "cool" then None
        else if halves.None? then None
        else Some(Frame(mode, fan, Target(halves.value)))
  }

  // ---- What a frame may contain -----------------------------------------------------------------

  /** Where the argument of a frame may have come from. */
  predicate JustifiedArgument(e: Frame, req: Request, f: Frame) {
    match f.argument
    case Comfort(step) =>
      && f.mode == "auto" && -2 <= step <= 2
      && (|| req.comfort == Some(step)
          || (req.comfort.None? && e.mode == "auto" && e.fan != "power" && e.argument == Comfort(step))
          || (req.comfort.None? && (e.mode != "auto" || e.fan == "power") && req.retainedComfort == Some(step)))
    case Target(halves) =>
      && f.mode != "auto"
      && (|| req.target == Some(halves)
          || (req.target.None? && e.mode != "auto" && e.fan != "power" && e.argument == Target(halves))
          || (req.target.None? && (e.mode == "auto" || e.fan == "power") && req.retainedTarget == Some(halves)))
  }

  /** The placeholder rules.  No Celsius argument is a reading taken under power fan or in AUTO; AUTO
      carries a comfort step only; dry and fan-only restate the reported target; power fan cools. */
  lemma FrameIsSafe(shadow: Shadow, req: Request, now: int)
    requires ClimateExpectedState(shadow, now).Some? && ClimateTuple(shadow, req, now).Some?
    ensures var e, f := ClimateExpectedState(shadow, now).value, ClimateTuple(shadow, req, now).value;
            && JustifiedArgument(e, req, f)
            && (f.mode == "auto" <==> f.argument.Comfort?)
            && (PreservesTarget(f.mode) ==> f.argument == e.argument && req.target == None && e.mode in ORDINARY_MODES && e.fan in ORDINARY_FANS)
            && (f.fan == "power" ==> f.mode == "cool" && req.target == None)
  {
  }

  /** Nothing the request leaves out is changed: an unnamed mode or fan is the expected one, and so
      is an unnamed argument as long as the command does not cross into or out of AUTO and the fan is
      not on power. */
  lemma NoLostUpdate(shadow: Shadow, req: Request, now: int)
    requires ClimateExpectedState(shadow, now).Some? && ClimateTuple(shadow, req, now).Some?
    ensures var e, f := ClimateExpectedState(shadow, now).value, ClimateTuple(shadow, req, now).value;
            && f.mode == (if req.mode.Some? then req.mode.value else e.mode)
            && f.fan == (if req.fan.Some? then req.fan.value else e.fan)
            && (req.target.Some? ==> f.argument == Target(req.target.value))
            && (req.comfort.Some? ==> f.argument == Comfort(req.comfort.value))
            && (req.target.None? && req.comfort.None? && (f.mode == "auto" <==> e.mode == "auto") && e.fan != "power" ==> f.argument == e.argument)
  {
  }

  /** The stored settings of an appliance: a frame written under power fan leaves the target alone. */
  datatype Appliance = Appliance(mode: string, fan: string, target: int, comfort: int)

  predicate Matches(a: Appliance, e: Frame) {
    && a.mode == e.mode && a.fan == e.fan
    && match e.argument case Comfort(step) => a.comfort == step case Target(halves) => a.fan != "power" ==> a.target == halves
  }

  function Written(a: Appliance, f: Frame): Appliance {
    match f.argument
    case Comfort(step) => Appliance(f.mode, f.fan, a.target, step)
    case Target(halves) => Appliance(f.mode, f.fan, if f.fan == "power" then a.target else halves, a.comfort)
  }

  /** Through a bridge that writes only if the appliance is still as expected, a command changes the
      named settings and no other. */
  lemma AcceptedFrameChangesOnlyTheRequest(shadow: Shadow, req: Request, now: int, a: Appliance)
    requires ClimateExpectedState(shadow, now).Some? && ClimateTuple(shadow, req, now).Some?
    requires Matches(a, ClimateExpectedState(shadow, now).value)
    requires var e, f := ClimateExpectedState(shadow, now).value, ClimateTuple(shadow, req, now).value;
             (f.mode == "auto" <==> e.mode == "auto") && e.fan != "power"
    ensures var f := ClimateTuple(shadow, req, now).value;
            Written(a, f) == Appliance(
              if req.mode.Some? then req.mode.value else a.mode,
              if req.fan.Some? then req.fan.value else a.fan,
              if req.target.Some? then req.target.value else a.target,
              if req.comfort.Some? then req.comfort.value else a.comfort)
  {
    NoLostUpdate(shadow, req, now);
    FrameIsSafe(shadow, req, now);
  }

  // ---- The command string -----------------------------------------------------------------------

  /** The temperature as text: a whole number of degrees prints without a fraction. */
  function RenderedTarget(halves: int): string {
    if halves % 2 == 0 then PrintInt(halves / 2)
    else (if halves < 0 then "-" else "") + PrintNat(Abs(halves) / 2) + ".5"
  }

  function FrameText(f: Frame): string {
    match f.argument
    case Comfort(step) => Fields3(f.mode, f.fan, "comfort:" + PrintInt(step))
    case Target(halves) => Fields3(f.mode, f.fan, RenderedTarget(halves) + "C")
  }

  function CommandOf(f: Frame): CompositeDomain.Command {
    match f.argument
    case Comfort(step) => CompositeDomain.Command.Comfort(f.mode, f.fan, step)
    case Target(halves) => CompositeDomain.Command.Celsius(f.mode, f.fan, OfHalves(halves))
  }

  lemma RenderedTargetIsDecimal(halves: int)
    ensures RenderedTarget(halves) == PrintDecimal(OfHalves(halves))
  {
    if halves % 2 == 0 {
      assert Abs(halves / 2) == Abs(halves) / 2;
    } else if halves < 0 {
      assert "-" + (PrintNat(Abs(halves) / 2) + ".5") == RenderedTarget(halves);
    }
  }

  /** The composer and the authorizing domain spell one command one way. */
  lemma SameSpelling(f: Frame)
    ensures FrameText(f) == CompositeDomain.CommandText(CommandOf(f))
  {
    if f.argument.Target? {
      RenderedTargetIsDecimal(f.argument.halves);
    }
  }

  /** The fields a confirmed command string claims the appliance now has; no claim about the target
      while the fan is on power.  Nothing where the source would raise. */
  function ReadConfirmed(value: string): Option<map<FieldName, Value>> {
    match Split3(value)
    case None => None
    case Some((mode, fan, argument)) =>
      var common := map[ModeField := Text(mode), FanField := Text(fan)];
      if fan == "power" then Some(common)
      else if mode == "auto" then
        if !("comfort:" <= argument) then None
        else
          var step := IntOf(argument[|"comfort:"|..]);
          if step.Some? && -2 <= step.value <= 2 then Some(common[ComfortField := Int(step.value)]) else None
      else if argument == "" || argument[|argument| - 1] != 'C' then None
      else
        var d := ParseDecimal(argument[..|argument| - 1]);
        if d.None? || !IsLiteral(d.value) || ToHalves(Number(d.value)).None? then None
        else Some(common[TargetField := NumberOf(ToHalves(Number(d.value)).value)])
  }

  function ConfirmedFields(f: Frame): map<FieldName, Value> {
    var common := map[ModeField := Text(f.mode), FanField := Text(f.fan)];
    if f.fan == "power" then common
    else match f.argument
      case Comfort(step) => common[ComfortField := Int(step)]
      case Target(halves) => common[TargetField := NumberOf(halves)]
  }

  predicate Writable(f: Frame) {
    && NoBar(f.mode) && NoBar(f.fan)
    && (f.mode == "auto" <==> f.argument.Comfort?)
    && (f.argument.Comfort? ==> -2 <= f.argument.step <= 2)
  }

  /** A string read back claims its own first two fields, and an argument of its mode unless the fan is on
      power: a comfort step from -2 to 2 in AUTO, a temperature in Celsius elsewhere. */
  lemma ReadBackIsOfTheString(value: string)
    requires ReadConfirmed(value).Some?
    ensures Split3(value).Some?
    ensures var (mode, fan, argument), fields := Split3(value).value, ReadConfirmed(value).value;
      && ModeField in fields && fields[ModeField] == Text(mode) && FanField in fields && fields[FanField] == Text(fan)
      && (ComfortField in fields <==> fan != "power" && mode == "auto")
      && (ComfortField in fields ==>
            && "comfort:" <= argument && fields[ComfortField].Int? && -2 <= fields[ComfortField].n <= 2
            && IntOf(argument[|"comfort:"|..]) == Some(fields[ComfortField].n))
      && (TargetField in fields <==> fan != "power" && mode != "auto")
      && (TargetField in fields ==> argument != "" && argument[|argument| - 1] == 'C')
  {
  }

  /** Reading back a command that was sent recovers every field it set. */
  lemma ConfirmationInvertsRendering(f: Frame)
    requires Writable(f)
    ensures ReadConfirmed(FrameText(f)) == Some(ConfirmedFields(f))
  {
    match f.argument
    case Comfort(step) =>
      var argument := "comfort:" + PrintInt(step);
      Split3Joined(f.mode, f.fan, argument);
      assert argument[|"comfort:"|..] == PrintInt(step);
      IntOfPrinted(step);
    case Target(halves) =>
      var argument := RenderedTarget(halves) + "C";
      Split3Joined(f.mode, f.fan, argument);
      RenderedTargetIsDecimal(halves);
      assert argument[..|argument| - 1] == RenderedTarget(halves);
      ParsePrinted(OfHalves(halves));
      NumberKeepsValue(OfHalves(halves));
      HalvesRoundTrip(halves);
  }
}
