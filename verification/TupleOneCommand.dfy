/** What one command composes from a reading and from memory, and exactly when nothing of some of
    them is in it (local_control_router.py). */
module TupleOneCommand {
  import opened Wrappers
  import opened ClimateFrame
  import opened TupleRouter

  // ---- What a command uses ----------------------------------------------------------------------

  /** The mode a request ends up in, on this reading. */
  function Destination(shadow: Shadow, req: Request): Value {
    if req.mode.Some? then Text(req.mode.value) else RawValue(shadow, ModeField)
  }

  /** The reported argument is a placeholder for the destination, so that only a retained one helps. */
  predicate NeedsRetained(shadow: Shadow, req: Request) {
    && req.target.None? && req.comfort.None?
    && (|| RawValue(shadow, FanField) == Text("power")
        || (Destination(shadow, req) == Text("auto")) != (RawValue(shadow, ModeField) == Text("auto")))
  }

  /** The caller itself offers one. */
  predicate IsOffered(shadow: Shadow, req: Request) {
    if Destination(shadow, req) == Text("auto") then req.retainedComfort.Some? else req.retainedTarget.Some?
  }

  /** The argument that is read is among the fields, and a remembered one that is needed among the modes. */
  predicate Covered(shadow: Shadow, req: Request, fields: set<FieldName>, modes: iset<string>) {
    && ArgumentField(RawValue(shadow, ModeField)) in fields
    && (NeedsRetained(shadow, req) ==> IsOffered(shadow, req) || (Destination(shadow, req).Text? && Destination(shadow, req).text in modes))
  }

  predicate SameReport(a: Shadow, b: Shadow, f: FieldName) {
    ObservedAt(a, f) == ObservedAt(b, f) && RawValue(a, f) == RawValue(b, f)
  }

  ghost predicate SameReports(a: Shadow, b: Shadow, fields: set<FieldName>) {
    forall f :: f in fields ==> SameReport(a, b, f)
  }

  ghost predicate SameTimes(a: Shadow, b: Shadow) {
    forall f :: ObservedAt(a, f) == ObservedAt(b, f)
  }

  /** What is remembered for a mode. */
  function Entry(d: Device, mode: string): Option<int> {
    if mode == "auto" then d.comfort else if mode in d.targets then Some(d.targets[mode]) else None
  }

  ghost predicate SameMemory(c: Device, d: Device, modes: iset<string>) {
    forall mode :: mode in modes ==> Entry(c, mode) == Entry(d, mode)
  }

  /** What is composed is the same whatever the other fields and entries hold, if anything. */
  ghost predicate DependsOnly(d: Device, shadow: Shadow, req: Request, now: int, fields: set<FieldName>, modes: iset<string>) {
    forall c, other :: SameTimes(other, shadow) && SameReports(other, shadow, fields) && SameMemory(c, d, modes) ==>
      Compose(c, other, req, now) == Compose(d, shadow, req, now)
  }

  // ---- Supposing an argument for what is not known ----------------------------------------------

  /** The reading, if the argument it has for its mode is not known and were `z`. */
  function SupposedReading(shadow: Shadow, fields: set<FieldName>, z: int): Shadow {
    var f := ArgumentField(RawValue(shadow, ModeField));
    if f in fields then shadow else shadow[f := Field(Int(z), ObservedAt(shadow, f))]
  }

  /** The memory, if what it holds for the mode is not known and were `z`. */
  function SupposedMemory(d: Device, mode: Value, modes: iset<string>, z: int): Device {
    if !mode.Text? || mode.text in modes then d
    else if mode.text == "auto" then d.(comfort := Some(z))
    else d.(targets := d.targets[mode.text := 2 * z])
  }

  function Supposing(d: Device, shadow: Shadow, req: Request, now: int, fields: set<FieldName>, modes: iset<string>, z: int): Option<Composed> {
    Compose(SupposedMemory(d, Destination(shadow, req), modes, z), SupposedReading(shadow, fields, z), req, now)
  }

  /** What the command composes is settled by the fields and modes that are known: it uses no others,
      or composes nothing even with a usable argument in their place. */
  predicate IsSettled(d: Device, shadow: Shadow, req: Request, now: int, fields: set<FieldName>, modes: iset<string>) {
    Covered(shadow, req, fields, modes) || Supposing(d, shadow, req, now, fields, modes, 0).None?
  }

  // ---- Exactly when a frame is composed, and which ----------------------------------------------

  /** The request can be met in the reported mode and fan, whatever the argument. */
  predicate Fits(mode: string, fan: string, req: Request) {
    var toMode, toFan := if req.mode.Some? then req.mode.value else mode, if req.fan.Some? then req.fan.value else fan;
    if toMode == "auto" then req.target.None? && toFan != "power" && (req.comfort.Some? ==> -2 <= req.comfort.value <= 2)
    else
      && req.comfort.None?
      && (toMode in {"dry", "fan_only"} ==>
            && req.target.None? && mode in {"cool", "dry", "fan_only"}
            && fan in {"very low", "low", "medium", "high", "auto"})
      && (toFan == "power" ==> toMode == "cool" && req.target.None?)
  }

  /** The argument retained for the destination, offered or remembered. */
  function RetainedArgument(d: Device, shadow: Shadow, req: Request): Option<Argument> {
    var mode := Destination(shadow, req);
    if mode == Text("auto") then
      var step := if req.retainedComfort.Some? then req.retainedComfort else Entry(d, "auto");
      if step.Some? && -2 <= step.value <= 2 then Some(Comfort(step.value)) else None
    else
      var halves := if req.retainedTarget.Some? then req.retainedTarget else if mode.Text? then Entry(d, mode.text) else None;
      if halves.Some? then Some(Target(halves.value)) else None
  }

  /** The reported argument: a comfort step from -2 to 2 in AUTO, a target in half degrees elsewhere. */
  function ReportedArgument(shadow: Shadow): Option<Argument> {
    if RawValue(shadow, ModeField) == Text("auto") then
      match RawValue(shadow, ComfortField)
      case Int(n) => if -2 <= n <= 2 then Some(Comfort(n)) else None
      case _ => None
    else
      match RawValue(shadow, TargetField)
      case Int(n) => Some(Target(2 * n))
      case Half(halves) => Some(Target(halves))
      case _ => None
  }

  /** The argument of the frame: named, retained where the reported one is a placeholder, or read. */
  function ArgumentToSend(d: Device, shadow: Shadow, req: Request): Option<Argument> {
    if req.comfort.Some? then Some(Comfort(req.comfort.value))
    else if req.target.Some? then Some(Target(req.target.value))
    else if NeedsRetained(shadow, req) then RetainedArgument(d, shadow, req)
    else ReportedArgument(shadow)
  }

  /** Observed, or confirmed, no longer than ten minutes ago. */
  predicate IsYoung(shadow: Shadow, f: FieldName, now: int) {
    ObservedAt(shadow, f).Some? && now <= ObservedAt(shadow, f).value + 10 * 60 * 1_000_000
  }

  predicate IsReadable(shadow: Shadow, now: int) {
    var mode := RawValue(shadow, ModeField);
    && mode.Text? && RawValue(shadow, FanField).Text? && ReportedArgument(shadow).Some?
    && IsYoung(shadow, ModeField, now) && IsYoung(shadow, FanField, now)
    && IsYoung(shadow, if mode == Text("auto") then ComfortField else TargetField, now)
  }

  /** A frame is composed if and only if mode, fan and argument are fresh and usable, the request fits
      them, and there is an argument to send. */
  lemma ComposesIff(d: Device, shadow: Shadow, req: Request, now: int)
    ensures Compose(d, shadow, req, now).Some? <==>
      IsReadable(shadow, now) && Fits(RawValue(shadow, ModeField).text, RawValue(shadow, FanField).text, req) && ArgumentToSend(d, shadow, req).Some?
  {
    assert ClimateExpectedState(shadow, now).Some? <==> IsReadable(shadow, now);
    if IsReadable(shadow, now) {
      FrameIff(d, shadow, req, now);
    }
  }

  lemma FrameIff(d: Device, shadow: Shadow, req: Request, now: int)
    requires IsReadable(shadow, now) && ClimateExpectedState(shadow, now).Some?
    ensures var mode, fan, argument := RawValue(shadow, ModeField).text, RawValue(shadow, FanField).text, ArgumentToSend(d, shadow, req);
      ClimateTuple(shadow, WithMemory(d, shadow, req), now) ==
        if Fits(mode, fan, req) && argument.Some? then
          Some(Frame(if req.mode.Some? then req.mode.value else mode, if req.fan.Some? then req.fan.value else fan, argument.value))
        else None
  {
  }

  /** What is composed is the reading and the argument to send. */
  lemma WhatIsComposed(d: Device, shadow: Shadow, req: Request, now: int)
    requires Compose(d, shadow, req, now).Some?
    ensures var c, mode, fan := Compose(d, shadow, req, now).value, RawValue(shadow, ModeField), RawValue(shadow, FanField);
      && mode.Text? && fan.Text? && ReportedArgument(shadow).Some? && ArgumentToSend(d, shadow, req).Some?
      && c.expected == Frame(mode.text, fan.text, ReportedArgument(shadow).value)
      && c.frame == Frame(if req.mode.Some? then req.mode.value else mode.text, if req.fan.Some? then req.fan.value else fan.text,
                          ArgumentToSend(d, shadow, req).value)
  {
    assert IsReadable(shadow, now);
    FrameIff(d, shadow, req, now);
  }

  // ---- Exactly when it is settled ---------------------------------------------------------------

  lemma {:induction false} CoveredIsSame(d: Device, shadow: Shadow, req: Request, now: int, fields: set<FieldName>, modes: iset<string>, c: Device, other: Shadow)
    requires ModeField in fields && FanField in fields && Covered(shadow, req, fields, modes)
    requires SameReports(other, shadow, fields) && SameMemory(c, d, modes)
    ensures Compose(c, other, req, now) == Compose(d, shadow, req, now)
  {
    assert SameReport(other, shadow, ModeField) && SameReport(other, shadow, FanField);
    assert SameReport(other, shadow, ArgumentField(RawValue(shadow, ModeField)));
    if Destination(shadow, req).Text? && Destination(shadow, req).text in modes {
      assert Entry(c, Destination(shadow, req).text) == Entry(d, Destination(shadow, req).text);
    }
    assert ArgumentToSend(c, other, req) == ArgumentToSend(d, shadow, req);
    SameInputsSameOffer(d, shadow, req, now, c, other);
  }

  lemma SameInputsSameOffer(d: Device, shadow: Shadow, req: Request, now: int, c: Device, other: Shadow)
    requires SameReport(other, shadow, ModeField) && SameReport(other, shadow, FanField)
    requires SameReport(other, shadow, ArgumentField(RawValue(shadow, ModeField)))
    requires ArgumentToSend(c, other, req) == ArgumentToSend(d, shadow, req)
    ensures Compose(c, other, req, now) == Compose(d, shadow, req, now)
  {
    ComposesIff(d, shadow, req, now);
    ComposesIff(c, other, req, now);
    if Compose(d, shadow, req, now).Some? {
      WhatIsComposed(d, shadow, req, now);
      WhatIsComposed(c, other, req, now);
    }
  }

  lemma SupposedIsReadable(shadow: Shadow, now: int, fields: set<FieldName>, other: Shadow)
    requires ModeField in fields && FanField in fields
    requires SameTimes(other, shadow) && SameReports(other, shadow, fields) && IsReadable(other, now)
    ensures IsReadable(SupposedReading(shadow, fields, 0), now)
  {
    var f := ArgumentField(RawValue(shadow, ModeField));
    assert SameReport(other, shadow, ModeField) && SameReport(other, shadow, FanField);
    assert f in fields ==> SameReport(other, shadow, f);
  }

  lemma SupposedHasArgument(d: Device, shadow: Shadow, req: Request, fields: set<FieldName>, modes: iset<string>, c: Device, other: Shadow)
    requires ModeField in fields && FanField in fields
    requires SameReports(other, shadow, fields) && SameMemory(c, d, modes) && Destination(shadow, req).Text?
    requires ArgumentToSend(c, other, req).Some?
    ensures ArgumentToSend(SupposedMemory(d, Destination(shadow, req), modes, 0), SupposedReading(shadow, fields, 0), req).Some?
  {
    var f := ArgumentField(RawValue(shadow, ModeField));
    assert SameReport(other, shadow, ModeField) && SameReport(other, shadow, FanField);
    assert f in fields ==> SameReport(other, shadow, f);
    var mode := Destination(shadow, req).text;
    assert mode in modes ==> Entry(c, mode) == Entry(d, mode);
  }

  /** Where anything is composed, a supposed argument composes something. */
  lemma SupposedComposes(d: Device, shadow: Shadow, req: Request, now: int, fields: set<FieldName>, modes: iset<string>, c: Device, other: Shadow)
    requires ModeField in fields && FanField in fields
    requires SameTimes(other, shadow) && SameReports(other, shadow, fields) && SameMemory(c, d, modes)
    requires Compose(c, other, req, now).Some?
    ensures Supposing(d, shadow, req, now, fields, modes, 0).Some?
  {
    assert SameReport(other, shadow, ModeField) && SameReport(other, shadow, FanField);
    ComposesIff(c, other, req, now);
    SupposedIsReadable(shadow, now, fields, other);
    SupposedHasArgument(d, shadow, req, fields, modes, c, other);
    ComposesIff(SupposedMemory(d, Destination(shadow, req), modes, 0), SupposedReading(shadow, fields, 0), req, now);
  }

  lemma SupposedDiffer(d: Device, shadow: Shadow, req: Request, now: int, fields: set<FieldName>, modes: iset<string>)
    requires ModeField in fields && FanField in fields && !IsSettled(d, shadow, req, now, fields, modes)
    ensures Supposing(d, shadow, req, now, fields, modes, 0) != Supposing(d, shadow, req, now, fields, modes, 1)
  {
    var mode := Destination(shadow, req);
    WhatIsComposed(SupposedMemory(d, mode, modes, 0), SupposedReading(shadow, fields, 0), req, now);
    if Supposing(d, shadow, req, now, fields, modes, 1).Some? {
      WhatIsComposed(SupposedMemory(d, mode, modes, 1), SupposedReading(shadow, fields, 1), req, now);
    }
  }

  lemma SupposedIsOther(d: Device, shadow: Shadow, req: Request, fields: set<FieldName>, modes: iset<string>, z: int)
    requires ModeField in fields && FanField in fields
    ensures SameTimes(SupposedReading(shadow, fields, z), shadow) && SameReports(SupposedReading(shadow, fields, z), shadow, fields)
    ensures SameMemory(SupposedMemory(d, Destination(shadow, req), modes, z), d, modes)
  {
  }

  /** The exact condition, readable off the request, the reading and the memory before the call. */
  lemma DependsOnlyIff(d: Device, shadow: Shadow, req: Request, now: int, fields: set<FieldName>, modes: iset<string>)
    requires ModeField in fields && FanField in fields
    ensures DependsOnly(d, shadow, req, now, fields, modes) <==> IsSettled(d, shadow, req, now, fields, modes)
  {
    if IsSettled(d, shadow, req, now, fields, modes) {
      forall c, other | SameTimes(other, shadow) && SameReports(other, shadow, fields) && SameMemory(c, d, modes)
        ensures Compose(c, other, req, now) == Compose(d, shadow, req, now)
      {
        SettledIsSame(d, shadow, req, now, fields, modes, c, other);
      }
    } else {
      SupposedDiffer(d, shadow, req, now, fields, modes);
      SupposedIsOther(d, shadow, req, fields, modes, 0);
      SupposedIsOther(d, shadow, req, fields, modes, 1);
    }
  }

  lemma SettledIsSame(d: Device, shadow: Shadow, req: Request, now: int, fields: set<FieldName>, modes: iset<string>, c: Device, other: Shadow)
    requires ModeField in fields && FanField in fields && IsSettled(d, shadow, req, now, fields, modes)
    requires SameTimes(other, shadow) && SameReports(other, shadow, fields) && SameMemory(c, d, modes)
    ensures Compose(c, other, req, now) == Compose(d, shadow, req, now)
  {
    if Covered(shadow, req, fields, modes) {
      CoveredIsSame(d, shadow, req, now, fields, modes, c, other);
    } else {
      if Compose(c, other, req, now).Some? {
        SupposedComposes(d, shadow, req, now, fields, modes, c, other);
      }
      if Compose(d, shadow, req, now).Some? {
        SupposedComposes(d, shadow, req, now, fields, modes, d, shadow);
      }
    }
  }

  /** Two compositions from one mode and fan differ in nothing but the argument. */
  lemma SameModeAndFan(d: Device, shadow: Shadow, req: Request, now: int, fields: set<FieldName>, c: Device, other: Shadow)
    requires ModeField in fields && FanField in fields && SameReports(other, shadow, fields)
    requires Compose(d, shadow, req, now).Some? && Compose(c, other, req, now).Some?
    ensures var x, y := Compose(d, shadow, req, now).value, Compose(c, other, req, now).value;
      && x.frame.mode == y.frame.mode && x.frame.fan == y.frame.fan
      && x.expected.mode == y.expected.mode && x.expected.fan == y.expected.fan
  {
    assert SameReport(other, shadow, ModeField) && SameReport(other, shadow, FanField);
    WhatIsComposed(d, shadow, req, now);
    WhatIsComposed(c, other, req, now);
  }

  // ---- What a command offers and learns ---------------------------------------------------------

  /** The command as composed, before the bridge is asked. */
  function Offered(d: Device, req: Request, s: Setting): Option<Composed> {
    if Stopped(d, s) then None else Compose(d, Effective(d.confirmed, s.shadow, s.now), req, s.now)
  }

  /** What a command remembers of its own reading is never what it sends. */
  lemma RememberingNowChangesNothing(d: Device, shadow: Shadow, req: Request, now: int)
    ensures Compose(Remember(d, shadow, now), shadow, req, now) == Compose(d, shadow, req, now)
  {
  }

  /** The device as a command that is not stopped goes on with it. */
  function Passing(d: Device, s: Setting): Device {
    Remember(d.(barrier := None, confirmed := Pruned(d.confirmed, s.shadow, s.now)), Effective(d.confirmed, s.shadow, s.now), s.now)
  }

  /** What such a command comes to, once it has composed `c`. */
  function Finished(d: Device, c: Option<Composed>, s: Setting): Outcome {
    if c.None? then Fallback(d, s.shadow, s) else Concluded(d, c.value, s)
  }

  /** A command is what it offers, and what that comes to. */
  lemma CommandFollowsItsOffer(d: Device, req: Request, s: Setting)
    requires !Stopped(d, s)
    ensures RunCommand(d, req, s) == Finished(Passing(d, s), Offered(d, req, s), s)
    ensures Passing(d, s).barrier.None? && Passing(d, s).confirmed == Pruned(d.confirmed, s.shadow, s.now)
  {
    RememberingNowChangesNothing(d.(barrier := None, confirmed := Pruned(d.confirmed, s.shadow, s.now)), Effective(d.confirmed, s.shadow, s.now), req, s.now);
  }

  /** A reading whose times allow it to teach the argument of its mode. */
  predicate CanTeach(shadow: Shadow, now: int) {
    var mode := RawValue(shadow, ModeField);
    && Recent(shadow, ModeField, now) && Recent(shadow, FanField, now) && Recent(shadow, ArgumentField(mode), now)
    && RawValue(shadow, FanField) != Text("power") && mode.Text?
  }

  /** The modes whose remembered argument is known, once the reading was seen. */
  function TaughtModes(modes: iset<string>, shadow: Shadow, fields: set<FieldName>, now: int): iset<string> {
    var mode := RawValue(shadow, ModeField);
    var f := ArgumentField(mode);
    if !CanTeach(shadow, now) then modes
    else if f !in fields then modes - iset{mode.text}
    else if ReadArgument(mode, RawValue(shadow, f)).Some? then modes + iset{mode.text}
    else modes
  }

  /** And once the command came to this. */
  function ConfirmedModes(modes: iset<string>, c: Option<Composed>, s: Setting): iset<string> {
    if c.Some? && s.disposition == Accepted(true) && c.value.frame.fan != "power" then modes + iset{c.value.frame.mode} else modes
  }

  function NumberIn(argument: Argument): int {
    match argument
    case Comfort(step) => step
    case Target(halves) => halves
  }

  /** What is remembered for a mode after a reading. */
  lemma RememberedEntry(d: Device, shadow: Shadow, now: int, mode: string)
    ensures var argument := ReadArgument(RawValue(shadow, ModeField), RawValue(shadow, ArgumentField(RawValue(shadow, ModeField))));
      Entry(Remember(d, shadow, now), mode) ==
        if CanTeach(shadow, now) && RawValue(shadow, ModeField) == Text(mode) && argument.Some? then Some(NumberIn(argument.value)) else Entry(d, mode)
  {
  }

  lemma RememberSame(c: Device, d: Device, a: Shadow, b: Shadow, now: int, fields: set<FieldName>, modes: iset<string>)
    requires ModeField in fields && FanField in fields && SameReports(a, b, fields) && SameMemory(c, d, modes)
    requires ArgumentField(RawValue(a, ModeField)) in fields || SameTimes(a, b)
    ensures SameMemory(Remember(c, a, now), Remember(d, b, now), TaughtModes(modes, a, fields, now))
  {
    var f := ArgumentField(RawValue(a, ModeField));
    assert SameReport(a, b, ModeField) && SameReport(a, b, FanField);
    assert f in fields ==> SameReport(a, b, f);
    assert ObservedAt(a, f) == ObservedAt(b, f);
    forall mode | mode in TaughtModes(modes, a, fields, now) ensures Entry(Remember(c, a, now), mode) == Entry(Remember(d, b, now), mode) {
      RememberedEntry(c, a, now, mode);
      RememberedEntry(d, b, now, mode);
      if mode in modes {
        assert Entry(c, mode) == Entry(d, mode);
      }
    }
  }

  /** What a command comes to changes the memory by the confirmed argument at most. */
  lemma FinishedEntry(d: Device, c: Option<Composed>, s: Setting, mode: string)
    requires c.Some? ==> HasItsArgument(c.value.frame)
    ensures var later := Finished(d, c, s).device;
      Entry(later, mode) ==
        if c.Some? && s.disposition == Accepted(true) && c.value.frame.fan != "power" && c.value.frame.mode == mode then
          Some(NumberIn(c.value.frame.argument))
        else Entry(d, mode)
  {
    if c.Some? && s.disposition == Accepted(true) {
      LearnedEntry(d, c.value.frame, mode);
    }
  }

  lemma LearnedEntry(d: Device, frame: Frame, mode: string)
    requires HasItsArgument(frame)
    ensures Entry(Learned(d, ConfirmedFields(frame)), mode) ==
      if frame.fan != "power" && frame.mode == mode then Some(NumberIn(frame.argument))
      else Entry(d, mode)
  {
  }

  lemma FinishedMemory(c: Device, d: Device, x: Option<Composed>, s: Setting, t: Setting, modes: iset<string>)
    requires SameMemory(c, d, modes) && SameSurroundings(s, t)
    requires x.Some? ==> HasItsArgument(x.value.frame)
    ensures SameMemory(Finished(c, x, s).device, Finished(d, x, t).device, ConfirmedModes(modes, x, s))
  {
    forall mode | mode in ConfirmedModes(modes, x, s) ensures Entry(Finished(c, x, s).device, mode) == Entry(Finished(d, x, t).device, mode) {
      FinishedEntry(c, x, s, mode);
      FinishedEntry(d, x, t, mode);
    }
  }

  predicate HasItsArgument(f: Frame) {
    f.mode == "auto" <==> f.argument.Comfort?
  }

  lemma OfferedHasItsArgument(d: Device, req: Request, s: Setting)
    ensures Offered(d, req, s).Some? ==> HasItsArgument(Offered(d, req, s).value.frame)
  {
    if Offered(d, req, s).Some? {
      var shadow := Effective(d.confirmed, s.shadow, s.now);
      FrameIsSafe(shadow, WithMemory(d, shadow, req), s.now);
    }
  }

  /** The same command on other reports. */
  predicate SameSurroundings(s: Setting, t: Setting) {
    t == s.(shadow := t.shadow, shadowAfter := t.shadowAfter)
  }
}
