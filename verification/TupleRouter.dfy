/** The local climate command protocol of one router (local_control_router.py).

    Between what an appliance reports and the frames it is sent stand three memories: the overlay of
    the last confirmed command, the fence that a cloud write puts up, and the remembered argument of
    each mode.  Their logic is given per device as functions on `Device`; the class keeps them in
    dictionaries keyed by device, as the source does, and each method is shown to be that function. */
module TupleRouter {
  import opened Wrappers
  import opened DecimalText
  import opened ClimateFrame

  type DeviceId = string

  /** An acknowledged command, newer than what the appliance has reported of these fields. */
  datatype Confirmed = Confirmed(fields: map<FieldName, Value>, at: int)

  /** For every field, the latest observation known when the cloud was last written. */
  type Barrier = map<FieldName, Option<int>>

  datatype Device = Device(confirmed: Option<Confirmed>, barrier: Option<Barrier>, targets: map<string, int>, comfort: Option<int>)

  const ALL_FIELDS := {ModeField, FanField, TargetField, ComfortField}

  // ---- The confirmed overlay --------------------------------------------------------------------

  function Overtaken(shadow: Shadow, f: FieldName, at: int): bool {
    ObservedAt(shadow, f).Some? && ObservedAt(shadow, f).value >= at
  }

  /** The confirmed fields no report has overtaken. */
  function Remaining(c: Confirmed, shadow: Shadow): map<FieldName, Value> {
    map f | f in c.fields && !Overtaken(shadow, f, c.at) :: c.fields[f]
  }

  function Overlay(fields: map<FieldName, Value>, at: int): Shadow {
    map f | f in fields :: Field(fields[f], Some(at))
  }

  function Expired(c: Confirmed, now: int): bool {
    now < c.at || now - c.at > MAX_SHADOW_AGE
  }

  /** What is left of the overlay after looking at it. */
  function Pruned(confirmed: Option<Confirmed>, shadow: Shadow, now: int): Option<Confirmed> {
    if confirmed.None? || Expired(confirmed.value, now) || Remaining(confirmed.value, shadow) == map[] then None
    else Some(Confirmed(Remaining(confirmed.value, shadow), confirmed.value.at))
  }

  function Effective(confirmed: Option<Confirmed>, shadow: Shadow, now: int): Shadow {
    var left := Pruned(confirmed, shadow, now);
    if left.None? then shadow else shadow + Overlay(left.value.fields, left.value.at)
  }

  // ---- The cloud fence --------------------------------------------------------------------------

  function Later(a: Option<int>, b: Option<int>): Option<int> {
    if a.None? then b else if b.None? || b.value <= a.value then a else b
  }

  /** The latest observation of a field that anything on this side knows of. */
  function Known(d: Device, shadow: Shadow, f: FieldName): Option<int> {
    Later(ObservedAt(shadow, f),
          Later(if d.confirmed.Some? && f in d.confirmed.value.fields then Some(d.confirmed.value.at) else None,
                if d.barrier.Some? && f in d.barrier.value then d.barrier.value[f] else None))
  }

  function Marked(d: Device, shadow: Shadow): Device {
    d.(barrier := Some(map f | f in ALL_FIELDS :: Known(d, shadow, f)), confirmed := None)
  }

  predicate Beyond(shadow: Shadow, f: FieldName, baseline: Option<int>) {
    ObservedAt(shadow, f).Some? && (baseline.Some? ==> ObservedAt(shadow, f).value > baseline.value)
  }

  predicate Blocks(barrier: Barrier, shadow: Shadow) {
    exists f :: f in ALL_FIELDS && InVariant(RawValue(shadow, ModeField), f) &&
                !Beyond(shadow, f, if f in barrier then barrier[f] else None)
  }

  // ---- Remembered arguments ---------------------------------------------------------------------

  predicate Recent(shadow: Shadow, f: FieldName, now: int) {
    ObservedAt(shadow, f).Some? && 0 <= now - ObservedAt(shadow, f).value <= MAX_SHADOW_AGE
  }

  function Remember(d: Device, shadow: Shadow, now: int): Device {
    var mode, fan := RawValue(shadow, ModeField), RawValue(shadow, FanField);
    var argument := RawValue(shadow, ArgumentField(mode));
    if !Recent(shadow, ModeField, now) || !Recent(shadow, FanField, now) || !Recent(shadow, ArgumentField(mode), now) then d
    else if fan == Text("power") then d
    else if mode == Text("auto") then
      if argument.Int? && -2 <= argument.n <= 2 then d.(comfort := Some(argument.n)) else d
    else if mode.Text? && HalvesOf(argument).Some? then
      d.(targets := d.targets[mode.text := HalvesOf(argument).value])
    else d
  }

  // ---- One command ------------------------------------------------------------------------------

  /** How the bridge client disposed of a composed frame.  The first two never reach it. */
  datatype Disposition = Unauthorized | ConditionUnmet | Refused | Accepted(confirmed: bool) | Pending | Failed

  predicate HandedOver(s: Disposition) {
    s.Refused? || s.Accepted? || s.Pending? || s.Failed?
  }

  /** What surrounds one command: availability, the reports known before and after the exchange with
      the bridge, the clock at both moments, and the exchange's outcome. */
  datatype Setting = Setting(
    enabled: bool, available: bool, fieldsReady: bool,
    shadow: Shadow, now: int, disposition: Disposition, shadowAfter: Shadow, after: int,
    cloudFallback: bool)

  datatype Answer = NotServed | Served(confirmed: bool) | Raised

  datatype Outcome = Outcome(device: Device, answer: Answer, sent: Option<Composed>)

  datatype Composed = Composed(expected: Frame, frame: Frame)

  /** The request with gaps that may be filled from memory: the destination mode's target, and for
      AUTO the comfort step. */
  function WithMemory(d: Device, shadow: Shadow, req: Request): Request {
    var destination := if req.mode.Some? then Text(req.mode.value) else RawValue(shadow, ModeField);
    var target := if destination.Text? && destination.text in d.targets then Some(d.targets[destination.text]) else None;
    var comfort := if destination == Text("auto") then d.comfort else None;
    req.(retainedTarget := if req.retainedTarget.Some? then req.retainedTarget else target,
         retainedComfort := if req.retainedComfort.Some? then req.retainedComfort else comfort)
  }

  function Compose(d: Device, shadow: Shadow, req: Request, now: int): Option<Composed> {
    var expected := ClimateExpectedState(shadow, now);
    if expected.None? then None
    else
      var frame := ClimateTuple(shadow, WithMemory(d, shadow, req), now);
      if frame.None? then None else Some(Composed(expected.value, frame.value))
  }

  /** A confirmed command becomes the overlay and teaches the mode's argument. */
  function Confirm(d: Device, frame: Frame, at: int): Device {
    Learned(d, ConfirmedFields(frame)).(confirmed := Some(Confirmed(ConfirmedFields(frame), at)))
  }

  /** The argument memory after a confirmation of these fields. */
  function Learned(d: Device, fields: map<FieldName, Value>): Device
    requires ModeField in fields && FanField in fields && fields[ModeField].Text?
  {
    if fields[FanField] == Text("power") then d
    else if fields[ModeField] == Text("auto") && ComfortField in fields && fields[ComfortField].Int? then
      d.(comfort := Some(fields[ComfortField].n))
    else if TargetField in fields && HalvesOf(fields[TargetField]).Some? then
      d.(targets := d.targets[fields[ModeField].text := HalvesOf(fields[TargetField]).value])
    else d
  }

  function Fallback(d: Device, shadow: Shadow, s: Setting): Outcome {
    Outcome(if s.cloudFallback then Marked(d, shadow) else d, NotServed, None)
  }

  /** What the exchange with the bridge leaves behind. */
  function Concluded(d: Device, c: Composed, s: Setting): Outcome {
    var sent := if HandedOver(s.disposition) then Some(c) else None;
    match s.disposition
    case Unauthorized => Fallback(d, s.shadowAfter, s).(sent := sent)
    case Refused => Fallback(d, s.shadowAfter, s).(sent := sent)
    case Accepted(confirmed) => Outcome(if confirmed then Confirm(d, c.frame, s.after) else d, Served(confirmed), sent)
    case _ => Outcome(d, Raised, sent)
  }

  /** A command that passed the fence, given the shadow it is to work from. */
  function Attempted(d: Device, shadow: Shadow, req: Request, s: Setting): Outcome {
    var d' := Remember(d, shadow, s.now);
    var c := Compose(d', shadow, req, s.now);
    if c.None? then Fallback(d', s.shadow, s) else Concluded(d', c.value, s)
  }

  predicate Stopped(d: Device, s: Setting) {
    || !s.enabled || !s.available || !s.fieldsReady
    || (d.barrier.Some? && Blocks(d.barrier.value, s.shadow))
  }

  function StoppedOutcome(d: Device, s: Setting): Outcome {
    if !s.enabled then Outcome(d, Raised, None)
    else if !s.available || !s.fieldsReady then Fallback(d, s.shadow, s)
    else Outcome(d, NotServed, None)
  }

  function RunCommand(d: Device, req: Request, s: Setting): Outcome {
    if Stopped(d, s) then StoppedOutcome(d, s)
    else Attempted(d.(barrier := None, confirmed := Pruned(d.confirmed, s.shadow, s.now)),
                   Effective(d.confirmed, s.shadow, s.now), req, s)
  }

  predicate Separable(v: Value) {
    v.Text? ==> NoBar(v.text)
  }

  /** Modes and fans are names without the separator. */
  predicate SeparableNames(d: Device, req: Request, s: Setting) {
    && (req.mode.Some? ==> NoBar(req.mode.value)) && (req.fan.Some? ==> NoBar(req.fan.value))
    && Separable(RawValue(s.shadow, ModeField)) && Separable(RawValue(s.shadow, FanField))
    && (d.confirmed.Some? ==> SeparableOverlay(d.confirmed.value))
  }

  predicate SeparableOverlay(c: Confirmed) {
    && (ModeField in c.fields ==> Separable(c.fields[ModeField]))
    && (FanField in c.fields ==> Separable(c.fields[FanField]))
  }

  lemma ComposedIsWritable(d: Device, req: Request, s: Setting)
    requires SeparableNames(d, req, s)
    ensures var effective := Effective(d.confirmed, s.shadow, s.now);
            forall m :: Compose(m, effective, req, s.now).Some? ==> Writable(Compose(m, effective, req, s.now).value.frame)
  {
    var effective := Effective(d.confirmed, s.shadow, s.now);
    assert Separable(RawValue(effective, ModeField)) && Separable(RawValue(effective, FanField));
    forall m | Compose(m, effective, req, s.now).Some?
      ensures Writable(Compose(m, effective, req, s.now).value.frame)
    {
      FrameIsSafe(effective, WithMemory(m, effective, req), s.now);
    }
  }

  // ---- The router -------------------------------------------------------------------------------

  class LocalControlRouter {
    var confirmedTuples: map<DeviceId, Confirmed>
    var cloudTupleBarriers: map<DeviceId, Barrier>
    var lastTemperatureTargetsByMode: map<DeviceId, map<string, int>>
    var lastComfortPreferences: map<DeviceId, int>

    constructor ()
      ensures forall id :: State(id) == Device(None, None, map[], None)
    {
      confirmedTuples, cloudTupleBarriers, lastTemperatureTargetsByMode, lastComfortPreferences := map[], map[], map[], map[];
    }

    function State(id: DeviceId): Device
      reads this
    {
      Device(
        if id in confirmedTuples then Some(confirmedTuples[id]) else None,
        if id in cloudTupleBarriers then Some(cloudTupleBarriers[id]) else None,
        if id in lastTemperatureTargetsByMode then lastTemperatureTargetsByMode[id] else map[],
        if id in lastComfortPreferences then Some(lastComfortPreferences[id]) else None)
    }

    method MarkCloudTupleDispatch(id: DeviceId, shadow: Shadow)
      modifies this`confirmedTuples, this`cloudTupleBarriers
      ensures State(id) == Marked(old(State(id)), shadow)
      ensures forall other :: other != id ==> State(other) == old(State(other))
    {
      var d := State(id);
      cloudTupleBarriers := cloudTupleBarriers[id := map f | f in ALL_FIELDS :: Known(d, shadow, f)];
      confirmedTuples := confirmedTuples - {id};
    }

    method CloudTupleBarrierBlocks(id: DeviceId, shadow: Shadow) returns (blocks: bool)
      modifies this`cloudTupleBarriers
      ensures blocks == (old(State(id)).barrier.Some? && Blocks(old(State(id)).barrier.value, shadow))
      ensures State(id) == if blocks then old(State(id)) else old(State(id)).(barrier := None)
      ensures forall other :: other != id ==> State(other) == old(State(other))
    {
      if id !in cloudTupleBarriers {
        return false;
      }
      if Blocks(cloudTupleBarriers[id], shadow) {
        return true;
      }
      cloudTupleBarriers := cloudTupleBarriers - {id};
      return false;
    }

    method ShadowWithConfirmation(id: DeviceId, shadow: Shadow, now: int) returns (effective: Shadow)
      modifies this`confirmedTuples
      ensures effective == Effective(old(State(id)).confirmed, shadow, now)
      ensures State(id) == old(State(id)).(confirmed := Pruned(old(State(id)).confirmed, shadow, now))
      ensures forall other :: other != id ==> State(other) == old(State(other))
    {
      if id !in confirmedTuples {
        return shadow;
      }
      var c := confirmedTuples[id];
      if now < c.at || now - c.at > MAX_SHADOW_AGE {
        confirmedTuples := confirmedTuples - {id};
        return shadow;
      }
      var remaining;
      effective, remaining := LayOver(c, shadow);
      if remaining == map[] {
        confirmedTuples := confirmedTuples - {id};
        return shadow;
      }
      KeepRemaining(id, c, remaining);
    }

    method KeepRemaining(id: DeviceId, c: Confirmed, remaining: map<FieldName, Value>)
      requires id in confirmedTuples && confirmedTuples[id] == c
      requires remaining.Keys <= c.fields.Keys && forall f :: f in remaining ==> remaining[f] == c.fields[f]
      modifies this`confirmedTuples
      ensures State(id) == old(State(id)).(confirmed := Some(Confirmed(remaining, c.at)))
      ensures forall other :: other != id ==> State(other) == old(State(other))
    {
      if |remaining| != |c.fields| {
        confirmedTuples := confirmedTuples[id := Confirmed(remaining, c.at)];
      } else {
        SameSizeSubmap(remaining, c.fields);
      }
    }

    /** Lay the confirmed fields over the shadow, except those a report has overtaken. */
    method LayOver(c: Confirmed, shadow: Shadow) returns (effective: Shadow, remaining: map<FieldName, Value>)
      ensures remaining == Remaining(c, shadow)
      ensures effective == shadow + Overlay(remaining, c.at)
    {
      effective, remaining := shadow, map[];
      var todo := c.fields.Keys;
      while todo != {}
        invariant todo <= c.fields.Keys
        invariant remaining == map f | f in c.fields && f !in todo && !Overtaken(shadow, f, c.at) :: c.fields[f]
        invariant effective.Keys == shadow.Keys + remaining.Keys
        invariant forall f :: f in remaining ==> effective[f] == Field(remaining[f], Some(c.at))
        invariant forall f :: f in shadow && f !in remaining ==> effective[f] == shadow[f]
        decreases todo
      {
        var f :| f in todo;
        todo := todo - {f};
        if !Overtaken(shadow, f, c.at) {
          remaining := remaining[f := c.fields[f]];
          effective := effective[f := Field(c.fields[f], Some(c.at))];
        }
      }
    }

    method RememberModeArgument(id: DeviceId, shadow: Shadow, now: int)
      modifies this`lastTemperatureTargetsByMode, this`lastComfortPreferences
      ensures State(id) == Remember(old(State(id)), shadow, now)
      ensures forall other :: other != id ==> State(other) == old(State(other))
    {
      var mode, fan := RawValue(shadow, ModeField), RawValue(shadow, FanField);
      var argument := RawValue(shadow, ArgumentField(mode));
      if !Recent(shadow, ModeField, now) || !Recent(shadow, FanField, now) || !Recent(shadow, ArgumentField(mode), now) {
        return;
      }
      if fan == Text("power") {
        return;
      }
      if mode == Text("auto") {
        if argument.Int? && -2 <= argument.n <= 2 {
          lastComfortPreferences := lastComfortPreferences[id := argument.n];
        }
        return;
      }
      if !mode.Text? || HalvesOf(argument).None? {
        return;
      }
      LearnTarget(id, mode.text, HalvesOf(argument).value);
    }

    method LearnTarget(id: DeviceId, mode: string, halves: int)
      modifies this`lastTemperatureTargetsByMode
      ensures State(id) == old(State(id)).(targets := old(State(id)).targets[mode := halves])
      ensures forall other :: other != id ==> State(other) == old(State(other))
    {
      var targets := if id in lastTemperatureTargetsByMode then lastTemperatureTargetsByMode[id] else map[];
      lastTemperatureTargetsByMode := lastTemperatureTargetsByMode[id := targets[mode := halves]];
    }

    /** Take over what the appliance confirmed, read back from the command string that was sent. */
    method TakeOver(id: DeviceId, frame: Frame, at: int)
      requires Writable(frame)
      modifies this
      ensures State(id) == Confirm(old(State(id)), frame, at)
      ensures forall other :: other != id ==> State(other) == old(State(other))
    {
      ConfirmationInvertsRendering(frame);
      var fields := ReadConfirmed(FrameText(frame)).value;
      LearnArgument(id, fields);
      confirmedTuples := confirmedTuples[id := Confirmed(fields, at)];
    }

    method LearnArgument(id: DeviceId, fields: map<FieldName, Value>)
      requires ModeField in fields && FanField in fields && fields[ModeField].Text?
      modifies this`lastTemperatureTargetsByMode, this`lastComfortPreferences
      ensures State(id) == Learned(old(State(id)), fields)
      ensures forall other :: other != id ==> State(other) == old(State(other))
    {
      if fields[FanField] != Text("power") {
        if fields[ModeField] == Text("auto") && ComfortField in fields && fields[ComfortField].Int? {
          lastComfortPreferences := lastComfortPreferences[id := fields[ComfortField].n];
        } else if TargetField in fields && HalvesOf(fields[TargetField]).Some? {
          LearnTarget(id, fields[ModeField].text, HalvesOf(fields[TargetField]).value);
        }
      }
    }

    /** One tuple command from lock to unlock. */
    method Tuple(id: DeviceId, req: Request, s: Setting) returns (answer: Answer, sent: Option<Composed>)
      requires SeparableNames(State(id), req, s)
      modifies this
      ensures Outcome(State(id), answer, sent) == RunCommand(old(State(id)), req, s)
      ensures forall other :: other != id ==> State(other) == old(State(other))
    {
      if !s.enabled {
        return Raised, None;
      }
      if !s.available || !s.fieldsReady {
        if s.cloudFallback {
          MarkCloudTupleDispatch(id, s.shadow);
        }
        return NotServed, None;
      }
      var blocks := CloudTupleBarrierBlocks(id, s.shadow);
      if blocks {
        return NotServed, None;
      }
      ComposedIsWritable(old(State(id)), req, s);
      var shadow := ShadowWithConfirmation(id, s.shadow, s.now);
      RememberModeArgument(id, shadow, s.now);
      var composed := Compose(State(id), shadow, req, s.now);
      if composed.None? {
        if s.cloudFallback {
          MarkCloudTupleDispatch(id, s.shadow);
        }
        return NotServed, None;
      }
      answer, sent := Exchange(id, composed.value, s);
    }

    method Exchange(id: DeviceId, composed: Composed, s: Setting) returns (answer: Answer, sent: Option<Composed>)
      requires Writable(composed.frame)
      modifies this
      ensures Outcome(State(id), answer, sent) == Concluded(old(State(id)), composed, s)
      ensures forall other :: other != id ==> State(other) == old(State(other))
    {
      sent := if HandedOver(s.disposition) then Some(composed) else None;
      match s.disposition {
        case Unauthorized | Refused =>
          answer := NotServed;
          if s.cloudFallback {
            MarkCloudTupleDispatch(id, s.shadowAfter);
          }
        case Accepted(confirmed) =>
          answer := Served(confirmed);
          if confirmed {
            TakeOver(id, composed.frame, s.after);
          }
        case ConditionUnmet | Pending | Failed =>
          answer := Raised;
      }
    }
  }

  lemma SameSizeSubmap(a: map<FieldName, Value>, b: map<FieldName, Value>)
    requires forall f :: f in a ==> f in b && a[f] == b[f]
    requires |a| == |b|
    ensures a == b
  {
    assert a.Keys <= b.Keys;
    SameSizeSubset(a.Keys, b.Keys);
  }

  lemma SameSizeSubset(a: set<FieldName>, b: set<FieldName>)
    requires a <= b && |a| == |b|
    ensures a == b
  {
    if b - a != {} {
      var x :| x in b - a;
      SubsetSize(a, b - {x});
    }
  }

  lemma {:induction false} SubsetSize(a: set<FieldName>, b: set<FieldName>)
    requires a <= b
    ensures |a| <= |b|
  {
    if x :| x in a {
      SubsetSize(a - {x}, b - {x});
    }
  }
}
