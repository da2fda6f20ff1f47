/** That what a climate entity sends is what it was asked for (climate.py).

    CommandPath counts what a request does to the outside; here is what it says: the frame handed to the
    bridge, the payload written to the cloud, the state shown, and what each answer of the bridge comes
    to. */
module CommandFrames {
  import opened Wrappers
  import opened ClimateFrame
  import opened TupleRouter
  import opened TupleFence
  import opened TupleOneCommand
  import opened TupleFallback
  import opened CommandPath

  // ---- The request ------------------------------------------------------------------------------

  /** A request for the tuple commands: to power on, or to set mode, fan or target and neither power nor a
      flag. */
  predicate IsTupleRequest(w: Write) {
    match w.power
    case Some(on) => on
    case None => w.flag.None? && !(w.mode.None? && w.fan.None? && w.target.None?)
  }

  /** What the tuple command is asked for; powering on leaves fan and target alone. */
  function AskedFor(w: Write): Request {
    var on := w.power == Some(true);
    Request(w.mode, if on then None else w.fan, if on then None else w.target, None, None, None)
  }

  // ---- The frame --------------------------------------------------------------------------------

  /** The frame has what the write names; fan and target are left alone when it powers on.  What it does
      not name is as expected, the argument only within one variant and without power fan. */
  predicate SaysWrite(w: Write, c: Composed) {
    var e, f, on := c.expected, c.frame, w.power == Some(true);
    && f.mode == (if w.mode.Some? then w.mode.value else e.mode)
    && f.fan == (if w.fan.Some? && !on then w.fan.value else e.fan)
    && (w.target.Some? && !on ==> f.argument == Target(w.target.value))
    && ((w.target.None? || on) && (f.mode == "auto" <==> e.mode == "auto") && e.fan != "power" ==> f.argument == e.argument)
  }

  lemma OfferSaysWrite(d: Device, w: Write, s: Setting)
    requires IsTupleRequest(w) && Offered(d, TupleRequest(w), s).Some?
    ensures SaysWrite(w, Offered(d, TupleRequest(w), s).value)
  {
    var req, shadow := TupleRequest(w), Effective(d.confirmed, s.shadow, s.now);
    WhatIsComposed(d, shadow, req, s.now);
    NoLostUpdate(shadow, WithMemory(d, shadow, req), s.now);
  }

  /** What one request may do: ask the bridge for the write itself, write its payload to the cloud, and
      show its payload. */
  predicate IsOfWrite(e: Effect, w: Write) {
    match e
    case BridgeExchange(sent, _) => if IsTupleRequest(w) then sent.Some? && SaysWrite(w, sent.value) else sent.None?
    case CloudWrite(payload, _, _) => payload == w.payload
    case StateShown(payload) => payload == w.payload
  }

  lemma LocalEffectsAreOfWrite(d: Option<Device>, w: Write, c: Circumstances)
    ensures forall i :: 0 <= i < |LocalDid(d, w, c).effects| ==> IsOfWrite(LocalDid(d, w, c).effects[i], w)
    ensures |LocalDid(d, w, c).effects| <= 1 && forall i :: 0 <= i < |LocalDid(d, w, c).effects| ==> LocalDid(d, w, c).effects[i].BridgeExchange?
  {
    if d.Some? && IsTupleRequest(w) {
      AnswerIsTheBridges(d.value, TupleRequest(w), SettingOf(c));
      if Offered(d.value, TupleRequest(w), SettingOf(c)).Some? {
        OfferSaysWrite(d.value, w, SettingOf(c));
      }
    }
  }

  /** Everything a request does to the outside is about that request. */
  lemma EffectsAreOfWrite(d: Option<Device>, owned: bool, w: Write, c: Circumstances)
    ensures forall i :: 0 <= i < |ControlDid(d, owned, w, c).effects| ==> IsOfWrite(ControlDid(d, owned, w, c).effects[i], w)
  {
    LocalEffectsAreOfWrite(d, w, c);
  }

  // ---- The answer -------------------------------------------------------------------------------

  /** What an answer of the bridge comes to, once it was asked: a confirmation, an acceptance that
      nothing can confirm, something that may be on the wire, a failure, or a refusal. */
  function Meaning(http: Http): LocalOutcome {
    match http
    case NotConnected => NotServedLocally
    case TransportFailed => PendingRaised
    case Responded(status, verdict, _) =>
      if 400 <= status < 500 || status == 503 then NotServedLocally
      else if status >= 500 || verdict == "unreported" then PendingRaised
      else if verdict in {"confirmed", "already"} then ServedLocally(true)
      else if verdict == "unverifiable" then ServedLocally(false)
      else ErrorRaised
  }

  /** The bridge is asked at most once, and then its answer decides; otherwise the request is left
      unserved, or refused by an option or a condition. */
  lemma AnswerDecides(d: Option<Device>, w: Write, c: Circumstances)
    ensures var local := LocalDid(d, w, c);
      && (local.effects != [] ==> local.result == Meaning(c.exchange.http) && c.setting.enabled && c.authorized && c.conditionMet)
      && (local.effects == [] ==> local.result == NotServedLocally || (local.result == ErrorRaised && (!c.setting.enabled || !c.conditionMet)))
  {
    if d.Some? && IsTupleRequest(w) {
      AnswerIsTheBridges(d.value, TupleRequest(w), SettingOf(c));
    }
  }

  /** A power-off or a flag reaches the bridge whenever nothing stands in its way; so does a tuple
      command for which a frame is composed. */
  lemma AskedIff(d: Option<Device>, w: Write, c: Circumstances)
    ensures LocalDid(d, w, c).effects != [] <==>
      && d.Some? && c.authorized && c.conditionMet
      && if IsTupleRequest(w) then Offered(d.value, AskedFor(w), c.setting).Some?
         else (w.power.Some? || w.flag.Some?) && c.setting.enabled && c.setting.available
  {
    if d.Some? && IsTupleRequest(w) {
      AnswerIsTheBridges(d.value, TupleRequest(w), SettingOf(c));
    }
  }

  /** A tuple request that is left unserved leaves the device fenced, whether or not the entity then turns
      to the cloud: by the fence that stopped it, or at everything reported. */
  lemma UnservedIsFenced(d: Device, w: Write, c: Circumstances, f: FieldName)
    requires IsTupleRequest(w) && LocalDid(Some(d), w, c).result.NotServedLocally?
    ensures var later := LocalDid(Some(d), w, c).device;
      && later.Some? && later.value.barrier.Some?
      && (!StoppedByFence(d, c.setting) ==>
            && later.value.confirmed.None?
            && NotBefore(Baseline(later.value.barrier.value, f), ObservedAt(ReportsAtTheEnd(d, AskedFor(w), c.setting), f)))
  {
    if !StoppedByFence(d, c.setting) {
      LeftToTheCloudIsFenced(d, TupleRequest(w), SettingOf(c), f);
    }
  }

  /** If the appliance's reading is shown for a tuple request, a frame that says the request was handed
      over and the bridge confirmed it. */
  lemma ConfirmedSaysTheRequest(d: Option<Device>, owned: bool, w: Write, c: Circumstances)
    requires IsTupleRequest(w) && ControlDid(d, owned, w, c).result == Reflected(true)
    ensures var effects := ControlDid(d, owned, w, c).effects;
      && |effects| == 2 && effects[0].BridgeExchange? && effects[1] == StateShown(w.payload)
      && effects[0].tuple.Some? && SaysWrite(w, effects[0].tuple.value)
    ensures c.exchange.http.Responded? && c.exchange.http.status < 400 && c.exchange.http.verdict in {"confirmed", "already"}
  {
    LocalEffectsAreOfWrite(d, w, c);
    AnswerDecides(d, w, c);
  }

  // ---- The cloud --------------------------------------------------------------------------------

  /** A cloud payload that sets mode, fan or temperature, or that powers the unit on. */
  predicate SetsTheTuple(p: Payload) {
    "airConJobMode" in p.keys || "airFlow" in p.keys || "temperature" in p.keys || p.powersOn
  }

  lemma RestatesIff(w: Write)
    ensures RestatesTuple(w) <==> (w.power == Some(true) || SetsTheTuple(w.payload)) && w.flag.None? && w.power != Some(false)
  {
    var tuple := w.payload.keys * {"airConJobMode", "airFlow", "temperature"};
    if key :| key in tuple {
      assert key == "airConJobMode" || key == "airFlow" || key == "temperature";
    }
    assert "airConJobMode" in w.payload.keys ==> "airConJobMode" in tuple;
    assert "airFlow" in w.payload.keys ==> "airFlow" in tuple;
    assert "temperature" in w.payload.keys ==> "temperature" in tuple;
  }

  /** If a request is left to the cloud, its payload is written once, and shown if the cloud takes it;
      under local ownership nothing is written. */
  lemma LeftToTheCloud(d: Option<Device>, owned: bool, w: Write, c: Circumstances)
    requires LocalDid(d, w, c).result.NotServedLocally?
    ensures var local, did := LocalDid(d, w, c), ControlDid(d, owned, w, c);
      if owned then did.result == Error && did.effects == local.effects && did.device == local.device
      else
        var n := |local.effects|;
        && |did.effects| == n + (if c.cloudAccepts then 2 else 1)
        && did.effects[..n] == local.effects && did.effects[n].CloudWrite? && did.effects[n].payload == w.payload
        && (c.cloudAccepts ==> did.effects[n + 1] == StateShown(w.payload))
        && did.result == (if c.cloudAccepts then Reflected(false) else Error)
  {
  }

  /** If the payload sets the tuple, and the request is neither a flag nor a power-off, the device is
      fenced by then at everything reported; otherwise the router is as the local attempt left it. */
  lemma CloudWriteFences(d: Device, w: Write, c: Circumstances, f: FieldName)
    requires LocalDid(Some(d), w, c).result.NotServedLocally?
    ensures var later := ControlDid(Some(d), false, w, c).device;
      if (w.power == Some(true) || SetsTheTuple(w.payload)) && w.flag.None? && w.power != Some(false) then
        && later.Some? && later.value.barrier.Some? && later.value.confirmed.None?
        && NotBefore(Baseline(later.value.barrier.value, f), ObservedAt(c.shadowBeforeCloud, f))
      else later == LocalDid(Some(d), w, c).device
  {
    RestatesIff(w);
    RouterStays(Some(d), w, c);
    FenceCoversEverythingKnown(LocalDid(Some(d), w, c).device.value, c.shadowBeforeCloud, f);
  }

  /** What the bridge answered and nothing confirmed is not shown; nor is it tried again. */
  lemma UnconfirmedIsNotShown(d: Option<Device>, owned: bool, w: Write, c: Circumstances)
    requires !LocalDid(d, w, c).result.NotServedLocally? && LocalDid(d, w, c).result != ServedLocally(true)
    ensures var local, did := LocalDid(d, w, c), ControlDid(d, owned, w, c);
      && did.effects == local.effects && did.device == local.device
      && did.result == (if local.result.ErrorRaised? then Error else Withheld)
  {
  }

  // ---- Choosing a mode --------------------------------------------------------------------------

  /** What choosing a mode may do: hand over a frame in that mode; turn off if that was chosen; power on,
      and set the mode if it has a cloud spelling. */
  predicate IsOfChoice(e: Effect, m: ModeChoice) {
    match e
    case BridgeExchange(sent, _) => if m.off then sent.None? else sent.Some? && (m.localMode.Some? ==> sent.value.frame.mode == m.localMode.value)
    case CloudWrite(payload, _, _) =>
      if m.off then payload == Payload({}, false)
      else (m.power == Some(false) && payload == Payload({}, true)) || (m.hasJob && payload == Payload({"airConJobMode"}, false))
    case StateShown(payload) =>
      if m.off then payload == Payload({}, false)
      else if m.power == Some(false) then payload.powersOn || (m.hasJob && payload == Payload({"airConJobMode"}, false))
      else m.hasJob && payload == Payload({"airConJobMode"}, false)
  }

  ghost predicate AreOfChoice(effects: seq<Effect>, m: ModeChoice) {
    forall i :: 0 <= i < |effects| ==> IsOfChoice(effects[i], m)
  }

  lemma ChoiceEffects(d: Option<Device>, owned: bool, m: ModeChoice, first: Circumstances, second: Circumstances, third: Circumstances)
    ensures AreOfChoice(ModeDid(d, owned, m, first, second, third).effects, m)
    ensures !m.off && m.power.None? ==> ModeDid(d, owned, m, first, second, third).effects == []
  {
    if m.off {
      EffectsAreOfWrite(d, owned, PowerOff, first);
    } else if m.power == Some(true) && m.hasJob {
      EffectsAreOfWrite(d, owned, ModeWrite(m.localMode), third);
    } else if m.power == Some(false) {
      ChoiceFromOffEffects(d, owned, m, first, second, third);
    }
  }

  lemma ChoiceFromOffEffects(d: Option<Device>, owned: bool, m: ModeChoice, first: Circumstances, second: Circumstances, third: Circumstances)
    requires !m.off && m.power == Some(false)
    ensures AreOfChoice(ModeFromOffDid(d, owned, m, first, second, third).effects, m)
  {
    var powered := PoweredFirst(d, owned, m.hasJob, m.localMode, first);
    PoweredEffects(d, owned, m, first);
    CloudChoiceEffects(powered.device, owned, m, second, third);
  }

  lemma PoweredEffects(d: Option<Device>, owned: bool, m: ModeChoice, c: Circumstances)
    requires !m.off && m.power == Some(false)
    ensures AreOfChoice(PoweredFirst(d, owned, m.hasJob, m.localMode, c).effects, m)
  {
    if m.localMode.Some? {
      LocalEffectsAreOfWrite(d, PowerOnIn(m.localMode.value), c);
      assert AreOfChoice(LocalDid(d, PowerOnIn(m.localMode.value), c).effects, m);
    }
  }

  lemma CloudChoiceEffects(d: Option<Device>, owned: bool, m: ModeChoice, second: Circumstances, third: Circumstances)
    requires !m.off && m.power == Some(false)
    ensures AreOfChoice(BothByCloudDid(d, owned, m.hasJob, second, third).effects, m)
  {
    var on := ByCloudDid(d, owned, PowerOnByCloud, second);
    WithoutLocalFormByCloud(d, owned, PowerOnByCloud, second);
    EffectsAreOfWrite(d, owned, PowerOnByCloud, second);
    WithoutLocalFormByCloud(on.device, owned, ModeWrite(None), third);
    EffectsAreOfWrite(on.device, owned, ModeWrite(None), third);
  }

  /** Turning off, and choosing a mode for a running unit, is tried over the bridge first; then, unless
      the entity is owned locally or the bridge took it, over the cloud. */
  lemma ChoiceIsTriedLocally(d: Option<Device>, owned: bool, m: ModeChoice, first: Circumstances, second: Circumstances, third: Circumstances)
    requires m.off || (m.power == Some(true) && m.hasJob)
    ensures var did, c := ModeDid(d, owned, m, first, second, third), if m.off then first else third;
      && (did.effects != [] && did.effects[0].BridgeExchange? <==>
            && d.Some? && c.authorized && c.conditionMet
            && if m.off then c.setting.enabled && c.setting.available
               else m.localMode.Some? && Offered(d.value, Request(m.localMode, None, None, None, None, None), c.setting).Some?)
      && (did.effects == [] ==> owned || (d.Some? && (!c.setting.enabled || !c.conditionMet)))
  {
    var w, c := if m.off then PowerOff else ModeWrite(m.localMode), if m.off then first else third;
    AskedIff(d, w, c);
    LocalEffectsAreOfWrite(d, w, c);
    if LocalDid(d, w, c).result.NotServedLocally? {
      LeftToTheCloud(d, owned, w, c);
    } else {
      AnswerDecides(d, w, c);
    }
  }

  /** A unit that is off and has a local way into the mode is powered on by one frame in that mode; power
      and mode are shown together once the bridge confirms it.  Only if that is left unserved, and the
      entity is not owned locally, is it powered on over the cloud. */
  lemma LocalPowerComesFirst(d: Option<Device>, owned: bool, m: ModeChoice, first: Circumstances, second: Circumstances, third: Circumstances)
    requires !m.off && m.power == Some(false) && m.localMode.Some?
    ensures var local, did := LocalDid(d, PowerOnIn(m.localMode.value), first), ModeDid(d, owned, m, first, second, third);
      var n := |local.effects|;
      if local.result == ServedLocally(true) then
        did.effects == local.effects + [StateShown(Payload(if m.hasJob then {"airConJobMode"} else {}, true))]
      else if local.result.NotServedLocally? && !owned then
        && n < |did.effects| && did.effects[..n] == local.effects
        && did.effects[n].CloudWrite? && did.effects[n].payload == Payload({}, true)
      else did.effects == local.effects
  {
    var local := LocalDid(d, PowerOnIn(m.localMode.value), first);
    if local.result.NotServedLocally? && !owned {
      FirstOverTheCloud(local.device, m.hasJob, second, third);
    }
  }

  lemma FirstOverTheCloud(d: Option<Device>, hasJob: bool, second: Circumstances, third: Circumstances)
    ensures var did := BothByCloudDid(d, false, hasJob, second, third);
      did.effects != [] && did.effects[0].CloudWrite? && did.effects[0].payload == Payload({}, true)
  {
  }

  /** A unit that is off and has no local way into the mode is powered on over the cloud first; the mode
      is set only if the cloud took the power-on. */
  lemma PowerComesFirst(d: Option<Device>, m: ModeChoice, first: Circumstances, second: Circumstances, third: Circumstances)
    requires !m.off && m.power == Some(false) && m.hasJob && m.localMode.None?
    ensures var effects := ModeDid(d, false, m, first, second, third).effects;
      && effects != [] && effects[0].CloudWrite? && effects[0].payload == Payload({}, true)
      && (!second.cloudAccepts ==> |effects| == 1)
      && (second.cloudAccepts ==>
            && |effects| >= 3 && effects[1] == StateShown(Payload({}, true))
            && effects[2].CloudWrite? && effects[2].payload == Payload({"airConJobMode"}, false))
  {
  }
}
