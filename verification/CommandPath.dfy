/** One request, one path: how a climate entity chooses between the local bridge and the cloud
    (climate.py, with the outcome rules of local_command.py and local_control_router.py).

    A local command and a cloud write for the same request would be two commands to one machine.  The
    entity keeps a trace of what it did to the outside, and the contracts are about that trace. */
module CommandPath {
  import opened Wrappers
  import opened ClimateFrame
  import opened TupleRouter

  // ---- The bridge client ------------------------------------------------------------------------

  /** What the HTTP request came to.  `verdict` and `code` are read off the answer's body, "" when it
      has none. */
  datatype Http = NotConnected | TransportFailed | Responded(status: int, verdict: string, code: string)

  /** One exchange with the bridge and, unknown to the caller, whether a frame reached the wire. */
  datatype Exchange = Exchange(http: Http, wire: bool)

  /** What the bridge and anything in front of it promise: without a connection, with a 4xx and with
      a 503 no frame was sent. */
  predicate Honest(x: Exchange) {
    match x.http
    case NotConnected => !x.wire
    case TransportFailed => true
    case Responded(status, _, _) => 400 <= status < 500 || status == 503 ==> !x.wire
  }

  datatype SendOutcome = Verdict(confirmed: bool) | Unavailable | Busy | NotReady | PendingReport | FailedVerdict

  predicate IsConfirmed(verdict: string) {
    verdict == "confirmed" || verdict == "already"
  }

  function Classify(http: Http): SendOutcome {
    match http
    case NotConnected => Unavailable
    case TransportFailed => PendingReport
    case Responded(status, verdict, code) =>
      if 400 <= status < 500 then
        if status == 409 && code == "appliance-command-busy" then Busy
        else if status == 409 && code == "appliance-not-ready" then NotReady
        else Unavailable
      else if status == 503 then Unavailable
      else if status >= 500 then PendingReport
      else if verdict == "unreported" then PendingReport
      else if IsConfirmed(verdict) || verdict == "unverifiable" then Verdict(IsConfirmed(verdict))
      else FailedVerdict
  }

  /** What the router's `_send` makes of it: every refusal before the wire is "not served". */
  function DispositionOf(authorized: bool, conditionMet: bool, http: Http): Disposition {
    if !conditionMet then ConditionUnmet
    else if !authorized then Unauthorized
    else match Classify(http)
      case Verdict(confirmed) => Accepted(confirmed)
      case PendingReport => Pending
      case FailedVerdict => Failed
      case _ => Refused
  }

  /** Only a refusal is handed on to the cloud, and nothing that was refused can have been sent. */
  lemma RefusedNeverReachedTheWire(authorized: bool, conditionMet: bool, x: Exchange)
    requires Honest(x) && DispositionOf(authorized, conditionMet, x.http).Refused?
    ensures !x.wire
  {
  }

  // ---- The entity -------------------------------------------------------------------------------

  /** A cloud payload, as far as it decides whether the retained tuple may still be restated. */
  datatype Payload = Payload(keys: set<string>, powersOn: bool)

  /** One request in both vocabularies. */
  datatype Write = Write(payload: Payload, mode: Option<string>, fan: Option<string>, target: Option<int>,
                         power: Option<bool>, flag: Option<(string, bool)>)

  /** The outside world during one request. */
  datatype Circumstances = Circumstances(
    setting: Setting, authorized: bool, conditionMet: bool, exchange: Exchange,
    shadowBeforeCloud: Shadow, cloudAccepts: bool)

  /** What the entity does to the outside: it asks the bridge, for a tuple command with a frame; it writes
      a payload to the cloud; it shows the state a payload describes. */
  datatype Effect =
    | BridgeExchange(tuple: Option<Composed>, wire: bool)
    | CloudWrite(payload: Payload, restates: bool, fenced: bool)
    | StateShown(payload: Payload)
  {
    predicate IsWireFrame() { BridgeExchange? && wire }
    predicate IsUnfenced() { CloudWrite? && restates && !fenced }
  }

  function WireFrames(trace: seq<Effect>): nat {
    if trace == [] then 0
    else WireFrames(trace[..|trace| - 1]) + (if trace[|trace| - 1].IsWireFrame() then 1 else 0)
  }

  function CloudWrites(trace: seq<Effect>): nat {
    if trace == [] then 0
    else CloudWrites(trace[..|trace| - 1]) + (if trace[|trace| - 1].CloudWrite? then 1 else 0)
  }

  /** Cloud writes that made the retained tuple unsafe and were dispatched without a fence. */
  function Unfenced(trace: seq<Effect>): nat {
    if trace == [] then 0
    else Unfenced(trace[..|trace| - 1]) + (if trace[|trace| - 1].IsUnfenced() then 1 else 0)
  }

  function Shows(trace: seq<Effect>): nat {
    if trace == [] then 0
    else Shows(trace[..|trace| - 1]) + (if trace[|trace| - 1].StateShown? then 1 else 0)
  }

  datatype Tally = Tally(frames: nat, writes: nat, unfenced: nat, shows: nat)

  function Total(effects: seq<Effect>): Tally {
    Tally(WireFrames(effects), CloudWrites(effects), Unfenced(effects), Shows(effects))
  }

  lemma {:induction false} TotalJoins(a: seq<Effect>, b: seq<Effect>)
    ensures var t, u, v := Total(a + b), Total(a), Total(b);
            && t.frames == u.frames + v.frames && t.writes == u.writes + v.writes
            && t.unfenced == u.unfenced + v.unfenced && t.shows == u.shows + v.shows
  {
    if b == [] {
      assert a + b == a;
    } else {
      var n := |b| - 1;
      TotalJoins(a, b[..n]);
      assert (a + b)[..|a + b| - 1] == a + b[..n];
    }
  }

  lemma TotalOfOne(e: Effect)
    ensures Total([e]) == Tally(if e.IsWireFrame() then 1 else 0, if e.CloudWrite? then 1 else 0,
                                if e.IsUnfenced() then 1 else 0, if e.StateShown? then 1 else 0)
  {
    assert [e][..0] == [];
    var none: seq<Effect> := [];
    assert Total(none) == Tally(0, 0, 0, 0);
  }

  predicate OnePath(t: Tally) {
    t.frames <= 1 && (t.frames == 0 || t.writes == 0) && t.unfenced == 0
  }

  datatype LocalOutcome = NotServedLocally | ServedLocally(confirmed: bool) | PendingRaised | ErrorRaised

  /** `Reflected` is the source's True, `Withheld` its False. */
  datatype ControlOutcome = Reflected(byAppliance: bool) | Withheld | Error

  predicate RestatesTuple(w: Write) {
    if w.flag.Some? || w.power == Some(false) then false
    else w.power == Some(true) || w.payload.keys * {"airConJobMode", "airFlow", "temperature"} != {} || w.payload.powersOn
  }

  /** The request is one of the two tuple commands. */
  predicate AsksForTuple(w: Write) {
    w.power == Some(true) || (w.power.None? && w.flag.None? && (w.mode.Some? || w.fan.Some? || w.target.Some?))
  }

  /** Power-on states the mode only; the tuple command all three. */
  function TupleRequest(w: Write): Request {
    if w.power == Some(true) then Request(w.mode, None, None, None, None, None)
    else Request(w.mode, w.fan, w.target, None, None, None)
  }

  function SettingOf(c: Circumstances): Setting {
    c.setting.(disposition := DispositionOf(c.authorized, c.conditionMet, c.exchange.http), cloudFallback := true)
  }

  /** What the router's answer is to the entity. */
  function OutcomeOf(answer: Answer, pending: bool): LocalOutcome {
    match answer
    case NotServed => NotServedLocally
    case Served(confirmed) => ServedLocally(confirmed)
    case Raised => if pending then PendingRaised else ErrorRaised
  }

  function ScalarOutcome(disposition: Disposition): LocalOutcome {
    match disposition
    case Unauthorized | Refused => NotServedLocally
    case Accepted(confirmed) => ServedLocally(confirmed)
    case Pending => PendingRaised
    case ConditionUnmet | Failed => ErrorRaised
  }

  // ---- What a request comes to ------------------------------------------------------------------

  /** The result, the effects in order, and the router's device state after it (None: no router). */
  datatype Did<+T> = Did(result: T, effects: seq<Effect>, device: Option<Device>)
  {
    function As<U>(r: U): Did<U> { Did(r, effects, device) }
  }

  function LocalDid(d: Option<Device>, w: Write, c: Circumstances): Did<LocalOutcome> {
    if d.None? then Did(NotServedLocally, [], None)
    else if AsksForTuple(w) then
      var s := SettingOf(c);
      var o := RunCommand(d.value, TupleRequest(w), s);
      Did(OutcomeOf(o.answer, o.sent.Some? && s.disposition.Pending?),
          if o.sent.Some? then [BridgeExchange(o.sent, c.exchange.wire)] else [], Some(o.device))
    else if w.power.None? && w.flag.None? then Did(NotServedLocally, [], d)
    else if !c.setting.enabled then Did(ErrorRaised, [], d)
    else if !c.setting.available then Did(NotServedLocally, [], d)
    else
      var disposition := DispositionOf(c.authorized, c.conditionMet, c.exchange.http);
      Did(ScalarOutcome(disposition), if HandedOver(disposition) then [BridgeExchange(None, c.exchange.wire)] else [], d)
  }

  function CloudDid(d: Option<Device>, w: Write, c: Circumstances): Did<bool> {
    if d.Some? && RestatesTuple(w) then
      var marked := Marked(d.value, c.shadowBeforeCloud);
      Did(c.cloudAccepts, [CloudWrite(w.payload, true, marked.barrier.Some?)], Some(marked))
    else Did(c.cloudAccepts, [CloudWrite(w.payload, false, false)], d)
  }

  function ControlDid(d: Option<Device>, owned: bool, w: Write, c: Circumstances): Did<ControlOutcome> {
    Settled(LocalDid(d, w, c), owned, w, c)
  }

  /** What follows the local attempt. */
  function Settled(local: Did<LocalOutcome>, owned: bool, w: Write, c: Circumstances): Did<ControlOutcome> {
    match local.result
    case PendingRaised => local.As(Withheld)
    case ErrorRaised => local.As(Error)
    case ServedLocally(confirmed) =>
      if confirmed then Did(Reflected(true), local.effects + [StateShown(w.payload)], local.device) else local.As(Withheld)
    case NotServedLocally =>
      if owned then local.As(Error)
      else
        var cloud := CloudDid(local.device, w, c);
        if cloud.result then Did(Reflected(false), local.effects + cloud.effects + [StateShown(w.payload)], cloud.device)
        else Did(Error, local.effects + cloud.effects, cloud.device)
  }

  /** The write has no local spelling, so the local path is not even asked. */
  predicate HasNoLocalForm(w: Write) {
    !AsksForTuple(w) && w.power.None? && w.flag.None?
  }

  function ByCloudDid(d: Option<Device>, owned: bool, w: Write, c: Circumstances): Did<ControlOutcome> {
    Settled(Did(NotServedLocally, [], d), owned, w, c)
  }

  lemma WithoutLocalFormByCloud(d: Option<Device>, owned: bool, w: Write, c: Circumstances)
    requires HasNoLocalForm(w)
    ensures ControlDid(d, owned, w, c) == ByCloudDid(d, owned, w, c)
  {
  }

  const PowerOff := Write(Payload({}, false), None, None, None, Some(false), None)

  /** Power-on over the cloud, which no local command says. */
  const PowerOnByCloud := Write(Payload({}, true), None, None, None, None, None)

  function PowerOnIn(mode: string): Write {
    Write(Payload({}, true), Some(mode), None, None, Some(true), None)
  }

  function ModeWrite(mode: Option<string>): Write {
    Write(Payload({"airConJobMode"}, false), mode, None, None, None, None)
  }

  /** `done`: the request is settled, by an error if `failed`. */
  datatype Powered = Powered(done: bool, failed: bool)

  /** Power and, if it has a cloud spelling, the mode. */
  function PoweredState(hasJob: bool): Payload {
    Payload(if hasJob then {"airConJobMode"} else {}, true)
  }

  function PoweredDid(d: Option<Device>, owned: bool, hasJob: bool, mode: string, c: Circumstances): Did<Powered> {
    PoweredBy(LocalDid(d, PowerOnIn(mode), c), owned, hasJob)
  }

  function PoweredBy(local: Did<LocalOutcome>, owned: bool, hasJob: bool): Did<Powered> {
    match local.result
    case PendingRaised => local.As(Powered(true, false))
    case ErrorRaised => local.As(Powered(true, true))
    case NotServedLocally => local.As(Powered(owned, owned))
    case ServedLocally(confirmed) =>
      Did(Powered(true, false), local.effects + if confirmed then [StateShown(PoweredState(hasJob))] else [], local.device)
  }

  /** Choosing a mode.  `power` is the reported power, `localMode` the mode's local spelling and
      `hasJob` whether it has a cloud spelling. */
  datatype ModeChoice = ModeChoice(off: bool, power: Option<bool>, localMode: Option<string>, hasJob: bool)

  function ModeDid(d: Option<Device>, owned: bool, m: ModeChoice, first: Circumstances, second: Circumstances, third: Circumstances): Did<()> {
    if m.off then ControlDid(d, owned, PowerOff, first).As(())
    else if m.power.None? then Did((), [], d)
    else if m.power.value then
      if m.hasJob then ControlDid(d, owned, ModeWrite(m.localMode), third).As(()) else Did((), [], d)
    else ModeFromOffDid(d, owned, m, first, second, third)
  }

  function ModeFromOffDid(d: Option<Device>, owned: bool, m: ModeChoice, first: Circumstances, second: Circumstances, third: Circumstances): Did<()> {
    AfterPowering(PoweredFirst(d, owned, m.hasJob, m.localMode, first), owned, m.hasJob, second, third)
  }

  /** The local power-on, if the mode has a local spelling. */
  function PoweredFirst(d: Option<Device>, owned: bool, hasJob: bool, localMode: Option<string>, c: Circumstances): Did<Powered> {
    if localMode.Some? then PoweredDid(d, owned, hasJob, localMode.value, c) else Did(Powered(false, false), [], d)
  }

  function AfterPowering(powered: Did<Powered>, owned: bool, hasJob: bool, second: Circumstances, third: Circumstances): Did<()> {
    if powered.result.done then powered.As(())
    else
      var rest := BothByCloudDid(powered.device, owned, hasJob, second, third);
      Did((), powered.effects + rest.effects, rest.device)
  }

  /** Power and mode, both over the cloud. */
  function BothByCloudDid(d: Option<Device>, owned: bool, hasJob: bool, second: Circumstances, third: Circumstances): Did<()> {
    var on := ByCloudDid(d, owned, PowerOnByCloud, second);
    if on.result.Error? || !hasJob then on.As(())
    else
      var set_ := ByCloudDid(on.device, owned, ModeWrite(None), third);
      Did((), on.effects + set_.effects, set_.device)
  }

  // ---- One request, one path --------------------------------------------------------------------

  /** The router calls a tuple command unserved only if the bridge, when asked at all, refused it. */
  lemma AnswerTellsTheWire(d: Device, req: Request, s: Setting)
    ensures var o := RunCommand(d, req, s);
            && (o.answer == NotServed && o.sent.Some? ==> s.disposition.Refused?)
            && (o.sent.Some? ==> HandedOver(s.disposition))
  {
  }

  /** The local path never writes to the cloud, and what it leaves unserved put no frame on the wire. */
  lemma UnservedIsUnsent(d: Option<Device>, w: Write, c: Circumstances)
    requires Honest(c.exchange)
    ensures var local := LocalDid(d, w, c);
            && Total(local.effects) == Tally(Total(local.effects).frames, 0, 0, 0) && Total(local.effects).frames <= 1
            && (local.result.NotServedLocally? ==> Total(local.effects).frames == 0)
            && (!AsksForTuple(w) && w.power.None? && w.flag.None? ==> local.result.NotServedLocally? && local.effects == [])
  {
    TotalOfOne(BridgeExchange(None, c.exchange.wire));
    if d.Some? && AsksForTuple(w) {
      TotalOfOne(BridgeExchange(RunCommand(d.value, TupleRequest(w), SettingOf(c)).sent, c.exchange.wire));
      AnswerTellsTheWire(d.value, TupleRequest(w), SettingOf(c));
    }
  }

  /** One request goes over the bridge or over the cloud, never both, and over the cloud only if the
      local path left it unserved; state is shown exactly after a cloud write that was taken or a
      confirmation; a cloud write of the tuple stands behind a fence. */
  lemma ControlIsOnePath(d: Option<Device>, owned: bool, w: Write, c: Circumstances)
    requires Honest(c.exchange)
    ensures var did, local := ControlDid(d, owned, w, c), LocalDid(d, w, c);
            var t := Total(did.effects);
            && OnePath(t)
            && t.writes == (if local.result.NotServedLocally? && !owned then 1 else 0)
            && t.shows == (if did.result.Reflected? then 1 else 0)
            && (did.result.Reflected? <==> local.result == ServedLocally(true) || (t.writes == 1 && c.cloudAccepts))
            && (t.writes == 1 && d.Some? && RestatesTuple(w) ==> did.device.Some? && did.device.value.barrier.Some?)
            && t.frames == Total(local.effects).frames
  {
    UnservedIsUnsent(d, w, c);
    SettlingIsOnePath(LocalDid(d, w, c), owned, w, c);
    RouterStays(d, w, c);
  }

  lemma RouterStays(d: Option<Device>, w: Write, c: Circumstances)
    ensures LocalDid(d, w, c).device.Some? <==> d.Some?
  {
  }

  lemma SettlingIsOnePath(local: Did<LocalOutcome>, owned: bool, w: Write, c: Circumstances)
    requires Total(local.effects) == Tally(Total(local.effects).frames, 0, 0, 0) && Total(local.effects).frames <= 1
    requires local.result.NotServedLocally? ==> Total(local.effects).frames == 0
    ensures var did := Settled(local, owned, w, c);
            var t := Total(did.effects);
            && OnePath(t)
            && t.writes == (if local.result.NotServedLocally? && !owned then 1 else 0)
            && t.shows == (if did.result.Reflected? then 1 else 0)
            && (did.result.Reflected? <==> local.result == ServedLocally(true) || (t.writes == 1 && c.cloudAccepts))
            && (t.writes == 1 && local.device.Some? && RestatesTuple(w) ==> did.device.Some? && did.device.value.barrier.Some?)
            && t.frames == Total(local.effects).frames
  {
    TotalOfOne(StateShown(w.payload));
    TotalJoins(local.effects, [StateShown(w.payload)]);
    if local.result.NotServedLocally? && !owned {
      var cloud := CloudDid(local.device, w, c);
      TotalOfOne(cloud.effects[0]);
      TotalJoins(local.effects, cloud.effects);
      TotalJoins(local.effects + cloud.effects, [StateShown(w.payload)]);
    }
  }

  /** A local power-on puts at most one frame on the wire, none if it leaves the request open. */
  lemma PoweringIsOnePath(d: Option<Device>, owned: bool, hasJob: bool, mode: string, c: Circumstances)
    requires Honest(c.exchange)
    ensures var did := PoweredDid(d, owned, hasJob, mode, c);
            var t := Total(did.effects);
            && OnePath(t) && t.writes == 0 && (!did.result.done ==> t.frames == 0) && (owned ==> did.result.done)
  {
    UnservedIsUnsent(d, PowerOnIn(mode), c);
    PoweredByIsOnePath(LocalDid(d, PowerOnIn(mode), c), owned, hasJob);
  }

  lemma PoweredByIsOnePath(local: Did<LocalOutcome>, owned: bool, hasJob: bool)
    requires Total(local.effects) == Tally(Total(local.effects).frames, 0, 0, 0) && Total(local.effects).frames <= 1
    requires local.result.NotServedLocally? ==> Total(local.effects).frames == 0
    ensures var did := PoweredBy(local, owned, hasJob);
            var t := Total(did.effects);
            && OnePath(t) && t.writes == 0 && (!did.result.done ==> t.frames == 0) && (owned ==> did.result.done)
  {
    TotalOfOne(StateShown(PoweredState(hasJob)));
    TotalJoins(local.effects, [StateShown(PoweredState(hasJob))]);
    assert local.effects + [] == local.effects;
  }

  /** Choosing a mode, which may first have to power the unit on, is still one path: never a frame on
      the wire and a cloud write. */
  lemma ChoosingAModeIsOnePath(d: Option<Device>, owned: bool, m: ModeChoice, first: Circumstances, second: Circumstances, third: Circumstances)
    requires Honest(first.exchange) && Honest(second.exchange) && Honest(third.exchange)
    ensures var t := Total(ModeDid(d, owned, m, first, second, third).effects); OnePath(t) && (owned ==> t.writes == 0)
  {
    if m.off {
      ControlIsOnePath(d, owned, PowerOff, first);
    } else if m.power == Some(true) {
      ControlIsOnePath(d, owned, ModeWrite(m.localMode), third);
    } else if m.power == Some(false) {
      if m.localMode.Some? {
        PoweringIsOnePath(d, owned, m.hasJob, m.localMode.value, first);
      }
      AfterPoweringIsOnePath(PoweredFirst(d, owned, m.hasJob, m.localMode, first), owned, m.hasJob, second, third);
    }
  }

  lemma AfterPoweringIsOnePath(powered: Did<Powered>, owned: bool, hasJob: bool, second: Circumstances, third: Circumstances)
    requires OnePath(Total(powered.effects)) && Total(powered.effects).writes == 0
    requires !powered.result.done ==> Total(powered.effects).frames == 0
    ensures var t := Total(AfterPowering(powered, owned, hasJob, second, third).effects); OnePath(t) && (owned ==> t.writes == 0)
  {
    if !powered.result.done {
      BothByCloudOnly(powered.device, owned, hasJob, second, third);
      TotalJoins(powered.effects, BothByCloudDid(powered.device, owned, hasJob, second, third).effects);
    }
  }

  lemma BothByCloudOnly(d: Option<Device>, owned: bool, hasJob: bool, second: Circumstances, third: Circumstances)
    ensures var t := Total(BothByCloudDid(d, owned, hasJob, second, third).effects);
            t.frames == 0 && t.unfenced == 0 && (owned ==> t.writes == 0)
  {
    CloudOnly(d, owned, PowerOnByCloud, second);
    var on := ByCloudDid(d, owned, PowerOnByCloud, second);
    CloudOnly(on.device, owned, ModeWrite(None), third);
    TotalJoins(on.effects, ByCloudDid(on.device, owned, ModeWrite(None), third).effects);
  }

  /** A write without a local spelling puts no frame on the wire. */
  lemma CloudOnly(d: Option<Device>, owned: bool, w: Write, c: Circumstances)
    ensures var t := Total(ByCloudDid(d, owned, w, c).effects);
            t.frames == 0 && t.unfenced == 0 && (owned ==> t.writes == 0)
  {
    var none: seq<Effect> := [];
    assert Total(none) == Tally(0, 0, 0, 0);
    SettlingIsOnePath(Did(NotServedLocally, [], d), owned, w, c);
  }

  // ---- The entity -------------------------------------------------------------------------------

  class ClimateEntity {
    const router: LocalControlRouter?
    const deviceId: DeviceId
    /** Local ownership: a refused request is an error, never a cloud write. */
    const ownedLocally: bool
    var trace: seq<Effect>

    constructor (router: LocalControlRouter?, deviceId: DeviceId, ownedLocally: bool)
      ensures this.router == router && this.deviceId == deviceId && this.ownedLocally == ownedLocally && trace == []
    {
      this.router, this.deviceId, this.ownedLocally, trace := router, deviceId, ownedLocally, [];
    }

    function Known(): Option<Device>
      reads router
    {
      if router == null then None else Some(router.State(deviceId))
    }

    ghost predicate Ready(w: Write, c: Circumstances)
      reads router
    {
      Known().Some? && AsksForTuple(w) ==> SeparableNames(Known().value, TupleRequest(w), SettingOf(c))
    }

    method TupleLocally(w: Write, c: Circumstances) returns (o: LocalOutcome)
      requires Ready(w, c) && router != null && AsksForTuple(w)
      modifies this`trace, router
      ensures var did := LocalDid(old(Known()), w, c);
              o == did.result && trace == old(trace) + did.effects && Known() == did.device
    {
      var s := SettingOf(c);
      var answer, sent := router.Tuple(deviceId, TupleRequest(w), s);
      if sent.Some? {
        trace := trace + [BridgeExchange(sent, c.exchange.wire)];
      }
      o := OutcomeOf(answer, sent.Some? && s.disposition.Pending?);
    }

    /** Power-off and the single flags: one exact value, no composition. */
    method ScalarLocally(w: Write, c: Circumstances) returns (o: LocalOutcome)
      requires router != null && !AsksForTuple(w) && (w.power.Some? || w.flag.Some?)
      modifies this`trace
      ensures var did := LocalDid(Known(), w, c);
              o == did.result && trace == old(trace) + did.effects && Known() == did.device
    {
      if !c.setting.enabled {
        return ErrorRaised;
      }
      if !c.setting.available {
        return NotServedLocally;
      }
      var disposition := DispositionOf(c.authorized, c.conditionMet, c.exchange.http);
      if HandedOver(disposition) {
        trace := trace + [BridgeExchange(None, c.exchange.wire)];
      }
      o := ScalarOutcome(disposition);
    }

    /** The bridge's answer, or that the local path did not serve this; only then may a caller turn
        to the cloud. */
    method SentLocally(w: Write, c: Circumstances) returns (o: LocalOutcome)
      requires Ready(w, c)
      modifies this`trace, router
      ensures var did := LocalDid(old(Known()), w, c);
              o == did.result && trace == old(trace) + did.effects && Known() == did.device
    {
      if router == null {
        return NotServedLocally;
      }
      if AsksForTuple(w) {
        o := TupleLocally(w, c);
      } else if w.power.Some? || w.flag.Some? {
        o := ScalarLocally(w, c);
      } else {
        o := NotServedLocally;
      }
    }

    /** Fence the retained tuple if this write makes it unsafe, then write to the cloud. */
    method CloudControl(w: Write, c: Circumstances) returns (ok: bool)
      modifies this`trace, router
      ensures var did := CloudDid(old(Known()), w, c);
              ok == did.result && trace == old(trace) + did.effects && Known() == did.device
    {
      var restates, fenced := router != null && RestatesTuple(w), false;
      if restates {
        router.MarkCloudTupleDispatch(deviceId, c.shadowBeforeCloud);
        fenced := router.State(deviceId).barrier.Some?;
      }
      trace := trace + [CloudWrite(w.payload, restates, fenced)];
      ok := c.cloudAccepts;
    }

    method Control(w: Write, c: Circumstances) returns (r: ControlOutcome)
      requires Ready(w, c)
      modifies this`trace, router
      ensures var did := ControlDid(old(Known()), ownedLocally, w, c);
              r == did.result && trace == old(trace) + did.effects && Known() == did.device
    {
      var o := SentLocally(w, c);
      match o {
        case PendingRaised =>
          return Withheld;
        case ErrorRaised =>
          return Error;
        case ServedLocally(confirmed) =>
          if !confirmed {
            return Withheld;
          }
          trace := trace + [StateShown(w.payload)];
          return Reflected(true);
        case NotServedLocally =>
          if ownedLocally {
            return Error;
          }
          var ok := CloudControl(w, c);
          if !ok {
            return Error;
          }
          trace := trace + [StateShown(w.payload)];
          return Reflected(false);
      }
    }

    /** One local frame that powers on and states the mode. */
    method PoweredOnLocally(hasJob: bool, mode: string, c: Circumstances) returns (p: Powered)
      requires Ready(PowerOnIn(mode), c)
      modifies this`trace, router
      ensures var did := PoweredDid(old(Known()), ownedLocally, hasJob, mode, c);
              p == did.result && trace == old(trace) + did.effects && Known() == did.device
    {
      var o := SentLocally(PowerOnIn(mode), c);
      match o {
        case PendingRaised => return Powered(true, false);
        case ErrorRaised => return Powered(true, true);
        case NotServedLocally => return Powered(ownedLocally, ownedLocally);
        case ServedLocally(confirmed) =>
          if confirmed {
            trace := trace + [StateShown(PoweredState(hasJob))];
          }
          return Powered(true, false);
      }
    }

    method SetHvacMode(m: ModeChoice, first: Circumstances, second: Circumstances, third: Circumstances)
      requires m.localMode.Some? && m.power == Some(false) ==> Ready(PowerOnIn(m.localMode.value), first)
      requires m.power == Some(true) ==> Ready(ModeWrite(m.localMode), third)
      modifies this`trace, router
      ensures var did := ModeDid(old(Known()), ownedLocally, m, first, second, third);
              trace == old(trace) + did.effects && Known() == did.device
    {
      if m.off {
        var _ := Control(PowerOff, first);
        return;
      }
      if m.power.None? {
        return;
      }
      if m.power.value {
        if m.hasJob {
          var _ := Control(ModeWrite(m.localMode), third);
        }
      } else {
        SetHvacModeFromOff(m, first, second, third);
      }
    }

    /** Power on first; the mode then goes the same way the power-on did. */
    method SetHvacModeFromOff(m: ModeChoice, first: Circumstances, second: Circumstances, third: Circumstances)
      requires m.localMode.Some? ==> Ready(PowerOnIn(m.localMode.value), first)
      modifies this`trace, router
      ensures var did := ModeFromOffDid(old(Known()), ownedLocally, m, first, second, third);
              trace == old(trace) + did.effects && Known() == did.device
    {
      ghost var did := PoweredFirst(Known(), ownedLocally, m.hasJob, m.localMode, first);
      var powered := PowerOnFirst(m.hasJob, m.localMode, first);
      ContinueMode(powered, m.hasJob, second, third, old(trace), did);
    }

    /** What follows the power-on `did`, which turned `before` into the present trace. */
    method ContinueMode(powered: Powered, hasJob: bool, second: Circumstances, third: Circumstances, ghost before: seq<Effect>, ghost did: Did<Powered>)
      requires powered == did.result && trace == before + did.effects && Known() == did.device
      modifies this`trace, router
      ensures var all := AfterPowering(did, ownedLocally, hasJob, second, third);
              trace == before + all.effects && Known() == all.device
    {
      if !powered.done {
        SetBothByCloud(hasJob, second, third);
      }
    }

    method PowerOnFirst(hasJob: bool, localMode: Option<string>, c: Circumstances) returns (p: Powered)
      requires localMode.Some? ==> Ready(PowerOnIn(localMode.value), c)
      modifies this`trace, router
      ensures var did := PoweredFirst(old(Known()), ownedLocally, hasJob, localMode, c);
              p == did.result && trace == old(trace) + did.effects && Known() == did.device
    {
      if localMode.Some? {
        p := PoweredOnLocally(hasJob, localMode.value, c);
      } else {
        p := Powered(false, false);
      }
    }

    method SetBothByCloud(hasJob: bool, second: Circumstances, third: Circumstances)
      modifies this`trace, router
      ensures var did := BothByCloudDid(old(Known()), ownedLocally, hasJob, second, third);
              trace == old(trace) + did.effects && Known() == did.device
    {
      var r := ControlByCloud(PowerOnByCloud, second);
      if !r.Error? && hasJob {
        var _ := ControlByCloud(ModeWrite(None), third);
      }
    }

    method ControlByCloud(w: Write, c: Circumstances) returns (r: ControlOutcome)
      requires HasNoLocalForm(w)
      modifies this`trace, router
      ensures var did := ByCloudDid(old(Known()), ownedLocally, w, c);
              r == did.result && trace == old(trace) + did.effects && Known() == did.device
    {
      WithoutLocalFormByCloud(Known(), ownedLocally, w, c);
      r := Control(w, c);
    }
  }
}
