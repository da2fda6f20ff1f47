/** What a run forgets (local_control_router.py).

    Take any instant.  Two runs with entirely different pasts - other reports, overlays, fences and
    memories, as long as all of it was observed, confirmed or fenced not later than the instant - get
    the same reports after it and the same commands.  Whatever happened before, a cloud write or a
    command that sent what it should not, a command that is sure composes the same. */
module TupleForgets {
  import opened Wrappers
  import opened ClimateFrame
  import opened TupleRouter
  import opened TupleRuns
  import opened TupleFence
  import opened TupleOneCommand
  import opened TupleTwoRuns

  // ---- What is known to come from after the instant ---------------------------------------------

  predicate IsPast(t: Option<int>, since: int) {
    t.Some? ==> t.value <= since
  }

  /** Reported, or confirmed by the appliance, after the instant. */
  function FieldsSince(shadow: Shadow, since: int): set<FieldName> {
    set f | f in ALL_FIELDS && !IsPast(ObservedAt(shadow, f), since)
  }

  predicate Unserved(s: Setting) {
    !s.enabled || !s.available || !s.fieldsReady
  }

  /** A command that reads mode, fan and argument from after the instant, and takes a retained argument
      from there or from the caller. */
  predicate IsSureCommand(modes: iset<string>, d: Device, req: Request, s: Setting, since: int) {
    var shadow := Effective(d.confirmed, s.shadow, s.now);
    var fields := FieldsSince(shadow, since);
    Unserved(s) || (ModeField in fields && FanField in fields && Covered(shadow, req, fields, modes))
  }

  function SureModesAfter(modes: iset<string>, d: Device, req: Request, s: Setting, since: int): iset<string> {
    var shadow := Effective(d.confirmed, s.shadow, s.now);
    if Stopped(d, s) then modes
    else ConfirmedModes(TaughtModes(modes, shadow, FieldsSince(shadow, since), s.now), Offered(d, req, s), s)
  }

  /** The modes whose remembered argument comes from after the instant. */
  function SureModes(w: World, events: seq<Event>, since: int): iset<string> {
    if events == [] then iset{}
    else
      var b, e := Run(w, events[..|events| - 1]), events[|events| - 1];
      var modes := SureModes(w, events[..|events| - 1], since);
      if e.Commanded? then SureModesAfter(modes, b.device, e.req, e.s, since) else modes
  }

  predicate IsSureRun(w: World, events: seq<Event>, since: int) {
    events != [] ==>
      var before, e := events[..|events| - 1], events[|events| - 1];
      IsSureRun(w, before, since) && (e.Commanded? ==> IsSureCommand(SureModes(w, before, since), Run(w, before).device, e.req, e.s, since))
  }

  // ---- Two pasts --------------------------------------------------------------------------------

  predicate PastOverlay(d: Device, since: int) {
    d.confirmed.Some? ==> d.confirmed.value.at <= since
  }

  function BaselineOf(d: Device, f: FieldName): Option<int> {
    if d.barrier.Some? then Baseline(d.barrier.value, f) else None
  }

  /** Nothing known is from after the instant. */
  ghost predicate IsPastWorld(w: World, since: int) {
    PastOverlay(w.device, since) && forall f :: IsPast(ObservedAt(w.shadow, f), since) && IsPast(BaselineOf(w.device, f), since)
  }

  /** A report from before the instant that arrives late may be any other such report. */
  predicate TwinReport(a: Report, b: Report, since: int) {
    a == b || (a.at <= since && b.at <= since)
  }

  predicate TwinReports(a: seq<Report>, b: seq<Report>, since: int) {
    && |a| == |b|
    && (a != [] ==> TwinReports(a[..|a| - 1], b[..|b| - 1], since) && TwinReport(a[|a| - 1], b[|b| - 1], since))
  }

  predicate TwinEvent(a: Event, b: Event, since: int) {
    match a
    case Arrived(report) => b.Arrived? && TwinReport(report, b.report, since)
    case CloudWritten => b.CloudWritten?
    case Commanded(req, s, meanwhile) =>
      b.Commanded? && b.req == req && SameSurroundings(s, b.s) && TwinReports(meanwhile, b.meanwhile, since)
  }

  predicate TwinEvents(a: seq<Event>, b: seq<Event>, since: int) {
    && |a| == |b|
    && (a != [] ==> TwinEvents(a[..|a| - 1], b[..|b| - 1], since) && TwinEvent(a[|a| - 1], b[|b| - 1], since))
  }

  /** Another past, and the same future. */
  ghost predicate IsTwin(events: seq<Event>, v: World, others: seq<Event>, since: int) {
    IsPastWorld(v, since) && LegalRun(v, others) && TwinEvents(events, others, since)
  }

  predicate TwinTimes(a: Option<int>, b: Option<int>, since: int) {
    a == b || (IsPast(a, since) && IsPast(b, since))
  }

  predicate TwinField(s: Shadow, t: Shadow, f: FieldName, since: int) {
    SameReport(s, t, f) || (IsPast(ObservedAt(s, f), since) && IsPast(ObservedAt(t, f), since))
  }

  ghost predicate TwinShadows(s: Shadow, t: Shadow, since: int) {
    forall f :: TwinField(s, t, f, since)
  }

  ghost predicate TwinFences(c: Device, d: Device, since: int) {
    forall f :: TwinTimes(BaselineOf(c, f), BaselineOf(d, f), since)
  }

  /** Both overlays are past, or they are one confirmed since, and no fence stands. */
  predicate TwinOverlays(c: Device, d: Device, since: int) {
    (PastOverlay(c, since) && PastOverlay(d, since)) || (c.confirmed == d.confirmed && c.barrier.None? && d.barrier.None?)
  }

  ghost predicate TwinDevices(c: Device, d: Device, modes: iset<string>, since: int) {
    TwinFences(c, d, since) && TwinOverlays(c, d, since) && SameMemory(c, d, modes)
  }

  // ---- One command ------------------------------------------------------------------------------

  lemma ReportOnTwins(s: Shadow, t: Shadow, a: Report, b: Report, since: int)
    requires TwinShadows(s, t, since) && TwinReport(a, b, since) && InOrder(s, a) && InOrder(t, b)
    ensures TwinShadows(Reported(s, a), Reported(t, b), since)
  {
    forall f ensures TwinField(Reported(s, a), Reported(t, b), f, since) {
      assert TwinField(s, t, f, since);
    }
  }

  lemma {:induction false} ReportsOnTwins(s: Shadow, t: Shadow, a: seq<Report>, b: seq<Report>, since: int)
    requires TwinShadows(s, t, since) && TwinReports(a, b, since) && AllInOrder(s, a) && AllInOrder(t, b)
    ensures TwinShadows(AllReported(s, a), AllReported(t, b), since)
  {
    if a != [] {
      var n := |a| - 1;
      ReportsOnTwins(s, t, a[..n], b[..n], since);
      ReportOnTwins(AllReported(s, a[..n]), AllReported(t, b[..n]), a[n], b[n], since);
    }
  }

  lemma PrunedTwins(c: Device, d: Device, s: Shadow, t: Shadow, now: int, since: int)
    requires TwinShadows(s, t, since) && TwinOverlays(c, d, since)
    ensures var x, y := Pruned(c.confirmed, s, now), Pruned(d.confirmed, t, now);
      (PastOverlay(c, since) && PastOverlay(d, since)) || x == y
  {
    if c.confirmed == d.confirmed && !PastOverlay(c, since) {
      var confirmed := c.confirmed.value;
      forall f ensures Overtaken(s, f, confirmed.at) == Overtaken(t, f, confirmed.at) {
        assert TwinField(s, t, f, since);
      }
      assert Remaining(confirmed, s) == Remaining(confirmed, t);
    }
  }

  /** What is read from after the instant is the same in both. */
  lemma EffectiveTwins(c: Device, d: Device, s: Shadow, t: Shadow, now: int, since: int)
    requires TwinShadows(s, t, since) && TwinOverlays(c, d, since)
    ensures SameReports(Effective(d.confirmed, t, now), Effective(c.confirmed, s, now), FieldsSince(Effective(c.confirmed, s, now), since))
  {
    PrunedTwins(c, d, s, t, now, since);
    forall f | f in FieldsSince(Effective(c.confirmed, s, now), since)
      ensures SameReport(Effective(d.confirmed, t, now), Effective(c.confirmed, s, now), f)
    {
      assert TwinField(s, t, f, since);
    }
  }

  /** Read from after the instant, but not from the overlay: reported since. */
  lemma ReadIsReported(d: Device, s: Shadow, now: int, f: FieldName, since: int)
    requires PastOverlay(d, since) && f in FieldsSince(Effective(d.confirmed, s, now), since)
    ensures SameReport(s, Effective(d.confirmed, s, now), f) && !IsPast(ObservedAt(s, f), since)
  {
  }

  lemma UnblockedTwins(c: Device, d: Device, s: Shadow, t: Shadow, since: int)
    requires TwinShadows(s, t, since) && TwinFences(c, d, since)
    requires forall f :: InVariant(RawValue(s, ModeField), f) ==> !IsPast(ObservedAt(s, f), since)
    ensures d.barrier.Some? && Blocks(d.barrier.value, t) ==> c.barrier.Some? && Blocks(c.barrier.value, s)
  {
    assert TwinField(s, t, ModeField, since);
    if d.barrier.Some? && Blocks(d.barrier.value, t) {
      var f :| f in ALL_FIELDS && InVariant(RawValue(t, ModeField), f) && !Beyond(t, f, if f in d.barrier.value then d.barrier.value[f] else None);
      assert TwinField(s, t, f, since) && TwinTimes(BaselineOf(c, f), BaselineOf(d, f), since);
      assert !Beyond(t, f, Baseline(d.barrier.value, f));
      assert BaselineOf(c, f) == BaselineOf(d, f) && BaselineOf(c, f).Some?;
      assert !Beyond(s, f, Baseline(c.barrier.value, f));
    }
  }

  lemma TwinsAreMutual(c: Device, d: Device, s: Shadow, t: Shadow, since: int)
    requires TwinShadows(s, t, since) && TwinFences(c, d, since)
    ensures TwinShadows(t, s, since) && TwinFences(d, c, since)
  {
    forall f ensures TwinField(t, s, f, since) && TwinTimes(BaselineOf(d, f), BaselineOf(c, f), since) {
      assert TwinField(s, t, f, since) && TwinTimes(BaselineOf(c, f), BaselineOf(d, f), since);
    }
  }

  lemma StoppedTwins(c: Device, d: Device, req: Request, s: Setting, t: Setting, modes: iset<string>, since: int)
    requires TwinDevices(c, d, modes, since) && TwinShadows(s.shadow, t.shadow, since) && SameSurroundings(s, t)
    requires IsSureCommand(modes, c, req, s, since)
    ensures Stopped(c, s) == Stopped(d, t)
  {
    if !Unserved(s) && PastOverlay(c, since) && PastOverlay(d, since) {
      var mode := RawValue(Effective(c.confirmed, s.shadow, s.now), ModeField);
      ReadIsReported(c, s.shadow, s.now, ModeField, since);
      ReadIsReported(c, s.shadow, s.now, FanField, since);
      ReadIsReported(c, s.shadow, s.now, ArgumentField(mode), since);
      assert TwinField(s.shadow, t.shadow, ModeField, since) && TwinField(s.shadow, t.shadow, FanField, since);
      assert TwinField(s.shadow, t.shadow, ArgumentField(mode), since);
      UnblockedTwins(c, d, s.shadow, t.shadow, since);
      TwinsAreMutual(c, d, s.shadow, t.shadow, since);
      UnblockedTwins(d, c, t.shadow, s.shadow, since);
    }
  }

  lemma LaterTwins(a: Option<int>, b: Option<int>, a': Option<int>, b': Option<int>, since: int)
    requires TwinTimes(a, a', since) && TwinTimes(b, b', since)
    ensures TwinTimes(Later(a, b), Later(a', b'), since)
  {
  }

  function ConfirmedAt(d: Device, f: FieldName): Option<int> {
    if d.confirmed.Some? && f in d.confirmed.value.fields then Some(d.confirmed.value.at) else None
  }

  lemma KnownIsLatest(d: Device, shadow: Shadow, f: FieldName)
    ensures Known(d, shadow, f) == Later(ObservedAt(shadow, f), Later(ConfirmedAt(d, f), BaselineOf(d, f)))
  {
  }

  lemma KnownTwins(c: Device, d: Device, s: Shadow, t: Shadow, f: FieldName, since: int)
    requires TwinFences(c, d, since) && TwinOverlays(c, d, since) && TwinShadows(s, t, since)
    ensures TwinTimes(Known(c, s, f), Known(d, t, f), since)
  {
    KnownIsLatest(c, s, f);
    KnownIsLatest(d, t, f);
    assert TwinTimes(ObservedAt(s, f), ObservedAt(t, f), since) by {
      assert TwinField(s, t, f, since);
    }
    assert TwinTimes(BaselineOf(c, f), BaselineOf(d, f), since);
    assert TwinTimes(ConfirmedAt(c, f), ConfirmedAt(d, f), since);
    LaterTwins(ConfirmedAt(c, f), BaselineOf(c, f), ConfirmedAt(d, f), BaselineOf(d, f), since);
    LaterTwins(ObservedAt(s, f), Later(ConfirmedAt(c, f), BaselineOf(c, f)), ObservedAt(t, f), Later(ConfirmedAt(d, f), BaselineOf(d, f)), since);
  }

  lemma MarkedTwins(c: Device, d: Device, s: Shadow, t: Shadow, modes: iset<string>, since: int)
    requires TwinDevices(c, d, modes, since) && TwinShadows(s, t, since)
    ensures TwinDevices(Marked(c, s), Marked(d, t), modes, since)
  {
    forall f ensures TwinTimes(BaselineOf(Marked(c, s), f), BaselineOf(Marked(d, t), f), since) {
      AllFieldsListed(f);
      KnownTwins(c, d, s, t, f, since);
    }
    forall mode | mode in modes ensures Entry(Marked(c, s), mode) == Entry(Marked(d, t), mode) {
      assert Entry(c, mode) == Entry(d, mode);
    }
  }

  lemma OfferTwins(c: Device, d: Device, req: Request, s: Setting, t: Setting, modes: iset<string>, since: int)
    requires TwinDevices(c, d, modes, since) && TwinShadows(s.shadow, t.shadow, since) && SameSurroundings(s, t)
    requires IsSureCommand(modes, c, req, s, since)
    ensures Offered(c, req, s) == Offered(d, req, t)
  {
    StoppedTwins(c, d, req, s, t, modes, since);
    if !Stopped(c, s) {
      var shadow := Effective(c.confirmed, s.shadow, s.now);
      EffectiveTwins(c, d, s.shadow, t.shadow, s.now, since);
      CoveredIsSame(c, shadow, req, s.now, FieldsSince(shadow, since), modes, d, Effective(d.confirmed, t.shadow, t.now));
    }
  }

  lemma PassingTwins(c: Device, d: Device, req: Request, s: Setting, t: Setting, modes: iset<string>, since: int)
    requires TwinDevices(c, d, modes, since) && TwinShadows(s.shadow, t.shadow, since) && SameSurroundings(s, t)
    requires IsSureCommand(modes, c, req, s, since) && !Stopped(c, s)
    ensures var shadow := Effective(c.confirmed, s.shadow, s.now);
      TwinDevices(Passing(c, s), Passing(d, t), TaughtModes(modes, shadow, FieldsSince(shadow, since), s.now), since)
  {
    var c', d' := c.(barrier := None, confirmed := Pruned(c.confirmed, s.shadow, s.now)), d.(barrier := None, confirmed := Pruned(d.confirmed, t.shadow, t.now));
    var shadow, other := Effective(c.confirmed, s.shadow, s.now), Effective(d.confirmed, t.shadow, t.now);
    assert SameMemory(c', d', modes) by {
      forall mode | mode in modes ensures Entry(c', mode) == Entry(d', mode) {
        assert Entry(c, mode) == Entry(d, mode);
      }
    }
    PrunedTwins(c, d, s.shadow, t.shadow, s.now, since);
    EffectiveTwins(c, d, s.shadow, t.shadow, s.now, since);
    assert SameReports(shadow, other, FieldsSince(shadow, since)) by {
      forall f | f in FieldsSince(shadow, since) ensures SameReport(shadow, other, f) {
        assert SameReport(other, shadow, f);
      }
    }
    RememberSame(c', d', shadow, other, s.now, FieldsSince(shadow, since), modes);
    RememberKeepsFence(c', shadow, s.now);
    RememberKeepsFence(d', other, s.now);
  }

  lemma FinishedTwins(c: Device, d: Device, x: Option<Composed>, s: Setting, t: Setting, modes: iset<string>, since: int)
    requires TwinDevices(c, d, modes, since) && SameSurroundings(s, t) && c.barrier.None? && d.barrier.None?
    requires TwinShadows(s.shadow, t.shadow, since) && TwinShadows(s.shadowAfter, t.shadowAfter, since)
    requires x.Some? ==> HasItsArgument(x.value.frame)
    ensures TwinDevices(Finished(c, x, s).device, Finished(d, x, t).device, ConfirmedModes(modes, x, s), since)
  {
    FinishedMemory(c, d, x, s, t, modes);
    if x.None? {
      MarkedTwins(c, d, s.shadow, t.shadow, modes, since);
    } else if s.disposition.Unauthorized? || s.disposition.Refused? {
      MarkedTwins(c, d, s.shadowAfter, t.shadowAfter, modes, since);
    }
  }

  lemma CommandTwins(c: Device, d: Device, req: Request, s: Setting, t: Setting, modes: iset<string>, since: int)
    requires TwinDevices(c, d, modes, since) && SameSurroundings(s, t) && IsSureCommand(modes, c, req, s, since)
    requires TwinShadows(s.shadow, t.shadow, since) && TwinShadows(s.shadowAfter, t.shadowAfter, since)
    ensures TwinDevices(RunCommand(c, req, s).device, RunCommand(d, req, t).device, SureModesAfter(modes, c, req, s, since), since)
  {
    StoppedTwins(c, d, req, s, t, modes, since);
    if Stopped(c, s) {
      MarkedTwins(c, d, s.shadow, t.shadow, modes, since);
    } else {
      var shadow := Effective(c.confirmed, s.shadow, s.now);
      OfferTwins(c, d, req, s, t, modes, since);
      PassingTwins(c, d, req, s, t, modes, since);
      CommandFollowsItsOffer(c, req, s);
      CommandFollowsItsOffer(d, req, t);
      OfferedHasItsArgument(c, req, s);
      FinishedTwins(Passing(c, s), Passing(d, t), Offered(c, req, s), s, t, TaughtModes(modes, shadow, FieldsSince(shadow, since), s.now), since);
    }
  }

  // ---- Two runs ---------------------------------------------------------------------------------

  lemma StepTwins(w: World, v: World, a: Event, b: Event, modes: iset<string>, since: int)
    requires Legal(w, a) && Legal(v, b) && TwinEvent(a, b, since)
    requires TwinDevices(w.device, v.device, modes, since) && TwinShadows(w.shadow, v.shadow, since)
    requires a.Commanded? ==> IsSureCommand(modes, w.device, a.req, a.s, since)
    ensures TwinDevices(Step(w, a).device, Step(v, b).device, if a.Commanded? then SureModesAfter(modes, w.device, a.req, a.s, since) else modes, since)
    ensures TwinShadows(Step(w, a).shadow, Step(v, b).shadow, since)
    ensures a.Commanded? ==> Offered(w.device, a.req, a.s) == Offered(v.device, b.req, b.s)
  {
    match a
    case Arrived(report) => ReportOnTwins(w.shadow, v.shadow, report, b.report, since);
    case CloudWritten => MarkedTwins(w.device, v.device, w.shadow, v.shadow, modes, since);
    case Commanded(req, s, meanwhile) =>
      ReportsOnTwins(w.shadow, v.shadow, meanwhile, b.meanwhile, since);
      OfferTwins(w.device, v.device, req, s, b.s, modes, since);
      CommandTwins(w.device, v.device, req, s, b.s, modes, since);
  }

  /** Runs with any two pasts compose the same from the instant on, while their commands are sure. */
  lemma {:induction false} ForgetsThePast(w: World, events: seq<Event>, v: World, others: seq<Event>, since: int)
    requires IsPastWorld(w, since) && LegalRun(w, events) && IsTwin(events, v, others, since) && IsSureRun(w, events, since)
    ensures TwinDevices(Run(w, events).device, Run(v, others).device, SureModes(w, events, since), since)
    ensures TwinShadows(Run(w, events).shadow, Run(v, others).shadow, since)
    ensures Offers(w, events) == Offers(v, others)
  {
    if events != [] {
      var n := |events| - 1;
      ForgetsThePast(w, events[..n], v, others[..n], since);
      StepTwins(Run(w, events[..n]), Run(v, others[..n]), events[n], others[n], SureModes(w, events[..n], since), since);
    }
  }

  // ---- There is always such an instant ----------------------------------------------------------

  function Latest(a: int, t: Option<int>): int {
    if t.Some? && t.value > a then t.value else a
  }

  function LatestKnown(w: World, f: FieldName): int {
    Latest(Latest(0, ObservedAt(w.shadow, f)), BaselineOf(w.device, f))
  }

  /** Every world is past from some instant on, so that the above applies after any run. */
  lemma EveryWorldIsPast(w: World) returns (since: int)
    ensures forall later :: later >= since ==> IsPastWorld(w, later)
  {
    var m, n := LatestKnown(w, ModeField), LatestKnown(w, FanField);
    var p, q := LatestKnown(w, TargetField), LatestKnown(w, ComfortField);
    since := Latest(if m > n then m else n, Some(if p > q then p else q));
    since := Latest(since, if w.device.confirmed.Some? then Some(w.device.confirmed.value.at) else None);
    forall later | later >= since ensures IsPastWorld(w, later) {
      forall f ensures IsPast(ObservedAt(w.shadow, f), later) && IsPast(BaselineOf(w.device, f), later) {
        assert LatestKnown(w, f) <= since by {
          match f
          case ModeField =>
          case FanField =>
          case TargetField =>
          case ComfortField =>
        }
      }
    }
  }
}
