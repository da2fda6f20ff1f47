/** Whole runs of the tuple protocol for one device: reports arriving, commands, cloud writes, in any
    order (local_control_router.py).

    The clock of the commands never goes back and neither does any field's observation time. */
module TupleRuns {
  import opened Wrappers
  import opened ClimateFrame
  import opened TupleRouter

  datatype Report = Report(field: FieldName, value: Value, at: int)

  datatype Event =
    | Arrived(report: Report)
    | Commanded(req: Request, s: Setting, meanwhile: seq<Report>)
    | CloudWritten

  /** One reading of the three fields of a variant, or what a confirmed frame set them to. */
  datatype Reading = Reading(mode: Value, fan: Value, argument: Value)

  /** The device and what a run has seen.  `latest` is the last confirmed command that no cloud write
      followed, complete and never pruned; `frames` are those handed to the bridge; `seen` are the
      readings commands worked from. */
  datatype World = World(shadow: Shadow, device: Device, clock: int,
                         latest: Option<Confirmed>, frames: seq<Composed>, seen: seq<Reading>)

  function Reported(shadow: Shadow, r: Report): Shadow {
    shadow[r.field := Field(r.value, Some(r.at))]
  }

  function AllReported(shadow: Shadow, reports: seq<Report>): Shadow {
    if reports == [] then shadow
    else Reported(AllReported(shadow, reports[..|reports| - 1]), reports[|reports| - 1])
  }

  predicate InOrder(shadow: Shadow, r: Report) {
    ObservedAt(shadow, r.field).Some? ==> ObservedAt(shadow, r.field).value <= r.at
  }

  predicate AllInOrder(shadow: Shadow, reports: seq<Report>) {
    reports != [] ==>
      var before := reports[..|reports| - 1];
      AllInOrder(shadow, before) && InOrder(AllReported(shadow, before), reports[|reports| - 1])
  }

  predicate Legal(w: World, e: Event) {
    match e
    case Arrived(report) => InOrder(w.shadow, report)
    case Commanded(req, s, meanwhile) =>
      && s.shadow == w.shadow && AllInOrder(w.shadow, meanwhile) && s.shadowAfter == AllReported(w.shadow, meanwhile)
      && w.clock <= s.now <= s.after
    case CloudWritten => true
  }

  function ReadingOf(shadow: Shadow): Reading {
    var mode := RawValue(shadow, ModeField);
    Reading(mode, RawValue(shadow, FanField), RawValue(shadow, ArgumentField(mode)))
  }

  function ReadingOfFrame(f: Frame): Reading {
    Reading(Text(f.mode), Text(f.fan), match f.argument case Comfort(step) => Int(step) case Target(halves) => NumberOf(halves))
  }

  function Readings(d: Device, req: Request, s: Setting): seq<Reading> {
    if Stopped(d, s) then []
    else
      var o := RunCommand(d, req, s);
      [ReadingOf(Effective(d.confirmed, s.shadow, s.now))] +
      (if o.answer == Served(true) && o.sent.Some? then [ReadingOfFrame(o.sent.value.frame)] else [])
  }

  function Step(w: World, e: Event): World {
    match e
    case Arrived(report) => w.(shadow := Reported(w.shadow, report))
    case CloudWritten => w.(device := Marked(w.device, w.shadow), latest := None)
    case Commanded(req, s, _) =>
      var o := RunCommand(w.device, req, s);
      World(s.shadowAfter, o.device, s.after,
            if o.answer == Served(true) && o.sent.Some? then Some(Confirmed(ConfirmedFields(o.sent.value.frame), s.after))
            else if o.answer == NotServed && s.cloudFallback then None
            else w.latest,
            w.frames + (if o.sent.Some? then [o.sent.value] else []),
            w.seen + Readings(w.device, req, s))
  }

  function Run(w: World, events: seq<Event>): World {
    if events == [] then w else Step(Run(w, events[..|events| - 1]), events[|events| - 1])
  }

  predicate LegalRun(w: World, events: seq<Event>) {
    events != [] ==>
      var before := events[..|events| - 1];
      LegalRun(w, before) && Legal(Run(w, before), events[|events| - 1])
  }

  function Start(shadow: Shadow, clock: int): World {
    World(shadow, Device(None, None, map[], None), clock, None, [], [])
  }

  /** Observation times of `later` are not before those of `earlier`. */
  predicate Advances(earlier: Shadow, later: Shadow) {
    forall f :: ObservedAt(earlier, f).Some? ==> ObservedAt(later, f).Some? && ObservedAt(earlier, f).value <= ObservedAt(later, f).value
  }

  lemma {:induction false} ReportsAdvance(shadow: Shadow, reports: seq<Report>)
    requires AllInOrder(shadow, reports)
    ensures Advances(shadow, AllReported(shadow, reports))
  {
    if reports != [] {
      ReportsAdvance(shadow, reports[..|reports| - 1]);
    }
  }

  lemma StepAdvances(w: World, e: Event)
    requires Legal(w, e)
    ensures Advances(w.shadow, Step(w, e).shadow) && w.clock <= Step(w, e).clock
  {
    if e.Commanded? {
      ReportsAdvance(w.shadow, e.meanwhile);
    }
  }

  // ---- The lazy overlay is newest-wins ----------------------------------------------------------

  /** The simple rule: a field of the last confirmed command counts until a report reaches it. */
  function Newest(latest: Option<Confirmed>, shadow: Shadow): Shadow {
    if latest.None? then shadow
    else shadow + Overlay(Remaining(latest.value, shadow), latest.value.at)
  }

  /** Two shadows are the same for every use that respects age. */
  predicate SameWhenFresh(a: Shadow, b: Shadow, now: int) {
    forall f :: SameFieldWhenFresh(a, b, f, now)
  }

  predicate SameFieldWhenFresh(a: Shadow, b: Shadow, f: FieldName, now: int) {
    || (ObservedAt(a, f) == ObservedAt(b, f) && RawValue(a, f) == RawValue(b, f))
    || (!IsFresh(a, f, now) && !IsFresh(b, f, now))
  }

  /** What pruning may have done to the overlay: dropped fields that were overtaken, or all of it
      once it was too old. */
  predicate Tracks(confirmed: Option<Confirmed>, latest: Option<Confirmed>, shadow: Shadow, clock: int) {
    match confirmed
    case Some(c) =>
      && latest.Some? && c.at == latest.value.at
      && (forall f :: f in c.fields ==> f in latest.value.fields && latest.value.fields[f] == c.fields[f])
      && (forall f :: f in latest.value.fields && f !in c.fields ==> Overtaken(shadow, f, c.at))
    case None =>
      || latest.None?
      || clock - latest.value.at > MAX_SHADOW_AGE
      || forall f :: f in latest.value.fields ==> Overtaken(shadow, f, latest.value.at)
  }

  predicate Invariant(w: World) {
    && Tracks(w.device.confirmed, w.latest, w.shadow, w.clock)
    && (w.latest.Some? ==> w.latest.value.at <= w.clock)
    && (w.device.barrier.Some? ==> w.device.confirmed.None? && w.latest.None?)
  }

  lemma PruningTracks(confirmed: Option<Confirmed>, latest: Option<Confirmed>, shadow: Shadow, clock: int, now: int)
    requires Tracks(confirmed, latest, shadow, clock) && clock <= now
    requires latest.Some? ==> latest.value.at <= clock
    ensures Tracks(Pruned(confirmed, shadow, now), latest, shadow, now)
  {
    if confirmed.Some? && !Expired(confirmed.value, now) {
      var c := confirmed.value;
      forall f | f in c.fields && f !in Remaining(c, shadow) ensures Overtaken(shadow, f, c.at) {}
      if Remaining(c, shadow) == map[] {
        forall f | f in latest.value.fields ensures Overtaken(shadow, f, c.at) {
          assert f !in Remaining(c, shadow);
        }
      }
    }
  }

  lemma OverlayIsNewestWins(confirmed: Option<Confirmed>, latest: Option<Confirmed>, shadow: Shadow, clock: int, now: int)
    requires Tracks(confirmed, latest, shadow, clock) && clock <= now
    requires latest.Some? ==> latest.value.at <= clock
    ensures SameWhenFresh(Effective(confirmed, shadow, now), Newest(latest, shadow), now)
  {
    PruningTracks(confirmed, latest, shadow, clock, now);
    var a, b := Effective(confirmed, shadow, now), Newest(latest, shadow);
    forall f ensures SameFieldWhenFresh(a, b, f, now) {
      if latest.Some? && f in latest.value.fields && !Overtaken(shadow, f, latest.value.at) {
        assert b[f] == Field(latest.value.fields[f], Some(latest.value.at));
      }
    }
  }

  lemma AgeRespectedByMemory(d: Device, a: Shadow, b: Shadow, now: int)
    requires SameWhenFresh(a, b, now)
    ensures Remember(d, a, now) == Remember(d, b, now)
  {
    assert SameFieldWhenFresh(a, b, ModeField, now) && SameFieldWhenFresh(a, b, FanField, now);
    assert SameFieldWhenFresh(a, b, TargetField, now) && SameFieldWhenFresh(a, b, ComfortField, now);
  }

  lemma AgeRespectedByReading(a: Shadow, b: Shadow, now: int)
    requires SameWhenFresh(a, b, now)
    ensures ClimateExpectedState(a, now) == ClimateExpectedState(b, now)
    ensures ClimateExpectedState(a, now).Some? ==> RawValue(a, ModeField) == RawValue(b, ModeField)
    ensures forall f :: Fresh(a, f, now) == Fresh(b, f, now)
  {
    forall f ensures Fresh(a, f, now) == Fresh(b, f, now) {
      assert SameFieldWhenFresh(a, b, f, now);
    }
    assert SameFieldWhenFresh(a, b, ModeField, now) && SameFieldWhenFresh(a, b, FanField, now);
    assert SameFieldWhenFresh(a, b, TargetField, now) && SameFieldWhenFresh(a, b, ComfortField, now);
  }

  lemma AgeRespectedByFrames(d: Device, a: Shadow, b: Shadow, req: Request, now: int)
    requires SameWhenFresh(a, b, now)
    ensures Compose(d, a, req, now) == Compose(d, b, req, now)
  {
    AgeRespectedByReading(a, b, now);
    assert SameFieldWhenFresh(a, b, ModeField, now) && SameFieldWhenFresh(a, b, FanField, now);
    assert SameFieldWhenFresh(a, b, TargetField, now) && SameFieldWhenFresh(a, b, ComfortField, now);
  }

  lemma AgeRespected(d: Device, a: Shadow, b: Shadow, req: Request, now: int)
    requires SameWhenFresh(a, b, now)
    ensures Remember(d, a, now) == Remember(d, b, now)
    ensures Compose(d, a, req, now) == Compose(d, b, req, now)
  {
    AgeRespectedByMemory(d, a, b, now);
    AgeRespectedByFrames(d, a, b, req, now);
  }

  lemma TracksThroughReports(confirmed: Option<Confirmed>, latest: Option<Confirmed>, shadow: Shadow, later: Shadow, clock: int, now: int)
    requires Tracks(confirmed, latest, shadow, clock) && Advances(shadow, later) && clock <= now
    ensures Tracks(confirmed, latest, later, now)
  {
  }

  lemma {:induction false} StepKeepsInvariant(w: World, e: Event)
    requires Invariant(w) && Legal(w, e)
    ensures Invariant(Step(w, e))
  {
    StepAdvances(w, e);
    if e.Arrived? {
      TracksThroughReports(w.device.confirmed, w.latest, w.shadow, Step(w, e).shadow, w.clock, w.clock);
    } else if e.Commanded? {
      CommandKeepsInvariant(w, e);
    }
  }

  /** What a command can do to overlay and fence. */
  lemma {:induction false} CommandOverlay(d: Device, req: Request, s: Setting)
    ensures var o := RunCommand(d, req, s);
            if o.answer == Served(true) && o.sent.Some? then
              o.device.confirmed == Some(Confirmed(ConfirmedFields(o.sent.value.frame), s.after)) && o.device.barrier.None?
            else
              || (o.answer == NotServed && s.cloudFallback && o.device.confirmed.None?)
              || (o.device.confirmed == d.confirmed && o.device.barrier == d.barrier && (o.answer == NotServed && s.cloudFallback ==> d.barrier.Some?))
              || (o.device.confirmed == Pruned(d.confirmed, s.shadow, s.now) && o.device.barrier.None? && !(o.answer == NotServed && s.cloudFallback))
  {
    if !Stopped(d, s) {
      var d1 := d.(barrier := None, confirmed := Pruned(d.confirmed, s.shadow, s.now));
      AttemptOverlay(d1, Effective(d.confirmed, s.shadow, s.now), req, s);
    }
  }

  lemma AttemptOverlay(d: Device, shadow: Shadow, req: Request, s: Setting)
    requires d.barrier.None?
    ensures var o := Attempted(d, shadow, req, s);
            if o.answer == Served(true) && o.sent.Some? then
              o.device.confirmed == Some(Confirmed(ConfirmedFields(o.sent.value.frame), s.after)) && o.device.barrier.None?
            else if o.answer == NotServed && s.cloudFallback then o.device.confirmed.None?
            else o.device.confirmed == d.confirmed && o.device.barrier.None?
  {
    var d' := Remember(d, shadow, s.now);
    var c := Compose(d', shadow, req, s.now);
    if c.Some? {
      ConclusionOverlay(d', c.value, s);
    }
  }

  lemma ConclusionOverlay(d: Device, c: Composed, s: Setting)
    requires d.barrier.None?
    ensures var o := Concluded(d, c, s);
            if o.answer == Served(true) && o.sent.Some? then
              o.device.confirmed == Some(Confirmed(ConfirmedFields(o.sent.value.frame), s.after)) && o.device.barrier.None?
            else if o.answer == NotServed && s.cloudFallback then o.device.confirmed.None?
            else o.device.confirmed == d.confirmed && o.device.barrier.None?
  {
  }

  lemma {:induction false} CommandKeepsInvariant(w: World, e: Event)
    requires Invariant(w) && Legal(w, e) && e.Commanded? && Advances(w.shadow, Step(w, e).shadow)
    ensures Invariant(Step(w, e))
  {
    var d, s := w.device, e.s;
    CommandOverlay(d, e.req, s);
    PruningTracks(d.confirmed, w.latest, w.shadow, w.clock, s.now);
    TracksThroughReports(Pruned(d.confirmed, s.shadow, s.now), w.latest, w.shadow, s.shadowAfter, s.now, s.after);
    TracksThroughReports(d.confirmed, w.latest, w.shadow, s.shadowAfter, w.clock, s.after);
  }

  lemma {:induction false} RunKeepsInvariant(w: World, events: seq<Event>)
    requires Invariant(w) && LegalRun(w, events)
    ensures Invariant(Run(w, events))
  {
    if events != [] {
      RunKeepsInvariant(w, events[..|events| - 1]);
      StepKeepsInvariant(Run(w, events[..|events| - 1]), events[|events| - 1]);
    }
  }

  /** After any run, a command does exactly what it would on the newest-wins view
      of all reports and the last confirmed command; pruning and expiring the overlay never show. */
  lemma {:induction false} EveryCommandSeesTheNewest(w: World, events: seq<Event>, e: Event)
    requires Invariant(w) && LegalRun(w, events) && Legal(Run(w, events), e) && e.Commanded?
    ensures var before := Run(w, events);
            var d := before.device.(barrier := None, confirmed := Pruned(before.device.confirmed, before.shadow, e.s.now));
            !Stopped(before.device, e.s) ==> RunCommand(before.device, e.req, e.s) == Attempted(d, Newest(before.latest, before.shadow), e.req, e.s)
  {
    RunKeepsInvariant(w, events);
    var before := Run(w, events);
    var d := before.device.(barrier := None, confirmed := Pruned(before.device.confirmed, before.shadow, e.s.now));
    var effective, newest := Effective(before.device.confirmed, before.shadow, e.s.now), Newest(before.latest, before.shadow);
    OverlayIsNewestWins(before.device.confirmed, before.latest, before.shadow, before.clock, e.s.now);
    AgeRespected(d, effective, newest, e.req, e.s.now);
    AgeRespected(Remember(d, effective, e.s.now), effective, newest, e.req, e.s.now);
  }

  /** Once the overlay is too old, so is every report from before the confirmation: dropping the one
      never lets the other into a frame. */
  lemma ExpiryNeverRevivesOldReports(c: Confirmed, shadow: Shadow, f: FieldName, now: int)
    requires now - c.at > MAX_SHADOW_AGE && IsFresh(shadow, f, now)
    ensures Overtaken(shadow, f, c.at)
  {
  }

  /** A cloud fence and a confirmed overlay never stand at the same time. */
  lemma {:induction false} FenceExcludesOverlay(shadow: Shadow, clock: int, events: seq<Event>)
    requires LegalRun(Start(shadow, clock), events)
    ensures var d := Run(Start(shadow, clock), events).device; d.barrier.None? || d.confirmed.None?
  {
    RunKeepsInvariant(Start(shadow, clock), events);
  }
}
