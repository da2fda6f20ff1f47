/** A run is the same whatever was known at the cloud write, exactly if all its commands are clean
    (local_control_router.py).

    For the first command that is not, another run is built: everything known at the write, memory
    and late reports included, is replaced by one number. */
module TupleOtherRun {
  import opened Wrappers
  import opened ClimateFrame
  import opened TupleRouter
  import opened TupleRuns
  import opened TupleFence
  import opened TupleOneCommand
  import opened TupleTwoRuns

  // ---- The run with `z` for everything known at the write ---------------------------------------

  predicate IsArgument(f: FieldName) {
    f == TargetField || f == ComfortField
  }

  function SupposedValue(f: FieldName, v: Value, z: int): Value {
    if IsArgument(f) then Int(z) else v
  }

  function SupposedShadow(s: Shadow, known: Barrier, z: int): Shadow {
    map f | f in s :: if Beyond(s, f, Baseline(known, f)) then s[f] else s[f].(value := SupposedValue(f, s[f].value, z))
  }

  function SupposedReport(r: Report, known: Barrier, z: int): Report {
    if Baseline(known, r.field).Some? ==> r.at > Baseline(known, r.field).value then r
    else r.(value := SupposedValue(r.field, r.value, z))
  }

  function SupposedReports(reports: seq<Report>, known: Barrier, z: int): seq<Report> {
    if reports == [] then []
    else SupposedReports(reports[..|reports| - 1], known, z) + [SupposedReport(reports[|reports| - 1], known, z)]
  }

  function SupposedEvent(e: Event, shadow: Shadow, known: Barrier, z: int): Event {
    match e
    case Arrived(report) => Arrived(SupposedReport(report, known, z))
    case CloudWritten => e
    case Commanded(req, s, meanwhile) =>
      var others := SupposedReports(meanwhile, known, z);
      Commanded(req, s.(shadow := shadow, shadowAfter := AllReported(shadow, others)), others)
  }

  function SupposedEvents(v: World, events: seq<Event>, known: Barrier, z: int): seq<Event> {
    if events == [] then []
    else
      var before := SupposedEvents(v, events[..|events| - 1], known, z);
      before + [SupposedEvent(events[|events| - 1], Run(v, before).shadow, known, z)]
  }

  function SupposedEntry(mode: string, z: int): Option<int> {
    Some(if mode == "auto" then z else 2 * z)
  }

  function SupposedWorld(w: World, mode: string, known: Barrier, z: int): World {
    w.(shadow := SupposedShadow(w.shadow, known, z), device := w.device.(targets := map[mode := 2 * z], comfort := Some(z)))
  }

  // ---- It is an other run -----------------------------------------------------------------------

  lemma {:induction false} SupposedReportsAreOther(reports: seq<Report>, known: Barrier, z: int)
    ensures OtherReports(reports, SupposedReports(reports, known, z), known)
  {
    if reports != [] {
      SupposedReportsAreOther(reports[..|reports| - 1], known, z);
      var others := SupposedReports(reports, known, z);
      assert others[..|others| - 1] == SupposedReports(reports[..|reports| - 1], known, z);
    }
  }

  /** An event of the one run, brought to the other. */
  lemma LegalOnBoth(w: World, v: World, a: Event, b: Event, known: Barrier)
    requires Legal(w, a) && OtherEvent(a, b, known) && OtherShadow(w.shadow, v.shadow, known) && w.clock == v.clock
    requires b.Commanded? ==> b.s.shadow == v.shadow && b.s.shadowAfter == AllReported(v.shadow, b.meanwhile)
    ensures Legal(v, b)
  {
    match a
    case Arrived(report) => assert ObservedAt(w.shadow, report.field) == ObservedAt(v.shadow, report.field);
    case CloudWritten =>
    case Commanded(_, _, meanwhile) => ReportsOnBoth(w.shadow, v.shadow, meanwhile, b.meanwhile, known);
  }

  lemma ExtendedRun(w: World, events: seq<Event>, v: World, others: seq<Event>, a: Event, b: Event, known: Barrier)
    requires LegalRun(w, events) && Legal(Run(w, events), a) && IsOtherRun(w, events, v, others, known) && OtherEvent(a, b, known)
    requires b.Commanded? ==> b.s.shadow == Run(v, others).shadow && b.s.shadowAfter == AllReported(Run(v, others).shadow, b.meanwhile)
    ensures IsOtherRun(w, events + [a], v, others + [b], known)
  {
    ShadowsStayAlike(w, events, v, others, known);
    LegalOnBoth(Run(w, events), Run(v, others), a, b, known);
    assert (events + [a])[..|events|] == events && (others + [b])[..|others|] == others;
  }

  lemma SupposedWorldIsOther(w: World, mode: string, known: Barrier, z: int)
    ensures OtherWorld(w, SupposedWorld(w, mode, known, z), known)
  {
  }

  lemma {:induction false} SupposedRunIsOther(w: World, events: seq<Event>, mode: string, known: Barrier, z: int)
    requires LegalRun(w, events)
    ensures var v := SupposedWorld(w, mode, known, z); IsOtherRun(w, events, v, SupposedEvents(v, events, known, z), known)
  {
    var v := SupposedWorld(w, mode, known, z);
    SupposedWorldIsOther(w, mode, known, z);
    if events != [] {
      var before, e := events[..|events| - 1], events[|events| - 1];
      assert events == before + [e];
      SupposedRunIsOther(w, before, mode, known, z);
      if e.Commanded? {
        SupposedReportsAreOther(e.meanwhile, known, z);
      }
      var others := SupposedEvents(v, before, known, z);
      ExtendedRun(w, before, v, others, e, SupposedEvent(e, Run(v, others).shadow, known, z), known);
    }
  }

  // ---- What it holds ----------------------------------------------------------------------------

  /** An argument that was not reported after the write is the number. */
  ghost predicate ShadowSupposes(t: Shadow, known: Barrier, z: int) {
    forall f :: IsArgument(f) && ObservedAt(t, f).Some? && !Beyond(t, f, Baseline(known, f)) ==> RawValue(t, f) == Int(z)
  }

  lemma {:induction false} ReportsSuppose(t: Shadow, reports: seq<Report>, known: Barrier, z: int)
    requires ShadowSupposes(t, known, z)
    ensures ShadowSupposes(AllReported(t, SupposedReports(reports, known, z)), known, z)
  {
    if reports != [] {
      ReportsSuppose(t, reports[..|reports| - 1], known, z);
      var others := SupposedReports(reports, known, z);
      assert others[..|others| - 1] == SupposedReports(reports[..|reports| - 1], known, z);
    }
  }

  lemma {:induction false} RunSupposes(w: World, events: seq<Event>, mode: string, known: Barrier, z: int)
    ensures var v := SupposedWorld(w, mode, known, z); ShadowSupposes(Run(v, SupposedEvents(v, events, known, z)).shadow, known, z)
  {
    var v := SupposedWorld(w, mode, known, z);
    if events != [] {
      var n := |events| - 1;
      RunSupposes(w, events[..n], mode, known, z);
      var before, others := SupposedEvents(v, events[..n], known, z), SupposedEvents(v, events, known, z);
      assert others[..|others| - 1] == before;
      if events[n].Commanded? {
        ReportsSuppose(Run(v, before).shadow, events[n].meanwhile, known, z);
      }
    }
  }

  predicate MemorySupposes(d: Device, modes: iset<string>, mode: string, z: int) {
    mode !in modes ==> Entry(d, mode) == SupposedEntry(mode, z)
  }

  lemma RememberSupposes(d: Device, a: Shadow, b: Shadow, now: int, fields: set<FieldName>, modes: iset<string>, mode: string, z: int)
    requires ModeField in fields && FanField in fields && SameTimes(a, b) && SameReports(a, b, fields) && 0 <= z <= 1
    requires var f := ArgumentField(RawValue(a, ModeField)); f !in fields && ObservedAt(b, f).Some? ==> RawValue(b, f) == Int(z)
    requires MemorySupposes(d, modes, mode, z)
    ensures MemorySupposes(Remember(d, b, now), TaughtModes(modes, a, fields, now), mode, z)
  {
    var f := ArgumentField(RawValue(a, ModeField));
    assert SameReport(a, b, ModeField) && SameReport(a, b, FanField);
    assert f in fields ==> SameReport(a, b, f);
    assert ObservedAt(a, f) == ObservedAt(b, f);
    RememberedEntry(d, b, now, mode);
  }

  /** A reading taken in the supposed run. */
  lemma ReadingSupposes(confirmed: Option<Confirmed>, s: Shadow, t: Shadow, known: Barrier, now: int, f: FieldName, z: int)
    requires OtherShadow(s, t, known) && ShadowSupposes(t, known, z) && IsArgument(f) && f !in CleanFields(confirmed, s, known, now)
    ensures var e := Effective(confirmed, t, now); ObservedAt(e, f).Some? ==> RawValue(e, f) == Int(z)
  {
    AllFieldsListed(f);
    PrunedSame(confirmed, s, t, now);
    assert ObservedAt(s, f) == ObservedAt(t, f);
  }

  lemma CommandSupposes(c: Device, d: Device, req: Request, s: Setting, t: Setting, modes: iset<string>, known: Barrier, mode: string, z: int)
    requires AlikeDevices(c, d, modes) && SameSurroundings(s, t) && OtherShadow(s.shadow, t.shadow, known) && 0 <= z <= 1
    requires FencedOrRereported(c, s.shadow, known) && IsCleanCommand(modes, c, req, s, known)
    requires ShadowSupposes(t.shadow, known, z) && MemorySupposes(d, modes, mode, z)
    ensures MemorySupposes(RunCommand(d, req, t).device, ModesAfterCommand(modes, c, req, s, known), mode, z)
  {
    StoppedSame(c, d, s, t, known);
    if !Stopped(c, s) {
      var a, b, fields := Effective(c.confirmed, s.shadow, s.now), Effective(d.confirmed, t.shadow, t.now), CleanFields(c.confirmed, s.shadow, known, s.now);
      ModeAndFanAreClean(c, s, known);
      EffectiveSame(c.confirmed, s.shadow, t.shadow, known, s.now);
      if ArgumentField(RawValue(a, ModeField)) !in fields {
        ReadingSupposes(c.confirmed, s.shadow, t.shadow, known, s.now, ArgumentField(RawValue(a, ModeField)), z);
      }
      RememberSupposes(d.(barrier := None, confirmed := Pruned(d.confirmed, t.shadow, t.now)), a, b, s.now, fields, modes, mode, z);
      OfferSame(c, d, req, s, t, modes, known);
      OfferedHasItsArgument(d, req, t);
      CommandFollowsItsOffer(d, req, t);
      FinishedEntry(Passing(d, t), Offered(d, req, t), t, mode);
    }
  }

  /** Up to the first command that is not clean, what is not known to come from after the write is the
      number, in the memory of a mode too. */
  lemma {:induction false} CleanRunSupposes(w: World, events: seq<Event>, mode: string, known: Barrier, z: int)
    requires LegalRun(w, events) && Fenced(w, known) && w.device.confirmed.None? && IsCleanRun(w, events, known) && 0 <= z <= 1
    ensures var v := SupposedWorld(w, mode, known, z);
      MemorySupposes(Run(v, SupposedEvents(v, events, known, z)).device, CleanModes(w, events, known), mode, z)
  {
    if events != [] {
      var v, before, e := SupposedWorld(w, mode, known, z), events[..|events| - 1], events[|events| - 1];
      var prefix := SupposedEvents(v, before, known, z);
      CleanRunSupposes(w, before, mode, known, z);
      SupposedLast(v, events, known, z);
      if e.Commanded? {
        SupposedCommand(w, before, e, mode, known, z);
      }
    }
  }

  lemma SupposedLast(v: World, events: seq<Event>, known: Barrier, z: int)
    requires events != []
    ensures var prefix := SupposedEvents(v, events[..|events| - 1], known, z);
      Run(v, SupposedEvents(v, events, known, z)) == Step(Run(v, prefix), SupposedEvent(events[|events| - 1], Run(v, prefix).shadow, known, z))
  {
    var prefix, others := SupposedEvents(v, events[..|events| - 1], known, z), SupposedEvents(v, events, known, z);
    assert others[..|others| - 1] == prefix;
  }

  lemma SupposedCommand(w: World, before: seq<Event>, e: Event, mode: string, known: Barrier, z: int)
    requires LegalRun(w, before) && Fenced(w, known) && w.device.confirmed.None? && IsCleanRun(w, before, known) && 0 <= z <= 1
    requires Legal(Run(w, before), e) && e.Commanded? && IsCleanCommand(CleanModes(w, before, known), Run(w, before).device, e.req, e.s, known)
    requires var v := SupposedWorld(w, mode, known, z);
      MemorySupposes(Run(v, SupposedEvents(v, before, known, z)).device, CleanModes(w, before, known), mode, z)
    ensures var v := SupposedWorld(w, mode, known, z);
      var other := Run(v, SupposedEvents(v, before, known, z));
      MemorySupposes(Step(other, SupposedEvent(e, other.shadow, known, z)).device,
                     ModesAfterCommand(CleanModes(w, before, known), Run(w, before).device, e.req, e.s, known), mode, z)
  {
    var v := SupposedWorld(w, mode, known, z);
    var prefix := SupposedEvents(v, before, known, z);
    SupposedRunIsOther(w, before, mode, known, z);
    CleanRunsAgree(w, before, v, prefix, known);
    ShadowsStayAlike(w, before, v, prefix, known);
    StaysFencedOrRereported(w, before, known);
    RunSupposes(w, before, mode, known, z);
    CommandSupposes(Run(w, before).device, Run(v, prefix).device, e.req, e.s, SupposedEvent(e, Run(v, prefix).shadow, known, z).s,
                    CleanModes(w, before, known), known, mode, z);
  }

  // ---- A command that is not clean --------------------------------------------------------------

  lemma UncleanOffer(c: Device, d: Device, req: Request, s: Setting, t: Setting, modes: iset<string>, known: Barrier, mode: string, z: int)
    requires AlikeDevices(c, d, modes) && SameSurroundings(s, t) && OtherShadow(s.shadow, t.shadow, known)
    requires FencedOrRereported(c, s.shadow, known) && !IsCleanCommand(modes, c, req, s, known)
    requires ShadowSupposes(t.shadow, known, z) && MemorySupposes(d, modes, mode, z)
    requires Destination(Effective(c.confirmed, s.shadow, s.now), req) == Text(mode)
    ensures Offered(d, req, t)
      == Supposing(c, Effective(c.confirmed, s.shadow, s.now), req, s.now, CleanFields(c.confirmed, s.shadow, known, s.now), modes, z)
  {
    StoppedSame(c, d, s, t, known);
    ModeAndFanAreClean(c, s, known);
    EffectiveSame(c.confirmed, s.shadow, t.shadow, known, s.now);
    var a, b, fields := Effective(c.confirmed, s.shadow, s.now), Effective(d.confirmed, t.shadow, t.now), CleanFields(c.confirmed, s.shadow, known, s.now);
    var f := ArgumentField(RawValue(a, ModeField));
    ComposesIff(SupposedMemory(c, Text(mode), modes, 0), SupposedReading(a, fields, 0), req, s.now);
    if f !in fields {
      ReadingSupposes(c.confirmed, s.shadow, t.shadow, known, s.now, f, z);
    }
    assert SameReport(a, b, ModeField) && SameReport(a, b, FanField);
    assert ObservedAt(a, f) == ObservedAt(b, f) && (f in fields ==> SameReport(a, b, f));
    SuppositionHolds(c, d, a, b, req, s.now, fields, modes, mode, z);
  }

  lemma SuppositionHolds(c: Device, d: Device, a: Shadow, b: Shadow, req: Request, now: int, fields: set<FieldName>, modes: iset<string>, mode: string, z: int)
    requires SameReport(a, b, ModeField) && SameReport(a, b, FanField) && Destination(a, req) == Text(mode)
    requires var f := ArgumentField(RawValue(a, ModeField));
      ObservedAt(a, f) == ObservedAt(b, f) && RawValue(b, f) == if f in fields then RawValue(a, f) else Int(z)
    requires SameMemory(c, d, modes) && MemorySupposes(d, modes, mode, z)
    ensures Compose(d, b, req, now) == Supposing(c, a, req, now, fields, modes, z)
  {
    var supposed, memory := SupposedReading(a, fields, z), SupposedMemory(c, Text(mode), modes, z);
    assert mode in modes ==> Entry(c, mode) == Entry(d, mode);
    assert Entry(d, mode) == Entry(memory, mode);
    assert ArgumentToSend(d, b, req) == ArgumentToSend(memory, supposed, req);
    SameInputsSameOffer(memory, supposed, req, now, d, b);
  }

  /** The same event on the other run's reports. */
  function Repeated(e: Event, shadow: Shadow): Event {
    if e.Commanded? then e.(s := e.s.(shadow := shadow, shadowAfter := AllReported(shadow, e.meanwhile))) else e
  }

  lemma {:induction false} SameReportsAreOther(reports: seq<Report>, known: Barrier)
    ensures OtherReports(reports, reports, known)
  {
    if reports != [] {
      SameReportsAreOther(reports[..|reports| - 1], known);
    }
  }

  /** A destination and a number for which an unclean command would compose something else. */
  lemma UncleanNumber(c: Device, req: Request, s: Setting, modes: iset<string>, known: Barrier) returns (mode: string, z: int)
    requires FencedOrRereported(c, s.shadow, known) && !IsCleanCommand(modes, c, req, s, known)
    ensures 0 <= z <= 1 && Destination(Effective(c.confirmed, s.shadow, s.now), req) == Text(mode)
    ensures Offered(c, req, s)
      != Supposing(c, Effective(c.confirmed, s.shadow, s.now), req, s.now, CleanFields(c.confirmed, s.shadow, known, s.now), modes, z)
  {
    var a, fields := Effective(c.confirmed, s.shadow, s.now), CleanFields(c.confirmed, s.shadow, known, s.now);
    ModeAndFanAreClean(c, s, known);
    SupposedDiffer(c, a, req, s.now, fields, modes);
    ComposesIff(SupposedMemory(c, Destination(a, req), modes, 0), SupposedReading(a, fields, 0), req, s.now);
    mode := Destination(a, req).text;
    z := if Supposing(c, a, req, s.now, fields, modes, 0) != Offered(c, req, s) then 0 else 1;
  }

  /** For the first command that is not clean, some other run composes something else, or nothing, or
      something where nothing was composed. */
  lemma UncleanCommandShows(w: World, before: seq<Event>, e: Event, known: Barrier) returns (v: World, others: seq<Event>)
    requires LegalRun(w, before) && Fenced(w, known) && w.device.confirmed.None? && IsCleanRun(w, before, known)
    requires Legal(Run(w, before), e) && e.Commanded? && !IsCleanCommand(CleanModes(w, before, known), Run(w, before).device, e.req, e.s, known)
    ensures IsOtherRun(w, before, v, others, known)
    ensures Offered(Run(v, others).device, e.req, Repeated(e, Run(v, others).shadow).s) != Offered(Run(w, before).device, e.req, e.s)
  {
    StaysFencedOrRereported(w, before, known);
    var mode, z := UncleanNumber(Run(w, before).device, e.req, e.s, CleanModes(w, before, known), known);
    v := SupposedWorld(w, mode, known, z);
    others := SupposedEvents(v, before, known, z);
    SupposedRunIsOther(w, before, mode, known, z);
    CleanRunsAgree(w, before, v, others, known);
    ShadowsStayAlike(w, before, v, others, known);
    RunSupposes(w, before, mode, known, z);
    CleanRunSupposes(w, before, mode, known, z);
    UncleanOffer(Run(w, before).device, Run(v, others).device, e.req, e.s, Repeated(e, Run(v, others).shadow).s, CleanModes(w, before, known), known, mode, z);
  }

  // ---- The whole run ----------------------------------------------------------------------------

  /** Every other run composes the same, command by command. */
  ghost predicate IsIndependent(w: World, events: seq<Event>, known: Barrier) {
    forall v, others :: IsOtherRun(w, events, v, others, known) ==> Offers(v, others) == Offers(w, events)
  }

  /** The other run goes on with the same event. */
  lemma RepeatedRun(w: World, events: seq<Event>, e: Event, v: World, others: seq<Event>, known: Barrier)
    requires LegalRun(w, events) && Legal(Run(w, events), e) && IsOtherRun(w, events, v, others, known)
    ensures IsOtherRun(w, events + [e], v, others + [Repeated(e, Run(v, others).shadow)], known)
  {
    if e.Commanded? {
      SameReportsAreOther(e.meanwhile, known);
    }
    ExtendedRun(w, events, v, others, e, Repeated(e, Run(v, others).shadow), known);
  }

  /** Going on keeps a difference. */
  lemma DifferenceStays(w: World, events: seq<Event>, e: Event, v: World, others: seq<Event>, b: Event)
    requires Offers(v, others) != Offers(w, events) && (e.Commanded? <==> b.Commanded?)
    ensures Offers(v, others + [b]) != Offers(w, events + [e])
  {
    OffersOfLonger(w, events, e);
    OffersOfLonger(v, others, b);
    if e.Commanded? && Offers(v, others + [b]) == Offers(w, events + [e]) {
      SameLast(Offers(w, events), Offered(Run(w, events).device, e.req, e.s), Offers(v, others), Offered(Run(v, others).device, b.req, b.s));
    }
  }

  lemma DifferenceShows(w: World, events: seq<Event>, e: Event, v: World, others: seq<Event>, b: Event)
    requires e.Commanded? && b.Commanded? && Offered(Run(v, others).device, b.req, b.s) != Offered(Run(w, events).device, e.req, e.s)
    ensures Offers(v, others + [b]) != Offers(w, events + [e])
  {
    OffersOfLonger(w, events, e);
    OffersOfLonger(v, others, b);
    if Offers(v, others + [b]) == Offers(w, events + [e]) {
      SameLast(Offers(w, events), Offered(Run(w, events).device, e.req, e.s), Offers(v, others), Offered(Run(v, others).device, b.req, b.s));
    }
  }

  /** In a run with a command that is not clean, some other run composes differently. */
  lemma {:induction false} UncleanShows(w: World, events: seq<Event>, known: Barrier) returns (v: World, others: seq<Event>)
    requires LegalRun(w, events) && Fenced(w, known) && w.device.confirmed.None? && !IsCleanRun(w, events, known)
    ensures IsOtherRun(w, events, v, others, known) && Offers(v, others) != Offers(w, events)
  {
    var before, e := events[..|events| - 1], events[|events| - 1];
    assert events == before + [e];
    var prefix;
    if IsCleanRun(w, before, known) {
      v, prefix := UncleanCommandShows(w, before, e, known);
      DifferenceShows(w, before, e, v, prefix, Repeated(e, Run(v, prefix).shadow));
    } else {
      v, prefix := UncleanShows(w, before, known);
      DifferenceStays(w, before, e, v, prefix, Repeated(e, Run(v, prefix).shadow));
    }
    RepeatedRun(w, before, e, v, prefix, known);
    others := prefix + [Repeated(e, Run(v, prefix).shadow)];
  }

  lemma OffersOfLonger(w: World, events: seq<Event>, e: Event)
    ensures Offers(w, events + [e]) == Offers(w, events) + if e.Commanded? then [Offered(Run(w, events).device, e.req, e.s)] else []
  {
    assert (events + [e])[..|events|] == events;
  }

  lemma SameLast<T>(a: seq<T>, x: T, b: seq<T>, y: T)
    requires a + [x] == b + [y]
    ensures a == b && x == y
  {
    assert a == (a + [x])[..|a|] && b == (b + [y])[..|b|];
    assert x == (a + [x])[|a|] && y == (b + [y])[|b|];
  }

  /** In any run from a cloud write on, every command composes the same whatever was known at the write
      if and only if every command is clean: stopped, or settled by what was reported, confirmed,
      offered or remembered after the write.  It then sends the same too. */
  lemma AfterTheWrite(w: World, events: seq<Event>, known: Barrier)
    requires LegalRun(w, events) && Fenced(w, known) && w.device.confirmed.None?
    ensures IsIndependent(w, events, known) <==> IsCleanRun(w, events, known)
    ensures IsCleanRun(w, events, known) ==>
      forall v, others :: IsOtherRun(w, events, v, others, known) ==> Run(v, others).frames == Run(w, events).frames
  {
    if IsCleanRun(w, events, known) {
      forall v, others | IsOtherRun(w, events, v, others, known)
        ensures Offers(v, others) == Offers(w, events) && Run(v, others).frames == Run(w, events).frames
      {
        CleanRunsAgree(w, events, v, others, known);
      }
    } else {
      var v, others := UncleanShows(w, events, known);
    }
  }
}
