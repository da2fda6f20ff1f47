/** Which commands a run with another past changes, exactly (local_control_router.py).

    The run without a past has seen nothing usable up to the instant and remembers nothing. */
module TupleNoPast {
  import opened Wrappers
  import opened ClimateFrame
  import opened TupleRouter
  import opened TupleRuns
  import opened TupleFence
  import opened TupleOneCommand
  import opened TupleForgets

  function NoPast(w: World, since: int): World {
    w.(shadow := map f | f in ALL_FIELDS :: Field(Junk, Some(since)), device := Device(None, None, map[], None))
  }

  function BareReport(r: Report, since: int): Report {
    if r.at <= since then Report(r.field, Junk, since) else r
  }

  function BareReports(reports: seq<Report>, since: int): seq<Report> {
    if reports == [] then [] else BareReports(reports[..|reports| - 1], since) + [BareReport(reports[|reports| - 1], since)]
  }

  function BareEvent(e: Event, shadow: Shadow, since: int): Event {
    match e
    case Arrived(report) => Arrived(BareReport(report, since))
    case CloudWritten => e
    case Commanded(req, s, meanwhile) =>
      var others := BareReports(meanwhile, since);
      Commanded(req, s.(shadow := shadow, shadowAfter := AllReported(shadow, others)), others)
  }

  function BareEvents(v: World, events: seq<Event>, since: int): seq<Event> {
    if events == [] then []
    else
      var before := BareEvents(v, events[..|events| - 1], since);
      before + [BareEvent(events[|events| - 1], Run(v, before).shadow, since)]
  }

  // ---- It is a twin -----------------------------------------------------------------------------

  predicate BareField(t: Shadow, f: FieldName, since: int) {
    ObservedAt(t, f).Some? && (IsPast(ObservedAt(t, f), since) ==> ObservedAt(t, f).value == since && RawValue(t, f) == Junk)
  }

  /** Whatever was not reported after the instant is unusable. */
  ghost predicate BareShadow(t: Shadow, since: int) {
    forall f :: BareField(t, f, since)
  }

  lemma BareReportInOrder(s: Shadow, t: Shadow, r: Report, since: int)
    requires TwinShadows(s, t, since) && BareShadow(t, since) && InOrder(s, r)
    ensures var b := BareReport(r, since); InOrder(t, b) && TwinReport(r, b, since) && BareShadow(Reported(t, b), since)
  {
    assert TwinField(s, t, r.field, since) && BareField(t, r.field, since);
    forall f ensures BareField(Reported(t, BareReport(r, since)), f, since) {
      assert BareField(t, f, since);
    }
  }

  lemma {:induction false} BareReportsInOrder(s: Shadow, t: Shadow, reports: seq<Report>, since: int)
    requires TwinShadows(s, t, since) && BareShadow(t, since) && AllInOrder(s, reports)
    ensures var others := BareReports(reports, since);
      && AllInOrder(t, others) && TwinReports(reports, others, since)
      && BareShadow(AllReported(t, others), since) && TwinShadows(AllReported(s, reports), AllReported(t, others), since)
  {
    if reports != [] {
      var n, others := |reports| - 1, BareReports(reports, since);
      BareReportsInOrder(s, t, reports[..n], since);
      assert others[..|others| - 1] == BareReports(reports[..n], since);
      BareReportInOrder(AllReported(s, reports[..n]), AllReported(t, BareReports(reports[..n], since)), reports[n], since);
      ReportsOnTwins(s, t, reports, others, since);
    }
  }

  lemma BareEventIsLegal(w: World, v: World, e: Event, since: int)
    requires Legal(w, e) && TwinShadows(w.shadow, v.shadow, since) && BareShadow(v.shadow, since) && w.clock == v.clock
    ensures var b := BareEvent(e, v.shadow, since);
      && Legal(v, b) && TwinEvent(e, b, since) && BareShadow(Step(v, b).shadow, since)
      && TwinShadows(Step(w, e).shadow, Step(v, b).shadow, since) && Step(w, e).clock == Step(v, b).clock
  {
    match e
    case Arrived(report) =>
      BareReportInOrder(w.shadow, v.shadow, report, since);
      ReportOnTwins(w.shadow, v.shadow, report, BareReport(report, since), since);
    case CloudWritten =>
    case Commanded(_, _, meanwhile) => BareReportsInOrder(w.shadow, v.shadow, meanwhile, since);
  }

  lemma {:induction false} BareRunIsTwin(w: World, events: seq<Event>, since: int)
    requires IsPastWorld(w, since) && LegalRun(w, events)
    ensures var v := NoPast(w, since);
      var others := BareEvents(v, events, since);
      && IsTwin(events, v, others, since) && BareShadow(Run(v, others).shadow, since)
      && TwinShadows(Run(w, events).shadow, Run(v, others).shadow, since) && Run(w, events).clock == Run(v, others).clock
  {
    var v := NoPast(w, since);
    if events == [] {
      NoPastIsPast(w, since);
    } else {
      var n := |events| - 1;
      BareRunIsTwin(w, events[..n], since);
      var before, others := BareEvents(v, events[..n], since), BareEvents(v, events, since);
      assert others[..|others| - 1] == before;
      BareEventIsLegal(Run(w, events[..n]), Run(v, before), events[n], since);
    }
  }

  lemma NoPastIsPast(w: World, since: int)
    requires IsPastWorld(w, since)
    ensures var v := NoPast(w, since); IsPastWorld(v, since) && BareShadow(v.shadow, since) && TwinShadows(w.shadow, v.shadow, since)
  {
    forall f ensures BareField(NoPast(w, since).shadow, f, since) && TwinField(w.shadow, NoPast(w, since).shadow, f, since) {
      AllFieldsListed(f);
    }
  }

  // ---- What it remembers and reads --------------------------------------------------------------

  ghost predicate BareMemory(d: Device, modes: iset<string>) {
    forall mode :: mode !in modes ==> Entry(d, mode).None?
  }

  lemma CommandStaysBare(c: Device, d: Device, req: Request, s: Setting, t: Setting, modes: iset<string>, since: int)
    requires TwinDevices(c, d, modes, since) && TwinShadows(s.shadow, t.shadow, since) && SameSurroundings(s, t)
    requires IsSureCommand(modes, c, req, s, since) && BareMemory(d, modes)
    ensures BareMemory(RunCommand(d, req, t).device, SureModesAfter(modes, c, req, s, since))
  {
    StoppedTwins(c, d, req, s, t, modes, since);
    var later := SureModesAfter(modes, c, req, s, since);
    forall mode | mode !in later ensures Entry(RunCommand(d, req, t).device, mode).None? {
      if Stopped(c, s) {
        assert Entry(d, mode).None?;
      } else {
        EntryStaysBare(c, d, req, s, t, modes, mode, since);
      }
    }
  }

  /** A mode that a reading teaches is one of the sure modes. */
  lemma ReadingStaysBare(d: Device, shadow: Shadow, other: Shadow, now: int, modes: iset<string>, mode: string, since: int)
    requires var fields := FieldsSince(shadow, since);
      && ModeField in fields && FanField in fields && ArgumentField(RawValue(shadow, ModeField)) in fields && SameReports(other, shadow, fields)
      && mode !in TaughtModes(modes, shadow, fields, now)
    requires Entry(d, mode).None?
    ensures Entry(Remember(d, other, now), mode).None?
  {
    var f := ArgumentField(RawValue(shadow, ModeField));
    assert SameReport(other, shadow, ModeField) && SameReport(other, shadow, FanField) && SameReport(other, shadow, f);
    RememberedEntry(d, other, now, mode);
  }

  lemma EntryStaysBare(c: Device, d: Device, req: Request, s: Setting, t: Setting, modes: iset<string>, mode: string, since: int)
    requires TwinDevices(c, d, modes, since) && TwinShadows(s.shadow, t.shadow, since) && SameSurroundings(s, t)
    requires IsSureCommand(modes, c, req, s, since) && !Stopped(c, s) && !Stopped(d, t) && BareMemory(d, modes)
    requires mode !in SureModesAfter(modes, c, req, s, since)
    ensures Entry(RunCommand(d, req, t).device, mode).None?
  {
    var shadow, other := Effective(c.confirmed, s.shadow, s.now), Effective(d.confirmed, t.shadow, t.now);
    var taught := TaughtModes(modes, shadow, FieldsSince(shadow, since), s.now);
    assert mode !in taught;
    if mode in modes {
      TeachingKeepsModes(modes, shadow, FieldsSince(shadow, since), s.now, mode);
    }
    assert Entry(d, mode).None?;
    EffectiveTwins(c, d, s.shadow, t.shadow, s.now, since);
    ReadingStaysBare(d.(barrier := None, confirmed := Pruned(d.confirmed, t.shadow, t.now)), shadow, other, s.now, modes, mode, since);
    OfferTwins(c, d, req, s, t, modes, since);
    OfferedHasItsArgument(d, req, t);
    CommandFollowsItsOffer(d, req, t);
    FinishedEntry(Passing(d, t), Offered(d, req, t), t, mode);
  }

  lemma TeachingKeepsModes(modes: iset<string>, shadow: Shadow, fields: set<FieldName>, now: int, mode: string)
    requires ArgumentField(RawValue(shadow, ModeField)) in fields && mode in modes
    ensures mode in TaughtModes(modes, shadow, fields, now)
  {
  }

  lemma {:induction false} RunStaysBare(w: World, events: seq<Event>, since: int)
    requires IsPastWorld(w, since) && LegalRun(w, events) && IsSureRun(w, events, since)
    ensures var v := NoPast(w, since); BareMemory(Run(v, BareEvents(v, events, since)).device, SureModes(w, events, since))
  {
    var v := NoPast(w, since);
    if events != [] {
      var n := |events| - 1;
      RunStaysBare(w, events[..n], since);
      BareRunIsTwin(w, events[..n], since);
      var before, others := BareEvents(v, events[..n], since), BareEvents(v, events, since);
      assert others[..|others| - 1] == before;
      ForgetsThePast(w, events[..n], v, before, since);
      if events[n].Commanded? {
        CommandStaysBare(Run(w, events[..n]).device, Run(v, before).device, events[n].req, events[n].s, others[|others| - 1].s,
                         SureModes(w, events[..n], since), since);
      }
    }
  }

  lemma BareReading(d: Device, t: Shadow, now: int, f: FieldName, since: int)
    requires BareShadow(t, since) && f !in FieldsSince(Effective(d.confirmed, t, now), since)
    ensures RawValue(Effective(d.confirmed, t, now), f) == Junk
  {
    AllFieldsListed(f);
    assert BareField(t, f, since);
  }

  /** A command that is not sure composes nothing without a past. */
  lemma UnsureComposesNothing(c: Device, d: Device, req: Request, s: Setting, t: Setting, modes: iset<string>, since: int)
    requires TwinDevices(c, d, modes, since) && TwinShadows(s.shadow, t.shadow, since) && SameSurroundings(s, t)
    requires !IsSureCommand(modes, c, req, s, since) && BareShadow(t.shadow, since) && BareMemory(d, modes)
    ensures Offered(d, req, t).None?
  {
    var shadow, other := Effective(c.confirmed, s.shadow, s.now), Effective(d.confirmed, t.shadow, t.now);
    SameFieldsSince(c, d, s.shadow, t.shadow, s.now, since);
    ComposesIff(d, other, req, t.now);
    var f := ArgumentField(RawValue(other, ModeField));
    if ModeField !in FieldsSince(other, since) {
      BareReading(d, t.shadow, t.now, ModeField, since);
    } else if FanField !in FieldsSince(other, since) {
      BareReading(d, t.shadow, t.now, FanField, since);
    } else if f !in FieldsSince(other, since) {
      BareReading(d, t.shadow, t.now, f, since);
    } else {
      assert SameReport(other, shadow, ModeField) && SameReport(other, shadow, FanField);
      assert NeedsRetained(other, req) && !IsOffered(other, req);
      assert Destination(other, req).Text? ==> Entry(d, Destination(other, req).text).None?;
    }
  }

  lemma SameFieldsSince(c: Device, d: Device, s: Shadow, t: Shadow, now: int, since: int)
    requires TwinShadows(s, t, since) && TwinOverlays(c, d, since)
    ensures FieldsSince(Effective(c.confirmed, s, now), since) == FieldsSince(Effective(d.confirmed, t, now), since)
    ensures SameReports(Effective(d.confirmed, t, now), Effective(c.confirmed, s, now), FieldsSince(Effective(c.confirmed, s, now), since))
  {
    EffectiveTwins(c, d, s, t, now, since);
    assert TwinShadows(t, s, since) by {
      forall f ensures TwinField(t, s, f, since) {
        assert TwinField(s, t, f, since);
      }
    }
    EffectiveTwins(d, c, t, s, now, since);
    forall f ensures f in FieldsSince(Effective(c.confirmed, s, now), since) <==> f in FieldsSince(Effective(d.confirmed, t, now), since) {
      var a, b := Effective(c.confirmed, s, now), Effective(d.confirmed, t, now);
      assert f in FieldsSince(a, since) ==> SameReport(b, a, f);
      assert f in FieldsSince(b, since) ==> SameReport(a, b, f);
    }
  }

  // ---- Exactly the sure commands ----------------------------------------------------------------

  /** The command composes the same after any past. */
  ghost predicate AnyPastComposes(w: World, events: seq<Event>, req: Request, s: Setting, since: int) {
    forall v, others, t ::
      IsTwin(events, v, others, since) && SameSurroundings(s, t) && t.shadow == Run(v, others).shadow ==>
        Offered(Run(v, others).device, req, t) == Offered(Run(w, events).device, req, s)
  }

  /** After sure commands, a command that composes a frame composes it after any past if and only if it
      is sure. */
  lemma ForgottenIff(w: World, events: seq<Event>, req: Request, s: Setting, since: int)
    requires IsPastWorld(w, since) && LegalRun(w, events) && IsSureRun(w, events, since)
    requires s.shadow == Run(w, events).shadow && Offered(Run(w, events).device, req, s).Some?
    ensures AnyPastComposes(w, events, req, s, since) <==> IsSureCommand(SureModes(w, events, since), Run(w, events).device, req, s, since)
  {
    if IsSureCommand(SureModes(w, events, since), Run(w, events).device, req, s, since) {
      forall v, others, t | IsTwin(events, v, others, since) && SameSurroundings(s, t) && t.shadow == Run(v, others).shadow
        ensures Offered(Run(v, others).device, req, t) == Offered(Run(w, events).device, req, s)
      {
        ForgetsThePast(w, events, v, others, since);
        OfferTwins(Run(w, events).device, Run(v, others).device, req, s, t, SureModes(w, events, since), since);
      }
    } else {
      var v := NoPast(w, since);
      var others := BareEvents(v, events, since);
      var t := s.(shadow := Run(v, others).shadow);
      BareRunIsTwin(w, events, since);
      ForgetsThePast(w, events, v, others, since);
      RunStaysBare(w, events, since);
      UnsureComposesNothing(Run(w, events).device, Run(v, others).device, req, s, t, SureModes(w, events, since), since);
    }
  }
}
