/** Two runs from one cloud write on that differ only in what was known at the write
    (local_control_router.py).

    They have the same fence, the same observation times and the same events.  An observation not later
    than the write may hold any other value, usable or not, and the memory may be any other: more
    entries, fewer, or others.  As long as every command is clean, the two runs stay equal in all that
    matters, and compose the same. */
module TupleTwoRuns {
  import opened Wrappers
  import opened ClimateFrame
  import opened TupleRouter
  import opened TupleRuns
  import opened TupleFence
  import opened TupleOneCommand

  // ---- What is known to come from after the write -----------------------------------------------

  /** The fields reported strictly later than what was known at the write. */
  function LaterFields(shadow: Shadow, known: Barrier): set<FieldName> {
    set f | f in ALL_FIELDS && Beyond(shadow, f, Baseline(known, f))
  }

  /** And those that a confirmed command holds. */
  function CleanFields(confirmed: Option<Confirmed>, shadow: Shadow, known: Barrier, now: int): set<FieldName> {
    var left := Pruned(confirmed, shadow, now);
    LaterFields(shadow, known) + if left.Some? then left.value.fields.Keys else {}
  }

  function ModesAfterCommand(modes: iset<string>, d: Device, req: Request, s: Setting, known: Barrier): iset<string> {
    if Stopped(d, s) then modes
    else
      var taught := TaughtModes(modes, Effective(d.confirmed, s.shadow, s.now), CleanFields(d.confirmed, s.shadow, known, s.now), s.now);
      ConfirmedModes(taught, Offered(d, req, s), s)
  }

  /** The modes whose remembered argument comes from after the write; at the write there are none. */
  function CleanModes(w: World, events: seq<Event>, known: Barrier): iset<string> {
    if events == [] then iset{}
    else
      var b, e := Run(w, events[..|events| - 1]), events[|events| - 1];
      var modes := CleanModes(w, events[..|events| - 1], known);
      if e.Commanded? then ModesAfterCommand(modes, b.device, e.req, e.s, known) else modes
  }

  /** A command that the fence or the surroundings stop, or that is settled by what comes from after
      the write. */
  predicate IsCleanCommand(modes: iset<string>, d: Device, req: Request, s: Setting, known: Barrier) {
    Stopped(d, s) || IsSettled(d, Effective(d.confirmed, s.shadow, s.now), req, s.now, CleanFields(d.confirmed, s.shadow, known, s.now), modes)
  }

  predicate IsCleanRun(w: World, events: seq<Event>, known: Barrier) {
    events != [] ==>
      var before, e := events[..|events| - 1], events[|events| - 1];
      IsCleanRun(w, before, known) && (e.Commanded? ==> IsCleanCommand(CleanModes(w, before, known), Run(w, before).device, e.req, e.s, known))
  }

  /** What each command of a run composed, if anything. */
  function Offers(w: World, events: seq<Event>): seq<Option<Composed>> {
    if events == [] then []
    else
      var e := events[|events| - 1];
      Offers(w, events[..|events| - 1]) + if e.Commanded? then [Offered(Run(w, events[..|events| - 1]).device, e.req, e.s)] else []
  }

  // ---- The other runs ---------------------------------------------------------------------------

  predicate OtherReport(a: Report, b: Report, known: Barrier) {
    && a.field == b.field && a.at == b.at
    && ((Baseline(known, a.field).Some? ==> a.at > Baseline(known, a.field).value) ==> a.value == b.value)
  }

  predicate OtherReports(a: seq<Report>, b: seq<Report>, known: Barrier) {
    && |a| == |b|
    && (a != [] ==> OtherReports(a[..|a| - 1], b[..|b| - 1], known) && OtherReport(a[|a| - 1], b[|b| - 1], known))
  }

  predicate OtherEvent(a: Event, b: Event, known: Barrier) {
    match a
    case Arrived(report) => b.Arrived? && OtherReport(report, b.report, known)
    case CloudWritten => b.CloudWritten?
    case Commanded(req, s, meanwhile) =>
      b.Commanded? && b.req == req && SameSurroundings(s, b.s) && OtherReports(meanwhile, b.meanwhile, known)
  }

  predicate OtherEvents(a: seq<Event>, b: seq<Event>, known: Barrier) {
    && |a| == |b|
    && (a != [] ==> OtherEvents(a[..|a| - 1], b[..|b| - 1], known) && OtherEvent(a[|a| - 1], b[|b| - 1], known))
  }

  ghost predicate OtherShadow(s: Shadow, t: Shadow, known: Barrier) {
    SameTimes(s, t) && SameReports(s, t, LaterFields(s, known))
  }

  /** The same world but for what was known at the write. */
  ghost predicate OtherWorld(w: World, v: World, known: Barrier) {
    && OtherShadow(w.shadow, v.shadow, known)
    && v == w.(shadow := v.shadow, device := w.device.(targets := v.device.targets, comfort := v.device.comfort))
  }

  ghost predicate IsOtherRun(w: World, events: seq<Event>, v: World, others: seq<Event>, known: Barrier) {
    OtherWorld(w, v, known) && LegalRun(v, others) && OtherEvents(events, others, known)
  }

  // ---- Reports ----------------------------------------------------------------------------------

  lemma ReportOnBoth(s: Shadow, t: Shadow, a: Report, b: Report, known: Barrier)
    requires OtherShadow(s, t, known) && OtherReport(a, b, known)
    ensures OtherShadow(Reported(s, a), Reported(t, b), known)
  {
    forall f ensures ObservedAt(Reported(s, a), f) == ObservedAt(Reported(t, b), f) {
      assert ObservedAt(s, f) == ObservedAt(t, f);
    }
    forall f | f in LaterFields(Reported(s, a), known) ensures SameReport(Reported(s, a), Reported(t, b), f) {
      assert f != a.field ==> f in LaterFields(s, known) && SameReport(s, t, f);
    }
  }

  lemma {:induction false} ReportsOnBoth(s: Shadow, t: Shadow, a: seq<Report>, b: seq<Report>, known: Barrier)
    requires OtherShadow(s, t, known) && OtherReports(a, b, known)
    ensures OtherShadow(AllReported(s, a), AllReported(t, b), known)
    ensures AllInOrder(s, a) == AllInOrder(t, b)
  {
    if a != [] {
      var n := |a| - 1;
      ReportsOnBoth(s, t, a[..n], b[..n], known);
      ReportOnBoth(AllReported(s, a[..n]), AllReported(t, b[..n]), a[n], b[n], known);
      assert ObservedAt(AllReported(s, a[..n]), a[n].field) == ObservedAt(AllReported(t, b[..n]), a[n].field);
    }
  }

  /** Whatever the commands do, the reports and the clock stay alike. */
  lemma {:induction false} ShadowsStayAlike(w: World, events: seq<Event>, v: World, others: seq<Event>, known: Barrier)
    requires LegalRun(w, events) && IsOtherRun(w, events, v, others, known)
    ensures OtherShadow(Run(w, events).shadow, Run(v, others).shadow, known) && Run(w, events).clock == Run(v, others).clock
  {
    if events != [] {
      var n := |events| - 1;
      ShadowsStayAlike(w, events[..n], v, others[..n], known);
      var s, t := Run(w, events[..n]).shadow, Run(v, others[..n]).shadow;
      match events[n]
      case Arrived(report) => ReportOnBoth(s, t, report, others[n].report, known);
      case CloudWritten =>
      case Commanded(_, _, meanwhile) => ReportsOnBoth(s, t, meanwhile, others[n].meanwhile, known);
    }
  }

  // ---- One command in two runs ------------------------------------------------------------------

  /** Nothing has been composed since the write, or mode and fan have been reported after it. */
  ghost predicate FencedOrRereported(d: Device, shadow: Shadow, known: Barrier) {
    Rereported(shadow, known) || (d.barrier.Some? && AtLeast(d.barrier.value, known) && d.confirmed.None?)
  }

  ghost predicate AlikeDevices(c: Device, d: Device, modes: iset<string>) {
    c.barrier == d.barrier && c.confirmed == d.confirmed && SameMemory(c, d, modes)
  }

  lemma BlocksSame(barrier: Barrier, s: Shadow, t: Shadow, known: Barrier)
    requires OtherShadow(s, t, known) && (Rereported(s, known) || AtLeast(barrier, known))
    ensures Blocks(barrier, s) == Blocks(barrier, t)
  {
    AllFieldsListed(ModeField);
    assert ObservedAt(s, ModeField) == ObservedAt(t, ModeField);
    if Beyond(s, ModeField, Baseline(known, ModeField)) {
      assert ModeField in LaterFields(s, known) && SameReport(s, t, ModeField);
      BlockedBySame(barrier, s, t);
      BlockedBySame(barrier, t, s);
    } else {
      assert NotBefore(Baseline(barrier, ModeField), Baseline(known, ModeField));
      assert !Beyond(s, ModeField, Baseline(barrier, ModeField)) && !Beyond(t, ModeField, Baseline(barrier, ModeField));
    }
  }

  lemma BlockedBySame(barrier: Barrier, s: Shadow, t: Shadow)
    requires SameTimes(s, t) && RawValue(s, ModeField) == RawValue(t, ModeField)
    ensures Blocks(barrier, s) ==> Blocks(barrier, t)
  {
    if Blocks(barrier, s) {
      var f :| f in ALL_FIELDS && InVariant(RawValue(s, ModeField), f) && !Beyond(s, f, if f in barrier then barrier[f] else None);
      assert ObservedAt(s, f) == ObservedAt(t, f);
    }
  }

  lemma StoppedSame(c: Device, d: Device, s: Setting, t: Setting, known: Barrier)
    requires OtherShadow(s.shadow, t.shadow, known) && FencedOrRereported(c, s.shadow, known) && SameSurroundings(s, t)
    requires c.barrier == d.barrier
    ensures Stopped(c, s) == Stopped(d, t)
  {
    if c.barrier.Some? {
      BlocksSame(c.barrier.value, s.shadow, t.shadow, known);
    }
  }

  lemma PrunedSame(confirmed: Option<Confirmed>, s: Shadow, t: Shadow, now: int)
    requires SameTimes(s, t)
    ensures Pruned(confirmed, s, now) == Pruned(confirmed, t, now)
  {
    if confirmed.Some? {
      forall f ensures Overtaken(s, f, confirmed.value.at) == Overtaken(t, f, confirmed.value.at) {
        assert ObservedAt(s, f) == ObservedAt(t, f);
      }
      assert Remaining(confirmed.value, s) == Remaining(confirmed.value, t);
    }
  }

  lemma EffectiveSame(confirmed: Option<Confirmed>, s: Shadow, t: Shadow, known: Barrier, now: int)
    requires OtherShadow(s, t, known)
    ensures SameTimes(Effective(confirmed, s, now), Effective(confirmed, t, now))
    ensures SameReports(Effective(confirmed, s, now), Effective(confirmed, t, now), CleanFields(confirmed, s, known, now))
  {
    PrunedSame(confirmed, s, t, now);
    forall f ensures ObservedAt(Effective(confirmed, s, now), f) == ObservedAt(Effective(confirmed, t, now), f) {
      assert ObservedAt(s, f) == ObservedAt(t, f);
    }
    forall f | f in CleanFields(confirmed, s, known, now)
      ensures SameReport(Effective(confirmed, s, now), Effective(confirmed, t, now), f)
    {
      assert f in LaterFields(s, known) ==> SameReport(s, t, f);
    }
  }

  lemma MarkedSame(c: Device, d: Device, s: Shadow, t: Shadow, modes: iset<string>)
    requires SameTimes(s, t) && AlikeDevices(c, d, modes)
    ensures AlikeDevices(Marked(c, s), Marked(d, t), modes)
  {
    forall f | f in ALL_FIELDS ensures Known(c, s, f) == Known(d, t, f) {
      assert ObservedAt(s, f) == ObservedAt(t, f);
    }
    assert Marked(c, s).barrier.value == Marked(d, t).barrier.value;
    forall mode | mode in modes ensures Entry(Marked(c, s), mode) == Entry(Marked(d, t), mode) {
      assert Entry(c, mode) == Entry(d, mode);
    }
  }

  lemma FinishedSame(c: Device, d: Device, x: Option<Composed>, s: Setting, t: Setting, modes: iset<string>)
    requires AlikeDevices(c, d, modes) && SameSurroundings(s, t) && SameTimes(s.shadow, t.shadow) && SameTimes(s.shadowAfter, t.shadowAfter)
    requires x.Some? ==> HasItsArgument(x.value.frame)
    ensures AlikeDevices(Finished(c, x, s).device, Finished(d, x, t).device, ConfirmedModes(modes, x, s))
    ensures Finished(c, x, s).answer == Finished(d, x, t).answer && Finished(c, x, s).sent == Finished(d, x, t).sent
  {
    FinishedMemory(c, d, x, s, t, modes);
    if x.None? {
      MarkedSame(c, d, s.shadow, t.shadow, modes);
    } else {
      MarkedSame(c, d, s.shadowAfter, t.shadowAfter, modes);
    }
  }

  lemma ModeAndFanAreClean(d: Device, s: Setting, known: Barrier)
    requires FencedOrRereported(d, s.shadow, known) && !Stopped(d, s)
    ensures ModeField in CleanFields(d.confirmed, s.shadow, known, s.now) && FanField in CleanFields(d.confirmed, s.shadow, known, s.now)
    ensures Rereported(s.shadow, known)
  {
    AllFieldsListed(ModeField);
    AllFieldsListed(FanField);
    if !Rereported(s.shadow, known) {
      NotBlockedIsPassed(d.barrier.value, s.shadow, known);
    }
  }

  lemma OfferSame(c: Device, d: Device, req: Request, s: Setting, t: Setting, modes: iset<string>, known: Barrier)
    requires AlikeDevices(c, d, modes) && OtherShadow(s.shadow, t.shadow, known) && SameSurroundings(s, t)
    requires FencedOrRereported(c, s.shadow, known) && IsCleanCommand(modes, c, req, s, known)
    ensures Offered(c, req, s) == Offered(d, req, t)
  {
    StoppedSame(c, d, s, t, known);
    if !Stopped(c, s) {
      ModeAndFanAreClean(c, s, known);
      EffectiveSame(c.confirmed, s.shadow, t.shadow, known, s.now);
      SettledIsSame(c, Effective(c.confirmed, s.shadow, s.now), req, s.now, CleanFields(c.confirmed, s.shadow, known, s.now), modes,
                    d, Effective(d.confirmed, t.shadow, t.now));
    }
  }

  lemma PassingSame(c: Device, d: Device, s: Setting, t: Setting, modes: iset<string>, known: Barrier)
    requires AlikeDevices(c, d, modes) && OtherShadow(s.shadow, t.shadow, known) && SameSurroundings(s, t)
    requires FencedOrRereported(c, s.shadow, known) && !Stopped(c, s)
    ensures AlikeDevices(Passing(c, s), Passing(d, t),
                         TaughtModes(modes, Effective(c.confirmed, s.shadow, s.now), CleanFields(c.confirmed, s.shadow, known, s.now), s.now))
  {
    var c', d' := c.(barrier := None, confirmed := Pruned(c.confirmed, s.shadow, s.now)), d.(barrier := None, confirmed := Pruned(d.confirmed, t.shadow, t.now));
    assert SameMemory(c', d', modes) by {
      forall mode | mode in modes ensures Entry(c', mode) == Entry(d', mode) {
        assert Entry(c, mode) == Entry(d, mode);
      }
    }
    ModeAndFanAreClean(c, s, known);
    EffectiveSame(c.confirmed, s.shadow, t.shadow, known, s.now);
    PrunedSame(c.confirmed, s.shadow, t.shadow, s.now);
    RememberSame(c', d', Effective(c.confirmed, s.shadow, s.now), Effective(d.confirmed, t.shadow, t.now), s.now,
                 CleanFields(c.confirmed, s.shadow, known, s.now), modes);
    RememberKeepsFence(c', Effective(c.confirmed, s.shadow, s.now), s.now);
    RememberKeepsFence(d', Effective(d.confirmed, t.shadow, t.now), t.now);
  }

  lemma RememberKeepsFence(d: Device, shadow: Shadow, now: int)
    ensures Remember(d, shadow, now).barrier == d.barrier && Remember(d, shadow, now).confirmed == d.confirmed
  {
  }

  lemma CommandSame(c: Device, d: Device, req: Request, s: Setting, t: Setting, modes: iset<string>, known: Barrier)
    requires AlikeDevices(c, d, modes) && SameSurroundings(s, t)
    requires OtherShadow(s.shadow, t.shadow, known) && OtherShadow(s.shadowAfter, t.shadowAfter, known)
    requires FencedOrRereported(c, s.shadow, known) && IsCleanCommand(modes, c, req, s, known)
    ensures var x, y := RunCommand(c, req, s), RunCommand(d, req, t);
      AlikeDevices(x.device, y.device, ModesAfterCommand(modes, c, req, s, known)) && x.answer == y.answer && x.sent == y.sent
  {
    StoppedSame(c, d, s, t, known);
    if Stopped(c, s) {
      MarkedSame(c, d, s.shadow, t.shadow, modes);
    } else {
      OfferSame(c, d, req, s, t, modes, known);
      PassingSame(c, d, s, t, modes, known);
      CommandFollowsItsOffer(c, req, s);
      CommandFollowsItsOffer(d, req, t);
      OfferedHasItsArgument(c, req, s);
      FinishedSame(Passing(c, s), Passing(d, t), Offered(c, req, s), s, t,
                   TaughtModes(modes, Effective(c.confirmed, s.shadow, s.now), CleanFields(c.confirmed, s.shadow, known, s.now), s.now));
    }
  }

  // ---- The two runs -----------------------------------------------------------------------------

  lemma StepFencedOrRereported(w: World, e: Event, known: Barrier)
    requires Legal(w, e) && FencedOrRereported(w.device, w.shadow, known)
    ensures FencedOrRereported(Step(w, e).device, Step(w, e).shadow, known)
  {
    StepAdvances(w, e);
    if Rereported(w.shadow, known) {
      RereportedStays(w, e, known);
    } else if e.CloudWritten? {
      MarkingKeepsFence(w.device, w.shadow, known);
    } else if e.Commanded? {
      MarkingKeepsFence(w.device, w.shadow, known);
      if !Stopped(w.device, e.s) {
        ModeAndFanAreClean(w.device, e.s, known);
      }
    }
  }

  lemma {:induction false} StaysFencedOrRereported(w: World, events: seq<Event>, known: Barrier)
    requires LegalRun(w, events) && FencedOrRereported(w.device, w.shadow, known)
    ensures FencedOrRereported(Run(w, events).device, Run(w, events).shadow, known)
  {
    if events != [] {
      StaysFencedOrRereported(w, events[..|events| - 1], known);
      StepFencedOrRereported(Run(w, events[..|events| - 1]), events[|events| - 1], known);
    }
  }

  lemma StepSame(w: World, v: World, a: Event, b: Event, modes: iset<string>, known: Barrier)
    requires Legal(w, a) && Legal(v, b) && OtherEvent(a, b, known)
    requires AlikeDevices(w.device, v.device, modes) && OtherShadow(w.shadow, v.shadow, known) && w.frames == v.frames
    requires FencedOrRereported(w.device, w.shadow, known) && (a.Commanded? ==> IsCleanCommand(modes, w.device, a.req, a.s, known))
    ensures AlikeDevices(Step(w, a).device, Step(v, b).device, if a.Commanded? then ModesAfterCommand(modes, w.device, a.req, a.s, known) else modes)
    ensures Step(w, a).frames == Step(v, b).frames
    ensures a.Commanded? ==> Offered(w.device, a.req, a.s) == Offered(v.device, b.req, b.s)
  {
    match a
    case Arrived(_) =>
    case CloudWritten => MarkedSame(w.device, v.device, w.shadow, v.shadow, modes);
    case Commanded(req, s, meanwhile) =>
      ReportsOnBoth(w.shadow, v.shadow, meanwhile, b.meanwhile, known);
      OfferSame(w.device, v.device, req, s, b.s, modes, known);
      CommandSame(w.device, v.device, req, s, b.s, modes, known);
  }

  /** While its commands are clean, a run and any other one keep the same fence, the same confirmed
      command and the same memory of the clean modes; they compose and send the same. */
  lemma {:induction false} CleanRunsAgree(w: World, events: seq<Event>, v: World, others: seq<Event>, known: Barrier)
    requires LegalRun(w, events) && Fenced(w, known) && w.device.confirmed.None? && IsCleanRun(w, events, known)
    requires IsOtherRun(w, events, v, others, known)
    ensures AlikeDevices(Run(w, events).device, Run(v, others).device, CleanModes(w, events, known))
    ensures Offers(w, events) == Offers(v, others) && Run(w, events).frames == Run(v, others).frames
  {
    if events != [] {
      var n := |events| - 1;
      CleanRunsAgree(w, events[..n], v, others[..n], known);
      ShadowsStayAlike(w, events[..n], v, others[..n], known);
      StaysFencedOrRereported(w, events[..n], known);
      StepSame(Run(w, events[..n]), Run(v, others[..n]), events[n], others[n], CleanModes(w, events[..n], known), known);
    }
  }

  /** After a clean run, whatever the next command is: what it composes in two runs differs in the
      argument at most, if it composes in both. */
  lemma ModeAndFanAfterTheWrite(w: World, events: seq<Event>, v: World, others: seq<Event>, known: Barrier, req: Request, s: Setting, t: Setting)
    requires LegalRun(w, events) && Fenced(w, known) && w.device.confirmed.None? && IsCleanRun(w, events, known)
    requires IsOtherRun(w, events, v, others, known) && SameSurroundings(s, t)
    requires s.shadow == Run(w, events).shadow && t.shadow == Run(v, others).shadow
    ensures var x, y := Offered(Run(w, events).device, req, s), Offered(Run(v, others).device, req, t);
      x.Some? && y.Some? ==>
        && x.value.frame.mode == y.value.frame.mode && x.value.frame.fan == y.value.frame.fan
        && x.value.expected.mode == y.value.expected.mode && x.value.expected.fan == y.value.expected.fan
  {
    var c, d := Run(w, events).device, Run(v, others).device;
    CleanRunsAgree(w, events, v, others, known);
    ShadowsStayAlike(w, events, v, others, known);
    StaysFencedOrRereported(w, events, known);
    if Offered(c, req, s).Some? && Offered(d, req, t).Some? {
      ModeAndFanAreClean(c, s, known);
      EffectiveSame(c.confirmed, s.shadow, t.shadow, known, s.now);
      SameModeAndFan(c, Effective(c.confirmed, s.shadow, s.now), req, s.now, CleanFields(c.confirmed, s.shadow, known, s.now),
                     d, Effective(d.confirmed, t.shadow, t.now));
    }
  }
}
