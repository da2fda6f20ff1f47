/** Where the arguments of frames come from, and how confirmed commands build on each other, over
    whole runs (local_control_router.py). */
module TupleProvenance {
  import opened Wrappers
  import opened ClimateFrame
  import opened TupleRouter
  import opened TupleRuns

  /** A Celsius reading of a mode: not taken in AUTO, and not the placeholder shown under power fan. */
  predicate CelsiusReading(r: Reading, mode: string, halves: int) {
    r.mode == Text(mode) && mode != "auto" && r.fan != Text("power") && HalvesOf(r.argument) == Some(halves)
  }

  predicate ComfortReading(r: Reading, step: int) {
    r.mode == Text("auto") && r.fan != Text("power") && r.argument == Int(step) && -2 <= step <= 2
  }

  ghost predicate SeenCelsius(seen: seq<Reading>, mode: string, halves: int) {
    exists i :: 0 <= i < |seen| && CelsiusReading(seen[i], mode, halves)
  }

  ghost predicate SeenComfort(seen: seq<Reading>, step: int) {
    exists i :: 0 <= i < |seen| && ComfortReading(seen[i], step)
  }

  /** Every remembered argument was read, or confirmed, at an earlier command of the run. */
  ghost predicate Remembered(d: Device, seen: seq<Reading>) {
    && (forall mode :: mode in d.targets ==> SeenCelsius(seen, mode, d.targets[mode]))
    && (d.comfort.Some? ==> SeenComfort(seen, d.comfort.value))
  }

  lemma SeenGrows(seen: seq<Reading>, more: seq<Reading>)
    ensures forall mode, halves :: SeenCelsius(seen, mode, halves) ==> SeenCelsius(seen + more, mode, halves)
    ensures forall step :: SeenComfort(seen, step) ==> SeenComfort(seen + more, step)
  {
    forall mode, halves | SeenCelsius(seen, mode, halves) ensures SeenCelsius(seen + more, mode, halves) {
      var i :| 0 <= i < |seen| && CelsiusReading(seen[i], mode, halves);
      assert (seen + more)[i] == seen[i];
    }
    forall step | SeenComfort(seen, step) ensures SeenComfort(seen + more, step) {
      var i :| 0 <= i < |seen| && ComfortReading(seen[i], step);
      assert (seen + more)[i] == seen[i];
    }
  }

  lemma RememberingIsReading(d: Device, shadow: Shadow, now: int, seen: seq<Reading>)
    requires Remembered(d, seen)
    ensures Remembered(Remember(d, shadow, now), seen + [ReadingOf(shadow)])
  {
    var r := ReadingOf(shadow);
    SeenGrows(seen, [r]);
    assert (seen + [r])[|seen|] == r;
    var d' := Remember(d, shadow, now);
    forall mode | mode in d'.targets ensures SeenCelsius(seen + [r], mode, d'.targets[mode]) {
      if mode !in d.targets || d'.targets[mode] != d.targets[mode] {
        assert CelsiusReading((seen + [r])[|seen|], mode, d'.targets[mode]);
      }
    }
    if d'.comfort.Some? && d'.comfort != d.comfort {
      assert ComfortReading((seen + [r])[|seen|], d'.comfort.value);
    }
  }

  lemma ConfirmingIsReading(d: Device, f: Frame, at: int, seen: seq<Reading>)
    requires Remembered(d, seen) && (f.mode == "auto" <==> f.argument.Comfort?) && (f.argument.Comfort? ==> -2 <= f.argument.step <= 2)
    ensures Remembered(Confirm(d, f, at), seen + [ReadingOfFrame(f)])
  {
    var r := ReadingOfFrame(f);
    SeenGrows(seen, [r]);
    assert (seen + [r])[|seen|] == r;
    var d' := Confirm(d, f, at);
    forall mode | mode in d'.targets ensures SeenCelsius(seen + [r], mode, d'.targets[mode]) {
      if mode !in d.targets || d'.targets[mode] != d.targets[mode] {
        assert CelsiusReading((seen + [r])[|seen|], mode, d'.targets[mode]);
      }
    }
    if d'.comfort.Some? && d'.comfort != d.comfort {
      assert ComfortReading((seen + [r])[|seen|], d'.comfort.value);
    }
  }

  /** The Celsius argument of a frame was asked for, or offered by the caller as the retained target,
      or is the one the command reads now, or was read at an earlier command under the mode the frame
      sets; in both readings in an ordinary mode with the fan not on power. */
  ghost predicate SourcedTarget(c: Composed, req: Request, current: Reading, seen: seq<Reading>) {
    c.frame.argument.Target? ==>
      var halves := c.frame.argument.halves;
      || req.target == Some(halves)
      || req.retainedTarget == Some(halves)
      || CelsiusReading(current, c.expected.mode, halves)
      || SeenCelsius(seen, c.frame.mode, halves)
  }

  /** Likewise for the comfort step of an AUTO frame. */
  ghost predicate SourcedComfort(c: Composed, req: Request, current: Reading, seen: seq<Reading>) {
    c.frame.argument.Comfort? ==>
      var step := c.frame.argument.step;
      -2 <= step <= 2 && c.frame.mode == "auto" &&
      (req.comfort == Some(step) || req.retainedComfort == Some(step) || ComfortReading(current, step) || SeenComfort(seen, step))
  }

  ghost predicate Sourced(c: Composed, req: Request, current: Reading, seen: seq<Reading>) {
    SourcedTarget(c, req, current, seen) && SourcedComfort(c, req, current, seen)
  }

  lemma ComposedIsSourced(d: Device, shadow: Shadow, req: Request, now: int, seen: seq<Reading>)
    requires Remembered(d, seen) && Compose(d, shadow, req, now).Some?
    ensures var c := Compose(d, shadow, req, now).value;
            && Sourced(c, req, ReadingOf(shadow), seen)
            && (c.frame.mode == "auto" <==> c.frame.argument.Comfort?)
            && (PreservesTarget(c.frame.mode) ==> c.frame.argument == c.expected.argument)
            && (c.frame.fan == "power" ==> c.frame.mode == "cool")
  {
    FrameIsSafe(shadow, WithMemory(d, shadow, req), now);
  }

  /** One command: its memory stays grounded in readings, and the frame it sends in the reading of now
      and those before it. */
  lemma CommandIsSourced(d: Device, req: Request, s: Setting, seen: seq<Reading>)
    requires Remembered(d, seen)
    ensures var o := RunCommand(d, req, s);
            && Remembered(o.device, seen + Readings(d, req, s))
            && (o.sent.Some? ==> Sourced(o.sent.value, req, ReadingOf(Effective(d.confirmed, s.shadow, s.now)), seen))
  {
    if Stopped(d, s) {
      assert seen + Readings(d, req, s) == seen;
    } else {
      var shadow := Effective(d.confirmed, s.shadow, s.now);
      var d1 := d.(barrier := None, confirmed := Pruned(d.confirmed, s.shadow, s.now));
      var o := AttemptIsSourced(d1, shadow, req, s, seen);
      var taught := if o.answer == Served(true) && o.sent.Some? then [ReadingOfFrame(o.sent.value.frame)] else [];
      assert seen + Readings(d, req, s) == seen + [ReadingOf(shadow)] + taught;
    }
  }

  lemma AttemptIsSourced(d: Device, shadow: Shadow, req: Request, s: Setting, seen: seq<Reading>) returns (o: Outcome)
    requires Remembered(d, seen)
    ensures o == Attempted(d, shadow, req, s)
    ensures Remembered(o.device, seen + [ReadingOf(shadow)] + (if o.answer == Served(true) && o.sent.Some? then [ReadingOfFrame(o.sent.value.frame)] else []))
    ensures o.sent.Some? ==> Sourced(o.sent.value, req, ReadingOf(shadow), seen)
  {
    o := Attempted(d, shadow, req, s);
    var r := seen + [ReadingOf(shadow)];
    RememberingIsReading(d, shadow, s.now, seen);
    var d' := Remember(d, shadow, s.now);
    var c := Compose(d', shadow, req, s.now);
    if c.None? {
      assert r + [] == r;
    } else {
      ComposedIsSourced(d', shadow, req, s.now, r);
      CurrentIsNotMemory(c.value, req, ReadingOf(shadow), seen);
      ConcludedIsRemembered(d', c.value, s, r);
    }
  }

  /** A reading of now found in the memory is the current one. */
  lemma CurrentIsNotMemory(c: Composed, req: Request, current: Reading, seen: seq<Reading>)
    requires Sourced(c, req, current, seen + [current]) && current.mode == Text(c.expected.mode)
    ensures Sourced(c, req, current, seen)
  {
    match c.frame.argument
    case Target(halves) =>
      if SeenCelsius(seen + [current], c.frame.mode, halves) {
        var i :| 0 <= i <= |seen| && CelsiusReading((seen + [current])[i], c.frame.mode, halves);
        assert i < |seen| ==> CelsiusReading(seen[i], c.frame.mode, halves);
      }
    case Comfort(step) =>
      if SeenComfort(seen + [current], step) {
        var i :| 0 <= i <= |seen| && ComfortReading((seen + [current])[i], step);
        assert i < |seen| ==> ComfortReading(seen[i], step);
      }
  }

  lemma ConcludedIsRemembered(d: Device, c: Composed, s: Setting, seen: seq<Reading>)
    requires Remembered(d, seen) && (c.frame.mode == "auto" <==> c.frame.argument.Comfort?)
    requires c.frame.argument.Comfort? ==> -2 <= c.frame.argument.step <= 2
    ensures var o := Concluded(d, c, s);
            Remembered(o.device, seen + (if o.answer == Served(true) && o.sent.Some? then [ReadingOfFrame(o.sent.value.frame)] else []))
  {
    if s.disposition == Accepted(true) {
      ConfirmingIsReading(d, c.frame, s.after, seen);
    } else {
      assert seen + [] == seen;
    }
  }

  /** Whatever a run remembers was read earlier in that run. */
  lemma {:induction false} MemoryIsGrounded(shadow: Shadow, clock: int, events: seq<Event>)
    requires LegalRun(Start(shadow, clock), events)
    ensures Remembered(Run(Start(shadow, clock), events).device, Run(Start(shadow, clock), events).seen)
  {
    if events != [] {
      var before := events[..|events| - 1];
      var e := events[|events| - 1];
      MemoryIsGrounded(shadow, clock, before);
      var w := Run(Start(shadow, clock), before);
      if e.Commanded? {
        CommandIsSourced(w.device, e.req, e.s, w.seen);
      }
    }
  }

  /** No frame of any run carries a placeholder: each argument sent has a legitimate source. */
  lemma {:induction false} EveryFrameIsSourced(shadow: Shadow, clock: int, events: seq<Event>, e: Event)
    requires LegalRun(Start(shadow, clock), events) && Legal(Run(Start(shadow, clock), events), e) && e.Commanded?
    ensures var w := Run(Start(shadow, clock), events);
            var o := RunCommand(w.device, e.req, e.s);
            o.sent.Some? ==> Sourced(o.sent.value, e.req, ReadingOf(Effective(w.device.confirmed, w.shadow, e.s.now)), w.seen)
  {
    MemoryIsGrounded(shadow, clock, events);
    var w := Run(Start(shadow, clock), events);
    CommandIsSourced(w.device, e.req, e.s, w.seen);
  }

  // ---- Confirmed commands compose ---------------------------------------------------------------

  /** No report has come in since the last confirmation. */
  predicate Unreported(w: World) {
    w.latest.Some? && forall f :: f in w.latest.value.fields ==> !Overtaken(w.shadow, f, w.latest.value.at)
  }

  predicate SetsUp(f: Frame, e: Frame) {
    e.mode == f.mode && e.fan == f.fan && (f.fan != "power" ==> e.argument == f.argument)
  }

  predicate WellTyped(f: Frame) {
    (f.mode == "auto" <==> f.argument.Comfort?) && (f.argument.Comfort? ==> -2 <= f.argument.step <= 2)
  }

  /** Until the appliance reports again, the next command starts from exactly what the last confirmed
      one set, whatever the retained shadow says. */
  lemma {:induction false} StartsFromTheConfirmed(w: World, e: Event, f: Frame, at: int)
    requires Invariant(w) && Legal(w, e) && e.Commanded? && WellTyped(f)
    requires w.latest == Some(Confirmed(ConfirmedFields(f), at)) && Unreported(w)
    ensures var o := RunCommand(w.device, e.req, e.s);
            o.sent.Some? ==> SetsUp(f, o.sent.value.expected)
  {
    var d, s := w.device, e.s;
    if RunCommand(d, e.req, s).sent.Some? {
      SentIsComposed(d, e.req, s);
      var d1 := d.(barrier := None, confirmed := Pruned(d.confirmed, s.shadow, s.now));
      var effective, newest := Effective(d.confirmed, w.shadow, s.now), Newest(w.latest, w.shadow);
      OverlayIsNewestWins(d.confirmed, w.latest, w.shadow, w.clock, s.now);
      AgeRespected(Remember(d1, effective, s.now), effective, newest, e.req, s.now);
      NewestIsTheFrame(w.shadow, f, at, s.now);
    }
  }

  lemma SentIsComposed(d: Device, req: Request, s: Setting)
    requires RunCommand(d, req, s).sent.Some?
    ensures var effective := Effective(d.confirmed, s.shadow, s.now);
            var d1 := d.(barrier := None, confirmed := Pruned(d.confirmed, s.shadow, s.now));
            RunCommand(d, req, s).sent == Compose(Remember(d1, effective, s.now), effective, req, s.now)
  {
  }

  lemma NewestIsTheFrame(shadow: Shadow, f: Frame, at: int, now: int)
    requires WellTyped(f)
    requires forall g :: g in ConfirmedFields(f) ==> !Overtaken(shadow, g, at)
    ensures var newest := Newest(Some(Confirmed(ConfirmedFields(f), at)), shadow);
            ClimateExpectedState(newest, now).Some? ==> SetsUp(f, ClimateExpectedState(newest, now).value)
  {
    var fields := ConfirmedFields(f);
    assert Remaining(Confirmed(fields, at), shadow) == fields;
    var newest := Newest(Some(Confirmed(fields, at)), shadow);
    assert RawValue(newest, ModeField) == Text(f.mode) && RawValue(newest, FanField) == Text(f.fan);
  }

  function LastNamed(initial: string, names: seq<Option<string>>): string {
    if names == [] then initial
    else
      var last := names[|names| - 1];
      if last.Some? then last.value else LastNamed(initial, names[..|names| - 1])
  }

  function ModesNamed(events: seq<Event>): seq<Option<string>> {
    if events == [] then []
    else ModesNamed(events[..|events| - 1]) + [if events[|events| - 1].Commanded? then events[|events| - 1].req.mode else None]
  }

  function FansNamed(events: seq<Event>): seq<Option<string>> {
    if events == [] then []
    else FansNamed(events[..|events| - 1]) + [if events[|events| - 1].Commanded? then events[|events| - 1].req.fan else None]
  }

  /** Every event is a confirmed command and nothing is reported meanwhile. */
  predicate QuietlyConfirmed(w: World, events: seq<Event>) {
    events != [] ==>
      var before := events[..|events| - 1];
      var e := events[|events| - 1];
      && QuietlyConfirmed(w, before)
      && e.Commanded? && e.meanwhile == []
      && var o := RunCommand(Run(w, before).device, e.req, e.s);
         o.answer == Served(true) && o.sent.Some?
  }

  ghost predicate Holds(w: World, f: Frame) {
    Invariant(w) && WellTyped(f) && Unreported(w) && w.latest.value.fields == ConfirmedFields(f)
  }

  lemma {:induction false} ConfirmedCommandHolds(w: World, e: Event, f: Frame) returns (g: Frame)
    requires Holds(w, f) && Legal(w, e) && e.Commanded? && e.meanwhile == []
    requires var o := RunCommand(w.device, e.req, e.s); o.answer == Served(true) && o.sent.Some?
    requires forall h :: ObservedAt(w.shadow, h).Some? ==> ObservedAt(w.shadow, h).value < w.clock
    ensures Holds(Step(w, e), g) && g == RunCommand(w.device, e.req, e.s).sent.value.frame
    ensures g.mode == (if e.req.mode.Some? then e.req.mode.value else f.mode)
    ensures g.fan == (if e.req.fan.Some? then e.req.fan.value else f.fan)
  {
    var o := RunCommand(w.device, e.req, e.s);
    g := o.sent.value.frame;
    StartsFromTheConfirmed(w, e, f, w.latest.value.at);
    StepKeepsInvariant(w, e);
    var shadow := Effective(w.device.confirmed, e.s.shadow, e.s.now);
    var d := Remember(w.device.(barrier := None, confirmed := Pruned(w.device.confirmed, e.s.shadow, e.s.now)), shadow, e.s.now);
    SentIsComposed(w.device, e.req, e.s);
    UnnamedPartsAreKept(d, shadow, e.req, e.s.now, f);
  }

  /** What a command does not name comes from the state it starts from. */
  lemma UnnamedPartsAreKept(d: Device, shadow: Shadow, req: Request, now: int, f: Frame)
    requires Compose(d, shadow, req, now).Some? && SetsUp(f, Compose(d, shadow, req, now).value.expected)
    ensures var g := Compose(d, shadow, req, now).value.frame;
            && WellTyped(g)
            && g.mode == (if req.mode.Some? then req.mode.value else f.mode)
            && g.fan == (if req.fan.Some? then req.fan.value else f.fan)
  {
    FrameIsSafe(shadow, WithMemory(d, shadow, req), now);
    NoLostUpdate(shadow, WithMemory(d, shadow, req), now);
  }

  /** A run of confirmed commands without a report adds up: the last frame's mode and fan are the
      latest ones any of them named, and the ones before the run where none was named. */
  lemma {:induction false} ConfirmedCommandsCompose(w: World, events: seq<Event>, f: Frame) returns (g: Frame)
    requires Holds(w, f) && LegalRun(w, events) && QuietlyConfirmed(w, events)
    requires forall h :: ObservedAt(w.shadow, h).Some? ==> ObservedAt(w.shadow, h).value < w.clock
    ensures Holds(Run(w, events), g) && Run(w, events).shadow == w.shadow && w.clock <= Run(w, events).clock
    ensures g.mode == LastNamed(f.mode, ModesNamed(events)) && g.fan == LastNamed(f.fan, FansNamed(events))
    ensures events != [] ==> Run(w, events).frames != [] && Run(w, events).frames[|Run(w, events).frames| - 1].frame == g
  {
    if events == [] {
      g := f;
    } else {
      var before := events[..|events| - 1];
      var e := events[|events| - 1];
      var g' := ConfirmedCommandsCompose(w, before, f);
      g := ConfirmedCommandHolds(Run(w, before), e, g');
      ConfirmedStep(Run(w, before), e);
      NamesGrow(events, f);
    }
  }

  /** Without a report meanwhile a confirmed command changes neither the shadow nor sets back the clock. */
  lemma ConfirmedStep(w: World, e: Event)
    requires Legal(w, e) && e.Commanded? && e.meanwhile == [] && RunCommand(w.device, e.req, e.s).sent.Some?
    ensures Step(w, e).shadow == w.shadow && w.clock <= Step(w, e).clock
    ensures Step(w, e).frames == w.frames + [RunCommand(w.device, e.req, e.s).sent.value]
  {
  }

  lemma NamesGrow(events: seq<Event>, f: Frame)
    requires events != [] && events[|events| - 1].Commanded?
    ensures var before, req := events[..|events| - 1], events[|events| - 1].req;
            && LastNamed(f.mode, ModesNamed(events)) == (if req.mode.Some? then req.mode.value else LastNamed(f.mode, ModesNamed(before)))
            && LastNamed(f.fan, FansNamed(events)) == (if req.fan.Some? then req.fan.value else LastNamed(f.fan, FansNamed(before)))
  {
    assert ModesNamed(events)[..|ModesNamed(events)| - 1] == ModesNamed(events[..|events| - 1]);
    assert FansNamed(events)[..|FansNamed(events)| - 1] == FansNamed(events[..|events| - 1]);
  }
}
