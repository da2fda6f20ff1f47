/** Runs in which commands after a cloud write still depend on what was known before it
    (local_control_router.py). */
module TupleAfterWrite {
  import opened Wrappers
  import opened ClimateFrame
  import opened TupleRouter
  import opened TupleFence
  import opened TupleOneCommand

  const ToCool := Request(Some("cool"), None, None, None, None, None)

  /** The reports at the write: cooling. */
  function Before(halves: int, step: int): Shadow {
    ShadowOf("cool", 0, "low", 0, halves, 0, step, 0)
  }

  /** After it the appliance reports AUTO anew, fan and comfort step included; the target is as old as
      `targetAt`. */
  function AutoAgain(halves: int, targetAt: int, step: int): Shadow {
    ShadowOf("auto", 2, "low", 2, halves, targetAt, step, 2)
  }

  /** The overlay of a confirmed command to cooling. */
  function CoolingAt3(halves: int): Confirmed {
    Confirmed(ConfirmedFields(Frame("cool", "low", Target(halves))), 3)
  }

  // ---- Steps of these runs ----------------------------------------------------------------------

  lemma AutoLiftsTheFence(d: Device, halves: int, step: int)
    requires d.barrier.None? && d.confirmed.None?
    ensures var fenced := Marked(d, Before(halves, step));
      !Blocks(fenced.barrier.value, AutoAgain(halves, 0, step)) && Baseline(fenced.barrier.value, TargetField) == Some(0)
  {
    AllFieldsListed(TargetField);
    var fenced := Marked(d, Before(halves, step));
    forall f | InVariant(Text("auto"), f) ensures Beyond(AutoAgain(halves, 0, step), f, Baseline(fenced.barrier.value, f)) {
      AllFieldsListed(f);
    }
  }

  lemma SendsItsOffer(d: Device, req: Request, s: Setting)
    requires !Stopped(d, s) && s.disposition.Accepted?
    ensures RunCommand(d, req, s).sent == Offered(d, req, s)
  {
    CommandFollowsItsOffer(d, req, s);
  }

  /** From AUTO a command to cooling sends the remembered cooling target, if there is one. */
  lemma GoesToCooling(d: Device, halves: int, step: int, confirmed: bool)
    requires -2 <= step <= 2 && d.confirmed.None? && (d.barrier.Some? ==> !Blocks(d.barrier.value, AutoAgain(halves, 0, step)))
    ensures var o := RunCommand(d, ToCool, PlainSetting(AutoAgain(halves, 0, step), 3, Accepted(confirmed)));
      if Entry(d, "cool").Some? then o.sent.Some? && o.sent.value.frame == Frame("cool", "low", Target(Entry(d, "cool").value))
      else o.sent.None?
  {
    var shadow := AutoAgain(halves, 0, step);
    SendsItsOffer(d, ToCool, PlainSetting(shadow, 3, Accepted(confirmed)));
    ComposesIff(d, shadow, ToCool, 3);
    if Compose(d, shadow, ToCool, 3).Some? {
      WhatIsComposed(d, shadow, ToCool, 3);
    }
  }

  /** What such a command leaves: the overlay of a confirmed frame, or nothing. */
  lemma AfterGoingToCooling(d: Device, halves: int, step: int)
    requires -2 <= step <= 2 && d.confirmed.None? && (d.barrier.Some? ==> !Blocks(d.barrier.value, AutoAgain(halves, 0, step)))
    ensures var later := RunCommand(d, ToCool, PlainSetting(AutoAgain(halves, 0, step), 3, Accepted(true))).device;
      && later.barrier.None?
      && later.confirmed ==
        if Entry(d, "cool").Some? then Some(CoolingAt3(Entry(d, "cool").value)) else None
  {
    var s := PlainSetting(AutoAgain(halves, 0, step), 3, Accepted(true));
    GoesToCooling(d, halves, step, true);
    SendsItsOffer(d, ToCool, s);
    CommandFollowsItsOffer(d, ToCool, s);
  }

  /** A command that changes the fan restates what it reads. */
  lemma FanIsChanged(d: Device, s: Setting, mode: string, argument: Argument)
    requires d.barrier.None? && s.enabled && s.available && s.fieldsReady && s.disposition.Accepted?
    requires var shadow := Effective(d.confirmed, s.shadow, s.now);
      && IsReadable(shadow, s.now) && RawValue(shadow, ModeField) == Text(mode) && RawValue(shadow, FanField) == Text("low")
      && ReadArgument(Text(mode), RawValue(shadow, ArgumentField(Text(mode)))) == Some(argument) && !PreservesTarget(mode)
    ensures var o := RunCommand(d, ChangeFan, s); o.sent.Some? && o.sent.value.frame == Frame(mode, "high", argument)
  {
    var shadow := Effective(d.confirmed, s.shadow, s.now);
    SendsItsOffer(d, ChangeFan, s);
    ComposesIff(d, shadow, ChangeFan, s.now);
    WhatIsComposed(d, shadow, ChangeFan, s.now);
  }

  lemma ReadThroughOverlay(c: Confirmed, shadow: Shadow, now: int, f: FieldName)
    requires !Expired(c, now) && f in c.fields
    ensures var e := Effective(Some(c), shadow, now);
      if Overtaken(shadow, f, c.at) then SameReport(e, shadow, f) else RawValue(e, f) == c.fields[f] && ObservedAt(e, f) == Some(c.at)
  {
    if !Overtaken(shadow, f, c.at) {
      assert f in Remaining(c, shadow);
    }
  }

  /** With the confirmed cooling command laid over AUTO, cooling is read, with the newer target. */
  lemma CoolingIsRead(old_: int, halves: int, targetAt: int, step: int, now: int)
    requires 0 <= targetAt <= now && 3 <= now <= 9
    ensures var shadow := Effective(Some(CoolingAt3(old_)), AutoAgain(halves, targetAt, step), now);
      && IsReadable(shadow, now) && RawValue(shadow, ModeField) == Text("cool") && RawValue(shadow, FanField) == Text("low")
      && ReadArgument(Text("cool"), RawValue(shadow, TargetField)) == Some(Target(if targetAt >= 3 then halves else old_))
  {
    var shadow := AutoAgain(halves, targetAt, step);
    ReadThroughOverlay(CoolingAt3(old_), shadow, now, ModeField);
    ReadThroughOverlay(CoolingAt3(old_), shadow, now, FanField);
    ReadThroughOverlay(CoolingAt3(old_), shadow, now, TargetField);
  }

  lemma CoolingGoesOn(d: Device, old_: int, halves: int, targetAt: int, step: int, now: int)
    requires d.barrier.None? && d.confirmed == Some(CoolingAt3(old_)) && 0 <= targetAt <= now && 3 <= now <= 9
    ensures var o := RunCommand(d, ChangeFan, PlainSetting(AutoAgain(halves, targetAt, step), now, Accepted(false)));
      o.sent.Some? && o.sent.value.frame == Frame("cool", "high", Target(if targetAt >= 3 then halves else old_))
  {
    CoolingIsRead(old_, halves, targetAt, step, now);
    FanIsChanged(d, PlainSetting(AutoAgain(halves, targetAt, step), now, Accepted(false)), "cool", Target(if targetAt >= 3 then halves else old_));
  }

  lemma AutoGoesOn(d: Device, halves: int, targetAt: int, step: int, now: int)
    requires d.barrier.None? && d.confirmed.None? && -2 <= step <= 2 && 2 <= now <= 9
    ensures var o := RunCommand(d, ChangeFan, PlainSetting(AutoAgain(halves, targetAt, step), now, Accepted(false)));
      o.sent.Some? && o.sent.value.frame == Frame("auto", "high", Comfort(step))
  {
    FanIsChanged(d, PlainSetting(AutoAgain(halves, targetAt, step), now, Accepted(false)), "auto", Comfort(step));
  }

  /** The first command after the write. */
  lemma FirstToCooling(d: Device, halves: int, step: int)
    requires d.barrier.None? && d.confirmed.None? && -2 <= step <= 2
    ensures var o := RunCommand(Marked(d, Before(halves, step)), ToCool, PlainSetting(AutoAgain(halves, 0, step), 3, Accepted(true)));
      && o.device.barrier.None?
      && match Entry(d, "cool")
         case None => o.sent.None? && o.device.confirmed.None?
         case Some(target) =>
           && o.sent.Some? && o.sent.value.frame == Frame("cool", "low", Target(target))
           && o.device.confirmed == Some(CoolingAt3(target))
  {
    var fenced := Marked(d, Before(halves, step));
    AutoLiftsTheFence(d, halves, step);
    assert Entry(fenced, "cool") == Entry(d, "cool");
    GoesToCooling(fenced, halves, step, true);
    AfterGoingToCooling(fenced, halves, step);
  }

  // ---- Three runs -------------------------------------------------------------------------------

  /** A cloud write leaves the memory alone.  A command in cooling remembers its target; after a cloud
      write the appliance reports AUTO anew, which lifts the fence; a command back to cooling then sends
      the target from before the write, not reported since. */
  lemma RememberedArgumentMayPredateTheFence(halves: int, step: int)
    requires -2 <= step <= 2
    ensures var taught := RunCommand(Device(None, None, map[], None), ChangeFan, PlainSetting(Before(halves, step), 1, Accepted(false)));
            var fenced := Marked(taught.device, Before(halves, step));
            var next := RunCommand(fenced, ToCool, PlainSetting(AutoAgain(halves, 0, step), 3, Accepted(false)));
            && taught.device.barrier.None? && taught.device.confirmed.None?
            && Baseline(fenced.barrier.value, TargetField) == Some(0) && ObservedAt(AutoAgain(halves, 0, step), TargetField) == Some(0)
            && next.sent.Some? && next.sent.value.frame == Frame("cool", "low", Target(halves))
  {
    CoolingTeaches(halves, step);
    var taught := RunCommand(Device(None, None, map[], None), ChangeFan, PlainSetting(Before(halves, step), 1, Accepted(false)));
    AutoLiftsTheFence(taught.device, halves, step);
    GoesToCooling(Marked(taught.device, Before(halves, step)), halves, step, false);
  }

  lemma CoolingTeaches(halves: int, step: int)
    ensures var taught := RunCommand(Device(None, None, map[], None), ChangeFan, PlainSetting(Before(halves, step), 1, Accepted(false)));
            taught.device == Device(None, None, map["cool" := halves], None)
  {
  }

  /** That the appliance confirms such a command does not make the target any newer: the next command
      restates it. */
  lemma ConfirmedOldArgumentIsSentAgain(halves: int, step: int)
    requires -2 <= step <= 2
    ensures var fenced := Marked(Device(None, None, map["cool" := halves], None), Before(halves, step));
            var confirmed := RunCommand(fenced, ToCool, PlainSetting(AutoAgain(halves, 0, step), 3, Accepted(true)));
            var next := RunCommand(confirmed.device, ChangeFan, PlainSetting(AutoAgain(halves, 0, step), 4, Accepted(false)));
            && confirmed.sent.Some? && confirmed.sent.value.frame == Frame("cool", "low", Target(halves))
            && next.sent.Some? && next.sent.value.frame == Frame("cool", "high", Target(halves))
            && ObservedAt(AutoAgain(halves, 0, step), TargetField) == Baseline(fenced.barrier.value, TargetField)
  {
    var d := Device(None, None, map["cool" := halves], None);
    AutoLiftsTheFence(d, halves, step);
    FirstToCooling(d, halves, step);
    CoolingGoesOn(RunCommand(Marked(d, Before(halves, step)), ToCool, PlainSetting(AutoAgain(halves, 0, step), 3, Accepted(true))).device,
                  halves, halves, 0, step, 4);
  }

  /** Whether an argument was remembered at the write decides what later commands do, even one that
      itself reads and sends nothing older: the cooling target is re-reported after the first command.
      With a target remembered, the first command goes to cooling and the second stays there; with
      nothing remembered, the first composes nothing and the second stays in AUTO. */
  lemma WhetherRememberedDecides(halves: int, step: int, newer: int)
    requires -2 <= step <= 2
    ensures var first, later := PlainSetting(AutoAgain(halves, 0, step), 3, Accepted(true)), PlainSetting(AutoAgain(newer, 4, step), 5, Accepted(false));
            var remembering := RunCommand(Marked(Device(None, None, map["cool" := halves], None), Before(halves, step)), ToCool, first);
            var forgetful := RunCommand(Marked(Device(None, None, map[], None), Before(halves, step)), ToCool, first);
            var next, other := RunCommand(remembering.device, ChangeFan, later), RunCommand(forgetful.device, ChangeFan, later);
            && remembering.sent.Some? && remembering.sent.value.frame == Frame("cool", "low", Target(halves)) && forgetful.sent.None?
            && next.sent.Some? && next.sent.value.frame == Frame("cool", "high", Target(newer))
            && other.sent.Some? && other.sent.value.frame == Frame("auto", "high", Comfort(step))
  {
    var c, d := Device(None, None, map["cool" := halves], None), Device(None, None, map[], None);
    var first := PlainSetting(AutoAgain(halves, 0, step), 3, Accepted(true));
    FirstToCooling(c, halves, step);
    FirstToCooling(d, halves, step);
    CoolingGoesOn(RunCommand(Marked(c, Before(halves, step)), ToCool, first).device, halves, newer, 4, step, 5);
    AutoGoesOn(RunCommand(Marked(d, Before(halves, step)), ToCool, first).device, newer, 4, step, 5);
  }
}
