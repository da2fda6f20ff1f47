/** What a command that is left to the cloud leaves behind (local_control_router.py).

    The caller writes to the cloud after it, so the router must not compose from what it knew before:
    before it lets go of the device, it puts up a fence at the latest of everything known. */
module TupleFallback {
  import opened Wrappers
  import opened ClimateFrame
  import opened TupleRouter
  import opened TupleRuns
  import opened TupleFence
  import opened TupleOneCommand

  /** The standing fence stops the command, and stays. */
  predicate StoppedByFence(d: Device, s: Setting) {
    s.enabled && s.available && s.fieldsReady && d.barrier.Some? && Blocks(d.barrier.value, s.shadow)
  }

  /** The reports known when the command ends: those after the exchange, if there was one. */
  function ReportsAtTheEnd(d: Device, req: Request, s: Setting): Shadow {
    if Offered(d, req, s).Some? then s.shadowAfter else s.shadow
  }

  /** The time of the overlay it finds, in a field that the overlay claims: unless it is stopped, only one
      of the last ten minutes that no report has caught up with. */
  function OverlaidAt(d: Device, s: Setting, f: FieldName): Option<int> {
    if d.confirmed.None? || f !in d.confirmed.value.fields then None
    else
      var at := d.confirmed.value.at;
      if Stopped(d, s) || (at <= s.now <= at + 10 * 60 * 1_000_000 && (ObservedAt(s.shadow, f).Some? ==> ObservedAt(s.shadow, f).value < at))
      then Some(at) else None
  }

  /** What is left of an overlay of the last ten minutes: the fields no report has caught up with. */
  ghost predicate IsLeftOver(kept: Option<Confirmed>, found: Option<Confirmed>, shadow: Shadow, now: int) {
    && (kept.Some? ==> found.Some? && kept.value.at == found.value.at && kept.value.fields != map[])
    && forall f ::
         && (kept.Some? && f in kept.value.fields <==>
               && found.Some? && f in found.value.fields && found.value.at <= now <= found.value.at + 10 * 60 * 1_000_000
               && (ObservedAt(shadow, f).Some? ==> ObservedAt(shadow, f).value < found.value.at))
         && (kept.Some? && f in kept.value.fields ==> kept.value.fields[f] == found.value.fields[f])
  }

  lemma PrunedIsLeftOver(found: Option<Confirmed>, shadow: Shadow, now: int)
    ensures IsLeftOver(Pruned(found, shadow, now), found, shadow, now)
  {
    if found.Some? {
      assert forall f :: f in Remaining(found.value, shadow) <==> f in found.value.fields && !Overtaken(shadow, f, found.value.at);
    }
  }

  // ---- The fence --------------------------------------------------------------------------------

  /** A command left to the cloud, unless a standing fence stopped it, drops the overlay and fences each
      field at the latest of three instants: what was reported at the end, the overlay it found, and,
      if it did not come as far as lifting it, the earlier fence. */
  lemma LeftToTheCloudIsFenced(d: Device, req: Request, s: Setting, f: FieldName)
    requires RunCommand(d, req, s).answer == NotServed && s.cloudFallback && !StoppedByFence(d, s)
    ensures var later := RunCommand(d, req, s).device;
      && later.confirmed.None? && later.barrier.Some?
      && var baseline, reported := Baseline(later.barrier.value, f), ObservedAt(ReportsAtTheEnd(d, req, s), f);
         var overlaid := OverlaidAt(d, s, f);
         var earlier := if Stopped(d, s) && d.barrier.Some? then Baseline(d.barrier.value, f) else None;
         && NotBefore(baseline, reported) && NotBefore(baseline, overlaid) && NotBefore(baseline, earlier)
         && (baseline == reported || baseline == overlaid || baseline == earlier)
  {
    if Stopped(d, s) {
      FenceCoversEverythingKnown(d, s.shadow, f);
    } else {
      CommandFollowsItsOffer(d, req, s);
      UnservedIsMarked(Passing(d, s), Offered(d, req, s), s);
      PrunedIsLeftOver(d.confirmed, s.shadow, s.now);
      FenceCoversEverythingKnown(Passing(d, s), ReportsAtTheEnd(d, req, s), f);
    }
  }

  lemma UnservedIsMarked(d: Device, c: Option<Composed>, s: Setting)
    requires Finished(d, c, s).answer == NotServed && s.cloudFallback
    ensures Finished(d, c, s).device == Marked(d, if c.Some? then s.shadowAfter else s.shadow)
  {
  }

  /** Nothing that the overlay it found claims is newer than the new fence, unless the overlay was too
      old to be looked at. */
  lemma OverlayIsFenced(d: Device, req: Request, s: Setting, f: FieldName)
    requires RunCommand(d, req, s).answer == NotServed && s.cloudFallback && !StoppedByFence(d, s) && Advances(s.shadow, s.shadowAfter)
    requires d.confirmed.Some? && f in d.confirmed.value.fields && (Stopped(d, s) || !Expired(d.confirmed.value, s.now))
    ensures var later := RunCommand(d, req, s).device;
      later.barrier.Some? && NotBefore(Baseline(later.barrier.value, f), Some(d.confirmed.value.at))
  {
    LeftToTheCloudIsFenced(d, req, s, f);
    if !Stopped(d, s) && Overtaken(s.shadow, f, d.confirmed.value.at) {
      assert ObservedAt(s.shadow, f).value <= ObservedAt(ReportsAtTheEnd(d, req, s), f).value;
    } else if !Stopped(d, s) {
      assert f in Remaining(d.confirmed.value, s.shadow);
    }
  }

  /** A fence that the command lifted is exceeded in every field of the variant it worked in.  For the
      other argument the new baseline is its last report, which may lie before the old baseline if that
      was a confirmation: the lifted fence is forgotten. */
  lemma LiftedFenceIsExceeded(d: Device, req: Request, s: Setting, f: FieldName)
    requires RunCommand(d, req, s).answer == NotServed && s.cloudFallback && !Stopped(d, s) && Advances(s.shadow, s.shadowAfter)
    requires d.barrier.Some? && d.confirmed.None?
    ensures var later := RunCommand(d, req, s).device;
      && later.barrier.Some? && Baseline(later.barrier.value, f) == ObservedAt(ReportsAtTheEnd(d, req, s), f)
      && (InVariant(RawValue(s.shadow, ModeField), f) ==>
            Baseline(later.barrier.value, f).Some? && !NotBefore(Baseline(d.barrier.value, f), Baseline(later.barrier.value, f)))
      && (NotBefore(Baseline(later.barrier.value, f), Baseline(d.barrier.value, f))
          <==> NotBefore(ObservedAt(ReportsAtTheEnd(d, req, s), f), Baseline(d.barrier.value, f)))
  {
    AllFieldsListed(f);
    LeftToTheCloudIsFenced(d, req, s, f);
    if InVariant(RawValue(s.shadow, ModeField), f) {
      assert Beyond(s.shadow, f, Baseline(d.barrier.value, f));
    }
  }

  /** A fence from a confirmation at 5, the comfort step last reported at 3: lifted in cooling at 6 and
      put up again by a refusal, it stands at 3 for the comfort step. */
  lemma LiftedFenceIsForgotten(halves: int, step: int)
    requires -2 <= step <= 2
    ensures var fence := map[ModeField := Some(5), FanField := Some(5), TargetField := Some(5), ComfortField := Some(5)];
            var cooling := ShadowOf("cool", 6, "low", 6, halves, 6, step, 3);
            var o := RunCommand(Device(None, Some(fence), map[], None), ChangeFan, PlainSetting(cooling, 7, Refused).(cloudFallback := true));
            o.answer == NotServed && o.device.barrier.Some? && Baseline(o.device.barrier.value, ComfortField) == Some(3)
  {
    var fence := map[ModeField := Some(5), FanField := Some(5), TargetField := Some(5), ComfortField := Some(5)];
    var d, cooling := Device(None, Some(fence), map[], None), ShadowOf("cool", 6, "low", 6, halves, 6, step, 3);
    var s := PlainSetting(cooling, 7, Refused).(cloudFallback := true);
    forall f | InVariant(Text("cool"), f) ensures Beyond(cooling, f, Baseline(fence, f)) {
      AllFieldsListed(f);
    }
    assert !Blocks(fence, cooling);
    AnswerIsTheBridges(d, ChangeFan, s);
    LeftToTheCloudIsFenced(d, ChangeFan, s, ComfortField);
  }

  /** A command that the standing fence stops changes nothing, nor does one while the option is off. */
  lemma StandingFenceStays(d: Device, req: Request, s: Setting)
    requires StoppedByFence(d, s) || !s.enabled
    ensures RunCommand(d, req, s) == Outcome(d, if s.enabled then NotServed else Raised, None)
  {
  }

  /** No other command puts up a fence, and one that was not confirmed keeps of the overlay what is left
      of it, when nobody turns to the cloud. */
  lemma OnlyFallingBackFences(d: Device, req: Request, s: Setting)
    requires RunCommand(d, req, s).answer != NotServed || !s.cloudFallback
    ensures var o := RunCommand(d, req, s);
      && o.device.barrier == (if Stopped(d, s) then d.barrier else None)
      && (o.answer != Served(true) && Stopped(d, s) ==> o.device.confirmed == d.confirmed)
      && (o.answer != Served(true) && !Stopped(d, s) ==> IsLeftOver(o.device.confirmed, d.confirmed, s.shadow, s.now))
  {
    if !Stopped(d, s) {
      CommandFollowsItsOffer(d, req, s);
      OthersStayUnfenced(Passing(d, s), Offered(d, req, s), s);
      PrunedIsLeftOver(d.confirmed, s.shadow, s.now);
    }
  }

  lemma OthersStayUnfenced(d: Device, c: Option<Composed>, s: Setting)
    requires Finished(d, c, s).answer != NotServed || !s.cloudFallback
    ensures var o := Finished(d, c, s); o.device.barrier == d.barrier && (o.answer != Served(true) ==> o.device.confirmed == d.confirmed)
  {
  }

  // ---- The answer -------------------------------------------------------------------------------

  /** A command is left unserved exactly if the appliance cannot be reached or is fenced, if no frame
      can be composed, or if the bridge did not take the frame; it is served exactly as the bridge
      says; anything else is raised.  The frame handed over is the one composed. */
  lemma AnswerIsTheBridges(d: Device, req: Request, s: Setting)
    ensures var o := RunCommand(d, req, s);
      && (o.answer == NotServed <==>
            s.enabled && (Stopped(d, s) || Offered(d, req, s).None? || s.disposition.Unauthorized? || s.disposition.Refused?))
      && (forall confirmed :: o.answer == Served(confirmed) <==> Offered(d, req, s).Some? && s.disposition == Accepted(confirmed))
      && (o.sent.Some? <==> Offered(d, req, s).Some? && !s.disposition.Unauthorized? && !s.disposition.ConditionUnmet?)
      && (o.sent.Some? ==> o.sent == Offered(d, req, s))
  {
    if !Stopped(d, s) {
      CommandFollowsItsOffer(d, req, s);
    }
  }

  /** A confirmed command lays mode, fan and argument of its frame over the reports, as of the moment it
      ended, no target under power fan. */
  lemma ConfirmedIsLaidOver(d: Device, req: Request, s: Setting)
    requires RunCommand(d, req, s).answer == Served(true)
    ensures RunCommand(d, req, s).device.confirmed.Some? && RunCommand(d, req, s).device.confirmed.value.at == s.after
    ensures Offered(d, req, s).Some? && LaysOver(RunCommand(d, req, s).device.confirmed.value.fields, Offered(d, req, s).value.frame)
  {
    CommandFollowsItsOffer(d, req, s);
    ServedIsLaidOver(Passing(d, s), Offered(d, req, s), s);
  }

  predicate LaysOver(fields: map<FieldName, Value>, frame: Frame) {
    && ModeField in fields && fields[ModeField] == Text(frame.mode) && FanField in fields && fields[FanField] == Text(frame.fan)
    && (TargetField in fields <==> frame.fan != "power" && frame.argument.Target?)
    && (TargetField in fields ==> HalvesOf(fields[TargetField]) == Some(frame.argument.halves))
    && (ComfortField in fields <==> frame.fan != "power" && frame.argument.Comfort?)
    && (ComfortField in fields ==> fields[ComfortField] == Int(frame.argument.step))
  }

  lemma ServedIsLaidOver(d: Device, c: Option<Composed>, s: Setting)
    requires Finished(d, c, s).answer == Served(true)
    ensures Finished(d, c, s).device.confirmed.Some? && Finished(d, c, s).device.confirmed.value.at == s.after
    ensures c.Some? && LaysOver(Finished(d, c, s).device.confirmed.value.fields, c.value.frame)
  {
  }

  // ---- Over runs --------------------------------------------------------------------------------

  /** From a command left to the cloud on, in any run: no frame is composed before some command finds
      mode, fan and the then current variant's argument each reported strictly later than the fence, and
      so, unless the fence stood before, than everything reported when the command ended. */
  lemma NoFrameBeforeReportedAnew(w: World, e: Event, events: seq<Event>) returns (n: nat)
    requires Legal(w, e) && e.Commanded? && LegalRun(Step(w, e), events)
    requires RunCommand(w.device, e.req, e.s).answer == NotServed && e.s.cloudFallback
    ensures Step(w, e).device.barrier.Some?
    ensures n <= |events| && LegalRun(Step(w, e), events[..n]) && Run(Step(w, e), events[..n]).frames == Step(w, e).frames
    ensures Run(Step(w, e), events).frames != Step(w, e).frames ==> n < |events|
    ensures n < |events| ==> events[n].Commanded? && IsReportedAnew(w, e, Run(Step(w, e), events[..n]).shadow)
  {
    var later := Step(w, e);
    if !StoppedByFence(w.device, e.s) {
      LeftToTheCloudIsFenced(w.device, e.req, e.s, ModeField);
    }
    var known := later.device.barrier.value;
    n := CloudFence(later, events, known);
    if n < |events| {
      var shadow := Run(later, events[..n]).shadow;
      forall f | InVariant(RawValue(shadow, ModeField), f)
        ensures !StoppedByFence(w.device, e.s) ==> Beyond(shadow, f, ObservedAt(ReportsAtTheEnd(w.device, e.req, e.s), f))
      {
        if !StoppedByFence(w.device, e.s) {
          LeftToTheCloudIsFenced(w.device, e.req, e.s, f);
        }
      }
    }
  }

  /** Strictly later than the fence left behind and than the reports at the end of the command. */
  ghost predicate IsReportedAnew(w: World, e: Event, shadow: Shadow)
    requires e.Commanded? && Step(w, e).device.barrier.Some?
  {
    forall f :: InVariant(RawValue(shadow, ModeField), f) ==>
      && Beyond(shadow, f, Baseline(Step(w, e).device.barrier.value, f))
      && (!StoppedByFence(w.device, e.s) ==> Beyond(shadow, f, ObservedAt(ReportsAtTheEnd(w.device, e.req, e.s), f)))
  }
}
