/** What a cloud write keeps local commands from doing, over whole runs (local_control_router.py). */
module TupleFence {
  import opened Wrappers
  import opened ClimateFrame
  import opened TupleRouter
  import opened TupleRuns

  function Baseline(barrier: Barrier, f: FieldName): Option<int> {
    if f in barrier then barrier[f] else None
  }

  predicate NotBefore(a: Option<int>, b: Option<int>) {
    b.Some? ==> a.Some? && b.value <= a.value
  }

  ghost predicate AtLeast(barrier: Barrier, known: Barrier) {
    forall f :: NotBefore(Baseline(barrier, f), Baseline(known, f))
  }

  /** The appliance has reported mode, fan and the current variant's argument, each strictly later
      than `known`. */
  ghost predicate Passed(shadow: Shadow, known: Barrier) {
    forall f :: InVariant(RawValue(shadow, ModeField), f) ==> Beyond(shadow, f, Baseline(known, f))
  }

  /** The weaker fact that stays true afterwards, whichever variant the appliance changes to. */
  predicate Rereported(shadow: Shadow, known: Barrier) {
    && Beyond(shadow, ModeField, Baseline(known, ModeField))
    && Beyond(shadow, FanField, Baseline(known, FanField))
    && (Beyond(shadow, TargetField, Baseline(known, TargetField)) || Beyond(shadow, ComfortField, Baseline(known, ComfortField)))
  }

  ghost predicate Fenced(w: World, known: Barrier) {
    w.device.barrier.Some? && AtLeast(w.device.barrier.value, known)
  }

  lemma AllFieldsListed(f: FieldName)
    ensures f in ALL_FIELDS
  {
    match f
    case ModeField =>
    case FanField =>
    case TargetField =>
    case ComfortField =>
  }

  /** The fence is built from everything known of each field, and putting it up again never lowers it. */
  lemma FenceCoversEverythingKnown(d: Device, shadow: Shadow, f: FieldName)
    ensures var d' := Marked(d, shadow);
            && d'.confirmed.None? && d'.barrier.Some?
            && var b := Baseline(d'.barrier.value, f);
               && NotBefore(b, ObservedAt(shadow, f))
               && (d.confirmed.Some? && f in d.confirmed.value.fields ==> NotBefore(b, Some(d.confirmed.value.at)))
               && (d.barrier.Some? ==> NotBefore(b, Baseline(d.barrier.value, f)))
               && (b.Some? ==> || b == ObservedAt(shadow, f)
                               || (d.confirmed.Some? && f in d.confirmed.value.fields && b.value == d.confirmed.value.at)
                               || (d.barrier.Some? && b == Baseline(d.barrier.value, f)))
  {
    AllFieldsListed(f);
  }

  lemma NotBlockedIsPassed(barrier: Barrier, shadow: Shadow, known: Barrier)
    requires !Blocks(barrier, shadow) && AtLeast(barrier, known)
    ensures Passed(shadow, known) && Rereported(shadow, known)
  {
    forall f | InVariant(RawValue(shadow, ModeField), f) ensures Beyond(shadow, f, Baseline(known, f)) {
      AllFieldsListed(f);
      assert Beyond(shadow, f, Baseline(barrier, f));
      assert NotBefore(Baseline(barrier, f), Baseline(known, f));
    }
    assert InVariant(RawValue(shadow, ModeField), ArgumentField(RawValue(shadow, ModeField)));
  }

  lemma MarkingKeepsFence(d: Device, shadow: Shadow, known: Barrier)
    requires d.barrier.Some? && AtLeast(d.barrier.value, known)
    ensures Marked(d, shadow).barrier.Some? && AtLeast(Marked(d, shadow).barrier.value, known)
  {
    forall f ensures NotBefore(Baseline(Marked(d, shadow).barrier.value, f), Baseline(known, f)) {
      FenceCoversEverythingKnown(d, shadow, f);
      assert NotBefore(Baseline(d.barrier.value, f), Baseline(known, f));
    }
  }

  /** Behind a fence a step either leaves it standing and composes nothing, or is a command that
      finds every input reported anew. */
  lemma FenceStep(w: World, e: Event, known: Barrier)
    requires Legal(w, e) && Fenced(w, known)
    ensures (Fenced(Step(w, e), known) && Step(w, e).frames == w.frames) || (e.Commanded? && Passed(w.shadow, known) && Rereported(w.shadow, known))
  {
    match e
    case Arrived(report) =>
    case CloudWritten => MarkingKeepsFence(w.device, w.shadow, known);
    case Commanded(req, s, meanwhile) =>
      MarkingKeepsFence(w.device, w.shadow, known);
      if Blocks(w.device.barrier.value, w.shadow) {
      } else {
        NotBlockedIsPassed(w.device.barrier.value, w.shadow, known);
      }
  }

  lemma RereportedStays(w: World, e: Event, known: Barrier)
    requires Legal(w, e) && Rereported(w.shadow, known)
    ensures Rereported(Step(w, e).shadow, known)
  {
    StepAdvances(w, e);
  }

  /** From a cloud write on, in any run: no frame is composed before some command finds mode, fan and
      the then current variant's argument each reported strictly later than everything known at the
      write; and ever after, mode, fan and one of the two arguments are. */
  lemma {:induction false} CloudFence(w: World, events: seq<Event>, known: Barrier) returns (n: nat)
    requires LegalRun(w, events) && Fenced(w, known)
    ensures n <= |events| && LegalRun(w, events[..n])
    ensures Fenced(Run(w, events[..n]), known) && Run(w, events[..n]).frames == w.frames
    ensures n < |events| ==> events[n].Commanded? && Passed(Run(w, events[..n]).shadow, known) && Rereported(Run(w, events).shadow, known)
    ensures Run(w, events).frames != w.frames ==> n < |events|
  {
    if events == [] {
      n := 0;
    } else {
      var before := events[..|events| - 1];
      var e := events[|events| - 1];
      n := CloudFence(w, before, known);
      assert before[..n] == events[..n];
      if n < |before| {
        RereportedStays(Run(w, before), e, known);
      } else {
        assert before[..n] == before;
        FenceStep(Run(w, before), e, known);
        if Fenced(Step(Run(w, before), e), known) && Step(Run(w, before), e).frames == w.frames {
          n := |events|;
          assert events[..n] == events;
        } else {
          RereportedStays(Run(w, before), e, known);
        }
      }
    }
  }

  /** The cloud write itself puts up such a fence, at everything known of every field. */
  lemma CloudWriteFences(w: World)
    ensures Fenced(Step(w, CloudWritten), Step(w, CloudWritten).device.barrier.value)
    ensures forall f :: Baseline(Step(w, CloudWritten).device.barrier.value, f) == Known(w.device, w.shadow, f)
  {
    forall f ensures Baseline(Step(w, CloudWritten).device.barrier.value, f) == Known(w.device, w.shadow, f) {
      AllFieldsListed(f);
    }
  }

  // ---- Where the fence ends ---------------------------------------------------------------------

  function ShadowOf(mode: string, modeAt: int, fan: string, fanAt: int, halves: int, targetAt: int, step: int, comfortAt: int): Shadow {
    map[ModeField := Field(Text(mode), Some(modeAt)), FanField := Field(Text(fan), Some(fanAt)),
        TargetField := Field(NumberOf(halves), Some(targetAt)), ComfortField := Field(Int(step), Some(comfortAt))]
  }

  function PlainSetting(shadow: Shadow, now: int, disposition: Disposition): Setting {
    Setting(true, true, true, shadow, now, disposition, shadow, now, false)
  }

  const ChangeFan := Request(None, Some("high"), None, None, None, None)

  /** Lifting the fence in cooling lifts it for AUTO too: when the appliance then changes to AUTO, the
      next frame may restate a comfort step that was last reported before the cloud write. */
  lemma OtherVariantMayPredateTheFence(halves: int, step: int)
    requires -2 <= step <= 2
    ensures var before := Device(None, None, map[], None);
            var old_ := ShadowOf("cool", 0, "low", 0, halves, 0, step, 0);
            var cooling := ShadowOf("cool", 1, "low", 1, halves, 1, step, 0);
            var auto_ := ShadowOf("auto", 2, "low", 1, halves, 1, step, 0);
            var fenced := Marked(before, old_);
            var lifted := RunCommand(fenced, ChangeFan, PlainSetting(cooling, 2, Accepted(false)));
            var next := RunCommand(lifted.device, ChangeFan, PlainSetting(auto_, 3, Accepted(false)));
            && fenced.barrier.Some? && Baseline(fenced.barrier.value, ComfortField) == Some(0)
            && lifted.device.barrier.None? && lifted.sent.Some?
            && next.sent.Some? && next.sent.value.frame == Frame("auto", "high", Comfort(step))
            && ObservedAt(auto_, ComfortField) == Some(0)
  {
    var old_ := ShadowOf("cool", 0, "low", 0, halves, 0, step, 0);
    var cooling := ShadowOf("cool", 1, "low", 1, halves, 1, step, 0);
    var fenced := Marked(Device(None, None, map[], None), old_);
    AllFieldsListed(ComfortField);
    CoolingPasses(fenced, cooling, halves, step);
    var lifted := RunCommand(fenced, ChangeFan, PlainSetting(cooling, 2, Accepted(false)));
    AutoComposes(lifted.device, halves, step);
  }

  lemma CoolingPasses(fenced: Device, cooling: Shadow, halves: int, step: int)
    requires fenced == Marked(Device(None, None, map[], None), ShadowOf("cool", 0, "low", 0, halves, 0, step, 0))
    requires cooling == ShadowOf("cool", 1, "low", 1, halves, 1, step, 0)
    ensures var o := RunCommand(fenced, ChangeFan, PlainSetting(cooling, 2, Accepted(false)));
            o.device.barrier.None? && o.device.confirmed.None? && o.sent.Some?
  {
    forall f | InVariant(Text("cool"), f) ensures Beyond(cooling, f, Baseline(fenced.barrier.value, f)) {
      AllFieldsListed(f);
    }
    assert !Blocks(fenced.barrier.value, cooling);
  }

  lemma AutoComposes(d: Device, halves: int, step: int)
    requires d.barrier.None? && d.confirmed.None? && -2 <= step <= 2
    ensures var o := RunCommand(d, ChangeFan, PlainSetting(ShadowOf("auto", 2, "low", 1, halves, 1, step, 0), 3, Accepted(false)));
            o.sent.Some? && o.sent.value.frame == Frame("auto", "high", Comfort(step))
  {
  }
}
