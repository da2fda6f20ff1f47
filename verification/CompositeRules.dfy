/** Which command strings a composite domain authorizes, in its own terms
    (local_control_composite_domain.py): the listed modes and fans, what each interlock forbids, and the
    grid of the argument. */
module CompositeRules {
  import opened DecimalText
  import opened Wrappers
  import opened CompositeDomain
  import opened TargetGrid

  /** What one interlock forbids, for each pair of components it can be about. */
  predicate Forbids(lock: Interlock, mode: string, fan: string) {
    match (lock.whenComponent, lock.requireComponent)
    case (FanComponent, ModeComponent) => fan == lock.equals && mode !in lock.values
    case (ModeComponent, FanComponent) => mode == lock.equals && fan !in lock.values
    case (ModeComponent, ModeComponent) => mode == lock.equals && mode !in lock.values
    case (FanComponent, FanComponent) => fan == lock.equals && fan !in lock.values
  }

  predicate IsAllowed(d: InputDomain, mode: string, fan: string) {
    mode in d.modes && fan in d.fans && forall lock :: lock in d.interlocks ==> !Forbids(lock, mode, fan)
  }

  predicate IsComfortStep(r: ComfortRange, preference: int, n: nat) {
    preference == r.min + n * r.step
  }

  /** A comfort step belongs to AUTO and to its grid, a target to the range and, within the tolerance, to
      the grid of its mode. */
  ghost predicate HasAllowedArgument(d: InputDomain, c: Command)
    requires IsCommand(c)
  {
    match c
    case Comfort(mode, _, preference) => mode == "auto" && preference <= d.comfort.max && exists n: nat :: IsComfortStep(d.comfort, preference, n)
    case Celsius(mode, _, target) =>
      && mode in d.ranges && d.ranges[mode].min <= Value(target) <= d.ranges[mode].max
      && exists n: int :: IsNearPoint(d.ranges[mode], Value(target), n)
  }

  lemma ComponentsIff(d: InputDomain, mode: string, fan: string)
    ensures d.ComponentsAuthorized(mode, fan) <==> IsAllowed(d, mode, fan)
  {
    forall i | 0 <= i < |d.interlocks| ensures d.interlocks[i] in d.interlocks {}
  }

  lemma OnComfortGrid(r: ComfortRange, preference: int)
    requires r.step > 0
    ensures preference >= r.min && (preference - r.min) % r.step == 0 <==> exists n: nat :: IsComfortStep(r, preference, n)
  {
    var quotient := (preference - r.min) / r.step;
    if preference >= r.min && (preference - r.min) % r.step == 0 {
      assert preference - r.min == r.step * quotient;
      QuotientIsNat(preference - r.min, r.step);
      assert IsComfortStep(r, preference, quotient);
    }
    if n: nat :| IsComfortStep(r, preference, n) {
      MultipleHasNoRest(n, r.step);
      assert preference - r.min == n * r.step;
    }
  }

  lemma QuotientIsNat(x: int, step: int)
    requires step > 0 && x >= 0
    ensures x / step >= 0
  {
  }

  lemma MultipleHasNoRest(n: nat, step: int)
    requires step > 0
    ensures (n * step) % step == 0 && n * step >= 0
  {
    var quotient, rest := (n * step) / step, (n * step) % step;
    assert (n - quotient) * step == rest;
    Multiples(n - quotient, step);
  }

  lemma RenderedIff(d: InputDomain, c: Command)
    requires d.WellFormed() && IsCommand(c)
    ensures d.Render(c) == if IsAllowed(d, c.mode, c.fan) && HasAllowedArgument(d, c) then Some(CommandText(c)) else None
  {
    ComponentsIff(d, c.mode, c.fan);
    match c
    case Comfort(mode, fan, preference) =>
      OnComfortGrid(d.comfort, preference);
      assert mode in d.comfort.appliesTo <==> mode == "auto";
    case Celsius(mode, fan, target) =>
      if mode in d.ranges {
        AdmittedIff(d, mode, fan, target);
      }
  }

  /** A request is authorized if and only if it fits and is the spelling of a command whose mode and fan
      are listed, which no interlock forbids, and whose argument is on the grid of its mode. */
  lemma AuthorizedIff(d: InputDomain, s: string)
    requires d.WellFormed()
    ensures d.Authorizes(s) <==>
      && Utf8Length(s) <= 512
      && exists c :: IsCommand(c) && Spellable(c) && s == CommandText(c) && IsAllowed(d, c.mode, c.fan) && HasAllowedArgument(d, c)
  {
    RecognizerIsPrinterImage(d, s);
    if d.Authorizes(s) {
      var c := AuthorizedIsPrinted(d, s);
      RenderedIff(d, c);
    }
    if c :| IsCommand(c) && Spellable(c) && s == CommandText(c) && IsAllowed(d, c.mode, c.fan) && HasAllowedArgument(d, c) {
      RenderedIff(d, c);
      assert d.Render(c) == Some(s);
    }
  }

  /** So the fields of an authorized request are listed, and no interlock forbids them. */
  lemma AuthorizedFieldsAreAllowed(d: InputDomain, s: string)
    requires d.WellFormed() && d.Authorizes(s)
    ensures Split3(s).Some? && IsAllowed(d, Split3(s).value.0, Split3(s).value.1)
    ensures Split3(s).value.0 != "" && Split3(s).value.1 != ""
  {
    var c := AuthorizedIsPrinted(d, s);
    RenderedIff(d, c);
    ReadCommand(d, c);
  }

  /** With the interlock of the bundled domains, power fan is authorized in cooling only. */
  lemma PowerFanOnlyCools(d: InputDomain, s: string)
    requires d.WellFormed() && Interlock(FanComponent, "power", ModeComponent, ["cool"]) in d.interlocks
    requires d.Authorizes(s) && Split3(s).value.1 == "power"
    ensures Split3(s).value.0 == "cool"
  {
    AuthorizedFieldsAreAllowed(d, s);
    assert !Forbids(Interlock(FanComponent, "power", ModeComponent, ["cool"]), Split3(s).value.0, "power");
  }

  /** The limit of 512 is on the UTF-8 encoding: a character counts for as many bytes as its code point
      needs (section 3 of RFC 3629). */
  lemma {:induction false} EncodedLength(s: string, c: char)
    ensures Utf8Length(s + [c]) == Utf8Length(s) +
      if c < '\U{80}' then 1 else if c < '\U{800}' then 2 else if c < '\U{10000}' then 3 else 4
  {
    if s == "" {
      assert ([c])[1..] == "";
      assert s + [c] == [c];
    } else {
      EncodedLength(s[1..], c);
      assert (s + [c])[1..] == s[1..] + [c];
    }
  }

  // ---- The overlay of a whole catalogue ---------------------------------------------------------

  /** A feature the overlay can be made from, whatever came before it. */
  predicate IsOverlayable(domains: map<Key, InputDomain>, f: ClimateFeature) {
    f.preserve.Some? ==>
      && f.preserve.value == ["dry", "fan_only"] && f.exactWebDomain && f.declared
      && f.key in domains && "cool" in domains[f.key].ranges
  }

  predicate IsOverlaid(features: seq<ClimateFeature>, key: Key) {
    exists i :: 0 <= i < |features| && features[i].preserve.Some? && features[i].key == key
  }

  /** One overlay, said component by component. */
  ghost predicate IsPreservingCopy(d: InputDomain, after: InputDomain) {
    && "cool" in d.ranges
    && (forall mode :: mode in after.modes <==> mode in d.modes || Preserving(mode))
    && (forall mode :: mode in after.ranges <==> mode in d.ranges || Preserving(mode))
    && (forall mode :: mode in after.ranges ==> after.ranges[mode] == d.ranges[if Preserving(mode) then "cool" else mode])
    && after.fans == d.fans && after.interlocks == d.interlocks && after.comfort == d.comfort
    && after.preserved == ["dry", "fan_only"]
  }

  lemma OverlaidOnce(d: InputDomain)
    requires "cool" in d.ranges
    ensures IsPreservingCopy(d, d.WithPreserved(["dry", "fan_only"]))
  {
    forall mode ensures var d' := d.WithPreserved(["dry", "fan_only"]);
      && (mode in d'.modes <==> mode in d.modes || Preserving(mode))
      && (mode in d'.ranges <==> mode in d.ranges || Preserving(mode))
      && (mode in d'.ranges ==> d'.ranges[mode] == d.ranges[if Preserving(mode) then "cool" else mode])
    {
      PreservedAt(d, mode);
    }
  }

  lemma OverlaidAgain(d: InputDomain, after: InputDomain)
    requires IsPreservingCopy(d, after)
    ensures IsPreservingCopy(d, after.WithPreserved(["dry", "fan_only"]))
  {
    OverlaidOnce(after);
  }

  /** The named domains have the overlay, the others are as they were. */
  ghost predicate IsOverlaidAsAsked(domains: map<Key, InputDomain>, features: seq<ClimateFeature>, after: map<Key, InputDomain>) {
    && after.Keys == domains.Keys
    && forall key :: key in domains ==>
         if IsOverlaid(features, key) then IsPreservingCopy(domains[key], after[key]) else after[key] == domains[key]
  }

  /** The overlay is made if and only if every feature that asks for it can have it; it then changes the
      named domains and no others, and these by the two modes only. */
  lemma {:induction false} OverlayIff(domains: map<Key, InputDomain>, features: seq<ClimateFeature>)
    ensures Augmented(domains, features).Some? <==> forall i :: 0 <= i < |features| ==> IsOverlayable(domains, features[i])
    ensures Augmented(domains, features).Some? ==> IsOverlaidAsAsked(domains, features, Augmented(domains, features).value)
  {
    if features != [] {
      var before, f := features[..|features| - 1], features[|features| - 1];
      OverlayIff(domains, before);
      assert forall i :: 0 <= i < |before| ==> features[i] == before[i];
      assert features == before + [f];
      if Augmented(domains, before).Some? {
        var present := Augmented(domains, before).value;
        if f.preserve.None? {
          NothingAsked(domains, before, f, present);
        } else {
          OverlayableNow(domains, before, f, present);
          if OverlayAllowed(present, f) {
            OverlaidNow(domains, before, f.key, present);
            OverlayStep(domains, before, f, present, present[f.key].WithPreserved(["dry", "fan_only"]));
          }
        }
      }
    }
  }

  lemma OverlaidLonger(features: seq<ClimateFeature>, f: ClimateFeature, key: Key)
    ensures IsOverlaid(features + [f], key) <==> IsOverlaid(features, key) || (f.preserve.Some? && f.key == key)
  {
    if i :| 0 <= i < |features| && features[i].preserve.Some? && features[i].key == key {
      assert (features + [f])[i] == features[i];
    }
    if f.preserve.Some? && f.key == key {
      assert (features + [f])[|features|] == f;
    }
  }

  lemma OverlayableNow(domains: map<Key, InputDomain>, before: seq<ClimateFeature>, f: ClimateFeature, present: map<Key, InputDomain>)
    requires IsOverlaidAsAsked(domains, before, present) && f.preserve.Some?
    ensures OverlayAllowed(present, f) <==> IsOverlayable(domains, f)
  {
    if f.key in domains {
      assert "cool" in present[f.key].ranges <==> "cool" in domains[f.key].ranges;
    }
  }

  lemma NothingAsked(domains: map<Key, InputDomain>, before: seq<ClimateFeature>, f: ClimateFeature, present: map<Key, InputDomain>)
    requires IsOverlaidAsAsked(domains, before, present) && f.preserve.None?
    ensures IsOverlaidAsAsked(domains, before + [f], present)
  {
    forall key ensures IsOverlaid(before + [f], key) <==> IsOverlaid(before, key) {
      OverlaidLonger(before, f, key);
    }
  }

  lemma OverlaidNow(domains: map<Key, InputDomain>, before: seq<ClimateFeature>, key: Key, present: map<Key, InputDomain>)
    requires IsOverlaidAsAsked(domains, before, present) && key in present && "cool" in present[key].ranges
    ensures IsPreservingCopy(domains[key], present[key].WithPreserved(["dry", "fan_only"]))
  {
    if IsOverlaid(before, key) {
      OverlaidAgain(domains[key], present[key]);
    } else {
      OverlaidOnce(domains[key]);
    }
  }

  lemma OverlayStep(domains: map<Key, InputDomain>, before: seq<ClimateFeature>, f: ClimateFeature, present: map<Key, InputDomain>, overlaid: InputDomain)
    requires IsOverlaidAsAsked(domains, before, present) && f.preserve.Some?
    requires f.key in present && IsPreservingCopy(domains[f.key], overlaid)
    ensures IsOverlaidAsAsked(domains, before + [f], present[f.key := overlaid])
  {
    forall key ensures IsOverlaid(before + [f], key) <==> IsOverlaid(before, key) || f.key == key {
      OverlaidLonger(before, f, key);
    }
  }
}
