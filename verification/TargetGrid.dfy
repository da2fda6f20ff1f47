/** Which targets a temperature range admits (local_control_composite_domain.py lines 197 to 219): the
    grid is checked with a tolerance, and from a certain number of decimals on it lets more through
    than the grid points. */
module TargetGrid {
  import opened Wrappers
  import opened DecimalText
  import opened CompositeDomain

  // ---- What a range admits ----------------------------------------------------------------------

  predicate IsPoint(r: TargetRange, v: real, n: int) {
    v == r.min + n as real * r.step
  }

  /** Within a billionth of a step of the n-th grid point. */
  predicate IsNearPoint(r: TargetRange, v: real, n: int) {
    -0.000000001 * r.step <= v - (r.min + n as real * r.step) <= 0.000000001 * r.step
  }

  lemma TimesPositive(a: real, b: real, c: real)
    requires c > 0.0
    ensures a < b <==> a * c < b * c
  {
    assert (b - a) * c == b * c - a * c;
  }

  lemma Tolerance(gap: real, step: real, distance: real)
    requires step > 0.0 && gap * step == distance
    ensures -0.000000001 * step <= distance <= 0.000000001 * step <==> -0.000000001 <= gap <= 0.000000001
  {
    TimesPositive(gap, -0.000000001, step);
    TimesPositive(0.000000001, gap, step);
  }

  lemma GapInSteps(v: real, low: real, step: real, n: real)
    requires step > 0.0
    ensures ((v - low) / step - n) * step == v - (low + n * step)
  {
    assert (v - low) / step * step == v - low;
  }

  lemma NearPointInSteps(r: TargetRange, v: real, n: int)
    requires r.step > 0.0
    ensures IsNearPoint(r, v, n) <==> -0.000000001 <= (v - r.min) / r.step - n as real <= 0.000000001
  {
    GapInSteps(v, r.min, r.step, n as real);
    Tolerance((v - r.min) / r.step - n as real, r.step, v - (r.min + n as real * r.step));
  }

  lemma OnGridIff(d: InputDomain, mode: string, t: Decimal)
    requires d.WellFormed() && Canonical(t) && mode in d.ranges
    ensures d.OnGrid(mode, t) <==>
      d.ranges[mode].min <= Value(t) <= d.ranges[mode].max && exists n :: IsNearPoint(d.ranges[mode], Value(t), n)
  {
    var r, v := d.ranges[mode], Value(t);
    var nearest := ((v - r.min) / r.step + 0.5).Floor;
    NearPointInSteps(r, v, nearest);
    if n :| IsNearPoint(r, v, n) {
      NearPointInSteps(r, v, n);
      assert nearest == n;
    }
  }

  /** The admitted targets of any range are those between its ends within a billionth of a step of a
      grid point. */
  lemma AdmittedIff(d: InputDomain, mode: string, fan: string, t: Decimal)
    requires d.WellFormed() && Canonical(t) && mode in d.ranges
    ensures d.RenderTemperature(mode, fan, t).Some? <==>
      && d.ComponentsAuthorized(mode, fan) && d.ranges[mode].min <= Value(t) <= d.ranges[mode].max
      && exists n :: IsNearPoint(d.ranges[mode], Value(t), n)
  {
    OnGridIff(d, mode, t);
  }

  // ---- In units of the k-th decimal -------------------------------------------------------------

  /** `x` times 10^k. */
  function Shift(x: real, k: nat): real {
    if k == 0 then x else 10.0 * Shift(x, k - 1)
  }

  lemma {:induction false} ShiftSum(x: real, y: real, k: nat)
    ensures Shift(x + y, k) == Shift(x, k) + Shift(y, k) && Shift(x - y, k) == Shift(x, k) - Shift(y, k)
    ensures Shift(-x, k) == -Shift(x, k)
  {
    if k > 0 {
      ShiftSum(x, y, k - 1);
    }
  }

  lemma {:induction false} ShiftTen(x: real, k: nat)
    requires k > 0
    ensures Shift(x, k) == Shift(10.0 * x, k - 1)
  {
    if k > 1 {
      ShiftTen(x, k - 1);
    }
  }

  lemma {:induction false} ShiftLess(x: real, y: real, k: nat)
    ensures x < y <==> Shift(x, k) < Shift(y, k)
  {
    if k > 0 {
      ShiftLess(x, y, k - 1);
    }
  }

  lemma {:induction false} ShiftZero(k: nat)
    ensures Shift(0.0, k) == 0.0
  {
    if k > 0 {
      ShiftZero(k - 1);
    }
  }

  lemma {:induction false} ShiftTolerance(step: real, k: nat)
    ensures Shift(0.000000001 * step, k) == 0.000000001 * Shift(step, k)
  {
    if k > 0 {
      ShiftTolerance(step, k - 1);
    }
  }

  lemma {:induction false} ShiftHalf(x: real, k: nat)
    ensures Shift(x / 2.0, k) == Shift(x, k) / 2.0
    ensures k > 0 ==> Shift(0.5, k) >= 5.0
  {
    if k > 0 {
      ShiftHalf(x, k - 1);
    }
  }

  function Pow10(k: nat): (p: nat)
    ensures p > 0
  {
    if k == 0 then 1 else 10 * Pow10(k - 1)
  }

  lemma {:induction false} ShiftInt(n: int, k: nat)
    ensures Shift(n as real, k) == (Pow10(k) * n) as real
  {
    if k > 0 {
      ShiftInt(n, k - 1);
      assert Pow10(k) * n == 10 * (Pow10(k - 1) * n);
    }
  }

  /** A number with at most `k` decimals is a whole number of units of the k-th one. */
  lemma {:induction false} FractionInUnits(frac: string, k: nat) returns (m: int)
    requires AllDigits(frac) && |frac| <= k
    ensures Shift(FractionValue(frac), k) == m as real
  {
    if frac == "" {
      m := 0;
      ShiftZero(k);
    } else {
      var digit := DigitValue(frac[0]);
      var rest := FractionInUnits(frac[1..], k - 1);
      m := Pow10(k - 1) * digit + rest;
      ShiftTen(FractionValue(frac), k);
      ShiftSum(digit as real, FractionValue(frac[1..]), k - 1);
      ShiftInt(digit, k - 1);
    }
  }

  lemma ValueInUnits(d: Decimal, k: nat) returns (m: int)
    requires IsLiteral(d) && |d.frac| <= k
    ensures Shift(Value(d), k) == m as real
  {
    var magnitude := d.whole as real + FractionValue(d.frac);
    var rest := FractionInUnits(d.frac, k);
    m := Pow10(k) * d.whole + rest;
    ShiftSum(d.whole as real, FractionValue(d.frac), k);
    ShiftInt(d.whole, k);
    if d.neg {
      m := -m;
      ShiftSum(magnitude, 0.0, k);
    }
  }

  lemma {:induction false} DigitAppended(frac: string, c: char)
    requires AllDigits(frac) && IsDigit(c)
    ensures Shift(FractionValue(frac + [c]), |frac| + 1) == 10.0 * Shift(FractionValue(frac), |frac|) + DigitValue(c) as real
  {
    var longer, k := frac + [c], |frac|;
    ShiftTen(FractionValue(longer), k + 1);
    if frac == "" {
      assert longer[1..] == "";
    } else {
      var digit := DigitValue(frac[0]) as real;
      assert longer[1..] == frac[1..] + [c];
      DigitAppended(frac[1..], c);
      ShiftTen(FractionValue(frac), k);
      ShiftSum(digit, FractionValue(longer[1..]), k);
      ShiftSum(digit, FractionValue(frac[1..]), k - 1);
    }
  }

  lemma {:induction false} Parts(a: nat, k: nat) returns (whole: nat, frac: string)
    ensures AllDigits(frac) && |frac| == k && Shift(whole as real + FractionValue(frac), k) == a as real
  {
    if k == 0 {
      whole, frac := a, "";
    } else {
      var shorter;
      whole, shorter := Parts(a / 10, k - 1);
      frac := shorter + [DigitChar(a % 10)];
      DigitAppended(shorter, DigitChar(a % 10));
      ShiftSum(whole as real, FractionValue(shorter), k - 1);
      ShiftSum(whole as real, FractionValue(frac), k);
    }
  }

  lemma {:induction false} TrimmedIsShorter(frac: string)
    requires AllDigits(frac)
    ensures |TrimZeros(frac)| <= |frac|
  {
    if frac != "" && frac[|frac| - 1] == '0' {
      TrimmedIsShorter(frac[..|frac| - 1]);
    }
  }

  /** Every whole number of units of the k-th decimal is a number with at most `k` decimals. */
  lemma OfUnits(m: int, k: nat) returns (d: Decimal)
    ensures Canonical(d) && |d.frac| <= k && Shift(Value(d), k) == m as real
  {
    var whole, frac := Parts(Abs(m), k);
    var literal := Decimal(m < 0, whole, frac);
    ShiftSum(whole as real + FractionValue(frac), 0.0, k);
    NumberKeepsValue(literal);
    TrimmedIsShorter(frac);
    d := Number(literal);
  }

  // ---- Half-degree grids ------------------------------------------------------------------------

  /** A grid whose bounds and step are whole numbers of half degrees. */
  predicate HalfDegreeRange(r: TargetRange, min: int, max: int, step: int) {
    r == TargetRange(min as real / 2.0, max as real / 2.0, step as real / 2.0) && step > 0
  }

  /** Among the targets with at most `k` decimals the range admits its grid points and no other. */
  ghost predicate IsExactUpTo(d: InputDomain, mode: string, k: nat)
    requires d.WellFormed() && mode in d.ranges
  {
    forall t :: Canonical(t) && |t.frac| <= k ==>
      (d.OnGrid(mode, t) <==> d.ranges[mode].min <= Value(t) <= d.ranges[mode].max && exists n :: IsPoint(d.ranges[mode], Value(t), n))
  }

  /** The n-th grid point, in half degrees. */
  lemma PointInHalves(r: TargetRange, min: int, max: int, step: int, n: int)
    requires HalfDegreeRange(r, min, max, step)
    ensures r.min + n as real * r.step == (min + n * step) as real / 2.0
  {
    assert n as real * (step as real / 2.0) == (n * step) as real / 2.0;
  }

  lemma HalvesInUnits(halves: int, k: nat) returns (m: int)
    requires k > 0
    ensures Shift(halves as real / 2.0, k) == m as real
  {
    ShiftTen(halves as real / 2.0, k);
    ShiftInt(5 * halves, k - 1);
    m := Pow10(k - 1) * (5 * halves);
  }

  /** With few decimals, what is near half degrees is half degrees. */
  lemma NearIsOn(v: real, point: real, a: int, b: int, step: real, k: nat)
    requires Shift(v, k) == a as real && Shift(point, k) == b as real && 0.000000001 * Shift(step, k) < 1.0
    requires -0.000000001 * step <= v - point <= 0.000000001 * step
    ensures v == point
  {
    ShiftTolerance(step, k);
    SmallShift(v - point, 0.000000001 * step, k);
    ShiftSum(v, point, k);
    SmallDifference(a, b);
    ShiftLess(point, v, k);
    ShiftLess(v, point, k);
  }

  lemma SmallShift(gap: real, limit: real, k: nat)
    requires -limit <= gap <= limit && Shift(limit, k) < 1.0
    ensures -1.0 < Shift(gap, k) < 1.0
  {
    ShiftLess(limit, gap, k);
    ShiftLess(gap, -limit, k);
    ShiftSum(limit, 0.0, k);
  }

  lemma SmallDifference(a: int, b: int)
    ensures -1.0 < a as real - b as real < 1.0 ==> a == b
  {
  }

  lemma FewDecimals(r: TargetRange, min: int, max: int, step: int, t: Decimal, k: nat, n: int)
    requires HalfDegreeRange(r, min, max, step) && k > 0 && Canonical(t) && |t.frac| <= k
    requires 0.000000001 * Shift(r.step, k) < 1.0 && IsNearPoint(r, Value(t), n)
    ensures IsPoint(r, Value(t), n)
  {
    PointInHalves(r, min, max, step, n);
    var a := ValueInUnits(t, k);
    var b := HalvesInUnits(min + n * step, k);
    NearIsOn(Value(t), r.min + n as real * r.step, a, b, r.step, k);
  }

  lemma OnGridIsPoint(d: InputDomain, mode: string, min: int, max: int, step: int, t: Decimal, k: nat)
    requires d.WellFormed() && mode in d.ranges && HalfDegreeRange(d.ranges[mode], min, max, step) && k > 0
    requires Canonical(t) && |t.frac| <= k && 0.000000001 * Shift(d.ranges[mode].step, k) < 1.0
    ensures d.OnGrid(mode, t) <==>
      d.ranges[mode].min <= Value(t) <= d.ranges[mode].max && exists n :: IsPoint(d.ranges[mode], Value(t), n)
  {
    var r := d.ranges[mode];
    OnGridIff(d, mode, t);
    if n :| IsPoint(r, Value(t), n) {
      assert IsNearPoint(r, Value(t), n);
    }
    if n :| IsNearPoint(r, Value(t), n) {
      FewDecimals(r, min, max, step, t, k, n);
    }
  }

  /** How fine the tolerance is in units of the k-th decimal. */
  lemma ToleranceInUnits(step: int, k: nat)
    ensures 0.000000001 * Shift(step as real / 2.0, k) < 1.0 <==> Pow10(k) * step < 2_000_000_000
  {
    ShiftHalf(step as real, k);
    ShiftInt(step, k);
  }

  /** With more decimals, the first unit after the lower end is no grid point, and is admitted. */
  lemma AdmittedOffGrid(d: InputDomain, mode: string, min: int, max: int, step: int, k: nat) returns (t: Decimal)
    requires d.WellFormed() && mode in d.ranges && HalfDegreeRange(d.ranges[mode], min, max, step) && min < max && k > 0
    requires Pow10(k) * step >= 2_000_000_000
    ensures Canonical(t) && |t.frac| <= k && d.OnGrid(mode, t)
    ensures Shift(Value(t) - d.ranges[mode].min, k) == 1.0
    ensures forall n :: !IsPoint(d.ranges[mode], Value(t), n)
  {
    var r := d.ranges[mode];
    var low := HalvesInUnits(min, k);
    t := OfUnits(low + 1, k);
    ShiftSum(Value(t), r.min, k);
    ToleranceInUnits(step, k);
    FirstUnit(Value(t), r.min, r.max, r.step, k);
    assert IsNearPoint(r, Value(t), 0);
    OnGridIff(d, mode, t);
    forall n ensures !IsPoint(r, Value(t), n) {
      PointInHalves(r, min, max, step, n);
      NotTheFirstUnit(Value(t), min, min + n * step, k);
    }
  }

  lemma FirstUnit(v: real, low: real, high: real, step: real, k: nat)
    requires Shift(v - low, k) == 1.0 && 0.000000001 * Shift(step, k) >= 1.0 && high - low >= 0.5 && k > 0
    ensures low < v <= high && v - low <= 0.000000001 * step
  {
    ShiftZero(k);
    ShiftLess(0.0, v - low, k);
    ShiftHalf(0.0, k);
    ShiftLess(0.5, v - low, k);
    ShiftTolerance(step, k);
    ShiftLess(0.000000001 * step, v - low, k);
  }

  lemma NotTheFirstUnit(v: real, min: int, halves: int, k: nat)
    requires Shift(v - min as real / 2.0, k) == 1.0 && k > 0
    ensures v != halves as real / 2.0
  {
    ShiftZero(k);
    ShiftHalf(0.0, k);
    ShiftLess(v - min as real / 2.0, 0.5, k);
    ShiftLess(0.0, v - min as real / 2.0, k);
    assert halves > min ==> halves as real - min as real >= 1.0;
    assert halves <= min ==> halves as real - min as real <= 0.0;
  }

  /** A half-degree grid is exact for targets with at most `k` decimals if and only if 10^k steps are
      fewer than a billion degrees: up to nine decimals for a step of half a degree, and from the
      tenth on other targets are admitted too.  The numbers are exact decimals: binary rounding of the
      quotient makes the source stricter at the threshold itself (a step of one degree, nine
      decimals), and a target with some sixteen decimals or more need not be a float at all. */
  lemma ExactUpToIff(d: InputDomain, mode: string, min: int, max: int, step: int, k: nat)
    requires d.WellFormed() && mode in d.ranges && HalfDegreeRange(d.ranges[mode], min, max, step) && min < max && k > 0
    ensures IsExactUpTo(d, mode, k) <==> Pow10(k) * step < 2_000_000_000
  {
    if Pow10(k) * step < 2_000_000_000 {
      ToleranceInUnits(step, k);
      forall t | Canonical(t) && |t.frac| <= k
        ensures d.OnGrid(mode, t) <==>
          d.ranges[mode].min <= Value(t) <= d.ranges[mode].max && exists n :: IsPoint(d.ranges[mode], Value(t), n)
      {
        OnGridIsPoint(d, mode, min, max, step, t, k);
      }
    } else {
      var t := AdmittedOffGrid(d, mode, min, max, step, k);
    }
  }

  /** On a half-degree grid the admitted targets in half degrees are the grid points exactly. */
  lemma {:induction false} HalfDegreesAdmitted(d: InputDomain, mode: string, fan: string, halves: int, min: int, max: int, step: int)
    requires d.WellFormed() && mode in d.ranges && HalfDegreeRange(d.ranges[mode], min, max, step) && step < 200_000_000
    ensures d.RenderTemperature(mode, fan, OfHalves(halves)).Some? <==>
              d.ComponentsAuthorized(mode, fan) && min <= halves <= max && (halves - min) % step == 0
  {
    HalvesRoundTrip(halves);
    assert Pow10(1) == 10 * Pow10(0);
    ToleranceInUnits(step, 1);
    OnGridIsPoint(d, mode, min, max, step, OfHalves(halves), 1);
    HalvesOnPoints(d.ranges[mode], min, max, step, halves, Value(OfHalves(halves)));
  }

  lemma HalvesOnPoints(r: TargetRange, min: int, max: int, step: int, halves: int, v: real)
    requires HalfDegreeRange(r, min, max, step) && v == halves as real / 2.0
    ensures (exists n :: IsPoint(r, v, n)) <==> (halves - min) % step == 0
  {
    var k := (halves - min) / step;
    assert halves - min == k * step + (halves - min) % step;
    PointInHalves(r, min, max, step, k);
    if (halves - min) % step == 0 {
      assert IsPoint(r, v, k);
    }
    if n :| IsPoint(r, v, n) {
      PointInHalves(r, min, max, step, n);
      assert halves == min + n * step;
      MultipleHasNoRest(n, step);
    }
  }

  lemma MultipleHasNoRest(n: int, step: int)
    requires step > 0
    ensures (n * step) % step == 0
  {
    var x := n * step;
    assert x == x / step * step + x % step;
    assert (n - x / step) * step == x % step;
    Multiples(n - x / step, step);
  }

  lemma Multiples(x: int, step: int)
    requires step > 0
    ensures x == 0 || x * step >= step || x * step <= -step
  {
    if x >= 1 {
      assert (x - 1) * step >= 0;
    } else if x <= -1 {
      assert (-1 - x) * step >= 0;
    }
  }

  /** Ten decimals on a step of half a degree: 18.0000000001 is no grid point, and is authorized. */
  lemma {:induction false} ToleranceAcceptsOffGrid(d: InputDomain)
    requires d.WellFormed() && "cool" in d.ranges && HalfDegreeRange(d.ranges["cool"], 32, 60, 1)
    requires d.ComponentsAuthorized("cool", "low")
    ensures d.Authorizes("cool|low|18.0000000001C")
  {
    JustAbove18IsRendered(d);
    ShortPrintIsAuthorized(d, Celsius("cool", "low", JustAbove18), "cool|low|18.0000000001C");
  }

  lemma ShortPrintIsAuthorized(d: InputDomain, c: Command, s: string)
    requires d.WellFormed() && IsCommand(c) && Spellable(c) && d.Render(c) == Some(s) && |s| <= 128
    ensures d.Authorizes(s)
  {
    PrintedIsAuthorized(d, c);
    Utf8LengthBound(s);
  }

  lemma JustAbove18IsRendered(d: InputDomain)
    requires d.WellFormed() && "cool" in d.ranges && HalfDegreeRange(d.ranges["cool"], 32, 60, 1)
    requires d.ComponentsAuthorized("cool", "low")
    ensures var c := Celsius("cool", "low", JustAbove18);
      IsCommand(c) && Spellable(c) && d.Render(c) == Some("cool|low|18.0000000001C")
  {
    JustAbove18OnGrid(JustAbove18);
    JustAbove18Text();
    assert d.OnGrid("cool", JustAbove18);
  }

  const JustAbove18 := Decimal(false, 18, "0000000001")

  lemma JustAbove18OnGrid(t: Decimal)
    requires t == JustAbove18
    ensures Canonical(t) && 16.0 <= Value(t) <= 30.0
    ensures NearlyWhole((Value(t) - 32 as real / 2.0) / (1 as real / 2.0))
  {
    TinyFraction(t.frac);
    assert Tiny(10) == 0.0000000001;
    FourStepsAndATrifle(Value(t));
  }

  lemma FourStepsAndATrifle(value: real)
    requires value == 18.0000000001
    ensures NearlyWhole((value - 32 as real / 2.0) / (1 as real / 2.0))
  {
    var steps := (value - 32 as real / 2.0) / (1 as real / 2.0);
    assert steps == 4.0000000002;
    assert (steps + 0.5).Floor == 4;
  }

  lemma JustAbove18Text()
    ensures Fields3("cool", "low", CelsiusText(JustAbove18)) == "cool|low|18.0000000001C"
  {
    assert PrintNat(1) == "1";
    assert PrintNat(18) == "18";
    assert PrintDecimal(JustAbove18) == "18" + "." + "0000000001";
  }

  lemma {:induction false} Utf8LengthBound(s: string)
    ensures Utf8Length(s) <= 4 * |s|
  {
    if s != "" {
      Utf8LengthBound(s[1..]);
    }
  }

  function Tiny(decimals: nat): real {
    if decimals == 0 then 1.0 else Tiny(decimals - 1) / 10.0
  }

  lemma {:induction false} TinyFraction(frac: string)
    requires frac != "" && frac[|frac| - 1] == '1' && forall i :: 0 <= i < |frac| - 1 ==> frac[i] == '0'
    ensures AllDigits(frac) && FractionValue(frac) == Tiny(|frac|)
  {
    if |frac| > 1 {
      TinyFraction(frac[1..]);
    }
  }
}
