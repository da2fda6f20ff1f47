/** Decimal numbers and `|`-separated fields, as the command strings spell them. */
module DecimalText {
  import opened Wrappers

  predicate IsDigit(c: char) {
    '0' <= c <= '9'
  }

  predicate AllDigits(s: string) {
    forall i :: 0 <= i < |s| ==> IsDigit(s[i])
  }

  /** `0|[1-9][0-9]*` */
  predicate IsNatText(s: string) {
    |s| > 0 && AllDigits(s) && (s[0] == '0' ==> |s| == 1)
  }

  function DigitChar(d: nat): (c: char)
    requires d < 10
    ensures IsDigit(c)
  {
    ('0' as int + d) as char
  }

  function DigitValue(c: char): nat
    requires IsDigit(c)
  {
    c as int - '0' as int
  }

  function PrintNat(n: nat): string {
    if n < 10 then [DigitChar(n)] else PrintNat(n / 10) + [DigitChar(n % 10)]
  }

  function ReadDigits(s: string): nat
    requires AllDigits(s)
  {
    if s == "" then 0 else 10 * ReadDigits(s[..|s| - 1]) + DigitValue(s[|s| - 1])
  }

  lemma {:induction false} ReadPrintedNat(n: nat)
    ensures IsNatText(PrintNat(n)) && ReadDigits(PrintNat(n)) == n
    ensures n > 0 ==> PrintNat(n)[0] != '0'
  {
    if n >= 10 {
      ReadPrintedNat(n / 10);
      assert PrintNat(n)[..|PrintNat(n)| - 1] == PrintNat(n / 10);
    } else {
      assert PrintNat(n)[..0] == "";
    }
  }

  lemma {:induction false} PrintReadNat(s: string)
    requires IsNatText(s)
    ensures PrintNat(ReadDigits(s)) == s
    ensures s[0] != '0' ==> ReadDigits(s) > 0
  {
    var front := s[..|s| - 1];
    if front == "" {
      assert ReadDigits(front) == 0;
      assert s == [s[0]];
    } else {
      PrintReadNat(front);
      assert ReadDigits(s) >= 10;
      assert s == front + [s[|s| - 1]];
    }
  }

  // ---- Decimal literals -------------------------------------------------------------------------

  /** A decimal literal: sign, whole part, digits after the point (none when there is no point). */
  function PrintInt(n: int): string {
    if n < 0 then "-" + PrintNat(-n) else PrintNat(n)
  }

  /** Python's int() on an optional minus sign and ASCII digits. */
  function IntOf(s: string): Option<int> {
    if s != "" && s[0] == '-' then
      if |s| > 1 && AllDigits(s[1..]) then Some(-(ReadDigits(s[1..]) as int)) else None
    else if s != "" && AllDigits(s) then Some(ReadDigits(s)) else None
  }

  lemma IntOfPrinted(n: int)
    ensures IntOf(PrintInt(n)) == Some(n)
  {
    ReadPrintedNat(if n < 0 then -n else n);
    if n < 0 {
      assert PrintInt(n)[1..] == PrintNat(-n);
    }
  }

  datatype Decimal = Decimal(neg: bool, whole: nat, frac: string)

  /** `-?(?:0|[1-9][0-9]*)(?:\.[0-9]+)?` */
  predicate IsLiteral(d: Decimal) {
    AllDigits(d.frac)
  }

  /** The literals a number prints as: no trailing zero after the point, no negative zero. */
  predicate Canonical(d: Decimal) {
    && AllDigits(d.frac)
    && (d.frac != "" ==> d.frac[|d.frac| - 1] != '0')
    && !(d.neg && d.whole == 0 && d.frac == "")
  }

  function PrintUnsigned(whole: nat, frac: string): string {
    if frac == "" then PrintNat(whole) else PrintNat(whole) + "." + frac
  }

  function PrintDecimal(d: Decimal): string {
    if d.neg then "-" + PrintUnsigned(d.whole, d.frac) else PrintUnsigned(d.whole, d.frac)
  }

  function PointAt(s: string, from: nat): (k: nat)
    requires from <= |s|
    ensures from <= k <= |s|
    ensures k < |s| ==> s[k] == '.'
    ensures forall i :: from <= i < k ==> s[i] != '.'
    decreases |s| - from
  {
    if from == |s| || s[from] == '.' then from else PointAt(s, from + 1)
  }

  function ParseUnsigned(s: string): Option<Decimal> {
    var k := PointAt(s, 0);
    var frac := if k < |s| then s[k + 1..] else "";
    if IsNatText(s[..k]) && AllDigits(frac) && (k < |s| ==> frac != "") then
      Some(Decimal(false, ReadDigits(s[..k]), frac))
    else None
  }

  function ParseDecimal(s: string): Option<Decimal> {
    if s != "" && s[0] == '-' then
      var d := ParseUnsigned(s[1..]);
      if d.Some? then Some(d.value.(neg := true)) else None
    else ParseUnsigned(s)
  }

  lemma ParsePrintedUnsigned(whole: nat, frac: string)
    requires AllDigits(frac)
    ensures ParseUnsigned(PrintUnsigned(whole, frac)) == Some(Decimal(false, whole, frac))
    ensures PrintUnsigned(whole, frac) != "" && PrintUnsigned(whole, frac)[0] != '-'
  {
    ReadPrintedNat(whole);
    var n := PrintNat(whole);
    var s := PrintUnsigned(whole, frac);
    var k := PointAt(s, 0);
    assert forall i :: 0 <= i < |n| ==> s[i] == n[i];
    if frac == "" {
      assert s[..k] == n;
    } else {
      assert s[|n|] == '.';
      assert k == |n| && s[..k] == n && s[k + 1..] == frac;
    }
  }

  lemma PrintParsedUnsigned(s: string)
    requires ParseUnsigned(s).Some?
    ensures var d := ParseUnsigned(s).value; IsLiteral(d) && !d.neg && PrintUnsigned(d.whole, d.frac) == s
  {
    var k := PointAt(s, 0);
    PrintReadNat(s[..k]);
    if k < |s| {
      assert s == s[..k] + "." + s[k + 1..];
    } else {
      assert s == s[..k];
    }
  }

  lemma ParsePrinted(d: Decimal)
    requires IsLiteral(d)
    ensures ParseDecimal(PrintDecimal(d)) == Some(d)
  {
    ParsePrintedUnsigned(d.whole, d.frac);
    var u := PrintUnsigned(d.whole, d.frac);
    if d.neg {
      assert ("-" + u)[1..] == u;
    }
  }

  lemma PrintParsed(s: string)
    requires ParseDecimal(s).Some?
    ensures IsLiteral(ParseDecimal(s).value) && PrintDecimal(ParseDecimal(s).value) == s
  {
    if s != "" && s[0] == '-' {
      PrintParsedUnsigned(s[1..]);
      assert s == "-" + s[1..];
    } else {
      PrintParsedUnsigned(s);
    }
  }

  // ---- What a literal is worth ------------------------------------------------------------------

  function FractionValue(frac: string): real
    requires AllDigits(frac)
  {
    if frac == "" then 0.0 else (DigitValue(frac[0]) as real + FractionValue(frac[1..])) / 10.0
  }

  function Value(d: Decimal): real
    requires IsLiteral(d)
  {
    var magnitude := d.whole as real + FractionValue(d.frac);
    if d.neg then -magnitude else magnitude
  }

  function TrimZeros(frac: string): (r: string)
    requires AllDigits(frac)
    ensures AllDigits(r) && (r != "" ==> r[|r| - 1] != '0')
  {
    if frac != "" && frac[|frac| - 1] == '0' then TrimZeros(frac[..|frac| - 1]) else frac
  }

  /** The number a literal denotes, as the one literal it prints as. */
  function Number(d: Decimal): (n: Decimal)
    requires IsLiteral(d)
    ensures Canonical(n)
  {
    var frac := TrimZeros(d.frac);
    Decimal(d.neg && (d.whole > 0 || frac != ""), d.whole, frac)
  }

  lemma {:induction false} TrailingZeroIsWorthless(frac: string)
    requires AllDigits(frac) && frac != "" && frac[|frac| - 1] == '0'
    ensures FractionValue(frac) == FractionValue(frac[..|frac| - 1])
  {
    if |frac| > 1 {
      TrailingZeroIsWorthless(frac[1..]);
      assert frac[1..][..|frac| - 2] == frac[..|frac| - 1][1..];
    } else {
      assert frac[1..] == "";
    }
  }

  lemma {:induction false} TrimmingKeepsValue(frac: string)
    requires AllDigits(frac)
    ensures FractionValue(TrimZeros(frac)) == FractionValue(frac)
  {
    if frac != "" && frac[|frac| - 1] == '0' {
      TrailingZeroIsWorthless(frac);
      TrimmingKeepsValue(frac[..|frac| - 1]);
    }
  }

  /** Reading a literal loses nothing but its spelling. */
  lemma NumberKeepsValue(d: Decimal)
    requires IsLiteral(d)
    ensures Value(Number(d)) == Value(d)
    ensures Canonical(d) ==> Number(d) == d
  {
    TrimmingKeepsValue(d.frac);
  }

  // ---- Half degrees -----------------------------------------------------------------------------

  function Abs(n: int): nat {
    if n < 0 then -n else n
  }

  /** `halves` / 2 as a number. */
  function OfHalves(halves: int): (d: Decimal)
    ensures Canonical(d)
  {
    Decimal(halves < 0, Abs(halves) / 2, if Abs(halves) % 2 == 1 then "5" else "")
  }

  function ToHalves(d: Decimal): Option<int> {
    var sign := if d.neg then -1 else 1;
    if d.frac == "" then Some(sign * 2 * d.whole)
    else if d.frac == "5" then Some(sign * (2 * d.whole + 1))
    else None
  }

  lemma HalvesRoundTrip(halves: int)
    ensures ToHalves(OfHalves(halves)) == Some(halves)
    ensures Value(OfHalves(halves)) == halves as real / 2.0
  {
    assert FractionValue("") == 0.0;
    assert FractionValue("5") == 0.5 by { assert "5"[1..] == ""; }
  }

  /** Only the numbers that are half degrees are read as such. */
  lemma HalvesAreExact(d: Decimal)
    requires IsLiteral(d) && ToHalves(d).Some?
    ensures Value(d) == ToHalves(d).value as real / 2.0
  {
    assert FractionValue("") == 0.0;
    assert FractionValue("5") == 0.5 by { assert "5"[1..] == ""; }
  }

  // ---- Fields between bars ----------------------------------------------------------------------

  predicate NoBar(s: string) {
    '|' !in s
  }

  function BarAt(s: string, from: nat): (k: nat)
    requires from <= |s|
    ensures from <= k <= |s|
    ensures k < |s| ==> s[k] == '|'
    ensures forall i :: from <= i < k ==> s[i] != '|'
    decreases |s| - from
  {
    if from == |s| || s[from] == '|' then from else BarAt(s, from + 1)
  }

  /** What stands before and after the first bar. */
  function SplitBar(s: string): Option<(string, string)> {
    var k := BarAt(s, 0);
    if k < |s| then Some((s[..k], s[k + 1..])) else None
  }

  function Fields3(a: string, b: string, c: string): string {
    a + "|" + b + "|" + c
  }

  /** Python's `split("|", 2)` when it yields three parts. */
  function Split3(s: string): Option<(string, string, string)> {
    var first := SplitBar(s);
    if first.None? then None
    else
      var second := SplitBar(first.value.1);
      if second.None? then None else Some((first.value.0, second.value.0, second.value.1))
  }

  lemma SplitJoined(a: string, rest: string)
    requires NoBar(a)
    ensures SplitBar(a + "|" + rest) == Some((a, rest))
  {
    var s := a + "|" + rest;
    var k := BarAt(s, 0);
    assert s[|a|] == '|';
    assert forall i :: 0 <= i < |a| ==> s[i] == a[i];
    assert s[..|a|] == a && s[|a| + 1..] == rest;
  }

  lemma Split3Joined(a: string, b: string, c: string)
    requires NoBar(a) && NoBar(b)
    ensures Split3(Fields3(a, b, c)) == Some((a, b, c))
  {
    assert Fields3(a, b, c) == a + "|" + (b + "|" + c);
    SplitJoined(a, b + "|" + c);
    SplitJoined(b, c);
  }

  lemma JoinedSplit(s: string)
    requires SplitBar(s).Some?
    ensures var (a, rest) := SplitBar(s).value; NoBar(a) && a + "|" + rest == s
  {
    var k := BarAt(s, 0);
    assert s == s[..k] + [s[k]] + s[k + 1..];
  }

  lemma JoinedSplit3(s: string)
    requires Split3(s).Some?
    ensures var (a, b, c) := Split3(s).value; NoBar(a) && NoBar(b) && Fields3(a, b, c) == s
  {
    var (a, b, c) := Split3(s).value;
    JoinedSplit(s);
    JoinedSplit(SplitBar(s).value.1);
    assert Fields3(a, b, c) == a + "|" + (b + "|" + c);
  }
}
