/** When a control takes a confirmed feature, condition by condition (local_control_confirmed_features.py
    lines 224 to 338). */
module FeatureAcceptance {
  import opened Wrappers
  import opened DecimalText
  import opened FeatureRows
  import opened FeatureBranches
  import opened FeatureMeaning

  predicate Sends(ms: seq<Mapping>, request: string) {
    exists i :: 0 <= i < |ms| && ms[i].request == request
  }

  lemma {:induction false} RequestsAre(ms: seq<Mapping>, request: string)
    ensures |Requests(ms)| == |ms| && (request in Requests(ms) <==> Sends(ms, request))
  {
    if ms != [] {
      RequestsAre(ms[..|ms| - 1], request);
      if i :| 0 <= i < |ms| && ms[i].request == request {
        assert i < |ms| - 1 ==> ms[..|ms| - 1][i].request == request;
      }
    }
  }

  /** No two rows ask for the same value, and none for one the control has. */
  predicate AsksForNewValues(owner: Descriptor, rows: seq<Row>) {
    && rows != [] && (forall i, j :: 0 <= i < j < |rows| ==> rows[i].value != rows[j].value)
    && forall i :: 0 <= i < |rows| ==> !Sends(owner.mappings, rows[i].value)
  }

  lemma NewValuesIff(owner: Descriptor, rows: seq<Row>)
    ensures AsksForNewValues(owner, rows) <==> Values(rows) != [] && Distinct(Values(rows)) && Disjoint(Values(rows), owner.Exact())
  {
    ValuesAreOfRows(rows);
    forall i | 0 <= i < |rows| ensures rows[i].value in Values(rows) && (rows[i].value in owner.Exact() <==> Sends(owner.mappings, rows[i].value)) {
      assert Values(rows)[i] == rows[i].value;
      RequestsAre(owner.mappings, rows[i].value);
    }
    if Distinct(Values(rows)) {
      forall i, j | 0 <= i < j < |rows| ensures rows[i].value != rows[j].value {
        assert Values(rows)[i] != Values(rows)[j];
      }
    }
  }

  /** A switch can be extended if and only if each row asks for off or on, which it does not have, and
      reports the same. */
  lemma SwitchAcceptedIff(owner: Descriptor, f: Feature)
    ensures ExtendBoolean(owner, f).Ok? <==>
      && owner.kind == "boolean" && owner.domain == "switch" && f.domain == "switch" && owner.existingOwner && f.existingOwner
      && AsksForNewValues(owner, f.rows)
      && forall i :: 0 <= i < |f.rows| ==> f.rows[i].value in {"false", "true"} && f.rows[i].reported == Some(Flag(f.rows[i].value == "true"))
  {
    NewValuesIff(owner, f.rows);
    ValuesAreOfRows(f.rows);
    forall i | 0 <= i < |f.rows| ensures f.rows[i].value in Values(f.rows) && f.rows[i] in f.rows {
      assert Values(f.rows)[i] == f.rows[i].value;
    }
  }

  /** Reports and names of the rows are new too, as Python compares them. */
  predicate BringsNewNames(owner: Descriptor, rows: seq<Row>) {
    forall i, k :: 0 <= i < |rows| && 0 <= k < |owner.mappings| ==> Text(rows[i].name) != AsKey(owner.mappings[k].name)
  }

  lemma NewNamesIff(owner: Descriptor, rows: seq<Row>)
    ensures BringsNewNames(owner, rows) <==> Disjoint(Labels(RowMappings(rows)), Labels(owner.mappings))
  {
    RowMappingsAre(rows);
    var a, b := Labels(RowMappings(rows)), Labels(owner.mappings);
    if BringsNewNames(owner, rows) {
      forall x | x in a ensures x !in b {
        var i :| 0 <= i < |a| && a[i] == x;
        assert a[i] == Text(rows[i].name);
      }
    }
    if Disjoint(a, b) {
      forall i, k | 0 <= i < |rows| && 0 <= k < |owner.mappings| ensures Text(rows[i].name) != AsKey(owner.mappings[k].name) {
        assert a[i] == Text(rows[i].name) && a[i] in a && b[k] in b;
      }
    }
  }

  predicate BringsNewReports(owner: Descriptor, rows: seq<Row>) {
    && (forall i, j :: 0 <= i < j < |rows| ==> AsKey(NamedChoice(rows[i]).report) != AsKey(NamedChoice(rows[j]).report))
    && forall i, k :: 0 <= i < |rows| && 0 <= k < |owner.supported| ==> AsKey(NamedChoice(rows[i]).report) != AsKey(owner.supported[k])
  }

  lemma NewReportsIff(owner: Descriptor, rows: seq<Row>)
    ensures BringsNewReports(owner, rows) <==> Distinct(Keys(Reports(rows))) && Disjoint(Keys(Reports(rows)), Keys(owner.supported))
  {
    var a, b := Keys(Reports(rows)), Keys(owner.supported);
    assert forall i :: 0 <= i < |rows| ==> a[i] == AsKey(NamedChoice(rows[i]).report);
    if BringsNewReports(owner, rows) {
      forall x | x in a ensures x !in b {
        var i :| 0 <= i < |a| && a[i] == x;
      }
    }
    if Distinct(a) && Disjoint(a, b) {
      forall i, j | 0 <= i < j < |rows| ensures AsKey(NamedChoice(rows[i]).report) != AsKey(NamedChoice(rows[j]).report) {
        assert a[i] != a[j];
      }
      forall i, k | 0 <= i < |rows| && 0 <= k < |owner.supported| ensures AsKey(NamedChoice(rows[i]).report) != AsKey(owner.supported[k]) {
        assert a[i] in a && b[k] in b;
      }
    }
  }

  /** A select can be extended if and only if each row has a value, a name and a report, no fraction, and
      all of them are new. */
  lemma EnumAcceptedIff(owner: Descriptor, f: Feature)
    ensures ExtendEnum(owner, f).Ok? <==>
      && owner.kind == "enum" && owner.domain == "select"
      && AsksForNewValues(owner, f.rows) && BringsNewReports(owner, f.rows) && BringsNewNames(owner, f.rows)
      && forall i :: 0 <= i < |f.rows| ==>
           f.rows[i].value != "" && f.rows[i].name != "" && f.rows[i].reported.Some? && !f.rows[i].reported.value.Fraction?
  {
    NewValuesIff(owner, f.rows);
    NewReportsIff(owner, f.rows);
    NewNamesIff(owner, f.rows);
    forall i | 0 <= i < |f.rows| ensures f.rows[i] in f.rows {}
  }

  lemma {:induction false} IntsIff(vs: seq<string>)
    ensures IntsOf(vs).Some? <==> forall i :: 0 <= i < |vs| ==> IntOf(vs[i]).Some?
  {
    if vs != [] {
      IntsIff(vs[..|vs| - 1]);
    }
  }

  predicate PrintsNat(s: string, n: nat) {
    s == PrintNat(n)
  }

  /** The decimal text of a natural number. */
  ghost predicate IsNatural(s: string) {
    exists n: nat :: PrintsNat(s, n)
  }

  lemma NatTextIff(s: string)
    ensures IsNatText(s) <==> IsNatural(s)
    ensures IsNatText(s) ==> IntOf(s).Some?
  {
    if IsNatText(s) {
      PrintReadNat(s);
      assert PrintsNat(s, ReadDigits(s));
      NatTextIsCanonical(s);
    }
    if n: nat :| PrintsNat(s, n) {
      ReadPrintedNat(n);
    }
  }

  lemma {:induction false} RequestAt(ms: seq<Mapping>, i: nat)
    requires i < |ms|
    ensures |Requests(ms)| == |ms| && Requests(ms)[i] == ms[i].request
  {
    RequestsAre(ms, "");
    RequestsAre(ms[..|ms| - 1], "");
    if i < |ms| - 1 {
      RequestAt(ms[..|ms| - 1], i);
    }
  }

  // ---- Labels -----------------------------------------------------------------------------------

  /** The option is labelled as before. */
  predicate KeepsItsName(m: Mapping, labels: map<string, string>) {
    m.request in labels && m.name == Text(labels[m.request])
  }

  /** The first option that is not labelled as before is labelled otherwise. */
  predicate IsFirstRenamed(ms: seq<Mapping>, labels: map<string, string>, k: int) {
    && 0 <= k < |ms| && ms[k].request in labels && ms[k].name != Text(labels[ms[k].request])
    && forall j :: 0 <= j < k ==> KeepsItsName(ms[j], labels)
  }

  lemma {:induction false} RenamesIff(ms: seq<Mapping>, labels: map<string, string>)
    ensures Renames(ms, labels) == Some(false) <==> forall j :: 0 <= j < |ms| ==> KeepsItsName(ms[j], labels)
    ensures Renames(ms, labels) == Some(true) <==> exists k :: IsFirstRenamed(ms, labels, k)
  {
    if ms != [] {
      var rest := ms[1..];
      RenamesIff(rest, labels);
      assert forall j :: 0 <= j < |rest| ==> rest[j] == ms[j + 1];
      assert forall j :: 1 <= j < |ms| ==> ms[j] == rest[j - 1];
      if KeepsItsName(ms[0], labels) {
        if k :| IsFirstRenamed(rest, labels, k) {
          assert IsFirstRenamed(ms, labels, k + 1);
        }
        if k :| IsFirstRenamed(ms, labels, k) {
          assert IsFirstRenamed(rest, labels, k - 1);
        }
      } else if ms[0].request in labels {
        assert IsFirstRenamed(ms, labels, 0);
      }
    }
  }

  predicate Spells(vs: seq<string>, n: int, text: string) {
    IsNumberOf(vs, n) && text == PrintInt(n)
  }

  ghost predicate NamesExactly(names: set<string>, vs: seq<string>) {
    forall text :: text in names <==> exists n :: Spells(vs, n, text)
  }

  predicate AllDifferent(labels: map<string, string>) {
    && (forall text :: text in labels ==> labels[text] != "")
    && (forall a, b :: a in labels && b in labels && a != b ==> labels[a] != labels[b])
  }

  /** Every option keeps its name, or the feature declares that it renames; it refuses an option without
      a label, unless one before it is renamed. */
  ghost predicate RenamesAsDeclared(ms: seq<Mapping>, labels: map<string, string>, declared: bool) {
    || (forall j :: 0 <= j < |ms| ==> KeepsItsName(ms[j], labels))
    || (declared && exists k :: IsFirstRenamed(ms, labels, k))
  }

  /** Labels name exactly the old and new numbers, all differently, and rename the options of a select
      only as declared. */
  ghost predicate HasFittingLabels(owner: Descriptor, f: Feature) {
    f.labels.Some? ==>
      && NamesExactly(f.labels.value.Keys, owner.Exact() + Values(f.rows)) && AllDifferent(f.labels.value)
      && (owner.domain == "select" ==> RenamesAsDeclared(owner.mappings, f.labels.value, f.relabels))
  }

  lemma LabelsFitIff(owner: Descriptor, f: Feature)
    requires IntsOf(owner.Exact() + Values(f.rows)).Some?
    ensures LabelsFit(owner, f, Sorted(IntsOf(owner.Exact() + Values(f.rows)).value)) <==> HasFittingLabels(owner, f)
  {
    if f.labels.Some? {
      DeclaredIff(owner.mappings, f.labels.value, f.relabels);
      NamesIff(f.labels.value.Keys, owner.Exact() + Values(f.rows));
      assert AllDifferent(f.labels.value) <==>
        && (forall text :: text in f.labels.value ==> f.labels.value[text] != "")
        && (forall a, b :: a in f.labels.value && b in f.labels.value && a != b ==> f.labels.value[a] != f.labels.value[b]);
    }
  }

  lemma DeclaredIff(ms: seq<Mapping>, labels: map<string, string>, declared: bool)
    ensures Renames(ms, labels) == Some(false) || (Renames(ms, labels) == Some(true) && declared) <==> RenamesAsDeclared(ms, labels, declared)
  {
    RenamesIff(ms, labels);
  }

  lemma NamesIff(names: set<string>, vs: seq<string>)
    requires IntsOf(vs).Some?
    ensures names == (set n | n in Sorted(IntsOf(vs).value) :: PrintInt(n)) <==> NamesExactly(names, vs)
  {
    var texts := set n | n in Sorted(IntsOf(vs).value) :: PrintInt(n);
    forall text: string ensures text in texts <==> exists n :: Spells(vs, n, text) {
      SpelledIff(vs, text);
    }
  }

  lemma SpelledIff(vs: seq<string>, text: string)
    requires IntsOf(vs).Some?
    ensures (exists n :: n in Sorted(IntsOf(vs).value) && PrintInt(n) == text) <==> exists n :: Spells(vs, n, text)
  {
    var ns := Sorted(IntsOf(vs).value);
    SortedKeeps(IntsOf(vs).value);
    if n :| n in ns && PrintInt(n) == text {
      IntsOfAre(vs, n);
      assert Spells(vs, n, text);
    }
    if n :| Spells(vs, n, text) {
      IntsOfAre(vs, n);
    }
  }

  /** Numbers can be added if and only if the values are new natural numbers, the old requests integers,
      and the labels, where the feature has them, fit. */
  lemma NumbersAcceptedIff(owner: Descriptor, f: Feature)
    ensures ExtendNumeric(owner, f).Ok? <==>
      && owner.kind in {"number", "enum"} && owner.domain in {"number", "select"} && AsksForNewValues(owner, f.rows)
      && (forall i :: 0 <= i < |f.rows| ==> IsNatural(f.rows[i].value))
      && (forall k :: 0 <= k < |owner.mappings| ==> IntOf(owner.mappings[k].request).Some?)
      && HasFittingLabels(owner, f)
  {
    NewValuesIff(owner, f.rows);
    NaturalValuesIff(f.rows);
    OldIntegers(owner, Values(f.rows));
    if IntsOf(owner.Exact() + Values(f.rows)).Some? {
      LabelsFitIff(owner, f);
    }
    assert (exists v :: v in Values(f.rows) && !IsNatText(v)) <==> !(forall v :: v in Values(f.rows) ==> IsNatText(v));
  }

  lemma {:induction false} NothingRenamed(ms: seq<Mapping>, labels: map<string, string>, k: nat)
    requires Renames(ms, labels) == Some(false) && k < |ms|
    ensures ms[k].request in labels && ms[k].name == Text(labels[ms[k].request])
  {
    if k > 0 {
      NothingRenamed(ms[1..], labels, k - 1);
    }
  }

  /** Labels, where the feature has them, name exactly the numbers the control then has, all differently;
      they rename no option a select had before unless the feature declares it. */
  lemma LabelsOfAccepted(owner: Descriptor, f: Feature)
    requires ExtendNumeric(owner, f).Ok? && f.labels.Some?
    ensures var labels, ps := f.labels.value, ExtendNumeric(owner, f).value.supported;
      && (forall text :: text in labels <==> exists i :: 0 <= i < |ps| && ps[i].Whole? && PrintInt(ps[i].n) == text)
      && (forall a, b :: a in labels && b in labels && a != b ==> labels[a] != labels[b])
      && (forall text :: text in labels ==> labels[text] != "")
    ensures owner.domain == "select" && !f.relabels ==> forall k :: 0 <= k < |owner.mappings| ==>
      owner.mappings[k].request in f.labels.value && owner.mappings[k].name == Text(f.labels.value[owner.mappings[k].request])
  {
    var ns := NumericShape(owner, f);
    var ps := ExtendNumeric(owner, f).value.supported;
    forall text ensures text in f.labels.value <==> exists i :: 0 <= i < |ps| && ps[i].Whole? && PrintInt(ps[i].n) == text {
      if text in f.labels.value {
        var n :| n in ns && PrintInt(n) == text;
        var i :| 0 <= i < |ns| && ns[i] == n;
        assert ps[i] == Whole(n);
      }
    }
    if owner.domain == "select" && !f.relabels {
      forall k | 0 <= k < |owner.mappings|
        ensures owner.mappings[k].request in f.labels.value && owner.mappings[k].name == Text(f.labels.value[owner.mappings[k].request])
      {
        NothingRenamed(owner.mappings, f.labels.value, k);
      }
    }
  }

  lemma NaturalValuesIff(rows: seq<Row>)
    ensures (forall v :: v in Values(rows) ==> IsNatText(v)) <==> forall i :: 0 <= i < |rows| ==> IsNatural(rows[i].value)
  {
    ValuesAreOfRows(rows);
    if forall v :: v in Values(rows) ==> IsNatText(v) {
      forall i | 0 <= i < |rows| ensures IsNatural(rows[i].value) {
        assert Values(rows)[i] in Values(rows);
        NatTextIff(rows[i].value);
      }
    }
    if forall i :: 0 <= i < |rows| ==> IsNatural(rows[i].value) {
      forall v | v in Values(rows) ensures IsNatText(v) {
        var i :| 0 <= i < |rows| && Values(rows)[i] == v;
        NatTextIff(rows[i].value);
      }
    }
  }

  lemma OldIntegers(owner: Descriptor, values: seq<string>)
    ensures IntsOf(owner.Exact() + values).Some? ==> forall k :: 0 <= k < |owner.mappings| ==> IntOf(owner.mappings[k].request).Some?
    ensures (forall v :: v in values ==> IsNatText(v)) && (forall k :: 0 <= k < |owner.mappings| ==> IntOf(owner.mappings[k].request).Some?) ==>
      IntsOf(owner.Exact() + values).Some?
  {
    var all := owner.Exact() + values;
    IntsIff(all);
    RequestsAre(owner.mappings, "");
    forall k | 0 <= k < |owner.mappings| ensures all[k] == owner.mappings[k].request {
      RequestAt(owner.mappings, k);
    }
    if forall v :: v in values ==> IsNatText(v) {
      forall i | |owner.mappings| <= i < |all| ensures IntOf(all[i]).Some? {
        NatTextIff(all[i]);
      }
    }
  }

  /** A row for a value the control does not have has a name it does not have. */
  predicate NamesNewOnesAnew(owner: Descriptor, rows: seq<Row>) {
    forall row, k :: row in rows && !Sends(owner.mappings, row.value) && 0 <= k < |owner.mappings| ==>
      Text(row.name) != AsKey(owner.mappings[k].name)
  }

  lemma NewRowsNamedAnew(owner: Descriptor, rows: seq<Row>)
    ensures BringsNewNames(owner, NewRows(rows, owner.Exact())) <==> NamesNewOnesAnew(owner, rows)
  {
    var added := NewRows(rows, owner.Exact());
    forall row ensures row in added <==> row in rows && !Sends(owner.mappings, row.value) {
      NewRowsAre(rows, owner.Exact(), row);
      RequestsAre(owner.mappings, row.value);
    }
    if BringsNewNames(owner, added) {
      forall row, k | row in added && 0 <= k < |owner.mappings| ensures Text(row.name) != AsKey(owner.mappings[k].name) {
        var i :| 0 <= i < |added| && added[i] == row;
      }
    }
  }

  /** The operation mode can be extended if and only if the rows ask for every value it has, each once,
      report old values as before, and name new ones anew. */
  lemma OperationModeAcceptedIff(owner: Descriptor, f: Feature)
    ensures ExtendHum(owner, f).Ok? <==>
      && owner.kind == "enum" && owner.domain == "select" && f.domain == "select" && f.rows != []
      && (forall i, j :: 0 <= i < j < |f.rows| ==> f.rows[i].value != f.rows[j].value)
      && (forall k :: 0 <= k < |owner.mappings| ==> AsksFor(f.rows, owner.mappings[k].request))
      && (forall i :: 0 <= i < |f.rows| ==> ReportsAsBefore(owner, f.rows[i]))
      && NamesNewOnesAnew(owner, f.rows)
  {
    ValuesAreOfRows(f.rows);
    NewNamesIff(owner, NewRows(f.rows, owner.Exact()));
    NewRowsNamedAnew(owner, f.rows);
    DistinctValues(f.rows);
    AllRequestsKept(owner, f.rows);
    forall i | 0 <= i < |f.rows| ensures f.rows[i] in f.rows {}
    forall row ensures ReportsAsBefore(owner, row) <==>
      (OldReport(owner.supported, owner.mappings, row.value).Some? ==>
        AsKey(OldReport(owner.supported, owner.mappings, row.value).value) == AsKey(ReportOf(row)))
    {
      OldReportIsOfLast(owner.supported, owner.mappings, row.value);
    }
  }

  lemma DistinctValues(rows: seq<Row>)
    ensures Distinct(Values(rows)) <==> forall i, j :: 0 <= i < j < |rows| ==> rows[i].value != rows[j].value
  {
    ValuesAreOfRows(rows);
    if Distinct(Values(rows)) {
      forall i, j | 0 <= i < j < |rows| ensures rows[i].value != rows[j].value {
        assert Values(rows)[i] != Values(rows)[j];
      }
    }
  }

  predicate AsksFor(rows: seq<Row>, request: string) {
    exists i :: 0 <= i < |rows| && rows[i].value == request
  }

  lemma AllRequestsKept(owner: Descriptor, rows: seq<Row>)
    ensures (forall v :: v in owner.Exact() ==> v in Values(rows))
      <==> forall k :: 0 <= k < |owner.mappings| ==> AsksFor(rows, owner.mappings[k].request)
  {
    ValuesAreOfRows(rows);
    forall v ensures v in Values(rows) <==> AsksFor(rows, v) {
      if v in Values(rows) {
        var i :| 0 <= i < |Values(rows)| && Values(rows)[i] == v;
        assert rows[i].value == v;
      }
      if i :| 0 <= i < |rows| && rows[i].value == v {
        assert Values(rows)[i] == v;
      }
    }
    forall k | 0 <= k < |owner.mappings| ensures owner.mappings[k].request in owner.Exact() {
      RequestsAre(owner.mappings, owner.mappings[k].request);
    }
    forall v | v in owner.Exact() ensures exists k :: 0 <= k < |owner.mappings| && owner.mappings[k].request == v {
      RequestsAre(owner.mappings, v);
    }
  }

  /** The i-th option is the last one that sends this request and reports anything. */
  predicate IsLastReport(supported: seq<Primitive>, ms: seq<Mapping>, request: string, i: int) {
    && 0 <= i < |ms| && i < |supported| && ms[i].request == request
    && forall j :: i < j < |ms| && j < |supported| ==> ms[j].request != request
  }

  /** What the row reports is what the control reports for the same request, if it has it. */
  predicate ReportsAsBefore(owner: Descriptor, row: Row) {
    forall i :: 0 <= i < |owner.mappings| && IsLastReport(owner.supported, owner.mappings, row.value, i) ==> AsKey(owner.supported[i]) == AsKey(NamedChoice(row).report)
  }

  lemma {:induction false} OldReportIsOfLast(supported: seq<Primitive>, ms: seq<Mapping>, request: string)
    ensures forall i :: IsLastReport(supported, ms, request, i) ==> OldReport(supported, ms, request) == Some(supported[i])
    ensures OldReport(supported, ms, request).Some? ==> exists i :: IsLastReport(supported, ms, request, i)
  {
    if ms != [] {
      var n := |ms| - 1;
      OldReportIsOfLast(supported, ms[..n], request);
      if n < |supported| && ms[n].request == request {
        assert IsLastReport(supported, ms, request, n);
      } else {
        forall i ensures IsLastReport(supported, ms, request, i) <==> IsLastReport(supported, ms[..n], request, i) {}
      }
    }
  }
}
