/** What a confirmed feature makes of a control, row by row (local_control_confirmed_features.py lines
    199 to 393): which request carries which label and reports which value. */
module FeatureMeaning {
  import opened Wrappers
  import opened DecimalText
  import opened FeatureRows
  import opened FeatureBranches
  import opened ConfirmedFeatures

  /** The i-th option of a descriptor: what is sent for it, what it is called, what it reports. */
  datatype Choice = Choice(request: string, name: Primitive, report: Primitive)

  /** Options and reported values are two lists in step. */
  predicate InStep(d: Descriptor) {
    |d.supported| == |d.mappings|
  }

  function ChoiceAt(d: Descriptor, i: nat): Choice
    requires InStep(d) && i < |d.mappings|
  {
    Choice(d.mappings[i].request, d.mappings[i].name, d.supported[i])
  }

  function ChoicesOf(d: Descriptor): seq<Choice>
    requires InStep(d)
  {
    seq(|d.mappings|, i requires 0 <= i < |d.mappings| => ChoiceAt(d, i))
  }

  /** What a row offers, under its own name and reporting what it says, or its value. */
  function NamedChoice(row: Row): Choice {
    Choice(row.value, Text(row.name), match row.reported case Some(report) => report case None => Text(row.value))
  }

  function NamedChoices(rows: seq<Row>): seq<Choice> {
    seq(|rows|, i requires 0 <= i < |rows| => NamedChoice(rows[i]))
  }

  /** Nothing about the control changes but its options. */
  predicate IsSameControl(a: Descriptor, b: Descriptor) {
    b == a.(supported := b.supported, mappings := b.mappings)
  }

  // ---- An added control -------------------------------------------------------------------------

  /** The option a row becomes in a control of its own: on and off for a switch, the press of a button,
      otherwise the row's name. */
  function AddedChoice(f: Feature, row: Row): Choice {
    var truth := Flag(row.value == "true");
    if f.domain == "switch" then Choice(row.value, Text(if row.value == "true" then "on" else "off"), truth)
    else
      Choice(row.value, if f.domain == "button" then Text("press") else Text(row.name),
             if f.capability == "washer.fresh_care_enabled" then truth else NamedChoice(row).report)
  }

  function AddedName(domain: string, row: Row): string {
    if domain == "switch" then (if row.value == "true" then "on" else "off") else if domain == "button" then "press" else row.name
  }

  lemma {:induction false} AddedMappingsAre(domain: string, rows: seq<Row>)
    ensures |AddedMappings(domain, rows)| == |rows|
    ensures forall i :: 0 <= i < |rows| ==> AddedMappings(domain, rows)[i] == Mapping(Text(AddedName(domain, rows[i])), rows[i].value)
  {
    if rows != [] {
      AddedMappingsAre(domain, rows[..|rows| - 1]);
    }
  }

  /** A feature that adds a control gives it one option for each of its rows, in order; the control is
      its own, named after model and capability, and a press sends once. */
  lemma AddedControl(f: Feature)
    ensures var d := Added(f);
      && InStep(d) && |d.mappings| == |f.rows| && (forall i :: 0 <= i < |f.rows| ==> ChoiceAt(d, i) == AddedChoice(f, f.rows[i]))
      && d.key == f.model + "|" + f.capability && d.model == f.model && d.capability == f.capability && d.domain == f.domain
      && d.kind == (if f.domain == "switch" then "boolean" else "enum") && d.oneShot == (f.domain == "button")
      && d.existingOwner == f.existingOwner && d.factoryEligible == !f.existingOwner
      && d.schema == f.schema && d.numberMin.None? && d.numberMax.None? && d.numberStep.None?
  {
    AddedMappingsAre(f.domain, f.rows);
  }

  // ---- An extended one --------------------------------------------------------------------------

  lemma {:induction false} RowMappingsAre(rows: seq<Row>)
    ensures |RowMappings(rows)| == |rows|
    ensures forall i :: 0 <= i < |rows| ==> RowMappings(rows)[i] == Mapping(Text(rows[i].name), rows[i].value)
  {
    if rows != [] {
      RowMappingsAre(rows[..|rows| - 1]);
    }
  }

  lemma AppendedChoices(owner: Descriptor, rows: seq<Row>)
    requires InStep(owner)
    ensures var d := owner.(supported := owner.supported + Reports(rows), mappings := owner.mappings + RowMappings(rows));
      InStep(d) && ChoicesOf(d) == ChoicesOf(owner) + NamedChoices(rows)
  {
    RowMappingsAre(rows);
    var d := owner.(supported := owner.supported + Reports(rows), mappings := owner.mappings + RowMappings(rows));
    forall i | 0 <= i < |d.mappings| ensures ChoicesOf(d)[i] == (ChoicesOf(owner) + NamedChoices(rows))[i] {}
  }

  /** An enum keeps its options and gets one for each row, after them. */
  lemma ExtendedEnum(owner: Descriptor, f: Feature)
    requires InStep(owner) && Extend(EnumBranch, owner, f).Ok?
    ensures var d := Extend(EnumBranch, owner, f).value;
      IsSameControl(owner, d) && InStep(d) && ChoicesOf(d) == ChoicesOf(owner) + NamedChoices(f.rows)
  {
    AppendedChoices(owner, f.rows);
  }

  lemma {:induction false} NewRowsAre(rows: seq<Row>, exact: seq<string>, row: Row)
    ensures row in NewRows(rows, exact) <==> row in rows && row.value !in exact
  {
    if rows != [] {
      NewRowsAre(rows[..|rows| - 1], exact, row);
      assert rows == rows[..|rows| - 1] + [rows[|rows| - 1]];
    }
  }

  /** The operation mode keeps its options and gets one for each row it did not have, after them. */
  lemma ExtendedOperationMode(owner: Descriptor, f: Feature) returns (added: seq<Row>)
    requires InStep(owner) && Extend(HumBranch, owner, f).Ok?
    ensures var d := Extend(HumBranch, owner, f).value;
      IsSameControl(owner, d) && InStep(d) && ChoicesOf(d) == ChoicesOf(owner) + NamedChoices(added)
    ensures forall row :: row in added <==> row in f.rows && row.value !in owner.Exact()
  {
    added := NewRows(f.rows, owner.Exact());
    AppendedChoices(owner, added);
    forall row ensures row in added <==> row in f.rows && row.value !in owner.Exact() {
      NewRowsAre(f.rows, owner.Exact(), row);
    }
  }

  /** The name a request had, or else its truth. */
  function SwitchName(owner: seq<Mapping>, request: string): Primitive {
    match LabelOf(owner, request)
    case Some(old_) => old_
    case None => Flag(request == "true")
  }

  lemma {:induction false} BooleanMappingsAre(owner: seq<Mapping>, requests: seq<string>)
    ensures |BooleanMappings(owner, requests)| == |requests|
    ensures forall i :: 0 <= i < |requests| ==> BooleanMappings(owner, requests)[i] == Mapping(SwitchName(owner, requests[i]), requests[i])
  {
    if requests != [] {
      BooleanMappingsAre(owner, requests[..|requests| - 1]);
    }
  }

  /** The label of a request is that of the last option that sends it. */
  lemma {:induction false} LabelIsOfLast(ms: seq<Mapping>, request: string)
    ensures LabelOf(ms, request).None? <==> forall i :: 0 <= i < |ms| ==> ms[i].request != request
    ensures forall i :: 0 <= i < |ms| && ms[i].request == request && (forall j :: i < j < |ms| ==> ms[j].request != request) ==>
      LabelOf(ms, request) == Some(ms[i].name)
  {
    if ms != [] {
      LabelIsOfLast(ms[..|ms| - 1], request);
    }
  }

  /** The values off and on that the control had or is given, off before on; each reports its own truth,
      an old one under its old name. */
  ghost predicate IsSwitchOf(owner: Descriptor, values: seq<string>, d: Descriptor) {
    && InStep(d) && 1 <= |d.mappings| <= 2
    && (|d.mappings| == 2 ==> d.mappings[0].request == "false" && d.mappings[1].request == "true")
    && (forall v :: v in d.Exact() <==> v in {"false", "true"} && (v in owner.Exact() || v in values))
    && forall i :: 0 <= i < |d.mappings| ==>
         && ChoiceAt(d, i).report == Flag(ChoiceAt(d, i).request == "true")
         && ChoiceAt(d, i).name == SwitchName(owner.mappings, ChoiceAt(d, i).request)
  }

  /** A switch gets the values it did not have. */
  lemma ExtendedSwitch(owner: Descriptor, f: Feature)
    requires Extend(BooleanBranch, owner, f).Ok?
    ensures IsSameControl(owner, Extend(BooleanBranch, owner, f).value)
    ensures IsSwitchOf(owner, Values(f.rows), Extend(BooleanBranch, owner, f).value)
  {
    SwitchValues(owner, f);
    SwitchShape(owner, f);
    SwitchMeaning(owner, Values(f.rows), ExtendBoolean(owner, f).value);
  }

  lemma SwitchMeaning(owner: Descriptor, values: seq<string>, d: Descriptor)
    requires values != [] && values[0] in {"false", "true"}
    requires IsSwitchShape(owner, values, d)
    ensures IsSwitchOf(owner, values, d)
  {
    var requests := Both(owner.Exact() + values);
    assert values[0] in owner.Exact() + values;
    BothAre(owner.Exact() + values, values[0]);
    SwitchOptions(owner.mappings, d, requests);
  }

  predicate IsSwitchShape(owner: Descriptor, values: seq<string>, d: Descriptor) {
    var requests := Both(owner.Exact() + values);
    && d.mappings == BooleanMappings(owner.mappings, requests)
    && |d.supported| == |requests| && forall i :: 0 <= i < |requests| ==> d.supported[i] == Flag(requests[i] == "true")
  }

  lemma SwitchShape(owner: Descriptor, f: Feature)
    requires ExtendBoolean(owner, f).Ok?
    ensures IsSameControl(owner, ExtendBoolean(owner, f).value) && IsSwitchShape(owner, Values(f.rows), ExtendBoolean(owner, f).value)
  {
  }

  lemma SwitchValues(owner: Descriptor, f: Feature)
    requires ExtendBoolean(owner, f).Ok?
    ensures Values(f.rows) != [] && Values(f.rows)[0] in {"false", "true"}
  {
    var v := Values(f.rows)[0];
    assert v in Values(f.rows);
  }

  lemma BothAre(vs: seq<string>, v: string)
    requires v in vs && v in {"false", "true"}
    ensures Both(vs) == ["false", "true"] || Both(vs) == [v]
    ensures forall w :: w in Both(vs) <==> w in {"false", "true"} && w in vs
  {
  }

  lemma SwitchOptions(owner: seq<Mapping>, d: Descriptor, requests: seq<string>)
    requires d.mappings == BooleanMappings(owner, requests)
    requires |d.supported| == |requests| && forall i :: 0 <= i < |requests| ==> d.supported[i] == Flag(requests[i] == "true")
    ensures InStep(d) && |d.mappings| == |requests| && d.Exact() == requests
    ensures forall i :: 0 <= i < |requests| ==>
      ChoiceAt(d, i) == Choice(requests[i], SwitchName(owner, requests[i]), Flag(requests[i] == "true"))
  {
    BooleanMappingsAre(owner, requests);
    BooleanRequests(owner, requests);
  }

  lemma {:induction false} NumberMappingsAre(owner: Descriptor, f: Feature, domain: string, ns: seq<int>)
    ensures |NumberMappings(owner, f, domain, ns)| == |ns|
    ensures forall i :: 0 <= i < |ns| ==> NumberMappings(owner, f, domain, ns)[i] == Mapping(NumberLabel(owner, f, domain, ns[i]), PrintInt(ns[i]))
  {
    if ns != [] {
      NumberMappingsAre(owner, f, domain, ns[..|ns| - 1]);
    }
  }

  /** How an option of a number is called: as the feature labels it; in a number control by the number;
      in a select that had it as before; and otherwise by the number with the control's unit, which a
      select with nothing but plain numbers leaves out. */
  predicate IsCalled(owner: Descriptor, f: Feature, isNumber: bool, n: int, name: Primitive) {
    var text := PrintInt(n);
    if f.labels.Some? then text in f.labels.value && name == Text(f.labels.value[text])
    else if isNumber then name == Whole(n)
    else if owner.domain == "select" && LabelOf(owner.mappings, text).Some? then name == LabelOf(owner.mappings, text).value
    else
      name == Text(
        if owner.unit.None? || (owner.domain == "select" && forall m :: m in owner.mappings ==> m.name == Text(m.request)) then text
        else text + owner.unit.value)
  }

  /** A number of the old values or of the feature's. */
  predicate IsNumberOf(vs: seq<string>, n: int) {
    exists v :: v in vs && IntOf(v) == Some(n)
  }

  /** Each option sends its number, reports it and is called as it should; the numbers are in order, and
      they are those of the old and new values. */
  ghost predicate HoldsNumbers(owner: Descriptor, f: Feature, d: Descriptor) {
    && InStep(d)
    && (forall i :: 0 <= i < |d.mappings| ==>
          && d.supported[i].Whole? && d.mappings[i].request == PrintInt(d.supported[i].n)
          && IsCalled(owner, f, d.domain == "number", d.supported[i].n, d.mappings[i].name))
    && (forall i, j :: 0 <= i < j < |d.supported| ==> d.supported[i].Whole? && d.supported[j].Whole? && d.supported[i].n <= d.supported[j].n)
    && (forall n :: Whole(n) in d.supported <==> IsNumberOf(owner.Exact() + Values(f.rows), n))
  }

  lemma NumbersHeld(owner: Descriptor, f: Feature)
    requires Extend(NumericBranch, owner, f).Ok?
    ensures HoldsNumbers(owner, f, Extend(NumericBranch, owner, f).value)
  {
    var d := Extend(NumericBranch, owner, f).value;
    var ns := NumericShape(owner, f);
    NumericOptions(owner, f, d, ns);
    NumericMembersAre(owner.Exact() + Values(f.rows), ns, d.supported);
  }

  /** An extended control holds the old and the new numbers.  It is a number control if and only if it was
      one, the feature labels nothing and all steps are equal; else a select. */
  lemma ExtendedNumbers(owner: Descriptor, f: Feature)
    requires Extend(NumericBranch, owner, f).Ok?
    ensures var d := Extend(NumericBranch, owner, f).value;
      && InStep(d) && IsSameControl(owner, d.(domain := owner.domain, kind := owner.kind, numberMin := owner.numberMin,
                                              numberMax := owner.numberMax, numberStep := owner.numberStep))
      && (d.domain, d.kind) in {("number", "number"), ("select", "enum")}
      && (d.domain == "number" <==> f.labels.None? && owner.domain == "number" && IsEvenlySpaced(d.supported))
      && (d.domain == "select" ==> d.numberMin.None? && d.numberMax.None? && d.numberStep.None?)
    ensures HoldsNumbers(owner, f, Extend(NumericBranch, owner, f).value)
  {
    var ns := NumericShape(owner, f);
    EvenlySpacedIff(ns, Extend(NumericBranch, owner, f).value.supported);
    NumbersHeld(owner, f);
  }

  /** The sorted numbers an extended control is made of. */
  lemma NumericShape(owner: Descriptor, f: Feature) returns (ns: seq<int>)
    requires Extend(NumericBranch, owner, f).Ok?
    ensures IntsOf(owner.Exact() + Values(f.rows)).Some? && ns == Sorted(IntsOf(owner.Exact() + Values(f.rows)).value)
    ensures LabelsFit(owner, f, ns)
    ensures var d := Extend(NumericBranch, owner, f).value;
      && |d.supported| == |ns| && (forall i :: 0 <= i < |ns| ==> d.supported[i] == Whole(ns[i]))
      && d.mappings == NumberMappings(owner, f, d.domain, ns) && |d.mappings| == |ns|
      && IsSameControl(owner, d.(domain := owner.domain, kind := owner.kind, numberMin := owner.numberMin,
                                 numberMax := owner.numberMax, numberStep := owner.numberStep))
      && (d.domain, d.kind) in {("number", "number"), ("select", "enum")}
      && (d.domain == "number" <==> f.labels.None? && owner.domain == "number" && |Gaps(ns)| == 1)
      && (d.domain == "select" ==> d.numberMin.None? && d.numberMax.None? && d.numberStep.None?)
  {
    ns := Sorted(IntsOf(owner.Exact() + Values(f.rows)).value);
    NumberMappingsAre(owner, f, Extend(NumericBranch, owner, f).value.domain, ns);
  }

  lemma NumericOptions(owner: Descriptor, f: Feature, d: Descriptor, ns: seq<int>)
    requires LabelsFit(owner, f, ns) && d.mappings == NumberMappings(owner, f, d.domain, ns)
    requires |d.supported| == |ns| && forall i :: 0 <= i < |ns| ==> d.supported[i] == Whole(ns[i])
    ensures |d.mappings| == |ns|
    ensures forall i :: 0 <= i < |ns| ==> d.mappings[i].request == PrintInt(ns[i]) && IsCalled(owner, f, d.domain == "number", ns[i], d.mappings[i].name)
  {
    NumberMappingsAre(owner, f, d.domain, ns);
    forall i | 0 <= i < |ns| ensures IsCalled(owner, f, d.domain == "number", ns[i], d.mappings[i].name) {
      if f.labels.Some? {
        assert PrintInt(ns[i]) in (set n | n in ns :: PrintInt(n));
      }
    }
  }

  lemma NumericMembersAre(all: seq<string>, ns: seq<int>, ps: seq<Primitive>)
    requires IntsOf(all).Some? && ns == Sorted(IntsOf(all).value)
    requires |ps| == |ns| && forall i :: 0 <= i < |ns| ==> ps[i] == Whole(ns[i])
    ensures forall i, j :: 0 <= i < j < |ps| ==> ps[i].n <= ps[j].n
    ensures forall n :: Whole(n) in ps <==> IsNumberOf(all, n)
  {
    SortedAscends(IntsOf(all).value);
    SortedKeeps(IntsOf(all).value);
    forall n ensures Whole(n) in ps <==> IsNumberOf(all, n) {
      IntsOfAre(all, n);
      if n in ns {
        var i :| 0 <= i < |ns| && ns[i] == n;
        assert ps[i] == Whole(n);
      }
    }
  }

  /** At least two numbers, and one step between all neighbours. */
  predicate IsEvenlySpaced(ps: seq<Primitive>) {
    |ps| >= 2 && (forall p :: p in ps ==> p.Whole?) && forall i :: 0 < i < |ps| ==> ps[i].n - ps[i - 1].n == ps[1].n - ps[0].n
  }

  lemma {:induction false} GapsAre(ns: seq<int>, gap: int)
    ensures gap in Gaps(ns) <==> exists i :: 0 < i < |ns| && ns[i] - ns[i - 1] == gap
  {
    if |ns| >= 2 {
      GapsAre(ns[..|ns| - 1], gap);
      if i :| 0 < i < |ns| && ns[i] - ns[i - 1] == gap {
        assert i < |ns| - 1 ==> ns[..|ns| - 1][i] - ns[..|ns| - 1][i - 1] == gap;
      }
    }
  }

  lemma EvenlySpacedIff(ns: seq<int>, ps: seq<Primitive>)
    requires |ps| == |ns| && forall i :: 0 <= i < |ns| ==> ps[i] == Whole(ns[i])
    ensures |Gaps(ns)| == 1 <==> IsEvenlySpaced(ps)
  {
    if |Gaps(ns)| == 1 {
      forall i | 0 < i < |ns| ensures ns[i] - ns[i - 1] == ns[1] - ns[0] {
        OneGap(ns, i - 1, 0);
      }
    }
    if IsEvenlySpaced(ps) {
      forall gap ensures gap in Gaps(ns) <==> gap == ns[1] - ns[0] {
        GapsAre(ns, gap);
      }
      assert Gaps(ns) == {ns[1] - ns[0]};
    }
  }

  // ---- Whether a feature adds or extends --------------------------------------------------------

  /** The switch that has a native owner but no descriptor yet: observed off and on, in this order. */
  predicate IsNativeSwing(f: Feature) {
    && f.model == "CST_570004_WW" && f.capability == "swing.horizontal_enabled" && f.domain == "switch"
    && f.evidence == Some("own-model-observed-command-and-state") && |f.rows| == 2
    && f.rows[0].value == "false" && f.rows[1].value == "true"
    && f.rows[0].reported.Some? && AsKey(f.rows[0].reported.value) == Fraction(0.0)
    && f.rows[1].reported.Some? && AsKey(f.rows[1].reported.value) == Fraction(1.0)
  }

  /** A feature extends a control it says exists if its values come from the model's web domain, the
      native swing excepted, or if it is the observed operation mode of the humidifier. */
  predicate IsToExtend(f: Feature) {
    f.existingOwner
    && ((f.source == Some("exact-model-web-domain") && !IsNativeSwing(f))
        || (f.model == "HUM_056905_WW" && f.capability == "operation.mode" && f.evidence == Some("own-model-observed-command-and-state")))
  }

  /** As an enum or a switch if the feature says so, otherwise as numbers; the operation mode in its own
      way. */
  function BranchByKind(f: Feature): Branch {
    if f.source != Some("exact-model-web-domain") || IsNativeSwing(f) then HumBranch
    else match f.kind
      case Some(kind) => if kind == "boolean" then BooleanBranch else if kind == "enum" then EnumBranch else NumericBranch
      case None => NumericBranch
  }

  predicate IsOnlyOwner(rows: seq<Descriptor>, capability: string, i: int) {
    0 <= i < |rows| && rows[i].capability == capability && forall j :: 0 <= j < |rows| && rows[j].capability == capability ==> j == i
  }

  lemma {:induction false} NoOwner(rows: seq<Descriptor>, capability: string)
    ensures OwnersOf(rows, capability) == [] <==> forall d :: d in rows ==> d.capability != capability
  {
    if rows != [] {
      NoOwner(rows[..|rows| - 1], capability);
      assert rows == rows[..|rows| - 1] + [rows[|rows| - 1]];
    }
  }

  lemma {:induction false} OnlyOwner(rows: seq<Descriptor>, capability: string, i: int)
    requires IsOnlyOwner(rows, capability, i)
    ensures OwnersOf(rows, capability) == [rows[i]]
  {
    var n := |rows| - 1;
    if i < n {
      OnlyOwner(rows[..n], capability, i);
    } else {
      NoOwner(rows[..n], capability);
      assert forall d :: d in rows[..n] ==> d.capability != capability;
    }
  }

  lemma {:induction false} OwnerIndex(rows: seq<Descriptor>, capability: string) returns (i: int)
    requires |OwnersOf(rows, capability)| == 1
    ensures IsOnlyOwner(rows, capability, i)
  {
    var n := |rows| - 1;
    if rows[n].capability == capability {
      i := n;
      NoOwner(rows[..n], capability);
      assert forall j :: 0 <= j < n ==> rows[j] in rows[..n];
    } else {
      i := OwnerIndex(rows[..n], capability);
    }
  }

  lemma OwnersAre(rows: seq<Descriptor>, capability: string)
    ensures OwnersOf(rows, capability) == [] <==> forall d :: d in rows ==> d.capability != capability
    ensures |OwnersOf(rows, capability)| == 1 <==> exists i :: IsOnlyOwner(rows, capability, i)
    ensures forall i :: IsOnlyOwner(rows, capability, i) ==> OwnersOf(rows, capability) == [rows[i]]
  {
    NoOwner(rows, capability);
    forall i | IsOnlyOwner(rows, capability, i) ensures OwnersOf(rows, capability) == [rows[i]] {
      OnlyOwner(rows, capability, i);
    }
    if |OwnersOf(rows, capability)| == 1 {
      var i := OwnerIndex(rows, capability);
    }
  }

  lemma ValuesOfTwo(rows: seq<Row>)
    ensures Values(rows) == ["false", "true"] <==> |rows| == 2 && rows[0].value == "false" && rows[1].value == "true"
  {
    ValuesAreOfRows(rows);
  }

  lemma NativeIff(f: Feature)
    ensures NativeHorizontal(f) <==> f.existingOwner && IsNativeSwing(f)
  {
    ValuesOfTwo(f.rows);
  }

  /** A feature that is to extend needs exactly one control of its capability, which it extends as its
      kind says; any other needs that there is none, and adds one.  Whatever does not fit is refused. */
  lemma WhatAFeatureDoes(rows: seq<Descriptor>, f: Feature, schemas: set<(string, string, string)>)
    ensures var plan := PlanFor(rows, f, schemas);
      if IsToExtend(f) then
        && !plan.Addition?
        && (plan.Extension? ==> exists i :: IsOnlyOwner(rows, f.capability, i) && plan.owner == rows[i])
        && (plan.Extension? ==> plan.branch == BranchByKind(f) && Extend(plan.branch, plan.owner, f) == Ok(plan.descriptor))
        && (forall i :: IsOnlyOwner(rows, f.capability, i) && plan.Refuse? ==> Extend(BranchByKind(f), rows[i], f).Err?)
      else
        && !plan.Extension?
        && (plan.Addition? <==>
              && (forall d :: d in rows ==> d.capability != f.capability)
              && (f.schema.Some? ==> (f.model, f.capability, f.schema.value) in schemas && f.domain == "text" && f.rows == []))
        && (plan.Addition? ==> plan.descriptor == Added(f))
  {
    NativeIff(f);
    OwnersAre(rows, f.capability);
  }

  // ---- For whom ---------------------------------------------------------------------------------

  predicate IsBound(t: Tables, g: Setting, model: string) {
    exists b :: b in t.bindings && b in g.models && g.models[b] == model
  }

  function ScopeAt(t: Tables, b: string, capability: string): Option<seq<string>>
    requires b in t.bindings
  {
    if capability in t.bindings[b] then Some(t.bindings[b][capability]) else None
  }

  /** Over a whole catalogue, a binding's scope for a capability changes only by a feature of its model
      and this capability. */
  lemma {:induction false} OtherScopesStay(t: Tables, fs: seq<Feature>, g: Setting, b: string, capability: string)
    requires b in t.bindings && b in g.models && ApplyAll(t, fs, g).Ok?
    requires forall i :: 0 <= i < |fs| ==> fs[i].model != g.models[b] || fs[i].capability != capability
    ensures var after := ApplyAll(t, fs, g).value;
      after.bindings.Keys == t.bindings.Keys && ScopeAt(after, b, capability) == ScopeAt(t, b, capability)
  {
    if fs != [] {
      OtherScopesStay(t, fs[..|fs| - 1], g, b, capability);
    }
  }

  /** And a model none of the bindings has keeps its controls and gets none. */
  lemma {:induction false} UnboundModelsStay(t: Tables, fs: seq<Feature>, g: Setting, model: string)
    requires ApplyAll(t, fs, g).Ok? && !IsBound(t, g, model)
    ensures var after := ApplyAll(t, fs, g).value;
      && after.bindings.Keys == t.bindings.Keys && RowsOf(after.byModel, model) == RowsOf(t.byModel, model)
      && forall d :: d in after.additions ==> d in t.additions || d.model != model
  {
    if fs != [] {
      UnboundModelsStay(t, fs[..|fs| - 1], g, model);
      var before, f := ApplyAll(t, fs[..|fs| - 1], g).value, fs[|fs| - 1];
      if f.model == model {
        NobodyIsSelected(before, f, g);
      } else if Selected(before, f, g) {
        OtherModelIsTabled(PlanFor(RowsOf(before.byModel, f.model), f, g.schemas), before, f, model);
      }
    }
  }

  lemma NobodyIsSelected(t: Tables, f: Feature, g: Setting)
    requires !IsBound(t, g, f.model) && Apply(t, f, g).Ok?
    ensures Apply(t, f, g).value == t
  {
  }

  lemma OtherModelIsTabled(plan: Plan, t: Tables, f: Feature, model: string)
    requires f.model != model && (plan.Addition? ==> plan.descriptor.model == f.model)
    ensures RowsOf(Tabled(plan, t, f).byModel, model) == RowsOf(t.byModel, model)
    ensures forall d :: d in Tabled(plan, t, f).additions ==> d in t.additions || d.model == f.model
  {
  }
}
