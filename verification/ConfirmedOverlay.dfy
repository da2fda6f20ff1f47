/** What the whole overlay keeps, for every feature list: the two descriptor tables agree, a scope
    that was exact stays exact, and a scope that withheld an old value still withholds it. */
module ConfirmedOverlay {
  import opened Wrappers
  import opened DecimalText
  import opened FeatureRows
  import opened FeatureBranches
  import opened ConfirmedFeatures

  // ---- Keys -------------------------------------------------------------------------------------

  /** The identity every descriptor is loaded with (local_control_contract.py lines 409 to 415). */
  predicate Identified(d: Descriptor) {
    d.key == KeyOf(d.model, d.capability) && '|' !in d.model
  }

  lemma KeysIdentify(m: string, c: string, n: string, e: string)
    requires KeyOf(m, c) == KeyOf(n, e) && '|' !in m && '|' !in n
    ensures m == n && c == e
  {
    SplitJoined(m, c);
    SplitJoined(n, e);
  }

  ghost predicate RowsIdentified(rows: seq<Descriptor>, model: string) {
    forall d :: d in rows ==> Identified(d) && d.model == model
  }

  ghost predicate TablesIdentified(byModel: map<string, seq<Descriptor>>) {
    forall m :: m in byModel ==> RowsIdentified(byModel[m], m)
  }

  // ---- Owners -----------------------------------------------------------------------------------

  lemma {:induction false} OwnersAreRows(rows: seq<Descriptor>, c: string)
    ensures forall d :: d in OwnersOf(rows, c) <==> d in rows && d.capability == c
  {
    if rows != [] {
      OwnersAreRows(rows[..|rows| - 1], c);
      assert rows == rows[..|rows| - 1] + [rows[|rows| - 1]];
    }
  }

  lemma {:induction false} OwnersAfterReplacing(rows: seq<Descriptor>, model: string, owner: Descriptor, d: Descriptor, c: string)
    requires RowsIdentified(rows, model) && Identified(owner) && owner.model == model
    requires d.key == owner.key && d.model == owner.model && d.capability == owner.capability
    ensures RowsIdentified(Replaced(rows, owner.key, d), model)
    ensures OwnersOf(Replaced(rows, owner.key, d), c)
         == if c == owner.capability then Replaced(OwnersOf(rows, c), owner.key, d) else OwnersOf(rows, c)
  {
    if rows != [] {
      var n := |rows| - 1;
      assert rows == rows[..n] + [rows[n]];
      OwnersAfterReplacing(rows[..n], model, owner, d, c);
      var after := Replaced(rows, owner.key, d);
      assert after[..|after| - 1] == Replaced(rows[..n], owner.key, d);
      if rows[n].key == owner.key {
        KeysIdentify(model, rows[n].capability, model, owner.capability);
      }
      var owners := OwnersOf(rows, c);
      if rows[n].capability == c {
        assert owners[..|owners| - 1] == OwnersOf(rows[..n], c);
      } else {
        assert owners == OwnersOf(rows[..n], c);
      }
    }
  }

  lemma OwnersAfterAdding(rows: seq<Descriptor>, d: Descriptor, c: string)
    ensures OwnersOf(rows + [d], c) == OwnersOf(rows, c) + if d.capability == c then [d] else []
  {
    assert (rows + [d])[..|rows|] == rows;
  }

  // ---- One feature ------------------------------------------------------------------------------

  /** The owners of a capability among the descriptors of a model. */
  function Owners(t: Tables, m: string, c: string): seq<Descriptor> {
    OwnersOf(RowsOf(t.byModel, m), c)
  }

  /** What the overlay may rely on once a feature is to be taken up. */
  predicate Extends(plan: Plan, t: Tables, f: Feature) {
    && plan.Extension? && plan.owner in RowsOf(t.byModel, f.model) && Identified(plan.owner)
    && Owners(t, f.model, f.capability) == [plan.owner]
    && plan.owner.model == plan.descriptor.model == f.model
    && plan.owner.capability == plan.descriptor.capability == f.capability && plan.descriptor.key == plan.owner.key
    && BranchOf(f) == Some(plan.branch) && Extend(plan.branch, plan.owner, f) == Ok(plan.descriptor)
  }

  predicate Adds(plan: Plan, t: Tables, f: Feature) {
    && plan.Addition? && plan.descriptor == Added(f) && Owners(t, f.model, f.capability) == []
  }

  function PlanOf(t: Tables, f: Feature, g: Setting): Plan {
    PlanFor(RowsOf(t.byModel, f.model), f, g.schemas)
  }

  lemma PlansAreOfTwoKinds(t: Tables, f: Feature, g: Setting)
    requires TablesIdentified(t.byModel)
    ensures PlanOf(t, f, g).Refuse? || Extends(PlanOf(t, f, g), t, f) || Adds(PlanOf(t, f, g), t, f)
  {
    var rows, plan := RowsOf(t.byModel, f.model), PlanOf(t, f, g);
    OwnersAreRows(rows, f.capability);
    if plan.Extension? {
      ExactOfExtended(plan.branch, plan.owner, f);
      assert plan.owner == OwnersOf(rows, f.capability)[0];
    }
  }

  lemma OwnersAfterExtension(t: Tables, f: Feature, plan: Plan, m: string, c: string)
    requires TablesIdentified(t.byModel) && Extends(plan, t, f)
    ensures TablesIdentified(Tabled(plan, t, f).byModel)
    ensures Owners(Tabled(plan, t, f), m, c) == if m == f.model && c == f.capability then [plan.descriptor] else Owners(t, m, c)
  {
    OwnersAfterReplacing(RowsOf(t.byModel, f.model), f.model, plan.owner, plan.descriptor, c);
    assert [plan.owner][..0] == [];
    assert Replaced([plan.owner], plan.owner.key, plan.descriptor) == [plan.descriptor];
  }

  lemma OwnersAfterAddition(t: Tables, f: Feature, plan: Plan, m: string, c: string)
    requires TablesIdentified(t.byModel) && Adds(plan, t, f) && '|' !in f.model
    ensures TablesIdentified(Tabled(plan, t, f).byModel)
    ensures Owners(Tabled(plan, t, f), m, c) == if m == f.model && c == f.capability then [plan.descriptor] else Owners(t, m, c)
  {
    OwnersAfterAdding(RowsOf(t.byModel, f.model), plan.descriptor, c);
  }

  /** A feature touches the owners of its own capability in its own model, and nothing else. */
  lemma OwnersAfter(t: Tables, f: Feature, g: Setting, m: string, c: string)
    requires TablesIdentified(t.byModel) && '|' !in f.model
    ensures TablesIdentified(Tabled(PlanOf(t, f, g), t, f).byModel)
    ensures Owners(Tabled(PlanOf(t, f, g), t, f), m, c) ==
      if m != f.model || c != f.capability || PlanOf(t, f, g).Refuse? then Owners(t, m, c) else [PlanOf(t, f, g).descriptor]
  {
    PlansAreOfTwoKinds(t, f, g);
    if PlanOf(t, f, g).Extension? {
      OwnersAfterExtension(t, f, PlanOf(t, f, g), m, c);
    } else if PlanOf(t, f, g).Addition? {
      OwnersAfterAddition(t, f, PlanOf(t, f, g), m, c);
    }
  }

  /** The binding is allowed exactly the values its descriptor has. */
  predicate InAgreement(t: Tables, g: Setting, b: string, c: string) {
    && b in t.bindings && b in g.models && c in t.bindings[b]
    && Owners(t, g.models[b], c) != []
    && t.bindings[b][c] == Owners(t, g.models[b], c)[0].Exact()
  }

  /** The one branch that needs an owner without duplicate values. */
  predicate Careful(t: Tables, f: Feature) {
    BranchOf(f) == Some(HumBranch) ==> forall d :: d in Owners(t, f.model, f.capability) ==> Distinct(d.Exact())
  }

  lemma {:induction false} StepKeepsAgreement(t: Tables, f: Feature, g: Setting, b: string, c: string)
    requires TablesIdentified(t.byModel) && '|' !in f.model && Careful(t, f)
    requires Apply(t, f, g).Ok? && b in t.bindings
    requires InAgreement(t, g, b, c) || (Owners(t, g.models[b], c) == [] && Owners(Apply(t, f, g).value, g.models[b], c) != [])
    ensures InAgreement(Apply(t, f, g).value, g, b, c)
  {
    if Selected(t, f, g) {
      var plan := PlanOf(t, f, g);
      OwnersAfter(t, f, g, g.models[b], c);
      PlansAreOfTwoKinds(t, f, g);
      if g.models[b] == f.model && c == f.capability && plan.Extension? {
        ExtensionKeepsAgreement(plan.branch, plan.owner, f);
      }
    }
  }

  // ---- Whole lists ------------------------------------------------------------------------------

  predicate Targeted(fs: seq<Feature>, m: string, c: string) {
    fs != [] && ((fs[|fs| - 1].model == m && fs[|fs| - 1].capability == c) || Targeted(fs[..|fs| - 1], m, c))
  }

  /** No two features of the list have the same model and capability. */
  predicate UniqueTargets(fs: seq<Feature>) {
    fs != [] ==>
      && UniqueTargets(fs[..|fs| - 1])
      && !Targeted(fs[..|fs| - 1], fs[|fs| - 1].model, fs[|fs| - 1].capability)
  }

  predicate NoBars(fs: seq<Feature>) {
    forall f :: f in fs ==> '|' !in f.model
  }

  function ScopeAt(t: Tables, b: string, c: string): seq<string> {
    if b in t.bindings && c in t.bindings[b] then t.bindings[b][c] else []
  }

  predicate NumericallyTargeted(fs: seq<Feature>, m: string, c: string) {
    fs != [] &&
    ((fs[|fs| - 1].model == m && fs[|fs| - 1].capability == c && BranchOf(fs[|fs| - 1]) == Some(NumericBranch))
     || NumericallyTargeted(fs[..|fs| - 1], m, c))
  }

  /** What no feature targets stays as it was. */
  lemma {:induction false} UntargetedIsUntouched(t: Tables, fs: seq<Feature>, g: Setting, m: string, c: string)
    requires TablesIdentified(t.byModel) && NoBars(fs) && ApplyAll(t, fs, g).Ok?
    ensures TablesIdentified(ApplyAll(t, fs, g).value.byModel)
    ensures !Targeted(fs, m, c) ==> Owners(ApplyAll(t, fs, g).value, m, c) == Owners(t, m, c)
  {
    if fs != [] {
      var n := |fs| - 1;
      UntargetedIsUntouched(t, fs[..n], g, m, c);
      OwnersAfter(ApplyAll(t, fs[..n], g).value, fs[n], g, m, c);
    }
  }

  lemma OtherScopesAreKept(t: Tables, f: Feature, g: Setting, b: string, c: string)
    requires Apply(t, f, g).Ok?
    ensures Apply(t, f, g).value.bindings.Keys == t.bindings.Keys
    ensures b in t.bindings && b in g.models && (f.model != g.models[b] || f.capability != c) ==>
      ScopeAt(Apply(t, f, g).value, b, c) == ScopeAt(t, b, c)
  {
  }

  lemma {:induction false} BindingsAreKept(t: Tables, fs: seq<Feature>, g: Setting, b: string, c: string)
    requires ApplyAll(t, fs, g).Ok?
    ensures ApplyAll(t, fs, g).value.bindings.Keys == t.bindings.Keys
    ensures b in t.bindings && b in g.models && !Targeted(fs, g.models[b], c) ==>
      ScopeAt(ApplyAll(t, fs, g).value, b, c) == ScopeAt(t, b, c)
  {
    if fs != [] {
      var n := |fs| - 1;
      BindingsAreKept(t, fs[..n], g, b, c);
      OtherScopesAreKept(ApplyAll(t, fs[..n], g).value, fs[n], g, b, c);
    }
  }

  lemma CarefulAfterPrefix(t: Tables, fs: seq<Feature>, g: Setting)
    requires TablesIdentified(t.byModel) && NoBars(fs) && UniqueTargets(fs) && fs != []
    requires ApplyAll(t, fs[..|fs| - 1], g).Ok?
    requires forall d :: d in Owners(t, "HUM_056905_WW", "operation.mode") ==> Distinct(d.Exact())
    ensures Careful(ApplyAll(t, fs[..|fs| - 1], g).value, fs[|fs| - 1])
  {
    var f := fs[|fs| - 1];
    UntargetedIsUntouched(t, fs[..|fs| - 1], g, f.model, f.capability);
  }

  /** Over the whole overlay a scope that held exactly its descriptor's values still does, and an
      added control is held exactly by every binding of its model. */
  lemma {:induction false} AgreementSurvives(t: Tables, fs: seq<Feature>, g: Setting, b: string, c: string)
    requires TablesIdentified(t.byModel) && NoBars(fs) && UniqueTargets(fs) && ApplyAll(t, fs, g).Ok?
    requires forall d :: d in Owners(t, "HUM_056905_WW", "operation.mode") ==> Distinct(d.Exact())
    requires b in t.bindings && b in g.models
    requires Owners(t, g.models[b], c) != [] ==> InAgreement(t, g, b, c)
    ensures Owners(ApplyAll(t, fs, g).value, g.models[b], c) != [] ==> InAgreement(ApplyAll(t, fs, g).value, g, b, c)
  {
    if fs != [] {
      var n := |fs| - 1;
      var before := ApplyAll(t, fs[..n], g).value;
      AgreementSurvives(t, fs[..n], g, b, c);
      UntargetedIsUntouched(t, fs[..n], g, "", "");
      BindingsAreKept(t, fs[..n], g, b, c);
      CarefulAfterPrefix(t, fs, g);
      if Owners(ApplyAll(t, fs, g).value, g.models[b], c) != [] {
        StepKeepsAgreement(before, fs[n], g, b, c);
      }
    }
  }

  /** A value of an old control that a scope withheld is still withheld after the whole overlay,
      except for the operation mode of the humidifier, unless a feature extends the control as a number
      and the scope holds the same number in another spelling. */
  lemma {:induction false} WithheldStaysWithheld(t: Tables, fs: seq<Feature>, g: Setting, b: string, c: string, v: string)
    requires TablesIdentified(t.byModel) && NoBars(fs) && UniqueTargets(fs) && ApplyAll(t, fs, g).Ok?
    requires b in t.bindings && b in g.models && !(g.models[b] == "HUM_056905_WW" && c == "operation.mode")
    requires Withheld(t, g.models[b], b, c, v)
    ensures v in ScopeAt(ApplyAll(t, fs, g).value, b, c) <==>
      NumericallyTargeted(fs, g.models[b], c) && IsSpelledIn(ScopeAt(t, b, c), v)
  {
    if fs != [] {
      var n := |fs| - 1;
      var f, before := fs[n], ApplyAll(t, fs[..n], g).value;
      BindingsAreKept(t, fs[..n], g, b, c);
      if f.model != g.models[b] || f.capability != c {
        WithheldStaysWithheld(t, fs[..n], g, b, c, v);
        OtherScopesAreKept(before, f, g, b, c);
      } else {
        UntargetedIsUntouched(t, fs[..n], g, f.model, f.capability);
        UntargetedIsNotNumeric(fs[..n], f.model, f.capability);
        StepWithholds(before, f, g, b, v);
      }
    }
  }

  lemma {:induction false} UntargetedIsNotNumeric(fs: seq<Feature>, m: string, c: string)
    requires !Targeted(fs, m, c)
    ensures !NumericallyTargeted(fs, m, c)
  {
    if fs != [] {
      UntargetedIsNotNumeric(fs[..|fs| - 1], m, c);
    }
  }

  /** The descriptor has the value and the scope of the binding does not. */
  predicate Withheld(t: Tables, m: string, b: string, c: string, v: string) {
    Owners(t, m, c) != [] && v in Owners(t, m, c)[0].Exact() && v !in ScopeAt(t, b, c)
  }

  lemma {:induction false} StepWithholds(t: Tables, f: Feature, g: Setting, b: string, v: string)
    requires TablesIdentified(t.byModel) && Apply(t, f, g).Ok? && b in t.bindings && b in g.models && g.models[b] == f.model
    requires BranchOf(f) != Some(HumBranch)
    requires Withheld(t, f.model, b, f.capability, v)
    ensures v in ScopeAt(Apply(t, f, g).value, b, f.capability) <==>
      BranchOf(f) == Some(NumericBranch) && IsSpelledIn(ScopeAt(t, b, f.capability), v)
  {
    var plan := PlanOf(t, f, g);
    PlansAreOfTwoKinds(t, f, g);
    ScopesStayRestrictive(plan.branch, plan.owner, f, ScopeAt(t, b, f.capability), v);
  }
}
