/** When the two descriptor tables of the overlaid contract come apart
    (local_control_confirmed_features.py lines 199 to 400): a control that one feature added and a later
    one extends has the extended descriptor in the index and the added one in the list. */
module SplitTables {
  import opened Wrappers
  import opened FeatureRows
  import opened FeatureBranches
  import opened ConfirmedFeatures
  import opened ConfirmedOverlay
  import opened ControlTables

  // ---- Extending a descriptor makes it grow -----------------------------------------------------

  function Size(d: Descriptor): nat {
    if d.kind == "boolean" then |Both(d.Exact())| else |d.Exact()|
  }

  predicate Outgrows(later: Descriptor, earlier: Descriptor) {
    (later.kind == "boolean" <==> earlier.kind == "boolean") && Size(later) > Size(earlier)
  }

  /** Only the operation-mode branch may find nothing to add. */
  predicate AddsValues(branch: Branch, owner: Descriptor, f: Feature) {
    branch.HumBranch? ==> NewRows(f.rows, owner.Exact()) != []
  }

  lemma {:induction false} TextsSize(ns: seq<int>)
    ensures |Texts(ns)| == |ns|
  {
    if ns != [] {
      TextsSize(ns[..|ns| - 1]);
    }
  }

  lemma {:induction false} IntsSize(vs: seq<string>)
    requires IntsOf(vs).Some?
    ensures |IntsOf(vs).value| == |vs|
  {
    if vs != [] {
      IntsSize(vs[..|vs| - 1]);
    }
  }

  lemma {:induction false} ValuesSize(rows: seq<Row>)
    ensures |Values(rows)| == |rows|
  {
    if rows != [] {
      ValuesSize(rows[..|rows| - 1]);
    }
  }

  lemma BooleansGrow(vs: seq<string>, values: seq<string>)
    requires values != [] && Disjoint(values, vs) && forall v :: v in values ==> v == "false" || v == "true"
    ensures |Both(Both(vs + values))| > |Both(vs)|
  {
    assert values[0] in values && values[0] in vs + values;
    assert forall v :: v in vs ==> v in vs + values;
  }

  lemma ExtensionGrows(branch: Branch, owner: Descriptor, f: Feature)
    requires Extend(branch, owner, f).Ok? && AddsValues(branch, owner, f)
    ensures Outgrows(Extend(branch, owner, f).value, owner)
  {
    var values := Values(f.rows);
    ExactOfExtended(branch, owner, f);
    match branch
    case BooleanBranch => BooleansGrow(owner.Exact(), values);
    case EnumBranch =>
    case NumericBranch =>
      var ns := IntsOf(owner.Exact() + values).value;
      IntsSize(owner.Exact() + values);
      SortedKeeps(ns);
      TextsSize(Sorted(ns));
    case HumBranch => ValuesSize(NewRows(f.rows, owner.Exact()));
  }

  lemma ExtensionWithoutValues(branch: Branch, owner: Descriptor, f: Feature)
    requires Extend(branch, owner, f).Ok? && !AddsValues(branch, owner, f)
    ensures Extend(branch, owner, f).value == owner
  {
  }

  // ---- Where an addition stands in the index ----------------------------------------------------

  /** The index has one descriptor for the target of the addition: it, or one that has outgrown it. */
  predicate Tracks(t: Tables, d: Descriptor) {
    && |Owners(t, d.model, d.capability)| == 1
    && (Owners(t, d.model, d.capability)[0] == d || Outgrows(Owners(t, d.model, d.capability)[0], d))
  }

  predicate IsBehind(t: Tables, d: Descriptor) {
    Tracks(t, d) && Owners(t, d.model, d.capability)[0] != d
  }

  ghost predicate AllTracked(t: Tables) {
    forall d :: d in t.additions ==> Tracks(t, d)
  }

  ghost predicate AnyBehind(t: Tables) {
    exists d :: d in t.additions && IsBehind(t, d)
  }

  /** The feature extends a control that was added before it, with a value it does not have. */
  ghost predicate ExtendsAnAddition(t: Tables, f: Feature, g: Setting) {
    Selected(t, f, g) && exists d :: d in t.additions && IsExtended(d, f)
  }

  predicate IsTarget(d: Descriptor, f: Feature) {
    d.model == f.model && d.capability == f.capability
  }

  /** Some feature of the list extends what an earlier one added. */
  ghost predicate AdditionsAreExtended(t: Tables, fs: seq<Feature>, g: Setting)
    requires ApplyAll(t, fs, g).Ok?
  {
    fs != [] &&
    (AdditionsAreExtended(t, fs[..|fs| - 1], g) || ExtendsAnAddition(ApplyAll(t, fs[..|fs| - 1], g).value, fs[|fs| - 1], g))
  }

  lemma OneFeature(t: Tables, f: Feature, g: Setting, d: Descriptor)
    requires TablesIdentified(t.byModel) && '|' !in f.model && Selected(t, f, g) && Apply(t, f, g).Ok?
    requires Tracks(t, d)
    ensures Tracks(Apply(t, f, g).value, d) && (IsBehind(t, d) ==> IsBehind(Apply(t, f, g).value, d))
    ensures !IsBehind(t, d) ==>
      (IsBehind(Apply(t, f, g).value, d) <==> IsExtended(d, f))
  {
    var plan := PlanOf(t, f, g);
    OwnersAfter(t, f, g, d.model, d.capability);
    PlansAreOfTwoKinds(t, f, g);
    if IsTarget(d, f) {
      var owner := Owners(t, d.model, d.capability)[0];
      assert plan.Extension? && plan.owner == owner;
      if AddsValues(plan.branch, owner, f) {
        ExtensionGrows(plan.branch, owner, f);
      } else {
        ExtensionWithoutValues(plan.branch, owner, f);
      }
    }
  }

  lemma AdditionIsTracked(t: Tables, f: Feature, g: Setting)
    requires TablesIdentified(t.byModel) && '|' !in f.model && Selected(t, f, g) && Apply(t, f, g).Ok? && PlanOf(t, f, g).Addition?
    ensures Owners(Apply(t, f, g).value, f.model, f.capability) == [Added(f)]
  {
    OwnersAfter(t, f, g, f.model, f.capability);
    PlansAreOfTwoKinds(t, f, g);
  }

  lemma AdditionsAfter(t: Tables, f: Feature, g: Setting)
    requires Selected(t, f, g) && Apply(t, f, g).Ok?
    ensures Apply(t, f, g).value.additions == t.additions + if PlanOf(t, f, g).Addition? then [Added(f)] else []
  {
  }

  lemma StepTracks(t: Tables, f: Feature, g: Setting)
    requires TablesIdentified(t.byModel) && '|' !in f.model && Apply(t, f, g).Ok? && AllTracked(t)
    ensures AllTracked(Apply(t, f, g).value)
    ensures AnyBehind(Apply(t, f, g).value) <==> AnyBehind(t) || ExtendsAnAddition(t, f, g)
  {
    if Selected(t, f, g) {
      var after := Apply(t, f, g).value;
      AdditionsAfter(t, f, g);
      forall d | d in t.additions ensures Tracks(after, d) && (IsBehind(after, d) <==> IsBehind(t, d) || IsExtended(d, f)) {
        OneFeature(t, f, g, d);
      }
      if PlanOf(t, f, g).Addition? {
        AdditionIsTracked(t, f, g);
      }
      AllStayTracked(t, after, f, g);
    }
  }

  predicate IsExtended(d: Descriptor, f: Feature) {
    BranchOf(f).Some? && IsTarget(d, f) && AddsValues(BranchOf(f).value, d, f)
  }

  lemma AllStayTracked(t: Tables, after: Tables, f: Feature, g: Setting)
    requires Selected(t, f, g)
    requires after.additions == t.additions || (after.additions == t.additions + [Added(f)]
      && Owners(after, f.model, f.capability) == [Added(f)])
    requires forall d :: d in t.additions ==> Tracks(after, d) && (IsBehind(after, d) <==> IsBehind(t, d) || IsExtended(d, f))
    ensures AllTracked(after) && (AnyBehind(after) <==> AnyBehind(t) || ExtendsAnAddition(t, f, g))
  {
    if d :| d in t.additions && (IsBehind(t, d) || IsExtended(d, f)) {
      assert d in after.additions && IsBehind(after, d);
    }
  }

  // ---- Whole lists ------------------------------------------------------------------------------

  lemma {:induction false} ListTracks(base: seq<Descriptor>, byModel: map<string, seq<Descriptor>>, eligibility: map<string, Scope>,
                                      fs: seq<Feature>, g: Setting)
    requires AllIdentified(base) && TablesIdentified(byModel) && NoBars(fs) && ApplyAll(Start(byModel, eligibility), fs, g).Ok?
    ensures var t := ApplyAll(Start(byModel, eligibility), fs, g).value;
      WellKept(base, t, fs) && AllTracked(t) && (AnyBehind(t) <==> AdditionsAreExtended(Start(byModel, eligibility), fs, g))
  {
    if fs != [] {
      var n := |fs| - 1;
      var t := ApplyAll(Start(byModel, eligibility), fs[..n], g).value;
      ListTracks(base, byModel, eligibility, fs[..n], g);
      StepTracks(t, fs[n], g);
      StepIsWellKept(base, t, fs[..n], fs[n], g);
      assert fs == fs[..n] + [fs[n]];
    }
  }

  lemma StepIsWellKept(base: seq<Descriptor>, t: Tables, fs: seq<Feature>, f: Feature, g: Setting)
    requires WellKept(base, t, fs) && '|' !in f.model && Apply(t, f, g).Ok?
    ensures WellKept(base, Apply(t, f, g).value, fs + [f])
  {
    if Selected(t, f, g) {
      PlansAreOfTwoKinds(t, f, g);
      PlanKeepsTables(base, t, fs, f, PlanOf(t, f, g));
    } else {
      StillTargeted(t.additions, fs, f);
    }
  }

  /** An addition that is behind is in the list and not in the index. */
  lemma BehindIsNotIndexed(base: seq<Descriptor>, t: Tables, d: Descriptor)
    requires d in t.additions && IsBehind(t, d)
    ensures !Indexed(Listed(base, t), t.byModel)
  {
    OfModelHas(Listed(base, t), d);
    OwnersAreRows(RowsOf(t.byModel, d.model), d.capability);
    assert d in OfModel(Listed(base, t), d.model) && d !in RowsOf(t.byModel, d.model);
  }

  lemma {:induction false} ReplacedBySame(ds: seq<Descriptor>, owner: Descriptor)
    requires forall i :: 0 <= i < |ds| && ds[i].key == owner.key ==> ds[i] == owner
    ensures Replaced(ds, owner.key, owner) == ds
  {
    if ds != [] {
      ReplacedBySame(ds[..|ds| - 1], owner);
    }
  }

  /** In tables that agree, the only descriptor with the owner's key is the owner. */
  lemma OnlyTheOwner(base: seq<Descriptor>, t: Tables, fs: seq<Feature>, f: Feature, plan: Plan, d: Descriptor)
    requires WellKept(base, t, fs) && Indexed(Listed(base, t), t.byModel) && Extends(plan, t, f)
    requires d in Listed(base, t) && Identified(d) && d.key == plan.owner.key
    ensures d == plan.owner
  {
    SameKeySameModel(d, plan.owner);
    OfModelHas(Listed(base, t), d);
    assert RowsOf(t.byModel, f.model) == OfModel(Listed(base, t), f.model);
    OwnersAreRows(RowsOf(t.byModel, f.model), f.capability);
    assert d in Owners(t, f.model, f.capability);
  }

  lemma {:induction false} ListedIsIdentified(ds: seq<Descriptor>, d: Descriptor)
    requires AllIdentified(ds) && d in ds
    ensures Identified(d)
  {
    if ds[|ds| - 1] != d {
      assert d in ds[..|ds| - 1];
      ListedIsIdentified(ds[..|ds| - 1], d);
    }
  }

  lemma IdleExtensionKeepsIndex(base: seq<Descriptor>, t: Tables, fs: seq<Feature>, f: Feature, plan: Plan)
    requires WellKept(base, t, fs) && Indexed(Listed(base, t), t.byModel) && Extends(plan, t, f) && plan.descriptor == plan.owner
    ensures Indexed(Listed(base, Tabled(plan, t, f)), Tabled(plan, t, f).byModel)
  {
    var after, patched := Tabled(plan, t, f), Patched(base, t.replacements);
    PatchedIsIdentified(base, t.replacements);
    forall i | 0 <= i < |patched| && patched[i].key == plan.owner.key ensures patched[i] == plan.owner {
      ListedIsIdentified(patched, patched[i]);
      OnlyTheOwner(base, t, fs, f, plan, patched[i]);
    }
    PatchedReplaces(base, t.replacements, plan.owner);
    ReplacedBySame(patched, plan.owner);
    assert Listed(base, after) == Listed(base, t);
    var rows := RowsOf(t.byModel, f.model);
    forall i | 0 <= i < |rows| && rows[i].key == plan.owner.key ensures rows[i] == plan.owner {
      SameKeySameModel(rows[i], plan.owner);
      OwnersAreRows(rows, f.capability);
      assert rows[i] in Owners(t, f.model, f.capability);
    }
    ReplacedBySame(rows, plan.owner);
    forall m: string ensures RowsOf(after.byModel, m) == OfModel(Listed(base, after), m) {
      assert RowsOf(t.byModel, m) == OfModel(Listed(base, t), m);
    }
  }

  lemma StepStaysIndexed(base: seq<Descriptor>, t: Tables, fs: seq<Feature>, f: Feature, g: Setting)
    requires WellKept(base, t, fs) && Indexed(Listed(base, t), t.byModel)
    requires '|' !in f.model && Apply(t, f, g).Ok? && !ExtendsAnAddition(t, f, g)
    ensures Indexed(Listed(base, Apply(t, f, g).value), Apply(t, f, g).value.byModel)
  {
    if Selected(t, f, g) {
      var plan := PlanOf(t, f, g);
      PlansAreOfTwoKinds(t, f, g);
      if plan.Extension? && plan.descriptor == plan.owner {
        IdleExtensionKeepsIndex(base, t, fs, f, plan);
      } else if plan.Extension? {
        if plan.owner in t.additions {
          assert !IsExtended(plan.owner, f);
          ExtensionWithoutValues(plan.branch, plan.owner, f);
        }
        ExtensionKeepsIndexExactly(base, t, fs, f, plan);
      } else {
        forall m: string ensures RowsOf(Tabled(plan, t, f).byModel, m) == OfModel(Listed(base, Tabled(plan, t, f)), m) {
          AdditionKeepsIndex(base, t, f, plan, m);
        }
      }
    }
  }

  lemma {:induction false} UnextendedStaysIndexed(base: seq<Descriptor>, byModel: map<string, seq<Descriptor>>,
                                                  eligibility: map<string, Scope>, fs: seq<Feature>, g: Setting)
    requires AllIdentified(base) && TablesIdentified(byModel) && Indexed(base, byModel)
    requires NoBars(fs) && ApplyAll(Start(byModel, eligibility), fs, g).Ok?
    requires !AdditionsAreExtended(Start(byModel, eligibility), fs, g)
    ensures var t := ApplyAll(Start(byModel, eligibility), fs, g).value; Indexed(Listed(base, t), t.byModel)
  {
    if fs == [] {
      UnpatchedList(base);
      assert Listed(base, Start(byModel, eligibility)) == base;
    } else {
      var n := |fs| - 1;
      UnextendedStaysIndexed(base, byModel, eligibility, fs[..n], g);
      ListTracks(base, byModel, eligibility, fs[..n], g);
      StepStaysIndexed(base, ApplyAll(Start(byModel, eligibility), fs[..n], g).value, fs[..n], fs[n], g);
    }
  }

  /** After any list of features the descriptor list and the per-model index agree if and only if no
      feature extended, with a new value, a control that an earlier feature added. */
  lemma TablesAgreeIff(base: seq<Descriptor>, byModel: map<string, seq<Descriptor>>, eligibility: map<string, Scope>,
                       fs: seq<Feature>, g: Setting)
    requires AllIdentified(base) && TablesIdentified(byModel) && Indexed(base, byModel)
    requires NoBars(fs) && ApplyAll(Start(byModel, eligibility), fs, g).Ok?
    ensures var t := ApplyAll(Start(byModel, eligibility), fs, g).value;
      Indexed(Listed(base, t), t.byModel) <==> !AdditionsAreExtended(Start(byModel, eligibility), fs, g)
  {
    var t := ApplyAll(Start(byModel, eligibility), fs, g).value;
    if AdditionsAreExtended(Start(byModel, eligibility), fs, g) {
      ListTracks(base, byModel, eligibility, fs, g);
      var d :| d in t.additions && IsBehind(t, d);
      BehindIsNotIndexed(base, t, d);
    } else {
      UnextendedStaysIndexed(base, byModel, eligibility, fs, g);
    }
  }

  // ---- Two features that split the tables -------------------------------------------------------

  const ADDING := Feature("M", "c", "select", true, None, None, None, [Row("a", "A", Some(Text("a")))], None, false, None)
  const EXTENDING := Feature("M", "c", "select", true, Some("exact-model-web-domain"), Some("enum"), None,
                             [Row("b", "B", Some(Text("b")))], None, false, None)
  const ONE_BINDING := Setting(map["B" := "M"], {})

  lemma OneRow(row: Row)
    ensures Values([row]) == [row.value] && RowMappings([row]) == [Mapping(Text(row.name), row.value)]
    ensures AddedMappings("select", [row]) == [Mapping(Text(row.name), row.value)]
  {
    assert [row][..0] == [];
    assert Values([]) == [] && RowMappings([]) == [] && AddedMappings("select", []) == [];
  }

  lemma AddingAdds(t: Tables)
    requires t == Start(map[], map["B" := map[]])
    ensures Apply(t, ADDING, ONE_BINDING).Ok?
    ensures var after := Apply(t, ADDING, ONE_BINDING).value;
      after.additions == [Added(ADDING)] && after.byModel == map["M" := [Added(ADDING)]]
      && after.bindings.Keys == {"B"}
  {
    assert "B" in t.bindings && ONE_BINDING.models["B"] == "M";
    assert Selected(t, ADDING, ONE_BINDING);
    assert PlanOf(t, ADDING, ONE_BINDING) == Addition(Added(ADDING));
  }

  lemma ExtendingExtends()
    ensures Extend(EnumBranch, Added(ADDING), EXTENDING).Ok?
  {
    var d, row := Added(ADDING), EXTENDING.rows[0];
    OneRow(ADDING.rows[0]);
    OneRow(row);
    OneMapping(Text("A"), Mapping(Text("A"), "a"), "a");
    assert d.mappings == [Mapping(Text("A"), "a")] && d.Exact() == ["a"];
    assert EXTENDING.rows == [row];
    assert Keys(Reports(EXTENDING.rows)) == [Text("b")];
    assert Keys(d.supported) == [Text("a")];
    assert Labels(RowMappings(EXTENDING.rows)) == [Text("B")] && Labels(d.mappings) == [Text("A")];
  }

  lemma ExtendingApplies(t: Tables)
    requires t.byModel == map["M" := [Added(ADDING)]] && t.bindings.Keys == {"B"}
    ensures Apply(t, EXTENDING, ONE_BINDING).Ok?
  {
    var d := Added(ADDING);
    ExtendingExtends();
    assert [d][..0] == [];
    assert OwnersOf([d], "c") == OwnersOf([], "c") + [d];
    assert "B" in t.bindings && ONE_BINDING.models["B"] == "M";
    assert Selected(t, EXTENDING, ONE_BINDING);
    assert PlanOf(t, EXTENDING, ONE_BINDING).Extension?;
    assert PlanOf(t, EXTENDING, ONE_BINDING).branch == EnumBranch;
  }

  /** One feature adds a select with the option `a`, the next one extends it with `b`: the tables of
      the overlaid contract differ. */
  lemma TwoFeaturesSplitTheTables() returns (start: Tables, fs: seq<Feature>, g: Setting)
    ensures start == Start(map[], map["B" := map[]]) && fs == [ADDING, EXTENDING] && g == ONE_BINDING
    ensures ApplyAll(start, fs, g).Ok?
    ensures !Indexed(Listed([], ApplyAll(start, fs, g).value), ApplyAll(start, fs, g).value.byModel)
  {
    start, fs, g := Start(map[], map["B" := map[]]), [ADDING, EXTENDING], ONE_BINDING;
    TwoFeaturesExtend(start, fs, g);
    NothingIsIndexed();
    TablesAgreeIff([], start.byModel, start.bindings, fs, g);
  }

  lemma TwoFeaturesExtend(start: Tables, fs: seq<Feature>, g: Setting)
    requires start == Start(map[], map["B" := map[]]) && fs == [ADDING, EXTENDING] && g == ONE_BINDING
    ensures ApplyAll(start, fs, g).Ok? && AdditionsAreExtended(start, fs, g)
  {
    AddingAdds(start);
    var t := Apply(start, fs[0], g).value;
    ExtendingApplies(t);
    AddedIsExtended(t);
    TwoSteps(start, t, fs[0], fs[1], g);
  }

  lemma AddedIsExtended(t: Tables)
    requires t.additions == [Added(ADDING)] && "B" in t.bindings
    ensures ExtendsAnAddition(t, EXTENDING, ONE_BINDING)
  {
    assert "B" in t.bindings && ONE_BINDING.models["B"] == "M";
    assert Added(ADDING) in t.additions && IsExtended(Added(ADDING), EXTENDING);
  }

  lemma TwoSteps(start: Tables, t: Tables, f: Feature, f': Feature, g: Setting)
    requires Apply(start, f, g) == Ok(t) && Apply(t, f', g).Ok? && ExtendsAnAddition(t, f', g)
    ensures ApplyAll(start, [f, f'], g) == Apply(t, f', g) && AdditionsAreExtended(start, [f, f'], g)
  {
    assert [f, f'][..1] == [f] && [f][..0] == [];
    assert ApplyAll(start, [], g) == Ok(start);
    assert ApplyAll(start, [f], g) == Ok(t);
  }

  lemma NothingIsIndexed()
    ensures AllIdentified([]) && TablesIdentified(map[]) && Indexed([], map[])
  {
    assert forall m: string :: RowsOf(map[], m) == OfModel([], m);
  }
}
