/** The two descriptor tables of the overlaid contract, and who is authorized by them
    (local_control_confirmed_features.py lines 199 to 400; local_control_contract.py lines 1095 to 1110
    and 1237 to 1334). */
module ControlTables {
  import opened FeatureRows
  import opened ConfirmedFeatures
  import opened ConfirmedOverlay

  // ---- The list and the index -------------------------------------------------------------------

  /** The index is built from the list like this (local_control_contract.py lines 1015 to 1018). */
  function OfModel(ds: seq<Descriptor>, m: string): seq<Descriptor> {
    if ds == [] then []
    else OfModel(ds[..|ds| - 1], m) + if ds[|ds| - 1].model == m then [ds[|ds| - 1]] else []
  }

  /** The index holds, for every model, the descriptors of the list in the list's order. */
  ghost predicate Indexed(ds: seq<Descriptor>, byModel: map<string, seq<Descriptor>>) {
    forall m: string :: RowsOf(byModel, m) == OfModel(ds, m)
  }

  predicate AllIdentified(ds: seq<Descriptor>) {
    ds != [] ==> AllIdentified(ds[..|ds| - 1]) && Identified(ds[|ds| - 1])
  }

  ghost predicate ReplacementsIdentified(replacements: map<string, Descriptor>) {
    forall k :: k in replacements ==> replacements[k].key == k && Identified(replacements[k])
  }

  predicate HasKey(ds: seq<Descriptor>, key: string) {
    ds != [] && (ds[|ds| - 1].key == key || HasKey(ds[..|ds| - 1], key))
  }

  /** Everything added so far was asked for by one of the features. */
  predicate AllTargeted(ds: seq<Descriptor>, fs: seq<Feature>) {
    ds != [] ==> AllTargeted(ds[..|ds| - 1], fs) && Targeted(fs, ds[|ds| - 1].model, ds[|ds| - 1].capability)
  }

  lemma SameKeySameModel(d: Descriptor, owner: Descriptor)
    requires Identified(d) && Identified(owner) && d.key == owner.key
    ensures d.model == owner.model && d.capability == owner.capability
  {
    KeysIdentify(d.model, d.capability, owner.model, owner.capability);
  }

  lemma OfModelGrows(ds: seq<Descriptor>, d: Descriptor, m: string)
    ensures OfModel(ds + [d], m) == if d.model == m then OfModel(ds, m) + [d] else OfModel(ds, m)
  {
    assert (ds + [d])[..|ds|] == ds;
  }

  lemma ReplacedGrows(ds: seq<Descriptor>, x: Descriptor, key: string, d: Descriptor)
    ensures Replaced(ds + [x], key, d) == Replaced(ds, key, d) + [if x.key == key then d else x]
  {
    assert (ds + [x])[..|ds|] == ds;
  }

  /** Replacing in the list is replacing among the descriptors of the owner's model. */
  predicate ReplacesInModel(ds: seq<Descriptor>, owner: Descriptor, d: Descriptor, m: string) {
    OfModel(Replaced(ds, owner.key, d), m)
      == if m == owner.model then Replaced(OfModel(ds, m), owner.key, d) else OfModel(ds, m)
  }

  lemma {:induction false} ReplacedOfModel(ds: seq<Descriptor>, owner: Descriptor, d: Descriptor, m: string)
    requires AllIdentified(ds) && Identified(owner) && d.key == owner.key && d.model == owner.model
    ensures ReplacesInModel(ds, owner, d, m)
  {
    if ds != [] {
      var n := |ds| - 1;
      ReplacedOfModel(ds[..n], owner, d, m);
      if ds[n].key == owner.key {
        SameKeySameModel(ds[n], owner);
      }
      ReplacedOfModelGrows(ds[..n], ds[n], owner, d, m);
      assert ds == ds[..n] + [ds[n]];
    }
  }

  lemma ReplacedOfModelGrows(rest: seq<Descriptor>, x: Descriptor, owner: Descriptor, d: Descriptor, m: string)
    requires x.key == owner.key ==> x.model == owner.model
    requires d.key == owner.key && d.model == owner.model && ReplacesInModel(rest, owner, d, m)
    ensures ReplacesInModel(rest + [x], owner, d, m)
  {
    var y := if x.key == owner.key then d else x;
    ReplacedGrows(rest, x, owner.key, d);
    OfModelGrows(Replaced(rest, owner.key, d), y, m);
    OfModelGrows(rest, x, m);
    ReplacedGrows(OfModel(rest, m), x, owner.key, d);
  }

  lemma {:induction false} ReplacedAbsent(ds: seq<Descriptor>, key: string, d: Descriptor)
    requires !HasKey(ds, key)
    ensures Replaced(ds, key, d) == ds
  {
    if ds != [] {
      ReplacedAbsent(ds[..|ds| - 1], key, d);
    }
  }

  lemma {:induction false} ReplacedJoin(a: seq<Descriptor>, b: seq<Descriptor>, key: string, d: Descriptor)
    ensures Replaced(a + b, key, d) == Replaced(a, key, d) + Replaced(b, key, d)
  {
    if b == [] {
      assert a + b == a;
    } else {
      assert (a + b)[..|a + b| - 1] == a + b[..|b| - 1];
      ReplacedJoin(a, b[..|b| - 1], key, d);
    }
  }

  lemma {:induction false} PatchedReplaces(base: seq<Descriptor>, replacements: map<string, Descriptor>, d: Descriptor)
    requires ReplacementsIdentified(replacements)
    ensures Patched(base, replacements[d.key := d]) == Replaced(Patched(base, replacements), d.key, d)
  {
    if base != [] {
      var n := |base| - 1;
      PatchedReplaces(base[..n], replacements, d);
      var before := Patched(base, replacements);
      assert before[..|before| - 1] == Patched(base[..n], replacements);
    }
  }

  lemma {:induction false} PatchedIsIdentified(base: seq<Descriptor>, replacements: map<string, Descriptor>)
    requires AllIdentified(base) && ReplacementsIdentified(replacements)
    ensures AllIdentified(Patched(base, replacements))
  {
    if base != [] {
      var n := |base| - 1;
      PatchedIsIdentified(base[..n], replacements);
      var after := Patched(base, replacements);
      assert after[..|after| - 1] == Patched(base[..n], replacements);
    }
  }

  lemma {:induction false} IdentifiedJoin(a: seq<Descriptor>, b: seq<Descriptor>)
    requires AllIdentified(a) && AllIdentified(b)
    ensures AllIdentified(a + b)
  {
    if b == [] {
      assert a + b == a;
    } else {
      IdentifiedJoin(a, b[..|b| - 1]);
      assert (a + b)[..|a + b| - 1] == a + b[..|b| - 1];
    }
  }

  lemma {:induction false} StillTargeted(ds: seq<Descriptor>, fs: seq<Feature>, f: Feature)
    requires AllTargeted(ds, fs)
    ensures AllTargeted(ds, fs + [f])
  {
    if ds != [] {
      StillTargeted(ds[..|ds| - 1], fs, f);
      assert (fs + [f])[..|fs|] == fs;
    }
  }

  /** What every prefix of the overlay keeps besides the agreement of the tables. */
  ghost predicate WellKept(base: seq<Descriptor>, t: Tables, fs: seq<Feature>) {
    && TablesIdentified(t.byModel) && AllIdentified(base) && AllIdentified(t.additions)
    && ReplacementsIdentified(t.replacements)
    && AllTargeted(t.additions, fs)
  }

  /** Extending a base owner changes the list as it changes the index. */
  lemma ListedAfterExtension(base: seq<Descriptor>, t: Tables, fs: seq<Feature>, f: Feature, plan: Plan)
    requires WellKept(base, t, fs) && Extends(plan, t, f) && !HasKey(t.additions, plan.owner.key)
    ensures Listed(base, Tabled(plan, t, f)) == Replaced(Listed(base, t), plan.owner.key, plan.descriptor)
    ensures AllIdentified(Listed(base, t))
  {
    PatchedIsIdentified(base, t.replacements);
    IdentifiedJoin(Patched(base, t.replacements), t.additions);
    PatchedReplaces(base, t.replacements, plan.descriptor);
    ReplacedAbsent(t.additions, plan.owner.key, plan.descriptor);
    ReplacedJoin(Patched(base, t.replacements), t.additions, plan.owner.key, plan.descriptor);
  }

  lemma ExtensionKeepsIndex(base: seq<Descriptor>, t: Tables, fs: seq<Feature>, f: Feature, plan: Plan, m: string)
    requires WellKept(base, t, fs) && Extends(plan, t, f) && !HasKey(t.additions, plan.owner.key)
    requires RowsOf(t.byModel, m) == OfModel(Listed(base, t), m)
    ensures RowsOf(Tabled(plan, t, f).byModel, m) == OfModel(Listed(base, Tabled(plan, t, f)), m)
  {
    ListedAfterExtension(base, t, fs, f, plan);
    ReplacedOfModel(Listed(base, t), plan.owner, plan.descriptor, m);
  }

  lemma AdditionKeepsIndex(base: seq<Descriptor>, t: Tables, f: Feature, plan: Plan, m: string)
    requires RowsOf(t.byModel, m) == OfModel(Listed(base, t), m) && Adds(plan, t, f)
    ensures RowsOf(Tabled(plan, t, f).byModel, m) == OfModel(Listed(base, Tabled(plan, t, f)), m)
  {
    assert Listed(base, Tabled(plan, t, f)) == Listed(base, t) + [plan.descriptor];
    OfModelGrows(Listed(base, t), plan.descriptor, m);
  }

  /** With distinct targets no feature extends what another one added. */
  lemma {:induction false} UntargetedIsNoAddition(ds: seq<Descriptor>, fs: seq<Feature>, owner: Descriptor)
    requires AllIdentified(ds) && AllTargeted(ds, fs) && Identified(owner) && !Targeted(fs, owner.model, owner.capability)
    ensures !HasKey(ds, owner.key)
  {
    if ds != [] {
      UntargetedIsNoAddition(ds[..|ds| - 1], fs, owner);
      if ds[|ds| - 1].key == owner.key {
        SameKeySameModel(ds[|ds| - 1], owner);
      }
    }
  }

  lemma ExtensionKeepsTables(base: seq<Descriptor>, t: Tables, fs: seq<Feature>, f: Feature, plan: Plan)
    requires WellKept(base, t, fs) && Extends(plan, t, f)
    ensures WellKept(base, Tabled(plan, t, f), fs + [f])
  {
    StillTargeted(t.additions, fs, f);
    OwnersAfterExtension(t, f, plan, "", "");
  }

  lemma AdditionKeepsTables(base: seq<Descriptor>, t: Tables, fs: seq<Feature>, f: Feature, plan: Plan)
    requires WellKept(base, t, fs) && '|' !in f.model && Adds(plan, t, f)
    ensures WellKept(base, Tabled(plan, t, f), fs + [f])
  {
    StillTargeted(t.additions, fs, f);
    OwnersAfterAddition(t, f, plan, "", "");
    AdditionIsKept(t, fs, f, plan.descriptor);
  }

  lemma PlanKeepsTables(base: seq<Descriptor>, t: Tables, fs: seq<Feature>, f: Feature, plan: Plan)
    requires WellKept(base, t, fs) && '|' !in f.model
    requires Extends(plan, t, f) || Adds(plan, t, f)
    ensures WellKept(base, Tabled(plan, t, f), fs + [f])
  {
    if plan.Extension? {
      ExtensionKeepsTables(base, t, fs, f, plan);
    } else {
      AdditionKeepsTables(base, t, fs, f, plan);
    }
  }

  lemma AdditionIsKept(t: Tables, fs: seq<Feature>, f: Feature, d: Descriptor)
    requires AllIdentified(t.additions) && AllTargeted(t.additions, fs + [f]) && d == Added(f) && '|' !in f.model
    ensures AllIdentified(t.additions + [d]) && AllTargeted(t.additions + [d], fs + [f])
  {
    assert (t.additions + [d])[..|t.additions|] == t.additions;
  }

  lemma PlanKeepsIndex(base: seq<Descriptor>, t: Tables, fs: seq<Feature>, f: Feature, plan: Plan, m: string)
    requires WellKept(base, t, fs) && !Targeted(fs, f.model, f.capability)
    requires RowsOf(t.byModel, m) == OfModel(Listed(base, t), m)
    requires Extends(plan, t, f) || Adds(plan, t, f)
    ensures RowsOf(Tabled(plan, t, f).byModel, m) == OfModel(Listed(base, Tabled(plan, t, f)), m)
  {
    if plan.Extension? {
      UntargetedIsNoAddition(t.additions, fs, plan.owner);
      ExtensionKeepsIndex(base, t, fs, f, plan, m);
    } else {
      AdditionKeepsIndex(base, t, f, plan, m);
    }
  }

  lemma StepKeepsTables(base: seq<Descriptor>, t: Tables, fs: seq<Feature>, f: Feature, g: Setting)
    requires WellKept(base, t, fs) && Indexed(Listed(base, t), t.byModel)
    requires '|' !in f.model && !Targeted(fs, f.model, f.capability) && Apply(t, f, g).Ok?
    ensures WellKept(base, Apply(t, f, g).value, fs + [f])
    ensures Indexed(Listed(base, Apply(t, f, g).value), Apply(t, f, g).value.byModel)
  {
    if Selected(t, f, g) {
      PlansAreOfTwoKinds(t, f, g);
      var plan, after := PlanOf(t, f, g), Apply(t, f, g).value;
      PlanKeepsTables(base, t, fs, f, plan);
      forall m: string ensures RowsOf(after.byModel, m) == OfModel(Listed(base, after), m) {
        PlanKeepsIndex(base, t, fs, f, plan, m);
      }
    } else {
      StillTargeted(t.additions, fs, f);
    }
  }

  /** The descriptor list and the per-model index of the overlaid contract agree, if no two features
      have the same target. */
  lemma {:induction false} TablesStayIndexed(base: seq<Descriptor>, byModel: map<string, seq<Descriptor>>,
                                             eligibility: map<string, Scope>, fs: seq<Feature>, g: Setting)
    requires AllIdentified(base) && TablesIdentified(byModel) && Indexed(base, byModel)
    requires NoBars(fs) && UniqueTargets(fs) && ApplyAll(Start(byModel, eligibility), fs, g).Ok?
    ensures var t := ApplyAll(Start(byModel, eligibility), fs, g).value;
      WellKept(base, t, fs) && Indexed(Listed(base, t), t.byModel)
  {
    if fs == [] {
      UnpatchedList(base);
      assert Listed(base, Start(byModel, eligibility)) == base;
    } else {
      var n := |fs| - 1;
      TablesStayIndexed(base, byModel, eligibility, fs[..n], g);
      StepKeepsTables(base, ApplyAll(Start(byModel, eligibility), fs[..n], g).value, fs[..n], fs[n], g);
      assert fs == fs[..n] + [fs[n]];
    }
  }

  lemma {:induction false} UnpatchedList(base: seq<Descriptor>)
    ensures Patched(base, map[]) == base
  {
    if base != [] {
      UnpatchedList(base[..|base| - 1]);
    }
  }

  /** Without distinct targets it fails: once a feature extends what an earlier one added, the index
      has the extended descriptor and the list still has the added one. */
  lemma {:induction false} ExtendingAnAdditionSplitsTheTables(base: seq<Descriptor>, t: Tables, f: Feature, plan: Plan)
    requires Extends(plan, t, f) && plan.owner in t.additions && plan.descriptor != plan.owner
    ensures !Indexed(Listed(base, Tabled(plan, t, f)), Tabled(plan, t, f).byModel)
  {
    var after := Tabled(plan, t, f);
    OfModelHas(Listed(base, after), plan.owner);
    ReplacedIsGone(RowsOf(t.byModel, f.model), plan.owner, plan.descriptor);
    assert RowsOf(after.byModel, f.model) != OfModel(Listed(base, after), f.model);
  }

  /** So extending a control keeps the tables in agreement exactly when no feature added it. */
  lemma {:induction false} ExtensionKeepsIndexExactly(base: seq<Descriptor>, t: Tables, fs: seq<Feature>, f: Feature, plan: Plan)
    requires WellKept(base, t, fs) && Indexed(Listed(base, t), t.byModel)
    requires Extends(plan, t, f) && plan.descriptor != plan.owner
    ensures Indexed(Listed(base, Tabled(plan, t, f)), Tabled(plan, t, f).byModel) <==> plan.owner !in t.additions
  {
    var after := Tabled(plan, t, f);
    if plan.owner in t.additions {
      ExtendingAnAdditionSplitsTheTables(base, t, f, plan);
    } else {
      if HasKey(t.additions, plan.owner.key) {
        AdditionWithKeyIsOwner(base, t, f, plan, KeyHolder(t.additions, plan.owner.key));
      }
      forall m: string ensures RowsOf(after.byModel, m) == OfModel(Listed(base, after), m) {
        ExtensionKeepsIndex(base, t, fs, f, plan, m);
      }
    }
  }

  function KeyHolder(ds: seq<Descriptor>, key: string): (d: Descriptor)
    requires HasKey(ds, key)
    ensures d in ds && d.key == key
    ensures AllIdentified(ds) ==> Identified(d)
  {
    if ds[|ds| - 1].key == key then ds[|ds| - 1] else KeyHolder(ds[..|ds| - 1], key)
  }

  lemma AdditionWithKeyIsOwner(base: seq<Descriptor>, t: Tables, f: Feature, plan: Plan, d: Descriptor)
    requires Indexed(Listed(base, t), t.byModel) && Extends(plan, t, f)
    requires d in t.additions && Identified(d) && d.key == plan.owner.key
    ensures d == plan.owner
  {
    SameKeySameModel(d, plan.owner);
    OfModelHas(Listed(base, t), d);
    assert RowsOf(t.byModel, f.model) == OfModel(Listed(base, t), f.model);
    OwnersAreRows(RowsOf(t.byModel, f.model), f.capability);
    assert d in Owners(t, f.model, f.capability);
  }

  lemma {:induction false} OfModelHas(ds: seq<Descriptor>, d: Descriptor)
    requires d in ds
    ensures d in OfModel(ds, d.model)
  {
    if ds[|ds| - 1] != d {
      assert d in ds[..|ds| - 1];
      OfModelHas(ds[..|ds| - 1], d);
    }
  }

  lemma {:induction false} ReplacedIsGone(ds: seq<Descriptor>, owner: Descriptor, d: Descriptor)
    requires d != owner
    ensures owner !in Replaced(ds, owner.key, d)
  {
    if ds != [] {
      ReplacedIsGone(ds[..|ds| - 1], owner, d);
    }
  }

  // ---- Automatic scopes -------------------------------------------------------------------------

  function ScopeOf(rows: seq<Descriptor>): Scope {
    if rows == [] then map[] else ScopeOf(rows[..|rows| - 1])[rows[|rows| - 1].capability := rows[|rows| - 1].Exact()]
  }

  /** Without an explicit scope every binding of a known model gets its model's exact values. */
  function Automatic(byModel: map<string, seq<Descriptor>>, models: map<string, string>): map<string, Scope> {
    map b | b in models && RowsOf(byModel, models[b]) != [] :: ScopeOf(RowsOf(byModel, models[b]))
  }

  lemma {:induction false} ScopeOfHolds(rows: seq<Descriptor>, c: string)
    requires |OwnersOf(rows, c)| <= 1
    ensures OwnersOf(rows, c) != [] ==> c in ScopeOf(rows) && ScopeOf(rows)[c] == OwnersOf(rows, c)[0].Exact()
  {
    if rows != [] {
      var n := |rows| - 1;
      if rows[n].capability == c {
        assert OwnersOf(rows, c)[..|OwnersOf(rows, c)| - 1] == OwnersOf(rows[..n], c);
      } else {
        assert OwnersOf(rows, c) == OwnersOf(rows[..n], c);
        ScopeOfHolds(rows[..n], c);
      }
    }
  }

  // ---- Authorization ----------------------------------------------------------------------------

  /** Whether a value may be sent (local_control_contract.py lines 1237 to 1300).  `spells` says of a
      descriptor with a parameter pattern or schema whether a string is canonical for it. */
  predicate ValueAuthorized(t: Tables, spells: (Descriptor, string) -> bool, b: string, m: string, c: string, value: string) {
    && b in t.bindings && Owners(t, m, c) != [] && c in t.bindings[b]
    && var d, allowed := Owners(t, m, c)[0], t.bindings[b][c];
       if d.draftOnly then false
       else if d.requestFrom.Some? then
         allowed == d.Exact() && IsDraft(t, m, d.requestFrom.value) && |value| <= 160
         && spells(Owners(t, m, d.requestFrom.value)[0], value) && spells(d, value)
       else if d.schema.Some? then allowed == d.Exact() && spells(d, value)
       else value in allowed && value in d.Exact()
  }

  predicate IsDraft(t: Tables, m: string, c: string) {
    Owners(t, m, c) != [] && Owners(t, m, c)[0].draftOnly
  }

  /** What a descriptor itself admits: its exact values, or the strings of its parameter form. */
  predicate Admits(t: Tables, spells: (Descriptor, string) -> bool, m: string, d: Descriptor, value: string) {
    if d.draftOnly then false
    else if d.requestFrom.Some? then
      IsDraft(t, m, d.requestFrom.value) && |value| <= 160
      && spells(Owners(t, m, d.requestFrom.value)[0], value) && spells(d, value)
    else if d.schema.Some? then spells(d, value)
    else value in d.Exact()
  }

  /** Whether the binding owns the whole capability (lines 1302 to 1334). */
  predicate CapabilityAuthorized(t: Tables, b: string, m: string, c: string) {
    && b in t.bindings && Owners(t, m, c) != [] && c in t.bindings[b]
    && t.bindings[b][c] == Owners(t, m, c)[0].Exact() && t.bindings[b][c] != []
  }

  /** After automatic scoping and the whole overlay, every binding may send exactly what every
      descriptor of its model, base or added, admits, and owns every capability that has a value. */
  lemma {:induction false} AutomaticScopesAuthorizeExactly(byModel: map<string, seq<Descriptor>>, fs: seq<Feature>, g: Setting,
                                                           spells: (Descriptor, string) -> bool, b: string, c: string, v: string)
    requires TablesIdentified(byModel) && NoBars(fs) && UniqueTargets(fs)
    requires forall m, e :: |OwnersOf(RowsOf(byModel, m), e)| <= 1
    requires forall d :: d in OwnersOf(RowsOf(byModel, "HUM_056905_WW"), "operation.mode") ==> Distinct(d.Exact())
    requires b in Automatic(byModel, g.models) && ApplyAll(Start(byModel, Automatic(byModel, g.models)), fs, g).Ok?
    ensures var t, m := ApplyAll(Start(byModel, Automatic(byModel, g.models)), fs, g).value, g.models[b];
      && (ValueAuthorized(t, spells, b, m, c, v) <==> Owners(t, m, c) != [] && Admits(t, spells, m, Owners(t, m, c)[0], v))
      && (CapabilityAuthorized(t, b, m, c) <==> Owners(t, m, c) != [] && Owners(t, m, c)[0].Exact() != [])
  {
    var start := Start(byModel, Automatic(byModel, g.models));
    ScopeOfHolds(RowsOf(byModel, g.models[b]), c);
    AgreementSurvives(start, fs, g, b, c);
    AgreementAuthorizes(ApplyAll(start, fs, g).value, g, spells, b, c, v);
  }

  /** A binding in agreement with its descriptor may send what the descriptor admits. */
  lemma AgreementAuthorizes(t: Tables, g: Setting, spells: (Descriptor, string) -> bool, b: string, c: string, v: string)
    requires b in g.models && (Owners(t, g.models[b], c) != [] ==> InAgreement(t, g, b, c))
    ensures var m := g.models[b];
      && (ValueAuthorized(t, spells, b, m, c, v) <==> Owners(t, m, c) != [] && Admits(t, spells, m, Owners(t, m, c)[0], v))
      && (CapabilityAuthorized(t, b, m, c) <==> Owners(t, m, c) != [] && Owners(t, m, c)[0].Exact() != [])
  {
  }
}
