/** Overlaying the confirmed features on the control tables (local_control_confirmed_features.py
    lines 188 to 400) and the automatic scopes they start from (local_control_contract.py lines 1095
    to 1110). */
module ConfirmedFeatures {
  import opened Wrappers
  import opened FeatureRows

  const OBSERVED := "own-model-observed-command-and-state"

  /** What each binding may send, by capability. */
  type Scope = map<string, seq<string>>

  /** The local tables of the loop. */
  datatype Tables = Tables(
    byModel: map<string, seq<Descriptor>>, bindings: map<string, Scope>,
    additions: seq<Descriptor>, replacements: map<string, Descriptor>)

  /** What does not change: the model of each binding, and the parameter schemas that exist, as
      (model, capability, schema). */
  datatype Setting = Setting(models: map<string, string>, schemas: set<(string, string, string)>)

  function RowsOf(byModel: map<string, seq<Descriptor>>, model: string): seq<Descriptor> {
    if model in byModel then byModel[model] else []
  }

  function OwnersOf(rows: seq<Descriptor>, capability: string): seq<Descriptor> {
    if rows == [] then []
    else
      OwnersOf(rows[..|rows| - 1], capability)
        + if rows[|rows| - 1].capability == capability then [rows[|rows| - 1]] else []
  }

  /** `tuple(descriptor if d.key == key else d for d in rows)` */
  function Replaced(rows: seq<Descriptor>, key: string, descriptor: Descriptor): seq<Descriptor> {
    if rows == [] then []
    else Replaced(rows[..|rows| - 1], key, descriptor) + [if rows[|rows| - 1].key == key then descriptor else rows[|rows| - 1]]
  }

  /** Lines 209 to 215. */
  predicate NativeHorizontal(f: Feature) {
    && f.model == "CST_570004_WW" && f.capability == "swing.horizontal_enabled" && f.existingOwner && f.domain == "switch"
    && f.evidence == Some(OBSERVED) && Values(f.rows) == ["false", "true"]
    && |f.rows| == 2 && f.rows[0].reported.Some? && f.rows[1].reported.Some?
    && AsKey(f.rows[0].reported.value) == AsKey(Flag(false)) && AsKey(f.rows[1].reported.value) == AsKey(Flag(true))
  }

  predicate IsOperationMode(f: Feature) {
    f.model == "HUM_056905_WW" && f.capability == "operation.mode" && f.existingOwner && f.evidence == Some(OBSERVED)
  }

  /** The way a feature extends an existing owner; None if it adds a control. */
  function BranchOf(f: Feature): Option<Branch> {
    if f.source == Some("exact-model-web-domain") && f.existingOwner && !NativeHorizontal(f) then
      Some(if f.kind == Some("boolean") then BooleanBranch else if f.kind == Some("enum") then EnumBranch else NumericBranch)
    else if IsOperationMode(f) then Some(HumBranch)
    else None
  }

  function KeyOf(model: string, capability: string): string {
    model + "|" + capability
  }

  function AddedMappings(domain: string, rows: seq<Row>): seq<Mapping> {
    if rows == [] then []
    else
      var row := rows[|rows| - 1];
      AddedMappings(domain, rows[..|rows| - 1]) + [Mapping(
        Text(if domain == "switch" then (if row.value == "true" then "on" else "off") else if domain == "button" then "press" else row.name),
        row.value)]
  }

  /** Lines 355 to 393. */
  function Added(f: Feature): Descriptor {
    var flags := f.domain == "switch" || f.capability == "washer.fresh_care_enabled";
    Descriptor(
      KeyOf(f.model, f.capability), f.model, f.capability, f.domain, if f.domain == "switch" then "boolean" else "enum",
      seq(|f.rows|, i requires 0 <= i < |f.rows| => if flags then Flag(f.rows[i].value == "true") else ReportOf(f.rows[i])),
      AddedMappings(f.domain, f.rows), f.existingOwner, !f.existingOwner, f.domain == "button",
      None, None, None, None, f.schema, false, None)
  }

  datatype Plan = Refuse | Extension(branch: Branch, owner: Descriptor, descriptor: Descriptor) | Addition(descriptor: Descriptor)

  function PlanFor(rows: seq<Descriptor>, f: Feature, schemas: set<(string, string, string)>): Plan {
    var owners := OwnersOf(rows, f.capability);
    if BranchOf(f).Some? then
      if |owners| != 1 || Extend(BranchOf(f).value, owners[0], f).Err? then Refuse
      else Extension(BranchOf(f).value, owners[0], Extend(BranchOf(f).value, owners[0], f).value)
    else if owners != [] then Refuse
    else if f.schema.Some? && ((f.model, f.capability, f.schema.value) !in schemas || f.domain != "text" || f.rows != []) then Refuse
    else Addition(Added(f))
  }

  /** What a selected binding's scope becomes. */
  function Granted(plan: Plan, f: Feature, scope: Scope): Result<Scope> {
    match plan
    case Refuse => Err
    case Addition(descriptor) => Ok(scope[f.capability := descriptor.Exact()])
    case Extension(branch, _, _) =>
      var allowed := Allowed(branch, if f.capability in scope then scope[f.capability] else [], Values(f.rows));
      if allowed.Ok? then Ok(scope[f.capability := allowed.value]) else Err
  }

  predicate Selected(t: Tables, f: Feature, g: Setting) {
    exists b :: b in t.bindings && b in g.models && g.models[b] == f.model
  }

  predicate AllGranted(plan: Plan, t: Tables, f: Feature, g: Setting) {
    forall b :: b in t.bindings && b in g.models && g.models[b] == f.model ==> Granted(plan, f, t.bindings[b]).Ok?
  }

  function GrantAll(plan: Plan, t: Tables, f: Feature, g: Setting): map<string, Scope>
    requires AllGranted(plan, t, f, g)
  {
    map b | b in t.bindings ::
      if b in g.models && g.models[b] == f.model then Granted(plan, f, t.bindings[b]).value else t.bindings[b]
  }

  /** The tables without the scopes. */
  function Tabled(plan: Plan, t: Tables, f: Feature): Tables {
    match plan
    case Refuse => t
    case Addition(descriptor) =>
      t.(byModel := t.byModel[f.model := RowsOf(t.byModel, f.model) + [descriptor]], additions := t.additions + [descriptor])
    case Extension(_, owner, descriptor) =>
      t.(byModel := t.byModel[f.model := Replaced(RowsOf(t.byModel, f.model), owner.key, descriptor)],
         replacements := t.replacements[owner.key := descriptor])
  }

  /** One pass of the loop.  A binding without a model, like a malformed feature, raises. */
  function Apply(t: Tables, f: Feature, g: Setting): Result<Tables> {
    if !(t.bindings.Keys <= g.models.Keys) then Err
    else if !Selected(t, f, g) then Ok(t)
    else
      var plan := PlanFor(RowsOf(t.byModel, f.model), f, g.schemas);
      if plan.Refuse? || !AllGranted(plan, t, f, g) then Err
      else Ok(Tabled(plan, t, f).(bindings := GrantAll(plan, t, f, g)))
  }

  function ApplyAll(t: Tables, fs: seq<Feature>, g: Setting): Result<Tables> {
    if fs == [] then Ok(t)
    else
      var before := ApplyAll(t, fs[..|fs| - 1], g);
      if before.Err? then Err else Apply(before.value, fs[|fs| - 1], g)
  }

  /** `replacements.get(d.key, d)` for every base descriptor */
  function Patched(base: seq<Descriptor>, replacements: map<string, Descriptor>): seq<Descriptor> {
    if base == [] then []
    else
      var d := base[|base| - 1];
      Patched(base[..|base| - 1], replacements) + [if d.key in replacements then replacements[d.key] else d]
  }

  /** The descriptor list of the overlaid contract. */
  function Listed(base: seq<Descriptor>, t: Tables): seq<Descriptor> {
    Patched(base, t.replacements) + t.additions
  }

  function Start(byModel: map<string, seq<Descriptor>>, eligibility: map<string, Scope>): Tables {
    Tables(byModel, eligibility, [], map[])
  }

  /** The scopes once the bindings in `done` have been served. */
  ghost predicate Served(bindings: map<string, Scope>, done: set<string>, plan: Plan, t: Tables, f: Feature) {
    && bindings.Keys == t.bindings.Keys
    && forall b :: b in t.bindings ==>
         if b in done then Granted(plan, f, t.bindings[b]) == Ok(bindings[b]) else bindings[b] == t.bindings[b]
  }

  lemma ServedOneMore(bindings: map<string, Scope>, done: set<string>, plan: Plan, t: Tables, f: Feature, b: string, scope: Scope)
    requires Served(bindings, done, plan, t, f) && b in t.bindings && Granted(plan, f, t.bindings[b]) == Ok(scope)
    ensures Served(bindings[b := scope], done + {b}, plan, t, f)
  {
  }

  lemma ServedAll(bindings: map<string, Scope>, done: set<string>, plan: Plan, t: Tables, f: Feature, g: Setting)
    requires Served(bindings, done, plan, t, f)
    requires done == set b | b in t.bindings && b in g.models && g.models[b] == f.model
    ensures AllGranted(plan, t, f, g) && bindings == GrantAll(plan, t, f, g)
  {
  }

  method GrantSelected(plan: Plan, t: Tables, f: Feature, g: Setting) returns (r: Result<map<string, Scope>>)
    ensures r == if AllGranted(plan, t, f, g) then Ok(GrantAll(plan, t, f, g)) else Err
  {
    var bindings := t.bindings;
    var selected := set b | b in t.bindings && b in g.models && g.models[b] == f.model;
    var todo := selected;
    while todo != {}
      invariant todo <= selected
      invariant Served(bindings, selected - todo, plan, t, f)
      decreases |todo|
    {
      var b :| b in todo;
      var granted := Granted(plan, f, bindings[b]);
      if granted.Err? {
        return Err;
      }
      ServedOneMore(bindings, selected - todo, plan, t, f, b, granted.value);
      assert selected - todo + {b} == selected - (todo - {b});
      bindings := bindings[b := granted.value];
      todo := todo - {b};
    }
    assert selected - todo == selected;
    ServedAll(bindings, selected, plan, t, f, g);
    r := Ok(bindings);
  }

  method AugmentConfirmedFeatures(base: seq<Descriptor>, byModel: map<string, seq<Descriptor>>, eligibility: map<string, Scope>,
                                  features: seq<Feature>, g: Setting)
    returns (r: Result<Tables>, descriptors: seq<Descriptor>)
    ensures r == ApplyAll(Start(byModel, eligibility), features, g)
    ensures r.Ok? ==> descriptors == Listed(base, r.value)
  {
    var t := Start(byModel, eligibility);
    descriptors := [];
    var i := 0;
    while i < |features|
      invariant 0 <= i <= |features|
      invariant ApplyAll(Start(byModel, eligibility), features[..i], g) == Ok(t)
    {
      assert features[..i + 1][..i] == features[..i];
      var f := features[i];
      if !(t.bindings.Keys <= g.models.Keys) {
        FirstRefusal(Start(byModel, eligibility), features, g, i);
        return Err, [];
      }
      if Selected(t, f, g) {
        var plan := PlanFor(RowsOf(t.byModel, f.model), f, g.schemas);
        var bindings := GrantSelected(plan, t, f, g);
        if plan.Refuse? || bindings.Err? {
          FirstRefusal(Start(byModel, eligibility), features, g, i);
          return Err, [];
        }
        t := Tabled(plan, t, f).(bindings := bindings.value);
      }
      i := i + 1;
    }
    assert features[..i] == features;
    r, descriptors := Ok(t), Listed(base, t);
  }

  /** One refused feature refuses the whole overlay. */
  lemma {:induction false} FirstRefusal(t: Tables, fs: seq<Feature>, g: Setting, i: nat)
    requires i < |fs| && ApplyAll(t, fs[..i + 1], g).Err?
    ensures ApplyAll(t, fs, g).Err?
  {
    if i + 1 == |fs| {
      assert fs[..i + 1] == fs;
    } else {
      assert fs[..|fs| - 1][..i + 1] == fs[..i + 1];
      FirstRefusal(t, fs[..|fs| - 1], g, i);
    }
  }
}
