/** The entries of the control tables, and how one confirmed feature extends one descriptor
    (local_control_confirmed_features.py lines 188 to 400; local_control_contract.py lines 273 to 333). */
module FeatureRows {
  import opened Wrappers
  import opened DecimalText

  /** Python's bool, int, float and str. */
  datatype Primitive = Flag(b: bool) | Whole(n: int) | Fraction(r: real) | Text(s: string)

  /** Python's equality puts True, 1 and 1.0 together. */
  function AsKey(p: Primitive): Primitive {
    match p
    case Flag(b) => Fraction(if b then 1.0 else 0.0)
    case Whole(n) => Fraction(n as real)
    case _ => p
  }

  datatype Mapping = Mapping(name: Primitive, request: string)

  datatype Descriptor = Descriptor(
    key: string, model: string, capability: string, domain: string, kind: string,
    supported: seq<Primitive>, mappings: seq<Mapping>,
    existingOwner: bool, factoryEligible: bool, oneShot: bool,
    numberMin: Option<Primitive>, numberMax: Option<Primitive>, numberStep: Option<Primitive>,
    unit: Option<string>, schema: Option<string>, draftOnly: bool, requestFrom: Option<string>)
  {
    /** `exact_local_request_values` */
    function Exact(): seq<string> { Requests(mappings) }
  }

  datatype Row = Row(value: string, name: string, reported: Option<Primitive>)

  datatype Feature = Feature(
    model: string, capability: string, domain: string, existingOwner: bool,
    source: Option<string>, kind: Option<string>, evidence: Option<string>,
    rows: seq<Row>, labels: Option<map<string, string>>, relabels: bool, schema: Option<string>)

  function Requests(ms: seq<Mapping>): seq<string> {
    if ms == [] then [] else Requests(ms[..|ms| - 1]) + [ms[|ms| - 1].request]
  }

  function Values(rows: seq<Row>): seq<string> {
    if rows == [] then [] else Values(rows[..|rows| - 1]) + [rows[|rows| - 1].value]
  }

  predicate Distinct<T(==)>(s: seq<T>) {
    forall i, j :: 0 <= i < j < |s| ==> s[i] != s[j]
  }

  predicate Disjoint<T(==)>(s: seq<T>, t: seq<T>) {
    forall x :: x in s ==> x !in t
  }

  function Keys(ps: seq<Primitive>): seq<Primitive> {
    seq(|ps|, i requires 0 <= i < |ps| => AsKey(ps[i]))
  }

  function Labels(ms: seq<Mapping>): seq<Primitive> {
    seq(|ms|, i requires 0 <= i < |ms| => AsKey(ms[i].name))
  }

  /** The label a request carries, the last mapping winning. */
  function LabelOf(ms: seq<Mapping>, request: string): Option<Primitive> {
    if ms == [] then None
    else if ms[|ms| - 1].request == request then Some(ms[|ms| - 1].name)
    else LabelOf(ms[..|ms| - 1], request)
  }

  // ---- Integers as request values ---------------------------------------------------------------

  function IntsOf(vs: seq<string>): Option<seq<int>> {
    if vs == [] then Some([])
    else
      var before, last := IntsOf(vs[..|vs| - 1]), IntOf(vs[|vs| - 1]);
      if before.Some? && last.Some? then Some(before.value + [last.value]) else None
  }

  function Insert(s: seq<int>, x: int): seq<int> {
    if s == [] || s[|s| - 1] <= x then s + [x] else Insert(s[..|s| - 1], x) + [s[|s| - 1]]
  }

  function Sorted(s: seq<int>): seq<int> {
    if s == [] then [] else Insert(Sorted(s[..|s| - 1]), s[|s| - 1])
  }

  function Texts(ns: seq<int>): seq<string> {
    if ns == [] then [] else Texts(ns[..|ns| - 1]) + [PrintInt(ns[|ns| - 1])]
  }

  function Gaps(ns: seq<int>): set<int> {
    if |ns| < 2 then {} else Gaps(ns[..|ns| - 1]) + {ns[|ns| - 1] - ns[|ns| - 2]}
  }

  // ---- The four ways a feature extends an existing descriptor ----------------------------------

  datatype Branch = BooleanBranch | EnumBranch | NumericBranch | HumBranch

  /** `tuple(v for v in ('false', 'true') if v in vs)` */
  function Both(vs: seq<string>): seq<string> {
    (if "false" in vs then ["false"] else []) + if "true" in vs then ["true"] else []
  }

  function BooleanMappings(owner: seq<Mapping>, requests: seq<string>): seq<Mapping> {
    if requests == [] then []
    else
      var v := requests[|requests| - 1];
      BooleanMappings(owner, requests[..|requests| - 1])
        + [Mapping(if LabelOf(owner, v).Some? then LabelOf(owner, v).value else Flag(v == "true"), v)]
  }

  /** Lines 224 to 243. */
  function ExtendBoolean(owner: Descriptor, f: Feature): Result<Descriptor> {
    var values := Values(f.rows);
    if owner.kind != "boolean" || owner.domain != "switch" || f.domain != "switch" || !owner.existingOwner || !f.existingOwner
       || values == [] || !Distinct(values)
       || (exists v :: v in values && v != "false" && v != "true")
       || (exists row :: row in f.rows && row.reported != Some(Flag(row.value == "true")))
       || !Disjoint(values, owner.Exact())
    then Err
    else
      var requests := Both(owner.Exact() + values);
      Ok(owner.(supported := seq(|requests|, i requires 0 <= i < |requests| => Flag(requests[i] == "true")),
                mappings := BooleanMappings(owner.mappings, requests)))
  }

  /** `LocalControlValueMapping(label, value)` for every row */
  function RowMappings(rows: seq<Row>): seq<Mapping> {
    if rows == [] then []
    else RowMappings(rows[..|rows| - 1]) + [Mapping(Text(rows[|rows| - 1].name), rows[|rows| - 1].value)]
  }

  /** `row.get('reported_value', row['value'])` */
  function ReportOf(row: Row): Primitive {
    if row.reported.Some? then row.reported.value else Text(row.value)
  }

  function Reports(rows: seq<Row>): seq<Primitive> {
    seq(|rows|, i requires 0 <= i < |rows| => ReportOf(rows[i]))
  }

  /** Lines 244 to 265. */
  function ExtendEnum(owner: Descriptor, f: Feature): Result<Descriptor> {
    var values := Values(f.rows);
    if owner.kind != "enum" || owner.domain != "select" || values == []
       || (exists row :: row in f.rows && (row.value == "" || row.name == "" || row.reported.None? || row.reported.value.Fraction?))
       || !Distinct(values) || !Distinct(Keys(Reports(f.rows)))
       || !Disjoint(values, owner.Exact())
       || !Disjoint(Keys(Reports(f.rows)), Keys(owner.supported))
       || !Disjoint(Labels(RowMappings(f.rows)), Labels(owner.mappings))
    then Err
    else
      Ok(owner.(supported := owner.supported + Reports(f.rows), mappings := owner.mappings + RowMappings(f.rows)))
  }

  /** The label of one supported number (lines 286 to 293). */
  function NumberLabel(owner: Descriptor, f: Feature, domain: string, n: int): Primitive {
    var text := PrintInt(n);
    var unit := text + if owner.unit.Some? then owner.unit.value else "";
    if f.labels.Some? then
      if text in f.labels.value then Text(f.labels.value[text]) else Text("")
    else if domain == "number" then Whole(n)
    else if owner.domain == "select" then
      if LabelOf(owner.mappings, text).Some? then LabelOf(owner.mappings, text).value
      else if PlainSelect(owner.mappings) then Text(text) else Text(unit)
    else Text(unit)
  }

  predicate PlainSelect(ms: seq<Mapping>) {
    forall m :: m in ms ==> m.name == Text(m.request)
  }

  function NumberMappings(owner: Descriptor, f: Feature, domain: string, ns: seq<int>): seq<Mapping> {
    if ns == [] then []
    else
      var n := ns[|ns| - 1];
      NumberMappings(owner, f, domain, ns[..|ns| - 1]) + [Mapping(NumberLabel(owner, f, domain, n), PrintInt(n))]
  }

  /** The display labels name exactly the supported numbers, each differently; and they rename an
      existing option only when the feature says so (lines 272 to 281). */
  predicate LabelsFit(owner: Descriptor, f: Feature, supported: seq<int>) {
    f.labels.Some? ==>
      var labels := f.labels.value;
      && labels.Keys == (set n | n in supported :: PrintInt(n))
      && (forall text :: text in labels ==> labels[text] != "")
      && (forall a, b :: a in labels && b in labels && a != b ==> labels[a] != labels[b])
      && (owner.domain == "select" ==>
            Renames(owner.mappings, labels) == Some(false) || (Renames(owner.mappings, labels) == Some(true) && f.relabels))
  }

  /** Whether some option would be renamed; looking up an option the labels lack raises. */
  function Renames(ms: seq<Mapping>, labels: map<string, string>): Option<bool> {
    if ms == [] then Some(false)
    else if ms[0].request !in labels then None
    else if Text(labels[ms[0].request]) != ms[0].name then Some(true)
    else Renames(ms[1..], labels)
  }

  /** Lines 266 to 309. */
  function ExtendNumeric(owner: Descriptor, f: Feature): Result<Descriptor> {
    var values := Values(f.rows);
    if owner.kind !in {"number", "enum"} || owner.domain !in {"number", "select"}
       || values == [] || !Distinct(values)
       || (exists v :: v in values && !IsNatText(v))
       || !Disjoint(values, owner.Exact())
       || IntsOf(owner.Exact() + values).None?
    then Err
    else
      var supported := Sorted(IntsOf(owner.Exact() + values).value);
      if !LabelsFit(owner, f, supported) then Err
      else
        var number := f.labels.None? && owner.domain == "number" && |Gaps(supported)| == 1;
        var domain := if number then "number" else "select";
        Ok(owner.(
          supported := seq(|supported|, i requires 0 <= i < |supported| => Whole(supported[i])),
          mappings := NumberMappings(owner, f, domain, supported),
          domain := domain,
          kind := if number then "number" else "enum",
          numberMin := if number then Some(Whole(supported[0])) else None,
          numberMax := if number then Some(Whole(supported[|supported| - 1])) else None,
          numberStep := if number then Some(Whole(supported[1] - supported[0])) else None))
  }

  /** What an existing request reports, the last pair of values and mappings winning. */
  function OldReport(supported: seq<Primitive>, ms: seq<Mapping>, request: string): Option<Primitive>
    decreases |ms|
  {
    if ms == [] then None
    else
      var n := |ms| - 1;
      if n < |supported| && ms[n].request == request then Some(supported[n]) else OldReport(supported, ms[..n], request)
  }

  /** The rows whose request the descriptor does not have yet. */
  function NewRows(rows: seq<Row>, exact: seq<string>): seq<Row> {
    if rows == [] then []
    else
      NewRows(rows[..|rows| - 1], exact) + if rows[|rows| - 1].value in exact then [] else [rows[|rows| - 1]]
  }

  /** Lines 310 to 354. */
  function ExtendHum(owner: Descriptor, f: Feature): Result<Descriptor> {
    var requests, added := Values(f.rows), NewRows(f.rows, owner.Exact());
    if owner.domain != "select" || owner.kind != "enum" || f.domain != "select" || requests == []
       || !Distinct(requests)
       || (exists v :: v in owner.Exact() && v !in requests)
       || (exists row :: row in f.rows && OldReport(owner.supported, owner.mappings, row.value).Some?
             && AsKey(OldReport(owner.supported, owner.mappings, row.value).value) != AsKey(ReportOf(row)))
       || !Disjoint(Labels(RowMappings(added)), Labels(owner.mappings))
    then Err
    else
      Ok(owner.(supported := owner.supported + Reports(added), mappings := owner.mappings + RowMappings(added)))
  }

  function Extend(branch: Branch, owner: Descriptor, f: Feature): Result<Descriptor> {
    match branch
    case BooleanBranch => ExtendBoolean(owner, f)
    case EnumBranch => ExtendEnum(owner, f)
    case NumericBranch => ExtendNumeric(owner, f)
    case HumBranch => ExtendHum(owner, f)
  }

  /** `tuple(dict.fromkeys(vs))` */
  function Dedup(vs: seq<string>): seq<string> {
    if vs == [] then []
    else
      var before := Dedup(vs[..|vs| - 1]);
      if vs[|vs| - 1] in before then before else before + [vs[|vs| - 1]]
  }

  /** What a selected binding is allowed afterwards, having been allowed `prior`. */
  function Allowed(branch: Branch, prior: seq<string>, values: seq<string>): Result<seq<string>> {
    match branch
    case BooleanBranch => Ok(Both(prior + values))
    case EnumBranch => Ok(prior + values)
    case NumericBranch =>
      if IntsOf(prior + values).Some? then Ok(Texts(Sorted(IntsOf(prior + values).value))) else Err
    case HumBranch => Ok(Dedup(prior + values))
  }
}
