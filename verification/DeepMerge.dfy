/** Status documents and the merge that applies a delta to one (coordinator.py, `deep_merge`). */
module DeepMerge {
  import opened Wrappers

  /** A JSON value.  Only objects are merged; a newer scalar or list replaces what was there. */
  datatype Json = Scalar(text: string) | List(items: seq<Json>) | Dict(fields: map<string, Json>)

  function Merge(base: Json, delta: Json): Json
    decreases delta
  {
    if base.Dict? && delta.Dict? then
      Dict(map key | key in base.fields.Keys + delta.fields.Keys ::
             if key !in delta.fields then base.fields[key]
             else if key in base.fields then Merge(base.fields[key], delta.fields[key])
             else delta.fields[key])
    else
      delta
  }

  /** The source's loop over the delta's keys, in whatever order they come. */
  method DeepMergeInto(base: map<string, Json>, delta: Json) returns (merged: map<string, Json>)
    requires delta.Dict?
    ensures Dict(merged) == Merge(Dict(base), delta)
    decreases delta
  {
    merged := base;
    var todo := delta.fields.Keys;
    while todo != {}
      invariant todo <= delta.fields.Keys
      invariant merged.Keys == base.Keys + (delta.fields.Keys - todo)
      invariant forall key :: key in todo && key in base ==> merged[key] == base[key]
      invariant forall key :: key in merged && key !in todo ==> merged[key] == Merge(Dict(base), delta).fields[key]
      decreases todo
    {
      var key :| key in todo;
      todo := todo - {key};
      var value := delta.fields[key];
      if value.Dict? && key in merged && merged[key].Dict? {
        var inner := DeepMergeInto(merged[key].fields, value);
        merged := merged[key := Dict(inner)];
      } else {
        merged := merged[key := value];
      }
    }
  }

  // ---- The algebra of deltas that follow one schema ---------------------------------------------

  /** A device's schema: which keys hold objects and which hold plain values. */
  datatype Shape = LeafShape | DictShape(fields: map<string, Shape>)

  predicate Conforms(j: Json, shape: Shape)
    decreases j
  {
    match shape
    case LeafShape => !j.Dict?
    case DictShape(fields) =>
      j.Dict? && forall key :: key in j.fields ==> key in fields && Conforms(j.fields[key], fields[key])
  }

  lemma {:induction false} MergeConforms(x: Json, y: Json, shape: Shape)
    requires Conforms(x, shape) && Conforms(y, shape)
    ensures Conforms(Merge(x, y), shape)
    decreases shape
  {
    if shape.DictShape? {
      forall key | key in x.fields && key in y.fields
        ensures Conforms(Merge(x.fields[key], y.fields[key]), shape.fields[key])
      {
        MergeConforms(x.fields[key], y.fields[key], shape.fields[key]);
      }
    }
  }

  /** Merging deltas first, or one after the other onto the base, is the same. */
  lemma {:induction false} MergeAssociates(x: Json, y: Json, z: Json, shape: Shape)
    requires Conforms(x, shape) && Conforms(y, shape) && Conforms(z, shape)
    ensures Merge(Merge(x, y), z) == Merge(x, Merge(y, z))
    decreases shape
  {
    if shape.DictShape? {
      forall key | key in x.fields && key in y.fields && key in z.fields
        ensures Merge(Merge(x.fields[key], y.fields[key]), z.fields[key]) == Merge(x.fields[key], Merge(y.fields[key], z.fields[key]))
      {
        MergeAssociates(x.fields[key], y.fields[key], z.fields[key], shape.fields[key]);
      }
      assert Merge(Merge(x, y), z).fields == Merge(x, Merge(y, z)).fields;
    }
  }

  /** A delta that is merged again at the end made its first merge redundant. */
  lemma {:induction false} LaterMergeAbsorbs(x: Json, y: Json, shape: Shape)
    requires Conforms(x, shape) && Conforms(y, shape)
    ensures Merge(Merge(x, y), x) == Merge(y, x)
    decreases shape
  {
    if shape.DictShape? {
      forall key | key in x.fields
        ensures key in y.fields ==> Merge(Merge(x.fields[key], y.fields[key]), x.fields[key]) == Merge(y.fields[key], x.fields[key])
        ensures Merge(x.fields[key], x.fields[key]) == x.fields[key]
      {
        MergeIsIdempotent(x.fields[key]);
        if key in y.fields {
          LaterMergeAbsorbs(x.fields[key], y.fields[key], shape.fields[key]);
        }
      }
      assert Merge(Merge(x, y), x).fields == Merge(y, x).fields;
    }
  }

  lemma {:induction false} MergeIsIdempotent(x: Json)
    ensures Merge(x, x) == x
    decreases x
  {
    if x.Dict? {
      forall key | key in x.fields ensures Merge(x.fields[key], x.fields[key]) == x.fields[key] {
        MergeIsIdempotent(x.fields[key]);
      }
      assert Merge(x, x).fields == x.fields;
    }
  }

  /** The plain value found by following `path`, if there is one. */
  function ValueAt(j: Json, path: seq<string>): Option<Json>
    decreases |path|
  {
    if j.Dict? then
      if path == [] || path[0] !in j.fields then None else ValueAt(j.fields[path[0]], path[1..])
    else if path == [] then Some(j) else None
  }

  /** After a merge every path reads the delta's value where it has one and the base's elsewhere. */
  lemma {:induction false} MergeReadsNewest(x: Json, y: Json, shape: Shape, path: seq<string>)
    requires Conforms(x, shape) && Conforms(y, shape)
    ensures ValueAt(Merge(x, y), path) == if ValueAt(y, path).Some? then ValueAt(y, path) else ValueAt(x, path)
    decreases |path|
  {
    if shape.DictShape? && path != [] && path[0] in x.fields && path[0] in y.fields {
      MergeReadsNewest(x.fields[path[0]], y.fields[path[0]], shape.fields[path[0]], path[1..]);
    }
  }
}
