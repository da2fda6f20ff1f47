/** What each way of extending a descriptor does to its values and to who may use them. */
module FeatureBranches {
  import opened Wrappers
  import opened DecimalText
  import opened FeatureRows

  // ---- The values of an extended descriptor -----------------------------------------------------

  lemma {:induction false} RequestsJoin(a: seq<Mapping>, b: seq<Mapping>)
    ensures Requests(a + b) == Requests(a) + Requests(b)
  {
    if b == [] {
      assert a + b == a;
    } else {
      var n := |b| - 1;
      RequestsJoin(a, b[..n]);
      assert (a + b)[..|a + b| - 1] == a + b[..n];
    }
  }

  lemma {:induction false} RowRequests(rows: seq<Row>)
    ensures Requests(RowMappings(rows)) == Values(rows)
  {
    if rows != [] {
      RowRequests(rows[..|rows| - 1]);
      RequestsJoin(RowMappings(rows[..|rows| - 1]), [Mapping(Text(rows[|rows| - 1].name), rows[|rows| - 1].value)]);
    }
  }

  lemma {:induction false} BooleanRequests(owner: seq<Mapping>, requests: seq<string>)
    ensures Requests(BooleanMappings(owner, requests)) == requests
  {
    if requests != [] {
      var n := |requests| - 1;
      BooleanRequests(owner, requests[..n]);
      var ms := BooleanMappings(owner, requests);
      assert ms[..|ms| - 1] == BooleanMappings(owner, requests[..n]);
      assert requests == requests[..n] + [requests[n]];
    }
  }

  lemma {:induction false} NumberRequests(owner: Descriptor, f: Feature, domain: string, ns: seq<int>)
    ensures Requests(NumberMappings(owner, f, domain, ns)) == Texts(ns)
  {
    if ns != [] {
      var n := |ns| - 1;
      NumberRequests(owner, f, domain, ns[..n]);
      var ms := NumberMappings(owner, f, domain, ns);
      assert ms[..|ms| - 1] == NumberMappings(owner, f, domain, ns[..n]);
    }
  }

  // ---- Removing duplicates ----------------------------------------------------------------------

  lemma {:induction false} DedupIsDistinct(vs: seq<string>)
    ensures Distinct(Dedup(vs))
    ensures forall v :: v in Dedup(vs) <==> v in vs
  {
    if vs != [] {
      var n := |vs| - 1;
      DedupIsDistinct(vs[..n]);
      assert vs == vs[..n] + [vs[n]];
    }
  }

  lemma {:induction false} DistinctIsDedup(vs: seq<string>)
    requires Distinct(vs)
    ensures Dedup(vs) == vs
  {
    if vs != [] {
      var n := |vs| - 1;
      DistinctIsDedup(vs[..n]);
      assert vs == vs[..n] + [vs[n]];
    }
  }

  lemma {:induction false} ValuesAreOfRows(rows: seq<Row>)
    ensures |Values(rows)| == |rows|
    ensures forall i :: 0 <= i < |rows| ==> Values(rows)[i] == rows[i].value
  {
    if rows != [] {
      ValuesAreOfRows(rows[..|rows| - 1]);
    }
  }

  lemma NewRowsGrow(rows: seq<Row>, exact: seq<string>)
    requires rows != []
    ensures var n := |rows| - 1;
      Values(NewRows(rows, exact)) == Values(NewRows(rows[..n], exact)) + if rows[n].value in exact then [] else [rows[n].value]
  {
    var n, added := |rows| - 1, NewRows(rows, exact);
    if rows[n].value in exact {
      assert added == NewRows(rows[..n], exact);
    } else {
      assert added[..|added| - 1] == NewRows(rows[..n], exact);
    }
  }

  lemma {:induction false} DedupGrows(vs: seq<string>, v: string)
    ensures Dedup(vs + [v]) == if v in vs then Dedup(vs) else Dedup(vs) + [v]
  {
    assert (vs + [v])[..|vs|] == vs;
    DedupIsDistinct(vs);
  }

  /** Adding the requests of a feature to an owner's distinct values adds its new rows. */
  lemma {:induction false} DedupAppendsNewRows(exact: seq<string>, rows: seq<Row>)
    requires Distinct(exact) && Distinct(Values(rows))
    ensures Dedup(exact + Values(rows)) == exact + Values(NewRows(rows, exact))
  {
    if rows == [] {
      assert exact + Values(rows) == exact;
      DistinctIsDedup(exact);
    } else {
      var n := |rows| - 1;
      LastIsNew(rows);
      DedupAppendsNewRows(exact, rows[..n]);
      DedupWithLast(exact, Values(rows[..n]), rows[n].value);
      NewRowsGrow(rows, exact);
      assert exact + Values(rows) == exact + (Values(rows[..n]) + [rows[n].value]);
    }
  }

  lemma DedupWithLast(exact: seq<string>, values: seq<string>, v: string)
    requires v !in values
    ensures Dedup(exact + (values + [v])) == if v in exact then Dedup(exact + values) else Dedup(exact + values) + [v]
  {
    assert exact + (values + [v]) == (exact + values) + [v];
    DedupGrows(exact + values, v);
  }

  lemma DedupAppendsIff(exact: seq<string>, rows: seq<Row>)
    requires Distinct(Values(rows))
    ensures Dedup(exact + Values(rows)) == exact + Values(NewRows(rows, exact)) <==> Distinct(exact)
  {
    if Distinct(exact) {
      DedupAppendsNewRows(exact, rows);
    } else {
      var i, j :| 0 <= i < j < |exact| && exact[i] == exact[j];
      var all := exact + Values(NewRows(rows, exact));
      assert all[i] == all[j];
      DedupIsDistinct(exact + Values(rows));
    }
  }

  lemma {:induction false} LastIsNew(rows: seq<Row>)
    requires rows != [] && Distinct(Values(rows))
    ensures var n := |rows| - 1; Distinct(Values(rows[..n])) && rows[n].value !in Values(rows[..n])
  {
    ValuesAreOfRows(rows);
    ValuesAreOfRows(rows[..|rows| - 1]);
    assert Values(rows)[..|rows| - 1] == Values(rows[..|rows| - 1]);
  }

  // ---- Agreement of a scope with its descriptor -------------------------------------------------

  lemma ExactOfExtended(branch: Branch, owner: Descriptor, f: Feature)
    requires Extend(branch, owner, f).Ok?
    ensures var d := Extend(branch, owner, f).value;
      && d.key == owner.key && d.model == owner.model && d.capability == owner.capability
      && d.Exact() ==
         match branch
         case BooleanBranch => Both(owner.Exact() + Values(f.rows))
         case EnumBranch => owner.Exact() + Values(f.rows)
         case NumericBranch => Texts(Sorted(IntsOf(owner.Exact() + Values(f.rows)).value))
         case HumBranch => owner.Exact() + Values(NewRows(f.rows, owner.Exact()))
  {
    match branch
    case BooleanBranch => BooleanRequests(owner.mappings, Both(owner.Exact() + Values(f.rows)));
    case EnumBranch =>
      RowRequests(f.rows);
      RequestsJoin(owner.mappings, RowMappings(f.rows));
    case NumericBranch =>
      var supported := Sorted(IntsOf(owner.Exact() + Values(f.rows)).value);
      NumberRequests(owner, f, Extend(branch, owner, f).value.domain, supported);
    case HumBranch =>
      RowRequests(NewRows(f.rows, owner.Exact()));
      RequestsJoin(owner.mappings, RowMappings(NewRows(f.rows, owner.Exact())));
  }

  /** A binding that was allowed exactly the descriptor's values is allowed exactly the extended
      descriptor's; in the operation-mode branch if and only if those values had no duplicate. */
  lemma ExtensionKeepsAgreement(branch: Branch, owner: Descriptor, f: Feature)
    requires Extend(branch, owner, f).Ok?
    ensures !branch.HumBranch? ==> Allowed(branch, owner.Exact(), Values(f.rows)) == Ok(Extend(branch, owner, f).value.Exact())
    ensures branch.HumBranch? ==>
      (Allowed(branch, owner.Exact(), Values(f.rows)) == Ok(Extend(branch, owner, f).value.Exact()) <==> Distinct(owner.Exact()))
  {
    ExactOfExtended(branch, owner, f);
    if branch.HumBranch? {
      DedupAppendsIff(owner.Exact(), f.rows);
    }
  }

  // ---- Who gains what ---------------------------------------------------------------------------

  lemma {:induction false} InsertKeeps(s: seq<int>, x: int)
    ensures forall n :: n in Insert(s, x) <==> n in s || n == x
    ensures |Insert(s, x)| == |s| + 1
  {
    if s != [] && s[|s| - 1] > x {
      InsertKeeps(s[..|s| - 1], x);
      assert s == s[..|s| - 1] + [s[|s| - 1]];
    }
  }

  lemma {:induction false} SortedKeeps(s: seq<int>)
    ensures forall n :: n in Sorted(s) <==> n in s
    ensures |Sorted(s)| == |s|
  {
    if s != [] {
      SortedKeeps(s[..|s| - 1]);
      InsertKeeps(Sorted(s[..|s| - 1]), s[|s| - 1]);
      assert s == s[..|s| - 1] + [s[|s| - 1]];
    }
  }

  lemma {:induction false} TextsAre(ns: seq<int>, v: string)
    ensures v in Texts(ns) <==> exists n :: n in ns && v == PrintInt(n)
  {
    if ns != [] {
      TextsAre(ns[..|ns| - 1], v);
      assert ns == ns[..|ns| - 1] + [ns[|ns| - 1]];
    }
  }

  predicate CanonicalInt(v: string) {
    IntOf(v).Some? && PrintInt(IntOf(v).value) == v
  }

  lemma {:induction false} IntsOfAre(vs: seq<string>, n: int)
    requires IntsOf(vs).Some?
    ensures n in IntsOf(vs).value <==> exists p :: p in vs && IntOf(p) == Some(n)
  {
    if vs != [] {
      var m := |vs| - 1;
      IntsOfAre(vs[..m], n);
      assert vs == vs[..m] + [vs[m]];
      assert vs[m] in vs;
    }
  }

  predicate Spells(p: string, v: string) {
    IntOf(p).Some? && PrintInt(IntOf(p).value) == v
  }

  /** Some value is a spelling of the integer that prints as `v`. */
  predicate IsSpelledIn(vs: seq<string>, v: string) {
    exists p :: p in vs && Spells(p, v)
  }

  lemma NumericMembers(vs: seq<string>, v: string)
    requires IntsOf(vs).Some?
    ensures v in Texts(Sorted(IntsOf(vs).value)) <==> IsSpelledIn(vs, v)
  {
    var ns := IntsOf(vs).value;
    SortedKeeps(ns);
    TextsAre(Sorted(ns), v);
    if p :| p in vs && Spells(p, v) {
      IntsOfAre(vs, IntOf(p).value);
    }
    if n :| n in Sorted(ns) && v == PrintInt(n) {
      IntsOfAre(vs, n);
      var p :| p in vs && IntOf(p) == Some(n);
      assert Spells(p, v);
    }
  }

  lemma NatTextIsCanonical(v: string)
    requires IsNatText(v)
    ensures CanonicalInt(v)
  {
    PrintReadNat(v);
  }

  /** The boolean, enum and numeric branches add only the feature's own values: what a scope withheld
      of the old values it still withholds.  The one exception is a number the scope holds in another
      spelling, which the numeric branch rewrites. */
  lemma {:induction false} ScopesStayRestrictive(branch: Branch, owner: Descriptor, f: Feature, prior: seq<string>, v: string)
    requires Extend(branch, owner, f).Ok? && !branch.HumBranch?
    requires v in owner.Exact() && v !in prior
    ensures Allowed(branch, prior, Values(f.rows)).Ok? ==>
      (v in Allowed(branch, prior, Values(f.rows)).value <==> branch.NumericBranch? && IsSpelledIn(prior, v))
  {
    var values := Values(f.rows);
    assert v !in values;
    if branch.NumericBranch? && IntsOf(prior + values).Some? {
      NumericMembers(prior + values, v);
      if p :| p in prior + values && Spells(p, v) {
        if p in values {
          NatTextIsCanonical(p);
        }
        assert p in prior;
      }
      if p :| p in prior && Spells(p, v) {
        assert p in prior + values;
      }
    }
  }

  /** The operation-mode branch does the opposite: every old value is granted to every selected
      binding, whatever its scope withheld. */
  lemma OperationModeWithholdsNothing(owner: Descriptor, f: Feature, prior: seq<string>, v: string)
    requires Extend(HumBranch, owner, f).Ok? && v in owner.Exact()
    ensures Allowed(HumBranch, prior, Values(f.rows)).Ok? && v in Allowed(HumBranch, prior, Values(f.rows)).value
  {
    DedupIsDistinct(prior + Values(f.rows));
    assert v in Values(f.rows);
  }

  lemma TwoRows(a: Row, b: Row)
    ensures Values([a, b]) == [a.value, b.value]
    ensures a.value != b.value ==> NewRows([a, b], [a.value]) == [b]
    ensures RowMappings([b]) == [Mapping(Text(b.name), b.value)]
  {
    assert [a, b][..1] == [a] && [a][..0] == [] && [b][..0] == [];
    assert Values([a]) == [a.value];
    assert NewRows([a], [a.value]) == [];
    assert RowMappings([]) == [];
  }

  lemma OneMapping(p: Primitive, m: Mapping, request: string)
    ensures Requests([m]) == [m.request]
    ensures OldReport([p], [m], request) == if request == m.request then Some(p) else None
  {
    assert [m][..0] == [];
    assert Requests([m]) == Requests([m][..0]) + [m.request];
  }

  /** So a scope that withheld an old value is widened by it. */
  lemma OperationModeWidensAScope() returns (owner: Descriptor, f: Feature, prior: seq<string>, v: string)
    ensures Extend(HumBranch, owner, f).Ok? && v in owner.Exact() && v !in prior
    ensures v in Allowed(HumBranch, prior, Values(f.rows)).value
  {
    var auto, sleep := Row("auto", "Auto", Some(Text("AUTO"))), Row("sleep", "Sleep", Some(Text("SLEEP")));
    var had := Mapping(Text("Auto"), "auto");
    owner := Descriptor("HUM_056905_WW|operation.mode", "HUM_056905_WW", "operation.mode", "select", "enum",
                        [Text("AUTO")], [had], true, false, false, None, None, None, None, None, false, None);
    f := Feature("HUM_056905_WW", "operation.mode", "select", true, None, None, Some("own-model-observed-command-and-state"),
                 [auto, sleep], None, false, None);
    prior, v := [], "auto";
    TwoRows(auto, sleep);
    OneMapping(Text("AUTO"), had, "auto");
    OneMapping(Text("AUTO"), had, "sleep");
    assert Labels([Mapping(Text("Sleep"), "sleep")])[0] == Text("Sleep") && Labels([had])[0] == Text("Auto");
    OperationModeWithholdsNothing(owner, f, prior, v);
  }

  // ---- The number grid --------------------------------------------------------------------------

  predicate Ascending(s: seq<int>) {
    forall i, j :: 0 <= i < j < |s| ==> s[i] <= s[j]
  }

  lemma {:induction false} InsertAscends(s: seq<int>, x: int)
    requires Ascending(s)
    ensures Ascending(Insert(s, x))
  {
    if s != [] && s[|s| - 1] > x {
      var rest := s[..|s| - 1];
      InsertAscends(rest, x);
      InsertKeeps(rest, x);
      forall i | 0 <= i < |Insert(rest, x)| ensures Insert(rest, x)[i] <= s[|s| - 1] {
        assert Insert(rest, x)[i] in Insert(rest, x);
      }
    }
  }

  lemma {:induction false} SortedAscends(s: seq<int>)
    ensures Ascending(Sorted(s))
  {
    if s != [] {
      SortedAscends(s[..|s| - 1]);
      InsertAscends(Sorted(s[..|s| - 1]), s[|s| - 1]);
    }
  }

  lemma {:induction false} GapIn(ns: seq<int>, i: nat)
    requires i + 1 < |ns|
    ensures ns[i + 1] - ns[i] in Gaps(ns)
  {
    if i + 2 < |ns| {
      GapIn(ns[..|ns| - 1], i);
    }
  }

  lemma OneGap(ns: seq<int>, i: nat, j: nat)
    requires |Gaps(ns)| == 1 && i + 1 < |ns| && j + 1 < |ns|
    ensures ns[i + 1] - ns[i] == ns[j + 1] - ns[j]
  {
    GapIn(ns, i);
    GapIn(ns, j);
    var rest := Gaps(ns) - {ns[i + 1] - ns[i]};
    assert |rest| == 0;
  }

  lemma {:induction false} GapIsStep(ns: seq<int>, i: nat)
    requires |Gaps(ns)| == 1 && i < |ns| && 1 < |ns|
    ensures ns[i] == ns[0] + i * (ns[1] - ns[0])
  {
    if i > 0 {
      GapIsStep(ns, i - 1);
      OneGap(ns, 0, i - 1);
    }
  }

  ghost predicate OnGrid(n: int, min: int, max: int, step: int) {
    n <= max && exists k: nat :: n == min + k * step
  }

  lemma {:induction false} AtLeastOneStep(d: nat, step: int)
    requires d > 0 && step > 0
    ensures d * step >= step
  {
    if d > 1 {
      AtLeastOneStep(d - 1, step);
      assert d * step == (d - 1) * step + step;
    }
  }

  lemma StepsWithin(k: nat, m: nat, step: int)
    requires step > 0
    ensures k * step <= m * step ==> k <= m
  {
    if k > m {
      var d := k - m;
      AtLeastOneStep(d, step);
      assert (m + d) * step == m * step + d * step;
    }
  }

  lemma GridOfOneGap(ns: seq<int>, n: int)
    requires Ascending(ns) && |Gaps(ns)| == 1
    ensures 1 < |ns|
    ensures n in ns <==> OnGrid(n, ns[0], ns[|ns| - 1], ns[1] - ns[0])
  {
    if |ns| < 2 {
      assert false;
    }
    var last, step := |ns| - 1, ns[1] - ns[0];
    GapIsStep(ns, last);
    if n in ns {
      var i :| 0 <= i < |ns| && ns[i] == n;
      GapIsStep(ns, i);
    }
    if OnGrid(n, ns[0], ns[last], step) {
      var k: nat :| n == ns[0] + k * step;
      if step > 0 {
        StepsWithin(k, last, step);
        GapIsStep(ns, k);
      }
    }
  }

  /** A descriptor left as a number control offers a grid, and the grid's points are exactly the
      supported numbers. */
  lemma NumberGridIsExact(owner: Descriptor, f: Feature) returns (min: int, max: int, step: int)
    requires ExtendNumeric(owner, f).Ok? && ExtendNumeric(owner, f).value.domain == "number"
    ensures var d := ExtendNumeric(owner, f).value;
      && d.numberMin == Some(Whole(min)) && d.numberMax == Some(Whole(max)) && d.numberStep == Some(Whole(step))
      && forall n :: Whole(n) in d.supported <==> OnGrid(n, min, max, step)
  {
    var d := ExtendNumeric(owner, f).value;
    var ints := IntsOf(owner.Exact() + Values(f.rows)).value;
    var ns := Sorted(ints);
    SortedAscends(ints);
    GridOfOneGap(ns, 0);
    min, max, step := ns[0], ns[|ns| - 1], ns[1] - ns[0];
    forall n ensures Whole(n) in d.supported <==> OnGrid(n, min, max, step) {
      GridOfOneGap(ns, n);
      if n in ns {
        var i :| 0 <= i < |ns| && ns[i] == n;
        assert d.supported[i] == Whole(n);
      }
    }
  }
}
