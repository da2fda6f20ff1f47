/** When a refresh overlapped by pushes ends as if its reply had come before them (coordinator.py). */
module RefreshOrder {
  import opened Wrappers
  import opened DeepMerge
  import opened PatCoordinator

  // ---- Reports one after the other --------------------------------------------------------------

  function Onto(x: Option<Json>, y: Json): Json {
    if x.Some? then Merge(x.value, y) else y
  }

  function Then(x: Option<Json>, y: Option<Json>): Option<Json> {
    if y.Some? then Some(Onto(x, y.value)) else x
  }

  function Fold(x: Option<Json>, ps: seq<Json>): Option<Json> {
    if ps == [] then x else Some(Onto(Fold(x, ps[..|ps| - 1]), ps[|ps| - 1]))
  }

  lemma MergeOntoNothing(y: Json)
    requires y.Dict?
    ensures Merge(Dict(map[]), y) == y
  {
    assert Merge(Dict(map[]), y).fields == y.fields;
  }

  /** Applying a report is merging it onto what is there, if anything is. */
  lemma ApplyIsOnto(data: Option<Json>, report: Json)
    ensures Apply(data, report) == Onto(data, report)
  {
    if report.Dict? {
      MergeOntoNothing(report);
    }
  }

  lemma {:induction false} ApplyAllIsFold(data: Option<Json>, ps: seq<Json>)
    ensures ApplyAll(data, ps) == Fold(data, ps)
  {
    if ps != [] {
      ApplyAllIsFold(data, ps[..|ps| - 1]);
      ApplyIsOnto(ApplyAll(data, ps[..|ps| - 1]), ps[|ps| - 1]);
    }
  }

  lemma {:induction false} CombinedIsFold(ps: seq<Json>)
    ensures Combined(ps) == Fold(None, ps)
  {
    if ps != [] {
      CombinedIsFold(ps[..|ps| - 1]);
    }
  }

  // ---- Paths ------------------------------------------------------------------------------------

  function FieldOf(x: Option<Json>, key: string): Option<Json> {
    if x.Some? && x.value.Dict? && key in x.value.fields then Some(x.value.fields[key]) else None
  }

  /** What is found at a path, an object or a plain value. */
  function NodeAt(x: Option<Json>, path: seq<string>): Option<Json>
    decreases |path|
  {
    if path == [] then x else NodeAt(FieldOf(x, path[0]), path[1..])
  }

  predicate PlainAt(x: Option<Json>, path: seq<string>) {
    NodeAt(x, path).Some? && !NodeAt(x, path).value.Dict?
  }

  predicate ObjectAt(x: Option<Json>, path: seq<string>) {
    NodeAt(x, path).Some? && NodeAt(x, path).value.Dict?
  }

  /** Somewhere a push has a plain value (a list included) and all pushes together an object. */
  ghost predicate Turns(ps: seq<Json>) {
    exists i, path :: 0 <= i < |ps| && PlainAt(Some(ps[i]), path) && ObjectAt(Combined(ps), path)
  }

  /** The reply takes effect as if it had come before the first push. */
  predicate RepliedFirst(baseline: Option<Json>, status: Json, pushes: seq<Json>) {
    Some(WithReply(ApplyAll(baseline, pushes), status, pushes)) == ApplyAll(Some(Apply(baseline, status)), pushes)
  }

  // ---- Without a turn the order holds -----------------------------------------------------------

  function Sub(ps: seq<Json>, key: string): seq<Json> {
    if ps == [] then []
    else
      var last := FieldOf(Some(ps[|ps| - 1]), key);
      Sub(ps[..|ps| - 1], key) + if last.Some? then [last.value] else []
  }

  predicate AllObjects(ps: seq<Json>) {
    forall i :: 0 <= i < |ps| ==> ps[i].Dict?
  }

  lemma FieldOfThen(x: Option<Json>, y: Option<Json>, key: string)
    requires y.Some? ==> y.value.Dict?
    ensures FieldOf(Then(x, y), key) == Then(FieldOf(x, key), FieldOf(y, key))
  {
  }

  lemma {:induction false} FieldOfFold(x: Option<Json>, ps: seq<Json>, key: string)
    requires AllObjects(ps)
    ensures FieldOf(Fold(x, ps), key) == Fold(FieldOf(x, key), Sub(ps, key))
    ensures ps != [] ==> Fold(x, ps).value.Dict?
  {
    if ps != [] {
      var n := |ps| - 1;
      FieldOfFold(x, ps[..n], key);
      FieldOfThen(Fold(x, ps[..n]), Some(ps[n]), key);
      if FieldOf(Some(ps[n]), key).Some? {
        assert Sub(ps, key)[..|Sub(ps, key)| - 1] == Sub(ps[..n], key);
      } else {
        assert Sub(ps, key) == Sub(ps[..n], key);
      }
    }
  }

  lemma {:induction false} SubIsOfPushes(ps: seq<Json>, key: string, i: nat) returns (j: nat)
    requires i < |Sub(ps, key)|
    ensures j < |ps| && FieldOf(Some(ps[j]), key) == Some(Sub(ps, key)[i])
  {
    var n := |ps| - 1;
    if i < |Sub(ps[..n], key)| {
      j := SubIsOfPushes(ps[..n], key, i);
    } else {
      j := n;
    }
  }

  /** A member of pushes that do not turn does not turn. */
  lemma SubDoesNotTurn(ps: seq<Json>, key: string)
    requires AllObjects(ps) && !Turns(ps)
    ensures !Turns(Sub(ps, key))
  {
    forall i, path | 0 <= i < |Sub(ps, key)| && PlainAt(Some(Sub(ps, key)[i]), path)
      ensures !ObjectAt(Combined(Sub(ps, key)), path)
    {
      var j := SubIsOfPushes(ps, key, i);
      var whole := [key] + path;
      assert whole[0] == key && whole[1..] == path;
      CombinedIsFold(ps);
      CombinedIsFold(Sub(ps, key));
      FieldOfFold(None, ps, key);
      assert NodeAt(Some(ps[j]), whole) == NodeAt(Some(Sub(ps, key)[i]), path);
      assert NodeAt(Combined(ps), whole) == NodeAt(Combined(Sub(ps, key)), path);
      assert PlainAt(Some(ps[j]), whole);
      assert !ObjectAt(Combined(ps), whole);
    }
  }

  /** A plain last push is all that is left of the pushes, whatever was there before. */
  lemma LastIsPlain(x: Option<Json>, ps: seq<Json>)
    requires ps != [] && !Fold(x, ps).value.Dict?
    ensures forall y :: Fold(y, ps) == Some(ps[|ps| - 1])
    ensures !ps[|ps| - 1].Dict?
  {
  }

  lemma {:induction false} PlainIsForgotten(plain: Json, ps: seq<Json>)
    requires ps != [] && !plain.Dict?
    ensures Fold(Some(plain), ps) == Fold(None, ps)
  {
    if |ps| > 1 {
      PlainIsForgotten(plain, ps[..|ps| - 1]);
    }
  }

  lemma {:induction false} NoTurnLinearizes(b: Option<Json>, s: Option<Json>, ps: seq<Json>, c: Json)
    requires !Turns(ps) && Fold(None, ps) == Some(c)
    ensures Then(Then(Fold(b, ps), s), Some(c)) == Fold(Then(b, s), ps)
    decreases c
  {
    CombinedIsFold(ps);
    if !c.Dict? {
      LastIsPlain(None, ps);
    } else {
      forall i | 0 <= i < |ps| ensures ps[i].Dict? {
        assert ObjectAt(Combined(ps), []);
        assert !PlainAt(Some(ps[i]), []);
      }
      if s.Some? && !s.value.Dict? {
        PlainIsForgotten(s.value, ps);
      } else {
        FieldOfFold(b, ps, "");
        FieldOfFold(Then(b, s), ps, "");
        forall key: string
          ensures FieldOf(Then(Then(Fold(b, ps), s), Some(c)), key) == FieldOf(Fold(Then(b, s), ps), key)
        {
          NoTurnLinearizesAt(b, s, ps, c, key);
        }
        SameFields(Then(Then(Fold(b, ps), s), Some(c)).value, Fold(Then(b, s), ps).value);
      }
    }
  }

  lemma {:induction false} NoTurnLinearizesAt(b: Option<Json>, s: Option<Json>, ps: seq<Json>, c: Json, key: string)
    requires !Turns(ps) && AllObjects(ps) && Fold(None, ps) == Some(c) && c.Dict? && (s.Some? ==> s.value.Dict?)
    ensures FieldOf(Then(Then(Fold(b, ps), s), Some(c)), key) == FieldOf(Fold(Then(b, s), ps), key)
    decreases c, 0
  {
    var sub, bk, sk := Sub(ps, key), FieldOf(b, key), FieldOf(s, key);
    FieldOfFold(b, ps, key);
    FieldOfFold(None, ps, key);
    FieldOfFold(Then(b, s), ps, key);
    FieldOfThen(b, s, key);
    FieldOfThen(Fold(b, ps), s, key);
    FieldOfThen(Then(Fold(b, ps), s), Some(c), key);
    if key in c.fields {
      SubDoesNotTurn(ps, key);
      NoTurnLinearizes(bk, sk, sub, c.fields[key]);
    } else {
      assert sub == [];
    }
  }

  lemma SameFields(x: Json, y: Json)
    requires x.Dict? && y.Dict?
    requires forall key: string :: FieldOf(Some(x), key) == FieldOf(Some(y), key)
    ensures x == y
  {
    forall key ensures key in x.fields <==> key in y.fields {
      assert FieldOf(Some(x), key) == FieldOf(Some(y), key);
    }
    forall key | key in x.fields ensures x.fields[key] == y.fields[key] {
      assert FieldOf(Some(x), key) == FieldOf(Some(y), key);
    }
    assert x.fields == y.fields;
  }

  // ---- With a turn it does not ------------------------------------------------------------------

  lemma {:induction false} NothingAtNothing(path: seq<string>)
    ensures NodeAt(None, path) == None
    decreases |path|
  {
    if path != [] {
      NothingAtNothing(path[1..]);
    }
  }

  lemma NodeHasField(q: Json, path: seq<string>)
    requires path != [] && NodeAt(Some(q), path).Some?
    ensures q.Dict? && path[0] in q.fields
  {
    NothingAtNothing(path[1..]);
  }

  /** A merge is seen at a path only through what was there before. */
  lemma {:induction false} NodeOfOnto(x: Option<Json>, y: Option<Json>, q: Option<Json>, path: seq<string>)
    requires NodeAt(x, path) == NodeAt(y, path)
    ensures NodeAt(Then(x, q), path) == NodeAt(Then(y, q), path)
    decreases |path|
  {
    if path != [] && q.Some? && q.value.Dict? {
      var k := path[0];
      FieldOfThen(x, q, k);
      FieldOfThen(y, q, k);
      NodeOfOnto(FieldOf(x, k), FieldOf(y, k), FieldOf(q, k), path[1..]);
    }
  }

  lemma {:induction false} PlainWins(x: Option<Json>, q: Json, path: seq<string>)
    requires PlainAt(Some(q), path)
    ensures NodeAt(Then(x, Some(q)), path) == NodeAt(Some(q), path)
    decreases |path|
  {
    if path != [] {
      var k := path[0];
      NodeHasField(q, path);
      FieldOfThen(x, Some(q), k);
      PlainWins(FieldOf(x, k), q.fields[k], path[1..]);
    }
  }

  /** What a push has made plain at a path, nothing from before shows through again. */
  lemma {:induction false} NothingShowsThrough(x: Option<Json>, ps: seq<Json>, i: nat, path: seq<string>)
    requires i < |ps| && PlainAt(Some(ps[i]), path)
    ensures NodeAt(Fold(x, ps), path) == NodeAt(Fold(None, ps), path)
  {
    var n := |ps| - 1;
    if i == n {
      PlainWins(Fold(x, ps[..n]), ps[n], path);
      PlainWins(Fold(None, ps[..n]), ps[n], path);
    } else {
      NothingShowsThrough(x, ps[..n], i, path);
      NodeOfOnto(Fold(x, ps[..n]), Fold(None, ps[..n]), Some(ps[n]), path);
    }
  }

  lemma {:induction false} LongerKey(keys: set<string>) returns (k: string)
    ensures forall key :: key in keys ==> |key| < |k|
  {
    k := "x";
    if keys != {} {
      var key :| key in keys;
      k := LongerKey(keys - {key});
      if |k| <= |key| {
        k := key + "x";
      }
    }
  }

  /** The object with one plain value at the end of a path. */
  function Along(path: seq<string>, key: string): Json
    decreases |path|
  {
    if path == [] then Dict(map[key := Scalar("")]) else Dict(map[path[0] := Along(path[1..], key)])
  }

  /** A reply's new member below an object of the pushes is still there after both merges. */
  lemma {:induction false} NewMemberSurvives(c: Json, path: seq<string>, key: string)
    requires ObjectAt(Some(c), path)
    ensures FieldOf(NodeAt(Then(Then(Some(c), Some(Along(path, key))), Some(c)), path), key).Some?
    decreases |path|
  {
    if path != [] {
      var k := path[0];
      NodeHasField(c, path);
      FieldOfThen(Some(c), Some(Along(path, key)), k);
      FieldOfThen(Then(Some(c), Some(Along(path, key))), Some(c), k);
      NewMemberSurvives(c.fields[k], path[1..], key);
    }
  }

  lemma TurnBreaksTheOrder(ps: seq<Json>) returns (status: Json)
    requires Turns(ps)
    ensures status.Dict? && !RepliedFirst(None, status, ps)
  {
    var i, path :| 0 <= i < |ps| && PlainAt(Some(ps[i]), path) && ObjectAt(Combined(ps), path);
    CombinedIsFold(ps);
    var c := Fold(None, ps).value;
    var key := LongerKey(NodeAt(Some(c), path).value.fields.Keys);
    status := Along(path, key);
    ObjectReplyIsMergedTwice(None, status, ps);
    NewMemberSurvives(c, path, key);
    NothingShowsThrough(Some(status), ps, i, path);
    ApplyAllIsFold(Some(Apply(None, status)), ps);
    ApplyIsOnto(None, status);
  }

  // ---- The exact condition ----------------------------------------------------------------------

  /** What the source computes for an object reply. */
  lemma ObjectReplyIsMergedTwice(b: Option<Json>, s: Json, ps: seq<Json>)
    requires s.Dict?
    ensures Some(WithReply(ApplyAll(b, ps), s, ps)) == Then(Then(Fold(b, ps), Some(s)), Fold(None, ps))
  {
    ApplyAllIsFold(b, ps);
    CombinedIsFold(ps);
    ApplyIsOnto(Fold(b, ps), s);
    if ps != [] && !Fold(None, ps).value.Dict? {
      LastIsPlain(None, ps);
    }
  }

  /** For every known status and every object reply the refresh ends as if the reply had come first,
      if and only if no push has a plain value where all pushes together have an object. */
  lemma ObjectReplyLinearizes(ps: seq<Json>)
    ensures (forall b, s: Json :: s.Dict? ==> RepliedFirst(b, s, ps)) <==> !Turns(ps)
  {
    if Turns(ps) {
      var s := TurnBreaksTheOrder(ps);
    } else {
      forall b, s: Json | s.Dict? ensures RepliedFirst(b, s, ps) {
        NoTurnRepliedFirst(b, s, ps);
      }
    }
  }

  lemma NoTurnRepliedFirst(b: Option<Json>, s: Json, ps: seq<Json>)
    requires !Turns(ps) && s.Dict?
    ensures RepliedFirst(b, s, ps)
  {
    ObjectReplyIsMergedTwice(b, s, ps);
    ApplyAllIsFold(Some(Apply(b, s)), ps);
    ApplyIsOnto(b, s);
    if ps != [] {
      NoTurnLinearizes(b, Some(s), ps, Fold(None, ps).value);
    }
  }

  /** One push alone never turns. */
  lemma OnePushDoesNotTurn(p: Json)
    ensures !Turns([p])
  {
    assert [p][..0] == [];
    assert Combined([p]) == Some(p);
  }

  /** A list reply is dropped when the pushes are objects: for every known status it takes effect in
      order if and only if there is no push, or one of them is a list. */
  lemma ListReplyLinearizes(s: Json, ps: seq<Json>)
    requires s.List?
    ensures (forall b :: RepliedFirst(b, s, ps)) <==> ps == [] || !AllObjects(ps)
  {
    CombinedIsFold(ps);
    ApplyAllIsFold(Some(s), ps);
    if ps != [] && AllObjects(ps) {
      var c := Fold(None, ps).value;
      FieldOfFold(None, ps, "");
      var key := LongerKey(c.fields.Keys);
      var b := Dict(map[key := Scalar("")]);
      ApplyAllIsFold(Some(b), ps);
      PlainIsForgotten(s, ps);
      FieldOfFold(Some(b), ps, key);
      FieldOfFold(None, ps, key);
      assert Sub(ps, key) == [];
      assert !RepliedFirst(Some(b), s, ps);
    } else {
      forall b ensures RepliedFirst(b, s, ps) {
        ListAmongPushes(b, s, ps);
      }
    }
  }

  lemma ListAmongPushes(b: Option<Json>, s: Json, ps: seq<Json>)
    requires s.List? && (ps == [] || !AllObjects(ps))
    ensures RepliedFirst(b, s, ps)
  {
    CombinedIsFold(ps);
    ApplyAllIsFold(Some(s), ps);
    ApplyAllIsFold(b, ps);
    if ps != [] {
      var i :| 0 <= i < |ps| && !ps[i].Dict?;
      NothingShowsThrough(b, ps, i, []);
      NothingShowsThrough(Some(s), ps, i, []);
    }
  }

  // ---- Devices that keep to one shape -----------------------------------------------------------

  lemma {:induction false} ShapeDecides(x: Json, y: Json, shape: Shape, path: seq<string>)
    requires Conforms(x, shape) && Conforms(y, shape)
    ensures !(PlainAt(Some(x), path) && ObjectAt(Some(y), path))
    decreases |path|
  {
    if path != [] && FieldOf(Some(x), path[0]).Some? && FieldOf(Some(y), path[0]).Some? {
      ShapeDecides(x.fields[path[0]], y.fields[path[0]], shape.fields[path[0]], path[1..]);
    } else {
      NothingAtNothing(path);
      if path != [] {
        NothingAtNothing(path[1..]);
      }
    }
  }

  lemma OneShapeDoesNotTurn(ps: seq<Json>, shape: Shape)
    requires AllFollow(ps, shape)
    ensures !Turns(ps)
  {
    if ps != [] {
      CombinedFollows(ps, shape);
      forall i, path | 0 <= i < |ps| ensures !(PlainAt(Some(ps[i]), path) && ObjectAt(Combined(ps), path)) {
        ShapeDecides(ps[i], Combined(ps).value, shape, path);
      }
    }
  }

  /** So whatever was known and whatever the reply, as long as the pushes keep to one shape and the
      reply is a list exactly if they are lists. */
  lemma RefreshLinearizes(baseline: Option<Json>, status: Json, pushes: seq<Json>, shape: Shape)
    requires IsStatus(status) && AllFollow(pushes, shape) && status.Dict? == shape.DictShape?
    ensures RepliedFirst(baseline, status, pushes)
  {
    if status.Dict? {
      OneShapeDoesNotTurn(pushes, shape);
      NoTurnRepliedFirst(baseline, status, pushes);
    } else {
      assert pushes != [] ==> !pushes[0].Dict?;
      ListAmongPushes(baseline, status, pushes);
    }
  }

  /** Merging a report before and after another one is merging it after, whatever their shapes. */
  lemma MergedTwiceIsMergedLast(base: Json, p: Json, status: Json)
    ensures Merge(Merge(Merge(base, p), status), p) == Merge(Merge(base, status), p)
  {
    OnePushDoesNotTurn(p);
    assert [p][..0] == [];
    NoTurnLinearizes(Some(base), Some(status), [p], p);
  }

  // ---- No order at all --------------------------------------------------------------------------

  function Inserted(ps: seq<Json>, s: Json, k: nat): seq<Json>
    requires k <= |ps|
  {
    ps[..k] + [s] + ps[k..]
  }

  /** With a turn the result may match no place of the reply among the pushes.  `a` is plain in the
      first push and an object again in the second, so the reply's member of it can only be explained
      by a later reply; `e` is in the first push and in the reply, and only an earlier reply explains
      that the push's value stands. */
  lemma NoOrderExplains(b: Json, c: Json, d: Json, plain: Json, pushed: Json, replied: Json)
    requires !plain.Dict? && !pushed.Dict? && !replied.Dict? && pushed != replied
    ensures var baseline, status := Dict(map["a" := Dict(map["b" := b])]), Dict(map["a" := Dict(map["d" := d]), "e" := replied]);
            var pushes := [Dict(map["a" := plain, "e" := pushed]), Dict(map["a" := Dict(map["c" := c])])];
            forall k :: 0 <= k <= 2 ==>
              Some(WithReply(ApplyAll(Some(baseline), pushes), status, pushes)) != ApplyAll(Some(baseline), Inserted(pushes, status, k))
  {
    var baseline, status := Dict(map["a" := Dict(map["b" := b])]), Dict(map["a" := Dict(map["d" := d]), "e" := replied]);
    var one, two := Dict(map["a" := plain, "e" := pushed]), Dict(map["a" := Dict(map["c" := c])]);
    var pushes := [one, two];
    ObjectReplyIsMergedTwice(Some(baseline), status, pushes);
    FoldOfTwo(Some(baseline), one, two);
    FoldOfTwo(None, one, two);
    ResultKeepsBoth(baseline, one, two, status, c, d, plain, pushed);
    forall k | 0 <= k <= 2 ensures Some(WithReply(ApplyAll(Some(baseline), pushes), status, pushes)) != ApplyAll(Some(baseline), Inserted(pushes, status, k)) {
      OrderLosesOne(baseline, one, two, status, c, d, plain, pushed, replied, k);
    }
  }

  /** A reply before both pushes, or after the first, loses one of the two traces. */
  lemma OrderLosesOne(baseline: Json, one: Json, two: Json, status: Json, c: Json, d: Json, plain: Json, pushed: Json, replied: Json, k: nat)
    requires baseline.Dict? && !plain.Dict? && !pushed.Dict? && !replied.Dict? && pushed != replied && k <= 2
    requires one == Dict(map["a" := plain, "e" := pushed]) && two == Dict(map["a" := Dict(map["c" := c])])
    requires status == Dict(map["a" := Dict(map["d" := d]), "e" := replied])
    ensures var after := ApplyAll(Some(baseline), Inserted([one, two], status, k));
            FieldOf(after, "e") != Some(pushed) || FieldOf(FieldOf(after, "a"), "d").None?
  {
    ApplyAllIsFold(Some(baseline), Inserted([one, two], status, k));
    if k == 0 {
      EarlierReplyLosesItsMember(baseline, one, two, status, plain, c);
    } else {
      LaterReplyLosesThePush(Some(baseline), one, two, status, replied, k);
    }
  }

  lemma EarlierReplyLosesItsMember(baseline: Json, one: Json, two: Json, status: Json, plain: Json, c: Json)
    requires one.Dict? && two.Dict? && status.Dict? && !plain.Dict?
    requires FieldOf(Some(one), "a") == Some(plain) && FieldOf(Some(two), "a") == Some(Dict(map["c" := c]))
    ensures FieldOf(FieldOf(Fold(Some(baseline), Inserted([one, two], status, 0)), "a"), "d").None?
  {
    assert Inserted([one, two], status, 0) == [status, one, two];
    FieldOfThree(Some(baseline), status, one, two, "a");
  }

  lemma LaterReplyLosesThePush(x: Option<Json>, one: Json, two: Json, status: Json, replied: Json, k: nat)
    requires one.Dict? && two.Dict? && "e" !in two.fields && status.Dict? && 1 <= k <= 2
    requires FieldOf(Some(status), "e") == Some(replied) && !replied.Dict?
    ensures FieldOf(Fold(x, Inserted([one, two], status, k)), "e") == Some(replied)
  {
    if k == 1 {
      assert Inserted([one, two], status, k) == [one, status, two];
      FieldOfThree(x, one, status, two, "e");
    } else {
      assert Inserted([one, two], status, k) == [one, two, status];
      FieldOfThree(x, one, two, status, "e");
    }
  }

  lemma ResultKeepsBoth(baseline: Json, one: Json, two: Json, status: Json, c: Json, d: Json, plain: Json, pushed: Json)
    requires baseline.Dict? && !plain.Dict? && !pushed.Dict?
    requires one == Dict(map["a" := plain, "e" := pushed]) && two == Dict(map["a" := Dict(map["c" := c])])
    requires status.Dict? && FieldOf(Some(status), "a") == Some(Dict(map["d" := d]))
    ensures var combined := Then(Some(one), Some(two));
            var result := Then(Then(Then(Then(Some(baseline), Some(one)), Some(two)), Some(status)), combined);
            FieldOf(result, "e") == Some(pushed) && FieldOf(FieldOf(result, "a"), "d").Some?
  {
    var combined := Then(Some(one), Some(two));
    var known := Then(Then(Some(baseline), Some(one)), Some(two));
    FieldOfThen(Some(one), Some(two), "a");
    FieldOfThen(Some(one), Some(two), "e");
    FieldOfThen(Some(baseline), Some(one), "a");
    FieldOfThen(Then(Some(baseline), Some(one)), Some(two), "a");
    FieldOfThen(known, Some(status), "a");
    FieldOfThen(Then(known, Some(status)), combined, "a");
    FieldOfThen(Then(known, Some(status)), combined, "e");
    assert FieldOf(known, "a") == FieldOf(combined, "a") == Some(Dict(map["c" := c]));
    FieldOfThen(Some(Dict(map["c" := c])), Some(Dict(map["d" := d])), "d");
  }

  lemma FieldOfThree(x: Option<Json>, p: Json, q: Json, r: Json, key: string)
    requires p.Dict? && q.Dict? && r.Dict?
    ensures FieldOf(Fold(x, [p, q, r]), key) == Then(Then(Then(FieldOf(x, key), FieldOf(Some(p), key)), FieldOf(Some(q), key)), FieldOf(Some(r), key))
  {
    FoldOfThree(x, p, q, r);
    FieldOfThen(x, Some(p), key);
    FieldOfThen(Then(x, Some(p)), Some(q), key);
    FieldOfThen(Then(Then(x, Some(p)), Some(q)), Some(r), key);
  }

  lemma FoldOfTwo(x: Option<Json>, p: Json, q: Json)
    ensures Fold(x, [p, q]) == Then(Then(x, Some(p)), Some(q))
  {
    assert [p, q][..1] == [p] && [p][..0] == [];
    assert Fold(x, [p]) == Then(x, Some(p));
  }

  lemma FoldOfThree(x: Option<Json>, p: Json, q: Json, r: Json)
    ensures Fold(x, [p, q, r]) == Then(Then(Then(x, Some(p)), Some(q)), Some(r))
  {
    FoldOfTwo(x, p, q);
    assert [p, q, r][..2] == [p, q];
  }
}
