/** One device's status: pushed deltas arriving while a slow REST read is in flight (coordinator.py). */
module PatCoordinator {
  import opened Wrappers
  import opened DeepMerge

  /** A report applied to what is known: a list replaces it, an object is merged onto it. */
  function Apply(data: Option<Json>, report: Json): Json {
    if report.Dict? then
      Merge(if data.Some? && data.value.Dict? then data.value else Dict(map[]), report)
    else
      report
  }

  function ApplyAll(data: Option<Json>, reports: seq<Json>): Option<Json> {
    if reports == [] then data
    else Some(Apply(ApplyAll(data, reports[..|reports| - 1]), reports[|reports| - 1]))
  }

  /** The pushes of one refresh, folded into a single one. */
  function Combined(pushes: seq<Json>): Option<Json> {
    if pushes == [] then None
    else
      var report := pushes[|pushes| - 1];
      var before := Combined(pushes[..|pushes| - 1]);
      Some(if report.Dict? && before.Some? && before.value.Dict? then Merge(before.value, report) else report)
  }

  predicate IsStatus(j: Json) {
    j.Dict? || j.List?
  }

  predicate Truthy(j: Json) {
    match j
    case Scalar(text) => text != ""
    case List(items) => items != []
    case Dict(fields) => fields != map[]
  }

  datatype Reply = RequestFailed | Received(status: Json)
  datatype Refreshed = UpdateFailed | Updated(data: Json)

  class PatDeviceCoordinator {
    var data: Option<Json>
    var startupStatusReady: bool
    var cloudPaused: bool
    var refreshActive: bool
    var refreshPush: Option<Json>
    /** What was known when the refresh began, and the pushes accepted since. */
    ghost var baseline: Option<Json>
    ghost var pushes: seq<Json>

    ghost predicate Valid()
      reads this
    {
      && (refreshActive ==> data == ApplyAll(baseline, pushes) && refreshPush == Combined(pushes))
      && (!refreshActive ==> refreshPush == None)
      && (forall i :: 0 <= i < |pushes| ==> IsStatus(pushes[i]))
    }

    constructor ()
      ensures Valid() && data == None && !refreshActive && !cloudPaused && !startupStatusReady
    {
      data, startupStatusReady, cloudPaused, refreshActive, refreshPush := None, false, false, false, None;
      baseline, pushes := None, [];
    }

    /** A push report.  `gate` is the API's own gate, when it has one, saying whether it is closed. */
    method HandleMqttStatus(report: Json, gate: Option<bool>)
      requires Valid()
      modifies this
      ensures Valid() && refreshActive == old(refreshActive) && startupStatusReady == old(startupStatusReady)
      ensures baseline == old(baseline)
      ensures var blocked := if gate.Some? then gate.value else old(cloudPaused);
              if Truthy(report) && !blocked && (report.Dict? || report.List?)
              then data == Some(Apply(old(data), report)) && !cloudPaused && (refreshActive ==> pushes == old(pushes) + [report])
              else data == old(data) && cloudPaused == old(cloudPaused) && pushes == old(pushes)
    {
      if !Truthy(report) || (if gate.Some? then gate.value else cloudPaused) {
        return;
      }
      if !IsStatus(report) {
        return;
      }
      cloudPaused := false;
      if refreshActive {
        if report.Dict? && refreshPush.Some? && refreshPush.value.Dict? {
          var pushed := DeepMergeInto(refreshPush.value.fields, report);
          refreshPush := Some(Dict(pushed));
        } else {
          refreshPush := Some(report);
        }
        assert (pushes + [report])[..|pushes|] == pushes;
        pushes := pushes + [report];
      }
      if report.List? {
        data := Some(report);
        return;
      }
      var base := if data.Some? && data.value.Dict? then data.value.fields else map[];
      var merged := DeepMergeInto(base, report);
      data := Some(Dict(merged));
    }

    method BeginRefresh()
      requires Valid() && !refreshActive
      modifies this
      ensures Valid() && refreshActive && data == old(data) && cloudPaused == old(cloudPaused)
      ensures startupStatusReady == old(startupStatusReady)
      ensures baseline == old(data) && pushes == []
    {
      refreshActive, refreshPush := true, None;
      baseline, pushes := data, [];
    }

    /** The request ends; what it returns becomes the known status.  A failed read keeps exactly what
        the pushes said, and fails when there were none. */
    method FinishRefresh(reply: Reply) returns (r: Refreshed)
      requires Valid() && refreshActive
      modifies this
      ensures Valid() && !refreshActive && baseline == old(baseline) && pushes == old(pushes)
      ensures reply.RequestFailed? || reply.status.Scalar? ==>
        if pushes == [] then r == UpdateFailed else ApplyAll(baseline, pushes).Some? && r == Updated(ApplyAll(baseline, pushes).value)
      ensures reply.Received? && !reply.status.Scalar? ==> r == Updated(WithReply(ApplyAll(baseline, pushes), reply.status, pushes))
      ensures data == if r.Updated? then Some(r.data) else old(data)
      ensures startupStatusReady == (old(startupStatusReady) || (reply.Received? && !reply.status.Scalar? && Truthy(reply.status)))
      ensures reply.Received? && !reply.status.Scalar? ==> !cloudPaused
    {
      if reply.RequestFailed? || !IsStatus(reply.status) {
        if refreshPush.Some? {
          r := Updated(data.value);
        } else {
          r := UpdateFailed;
        }
        refreshActive, refreshPush := false, None;
        return;
      }
      var status := reply.status;
      cloudPaused := false;
      if Truthy(status) {
        startupStatusReady := true;
      }
      var merged := MergeReply(status);
      r, data := Updated(merged), Some(merged);
      refreshActive, refreshPush := false, None;
    }

    /** The reply onto the status, and the pushes of the refresh onto that. */
    method MergeReply(status: Json) returns (merged: Json)
      requires Valid() && refreshActive && IsStatus(status)
      ensures merged == WithReply(ApplyAll(baseline, pushes), status, pushes)
    {
      merged := status;
      if status.Dict? {
        var base := if data.Some? && data.value.Dict? then data.value.fields else map[];
        var fields := DeepMergeInto(base, status);
        merged := Dict(fields);
      }
      if refreshPush.Some? {
        if merged.Dict? && refreshPush.value.Dict? {
          var fields := DeepMergeInto(merged.fields, refreshPush.value);
          merged := Dict(fields);
        } else {
          merged := data.value;
        }
      }
    }
  }

  function WithReply(data: Option<Json>, status: Json, pushes: seq<Json>): Json {
    var merged := Apply(data, status);
    if pushes == [] || data == None then merged
    else if merged.Dict? && Combined(pushes).value.Dict? then Merge(merged, Combined(pushes).value)
    else data.value
  }

  // ---- What a refresh means ---------------------------------------------------------------------

  /** One document follows the device's schema: an object of that shape, or, for the devices that
      report zones, a list. */
  predicate Follows(j: Json, shape: Shape) {
    Conforms(j, shape) && IsStatus(j)
  }

  predicate AllFollow(reports: seq<Json>, shape: Shape) {
    forall i :: 0 <= i < |reports| ==> Follows(reports[i], shape)
  }

  lemma {:induction false} CombinedFollows(pushes: seq<Json>, shape: Shape)
    requires AllFollow(pushes, shape) && pushes != []
    ensures Follows(Combined(pushes).value, shape)
  {
    var before := pushes[..|pushes| - 1];
    if before != [] && shape.DictShape? {
      CombinedFollows(before, shape);
      MergeConforms(Combined(before).value, pushes[|pushes| - 1], shape);
    }
  }

  /** Applying deltas one by one is applying their combination. */
  lemma {:induction false} ApplyAllIsCombined(data: Option<Json>, pushes: seq<Json>, shape: Shape)
    requires AllFollow(pushes, shape) && pushes != []
    requires data.Some? ==> Follows(data.value, shape)
    ensures ApplyAll(data, pushes) == Some(Apply(data, Combined(pushes).value))
  {
    var n := |pushes| - 1;
    if n > 0 {
      ApplyAllIsCombined(data, pushes[..n], shape);
      CombinedFollows(pushes[..n], shape);
      if shape.DictShape? {
        var base := if data.Some? then data.value else Dict(map[]);
        MergeAssociates(base, Combined(pushes[..n]).value, pushes[n], shape);
      }
    }
  }
}
