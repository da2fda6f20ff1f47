/** What one identity resolution says about each device, in terms of what was stored and of the listed
    records (device_identity.py lines 50 to 121). */
module IdentityMeaning {
  import opened DeviceIdentity
  import opened WideqCoordinator

  predicate IsStored(pr: Problem, p: PatId) {
    p in pr.pats && p in pr.stored && pr.stored[p] != ""
  }

  /** Another known device is stored for the same WideQ device. */
  predicate HasRival(pr: Problem, p: PatId)
    requires IsStored(pr, p)
  {
    exists q :: q in pr.pats && q != p && IsStored(pr, q) && pr.stored[q] == pr.stored[p]
  }

  function NameOf(pr: Problem, p: PatId): (string, string)
    requires p in pr.pats
  {
    (pr.fold(pr.pats[p].alias), pr.fold(pr.pats[p].model))
  }

  /** The record has the name, and no known device is stored for it. */
  predicate IsSpare(pr: Problem, i: int, name: (string, string)) {
    && 0 <= i < |pr.wideq| && (pr.fold(pr.wideq[i].alias), pr.fold(pr.wideq[i].model)) == name
    && forall q :: q in pr.pats && IsStored(pr, q) ==> pr.stored[q] != pr.wideq[i].id
  }

  predicate IsOnlySpare(pr: Problem, i: int, name: (string, string)) {
    IsSpare(pr, i, name) && forall j :: 0 <= j < |pr.wideq| && IsSpare(pr, j, name) ==> j == i
  }

  /** No other device without a stored pair has this name. */
  predicate IsAlone(pr: Problem, p: PatId)
    requires p in pr.pats
  {
    forall q :: q in pr.pats && !IsStored(pr, q) && NameOf(pr, q) == NameOf(pr, p) ==> q == p
  }

  /** The last record listed for this id. */
  predicate IsLastOf(records: seq<WideqDevice>, i: int, w: WideqId) {
    0 <= i < |records| && records[i].id == w && forall j :: i < j < |records| ==> records[j].id != w
  }

  // ---- Devices with a stored pair ---------------------------------------------------------------

  /** A device with a stored pair keeps it, or is blocked if it has a rival. */
  lemma StoredIff(pr: Problem, p: PatId)
    requires IsStored(pr, p)
    ensures var r := pr.Resolution();
      && (p in r.mapping <==> !HasRival(pr, p)) && (p in r.mapping ==> r.mapping[p] == pr.stored[p])
      && (p in r.ambiguous <==> HasRival(pr, p)) && p !in r.unmatched
  {
    assert p in pr.Claimants(pr.stored[p]);
    if pr.Claimants(pr.stored[p]) == {p} {
      forall q | q in pr.pats && q != p && IsStored(pr, q) ensures pr.stored[q] != pr.stored[p] {
        assert q !in pr.Claimants(pr.stored[p]);
      }
    } else {
      var rivals := pr.Claimants(pr.stored[p]) - {p};
      assert pr.Claimants(pr.stored[p]) == rivals + {p};
      var q :| q in rivals;
      assert q in pr.pats;
    }
  }

  // ---- Devices without one ----------------------------------------------------------------------

  lemma ClaimedIff(pr: Problem, w: WideqId)
    ensures pr.Claimed(w) <==> exists q :: q in pr.pats && IsStored(pr, q) && pr.stored[q] == w
  {
    if pr.Claimed(w) {
      var q :| q in pr.Claimants(w);
      assert q in pr.pats;
    }
    if q :| q in pr.pats && IsStored(pr, q) && pr.stored[q] == w {
      assert q in pr.Claimants(w);
    }
  }

  lemma SpareIff(pr: Problem, i: int, name: (string, string))
    requires 0 <= i < |pr.wideq|
    ensures IsSpare(pr, i, name) <==> !pr.Claimed(pr.wideq[i].id) && pr.WideqSignature(pr.wideq[i]) == name
  {
    ClaimedIff(pr, pr.wideq[i].id);
  }

  lemma {:induction false} NoSpare(pr: Problem, n: nat, name: (string, string))
    requires n <= |pr.wideq|
    ensures pr.FreeIds(pr.wideq[..n], name) == [] <==> forall i :: 0 <= i < n ==> !IsSpare(pr, i, name)
  {
    if n > 0 {
      assert pr.wideq[..n][..n - 1] == pr.wideq[..n - 1];
      NoSpare(pr, n - 1, name);
      SpareIff(pr, n - 1, name);
    }
  }

  lemma {:induction false} OneSpare(pr: Problem, n: nat, name: (string, string), i: int)
    requires n <= |pr.wideq| && i < n && IsSpare(pr, i, name) && forall j :: 0 <= j < n && IsSpare(pr, j, name) ==> j == i
    ensures pr.FreeIds(pr.wideq[..n], name) == [pr.wideq[i].id]
  {
    assert pr.wideq[..n][..n - 1] == pr.wideq[..n - 1];
    SpareIff(pr, n - 1, name);
    if i < n - 1 {
      OneSpare(pr, n - 1, name, i);
    } else {
      NoSpare(pr, n - 1, name);
    }
  }

  lemma {:induction false} SpareIndex(pr: Problem, n: nat, name: (string, string)) returns (i: int)
    requires n <= |pr.wideq| && |pr.FreeIds(pr.wideq[..n], name)| == 1
    ensures i < n && IsSpare(pr, i, name) && forall j :: 0 <= j < n && IsSpare(pr, j, name) ==> j == i
  {
    assert n > 0;
    assert pr.wideq[..n][..n - 1] == pr.wideq[..n - 1];
    SpareIff(pr, n - 1, name);
    if IsSpare(pr, n - 1, name) {
      i := n - 1;
      NoSpare(pr, n - 1, name);
    } else {
      i := SpareIndex(pr, n - 1, name);
    }
  }

  lemma AloneIff(pr: Problem, p: PatId)
    requires p in pr.pats && !IsStored(pr, p)
    ensures |pr.FreePats(NameOf(pr, p))| == 1 <==> IsAlone(pr, p)
  {
    var free := pr.FreePats(NameOf(pr, p));
    assert p in free;
    if |free| == 1 {
      Singleton(free, p);
      forall q | q in pr.pats && !IsStored(pr, q) && NameOf(pr, q) == NameOf(pr, p) ensures q == p {
        assert q in free;
      }
    }
    if IsAlone(pr, p) {
      assert free == {p};
    }
  }

  /** A device without one is paired if and only if it is alone with one spare record of its name, and
      then with that one; it is blocked if there is a spare record that may be another's or is not the
      only one, and unmatched if there is none. */
  lemma UnstoredIff(pr: Problem, p: PatId)
    requires p in pr.pats && !IsStored(pr, p)
    ensures var r, name := pr.Resolution(), NameOf(pr, p);
      && (p in r.mapping <==> IsAlone(pr, p) && exists i :: IsOnlySpare(pr, i, name))
      && (p in r.mapping ==> exists i :: IsOnlySpare(pr, i, name) && r.mapping[p] == pr.wideq[i].id)
      && (p in r.unmatched <==> forall i :: !IsSpare(pr, i, name))
      && (p in r.ambiguous <==> (exists i :: IsSpare(pr, i, name)) && p !in r.mapping)
  {
    var name := NameOf(pr, p);
    assert pr.wideq[..|pr.wideq|] == pr.wideq;
    AloneIff(pr, p);
    NoSpare(pr, |pr.wideq|, name);
    if i :| IsOnlySpare(pr, i, name) {
      OneSpare(pr, |pr.wideq|, name, i);
    }
    if |pr.FreeWideq(name)| == 1 {
      var i := SpareIndex(pr, |pr.wideq|, name);
      assert IsOnlySpare(pr, i, name);
      OneSpare(pr, |pr.wideq|, name, i);
    }
  }

  /** So a poll keeps the pairs of the coordinator, pairs each other device that is alone with a single
      spare record of its name, and blocks or leaves open the rest. */
  lemma PollDecides(fold: string -> string, s: Pairing, records: seq<WideqDevice>, p: PatId)
    requires p in s.pats
    ensures var pr, after := Problem(fold, s.pats, records, s.mapping), Step(fold, s, Polled(records));
      && after.pats == s.pats
      && (p in after.mapping <==>
            if IsStored(pr, p) then !HasRival(pr, p) else IsAlone(pr, p) && exists i :: IsOnlySpare(pr, i, NameOf(pr, p)))
      && (p in after.unmatched <==> !IsStored(pr, p) && forall i :: !IsSpare(pr, i, NameOf(pr, p)))
      && (p in after.ambiguous <==> p !in after.mapping && p !in after.unmatched)
  {
    var pr := Problem(fold, s.pats, records, s.mapping);
    if IsStored(pr, p) {
      StoredIff(pr, p);
    } else {
      UnstoredIff(pr, p);
    }
  }

  // ---- Snapshots --------------------------------------------------------------------------------

  lemma {:induction false} LastSnapshotIff(records: seq<WideqDevice>, w: WideqId)
    ensures forall i :: IsLastOf(records, i, w) ==> LastSnapshot(records, w) == records[i].snapshot
    ensures (forall i :: 0 <= i < |records| ==> records[i].id != w) ==> LastSnapshot(records, w) == map[]
    ensures LastSnapshot(records, w) != map[] ==> exists i :: IsLastOf(records, i, w)
  {
    if records != [] {
      var n := |records| - 1;
      LastSnapshotIff(records[..n], w);
      if records[n].id == w {
        assert IsLastOf(records, n, w);
      } else {
        forall i ensures IsLastOf(records, i, w) <==> IsLastOf(records[..n], i, w) {}
      }
    }
  }

  /** A paired device gets the snapshot of the last record with its id, unless that is empty. */
  lemma SnapshotIff(pr: Problem, p: PatId)
    ensures var r := pr.Resolution();
      && (p in r.snapshots <==>
            p in r.mapping && exists i :: IsLastOf(pr.wideq, i, r.mapping[p]) && pr.wideq[i].snapshot != map[])
      && (p in r.snapshots ==> exists i :: IsLastOf(pr.wideq, i, r.mapping[p]) && r.snapshots[p] == pr.wideq[i].snapshot)
  {
    if p in pr.Mapping() {
      LastSnapshotIff(pr.wideq, pr.Mapping()[p]);
    }
  }
}
