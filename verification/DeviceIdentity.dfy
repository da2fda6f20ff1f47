/** Pairing ThinQ Connect (PAT) devices with WideQ records (device_identity.py).

    `Resolution` says, pair by pair, which result is right; `ResolveWideqDevices` is the source's
    sequence of dictionary-filling loops.  Python iterates a dictionary in insertion order; here each
    such loop takes the entries in an arbitrary order, so that meeting `Resolution` also shows that
    the order never matters. */
module DeviceIdentity {

  type PatId = string
  type WideqId = string
  /** Alias and model after stripping and case folding. */
  type Signature = (string, string)
  type Snapshot = map<string, string>

  datatype PatDevice = PatDevice(alias: string, model: string)
  datatype WideqDevice = WideqDevice(id: WideqId, alias: string, model: string, snapshot: Snapshot)

  datatype IdentityResolution = IdentityResolution(
    snapshots: map<PatId, Snapshot>,
    mapping: map<PatId, WideqId>,
    ambiguous: set<PatId>,
    unmatched: set<PatId>)

  /** One resolution problem.  `fold` is Python's `strip().casefold()`, whose details do not matter. */
  datatype Problem = Problem(
    fold: string -> string,
    pats: map<PatId, PatDevice>,
    wideq: seq<WideqDevice>,
    stored: map<PatId, WideqId>)
  {
    function PatSignature(p: PatId): Signature
      requires p in pats
    {
      (fold(pats[p].alias), fold(pats[p].model))
    }

    function WideqSignature(d: WideqDevice): Signature {
      (fold(d.alias), fold(d.model))
    }

    /** The stored pairs that are looked at: known PAT device, non-empty WideQ id. */
    predicate Claims(p: PatId, w: WideqId) {
      p in pats && p in stored && stored[p] == w && w != ""
    }

    predicate HasClaim(p: PatId) {
      p in pats && p in stored && stored[p] != ""
    }

    function Claimants(w: WideqId): set<PatId> {
      set p | p in stored && Claims(p, w)
    }

    predicate Claimed(w: WideqId) {
      Claimants(w) != {}
    }

    /** The PAT devices with this signature that no stored pair speaks for. */
    function FreePats(s: Signature): set<PatId> {
      set p | p in pats && !HasClaim(p) && PatSignature(p) == s
    }

    /** The ids of the records with this signature whose id no stored pair claims, in record order. */
    function FreeWideq(s: Signature): seq<WideqId> {
      FreeIds(wideq, s)
    }

    function FreeIds(records: seq<WideqDevice>, s: Signature): seq<WideqId> {
      if records == [] then []
      else
        var d := records[|records| - 1];
        FreeIds(records[..|records| - 1], s) +
        (if !Claimed(d.id) && WideqSignature(d) == s then [d.id] else [])
    }

    predicate Restored(p: PatId) {
      HasClaim(p) && Claimants(stored[p]) == {p}
    }

    predicate Contested(p: PatId) {
      HasClaim(p) && Claimants(stored[p]) != {p}
    }

    /** The signature is unique among unclaimed devices on both sides. */
    predicate UniqueMatch(s: Signature) {
      |FreePats(s)| == 1 && |FreeWideq(s)| == 1
    }

    predicate Matched(p: PatId) {
      p in pats && !HasClaim(p) && UniqueMatch(PatSignature(p))
    }

    predicate Mapped(p: PatId) {
      Restored(p) || Matched(p)
    }

    function PartnerOf(p: PatId): WideqId
      requires Mapped(p)
    {
      if Restored(p) then stored[p] else FreeWideq(PatSignature(p))[0]
    }

    predicate Ambiguous(p: PatId) {
      || Contested(p)
      || (p in pats && !HasClaim(p) && |FreeWideq(PatSignature(p))| > 0 && !UniqueMatch(PatSignature(p)))
    }

    function Mapping(): map<PatId, WideqId> {
      map p | p in pats && Mapped(p) :: PartnerOf(p)
    }

    function AmbiguousPats(): set<PatId> {
      set p | p in pats && Ambiguous(p)
    }

    function Resolution(): IdentityResolution {
      IdentityResolution(
        SnapshotsFor(wideq, Mapping()),
        Mapping(),
        AmbiguousPats(),
        set p | p in pats && !Mapped(p) && !Ambiguous(p))
    }
  }

  /** The snapshot of the last record with this id. */
  function LastSnapshot(records: seq<WideqDevice>, w: WideqId): Snapshot {
    if records == [] then map[]
    else
      var d := records[|records| - 1];
      if d.id == w then d.snapshot else LastSnapshot(records[..|records| - 1], w)
  }

  /** The non-empty snapshots of the mapped devices that the reply lists. */
  function SnapshotsFor(records: seq<WideqDevice>, mapping: map<PatId, WideqId>): map<PatId, Snapshot> {
    map p | p in mapping && LastSnapshot(records, mapping[p]) != map[] :: LastSnapshot(records, mapping[p])
  }

  predicate Injective(m: map<PatId, WideqId>) {
    forall p, q :: p in m && q in m && m[p] == m[q] ==> p == q
  }

  predicate DistinctIds(wideq: seq<WideqDevice>) {
    forall i, j :: 0 <= i < j < |wideq| ==> wideq[i].id != wideq[j].id
  }

  // ---- The source's loops -----------------------------------------------------------------------

  method ResolveWideqDevices(pr: Problem) returns (r: IdentityResolution)
    ensures r == pr.Resolution()
  {
    var persistedByWideq := GroupClaims(pr);
    var mapping, ambiguous, usedWideq := RestoreClaims(pr, persistedByWideq);
    var patBySignature := GroupPats(pr, mapping, ambiguous);
    var wideqBySignature := GroupWideq(pr, usedWideq);
    mapping, ambiguous := MatchSignatures(pr, mapping, ambiguous, patBySignature, wideqBySignature);
    var snapshots := AttachSnapshots(pr, mapping);
    r := IdentityResolution(snapshots, mapping, ambiguous, pr.pats.Keys - mapping.Keys - ambiguous);
    UnmatchedIsTheRest(pr);
  }

  lemma UnmatchedIsTheRest(pr: Problem)
    ensures pr.pats.Keys - pr.Mapping().Keys - pr.AmbiguousPats() == pr.Resolution().unmatched
  {
  }

  method GroupClaims(pr: Problem) returns (persistedByWideq: map<WideqId, set<PatId>>)
    ensures forall w :: w in persistedByWideq <==> pr.Claimed(w)
    ensures forall w :: w in persistedByWideq ==> persistedByWideq[w] == pr.Claimants(w)
  {
    persistedByWideq := map[];
    var todo := pr.stored.Keys;
    while todo != {}
      invariant todo <= pr.stored.Keys
      invariant forall w :: w in persistedByWideq ==> persistedByWideq[w] == pr.Claimants(w) - todo && persistedByWideq[w] != {}
      invariant forall w :: w !in persistedByWideq ==> pr.Claimants(w) - todo == {}
      decreases todo
    {
      var p :| p in todo;
      ghost var before := todo;
      todo := todo - {p};
      var w := pr.stored[p];
      forall w' | !pr.Claims(p, w') ensures pr.Claimants(w') - todo == pr.Claimants(w') - before {}
      if p in pr.pats && w != "" {
        assert pr.Claimants(w) - todo == pr.Claimants(w) - before + {p};
        var group := if w in persistedByWideq then persistedByWideq[w] else {};
        persistedByWideq := persistedByWideq[w := group + {p}];
      }
    }
  }

  /** One-to-one stored pairs are restored; every claimant of a contested WideQ id is blocked. */
  method RestoreClaims(pr: Problem, persistedByWideq: map<WideqId, set<PatId>>)
    returns (mapping: map<PatId, WideqId>, ambiguous: set<PatId>, usedWideq: set<WideqId>)
    requires forall w :: w in persistedByWideq <==> pr.Claimed(w)
    requires forall w :: w in persistedByWideq ==> persistedByWideq[w] == pr.Claimants(w)
    ensures forall p :: p in mapping <==> pr.Restored(p)
    ensures forall p :: p in mapping ==> p in pr.stored && mapping[p] == pr.stored[p]
    ensures forall p :: p in ambiguous <==> pr.Contested(p)
    ensures forall w :: w in usedWideq <==> pr.Claimed(w)
  {
    mapping, ambiguous, usedWideq := map[], {}, {};
    var todo := persistedByWideq.Keys;
    while todo != {}
      invariant todo <= persistedByWideq.Keys
      invariant usedWideq == persistedByWideq.Keys - todo
      invariant forall p :: p in mapping <==> pr.Restored(p) && pr.stored[p] in usedWideq
      invariant forall p :: p in mapping ==> p in pr.stored && mapping[p] == pr.stored[p]
      invariant forall p :: p in ambiguous <==> pr.Contested(p) && pr.stored[p] in usedWideq
      decreases todo
    {
      var w :| w in todo;
      todo := todo - {w};
      usedWideq := usedWideq + {w};
      var group := persistedByWideq[w];
      var p :| p in group;
      assert pr.Claims(p, w);
      forall q | pr.HasClaim(q) && pr.stored[q] == w ensures q in group { assert pr.Claims(q, w); }
      if group != {p} {
        ambiguous := ambiguous + group;
      } else {
        mapping := mapping[p := w];
      }
    }
    forall p | pr.HasClaim(p) ensures pr.stored[p] in usedWideq {
      assert p in pr.Claimants(pr.stored[p]);
    }
  }

  method GroupPats(pr: Problem, mapping: map<PatId, WideqId>, ambiguous: set<PatId>)
    returns (patBySignature: map<Signature, set<PatId>>)
    requires forall p :: p in mapping || p in ambiguous <==> pr.HasClaim(p)
    ensures forall s :: s in patBySignature ==> patBySignature[s] == pr.FreePats(s)
    ensures forall s :: s in patBySignature <==> pr.FreePats(s) != {}
  {
    patBySignature := map[];
    var todo := pr.pats.Keys;
    while todo != {}
      invariant todo <= pr.pats.Keys
      invariant forall s :: s in patBySignature ==> patBySignature[s] == pr.FreePats(s) - todo && patBySignature[s] != {}
      invariant forall s :: s !in patBySignature ==> pr.FreePats(s) - todo == {}
      decreases todo
    {
      var p :| p in todo;
      ghost var before := todo;
      todo := todo - {p};
      var s := pr.PatSignature(p);
      forall s' | s' != s || pr.HasClaim(p) ensures pr.FreePats(s') - todo == pr.FreePats(s') - before {}
      if p !in mapping && p !in ambiguous {
        assert pr.FreePats(s) - todo == pr.FreePats(s) - before + {p};
        var group := if s in patBySignature then patBySignature[s] else {};
        patBySignature := patBySignature[s := group + {p}];
      }
    }
  }

  /** The group of every signature holds its free ids among the records looked at so far. */
  ghost predicate Grouped(pr: Problem, groups: map<Signature, seq<WideqId>>, ds: seq<WideqDevice>) {
    forall s :: pr.FreeIds(ds, s) == if s in groups then groups[s] else []
  }

  function WithRecord(pr: Problem, groups: map<Signature, seq<WideqId>>, d: WideqDevice): map<Signature, seq<WideqId>> {
    var s := pr.WideqSignature(d);
    if pr.Claimed(d.id) then groups else groups[s := (if s in groups then groups[s] else []) + [d.id]]
  }

  lemma GroupedGrows(pr: Problem, groups: map<Signature, seq<WideqId>>, ds: seq<WideqDevice>, d: WideqDevice)
    requires Grouped(pr, groups, ds)
    ensures Grouped(pr, WithRecord(pr, groups, d), ds + [d])
  {
    assert (ds + [d])[..|ds|] == ds;
  }

  method GroupWideq(pr: Problem, usedWideq: set<WideqId>) returns (wideqBySignature: map<Signature, seq<WideqId>>)
    requires forall w :: w in usedWideq <==> pr.Claimed(w)
    ensures forall s :: s in wideqBySignature ==> wideqBySignature[s] == pr.FreeWideq(s)
    ensures forall s :: s !in wideqBySignature ==> pr.FreeWideq(s) == []
  {
    wideqBySignature := map[];
    for i := 0 to |pr.wideq|
      invariant Grouped(pr, wideqBySignature, pr.wideq[..i])
    {
      var d := pr.wideq[i];
      GroupedGrows(pr, wideqBySignature, pr.wideq[..i], d);
      assert pr.wideq[..i + 1] == pr.wideq[..i] + [d];
      if d.id !in usedWideq {
        var s := pr.WideqSignature(d);
        var ids := if s in wideqBySignature then wideqBySignature[s] else [];
        wideqBySignature := wideqBySignature[s := ids + [d.id]];
      }
    }
    assert pr.wideq[..|pr.wideq|] == pr.wideq;
  }

  /** Pair what is unique on both sides; block every PAT device of a signature that is not. */
  method MatchSignatures(pr: Problem, restored: map<PatId, WideqId>, contested: set<PatId>,
                         patBySignature: map<Signature, set<PatId>>, wideqBySignature: map<Signature, seq<WideqId>>)
    returns (mapping: map<PatId, WideqId>, ambiguous: set<PatId>)
    requires forall p :: p in restored <==> pr.Restored(p)
    requires forall p :: p in restored ==> p in pr.stored && restored[p] == pr.stored[p]
    requires forall p :: p in contested <==> pr.Contested(p)
    requires forall s :: s in patBySignature ==> patBySignature[s] == pr.FreePats(s)
    requires forall s :: s in patBySignature <==> pr.FreePats(s) != {}
    requires forall s :: s in wideqBySignature ==> wideqBySignature[s] == pr.FreeWideq(s)
    requires forall s :: s !in wideqBySignature ==> pr.FreeWideq(s) == []
    ensures mapping == pr.Mapping()
    ensures ambiguous == pr.AmbiguousPats()
  {
    mapping, ambiguous := restored, contested;
    MatchBounds(pr, restored, contested, patBySignature.Keys);
    var signatures := patBySignature.Keys;
    ghost var done: set<Signature> := {};
    while signatures != {}
      invariant done + signatures == patBySignature.Keys
      invariant mapping == MappingAmong(pr, done) && ambiguous == AmbiguousAmong(pr, done)
      decreases signatures
    {
      var s :| s in signatures;
      MatchOnePair(pr, done, s);
      BlockOneSignature(pr, done, s);
      var group := patBySignature[s];
      var ids := if s in wideqBySignature then wideqBySignature[s] else [];
      if |group| == 1 && |ids| == 1 {
        var p :| p in group;
        mapping := mapping[p := ids[0]];
      } else if ids != [] {
        ambiguous := ambiguous + group;
      }
      signatures, done := signatures - {s}, done + {s};
    }
  }

  /** `Mapping` and `AmbiguousPats` when only the signatures in `done` have been looked at. */
  ghost function MappingAmong(pr: Problem, done: set<Signature>): map<PatId, WideqId> {
    map p | p in pr.pats && pr.Mapped(p) && (pr.Restored(p) || pr.PatSignature(p) in done) :: pr.PartnerOf(p)
  }

  ghost function AmbiguousAmong(pr: Problem, done: set<Signature>): set<PatId> {
    set p | p in pr.pats && pr.Ambiguous(p) && (pr.Contested(p) || pr.PatSignature(p) in done)
  }

  lemma MatchOnePair(pr: Problem, done: set<Signature>, s: Signature)
    ensures pr.UniqueMatch(s) ==> forall p :: p in pr.FreePats(s) ==>
              MappingAmong(pr, done + {s}) == MappingAmong(pr, done)[p := pr.FreeWideq(s)[0]]
    ensures !pr.UniqueMatch(s) ==> MappingAmong(pr, done + {s}) == MappingAmong(pr, done)
  {
    if pr.UniqueMatch(s) {
      forall p | p in pr.FreePats(s)
        ensures MappingAmong(pr, done + {s}) == MappingAmong(pr, done)[p := pr.FreeWideq(s)[0]]
      {
        Singleton(pr.FreePats(s), p);
        forall q | q in pr.pats && pr.Matched(q) && pr.PatSignature(q) == s ensures q == p {
          assert q in pr.FreePats(s);
        }
      }
    }
  }

  lemma BlockOneSignature(pr: Problem, done: set<Signature>, s: Signature)
    ensures !pr.UniqueMatch(s) && pr.FreeWideq(s) != [] ==>
              AmbiguousAmong(pr, done + {s}) == AmbiguousAmong(pr, done) + pr.FreePats(s)
    ensures pr.UniqueMatch(s) || pr.FreeWideq(s) == [] ==> AmbiguousAmong(pr, done + {s}) == AmbiguousAmong(pr, done)
  {
  }

  lemma MatchBounds(pr: Problem, restored: map<PatId, WideqId>, contested: set<PatId>, all: set<Signature>)
    requires forall p :: p in restored <==> pr.Restored(p)
    requires forall p :: p in restored ==> p in pr.stored && restored[p] == pr.stored[p]
    requires forall p :: p in contested <==> pr.Contested(p)
    requires forall s :: pr.FreePats(s) != {} ==> s in all
    ensures restored == MappingAmong(pr, {}) && MappingAmong(pr, all) == pr.Mapping()
    ensures contested == AmbiguousAmong(pr, {}) && AmbiguousAmong(pr, all) == pr.AmbiguousPats()
  {
    forall p | p in pr.pats && !pr.HasClaim(p) ensures pr.PatSignature(p) in all {
      assert p in pr.FreePats(pr.PatSignature(p));
    }
  }

  method AttachSnapshots(pr: Problem, mapping: map<PatId, WideqId>) returns (snapshots: map<PatId, Snapshot>)
    ensures snapshots == SnapshotsFor(pr.wideq, mapping)
  {
    snapshots := map[];
    var todo := mapping.Keys;
    while todo != {}
      invariant todo <= mapping.Keys
      invariant snapshots == map p | p in mapping && p !in todo && LastSnapshot(pr.wideq, mapping[p]) != map[] :: LastSnapshot(pr.wideq, mapping[p])
      decreases todo
    {
      var p :| p in todo;
      todo := todo - {p};
      var snapshot := LastSnapshot(pr.wideq, mapping[p]);
      if snapshot != map[] {
        snapshots := snapshots[p := snapshot];
      }
    }
  }

  lemma Singleton<T>(s: set<T>, x: T)
    requires |s| == 1 && x in s
    ensures s == {x}
  {
    assert |s - {x}| == 0;
  }

  // ---- What a resolution promises ---------------------------------------------------------------

  /** Mapped, ambiguous and unmatched split the PAT devices. */
  lemma ResolutionPartitions(pr: Problem)
    ensures var r := pr.Resolution();
            && r.mapping.Keys + r.ambiguous + r.unmatched == pr.pats.Keys
            && r.mapping.Keys !! r.ambiguous !! r.unmatched
  {
    forall p | pr.Ambiguous(p) ensures !pr.Mapped(p) {}
  }

  /** Two PAT devices whose stored pairs name the same WideQ id are both blocked. */
  lemma ContestedClaimIsBlocked(pr: Problem, p: PatId, q: PatId, w: WideqId)
    requires p != q && pr.Claims(p, w) && pr.Claims(q, w)
    ensures p in pr.Resolution().ambiguous && q in pr.Resolution().ambiguous
    ensures w !in pr.Resolution().mapping.Values
  {
    assert {p, q} <= pr.Claimants(w);
    forall r | r in pr.Mapping() ensures pr.Mapping()[r] != w {
      if pr.Matched(r) { FreeIdsAreRecords(pr, pr.wideq, pr.PatSignature(r), 0); }
    }
  }

  /** An id among the free ones belongs to an unclaimed record with that signature. */
  lemma {:induction false} FreeIdsAreRecords(pr: Problem, records: seq<WideqDevice>, s: Signature, k: nat)
    ensures k < |pr.FreeIds(records, s)| ==>
              !pr.Claimed(pr.FreeIds(records, s)[k]) &&
              exists d :: d in records && d.id == pr.FreeIds(records, s)[k] && pr.WideqSignature(d) == s
  {
    if records != [] {
      FreeIdsAreRecords(pr, records[..|records| - 1], s, k);
    }
  }

  lemma {:induction false} FreeRecordIsListed(pr: Problem, records: seq<WideqDevice>, i: nat) returns (k: nat)
    requires i < |records| && !pr.Claimed(records[i].id)
    ensures var ids := pr.FreeIds(records, pr.WideqSignature(records[i]));
            k < |ids| && ids[k] == records[i].id
  {
    var n := |records| - 1;
    if i == n {
      k := |pr.FreeIds(records[..n], pr.WideqSignature(records[i]))|;
    } else {
      k := FreeRecordIsListed(pr, records[..n], i);
    }
  }

  lemma {:induction false} TwoFreeRecords(pr: Problem, records: seq<WideqDevice>, i: nat, j: nat)
    requires i < j < |records| && !pr.Claimed(records[i].id) && !pr.Claimed(records[j].id)
    requires pr.WideqSignature(records[i]) == pr.WideqSignature(records[j])
    ensures |pr.FreeIds(records, pr.WideqSignature(records[i]))| >= 2
  {
    var n := |records| - 1;
    if j == n {
      var k := FreeRecordIsListed(pr, records[..n], i);
    } else {
      TwoFreeRecords(pr, records[..n], i, j);
    }
  }

  /** A pair that no stored claim asked for joins the only unclaimed PAT device and the only
      unclaimed record with one signature. */
  lemma NeverGuesses(pr: Problem, p: PatId) returns (i: nat)
    requires p in pr.Resolution().mapping && !pr.HasClaim(p)
    ensures i < |pr.wideq| && pr.wideq[i].id == pr.Resolution().mapping[p]
    ensures pr.WideqSignature(pr.wideq[i]) == pr.PatSignature(p)
    ensures forall q :: q in pr.pats && !pr.HasClaim(q) && pr.PatSignature(q) == pr.PatSignature(p) ==> q == p
    ensures forall j :: 0 <= j < |pr.wideq| && !pr.Claimed(pr.wideq[j].id) && pr.WideqSignature(pr.wideq[j]) == pr.PatSignature(p) ==> j == i
  {
    var s := pr.PatSignature(p);
    FreeIdsAreRecords(pr, pr.wideq, s, 0);
    var d :| d in pr.wideq && d.id == pr.FreeWideq(s)[0] && pr.WideqSignature(d) == s;
    i :| 0 <= i < |pr.wideq| && pr.wideq[i] == d;
    assert p in pr.FreePats(s);
    Singleton(pr.FreePats(s), p);
    forall q | q in pr.pats && !pr.HasClaim(q) && pr.PatSignature(q) == s ensures q == p {
      assert q in pr.FreePats(s);
    }
    forall j | 0 <= j < |pr.wideq| && !pr.Claimed(pr.wideq[j].id) && pr.WideqSignature(pr.wideq[j]) == s ensures j == i {
      if j < i { TwoFreeRecords(pr, pr.wideq, j, i); }
      if i < j { TwoFreeRecords(pr, pr.wideq, i, j); }
    }
  }

  /** Two unclaimed records carry one id under two signatures that are each unique on both sides. */
  ghost predicate SplitRecord(pr: Problem) {
    exists i, j :: 0 <= i < j < |pr.wideq| && IsSplit(pr, pr.wideq[i], pr.wideq[j])
  }

  predicate IsSplit(pr: Problem, a: WideqDevice, b: WideqDevice) {
    && a.id == b.id && !pr.Claimed(a.id)
    && pr.WideqSignature(a) != pr.WideqSignature(b)
    && pr.UniqueMatch(pr.WideqSignature(a)) && pr.UniqueMatch(pr.WideqSignature(b))
  }

  /** No WideQ device is ever given to two PAT devices, except exactly when the reply lists one
      device under two unique names. */
  lemma MappingIsInjective(pr: Problem)
    ensures Injective(pr.Resolution().mapping) <==> !SplitRecord(pr)
  {
    if SplitRecord(pr) {
      var i, j :| 0 <= i < j < |pr.wideq| && IsSplit(pr, pr.wideq[i], pr.wideq[j]);
      SplitRecordIsSharedBy(pr, i, j);
    } else {
      forall p, q | p in pr.Mapping() && q in pr.Mapping() && pr.Mapping()[p] == pr.Mapping()[q] ensures p == q {
        SharedPartner(pr, p, q);
      }
    }
  }

  lemma SharedPartner(pr: Problem, p: PatId, q: PatId)
    requires p in pr.Mapping() && q in pr.Mapping() && pr.Mapping()[p] == pr.Mapping()[q]
    ensures p == q || SplitRecord(pr)
  {
    if pr.Restored(p) && pr.Restored(q) {
    } else if pr.Restored(p) {
      FreeIdsAreRecords(pr, pr.wideq, pr.PatSignature(q), 0);
    } else if pr.Restored(q) {
      FreeIdsAreRecords(pr, pr.wideq, pr.PatSignature(p), 0);
    } else {
      var i := NeverGuesses(pr, p);
      var j := NeverGuesses(pr, q);
      FreeIdsAreRecords(pr, pr.wideq, pr.PatSignature(p), 0);
      if i != j {
        assert IsSplit(pr, pr.wideq[i], pr.wideq[j]) && IsSplit(pr, pr.wideq[j], pr.wideq[i]);
      }
    }
  }

  lemma SplitRecordIsSharedBy(pr: Problem, i: nat, j: nat)
    requires i < |pr.wideq| && j < |pr.wideq| && IsSplit(pr, pr.wideq[i], pr.wideq[j])
    ensures !Injective(pr.Resolution().mapping)
  {
    var s, t := pr.WideqSignature(pr.wideq[i]), pr.WideqSignature(pr.wideq[j]);
    var p :| p in pr.FreePats(s);
    var q :| q in pr.FreePats(t);
    var k := FreeRecordIsListed(pr, pr.wideq, i);
    var l := FreeRecordIsListed(pr, pr.wideq, j);
    assert pr.Mapping()[p] == pr.wideq[i].id && pr.Mapping()[q] == pr.wideq[j].id;
  }

  lemma DistinctIdsDoNotSplit(pr: Problem)
    requires DistinctIds(pr.wideq)
    ensures Injective(pr.Resolution().mapping)
  {
    MappingIsInjective(pr);
  }

  // ---- The order of the inputs never matters ----------------------------------------------------

  lemma {:induction false} FreeIdsCount(pr: Problem, records: seq<WideqDevice>, s: Signature, listed: seq<WideqDevice>)
    requires listed == FreeRecords(pr, records, s)
    ensures |pr.FreeIds(records, s)| == |listed|
    ensures forall k :: 0 <= k < |listed| ==> pr.FreeIds(records, s)[k] == listed[k].id
  {
    if records != [] {
      FreeIdsCount(pr, records[..|records| - 1], s, FreeRecords(pr, records[..|records| - 1], s));
    }
  }

  function FreeRecords(pr: Problem, records: seq<WideqDevice>, s: Signature): seq<WideqDevice> {
    if records == [] then []
    else
      var d := records[|records| - 1];
      FreeRecords(pr, records[..|records| - 1], s) +
      (if !pr.Claimed(d.id) && pr.WideqSignature(d) == s then [d] else [])
  }

  lemma {:induction false} FreeRecordsMultiplicity(pr: Problem, records: seq<WideqDevice>, s: Signature, d: WideqDevice)
    ensures multiset(FreeRecords(pr, records, s))[d] ==
              if !pr.Claimed(d.id) && pr.WideqSignature(d) == s then multiset(records)[d] else 0
  {
    if records != [] {
      var n := |records| - 1;
      FreeRecordsMultiplicity(pr, records[..n], s, d);
      assert records == records[..n] + [records[n]];
    }
  }

  lemma {:induction false} LastSnapshotOf(records: seq<WideqDevice>, i: nat)
    requires DistinctIds(records) && i < |records|
    ensures LastSnapshot(records, records[i].id) == records[i].snapshot
  {
    var n := |records| - 1;
    if i < n {
      LastSnapshotOf(records[..n], i);
    }
  }

  lemma {:induction false} NoSnapshotOf(records: seq<WideqDevice>, w: WideqId)
    requires forall i :: 0 <= i < |records| ==> records[i].id != w
    ensures LastSnapshot(records, w) == map[]
  {
    if records != [] {
      NoSnapshotOf(records[..|records| - 1], w);
    }
  }

  lemma {:induction false} ClaimsIgnoreTheReply(pr: Problem, other: seq<WideqDevice>, records: seq<WideqDevice>, s: Signature)
    ensures pr.(wideq := other).FreeIds(records, s) == pr.FreeIds(records, s)
    ensures pr.(wideq := other).FreePats(s) == pr.FreePats(s)
  {
    if records != [] {
      var d := records[|records| - 1];
      ClaimsIgnoreTheReply(pr, other, records[..|records| - 1], s);
      assert pr.(wideq := other).Claimants(d.id) == pr.Claimants(d.id);
    }
  }

  lemma {:induction false} SameFreeRecords(pr: Problem, other: seq<WideqDevice>, s: Signature)
    requires multiset(pr.wideq) == multiset(other)
    ensures multiset(FreeRecords(pr, pr.wideq, s)) == multiset(FreeRecords(pr, other, s))
  {
    forall d ensures multiset(FreeRecords(pr, pr.wideq, s))[d] == multiset(FreeRecords(pr, other, s))[d] {
      FreeRecordsMultiplicity(pr, pr.wideq, s, d);
      FreeRecordsMultiplicity(pr, other, s, d);
    }
  }

  lemma SameMultisetSize<T>(a: seq<T>, b: seq<T>)
    requires multiset(a) == multiset(b)
    ensures |a| == |b| && (|a| == 1 ==> a == b)
  {
    assert |multiset(a)| == |a| && |multiset(b)| == |b|;
    if |a| == 1 {
      assert b[0] in multiset(a);
    }
  }

  lemma SameFreeWideq(pr: Problem, other: seq<WideqDevice>, s: Signature)
    requires multiset(pr.wideq) == multiset(other)
    ensures var there := pr.(wideq := other).FreeWideq(s);
            |there| == |pr.FreeWideq(s)| && (|there| == 1 ==> there == pr.FreeWideq(s))
  {
    SameFreeRecords(pr, other, s);
    SameMultisetSize(FreeRecords(pr, pr.wideq, s), FreeRecords(pr, other, s));
    ClaimsIgnoreTheReply(pr, other, other, s);
    FreeIdsCount(pr, pr.wideq, s, FreeRecords(pr, pr.wideq, s));
    FreeIdsCount(pr, other, s, FreeRecords(pr, other, s));
  }

  lemma SameLastSnapshot(pr: Problem, other: seq<WideqDevice>, w: WideqId)
    requires multiset(pr.wideq) == multiset(other) && DistinctIds(pr.wideq) && DistinctIds(other)
    ensures LastSnapshot(pr.wideq, w) == LastSnapshot(other, w)
  {
    if i :| 0 <= i < |pr.wideq| && pr.wideq[i].id == w {
      LastSnapshotOf(pr.wideq, i);
      assert pr.wideq[i] in multiset(other);
      var j :| 0 <= j < |other| && other[j] == pr.wideq[i];
      LastSnapshotOf(other, j);
    } else {
      NoSnapshotOf(pr.wideq, w);
      forall j | 0 <= j < |other| ensures other[j].id != w {
        assert other[j] in multiset(pr.wideq);
      }
      NoSnapshotOf(other, w);
    }
  }

  lemma SamePairs(pr: Problem, other: seq<WideqDevice>)
    requires multiset(pr.wideq) == multiset(other)
    ensures pr.(wideq := other).Mapping() == pr.Mapping()
    ensures pr.(wideq := other).AmbiguousPats() == pr.AmbiguousPats()
  {
    var pr' := pr.(wideq := other);
    forall p | p in pr.pats
      ensures pr'.Mapped(p) == pr.Mapped(p) && pr'.Ambiguous(p) == pr.Ambiguous(p)
      ensures pr.Mapped(p) ==> pr'.PartnerOf(p) == pr.PartnerOf(p)
    {
      SamePair(pr, other, p);
    }
  }

  lemma SamePair(pr: Problem, other: seq<WideqDevice>, p: PatId)
    requires multiset(pr.wideq) == multiset(other) && p in pr.pats
    ensures pr.(wideq := other).Mapped(p) == pr.Mapped(p)
    ensures pr.(wideq := other).Ambiguous(p) == pr.Ambiguous(p)
    ensures pr.Mapped(p) ==> pr.(wideq := other).PartnerOf(p) == pr.PartnerOf(p)
  {
    var s := pr.PatSignature(p);
    SameFreeWideq(pr, other, s);
    ClaimsIgnoreTheReply(pr, other, [], s);
    if p in pr.stored {
      assert pr.(wideq := other).Claimants(pr.stored[p]) == pr.Claimants(pr.stored[p]);
    }
  }

  /** Listing the records in another order changes nothing but, when an id is repeated, whose
      snapshot is kept. */
  lemma OrderDoesNotMatter(pr: Problem, other: seq<WideqDevice>)
    requires multiset(pr.wideq) == multiset(other)
    ensures var here, there := pr.Resolution(), pr.(wideq := other).Resolution();
            && there.mapping == here.mapping && there.ambiguous == here.ambiguous && there.unmatched == here.unmatched
            && (DistinctIds(pr.wideq) && DistinctIds(other) ==> there == here)
  {
    SamePairs(pr, other);
    UnmatchedIsTheRest(pr);
    UnmatchedIsTheRest(pr.(wideq := other));
    if DistinctIds(pr.wideq) && DistinctIds(other) {
      SameSnapshots(pr, other, pr.Mapping());
    }
  }

  lemma SameSnapshots(pr: Problem, other: seq<WideqDevice>, mapping: map<PatId, WideqId>)
    requires multiset(pr.wideq) == multiset(other) && DistinctIds(pr.wideq) && DistinctIds(other)
    ensures SnapshotsFor(other, mapping) == SnapshotsFor(pr.wideq, mapping)
  {
    forall p | p in mapping ensures LastSnapshot(other, mapping[p]) == LastSnapshot(pr.wideq, mapping[p]) {
      SameLastSnapshot(pr, other, mapping[p]);
    }
  }
}
