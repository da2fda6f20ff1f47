/** The life of the PAT-to-WideQ pairing between one start and the next (coordinator_wideq.py). */
module WideqCoordinator {
  import opened DeviceIdentity

  datatype Pairing = Pairing(pats: map<PatId, PatDevice>, mapping: map<PatId, WideqId>,
                             ambiguous: set<PatId>, unmatched: set<PatId>)

  /** What can happen to the pairing after it was restored. */
  datatype Event = PatDevicesAdded(devices: map<PatId, PatDevice>) | Polled(records: seq<WideqDevice>)

  function Usable(stored: map<PatId, WideqId>, pats: map<PatId, PatDevice>): map<PatId, WideqId> {
    map p | p in stored && p in pats && stored[p] != "" :: stored[p]
  }

  predicate Shared(m: map<PatId, WideqId>, p: PatId) {
    exists q :: q in m && q != p && p in m && m[q] == m[p]
  }

  function SharedIds(m: map<PatId, WideqId>): set<WideqId> {
    set p | p in m && Shared(m, p) :: m[p]
  }

  lemma SharedIdsAreShared(m: map<PatId, WideqId>)
    ensures (map p | p in m && m[p] !in SharedIds(m) :: m[p]) == (map p | p in m && !Shared(m, p) :: m[p])
    ensures (set p | p in m && m[p] in SharedIds(m)) == (set p | p in m && Shared(m, p))
  {
    forall p | p in m ensures m[p] in SharedIds(m) <==> Shared(m, p) {}
  }

  function Restored(pats: map<PatId, PatDevice>, stored: map<PatId, WideqId>): Pairing {
    var candidates := Usable(stored, pats);
    var mapping := map p | p in candidates && !Shared(candidates, p) :: candidates[p];
    var ambiguous := set p | p in candidates && Shared(candidates, p);
    Pairing(pats, mapping, ambiguous, pats.Keys - mapping.Keys - ambiguous)
  }

  function Step(fold: string -> string, s: Pairing, e: Event): Pairing {
    match e
    case PatDevicesAdded(devices) => s.(pats := s.pats + devices)
    case Polled(records) =>
      var r := Problem(fold, s.pats, records, s.mapping).Resolution();
      Pairing(s.pats, r.mapping, r.ambiguous, r.unmatched)
  }

  function Run(fold: string -> string, s: Pairing, events: seq<Event>): Pairing {
    if events == [] then s
    else Step(fold, Run(fold, s, events[..|events| - 1]), events[|events| - 1])
  }

  class WideqDataCoordinator {
    const fold: string -> string
    var patDevices: map<PatId, PatDevice>
    var patToWideq: map<PatId, WideqId>
    var ambiguousPatIds: set<PatId>
    var unmatchedPatIds: set<PatId>
    var saveScheduled: bool

    function State(): Pairing
      reads this
    {
      Pairing(patDevices, patToWideq, ambiguousPatIds, unmatchedPatIds)
    }

    constructor (fold: string -> string, pats: map<PatId, PatDevice>)
      ensures this.fold == fold && State() == Pairing(pats, map[], {}, pats.Keys)
    {
      this.fold := fold;
      patDevices, patToWideq, ambiguousPatIds, unmatchedPatIds := pats, map[], {}, pats.Keys;
      saveScheduled := false;
    }

    method RestoreDeviceMap(stored: map<PatId, WideqId>)
      modifies this`patToWideq, this`ambiguousPatIds, this`unmatchedPatIds
      ensures State() == Restored(patDevices, stored)
    {
      var candidates := Usable(stored, patDevices);
      var shared := SharedIds(candidates);
      SharedIdsAreShared(candidates);
      ambiguousPatIds := set p | p in candidates && candidates[p] in shared;
      patToWideq := map p | p in candidates && candidates[p] !in shared :: candidates[p];
      unmatchedPatIds := patDevices.Keys - patToWideq.Keys - ambiguousPatIds;
    }

    method AddPatDevices(devices: map<PatId, PatDevice>)
      modifies this`patDevices
      ensures State() == Step(fold, old(State()), PatDevicesAdded(devices))
    {
      patDevices := patDevices + devices;
    }

    /** Resolve one account reply; a changed mapping is scheduled to be saved. */
    method ResolveDevices(records: seq<WideqDevice>) returns (snapshots: map<PatId, Snapshot>)
      modifies this`patToWideq, this`ambiguousPatIds, this`unmatchedPatIds, this`saveScheduled
      ensures State() == Step(fold, old(State()), Polled(records))
      ensures snapshots == SnapshotsFor(records, patToWideq)
      ensures saveScheduled == (old(saveScheduled) || patToWideq != old(patToWideq))
    {
      var previous := patToWideq;
      var resolution := ResolveWideqDevices(Problem(fold, patDevices, records, patToWideq));
      patToWideq := resolution.mapping;
      ambiguousPatIds := resolution.ambiguous;
      unmatchedPatIds := resolution.unmatched;
      if patToWideq != previous {
        saveScheduled := true;
      }
      snapshots := resolution.snapshots;
    }
  }

  // ---- Stability over every run -----------------------------------------------------------------

  /** What the WideQ client delivers: no empty id, no id twice. */
  predicate WellFormedReply(records: seq<WideqDevice>) {
    DistinctIds(records) && forall i :: 0 <= i < |records| ==> records[i].id != ""
  }

  predicate WellFormedEvent(e: Event) {
    e.Polled? ==> WellFormedReply(e.records)
  }

  predicate Sound(s: Pairing) {
    && Injective(s.mapping)
    && s.mapping.Keys <= s.pats.Keys
    && forall p :: p in s.mapping ==> s.mapping[p] != ""
  }

  predicate Extends(later: map<PatId, WideqId>, earlier: map<PatId, WideqId>) {
    forall p :: p in earlier ==> p in later && later[p] == earlier[p]
  }

  /** Whatever the store holds, restoring it gives each WideQ device to at most one PAT device. */
  lemma RestoreIsSound(pats: map<PatId, PatDevice>, stored: map<PatId, WideqId>)
    ensures Sound(Restored(pats, stored))
    ensures forall p, q :: p != q && p in pats && q in pats && p in stored && q in stored && stored[p] == stored[q] != "" ==>
              p in Restored(pats, stored).ambiguous && q in Restored(pats, stored).ambiguous
  {
    var candidates := Usable(stored, pats);
    forall p, q | p in candidates && q in candidates && p != q && candidates[p] == candidates[q]
      ensures Shared(candidates, p) && Shared(candidates, q) {}
    forall p, q | p != q && p in pats && q in pats && p in stored && q in stored && stored[p] == stored[q] != ""
      ensures p in Restored(pats, stored).ambiguous && q in Restored(pats, stored).ambiguous
    {
      assert p in candidates && q in candidates;
    }
  }

  /** Another known device is stored for the same WideQ device. */
  predicate IsContested(pats: map<PatId, PatDevice>, stored: map<PatId, WideqId>, p: PatId)
    requires p in stored
  {
    exists q :: q in pats && q in stored && q != p && stored[q] == stored[p]
  }

  /** Restoring keeps exactly the stored pairs of known devices that name a WideQ device no other known
      device is stored for; it blocks those that name a contested one and leaves the rest open. */
  lemma RestoredIff(pats: map<PatId, PatDevice>, stored: map<PatId, WideqId>, p: PatId)
    ensures var r := Restored(pats, stored);
      && r.pats == pats
      && (p in r.mapping <==> p in pats && p in stored && stored[p] != "" && !IsContested(pats, stored, p))
      && (p in r.mapping ==> r.mapping[p] == stored[p])
      && (p in r.ambiguous <==> p in pats && p in stored && stored[p] != "" && IsContested(pats, stored, p))
      && (p in r.unmatched <==> p in pats && (p !in stored || stored[p] == ""))
  {
    var candidates := Usable(stored, pats);
    if p in candidates {
      if q :| q in candidates && q != p && candidates[q] == candidates[p] {
        assert IsContested(pats, stored, p);
      }
      if q :| q in pats && q in stored && q != p && stored[q] == stored[p] {
        assert q in candidates;
      }
    }
  }

  /** A stored pair that nothing contests is the device's pair after every run from the store. */
  lemma StoredPairsStay(fold: string -> string, pats: map<PatId, PatDevice>, stored: map<PatId, WideqId>, events: seq<Event>, p: PatId)
    requires p in pats && p in stored && stored[p] != "" && !IsContested(pats, stored, p)
    requires forall i :: 0 <= i < |events| ==> WellFormedEvent(events[i])
    ensures var after := Run(fold, Restored(pats, stored), events); p in after.mapping && after.mapping[p] == stored[p]
  {
    RestoredIff(pats, stored, p);
    assert Restored(pats, stored).mapping[p] == stored[p];
    RestoreIsSound(pats, stored);
    PairsAreForever(fold, Restored(pats, stored), events, 0);
    assert events[..0] == [];
  }

  lemma StepIsStable(fold: string -> string, s: Pairing, e: Event)
    requires Sound(s) && WellFormedEvent(e)
    ensures Sound(Step(fold, s, e)) && Extends(Step(fold, s, e).mapping, s.mapping)
  {
    if e.Polled? {
      var pr := Problem(fold, s.pats, e.records, s.mapping);
      DistinctIdsDoNotSplit(pr);
      forall p | p in s.mapping ensures pr.Restored(p) {
        assert pr.Claimants(s.mapping[p]) == {p};
      }
      forall p | p in pr.Mapping() ensures pr.Mapping()[p] != "" {
        if pr.Matched(p) { FreeIdsAreRecords(pr, pr.wideq, pr.PatSignature(p), 0); }
      }
    }
  }

  /** From any stored map, through any polls and newly discovered devices: no WideQ device is shared,
      and a pair once present is never changed or dropped. */
  lemma {:induction false} PairsAreForever(fold: string -> string, s: Pairing, events: seq<Event>, n: nat)
    requires Sound(s) && n <= |events|
    requires forall i :: 0 <= i < |events| ==> WellFormedEvent(events[i])
    ensures Sound(Run(fold, s, events))
    ensures Extends(Run(fold, s, events).mapping, Run(fold, s, events[..n]).mapping)
  {
    if n == |events| {
      assert events[..n] == events;
      if events != [] {
        PairsAreForever(fold, s, events[..n - 1], n - 1);
        StepIsStable(fold, Run(fold, s, events[..n - 1]), events[n - 1]);
      }
    } else {
      var before := events[..|events| - 1];
      PairsAreForever(fold, s, before, n);
      assert before[..n] == events[..n];
      StepIsStable(fold, Run(fold, s, before), events[|events| - 1]);
    }
  }

  /** A device added at any time is known from then on, under its last description; a poll decides about
      the devices known by then. */
  lemma {:induction false} DevicesStayKnown(fold: string -> string, s: Pairing, events: seq<Event>, i: nat, p: PatId)
    requires i < |events| && events[i].PatDevicesAdded? && p in events[i].devices
    requires forall j :: i < j < |events| && events[j].PatDevicesAdded? ==> p !in events[j].devices
    ensures var after := Run(fold, s, events); p in after.pats && after.pats[p] == events[i].devices[p]
  {
    if i < |events| - 1 {
      DevicesStayKnown(fold, s, events[..|events| - 1], i, p);
    }
  }

  // ---- Resolving again changes nothing ----------------------------------------------------------

  lemma {:induction false} SameFreeIds(pr: Problem, again: Problem, records: seq<WideqDevice>, s: Signature)
    requires again.fold == pr.fold
    requires forall i :: 0 <= i < |records| && pr.WideqSignature(records[i]) == s ==> again.Claimed(records[i].id) == pr.Claimed(records[i].id)
    ensures again.FreeIds(records, s) == pr.FreeIds(records, s)
  {
    if records != [] {
      SameFreeIds(pr, again, records[..|records| - 1], s);
    }
  }

  /** The record of a signature left open is claimed afterwards exactly when it was claimed before. */
  lemma OpenSignatureStaysOpen(pr: Problem, s: Signature)
    requires WellFormedReply(pr.wideq) && Injective(Usable(pr.stored, pr.pats)) && !pr.UniqueMatch(s)
    ensures pr.(stored := pr.Mapping()).FreePats(s) == pr.FreePats(s)
    ensures pr.(stored := pr.Mapping()).FreeWideq(s) == pr.FreeWideq(s)
  {
    var again := pr.(stored := pr.Mapping());
    forall p | p in pr.pats && pr.PatSignature(p) == s ensures again.HasClaim(p) == pr.HasClaim(p) {
      AllClaimsRestored(pr, p);
    }
    forall i | 0 <= i < |pr.wideq| && pr.WideqSignature(pr.wideq[i]) == s
      ensures again.Claimed(pr.wideq[i].id) == pr.Claimed(pr.wideq[i].id)
    {
      var w := pr.wideq[i].id;
      forall p ensures again.Claims(p, w) <==> pr.Claims(p, w) {
        AllClaimsRestored(pr, p);
        if again.Claims(p, w) && !pr.HasClaim(p) {
          var j := NeverGuesses(pr, p);
        }
      }
      assert again.Claimants(w) == pr.Claimants(w);
    }
    SameFreeIds(pr, again, pr.wideq, s);
  }

  lemma AllClaimsRestored(pr: Problem, p: PatId)
    requires Injective(Usable(pr.stored, pr.pats))
    ensures pr.HasClaim(p) ==> pr.Restored(p)
  {
    if pr.HasClaim(p) {
      assert p in Usable(pr.stored, pr.pats);
      forall q | q in pr.Claimants(pr.stored[p]) ensures q == p {
        assert q in Usable(pr.stored, pr.pats);
      }
      assert p in pr.Claimants(pr.stored[p]);
    }
  }

  /** Polling the same account again with the result changes nothing, when the stored pairs of known
      devices were one-to-one. */
  lemma {:induction false} ResolvingAgainIsIdle(pr: Problem)
    requires WellFormedReply(pr.wideq) && Injective(Usable(pr.stored, pr.pats))
    ensures pr.(stored := pr.Resolution().mapping).Resolution() == pr.Resolution()
  {
    var again := pr.(stored := pr.Mapping());
    DistinctIdsDoNotSplit(pr);
    forall p | p in pr.pats
      ensures again.Mapped(p) == pr.Mapped(p) && again.Ambiguous(p) == pr.Ambiguous(p)
      ensures pr.Mapped(p) ==> again.PartnerOf(p) == pr.PartnerOf(p)
    {
      AllClaimsRestored(pr, p);
      if pr.Mapped(p) {
        MappedIsRestoredAgain(pr, p);
      } else {
        OpenSignatureStaysOpen(pr, pr.PatSignature(p));
      }
    }
    assert again.Mapping() == pr.Mapping();
    assert again.AmbiguousPats() == pr.AmbiguousPats();
    UnmatchedIsTheRest(pr);
    UnmatchedIsTheRest(again);
  }

  lemma MappedIsRestoredAgain(pr: Problem, p: PatId)
    requires WellFormedReply(pr.wideq) && Injective(pr.Mapping()) && pr.Mapped(p) && p in pr.pats
    ensures var again := pr.(stored := pr.Mapping()); again.Restored(p) && again.PartnerOf(p) == pr.PartnerOf(p)
  {
    var again := pr.(stored := pr.Mapping());
    if pr.Matched(p) { FreeIdsAreRecords(pr, pr.wideq, pr.PatSignature(p), 0); }
    assert pr.Mapping()[p] != "";
    assert again.Claimants(pr.Mapping()[p]) == {p};
  }
}
