/** What happens to blocked devices: exactly when resolving again changes something
    (device_identity.py), and exactly when a poll pairs a device that restoring left unpaired
    (coordinator_wideq.py). */
module IdentityFixpoint {
  import opened DeviceIdentity
  import opened WideqCoordinator

  // ---- Resolving again --------------------------------------------------------------------------

  function Again(pr: Problem): Problem {
    pr.(stored := pr.Resolution().mapping)
  }

  function ContestedPats(pr: Problem, s: Signature): set<PatId> {
    set p | p in pr.pats && pr.Contested(p) && pr.PatSignature(p) == s
  }

  predicate IsContestedId(pr: Problem, w: WideqId) {
    pr.Claimed(w) && forall p :: p in pr.Claimants(w) ==> pr.Contested(p)
  }

  /** The ids of the records with this signature that several stored pairs claim. */
  function ContestedIds(pr: Problem, records: seq<WideqDevice>, s: Signature): seq<WideqId> {
    if records == [] then []
    else
      var d := records[|records| - 1];
      ContestedIds(pr, records[..|records| - 1], s) +
      (if IsContestedId(pr, d.id) && pr.WideqSignature(d) == s then [d.id] else [])
  }

  /** The devices of one signature that a resolution leaves unpaired. */
  function LeftOpen(pr: Problem, s: Signature): set<PatId> {
    ContestedPats(pr, s) + if pr.UniqueMatch(s) then {} else pr.FreePats(s)
  }

  /** How many records of one signature it gives to nobody. */
  function RecordsLeft(pr: Problem, s: Signature): nat {
    |ContestedIds(pr, pr.wideq, s)| + if pr.UniqueMatch(s) then 0 else |pr.FreeWideq(s)|
  }

  /** An unpaired device is blocked exactly if a record of its signature is left, and is not alone
      with a single one. */
  predicate IsSettled(pr: Problem, p: PatId)
    requires p in pr.pats
  {
    var s := pr.PatSignature(p);
    (pr.Ambiguous(p) <==> RecordsLeft(pr, s) > 0) && !(LeftOpen(pr, s) == {p} && RecordsLeft(pr, s) == 1)
  }

  predicate AllSettled(pr: Problem) {
    forall p :: p in pr.pats && !pr.Mapped(p) ==> IsSettled(pr, p)
  }

  lemma ClaimsAgain(pr: Problem, p: PatId)
    requires WellFormedReply(pr.wideq)
    ensures Again(pr).HasClaim(p) <==> p in pr.pats && pr.Mapped(p)
    ensures Again(pr).Restored(p) <==> p in pr.pats && pr.Mapped(p)
    ensures Again(pr).Restored(p) ==> Again(pr).stored[p] == pr.PartnerOf(p)
  {
    DistinctIdsDoNotSplit(pr);
    if p in pr.pats && pr.Mapped(p) {
      MappedIsRestoredAgain(pr, p);
    }
  }

  lemma LeftOpenIsFreeAgain(pr: Problem, s: Signature)
    requires WellFormedReply(pr.wideq)
    ensures Again(pr).FreePats(s) == LeftOpen(pr, s)
  {
    forall p ensures p in Again(pr).FreePats(s) <==> p in LeftOpen(pr, s) {
      ClaimsAgain(pr, p);
    }
  }

  lemma GivenIsClaimedAgain(pr: Problem, p: PatId, w: WideqId)
    requires WellFormedReply(pr.wideq) && p in pr.pats && pr.Mapped(p) && pr.PartnerOf(p) == w
    ensures Again(pr).Claimed(w)
  {
    ClaimsAgain(pr, p);
    assert p in Again(pr).Claimants(w);
  }

  lemma ClaimedAgainWasGiven(pr: Problem, i: nat)
    requires WellFormedReply(pr.wideq) && i < |pr.wideq| && Again(pr).Claimed(pr.wideq[i].id)
    ensures !IsContestedId(pr, pr.wideq[i].id)
    ensures !pr.Claimed(pr.wideq[i].id) ==> pr.UniqueMatch(pr.WideqSignature(pr.wideq[i]))
  {
    var p :| p in Again(pr).Claimants(pr.wideq[i].id);
    ClaimsAgain(pr, p);
    GivenRecord(pr, p, i);
  }

  /** A record is unclaimed the second time exactly if nobody was given it. */
  lemma RecordIsFreeAgain(pr: Problem, i: nat)
    requires WellFormedReply(pr.wideq) && i < |pr.wideq|
    ensures var w := pr.wideq[i].id;
      !Again(pr).Claimed(w) <==> IsContestedId(pr, w) || (!pr.Claimed(w) && !pr.UniqueMatch(pr.WideqSignature(pr.wideq[i])))
  {
    var w, s := pr.wideq[i].id, pr.WideqSignature(pr.wideq[i]);
    if Again(pr).Claimed(w) {
      ClaimedAgainWasGiven(pr, i);
    }
    if pr.Claimed(w) && !IsContestedId(pr, w) {
      var p :| p in pr.Claimants(w) && !pr.Contested(p);
      GivenIsClaimedAgain(pr, p, w);
    }
    if !pr.Claimed(w) && pr.UniqueMatch(s) {
      var p :| p in pr.FreePats(s);
      var k := FreeRecordIsListed(pr, pr.wideq, i);
      GivenIsClaimedAgain(pr, p, w);
    }
  }

  /** Whoever is given a record claimed it alone, or is matched by its signature. */
  lemma GivenRecord(pr: Problem, p: PatId, i: nat)
    requires WellFormedReply(pr.wideq) && i < |pr.wideq| && p in pr.pats && pr.Mapped(p) && pr.PartnerOf(p) == pr.wideq[i].id
    ensures !IsContestedId(pr, pr.wideq[i].id)
    ensures !pr.Claimed(pr.wideq[i].id) ==> pr.UniqueMatch(pr.WideqSignature(pr.wideq[i]))
  {
    if pr.Restored(p) {
      assert p in pr.Claimants(pr.wideq[i].id);
    } else {
      assert p in pr.Resolution().mapping;
      var j := NeverGuesses(pr, p);
      FreeIdsAreRecords(pr, pr.wideq, pr.PatSignature(p), 0);
      assert i == j;
    }
  }

  lemma {:induction false} FreeIdsAgain(pr: Problem, n: nat, s: Signature)
    requires WellFormedReply(pr.wideq) && n <= |pr.wideq|
    ensures |Again(pr).FreeIds(pr.wideq[..n], s)| ==
      |ContestedIds(pr, pr.wideq[..n], s)| + if pr.UniqueMatch(s) then 0 else |pr.FreeIds(pr.wideq[..n], s)|
  {
    if n > 0 {
      FreeIdsAgain(pr, n - 1, s);
      assert pr.wideq[..n][..n - 1] == pr.wideq[..n - 1];
      RecordIsFreeAgain(pr, n - 1);
      assert IsContestedId(pr, pr.wideq[n - 1].id) ==> pr.Claimed(pr.wideq[n - 1].id);
    }
  }

  lemma RecordsLeftAreFreeAgain(pr: Problem, s: Signature)
    requires WellFormedReply(pr.wideq)
    ensures |Again(pr).FreeWideq(s)| == RecordsLeft(pr, s)
  {
    FreeIdsAgain(pr, |pr.wideq|, s);
    assert pr.wideq[..|pr.wideq|] == pr.wideq;
  }

  /** The second resolution of one device. */
  lemma SecondTime(pr: Problem, p: PatId)
    requires WellFormedReply(pr.wideq) && p in pr.pats
    ensures var again, s := Again(pr), pr.PatSignature(p);
      if pr.Mapped(p) then again.Mapped(p) && again.PartnerOf(p) == pr.PartnerOf(p) && !again.Ambiguous(p)
      else
        && (again.Mapped(p) <==> LeftOpen(pr, s) == {p} && RecordsLeft(pr, s) == 1)
        && (again.Ambiguous(p) <==> RecordsLeft(pr, s) > 0 && !again.Mapped(p))
  {
    var again, s := Again(pr), pr.PatSignature(p);
    ClaimsAgain(pr, p);
    LeftOpenIsFreeAgain(pr, s);
    RecordsLeftAreFreeAgain(pr, s);
    if !pr.Mapped(p) && again.UniqueMatch(s) {
      assert p in again.FreePats(s);
      Singleton(again.FreePats(s), p);
      assert again.FreePats(s) == {p};
    }
  }

  lemma SettledIsTheSameAgain(pr: Problem, p: PatId)
    requires WellFormedReply(pr.wideq) && p in pr.pats && !pr.Mapped(p)
    ensures IsSettled(pr, p) <==> !Again(pr).Mapped(p) && (Again(pr).Ambiguous(p) <==> pr.Ambiguous(p))
  {
    SecondTime(pr, p);
  }

  lemma PairedIsTheSameAgain(pr: Problem, p: PatId)
    requires WellFormedReply(pr.wideq) && p in pr.pats && pr.Mapped(p)
    ensures Again(pr).Mapped(p) && Again(pr).PartnerOf(p) == pr.PartnerOf(p) && !Again(pr).Ambiguous(p) && !pr.Ambiguous(p)
  {
    SecondTime(pr, p);
  }

  lemma SettledIsIdle(pr: Problem)
    requires WellFormedReply(pr.wideq) && AllSettled(pr)
    ensures Again(pr).Mapping() == pr.Mapping() && Again(pr).AmbiguousPats() == pr.AmbiguousPats()
  {
    var again := Again(pr);
    forall p | p in pr.pats
      ensures again.Mapped(p) == pr.Mapped(p) && again.Ambiguous(p) == pr.Ambiguous(p)
      ensures pr.Mapped(p) ==> again.PartnerOf(p) == pr.PartnerOf(p)
    {
      if pr.Mapped(p) { PairedIsTheSameAgain(pr, p); } else { SettledIsTheSameAgain(pr, p); }
    }
  }

  lemma UnsettledIsNotIdle(pr: Problem, p: PatId)
    requires WellFormedReply(pr.wideq) && p in pr.pats && !pr.Mapped(p) && !IsSettled(pr, p)
    ensures Again(pr).Mapping() != pr.Mapping() || Again(pr).AmbiguousPats() != pr.AmbiguousPats()
  {
    SettledIsTheSameAgain(pr, p);
    assert p in Again(pr).Mapping() <==> Again(pr).Mapped(p);
    assert p in Again(pr).AmbiguousPats() <==> Again(pr).Ambiguous(p);
    assert p !in pr.Mapping() && (p in pr.AmbiguousPats() <==> pr.Ambiguous(p));
  }

  /** Resolving again with the result, whatever was stored at first, changes nothing if and only if
      all unpaired devices are settled. */
  lemma ResolvingAgainIsIdleIff(pr: Problem)
    requires WellFormedReply(pr.wideq)
    ensures Again(pr).Resolution() == pr.Resolution() <==> AllSettled(pr)
  {
    if AllSettled(pr) {
      SettledIsIdle(pr);
      UnmatchedIsTheRest(pr);
      UnmatchedIsTheRest(Again(pr));
    } else {
      var p :| p in pr.pats && !pr.Mapped(p) && !IsSettled(pr, p);
      UnsettledIsNotIdle(pr, p);
    }
  }

  /** With two known devices stored for one record it does not: the first time both are blocked, the
      second, with neither stored, the one whose name fits is paired. */
  lemma ContestedStoreIsNotIdle(fold: string -> string, a: PatDevice, b: PatDevice)
    requires (fold(a.alias), fold(a.model)) != (fold(b.alias), fold(b.model))
    ensures var pr := Problem(fold, map["A" := a, "B" := b], [WideqDevice("W", a.alias, a.model, map[])], map["A" := "W", "B" := "W"]);
            !AllSettled(pr) && Again(pr).Resolution() != pr.Resolution()
  {
    var pr := Problem(fold, map["A" := a, "B" := b], [WideqDevice("W", a.alias, a.model, map[])], map["A" := "W", "B" := "W"]);
    ContestedClaimIsBlocked(pr, "A", "B", "W");
    var s := pr.PatSignature("A");
    assert pr.Claims("A", "W") && pr.Claims("B", "W");
    assert "A" in pr.Claimants("W") && "B" in pr.Claimants("W");
    assert pr.Contested("A") && pr.Contested("B");
    assert LeftOpen(pr, s) == {"A"};
    assert pr.wideq[..0] == [];
    assert ContestedIds(pr, pr.wideq, s) == ContestedIds(pr, [], s) + ["W"];
    assert pr.FreeIds(pr.wideq, s) == pr.FreeIds([], s) + [];
    assert RecordsLeft(pr, s) == 1;
    ResolvingAgainIsIdleIff(pr);
  }

  // ---- What a poll pairs ------------------------------------------------------------------------

  function NameOf(fold: string -> string, a: PatDevice): Signature {
    (fold(a.alias), fold(a.model))
  }

  predicate IsCandidate(fold: string -> string, s: Pairing, d: WideqDevice, p: PatId)
    requires p in s.pats
  {
    d.id !in s.mapping.Values && NameOf(fold, s.pats[p]) == (fold(d.alias), fold(d.model))
  }

  /** `p` is the only unpaired device of its name, and one unpaired record has that name. */
  ghost predicate IsAloneWithOneRecord(fold: string -> string, s: Pairing, records: seq<WideqDevice>, p: PatId)
    requires p in s.pats
  {
    && (forall q :: q in s.pats && q !in s.mapping && NameOf(fold, s.pats[q]) == NameOf(fold, s.pats[p]) ==> q == p)
    && exists i :: 0 <= i < |records| && IsCandidate(fold, s, records[i], p)
                   && forall j :: 0 <= j < |records| && IsCandidate(fold, s, records[j], p) ==> j == i
  }

  lemma SoundClaims(fold: string -> string, s: Pairing, records: seq<WideqDevice>)
    requires Sound(s)
    ensures var pr := Problem(fold, s.pats, records, s.mapping);
      && (forall p :: pr.HasClaim(p) <==> p in s.mapping)
      && (forall w :: pr.Claimed(w) <==> w in s.mapping.Values)
  {
    var pr := Problem(fold, s.pats, records, s.mapping);
    forall w ensures pr.Claimed(w) <==> w in s.mapping.Values {
      if w in s.mapping.Values {
        var p :| p in s.mapping && s.mapping[p] == w;
        assert p in pr.Claimants(w);
      }
    }
  }

  /** In a sound pairing, a poll pairs an unpaired device if and only if it is alone with one record. */
  lemma PollPairsTheUnique(fold: string -> string, s: Pairing, records: seq<WideqDevice>, p: PatId)
    requires Sound(s) && WellFormedReply(records) && p in s.pats && p !in s.mapping
    ensures p in Step(fold, s, Polled(records)).mapping <==> IsAloneWithOneRecord(fold, s, records, p)
  {
    var pr := Problem(fold, s.pats, records, s.mapping);
    if p in pr.Mapping() {
      MatchedIsAlone(pr, s, p);
    }
    if IsAloneWithOneRecord(fold, s, records, p) {
      AloneIsMatched(pr, s, p);
    }
  }

  lemma MatchedIsAlone(pr: Problem, s: Pairing, p: PatId)
    requires pr.pats == s.pats && pr.stored == s.mapping && Sound(s) && p in s.pats && p !in s.mapping
    requires p in pr.Mapping()
    ensures IsAloneWithOneRecord(pr.fold, s, pr.wideq, p)
  {
    SoundClaims(pr.fold, s, pr.wideq);
    var i := NeverGuesses(pr, p);
    FreeIdsAreRecords(pr, pr.wideq, pr.PatSignature(p), 0);
    assert IsCandidate(pr.fold, s, pr.wideq[i], p);
  }

  lemma AloneIsMatched(pr: Problem, s: Pairing, p: PatId)
    requires pr.pats == s.pats && pr.stored == s.mapping && Sound(s) && p in s.pats && p !in s.mapping
    requires IsAloneWithOneRecord(pr.fold, s, pr.wideq, p)
    ensures p in pr.Mapping()
  {
    SoundClaims(pr.fold, s, pr.wideq);
    var i :| 0 <= i < |pr.wideq| && IsCandidate(pr.fold, s, pr.wideq[i], p)
             && forall j :: 0 <= j < |pr.wideq| && IsCandidate(pr.fold, s, pr.wideq[j], p) ==> j == i;
    assert pr.FreePats(pr.PatSignature(p)) == {p};
    OneFreeRecord(pr, s, p, i, |pr.wideq|);
    assert pr.wideq[..|pr.wideq|] == pr.wideq;
  }

  lemma {:induction false} OneFreeRecord(pr: Problem, s: Pairing, p: PatId, i: nat, n: nat)
    requires pr.pats == s.pats && pr.stored == s.mapping && p in s.pats && n <= |pr.wideq|
    requires forall w :: pr.Claimed(w) <==> w in s.mapping.Values
    requires forall j :: 0 <= j < |pr.wideq| ==> (IsCandidate(pr.fold, s, pr.wideq[j], p) <==> j == i)
    ensures |pr.FreeIds(pr.wideq[..n], pr.PatSignature(p))| == if i < n then 1 else 0
  {
    if n > 0 {
      OneFreeRecord(pr, s, p, i, n - 1);
      assert pr.wideq[..n][..n - 1] == pr.wideq[..n - 1];
      assert IsCandidate(pr.fold, s, pr.wideq[n - 1], p) <==> n - 1 == i;
    }
  }

  /** From any store and after any events, the next poll pairs an unpaired device if and only if it is
      then alone with one record: that the store blocked it no longer counts. */
  lemma NextPollPairsTheUnique(fold: string -> string, pats: map<PatId, PatDevice>, stored: map<PatId, WideqId>,
                               events: seq<Event>, records: seq<WideqDevice>, p: PatId)
    requires forall i :: 0 <= i < |events| ==> WellFormedEvent(events[i])
    requires WellFormedReply(records)
    requires var s := Run(fold, Restored(pats, stored), events); p in s.pats && p !in s.mapping
    ensures var s := Run(fold, Restored(pats, stored), events);
      p in Step(fold, s, Polled(records)).mapping <==> IsAloneWithOneRecord(fold, s, records, p)
  {
    RestoreIsSound(pats, stored);
    PairsAreForever(fold, Restored(pats, stored), events, 0);
    PollPairsTheUnique(fold, Run(fold, Restored(pats, stored), events), records, p);
  }

  function Uncontested(pats: map<PatId, PatDevice>, stored: map<PatId, WideqId>): map<PatId, WideqId> {
    map p | p in stored && !Shared(Usable(stored, pats), p) :: stored[p]
  }

  /** The block that restoring puts on the claimants of a shared record lasts until the first poll:
      from then on the run is the one of a store without those pairs. */
  lemma BlockEndsAtTheFirstPoll(fold: string -> string, pats: map<PatId, PatDevice>, stored: map<PatId, WideqId>,
                                records: seq<WideqDevice>)
    ensures Step(fold, Restored(pats, stored), Polled(records)) ==
            Step(fold, Restored(pats, Uncontested(pats, stored)), Polled(records))
    ensures Restored(pats, Uncontested(pats, stored)).ambiguous == {}
  {
    var few, all := Usable(Uncontested(pats, stored), pats), Usable(stored, pats);
    forall p ensures p in few <==> p in all && !Shared(all, p) {}
    forall p ensures !Shared(few, p) {
      if q :| q in few && q != p && p in few && few[q] == few[p] {
        assert q in all && p in all && all[q] == all[p];
        assert Shared(all, p);
      }
    }
    assert Restored(pats, Uncontested(pats, stored)).mapping == Restored(pats, stored).mapping;
  }

  /** Two devices stored for one record, named apart: the first poll already pairs one of them. */
  lemma FirstPollPairsABlockedDevice(fold: string -> string, a: PatDevice, b: PatDevice)
    requires (fold(a.alias), fold(a.model)) != (fold(b.alias), fold(b.model))
    ensures var s := Restored(map["A" := a, "B" := b], map["A" := "W", "B" := "W"]);
      "A" in s.ambiguous && "A" in Step(fold, s, Polled([WideqDevice("W", a.alias, a.model, map[])])).mapping
  {
    var pats, stored := map["A" := a, "B" := b], map["A" := "W", "B" := "W"];
    var s, records := Restored(pats, stored), [WideqDevice("W", a.alias, a.model, map[])];
    RestoreIsSound(pats, stored);
    var all := Usable(stored, pats);
    assert "A" in all && "B" in all && all["A"] == all["B"];
    assert Shared(all, "A") && Shared(all, "B");
    forall p ensures p !in s.mapping {
      assert p in all ==> p == "A" || p == "B";
    }
    assert IsCandidate(fold, s, records[0], "A");
    PollPairsTheUnique(fold, s, records, "A");
  }
}
