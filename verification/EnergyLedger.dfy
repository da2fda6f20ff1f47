/** The retained cumulative-energy feed of one appliance (local_energy_provider.py).

    The provider adopts a publication only if it does not contradict the one before it.  What that
    is for is a statement about all accepted publications, so the class records them as a ghost
    history. */
module EnergyLedger {
  import opened Wrappers

  const MAX_GENERATION := 9_007_199_254_740_991

  /** One publication.  `pinned` says that topic, QoS, payload shape, contract pins, identifiers and
      timestamps are exactly the authorized ones. */
  datatype Publication = Publication(
    pinned: bool, binding: int, baseline: int, lastCounted: int, cursor: int, ahead: int,
    totals: map<string, int>, publishedAt: string, ledgerRecord: string)

  predicate SafeGeneration(g: int) {
    0 <= g <= MAX_GENERATION
  }

  /** The checks that look at the publication alone. */
  predicate WellFormed(p: Publication, semanticIds: set<string>) {
    && p.pinned
    && SafeGeneration(p.binding) && SafeGeneration(p.baseline) && SafeGeneration(p.lastCounted)
    && SafeGeneration(p.cursor) && SafeGeneration(p.ahead)
    && p.baseline <= p.lastCounted && p.cursor <= p.lastCounted && p.ahead == p.lastCounted - p.cursor
    && p.totals.Keys == semanticIds
    && forall key :: key in p.totals ==> p.totals[key] >= 0
  }

  class CumulativeEnergyShadowProvider {
    const semanticIds: set<string>
    var transportReady: bool
    var currentValid: bool
    var totals: map<string, int>
    var binding: Option<int>
    var lastCounted: Option<int>
    var baseline: Option<int>
    var publishedAt: Option<string>
    var ledgerRecord: Option<string>
    ghost var accepted: seq<Publication>

    /** The stored values are those of the last accepted publication. */
    ghost predicate Valid()
      reads this
    {
      && Ledger(accepted, semanticIds)
      && (accepted == [] ==>
            !currentValid && totals == map[] && binding == None && lastCounted == None && baseline == None)
      && (accepted != [] ==>
            var p := accepted[|accepted| - 1];
            totals == p.totals && binding == Some(p.binding) && lastCounted == Some(p.lastCounted) &&
            baseline == Some(p.baseline) && publishedAt == Some(p.publishedAt) && ledgerRecord == Some(p.ledgerRecord))
    }

    constructor (semanticIds: set<string>)
      ensures Valid() && accepted == [] && !transportReady && this.semanticIds == semanticIds
    {
      this.semanticIds := semanticIds;
      transportReady, currentValid, totals := false, false, map[];
      binding, lastCounted, baseline, publishedAt, ledgerRecord := None, None, None, None, None;
      accepted := [];
    }

    method SetTransportReady(ready: bool)
      requires Valid()
      modifies this`transportReady, this`currentValid
      ensures Valid() && transportReady == ready && currentValid == (ready && old(currentValid))
      ensures !ready ==> forall key :: !Available(key)
      ensures ready && old(transportReady) ==> forall key :: Available(key) == old(Available(key))
    {
      transportReady := ready;
      if !ready {
        currentValid := false;
      }
    }

    /** A rejected publication makes the fields unavailable without touching what was accepted. */
    method RejectCurrent()
      requires Valid()
      modifies this`currentValid
      ensures Valid() && !currentValid && forall key :: !Available(key)
    {
      currentValid := false;
    }

    function Available(key: string): bool
      reads this
    {
      transportReady && currentValid && key in totals
    }

    /** Adopt a publication, or refuse it and change nothing.  It is adopted exactly when it is well
        formed and may follow the last one adopted. */
    method Ingest(p: Publication) returns (ok: bool)
      requires Valid()
      modifies this`currentValid, this`totals, this`binding, this`lastCounted, this`baseline,
               this`publishedAt, this`ledgerRecord, this`accepted
      ensures Valid()
      ensures ok == (WellFormed(p, semanticIds) && (old(accepted) == [] || MayFollow(old(accepted)[|old(accepted)| - 1], p)))
      ensures ok == Ledger(old(accepted) + [p], semanticIds)
      ensures ok ==> accepted == old(accepted) + [p] && currentValid && forall key :: Available(key) == (transportReady && key in p.totals)
      ensures !ok ==> accepted == old(accepted) && currentValid == old(currentValid) && totals == old(totals)
    {
      LedgerGrows(accepted, p, semanticIds);
      if !WellFormed(p, semanticIds) {
        return false;
      }
      if binding.Some? {
        var bindingAdvanced := p.binding > binding.value;
        var baselineAdvanced := baseline.Some? && p.baseline > baseline.value;
        if p.binding < binding.value {
          return false;
        }
        if !bindingAdvanced && baseline.Some? && p.baseline < baseline.value {
          return false;
        }
        if p.binding == binding.value && lastCounted.Some? && p.lastCounted < lastCounted.value {
          return false;
        }
        if !(bindingAdvanced || baselineAdvanced) && AnyRegressed(p.totals, totals) {
          return false;
        }
        if Some(p.lastCounted) == lastCounted && !(bindingAdvanced || baselineAdvanced) && totals != map[] && totals != p.totals {
          return false;
        }
      }
      Adopt(p);
      return true;
    }

    method Adopt(p: Publication)
      requires Valid() && WellFormed(p, semanticIds)
      requires accepted != [] ==> WellFormed(accepted[|accepted| - 1], semanticIds) && MayFollow(accepted[|accepted| - 1], p)
      modifies this`currentValid, this`totals, this`binding, this`lastCounted, this`baseline,
               this`publishedAt, this`ledgerRecord, this`accepted
      ensures Valid() && accepted == old(accepted) + [p] && currentValid && totals == p.totals
    {
      assert (accepted + [p])[..|accepted|] == accepted;
      binding, baseline, lastCounted := Some(p.binding), Some(p.baseline), Some(p.lastCounted);
      publishedAt, ledgerRecord := Some(p.publishedAt), Some(p.ledgerRecord);
      totals, currentValid := p.totals, true;
      accepted := accepted + [p];
    }
  }

  predicate AnyRegressed(totals: map<string, int>, before: map<string, int>) {
    exists key :: key in totals && totals[key] < (if key in before then before[key] else 0)
  }

  /** `p` may be adopted directly after `last`: the binding generation does not go back; within one
      binding neither does the counted generation nor the baseline; and within one baseline of one
      binding no total decreases, or changes at all without a newly counted generation. */
  predicate MayFollow(last: Publication, p: Publication)
    requires p.totals.Keys == last.totals.Keys
  {
    && last.binding <= p.binding
    && (last.binding == p.binding ==> last.baseline <= p.baseline && last.lastCounted <= p.lastCounted)
    && (SameSegment(last, p) ==>
          && (forall key :: key in p.totals ==> last.totals[key] <= p.totals[key])
          && (last.lastCounted == p.lastCounted ==> last.totals == p.totals))
  }

  predicate SameSegment(p: Publication, q: Publication) {
    p.binding == q.binding && p.baseline == q.baseline
  }

  /** A history in which every publication was well formed and allowed by its predecessor. */
  predicate Ledger(h: seq<Publication>, ids: set<string>) {
    h != [] ==>
      var n := |h| - 1;
      && Ledger(h[..n], ids) && WellFormed(h[n], ids)
      && (n > 0 ==> WellFormed(h[n - 1], ids) && MayFollow(h[n - 1], h[n]))
  }

  // ---- The ledger as a whole --------------------------------------------------------------------

  lemma {:induction false} AdoptedIsWellFormed(h: seq<Publication>, ids: set<string>, i: nat)
    requires Ledger(h, ids) && i < |h|
    ensures WellFormed(h[i], ids)
  {
    if i < |h| - 1 {
      AdoptedIsWellFormed(h[..|h| - 1], ids, i);
    }
  }

  /** Generations only move forward over the whole history: the binding generation always, the
      baseline and the counted generation as long as the binding stays. */
  lemma {:induction false} GenerationsNeverRegress(h: seq<Publication>, ids: set<string>, i: nat, j: nat)
    requires Ledger(h, ids) && i <= j < |h|
    ensures h[i].binding <= h[j].binding
    ensures h[i].binding == h[j].binding ==> h[i].baseline <= h[j].baseline && h[i].lastCounted <= h[j].lastCounted
  {
    var n := |h| - 1;
    if j < n {
      GenerationsNeverRegress(h[..n], ids, i, j);
    } else if i < n {
      GenerationsNeverRegress(h[..n], ids, i, n - 1);
    }
  }

  /** What lies between two publications of one binding and baseline belongs to them too, and over
      that run no total decreases. */
  lemma {:induction false} SegmentsAreContiguous(h: seq<Publication>, ids: set<string>, i: nat, j: nat, k: nat)
    requires Ledger(h, ids) && i <= j <= k < |h| && SameSegment(h[i], h[k])
    ensures SameSegment(h[i], h[j])
    ensures h[j].totals.Keys == h[k].totals.Keys == ids
    ensures forall key :: key in ids ==> h[j].totals[key] <= h[k].totals[key]
    decreases k - j
  {
    GenerationsNeverRegress(h, ids, i, j);
    GenerationsNeverRegress(h, ids, j, k);
    AdoptedIsWellFormed(h, ids, j);
    AdoptedIsWellFormed(h, ids, k);
    if j < k {
      SegmentsAreContiguous(h, ids, i, j + 1, k);
      LedgerStep(h, ids, j);
    }
  }

  lemma {:induction false} LedgerStep(h: seq<Publication>, ids: set<string>, j: nat)
    requires Ledger(h, ids) && j + 1 < |h|
    ensures h[j + 1].totals.Keys == h[j].totals.Keys == ids && MayFollow(h[j], h[j + 1])
  {
    if j + 1 < |h| - 1 {
      LedgerStep(h[..|h| - 1], ids, j);
    }
  }

  /** Two publications that name the same binding, baseline and counted generation report the same
      totals, however far apart they are. */
  lemma {:induction false} SameGenerationSameTotals(h: seq<Publication>, ids: set<string>, i: nat, k: nat)
    requires Ledger(h, ids) && i <= k < |h|
    requires SameSegment(h[i], h[k]) && h[i].lastCounted == h[k].lastCounted
    ensures h[i].totals == h[k].totals
    decreases k - i
  {
    if i < k {
      SegmentsAreContiguous(h, ids, i, i + 1, k);
      GenerationsNeverRegress(h, ids, i, i + 1);
      GenerationsNeverRegress(h, ids, i + 1, k);
      LedgerStep(h, ids, i);
      SameGenerationSameTotals(h, ids, i + 1, k);
    }
  }

  // ---- Exactly the consistent histories ---------------------------------------------------------

  lemma LedgerGrows(h: seq<Publication>, p: Publication, ids: set<string>)
    requires Ledger(h, ids)
    ensures h != [] ==> WellFormed(h[|h| - 1], ids)
    ensures Ledger(h + [p], ids) <==> WellFormed(p, ids) && (h == [] || MayFollow(h[|h| - 1], p))
  {
    assert (h + [p])[..|h|] == h;
  }

  /** One publication is consistent in itself: it is the authorized feed's, its generations are numbers
      that are exact everywhere, what is counted lies at or after the baseline and is the cursor plus
      what is ahead of it, and there is one total, not negative, for each field. */
  predicate IsConsistent(p: Publication, ids: set<string>) {
    && p.pinned && p.totals.Keys == ids && (forall key :: key in ids ==> p.totals[key] >= 0)
    && 0 <= p.binding < 0x20_0000_0000_0000
    && 0 <= p.baseline <= p.lastCounted < 0x20_0000_0000_0000
    && 0 <= p.cursor && 0 <= p.ahead && p.cursor + p.ahead == p.lastCounted
  }

  /** Of two publications, adjacent or not, the later one goes back in no generation and in no total. */
  predicate AreConsistent(p: Publication, q: Publication) {
    && p.binding <= q.binding
    && (p.binding == q.binding ==> p.baseline <= q.baseline && p.lastCounted <= q.lastCounted)
    && (p.binding == q.binding && p.baseline == q.baseline ==>
          && p.totals.Keys == q.totals.Keys
          && (forall key :: key in p.totals ==> p.totals[key] <= q.totals[key])
          && (p.lastCounted == q.lastCounted ==> p.totals == q.totals))
  }

  /** Comparing each publication with the one before it admits exactly the histories in which every one
      is consistent with itself and with all before it. */
  lemma {:induction false} LedgerIff(h: seq<Publication>, ids: set<string>)
    ensures Ledger(h, ids) <==>
      && (forall i :: 0 <= i < |h| ==> IsConsistent(h[i], ids))
      && (forall i, j :: 0 <= i < j < |h| ==> AreConsistent(h[i], h[j]))
  {
    if Ledger(h, ids) {
      forall i | 0 <= i < |h| ensures IsConsistent(h[i], ids) {
        AdoptedIsWellFormed(h, ids, i);
      }
      forall i, j | 0 <= i < j < |h| ensures AreConsistent(h[i], h[j]) {
        GenerationsNeverRegress(h, ids, i, j);
        if SameSegment(h[i], h[j]) {
          SegmentsAreContiguous(h, ids, i, i, j);
          if h[i].lastCounted == h[j].lastCounted {
            SameGenerationSameTotals(h, ids, i, j);
          }
        }
      }
    }
    if h != [] && (forall i :: 0 <= i < |h| ==> IsConsistent(h[i], ids)) && (forall i, j :: 0 <= i < j < |h| ==> AreConsistent(h[i], h[j])) {
      LedgerIff(h[..|h| - 1], ids);
      ConsistentMayFollow(h, ids);
    }
  }

  lemma ConsistentMayFollow(h: seq<Publication>, ids: set<string>)
    requires h != [] && Ledger(h[..|h| - 1], ids)
    requires forall i :: 0 <= i < |h| ==> IsConsistent(h[i], ids)
    requires forall i, j :: 0 <= i < j < |h| ==> AreConsistent(h[i], h[j])
    ensures Ledger(h, ids)
  {
    var n := |h| - 1;
    if n > 0 {
      assert IsConsistent(h[n - 1], ids) && AreConsistent(h[n - 1], h[n]);
    }
  }
}
