/** The process-wide limiter in front of every WideQ call (rate_limiter.py).

    The limiter keeps only the last hour of admissions.  Its two promises are about the whole
    history of admissions, so the class carries that history as ghost state and the invariant says
    how the pruned deque relates to it.  Clock readings are reals, in seconds. */
module RateLimiter {

  const HOUR: real := 3600.0

  function Max(a: real, b: real): real {
    if a < b then b else a
  }

  /** The admission before the first one: the limiter starts as if a call had happened at time 0. */
  function LastOr0(h: seq<real>): real {
    if |h| == 0 then 0.0 else h[|h| - 1]
  }

  /** Time `t` may follow the history `h`: time does not go back, the spacing is kept, and the
      admission `max` places earlier is at least an hour old. */
  predicate Admits(h: seq<real>, t: real, max: nat, spacing: real)
    requires max >= 1
  {
    && (|h| > 0 ==> LastOr0(h) <= t)
    && t - LastOr0(h) >= spacing
    && (|h| >= max ==> t - h[|h| - max] >= HOUR)
  }

  /** Every admission of `h` was allowed by the ones before it. */
  predicate Legal(h: seq<real>, max: nat, spacing: real)
    requires max >= 1
  {
    |h| > 0 ==>
      var before := h[..|h| - 1];
      Legal(before, max, spacing) && Admits(before, h[|h| - 1], max, spacing)
  }

  /** The first instant, not before `arrival`, at which both limits allow one more admission. */
  function EarliestSlot(h: seq<real>, arrival: real, max: nat, spacing: real): real
    requires max >= 1
  {
    var spaced := Max(arrival, LastOr0(h) + spacing);
    if |h| < max then spaced else Max(spaced, h[|h| - max] + HOUR)
  }

  /** When a call that has room under the cap at `t` is admitted, its sleep lasting `late` too long. */
  function SpacedSlot(h: seq<real>, t: real, spacing: real, late: real): real {
    if t - LastOr0(h) < spacing then LastOr0(h) + spacing + late else t
  }

  /** Waiting for the cap first and for the spacing then gives the earliest slot, plus what the sleeps
      overran. */
  lemma SlotIsEarliest(h: seq<real>, arrival: real, t: real, max: nat, spacing: real, lateCap: real, lateSpacing: real)
    requires max >= 1 && lateCap >= 0.0 && lateSpacing >= 0.0
    requires (t == arrival && (|h| >= max ==> t - h[|h| - max] >= HOUR))
          || (|h| >= max && t == h[|h| - max] + HOUR + lateCap && t >= arrival && arrival <= h[|h| - max] + HOUR)
    ensures SpacedSlot(h, t, spacing, lateSpacing) >= EarliestSlot(h, arrival, max, spacing)
    ensures lateCap == 0.0 && lateSpacing == 0.0 ==> SpacedSlot(h, t, spacing, lateSpacing) == EarliestSlot(h, arrival, max, spacing)
  {
  }

  /** What ended one call of `Acquire`.  A cancelled sleep releases the lock without an admission. */
  datatype Outcome = Admitted(at: real) | CancelledInCapWait | CancelledInSpacingWait

  datatype Cancel = Never | DuringCapWait | DuringSpacingWait

  class GlobalRateLimiter {
    const maxPerHour: nat
    const spacing: real
    var calls: seq<real>
    var last: real
    ghost var history: seq<real>
    /** The latest clock reading; the clock never goes below it. */
    ghost var clock: real

    ghost predicate Valid()
      reads this
    {
      && maxPerHour >= 1
      && Legal(history, maxPerHour, spacing)
      && last == LastOr0(history)
      && |calls| <= maxPerHour
      && |calls| <= |history|
      && (forall k :: 0 <= k < |calls| ==> calls[k] == history[|history| - |calls| + k])
      && (forall i :: 0 <= i < |history| - |calls| ==> clock - history[i] >= HOUR)
      && (forall i :: 0 <= i < |history| ==> history[i] <= clock)
    }

    constructor (maxPerHour: nat, spacing: real, ghost start: real)
      requires maxPerHour >= 1
      ensures Valid() && history == [] && clock == start
      ensures this.maxPerHour == maxPerHour && this.spacing == spacing
    {
      this.maxPerHour := maxPerHour;
      this.spacing := spacing;
      calls, last := [], 0.0;
      history, clock := [], start;
    }

    /** Drop the admissions that are an hour old at `now`. */
    method Prune(now: real)
      requires Valid() && clock <= now
      modifies this`calls, this`clock
      ensures Valid() && clock == now
      ensures |calls| <= old(|calls|)
      ensures calls != [] ==> now - calls[0] < HOUR
      ensures |calls| < maxPerHour <= |history| ==> now - history[|history| - maxPerHour] >= HOUR
    {
      clock := now;
      while |calls| > 0 && now - calls[0] >= HOUR
        invariant Valid() && clock == now && |calls| <= old(|calls|)
      {
        calls := calls[1..];
      }
    }

    /** One pass through the lock.  `now` is the clock reading on entry; a sleep asked to last `w`
        lasts `w + lateCap` or `w + lateSpacing`.  `cancel` says which sleep, if any, is cancelled. */
    method Acquire(now: real, lateCap: real, lateSpacing: real, cancel: Cancel) returns (outcome: Outcome)
      requires Valid() && clock <= now && lateCap >= 0.0 && lateSpacing >= 0.0
      modifies this`calls, this`last, this`history, this`clock
      ensures Valid() && now <= clock
      ensures !outcome.Admitted? ==> history == old(history)
      ensures outcome.Admitted? ==> history == old(history) + [outcome.at] && clock == outcome.at
      ensures KeepsLimits(history, maxPerHour, spacing)
      ensures outcome.Admitted? ==> outcome.at >= EarliestSlot(old(history), now, maxPerHour, spacing)
      ensures cancel.Never? ==> outcome.Admitted?
      ensures outcome.Admitted? && lateCap == 0.0 && lateSpacing == 0.0 ==>
                outcome.at == EarliestSlot(old(history), now, maxPerHour, spacing)
    {
      var t := now;
      Prune(t);
      if |calls| >= maxPerHour {
        if cancel.DuringCapWait? {
          LegalHistory(history, maxPerHour, spacing);
          return CancelledInCapWait;
        }
        t := SleepForTheCap(t, lateCap);
      }
      SlotIsEarliest(history, now, t, maxPerHour, spacing, lateCap, lateSpacing);
      outcome := SpaceAndRecord(t, lateSpacing, cancel);
      LegalHistory(history, maxPerHour, spacing);
    }

    /** The spacing, and the admission, once the cap has room. */
    method SpaceAndRecord(now: real, late: real, cancel: Cancel) returns (outcome: Outcome)
      requires Valid() && clock <= now && late >= 0.0 && |calls| < maxPerHour
      requires |history| >= maxPerHour ==> now - history[|history| - maxPerHour] >= HOUR
      modifies this`calls, this`last, this`history, this`clock
      ensures Valid() && now <= clock
      ensures !outcome.Admitted? ==> history == old(history) && cancel.DuringSpacingWait?
      ensures outcome.Admitted? ==> history == old(history) + [outcome.at] && clock == outcome.at
      ensures outcome.Admitted? ==> outcome.at == SpacedSlot(old(history), now, spacing, late)
    {
      var t := now;
      var gap := t - last;
      if gap < spacing {
        if cancel.DuringSpacingWait? {
          clock := now;
          return CancelledInSpacingWait;
        }
        t := t + (spacing - gap) + late;
      }
      Record(t);
      return Admitted(t);
    }

    /** Sleep until the oldest admission of the window is an hour old. */
    method SleepForTheCap(now: real, late: real) returns (t: real)
      requires Valid() && clock == now && late >= 0.0 && |calls| >= maxPerHour && now - calls[0] < HOUR
      modifies this`calls, this`clock
      ensures Valid() && clock == t && |calls| < maxPerHour
      ensures |history| >= maxPerHour && t == history[|history| - maxPerHour] + HOUR + late && now <= history[|history| - maxPerHour] + HOUR
    {
      assert calls[0] == history[|history| - maxPerHour];
      var wait := HOUR - (now - calls[0]);
      t := now + Max(wait, 0.0) + late;
      Prune(t);
    }

    /** Note an admission at `t`. */
    method Record(t: real)
      requires Valid() && clock <= t && |calls| < maxPerHour
      requires Admits(history, t, maxPerHour, spacing)
      modifies this`calls, this`last, this`history, this`clock
      ensures Valid() && clock == t && history == old(history) + [t]
    {
      assert (history + [t])[..|history|] == history;
      clock, last := t, t;
      calls := calls + [t];
      history := history + [t];
    }
  }

  // ---- What a legal history looks like ----------------------------------------------------------

  /** Every admission of a legal history was allowed by the ones before it. */
  lemma {:induction false} LegalAt(h: seq<real>, j: nat, max: nat, spacing: real)
    requires max >= 1 && Legal(h, max, spacing) && j < |h|
    ensures Admits(h[..j], h[j], max, spacing)
  {
    var n := |h| - 1;
    if j < n {
      LegalAt(h[..n], j, max, spacing);
      assert h[..n][..j] == h[..j];
    }
  }

  lemma {:induction false} LegalAscends(h: seq<real>, i: nat, j: nat, max: nat, spacing: real)
    requires max >= 1 && Legal(h, max, spacing) && i <= j < |h|
    ensures h[i] <= h[j]
  {
    if i < j {
      LegalAt(h, j, max, spacing);
      LegalAscends(h, i, j - 1, max, spacing);
      assert h[..j][j - 1] == h[j - 1];
    }
  }

  /** Both limits, read off a history: `max` + 1 consecutive calls span an hour, and neighbours, the
      virtual call at time 0 included, keep the spacing. */
  ghost predicate KeepsLimits(h: seq<real>, max: nat, spacing: real) {
    && (forall i, j :: 0 <= i <= j < |h| ==> h[i] <= h[j])
    && (forall i, j :: 0 <= i < j < |h| && j == i + max ==> h[j] - h[i] >= 3600.0)
    && (forall i, j :: 0 <= i < j < |h| && j == i + 1 ==> h[j] - h[i] >= spacing)
    && (|h| > 0 ==> h[0] >= spacing)
  }

  /** The legal histories are those that keep the limits. */
  lemma {:induction false} LegalHistory(h: seq<real>, max: nat, spacing: real)
    requires max >= 1
    ensures Legal(h, max, spacing) <==> KeepsLimits(h, max, spacing)
  {
    if Legal(h, max, spacing) {
      LegalKeepsLimits(h, max, spacing);
    }
    if KeepsLimits(h, max, spacing) && h != [] {
      LegalHistory(h[..|h| - 1], max, spacing);
    }
  }

  lemma LegalKeepsLimits(h: seq<real>, max: nat, spacing: real)
    requires max >= 1 && Legal(h, max, spacing)
    ensures KeepsLimits(h, max, spacing)
  {
    forall i, j | 0 <= i <= j < |h| ensures h[i] <= h[j] {
      LegalAscends(h, i, j, max, spacing);
    }
    forall i, j | 0 <= i < j < |h| && j == i + max ensures h[j] - h[i] >= 3600.0 {
      LegalAt(h, j, max, spacing);
      assert h[..j][i] == h[i];
    }
    forall i, j | 0 <= i < j < |h| && j == i + 1 ensures h[j] - h[i] >= spacing {
      LegalAt(h, j, max, spacing);
      assert h[..j][i] == h[i];
    }
    if |h| > 0 {
      LegalAt(h, 0, max, spacing);
    }
  }

  // ---- The hourly cap, read as a bound on any interval ------------------------------------------

  lemma {:induction false} CapRepeats(h: seq<real>, max: nat, i: nat, k: nat)
    requires forall a, b :: 0 <= a < b < |h| && b == a + max ==> h[b] - h[a] >= HOUR
    requires max >= 1 && i + max * k < |h|
    ensures h[i + max * k] - h[i] >= HOUR * k as real
    decreases k
  {
    if k > 0 {
      var before := i + max * (k - 1);
      assert i + max * k == before + max;
      CapRepeats(h, max, i, k - 1);
      assert h[before + max] - h[before] >= HOUR;
    }
  }

  lemma CappedWithin(h: seq<real>, max: nat, i: nat, j: nat, hours: nat)
    requires forall a, b :: 0 <= a <= b < |h| ==> h[a] <= h[b]
    requires forall a, b :: 0 <= a < b < |h| && b == a + max ==> h[b] - h[a] >= HOUR
    requires max >= 1 && i <= j < |h| && h[j] - h[i] < HOUR * hours as real
    ensures j - i < max * hours
  {
    if max * hours <= j - i {
      CapRepeats(h, max, i, hours);
    }
  }

  /** However an interval of length `length` is placed, at most `max` calls per started hour fall in
      it: `i` and `j` are the first and last admission inside. */
  lemma IntervalBound(h: seq<real>, max: nat, spacing: real, length: real, i: nat, j: nat)
    requires max >= 1 && Legal(h, max, spacing)
    requires i <= j < |h| && h[j] - h[i] <= length
    ensures j - i + 1 <= max * ((length / 3600.0).Floor + 1)
  {
    var hours := (length / HOUR).Floor + 1;
    assert HOUR * hours as real > length;
    LegalHistory(h, max, spacing);
    CappedWithin(h, max, i, j, hours);
  }

  // ---- The limiter is the earliest legal schedule -----------------------------------------------

  /** What exact sleeps admit for requests that reach the lock in this order: request n reads the
      clock when it has arrived and its predecessor has left. */
  function Schedule(arrivals: seq<real>, max: nat, spacing: real): (h: seq<real>)
    requires max >= 1
    ensures |h| == |arrivals|
  {
    if arrivals == [] then []
    else
      var n := |arrivals| - 1;
      var before := Schedule(arrivals[..n], max, spacing);
      var entry := if n == 0 then arrivals[n] else Max(arrivals[n], before[n - 1]);
      before + [EarliestSlot(before, entry, max, spacing)]
  }

  predicate Serves(h: seq<real>, arrivals: seq<real>) {
    |h| == |arrivals| && forall i :: 0 <= i < |h| ==> arrivals[i] <= h[i]
  }

  lemma {:induction false} ScheduleIsLegal(arrivals: seq<real>, max: nat, spacing: real)
    requires max >= 1
    ensures Legal(Schedule(arrivals, max, spacing), max, spacing)
    ensures Serves(Schedule(arrivals, max, spacing), arrivals)
  {
    if arrivals != [] {
      var n := |arrivals| - 1;
      ScheduleIsLegal(arrivals[..n], max, spacing);
      assert Schedule(arrivals, max, spacing)[..n] == Schedule(arrivals[..n], max, spacing);
    }
  }

  /** No first-come-first-served schedule that meets both limits serves any request earlier. */
  lemma {:induction false} ScheduleIsEarliest(arrivals: seq<real>, max: nat, spacing: real, other: seq<real>)
    requires max >= 1
    requires Legal(other, max, spacing) && Serves(other, arrivals)
    ensures forall i :: 0 <= i < |arrivals| ==> Schedule(arrivals, max, spacing)[i] <= other[i]
  {
    if arrivals != [] {
      var n := |arrivals| - 1;
      ScheduleIsEarliest(arrivals[..n], max, spacing, other[..n]);
    }
  }

  /** Serving a list of requests one after the other through `Acquire` produces `Schedule`. */
  method ServeAll(limiter: GlobalRateLimiter, arrivals: seq<real>) returns (served: seq<real>)
    requires limiter.Valid() && limiter.history == []
    requires forall i :: 0 <= i < |arrivals| ==> limiter.clock <= arrivals[i]
    modifies limiter
    ensures limiter.Valid() && limiter.history == served
    ensures served == Schedule(arrivals, limiter.maxPerHour, limiter.spacing)
  {
    served := [];
    var clock := 0.0;
    for n := 0 to |arrivals|
      invariant limiter.Valid() && limiter.history == served && |served| == n
      invariant n > 0 ==> limiter.clock == clock == served[n - 1]
      invariant n == 0 ==> limiter.clock == old(limiter.clock)
      invariant served == Schedule(arrivals[..n], limiter.maxPerHour, limiter.spacing)
    {
      var entry := if n == 0 then arrivals[n] else Max(arrivals[n], clock);
      var outcome := limiter.Acquire(entry, 0.0, 0.0, Never);
      assert arrivals[..n + 1][..n] == arrivals[..n];
      served := served + [outcome.at];
      clock := outcome.at;
    }
    assert arrivals[..|arrivals|] == arrivals;
  }
}
