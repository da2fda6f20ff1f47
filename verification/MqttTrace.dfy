/** What the log of a subscription came of (local_mqtt.py): for every entry the callback that made it
    and how many connection events there had been by then. */
module MqttTrace {
  import opened Wrappers
  import opened MqttLog
  import opened MqttFeed

  datatype Callback =
    | Lost(client: nat, generation: nat)
    | Begun(client: nat, generation: nat)
    | Suback(client: nat, mid: Option<int>, ready: bool, generation: nat)
    | Message(client: nat, pub: Publication, generation: nat)
    | Malformed(client: nat, generation: nat)
    | SubscriptionFailed(client: nat)

  /** A callback with how many connection events had happened when it was received, which connection
      had been begun last and which was the newest counted. */
  datatype Received = Received(callback: Callback, since: nat, active: nat, newest: nat)

  /** The callback an entry came of, none if the subscriber was stopped, and the connection events
      there had been. */
  datatype Taken = Taken(origin: Option<Received>, at: nat)

  /** What a callback that takes effect adds to the log of the feed. */
  function LogEffect(cb: Callback, t: Topics, side: set<string>, s: Standing, ready: bool, v: Verdicts): seq<Entry> {
    match cb
    case Lost(_, _) => [Cleared]
    case Begun(_, _) => [Cleared]
    case SubscriptionFailed(_) => [Cleared]
    case Suback(_, _, granted, _) => if granted then Handover(t, s.buffer, v) else [Cleared]
    case Message(_, pub, _) => Delivery(t, side, s, ready, pub, v)
    case Malformed(_, _) => []
  }

  function Tags(n: nat, tag: Taken): seq<Taken> {
    seq(n, _ => tag)
  }

  // ---- One connection ---------------------------------------------------------------------------

  /** No connection event of that client since. */
  predicate Quiet(events: seq<nat>, since: nat, c: nat) {
    since <= |events| && forall i :: since <= i < |events| ==> events[i] != c
  }

  predicate IsOfConnection(r: Received, c: nat, generation: nat) {
    !r.callback.SubscriptionFailed? && r.callback.client == c && r.callback.generation == generation
  }

  /** From the receipt of the first callback to the effect of the second, their client had no
      connection event, and both carry the same generation. */
  predicate OneConnection(a: Taken, b: Taken, events: seq<nat>) {
    && a.origin.Some? && b.origin.Some? && !b.origin.value.callback.SubscriptionFailed?
    && IsOfConnection(a.origin.value, b.origin.value.callback.client, b.origin.value.callback.generation)
    && a.origin.value.since <= b.at <= |events| && Quiet(events[..b.at], a.origin.value.since, b.origin.value.callback.client)
  }

  predicate MadeBy(e: Entry, tag: Taken) {
    match e
    case Cleared => true
    case Buffered(pub) => tag.origin.Some? && tag.origin.value.callback.Message? && tag.origin.value.callback.pub == pub
    case Live(pub, _) => tag.origin.Some? && tag.origin.value.callback.Message? && tag.origin.value.callback.pub == pub
    case Side(pub, _) => tag.origin.Some? && tag.origin.value.callback.Message? && tag.origin.value.callback.pub == pub
    case _ => tag.origin.Some? && (tag.origin.value.callback.Message? || tag.origin.value.callback.Suback?)
  }

  predicate Joined(log: seq<Entry>, trace: seq<Taken>, events: seq<nat>, i: nat, j: nat)
    requires i <= j < |log| == |trace|
  {
    log[j] != Cleared && SameSession(log, i, j) ==> OneConnection(trace[i], trace[j], events)
  }

  /** The entry is of one connection with everything before it in its session. */
  ghost predicate EntryIsFenced(log: seq<Entry>, trace: seq<Taken>, events: seq<nat>, j: nat)
    requires j < |log| == |trace|
  {
    MadeBy(log[j], trace[j]) && forall i :: 0 <= i <= j ==> Joined(log, trace, events, i, j)
  }

  ghost predicate HistoryIsFenced(log: seq<Entry>, trace: seq<Taken>, events: seq<nat>) {
    |log| == |trace| && forall j :: 0 <= j < |log| ==> EntryIsFenced(log, trace, events, j)
  }

  /** An entry of the present session: made by a callback of the connection begun last, which is
      unbroken if it is still the newest. */
  predicate TagIsLive(tag: Taken, client: Option<nat>, active: nat, current: nat, events: seq<nat>) {
    && tag.origin.Some? && client.Some? && IsOfConnection(tag.origin.value, client.value, active)
    && tag.origin.value.since <= |events| && (active == current ==> Quiet(events, tag.origin.value.since, client.value))
  }

  predicate EntryIsLive(log: seq<Entry>, trace: seq<Taken>, client: Option<nat>, active: nat, current: nat, events: seq<nat>, i: nat)
    requires i < |log| == |trace|
  {
    SameSession(log, i, |log|) ==> TagIsLive(trace[i], client, active, current, events)
  }

  ghost predicate SessionIsLive(log: seq<Entry>, trace: seq<Taken>, client: Option<nat>, active: nat, current: nat, events: seq<nat>)
    requires |log| == |trace|
  {
    forall i :: 0 <= i < |log| ==> EntryIsLive(log, trace, client, active, current, events, i)
  }

  /** What comes later does not change how an entry stands to those before it. */
  lemma EntryStaysFenced(log: seq<Entry>, trace: seq<Taken>, events: seq<nat>, e: Entry, tag: Taken, j: nat)
    requires j < |log| == |trace| && EntryIsFenced(log, trace, events, j)
    ensures EntryIsFenced(log + [e], trace + [tag], events, j)
  {
    forall i | 0 <= i <= j ensures Joined(log + [e], trace + [tag], events, i, j) {
      assert Joined(log, trace, events, i, j);
      assert forall k :: i <= k < j ==> log[k] == (log + [e])[k];
    }
  }

  lemma HistoryAppended(log: seq<Entry>, trace: seq<Taken>, events: seq<nat>, e: Entry, tag: Taken)
    requires HistoryIsFenced(log, trace, events) && EntryIsFenced(log + [e], trace + [tag], events, |log|)
    ensures HistoryIsFenced(log + [e], trace + [tag], events)
  {
    forall j | 0 <= j <= |log| ensures EntryIsFenced(log + [e], trace + [tag], events, j) {
      if j < |log| {
        assert EntryIsFenced(log, trace, events, j);
        EntryStaysFenced(log, trace, events, e, tag, j);
      }
    }
  }

  /** An entry of the live connection keeps the history fenced. */
  lemma EntryAppended(log: seq<Entry>, trace: seq<Taken>, e: Entry, tag: Taken, client: Option<nat>, current: nat, events: seq<nat>)
    requires HistoryIsFenced(log, trace, events) && SessionIsLive(log, trace, client, current, current, events)
    requires e != Cleared && MadeBy(e, tag) && tag.at == |events| && TagIsLive(tag, client, current, current, events)
    ensures HistoryIsFenced(log + [e], trace + [tag], events)
    ensures SessionIsLive(log + [e], trace + [tag], client, current, current, events)
  {
    var n, log', trace' := |log|, log + [e], trace + [tag];
    assert events[..|events|] == events;
    forall i | 0 <= i <= n && SameSession(log', i, n) ensures TagIsLive(trace'[i], client, current, current, events) {
      if i < n {
        assert forall k :: i <= k < n ==> log[k] == log'[k];
        assert EntryIsLive(log, trace, client, current, current, events, i);
      }
    }
    forall i | 0 <= i <= n ensures Joined(log', trace', events, i, n) && EntryIsLive(log', trace', client, current, current, events, i) {
      assert SameSession(log', i, n + 1) ==> SameSession(log', i, n);
    }
    HistoryAppended(log, trace, events, e, tag);
  }

  lemma ClearedAppended(log: seq<Entry>, trace: seq<Taken>, tag: Taken, client: Option<nat>, active: nat, current: nat, events: seq<nat>)
    requires HistoryIsFenced(log, trace, events)
    ensures HistoryIsFenced(log + [Cleared], trace + [tag], events)
    ensures SessionIsLive(log + [Cleared], trace + [tag], client, active, current, events)
  {
    var n, log', trace' := |log|, log + [Cleared], trace + [tag];
    assert EntryIsFenced(log', trace', events, n) by {
      forall i | 0 <= i <= n ensures Joined(log', trace', events, i, n) {}
    }
    HistoryAppended(log, trace, events, Cleared, tag);
    forall i | 0 <= i <= n ensures EntryIsLive(log', trace', client, active, current, events, i) {
      assert log'[n] == Cleared;
    }
  }

  lemma {:induction false} EntriesAppended(log: seq<Entry>, trace: seq<Taken>, effect: seq<Entry>, tag: Taken, client: Option<nat>, current: nat, events: seq<nat>)
    requires HistoryIsFenced(log, trace, events) && SessionIsLive(log, trace, client, current, current, events)
    requires forall k :: 0 <= k < |effect| ==> effect[k] != Cleared && MadeBy(effect[k], tag)
    requires tag.at == |events| && TagIsLive(tag, client, current, current, events)
    ensures HistoryIsFenced(log + effect, trace + Tags(|effect|, tag), events)
    ensures SessionIsLive(log + effect, trace + Tags(|effect|, tag), client, current, current, events)
  {
    if effect == [] {
      assert log + effect == log && trace + Tags(0, tag) == trace;
    } else {
      var n := |effect| - 1;
      EntriesAppended(log, trace, effect[..n], tag, client, current, events);
      EntryAppended(log + effect[..n], trace + Tags(n, tag), effect[n], tag, client, current, events);
      assert log + effect[..n] + [effect[n]] == log + effect;
      assert trace + Tags(n, tag) + [tag] == trace + Tags(|effect|, tag);
    }
  }

  lemma EffectIsMade(cb: Callback, t: Topics, side: set<string>, s: Standing, ready: bool, v: Verdicts, tag: Taken)
    requires cb.Message? || (cb.Suback? && cb.ready)
    requires tag.origin.Some? && tag.origin.value.callback == cb
    ensures var effect := LogEffect(cb, t, side, s, ready, v);
      forall k :: 0 <= k < |effect| ==> effect[k] != Cleared && MadeBy(effect[k], tag)
  {
  }

  /** A callback that passes its guard keeps the history fenced. */
  lemma EffectAppended(log: seq<Entry>, trace: seq<Taken>, r: Received, t: Topics, side: set<string>, s: Standing, ready: bool, v: Verdicts,
                       client: Option<nat>, active: nat, current: nat, events: seq<nat>)
    requires HistoryIsFenced(log, trace, events) && SessionIsLive(log, trace, client, active, current, events)
    requires r.callback.Message? || (r.callback.Suback? && r.callback.ready) ==>
      active == current && TagIsLive(Taken(Some(r), |events|), client, current, current, events)
    ensures var effect := LogEffect(r.callback, t, side, s, ready, v);
      var later := trace + Tags(|effect|, Taken(Some(r), |events|));
      && HistoryIsFenced(log + effect, later, events)
      && SessionIsLive(log + effect, later, client, if r.callback.Begun? then r.callback.generation else active, current, events)
  {
    var tag, effect := Taken(Some(r), |events|), LogEffect(r.callback, t, side, s, ready, v);
    if r.callback.Message? || (r.callback.Suback? && r.callback.ready) {
      EffectIsMade(r.callback, t, side, s, ready, v, tag);
      EntriesAppended(log, trace, effect, tag, client, current, events);
    } else if r.callback.Malformed? {
      assert log + effect == log && trace + Tags(0, tag) == trace;
    } else {
      ClearedAppended(log, trace, tag, client, if r.callback.Begun? then r.callback.generation else active, current, events);
      assert Tags(1, tag) == [tag];
    }
  }

  /** Later connection events do not change what was of one connection. */
  lemma HistoryStays(log: seq<Entry>, trace: seq<Taken>, events: seq<nat>, c: nat)
    requires HistoryIsFenced(log, trace, events)
    ensures HistoryIsFenced(log, trace, events + [c])
  {
    forall j | 0 <= j < |log| ensures EntryIsFenced(log, trace, events + [c], j) {
      assert EntryIsFenced(log, trace, events, j);
      forall i | 0 <= i <= j ensures Joined(log, trace, events + [c], i, j) {
        assert Joined(log, trace, events, i, j);
        if log[j] != Cleared && SameSession(log, i, j) {
          assert (events + [c])[..trace[j].at] == events[..trace[j].at];
        }
      }
    }
  }

  /** After a counted event the present session is no longer the newest connection; without a client
      there is no present session. */
  lemma SessionAfterEvent(log: seq<Entry>, trace: seq<Taken>, client: Option<nat>, active: nat, current: nat, later: nat, events: seq<nat>, c: nat)
    requires |log| == |trace| && SessionIsLive(log, trace, client, active, current, events)
    requires client.None? || active < later
    ensures SessionIsLive(log, trace, client, active, later, events + [c])
  {
    forall i | 0 <= i < |log| ensures EntryIsLive(log, trace, client, active, later, events + [c], i) {
      assert EntryIsLive(log, trace, client, active, current, events, i);
    }
  }

  lemma NoClientNoSession(log: seq<Entry>, trace: seq<Taken>, client: Option<nat>, active: nat, current: nat, events: seq<nat>)
    requires |log| == |trace| && SessionIsLive(log, trace, None, active, current, events)
    ensures SessionIsLive(log, trace, client, active, current, events)
  {
    forall i | 0 <= i < |log| ensures EntryIsLive(log, trace, client, active, current, events, i) {
      assert EntryIsLive(log, trace, None, active, current, events, i);
    }
  }

  // ---- What a fenced history says ---------------------------------------------------------------

  /** Two entries of one session are of one connection, wherever in the log they are. */
  lemma FencedEntry(log: seq<Entry>, trace: seq<Taken>, events: seq<nat>, i: nat, j: nat)
    requires HistoryIsFenced(log, trace, events) && i <= j < |log| && SameSession(log, i, j)
    ensures MadeBy(log[j], trace[j]) && (log[j] != Cleared ==> OneConnection(trace[i], trace[j], events))
  {
    assert EntryIsFenced(log, trace, events, j) && Joined(log, trace, events, i, j);
  }

  /** The publication of this topic in a bootstrap set was received, and put aside, on the very
      connection on which the set is handed over. */
  ghost predicate IsSourceOf(log: seq<Entry>, trace: seq<Taken>, events: seq<nat>, i: nat, j: nat, topic: string)
    requires i < j < |log| == |trace| && log[j].IsSet() && topic in log[j].pubs
  {
    && SameSession(log, i, j) && log[i] == Buffered(log[j].pubs[topic]) && Untouched(log, topic, i + 1, j)
    && OneConnection(trace[i], trace[j], events) && MadeBy(log[i], trace[i])
  }

  lemma SetIsOfOneConnection(log: seq<Entry>, trace: seq<Taken>, events: seq<nat>, t: Topics, j: nat, topic: string) returns (i: nat)
    requires WellOrdered(log, t) && HistoryIsFenced(log, trace, events)
    requires j < |log| && log[j].IsSet() && topic in log[j].pubs
    ensures i < j && IsSourceOf(log, trace, events, i, j, topic)
  {
    i := BootstrapHoldsTheLatest(log, t, j, topic);
    FencedEntry(log, trace, events, i, j);
    FencedEntry(log, trace, events, i, i);
  }

  /** The bootstrap that lets a publication through live was accepted on the connection on which the
      publication was received. */
  lemma LiveIsOfOneConnection(log: seq<Entry>, trace: seq<Taken>, events: seq<nat>, t: Topics, j: nat) returns (i: nat)
    requires WellOrdered(log, t) && HistoryIsFenced(log, trace, events)
    requires j < |log| && log[j].Live? && log[j].pub.qos == 1 && log[j].pub.topic in t.Primary()
    ensures i < j && Establishes(log[i], log[j].pub.topic in t.SemanticSet())
    ensures OneConnection(trace[i], trace[j], events) && MadeBy(log[j], trace[j])
  {
    i := LiveComesAfterBootstrap(log, t, j);
    FencedEntry(log, trace, events, i, j);
  }

  ghost predicate SetsAreOfOneConnection(log: seq<Entry>, trace: seq<Taken>, events: seq<nat>)
    requires |log| == |trace|
  {
    forall j, topic :: 0 <= j < |log| && log[j].IsSet() && topic in log[j].pubs ==>
      exists i :: 0 <= i < j && IsSourceOf(log, trace, events, i, j, topic)
  }

  /** All sets of a whole run. */
  lemma FencedSets(log: seq<Entry>, trace: seq<Taken>, events: seq<nat>, t: Topics)
    requires WellOrdered(log, t) && HistoryIsFenced(log, trace, events)
    ensures SetsAreOfOneConnection(log, trace, events)
  {
    forall j, topic | 0 <= j < |log| && log[j].IsSet() && topic in log[j].pubs
      ensures exists i :: 0 <= i < j && IsSourceOf(log, trace, events, i, j, topic)
    {
      var i := SetIsOfOneConnection(log, trace, events, t, j, topic);
    }
  }

  // ---- Reports of a refused subscription --------------------------------------------------------

  /** The report is about a connection that was begun before the present one. */
  predicate IsStale(r: Received, active: nat) {
    r.callback.SubscriptionFailed? && active != r.active
  }

  predicate BegunsUpTo(queue: seq<Received>, g: nat) {
    queue != [] ==> (queue[0].callback.Begun? ==> queue[0].callback.generation <= g) && BegunsUpTo(queue[1..], g)
  }

  /** Whenever a report is queued, the connection begun last is the one it is about, or the one that
      was the newest when the report was made. */
  predicate ReportsKnow(queue: seq<Received>, active: nat, current: nat) {
    queue != [] ==>
      var n := |queue| - 1;
      && ReportsKnow(queue[..n], active, current)
      && (queue[n].callback.SubscriptionFailed? ==>
            && (active == queue[n].active || active == queue[n].newest)
            && queue[n].newest <= current && BegunsUpTo(queue[..n], queue[n].newest))
  }

  lemma {:induction false} ReportsKnowLater(queue: seq<Received>, active: nat, current: nat)
    requires ReportsKnow(queue, active, current)
    ensures ReportsKnow(queue, active, current + 1)
  {
    if queue != [] {
      ReportsKnowLater(queue[..|queue| - 1], active, current);
    }
  }

  lemma {:induction false} ReportsKnowNext(queue: seq<Received>, active: nat, current: nat)
    requires ReportsKnow(queue, active, current) && queue != []
    ensures ReportsKnow(queue[1..], active, current)
    ensures queue[0].callback.Begun? && queue[0].callback.generation == current ==> ReportsKnow(queue[1..], current, current)
  {
    var n := |queue| - 1;
    if n > 0 {
      ReportsKnowNext(queue[..n], active, current);
      assert queue[..n][1..] == queue[1..][..n - 1];
      assert queue[1..][n - 1] == queue[n] && queue[..n][0] == queue[0];
    }
  }

  lemma ReportsKnowQueued(queue: seq<Received>, r: Received, active: nat, current: nat)
    requires ReportsKnow(queue, active, current)
    requires r.callback.SubscriptionFailed? ==> r.active == active && r.newest == current && BegunsUpTo(queue, current)
    ensures ReportsKnow(queue + [r], active, current)
  {
    assert (queue + [r])[..|queue|] == queue;
  }

  lemma {:induction false} HeadReportKnows(queue: seq<Received>, active: nat, current: nat)
    requires ReportsKnow(queue, active, current) && queue != [] && queue[0].callback.SubscriptionFailed?
    ensures active == queue[0].active || active == queue[0].newest
  {
    if |queue| > 1 {
      HeadReportKnows(queue[..|queue| - 1], active, current);
    }
  }

  /** The loop has been told that a subscription of this client, asked for on this connection,
      failed. */
  predicate ReportQueued(queue: seq<Received>, c: nat, active: nat) {
    queue != [] && ((queue[0].callback == SubscriptionFailed(c) && queue[0].active == active) || ReportQueued(queue[1..], c, active))
  }

  lemma {:induction false} ReportStaysQueued(queue: seq<Received>, r: Received, c: nat, active: nat)
    requires ReportQueued(queue, c, active) || (r.callback == SubscriptionFailed(c) && r.active == active)
    ensures ReportQueued(queue + [r], c, active)
  {
    if queue != [] {
      assert (queue + [r])[1..] == queue[1..] + [r];
      if queue[0].callback != SubscriptionFailed(c) || queue[0].active != active {
        ReportStaysQueued(queue[1..], r, c, active);
      }
    }
  }

  /** No report about this client at all. */
  predicate NoReport(queue: seq<Received>, c: nat) {
    queue != [] ==> queue[0].callback != SubscriptionFailed(c) && NoReport(queue[1..], c)
  }

  predicate Answers(r: Received, mid: int) {
    r.callback.Suback? && r.callback.mid == Some(mid)
  }

  /** Nothing in the queue answers this message id yet. */
  predicate IsFresh(queue: seq<Received>, mid: int) {
    queue != [] ==> !Answers(queue[0], mid) && IsFresh(queue[1..], mid)
  }

  /** Behind an answer to this message id there is no report. */
  predicate NoReportBehind(queue: seq<Received>, c: nat, mid: int) {
    queue != [] ==> (Answers(queue[0], mid) ==> NoReport(queue[1..], c)) && NoReportBehind(queue[1..], c, mid)
  }

  lemma {:induction false} NoReportJoins(queue: seq<Received>, r: Received, c: nat)
    requires NoReport(queue, c) && r.callback != SubscriptionFailed(c)
    ensures NoReport(queue + [r], c)
  {
    if queue != [] {
      NoReportJoins(queue[1..], r, c);
      assert (queue + [r])[1..] == queue[1..] + [r];
    }
  }

  lemma {:induction false} NoReportJoinsBehind(queue: seq<Received>, r: Received, c: nat, mid: int)
    requires NoReportBehind(queue, c, mid) && r.callback != SubscriptionFailed(c)
    ensures NoReportBehind(queue + [r], c, mid)
  {
    if queue != [] {
      NoReportJoinsBehind(queue[1..], r, c, mid);
      assert (queue + [r])[1..] == queue[1..] + [r];
      if Answers(queue[0], mid) {
        NoReportJoins(queue[1..], r, c);
      }
    }
  }

  lemma {:induction false} FreshHasNothingBehind(queue: seq<Received>, c: nat, mid: int)
    requires IsFresh(queue, mid)
    ensures NoReportBehind(queue, c, mid)
  {
    if queue != [] {
      FreshHasNothingBehind(queue[1..], c, mid);
    }
  }
}
