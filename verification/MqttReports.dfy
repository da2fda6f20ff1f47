/** The report of a refused subscription (local_mqtt.py lines 276 to 293 and 511 to 515): the only
    callback without a generation, so that it may run on a later connection than the one it is about.
    When it is stale, and what it can undo then. */
module MqttReports {
  import opened Wrappers
  import opened MqttFeed
  import opened MqttTrace
  import opened MqttSubscriber

  /** When the loop comes to a report, it is stale if and only if the network thread had counted a
      newer connection when it was made and that very connection has been begun since.  A stale report
      takes no retry away: one is scheduled, or the present connection's own report is queued behind
      it and finds the one it schedules.  And if message ids are new, neither a stale nor any other
      report finds a subscription to undo. */
  lemma ReportsTurn(s: LocalPilotMqttSubscriber)
    requires s.Valid() && s.queue != [] && s.queue[0].callback.SubscriptionFailed?
    ensures var r := s.queue[0];
      IsStale(r, s.activeGeneration) <==> r.active != r.newest && s.activeGeneration == r.newest
    ensures s.Passes(s.queue[0].callback) && s.freshIds ==> !s.subscriptionsReady
    ensures s.Passes(s.queue[0].callback) && IsStale(s.queue[0], s.activeGeneration) && !s.subscriptionsReady ==>
      s.retryHandle.Some? || ReportQueued(s.queue[1..], s.client.value, s.activeGeneration)
  {
    HeadReportKnows(s.queue, s.activeGeneration, s.callbackGeneration);
  }

  const NONE := Verdicts(false, false, false, false)

  /** The client 0 is the live one, the newest connection is `newest`, and the loop is as given. */
  ghost predicate Stands(s: LocalPilotMqttSubscriber, newest: nat, loop: LoopState)
    reads s, s.feed
  {
    && s.Valid() && s.KeepsNothing() && s.client == Some(0) && s.inHand.None?
    && s.callbackGeneration == newest && s.State() == loop
  }

  /** The client connects or loses its connection, and the loop is told. */
  method Connection(s: LocalPilotMqttSubscriber, success: bool, ghost loop: LoopState)
    requires Stands(s, s.callbackGeneration, loop)
    modifies s
    ensures var g := old(s.callbackGeneration) + 1;
      Stands(s, g, loop.(queue := loop.queue
        + [Received(if success then Begun(0, g) else Lost(0, g), |old(s.events)| + 1, loop.active, g)]))
  {
    s.OnConnection(0, success);
    s.HandOff();
  }

  /** The loop runs the next callback. */
  method Turn(s: LocalPilotMqttSubscriber, outcome: SubscribeOutcome, ghost loop: LoopState)
    requires Stands(s, s.callbackGeneration, loop) && loop.queue != [] && s.Passes(loop.queue[0].callback)
    modifies s, s.feed
    ensures Stands(s, old(s.callbackGeneration),
      After(loop.(queue := loop.queue[1..]), loop.queue[0].callback, outcome, |s.events|, s.callbackGeneration))
    ensures s.events == old(s.events)
  {
    s.RunNext(outcome, NONE);
  }

  method Fresh(feed: ProviderFeed) returns (s: LocalPilotMqttSubscriber)
    requires feed.Valid() && feed.Closed() && feed.log == []
    ensures fresh(s) && s.feed == feed && s.filters == 1 && Stands(s, 0, LoopState(0, false, None, None, 300, false, [], true))
  {
    s := new LocalPilotMqttSubscriber(feed, 1);
    s.Start(true);
  }

  /** Connected, with the first subscription asked for as message 1 and unanswered. */
  method Connected(feed: ProviderFeed) returns (s: LocalPilotMqttSubscriber)
    requires feed.Valid() && feed.Closed() && feed.log == []
    modifies feed
    ensures fresh(s) && s.feed == feed && s.filters == 1 && Stands(s, 1, LoopState(1, true, Some(1), Some(Timer(300, 0)), 600, false, [], true))
  {
    s := Fresh(feed);
    Connection(s, true, s.State());
    Turn(s, Accepted(1), s.State());
  }

  /** The loop passes over a callback whose connection is gone. */
  method Skip(s: LocalPilotMqttSubscriber, ghost loop: LoopState)
    requires Stands(s, s.callbackGeneration, loop) && loop.queue != [] && !s.Passes(loop.queue[0].callback)
    modifies s, s.feed
    ensures Stands(s, old(s.callbackGeneration), loop.(queue := loop.queue[1..])) && s.events == old(s.events)
  {
    s.RunNext(Raised, NONE);
  }

  method Timeout(s: LocalPilotMqttSubscriber, outcome: SubscribeOutcome, ghost loop: LoopState)
    requires Stands(s, s.callbackGeneration, loop) && loop.retry.Some?
    modifies s
    ensures Stands(s, old(s.callbackGeneration),
      Asked(loop.(retry := None, mid := None), 0, outcome, |s.events|, s.callbackGeneration))
    ensures s.events == old(s.events)
  {
    s.RetrySubscription(outcome);
  }

  /** The broker grants a subscription. */
  method Grant(s: LocalPilotMqttSubscriber, mid: int, ghost loop: LoopState)
    requires Stands(s, s.callbackGeneration, loop) && s.filters == 1
    modifies s
    ensures Stands(s, old(s.callbackGeneration), loop.(queue := loop.queue
      + [Received(Suback(0, Some(mid), true, s.callbackGeneration), |s.events|, loop.active, s.callbackGeneration)]))
  {
    s.OnSubscribe(0, Some(mid), [Some(1)]);
    s.HandOff();
  }

  /** The timer fires while a lost and a new connection are queued, and the client refuses. */
  method RefusedInBetween(feed: ProviderFeed) returns (s: LocalPilotMqttSubscriber)
    requires feed.Valid() && feed.Closed() && feed.log == []
    modifies feed
    ensures fresh(s) && s.feed == feed && Stands(s, 3, LoopState(1, true, None, None, 600, false, s.queue, true))
    ensures |s.queue| == 3 && s.queue[0].callback == Lost(0, 2) && s.queue[1].callback == Begun(0, 3)
    ensures s.queue[2].callback == SubscriptionFailed(0) && s.queue[2].active == 1
  {
    s := Connected(feed);
    Connection(s, false, s.State());
    Connection(s, true, s.State());
    Timeout(s, Refused, s.State());
  }

  /** Then the report comes to its turn on the new connection, whose own request it leaves as it is. */
  method AStaleReport(feed: ProviderFeed) returns (s: LocalPilotMqttSubscriber)
    requires feed.Valid() && feed.Closed() && feed.log == []
    modifies feed
    ensures s.Valid() && s.freshIds && s.queue != []
    ensures s.Passes(s.queue[0].callback) && IsStale(s.queue[0], s.activeGeneration)
    ensures s.connected && s.activeGeneration == 3 && s.subscriptionMid == Some(2) && s.retryHandle == Some(Timer(300, 0))
  {
    s := RefusedInBetween(feed);
    ghost var report := s.queue[2];
    Skip(s, s.State());
    assert s.queue[1..] == [report] && [report][1..] == [];
    assert IsFresh([report], 2);
    Turn(s, Accepted(2), s.State());
  }

  /** If an answer to a message id is queued before the id is given, a stale report can find the
      subscription established, and undo it. */
  method AnEarlyAnswer(feed: ProviderFeed) returns (s: LocalPilotMqttSubscriber)
    requires feed.Valid() && feed.Closed() && feed.log == []
    modifies feed
    ensures s.Valid() && !s.freshIds && s.queue != [] && s.subscriptionsReady
    ensures s.Passes(s.queue[0].callback) && IsStale(s.queue[0], s.activeGeneration)
  {
    s := Connected(feed);
    Connection(s, true, s.State());
    Grant(s, 2, s.State());
    Timeout(s, Refused, s.State());
    Turn(s, Accepted(2), s.State());
    Turn(s, Raised, s.State());
  }
}
