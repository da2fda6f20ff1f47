/** The dedicated local MQTT subscriber (local_mqtt.py).

    Two threads act on one object.  The network thread counts connections and turns what it receives
    into callbacks; it hands a callback to the event loop in a separate step, so the loop may run in
    between.  The loop runs the queued callbacks one at a time, in order, and the retry timer. */
module MqttSubscriber {
  import opened Wrappers
  import opened MqttLog
  import opened MqttFeed
  import opened MqttTrace
  import opened MqttDelivery

  const RECONNECT_MIN_SECONDS := 300
  const RECONNECT_MAX_SECONDS := 1800

  datatype Timer = Timer(delay: nat, client: nat)

  /** What the client's subscribe call does: it raises, reports an error, or gives a message id. */
  datatype SubscribeOutcome = Raised | Refused | Accepted(mid: int)

  /** Section 3.9.3 of MQTT 3.1.1: one return code per topic filter, 1 meaning granted at QoS 1. */
  predicate AllGranted(codes: seq<Option<int>>, filters: nat) {
    |codes| == filters && forall i :: 0 <= i < |codes| ==> codes[i] == Some(1)
  }

  /** One step of either thread, of the loop's clock, or of the caller. */
  datatype Move =
    | Connects(client: nat, success: bool)
    | Grants(client: nat, mid: Option<int>, codes: seq<Option<int>>)
    | Sends(client: nat, message: Option<Publication>)
    | HandsOff
    | RunsNext(outcome: SubscribeOutcome, verdicts: Verdicts)
    | TimerFires(outcome: SubscribeOutcome)
    | Starts(works: bool)
    | Stops

  function Doubled(seconds: nat): nat {
    if seconds * 2 <= RECONNECT_MAX_SECONDS then seconds * 2 else RECONNECT_MAX_SECONDS
  }

  // ---- What a callback does to the loop's state ------------------------------------------------

  /** The connection begun last, whether it stands, the answer and the retry that are waited for, the
      next pause, whether the subscription stands, what is queued, and whether ids were new. */
  datatype LoopState = LoopState(
    active: nat, connected: bool, mid: Option<int>, retry: Option<Timer>, seconds: nat, ready: bool,
    queue: seq<Received>, freshIds: bool)

  function Ended(s: LoopState): LoopState {
    s.(connected := false, mid := None, retry := None, ready := false)
  }

  function Begins(s: LoopState, generation: nat): LoopState {
    s.(active := generation, connected := true, mid := None, retry := None, seconds := RECONNECT_MIN_SECONDS, ready := false)
  }

  function Asked(s: LoopState, c: nat, outcome: SubscribeOutcome, since: nat, newest: nat): LoopState {
    if outcome.Accepted? then
      s.(mid := Some(outcome.mid), retry := Some(Timer(s.seconds, c)), seconds := Doubled(s.seconds),
         freshIds := s.freshIds && IsFresh(s.queue, outcome.mid))
    else
      s.(mid := None, queue := s.queue + [Received(SubscriptionFailed(c), since, s.active, newest)])
  }

  function Answered(s: LoopState, granted: bool): LoopState {
    if granted then s.(mid := None, retry := None, seconds := RECONNECT_MIN_SECONDS, ready := true)
    else s.(mid := None, ready := false)
  }

  function Failed(s: LoopState, c: nat): LoopState {
    if s.retry.Some? then s.(ready := false)
    else s.(ready := false, retry := Some(Timer(s.seconds, c)), seconds := Doubled(s.seconds))
  }

  /** What a callback that takes effect makes of the loop's state. */
  function After(s: LoopState, cb: Callback, outcome: SubscribeOutcome, since: nat, newest: nat): LoopState {
    match cb
    case Lost(_, _) => Ended(s)
    case Begun(c, generation) => Asked(Begins(s, generation), c, outcome, since, newest)
    case Suback(_, _, granted, _) => Answered(s, granted)
    case Message(_, _, _) => s
    case Malformed(_, _) => s
    case SubscriptionFailed(c) => Failed(s, c)
  }

  // ---- Generations ------------------------------------------------------------------------------

  /** If the callback still passes the generation and client checks, its connection is unbroken since
      it was received. */
  predicate Fenced(r: Received, client: Option<nat>, clients: nat, generation: nat, events: seq<nat>) {
    var cb := r.callback;
    !cb.SubscriptionFailed? ==>
      && cb.generation <= generation && cb.client < clients && r.since <= |events|
      && (cb.generation == generation && Some(cb.client) == client ==> Quiet(events, r.since, cb.client))
  }

  predicate AllFenced(queue: seq<Received>, client: Option<nat>, clients: nat, generation: nat, events: seq<nat>) {
    queue != [] ==>
      && Fenced(queue[0], client, clients, generation, events)
      && AllFenced(queue[1..], client, clients, generation, events)
  }

  /** A counted connection event makes every callback received before it stale. */
  lemma {:induction false} CountedEventFences(queue: seq<Received>, client: Option<nat>, clients: nat, generation: nat, events: seq<nat>, c: nat)
    requires AllFenced(queue, client, clients, generation, events)
    ensures AllFenced(queue, client, clients, generation + 1, events + [c])
  {
    if queue != [] {
      CountedEventFences(queue[1..], client, clients, generation, events, c);
    }
  }

  /** An event while there is no client breaks no connection. */
  lemma {:induction false} IdleEventFences(queue: seq<Received>, clients: nat, generation: nat, events: seq<nat>, c: nat)
    requires AllFenced(queue, None, clients, generation, events)
    ensures AllFenced(queue, None, clients, generation, events + [c])
  {
    if queue != [] {
      IdleEventFences(queue[1..], clients, generation, events, c);
    }
  }

  /** No callback at hand comes from a client made later, and none from one that is gone passes. */
  lemma {:induction false} NewClientFences(queue: seq<Received>, client: Option<nat>, clients: nat, generation: nat, events: seq<nat>)
    requires AllFenced(queue, client, clients, generation, events)
    ensures AllFenced(queue, Some(clients), clients + 1, generation, events)
    ensures AllFenced(queue, None, clients, generation, events)
    ensures AllFenced(queue, None, clients + 1, generation, events)
  {
    if queue != [] {
      NewClientFences(queue[1..], client, clients, generation, events);
    }
  }

  lemma {:induction false} EnqueuedIsFenced(queue: seq<Received>, client: Option<nat>, clients: nat, generation: nat, events: seq<nat>, r: Received)
    requires AllFenced(queue, client, clients, generation, events) && Fenced(r, client, clients, generation, events)
    ensures AllFenced(queue + [r], client, clients, generation, events)
  {
    if queue == [] {
      assert [r][1..] == [];
      assert queue + [r] == [r];
    } else {
      EnqueuedIsFenced(queue[1..], client, clients, generation, events, r);
      assert (queue + [r])[1..] == queue[1..] + [r];
    }
  }

  /** No connection in the queue is newer than the newest counted. */
  lemma {:induction false} FencedBeguns(queue: seq<Received>, client: Option<nat>, clients: nat, generation: nat, events: seq<nat>)
    requires AllFenced(queue, client, clients, generation, events)
    ensures BegunsUpTo(queue, generation)
  {
    if queue != [] {
      FencedBeguns(queue[1..], client, clients, generation, events);
    }
  }

  class LocalPilotMqttSubscriber {
    const feed: ProviderFeed
    const filters: nat

    var client: Option<nat>
    var callbackGeneration: nat
    var activeGeneration: nat
    var connected: bool
    var subscriptionMid: Option<int>
    var retryHandle: Option<Timer>
    var retrySeconds: nat
    var subscriptionsReady: bool
    var stopping: bool

    // The event loop, the network thread, and how many clients were ever made.
    var queue: seq<Received>
    var timers: multiset<Timer>
    var inHand: Option<Received>
    var clients: nat

    // Every connection event so far, by client; what the log of the feed came of; and whether every
    // message id a subscription was given was new to the answers in the queue.
    var events: seq<nat>
    ghost var trace: seq<Taken>
    ghost var freshIds: bool

    // ---- What always holds --------------------------------------------------------------------

    ghost predicate ReadinessIsLayered()
      reads this`stopping, this`client, this`clients, this`connected, this`subscriptionsReady, feed
    {
      && (stopping ==> client.None?)
      && (client.Some? ==> client.value < clients)
      && (connected ==> client.Some?)
      && (subscriptionsReady ==> connected)
      && (!subscriptionsReady ==> feed.Closed())
    }

    /** The loop's timers are the handle. */
    ghost predicate OneTimer()
      reads this`timers, this`retryHandle
    {
      timers == if retryHandle.Some? then multiset{retryHandle.value} else multiset{}
    }

    /** At most one retry is scheduled, for the live connection and within the bounds; a subscription
        that is waited for has one, and an established one has none. */
    ghost predicate RetryIsSingle()
      reads this`timers, this`retryHandle, this`retrySeconds, this`subscriptionMid, this`subscriptionsReady, this`connected, this`client
    {
      && OneTimer()
      && RECONNECT_MIN_SECONDS <= retrySeconds <= RECONNECT_MAX_SECONDS
      && (subscriptionsReady ==> retryHandle.None?)
      && (subscriptionMid.Some? ==> retryHandle.Some?)
      && (retryHandle.Some? ==>
            && connected && Some(retryHandle.value.client) == client
            && RECONNECT_MIN_SECONDS <= retryHandle.value.delay <= RECONNECT_MAX_SECONDS)
    }

    /** A connection without a subscription has a retry ahead of it, or the report that its own
        subscription was refused. */
    ghost predicate NeverStuck()
      reads this`connected, this`client, this`subscriptionsReady, this`retryHandle, this`queue, this`activeGeneration
    {
      connected && client.Some? && !subscriptionsReady ==> retryHandle.Some? || ReportQueued(queue, client.value, activeGeneration)
    }

    ghost predicate ReportsTell()
      reads this`queue, this`activeGeneration, this`callbackGeneration
    {
      ReportsKnow(queue, activeGeneration, callbackGeneration)
    }

    /** If message ids are new, no report is queued behind the answer that is waited for, nor while the
        subscription is established. */
    ghost predicate AnswersAreFresh()
      reads this`freshIds, this`client, this`queue, this`subscriptionsReady, this`subscriptionMid
    {
      freshIds && client.Some? ==>
        && (subscriptionsReady ==> NoReport(queue, client.value))
        && (subscriptionMid.Some? ==> NoReportBehind(queue, client.value, subscriptionMid.value))
    }

    /** The log came of callbacks of unbroken connections, and what is in its present session of the
        connection begun last. */
    ghost predicate Traced()
      reads this`trace, this`client, this`activeGeneration, this`callbackGeneration, this`events, feed`log
    {
      && activeGeneration <= callbackGeneration
      && HistoryIsFenced(feed.log, trace, events)
      && SessionIsLive(feed.log, trace, client, activeGeneration, callbackGeneration, events)
    }

    ghost predicate QueueIsFenced()
      reads this`queue, this`client, this`clients, this`callbackGeneration, this`events
    {
      AllFenced(queue, client, clients, callbackGeneration, events)
    }

    ghost predicate HandIsFenced()
      reads this`client, this`clients, this`callbackGeneration, this`events, this`inHand
    {
      inHand.Some? ==>
        && !inHand.value.callback.SubscriptionFailed?
        && Fenced(inHand.value, client, clients, callbackGeneration, events)
    }

    /** What holds while a callback runs. */
    ghost predicate Steady()
      reads this`stopping, this`client, this`clients, this`connected, this`subscriptionsReady, this`timers, this`retryHandle
      reads this`retrySeconds, this`subscriptionMid, this`queue, this`activeGeneration, this`callbackGeneration, this`events
      reads this`inHand, this`freshIds, feed
    {
      && feed.Valid() && ReadinessIsLayered() && RetryIsSingle() && QueueIsFenced() && HandIsFenced()
      && ReportsTell() && AnswersAreFresh()
    }

    ghost predicate Valid()
      reads this, feed
    {
      Steady() && NeverStuck() && Traced()
    }

    /** While the subscription stands, no complete set is kept from its provider. */
    ghost predicate KeepsNothing()
      reads this`subscriptionsReady, feed`log
    {
      subscriptionsReady ==> NothingIsKept(feed.log, feed.topics)
    }

    constructor (feed: ProviderFeed, filters: nat)
      requires feed.Valid() && feed.Closed() && feed.log == []
      ensures Valid() && KeepsNothing() && this.feed == feed && this.filters == filters
      ensures client.None? && clients == 0 && callbackGeneration == 0 && !stopping && inHand.None?
      ensures State() == LoopState(0, false, None, None, RECONNECT_MIN_SECONDS, false, [], true)
    {
      this.feed, this.filters := feed, filters;
      client, clients, callbackGeneration, activeGeneration := None, 0, 0, 0;
      connected, subscriptionMid, retryHandle, retrySeconds := false, None, None, RECONNECT_MIN_SECONDS;
      subscriptionsReady, stopping := false, false;
      queue, timers, inHand, events, trace, freshIds := [], multiset{}, None, [], [], true;
    }

    ghost function State(): LoopState
      reads this`activeGeneration, this`connected, this`subscriptionMid, this`retryHandle, this`retrySeconds, this`subscriptionsReady
      reads this`queue, this`freshIds
    {
      LoopState(activeGeneration, connected, subscriptionMid, retryHandle, retrySeconds, subscriptionsReady, queue, freshIds)
    }

    /** A callback as it is received now. */
    function Now(cb: Callback): Received
      reads this`events, this`activeGeneration, this`callbackGeneration
    {
      Received(cb, |events|, activeGeneration, callbackGeneration)
    }

    // ---- The network thread -------------------------------------------------------------------

    /** A connect, failed connect or disconnect callback (lines 254 to 274 and 296 to 317). */
    method OnConnection(c: nat, success: bool)
      requires Valid() && c < clients && inHand.None?
      modifies `callbackGeneration, `inHand, `events
      ensures Valid() && events == old(events) + [c]
      ensures stopping ==> inHand.None? && callbackGeneration == old(callbackGeneration)
      ensures !stopping ==>
        && callbackGeneration == old(callbackGeneration) + 1
        && inHand == Some(Now(if success then Begun(c, callbackGeneration) else Lost(c, callbackGeneration)))
      ensures State() == old(State()) && unchanged(`client)
    {
      if stopping {
        IgnoreEvent(c);
        return;
      }
      CountEvent(c);
      Receive(if success then Begun(c, callbackGeneration) else Lost(c, callbackGeneration));
    }

    method Receive(cb: Callback)
      requires Valid() && !cb.SubscriptionFailed? && cb.client < clients && cb.generation == callbackGeneration
      modifies `inHand
      ensures Valid() && inHand == Some(Now(cb))
      ensures State() == old(State()) && unchanged(`client)
    {
      inHand := Some(Now(cb));
    }

    method IgnoreEvent(c: nat)
      requires Valid() && stopping && inHand.None?
      modifies `events
      ensures Valid() && events == old(events) + [c]
      ensures State() == old(State()) && unchanged(`client)
    {
      EventIsTraced(c);
      IdleEventFences(queue, clients, callbackGeneration, events, c);
      events := events + [c];
    }

    method CountEvent(c: nat)
      requires Valid() && inHand.None?
      modifies `callbackGeneration, `events
      ensures Valid() && events == old(events) + [c] && callbackGeneration == old(callbackGeneration) + 1
      ensures State() == old(State()) && unchanged(`client)
    {
      EventIsCounted(c);
      events := events + [c];
      callbackGeneration := callbackGeneration + 1;
    }

    /** What depends on the events and on the generation, once the event is counted. */
    lemma EventIsCounted(c: nat)
      requires QueueIsFenced() && ReportsTell() && Traced()
      ensures AllFenced(queue, client, clients, callbackGeneration + 1, events + [c])
      ensures ReportsKnow(queue, activeGeneration, callbackGeneration + 1) && activeGeneration <= callbackGeneration + 1
      ensures HistoryIsFenced(feed.log, trace, events + [c])
      ensures SessionIsLive(feed.log, trace, client, activeGeneration, callbackGeneration + 1, events + [c])
    {
      EventIsTraced(c);
      CountedEventFences(queue, client, clients, callbackGeneration, events, c);
      ReportsKnowLater(queue, activeGeneration, callbackGeneration);
    }

    lemma EventIsTraced(c: nat)
      requires Traced()
      ensures HistoryIsFenced(feed.log, trace, events + [c])
      ensures SessionIsLive(feed.log, trace, client, activeGeneration, callbackGeneration + 1, events + [c])
      ensures client.None? ==> SessionIsLive(feed.log, trace, client, activeGeneration, callbackGeneration, events + [c])
    {
      HistoryStays(feed.log, trace, events, c);
      SessionAfterEvent(feed.log, trace, client, activeGeneration, callbackGeneration, callbackGeneration + 1, events, c);
      if client.None? {
        SessionAfterEvent(feed.log, trace, client, activeGeneration, callbackGeneration, callbackGeneration, events, c);
      }
    }

    /** A SUBACK (lines 319 to 342). */
    method OnSubscribe(c: nat, mid: Option<int>, codes: seq<Option<int>>)
      requires Valid() && c < clients && inHand.None?
      modifies `inHand
      ensures Valid()
      ensures inHand ==
        if stopping then None
        else Some(Now(Suback(c, mid, AllGranted(codes, filters), callbackGeneration)))
      ensures State() == old(State()) && unchanged(`client, `callbackGeneration)
    {
      if !stopping {
        Receive(Suback(c, mid, AllGranted(codes, filters), callbackGeneration));
      }
    }

    /** A message, or one that is not of the expected form (lines 344 to 379). */
    method OnMessage(c: nat, message: Option<Publication>)
      requires Valid() && c < clients && inHand.None?
      modifies `inHand
      ensures Valid()
      ensures inHand ==
        if stopping then None
        else if message.None? then Some(Now(Malformed(c, callbackGeneration)))
        else Some(Now(Message(c, message.value, callbackGeneration)))
    {
      if !stopping {
        Receive(if message.None? then Malformed(c, callbackGeneration) else Message(c, message.value, callbackGeneration));
      }
    }

    /** The thread-safe hand-off of the callback at hand (lines 242 to 252). */
    method HandOff()
      requires Valid() && inHand.Some?
      modifies `queue, `inHand
      ensures Valid() && inHand.None?
      ensures queue == if stopping then old(queue) else old(queue) + [old(inHand).value]
      ensures unchanged(`client, `callbackGeneration) && State() == old(State()).(queue := queue)
    {
      if !stopping {
        Enqueue(inHand.value);
      }
      inHand := None;
    }

    method Enqueue(r: Received)
      requires NeverStuck() && QueueIsFenced() && ReportsTell() && AnswersAreFresh()
      requires Fenced(r, client, clients, callbackGeneration, events) && !r.callback.SubscriptionFailed?
      modifies `queue
      ensures NeverStuck() && QueueIsFenced() && ReportsTell() && AnswersAreFresh() && queue == old(queue) + [r]
    {
      EnqueuedIsFenced(queue, client, clients, callbackGeneration, events, r);
      ReportsKnowQueued(queue, r, activeGeneration, callbackGeneration);
      if client.Some? {
        JoinQueue(r, client.value);
      }
      queue := queue + [r];
    }

    lemma JoinQueue(r: Received, c: nat)
      requires r.callback != SubscriptionFailed(c)
      ensures ReportQueued(queue, c, activeGeneration) ==> ReportQueued(queue + [r], c, activeGeneration)
      ensures NoReport(queue, c) ==> NoReport(queue + [r], c)
      ensures subscriptionMid.Some? && NoReportBehind(queue, c, subscriptionMid.value) ==> NoReportBehind(queue + [r], c, subscriptionMid.value)
    {
      if ReportQueued(queue, c, activeGeneration) { ReportStaysQueued(queue, r, c, activeGeneration); }
      if NoReport(queue, c) { NoReportJoins(queue, r, c); }
      if subscriptionMid.Some? && NoReportBehind(queue, c, subscriptionMid.value) { NoReportJoinsBehind(queue, r, c, subscriptionMid.value); }
    }

    // ---- Subscribing --------------------------------------------------------------------------

    method CancelSubscriptionRetry()
      requires OneTimer()
      modifies `retryHandle, `timers
      ensures OneTimer() && retryHandle.None?
    {
      if retryHandle.Some? {
        timers := timers - multiset{retryHandle.value};
      }
      retryHandle := None;
    }

    /** Lines 517 to 528, where the connection is known to be live. */
    method ScheduleSubscriptionRetry(c: nat)
      requires OneTimer() && connected && Some(c) == client
      modifies `retryHandle, `retrySeconds, `timers
      ensures OneTimer()
      ensures old(retryHandle).Some? ==> retryHandle == old(retryHandle) && retrySeconds == old(retrySeconds)
      ensures old(retryHandle).None? ==> retryHandle == Some(Timer(old(retrySeconds), c)) && retrySeconds == Doubled(old(retrySeconds))
    {
      if retryHandle.Some? {
        return;
      }
      var delay := retrySeconds;
      retrySeconds := Doubled(delay);
      retryHandle := Some(Timer(delay, c));
      timers := timers + multiset{Timer(delay, c)};
    }

    /** Lines 276 to 293; both callers have checked that the connection is live. */
    method RequestSubscription(c: nat, outcome: SubscribeOutcome)
      requires Steady() && connected && Some(c) == client && !subscriptionsReady && retryHandle.None?
      modifies `subscriptionMid, `retryHandle, `retrySeconds, `timers, `queue, `freshIds
      ensures Steady() && NeverStuck() && State() == Asked(old(State()), c, outcome, |events|, callbackGeneration)
      ensures unchanged(`client, `callbackGeneration, `events, `trace)
    {
      if outcome.Accepted? {
        AwaitAnswer(c, outcome.mid);
      } else {
        subscriptionMid := None;
        Report(c);
      }
    }

    method AwaitAnswer(c: nat, mid: int)
      requires RetryIsSingle() && AnswersAreFresh() && connected && Some(c) == client && !subscriptionsReady && retryHandle.None?
      modifies `subscriptionMid, `retryHandle, `retrySeconds, `timers, `freshIds
      ensures RetryIsSingle() && AnswersAreFresh() && subscriptionMid == Some(mid) && retryHandle == Some(Timer(old(retrySeconds), c))
      ensures retrySeconds == Doubled(old(retrySeconds)) && freshIds == (old(freshIds) && IsFresh(queue, mid))
    {
      if IsFresh(queue, mid) {
        FreshHasNothingBehind(queue, c, mid);
      }
      freshIds := freshIds && IsFresh(queue, mid);
      subscriptionMid := Some(mid);
      ScheduleSubscriptionRetry(c);
    }

    method Report(c: nat)
      requires QueueIsFenced() && ReportsTell()
      modifies `queue
      ensures QueueIsFenced() && ReportsTell() && ReportQueued(queue, c, activeGeneration)
      ensures queue == old(queue) + [Now(SubscriptionFailed(c))]
    {
      var report := Now(SubscriptionFailed(c));
      EnqueuedIsFenced(queue, client, clients, callbackGeneration, events, report);
      FencedBeguns(queue, client, clients, callbackGeneration, events);
      ReportsKnowQueued(queue, report, activeGeneration, callbackGeneration);
      ReportStaysQueued(queue, report, c, activeGeneration);
      queue := queue + [report];
    }

    // ---- The loop thread ----------------------------------------------------------------------

    /** What `_begin_connection`, `_connection_lost` and `async_stop` all forget. */
    method ForgetSession()
      requires feed.Valid() && OneTimer()
      modifies `subscriptionMid, `retryHandle, `timers, `subscriptionsReady, feed
      ensures feed.Valid() && OneTimer() && feed.Closed() && feed.log == old(feed.log) + [Cleared]
      ensures subscriptionMid.None? && retryHandle.None? && !subscriptionsReady
      ensures unchanged(`client, `clients, `callbackGeneration, `activeGeneration, `connected, `retrySeconds, `stopping)
      ensures unchanged(`queue, `inHand, `events, `trace, `freshIds)
    {
      CancelSubscriptionRetry();
      subscriptionMid := None;
      subscriptionsReady := false;
      feed.Forget();
    }

    /** Lines 447 to 468. */
    method BeginConnection(c: nat, generation: nat, outcome: SubscribeOutcome)
      requires Steady() && Some(c) == client && generation == callbackGeneration && ReportsKnow(queue, generation, generation)
      modifies `activeGeneration, `connected, `subscriptionMid, `retryHandle, `retrySeconds, `timers, `subscriptionsReady, `queue, `freshIds, feed
      ensures Steady() && NeverStuck() && feed.log == old(feed.log) + [Cleared]
      ensures State() == Asked(Begins(old(State()), generation), c, outcome, |events|, callbackGeneration)
      ensures unchanged(`client, `callbackGeneration, `events, `trace)
    {
      BeginSession(generation);
      RequestSubscription(c, outcome);
    }

    method BeginSession(generation: nat)
      requires Steady() && client.Some? && generation == callbackGeneration && ReportsKnow(queue, generation, generation)
      modifies `activeGeneration, `connected, `subscriptionMid, `retryHandle, `retrySeconds, `timers, `subscriptionsReady, feed
      ensures Steady() && feed.log == old(feed.log) + [Cleared]
      ensures State() == Begins(old(State()), generation)
      ensures unchanged(`client, `callbackGeneration, `events, `trace)
    {
      ForgetSession();
      assert QueueIsFenced() && HandIsFenced() && AnswersAreFresh();
      activeGeneration, retrySeconds, connected := generation, RECONNECT_MIN_SECONDS, true;
      assert QueueIsFenced() && HandIsFenced() && AnswersAreFresh();
    }

    /** Lines 470 to 487. */
    method ConnectionLost(c: nat, generation: nat)
      requires Steady() && Some(c) == client && generation == callbackGeneration
      modifies `connected, `subscriptionMid, `retryHandle, `timers, `subscriptionsReady, feed
      ensures Steady() && NeverStuck() && State() == Ended(old(State())) && feed.log == old(feed.log) + [Cleared]
      ensures unchanged(`client, `callbackGeneration, `events, `trace)
    {
      ForgetSession();
      connected := false;
    }

    /** The guard of the callbacks that carry a generation. */
    predicate OfLiveConnection(c: nat, generation: nat)
      reads this`stopping, this`connected, this`client, this`activeGeneration, this`callbackGeneration
    {
      !stopping && connected && Some(c) == client && generation == activeGeneration && generation == callbackGeneration
    }

    /** Lines 489 to 509. */
    method HandleSuback(c: nat, mid: Option<int>, ready: bool, generation: nat, v: Verdicts)
      requires Steady() && NeverStuck() && OfLiveConnection(c, generation) && mid.Some? && mid == subscriptionMid
      requires freshIds ==> NoReport(queue, c)
      modifies `subscriptionMid, `retryHandle, `retrySeconds, `timers, `subscriptionsReady, feed
      ensures Steady() && NeverStuck() && State() == Answered(old(State()), ready)
      ensures feed.log == old(feed.log) + if ready then Handover(feed.topics, old(feed.bootstrap), v) else [Cleared]
      ensures unchanged(`client, `callbackGeneration, `events, `trace)
    {
      subscriptionMid := None;
      if ready {
        Establish(v);
      } else {
        Deny();
      }
    }

    method Establish(v: Verdicts)
      requires feed.Valid() && ReadinessIsLayered() && OneTimer() && connected && !subscriptionsReady && subscriptionMid.None?
      modifies `retryHandle, `retrySeconds, `timers, `subscriptionsReady, feed
      ensures feed.Valid() && ReadinessIsLayered() && RetryIsSingle() && subscriptionsReady
      ensures retryHandle.None? && retrySeconds == RECONNECT_MIN_SECONDS
      ensures feed.log == old(feed.log) + Handover(feed.topics, old(feed.bootstrap), v)
      ensures unchanged(`client, `callbackGeneration, `events, `trace)
    {
      CancelSubscriptionRetry();
      retrySeconds := RECONNECT_MIN_SECONDS;
      subscriptionsReady := true;
      feed.Open(v);
    }

    method Deny()
      requires feed.Valid() && ReadinessIsLayered()
      modifies `subscriptionsReady, feed
      ensures feed.Valid() && ReadinessIsLayered() && !subscriptionsReady && feed.log == old(feed.log) + [Cleared]
      ensures unchanged(`client, `callbackGeneration, `events, `trace)
    {
      subscriptionsReady := false;
      feed.Forget();
    }

    /** Lines 511 to 515: the only callback that carries no generation. */
    method HandleSubscriptionFailure(c: nat)
      requires Steady() && connected && Some(c) == client
      modifies `retryHandle, `retrySeconds, `timers, `subscriptionsReady, feed
      ensures Steady() && NeverStuck() && State() == Failed(old(State()), c) && feed.log == old(feed.log) + [Cleared]
      ensures unchanged(`client, `callbackGeneration, `events, `trace)
    {
      Deny();
      assert QueueIsFenced() && HandIsFenced() && ReportsTell() && AnswersAreFresh();
      ScheduleSubscriptionRetry(c);
      assert QueueIsFenced() && HandIsFenced() && ReportsTell() && AnswersAreFresh();
    }

    /** Lines 551 to 597. */
    method DispatchMessage(c: nat, pub: Publication, generation: nat, v: Verdicts)
      requires Steady() && NeverStuck() && OfLiveConnection(c, generation)
      modifies feed
      ensures Steady() && NeverStuck()
      ensures feed.log == old(feed.log) + Delivery(feed.topics, feed.SideTopics(), old(feed.Standing()), subscriptionsReady, pub, v)
      ensures unchanged(`client, `callbackGeneration, `events, `trace)
    {
      feed.Dispatch(pub, subscriptionsReady, v);
    }

    /** Lines 381 to 390. */
    method NoteTransportRejection(c: nat, generation: nat)
      requires Steady() && NeverStuck() && OfLiveConnection(c, generation)
      modifies feed
      ensures Steady() && NeverStuck() && feed.rejected == old(feed.rejected) + 1 && feed.log == old(feed.log)
      ensures unchanged(`client, `callbackGeneration, `events, `trace)
    {
      feed.NoteTransportRejection();
    }

    method Expire()
      requires Steady() && retryHandle.Some?
      modifies `subscriptionMid, `retryHandle, `timers
      ensures Steady() && Traced() == old(Traced()) && connected && !subscriptionsReady && unchanged(`client, `callbackGeneration, `events)
      ensures State() == old(State()).(retry := None, mid := None)
    {
      timers := timers - multiset{retryHandle.value};
      retryHandle := None;
      subscriptionMid := None;
    }

    /** The retry timer fires (lines 530 to 535). */
    method RetrySubscription(outcome: SubscribeOutcome)
      requires Valid() && retryHandle.Some?
      modifies `subscriptionMid, `retryHandle, `retrySeconds, `timers, `queue, `freshIds
      ensures Valid() && State() == Asked(old(State()).(retry := None, mid := None), old(client).value, outcome, |events|, callbackGeneration)
      ensures unchanged(`client, `callbackGeneration, `events)
    {
      var c := client.value;
      Expire();
      RequestSubscription(c, outcome);
    }

    // ---- Steps --------------------------------------------------------------------------------

    /** The guard each callback starts with. */
    predicate Passes(cb: Callback)
      reads this`stopping, this`connected, this`client, this`activeGeneration, this`callbackGeneration, this`subscriptionMid
    {
      match cb
      case Lost(c, generation) => Some(c) == client && generation == callbackGeneration
      case Begun(c, generation) => !stopping && Some(c) == client && generation == callbackGeneration
      case Suback(c, mid, _, generation) => OfLiveConnection(c, generation) && mid.Some? && mid == subscriptionMid
      case Message(c, _, generation) => OfLiveConnection(c, generation)
      case Malformed(c, generation) => OfLiveConnection(c, generation)
      case SubscriptionFailed(c) => !stopping && connected && Some(c) == client
    }

    /** The callback comes from the present client, without a connection event since. */
    ghost predicate Unbroken(r: Received)
      reads this`client, this`events
    {
      Some(r.callback.client) == client && (!r.callback.SubscriptionFailed? ==> Quiet(events, r.since, r.callback.client))
    }

    method Take() returns (r: Received)
      requires Steady() && NeverStuck() && queue != []
      modifies `queue
      ensures r == old(queue)[0] && queue == old(queue)[1..] && Steady()
      ensures State() == old(State()).(queue := old(queue)[1..])
      ensures Passes(r.callback) ==> Unbroken(r)
      ensures !(Passes(r.callback) && r.callback.SubscriptionFailed? && r.active == activeGeneration) ==> NeverStuck()
      ensures r.callback.Begun? && Passes(r.callback) ==> ReportsKnow(queue, callbackGeneration, callbackGeneration)
      ensures r.callback.Suback? && Passes(r.callback) && freshIds ==> NoReport(queue, client.value)
      ensures unchanged(`client, `callbackGeneration, `events)
    {
      r := queue[0];
      ReportsKnowNext(queue, activeGeneration, callbackGeneration);
      queue := queue[1..];
    }

    /** What the callback at the head of the queue adds to the log delivers what it brings, and keeps no
        complete set from its provider. */
    lemma HeadDelivers(v: Verdicts, outcome: SubscribeOutcome)
      requires Valid() && KeepsNothing() && queue != [] && Passes(queue[0].callback)
      ensures var cb := queue[0].callback;
        var log := feed.log + LogEffect(cb, feed.topics, feed.SideTopics(), feed.Standing(), subscriptionsReady, v);
        && (cb.Message? ==> IsDelivered(feed.log, log, feed.topics, feed.SideTopics(), cb.pub))
        && (After(State().(queue := queue[1..]), cb, outcome, |events|, callbackGeneration).ready ==> NothingIsKept(log, feed.topics))
    {
      var cb := queue[0].callback;
      if cb.Message? {
        MessageIsDelivered(feed.log, feed.topics, feed.SideTopics(), feed.Standing(), subscriptionsReady, cb.pub, v);
      }
      if After(State().(queue := queue[1..]), cb, outcome, |events|, callbackGeneration).ready {
        EffectKeepsNothing(feed.log, cb, feed.topics, feed.SideTopics(), feed.Standing(), subscriptionsReady, v);
      }
    }

    /** A callback takes effect only on an unbroken connection: since it was received, its client had
        no connection event.  Otherwise it changes nothing.  A message that takes effect is delivered. */
    method RunNext(outcome: SubscribeOutcome, v: Verdicts)
      requires Valid() && KeepsNothing() && queue != []
      modifies `activeGeneration, `connected, `subscriptionMid, `retryHandle, `retrySeconds, `timers, `subscriptionsReady, `queue, `freshIds, `trace, feed
      ensures Valid() && KeepsNothing()
      ensures old(Passes(queue[0].callback)) ==>
        && old(Unbroken(queue[0]))
        && State() == After(old(State()).(queue := old(queue)[1..]), old(queue)[0].callback, outcome, |events|, callbackGeneration)
      ensures old(Passes(queue[0].callback)) ==>
        feed.log == old(feed.log)
             + LogEffect(old(queue)[0].callback, feed.topics, feed.SideTopics(), old(feed.Standing()), old(subscriptionsReady), v)
      ensures old(Passes(queue[0].callback)) && old(queue)[0].callback.Message? ==>
        IsDelivered(old(feed.log), feed.log, feed.topics, feed.SideTopics(), old(queue)[0].callback.pub)
      ensures !old(Passes(queue[0].callback)) ==> IsSkipped()
      ensures unchanged(`client, `callbackGeneration, `events)
    {
      if Passes(queue[0].callback) {
        RunDelivering(outcome, v);
      } else {
        var _ := Take();
      }
    }

    method RunDelivering(outcome: SubscribeOutcome, v: Verdicts)
      requires Valid() && KeepsNothing() && queue != [] && Passes(queue[0].callback)
      modifies `activeGeneration, `connected, `subscriptionMid, `retryHandle, `retrySeconds, `timers, `subscriptionsReady, `queue, `freshIds, `trace, feed
      ensures Valid() && KeepsNothing() && old(Unbroken(queue[0]))
      ensures State() == After(old(State()).(queue := old(queue)[1..]), old(queue)[0].callback, outcome, |events|, callbackGeneration)
      ensures feed.log == old(feed.log)
        + LogEffect(old(queue)[0].callback, feed.topics, feed.SideTopics(), old(feed.Standing()), old(subscriptionsReady), v)
      ensures old(queue)[0].callback.Message? ==>
        IsDelivered(old(feed.log), feed.log, feed.topics, feed.SideTopics(), old(queue)[0].callback.pub)
      ensures unchanged(`client, `callbackGeneration, `events)
    {
      HeadDelivers(v, outcome);
      assert subscriptionsReady == State().ready;
      RunHead(outcome, v);
      assert subscriptionsReady == State().ready;
    }

    method RunHead(outcome: SubscribeOutcome, v: Verdicts)
      requires Valid() && queue != [] && Passes(queue[0].callback)
      modifies `activeGeneration, `connected, `subscriptionMid, `retryHandle, `retrySeconds, `timers, `subscriptionsReady, `queue, `freshIds, `trace, feed
      ensures Valid() && old(Unbroken(queue[0]))
      ensures State() == After(old(State()).(queue := old(queue)[1..]), old(queue)[0].callback, outcome, |events|, callbackGeneration)
      ensures feed.log == old(feed.log)
        + LogEffect(old(queue)[0].callback, feed.topics, feed.SideTopics(), old(feed.Standing()), old(subscriptionsReady), v)
      ensures unchanged(`client, `callbackGeneration, `events)
    {
      var r := Take();
      RunTraced(r, outcome, v);
    }

    method RunTraced(r: Received, outcome: SubscribeOutcome, v: Verdicts)
      requires Steady() && Traced() && Passes(r.callback) && Unbroken(r)
      requires !r.callback.SubscriptionFailed? ==> NeverStuck()
      requires r.callback.Begun? ==> ReportsKnow(queue, callbackGeneration, callbackGeneration)
      requires r.callback.Suback? && freshIds ==> NoReport(queue, client.value)
      modifies `activeGeneration, `connected, `subscriptionMid, `retryHandle, `retrySeconds, `timers, `subscriptionsReady, `queue, `freshIds, `trace, feed
      ensures Valid() && State() == After(old(State()), r.callback, outcome, |events|, callbackGeneration)
      ensures feed.log == old(feed.log)
        + LogEffect(r.callback, feed.topics, feed.SideTopics(), old(feed.Standing()), old(subscriptionsReady), v)
      ensures unchanged(`client, `callbackGeneration, `events)
    {
      ghost var log, active := NoteEffect(r, v);
      Run(r.callback, outcome, v);
    }

    /** The connection begun last, once the callback has run. */
    function ActiveAfter(cb: Callback): nat
      reads this`activeGeneration
    {
      if cb.Begun? then cb.generation else activeGeneration
    }

    /** The trace is written before the callback runs. */
    ghost method NoteEffect(r: Received, v: Verdicts) returns (log: seq<Entry>, active: nat)
      requires Steady() && Traced() && Passes(r.callback) && Unbroken(r)
      modifies `trace
      ensures Steady() && Passes(r.callback) && State() == old(State()) && NeverStuck() == old(NeverStuck())
      ensures log == feed.log + LogEffect(r.callback, feed.topics, feed.SideTopics(), feed.Standing(), subscriptionsReady, v)
      ensures trace == old(trace) + Tags(|log| - |feed.log|, Taken(Some(r), |events|))
      ensures active == ActiveAfter(r.callback) && active <= callbackGeneration
      ensures HistoryIsFenced(log, trace, events) && SessionIsLive(log, trace, client, active, callbackGeneration, events)
    {
      var effect := LogEffect(r.callback, feed.topics, feed.SideTopics(), feed.Standing(), subscriptionsReady, v);
      log, active := feed.log + effect, ActiveAfter(r.callback);
      EffectAppended(feed.log, trace, r, feed.topics, feed.SideTopics(), feed.Standing(), subscriptionsReady, v,
                     client, activeGeneration, callbackGeneration, events);
      trace := trace + Tags(|effect|, Taken(Some(r), |events|));
    }

    /** Nothing but the head of the queue is gone. */
    twostate predicate IsSkipped()
      reads this, feed
    {
      && unchanged(`activeGeneration, `connected, `subscriptionMid, `retryHandle, `retrySeconds, `timers, `subscriptionsReady, `freshIds, `trace)
      && unchanged(feed) && old(queue) != [] && queue == old(queue)[1..]
    }

    method Run(cb: Callback, outcome: SubscribeOutcome, v: Verdicts)
      requires Steady() && Passes(cb)
      requires !cb.SubscriptionFailed? ==> NeverStuck()
      requires cb.Begun? ==> ReportsKnow(queue, callbackGeneration, callbackGeneration)
      requires cb.Suback? && freshIds ==> NoReport(queue, client.value)
      modifies `activeGeneration, `connected, `subscriptionMid, `retryHandle, `retrySeconds, `timers, `subscriptionsReady, `queue, `freshIds, feed
      ensures Steady() && NeverStuck() && activeGeneration == old(ActiveAfter(cb))
      ensures unchanged(`client, `callbackGeneration, `events, `trace)
      ensures State() == After(old(State()), cb, outcome, |events|, callbackGeneration)
      ensures feed.log == old(feed.log) + LogEffect(cb, feed.topics, feed.SideTopics(), old(feed.Standing()), old(subscriptionsReady), v)
    {
      match cb {
        case Lost(c, generation) => ConnectionLost(c, generation);
        case Begun(c, generation) => BeginConnection(c, generation, outcome);
        case Suback(c, mid, ready, generation) => HandleSuback(c, mid, ready, generation, v);
        case Message(c, pub, generation) => DispatchMessage(c, pub, generation, v);
        case Malformed(c, generation) => NoteTransportRejection(c, generation);
        case SubscriptionFailed(c) => HandleSubscriptionFailure(c);
      }
    }

    /** Starting makes a new client; if its setup fails everything is as before a start, stopped
        (lines 162 to 213). */
    method Start(works: bool)
      requires Valid()
      modifies `client, `clients, `stopping
      ensures Valid() && !connected == old(!connected)
      ensures old(client).Some? ==> unchanged(`client, `clients, `stopping)
      ensures old(client).None? ==>
        && clients == old(clients) + 1 && stopping == !works && client == if works then Some(old(clients)) else None
      ensures State() == old(State()) && unchanged(`callbackGeneration, `inHand)
    {
      if client.Some? {
        return;
      }
      NewClientFences(queue, client, clients, callbackGeneration, events);
      NoClientNoSession(feed.log, trace, Some(clients), activeGeneration, callbackGeneration, events);
      stopping := !works;
      client := if works then Some(clients) else None;
      clients := clients + 1;
    }

    /** Lines 215 to 240. */
    method Stop()
      requires Valid()
      modifies `stopping, `connected, `client, `subscriptionMid, `retryHandle, `timers, `subscriptionsReady, `trace, feed
      ensures Valid() && stopping && !connected && client.None? && feed.Closed() && timers == multiset{}
      ensures feed.log == old(feed.log) + [Cleared]
    {
      ClearedAppended(feed.log, trace, Taken(None, |events|), None, activeGeneration, callbackGeneration, events);
      trace := trace + [Taken(None, |events|)];
      ForgetSession();
      Retire();
    }

    method Retire()
      requires feed.Valid() && feed.Closed() && RetryIsSingle() && QueueIsFenced() && HandIsFenced() && ReportsTell() && retryHandle.None? && !subscriptionsReady
      modifies `stopping, `connected, `client
      ensures Steady() && NeverStuck() && stopping && !connected && client.None?
      ensures timers == multiset{} && feed.Closed() && feed.log == old(feed.log)
    {
      NewClientFences(queue, client, clients, callbackGeneration, events);
      stopping := true;
      connected := false;
      client := None;
    }

    /** Whether a step can be taken: the network thread works on one callback at a time and only for
        clients that were made, and the loop runs what it has. */
    predicate Enabled(m: Move)
      reads this`inHand, this`clients, this`queue, this`retryHandle
    {
      match m
      case Connects(c, _) => inHand.None? && c < clients
      case Grants(c, _, _) => inHand.None? && c < clients
      case Sends(c, _) => inHand.None? && c < clients
      case HandsOff => inHand.Some?
      case RunsNext(_, _) => queue != []
      case TimerFires(_) => retryHandle.Some?
      case Starts(_) => true
      case Stops => true
    }

    method Step(m: Move)
      requires Valid() && KeepsNothing() && Enabled(m)
      modifies this, feed
      ensures Valid() && KeepsNothing()
    {
      match m {
        case Connects(c, success) => OnConnection(c, success);
        case Grants(c, mid, codes) => OnSubscribe(c, mid, codes);
        case Sends(c, message) => OnMessage(c, message);
        case HandsOff => HandOff();
        case RunsNext(outcome, v) => RunNext(outcome, v);
        case TimerFires(outcome) => RetrySubscription(outcome);
        case Starts(works) => Start(works);
        case Stops => Stop();
      }
    }

    /** After any interleaving of the two threads: readiness is layered, at most one retry timer runs
        and within its bounds, no connection waits for nothing, the log is well ordered, and no complete set
        is kept from its provider. */
    method Interleave(moves: seq<Move>)
      requires Valid() && KeepsNothing()
      modifies this, feed
      ensures Valid() && KeepsNothing() && WellOrdered(feed.log, feed.topics)
      ensures feed.transportReady ==> subscriptionsReady && connected && client.Some? && !stopping
      ensures |timers| <= 1
      ensures forall timer :: timer in timers ==> connected && Some(timer.client) == client && RECONNECT_MIN_SECONDS <= timer.delay <= RECONNECT_MAX_SECONDS
      ensures connected && !subscriptionsReady && timers == multiset{} ==> ReportQueued(queue, client.value, activeGeneration)
      ensures HistoryIsFenced(feed.log, trace, events) && SetsAreOfOneConnection(feed.log, trace, events)
      ensures freshIds && subscriptionsReady ==> NoReport(queue, client.value)
    {
      var i := 0;
      while i < |moves|
        invariant 0 <= i <= |moves| && Valid() && KeepsNothing()
      {
        if Enabled(moves[i]) {
          Step(moves[i]);
        }
        i := i + 1;
      }
      FencedSets(feed.log, trace, events, feed.topics);
    }
  }
}
