/** What the subscriber does with a quiet connection (local_mqtt.py): a message that arrives is delivered,
    an answer settles the request, and requests that stay unanswered are repeated ever more slowly. */
module MqttArrival {
  import opened Wrappers
  import opened MqttLog
  import opened MqttFeed
  import opened MqttTrace
  import opened MqttDelivery
  import opened MqttSubscriber

  /** Connected, on the newest connection counted, with nothing queued. */
  predicate IsQuiet(s: LocalPilotMqttSubscriber)
    reads s
  {
    s.connected && !s.stopping && s.activeGeneration == s.callbackGeneration && s.queue == [] && s.inHand.None?
  }

  /** The live client's network thread receives something and hands it over. */
  method Receives(s: LocalPilotMqttSubscriber, pub: Publication)
    requires s.Valid() && s.KeepsNothing() && IsQuiet(s)
    modifies s
    ensures s.Valid() && s.KeepsNothing() && s.inHand.None? && s.State() == old(s.State()).(queue := s.queue)
    ensures |s.queue| == 1 && s.queue[0].callback == Message(s.client.value, pub, s.callbackGeneration) && s.Passes(s.queue[0].callback)
    ensures !s.stopping
  {
    s.OnMessage(s.client.value, Some(pub));
    s.HandOff();
  }

  /** A message the client receives is delivered as soon as the loop comes to it. */
  method Arrives(s: LocalPilotMqttSubscriber, pub: Publication, v: Verdicts)
    requires s.Valid() && s.KeepsNothing() && IsQuiet(s)
    modifies s, s.feed
    ensures s.Valid() && s.KeepsNothing() && s.queue == [] && s.inHand.None?
    ensures IsDelivered(old(s.feed.log), s.feed.log, s.feed.topics, s.feed.SideTopics(), pub)
    ensures s.State() == old(s.State())
  {
    Receives(s, pub);
    TakesTurn(s, v);
  }

  method TakesTurn(s: LocalPilotMqttSubscriber, v: Verdicts)
    requires s.Valid() && s.KeepsNothing() && |s.queue| == 1 && s.queue[0].callback.Message? && s.Passes(s.queue[0].callback)
    requires s.inHand.None?
    modifies s, s.feed
    ensures s.Valid() && s.KeepsNothing() && s.inHand.None? && s.State() == old(s.State()).(queue := [])
    ensures IsDelivered(old(s.feed.log), s.feed.log, s.feed.topics, s.feed.SideTopics(), old(s.queue)[0].callback.pub)
  {
    assert s.queue[1..] == [];
    ghost var rest, cb := s.State().(queue := []), s.queue[0].callback;
    s.RunNext(Raised, v);
    assert s.State() == After(rest, cb, Raised, |s.events|, s.callbackGeneration);
  }

  /** So is an answer. */
  method ReceivesAnswer(s: LocalPilotMqttSubscriber, codes: seq<Option<int>>)
    requires s.Valid() && s.KeepsNothing() && IsQuiet(s) && s.subscriptionMid.Some?
    modifies s
    ensures s.Valid() && s.KeepsNothing() && s.State() == old(s.State()).(queue := s.queue)
    ensures |s.queue| == 1 && s.Passes(s.queue[0].callback)
    ensures s.queue[0].callback == Suback(s.client.value, s.subscriptionMid, AllGranted(codes, s.filters), s.callbackGeneration)
  {
    s.OnSubscribe(s.client.value, s.subscriptionMid, codes);
    s.HandOff();
  }

  /** The answer to the present request establishes the subscription if it grants every filter, and
      otherwise leaves the retry to come. */
  method IsAnswered(s: LocalPilotMqttSubscriber, codes: seq<Option<int>>, v: Verdicts)
    requires s.Valid() && s.KeepsNothing() && IsQuiet(s) && s.subscriptionMid.Some?
    modifies s, s.feed
    ensures s.Valid() && s.KeepsNothing() && s.queue == [] && s.subscriptionMid.None?
    ensures s.subscriptionsReady <==> |codes| == s.filters && forall i :: 0 <= i < |codes| ==> codes[i] == Some(1)
    ensures if s.subscriptionsReady then s.retryHandle.None? else s.retryHandle == old(s.retryHandle) && s.retryHandle.Some?
  {
    ReceivesAnswer(s, codes);
    TakesAnswer(s, v);
  }

  method TakesAnswer(s: LocalPilotMqttSubscriber, v: Verdicts)
    requires s.Valid() && s.KeepsNothing() && |s.queue| == 1 && s.queue[0].callback.Suback? && s.Passes(s.queue[0].callback)
    modifies s, s.feed
    ensures s.Valid() && s.KeepsNothing() && s.queue == []
    ensures s.State() == Answered(old(s.State()).(queue := []), old(s.queue)[0].callback.ready)
  {
    s.RunNext(Raised, v);
  }

  /** An idle client: neither stopped nor in the middle of anything. */
  predicate IsIdle(s: LocalPilotMqttSubscriber)
    reads s
  {
    !s.stopping && s.client.Some? && s.queue == [] && s.inHand.None?
  }

  method ReceivesConnection(s: LocalPilotMqttSubscriber, success: bool)
    requires s.Valid() && s.KeepsNothing() && IsIdle(s)
    modifies s
    ensures s.Valid() && s.KeepsNothing() && s.State() == old(s.State()).(queue := s.queue) && s.client == old(s.client)
    ensures |s.queue| == 1 && s.Passes(s.queue[0].callback)
    ensures s.queue[0].callback == if success then Begun(s.client.value, s.callbackGeneration) else Lost(s.client.value, s.callbackGeneration)
  {
    s.OnConnection(s.client.value, success);
    s.HandOff();
  }

  method TakesConnection(s: LocalPilotMqttSubscriber, outcome: SubscribeOutcome, v: Verdicts)
    requires s.Valid() && s.KeepsNothing() && |s.queue| == 1 && s.Passes(s.queue[0].callback)
    requires s.queue[0].callback.Begun? || s.queue[0].callback.Lost?
    modifies s, s.feed
    ensures s.Valid() && s.KeepsNothing() && s.client == old(s.client)
    ensures s.State() == After(old(s.State()).(queue := []), old(s.queue)[0].callback, outcome, |s.events|, s.callbackGeneration)
  {
    s.RunNext(outcome, v);
  }

  /** A connection that the client reports is begun: nothing is established yet, and the subscription is
      asked for, with a retry in five minutes, or its refusal is reported.  One that it reports lost
      leaves nothing to wait for. */
  method Connects(s: LocalPilotMqttSubscriber, success: bool, outcome: SubscribeOutcome, v: Verdicts)
    requires s.Valid() && s.KeepsNothing() && IsIdle(s)
    modifies s, s.feed
    ensures s.Valid() && s.KeepsNothing() && s.client == old(s.client)
    ensures s.connected == success && !s.subscriptionsReady
    ensures success && outcome.Accepted? ==>
      s.queue == [] && s.subscriptionMid == Some(outcome.mid) && s.retryHandle == Some(Timer(5 * 60, s.client.value))
    ensures success && !outcome.Accepted? ==>
      s.subscriptionMid.None? && s.retryHandle.None? && |s.queue| == 1 && s.queue[0].callback == SubscriptionFailed(s.client.value)
    ensures !success ==> s.queue == [] && s.subscriptionMid.None? && s.retryHandle.None?
  {
    ReceivesConnection(s, success);
    TakesConnection(s, outcome, v);
  }

  /** A reported refusal leaves a retry ahead. */
  method IsRefused(s: LocalPilotMqttSubscriber, v: Verdicts)
    requires s.Valid() && s.KeepsNothing() && !s.stopping && s.connected && s.client.Some?
    requires |s.queue| == 1 && s.queue[0].callback == SubscriptionFailed(s.client.value)
    modifies s, s.feed
    ensures s.Valid() && s.KeepsNothing() && s.queue == [] && !s.subscriptionsReady
    ensures s.retryHandle == if old(s.retryHandle).Some? then old(s.retryHandle) else Some(Timer(old(s.retrySeconds), old(s.client).value))
  {
    s.RunNext(Raised, v);
  }

  /** The loop's state after the connection is begun and then each of these requests was given a message
      id, but no answer before its retry was due. */
  function Asking(s: LoopState, c: nat, generation: nat, mids: seq<int>): LoopState {
    if mids == [] then Begins(s, generation)
    else Asked(Asking(s, c, generation, mids[..|mids| - 1]).(retry := None, mid := None), c, Accepted(mids[|mids| - 1]), 0, 0)
  }

  /** The retries wait 5, 10, 20 and from then on 30 minutes. */
  lemma {:induction false} PausesDouble(s: LoopState, c: nat, generation: nat, mids: seq<int>)
    requires mids != []
    ensures Asking(s, c, generation, mids).mid == Some(mids[|mids| - 1])
    ensures Asking(s, c, generation, mids).retry == Some(Timer(
      if |mids| == 1 then 5 * 60 else if |mids| == 2 then 10 * 60 else if |mids| == 3 then 20 * 60 else 30 * 60, c))
    ensures Asking(s, c, generation, mids).seconds == if |mids| == 1 then 10 * 60 else if |mids| == 2 then 20 * 60 else 30 * 60
  {
    if |mids| > 1 {
      PausesDouble(s, c, generation, mids[..|mids| - 1]);
    }
  }
}
