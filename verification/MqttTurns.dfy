/** What a run of the event loop comes to (local_mqtt.py lines 447 to 535): which of the callbacks that
    took effect decided whether it is connected, whether the subscription stands, and what it waits
    for. */
module MqttTurns {
  import opened Wrappers
  import opened MqttTrace
  import opened MqttSubscriber

  /** One turn of the loop: a callback that passed its guard, or the retry of a client that fired. */
  datatype Turn =
    | Takes(callback: Callback, outcome: SubscribeOutcome, since: nat, newest: nat)
    | Fires(client: nat, outcome: SubscribeOutcome, since: nat, newest: nat)

  function Turned(s: LoopState, turn: Turn): LoopState {
    match turn
    case Takes(cb, outcome, since, newest) => After(s, cb, outcome, since, newest)
    case Fires(c, outcome, since, newest) => Asked(s.(retry := None, mid := None), c, outcome, since, newest)
  }

  function Through(s: LoopState, turns: seq<Turn>): LoopState {
    if turns == [] then s else Turned(Through(s, turns[..|turns| - 1]), turns[|turns| - 1])
  }

  /** The i-th turn is the last one of its kind. */
  ghost predicate IsLast(turns: seq<Turn>, i: int, kind: Turn -> bool) {
    0 <= i < |turns| && kind(turns[i]) && forall j :: i < j < |turns| ==> !kind(turns[j])
  }

  ghost predicate HasNone(turns: seq<Turn>, kind: Turn -> bool) {
    forall i :: 0 <= i < |turns| ==> !kind(turns[i])
  }

  lemma LastOfMore(turns: seq<Turn>, turn: Turn, kind: Turn -> bool)
    ensures kind(turn) ==> IsLast(turns + [turn], |turns|, kind) && forall i :: IsLast(turns + [turn], i, kind) ==> i == |turns|
    ensures !kind(turn) ==> forall i :: IsLast(turns + [turn], i, kind) <==> IsLast(turns, i, kind)
    ensures HasNone(turns + [turn], kind) <==> !kind(turn) && HasNone(turns, kind)
  {
    assert (turns + [turn])[|turns|] == turn;
    assert forall i :: 0 <= i < |turns| ==> (turns + [turn])[i] == turns[i];
  }

  // ---- Connection -------------------------------------------------------------------------------

  /** A connection begins or is lost. */
  predicate Connects(turn: Turn) {
    turn.Takes? && (turn.callback.Begun? || turn.callback.Lost?)
  }

  /** The loop is connected exactly if the last of these turns was a beginning, and then on that
      connection's generation. */
  lemma {:induction false} ConnectedIff(s: LoopState, turns: seq<Turn>)
    ensures var after := Through(s, turns);
      && (forall i :: IsLast(turns, i, Connects) ==>
           (after.connected <==> turns[i].callback.Begun?) && (after.connected ==> after.active == turns[i].callback.generation))
      && (HasNone(turns, Connects) ==> after.connected == s.connected && after.active == s.active)
  {
    if turns != [] {
      var before, turn := turns[..|turns| - 1], turns[|turns| - 1];
      assert turns == before + [turn];
      ConnectedIff(s, before);
      LastOfMore(before, turn, Connects);
      TurnConnects(Through(s, before), turn);
    }
  }

  lemma TurnConnects(s: LoopState, turn: Turn)
    ensures var after := Turned(s, turn);
      if Connects(turn) then
        (after.connected <==> turn.callback.Begun?) && (after.connected ==> after.active == turn.callback.generation)
      else after.connected == s.connected && after.active == s.active
  {
  }

  // ---- Subscription -----------------------------------------------------------------------------

  /** Everything but a message and a retry settles whether the subscription stands. */
  predicate Settles(turn: Turn) {
    turn.Takes? && !turn.callback.Message? && !turn.callback.Malformed?
  }

  /** The subscription stands exactly if the last of these turns was an answer that grants it. */
  lemma {:induction false} StandsIff(s: LoopState, turns: seq<Turn>)
    ensures var after := Through(s, turns);
      && (forall i :: IsLast(turns, i, Settles) ==> (after.ready <==> turns[i].callback.Suback? && turns[i].callback.ready))
      && (HasNone(turns, Settles) ==> after.ready == s.ready)
  {
    if turns != [] {
      var before, turn := turns[..|turns| - 1], turns[|turns| - 1];
      assert turns == before + [turn];
      StandsIff(s, before);
      LastOfMore(before, turn, Settles);
      TurnSettles(Through(s, before), turn);
    }
  }

  lemma TurnSettles(s: LoopState, turn: Turn)
    ensures Turned(s, turn).ready == if Settles(turn) then turn.callback.Suback? && turn.callback.ready else s.ready
  {
  }

  /** A request is made or given up: with a connection, by a retry, by an answer. */
  predicate AsksOrEnds(turn: Turn) {
    turn.Fires? || turn.callback.Begun? || turn.callback.Lost? || turn.callback.Suback?
  }

  /** A request that was handed over under this message id. */
  predicate Asks(turn: Turn, mid: int) {
    (turn.Fires? || turn.callback.Begun?) && turn.outcome == Accepted(mid)
  }

  /** An answer is waited for exactly if the last of these turns asked, and then under the id it was
      given. */
  lemma {:induction false} WaitsIff(s: LoopState, turns: seq<Turn>, mid: int)
    ensures var after := Through(s, turns);
      && (forall i :: IsLast(turns, i, AsksOrEnds) ==> (after.mid == Some(mid) <==> Asks(turns[i], mid)))
      && (HasNone(turns, AsksOrEnds) ==> after.mid == s.mid)
  {
    if turns != [] {
      var before, turn := turns[..|turns| - 1], turns[|turns| - 1];
      assert turns == before + [turn];
      WaitsIff(s, before, mid);
      LastOfMore(before, turn, AsksOrEnds);
    }
  }

  // ---- Retries ----------------------------------------------------------------------------------

  /** The retry is scheduled or dropped, unless a report finds one. */
  predicate MovesRetry(turn: Turn) {
    turn.Fires? || turn.callback.Begun? || turn.callback.Lost? || turn.callback.SubscriptionFailed?
    || (turn.callback.Suback? && turn.callback.ready)
  }

  /** A retry is ahead exactly if the last of these turns asked, or reported a refusal. */
  lemma {:induction false} RetryIff(s: LoopState, turns: seq<Turn>)
    ensures var after := Through(s, turns);
      && (forall i :: IsLast(turns, i, MovesRetry) ==>
           (after.retry.Some? <==> if turns[i].Takes? && !turns[i].callback.Begun? then turns[i].callback.SubscriptionFailed? else turns[i].outcome.Accepted?))
      && (HasNone(turns, MovesRetry) ==> after.retry == s.retry)
  {
    if turns != [] {
      var before, turn := turns[..|turns| - 1], turns[|turns| - 1];
      assert turns == before + [turn];
      RetryIff(s, before);
      LastOfMore(before, turn, MovesRetry);
    }
  }

  /** A report schedules the next retry after the present pause, if there is none, and leaves the rest;
      the pause doubles up to half an hour. */
  lemma ReportedRetries(s: LoopState, c: nat, outcome: SubscribeOutcome, since: nat, newest: nat)
    ensures var after := After(s, SubscriptionFailed(c), outcome, since, newest);
      if s.retry.Some? then after == s.(ready := false)
      else
        && after == s.(ready := false, retry := Some(Timer(s.seconds, c)), seconds := after.seconds)
        && (s.seconds <= 15 * 60 ==> after.seconds == 2 * s.seconds) && (15 * 60 < s.seconds ==> after.seconds == 30 * 60)
  {
  }

  /** A refused request is reported once, behind everything queued, by the connection it was made on. */
  lemma RefusedIsReported(s: LoopState, turn: Turn)
    requires turn.Fires? || turn.callback.Begun?
    ensures var after := Turned(s, turn);
      if turn.outcome.Accepted? then after.queue == s.queue
      else
        && |after.queue| == |s.queue| + 1 && after.queue[..|s.queue|] == s.queue
        && after.queue[|s.queue|].callback == SubscriptionFailed(if turn.Fires? then turn.client else turn.callback.client)
        && (turn.Takes? ==> after.seconds == 5 * 60)
  {
  }
}
