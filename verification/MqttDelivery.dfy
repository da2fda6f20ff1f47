/** That what arrives is delivered (local_mqtt.py lines 537 to 706): every publication that passes its
    guard is handed over or put aside, and no complete set is kept from its provider. */
module MqttDelivery {
  import opened Wrappers
  import opened MqttLog
  import opened MqttFeed
  import opened MqttTrace

  /** A publication that has to wait: of a primary topic, at QoS 1, while the set it belongs to has not
      been accepted. */
  predicate MustWait(phase: Phase, t: Topics, pub: Publication) {
    && pub.qos == 1
    && (pub.topic in {t.state, t.availability, t.runtime} || (t.withPresence && pub.topic == t.presence))
    && (phase == Waiting || (phase == ControlKnown && pub.topic in {t.state, t.availability}))
  }

  /** The log after a message has one entry that holds exactly that publication, and after it at most
      sets that the publication completed. */
  predicate IsDelivered(before: seq<Entry>, after: seq<Entry>, t: Topics, side: set<string>, pub: Publication) {
    var n := |before|;
    && n < |after| && after[..n] == before
    && if pub.topic in side then |after| == n + 1 && after[n].Side? && after[n].pub == pub
       else if MustWait(Replay(before).phase, t, pub) then
         after[n] == Buffered(pub) && forall k :: n < k < |after| ==> after[k].IsSet()
       else |after| == n + 1 && after[n].Live? && after[n].pub == pub
  }

  /** The set that is awaited, if it is complete. */
  function AwaitedSet(s: Standing, t: Topics): Option<map<string, Publication>> {
    match s.phase
    case Waiting =>
      if t.withPresence then
        if t.runtime in s.buffer && t.presence in s.buffer
        then Some(map[t.runtime := s.buffer[t.runtime], t.presence := s.buffer[t.presence]]) else None
      else if t.state in s.buffer && t.availability in s.buffer && t.runtime in s.buffer
      then Some(map[t.state := s.buffer[t.state], t.availability := s.buffer[t.availability], t.runtime := s.buffer[t.runtime]]) else None
    case ControlKnown =>
      if t.state in s.buffer && t.availability in s.buffer
      then Some(map[t.state := s.buffer[t.state], t.availability := s.buffer[t.availability]]) else None
    case Complete => None
  }

  /** It was offered as it stands and refused, and nothing was put aside since. */
  predicate WasRefused(log: seq<Entry>, awaited: map<string, Publication>, i: nat)
    requires i < |log|
  {
    log[i].IsSet() && !log[i].accepted && log[i].pubs == awaited && forall k :: i < k < |log| ==> log[k].Live? || log[k].Side?
  }

  /** A complete set still in the buffer is one that the provider refused. */
  ghost predicate NothingIsKept(log: seq<Entry>, t: Topics) {
    AwaitedSet(Replay(log), t).Some? ==> exists i :: 0 <= i < |log| && WasRefused(log, AwaitedSet(Replay(log), t).value, i)
  }

  /** A message callback that passes its guard delivers its publication. */
  lemma MessageIsDelivered(log: seq<Entry>, t: Topics, side: set<string>, s: Standing, ready: bool, pub: Publication, v: Verdicts)
    requires Replay(log).phase == s.phase
    ensures IsDelivered(log, log + Delivery(t, side, s, ready, pub, v), t, side, pub)
  {
    assert pub.topic in t.Primary() <==> pub.topic in {t.state, t.availability, t.runtime} || (t.withPresence && pub.topic == t.presence);
  }

  // ---- No complete set is kept ------------------------------------------------------------------

  lemma AwaitedParts(s: Standing, t: Topics)
    requires t.Distinct() && s.buffer.Keys <= t.Primary() && (s.phase == ControlKnown ==> t.withPresence)
    ensures s.phase == Waiting && t.withPresence ==>
      AwaitedSet(s, t) == if t.ControlSet() <= s.buffer.Keys then Some(Part(s.buffer, t.ControlSet())) else None
    ensures s.phase == Waiting && !t.withPresence ==> AwaitedSet(s, t) == if s.buffer.Keys == t.Primary() then Some(s.buffer) else None
    ensures s.phase == ControlKnown ==>
      AwaitedSet(s, t) == if t.SemanticSet() <= s.buffer.Keys then Some(Part(s.buffer, t.SemanticSet())) else None
  {
    var b := s.buffer;
    if t.ControlSet() <= b.Keys {
      assert Part(b, t.ControlSet()) == map[t.runtime := b[t.runtime], t.presence := b[t.presence]];
    }
    if t.SemanticSet() <= b.Keys {
      assert Part(b, t.SemanticSet()) == map[t.state := b[t.state], t.availability := b[t.availability]];
    }
    if !t.withPresence && b.Keys == t.Primary() {
      assert b == map[t.state := b[t.state], t.availability := b[t.availability], t.runtime := b[t.runtime]];
    }
  }

  /** Entries that leave the buffer alone keep nothing from anyone. */
  lemma SingleKeepsNothing(log: seq<Entry>, e: Entry, t: Topics)
    requires NothingIsKept(log, t) && (e.Live? || e.Side?)
    ensures NothingIsKept(log + [e], t)
  {
    assert (log + [e])[..|log|] == log;
    assert AwaitedSet(Replay(log + [e]), t) == AwaitedSet(Replay(log), t);
    if AwaitedSet(Replay(log), t).Some? {
      var awaited := AwaitedSet(Replay(log), t).value;
      var i :| 0 <= i < |log| && WasRefused(log, awaited, i);
      assert WasRefused(log + [e], awaited, i);
    }
  }

  lemma RefusedKeepsNothing(log: seq<Entry>, e: Entry, t: Topics)
    requires e.IsSet() && !e.accepted && AwaitedSet(Replay(log), t) == Some(e.pubs)
    ensures NothingIsKept(log + [e], t)
  {
    assert (log + [e])[..|log|] == log;
    assert WasRefused(log + [e], e.pubs, |log|);
  }

  lemma ClearedKeepsNothing(log: seq<Entry>, t: Topics)
    ensures NothingIsKept(log + [Cleared], t)
  {
    assert (log + [Cleared])[..|log|] == log;
  }

  lemma BufferedIsPrimary(log: seq<Entry>, t: Topics)
    requires WellOrdered(log, t) && t.Distinct()
    ensures Replay(log).buffer.Keys <= t.Primary()
  {
    forall topic | topic in Replay(log).buffer ensures topic in t.Primary() {
      NothingIsLeftBehind(log, t, topic);
    }
  }

  lemma SemanticHandoverKeepsNothing(log: seq<Entry>, t: Topics, v: Verdicts)
    requires WellOrdered(log, t) && t.Distinct() && t.withPresence && Replay(log).phase == ControlKnown
    ensures NothingIsKept(log + SemanticHandover(t, Replay(log).buffer, v), t)
  {
    var b := Replay(log).buffer;
    BufferedIsPrimary(log, t);
    AwaitedParts(Replay(log), t);
    if t.SemanticSet() <= b.Keys {
      var e := SemanticPair(Part(b, t.SemanticSet()), v.semantic);
      if v.semantic {
        assert (log + [e])[..|log|] == log;
      } else {
        RefusedKeepsNothing(log, e, t);
      }
    } else {
      assert log + SemanticHandover(t, b, v) == log;
    }
  }

  /** Whatever is buffered when the subscription is established, every complete set is offered. */
  lemma HandoverKeepsNothing(log: seq<Entry>, t: Topics, v: Verdicts)
    requires WellOrdered(log, t) && t.Distinct() && Replay(log).phase == Waiting
    ensures NothingIsKept(log + Handover(t, Replay(log).buffer, v), t)
  {
    var b := Replay(log).buffer;
    BufferedIsPrimary(log, t);
    AwaitedParts(Replay(log), t);
    if AwaitedSet(Replay(log), t).None? {
      assert log + Handover(t, b, v) == log;
    } else if t.withPresence {
      var e := ControlPair(Part(b, t.ControlSet()), v.control);
      if v.control {
        assert (log + [e])[..|log|] == log;
        assert e.pubs.Keys == t.ControlSet();
        RestIsUndisturbed(t, b, v);
        SemanticHandoverKeepsNothing(log + [e], t, v);
        assert log + [e] + SemanticHandover(t, b, v) == log + Handover(t, b, v);
      } else {
        assert log + [e] == log + Handover(t, b, v);
        RefusedKeepsNothing(log, e, t);
      }
    } else {
      var e := FullSet(b, v.full);
      if v.full {
        assert (log + [e])[..|log|] == log;
      } else {
        RefusedKeepsNothing(log, e, t);
      }
    }
  }

  lemma DeliveryKeepsNothing(log: seq<Entry>, t: Topics, side: set<string>, s: Standing, pub: Publication, v: Verdicts)
    requires WellOrdered(log, t) && t.Distinct() && NothingIsKept(log, t)
    requires Replay(log).phase == s.phase && Replay(log).buffer == s.buffer && (s.phase == ControlKnown ==> t.withPresence)
    ensures NothingIsKept(log + Delivery(t, side, s, true, pub, v), t)
  {
    if pub.topic !in side && MustWait(s.phase, t, pub) {
      var held := log + [Buffered(pub)];
      assert held[..|log|] == log;
      assert Replay(held).buffer == s.buffer[pub.topic := pub];
      if s.phase == Waiting {
        HandoverKeepsNothing(held, t, v);
        assert held + Handover(t, Replay(held).buffer, v) == log + Delivery(t, side, s, true, pub, v);
      } else {
        SemanticHandoverKeepsNothing(held, t, v);
        assert held + SemanticHandover(t, Replay(held).buffer, v) == log + Delivery(t, side, s, true, pub, v);
      }
    } else {
      assert |Delivery(t, side, s, true, pub, v)| == 1;
      SingleKeepsNothing(log, Delivery(t, side, s, true, pub, v)[0], t);
    }
  }

  /** Whatever a callback adds to the log, no complete set is kept once the subscription stands. */
  lemma EffectKeepsNothing(log: seq<Entry>, cb: Callback, t: Topics, side: set<string>, s: Standing, ready: bool, v: Verdicts)
    requires WellOrdered(log, t) && t.Distinct() && (ready ==> NothingIsKept(log, t))
    requires Replay(log).phase == s.phase && Replay(log).buffer == s.buffer && (s.phase == ControlKnown ==> t.withPresence)
    requires cb.Message? ==> ready
    requires cb.Suback? && cb.ready ==> s.phase == Waiting
    requires cb.Malformed? ==> ready
    ensures NothingIsKept(log + LogEffect(cb, t, side, s, ready, v), t)
  {
    match cb
    case Suback(_, _, granted, _) =>
      if granted {
        HandoverKeepsNothing(log, t, v);
      } else {
        ClearedKeepsNothing(log, t);
      }
    case Message(_, pub, _) => DeliveryKeepsNothing(log, t, side, s, pub, v);
    case Malformed(_, _) => assert log + [] == log;
    case _ => ClearedKeepsNothing(log, t);
  }
}
