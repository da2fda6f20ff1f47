/** The providers behind one MQTT subscription, and the buffer in front of the primary one
    (local_mqtt.py lines 537 to 706).

    Here the fields `_retained_bootstrap`, `_semantic_bootstrap_pending` and `_rejected_messages` of
    the subscriber are kept beside the readiness it last told each provider. */
module MqttFeed {
  import opened Wrappers
  import opened MqttLog

  /** Whether the provider takes what it is handed in this callback. */
  datatype Verdicts = Verdicts(control: bool, semantic: bool, full: bool, single: bool)

  /** What the provider is handed once the buffer is `b` and state and availability are awaited. */
  function SemanticHandover(t: Topics, b: map<string, Publication>, v: Verdicts): seq<Entry> {
    if t.SemanticSet() <= b.Keys then [SemanticPair(Part(b, t.SemanticSet()), v.semantic)] else []
  }

  /** What the provider is handed once the buffer is `b` and nothing has been accepted yet. */
  function Handover(t: Topics, b: map<string, Publication>, v: Verdicts): seq<Entry> {
    if t.withPresence then
      if !(t.ControlSet() <= b.Keys) then []
      else [ControlPair(Part(b, t.ControlSet()), v.control)] + if v.control then SemanticHandover(t, b, v) else []
    else if b.Keys == t.Primary() then [FullSet(b, v.full)] else []
  }

  /** What one message makes the providers be handed, and what is put aside. */
  function Delivery(t: Topics, side: set<string>, s: Standing, ready: bool, pub: Publication, v: Verdicts): seq<Entry> {
    if pub.topic in side then [Side(pub, v.single)]
    else if pub.topic !in t.Primary() || pub.qos != 1 then [Live(pub, v.single)]
    else if s.phase == Waiting then [Buffered(pub)] + if ready then Handover(t, s.buffer[pub.topic := pub], v) else []
    else if s.phase == ControlKnown && pub.topic in t.SemanticSet() then
      [Buffered(pub)] + SemanticHandover(t, s.buffer[pub.topic := pub], v)
    else [Live(pub, v.single)]
  }

  /** Taking runtime and presence out of the buffer does not change what follows them. */
  lemma RestIsUndisturbed(t: Topics, b: map<string, Publication>, v: Verdicts)
    requires t.Distinct()
    ensures SemanticHandover(t, b - t.ControlSet(), v) == SemanticHandover(t, b, v)
  {
    var rest := b - t.ControlSet();
    assert t.SemanticSet() <= rest.Keys <==> t.SemanticSet() <= b.Keys;
    assert Part(rest, t.SemanticSet()) == Part(b, t.SemanticSet());
  }

  class ProviderFeed {
    const topics: Topics
    const readTopics: Option<set<string>>
    const energyTopics: Option<set<string>>

    var bootstrap: map<string, Publication>
    var semanticPending: bool
    var rejected: nat
    var transportReady: bool
    var readReady: bool
    var energyReady: bool

    // Everything handed over or put aside, and how many malformed messages were counted.
    ghost var log: seq<Entry>
    ghost var noted: nat

    ghost function Standing(): Standing
      reads this
    {
      MqttLog.Standing.Standing(
        if !transportReady then Waiting else if semanticPending then ControlKnown else Complete, bootstrap, rejected - noted)
    }

    /** The fields are what the log makes them, and the log keeps the bootstrap discipline. */
    ghost predicate Valid()
      reads this
    {
      && topics.Distinct()
      && (semanticPending ==> transportReady && topics.withPresence)
      && WellOrdered(log, topics) && Replay(log) == Standing()
    }

    /** No provider has been told its transport is ready. */
    predicate Closed()
      reads this
    {
      !transportReady && !readReady && !energyReady
    }

    constructor (topics: Topics, readTopics: Option<set<string>>, energyTopics: Option<set<string>>)
      requires topics.Distinct()
      ensures Valid() && log == [] && noted == 0 && Closed()
      ensures this.topics == topics && this.readTopics == readTopics && this.energyTopics == energyTopics
    {
      this.topics, this.readTopics, this.energyTopics := topics, readTopics, energyTopics;
      bootstrap, semanticPending, rejected := map[], false, 0;
      transportReady, readReady, energyReady := false, false, false;
      log, noted := [], 0;
    }

    function SideTopics(): set<string> {
      (if energyTopics.Some? then energyTopics.value else {}) + if readTopics.Some? then readTopics.value else {}
    }

    /** All providers are told the transport is down and the buffer is dropped. */
    method Forget()
      requires Valid()
      modifies this
      ensures Valid() && log == old(log) + [Cleared] && noted == old(noted)
      ensures Closed()
    {
      LogGrows(log, Cleared, topics);
      log := log + [Cleared];
      bootstrap, semanticPending := map[], false;
      transportReady, readReady, energyReady := false, false, false;
    }

    method PutAside(pub: Publication)
      requires Valid() && MayFollow(Replay(log), Buffered(pub), topics)
      modifies `bootstrap, `log
      ensures Valid() && log == old(log) + [Buffered(pub)] && bootstrap == old(bootstrap)[pub.topic := pub]
    {
      LogGrows(log, Buffered(pub), topics);
      log := log + [Buffered(pub)];
      bootstrap := bootstrap[pub.topic := pub];
    }

    /** One delivery that leaves the buffer as it is: a single publication, or a refused set. */
    method Deliver(e: Entry)
      requires e.Live? || e.Side? || (e.IsSet() && !e.accepted)
      requires Valid() && MayFollow(Replay(log), e, topics)
      modifies `rejected, `log
      ensures Valid() && log == old(log) + [e]
    {
      LogGrows(log, e, topics);
      log := log + [e];
      if !e.accepted {
        rejected := rejected + 1;
      }
    }

    /** Lines 634 to 650. */
    method DrainSemanticBootstrap(v: Verdicts)
      requires Valid()
      modifies `bootstrap, `semanticPending, `rejected, `log
      ensures Valid()
      ensures log == old(log) + if old(semanticPending) then SemanticHandover(topics, old(bootstrap), v) else []
    {
      if !semanticPending || !(topics.SemanticSet() <= bootstrap.Keys) {
        return;
      }
      var e := SemanticPair(Part(bootstrap, topics.SemanticSet()), v.semantic);
      assert e.pubs.Keys == topics.SemanticSet();
      if v.semantic {
        LogGrows(log, e, topics);
        log := log + [e];
        bootstrap := bootstrap - e.pubs.Keys;
        semanticPending := false;
      } else {
        Deliver(e);
      }
    }

    method AdoptControl(e: Entry)
      requires Valid() && e.ControlPair? && e.accepted && MayFollow(Replay(log), e, topics)
      modifies `bootstrap, `semanticPending, `transportReady, `log
      ensures Valid() && semanticPending && log == old(log) + [e] && bootstrap == old(bootstrap) - topics.ControlSet()
    {
      LogGrows(log, e, topics);
      log := log + [e];
      bootstrap := bootstrap - e.pubs.Keys;
      semanticPending, transportReady := true, true;
    }

    /** The runtime and presence pair (lines 602 to 622). */
    method DrainControlBootstrap(v: Verdicts)
      requires Valid() && !transportReady && topics.withPresence
      modifies `bootstrap, `semanticPending, `rejected, `transportReady, `log
      ensures Valid() && log == old(log) + Handover(topics, old(bootstrap), v)
    {
      if !(topics.ControlSet() <= bootstrap.Keys) {
        return;
      }
      var e := ControlPair(Part(bootstrap, topics.ControlSet()), v.control);
      assert e.pubs.Keys == topics.ControlSet();
      if v.control {
        RestIsUndisturbed(topics, bootstrap, v);
        AdoptControl(e);
        DrainSemanticBootstrap(v);
      } else {
        Deliver(e);
      }
    }

    /** Without presence, the full set (lines 623 to 632). */
    method DrainFullBootstrap(v: Verdicts)
      requires Valid() && !transportReady && !topics.withPresence
      modifies `bootstrap, `rejected, `transportReady, `log
      ensures Valid() && log == old(log) + Handover(topics, old(bootstrap), v)
    {
      if bootstrap.Keys != topics.Primary() {
        return;
      }
      var e := FullSet(bootstrap, v.full);
      assert bootstrap == Part(bootstrap, topics.Primary());
      if v.full {
        LogGrows(log, e, topics);
        assert bootstrap - bootstrap.Keys == map[];
        log := log + [e];
        bootstrap, transportReady := map[], true;
      } else {
        Deliver(e);
      }
    }

    method DrainRetainedBootstrap(ready: bool, v: Verdicts)
      requires Valid() && !transportReady
      modifies `bootstrap, `semanticPending, `rejected, `transportReady, `log
      ensures Valid() && (transportReady ==> ready)
      ensures log == old(log) + if ready then Handover(topics, old(bootstrap), v) else []
    {
      if !ready {
        return;
      }
      if topics.withPresence {
        DrainControlBootstrap(v);
      } else {
        DrainFullBootstrap(v);
      }
    }

    /** Lines 537 to 549 with `ready` true; what was buffered before the SUBACK is kept. */
    method Open(v: Verdicts)
      requires Valid() && !transportReady
      modifies this
      ensures Valid() && noted == old(noted) && log == old(log) + Handover(topics, old(bootstrap), v)
      ensures readReady == readTopics.Some? && energyReady == energyTopics.Some?
    {
      readReady, energyReady := readTopics.Some?, energyTopics.Some?;
      DrainRetainedBootstrap(true, v);
    }

    method HoldUntilBootstrap(pub: Publication, ready: bool, v: Verdicts)
      requires Valid() && !transportReady && pub.qos == 1 && pub.topic in topics.Primary()
      modifies `bootstrap, `semanticPending, `rejected, `transportReady, `log
      ensures Valid() && (transportReady ==> ready)
      ensures log == old(log) + ([Buffered(pub)] + if ready then Handover(topics, old(bootstrap)[pub.topic := pub], v) else [])
    {
      PutAside(pub);
      DrainRetainedBootstrap(ready, v);
    }

    method HoldUntilSemantic(pub: Publication, v: Verdicts)
      requires Valid() && semanticPending && pub.qos == 1 && pub.topic in topics.SemanticSet()
      modifies `bootstrap, `semanticPending, `rejected, `log
      ensures Valid()
      ensures log == old(log) + ([Buffered(pub)] + SemanticHandover(topics, old(bootstrap)[pub.topic := pub], v))
    {
      PutAside(pub);
      DrainSemanticBootstrap(v);
    }

    /** Lines 567 to 597, once the callback has passed its guard. */
    method Dispatch(pub: Publication, ready: bool, v: Verdicts)
      requires Valid() && (transportReady ==> ready)
      modifies `bootstrap, `semanticPending, `rejected, `transportReady, `log
      ensures Valid() && (transportReady ==> ready)
      ensures log == old(log) + Delivery(topics, SideTopics(), old(Standing()), ready, pub, v)
    {
      if pub.topic in SideTopics() {
        Deliver(Side(pub, v.single));
      } else if pub.topic !in topics.Primary() || pub.qos != 1 {
        Deliver(Live(pub, v.single));
      } else if !transportReady {
        HoldUntilBootstrap(pub, ready, v);
      } else if semanticPending && pub.topic in topics.SemanticSet() {
        HoldUntilSemantic(pub, v);
      } else {
        Deliver(Live(pub, v.single));
      }
    }

    method NoteTransportRejection()
      requires Valid()
      modifies `rejected, `noted
      ensures Valid() && rejected == old(rejected) + 1 && noted == old(noted) + 1
    {
      rejected, noted := rejected + 1, noted + 1;
    }
  }
}
