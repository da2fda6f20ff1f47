/** What one MQTT subscription hands to its provider, in order (local_mqtt.py).

    A log entry is one delivery to the provider, or one publication put aside until the bootstrap set
    is complete, or the moment the put-aside ones were dropped.  `WellOrdered` is the bootstrap
    discipline, stated about every entry of a whole log. */
module MqttLog {

  datatype Publication = Publication(topic: string, payload: string, qos: int, retained: bool)

  /** The provider's topics (local_provider.py lines 1557 to 1575). */
  datatype Topics = Topics(state: string, availability: string, runtime: string, presence: string, withPresence: bool)
  {
    predicate Distinct() {
      && state != availability && runtime != presence
      && {state, availability} !! {runtime, presence}
    }

    function ControlSet(): set<string> { {runtime, presence} }
    function SemanticSet(): set<string> { {state, availability} }
    function Primary(): set<string> { {state, availability, runtime} + if withPresence then {presence} else {} }
  }

  datatype Entry =
    | Cleared
    | Buffered(pub: Publication)
    | ControlPair(pubs: map<string, Publication>, accepted: bool)
    | SemanticPair(pubs: map<string, Publication>, accepted: bool)
    | FullSet(pubs: map<string, Publication>, accepted: bool)
    | Live(pub: Publication, accepted: bool)
    | Side(pub: Publication, accepted: bool)
  {
    predicate IsSet() { ControlPair? || SemanticPair? || FullSet? }
  }

  /** How far the bootstrap has come since the last clearing. */
  datatype Phase = Waiting | ControlKnown | Complete

  /** What a log amounts to: the phase reached, what is still put aside (for each topic the last
      publication buffered and neither dropped nor handed over since) and how many were refused. */
  datatype Standing = Standing(phase: Phase, buffer: map<string, Publication>, refusals: int)

  function Next(s: Standing, e: Entry): Standing {
    match e
    case Cleared => Standing(Waiting, map[], s.refusals)
    case Buffered(pub) => s.(buffer := s.buffer[pub.topic := pub])
    case ControlPair(pubs, accepted) => if accepted then Standing(ControlKnown, s.buffer - pubs.Keys, s.refusals) else Refuse(s)
    case SemanticPair(pubs, accepted) => if accepted then Standing(Complete, s.buffer - pubs.Keys, s.refusals) else Refuse(s)
    case FullSet(pubs, accepted) => if accepted then Standing(Complete, s.buffer - pubs.Keys, s.refusals) else Refuse(s)
    case Live(_, accepted) => if accepted then s else Refuse(s)
    case Side(_, accepted) => if accepted then s else Refuse(s)
  }

  function Refuse(s: Standing): Standing {
    s.(refusals := s.refusals + 1)
  }

  function Replay(log: seq<Entry>): Standing {
    if log == [] then Standing(Waiting, map[], 0) else Next(Replay(log[..|log| - 1]), log[|log| - 1])
  }

  function Part(b: map<string, Publication>, topics: set<string>): map<string, Publication> {
    map topic | topic in topics && topic in b :: b[topic]
  }

  /** The bootstrap discipline (local_mqtt.py lines 577 to 650): a set may be handed over only in its
      phase, complete, and made of what is put aside. */
  predicate MayFollow(s: Standing, e: Entry, t: Topics) {
    match e
    case Cleared => true
    case Side(_, _) => true
    case Buffered(pub) =>
      pub.qos == 1 && pub.topic in t.Primary() &&
      (s.phase == Waiting || (s.phase == ControlKnown && pub.topic in t.SemanticSet()))
    case ControlPair(pubs, _) =>
      t.withPresence && pubs.Keys == t.ControlSet() && s.phase == Waiting && pubs == Part(s.buffer, t.ControlSet())
    case SemanticPair(pubs, _) =>
      t.withPresence && pubs.Keys == t.SemanticSet() && s.phase == ControlKnown && pubs == Part(s.buffer, t.SemanticSet())
    case FullSet(pubs, _) =>
      !t.withPresence && pubs.Keys == t.Primary() && s.phase == Waiting && pubs == Part(s.buffer, t.Primary())
    case Live(pub, _) =>
      pub.qos == 1 && pub.topic in t.Primary() ==>
        s.phase == Complete || (s.phase == ControlKnown && pub.topic !in t.SemanticSet())
  }

  predicate WellOrdered(log: seq<Entry>, t: Topics) {
    log != [] ==> WellOrdered(log[..|log| - 1], t) && MayFollow(Replay(log[..|log| - 1]), log[|log| - 1], t)
  }

  lemma LogGrows(log: seq<Entry>, e: Entry, t: Topics)
    requires WellOrdered(log, t) && MayFollow(Replay(log), e, t)
    ensures WellOrdered(log + [e], t) && Replay(log + [e]) == Next(Replay(log), e)
  {
    assert (log + [e])[..|log|] == log;
  }

  // ---- What the discipline says about a whole log -----------------------------------------------

  lemma {:induction false} EntryMayFollow(log: seq<Entry>, t: Topics, i: nat)
    requires WellOrdered(log, t) && i < |log|
    ensures WellOrdered(log[..i], t) && MayFollow(Replay(log[..i]), log[i], t)
  {
    var n := |log| - 1;
    if i < n {
      EntryMayFollow(log[..n], t, i);
      assert log[..n][..i] == log[..i];
    }
  }

  /** Nothing was dropped between the two positions. */
  predicate SameSession(log: seq<Entry>, i: nat, j: nat)
    requires i <= j <= |log|
  {
    forall k :: i <= k < j ==> log[k] != Cleared
  }

  predicate IsControl(e: Entry) {
    e.ControlPair? && e.accepted
  }

  predicate CompletesSemantic(e: Entry) {
    (e.SemanticPair? || e.FullSet?) && e.accepted
  }

  predicate Establishes(e: Entry, full: bool) {
    CompletesSemantic(e) || (!full && IsControl(e))
  }

  /** A phase was reached by an accepted set in the same session. */
  lemma {:induction false} PhaseHasCause(log: seq<Entry>) returns (i: nat)
    requires Replay(log).phase != Waiting
    ensures i < |log| && SameSession(log, i, |log|)
    ensures Establishes(log[i], Replay(log).phase == Complete)
  {
    var n := |log| - 1;
    if IsControl(log[n]) || CompletesSemantic(log[n]) {
      i := n;
    } else {
      i := PhaseHasCause(log[..n]);
    }
  }

  /** No QoS 1 publication of a primary topic is delivered live before the runtime and presence pair
      (or the full set) of the same session was accepted, and none of state or availability before
      the semantic pair was. */
  lemma LiveComesAfterBootstrap(log: seq<Entry>, t: Topics, j: nat) returns (i: nat)
    requires WellOrdered(log, t) && j < |log| && log[j].Live? && log[j].pub.qos == 1 && log[j].pub.topic in t.Primary()
    ensures i < j && SameSession(log, i, j)
    ensures Establishes(log[i], log[j].pub.topic in t.SemanticSet())
  {
    EntryMayFollow(log, t, j);
    i := PhaseHasCause(log[..j]);
    assert log[..j][i] == log[i];
    forall k | i <= k < j ensures log[k] != Cleared {
      assert log[..j][k] == log[k];
    }
  }

  /** Between the two positions the topic was neither put aside again nor handed over. */
  predicate Untouched(log: seq<Entry>, topic: string, i: nat, j: nat)
    requires i <= j <= |log|
  {
    forall k :: i <= k < j ==> Leaves(log[k], topic)
  }

  predicate Leaves(e: Entry, topic: string) {
    && (e.Buffered? ==> e.pub.topic != topic)
    && (e.IsSet() && e.accepted ==> topic !in e.pubs)
  }

  /** A bootstrap set is made of publications put aside in the same session, each the last of its
      topic and none of them handed over before. */
  lemma BootstrapHoldsTheLatest(log: seq<Entry>, t: Topics, j: nat, topic: string) returns (i: nat)
    requires WellOrdered(log, t) && j < |log| && log[j].IsSet() && topic in log[j].pubs
    ensures i < j && SameSession(log, i, j) && log[i] == Buffered(log[j].pubs[topic])
    ensures log[j].pubs[topic].topic == topic && log[j].pubs[topic].qos == 1
    ensures Untouched(log, topic, i + 1, j)
  {
    EntryMayFollow(log, t, j);
    i := PutAsideAt(log[..j], topic);
    assert log[..j][i] == log[i];
    EntryMayFollow(log, t, i);
    forall k | i <= k < j ensures log[k] != Cleared && (i < k ==> Leaves(log[k], topic)) {
      assert log[..j][k] == log[k];
    }
  }

  lemma {:induction false} PutAsideAt(log: seq<Entry>, topic: string) returns (i: nat)
    requires topic in Replay(log).buffer
    ensures i < |log| && SameSession(log, i, |log|)
    ensures log[i] == Buffered(Replay(log).buffer[topic]) && log[i].pub.topic == topic
    ensures Untouched(log, topic, i + 1, |log|)
  {
    var n := |log| - 1;
    if log[n].Buffered? && log[n].pub.topic == topic {
      i := n;
    } else {
      i := PutAsideAt(log[..n], topic);
    }
  }

  /** Once a bootstrap is complete, nothing put aside in it is still waiting; after its first half,
      nothing but state and availability is. */
  lemma {:induction false} NothingIsLeftBehind(log: seq<Entry>, t: Topics, topic: string)
    requires WellOrdered(log, t) && t.Distinct() && topic in Replay(log).buffer
    ensures Replay(log).phase != Complete
    ensures Replay(log).phase == ControlKnown ==> topic in t.SemanticSet()
    ensures topic in t.Primary()
  {
    var n := |log| - 1;
    if !(log[n].Buffered? && log[n].pub.topic == topic) {
      NothingIsLeftBehind(log[..n], t, topic);
    }
  }
}
