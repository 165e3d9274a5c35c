/** The broker's topic index and its subscriber gauge, one function per critical section. */
module BrokerIndex {
  import opened Common

  type Topic = Bytes

  /** `Broker.topics` and the gauge `PubSubSubscribers`; a topic without a gauge entry counts 0. */
  datatype Index<S(==)> = Index(topics: map<Topic, set<S>>, gauge: map<Topic, int>)

  function Subscribers<S(==)>(x: Index<S>, t: Topic): set<S> {
    if t in x.topics then x.topics[t] else {}
  }

  function Gauge<S(==)>(x: Index<S>, t: Topic): int {
    if t in x.gauge then x.gauge[t] else 0
  }

  /** `Broker.subscribe`: the gauge goes up whether or not the session was there already. */
  function Add<S(==)>(x: Index<S>, s: S, t: Topic): Index<S> {
    Index(x.topics[t := Subscribers(x, t) + {s}], x.gauge[t := Gauge(x, t) + 1])
  }

  /** `Broker.unsubscribe`. */
  function Remove<S(==)>(x: Index<S>, s: S, t: Topic): Index<S> {
    if t !in x.topics then x
    else
      var rest := x.topics[t] - {s};
      Index(if rest == {} then x.topics - {t} else x.topics[t := rest],
            if s in x.topics[t] then x.gauge[t := Gauge(x, t) - 1] else x.gauge)
  }

  /** `Broker.removeSession` on the topics in `ts`. */
  function RemoveFrom<S(==)>(x: Index<S>, s: S, ts: set<Topic>): Index<S> {
    Index(map t | t in x.topics && (t !in ts || x.topics[t] - {s} != {}) ::
            if t in ts then x.topics[t] - {s} else x.topics[t],
          map t | t in x.gauge.Keys + (x.topics.Keys * ts) && (t in x.gauge || s in Subscribers(x, t)) ::
            if t in ts && s in Subscribers(x, t) then Gauge(x, t) - 1 else Gauge(x, t))
  }

  function RemoveAll<S(==)>(x: Index<S>, s: S): Index<S> { RemoveFrom(x, s, x.topics.Keys) }

  /** The gauge of each topic is the size of its subscriber set, and no empty set is stored. */
  ghost predicate Agrees<S>(x: Index<S>) {
    && (forall t: Topic :: Gauge(x, t) == |Subscribers(x, t)|)
    && (forall t :: t in x.topics ==> x.topics[t] != {})
  }

  lemma AddMeaning<S>(x: Index<S>, s: S, t: Topic, u: Topic)
    ensures Subscribers(Add(x, s, t), u) == Subscribers(x, u) + (if u == t then {s} else {})
    ensures Gauge(Add(x, s, t), u) == Gauge(x, u) + (if u == t then 1 else 0)
  {
  }

  lemma RemoveMeaning<S>(x: Index<S>, s: S, t: Topic, u: Topic)
    ensures Subscribers(Remove(x, s, t), u) == Subscribers(x, u) - (if u == t then {s} else {})
    ensures Gauge(Remove(x, s, t), u) == Gauge(x, u) - (if u == t && s in Subscribers(x, u) then 1 else 0)
  {
  }

  lemma RemoveAllMeaning<S>(x: Index<S>, s: S, u: Topic)
    ensures Subscribers(RemoveAll(x, s), u) == Subscribers(x, u) - {s}
    ensures Gauge(RemoveAll(x, s), u) == Gauge(x, u) - (if s in Subscribers(x, u) then 1 else 0)
  {
  }

  /** The unconditional increment keeps gauge and sets together exactly when the session is new to
      the topic; the guard for that is in the session, not here. */
  lemma AddAgreesIffNew<S>(x: Index<S>, s: S, t: Topic)
    requires Agrees(x)
    ensures Agrees(Add(x, s, t)) <==> s !in Subscribers(x, t)
  {
    var y, old' := Add(x, s, t), Subscribers(x, t);
    assert forall u :: u in y.topics ==> y.topics[u] != {};
    hide Add, Subscribers, Gauge;
    if s in old' {
      AddMeaning(x, s, t, t);
      assert old' + {s} == old';
      assert Gauge(y, t) != |Subscribers(y, t)|;
    } else {
      forall u: Topic ensures Gauge(y, u) == |Subscribers(y, u)| {
        AddMeaning(x, s, t, u);
        if u == t { assert |old' + {s}| == |old'| + 1; } else { assert Subscribers(x, u) + {} == Subscribers(x, u); }
      }
    }
  }

  lemma RemoveAgrees<S>(x: Index<S>, s: S, t: Topic)
    requires Agrees(x)
    ensures Agrees(Remove(x, s, t))
  {
    var y := Remove(x, s, t);
    forall u: Topic ensures Gauge(y, u) == |Subscribers(y, u)| {
      RemoveMeaning(x, s, t, u);
      if u == t && s in Subscribers(x, u) { assert |Subscribers(x, u) - {s}| == |Subscribers(x, u)| - 1; }
    }
  }

  lemma RemoveAllAgrees<S>(x: Index<S>, s: S)
    requires Agrees(x)
    ensures Agrees(RemoveAll(x, s))
  {
    var y := RemoveAll(x, s);
    forall u: Topic ensures Gauge(y, u) == |Subscribers(y, u)| {
      RemoveAllMeaning(x, s, u);
      if s in Subscribers(x, u) { assert |Subscribers(x, u) - {s}| == |Subscribers(x, u)| - 1; }
    }
  }
}
