/** The `Broker` and `Session` objects, each method against the functions of the index. */
module BrokerObjects {
  import opened Common
  import opened Wire
  import opened BrokerIndex

  const OUT_DATAGRAM_DEPTH: nat := 128

  /** The newest `n` of `q`. */
  function Newest(q: seq<Frame>, n: nat): (r: seq<Frame>)
    ensures |r| == if |q| < n then |q| else n
    ensures r == q[|q| - |r|..]
  {
    if |q| <= n then q else q[|q| - n..]
  }

  class Broker {
    var topics: map<Topic, set<Session>>
    /** `PubSubSubscribers` by topic. */
    var gauge: map<Topic, int>

    constructor ()
      ensures Abs() == Index(map[], map[])
    {
      topics, gauge := map[], map[];
    }

    ghost function Abs(): Index<Session>
      reads this
    {
      Index(topics, gauge)
    }

    /** `Inc` and `Dec` of the gauge of one topic. */
    method AddToGauge(t: Topic, d: int)
      modifies this`gauge
      ensures gauge == old(gauge)[t := Gauge(old(Abs()), t) + d]
    {
      gauge := gauge[t := (if t in gauge then gauge[t] else 0) + d];
    }

    method Subscribe(sess: Session, t: Topic)
      modifies this
      ensures Abs() == Add(old(Abs()), sess, t)
    {
      var subs := {};
      if t in topics { subs := topics[t]; }
      topics := topics[t := subs + {sess}];
      AddToGauge(t, 1);
    }

    method Unsubscribe(sess: Session, t: Topic)
      modifies this
      ensures Abs() == Remove(old(Abs()), sess, t)
    {
      if t !in topics { return; }
      var subs := topics[t];
      if sess in subs { AddToGauge(t, -1); }
      topics := topics[t := subs - {sess}];
      if topics[t] == {} {
        topics := topics - {t};
        assert topics == old(topics) - {t};
      }
    }

    /** `removeSession`: every topic in turn, in any order, deleting topics that become empty. */
    method RemoveSession(sess: Session)
      modifies this
      ensures Abs() == RemoveAll(old(Abs()), sess)
    {
      ghost var was := Abs();
      var todo := topics.Keys;
      assert Abs() == RemoveFrom(was, sess, {});
      while todo != {}
        invariant todo <= was.topics.Keys
        invariant forall t :: t in todo ==> t in topics && topics[t] == was.topics[t]
        invariant Abs() == RemoveFrom(was, sess, was.topics.Keys - todo)
        decreases todo
      {
        var t :| t in todo;
        ghost var seen := was.topics.Keys - todo;
        RemoveTopic(sess, t);
        RemoveNext(was, sess, seen, t);
        todo := todo - {t};
        assert was.topics.Keys - todo == seen + {t};
      }
      assert was.topics.Keys - todo == was.topics.Keys;
    }

    /** One turn of the loop of `removeSession`. */
    method RemoveTopic(sess: Session, t: Topic)
      requires t in topics
      modifies this
      ensures Abs() == Remove(old(Abs()), sess, t)
    {
      Unsubscribe(sess, t);
    }

    /** `Publish` on datagrams, with nobody else at work: a snapshot, then each subscriber in turn. */
    method PublishDatagram(frame: Frame)
      requires forall s :: s in Subscribers(Abs(), frame.topic) ==> |s.outDatagram| <= OUT_DATAGRAM_DEPTH
      modifies set s | s in Subscribers(Abs(), frame.topic) :: s`outDatagram
      ensures forall s :: s in Subscribers(Abs(), frame.topic) ==>
        s.outDatagram == Newest(old(s.outDatagram) + [frame], 128)
    {
      var subscribers := {};
      if frame.topic in topics { subscribers := topics[frame.topic]; }
      var todo := subscribers;
      while todo != {}
        invariant todo <= subscribers
        invariant forall s :: s in todo ==> s.outDatagram == old(s.outDatagram)
        invariant forall s :: s in subscribers - todo ==>
          s.outDatagram == Newest(old(s.outDatagram) + [frame], OUT_DATAGRAM_DEPTH)
        decreases todo
      {
        var s :| s in todo;
        s.EnqueueDatagram(frame);
        todo := todo - {s};
      }
    }
  }

  /** Removing the session from one more topic. */
  lemma RemoveNext<S>(x: Index<S>, s: S, seen: set<Topic>, t: Topic)
    requires t in x.topics && t !in seen
    ensures Remove(RemoveFrom(x, s, seen), s, t) == RemoveFrom(x, s, seen + {t})
  {
    RemoveNextTopics(x, s, seen, t);
    RemoveNextGauge(x, s, seen, t);
    hide Remove, RemoveFrom;
    var a, b := Remove(RemoveFrom(x, s, seen), s, t), RemoveFrom(x, s, seen + {t});
    assert a.topics == b.topics && a.gauge == b.gauge;
  }

  lemma RemoveNextTopics<S>(x: Index<S>, s: S, seen: set<Topic>, t: Topic)
    requires t in x.topics && t !in seen
    ensures Remove(RemoveFrom(x, s, seen), s, t).topics == RemoveFrom(x, s, seen + {t}).topics
  {
    hide Gauge;
  }

  lemma RemoveNextGauge<S>(x: Index<S>, s: S, seen: set<Topic>, t: Topic)
    requires t in x.topics && t !in seen
    ensures Remove(RemoveFrom(x, s, seen), s, t).gauge == RemoveFrom(x, s, seen + {t}).gauge
  {
  }

  class Session {
    const broker: Broker
    var subs: set<Topic>
    var outDatagram: seq<Frame>

    constructor (broker: Broker)
      ensures this.broker == broker && subs == {} && outDatagram == []
    {
      this.broker := broker;
      subs, outDatagram := {}, [];
    }

    /** `subscribe`: the guard that makes the broker's unconditional increment right. */
    method Subscribe(t: Topic)
      modifies this`subs, broker
      ensures subs == old(subs) + {t}
      ensures broker.Abs() == if t in old(subs) then old(broker.Abs()) else Add(old(broker.Abs()), this, t)
    {
      if t in subs { return; }
      subs := subs + {t};
      broker.Subscribe(this, t);
    }

    method Unsubscribe(t: Topic)
      modifies this`subs, broker
      ensures subs == old(subs) - {t}
      ensures broker.Abs() == Remove(old(broker.Abs()), this, t)
    {
      subs := subs - {t};
      broker.Unsubscribe(this, t);
    }

    method Cleanup()
      modifies broker
      ensures broker.Abs() == RemoveAll(old(broker.Abs()), this)
    {
      broker.RemoveSession(this);
    }

    /** `enqueueDatagram` with nobody else at work: the oldest frame makes room when there is none. */
    method EnqueueDatagram(frame: Frame)
      requires |outDatagram| <= OUT_DATAGRAM_DEPTH
      modifies this`outDatagram
      ensures outDatagram == Newest(old(outDatagram) + [frame], 128)
    {
      if |outDatagram| < OUT_DATAGRAM_DEPTH {
        outDatagram := outDatagram + [frame];
        return;
      }
      if outDatagram != [] { outDatagram := outDatagram[1..]; }
      outDatagram := outDatagram + [frame];
    }
  }
}
