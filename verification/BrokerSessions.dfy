/** Sessions subscribing, unsubscribing and closing in any interleaving of their critical sections. */
module BrokerSessions {
  import opened BrokerIndex

  type SessionId = nat

  /** Where a session's control loop stands: between frames, between the two critical sections of
      `subscribe` or `unsubscribe`, or past `cleanup`. */
  datatype Control = Ready | Subscribing(topic: Topic) | Unsubscribing(topic: Topic) | Closed

  /** One session: `Session.subs` and its control loop. */
  datatype Session = Session(subs: set<Topic>, control: Control)

  datatype Sys = Sys(index: Index<SessionId>, sessions: map<SessionId, Session>)

  const Init := Sys(Index(map[], map[]), map[])

  datatype Action =
    | Open
    | SubscribeLocal(topic: Topic)    // session.go, under subsMu
    | SubscribeBroker                 // broker.go, under mu
    | UnsubscribeLocal(topic: Topic)
    | UnsubscribeBroker
    | Cleanup

  predicate Enabled(x: Sys, s: SessionId, a: Action) {
    match a
    case Open => s !in x.sessions
    case SubscribeLocal(_) => s in x.sessions && x.sessions[s].control.Ready?
    case UnsubscribeLocal(_) => s in x.sessions && x.sessions[s].control.Ready?
    case Cleanup => s in x.sessions && x.sessions[s].control.Ready?
    case SubscribeBroker => s in x.sessions && x.sessions[s].control.Subscribing?
    case UnsubscribeBroker => s in x.sessions && x.sessions[s].control.Unsubscribing?
  }

  function Act(x: Sys, s: SessionId, a: Action): Sys
    requires Enabled(x, s, a)
  {
    match a
    case Open => x.(sessions := x.sessions[s := Session({}, Ready)])
    case SubscribeLocal(t) =>
      var subs := x.sessions[s].subs;
      if t in subs then x else x.(sessions := x.sessions[s := Session(subs + {t}, Subscribing(t))])
    case UnsubscribeLocal(t) =>
      x.(sessions := x.sessions[s := Session(x.sessions[s].subs - {t}, Unsubscribing(t))])
    case SubscribeBroker =>
      Sys(Add(x.index, s, x.sessions[s].control.topic), x.sessions[s := x.sessions[s].(control := Ready)])
    case UnsubscribeBroker =>
      Sys(Remove(x.index, s, x.sessions[s].control.topic), x.sessions[s := x.sessions[s].(control := Ready)])
    case Cleanup =>
      Sys(RemoveAll(x.index, s), x.sessions[s := x.sessions[s].(control := Closed)])
  }

  /** Whether the broker lists session `s` under `t`, as the session's own state predicts it. */
  ghost predicate Listed(x: Sys, s: SessionId, t: Topic) {
    var listed := s in Subscribers(x.index, t);
    if s !in x.sessions then !listed
    else
      match x.sessions[s].control
      case Ready => listed <==> t in x.sessions[s].subs
      case Closed => !listed
      case Subscribing(u) => if t == u then !listed && t in x.sessions[s].subs else listed <==> t in x.sessions[s].subs
      case Unsubscribing(u) => if t == u then t !in x.sessions[s].subs else listed <==> t in x.sessions[s].subs
  }

  ghost predicate Consistent(x: Sys) {
    Agrees(x.index) && forall s: SessionId, t: Topic :: Listed(x, s, t)
  }

  /** Who is listed under which topic changes for the acting session only. */
  lemma ActSubscribers(x: Sys, s: SessionId, a: Action, u: Topic)
    requires Enabled(x, s, a)
    ensures var y := Act(x, s, a).index;
      match a
      case SubscribeBroker =>
        Subscribers(y, u) == Subscribers(x.index, u) + (if u == x.sessions[s].control.topic then {s} else {})
      case UnsubscribeBroker =>
        Subscribers(y, u) == Subscribers(x.index, u) - (if u == x.sessions[s].control.topic then {s} else {})
      case Cleanup => Subscribers(y, u) == Subscribers(x.index, u) - {s}
      case _ => Subscribers(y, u) == Subscribers(x.index, u)
  {
    hide Subscribers, Add, Remove, RemoveAll;
    match a
    case SubscribeBroker => AddMeaning(x.index, s, x.sessions[s].control.topic, u);
    case UnsubscribeBroker => RemoveMeaning(x.index, s, x.sessions[s].control.topic, u);
    case Cleanup => RemoveAllMeaning(x.index, s, u);
    case _ =>
  }

  /** Every critical section of every session keeps index, gauge and sessions consistent. */
  lemma ActKeepsConsistent(x: Sys, s: SessionId, a: Action)
    requires Consistent(x) && Enabled(x, s, a)
    ensures Consistent(Act(x, s, a))
  {
    hide Subscribers, Gauge, Add, Remove, RemoveAll, Agrees;
    var y := Act(x, s, a);
    forall r: SessionId, u: Topic ensures Listed(y, r, u) {
      assert Listed(x, r, u);
      ActSubscribers(x, s, a, u);
    }
    match a
    case SubscribeBroker =>
      assert Listed(x, s, x.sessions[s].control.topic);
      AddAgreesIffNew(x.index, s, x.sessions[s].control.topic);
    case UnsubscribeBroker => RemoveAgrees(x.index, s, x.sessions[s].control.topic);
    case Cleanup => RemoveAllAgrees(x.index, s);
    case _ =>
  }

  /** Session `s` is open and its own set holds `t`, or it is just giving `t` up. */
  ghost predicate Subscribed(x: Sys, s: SessionId, t: Topic) {
    && s in x.sessions && x.sessions[s].control != Closed
    && (t in x.sessions[s].subs || x.sessions[s].control == Unsubscribing(t))
  }

  /** Any interleaving: who wants to do what, in order; what is not enabled does not happen. */
  function Run(run: seq<(SessionId, Action)>): Sys {
    if run == [] then Init
    else
      var x := Run(run[..|run| - 1]);
      var (s, a) := run[|run| - 1];
      if Enabled(x, s, a) then Act(x, s, a) else x
  }

  lemma {:induction false} RunConsistent(run: seq<(SessionId, Action)>)
    ensures Consistent(Run(run))
  {
    hide Act, Enabled, Consistent;
    if run == [] {
      InitConsistent();
    } else {
      var x := Run(run[..|run| - 1]);
      var (s, a) := run[|run| - 1];
      RunConsistent(run[..|run| - 1]);
      if Enabled(x, s, a) { ActKeepsConsistent(x, s, a); }
    }
  }

  /** Subscription index agreement, in every interleaving: the gauge of a topic is the size of its
      set, no empty set is stored, between control frames a session is listed under exactly the
      topics of its own `subs`, and a session that has been cleaned up is listed nowhere. */
  lemma IndexAgreement(run: seq<(SessionId, Action)>, s: SessionId, t: Topic)
    ensures var x := Run(run);
      && Gauge(x.index, t) == |Subscribers(x.index, t)|
      && (t in x.index.topics ==> x.index.topics[t] != {})
      && (s in x.sessions && x.sessions[s].control == Ready ==>
            (s in Subscribers(x.index, t) <==> t in x.sessions[s].subs))
      && (s in Subscribers(x.index, t) ==> Subscribed(x, s, t))
  {
    hide Run;
    RunConsistent(run);
    assert Listed(Run(run), s, t);
  }

  lemma InitConsistent()
    ensures Consistent(Init)
  {
  }

  // ---------- what a session asks for is what it gets ----------

  /** Step `i` of the run is action `a` of session `s`, and it happens. */
  ghost predicate Asks(run: seq<(SessionId, Action)>, i: nat, s: SessionId, a: Action) {
    i < |run| && run[i] == (s, a) && Enabled(Run(run[..i]), s, a)
  }

  /** Session `s` has asked for `t`, and has not asked to drop it since. */
  ghost predicate Wants(run: seq<(SessionId, Action)>, s: SessionId, t: Topic) {
    exists i: nat :: Asks(run, i, s, SubscribeLocal(t)) && DropsNot(run, i, s, t)
  }

  ghost predicate DropsNot(run: seq<(SessionId, Action)>, i: nat, s: SessionId, t: Topic) {
    forall j: nat :: i < j ==> !Asks(run, j, s, UnsubscribeLocal(t))
  }

  lemma AsksAppend(run: seq<(SessionId, Action)>, m: (SessionId, Action), i: nat, s: SessionId, a: Action)
    ensures Asks(run + [m], i, s, a) <==>
      Asks(run, i, s, a) || (i == |run| && m == (s, a) && Enabled(Run(run), s, a))
  {
    hide Run, Enabled;
    if i <= |run| { assert (run + [m])[..i] == run[..i] && run[..|run|] == run; }
  }

  lemma WantsAppend(run: seq<(SessionId, Action)>, m: (SessionId, Action), s: SessionId, t: Topic)
    ensures Wants(run + [m], s, t) <==>
      if m == (s, SubscribeLocal(t)) && Enabled(Run(run), s, m.1) then true
      else if m == (s, UnsubscribeLocal(t)) && Enabled(Run(run), s, m.1) then false
      else Wants(run, s, t)
  {
    hide Run, Enabled;
    forall i: nat, a ensures Asks(run + [m], i, s, a) <==>
      Asks(run, i, s, a) || (i == |run| && m == (s, a) && Enabled(Run(run), s, a)) {
      AsksAppend(run, m, i, s, a);
    }
    forall i: nat, a | Asks(run, i, s, a) ensures i < |run| {
    }
    hide Asks;
    if m == (s, SubscribeLocal(t)) && Enabled(Run(run), s, m.1) {
      assert Asks(run + [m], |run|, s, SubscribeLocal(t)) && DropsNot(run + [m], |run|, s, t);
    } else if m == (s, UnsubscribeLocal(t)) && Enabled(Run(run), s, m.1) {
      assert Asks(run + [m], |run|, s, UnsubscribeLocal(t));
    } else {
      assert forall i: nat :: DropsNot(run + [m], i, s, t) <==> DropsNot(run, i, s, t);
    }
  }

  /** The run with one more action. */
  lemma RunAppend(run: seq<(SessionId, Action)>, s: SessionId, a: Action)
    ensures Run(run + [(s, a)]) == if Enabled(Run(run), s, a) then Act(Run(run), s, a) else Run(run)
  {
    assert (run + [(s, a)])[..|run|] == run;
  }

  /** A session's own set holds exactly the topics it has asked for and not dropped since. */
  lemma {:induction false} SubsAreWanted(run: seq<(SessionId, Action)>, s: SessionId, t: Topic)
    ensures s in Run(run).sessions && t in Run(run).sessions[s].subs <==> Wants(run, s, t)
  {
    if run != [] {
      var init, m := run[..|run| - 1], run[|run| - 1];
      assert run == init + [m];
      SubsAreWanted(init, s, t);
      WantsAppend(init, m, s, t);
      RunAppend(init, m.0, m.1);
      hide Run, Wants, Add, Remove, RemoveAll;
    }
  }

  /** In every interleaving, a session between control frames is listed under a topic if and only if
      the last thing it asked for that topic is to subscribe. */
  lemma ListedIffWanted(run: seq<(SessionId, Action)>, s: SessionId, t: Topic)
    requires s in Run(run).sessions && Run(run).sessions[s].control.Ready?
    ensures s in Subscribers(Run(run).index, t) <==> Wants(run, s, t)
  {
    IndexAgreement(run, s, t);
    SubsAreWanted(run, s, t);
  }

  ghost predicate Others(run: seq<(SessionId, Action)>, s: SessionId) { forall m :: m in run ==> m.0 != s }

  /** What other sessions do leaves a session as it is. */
  lemma {:induction false} OthersKeep(run: seq<(SessionId, Action)>, others: seq<(SessionId, Action)>, s: SessionId)
    requires Others(others, s)
    ensures s in Run(run + others).sessions <==> s in Run(run).sessions
    ensures s in Run(run).sessions ==> Run(run + others).sessions[s] == Run(run).sessions[s]
  {
    if others == [] {
      assert run + others == run;
    } else {
      var init, m := others[..|others| - 1], others[|others| - 1];
      assert run + others == (run + init) + [m] && m in others;
      OthersKeep(run, init, s);
      RunAppend(run + init, m.0, m.1);
      hide Run, Add, Remove, RemoveAll;
    }
  }

  /** A new session is open and has no topics. */
  lemma OpenTakes(run: seq<(SessionId, Action)>, s: SessionId)
    requires s !in Run(run).sessions
    ensures var x := Run(run + [(s, Open)]); s in x.sessions && x.sessions[s] == Session({}, Ready)
  {
    hide Run;
    RunAppend(run, s, Open);
  }

  /** A subscription takes effect whatever others do in between, also if it is a second one. */
  lemma SubscribeTakes(run: seq<(SessionId, Action)>, others: seq<(SessionId, Action)>, s: SessionId, t: Topic)
    requires s in Run(run).sessions && Run(run).sessions[s].control.Ready? && Others(others, s)
    ensures var x := Run(run + [(s, SubscribeLocal(t))] + others + [(s, SubscribeBroker)]);
      && s in x.sessions && x.sessions[s] == Session(Run(run).sessions[s].subs + {t}, Ready)
      && s in Subscribers(x.index, t)
  {
    hide Run, Add, Subscribers;
    var run1 := run + [(s, SubscribeLocal(t))];
    RunAppend(run, s, SubscribeLocal(t));
    OthersKeep(run1, others, s);
    RunAppend(run1 + others, s, SubscribeBroker);
    IndexAgreement(run1 + others + [(s, SubscribeBroker)], s, t);
    if t in Run(run).sessions[s].subs { assert Run(run).sessions[s].subs + {t} == Run(run).sessions[s].subs; }
  }

  /** So does giving it up. */
  lemma UnsubscribeTakes(run: seq<(SessionId, Action)>, others: seq<(SessionId, Action)>, s: SessionId, t: Topic)
    requires s in Run(run).sessions && Run(run).sessions[s].control.Ready? && Others(others, s)
    ensures var x := Run(run + [(s, UnsubscribeLocal(t))] + others + [(s, UnsubscribeBroker)]);
      && s in x.sessions && x.sessions[s] == Session(Run(run).sessions[s].subs - {t}, Ready)
      && s !in Subscribers(x.index, t)
  {
    hide Run, Remove, Subscribers;
    var run1 := run + [(s, UnsubscribeLocal(t))];
    RunAppend(run, s, UnsubscribeLocal(t));
    OthersKeep(run1, others, s);
    RunAppend(run1 + others, s, UnsubscribeBroker);
    IndexAgreement(run1 + others + [(s, UnsubscribeBroker)], s, t);
  }

  /** A session that has been cleaned up is listed nowhere, and nothing that anybody does changes that. */
  lemma {:induction false} CleanupIsFinal(run: seq<(SessionId, Action)>, later: seq<(SessionId, Action)>, s: SessionId, t: Topic)
    requires s in Run(run).sessions && Run(run).sessions[s].control.Ready?
    ensures var x := Run(run + [(s, Cleanup)] + later);
      s in x.sessions && x.sessions[s].control == Closed && s !in Subscribers(x.index, t)
  {
    hide Run, RemoveAll, Add, Remove, Subscribers;
    var run1 := run + [(s, Cleanup)];
    RunAppend(run, s, Cleanup);
    if later == [] {
      assert run1 + later == run1;
    } else {
      var init, m := later[..|later| - 1], later[|later| - 1];
      assert run1 + later == (run1 + init) + [m];
      CleanupIsFinal(run, init, s, t);
      RunAppend(run1 + init, m.0, m.1);
    }
    IndexAgreement(run1 + later, s, t);
  }

  /** With nobody in between, both critical sections together do to index and session what the methods
      of the session object do. */
  lemma AloneLikeTheObject(x: Sys, s: SessionId, t: Topic)
    requires s in x.sessions && x.sessions[s].control.Ready?
    ensures var y := Act(x, s, SubscribeLocal(t));
      var z := if Enabled(y, s, SubscribeBroker) then Act(y, s, SubscribeBroker) else y;
      && z.sessions == x.sessions[s := Session(x.sessions[s].subs + {t}, Ready)]
      && z.index == if t in x.sessions[s].subs then x.index else Add(x.index, s, t)
    ensures var y := Act(x, s, UnsubscribeLocal(t));
      Enabled(y, s, UnsubscribeBroker) && Act(y, s, UnsubscribeBroker)
        == Sys(Remove(x.index, s, t), x.sessions[s := Session(x.sessions[s].subs - {t}, Ready)])
  {
    hide Add, Remove;
    if t in x.sessions[s].subs {
      assert x.sessions[s].subs + {t} == x.sessions[s].subs;
      assert x.sessions[s := x.sessions[s]] == x.sessions;
    }
  }
}
