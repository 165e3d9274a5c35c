/** The `Proxy` and its session objects: each critical section as a method. */
module ProxyObjects {
  import opened Common

  type Key = nat

  class Session {
    const key: Key
    var lastSeen: Time
    /** `done` is closed, and the close-once flag has been used. */
    var closed: bool

    constructor (key: Key)
      ensures this.key == key && !closed
    {
      this.key := key;
      lastSeen := 0;
      closed := false;
    }

    /** `touch`. */
    method Touch(now: Time)
      modifies this`lastSeen
      ensures lastSeen == now
    {
      lastSeen := now;
    }
  }

  class Proxy {
    const idleTimeout: Time
    var sessions: map<Key, Session>
    /** `SessionsActive` and `SessionsTotal`. */
    var active: int
    var total: int

    /** Sessions are listed under their own keys and are not closed. */
    ghost predicate Valid()
      reads this, sessions.Values
    {
      forall k :: k in sessions ==> sessions[k].key == k && !sessions[k].closed
    }

    constructor (idleTimeout: Time)
      ensures Valid() && sessions == map[] && active == 0 && total == 0 && this.idleTimeout == idleTimeout
    {
      this.idleTimeout := idleTimeout;
      sessions, active, total := map[], 0, 0;
    }

    /** `session.close`: the gauge goes down on the first call only. */
    method CloseSession(s: Session)
      modifies s`closed, this`active
      ensures s.closed && active == old(active) - (if old(s.closed) then 0 else 1)
    {
      if s.closed { return; }
      s.closed := true;
      active := active - 1;
    }

    /** The lookup under the lock. */
    method Lookup(key: Key) returns (found: Option<Session>)
      ensures found == if key in sessions then Some(sessions[key]) else None
    {
      if key in sessions { return Some(sessions[key]); }
      return None;
    }

    /** A new session, counted before it is in the table. */
    method Create(key: Key, now: Time) returns (s: Session)
      modifies this`active, this`total
      ensures fresh(s) && s.key == key && !s.closed && s.lastSeen == now
      ensures active == old(active) + 1 && total == old(total) + 1
    {
      s := new Session(key);
      s.Touch(now);
      active, total := active + 1, total + 1;
    }

    /** The recheck under the lock: somebody else may have been faster, then the new session closes. */
    method Insert(s: Session) returns (winner: Session)
      requires Valid() && !s.closed && s !in sessions.Values
      modifies this`sessions, this`active, s`closed
      ensures Valid() && s.key in sessions && winner == sessions[s.key]
      ensures s.key in old(sessions) ==>
        sessions == old(sessions) && s.closed && active == old(active) - 1
      ensures s.key !in old(sessions) ==>
        sessions == old(sessions)[s.key := s] && !s.closed && active == old(active)
    {
      if s.key in sessions {
        winner := sessions[s.key];
        CloseSession(s);
      } else {
        sessions := sessions[s.key := s];
        winner := s;
      }
    }

    /** `getOrCreateSession` with nobody in between; `dialed` says whether the dial succeeds. */
    method GetOrCreate(key: Key, dialed: bool, now: Time) returns (s: Option<Session>)
      requires Valid()
      modifies this`sessions, this`active, this`total
      ensures Valid()
      ensures s.Some? <==> key in sessions
      ensures s.Some? ==> s.value == sessions[key]
      ensures key in old(sessions) || !dialed ==>
        sessions == old(sessions) && active == old(active) && total == old(total)
      ensures key !in old(sessions) && dialed ==>
        key in sessions && fresh(sessions[key]) && sessions == old(sessions)[key := sessions[key]]
        && active == old(active) + 1 && total == old(total) + 1
    {
      s := Lookup(key);
      if s.Some? || !dialed { return; }
      var created := Create(key, now);
      var winner := Insert(created);
      s := Some(winner);
    }

    /** The sessions idle for longer than the timeout, and the others. */
    function Idle(now: Time): map<Key, Session>
      reads this, sessions.Values
    {
      map k | k in sessions && now - sessions[k].lastSeen > idleTimeout :: sessions[k]
    }

    function Kept(now: Time): map<Key, Session>
      reads this, sessions.Values
    {
      map k | k in sessions && now - sessions[k].lastSeen <= idleTimeout :: sessions[k]
    }

    lemma SplitAtTimeout(now: Time)
      requires Valid()
      ensures |Idle(now)| + |Kept(now)| == |sessions| && Idle(now).Values <= sessions.Values
      ensures forall k :: k in Kept(now) ==> Kept(now)[k] !in Idle(now).Values
    {
      var idle, kept := Idle(now), Kept(now);
      assert idle.Keys !! kept.Keys && sessions.Keys == kept.Keys + idle.Keys;
      assert |sessions.Keys| == |kept.Keys| + |idle.Keys|;
      forall v | v in idle.Values ensures v in sessions.Values {
        var k :| k in idle && idle[k] == v;
      }
    }

    /** One tick of `sweepLoop`: exactly the sessions idle for longer than the timeout leave the table,
        and they close. */
    method Sweep(now: Time)
      requires Valid()
      modifies this`sessions, this`active, set s | s in sessions.Values :: s`closed
      ensures Valid()
      ensures forall k :: k in sessions <==> k in old(sessions) && now - old(sessions[k].lastSeen) <= idleTimeout
      ensures forall k :: k in sessions ==> sessions[k] == old(sessions[k])
      ensures forall k :: k in old(sessions) && now - old(sessions[k].lastSeen) > idleTimeout ==> old(sessions[k]).closed
      ensures active == old(active) - (|old(sessions)| - |sessions|)
    {
      ghost var was, idle := sessions, Idle(now);
      assert forall k :: k in was && now - was[k].lastSeen > idleTimeout ==> k in idle && idle[k] == was[k];
      CloseIdle(now);
      assert forall k :: k in idle ==> idle[k].closed;
    }

    method CloseIdle(now: Time)
      requires Valid()
      modifies this`sessions, this`active, set s | s in sessions.Values :: s`closed
      ensures Valid() && sessions == old(Kept(now))
      ensures forall k :: k in old(Idle(now)) ==> old(Idle(now))[k].closed
      ensures active == old(active) - (|old(sessions)| - |sessions|)
    {
      SplitAtTimeout(now);
      var idle := Idle(now);
      sessions := Kept(now);
      CloseAll(idle);
    }

    /** Closing sessions that were taken out of the table, one after the other. */
    method CloseAll(gone: map<Key, Session>)
      requires forall k :: k in gone ==> gone[k].key == k && !gone[k].closed
      modifies this`active, set s | s in gone.Values :: s`closed
      ensures forall k :: k in gone ==> gone[k].closed
      ensures active == old(active) - |gone|
    {
      var todo := gone.Keys;
      while todo != {}
        invariant todo <= gone.Keys
        invariant forall k :: k in gone ==> (gone[k].closed <==> k !in todo)
        invariant active == old(active) - (|gone| - |todo|)
        decreases todo
      {
        var k :| k in todo;
        assert gone[k] in gone.Values;
        CloseSession(gone[k]);
        todo := todo - {k};
      }
    }

    /** `removeSession`: a session takes out itself only, and closes in any case. */
    method RemoveSession(key: Key, s: Session)
      requires Valid() && s.key == key
      modifies this`sessions, this`active, s`closed
      ensures Valid() && s.closed && s !in sessions.Values
      ensures sessions == if key in old(sessions) && old(sessions)[key] == s then old(sessions) - {key} else old(sessions)
      ensures active == old(active) - (if old(s.closed) then 0 else 1)
    {
      if key in sessions && sessions[key] == s { sessions := sessions - {key}; }
      CloseSession(s);
    }

    /** The table part of `Close`. */
    method Close()
      requires Valid()
      modifies this`sessions, this`active, set s | s in sessions.Values :: s`closed
      ensures Valid() && sessions == map[] && active == old(active) - |old(sessions)|
      ensures forall k :: k in old(sessions) ==> old(sessions)[k].closed
    {
      var gone := sessions;
      sessions := map[];
      CloseAll(gone);
    }
  }
}
