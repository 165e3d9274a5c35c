/** The proxy's session table under interleaved lookups, creations, sweeps, removals and closes:
    one move per critical section. */
module ProxyTable {
  /** A client address, as the table is keyed by it. */
  type Key = nat
  type SessionId = nat

  datatype Session = Session(key: Key, closed: bool)

  /** `sessions` holds every session ever created, by number; `dialing` the creators between their
      lookup and the new session, `pending` the sessions whose creator has not rechecked yet, and `closing`
      the calls of `session.close` that are due. */
  datatype Sys = Sys(
    table: map<Key, SessionId>, sessions: seq<Session>, active: int,
    dialing: multiset<Key>, pending: set<SessionId>, closing: multiset<SessionId>)

  const Init := Sys(map[], [], 0, multiset{}, {}, multiset{})

  datatype Move =
    | Lookup(key: Key)
    | DialFails(key: Key)
    | Create(key: Key)
    | Recheck(id: SessionId)
    | Sweep(idle: set<SessionId>)
    | RemoveSession(id: SessionId)
    | CloseProxy
    | CloseSession(id: SessionId)

  predicate Possible(x: Sys, m: Move) {
    match m
    case DialFails(k) => k in x.dialing
    case Create(k) => k in x.dialing
    case Recheck(id) => id in x.pending && id < |x.sessions|
    case RemoveSession(id) => id < |x.sessions| && id !in x.pending
    case CloseSession(id) => id in x.closing && id < |x.sessions|
    case _ => true
  }

  /** The sessions in the table. */
  function Listed(x: Sys): set<SessionId> { x.table.Values }

  /** Taking `gone` out of the table and owing each a close. */
  function Evict(x: Sys, gone: set<SessionId>): Sys {
    x.(table := map k | k in x.table && x.table[k] !in gone :: x.table[k],
       closing := x.closing + multiset(gone * Listed(x)))
  }

  function Do(x: Sys, m: Move): Sys
    requires Possible(x, m)
  {
    match m
    case Lookup(k) => if k in x.table then x else x.(dialing := x.dialing + multiset{k})
    case DialFails(k) => x.(dialing := x.dialing - multiset{k})
    case Create(k) =>
      x.(dialing := x.dialing - multiset{k}, sessions := x.sessions + [Session(k, false)],
         active := x.active + 1, pending := x.pending + {|x.sessions|})
    case Recheck(id) =>
      var k := x.sessions[id].key;
      if k in x.table then x.(pending := x.pending - {id}, closing := x.closing + multiset{id})
      else x.(pending := x.pending - {id}, table := x.table[k := id])
    case Sweep(idle) => Evict(x, idle)
    case RemoveSession(id) =>
      var k := x.sessions[id].key;
      x.(table := if k in x.table && x.table[k] == id then x.table - {k} else x.table,
         closing := x.closing + multiset{id})
    case CloseProxy => Evict(x, Listed(x))
    case CloseSession(id) =>
      var s := x.sessions[id];
      x.(closing := x.closing - multiset{id},
         sessions := x.sessions[id := s.(closed := true)],
         active := if s.closed then x.active else x.active - 1)
  }

  function Play(x: Sys, moves: seq<Move>): Sys {
    if moves == [] then x
    else
      var y := Play(x, moves[..|moves| - 1]);
      if Possible(y, moves[|moves| - 1]) then Do(y, moves[|moves| - 1]) else y
  }

  function OpenOnes(x: Sys): set<SessionId> {
    set i | 0 <= i < |x.sessions| && !x.sessions[i].closed
  }

  ghost predicate TableOk(x: Sys, k: Key) {
    k in x.table ==>
      var id := x.table[k];
      id < |x.sessions| && x.sessions[id] == Session(k, false) && id !in x.pending && id !in x.closing
  }

  /** Where session `id` can be. */
  ghost predicate SessionOk(x: Sys, id: SessionId) {
    && (id in x.pending ==> id < |x.sessions| && !x.sessions[id].closed && id !in x.closing)
    && (id in x.closing ==> id < |x.sessions|)
    && (id < |x.sessions| && !x.sessions[id].closed ==>
          id in x.pending || id in x.closing || (x.sessions[id].key in x.table && x.table[x.sessions[id].key] == id))
  }

  ghost predicate Ok(x: Sys) {
    && (forall k :: TableOk(x, k))
    && (forall id :: SessionOk(x, id))
    && x.active == |OpenOnes(x)|
  }

  lemma OpenAfterCreate(x: Sys, k: Key)
    requires k in x.dialing
    ensures OpenOnes(Do(x, Create(k))) == OpenOnes(x) + {|x.sessions|}
  {
  }

  lemma OpenAfterClose(x: Sys, id: SessionId)
    requires Possible(x, CloseSession(id))
    ensures OpenOnes(Do(x, CloseSession(id))) == OpenOnes(x) - {id}
  {
  }

  lemma EvictOk(x: Sys, gone: set<SessionId>)
    requires Ok(x)
    ensures Ok(Evict(x, gone))
  {
    var y := Evict(x, gone);
    assert OpenOnes(y) == OpenOnes(x);
    forall k ensures TableOk(y, k) {
      assert TableOk(x, k);
    }
    forall id ensures SessionOk(y, id) {
      assert SessionOk(x, id);
      if id in gone * Listed(x) {
        var k :| k in x.table && x.table[k] == id;
        assert TableOk(x, k);
      }
    }
  }

  lemma CreateOk(x: Sys, k: Key)
    requires Ok(x) && k in x.dialing
    ensures Ok(Do(x, Create(k)))
  {
    var y := Do(x, Create(k));
    OpenAfterCreate(x, k);
    assert |x.sessions| !in OpenOnes(x);
    forall j ensures TableOk(y, j) {
      assert TableOk(x, j);
      assert SessionOk(x, |x.sessions|);
    }
    forall id ensures SessionOk(y, id) {
      assert SessionOk(x, id);
    }
  }

  lemma CloseOk(x: Sys, id: SessionId)
    requires Ok(x) && Possible(x, CloseSession(id))
    ensures Ok(Do(x, CloseSession(id)))
  {
    var y := Do(x, CloseSession(id));
    OpenAfterClose(x, id);
    assert id in OpenOnes(x) <==> !x.sessions[id].closed;
    forall k ensures TableOk(y, k) {
      assert TableOk(x, k);
    }
    forall j ensures SessionOk(y, j) {
      assert SessionOk(x, j);
    }
  }

  lemma MoveOk(x: Sys, m: Move)
    requires Ok(x) && Possible(x, m)
    ensures Ok(Do(x, m))
  {
    match m
    case Create(k) => CreateOk(x, k);
    case Sweep(idle) => EvictOk(x, idle);
    case CloseProxy => EvictOk(x, Listed(x));
    case CloseSession(id) => CloseOk(x, id);
    case Recheck(id) => RecheckOk(x, id);
    case RemoveSession(id) => RemoveOk(x, id);
    case Lookup(k) => DialingOk(x, Do(x, m));
    case DialFails(k) => DialingOk(x, Do(x, m));
  }

  lemma DialingOk(x: Sys, y: Sys)
    requires Ok(x) && y == x.(dialing := y.dialing)
    ensures Ok(y)
  {
    assert OpenOnes(y) == OpenOnes(x);
    forall k ensures TableOk(y, k) {
      assert TableOk(x, k);
    }
    forall id ensures SessionOk(y, id) {
      assert SessionOk(x, id);
    }
  }

  lemma RecheckOk(x: Sys, id: SessionId)
    requires Ok(x) && Possible(x, Recheck(id))
    ensures Ok(Do(x, Recheck(id)))
  {
    var y := Do(x, Recheck(id));
    assert OpenOnes(y) == OpenOnes(x);
    assert SessionOk(x, id);
    forall k ensures TableOk(y, k) {
      assert TableOk(x, k);
    }
    forall j ensures SessionOk(y, j) {
      assert SessionOk(x, j);
    }
  }

  lemma RemoveOk(x: Sys, id: SessionId)
    requires Ok(x) && Possible(x, RemoveSession(id))
    ensures Ok(Do(x, RemoveSession(id)))
  {
    var y := Do(x, RemoveSession(id));
    assert OpenOnes(y) == OpenOnes(x);
    forall k ensures TableOk(y, k) {
      assert TableOk(x, k);
    }
    forall j ensures SessionOk(y, j) {
      assert SessionOk(x, j);
    }
  }

  lemma {:induction false} PlayOk(moves: seq<Move>)
    ensures Ok(Play(Init, moves))
  {
    hide Ok, Do, Possible;
    if moves == [] {
      InitOk();
    } else {
      PlayOk(moves[..|moves| - 1]);
      var x, m := Play(Init, moves[..|moves| - 1]), moves[|moves| - 1];
      if Possible(x, m) { MoveOk(x, m); }
    }
  }

  lemma InitOk()
    ensures Ok(Init)
  {
    assert OpenOnes(Init) == {};
  }

  // ---------- the promises ----------

  /** In every interleaving a session in the table is under its own key and not closed, and nobody is
      about to close it; and a session that is not closed is in the table, with its creator, or owed
      a close. */
  lemma TableIsLive(moves: seq<Move>, k: Key, id: SessionId)
    ensures var x := Play(Init, moves);
      && (k in x.table ==>
            x.table[k] < |x.sessions| && x.sessions[x.table[k]] == Session(k, false) && x.table[k] !in x.closing)
      && (id < |x.sessions| && !x.sessions[id].closed ==>
            id in x.pending || id in x.closing || (x.sessions[id].key in x.table && x.table[x.sessions[id].key] == id))
  {
    PlayOk(moves);
    assert TableOk(Play(Init, moves), k) && SessionOk(Play(Init, moves), id);
  }

  lemma {:induction false} ValuesCount(table: map<Key, SessionId>)
    requires forall j, k :: j in table && k in table && table[j] == table[k] ==> j == k
    ensures |table.Values| == |table|
  {
    if table != map[] {
      var k :| k in table;
      var rest := table - {k};
      forall v | v in table.Values ensures v in rest.Values + {table[k]} {
        var j :| j in table && table[j] == v;
        assert j == k || (j in rest && rest[j] == v);
      }
      assert table.Values == rest.Values + {table[k]};
      assert table[k] !in rest.Values;
      assert table.Keys == rest.Keys + {k};
      ValuesCount(rest);
    }
  }

  /** Sessions owed a close that have not had one. */
  function Doomed(x: Sys): set<SessionId> {
    set i | 0 <= i < |x.sessions| && !x.sessions[i].closed && i in x.closing
  }

  lemma WhereOpenOnesAre(x: Sys)
    requires Ok(x)
    ensures OpenOnes(x) == Listed(x) + x.pending + Doomed(x)
    ensures Listed(x) !! x.pending && Listed(x) !! Doomed(x) && x.pending !! Doomed(x)
  {
    forall id ensures id in OpenOnes(x) <==> id in Listed(x) + x.pending + Doomed(x) {
      if 0 <= id {
        assert SessionOk(x, id);
        if id in Listed(x) {
          var k :| k in x.table && x.table[k] == id;
          assert TableOk(x, k);
        }
      }
    }
    forall id | id in Listed(x) ensures id !in x.pending && id !in Doomed(x) {
      var k :| k in x.table && x.table[k] == id;
      assert TableOk(x, k);
    }
    forall id | id in x.pending ensures id !in Doomed(x) {
      assert SessionOk(x, id);
    }
  }

  /** The active gauge is sessions created minus sessions closed, and at every moment that is the
      table plus what is in flight; so with nothing in flight it is the size of the table. */
  lemma GaugeIsExact(moves: seq<Move>)
    ensures var x := Play(Init, moves);
      && x.active == |OpenOnes(x)|
      && x.active == |x.table| + |x.pending| + |Doomed(x)|
      && (x.pending == {} && x.closing == multiset{} ==> x.active == |x.table|)
  {
    var x := Play(Init, moves);
    PlayOk(moves);
    WhereOpenOnesAre(x);
    forall j, k | j in x.table && k in x.table && x.table[j] == x.table[k] ensures j == k {
      assert TableOk(x, j) && TableOk(x, k);
    }
    ValuesCount(x.table);
    assert |Listed(x) + x.pending| == |Listed(x)| + |x.pending|;
    assert |OpenOnes(x)| == |Listed(x) + x.pending| + |Doomed(x)|;
    if x.closing == multiset{} { assert Doomed(x) == {}; }
  }

  /** A removal by one session leaves every other session in the table, also a newer one with the
      same key; and removing takes exactly that session out. */
  lemma StaleRemovalIsHarmless(moves: seq<Move>, id: SessionId, k: Key)
    requires id < |Play(Init, moves).sessions| && id !in Play(Init, moves).pending
    ensures Possible(Play(Init, moves), RemoveSession(id)) && id in Do(Play(Init, moves), RemoveSession(id)).closing
    ensures var x := Play(Init, moves); var y := Do(x, RemoveSession(id));
      k in y.table <==> k in x.table && x.table[k] != id
    ensures var x := Play(Init, moves); var y := Do(x, RemoveSession(id));
      k in y.table ==> y.table[k] == x.table[k]
  {
    var x := Play(Init, moves);
    PlayOk(moves);
    assert TableOk(x, k);
  }

  /** A sweep takes exactly the idle sessions out of the table, and owes each a close. */
  lemma SweepTakes(x: Sys, idle: set<SessionId>, k: Key)
    ensures Possible(x, Sweep(idle))
    ensures var y := Do(x, Sweep(idle));
      && (k in y.table <==> k in x.table && x.table[k] !in idle)
      && (k in y.table ==> y.table[k] == x.table[k])
      && (k in x.table && x.table[k] in idle ==> x.table[k] in y.closing)
  {
  }

  lemma PlayAppend(x: Sys, moves: seq<Move>, m: Move)
    ensures Play(x, moves + [m]) == if Possible(Play(x, moves), m) then Do(Play(x, moves), m) else Play(x, moves)
  {
    assert (moves + [m])[..|moves|] == moves;
  }

  lemma MissSteps(x: Sys, k: Key)
    requires k !in x.table && |x.sessions| !in x.pending
    ensures var n, y := |x.sessions|, Do(x, Lookup(k));
      && Possible(y, DialFails(k)) && Do(y, DialFails(k)) == x
      && Possible(y, Create(k)) && Possible(Do(y, Create(k)), Recheck(n))
      && Do(Do(y, Create(k)), Recheck(n))
         == x.(table := x.table[k := n], sessions := x.sessions + [Session(k, false)], active := x.active + 1)
  {
    var n := |x.sessions|;
    assert x.dialing + multiset{k} - multiset{k} == x.dialing;
    assert x.pending + {n} - {n} == x.pending;
  }

  /** From every reachable state: a lookup that finds a session changes nothing; behind one that fails,
      a dial and its recheck list a new open session under the key and leave all others alone, and a
      dial that fails takes the lookup back. */
  lemma MissIsServed(moves: seq<Move>, k: Key)
    ensures var x := Play(Init, moves); var n := |x.sessions|;
      if k in x.table then Play(x, [Lookup(k)]) == x
      else
        && Play(x, [Lookup(k), DialFails(k)]) == x
        && Play(x, [Lookup(k), Create(k), Recheck(n)])
           == x.(table := x.table[k := n], sessions := x.sessions + [Session(k, false)], active := x.active + 1)
  {
    var x := Play(Init, moves);
    var n := |x.sessions|;
    assert n !in x.pending by {
      PlayOk(moves);
      assert SessionOk(x, n);
    }
    assert Possible(x, Lookup(k)) && (k in x.table ==> Do(x, Lookup(k)) == x);
    if k !in x.table { MissSteps(x, k); }
    PlayOne(x, Lookup(k));
    hide Play, Do, Possible;
    if k !in x.table {
      PlayTwo(x, Lookup(k), DialFails(k));
      PlayTwo(x, Lookup(k), Create(k));
      PlayThree(x, Lookup(k), Create(k), Recheck(n));
    }
  }

  lemma PlayOne(x: Sys, a: Move)
    requires Possible(x, a)
    ensures Play(x, [a]) == Do(x, a)
  {
    assert [a][..0] == [] && Play(x, []) == x;
    hide Do, Possible;
  }

  lemma PlayTwo(x: Sys, a: Move, b: Move)
    requires Possible(x, a) && Possible(Do(x, a), b)
    ensures Play(x, [a, b]) == Do(Do(x, a), b)
  {
    PlayOne(x, a);
    assert [a, b] == [a] + [b];
    PlayAppend(x, [a], b);
    hide Play, Do, Possible;
  }

  lemma PlayThree(x: Sys, a: Move, b: Move, c: Move)
    requires Possible(x, a) && Possible(Do(x, a), b) && Possible(Do(Do(x, a), b), c)
    ensures Play(x, [a, b, c]) == Do(Do(Do(x, a), b), c)
  {
    PlayTwo(x, a, b);
    assert [a, b, c] == [a, b] + [c];
    PlayAppend(x, [a, b], c);
    hide Play, Do, Possible;
  }

  // ---------- closing the proxy ----------

  ghost predicate NoLookups(moves: seq<Move>) { forall m :: m in moves ==> !m.Lookup? }

  /** With an empty table and no creation in flight, the table stays empty while nobody looks up. */
  lemma {:induction false} EmptyStaysEmpty(x: Sys, moves: seq<Move>)
    requires x.table == map[] && x.dialing == multiset{} && x.pending == {} && NoLookups(moves)
    ensures var y := Play(x, moves); y.table == map[] && y.dialing == multiset{} && y.pending == {}
  {
    if moves != [] {
      EmptyStaysEmpty(x, moves[..|moves| - 1]);
      assert moves[|moves| - 1] in moves;
    }
  }

  /** `Proxy.Close` empties the table for good, without further lookups, exactly if no creation was in
      flight: `getOrCreateSession` does not look at `closed` before it inserts. */
  lemma CloseIsFinalIff(moves: seq<Move>)
    ensures var x := Do(Play(Init, moves), CloseProxy);
      x.table == map[]
      && ((x.dialing == multiset{} && x.pending == {})
          <==> forall later :: NoLookups(later) ==> Play(x, later).table == map[])
  {
    var x := Do(Play(Init, moves), CloseProxy);
    PlayOk(moves);
    MoveOk(Play(Init, moves), CloseProxy);
    if x.dialing == multiset{} && x.pending == {} {
      forall later | NoLookups(later) ensures Play(x, later).table == map[] {
        EmptyStaysEmpty(x, later);
      }
    } else if x.pending != {} {
      var id :| id in x.pending;
      assert SessionOk(x, id);
      LateInsert(x, id);
    } else {
      var k :| k in x.dialing;
      LateDial(x, k);
    }
  }

  lemma LateInsert(x: Sys, id: SessionId)
    requires x.table == map[] && Possible(x, Recheck(id))
    ensures Play(x, [Recheck(id)]).table != map[] && NoLookups([Recheck(id)])
  {
    assert [Recheck(id)][..0] == [];
    assert Play(x, []) == x;
    assert x.sessions[id].key in Play(x, [Recheck(id)]).table;
  }

  lemma LateDial(x: Sys, k: Key)
    requires x.table == map[] && k in x.dialing
    ensures var later := [Create(k), Recheck(|x.sessions|)];
      Play(x, later).table != map[] && NoLookups(later)
  {
    var later := [Create(k), Recheck(|x.sessions|)];
    assert later[..1] == [Create(k)] && later[..1][..0] == [];
    assert Play(x, []) == x;
    var y := Play(x, [Create(k)]);
    assert [Create(k)][..0] == [];
    assert y == Do(x, Create(k));
    assert k in Play(x, later).table;
  }
}
