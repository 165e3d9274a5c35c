/** `NextWake` names the first instant at which polling has something to do, and waking there drains. */
module WakeUps {
  import opened Common
  import opened PacketOrder
  import opened ImpairSpec
  import opened PipelineHistory
  import opened ReleaseOrder
  import opened Guarantees

  /** `NextWake`: Go's zero time, 0 here, stands for "no time yet" inside it. */
  function NextWake(s: State): (Time, bool) {
    var held := if s.core.held.Some? then s.core.held.value.releaseAt else 0;
    var next :=
      if s.queue != [] && (held == 0 || s.queue[0].releaseAt < held) then s.queue[0].releaseAt else held;
    if next == 0 then (0, false) else (next, true)
  }

  /** Some copy, held or queued, is to be looked at again at `at`. */
  ghost predicate PendingAt(s: State, at: Time) {
    || (s.core.held.Some? && s.core.held.value.releaseAt == at)
    || (exists y :: y in s.queue && y.releaseAt == at)
  }

  ghost predicate Idle(s: State) { s.core.held.None? && s.queue == [] }

  ghost predicate FirstPending(s: State, at: Time) {
    PendingAt(s, at) && forall other :: PendingAt(s, other) ==> at <= other
  }

  lemma HeadIsFirst(q: seq<Item>)
    requires Sorted(q)
    ensures forall y :: y in q ==> q[0].releaseAt <= y.releaseAt
  {
    if q != [] { SortedTail(q); }
  }

  /** `NextWake` is the first pending instant exactly when that is not the zero time. */
  lemma NextWakeIsFirst(s: State, at: Time)
    requires Sorted(s.queue)
    ensures Idle(s) ==> NextWake(s) == (0, false)
    ensures FirstPending(s, at) ==> (NextWake(s) == (at, true) <==> at != 0)
    ensures (forall other :: PendingAt(s, other) ==> other != 0) ==> (NextWake(s).1 <==> !Idle(s))
  {
    HeadIsFirst(s.queue);
    if s.queue != [] { assert s.queue[0] in s.queue && PendingAt(s, s.queue[0].releaseAt); }
    if s.core.held.Some? { assert PendingAt(s, s.core.held.value.releaseAt); }
  }

  /** On runs after the zero time nothing is ever pending at or before it, so the wake time is exact. */
  lemma RunPendingPositive(c: Config, t: Tape, es: seq<Event>, at: Time)
    requires AllFit(c, es) && (forall e :: e in es ==> 0 < e.now) && PendingAt(Run(c, t, es), at)
    ensures at > 0
  {
    hide Run;
    var s := Run(c, t, es);
    RunFrom(c, t, es, 1);
    RunQueued(c, t, es);
    if !(s.core.held.Some? && s.core.held.value.releaseAt == at) {
      var y :| y in s.queue && y.releaseAt == at;
      var items := Items(s.core.log, 0);
      assert y in s.out + s.queue;
      assert y in multiset(items);
      var i :| 0 <= i < |items| && items[i] == y;
      ReleaseNotBeforeBase(c, t, es, i);
    }
  }

  /** Polling before the wake time changes nothing and returns nothing. */
  lemma EarlyPollIsIdle(c: Config, t: Tape, s: State, now: Time)
    requires forall at :: PendingAt(s, at) ==> now < at
    ensures Step(c, t, s, Polled(now)) == s
  {
    hide Schedule;
    if s.core.held.Some? { assert PendingAt(s, s.core.held.value.releaseAt); }
    if s.queue != [] { assert s.queue[0] in s.queue && PendingAt(s, s.queue[0].releaseAt); }
    assert Expire(c, t, s.core, now) == s.core;
    assert Items(s.core.log, |s.core.log|) == [];
    assert s.queue[0..] == s.queue && s.out + s.queue[..0] == s.out;
  }

  /** After a poll everything pending is strictly later. */
  lemma PollLeavesLater(c: Config, t: Tape, s: State, now: Time, at: Time)
    requires Queued(s) && PendingAt(Step(c, t, s, Polled(now)), at)
    ensures now < at
  {
    hide Schedule;
    LogGrows(c, t, s.core, now, [], 0);
    var a := Absorb(s, Expire(c, t, s.core, now));
    AbsorbQueued(s, Expire(c, t, s.core, now));
    ReadyIsDue(a.queue, now);
    if s.core.held.Some? {
      var s1 := s.core.(held := None, tally := s.core.tally.(expiries := s.core.tally.expiries + 1));
      ScheduleFrame(c, t, s1, s.core.held.value.releaseAt, s.core.held.value.copy);
    }
  }

  /** Work left: a held copy counts for two, as it must still be queued and then released. */
  function Work(s: State): nat { |s.queue| + if s.core.held.Some? then 2 else 0 }

  lemma ExpireOne(c: Config, t: Tape, s: Core, now: Time)
    ensures |Expire(c, t, s, now).log| - |s.log| == if NotDue(s, now) then 0 else 1
    ensures Expire(c, t, s, now).held == if NotDue(s, now) then s.held else None
  {
    hide Transmit, JitterDraw;
  }

  /** A poll at or after the wake time makes progress. */
  lemma WakingPollWorks(c: Config, t: Tape, s: State, now: Time)
    requires Queued(s) && NextWake(s).1 && NextWake(s).0 <= now
    ensures Work(Step(c, t, s, Polled(now))) < Work(s)
  {
    hide Expire;
    LogGrows(c, t, s.core, now, [], 0);
    ExpireOne(c, t, s.core, now);
    var core := Expire(c, t, s.core, now);
    var new' := Items(core.log, |s.core.log|);
    var a := Absorb(s, core);
    InsertAllMultiset(s.queue, new');
    assert |multiset(a.queue)| == |a.queue|;
    assert |a.queue| == |s.queue| + |new'|;
    if NotDue(s.core, now) {
      assert new' == [];
      assert s.queue != [] && s.queue[0].releaseAt <= now;
    }
  }

  /** Polling at the given times in turn. */
  function PollAll(c: Config, t: Tape, s: State, polls: seq<Time>): State
    decreases |polls|
  {
    if polls == [] then s else PollAll(c, t, Step(c, t, s, Polled(polls[0])), polls[1..])
  }

  /** Each poll comes at the wake time of its state or at any time after it. */
  ghost predicate Timely(c: Config, t: Tape, s: State, polls: seq<Time>)
    decreases |polls|
  {
    polls == []
    || ((NextWake(s).1 ==> NextWake(s).0 <= polls[0]) && Timely(c, t, Step(c, t, s, Polled(polls[0])), polls[1..]))
  }

  /** What draining needs of a state; every run after the zero time gives it. */
  ghost predicate Drainable(c: Config, s: State) {
    && Queued(s)
    && (forall at :: PendingAt(s, at) ==> at > 0)
    && (s.core.held.Some? ==> Fits(|s.core.held.value.copy.packet.data|, c.bandwidth))
  }

  lemma ScheduledLater(c: Config, t: Tape, s: Core, base: Time, copy: Copy)
    requires Fits(|copy.packet.data|, c.bandwidth)
    ensures Schedule(c, t, s, base, copy).log[|s.log|].releaseAt >= base
  {
    hide Transmit;
    if c.bandwidth > 0 { TransmitIsCeiling(|copy.packet.data|, c.bandwidth); }
  }

  /** What `flushExpiredHeld` schedules is released after the zero time. */
  lemma ExpirePositive(c: Config, t: Tape, s: State, now: Time, i: nat)
    requires Drainable(c, s) && |s.core.log| <= i < |Expire(c, t, s.core, now).log|
    ensures Expire(c, t, s.core, now).log[i].releaseAt > 0
  {
    hide Schedule, Fits, Queued;
    ExpireOne(c, t, s.core, now);
    var h := s.core.held.value;
    assert PendingAt(s, h.releaseAt);
    var s1 := s.core.(held := None, tally := s.core.tally.(expiries := s.core.tally.expiries + 1));
    ScheduleFrame(c, t, s1, h.releaseAt, h.copy);
    ScheduledLater(c, t, s1, h.releaseAt, h.copy);
  }

  lemma AbsorbPositive(c: Config, t: Tape, s: State, now: Time, y: Item)
    requires Drainable(c, s) && |s.core.log| <= |Expire(c, t, s.core, now).log|
    requires y in Absorb(s, Expire(c, t, s.core, now)).queue
    ensures y.releaseAt > 0
  {
    hide Expire, Fits, Queued, InsertAll;
    var core := Expire(c, t, s.core, now);
    var new' := Items(core.log, |s.core.log|);
    InsertAllMultiset(s.queue, new');
    assert y in multiset(InsertAll(s.queue, new'));
    if y in s.queue {
      assert PendingAt(s, y.releaseAt);
    } else {
      assert y in new';
      var i :| 0 <= i < |new'| && new'[i] == y;
      ExpirePositive(c, t, s, now, |s.core.log| + i);
    }
  }

  lemma PollDrainable(c: Config, t: Tape, s: State, now: Time)
    requires Drainable(c, s)
    ensures Drainable(c, Step(c, t, s, Polled(now)))
  {
    hide Expire, Fits, Queued, InsertAll;
    LogGrows(c, t, s.core, now, [], 0);
    ExpireOne(c, t, s.core, now);
    var core := Expire(c, t, s.core, now);
    var a := Absorb(s, core);
    AbsorbQueued(s, core);
    ReleaseQueued(a, now);
    forall at | PendingAt(Release(a, now), at) ensures at > 0 {
      if s.core.held.Some? { assert PendingAt(s, s.core.held.value.releaseAt); }
      if !(core.held.Some? && core.held.value.releaseAt == at) {
        var y :| y in Release(a, now).queue && y.releaseAt == at;
        assert y in a.queue;
        AbsorbPositive(c, t, s, now, y);
      }
    }
  }

  lemma IdleStays(c: Config, t: Tape, s: State, now: Time)
    requires Idle(s)
    ensures Step(c, t, s, Polled(now)) == s
  {
    EarlyPollIsIdle(c, t, s, now);
  }

  /** Without new input everything is out after at most one poll per queued copy and two for a held
      one, however late after its wake time each poll comes. */
  lemma {:induction false} DrainEmpties(c: Config, t: Tape, s: State, polls: seq<Time>)
    requires Drainable(c, s) && Timely(c, t, s, polls) && Work(s) <= |polls|
    ensures Idle(PollAll(c, t, s, polls))
    decreases |polls|
  {
    NextWakePositive(c, s);
    if polls != [] {
      var now := polls[0];
      if Idle(s) {
        IdleStays(c, t, s, now);
      } else {
        PollDrainable(c, t, s, now);
        WakingPollWorks(c, t, s, now);
      }
      hide Step, Queued, Fits, Drainable, Idle;
      DrainEmpties(c, t, Step(c, t, s, Polled(now)), polls[1..]);
    }
  }

  lemma NextWakePositive(c: Config, s: State)
    requires Drainable(c, s)
    ensures NextWake(s).1 <==> !Idle(s)
  {
    NextWakeIsFirst(s, 0);
  }

  lemma RunDrainable(c: Config, t: Tape, es: seq<Event>)
    requires AllFit(c, es) && forall e :: e in es ==> 0 < e.now
    ensures Drainable(c, Run(c, t, es))
  {
    hide Run, Fits, PendingAt, Queued;
    var s := Run(c, t, es);
    RunQueued(c, t, es);
    forall at | PendingAt(s, at) ensures at > 0 {
      RunPendingPositive(c, t, es, at);
    }
    if s.core.held.Some? { HeldFits(c, t, es); }
  }

  /** Every run after the zero time drains in at most |queue| + 2 polls that are not too early. */
  lemma RunDrains(c: Config, t: Tape, es: seq<Event>, polls: seq<Time>)
    requires AllFit(c, es) && forall e :: e in es ==> 0 < e.now
    requires Timely(c, t, Run(c, t, es), polls) && |polls| >= |Run(c, t, es).queue| + 2
    ensures Idle(PollAll(c, t, Run(c, t, es), polls))
  {
    hide Run, Drainable, Timely, Fits;
    RunDrainable(c, t, es);
    DrainEmpties(c, t, Run(c, t, es), polls);
  }

  lemma HeldFits(c: Config, t: Tape, es: seq<Event>)
    requires AllFit(c, es) && Run(c, t, es).core.held.Some?
    ensures Fits(|Run(c, t, es).core.held.value.copy.packet.data|, c.bandwidth)
  {
    hide Fits, Run, Woven, Shaped;
    var s := Run(c, t, es).core;
    RunAccounted(c, t, es);
    RunFated(c, t, es);
    var k := |s.copies| - 1;
    assert Packets(s.copies)[k] == s.held.value.copy.packet;
    MultiplyMember(Arrivals(es), s.fates, s.held.value.copy.packet);
    ArrivalMember(es, s.held.value.copy.packet);
  }
}
