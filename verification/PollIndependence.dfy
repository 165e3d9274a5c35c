/** Polls do not matter: exactly when what a pipeline releases is a function of its traffic alone. */
module PollIndependence {
  import opened Common
  import opened PacketOrder
  import opened ImpairSpec
  import opened PipelineHistory
  import opened ReleaseOrder

  /** The run without its polls. */
  function Traffic(es: seq<Event>): seq<Event> {
    if es == [] then []
    else Traffic(es[..|es| - 1]) + (if es[|es| - 1].Polled? then [] else [es[|es| - 1]])
  }

  /** A flush at `now` that does not care whether somebody polled before: nothing is held, or the hold
      has not run out before `now`, or the link is busy for so long that the difference is lost. */
  predicate FlushCalm(c: Config, t: Tape, s: Core, now: Time) {
    || s.held.None?
    || s.held.value.releaseAt >= now
    || (c.bandwidth > 0 && now + c.Latency() + JitterDraw(c, t, s.pos).0 <= s.ready)
  }

  /** Every flush in the traffic is calm, seen from the run of the traffic itself. */
  ghost predicate Calm(c: Config, t: Tape, x: seq<Event>) {
    forall i :: 0 <= i < |x| && x[i].Flushed? ==> FlushCalm(c, t, Run(c, t, x[..i]).core, x[i].now)
  }

  // ---------- one flush ----------

  lemma ItemsAppend(log: seq<Entry>, e: Entry)
    ensures Items(log + [e], 0) == Items(log, 0) + [Item(e.copy.packet.data, e.releaseAt, |log|)]
  {
  }

  /** A poll before a flush changes no release time exactly if it finds nothing overdue, or comes from
      the flush's own instant, or the shaper swallows the difference. */
  lemma FlushSeesPolls(c: Config, t: Tape, s: Core, poll: Time, now: Time)
    requires poll <= now
    ensures Items(FlushHeld(c, t, Expire(c, t, s, poll), now).log, 0) == Items(FlushHeld(c, t, s, now).log, 0)
      <==> || NotDue(s, poll)
           || s.held.value.releaseAt == now
           || (c.bandwidth > 0 && now + c.Latency() + JitterDraw(c, t, s.pos).0 <= s.ready)
  {
    hide JitterDraw, Transmit;
    if !NotDue(s, poll) {
      var polled, late := FlushHeld(c, t, Expire(c, t, s, poll), now), FlushHeld(c, t, s, now);
      var n := |s.log|;
      assert polled.log == s.log + [polled.log[n]] && late.log == s.log + [late.log[n]];
      ItemsAppend(s.log, polled.log[n]);
      ItemsAppend(s.log, late.log[n]);
      assert Items(polled.log, 0)[n].releaseAt == polled.log[n].releaseAt;
      assert Items(late.log, 0)[n].releaseAt == late.log[n].releaseAt;
    }
  }

  // ---------- states that release alike ----------

  /** Two states that differ in their history at most: same copies, hold, shaper, tape and items. */
  ghost predicate Alike(a: Core, b: Core) {
    && a.copies == b.copies && a.held == b.held && a.ready == b.ready && a.pos == b.pos
    && Items(a.log, 0) == Items(b.log, 0)
  }

  /** Scheduling one copy in two alike states, when both compute the same release time. */
  lemma ScheduleAlike(c: Config, t: Tape, a: Core, b: Core, base: Time, base': Time, copy: Copy)
    requires Alike(a, b)
    requires base == base' || (c.bandwidth > 0
      && Max(a.ready, base + c.Latency() + JitterDraw(c, t, a.pos).0)
      == Max(a.ready, base' + c.Latency() + JitterDraw(c, t, a.pos).0))
    ensures Alike(Schedule(c, t, a, base, copy), Schedule(c, t, b, base', copy))
  {
    hide JitterDraw, Transmit;
    var a', b' := Schedule(c, t, a, base, copy), Schedule(c, t, b, base', copy);
    assert |Items(a.log, 0)| == |a.log| == |b.log|;
    ItemsAppend(a.log, a'.log[|a.log|]);
    ItemsAppend(b.log, b'.log[|b.log|]);
  }

  lemma ExpireAlike(c: Config, t: Tape, a: Core, b: Core, now: Time)
    requires Alike(a, b)
    ensures Alike(Expire(c, t, a, now), Expire(c, t, b, now))
    ensures Alike(FlushHeld(c, t, a, now), FlushHeld(c, t, b, now))
  {
    hide Schedule, Items;
    if a.held.Some? {
      var h := a.held.value;
      var a1 := a.(held := None, tally := a.tally.(expiries := a.tally.expiries + 1));
      var b1 := b.(held := None, tally := b.tally.(expiries := b.tally.expiries + 1));
      ScheduleAlike(c, t, a1, b1, h.releaseAt, h.releaseAt, h.copy);
      var a2 := a.(held := None, tally := a.tally.(flushes := a.tally.flushes + 1));
      var b2 := b.(held := None, tally := b.tally.(flushes := b.tally.flushes + 1));
      ScheduleAlike(c, t, a2, b2, now, now, h.copy);
    }
  }

  lemma AdmitAlike(c: Config, t: Tape, a: Core, b: Core, now: Time, data: Bytes)
    requires Alike(a, b)
    ensures Alike(Admit(c, t, a, now, data), Admit(c, t, b, now, data))
  {
    hide Schedule, Items, Roll;
    var copy := Copy(|a.copies|, Arrival(now, data));
    var a1, b1 := a.(copies := a.copies + [copy]), b.(copies := b.copies + [copy]);
    if a.held.Some? {
      var a2 := a1.(held := None, tally := a.tally.(swaps := a.tally.swaps + 1));
      var b2 := b1.(held := None, tally := b.tally.(swaps := b.tally.swaps + 1));
      ScheduleAlike(c, t, a2, b2, now, now, copy);
      ScheduleAlike(c, t, Schedule(c, t, a2, now, copy), Schedule(c, t, b2, now, copy), now, now, a.held.value.copy);
    } else {
      var (reorder, pos) := Roll(t, a.pos, c.reorderProb);
      if !reorder {
        ScheduleAlike(c, t, a1.(pos := pos), b1.(pos := pos), now, now, copy);
      }
    }
  }

  lemma {:induction false} AdmitAllAlike(c: Config, t: Tape, a: Core, b: Core, now: Time, data: Bytes, n: nat)
    requires Alike(a, b)
    ensures Alike(AdmitAll(c, t, a, now, data, n), AdmitAll(c, t, b, now, data, n))
  {
    hide Admit, Alike;
    if n > 0 {
      AdmitAllAlike(c, t, a, b, now, data, n - 1);
      AdmitAlike(c, t, AdmitAll(c, t, a, now, data, n - 1), AdmitAll(c, t, b, now, data, n - 1), now, data);
    }
  }

  /** `Enqueue` sees of a state only what an expiry at its own time leaves. */
  lemma EnqueueAlike(c: Config, t: Tape, a: Core, b: Core, now: Time, data: Bytes)
    requires Alike(Expire(c, t, a, now), Expire(c, t, b, now))
    ensures Alike(Enqueue(c, t, a, now, data), Enqueue(c, t, b, now, data))
  {
    hide Expire, Roll, AdmitAll, Items;
    var (a1, n) := Decide(c, t, Expire(c, t, a, now));
    var (b1, m) := Decide(c, t, Expire(c, t, b, now));
    AdmitAllAlike(c, t, a1, b1, now, data, n);
  }

  /** A calm flush ends alike whether or not somebody polled at `poll`. */
  lemma CalmFlush(c: Config, t: Tape, s: Core, poll: Time, now: Time)
    requires poll <= now && FlushCalm(c, t, s, now)
    ensures Alike(FlushHeld(c, t, Expire(c, t, s, poll), now), FlushHeld(c, t, s, now))
  {
    hide Schedule, Items, JitterDraw;
    if !NotDue(s, poll) {
      var h := s.held.value;
      var a := s.(held := None, tally := s.tally.(expiries := s.tally.expiries + 1));
      var b := s.(held := None, tally := s.tally.(flushes := s.tally.flushes + 1));
      ScheduleFrame(c, t, a, h.releaseAt, h.copy);
      ScheduleAlike(c, t, a, b, h.releaseAt, now, h.copy);
    }
  }

  // ---------- whole runs ----------

  /** A run that polls is, at its clock, where its traffic is, or where one poll would take that. */
  ghost predicate Tracks(c: Config, t: Tape, run: Core, plan: Core, clock: Time) {
    Alike(run, plan) || Alike(run, Expire(c, t, plan, clock))
  }

  lemma TracksExpired(c: Config, t: Tape, run: Core, plan: Core, clock: Time, now: Time)
    requires Tracks(c, t, run, plan, clock) && clock <= now
    ensures Alike(Expire(c, t, run, now), Expire(c, t, plan, now))
  {
    hide Expire, Alike;
    if Alike(run, plan) {
      ExpireAlike(c, t, run, plan, now);
    } else {
      ExpireAlike(c, t, run, Expire(c, t, plan, clock), now);
      ExpireTwice(c, t, plan, clock, now);
    }
  }

  lemma TracksFlush(c: Config, t: Tape, run: Core, plan: Core, clock: Time, now: Time)
    requires Tracks(c, t, run, plan, clock) && clock <= now && FlushCalm(c, t, plan, now)
    ensures Alike(FlushHeld(c, t, run, now), FlushHeld(c, t, plan, now))
  {
    hide Expire, FlushHeld, FlushCalm;
    if Alike(run, plan) {
      ExpireAlike(c, t, run, plan, now);
    } else {
      ExpireAlike(c, t, run, Expire(c, t, plan, clock), now);
      CalmFlush(c, t, plan, clock, now);
    }
  }

  /** One more event keeps a run on the track of its traffic. */
  lemma TracksStep(c: Config, t: Tape, run: State, plan: State, clock: Time, e: Event)
    requires Tracks(c, t, run.core, plan.core, clock) && clock <= e.now
    requires e.Flushed? ==> FlushCalm(c, t, plan.core, e.now)
    ensures Tracks(c, t, Step(c, t, run, e).core, (if e.Polled? then plan else Step(c, t, plan, e)).core, e.now)
  {
    hide Expire, Enqueue, FlushHeld, Alike, FlushCalm, JitterDraw;
    match e
    case Enqueued(now, data) =>
      TracksExpired(c, t, run.core, plan.core, clock, now);
      EnqueueAlike(c, t, run.core, plan.core, now, data);
    case Polled(now) => TracksExpired(c, t, run.core, plan.core, clock, now);
    case Flushed(now) => TracksFlush(c, t, run.core, plan.core, clock, now);
  }

  /** Calm traffic is calm up to each of its events, and at the event itself. */
  lemma CalmAppend(c: Config, t: Tape, x: seq<Event>, e: Event)
    requires Calm(c, t, x + [e])
    ensures Calm(c, t, x) && (e.Flushed? ==> FlushCalm(c, t, Run(c, t, x).core, e.now))
  {
    hide Run, FlushCalm;
    var y := x + [e];
    assert y[..|x|] == x && y[|x|] == e;
    forall i | 0 <= i < |x| && x[i].Flushed? ensures FlushCalm(c, t, Run(c, t, x[..i]).core, x[i].now) {
      assert y[i] == x[i] && y[..i] == x[..i];
    }
  }

  lemma {:induction false} PollsLeaveNoTrace(c: Config, t: Tape, es: seq<Event>)
    requires ClockRuns(es) && es != [] && Calm(c, t, Traffic(es))
    ensures Tracks(c, t, Run(c, t, es).core, Run(c, t, Traffic(es)).core, es[|es| - 1].now)
  {
    var es', e := es[..|es| - 1], es[|es| - 1];
    var x := Traffic(es');
    var clock := if es' == [] then e.now else es'[|es'| - 1].now;
    assert es == es' + [e];
    TrafficAppend(es', e);
    assert es' == [] ==> Run(c, t, es').core == Run(c, t, x).core;
    assert ClockRuns(es') && clock <= e.now;
    hide Tracks, FlushCalm, Step, Run, Traffic, Calm, ClockRuns;
    RunAppend(c, t, es', e);
    if !e.Polled? {
      CalmAppend(c, t, x, e);
      RunAppend(c, t, x, e);
    }
    assert Tracks(c, t, Run(c, t, es').core, Run(c, t, x).core, clock) by {
      if es' == [] { TracksSelf(c, t, Run(c, t, x).core, clock); } else { PollsLeaveNoTrace(c, t, es'); }
    }
    TracksStep(c, t, Run(c, t, es'), Run(c, t, x), clock, e);
  }

  lemma TracksSelf(c: Config, t: Tape, s: Core, clock: Time)
    ensures Tracks(c, t, s, s, clock)
  {
  }

  /** What the traffic alone has scheduled, seen at `now`. */
  function ScheduleAt(c: Config, t: Tape, x: seq<Event>, now: Time): seq<Item> {
    Items(Expire(c, t, Run(c, t, x).core, now).log, 0)
  }

  /** A run that ends with a poll at `now`, under a forward clock and with packets that fit. */
  ghost predicate EndsAt(c: Config, es: seq<Event>, now: Time) {
    ClockRuns(es) && AllFit(c, es) && es != [] && es[|es| - 1] == Polled(now)
  }

  /** Poll independence: if the flushes of the traffic are calm, the output up to a poll is the
      schedule of the traffic alone, sorted and cut at the poll. Without flushes that is always so. */
  lemma PollIndependence(c: Config, t: Tape, es: seq<Event>, now: Time)
    requires EndsAt(c, es, now) && Calm(c, t, Traffic(es))
    ensures Run(c, t, es).out == Due(Sort(ScheduleAt(c, t, Traffic(es), now)), now)
  {
    hide Due, Sort, Traffic, Alike, Run, Expire;
    OutputIsDue(c, t, es, now);
    PollsLeaveNoTrace(c, t, es);
    var run, plan := Run(c, t, es).core, Run(c, t, Traffic(es)).core;
    TracksExpired(c, t, run, plan, now, now);
    assert Expire(c, t, run, now) == run by {
      PolledStays(c, t, es);
    }
    AlikeItems(run, Expire(c, t, plan, now));
  }

  /** Two ways of polling the same calm traffic return the same packets in the same order, each with
      the same release time. */
  lemma PollingIsInvisible(c: Config, t: Tape, es: seq<Event>, fs: seq<Event>, now: Time)
    requires EndsAt(c, es, now) && EndsAt(c, fs, now)
    requires Traffic(es) == Traffic(fs) && Calm(c, t, Traffic(es))
    ensures Run(c, t, es).out == Run(c, t, fs).out
  {
    hide Run, Due, Traffic, Calm;
    PollIndependence(c, t, es, now);
    PollIndependence(c, t, fs, now);
  }

  /** The enqueues of a list of packets. */
  function Enqueues(ps: seq<Arrival>): (r: seq<Event>)
    ensures |r| == |ps|
  {
    seq(|ps|, i requires 0 <= i < |ps| => Enqueued(ps[i].at, ps[i].data))
  }

  /** Without flushes the traffic is the packets enqueued, and it is calm. */
  lemma {:induction false} NoFlushTraffic(c: Config, t: Tape, es: seq<Event>)
    requires NoFlush(es)
    ensures Traffic(es) == Enqueues(Arrivals(es)) && Calm(c, t, Traffic(es))
  {
    if es != [] {
      assert es[|es| - 1] in es;
      NoFlushTraffic(c, t, es[..|es| - 1]);
    }
  }

  lemma AlikeItems(a: Core, b: Core)
    requires Alike(a, b)
    ensures Items(a.log, 0) == Items(b.log, 0)
  {
  }

  lemma PolledStays(c: Config, t: Tape, es: seq<Event>)
    requires es != [] && es[|es| - 1].Polled?
    ensures Expire(c, t, Run(c, t, es).core, es[|es| - 1].now) == Run(c, t, es).core
  {
    hide Expire;
    ExpireTwice(c, t, Run(c, t, es[..|es| - 1]).core, es[|es| - 1].now, es[|es| - 1].now);
  }

  /** No way of polling traffic `x` can be told from another by what comes out and when. */
  ghost predicate PollsInvisible(c: Config, t: Tape, x: seq<Event>) {
    forall es, fs, now :: EndsAt(c, es, now) && EndsAt(c, fs, now) && Traffic(es) == x && Traffic(fs) == x ==>
      Run(c, t, es).out == Run(c, t, fs).out
  }

  // ---------- the converse ----------

  lemma {:induction false} TrafficConcat(es: seq<Event>, fs: seq<Event>)
    ensures Traffic(es + fs) == Traffic(es) + Traffic(fs)
  {
    if fs == [] {
      assert es + fs == es;
    } else {
      assert (es + fs)[..|es + fs| - 1] == es + fs[..|fs| - 1];
      TrafficConcat(es, fs[..|fs| - 1]);
    }
  }

  ghost predicate PollFree(x: seq<Event>) { forall i :: 0 <= i < |x| ==> !x[i].Polled? }

  lemma {:induction false} TrafficOfTraffic(x: seq<Event>)
    requires PollFree(x)
    ensures Traffic(x) == x
  {
    if x != [] {
      TrafficOfTraffic(x[..|x| - 1]);
    }
  }

  lemma DueMember(q: seq<Item>, now: Time, y: Item)
    ensures y in Due(q, now) <==> y in q && y.releaseAt <= now
  {
    if q != [] {
      DueMember(q[1..], now, y);
      assert q == [q[0]] + q[1..];
    }
  }

  lemma SortKeeps(xs: seq<Item>, y: Item)
    ensures y in Sort(xs) <==> y in xs
  {
    InsertAllMultiset([], xs);
    assert y in Sort(xs) <==> y in multiset(Sort(xs));
    assert y in xs <==> y in multiset(xs);
  }

  /** Two runs whose schedules differ at call `n` differ in their output once that call is due. */
  lemma OutputsDiffer(c: Config, t: Tape, es: seq<Event>, fs: seq<Event>, now: Time, n: nat)
    requires EndsAt(c, es, now) && EndsAt(c, fs, now)
    requires n < |Run(c, t, es).core.log| && n < |Run(c, t, fs).core.log|
    requires Run(c, t, es).core.log[n].releaseAt != Run(c, t, fs).core.log[n].releaseAt
    requires Run(c, t, es).core.log[n].releaseAt <= now
    ensures Run(c, t, es).out != Run(c, t, fs).out
  {
    hide Run, Sort, Due, Sorted;
    var a, b := Items(Run(c, t, es).core.log, 0), Items(Run(c, t, fs).core.log, 0);
    OutputIsDue(c, t, es, now);
    OutputIsDue(c, t, fs, now);
    DueMember(Sort(a), now, a[n]);
    SortKeeps(a, a[n]);
    DueMember(Sort(b), now, a[n]);
    SortKeeps(b, a[n]);
  }

  /** The traffic with one poll put in front of its event `i`, and polled at `end`. */
  function PolledBefore(x: seq<Event>, i: nat, end: Time): seq<Event>
    requires i < |x|
  {
    x[..i] + [Polled(x[i].now)] + x[i..] + [Polled(end)]
  }

  lemma ClockConcat(es: seq<Event>, fs: seq<Event>)
    requires ClockRuns(es) && ClockRuns(fs) && forall e, f :: e in es && f in fs ==> e.now <= f.now
    ensures ClockRuns(es + fs)
  {
    var gs := es + fs;
    forall i, j | 0 <= i < j < |gs| ensures gs[i].now <= gs[j].now {
      if i < |es| <= j { assert gs[i] in es && gs[j] in fs; }
    }
  }

  lemma ClockCut(x: seq<Event>, i: nat)
    requires ClockRuns(x) && i < |x|
    ensures ClockRuns(x[..i]) && ClockRuns(x[i..])
    ensures forall e :: e in x[..i] ==> e.now <= x[i].now
    ensures forall e :: e in x[i..] ==> x[i].now <= e.now
    ensures forall e :: e in x ==> e.now <= x[|x| - 1].now
  {
  }

  lemma PolledBeforeClock(x: seq<Event>, i: nat, end: Time)
    requires ClockRuns(x) && i < |x| && x[|x| - 1].now <= end
    ensures ClockRuns(PolledBefore(x, i, end)) && ClockRuns(x + [Polled(end)])
  {
    ClockCut(x, i);
    hide ClockRuns;
    var a, b := x[..i], x[i..];
    assert forall e :: e in b ==> e in x;
    ClockAppend(x, Polled(end));
    ClockAppend(a, Polled(x[i].now));
    ClockAppend(b, Polled(end));
    ClockConcat(a + [Polled(x[i].now)], b + [Polled(end)]);
    assert PolledBefore(x, i, end) == a + [Polled(x[i].now)] + (b + [Polled(end)]);
  }

  lemma ClockAppend(es: seq<Event>, last: Event)
    requires ClockRuns(es) && forall e :: e in es ==> e.now <= last.now
    ensures ClockRuns(es + [last])
  {
    assert forall i :: 0 <= i < |es| ==> es[i] in es;
  }

  lemma PolledBeforeTraffic(x: seq<Event>, i: nat, end: Time)
    requires i < |x| && PollFree(x)
    ensures Traffic(PolledBefore(x, i, end)) == x && Traffic(x + [Polled(end)]) == x
  {
    var poll, last := Polled(x[i].now), Polled(end);
    var a, b := x[..i], x[i..];
    assert x == a + b;
    TrafficOfTraffic(x);
    TrafficOfTraffic(a);
    TrafficOfTraffic(b);
    hide Traffic, PollFree;
    TrafficAppend(a, poll);
    TrafficConcat(a + [poll], b);
    TrafficAppend(a + [poll] + b, last);
    TrafficAppend(x, last);
  }

  lemma TrafficAppend(es: seq<Event>, e: Event)
    ensures Traffic(es + [e]) == if e.Polled? then Traffic(es) else Traffic(es) + [e]
  {
    assert (es + [e])[..|es|] == es;
  }

  lemma PolledBeforeEnds(c: Config, x: seq<Event>, i: nat, end: Time)
    requires ClockRuns(x) && AllFit(c, x) && i < |x| && x[|x| - 1].now <= end
    requires PollFree(x)
    ensures EndsAt(c, PolledBefore(x, i, end), end) && Traffic(PolledBefore(x, i, end)) == x
    ensures EndsAt(c, x + [Polled(end)], end) && Traffic(x + [Polled(end)]) == x
  {
    hide ClockRuns, Traffic, Fits;
    PolledBeforeClock(x, i, end);
    PolledBeforeTraffic(x, i, end);
    assert forall e :: e in PolledBefore(x, i, end) ==> e in x || e.Polled?;
  }

  /** A flush that is not calm shows whether somebody polled just before it. */
  lemma StirredFlush(c: Config, t: Tape, s: Core, now: Time)
    requires !FlushCalm(c, t, s, now)
    ensures var a, b, n := FlushHeld(c, t, Expire(c, t, s, now), now), FlushHeld(c, t, s, now), |s.log|;
      |a.log| == n + 1 && |b.log| == n + 1 && a.log[n].releaseAt < b.log[n].releaseAt
  {
    hide JitterDraw, Transmit;
  }

  lemma StirredRun(c: Config, t: Tape, x: seq<Event>, i: nat)
    requires ClockRuns(x) && AllFit(c, x) && PollFree(x)
    requires i < |x| && x[i].Flushed? && !FlushCalm(c, t, Run(c, t, x[..i]).core, x[i].now)
    ensures !PollsInvisible(c, t, x)
  {
    hide Run, Step, FlushCalm, Traffic, EndsAt;
    var now, s := x[i].now, Run(c, t, x[..i]);
    var n := |s.core.log|;
    var before := x[..i] + [Polled(now)] + [x[i]];
    var early, late := FlushHeld(c, t, Expire(c, t, s.core, now), now), FlushHeld(c, t, s.core, now);
    StirredFlush(c, t, s.core, now);
    var end := Max(x[|x| - 1].now, early.log[n].releaseAt);
    var es, fs := PolledBefore(x, i, end), x + [Polled(end)];
    PolledBeforeEnds(c, x, i, end);
    RunAppend(c, t, x[..i], Polled(now));
    RunAppend(c, t, x[..i] + [Polled(now)], x[i]);
    RunAppend(c, t, x[..i], x[i]);
    assert Run(c, t, before).core == early by { FlushStepCore(c, t, s, now); }
    assert Run(c, t, x[..i] + [x[i]]).core == late by { FlushStepCore(c, t, s, now); }
    assert es == before + (x[i + 1..] + [Polled(end)]);
    assert fs == (x[..i] + [x[i]]) + (x[i + 1..] + [Polled(end)]);
    RunGrows(c, t, before, x[i + 1..] + [Polled(end)]);
    RunGrows(c, t, x[..i] + [x[i]], x[i + 1..] + [Polled(end)]);
    OutputsDiffer(c, t, es, fs, end, n);
  }

  lemma FlushStepCore(c: Config, t: Tape, s: State, now: Time)
    ensures Step(c, t, s, Flushed(now)).core == FlushHeld(c, t, s.core, now)
    ensures Step(c, t, Step(c, t, s, Polled(now)), Flushed(now)).core == FlushHeld(c, t, Expire(c, t, s.core, now), now)
  {
    hide Expire, FlushHeld;
  }

  /** Polls cannot be told from outside if and only if every flush of the traffic is calm: the hold it
      meets has not run out before it, or the shaper swallows the difference. */
  lemma PollsInvisibleIff(c: Config, t: Tape, x: seq<Event>)
    requires ClockRuns(x) && AllFit(c, x) && PollFree(x)
    ensures PollsInvisible(c, t, x) <==> Calm(c, t, x)
  {
    hide Run, Traffic, EndsAt, FlushCalm;
    if Calm(c, t, x) {
      forall es, fs, now | EndsAt(c, es, now) && EndsAt(c, fs, now) && Traffic(es) == x && Traffic(fs) == x
        ensures Run(c, t, es).out == Run(c, t, fs).out
      {
        PollIndependence(c, t, es, now);
        PollIndependence(c, t, fs, now);
      }
    } else {
      var i :| 0 <= i < |x| && x[i].Flushed? && !FlushCalm(c, t, Run(c, t, x[..i]).core, x[i].now);
      StirredRun(c, t, x, i);
    }
  }
}
