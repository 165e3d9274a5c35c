/** What comes out of a pipeline and when: polls do not matter, order is bounded, delays are bounded. */
module ReleaseOrder {
  import opened Common
  import opened PacketOrder
  import opened ImpairSpec
  import opened PipelineHistory

  // ---------- the clock ----------

  /** Facts about `log` and `held` when the clock has only run forward, up to `clock`.
      `prompt` says in addition that no `Flush` has scheduled a held copy late. */
  ghost predicate Timed(c: Config, s: Core, clock: Time, prompt: bool) {
    && (forall i :: 0 <= i < |s.log| ==> Punctual(c, s.log[i], prompt) && s.log[i].base <= clock)
    && (forall i, j :: 0 <= i < j < |s.log| ==> s.log[i].base <= s.log[j].base)
    && (s.held.Some? ==>
      var h := s.held.value;
      && h.copy.packet.at <= clock
      && h.releaseAt == h.copy.packet.at + c.Hold()
      && forall i :: 0 <= i < |s.log| ==> s.log[i].base <= h.copy.packet.at)
  }

  ghost predicate Punctual(c: Config, e: Entry, prompt: bool) {
    e.copy.packet.at <= e.base && (prompt ==> e.base <= e.copy.packet.at + c.Hold())
  }

  /** A held copy, if any, is not due at `now`. */
  ghost predicate NotDue(s: Core, now: Time) {
    s.held.Some? ==> s.held.value.releaseAt > now
  }

  lemma ScheduleTimed(c: Config, t: Tape, s: Core, base: Time, copy: Copy, clock: Time, prompt: bool)
    requires Timed(c, s, clock, prompt) && s.held.None? && base <= clock
    requires Punctual(c, Entry(copy, base, 0, 0, 0), prompt)
    requires forall i :: 0 <= i < |s.log| ==> s.log[i].base <= base
    ensures Timed(c, Schedule(c, t, s, base, copy), clock, prompt)
  {
    hide Schedule;
    ScheduleFrame(c, t, s, base, copy);
    var log := Schedule(c, t, s, base, copy).log;
    forall i | 0 <= i < |log| ensures Punctual(c, log[i], prompt) && log[i].base <= base {
      if i < |s.log| { assert log[i] == s.log[i]; }
    }
    forall i, j | 0 <= i < j < |log| ensures log[i].base <= log[j].base {
      assert log[i] == s.log[i];
      if j < |s.log| { assert log[j] == s.log[j]; }
    }
  }

  lemma ExpireTimed(c: Config, t: Tape, s: Core, clock: Time, now: Time, prompt: bool)
    requires Timed(c, s, clock, prompt) && clock <= now
    ensures Timed(c, Expire(c, t, s, now), now, prompt) && NotDue(Expire(c, t, s, now), now)
  {
    hide Schedule;
    if !NotDue(s, now) {
      var h := s.held.value;
      var s1 := s.(held := None, tally := s.tally.(expiries := s.tally.expiries + 1));
      ScheduleTimed(c, t, s1, h.releaseAt, h.copy, now, prompt);
      ScheduleFrame(c, t, s1, h.releaseAt, h.copy);
    }
  }

  /** A flush at `now` finds nothing held, or a hold that has not run out before `now`. */
  predicate FlushPrompt(s: Core, now: Time) {
    s.held.None? || now <= s.held.value.releaseAt
  }

  /** Every flush of the run is prompt. */
  ghost predicate Prompt(c: Config, t: Tape, es: seq<Event>) {
    forall i :: 0 <= i < |es| && es[i].Flushed? ==> FlushPrompt(Run(c, t, es[..i]).core, es[i].now)
  }

  lemma FlushTimed(c: Config, t: Tape, s: Core, clock: Time, now: Time, prompt: bool)
    requires Timed(c, s, clock, prompt) && clock <= now && (prompt ==> FlushPrompt(s, now))
    ensures Timed(c, FlushHeld(c, t, s, now), now, prompt)
  {
    hide Schedule;
    if s.held.Some? {
      var s1 := s.(held := None, tally := s.tally.(flushes := s.tally.flushes + 1));
      ScheduleTimed(c, t, s1, now, s.held.value.copy, now, prompt);
    }
  }

  lemma AdmitTimed(c: Config, t: Tape, s: Core, now: Time, data: Bytes, prompt: bool)
    requires Timed(c, s, now, prompt) && NotDue(s, now)
    ensures Timed(c, Admit(c, t, s, now, data), now, prompt) && NotDue(Admit(c, t, s, now, data), now)
  {
    hide Schedule, Roll;
    var copy := Copy(|s.copies|, Arrival(now, data));
    var s1 := s.(copies := s.copies + [copy]);
    if s.held.Some? {
      var h := s.held.value.copy;
      var s2 := s1.(held := None, tally := s.tally.(swaps := s.tally.swaps + 1));
      ScheduleTimed(c, t, s2, now, copy, now, prompt);
      ScheduleFrame(c, t, s2, now, copy);
      var s3 := Schedule(c, t, s2, now, copy);
      ScheduleTimed(c, t, s3, now, h, now, prompt);
      ScheduleFrame(c, t, s3, now, h);
    } else {
      var (reorder, pos) := Roll(t, s.pos, c.reorderProb);
      if !reorder {
        ScheduleTimed(c, t, s1.(pos := pos), now, copy, now, prompt);
        ScheduleFrame(c, t, s1.(pos := pos), now, copy);
      }
    }
  }

  lemma {:induction false} AdmitAllTimed(c: Config, t: Tape, s: Core, now: Time, data: Bytes, n: nat, prompt: bool)
    requires Timed(c, s, now, prompt) && NotDue(s, now)
    ensures Timed(c, AdmitAll(c, t, s, now, data, n), now, prompt)
    ensures NotDue(AdmitAll(c, t, s, now, data, n), now)
  {
    hide Admit;
    if n > 0 {
      AdmitAllTimed(c, t, s, now, data, n - 1, prompt);
      AdmitTimed(c, t, AdmitAll(c, t, s, now, data, n - 1), now, data, prompt);
    }
  }

  lemma EnqueueTimed(c: Config, t: Tape, s: Core, clock: Time, now: Time, data: Bytes, prompt: bool)
    requires Timed(c, s, clock, prompt) && clock <= now
    ensures Timed(c, Enqueue(c, t, s, now, data), now, prompt)
    ensures NotDue(Enqueue(c, t, s, now, data), now)
  {
    hide AdmitAll, Expire, Roll;
    ExpireTimed(c, t, s, clock, now, prompt);
    var (s1, n) := Decide(c, t, Expire(c, t, s, now));
    assert Timed(c, s1, now, prompt) && NotDue(s1, now);
    AdmitAllTimed(c, t, s1, now, data, n, prompt);
  }

  lemma StepTimed(c: Config, t: Tape, s: State, e: Event, prompt: bool)
    requires Timed(c, s.core, e.now, prompt) && (prompt && e.Flushed? ==> FlushPrompt(s.core, e.now))
    ensures Timed(c, Step(c, t, s, e).core, e.now, prompt)
  {
    hide Enqueue, Expire, FlushHeld, Timed, FlushPrompt;
    match e
    case Enqueued(now, data) => EnqueueTimed(c, t, s.core, now, now, data, prompt);
    case Polled(now) => ExpireTimed(c, t, s.core, now, now, prompt);
    case Flushed(now) => FlushTimed(c, t, s.core, now, now, prompt);
  }

  lemma TimedLater(c: Config, s: Core, clock: Time, later: Time, prompt: bool)
    requires Timed(c, s, clock, prompt) && clock <= later
    ensures Timed(c, s, later, prompt)
  {
  }

  /** On a forward clock copies are scheduled in time order and not before they arrived; and if every
      flush is prompt, within one hold of their arrival. */
  lemma {:induction false} RunTimed(c: Config, t: Tape, es: seq<Event>, clock: Time, prompt: bool)
    requires ClockRuns(es) && (forall e :: e in es ==> e.now <= clock) && (prompt ==> Prompt(c, t, es))
    ensures Timed(c, Run(c, t, es).core, clock, prompt)
  {
    hide Step, FlushPrompt;
    if es != [] {
      var es', e := es[..|es| - 1], es[|es| - 1];
      var s := Run(c, t, es');
      if prompt { PromptInit(c, t, es); }
      RunTimed(c, t, es', e.now, prompt);
      StepTimed(c, t, s, e, prompt);
      TimedLater(c, Step(c, t, s, e).core, e.now, clock, prompt);
    }
  }

  lemma PromptInit(c: Config, t: Tape, es: seq<Event>)
    requires es != [] && Prompt(c, t, es)
    ensures Prompt(c, t, es[..|es| - 1])
  {
    var init := es[..|es| - 1];
    forall i | 0 <= i < |init| && init[i].Flushed? ensures FlushPrompt(Run(c, t, init[..i]).core, init[i].now) {
      assert init[i] == es[i] && init[..i] == es[..i];
    }
  }

  lemma RunTimedToEnd(c: Config, t: Tape, es: seq<Event>, prompt: bool)
    requires ClockRuns(es) && (prompt ==> Prompt(c, t, es))
    ensures Timed(c, Run(c, t, es).core, if es == [] then 0 else es[|es| - 1].now, prompt)
  {
    hide Run, Timed, Prompt;
    RunTimed(c, t, es, if es == [] then 0 else es[|es| - 1].now, prompt);
  }

  /** A flush that is not prompt schedules its copy more than one hold after the copy arrived. */
  lemma LateFlush(c: Config, t: Tape, s: Core, clock: Time, now: Time)
    requires Timed(c, s, clock, false) && !FlushPrompt(s, now)
    ensures var log, n := FlushHeld(c, t, s, now).log, |s.log|;
      |log| == n + 1 && log[n].base == now > log[n].copy.packet.at + c.Hold()
  {
    hide Transmit, JitterDraw;
  }

  /** A flush that is not prompt leaves a late entry in the schedule of the whole run. */
  lemma LateRun(c: Config, t: Tape, es: seq<Event>, i: nat) returns (n: nat)
    requires ClockRuns(es) && i < |es| && es[i].Flushed? && !FlushPrompt(Run(c, t, es[..i]).core, es[i].now)
    ensures n < |Run(c, t, es).core.log|
    ensures !Punctual(c, Run(c, t, es).core.log[n], true)
  {
    var s, now := Run(c, t, es[..i]), es[i].now;
    assert es == (es[..i] + [es[i]]) + es[i + 1..];
    RunTimedToEnd(c, t, es[..i], false);
    hide Run, Step, Timed, FlushPrompt, FlushHeld, ClockRuns;
    n := |s.core.log|;
    LateFlush(c, t, s.core, if i == 0 then 0 else es[i - 1].now, now);
    RunAppend(c, t, es[..i], es[i]);
    FlushStep(c, t, s, now);
    RunGrows(c, t, es[..i] + [es[i]], es[i + 1..]);
  }

  /** Every copy is scheduled within one hold of its arrival if and only if every flush is prompt. */
  lemma WithinHoldIff(c: Config, t: Tape, es: seq<Event>)
    requires ClockRuns(es)
    ensures var log := Run(c, t, es).core.log;
      (forall i :: 0 <= i < |log| ==> log[i].base <= log[i].copy.packet.at + c.Hold()) <==> Prompt(c, t, es)
  {
    hide Run, FlushPrompt;
    var log := Run(c, t, es).core.log;
    if Prompt(c, t, es) {
      RunTimedToEnd(c, t, es, true);
      assert forall i :: 0 <= i < |log| ==> Punctual(c, log[i], true);
    } else {
      var i :| 0 <= i < |es| && es[i].Flushed? && !FlushPrompt(Run(c, t, es[..i]).core, es[i].now);
      RunTimedToEnd(c, t, es, false);
      var n := LateRun(c, t, es, i);
      assert Punctual(c, log[n], false);
    }
  }

  lemma FlushStep(c: Config, t: Tape, s: State, now: Time)
    ensures Step(c, t, s, Flushed(now)).core == FlushHeld(c, t, s.core, now)
  {
  }

  // ---------- sizes ----------

  lemma {:induction false} MultiplyMember(ps: seq<Arrival>, fates: seq<nat>, p: Arrival)
    requires |ps| == |fates| && p in Multiply(ps, fates)
    ensures p in ps
  {
    var n := |ps| - 1;
    if p in Multiply(ps[..n], fates[..n]) {
      MultiplyMember(ps[..n], fates[..n], p);
    }
  }

  lemma {:induction false} ArrivalMember(es: seq<Event>, p: Arrival)
    requires p in Arrivals(es)
    ensures Enqueued(p.at, p.data) in es
  {
    var n := |es| - 1;
    if p in Arrivals(es[..n]) {
      ArrivalMember(es[..n], p);
    }
  }

  /** Every scheduled copy carries an enqueued packet. */
  lemma LogFits(c: Config, t: Tape, es: seq<Event>, i: nat)
    requires AllFit(c, es) && i < |Run(c, t, es).core.log|
    ensures Fits(|Run(c, t, es).core.log[i].copy.packet.data|, c.bandwidth)
  {
    hide Fits, Woven, Shaped, Run;
    var s := Run(c, t, es).core;
    var copy := s.log[i].copy;
    RunAccounted(c, t, es);
    RunFated(c, t, es);
    WovenKeeps(Order(s.log), Settled(s), s.tally.swaps);
    assert Order(s.log)[i] == copy;
    assert copy in multiset(Order(s.log));
    assert copy in Settled(s);
    assert copy in s.copies;
    var k :| 0 <= k < |s.copies| && s.copies[k] == copy;
    assert Packets(s.copies)[k] == copy.packet;
    MultiplyMember(Arrivals(es), s.fates, copy.packet);
    ArrivalMember(es, copy.packet);
  }

  /** No copy leaves before the time it was scheduled with. */
  lemma ReleaseNotBeforeBase(c: Config, t: Tape, es: seq<Event>, i: nat)
    requires AllFit(c, es) && i < |Run(c, t, es).core.log|
    ensures var e := Run(c, t, es).core.log[i]; e.base + c.Latency() <= e.releaseAt
    ensures var e := Run(c, t, es).core.log[i];
      c.bandwidth > 0 ==> e.base + c.Latency() + TransmitOf(c, e) <= e.releaseAt
  {
    hide Run, Transmit;
    LogFits(c, t, es, i);
    RunAccounted(c, t, es);
    var e := Run(c, t, es).core.log[i];
    if c.bandwidth > 0 {
      TransmitIsCeiling(|e.copy.packet.data|, c.bandwidth);
    }
  }

  // ---------- the output is always in release order ----------

  /** Scheduled entries `from`, `from + 1`, ... were scheduled with times from `lo` on. */
  ghost predicate From(log: seq<Entry>, from: nat, lo: Time) {
    forall i :: from <= i < |log| ==> log[i].base >= lo
  }

  lemma ExpireFrom(c: Config, t: Tape, s: Core, now: Time, lo: Time)
    requires NotDue(s, lo) && lo <= now
    ensures From(Expire(c, t, s, now).log, |s.log|, lo) && From(FlushHeld(c, t, s, now).log, |s.log|, lo)
    ensures NotDue(Expire(c, t, s, now), now) && FlushHeld(c, t, s, now).held.None?
  {
    hide Transmit, JitterDraw;
  }

  lemma AdmitFrom(c: Config, t: Tape, s: Core, now: Time, data: Bytes, from: nat, lo: Time)
    requires From(s.log, from, lo) && NotDue(s, lo) && lo <= now
    ensures From(Admit(c, t, s, now, data).log, from, lo) && NotDue(Admit(c, t, s, now, data), lo)
  {
    hide Transmit, JitterDraw, Roll;
  }

  lemma {:induction false} AdmitAllFrom(c: Config, t: Tape, s: Core, now: Time, data: Bytes, n: nat, from: nat, lo: Time)
    requires From(s.log, from, lo) && NotDue(s, lo) && lo <= now
    ensures From(AdmitAll(c, t, s, now, data, n).log, from, lo) && NotDue(AdmitAll(c, t, s, now, data, n), lo)
  {
    hide Admit;
    if n > 0 {
      AdmitAllFrom(c, t, s, now, data, n - 1, from, lo);
      AdmitFrom(c, t, AdmitAll(c, t, s, now, data, n - 1), now, data, from, lo);
    }
  }

  lemma StepFrom(c: Config, t: Tape, s: State, e: Event, lo: Time)
    requires NotDue(s.core, lo) && lo <= e.now
    ensures From(Step(c, t, s, e).core.log, |s.core.log|, lo)
    ensures NotDue(Step(c, t, s, e).core, if e.Polled? then e.now else lo)
  {
    hide Expire, AdmitAll, FlushHeld, Roll;
    ExpireFrom(c, t, s.core, e.now, lo);
    if e.Enqueued? {
      var (s1, n) := Decide(c, t, Expire(c, t, s.core, e.now));
      AdmitAllFrom(c, t, s1, e.now, e.data, n, |s.core.log|, lo);
    }
  }

  /** Output followed by queue is the sorted schedule, and all of the output was due at `lo`. */
  ghost predicate InOrder(s: State, lo: Time) {
    && s.out + s.queue == Sort(Items(s.core.log, 0))
    && (forall y :: y in s.out ==> y.releaseAt <= lo && y.seqNo < |s.core.log|)
    && NotDue(s.core, lo)
  }

  lemma AbsorbInOrder(s: State, core: Core, lo: Time)
    requires InOrder(s, lo) && s.core.log <= core.log
    requires forall i :: |s.core.log| <= i < |core.log| ==> core.log[i].releaseAt >= lo
    ensures Absorb(s, core).out + Absorb(s, core).queue == Sort(Items(core.log, 0))
  {
    var old', new' := Items(s.core.log, 0), Items(core.log, |s.core.log|);
    ItemsSplit(s.core.log, core.log);
    InsertAllConcat([], old', new');
    forall y, x | y in s.out && x in new' ensures Before(y, x) {
    }
    InsertAllBehind(s.out, s.queue, new');
  }

  lemma {:induction false} RunInOrder(c: Config, t: Tape, es: seq<Event>, start: Time) returns (lo: Time)
    requires ClockRuns(es) && AllFit(c, es) && (forall e :: e in es ==> start <= e.now)
    ensures InOrder(Run(c, t, es), lo) && start <= lo
    ensures lo == start || (es != [] && lo <= es[|es| - 1].now)
    ensures es != [] && es[|es| - 1].Polled? ==> lo == es[|es| - 1].now
  {
    if es == [] {
      lo := start;
      assert Items([], 0) == [];
    } else {
      var es', e := es[..|es| - 1], es[|es| - 1];
      assert e in es;
      lo := RunInOrder(c, t, es', start);
      StepInOrder(c, t, es, lo);
      if e.Polled? { lo := e.now; }
    }
  }

  lemma StepInOrder(c: Config, t: Tape, es: seq<Event>, lo: Time)
    requires AllFit(c, es) && es != []
    requires InOrder(Run(c, t, es[..|es| - 1]), lo) && lo <= es[|es| - 1].now
    ensures InOrder(Run(c, t, es), if es[|es| - 1].Polled? then es[|es| - 1].now else lo)
  {
    hide Enqueue, Expire, FlushHeld;
    var e := es[|es| - 1];
    var s := Run(c, t, es[..|es| - 1]);
    var core := Step(c, t, s, e).core;
    StepFrom(c, t, s, e, lo);
    StepGrows(c, t, s, e);
    forall i | |s.core.log| <= i < |core.log| ensures core.log[i].releaseAt >= lo {
      ReleaseNotBeforeBase(c, t, es, i);
    }
    AbsorbInOrder(s, core, lo);
    var a := Absorb(s, core);
    if e.Polled? {
      ReleaseInOrder(a, e.now, lo);
    }
  }

  lemma ReleaseInOrder(a: State, now: Time, lo: Time)
    requires a.out + a.queue == Sort(Items(a.core.log, 0)) && NotDue(a.core, now) && lo <= now
    requires forall y :: y in a.out ==> y.releaseAt <= lo && y.seqNo < |a.core.log|
    ensures InOrder(Release(a, now), now)
  {
    hide Sort, ReadyCount;
    var k := ReadyCount(a.queue, now);
    var r := Release(a, now);
    assert a.queue == a.queue[..k] + a.queue[k..];
    assert r.out + r.queue == a.out + a.queue;
    forall y | y in a.queue[..k] ensures y.releaseAt <= now && y.seqNo < |a.core.log| {
      assert y in r.out + r.queue;
      SortMember(Items(a.core.log, 0), y);
    }
  }

  lemma SortMember(xs: seq<Item>, y: Item)
    requires y in Sort(xs)
    ensures y in xs
  {
    InsertAllMultiset([], xs);
    assert y in multiset(Sort(xs));
  }

  // ---------- polls ----------

  lemma ExpireTwice(c: Config, t: Tape, s: Core, now: Time, later: Time)
    requires now <= later
    ensures Expire(c, t, Expire(c, t, s, now), later) == Expire(c, t, s, later)
  {
    hide Schedule;
    if s.held.Some? {
      var s1 := s.(held := None, tally := s.tally.(expiries := s.tally.expiries + 1));
      ScheduleFrame(c, t, s1, s.held.value.releaseAt, s.held.value.copy);
    }
  }

  /** On every run with a forward clock, flushes included, what polls up to `now` returned is the
      sorted schedule cut at `now`. */
  lemma OutputIsDue(c: Config, t: Tape, es: seq<Event>, now: Time)
    requires ClockRuns(es) && AllFit(c, es) && es != [] && es[|es| - 1] == Polled(now)
    ensures var s := Run(c, t, es);
      s.out == Due(Sort(Items(s.core.log, 0)), now) && Sorted(Sort(Items(s.core.log, 0)))
  {
    hide Run, Step, Sort;
    var lo := RunInOrder(c, t, es, es[0].now);
    var s := Run(c, t, es);
    SortSorted(s.core.log);
    DueConcat(s.out, s.queue, now);
    AllDue(s.out, now);
    assert forall y :: y in s.queue ==> y.releaseAt > now by {
      PolledQueueNotDue(c, t, es);
    }
    NoneDue(s.queue, now);
  }

  lemma SortSorted(log: seq<Entry>)
    ensures Sorted(Sort(Items(log, 0)))
  {
    InsertItemsSorted([], Items(log, 0));
  }

  lemma PolledQueueNotDue(c: Config, t: Tape, es: seq<Event>)
    requires es != [] && es[|es| - 1].Polled?
    ensures forall y :: y in Run(c, t, es).queue ==> y.releaseAt > es[|es| - 1].now
  {
    hide Expire;
    var s, now := Run(c, t, es[..|es| - 1]), es[|es| - 1].now;
    LogGrows(c, t, s.core, now, [], 0);
    var a := Absorb(s, Expire(c, t, s.core, now));
    RunQueued(c, t, es[..|es| - 1]);
    AbsorbQueued(s, Expire(c, t, s.core, now));
    ReadyIsDue(a.queue, now);
  }
}
