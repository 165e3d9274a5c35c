/** What every run of a pipeline keeps, whatever its clock: no copy is lost or made up, holds are
    resolved once, and release times follow the shaper's recurrence. */
module PipelineHistory {
  import opened Common
  import opened PacketOrder
  import opened ImpairSpec

  // ---------- schedule order ----------

  /** The copies in the order in which they were scheduled. */
  function Order(log: seq<Entry>): (r: seq<Copy>)
    ensures |r| == |log|
  {
    seq(|log|, i requires 0 <= i < |log| => log[i].copy)
  }

  /** `a` is `b` with `k` disjoint pairs of neighbours swapped. */
  ghost predicate Woven(a: seq<Copy>, b: seq<Copy>, k: nat)
    decreases |a|
  {
    var n := |a|;
    n == |b| &&
    if n == 0 then k == 0
    else
      || (a[n - 1] == b[n - 1] && Woven(a[..n - 1], b[..n - 1], k))
      || (n >= 2 && k > 0 && a[n - 1] == b[n - 2] && a[n - 2] == b[n - 1]
          && Woven(a[..n - 2], b[..n - 2], k - 1))
  }

  lemma WovenAppend(a: seq<Copy>, b: seq<Copy>, k: nat, x: Copy)
    requires Woven(a, b, k)
    ensures Woven(a + [x], b + [x], k)
  {
    assert (a + [x])[..|a|] == a && (b + [x])[..|b|] == b;
  }

  lemma WovenSwap(a: seq<Copy>, b: seq<Copy>, k: nat, x: Copy, y: Copy)
    requires Woven(a, b, k)
    ensures Woven(a + [y, x], b + [x, y], k + 1)
  {
    assert (a + [y, x])[..|a|] == a && (b + [x, y])[..|b|] == b;
  }

  /** Place `i` is as in `b`, or swapped with a neighbour. */
  ghost predicate Near(a: seq<Copy>, b: seq<Copy>, i: nat)
    requires i < |a| == |b|
  {
    || a[i] == b[i]
    || (i > 0 && a[i] == b[i - 1] && a[i - 1] == b[i])
    || (i + 1 < |b| && a[i] == b[i + 1] && a[i + 1] == b[i])
  }

  /** In a woven sequence nothing moves further than one place. */
  lemma {:induction false} WovenIsNear(a: seq<Copy>, b: seq<Copy>, k: nat)
    requires Woven(a, b, k)
    ensures |a| == |b| && forall i :: 0 <= i < |a| ==> Near(a, b, i)
    decreases |a|
  {
    var n := |a|;
    if n > 0 {
      var m := if a[n - 1] == b[n - 1] && Woven(a[..n - 1], b[..n - 1], k) then n - 1 else n - 2;
      var p, q := a[..m], b[..m];
      WovenIsNear(p, q, if m == n - 1 then k else k - 1);
      forall i | 0 <= i < n ensures Near(a, b, i) {
        assert i < m ==> Near(p, q, i);
      }
    }
  }

  /** In a woven sequence nothing is lost or made up. */
  lemma {:induction false} WovenKeeps(a: seq<Copy>, b: seq<Copy>, k: nat)
    requires Woven(a, b, k)
    ensures multiset(a) == multiset(b)
    decreases |a|
  {
    var n := |a|;
    if n == 0 {
      assert a == b;
    } else if a[n - 1] == b[n - 1] && Woven(a[..n - 1], b[..n - 1], k) {
      WovenKeeps(a[..n - 1], b[..n - 1], k);
      hide Woven;
      KeepsLast(a, b);
    } else {
      WovenKeeps(a[..n - 2], b[..n - 2], k - 1);
      hide Woven;
      KeepsPair(a, b);
    }
  }

  lemma KeepsLast(a: seq<Copy>, b: seq<Copy>)
    requires a != [] && |a| == |b| && a[|a| - 1] == b[|a| - 1]
    requires multiset(a[..|a| - 1]) == multiset(b[..|a| - 1])
    ensures multiset(a) == multiset(b)
  {
    var n := |a| - 1;
    assert a == a[..n] + [a[n]] && b == b[..n] + [b[n]];
  }

  lemma KeepsPair(a: seq<Copy>, b: seq<Copy>)
    requires 2 <= |a| == |b| && a[|a| - 2] == b[|a| - 1] && a[|a| - 1] == b[|a| - 2]
    requires multiset(a[..|a| - 2]) == multiset(b[..|a| - 2])
    ensures multiset(a) == multiset(b)
  {
    var n := |a| - 2;
    assert a == a[..n] + [a[n], a[n + 1]] && b == b[..n] + [b[n], b[n + 1]];
  }

  // ---------- the recurrence of the shaper ----------

  /** `bandwidthReady` as call number `n` of `schedule` finds it. */
  function ReadyBefore(log: seq<Entry>, n: nat): Time
    requires n <= |log|
  {
    if n == 0 then 0 else log[n - 1].releaseAt
  }

  /** When entry `e` could leave if the link were idle. */
  function Earliest(c: Config, e: Entry): Time { e.base + c.Latency() + e.jitter }

  function TransmitOf(c: Config, e: Entry): int { Transmit(|e.copy.packet.data|, c.bandwidth) }

  ghost predicate Shaped(c: Config, log: seq<Entry>) {
    forall n :: 0 <= n < |log| ==>
      && log[n].jitter <= c.Jitter()
      && log[n].releaseAt ==
         if c.bandwidth > 0 then Max(ReadyBefore(log, n), Earliest(c, log[n])) + TransmitOf(c, log[n])
         else Earliest(c, log[n])
  }

  // ---------- the invariant ----------

  /** The copies that are no longer held. */
  function Settled(s: Core): seq<Copy> {
    if s.held.Some? && s.copies != [] then s.copies[..|s.copies| - 1] else s.copies
  }

  ghost predicate Accounted(c: Config, s: Core) {
    && (forall i :: 0 <= i < |s.copies| ==> s.copies[i].id == i)
    && (s.held.Some? ==> s.copies != [] && s.held.value.copy == s.copies[|s.copies| - 1])
    && Woven(Order(s.log), Settled(s), s.tally.swaps)
    && s.tally.reorders == s.tally.swaps + s.tally.expiries + s.tally.flushes + (if s.held.Some? then 1 else 0)
    && Shaped(c, s.log)
    && (c.bandwidth > 0 ==> s.ready == ReadyBefore(s.log, |s.log|))
  }

  lemma ScheduleShaped(c: Config, t: Tape, s: Core, base: Time, copy: Copy)
    requires Shaped(c, s.log) && (c.bandwidth > 0 ==> s.ready == ReadyBefore(s.log, |s.log|))
    ensures var s' := Schedule(c, t, s, base, copy);
      && Shaped(c, s'.log)
      && (c.bandwidth > 0 ==> s'.ready == ReadyBefore(s'.log, |s'.log|))
      && Order(s'.log) == Order(s.log) + [copy]
  {
    hide Transmit;
    var log := Schedule(c, t, s, base, copy).log;
    forall n | 0 <= n < |log| ensures ReadyBefore(log, n) == ReadyBefore(s.log, n) {
    }
  }

  /** Scheduling the held copy, whatever the reason and the time. */
  lemma ResolveAccounted(c: Config, t: Tape, s: Core, base: Time, tally: Tally)
    requires Accounted(c, s) && s.held.Some?
    requires tally.swaps == s.tally.swaps && tally.reorders == s.tally.reorders
    requires tally.expiries + tally.flushes == s.tally.expiries + s.tally.flushes + 1
    ensures Accounted(c, Schedule(c, t, s.(held := None, tally := tally), base, s.held.value.copy))
  {
    hide Schedule, Woven, Shaped;
    var copy := s.held.value.copy;
    WovenAppend(Order(s.log), Settled(s), s.tally.swaps, copy);
    assert s.copies == Settled(s) + [copy];
    ScheduleShaped(c, t, s.(held := None, tally := tally), base, copy);
    ScheduleFrame(c, t, s.(held := None, tally := tally), base, copy);
  }

  lemma ExpireAccounted(c: Config, t: Tape, s: Core, now: Time)
    requires Accounted(c, s)
    ensures Accounted(c, Expire(c, t, s, now)) && Accounted(c, FlushHeld(c, t, s, now))
  {
    hide Schedule, Accounted;
    if s.held.Some? {
      ResolveAccounted(c, t, s, s.held.value.releaseAt, s.tally.(expiries := s.tally.expiries + 1));
      ResolveAccounted(c, t, s, now, s.tally.(flushes := s.tally.flushes + 1));
    }
  }

  /** The swap: the new copy is scheduled before the held one. */
  lemma SwapAccounted(c: Config, t: Tape, s: Core, now: Time, data: Bytes)
    requires Accounted(c, s) && s.held.Some?
    ensures Accounted(c, Admit(c, t, s, now, data))
  {
    hide Transmit, JitterDraw, Roll, Schedule, Woven, Shaped;
    var copy := Copy(|s.copies|, Arrival(now, data));
    var h := s.held.value.copy;
    var k := s.tally.swaps;
    WovenSwap(Order(s.log), Settled(s), k, h, copy);
    assert s.copies + [copy] == Settled(s) + [h, copy];
    var s2 := s.(copies := s.copies + [copy], held := None, tally := s.tally.(swaps := k + 1));
    ScheduleShaped(c, t, s2, now, copy);
    ScheduleFrame(c, t, s2, now, copy);
    var s3 := Schedule(c, t, s2, now, copy);
    ScheduleShaped(c, t, s3, now, h);
    ScheduleFrame(c, t, s3, now, h);
    assert Order(s.log) + [copy] + [h] == Order(s.log) + [copy, h];
    assert Admit(c, t, s, now, data) == Schedule(c, t, s3, now, h);
  }

  lemma AdmitAccounted(c: Config, t: Tape, s: Core, now: Time, data: Bytes)
    requires Accounted(c, s)
    ensures Accounted(c, Admit(c, t, s, now, data))
  {
    hide Transmit, JitterDraw, Roll, Schedule, Woven, Shaped;
    var copy := Copy(|s.copies|, Arrival(now, data));
    var (reorder, pos) := Roll(t, s.pos, c.reorderProb);
    if s.held.Some? {
      SwapAccounted(c, t, s, now, data);
    } else if reorder {
      assert (s.copies + [copy])[..|s.copies|] == s.copies;
    } else {
      var s1 := s.(copies := s.copies + [copy], pos := pos);
      WovenAppend(Order(s.log), s.copies, s.tally.swaps, copy);
      ScheduleShaped(c, t, s1, now, copy);
      ScheduleFrame(c, t, s1, now, copy);
    }
  }

  lemma {:induction false} AdmitAllAccounted(c: Config, t: Tape, s: Core, now: Time, data: Bytes, n: nat)
    requires Accounted(c, s)
    ensures Accounted(c, AdmitAll(c, t, s, now, data, n))
  {
    hide Admit, Accounted;
    if n > 0 {
      AdmitAllAccounted(c, t, s, now, data, n - 1);
      AdmitAccounted(c, t, AdmitAll(c, t, s, now, data, n - 1), now, data);
    }
  }

  lemma EnqueueAccounted(c: Config, t: Tape, s: Core, now: Time, data: Bytes)
    requires Accounted(c, s)
    ensures Accounted(c, Enqueue(c, t, s, now, data))
  {
    hide Expire, AdmitAll, Decide, Accounted;
    ExpireAccounted(c, t, s, now);
    var (s1, n) := Decide(c, t, Expire(c, t, s, now));
    DecideAccounted(c, t, Expire(c, t, s, now));
    AdmitAllAccounted(c, t, s1, now, data, n);
  }

  lemma DecideAccounted(c: Config, t: Tape, s: Core)
    requires Accounted(c, s)
    ensures Accounted(c, Decide(c, t, s).0)
  {
    hide Roll, Woven, Shaped, Order;
    assert Settled(Decide(c, t, s).0) == Settled(s);
  }

  lemma {:induction false} RunAccounted(c: Config, t: Tape, es: seq<Event>)
    ensures Accounted(c, Run(c, t, es).core)
  {
    if es != [] {
      var s, e := Run(c, t, es[..|es| - 1]), es[|es| - 1];
      RunAccounted(c, t, es[..|es| - 1]);
      match e
      case Enqueued(now, data) => EnqueueAccounted(c, t, s.core, now, data);
      case Polled(now) => ExpireAccounted(c, t, s.core, now);
      case Flushed(now) => ExpireAccounted(c, t, s.core, now);
    }
  }

  // ---------- fates of packets ----------

  /** `n` copies of each packet, `n` being its fate. */
  function Multiply(ps: seq<Arrival>, fates: seq<nat>): seq<Arrival>
    requires |ps| == |fates|
  {
    if ps == [] then []
    else Multiply(ps[..|ps| - 1], fates[..|ps| - 1]) + seq(fates[|ps| - 1], _ => ps[|ps| - 1])
  }

  function CountOf(fates: seq<nat>, f: nat): nat {
    if fates == [] then 0
    else CountOf(fates[..|fates| - 1], f) + (if fates[|fates| - 1] == f then 1 else 0)
  }

  function Packets(copies: seq<Copy>): (r: seq<Arrival>)
    ensures |r| == |copies|
  {
    seq(|copies|, i requires 0 <= i < |copies| => copies[i].packet)
  }

  /** Each packet was dropped, taken once or taken twice, and the hooks counted that. */
  ghost predicate Fated(s: Core, ps: seq<Arrival>) {
    && |s.fates| == |ps|
    && (forall f :: f in s.fates ==> f <= 2)
    && Packets(s.copies) == Multiply(ps, s.fates)
    && s.tally.drops == CountOf(s.fates, 0)
    && s.tally.duplicates == CountOf(s.fates, 2)
  }

  lemma AdmitCopies(c: Config, t: Tape, s: Core, now: Time, data: Bytes)
    ensures var s' := Admit(c, t, s, now, data);
      && s'.copies == s.copies + [Copy(|s.copies|, Arrival(now, data))]
      && s'.fates == s.fates
      && s'.tally.drops == s.tally.drops && s'.tally.duplicates == s.tally.duplicates
  {
    hide Transmit, JitterDraw, Roll;
  }

  lemma {:induction false} AdmitAllCopies(c: Config, t: Tape, s: Core, now: Time, data: Bytes, n: nat)
    ensures var s' := AdmitAll(c, t, s, now, data, n);
      && Packets(s'.copies) == Packets(s.copies) + seq(n, _ => Arrival(now, data))
      && s'.fates == s.fates
      && s'.tally.drops == s.tally.drops && s'.tally.duplicates == s.tally.duplicates
  {
    hide Admit;
    if n > 0 {
      AdmitAllCopies(c, t, s, now, data, n - 1);
      var s1 := AdmitAll(c, t, s, now, data, n - 1);
      AdmitCopies(c, t, s1, now, data);
      assert Packets(s1.copies + [Copy(|s1.copies|, Arrival(now, data))]) == Packets(s1.copies) + [Arrival(now, data)];
      assert seq(n, _ => Arrival(now, data)) == seq(n - 1, _ => Arrival(now, data)) + [Arrival(now, data)];
    }
  }

  lemma ExpireCopies(c: Config, t: Tape, s: Core, now: Time)
    ensures var s' := Expire(c, t, s, now);
      && s'.copies == s.copies && s'.fates == s.fates
      && s'.tally.drops == s.tally.drops && s'.tally.duplicates == s.tally.duplicates
  {
    hide Transmit, JitterDraw;
  }

  lemma EnqueueFated(c: Config, t: Tape, s: Core, ps: seq<Arrival>, now: Time, data: Bytes)
    requires Fated(s, ps)
    ensures Fated(Enqueue(c, t, s, now, data), ps + [Arrival(now, data)])
  {
    hide Roll, AdmitAll, Expire;
    var s0 := Expire(c, t, s, now);
    ExpireCopies(c, t, s, now);
    var (s1, n) := Decide(c, t, s0);
    AdmitAllCopies(c, t, s1, now, data, n);
    var ps' := ps + [Arrival(now, data)];
    assert ps'[..|ps|] == ps && s1.fates[..|ps|] == s.fates && s1.fates[|ps|] == n;
    assert Multiply(ps', s1.fates) == Multiply(ps, s.fates) + seq(n, _ => Arrival(now, data));
  }

  lemma {:induction false} RunFated(c: Config, t: Tape, es: seq<Event>)
    ensures Fated(Run(c, t, es).core, Arrivals(es))
  {
    if es != [] {
      var s, e := Run(c, t, es[..|es| - 1]), es[|es| - 1];
      RunFated(c, t, es[..|es| - 1]);
      if e.Enqueued? {
        EnqueueFated(c, t, s.core, Arrivals(es[..|es| - 1]), e.now, e.data);
      }
      assert Arrivals(es[..|es| - 1]) + [] == Arrivals(es[..|es| - 1]);
    }
  }

  // ---------- the queue holds what is scheduled and not released ----------

  ghost predicate Queued(s: State) {
    && multiset(s.out + s.queue) == multiset(Items(s.core.log, 0))
    && Sorted(s.queue)
  }

  lemma ItemsSplit(log: seq<Entry>, log': seq<Entry>)
    requires log <= log'
    ensures Items(log', 0) == Items(log, 0) + Items(log', |log|)
  {
  }

  lemma {:induction false} InsertItemsSorted(q: seq<Item>, xs: seq<Item>)
    requires Sorted(q)
    requires forall i, j :: 0 <= i < j < |xs| ==> xs[i].seqNo != xs[j].seqNo
    requires forall y, x :: y in q && x in xs ==> y.seqNo != x.seqNo
    ensures Sorted(InsertAll(q, xs))
  {
    if xs != [] {
      var init, last := xs[..|xs| - 1], xs[|xs| - 1];
      InsertItemsSorted(q, init);
      InsertAllMultiset(q, init);
      forall y | y in InsertAll(q, init) ensures y.seqNo != last.seqNo {
        assert y in multiset(InsertAll(q, init));
        assert y in q || y in init;
        assert last in xs;
      }
      InsertSorted(InsertAll(q, init), last);
    }
  }

  lemma AbsorbQueued(s: State, core: Core)
    requires Queued(s) && s.core.log <= core.log
    ensures Queued(Absorb(s, core))
  {
    var old', new' := Items(s.core.log, 0), Items(core.log, |s.core.log|);
    ItemsSplit(s.core.log, core.log);
    InsertAllMultiset(s.queue, new');
    forall y | y in s.queue ensures y.seqNo < |s.core.log| {
      assert y in s.out + s.queue;
      assert y in multiset(old');
      assert y in old';
    }
    InsertItemsSorted(s.queue, new');
  }

  lemma ReleaseQueued(s: State, now: Time)
    requires Queued(s)
    ensures Queued(Release(s, now)) && Release(s, now).out + Release(s, now).queue == s.out + s.queue
  {
    hide Sorted, ReadyCount;
    var k := ReadyCount(s.queue, now);
    assert s.queue == s.queue[..k] + s.queue[k..];
    var r := Release(s, now);
    assert r.out + r.queue == s.out + s.queue;
    SuffixSorted(s.queue, k);
  }

  lemma SuffixSorted(q: seq<Item>, k: nat)
    requires Sorted(q) && k <= |q|
    ensures Sorted(q[k..])
  {
    hide Before;
    forall i, j | 0 <= i < j < |q[k..]| ensures Before(q[k..][i], q[k..][j]) {
      assert Before(q[k + i], q[k + j]);
    }
  }

  lemma {:induction false} RunQueued(c: Config, t: Tape, es: seq<Event>)
    ensures Queued(Run(c, t, es))
  {
    if es == [] {
      assert Items([], 0) == [];
    } else {
      var s, e := Run(c, t, es[..|es| - 1]), es[|es| - 1];
      RunQueued(c, t, es[..|es| - 1]);
      StepGrows(c, t, s, e);
      match e
      case Enqueued(now, data) => AbsorbQueued(s, Enqueue(c, t, s.core, now, data));
      case Polled(now) =>
        AbsorbQueued(s, Expire(c, t, s.core, now));
        ReleaseQueued(Absorb(s, Expire(c, t, s.core, now)), now);
      case Flushed(now) => AbsorbQueued(s, FlushHeld(c, t, s.core, now));
    }
  }

  lemma StepGrows(c: Config, t: Tape, s: State, e: Event)
    ensures s.core.log <= Step(c, t, s, e).core.log
  {
    if e.Enqueued? {
      var (s1, n) := Decide(c, t, Expire(c, t, s.core, e.now));
      LogGrows(c, t, s1, e.now, e.data, n);
    }
  }

  /** Later events only add to the schedule. */
  lemma {:induction false} RunGrows(c: Config, t: Tape, es: seq<Event>, fs: seq<Event>)
    ensures Run(c, t, es).core.log <= Run(c, t, es + fs).core.log
  {
    hide Step;
    if fs == [] {
      assert es + fs == es;
    } else {
      var n := |fs| - 1;
      assert es + fs == (es + fs[..n]) + [fs[n]];
      RunGrows(c, t, es, fs[..n]);
      RunAppend(c, t, es + fs[..n], fs[n]);
      StepGrows(c, t, Run(c, t, es + fs[..n]), fs[n]);
    }
  }
}
