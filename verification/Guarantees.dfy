/** The promises of an impairment profile, on whole runs: conservation, bounded reordering,
    delay bounds, the bandwidth cap. */
module Guarantees {
  import opened Common
  import opened PacketOrder
  import opened ImpairSpec
  import opened PipelineHistory
  import opened ReleaseOrder

  // ---------- conservation ----------

  function HeldCopies(s: Core): seq<Copy> {
    if s.held.Some? then [s.held.value.copy] else []
  }

  /** The copy that a scheduled item carries. */
  function CopyOf(log: seq<Entry>, y: Item): Copy {
    if y.seqNo < |log| then log[y.seqNo].copy else Copy(0, Arrival(0, []))
  }

  function CopiesOf(log: seq<Entry>, q: seq<Item>): seq<Copy> { MapSeq((y: Item) => CopyOf(log, y), q) }

  const ItemData := (i: Item) => i.data

  lemma QueuedCopies(s: State)
    requires Queued(s)
    ensures multiset(CopiesOf(s.core.log, s.out)) + multiset(CopiesOf(s.core.log, s.queue)) == multiset(Order(s.core.log))
    ensures forall y :: y in s.out + s.queue ==>
      y.seqNo < |s.core.log| && y.data == s.core.log[y.seqNo].copy.packet.data && y.releaseAt == s.core.log[y.seqNo].releaseAt
  {
    var log, f := s.core.log, (y: Item) => CopyOf(s.core.log, y);
    MapMultiset(f, s.out + s.queue, Items(log, 0));
    MapConcat(f, s.out, s.queue);
    assert MapSeq(f, Items(log, 0)) == Order(log);
    forall y | y in s.out + s.queue ensures y in Items(log, 0) {
      assert y in multiset(s.out + s.queue);
    }
  }

  lemma ScheduledCopies(c: Config, s: Core)
    requires Accounted(c, s)
    ensures multiset(Order(s.log)) + multiset(HeldCopies(s)) == multiset(s.copies)
    ensures forall i, j :: 0 <= i < j < |s.copies| ==> s.copies[i] != s.copies[j]
  {
    hide Woven, Shaped;
    WovenKeeps(Order(s.log), Settled(s), s.tally.swaps);
    assert s.copies == Settled(s) + HeldCopies(s);
  }

  /** Conservation, copy by copy: the copies released, queued and held are together exactly the copies
      taken in, no two of which are the same, and what comes out carries its copy's payload; the
      copies taken in are the packets that were not dropped, twice for those duplicated; and the
      hooks counted drops, duplicates and holds. */
  lemma Conservation(c: Config, t: Tape, es: seq<Event>)
    ensures var s := Run(c, t, es); var x := s.core;
      && multiset(CopiesOf(x.log, s.out)) + multiset(CopiesOf(x.log, s.queue)) + multiset(HeldCopies(x)) == multiset(x.copies)
      && (forall i, j :: 0 <= i < j < |x.copies| ==> x.copies[i] != x.copies[j])
      && (forall y :: y in s.out + s.queue ==> y.seqNo < |x.log| && y.data == CopyOf(x.log, y).packet.data)
      && |x.fates| == |Arrivals(es)| && (forall f :: f in x.fates ==> f <= 2)
      && Packets(x.copies) == Multiply(Arrivals(es), x.fates)
      && x.tally.drops == CountOf(x.fates, 0) && x.tally.duplicates == CountOf(x.fates, 2)
      && x.tally.reorders == x.tally.swaps + x.tally.expiries + x.tally.flushes + |HeldCopies(x)|
  {
    hide Run, Woven, Shaped, Multiply, CopiesOf, Queued, Order;
    RunAccounted(c, t, es);
    RunFated(c, t, es);
    RunQueued(c, t, es);
    QueuedCopies(Run(c, t, es));
    ScheduledCopies(c, Run(c, t, es).core);
  }

  // ---------- schedule order and release order ----------

  lemma SortOfSorted(xs: seq<Item>)
    requires Sorted(xs) && forall i, j :: 0 <= i < j < |xs| ==> xs[i].seqNo != xs[j].seqNo
    ensures Sort(xs) == xs
  {
    InsertAllMultiset([], xs);
    InsertItemsSorted([], xs);
    SortedUnique(Sort(xs), xs);
  }

  lemma SplitSorted(p: seq<Item>, q: seq<Item>)
    requires Sorted(p + q)
    ensures Sorted(q) && forall y, x :: y in p && x in q ==> Before(y, x)
  {
    var all := p + q;
    forall y, x | y in p && x in q ensures Before(y, x) {
      var i :| 0 <= i < |p| && p[i] == y;
      var j :| 0 <= j < |q| && q[j] == x;
      assert all[i] == y && all[|p| + j] == x;
    }
    forall i, j | 0 <= i < j < |q| ensures Before(q[i], q[j]) {
      assert all[|p| + i] == q[i] && all[|p| + j] == q[j];
    }
  }

  lemma AbsorbFifo(s: State, core: Core)
    requires s.out + s.queue == Items(s.core.log, 0) && s.core.log <= core.log && Sorted(Items(core.log, 0))
    ensures Absorb(s, core).out + Absorb(s, core).queue == Items(core.log, 0)
  {
    hide Sort, Sorted;
    var new' := Items(core.log, |s.core.log|);
    ItemsSplit(s.core.log, core.log);
    SplitSorted(Items(s.core.log, 0), new');
    assert forall y :: y in s.queue ==> y in s.out + s.queue;
    InsertAllBehind(s.queue, [], new');
    assert s.queue + [] == s.queue;
    SortOfSorted(new');
    SortIsInsertAll(new');
    assert s.out + (s.queue + new') == (s.out + s.queue) + new';
  }

  lemma SortIsInsertAll(xs: seq<Item>)
    ensures Sort(xs) == InsertAll([], xs)
  {
  }

  lemma ReleaseKeepsLine(s: State, now: Time)
    ensures Release(s, now).out + Release(s, now).queue == s.out + s.queue
  {
    var k := ReadyCount(s.queue, now);
    hide ReadyCount;
    assert s.queue == s.queue[..k] + s.queue[k..];
  }

  /** When release times never decrease along the schedule, the queue is a plain FIFO. */
  lemma {:induction false} Fifo(c: Config, t: Tape, es: seq<Event>)
    requires Sorted(Items(Run(c, t, es).core.log, 0))
    ensures Run(c, t, es).out + Run(c, t, es).queue == Items(Run(c, t, es).core.log, 0)
  {
    hide Enqueue, Expire, FlushHeld, Sorted, Absorb, Release;
    if es != [] {
      var s, e := Run(c, t, es[..|es| - 1]), es[|es| - 1];
      var core := Run(c, t, es).core;
      StepGrows(c, t, s, e);
      PrefixSorted(s.core.log, core.log);
      Fifo(c, t, es[..|es| - 1]);
      StepLine(c, t, s, e);
      AbsorbFifo(s, core);
    }
  }

  /** A step is one `Absorb`, and polls move items from the queue to the output only. */
  lemma StepLine(c: Config, t: Tape, s: State, e: Event)
    ensures var s' := Step(c, t, s, e);
      && |s.core.log| <= |s'.core.log|
      && s'.out + s'.queue == Absorb(s, s'.core).out + Absorb(s, s'.core).queue
  {
    hide Expire, AdmitAll, FlushHeld, InsertAll;
    StepGrows(c, t, s, e);
    if e.Polled? {
      ReleaseKeepsLine(Absorb(s, Expire(c, t, s.core, e.now)), e.now);
    }
  }

  lemma PrefixSorted(log: seq<Entry>, log': seq<Entry>)
    requires log <= log' && Sorted(Items(log', 0))
    ensures Sorted(Items(log, 0))
  {
    ItemsSplit(log, log');
    var all := Items(log', 0);
    forall i, j | 0 <= i < j < |log| ensures Before(Items(log, 0)[i], Items(log, 0)[j]) {
      assert Items(log, 0)[i] == all[i] && Items(log, 0)[j] == all[j];
    }
  }

  /** The link is capped, or there is no jitter and the clock runs forward. */
  ghost predicate KeepsOrder(c: Config, es: seq<Event>) {
    if c.bandwidth > 0 then AllFit(c, es) else c.jitter <= 0 && ClockRuns(es)
  }

  lemma {:induction false} CappedRises(c: Config, t: Tape, es: seq<Event>, i: nat, j: nat)
    requires c.bandwidth > 0 && AllFit(c, es) && i <= j < |Run(c, t, es).core.log|
    ensures Run(c, t, es).core.log[i].releaseAt <= Run(c, t, es).core.log[j].releaseAt
  {
    hide Run, Transmit;
    if i < j {
      CappedRises(c, t, es, i, j - 1);
      RunAccounted(c, t, es);
      LogFits(c, t, es, j);
      TransmitIsCeiling(|Run(c, t, es).core.log[j].copy.packet.data|, c.bandwidth);
    }
  }

  lemma ReleaseTimesRise(c: Config, t: Tape, es: seq<Event>)
    requires KeepsOrder(c, es)
    ensures Sorted(Items(Run(c, t, es).core.log, 0))
  {
    hide Run, Transmit;
    var log := Run(c, t, es).core.log;
    if c.bandwidth <= 0 {
      RunAccounted(c, t, es);
      RunTimedToEnd(c, t, es, false);
    }
    forall i, j | 0 <= i < j < |log| ensures log[i].releaseAt <= log[j].releaseAt {
      if c.bandwidth > 0 { CappedRises(c, t, es, i, j); }
    }
  }

  /** Bounded reordering: what comes out is a prefix of the schedule order, which is the arrival
      order with disjoint neighbours swapped, one swap for each hold that a follower resolved. */
  lemma BoundedReordering(c: Config, t: Tape, es: seq<Event>)
    requires KeepsOrder(c, es)
    ensures var s := Run(c, t, es);
      && s.out <= Items(s.core.log, 0)
      && Woven(Order(s.core.log), Settled(s.core), s.core.tally.swaps)
      && forall k :: 0 <= k < |s.out| ==> k - 1 <= s.core.log[s.out[k].seqNo].copy.id <= k + 1
  {
    hide Run, Woven, Shaped;
    var s := Run(c, t, es);
    ReleaseTimesRise(c, t, es);
    Fifo(c, t, es);
    RunAccounted(c, t, es);
    WovenIsNear(Order(s.core.log), Settled(s.core), s.core.tally.swaps);
    assert s.out == (s.out + s.queue)[..|s.out|];
    forall k | 0 <= k < |s.out| ensures k - 1 <= s.core.log[s.out[k].seqNo].copy.id <= k + 1 {
      assert s.out[k] == Items(s.core.log, 0)[k];
      assert Near(Order(s.core.log), Settled(s.core), k);
    }
  }

  // ---------- delay bounds ----------

  /** However rarely it is polled, a pipeline delays each copy by at least the latency, and the
      transmit time under a cap; and an uncapped one whose flushes are prompt by at most the latency,
      the jitter bound and one reorder hold. */
  lemma DelayBounds(c: Config, t: Tape, es: seq<Event>, i: nat)
    requires ClockRuns(es) && AllFit(c, es) && i < |Run(c, t, es).core.log|
    ensures var e := Run(c, t, es).core.log[i]; var at := e.copy.packet.at;
      var latency, jitter := if c.latency > 0 then c.latency else 0, if c.jitter > 0 then c.jitter else 0;
      var hold := if c.reorderHold > 0 then c.reorderHold else 3_000_000;
      && at + latency + (if c.bandwidth > 0 then Transmit(|e.copy.packet.data|, c.bandwidth) else 0) <= e.releaseAt
      && (c.bandwidth <= 0 && Prompt(c, t, es) ==> e.releaseAt <= at + hold + latency + jitter)
  {
    hide Run, Transmit, Prompt, Woven;
    RunTimedToEnd(c, t, es, false);
    RunAccounted(c, t, es);
    ReleaseNotBeforeBase(c, t, es, i);
    assert Punctual(c, Run(c, t, es).core.log[i], false);
    if Prompt(c, t, es) { WithinHoldIff(c, t, es); }
  }

  /** Without a cap, every copy leaves within hold, latency and its own jitter after it arrived if and
      only if every flush is prompt. */
  lemma DelayWithinIff(c: Config, t: Tape, es: seq<Event>)
    requires ClockRuns(es) && c.bandwidth <= 0
    ensures var log := Run(c, t, es).core.log;
      var latency, hold := if c.latency > 0 then c.latency else 0, if c.reorderHold > 0 then c.reorderHold else 3_000_000;
      (forall i :: 0 <= i < |log| ==> log[i].releaseAt <= log[i].copy.packet.at + hold + latency + log[i].jitter)
      <==> Prompt(c, t, es)
  {
    hide Run, Prompt, Woven;
    var log := Run(c, t, es).core.log;
    RunAccounted(c, t, es);
    WithinHoldIff(c, t, es);
    assert forall i :: 0 <= i < |log| ==> log[i].releaseAt == log[i].base + c.Latency() + log[i].jitter;
  }

  // ---------- the shaper ----------

  /** Transmit times of entries `i` up to but not including `j`. */
  function SumTransmit(c: Config, log: seq<Entry>, i: nat, j: nat): int
    requires i <= j <= |log|
    decreases j
  {
    if i == j then 0 else SumTransmit(c, log, i, j - 1) + TransmitOf(c, log[j - 1])
  }

  function SumBytes(log: seq<Entry>, i: nat, j: nat): nat
    requires i <= j <= |log|
    decreases j
  {
    if i == j then 0 else SumBytes(log, i, j - 1) + |log[j - 1].copy.packet.data|
  }

  /** When entry `n` would leave if the link had been busy since entry `i` became ready. */
  function BusySince(c: Config, log: seq<Entry>, i: nat, n: nat): Time
    requires i <= n < |log|
  {
    Earliest(c, log[i]) + SumTransmit(c, log, i, n + 1)
  }

  /** The shaper is a single server: entry `n` leaves at the latest of the times `BusySince`. */
  lemma {:induction false} ShaperIsSingleServer(c: Config, log: seq<Entry>, n: nat) returns (start: nat)
    requires Shaped(c, log) && c.bandwidth > 0 && n < |log| && 0 <= Earliest(c, log[0])
    ensures forall i :: 0 <= i <= n ==> BusySince(c, log, i, n) <= log[n].releaseAt
    ensures start <= n && log[n].releaseAt == BusySince(c, log, start, n)
  {
    hide Transmit;
    assert BusySince(c, log, n, n) == Earliest(c, log[n]) + TransmitOf(c, log[n]) by {
      assert SumTransmit(c, log, n, n) == 0;
    }
    start := n;
    if n > 0 {
      var before := ShaperIsSingleServer(c, log, n - 1);
      assert ReadyBefore(log, n) == log[n - 1].releaseAt;
      if log[n - 1].releaseAt > Earliest(c, log[n]) { start := before; }
      forall i | 0 <= i <= n - 1
        ensures BusySince(c, log, i, n) == BusySince(c, log, i, n - 1) + TransmitOf(c, log[n]) {
      }
    }
  }

  /** The sum of transmit times covers the bytes and exceeds them by under 1 ns of cap per packet. */
  lemma {:induction false} TransmitCovers(c: Config, log: seq<Entry>, i: nat, j: nat)
    requires c.bandwidth > 0 && i <= j <= |log|
    requires forall k :: 0 <= k < |log| ==> Fits(|log[k].copy.packet.data|, c.bandwidth)
    ensures SumBytes(log, i, j) * SECOND <= SumTransmit(c, log, i, j) * c.bandwidth
    ensures SumTransmit(c, log, i, j) * c.bandwidth <= SumBytes(log, i, j) * SECOND + (j - i) * (c.bandwidth - 1)
    decreases j
  {
    hide Transmit;
    if i < j {
      TransmitCovers(c, log, i, j - 1);
      var size, tx := |log[j - 1].copy.packet.data|, TransmitOf(c, log[j - 1]);
      TransmitIsCeiling(size, c.bandwidth);
      NothingToTransmit(c.bandwidth);
      Distribute(SumTransmit(c, log, i, j - 1), tx, c.bandwidth);
      Distribute(j - 1 - i, 1, c.bandwidth - 1);
    }
  }

  lemma NothingToTransmit(bandwidth: int)
    ensures Transmit(0, bandwidth) == 0
  {
  }

  lemma Distribute(a: int, b: int, x: int)
    ensures (a + b) * x == a * x + b * x
  {
  }

  /** Between any two packets in schedule order there is time for the bytes between them. */
  lemma {:induction false} GapCoversTransmit(c: Config, log: seq<Entry>, i: nat, j: nat)
    requires Shaped(c, log) && c.bandwidth > 0 && i <= j < |log|
    ensures log[j].releaseAt - log[i].releaseAt >= SumTransmit(c, log, i + 1, j + 1)
    decreases j
  {
    hide Transmit;
    if i < j {
      GapCoversTransmit(c, log, i, j - 1);
    }
  }

  // ---------- the cap on whole runs ----------

  /** Nothing is scheduled with a time before the first instant of the run. */
  lemma {:induction false} RunFrom(c: Config, t: Tape, es: seq<Event>, lo: Time)
    requires forall e :: e in es ==> lo <= e.now
    ensures From(Run(c, t, es).core.log, 0, lo) && NotDue(Run(c, t, es).core, lo)
  {
    hide Step;
    if es != [] {
      var s, e := Run(c, t, es[..|es| - 1]), es[|es| - 1];
      assert e in es;
      RunFrom(c, t, es[..|es| - 1], lo);
      StepFrom(c, t, s, e, lo);
      StepGrows(c, t, s, e);
    }
  }

  /** With times that are not before the zero time, the n-th release time of a capped pipeline is
      the maximum over i <= n of base + latency + jitter of i and the transmit times from i to n. */
  lemma ShaperRefinesSingleServer(c: Config, t: Tape, es: seq<Event>, n: nat)
    requires c.bandwidth > 0 && n < |Run(c, t, es).core.log| && forall e :: e in es ==> 0 <= e.now
    ensures var log := Run(c, t, es).core.log;
      && (forall i :: 0 <= i <= n ==> BusySince(c, log, i, n) <= log[n].releaseAt)
      && exists i :: 0 <= i <= n && log[n].releaseAt == BusySince(c, log, i, n)
  {
    hide Run, BusySince;
    RunFrom(c, t, es, 0);
    RunAccounted(c, t, es);
    var start := ShaperIsSingleServer(c, Run(c, t, es).core.log, n);
  }

  lemma {:induction false} OutDue(c: Config, t: Tape, es: seq<Event>, now: Time)
    requires forall e :: e in es && e.Polled? ==> e.now <= now
    ensures forall y :: y in Run(c, t, es).out ==> y.releaseAt <= now
  {
    hide Absorb, Expire, Enqueue, FlushHeld;
    if es != [] {
      var es', e := es[..|es| - 1], es[|es| - 1];
      assert e in es;
      OutDue(c, t, es', now);
      var s := Run(c, t, es');
      StepOut(c, t, s, e);
    }
  }

  lemma StepOut(c: Config, t: Tape, s: State, e: Event)
    ensures !e.Polled? ==> Step(c, t, s, e).out == s.out
    ensures forall y :: y in Step(c, t, s, e).out ==> y in s.out || (e.Polled? && y.releaseAt <= e.now)
  {
    hide Expire, AdmitAll, FlushHeld, InsertAll;
  }

  function ItemBytes(q: seq<Item>): nat {
    if q == [] then 0 else ItemBytes(q[..|q| - 1]) + |q[|q| - 1].data|
  }

  lemma {:induction false} PrefixBytes(log: seq<Entry>, n: nat)
    requires n <= |log|
    ensures ItemBytes(Items(log, 0)[..n]) == SumBytes(log, 0, n)
  {
    if n > 0 {
      PrefixBytes(log, n - 1);
      assert Items(log, 0)[..n][..n - 1] == Items(log, 0)[..n - 1];
    }
  }

  lemma ScaleBytes(bytes: int, transmit: int, gap: int, cap: int)
    requires cap > 0 && bytes * SECOND <= transmit * cap && transmit <= gap
    ensures bytes * SECOND <= gap * cap
  {
    assert transmit * cap <= gap * cap;
  }

  /** Between any two packets in schedule order the release times leave room for the bytes of the
      later ones at the cap. */
  lemma GapCoversBytes(c: Config, t: Tape, es: seq<Event>, i: nat, j: nat)
    requires c.bandwidth > 0 && AllFit(c, es) && i <= j < |Run(c, t, es).core.log|
    ensures var log := Run(c, t, es).core.log;
      SumBytes(log, i + 1, j + 1) * SECOND <= (log[j].releaseAt - log[i].releaseAt) * c.bandwidth
  {
    hide Run, Transmit, SumBytes, SumTransmit, Fits, Shaped, Woven;
    var log := Run(c, t, es).core.log;
    assert SumBytes(log, i + 1, j + 1) * SECOND <= SumTransmit(c, log, i + 1, j + 1) * c.bandwidth by {
      forall k | 0 <= k < |log| ensures Fits(|log[k].copy.packet.data|, c.bandwidth) {
        LogFits(c, t, es, k);
      }
      TransmitCovers(c, log, i + 1, j + 1);
    }
    RunAccounted(c, t, es);
    GapCoversTransmit(c, log, i, j);
    ScaleBytes(SumBytes(log, i + 1, j + 1), SumTransmit(c, log, i + 1, j + 1), log[j].releaseAt - log[i].releaseAt, c.bandwidth);
  }

  /** Throughput: the bytes that polls up to `now` have returned fit the cap from the first
      scheduling time on, whatever order the clock took. */
  lemma ThroughputCap(c: Config, t: Tape, es: seq<Event>, now: Time)
    requires c.bandwidth > 0 && AllFit(c, es) && forall e :: e in es && e.Polled? ==> e.now <= now
    ensures var s := Run(c, t, es);
      s.out != [] ==>
        s.core.log != [] && ItemBytes(s.out) * SECOND <= (now - s.core.log[0].base - c.Latency()) * c.bandwidth
  {
    hide Run, Transmit, SumBytes, SumTransmit, ItemBytes, Sorted, Fits, Woven, Shaped;
    var s := Run(c, t, es);
    var log, n := s.core.log, |s.out|;
    if n > 0 {
      ReleaseTimesRise(c, t, es);
      Fifo(c, t, es);
      assert s.out == (s.out + s.queue)[..n];
      PrefixBytes(log, n);
      OutDue(c, t, es, now);
      assert s.out[n - 1].releaseAt == log[n - 1].releaseAt;
      RunAccounted(c, t, es);
      forall k | 0 <= k < |log| ensures Fits(|log[k].copy.packet.data|, c.bandwidth) {
        LogFits(c, t, es, k);
      }
      TransmitCovers(c, log, 0, n);
      FirstBusy(c, log, n);
      ScaleBytes(SumBytes(log, 0, n), SumTransmit(c, log, 0, n), now - log[0].base - c.Latency(), c.bandwidth);
    }
  }

  lemma {:induction false} FirstBusy(c: Config, log: seq<Entry>, n: nat)
    requires Shaped(c, log) && c.bandwidth > 0 && 0 < n <= |log|
    ensures log[n - 1].releaseAt >= log[0].base + c.Latency() + SumTransmit(c, log, 0, n)
  {
    hide Transmit;
    if n > 1 {
      FirstBusy(c, log, n - 1);
    } else {
      assert SumTransmit(c, log, 0, 0) == 0;
    }
  }

  // ---------- the end of a session ----------

  /** What a flush adds to the queue: the held copy, if there is one. */
  lemma FlushQueues(c: Config, t: Tape, s: State, flush: Time, y: Item)
    ensures var s' := Step(c, t, s, Flushed(flush)); var n := |s.core.log|;
      && s'.core.held.None? && |s'.core.log| == n + (if s.core.held.Some? then 1 else 0)
      && (y in s'.queue <==> y in s.queue || (s.core.held.Some? && y == Items(s'.core.log, 0)[n]))
  {
    hide Transmit, JitterDraw, InsertAll;
    LogGrows(c, t, s.core, flush, [], 0);
    var core, n := FlushHeld(c, t, s.core, flush), |s.core.log|;
    var new' := Items(core.log, n);
    InsertAllMultiset(s.queue, new');
    assert y in InsertAll(s.queue, new') <==> y in multiset(InsertAll(s.queue, new'));
    if s.core.held.Some? { assert new' == [Items(core.log, 0)[n]]; } else { assert new' == []; }
  }

  /** A poll with nothing held keeps exactly what is due later. */
  lemma PollKeepsLater(c: Config, t: Tape, s: State, poll: Time, y: Item)
    requires Sorted(s.queue) && s.core.held.None?
    ensures var s' := Step(c, t, s, Polled(poll));
      s'.core == s.core && (y in s'.queue <==> y in s.queue && y.releaseAt > poll)
  {
    assert Items(s.core.log, |s.core.log|) == [];
    var k := ReadyCount(s.queue, poll);
    ReadyIsDue(s.queue, poll);
    assert s.queue == s.queue[..k] + s.queue[k..];
  }

  /** The proxy's last act on a session: flush, then poll once. Nothing is lost if and only if, before
      that, everything queued is due by the poll, and so is the held copy when it is flushed; and what
      is lost is exactly the part of the schedule with a later release time. */
  lemma ShutdownLoses(c: Config, t: Tape, es: seq<Event>, flush: Time, poll: Time)
    requires ClockRuns(es + [Flushed(flush), Polled(poll)])
    ensures var s0, s := Run(c, t, es), Run(c, t, es + [Flushed(flush), Polled(poll)]);
      && s.core == FlushHeld(c, t, s0.core, flush) && s.core.held.None?
      && |s.core.log| == |s0.core.log| + |HeldCopies(s0.core)|
      && (s.queue == [] <==>
            && (forall y :: y in s0.queue ==> y.releaseAt <= poll)
            && (s0.core.held.Some? ==> s.core.log[|s0.core.log|].releaseAt <= poll))
      && Sorted(s.queue)
      && (forall y :: y in s.queue <==> y in Items(s.core.log, 0) && y.releaseAt > poll)
  {
    hide Run, Step, ClockRuns, Sorted, FlushHeld;
    var s0, s := Run(c, t, es), Run(c, t, es + [Flushed(flush), Polled(poll)]);
    LastStates(c, t, es, flush, poll);
    LastSchedule(c, t, es, flush, poll);
    forall y ensures y in s.queue <==>
      (y in s0.queue || (s0.core.held.Some? && y == Items(s.core.log, 0)[|s0.core.log|])) && y.releaseAt > poll
    {
      LastQueue(c, t, es, flush, poll, y);
    }
    EmptyIff(s.queue);
    if s0.core.held.Some? {
      var last := Items(s.core.log, 0)[|s0.core.log|];
      assert last in s.queue <==> last.releaseAt > poll;
    }
    if forall y :: y in s0.queue ==> y.releaseAt <= poll {
      assert forall y :: y in s.queue ==> y !in s0.queue;
    } else {
      var y :| y in s0.queue && y.releaseAt > poll;
      assert y in s.queue;
    }
  }

  lemma LastStates(c: Config, t: Tape, es: seq<Event>, flush: Time, poll: Time)
    ensures var s0, s1 := Run(c, t, es), Run(c, t, es + [Flushed(flush)]);
      && s1 == Step(c, t, s0, Flushed(flush))
      && Run(c, t, es + [Flushed(flush), Polled(poll)]) == Step(c, t, s1, Polled(poll))
      && s1.core == FlushHeld(c, t, s0.core, flush) && s1.core.held.None?
      && |s1.core.log| == |s0.core.log| + |HeldCopies(s0.core)|
      && Run(c, t, es + [Flushed(flush), Polled(poll)]).core == s1.core
      && Sorted(s1.queue)
  {
    var fs := es + [Flushed(flush), Polled(poll)];
    assert fs[..|fs| - 1] == es + [Flushed(flush)] && (es + [Flushed(flush)])[..|es|] == es;
    var s0, s1 := Run(c, t, es), Run(c, t, es + [Flushed(flush)]);
    RunQueued(c, t, es + [Flushed(flush)]);
    hide FlushHeld;
    FlushQueues(c, t, s0, flush, Item([], 0, 0));
    PollKeepsLater(c, t, s1, poll, Item([], 0, 0));
  }

  lemma LastQueue(c: Config, t: Tape, es: seq<Event>, flush: Time, poll: Time, y: Item)
    ensures var s0, s := Run(c, t, es), Run(c, t, es + [Flushed(flush), Polled(poll)]);
      && |s0.core.log| + |HeldCopies(s0.core)| == |s.core.log|
      && (y in s.queue <==>
            (y in s0.queue || (s0.core.held.Some? && y == Items(s.core.log, 0)[|s0.core.log|])) && y.releaseAt > poll)
  {
    hide Run, Step, Sorted, FlushHeld;
    LastStates(c, t, es, flush, poll);
    FlushQueues(c, t, Run(c, t, es), flush, y);
    PollKeepsLater(c, t, Run(c, t, es + [Flushed(flush)]), poll, y);
  }

  /** What is left after the last poll is the part of the schedule that is due later. */
  lemma LastSchedule(c: Config, t: Tape, es: seq<Event>, flush: Time, poll: Time)
    requires ClockRuns(es + [Flushed(flush), Polled(poll)])
    ensures var s := Run(c, t, es + [Flushed(flush), Polled(poll)]);
      Sorted(s.queue) && forall y :: y in s.queue <==> y in Items(s.core.log, 0) && y.releaseAt > poll
  {
    var fs := es + [Flushed(flush), Polled(poll)];
    var s := Run(c, t, fs);
    assert forall e :: e in fs ==> e.now <= fs[|fs| - 1].now;
    hide Run, ClockRuns;
    RunQueued(c, t, fs);
    OutDue(c, t, fs, poll);
    PolledQueueNotDue(c, t, fs);
    hide Sorted;
    forall y ensures y in s.queue <==> y in Items(s.core.log, 0) && y.releaseAt > poll {
      assert y in s.out + s.queue <==> y in multiset(s.out + s.queue);
      assert y in Items(s.core.log, 0) <==> y in multiset(Items(s.core.log, 0));
    }
  }

  lemma EmptyIff(q: seq<Item>)
    ensures q == [] <==> forall y :: y !in q
  {
    if q != [] { assert q[0] in q; }
  }
}
