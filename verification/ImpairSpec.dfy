/** What an impairment pipeline does, as functions on its state.
    The random generator is an explicit tape, so a run is a function of tape and events. */
module ImpairSpec {
  import opened Common
  import opened PacketOrder

  const SECOND: int := 1_000_000_000
  const DEFAULT_REORDER_HOLD: int := 3_000_000
  const TWO_63: int := 0x8000_0000_0000_0000
  const TWO_64: int := 0x1_0000_0000_0000_0000

  /** `DirectionConfig`; durations in nanoseconds, probabilities as real numbers. */
  datatype Config = Config(
    dropProb: real, dupProb: real, reorderProb: real,
    reorderHold: int, latency: int, jitter: int, bandwidth: int)
  {
    function Hold(): (h: int)
      ensures h > 0
    {
      if reorderHold > 0 then reorderHold else DEFAULT_REORDER_HOLD
    }

    function Latency(): nat { if latency > 0 then latency else 0 }

    function Jitter(): nat { if jitter > 0 then jitter else 0 }
  }

  /** Draw number `n` of the generator, seen as `Float64` or as the source of an `Int63n`. */
  datatype Tape = Tape(unit: nat -> real, die: nat -> nat)

  /** `roll`: the outcome and the tape position behind it. */
  function Roll(t: Tape, pos: nat, prob: real): (bool, nat) {
    if prob <= 0.0 then (false, pos)
    else if prob >= 1.0 then (true, pos)
    else (t.unit(pos) < prob, pos + 1)
  }

  /** The jitter drawn by one `schedule`, between 0 and the configured bound. */
  function JitterDraw(c: Config, t: Tape, pos: nat): (nat, nat) {
    if c.jitter > 0 then (t.die(pos) % (c.jitter + 1), pos + 1) else (0, pos)
  }

  // ---------- transmit time ----------

  /** Two's complement 64-bit reading of an integer. */
  function Wrap64(x: int): (r: int)
    ensures -TWO_63 <= r < TWO_63
    ensures -TWO_63 <= x < TWO_63 ==> r == x
  {
    (x + TWO_63) % TWO_64 - TWO_63
  }

  /** Go's `/`, which truncates towards zero. */
  function Quo(a: int, b: int): int
    requires b > 0
  {
    if a >= 0 then a / b else -((-a) / b)
  }

  /** `transmitDuration`, with the wrap-around of its int64 arithmetic. */
  function Transmit(size: nat, bandwidth: int): int {
    if size == 0 || bandwidth <= 0 then 0
    else
      var numerator := Wrap64(size * SECOND);
      var rounded := Quo(Wrap64(numerator + bandwidth - 1), bandwidth);
      if rounded == 0 then 1 else rounded
  }

  /** The guard under which line 273 cannot overflow. */
  predicate Fits(size: nat, bandwidth: int) {
    bandwidth <= 0 || size * SECOND + bandwidth - 1 < TWO_63
  }

  /** Wrapping a sum that was wrapped before is wrapping the sum. */
  lemma WrapTwice(a: int, b: int)
    ensures Wrap64(Wrap64(a) + b) == Wrap64(a + b)
  {
    var k := (a + TWO_63) / TWO_64;
    assert Wrap64(a) == a - k * TWO_64;
  }

  lemma DivBounds(n: nat, d: int)
    requires d > 0
    ensures 0 <= n / d && (n / d) * d <= n < (n / d) * d + d
  {
    assert n == n / d * d + n % d;
  }

  /** Without overflow the transmit time is at least the exact one, by under 1 ns of the cap. */
  lemma TransmitIsCeiling(size: nat, bandwidth: int)
    requires bandwidth > 0 && Fits(size, bandwidth)
    ensures 0 <= Transmit(size, bandwidth)
    ensures size * SECOND <= Transmit(size, bandwidth) * bandwidth
    ensures size > 0 ==> 1 <= Transmit(size, bandwidth)
    ensures size > 0 ==> Transmit(size, bandwidth) * bandwidth < size * SECOND + bandwidth
  {
    if size > 0 {
      var n := size * SECOND + bandwidth - 1;
      assert Wrap64(Wrap64(size * SECOND) + bandwidth - 1) == n;
      DivBounds(n, bandwidth);
    }
  }

  lemma ProductGrows(p: int, q: int, d: int)
    requires d > 0
    ensures p <= q ==> p * d <= q * d
  {
    if p <= q { assert 0 <= (q - p) * d == q * d - p * d; }
  }

  lemma QuotientIsOne(n: nat, d: int)
    requires d > 0 && n >= d
    ensures n / d >= 1 && (n / d == 1 <==> n < 2 * d)
  {
    DivBounds(n, d);
    ProductGrows(n / d, 0, d);
    ProductGrows(2, n / d, d);
  }

  lemma QuotientGrows(w: nat, n: nat, d: int)
    requires d > 0 && n > w + 2 * d
    ensures n / d >= w / d + 2
  {
    DivBounds(w, d);
    DivBounds(n, d);
    var p, q := n / d, w / d;
    ProductGrows(p, q + 1, d);
    assert (q + 1) * d == q * d + d;
  }

  /** A quotient of numbers below the divisor, and of others. */
  lemma QuotientIsZero(n: nat, d: int)
    requires d > 0
    ensures n / d >= 0 && (n / d == 0 <==> n < d)
  {
    DivBounds(n, d);
    ProductGrows(1, n / d, d);
  }

  /** The sum in line 273 after it has wrapped: it gives the rounded-up time in one case only. */
  lemma WrappedQuotient(n: nat, bandwidth: int)
    requires 0 < bandwidth < TWO_63 && n >= TWO_63
    ensures var q := Quo(Wrap64(n), bandwidth);
      (if q == 0 then 1 else q) == n / bandwidth <==> n < 2 * bandwidth && n + bandwidth > TWO_64
  {
    var w, k := Wrap64(n), (n + TWO_63) / TWO_64;
    assert w == n - k * TWO_64 && k >= 1;
    hide Wrap64;
    QuotientIsOne(n, bandwidth);
    if w >= 0 {
      QuotientGrows(w, n, bandwidth);
      QuotientIsZero(w, bandwidth);
    } else {
      QuotientIsZero(-w, bandwidth);
    }
  }

  /** For every non-empty packet and every int64 cap: the transmit time is the exact time rounded up
      if and only if line 273 does not overflow, or the whole packet takes at most 1 ns at a cap so
      near 2^63 that the sum wraps to just below zero. */
  lemma TransmitIsCeilingIff(size: nat, bandwidth: int)
    requires size > 0 && 0 < bandwidth < TWO_63
    ensures Transmit(size, bandwidth) == (size * SECOND + bandwidth - 1) / bandwidth
      <==> || Fits(size, bandwidth)
           || (size * SECOND <= bandwidth && 2 * bandwidth + size * SECOND > TWO_64 + 1)
  {
    hide Wrap64, Quo;
    var n := size * SECOND + bandwidth - 1;
    WrapTwice(size * SECOND, bandwidth - 1);
    assert Wrap64(Wrap64(size * SECOND) + bandwidth - 1) == Wrap64(n);
    if Fits(size, bandwidth) {
      QuoFits(n, bandwidth);
    } else {
      WrappedQuotient(n, bandwidth);
    }
  }

  lemma QuoFits(n: nat, bandwidth: int)
    requires 0 < bandwidth <= n < TWO_63
    ensures Quo(Wrap64(n), bandwidth) == n / bandwidth && n / bandwidth >= 1
  {
    QuotientIsOne(n, bandwidth);
  }

  /** An ordinary packet at a cap that `Validate` accepts: the transmit time is negative. */
  lemma TransmitOverflows()
    ensures !Fits(1500, TWO_63 - 1_000_000_000_000) && Transmit(1500, TWO_63 - 1_000_000_000_000) == -1
  {
  }

  // ---------- packets ----------

  datatype Arrival = Arrival(at: Time, data: Bytes)

  /** One copy of a packet that was not dropped, numbered in order of arrival. */
  datatype Copy = Copy(id: nat, packet: Arrival)

  datatype Held = Held(copy: Copy, releaseAt: Time)

  /** One call of `schedule`: its argument time `base`, the tape position `draw` at which it started,
      its jitter, and the release time it computed. */
  datatype Entry = Entry(copy: Copy, base: Time, draw: nat, jitter: nat, releaseAt: Time)

  datatype Tally = Tally(drops: nat, duplicates: nat, reorders: nat, swaps: nat, expiries: nat, flushes: nat)

  /** The pipeline without its queue, and the history of what it did.
      `nextSeq` is the length of `log`; `fates` holds the number of copies of each enqueued packet. */
  datatype Core = Core(
    copies: seq<Copy>, held: Option<Held>, log: seq<Entry>, ready: Time, pos: nat,
    tally: Tally, fates: seq<nat>)

  const NewCore := Core([], None, [], 0, 0, Tally(0, 0, 0, 0, 0, 0), [])

  /** `schedule`. */
  function Schedule(c: Config, t: Tape, s: Core, base: Time, copy: Copy): Core {
    var (jitter, pos) := JitterDraw(c, t, s.pos);
    var earliest := base + c.Latency() + jitter;
    var releaseAt :=
      if c.bandwidth > 0
      then Max(s.ready, earliest) + Transmit(|copy.packet.data|, c.bandwidth)
      else earliest;
    s.(log := s.log + [Entry(copy, base, s.pos, jitter, releaseAt)], pos := pos,
       ready := if c.bandwidth > 0 then releaseAt else s.ready)
  }

  /** `schedule` touches the log, the tape and the shaper only. */
  lemma ScheduleFrame(c: Config, t: Tape, s: Core, base: Time, copy: Copy)
    ensures var s' := Schedule(c, t, s, base, copy);
      && s'.copies == s.copies && s'.held == s.held && s'.tally == s.tally && s'.fates == s.fates
      && |s'.log| == |s.log| + 1 && s'.log[..|s.log|] == s.log
      && s'.log[|s.log|].copy == copy && s'.log[|s.log|].base == base
  {
    hide Transmit, JitterDraw;
  }

  /** `flushExpiredHeld`. */
  function Expire(c: Config, t: Tape, s: Core, now: Time): Core {
    if s.held.None? || s.held.value.releaseAt > now then s
    else
      var s1 := s.(held := None, tally := s.tally.(expiries := s.tally.expiries + 1));
      Schedule(c, t, s1, s.held.value.releaseAt, s.held.value.copy)
  }

  /** `enqueueCopy`. */
  function Admit(c: Config, t: Tape, s: Core, now: Time, data: Bytes): Core {
    var copy := Copy(|s.copies|, Arrival(now, data));
    var s1 := s.(copies := s.copies + [copy]);
    if s.held.Some? then
      var s2 := s1.(held := None, tally := s.tally.(swaps := s.tally.swaps + 1));
      Schedule(c, t, Schedule(c, t, s2, now, copy), now, s.held.value.copy)
    else
      var (reorder, pos) := Roll(t, s.pos, c.reorderProb);
      if reorder then
        s1.(pos := pos, held := Some(Held(copy, now + c.Hold())),
            tally := s.tally.(reorders := s.tally.reorders + 1))
      else Schedule(c, t, s1.(pos := pos), now, copy)
  }

  /** `Enqueue` up to its decision: what is left of the state, and how many copies go in. */
  function Decide(c: Config, t: Tape, s: Core): (Core, nat) {
    var (drop, p1) := Roll(t, s.pos, c.dropProb);
    if drop then
      (s.(pos := p1, tally := s.tally.(drops := s.tally.drops + 1), fates := s.fates + [0]), 0)
    else
      var (dup, p2) := Roll(t, p1, c.dupProb);
      if dup then
        (s.(pos := p2, tally := s.tally.(duplicates := s.tally.duplicates + 1), fates := s.fates + [2]), 2)
      else (s.(pos := p2, fates := s.fates + [1]), 1)
  }

  function AdmitAll(c: Config, t: Tape, s: Core, now: Time, data: Bytes, n: nat): Core {
    if n == 0 then s else Admit(c, t, AdmitAll(c, t, s, now, data, n - 1), now, data)
  }

  /** `Enqueue`. */
  function Enqueue(c: Config, t: Tape, s: Core, now: Time, data: Bytes): Core {
    var (s1, n) := Decide(c, t, Expire(c, t, s, now));
    AdmitAll(c, t, s1, now, data, n)
  }

  /** `Flush`. */
  function FlushHeld(c: Config, t: Tape, s: Core, now: Time): Core {
    if s.held.None? then s
    else
      var s1 := s.(held := None, tally := s.tally.(flushes := s.tally.flushes + 1));
      Schedule(c, t, s1, now, s.held.value.copy)
  }

  // ---------- the queue ----------

  /** The heap items pushed by calls `from`, `from + 1`, ... of `schedule`. */
  function Items(log: seq<Entry>, from: nat): (r: seq<Item>)
    requires from <= |log|
    ensures |r| == |log| - from
    ensures forall i :: 0 <= i < |r| ==>
      r[i] == Item(log[from + i].copy.packet.data, log[from + i].releaseAt, from + i)
  {
    seq(|log| - from, i requires 0 <= i < |log| - from =>
      Item(log[from + i].copy.packet.data, log[from + i].releaseAt, from + i))
  }

  /** The pipeline with its queue as a sorted sequence, and everything polls returned so far. */
  datatype State = State(core: Core, queue: seq<Item>, out: seq<Item>)

  const Fresh := State(NewCore, [], [])

  /** Push what the step to `core` scheduled. */
  function Absorb(s: State, core: Core): State
    requires |s.core.log| <= |core.log|
  {
    State(core, InsertAll(s.queue, Items(core.log, |s.core.log|)), s.out)
  }

  /** The popping loop of `ReleaseReady`. */
  function Release(s: State, now: Time): State {
    var k := ReadyCount(s.queue, now);
    State(s.core, s.queue[k..], s.out + s.queue[..k])
  }

  datatype Event =
    | Enqueued(now: Time, data: Bytes)
    | Polled(now: Time)
    | Flushed(now: Time)

  lemma LogGrows(c: Config, t: Tape, s: Core, now: Time, data: Bytes, n: nat)
    ensures s.log <= Expire(c, t, s, now).log && s.log <= FlushHeld(c, t, s, now).log
    ensures s.log <= AdmitAll(c, t, s, now, data, n).log
  {
  }

  function Step(c: Config, t: Tape, s: State, e: Event): State {
    match e
    case Enqueued(now, data) =>
      LogGrows(c, t, s.core, now, data, 0);
      var (s1, n) := Decide(c, t, Expire(c, t, s.core, now));
      LogGrows(c, t, s1, now, data, n);
      Absorb(s, Enqueue(c, t, s.core, now, data))
    case Polled(now) =>
      LogGrows(c, t, s.core, now, [], 0);
      Release(Absorb(s, Expire(c, t, s.core, now)), now)
    case Flushed(now) =>
      LogGrows(c, t, s.core, now, [], 0);
      Absorb(s, FlushHeld(c, t, s.core, now))
  }

  function Run(c: Config, t: Tape, es: seq<Event>): State {
    if es == [] then Fresh else Step(c, t, Run(c, t, es[..|es| - 1]), es[|es| - 1])
  }

  lemma RunAppend(c: Config, t: Tape, es: seq<Event>, e: Event)
    ensures Run(c, t, es + [e]) == Step(c, t, Run(c, t, es), e)
  {
    assert (es + [e])[..|es|] == es;
  }

  /** The instants of the run never go back. */
  ghost predicate ClockRuns(es: seq<Event>) {
    forall i, j :: 0 <= i < j < |es| ==> es[i].now <= es[j].now
  }

  /** No enqueued packet is so large that its transmit time overflows. */
  ghost predicate AllFit(c: Config, es: seq<Event>) {
    forall e :: e in es && e.Enqueued? ==> Fits(|e.data|, c.bandwidth)
  }

  ghost predicate NoFlush(es: seq<Event>) {
    forall e :: e in es ==> !e.Flushed?
  }

  /** The packets enqueued, in order. */
  function Arrivals(es: seq<Event>): seq<Arrival> {
    if es == [] then []
    else
      var e := es[|es| - 1];
      Arrivals(es[..|es| - 1]) + (if e.Enqueued? then [Arrival(e.now, e.data)] else [])
  }
}
