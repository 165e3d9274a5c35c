/** Which setting and which draw of the generator decides what, and when each packet is released, in
    terms of the configuration's fields and the tape alone. */
module Draws {
  import opened Common
  import opened ImpairSpec
  import opened PipelineHistory
  import opened ReleaseOrder

  /** A roll with probability `p` succeeds, where `n` is the next unread draw. */
  predicate Hits(t: Tape, n: nat, p: real) { p >= 1.0 || (p > 0.0 && t.unit(n) < p) }

  /** How many draws a roll with probability `p` takes. */
  function Drawn(p: real): nat { if 0.0 < p < 1.0 then 1 else 0 }

  function JitterDraws(c: Config): nat { if c.jitter > 0 then 1 else 0 }

  // ---------- one call ----------

  /** `schedule`: one entry, released after latency and jitter, and behind a busy shaper under a cap. */
  lemma ScheduleDraws(c: Config, t: Tape, s: Core, base: Time, copy: Copy)
    ensures var s' := Schedule(c, t, s, base, copy);
      && |s'.log| == |s.log| + 1 && s.log <= s'.log
      && s'.pos == s.pos + JitterDraws(c)
      && s'.log[|s.log|].copy == copy && s'.log[|s.log|].base == base && s'.log[|s.log|].draw == s.pos
      && s'.log[|s.log|].jitter == if c.jitter > 0 then t.die(s.pos) % (c.jitter + 1) else 0
  {
    hide Transmit;
  }

  /** `flushExpiredHeld` takes a draw only for the jitter of a copy whose hold has run out. */
  lemma ExpireDraws(c: Config, t: Tape, s: Core, now: Time)
    ensures var s' := Expire(c, t, s, now); var due := s.held.Some? && s.held.value.releaseAt <= now;
      && s'.pos == s.pos + (if due then JitterDraws(c) else 0)
      && s'.copies == s.copies && s'.fates == s.fates
      && s'.tally == s.tally.(expiries := s.tally.expiries + if due then 1 else 0)
      && s'.held == (if due then None else s.held)
      && |s'.log| == |s.log| + if due then 1 else 0
  {
    hide Transmit;
  }

  /** `enqueueCopy`: a copy that finds nothing held is held if and only if the roll with the reorder
      probability hits at the next draw, and for the configured hold, or 3 ms if none is configured;
      a copy that finds another held is scheduled before it, without a roll; and any other copy is
      scheduled at once. */
  lemma AdmitDraws(c: Config, t: Tape, s: Core, now: Time, data: Bytes)
    ensures var s' := Admit(c, t, s, now, data);
      var copy, n := Copy(|s.copies|, Arrival(now, data)), |s.log|;
      && s'.copies == s.copies + [copy] && s.log <= s'.log
      && (if s.held.Some? then
            && s'.held.None? && |s'.log| == n + 2 && s'.pos == s.pos + 2 * JitterDraws(c)
            && s'.log[n].copy == copy && s'.log[n + 1].copy == s.held.value.copy
            && s'.log[n].base == now && s'.log[n + 1].base == now
          else if Hits(t, s.pos, c.reorderProb) then
            && s'.held == Some(Held(copy, now + if c.reorderHold > 0 then c.reorderHold else 3_000_000))
            && s'.log == s.log && s'.pos == s.pos + Drawn(c.reorderProb)
          else
            && s'.held.None? && |s'.log| == n + 1
            && s'.pos == s.pos + Drawn(c.reorderProb) + JitterDraws(c)
            && s'.log[n].copy == copy && s'.log[n].base == now)
  {
    hide Transmit, JitterDraw;
    assert JitterDraw(c, t, s.pos).1 == s.pos + JitterDraws(c) by { JitterDrawOne(c, t, s.pos); }
    JitterDrawOne(c, t, s.pos + JitterDraws(c));
    JitterDrawOne(c, t, s.pos + Drawn(c.reorderProb));
  }

  lemma JitterDrawOne(c: Config, t: Tape, pos: nat)
    ensures JitterDraw(c, t, pos).1 == pos + JitterDraws(c)
  {
  }

  /** Whether something is held behind one more copy, and the tape position there. */
  function AfterCopy(c: Config, t: Tape, held: bool, pos: nat): (bool, nat) {
    if held then (false, pos + 2 * JitterDraws(c))
    else if Hits(t, pos, c.reorderProb) then (true, pos + Drawn(c.reorderProb))
    else (false, pos + Drawn(c.reorderProb) + JitterDraws(c))
  }

  function AfterCopies(c: Config, t: Tape, held: bool, pos: nat, n: nat): (bool, nat) {
    if n == 0 then (held, pos)
    else var (h, p) := AfterCopies(c, t, held, pos, n - 1); AfterCopy(c, t, h, p)
  }

  /** `Enqueue`: the packet is dropped if and only if the roll with the drop probability hits at the next
      draw, behind the jitter of a copy whose hold has run out; otherwise it is taken twice if and only
      if the roll with the duplicate probability hits at the draw after that. Each roll takes a draw only
      for a probability strictly between 0 and 1; a dropped packet takes no more, and every copy takes
      its own. */
  lemma EnqueueDraws(c: Config, t: Tape, s: State, now: Time, data: Bytes)
    ensures var x, x' := s.core, Step(c, t, s, Enqueued(now, data)).core;
      var due := x.held.Some? && x.held.value.releaseAt <= now;
      var p := x.pos + if due then JitterDraws(c) else 0;
      var q := p + Drawn(c.dropProb);
      var dropped, twice := Hits(t, p, c.dropProb), Hits(t, q, c.dupProb);
      var n := if dropped then 0 else if twice then 2 else 1;
      && x.copies <= x'.copies && |x'.copies| == |x.copies| + n
      && (forall i :: |x.copies| <= i < |x'.copies| ==> x'.copies[i] == Copy(i, Arrival(now, data)))
      && x'.fates == x.fates + [n]
      && x'.tally.drops == x.tally.drops + (if dropped then 1 else 0)
      && x'.tally.duplicates == x.tally.duplicates + (if n == 2 then 1 else 0)
      && (x'.held.Some?, x'.pos)
         == AfterCopies(c, t, x.held.Some? && !due, if dropped then q else q + Drawn(c.dupProb), n)
  {
    hide Expire, AdmitAll, JitterDraws, AfterCopies;
    var e := Expire(c, t, s.core, now);
    ExpireDraws(c, t, s.core, now);
    var (s1, n) := Decide(c, t, e);
    AdmitAllDraws(c, t, s1, now, data, n);
  }

  lemma {:induction false} AdmitAllDraws(c: Config, t: Tape, s: Core, now: Time, data: Bytes, n: nat)
    ensures var s' := AdmitAll(c, t, s, now, data, n);
      && s.copies <= s'.copies && |s'.copies| == |s.copies| + n && s'.fates == s.fates
      && (forall i :: |s.copies| <= i < |s'.copies| ==> s'.copies[i] == Copy(i, Arrival(now, data)))
      && s'.tally.drops == s.tally.drops && s'.tally.duplicates == s.tally.duplicates
      && (s'.held.Some?, s'.pos) == AfterCopies(c, t, s.held.Some?, s.pos, n)
  {
    hide Admit, Hits, Drawn, JitterDraws;
    if n > 0 {
      var before := AdmitAll(c, t, s, now, data, n - 1);
      AdmitAllDraws(c, t, s, now, data, n - 1);
      AdmitDraws(c, t, before, now, data);
      AdmitCopies(c, t, before, now, data);
    }
  }

  // ---------- whole runs ----------

  /** Each entry's jitter comes from its own place on the tape, and no place is read twice. */
  ghost predicate FromTape(c: Config, t: Tape, s: Core) {
    && (forall i :: 0 <= i < |s.log| ==> JitterFromTape(c, t, s.log[i], s.pos))
    && (forall i, j :: 0 <= i < j < |s.log| ==> s.log[i].draw + JitterDraws(c) <= s.log[j].draw)
  }

  predicate JitterFromTape(c: Config, t: Tape, e: Entry, pos: nat) {
    && e.draw + JitterDraws(c) <= pos
    && e.jitter == if c.jitter > 0 then t.die(e.draw) % (c.jitter + 1) else 0
  }

  lemma FromTapeLater(c: Config, t: Tape, s: Core, s': Core)
    requires FromTape(c, t, s) && s'.log == s.log && s.pos <= s'.pos
    ensures FromTape(c, t, s')
  {
    hide JitterDraws;
    forall i | 0 <= i < |s'.log| ensures JitterFromTape(c, t, s'.log[i], s'.pos) {
      assert JitterFromTape(c, t, s.log[i], s.pos);
    }
  }

  lemma ScheduleFromTape(c: Config, t: Tape, s: Core, base: Time, copy: Copy)
    requires FromTape(c, t, s)
    ensures FromTape(c, t, Schedule(c, t, s, base, copy))
  {
    ScheduleDraws(c, t, s, base, copy);
    hide Schedule, JitterDraws;
    var s' := Schedule(c, t, s, base, copy);
    forall i | 0 <= i < |s'.log| ensures JitterFromTape(c, t, s'.log[i], s'.pos) {
      if i < |s.log| { assert JitterFromTape(c, t, s.log[i], s.pos) && s'.log[i] == s.log[i]; }
    }
    forall i, j | 0 <= i < j < |s'.log| ensures s'.log[i].draw + JitterDraws(c) <= s'.log[j].draw {
      assert s'.log[i] == s.log[i] && JitterFromTape(c, t, s.log[i], s.pos);
      if j < |s.log| { assert s'.log[j] == s.log[j]; }
    }
  }

  lemma ExpireFromTape(c: Config, t: Tape, s: Core, now: Time)
    requires FromTape(c, t, s)
    ensures FromTape(c, t, Expire(c, t, s, now)) && FromTape(c, t, FlushHeld(c, t, s, now))
  {
    hide Schedule, FromTape;
    if s.held.Some? {
      var h := s.held.value;
      var a := s.(held := None, tally := s.tally.(expiries := s.tally.expiries + 1));
      var b := s.(held := None, tally := s.tally.(flushes := s.tally.flushes + 1));
      FromTapeLater(c, t, s, a);
      FromTapeLater(c, t, s, b);
      ScheduleFromTape(c, t, a, h.releaseAt, h.copy);
      ScheduleFromTape(c, t, b, now, h.copy);
    }
  }

  lemma AdmitFromTape(c: Config, t: Tape, s: Core, now: Time, data: Bytes)
    requires FromTape(c, t, s)
    ensures FromTape(c, t, Admit(c, t, s, now, data))
  {
    hide Schedule, FromTape;
    var copy := Copy(|s.copies|, Arrival(now, data));
    var s1 := s.(copies := s.copies + [copy]);
    if s.held.Some? {
      var s2 := s1.(held := None, tally := s.tally.(swaps := s.tally.swaps + 1));
      FromTapeLater(c, t, s, s2);
      ScheduleFromTape(c, t, s2, now, copy);
      ScheduleFromTape(c, t, Schedule(c, t, s2, now, copy), now, s.held.value.copy);
    } else {
      var (reorder, pos) := Roll(t, s.pos, c.reorderProb);
      if reorder {
        FromTapeLater(c, t, s, Admit(c, t, s, now, data));
      } else {
        FromTapeLater(c, t, s, s1.(pos := pos));
        ScheduleFromTape(c, t, s1.(pos := pos), now, copy);
      }
    }
  }

  lemma {:induction false} AdmitAllFromTape(c: Config, t: Tape, s: Core, now: Time, data: Bytes, n: nat)
    requires FromTape(c, t, s)
    ensures FromTape(c, t, AdmitAll(c, t, s, now, data, n))
  {
    hide Admit, FromTape;
    if n > 0 {
      AdmitAllFromTape(c, t, s, now, data, n - 1);
      AdmitFromTape(c, t, AdmitAll(c, t, s, now, data, n - 1), now, data);
    }
  }

  lemma StepFromTape(c: Config, t: Tape, s: State, e: Event)
    requires FromTape(c, t, s.core)
    ensures FromTape(c, t, Step(c, t, s, e).core)
  {
    hide Expire, FlushHeld, AdmitAll, FromTape;
    ExpireFromTape(c, t, s.core, e.now);
    if e.Enqueued? {
      var x := Expire(c, t, s.core, e.now);
      var (s1, n) := Decide(c, t, x);
      FromTapeLater(c, t, x, s1);
      AdmitAllFromTape(c, t, s1, e.now, e.data, n);
    }
  }

  lemma {:induction false} RunFromTape(c: Config, t: Tape, es: seq<Event>)
    ensures FromTape(c, t, Run(c, t, es).core)
  {
    if es != [] {
      hide Step, FromTape;
      RunFromTape(c, t, es[..|es| - 1]);
      StepFromTape(c, t, Run(c, t, es[..|es| - 1]), es[|es| - 1]);
    }
  }

  /** Every release time of every run: the scheduling time, the configured latency, and a jitter drawn
      from the tape at the entry's own place; under a cap not before the entry in front has left, and
      the transmit time on top. */
  lemma RunReleases(c: Config, t: Tape, es: seq<Event>, i: nat)
    requires i < |Run(c, t, es).core.log|
    ensures var s := Run(c, t, es).core; var e := s.log[i];
      var j := if c.jitter > 0 then t.die(e.draw) % (c.jitter + 1) else 0;
      var idle := e.base + (if c.latency > 0 then c.latency else 0) + j;
      var busy := if i == 0 then 0 else s.log[i - 1].releaseAt;
      && (c.bandwidth <= 0 ==> e.releaseAt == idle)
      && (c.bandwidth > 0 ==>
            e.releaseAt == (if busy > idle then busy else idle) + Transmit(|e.copy.packet.data|, c.bandwidth))
      && (c.jitter > 0 ==> e.draw < s.pos && forall k :: 0 <= k < i ==> s.log[k].draw < e.draw)
  {
    hide Run, Transmit, Woven;
    RunAccounted(c, t, es);
    RunFromTape(c, t, es);
    var s := Run(c, t, es).core;
    assert JitterFromTape(c, t, s.log[i], s.pos);
  }
}
