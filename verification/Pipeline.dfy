/** The `Pipeline` object: fields updated in place, each method proved against `ImpairSpec`. */
module Impairment {
  import opened Common
  import opened PacketOrder
  import opened PacketHeap
  import Spec = ImpairSpec
  import opened PipelineHistory
  import opened Guarantees
  import WakeUps

  datatype HeldPacket = HeldPacket(data: Bytes, releaseAt: Time)

  ghost function HeldOf(s: Spec.Core): Option<HeldPacket> {
    if s.held.None? then None else Some(HeldPacket(s.held.value.copy.packet.data, s.held.value.releaseAt))
  }

  /** The fields are what the specification's state says. */
  ghost predicate Tied(s: Spec.Core, held: Option<HeldPacket>, nextSeq: nat, ready: Time, pos: nat,
    drops: nat, duplicates: nat, reorders: nat)
  {
    && held == HeldOf(s) && nextSeq == |s.log| && ready == s.ready && pos == s.pos
    && drops == s.tally.drops && duplicates == s.tally.duplicates && reorders == s.tally.reorders
  }

  /** Two steps of scheduling push what one step to the last state pushes. */
  lemma AbsorbTwice(s: Spec.State, mid: Spec.Core, last: Spec.Core)
    requires s.core.log <= mid.log <= last.log
    ensures Spec.Absorb(Spec.Absorb(s, mid), last) == Spec.Absorb(s, last)
  {
    var n, m := |s.core.log|, |mid.log|;
    assert Spec.Items(last.log, n) == Spec.Items(mid.log, n) + Spec.Items(last.log, m);
    InsertAllConcat(s.queue, Spec.Items(mid.log, n), Spec.Items(last.log, m));
  }

  lemma AbsorbNothing(s: Spec.State, core: Spec.Core)
    requires core.log == s.core.log
    ensures Spec.Absorb(s, core) == s.(core := core)
  {
    assert Spec.Items(core.log, |s.core.log|) == [];
  }

  /** `Absorb` looks at the queue, the output and the length of the log. */
  lemma AbsorbFrom(m: Spec.State, m': Spec.State, core: Spec.Core)
    requires m.queue == m'.queue && m.out == m'.out && |m.core.log| == |m'.core.log| <= |core.log|
    ensures Spec.Absorb(m, core) == Spec.Absorb(m', core)
  {
  }

  /** `schedule` does not look at the held packet. */
  lemma ScheduleIgnoresHeld(c: Spec.Config, t: Spec.Tape, s: Spec.Core, now: Time, copy: Spec.Copy, tally: Spec.Tally)
    ensures Spec.Schedule(c, t, s, now, copy).(held := None, tally := tally)
         == Spec.Schedule(c, t, s.(held := None, tally := tally), now, copy)
  {
  }

  /** One `schedule`, seen from the fields. */
  lemma ScheduleModel(c: Spec.Config, t: Spec.Tape, m: Spec.State, now: Time, copy: Spec.Copy)
    requires Queued(m)
    ensures var core := Spec.Schedule(c, t, m.core, now, copy);
      && m.core.log <= core.log && |core.log| == |m.core.log| + 1
      && core.held == m.core.held && core.tally == m.core.tally
      && Queued(Spec.Absorb(m, core))
      && (forall y :: y in m.queue ==> y.seqNo < |m.core.log|)
      && Spec.Absorb(m, core) == Spec.State(core,
           Insert(m.queue, Item(copy.packet.data, core.log[|m.core.log|].releaseAt, |m.core.log|)), m.out)
  {
    hide Spec.Transmit, Spec.JitterDraw;
    var core := Spec.Schedule(c, t, m.core, now, copy);
    var item := Item(copy.packet.data, core.log[|m.core.log|].releaseAt, |m.core.log|);
    assert Spec.Items(core.log, |m.core.log|) == [item];
    assert [item][..0] == [];
    assert InsertAll(m.queue, [item]) == Insert(m.queue, item);
    AbsorbQueued(m, core);
    forall y | y in m.queue ensures y.seqNo < |m.core.log| {
      assert y in m.out + m.queue;
      assert y in multiset(Spec.Items(m.core.log, 0));
    }
  }

  /** One turn of the popping loop, on sequences. */
  lemma Advance(was: seq<Item>, k: nat, item: Item, rest: seq<Item>)
    requires k <= |was| && was[k..] == [item] + rest
    ensures k < |was| && was[k] == item && was[k + 1..] == rest
    ensures MapSeq(ItemData, was[..k + 1]) == MapSeq(ItemData, was[..k]) + [item.data]
  {
    assert was[k..][0] == item && was[k..][1..] == rest;
    assert was[..k + 1] == was[..k] + [item];
  }

  /** What a poll leaves behind once the loop has popped the ready prefix. */
  lemma PolledModel(c: Spec.Config, t: Spec.Tape, old': Spec.State, m: Spec.State, now: Time)
    requires Queued(m) && m.core == Spec.Expire(c, t, old'.core, now)
    requires old'.core.log <= m.core.log && m == Spec.Absorb(old', m.core)
    ensures var r := Spec.Release(m, now);
      && r == Spec.Step(c, t, old', Spec.Polled(now)) && Queued(r) && r.core == m.core
      && r.queue == m.queue[ReadyCount(m.queue, now)..]
      && |old'.out| <= |r.out| && r.out[|old'.out|..] == m.queue[..ReadyCount(m.queue, now)]
  {
    hide Spec.Expire, Sorted, InsertAll, ReadyCount;
    ReleaseQueued(m, now);
  }

  class Pipeline {
    const cfg: Spec.Config
    const tape: Spec.Tape
    const queue: Heap
    var held: Option<HeldPacket>
    var nextSeq: nat
    var bandwidthReady: Time
    /** Draws taken from the generator. */
    var pos: nat
    /** What the hooks were told. */
    var drops: nat
    var duplicates: nat
    var reorders: nat
    ghost var model: Spec.State

    ghost predicate Valid()
      reads this, queue, queue.buf
    {
      && queue.Valid() && queue.sorted == model.queue && Queued(model)
      && Tied(model.core, held, nextSeq, bandwidthReady, pos, drops, duplicates, reorders)
    }

    constructor (cfg: Spec.Config, tape: Spec.Tape)
      ensures Valid() && model == Spec.Fresh && this.cfg == cfg && this.tape == tape
      ensures fresh(queue) && fresh(queue.buf)
    {
      this.cfg := cfg;
      this.tape := tape;
      queue := new Heap();
      held := None;
      nextSeq, bandwidthReady, pos := 0, 0, 0;
      drops, duplicates, reorders := 0, 0, 0;
      model := Spec.Fresh;
      new;
      assert Spec.Items([], 0) == [];
    }

    /** `roll`. */
    method Roll(prob: real) returns (hit: bool)
      modifies this`pos
      ensures (hit, pos) == Spec.Roll(tape, old(pos), prob)
    {
      if prob <= 0.0 { return false; }
      if prob >= 1.0 { return true; }
      hit := tape.unit(pos) < prob;
      pos := pos + 1;
    }

    /** The first half of `schedule`: latency, jitter and the bandwidth shaper. */
    method ReleaseTime(now: Time, size: nat, ghost s: Spec.Core, ghost copy: Spec.Copy) returns (releaseAt: Time)
      requires bandwidthReady == s.ready && pos == s.pos && size == |copy.packet.data|
      modifies this`pos, this`bandwidthReady
      ensures var s' := Spec.Schedule(cfg, tape, s, now, copy);
        && |s'.log| == |s.log| + 1 && releaseAt == s'.log[|s.log|].releaseAt
        && bandwidthReady == s'.ready && pos == s'.pos
    {
      hide Spec.Transmit;
      releaseAt := now;
      if cfg.latency > 0 { releaseAt := releaseAt + cfg.latency; }
      if cfg.jitter > 0 {
        releaseAt := releaseAt + tape.die(pos) % (cfg.jitter + 1);
        pos := pos + 1;
      }
      if cfg.bandwidth > 0 {
        if bandwidthReady > releaseAt { releaseAt := bandwidthReady; }
        releaseAt := releaseAt + Spec.Transmit(size, cfg.bandwidth);
        bandwidthReady := releaseAt;
      }
    }

    /** `schedule` on the real fields. */
    method PushAt(now: Time, data: Bytes, ghost s: Spec.Core, ghost copy: Spec.Copy)
      requires queue.Valid() && forall y :: y in queue.sorted ==> y.seqNo < nextSeq
      requires bandwidthReady == s.ready && pos == s.pos && nextSeq == |s.log| && copy.packet.data == data
      modifies this`pos, this`bandwidthReady, this`nextSeq, queue, queue.buf
      ensures queue.Valid() && (queue.buf == old(queue.buf) || fresh(queue.buf))
      ensures var s' := Spec.Schedule(cfg, tape, s, now, copy);
        && |s'.log| == |s.log| + 1 == nextSeq && bandwidthReady == s'.ready && pos == s'.pos
        && queue.sorted == Insert(old(queue.sorted), Item(data, s'.log[|s.log|].releaseAt, |s.log|))
    {
      hide Spec.Schedule, Insert, Sorted, StandsFor;
      var releaseAt := ReleaseTime(now, |data|, s, copy);
      queue.Push(Item(data, releaseAt, nextSeq));
      nextSeq := nextSeq + 1;
    }

    /** `schedule`. */
    method Schedule(now: Time, data: Bytes, ghost copy: Spec.Copy)
      requires Valid() && copy.packet.data == data
      modifies this, queue, queue.buf
      ensures Valid() && (queue.buf == old(queue.buf) || fresh(queue.buf))
      ensures model.core == Spec.Schedule(cfg, tape, old(model.core), now, copy)
      ensures old(model.core.log) <= model.core.log && model == Spec.Absorb(old(model), model.core)
    {
      ghost var m := model;
      ScheduleModel(cfg, tape, m, now, copy);
      hide Spec.Schedule, Queued, Spec.Absorb, Insert, Sorted, StandsFor;
      PushAt(now, data, m.core, copy);
      model := Spec.Absorb(m, Spec.Schedule(cfg, tape, m.core, now, copy));
    }

    /** `flushExpiredHeld`. */
    method FlushExpiredHeld(now: Time)
      requires Valid()
      modifies this, queue, queue.buf
      ensures Valid() && (queue.buf == old(queue.buf) || fresh(queue.buf))
      ensures model.core == Spec.Expire(cfg, tape, old(model.core), now)
      ensures old(model.core.log) <= model.core.log && model == Spec.Absorb(old(model), model.core)
    {
      hide Spec.Schedule, Sorted, StandsFor, Spec.Absorb;
      ghost var m := model;
      AbsorbNothing(m, m.core);
      if held.None? || held.value.releaseAt > now { return; }
      var packet := held.value;
      ghost var h, tally := m.core.held.value, m.core.tally;
      DropHeld(tally.(expiries := tally.expiries + 1));
      ghost var dropped := model;
      Schedule(packet.releaseAt, packet.data, h.copy);
      AbsorbFrom(m, dropped, model.core);
    }

    /** `p.held = nil`, with what the history makes of it. */
    method DropHeld(ghost tally: Spec.Tally)
      requires Valid()
      requires tally.drops == drops && tally.duplicates == duplicates && tally.reorders == reorders
      modifies this`held, this`model
      ensures Valid() && model == old(model).(core := old(model.core).(held := None, tally := tally))
    {
      held := None;
      model := model.(core := model.core.(held := None, tally := tally));
    }

    /** `roll` in a valid pipeline. */
    method Draw(prob: real) returns (hit: bool)
      requires Valid()
      modifies this`pos, this`model
      ensures Valid() && hit == Spec.Roll(tape, old(model.core.pos), prob).0
      ensures model == old(model).(core := old(model.core).(pos := Spec.Roll(tape, old(model.core.pos), prob).1))
    {
      hit := Roll(prob);
      model := model.(core := model.core.(pos := pos));
    }

    /** `enqueueCopy`. */
    method EnqueueCopy(now: Time, data: Bytes)
      requires Valid()
      modifies this, queue, queue.buf
      ensures Valid() && (queue.buf == old(queue.buf) || fresh(queue.buf))
      ensures model.core == Spec.Admit(cfg, tape, old(model.core), now, data)
      ensures old(model.core.log) <= model.core.log && model == Spec.Absorb(old(model), model.core)
    {
      hide Spec.Schedule, Spec.Roll, Sorted, StandsFor, Spec.Absorb, Queued;
      ghost var m := model;
      ghost var copy := Spec.Copy(|m.core.copies|, Spec.Arrival(now, data));
      Arrive(copy);
      if held.None? {
        var hit := Draw(cfg.reorderProb);
        ghost var drawn := model;
        if hit {
          Hold(now, data, copy);
          AbsorbNothing(m, model.core);
        } else {
          Schedule(now, data, copy);
          AbsorbFrom(m, drawn, model.core);
        }
      } else {
        SwapHeld(now, data, copy, m);
      }
    }

    /** The arrival of a copy, which only the history sees. */
    ghost method Arrive(copy: Spec.Copy)
      requires Valid()
      modifies this`model
      ensures Valid() && model == old(model).(core := old(model.core).(copies := old(model.core.copies) + [copy]))
    {
      model := model.(core := model.core.(copies := model.core.copies + [copy]));
    }

    /** `p.held = &heldPacket{...}` and the reorder hook. */
    method Hold(now: Time, data: Bytes, ghost copy: Spec.Copy)
      requires Valid() && held.None? && copy.packet.data == data
      modifies this`reorders, this`held, this`model
      ensures Valid()
      ensures model == old(model).(core := old(model.core).(
        held := Some(Spec.Held(copy, now + cfg.Hold())),
        tally := old(model.core.tally).(reorders := old(model.core.tally.reorders) + 1)))
    {
      reorders := reorders + 1;
      held := Some(HeldPacket(data, now + cfg.Hold()));
      model := model.(core := model.core.(
        held := Some(Spec.Held(copy, now + cfg.Hold())),
        tally := model.core.tally.(reorders := model.core.tally.reorders + 1)));
    }

    /** The new packet overtakes the held one. */
    method SwapHeld(now: Time, data: Bytes, ghost copy: Spec.Copy, ghost m: Spec.State)
      requires Valid() && held.Some? && copy == Spec.Copy(|m.core.copies|, Spec.Arrival(now, data))
      requires model == m.(core := m.core.(copies := m.core.copies + [copy]))
      modifies this, queue, queue.buf
      ensures Valid() && (queue.buf == old(queue.buf) || fresh(queue.buf))
      ensures model.core == Spec.Admit(cfg, tape, m.core, now, data)
      ensures m.core.log <= model.core.log && model == Spec.Absorb(m, model.core)
    {
      hide Spec.Roll, Sorted, StandsFor, Spec.Absorb, Queued;
      ghost var h, tally := m.core.held.value, m.core.tally.(swaps := m.core.tally.swaps + 1);
      ScheduleIgnoresHeld(cfg, tape, model.core, now, copy, tally);
      Spec.ScheduleFrame(cfg, tape, model.core, now, copy);
      hide Spec.Schedule;
      Schedule(now, data, copy);
      ghost var first := model;
      AbsorbFrom(m, old(model), first.core);
      var packet := held.value;
      DropHeld(tally);
      ghost var dropped := model;
      Schedule(now, packet.data, h.copy);
      AbsorbFrom(first, dropped, model.core);
      AbsorbTwice(m, first.core, model.core);
    }

    /** `Enqueue`. */
    method Enqueue(now: Time, data: Bytes)
      requires Valid()
      modifies this, queue, queue.buf
      ensures Valid() && (queue.buf == old(queue.buf) || fresh(queue.buf))
      ensures model == Spec.Step(cfg, tape, old(model), Spec.Enqueued(now, data))
    {
      hide Spec.Expire, Spec.Admit, Spec.Roll, Sorted, StandsFor, Spec.Absorb, Queued;
      ghost var m := model;
      FlushExpiredHeld(now);
      ghost var expired := model;
      var copies := Choose();
      ghost var chosen := model;
      AbsorbFrom(expired, chosen, chosen.core);
      AbsorbNothing(expired, chosen.core);
      AbsorbTwice(m, expired.core, chosen.core);
      for i := 0 to copies
        invariant Valid() && (queue.buf == old(queue.buf) || fresh(queue.buf))
        invariant model.core == Spec.AdmitAll(cfg, tape, chosen.core, now, data, i)
        invariant m.core.log <= model.core.log && model == Spec.Absorb(m, model.core)
      {
        ghost var before := model;
        EnqueueCopy(now, data);
        AbsorbTwice(m, before.core, model.core);
      }
    }

    /** The drop and duplicate rolls of `Enqueue`, with their hooks. */
    method Choose() returns (copies: nat)
      requires Valid()
      modifies this`pos, this`drops, this`duplicates, this`model
      ensures Valid() && (model.core, copies) == Spec.Decide(cfg, tape, old(model.core))
      ensures model == old(model).(core := model.core) && model.core.log == old(model.core.log)
    {
      hide Spec.Roll, Sorted, StandsFor;
      var drop := Draw(cfg.dropProb);
      if drop {
        drops := drops + 1;
        copies := 0;
        model := model.(core := model.core.(tally := model.core.tally.(drops := model.core.tally.drops + 1),
                                            fates := model.core.fates + [0]));
        return;
      }
      copies := 1;
      var duplicate := Draw(cfg.dupProb);
      if duplicate {
        copies := copies + 1;
        duplicates := duplicates + 1;
        model := model.(core := model.core.(tally := model.core.tally.(duplicates := model.core.tally.duplicates + 1)));
      }
      model := model.(core := model.core.(fates := model.core.fates + [copies]));
    }

    /** `Flush`. */
    method Flush(now: Time)
      requires Valid()
      modifies this, queue, queue.buf
      ensures Valid() && (queue.buf == old(queue.buf) || fresh(queue.buf))
      ensures model == Spec.Step(cfg, tape, old(model), Spec.Flushed(now))
    {
      hide Spec.Schedule, Sorted, StandsFor, Spec.Absorb, Queued;
      ghost var m := model;
      AbsorbNothing(m, m.core);
      if held.None? { return; }
      var packet := held.value;
      ghost var h, tally := m.core.held.value, m.core.tally;
      DropHeld(tally.(flushes := tally.flushes + 1));
      ghost var dropped := model;
      Schedule(now, packet.data, h.copy);
      AbsorbFrom(m, dropped, model.core);
    }

    /** `NextWake`. */
    method NextWake() returns (next: Time, ok: bool)
      requires Valid()
      ensures (next, ok) == WakeUps.NextWake(model)
    {
      next := 0;
      if held.Some? { next := held.value.releaseAt; }
      var nonEmpty := queue.NonEmpty();
      if nonEmpty {
        var queued := queue.buf[0].releaseAt;
        if next == 0 || queued < next { next := queued; }
      }
      if next == 0 { return 0, false; }
      return next, true;
    }

    /** `ReleaseReady`. */
    method ReleaseReady(now: Time) returns (ready: seq<Bytes>)
      requires Valid()
      modifies this, queue, queue.buf
      ensures Valid() && (queue.buf == old(queue.buf) || fresh(queue.buf))
      ensures model == Spec.Step(cfg, tape, old(model), Spec.Polled(now))
      ensures |old(model.out)| <= |model.out| && ready == MapSeq(ItemData, model.out[|old(model.out)|..])
    {
      hide Spec.Expire, Sorted, StandsFor, Spec.Absorb, Queued, Insert, ReadyCount, MapSeq;
      ghost var was := model;
      FlushExpiredHeld(now);
      PolledModel(cfg, tape, was, model, now);
      hide Spec.Step, Spec.Release;
      ready := PopReady(now);
      model := Spec.Release(model, now);
    }

    /** The popping loop of `ReleaseReady`. */
    method PopReady(now: Time) returns (ready: seq<Bytes>)
      requires queue.Valid()
      modifies queue, queue.buf
      ensures queue.Valid() && queue.buf == old(queue.buf)
      ensures var k := ReadyCount(old(queue.sorted), now);
        queue.sorted == old(queue.sorted)[k..] && ready == MapSeq(ItemData, old(queue.sorted)[..k])
    {
      hide Sorted, StandsFor, ReadyCount, MapSeq, Heap.Valid;
      ghost var was := queue.sorted;
      ghost var k := 0;
      ready := [];
      var more := queue.NonEmpty();
      while more && queue.buf[0].releaseAt <= now
        invariant queue.Valid() && queue.buf == old(queue.buf)
        invariant k <= |was| && queue.sorted == was[k..] && ready == MapSeq(ItemData, was[..k])
        invariant forall i :: 0 <= i < k ==> was[i].releaseAt <= now
        invariant more <==> queue.sorted != []
        invariant more ==> queue.len > 0 && queue.buf.Length > 0 && queue.buf[0] == queue.sorted[0]
        decreases |queue.sorted|
      {
        var item := queue.Pop();
        ready := ready + [item.data];
        Advance(was, k, item, queue.sorted);
        k := k + 1;
        more := queue.NonEmpty();
      }
      assert k == ReadyCount(was, now);
    }
  }
}
