/** `applyLoop`: how the proxy drives a pipeline, and what it writes. */
module Driver {
  import opened Common
  import opened PacketOrder
  import opened ImpairSpec
  import opened Guarantees
  import PipelineHistory
  import WakeUps
  import PollIndependence
  import opened ReleaseOrder
  import opened Impairment

  /** One turn of the loop: the time at which `flushReady` polls, then what the `select` brings. */
  datatype Turn =
    | Packet(poll: Time, now: Time, data: Bytes)
    | Timer(poll: Time)
    | Done(poll: Time, now: Time, last: Time)

  function EventsOf(t: Turn): seq<Event> {
    match t
    case Packet(poll, now, data) => [Polled(poll), Enqueued(now, data)]
    case Timer(poll) => [Polled(poll)]
    case Done(poll, now, last) => [Polled(poll), Flushed(now), Polled(last)]
  }

  /** The pipeline events of the loop, which ends with the first `Done`. */
  function Events(turns: seq<Turn>): seq<Event> {
    if turns == [] then []
    else EventsOf(turns[0]) + if turns[0].Done? then [] else Events(turns[1..])
  }

  /** `flushReady` with writes that succeed. */
  method FlushReady(p: Pipeline, now: Time, written: seq<Bytes>, ghost es: seq<Event>) returns (all: seq<Bytes>)
    requires p.Valid() && p.model == Run(p.cfg, p.tape, es) && written == MapSeq(ItemData, p.model.out)
    modifies p, p.queue, p.queue.buf
    ensures p.Valid() && (p.queue.buf == old(p.queue.buf) || fresh(p.queue.buf))
    ensures p.model == Run(p.cfg, p.tape, es + [Polled(now)]) && all == MapSeq(ItemData, p.model.out)
  {
    RunAppend(p.cfg, p.tape, es, Polled(now));
    StepExtends(p.cfg, p.tape, p.model, now);
    hide Step, Run, Sorted, PipelineHistory.Queued, MapSeq;
    ghost var before := p.model.out;
    var ready := p.ReleaseReady(now);
    all := written + ready;
    assert p.model.out == before + p.model.out[|before|..];
    MapConcat(ItemData, before, p.model.out[|before|..]);
  }

  lemma StepExtends(c: Config, t: Tape, s: State, now: Time)
    ensures s.out <= Step(c, t, s, Polled(now)).out
  {
    hide Expire, InsertAll;
  }

  /** The pipeline events up to the poll of turn `i`, when no earlier turn is the last. */
  function EventsTo(turns: seq<Turn>, i: nat): seq<Event>
    requires i < |turns|
  {
    Events(turns[..i]) + [Polled(turns[i].poll)]
  }

  /** What `resetTimer` arms the timer for in turn `i`, if it arms it. */
  function WakeOf(c: Config, t: Tape, turns: seq<Turn>, i: nat): Option<Time>
    requires i < |turns|
  {
    var (next, ok) := WakeUps.NextWake(Run(c, t, EventsTo(turns, i)));
    if ok then Some(next) else None
  }

  ghost predicate NoneDone(turns: seq<Turn>) { forall i :: 0 <= i < |turns| ==> !turns[i].Done? }

  /** `resetTimer`: the timer is armed for the wake time, or not at all. */
  method ResetTimer(p: Pipeline) returns (wake: Option<Time>)
    requires p.Valid()
    ensures wake == var (next, ok) := WakeUps.NextWake(p.model); if ok then Some(next) else None
  {
    var next, ok := p.NextWake();
    wake := if ok then Some(next) else None;
  }

  lemma {:induction false} EventsSplit(turns: seq<Turn>, i: nat)
    requires i <= |turns| && NoneDone(turns[..i])
    ensures Events(turns) == Events(turns[..i]) + Events(turns[i..])
  {
    if i == 0 {
      assert turns[0..] == turns;
    } else {
      assert !turns[..i][0].Done?;
      assert turns[..i][1..] == turns[1..][..i - 1] && turns[1..][i - 1..] == turns[i..];
      var tail := turns[1..][..i - 1];
      forall j | 0 <= j < |tail| ensures !tail[j].Done? {
        assert tail[j] == turns[..i][j + 1];
      }
      EventsSplit(turns[1..], i - 1);
      assert EventsOf(turns[0]) + (Events(turns[1..][..i - 1]) + Events(turns[i..]))
        == EventsOf(turns[0]) + Events(turns[1..][..i - 1]) + Events(turns[i..]);
    }
  }

  /** The events up to and including turn `i`. */
  lemma EventsAfter(turns: seq<Turn>, i: nat)
    requires i < |turns| && NoneDone(turns[..i])
    ensures Events(turns[..i + 1]) == Events(turns[..i]) + EventsOf(turns[i])
    ensures turns[i].Done? ==> Events(turns) == Events(turns[..i + 1])
  {
    var upto, one := turns[..i + 1], [turns[i]];
    assert upto[..i] == turns[..i] && upto[i..] == one && one[1..] == [];
    EventsSplit(upto, i);
    EventsSplit(turns, i);
    assert Events([]) == [] && Events(one) == EventsOf(turns[i]) + [];
    assert turns[i..][0] == turns[i];
    assert EventsOf(turns[i]) + [] == EventsOf(turns[i]);
  }

  /** `applyLoop`: what it writes is the output of the pipeline on the events of its turns, and in each
      turn it arms its timer for the wake time. */
  method Apply(p: Pipeline, turns: seq<Turn>) returns (written: seq<Bytes>, wakes: seq<Option<Time>>)
    requires p.Valid() && p.model == Fresh
    modifies p, p.queue, p.queue.buf
    ensures p.Valid() && p.model == Run(p.cfg, p.tape, Events(turns))
    ensures written == MapSeq(ItemData, p.model.out)
    ensures |wakes| <= |turns| && (|wakes| < |turns| ==> wakes != [] && turns[|wakes| - 1].Done?)
    ensures forall i :: 0 <= i < |wakes| ==> wakes[i] == WakeOf(p.cfg, p.tape, turns, i)
  {
    hide Step, Run, MapSeq, EventsOf, Pipeline.Valid, Events, WakeUps.NextWake;
    written, wakes := [], [];
    assert p.model == Run(p.cfg, p.tape, Events(turns[..0])) && written == MapSeq(ItemData, p.model.out) by {
      RunNothing(p.cfg, p.tape);
      assert Events(turns[..0]) == [] by { EventsNothing(turns); }
    }
    var i := 0;
    while i < |turns|
      invariant 0 <= i <= |turns| && NoneDone(turns[..i]) && |wakes| == i
      invariant p.Valid() && (p.queue.buf == old(p.queue.buf) || fresh(p.queue.buf))
      invariant p.model == Run(p.cfg, p.tape, Events(turns[..i])) && written == MapSeq(ItemData, p.model.out)
      invariant forall j :: 0 <= j < i ==> wakes[j] == WakeOf(p.cfg, p.tape, turns, j)
    {
      EventsAfter(turns, i);
      var wake;
      written, wake := Take(p, turns[i], written, Events(turns[..i]));
      wakes := wakes + [wake];
      if turns[i].Done? { return; }
      i := i + 1;
    }
    assert turns[..i] == turns;
  }

  lemma EventsNothing(turns: seq<Turn>)
    ensures Events(turns[..0]) == []
  {
  }

  lemma RunNothing(c: Config, t: Tape)
    ensures Run(c, t, []) == Fresh && MapSeq(ItemData, Fresh.out) == []
  {
  }

  method EnqueueAt(p: Pipeline, now: Time, data: Bytes, ghost es: seq<Event>)
    requires p.Valid() && p.model == Run(p.cfg, p.tape, es)
    modifies p, p.queue, p.queue.buf
    ensures p.Valid() && (p.queue.buf == old(p.queue.buf) || fresh(p.queue.buf))
    ensures p.model == Run(p.cfg, p.tape, es + [Enqueued(now, data)]) && p.model.out == old(p.model.out)
  {
    RunAppend(p.cfg, p.tape, es, Enqueued(now, data));
    OutUnchanged(p.cfg, p.tape, p.model, Enqueued(now, data));
    hide Step, Run, Sorted, PipelineHistory.Queued;
    p.Enqueue(now, data);
  }

  method FlushAt(p: Pipeline, now: Time, ghost es: seq<Event>)
    requires p.Valid() && p.model == Run(p.cfg, p.tape, es)
    modifies p, p.queue, p.queue.buf
    ensures p.Valid() && (p.queue.buf == old(p.queue.buf) || fresh(p.queue.buf))
    ensures p.model == Run(p.cfg, p.tape, es + [Flushed(now)]) && p.model.out == old(p.model.out)
  {
    RunAppend(p.cfg, p.tape, es, Flushed(now));
    OutUnchanged(p.cfg, p.tape, p.model, Flushed(now));
    hide Step, Run, Sorted, PipelineHistory.Queued;
    p.Flush(now);
  }

  /** One turn of `applyLoop`. */
  method Take(p: Pipeline, turn: Turn, written: seq<Bytes>, ghost es: seq<Event>)
    returns (all: seq<Bytes>, wake: Option<Time>)
    requires p.Valid() && p.model == Run(p.cfg, p.tape, es) && written == MapSeq(ItemData, p.model.out)
    modifies p, p.queue, p.queue.buf
    ensures p.Valid() && (p.queue.buf == old(p.queue.buf) || fresh(p.queue.buf))
    ensures p.model == Run(p.cfg, p.tape, es + EventsOf(turn)) && all == MapSeq(ItemData, p.model.out)
    ensures wake == var (next, ok) := WakeUps.NextWake(Run(p.cfg, p.tape, es + [Polled(turn.poll)]));
      if ok then Some(next) else None
  {
    TurnEvents(turn, es);
    hide Step, Run, MapSeq, EventsOf, Pipeline.Valid, WakeUps.NextWake;
    ghost var es1 := es + [Polled(turn.poll)];
    all := FlushReady(p, turn.poll, written, es);
    wake := ResetTimer(p);
    if turn.Packet? {
      EnqueueAt(p, turn.now, turn.data, es1);
    } else if turn.Done? {
      FlushAt(p, turn.now, es1);
      all := FlushReady(p, turn.last, all, es1 + [Flushed(turn.now)]);
    }
  }

  lemma TurnEvents(turn: Turn, es: seq<Event>)
    ensures var es1 := es + [Polled(turn.poll)];
      es + EventsOf(turn) ==
        if turn.Packet? then es1 + [Enqueued(turn.now, turn.data)]
        else if turn.Done? then es1 + [Flushed(turn.now)] + [Polled(turn.last)]
        else es1
  {
    var es1 := es + [Polled(turn.poll)];
    if turn.Packet? {
      assert es1 + [Enqueued(turn.now, turn.data)] == es + EventsOf(turn);
    } else if turn.Done? {
      assert es1 + [Flushed(turn.now)] + [Polled(turn.last)] == es + EventsOf(turn);
    }
  }

  // ---------- what goes in, and what is left at the end ----------

  /** The packets that the loop took, until it was done. */
  function PacketsOf(turns: seq<Turn>): seq<Arrival> {
    if turns == [] || turns[0].Done? then []
    else (if turns[0].Packet? then [Arrival(turns[0].now, turns[0].data)] else []) + PacketsOf(turns[1..])
  }

  lemma {:induction false} ArrivalsConcat(es: seq<Event>, fs: seq<Event>)
    ensures Arrivals(es + fs) == Arrivals(es) + Arrivals(fs)
  {
    if fs == [] {
      assert es + fs == es;
    } else {
      assert (es + fs)[..|es + fs| - 1] == es + fs[..|fs| - 1];
      ArrivalsConcat(es, fs[..|fs| - 1]);
    }
  }

  lemma ArrivalsOne(e: Event)
    ensures Arrivals([e]) == if e.Enqueued? then [Arrival(e.now, e.data)] else []
  {
    assert [e][..0] == [];
  }

  lemma TurnArrivals(t: Turn)
    ensures Arrivals(EventsOf(t)) == if t.Packet? then [Arrival(t.now, t.data)] else []
  {
    hide Arrivals;
    ArrivalsOne(Polled(t.poll));
    match t
    case Packet(poll, now, data) =>
      ArrivalsOne(Enqueued(now, data));
      ArrivalsConcat([Polled(poll)], [Enqueued(now, data)]);
      assert EventsOf(t) == [Polled(poll)] + [Enqueued(now, data)];
    case Timer(poll) =>
    case Done(poll, now, last) =>
      ArrivalsOne(Flushed(now));
      ArrivalsOne(Polled(last));
      ArrivalsConcat([Polled(poll)], [Flushed(now)]);
      ArrivalsConcat([Polled(poll)] + [Flushed(now)], [Polled(last)]);
      assert EventsOf(t) == [Polled(poll)] + [Flushed(now)] + [Polled(last)];
  }

  /** Every packet that the loop takes is enqueued, once and in order, and nothing else is. */
  lemma {:induction false} PacketsEnter(turns: seq<Turn>)
    ensures Arrivals(Events(turns)) == PacketsOf(turns)
  {
    if turns != [] {
      TurnArrivals(turns[0]);
      PacketsEnter(turns[1..]);
      ArrivalsConcat(EventsOf(turns[0]), if turns[0].Done? then [] else Events(turns[1..]));
    }
  }

  /** When the session is done nothing is held back: of all that was scheduled, exactly what is due by
      the last poll has been written, and the rest is lost. */
  lemma DoneWritesTheDue(c: Config, t: Tape, turns: seq<Turn>, n: nat)
    requires n < |turns| && NoneDone(turns[..n]) && turns[n].Done?
    requires ClockRuns(Events(turns)) && AllFit(c, Events(turns))
    ensures var s := Run(c, t, Events(turns)); var last := turns[n].last;
      && s.core.held.None?
      && s.out == Due(Sort(Items(s.core.log, 0)), last)
      && (forall y :: y in s.out <==> y in Items(s.core.log, 0) && y.releaseAt <= last)
      && (forall y :: y in s.queue <==> y in Items(s.core.log, 0) && y.releaseAt > last)
  {
    DoneEvents(turns, n);
    hide Run, Events, EventsTo, ClockRuns, AllFit, Sort, Due, Items, NoneDone;
    LastWrites(c, t, EventsTo(turns, n), turns[n].now, turns[n].last);
  }

  lemma DoneEvents(turns: seq<Turn>, n: nat)
    requires n < |turns| && NoneDone(turns[..n]) && turns[n].Done?
    ensures Events(turns) == EventsTo(turns, n) + [Flushed(turns[n].now), Polled(turns[n].last)]
  {
    hide Events, EventsOf, NoneDone;
    EventsAfter(turns, n);
    TurnEvents(turns[n], Events(turns[..n]));
    var es, flush, last := EventsTo(turns, n), Flushed(turns[n].now), Polled(turns[n].last);
    assert es + [flush] + [last] == es + [flush, last];
  }

  lemma LastWrites(c: Config, t: Tape, es: seq<Event>, flush: Time, last: Time)
    requires var all := es + [Flushed(flush), Polled(last)]; ClockRuns(all) && AllFit(c, all)
    ensures var s := Run(c, t, es + [Flushed(flush), Polled(last)]);
      && s.core.held.None?
      && s.out == Due(Sort(Items(s.core.log, 0)), last)
      && (forall y :: y in s.out <==> y in Items(s.core.log, 0) && y.releaseAt <= last)
      && (forall y :: y in s.queue <==> y in Items(s.core.log, 0) && y.releaseAt > last)
  {
    hide Run, ClockRuns, AllFit, Sort, Due, Sorted, Items;
    var all := es + [Flushed(flush), Polled(last)];
    var s := Run(c, t, all);
    ShutdownLoses(c, t, es, flush, last);
    OutputIsDue(c, t, all, last);
    forall y ensures y in s.out <==> y in Items(s.core.log, 0) && y.releaseAt <= last {
      DueOfSchedule(Items(s.core.log, 0), last, y);
    }
  }

  lemma DueOfSchedule(items: seq<Item>, now: Time, y: Item)
    ensures y in Due(Sort(items), now) <==> y in items && y.releaseAt <= now
  {
    PollIndependence.DueMember(Sort(items), now, y);
    PollIndependence.SortKeeps(items, y);
  }

  // ---------- the timer ----------

  /** Timer turns happen only when the timer was armed, and the next poll comes when it has fired. */
  ghost predicate Fired(c: Config, t: Tape, turns: seq<Turn>) {
    forall i :: 0 <= i && i + 1 < |turns| && turns[i].Timer? ==> FiredAt(c, t, turns, i)
  }

  ghost predicate FiredAt(c: Config, t: Tape, turns: seq<Turn>, i: nat)
    requires i + 1 < |turns|
  {
    WakeOf(c, t, turns, i).Some? && WakeOf(c, t, turns, i).value <= turns[i + 1].poll
  }

  lemma TimerWorks(c: Config, t: Tape, turns: seq<Turn>, i: nat)
    requires i + 1 < |turns| && NoneDone(turns[..i]) && turns[i].Timer? && FiredAt(c, t, turns, i)
    ensures WakeUps.Work(Run(c, t, EventsTo(turns, i + 1))) < WakeUps.Work(Run(c, t, EventsTo(turns, i)))
  {
    hide Run, Step, WakeUps.Work, WakeUps.NextWake;
    EventsAfter(turns, i);
    var es, next := EventsTo(turns, i), turns[i + 1].poll;
    assert EventsTo(turns, i + 1) == es + [Polled(next)];
    RunAppend(c, t, es, Polled(next));
    PipelineHistory.RunQueued(c, t, es);
    WakeUps.WakingPollWorks(c, t, Run(c, t, es), next);
  }

  /** Each turn that the timer ends makes progress, so without packets the timer fires at most once per
      queued copy and twice for a held one, counted after the first of these polls. */
  lemma {:induction false} TimersStop(c: Config, t: Tape, turns: seq<Turn>, a: nat, b: nat)
    requires a <= b < |turns| && NoneDone(turns[..b]) && Fired(c, t, turns)
    requires forall i :: a <= i < b ==> turns[i].Timer?
    ensures b - a + WakeUps.Work(Run(c, t, EventsTo(turns, b))) <= WakeUps.Work(Run(c, t, EventsTo(turns, a)))
    ensures b - a <= |Run(c, t, EventsTo(turns, a)).queue| + 2
    decreases b - a
  {
    hide Run, EventsTo;
    if a < b {
      assert FiredAt(c, t, turns, a);
      assert forall j :: 0 <= j < a ==> turns[..a][j] == turns[..b][j];
      TimerWorks(c, t, turns, a);
      TimersStop(c, t, turns, a + 1, b);
    }
  }

  lemma OutUnchanged(c: Config, t: Tape, s: State, e: Event)
    requires !e.Polled?
    ensures Step(c, t, s, e).out == s.out
  {
    StepOut(c, t, s, e);
  }
}
