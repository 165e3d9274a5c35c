/** Publishing in any interleaving: a snapshot of the subscribers, then one channel operation at a
    time, while sessions come and go, writers take frames and contexts end. */
module Fanout {
  import opened Common
  import opened Wire
  import WireStream
  import opened BrokerIndex
  import opened BrokerSessions

  datatype Surface = Datagram | Stream

  /** A publishing loop, `datagramReader` or `readControl` of a session; and likewise one of a
      session's two channels, `outDatagram` or `outStream`. */
  datatype Lane = Lane(session: SessionId, surface: Surface)

  function Depth(s: Surface): nat { if s.Datagram? then 128 else 32 }

  /** Publication number `no` of loop `sender`. */
  datatype Message = Message(sender: Lane, no: nat, frame: Frame)

  /** A channel, with everything ever sent to it and received from it by the writer. */
  datatype Channel = Channel(queue: seq<Message>, pushed: seq<Message>, taken: seq<Message>)

  const EmptyChannel := Channel([], [], [])

  /** Where `enqueueDatagram` stands: before its first select, having found the channel full, or in
      its last select. A stream loop only ever stands at `Trying`. */
  datatype Stage = Trying | Full(target: SessionId) | Waiting(target: SessionId)

  /** A `Publish` call between its snapshot and its return. */
  datatype Job = Job(remaining: set<SessionId>, stage: Stage)

  datatype Publication = Publication(frame: Frame, to: set<SessionId>)

  datatype Fabric = Fabric(
    base: Sys,
    jobs: map<Lane, Job>,
    history: map<Lane, seq<Publication>>,
    channels: map<Lane, Channel>,
    done: set<SessionId>,
    abandoned: set<(Lane, nat, SessionId)>)

  const NewFabric := Fabric(Init, map[], map[], map[], {}, {})

  function ChannelOf(x: Fabric, k: Lane): Channel { if k in x.channels then x.channels[k] else EmptyChannel }

  function HistoryOf(x: Fabric, l: Lane): seq<Publication> { if l in x.history then x.history[l] else [] }

  /** The number of a loop's latest publication. */
  function LastNo(x: Fabric, l: Lane): nat { if HistoryOf(x, l) == [] then 0 else |HistoryOf(x, l)| - 1 }

  datatype Move =
    | Control(session: SessionId, action: Action)
    | PublishStream(session: SessionId, unread: Bytes)
    | PublishDatagram(session: SessionId, data: Bytes)
    | TryPush(loop: Lane, target: SessionId)
    | DropOldest(loop: Lane)
    | PushWaiting(loop: Lane)
    | Abandon(loop: Lane, target: SessionId)
    | Return(loop: Lane)
    | Take(lane: Lane)
    | EndContext(session: SessionId)

  predicate HasRoom(x: Fabric, k: Lane) { |ChannelOf(x, k).queue| < Depth(k.surface) }

  predicate CanPublish(x: Fabric, l: Lane) { l.session in x.base.sessions && l !in x.jobs }

  /** What `readControl` reads next from the bytes that are still unread. */
  function NextFrame(unread: Bytes): Result<Frame, WireStream.ReadError> { WireStream.ReadFrame(unread).0 }

  predicate Possible(x: Fabric, m: Move) {
    match m
    case Control(s, a) => Lane(s, Stream) !in x.jobs && Enabled(x.base, s, a)
    case PublishStream(s, unread) =>
      && CanPublish(x, Lane(s, Stream)) && x.base.sessions[s].control.Ready?
      && NextFrame(unread).Ok? && NextFrame(unread).value.kind == KIND_PUB
    case PublishDatagram(s, data) => CanPublish(x, Lane(s, Datagram)) && Receive(data).Accepted?
    case TryPush(l, to) =>
      && l in x.jobs && x.jobs[l].stage.Trying? && to in x.jobs[l].remaining
      && (l.surface.Stream? ==> HasRoom(x, Lane(to, Stream)))
    case DropOldest(l) => l in x.jobs && x.jobs[l].stage.Full?
    case PushWaiting(l) =>
      l in x.jobs && x.jobs[l].stage.Waiting? && HasRoom(x, Lane(x.jobs[l].stage.target, l.surface))
    case Abandon(l, to) =>
      && l in x.jobs && to in x.done && to in x.jobs[l].remaining
      && (if l.surface.Stream? then x.jobs[l].stage.Trying? else x.jobs[l].stage == Waiting(to))
    case Return(l) => l in x.jobs && x.jobs[l].remaining == {}
    case Take(k) => ChannelOf(x, k).queue != []
    case EndContext(_) => true
  }

  /** The snapshot of `Publish`. */
  function Begin(x: Fabric, l: Lane, f: Frame): Fabric {
    var to := Subscribers(x.base.index, f.topic);
    x.(jobs := x.jobs[l := Job(to, Trying)],
       history := x.history[l := HistoryOf(x, l) + [Publication(f, to)]])
  }

  /** A send that succeeds, and the loop going on to its next subscriber. */
  function Push(x: Fabric, l: Lane, to: SessionId): Fabric
    requires l in x.jobs
  {
    var h := HistoryOf(x, l);
    var k := Lane(to, l.surface);
    var ch := ChannelOf(x, k);
    if h == [] then x
    else
      var m := Message(l, LastNo(x, l), h[|h| - 1].frame);
      x.(channels := x.channels[k := Channel(ch.queue + [m], ch.pushed + [m], ch.taken)],
         jobs := x.jobs[l := Job(x.jobs[l].remaining - {to}, Trying)])
  }

  function Do(x: Fabric, m: Move): Fabric
    requires Possible(x, m)
  {
    match m
    case Control(s, a) => x.(base := Act(x.base, s, a))
    case PublishStream(s, unread) => Begin(x, Lane(s, Stream), NextFrame(unread).value)
    case PublishDatagram(s, data) => Begin(x, Lane(s, Datagram), Receive(data).frame)
    case TryPush(l, to) =>
      if HasRoom(x, Lane(to, l.surface)) then Push(x, l, to)
      else x.(jobs := x.jobs[l := x.jobs[l].(stage := Full(to))])
    case DropOldest(l) =>
      var to := x.jobs[l].stage.target;
      var k := Lane(to, l.surface);
      var ch := ChannelOf(x, k);
      x.(channels := if ch.queue == [] then x.channels else x.channels[k := ch.(queue := ch.queue[1..])],
         jobs := x.jobs[l := x.jobs[l].(stage := Waiting(to))])
    case PushWaiting(l) => Push(x, l, x.jobs[l].stage.target)
    case Abandon(l, to) =>
      x.(jobs := x.jobs[l := Job(x.jobs[l].remaining - {to}, Trying)],
         abandoned := x.abandoned + {(l, LastNo(x, l), to)})
    case Return(l) => x.(jobs := x.jobs - {l})
    case Take(k) =>
      var ch := ChannelOf(x, k);
      x.(channels := x.channels[k := ch.(queue := ch.queue[1..], taken := ch.taken + [ch.queue[0]])])
    case EndContext(s) => x.(done := x.done + {s})
  }

  /** Any interleaving of moves; what is not possible does not happen. */
  function Play(moves: seq<Move>): Fabric {
    if moves == [] then NewFabric
    else
      var x := Play(moves[..|moves| - 1]);
      var m := moves[|moves| - 1];
      if Possible(x, m) then Do(x, m) else x
  }

  // ---------- channels ----------

  /** `a` is `b` with some elements left out. */
  ghost predicate Within(a: seq<Message>, b: seq<Message>) {
    if a == [] then true
    else if b == [] then false
    else (a[|a| - 1] == b[|b| - 1] && Within(a[..|a| - 1], b[..|b| - 1])) || Within(a, b[..|b| - 1])
  }

  lemma WithinSkip(a: seq<Message>, b: seq<Message>, x: Message)
    requires Within(a, b)
    ensures Within(a, b + [x])
  {
    assert (b + [x])[..|b|] == b;
  }

  lemma WithinTake(a: seq<Message>, b: seq<Message>, x: Message)
    requires Within(a, b)
    ensures Within(a + [x], b + [x])
  {
    assert (a + [x])[..|a|] == a && (b + [x])[..|b|] == b;
  }

  /** The queue is the newest part of what was pushed, within its depth; the writer took some of
      the older part, in order. */
  ghost predicate Fifo(ch: Channel, depth: nat) {
    && |ch.queue| <= depth && |ch.queue| <= |ch.pushed|
    && ch.queue == ch.pushed[|ch.pushed| - |ch.queue|..]
    && Within(ch.taken, ch.pushed[..|ch.pushed| - |ch.queue|])
  }

  lemma PushFifo(ch: Channel, depth: nat, m: Message)
    requires Fifo(ch, depth) && |ch.queue| < depth
    ensures Fifo(Channel(ch.queue + [m], ch.pushed + [m], ch.taken), depth)
  {
    var n := |ch.pushed| - |ch.queue|;
    assert (ch.pushed + [m])[..n] == ch.pushed[..n];
  }

  lemma PopFifo(ch: Channel, depth: nat)
    requires Fifo(ch, depth) && ch.queue != []
    ensures Fifo(ch.(queue := ch.queue[1..]), depth)
    ensures Fifo(ch.(queue := ch.queue[1..], taken := ch.taken + [ch.queue[0]]), depth)
  {
    hide Within;
    var n := |ch.pushed| - |ch.queue|;
    assert ch.pushed[..n + 1] == ch.pushed[..n] + [ch.queue[0]];
    WithinSkip(ch.taken, ch.pushed[..n], ch.queue[0]);
    WithinTake(ch.taken, ch.pushed[..n], ch.queue[0]);
  }

  // ---------- the invariant ----------

  /** Message `m` belongs into channel `k`: its publication exists, goes out on the same surface and
      had the channel's session in its snapshot. */
  ghost predicate Genuine(x: Fabric, k: Lane, m: Message) {
    && m.sender.surface == k.surface
    && m.no < |HistoryOf(x, m.sender)|
    && m.frame == HistoryOf(x, m.sender)[m.no].frame
    && k.session in HistoryOf(x, m.sender)[m.no].to
  }

  ghost predicate InPublishOrder(ms: seq<Message>) {
    forall i, j :: 0 <= i < j < |ms| && ms[i].sender == ms[j].sender ==> ms[i].no < ms[j].no
  }

  ghost predicate ChannelOk(x: Fabric, k: Lane) {
    var ch := ChannelOf(x, k);
    && Fifo(ch, Depth(k.surface))
    && InPublishOrder(ch.pushed)
    && forall m :: m in ch.pushed ==> Genuine(x, k, m)
  }

  /** The publication a loop is working on. */
  ghost predicate Current(x: Fabric, l: Lane, no: nat) {
    l in x.jobs && no == LastNo(x, l)
  }

  ghost predicate Delivered(x: Fabric, l: Lane, no: nat, s: SessionId) {
    exists m :: m in ChannelOf(x, Lane(s, l.surface)).pushed && m.sender == l && m.no == no
  }

  ghost predicate Pending(x: Fabric, l: Lane, no: nat, s: SessionId) {
    Current(x, l, no) && s in x.jobs[l].remaining
  }

  ghost predicate JobOk(x: Fabric, l: Lane) {
    l in x.jobs ==>
      var h, job := HistoryOf(x, l), x.jobs[l];
      && h != [] && job.remaining <= h[|h| - 1].to
      && (!job.stage.Trying? ==> job.stage.target in job.remaining && l.surface.Datagram?)
      && forall s :: s in job.remaining ==> !Delivered(x, l, LastNo(x, l), s)
  }

  /** Each subscriber in a snapshot is still to come, has the message, or was given up. */
  ghost predicate Resolved(x: Fabric, l: Lane, no: nat, s: SessionId) {
    no < |HistoryOf(x, l)| && s in HistoryOf(x, l)[no].to ==>
      Pending(x, l, no, s) || Delivered(x, l, no, s) || (l, no, s) in x.abandoned
  }

  /** The writer of such a channel will find no fault with the frame. */
  predicate CanSend(surface: Surface, f: Frame) {
    if surface.Datagram? then Forward(f).Send? else WireStream.Writable(f)
  }

  ghost predicate Sendable(x: Fabric, l: Lane) {
    forall p :: p in HistoryOf(x, l) ==> CanSend(l.surface, p.frame)
  }

  ghost predicate Ok(x: Fabric) {
    && Consistent(x.base)
    && (forall k :: ChannelOk(x, k))
    && (forall l :: JobOk(x, l))
    && (forall l, no: nat, s :: Resolved(x, l, no, s))
    && (forall l :: Sendable(x, l))
    && (forall e :: e in x.abandoned ==> e.2 in x.done)
  }

  // ---------- moves that touch a job only ----------

  /** `y` differs from `x` in the job of `l` only, which has lost no subscriber. */
  lemma JobOnly(x: Fabric, y: Fabric, l: Lane)
    requires Ok(x) && l in x.jobs && l in y.jobs && y.jobs[l].remaining == x.jobs[l].remaining
    requires !y.jobs[l].stage.Trying? ==> y.jobs[l].stage.target in x.jobs[l].remaining && l.surface.Datagram?
    requires y == x.(jobs := x.jobs[l := y.jobs[l]])
    ensures Ok(y)
  {
    forall k ensures ChannelOk(y, k) {
      assert ChannelOk(x, k);
    }
    forall k ensures JobOk(y, k) {
      assert JobOk(x, k);
    }
    forall k, no: nat, s ensures Resolved(y, k, no, s) {
      assert Resolved(x, k, no, s);
    }
    forall k ensures Sendable(y, k) {
      assert Sendable(x, k);
    }
  }

  /** `y` differs from `x` in one channel only, in which nothing new was pushed. */
  lemma ChannelOnly(x: Fabric, y: Fabric, k: Lane)
    requires Ok(x) && y == x.(channels := x.channels[k := ChannelOf(y, k)])
    requires ChannelOf(y, k).pushed == ChannelOf(x, k).pushed && Fifo(ChannelOf(y, k), Depth(k.surface))
    ensures Ok(y)
  {
    hide Fifo;
    assert forall j :: ChannelOf(y, j).pushed == ChannelOf(x, j).pushed;
    forall j ensures ChannelOk(y, j) {
      assert ChannelOk(x, j);
    }
    forall l ensures JobOk(y, l) {
      assert JobOk(x, l);
    }
    forall l, no: nat, s ensures Resolved(y, l, no, s) {
      assert Resolved(x, l, no, s);
    }
    forall l ensures Sendable(y, l) {
      assert Sendable(x, l);
    }
  }

  // ---------- a successful send ----------

  lemma AppendInOrder(ms: seq<Message>, m: Message)
    requires InPublishOrder(ms) && forall n :: n in ms && n.sender == m.sender ==> n.no < m.no
    ensures InPublishOrder(ms + [m])
  {
    assert forall i :: 0 <= i < |ms| ==> ms[i] in ms;
  }

  /** What a loop has already put into a channel it still has to serve is from earlier publications. */
  lemma EarlierNumbers(x: Fabric, l: Lane, to: SessionId, n: Message)
    requires Ok(x) && l in x.jobs && to in x.jobs[l].remaining
    requires n in ChannelOf(x, Lane(to, l.surface)).pushed && n.sender == l
    ensures n.no < LastNo(x, l)
  {
    hide Fifo, InPublishOrder, Resolved, Sendable, Consistent;
    assert JobOk(x, l) && ChannelOk(x, Lane(to, l.surface));
    assert Genuine(x, Lane(to, l.surface), n);
    assert !Delivered(x, l, LastNo(x, l), to);
  }

  lemma PushChannelOk(x: Fabric, l: Lane, to: SessionId)
    requires Ok(x) && l in x.jobs && to in x.jobs[l].remaining && HasRoom(x, Lane(to, l.surface))
    ensures ChannelOk(Push(x, l, to), Lane(to, l.surface))
  {
    hide Fifo, InPublishOrder, Genuine, Consistent, Resolved, Sendable, Delivered;
    var k := Lane(to, l.surface);
    var ch, h := ChannelOf(x, k), HistoryOf(x, l);
    assert ChannelOk(x, k) && JobOk(x, l);
    var m := Message(l, LastNo(x, l), h[|h| - 1].frame);
    assert ChannelOf(Push(x, l, to), k) == Channel(ch.queue + [m], ch.pushed + [m], ch.taken);
    PushFifo(ch, Depth(k.surface), m);
    forall n | n in ch.pushed && n.sender == m.sender ensures n.no < m.no {
      EarlierNumbers(x, l, to, n);
    }
    AppendInOrder(ch.pushed, m);
    forall n | n in ch.pushed + [m] ensures Genuine(Push(x, l, to), k, n) {
      PushGenuine(x, l, to, n);
    }
  }

  lemma PushGenuine(x: Fabric, l: Lane, to: SessionId, n: Message)
    requires JobOk(x, l) && l in x.jobs && to in x.jobs[l].remaining
    requires Genuine(x, Lane(to, l.surface), n) || n == Message(l, LastNo(x, l), HistoryOf(x, l)[LastNo(x, l)].frame)
    ensures Genuine(Push(x, l, to), Lane(to, l.surface), n)
  {
    hide Delivered;
  }

  /** What a push delivers, and to whom nothing changes. */
  lemma PushDelivers(x: Fabric, l: Lane, to: SessionId, j: Lane, no: nat, s: SessionId)
    requires l in x.jobs && HistoryOf(x, l) != []
    ensures Delivered(Push(x, l, to), j, no, s) <==>
      Delivered(x, j, no, s) || (j == l && s == to && no == LastNo(x, l))
  {
    var y, k := Push(x, l, to), Lane(to, l.surface);
    var h, ch := HistoryOf(x, l), ChannelOf(x, k);
    var m := Message(l, |h| - 1, h[|h| - 1].frame);
    assert ChannelOf(y, k).pushed == ch.pushed + [m];
    assert m in ChannelOf(y, k).pushed;
    assert forall n :: n in ch.pushed ==> n in ChannelOf(y, k).pushed;
    if Lane(s, j.surface) != k {
      assert ChannelOf(y, Lane(s, j.surface)) == ChannelOf(x, Lane(s, j.surface));
    }
  }

  lemma PushOk(x: Fabric, l: Lane, to: SessionId)
    requires Ok(x) && l in x.jobs && to in x.jobs[l].remaining && HasRoom(x, Lane(to, l.surface))
    ensures Ok(Push(x, l, to))
  {
    hide Delivered, Fifo;
    var y := Push(x, l, to);
    assert JobOk(x, l);
    assert y.base == x.base && y.history == x.history && y.abandoned == x.abandoned && y.done == x.done;
    forall j ensures ChannelOk(y, j) {
      if j == Lane(to, l.surface) {
        PushChannelOk(x, l, to);
      } else {
        assert ChannelOk(x, j);
        assert ChannelOf(y, j) == ChannelOf(x, j);
      }
    }
    forall j ensures JobOk(y, j) {
      assert JobOk(x, j);
      forall s ensures Delivered(y, j, LastNo(y, j), s) <==>
        Delivered(x, j, LastNo(x, j), s) || (j == l && s == to) {
        PushDelivers(x, l, to, j, LastNo(x, j), s);
      }
    }
    forall j, no: nat, s ensures Resolved(y, j, no, s) {
      assert Resolved(x, j, no, s);
      PushDelivers(x, l, to, j, no, s);
    }
    forall j ensures Sendable(y, j) {
      assert Sendable(x, j);
    }
  }

  // ---------- snapshot, giving up, returning ----------

  lemma BeginOk(x: Fabric, l: Lane, f: Frame)
    requires Ok(x) && l !in x.jobs && CanSend(l.surface, f)
    ensures Ok(Begin(x, l, f))
  {
    hide Fifo, Subscribers, CanSend;
    var y := Begin(x, l, f);
    var h := HistoryOf(x, l);
    assert HistoryOf(y, l) == h + [Publication(f, Subscribers(x.base.index, f.topic))];
    forall j ensures ChannelOk(y, j) {
      assert ChannelOk(x, j);
      forall m | m in ChannelOf(y, j).pushed ensures Genuine(y, j, m) {
        assert Genuine(x, j, m);
      }
    }
    forall j ensures JobOk(y, j) {
      assert JobOk(x, j);
      if j == l {
        forall s ensures !Delivered(y, l, |h|, s) {
          assert ChannelOk(x, Lane(s, l.surface));
        }
      }
    }
    forall j, no: nat, s ensures Resolved(y, j, no, s) {
      assert Resolved(x, j, no, s);
      assert Delivered(x, j, no, s) ==> Delivered(y, j, no, s);
    }
    forall j ensures Sendable(y, j) {
      assert Sendable(x, j);
    }
  }

  /** `y` differs from `x` in the job of `l`, which dropped `gone`, and in who was given up. */
  lemma GiveUpOk(x: Fabric, y: Fabric, l: Lane, to: SessionId)
    requires Ok(x) && Possible(x, Abandon(l, to)) && y == Do(x, Abandon(l, to))
    ensures Ok(y)
  {
    hide Fifo;
    forall j ensures ChannelOk(y, j) {
      assert ChannelOk(x, j);
    }
    forall j ensures JobOk(y, j) {
      assert JobOk(x, j);
    }
    forall j, no: nat, s ensures Resolved(y, j, no, s) {
      assert Resolved(x, j, no, s);
    }
    forall j ensures Sendable(y, j) {
      assert Sendable(x, j);
    }
  }

  lemma ReturnOk(x: Fabric, y: Fabric, l: Lane)
    requires Ok(x) && Possible(x, Return(l)) && y == Do(x, Return(l))
    ensures Ok(y)
  {
    hide Fifo;
    forall j ensures ChannelOk(y, j) {
      assert ChannelOk(x, j);
    }
    forall j ensures JobOk(y, j) {
      assert JobOk(x, j);
    }
    forall j, no: nat, s ensures Resolved(y, j, no, s) {
      assert Resolved(x, j, no, s);
    }
    forall j ensures Sendable(y, j) {
      assert Sendable(x, j);
    }
  }

  /** Only sessions, or only contexts, moved. */
  lemma OutsideOk(x: Fabric, y: Fabric)
    requires Ok(x) && Consistent(y.base) && x.done <= y.done
    requires y == x.(base := y.base, done := y.done)
    ensures Ok(y)
  {
    hide Fifo, Consistent;
    forall j ensures ChannelOk(y, j) {
      assert ChannelOk(x, j);
    }
    forall j ensures JobOk(y, j) {
      assert JobOk(x, j);
    }
    forall j, no: nat, s ensures Resolved(y, j, no, s) {
      assert Resolved(x, j, no, s);
    }
    forall j ensures Sendable(y, j) {
      assert Sendable(x, j);
    }
  }

  lemma DropOldestOk(x: Fabric, l: Lane)
    requires Ok(x) && Possible(x, DropOldest(l))
    ensures Ok(Do(x, DropOldest(l)))
  {
    hide Fifo, Ok;
    var to := x.jobs[l].stage.target;
    var k := Lane(to, l.surface);
    var ch := ChannelOf(x, k);
    var y := if ch.queue == [] then x else x.(channels := x.channels[k := ch.(queue := ch.queue[1..])]);
    assert Ok(y) by {
      if ch.queue != [] {
        assert Ok(x) ==> ChannelOk(x, k) by { ChannelOfOk(x, k); }
        PopFifo(ch, Depth(k.surface));
        ChannelOnly(x, y, k);
      }
    }
    JobOfOk(y, l);
    JobOnly(y, Do(x, DropOldest(l)), l);
  }

  lemma ChannelOfOk(x: Fabric, k: Lane)
    requires Ok(x)
    ensures ChannelOk(x, k)
  {
  }

  lemma JobOfOk(x: Fabric, l: Lane)
    requires Ok(x)
    ensures JobOk(x, l)
  {
  }

  /** Every move keeps the invariant. */
  lemma DoOk(x: Fabric, m: Move)
    requires Ok(x) && Possible(x, m)
    ensures Ok(Do(x, m))
  {
    hide Ok, Fifo, Consistent, JobOk, ChannelOk, Forward, Receive, WireStream.ReadFrame, WireStream.Writable, Act, Enabled, Begin, Push;
    var y := Do(x, m);
    match m
    case Control(s, a) =>
      assert Consistent(x.base) by { BaseOfOk(x); }
      ActKeepsConsistent(x.base, s, a);
      OutsideOk(x, y);
    case PublishStream(s, unread) =>
      WireStream.ReadFrameNormal(unread);
      BeginOk(x, Lane(s, Stream), NextFrame(unread).value);
    case PublishDatagram(s, data) =>
      AcceptedIsSent(data);
      BeginOk(x, Lane(s, Datagram), Receive(data).frame);
    case TryPush(l, to) =>
      if HasRoom(x, Lane(to, l.surface)) { PushOk(x, l, to); } else { JobOnly(x, y, l); }
    case DropOldest(l) => DropOldestOk(x, l);
    case PushWaiting(l) =>
      TargetRemains(x, l);
      PushOk(x, l, x.jobs[l].stage.target);
    case Abandon(l, to) => GiveUpOk(x, y, l, to);
    case Return(l) => ReturnOk(x, y, l);
    case Take(k) =>
      TakeOk(x, k);
    case EndContext(s) =>
      assert Consistent(x.base) by { BaseOfOk(x); }
      OutsideOk(x, y);
  }

  lemma BaseOfOk(x: Fabric)
    requires Ok(x)
    ensures Consistent(x.base)
  {
  }

  lemma TargetRemains(x: Fabric, l: Lane)
    requires Ok(x) && l in x.jobs && !x.jobs[l].stage.Trying?
    ensures x.jobs[l].stage.target in x.jobs[l].remaining
  {
    assert JobOk(x, l);
  }

  lemma TakeOk(x: Fabric, k: Lane)
    requires Ok(x) && Possible(x, Take(k))
    ensures Ok(Do(x, Take(k)))
  {
    hide Fifo;
    assert ChannelOk(x, k);
    PopFifo(ChannelOf(x, k), Depth(k.surface));
    ChannelOnly(x, Do(x, Take(k)), k);
  }

  lemma {:induction false} PlayOk(moves: seq<Move>)
    ensures Ok(Play(moves))
  {
    hide Ok, Do, Possible;
    if moves == [] {
      NewFabricOk();
    } else {
      PlayOk(moves[..|moves| - 1]);
      var x, m := Play(moves[..|moves| - 1]), moves[|moves| - 1];
      if Possible(x, m) { DoOk(x, m); }
    }
  }

  lemma NewFabricOk()
    ensures Ok(NewFabric)
  {
    hide Consistent, Fifo, Within;
    InitConsistent();
    forall k ensures ChannelOk(NewFabric, k) {
      assert ChannelOf(NewFabric, k) == EmptyChannel;
      EmptyFifo(Depth(k.surface));
    }
  }

  lemma EmptyFifo(depth: nat)
    ensures Fifo(EmptyChannel, depth)
  {
  }

  // ---------- the promises ----------

  /** Fan-out safety and order: a channel is at most its depth long and is the newest part of what
      was pushed to it; the writer takes a subsequence; every message comes from a publication on
      the same surface whose snapshot held this session; no publication is in it twice, and the
      messages of one loop are in publish order. */
  lemma FanoutSafety(moves: seq<Move>, k: Lane)
    ensures var x := Play(moves); var ch := ChannelOf(x, k);
      && |ch.queue| <= (if k.surface.Datagram? then 128 else 32) && |ch.queue| <= |ch.pushed|
      && ch.queue == ch.pushed[|ch.pushed| - |ch.queue|..]
      && Within(ch.taken, ch.pushed[..|ch.pushed| - |ch.queue|])
      && (forall m :: m in ch.pushed ==> Genuine(x, k, m))
      && (forall i, j :: 0 <= i < j < |ch.pushed| && ch.pushed[i].sender == ch.pushed[j].sender
            ==> ch.pushed[i].no < ch.pushed[j].no)
  {
    hide Play;
    PlayOk(moves);
    ChannelOfOk(Play(moves), k);
  }

  lemma {:induction false} WithinPlaces(a: seq<Message>, b: seq<Message>) returns (at: seq<nat>)
    requires Within(a, b)
    ensures |at| == |a| && forall i :: 0 <= i < |a| ==> at[i] < |b| && a[i] == b[at[i]]
    ensures forall i, j :: 0 <= i < j < |a| ==> at[i] < at[j]
    decreases |b|
  {
    if a == [] {
      at := [];
    } else if a[|a| - 1] == b[|b| - 1] && Within(a[..|a| - 1], b[..|b| - 1]) {
      at := WithinPlaces(a[..|a| - 1], b[..|b| - 1]);
      at := at + [|b| - 1];
    } else {
      at := WithinPlaces(a, b[..|b| - 1]);
    }
  }

  /** What a writer takes from its channel was pushed, and is taken in the order of the pushes, none twice. */
  lemma TakenInOrder(moves: seq<Move>, k: Lane) returns (at: seq<nat>)
    ensures var ch := ChannelOf(Play(moves), k);
      && |at| == |ch.taken|
      && (forall i :: 0 <= i < |at| ==> at[i] < |ch.pushed| - |ch.queue| && ch.taken[i] == ch.pushed[at[i]])
      && (forall i, j :: 0 <= i < j < |at| ==> at[i] < at[j])
  {
    hide Play;
    FanoutSafety(moves, k);
    var ch := ChannelOf(Play(moves), k);
    at := WithinPlaces(ch.taken, ch.pushed[..|ch.pushed| - |ch.queue|]);
  }

  /** A publication that has returned reached every session of its snapshot exactly once, except
      sessions whose context has ended. */
  lemma FanoutComplete(moves: seq<Move>, l: Lane, no: nat, s: SessionId)
    requires var x := Play(moves);
      && no < |HistoryOf(x, l)| && s in HistoryOf(x, l)[no].to
      && !(l in x.jobs && no + 1 == |HistoryOf(x, l)|)
    ensures Delivered(Play(moves), l, no, s) || s in Play(moves).done
  {
    hide Play;
    PlayOk(moves);
    assert Resolved(Play(moves), l, no, s);
  }

  lemma PushedCanSend(moves: seq<Move>, k: Lane, m: Message)
    requires m in ChannelOf(Play(moves), k).pushed
    ensures CanSend(k.surface, m.frame)
  {
    hide Play, CanSend;
    var x := Play(moves);
    PlayOk(moves);
    ChannelOfOk(x, k);
    assert Genuine(x, k, m) && Sendable(x, m.sender);
    assert HistoryOf(x, m.sender)[m.no] in HistoryOf(x, m.sender);
  }

  /** Every frame that ever gets into a datagram channel can be sent: `datagramWriter` never finds one
      that does not encode or is too large. */
  lemma DatagramsAreSendable(moves: seq<Move>, s: SessionId, m: Message)
    requires m in ChannelOf(Play(moves), Lane(s, Datagram)).pushed
    ensures Forward(m.frame).Send? && |Forward(m.frame).data| <= MAX_DATAGRAM
  {
    hide Play;
    PushedCanSend(moves, Lane(s, Datagram), m);
  }

  /** Every frame that ever gets into a stream channel can be written, so that `streamWriter` meets no
      encode error, and the stream opened for it reads back as this frame and a clean end. */
  lemma StreamsAreWritable(moves: seq<Move>, s: SessionId, m: Message)
    requires m in ChannelOf(Play(moves), Lane(s, Stream)).pushed
    ensures WireStream.Writable(m.frame)
    ensures WireStream.ReadAll(WireStream.Written(m.frame)) == ([m.frame], WireStream.Eof)
  {
    hide Play, WireStream.Written, WireStream.ReadAll;
    PushedCanSend(moves, Lane(s, Stream), m);
    WireStream.StreamRoundTrip([m.frame]);
    assert WireStream.WriteAll([m.frame]) == WireStream.Written(m.frame);
  }

  // ---------- snapshots ----------

  /** Move `m` is the start of a publication of `f` by loop `l`. */
  predicate Begins(m: Move, l: Lane, f: Frame) {
    match m
    case PublishStream(s, unread) => l == Lane(s, Stream) && NextFrame(unread) == Result.Ok(f)
    case PublishDatagram(s, data) => l == Lane(s, Datagram) && Receive(data) == Accepted(f)
    case _ => false
  }

  /** Move `i` of the run happens, and starts publication `no` of loop `l`, of frame `f`. */
  ghost predicate PublishedAt(moves: seq<Move>, i: nat, l: Lane, no: nat, f: Frame) {
    && i < |moves| && Possible(Play(moves[..i]), moves[i])
    && Begins(moves[i], l, f) && |HistoryOf(Play(moves[..i]), l)| == no
  }

  function Snapshot(x: Fabric, f: Frame): Publication { Publication(f, Subscribers(x.base.index, f.topic)) }

  /** A move changes a loop's history only by starting a publication, with the snapshot of that moment. */
  lemma DoHistory(x: Fabric, m: Move, l: Lane)
    requires Possible(x, m)
    ensures (exists f :: Begins(m, l, f)) || HistoryOf(Do(x, m), l) == HistoryOf(x, l)
    ensures forall f :: Begins(m, l, f) ==> HistoryOf(Do(x, m), l) == HistoryOf(x, l) + [Snapshot(x, f)]
  {
    hide Subscribers, NextFrame, Receive, Act, Enabled, HasRoom, ChannelOf;
    match m
    case PublishStream(s, unread) => assert l == Lane(s, Stream) ==> Begins(m, l, NextFrame(unread).value);
    case PublishDatagram(s, data) => assert l == Lane(s, Datagram) ==> Begins(m, l, Receive(data).frame);
    case _ =>
  }

  /** Every publication in a loop's history was started by a move of the run, with the subscribers of
      that moment. */
  lemma {:induction false} Origin(moves: seq<Move>, l: Lane, no: nat) returns (i: nat, f: Frame)
    requires no < |HistoryOf(Play(moves), l)|
    ensures i < |moves| && PublishedAt(moves, i, l, no, f)
    ensures HistoryOf(Play(moves), l)[no] == Snapshot(Play(moves[..i]), f)
  {
    hide Possible, Do, Begins, Snapshot;
    var n := |moves| - 1;
    var x, m := Play(moves[..n]), moves[n];
    if no < |HistoryOf(x, l)| {
      i, f := Origin(moves[..n], l, no);
      assert moves[..n][..i] == moves[..i];
      if Possible(x, m) { DoHistory(x, m, l); }
    } else {
      DoHistory(x, m, l);
      i := n;
      f :| Begins(m, l, f);
    }
  }

  /** A publication of the run stays in its loop's history. */
  lemma {:induction false} StaysPublished(moves: seq<Move>, i: nat, l: Lane, no: nat, f: Frame)
    requires PublishedAt(moves, i, l, no, f)
    ensures no < |HistoryOf(Play(moves), l)| && HistoryOf(Play(moves), l)[no] == Snapshot(Play(moves[..i]), f)
  {
    hide Possible, Do, Begins, Snapshot;
    var n := |moves| - 1;
    var x, m := Play(moves[..n]), moves[n];
    if i < n {
      assert moves[..n][..i] == moves[..i];
      StaysPublished(moves[..n], i, l, no, f);
    }
    if Possible(x, m) { DoHistory(x, m, l); }
  }

  /** Nobody receives what it did not subscribe to: each message in a channel was published by a move
      of the run on the same surface, and at that moment the channel's session was subscribed to its
      topic, or just giving it up. */
  lemma ReceivedWasSubscribed(moves: seq<Move>, k: Lane, m: Message)
    requires m in ChannelOf(Play(moves), k).pushed
    ensures m.sender.surface == k.surface
    ensures exists i: nat ::
      PublishedAt(moves, i, m.sender, m.no, m.frame) && Subscribed(Play(moves[..i]).base, k.session, m.frame.topic)
  {
    hide Play, PublishedAt;
    PlayOk(moves);
    ChannelOfOk(Play(moves), k);
    assert Genuine(Play(moves), k, m);
    var i, f := Origin(moves, m.sender, m.no);
    SnapshotIsSubscribed(moves[..i], f, k.session);
  }

  /** Session `s` is between control frames and its own set holds `t`. */
  ghost predicate HoldsTopic(x: Sys, s: SessionId, t: Topic) {
    s in x.sessions && x.sessions[s].control.Ready? && t in x.sessions[s].subs
  }

  /** A snapshot holds only sessions that are open and have the topic, or are just giving it up, and
      no session between control frames that has the topic is missing. */
  lemma SnapshotIsSubscribed(moves: seq<Move>, f: Frame, s: SessionId)
    ensures var x := Play(moves);
      && (s in Snapshot(x, f).to ==> Subscribed(x.base, s, f.topic))
      && (HoldsTopic(x.base, s, f.topic) ==> s in Snapshot(x, f).to)
  {
    hide Play;
    PlayOk(moves);
    assert Listed(Play(moves).base, s, f.topic);
  }

  /** Everybody receives what it subscribed to: once a publication has returned, its message got into
      the channel of each session that held the topic when it started, unless the session has ended. */
  lemma SubscribedReceives(moves: seq<Move>, i: nat, l: Lane, no: nat, f: Frame, s: SessionId)
    requires PublishedAt(moves, i, l, no, f) && HoldsTopic(Play(moves[..i]).base, s, f.topic)
    requires !Current(Play(moves), l, no)
    ensures Message(l, no, f) in ChannelOf(Play(moves), Lane(s, l.surface)).pushed || s in Play(moves).done
  {
    var before := moves[..i];
    hide Play, PublishedAt, Snapshot, Fifo;
    var x := Play(moves);
    SnapshotIsSubscribed(before, f, s);
    StaysPublished(moves, i, l, no, f);
    assert HistoryOf(x, l)[no].frame == f && s in HistoryOf(x, l)[no].to by { SnapshotParts(Play(before), f); }
    FanoutComplete(moves, l, no, s);
    if s !in x.done {
      PlayOk(moves);
      ChannelOfOk(x, Lane(s, l.surface));
      var m :| m in ChannelOf(x, Lane(s, l.surface)).pushed && m.sender == l && m.no == no;
      assert Genuine(x, Lane(s, l.surface), m);
      assert m == Message(l, no, f);
    }
  }

  lemma SnapshotParts(x: Fabric, f: Frame)
    ensures Snapshot(x, f).frame == f && Snapshot(x, f).to == Subscribers(x.base.index, f.topic)
  {
  }

  // ---------- subscriptions over whole runs ----------

  /** What the sessions' control loops do in a run. */
  function Controls(moves: seq<Move>): seq<(SessionId, Action)> {
    if moves == [] then []
    else
      var init, m := moves[..|moves| - 1], moves[|moves| - 1];
      Controls(init) + (if m.Control? && Possible(Play(init), m) then [(m.session, m.action)] else [])
  }

  /** Publishing does not touch the index: it is as the control loops alone have left it. */
  lemma {:induction false} BaseIsRun(moves: seq<Move>)
    ensures Play(moves).base == Run(Controls(moves))
  {
    if moves != [] {
      var init, m := moves[..|moves| - 1], moves[|moves| - 1];
      BaseIsRun(init);
      var x := Play(init);
      if Possible(x, m) { DoBase(x, m); }
      hide Do, Run, Act;
      if m.Control? { RunAppend(Controls(init), m.session, m.action); }
      assert Controls(init) + [] == Controls(init);
      hide Enabled, HasRoom;
    }
  }

  lemma DoBase(x: Fabric, m: Move)
    requires Possible(x, m)
    ensures Do(x, m).base == if m.Control? then Act(x.base, m.session, m.action) else x.base
  {
    hide Act, Subscribers, NextFrame, Receive, HasRoom, ChannelOf, Enabled;
  }

  /** Who gets a publication: of the sessions between control frames, exactly those whose last word on
      its topic, before it started, was to subscribe. */
  lemma RecipientsIff(moves: seq<Move>, i: nat, l: Lane, no: nat, f: Frame, s: SessionId)
    requires PublishedAt(moves, i, l, no, f)
    requires s in Play(moves[..i]).base.sessions && Play(moves[..i]).base.sessions[s].control.Ready?
    ensures no < |HistoryOf(Play(moves), l)|
    ensures s in HistoryOf(Play(moves), l)[no].to <==> Wants(Controls(moves[..i]), s, f.topic)
  {
    var before := moves[..i];
    hide Play, PublishedAt, Snapshot, Controls, Run, Wants;
    StaysPublished(moves, i, l, no, f);
    SnapshotParts(Play(before), f);
    BaseIsRun(before);
    ListedIffWanted(Controls(before), s, f.topic);
  }

  // ---------- progress ----------

  /** The publishing loop that makes a move, if it is one of such a loop. */
  function LoopOf(m: Move): Option<Lane> {
    match m
    case TryPush(l, _) => Some(l)
    case DropOldest(l) => Some(l)
    case PushWaiting(l) => Some(l)
    case Abandon(l, _) => Some(l)
    case Return(l) => Some(l)
    case _ => None
  }

  /** A loop waits for room: in the channel it stands at, or as a stream loop in every channel it
      still has to serve; and no session it waits for has ended. */
  predicate Blocked(x: Fabric, l: Lane)
    requires l in x.jobs
  {
    var job := x.jobs[l];
    job.remaining != {} &&
    match job.stage
    case Trying =>
      l.surface.Stream? && forall to :: to in job.remaining ==>
        |ChannelOf(x, Lane(to, Stream)).queue| >= 32 && to !in x.done
    case Full(_) => false
    case Waiting(to) => |ChannelOf(x, Lane(to, Datagram)).queue| >= 128 && to !in x.done
  }

  /** A loop in the middle of a publication has a move if and only if it is not blocked. */
  lemma BlockedIff(moves: seq<Move>, l: Lane)
    requires l in Play(moves).jobs
    ensures Blocked(Play(moves), l) <==> forall m :: LoopOf(m) == Some(l) ==> !Possible(Play(moves), m)
  {
    hide Play, ChannelOk, Resolved, Sendable, Consistent;
    var x := Play(moves);
    PlayOk(moves);
    JobOfOk(x, l);
    var job := x.jobs[l];
    if !Blocked(x, l) {
      var m := OwnMove(x, l);
      assert Possible(x, m);
    }
  }

  /** A possible move of a loop that is not blocked. */
  lemma OwnMove(x: Fabric, l: Lane) returns (m: Move)
    requires l in x.jobs && JobOk(x, l) && !Blocked(x, l)
    ensures LoopOf(m) == Some(l) && Possible(x, m)
  {
    var job := x.jobs[l];
    if job.remaining == {} {
      m := Return(l);
    } else {
      match job.stage
      case Trying =>
        if l.surface.Datagram? {
          var to :| to in job.remaining;
          m := TryPush(l, to);
        } else {
          var to :| to in job.remaining && (|ChannelOf(x, Lane(to, Stream)).queue| < 32 || to in x.done);
          m := if to in x.done then Abandon(l, to) else TryPush(l, to);
        }
      case Full(_) => m := DropOldest(l);
      case Waiting(to) => m := if to in x.done then Abandon(l, to) else PushWaiting(l);
    }
  }

  /** When a session's context ends, nobody stays blocked on it. */
  lemma EndUnblocks(x: Fabric, l: Lane, to: SessionId)
    requires JobOk(x, l) && l in x.jobs && to in x.jobs[l].remaining
    requires x.jobs[l].stage.Waiting? ==> x.jobs[l].stage.target == to
    ensures Possible(x, EndContext(to)) && !Blocked(Do(x, EndContext(to)), l)
  {
  }

  function StageWork(s: Stage): nat { match s case Trying => 2 case Full(_) => 1 case Waiting(_) => 0 }

  function JobWork(j: Job): nat { 1 + 3 * |j.remaining| + StageWork(j.stage) }

  /** What a loop still has to do, at most. */
  function Work(x: Fabric, l: Lane): nat { if l in x.jobs then JobWork(x.jobs[l]) else 0 }

  lemma OneLess(j: Job, s: SessionId)
    requires s in j.remaining
    ensures JobWork(Job(j.remaining - {s}, Trying)) < JobWork(j)
  {
    assert |j.remaining - {s}| == |j.remaining| - 1;
  }

  lemma PushJobs(x: Fabric, l: Lane, to: SessionId)
    requires l in x.jobs && HistoryOf(x, l) != []
    ensures Push(x, l, to).jobs == x.jobs[l := Job(x.jobs[l].remaining - {to}, Trying)]
  {
  }

  /** Each move of a loop is progress, so a publication to `n` sessions takes it at most 3 n + 3 moves. */
  lemma OwnMoveWorks(x: Fabric, m: Move, l: Lane)
    requires Ok(x) && Possible(x, m) && LoopOf(m) == Some(l)
    ensures Work(Do(x, m), l) < Work(x, l)
  {
    assert JobOk(x, l);
    hide Ok, Delivered, ChannelOf, HasRoom, Push;
    var job := x.jobs[l];
    match m
    case TryPush(_, to) =>
      hide JobWork;
      OneLess(job, to);
      PushJobs(x, l, to);
      assert JobWork(job.(stage := Full(to))) < JobWork(job) by { FullIsLess(job, to); }
    case DropOldest(_) => hide JobOk;
    case PushWaiting(_) =>
      hide JobWork;
      OneLess(job, job.stage.target);
      PushJobs(x, l, job.stage.target);
    case Abandon(_, to) =>
      hide JobWork, JobOk;
      OneLess(job, to);
    case Return(_) => hide JobOk;
  }

  lemma FullIsLess(j: Job, to: SessionId)
    requires j.stage.Trying?
    ensures JobWork(j.(stage := Full(to))) < JobWork(j)
  {
  }

  lemma PlayAppend(moves: seq<Move>, m: Move)
    ensures Play(moves + [m]) == if Possible(Play(moves), m) then Do(Play(moves), m) else Play(moves)
  {
    assert (moves + [m])[..|moves|] == moves;
  }

  lemma PushedGrows(x: Fabric, m: Move, k: Lane)
    requires Possible(x, m)
    ensures ChannelOf(x, k).pushed <= ChannelOf(Do(x, m), k).pushed
  {
    hide Subscribers, NextFrame, Receive, Act, Enabled;
  }

  lemma DeliveredStays(x: Fabric, m: Move, l: Lane, no: nat, s: SessionId)
    requires Possible(x, m) && Delivered(x, l, no, s)
    ensures Delivered(Do(x, m), l, no, s)
  {
    PushedGrows(x, m, Lane(s, l.surface));
    hide Do, Possible;
    var k := Lane(s, l.surface);
    var n :| n in ChannelOf(x, k).pushed && n.sender == l && n.no == no;
    assert n in ChannelOf(Do(x, m), k).pushed;
  }

  /** A move of loop `l` other than giving somebody up, or a writer taking a frame. */
  predicate Helps(m: Move, l: Lane) { m.Take? || (LoopOf(m) == Some(l) && !m.Abandon?) }

  /** The loop's publication after a move: each session still to be served is so, or has the message. */
  ghost predicate Serves(x: Fabric, y: Fabric, l: Lane)
    requires l in x.jobs
  {
    && HistoryOf(y, l) == HistoryOf(x, l)
    && (forall s :: s in x.jobs[l].remaining ==>
          (l in y.jobs && s in y.jobs[l].remaining) || Delivered(y, l, LastNo(x, l), s))
  }

  lemma HelpServes(x: Fabric, m: Move, l: Lane)
    requires Ok(x) && l in x.jobs && Possible(x, m) && Helps(m, l)
    ensures Serves(x, Do(x, m), l)
  {
    assert JobOk(x, l);
    hide Ok, Delivered, HasRoom;
    forall s | s in x.jobs[l].remaining
      ensures (l in Do(x, m).jobs && s in Do(x, m).jobs[l].remaining) || Delivered(Do(x, m), l, LastNo(x, l), s)
    {
      match m
      case TryPush(_, to) => PushDelivers(x, l, to, l, LastNo(x, l), s);
      case PushWaiting(_) => PushDelivers(x, l, x.jobs[l].stage.target, l, LastNo(x, l), s);
      case _ =>
    }
  }

  /** A writer that takes a frame makes room, and leaves the loops as they are. */
  lemma TakeMakesRoom(x: Fabric, k: Lane)
    requires ChannelOk(x, k) && !HasRoom(x, k)
    ensures Possible(x, Take(k)) && HasRoom(Do(x, Take(k)), k) && Do(x, Take(k)).jobs == x.jobs
    ensures HistoryOf(Do(x, Take(k)), k) == HistoryOf(x, k)
  {
  }

  /** The next move of a loop that gives nobody up, once the channel in its way has room. */
  lemma NextPush(x: Fabric, l: Lane) returns (m: Move, k: Lane)
    requires l in x.jobs && JobOk(x, l)
    ensures LoopOf(m) == Some(l) && Helps(m, l)
    ensures Possible(x, m) || !HasRoom(x, k)
    ensures forall y: Fabric :: y.jobs == x.jobs && HasRoom(y, k) ==> Possible(y, m)
  {
    var job := x.jobs[l];
    k := l;
    if job.remaining == {} {
      m := Return(l);
    } else {
      match job.stage
      case Trying =>
        var to :| to in job.remaining;
        m, k := TryPush(l, to), Lane(to, l.surface);
      case Full(_) => m := DropOldest(l);
      case Waiting(to) => m, k := PushWaiting(l), Lane(to, l.surface);
    }
  }

  /** One step on the way: a writer takes a frame if the loop needs room, and the loop moves. */
  lemma Advance(moves: seq<Move>, l: Lane) returns (step: seq<Move>)
    requires l in Play(moves).jobs
    ensures forall m :: m in step ==> Helps(m, l)
    ensures Work(Play(moves + step), l) < Work(Play(moves), l)
    ensures Serves(Play(moves), Play(moves + step), l)
    ensures forall no: nat, s :: Delivered(Play(moves), l, no, s) ==> Delivered(Play(moves + step), l, no, s)
  {
    hide Play, Possible, Do, Ok, ChannelOk, JobOk, Delivered, HasRoom, Serves, HistoryOf;
    var x := Play(moves);
    PlayOk(moves);
    JobOfOk(x, l);
    var m, k := NextPush(x, l);
    if Possible(x, m) {
      step := [m];
      PlayAppend(moves, m);
      OwnMoveWorks(x, m, l);
      HelpServes(x, m, l);
      forall no: nat, s | Delivered(x, l, no, s) ensures Delivered(Do(x, m), l, no, s) {
        DeliveredStays(x, m, l, no, s);
      }
    } else {
      ChannelOfOk(x, k);
      TakeMakesRoom(x, k);
      var y := Do(x, Take(k));
      step := [Take(k), m];
      assert moves + step == moves + [Take(k)] + [m];
      PlayAppend(moves, Take(k));
      PlayAppend(moves + [Take(k)], m);
      DoOk(x, Take(k));
      OwnMoveWorks(y, m, l);
      HelpServes(x, Take(k), l);
      HelpServes(y, m, l);
      forall no: nat, s | Delivered(x, l, no, s) ensures Delivered(y, l, no, s) {
        DeliveredStays(x, Take(k), l, no, s);
      }
      forall no: nat, s | Delivered(y, l, no, s) ensures Delivered(Do(y, m), l, no, s) {
        DeliveredStays(y, m, l, no, s);
      }
      ServesTwice(x, y, Do(y, m), l);
    }
  }

  lemma ServesTwice(x: Fabric, y: Fabric, z: Fabric, l: Lane)
    requires l in x.jobs && l in y.jobs && Serves(x, y, l) && Serves(y, z, l)
    requires forall no: nat, s :: Delivered(y, l, no, s) ==> Delivered(z, l, no, s)
    ensures Serves(x, z, l)
  {
    hide Delivered;
  }

  /** No deadlock: from every reachable state a publication under way can return, by moves of its own
      loop and of writers alone, with its message in the channel of each session still to be served. */
  lemma {:induction false} CanAlwaysReturn(moves: seq<Move>, l: Lane) returns (more: seq<Move>)
    requires l in Play(moves).jobs
    ensures forall m :: m in more ==> Helps(m, l)
    ensures l !in Play(moves + more).jobs
    ensures forall s :: s in Play(moves).jobs[l].remaining ==>
      Delivered(Play(moves + more), l, LastNo(Play(moves), l), s)
    ensures forall no: nat, s :: Delivered(Play(moves), l, no, s) ==> Delivered(Play(moves + more), l, no, s)
    decreases Work(Play(moves), l)
  {
    hide Play, Delivered, Work, HistoryOf, Helps;
    var step := Advance(moves, l);
    if l in Play(moves + step).jobs {
      var rest := CanAlwaysReturn(moves + step, l);
      more := step + rest;
      assert moves + more == moves + step + rest;
    } else {
      more := step;
    }
  }

  /** Move `e` publishes `f` from loop `l`: a datagram of up to 1024 bytes, or the next frame of a control
      stream, that decodes to `f` and is of kind 1. */
  predicate Carries(e: Move, l: Lane, f: Frame) {
    && f.kind == 1
    && match e
       case PublishDatagram(p, data) => l == Lane(p, Datagram) && |data| <= 1024 && Decode(data) == Result.Ok(f)
       case PublishStream(p, unread) => l == Lane(p, Stream) && WireStream.ReadFrame(unread).0 == Result.Ok(f)
       case _ => false
  }

  /** Sessions `s` and `l.session` are open and between control frames, and the loop `l` is idle. */
  predicate AtRest(x: Fabric, s: SessionId, l: Lane) {
    && s in x.base.sessions && x.base.sessions[s].control.Ready? && Lane(s, Stream) !in x.jobs
    && l.session in x.base.sessions && l !in x.jobs
    && (l.surface.Stream? ==> x.base.sessions[l.session].control.Ready?)
  }

  /** From every reachable state: a session between control frames can subscribe, and another, or the
      same, can then publish to it, by datagram or on its stream, and the message gets there. */
  lemma SubscribeAndReceive(moves: seq<Move>, s: SessionId, e: Move, l: Lane, f: Frame) returns (more: seq<Move>)
    requires AtRest(Play(moves), s, l) && Carries(e, l, f)
    ensures Delivered(Play(moves + more), l, |HistoryOf(Play(moves), l)|, s)
  {
    var start := [Control(s, SubscribeLocal(f.topic)), Control(s, SubscribeBroker), e];
    SubscribeAndStart(moves, s, e, l, f);
    hide Play, Delivered, HistoryOf;
    var rest := CanAlwaysReturn(moves + start, l);
    more := start + rest;
    assert moves + more == moves + start + rest;
  }

  /** Both critical sections of a subscription, with nobody in between. */
  lemma SubscribeFirst(moves: seq<Move>, s: SessionId, l: Lane, t: Topic)
    requires AtRest(Play(moves), s, l)
    ensures var y := Play(moves + [Control(s, SubscribeLocal(t)), Control(s, SubscribeBroker)]);
      && AtRest(y, s, l) && s in Subscribers(y.base.index, t) && y.history == Play(moves).history
  {
    hide Play, Add, Subscribers;
    var a, b := Control(s, SubscribeLocal(t)), Control(s, SubscribeBroker);
    assert moves + [a, b] == moves + [a] + [b];
    PlayAppend(moves, a);
    PlayAppend(moves + [a], b);
    PlayOk(moves + [a] + [b]);
    assert Listed(Play(moves + [a] + [b]).base, s, t);
  }

  lemma SubscribeAndStart(moves: seq<Move>, s: SessionId, e: Move, l: Lane, f: Frame)
    requires AtRest(Play(moves), s, l) && Carries(e, l, f)
    ensures var y := Play(moves + [Control(s, SubscribeLocal(f.topic)), Control(s, SubscribeBroker), e]);
      l in y.jobs && s in y.jobs[l].remaining && LastNo(y, l) == |HistoryOf(Play(moves), l)|
  {
    hide Play, Decode, WireStream.ReadFrame, Subscribers;
    var start := [Control(s, SubscribeLocal(f.topic)), Control(s, SubscribeBroker)];
    SubscribeFirst(moves, s, l, f.topic);
    assert moves + [start[0], start[1], e] == moves + start + [e];
    PlayAppend(moves + start, e);
  }
}
