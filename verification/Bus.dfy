/** The event router as a state machine. Each step is one atomic action of the original:
    a stretch of a publish call between its lock and await points, one queue operation of
    the write-behind task, one store append, one confirmation, a subscription event, or a
    daemon restart. A step that is not enabled leaves the state alone, so every sequence of
    steps is a run and every interleaving is one. */
module Bus {
  import opened Envelopes
  import opened HeaderFilters
  import R = Ring
  import Sink
  import RecentIds

  const MAX_BATCH: nat := 64

  datatype Config = Config(
    ringCapacity: nat,
    ringByteBudget: nat,
    subscriberBuffer: nat,
    writeBehindBuffer: nat,
    recentCapacity: nat)
  {
    /** The configured value, or one if that is zero. */
    function RingCapacity(): (n: nat)
      ensures n >= 1 && n >= ringCapacity && (n == 1 || n == ringCapacity)
    {
      if ringCapacity >= 1 then ringCapacity else 1
    }

    function SubscriberBuffer(): (n: nat)
      ensures n >= 1 && n >= subscriberBuffer && (n == 1 || n == subscriberBuffer)
    {
      if subscriberBuffer >= 1 then subscriberBuffer else 1
    }

    function WriteBehindBuffer(): (n: nat)
      ensures n >= 1 && n >= writeBehindBuffer && (n == 1 || n == writeBehindBuffer)
    {
      if writeBehindBuffer >= 1 then writeBehindBuffer else 1
    }
  }

  /** Where a publish call stands. */
  datatype Pc =
    | Probing    // id marked, store not yet asked (publish_if_new only)
    | Admitted   // about to reserve persistence capacity
    | Reserved   // permit held when durable
    | Stamped    // sequence number assigned
    | Recorded   // id in the recent window
    | Pushed     // in the ring and fanned out, permit not yet filled
    | Sent       // write-behind entry queued

  datatype Call = Call(env: Envelope, ifNew: bool, pc: Pc)

  /** The write-behind task: filling a batch, storing it, or unpinning it. */
  datatype Writer = Collecting | Writing(done: nat) | Marking(done: nat)

  /** A live registration. `since` is how many events its channel had shown when it began. */
  datatype Sub = Sub(
    filter: Filter,
    queue: seq<Envelope>,
    received: seq<Envelope>,
    lagged: bool,
    closed: bool,
    since: nat)

  type PerRoom<T> = map<RoomId, seq<T>>

  /** What happened so far; read by no step. All but `ever` describe the current daemon: they
      begin with what the store kept when it started. */
  datatype History = History(
    log: PerRoom<Envelope>,       // stored at the start, then every event put in a ring, in lock order
    shown: PerRoom<Envelope>,     // stored at the start, then every event fanned out, in lock order
    sent: PerRoom<Envelope>,      // stored at the start, then every event queued for the writer, in order
    marked: PerRoom<Envelope>,    // stored at the start, then every event confirmed, in order
    accepted: set<EventId>,       // ids of events stored at the start and of shown events
    published: seq<EventId>,      // ids of calls that returned Published since the start
    ever: PerRoom<Envelope>)      // every event put in a ring by this daemon or an earlier one

  datatype State = State(
    epoch: nat,
    counter: nat,
    recent: seq<EventId>,
    rings: PerRoom<R.Slot>,
    sink: PerRoom<Envelope>,
    calls: map<nat, Call>,
    queue: seq<Envelope>,
    batch: seq<Envelope>,
    writer: Writer,
    subs: map<nat, Sub>,
    nextSub: nat,
    shed: nat,
    past: History)

  function At<T>(m: PerRoom<T>, room: RoomId): seq<T> {
    if room in m then m[room] else []
  }

  datatype Step =
    | StartPublish(call: nat, env: Envelope)
    | StartIfNew(call: nat, env: Envelope)
    | Probe(call: nat, failed: bool)
    | Reserve(call: nat, gone: bool)
    | Stamp(call: nat, now: nat)
    | Record(call: nat)
    | Push(call: nat)
    | Send(call: nat)
    | Finish(call: nat)
    | Collect
    | BeginWrite
    | AppendNext
    | AppendFail
    | BeginMark
    | MarkNext
    | Subscribe(filter: Filter)
    | Receive(sub: nat)
    | CloseReceiver(sub: nat)
    | Unregister(sub: nat)
    | Restart(seed: nat)

  predicate Stored(sink: PerRoom<Envelope>, id: EventId) {
    exists room :: room in sink && Sink.HasId(sink[room], id)
  }

  ghost function StoredIds(sink: PerRoom<Envelope>): set<EventId> {
    set room, e | room in sink && e in sink[room] :: e.eventId
  }

  /** The call holds a reserved slot of the write-behind queue. */
  predicate HoldsPermit(c: Call) {
    c.env.delivery.Durable? && (c.pc.Reserved? || c.pc.Stamped? || c.pc.Recorded? || c.pc.Pushed?)
  }

  function Permits(calls: map<nat, Call>): set<nat> {
    set t | t in calls && HoldsPermit(calls[t])
  }

  predicate CallAt(s: State, t: nat, pc: Pc) {
    t in s.calls && s.calls[t].pc == pc
  }

  function MoveTo(s: State, t: nat, pc: Pc): State
    requires t in s.calls
  {
    s.(calls := s.calls[t := s.calls[t].(pc := pc)])
  }

  function Grow<T>(m: PerRoom<T>, room: RoomId, x: T): PerRoom<T> {
    m[room := At(m, room) + [x]]
  }

  // ---------------------------------------------------------------- publishing

  function DoStartPublish(s: State, t: nat, env: Envelope): State {
    if t in s.calls then s else s.(calls := s.calls[t := Call(env, false, Admitted)])
  }

  /** A recent id is a duplicate at once; otherwise it is marked before the store is asked. */
  function DoStartIfNew(cfg: Config, s: State, t: nat, env: Envelope): State {
    if t in s.calls || env.eventId in s.recent then s
    else s.(calls := s.calls[t := Call(env, true, Probing)],
            recent := RecentIds.Record(s.recent, env.eventId, cfg.recentCapacity))
  }

  /** A call that gives up: a marked id is unmarked, nothing else is touched. */
  function Abandon(s: State, t: nat): State
    requires t in s.calls
  {
    s.(calls := s.calls - {t},
       recent := if s.calls[t].ifNew then RecentIds.Forget(s.recent, s.calls[t].env.eventId) else s.recent)
  }

  function DoProbe(s: State, t: nat, failed: bool): State {
    if !CallAt(s, t, Probing) then s
    else if failed then Abandon(s, t)
    else if Stored(s.sink, s.calls[t].env.eventId) then s.(calls := s.calls - {t})
    else MoveTo(s, t, Admitted)
  }

  function DoReserve(cfg: Config, s: State, t: nat, gone: bool): State {
    if !CallAt(s, t, Admitted) then s
    else if !s.calls[t].env.delivery.Durable? then MoveTo(s, t, Reserved)
    else if gone then Abandon(s, t)
    else if |s.queue| + |Permits(s.calls)| >= cfg.WriteBehindBuffer() then Abandon(s, t).(shed := s.shed + 1)
    else MoveTo(s, t, Reserved)
  }

  function StampEnv(s: State, env: Envelope, now: nat): Envelope {
    env.(stamp := Seq(s.epoch, s.counter), occurredAtMs := now)
  }

  function DoStamp(s: State, t: nat, now: nat): State {
    if !CallAt(s, t, Reserved) then s
    else s.(calls := s.calls[t := Call(StampEnv(s, s.calls[t].env, now), s.calls[t].ifNew, Stamped)],
            counter := s.counter + 1)
  }

  function DoRecord(cfg: Config, s: State, t: nat): State {
    if !CallAt(s, t, Stamped) then s
    else MoveTo(s, t, Recorded).(recent := RecentIds.Record(s.recent, s.calls[t].env.eventId, cfg.recentCapacity))
  }

  /** One live push: skipped when unmatched or closed, dropped and flagged when full. */
  function Offer(cfg: Config, sub: Sub, e: Envelope): Sub {
    if !sub.filter.Matches(e) || sub.closed then sub
    else if |sub.queue| >= cfg.SubscriberBuffer() then sub.(lagged := true)
    else sub.(queue := sub.queue + [e])
  }

  ghost function PushRings(cfg: Config, rings: PerRoom<R.Slot>, e: Envelope): PerRoom<R.Slot> {
    if e.delivery.EphemeralLatest? then rings
    else rings[e.channel := R.Pushed(At(rings, e.channel), e, cfg.RingCapacity(), cfg.ringByteBudget)]
  }

  function PushPast(past: History, e: Envelope): History {
    past.(log := if e.delivery.EphemeralLatest? then past.log else Grow(past.log, e.channel, e),
          shown := Grow(past.shown, e.channel, e),
          accepted := past.accepted + {e.eventId},
          ever := if e.delivery.EphemeralLatest? then past.ever else Grow(past.ever, e.channel, e))
  }

  function OfferAll(cfg: Config, subs: map<nat, Sub>, e: Envelope): map<nat, Sub> {
    map k | k in subs :: Offer(cfg, subs[k], e)
  }

  /** Under the shard lock: ring the event unless it coalesces, and fan it out. */
  ghost function DoPush(cfg: Config, s: State, t: nat): State {
    if !CallAt(s, t, Recorded) then s
    else
      var e := s.calls[t].env;
      MoveTo(s, t, Pushed).(
        rings := PushRings(cfg, s.rings, e),
        subs := OfferAll(cfg, s.subs, e),
        past := PushPast(s.past, e))
  }

  function DoSend(s: State, t: nat): State {
    if !CallAt(s, t, Pushed) || !s.calls[t].env.delivery.Durable? then s
    else
      var e := s.calls[t].env;
      MoveTo(s, t, Sent).(queue := s.queue + [e], past := s.past.(sent := Grow(s.past.sent, e.channel, e)))
  }

  function DoFinish(s: State, t: nat): State {
    if t in s.calls && (s.calls[t].pc.Sent? || (s.calls[t].pc.Pushed? && !s.calls[t].env.delivery.Durable?))
    then s.(calls := s.calls - {t}, past := s.past.(published := s.past.published + [s.calls[t].env.eventId]))
    else s
  }

  // ---------------------------------------------------------------- writing behind

  function DoCollect(s: State): State {
    if s.writer.Collecting? && s.queue != [] && |s.batch| < MAX_BATCH
    then s.(batch := s.batch + [s.queue[0]], queue := s.queue[1..])
    else s
  }

  function DoBeginWrite(s: State): State {
    if s.writer.Collecting? && s.batch != [] then s.(writer := Writing(0)) else s
  }

  /** The next append of the batch succeeds. */
  function DoAppendNext(s: State): State {
    if s.writer.Writing? && s.writer.done < |s.batch| then
      var e := s.batch[s.writer.done];
      s.(sink := s.sink[e.channel := Sink.Appended(At(s.sink, e.channel), e)], writer := Writing(s.writer.done + 1))
    else s
  }

  /** The attempt fails part way: the same batch is retried from its start. */
  function DoAppendFail(s: State): State {
    if s.writer.Writing? then s.(writer := Writing(0)) else s
  }

  function DoBeginMark(s: State): State {
    if s.writer.Writing? && s.batch != [] && s.writer.done == |s.batch| then s.(writer := Marking(0)) else s
  }

  ghost function MarkRings(cfg: Config, rings: PerRoom<R.Slot>, e: Envelope): PerRoom<R.Slot> {
    if e.channel !in rings then rings
    else rings[e.channel := R.Marked(rings[e.channel], e.eventId, cfg.RingCapacity(), cfg.ringByteBudget)]
  }

  ghost function DoMarkNext(cfg: Config, s: State): State {
    if s.writer.Marking? && s.writer.done < |s.batch| then
      var e := s.batch[s.writer.done];
      var last := s.writer.done + 1 == |s.batch|;
      s.(rings := MarkRings(cfg, s.rings, e),
         past := s.past.(marked := Grow(s.past.marked, e.channel, e)),
         writer := if last then Collecting else Marking(s.writer.done + 1),
         batch := if last then [] else s.batch)
    else s
  }

  // ---------------------------------------------------------------- subscribing

  function DoSubscribe(s: State, filter: Filter): State {
    s.(subs := s.subs[s.nextSub := Sub(filter, [], [], false, false, |At(s.past.shown, filter.channel)|)],
       nextSub := s.nextSub + 1)
  }

  function DoReceive(s: State, k: nat): State {
    if k in s.subs && s.subs[k].queue != []
    then s.(subs := s.subs[k := s.subs[k].(queue := s.subs[k].queue[1..],
                                           received := s.subs[k].received + [s.subs[k].queue[0]])])
    else s
  }

  function DoCloseReceiver(s: State, k: nat): State {
    if k in s.subs then s.(subs := s.subs[k := s.subs[k].(closed := true)]) else s
  }

  // ---------------------------------------------------------------- runs

  /** A new daemon over what the store kept: memory is gone, the epoch is bumped. */
  ghost function Fresh(epoch: nat, seed: nat, sink: PerRoom<Envelope>, ever: PerRoom<Envelope>): State {
    State(epoch, seed, [], map[], sink, map[], [], [], Collecting, map[], 1, 0,
          History(sink, sink, sink, sink, StoredIds(sink), [], ever))
  }

  predicate WriterStep(step: Step) {
    step.Collect? || step.BeginWrite? || step.AppendNext? || step.AppendFail? || step.BeginMark? || step.MarkNext?
  }

  predicate SubStep(step: Step) {
    step.Subscribe? || step.Receive? || step.CloseReceiver? || step.Unregister?
  }

  /** A publish call moving anywhere but through the shard lock. */
  predicate CallStep(step: Step) {
    !WriterStep(step) && !SubStep(step) && !step.Push? && !step.Restart?
  }

  ghost function ApplyCall(cfg: Config, s: State, step: Step): State
    requires CallStep(step)
  {
    match step
    case StartPublish(t, env) => DoStartPublish(s, t, env)
    case StartIfNew(t, env) => DoStartIfNew(cfg, s, t, env)
    case Probe(t, failed) => DoProbe(s, t, failed)
    case Reserve(t, gone) => DoReserve(cfg, s, t, gone)
    case Stamp(t, now) => DoStamp(s, t, now)
    case Record(t) => DoRecord(cfg, s, t)
    case Send(t) => DoSend(s, t)
    case Finish(t) => DoFinish(s, t)
  }

  /** The writer touches only its pipeline, the store and, when confirming, the rings. */
  ghost function ApplyWriter(cfg: Config, s: State, step: Step): (r: State)
    requires WriterStep(step)
    ensures r == s.(sink := r.sink, queue := r.queue, batch := r.batch, writer := r.writer, rings := r.rings, past := r.past)
    ensures r.past == s.past.(marked := r.past.marked)
    ensures !step.MarkNext? ==> r.rings == s.rings && r.past == s.past
    ensures !step.AppendNext? ==> r.sink == s.sink
  {
    match step
    case Collect => DoCollect(s)
    case BeginWrite => DoBeginWrite(s)
    case AppendNext => DoAppendNext(s)
    case AppendFail => DoAppendFail(s)
    case BeginMark => DoBeginMark(s)
    case MarkNext => DoMarkNext(cfg, s)
  }

  /** Subscribing and reading touch only the registrations. */
  ghost function ApplySub(s: State, step: Step): (r: State)
    requires SubStep(step)
    ensures r == s.(subs := r.subs, nextSub := r.nextSub)
  {
    match step
    case Subscribe(filter) => DoSubscribe(s, filter)
    case Receive(k) => DoReceive(s, k)
    case CloseReceiver(k) => DoCloseReceiver(s, k)
    case Unregister(k) => s.(subs := s.subs - {k})
  }

  ghost function Apply(cfg: Config, s: State, step: Step): State {
    if step.Push? then DoPush(cfg, s, step.call)
    else if step.Restart? then Fresh(s.epoch + 1, step.seed, s.sink, s.past.ever)
    else if WriterStep(step) then ApplyWriter(cfg, s, step)
    else if SubStep(step) then ApplySub(s, step)
    else ApplyCall(cfg, s, step)
  }

  /** Off the lock, a call touches only the counter, the window, the queue, the shed count and
      itself: never a ring, the store, the writer or a subscriber. */
  ghost predicate OffLock(s: State, r: State) {
    && r == s.(counter := r.counter, recent := r.recent, calls := r.calls, queue := r.queue, shed := r.shed, past := r.past)
    && r.past == s.past.(sent := r.past.sent, published := r.past.published)
  }

  ghost predicate Queueless(s: State, r: State) {
    r.queue == s.queue && r.past.sent == s.past.sent
  }

  lemma StartFrame(cfg: Config, s: State, t: nat, env: Envelope)
    ensures var r := DoStartPublish(s, t, env); OffLock(s, r) && Queueless(s, r) && r.counter == s.counter
    ensures var r := DoStartIfNew(cfg, s, t, env); OffLock(s, r) && Queueless(s, r) && r.counter == s.counter
  {
  }

  lemma ProbeFrame(s: State, t: nat, failed: bool)
    ensures var r := DoProbe(s, t, failed); OffLock(s, r) && Queueless(s, r) && r.counter == s.counter
  {
  }

  lemma ReserveFrame(cfg: Config, s: State, t: nat, gone: bool)
    ensures var r := DoReserve(cfg, s, t, gone); OffLock(s, r) && Queueless(s, r) && r.counter == s.counter
  {
  }

  lemma StampFrame(cfg: Config, s: State, t: nat, now: nat)
    ensures var r := DoStamp(s, t, now); OffLock(s, r) && Queueless(s, r)
    ensures var r := DoRecord(cfg, s, t); OffLock(s, r) && Queueless(s, r) && r.counter == s.counter
  {
  }

  lemma LeaveFrame(s: State, t: nat)
    ensures var r := DoSend(s, t); OffLock(s, r) && r.counter == s.counter
    ensures var r := DoFinish(s, t); OffLock(s, r) && Queueless(s, r) && r.counter == s.counter
  {
  }

  /** No step of a call off the lock reaches beyond its own frame; only a send queues, only a
      stamp counts. */
  lemma CallsStayOffLock(cfg: Config, s: State, step: Step)
    requires CallStep(step)
    ensures var r := ApplyCall(cfg, s, step);
            OffLock(s, r) && (!step.Send? ==> Queueless(s, r)) && (!step.Stamp? ==> r.counter == s.counter)
  {
    match step
    case StartPublish(t, env) => StartFrame(cfg, s, t, env);
    case StartIfNew(t, env) => StartFrame(cfg, s, t, env);
    case Probe(t, failed) => ProbeFrame(s, t, failed);
    case Reserve(t, gone) => ReserveFrame(cfg, s, t, gone);
    case Stamp(t, now) => StampFrame(cfg, s, t, now);
    case Record(t) => StampFrame(cfg, s, t, 0);
    case Send(t) => LeaveFrame(s, t);
    case Finish(t) => LeaveFrame(s, t);
  }

  /** Every step but a push and a restart belongs to a call, the writer or a subscriber, and
      keeps to its frame. */
  lemma ApplyCases(cfg: Config, s: State, step: Step)
    requires !step.Push? && !step.Restart?
    ensures WriterStep(step) ==> Apply(cfg, s, step) == ApplyWriter(cfg, s, step)
    ensures SubStep(step) ==> Apply(cfg, s, step) == ApplySub(s, step)
    ensures CallStep(step) ==>
      var r := Apply(cfg, s, step);
      && r == ApplyCall(cfg, s, step) && OffLock(s, r)
      && (!step.Send? ==> Queueless(s, r)) && (!step.Stamp? ==> r.counter == s.counter)
    ensures WriterStep(step) || SubStep(step) || CallStep(step)
  {
    if CallStep(step) { CallsStayOffLock(cfg, s, step); }
  }

  ghost function Run(cfg: Config, s: State, steps: seq<Step>): State {
    if steps == [] then s else Apply(cfg, Run(cfg, s, steps[..|steps| - 1]), steps[|steps| - 1])
  }

  /** The state a run reaches from a first daemon start over an empty store. */
  ghost function Reach(cfg: Config, seed: nat, steps: seq<Step>): State {
    Run(cfg, Fresh(1, seed, map[], map[]), steps)
  }

  lemma {:induction false} RunAppend(cfg: Config, s: State, a: seq<Step>, b: seq<Step>)
    ensures Run(cfg, s, a + b) == Run(cfg, Run(cfg, s, a), b)
    decreases |b|
  {
    if b == [] {
      assert a + b == a;
    } else {
      RunAppend(cfg, s, a, b[..|b| - 1]);
      assert (a + b)[..|a + b| - 1] == a + b[..|b| - 1];
    }
  }
}
