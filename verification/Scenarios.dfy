/** Runs that show which assumptions the router's promises rest on. */
module Scenarios {
  import opened Options
  import opened Envelopes
  import opened HeaderFilters
  import opened Selection
  import opened Bus
  import opened Persistence
  import opened Replay
  import opened Subscription
  import opened Streams
  import opened Lagging
  import opened Floor
  import R = Ring
  import Sink
  import RecentIds

  /** Extending a run by one step. */
  lemma Extend(cfg: Config, seed: nat, steps: seq<Step>, step: Step)
    ensures Reach(cfg, seed, steps + [step]) == Apply(cfg, Reach(cfg, seed, steps), step)
  {
    assert (steps + [step])[..|steps + [step]| - 1] == steps;
  }

  ghost function AdmittedBy(cfg: Config, s: State, t: nat, env: Envelope): State {
    DoRecord(cfg, DoStamp(DoReserve(cfg, DoStartPublish(s, t, env), t, false), t, 0), t)
  }

  /** A plain publish up to the point where it would take the shard lock. */
  lemma AdmitState(cfg: Config, s: State, t: nat, env: Envelope)
    requires t !in s.calls
    requires env.delivery.Durable? ==> |s.queue| + |Permits(s.calls[t := Call(env, false, Admitted)])| < cfg.WriteBehindBuffer()
    ensures AdmittedBy(cfg, s, t, env)
            == s.(calls := s.calls[t := Call(StampEnv(s, env, 0), false, Recorded)],
                  counter := s.counter + 1,
                  recent := RecentIds.Record(s.recent, env.eventId, cfg.recentCapacity))
  {
    ReserveState(cfg, s, t, env);
    var s2 := s.(calls := s.calls[t := Call(env, false, Reserved)]);
    var s3 := DoStamp(s2, t, 0);
    assert s3 == s.(calls := s.calls[t := Call(StampEnv(s, env, 0), false, Stamped)], counter := s.counter + 1);
  }

  lemma ReserveState(cfg: Config, s: State, t: nat, env: Envelope)
    requires t !in s.calls
    requires env.delivery.Durable? ==> |s.queue| + |Permits(s.calls[t := Call(env, false, Admitted)])| < cfg.WriteBehindBuffer()
    ensures DoReserve(cfg, DoStartPublish(s, t, env), t, false) == s.(calls := s.calls[t := Call(env, false, Reserved)])
  {
    var calls := s.calls[t := Call(env, false, Admitted)];
    assert DoStartPublish(s, t, env) == s.(calls := calls);
    assert calls[t := Call(env, false, Reserved)] == s.calls[t := Call(env, false, Reserved)];
  }

  /** The steps of a plain publish up to the shard lock. */
  function Admission(t: nat, env: Envelope): seq<Step> {
    [StartPublish(t, env), Reserve(t, false), Stamp(t, 0), Record(t)]
  }

  lemma Admit(cfg: Config, seed: nat, steps: seq<Step>, t: nat, env: Envelope) returns (steps': seq<Step>)
    ensures Reach(cfg, seed, steps') == AdmittedBy(cfg, Reach(cfg, seed, steps), t, env)
    ensures steps' == steps + Admission(t, env)
  {
    var a := Start(cfg, seed, steps, t, env);
    var b := Sequence(cfg, seed, a, t);
    steps' := b;
  }

  lemma Start(cfg: Config, seed: nat, steps: seq<Step>, t: nat, env: Envelope) returns (steps': seq<Step>)
    ensures Reach(cfg, seed, steps') == DoReserve(cfg, DoStartPublish(Reach(cfg, seed, steps), t, env), t, false)
    ensures steps' == steps + [StartPublish(t, env), Reserve(t, false)]
  {
    var a, b := StartPublish(t, env), Reserve(t, false);
    steps' := steps + [a] + [b];
    Extend(cfg, seed, steps, a);
    Extend(cfg, seed, steps + [a], b);
    Calls(cfg, Reach(cfg, seed, steps), t, env);
    Calls(cfg, Reach(cfg, seed, steps + [a]), t, env);
  }

  lemma Sequence(cfg: Config, seed: nat, steps: seq<Step>, t: nat) returns (steps': seq<Step>)
    ensures Reach(cfg, seed, steps') == DoRecord(cfg, DoStamp(Reach(cfg, seed, steps), t, 0), t)
    ensures steps' == steps + [Stamp(t, 0), Record(t)]
  {
    var a, b := Stamp(t, 0), Record(t);
    steps' := steps + [a] + [b];
    Extend(cfg, seed, steps, a);
    Extend(cfg, seed, steps + [a], b);
    Sequences(cfg, Reach(cfg, seed, steps), t);
    Sequences(cfg, Reach(cfg, seed, steps + [a]), t);
  }

  lemma Calls(cfg: Config, s: State, t: nat, env: Envelope)
    ensures Apply(cfg, s, StartPublish(t, env)) == DoStartPublish(s, t, env)
    ensures Apply(cfg, s, Reserve(t, false)) == DoReserve(cfg, s, t, false)
  {
  }

  lemma Sequences(cfg: Config, s: State, t: nat)
    ensures Apply(cfg, s, Stamp(t, 0)) == DoStamp(s, t, 0)
    ensures Apply(cfg, s, Record(t)) == DoRecord(cfg, s, t)
  {
  }

  ghost function Written(cfg: Config, s: State, t: nat): State {
    DoMarkNext(cfg, DoBeginMark(DoAppendNext(DoBeginWrite(DoCollect(DoSend(s, t))))))
  }

  /** A pushed durable event goes through an idle writer to the store and is confirmed. */
  lemma WrittenState(cfg: Config, s: State, t: nat)
    requires CallAt(s, t, Pushed) && s.calls[t].env.delivery.Durable?
    requires s.queue == [] && s.batch == [] && s.writer.Collecting?
    ensures var e := s.calls[t].env;
            var s' := Written(cfg, s, t);
            && s'.calls == s.calls[t := s.calls[t].(pc := Sent)]
            && s'.sink == s.sink[e.channel := Sink.Appended(At(s.sink, e.channel), e)]
            && s'.rings == MarkRings(cfg, s.rings, e)
            && s'.past.log == s.past.log && s'.past.shown == s.past.shown
            && s'.past.sent == Grow(s.past.sent, e.channel, e)
            && s'.queue == [] && s'.batch == [] && s'.writer.Collecting?
            && s'.subs == s.subs && s'.nextSub == s.nextSub
  {
    var e := s.calls[t].env;
    var s1 := DoSend(s, t);
    assert s1.queue == [e];
    var s2 := DoCollect(s1);
    assert s2 == s1.(batch := [e], queue := []);
    var s3 := DoBeginWrite(s2);
    assert s3 == s2.(writer := Writing(0));
    var s4 := DoAppendNext(s3);
    assert s4 == s3.(sink := s.sink[e.channel := Sink.Appended(At(s.sink, e.channel), e)], writer := Writing(1));
    var s5 := DoBeginMark(s4);
    assert s5 == s4.(writer := Marking(0));
  }

  /** The steps that take one pushed event through an idle writer. */
  function WriteOut(t: nat): seq<Step> {
    [Send(t), Collect, BeginWrite, AppendNext, BeginMark, MarkNext]
  }

  lemma Write(cfg: Config, seed: nat, steps: seq<Step>, t: nat) returns (steps': seq<Step>)
    ensures Reach(cfg, seed, steps') == Written(cfg, Reach(cfg, seed, steps), t)
    ensures steps' == steps + WriteOut(t)
  {
    var a := Hand(cfg, seed, steps, t);
    var b := Store(cfg, seed, a);
    steps' := Confirm(cfg, seed, b);
  }

  lemma Hand(cfg: Config, seed: nat, steps: seq<Step>, t: nat) returns (steps': seq<Step>)
    ensures Reach(cfg, seed, steps') == DoCollect(DoSend(Reach(cfg, seed, steps), t))
    ensures steps' == steps + [Send(t), Collect]
  {
    steps' := steps + [Send(t)] + [Collect];
    Extend(cfg, seed, steps, Send(t));
    Extend(cfg, seed, steps + [Send(t)], Collect);
    Hands(cfg, Reach(cfg, seed, steps), t);
    Hands(cfg, Reach(cfg, seed, steps + [Send(t)]), t);
  }

  lemma Store(cfg: Config, seed: nat, steps: seq<Step>) returns (steps': seq<Step>)
    ensures Reach(cfg, seed, steps') == DoAppendNext(DoBeginWrite(Reach(cfg, seed, steps)))
    ensures steps' == steps + [BeginWrite, AppendNext]
  {
    steps' := steps + [BeginWrite] + [AppendNext];
    Extend(cfg, seed, steps, BeginWrite);
    Extend(cfg, seed, steps + [BeginWrite], AppendNext);
    Writes(cfg, Reach(cfg, seed, steps));
    Writes(cfg, Reach(cfg, seed, steps + [BeginWrite]));
  }

  lemma Confirm(cfg: Config, seed: nat, steps: seq<Step>) returns (steps': seq<Step>)
    ensures Reach(cfg, seed, steps') == DoMarkNext(cfg, DoBeginMark(Reach(cfg, seed, steps)))
    ensures steps' == steps + [BeginMark, MarkNext]
  {
    steps' := steps + [BeginMark] + [MarkNext];
    Extend(cfg, seed, steps, BeginMark);
    Extend(cfg, seed, steps + [BeginMark], MarkNext);
    Confirms(cfg, Reach(cfg, seed, steps));
    Confirms(cfg, Reach(cfg, seed, steps + [BeginMark]));
  }

  lemma Hands(cfg: Config, s: State, t: nat)
    ensures Apply(cfg, s, Send(t)) == DoSend(s, t)
    ensures Apply(cfg, s, Collect) == DoCollect(s)
  {
  }

  lemma Writes(cfg: Config, s: State)
    ensures Apply(cfg, s, BeginWrite) == DoBeginWrite(s)
    ensures Apply(cfg, s, AppendNext) == DoAppendNext(s)
  {
  }

  lemma Confirms(cfg: Config, s: State)
    ensures Apply(cfg, s, BeginMark) == DoBeginMark(s)
    ensures Apply(cfg, s, MarkNext) == DoMarkNext(cfg, s)
  {
  }

  ghost function Plain(id: EventId, delivery: DeliveryClass): Envelope {
    Envelope(id, 0, (0, 0), Message, delivery, Seq(0, 0), 0, None, map[], [])
  }

  lemma PushAlone(e: Envelope, capacity: nat, budget: nat)
    requires capacity >= 1
    ensures R.Pushed([], e, capacity, budget) == [R.Slot(e, e.delivery.Durable?)]
  {
  }

  lemma MarkAlone(e: Envelope, capacity: nat, budget: nat)
    requires capacity >= 1
    ensures R.Marked([R.Slot(e, true)], e.eventId, capacity, budget) == [R.Slot(e, false)]
  {
  }

  lemma PushEvicts(prior: Envelope, e: Envelope, budget: nat)
    ensures R.Pushed([R.Slot(prior, false)], e, 1, budget) == [R.Slot(e, e.delivery.Durable?)]
  {
    var last := [R.Slot(e, e.delivery.Durable?)];
    var t := [R.Slot(prior, false)] + last;
    assert R.OverBounds(t, 1, budget) && R.Victim(t, 1) == Some(0);
    assert R.RemoveAt(t, 0) == last;
    assert R.Evict(t, 1, budget) == R.Evict(last, 1, budget);
    assert !R.OverBounds(last, 1, budget);
  }

  /** Starting a call takes no permit. */
  lemma FewPermits(env: Envelope, t: nat, calls: map<nat, Call>)
    requires t !in calls
    ensures |Permits(calls[t := Call(env, false, Admitted)])| <= |calls|
  {
    var p := Permits(calls[t := Call(env, false, Admitted)]);
    assert p <= calls.Keys;
    assert calls.Keys == p + (calls.Keys - p);
  }

  /** The sequence number is taken before the shard lock. Two publishes that cross there can
      leave a durable event visible to no replay: fresh ids, both events accepted, yet the
      one that was stamped later, pushed first and evicted is neither before the ring's
      oldest entry in the store nor in the ring. */
  lemma CrossedPushesLeaveAGap() returns (cfg: Config, steps: seq<Step>, lost: Envelope)
    ensures var s := Reach(cfg, 0, steps);
            && FreshIds(s)
            && lost.delivery.Durable? && lost in At(s.past.log, 0) && lost in At(s.sink, 0)
            && lost !in Select(At(s.sink, 0), BeforeGate(R.Oldest(At(s.rings, 0))))
            && lost !in R.Envs(At(s.rings, 0))
  {
    cfg := Config(1, 0, 1, 4, 16);
    var a, b := Plain(1, Durable), Plain(2, Durable);
    var s := AdmittedBy(cfg, AdmittedBy(cfg, Fresh(1, 0, map[], map[]), 1, a), 2, b);
    steps := CrossedRun(cfg, a, b);
    lost := b.(stamp := Seq(1, 1));
    TwoStamped(cfg, a, b);
    CrossedState(cfg, s, a.(stamp := Seq(1, 0)), lost);
  }

  ghost function Crossed(cfg: Config, s: State): State {
    DoPush(cfg, Written(cfg, DoPush(cfg, s, 2), 2), 1)
  }

  lemma CrossedRun(cfg: Config, a: Envelope, b: Envelope) returns (steps: seq<Step>)
    ensures Reach(cfg, 0, steps) == Crossed(cfg, AdmittedBy(cfg, AdmittedBy(cfg, Fresh(1, 0, map[], map[]), 1, a), 2, b))
  {
    var p := AdmitBoth(cfg, a, b);
    steps := Cross(cfg, p);
  }

  lemma AdmitBoth(cfg: Config, a: Envelope, b: Envelope) returns (steps: seq<Step>)
    ensures Reach(cfg, 0, steps) == AdmittedBy(cfg, AdmittedBy(cfg, Fresh(1, 0, map[], map[]), 1, a), 2, b)
  {
    var p := Admit(cfg, 0, [], 1, a);
    assert Reach(cfg, 0, []) == Fresh(1, 0, map[], map[]);
    steps := Admit(cfg, 0, p, 2, b);
  }

  lemma Cross(cfg: Config, p: seq<Step>) returns (steps: seq<Step>)
    ensures Reach(cfg, 0, steps) == Crossed(cfg, Reach(cfg, 0, p))
  {
    Extend(cfg, 0, p, Push(2));
    var q := Write(cfg, 0, p + [Push(2)], 2);
    Extend(cfg, 0, q, Push(1));
    steps := q + [Push(1)];
  }

  lemma TwoStamped(cfg: Config, a: Envelope, b: Envelope)
    requires cfg.writeBehindBuffer == 4 && a.occurredAtMs == 0 && b.occurredAtMs == 0
    ensures var s := AdmittedBy(cfg, AdmittedBy(cfg, Fresh(1, 0, map[], map[]), 1, a), 2, b);
            && s.rings == map[] && s.sink == map[] && s.past == Fresh(1, 0, map[], map[]).past
            && s.queue == [] && s.batch == [] && s.writer.Collecting?
            && CallAt(s, 1, Recorded) && s.calls[1].env == a.(stamp := Seq(1, 0))
            && CallAt(s, 2, Recorded) && s.calls[2].env == b.(stamp := Seq(1, 1))
  {
    var s0 := Fresh(1, 0, map[], map[]);
    FewPermits(a, 1, s0.calls);
    AdmitState(cfg, s0, 1, a);
    var s1 := AdmittedBy(cfg, s0, 1, a);
    FewPermits(b, 2, s1.calls);
    AdmitState(cfg, s1, 2, b);
  }

  /** From two stamped calls: the second pushes and is stored before the first pushes. */
  lemma CrossedState(cfg: Config, s: State, a: Envelope, b: Envelope)
    requires cfg.ringCapacity == 1 && cfg.ringByteBudget == 0
    requires s.rings == map[] && s.sink == map[] && s.past.log == map[] && s.past.shown == map[]
    requires s.queue == [] && s.batch == [] && s.writer.Collecting?
    requires CallAt(s, 1, Recorded) && CallAt(s, 2, Recorded) && s.calls[1].env == a && s.calls[2].env == b
    requires a == Plain(1, Durable).(stamp := Seq(1, 0)) && b == Plain(2, Durable).(stamp := Seq(1, 1))
    ensures var s' := Crossed(cfg, s);
            && FreshIds(s')
            && b in At(s'.past.log, 0) && b in At(s'.sink, 0)
            && b !in Select(At(s'.sink, 0), BeforeGate(R.Oldest(At(s'.rings, 0))))
            && b !in R.Envs(At(s'.rings, 0))
  {
    FirstPush(cfg, s, b);
    var s3 := DoPush(cfg, s, 2);
    FirstWritten(cfg, s3, b);
    var s4 := Written(cfg, s3, 2);
    SecondPush(cfg, s4, a, b);
  }

  lemma FirstPush(cfg: Config, s: State, b: Envelope)
    requires cfg.ringCapacity == 1 && cfg.ringByteBudget == 0 && b.channel == 0 && b.delivery.Durable?
    requires s.rings == map[] && s.past.log == map[] && CallAt(s, 2, Recorded) && s.calls[2].env == b
    ensures var s' := DoPush(cfg, s, 2);
            && s'.rings == map[0 := [R.Slot(b, true)]] && s'.past.log == map[0 := [b]] && s'.sink == s.sink
            && s'.queue == s.queue && s'.batch == s.batch && s'.writer == s.writer
            && s'.calls == s.calls[2 := s.calls[2].(pc := Pushed)]
  {
    PushAlone(b, 1, 0);
    assert [] + [b] == [b];
  }

  lemma FirstWritten(cfg: Config, s: State, b: Envelope)
    requires cfg.ringCapacity == 1 && cfg.ringByteBudget == 0 && b.channel == 0 && b.delivery.Durable?
    requires s.rings == map[0 := [R.Slot(b, true)]] && s.past.log == map[0 := [b]] && s.sink == map[]
    requires s.queue == [] && s.batch == [] && s.writer.Collecting?
    requires CallAt(s, 2, Pushed) && s.calls[2].env == b
    ensures var s' := Written(cfg, s, 2);
            && s'.rings == map[0 := [R.Slot(b, false)]] && s'.past.log == map[0 := [b]] && s'.sink == map[0 := [b]]
            && s'.calls == s.calls[2 := s.calls[2].(pc := Sent)]
  {
    WrittenState(cfg, s, 2);
    MarkAlone(b, 1, 0);
    assert Sink.Appended([], b) == [b];
  }

  lemma SecondPush(cfg: Config, s: State, a: Envelope, b: Envelope)
    requires cfg.ringCapacity == 1 && cfg.ringByteBudget == 0
    requires a == Plain(1, Durable).(stamp := Seq(1, 0)) && b == Plain(2, Durable).(stamp := Seq(1, 1))
    requires s.rings == map[0 := [R.Slot(b, false)]] && s.past.log == map[0 := [b]] && s.sink == map[0 := [b]]
    requires CallAt(s, 1, Recorded) && s.calls[1].env == a
    ensures var s' := DoPush(cfg, s, 1);
            && FreshIds(s')
            && b in At(s'.past.log, 0) && b in At(s'.sink, 0)
            && b !in Select(At(s'.sink, 0), BeforeGate(R.Oldest(At(s'.rings, 0))))
            && b !in R.Envs(At(s'.rings, 0))
  {
    var s' := DoPush(cfg, s, 1);
    PushEvicts(b, a, 0);
    assert [b] + [a] == [b, a];
    assert At(s'.rings, 0) == [R.Slot(a, true)] && s'.past.log == map[0 := [b, a]] && At(s'.sink, 0) == [b];
    assert !BeforeGate(Some(a.Cursor())).Holds(b);
    assert Select([b], BeforeGate(Some(a.Cursor()))) == [];
    assert R.Envs(At(s'.rings, 0)) == [a];
  }

  // ---------------------------------------------------------------- sends that cross

  lemma PushBehindPinned(a: Envelope, b: Envelope, capacity: nat)
    requires a.delivery.Durable? && b.delivery.Durable? && capacity >= 1
    requires capacity == 1 || R.TotalBytes([R.Slot(a, true), R.Slot(b, true)]) == 0
    ensures R.Pushed([R.Slot(a, true)], b, capacity, 0) == [R.Slot(a, true), R.Slot(b, true)]
  {
    var t := [R.Slot(a, true)] + [R.Slot(b, true)];
    assert t == [R.Slot(a, true), R.Slot(b, true)];
    assert R.FirstLossy(t) == |t|;
  }

  /** Confirming the entry behind a pinned head. */
  lemma MarkBehindPinned(a: Envelope, b: Envelope)
    requires a.delivery.Durable? && b.delivery.Durable? && a.eventId != b.eventId
    ensures R.Marked([R.Slot(a, true), R.Slot(b, true)], b.eventId, 1, 0) == [R.Slot(a, true), R.Slot(b, false)]
  {
    var slots := [R.Slot(a, true), R.Slot(b, true)];
    assert slots[1..] == [R.Slot(b, true)];
    assert R.Unpin(slots[1..], b.eventId) == [R.Slot(b, false)];
    var t := [R.Slot(a, true), R.Slot(b, false)];
    assert R.Unpin(slots, b.eventId) == t;
    assert R.FirstLossy(t) == |t|;
  }

  ghost function BothPushed(cfg: Config, s: State): State {
    DoPush(cfg, DoPush(cfg, s, 1), 2)
  }

  lemma PushBoth(cfg: Config, p: seq<Step>)
    ensures Reach(cfg, 0, p + [Push(1)] + [Push(2)]) == BothPushed(cfg, Reach(cfg, 0, p))
  {
    Extend(cfg, 0, p, Push(1));
    Extend(cfg, 0, p + [Push(1)], Push(2));
  }

  /** Two admitted durables are pushed one after the other onto an empty ring. */
  lemma BothPushedState(cfg: Config, s: State, a: Envelope, b: Envelope)
    requires (cfg.ringCapacity == 1 || cfg.ringCapacity == 2) && cfg.ringByteBudget == 0
    requires a.channel == 0 && b.channel == 0 && a.delivery.Durable? && b.delivery.Durable?
    requires R.TotalBytes([R.Slot(a, true), R.Slot(b, true)]) == 0
    requires s.rings == map[] && s.sink == map[] && s.past == Fresh(1, 0, map[], map[]).past
    requires s.queue == [] && s.batch == [] && s.writer.Collecting?
    requires CallAt(s, 1, Recorded) && s.calls[1].env == a && CallAt(s, 2, Recorded) && s.calls[2].env == b
    ensures var s' := BothPushed(cfg, s);
            && s'.rings == map[0 := [R.Slot(a, true), R.Slot(b, true)]] && s'.past.log == map[0 := [a, b]]
            && s'.sink == map[] && s'.past.sent == map[] && s'.queue == [] && s'.batch == [] && s'.writer.Collecting?
            && CallAt(s', 1, Pushed) && s'.calls[1].env == a && CallAt(s', 2, Pushed) && s'.calls[2].env == b
  {
    PushAlone(a, cfg.RingCapacity(), 0);
    var s1 := DoPush(cfg, s, 1);
    assert s1.rings == map[0 := [R.Slot(a, true)]];
    assert [] + [a] == [a] && [a] + [b] == [a, b];
    assert s1.past.log == map[0 := [a]];
    PushBehindPinned(a, b, cfg.RingCapacity());
  }

  lemma NoBytes(a: Envelope, b: Envelope)
    requires a.payload == [] && b.payload == [] && a.headers == map[] && b.headers == map[]
    requires a.coalesceKey.None? && b.coalesceKey.None?
    ensures R.TotalBytes([R.Slot(a, true), R.Slot(b, true)]) == 0
  {
    var first, slots := [R.Slot(a, true)], [R.Slot(a, true), R.Slot(b, true)];
    assert R.RetainedBytes(a) == 0 && R.RetainedBytes(b) == 0;
    assert first[..0] == [] && R.TotalBytes(first) == 0;
    assert slots[..1] == first && slots[1].env == b;
  }

  /** Permits are filled after the lock is released. If two sends cross, the later event can
      be confirmed first and then stands, unpinned and durable, behind a pinned head: the ring
      is above both its capacity and its pinned entries. */
  lemma CrossedSendsOverfillTheRing() returns (cfg: Config, steps: seq<Step>)
    ensures var s := Reach(cfg, 0, steps);
            && FreshIds(s) && !InOrderSends(s)
            && |At(s.rings, 0)| > cfg.RingCapacity() && |At(s.rings, 0)| > |R.PinnedEnvs(At(s.rings, 0))|
  {
    cfg := Config(1, 0, 1, 4, 16);
    var a, b := Plain(1, Durable), Plain(2, Durable);
    var a', b' := a.(stamp := Seq(1, 0)), b.(stamp := Seq(1, 1));
    var p := AdmitBoth(cfg, a, b);
    TwoStamped(cfg, a, b);
    NoBytes(a', b');
    BothPushedState(cfg, Reach(cfg, 0, p), a', b');
    PushBoth(cfg, p);
    steps := Write(cfg, 0, p + [Push(1)] + [Push(2)], 2);
    CrossedSendsState(cfg, BothPushed(cfg, Reach(cfg, 0, p)), a', b');
  }

  lemma CrossedSendsState(cfg: Config, s: State, a: Envelope, b: Envelope)
    requires cfg.ringCapacity == 1 && cfg.ringByteBudget == 0
    requires a.channel == 0 && b.channel == 0 && a.delivery.Durable? && b.delivery.Durable? && a.eventId != b.eventId
    requires s.rings == map[0 := [R.Slot(a, true), R.Slot(b, true)]] && s.past.log == map[0 := [a, b]]
    requires s.past.sent == map[] && s.queue == [] && s.batch == [] && s.writer.Collecting?
    requires CallAt(s, 2, Pushed) && s.calls[2].env == b
    ensures var s' := Written(cfg, s, 2);
            && FreshIds(s') && !InOrderSends(s')
            && |At(s'.rings, 0)| == 2 && |R.PinnedEnvs(At(s'.rings, 0))| == 1
  {
    WrittenState(cfg, s, 2);
    CrossedRing(cfg, a, b);
    SentOutOfOrder(a, b);
    var s' := Written(cfg, s, 2);
    SentFirst(s.past.sent, b);
    assert At(s'.past.log, 0) == [a, b];
    FreshPair(s', a, b);
  }

  lemma CrossedRing(cfg: Config, a: Envelope, b: Envelope)
    requires cfg.ringCapacity == 1 && cfg.ringByteBudget == 0
    requires b.channel == 0 && a.delivery.Durable? && b.delivery.Durable? && a.eventId != b.eventId
    ensures var slots := At(MarkRings(cfg, map[0 := [R.Slot(a, true), R.Slot(b, true)]], b), 0);
            |slots| == 2 && |R.PinnedEnvs(slots)| == 1
  {
    MarkBehindPinned(a, b);
    MarkOnly(cfg, [R.Slot(a, true), R.Slot(b, true)], b);
    OnePinned(a, b);
  }

  lemma SentFirst(sent: PerRoom<Envelope>, b: Envelope)
    requires sent == map[] && b.channel == 0
    ensures At(Grow(sent, b.channel, b), 0) == [b]
  {
    assert [] + [b] == [b];
  }

  lemma FreshPair(s: State, a: Envelope, b: Envelope)
    requires s.past.log == map[0 := [a, b]] && a.eventId != b.eventId
    ensures FreshIds(s)
  {
  }

  lemma OnePinned(a: Envelope, b: Envelope)
    ensures R.PinnedEnvs([R.Slot(a, true), R.Slot(b, false)]) == [a]
  {
    var slots := [R.Slot(a, true), R.Slot(b, false)];
    assert slots[..1] == [R.Slot(a, true)] && R.PinnedEnvs(slots[..1]) == [a];
  }

  lemma SentOutOfOrder(a: Envelope, b: Envelope)
    requires a != b && a.delivery.Durable? && b.delivery.Durable?
    ensures !([b] <= Select([a, b], IsDurable))
  {
    SelectAll([a, b], IsDurable);
    assert [b][0] != [a, b][0];
  }

  /** An id that occupies two slots, as two plain publishes of it would: after both copies are
      stored and confirmed, with nothing left to do, the second slot is still pinned. */
  lemma RepeatedIdStaysPinned() returns (cfg: Config, steps: seq<Step>)
    ensures var s := Reach(cfg, 0, steps);
            && s.queue == [] && s.batch == [] && s.writer.Collecting?
            && |At(s.rings, 0)| == 2 && At(s.rings, 0)[0].env.eventId == At(s.rings, 0)[1].env.eventId
            && At(s.rings, 0)[1].pinned && (forall t, e :: !UnsentBy(s, t, e))
  {
    cfg := Config(2, 0, 1, 4, 16);
    var a, b := Plain(1, Durable), Plain(1, Durable);
    var a', b' := a.(stamp := Seq(1, 0)), b.(stamp := Seq(1, 1));
    var p := AdmitBoth(cfg, a, b);
    TwoStamped(cfg, a, b);
    NoBytes(a', b');
    var s := Reach(cfg, 0, p);
    BothPushedState(cfg, s, a', b');
    OnlyTwoCalls(cfg, a, b);
    PushBoth(cfg, p);
    var q := Write(cfg, 0, p + [Push(1)] + [Push(2)], 1);
    steps := Write(cfg, 0, q, 2);
    RepeatedState(cfg, BothPushed(cfg, s), a', b');
  }

  lemma OnlyTwoCalls(cfg: Config, a: Envelope, b: Envelope)
    requires cfg.writeBehindBuffer == 4
    ensures var s := BothPushed(cfg, AdmittedBy(cfg, AdmittedBy(cfg, Fresh(1, 0, map[], map[]), 1, a), 2, b));
            s.calls.Keys == {1, 2}
  {
    var s0 := Fresh(1, 0, map[], map[]);
    FewPermits(a, 1, s0.calls);
    AdmitState(cfg, s0, 1, a);
    var s1 := AdmittedBy(cfg, s0, 1, a);
    FewPermits(b, 2, s1.calls);
    AdmitState(cfg, s1, 2, b);
    var s2 := AdmittedBy(cfg, s1, 2, b);
    TwoKeys(Call(StampEnv(s0, a, 0), false, Recorded), Call(StampEnv(s1, b, 0), false, Recorded));
    PushKeepsCalls(cfg, s2, 1);
    PushKeepsCalls(cfg, DoPush(cfg, s2, 1), 2);
  }

  lemma TwoKeys(c: Call, d: Call)
    ensures map[][1 := c][2 := d].Keys == {1, 2}
  {
  }

  lemma PushKeepsCalls(cfg: Config, s: State, t: nat)
    ensures DoPush(cfg, s, t).calls.Keys == s.calls.Keys
  {
  }

  lemma RepeatedState(cfg: Config, s: State, a: Envelope, b: Envelope)
    requires cfg.ringCapacity == 2 && cfg.ringByteBudget == 0
    requires a.channel == 0 && b.channel == 0 && a.delivery.Durable? && b.delivery.Durable? && a.eventId == b.eventId
    requires R.TotalBytes([R.Slot(a, true), R.Slot(b, true)]) == 0
    requires s.rings == map[0 := [R.Slot(a, true), R.Slot(b, true)]] && s.sink == map[]
    requires s.queue == [] && s.batch == [] && s.writer.Collecting? && s.calls.Keys == {1, 2}
    requires CallAt(s, 1, Pushed) && s.calls[1].env == a && CallAt(s, 2, Pushed) && s.calls[2].env == b
    ensures var s' := Written(cfg, Written(cfg, s, 1), 2);
            && s'.queue == [] && s'.batch == [] && s'.writer.Collecting?
            && At(s'.rings, 0) == [R.Slot(a, false), R.Slot(b, true)] && (forall t, e :: !UnsentBy(s', t, e))
  {
    var s1 := Written(cfg, s, 1);
    RepeatedFirst(cfg, s, a, b);
    RepeatedSecond(cfg, s1, a, b);
  }

  lemma RepeatedFirst(cfg: Config, s: State, a: Envelope, b: Envelope)
    requires cfg.ringCapacity == 2 && cfg.ringByteBudget == 0 && a.channel == 0 && a.delivery.Durable? && a.eventId == b.eventId
    requires R.TotalBytes([R.Slot(a, true), R.Slot(b, true)]) == 0
    requires s.rings == map[0 := [R.Slot(a, true), R.Slot(b, true)]]
    requires s.queue == [] && s.batch == [] && s.writer.Collecting? && s.calls.Keys == {1, 2}
    requires CallAt(s, 1, Pushed) && s.calls[1].env == a && CallAt(s, 2, Pushed) && s.calls[2].env == b
    ensures var s' := Written(cfg, s, 1);
            && s'.rings == map[0 := [R.Slot(a, false), R.Slot(b, true)]]
            && s'.queue == [] && s'.batch == [] && s'.writer.Collecting? && s'.calls.Keys == {1, 2}
            && CallAt(s', 1, Sent) && CallAt(s', 2, Pushed) && s'.calls[2].env == b
  {
    WrittenState(cfg, s, 1);
    MarkFirstOfTwo(a, b, true);
    MarkOnly(cfg, [R.Slot(a, true), R.Slot(b, true)], a);
    WrittenCalls(s.calls, 1, 2);
  }

  lemma MarkOnly(cfg: Config, slots: seq<R.Slot>, e: Envelope)
    requires e.channel == 0
    ensures MarkRings(cfg, map[0 := slots], e) == map[0 := R.Marked(slots, e.eventId, cfg.RingCapacity(), cfg.ringByteBudget)]
  {
  }

  lemma WrittenCalls(calls: map<nat, Call>, t: nat, u: nat)
    requires t in calls && u in calls && t != u
    ensures var calls' := calls[t := calls[t].(pc := Sent)];
            calls'.Keys == calls.Keys && calls'[t].pc.Sent? && calls'[u] == calls[u]
  {
  }

  lemma RepeatedSecond(cfg: Config, s: State, a: Envelope, b: Envelope)
    requires cfg.ringCapacity == 2 && cfg.ringByteBudget == 0 && b.channel == 0 && b.delivery.Durable? && a.eventId == b.eventId
    requires R.TotalBytes([R.Slot(a, true), R.Slot(b, true)]) == 0
    requires s.rings == map[0 := [R.Slot(a, false), R.Slot(b, true)]]
    requires s.queue == [] && s.batch == [] && s.writer.Collecting? && s.calls.Keys == {1, 2}
    requires CallAt(s, 1, Sent) && CallAt(s, 2, Pushed) && s.calls[2].env == b
    ensures var s' := Written(cfg, s, 2);
            && s'.queue == [] && s'.batch == [] && s'.writer.Collecting?
            && At(s'.rings, 0) == [R.Slot(a, false), R.Slot(b, true)] && (forall t, e :: !UnsentBy(s', t, e))
  {
    WrittenState(cfg, s, 2);
    MarkFirstOfTwo(a, b, false);
    MarkOnly(cfg, [R.Slot(a, false), R.Slot(b, true)], b);
    WrittenCalls(s.calls, 2, 1);
  }

  lemma MarkFirstOfTwo(a: Envelope, b: Envelope, pinned: bool)
    requires a.eventId == b.eventId && R.TotalBytes([R.Slot(a, true), R.Slot(b, true)]) == 0
    ensures R.Marked([R.Slot(a, pinned), R.Slot(b, true)], a.eventId, 2, 0) == [R.Slot(a, false), R.Slot(b, true)]
  {
    var slots, t := [R.Slot(a, pinned), R.Slot(b, true)], [R.Slot(a, false), R.Slot(b, true)];
    assert slots[1..] == [R.Slot(b, true)];
    assert R.Unpin(slots, a.eventId) == t;
    assert R.Envs(t) == R.Envs([R.Slot(a, true), R.Slot(b, true)]);
    R.SameBytes(t, [R.Slot(a, true), R.Slot(b, true)]);
  }

  // ---------------------------------------------------------------- an empty ring at registration

  lemma AdmitTo(cfg: Config, seed: nat, steps: seq<Step>, s: State, t: nat, env: Envelope)
    returns (steps': seq<Step>, s': State)
    requires Reach(cfg, seed, steps) == s && cfg.writeBehindBuffer == 4
    requires t !in s.calls && |s.calls| <= 3 && s.queue == []
    ensures Reach(cfg, seed, steps') == s' && steps' == steps + Admission(t, env)
    ensures s' == s.(calls := s.calls[t := Call(StampEnv(s, env, 0), false, Recorded)],
                     counter := s.counter + 1,
                     recent := RecentIds.Record(s.recent, env.eventId, cfg.recentCapacity))
  {
    FewPermits(env, t, s.calls);
    AdmitState(cfg, s, t, env);
    steps' := Admit(cfg, seed, steps, t, env);
    s' := Reach(cfg, seed, steps');
  }

  /** Pushing one event to a channel: the subscriber is offered it. */
  lemma OfferTo(cfg: Config, s: State, t: nat)
    requires CallAt(s, t, Recorded) && 1 in s.subs
    requires s.calls[t].env.channel == 0 && !s.calls[t].env.delivery.EphemeralLatest?
    ensures var e, s' := s.calls[t].env, DoPush(cfg, s, t);
            && s'.calls == s.calls[t := Call(e, s.calls[t].ifNew, Pushed)]
            && s'.epoch == s.epoch && s'.counter == s.counter
            && s'.queue == s.queue && s'.batch == s.batch && s'.writer == s.writer && s'.sink == s.sink
            && 1 in s'.subs && s'.subs[1] == Offer(cfg, s.subs[1], e)
            && s'.past.shown == Grow(s.past.shown, 0, e) && s'.past.log == Grow(s.past.log, 0, e)
  {
  }

  /** A matching subscriber with room takes the event. */
  lemma TakesIt(cfg: Config, sub: Sub, e: Envelope)
    requires sub.filter == Everything(0) && e.channel == 0 && !sub.closed && |sub.queue| < cfg.SubscriberBuffer()
    ensures Offer(cfg, sub, e) == sub.(queue := sub.queue + [e])
  {
    assert Everything(0).Matches(e);
  }

  lemma DeliverTo(cfg: Config, s: State, t: nat)
    requires CallAt(s, t, Recorded) && cfg.subscriberBuffer == 4
    requires 1 in s.subs && s.subs[1].filter == Everything(0) && !s.subs[1].closed && |s.subs[1].queue| < 4
    requires s.calls[t].env.channel == 0 && !s.calls[t].env.delivery.EphemeralLatest?
    ensures var e, s' := s.calls[t].env, DoPush(cfg, s, t);
            && s'.calls == s.calls[t := Call(e, s.calls[t].ifNew, Pushed)]
            && s'.epoch == s.epoch && s'.counter == s.counter
            && s'.queue == s.queue && s'.batch == s.batch && s'.writer == s.writer && s'.sink == s.sink
            && 1 in s'.subs && s'.subs[1] == s.subs[1].(queue := s.subs[1].queue + [e])
            && s'.past.shown == Grow(s.past.shown, 0, e) && s'.past.log == Grow(s.past.log, 0, e)
  {
    OfferTo(cfg, s, t);
    TakesIt(cfg, s.subs[1], s.calls[t].env);
  }

  lemma WriteTo(cfg: Config, seed: nat, steps: seq<Step>, s: State, t: nat) returns (steps': seq<Step>, s': State)
    requires Reach(cfg, seed, steps) == s
    requires CallAt(s, t, Pushed) && s.calls[t].env.delivery.Durable?
    requires s.queue == [] && s.batch == [] && s.writer.Collecting?
    ensures Reach(cfg, seed, steps') == s' && steps' == steps + WriteOut(t)
    ensures var e := s.calls[t].env; s'.sink == s.sink[e.channel := Sink.Appended(At(s.sink, e.channel), e)]
    ensures s'.past.shown == s.past.shown && s'.past.log == s.past.log && s'.subs == s.subs
  {
    WrittenState(cfg, s, t);
    steps' := Write(cfg, seed, steps, t);
    s' := Reach(cfg, seed, steps');
  }

  /** One event is published and offered to the subscriber. */
  lemma PublishAt(cfg: Config, seed: nat, steps: seq<Step>, s: State, t: nat, env: Envelope)
    returns (steps': seq<Step>, s': State)
    requires Reach(cfg, seed, steps) == s && cfg.writeBehindBuffer == 4 && 1 in s.subs
    requires t !in s.calls && |s.calls| <= 3 && s.queue == [] && env.channel == 0 && !env.delivery.EphemeralLatest?
    ensures Reach(cfg, seed, steps') == s' && steps' == steps + Admission(t, env) + [Push(t)]
    ensures var e := StampEnv(s, env, 0);
            && s'.calls == s.calls[t := Call(e, false, Pushed)]
            && s'.epoch == s.epoch && s'.counter == s.counter + 1
            && s'.queue == s.queue && s'.batch == s.batch && s'.writer == s.writer && s'.sink == s.sink
            && 1 in s'.subs && s'.subs[1] == Offer(cfg, s.subs[1], e)
            && s'.past.shown == Grow(s.past.shown, 0, e) && s'.past.log == Grow(s.past.log, 0, e)
  {
    var p, s1 := AdmitTo(cfg, seed, steps, s, t, env);
    OfferTo(cfg, s1, t);
    Extend(cfg, seed, p, Push(t));
    steps' := p + [Push(t)];
    s' := DoPush(cfg, s1, t);
    Repush(s.calls, t, StampEnv(s, env, 0));
  }

  /** One event is published and reaches the subscriber's queue. */
  lemma PublishTo(cfg: Config, seed: nat, steps: seq<Step>, s: State, t: nat, env: Envelope)
    returns (steps': seq<Step>, s': State)
    requires Reach(cfg, seed, steps) == s && cfg.writeBehindBuffer == 4 && cfg.subscriberBuffer == 4
    requires t !in s.calls && |s.calls| <= 3 && s.queue == [] && env.channel == 0 && !env.delivery.EphemeralLatest?
    requires 1 in s.subs && s.subs[1].filter == Everything(0) && !s.subs[1].closed && |s.subs[1].queue| < 4
    ensures Reach(cfg, seed, steps') == s' && steps' == steps + Admission(t, env) + [Push(t)]
    ensures var e := StampEnv(s, env, 0);
            && s'.calls == s.calls[t := Call(e, false, Pushed)]
            && s'.epoch == s.epoch && s'.counter == s.counter + 1
            && s'.queue == s.queue && s'.batch == s.batch && s'.writer == s.writer && s'.sink == s.sink
            && 1 in s'.subs && s'.subs[1] == s.subs[1].(queue := s.subs[1].queue + [e])
            && s'.past.shown == Grow(s.past.shown, 0, e) && s'.past.log == Grow(s.past.log, 0, e)
  {
    steps', s' := PublishAt(cfg, seed, steps, s, t, env);
    TakesIt(cfg, s.subs[1], StampEnv(s, env, 0));
  }

  lemma Repush(calls: map<nat, Call>, t: nat, e: Envelope)
    ensures calls[t := Call(e, false, Recorded)][t := Call(e, false, Pushed)] == calls[t := Call(e, false, Pushed)]
  {
  }

  /** After the registration: two publishes in turn, then only the second is written out. */
  function SecondStoredFirst(x: Envelope, e: Envelope): seq<Step> {
    Admission(1, x) + [Push(1)] + Admission(2, e) + [Push(2)] + WriteOut(2)
  }

  lemma EmptyRingRun(cfg: Config, x: Envelope, e: Envelope)
    requires cfg.writeBehindBuffer == 4 && cfg.subscriberBuffer == 4
    requires x == Plain(1, x.delivery) && !x.delivery.EphemeralLatest? && e == Plain(2, Durable)
    ensures var s := Reach(cfg, 0, Whole([], Everything(0), SecondStoredFirst(x, e)));
            var x', e' := x.(stamp := Seq(1, 0)), e.(stamp := Seq(1, 1));
            && s.past.shown == map[0 := [x', e']] && s.past.log == map[0 := [x', e']] && At(s.sink, 0) == [e']
            && 1 in s.subs && s.subs[1] == Sub(Everything(0), [x', e'], [], false, false, 0)
  {
    var e' := e.(stamp := Seq(1, 1));
    var p2, s2 := BothPublished(cfg, x, e);
    var p3, s3 := WriteTo(cfg, 0, p2, s2, 2);
    assert Sink.Appended([], e') == [e'];
    assert p3 == Whole([], Everything(0), SecondStoredFirst(x, e));
  }

  lemma BothPublished(cfg: Config, x: Envelope, e: Envelope) returns (steps: seq<Step>, s: State)
    requires cfg.writeBehindBuffer == 4 && cfg.subscriberBuffer == 4
    requires x == Plain(1, x.delivery) && !x.delivery.EphemeralLatest? && e == Plain(2, Durable)
    ensures Reach(cfg, 0, steps) == s
    ensures steps == [Subscribe(Everything(0))] + Admission(1, x) + [Push(1)] + Admission(2, e) + [Push(2)]
    ensures var x', e' := x.(stamp := Seq(1, 0)), e.(stamp := Seq(1, 1));
            && s.past.shown == map[0 := [x', e']] && s.past.log == map[0 := [x', e']] && s.sink == map[]
            && s.queue == [] && s.batch == [] && s.writer.Collecting?
            && CallAt(s, 2, Pushed) && s.calls[2].env == e'
            && 1 in s.subs && s.subs[1] == Sub(Everything(0), [x', e'], [], false, false, 0)
  {
    var x', e' := x.(stamp := Seq(1, 0)), e.(stamp := Seq(1, 1));
    var p1, s1 := FirstPublished(cfg, x);
    steps, s := PublishTo(cfg, 0, p1, s1, 2, e);
    assert StampEnv(s1, e, 0) == e';
    assert [x'] + [e'] == [x', e'];
  }

  lemma FirstPublished(cfg: Config, x: Envelope) returns (steps: seq<Step>, s: State)
    requires cfg.writeBehindBuffer == 4 && cfg.subscriberBuffer == 4 && x == Plain(1, x.delivery) && !x.delivery.EphemeralLatest?
    ensures steps == [Subscribe(Everything(0))] + Admission(1, x) + [Push(1)]
    ensures var x' := x.(stamp := Seq(1, 0));
            && Reach(cfg, 0, steps) == s && s.epoch == 1 && s.counter == 1
            && s.calls == map[1 := Call(x', false, Pushed)]
            && s.queue == [] && s.batch == [] && s.writer.Collecting? && s.sink == map[]
            && 1 in s.subs && s.subs[1] == Sub(Everything(0), [x'], [], false, false, 0)
            && s.past.shown == map[0 := [x']] && s.past.log == map[0 := [x']]
  {
    var p0, s0 := RegisteredFirst(cfg);
    steps, s := PublishTo(cfg, 0, p0, s0, 1, x);
    assert StampEnv(s0, x, 0) == x.(stamp := Seq(1, 0));
    assert [] + [x.(stamp := Seq(1, 0))] == [x.(stamp := Seq(1, 0))];
  }

  lemma RegisteredFirst(cfg: Config) returns (steps: seq<Step>, s: State)
    ensures Reach(cfg, 0, steps) == s && s.epoch == 1 && s.counter == 0 && steps == [Subscribe(Everything(0))]
    ensures s.calls == map[] && s.queue == [] && s.batch == [] && s.writer.Collecting? && s.sink == map[]
    ensures 1 in s.subs && s.subs[1] == Sub(Everything(0), [], [], false, false, 0) && s.past.shown == map[] && s.past.log == map[]
  {
    Extend(cfg, 0, [], Subscribe(Everything(0)));
    assert Reach(cfg, 0, []) == Fresh(1, 0, map[], map[]);
    steps := [] + [Subscribe(Everything(0))];
    s := DoSubscribe(Fresh(1, 0, map[], map[]), Everything(0));
  }

  /** A subscriber that registers before the channel's first event has no ring entry to stop
      its stored leg at. Two events are pushed in order and both are sent to it; the second
      is durable and is stored before its page is read; it is yielded from the store, and the
      watermark drops the first one from the live queue. The subscriber never lagged, no read
      failed, and the first event is never yielded. That event may be of any class that goes
      through the ring: if durable, it is enough that the two sends cross. */
  lemma EmptyRingCanLoseALiveEvent(delivery: DeliveryClass, n: nat)
    returns (cfg: Config, later: seq<Step>, view: seq<Envelope>, lost: Envelope)
    requires !delivery.EphemeralLatest? && n > 1
    ensures Following(cfg, 0, [], Everything(0), later) && ReadDuring(cfg, 0, [], Everything(0), later, [|later|], [view])
    ensures lost.delivery == delivery && lost in SentTo(cfg, 0, [], Everything(0), later) && Everything(0).Matches(lost)
    ensures EndsAt([view], None, None, n).Some?
    ensures lost !in Yielded(Everything(0), None, [], [view], SentTo(cfg, 0, [], Everything(0), later), n)
  {
    cfg := Config(1, 0, 4, 4, 16);
    var x, e := Plain(1, delivery), Plain(2, Durable);
    later := SecondStoredFirst(x, e);
    lost, view := x.(stamp := Seq(1, 0)), [e.(stamp := Seq(1, 1))];
    EmptyRingFollowing(cfg, x, e);
    DroppedLive(lost, view[0], n);
  }

  lemma EmptyRingFollowing(cfg: Config, x: Envelope, e: Envelope)
    requires cfg.writeBehindBuffer == 4 && cfg.subscriberBuffer == 4
    requires x == Plain(1, x.delivery) && !x.delivery.EphemeralLatest? && e == Plain(2, Durable)
    ensures var later := SecondStoredFirst(x, e);
            var x', e' := x.(stamp := Seq(1, 0)), e.(stamp := Seq(1, 1));
            && Following(cfg, 0, [], Everything(0), later) && SentTo(cfg, 0, [], Everything(0), later) == [x', e']
            && ReadDuring(cfg, 0, [], Everything(0), later, [|later|], [[e']])
  {
    var later := SecondStoredFirst(x, e);
    var x', e' := x.(stamp := Seq(1, 0)), e.(stamp := Seq(1, 1));
    EmptyRingRun(cfg, x, e);
    var s' := Reach(cfg, 0, Whole([], Everything(0), later));
    FreshPair(s', x', e');
    assert NoRestart(later);
    FollowingPair(cfg, later, x', e');
    assert later[..|later|] == later;
  }

  lemma FollowingPair(cfg: Config, later: seq<Step>, x: Envelope, e: Envelope)
    requires NoRestart(later) && x.Cursor().IsBefore(e.Cursor())
    requires var s' := Reach(cfg, 0, Whole([], Everything(0), later));
             && FreshIds(s') && s'.past.shown == map[0 := [x, e]]
             && 1 in s'.subs && s'.subs[1] == Sub(Everything(0), [x, e], [], false, false, 0)
    ensures Following(cfg, 0, [], Everything(0), later) && SentTo(cfg, 0, [], Everything(0), later) == [x, e]
  {
    assert Reach(cfg, 0, []).nextSub == 1;
    assert [] + [x, e] == [x, e];
  }

  lemma DroppedLive(x: Envelope, e: Envelope, n: nat)
    requires x == Plain(1, x.delivery).(stamp := Seq(1, 0)) && e == Plain(2, Durable).(stamp := Seq(1, 1)) && n > 1
    ensures Everything(0).Matches(x) && EndsAt([[e]], None, None, n).Some?
    ensures Yielded(Everything(0), None, [], [[e]], [x, e], n) == [e]
  {
    var deep := Deep([[e]], Everything(0), None, None, None, n);
    SelectAll([e], AfterGate(None));
    assert Sink.Page([e], None, n) == [e];
    assert Near([e], None) == [e];
    assert Everything(0).Matches(e);
    assert Gated([e], Wanted(Everything(0)), None) == [e] by { assert [e][1..] == []; }
    assert deep == [e];
    var high := Some(e.Cursor());
    assert !AfterGate(high).Holds(x) && !AfterGate(high).Holds(e);
    GatedNothing([x, e], OfKinds(None), high);
    assert R.Envs([]) == [];
  }

  lemma {:induction false} GatedNothing(list: seq<Envelope>, p: Pred, high: Option<Cursor>)
    requires forall e :: e in list ==> !AfterGate(high).Holds(e)
    ensures Gated(list, p, high) == []
    decreases |list|
  {
    if list != [] { GatedNothing(list[1..], p, high); }
  }

  // ---------------------------------------------------------------- live events that cross

  lemma {:induction false} FirstRinged(cfg: Config, x: Envelope) returns (steps: seq<Step>, s: State)
    requires cfg.writeBehindBuffer == 4 && cfg.ringCapacity >= 1 && x == Plain(1, StreamChunk)
    ensures steps == Admission(1, x) + [Push(1)]
    ensures var x' := x.(stamp := Seq(1, 0));
            && Reach(cfg, 0, steps) == s && s.epoch == 1 && s.counter == 1 && s.nextSub == 1 && s.subs == map[]
            && s.rings == map[0 := [R.Slot(x', false)]] && s.calls == map[1 := Call(x', false, Pushed)]
            && s.queue == [] && s.sink == map[] && s.past.shown == map[0 := [x']] && s.past.log == map[0 := [x']]
  {
    assert Reach(cfg, 0, []) == Fresh(1, 0, map[], map[]);
    var p, s1 := AdmitTo(cfg, 0, [], Fresh(1, 0, map[], map[]), 1, x);
    var x' := x.(stamp := Seq(1, 0));
    assert StampEnv(Fresh(1, 0, map[], map[]), x, 0) == x';
    Extend(cfg, 0, p, Push(1));
    PushAlone(x', cfg.RingCapacity(), cfg.ringByteBudget);
    assert [] + [x'] == [x'];
    steps, s := p + [Push(1)], DoPush(cfg, s1, 1);
    assert OfferAll(cfg, map[], x') == map[];
  }

  /** After the registration: two durables are stamped in turn and pushed in the other order. */
  function Crossing(a: Envelope, b: Envelope): seq<Step> {
    Admission(2, a) + Admission(3, b) + [Push(3), Push(2)]
  }

  lemma {:induction false} CrossingAdmitted(cfg: Config, x: Envelope, a: Envelope, b: Envelope) returns (steps: seq<Step>, s: State)
    requires cfg.writeBehindBuffer == 4 && cfg.ringCapacity >= 1 && x == Plain(1, StreamChunk) && a == Plain(2, Durable) && b == Plain(3, Durable)
    ensures steps == Admission(1, x) + [Push(1)] + [Subscribe(Everything(0))] + Admission(2, a) + Admission(3, b)
    ensures var x', a', b' := x.(stamp := Seq(1, 0)), a.(stamp := Seq(1, 1)), b.(stamp := Seq(1, 2));
            && Reach(cfg, 0, steps) == s && 1 in s.subs && s.subs[1] == Sub(Everything(0), [], [], false, false, 1)
            && CallAt(s, 2, Recorded) && s.calls[2].env == a' && CallAt(s, 3, Recorded) && s.calls[3].env == b'
            && s.sink == map[] && s.past.shown == map[0 := [x']] && s.past.log == map[0 := [x']]
  {
    var p, s1 := FirstRinged(cfg, x);
    Extend(cfg, 0, p, Subscribe(Everything(0)));
    var s2 := DoSubscribe(s1, Everything(0));
    var q, s3 := AdmitTo(cfg, 0, p + [Subscribe(Everything(0))], s2, 2, a);
    assert StampEnv(s2, a, 0) == a.(stamp := Seq(1, 1));
    steps, s := AdmitTo(cfg, 0, q, s3, 3, b);
    assert StampEnv(s3, b, 0) == b.(stamp := Seq(1, 2));
  }

  lemma {:induction false} CrossingPushed(cfg: Config, x: Envelope, a: Envelope, b: Envelope)
    requires cfg.writeBehindBuffer == 4 && cfg.subscriberBuffer == 4 && cfg.ringCapacity >= 1
    requires x == Plain(1, StreamChunk) && a == Plain(2, Durable) && b == Plain(3, Durable)
    ensures var s := Reach(cfg, 0, Whole(Admission(1, x) + [Push(1)], Everything(0), Crossing(a, b)));
            var x', a', b' := x.(stamp := Seq(1, 0)), a.(stamp := Seq(1, 1)), b.(stamp := Seq(1, 2));
            && 1 in s.subs && s.subs[1] == Sub(Everything(0), [b', a'], [], false, false, 1)
            && s.past.log == map[0 := [x', b', a']] && s.sink == map[]
  {
    var x', a', b' := x.(stamp := Seq(1, 0)), a.(stamp := Seq(1, 1)), b.(stamp := Seq(1, 2));
    var p, s1 := CrossingAdmitted(cfg, x, a, b);
    CrossingState(cfg, s1, x', a', b');
    Extend(cfg, 0, p, Push(3));
    Extend(cfg, 0, p + [Push(3)], Push(2));
    CrossingSteps(x, a, b);
  }

  lemma CrossingSteps(x: Envelope, a: Envelope, b: Envelope)
    ensures Admission(1, x) + [Push(1)] + [Subscribe(Everything(0))] + Admission(2, a) + Admission(3, b) + [Push(3)] + [Push(2)]
            == Whole(Admission(1, x) + [Push(1)], Everything(0), Crossing(a, b))
  {
  }

  lemma CrossingState(cfg: Config, s: State, x: Envelope, a: Envelope, b: Envelope)
    requires cfg.subscriberBuffer == 4 && a.channel == 0 && b.channel == 0 && a.delivery.Durable? && b.delivery.Durable?
    requires 1 in s.subs && s.subs[1] == Sub(Everything(0), [], [], false, false, 1)
    requires CallAt(s, 2, Recorded) && s.calls[2].env == a && CallAt(s, 3, Recorded) && s.calls[3].env == b
    requires s.sink == map[] && s.past.log == map[0 := [x]]
    ensures var s' := DoPush(cfg, DoPush(cfg, s, 3), 2);
            && 1 in s'.subs && s'.subs[1] == Sub(Everything(0), [b, a], [], false, false, 1)
            && s'.past.log == map[0 := [x, b, a]] && s'.sink == map[]
  {
    DeliverTo(cfg, s, 3);
    DeliverTo(cfg, DoPush(cfg, s, 3), 2);
    GrowRoom([x], b);
    GrowRoom([x, b], a);
    assert [] + [b] == [b] && [b] + [a] == [b, a] && [x] + [b] == [x, b] && [x, b] + [a] == [x, b, a];
  }

  lemma GrowRoom(list: seq<Envelope>, e: Envelope)
    ensures Grow(map[0 := list], 0, e) == map[0 := list + [e]]
  {
  }

  /** Two publishes that cross before the shard lock also cost a live subscriber an event,
      whatever the ring held. The ring is not empty, ids are fresh, the subscriber neither
      lags nor closes and is sent both durables; from whatever cursor it started, the one that
      was stamped first and pushed second is never yielded. */
  lemma {:induction false} CrossedPushesDropALiveEvent(from: Option<Cursor>, n: nat)
    returns (cfg: Config, steps: seq<Step>, later: seq<Step>, lost: Envelope)
    requires n > 0
    ensures Listening(cfg, 0, steps, Everything(0), later) && At(Reach(cfg, 0, steps).rings, 0) != []
    ensures FreshIds(Reach(cfg, 0, Whole(steps, Everything(0), later))) && ReadDuring(cfg, 0, steps, Everything(0), later, [|later|], [[]])
    ensures EndsAt([[]], R.Oldest(At(Reach(cfg, 0, steps).rings, 0)), from, n).Some?
    ensures lost.delivery.Durable? && Everything(0).Matches(lost) && lost in SentTo(cfg, 0, steps, Everything(0), later)
    ensures lost !in Yielded(Everything(0), from, At(Reach(cfg, 0, steps).rings, 0), [[]], SentTo(cfg, 0, steps, Everything(0), later), n)
  {
    cfg := Config(1, 0, 4, 4, 16);
    var x, a, b := Plain(1, StreamChunk), Plain(2, Durable), Plain(3, Durable);
    var s;
    steps, s := FirstRinged(cfg, x);
    later, lost := Crossing(a, b), a.(stamp := Seq(1, 1));
    CrossingPushed(cfg, x, a, b);
    CrossingListens(cfg, x, a, b);
    YieldedExactlyWhen(cfg, 0, steps, Everything(0), later, from, [[]], n);
    NotReplayed(from, s.rings[0], lost, n);
    NeverPasses(b.(stamp := Seq(1, 2)), lost, HighAfter(BeforeLive(Everything(0), from, s.rings[0], [[]], n), from));
  }

  lemma {:induction false} CrossingListens(cfg: Config, x: Envelope, a: Envelope, b: Envelope)
    requires cfg.writeBehindBuffer == 4 && cfg.subscriberBuffer == 4 && cfg.ringCapacity >= 1
    requires x == Plain(1, StreamChunk) && a == Plain(2, Durable) && b == Plain(3, Durable)
    requires Reach(cfg, 0, Admission(1, x) + [Push(1)]).nextSub == 1
    ensures var steps, later := Admission(1, x) + [Push(1)], Crossing(a, b);
            && Listening(cfg, 0, steps, Everything(0), later) && FreshIds(Reach(cfg, 0, Whole(steps, Everything(0), later)))
            && SentTo(cfg, 0, steps, Everything(0), later) == [b.(stamp := Seq(1, 2)), a.(stamp := Seq(1, 1))]
            && ReadDuring(cfg, 0, steps, Everything(0), later, [|later|], [[]])
  {
    var later := Crossing(a, b);
    var x', a', b' := x.(stamp := Seq(1, 0)), a.(stamp := Seq(1, 1)), b.(stamp := Seq(1, 2));
    CrossingPushed(cfg, x, a, b);
    FreshThree(Reach(cfg, 0, Whole(Admission(1, x) + [Push(1)], Everything(0), later)), x', b', a');
    assert NoRestart(later) && later[..|later|] == later;
    assert [] + [b', a'] == [b', a'];
  }

  lemma FreshThree(s: State, a: Envelope, b: Envelope, c: Envelope)
    requires s.past.log == map[0 := [a, b, c]] && a.eventId != b.eventId && a.eventId != c.eventId && b.eventId != c.eventId
    ensures FreshIds(s)
  {
  }

  lemma NotReplayed(from: Option<Cursor>, slots: seq<R.Slot>, e: Envelope, n: nat)
    requires n > 0 && |slots| == 1 && slots[0].env != e
    ensures e !in BeforeLive(Everything(0), from, slots, [[]], n)
    ensures EndsAt([[]], R.Oldest(slots), from, n).Some?
  {
    assert Sink.Page([], from, n) == [];
    assert Near([], R.Oldest(slots)) == [];
    var deep := Deep([[]], Everything(0), R.Oldest(slots), from, from, n);
    assert deep == [];
    SelectMember(R.Envs(slots), AfterGate(from));
    var snapshot := Select(R.Envs(slots), AfterGate(from));
    GatedExactlyWhen(snapshot, Wanted(Everything(0)), HighAfter(deep, from), e);
    assert forall i :: 0 <= i < |snapshot| ==> snapshot[i] in snapshot;
    assert forall y :: y in R.Envs(slots) ==> y == slots[0].env;
  }

  lemma NeverPasses(b: Envelope, a: Envelope, high: Option<Cursor>)
    requires a != b && !b.Cursor().IsBefore(a.Cursor())
    ensures forall i :: Passes([b, a], OfKinds(None), high, i) ==> [b, a][i] != a
  {
    assert OfKinds(None).Holds(b);
    assert [b, a][0] == b;
  }

  // ---------------------------------------------------------------- a refusal, then a delivery

  /** Two events fill and overflow a queue of one, the first is read, a third is delivered. */
  function RefusedBetween(a: Envelope, b: Envelope, c: Envelope): seq<Step> {
    Admission(1, a) + [Push(1)] + Admission(2, b) + [Push(2)] + [Receive(1)] + Admission(3, c) + [Push(3)]
  }

  lemma {:induction false} Overflowed(cfg: Config, a: Envelope, b: Envelope) returns (steps: seq<Step>, s: State)
    requires cfg.writeBehindBuffer == 4 && cfg.subscriberBuffer == 1 && a == Plain(1, Durable) && b == Plain(2, Durable)
    ensures steps == [Subscribe(Everything(0))] + Admission(1, a) + [Push(1)] + Admission(2, b) + [Push(2)]
    ensures var a', b' := a.(stamp := Seq(1, 0)), b.(stamp := Seq(1, 1));
            && Reach(cfg, 0, steps) == s && s.epoch == 1 && s.counter == 2 && |s.calls| <= 2 && 3 !in s.calls && s.queue == []
            && 1 in s.subs && s.subs[1] == Sub(Everything(0), [a'], [], true, false, 0)
            && s.past.shown == map[0 := [a', b']] && s.past.log == map[0 := [a', b']]
  {
    var a', b' := a.(stamp := Seq(1, 0)), b.(stamp := Seq(1, 1));
    var p1, s1 := QueueOfOne(cfg, a);
    steps, s := PublishAt(cfg, 0, p1, s1, 2, b);
    assert StampEnv(s1, b, 0) == b' && Everything(0).Matches(b');
    GrowRoom([a'], b');
    assert [a'] + [b'] == [a', b'];
  }

  lemma {:induction false} QueueOfOne(cfg: Config, a: Envelope) returns (steps: seq<Step>, s: State)
    requires cfg.writeBehindBuffer == 4 && cfg.subscriberBuffer == 1 && a == Plain(1, Durable)
    ensures steps == [Subscribe(Everything(0))] + Admission(1, a) + [Push(1)]
    ensures var a' := a.(stamp := Seq(1, 0));
            && Reach(cfg, 0, steps) == s && s.epoch == 1 && s.counter == 1 && s.calls == map[1 := Call(a', false, Pushed)] && s.queue == []
            && 1 in s.subs && s.subs[1] == Sub(Everything(0), [a'], [], false, false, 0)
            && s.past.shown == map[0 := [a']] && s.past.log == map[0 := [a']]
  {
    var a' := a.(stamp := Seq(1, 0));
    var p0, s0 := RegisteredFirst(cfg);
    steps, s := PublishAt(cfg, 0, p0, s0, 1, a);
    assert StampEnv(s0, a, 0) == a';
    TakesIt(cfg, s0.subs[1], a');
    assert [] + [a'] == [a'];
  }

  lemma {:induction false} RefusedRun(cfg: Config, a: Envelope, b: Envelope, c: Envelope)
    requires cfg.writeBehindBuffer == 4 && cfg.subscriberBuffer == 1
    requires a == Plain(1, Durable) && b == Plain(2, Durable) && c == Plain(3, Durable)
    ensures var s := Reach(cfg, 0, Whole([], Everything(0), RefusedBetween(a, b, c)));
            var a', b', c' := a.(stamp := Seq(1, 0)), b.(stamp := Seq(1, 1)), c.(stamp := Seq(1, 2));
            && 1 in s.subs && s.subs[1] == Sub(Everything(0), [c'], [a'], true, false, 0)
            && s.past.shown == map[0 := [a', b', c']] && s.past.log == map[0 := [a', b', c']]
  {
    var a', b', c' := a.(stamp := Seq(1, 0)), b.(stamp := Seq(1, 1)), c.(stamp := Seq(1, 2));
    var p, s1 := RefusedAndRead(cfg, a, b);
    var q, s2 := PublishAt(cfg, 0, p, s1, 3, c);
    ThirdDelivered(cfg, s1, a', b', c, c');
    RefusedSteps(a, b, c);
  }

  lemma RefusedSteps(a: Envelope, b: Envelope, c: Envelope)
    ensures [Subscribe(Everything(0))] + Admission(1, a) + [Push(1)] + Admission(2, b) + [Push(2)] + [Receive(1)] + Admission(3, c) + [Push(3)]
            == Whole([], Everything(0), RefusedBetween(a, b, c))
  {
  }

  lemma {:induction false} RefusedAndRead(cfg: Config, a: Envelope, b: Envelope) returns (steps: seq<Step>, s: State)
    requires cfg.writeBehindBuffer == 4 && cfg.subscriberBuffer == 1 && a == Plain(1, Durable) && b == Plain(2, Durable)
    ensures steps == [Subscribe(Everything(0))] + Admission(1, a) + [Push(1)] + Admission(2, b) + [Push(2)] + [Receive(1)]
    ensures var a', b' := a.(stamp := Seq(1, 0)), b.(stamp := Seq(1, 1));
            && Reach(cfg, 0, steps) == s && s.epoch == 1 && s.counter == 2 && |s.calls| <= 2 && 3 !in s.calls && s.queue == []
            && 1 in s.subs && s.subs[1] == Sub(Everything(0), [], [a'], true, false, 0)
            && s.past.shown == map[0 := [a', b']] && s.past.log == map[0 := [a', b']]
  {
    var p, s0 := Overflowed(cfg, a, b);
    Extend(cfg, 0, p, Receive(1));
    OneRead(s0, a.(stamp := Seq(1, 0)));
    Reads(cfg, s0);
    steps, s := p + [Receive(1)], DoReceive(s0, 1);
  }

  lemma Reads(cfg: Config, s: State)
    ensures Apply(cfg, s, Receive(1)) == DoReceive(s, 1)
  {
  }

  lemma OneRead(s: State, a: Envelope)
    requires 1 in s.subs && s.subs[1] == Sub(Everything(0), [a], [], true, false, 0)
    ensures var s' := DoReceive(s, 1);
            && 1 in s'.subs && s'.subs[1] == Sub(Everything(0), [], [a], true, false, 0)
            && s' == s.(subs := s'.subs)
  {
    assert [a][1..] == [] && [] + [a] == [a];
  }

  lemma ThirdDelivered(cfg: Config, s: State, a: Envelope, b: Envelope, c: Envelope, c': Envelope)
    requires cfg.subscriberBuffer == 1 && s.epoch == 1 && s.counter == 2 && c == Plain(3, Durable) && c' == c.(stamp := Seq(1, 2))
    requires 1 in s.subs && s.subs[1] == Sub(Everything(0), [], [a], true, false, 0)
    requires s.past.shown == map[0 := [a, b]] && s.past.log == map[0 := [a, b]]
    ensures StampEnv(s, c, 0) == c' && Offer(cfg, s.subs[1], c') == Sub(Everything(0), [c'], [a], true, false, 0)
    ensures Grow(s.past.shown, 0, c') == map[0 := [a, b, c']] && Grow(s.past.log, 0, c') == map[0 := [a, b, c']]
  {
    TakesIt(cfg, s.subs[1], c');
    GrowRoom([a, b], c');
    assert [] + [c'] == [c'] && [a, b] + [c'] == [a, b, c'];
  }

  /** A lagged subscriber is meant to resume from its last cursor. If a durable event is refused
      while the queue is full and a later one is delivered, that cursor lies past the refused
      event: it was never delivered, and no catch-up from there holds it. */
  lemma {:induction false} LaggedResumeMissesTheRefused() returns (cfg: Config, later: seq<Step>, lost: Envelope)
    ensures Registered(cfg, 0, [], Everything(0), later) && FreshIds(Reach(cfg, 0, Whole([], Everything(0), later)))
    ensures var s' := Reach(cfg, 0, Whole([], Everything(0), later));
            var sent := SentTo(cfg, 0, [], Everything(0), later);
            && s'.subs[1].lagged && Sorted(At(s'.past.shown, 0))
            && lost.delivery.Durable? && lost in Owed(cfg, 0, [], Everything(0), later)
            && sent != [] && lost !in sent && lost !in CatchUp(s', Everything(0), Some(sent[|sent| - 1].Cursor()))
  {
    cfg := Config(4, 0, 1, 4, 16);
    var a, b, c := Plain(1, Durable), Plain(2, Durable), Plain(3, Durable);
    var a', b', c' := a.(stamp := Seq(1, 0)), b.(stamp := Seq(1, 1)), c.(stamp := Seq(1, 2));
    later, lost := RefusedBetween(a, b, c), b';
    RefusedRun(cfg, a, b, c);
    var s' := Reach(cfg, 0, Whole([], Everything(0), later));
    FreshThree(s', a', b', c');
    assert Reach(cfg, 0, []).nextSub == 1 && At(Reach(cfg, 0, []).past.shown, 0) == [];
    assert NoRestart(later);
    assert [a'] + [c'] == [a', c'];
    assert SentTo(cfg, 0, [], Everything(0), later) == [a', c'];
    OwedAll(a', b', c');
    assert [a', b', c'][0..] == [a', b', c'];
    SelectMember(At(s'.past.log, 0), Both(Wanting(Everything(0), Some(c'.Cursor())), IsDurable));
    assert !Both(Wanting(Everything(0), Some(c'.Cursor())), IsDurable).Holds(b') by {
      assert !AfterGate(Some(c'.Cursor())).Holds(b');
      assert !Wanting(Everything(0), Some(c'.Cursor())).Holds(b');
    }
  }

  lemma OwedAll(a: Envelope, b: Envelope, c: Envelope)
    requires a.channel == 0 && b.channel == 0 && c.channel == 0
    ensures b in Select([a, b, c], Wanted(Everything(0)))
  {
    SelectMember([a, b, c], Wanted(Everything(0)));
    assert Wanted(Everything(0)).Holds(b);
    assert [a, b, c][1] == b;
  }

  // ---------------------------------------------------------------- a window that rolls too early

  /** The steps of one `publish_if_new`; a step that does not apply changes nothing. */
  function IfNew(t: nat, env: Envelope): seq<Step> {
    [StartIfNew(t, env), Probe(t, false), Reserve(t, false), Stamp(t, 0), Record(t), Push(t), Send(t), Finish(t)]
  }

  /** The write-behind queue has room for the event, if it needs any. */
  ghost predicate HasRoom(cfg: Config, s: State, env: Envelope) {
    env.delivery.Durable? ==> |s.queue| + |Permits(s.calls)| < cfg.WriteBehindBuffer()
  }

  /** A new event of any class is published by `publish_if_new` while nothing else runs. */
  lemma IfNewTo(cfg: Config, seed: nat, steps: seq<Step>, s: State, t: nat, env: Envelope)
    returns (steps': seq<Step>, s': State)
    requires Reach(cfg, seed, steps) == s && cfg.recentCapacity > 0 && HasRoom(cfg, s, env)
    requires t !in s.calls && env.eventId !in s.recent && !Stored(s.sink, env.eventId)
    ensures Reach(cfg, seed, steps') == s' && steps' == steps + IfNew(t, env)
    ensures s'.calls == s.calls && s'.sink == s.sink
    ensures s'.past.published == s.past.published + [env.eventId]
    ensures s'.past.shown == Grow(s.past.shown, env.channel, StampEnv(s, env, 0))
    ensures s'.recent == RecentIds.Record(s.recent, env.eventId, cfg.recentCapacity)
  {
    var p, s1 := IfNewAdmitted(cfg, seed, steps, s, t, env);
    var q, s2 := IfNewReserved(cfg, seed, p, s, s1, t, env);
    RecordsId(s.recent, env.eventId, cfg.recentCapacity);
    assert s2.recent == s1.recent && s2.sink == s.sink && s2.past == s.past && s2.calls[t].env == env;
    assert StampEnv(s2, env, 0) == StampEnv(s, env, 0);
    WithoutCall(s.calls, t, Call(env, true, Admitted), Call(env, true, Reserved));
    steps', s' := IfNewFinished(cfg, seed, q, s2, t);
  }

  lemma WithoutCall(calls: map<nat, Call>, t: nat, c: Call, d: Call)
    requires t !in calls
    ensures calls[t := c][t := d] - {t} == calls
  {
  }

  lemma RecordsId(order: seq<EventId>, id: EventId, capacity: nat)
    ensures id in RecentIds.Record(order, id, capacity)
  {
  }

  /** The reservation of a call that was just admitted succeeds exactly when there is room. */
  lemma ReserveDecides(cfg: Config, s: State, s1: State, t: nat, env: Envelope)
    requires t !in s.calls && s1.calls == s.calls[t := Call(env, true, Admitted)] && s1.queue == s.queue
    ensures HasRoom(cfg, s, env) ==> DoReserve(cfg, s1, t, false) == MoveTo(s1, t, Reserved)
    ensures !HasRoom(cfg, s, env) ==> DoReserve(cfg, s1, t, false) == Abandon(s1, t).(shed := s1.shed + 1)
  {
    PermitsMove(s.calls, t, Call(env, true, Admitted));
  }

  lemma IfNewReserved(cfg: Config, seed: nat, steps: seq<Step>, s: State, s1: State, t: nat, env: Envelope)
    returns (steps': seq<Step>, s': State)
    requires Reach(cfg, seed, steps) == s1 && HasRoom(cfg, s, env) && t !in s.calls
    requires s1.calls == s.calls[t := Call(env, true, Admitted)] && s1.queue == s.queue
    ensures Reach(cfg, seed, steps') == s' && steps' == steps + [Reserve(t, false)]
    ensures s' == MoveTo(s1, t, Reserved)
  {
    Extend(cfg, seed, steps, Reserve(t, false));
    Calls(cfg, s1, t, env);
    ReserveDecides(cfg, s, s1, t, env);
    steps', s' := steps + [Reserve(t, false)], DoReserve(cfg, s1, t, false);
  }

  lemma IfNewAdmitted(cfg: Config, seed: nat, steps: seq<Step>, s: State, t: nat, env: Envelope)
    returns (steps': seq<Step>, s': State)
    requires Reach(cfg, seed, steps) == s
    requires t !in s.calls && env.eventId !in s.recent && !Stored(s.sink, env.eventId)
    ensures Reach(cfg, seed, steps') == s' && steps' == steps + [StartIfNew(t, env), Probe(t, false)]
    ensures s' == s.(calls := s.calls[t := Call(env, true, Admitted)],
                     recent := RecentIds.Record(s.recent, env.eventId, cfg.recentCapacity))
  {
    Extend(cfg, seed, steps, StartIfNew(t, env));
    var a := steps + [StartIfNew(t, env)];
    var s1 := s.(calls := s.calls[t := Call(env, true, Probing)], recent := RecentIds.Record(s.recent, env.eventId, cfg.recentCapacity));
    assert Reach(cfg, seed, a) == s1;
    Extend(cfg, seed, a, Probe(t, false));
    steps' := a + [Probe(t, false)];
    s' := MoveTo(s1, t, Admitted);
  }

  lemma IfNewFinished(cfg: Config, seed: nat, steps: seq<Step>, s: State, t: nat)
    returns (steps': seq<Step>, s': State)
    requires Reach(cfg, seed, steps) == s
    requires CallAt(s, t, Reserved) && s.calls[t].env.eventId in s.recent
    ensures Reach(cfg, seed, steps') == s' && steps' == steps + [Stamp(t, 0), Record(t), Push(t), Send(t), Finish(t)]
    ensures s'.calls == s.calls - {t} && s'.sink == s.sink && s'.recent == s.recent
    ensures s'.past.published == s.past.published + [s.calls[t].env.eventId]
    ensures s'.past.shown == Grow(s.past.shown, s.calls[t].env.channel, StampEnv(s, s.calls[t].env, 0))
  {
    var p, s1 := RecordedTo(cfg, seed, steps, s, t);
    PushedAndSent(cfg, s1, t);
    Extend(cfg, seed, p, Push(t));
    Extend(cfg, seed, p + [Push(t)], Send(t));
    Hands(cfg, DoPush(cfg, s1, t), t);
    Extend(cfg, seed, p + [Push(t)] + [Send(t)], Finish(t));
    Finishes(cfg, DoSend(DoPush(cfg, s1, t), t), t);
    steps' := p + [Push(t)] + [Send(t)] + [Finish(t)];
    s' := DoFinish(DoSend(DoPush(cfg, s1, t), t), t);
    assert s1.calls - {t} == s.calls - {t};
  }

  lemma Finishes(cfg: Config, s: State, t: nat)
    ensures Apply(cfg, s, Finish(t)) == DoFinish(s, t)
  {
  }

  /** From the shard lock to the end of the call, for any class. */
  lemma PushedAndSent(cfg: Config, s: State, t: nat)
    requires CallAt(s, t, Recorded)
    ensures var e, s' := s.calls[t].env, DoFinish(DoSend(DoPush(cfg, s, t), t), t);
            && s'.calls == s.calls - {t} && s'.sink == s.sink && s'.recent == s.recent
            && s'.past.published == s.past.published + [e.eventId] && s'.past.shown == Grow(s.past.shown, e.channel, e)
  {
    var s1 := DoPush(cfg, s, t);
    assert CallAt(s1, t, Pushed) && s1.calls - {t} == s.calls - {t};
    SentOrNot(s1, t);
  }

  lemma SentOrNot(s: State, t: nat)
    requires CallAt(s, t, Pushed)
    ensures var s' := DoFinish(DoSend(s, t), t);
            && s'.calls == s.calls - {t} && s'.sink == s.sink && s'.recent == s.recent
            && s'.past.published == s.past.published + [s.calls[t].env.eventId] && s'.past.shown == s.past.shown
  {
    var s1 := DoSend(s, t);
    assert s1.calls - {t} == s.calls - {t};
    if s.calls[t].env.delivery.Durable? { assert CallAt(s1, t, Sent); } else { assert s1 == s; }
  }

  lemma RecordedTo(cfg: Config, seed: nat, steps: seq<Step>, s: State, t: nat)
    returns (steps': seq<Step>, s': State)
    requires Reach(cfg, seed, steps) == s
    requires CallAt(s, t, Reserved) && s.calls[t].env.eventId in s.recent
    ensures Reach(cfg, seed, steps') == s' && steps' == steps + [Stamp(t, 0), Record(t)]
    ensures s' == s.(calls := s.calls[t := Call(StampEnv(s, s.calls[t].env, 0), s.calls[t].ifNew, Recorded)], counter := s.counter + 1)
  {
    var env := StampEnv(s, s.calls[t].env, 0);
    Extend(cfg, seed, steps, Stamp(t, 0));
    var a := steps + [Stamp(t, 0)];
    var s1 := s.(calls := s.calls[t := Call(env, s.calls[t].ifNew, Stamped)], counter := s.counter + 1);
    assert Reach(cfg, seed, a) == s1;
    Extend(cfg, seed, a, Record(t));
    steps' := a + [Record(t)];
    s' := MoveTo(s1, t, Recorded);
  }

  lemma {:induction false} Above(ks: set<nat>) returns (m: nat)
    ensures forall k :: k in ks ==> k < m
  {
    if ks == {} {
      m := 0;
    } else {
      var k :| k in ks;
      var n := Above(ks - {k});
      m := if k < n then n else k + 1;
      assert forall x :: x in ks ==> x == k || x in ks - {k};
    }
  }

  /** Steps of a call that is not running change nothing. */
  lemma NoCallNoChange(cfg: Config, s: State, t: nat)
    requires t !in s.calls
    ensures Apply(cfg, s, Probe(t, false)) == s && Apply(cfg, s, Reserve(t, false)) == s && Apply(cfg, s, Stamp(t, 0)) == s
  {
  }

  lemma NoCallNoPush(cfg: Config, s: State, t: nat)
    requires t !in s.calls
    ensures Apply(cfg, s, Record(t)) == s && Apply(cfg, s, Push(t)) == s
  {
  }

  lemma NoCallNoEnd(cfg: Config, s: State, t: nat)
    requires t !in s.calls
    ensures Apply(cfg, s, Send(t)) == s && Apply(cfg, s, Finish(t)) == s
  {
  }

  lemma IdleCall(cfg: Config, seed: nat, steps: seq<Step>, t: nat)
    requires t !in Reach(cfg, seed, steps).calls
    ensures Reach(cfg, seed, steps + [Stamp(t, 0), Record(t), Push(t), Send(t), Finish(t)]) == Reach(cfg, seed, steps)
  {
    var s := Reach(cfg, seed, steps);
    NoCallNoChange(cfg, s, t);
    NoCallNoPush(cfg, s, t);
    NoCallNoEnd(cfg, s, t);
    var a := steps + [Stamp(t, 0)];
    var b := a + [Record(t)];
    var c := b + [Push(t)];
    var d := c + [Send(t)];
    Extend(cfg, seed, steps, Stamp(t, 0));
    Extend(cfg, seed, a, Record(t));
    Extend(cfg, seed, b, Push(t));
    Extend(cfg, seed, c, Send(t));
    Extend(cfg, seed, d, Finish(t));
    assert d + [Finish(t)] == steps + [Stamp(t, 0), Record(t), Push(t), Send(t), Finish(t)];
  }

  /** A `publish_if_new` of any class that runs alone reports Published exactly when its id is
      in neither the window nor the store and, if it is durable, the write-behind queue has
      room. */
  lemma PublishedExactlyWhen(cfg: Config, seed: nat, steps: seq<Step>, t: nat, env: Envelope)
    requires cfg.recentCapacity > 0 && t !in Reach(cfg, seed, steps).calls
    ensures var s, s' := Reach(cfg, seed, steps), Reach(cfg, seed, steps + IfNew(t, env));
            var isNew := env.eventId !in s.recent && !Stored(s.sink, env.eventId);
            s'.past.published == s.past.published + if isNew && HasRoom(cfg, s, env) then [env.eventId] else []
  {
    var s := Reach(cfg, seed, steps);
    if env.eventId in s.recent || Stored(s.sink, env.eventId) {
      DuplicateCall(cfg, seed, steps, t, env);
    } else if HasRoom(cfg, s, env) {
      var p, s' := IfNewTo(cfg, seed, steps, s, t, env);
    } else {
      RefusedCall(cfg, seed, steps, t, env);
    }
  }

  lemma DuplicateCall(cfg: Config, seed: nat, steps: seq<Step>, t: nat, env: Envelope)
    requires var s := Reach(cfg, seed, steps); t !in s.calls && (env.eventId in s.recent || Stored(s.sink, env.eventId))
    ensures Reach(cfg, seed, steps + IfNew(t, env)).past.published == Reach(cfg, seed, steps).past.published
  {
    var s := Reach(cfg, seed, steps);
    var a := steps + [StartIfNew(t, env)];
    var b := a + [Probe(t, false)];
    var c := b + [Reserve(t, false)];
    Extend(cfg, seed, steps, StartIfNew(t, env));
    Extend(cfg, seed, a, Probe(t, false));
    Duplicate(cfg, s, t, env);
    Extend(cfg, seed, b, Reserve(t, false));
    NoCallNoChange(cfg, Reach(cfg, seed, b), t);
    IdleCall(cfg, seed, c, t);
    assert c + [Stamp(t, 0), Record(t), Push(t), Send(t), Finish(t)] == steps + IfNew(t, env);
  }

  lemma RefusedCall(cfg: Config, seed: nat, steps: seq<Step>, t: nat, env: Envelope)
    requires var s := Reach(cfg, seed, steps);
             t !in s.calls && env.eventId !in s.recent && !Stored(s.sink, env.eventId) && !HasRoom(cfg, s, env)
    ensures Reach(cfg, seed, steps + IfNew(t, env)).past.published == Reach(cfg, seed, steps).past.published
  {
    var s := Reach(cfg, seed, steps);
    var p, s1 := IfNewAdmitted(cfg, seed, steps, s, t, env);
    Extend(cfg, seed, p, Reserve(t, false));
    Calls(cfg, s1, t, env);
    ReserveDecides(cfg, s, s1, t, env);
    var c := p + [Reserve(t, false)];
    assert t !in Abandon(s1, t).calls;
    IdleCall(cfg, seed, c, t);
    assert c + [Stamp(t, 0), Record(t), Push(t), Send(t), Finish(t)] == steps + IfNew(t, env);
  }

  lemma Duplicate(cfg: Config, s: State, t: nat, env: Envelope)
    requires t !in s.calls && (env.eventId in s.recent || Stored(s.sink, env.eventId))
    ensures var s' := Apply(cfg, Apply(cfg, s, StartIfNew(t, env)), Probe(t, false));
            t !in s'.calls && s'.past.published == s.past.published
  {
    var s1 := DoStartIfNew(cfg, s, t, env);
    assert Apply(cfg, s, StartIfNew(t, env)) == s1;
    assert Apply(cfg, s1, Probe(t, false)) == DoProbe(s1, t, false);
  }

  /** From any reached state, an id that was published and is now in neither window nor store
      can be published again, as an event of any class for which there is room: it is shown to
      its channel a second time. */
  lemma RollingOffReopens(cfg: Config, seed: nat, steps: seq<Step>, env: Envelope) returns (later: seq<Step>)
    requires cfg.recentCapacity > 0 && HasRoom(cfg, Reach(cfg, seed, steps), env)
    requires var s := Reach(cfg, seed, steps); env.eventId in s.past.published && env.eventId !in s.recent && !Stored(s.sink, env.eventId)
    ensures NoRestart(later) && !RecentIds.Distinct(Reach(cfg, seed, steps + later).past.published)
    ensures var s, s' := Reach(cfg, seed, steps), Reach(cfg, seed, steps + later);
            At(s'.past.shown, env.channel) == At(s.past.shown, env.channel) + [StampEnv(s, env, 0)]
  {
    var s := Reach(cfg, seed, steps);
    var t := Above(s.calls.Keys);
    assert t !in s.calls;
    later := IfNew(t, env);
    var p, s' := IfNewTo(cfg, seed, steps, s, t, env);
    var i :| 0 <= i < |s.past.published| && s.past.published[i] == env.eventId;
    var all := s.past.published + [env.eventId];
    assert all[i] == all[|s.past.published|];
  }

  /** Publishing the ids 0 to n in turn: the window holds the newest of them. */
  lemma {:induction false} Fill(cfg: Config, n: nat) returns (steps: seq<Step>, s: State)
    requires cfg.recentCapacity > 0
    ensures Reach(cfg, 0, steps) == s && s.calls == map[] && s.sink == map[] && 0 in s.past.published
    ensures s.recent == NewestIds(n, cfg.recentCapacity)
  {
    if n == 0 {
      assert Reach(cfg, 0, []) == Fresh(1, 0, map[], map[]);
      steps, s := IfNewTo(cfg, 0, [], Fresh(1, 0, map[], map[]), 0, Plain(0, StreamChunk));
    } else {
      var p, s1 := Fill(cfg, n - 1);
      RollOne(n, cfg.recentCapacity);
      steps, s := FillOne(cfg, p, s1, n);
    }
  }

  lemma FillOne(cfg: Config, steps: seq<Step>, s: State, n: nat) returns (steps': seq<Step>, s': State)
    requires cfg.recentCapacity > 0 && Reach(cfg, 0, steps) == s && s.calls == map[] && s.sink == map[] && n !in s.recent
    ensures Reach(cfg, 0, steps') == s' && s'.calls == map[] && s'.sink == map[]
    ensures forall x :: x in s.past.published ==> x in s'.past.published
    ensures s'.recent == RecentIds.Record(s.recent, n, cfg.recentCapacity)
  {
    steps', s' := IfNewTo(cfg, 0, steps, s, 0, Plain(n, StreamChunk));
  }

  /** The newest `cap` of the ids 0 to n. */
  function NewestIds(n: nat, cap: nat): seq<EventId> {
    var first := if n + 1 <= cap then 0 else n + 1 - cap;
    seq(n + 1 - first, i => first + i)
  }

  lemma RollOne(n: nat, cap: nat)
    requires cap > 0 && n > 0
    ensures n !in NewestIds(n - 1, cap)
    ensures RecentIds.Record(NewestIds(n - 1, cap), n, cap) == NewestIds(n, cap)
  {
    var recent, all := NewestIds(n - 1, cap), NewestIds(n, cap);
    var r := RecentIds.Record(recent, n, cap);
    assert |r| == |all|;
    forall i | 0 <= i < |r| ensures r[i] == all[i] { }
  }

  /** An id that leaves the window before it is stored can be published twice, whatever the
      size of the window. */
  lemma RolledIdIsPublishedTwice(cfg: Config) returns (steps: seq<Step>)
    requires cfg.recentCapacity > 0
    ensures !RecentIds.Distinct(Reach(cfg, 0, steps).past.published)
  {
    var p, s := Fill(cfg, cfg.recentCapacity);
    assert 0 !in s.recent;
    var later := RollingOffReopens(cfg, 0, p, Plain(0, StreamChunk));
    steps := p + later;
  }

  /** In particular the window of the original. */
  lemma RolledIdOfTheWindow(cfg: Config) returns (steps: seq<Step>)
    requires cfg.recentCapacity == RecentIds.RECENT_PUBLISH_IDS_CAPACITY
    ensures !RecentIds.Distinct(Reach(cfg, 0, steps).past.published)
  {
    steps := RolledIdIsPublishedTwice(cfg);
  }
}
